/** What every interleaved run guarantees, in the service's own terms. */
module Guarantees {
  import opened Domain
  import opened Ledger
  import opened Invariant
  import opened Settle
  import opened Conservation
  import opened Reserve
  import opened Intake
  import opened Interleaving
  import opened CacheKey

  predicate Setup(cat: Catalogue, base: Base) { GoodBase(base) && cat.pools == base.pools }

  function DbAfter(cfg: Config, cat: Catalogue, base: Base, labels: seq<Label>): Db {
    Run(cfg, cat, base, labels).db
  }

  // ---- capacity and quota ---------------------------------------------------------------------

  /** Conservation and no oversell: after any run each pool counter is exactly what the hold and
      dedication rows say, and together they never exceed the effective capacity. */
  lemma CountersMatchRecords(cfg: Config, cat: Catalogue, base: Base, labels: seq<Label>, p: Id)
    requires Setup(cat, base) && p in base.pools
    ensures var db := DbAfter(cfg, cat, base, labels);
      && p in db.pools
      && db.pools[p].effective == base.pools[p].effective
      && db.pools[p].reserved == HeldTotal(db.rows, p)
      && db.pools[p].dedicated == base.pools[p].dedicated + DedicatedTotal(db.rows, p)
      && 0 <= HeldTotal(db.rows, p) && 0 <= DedicatedTotal(db.rows, p)
      && HeldTotal(db.rows, p) + base.pools[p].dedicated + DedicatedTotal(db.rows, p) <= base.pools[p].effective
  {
    RunOk(cfg, cat, base, labels);
    var db := DbAfter(cfg, cat, base, labels);
    assert PoolOk(base, db.rows, p, db.pools[p]);
    SharesWithinTotals(cfg, base, db.rows, p, QuotaKey("", ""));
  }

  /** The quota ledger: after any run a customer's usage of a kind is what it started with plus the
      amounts of its ACTIVE and DEDICATED holds of that kind, and stays within the limit. */
  lemma QuotaMatchesRecords(cfg: Config, cat: Catalogue, base: Base, labels: seq<Label>, key: QuotaKey)
    requires Setup(cat, base)
    ensures var db := DbAfter(cfg, cat, base, labels);
      var q := QuotaRow(db.quotas, key);
      && q.limit == BaseQuota(base, key).limit
      && q.used == BaseQuota(base, key).used + ChargedTotal(base.pools, db.rows, key)
      && 0 <= q.used <= q.limit
      && (ChargedTotal(base.pools, db.rows, key) > 0 ==> key in db.quotas)
  {
    RunOk(cfg, cat, base, labels);
    var db := DbAfter(cfg, cat, base, labels);
    assert QuotaOk(base, db, key);
    SharesWithinTotals(cfg, base, db.rows, 0, key);
    assert 0 <= BaseQuota(base, key).used;
  }

  predicate PoolGuardsHold(pools: Pools, hs: seq<Hold>, k: nat)
    requires k < |hs|
  {
    var moved, released := MoveAll(pools, hs[..k]), ReleaseAll(pools, hs[..k]);
    && hs[k].poolId in moved && moved[hs[k].poolId].reserved >= hs[k].amount
    && hs[k].poolId in released && released[hs[k].poolId].reserved >= hs[k].amount
  }

  predicate RefundGuardsHold(quotas: Quotas, customer: Customer, kinds: map<Id, Kind>, hs: seq<Hold>, k: nat)
    requires k < |hs|
  {
    && hs[k].poolId in kinds && kinds[hs[k].poolId] != ""
    && var key := QuotaKey(customer, kinds[hs[k].poolId]);
       var refunded := RefundAll(quotas, customer, kinds, hs[..k]);
       key in refunded && refunded[key].used >= hs[k].amount
  }

  /** No statement of a confirm or a release is ever skipped: after any run, at each hold the loops come
      to, the guard reserved_amount >= amount is true, the pool has a kind in the lookup table and the
      clamp of the refund at zero does not fire. */
  lemma GuardsNeverSkip(cfg: Config, cat: Catalogue, base: Base, labels: seq<Label>, id: Id, k: nat)
    requires Setup(cat, base) && id in DbAfter(cfg, cat, base, labels).rows
    requires k < |Listed(DbAfter(cfg, cat, base, labels), id)|
    ensures var db := DbAfter(cfg, cat, base, labels);
      var e := db.rows[id];
      && PoolGuardsHold(db.pools, Listed(db, id), k)
      && RefundGuardsHold(db.quotas, e.req.customer, KindByPool(e.lines), Listed(db, id), k)
  {
    RunOk(cfg, cat, base, labels);
    var db := DbAfter(cfg, cat, base, labels);
    assert EntryOk(cfg, base.pools, id, db.rows[id]);
    EntryListed(cfg, base.pools, id, db.rows[id], Listed(db, id));
    ReservedIsCovered(cfg, base, db, id);
    LoopsReach(base.pools, db, id, Listed(db, id), k);
  }

  lemma LoopsReach(pools: Pools, db: Db, id: Id, hs: seq<Hold>, k: nat)
    requires id in db.rows && k < |hs| && Covered(db.pools, hs)
    requires Chargeable(pools, db.quotas, db.rows[id].req.customer, KindByPool(db.rows[id].lines), hs)
    ensures PoolGuardsHold(db.pools, hs, k)
    ensures RefundGuardsHold(db.quotas, db.rows[id].req.customer, KindByPool(db.rows[id].lines), hs, k)
  {
    var customer, kinds, upTo := db.rows[id].req.customer, KindByPool(db.rows[id].lines), hs[..k + 1];
    assert upTo[..|upTo| - 1] == hs[..k];
    CoveredTake(db.pools, hs, k);
    CoveredTake(db.pools, hs, k + 1);
    ReleaseAllExact(db.pools, hs[..k]);
    MoveAllExact(db.pools, hs[..k]);
    ReleaseAllExact(db.pools, upTo);
    MoveAllExact(db.pools, upTo);
    ChargeableTake(pools, db.quotas, customer, kinds, hs, k + 1);
    RefundAllExact(pools, db.quotas, customer, kinds, upTo);
  }

  /** Every counter of a reachable state, and every sum or difference the next statement forms with
      an amount it can be given, stays within 64 bits. */
  lemma CountersFitInt64(cfg: Config, cat: Catalogue, base: Base, labels: seq<Label>, p: Id, key: QuotaKey, amount: int)
    requires Setup(cat, base) && p in base.pools && 0 < amount <= MAX_AMOUNT
    ensures p in DbAfter(cfg, cat, base, labels).pools
    ensures var pool := DbAfter(cfg, cat, base, labels).pools[p];
      && 0 <= pool.effective - pool.dedicated - pool.reserved <= MAX_INT64
      && (TryReserve(map[p := pool], p, amount).Some? ==> pool.reserved + amount <= MAX_INT64)
      && (pool.reserved >= amount ==> pool.dedicated + amount <= MAX_INT64)
    ensures var q := QuotaRow(DbAfter(cfg, cat, base, labels).quotas, key);
      && 0 <= q.limit - q.used <= MAX_INT64
      && (q.limit - q.used >= amount ==> q.used + amount <= MAX_INT64)
      && -MAX_INT64 <= q.used - amount
  {
    CountersMatchRecords(cfg, cat, base, labels, p);
    QuotaMatchesRecords(cfg, cat, base, labels, key);
    assert 0 <= base.pools[p].dedicated;
    assert BaseQuota(base, key).limit <= MAX_INT64;
  }

  // ---- the life cycle -------------------------------------------------------------------------

  lemma EntryAfter(cfg: Config, cat: Catalogue, base: Base, labels: seq<Label>, id: Id)
    requires Setup(cat, base) && id in DbAfter(cfg, cat, base, labels).rows
    ensures EntryOk(cfg, base.pools, id, DbAfter(cfg, cat, base, labels).rows[id])
  {
    RunOk(cfg, cat, base, labels);
  }

  /** A request's holds and dedications are determined by its lines and its status. */
  lemma RecordsFollowStatus(cfg: Config, cat: Catalogue, base: Base, labels: seq<Label>, id: Id)
    requires Setup(cat, base) && id in DbAfter(cfg, cat, base, labels).rows
    ensures var e := DbAfter(cfg, cat, base, labels).rows[id];
      && (e.req.status == Rejected ==> e.holds == [] && e.dedications == [])
      && (e.req.status != Rejected ==> |e.holds| == |e.lines|)
      && (forall i :: 0 <= i < |e.holds| ==>
           && e.holds[i].poolId == e.lines[i].poolId && e.holds[i].amount == e.lines[i].amount
           && (e.holds[i].status == Active <==> e.req.status == Reserved)
           && (e.holds[i].status == HoldStatus.Dedicated <==> e.req.status == Completed)
           && (e.holds[i].status == Released <==> e.req.status == Cancelled)
           && (e.holds[i].status == Lapsed <==> e.req.status == Expired))
      && |e.dedications| == (if e.req.status == Completed then |e.holds| else 0)
      && (forall i :: 0 <= i < |e.dedications| ==>
           && e.dedications[i].holdId == e.holds[i].id
           && e.dedications[i].poolId == e.holds[i].poolId
           && e.dedications[i].amount == e.holds[i].amount)
  {
    EntryAfter(cfg, cat, base, labels, id);
  }

  /** Between two moments of a run a request's status either stays or makes a permitted transition,
      and once it is terminal the request and all its records never change again. */
  lemma TerminalStatesAbsorb(cfg: Config, cat: Catalogue, base: Base, labels: seq<Label>, k: nat, id: Id)
    requires Setup(cat, base) && k <= |labels| && id in DbAfter(cfg, cat, base, labels[..k]).rows
    ensures id in DbAfter(cfg, cat, base, labels).rows
    ensures var e := DbAfter(cfg, cat, base, labels[..k]).rows[id];
      var e' := DbAfter(cfg, cat, base, labels).rows[id];
      && (e.req.status == e'.req.status || ValidateTransition(e.req.status, e'.req.status))
      && (e'.req.status != e.req.status ==> e.req.status == Reserved && e'.req.status in {Completed, Cancelled, Expired})
      && (e.req.status != Reserved ==> e' == e)
      && e.events <= e'.events
  {
    RunForward(cfg, cat, base, labels, k);
  }

  // ---- the audit trail ------------------------------------------------------------------------

  function Repeat(ev: Event, n: nat): seq<Event> { seq(n, _ => ev) }

  /** "rejected", or "reserved extended*" followed by at most one of confirmed, cancelled, expired. */
  predicate MatchesTrail(events: seq<Event>, status: Status, extensions: nat) {
    match status
    case Rejected => events == [EventRejected] && extensions == 0
    case Reserved => events == [EventReserved] + Repeat(EventExtended, extensions)
    case Completed => events == [EventReserved] + Repeat(EventExtended, extensions) + [EventConfirmed]
    case Cancelled => events == [EventReserved] + Repeat(EventExtended, extensions) + [EventCancelled]
    case Expired => events == [EventReserved] + Repeat(EventExtended, extensions) + [EventExpired]
  }

  lemma {:induction false} ReplayReserved(n: nat)
    ensures Replay([EventReserved] + Repeat(EventExtended, n)) == At(Reserved)
    ensures Extensions([EventReserved] + Repeat(EventExtended, n)) == n
  {
    var events := [EventReserved] + Repeat(EventExtended, n);
    if n == 0 {
      assert events == [EventReserved] && events[..0] == [];
    } else {
      ReplayReserved(n - 1);
      assert events[..|events| - 1] == [EventReserved] + Repeat(EventExtended, n - 1);
    }
  }

  lemma {:induction false} ReplayMatches(events: seq<Event>, status: Status)
    requires Replay(events) == At(status)
    ensures MatchesTrail(events, status, Extensions(events))
  {
    var front, last := events[..|events| - 1], events[|events| - 1];
    assert events == front + [last];
    if last == EventReserved || last == EventRejected {
      assert front == [];
      assert Repeat(EventExtended, 0) == [];
    } else {
      ReplayMatches(front, Reserved);
      var n := Extensions(front);
      assert Repeat(EventExtended, n) + [EventExtended] == Repeat(EventExtended, n + 1);
    }
  }

  lemma MatchesReplay(events: seq<Event>, status: Status, n: nat)
    requires MatchesTrail(events, status, n)
    ensures Replay(events) == At(status) && Extensions(events) == n
  {
    ReplayReserved(n);
    if status == Rejected {
      assert events[..0] == [];
    } else if status != Reserved {
      assert events[..|events| - 1] == [EventReserved] + Repeat(EventExtended, n);
    }
  }

  /** Replaying events yields a status exactly when they have the shape of that status's trail. */
  lemma ReplayIsTheGrammar(events: seq<Event>, status: Status)
    ensures Replay(events) == At(status) <==> MatchesTrail(events, status, Extensions(events))
  {
    if Replay(events) == At(status) { ReplayMatches(events, status); }
    if MatchesTrail(events, status, Extensions(events)) { MatchesReplay(events, status, Extensions(events)); }
  }

  /** After any run the audit trail of each request determines its stored status, and the number of
      extensions it shows is at least the stored count, however stale the extending calls were. */
  lemma AuditTrailDeterminesStatus(cfg: Config, cat: Catalogue, base: Base, labels: seq<Label>, id: Id)
    requires Setup(cat, base) && id in DbAfter(cfg, cat, base, labels).rows
    ensures var e := DbAfter(cfg, cat, base, labels).rows[id];
      && Replay(e.events) == At(e.req.status)
      && MatchesTrail(e.events, e.req.status, Extensions(e.events))
      && e.req.extensionCount <= Extensions(e.events)
  {
    EntryAfter(cfg, cat, base, labels, id);
    var e := DbAfter(cfg, cat, base, labels).rows[id];
    ReplayIsTheGrammar(e.events, e.req.status);
  }

  // ---- expiry ---------------------------------------------------------------------------------

  /** The expiry in closed form, also when extensions overwrite each other, and its consequence: a
      reservation older than max(TTL, wall time) is overdue. */
  lemma ExpiryIsBounded(cfg: Config, cat: Catalogue, base: Base, labels: seq<Label>, id: Id, now: Time)
    requires Setup(cat, base) && id in DbAfter(cfg, cat, base, labels).rows
    requires DbAfter(cfg, cat, base, labels).rows[id].req.status != Rejected
    ensures var r := DbAfter(cfg, cat, base, labels).rows[id].req;
      && r.extensionCount <= cfg.maxExtensions
      && r.expiresAt == Some(r.createdAt + (1 + r.extensionCount) * cfg.ttl)
      && r.expiresAt.value <= r.createdAt + Max(cfg.ttl, cfg.wallTime)
      && (r.status == Reserved && now > r.createdAt + Max(cfg.ttl, cfg.wallTime) ==> Overdue(r, now))
  {
    EntryAfter(cfg, cat, base, labels, id);
    EntryExpiry(cfg, base.pools, id, DbAfter(cfg, cat, base, labels).rows[id], now);
  }

  lemma EntryExpiry(cfg: Config, pools: Pools, id: Id, e: Entry, now: Time)
    requires EntryOk(cfg, pools, id, e) && e.req.status != Rejected
    ensures e.req.extensionCount <= cfg.maxExtensions
    ensures e.req.expiresAt == Some(e.req.createdAt + (1 + e.req.extensionCount) * cfg.ttl)
    ensures e.req.expiresAt.value <= e.req.createdAt + Max(cfg.ttl, cfg.wallTime)
    ensures e.req.status == Reserved && now > e.req.createdAt + Max(cfg.ttl, cfg.wallTime) ==> Overdue(e.req, now)
  {
    ExpiryClosedForm(cfg, e.req.createdAt, e.req.extensionCount);
  }

  // ---- idempotency ----------------------------------------------------------------------------

  /** A (customer, key) pair names at most one request, for good. */
  lemma PairNeverRebound(cfg: Config, cat: Catalogue, base: Base, labels: seq<Label>, k: nat, pair: IdemKey)
    requires Setup(cat, base) && k <= |labels|
    ensures var before, after := DbAfter(cfg, cat, base, labels[..k]), DbAfter(cfg, cat, base, labels);
      && (pair in before.idem ==> pair in after.idem && after.idem[pair] == before.idem[pair])
      && (forall a, b :: a in after.rows && b in after.rows && KeyOf(after.rows[a].req) == pair == KeyOf(after.rows[b].req) ==> a == b)
  {
    RunForward(cfg, cat, base, labels, k);
    RunOk(cfg, cat, base, labels);
  }

  /** No stored request belongs to another customer whose joined texts can meet those of `customer`. */
  predicate Unrelated(rows: Rows, customer: Customer) {
    forall id :: id in rows ==> !Related(rows[id].req.customer, customer)
  }

  /** A successful create returns a stored request of the same body, filed under the text of its pair;
      unless a stored customer is related to the caller, it is the request bound to that very pair. */
  lemma CreateReturnsItsRequest(cfg: Config, cat: Catalogue, base: Base, labels: seq<Label>, c: Id)
    requires Setup(cat, base)
    requires c in Run(cfg, cat, base, labels).calls && Run(cfg, cat, base, labels).calls[c].CreateReturned?
    ensures var w := Run(cfg, cat, base, labels);
      && Served(w.db, w.calls[c].input, w.calls[c].id)
      && (Unrelated(w.db.rows, w.calls[c].input.customer) ==> Answers(w.db, w.calls[c].input, w.calls[c].id))
  {
    RunOk(cfg, cat, base, labels);
    ReturnedServes(cfg, cat, Run(cfg, cat, base, labels).db, c, Run(cfg, cat, base, labels).calls[c]);
  }

  lemma ReturnedServes(cfg: Config, cat: Catalogue, db: Db, c: Id, call: Call)
    requires IdemOk(db) && CallOk(cfg, cat, db, c, call) && call.CreateReturned?
    ensures Served(db, call.input, call.id)
    ensures Unrelated(db.rows, call.input.customer) ==> Answers(db, call.input, call.id)
  {
    if Unrelated(db.rows, call.input.customer) { ServedUnrelated(db, call.input, call.id); }
  }

  lemma ServedUnrelated(db: Db, input: CreateInput, id: Id)
    requires IdemOk(db) && Served(db, input, id) && Unrelated(db.rows, input.customer)
    ensures Answers(db, input, id)
  {
    SameText(KeyOf(db.rows[id].req), PairOf(input));
  }

  /** All successful creates with the same customer and key return the same request, had the same
      body, and at most one of them inserted it; this includes a racer that was going to be rejected.
      The customer must not be related to another stored one: module CacheFault shows what happens then. */
  lemma CreatesAgree(cfg: Config, cat: Catalogue, base: Base, labels: seq<Label>, c: Id, d: Id)
    requires Setup(cat, base)
    requires var calls := Run(cfg, cat, base, labels).calls;
      && c in calls && d in calls && calls[c].CreateReturned? && calls[d].CreateReturned?
      && PairOf(calls[c].input) == PairOf(calls[d].input)
      && Unrelated(Run(cfg, cat, base, labels).db.rows, calls[c].input.customer)
    ensures var w := Run(cfg, cat, base, labels);
      && w.calls[c].id == w.calls[d].id
      && w.calls[c].id in w.db.rows
      && SameBody(w.calls[c].input, w.calls[d].input)
      && (c != d ==> c !in w.db.rows || d !in w.db.rows)
  {
    var w := Run(cfg, cat, base, labels);
    RunOk(cfg, cat, base, labels);
    assert CallOk(cfg, cat, w.db, c, w.calls[c]) && CallOk(cfg, cat, w.db, d, w.calls[d]);
    ReturnedAgree(cfg, cat, w.db, c, w.calls[c], d, w.calls[d]);
  }

  lemma ReturnedAgree(cfg: Config, cat: Catalogue, db: Db, c: Id, a: Call, d: Id, b: Call)
    requires CallOk(cfg, cat, db, c, a) && CallOk(cfg, cat, db, d, b)
    requires a.CreateReturned? && b.CreateReturned? && PairOf(a.input) == PairOf(b.input)
    requires IdemOk(db) && Unrelated(db.rows, a.input.customer)
    ensures a.id == b.id && a.id in db.rows && SameBody(a.input, b.input)
    ensures c != d ==> c !in db.rows || d !in db.rows
  {
    ServedUnrelated(db, a.input, a.id);
    ServedUnrelated(db, b.input, b.id);
    FingerprintCanonical(a.input, b.input);
  }

  /** A create that failed left no request of its own. */
  lemma FailedCreateLeavesNothing(cfg: Config, cat: Catalogue, base: Base, labels: seq<Label>, c: Id)
    requires Setup(cat, base)
    requires c in Run(cfg, cat, base, labels).calls && Run(cfg, cat, base, labels).calls[c].Failed?
    ensures c !in DbAfter(cfg, cat, base, labels).rows
  {
    RunOk(cfg, cat, base, labels);
    assert CallOk(cfg, cat, DbAfter(cfg, cat, base, labels), c, Run(cfg, cat, base, labels).calls[c]);
  }

  predicate CreatesFor(call: Call, pair: IdemKey) {
    match call
    case CreateLookup(input) => PairOf(input) == pair
    case CreateGet(input, _) => PairOf(input) == pair
    case CreateFind(input) => PairOf(input) == pair
    case CreateRefresh(input, _) => PairOf(input) == pair
    case CreateCount(input) => PairOf(input) == pair
    case CreatePlan(input) => PairOf(input) == pair
    case CreateReserve(input, _, _) => PairOf(input) == pair
    case CreateReject(input, _, _, _) => PairOf(input) == pair
    case CreateReplay(input, _) => PairOf(input) == pair
    case CreateRecord(input) => PairOf(input) == pair
    case CreateReturned(input, _) => PairOf(input) == pair
    case _ => false
  }

  /** Once a pair is bound no step of any create for it changes the database, whatever its body. */
  lemma BoundPairChangesNothing(cfg: Config, cat: Catalogue, db: Db, cache: Cache, c: Id, call: Call, choice: Choice, pair: IdemKey)
    requires pair in db.idem && CreatesFor(call, pair)
    ensures Next(cfg, cat, db, cache, c, call, choice).db == db
  {
  }

  /** A create whose body differs from the bound request's never succeeds, and the replay after a lost
      race always finds the winner: it returns it or refuses the body, never reports it missing. */
  lemma ReplayFindsTheWinner(cfg: Config, cat: Catalogue, base: Base, labels: seq<Label>, c: Id, choice: Choice)
    requires Setup(cat, base)
    requires c in Run(cfg, cat, base, labels).calls && Run(cfg, cat, base, labels).calls[c].CreateReplay?
    ensures var w := Run(cfg, cat, base, labels);
      var input := w.calls[c].input;
      var r := Next(cfg, cat, w.db, w.cache, c, w.calls[c], choice).call;
      && PairOf(input) in w.db.idem && w.db.idem[PairOf(input)] in w.db.rows
      && r == (if w.db.rows[w.db.idem[PairOf(input)]].req.fingerprint == FingerprintOf(input)
               then (if w.calls[c].record then CreateRefresh(input, w.db.idem[PairOf(input)])
                     else CreateReturned(input, w.db.idem[PairOf(input)]))
               else Failed(IdempotencyKeyReused))
  {
    RunOk(cfg, cat, base, labels);
    var w := Run(cfg, cat, base, labels);
    assert CallOk(cfg, cat, w.db, c, w.calls[c]);
  }

  // ---- the idempotency cache ------------------------------------------------------------------

  /** checkIdempotentReplay run without interruption; None means no earlier request was found. */
  function CheckReplay(db: Db, cache: Cache, input: CreateInput): Option<Result<Id>> {
    var text := TextOf(PairOf(input));
    if text in cache && cache[text] in db.rows then
      Some(MatchBody(db, input, cache[text]))
    else
      CheckStore(db, input)
  }

  function CheckStore(db: Db, input: CreateInput): Option<Result<Id>> {
    if PairOf(input) in db.idem && db.idem[PairOf(input)] in db.rows then
      Some(MatchBody(db, input, db.idem[PairOf(input)]))
    else
      None
  }

  function MatchBody(db: Db, input: CreateInput, id: Id): Result<Id>
    requires id in db.rows
  {
    if db.rows[id].req.fingerprint == FingerprintOf(input) then Ok(id) else Err(IdempotencyKeyReused)
  }

  lemma LookupUnrelated(db: Db, cache: Cache, input: CreateInput)
    requires IdemOk(db) && CacheOk(db, cache) && Unrelated(db.rows, input.customer)
    ensures CheckReplay(db, cache, input) == CheckStore(db, input)
  {
    var text := TextOf(PairOf(input));
    if text in cache {
      SameText(KeyOf(db.rows[cache[text]].req), PairOf(input));
    }
  }

  /** The cache only accelerates: after any run, with any entries evicted at any time, every entry points
      at a stored request with that text, and for a customer who is not related to another stored one
      the lookup through the cache gives what the lookup in the store alone gives. */
  lemma CacheIsTransparent(cfg: Config, cat: Catalogue, base: Base, labels: seq<Label>, input: CreateInput)
    requires Setup(cat, base)
    ensures var w := Run(cfg, cat, base, labels);
      && (Unrelated(w.db.rows, input.customer) ==> CheckReplay(w.db, w.cache, input) == CheckStore(w.db, input))
      && (forall text :: text in w.cache ==>
           w.cache[text] in w.db.rows && TextOf(KeyOf(w.db.rows[w.cache[text]].req)) == text)
  {
    RunOk(cfg, cat, base, labels);
    var w := Run(cfg, cat, base, labels);
    if Unrelated(w.db.rows, input.customer) { LookupUnrelated(w.db, w.cache, input); }
  }

  // ---- undoing a reservation ------------------------------------------------------------------

  /** Reserving and then cancelling (or expiring) gives every pool and every quota back exactly. */
  lemma ReleaseUndoesReserve(cfg: Config, base: Base, db: Db, id: Id, key: IdemKey, fp: Fingerprint, plan: seq<Line>, now: Time, terminal: Status)
    requires DbOk(cfg, base, db) && PlanOk(base.pools, plan) && terminal in {Cancelled, Expired}
    requires ReserveTx(cfg, db, id, key, fp, plan, now).1 == Committed
    ensures var db1 := ReserveTx(cfg, db, id, key, fp, plan, now).0;
      var db2 := ReleaseTx(db1, id, key.customer, terminal);
      && db2.pools == db.pools
      && forall k :: QuotaRow(db2.quotas, k) == QuotaRow(db.quotas, k)
  {
    var db1 := ReserveTx(cfg, db, id, key, fp, plan, now).0;
    ReserveKeepsInvariant(cfg, base, db, id, key, fp, plan, now);
    ReleaseExact(cfg, base, db1, id, key.customer, terminal);
    PlanIsSeparate(base, plan);
    LoopRefinesSimultaneousCheck(db.pools, db.quotas, key.customer, plan);
    RestoresCounters(base, db, db1, ReleaseTx(db1, id, key.customer, terminal), id, key.customer, plan);
  }

  lemma RestoresCounters(base: Base, db: Db, db1: Db, db2: Db, id: Id, customer: Customer, plan: seq<Line>)
    requires PlanOk(base.pools, plan)
    requires db1.pools == AfterReserve(db.pools, plan) && db1.quotas == AfterCharge(db.quotas, customer, plan)
    requires db2.pools == AfterRelease(db1.pools, HoldsOf(id, plan, Active))
    requires AfterRefund(base.pools, db1.quotas, customer, HoldsOf(id, plan, Active), db2.quotas)
    ensures db2.pools == db.pools
    ensures forall k :: QuotaRow(db2.quotas, k) == QuotaRow(db.quotas, k)
  {
    forall p ensures HeldOn(HoldsOf(id, plan, Active), p) == AmountOn(plan, p) {
      HeldOnHoldsOf(id, plan, Active, p);
    }
    forall kind ensures ChargedOn(base.pools, HoldsOf(id, plan, Active), kind) == KindAmount(plan, kind) {
      ChargedOnHoldsOf(base.pools, id, plan, Active, kind);
    }
    forall k ensures QuotaRow(db2.quotas, k) == QuotaRow(db.quotas, k) {
      if k in db1.quotas {
        assert QuotaRow(db1.quotas, k).used == QuotaRow(db.quotas, k).used + ChargeOf(customer, plan, k);
      }
    }
  }
}
