/** The service as an object over the stores. Each call is the code's own sequence of reads, statements
    and rollbacks, and is proved equal to the function the safety results are about. */
module Service {
  import opened Domain
  import opened Invariant
  import opened Reserve
  import opened Intake
  import opened Interleaving
  import opened CacheKey
  import opened Conservation
  import opened Guarantees
  import opened Serial
  import opened Sweep
  import opened Locks
  import opened Stores
  import opened AdvisoryLock
  import Calls = Answers
  import Creates = CreateAnswers
  import Ledger

  const SWEEPER_LOCK_KEY: int := 84201501

  // ---- facts about the folds the loops unroll -------------------------------------------------

  lemma {:induction false} PlanLocksPrefix(customer: Customer, plan: seq<Line>, k: nat)
    requires k <= |plan|
    ensures PlanLocks(customer, plan[..k]) <= PlanLocks(customer, plan)
  {
    if k < |plan| {
      PlanLocksPrefix(customer, plan[..|plan| - 1], k);
      assert plan[..|plan| - 1][..k] == plan[..k];
    } else {
      assert plan[..k] == plan;
    }
  }

  lemma {:induction false} ActiveHoldsAreStored(holds: seq<Hold>)
    ensures forall h :: h in Ledger.ActiveHolds(holds) ==> h in holds
  {
    if |holds| > 0 { ActiveHoldsAreStored(holds[..|holds| - 1]); }
  }

  lemma ReserveLoopMore(pools: Pools, quotas: Quotas, customer: Customer, plan: seq<Line>, i: nat, ps: Pools, qs: Quotas)
    requires i < |plan| && Ledger.ReserveLoop(pools, quotas, customer, plan[..i]) == Ledger.LoopResult.Fits(ps, qs)
    ensures Ledger.ReserveLoop(pools, quotas, customer, plan[..i + 1]) == Ledger.ReserveLine(ps, qs, customer, plan[i], i)
    ensures PlanLocks(customer, plan[..i + 1]) == PlanLocks(customer, plan[..i]) + LineLocks(customer, plan[i])
  {
    assert plan[..i + 1][..i] == plan[..i];
  }

  /** The listed holds of a request carry its id. */
  lemma ListedCarryTheId(db: Db, id: Id, hs: seq<Hold>)
    requires Keyed(db.rows) && id in db.rows && hs == Ledger.Listed(db, id)
    ensures forall i :: 0 <= i < |hs| ==> hs[i].id.request == id
  {
    ActiveHoldsAreStored(db.rows[id].holds);
    forall i | 0 <= i < |hs| ensures hs[i].id.request == id {
      assert hs[i] in db.rows[id].holds;
    }
  }

  // ---- validation, fingerprint and plan -------------------------------------------------------

  method ValidateCreateInput(input: CreateInput) returns (ok: bool)
    ensures ok == ValidBody(input)
  {
    if input.product != "" {
      return 0 <= input.quantity <= MAX_QUANTITY && input.lines == [];
    }
    if |input.lines| > MAX_LINES_PER_REQUEST {
      return false;
    }
    var seen: set<Kind> := {};
    for i := 0 to |input.lines|
      invariant ValidLines(input.lines[..i])
      invariant forall k :: k in seen <==> exists j :: 0 <= j < i && input.lines[j].kind == k
    {
      var l := input.lines[i];
      if l.kind == "" || l.kind in seen || l.amount <= 0 || l.amount > MAX_AMOUNT {
        return false;
      }
      seen := seen + {l.kind};
    }
    assert input.lines[..|input.lines|] == input.lines;
    ok := true;
  }

  method SortedCopy(lines: seq<LineInput>) returns (sorted: seq<LineInput>)
    ensures Sorted(sorted) && multiset(sorted) == multiset(lines)
  {
    sorted := [];
    for i := 0 to |lines|
      invariant Sorted(sorted) && multiset(sorted) == multiset(lines[..i])
    {
      assert lines[..i + 1] == lines[..i] + [lines[i]];
      InsertSorts(sorted, lines[i]);
      sorted := InsertLine(sorted, lines[i]);
    }
    assert lines[..|lines|] == lines;
  }

  method ComputeBodyHash(input: CreateInput) returns (fp: Fingerprint)
    ensures fp == FingerprintOf(input)
  {
    if input.product != "" {
      var quantity := input.quantity;
      if quantity <= 0 {
        quantity := 1;
      }
      return ProductBody(input.product, quantity);
    }
    var sorted := SortedCopy(input.lines);
    SortSorts(input.lines);
    SortedUnique(sorted, SortLines(input.lines));
    fp := LinesBody(sorted);
  }

  /** The template is a map, visited in any order. */
  method ResolveProduct(template: map<Kind, int>, quantity: int) returns (r: Result<map<Kind, int>>)
    ensures var amounts := TemplateAmounts(template, NormalQuantity(quantity));
      r == if forall k :: k in amounts ==> InBounds(amounts[k]) then Ok(amounts) else Err(InvalidInput)
  {
    var units := quantity;
    if units <= 0 {
      units := 1;
    }
    ghost var amounts := TemplateAmounts(template, units);
    var out: map<Kind, int> := map[];
    var todo := template.Keys;
    while todo != {}
      invariant todo <= template.Keys
      invariant out.Keys == template.Keys - todo
      invariant forall k :: k in out ==> out[k] == amounts[k] && InBounds(amounts[k])
      decreases todo
    {
      var k :| k in todo;
      todo := todo - {k};
      var amount := Wrap64(template[k] * units);
      assert amount == amounts[k];
      if amount <= 0 || amount > MAX_AMOUNT {
        return Err(InvalidInput);
      }
      out := out[k := amount];
    }
    assert out == amounts;
    r := Ok(out);
  }

  method ResolveLines(cat: Catalogue, input: CreateInput) returns (r: Result<map<Kind, int>>)
    ensures r == Resolve(cat, input)
  {
    if input.product != "" {
      if input.product !in cat.products {
        return Err(ProductNotFound);
      }
      r := ResolveProduct(cat.products[input.product], input.quantity);
      return;
    }
    if |input.lines| == 0 {
      return Err(Conflict);
    }
    var out: map<Kind, int> := map[];
    for i := 0 to |input.lines|
      invariant out == AddLines(input.lines[..i])
    {
      assert input.lines[..i + 1][..i] == input.lines[..i];
      var l := input.lines[i];
      out := out[l.kind := (if l.kind in out then out[l.kind] else 0) + l.amount];
    }
    assert input.lines[..|input.lines|] == input.lines;
    r := Ok(out);
  }

  predicate DistinctPools(plan: seq<Line>) {
    forall i, j :: 0 <= i < j < |plan| ==> plan[i].poolId != plan[j].poolId
  }

  method SortByPool(plan: seq<Line>) returns (sorted: seq<Line>)
    requires DistinctPools(plan)
    ensures Ascending(sorted) && Within(sorted, plan) && Within(plan, sorted)
  {
    sorted := [];
    for i := 0 to |plan|
      invariant Ascending(sorted) && Within(sorted, plan[..i]) && Within(plan[..i], sorted)
    {
      sorted := InsertByPool(sorted, plan[..i], plan[i]);
      assert plan[..i + 1] == plan[..i] + [plan[i]];
    }
    assert plan[..|plan|] == plan;
  }

  method InsertByPool(s: seq<Line>, from: seq<Line>, x: Line) returns (r: seq<Line>)
    requires Ascending(s) && Within(s, from) && Within(from, s)
    requires forall i :: 0 <= i < |from| ==> from[i].poolId != x.poolId
    ensures Ascending(r) && Within(r, from + [x]) && Within(from + [x], r)
  {
    var k := |s|;
    while k > 0 && s[k - 1].poolId > x.poolId
      invariant 0 <= k <= |s|
      invariant k < |s| ==> x.poolId < s[k].poolId
    {
      k := k - 1;
    }
    if k > 0 {
      assert Among(s[k - 1], from);
    }
    r := s[..k] + [x] + s[k..];
    InsertedAscending(s, x, k, r);
    InsertedMembers(s, from, x, k, r);
  }

  lemma InsertedAscending(s: seq<Line>, x: Line, k: nat, r: seq<Line>)
    requires k <= |s| && r == s[..k] + [x] + s[k..] && Ascending(s)
    requires k > 0 ==> s[k - 1].poolId < x.poolId
    requires k < |s| ==> x.poolId < s[k].poolId
    ensures Ascending(r)
  {
    forall i, j | 0 <= i < j < |r| ensures r[i].poolId < r[j].poolId {
      assert i != k ==> r[i] == s[if i < k then i else i - 1];
      assert j != k ==> r[j] == s[if j < k then j else j - 1];
    }
  }

  lemma InsertedMembers(s: seq<Line>, from: seq<Line>, x: Line, k: nat, r: seq<Line>)
    requires k <= |s| && r == s[..k] + [x] + s[k..]
    requires Within(s, from) && Within(from, s)
    ensures Within(r, from + [x]) && Within(from + [x], r)
  {
    var more := from + [x];
    forall i | 0 <= i < |r| ensures Among(r[i], more) {
      if i == k {
        assert more[|from|] == x;
      } else {
        var j := if i < k then i else i - 1;
        assert r[i] == s[j] && Among(s[j], from);
        var f :| 0 <= f < |from| && from[f] == s[j];
        assert more[f] == r[i];
      }
    }
    forall i | 0 <= i < |more| ensures Among(more[i], r) {
      if i == |from| {
        assert r[k] == x;
      } else {
        assert Among(from[i], s);
        var j :| 0 <= j < |s| && s[j] == from[i];
        assert r[if j < k then j else j + 1] == more[i];
      }
    }
  }

  /** The pools' kinds and grains, which the service never changes. */
  predicate SamePolicies(fixed: Pools, live: Pools) {
    && fixed.Keys == live.Keys
    && forall p :: p in fixed ==> fixed[p].kind == live[p].kind && fixed[p].minGrain == live[p].minGrain
  }

  /** The plan so far: one line for each kind that has been looked up. */
  predicate Planned(pools: Pools, amounts: map<Kind, int>, done: set<Kind>, plan: seq<Line>) {
    && (forall i :: 0 <= i < |plan| ==>
         && HasKind(pools, plan[i].poolId, plan[i].kind)
         && plan[i].kind in done && plan[i].kind in amounts && plan[i].amount == amounts[plan[i].kind]
         && Aligned(pools[plan[i].poolId], plan[i].amount))
    && (forall k :: k in done ==> exists i :: 0 <= i < |plan| && plan[i].kind == k)
    && DistinctPools(plan)
  }

  lemma PlannedOneMore(pools: Pools, amounts: map<Kind, int>, done: set<Kind>, plan: seq<Line>, l: Line)
    requires Planned(pools, amounts, done, plan) && l.kind !in done
    requires l.kind in amounts && l.amount == amounts[l.kind]
    requires HasKind(pools, l.poolId, l.kind) && Aligned(pools[l.poolId], l.amount)
    ensures Planned(pools, amounts, done + {l.kind}, plan + [l])
  {
    var more := plan + [l];
    forall k | k in done + {l.kind} ensures exists i :: 0 <= i < |more| && more[i].kind == k {
      if k == l.kind {
        assert more[|plan|] == l;
      } else {
        var i :| 0 <= i < |plan| && plan[i].kind == k;
        assert more[i] == plan[i];
      }
    }
  }

  lemma SortedPlan(pools: Pools, amounts: map<Kind, int>, plan: seq<Line>, sorted: seq<Line>)
    requires Planned(pools, amounts, amounts.Keys, plan)
    requires Ascending(sorted) && Within(sorted, plan) && Within(plan, sorted)
    ensures IsPlan(pools, amounts, sorted)
  {
    forall i | 0 <= i < |sorted|
      ensures HasKind(pools, sorted[i].poolId, sorted[i].kind)
      ensures sorted[i].kind in amounts && sorted[i].amount == amounts[sorted[i].kind]
      ensures Aligned(pools[sorted[i].poolId], sorted[i].amount)
    {
      assert Among(sorted[i], plan);
    }
    forall k | k in amounts ensures exists i :: 0 <= i < |sorted| && sorted[i].kind == k {
      var i :| 0 <= i < |plan| && plan[i].kind == k;
      assert Among(plan[i], sorted);
    }
  }

  method BuildHolds(id: Id, plan: seq<Line>) returns (holds: seq<Hold>)
    ensures holds == Ledger.HoldsOf(id, plan, Active)
  {
    holds := [];
    for i := 0 to |plan|
      invariant holds == Ledger.HoldsOf(id, plan[..i], Active)
    {
      holds := holds + [Hold(HoldId(id, i), plan[i].poolId, plan[i].amount, Active)];
    }
    assert plan[..|plan|] == plan;
  }

  // ---- the database in the middle of a transaction ----------------------------------------------

  function DedicatedOne(db: Db, h: Hold): (Db, bool)
    requires h.id.request in db.rows
  {
    var e := db.rows[h.id.request];
    (db.(pools := Ledger.MoveReservedToDedicated(db.pools, h.poolId, h.amount),
         rows := db.rows[h.id.request := e.(holds := Ledger.MarkHold(e.holds, h.id, Active, HoldStatus.Dedicated))]),
     Ledger.CanMark(e.holds, h.id, Active))
  }

  function DedicatedSoFar(db: Db, id: Id, hs: seq<Hold>): Db
    requires id in db.rows
  {
    var e := db.rows[id];
    db.(pools := Ledger.MoveAll(db.pools, hs),
        rows := db.rows[id := e.(holds := Ledger.MarkAll(e.holds, hs, HoldStatus.Dedicated))])
  }

  lemma DedicatedOneMore(db: Db, id: Id, front: seq<Hold>, h: Hold, hs: seq<Hold>)
    requires id in db.rows && h.id.request == id && hs == front + [h]
    ensures DedicatedOne(DedicatedSoFar(db, id, front), h).0 == DedicatedSoFar(db, id, hs)
    ensures DedicatedOne(DedicatedSoFar(db, id, front), h).1
         == Ledger.CanMark(Ledger.MarkAll(db.rows[id].holds, front, HoldStatus.Dedicated), h.id, Active)
  {
    assert hs[..|hs| - 1] == front;
  }

  /** The loop of a confirm, one hold after another: whether every hold moved, the database and the
      locks taken. */
  datatype Progress = Progress(moved: bool, db: Db, dedications: seq<Dedication>, taken: seq<Lock>)

  function DedicateEach(db: Db, locks: seq<Lock>, hs: seq<Hold>): Progress {
    if |hs| == 0 then Progress(true, db, [], locks)
    else
      var h := hs[|hs| - 1];
      var was := DedicateEach(db, locks, hs[..|hs| - 1]);
      if h.id.request in was.db.rows then
        var (now, moved) := DedicatedOne(was.db, h);
        Progress(was.moved && moved, now, was.dedications + [Dedication(h.id, h.poolId, h.amount)],
                 was.taken + [PoolLock(h.poolId), HoldLock(h.id)])
      else
        was
  }

  lemma {:induction false} DedicateEachIs(db: Db, id: Id, hs: seq<Hold>)
    requires id in db.rows && forall i :: 0 <= i < |hs| ==> hs[i].id.request == id
    ensures DedicateEach(db, [], hs) ==
      Progress(Ledger.CanMarkAll(db.rows[id].holds, hs, HoldStatus.Dedicated), DedicatedSoFar(db, id, hs),
               Ledger.DedicationsFor(hs), MoveLocks(hs))
  {
    if |hs| == 0 {
      assert db.rows[id := db.rows[id]] == db.rows;
    } else {
      var front, h := hs[..|hs| - 1], hs[|hs| - 1];
      DedicateEachIs(db, id, front);
      assert hs == front + [h];
      DedicatedOneMore(db, id, front, h, hs);
    }
  }

  /** A loop that fails at one hold fails as a whole, with a prefix of the locks. */
  lemma {:induction false} DedicateStops(db: Db, locks: seq<Lock>, hs: seq<Hold>, k: nat)
    requires k <= |hs|
    ensures DedicateEach(db, locks, hs).moved ==> DedicateEach(db, locks, hs[..k]).moved
    ensures DedicateEach(db, locks, hs[..k]).taken <= DedicateEach(db, locks, hs).taken
  {
    if k < |hs| {
      assert hs[..|hs| - 1][..k] == hs[..k];
      DedicateStops(db, locks, hs[..|hs| - 1], k);
    } else {
      assert hs[..k] == hs;
    }
  }

  /** The request row decides last: the whole confirm happens or none of it. */
  lemma ConfirmEnds(db: Db, id: Id, hs: seq<Hold>, before: Db)
    requires id in db.rows && hs == Ledger.Listed(db, id)
    requires Ledger.CanMarkAll(db.rows[id].holds, hs, HoldStatus.Dedicated) && before == DedicatedSoFar(db, id, hs)
    ensures var e := before.rows[id];
      Ledger.ConfirmTx(db, id) ==
        if e.req.status == Reserved then
          (before.(rows := before.rows[id := e.(req := e.req.(status := Completed),
                                                dedications := e.dedications + Ledger.DedicationsFor(hs),
                                                events := e.events + [EventConfirmed])]), true)
        else
          (db, false)
  {
    var (after, ok) := Ledger.ConfirmTx(db, id);
    if ok {
      var e := before.rows[id];
      assert after.rows == before.rows[id := after.rows[id]];
    }
  }

  function ReleasedOne(db: Db, customer: Customer, kinds: map<Id, Kind>, h: Hold, to: HoldStatus): Db
    requires h.id.request in db.rows
  {
    var e := db.rows[h.id.request];
    Db(Ledger.ReleaseReserved(db.pools, h.poolId, h.amount),
       Ledger.RefundOne(db.quotas, customer, kinds, h),
       db.rows[h.id.request := e.(holds := Ledger.MarkHold(e.holds, h.id, Active, to))],
       db.idem)
  }

  function ReleasedSoFar(db: Db, id: Id, customer: Customer, kinds: map<Id, Kind>, hs: seq<Hold>, to: HoldStatus): Db
    requires id in db.rows
  {
    var e := db.rows[id];
    Db(Ledger.ReleaseAll(db.pools, hs),
       Ledger.RefundAll(db.quotas, customer, kinds, hs),
       db.rows[id := e.(holds := Ledger.MarkAll(e.holds, hs, to))],
       db.idem)
  }

  lemma ReleasedOneMore(db: Db, id: Id, customer: Customer, kinds: map<Id, Kind>, front: seq<Hold>, h: Hold, hs: seq<Hold>, to: HoldStatus)
    requires id in db.rows && h.id.request == id && hs == front + [h]
    ensures ReleasedOne(ReleasedSoFar(db, id, customer, kinds, front, to), customer, kinds, h, to)
         == ReleasedSoFar(db, id, customer, kinds, hs, to)
  {
    assert hs[..|hs| - 1] == front;
  }

  /** The loop of a release, one hold after another, from a database and the locks already taken. */
  function ReleaseEach(db: Db, locks: seq<Lock>, customer: Customer, kinds: map<Id, Kind>, hs: seq<Hold>, to: HoldStatus): (Db, seq<Lock>) {
    if |hs| == 0 then (db, locks)
    else
      var h := hs[|hs| - 1];
      var (now, taken) := ReleaseEach(db, locks, customer, kinds, hs[..|hs| - 1], to);
      if h.id.request in now.rows then
        (ReleasedOne(now, customer, kinds, h, to), taken + HoldLocks(customer, kinds, h))
      else
        (now, taken)
  }

  lemma {:induction false} ReleaseEachIs(db: Db, id: Id, customer: Customer, kinds: map<Id, Kind>, hs: seq<Hold>, to: HoldStatus)
    requires id in db.rows && forall i :: 0 <= i < |hs| ==> hs[i].id.request == id
    ensures ReleaseEach(db, [], customer, kinds, hs, to)
         == (ReleasedSoFar(db, id, customer, kinds, hs, to), RefundLocks(customer, kinds, hs))
  {
    if |hs| == 0 {
      assert db.rows[id := db.rows[id]] == db.rows;
    } else {
      var front, h := hs[..|hs| - 1], hs[|hs| - 1];
      ReleaseEachIs(db, id, customer, kinds, front, to);
      assert hs == front + [h];
      ReleasedOneMore(db, id, customer, kinds, front, h, hs, to);
    }
  }

  /** The loop and the status update make up the release transaction and its locks. */
  lemma ReleaseEnds(db: Db, id: Id, customer: Customer, hs: seq<Hold>, terminal: Status)
    requires id in db.rows && hs == Ledger.Listed(db, id) && forall i :: 0 <= i < |hs| ==> hs[i].id.request == id
    ensures var kinds := Ledger.KindByPool(db.rows[id].lines);
      var (now, taken) := ReleaseEach(db, [], customer, kinds, hs, Ledger.HoldTarget(terminal));
      && id in now.rows
      && Ledger.ReleaseTx(db, id, customer, terminal) == now.(rows := now.rows[id := Ledger.MarkTerminal(now.rows[id], terminal)])
      && ReleaseLocks(id, customer, kinds, hs) == taken + [RequestLock(id)]
  {
    ReleaseEachIs(db, id, customer, Ledger.KindByPool(db.rows[id].lines), hs, Ledger.HoldTarget(terminal));
  }

  // ---- the service ----------------------------------------------------------------------------

  class CapacityService {
    const cfg: Config
    const cat: Catalogue
    const pools: PoolStore
    const quotas: QuotaStore
    const requests: RequestStore
    const trace: LockTrace
    var cache: Cache

    constructor (cfg: Config, cat: Catalogue, quotaRows: Quotas)
      ensures Valid() && cache == map[]
      ensures this.cfg == cfg && this.cat == cat && State() == Init(Base(cat.pools, quotaRows))
      ensures fresh(pools) && fresh(quotas) && fresh(requests) && fresh(trace)
    {
      this.cfg, this.cat := cfg, cat;
      var t := new LockTrace();
      var ps := new PoolStore(cat.pools, t);
      var qs := new QuotaStore(quotaRows, t);
      var rs := new RequestStore(t);
      pools, quotas, requests, trace := ps, qs, rs, t;
      cache := map[];
    }

    /** The committed contents of the database. */
    function State(): Db
      reads pools, quotas, requests
    {
      Db(pools.pools, quotas.quotas, requests.rows, requests.idem)
    }

    predicate Wired() {
      pools.trace == trace && quotas.trace == trace && requests.trace == trace
    }

    ghost predicate Valid()
      reads this, pools, quotas, requests
    {
      && Wired()
      && Keyed(requests.rows)
      && IdemOk(State())
      && CacheOk(State(), cache)
      && SamePolicies(cat.pools, pools.pools)
    }

    /** What ROLLBACK leaves. */
    method Rollback(snap: Db)
      modifies pools, quotas, requests
      ensures State() == snap
    {
      pools.pools := snap.pools;
      quotas.quotas := snap.quotas;
      requests.rows := snap.rows;
      requests.idem := snap.idem;
    }

    // -- create -----------------------------------------------------------------------------------

    method BuildReservationPlan(input: CreateInput) returns (planned: Result<seq<Line>>)
      requires SamePolicies(cat.pools, pools.pools)
      ensures PlannedAs(cat, input, planned)
    {
      var resolved := ResolveLines(cat, input);
      if resolved.Err? {
        return Err(resolved.reason);
      }
      var amounts := resolved.value;
      var plan: seq<Line> := [];
      var todo := amounts.Keys;
      while todo != {}
        invariant todo <= amounts.Keys
        invariant Planned(cat.pools, amounts, amounts.Keys - todo, plan)
        decreases todo
      {
        var kind :| kind in todo;
        var found := pools.GetByKind(kind);
        if found.None? {
          assert NoPoolFor(cat.pools, kind);
          return Err(InvalidResourceKind);
        }
        var p := found.value;
        var grain := pools.pools[p].minGrain;
        if grain > 0 && amounts[kind] % grain != 0 {
          assert MisalignedOn(cat.pools, p, kind, amounts[kind]);
          return Err(Conflict);
        }
        var l := Line(p, kind, amounts[kind]);
        PlannedOneMore(cat.pools, amounts, amounts.Keys - todo, plan, l);
        assert amounts.Keys - (todo - {kind}) == amounts.Keys - todo + {kind};
        plan := plan + [l];
        todo := todo - {kind};
      }
      assert amounts.Keys - todo == amounts.Keys;
      var sorted := SortByPool(plan);
      SortedPlan(cat.pools, amounts, plan, sorted);
      planned := Ok(sorted);
    }

    /** The two statements of one line; the reason if one of them refuses. */
    method ReserveLine(customer: Customer, l: Line) returns (refused: Option<Reason>)
      requires Wired()
      modifies pools, quotas, trace
      ensures forall at ::
        Ledger.ReserveLine(old(pools.pools), old(quotas.quotas), customer, l, at)
        == (if refused.None? then Ledger.LoopResult.Fits(pools.pools, quotas.quotas)
            else Ledger.LoopResult.Stopped(refused.value, at))
      ensures old(trace.taken) <= trace.taken <= old(trace.taken) + LineLocks(customer, l)
      ensures refused.None? ==> trace.taken == old(trace.taken) + LineLocks(customer, l)
    {
      var ok := pools.TryReserve(l.poolId, l.amount);
      if !ok {
        return Some(InsufficientCapacity);
      }
      ok := quotas.EnsureAndTryConsume(QuotaKey(customer, l.kind), l.amount);
      if !ok {
        return Some(QuotaExceeded);
      }
      refused := None;
    }

    /** The transaction of a create: the statements of each line, then the rows; any refusal rolls
        everything back. */
    method ReserveWithinTx(id: Id, pair: IdemKey, fp: Fingerprint, plan: seq<Line>, now: Time)
      returns (outcome: Ledger.ReserveOutcome)
      requires Wired()
      modifies pools, quotas, requests, trace
      ensures (State(), outcome) == Ledger.ReserveTx(cfg, old(State()), id, pair, fp, plan, now)
      ensures trace.taken <= CreateLocks(pair, plan)
      ensures !outcome.CapacityRejected? ==> trace.taken == CreateLocks(pair, plan)
    {
      var snap := State();
      trace.taken := [];
      for i := 0 to |plan|
        invariant requests.rows == snap.rows && requests.idem == snap.idem
        invariant Ledger.ReserveLoop(snap.pools, snap.quotas, pair.customer, plan[..i])
               == Ledger.LoopResult.Fits(pools.pools, quotas.quotas)
        invariant trace.taken == PlanLocks(pair.customer, plan[..i])
      {
        ReserveLoopMore(snap.pools, snap.quotas, pair.customer, plan, i, pools.pools, quotas.quotas);
        PlanLocksPrefix(pair.customer, plan, i + 1);
        var refused := ReserveLine(pair.customer, plan[i]);
        if refused.Some? {
          StoppedStays(snap.pools, snap.quotas, pair.customer, plan, i + 1);
          Rollback(snap);
          return Ledger.CapacityRejected(refused.value);
        }
      }
      assert plan[..|plan|] == plan;
      outcome := InsertReserved(snap, id, pair, fp, plan, now);
    }

    method InsertReserved(snap: Db, id: Id, pair: IdemKey, fp: Fingerprint, plan: seq<Line>, now: Time)
      returns (outcome: Ledger.ReserveOutcome)
      requires Wired() && State() == snap.(pools := pools.pools, quotas := quotas.quotas)
      modifies pools, quotas, requests, trace
      ensures var req := Ledger.ReservedRequest(cfg, pair, fp, now);
        (State(), outcome) == if Ledger.CanInsert(snap, id, req)
          then (Ledger.Insert(old(State()), id, Ledger.ReservedEntry(id, req, plan)), Ledger.Committed)
          else (snap, Ledger.Duplicate)
      ensures trace.taken == old(trace.taken) + [PairLock(pair)]
    {
      var req := Request(pair.customer, pair.key, fp, Reserved, None, Some(now + cfg.ttl), 0, now);
      var holds := BuildHolds(id, plan);
      var created := requests.Create(id, Entry(req, plan, holds, [], [EventReserved]));
      if !created {
        Rollback(snap);
        return Ledger.Duplicate;
      }
      outcome := Ledger.Committed;
    }

    method PersistRejected(id: Id, pair: IdemKey, fp: Fingerprint, plan: seq<Line>, now: Time, reason: Reason)
      returns (created: bool)
      requires Wired()
      modifies requests, trace
      ensures (State(), created) == Ledger.RejectTx(old(State()), id, pair, fp, plan, now, reason)
    {
      var req := Request(pair.customer, pair.key, fp, Rejected, Some(reason), None, 0, now);
      created := requests.Create(id, Entry(req, plan, [], [], [EventRejected]));
    }

    method CheckIdempotentReplay(input: CreateInput, fp: Fingerprint) returns (found: Option<Result<Id>>)
      requires Valid() && fp == FingerprintOf(input)
      modifies this`cache
      ensures Valid() && found == CheckReplay(State(), old(cache), input)
      ensures Unrelated(requests.rows, input.customer) ==> found == CheckStore(State(), input)
    {
      if Unrelated(requests.rows, input.customer) {
        LookupUnrelated(State(), cache, input);
      }
      var pair := PairOf(input);
      var text := TextOf(pair);
      if text in cache && cache[text] in requests.rows {
        var cached := cache[text];
        return Some(if requests.rows[cached].req.fingerprint == fp then Ok(cached) else Err(IdempotencyKeyReused));
      }
      var existing := requests.FindByIdempotency(pair);
      if existing.None? {
        return None;
      }
      var id := existing.value;
      if requests.rows[id].req.fingerprint != fp {
        return Some(Err(IdempotencyKeyReused));
      }
      cache := cache[text := id];
      found := Some(Ok(id));
    }

    method ReplayAfterDuplicate(input: CreateInput, fp: Fingerprint) returns (outcome: Outcome)
      requires IdemOk(State()) && fp == FingerprintOf(input)
      ensures outcome == ReplayOutcome(State(), input)
    {
      var existing := requests.FindByIdempotency(PairOf(input));
      if existing.None? {
        return Refused(Conflict);
      }
      if requests.rows[existing.value].req.fingerprint != fp {
        return Refused(IdempotencyKeyReused);
      }
      outcome := Returned(existing.value);
    }

    method EnforceActiveHoldsLimit(customer: Customer) returns (ok: bool)
      ensures !ok <==> cfg.maxActiveHolds > 0 && |ActiveRequests(requests.rows, customer)| >= cfg.maxActiveHolds
    {
      if cfg.maxActiveHolds == 0 {
        return true;
      }
      var n := CountActiveHoldsByCustomer(requests.rows, customer);
      ok := n < cfg.maxActiveHolds;
    }

    /** The part of a create that writes. */
    method CreateFresh(id: Id, input: CreateInput, fp: Fingerprint, plan: seq<Line>, now: Time)
      returns (outcome: Outcome)
      requires Valid() && fp == FingerprintOf(input)
      modifies this`cache, pools, quotas, requests, trace
      ensures Valid()
      ensures (State(), outcome) == Serial.CreateFresh(cfg, old(State()), id, input, plan, now)
    {
      ghost var was := State();
      var records: bool;
      outcome, records := WriteCreate(id, input, fp, plan, now);
      CreateKeepsShape(cfg, cat.pools, was, id, input, plan, now);
      if outcome.Returned? {
        CreatedIsFiled(cfg, was, id, input, plan, now);
        if records {
          cache := cache[TextOf(PairOf(input)) := outcome.id];
        }
      }
    }

    method WriteCreate(id: Id, input: CreateInput, fp: Fingerprint, plan: seq<Line>, now: Time)
      returns (outcome: Outcome, records: bool)
      requires Wired() && IdemOk(State()) && fp == FingerprintOf(input)
      modifies pools, quotas, requests, trace
      ensures (State(), outcome) == Serial.CreateFresh(cfg, old(State()), id, input, plan, now)
    {
      var pair := PairOf(input);
      records := true;
      var attempt := ReserveWithinTx(id, pair, fp, plan, now);
      if attempt.Duplicate? {
        outcome := ReplayAfterDuplicate(input, fp);
        records := false;
      } else if attempt.CapacityRejected? {
        var created := PersistRejected(id, pair, fp, plan, now, attempt.reason);
        if created {
          outcome := Returned(id);
        } else {
          outcome := ReplayAfterDuplicate(input, fp);
        }
      } else {
        outcome := Returned(id);
      }
    }

    /** `planned` is the plan the call built, None when it was answered before it built one. */
    method Create(id: Id, input: CreateInput, now: Time)
      returns (outcome: Outcome, ghost planned: Option<Result<seq<Line>>>)
      requires Valid()
      modifies this`cache, pools, quotas, requests, trace
      ensures Valid()
      ensures planned.Some? ==>
        && PlannedAs(cat, input, planned.value)
        && (State(), outcome)
           == CreateAfterCheck(cfg, old(State()), CheckReplay(old(State()), old(cache), input), id, input, planned.value, now)
      ensures planned.None? ==> forall p ::
        (State(), outcome)
        == CreateAfterCheck(cfg, old(State()), CheckReplay(old(State()), old(cache), input), id, input, p, now)
      ensures Unrelated(old(requests.rows), input.customer) ==>
        CheckReplay(old(State()), old(cache), input) == CheckStore(old(State()), input)
      ensures Unrelated(old(requests.rows), input.customer) ==>
        forall p :: planned == Some(p) || (planned == None && p.Err?) ==>
          Creates.Answered(cfg, cat, old(State()), id, input, p, now, State(), outcome)
    {
      ghost var was := State();
      outcome, planned := CreateChecked(id, input, now);
      if Unrelated(was.rows, input.customer) {
        forall p | planned == Some(p) || (planned == None && p.Err?)
          ensures Creates.Answered(cfg, cat, was, id, input, p, now, State(), outcome)
        {
          Creates.CallAnswers(cfg, cat, was, id, input, p, now, (State(), outcome));
        }
      }
    }

    /** The code of the call. */
    method CreateChecked(id: Id, input: CreateInput, now: Time)
      returns (outcome: Outcome, ghost planned: Option<Result<seq<Line>>>)
      requires Valid()
      modifies this`cache, pools, quotas, requests, trace
      ensures Valid()
      ensures planned.Some? ==>
        && PlannedAs(cat, input, planned.value)
        && (State(), outcome)
           == CreateAfterCheck(cfg, old(State()), CheckReplay(old(State()), old(cache), input), id, input, planned.value, now)
      ensures planned.None? ==> forall p ::
        (State(), outcome)
        == CreateAfterCheck(cfg, old(State()), CheckReplay(old(State()), old(cache), input), id, input, p, now)
      ensures Unrelated(old(requests.rows), input.customer) ==>
        CheckReplay(old(State()), old(cache), input) == CheckStore(old(State()), input)
    {
      if Unrelated(requests.rows, input.customer) {
        LookupUnrelated(State(), cache, input);
      }
      planned := None;
      if input.key == "" {
        return Refused(MissingIdempotency), None;
      }
      if input.customer == "" {
        return Refused(Conflict), None;
      }
      var ok := ValidateCreateInput(input);
      if !ok {
        return Refused(InvalidInput), None;
      }
      var fp := ComputeBodyHash(input);
      var found := CheckIdempotentReplay(input, fp);
      if found.Some? {
        match found.value {
          case Ok(existing) => return Returned(existing), None;
          case Err(reason) => return Refused(reason), None;
        }
      }
      ok := EnforceActiveHoldsLimit(input.customer);
      if !ok {
        return Refused(TooManyActiveHolds), None;
      }
      var built := BuildReservationPlan(input);
      planned := Some(built);
      if built.Err? {
        return Refused(built.reason), planned;
      }
      outcome := CreateFresh(id, input, fp, built.value, now);
    }

    // -- confirm, cancel, extend ------------------------------------------------------------------

    /** The statements for one hold of a confirm; false when the hold has moved on. */
    method DedicateHold(h: Hold) returns (moved: bool)
      requires Wired() && Keyed(requests.rows) && h.id.request in requests.rows
      modifies pools, requests, trace
      ensures Keyed(requests.rows)
      ensures (State(), moved) == DedicatedOne(old(State()), h)
      ensures trace.taken == old(trace.taken) + [PoolLock(h.poolId), HoldLock(h.id)]
    {
      pools.MoveReservedToDedicated(h.poolId, h.amount);
      moved := requests.UpdateHoldStatus(h.id, Active, HoldStatus.Dedicated);
    }

    /** The loop of a confirm; it stops at the first hold that has moved on. */
    method DedicateHolds(id: Id, hs: seq<Hold>) returns (moved: bool, dedications: seq<Dedication>)
      requires Wired() && Keyed(requests.rows) && id in requests.rows
      requires forall i :: 0 <= i < |hs| ==> hs[i].id.request == id
      modifies pools, requests, trace
      ensures var all := DedicateEach(old(State()), old(trace.taken), hs);
        && moved == all.moved
        && trace.taken <= all.taken
        && (moved ==> Progress(true, State(), dedications, trace.taken) == all)
    {
      ghost var was, locks := State(), trace.taken;
      dedications := [];
      for i := 0 to |hs|
        invariant Keyed(requests.rows) && id in requests.rows
        invariant Progress(true, State(), dedications, trace.taken) == DedicateEach(was, locks, hs[..i])
      {
        assert hs[..i + 1][..i] == hs[..i];
        DedicateStops(was, locks, hs, i + 1);
        moved := DedicateHold(hs[i]);
        if !moved {
          return;
        }
        dedications := dedications + [Dedication(hs[i].id, hs[i].poolId, hs[i].amount)];
      }
      assert hs[..|hs|] == hs;
      moved := true;
    }

    method ConfirmWithinTx(id: Id) returns (ok: bool)
      requires Wired() && Keyed(requests.rows) && id in requests.rows
      modifies pools, quotas, requests, trace
      ensures (State(), ok) == Ledger.ConfirmTx(old(State()), id)
      ensures trace.taken <= ConfirmLocks(id, Ledger.Listed(old(State()), id))
      ensures ok ==> trace.taken == ConfirmLocks(id, Ledger.Listed(old(State()), id))
    {
      var snap := State();
      trace.taken := [];
      var hs := requests.ListActiveHolds(id);
      ListedCarryTheId(snap, id, hs);
      DedicateEachIs(snap, id, hs);
      var moved, dedications := DedicateHolds(id, hs);
      if !moved {
        Rollback(snap);
        return false;
      }
      ConfirmEnds(snap, id, hs, State());
      ok := requests.Confirm(id, dedications);
      if !ok {
        Rollback(snap);
      }
    }

    method Confirm(id: Id, now: Time) returns (outcome: Outcome)
      requires Valid()
      modifies pools, quotas, requests, trace
      ensures Valid()
      ensures (State(), outcome) == ConfirmCall(old(State()), id, now)
      ensures Calls.Sound(cfg, old(State())) ==> Calls.ConfirmAnswered(old(State()), id, now, State(), outcome)
    {
      if Calls.Sound(cfg, State()) { Calls.CallsAnswer(cfg, State(), id, now); }
      if id !in requests.rows {
        return Refused(NotFound);
      }
      var req := requests.rows[id].req;
      if req.status == Completed {
        return Returned(id);
      }
      if req.status != Reserved {
        return Refused(Conflict);
      }
      if req.expiresAt.Some? && req.expiresAt.value <= now {
        return Refused(ReservationExpired);
      }
      ghost var was := State();
      var ok := ConfirmWithinTx(id);
      ConfirmKeepsShape(cat.pools, was, id);
      outcome := if ok then Returned(id) else Refused(Conflict);
    }

    /** The statements for one hold of a release; the result of the hold update is discarded. */
    method ReleaseHold(customer: Customer, kinds: map<Id, Kind>, h: Hold, to: HoldStatus)
      requires Wired() && Keyed(requests.rows) && h.id.request in requests.rows
      modifies pools, quotas, requests, trace
      ensures Keyed(requests.rows)
      ensures State() == ReleasedOne(old(State()), customer, kinds, h, to)
      ensures trace.taken == old(trace.taken) + HoldLocks(customer, kinds, h)
    {
      pools.ReleaseReserved(h.poolId, h.amount);
      if h.poolId in kinds && kinds[h.poolId] != "" {
        quotas.Release(QuotaKey(customer, kinds[h.poolId]), h.amount);
      }
      var _ := requests.UpdateHoldStatus(h.id, Active, to);
    }

    method KindsByPool(lines: seq<Line>) returns (kinds: map<Id, Kind>)
      ensures kinds == Ledger.KindByPool(lines)
    {
      kinds := map[];
      for i := 0 to |lines|
        invariant kinds == Ledger.KindByPool(lines[..i])
      {
        assert lines[..i + 1][..i] == lines[..i];
        kinds := kinds[lines[i].poolId := lines[i].kind];
      }
      assert lines[..|lines|] == lines;
    }

    method ReleaseHolds(id: Id, customer: Customer, kinds: map<Id, Kind>, hs: seq<Hold>, to: HoldStatus)
      requires Wired() && Keyed(requests.rows) && id in requests.rows
      requires forall i :: 0 <= i < |hs| ==> hs[i].id.request == id
      modifies pools, quotas, requests, trace
      ensures (State(), trace.taken) == ReleaseEach(old(State()), old(trace.taken), customer, kinds, hs, to)
    {
      ghost var was, locks := State(), trace.taken;
      for i := 0 to |hs|
        invariant Keyed(requests.rows) && id in requests.rows
        invariant (State(), trace.taken) == ReleaseEach(was, locks, customer, kinds, hs[..i], to)
      {
        assert hs[..i + 1][..i] == hs[..i];
        ReleaseHold(customer, kinds, hs[i], to);
      }
      assert hs[..|hs|] == hs;
    }

    method ReleaseReserved(id: Id, customer: Customer, terminal: Status)
      requires Wired() && Keyed(requests.rows) && id in requests.rows
      modifies pools, quotas, requests, trace
      ensures State() == Ledger.ReleaseTx(old(State()), id, customer, terminal)
      ensures trace.taken
           == ReleaseLocks(id, customer, Ledger.KindByPool(old(State()).rows[id].lines), Ledger.Listed(old(State()), id))
    {
      ghost var snap := State();
      trace.taken := [];
      var hs := requests.ListActiveHolds(id);
      var lines := requests.ListLines(id);
      ListedCarryTheId(snap, id, hs);
      var kinds := KindsByPool(lines);
      var holdTo := if terminal == Expired then Lapsed else Released;
      ReleaseEnds(snap, id, customer, hs, terminal);
      ReleaseHolds(id, customer, kinds, hs, holdTo);
      var _ := requests.MarkTerminal(id, terminal);
    }

    method Cancel(id: Id) returns (outcome: Outcome)
      requires Valid()
      modifies pools, quotas, requests, trace
      ensures Valid()
      ensures (State(), outcome) == CancelCall(old(State()), id)
      ensures Calls.Sound(cfg, old(State())) ==> Calls.CancelAnswered(old(State()), id, State(), outcome)
    {
      if Calls.Sound(cfg, State()) { Calls.CallsAnswer(cfg, State(), id, 0); }
      if id !in requests.rows {
        return Refused(NotFound);
      }
      var req := requests.rows[id].req;
      if req.status == Cancelled {
        return Returned(id);
      }
      if req.status != Reserved {
        return Refused(Conflict);
      }
      ghost var was := State();
      ReleaseReserved(id, req.customer, Cancelled);
      ReleaseKeepsShape(cat.pools, was, id, req.customer, Cancelled);
      outcome := Returned(id);
    }

    method Extend(id: Id, now: Time) returns (outcome: Outcome)
      requires Valid()
      modifies requests, trace
      ensures Valid()
      ensures (State(), outcome) == ExtendCall(cfg, old(State()), id, now)
      ensures Calls.Sound(cfg, old(State())) ==> Calls.ExtendAnswered(cfg, old(State()), id, now, State(), outcome)
    {
      ghost var was := State();
      outcome := ExtendChecked(id, now);
      if Calls.Sound(cfg, was) { Calls.CallsAnswer(cfg, was, id, now); }
    }

    /** The code of the call. */
    method ExtendChecked(id: Id, now: Time) returns (outcome: Outcome)
      requires Valid()
      modifies requests, trace
      ensures Valid()
      ensures (State(), outcome) == ExtendCall(cfg, old(State()), id, now)
    {
      if id !in requests.rows {
        return Refused(NotFound);
      }
      var req := requests.rows[id].req;
      var target := NextExpiry(req, now);
      if target.Err? {
        return Refused(target.reason);
      }
      var updated := ExtendRow(id, target.value, req.extensionCount + 1);
      outcome := if updated then Returned(id) else Refused(Conflict);
    }

    method ExtendRow(id: Id, target: Time, count: nat) returns (updated: bool)
      requires Valid()
      modifies requests, trace
      ensures Valid()
      ensures (State(), updated) == Ledger.ExtendTx(old(State()), id, target, count)
    {
      ghost var was := State();
      updated := requests.Extend(id, target, count);
      ExtendKeepsShape(cat.pools, was, id, target, count);
    }

    /** The checks on the request as read, in the code's order, and the new expiry. */
    method NextExpiry(req: Request, now: Time) returns (target: Result<Time>)
      ensures target.Ok? ==> ExtendTarget(cfg, req, now) == Some(target.value)
      ensures target.Err? ==> ExtendTarget(cfg, req, now) == None && target.reason == ExtendRefusal(cfg, req, now)
    {
      if req.status != Reserved {
        return Err(if req.status == Expired then ReservationExpired else Conflict);
      }
      if req.expiresAt.Some? && req.expiresAt.value <= now {
        return Err(ReservationExpired);
      }
      if req.extensionCount >= cfg.maxExtensions {
        return Err(ExtensionLimit);
      }
      var from := now;
      if req.expiresAt.Some? && req.expiresAt.value > now {
        from := req.expiresAt.value;
      }
      var newExpiry := from + cfg.ttl;
      if req.createdAt + cfg.wallTime < newExpiry {
        return Err(ExtensionLimit);
      }
      target := Ok(newExpiry);
    }

    // -- the sweeper ------------------------------------------------------------------------------

    /** A request in `failing` is one whose read or release fails: it is logged and skipped. */
    method ExpireEach(due: seq<Id>, failing: set<Id>) returns (n: nat)
      requires Valid()
      modifies pools, quotas, requests, trace
      ensures Valid()
      ensures (State(), n) == ExpireAll(old(State()), Surviving(due, failing))
    {
      ghost var was := State();
      n := 0;
      for i := 0 to |due|
        invariant Valid()
        invariant State() == ExpireListed(was, due[..i], failing).0 && n == ExpireListed(was, due[..i], failing).1
      {
        ExpireListedMore(was, due, i, failing);
        var released := ExpireOne(due[i], due[i] in failing);
        if released {
          n := n + 1;
        }
      }
      assert due[..|due|] == due;
      ExpireListedIs(was, due, failing);
    }

    method ExpireOne(id: Id, fails: bool) returns (released: bool)
      requires Valid()
      modifies pools, quotas, requests, trace
      ensures Valid()
      ensures (State(), released) == ExpireStep(old(State()), id, fails)
    {
      if fails || id !in requests.rows {
        return false;
      }
      ghost var before := State();
      var customer := requests.rows[id].req.customer;
      ReleaseReserved(id, customer, Expired);
      ReleaseKeepsShape(cat.pools, before, id, customer, Expired);
      released := true;
    }

    /** One tick. `acquired` is the connection the pool gives the locker; `failing` are the listed requests
        for which the store returns an error, and `listed` is false when the listing itself fails. */
    method ExpireDue(locker: Locker, acquired: Option<Session>, now: Time, listed: bool, failing: set<Id>)
      returns (n: nat, ghost ids: seq<Id>)
      requires Valid()
      modifies pools, quotas, requests, trace, locker, locker.db
      ensures Valid()
      ensures var (phase, server, locked) := TryLockEffect(old(locker.PhaseNow()), old(locker.db.server), acquired);
        if locked then
          && (locker.PhaseNow(), locker.db.server) == UnlockEffect(phase, server)
          && (if listed then
                && IsBatch(old(State()).rows, now, EXPIRE_BATCH_SIZE, ids)
                && (State(), n) == ExpireAll(old(State()), Surviving(ids, failing))
                && Calls.ListingAnswered(old(State()).rows, now, 100, ids)
                && (Calls.Sound(cfg, old(State())) ==>
                     Calls.TickAnswered(old(State()).rows, ids, failing, State().rows, n))
              else
                State() == old(State()) && n == 0)
        else
          && (locker.PhaseNow(), locker.db.server) == (phase, server)
          && State() == old(State()) && n == 0
    {
      ids := [];
      n := 0;
      var locked := locker.TryLock(SWEEPER_LOCK_KEY, acquired);
      if locked {
        if listed {
          var due := requests.ListExpiredIDs(now, EXPIRE_BATCH_SIZE);
          ids := due;
          ghost var was := State();
          n := ExpireEach(due, failing);
          Calls.EveryTickAnswers(cfg, was, now, due, failing, State(), n);
        }
        locker.Unlock(SWEEPER_LOCK_KEY);
      }
    }

    /** An entry of the idempotency cache may vanish at any moment. */
    method Evict(text: string)
      requires Valid()
      modifies this`cache
      ensures Valid() && cache == old(cache) - {text}
    {
      cache := cache - {text};
    }
  }

  function ExpireStep(db: Db, id: Id, fails: bool): (Db, bool) {
    if fails || id !in db.rows then (db, false)
    else (Ledger.ReleaseTx(db, id, db.rows[id].req.customer, Expired), true)
  }

  /** The sweeper's loop, one listed request after another. */
  function ExpireListed(db: Db, due: seq<Id>, failing: set<Id>): (Db, nat) {
    if |due| == 0 then (db, 0)
    else
      var (now, n) := ExpireListed(db, due[..|due| - 1], failing);
      var (next, released) := ExpireStep(now, due[|due| - 1], due[|due| - 1] in failing);
      (next, if released then n + 1 else n)
  }

  lemma ExpireListedMore(db: Db, due: seq<Id>, i: nat, failing: set<Id>)
    requires i < |due|
    ensures var (now, n) := ExpireListed(db, due[..i], failing);
      var (next, released) := ExpireStep(now, due[i], due[i] in failing);
      ExpireListed(db, due[..i + 1], failing) == (next, if released then n + 1 else n)
  {
    assert due[..i + 1][..i] == due[..i];
  }

  lemma {:induction false} ExpireListedIs(db: Db, due: seq<Id>, failing: set<Id>)
    ensures ExpireListed(db, due, failing) == ExpireAll(db, Surviving(due, failing))
  {
    if |due| > 0 {
      var front := due[..|due| - 1];
      ExpireListedIs(db, front, failing);
      if due[|due| - 1] !in failing {
        var rest := Surviving(front, failing);
        assert (rest + [due[|due| - 1]])[..|rest|] == rest;
      }
    }
  }

  // ---- what the transactions leave alone -------------------------------------------------------

  /** Hold ids, the index, idempotency bindings with their pairs, and pool policies survive a transaction. */
  predicate ShapeKept(fixed: Pools, db: Db, db': Db) {
    && (Keyed(db.rows) ==> Keyed(db'.rows))
    && (IdemOk(db) ==> IdemOk(db'))
    && (forall id :: id in db.rows ==> id in db'.rows && KeyOf(db'.rows[id].req) == KeyOf(db.rows[id].req))
    && (SamePolicies(fixed, db.pools) ==> SamePolicies(fixed, db'.pools))
  }

  lemma {:induction false} LoopKeepsPolicies(fixed: Pools, pools: Pools, quotas: Quotas, customer: Customer, plan: seq<Line>)
    requires SamePolicies(fixed, pools)
    ensures var r := Ledger.ReserveLoop(pools, quotas, customer, plan); r.Fits? ==> SamePolicies(fixed, r.pools)
  {
    if |plan| > 0 { LoopKeepsPolicies(fixed, pools, quotas, customer, plan[..|plan| - 1]); }
  }

  predicate SameHoldIds(e: Entry, e': Entry) {
    |e'.holds| == |e.holds| && forall i :: 0 <= i < |e.holds| ==> e'.holds[i].id == e.holds[i].id
  }

  lemma UpdateKeepsShape(fixed: Pools, db: Db, id: Id, e: Entry, db': Db)
    requires id in db.rows && KeyOf(e.req) == KeyOf(db.rows[id].req) && SameHoldIds(db.rows[id], e)
    requires db'.rows == db.rows[id := e] && db'.idem == db.idem
    requires SamePolicies(fixed, db.pools) ==> SamePolicies(fixed, db'.pools)
    ensures ShapeKept(fixed, db, db')
  {
    if IdemOk(db) { UpdateKeepsIdem(db, id, e, db'); }
    if Keyed(db.rows) { UpdateKeepsKeyed(db.rows, id, e); }
  }

  lemma UpdateKeepsKeyed(rows: Rows, id: Id, e: Entry)
    requires Keyed(rows) && id in rows && SameHoldIds(rows[id], e)
    ensures Keyed(rows[id := e])
  {
  }

  lemma InsertKeepsShape(fixed: Pools, db: Db, id: Id, e: Entry, db': Db)
    requires Ledger.CanInsert(db, id, e.req)
    requires forall i :: 0 <= i < |e.holds| ==> e.holds[i].id == HoldId(id, i)
    requires db'.rows == db.rows[id := e] && db'.idem == db.idem[KeyOf(e.req) := id]
    requires SamePolicies(fixed, db.pools) ==> SamePolicies(fixed, db'.pools)
    ensures ShapeKept(fixed, db, db')
  {
    if IdemOk(db) { InsertKeepsIdem(db, id, e, db'); }
  }

  lemma ReserveKeepsShape(cfg: Config, fixed: Pools, db: Db, id: Id, pair: IdemKey, fp: Fingerprint, plan: seq<Line>, now: Time)
    ensures ShapeKept(fixed, db, Ledger.ReserveTx(cfg, db, id, pair, fp, plan, now).0)
  {
    var (db', outcome) := Ledger.ReserveTx(cfg, db, id, pair, fp, plan, now);
    if outcome == Ledger.Committed {
      if SamePolicies(fixed, db.pools) { LoopKeepsPolicies(fixed, db.pools, db.quotas, pair.customer, plan); }
      InsertKeepsShape(fixed, db, id, Ledger.ReservedEntry(id, Ledger.ReservedRequest(cfg, pair, fp, now), plan), db');
    }
  }

  lemma ExtendKeepsShape(fixed: Pools, db: Db, id: Id, target: Time, count: nat)
    ensures ShapeKept(fixed, db, Ledger.ExtendTx(db, id, target, count).0)
  {
    var (db', ok) := Ledger.ExtendTx(db, id, target, count);
    if ok { UpdateKeepsShape(fixed, db, id, db'.rows[id], db'); }
  }

  lemma RejectKeepsShape(fixed: Pools, db: Db, id: Id, pair: IdemKey, fp: Fingerprint, plan: seq<Line>, now: Time, reason: Reason)
    ensures ShapeKept(fixed, db, Ledger.RejectTx(db, id, pair, fp, plan, now, reason).0)
  {
    var (db', ok) := Ledger.RejectTx(db, id, pair, fp, plan, now, reason);
    if ok {
      InsertKeepsShape(fixed, db, id, Ledger.RejectedEntry(Ledger.RejectedRequest(pair, fp, now, reason), plan), db');
    }
  }

  lemma CreateKeepsShape(cfg: Config, fixed: Pools, db: Db, id: Id, input: CreateInput, plan: seq<Line>, now: Time)
    ensures ShapeKept(fixed, db, Serial.CreateFresh(cfg, db, id, input, plan, now).0)
  {
    var pair, fp := PairOf(input), FingerprintOf(input);
    ReserveKeepsShape(cfg, fixed, db, id, pair, fp, plan, now);
    var outcome := Ledger.ReserveTx(cfg, db, id, pair, fp, plan, now).1;
    if outcome.CapacityRejected? {
      RejectKeepsShape(fixed, db, id, pair, fp, plan, now, outcome.reason);
    }
  }

  /** What a create returns is stored under the text of its pair. */
  lemma CreatedIsFiled(cfg: Config, db: Db, id: Id, input: CreateInput, plan: seq<Line>, now: Time)
    requires IdemOk(db)
    ensures var (db', outcome) := Serial.CreateFresh(cfg, db, id, input, plan, now);
      outcome.Returned? ==> Filed(db', TextOf(PairOf(input)), outcome.id)
  {
  }

  lemma {:induction false} MoveKeepsPolicies(fixed: Pools, pools: Pools, hs: seq<Hold>)
    requires SamePolicies(fixed, pools)
    ensures SamePolicies(fixed, Ledger.MoveAll(pools, hs)) && SamePolicies(fixed, Ledger.ReleaseAll(pools, hs))
  {
    if |hs| > 0 { MoveKeepsPolicies(fixed, pools, hs[..|hs| - 1]); }
  }

  lemma {:induction false} MarkKeepsIds(holds: seq<Hold>, hs: seq<Hold>, to: HoldStatus)
    ensures |Ledger.MarkAll(holds, hs, to)| == |holds|
    ensures forall i :: 0 <= i < |holds| ==> Ledger.MarkAll(holds, hs, to)[i].id == holds[i].id
  {
    if |hs| > 0 { MarkKeepsIds(holds, hs[..|hs| - 1], to); }
  }

  lemma ConfirmKeepsShape(fixed: Pools, db: Db, id: Id)
    ensures ShapeKept(fixed, db, Ledger.ConfirmTx(db, id).0)
  {
    var (db', ok) := Ledger.ConfirmTx(db, id);
    if ok {
      var hs := Ledger.Listed(db, id);
      MarkKeepsIds(db.rows[id].holds, hs, HoldStatus.Dedicated);
      if SamePolicies(fixed, db.pools) { MoveKeepsPolicies(fixed, db.pools, hs); }
      UpdateKeepsShape(fixed, db, id, db'.rows[id], db');
    }
  }

  lemma ReleaseKeepsShape(fixed: Pools, db: Db, id: Id, customer: Customer, terminal: Status)
    ensures ShapeKept(fixed, db, Ledger.ReleaseTx(db, id, customer, terminal))
  {
    if id in db.rows {
      var db' := Ledger.ReleaseTx(db, id, customer, terminal);
      var hs := Ledger.Listed(db, id);
      MarkKeepsIds(db.rows[id].holds, hs, Ledger.HoldTarget(terminal));
      if SamePolicies(fixed, db.pools) { MoveKeepsPolicies(fixed, db.pools, hs); }
      UpdateKeepsShape(fixed, db, id, db'.rows[id], db');
    }
  }
}
