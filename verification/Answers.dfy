/** What the five public calls answer and write, told in the fields of the records alone: for every state,
    which calls change something, what exactly, and the refusal of each of the others. */
module Answers {
  import opened Domain
  import opened Ledger
  import opened Invariant
  import opened Settle
  import opened Conservation
  import opened Reserve
  import opened Intake
  import opened Interleaving
  import opened Guarantees
  import opened Serial
  import opened Sweep
  import opened Stores

  // ---- effects on the records -------------------------------------------------------------------

  /** Only the row `id` may have changed, and no row has come or gone. */
  predicate OnlyRow(db: Db, id: Id, db': Db) {
    && id in db.rows && db'.rows.Keys == db.rows.Keys && db'.idem == db.idem
    && forall other :: other in db.rows && other != id ==> db'.rows[other] == db.rows[other]
  }

  /** The request has moved on to a status, all its holds with it, and one event has been appended. */
  predicate MovesOn(e: Entry, e': Entry, status: Status, hold: HoldStatus, event: Event) {
    && e'.req == e.req.(status := status) && e'.lines == e.lines
    && |e.holds| == |e.lines| && |e'.holds| == |e.lines|
    && (forall i :: 0 <= i < |e.lines| ==>
         && e.holds[i].status == Active && e.holds[i].poolId == e.lines[i].poolId && e.holds[i].amount == e.lines[i].amount
         && e'.holds[i] == e.holds[i].(status := hold))
    && e'.events == e.events + [event]
  }

  /** Each pool's reserved amount falls by what the lines hold on it; it is dedicated or set free. */
  predicate PoolsGiveBack(pools: Pools, pools': Pools, lines: seq<Line>, dedicate: bool) {
    && pools'.Keys == pools.Keys
    && forall p :: p in pools ==>
      pools'[p] == pools[p].(reserved := pools[p].reserved - AmountOn(lines, p),
                             dedicated := pools[p].dedicated + if dedicate then AmountOn(lines, p) else 0)
  }

  /** Each quota's use falls by what the lines charge it. */
  ghost predicate QuotasGiveBack(quotas: Quotas, quotas': Quotas, customer: Customer, lines: seq<Line>) {
    && quotas'.Keys == quotas.Keys
    && forall key :: QuotaRow(quotas', key) == QuotaRow(quotas, key).(used :=
      QuotaRow(quotas, key).used - if key.customer == customer then KindAmount(lines, key.kind) else 0)
  }

  predicate DedicatesAll(e: Entry, e': Entry) {
    && |e'.dedications| == |e.holds|
    && forall i :: 0 <= i < |e.holds| ==>
      && e'.dedications[i].holdId == e.holds[i].id
      && e'.dedications[i].poolId == e.holds[i].poolId
      && e'.dedications[i].amount == e.holds[i].amount
  }

  predicate Confirmed(db: Db, id: Id, db': Db) {
    && OnlyRow(db, id, db') && db'.quotas == db.quotas
    && MovesOn(db.rows[id], db'.rows[id], Completed, HoldStatus.Dedicated, EventConfirmed)
    && DedicatesAll(db.rows[id], db'.rows[id])
    && PoolsGiveBack(db.pools, db'.pools, db.rows[id].lines, true)
  }

  /** A cancel or an expiry, by the hold status and event it leaves. */
  ghost predicate ReleasedAs(db: Db, id: Id, status: Status, hold: HoldStatus, event: Event, db': Db) {
    && OnlyRow(db, id, db')
    && MovesOn(db.rows[id], db'.rows[id], status, hold, event)
    && db'.rows[id].dedications == db.rows[id].dedications
    && PoolsGiveBack(db.pools, db'.pools, db.rows[id].lines, false)
    && QuotasGiveBack(db.quotas, db'.quotas, db.rows[id].req.customer, db.rows[id].lines)
  }

  // ---- confirm --------------------------------------------------------------------------------

  lemma ConfirmedIsConfirmed(cfg: Config, base: Base, db: Db, id: Id, db': Db)
    requires id in db.rows && db.rows[id].req.status == Reserved && EntryOk(cfg, base.pools, id, db.rows[id])
    requires db' == db.(pools := AfterMove(db.pools, db.rows[id].holds), rows := db.rows[id := ConfirmedEntry(id, db.rows[id])])
    ensures Confirmed(db, id, db')
  {
    forall p ensures HeldOn(db.rows[id].holds, p) == AmountOn(db.rows[id].lines, p) {
      HeldOnHoldsOf(id, db.rows[id].lines, Active, p);
    }
  }

  /** Which confirms change something, what, and the answer of every one of them. */
  predicate ConfirmAnswered(db: Db, id: Id, now: Time, db': Db, outcome: Outcome) {
    if id !in db.rows then
      db' == db && outcome == Refused(NotFound)
    else
      var r := db.rows[id].req;
      match r.status
      case Completed => db' == db && outcome == Returned(id)
      case Reserved =>
        if r.expiresAt.Some? && now < r.expiresAt.value then
          Confirmed(db, id, db') && outcome == Returned(id)
        else
          db' == db && outcome == Refused(ReservationExpired)
      case _ => db' == db && outcome == Refused(Conflict)
  }

  /** A confirm changes the database iff the request is RESERVED and not yet due. Then it is COMPLETED,
      every hold dedicated, and exactly its amounts moved; the answer of every case is fixed. */
  lemma ConfirmAnswers(cfg: Config, base: Base, db: Db, id: Id, now: Time)
    requires DbOk(cfg, base, db)
    ensures ConfirmAnswered(db, id, now, ConfirmCall(db, id, now).0, ConfirmCall(db, id, now).1)
  {
    if id in db.rows && db.rows[id].req.status == Reserved {
      ConfirmTxIs(cfg, base, db, id, ConfirmTx(db, id));
    }
    ConfirmOfRow(db, id, now, ConfirmTx(db, id));
  }

  lemma ConfirmTxIs(cfg: Config, base: Base, db: Db, id: Id, tx: (Db, bool))
    requires DbOk(cfg, base, db) && id in db.rows && db.rows[id].req.status == Reserved && tx == ConfirmTx(db, id)
    ensures db.rows[id].req.expiresAt.Some? && tx.1 && Confirmed(db, id, tx.0)
  {
    assert EntryOk(cfg, base.pools, id, db.rows[id]);
    ConfirmExact(cfg, base, db, id);
    ConfirmedIsConfirmed(cfg, base, db, id, tx.0);
  }

  lemma ConfirmOfRow(db: Db, id: Id, now: Time, tx: (Db, bool))
    requires tx == ConfirmTx(db, id)
    requires id in db.rows && db.rows[id].req.status == Reserved ==>
      db.rows[id].req.expiresAt.Some? && tx.1 && Confirmed(db, id, tx.0)
    ensures ConfirmAnswered(db, id, now, ConfirmCall(db, id, now).0, ConfirmCall(db, id, now).1)
  {
  }

  // ---- cancel ---------------------------------------------------------------------------------

  lemma RowIsReleased(cfg: Config, pools: Pools, id: Id, e: Entry, terminal: Status)
    requires EntryOk(cfg, pools, id, e) && e.req.status == Reserved && terminal in {Cancelled, Expired}
    ensures var e' := ReleasedEntry(id, e, terminal);
      MovesOn(e, e', terminal, if terminal == Expired then Lapsed else Released, if terminal == Expired then EventExpired else EventCancelled)
      && e'.dedications == e.dedications
  {
  }

  lemma PoolsAreReleased(pools: Pools, id: Id, lines: seq<Line>, hs: seq<Hold>)
    requires hs == HoldsOf(id, lines, Active)
    ensures PoolsGiveBack(pools, AfterRelease(pools, hs), lines, false)
  {
    forall p ensures HeldOn(hs, p) == AmountOn(lines, p) {
      HeldOnHoldsOf(id, lines, Active, p);
    }
  }

  lemma QuotasAreReleased(pools: Pools, id: Id, quotas: Quotas, customer: Customer, lines: seq<Line>, hs: seq<Hold>, quotas': Quotas)
    requires forall i :: 0 <= i < |lines| ==> lines[i].poolId in pools && pools[lines[i].poolId].kind == lines[i].kind
    requires hs == HoldsOf(id, lines, Active)
    requires AfterRefund(pools, quotas, customer, hs, quotas') && Chargeable(pools, quotas, customer, KindByPool(lines), hs)
    ensures QuotasGiveBack(quotas, quotas', customer, lines)
  {
    forall key
      ensures QuotaRow(quotas', key) == QuotaRow(quotas, key).(used :=
        QuotaRow(quotas, key).used - if key.customer == customer then KindAmount(lines, key.kind) else 0)
    {
      ChargedOnHoldsOf(pools, id, lines, Active, key.kind);
    }
  }

  lemma ReleasedIsReleased(cfg: Config, base: Base, db: Db, id: Id, terminal: Status, db': Db)
    requires id in db.rows && db.rows[id].req.status == Reserved && EntryOk(cfg, base.pools, id, db.rows[id])
    requires terminal in {Cancelled, Expired} && ReleasedExactly(base.pools, db, id, terminal, db')
    requires Chargeable(base.pools, db.quotas, db.rows[id].req.customer, KindByPool(db.rows[id].lines), db.rows[id].holds)
    ensures terminal == Cancelled ==> ReleasedAs(db, id, Cancelled, Released, EventCancelled, db')
    ensures terminal == Expired ==> ReleasedAs(db, id, Expired, Lapsed, EventExpired, db')
  {
    var e := db.rows[id];
    RowIsReleased(cfg, base.pools, id, e, terminal);
    PoolsAreReleased(db.pools, id, e.lines, e.holds);
    QuotasAreReleased(base.pools, id, db.quotas, e.req.customer, e.lines, e.holds, db'.quotas);
  }

  lemma ReleaseIs(cfg: Config, base: Base, db: Db, id: Id, terminal: Status, db': Db)
    requires DbOk(cfg, base, db) && id in db.rows && terminal in {Cancelled, Expired}
    requires db' == ReleaseTx(db, id, db.rows[id].req.customer, terminal)
    ensures db.rows[id].req.status != Reserved ==> db' == db
    ensures db.rows[id].req.status == Reserved && terminal == Cancelled ==>
      ReleasedAs(db, id, Cancelled, Released, EventCancelled, db')
    ensures db.rows[id].req.status == Reserved && terminal == Expired ==>
      ReleasedAs(db, id, Expired, Lapsed, EventExpired, db')
  {
    assert EntryOk(cfg, base.pools, id, db.rows[id]);
    ReleaseExact(cfg, base, db, id, db.rows[id].req.customer, terminal);
    if db.rows[id].req.status == Reserved {
      ReservedIsCovered(cfg, base, db, id);
      ReleasedIsReleased(cfg, base, db, id, terminal, db');
    }
  }

  ghost predicate CancelAnswered(db: Db, id: Id, db': Db, outcome: Outcome) {
    if id !in db.rows then
      db' == db && outcome == Refused(NotFound)
    else
      match db.rows[id].req.status
      case Cancelled => db' == db && outcome == Returned(id)
      case Reserved => ReleasedAs(db, id, Cancelled, Released, EventCancelled, db') && outcome == Returned(id)
      case _ => db' == db && outcome == Refused(Conflict)
  }

  /** A cancel of a RESERVED request leaves it CANCELLED with every hold RELEASED and gives back exactly its
      amounts; every other cancel changes nothing, and its answer is fixed. */
  lemma CancelAnswers(cfg: Config, base: Base, db: Db, id: Id)
    requires DbOk(cfg, base, db)
    ensures CancelAnswered(db, id, CancelCall(db, id).0, CancelCall(db, id).1)
  {
    if id in db.rows && db.rows[id].req.status == Reserved {
      ReleaseIs(cfg, base, db, id, Cancelled, CancelCall(db, id).0);
    }
  }

  // ---- extend ---------------------------------------------------------------------------------

  /** One more TTL from the stored expiry, and nothing else but the event. */
  predicate Extended(cfg: Config, db: Db, id: Id, db': Db) {
    && OnlyRow(db, id, db') && db'.pools == db.pools && db'.quotas == db.quotas
    && db.rows[id].req.expiresAt.Some?
    && db'.rows[id] == db.rows[id].(
         req := db.rows[id].req.(expiresAt := Some(db.rows[id].req.expiresAt.value + cfg.ttl),
                                 extensionCount := db.rows[id].req.extensionCount + 1),
         events := db.rows[id].events + [EventExtended])
  }

  predicate ExtendAnswered(cfg: Config, db: Db, id: Id, now: Time, db': Db, outcome: Outcome) {
    if id !in db.rows then
      db' == db && outcome == Refused(NotFound)
    else
      var r := db.rows[id].req;
      match r.status
      case Reserved =>
        if r.expiresAt.None? || r.expiresAt.value <= now then
          db' == db && outcome == Refused(ReservationExpired)
        else if r.extensionCount >= cfg.maxExtensions || r.expiresAt.value + cfg.ttl > r.createdAt + cfg.wallTime then
          db' == db && outcome == Refused(ExtensionLimit)
        else
          Extended(cfg, db, id, db') && outcome == Returned(id)
      case Expired => db' == db && outcome == Refused(ReservationExpired)
      case _ => db' == db && outcome == Refused(Conflict)
  }

  /** An extend succeeds iff the request is RESERVED, not yet due, below the extension limit, and one more
      TTL stays within the wall time; each refusal names the first of these that fails. */
  lemma ExtendAnswers(cfg: Config, base: Base, db: Db, id: Id, now: Time)
    requires DbOk(cfg, base, db)
    ensures ExtendAnswered(cfg, db, id, now, ExtendCall(cfg, db, id, now).0, ExtendCall(cfg, db, id, now).1)
  {
    if id in db.rows {
      assert EntryOk(cfg, base.pools, id, db.rows[id]);
      ExtendOfRow(cfg, db, id, now);
    }
  }

  lemma ExtendOfRow(cfg: Config, db: Db, id: Id, now: Time)
    requires id in db.rows && (db.rows[id].req.status == Reserved ==> db.rows[id].req.expiresAt.Some?)
    ensures ExtendAnswered(cfg, db, id, now, ExtendCall(cfg, db, id, now).0, ExtendCall(cfg, db, id, now).1)
  {
  }

  // ---- the sweeper ----------------------------------------------------------------------------

  /** RESERVED with an expiry before now. */
  predicate PastExpiry(r: Request, now: Time) {
    r.status == Reserved && r.expiresAt.Some? && r.expiresAt.value < now
  }

  /** What a listing of at most `limit` requests is: past their expiry, distinct, earliest first, none left out
      that expires before a listed one, and all of them unless the limit is reached. */
  predicate ListingAnswered(rows: Rows, now: Time, limit: nat, ids: seq<Id>) {
    && |ids| <= limit
    && (forall i :: 0 <= i < |ids| ==> ids[i] in rows && PastExpiry(rows[ids[i]].req, now))
    && (forall i, j :: 0 <= i < j < |ids| ==>
         ids[i] != ids[j] && rows[ids[i]].req.expiresAt.value <= rows[ids[j]].req.expiresAt.value)
    && (forall i, id :: 0 <= i < |ids| && id in rows && id !in ids && PastExpiry(rows[id].req, now) ==>
         rows[ids[i]].req.expiresAt.value <= rows[id].req.expiresAt.value)
    && (|ids| < limit ==> forall id :: id in rows && PastExpiry(rows[id].req, now) ==> id in ids)
  }

  lemma ListingAnswers(rows: Rows, now: Time, limit: nat, ids: seq<Id>)
    requires IsBatch(rows, now, limit, ids)
    ensures ListingAnswered(rows, now, limit, ids)
  {
    forall i | 0 <= i < |ids| ensures ids[i] in rows && PastExpiry(rows[ids[i]].req, now) {
      assert ids[i] in OverdueIds(rows, now);
    }
    forall i, id | 0 <= i < |ids| && id in rows && id !in ids && PastExpiry(rows[id].req, now)
      ensures rows[ids[i]].req.expiresAt.value <= rows[id].req.expiresAt.value
    {
      assert id in OverdueIds(rows, now);
    }
    if |ids| < limit { ShortListIsAll(rows, now, limit, ids); }
  }

  lemma ShortListIsAll(rows: Rows, now: Time, limit: nat, ids: seq<Id>)
    requires IsBatch(rows, now, limit, ids) && |ids| < limit
    ensures forall id :: id in rows && PastExpiry(rows[id].req, now) ==> id in ids
  {
    ToSetSize(ids);
    var due := OverdueIds(rows, now);
    assert ToSet(ids) <= due;
    if id :| id in rows && PastExpiry(rows[id].req, now) && id !in ids {
      assert id in due && id !in ToSet(ids);
      SubsetSize(ToSet(ids) + {id}, due);
    }
  }

  /** A tick whose releases of `failing` fail: every other listed request has moved on to EXPIRED, nothing else
      has changed, and the count is of those that moved. */
  ghost predicate TickAnswered(rows: Rows, ids: seq<Id>, failing: set<Id>, rows': Rows, n: nat) {
    && rows'.Keys == rows.Keys
    && n == |ToSet(ids) - failing|
    && forall id :: id in rows ==>
      if id in ids && id !in failing then
        MovesOn(rows[id], rows'[id], Expired, Lapsed, EventExpired) && rows'[id].dedications == rows[id].dedications
      else
        rows'[id] == rows[id]
  }

  /** A tick: at most a hundred requests, all past their expiry, all that are if there are fewer, move on and
      are counted; a request that is not past its expiry is never touched. The counters follow, since the
      invariant holds. */
  lemma TickAnswers(cfg: Config, base: Base, db: Db, now: Time, ids: seq<Id>, failing: set<Id>, db': Db, n: nat)
    requires DbOk(cfg, base, db) && IsBatch(db.rows, now, EXPIRE_BATCH_SIZE, ids)
    requires (db', n) == ExpireAll(db, Surviving(ids, failing))
    ensures DbOk(cfg, base, db')
    ensures ListingAnswered(db.rows, now, 100, ids)
    ensures TickAnswered(db.rows, ids, failing, db'.rows, n)
    ensures forall id :: id in db.rows && !PastExpiry(db.rows[id].req, now) ==> db'.rows[id] == db.rows[id]
  {
    ListingAnswers(db.rows, now, EXPIRE_BATCH_SIZE, ids);
    TickSkipsFailures(cfg, base, db, now, ids, failing);
    SurvivorsCounted(ids, failing);
    TickRows(cfg, base, db.rows, now, ids, failing, db'.rows);
  }

  lemma SurvivorsCounted(ids: seq<Id>, failing: set<Id>)
    requires Distinct(ids)
    ensures |Surviving(ids, failing)| == |ToSet(ids) - failing|
  {
    SurvivingMembers(ids, failing);
    ToSetSize(Surviving(ids, failing));
    assert ToSet(Surviving(ids, failing)) == ToSet(ids) - failing;
  }

  lemma ListedRow(cfg: Config, base: Base, rows: Rows, now: Time, ids: seq<Id>, id: Id)
    requires RowsOk(cfg, base, rows) && ListingAnswered(rows, now, 100, ids) && id in ids
    ensures id in rows
    ensures var e' := ReleasedEntry(id, rows[id], Expired);
      MovesOn(rows[id], e', Expired, Lapsed, EventExpired) && e'.dedications == rows[id].dedications
  {
    assert PastExpiry(rows[id].req, now);
    assert EntryOk(cfg, base.pools, id, rows[id]);
    RowIsReleased(cfg, base.pools, id, rows[id], Expired);
  }

  lemma TickRows(cfg: Config, base: Base, rows: Rows, now: Time, ids: seq<Id>, failing: set<Id>, rows': Rows)
    requires RowsOk(cfg, base, rows) && ListingAnswered(rows, now, 100, ids)
    requires ExpiredExactly(rows, Surviving(ids, failing), rows')
    requires forall id :: id in Surviving(ids, failing) <==> id in ids && id !in failing
    ensures TickAnswered(rows, ids, failing, rows', |ToSet(ids) - failing|)
  {
    forall id | id in rows && id in ids && id !in failing
      ensures MovesOn(rows[id], rows'[id], Expired, Lapsed, EventExpired) && rows'[id].dedications == rows[id].dedications
    {
      ListedRow(cfg, base, rows, now, ids, id);
      assert rows'[id] == ReleasedEntry(id, rows[id], Expired);
    }
  }

  // ---- on every sound state ---------------------------------------------------------------------

  /** The invariant holds, whatever the seed was. */
  ghost predicate Sound(cfg: Config, db: Db) { exists base :: DbOk(cfg, base, db) }

  lemma CallsAnswer(cfg: Config, db: Db, id: Id, now: Time)
    requires Sound(cfg, db)
    ensures ConfirmAnswered(db, id, now, ConfirmCall(db, id, now).0, ConfirmCall(db, id, now).1)
    ensures CancelAnswered(db, id, CancelCall(db, id).0, CancelCall(db, id).1)
    ensures ExtendAnswered(cfg, db, id, now, ExtendCall(cfg, db, id, now).0, ExtendCall(cfg, db, id, now).1)
  {
    var base :| DbOk(cfg, base, db);
    ConfirmAnswers(cfg, base, db, id, now);
    CancelAnswers(cfg, base, db, id);
    ExtendAnswers(cfg, base, db, id, now);
  }

  lemma EveryTickAnswers(cfg: Config, db: Db, now: Time, ids: seq<Id>, failing: set<Id>, db': Db, n: nat)
    requires IsBatch(db.rows, now, EXPIRE_BATCH_SIZE, ids) && (db', n) == ExpireAll(db, Surviving(ids, failing))
    ensures ListingAnswered(db.rows, now, 100, ids)
    ensures Sound(cfg, db) ==> TickAnswered(db.rows, ids, failing, db'.rows, n)
  {
    ListingAnswers(db.rows, now, EXPIRE_BATCH_SIZE, ids);
    if Sound(cfg, db) {
      var base :| DbOk(cfg, base, db);
      TickAnswers(cfg, base, db, now, ids, failing, db', n);
    }
  }

  // ---- there is always a batch to list ------------------------------------------------------------

  lemma {:induction false} Earliest(rows: Rows, due: set<Id>) returns (first: Id)
    requires due != {} && due <= rows.Keys
    ensures first in due && forall id :: id in due ==> ExpiryOf(rows, first) <= ExpiryOf(rows, id)
    decreases due
  {
    first :| first in due;
    if due != {first} {
      var other := Earliest(rows, due - {first});
      if ExpiryOf(rows, other) < ExpiryOf(rows, first) { first := other; }
    }
  }

  lemma BatchExists(rows: Rows, now: Time, limit: nat) returns (ids: seq<Id>)
    ensures IsBatch(rows, now, limit, ids)
  {
    ids := [];
    var all := OverdueIds(rows, now);
    var due := all;
    while |ids| < limit && due != {}
      invariant |ids| <= limit && Picked(rows, all, due, ids)
      decreases due
    {
      var first := Earliest(rows, due);
      PickedOneMore(rows, all, due, ids, first);
      ids := ids + [first];
      due := due - {first};
    }
  }

  /** Any number of ticks can be made, so the drain is not an empty promise. */
  lemma {:induction false} TicksExist(db: Db, now: Time, n: nat) returns (batches: seq<seq<Id>>)
    ensures |batches| == n && Ticks(db, now, batches)
    decreases n
  {
    if n == 0 {
      batches := [];
    } else {
      var first := BatchExists(db.rows, now, EXPIRE_BATCH_SIZE);
      var rest := TicksExist(ExpireAll(db, first).0, now, n - 1);
      batches := [first] + rest;
      assert batches[1..] == rest;
    }
  }
}
