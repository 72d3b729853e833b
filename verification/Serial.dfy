/** Calls run one after another, each without interruption: what the service promises only then. */
module Serial {
  import opened Domain
  import opened Ledger
  import opened Invariant
  import opened Settle
  import opened Conservation
  import opened Reserve
  import opened Intake
  import opened Interleaving
  import opened Guarantees

  datatype Outcome = Returned(id: Id) | Refused(reason: Reason)

  /** The plan a create call comes to: what buildReservationPlan may return. */
  predicate PlannedAs(cat: Catalogue, input: CreateInput, planned: Result<seq<Line>>) {
    match planned
    case Ok(plan) => Resolve(cat, input).Ok? && IsPlan(cat.pools, Resolve(cat, input).value, plan)
    case Err(reason) =>
      match Resolve(cat, input)
      case Err(r) => reason == r
      case Ok(amounts) => Refusable(cat.pools, amounts, reason)
  }

  // ---- the calls ------------------------------------------------------------------------------

  function ReplayOutcome(db: Db, input: CreateInput): Outcome {
    match CheckStore(db, input)
    case Some(Ok(id)) => Returned(id)
    case Some(Err(reason)) => Refused(reason)
    case None => Refused(Conflict)
  }

  function CreateFresh(cfg: Config, db: Db, id: Id, input: CreateInput, plan: seq<Line>, now: Time): (Db, Outcome) {
    var pair, fp := PairOf(input), FingerprintOf(input);
    var (db1, outcome) := ReserveTx(cfg, db, id, pair, fp, plan, now);
    match outcome
    case Committed => (db1, Returned(id))
    case Duplicate => (db1, ReplayOutcome(db1, input))
    case CapacityRejected(reason) =>
      var (db2, ok) := RejectTx(db1, id, pair, fp, plan, now, reason);
      (db2, if ok then Returned(id) else ReplayOutcome(db2, input))
  }

  /** A create call for which the idempotency check has answered `found`. */
  function CreateAfterCheck(cfg: Config, db: Db, found: Option<Result<Id>>, id: Id, input: CreateInput, planned: Result<seq<Line>>, now: Time)
    : (Db, Outcome)
  {
    if Validate(input).Some? then (db, Refused(Validate(input).value))
    else
      match found
      case Some(Ok(existing)) => (db, Returned(existing))
      case Some(Err(reason)) => (db, Refused(reason))
      case None =>
        if cfg.maxActiveHolds > 0 && |ActiveRequests(db.rows, input.customer)| >= cfg.maxActiveHolds then
          (db, Refused(TooManyActiveHolds))
        else
          match planned
          case Err(reason) => (db, Refused(reason))
          case Ok(plan) => CreateFresh(cfg, db, id, input, plan, now)
  }

  /** The check answers what the store alone would answer. */
  function CreateCall(cfg: Config, db: Db, id: Id, input: CreateInput, planned: Result<seq<Line>>, now: Time): (Db, Outcome) {
    CreateAfterCheck(cfg, db, CheckStore(db, input), id, input, planned, now)
  }

  function ConfirmCall(db: Db, id: Id, now: Time): (Db, Outcome) {
    if id !in db.rows then (db, Refused(NotFound))
    else
      var r := db.rows[id].req;
      if r.status == Completed then (db, Returned(id))
      else if r.status != Reserved then (db, Refused(Conflict))
      else if r.expiresAt.Some? && r.expiresAt.value <= now then (db, Refused(ReservationExpired))
      else
        var (db', ok) := ConfirmTx(db, id);
        (db', if ok then Returned(id) else Refused(Conflict))
  }

  function CancelCall(db: Db, id: Id): (Db, Outcome) {
    if id !in db.rows then (db, Refused(NotFound))
    else
      var r := db.rows[id].req;
      if r.status == Cancelled then (db, Returned(id))
      else if r.status != Reserved then (db, Refused(Conflict))
      else (ReleaseTx(db, id, r.customer, Cancelled), Returned(id))
  }

  function ExtendCall(cfg: Config, db: Db, id: Id, now: Time): (Db, Outcome) {
    if id !in db.rows then (db, Refused(NotFound))
    else
      var r := db.rows[id].req;
      match ExtendTarget(cfg, r, now)
      case None => (db, Refused(ExtendRefusal(cfg, r, now)))
      case Some(target) =>
        var (db', ok) := ExtendTx(db, id, target, r.extensionCount + 1);
        (db', if ok then Returned(id) else Refused(Conflict))
  }

  /** The sweeper's loop over the listed ids; the count is of requests found and released. */
  function ExpireAll(db: Db, ids: seq<Id>): (Db, nat) {
    if |ids| == 0 then (db, 0)
    else
      var (db1, n) := ExpireAll(db, ids[..|ids| - 1]);
      var id := ids[|ids| - 1];
      if id in db1.rows then (ReleaseTx(db1, id, db1.rows[id].req.customer, Expired), n + 1) else (db1, n)
  }

  // ---- serial runs ----------------------------------------------------------------------------

  datatype Op =
    | Create(id: Id, input: CreateInput, found: Option<Result<Id>>, planned: Result<seq<Line>>, now: Time)
    | Confirm(id: Id, now: Time)
    | Cancel(id: Id)
    | Extend(id: Id, now: Time)
    | Expire(ids: seq<Id>)

  /** A create call's plan is the one built from its body; everything else is unrestricted, also what the
      idempotency check answered through the cache. */
  predicate Enabled(cat: Catalogue, op: Op) {
    op.Create? && ValidBody(op.input) ==> PlannedAs(cat, op.input, op.planned)
  }

  function Do(cfg: Config, cat: Catalogue, db: Db, op: Op): Db {
    if !Enabled(cat, op) then db
    else
      match op
      case Create(id, input, found, planned, now) => CreateAfterCheck(cfg, db, found, id, input, planned, now).0
      case Confirm(id, now) => ConfirmCall(db, id, now).0
      case Cancel(id) => CancelCall(db, id).0
      case Extend(id, now) => ExtendCall(cfg, db, id, now).0
      case Expire(ids) => ExpireAll(db, ids).0
  }

  function SerialRun(cfg: Config, cat: Catalogue, base: Base, ops: seq<Op>): Db {
    if |ops| == 0 then Init(base)
    else Do(cfg, cat, SerialRun(cfg, cat, base, ops[..|ops| - 1]), ops[|ops| - 1])
  }

  // ---- what holds on serial runs only -----------------------------------------------------------

  /** The stored count is exactly the number of extensions in the trail. */
  predicate CountsExact(rows: Rows) {
    forall id :: id in rows ==> rows[id].req.extensionCount == Extensions(rows[id].events)
  }

  ghost predicate CapHolds(cfg: Config, rows: Rows) {
    cfg.maxActiveHolds > 0 ==> forall customer ::
      |ActiveRequests(rows, customer)| <= cfg.maxActiveHolds
  }

  /** One step of a serial run: the invariant and what only serial runs keep. */
  ghost predicate SerialOk(cfg: Config, base: Base, db: Db) {
    DbOk(cfg, base, db) && CountsExact(db.rows) && CapHolds(cfg, db.rows)
  }

  ghost predicate SerialSafe(cfg: Config, base: Base, db: Db, db': Db) {
    SerialOk(cfg, base, db) ==> SerialOk(cfg, base, db')
  }

  // ---- the cap --------------------------------------------------------------------------------

  lemma {:induction false} ActiveHoldsEmpty(holds: seq<Hold>)
    ensures ActiveHolds(holds) != [] <==> exists i :: 0 <= i < |holds| && holds[i].status == Active
  {
    if |holds| > 0 {
      var front := holds[..|holds| - 1];
      ActiveHoldsEmpty(front);
      if i :| 0 <= i < |holds| && holds[i].status == Active {
        if i < |holds| - 1 { assert front[i].status == Active; }
      }
      if i :| 0 <= i < |front| && front[i].status == Active { assert holds[i].status == Active; }
    }
  }

  lemma ActiveIsReserved(cfg: Config, pools: Pools, id: Id, e: Entry)
    requires EntryOk(cfg, pools, id, e) && e.req.status == Reserved
    ensures ActiveHolds(e.holds) != [] <==> e.lines != []
  {
    ActiveHoldsEmpty(e.holds);
    if e.lines != [] { assert e.holds[0].status == Active; }
  }

  lemma SubsetSize(a: set<Id>, b: set<Id>)
    requires a <= b
    ensures |a| <= |b|
  {
    assert b == a + (b - a);
  }

  /** A forward step that adds no row adds no active request. */
  lemma ActiveOnlyShrinks(cfg: Config, base: Base, db: Db, db': Db, customer: Customer)
    requires RowsOk(cfg, base, db.rows) && RowsOk(cfg, base, db'.rows)
    requires Forward(db, db') && db'.rows.Keys == db.rows.Keys
    ensures |ActiveRequests(db'.rows, customer)| <= |ActiveRequests(db.rows, customer)|
  {
    forall id | id in ActiveRequests(db'.rows, customer) ensures id in ActiveRequests(db.rows, customer) {
      assert EntryOk(cfg, base.pools, id, db.rows[id]) && EntryOk(cfg, base.pools, id, db'.rows[id]);
      assert RowForward(db.rows[id], db'.rows[id]);
      ActiveIsReserved(cfg, base.pools, id, db.rows[id]);
      ActiveIsReserved(cfg, base.pools, id, db'.rows[id]);
    }
    SubsetSize(ActiveRequests(db'.rows, customer), ActiveRequests(db.rows, customer));
  }

  lemma CapAfterForward(cfg: Config, base: Base, db: Db, db': Db)
    requires RowsOk(cfg, base, db.rows) && RowsOk(cfg, base, db'.rows)
    requires Forward(db, db') && db'.rows.Keys == db.rows.Keys && CapHolds(cfg, db.rows)
    ensures CapHolds(cfg, db'.rows)
  {
    forall customer ensures |ActiveRequests(db'.rows, customer)| <= |ActiveRequests(db.rows, customer)| {
      ActiveOnlyShrinks(cfg, base, db, db', customer);
    }
  }

  /** A new row adds itself at most, and only for its own customer. */
  lemma CapAfterInsert(cfg: Config, rows: Rows, id: Id, e: Entry)
    requires CapHolds(cfg, rows) && id !in rows
    requires cfg.maxActiveHolds > 0 && e.req.status == Reserved ==>
      |ActiveRequests(rows, e.req.customer)| < cfg.maxActiveHolds
    ensures CapHolds(cfg, rows[id := e])
  {
    var rows' := rows[id := e];
    forall customer ensures cfg.maxActiveHolds > 0 ==> |ActiveRequests(rows', customer)| <= cfg.maxActiveHolds {
      var before, after := ActiveRequests(rows, customer), ActiveRequests(rows', customer);
      if customer == e.req.customer && e.req.status == Reserved {
        assert after <= before + {id};
        SubsetSize(after, before + {id});
      } else {
        assert after <= before;
        SubsetSize(after, before);
      }
    }
  }

  // ---- every serial call keeps it ---------------------------------------------------------------

  /** A transaction that inserts one request keeps the serial invariant if the cap had room for it. */
  lemma SerialFromInsert(cfg: Config, base: Base, db: Db, id: Id, e: Entry, db': Db)
    requires TxSafe(cfg, base, db, db') && id !in db.rows && db'.rows == db.rows[id := e]
    requires e.req.extensionCount == Extensions(e.events)
    requires cfg.maxActiveHolds > 0 && e.req.status == Reserved ==>
      |ActiveRequests(db.rows, e.req.customer)| < cfg.maxActiveHolds
    ensures SerialSafe(cfg, base, db, db')
  {
    if CapHolds(cfg, db.rows) { CapAfterInsert(cfg, db.rows, id, e); }
  }

  /** A transaction that rewrites rows in place keeps it if the counts stay exact. */
  lemma SerialFromUpdate(cfg: Config, base: Base, db: Db, db': Db)
    requires TxSafe(cfg, base, db, db') && db'.rows.Keys == db.rows.Keys
    requires CountsExact(db.rows) ==> CountsExact(db'.rows)
    ensures SerialSafe(cfg, base, db, db')
  {
    if SerialOk(cfg, base, db) { CapAfterForward(cfg, base, db, db'); }
  }

  lemma NewTrails()
    ensures Extensions([EventReserved]) == 0 && Extensions([EventRejected]) == 0
  {
    assert [EventReserved][..0] == [] && [EventRejected][..0] == [];
  }

  lemma ReserveSerialSafe(cfg: Config, base: Base, db: Db, id: Id, pair: IdemKey, fp: Fingerprint, plan: seq<Line>, now: Time)
    requires PlanOk(base.pools, plan)
    requires cfg.maxActiveHolds > 0 ==> |ActiveRequests(db.rows, pair.customer)| < cfg.maxActiveHolds
    ensures SerialSafe(cfg, base, db, ReserveTx(cfg, db, id, pair, fp, plan, now).0)
  {
    var (db', outcome) := ReserveTx(cfg, db, id, pair, fp, plan, now);
    CreateTxSafe(cfg, base, db, id, pair, fp, plan, now, Conflict);
    NewTrails();
    if outcome == Committed {
      SerialFromInsert(cfg, base, db, id, ReservedEntry(id, ReservedRequest(cfg, pair, fp, now), plan), db');
    }
  }

  lemma RejectSerialSafe(cfg: Config, base: Base, db: Db, id: Id, pair: IdemKey, fp: Fingerprint, plan: seq<Line>, now: Time, reason: Reason)
    requires PlanOk(base.pools, plan)
    ensures SerialSafe(cfg, base, db, RejectTx(db, id, pair, fp, plan, now, reason).0)
  {
    var (db', ok) := RejectTx(db, id, pair, fp, plan, now, reason);
    CreateTxSafe(cfg, base, db, id, pair, fp, plan, now, reason);
    NewTrails();
    if ok {
      SerialFromInsert(cfg, base, db, id, RejectedEntry(RejectedRequest(pair, fp, now, reason), plan), db');
    }
  }

  lemma CreateFreshSafe(cfg: Config, base: Base, db: Db, id: Id, input: CreateInput, plan: seq<Line>, now: Time)
    requires PlanOk(base.pools, plan)
    requires cfg.maxActiveHolds > 0 ==> |ActiveRequests(db.rows, input.customer)| < cfg.maxActiveHolds
    ensures SerialSafe(cfg, base, db, CreateFresh(cfg, db, id, input, plan, now).0)
  {
    var pair, fp := PairOf(input), FingerprintOf(input);
    var (db1, outcome) := ReserveTx(cfg, db, id, pair, fp, plan, now);
    ReserveSerialSafe(cfg, base, db, id, pair, fp, plan, now);
    if outcome.CapacityRejected? {
      RejectSerialSafe(cfg, base, db1, id, pair, fp, plan, now, outcome.reason);
    }
  }

  lemma CreateSafe(cfg: Config, cat: Catalogue, base: Base, db: Db, op: Op)
    requires cat.pools == base.pools && op.Create? && Enabled(cat, op)
    ensures SerialSafe(cfg, base, db, Do(cfg, cat, db, op))
  {
    if Validate(op.input).None? && op.planned.Ok? && op.found.None? {
      PlanIsOk(cat, op.input, op.planned.value);
      if !(cfg.maxActiveHolds > 0 && |ActiveRequests(db.rows, op.input.customer)| >= cfg.maxActiveHolds) {
        CreateFreshSafe(cfg, base, db, op.id, op.input, op.planned.value, op.now);
      }
    }
  }

  lemma {:induction false} ExtensionsOfMore(events: seq<Event>, ev: Event)
    ensures Extensions(events + [ev]) == Extensions(events) + if ev == EventExtended then 1 else 0
  {
    assert (events + [ev])[..|events|] == events;
  }

  lemma ReleaseCounts(db: Db, id: Id, customer: Customer, terminal: Status)
    requires CountsExact(db.rows)
    ensures CountsExact(ReleaseTx(db, id, customer, terminal).rows)
    ensures ReleaseTx(db, id, customer, terminal).rows.Keys == db.rows.Keys
  {
    if id in db.rows { ExtensionsOfMore(db.rows[id].events, EventFor(terminal)); }
  }

  lemma ReleaseSerialSafe(cfg: Config, base: Base, db: Db, id: Id, terminal: Status)
    requires id in db.rows && terminal in {Cancelled, Expired}
    ensures SerialSafe(cfg, base, db, ReleaseTx(db, id, db.rows[id].req.customer, terminal))
  {
    var customer := db.rows[id].req.customer;
    ReleaseTxSafe(cfg, base, db, id, customer, terminal);
    if CountsExact(db.rows) {
      ReleaseCounts(db, id, customer, terminal);
      SerialFromUpdate(cfg, base, db, ReleaseTx(db, id, customer, terminal));
    }
  }

  lemma ConfirmSerialSafe(cfg: Config, base: Base, db: Db, id: Id)
    ensures SerialSafe(cfg, base, db, ConfirmTx(db, id).0)
  {
    ConfirmTxSafe(cfg, base, db, id);
    if id in db.rows { ExtensionsOfMore(db.rows[id].events, EventConfirmed); }
    SerialFromUpdate(cfg, base, db, ConfirmTx(db, id).0);
  }

  lemma ExtendCounts(db: Db, id: Id, target: Time)
    requires CountsExact(db.rows) && id in db.rows
    ensures CountsExact(ExtendTx(db, id, target, db.rows[id].req.extensionCount + 1).0.rows)
  {
    ExtensionsOfMore(db.rows[id].events, EventExtended);
  }

  lemma ExtendTxSerialSafe(cfg: Config, base: Base, db: Db, id: Id, target: Time, db': Db)
    requires id in db.rows && CountsExact(db.rows)
    requires db' == ExtendTx(db, id, target, db.rows[id].req.extensionCount + 1).0
    requires TxSafe(cfg, base, db, db')
    ensures SerialSafe(cfg, base, db, db')
  {
    ExtendCounts(db, id, target);
    SerialFromUpdate(cfg, base, db, db');
  }

  lemma ExtendCallEffect(cfg: Config, db: Db, id: Id, now: Time)
    requires id in db.rows
    ensures ExtendCall(cfg, db, id, now).0 ==
      match ExtendTarget(cfg, db.rows[id].req, now)
      case None => db
      case Some(target) => ExtendTx(db, id, target, db.rows[id].req.extensionCount + 1).0
  {
  }

  lemma ExtendCallTxSafe(cfg: Config, base: Base, db: Db, id: Id, now: Time, db': Db)
    requires id in db.rows && SnapshotOk(cfg, db, id, db.rows[id].req)
    requires db' == ExtendCall(cfg, db, id, now).0
    ensures TxSafe(cfg, base, db, db')
  {
    ExtendCallEffect(cfg, db, id, now);
    if ExtendTarget(cfg, db.rows[id].req, now).Some? {
      ExtendTxSafe(cfg, base, db, id, db.rows[id].req, now, db');
    } else {
      SameIsTxSafe(cfg, base, db);
    }
  }

  lemma SameIsTxSafe(cfg: Config, base: Base, db: Db)
    ensures TxSafe(cfg, base, db, db)
  {
    ForwardReflexive(db);
  }

  lemma ExtendFromTx(cfg: Config, base: Base, db: Db, id: Id, now: Time)
    requires id in db.rows && CountsExact(db.rows) && TxSafe(cfg, base, db, ExtendCall(cfg, db, id, now).0)
    ensures SerialSafe(cfg, base, db, ExtendCall(cfg, db, id, now).0)
  {
    ExtendCallEffect(cfg, db, id, now);
    var target := ExtendTarget(cfg, db.rows[id].req, now);
    if target.Some? {
      ExtendTxSerialSafe(cfg, base, db, id, target.value, ExtendCall(cfg, db, id, now).0);
    } else {
      NoChangeIsSafe(cfg, base, db);
    }
  }

  lemma ExtendSerialSafe(cfg: Config, base: Base, db: Db, id: Id, now: Time)
    ensures SerialSafe(cfg, base, db, ExtendCall(cfg, db, id, now).0)
  {
    if id in db.rows && SerialOk(cfg, base, db) {
      SnapshotNow(cfg, base, db, id);
      ExtendCallTxSafe(cfg, base, db, id, now, ExtendCall(cfg, db, id, now).0);
      ExtendFromTx(cfg, base, db, id, now);
    }
  }

  lemma ConfirmCallEffect(db: Db, id: Id, now: Time)
    ensures ConfirmCall(db, id, now).0 in {db, ConfirmTx(db, id).0}
  {
  }

  lemma NoChangeIsSafe(cfg: Config, base: Base, db: Db)
    ensures SerialSafe(cfg, base, db, db)
  {
  }

  lemma ConfirmCallSafe(cfg: Config, base: Base, db: Db, id: Id, now: Time)
    ensures SerialSafe(cfg, base, db, ConfirmCall(db, id, now).0)
  {
    ConfirmCallEffect(db, id, now);
    ConfirmSerialSafe(cfg, base, db, id);
    NoChangeIsSafe(cfg, base, db);
  }

  lemma CancelCallSafe(cfg: Config, base: Base, db: Db, id: Id)
    ensures SerialSafe(cfg, base, db, CancelCall(db, id).0)
  {
    if id in db.rows { ReleaseSerialSafe(cfg, base, db, id, Cancelled); }
  }

  lemma {:induction false} ExpireSerialSafe(cfg: Config, base: Base, db: Db, ids: seq<Id>)
    ensures SerialSafe(cfg, base, db, ExpireAll(db, ids).0)
  {
    if |ids| > 0 {
      var db1 := ExpireAll(db, ids[..|ids| - 1]).0;
      ExpireSerialSafe(cfg, base, db, ids[..|ids| - 1]);
      if ids[|ids| - 1] in db1.rows { ReleaseSerialSafe(cfg, base, db1, ids[|ids| - 1], Expired); }
    }
  }

  lemma DoSafe(cfg: Config, cat: Catalogue, base: Base, db: Db, op: Op)
    requires cat.pools == base.pools
    ensures SerialSafe(cfg, base, db, Do(cfg, cat, db, op))
  {
    if Enabled(cat, op) {
      match op
      case Create(_, _, _, _, _) => CreateSafe(cfg, cat, base, db, op);
      case Confirm(id, now) => ConfirmCallSafe(cfg, base, db, id, now);
      case Cancel(id) => CancelCallSafe(cfg, base, db, id);
      case Extend(id, now) => ExtendSerialSafe(cfg, base, db, id, now);
      case Expire(ids) => ExpireSerialSafe(cfg, base, db, ids);
    }
  }

  lemma {:induction false} SerialRunOk(cfg: Config, cat: Catalogue, base: Base, ops: seq<Op>)
    requires Setup(cat, base)
    ensures SerialOk(cfg, base, SerialRun(cfg, cat, base, ops))
  {
    if |ops| == 0 {
      InitOk(cfg, base);
    } else {
      SerialRunOk(cfg, cat, base, ops[..|ops| - 1]);
      DoSafe(cfg, cat, base, SerialRun(cfg, cat, base, ops[..|ops| - 1]), ops[|ops| - 1]);
    }
  }

  /** On serial runs the active-hold cap is never exceeded and the extension count is exact. */
  lemma CapAndCounts(cfg: Config, cat: Catalogue, base: Base, ops: seq<Op>, customer: Customer, id: Id)
    requires Setup(cat, base)
    ensures var rows := SerialRun(cfg, cat, base, ops).rows;
      && (cfg.maxActiveHolds > 0 ==> |ActiveRequests(rows, customer)| <= cfg.maxActiveHolds)
      && (id in rows ==> rows[id].req.extensionCount == Extensions(rows[id].events))
  {
    SerialRunOk(cfg, cat, base, ops);
  }
}
