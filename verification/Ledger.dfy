/** The SQL statements and the transactions built from them, as functions on the database value.
    Each fold runs over a prefix first and then over the last element, so it is the forward loop of
    the service. */
module Ledger {
  import opened Domain

  // ---- single statements on pools -------------------------------------------------------------

  function TryReserve(pools: Pools, id: Id, amount: int): Option<Pools> {
    if id in pools && pools[id].effective - pools[id].dedicated - pools[id].reserved >= amount then
      Some(pools[id := pools[id].(reserved := pools[id].reserved + amount)])
    else
      None
  }

  function ReleaseReserved(pools: Pools, id: Id, amount: int): Pools {
    if id in pools && pools[id].reserved >= amount then
      pools[id := pools[id].(reserved := pools[id].reserved - amount)]
    else
      pools
  }

  function MoveReservedToDedicated(pools: Pools, id: Id, amount: int): Pools {
    if id in pools && pools[id].reserved >= amount then
      pools[id := pools[id].(reserved := pools[id].reserved - amount,
                             dedicated := pools[id].dedicated + amount)]
    else
      pools
  }

  // ---- single statements on quotas ------------------------------------------------------------

  function QuotaRow(quotas: Quotas, key: QuotaKey): Quota {
    if key in quotas then quotas[key] else Quota(DEFAULT_QUOTA_LIMIT, 0)
  }

  function EnsureAndTryConsume(quotas: Quotas, key: QuotaKey, amount: int): (Quotas, bool) {
    var q := QuotaRow(quotas, key);
    if q.limit - q.used >= amount then
      (quotas[key := q.(used := q.used + amount)], true)
    else
      (quotas[key := q], false)
  }

  function ReleaseQuota(quotas: Quotas, key: QuotaKey, amount: int): Quotas {
    if key in quotas then
      var left := quotas[key].used - amount;
      quotas[key := quotas[key].(used := if left >= 0 then left else 0)]
    else
      quotas
  }

  // ---- single statements on holds -------------------------------------------------------------

  /** The ACTIVE holds in stored order. */
  function ActiveHolds(holds: seq<Hold>): seq<Hold> {
    if |holds| == 0 then []
    else
      var rest := ActiveHolds(holds[..|holds| - 1]);
      var h := holds[|holds| - 1];
      if h.status == Active then rest + [h] else rest
  }

  function MarkOne(h: Hold, id: HoldId, from: HoldStatus, to: HoldStatus): Hold {
    if h.id == id && h.status == from then h.(status := to) else h
  }

  /** UPDATE holds SET status = to WHERE id = id AND status = from. */
  function MarkHold(holds: seq<Hold>, id: HoldId, from: HoldStatus, to: HoldStatus): seq<Hold> {
    seq(|holds|, i requires 0 <= i < |holds| => MarkOne(holds[i], id, from, to))
  }

  /** Whether that update touches a row. */
  predicate CanMark(holds: seq<Hold>, id: HoldId, from: HoldStatus) {
    exists i :: 0 <= i < |holds| && holds[i].id == id && holds[i].status == from
  }

  // ---- the reserve transaction ----------------------------------------------------------------

  datatype LoopResult = Fits(pools: Pools, quotas: Quotas) | Stopped(reason: Reason, at: nat)

  function ReserveLoop(pools: Pools, quotas: Quotas, customer: Customer, plan: seq<Line>): LoopResult {
    if |plan| == 0 then Fits(pools, quotas)
    else
      var n := |plan| - 1;
      match ReserveLoop(pools, quotas, customer, plan[..n])
      case Stopped(reason, at) => Stopped(reason, at)
      case Fits(ps, qs) => ReserveLine(ps, qs, customer, plan[n], n)
  }

  function ReserveLine(pools: Pools, quotas: Quotas, customer: Customer, line: Line, at: nat): LoopResult {
    match TryReserve(pools, line.poolId, line.amount)
    case None => Stopped(InsufficientCapacity, at)
    case Some(ps) =>
      var (qs, ok) := EnsureAndTryConsume(quotas, QuotaKey(customer, line.kind), line.amount);
      if ok then Fits(ps, qs) else Stopped(QuotaExceeded, at)
  }

  function HoldsOf(id: Id, lines: seq<Line>, status: HoldStatus): seq<Hold> {
    seq(|lines|, i requires 0 <= i < |lines| =>
      Hold(HoldId(id, i), lines[i].poolId, lines[i].amount, status))
  }

  /** INSERT INTO capacity_requests fails when the id or the (customer, key) pair is taken. */
  predicate CanInsert(db: Db, id: Id, req: Request) {
    id !in db.rows && KeyOf(req) !in db.idem
  }

  function Insert(db: Db, id: Id, e: Entry): Db {
    db.(rows := db.rows[id := e], idem := db.idem[KeyOf(e.req) := id])
  }

  function ReservedRequest(cfg: Config, key: IdemKey, fp: Fingerprint, now: Time): Request {
    Request(key.customer, key.key, fp, Reserved, None, Some(now + cfg.ttl), 0, now)
  }

  function RejectedRequest(key: IdemKey, fp: Fingerprint, now: Time, reason: Reason): Request {
    Request(key.customer, key.key, fp, Rejected, Some(reason), None, 0, now)
  }

  function ReservedEntry(id: Id, req: Request, plan: seq<Line>): Entry {
    Entry(req, plan, HoldsOf(id, plan, Active), [], [EventReserved])
  }

  function RejectedEntry(req: Request, plan: seq<Line>): Entry {
    Entry(req, plan, [], [], [EventRejected])
  }

  datatype ReserveOutcome = Committed | CapacityRejected(reason: Reason) | Duplicate

  /** Every outcome but Committed rolls the whole transaction back. */
  function ReserveTx(cfg: Config, db: Db, id: Id, key: IdemKey, fp: Fingerprint, plan: seq<Line>, now: Time)
    : (Db, ReserveOutcome)
  {
    match ReserveLoop(db.pools, db.quotas, key.customer, plan)
    case Stopped(reason, _) => (db, CapacityRejected(reason))
    case Fits(ps, qs) =>
      var req := ReservedRequest(cfg, key, fp, now);
      if CanInsert(db, id, req) then
        (Insert(db.(pools := ps, quotas := qs), id, ReservedEntry(id, req, plan)), Committed)
      else
        (db, Duplicate)
  }

  /** The flag is false when the unique constraint refuses the row. */
  function RejectTx(db: Db, id: Id, key: IdemKey, fp: Fingerprint, plan: seq<Line>, now: Time, reason: Reason)
    : (Db, bool)
  {
    var req := RejectedRequest(key, fp, now, reason);
    if CanInsert(db, id, req) then (Insert(db, id, RejectedEntry(req, plan)), true) else (db, false)
  }

  // ---- confirm and release --------------------------------------------------------------------

  function MoveAll(pools: Pools, hs: seq<Hold>): Pools {
    if |hs| == 0 then pools
    else
      var h := hs[|hs| - 1];
      MoveReservedToDedicated(MoveAll(pools, hs[..|hs| - 1]), h.poolId, h.amount)
  }

  function ReleaseAll(pools: Pools, hs: seq<Hold>): Pools {
    if |hs| == 0 then pools
    else
      var h := hs[|hs| - 1];
      ReleaseReserved(ReleaseAll(pools, hs[..|hs| - 1]), h.poolId, h.amount)
  }

  function KindByPool(lines: seq<Line>): map<Id, Kind> {
    if |lines| == 0 then map[]
    else
      var l := lines[|lines| - 1];
      KindByPool(lines[..|lines| - 1])[l.poolId := l.kind]
  }

  /** A missing pool reads as the empty kind, and an empty kind is not refunded. */
  function RefundOne(quotas: Quotas, customer: Customer, kinds: map<Id, Kind>, h: Hold): Quotas {
    if h.poolId in kinds && kinds[h.poolId] != "" then
      ReleaseQuota(quotas, QuotaKey(customer, kinds[h.poolId]), h.amount)
    else
      quotas
  }

  function RefundAll(quotas: Quotas, customer: Customer, kinds: map<Id, Kind>, hs: seq<Hold>): Quotas {
    if |hs| == 0 then quotas
    else RefundOne(RefundAll(quotas, customer, kinds, hs[..|hs| - 1]), customer, kinds, hs[|hs| - 1])
  }

  function MarkAll(holds: seq<Hold>, hs: seq<Hold>, to: HoldStatus): seq<Hold> {
    if |hs| == 0 then holds
    else MarkHold(MarkAll(holds, hs[..|hs| - 1], to), hs[|hs| - 1].id, Active, to)
  }

  /** Every update of the loop touches a row. */
  predicate CanMarkAll(holds: seq<Hold>, hs: seq<Hold>, to: HoldStatus) {
    |hs| > 0 ==>
      && CanMarkAll(holds, hs[..|hs| - 1], to)
      && CanMark(MarkAll(holds, hs[..|hs| - 1], to), hs[|hs| - 1].id, Active)
  }

  function DedicationsFor(hs: seq<Hold>): seq<Dedication> {
    seq(|hs|, i requires 0 <= i < |hs| => Dedication(hs[i].id, hs[i].poolId, hs[i].amount))
  }

  /** The writes of Confirm for the list of holds read at its start; false means rolled back. */
  function ConfirmWith(db: Db, id: Id, hs: seq<Hold>): (Db, bool) {
    if id in db.rows && CanMarkAll(db.rows[id].holds, hs, Dedicated) && db.rows[id].req.status == Reserved then
      var e := db.rows[id];
      (db.(pools := MoveAll(db.pools, hs),
           rows := db.rows[id := Entry(e.req.(status := Completed), e.lines,
                                       MarkAll(e.holds, hs, Dedicated),
                                       e.dedications + DedicationsFor(hs),
                                       e.events + [EventConfirmed])]), true)
    else
      (db, false)
  }

  function Listed(db: Db, id: Id): seq<Hold> {
    if id in db.rows then ActiveHolds(db.rows[id].holds) else []
  }

  function ConfirmTx(db: Db, id: Id): (Db, bool) {
    ConfirmWith(db, id, Listed(db, id))
  }

  function HoldTarget(terminal: Status): HoldStatus {
    if terminal == Expired then Lapsed else Released
  }

  function EventFor(terminal: Status): Event {
    if terminal == Expired then EventExpired else EventCancelled
  }

  /** UPDATE capacity_requests SET status = terminal WHERE status = 'RESERVED', with its event. */
  function MarkTerminal(e: Entry, terminal: Status): Entry {
    if e.req.status == Reserved then
      e.(req := e.req.(status := terminal), events := e.events + [EventFor(terminal)])
    else
      e
  }

  /** The writes of releaseReserved for the list of holds read at its start. The results of the
      hold updates and of the status update are discarded, as the service does. */
  function ReleaseWith(db: Db, id: Id, customer: Customer, hs: seq<Hold>, terminal: Status): Db {
    if id in db.rows then
      var e := db.rows[id];
      Db(ReleaseAll(db.pools, hs),
         RefundAll(db.quotas, customer, KindByPool(e.lines), hs),
         db.rows[id := MarkTerminal(e.(holds := MarkAll(e.holds, hs, HoldTarget(terminal))), terminal)],
         db.idem)
    else
      db
  }

  function ReleaseTx(db: Db, id: Id, customer: Customer, terminal: Status): Db {
    ReleaseWith(db, id, customer, Listed(db, id), terminal)
  }

  // ---- extend ---------------------------------------------------------------------------------

  function ExtendTx(db: Db, id: Id, expiresAt: Time, extensionCount: nat): (Db, bool) {
    if id in db.rows && db.rows[id].req.status == Reserved then
      var e := db.rows[id];
      (db.(rows := db.rows[id := e.(req := e.req.(expiresAt := Some(expiresAt),
                                                  extensionCount := extensionCount),
                                    events := e.events + [EventExtended])]), true)
    else
      (db, false)
  }
}
