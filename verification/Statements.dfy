/** Creates, rejections and confirms interleaved statement by statement under READ COMMITTED. Every
    statement sees what is committed when it runs, overlaid with its own transaction's writes; a row it
    writes stays locked until the transaction ends, and a statement that needs a row locked by another
    transaction waits. Confirm starts from a list of holds that others may overtake. */
module Statements {
  import opened Domain
  import opened Ledger
  import opened Invariant
  import opened Settle
  import opened Conservation
  import opened Reserve
  import opened Locks

  datatype Program =
    | CreateProgram(pair: IdemKey, fp: Fingerprint, plan: seq<Line>, now: Time)
    | ConfirmProgram(id: Id, hs: seq<Hold>)

  /** The next statement: the pool of line (or hold) k, its quota (or the hold itself), the request row, or
      COMMIT. */
  datatype Position = PoolOf(k: nat) | SecondOf(k: nat) | RequestRow | Commit

  /** A running transaction: its next statement, the rows it has locked, and its uncommitted writes. */
  datatype Job = Job(program: Program, at: Position, held: set<Lock>, pools: Pools, quotas: Quotas, marks: set<HoldId>)

  datatype Whole =
    | Reserving(t: Id, pair: IdemKey, fp: Fingerprint, plan: seq<Line>, now: Time)
    | Rejecting(t: Id, pair: IdemKey, fp: Fingerprint, plan: seq<Line>, now: Time, reason: Reason)
    | Confirming(id: Id)

  /** The committed database, the running transactions, and what has committed, in commit order. */
  datatype Sessions = Sessions(db: Db, jobs: map<Id, Job>, log: seq<Whole>)

  datatype Turn =
    | BeginCreate(t: Id, pair: IdemKey, fp: Fingerprint, plan: seq<Line>, now: Time)
    | BeginConfirm(t: Id, id: Id)
    | Reject(t: Id, pair: IdemKey, fp: Fingerprint, plan: seq<Line>, now: Time, reason: Reason)
    | Advance(t: Id)

  // ---- statements -----------------------------------------------------------------------------

  function Length(p: Program): nat {
    match p
    case CreateProgram(_, _, plan, _) => |plan|
    case ConfirmProgram(_, hs) => |hs|
  }

  function LineOrLast(n: nat, k: nat): Position { if k < n then PoolOf(k) else RequestRow }

  function After(n: nat, at: Position): Position {
    match at
    case PoolOf(k) => SecondOf(k)
    case SecondOf(k) => LineOrLast(n, k + 1)
    case RequestRow => Commit
    case Commit => Commit
  }

  predicate InProgram(n: nat, at: Position) {
    match at
    case PoolOf(k) => k < n
    case SecondOf(k) => k < n
    case _ => true
  }

  /** The row the next statement writes. */
  function NextLock(p: Program, at: Position): Lock
    requires InProgram(Length(p), at) && at != Commit
  {
    match p
    case CreateProgram(pair, _, plan, _) =>
      (match at
       case PoolOf(k) => PoolLock(plan[k].poolId)
       case SecondOf(k) => QuotaLock(QuotaKey(pair.customer, plan[k].kind))
       case RequestRow => PairLock(pair))
    case ConfirmProgram(id, hs) =>
      (match at
       case PoolOf(k) => PoolLock(hs[k].poolId)
       case SecondOf(k) => HoldLock(hs[k].id)
       case RequestRow => RequestLock(id))
  }

  /** The next statement run on what is committed and what the job has written; None rolls back. */
  function Execute(cfg: Config, db: Db, t: Id, job: Job): Option<Job>
    requires InProgram(Length(job.program), job.at) && job.at != Commit
  {
    var after := Moved(job);
    match job.program
    case CreateProgram(pair, fp, plan, now) =>
      (match job.at
       case PoolOf(k) => TryReserveNow(db, job, after, plan[k])
       case SecondOf(k) => ConsumeNow(db, job, after, pair.customer, plan[k])
       case RequestRow => if CanInsert(db, t, ReservedRequest(cfg, pair, fp, now)) then Some(after) else None)
    case ConfirmProgram(id, hs) =>
      (match job.at
       case PoolOf(k) => Some(MoveNow(db, job, after, hs[k]))
       case SecondOf(k) => MarkNow(db, id, job, after, hs[k])
       case RequestRow => if id in db.rows && db.rows[id].req.status == Reserved then Some(after) else None)
  }

  function Moved(job: Job): Job
    requires InProgram(Length(job.program), job.at) && job.at != Commit
  {
    job.(at := After(Length(job.program), job.at), held := job.held + {NextLock(job.program, job.at)})
  }

  function TryReserveNow(db: Db, job: Job, after: Job, l: Line): Option<Job> {
    match TryReserve(db.pools + job.pools, l.poolId, l.amount)
    case None => None
    case Some(ps) => Some(after.(pools := job.pools[l.poolId := ps[l.poolId]]))
  }

  function ConsumeNow(db: Db, job: Job, after: Job, customer: Customer, l: Line): Option<Job> {
    var key := QuotaKey(customer, l.kind);
    var (qs, ok) := EnsureAndTryConsume(db.quotas + job.quotas, key, l.amount);
    if ok then Some(after.(quotas := job.quotas[key := qs[key]])) else None
  }

  /** A guard that refuses writes and locks nothing, and the transaction goes on. */
  function MoveNow(db: Db, job: Job, after: Job, h: Hold): Job {
    var pools := db.pools + job.pools;
    if h.poolId in pools && pools[h.poolId].reserved >= h.amount then
      after.(pools := job.pools[h.poolId := MoveReservedToDedicated(pools, h.poolId, h.amount)[h.poolId]])
    else
      after.(held := job.held)
  }

  function MarkNow(db: Db, id: Id, job: Job, after: Job, h: Hold): Option<Job> {
    if id in db.rows && CanMark(db.rows[id].holds, h.id, Active) && h.id !in job.marks then
      Some(after.(marks := job.marks + {h.id}))
    else
      None
  }

  function MarkSet(holds: seq<Hold>, marks: set<HoldId>): seq<Hold> {
    seq(|holds|, i requires 0 <= i < |holds| =>
      if holds[i].id in marks then holds[i].(status := HoldStatus.Dedicated) else holds[i])
  }

  /** COMMIT makes the job's writes visible. */
  function Publish(cfg: Config, db: Db, t: Id, job: Job): Db {
    match job.program
    case CreateProgram(pair, fp, plan, now) =>
      Insert(db.(pools := db.pools + job.pools, quotas := db.quotas + job.quotas), t,
             ReservedEntry(t, ReservedRequest(cfg, pair, fp, now), plan))
    case ConfirmProgram(id, hs) =>
      if id !in db.rows then db
      else
        var e := db.rows[id];
        db.(pools := db.pools + job.pools,
            rows := db.rows[id := Entry(e.req.(status := Completed), e.lines, MarkSet(e.holds, job.marks),
                                        e.dedications + DedicationsFor(hs), e.events + [EventConfirmed])])
  }

  function WholeOf(t: Id, p: Program): Whole {
    match p
    case CreateProgram(pair, fp, plan, now) => Reserving(t, pair, fp, plan, now)
    case ConfirmProgram(id, _) => Confirming(id)
  }

  // ---- runs -----------------------------------------------------------------------------------

  predicate Locked(jobs: map<Id, Job>, t: Id, lock: Lock) {
    exists u :: u in jobs && u != t && lock in jobs[u].held
  }

  /** A statement waits for a row it would write; one that finds nothing to write does not. */
  function AdvanceJob(cfg: Config, w: Sessions, t: Id): Sessions
    requires t in w.jobs
  {
    var job := w.jobs[t];
    if job.at == Commit || !InProgram(Length(job.program), job.at) then
      Sessions(Publish(cfg, w.db, t, job), w.jobs - {t}, w.log + [WholeOf(t, job.program)])
    else
      match Execute(cfg, w.db, t, job)
      case None => w.(jobs := w.jobs - {t})
      case Some(job') =>
        var lock := NextLock(job.program, job.at);
        if lock in job'.held && Locked(w.jobs, t, lock) then w else w.(jobs := w.jobs[t := job'])
  }

  function Started(p: Program): Job { Job(p, LineOrLast(Length(p), 0), {}, map[], map[], {}) }

  function Begin(w: Sessions, t: Id, p: Program): Sessions { w.(jobs := w.jobs[t := Started(p)]) }

  function Take(cfg: Config, base: Base, w: Sessions, turn: Turn): Sessions {
    match turn
    case BeginCreate(t, pair, fp, plan, now) =>
      if t !in w.jobs && t !in w.db.rows && PlanOk(base.pools, plan) then
        Begin(w, t, CreateProgram(pair, fp, plan, now))
      else w
    case BeginConfirm(t, id) =>
      if t !in w.jobs && id in w.db.rows then Begin(w, t, ConfirmProgram(id, Listed(w.db, id))) else w
    case Reject(t, pair, fp, plan, now, reason) =>
      if t !in w.jobs && PlanOk(base.pools, plan) && !Locked(w.jobs, t, PairLock(pair))
         && RejectTx(w.db, t, pair, fp, plan, now, reason).1 then
        w.(db := RejectTx(w.db, t, pair, fp, plan, now, reason).0,
           log := w.log + [Rejecting(t, pair, fp, plan, now, reason)])
      else w
    case Advance(t) => if t in w.jobs then AdvanceJob(cfg, w, t) else w
  }

  function Interleave(cfg: Config, base: Base, labels: seq<Turn>): Sessions {
    if |labels| == 0 then Sessions(Init(base), map[], [])
    else Take(cfg, base, Interleave(cfg, base, labels[..|labels| - 1]), labels[|labels| - 1])
  }

  // ---- the serial execution -------------------------------------------------------------------

  /** One whole transaction on its own; the flag says whether it committed. */
  function Alone(cfg: Config, db: Db, op: Whole): (Db, bool) {
    match op
    case Reserving(t, pair, fp, plan, now) =>
      var (db', outcome) := ReserveTx(cfg, db, t, pair, fp, plan, now);
      (db', outcome == Committed)
    case Rejecting(t, pair, fp, plan, now, reason) => RejectTx(db, t, pair, fp, plan, now, reason)
    case Confirming(id) => ConfirmTx(db, id)
  }

  /** The transactions one after another; the flag says whether every one of them committed. */
  function Serially(cfg: Config, db: Db, log: seq<Whole>): (Db, bool) {
    if |log| == 0 then (db, true)
    else
      var (before, ok) := Serially(cfg, db, log[..|log| - 1]);
      var (after, committed) := Alone(cfg, before, log[|log| - 1]);
      (after, ok && committed)
  }

  // ---- what a running transaction relies on -----------------------------------------------------

  /** Pool statements and quota (or hold) statements done. */
  function Pooled(n: nat, at: Position): nat {
    match at
    case PoolOf(k) => k
    case SecondOf(k) => k + 1
    case _ => n
  }

  function Seconded(n: nat, at: Position): nat {
    match at
    case PoolOf(k) => k
    case SecondOf(k) => k
    case _ => n
  }

  predicate CreatePoolsOk(db: Db, plan: seq<Line>, k: nat, job: Job)
    requires k <= |plan|
  {
    && (forall j :: 0 <= j < k ==>
         && PoolFits(db.pools, plan[j]) && PoolLock(plan[j].poolId) in job.held
         && plan[j].poolId in job.pools
         && job.pools[plan[j].poolId]
            == db.pools[plan[j].poolId].(reserved := db.pools[plan[j].poolId].reserved + plan[j].amount))
    && (forall j :: k <= j < |plan| ==> plan[j].poolId !in job.pools)
    && job.pools.Keys <= PlanPools(plan)
  }

  function PlanPools(plan: seq<Line>): set<Id> { set i | 0 <= i < |plan| :: plan[i].poolId }

  function HoldPools(hs: seq<Hold>): set<Id> { set i | 0 <= i < |hs| :: hs[i].poolId }

  predicate CreateQuotasOk(db: Db, customer: Customer, plan: seq<Line>, k: nat, job: Job)
    requires k <= |plan|
  {
    && (forall j :: 0 <= j < k ==>
         var key := QuotaKey(customer, plan[j].kind);
         && QuotaFits(db.quotas, customer, plan[j]) && QuotaLock(key) in job.held
         && key in job.quotas
         && job.quotas[key] == QuotaRow(db.quotas, key).(used := QuotaRow(db.quotas, key).used + plan[j].amount))
    && (forall j :: k <= j < |plan| ==> QuotaKey(customer, plan[j].kind) !in job.quotas)
    && job.quotas.Keys <= PlanKeys(customer, plan)
  }

  ghost predicate CreateOk(base: Base, db: Db, t: Id, job: Job) {
    && job.program.CreateProgram? && InProgram(Length(job.program), job.at)
    && PlanOk(base.pools, job.program.plan) && Separate(job.program.plan)
    && t !in db.rows
    && CreatePoolsOk(db, job.program.plan, Pooled(|job.program.plan|, job.at), job)
    && CreateQuotasOk(db, job.program.pair.customer, job.program.plan, Seconded(|job.program.plan|, job.at), job)
    && (job.at == Commit ==> PairLock(job.program.pair) in job.held && job.program.pair !in db.idem)
  }

  /** The list a confirm started from: all holds, or none of a request that had moved on. */
  predicate ListOk(db: Db, id: Id, hs: seq<Hold>) {
    && id in db.rows
    && (hs == HoldsOf(id, db.rows[id].lines, Active) || (hs == [] && db.rows[id].req.status != Reserved))
  }

  ghost predicate ConfirmPoolsOk(db: Db, id: Id, hs: seq<Hold>, k: nat, job: Job)
    requires k <= |hs| && id in db.rows
  {
    && (forall j :: 0 <= j < k && PoolLock(hs[j].poolId) in job.held ==>
         && hs[j].poolId in job.pools && hs[j].poolId in db.pools
         && job.pools[hs[j].poolId]
            == db.pools[hs[j].poolId].(reserved := db.pools[hs[j].poolId].reserved - hs[j].amount,
                                       dedicated := db.pools[hs[j].poolId].dedicated + hs[j].amount))
    && (forall j :: 0 <= j < k && db.rows[id].req.status == Reserved ==> PoolLock(hs[j].poolId) in job.held)
    && (forall p :: PoolLock(p) in job.held <==> p in job.pools)
    && (forall j :: k <= j < |hs| ==> hs[j].poolId !in job.pools)
    && job.pools.Keys <= HoldPools(hs)
  }

  predicate ConfirmMarksOk(hs: seq<Hold>, k: nat, job: Job)
    requires k <= |hs|
  {
    && (forall j :: 0 <= j < k ==> hs[j].id in job.marks && HoldLock(hs[j].id) in job.held)
    && (forall j :: k <= j < |hs| ==> hs[j].id !in job.marks)
  }

  ghost predicate ConfirmOk(db: Db, job: Job) {
    && job.program.ConfirmProgram? && InProgram(Length(job.program), job.at)
    && ListOk(db, job.program.id, job.program.hs)
    && ConfirmPoolsOk(db, job.program.id, job.program.hs, Pooled(|job.program.hs|, job.at), job)
    && ConfirmMarksOk(job.program.hs, Seconded(|job.program.hs|, job.at), job)
    && (Seconded(|job.program.hs|, job.at) > 0 || job.at == Commit ==>
         db.rows[job.program.id].req.status == Reserved)
    && (job.at == Commit ==> RequestLock(job.program.id) in job.held)
    && job.quotas == map[]
  }

  ghost predicate JobOk(base: Base, db: Db, t: Id, job: Job) {
    if job.program.CreateProgram? then CreateOk(base, db, t, job) else ConfirmOk(db, job)
  }

  predicate Exclusive(jobs: map<Id, Job>) {
    forall t, u :: t in jobs && u in jobs && t != u ==> jobs[t].held !! jobs[u].held
  }

  ghost predicate JobsOk(base: Base, db: Db, jobs: map<Id, Job>) {
    Exclusive(jobs) && forall t :: t in jobs ==> JobOk(base, db, t, jobs[t])
  }

  // ---- committing -----------------------------------------------------------------------------

  lemma PoolWrites(db: Db, plan: seq<Line>, job: Job)
    requires Separate(plan) && CreatePoolsOk(db, plan, |plan|, job)
    ensures db.pools + job.pools == AfterReserve(db.pools, plan)
  {
    forall p | p in db.pools ensures (db.pools + job.pools)[p] == AfterReserve(db.pools, plan)[p] {
      AmountOnSeparate(plan, p);
    }
  }

  lemma QuotaWrite(db: Db, customer: Customer, plan: seq<Line>, job: Job, key: QuotaKey)
    requires Separate(plan) && CreateQuotasOk(db, customer, plan, |plan|, job)
    ensures OverlayCharges(db.quotas, customer, plan, job.quotas, key)
  {
    KindAmountSeparate(plan, key.kind);
  }

  lemma QuotaWrites(db: Db, customer: Customer, plan: seq<Line>, job: Job)
    requires Separate(plan) && CreateQuotasOk(db, customer, plan, |plan|, job)
    ensures db.quotas + job.quotas == AfterCharge(db.quotas, customer, plan)
  {
    forall key ensures OverlayCharges(db.quotas, customer, plan, job.quotas, key) {
      QuotaWrite(db, customer, plan, job, key);
    }
    OverlayIsCharge(db.quotas, customer, plan, job.quotas);
  }

  predicate OverlayCharges(quotas: Quotas, customer: Customer, plan: seq<Line>, overlay: Quotas, key: QuotaKey) {
    && (key in overlay <==> key in PlanKeys(customer, plan))
    && var q := QuotaRow(quotas, key);
       var charge := ChargeOf(customer, plan, key);
       if key in overlay then overlay[key] == q.(used := q.used + charge) else charge == 0
  }

  lemma OverlayIsCharge(quotas: Quotas, customer: Customer, plan: seq<Line>, overlay: Quotas)
    requires forall key :: OverlayCharges(quotas, customer, plan, overlay, key)
    ensures quotas + overlay == AfterCharge(quotas, customer, plan)
  {
    forall key ensures key in quotas + overlay <==> key in AfterCharge(quotas, customer, plan) {
      assert OverlayCharges(quotas, customer, plan, overlay, key);
    }
    forall key | key in quotas + overlay ensures (quotas + overlay)[key] == AfterCharge(quotas, customer, plan)[key] {
      assert OverlayCharges(quotas, customer, plan, overlay, key);
    }
  }

  /** At its commit a create's buffered writes are exactly what the whole transaction does to the database
      as it is then. */
  lemma CreateCommits(cfg: Config, base: Base, db: Db, t: Id, job: Job)
    requires CreateOk(base, db, t, job) && job.at == Commit
    ensures var p := job.program;
      ReserveTx(cfg, db, t, p.pair, p.fp, p.plan, p.now) == (Publish(cfg, db, t, job), Committed)
  {
    var p := job.program;
    PoolWrites(db, p.plan, job);
    QuotaWrites(db, p.pair.customer, p.plan, job);
    LoopRefinesSimultaneousCheck(db.pools, db.quotas, p.pair.customer, p.plan);
  }

  predicate OverlayMoves(pools: Pools, hs: seq<Hold>, overlay: Pools, p: Id) {
    if p in overlay then
      p in pools && overlay[p] == pools[p].(reserved := pools[p].reserved - HeldOn(hs, p),
                                            dedicated := pools[p].dedicated + HeldOn(hs, p))
    else
      HeldOn(hs, p) == 0
  }

  lemma MoveWrite(db: Db, id: Id, lines: seq<Line>, hs: seq<Hold>, job: Job, p: Id)
    requires id in db.rows && Separate(lines) && db.rows[id].req.status == Reserved
    requires hs == HoldsOf(id, lines, Active) && ConfirmPoolsOk(db, id, hs, |hs|, job)
    ensures OverlayMoves(db.pools, hs, job.pools, p)
  {
    HeldOnHoldsOf(id, lines, Active, p);
    AmountOnSeparate(lines, p);
    if j :| 0 <= j < |lines| && lines[j].poolId == p {
      assert hs[j].poolId == p && PoolLock(hs[j].poolId) in job.held;
    }
  }

  lemma MoveWrites(db: Db, id: Id, lines: seq<Line>, hs: seq<Hold>, job: Job)
    requires id in db.rows && Separate(lines) && db.rows[id].req.status == Reserved
    requires hs == HoldsOf(id, lines, Active) && ConfirmPoolsOk(db, id, hs, |hs|, job)
    ensures db.pools + job.pools == AfterMove(db.pools, hs)
  {
    forall p ensures OverlayMoves(db.pools, hs, job.pools, p) {
      MoveWrite(db, id, lines, hs, job, p);
    }
    OverlayIsMove(db.pools, hs, job.pools);
  }

  lemma OverlayIsMove(pools: Pools, hs: seq<Hold>, overlay: Pools)
    requires forall p: Id :: OverlayMoves(pools, hs, overlay, p)
    ensures pools + overlay == AfterMove(pools, hs)
  {
    forall p: Id ensures p in pools + overlay <==> p in pools {
      assert OverlayMoves(pools, hs, overlay, p);
    }
    forall p | p in pools ensures (pools + overlay)[p] == AfterMove(pools, hs)[p] {
      assert OverlayMoves(pools, hs, overlay, p);
    }
  }

  lemma MarkWrites(id: Id, lines: seq<Line>, job: Job)
    requires ConfirmMarksOk(HoldsOf(id, lines, Active), |lines|, job)
    ensures MarkSet(HoldsOf(id, lines, Active), job.marks) == HoldsOf(id, lines, HoldStatus.Dedicated)
  {
  }

  /** So are a confirm's, and at its commit the request is still RESERVED. */
  lemma ConfirmCommits(cfg: Config, base: Base, db: Db, t: Id, job: Job)
    requires DbOk(cfg, base, db) && ConfirmOk(db, job) && job.at == Commit
    ensures ConfirmTx(db, job.program.id) == (Publish(cfg, db, t, job), true)
  {
    var id := job.program.id;
    var e := db.rows[id];
    assert EntryOk(cfg, base.pools, id, e);
    PlanIsSeparate(base, e.lines);
    MoveWrites(db, id, e.lines, job.program.hs, job);
    MarkWrites(id, e.lines, job);
    ConfirmExact(cfg, base, db, id);
    assert [] + DedicationsFor(job.program.hs) == DedicationsFor(job.program.hs);
  }

  // ---- one statement --------------------------------------------------------------------------

  lemma TryReserveFits(db: Db, job: Job, after: Job, l: Line, job': Job)
    requires l.poolId !in job.pools && TryReserveNow(db, job, after, l) == Some(job')
    ensures PoolFits(db.pools, l)
    ensures job' == after.(pools := job.pools[l.poolId :=
      db.pools[l.poolId].(reserved := db.pools[l.poolId].reserved + l.amount)])
  {
    assert l.poolId in db.pools + job.pools <==> l.poolId in db.pools;
  }

  lemma ConsumeFits(db: Db, job: Job, after: Job, customer: Customer, l: Line, job': Job)
    requires QuotaKey(customer, l.kind) !in job.quotas && ConsumeNow(db, job, after, customer, l) == Some(job')
    ensures QuotaFits(db.quotas, customer, l)
    ensures var key := QuotaKey(customer, l.kind);
      job' == after.(quotas := job.quotas[key := QuotaRow(db.quotas, key).(used := QuotaRow(db.quotas, key).used + l.amount)])
  {
    var key := QuotaKey(customer, l.kind);
    assert QuotaRow(db.quotas + job.quotas, key) == QuotaRow(db.quotas, key);
  }

  function PoolDone(db: Db, job: Job, k: nat): Job
    requires job.program.CreateProgram? && k < |job.program.plan| && PoolFits(db.pools, job.program.plan[k])
  {
    var l := job.program.plan[k];
    job.(at := SecondOf(k), held := job.held + {PoolLock(l.poolId)},
         pools := job.pools[l.poolId := db.pools[l.poolId].(reserved := db.pools[l.poolId].reserved + l.amount)])
  }

  lemma CreatePoolExecutes(cfg: Config, db: Db, t: Id, job: Job, k: nat, job': Job)
    requires job.program.CreateProgram? && k < |job.program.plan| && job.at == PoolOf(k)
    requires job.program.plan[k].poolId !in job.pools && Execute(cfg, db, t, job) == Some(job')
    ensures PoolFits(db.pools, job.program.plan[k]) && job' == PoolDone(db, job, k)
  {
    TryReserveFits(db, job, Moved(job), job.program.plan[k], job');
  }

  lemma CreatePoolAdvances(base: Base, db: Db, t: Id, job: Job, k: nat)
    requires CreateOk(base, db, t, job) && k < |job.program.plan| && job.at == PoolOf(k)
    requires PoolFits(db.pools, job.program.plan[k])
    ensures CreateOk(base, db, t, PoolDone(db, job, k))
  {
    CreatePoolDone(db, job.program.plan, k, job, PoolDone(db, job, k));
    QuotasStay(db, job.program.pair.customer, job.program.plan, k, job, PoolDone(db, job, k));
  }

  lemma CreatePoolStatement(cfg: Config, base: Base, db: Db, t: Id, job: Job, job': Job)
    requires CreateOk(base, db, t, job) && job.at.PoolOf?
    requires Execute(cfg, db, t, job) == Some(job')
    ensures CreateOk(base, db, t, job')
  {
    var k := job.at.k;
    CreatePoolExecutes(cfg, db, t, job, k, job');
    CreatePoolAdvances(base, db, t, job, k);
  }

  lemma QuotasStay(db: Db, customer: Customer, plan: seq<Line>, k: nat, job: Job, job': Job)
    requires k <= |plan| && CreateQuotasOk(db, customer, plan, k, job)
    requires job.held <= job'.held && job'.quotas == job.quotas
    ensures CreateQuotasOk(db, customer, plan, k, job')
  {
  }

  lemma PoolsStay(db: Db, plan: seq<Line>, k: nat, job: Job, job': Job)
    requires k <= |plan| && CreatePoolsOk(db, plan, k, job)
    requires job.held <= job'.held && job'.pools == job.pools
    ensures CreatePoolsOk(db, plan, k, job')
  {
  }

  lemma CreatePoolDone(db: Db, plan: seq<Line>, k: nat, job: Job, job': Job)
    requires k < |plan| && Separate(plan) && CreatePoolsOk(db, plan, k, job) && PoolFits(db.pools, plan[k])
    requires job'.held == job.held + {PoolLock(plan[k].poolId)}
    requires job'.pools == job.pools[plan[k].poolId :=
      db.pools[plan[k].poolId].(reserved := db.pools[plan[k].poolId].reserved + plan[k].amount)]
    ensures CreatePoolsOk(db, plan, k + 1, job')
  {
    assert plan[k].poolId in PlanPools(plan);
  }

  function QuotaDone(db: Db, job: Job, k: nat): Job
    requires job.program.CreateProgram? && k < |job.program.plan|
  {
    var key := QuotaKey(job.program.pair.customer, job.program.plan[k].kind);
    var q := QuotaRow(db.quotas, key);
    job.(at := LineOrLast(|job.program.plan|, k + 1), held := job.held + {QuotaLock(key)},
         quotas := job.quotas[key := q.(used := q.used + job.program.plan[k].amount)])
  }

  lemma CreateQuotaExecutes(cfg: Config, db: Db, t: Id, job: Job, k: nat, job': Job)
    requires job.program.CreateProgram? && k < |job.program.plan| && job.at == SecondOf(k)
    requires QuotaKey(job.program.pair.customer, job.program.plan[k].kind) !in job.quotas
    requires Execute(cfg, db, t, job) == Some(job')
    ensures QuotaFits(db.quotas, job.program.pair.customer, job.program.plan[k]) && job' == QuotaDone(db, job, k)
  {
    ConsumeFits(db, job, Moved(job), job.program.pair.customer, job.program.plan[k], job');
  }

  lemma NextCounts(n: nat, k: nat)
    requires k < n
    ensures var at := LineOrLast(n, k + 1);
      InProgram(n, at) && Pooled(n, at) == k + 1 && Seconded(n, at) == k + 1 && at != Commit
  {
  }

  lemma CreateQuotaAdvances(base: Base, db: Db, t: Id, job: Job, k: nat, job': Job)
    requires CreateOk(base, db, t, job) && k < |job.program.plan| && job.at == SecondOf(k)
    requires QuotaFits(db.quotas, job.program.pair.customer, job.program.plan[k])
    requires job' == QuotaDone(db, job, k)
    ensures CreateOk(base, db, t, job')
  {
    NextCounts(|job.program.plan|, k);
    CreateQuotaDone(db, job.program.pair.customer, job.program.plan, k, job, job');
    PoolsStay(db, job.program.plan, k + 1, job, job');
  }

  lemma CreateQuotaStatement(cfg: Config, base: Base, db: Db, t: Id, job: Job, job': Job)
    requires CreateOk(base, db, t, job) && job.at.SecondOf?
    requires Execute(cfg, db, t, job) == Some(job')
    ensures CreateOk(base, db, t, job')
  {
    var k := job.at.k;
    CreateQuotaExecutes(cfg, db, t, job, k, job');
    CreateQuotaAdvances(base, db, t, job, k, job');
  }

  lemma CreateQuotaDone(db: Db, customer: Customer, plan: seq<Line>, k: nat, job: Job, job': Job)
    requires k < |plan| && Separate(plan) && CreateQuotasOk(db, customer, plan, k, job)
    requires QuotaFits(db.quotas, customer, plan[k])
    requires job'.held == job.held + {QuotaLock(QuotaKey(customer, plan[k].kind))}
    requires var key := QuotaKey(customer, plan[k].kind);
      job'.quotas == job.quotas[key := QuotaRow(db.quotas, key).(used := QuotaRow(db.quotas, key).used + plan[k].amount)]
    ensures CreateQuotasOk(db, customer, plan, k + 1, job')
  {
    assert QuotaKey(customer, plan[k].kind) in PlanKeys(customer, plan);
  }

  lemma InsertStatement(cfg: Config, base: Base, db: Db, t: Id, job: Job, job': Job)
    requires CreateOk(base, db, t, job) && job.at == RequestRow
    requires Execute(cfg, db, t, job) == Some(job')
    ensures CreateOk(base, db, t, job')
  {
    var plan, pair := job.program.plan, job.program.pair;
    PoolsStay(db, plan, |plan|, job, job');
    QuotasStay(db, pair.customer, plan, |plan|, job, job');
  }

  function MoveDone(db: Db, job: Job, k: nat): Job
    requires job.program.ConfirmProgram? && k < |job.program.hs|
  {
    var h := job.program.hs[k];
    MoveNow(db, job, job.(at := SecondOf(k), held := job.held + {PoolLock(h.poolId)}), h)
  }

  lemma ConfirmPoolAdvances(db: Db, job: Job, k: nat)
    requires ConfirmOk(db, job) && k < |job.program.hs| && job.at == PoolOf(k)
    requires forall i, j :: 0 <= i < j < |job.program.hs| ==> job.program.hs[i].poolId != job.program.hs[j].poolId
    requires var h := job.program.hs[k];
      db.rows[job.program.id].req.status == Reserved ==> h.poolId in db.pools && db.pools[h.poolId].reserved >= h.amount
    ensures ConfirmOk(db, MoveDone(db, job, k))
  {
    ConfirmPoolDone(db, job.program.id, job.program.hs, k, job, MoveDone(db, job, k));
    MoveKeepsRest(db, job, k);
    MarksStay(job.program.hs, k, job, MoveDone(db, job, k));
  }

  lemma MoveKeepsRest(db: Db, job: Job, k: nat)
    requires job.program.ConfirmProgram? && k < |job.program.hs|
    ensures var job' := MoveDone(db, job, k);
      && job'.program == job.program && job'.at == SecondOf(k) && job.held <= job'.held
      && job'.marks == job.marks && job'.quotas == job.quotas
  {
  }

  lemma ConfirmPoolStatement(cfg: Config, base: Base, db: Db, t: Id, job: Job, job': Job)
    requires DbOk(cfg, base, db) && ConfirmOk(db, job) && job.at.PoolOf?
    requires Execute(cfg, db, t, job) == Some(job')
    ensures ConfirmOk(db, job')
  {
    ListedCovers(cfg, base, db, job.program.id, job.program.hs, job.at.k);
    ConfirmPoolAdvances(db, job, job.at.k);
  }

  lemma MarksStay(hs: seq<Hold>, k: nat, job: Job, job': Job)
    requires k <= |hs| && ConfirmMarksOk(hs, k, job) && job.held <= job'.held && job'.marks == job.marks
    ensures ConfirmMarksOk(hs, k, job')
  {
  }

  /** The pool of every listed hold covers it while the request is RESERVED. */
  lemma ListedCovers(cfg: Config, base: Base, db: Db, id: Id, hs: seq<Hold>, k: nat)
    requires DbOk(cfg, base, db) && ListOk(db, id, hs) && k < |hs|
    ensures forall i, j :: 0 <= i < j < |hs| ==> hs[i].poolId != hs[j].poolId
    ensures db.rows[id].req.status == Reserved ==>
      hs[k].poolId in db.pools && db.pools[hs[k].poolId].reserved >= hs[k].amount
  {
    assert EntryOk(cfg, base.pools, id, db.rows[id]);
    ListIsDistinct(cfg, base.pools, db, id, hs);
    if db.rows[id].req.status == Reserved {
      EntryIsCovered(cfg, base, db, id);
      CoveredAt(db.pools, db.rows[id].holds, k);
    }
  }

  lemma ListIsDistinct(cfg: Config, pools: Pools, db: Db, id: Id, hs: seq<Hold>)
    requires ListOk(db, id, hs) && EntryOk(cfg, pools, id, db.rows[id])
    ensures forall i, j :: 0 <= i < j < |hs| ==> hs[i].poolId != hs[j].poolId
    ensures db.rows[id].req.status == Reserved ==> hs == db.rows[id].holds
  {
  }

  lemma CoveredAt(pools: Pools, hs: seq<Hold>, k: nat)
    requires Covered(pools, hs) && k < |hs|
    ensures hs[k].poolId in pools && pools[hs[k].poolId].reserved >= hs[k].amount
  {
    HeldIsAtLeast(hs, k);
  }

  lemma {:induction false} HeldIsAtLeast(hs: seq<Hold>, k: nat)
    requires k < |hs| && forall i :: 0 <= i < |hs| ==> hs[i].status == Active && hs[i].amount > 0
    ensures HeldOn(hs, hs[k].poolId) >= hs[k].amount
    decreases |hs|
  {
    var front := hs[..|hs| - 1];
    if k < |front| {
      HeldIsAtLeast(front, k);
    } else {
      HeldIsNatural(front, hs[k].poolId);
    }
  }

  lemma {:induction false} HeldIsNatural(hs: seq<Hold>, p: Id)
    requires forall i :: 0 <= i < |hs| ==> hs[i].amount > 0
    ensures HeldOn(hs, p) >= 0
  {
    if |hs| > 0 { HeldIsNatural(hs[..|hs| - 1], p); }
  }

  lemma ConfirmPoolDone(db: Db, id: Id, hs: seq<Hold>, k: nat, job: Job, job': Job)
    requires id in db.rows && k < |hs| && ConfirmPoolsOk(db, id, hs, k, job)
    requires forall i, j :: 0 <= i < j < |hs| ==> hs[i].poolId != hs[j].poolId
    requires db.rows[id].req.status == Reserved ==>
      hs[k].poolId in db.pools && db.pools[hs[k].poolId].reserved >= hs[k].amount
    requires job' == MoveNow(db, job, job.(at := SecondOf(k), held := job.held + {PoolLock(hs[k].poolId)}), hs[k])
    ensures ConfirmPoolsOk(db, id, hs, k + 1, job')
  {
    MoveNowFits(db, job, job.(at := SecondOf(k), held := job.held + {PoolLock(hs[k].poolId)}), hs[k]);
    if PoolLock(hs[k].poolId) in job'.held {
      MoveIsDone(db, id, hs, k, job, job');
    } else {
      MoveIsSkipped(db, id, hs, k, job, job');
    }
  }

  lemma MoveIsDone(db: Db, id: Id, hs: seq<Hold>, k: nat, job: Job, job': Job)
    requires id in db.rows && k < |hs| && ConfirmPoolsOk(db, id, hs, k, job) && hs[k].poolId in db.pools
    requires forall i, j :: 0 <= i < j < |hs| ==> hs[i].poolId != hs[j].poolId
    requires job'.held == job.held + {PoolLock(hs[k].poolId)}
    requires job'.pools == job.pools[hs[k].poolId :=
      db.pools[hs[k].poolId].(reserved := db.pools[hs[k].poolId].reserved - hs[k].amount,
                              dedicated := db.pools[hs[k].poolId].dedicated + hs[k].amount)]
    ensures ConfirmPoolsOk(db, id, hs, k + 1, job')
  {
    assert hs[k].poolId in HoldPools(hs);
  }

  lemma MoveIsSkipped(db: Db, id: Id, hs: seq<Hold>, k: nat, job: Job, job': Job)
    requires id in db.rows && k < |hs| && ConfirmPoolsOk(db, id, hs, k, job) && db.rows[id].req.status != Reserved
    requires job'.held == job.held && job'.pools == job.pools && PoolLock(hs[k].poolId) !in job.held
    ensures ConfirmPoolsOk(db, id, hs, k + 1, job')
  {
  }

  lemma MoveNowFits(db: Db, job: Job, after: Job, h: Hold)
    requires h.poolId !in job.pools
    ensures MoveNow(db, job, after, h) ==
      if h.poolId in db.pools && db.pools[h.poolId].reserved >= h.amount then
        after.(pools := job.pools[h.poolId :=
          db.pools[h.poolId].(reserved := db.pools[h.poolId].reserved - h.amount,
                              dedicated := db.pools[h.poolId].dedicated + h.amount)])
      else
        after.(held := job.held)
  {
    assert h.poolId in db.pools + job.pools <==> h.poolId in db.pools;
  }

  function MarkDone(job: Job, k: nat): Job
    requires job.program.ConfirmProgram? && k < |job.program.hs|
  {
    var h := job.program.hs[k].id;
    job.(at := LineOrLast(|job.program.hs|, k + 1), held := job.held + {HoldLock(h)}, marks := job.marks + {h})
  }

  lemma HoldAdvances(db: Db, job: Job, k: nat)
    requires ConfirmOk(db, job) && k < |job.program.hs| && job.at == SecondOf(k)
    requires db.rows[job.program.id].req.status == Reserved
    ensures ConfirmOk(db, MarkDone(job, k))
  {
    NextCounts(|job.program.hs|, k);
    ConfirmMarkDone(job.program.hs, k, job, MarkDone(job, k));
    MovesStay(db, job.program.id, job.program.hs, k + 1, job, MarkDone(job, k));
  }

  lemma HoldStatement(cfg: Config, base: Base, db: Db, t: Id, job: Job, job': Job)
    requires DbOk(cfg, base, db) && ConfirmOk(db, job) && job.at.SecondOf?
    requires Execute(cfg, db, t, job) == Some(job')
    ensures ConfirmOk(db, job')
  {
    assert db.rows[job.program.id].req.status == Reserved by {
      ActiveMeansReserved(cfg, base, db, job.program.id, job.program.hs[job.at.k].id);
    }
    HoldAdvances(db, job, job.at.k);
  }

  lemma ActiveMeansReserved(cfg: Config, base: Base, db: Db, id: Id, h: HoldId)
    requires DbOk(cfg, base, db) && id in db.rows && CanMark(db.rows[id].holds, h, Active)
    ensures db.rows[id].req.status == Reserved
  {
    assert EntryOk(cfg, base.pools, id, db.rows[id]);
  }

  lemma ConfirmMarkDone(hs: seq<Hold>, k: nat, job: Job, job': Job)
    requires k < |hs| && ConfirmMarksOk(hs, k, job)
    requires forall i, j :: 0 <= i < j < |hs| ==> hs[i].id != hs[j].id
    requires job'.marks == job.marks + {hs[k].id} && job'.held == job.held + {HoldLock(hs[k].id)}
    ensures ConfirmMarksOk(hs, k + 1, job')
  {
  }

  lemma MovesStay(db: Db, id: Id, hs: seq<Hold>, k: nat, job: Job, job': Job)
    requires id in db.rows && k <= |hs| && ConfirmPoolsOk(db, id, hs, k, job) && job'.pools == job.pools
    requires forall p: Id :: PoolLock(p) in job'.held <==> PoolLock(p) in job.held
    ensures ConfirmPoolsOk(db, id, hs, k, job')
  {
  }

  lemma RequestStatement(cfg: Config, base: Base, db: Db, t: Id, job: Job, job': Job)
    requires ConfirmOk(db, job) && job.at == RequestRow
    requires Execute(cfg, db, t, job) == Some(job')
    ensures ConfirmOk(db, job')
  {
    var id, hs := job.program.id, job.program.hs;
    MarksStay(hs, |hs|, job, job');
    MovesStay(db, id, hs, |hs|, job, job');
  }

  /** Every statement keeps what its job relies on. */
  lemma StatementKeeps(cfg: Config, base: Base, db: Db, t: Id, job: Job, job': Job)
    requires DbOk(cfg, base, db) && JobOk(base, db, t, job) && job.at != Commit
    requires Execute(cfg, db, t, job) == Some(job')
    ensures JobOk(base, db, t, job')
  {
    match job.at
    case PoolOf(_) =>
      if job.program.CreateProgram? { CreatePoolStatement(cfg, base, db, t, job, job'); }
      else { ConfirmPoolStatement(cfg, base, db, t, job, job'); }
    case SecondOf(_) =>
      if job.program.CreateProgram? { CreateQuotaStatement(cfg, base, db, t, job, job'); }
      else { HoldStatement(cfg, base, db, t, job, job'); }
    case RequestRow =>
      if job.program.CreateProgram? { InsertStatement(cfg, base, db, t, job, job'); }
      else { RequestStatement(cfg, base, db, t, job, job'); }
  }

  // ---- the commits of others ------------------------------------------------------------------

  /** What a running transaction needs of a commit by others: the rows it has locked stay as they are. */
  ghost predicate Untouched(db: Db, db': Db, job: Job) {
    && (forall p: Id :: PoolLock(p) in job.held && p in db.pools ==> p in db'.pools && db'.pools[p] == db.pools[p])
    && (forall key :: QuotaLock(key) in job.held ==> QuotaRow(db'.quotas, key) == QuotaRow(db.quotas, key))
    && (job.program.CreateProgram? && PairLock(job.program.pair) in job.held && job.program.pair !in db.idem ==>
         job.program.pair !in db'.idem)
    && (job.program.ConfirmProgram? && job.program.id in db.rows
        && (Seconded(|job.program.hs|, job.at) > 0 || job.at == Commit) ==>
         job.program.id in db'.rows && db'.rows[job.program.id] == db.rows[job.program.id])
  }

  lemma CreateFrame(base: Base, db: Db, db': Db, t: Id, job: Job)
    requires CreateOk(base, db, t, job) && Untouched(db, db', job) && t !in db'.rows
    ensures CreateOk(base, db', t, job)
  {
    var plan, customer := job.program.plan, job.program.pair.customer;
    PoolsFrame(db, db', plan, Pooled(|plan|, job.at), job);
    QuotasFrame(db, db', customer, plan, Seconded(|plan|, job.at), job);
  }

  lemma PoolsFrame(db: Db, db': Db, plan: seq<Line>, k: nat, job: Job)
    requires k <= |plan| && CreatePoolsOk(db, plan, k, job)
    requires forall p: Id :: PoolLock(p) in job.held && p in db.pools ==> p in db'.pools && db'.pools[p] == db.pools[p]
    ensures CreatePoolsOk(db', plan, k, job)
  {
  }

  lemma QuotasFrame(db: Db, db': Db, customer: Customer, plan: seq<Line>, k: nat, job: Job)
    requires k <= |plan| && CreateQuotasOk(db, customer, plan, k, job)
    requires forall key :: QuotaLock(key) in job.held ==> QuotaRow(db'.quotas, key) == QuotaRow(db.quotas, key)
    ensures CreateQuotasOk(db', customer, plan, k, job)
  {
  }

  lemma ConfirmFrame(db: Db, db': Db, job: Job)
    requires ConfirmOk(db, job) && Untouched(db, db', job) && Forward(db, db')
    ensures ConfirmOk(db', job)
  {
    var id, hs := job.program.id, job.program.hs;
    assert RowForward(db.rows[id], db'.rows[id]);
    MovesFrame(db, db', id, hs, Pooled(|hs|, job.at), job);
  }

  lemma MovesFrame(db: Db, db': Db, id: Id, hs: seq<Hold>, k: nat, job: Job)
    requires id in db.rows && id in db'.rows && k <= |hs| && ConfirmPoolsOk(db, id, hs, k, job)
    requires db'.rows[id].req.status == Reserved ==> db.rows[id].req.status == Reserved
    requires forall p: Id :: PoolLock(p) in job.held && p in db.pools ==> p in db'.pools && db'.pools[p] == db.pools[p]
    ensures ConfirmPoolsOk(db', id, hs, k, job)
  {
  }

  lemma JobFrame(base: Base, db: Db, db': Db, t: Id, job: Job)
    requires JobOk(base, db, t, job) && Untouched(db, db', job) && Forward(db, db') && (t in db'.rows ==> t in db.rows)
    ensures JobOk(base, db', t, job)
  {
    if job.program.CreateProgram? { CreateFrame(base, db, db', t, job); } else { ConfirmFrame(db, db', job); }
  }

  /** A create's commit touches only rows it has locked. */
  lemma CreateTouches(cfg: Config, base: Base, db: Db, u: Id, committing: Job, t: Id, job: Job)
    requires CreateOk(base, db, u, committing) && committing.at == Commit
    requires JobOk(base, db, t, job) && t != u && committing.held !! job.held
    ensures Untouched(db, Publish(cfg, db, u, committing), job)
  {
    var db' := Publish(cfg, db, u, committing);
    forall p: Id | PoolLock(p) in job.held && p in db.pools ensures p in db'.pools && db'.pools[p] == db.pools[p] {
      if p in committing.pools { CreatePoolLocked(db, committing.program.plan, committing, p); }
    }
    forall key | QuotaLock(key) in job.held ensures QuotaRow(db'.quotas, key) == QuotaRow(db.quotas, key) {
      if key in committing.quotas {
        CreateQuotaLocked(db, committing.program.pair.customer, committing.program.plan, committing, key);
      }
    }
  }

  lemma CreatePoolLocked(db: Db, plan: seq<Line>, job: Job, p: Id)
    requires CreatePoolsOk(db, plan, |plan|, job) && p in job.pools
    ensures PoolLock(p) in job.held
  {
    assert p in PlanPools(plan);
  }

  lemma CreateQuotaLocked(db: Db, customer: Customer, plan: seq<Line>, job: Job, key: QuotaKey)
    requires CreateQuotasOk(db, customer, plan, |plan|, job) && key in job.quotas
    ensures QuotaLock(key) in job.held
  {
    assert key in PlanKeys(customer, plan);
  }

  /** So does a confirm's: another confirm of the same request that has marked a hold or locked the request
      row shares a lock with it. */
  lemma ConfirmTouches(cfg: Config, base: Base, db: Db, u: Id, committing: Job, t: Id, job: Job)
    requires ConfirmOk(db, committing) && committing.at == Commit
    requires JobOk(base, db, t, job) && t != u && committing.held !! job.held
    ensures Untouched(db, Publish(cfg, db, u, committing), job)
  {
    var db' := Publish(cfg, db, u, committing);
    forall p: Id | PoolLock(p) in job.held && p in db.pools ensures p in db'.pools && db'.pools[p] == db.pools[p] {
      assert PoolLock(p) in committing.held <==> p in committing.pools;
    }
    if job.program.ConfirmProgram? && job.program.id == committing.program.id
       && (Seconded(|job.program.hs|, job.at) > 0 || job.at == Commit) {
      SameRequestConflicts(db, committing, job);
    }
  }

  lemma SameRequestConflicts(db: Db, committing: Job, job: Job)
    requires ConfirmOk(db, committing) && committing.at == Commit && ConfirmOk(db, job)
    requires job.program.id == committing.program.id
    requires Seconded(|job.program.hs|, job.at) > 0 || job.at == Commit
    ensures !(committing.held !! job.held)
  {
    if job.at == Commit {
      assert RequestLock(job.program.id) in committing.held && RequestLock(job.program.id) in job.held;
    } else {
      var first := HoldLock(job.program.hs[0].id);
      assert job.program.hs == committing.program.hs;
      assert first in committing.held && first in job.held;
    }
  }

  // ---- the theorem ----------------------------------------------------------------------------

  ghost predicate SessionsOk(cfg: Config, base: Base, w: Sessions) {
    && DbOk(cfg, base, w.db)
    && JobsOk(base, w.db, w.jobs)
    && Serially(cfg, Init(base), w.log) == (w.db, true)
  }

  lemma SeriallyMore(cfg: Config, start: Db, log: seq<Whole>, op: Whole)
    ensures var (before, ok) := Serially(cfg, start, log);
      var (after, committed) := Alone(cfg, before, op);
      Serially(cfg, start, log + [op]) == (after, ok && committed)
  {
    assert (log + [op])[..|log|] == log;
  }

  /** Ending one transaction changes nothing the others rely on. */
  lemma OthersKeep(base: Base, db: Db, db': Db, jobs: map<Id, Job>, u: Id)
    requires JobsOk(base, db, jobs) && Forward(db, db') && db'.rows.Keys <= db.rows.Keys + {u}
    requires forall t :: t in jobs && t != u ==> Untouched(db, db', jobs[t])
    ensures JobsOk(base, db', jobs - {u})
  {
    forall t | t in jobs - {u} ensures JobOk(base, db', t, jobs[t]) {
      JobFrame(base, db, db', t, jobs[t]);
    }
  }

  lemma CommitKeeps(cfg: Config, base: Base, w: Sessions, u: Id, w': Sessions)
    requires SessionsOk(cfg, base, w) && u in w.jobs && w.jobs[u].at == Commit
    requires w' == Sessions(Publish(cfg, w.db, u, w.jobs[u]), w.jobs - {u}, w.log + [WholeOf(u, w.jobs[u].program)])
    ensures SessionsOk(cfg, base, w')
  {
    var job := w.jobs[u];
    SeriallyMore(cfg, Init(base), w.log, WholeOf(u, job.program));
    CommitIsAlone(cfg, base, w.db, u, job);
    AloneKeeps(cfg, base, w.db, WholeOf(u, job.program), u, w'.db);
    forall t | t in w.jobs && t != u ensures Untouched(w.db, w'.db, w.jobs[t]) {
      if job.program.CreateProgram? {
        CreateTouches(cfg, base, w.db, u, job, t, w.jobs[t]);
      } else {
        ConfirmTouches(cfg, base, w.db, u, job, t, w.jobs[t]);
      }
    }
    OthersKeep(base, w.db, w'.db, w.jobs, u);
  }

  lemma CommitIsAlone(cfg: Config, base: Base, db: Db, u: Id, job: Job)
    requires DbOk(cfg, base, db) && JobOk(base, db, u, job) && job.at == Commit
    ensures Alone(cfg, db, WholeOf(u, job.program)) == (Publish(cfg, db, u, job), true)
    ensures job.program.CreateProgram? ==> PlanOk(base.pools, job.program.plan)
  {
    if job.program.CreateProgram? {
      CreateCommits(cfg, base, db, u, job);
    } else {
      ConfirmCommits(cfg, base, db, u, job);
    }
  }

  predicate WholeOk(base: Base, op: Whole) {
    match op
    case Reserving(_, _, _, plan, _) => PlanOk(base.pools, plan)
    case Rejecting(_, _, _, plan, _, _) => PlanOk(base.pools, plan)
    case Confirming(_) => true
  }

  predicate Inserts(op: Whole, u: Id) {
    match op
    case Reserving(t, _, _, _, _) => t == u
    case Rejecting(t, _, _, _, _, _) => t == u
    case Confirming(_) => true
  }

  lemma AloneKeepsInvariant(cfg: Config, base: Base, db: Db, op: Whole)
    requires DbOk(cfg, base, db) && WholeOk(base, op)
    ensures DbOk(cfg, base, Alone(cfg, db, op).0)
  {
    match op
    case Reserving(t, pair, fp, plan, now) => ReserveKeepsInvariant(cfg, base, db, t, pair, fp, plan, now);
    case Rejecting(t, pair, fp, plan, now, reason) =>
      RejectKeepsInvariant(cfg, base, db, t, pair, fp, plan, now, reason);
    case Confirming(id) => ConfirmKeepsInvariant(cfg, base, db, id);
  }

  lemma AloneForward(cfg: Config, base: Base, db: Db, op: Whole)
    requires DbOk(cfg, base, db)
    ensures Forward(db, Alone(cfg, db, op).0)
  {
    match op
    case Reserving(t, pair, fp, plan, now) => ReserveForward(cfg, db, t, pair, fp, plan, now);
    case Rejecting(t, pair, fp, plan, now, reason) => RejectForward(db, t, pair, fp, plan, now, reason);
    case Confirming(id) => ConfirmForward(cfg, base, db, id);
  }

  lemma AloneInserts(cfg: Config, db: Db, op: Whole, u: Id)
    requires Inserts(op, u)
    ensures Alone(cfg, db, op).0.rows.Keys <= db.rows.Keys + {u}
  {
  }

  lemma AloneKeeps(cfg: Config, base: Base, db: Db, op: Whole, u: Id, db': Db)
    requires DbOk(cfg, base, db) && WholeOk(base, op) && Inserts(op, u) && db' == Alone(cfg, db, op).0
    ensures DbOk(cfg, base, db') && Forward(db, db') && db'.rows.Keys <= db.rows.Keys + {u}
  {
    AloneKeepsInvariant(cfg, base, db, op);
    AloneForward(cfg, base, db, op);
    AloneInserts(cfg, db, op, u);
  }

  lemma RejectKeeps(cfg: Config, base: Base, w: Sessions, turn: Turn, w': Sessions)
    requires SessionsOk(cfg, base, w) && turn.Reject? && w' == Take(cfg, base, w, turn) && w' != w
    ensures SessionsOk(cfg, base, w')
  {
    var op := Rejecting(turn.t, turn.pair, turn.fp, turn.plan, turn.now, turn.reason);
    SeriallyMore(cfg, Init(base), w.log, op);
    AloneKeeps(cfg, base, w.db, op, turn.t, w'.db);
    forall t | t in w.jobs && t != turn.t ensures Untouched(w.db, w'.db, w.jobs[t]) {
      if t in w.jobs { RejectTouches(base, w.db, t, w.jobs[t], turn, w'.db); }
    }
    OthersKeep(base, w.db, w'.db, w.jobs, turn.t);
    assert w.jobs - {turn.t} == w.jobs;
  }

  lemma RejectTouches(base: Base, db: Db, t: Id, job: Job, turn: Turn, db': Db)
    requires turn.Reject? && JobOk(base, db, t, job) && PairLock(turn.pair) !in job.held
    requires RejectTx(db, turn.t, turn.pair, turn.fp, turn.plan, turn.now, turn.reason) == (db', true)
    ensures Untouched(db, db', job)
  {
  }

  lemma ExclusiveMore(jobs: map<Id, Job>, t: Id, job': Job, lock: Lock)
    requires Exclusive(jobs) && t in jobs && job'.held <= jobs[t].held + {lock}
    requires lock in job'.held ==> !Locked(jobs, t, lock)
    ensures Exclusive(jobs[t := job'])
  {
    forall u | u in jobs && u != t ensures job'.held !! jobs[u].held {
      forall l | l in job'.held ensures l !in jobs[u].held {
        if l == lock { assert !Locked(jobs, t, lock); }
      }
    }
  }

  lemma ExecuteHolds(cfg: Config, db: Db, t: Id, job: Job, job': Job)
    requires InProgram(Length(job.program), job.at) && job.at != Commit && Execute(cfg, db, t, job) == Some(job')
    ensures job'.held <= job.held + {NextLock(job.program, job.at)}
  {
  }

  lemma AdvanceKeeps(cfg: Config, base: Base, w: Sessions, t: Id)
    requires SessionsOk(cfg, base, w) && t in w.jobs
    ensures SessionsOk(cfg, base, AdvanceJob(cfg, w, t))
  {
    var job := w.jobs[t];
    assert JobOk(base, w.db, t, job);
    if job.at == Commit {
      CommitKeeps(cfg, base, w, t, AdvanceJob(cfg, w, t));
    } else if Execute(cfg, w.db, t, job).Some? {
      var job' := Execute(cfg, w.db, t, job).value;
      var lock := NextLock(job.program, job.at);
      if !(lock in job'.held && Locked(w.jobs, t, lock)) {
        ExecuteHolds(cfg, w.db, t, job, job');
        ExclusiveMore(w.jobs, t, job', lock);
        StatementKeeps(cfg, base, w.db, t, job, job');
      }
    }
  }

  lemma CreateBegins(base: Base, db: Db, t: Id, p: Program)
    requires p.CreateProgram? && PlanOk(base.pools, p.plan) && Separate(p.plan) && t !in db.rows
    ensures CreateOk(base, db, t, Started(p))
  {
  }

  lemma ConfirmBegins(db: Db, p: Program)
    requires p.ConfirmProgram? && ListOk(db, p.id, p.hs)
    ensures ConfirmOk(db, Started(p))
  {
  }

  lemma StartKeeps(cfg: Config, base: Base, w: Sessions, t: Id, p: Program)
    requires SessionsOk(cfg, base, w) && t !in w.jobs && JobOk(base, w.db, t, Started(p))
    ensures SessionsOk(cfg, base, Begin(w, t, p))
  {
    StartJobs(base, w.db, w.jobs, t, p);
  }

  lemma StartJobs(base: Base, db: Db, jobs: map<Id, Job>, t: Id, p: Program)
    requires JobsOk(base, db, jobs) && t !in jobs && JobOk(base, db, t, Started(p))
    ensures JobsOk(base, db, jobs[t := Started(p)])
  {
    assert Started(p).held == {};
  }

  lemma BeginCreateKeeps(cfg: Config, base: Base, w: Sessions, t: Id, p: Program)
    requires SessionsOk(cfg, base, w) && t !in w.jobs && t !in w.db.rows && p.CreateProgram? && PlanOk(base.pools, p.plan)
    ensures SessionsOk(cfg, base, Begin(w, t, p))
  {
    PlanIsSeparate(base, p.plan);
    CreateBegins(base, w.db, t, p);
    StartKeeps(cfg, base, w, t, p);
  }

  lemma BeginConfirmKeeps(cfg: Config, base: Base, w: Sessions, t: Id, id: Id)
    requires SessionsOk(cfg, base, w) && t !in w.jobs && id in w.db.rows
    ensures SessionsOk(cfg, base, Begin(w, t, ConfirmProgram(id, Listed(w.db, id))))
  {
    assert ListOk(w.db, id, Listed(w.db, id)) by { ListedHolds(cfg, base, w.db, id); }
    ConfirmBegins(w.db, ConfirmProgram(id, Listed(w.db, id)));
    StartKeeps(cfg, base, w, t, ConfirmProgram(id, Listed(w.db, id)));
  }

  lemma TakeKeeps(cfg: Config, base: Base, w: Sessions, turn: Turn)
    requires SessionsOk(cfg, base, w)
    ensures SessionsOk(cfg, base, Take(cfg, base, w, turn))
  {
    match turn
    case BeginCreate(t, pair, fp, plan, now) =>
      if t !in w.jobs && t !in w.db.rows && PlanOk(base.pools, plan) {
        BeginCreateKeeps(cfg, base, w, t, CreateProgram(pair, fp, plan, now));
      }
    case BeginConfirm(t, id) =>
      if t !in w.jobs && id in w.db.rows { BeginConfirmKeeps(cfg, base, w, t, id); }
    case Reject(_, _, _, _, _, _) =>
      if Take(cfg, base, w, turn) != w { RejectKeeps(cfg, base, w, turn, Take(cfg, base, w, turn)); }
    case Advance(t) => if t in w.jobs { AdvanceKeeps(cfg, base, w, t); }
  }

  lemma {:induction false} InterleaveOk(cfg: Config, base: Base, labels: seq<Turn>)
    requires GoodBase(base)
    ensures SessionsOk(cfg, base, Interleave(cfg, base, labels))
  {
    if |labels| == 0 {
      InitOk(cfg, base);
    } else {
      InterleaveOk(cfg, base, labels[..|labels| - 1]);
      TakeKeeps(cfg, base, Interleave(cfg, base, labels[..|labels| - 1]), labels[|labels| - 1]);
    }
  }

  /** Every interleaving of the statements of creates, rejections and confirms, on lists however old, leaves
      the database that running the committed transactions one after another, in commit order, would
      leave; each of them commits there too, and the invariant holds. */
  lemma StatementsAreSerializable(cfg: Config, base: Base, labels: seq<Turn>)
    requires GoodBase(base)
    ensures var w := Interleave(cfg, base, labels);
      Serially(cfg, Init(base), w.log) == (w.db, true) && DbOk(cfg, base, w.db)
  {
    InterleaveOk(cfg, base, labels);
  }

  // ---- the order of the locks -------------------------------------------------------------------

  function LocksOf(p: Program): seq<Lock> {
    match p
    case CreateProgram(pair, _, plan, _) => CreateLocks(pair, plan)
    case ConfirmProgram(id, hs) => ConfirmLocks(id, hs)
  }

  function Index(n: nat, at: Position): nat {
    match at
    case PoolOf(k) => 2 * k
    case SecondOf(k) => 2 * k + 1
    case RequestRow => 2 * n
    case Commit => 2 * n + 1
  }

  lemma {:induction false} PlanLocksAt(customer: Customer, plan: seq<Line>, k: nat)
    requires k <= |plan|
    ensures |PlanLocks(customer, plan)| == 2 * |plan|
    ensures k < |plan| ==> PlanLocks(customer, plan)[2 * k] == PoolLock(plan[k].poolId)
    ensures k < |plan| ==> PlanLocks(customer, plan)[2 * k + 1] == QuotaLock(QuotaKey(customer, plan[k].kind))
  {
    if |plan| > 0 { PlanLocksAt(customer, plan[..|plan| - 1], if k < |plan| then k else k - 1); }
  }

  lemma {:induction false} MoveLocksAt(hs: seq<Hold>, k: nat)
    requires k <= |hs|
    ensures |MoveLocks(hs)| == 2 * |hs|
    ensures k < |hs| ==> MoveLocks(hs)[2 * k] == PoolLock(hs[k].poolId) && MoveLocks(hs)[2 * k + 1] == HoldLock(hs[k].id)
  {
    if |hs| > 0 { MoveLocksAt(hs[..|hs| - 1], if k < |hs| then k else k - 1); }
  }

  /** The statements ask for their locks in the order of module Locks, so its deadlock freedom covers these
      runs. */
  lemma StatementsFollowLocks(p: Program, at: Position)
    requires InProgram(Length(p), at) && at != Commit
    ensures Index(Length(p), at) < |LocksOf(p)| == Index(Length(p), Commit)
    ensures LocksOf(p)[Index(Length(p), at)] == NextLock(p, at)
    ensures Index(Length(p), After(Length(p), at)) == Index(Length(p), at) + 1
  {
    var k := match at case PoolOf(k) => k case SecondOf(k) => k case _ => Length(p);
    match p
    case CreateProgram(pair, _, plan, _) => PlanLocksAt(pair.customer, plan, k);
    case ConfirmProgram(_, hs) => MoveLocksAt(hs, k);
  }

  // ---- transactions on their own ------------------------------------------------------------------

  /** A statement aborts exactly when what is committed refuses it: no room in the pool or the quota, the id
      or the pair taken, the hold no longer ACTIVE, the request no longer RESERVED. */
  lemma StatementDecides(cfg: Config, base: Base, db: Db, t: Id, job: Job)
    requires JobOk(base, db, t, job) && job.at != Commit
    ensures Execute(cfg, db, t, job).Some? <==>
      match job.program
      case CreateProgram(pair, _, plan, _) =>
        (match job.at
         case PoolOf(k) => PoolFits(db.pools, plan[k])
         case SecondOf(k) => QuotaFits(db.quotas, pair.customer, plan[k])
         case RequestRow => pair !in db.idem)
      case ConfirmProgram(id, hs) =>
        (match job.at
         case PoolOf(_) => true
         case SecondOf(k) => exists i :: 0 <= i < |db.rows[id].holds| && db.rows[id].holds[i].id == hs[k].id && db.rows[id].holds[i].status == Active
         case RequestRow => db.rows[id].req.status == Reserved)
  {
    if job.program.CreateProgram? && job.at.PoolOf? {
      PoolDecides(db, job, Moved(job), job.program.plan[job.at.k]);
    } else if job.program.CreateProgram? && job.at.SecondOf? {
      QuotaDecides(db, job, Moved(job), job.program.pair.customer, job.program.plan[job.at.k]);
    }
  }

  lemma PoolDecides(db: Db, job: Job, after: Job, l: Line)
    requires l.poolId !in job.pools
    ensures TryReserveNow(db, job, after, l).Some? <==> PoolFits(db.pools, l)
  {
    assert l.poolId in db.pools + job.pools <==> l.poolId in db.pools;
  }

  lemma QuotaDecides(db: Db, job: Job, after: Job, customer: Customer, l: Line)
    requires QuotaKey(customer, l.kind) !in job.quotas
    ensures ConsumeNow(db, job, after, customer, l).Some? <==> QuotaFits(db.quotas, customer, l)
  {
    assert QuotaRow(db.quotas + job.quotas, QuotaKey(customer, l.kind)) == QuotaRow(db.quotas, QuotaKey(customer, l.kind));
  }

  function TakeTurns(cfg: Config, base: Base, w: Sessions, t: Id, n: nat): Sessions
    decreases n
  {
    if n == 0 then w else TakeTurns(cfg, base, Take(cfg, base, w, Advance(t)), t, n - 1)
  }

  lemma {:induction false} NothingToTake(cfg: Config, base: Base, w: Sessions, t: Id, n: nat)
    requires t !in w.jobs
    ensures TakeTurns(cfg, base, w, t, n) == w
    decreases n
  {
    if n > 0 { NothingToTake(cfg, base, w, t, n - 1); }
  }

  function Single(db: Db, t: Id, job: Job, log: seq<Whole>): Sessions { Sessions(db, map[t := job], log) }

  /** Nobody else holds a lock, so a statement of a transaction alone never waits. */
  lemma SingleTakes(cfg: Config, base: Base, db: Db, t: Id, job: Job, log: seq<Whole>)
    requires JobOk(base, db, t, job)
    ensures var w := Take(cfg, base, Single(db, t, job, log), Advance(t));
      if job.at == Commit then w == Sessions(Publish(cfg, db, t, job), map[], log + [WholeOf(t, job.program)])
      else match Execute(cfg, db, t, job)
        case None => w == Sessions(db, map[], log)
        case Some(job') => w == Single(db, t, job', log)
  {
    var jobs := map[t := job];
    assert jobs - {t} == map[];
    if job.at != Commit && Execute(cfg, db, t, job).Some? {
      assert !Locked(jobs, t, NextLock(job.program, job.at));
      assert jobs[t := Execute(cfg, db, t, job).value] == map[t := Execute(cfg, db, t, job).value];
    }
  }

  lemma SingleEnds(cfg: Config, base: Base, db: Db, t: Id, job: Job, log: seq<Whole>, n: nat)
    requires JobOk(base, db, t, job) && n > 0
    requires job.at == Commit || Execute(cfg, db, t, job).None?
    ensures TakeTurns(cfg, base, Single(db, t, job, log), t, n) ==
      if job.at == Commit then Sessions(Publish(cfg, db, t, job), map[], log + [WholeOf(t, job.program)])
      else Sessions(db, map[], log)
  {
    SingleTakes(cfg, base, db, t, job, log);
    NothingToTake(cfg, base, Take(cfg, base, Single(db, t, job, log), Advance(t)), t, n - 1);
  }

  lemma SingleMoves(cfg: Config, base: Base, db: Db, t: Id, job: Job, log: seq<Whole>, n: nat, job': Job)
    requires JobOk(base, db, t, job) && n > 0 && job.at != Commit && Execute(cfg, db, t, job) == Some(job')
    ensures TakeTurns(cfg, base, Single(db, t, job, log), t, n) == TakeTurns(cfg, base, Single(db, t, job', log), t, n - 1)
  {
    SingleTakes(cfg, base, db, t, job, log);
  }

  lemma ExecuteAdvances(cfg: Config, db: Db, t: Id, job: Job, job': Job)
    requires InProgram(Length(job.program), job.at) && job.at != Commit && Execute(cfg, db, t, job) == Some(job')
    ensures job'.program == job.program && job'.at == After(Length(job.program), job.at)
  {
  }

  lemma CreateFits(cfg: Config, base: Base, db: Db, t: Id, job: Job)
    requires CreateOk(base, db, t, job) && job.at != Commit && Alone(cfg, db, WholeOf(t, job.program)).1
    ensures Execute(cfg, db, t, job).Some?
  {
    var p := job.program;
    LoopRefinesSimultaneousCheck(db.pools, db.quotas, p.pair.customer, p.plan);
    StatementDecides(cfg, base, db, t, job);
  }

  lemma ListedIsActive(cfg: Config, pools: Pools, db: Db, id: Id, hs: seq<Hold>, k: nat)
    requires ListOk(db, id, hs) && k < |hs| && EntryOk(cfg, pools, id, db.rows[id]) && db.rows[id].req.status == Reserved
    ensures k < |db.rows[id].holds| && db.rows[id].holds[k].id == hs[k].id && db.rows[id].holds[k].status == Active
  {
  }

  lemma ConfirmFits(cfg: Config, base: Base, db: Db, t: Id, job: Job)
    requires DbOk(cfg, base, db) && ConfirmOk(db, job) && job.at != Commit && Alone(cfg, db, WholeOf(t, job.program)).1
    ensures Execute(cfg, db, t, job).Some?
  {
    var id := job.program.id;
    assert db.rows[id].req.status == Reserved;
    if job.at.SecondOf? {
      assert EntryOk(cfg, base.pools, id, db.rows[id]);
      ListedIsActive(cfg, base.pools, db, id, job.program.hs, job.at.k);
    }
    StatementDecides(cfg, base, db, t, job);
  }

  /** No statement stops a transaction that commits as a whole. */
  lemma CommittedNeverStops(cfg: Config, base: Base, db: Db, t: Id, job: Job)
    requires DbOk(cfg, base, db) && JobOk(base, db, t, job) && job.at != Commit
    requires Alone(cfg, db, WholeOf(t, job.program)).1
    ensures Execute(cfg, db, t, job).Some?
  {
    if job.program.CreateProgram? { CreateFits(cfg, base, db, t, job); } else { ConfirmFits(cfg, base, db, t, job); }
  }

  /** How it ends: committed and logged, or rolled back. */
  function EndOf(db: Db, op: Whole, log: seq<Whole>, alone: (Db, bool)): Sessions {
    if alone.1 then Sessions(alone.0, map[], log + [op]) else Sessions(db, map[], log)
  }

  lemma CommitEnds(cfg: Config, base: Base, db: Db, t: Id, job: Job, log: seq<Whole>, op: Whole, alone: (Db, bool), n: nat)
    requires DbOk(cfg, base, db) && JobOk(base, db, t, job) && job.at == Commit && n > 0
    requires op == WholeOf(t, job.program) && alone == Alone(cfg, db, op)
    ensures TakeTurns(cfg, base, Single(db, t, job, log), t, n) == EndOf(db, op, log, alone)
  {
    CommitIsAlone(cfg, base, db, t, job);
    SingleEnds(cfg, base, db, t, job, log, n);
  }

  lemma StopEnds(cfg: Config, base: Base, db: Db, t: Id, job: Job, log: seq<Whole>, op: Whole, alone: (Db, bool), n: nat)
    requires DbOk(cfg, base, db) && JobOk(base, db, t, job) && job.at != Commit && n > 0
    requires Execute(cfg, db, t, job).None? && op == WholeOf(t, job.program) && alone == Alone(cfg, db, op)
    ensures TakeTurns(cfg, base, Single(db, t, job, log), t, n) == EndOf(db, op, log, alone)
  {
    if alone.1 { CommittedNeverStops(cfg, base, db, t, job); }
    SingleEnds(cfg, base, db, t, job, log, n);
  }

  lemma StatementMoves(cfg: Config, base: Base, db: Db, t: Id, job: Job, log: seq<Whole>, n: nat, job': Job)
    requires DbOk(cfg, base, db) && JobOk(base, db, t, job) && job.at != Commit && n > 0
    requires Execute(cfg, db, t, job) == Some(job')
    ensures JobOk(base, db, t, job') && job'.program == job.program
    ensures Index(Length(job.program), job'.at) == Index(Length(job.program), job.at) + 1
    ensures TakeTurns(cfg, base, Single(db, t, job, log), t, n) == TakeTurns(cfg, base, Single(db, t, job', log), t, n - 1)
  {
    ExecuteAdvances(cfg, db, t, job, job');
    StatementsFollowLocks(job.program, job.at);
    StatementKeeps(cfg, base, db, t, job, job');
    SingleMoves(cfg, base, db, t, job, log, n, job');
  }

  ghost predicate UnderWay(cfg: Config, base: Base, db: Db, t: Id, job: Job, p: Program, n: nat) {
    DbOk(cfg, base, db) && JobOk(base, db, t, job) && job.program == p && n + Index(Length(p), job.at) == 2 * Length(p) + 2
  }

  lemma RunsOn(cfg: Config, base: Base, db: Db, t: Id, job: Job, p: Program, log: seq<Whole>, n: nat) returns (job': Job)
    requires UnderWay(cfg, base, db, t, job, p, n) && job.at != Commit && Execute(cfg, db, t, job).Some?
    ensures n > 0 && UnderWay(cfg, base, db, t, job', p, n - 1)
    ensures TakeTurns(cfg, base, Single(db, t, job, log), t, n) == TakeTurns(cfg, base, Single(db, t, job', log), t, n - 1)
  {
    job' := Execute(cfg, db, t, job).value;
    StatementMoves(cfg, base, db, t, job, log, n, job');
  }

  lemma RunEnds(cfg: Config, base: Base, db: Db, t: Id, job: Job, p: Program, log: seq<Whole>, n: nat, end: Sessions)
    requires UnderWay(cfg, base, db, t, job, p, n) && (job.at == Commit || Execute(cfg, db, t, job).None?)
    requires end == EndOf(db, WholeOf(t, p), log, Alone(cfg, db, WholeOf(t, p)))
    ensures TakeTurns(cfg, base, Single(db, t, job, log), t, n) == end
  {
    if job.at == Commit {
      CommitEnds(cfg, base, db, t, job, log, WholeOf(t, p), Alone(cfg, db, WholeOf(t, p)), n);
    } else {
      StopEnds(cfg, base, db, t, job, log, WholeOf(t, p), Alone(cfg, db, WholeOf(t, p)), n);
    }
  }

  /** Turn after turn, up to the commit or the statement that refuses. */
  lemma {:induction false} RunsTo(cfg: Config, base: Base, db: Db, t: Id, job: Job, p: Program, log: seq<Whole>, n: nat)
    returns (last: Job, m: nat)
    requires UnderWay(cfg, base, db, t, job, p, n)
    ensures UnderWay(cfg, base, db, t, last, p, m) && (last.at == Commit || Execute(cfg, db, t, last).None?)
    ensures TakeTurns(cfg, base, Single(db, t, job, log), t, n) == TakeTurns(cfg, base, Single(db, t, last, log), t, m)
    decreases n
  {
    if job.at == Commit || Execute(cfg, db, t, job).None? {
      last, m := job, n;
    } else {
      var job' := RunsOn(cfg, base, db, t, job, p, log, n);
      last, m := RunsTo(cfg, base, db, t, job', p, log, n - 1);
    }
  }

  lemma RunsAloneFrom(cfg: Config, base: Base, db: Db, t: Id, job: Job, p: Program, log: seq<Whole>, n: nat, end: Sessions)
    requires UnderWay(cfg, base, db, t, job, p, n)
    requires end == EndOf(db, WholeOf(t, p), log, Alone(cfg, db, WholeOf(t, p)))
    ensures TakeTurns(cfg, base, Single(db, t, job, log), t, n) == end
  {
    var last, m := RunsTo(cfg, base, db, t, job, p, log, n);
    RunEnds(cfg, base, db, t, last, p, log, m, end);
  }

  lemma CreateStarts(cfg: Config, base: Base, w: Sessions, t: Id, p: Program)
    requires SessionsOk(cfg, base, w) && w.jobs == map[] && t !in w.db.rows && p.CreateProgram? && PlanOk(base.pools, p.plan)
    ensures UnderWay(cfg, base, w.db, t, Started(p), p, 2 * Length(p) + 2)
    ensures Take(cfg, base, w, BeginCreate(t, p.pair, p.fp, p.plan, p.now)) == Single(w.db, t, Started(p), w.log)
  {
    PlanIsSeparate(base, p.plan);
    CreateBegins(base, w.db, t, p);
    assert w.jobs[t := Started(p)] == map[t := Started(p)];
  }

  /** The statements of a create on their own commit exactly when the whole transaction does, with its
      result, and otherwise leave what was there. */
  lemma CreateRunsAlone(cfg: Config, base: Base, w: Sessions, t: Id, pair: IdemKey, fp: Fingerprint, plan: seq<Line>, now: Time)
    requires SessionsOk(cfg, base, w) && w.jobs == map[] && t !in w.db.rows && PlanOk(base.pools, plan)
    ensures var op := Reserving(t, pair, fp, plan, now);
      TakeTurns(cfg, base, Take(cfg, base, w, BeginCreate(t, pair, fp, plan, now)), t, 2 * |plan| + 2)
      == EndOf(w.db, op, w.log, Alone(cfg, w.db, op))
  {
    var p := CreateProgram(pair, fp, plan, now);
    var op := Reserving(t, pair, fp, plan, now);
    CreateStarts(cfg, base, w, t, p);
    RunsAloneFrom(cfg, base, w.db, t, Started(p), p, w.log, 2 * |plan| + 2, EndOf(w.db, op, w.log, Alone(cfg, w.db, op)));
  }

  lemma ConfirmStarts(cfg: Config, base: Base, w: Sessions, t: Id, id: Id, p: Program)
    requires SessionsOk(cfg, base, w) && w.jobs == map[] && id in w.db.rows && p == ConfirmProgram(id, Listed(w.db, id))
    ensures UnderWay(cfg, base, w.db, t, Started(p), p, 2 * Length(p) + 2)
    ensures Take(cfg, base, w, BeginConfirm(t, id)) == Single(w.db, t, Started(p), w.log)
  {
    assert ListOk(w.db, id, p.hs) by { ListedHolds(cfg, base, w.db, id); }
    ConfirmBegins(w.db, p);
    assert w.jobs[t := Started(p)] == map[t := Started(p)];
  }

  /** So do the statements of a confirm. */
  lemma ConfirmRunsAlone(cfg: Config, base: Base, w: Sessions, t: Id, id: Id)
    requires SessionsOk(cfg, base, w) && w.jobs == map[] && id in w.db.rows
    ensures var n := 2 * |Listed(w.db, id)| + 2;
      TakeTurns(cfg, base, Take(cfg, base, w, BeginConfirm(t, id)), t, n)
      == EndOf(w.db, Confirming(id), w.log, ConfirmTx(w.db, id))
  {
    var p := ConfirmProgram(id, Listed(w.db, id));
    ConfirmStarts(cfg, base, w, t, id, p);
    RunsAloneFrom(cfg, base, w.db, t, Started(p), p, w.log, 2 * |p.hs| + 2,
                  EndOf(w.db, Confirming(id), w.log, ConfirmTx(w.db, id)));
  }
}
