/** Row locks at the grain of single statements: each transaction takes its contended locks one by one
    and keeps them until it ends. Taking them in ascending order rules out deadlock. */
module Locks {
  import opened Domain
  import opened Ledger
  import opened Invariant
  import opened Settle
  import opened Conservation
  import opened Sums

  /** The contended rows. `PairLock` is the unique index entry a second insert of the same
      (customer, key) waits for. */
  datatype Lock =
    | PoolLock(pool: Id)
    | QuotaLock(key: QuotaKey)
    | HoldLock(hold: HoldId)
    | RequestLock(request: Id)
    | PairLock(pair: IdemKey)

  // ---- the sequences the transactions take ----------------------------------------------------

  function LineLocks(customer: Customer, l: Line): seq<Lock> {
    [PoolLock(l.poolId), QuotaLock(QuotaKey(customer, l.kind))]
  }

  /** Per line TryReserve then EnsureAndTryConsume; the request row last. */
  function CreateLocks(pair: IdemKey, plan: seq<Line>): seq<Lock> {
    PlanLocks(pair.customer, plan) + [PairLock(pair)]
  }

  function PlanLocks(customer: Customer, plan: seq<Line>): seq<Lock> {
    if |plan| == 0 then [] else PlanLocks(customer, plan[..|plan| - 1]) + LineLocks(customer, plan[|plan| - 1])
  }

  /** Per hold MoveReservedToDedicated then UpdateHoldStatus; the request row last. */
  function ConfirmLocks(id: Id, hs: seq<Hold>): seq<Lock> {
    MoveLocks(hs) + [RequestLock(id)]
  }

  function MoveLocks(hs: seq<Hold>): seq<Lock> {
    if |hs| == 0 then [] else
      var h := hs[|hs| - 1];
      MoveLocks(hs[..|hs| - 1]) + [PoolLock(h.poolId), HoldLock(h.id)]
  }

  /** Per hold ReleaseReserved, the quota refund if the pool has a kind, UpdateHoldStatus; the request
      row last. */
  function ReleaseLocks(id: Id, customer: Customer, kinds: map<Id, Kind>, hs: seq<Hold>): seq<Lock> {
    RefundLocks(customer, kinds, hs) + [RequestLock(id)]
  }

  function HoldLocks(customer: Customer, kinds: map<Id, Kind>, h: Hold): seq<Lock> {
    if h.poolId in kinds && kinds[h.poolId] != "" then
      [PoolLock(h.poolId), QuotaLock(QuotaKey(customer, kinds[h.poolId])), HoldLock(h.id)]
    else
      [PoolLock(h.poolId), HoldLock(h.id)]
  }

  function RefundLocks(customer: Customer, kinds: map<Id, Kind>, hs: seq<Hold>): seq<Lock> {
    if |hs| == 0 then [] else
      RefundLocks(customer, kinds, hs[..|hs| - 1]) + HoldLocks(customer, kinds, hs[|hs| - 1])
  }

  // ---- one ascending order for all of them ----------------------------------------------------

  /** Where quota and hold rows sit: the pool of a kind, the pool of a hold. */
  datatype Layout = Layout(kindPool: map<Kind, Id>, holdPool: map<HoldId, Id>)

  /** Per pool id: pool, then quota, then hold; request rows after every pool. */
  datatype Rank = Rank(last: bool, pool: Id, tier: nat)

  predicate Less(a: Rank, b: Rank) {
    if a.last != b.last then b.last
    else if a.pool != b.pool then a.pool < b.pool
    else a.tier < b.tier
  }

  function RankOf(layout: Layout, lock: Lock): Rank {
    match lock
    case PoolLock(p) => Rank(false, p, 0)
    case QuotaLock(key) => Rank(false, if key.kind in layout.kindPool then layout.kindPool[key.kind] else 0, 1)
    case HoldLock(h) => Rank(false, if h in layout.holdPool then layout.holdPool[h] else 0, 2)
    case RequestLock(_) => Rank(true, 0, 0)
    case PairLock(_) => Rank(true, 0, 0)
  }

  predicate InOrder(layout: Layout, locks: seq<Lock>) {
    forall i, j :: 0 <= i < j < |locks| ==> Less(RankOf(layout, locks[i]), RankOf(layout, locks[j]))
  }

  /** Every lock of the sequence belongs to a pool up to p. */
  predicate UpTo(layout: Layout, locks: seq<Lock>, p: Id) {
    forall i :: 0 <= i < |locks| ==> !RankOf(layout, locks[i]).last && RankOf(layout, locks[i]).pool <= p
  }

  lemma AppendInOrder(layout: Layout, front: seq<Lock>, more: seq<Lock>, p: Id)
    requires InOrder(layout, front) && InOrder(layout, more)
    requires forall i :: 0 <= i < |front| ==> !RankOf(layout, front[i]).last && RankOf(layout, front[i]).pool < p
    requires forall i :: 0 <= i < |more| ==> RankOf(layout, more[i]).last || RankOf(layout, more[i]).pool >= p
    ensures InOrder(layout, front + more)
  {
  }

  lemma {:induction false} PlanLocksInOrder(layout: Layout, customer: Customer, plan: seq<Line>)
    requires Invariant.Ascending(plan)
    requires forall i :: 0 <= i < |plan| ==> plan[i].kind in layout.kindPool && layout.kindPool[plan[i].kind] == plan[i].poolId
    ensures InOrder(layout, PlanLocks(customer, plan))
    ensures |plan| > 0 ==> UpTo(layout, PlanLocks(customer, plan), plan[|plan| - 1].poolId)
    ensures |plan| == 0 ==> PlanLocks(customer, plan) == []
  {
    if |plan| > 0 {
      var front, l := plan[..|plan| - 1], plan[|plan| - 1];
      PlanLocksInOrder(layout, customer, front);
      AppendInOrder(layout, PlanLocks(customer, front), LineLocks(customer, l), l.poolId);
    }
  }

  lemma RequestRowLast(layout: Layout, front: seq<Lock>, lock: Lock)
    requires InOrder(layout, front) && (lock.RequestLock? || lock.PairLock?)
    requires forall i :: 0 <= i < |front| ==> !RankOf(layout, front[i]).last
    ensures InOrder(layout, front + [lock])
  {
  }

  predicate HoldsInOrder(layout: Layout, hs: seq<Hold>) {
    && (forall i, j :: 0 <= i < j < |hs| ==> hs[i].poolId < hs[j].poolId)
    && (forall i :: 0 <= i < |hs| ==> hs[i].id in layout.holdPool && layout.holdPool[hs[i].id] == hs[i].poolId)
  }

  lemma {:induction false} MoveLocksInOrder(layout: Layout, hs: seq<Hold>)
    requires HoldsInOrder(layout, hs)
    ensures InOrder(layout, MoveLocks(hs))
    ensures |hs| > 0 ==> UpTo(layout, MoveLocks(hs), hs[|hs| - 1].poolId)
    ensures |hs| == 0 ==> MoveLocks(hs) == []
  {
    if |hs| > 0 {
      var front, h := hs[..|hs| - 1], hs[|hs| - 1];
      MoveLocksInOrder(layout, front);
      AppendInOrder(layout, MoveLocks(front), [PoolLock(h.poolId), HoldLock(h.id)], h.poolId);
    }
  }

  lemma {:induction false} RefundLocksInOrder(layout: Layout, customer: Customer, kinds: map<Id, Kind>, hs: seq<Hold>)
    requires HoldsInOrder(layout, hs)
    requires forall p :: p in kinds ==> kinds[p] in layout.kindPool && layout.kindPool[kinds[p]] == p
    ensures InOrder(layout, RefundLocks(customer, kinds, hs))
    ensures |hs| > 0 ==> UpTo(layout, RefundLocks(customer, kinds, hs), hs[|hs| - 1].poolId)
    ensures |hs| == 0 ==> RefundLocks(customer, kinds, hs) == []
  {
    if |hs| > 0 {
      var front, h := hs[..|hs| - 1], hs[|hs| - 1];
      RefundLocksInOrder(layout, customer, kinds, front);
      AppendInOrder(layout, RefundLocks(customer, kinds, front), HoldLocks(customer, kinds, h), h.poolId);
    }
  }

  // ---- every transaction of the service takes its locks in this order ---------------------------

  /** The layout the service's data has: kinds are unique among pools, a hold's pool never changes. */
  predicate LayoutFits(layout: Layout, base: Base, rows: Rows) {
    && (forall p :: p in base.pools ==> base.pools[p].kind in layout.kindPool && layout.kindPool[base.pools[p].kind] == p)
    && (forall id, i :: id in rows && 0 <= i < |rows[id].lines| ==>
         HoldId(id, i) in layout.holdPool && layout.holdPool[HoldId(id, i)] == rows[id].lines[i].poolId)
  }

  function LayoutOf(base: Base, rows: Rows): Layout
    requires KindsUnique(base.pools)
  {
    Layout(map p | p in base.pools :: base.pools[p].kind := p,
           map id, i | id in rows && 0 <= i < |rows[id].lines| :: HoldId(id, i) := rows[id].lines[i].poolId)
  }

  /** One order serves every transaction of a run: the layout of the last database fits all before it. */
  lemma OneLayoutServesAll(base: Base, earlier: Db, last: Db)
    requires KindsUnique(base.pools) && Forward(earlier, last)
    ensures LayoutFits(LayoutOf(base, last.rows), base, earlier.rows)
  {
  }

  lemma CreateInOrder(layout: Layout, base: Base, rows: Rows, pair: IdemKey, plan: seq<Line>)
    requires LayoutFits(layout, base, rows) && PlanOk(base.pools, plan)
    ensures InOrder(layout, CreateLocks(pair, plan))
  {
    PlanLocksInOrder(layout, pair.customer, plan);
    RequestRowLast(layout, PlanLocks(pair.customer, plan), PairLock(pair));
  }

  lemma ListedInOrder(cfg: Config, layout: Layout, base: Base, db: Db, id: Id)
    requires DbOk(cfg, base, db) && LayoutFits(layout, base, db.rows)
    ensures HoldsInOrder(layout, Listed(db, id))
  {
    ListedHolds(cfg, base, db, id);
    if id in db.rows && db.rows[id].req.status == Reserved {
      assert EntryOk(cfg, base.pools, id, db.rows[id]);
      HoldsOfInOrder(layout, base, db.rows, id);
    }
  }

  lemma HoldsOfInOrder(layout: Layout, base: Base, rows: Rows, id: Id)
    requires id in rows && Invariant.Ascending(rows[id].lines) && LayoutFits(layout, base, rows)
    ensures HoldsInOrder(layout, HoldsOf(id, rows[id].lines, Active))
  {
  }

  lemma ConfirmInOrder(cfg: Config, layout: Layout, base: Base, db: Db, id: Id)
    requires DbOk(cfg, base, db) && LayoutFits(layout, base, db.rows)
    ensures InOrder(layout, ConfirmLocks(id, Listed(db, id)))
  {
    ListedInOrder(cfg, layout, base, db, id);
    MoveLocksInOrder(layout, Listed(db, id));
    RequestRowLast(layout, MoveLocks(Listed(db, id)), RequestLock(id));
  }

  lemma {:induction false} KindByPoolFits(layout: Layout, pools: Pools, lines: seq<Line>)
    requires forall i :: 0 <= i < |lines| ==>
      lines[i].kind in layout.kindPool && layout.kindPool[lines[i].kind] == lines[i].poolId
    ensures forall p :: p in KindByPool(lines) ==>
      KindByPool(lines)[p] in layout.kindPool && layout.kindPool[KindByPool(lines)[p]] == p
  {
    if |lines| > 0 { KindByPoolFits(layout, pools, lines[..|lines| - 1]); }
  }

  lemma ReleaseInOrder(cfg: Config, layout: Layout, base: Base, db: Db, id: Id, customer: Customer)
    requires DbOk(cfg, base, db) && LayoutFits(layout, base, db.rows) && id in db.rows
    ensures InOrder(layout, ReleaseLocks(id, customer, KindByPool(db.rows[id].lines), Listed(db, id)))
  {
    ListedInOrder(cfg, layout, base, db, id);
    assert EntryOk(cfg, base.pools, id, db.rows[id]);
    KindByPoolFits(layout, base.pools, db.rows[id].lines);
    RefundLocksInOrder(layout, customer, KindByPool(db.rows[id].lines), Listed(db, id));
    RequestRowLast(layout, RefundLocks(customer, KindByPool(db.rows[id].lines), Listed(db, id)), RequestLock(id));
  }

  // ---- the lock manager -----------------------------------------------------------------------

  /** A running transaction has taken its first `taken` locks. */
  datatype Txn = Txn(locks: seq<Lock>, taken: nat)

  type Running = map<Id, Txn>

  predicate Holds(txn: Txn, lock: Lock) {
    exists i :: 0 <= i < txn.taken <= |txn.locks| && txn.locks[i] == lock
  }

  predicate Wants(txn: Txn) { txn.taken < |txn.locks| }

  /** t waits for u: u holds the lock t needs next. */
  predicate WaitsFor(running: Running, t: Id, u: Id) {
    && t in running && u in running && t != u
    && Wants(running[t]) && Holds(running[u], running[t].locks[running[t].taken])
  }

  ghost predicate CanStep(running: Running, t: Id) {
    t in running && forall u :: !WaitsFor(running, t, u)
  }

  ghost predicate SystemOk(layout: Layout, running: Running) {
    && (forall t :: t in running ==> running[t].taken <= |running[t].locks| && InOrder(layout, running[t].locks))
    && (forall t, u, lock :: t in running && u in running && Holds(running[t], lock) && Holds(running[u], lock) ==> t == u)
  }

  /** Take the next lock, or end and let go of all of them. */
  ghost function Grant(running: Running, t: Id): Running
    requires CanStep(running, t)
  {
    if Wants(running[t]) then running[t := running[t].(taken := running[t].taken + 1)] else running - {t}
  }

  /** Granting keeps locks exclusive. */
  lemma GrantKeepsSystem(layout: Layout, running: Running, t: Id)
    requires SystemOk(layout, running) && CanStep(running, t)
    ensures SystemOk(layout, Grant(running, t))
  {
    var after := Grant(running, t);
    if Wants(running[t]) {
      var next := running[t].locks[running[t].taken];
      forall u | u in running && u != t ensures !Holds(running[u], next) { NotHeld(running, t, u); }
      forall u, v, lock | u in after && v in after && Holds(after[u], lock) && Holds(after[v], lock) ensures u == v {
        TakenOne(running[t], lock);
      }
    }
  }

  lemma NotHeld(running: Running, t: Id, u: Id)
    requires CanStep(running, t) && Wants(running[t]) && u in running && u != t
    ensures !Holds(running[u], running[t].locks[running[t].taken])
  {
    assert !WaitsFor(running, t, u);
  }

  lemma TakenOne(txn: Txn, lock: Lock)
    requires Wants(txn)
    ensures Holds(txn.(taken := txn.taken + 1), lock) ==> Holds(txn, lock) || lock == txn.locks[txn.taken]
  {
  }

  function WantedRank(layout: Layout, txn: Txn): Rank
    requires Wants(txn)
  {
    RankOf(layout, txn.locks[txn.taken])
  }

  /** Along a waits-for edge between two waiting transactions the wanted rank rises. */
  lemma WaitingRises(layout: Layout, running: Running, t: Id, u: Id)
    requires SystemOk(layout, running) && WaitsFor(running, t, u) && Wants(running[u])
    ensures Less(WantedRank(layout, running[t]), WantedRank(layout, running[u]))
  {
  }

  /** There is no cycle of waiting transactions, of any length. */
  lemma NoWaitCycle(layout: Layout, running: Running, cycle: seq<Id>)
    requires SystemOk(layout, running) && |cycle| > 0
    requires forall i :: 0 <= i < |cycle| - 1 ==> WaitsFor(running, cycle[i], cycle[i + 1])
    ensures !WaitsFor(running, cycle[|cycle| - 1], cycle[0])
  {
    if WaitsFor(running, cycle[|cycle| - 1], cycle[0]) {
      forall i | 0 <= i < |cycle| ensures cycle[i] in running && Wants(running[cycle[i]]) {
        assert i < |cycle| - 1 ==> WaitsFor(running, cycle[i], cycle[i + 1]);
      }
      WaitingChain(layout, running, cycle, |cycle| - 1);
      WaitingRises(layout, running, cycle[|cycle| - 1], cycle[0]);
    }
  }

  lemma {:induction false} WaitingChain(layout: Layout, running: Running, chain: seq<Id>, k: nat)
    requires SystemOk(layout, running) && k < |chain|
    requires forall i :: 0 <= i < |chain| - 1 ==> WaitsFor(running, chain[i], chain[i + 1])
    requires forall i :: 0 <= i < |chain| ==> chain[i] in running && Wants(running[chain[i]])
    ensures k == 0 || Less(WantedRank(layout, running[chain[0]]), WantedRank(layout, running[chain[k]]))
  {
    if k > 0 {
      WaitingChain(layout, running, chain, k - 1);
      assert WaitsFor(running, chain[k - 1], chain[k - 1 + 1]);
      WaitingRises(layout, running, chain[k - 1], chain[k]);
    }
  }

  /** Some waiting transaction wants a lock of highest rank. */
  lemma {:induction false} HighestWanted(layout: Layout, running: Running, ts: set<Id>) returns (t: Id)
    requires ts != {} && forall u :: u in ts ==> u in running && Wants(running[u])
    ensures t in ts && forall u :: u in ts ==> !Less(WantedRank(layout, running[t]), WantedRank(layout, running[u]))
    decreases ts
  {
    t :| t in ts;
    if ts != {t} {
      var best := HighestWanted(layout, running, ts - {t});
      if Less(WantedRank(layout, running[t]), WantedRank(layout, running[best])) { t := best; }
    }
  }

  /** Deadlock freedom: while any transaction runs, some transaction can take its next step. */
  lemma SomeoneCanStep(layout: Layout, running: Running) returns (t: Id)
    requires SystemOk(layout, running) && running.Keys != {}
    ensures CanStep(running, t)
  {
    if s :| s in running && !Wants(running[s]) {
      t := s;
    } else {
      t := HighestWanted(layout, running, running.Keys);
      forall u ensures !WaitsFor(running, t, u) {
        if WaitsFor(running, t, u) {
          assert u in running.Keys;
          WaitingRises(layout, running, t, u);
        }
      }
    }
  }

  // ---- every run ends -------------------------------------------------------------------------

  ghost function LeftMap(running: Running): map<Id, int> {
    map t | t in running :: |running[t].locks| - running[t].taken + 1
  }

  /** Locks still to be taken, plus one per running transaction. */
  ghost function Left(running: Running): int { Sum(LeftMap(running)) }

  lemma GrantDecreases(layout: Layout, running: Running, t: Id)
    requires SystemOk(layout, running) && CanStep(running, t)
    ensures 0 <= Left(Grant(running, t)) < Left(running)
  {
    GrantKeepsSystem(layout, running, t);
    SumNonNegative(LeftMap(Grant(running, t)));
    LeftDrops(running, t);
  }

  lemma LeftDrops(running: Running, t: Id)
    requires CanStep(running, t) && running[t].taken <= |running[t].locks|
    ensures Left(Grant(running, t)) < Left(running)
  {
    var after := Grant(running, t);
    if Wants(running[t]) {
      assert LeftMap(after) == LeftMap(running)[t := LeftMap(running)[t] - 1];
      SumUpdate(LeftMap(running), t, LeftMap(running)[t] - 1);
    } else {
      assert LeftMap(after) == LeftMap(running) - {t};
      SumRemove(LeftMap(running), t);
    }
  }

  /** A schedule: each transaction named can step when its turn comes. */
  ghost predicate Schedule(running: Running, turns: seq<Id>)
    decreases |turns|
  {
    |turns| > 0 ==> CanStep(running, turns[0]) && Schedule(Grant(running, turns[0]), turns[1..])
  }

  ghost function AfterTurns(running: Running, turns: seq<Id>): Running
    requires Schedule(running, turns)
    decreases |turns|
  {
    if |turns| == 0 then running else AfterTurns(Grant(running, turns[0]), turns[1..])
  }

  /** No schedule is longer than the locks left, and one that cannot be continued has finished every
      transaction: all of them always complete, whatever the scheduling. */
  lemma {:induction false} EveryScheduleEnds(layout: Layout, running: Running, turns: seq<Id>)
    requires SystemOk(layout, running) && Schedule(running, turns)
    ensures |turns| <= Left(running)
    ensures (forall t :: !CanStep(AfterTurns(running, turns), t)) ==> AfterTurns(running, turns) == map[]
    decreases |turns|
  {
    if |turns| == 0 {
      SumNonNegative(LeftMap(running));
      if running.Keys != {} { var t := SomeoneCanStep(layout, running); }
      else { assert running == map[]; }
    } else {
      GrantDecreases(layout, running, turns[0]);
      GrantKeepsSystem(layout, running, turns[0]);
      EveryScheduleEnds(layout, Grant(running, turns[0]), turns[1..]);
    }
  }

  /** And they can complete: there is a schedule that finishes every transaction. */
  lemma {:induction false} SomeScheduleFinishes(layout: Layout, running: Running) returns (turns: seq<Id>)
    requires SystemOk(layout, running)
    ensures Schedule(running, turns) && AfterTurns(running, turns) == map[]
    decreases Left(running)
  {
    if running.Keys == {} {
      assert running == map[];
      turns := [];
    } else {
      var t := SomeoneCanStep(layout, running);
      GrantKeepsSystem(layout, running, t);
      GrantDecreases(layout, running, t);
      var rest := SomeScheduleFinishes(layout, Grant(running, t));
      turns := [t] + rest;
      assert turns[1..] == rest;
    }
  }

  // ---- the service's transactions ---------------------------------------------------------------

  /** A transaction of the service: a create with its plan, or a confirm or release of a request with
      the list read from an earlier database. A create or confirm may roll back once it has reached some
      number of locks. */
  datatype Origin =
    | FromCreate(pair: IdemKey, plan: seq<Line>, reached: nat)
    | FromConfirm(earlier: Db, id: Id, reached: nat)
    | FromRelease(earlier: Db, id: Id, customer: Customer)

  ghost predicate OriginOk(cfg: Config, base: Base, last: Db, o: Origin) {
    match o
    case FromCreate(_, plan, _) => PlanOk(base.pools, plan)
    case FromConfirm(earlier, _, _) => DbOk(cfg, base, earlier) && Forward(earlier, last)
    case FromRelease(earlier, id, _) => DbOk(cfg, base, earlier) && Forward(earlier, last) && id in earlier.rows
  }

  function UpToReached(locks: seq<Lock>, reached: nat): seq<Lock> {
    if reached <= |locks| then locks[..reached] else locks
  }

  function LocksFrom(o: Origin): seq<Lock> {
    match o
    case FromCreate(pair, plan, reached) => UpToReached(CreateLocks(pair, plan), reached)
    case FromConfirm(earlier, id, reached) => UpToReached(ConfirmLocks(id, Listed(earlier, id)), reached)
    case FromRelease(earlier, id, customer) =>
      if id in earlier.rows then
        ReleaseLocks(id, customer, KindByPool(earlier.rows[id].lines), Listed(earlier, id))
      else []
  }

  lemma ReachedInOrder(layout: Layout, locks: seq<Lock>, reached: nat)
    requires InOrder(layout, locks)
    ensures InOrder(layout, UpToReached(locks, reached))
  {
  }

  lemma OriginInOrder(cfg: Config, base: Base, last: Db, o: Origin)
    requires KindsUnique(base.pools) && OriginOk(cfg, base, last, o)
    ensures InOrder(LayoutOf(base, last.rows), LocksFrom(o))
  {
    var layout := LayoutOf(base, last.rows);
    match o
    case FromCreate(pair, plan, reached) =>
      CreateInOrder(layout, base, map[], pair, plan);
      ReachedInOrder(layout, CreateLocks(pair, plan), reached);
    case FromConfirm(earlier, id, reached) =>
      OneLayoutServesAll(base, earlier, last);
      ConfirmInOrder(cfg, layout, base, earlier, id);
      ReachedInOrder(layout, ConfirmLocks(id, Listed(earlier, id)), reached);
    case FromRelease(earlier, id, customer) =>
      OneLayoutServesAll(base, earlier, last);
      ReleaseInOrder(cfg, layout, base, earlier, id, customer);
  }

  function Begun(origins: map<Id, Origin>): Running {
    map t | t in origins :: Txn(LocksFrom(origins[t]), 0)
  }

  /** Any number of creates, confirms and releases of a run, started together on lists read at different
      times and scheduled in any order, never deadlock: every schedule is bounded by the locks they take,
      and one that cannot be continued has finished all of them. */
  lemma ServiceNeverDeadlocks(cfg: Config, base: Base, last: Db, origins: map<Id, Origin>, turns: seq<Id>)
    requires KindsUnique(base.pools)
    requires forall t :: t in origins ==> OriginOk(cfg, base, last, origins[t])
    requires Schedule(Begun(origins), turns)
    ensures |turns| <= Left(Begun(origins))
    ensures (forall t :: !CanStep(AfterTurns(Begun(origins), turns), t)) ==> AfterTurns(Begun(origins), turns) == map[]
  {
    var layout := LayoutOf(base, last.rows);
    forall t | t in origins ensures InOrder(layout, LocksFrom(origins[t])) {
      OriginInOrder(cfg, base, last, origins[t]);
    }
    EveryScheduleEnds(layout, Begun(origins), turns);
  }
}
