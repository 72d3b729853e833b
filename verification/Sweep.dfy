/** The sweeper run serially: what one tick does, how many ticks drain a backlog, and the capacity that
    is shown against the capacity that is admitted. */
module Sweep {
  import opened Domain
  import opened Ledger
  import opened Invariant
  import opened Settle
  import opened Conservation
  import opened Reserve
  import opened Intake
  import opened Interleaving
  import opened Guarantees
  import opened Serial

  function OverdueIds(rows: Rows, now: Time): set<Id> {
    set id | id in rows && Overdue(rows[id].req, now)
  }

  function ExpiryOf(rows: Rows, id: Id): Time
    requires id in rows
  {
    match rows[id].req.expiresAt case Some(t) => t case None => 0
  }

  function Min(a: nat, b: nat): nat { if a < b then a else b }

  /** What ListExpiredIDs returns: the overdue requests that expire first, at most `limit` of them. */
  predicate IsBatch(rows: Rows, now: Time, limit: nat, ids: seq<Id>) {
    && (forall i :: 0 <= i < |ids| ==> ids[i] in OverdueIds(rows, now))
    && (forall i, j :: 0 <= i < j < |ids| ==> ids[i] != ids[j])
    && |ids| == Min(limit, |OverdueIds(rows, now)|)
    && (forall i, j :: 0 <= i < j < |ids| ==> ExpiryOf(rows, ids[i]) <= ExpiryOf(rows, ids[j]))
    && (forall i, id :: 0 <= i < |ids| && id in OverdueIds(rows, now) && id !in ids ==>
         ExpiryOf(rows, ids[i]) <= ExpiryOf(rows, id))
  }

  predicate Distinct(ids: seq<Id>) {
    forall i, j :: 0 <= i < j < |ids| ==> ids[i] != ids[j]
  }

  /** Every listed request has been expired and no other row has changed. */
  predicate ExpiredExactly(rows: Rows, ids: seq<Id>, rows': Rows) {
    && rows'.Keys == rows.Keys
    && forall id :: id in rows ==>
      rows'[id] == if id in ids then ReleasedEntry(id, rows[id], Expired) else rows[id]
  }

  ghost predicate Swept(cfg: Config, base: Base, rows: Rows, ids: seq<Id>, db': Db, n: nat) {
    DbOk(cfg, base, db') && ExpiredExactly(rows, ids, db'.rows) && n == |ids|
  }

  predicate AllReserved(rows: Rows, ids: seq<Id>) {
    Distinct(ids) && forall i :: 0 <= i < |ids| ==> ids[i] in rows && rows[ids[i]].req.status == Reserved
  }

  lemma SplitReserved(rows: Rows, ids: seq<Id>, front: seq<Id>, id: Id)
    requires AllReserved(rows, ids) && |ids| > 0 && front == ids[..|ids| - 1] && id == ids[|ids| - 1]
    ensures AllReserved(rows, front) && ids == front + [id] && id !in front
    ensures id in rows && rows[id].req.status == Reserved
  {
  }

  lemma ExpireAllStep(db: Db, ids: seq<Id>)
    requires |ids| > 0
    ensures var (db1, n) := ExpireAll(db, ids[..|ids| - 1]);
      var id := ids[|ids| - 1];
      id in db1.rows ==> ExpireAll(db, ids) == (ReleaseTx(db1, id, db1.rows[id].req.customer, Expired), n + 1)
  {
  }

  /** One pass of the sweeper's loop over distinct RESERVED requests expires exactly those, counts each
      of them, and keeps the invariant. */
  lemma {:induction false} ExpireAllExact(cfg: Config, base: Base, db: Db, ids: seq<Id>)
    requires DbOk(cfg, base, db) && AllReserved(db.rows, ids)
    ensures Swept(cfg, base, db.rows, ids, ExpireAll(db, ids).0, ExpireAll(db, ids).1)
  {
    if |ids| > 0 {
      var front, id := ids[..|ids| - 1], ids[|ids| - 1];
      SplitReserved(db.rows, ids, front, id);
      ExpireAllExact(cfg, base, db, front);
      ExpireAllStep(db, ids);
      SweepOneMore(cfg, base, db.rows, ids, front, id, ExpireAll(db, front), ExpireAll(db, ids));
    }
  }

  lemma SweepOneMore(cfg: Config, base: Base, rows: Rows, ids: seq<Id>, front: seq<Id>, id: Id, before: (Db, nat), after: (Db, nat))
    requires ids == front + [id] && id !in front
    requires id in rows && rows[id].req.status == Reserved
    requires Swept(cfg, base, rows, front, before.0, before.1)
    requires id in before.0.rows ==>
      after == (ReleaseTx(before.0, id, before.0.rows[id].req.customer, Expired), before.1 + 1)
    ensures Swept(cfg, base, rows, ids, after.0, after.1)
  {
    ExpireOneMore(cfg, base, rows, ids, front, id, before.0, after.0);
  }

  lemma ExpireOneMore(cfg: Config, base: Base, rows: Rows, ids: seq<Id>, front: seq<Id>, id: Id, db1: Db, db2: Db)
    requires ids == front + [id] && id !in front
    requires id in rows && rows[id].req.status == Reserved
    requires Swept(cfg, base, rows, front, db1, |front|)
    requires id in db1.rows ==> db2 == ReleaseTx(db1, id, db1.rows[id].req.customer, Expired)
    ensures Swept(cfg, base, rows, ids, db2, |ids|)
  {
    ReleaseKeepsInvariant(cfg, base, db1, id, db1.rows[id].req.customer, Expired);
    ReleaseExact(cfg, base, db1, id, db1.rows[id].req.customer, Expired);
    ExpiredOneMore(rows, ids, front, id, db1.rows, db2.rows);
  }

  lemma ExpiredOneMore(rows: Rows, ids: seq<Id>, front: seq<Id>, id: Id, rows1: Rows, rows2: Rows)
    requires ids == front + [id] && id !in front && id in rows
    requires ExpiredExactly(rows, front, rows1)
    requires rows2 == rows1[id := ReleasedEntry(id, rows1[id], Expired)]
    ensures ExpiredExactly(rows, ids, rows2)
  {
  }

  function ToSet(ids: seq<Id>): set<Id> { set id | id in ids }

  lemma {:induction false} ToSetSize(ids: seq<Id>)
    requires Distinct(ids)
    ensures |ToSet(ids)| == |ids|
  {
    if |ids| > 0 {
      var front, last := ids[..|ids| - 1], ids[|ids| - 1];
      ToSetSize(front);
      assert ids == front + [last];
      assert ToSet(ids) == ToSet(front) + {last};
      assert last !in ToSet(front);
    }
  }

  ghost predicate TickDone(cfg: Config, base: Base, rows: Rows, now: Time, ids: seq<Id>, db': Db, n: nat) {
    && DbOk(cfg, base, db')
    && n == Min(EXPIRE_BATCH_SIZE, |OverdueIds(rows, now)|)
    && ExpiredExactly(rows, ids, db'.rows)
    && OverdueIds(db'.rows, now) == OverdueIds(rows, now) - ToSet(ids)
    && |OverdueIds(db'.rows, now)| == |OverdueIds(rows, now)| - n
  }

  lemma BatchIsReserved(rows: Rows, now: Time, ids: seq<Id>)
    requires IsBatch(rows, now, EXPIRE_BATCH_SIZE, ids)
    ensures AllReserved(rows, ids)
  {
    forall i | 0 <= i < |ids| ensures ids[i] in rows && rows[ids[i]].req.status == Reserved {
      assert ids[i] in OverdueIds(rows, now);
    }
  }

  /** One tick: exactly the listed min(100, overdue) requests expire and are counted; all other requests
      are untouched and the rest of the backlog stays overdue. */
  lemma TickExpiresTheBatch(cfg: Config, base: Base, db: Db, now: Time, ids: seq<Id>)
    requires DbOk(cfg, base, db) && IsBatch(db.rows, now, EXPIRE_BATCH_SIZE, ids)
    ensures TickDone(cfg, base, db.rows, now, ids, ExpireAll(db, ids).0, ExpireAll(db, ids).1)
  {
    BatchIsReserved(db.rows, now, ids);
    ExpireAllExact(cfg, base, db, ids);
    BatchLeavesTheRest(db.rows, now, ids, ExpireAll(db, ids).0.rows);
  }

  lemma BatchLeavesTheRest(rows: Rows, now: Time, ids: seq<Id>, rows': Rows)
    requires ExpiredExactly(rows, ids, rows') && Distinct(ids)
    requires forall i :: 0 <= i < |ids| ==> ids[i] in OverdueIds(rows, now)
    ensures OverdueIds(rows', now) == OverdueIds(rows, now) - ToSet(ids)
    ensures |OverdueIds(rows', now)| == |OverdueIds(rows, now)| - |ids|
  {
    var before, gone := OverdueIds(rows, now), ToSet(ids);
    forall id ensures id in OverdueIds(rows', now) <==> id in before - gone {
    }
    ToSetSize(ids);
    assert gone <= before;
    assert before == (before - gone) + gone;
  }

  /** The listed requests whose read or release does not fail. */
  function Surviving(ids: seq<Id>, failing: set<Id>): seq<Id> {
    if |ids| == 0 then []
    else
      var front := Surviving(ids[..|ids| - 1], failing);
      if ids[|ids| - 1] in failing then front else front + [ids[|ids| - 1]]
  }

  lemma {:induction false} SurvivingMembers(ids: seq<Id>, failing: set<Id>)
    requires Distinct(ids)
    ensures Distinct(Surviving(ids, failing))
    ensures forall id :: id in Surviving(ids, failing) <==> id in ids && id !in failing
  {
    if |ids| > 0 {
      var front, last := ids[..|ids| - 1], ids[|ids| - 1];
      SurvivingMembers(front, failing);
      assert ids == front + [last];
      assert last !in front;
    }
  }

  /** Store errors are skipped: whatever set of requests fails, a tick expires exactly the others of its
      batch, counts them and keeps the invariant. */
  lemma TickSkipsFailures(cfg: Config, base: Base, db: Db, now: Time, ids: seq<Id>, failing: set<Id>)
    requires DbOk(cfg, base, db) && IsBatch(db.rows, now, EXPIRE_BATCH_SIZE, ids)
    ensures forall id :: id in Surviving(ids, failing) <==> id in ids && id !in failing
    ensures var rest := Surviving(ids, failing);
      Swept(cfg, base, db.rows, rest, ExpireAll(db, rest).0, ExpireAll(db, rest).1)
  {
    BatchIsReserved(db.rows, now, ids);
    SurvivingMembers(ids, failing);
    var rest := Surviving(ids, failing);
    forall i | 0 <= i < |rest| ensures rest[i] in db.rows && db.rows[rest[i]].req.status == Reserved {
      assert rest[i] in ids;
    }
    ExpireAllExact(cfg, base, db, rest);
  }

  /** Consecutive ticks at one clock reading, each on the batch listed when it starts. */
  predicate Ticks(db: Db, now: Time, batches: seq<seq<Id>>)
    decreases |batches|
  {
    |batches| > 0 ==>
      && IsBatch(db.rows, now, EXPIRE_BATCH_SIZE, batches[0])
      && Ticks(ExpireAll(db, batches[0]).0, now, batches[1..])
  }

  function AfterTicks(db: Db, batches: seq<seq<Id>>): Db
    decreases |batches|
  {
    if |batches| == 0 then db else AfterTicks(ExpireAll(db, batches[0]).0, batches[1..])
  }

  function Remaining(overdue: nat, ticks: nat): nat {
    if overdue <= EXPIRE_BATCH_SIZE * ticks then 0 else overdue - EXPIRE_BATCH_SIZE * ticks
  }

  ghost predicate Drained(cfg: Config, base: Base, now: Time, left: nat, db': Db) {
    DbOk(cfg, base, db') && |OverdueIds(db'.rows, now)| == left
  }

  /** Every tick takes 100 off the backlog until nothing is left: ceil(overdue / 100) ticks drain it. */
  lemma {:induction false} TicksDrainTheBacklog(cfg: Config, base: Base, db: Db, now: Time, batches: seq<seq<Id>>)
    requires DbOk(cfg, base, db) && Ticks(db, now, batches)
    ensures Drained(cfg, base, now, Remaining(|OverdueIds(db.rows, now)|, |batches|), AfterTicks(db, batches))
    decreases |batches|
  {
    if |batches| > 0 {
      TickExpiresTheBatch(cfg, base, db, now, batches[0]);
      TicksAfterOne(cfg, base, db.rows, now, batches, ExpireAll(db, batches[0]).0, ExpireAll(db, batches[0]).1);
    }
  }

  lemma {:induction false} TicksAfterOne(cfg: Config, base: Base, rows: Rows, now: Time, batches: seq<seq<Id>>, db1: Db, n: nat)
    requires |batches| > 0 && TickDone(cfg, base, rows, now, batches[0], db1, n) && Ticks(db1, now, batches[1..])
    ensures Drained(cfg, base, now, Remaining(|OverdueIds(rows, now)|, |batches|), AfterTicks(db1, batches[1..]))
    decreases |batches|, 0
  {
    TicksDrainTheBacklog(cfg, base, db1, now, batches[1..]);
  }

  /** After ceil(overdue / 100) ticks no reservation older than max(TTL, wall time) pins capacity. */
  lemma NothingStaysPinned(cfg: Config, base: Base, db: Db, now: Time, batches: seq<seq<Id>>, id: Id)
    requires DbOk(cfg, base, db) && Ticks(db, now, batches)
    requires |batches| >= (|OverdueIds(db.rows, now)| + EXPIRE_BATCH_SIZE - 1) / EXPIRE_BATCH_SIZE
    ensures var rows := AfterTicks(db, batches).rows;
      id in rows && rows[id].req.status == Reserved ==> now <= rows[id].req.createdAt + Max(cfg.ttl, cfg.wallTime)
  {
    TicksDrainTheBacklog(cfg, base, db, now, batches);
    NotPinned(cfg, base, AfterTicks(db, batches), now, id);
  }

  lemma NotPinned(cfg: Config, base: Base, db: Db, now: Time, id: Id)
    requires Drained(cfg, base, now, 0, db)
    ensures id in db.rows && db.rows[id].req.status == Reserved ==>
      now <= db.rows[id].req.createdAt + Max(cfg.ttl, cfg.wallTime)
  {
    assert OverdueIds(db.rows, now) == {};
    if id in db.rows && db.rows[id].req.status == Reserved {
      assert EntryOk(cfg, base.pools, id, db.rows[id]);
      EntryExpiry(cfg, base.pools, id, db.rows[id], now);
      assert id !in OverdueIds(db.rows, now);
    }
  }

  // ---- shown and admitted capacity ------------------------------------------------------------

  /** The available amount ListCapacity shows a customer for a pool, read without the cache. */
  function Shown(db: Db, customer: Customer, p: Id): int
    requires p in db.pools
  {
    var avail := db.pools[p].Available();
    var key := QuotaKey(customer, db.pools[p].kind);
    if key in db.quotas && db.quotas[key].Remaining() < avail then db.quotas[key].Remaining() else avail
  }

  /** What a customer can count on: the shown amount, and at most the default limit where it has no
      quota row yet. */
  function Promised(db: Db, customer: Customer, p: Id): int
    requires p in db.pools
  {
    var shown := Shown(db, customer, p);
    if QuotaKey(customer, db.pools[p].kind) in db.quotas || shown <= DEFAULT_QUOTA_LIMIT then shown
    else DEFAULT_QUOTA_LIMIT
  }

  lemma PromiseIsFit(db: Db, customer: Customer, l: Line)
    requires l.poolId in db.pools && db.pools[l.poolId].kind == l.kind && l.amount > 0
    ensures l.amount <= Promised(db, customer, l.poolId) <==> LineFits(db.pools, db.quotas, customer, l)
  {
  }

  /** Shown capacity is admissible capacity: with a free key and a free id, a plan of any number of
      lines is reserved iff every amount is within what is promised for its pool. */
  lemma ShownIsAdmitted(cfg: Config, base: Base, db: Db, id: Id, key: IdemKey, fp: Fingerprint, plan: seq<Line>, now: Time)
    requires DbOk(cfg, base, db) && PlanOk(base.pools, plan) && id !in db.rows && key !in db.idem
    ensures forall i :: 0 <= i < |plan| ==> plan[i].poolId in db.pools
    ensures ReserveTx(cfg, db, id, key, fp, plan, now).1 == Committed <==>
      forall i :: 0 <= i < |plan| ==> plan[i].amount <= Promised(db, key.customer, plan[i].poolId)
  {
    PlanIsSeparate(base, plan);
    LoopRefinesSimultaneousCheck(db.pools, db.quotas, key.customer, plan);
    PromisesFit(base, db, key.customer, plan);
  }

  /** The same for a whole create call: once its input is valid, its pair unused, its customer below the
      hold cap and its plan built, it returns a new request that is RESERVED iff every amount is within
      what is promised for its pool, and REJECTED otherwise. */
  lemma CallAdmitsWhatIsShown(cfg: Config, cat: Catalogue, base: Base, db: Db, id: Id, input: CreateInput, plan: seq<Line>, now: Time)
    requires Setup(cat, base) && DbOk(cfg, base, db) && id !in db.rows
    requires Validate(input).None? && CheckStore(db, input).None?
    requires cfg.maxActiveHolds > 0 ==> |ActiveRequests(db.rows, input.customer)| < cfg.maxActiveHolds
    requires PlannedAs(cat, input, Ok(plan))
    ensures forall i :: 0 <= i < |plan| ==> plan[i].poolId in db.pools
    ensures var (db', outcome) := CreateCall(cfg, db, id, input, Ok(plan), now);
      && outcome == Returned(id) && id in db'.rows
      && db'.rows[id].req.status ==
           if forall i :: 0 <= i < |plan| ==> plan[i].amount <= Promised(db, input.customer, plan[i].poolId)
           then Reserved else Rejected
  {
    PlanIsOk(cat, input, plan);
    ShownIsAdmitted(cfg, base, db, id, PairOf(input), FingerprintOf(input), plan, now);
    CallFollowsReserve(cfg, db, id, input, plan, now);
  }

  /** A create call that reaches its transaction answers with a request of its own, RESERVED iff the
      transaction committed. */
  lemma CallFollowsReserve(cfg: Config, db: Db, id: Id, input: CreateInput, plan: seq<Line>, now: Time)
    requires id !in db.rows && PairOf(input) !in db.idem && Validate(input).None?
    requires cfg.maxActiveHolds > 0 ==> |ActiveRequests(db.rows, input.customer)| < cfg.maxActiveHolds
    ensures var (db', outcome) := CreateCall(cfg, db, id, input, Ok(plan), now);
      && outcome == Returned(id) && id in db'.rows
      && db'.rows[id].req.status ==
           if ReserveTx(cfg, db, id, PairOf(input), FingerprintOf(input), plan, now).1 == Committed then Reserved else Rejected
  {
  }

  lemma PromisesFit(base: Base, db: Db, customer: Customer, plan: seq<Line>)
    requires PoolsOk(base, db) && PlanOk(base.pools, plan)
    ensures AllFit(db.pools, db.quotas, customer, plan) <==>
      forall i :: 0 <= i < |plan| ==> plan[i].amount <= Promised(db, customer, plan[i].poolId)
  {
    forall i | 0 <= i < |plan|
      ensures plan[i].amount <= Promised(db, customer, plan[i].poolId) <==> LineFits(db.pools, db.quotas, customer, plan[i])
    {
      assert PoolOk(base, db.rows, plan[i].poolId, db.pools[plan[i].poolId]);
      PromiseIsFit(db, customer, plan[i]);
    }
  }
}
