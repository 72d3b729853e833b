/** The reserve transaction: its sequential loop is the same as checking every line at once against
    the state before it, and it keeps the invariant. */
module Reserve {
  import opened Domain
  import opened Ledger
  import opened Invariant
  import opened Conservation

  predicate PoolFits(pools: Pools, l: Line) {
    l.poolId in pools && pools[l.poolId].effective - pools[l.poolId].dedicated - pools[l.poolId].reserved >= l.amount
  }

  /** A missing quota row stands for the default limit. */
  predicate QuotaFits(quotas: Quotas, customer: Customer, l: Line) {
    var q := QuotaRow(quotas, QuotaKey(customer, l.kind));
    q.limit - q.used >= l.amount
  }

  predicate LineFits(pools: Pools, quotas: Quotas, customer: Customer, l: Line) {
    PoolFits(pools, l) && QuotaFits(quotas, customer, l)
  }

  predicate AllFit(pools: Pools, quotas: Quotas, customer: Customer, plan: seq<Line>) {
    forall i :: 0 <= i < |plan| ==> LineFits(pools, quotas, customer, plan[i])
  }

  function ReasonFor(pools: Pools, l: Line): Reason {
    if PoolFits(pools, l) then QuotaExceeded else InsufficientCapacity
  }

  /** No two lines share a pool or a kind. */
  predicate Separate(plan: seq<Line>) {
    forall i, j :: 0 <= i < j < |plan| ==> plan[i].poolId != plan[j].poolId && plan[i].kind != plan[j].kind
  }

  function AfterReserve(pools: Pools, plan: seq<Line>): Pools {
    map p | p in pools :: pools[p].(reserved := pools[p].reserved + AmountOn(plan, p))
  }

  function PlanKeys(customer: Customer, plan: seq<Line>): set<QuotaKey> {
    set i | 0 <= i < |plan| :: QuotaKey(customer, plan[i].kind)
  }

  function ChargeOf(customer: Customer, plan: seq<Line>, key: QuotaKey): int {
    if key.customer == customer then KindAmount(plan, key.kind) else 0
  }

  function AfterCharge(quotas: Quotas, customer: Customer, plan: seq<Line>): Quotas {
    map key | key in quotas.Keys + PlanKeys(customer, plan) ::
      var q := QuotaRow(quotas, key);
      q.(used := q.used + ChargeOf(customer, plan, key))
  }

  // ---- sums of separate lines -----------------------------------------------------------------

  lemma {:induction false} AmountOnSeparate(plan: seq<Line>, p: Id)
    requires Separate(plan)
    ensures forall i :: 0 <= i < |plan| && plan[i].poolId == p ==> AmountOn(plan, p) == plan[i].amount
    ensures (forall i :: 0 <= i < |plan| ==> plan[i].poolId != p) ==> AmountOn(plan, p) == 0
  {
    if |plan| > 0 { AmountOnSeparate(plan[..|plan| - 1], p); }
  }

  lemma {:induction false} KindAmountSeparate(plan: seq<Line>, kind: Kind)
    requires Separate(plan)
    ensures forall i :: 0 <= i < |plan| && plan[i].kind == kind ==> KindAmount(plan, kind) == plan[i].amount
    ensures (forall i :: 0 <= i < |plan| ==> plan[i].kind != kind) ==> KindAmount(plan, kind) == 0
  {
    if |plan| > 0 { KindAmountSeparate(plan[..|plan| - 1], kind); }
  }

  // ---- the loop against the simultaneous check ------------------------------------------------

  /** When every line fits the state before the loop, the loop adds every amount exactly once and
      creates exactly the missing quota rows. */
  lemma {:induction false} LoopWhenAllFit(pools: Pools, quotas: Quotas, customer: Customer, plan: seq<Line>)
    requires Separate(plan) && AllFit(pools, quotas, customer, plan)
    ensures ReserveLoop(pools, quotas, customer, plan)
         == LoopResult.Fits(AfterReserve(pools, plan), AfterCharge(quotas, customer, plan))
  {
    if |plan| == 0 {
      assert PlanKeys(customer, plan) == {};
    } else {
      var n := |plan| - 1;
      var l := plan[n];
      var before := plan[..n];
      LoopWhenAllFit(pools, quotas, customer, before);
      AmountOnSeparate(before, l.poolId);
      KindAmountSeparate(before, l.kind);
      assert LineFits(pools, quotas, customer, l);
      var key := QuotaKey(customer, l.kind);
      ReserveOneMore(pools, before, l, plan);
      ChargeOneMore(quotas, customer, before, l, plan);
      assert QuotaRow(AfterCharge(quotas, customer, before), key) == QuotaRow(quotas, key);
    }
  }

  lemma ReserveOneMore(pools: Pools, before: seq<Line>, l: Line, plan: seq<Line>)
    requires plan == before + [l] && AmountOn(before, l.poolId) == 0 && PoolFits(pools, l)
    ensures TryReserve(AfterReserve(pools, before), l.poolId, l.amount) == Some(AfterReserve(pools, plan))
  {
    assert plan[..|plan| - 1] == before;
    var ps := AfterReserve(pools, before);
    assert ps[l.poolId := ps[l.poolId].(reserved := ps[l.poolId].reserved + l.amount)] == AfterReserve(pools, plan);
  }

  lemma PlanKeysOneMore(customer: Customer, before: seq<Line>, l: Line, plan: seq<Line>)
    requires plan == before + [l]
    ensures PlanKeys(customer, plan) == PlanKeys(customer, before) + {QuotaKey(customer, l.kind)}
  {
    var key := QuotaKey(customer, l.kind);
    forall k | k in PlanKeys(customer, plan) ensures k in PlanKeys(customer, before) + {key} {
      var i :| 0 <= i < |plan| && k == QuotaKey(customer, plan[i].kind);
      if i < |before| { assert plan[i] == before[i]; }
    }
    forall k | k in PlanKeys(customer, before) + {key} ensures k in PlanKeys(customer, plan) {
      if k != key {
        var i :| 0 <= i < |before| && k == QuotaKey(customer, before[i].kind);
        assert plan[i] == before[i];
      } else {
        assert plan[|before|] == l;
      }
    }
  }

  lemma ChargeOneMore(quotas: Quotas, customer: Customer, before: seq<Line>, l: Line, plan: seq<Line>)
    requires plan == before + [l] && KindAmount(before, l.kind) == 0
    requires QuotaFits(quotas, customer, l)
    ensures EnsureAndTryConsume(AfterCharge(quotas, customer, before), QuotaKey(customer, l.kind), l.amount)
         == (AfterCharge(quotas, customer, plan), true)
  {
    assert plan[..|plan| - 1] == before;
    var key := QuotaKey(customer, l.kind);
    PlanKeysOneMore(customer, before, l, plan);
    var qs := AfterCharge(quotas, customer, before);
    assert QuotaRow(qs, key) == QuotaRow(quotas, key);
    var q := QuotaRow(qs, key);
    assert qs[key := q.(used := q.used + l.amount)] == AfterCharge(quotas, customer, plan);
  }

  /** A loop that has stopped stays stopped. */
  lemma {:induction false} StoppedStays(pools: Pools, quotas: Quotas, customer: Customer, plan: seq<Line>, k: nat)
    requires k <= |plan| && ReserveLoop(pools, quotas, customer, plan[..k]).Stopped?
    ensures ReserveLoop(pools, quotas, customer, plan) == ReserveLoop(pools, quotas, customer, plan[..k])
  {
    if k < |plan| {
      var n := |plan| - 1;
      assert plan[..n][..k] == plan[..k];
      StoppedStays(pools, quotas, customer, plan[..n], k);
    } else {
      assert plan[..k] == plan;
    }
  }

  lemma LineStops(pools: Pools, quotas: Quotas, customer: Customer, before: seq<Line>, l: Line, k: nat)
    requires AmountOn(before, l.poolId) == 0 && KindAmount(before, l.kind) == 0
    requires !LineFits(pools, quotas, customer, l)
    ensures ReserveLine(AfterReserve(pools, before), AfterCharge(quotas, customer, before), customer, l, k)
         == Stopped(ReasonFor(pools, l), k)
  {
    var key := QuotaKey(customer, l.kind);
    assert QuotaRow(AfterCharge(quotas, customer, before), key) == QuotaRow(quotas, key);
  }

  lemma LoopStopsAtLast(pools: Pools, quotas: Quotas, customer: Customer, before: seq<Line>, l: Line, plan: seq<Line>)
    requires plan == before + [l] && Separate(plan)
    requires AllFit(pools, quotas, customer, before) && !LineFits(pools, quotas, customer, l)
    ensures ReserveLoop(pools, quotas, customer, plan) == Stopped(ReasonFor(pools, l), |before|)
  {
    assert plan[..|plan| - 1] == before;
    SeparateFromLast(before, l, plan);
    LoopWhenAllFit(pools, quotas, customer, before);
    LineStops(pools, quotas, customer, before, l, |before|);
  }

  lemma SeparateFromLast(before: seq<Line>, l: Line, plan: seq<Line>)
    requires plan == before + [l] && Separate(plan)
    ensures Separate(before) && AmountOn(before, l.poolId) == 0 && KindAmount(before, l.kind) == 0
  {
    forall i | 0 <= i < |before| ensures before[i].poolId != l.poolId && before[i].kind != l.kind {
      assert plan[i] == before[i] && plan[|before|] == l;
    }
    forall i, j | 0 <= i < j < |before|
      ensures before[i].poolId != before[j].poolId && before[i].kind != before[j].kind
    {
      assert plan[i] == before[i] && plan[j] == before[j];
    }
    AmountOnSeparate(before, l.poolId);
    KindAmountSeparate(before, l.kind);
  }

  lemma LoopAtFirstMisfit(pools: Pools, quotas: Quotas, customer: Customer, plan: seq<Line>, k: nat)
    requires Separate(plan) && k < |plan|
    requires AllFit(pools, quotas, customer, plan[..k]) && !LineFits(pools, quotas, customer, plan[k])
    ensures ReserveLoop(pools, quotas, customer, plan) == Stopped(ReasonFor(pools, plan[k]), k)
  {
    var upTo := plan[..k + 1];
    assert upTo == plan[..k] + [plan[k]];
    LoopStopsAtLast(pools, quotas, customer, plan[..k], plan[k], upTo);
    StoppedStays(pools, quotas, customer, plan, k + 1);
  }

  predicate FirstMisfit(pools: Pools, quotas: Quotas, customer: Customer, plan: seq<Line>, k: nat) {
    && k < |plan|
    && (forall i :: 0 <= i < k ==> LineFits(pools, quotas, customer, plan[i]))
    && !LineFits(pools, quotas, customer, plan[k])
  }

  lemma {:induction false} FindMisfit(pools: Pools, quotas: Quotas, customer: Customer, plan: seq<Line>) returns (k: nat)
    requires !AllFit(pools, quotas, customer, plan)
    ensures FirstMisfit(pools, quotas, customer, plan, k)
  {
    k := 0;
    while LineFits(pools, quotas, customer, plan[k])
      invariant k < |plan|
      invariant forall i :: 0 <= i < k ==> LineFits(pools, quotas, customer, plan[i])
      decreases |plan| - k
    {
      if k + 1 == |plan| {
        assert AllFit(pools, quotas, customer, plan);
      }
      k := k + 1;
    }
  }

  /** The sequential loop refines the simultaneous check: it succeeds iff every line fits both its pool
      and its quota in the state before it, and then adds each amount once; otherwise it stops at the
      first line that does not fit, with the reason of that line. */
  lemma LoopRefinesSimultaneousCheck(pools: Pools, quotas: Quotas, customer: Customer, plan: seq<Line>)
    requires Separate(plan)
    ensures var r := ReserveLoop(pools, quotas, customer, plan);
      if AllFit(pools, quotas, customer, plan) then
        r == LoopResult.Fits(AfterReserve(pools, plan), AfterCharge(quotas, customer, plan))
      else
        r.Stopped? && FirstMisfit(pools, quotas, customer, plan, r.at) && r.reason == ReasonFor(pools, plan[r.at])
  {
    if AllFit(pools, quotas, customer, plan) {
      LoopWhenAllFit(pools, quotas, customer, plan);
    } else {
      var k := FindMisfit(pools, quotas, customer, plan);
      LoopAtFirstMisfit(pools, quotas, customer, plan, k);
    }
  }

  // ---- independence of the line order ---------------------------------------------------------

  lemma FindSame(a: seq<Line>, b: seq<Line>, i: nat) returns (j: nat)
    requires multiset(a) == multiset(b) && i < |a|
    ensures j < |b| && b[j] == a[i]
  {
    assert a[i] in multiset(a);
    assert a[i] in multiset(b);
    j :| 0 <= j < |b| && b[j] == a[i];
  }

  lemma SameFit(pools: Pools, quotas: Quotas, customer: Customer, a: seq<Line>, b: seq<Line>)
    requires multiset(a) == multiset(b) && AllFit(pools, quotas, customer, a)
    ensures AllFit(pools, quotas, customer, b)
  {
    forall i | 0 <= i < |b| ensures LineFits(pools, quotas, customer, b[i]) {
      var j := FindSame(b, a, i);
      assert LineFits(pools, quotas, customer, a[j]);
    }
  }

  lemma SameAmount(a: seq<Line>, b: seq<Line>, p: Id)
    requires Separate(a) && Separate(b) && multiset(a) == multiset(b)
    ensures AmountOn(a, p) == AmountOn(b, p)
  {
    AmountOnSeparate(a, p);
    AmountOnSeparate(b, p);
    if i :| 0 <= i < |a| && a[i].poolId == p {
      var j := FindSame(a, b, i);
    } else if i :| 0 <= i < |b| && b[i].poolId == p {
      var j := FindSame(b, a, i);
    }
  }

  lemma SameKindAmount(a: seq<Line>, b: seq<Line>, kind: Kind)
    requires Separate(a) && Separate(b) && multiset(a) == multiset(b)
    ensures KindAmount(a, kind) == KindAmount(b, kind)
  {
    KindAmountSeparate(a, kind);
    KindAmountSeparate(b, kind);
    if i :| 0 <= i < |a| && a[i].kind == kind {
      var j := FindSame(a, b, i);
    } else if i :| 0 <= i < |b| && b[i].kind == kind {
      var j := FindSame(b, a, i);
    }
  }

  lemma SubsetOfPlanKeys(customer: Customer, a: seq<Line>, b: seq<Line>)
    requires multiset(a) == multiset(b)
    ensures PlanKeys(customer, a) <= PlanKeys(customer, b)
  {
    forall k | k in PlanKeys(customer, a) ensures k in PlanKeys(customer, b) {
      var i :| 0 <= i < |a| && k == QuotaKey(customer, a[i].kind);
      var j := FindSame(a, b, i);
      assert k == QuotaKey(customer, b[j].kind);
    }
  }

  lemma SameEffect(pools: Pools, quotas: Quotas, customer: Customer, a: seq<Line>, b: seq<Line>)
    requires Separate(a) && Separate(b) && multiset(a) == multiset(b)
    ensures AfterReserve(pools, a) == AfterReserve(pools, b)
    ensures AfterCharge(quotas, customer, a) == AfterCharge(quotas, customer, b)
  {
    forall p ensures AmountOn(a, p) == AmountOn(b, p) { SameAmount(a, b, p); }
    forall kind ensures KindAmount(a, kind) == KindAmount(b, kind) { SameKindAmount(a, b, kind); }
    SubsetOfPlanKeys(customer, a, b);
    SubsetOfPlanKeys(customer, b, a);
  }

  /** The order of the lines decides neither whether the reservation succeeds nor what it writes. */
  lemma LineOrderIsIrrelevant(pools: Pools, quotas: Quotas, customer: Customer, a: seq<Line>, b: seq<Line>)
    requires Separate(a) && Separate(b) && multiset(a) == multiset(b)
    ensures ReserveLoop(pools, quotas, customer, a).Fits? == ReserveLoop(pools, quotas, customer, b).Fits?
    ensures ReserveLoop(pools, quotas, customer, a).Fits? ==>
      ReserveLoop(pools, quotas, customer, a) == ReserveLoop(pools, quotas, customer, b)
  {
    LoopRefinesSimultaneousCheck(pools, quotas, customer, a);
    LoopRefinesSimultaneousCheck(pools, quotas, customer, b);
    if AllFit(pools, quotas, customer, a) {
      SameFit(pools, quotas, customer, a, b);
      SameEffect(pools, quotas, customer, a, b);
    } else if AllFit(pools, quotas, customer, b) {
      SameFit(pools, quotas, customer, b, a);
    }
  }

  // ---- the invariant --------------------------------------------------------------------------

  lemma PlanIsSeparate(base: Base, plan: seq<Line>)
    requires GoodBase(base) && PlanOk(base.pools, plan)
    ensures Separate(plan)
  {
  }

  lemma CreatedEntriesOk(cfg: Config, pools: Pools, id: Id, key: IdemKey, fp: Fingerprint, plan: seq<Line>, now: Time, reason: Reason)
    requires PlanOk(pools, plan)
    ensures EntryOk(cfg, pools, id, ReservedEntry(id, ReservedRequest(cfg, key, fp, now), plan))
    ensures EntryOk(cfg, pools, id, RejectedEntry(RejectedRequest(key, fp, now, reason), plan))
  {
    assert [EventReserved][..0] == [] && [EventRejected][..0] == [];
    assert ExpiryAt(cfg, now, 0) == now + cfg.ttl;
  }

  lemma InsertForward(db: Db, id: Id, e: Entry, db': Db)
    requires CanInsert(db, id, e.req)
    requires db'.rows == db.rows[id := e] && db'.idem == db.idem[KeyOf(e.req) := id]
    ensures Forward(db, db')
  {
  }

  lemma InsertKeepsIdem(db: Db, id: Id, e: Entry, db': Db)
    requires IdemOk(db) && CanInsert(db, id, e.req)
    requires db'.rows == db.rows[id := e] && db'.idem == db.idem[KeyOf(e.req) := id]
    ensures IdemOk(db')
  {
  }

  lemma InsertKeepsInvariant(cfg: Config, base: Base, db: Db, id: Id, e: Entry, db': Db)
    requires DbOk(cfg, base, db) && CanInsert(db, id, e.req)
    requires EntryOk(cfg, base.pools, id, e)
    requires db'.rows == db.rows[id := e] && db'.idem == db.idem[KeyOf(e.req) := id]
    requires CountersFollow(base, db, id, e, db')
    ensures DbOk(cfg, base, db')
  {
    InsertKeepsIdem(db, id, e, db');
    WriteKeepsInvariant(cfg, base, db, id, e, db');
  }

  lemma PoolTakes(pools: Pools, quotas: Quotas, customer: Customer, plan: seq<Line>, p: Id)
    requires Separate(plan) && AllFit(pools, quotas, customer, plan)
    requires p in pools && pools[p].reserved + pools[p].dedicated <= pools[p].effective
    ensures pools[p].reserved + AmountOn(plan, p) + pools[p].dedicated <= pools[p].effective
  {
    AmountOnSeparate(plan, p);
    if j :| 0 <= j < |plan| && plan[j].poolId == p {
      assert LineFits(pools, quotas, customer, plan[j]);
    }
  }

  lemma QuotaTakes(pools: Pools, quotas: Quotas, customer: Customer, plan: seq<Line>, key: QuotaKey)
    requires Separate(plan) && AllFit(pools, quotas, customer, plan)
    requires QuotaRow(quotas, key).used <= QuotaRow(quotas, key).limit
    ensures var q := QuotaRow(quotas, key);
      && QuotaRow(AfterCharge(quotas, customer, plan), key) == q.(used := q.used + ChargeOf(customer, plan, key))
      && q.used + ChargeOf(customer, plan, key) <= q.limit
  {
    KindAmountSeparate(plan, key.kind);
    if j :| 0 <= j < |plan| && plan[j].kind == key.kind {
      assert LineFits(pools, quotas, customer, plan[j]);
      assert key.customer == customer ==> key in PlanKeys(customer, plan);
    }
  }

  lemma ReservePool(cfg: Config, base: Base, db: Db, id: Id, e: Entry, db': Db, p: Id)
    requires PoolsOk(base, db) && QuotasOk(base, db) && id !in db.rows && p in db.pools
    requires EntryOk(cfg, base.pools, id, e) && e.req.status == Reserved
    requires Separate(e.lines) && AllFit(db.pools, db.quotas, e.req.customer, e.lines)
    requires db'.pools == AfterReserve(db.pools, e.lines)
    ensures PoolFollows(db, id, e, db', p)
  {
    CountersWithinLimits(base, db, p, QuotaKey("", ""));
    EntryShares(cfg, base.pools, id, e, p, "");
    PoolTakes(db.pools, db.quotas, e.req.customer, e.lines, p);
  }

  lemma ReserveQuota(cfg: Config, base: Base, db: Db, id: Id, e: Entry, db': Db, key: QuotaKey)
    requires PoolsOk(base, db) && QuotasOk(base, db) && id !in db.rows
    requires EntryOk(cfg, base.pools, id, e) && e.req.status == Reserved
    requires Separate(e.lines) && AllFit(db.pools, db.quotas, e.req.customer, e.lines)
    requires db'.quotas == AfterCharge(db.quotas, e.req.customer, e.lines)
    ensures QuotaFollows(base, db, id, e, db', key)
  {
    CountersWithinLimits(base, db, 0, key);
    EntryShares(cfg, base.pools, id, e, 0, key.kind);
    QuotaTakes(db.pools, db.quotas, e.req.customer, e.lines, key);
  }

  lemma ReserveCounters(cfg: Config, base: Base, db: Db, id: Id, e: Entry, db': Db)
    requires PoolsOk(base, db) && QuotasOk(base, db) && id !in db.rows
    requires EntryOk(cfg, base.pools, id, e) && e.req.status == Reserved
    requires Separate(e.lines) && AllFit(db.pools, db.quotas, e.req.customer, e.lines)
    requires db'.pools == AfterReserve(db.pools, e.lines)
    requires db'.quotas == AfterCharge(db.quotas, e.req.customer, e.lines)
    ensures CountersFollow(base, db, id, e, db')
  {
    forall p: Id ensures p in db.pools ==> PoolFollows(db, id, e, db', p) {
      if p in db.pools { ReservePool(cfg, base, db, id, e, db', p); }
    }
    forall key ensures QuotaFollows(base, db, id, e, db', key) {
      ReserveQuota(cfg, base, db, id, e, db', key);
    }
  }

  lemma ReserveKeepsInvariant(cfg: Config, base: Base, db: Db, id: Id, key: IdemKey, fp: Fingerprint, plan: seq<Line>, now: Time)
    requires DbOk(cfg, base, db) && PlanOk(base.pools, plan)
    ensures DbOk(cfg, base, ReserveTx(cfg, db, id, key, fp, plan, now).0)
  {
    var (db', outcome) := ReserveTx(cfg, db, id, key, fp, plan, now);
    if outcome == Committed {
      var e := ReservedEntry(id, ReservedRequest(cfg, key, fp, now), plan);
      PlanIsSeparate(base, plan);
      LoopRefinesSimultaneousCheck(db.pools, db.quotas, key.customer, plan);
      CreatedEntriesOk(cfg, base.pools, id, key, fp, plan, now, Conflict);
      ReserveCounters(cfg, base, db, id, e, db');
      InsertKeepsInvariant(cfg, base, db, id, e, db');
    }
  }

  lemma ReserveForward(cfg: Config, db: Db, id: Id, key: IdemKey, fp: Fingerprint, plan: seq<Line>, now: Time)
    ensures Forward(db, ReserveTx(cfg, db, id, key, fp, plan, now).0)
  {
    var (db', outcome) := ReserveTx(cfg, db, id, key, fp, plan, now);
    if outcome == Committed {
      InsertForward(db, id, ReservedEntry(id, ReservedRequest(cfg, key, fp, now), plan), db');
    }
  }

  lemma RejectCounters(base: Base, db: Db, id: Id, e: Entry, db': Db)
    requires PoolsOk(base, db) && QuotasOk(base, db) && id !in db.rows
    requires e.holds == [] && e.dedications == []
    requires db'.pools == db.pools && db'.quotas == db.quotas
    ensures CountersFollow(base, db, id, e, db')
  {
    forall p: Id ensures p in db.pools ==> PoolFollows(db, id, e, db', p) {
      CountersWithinLimits(base, db, p, QuotaKey("", ""));
    }
    forall key ensures QuotaFollows(base, db, id, e, db', key) {
      CountersWithinLimits(base, db, 0, key);
    }
  }

  lemma RejectKeepsInvariant(cfg: Config, base: Base, db: Db, id: Id, key: IdemKey, fp: Fingerprint, plan: seq<Line>, now: Time, reason: Reason)
    requires DbOk(cfg, base, db) && PlanOk(base.pools, plan)
    ensures DbOk(cfg, base, RejectTx(db, id, key, fp, plan, now, reason).0)
  {
    var (db', ok) := RejectTx(db, id, key, fp, plan, now, reason);
    if ok {
      var e := RejectedEntry(RejectedRequest(key, fp, now, reason), plan);
      CreatedEntriesOk(cfg, base.pools, id, key, fp, plan, now, reason);
      RejectCounters(base, db, id, e, db');
      InsertKeepsInvariant(cfg, base, db, id, e, db');
    }
  }

  lemma RejectForward(db: Db, id: Id, key: IdemKey, fp: Fingerprint, plan: seq<Line>, now: Time, reason: Reason)
    ensures Forward(db, RejectTx(db, id, key, fp, plan, now, reason).0)
  {
    var (db', ok) := RejectTx(db, id, key, fp, plan, now, reason);
    if ok {
      InsertForward(db, id, RejectedEntry(RejectedRequest(key, fp, now, reason), plan), db');
    }
  }
}
