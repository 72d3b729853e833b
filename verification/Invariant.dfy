/** What holds of the database in every reachable state: the counters are exactly what the hold and
    dedication rows say, and each request's rows agree with its status and its audit trail. */
module Invariant {
  import opened Domain
  import opened Ledger
  import opened Sums

  // ---- what one request contributes -----------------------------------------------------------

  function AmountOn(lines: seq<Line>, pool: Id): int {
    if |lines| == 0 then 0
    else
      var l := lines[|lines| - 1];
      AmountOn(lines[..|lines| - 1], pool) + if l.poolId == pool then l.amount else 0
  }

  function KindAmount(lines: seq<Line>, kind: Kind): int {
    if |lines| == 0 then 0
    else
      var l := lines[|lines| - 1];
      KindAmount(lines[..|lines| - 1], kind) + if l.kind == kind then l.amount else 0
  }

  /** The ACTIVE holds on a pool. */
  function HeldOn(holds: seq<Hold>, pool: Id): int {
    if |holds| == 0 then 0
    else
      var h := holds[|holds| - 1];
      HeldOn(holds[..|holds| - 1], pool) + if h.poolId == pool && h.status == Active then h.amount else 0
  }

  predicate Charges(pools: Pools, h: Hold, kind: Kind) {
    h.status in {Active, HoldStatus.Dedicated} && h.poolId in pools && pools[h.poolId].kind == kind
  }

  /** The ACTIVE and DEDICATED holds of a kind. */
  function ChargedOn(pools: Pools, holds: seq<Hold>, kind: Kind): int {
    if |holds| == 0 then 0
    else
      var h := holds[|holds| - 1];
      ChargedOn(pools, holds[..|holds| - 1], kind) + if Charges(pools, h, kind) then h.amount else 0
  }

  function DedicatedOn(ds: seq<Dedication>, pool: Id): int {
    if |ds| == 0 then 0
    else
      var d := ds[|ds| - 1];
      DedicatedOn(ds[..|ds| - 1], pool) + if d.poolId == pool then d.amount else 0
  }

  // ---- totals over all requests ---------------------------------------------------------------

  ghost function HeldMap(rows: Rows, pool: Id): map<Id, int> {
    map id | id in rows :: HeldOn(rows[id].holds, pool)
  }

  ghost function DedicatedMap(rows: Rows, pool: Id): map<Id, int> {
    map id | id in rows :: DedicatedOn(rows[id].dedications, pool)
  }

  ghost function ChargedBy(pools: Pools, e: Entry, key: QuotaKey): int {
    if e.req.customer == key.customer then ChargedOn(pools, e.holds, key.kind) else 0
  }

  ghost function ChargedMap(pools: Pools, rows: Rows, key: QuotaKey): map<Id, int> {
    map id | id in rows :: ChargedBy(pools, rows[id], key)
  }

  ghost function HeldTotal(rows: Rows, pool: Id): int { Sum(HeldMap(rows, pool)) }

  ghost function DedicatedTotal(rows: Rows, pool: Id): int { Sum(DedicatedMap(rows, pool)) }

  ghost function ChargedTotal(pools: Pools, rows: Rows, key: QuotaKey): int {
    Sum(ChargedMap(pools, rows, key))
  }

  // ---- the audit trail ------------------------------------------------------------------------

  datatype Trail = Start | At(status: Status) | Broken

  function Follow(t: Trail, ev: Event): Trail {
    match (t, ev)
    case (Start, EventReserved) => At(Reserved)
    case (Start, EventRejected) => At(Rejected)
    case (At(Reserved), EventExtended) => At(Reserved)
    case (At(Reserved), EventConfirmed) => At(Completed)
    case (At(Reserved), EventCancelled) => At(Cancelled)
    case (At(Reserved), EventExpired) => At(Expired)
    case _ => Broken
  }

  function Replay(events: seq<Event>): Trail {
    if |events| == 0 then Start else Follow(Replay(events[..|events| - 1]), events[|events| - 1])
  }

  function Extensions(events: seq<Event>): nat {
    if |events| == 0 then 0
    else Extensions(events[..|events| - 1]) + if events[|events| - 1] == EventExtended then 1 else 0
  }

  // ---- one request ----------------------------------------------------------------------------

  function Max(a: int, b: int): int { if a < b then b else a }

  /** One TTL for the creation and one for each extension. */
  function ExpiryAt(cfg: Config, created: Time, extensions: nat): Time {
    if extensions == 0 then created + cfg.ttl else ExpiryAt(cfg, created, extensions - 1) + cfg.ttl
  }

  lemma {:induction false} ExpiryClosedForm(cfg: Config, created: Time, extensions: nat)
    ensures ExpiryAt(cfg, created, extensions) == created + (1 + extensions) * cfg.ttl
  {
    if extensions > 0 {
      ExpiryClosedForm(cfg, created, extensions - 1);
      assert (1 + extensions) * cfg.ttl == extensions * cfg.ttl + cfg.ttl;
    }
  }

  predicate Ascending(lines: seq<Line>) {
    forall i, j :: 0 <= i < j < |lines| ==> lines[i].poolId < lines[j].poolId
  }

  /** A plan as buildReservationPlan makes it: one line per pool, sorted by pool id. */
  predicate PlanOk(pools: Pools, lines: seq<Line>) {
    && Ascending(lines)
    && forall i :: 0 <= i < |lines| ==>
      && lines[i].poolId in pools
      && lines[i].kind == pools[lines[i].poolId].kind
      && 0 < lines[i].amount <= MAX_AMOUNT
  }

  function HoldsFor(id: Id, e: Entry): seq<Hold> {
    match e.req.status
    case Reserved => HoldsOf(id, e.lines, Active)
    case Completed => HoldsOf(id, e.lines, HoldStatus.Dedicated)
    case Cancelled => HoldsOf(id, e.lines, Released)
    case Expired => HoldsOf(id, e.lines, Lapsed)
    case Rejected => []
  }

  /** Exactly one dedication per line of a completed request, none otherwise. */
  function DedicationsOf(id: Id, e: Entry): seq<Dedication> {
    if e.req.status == Completed then
      seq(|e.lines|, i requires 0 <= i < |e.lines| =>
        Dedication(HoldId(id, i), e.lines[i].poolId, e.lines[i].amount))
    else
      []
  }

  predicate ExpiryOk(cfg: Config, r: Request) {
    if r.status == Rejected then
      r.expiresAt == None && r.extensionCount == 0 && r.rejectReason != None
    else
      && r.rejectReason == None
      && r.extensionCount <= cfg.maxExtensions
      && r.expiresAt == Some(ExpiryAt(cfg, r.createdAt, r.extensionCount))
      && r.expiresAt.value <= r.createdAt + Max(cfg.ttl, cfg.wallTime)
  }

  predicate EntryOk(cfg: Config, pools: Pools, id: Id, e: Entry) {
    && PlanOk(pools, e.lines)
    && e.holds == HoldsFor(id, e)
    && e.dedications == DedicationsOf(id, e)
    && Replay(e.events) == At(e.req.status)
    && ExpiryOk(cfg, e.req)
    && e.req.extensionCount <= Extensions(e.events)
  }

  // ---- the whole database ---------------------------------------------------------------------

  /** The pools and quotas the service starts from. */
  datatype Base = Base(pools: Pools, quotas: Quotas)

  predicate KindsUnique(pools: Pools) {
    forall p, q :: p in pools && q in pools && pools[p].kind == pools[q].kind ==> p == q
  }

  predicate GoodBase(base: Base) {
    && (forall p :: p in base.pools ==>
         && base.pools[p].kind != ""
         && base.pools[p].reserved == 0
         && 0 <= base.pools[p].dedicated <= base.pools[p].effective <= MAX_INT64)
    && KindsUnique(base.pools)
    && (forall k :: k in base.quotas ==> 0 <= base.quotas[k].used <= base.quotas[k].limit <= MAX_INT64)
  }

  function BaseQuota(base: Base, key: QuotaKey): Quota { QuotaRow(base.quotas, key) }

  ghost predicate PoolOk(base: Base, rows: Rows, p: Id, pool: Pool)
    requires p in base.pools
  {
    && pool == base.pools[p].(reserved := pool.reserved, dedicated := pool.dedicated)
    && pool.reserved == HeldTotal(rows, p)
    && pool.dedicated == base.pools[p].dedicated + DedicatedTotal(rows, p)
    && pool.reserved + pool.dedicated <= pool.effective
  }

  /** A quota row exists for every key that is charged, with the limit it started with. */
  ghost predicate QuotaOk(base: Base, db: Db, key: QuotaKey) {
    var q := QuotaRow(db.quotas, key);
    && (key in base.quotas ==> key in db.quotas)
    && q.limit == BaseQuota(base, key).limit
    && q.used == BaseQuota(base, key).used + ChargedTotal(base.pools, db.rows, key)
    && q.used <= q.limit
  }

  /** The index binds exactly the pairs of the stored requests, each to its request. */
  predicate IndexOk(rows: Rows, idem: map<IdemKey, Id>) {
    && (forall k :: k in idem ==> idem[k] in rows && KeyOf(rows[idem[k]].req) == k)
    && (forall id :: id in rows ==> KeyOf(rows[id].req) in idem && idem[KeyOf(rows[id].req)] == id)
  }

  predicate IdemOk(db: Db) { IndexOk(db.rows, db.idem) }

  ghost predicate PoolsOk(base: Base, db: Db) {
    && db.pools.Keys == base.pools.Keys
    && forall p :: p in base.pools ==> PoolOk(base, db.rows, p, db.pools[p])
  }

  ghost predicate QuotasOk(base: Base, db: Db) {
    forall key :: QuotaOk(base, db, key)
  }

  predicate RowsOk(cfg: Config, base: Base, rows: Rows) {
    forall id :: id in rows ==> EntryOk(cfg, base.pools, id, rows[id])
  }

  ghost predicate DbOk(cfg: Config, base: Base, db: Db) {
    && GoodBase(base)
    && RowsOk(cfg, base, db.rows)
    && IdemOk(db)
    && PoolsOk(base, db)
    && QuotasOk(base, db)
  }

  function Init(base: Base): Db { Db(base.pools, base.quotas, map[], map[]) }

  lemma InitOk(cfg: Config, base: Base)
    requires GoodBase(base)
    ensures DbOk(cfg, base, Init(base))
  {
    var db := Init(base);
    forall p | p in base.pools ensures PoolOk(base, db.rows, p, db.pools[p]) {
      assert HeldMap(db.rows, p) == map[] && DedicatedMap(db.rows, p) == map[];
    }
    forall key ensures QuotaOk(base, db, key) {
      assert ChargedMap(base.pools, db.rows, key) == map[];
    }
  }

  // ---- sums over one request ------------------------------------------------------------------

  lemma {:induction false} AmountOnBounds(lines: seq<Line>, p: Id)
    requires forall i :: 0 <= i < |lines| ==> lines[i].amount > 0
    ensures AmountOn(lines, p) >= 0
    ensures forall i :: 0 <= i < |lines| && lines[i].poolId == p ==> lines[i].amount <= AmountOn(lines, p)
  {
    if |lines| > 0 { AmountOnBounds(lines[..|lines| - 1], p); }
  }

  lemma {:induction false} KindAmountBounds(lines: seq<Line>, kind: Kind)
    requires forall i :: 0 <= i < |lines| ==> lines[i].amount > 0
    ensures KindAmount(lines, kind) >= 0
  {
    if |lines| > 0 { KindAmountBounds(lines[..|lines| - 1], kind); }
  }

  lemma {:induction false} HeldOnHoldsOf(id: Id, lines: seq<Line>, st: HoldStatus, p: Id)
    ensures HeldOn(HoldsOf(id, lines, st), p) == if st == Active then AmountOn(lines, p) else 0
  {
    if |lines| > 0 {
      HeldOnHoldsOf(id, lines[..|lines| - 1], st, p);
      assert HoldsOf(id, lines, st)[..|lines| - 1] == HoldsOf(id, lines[..|lines| - 1], st);
    }
  }

  lemma {:induction false} ChargedOnHoldsOf(pools: Pools, id: Id, lines: seq<Line>, st: HoldStatus, kind: Kind)
    requires forall i :: 0 <= i < |lines| ==> lines[i].poolId in pools && pools[lines[i].poolId].kind == lines[i].kind
    ensures ChargedOn(pools, HoldsOf(id, lines, st), kind)
         == if st in {Active, HoldStatus.Dedicated} then KindAmount(lines, kind) else 0
  {
    if |lines| > 0 {
      ChargedOnHoldsOf(pools, id, lines[..|lines| - 1], st, kind);
      assert HoldsOf(id, lines, st)[..|lines| - 1] == HoldsOf(id, lines[..|lines| - 1], st);
    }
  }

  lemma {:induction false} DedicatedOnLines(id: Id, lines: seq<Line>, ds: seq<Dedication>, p: Id)
    requires |ds| == |lines|
    requires forall i :: 0 <= i < |ds| ==> ds[i].poolId == lines[i].poolId && ds[i].amount == lines[i].amount
    ensures DedicatedOn(ds, p) == AmountOn(lines, p)
  {
    if |lines| > 0 { DedicatedOnLines(id, lines[..|lines| - 1], ds[..|lines| - 1], p); }
  }

  /** What a well-formed request contributes to each counter, read off its status and lines. */
  lemma EntryShares(cfg: Config, pools: Pools, id: Id, e: Entry, p: Id, kind: Kind)
    requires EntryOk(cfg, pools, id, e)
    ensures HeldOn(e.holds, p) == if e.req.status == Reserved then AmountOn(e.lines, p) else 0
    ensures DedicatedOn(e.dedications, p) == if e.req.status == Completed then AmountOn(e.lines, p) else 0
    ensures ChargedOn(pools, e.holds, kind) == if e.req.status in {Reserved, Completed} then KindAmount(e.lines, kind) else 0
    ensures AmountOn(e.lines, p) >= 0 && KindAmount(e.lines, kind) >= 0
  {
    AmountOnBounds(e.lines, p);
    KindAmountBounds(e.lines, kind);
    if e.req.status != Rejected {
      var st := if e.req.status == Reserved then Active
                else if e.req.status == Completed then HoldStatus.Dedicated
                else if e.req.status == Cancelled then Released else Lapsed;
      HeldOnHoldsOf(id, e.lines, st, p);
      ChargedOnHoldsOf(pools, id, e.lines, st, kind);
    }
    if e.req.status == Completed { DedicatedOnLines(id, e.lines, e.dedications, p); }
  }

  // ---- totals when one row is written ---------------------------------------------------------

  function HeldIn(rows: Rows, id: Id, p: Id): int { if id in rows then HeldOn(rows[id].holds, p) else 0 }
  function DedicatedIn(rows: Rows, id: Id, p: Id): int { if id in rows then DedicatedOn(rows[id].dedications, p) else 0 }
  ghost function ChargedIn(pools: Pools, rows: Rows, id: Id, key: QuotaKey): int {
    if id in rows then ChargedBy(pools, rows[id], key) else 0
  }

  lemma WriteRow(pools: Pools, rows: Rows, id: Id, e: Entry, p: Id, key: QuotaKey)
    ensures HeldTotal(rows[id := e], p) == HeldTotal(rows, p) - HeldIn(rows, id, p) + HeldOn(e.holds, p)
    ensures DedicatedTotal(rows[id := e], p)
         == DedicatedTotal(rows, p) - DedicatedIn(rows, id, p) + DedicatedOn(e.dedications, p)
    ensures ChargedTotal(pools, rows[id := e], key)
         == ChargedTotal(pools, rows, key) - ChargedIn(pools, rows, id, key) + ChargedBy(pools, e, key)
  {
    var rows' := rows[id := e];
    assert HeldMap(rows', p) == HeldMap(rows, p)[id := HeldOn(e.holds, p)];
    assert DedicatedMap(rows', p) == DedicatedMap(rows, p)[id := DedicatedOn(e.dedications, p)];
    assert ChargedMap(pools, rows', key) == ChargedMap(pools, rows, key)[id := ChargedBy(pools, e, key)];
    if id in rows {
      SumUpdate(HeldMap(rows, p), id, HeldOn(e.holds, p));
      SumUpdate(DedicatedMap(rows, p), id, DedicatedOn(e.dedications, p));
      SumUpdate(ChargedMap(pools, rows, key), id, ChargedBy(pools, e, key));
    } else {
      SumInsert(HeldMap(rows, p), id, HeldOn(e.holds, p));
      SumInsert(DedicatedMap(rows, p), id, DedicatedOn(e.dedications, p));
      SumInsert(ChargedMap(pools, rows, key), id, ChargedBy(pools, e, key));
    }
  }

  /** Every request's share is at most the total, and totals are not negative. */
  lemma SharesWithinTotals(cfg: Config, base: Base, rows: Rows, p: Id, key: QuotaKey)
    requires RowsOk(cfg, base, rows)
    ensures HeldTotal(rows, p) >= 0 && DedicatedTotal(rows, p) >= 0 && ChargedTotal(base.pools, rows, key) >= 0
    ensures forall id :: id in rows ==> HeldOn(rows[id].holds, p) <= HeldTotal(rows, p)
    ensures forall id :: id in rows ==> ChargedBy(base.pools, rows[id], key) <= ChargedTotal(base.pools, rows, key)
  {
    forall id | id in rows
      ensures HeldOn(rows[id].holds, p) >= 0 && DedicatedOn(rows[id].dedications, p) >= 0
      ensures ChargedBy(base.pools, rows[id], key) >= 0
    {
      EntryShares(cfg, base.pools, id, rows[id], p, key.kind);
    }
    SumNonNegative(HeldMap(rows, p));
    SumNonNegative(DedicatedMap(rows, p));
    SumNonNegative(ChargedMap(base.pools, rows, key));
    forall id | id in rows ensures HeldOn(rows[id].holds, p) <= HeldTotal(rows, p) {
      assert HeldMap(rows, p)[id] == HeldOn(rows[id].holds, p);
    }
    forall id | id in rows ensures ChargedBy(base.pools, rows[id], key) <= ChargedTotal(base.pools, rows, key) {
      assert ChargedMap(base.pools, rows, key)[id] == ChargedBy(base.pools, rows[id], key);
    }
  }
}
