/** READ COMMITTED lets the list of holds a transaction starts from be overtaken before its first row
    lock is granted. The writes then run on a newer database with an older list. Create has no such
    list and Confirm aborts; releaseReserved discards the results of its hold and status updates, and
    this module says exactly when the database is still conserved, pools and quotas alike. */
module StaleList {
  import opened Domain
  import opened Ledger
  import opened Invariant
  import opened Settle
  import opened Conservation
  import opened Reserve

  /** A list of the request's holds read while it was RESERVED. */
  predicate ReadEarlier(db: Db, id: Id, hs: seq<Hold>) {
    id in db.rows && hs == HoldsOf(id, db.rows[id].lines, Active)
  }

  // ---- what the loops do when the request has moved on ----------------------------------------

  lemma {:induction false} NothingToMark(holds: seq<Hold>, hs: seq<Hold>, to: HoldStatus)
    requires forall i :: 0 <= i < |holds| ==> holds[i].status != Active
    ensures MarkAll(holds, hs, to) == holds
    ensures |hs| > 0 ==> !CanMarkAll(holds, hs, to)
  {
    if |hs| > 0 { NothingToMark(holds, hs[..|hs| - 1], to); }
  }

  predicate OnDistinctPools(hs: seq<Hold>) {
    forall i, j :: 0 <= i < j < |hs| ==> hs[i].poolId != hs[j].poolId
  }

  lemma {:induction false} ReleaseAllElsewhere(pools: Pools, hs: seq<Hold>, p: Id)
    requires p in pools && forall i :: 0 <= i < |hs| ==> hs[i].poolId != p
    ensures p in ReleaseAll(pools, hs) && ReleaseAll(pools, hs)[p] == pools[p]
  {
    if |hs| > 0 { ReleaseAllElsewhere(pools, hs[..|hs| - 1], p); }
  }

  lemma {:induction false} ReleaseAllKeys(pools: Pools, hs: seq<Hold>)
    ensures ReleaseAll(pools, hs).Keys == pools.Keys
  {
    if |hs| > 0 { ReleaseAllKeys(pools, hs[..|hs| - 1]); }
  }

  lemma {:induction false} ReleaseAllAt(pools: Pools, hs: seq<Hold>, i: nat)
    requires OnDistinctPools(hs) && i < |hs| && hs[i].poolId in pools
    ensures hs[i].poolId in ReleaseAll(pools, hs)
    ensures ReleaseAll(pools, hs)[hs[i].poolId] == ReleaseReserved(pools, hs[i].poolId, hs[i].amount)[hs[i].poolId]
  {
    var front := hs[..|hs| - 1];
    if i < |front| {
      ReleaseAllAt(pools, front, i);
    } else {
      ReleaseAllElsewhere(pools, front, hs[i].poolId);
    }
  }

  /** On distinct pools each guard is decided by the state before the loop. */
  lemma ReleaseAllByPool(pools: Pools, hs: seq<Hold>)
    requires OnDistinctPools(hs)
    ensures ReleaseAll(pools, hs).Keys == pools.Keys
    ensures forall i :: 0 <= i < |hs| && hs[i].poolId in pools ==>
      ReleaseAll(pools, hs)[hs[i].poolId] == ReleaseReserved(pools, hs[i].poolId, hs[i].amount)[hs[i].poolId]
    ensures forall p :: p in pools && (forall i :: 0 <= i < |hs| ==> hs[i].poolId != p) ==>
      ReleaseAll(pools, hs)[p] == pools[p]
  {
    ReleaseAllKeys(pools, hs);
    forall i | 0 <= i < |hs| && hs[i].poolId in pools
      ensures ReleaseAll(pools, hs)[hs[i].poolId] == ReleaseReserved(pools, hs[i].poolId, hs[i].amount)[hs[i].poolId]
    {
      ReleaseAllAt(pools, hs, i);
    }
    forall p | p in pools && (forall i :: 0 <= i < |hs| ==> hs[i].poolId != p) ensures ReleaseAll(pools, hs)[p] == pools[p] {
      ReleaseAllElsewhere(pools, hs, p);
    }
  }

  /** The pools are left as they were iff every guard fails. */
  lemma ReleaseAllIdle(pools: Pools, hs: seq<Hold>)
    requires OnDistinctPools(hs)
    requires forall i :: 0 <= i < |hs| ==> hs[i].poolId in pools && hs[i].amount > 0
    ensures ReleaseAll(pools, hs) == pools <==> forall i :: 0 <= i < |hs| ==> pools[hs[i].poolId].reserved < hs[i].amount
  {
    ReleaseAllByPool(pools, hs);
    if forall i :: 0 <= i < |hs| ==> pools[hs[i].poolId].reserved < hs[i].amount {
      forall p | p in pools ensures ReleaseAll(pools, hs)[p] == pools[p] {
        if i :| 0 <= i < |hs| && hs[i].poolId == p {
          assert ReleaseAll(pools, hs)[p] == ReleaseReserved(pools, p, hs[i].amount)[p];
        }
      }
    } else {
      var i :| 0 <= i < |hs| && pools[hs[i].poolId].reserved >= hs[i].amount;
      assert ReleaseAll(pools, hs)[hs[i].poolId].reserved == pools[hs[i].poolId].reserved - hs[i].amount;
    }
  }

  lemma MovedOnRowIsKept(cfg: Config, pools: Pools, id: Id, e: Entry, hs: seq<Hold>, to: HoldStatus)
    requires EntryOk(cfg, pools, id, e) && e.req.status != Reserved && hs == HoldsOf(id, e.lines, Active)
    ensures MarkAll(e.holds, hs, to) == e.holds
    ensures |hs| > 0 ==> !CanMarkAll(e.holds, hs, to)
    ensures OnDistinctPools(hs) && forall i :: 0 <= i < |hs| ==> hs[i].poolId in pools && hs[i].amount > 0
  {
    NothingToMark(e.holds, hs, to);
  }

  // ---- the refunds of an overtaken list --------------------------------------------------------

  /** The refund of the hold goes to this quota row. */
  predicate Refunds(customer: Customer, kinds: map<Id, Kind>, h: Hold, key: QuotaKey) {
    h.poolId in kinds && kinds[h.poolId] != "" && key == QuotaKey(customer, kinds[h.poolId])
  }

  predicate SomeRefunds(customer: Customer, kinds: map<Id, Kind>, hs: seq<Hold>, key: QuotaKey) {
    exists i :: 0 <= i < |hs| && Refunds(customer, kinds, hs[i], key)
  }

  /** A quota row falls strictly exactly if some hold refunds it and something is used. */
  lemma {:induction false} RefundLowers(quotas: Quotas, customer: Customer, kinds: map<Id, Kind>, hs: seq<Hold>, key: QuotaKey)
    requires forall i :: 0 <= i < |hs| ==> hs[i].amount > 0
    requires QuotaRow(quotas, key).used >= 0
    ensures RefundAll(quotas, customer, kinds, hs).Keys == quotas.Keys
    ensures var q, q' := QuotaRow(quotas, key), QuotaRow(RefundAll(quotas, customer, kinds, hs), key);
      && q'.limit == q.limit && 0 <= q'.used <= q.used
      && (q'.used < q.used <==> q.used > 0 && SomeRefunds(customer, kinds, hs, key))
  {
    if |hs| > 0 {
      var front, h := hs[..|hs| - 1], hs[|hs| - 1];
      RefundLowers(quotas, customer, kinds, front, key);
      if SomeRefunds(customer, kinds, hs, key) && !Refunds(customer, kinds, h, key) {
        var i :| 0 <= i < |hs| && Refunds(customer, kinds, hs[i], key);
        assert Refunds(customer, kinds, front[i], key);
      }
      if i :| 0 <= i < |front| && Refunds(customer, kinds, front[i], key) {
        assert Refunds(customer, kinds, hs[i], key);
      }
    }
  }

  /** No row that is refunded shows any use. */
  predicate NothingToRefund(quotas: Quotas, customer: Customer, lines: seq<Line>) {
    forall i :: 0 <= i < |lines| ==> QuotaRow(quotas, QuotaKey(customer, lines[i].kind)).used == 0
  }

  predicate GuardsRefuse(pools: Pools, hs: seq<Hold>) {
    forall i :: 0 <= i < |hs| ==> hs[i].poolId in pools && pools[hs[i].poolId].reserved < hs[i].amount
  }

  /** With the pools conserved before, they are conserved after iff they have not changed. */
  lemma ConservedIffUnchanged(base: Base, db: Db, db': Db)
    requires PoolsOk(base, db) && db'.rows == db.rows
    requires db'.pools.Keys == db.pools.Keys
    ensures PoolsOk(base, db') <==> db'.pools == db.pools
  {
    if PoolsOk(base, db') {
      forall p | p in db.pools ensures db'.pools[p] == db.pools[p] {
        assert PoolOk(base, db.rows, p, db.pools[p]) && PoolOk(base, db'.rows, p, db'.pools[p]);
      }
    }
  }

  /** The quotas are conserved iff no row's use has changed. */
  lemma QuotasConservedIff(base: Base, db: Db, db': Db)
    requires QuotasOk(base, db) && db'.rows == db.rows && db'.quotas.Keys == db.quotas.Keys
    requires forall key :: QuotaRow(db'.quotas, key).limit == QuotaRow(db.quotas, key).limit
    ensures QuotasOk(base, db') <==> forall key :: QuotaRow(db'.quotas, key).used == QuotaRow(db.quotas, key).used
  {
    if QuotasOk(base, db') {
      forall key ensures QuotaRow(db'.quotas, key).used == QuotaRow(db.quotas, key).used {
        assert QuotaOk(base, db, key) && QuotaOk(base, db', key);
      }
    }
    if forall key :: QuotaRow(db'.quotas, key).used == QuotaRow(db.quotas, key).used {
      forall key ensures QuotaOk(base, db', key) {
        assert QuotaOk(base, db, key) && QuotaRow(db'.quotas, key) == QuotaRow(db.quotas, key);
      }
    }
  }

  /** The rows a list refunds are those of the lines' kinds. */
  lemma RefundedKinds(pools: Pools, customer: Customer, id: Id, lines: seq<Line>, i: nat)
    requires PlanOk(pools, lines) && (forall p :: p in pools ==> pools[p].kind != "") && i < |lines|
    ensures Refunds(customer, KindByPool(lines), HoldsOf(id, lines, Active)[i], QuotaKey(customer, lines[i].kind))
  {
    KindByPoolHits(lines, i);
  }

  lemma OvertakenQuotas(base: Base, db: Db, id: Id, hs: seq<Hold>, db': Db)
    requires GoodBase(base) && QuotasOk(base, db) && ReadEarlier(db, id, hs) && PlanOk(base.pools, db.rows[id].lines)
    requires forall key :: QuotaRow(db.quotas, key).used >= 0
    requires db'.rows == db.rows
    requires db'.quotas == RefundAll(db.quotas, db.rows[id].req.customer, KindByPool(db.rows[id].lines), hs)
    ensures QuotasOk(base, db') <==> NothingToRefund(db.quotas, db.rows[id].req.customer, db.rows[id].lines)
  {
    var lines, customer := db.rows[id].lines, db.rows[id].req.customer;
    var kinds := KindByPool(lines);
    forall key
      ensures db'.quotas.Keys == db.quotas.Keys
      ensures QuotaRow(db'.quotas, key).limit == QuotaRow(db.quotas, key).limit
      ensures QuotaRow(db'.quotas, key).used == QuotaRow(db.quotas, key).used
          <==> !(QuotaRow(db.quotas, key).used > 0 && SomeRefunds(customer, kinds, hs, key))
    {
      RefundLowers(db.quotas, customer, kinds, hs, key);
    }
    QuotasConservedIff(base, db, db');
    forall i | 0 <= i < |lines|
      ensures Refunds(customer, kinds, hs[i], QuotaKey(customer, lines[i].kind))
      ensures SomeRefunds(customer, kinds, hs, QuotaKey(customer, lines[i].kind))
    {
      RefundedKinds(base.pools, customer, id, lines, i);
    }
    if NothingToRefund(db.quotas, customer, lines) {
      forall key ensures QuotaRow(db.quotas, key).used > 0 ==> !SomeRefunds(customer, kinds, hs, key) {
        if i :| 0 <= i < |hs| && Refunds(customer, kinds, hs[i], key) {
          assert key == QuotaKey(customer, lines[i].kind);
        }
      }
    }
  }

  lemma UsedIsNotNegative(cfg: Config, base: Base, db: Db)
    requires DbOk(cfg, base, db)
    ensures forall key :: QuotaRow(db.quotas, key).used >= 0
  {
    forall key ensures QuotaRow(db.quotas, key).used >= 0 {
      assert QuotaOk(base, db, key);
      SharesWithinTotals(cfg, base, db.rows, 0, key);
      assert BaseQuota(base, key).used >= 0;
    }
  }

  lemma OvertakenRelease(cfg: Config, base: Base, db: Db, id: Id, hs: seq<Hold>, terminal: Status, db': Db)
    requires DbOk(cfg, base, db) && ReadEarlier(db, id, hs) && terminal in {Cancelled, Expired}
    requires db.rows[id].req.status != Reserved
    requires db' == ReleaseWith(db, id, db.rows[id].req.customer, hs, terminal)
    ensures db'.rows == db.rows && db'.idem == db.idem
    ensures PoolsOk(base, db') <==> GuardsRefuse(db.pools, hs)
    ensures QuotasOk(base, db') <==> NothingToRefund(db.quotas, db.rows[id].req.customer, db.rows[id].lines)
  {
    var e := db.rows[id];
    assert EntryOk(cfg, base.pools, id, e);
    MovedOnRowIsKept(cfg, base.pools, id, e, hs, HoldTarget(terminal));
    OvertakenRows(db, id, hs, terminal, db');
    OvertakenPools(base, db, hs, db');
    UsedIsNotNegative(cfg, base, db);
    OvertakenQuotas(base, db, id, hs, db');
  }

  lemma OvertakenRows(db: Db, id: Id, hs: seq<Hold>, terminal: Status, db': Db)
    requires id in db.rows && db.rows[id].req.status != Reserved
    requires MarkAll(db.rows[id].holds, hs, HoldTarget(terminal)) == db.rows[id].holds
    requires db' == ReleaseWith(db, id, db.rows[id].req.customer, hs, terminal)
    ensures db'.rows == db.rows
  {
    assert db.rows[id := db.rows[id]] == db.rows;
  }

  lemma OvertakenPools(base: Base, db: Db, hs: seq<Hold>, db': Db)
    requires PoolsOk(base, db) && db'.rows == db.rows && db'.pools == ReleaseAll(db.pools, hs)
    requires OnDistinctPools(hs)
    requires forall i :: 0 <= i < |hs| ==> hs[i].poolId in base.pools && hs[i].amount > 0
    ensures PoolsOk(base, db') <==> GuardsRefuse(db.pools, hs)
  {
    ReleaseAllByPool(db.pools, hs);
    ReleaseAllIdle(db.pools, hs);
    ConservedIffUnchanged(base, db, db');
  }

  lemma TimelyRelease(cfg: Config, base: Base, db: Db, id: Id, hs: seq<Hold>, terminal: Status)
    requires DbOk(cfg, base, db) && ReadEarlier(db, id, hs) && terminal in {Cancelled, Expired}
    requires db.rows[id].req.status == Reserved
    ensures DbOk(cfg, base, ReleaseWith(db, id, db.rows[id].req.customer, hs, terminal))
  {
    ListedHolds(cfg, base, db, id);
    ReleaseKeepsInvariant(cfg, base, db, id, db.rows[id].req.customer, terminal);
  }

  lemma SameRowsOk(cfg: Config, base: Base, db: Db, db': Db)
    requires DbOk(cfg, base, db) && db'.rows == db.rows && db'.idem == db.idem
    ensures DbOk(cfg, base, db') <==> PoolsOk(base, db') && QuotasOk(base, db')
  {
  }

  /** Exactly when a release that runs on an overtaken list keeps the invariant: the request is still
      RESERVED, or on every listed pool the guard reserved_amount >= amount refuses and no quota row it
      refunds shows any use. */
  lemma StaleReleaseConserves(cfg: Config, base: Base, db: Db, id: Id, hs: seq<Hold>, terminal: Status)
    requires DbOk(cfg, base, db) && ReadEarlier(db, id, hs) && terminal in {Cancelled, Expired}
    ensures DbOk(cfg, base, ReleaseWith(db, id, db.rows[id].req.customer, hs, terminal)) <==>
      (db.rows[id].req.status == Reserved ||
       (GuardsRefuse(db.pools, hs) && NothingToRefund(db.quotas, db.rows[id].req.customer, db.rows[id].lines)))
  {
    var db' := ReleaseWith(db, id, db.rows[id].req.customer, hs, terminal);
    if db.rows[id].req.status == Reserved {
      TimelyRelease(cfg, base, db, id, hs, terminal);
    } else {
      OvertakenRelease(cfg, base, db, id, hs, terminal, db');
      SameRowsOk(cfg, base, db, db');
    }
  }

  // ---- a cancel overtaken by a confirm ----------------------------------------------------------

  lemma CompletedIsCharged(cfg: Config, base: Base, db: Db, id: Id, i: nat)
    requires DbOk(cfg, base, db) && id in db.rows && db.rows[id].req.status == Completed && i < |db.rows[id].lines|
    ensures QuotaRow(db.quotas, QuotaKey(db.rows[id].req.customer, db.rows[id].lines[i].kind)).used
         >= db.rows[id].lines[i].amount > 0
  {
    var e := db.rows[id];
    assert EntryOk(cfg, base.pools, id, e);
    PlanIsSeparate(base, e.lines);
    CompletedCharges(base.pools, id, e.lines, i);
    KindIsChargeable(cfg, base, db, id, e.lines[i].kind);
  }

  lemma CompletedCharges(pools: Pools, id: Id, lines: seq<Line>, i: nat)
    requires PlanOk(pools, lines) && Separate(lines) && i < |lines|
    ensures ChargedOn(pools, HoldsOf(id, lines, HoldStatus.Dedicated), lines[i].kind) == lines[i].amount > 0
  {
    KindAmountSeparate(lines, lines[i].kind);
    ChargedOnHoldsOf(pools, id, lines, HoldStatus.Dedicated, lines[i].kind);
  }

  /** A release on a list that a confirm has overtaken always gives back quota that the COMPLETED request
      still uses, whatever the pools' guards do. */
  lemma CompletedIsRefunded(cfg: Config, base: Base, db: Db, id: Id, hs: seq<Hold>, terminal: Status)
    requires DbOk(cfg, base, db) && ReadEarlier(db, id, hs) && terminal in {Cancelled, Expired}
    requires db.rows[id].req.status == Completed && |hs| > 0
    ensures !QuotasOk(base, ReleaseWith(db, id, db.rows[id].req.customer, hs, terminal))
  {
    OvertakenRelease(cfg, base, db, id, hs, terminal, ReleaseWith(db, id, db.rows[id].req.customer, hs, terminal));
    CompletedIsCharged(cfg, base, db, id, 0);
  }

  lemma ConfirmedFacts(cfg: Config, base: Base, db: Db, id: Id, once: Db)
    requires DbOk(cfg, base, db) && id in db.rows && db.rows[id].req.status == Reserved
    requires once == ConfirmTx(db, id).0
    ensures DbOk(cfg, base, once) && ReadEarlier(once, id, Listed(db, id))
    ensures once.quotas == db.quotas && once.rows == db.rows[id := ConfirmedEntry(id, db.rows[id])]
    ensures |Listed(db, id)| == |db.rows[id].lines|
  {
    ListedHolds(cfg, base, db, id);
    ConfirmExact(cfg, base, db, id);
    ConfirmKeepsInvariant(cfg, base, db, id);
  }

  lemma ListedIsChargeable(cfg: Config, base: Base, db: Db, id: Id)
    requires DbOk(cfg, base, db) && id in db.rows && db.rows[id].req.status == Reserved
    ensures Chargeable(base.pools, db.quotas, db.rows[id].req.customer, KindByPool(db.rows[id].lines), Listed(db, id))
  {
    ListedHolds(cfg, base, db, id);
    assert EntryOk(cfg, base.pools, id, db.rows[id]);
    ReservedIsCovered(cfg, base, db, id);
  }

  /** The request stays COMPLETED, its whole charge is given back, and the quota ledger is wrong. */
  ghost predicate RefundedAnyway(base: Base, db: Db, id: Id, after: Db)
    requires id in db.rows
  {
    && after.rows == db.rows[id := ConfirmedEntry(id, db.rows[id])]
    && AfterRefund(base.pools, db.quotas, db.rows[id].req.customer, Listed(db, id), after.quotas)
    && !QuotasOk(base, after)
  }

  /** The race of a confirm with a cancel or an expiry, on any database: the list is read, the confirm
      commits, and the release then runs on that list. The request stays COMPLETED and its whole charge
      is given back, so the quota ledger is broken. */
  lemma ConfirmThenStaleRelease(cfg: Config, base: Base, db: Db, id: Id, terminal: Status, once: Db, after: Db)
    requires DbOk(cfg, base, db) && id in db.rows && db.rows[id].req.status == Reserved && |db.rows[id].lines| > 0
    requires terminal in {Cancelled, Expired} && once == ConfirmTx(db, id).0
    requires after == ReleaseWith(once, id, db.rows[id].req.customer, Listed(db, id), terminal)
    ensures RefundedAnyway(base, db, id, after)
  {
    ConfirmedFacts(cfg, base, db, id, once);
    OvertakenRelease(cfg, base, once, id, Listed(db, id), terminal, after);
    CompletedIsRefunded(cfg, base, once, id, Listed(db, id), terminal);
    ListedIsChargeable(cfg, base, db, id);
    RefundAllExact(base.pools, db.quotas, db.rows[id].req.customer, KindByPool(db.rows[id].lines), Listed(db, id));
  }

  /** Confirm conserves everything on any list read earlier: it commits only when nothing was overtaken. */
  lemma StaleConfirmIsSafe(cfg: Config, base: Base, db: Db, id: Id, hs: seq<Hold>)
    requires DbOk(cfg, base, db) && ReadEarlier(db, id, hs)
    ensures DbOk(cfg, base, ConfirmWith(db, id, hs).0)
    ensures ConfirmWith(db, id, hs).1 <==> db.rows[id].req.status == Reserved
  {
    if db.rows[id].req.status == Reserved {
      ListedHolds(cfg, base, db, id);
      ConfirmExact(cfg, base, db, id);
      ConfirmKeepsInvariant(cfg, base, db, id);
    }
  }

  /** Release as the design intends it: a hold update that touches no row rolls the transaction back.
      The service does not do this. */
  function ReleaseOrAbort(db: Db, id: Id, customer: Customer, hs: seq<Hold>, terminal: Status): Db {
    if id in db.rows && CanMarkAll(db.rows[id].holds, hs, HoldTarget(terminal)) then
      ReleaseWith(db, id, customer, hs, terminal)
    else
      db
  }

  lemma AbortingReleaseIsSafe(cfg: Config, base: Base, db: Db, id: Id, hs: seq<Hold>, terminal: Status)
    requires DbOk(cfg, base, db) && ReadEarlier(db, id, hs) && terminal in {Cancelled, Expired}
    ensures DbOk(cfg, base, ReleaseOrAbort(db, id, db.rows[id].req.customer, hs, terminal))
    ensures db.rows[id].req.status == Reserved ==>
      ReleaseOrAbort(db, id, db.rows[id].req.customer, hs, terminal) == ReleaseTx(db, id, db.rows[id].req.customer, terminal)
  {
    var e := db.rows[id];
    if e.req.status == Reserved {
      ListedHolds(cfg, base, db, id);
      assert CanMarkAll(e.holds, hs, HoldTarget(terminal)) by {
        assert EntryOk(cfg, base.pools, id, e);
        MarkListed(id, e.lines, HoldTarget(terminal));
      }
      TimelyReleaseOrAbort(db, id, hs, terminal);
      ReleaseKeepsInvariant(cfg, base, db, id, e.req.customer, terminal);
    } else {
      assert EntryOk(cfg, base.pools, id, e);
      OvertakenReleaseAborts(cfg, base.pools, db, id, hs, terminal);
    }
  }

  lemma TimelyReleaseOrAbort(db: Db, id: Id, hs: seq<Hold>, terminal: Status)
    requires id in db.rows && hs == Listed(db, id)
    ensures ReleaseOrAbort(db, id, db.rows[id].req.customer, hs, terminal)
         in {db, ReleaseTx(db, id, db.rows[id].req.customer, terminal)}
    ensures CanMarkAll(db.rows[id].holds, hs, HoldTarget(terminal)) ==>
      ReleaseOrAbort(db, id, db.rows[id].req.customer, hs, terminal) == ReleaseTx(db, id, db.rows[id].req.customer, terminal)
  {
  }

  lemma OvertakenReleaseAborts(cfg: Config, pools: Pools, db: Db, id: Id, hs: seq<Hold>, terminal: Status)
    requires id in db.rows && EntryOk(cfg, pools, id, db.rows[id]) && db.rows[id].req.status != Reserved
    requires hs == HoldsOf(id, db.rows[id].lines, Active)
    ensures ReleaseOrAbort(db, id, db.rows[id].req.customer, hs, terminal) == db
  {
    MovedOnRowIsKept(cfg, pools, id, db.rows[id], hs, HoldTarget(terminal));
    assert |hs| == 0 ==> db.rows[id := db.rows[id]] == db.rows;
  }

  // ---- concrete runs that lose capacity and quota -------------------------------------------------

  const POOL: Pool := Pool("cpu-cores", 10, 0, 0, 1)
  const LINE: Line := Line(0, "cpu-cores", 5)
  const BODY: Fingerprint := LinesBody([LineInput("cpu-cores", 5)])

  lemma OneLineReserves(cfg: Config, db: Db, id: Id, key: IdemKey)
    requires 0 in db.pools && db.pools[0].effective == 10 && db.pools[0].dedicated == 0 && db.pools[0].reserved <= 5
    requires QuotaKey(key.customer, "cpu-cores") !in db.quotas
    requires id !in db.rows && key !in db.idem
    ensures ReserveTx(cfg, db, id, key, BODY, [LINE], 0).1 == Committed
    ensures var db' := ReserveTx(cfg, db, id, key, BODY, [LINE], 0).0;
      && db'.pools == db.pools[0 := db.pools[0].(reserved := db.pools[0].reserved + 5)]
      && db'.quotas == db.quotas[QuotaKey(key.customer, "cpu-cores") := Quota(DEFAULT_QUOTA_LIMIT, 5)]
      && db'.idem.Keys == db.idem.Keys + {key}
      && db'.rows == db.rows[id := ReservedEntry(id, ReservedRequest(cfg, key, BODY, 0), [LINE])]
  {
    assert [LINE][..0] == [];
    assert ReserveLoop(db.pools, db.quotas, key.customer, []) == LoopResult.Fits(db.pools, db.quotas);
    assert ReserveLoop(db.pools, db.quotas, key.customer, [LINE])
        == ReserveLine(db.pools, db.quotas, key.customer, LINE, 0);
  }

  const BASE: Base := Base(map[0 := POOL], map[])

  function OneReservation(cfg: Config): Db {
    ReserveTx(cfg, Init(BASE), 1, IdemKey("a", "x"), BODY, [LINE], 0).0
  }

  function TwoReservations(cfg: Config): Db {
    ReserveTx(cfg, OneReservation(cfg), 2, IdemKey("b", "y"), BODY, [LINE], 0).0
  }

  lemma OneReservationOk(cfg: Config)
    ensures DbOk(cfg, BASE, OneReservation(cfg))
  {
    assert PlanOk(BASE.pools, [LINE]);
    InitOk(cfg, BASE);
    ReserveKeepsInvariant(cfg, BASE, Init(BASE), 1, IdemKey("a", "x"), BODY, [LINE], 0);
  }

  lemma OneReservationContent(cfg: Config)
    ensures var db := OneReservation(cfg);
      && db.pools == map[0 := POOL.(reserved := 5)]
      && db.quotas == map[QuotaKey("a", "cpu-cores") := Quota(DEFAULT_QUOTA_LIMIT, 5)]
      && db.rows == map[1 := ReservedEntry(1, ReservedRequest(cfg, IdemKey("a", "x"), BODY, 0), [LINE])]
  {
    OneLineReserves(cfg, Init(BASE), 1, IdemKey("a", "x"));
  }

  lemma OneLineSums()
    ensures HeldOn(HoldsOf(1, [LINE], Active), 0) == 5
    ensures ChargedOn(BASE.pools, HoldsOf(1, [LINE], Active), "cpu-cores") == 5
  {
    HeldOnHoldsOf(1, [LINE], Active, 0);
    ChargedOnHoldsOf(BASE.pools, 1, [LINE], Active, "cpu-cores");
    assert [LINE][..0] == [];
  }

  lemma ConfirmedPools(cfg: Config, db: Db, once: Db)
    requires db.pools == map[0 := POOL.(reserved := 5)]
    requires db.rows == map[1 := ReservedEntry(1, ReservedRequest(cfg, IdemKey("a", "x"), BODY, 0), [LINE])]
    requires ConfirmedAs(db, 1, once)
    ensures Listed(db, 1) == HoldsOf(1, [LINE], Active)
    ensures once.pools == map[0 := POOL.(dedicated := 5)] && once.quotas == db.quotas
  {
    OneLineSums();
  }

  predicate ConfirmedAs(db: Db, id: Id, once: Db)
    requires id in db.rows
  {
    var hs := HoldsOf(id, db.rows[id].lines, Active);
    Listed(db, id) == hs && once.pools == AfterMove(db.pools, hs) && once.quotas == db.quotas
  }

  lemma ConfirmedShape(cfg: Config, base: Base, db: Db, id: Id, once: Db)
    requires DbOk(cfg, base, db) && id in db.rows && db.rows[id].req.status == Reserved
    requires once == ConfirmTx(db, id).0
    ensures ConfirmedAs(db, id, once) && id in once.rows
  {
    ListedHolds(cfg, base, db, id);
    ConfirmExact(cfg, base, db, id);
    assert EntryOk(cfg, base.pools, id, db.rows[id]);
  }

  /** One reservation of 5 is confirmed; a cancel that had listed its holds before then runs. The pool's
      guard refuses, so the pools stay right, and yet the customer's quota shows nothing used while the
      COMPLETED request still holds 5. */
  lemma StaleCancelRefundsACompletedRequest(cfg: Config, once: Db, after: Db)
    requires once == ConfirmTx(OneReservation(cfg), 1).0
    requires after == ReleaseWith(once, 1, "a", Listed(OneReservation(cfg), 1), Cancelled)
    ensures 1 in after.rows && after.rows[1].req.status == Completed
    ensures after.pools == map[0 := POOL.(dedicated := 5)]
    ensures after.quotas == map[QuotaKey("a", "cpu-cores") := Quota(DEFAULT_QUOTA_LIMIT, 0)]
    ensures !QuotasOk(BASE, after)
  {
    assert RefundedAnyway(BASE, OneReservation(cfg), 1, after) && ConfirmedAs(OneReservation(cfg), 1, once)
      && 1 in once.rows by {
      OneReservationOk(cfg);
      OneReservationContent(cfg);
      ConfirmedShape(cfg, BASE, OneReservation(cfg), 1, once);
      ConfirmThenStaleRelease(cfg, BASE, OneReservation(cfg), 1, Cancelled, once, after);
    }
    OneReservationContent(cfg);
    ReleasePools(once, 1, "a", Listed(OneReservation(cfg), 1), Cancelled, after);
    RefundedContent(cfg, OneReservation(cfg), once, after);
  }

  lemma ReleasePools(once: Db, id: Id, customer: Customer, hs: seq<Hold>, terminal: Status, after: Db)
    requires id in once.rows && after == ReleaseWith(once, id, customer, hs, terminal)
    ensures after.pools == ReleaseAll(once.pools, hs)
  {
  }

  lemma RefundedContent(cfg: Config, db: Db, once: Db, after: Db)
    requires db.pools == map[0 := POOL.(reserved := 5)]
    requires db.quotas == map[QuotaKey("a", "cpu-cores") := Quota(DEFAULT_QUOTA_LIMIT, 5)]
    requires db.rows == map[1 := ReservedEntry(1, ReservedRequest(cfg, IdemKey("a", "x"), BODY, 0), [LINE])]
    requires ConfirmedAs(db, 1, once) && RefundedAnyway(BASE, db, 1, after)
    requires after.pools == ReleaseAll(once.pools, Listed(db, 1))
    ensures 1 in after.rows && after.rows[1].req.status == Completed
    ensures after.pools == map[0 := POOL.(dedicated := 5)]
    ensures after.quotas == map[QuotaKey("a", "cpu-cores") := Quota(DEFAULT_QUOTA_LIMIT, 0)]
    ensures !QuotasOk(BASE, after)
  {
    ConfirmedPools(cfg, db, once);
    OneLineSums();
    OneGuardRefuses(once.pools, HoldsOf(1, [LINE], Active));
  }

  lemma OneGuardRefuses(pools: Pools, hs: seq<Hold>)
    requires 0 in pools && pools[0].reserved == 0 && hs == HoldsOf(1, [LINE], Active)
    ensures ReleaseAll(pools, hs) == pools
  {
    assert hs[..0] == [];
  }

  lemma TwoReservationsContent(cfg: Config)
    ensures var db := TwoReservations(cfg);
      && db.pools == map[0 := POOL.(reserved := 10)]
      && db.rows == map[1 := ReservedEntry(1, ReservedRequest(cfg, IdemKey("a", "x"), BODY, 0), [LINE]),
                        2 := ReservedEntry(2, ReservedRequest(cfg, IdemKey("b", "y"), BODY, 0), [LINE])]
  {
    OneLineReserves(cfg, Init(BASE), 1, IdemKey("a", "x"));
    assert "a" != "b";
    OneLineReserves(cfg, OneReservation(cfg), 2, IdemKey("b", "y"));
  }

  lemma TwoReservationsOk(cfg: Config)
    ensures DbOk(cfg, BASE, TwoReservations(cfg))
  {
    assert PlanOk(BASE.pools, [LINE]);
    OneReservationOk(cfg);
    OneReservationContent(cfg);
    ReserveKeepsInvariant(cfg, BASE, OneReservation(cfg), 2, IdemKey("b", "y"), BODY, [LINE], 0);
  }

  /** Two reservations of 5 on a pool of 10; the first is cancelled twice, the second time on the list
      read before the first cancel committed. The counter then shows nothing reserved, although the
      second reservation still holds 5. */
  lemma DoubleCancelLosesAHold(cfg: Config)
    ensures var db := TwoReservations(cfg);
      var list := Listed(db, 1);
      var twice := ReleaseWith(ReleaseWith(db, 1, "a", list, Cancelled), 1, "a", list, Cancelled);
      && 0 in twice.pools && twice.pools[0].reserved == 0
      && 2 in twice.rows && HeldOn(twice.rows[2].holds, 0) == 5
      && !PoolsOk(BASE, twice)
  {
    TwoReservationsContent(cfg);
    TwoReservationsOk(cfg);
    DoubleCancel(cfg, BASE, TwoReservations(cfg), 1, 0);
    HeldOnHoldsOf(2, [LINE], Active, 0);
    assert [LINE][..0] == [];
  }

  ghost predicate CancelledOnce(cfg: Config, base: Base, db: Db, id: Id, i: nat, once: Db)
    requires id in db.rows && i < |db.rows[id].lines|
  {
    var line := db.rows[id].lines[i];
    && Listed(db, id) == HoldsOf(id, db.rows[id].lines, Active)
    && DbOk(cfg, base, once)
    && once.rows == db.rows[id := ReleasedEntry(id, db.rows[id], Cancelled)]
    && line.poolId in db.pools && line.poolId in once.pools
    && once.pools[line.poolId].reserved == db.pools[line.poolId].reserved - line.amount
    && line.amount > 0
  }

  lemma CancelOnce(cfg: Config, base: Base, db: Db, id: Id, i: nat)
    requires DbOk(cfg, base, db) && id in db.rows && db.rows[id].req.status == Reserved
    requires i < |db.rows[id].lines|
    ensures CancelledOnce(cfg, base, db, id, i, ReleaseTx(db, id, db.rows[id].req.customer, Cancelled))
  {
    var e := db.rows[id];
    assert EntryOk(cfg, base.pools, id, e);
    ListedHolds(cfg, base, db, id);
    ReleaseKeepsInvariant(cfg, base, db, id, e.req.customer, Cancelled);
    ReleaseExact(cfg, base, db, id, e.req.customer, Cancelled);
    HeldOnHoldsOf(id, e.lines, Active, e.lines[i].poolId);
    PlanIsSeparate(base, e.lines);
    AmountOnSeparate(e.lines, e.lines[i].poolId);
  }

  /** The same on any database: cancelling twice on one list subtracts twice, and breaks conservation,
      whenever what is reserved on a listed pool covers the amount twice. */
  lemma DoubleCancel(cfg: Config, base: Base, db: Db, id: Id, i: nat)
    requires DbOk(cfg, base, db) && id in db.rows && db.rows[id].req.status == Reserved
    requires i < |db.rows[id].lines|
    requires db.rows[id].lines[i].poolId in db.pools
    requires db.pools[db.rows[id].lines[i].poolId].reserved >= 2 * db.rows[id].lines[i].amount
    ensures var customer, line := db.rows[id].req.customer, db.rows[id].lines[i];
      var once := ReleaseWith(db, id, customer, Listed(db, id), Cancelled);
      var twice := ReleaseWith(once, id, customer, Listed(db, id), Cancelled);
      && twice.rows == db.rows[id := ReleasedEntry(id, db.rows[id], Cancelled)]
      && line.poolId in twice.pools
      && twice.pools[line.poolId].reserved == db.pools[line.poolId].reserved - 2 * line.amount
      && !PoolsOk(base, twice)
  {
    CancelOnce(cfg, base, db, id, i);
    CancelTwice(cfg, base, db, id, i, ReleaseTx(db, id, db.rows[id].req.customer, Cancelled));
  }

  lemma CancelTwice(cfg: Config, base: Base, db: Db, id: Id, i: nat, once: Db)
    requires id in db.rows && i < |db.rows[id].lines| && CancelledOnce(cfg, base, db, id, i, once)
    requires db.pools[db.rows[id].lines[i].poolId].reserved >= 2 * db.rows[id].lines[i].amount
    ensures var line := db.rows[id].lines[i];
      var twice := ReleaseWith(once, id, db.rows[id].req.customer, Listed(db, id), Cancelled);
      && twice.rows == db.rows[id := ReleasedEntry(id, db.rows[id], Cancelled)]
      && line.poolId in twice.pools
      && twice.pools[line.poolId].reserved == db.pools[line.poolId].reserved - 2 * line.amount
      && !PoolsOk(base, twice)
  {
    StaleReleaseBreaks(cfg, base, once, id, Listed(db, id), i);
  }

  lemma StaleReleaseBreaks(cfg: Config, base: Base, once: Db, id: Id, hs: seq<Hold>, i: nat)
    requires DbOk(cfg, base, once) && ReadEarlier(once, id, hs) && once.rows[id].req.status != Reserved
    requires i < |hs| && hs[i].poolId in once.pools && once.pools[hs[i].poolId].reserved >= hs[i].amount
    ensures var twice := ReleaseWith(once, id, once.rows[id].req.customer, hs, Cancelled);
      && twice.rows == once.rows
      && hs[i].poolId in twice.pools
      && twice.pools[hs[i].poolId].reserved == once.pools[hs[i].poolId].reserved - hs[i].amount
      && !PoolsOk(base, twice)
  {
    OvertakenRelease(cfg, base, once, id, hs, Cancelled, ReleaseWith(once, id, once.rows[id].req.customer, hs, Cancelled));
    assert EntryOk(cfg, base.pools, id, once.rows[id]);
    SecondRelease(cfg, base.pools, once, id, hs, i);
  }

  lemma SecondRelease(cfg: Config, pools: Pools, once: Db, id: Id, hs: seq<Hold>, i: nat)
    requires ReadEarlier(once, id, hs) && EntryOk(cfg, pools, id, once.rows[id]) && once.rows[id].req.status != Reserved
    requires i < |hs| && hs[i].poolId in once.pools && once.pools[hs[i].poolId].reserved >= hs[i].amount
    ensures var twice := ReleaseWith(once, id, once.rows[id].req.customer, hs, Cancelled);
      && twice.rows == once.rows
      && hs[i].poolId in twice.pools
      && twice.pools[hs[i].poolId].reserved == once.pools[hs[i].poolId].reserved - hs[i].amount
  {
    MovedOnRowIsKept(cfg, pools, id, once.rows[id], hs, Released);
    ReleaseAllByPool(once.pools, hs);
  }
}
