/** The loops of confirm and release over the listed holds: where counters cover the list no guard is
    false, no clamp fires and no lookup misses, so the guarded loops are plain subtractions. */
module Settle {
  import opened Domain
  import opened Ledger
  import opened Invariant

  // ---- the list of active holds ---------------------------------------------------------------

  lemma {:induction false} ActiveHoldsOf(id: Id, lines: seq<Line>, st: HoldStatus)
    ensures ActiveHolds(HoldsOf(id, lines, st)) == if st == Active then HoldsOf(id, lines, st) else []
  {
    var hs := HoldsOf(id, lines, st);
    if |lines| > 0 {
      ActiveHoldsOf(id, lines[..|lines| - 1], st);
      assert hs[..|lines| - 1] == HoldsOf(id, lines[..|lines| - 1], st);
      assert hs == hs[..|lines| - 1] + [hs[|lines| - 1]];
    }
  }

  /** Only a RESERVED request has ACTIVE holds, and they come in pool order. */
  lemma ListedHolds(cfg: Config, base: Base, db: Db, id: Id)
    requires DbOk(cfg, base, db)
    ensures Listed(db, id) == if id in db.rows && db.rows[id].req.status == Reserved
                              then HoldsOf(id, db.rows[id].lines, Active) else []
    ensures forall i, j :: 0 <= i < j < |Listed(db, id)| ==> Listed(db, id)[i].poolId < Listed(db, id)[j].poolId
  {
    if id in db.rows {
      assert EntryOk(cfg, base.pools, id, db.rows[id]);
      EntryListed(cfg, base.pools, id, db.rows[id], Listed(db, id));
    }
  }

  lemma EntryListed(cfg: Config, pools: Pools, id: Id, e: Entry, hs: seq<Hold>)
    requires EntryOk(cfg, pools, id, e) && hs == ActiveHolds(e.holds)
    ensures hs == if e.req.status == Reserved then HoldsOf(id, e.lines, Active) else []
    ensures forall i, j :: 0 <= i < j < |hs| ==> hs[i].poolId < hs[j].poolId
  {
    if e.req.status == Completed { ActiveHoldsOf(id, e.lines, HoldStatus.Dedicated); }
    else if e.req.status == Cancelled { ActiveHoldsOf(id, e.lines, Released); }
    else if e.req.status == Expired { ActiveHoldsOf(id, e.lines, Lapsed); }
    else { ActiveHoldsOf(id, e.lines, Active); }
  }

  // ---- marking holds --------------------------------------------------------------------------

  function PartlyMarked(id: Id, lines: seq<Line>, k: nat, to: HoldStatus): seq<Hold> {
    seq(|lines|, i requires 0 <= i < |lines| =>
      Hold(HoldId(id, i), lines[i].poolId, lines[i].amount, if i < k then to else Active))
  }

  lemma {:induction false} MarkPrefix(id: Id, lines: seq<Line>, k: nat, to: HoldStatus)
    requires k <= |lines|
    ensures MarkAll(HoldsOf(id, lines, Active), HoldsOf(id, lines, Active)[..k], to) == PartlyMarked(id, lines, k, to)
    ensures CanMarkAll(HoldsOf(id, lines, Active), HoldsOf(id, lines, Active)[..k], to)
  {
    var hs := HoldsOf(id, lines, Active);
    if k == 0 {
      assert PartlyMarked(id, lines, 0, to) == hs;
    } else {
      MarkPrefix(id, lines, k - 1, to);
      assert hs[..k][..k - 1] == hs[..k - 1];
      var before := PartlyMarked(id, lines, k - 1, to);
      assert before[k - 1].id == hs[k - 1].id && before[k - 1].status == Active;
      assert MarkHold(before, hs[k - 1].id, Active, to) == PartlyMarked(id, lines, k, to);
    }
  }

  /** Marking the listed holds marks each of them, and every update touches a row. */
  lemma MarkListed(id: Id, lines: seq<Line>, to: HoldStatus)
    ensures MarkAll(HoldsOf(id, lines, Active), HoldsOf(id, lines, Active), to) == HoldsOf(id, lines, to)
    ensures CanMarkAll(HoldsOf(id, lines, Active), HoldsOf(id, lines, Active), to)
  {
    var hs := HoldsOf(id, lines, Active);
    MarkPrefix(id, lines, |lines|, to);
    assert hs[..|lines|] == hs;
    assert PartlyMarked(id, lines, |lines|, to) == HoldsOf(id, lines, to);
  }

  // ---- pool counters --------------------------------------------------------------------------

  /** Every hold of the list is active, positive and on a pool that holds at least the list's sum. */
  predicate Covered(pools: Pools, hs: seq<Hold>) {
    && (forall i :: 0 <= i < |hs| ==> hs[i].status == Active && hs[i].amount > 0 && hs[i].poolId in pools)
    && (forall p :: p in pools ==> pools[p].reserved >= HeldOn(hs, p))
  }

  function AfterRelease(pools: Pools, hs: seq<Hold>): Pools {
    map p | p in pools :: pools[p].(reserved := pools[p].reserved - HeldOn(hs, p))
  }

  function AfterMove(pools: Pools, hs: seq<Hold>): Pools {
    map p | p in pools :: pools[p].(reserved := pools[p].reserved - HeldOn(hs, p),
                                    dedicated := pools[p].dedicated + HeldOn(hs, p))
  }

  lemma CoveredPrefix(pools: Pools, hs: seq<Hold>)
    requires Covered(pools, hs) && |hs| > 0
    ensures Covered(pools, hs[..|hs| - 1])
  {
    forall p | p in pools ensures pools[p].reserved >= HeldOn(hs[..|hs| - 1], p) {
      assert pools[p].reserved >= HeldOn(hs, p);
    }
  }

  lemma {:induction false} CoveredTake(pools: Pools, hs: seq<Hold>, k: nat)
    requires Covered(pools, hs) && k <= |hs|
    ensures Covered(pools, hs[..k])
  {
    if k == |hs| {
      assert hs[..k] == hs;
    } else {
      CoveredPrefix(pools, hs);
      CoveredTake(pools, hs[..|hs| - 1], k);
      assert hs[..|hs| - 1][..k] == hs[..k];
    }
  }

  /** The guarded release loop subtracts exactly the sum of the list: no guard is ever false. */
  lemma {:induction false} ReleaseAllExact(pools: Pools, hs: seq<Hold>)
    requires Covered(pools, hs)
    ensures ReleaseAll(pools, hs) == AfterRelease(pools, hs)
    ensures |hs| > 0 ==>
      ReleaseAll(pools, hs[..|hs| - 1])[hs[|hs| - 1].poolId].reserved >= hs[|hs| - 1].amount
  {
    if |hs| > 0 {
      var front, h := hs[..|hs| - 1], hs[|hs| - 1];
      CoveredPrefix(pools, hs);
      ReleaseAllExact(pools, front);
      ReleaseOneMore(pools, front, h, hs);
    }
  }

  lemma ReleaseOneMore(pools: Pools, front: seq<Hold>, h: Hold, hs: seq<Hold>)
    requires Covered(pools, hs) && |hs| > 0 && front == hs[..|hs| - 1] && h == hs[|hs| - 1]
    ensures h.poolId in pools && AfterRelease(pools, front)[h.poolId].reserved >= h.amount
    ensures ReleaseReserved(AfterRelease(pools, front), h.poolId, h.amount) == AfterRelease(pools, hs)
  {
    var before := AfterRelease(pools, front);
    assert pools[h.poolId].reserved >= HeldOn(hs, h.poolId);
    assert before[h.poolId := before[h.poolId].(reserved := before[h.poolId].reserved - h.amount)]
        == AfterRelease(pools, hs);
  }

  /** The same for the loop of Confirm. */
  lemma {:induction false} MoveAllExact(pools: Pools, hs: seq<Hold>)
    requires Covered(pools, hs)
    ensures MoveAll(pools, hs) == AfterMove(pools, hs)
    ensures |hs| > 0 ==>
      MoveAll(pools, hs[..|hs| - 1])[hs[|hs| - 1].poolId].reserved >= hs[|hs| - 1].amount
  {
    if |hs| > 0 {
      var front, h := hs[..|hs| - 1], hs[|hs| - 1];
      CoveredPrefix(pools, hs);
      MoveAllExact(pools, front);
      MoveOneMore(pools, front, h, hs);
    }
  }

  lemma MoveOneMore(pools: Pools, front: seq<Hold>, h: Hold, hs: seq<Hold>)
    requires Covered(pools, hs) && |hs| > 0 && front == hs[..|hs| - 1] && h == hs[|hs| - 1]
    ensures h.poolId in pools && AfterMove(pools, front)[h.poolId].reserved >= h.amount
    ensures MoveReservedToDedicated(AfterMove(pools, front), h.poolId, h.amount) == AfterMove(pools, hs)
  {
    var before := AfterMove(pools, front);
    assert pools[h.poolId].reserved >= HeldOn(hs, h.poolId);
    assert before[h.poolId := before[h.poolId].(reserved := before[h.poolId].reserved - h.amount,
                                               dedicated := before[h.poolId].dedicated + h.amount)]
        == AfterMove(pools, hs);
  }

  // ---- quota counters -------------------------------------------------------------------------

  lemma {:induction false} KindByPoolHits(lines: seq<Line>, i: nat)
    requires i < |lines| && Ascending(lines)
    ensures lines[i].poolId in KindByPool(lines) && KindByPool(lines)[lines[i].poolId] == lines[i].kind
  {
    if i < |lines| - 1 { KindByPoolHits(lines[..|lines| - 1], i); }
  }

  /** The customer's quota rows hold at least what the list charges, and every pool of the list has a
      kind in the lookup table. */
  ghost predicate Chargeable(pools: Pools, quotas: Quotas, customer: Customer, kinds: map<Id, Kind>, hs: seq<Hold>) {
    && (forall i :: 0 <= i < |hs| ==>
         && hs[i].status == Active && hs[i].amount > 0 && hs[i].poolId in pools
         && hs[i].poolId in kinds && kinds[hs[i].poolId] == pools[hs[i].poolId].kind != "")
    && (forall kind :: QuotaRow(quotas, QuotaKey(customer, kind)).used >= ChargedOn(pools, hs, kind))
    && (forall kind :: QuotaKey(customer, kind) !in quotas ==> ChargedOn(pools, hs, kind) == 0)
  }

  ghost predicate AfterRefund(pools: Pools, quotas: Quotas, customer: Customer, hs: seq<Hold>, quotas': Quotas) {
    && quotas'.Keys == quotas.Keys
    && forall key :: key in quotas ==>
      quotas'[key] == quotas[key].(used := quotas[key].used -
        if key.customer == customer then ChargedOn(pools, hs, key.kind) else 0)
  }

  lemma {:induction false} ChargedOnBounds(pools: Pools, hs: seq<Hold>, kind: Kind)
    requires forall i :: 0 <= i < |hs| ==> hs[i].amount > 0
    ensures ChargedOn(pools, hs, kind) >= 0
  {
    if |hs| > 0 { ChargedOnBounds(pools, hs[..|hs| - 1], kind); }
  }

  lemma ChargeablePrefix(pools: Pools, quotas: Quotas, customer: Customer, kinds: map<Id, Kind>, hs: seq<Hold>)
    requires Chargeable(pools, quotas, customer, kinds, hs) && |hs| > 0
    ensures Chargeable(pools, quotas, customer, kinds, hs[..|hs| - 1])
  {
    forall kind
      ensures 0 <= ChargedOn(pools, hs[..|hs| - 1], kind) <= ChargedOn(pools, hs, kind)
    {
      ChargedOnBounds(pools, hs[..|hs| - 1], kind);
    }
  }

  lemma {:induction false} ChargeableTake(pools: Pools, quotas: Quotas, customer: Customer, kinds: map<Id, Kind>, hs: seq<Hold>, k: nat)
    requires Chargeable(pools, quotas, customer, kinds, hs) && k <= |hs|
    ensures Chargeable(pools, quotas, customer, kinds, hs[..k])
  {
    if k == |hs| {
      assert hs[..k] == hs;
    } else {
      ChargeablePrefix(pools, quotas, customer, kinds, hs);
      ChargeableTake(pools, quotas, customer, kinds, hs[..|hs| - 1], k);
      assert hs[..|hs| - 1][..k] == hs[..k];
    }
  }

  /** The refund loop gives back exactly what the list charges: the lookup always hits and the clamp
      at zero never fires. */
  lemma {:induction false} RefundAllExact(pools: Pools, quotas: Quotas, customer: Customer, kinds: map<Id, Kind>, hs: seq<Hold>)
    requires Chargeable(pools, quotas, customer, kinds, hs)
    ensures AfterRefund(pools, quotas, customer, hs, RefundAll(quotas, customer, kinds, hs))
    ensures |hs| > 0 ==>
      var h := hs[|hs| - 1];
      var key := QuotaKey(customer, kinds[h.poolId]);
      var before := RefundAll(quotas, customer, kinds, hs[..|hs| - 1]);
      key in before && before[key].used >= h.amount
  {
    if |hs| > 0 {
      var h := hs[|hs| - 1];
      var key := QuotaKey(customer, kinds[h.poolId]);
      ChargeablePrefix(pools, quotas, customer, kinds, hs);
      RefundAllExact(pools, quotas, customer, kinds, hs[..|hs| - 1]);
      ChargedOnBounds(pools, hs[..|hs| - 1], key.kind);
      assert ChargedOn(pools, hs, key.kind) >= h.amount;
      assert key in quotas;
      assert quotas[key].used >= ChargedOn(pools, hs, key.kind);
    }
  }
}
