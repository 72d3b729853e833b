/** The stores as objects: each method is one SQL statement, changing its table in place, and is proved
    against the statement's function. `LockTrace` records the contended rows a statement locks. */
module Stores {
  import opened Domain
  import opened Invariant
  import opened Intake
  import opened Interleaving
  import opened Serial
  import opened Sweep
  import opened Locks
  import Ledger

  class LockTrace {
    ghost var taken: seq<Lock>

    constructor ()
      ensures taken == []
    {
      taken := [];
    }
  }

  class PoolStore {
    var pools: Pools
    const trace: LockTrace

    constructor (pools: Pools, trace: LockTrace)
      ensures this.pools == pools && this.trace == trace
    {
      this.pools := pools;
      this.trace := trace;
    }

    method GetByKind(kind: Kind) returns (found: Option<Id>)
      ensures found.Some? ==> HasKind(pools, found.value, kind)
      ensures found.None? ==> forall p :: p in pools ==> pools[p].kind != kind
    {
      var todo := pools.Keys;
      while todo != {}
        invariant todo <= pools.Keys
        invariant forall p :: p in pools && p !in todo ==> pools[p].kind != kind
        decreases todo
      {
        var p :| p in todo;
        if pools[p].kind == kind {
          return Some(p);
        }
        todo := todo - {p};
      }
      found := None;
    }

    method TryReserve(id: Id, amount: int) returns (ok: bool)
      modifies this, trace
      ensures ok == Ledger.TryReserve(old(pools), id, amount).Some?
      ensures pools == if ok then Ledger.TryReserve(old(pools), id, amount).value else old(pools)
      ensures ok == (id in old(pools)
                     && old(pools)[id].effective - (old(pools)[id].dedicated + old(pools)[id].reserved) >= amount)
      ensures pools == if !ok then old(pools)
        else old(pools)[id := old(pools)[id].(reserved := old(pools)[id].reserved + amount)]
      ensures trace.taken == old(trace.taken) + [PoolLock(id)]
    {
      trace.taken := trace.taken + [PoolLock(id)];
      if id !in pools || pools[id].effective - pools[id].dedicated - pools[id].reserved < amount {
        return false;
      }
      pools := pools[id := pools[id].(reserved := pools[id].reserved + amount)];
      ok := true;
    }

    method ReleaseReserved(id: Id, amount: int)
      modifies this, trace
      ensures pools == Ledger.ReleaseReserved(old(pools), id, amount)
      ensures pools == if id !in old(pools) || old(pools)[id].reserved < amount then old(pools)
        else old(pools)[id := old(pools)[id].(reserved := old(pools)[id].reserved - amount)]
      ensures trace.taken == old(trace.taken) + [PoolLock(id)]
    {
      trace.taken := trace.taken + [PoolLock(id)];
      if id in pools && pools[id].reserved >= amount {
        pools := pools[id := pools[id].(reserved := pools[id].reserved - amount)];
      }
    }

    method MoveReservedToDedicated(id: Id, amount: int)
      modifies this, trace
      ensures pools == Ledger.MoveReservedToDedicated(old(pools), id, amount)
      ensures pools == if id !in old(pools) || old(pools)[id].reserved < amount then old(pools)
        else old(pools)[id := old(pools)[id].(reserved := old(pools)[id].reserved - amount,
                                              dedicated := old(pools)[id].dedicated + amount)]
      ensures trace.taken == old(trace.taken) + [PoolLock(id)]
    {
      trace.taken := trace.taken + [PoolLock(id)];
      if id in pools && pools[id].reserved >= amount {
        var pool := pools[id];
        pools := pools[id := pool.(reserved := pool.reserved - amount, dedicated := pool.dedicated + amount)];
      }
    }
  }

  class QuotaStore {
    var quotas: Quotas
    const trace: LockTrace

    constructor (quotas: Quotas, trace: LockTrace)
      ensures this.quotas == quotas && this.trace == trace
    {
      this.quotas := quotas;
      this.trace := trace;
    }

    method TryConsume(key: QuotaKey, amount: int) returns (ok: bool)
      modifies this
      ensures ok == (key in old(quotas) && old(quotas)[key].limit - old(quotas)[key].used >= amount)
      ensures quotas == if ok then old(quotas)[key := old(quotas)[key].(used := old(quotas)[key].used + amount)] else old(quotas)
    {
      if key !in quotas || quotas[key].limit - quotas[key].used < amount {
        return false;
      }
      quotas := quotas[key := quotas[key].(used := quotas[key].used + amount)];
      ok := true;
    }

    method EnsureAndTryConsume(key: QuotaKey, amount: int) returns (ok: bool)
      modifies this, trace
      ensures (quotas, ok) == Ledger.EnsureAndTryConsume(old(quotas), key, amount)
      ensures var q := if key in old(quotas) then old(quotas)[key] else Quota(10_000, 0);
        && (ok <==> q.used + amount <= q.limit)
        && quotas == old(quotas)[key := if ok then q.(used := q.used + amount) else q]
      ensures trace.taken == old(trace.taken) + [QuotaLock(key)]
    {
      trace.taken := trace.taken + [QuotaLock(key)];
      ghost var was := quotas;
      ghost var row := Ledger.QuotaRow(was, key);
      if key !in quotas {
        quotas := quotas[key := Quota(DEFAULT_QUOTA_LIMIT, 0)];
      }
      assert quotas == was[key := row];
      ok := TryConsume(key, amount);
      assert was[key := row][key := row.(used := row.used + amount)] == was[key := row.(used := row.used + amount)];
    }

    method Release(key: QuotaKey, amount: int)
      modifies this, trace
      ensures quotas == Ledger.ReleaseQuota(old(quotas), key, amount)
      ensures quotas.Keys == old(quotas).Keys && forall k :: k in quotas ==>
        && quotas[k].limit == old(quotas)[k].limit
        && quotas[k].used == if k != key then old(quotas)[k].used
           else if old(quotas)[k].used >= amount then old(quotas)[k].used - amount else 0
      ensures trace.taken == old(trace.taken) + [QuotaLock(key)]
    {
      trace.taken := trace.taken + [QuotaLock(key)];
      if key in quotas {
        var left := quotas[key].used - amount;
        if left < 0 {
          left := 0;
        }
        quotas := quotas[key := quotas[key].(used := left)];
      }
    }
  }

  /** Hold ids are unique: the i-th hold of a request carries its id and i. */
  predicate Keyed(rows: Rows) {
    forall id, i :: id in rows && 0 <= i < |rows[id].holds| ==> rows[id].holds[i].id == HoldId(id, i)
  }

  class RequestStore {
    var rows: Rows
    var idem: map<IdemKey, Id>
    const trace: LockTrace

    constructor (trace: LockTrace)
      ensures rows == map[] && idem == map[] && this.trace == trace
    {
      this.rows := map[];
      this.idem := map[];
      this.trace := trace;
    }

    /** SELECT ... WHERE customer_id = $1 AND idempotency_key = $2, through the index of the UNIQUE
        constraint. */
    method FindByIdempotency(pair: IdemKey) returns (found: Option<Id>)
      requires IndexOk(rows, idem)
      ensures found.Some? ==> found.value in rows && KeyOf(rows[found.value].req) == pair
      ensures found.None? ==> forall id :: id in rows ==> KeyOf(rows[id].req) != pair
      ensures found == if pair in idem then Some(idem[pair]) else None
    {
      if pair in idem && idem[pair] in rows {
        return Some(idem[pair]);
      }
      found := None;
    }

    /** Inserts a request with its child rows; false when the id or the pair is taken. */
    method Create(id: Id, e: Entry) returns (ok: bool)
      modifies this, trace
      ensures ok == (id !in old(rows) && KeyOf(e.req) !in old(idem))
      ensures rows == if ok then old(rows)[id := e] else old(rows)
      ensures idem == if ok then old(idem)[KeyOf(e.req) := id] else old(idem)
      ensures trace.taken == old(trace.taken) + [PairLock(KeyOf(e.req))]
    {
      var pair := KeyOf(e.req);
      trace.taken := trace.taken + [PairLock(pair)];
      if id in rows || pair in idem {
        return false;
      }
      rows := rows[id := e];
      idem := idem[pair := id];
      ok := true;
    }

    method ListActiveHolds(id: Id) returns (active: seq<Hold>)
      ensures active == if id in rows then Ledger.ActiveHolds(rows[id].holds) else []
    {
      active := [];
      if id in rows {
        var holds := rows[id].holds;
        for i := 0 to |holds|
          invariant active == Ledger.ActiveHolds(holds[..i])
        {
          assert holds[..i + 1][..i] == holds[..i];
          if holds[i].status == Active {
            active := active + [holds[i]];
          }
        }
        assert holds[..|holds|] == holds;
      }
    }

    method ListLines(id: Id) returns (lines: seq<Line>)
      ensures lines == if id in rows then rows[id].lines else []
    {
      lines := if id in rows then rows[id].lines else [];
    }

    /** False when the hold does not exist or another transition already won. */
    method UpdateHoldStatus(hold: HoldId, from: HoldStatus, to: HoldStatus) returns (ok: bool)
      requires Keyed(rows)
      modifies this, trace
      ensures Keyed(rows) && idem == old(idem)
      ensures ok == (hold.request in old(rows) && Ledger.CanMark(old(rows)[hold.request].holds, hold, from))
      ensures rows == if hold.request !in old(rows) then old(rows)
        else old(rows)[hold.request := old(rows)[hold.request].(
               holds := Ledger.MarkHold(old(rows)[hold.request].holds, hold, from, to))]
      ensures trace.taken == old(trace.taken) + [HoldLock(hold)]
    {
      trace.taken := trace.taken + [HoldLock(hold)];
      if hold.request !in rows {
        return false;
      }
      var e := rows[hold.request];
      ghost var was := rows;
      var i := 0;
      while i < |e.holds|
        invariant 0 <= i <= |e.holds|
        invariant forall k :: 0 <= k < i ==> e.holds[k].id != hold
      {
        if e.holds[i].id == hold {
          if e.holds[i].status != from {
            assert Ledger.MarkHold(e.holds, hold, from, to) == e.holds;
            assert was == was[hold.request := e];
            return false;
          }
          var marked := e.holds[i := e.holds[i].(status := to)];
          assert marked == Ledger.MarkHold(e.holds, hold, from, to);
          rows := rows[hold.request := e.(holds := marked)];
          return true;
        }
        i := i + 1;
      }
      assert Ledger.MarkHold(e.holds, hold, from, to) == e.holds;
      assert was == was[hold.request := e];
      ok := false;
    }

    method Confirm(id: Id, dedications: seq<Dedication>) returns (updated: bool)
      modifies this, trace
      ensures updated == (id in old(rows) && old(rows)[id].req.status == Reserved)
      ensures idem == old(idem)
      ensures rows == if updated
        then old(rows)[id := old(rows)[id].(req := old(rows)[id].req.(status := Completed),
                                            dedications := old(rows)[id].dedications + dedications,
                                            events := old(rows)[id].events + [EventConfirmed])]
        else old(rows)
      ensures trace.taken == old(trace.taken) + [RequestLock(id)]
    {
      trace.taken := trace.taken + [RequestLock(id)];
      if id !in rows || rows[id].req.status != Reserved {
        return false;
      }
      var e := rows[id];
      rows := rows[id := e.(req := e.req.(status := Completed),
                            dedications := e.dedications + dedications,
                            events := e.events + [EventConfirmed])];
      updated := true;
    }

    method MarkTerminal(id: Id, terminal: Status) returns (updated: bool)
      modifies this, trace
      ensures updated == (id in old(rows) && old(rows)[id].req.status == Reserved)
      ensures idem == old(idem)
      ensures rows == if id in old(rows) then old(rows)[id := Ledger.MarkTerminal(old(rows)[id], terminal)] else old(rows)
      ensures trace.taken == old(trace.taken) + [RequestLock(id)]
    {
      trace.taken := trace.taken + [RequestLock(id)];
      if id !in rows || rows[id].req.status != Reserved {
        assert id in rows ==> rows == rows[id := rows[id]];
        return false;
      }
      var e := rows[id];
      rows := rows[id := e.(req := e.req.(status := terminal), events := e.events + [Ledger.EventFor(terminal)])];
      updated := true;
    }

    method Extend(id: Id, expiresAt: Time, extensionCount: nat) returns (updated: bool)
      modifies this, trace
      ensures updated == (id in old(rows) && old(rows)[id].req.status == Reserved)
      ensures idem == old(idem)
      ensures rows == if updated
        then old(rows)[id := old(rows)[id].(
               req := old(rows)[id].req.(expiresAt := Some(expiresAt), extensionCount := extensionCount),
               events := old(rows)[id].events + [EventExtended])]
        else old(rows)
      ensures trace.taken == old(trace.taken) + [RequestLock(id)]
    {
      trace.taken := trace.taken + [RequestLock(id)];
      if id !in rows || rows[id].req.status != Reserved {
        return false;
      }
      var e := rows[id];
      rows := rows[id := e.(req := e.req.(expiresAt := Some(expiresAt), extensionCount := extensionCount),
                            events := e.events + [EventExtended])];
      updated := true;
    }

    /** The overdue requests, earliest expiry first, at most `limit` of them. */
    method ListExpiredIDs(now: Time, limit: nat) returns (ids: seq<Id>)
      ensures IsBatch(rows, now, limit, ids)
      ensures forall id :: id in ids ==>
        && id in rows && rows[id].req.status == Reserved
        && rows[id].req.expiresAt.Some? && rows[id].req.expiresAt.value < now
    {
      ids := [];
      var due := OverdueIds(rows, now);
      ghost var all := due;
      while |ids| < limit && due != {}
        invariant |ids| <= limit && Picked(rows, all, due, ids)
        decreases due
      {
        var first := EarliestOf(rows, due);
        PickedOneMore(rows, all, due, ids, first);
        ids := ids + [first];
        due := due - {first};
      }
    }
  }

  /** Of all the overdue requests the earliest have been taken, in order, and `due` is left. */
  ghost predicate Picked(rows: Rows, all: set<Id>, due: set<Id>, ids: seq<Id>)
    requires all <= rows.Keys
  {
    && due <= all && (forall id :: id in all <==> id in due || id in ids)
    && (forall i :: 0 <= i < |ids| ==> ids[i] in all && ids[i] !in due)
    && Distinct(ids) && |due| + |ids| == |all|
    && (forall i, j :: 0 <= i < j < |ids| ==> ExpiryOf(rows, ids[i]) <= ExpiryOf(rows, ids[j]))
    && (forall i, id :: 0 <= i < |ids| && id in due ==> ExpiryOf(rows, ids[i]) <= ExpiryOf(rows, id))
  }

  lemma PickedOneMore(rows: Rows, all: set<Id>, due: set<Id>, ids: seq<Id>, first: Id)
    requires all <= rows.Keys && Picked(rows, all, due, ids) && first in due
    requires forall id :: id in due ==> ExpiryOf(rows, first) <= ExpiryOf(rows, id)
    ensures Picked(rows, all, due - {first}, ids + [first])
  {
    var more, left := ids + [first], due - {first};
    forall id ensures id in all <==> id in left || id in more {
      assert id in more <==> id in ids || id == first;
    }
    forall i | 0 <= i < |more| ensures more[i] in all && more[i] !in left {
      assert i < |ids| ==> more[i] == ids[i];
    }
    forall i, j | 0 <= i < j < |more|
      ensures more[i] != more[j] && ExpiryOf(rows, more[i]) <= ExpiryOf(rows, more[j])
    {
      assert more[i] == ids[i] && (j < |ids| ==> more[j] == ids[j]);
    }
  }

  method EarliestOf(rows: Rows, due: set<Id>) returns (first: Id)
    requires due != {} && due <= rows.Keys
    ensures first in due
    ensures forall id :: id in due ==> ExpiryOf(rows, first) <= ExpiryOf(rows, id)
  {
    first :| first in due;
    var todo := due - {first};
    while todo != {}
      invariant todo <= due && first in due
      invariant forall id :: id in due && id !in todo ==> ExpiryOf(rows, first) <= ExpiryOf(rows, id)
      decreases todo
    {
      var id :| id in todo;
      if ExpiryOf(rows, id) < ExpiryOf(rows, first) {
        first := id;
      }
      todo := todo - {id};
    }
  }

  method CountActiveHoldsByCustomer(rows: Rows, customer: Customer) returns (n: nat)
    ensures n == |ActiveRequests(rows, customer)|
  {
    n := 0;
    var todo := rows.Keys;
    ghost var counted: set<Id> := {};
    while todo != {}
      invariant todo <= rows.Keys
      invariant n == |counted|
      invariant forall id :: id in counted <==> id in ActiveRequests(rows, customer) && id !in todo
      decreases todo
    {
      var id :| id in todo;
      todo := todo - {id};
      var e := rows[id];
      if e.req.customer == customer && e.req.status == Reserved {
        var active := HasActiveHold(e.holds);
        if active {
          n := n + 1;
          counted := counted + {id};
        }
      }
    }
    assert counted == ActiveRequests(rows, customer);
  }

  method HasActiveHold(holds: seq<Hold>) returns (active: bool)
    ensures active == (Ledger.ActiveHolds(holds) != [])
  {
    ActiveHoldsEmpty(holds);
    var i := 0;
    while i < |holds|
      invariant 0 <= i <= |holds|
      invariant forall k :: 0 <= k < i ==> holds[k].status != Active
    {
      if holds[i].status == Active {
        return true;
      }
      i := i + 1;
    }
    active := false;
  }
}
