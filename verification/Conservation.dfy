/** Every transaction keeps the whole-database invariant, and only ever moves a request forward. */
module Conservation {
  import opened Domain
  import opened Ledger
  import opened Invariant
  import opened Settle

  // ---- how one step may change the database ---------------------------------------------------

  /** A row keeps its identity and lines, its events only grow, its status only moves along a permitted
      transition, and a row in a terminal status never changes again. */
  predicate RowForward(e: Entry, e': Entry) {
    && KeyOf(e'.req) == KeyOf(e.req)
    && e'.req.fingerprint == e.req.fingerprint
    && e'.req.createdAt == e.req.createdAt
    && e'.lines == e.lines
    && e.events <= e'.events
    && (e'.req.status == e.req.status || ValidateTransition(e.req.status, e'.req.status))
    && (e.req.status != Reserved ==> e' == e)
  }

  /** No row disappears and no (customer, key) pair is ever bound to another request. */
  predicate Forward(db: Db, db': Db) {
    && (forall id :: id in db.rows ==> id in db'.rows && RowForward(db.rows[id], db'.rows[id]))
    && (forall k :: k in db.idem ==> k in db'.idem && db'.idem[k] == db.idem[k])
  }

  lemma RowForwardTransitive(a: Entry, b: Entry, c: Entry)
    requires RowForward(a, b) && RowForward(b, c)
    ensures RowForward(a, c)
  {
    assert forall i :: 0 <= i < |a.events| ==> a.events[i] == b.events[i] == c.events[i];
  }

  lemma ForwardTransitive(a: Db, b: Db, c: Db)
    requires Forward(a, b) && Forward(b, c)
    ensures Forward(a, c)
  {
    forall id | id in a.rows ensures id in c.rows && RowForward(a.rows[id], c.rows[id]) {
      RowForwardTransitive(a.rows[id], b.rows[id], c.rows[id]);
    }
  }

  lemma {:induction false} ExtensionsMonotone(xs: seq<Event>, ys: seq<Event>)
    requires xs <= ys
    ensures Extensions(xs) <= Extensions(ys)
    decreases |ys|
  {
    if |xs| < |ys| {
      ExtensionsMonotone(xs, ys[..|ys| - 1]);
    } else {
      assert xs == ys;
    }
  }

  // ---- writing one row ------------------------------------------------------------------------

  /** A pool's counters move by exactly the difference between the new and the old row. */
  predicate PoolFollows(db: Db, id: Id, e: Entry, db': Db, p: Id)
    requires p in db.pools
  {
    && p in db'.pools
    && db'.pools[p] == db.pools[p].(
         reserved := db.pools[p].reserved - HeldIn(db.rows, id, p) + HeldOn(e.holds, p),
         dedicated := db.pools[p].dedicated - DedicatedIn(db.rows, id, p) + DedicatedOn(e.dedications, p))
    && db'.pools[p].reserved + db'.pools[p].dedicated <= db'.pools[p].effective
  }

  /** So does every quota row. */
  ghost predicate QuotaFollows(base: Base, db: Db, id: Id, e: Entry, db': Db, key: QuotaKey) {
    var q, q' := QuotaRow(db.quotas, key), QuotaRow(db'.quotas, key);
    && q' == q.(used := q.used - ChargedIn(base.pools, db.rows, id, key) + ChargedBy(base.pools, e, key))
    && q'.used <= q'.limit
    && (key in db.quotas ==> key in db'.quotas)
  }

  ghost predicate CountersFollow(base: Base, db: Db, id: Id, e: Entry, db': Db) {
    && db'.pools.Keys == db.pools.Keys
    && (forall p :: p in db.pools ==> PoolFollows(db, id, e, db', p))
    && (forall key :: QuotaFollows(base, db, id, e, db', key))
  }

  lemma WriteKeepsInvariant(cfg: Config, base: Base, db: Db, id: Id, e: Entry, db': Db)
    requires DbOk(cfg, base, db)
    requires EntryOk(cfg, base.pools, id, e)
    requires db'.rows == db.rows[id := e] && IdemOk(db')
    requires CountersFollow(base, db, id, e, db')
    ensures DbOk(cfg, base, db')
  {
    forall p | p in base.pools ensures PoolOk(base, db'.rows, p, db'.pools[p]) {
      assert PoolOk(base, db.rows, p, db.pools[p]) && PoolFollows(db, id, e, db', p);
      WriteRow(base.pools, db.rows, id, e, p, QuotaKey("", ""));
    }
    forall key ensures QuotaOk(base, db', key) {
      assert QuotaOk(base, db, key) && QuotaFollows(base, db, id, e, db', key);
      WriteRow(base.pools, db.rows, id, e, 0, key);
    }
  }

  lemma UpdateKeepsIdem(db: Db, id: Id, e: Entry, db': Db)
    requires IdemOk(db) && id in db.rows && KeyOf(e.req) == KeyOf(db.rows[id].req)
    requires db'.rows == db.rows[id := e] && db'.idem == db.idem
    ensures IdemOk(db')
  {
  }

  lemma UpdateForward(db: Db, id: Id, e: Entry, db': Db)
    requires id in db.rows && RowForward(db.rows[id], e)
    requires db'.rows == db.rows[id := e] && db'.idem == db.idem
    ensures Forward(db, db')
  {
  }

  /** Rewriting a row in place, with the counters following, keeps the invariant. */
  lemma UpdateKeepsInvariant(cfg: Config, base: Base, db: Db, id: Id, e: Entry, db': Db)
    requires DbOk(cfg, base, db) && id in db.rows
    requires EntryOk(cfg, base.pools, id, e) && KeyOf(e.req) == KeyOf(db.rows[id].req)
    requires db'.rows == db.rows[id := e] && db'.idem == db.idem
    requires CountersFollow(base, db, id, e, db')
    ensures DbOk(cfg, base, db')
  {
    UpdateKeepsIdem(db, id, e, db');
    WriteKeepsInvariant(cfg, base, db, id, e, db');
  }

  // ---- facts about a RESERVED request ---------------------------------------------------------

  /** The premises under which no guard of confirm or release can fail. */
  lemma ReservedIsCovered(cfg: Config, base: Base, db: Db, id: Id)
    requires DbOk(cfg, base, db) && id in db.rows && db.rows[id].req.status == Reserved
    ensures Covered(db.pools, db.rows[id].holds)
    ensures Chargeable(base.pools, db.quotas, db.rows[id].req.customer,
                       KindByPool(db.rows[id].lines), db.rows[id].holds)
  {
    EntryIsCovered(cfg, base, db, id);
    EntryIsChargeable(cfg, base, db, id);
  }

  lemma EntryIsCovered(cfg: Config, base: Base, db: Db, id: Id)
    requires RowsOk(cfg, base, db.rows) && PoolsOk(base, db) && id in db.rows && db.rows[id].req.status == Reserved
    ensures Covered(db.pools, db.rows[id].holds)
  {
    var e := db.rows[id];
    assert EntryOk(cfg, base.pools, id, e);
    forall p | p in db.pools ensures db.pools[p].reserved >= HeldOn(e.holds, p) {
      assert PoolOk(base, db.rows, p, db.pools[p]);
      SharesWithinTotals(cfg, base, db.rows, p, QuotaKey("", ""));
    }
  }

  lemma EntryIsChargeable(cfg: Config, base: Base, db: Db, id: Id)
    requires GoodBase(base) && RowsOk(cfg, base, db.rows) && QuotasOk(base, db)
    requires id in db.rows && db.rows[id].req.status == Reserved
    ensures Chargeable(base.pools, db.quotas, db.rows[id].req.customer,
                       KindByPool(db.rows[id].lines), db.rows[id].holds)
  {
    var e := db.rows[id];
    assert EntryOk(cfg, base.pools, id, e);
    forall i | 0 <= i < |e.holds|
      ensures e.holds[i].poolId in KindByPool(e.lines)
      ensures KindByPool(e.lines)[e.holds[i].poolId] == base.pools[e.holds[i].poolId].kind != ""
    {
      KindByPoolHits(e.lines, i);
    }
    forall kind
      ensures QuotaRow(db.quotas, QuotaKey(e.req.customer, kind)).used >= ChargedOn(base.pools, e.holds, kind)
      ensures QuotaKey(e.req.customer, kind) !in db.quotas ==> ChargedOn(base.pools, e.holds, kind) == 0
    {
      KindIsChargeable(cfg, base, db, id, kind);
    }
  }

  lemma KindIsChargeable(cfg: Config, base: Base, db: Db, id: Id, kind: Kind)
    requires GoodBase(base) && RowsOk(cfg, base, db.rows) && QuotasOk(base, db) && id in db.rows
    ensures var key := QuotaKey(db.rows[id].req.customer, kind);
      var charged := ChargedOn(base.pools, db.rows[id].holds, kind);
      QuotaRow(db.quotas, key).used >= charged && (key !in db.quotas ==> charged == 0)
  {
    var e := db.rows[id];
    var key := QuotaKey(e.req.customer, kind);
    assert EntryOk(cfg, base.pools, id, e) && QuotaOk(base, db, key);
    SharesWithinTotals(cfg, base, db.rows, 0, key);
    assert ChargedBy(base.pools, e, key) == ChargedOn(base.pools, e.holds, kind);
    EntryShares(cfg, base.pools, id, e, 0, kind);
  }

  lemma CountersWithinLimits(base: Base, db: Db, p: Id, key: QuotaKey)
    requires PoolsOk(base, db) && QuotasOk(base, db)
    ensures p in db.pools ==> db.pools[p].reserved + db.pools[p].dedicated <= db.pools[p].effective
    ensures QuotaRow(db.quotas, key).used <= QuotaRow(db.quotas, key).limit
  {
    assert p in db.pools ==> PoolOk(base, db.rows, p, db.pools[p]);
    assert QuotaOk(base, db, key);
  }

  // ---- confirm --------------------------------------------------------------------------------

  function ConfirmedEntry(id: Id, e: Entry): Entry {
    Entry(e.req.(status := Completed), e.lines, HoldsOf(id, e.lines, HoldStatus.Dedicated),
          DedicationsFor(HoldsOf(id, e.lines, Active)), e.events + [EventConfirmed])
  }

  lemma ConfirmedEntryOk(cfg: Config, pools: Pools, id: Id, e: Entry)
    requires EntryOk(cfg, pools, id, e) && e.req.status == Reserved
    ensures EntryOk(cfg, pools, id, ConfirmedEntry(id, e)) && RowForward(e, ConfirmedEntry(id, e))
  {
    var e' := ConfirmedEntry(id, e);
    assert e'.events[..|e'.events| - 1] == e.events;
    assert e'.dedications == DedicationsOf(id, e');
  }

  lemma ConfirmCovered(db: Db, id: Id)
    requires id in db.rows && db.rows[id].req.status == Reserved
    requires db.rows[id].holds == HoldsOf(id, db.rows[id].lines, Active) && db.rows[id].dedications == []
    requires Covered(db.pools, db.rows[id].holds)
    ensures ConfirmWith(db, id, db.rows[id].holds)
         == (db.(pools := AfterMove(db.pools, db.rows[id].holds),
                 rows := db.rows[id := ConfirmedEntry(id, db.rows[id])]), true)
  {
    var e := db.rows[id];
    MarkListed(id, e.lines, HoldStatus.Dedicated);
    MoveAllExact(db.pools, e.holds);
    assert [] + DedicationsFor(e.holds) == DedicationsFor(e.holds);
  }

  /** Confirm commits iff the request is RESERVED; it then turns every hold into a dedication of the
      same pool and amount, moves exactly that much from reserved to dedicated, and leaves the quotas
      alone. Otherwise nothing changes. */
  lemma ConfirmExact(cfg: Config, base: Base, db: Db, id: Id)
    requires DbOk(cfg, base, db)
    ensures ConfirmTx(db, id) ==
      if id in db.rows && db.rows[id].req.status == Reserved then
        (db.(pools := AfterMove(db.pools, db.rows[id].holds),
             rows := db.rows[id := ConfirmedEntry(id, db.rows[id])]), true)
      else
        (db, false)
  {
    if id in db.rows && db.rows[id].req.status == Reserved {
      ListedHolds(cfg, base, db, id);
      assert EntryOk(cfg, base.pools, id, db.rows[id]);
      ReservedIsCovered(cfg, base, db, id);
      ConfirmCovered(db, id);
    }
  }

  lemma ConfirmFollows(cfg: Config, base: Base, db: Db, id: Id, db': Db, p: Id, key: QuotaKey)
    requires id in db.rows && EntryOk(cfg, base.pools, id, db.rows[id]) && db.rows[id].req.status == Reserved
    requires db'.pools == AfterMove(db.pools, db.rows[id].holds) && db'.quotas == db.quotas
    requires p in db.pools ==> db.pools[p].reserved + db.pools[p].dedicated <= db.pools[p].effective
    requires QuotaRow(db.quotas, key).used <= QuotaRow(db.quotas, key).limit
    ensures p in db.pools ==> PoolFollows(db, id, ConfirmedEntry(id, db.rows[id]), db', p)
    ensures QuotaFollows(base, db, id, ConfirmedEntry(id, db.rows[id]), db', key)
  {
    var e := db.rows[id];
    ConfirmedEntryOk(cfg, base.pools, id, e);
    EntryShares(cfg, base.pools, id, e, p, key.kind);
    EntryShares(cfg, base.pools, id, ConfirmedEntry(id, e), p, key.kind);
  }

  lemma ConfirmCounters(cfg: Config, base: Base, db: Db, id: Id, db': Db)
    requires PoolsOk(base, db) && QuotasOk(base, db)
    requires id in db.rows && EntryOk(cfg, base.pools, id, db.rows[id]) && db.rows[id].req.status == Reserved
    requires db'.pools == AfterMove(db.pools, db.rows[id].holds) && db'.quotas == db.quotas
    ensures CountersFollow(base, db, id, ConfirmedEntry(id, db.rows[id]), db')
  {
    forall p: Id ensures p in db.pools ==> PoolFollows(db, id, ConfirmedEntry(id, db.rows[id]), db', p) {
      CountersWithinLimits(base, db, p, QuotaKey("", ""));
      ConfirmFollows(cfg, base, db, id, db', p, QuotaKey("", ""));
    }
    forall key ensures QuotaFollows(base, db, id, ConfirmedEntry(id, db.rows[id]), db', key) {
      CountersWithinLimits(base, db, 0, key);
      ConfirmFollows(cfg, base, db, id, db', 0, key);
    }
  }

  lemma ConfirmKeepsInvariant(cfg: Config, base: Base, db: Db, id: Id)
    requires DbOk(cfg, base, db)
    ensures DbOk(cfg, base, ConfirmTx(db, id).0)
  {
    ConfirmExact(cfg, base, db, id);
    if id in db.rows && db.rows[id].req.status == Reserved {
      var db' := ConfirmTx(db, id).0;
      ConfirmedEntryOk(cfg, base.pools, id, db.rows[id]);
      ConfirmCounters(cfg, base, db, id, db');
      UpdateKeepsInvariant(cfg, base, db, id, ConfirmedEntry(id, db.rows[id]), db');
    }
  }

  lemma ConfirmForward(cfg: Config, base: Base, db: Db, id: Id)
    requires DbOk(cfg, base, db)
    ensures Forward(db, ConfirmTx(db, id).0)
  {
    ConfirmExact(cfg, base, db, id);
    if id in db.rows && db.rows[id].req.status == Reserved {
      ConfirmedEntryOk(cfg, base.pools, id, db.rows[id]);
      UpdateForward(db, id, ConfirmedEntry(id, db.rows[id]), ConfirmTx(db, id).0);
    }
  }

  // ---- release --------------------------------------------------------------------------------

  function ReleasedEntry(id: Id, e: Entry, terminal: Status): Entry {
    Entry(e.req.(status := terminal), e.lines, HoldsOf(id, e.lines, HoldTarget(terminal)),
          e.dedications, e.events + [EventFor(terminal)])
  }

  lemma ReleasedEntryOk(cfg: Config, pools: Pools, id: Id, e: Entry, terminal: Status)
    requires EntryOk(cfg, pools, id, e) && e.req.status == Reserved && terminal in {Cancelled, Expired}
    ensures EntryOk(cfg, pools, id, ReleasedEntry(id, e, terminal)) && RowForward(e, ReleasedEntry(id, e, terminal))
  {
    var e' := ReleasedEntry(id, e, terminal);
    assert e'.events[..|e'.events| - 1] == e.events;
  }

  lemma ReleaseCovered(pools: Pools, db: Db, id: Id, terminal: Status)
    requires id in db.rows && db.rows[id].req.status == Reserved && terminal in {Cancelled, Expired}
    requires db.rows[id].holds == HoldsOf(id, db.rows[id].lines, Active)
    requires Covered(db.pools, db.rows[id].holds)
    requires Chargeable(pools, db.quotas, db.rows[id].req.customer, KindByPool(db.rows[id].lines), db.rows[id].holds)
    ensures ReleasedExactly(pools, db, id, terminal,
                            ReleaseWith(db, id, db.rows[id].req.customer, db.rows[id].holds, terminal))
  {
    var e := db.rows[id];
    MarkListed(id, e.lines, HoldTarget(terminal));
    ReleaseAllExact(db.pools, e.holds);
    RefundAllExact(pools, db.quotas, e.req.customer, KindByPool(e.lines), e.holds);
  }

  ghost predicate ReleasedExactly(pools: Pools, db: Db, id: Id, terminal: Status, db': Db)
    requires id in db.rows
  {
    && db'.pools == AfterRelease(db.pools, db.rows[id].holds)
    && AfterRefund(pools, db.quotas, db.rows[id].req.customer, db.rows[id].holds, db'.quotas)
    && db'.rows == db.rows[id := ReleasedEntry(id, db.rows[id], terminal)]
    && db'.idem == db.idem
  }

  /** Cancel and expiry release exactly what the request holds and refund exactly what its creation
      charged; on a request that has already moved on they change nothing at all. */
  lemma ReleaseExact(cfg: Config, base: Base, db: Db, id: Id, customer: Customer, terminal: Status)
    requires DbOk(cfg, base, db) && terminal in {Cancelled, Expired}
    requires id in db.rows ==> customer == db.rows[id].req.customer
    ensures var db' := ReleaseTx(db, id, customer, terminal);
      if id in db.rows && db.rows[id].req.status == Reserved then
        ReleasedExactly(base.pools, db, id, terminal, db')
      else
        db' == db
  {
    ListedHolds(cfg, base, db, id);
    if id in db.rows {
      var e := db.rows[id];
      if e.req.status == Reserved {
        assert EntryOk(cfg, base.pools, id, e);
        ReservedIsCovered(cfg, base, db, id);
        ReleaseCovered(base.pools, db, id, terminal);
      } else {
        assert db.rows[id := e] == db.rows;
      }
    }
  }

  lemma ReleaseFollows(cfg: Config, base: Base, db: Db, id: Id, terminal: Status, db': Db, p: Id, key: QuotaKey)
    requires id in db.rows && EntryOk(cfg, base.pools, id, db.rows[id])
    requires db.rows[id].req.status == Reserved && terminal in {Cancelled, Expired}
    requires Chargeable(base.pools, db.quotas, db.rows[id].req.customer, KindByPool(db.rows[id].lines), db.rows[id].holds)
    requires ReleasedExactly(base.pools, db, id, terminal, db')
    requires p in db.pools ==> db.pools[p].reserved + db.pools[p].dedicated <= db.pools[p].effective
    requires QuotaRow(db.quotas, key).used <= QuotaRow(db.quotas, key).limit
    ensures p in db.pools ==> PoolFollows(db, id, ReleasedEntry(id, db.rows[id], terminal), db', p)
    ensures QuotaFollows(base, db, id, ReleasedEntry(id, db.rows[id], terminal), db', key)
  {
    var e, e' := db.rows[id], ReleasedEntry(id, db.rows[id], terminal);
    ReleasedEntryOk(cfg, base.pools, id, e, terminal);
    EntryShares(cfg, base.pools, id, e, p, key.kind);
    EntryShares(cfg, base.pools, id, e', p, key.kind);
    if key.customer == e.req.customer {
      assert key == QuotaKey(e.req.customer, key.kind);
    }
  }

  lemma ReleaseCounters(cfg: Config, base: Base, db: Db, id: Id, terminal: Status, db': Db)
    requires PoolsOk(base, db) && QuotasOk(base, db)
    requires id in db.rows && EntryOk(cfg, base.pools, id, db.rows[id])
    requires db.rows[id].req.status == Reserved && terminal in {Cancelled, Expired}
    requires Chargeable(base.pools, db.quotas, db.rows[id].req.customer, KindByPool(db.rows[id].lines), db.rows[id].holds)
    requires ReleasedExactly(base.pools, db, id, terminal, db')
    ensures CountersFollow(base, db, id, ReleasedEntry(id, db.rows[id], terminal), db')
  {
    forall p: Id ensures p in db.pools ==> PoolFollows(db, id, ReleasedEntry(id, db.rows[id], terminal), db', p) {
      CountersWithinLimits(base, db, p, QuotaKey("", ""));
      ReleaseFollows(cfg, base, db, id, terminal, db', p, QuotaKey("", ""));
    }
    forall key ensures QuotaFollows(base, db, id, ReleasedEntry(id, db.rows[id], terminal), db', key) {
      CountersWithinLimits(base, db, 0, key);
      ReleaseFollows(cfg, base, db, id, terminal, db', 0, key);
    }
  }

  lemma ReleaseKeepsInvariant(cfg: Config, base: Base, db: Db, id: Id, customer: Customer, terminal: Status)
    requires DbOk(cfg, base, db) && terminal in {Cancelled, Expired}
    requires id in db.rows ==> customer == db.rows[id].req.customer
    ensures DbOk(cfg, base, ReleaseTx(db, id, customer, terminal))
  {
    ReleaseExact(cfg, base, db, id, customer, terminal);
    if id in db.rows && db.rows[id].req.status == Reserved {
      var db' := ReleaseTx(db, id, customer, terminal);
      ReleasedEntryOk(cfg, base.pools, id, db.rows[id], terminal);
      ReservedIsCovered(cfg, base, db, id);
      ReleaseCounters(cfg, base, db, id, terminal, db');
      UpdateKeepsInvariant(cfg, base, db, id, ReleasedEntry(id, db.rows[id], terminal), db');
    }
  }

  lemma ReleaseForward(cfg: Config, base: Base, db: Db, id: Id, customer: Customer, terminal: Status)
    requires DbOk(cfg, base, db) && terminal in {Cancelled, Expired}
    requires id in db.rows ==> customer == db.rows[id].req.customer
    ensures Forward(db, ReleaseTx(db, id, customer, terminal))
  {
    ReleaseExact(cfg, base, db, id, customer, terminal);
    if id in db.rows && db.rows[id].req.status == Reserved {
      ReleasedEntryOk(cfg, base.pools, id, db.rows[id], terminal);
      UpdateForward(db, id, ReleasedEntry(id, db.rows[id], terminal), ReleaseTx(db, id, customer, terminal));
    }
  }

  // ---- extend ---------------------------------------------------------------------------------

  /** What a caller remembers of a request it read some time ago. */
  predicate SnapshotOk(cfg: Config, db: Db, id: Id, snap: Request) {
    && id in db.rows
    && KeyOf(snap) == KeyOf(db.rows[id].req)
    && snap.createdAt == db.rows[id].req.createdAt
    && ExpiryOk(cfg, snap)
    && snap.extensionCount <= Extensions(db.rows[id].events)
  }

  lemma SnapshotForward(cfg: Config, db: Db, db': Db, id: Id, snap: Request)
    requires SnapshotOk(cfg, db, id, snap) && Forward(db, db')
    ensures SnapshotOk(cfg, db', id, snap)
  {
    ExtensionsMonotone(db.rows[id].events, db'.rows[id].events);
  }

  /** The service's checks on the snapshot, then the new expiry time: None when refused. */
  function ExtendTarget(cfg: Config, snap: Request, now: Time): Option<Time> {
    if snap.status != Reserved then None
    else if snap.expiresAt.Some? && snap.expiresAt.value <= now then None
    else if snap.extensionCount >= cfg.maxExtensions then None
    else
      var from := if snap.expiresAt.Some? && snap.expiresAt.value > now then snap.expiresAt.value else now;
      var target := from + cfg.ttl;
      if snap.createdAt + cfg.wallTime < target then None else Some(target)
  }

  lemma ExtendedEntryOk(cfg: Config, base: Base, db: Db, id: Id, snap: Request, now: Time)
    requires SnapshotOk(cfg, db, id, snap) && ExtendTarget(cfg, snap, now).Some?
    requires EntryOk(cfg, base.pools, id, db.rows[id]) && db.rows[id].req.status == Reserved
    ensures var e' := ExtendTx(db, id, ExtendTarget(cfg, snap, now).value, snap.extensionCount + 1).0.rows[id];
      EntryOk(cfg, base.pools, id, e') && RowForward(db.rows[id], e')
  {
    var target := ExtendTarget(cfg, snap, now).value;
    var e' := ExtendTx(db, id, target, snap.extensionCount + 1).0.rows[id];
    assert e'.events[..|e'.events| - 1] == db.rows[id].events;
    assert target == ExpiryAt(cfg, snap.createdAt, snap.extensionCount + 1);
  }

  lemma UnchangedCounters(base: Base, db: Db, id: Id, e: Entry, db': Db)
    requires PoolsOk(base, db) && QuotasOk(base, db) && id in db.rows
    requires db'.pools == db.pools && db'.quotas == db.quotas
    requires e.holds == db.rows[id].holds && e.dedications == db.rows[id].dedications
    requires KeyOf(e.req) == KeyOf(db.rows[id].req)
    ensures CountersFollow(base, db, id, e, db')
  {
    forall p: Id ensures p in db.pools ==> PoolFollows(db, id, e, db', p) {
      CountersWithinLimits(base, db, p, QuotaKey("", ""));
    }
    forall key ensures QuotaFollows(base, db, id, e, db', key) {
      CountersWithinLimits(base, db, 0, key);
    }
  }

  /** An extension computed from a stale snapshot still keeps the expiry in closed form. */
  lemma ExtendKeepsInvariant(cfg: Config, base: Base, db: Db, id: Id, snap: Request, now: Time)
    requires DbOk(cfg, base, db) && SnapshotOk(cfg, db, id, snap)
    requires ExtendTarget(cfg, snap, now).Some?
    ensures DbOk(cfg, base, ExtendTx(db, id, ExtendTarget(cfg, snap, now).value, snap.extensionCount + 1).0)
  {
    var (db', ok) := ExtendTx(db, id, ExtendTarget(cfg, snap, now).value, snap.extensionCount + 1);
    if ok {
      ExtendedEntryOk(cfg, base, db, id, snap, now);
      UnchangedCounters(base, db, id, db'.rows[id], db');
      UpdateKeepsInvariant(cfg, base, db, id, db'.rows[id], db');
    }
  }

  lemma ExtendForward(db: Db, id: Id, target: Time, count: nat)
    ensures Forward(db, ExtendTx(db, id, target, count).0)
  {
    var (db', ok) := ExtendTx(db, id, target, count);
    if ok { UpdateForward(db, id, db'.rows[id], db'); }
  }
}
