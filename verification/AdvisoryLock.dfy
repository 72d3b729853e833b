/** The sweeper's advisory lock: sessions of one connection pool, one re-entrant session lock in the
    database, and any number of Locker instances that pin the connection they locked on. */
module AdvisoryLock {
  import opened Domain

  type Session = nat

  /** What a Locker is doing; the mutex lets one call of it run at a time. */
  datatype Phase =
    | Free
    | Trying(conn: Session)
    | Pinned(conn: Session)
    | Unlocking(conn: Session)

  /** The database side: who owns the lock and how often. */
  datatype Server = Server(owner: Option<Session>, depth: nat)

  datatype System = System(lockers: map<nat, Phase>, borrowed: set<Session>, server: Server)

  /** pg_try_advisory_lock: a session that owns the lock gets it again. */
  function TryAdvisory(server: Server, s: Session): (Server, bool) {
    match server.owner
    case None => (Server(Some(s), 1), true)
    case Some(o) => if o == s then (Server(Some(s), server.depth + 1), true) else (server, false)
  }

  /** pg_advisory_unlock: gives back one level if this session owns the lock. */
  function UnlockAdvisory(server: Server, s: Session): Server {
    if server.owner == Some(s) then
      if server.depth <= 1 then Server(None, 0) else Server(Some(s), server.depth - 1)
    else
      server
  }

  // ---- steps ----------------------------------------------------------------------------------

  datatype Move =
    | Acquire(l: nat, conn: Session)
    | Query(l: nat)
    | ExecUnlock(l: nat)
    | Release(l: nat)
    | Borrow(conn: Session)
    | Return(conn: Session)

  predicate Uses(p: Phase, s: Session) { !p.Free? && p.conn == s }

  /** The pool hands out only connections nobody is using. */
  predicate Available(sys: System, s: Session) {
    s !in sys.borrowed && forall l :: l in sys.lockers ==> !Uses(sys.lockers[l], s)
  }

  function Make(sys: System, m: Move): System {
    match m
    case Acquire(l, conn) =>
      if l in sys.lockers && sys.lockers[l].Free? && Available(sys, conn) then
        sys.(lockers := sys.lockers[l := Trying(conn)])
      else sys
    case Query(l) =>
      if l in sys.lockers && sys.lockers[l].Trying? then
        var s := sys.lockers[l].conn;
        var (server, ok) := TryAdvisory(sys.server, s);
        sys.(server := server, lockers := sys.lockers[l := if ok then Pinned(s) else Free])
      else sys
    case ExecUnlock(l) =>
      if l in sys.lockers && sys.lockers[l].Pinned? then
        var s := sys.lockers[l].conn;
        sys.(server := UnlockAdvisory(sys.server, s), lockers := sys.lockers[l := Unlocking(s)])
      else sys
    case Release(l) =>
      if l in sys.lockers && sys.lockers[l].Unlocking? then sys.(lockers := sys.lockers[l := Free]) else sys
    case Borrow(conn) => if Available(sys, conn) then sys.(borrowed := sys.borrowed + {conn}) else sys
    case Return(conn) => sys.(borrowed := sys.borrowed - {conn})
  }

  function AfterMoves(start: System, moves: seq<Move>): System {
    if |moves| == 0 then start else Make(AfterMoves(start, moves[..|moves| - 1]), moves[|moves| - 1])
  }

  /** Nothing locked, nothing pinned. */
  predicate Fresh(sys: System) {
    && (forall l :: l in sys.lockers ==> sys.lockers[l].Free?)
    && sys.server == Server(None, 0)
  }

  // ---- invariant ------------------------------------------------------------------------------

  predicate LockersOk(sys: System) {
    && (forall l, s :: l in sys.lockers && s in sys.borrowed ==> !Uses(sys.lockers[l], s))
    && (forall l, m :: l in sys.lockers && m in sys.lockers && l != m && !sys.lockers[l].Free? ==>
         !Uses(sys.lockers[m], sys.lockers[l].conn))
    && (forall l :: l in sys.lockers && sys.lockers[l].Pinned? ==> sys.server.owner == Some(sys.lockers[l].conn))
    && (sys.server.owner.Some? ==> exists l :: l in sys.lockers && sys.lockers[l] == Pinned(sys.server.owner.value))
    && sys.server.depth == (if sys.server.owner.Some? then 1 else 0)
  }

  lemma MoveKeeps(sys: System, m: Move)
    requires LockersOk(sys)
    ensures LockersOk(Make(sys, m))
  {
    var sys' := Make(sys, m);
    if sys.server.owner.Some? {
      var l :| l in sys.lockers && sys.lockers[l] == Pinned(sys.server.owner.value);
      assert sys'.server.owner == sys.server.owner ==> l in sys'.lockers && sys'.lockers[l] == sys.lockers[l];
    }
    if m.Query? && m.l in sys.lockers && sys.lockers[m.l].Trying? && sys.server.owner == None {
      assert sys'.lockers[m.l] == Pinned(sys'.server.owner.value);
    }
  }

  lemma {:induction false} MovesKeep(start: System, moves: seq<Move>)
    requires LockersOk(start)
    ensures LockersOk(AfterMoves(start, moves))
  {
    if |moves| > 0 {
      MovesKeep(start, moves[..|moves| - 1]);
      MoveKeeps(AfterMoves(start, moves[..|moves| - 1]), moves[|moves| - 1]);
    }
  }

  /** Mutual exclusion on every run: at most one Locker has a pinned connection, the database lock is
      held exactly by that connection and exactly once, and no other session holds it: in particular
      none that is back in the pool. */
  lemma AtMostOneSweeper(start: System, moves: seq<Move>)
    requires Fresh(start)
    ensures var sys := AfterMoves(start, moves);
      && (forall l, m :: l in sys.lockers && m in sys.lockers && sys.lockers[l].Pinned? && sys.lockers[m].Pinned? ==> l == m)
      && (forall l, s :: l in sys.lockers && sys.lockers[l] == Pinned(s) ==> sys.server == Server(Some(s), 1))
      && (forall s :: sys.server.owner == Some(s) ==>
           !Available(sys, s) && exists l :: l in sys.lockers && sys.lockers[l] == Pinned(s))
      && ((forall l :: l in sys.lockers ==> !sys.lockers[l].Pinned?) ==> sys.server.owner == None)
  {
    MovesKeep(start, moves);
  }

  // ---- the Locker object ----------------------------------------------------------------------

  /** What TryLock does to a locker and to the database; `acquired` is the connection the pool hands out,
      None when it cannot. */
  function TryLockEffect(phase: Phase, server: Server, acquired: Option<Session>): (Phase, Server, bool) {
    if !phase.Free? || acquired.None? then (phase, server, false)
    else
      var (after, ok) := TryAdvisory(server, acquired.value);
      (if ok then Pinned(acquired.value) else Free, after, ok)
  }

  function UnlockEffect(phase: Phase, server: Server): (Phase, Server) {
    match phase
    case Pinned(s) => (Free, UnlockAdvisory(server, s))
    case _ => (Free, server)
  }

  /** On every run a locker that is not sweeping is granted the lock exactly when no locker is; it is not
      refused for a lock that was given back. */
  lemma GrantedIffNobodySweeps(start: System, moves: seq<Move>, l: nat, s: Session)
    requires Fresh(start) && l in AfterMoves(start, moves).lockers && AfterMoves(start, moves).lockers[l].Free?
    requires Available(AfterMoves(start, moves), s)
    ensures var sys := AfterMoves(start, moves);
      var (phase, server, ok) := TryLockEffect(sys.lockers[l], sys.server, Some(s));
      && (ok <==> forall m :: m in sys.lockers ==> !sys.lockers[m].Pinned?)
      && (phase, server) == if ok then (Pinned(s), Server(Some(s), 1)) else (Free, sys.server)
  {
    MovesKeep(start, moves);
  }

  /** The locker that sweeps gives the lock back whole: after its Unlock nobody owns it. */
  lemma UnlockFrees(start: System, moves: seq<Move>, l: nat)
    requires Fresh(start) && l in AfterMoves(start, moves).lockers && AfterMoves(start, moves).lockers[l].Pinned?
    ensures var sys := AfterMoves(start, moves);
      UnlockEffect(sys.lockers[l], sys.server) == (Free, Server(None, 0))
  {
    MovesKeep(start, moves);
  }

  class Database {
    var server: Server

    constructor ()
      ensures server == Server(None, 0)
    {
      server := Server(None, 0);
    }

    method TryAdvisoryLock(s: Session) returns (ok: bool)
      modifies this
      ensures (server, ok) == TryAdvisory(old(server), s)
    {
      var (after, granted) := TryAdvisory(server, s);
      server, ok := after, granted;
    }

    method AdvisoryUnlock(s: Session)
      modifies this
      ensures server == UnlockAdvisory(old(server), s)
    {
      server := UnlockAdvisory(server, s);
    }
  }

  class Locker {
    const db: Database
    var conn: Option<Session>
    var key: int

    constructor (db: Database)
      ensures this.db == db && PhaseNow() == Free && key == 0
    {
      this.db := db;
      conn := None;
      key := 0;
    }

    /** The locker between calls, as the runs above see it. */
    function PhaseNow(): Phase
      reads this
    {
      match conn case None => Free case Some(s) => Pinned(s)
    }

    method TryLock(k: int, acquired: Option<Session>) returns (ok: bool)
      modifies this, db
      ensures (PhaseNow(), db.server, ok) == TryLockEffect(old(PhaseNow()), old(db.server), acquired)
      ensures key == if ok then k else old(key)
    {
      if conn.Some? || acquired.None? {
        return false;
      }
      ok := db.TryAdvisoryLock(acquired.value);
      if ok {
        conn := acquired;
        key := k;
      }
    }

    method Unlock(k: int)
      modifies this, db
      ensures (PhaseNow(), db.server) == UnlockEffect(old(PhaseNow()), old(db.server))
      ensures key == if old(conn).Some? then 0 else old(key)
    {
      if conn.None? {
        return;
      }
      db.AdvisoryUnlock(conn.value);
      conn := None;
      key := 0;
    }
  }

  // ---- the objects' calls are moves of the system -----------------------------------------------

  /** The moves of a TryLock: none when it returns early, else the pool hands out the connection and the
      query runs on it. */
  function TryLockMoves(phase: Phase, l: nat, acquired: Option<Session>): seq<Move> {
    if !phase.Free? || acquired.None? then [] else [Acquire(l, acquired.value), Query(l)]
  }

  function UnlockMoves(phase: Phase, l: nat): seq<Move> {
    if phase.Pinned? then [ExecUnlock(l), Release(l)] else []
  }

  lemma TwoMoves(sys: System, m: Move, n: Move)
    ensures AfterMoves(sys, []) == sys
    ensures AfterMoves(sys, [m, n]) == Make(Make(sys, m), n)
  {
    assert [m, n][..1] == [m] && [m][..0] == [];
  }

  /** A TryLock of locker l, on a connection the pool may hand out, takes the system to exactly the phase
      and the server its contract gives, and touches nothing else. */
  lemma TryLockIsMoves(sys: System, l: nat, acquired: Option<Session>)
    requires l in sys.lockers && (sys.lockers[l].Free? || sys.lockers[l].Pinned?)
    requires acquired.Some? && sys.lockers[l].Free? ==> Available(sys, acquired.value)
    ensures var (phase, server, ok) := TryLockEffect(sys.lockers[l], sys.server, acquired);
      AfterMoves(sys, TryLockMoves(sys.lockers[l], l, acquired))
      == System(sys.lockers[l := phase], sys.borrowed, server)
  {
    assert sys.lockers[l := sys.lockers[l]] == sys.lockers;
    if acquired.Some? && sys.lockers[l].Free? {
      TwoMoves(sys, Acquire(l, acquired.value), Query(l));
      assert sys.lockers[l := Trying(acquired.value)][l := Free] == sys.lockers;
    }
  }

  /** So does an Unlock: together with the other moves the runs above cover every use of the objects. */
  lemma UnlockIsMoves(sys: System, l: nat)
    requires l in sys.lockers && (sys.lockers[l].Free? || sys.lockers[l].Pinned?)
    ensures var (phase, server) := UnlockEffect(sys.lockers[l], sys.server);
      AfterMoves(sys, UnlockMoves(sys.lockers[l], l)) == System(sys.lockers[l := phase], sys.borrowed, server)
  {
    assert sys.lockers[l := sys.lockers[l]] == sys.lockers;
    if sys.lockers[l].Pinned? {
      TwoMoves(sys, ExecUnlock(l), Release(l));
      assert sys.lockers[l := Unlocking(sys.lockers[l].conn)][l := Free] == sys.lockers[l := Free];
    }
  }
}
