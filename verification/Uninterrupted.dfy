/** The interleaved programs against the serial calls: a call whose steps nothing interrupts does and answers
    exactly what the serial call does, and what each read lets through is told in the fields it read. */
module Uninterrupted {
  import opened Domain
  import opened Ledger
  import opened Invariant
  import opened Settle
  import opened Conservation
  import opened Reserve
  import opened Intake
  import opened CacheKey
  import opened Interleaving
  import opened Guarantees
  import opened Serial
  import opened Answers

  // ---- steps without interruption -----------------------------------------------------------------

  function EffectAfter(cfg: Config, cat: Catalogue, db: Db, cache: Cache, c: Id, call: Call, choice: Choice, n: nat): Effect
    decreases n
  {
    if n == 0 then Effect(db, cache, call)
    else
      var f := Next(cfg, cat, db, cache, c, call, choice);
      EffectAfter(cfg, cat, f.db, f.cache, c, f.call, choice, n - 1)
  }

  function WorldAfter(cfg: Config, cat: Catalogue, w: World, c: Id, choice: Choice, n: nat): World
    decreases n
  {
    if n == 0 then w else WorldAfter(cfg, cat, Step(cfg, cat, w, Advance(c, choice)), c, choice, n - 1)
  }

  predicate Ended(call: Call) {
    call.CreateReturned? || call.Finished? || call.Failed?
  }

  lemma {:induction false} EndedStays(cfg: Config, cat: Catalogue, db: Db, cache: Cache, c: Id, call: Call, choice: Choice, n: nat)
    requires Ended(call)
    ensures EffectAfter(cfg, cat, db, cache, c, call, choice, n) == Effect(db, cache, call)
    decreases n
  {
    if n > 0 { EndedStays(cfg, cat, db, cache, c, call, choice, n - 1); }
  }

  /** In the world, these steps change the database, the cache and the call's own place, nothing else. */
  lemma {:induction false} WorldFollows(cfg: Config, cat: Catalogue, w: World, c: Id, choice: Choice, n: nat)
    requires c in w.calls
    ensures var f := EffectAfter(cfg, cat, w.db, w.cache, c, w.calls[c], choice, n);
      WorldAfter(cfg, cat, w, c, choice, n) == World(f.db, f.cache, w.calls[c := f.call])
    decreases n
  {
    if n == 0 {
      assert w.calls[c := w.calls[c]] == w.calls;
    } else {
      var f := Next(cfg, cat, w.db, w.cache, c, w.calls[c], choice);
      var w1 := World(f.db, f.cache, w.calls[c := f.call]);
      WorldFollows(cfg, cat, w1, c, choice, n - 1);
      var g := EffectAfter(cfg, cat, f.db, f.cache, c, f.call, choice, n - 1);
      assert w.calls[c := f.call][c := g.call] == w.calls[c := g.call];
    }
  }

  /** What a call that has ended tells its client about request `id`. */
  function AnswerOf(call: Call, id: Id): Option<Outcome> {
    match call
    case CreateReturned(_, found) => Some(Returned(found))
    case Finished => Some(Returned(id))
    case Failed(reason) => Some(Refused(reason))
    case _ => None
  }

  /** Started in any world and left alone for n steps, the call ends with this database and answer, and no
      other call has moved. */
  predicate EndsWith(cfg: Config, cat: Catalogue, w: World, start: Label, c: Id, id: Id, choice: Choice, n: nat, db: Db, outcome: Outcome) {
    var after := WorldAfter(cfg, cat, Step(cfg, cat, w, start), c, choice, n);
    && c in after.calls && after.calls == w.calls[c := after.calls[c]]
    && after.db == db && AnswerOf(after.calls[c], id) == Some(outcome)
  }

  lemma StartedEnds(cfg: Config, cat: Catalogue, w: World, start: Label, c: Id, id: Id, choice: Choice, n: nat, call: Call, db: Db, outcome: Outcome)
    requires c !in w.calls && Step(cfg, cat, w, start) == w.(calls := w.calls[c := call])
    requires var f := EffectAfter(cfg, cat, w.db, w.cache, c, call, choice, n);
      f.db == db && AnswerOf(f.call, id) == Some(outcome)
    ensures EndsWith(cfg, cat, w, start, c, id, choice, n, db, outcome)
  {
    var f := EffectAfter(cfg, cat, w.db, w.cache, c, call, choice, n);
    WorldFollows(cfg, cat, w.(calls := w.calls[c := call]), c, choice, n);
    assert w.calls[c := call][c := f.call] == w.calls[c := f.call];
  }

  // ---- confirm, cancel, extend ------------------------------------------------------------------

  lemma TwoSteps(cfg: Config, cat: Catalogue, db: Db, cache: Cache, c: Id, call: Call, choice: Choice)
    ensures var f := Next(cfg, cat, db, cache, c, call, choice);
      EffectAfter(cfg, cat, db, cache, c, call, choice, 2) == Next(cfg, cat, f.db, f.cache, c, f.call, choice)
  {
    var f := Next(cfg, cat, db, cache, c, call, choice);
    var g := Next(cfg, cat, f.db, f.cache, c, f.call, choice);
    assert EffectAfter(cfg, cat, f.db, f.cache, c, f.call, choice, 1) == EffectAfter(cfg, cat, g.db, g.cache, c, g.call, choice, 0);
  }

  /** Two steps of a call end with this database and answer about `id`. */
  predicate TwoReach(cfg: Config, cat: Catalogue, db: Db, cache: Cache, c: Id, call: Call, id: Id, choice: Choice, db': Db, outcome: Outcome) {
    var f := EffectAfter(cfg, cat, db, cache, c, call, choice, 2);
    f.db == db' && AnswerOf(f.call, id) == Some(outcome)
  }

  lemma NextOfEnded(cfg: Config, cat: Catalogue, db: Db, cache: Cache, c: Id, call: Call, choice: Choice)
    requires Ended(call)
    ensures Next(cfg, cat, db, cache, c, call, choice) == Effect(db, cache, call)
  {
  }

  lemma NextOfConfirm(cfg: Config, cat: Catalogue, db: Db, cache: Cache, c: Id, id: Id, choice: Choice)
    ensures Next(cfg, cat, db, cache, c, ConfirmRead(id), choice) == ConfirmReadNext(db, cache, id, choice.now)
    ensures Next(cfg, cat, db, cache, c, ConfirmCommit(id), choice)
         == Effect(ConfirmTx(db, id).0, cache, if ConfirmTx(db, id).1 then Finished else Failed(Conflict))
  {
  }

  lemma NextOfCancel(cfg: Config, cat: Catalogue, db: Db, cache: Cache, c: Id, id: Id, choice: Choice)
    ensures Next(cfg, cat, db, cache, c, CancelRead(id), choice) == CancelReadNext(db, cache, id)
  {
  }

  lemma ConfirmReads(db: Db, cache: Cache, id: Id, now: Time)
    ensures var f, r := ConfirmReadNext(db, cache, id, now), ConfirmCall(db, id, now);
      && f.db == db && f.cache == cache
      && if f.call == ConfirmCommit(id) then r == (ConfirmTx(db, id).0, if ConfirmTx(db, id).1 then Returned(id) else Refused(Conflict))
         else Ended(f.call) && r.0 == db && AnswerOf(f.call, id) == Some(r.1)
  {
  }

  lemma CancelReads(db: Db, cache: Cache, id: Id)
    ensures var f, r := CancelReadNext(db, cache, id), CancelCall(db, id);
      && f.db == db && f.cache == cache
      && if f.call.CancelCommit? then f.call.id == id && r == (ReleaseTx(db, id, f.call.snap.customer, Cancelled), Returned(id))
         else Ended(f.call) && r.0 == db && AnswerOf(f.call, id) == Some(r.1)
  {
  }

  lemma ConfirmSteps(cfg: Config, cat: Catalogue, db: Db, cache: Cache, c: Id, id: Id, choice: Choice)
    ensures TwoReach(cfg, cat, db, cache, c, ConfirmRead(id), id, choice,
                     ConfirmCall(db, id, choice.now).0, ConfirmCall(db, id, choice.now).1)
  {
    TwoSteps(cfg, cat, db, cache, c, ConfirmRead(id), choice);
    NextOfConfirm(cfg, cat, db, cache, c, id, choice);
    ConfirmReads(db, cache, id, choice.now);
    var call := ConfirmReadNext(db, cache, id, choice.now).call;
    if call != ConfirmCommit(id) { NextOfEnded(cfg, cat, db, cache, c, call, choice); }
  }

  lemma CancelSteps(cfg: Config, cat: Catalogue, db: Db, cache: Cache, c: Id, id: Id, choice: Choice)
    ensures TwoReach(cfg, cat, db, cache, c, CancelRead(id), id, choice, CancelCall(db, id).0, CancelCall(db, id).1)
  {
    TwoSteps(cfg, cat, db, cache, c, CancelRead(id), choice);
    CancelReads(db, cache, id);
    var call := CancelReadNext(db, cache, id).call;
    NextOfCancel(cfg, cat, db, cache, c, id, choice);
    if call.CancelCommit? {
      CommitIsRelease(cfg, cat, db, cache, c, id, call.snap, [], choice);
    } else {
      NextOfEnded(cfg, cat, db, cache, c, call, choice);
    }
  }

  lemma NextOfExtend(cfg: Config, cat: Catalogue, db: Db, cache: Cache, c: Id, id: Id, snap: Request, choice: Choice)
    ensures Next(cfg, cat, db, cache, c, ExtendRead(id), choice) == ExtendReadNext(cfg, db, cache, id, choice.now)
    ensures Next(cfg, cat, db, cache, c, ExtendCommit(id, snap, choice.now), choice) == ExtendCommitNext(cfg, db, cache, id, snap, choice.now)
  {
  }

  lemma ExtendReads(cfg: Config, db: Db, cache: Cache, id: Id, now: Time)
    ensures var f, r := ExtendReadNext(cfg, db, cache, id, now), ExtendCall(cfg, db, id, now);
      && f.db == db && f.cache == cache
      && if id in db.rows && f.call == ExtendCommit(id, db.rows[id].req, now) then
           var g := ExtendCommitNext(cfg, db, cache, id, db.rows[id].req, now);
           r.0 == g.db && AnswerOf(g.call, id) == Some(r.1)
         else Ended(f.call) && r.0 == db && AnswerOf(f.call, id) == Some(r.1)
  {
  }

  lemma ExtendSteps(cfg: Config, cat: Catalogue, db: Db, cache: Cache, c: Id, id: Id, choice: Choice)
    ensures TwoReach(cfg, cat, db, cache, c, ExtendRead(id), id, choice,
                     ExtendCall(cfg, db, id, choice.now).0, ExtendCall(cfg, db, id, choice.now).1)
  {
    TwoSteps(cfg, cat, db, cache, c, ExtendRead(id), choice);
    ExtendReads(cfg, db, cache, id, choice.now);
    var call := ExtendReadNext(cfg, db, cache, id, choice.now).call;
    if id in db.rows { NextOfExtend(cfg, cat, db, cache, c, id, db.rows[id].req, choice); }
    if Ended(call) { NextOfEnded(cfg, cat, db, cache, c, call, choice); }
  }

  lemma TwoEnd(cfg: Config, cat: Catalogue, w: World, start: Label, c: Id, id: Id, choice: Choice, call: Call, db: Db, outcome: Outcome)
    requires c !in w.calls && Step(cfg, cat, w, start) == w.(calls := w.calls[c := call])
    requires TwoReach(cfg, cat, w.db, w.cache, c, call, id, choice, db, outcome)
    ensures EndsWith(cfg, cat, w, start, c, id, choice, 2, db, outcome)
  {
    StartedEnds(cfg, cat, w, start, c, id, choice, 2, call, db, outcome);
  }

  lemma Starts(cfg: Config, cat: Catalogue, w: World, c: Id, id: Id)
    requires c !in w.calls
    ensures Step(cfg, cat, w, StartConfirm(c, id)) == w.(calls := w.calls[c := ConfirmRead(id)])
    ensures Step(cfg, cat, w, StartCancel(c, id)) == w.(calls := w.calls[c := CancelRead(id)])
    ensures Step(cfg, cat, w, StartExtend(c, id)) == w.(calls := w.calls[c := ExtendRead(id)])
    ensures Step(cfg, cat, w, StartSweep(c)) == w.(calls := w.calls[c := SweepList])
  {
  }

  /** Uninterrupted, a confirm is the serial confirm. */
  lemma ConfirmIsSerial(cfg: Config, cat: Catalogue, w: World, c: Id, id: Id, choice: Choice, db': Db, outcome: Outcome)
    requires c !in w.calls && (db', outcome) == ConfirmCall(w.db, id, choice.now)
    ensures EndsWith(cfg, cat, w, StartConfirm(c, id), c, id, choice, 2, db', outcome)
  {
    Starts(cfg, cat, w, c, id);
    ConfirmSteps(cfg, cat, w.db, w.cache, c, id, choice);
    TwoEnd(cfg, cat, w, StartConfirm(c, id), c, id, choice, ConfirmRead(id), db', outcome);
  }

  /** A cancel is the serial cancel. */
  lemma CancelIsSerial(cfg: Config, cat: Catalogue, w: World, c: Id, id: Id, choice: Choice, db': Db, outcome: Outcome)
    requires c !in w.calls && (db', outcome) == CancelCall(w.db, id)
    ensures EndsWith(cfg, cat, w, StartCancel(c, id), c, id, choice, 2, db', outcome)
  {
    Starts(cfg, cat, w, c, id);
    CancelSteps(cfg, cat, w.db, w.cache, c, id, choice);
    TwoEnd(cfg, cat, w, StartCancel(c, id), c, id, choice, CancelRead(id), db', outcome);
  }

  /** An extend is the serial extend. */
  lemma ExtendIsSerial(cfg: Config, cat: Catalogue, w: World, c: Id, id: Id, choice: Choice, db': Db, outcome: Outcome)
    requires c !in w.calls && (db', outcome) == ExtendCall(cfg, w.db, id, choice.now)
    ensures EndsWith(cfg, cat, w, StartExtend(c, id), c, id, choice, 2, db', outcome)
  {
    Starts(cfg, cat, w, c, id);
    ExtendSteps(cfg, cat, w.db, w.cache, c, id, choice);
    TwoEnd(cfg, cat, w, StartExtend(c, id), c, id, choice, ExtendRead(id), db', outcome);
  }

  // ---- create ---------------------------------------------------------------------------------

  /** The plan the surroundings hand to a create, or why they refuse it. */
  function Handed(cat: Catalogue, input: CreateInput, choice: Choice): Result<seq<Line>> {
    match Resolve(cat, input)
    case Err(reason) => Err(reason)
    case Ok(amounts) => if Refusable(cat.pools, amounts, choice.refusal) then Err(choice.refusal) else Ok(choice.plan)
  }

  lemma OneMore(cfg: Config, cat: Catalogue, db: Db, cache: Cache, c: Id, call: Call, choice: Choice, n: nat)
    requires n > 0
    ensures var f := Next(cfg, cat, db, cache, c, call, choice);
      EffectAfter(cfg, cat, db, cache, c, call, choice, n) == EffectAfter(cfg, cat, f.db, f.cache, c, f.call, choice, n - 1)
  {
  }

  /** The call ends within n steps with this database and answer. */
  predicate Reaches(cfg: Config, cat: Catalogue, db: Db, cache: Cache, c: Id, call: Call, choice: Choice, n: nat, db': Db, outcome: Outcome) {
    var f := EffectAfter(cfg, cat, db, cache, c, call, choice, n);
    Ended(f.call) && f.db == db' && AnswerOf(f.call, c) == Some(outcome)
  }

  lemma ReachesByStep(cfg: Config, cat: Catalogue, db: Db, cache: Cache, c: Id, call: Call, choice: Choice, n: nat, db': Db, outcome: Outcome)
    requires var f := Next(cfg, cat, db, cache, c, call, choice);
      Reaches(cfg, cat, f.db, f.cache, c, f.call, choice, n, db', outcome)
    ensures Reaches(cfg, cat, db, cache, c, call, choice, n + 1, db', outcome)
  {
    OneMore(cfg, cat, db, cache, c, call, choice, n + 1);
  }

  lemma ReachesAtEnd(cfg: Config, cat: Catalogue, db: Db, cache: Cache, c: Id, call: Call, choice: Choice, n: nat, outcome: Outcome)
    requires Ended(call) && AnswerOf(call, c) == Some(outcome)
    ensures Reaches(cfg, cat, db, cache, c, call, choice, n, db, outcome)
  {
    EndedStays(cfg, cat, db, cache, c, call, choice, n);
  }

  lemma RecordReaches(cfg: Config, cat: Catalogue, db: Db, cache: Cache, c: Id, input: CreateInput, choice: Choice, n: nat)
    ensures Reaches(cfg, cat, db, cache, c, CreateRecord(input), choice, n + 1, db, Returned(c))
  {
    var f := Next(cfg, cat, db, cache, c, CreateRecord(input), choice);
    ReachesAtEnd(cfg, cat, f.db, f.cache, c, f.call, choice, n, Returned(c));
    ReachesByStep(cfg, cat, db, cache, c, CreateRecord(input), choice, n, db, Returned(c));
  }

  lemma RefreshReaches(cfg: Config, cat: Catalogue, db: Db, cache: Cache, c: Id, input: CreateInput, found: Id, choice: Choice, n: nat)
    ensures Reaches(cfg, cat, db, cache, c, CreateRefresh(input, found), choice, n + 1, db, Returned(found))
  {
    var f := Next(cfg, cat, db, cache, c, CreateRefresh(input, found), choice);
    ReachesAtEnd(cfg, cat, f.db, f.cache, c, f.call, choice, n, Returned(found));
    ReachesByStep(cfg, cat, db, cache, c, CreateRefresh(input, found), choice, n, db, Returned(found));
  }

  lemma ReplayReaches(cfg: Config, cat: Catalogue, db: Db, cache: Cache, c: Id, input: CreateInput, record: bool, choice: Choice)
    ensures Reaches(cfg, cat, db, cache, c, CreateReplay(input, record), choice, 2, db, ReplayOutcome(db, input))
  {
    var f := Next(cfg, cat, db, cache, c, CreateReplay(input, record), choice);
    if f.call.CreateRefresh? {
      RefreshReaches(cfg, cat, f.db, f.cache, c, input, f.call.found, choice, 0);
    } else {
      ReachesAtEnd(cfg, cat, f.db, f.cache, c, f.call, choice, 1, ReplayOutcome(db, input));
    }
    ReachesByStep(cfg, cat, db, cache, c, CreateReplay(input, record), choice, 1, db, ReplayOutcome(db, input));
  }

  lemma RejectReaches(cfg: Config, cat: Catalogue, db: Db, cache: Cache, c: Id, input: CreateInput, plan: seq<Line>, now: Time, reason: Reason, choice: Choice)
    ensures var (db', ok) := RejectTx(db, c, PairOf(input), FingerprintOf(input), plan, now, reason);
      Reaches(cfg, cat, db, cache, c, CreateReject(input, plan, now, reason), choice, 3,
              db', if ok then Returned(c) else ReplayOutcome(db', input))
  {
    var (db', ok) := RejectTx(db, c, PairOf(input), FingerprintOf(input), plan, now, reason);
    var call := CreateReject(input, plan, now, reason);
    if ok {
      RecordReaches(cfg, cat, db', cache, c, input, choice, 1);
      ReachesByStep(cfg, cat, db, cache, c, call, choice, 2, db', Returned(c));
    } else {
      ReplayReaches(cfg, cat, db', cache, c, input, true, choice);
      ReachesByStep(cfg, cat, db, cache, c, call, choice, 2, db', ReplayOutcome(db', input));
    }
  }

  lemma {:induction false} ReachesLater(cfg: Config, cat: Catalogue, db: Db, cache: Cache, c: Id, call: Call, choice: Choice, n: nat, db': Db, outcome: Outcome)
    requires Reaches(cfg, cat, db, cache, c, call, choice, n, db', outcome)
    ensures Reaches(cfg, cat, db, cache, c, call, choice, n + 1, db', outcome)
    decreases n
  {
    if n == 0 {
      ReachesAtEnd(cfg, cat, db, cache, c, call, choice, 1, outcome);
    } else {
      var f := Next(cfg, cat, db, cache, c, call, choice);
      OneMore(cfg, cat, db, cache, c, call, choice, n);
      ReachesLater(cfg, cat, f.db, f.cache, c, f.call, choice, n - 1, db', outcome);
      ReachesByStep(cfg, cat, db, cache, c, call, choice, n, db', outcome);
    }
  }

  lemma ReserveReaches(cfg: Config, cat: Catalogue, db: Db, cache: Cache, c: Id, input: CreateInput, plan: seq<Line>, now: Time, choice: Choice)
    ensures var (db', outcome) := CreateFresh(cfg, db, c, input, plan, now);
      Reaches(cfg, cat, db, cache, c, CreateReserve(input, plan, now), choice, 4, db', outcome)
  {
    var (db1, attempt) := ReserveTx(cfg, db, c, PairOf(input), FingerprintOf(input), plan, now);
    var (db', outcome) := CreateFresh(cfg, db, c, input, plan, now);
    match attempt
    case Committed => RecordReaches(cfg, cat, db1, cache, c, input, choice, 2);
    case CapacityRejected(reason) => RejectReaches(cfg, cat, db1, cache, c, input, plan, now, reason, choice);
    case Duplicate =>
      ReplayReaches(cfg, cat, db1, cache, c, input, false, choice);
      ReachesLater(cfg, cat, db1, cache, c, CreateReplay(input, false), choice, 2, db', outcome);
    ReachesByStep(cfg, cat, db, cache, c, CreateReserve(input, plan, now), choice, 3, db', outcome);
  }

  lemma PlanReaches(cfg: Config, cat: Catalogue, db: Db, cache: Cache, c: Id, input: CreateInput, choice: Choice)
    requires PlannedAs(cat, input, Handed(cat, input, choice))
    ensures var (db', outcome) := match Handed(cat, input, choice)
        case Err(reason) => (db, Refused(reason))
        case Ok(plan) => CreateFresh(cfg, db, c, input, plan, choice.now);
      Reaches(cfg, cat, db, cache, c, CreatePlan(input), choice, 5, db', outcome)
  {
    match Handed(cat, input, choice)
    case Err(reason) =>
      ReachesAtEnd(cfg, cat, db, cache, c, Failed(reason), choice, 4, Refused(reason));
      ReachesByStep(cfg, cat, db, cache, c, CreatePlan(input), choice, 4, db, Refused(reason));
    case Ok(plan) =>
      var (db', outcome) := CreateFresh(cfg, db, c, input, plan, choice.now);
      ReserveReaches(cfg, cat, db, cache, c, input, plan, choice.now, choice);
      ReachesByStep(cfg, cat, db, cache, c, CreatePlan(input), choice, 4, db', outcome);
  }

  lemma CountReaches(cfg: Config, cat: Catalogue, db: Db, cache: Cache, c: Id, input: CreateInput, choice: Choice)
    requires PlannedAs(cat, input, Handed(cat, input, choice)) && Validate(input).None?
    ensures var (db', outcome) := CreateAfterCheck(cfg, db, None, c, input, Handed(cat, input, choice), choice.now);
      Reaches(cfg, cat, db, cache, c, CreateCount(input), choice, 6, db', outcome)
  {
    var (db', outcome) := CreateAfterCheck(cfg, db, None, c, input, Handed(cat, input, choice), choice.now);
    if cfg.maxActiveHolds > 0 && |ActiveRequests(db.rows, input.customer)| >= cfg.maxActiveHolds {
      ReachesAtEnd(cfg, cat, db, cache, c, Failed(TooManyActiveHolds), choice, 5, outcome);
    } else {
      PlanReaches(cfg, cat, db, cache, c, input, choice);
    }
    ReachesByStep(cfg, cat, db, cache, c, CreateCount(input), choice, 5, db', outcome);
  }

  lemma FindReaches(cfg: Config, cat: Catalogue, db: Db, cache: Cache, c: Id, input: CreateInput, choice: Choice)
    requires PlannedAs(cat, input, Handed(cat, input, choice)) && Validate(input).None?
    ensures var (db', outcome) := CreateAfterCheck(cfg, db, CheckStore(db, input), c, input, Handed(cat, input, choice), choice.now);
      Reaches(cfg, cat, db, cache, c, CreateFind(input), choice, 7, db', outcome)
  {
    var (db', outcome) := CreateAfterCheck(cfg, db, CheckStore(db, input), c, input, Handed(cat, input, choice), choice.now);
    match CheckStore(db, input)
    case None => CountReaches(cfg, cat, db, cache, c, input, choice);
    case Some(Ok(found)) => RefreshReaches(cfg, cat, db, cache, c, input, found, choice, 5);
    case Some(Err(reason)) => ReachesAtEnd(cfg, cat, db, cache, c, Failed(reason), choice, 6, outcome);
    ReachesByStep(cfg, cat, db, cache, c, CreateFind(input), choice, 6, db', outcome);
  }

  lemma LookupReaches(cfg: Config, cat: Catalogue, db: Db, cache: Cache, c: Id, input: CreateInput, choice: Choice)
    requires PlannedAs(cat, input, Handed(cat, input, choice)) && Validate(input).None?
    ensures var (db', outcome) := CreateAfterCheck(cfg, db, CheckReplay(db, cache, input), c, input, Handed(cat, input, choice), choice.now);
      Reaches(cfg, cat, db, cache, c, CreateLookup(input), choice, 9, db', outcome)
  {
    var (db', outcome) := CreateAfterCheck(cfg, db, CheckReplay(db, cache, input), c, input, Handed(cat, input, choice), choice.now);
    var text := TextOf(PairOf(input));
    if text in cache {
      var f := Next(cfg, cat, db, cache, c, CreateGet(input, cache[text]), choice);
      if cache[text] in db.rows {
        ReachesAtEnd(cfg, cat, db, cache, c, f.call, choice, 7, outcome);
      } else {
        FindReaches(cfg, cat, db, cache, c, input, choice);
      }
      ReachesByStep(cfg, cat, db, cache, c, CreateGet(input, cache[text]), choice, 7, db', outcome);
    } else {
      FindReaches(cfg, cat, db, cache, c, input, choice);
      ReachesLater(cfg, cat, db, cache, c, CreateFind(input), choice, 7, db', outcome);
    }
    ReachesByStep(cfg, cat, db, cache, c, CreateLookup(input), choice, 8, db', outcome);
  }

  /** A create whose body is refused ends at once; every other one ends with the serial create for what the
      idempotency check finds when it starts and for the plan it is handed. */
  lemma CreateIsSerial(cfg: Config, cat: Catalogue, w: World, c: Id, input: CreateInput, choice: Choice)
    requires c !in w.calls && PlannedAs(cat, input, Handed(cat, input, choice))
    ensures var (db', outcome) := CreateAfterCheck(cfg, w.db, CheckReplay(w.db, w.cache, input), c, input, Handed(cat, input, choice), choice.now);
      EndsWith(cfg, cat, w, StartCreate(c, input), c, c, choice, 9, db', outcome)
  {
    var (db', outcome) := CreateAfterCheck(cfg, w.db, CheckReplay(w.db, w.cache, input), c, input, Handed(cat, input, choice), choice.now);
    var call := StartCall(StartCreate(c, input));
    if Validate(input).None? {
      LookupReaches(cfg, cat, w.db, w.cache, c, input, choice);
    } else {
      ReachesAtEnd(cfg, cat, w.db, w.cache, c, call, choice, 9, outcome);
    }
    StartedEnds(cfg, cat, w, StartCreate(c, input), c, c, choice, 9, call, db', outcome);
  }

  // ---- the sweeper ----------------------------------------------------------------------------

  lemma EachStep(cfg: Config, cat: Catalogue, db: Db, cache: Cache, c: Id, ids: seq<Id>, choice: Choice, n: nat, db1: Db)
    requires |ids| > 0 && ids[0] in db.rows && n >= 2
    requires db1 == ReleaseTx(db, ids[0], db.rows[ids[0]].req.customer, Expired)
    ensures EffectAfter(cfg, cat, db, cache, c, SweepEach(ids), choice, n)
         == EffectAfter(cfg, cat, db1, cache, c, SweepEach(ids[1..]), choice, n - 2)
  {
    OneMore(cfg, cat, db, cache, c, SweepEach(ids), choice, n);
    OneMore(cfg, cat, db, cache, c, SweepCommit(ids[0], db.rows[ids[0]].req, ids[1..]), choice, n - 1);
  }

  lemma EachReleases(db: Db, ids: seq<Id>) returns (db1: Db)
    requires |ids| > 0 && ids[0] in db.rows
    ensures db1 == ReleaseTx(db, ids[0], db.rows[ids[0]].req.customer, Expired)
    ensures db1.rows.Keys == db.rows.Keys && ExpireFrom(db, ids) == ExpireFrom(db1, ids[1..])
  {
    db1 := ReleaseTx(db, ids[0], db.rows[ids[0]].req.customer, Expired);
  }

  lemma EachEnds(cfg: Config, cat: Catalogue, db: Db, cache: Cache, c: Id, choice: Choice)
    ensures EffectAfter(cfg, cat, db, cache, c, SweepEach([]), choice, 1) == Effect(db, cache, Finished)
  {
    OneMore(cfg, cat, db, cache, c, SweepEach([]), choice, 1);
  }

  lemma {:induction false} EachReaches(cfg: Config, cat: Catalogue, db: Db, cache: Cache, c: Id, ids: seq<Id>, choice: Choice)
    requires forall i :: 0 <= i < |ids| ==> ids[i] in db.rows
    ensures EffectAfter(cfg, cat, db, cache, c, SweepEach(ids), choice, 2 * |ids| + 1) == Effect(ExpireFrom(db, ids), cache, Finished)
    decreases |ids|
  {
    if |ids| == 0 {
      assert ids == [];
      EachEnds(cfg, cat, db, cache, c, choice);
    } else {
      var db1 := EachReleases(db, ids);
      EachStep(cfg, cat, db, cache, c, ids, choice, 2 * |ids| + 1, db1);
      EachReaches(cfg, cat, db1, cache, c, ids[1..], choice);
    }
  }

  /** The serial sweep, first request first. */
  function ExpireFrom(db: Db, ids: seq<Id>): Db
    decreases |ids|
  {
    if |ids| == 0 then db
    else if ids[0] in db.rows then ExpireFrom(ReleaseTx(db, ids[0], db.rows[ids[0]].req.customer, Expired), ids[1..])
    else ExpireFrom(db, ids[1..])
  }

  lemma {:induction false} ExpireFromSplit(db: Db, front: seq<Id>, last: Id)
    ensures ExpireFrom(db, front + [last]) ==
      var db1 := ExpireFrom(db, front);
      if last in db1.rows then ReleaseTx(db1, last, db1.rows[last].req.customer, Expired) else db1
    decreases |front|
  {
    var all := front + [last];
    if |front| == 0 {
      assert all[1..] == [];
    } else {
      assert all[1..] == front[1..] + [last];
      var db1 := if front[0] in db.rows then ReleaseTx(db, front[0], db.rows[front[0]].req.customer, Expired) else db;
      ExpireFromSplit(db1, front[1..], last);
    }
  }

  lemma {:induction false} ExpireFromIsAll(db: Db, ids: seq<Id>)
    ensures ExpireFrom(db, ids) == ExpireAll(db, ids).0
  {
    if |ids| > 0 {
      ExpireFromIsAll(db, ids[..|ids| - 1]);
      ExpireFromSplit(db, ids[..|ids| - 1], ids[|ids| - 1]);
      assert ids == ids[..|ids| - 1] + [ids[|ids| - 1]];
    }
  }

  lemma SweepSteps(cfg: Config, cat: Catalogue, db: Db, cache: Cache, c: Id, choice: Choice)
    requires IsOverdueBatch(db.rows, choice.ids, choice.now)
    ensures EffectAfter(cfg, cat, db, cache, c, SweepList, choice, 2 * |choice.ids| + 2) == Effect(ExpireAll(db, choice.ids).0, cache, Finished)
  {
    OneMore(cfg, cat, db, cache, c, SweepList, choice, 2 * |choice.ids| + 2);
    EachReaches(cfg, cat, db, cache, c, choice.ids, choice);
    ExpireFromIsAll(db, choice.ids);
  }

  /** A sweep that is handed a batch of overdue requests does the serial sweep of that batch. */
  lemma SweepIsSerial(cfg: Config, cat: Catalogue, w: World, c: Id, choice: Choice, db': Db)
    requires c !in w.calls && IsOverdueBatch(w.db.rows, choice.ids, choice.now)
    requires db' == ExpireAll(w.db, choice.ids).0
    ensures EndsWith(cfg, cat, w, StartSweep(c), c, c, choice, 2 * |choice.ids| + 2, db', Returned(c))
  {
    SweepSteps(cfg, cat, w.db, w.cache, c, choice);
    Starts(cfg, cat, w, c, c);
    StartedEnds(cfg, cat, w, StartSweep(c), c, c, choice, 2 * |choice.ids| + 2, SweepList, db', Returned(c));
  }

  // ---- what each read lets through --------------------------------------------------------------

  /** A confirm goes on to its transaction iff the request it read is RESERVED and not yet due. */
  lemma ConfirmGate(cfg: Config, cat: Catalogue, db: Db, cache: Cache, c: Id, id: Id, choice: Choice)
    ensures var f := Next(cfg, cat, db, cache, c, ConfirmRead(id), choice);
      && f.db == db
      && (f.call == ConfirmCommit(id) <==>
           && id in db.rows && db.rows[id].req.status == Reserved
           && (db.rows[id].req.expiresAt.Some? ==> choice.now < db.rows[id].req.expiresAt.value))
  {
  }

  /** A cancel goes on iff the request it read is RESERVED. */
  lemma CancelGate(cfg: Config, cat: Catalogue, db: Db, cache: Cache, c: Id, id: Id, choice: Choice)
    ensures var f := Next(cfg, cat, db, cache, c, CancelRead(id), choice);
      && f.db == db
      && (f.call.CancelCommit? <==> id in db.rows && db.rows[id].req.status == Reserved)
      && (f.call.CancelCommit? ==> f.call == CancelCommit(id, db.rows[id].req))
  {
  }

  /** An extend goes on iff the request it read is RESERVED, not yet due, below the extension limit, and one
      more TTL stays within the wall time. */
  lemma ExtendGate(cfg: Config, cat: Catalogue, base: Base, db: Db, cache: Cache, c: Id, id: Id, choice: Choice)
    requires RowsOk(cfg, base, db.rows)
    ensures var f := Next(cfg, cat, db, cache, c, ExtendRead(id), choice);
      && f.db == db
      && (f.call.ExtendCommit? <==> id in db.rows && Extendable(cfg, db.rows[id].req, choice.now))
      && (f.call.ExtendCommit? ==> f.call == ExtendCommit(id, db.rows[id].req, choice.now))
  {
    if id in db.rows {
      assert EntryOk(cfg, base.pools, id, db.rows[id]);
      NextOfExtend(cfg, cat, db, cache, c, id, db.rows[id].req, choice);
      ExtendGateOfRow(cfg, db, cache, id, choice.now);
    }
  }

  lemma ExtendGateOfRow(cfg: Config, db: Db, cache: Cache, id: Id, now: Time)
    requires id in db.rows && (db.rows[id].req.status == Reserved ==> db.rows[id].req.expiresAt.Some?)
    ensures var f := ExtendReadNext(cfg, db, cache, id, now);
      f.db == db && if Extendable(cfg, db.rows[id].req, now) then f.call == ExtendCommit(id, db.rows[id].req, now) else !f.call.ExtendCommit?
  {
  }

  predicate Extendable(cfg: Config, r: Request, now: Time) {
    && r.status == Reserved && r.expiresAt.Some? && now < r.expiresAt.value
    && r.extensionCount < cfg.maxExtensions && r.expiresAt.value + cfg.ttl <= r.createdAt + cfg.wallTime
  }

  /** A sweep takes up only requests that were RESERVED and past their expiry when it listed them. */
  lemma SweepGate(cfg: Config, cat: Catalogue, db: Db, cache: Cache, c: Id, choice: Choice)
    ensures var f := Next(cfg, cat, db, cache, c, SweepList, choice);
      && f.db == db
      && (f.call.SweepEach? ==> f.call.ids == choice.ids && |choice.ids| <= 100 && forall id :: id in choice.ids ==>
           && id in db.rows && db.rows[id].req.status == Reserved
           && db.rows[id].req.expiresAt.Some? && db.rows[id].req.expiresAt.value < choice.now)
  {
    if IsOverdueBatch(db.rows, choice.ids, choice.now) {
      forall id | id in choice.ids ensures id in db.rows && Overdue(db.rows[id].req, choice.now) {
      }
    }
  }

  // ---- what each commit writes ------------------------------------------------------------------

  /** A confirm's transaction writes iff the request is still RESERVED when it commits. */
  lemma ConfirmCommitWrites(cfg: Config, cat: Catalogue, base: Base, db: Db, cache: Cache, c: Id, id: Id, choice: Choice)
    requires DbOk(cfg, base, db)
    ensures var f := Next(cfg, cat, db, cache, c, ConfirmCommit(id), choice);
      if id in db.rows && db.rows[id].req.status == Reserved then Confirmed(db, id, f.db) && f.call == Finished
      else f.db == db && f.call == Failed(Conflict)
  {
    ConfirmExact(cfg, base, db, id);
    if id in db.rows && db.rows[id].req.status == Reserved {
      assert EntryOk(cfg, base.pools, id, db.rows[id]);
      ConfirmedIsConfirmed(cfg, base, db, id, ConfirmTx(db, id).0);
    }
  }

  /** A cancel's transaction releases everything iff the request is still RESERVED when it commits, and says
      nothing of it otherwise. */
  lemma CancelCommitWrites(cfg: Config, cat: Catalogue, base: Base, db: Db, cache: Cache, c: Id, id: Id, snap: Request, choice: Choice, f: Effect)
    requires DbOk(cfg, base, db) && id in db.rows && snap.customer == db.rows[id].req.customer
    requires f == Next(cfg, cat, db, cache, c, CancelCommit(id, snap), choice)
    ensures f.call == Finished
    ensures if db.rows[id].req.status == Reserved then ReleasedAs(db, id, Cancelled, Released, EventCancelled, f.db) else f.db == db
  {
    CommitIsRelease(cfg, cat, db, cache, c, id, snap, [], choice);
    ReleaseIs(cfg, base, db, id, Cancelled, f.db);
  }

  lemma CommitIsRelease(cfg: Config, cat: Catalogue, db: Db, cache: Cache, c: Id, id: Id, snap: Request, rest: seq<Id>, choice: Choice)
    ensures Next(cfg, cat, db, cache, c, CancelCommit(id, snap), choice) == Effect(ReleaseTx(db, id, snap.customer, Cancelled), cache, Finished)
    ensures Next(cfg, cat, db, cache, c, SweepCommit(id, snap, rest), choice)
         == Effect(ReleaseTx(db, id, snap.customer, Expired), cache, SweepEach(rest))
  {
  }

  /** So does one release of a sweep. */
  lemma SweepCommitWrites(cfg: Config, cat: Catalogue, base: Base, db: Db, cache: Cache, c: Id, id: Id, snap: Request, rest: seq<Id>, choice: Choice, f: Effect)
    requires DbOk(cfg, base, db) && id in db.rows && snap.customer == db.rows[id].req.customer
    requires f == Next(cfg, cat, db, cache, c, SweepCommit(id, snap, rest), choice)
    ensures f.call == SweepEach(rest)
    ensures if db.rows[id].req.status == Reserved then ReleasedAs(db, id, Expired, Lapsed, EventExpired, f.db) else f.db == db
  {
    CommitIsRelease(cfg, cat, db, cache, c, id, snap, rest, choice);
    ReleaseIs(cfg, base, db, id, Expired, f.db);
  }

  /** An extend writes what it computed from the request as it read it, iff that is still RESERVED. */
  lemma ExtendCommitWrites(cfg: Config, cat: Catalogue, db: Db, cache: Cache, c: Id, id: Id, snap: Request, now: Time, choice: Choice)
    requires ExtendTarget(cfg, snap, now).Some? && snap.expiresAt.Some? && id in db.rows
    ensures var f := Next(cfg, cat, db, cache, c, ExtendCommit(id, snap, now), choice);
      if db.rows[id].req.status == Reserved then
        && f.call == Finished
        && f.db == db.(rows := db.rows[id := db.rows[id].(
             req := db.rows[id].req.(expiresAt := Some(snap.expiresAt.value + cfg.ttl), extensionCount := snap.extensionCount + 1),
             events := db.rows[id].events + [EventExtended])])
      else
        f.db == db && f.call == Failed(Conflict)
  {
  }
}
