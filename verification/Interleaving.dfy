/** All client calls and sweepers interleaved at the grain of whole transactions. Each call is a small
    program: reads outside any transaction, whose results may be arbitrarily stale when they are used,
    then one atomic transaction. A run is a sequence of labels; a label that is not enabled does
    nothing. The id of the request a create call inserts is represented by the id of the call: both
    are drawn once and are fresh. */
module Interleaving {
  import opened Domain
  import opened Ledger
  import opened Invariant
  import opened Conservation
  import opened Reserve
  import opened Intake
  import opened CacheKey

  /** Filed under the joined text of customer and key. */
  type Cache = map<string, Id>

  datatype Call =
    | CreateLookup(input: CreateInput)
    | CreateGet(input: CreateInput, cached: Id)
    | CreateFind(input: CreateInput)
    | CreateRefresh(input: CreateInput, found: Id)
    | CreateCount(input: CreateInput)
    | CreatePlan(input: CreateInput)
    | CreateReserve(input: CreateInput, plan: seq<Line>, now: Time)
    | CreateReject(input: CreateInput, plan: seq<Line>, now: Time, reason: Reason)
    | CreateReplay(input: CreateInput, record: bool)
    | CreateRecord(input: CreateInput)
    | CreateReturned(input: CreateInput, id: Id)
    | ConfirmRead(id: Id)
    | ConfirmCommit(id: Id)
    | CancelRead(id: Id)
    | CancelCommit(id: Id, snap: Request)
    | ExtendRead(id: Id)
    | ExtendCommit(id: Id, snap: Request, now: Time)
    | SweepList
    | SweepEach(ids: seq<Id>)
    | SweepCommit(id: Id, snap: Request, rest: seq<Id>)
    | Finished
    | Failed(reason: Reason)
    | Crashed

  /** What the surroundings decide: the clock, the plan as built or why it was refused, the batch as
      listed. */
  datatype Choice = Choice(now: Time, plan: seq<Line>, refusal: Reason, ids: seq<Id>)

  datatype Label =
    | StartCreate(c: Id, input: CreateInput)
    | StartConfirm(c: Id, id: Id)
    | StartCancel(c: Id, id: Id)
    | StartExtend(c: Id, id: Id)
    | StartSweep(c: Id)
    | Advance(c: Id, choice: Choice)
    | Crash(c: Id)
    | Evict(text: string)

  datatype World = World(db: Db, cache: Cache, calls: map<Id, Call>)

  datatype Effect = Effect(db: Db, cache: Cache, call: Call)

  function PairOf(input: CreateInput): IdemKey { IdemKey(input.customer, input.key) }

  predicate Overdue(r: Request, now: Time) {
    r.status == Reserved && r.expiresAt.Some? && r.expiresAt.value < now
  }

  /** The rows that count against the cap: RESERVED requests with at least one ACTIVE hold. */
  function ActiveRequests(rows: Rows, customer: Customer): set<Id> {
    set id | id in rows && rows[id].req.customer == customer && rows[id].req.status == Reserved
          && ActiveHolds(rows[id].holds) != []
  }

  // ---- one step of one call -------------------------------------------------------------------

  /** Answer with a stored request, or refuse because its body differs. */
  function Match(db: Db, input: CreateInput, id: Id, then_: Call): Call
    requires id in db.rows
  {
    if db.rows[id].req.fingerprint == FingerprintOf(input) then then_ else Failed(IdempotencyKeyReused)
  }

  function GetNext(db: Db, cache: Cache, input: CreateInput, cached: Id): Effect {
    if cached in db.rows then Effect(db, cache, Match(db, input, cached, CreateReturned(input, cached)))
    else Effect(db, cache, CreateFind(input))
  }

  function FindNext(db: Db, cache: Cache, input: CreateInput): Effect {
    var pair := PairOf(input);
    if pair in db.idem && db.idem[pair] in db.rows then
      Effect(db, cache, Match(db, input, db.idem[pair], CreateRefresh(input, db.idem[pair])))
    else
      Effect(db, cache, CreateCount(input))
  }

  function CountNext(cfg: Config, db: Db, cache: Cache, input: CreateInput): Effect {
    if cfg.maxActiveHolds > 0 && |ActiveRequests(db.rows, input.customer)| >= cfg.maxActiveHolds then
      Effect(db, cache, Failed(TooManyActiveHolds))
    else
      Effect(db, cache, CreatePlan(input))
  }

  function PlanNext(cat: Catalogue, db: Db, cache: Cache, input: CreateInput, choice: Choice): Effect {
    match Resolve(cat, input)
    case Err(reason) => Effect(db, cache, Failed(reason))
    case Ok(amounts) =>
      if Refusable(cat.pools, amounts, choice.refusal) then Effect(db, cache, Failed(choice.refusal))
      else if IsPlan(cat.pools, amounts, choice.plan) then
        Effect(db, cache, CreateReserve(input, choice.plan, choice.now))
      else Effect(db, cache, CreatePlan(input))
  }

  function ReserveNext(cfg: Config, db: Db, cache: Cache, c: Id, input: CreateInput, plan: seq<Line>, now: Time): Effect {
    var (db', outcome) := ReserveTx(cfg, db, c, PairOf(input), FingerprintOf(input), plan, now);
    match outcome
    case Committed => Effect(db', cache, CreateRecord(input))
    case CapacityRejected(reason) => Effect(db', cache, CreateReject(input, plan, now, reason))
    case Duplicate => Effect(db', cache, CreateReplay(input, false))
  }

  function RejectNext(db: Db, cache: Cache, c: Id, input: CreateInput, plan: seq<Line>, now: Time, reason: Reason): Effect {
    var (db', ok) := RejectTx(db, c, PairOf(input), FingerprintOf(input), plan, now, reason);
    Effect(db', cache, if ok then CreateRecord(input) else CreateReplay(input, true))
  }

  /** Only a create that was going to be rejected records what it found in the cache. */
  function ReplayNext(db: Db, cache: Cache, input: CreateInput, record: bool): Effect {
    var pair := PairOf(input);
    if pair in db.idem && db.idem[pair] in db.rows then
      var found := db.idem[pair];
      Effect(db, cache, Match(db, input, found, if record then CreateRefresh(input, found) else CreateReturned(input, found)))
    else
      Effect(db, cache, Failed(Conflict))
  }

  function ConfirmReadNext(db: Db, cache: Cache, id: Id, now: Time): Effect {
    if id !in db.rows then Effect(db, cache, Failed(NotFound))
    else
      var r := db.rows[id].req;
      if r.status == Completed then Effect(db, cache, Finished)
      else if r.status != Reserved then Effect(db, cache, Failed(Conflict))
      else if r.expiresAt.Some? && r.expiresAt.value <= now then Effect(db, cache, Failed(ReservationExpired))
      else Effect(db, cache, ConfirmCommit(id))
  }

  function CancelReadNext(db: Db, cache: Cache, id: Id): Effect {
    if id !in db.rows then Effect(db, cache, Failed(NotFound))
    else
      var r := db.rows[id].req;
      if r.status == Cancelled then Effect(db, cache, Finished)
      else if r.status != Reserved then Effect(db, cache, Failed(Conflict))
      else Effect(db, cache, CancelCommit(id, r))
  }

  function ExtendReadNext(cfg: Config, db: Db, cache: Cache, id: Id, now: Time): Effect {
    if id !in db.rows then Effect(db, cache, Failed(NotFound))
    else
      var r := db.rows[id].req;
      if ExtendTarget(cfg, r, now).Some? then Effect(db, cache, ExtendCommit(id, r, now))
      else Effect(db, cache, Failed(ExtendRefusal(cfg, r, now)))
  }

  function ExtendCommitNext(cfg: Config, db: Db, cache: Cache, id: Id, snap: Request, now: Time): Effect {
    match ExtendTarget(cfg, snap, now)
    case Some(target) =>
      var (db', ok) := ExtendTx(db, id, target, snap.extensionCount + 1);
      Effect(db', cache, if ok then Finished else Failed(Conflict))
    case None => Effect(db, cache, ExtendCommit(id, snap, now))
  }

  predicate IsOverdueBatch(rows: Rows, ids: seq<Id>, now: Time) {
    && |ids| <= EXPIRE_BATCH_SIZE
    && forall i :: 0 <= i < |ids| ==> ids[i] in rows && Overdue(rows[ids[i]].req, now)
  }

  function SweepEachNext(db: Db, cache: Cache, ids: seq<Id>): Effect {
    if |ids| == 0 then Effect(db, cache, Finished)
    else if ids[0] in db.rows then Effect(db, cache, SweepCommit(ids[0], db.rows[ids[0]].req, ids[1..]))
    else Effect(db, cache, SweepEach(ids[1..]))
  }

  function Next(cfg: Config, cat: Catalogue, db: Db, cache: Cache, c: Id, call: Call, choice: Choice): Effect {
    match call
    case CreateLookup(input) =>
      var text := TextOf(PairOf(input));
      Effect(db, cache, if text in cache then CreateGet(input, cache[text]) else CreateFind(input))
    case CreateGet(input, cached) => GetNext(db, cache, input, cached)
    case CreateFind(input) => FindNext(db, cache, input)
    case CreateRefresh(input, found) => Effect(db, cache[TextOf(PairOf(input)) := found], CreateReturned(input, found))
    case CreateCount(input) => CountNext(cfg, db, cache, input)
    case CreatePlan(input) => PlanNext(cat, db, cache, input, choice)
    case CreateReserve(input, plan, now) => ReserveNext(cfg, db, cache, c, input, plan, now)
    case CreateReject(input, plan, now, reason) => RejectNext(db, cache, c, input, plan, now, reason)
    case CreateReplay(input, record) => ReplayNext(db, cache, input, record)
    case CreateRecord(input) => Effect(db, cache[TextOf(PairOf(input)) := c], CreateReturned(input, c))
    case ConfirmRead(id) => ConfirmReadNext(db, cache, id, choice.now)
    case ConfirmCommit(id) =>
      var (db', ok) := ConfirmTx(db, id);
      Effect(db', cache, if ok then Finished else Failed(Conflict))
    case CancelRead(id) => CancelReadNext(db, cache, id)
    case CancelCommit(id, snap) => Effect(ReleaseTx(db, id, snap.customer, Cancelled), cache, Finished)
    case ExtendRead(id) => ExtendReadNext(cfg, db, cache, id, choice.now)
    case ExtendCommit(id, snap, now) => ExtendCommitNext(cfg, db, cache, id, snap, now)
    case SweepList =>
      Effect(db, cache, if IsOverdueBatch(db.rows, choice.ids, choice.now) then SweepEach(choice.ids) else SweepList)
    case SweepEach(ids) => SweepEachNext(db, cache, ids)
    case SweepCommit(id, snap, rest) => Effect(ReleaseTx(db, id, snap.customer, Expired), cache, SweepEach(rest))
    case _ => Effect(db, cache, call)
  }

  function ExtendRefusal(cfg: Config, r: Request, now: Time): Reason {
    if r.status == Expired then ReservationExpired
    else if r.status != Reserved then Conflict
    else if r.expiresAt.Some? && r.expiresAt.value <= now then ReservationExpired
    else ExtensionLimit
  }

  function StartCall(move: Label): Call {
    match move
    case StartCreate(_, input) =>
      (match Validate(input) case None => CreateLookup(input) case Some(reason) => Failed(reason))
    case StartConfirm(_, id) => ConfirmRead(id)
    case StartCancel(_, id) => CancelRead(id)
    case StartExtend(_, id) => ExtendRead(id)
    case _ => SweepList
  }

  function Step(cfg: Config, cat: Catalogue, w: World, move: Label): World {
    match move
    case Advance(c, choice) =>
      if c in w.calls then
        var f := Next(cfg, cat, w.db, w.cache, c, w.calls[c], choice);
        World(f.db, f.cache, w.calls[c := f.call])
      else w
    case Crash(c) => if c in w.calls then w.(calls := w.calls[c := Crashed]) else w
    case Evict(text) => w.(cache := w.cache - {text})
    case _ => if move.c in w.calls then w else w.(calls := w.calls[move.c := StartCall(move)])
  }

  function Run(cfg: Config, cat: Catalogue, base: Base, labels: seq<Label>): World {
    if |labels| == 0 then World(Init(base), map[], map[])
    else Step(cfg, cat, Run(cfg, cat, base, labels[..|labels| - 1]), labels[|labels| - 1])
  }

  // ---- what each call knows -------------------------------------------------------------------

  /** The request `id` is the one bound to the input's pair. */
  predicate Bound(db: Db, input: CreateInput, id: Id) {
    PairOf(input) in db.idem && db.idem[PairOf(input)] == id
  }

  /** It is, and it was created from the same body. */
  predicate Answers(db: Db, input: CreateInput, id: Id) {
    Bound(db, input, id) && id in db.rows && db.rows[id].req.fingerprint == FingerprintOf(input)
  }

  /** The request `id` is filed in the cache under this text. */
  predicate Filed(db: Db, text: string, id: Id) {
    id in db.rows && TextOf(KeyOf(db.rows[id].req)) == text
  }

  /** A request with the text of the input's pair and created from the same body. */
  predicate Served(db: Db, input: CreateInput, id: Id) {
    Filed(db, TextOf(PairOf(input)), id) && db.rows[id].req.fingerprint == FingerprintOf(input)
  }

  predicate MayHaveInserted(call: Call) {
    call.CreateRecord? || call.CreateReturned? || call.Crashed?
  }

  predicate Knows(cfg: Config, cat: Catalogue, db: Db, c: Id, call: Call) {
    match call
    case CreateLookup(input) => ValidBody(input)
    case CreateGet(input, cached) => ValidBody(input) && Filed(db, TextOf(PairOf(input)), cached)
    case CreateFind(input) => ValidBody(input)
    case CreateRefresh(input, found) => Answers(db, input, found)
    case CreateCount(input) => ValidBody(input)
    case CreatePlan(input) => ValidBody(input)
    case CreateReserve(_, plan, _) => PlanOk(cat.pools, plan)
    case CreateReject(_, plan, _, _) => PlanOk(cat.pools, plan)
    case CreateReplay(input, _) => PairOf(input) in db.idem
    case CreateRecord(input) => Answers(db, input, c)
    case CreateReturned(input, id) => Served(db, input, id) && (c in db.rows ==> id == c)
    case CancelCommit(id, snap) => SnapshotOk(cfg, db, id, snap)
    case ExtendCommit(id, snap, now) => SnapshotOk(cfg, db, id, snap) && ExtendTarget(cfg, snap, now).Some?
    case SweepCommit(id, snap, _) => SnapshotOk(cfg, db, id, snap)
    case _ => true
  }

  /** What a call knows is true, and only a create call that got past its writes has a row of its own. */
  predicate CallOk(cfg: Config, cat: Catalogue, db: Db, c: Id, call: Call) {
    Knows(cfg, cat, db, c, call) && (c in db.rows ==> MayHaveInserted(call))
  }

  /** Every cache entry names a request whose pair has that text. */
  predicate CacheOk(db: Db, cache: Cache) {
    forall text :: text in cache ==> Filed(db, text, cache[text])
  }

  predicate CallsOk(cfg: Config, cat: Catalogue, db: Db, calls: map<Id, Call>) {
    && db.rows.Keys <= calls.Keys
    && forall c :: c in calls ==> CallOk(cfg, cat, db, c, calls[c])
  }

  ghost predicate WorldOk(cfg: Config, cat: Catalogue, base: Base, w: World) {
    && cat.pools == base.pools
    && DbOk(cfg, base, w.db)
    && CacheOk(w.db, w.cache)
    && CallsOk(cfg, cat, w.db, w.calls)
  }

  // ---- what one call knows survives the steps of the others -----------------------------------

  lemma CallFrame(cfg: Config, cat: Catalogue, db: Db, db': Db, c: Id, call: Call)
    requires CallOk(cfg, cat, db, c, call) && Forward(db, db') && (c in db'.rows ==> c in db.rows)
    ensures CallOk(cfg, cat, db', c, call)
  {
    if call.CancelCommit? || call.ExtendCommit? || call.SweepCommit? {
      SnapshotForward(cfg, db, db', call.id, call.snap);
    } else if call.CreateReplay? || call.CreateRefresh? || call.CreateRecord? {
      BoundCallFrame(cfg, cat, db, db', c, call);
    } else if call.CreateGet? {
      FiledFrame(db, db', TextOf(PairOf(call.input)), call.cached);
    } else if call.CreateReturned? {
      FiledFrame(db, db', TextOf(PairOf(call.input)), call.id);
    }
  }

  lemma BoundCallFrame(cfg: Config, cat: Catalogue, db: Db, db': Db, c: Id, call: Call)
    requires call.CreateReplay? || call.CreateRefresh? || call.CreateRecord?
    requires Knows(cfg, cat, db, c, call) && Forward(db, db')
    ensures Knows(cfg, cat, db', c, call)
  {
    if call.CreateReplay? {
      BoundFrame(db, db', call.input, db.idem[PairOf(call.input)]);
    } else if call.CreateRefresh? {
      BoundFrame(db, db', call.input, call.found);
    } else {
      BoundFrame(db, db', call.input, c);
    }
  }

  lemma BoundFrame(db: Db, db': Db, input: CreateInput, id: Id)
    requires Bound(db, input, id) && Forward(db, db')
    ensures Bound(db', input, id) && (Answers(db, input, id) ==> Answers(db', input, id))
  {
  }

  lemma FiledFrame(db: Db, db': Db, text: string, id: Id)
    requires Filed(db, text, id) && Forward(db, db')
    ensures Filed(db', text, id) && db'.rows[id].req.fingerprint == db.rows[id].req.fingerprint
  {
  }

  lemma AnswerIsServed(db: Db, input: CreateInput, id: Id)
    requires IdemOk(db) && Answers(db, input, id)
    ensures Served(db, input, id)
  {
  }

  /** What a step must establish about the database, the cache and its own call. */
  ghost predicate EffectOk(cfg: Config, cat: Catalogue, base: Base, db: Db, c: Id, f: Effect) {
    && DbOk(cfg, base, f.db)
    && Forward(db, f.db)
    && f.db.rows.Keys <= db.rows.Keys + {c}
    && CacheOk(f.db, f.cache)
    && CallOk(cfg, cat, f.db, c, f.call)
  }

  lemma CacheFrame(db: Db, db': Db, cache: Cache)
    requires CacheOk(db, cache) && Forward(db, db')
    ensures CacheOk(db', cache)
  {
  }

  lemma ForwardReflexive(db: Db)
    ensures Forward(db, db)
  {
  }

  /** The same for a step that only reads. */
  predicate ReadOk(cfg: Config, cat: Catalogue, db: Db, c: Id, f: Effect) {
    f.db == db && CacheOk(db, f.cache) && CallOk(cfg, cat, db, c, f.call)
  }

  lemma FindOk(cfg: Config, cat: Catalogue, db: Db, cache: Cache, c: Id, input: CreateInput)
    requires IdemOk(db) && CacheOk(db, cache) && c !in db.rows && ValidBody(input)
    ensures ReadOk(cfg, cat, db, c, FindNext(db, cache, input))
  {
  }

  lemma GetOk(cfg: Config, cat: Catalogue, db: Db, cache: Cache, c: Id, input: CreateInput, cached: Id)
    requires CacheOk(db, cache) && c !in db.rows && ValidBody(input) && Filed(db, TextOf(PairOf(input)), cached)
    ensures ReadOk(cfg, cat, db, c, GetNext(db, cache, input, cached))
  {
  }

  lemma CountOk(cfg: Config, cat: Catalogue, db: Db, cache: Cache, c: Id, input: CreateInput)
    requires CacheOk(db, cache) && c !in db.rows && ValidBody(input)
    ensures ReadOk(cfg, cat, db, c, CountNext(cfg, db, cache, input))
  {
  }

  lemma ReplayOk(cfg: Config, cat: Catalogue, db: Db, cache: Cache, c: Id, input: CreateInput, record: bool)
    requires IdemOk(db) && CacheOk(db, cache) && c !in db.rows && PairOf(input) in db.idem
    ensures ReadOk(cfg, cat, db, c, ReplayNext(db, cache, input, record))
  {
  }

  lemma PlanNextOk(cfg: Config, cat: Catalogue, db: Db, cache: Cache, c: Id, input: CreateInput, choice: Choice)
    requires CacheOk(db, cache) && c !in db.rows && ValidBody(input)
    ensures ReadOk(cfg, cat, db, c, PlanNext(cat, db, cache, input, choice))
  {
    var r := Resolve(cat, input);
    if r.Ok? && IsPlan(cat.pools, r.value, choice.plan) {
      PlanIsOk(cat, input, choice.plan);
    }
  }

  lemma ReserveNextOk(cfg: Config, cat: Catalogue, db: Db, cache: Cache, c: Id, input: CreateInput, plan: seq<Line>, now: Time)
    requires c !in db.rows && PlanOk(cat.pools, plan)
    ensures var f := ReserveNext(cfg, db, cache, c, input, plan, now);
      && f.db == ReserveTx(cfg, db, c, PairOf(input), FingerprintOf(input), plan, now).0 && f.cache == cache
      && f.db.rows.Keys <= db.rows.Keys + {c} && CallOk(cfg, cat, f.db, c, f.call)
  {
  }

  lemma RejectNextOk(cfg: Config, cat: Catalogue, db: Db, cache: Cache, c: Id, input: CreateInput, plan: seq<Line>, now: Time, reason: Reason)
    requires c !in db.rows && PlanOk(cat.pools, plan)
    ensures var f := RejectNext(db, cache, c, input, plan, now, reason);
      && f.db == RejectTx(db, c, PairOf(input), FingerprintOf(input), plan, now, reason).0 && f.cache == cache
      && f.db.rows.Keys <= db.rows.Keys + {c} && CallOk(cfg, cat, f.db, c, f.call)
  {
  }

  lemma ExtendCommitOk(cfg: Config, cat: Catalogue, db: Db, cache: Cache, c: Id, id: Id, snap: Request, now: Time)
    requires c !in db.rows && ExtendTarget(cfg, snap, now).Some?
    ensures var f := ExtendCommitNext(cfg, db, cache, id, snap, now);
      && f.db == ExtendTx(db, id, ExtendTarget(cfg, snap, now).value, snap.extensionCount + 1).0 && f.cache == cache
      && f.db.rows.Keys <= db.rows.Keys + {c} && CallOk(cfg, cat, f.db, c, f.call)
  {
  }

  lemma SnapshotNow(cfg: Config, base: Base, db: Db, id: Id)
    requires RowsOk(cfg, base, db.rows) && id in db.rows
    ensures SnapshotOk(cfg, db, id, db.rows[id].req)
  {
    assert EntryOk(cfg, base.pools, id, db.rows[id]);
  }

  lemma ConfirmReadOk(cfg: Config, cat: Catalogue, db: Db, cache: Cache, c: Id, id: Id, now: Time)
    requires CacheOk(db, cache) && c !in db.rows
    ensures ReadOk(cfg, cat, db, c, ConfirmReadNext(db, cache, id, now))
  {
  }

  lemma CancelReadOk(cfg: Config, cat: Catalogue, db: Db, cache: Cache, c: Id, id: Id)
    requires id in db.rows ==> SnapshotOk(cfg, db, id, db.rows[id].req)
    requires CacheOk(db, cache) && c !in db.rows
    ensures ReadOk(cfg, cat, db, c, CancelReadNext(db, cache, id))
  {
  }

  lemma ExtendReadOk(cfg: Config, cat: Catalogue, db: Db, cache: Cache, c: Id, id: Id, now: Time)
    requires id in db.rows ==> SnapshotOk(cfg, db, id, db.rows[id].req)
    requires CacheOk(db, cache) && c !in db.rows
    ensures ReadOk(cfg, cat, db, c, ExtendReadNext(cfg, db, cache, id, now))
  {
  }

  lemma SweepReadOk(cfg: Config, cat: Catalogue, db: Db, cache: Cache, c: Id, ids: seq<Id>)
    requires |ids| > 0 && ids[0] in db.rows ==> SnapshotOk(cfg, db, ids[0], db.rows[ids[0]].req)
    requires CacheOk(db, cache) && c !in db.rows
    ensures ReadOk(cfg, cat, db, c, SweepEachNext(db, cache, ids))
  {
  }

  // ---- one step of one call is safe -----------------------------------------------------------

  /** From any good state, the call's next step has a good effect. */
  ghost predicate StepSafe(cfg: Config, cat: Catalogue, base: Base, db: Db, cache: Cache, c: Id, call: Call, choice: Choice) {
    cat.pools == base.pools && DbOk(cfg, base, db) && CacheOk(db, cache) && CallOk(cfg, cat, db, c, call) ==>
      EffectOk(cfg, cat, base, db, c, Next(cfg, cat, db, cache, c, call, choice))
  }

  lemma ReadIsSafe(cfg: Config, cat: Catalogue, base: Base, db: Db, cache: Cache, c: Id, call: Call, choice: Choice)
    requires ReadOk(cfg, cat, db, c, Next(cfg, cat, db, cache, c, call, choice))
    ensures StepSafe(cfg, cat, base, db, cache, c, call, choice)
  {
    ForwardReflexive(db);
  }

  lemma GetSafe(cfg: Config, cat: Catalogue, base: Base, db: Db, cache: Cache, c: Id, call: Call, choice: Choice)
    requires call.CreateGet?
    ensures StepSafe(cfg, cat, base, db, cache, c, call, choice)
  {
    if IdemOk(db) && CacheOk(db, cache) && CallOk(cfg, cat, db, c, call) {
      GetOk(cfg, cat, db, cache, c, call.input, call.cached);
      ReadIsSafe(cfg, cat, base, db, cache, c, call, choice);
    }
  }

  lemma FindSafe(cfg: Config, cat: Catalogue, base: Base, db: Db, cache: Cache, c: Id, call: Call, choice: Choice)
    requires call.CreateFind?
    ensures StepSafe(cfg, cat, base, db, cache, c, call, choice)
  {
    if IdemOk(db) && CacheOk(db, cache) && CallOk(cfg, cat, db, c, call) {
      FindOk(cfg, cat, db, cache, c, call.input);
      ReadIsSafe(cfg, cat, base, db, cache, c, call, choice);
    }
  }

  lemma CountSafe(cfg: Config, cat: Catalogue, base: Base, db: Db, cache: Cache, c: Id, call: Call, choice: Choice)
    requires call.CreateCount?
    ensures StepSafe(cfg, cat, base, db, cache, c, call, choice)
  {
    if CacheOk(db, cache) && CallOk(cfg, cat, db, c, call) {
      CountOk(cfg, cat, db, cache, c, call.input);
      ReadIsSafe(cfg, cat, base, db, cache, c, call, choice);
    }
  }

  lemma CacheSafe(cfg: Config, cat: Catalogue, base: Base, db: Db, cache: Cache, c: Id, call: Call, choice: Choice)
    requires call.CreateLookup?
    ensures StepSafe(cfg, cat, base, db, cache, c, call, choice)
  {
    if CacheOk(db, cache) && CallOk(cfg, cat, db, c, call) {
      ReadIsSafe(cfg, cat, base, db, cache, c, call, choice);
    }
  }

  lemma RecordOk(cfg: Config, cat: Catalogue, db: Db, cache: Cache, c: Id, input: CreateInput, id: Id)
    requires IdemOk(db) && CacheOk(db, cache) && Answers(db, input, id) && (c in db.rows ==> id == c)
    ensures ReadOk(cfg, cat, db, c, Effect(db, cache[TextOf(PairOf(input)) := id], CreateReturned(input, id)))
  {
    AnswerIsServed(db, input, id);
  }

  lemma RecordSafe(cfg: Config, cat: Catalogue, base: Base, db: Db, cache: Cache, c: Id, call: Call, choice: Choice)
    requires call.CreateRecord?
    ensures StepSafe(cfg, cat, base, db, cache, c, call, choice)
  {
    if IdemOk(db) && CacheOk(db, cache) && CallOk(cfg, cat, db, c, call) {
      RecordOk(cfg, cat, db, cache, c, call.input, c);
      ReadIsSafe(cfg, cat, base, db, cache, c, call, choice);
    }
  }

  lemma RefreshSafe(cfg: Config, cat: Catalogue, base: Base, db: Db, cache: Cache, c: Id, call: Call, choice: Choice)
    requires call.CreateRefresh?
    ensures StepSafe(cfg, cat, base, db, cache, c, call, choice)
  {
    if IdemOk(db) && CacheOk(db, cache) && CallOk(cfg, cat, db, c, call) {
      RecordOk(cfg, cat, db, cache, c, call.input, call.found);
      ReadIsSafe(cfg, cat, base, db, cache, c, call, choice);
    }
  }

  lemma PlanSafe(cfg: Config, cat: Catalogue, base: Base, db: Db, cache: Cache, c: Id, call: Call, choice: Choice)
    requires call.CreatePlan?
    ensures StepSafe(cfg, cat, base, db, cache, c, call, choice)
  {
    if CacheOk(db, cache) && CallOk(cfg, cat, db, c, call) {
      PlanNextOk(cfg, cat, db, cache, c, call.input, choice);
      ReadIsSafe(cfg, cat, base, db, cache, c, call, choice);
    }
  }

  lemma ReplaySafe(cfg: Config, cat: Catalogue, base: Base, db: Db, cache: Cache, c: Id, call: Call, choice: Choice)
    requires call.CreateReplay?
    ensures StepSafe(cfg, cat, base, db, cache, c, call, choice)
  {
    if IdemOk(db) && CacheOk(db, cache) && CallOk(cfg, cat, db, c, call) {
      ReplayOk(cfg, cat, db, cache, c, call.input, call.record);
      ReadIsSafe(cfg, cat, base, db, cache, c, call, choice);
    }
  }

  lemma ConfirmReadSafe(cfg: Config, cat: Catalogue, base: Base, db: Db, cache: Cache, c: Id, call: Call, choice: Choice)
    requires call.ConfirmRead?
    ensures StepSafe(cfg, cat, base, db, cache, c, call, choice)
  {
    if CacheOk(db, cache) && CallOk(cfg, cat, db, c, call) {
      ConfirmReadOk(cfg, cat, db, cache, c, call.id, choice.now);
      ReadIsSafe(cfg, cat, base, db, cache, c, call, choice);
    }
  }

  lemma CancelReadSafe(cfg: Config, cat: Catalogue, base: Base, db: Db, cache: Cache, c: Id, call: Call, choice: Choice)
    requires call.CancelRead?
    ensures StepSafe(cfg, cat, base, db, cache, c, call, choice)
  {
    if RowsOk(cfg, base, db.rows) && CacheOk(db, cache) && CallOk(cfg, cat, db, c, call) {
      if call.id in db.rows { SnapshotNow(cfg, base, db, call.id); }
      CancelReadOk(cfg, cat, db, cache, c, call.id);
      ReadIsSafe(cfg, cat, base, db, cache, c, call, choice);
    }
  }

  lemma ExtendReadSafe(cfg: Config, cat: Catalogue, base: Base, db: Db, cache: Cache, c: Id, call: Call, choice: Choice)
    requires call.ExtendRead?
    ensures StepSafe(cfg, cat, base, db, cache, c, call, choice)
  {
    if RowsOk(cfg, base, db.rows) && CacheOk(db, cache) && CallOk(cfg, cat, db, c, call) {
      if call.id in db.rows { SnapshotNow(cfg, base, db, call.id); }
      ExtendReadOk(cfg, cat, db, cache, c, call.id, choice.now);
      ReadIsSafe(cfg, cat, base, db, cache, c, call, choice);
    }
  }

  lemma IdleSafe(cfg: Config, cat: Catalogue, base: Base, db: Db, cache: Cache, c: Id, call: Call, choice: Choice)
    requires call.SweepList? || call.Finished? || call.Failed? || call.Crashed? || call.CreateReturned?
    ensures StepSafe(cfg, cat, base, db, cache, c, call, choice)
  {
    if CacheOk(db, cache) && CallOk(cfg, cat, db, c, call) { ReadIsSafe(cfg, cat, base, db, cache, c, call, choice); }
  }

  lemma SweepReadSafe(cfg: Config, cat: Catalogue, base: Base, db: Db, cache: Cache, c: Id, call: Call, choice: Choice)
    requires call.SweepEach?
    ensures StepSafe(cfg, cat, base, db, cache, c, call, choice)
  {
    if CacheOk(db, cache) && CallOk(cfg, cat, db, c, call) && RowsOk(cfg, base, db.rows) {
      if |call.ids| > 0 && call.ids[0] in db.rows { SnapshotNow(cfg, base, db, call.ids[0]); }
      SweepReadOk(cfg, cat, db, cache, c, call.ids);
      ReadIsSafe(cfg, cat, base, db, cache, c, call, choice);
    }
  }

  ghost predicate TxSafe(cfg: Config, base: Base, db: Db, db': Db) {
    DbOk(cfg, base, db) ==> DbOk(cfg, base, db') && Forward(db, db')
  }

  lemma WriteIsSafe(cfg: Config, cat: Catalogue, base: Base, db: Db, cache: Cache, c: Id, call: Call, choice: Choice, f: Effect)
    requires f == Next(cfg, cat, db, cache, c, call, choice)
    requires f.cache == cache && f.db.rows.Keys <= db.rows.Keys + {c} && CallOk(cfg, cat, f.db, c, f.call)
    requires TxSafe(cfg, base, db, f.db)
    ensures StepSafe(cfg, cat, base, db, cache, c, call, choice)
  {
    if CacheOk(db, cache) && Forward(db, f.db) { CacheFrame(db, f.db, cache); }
  }

  lemma CreateTxSafe(cfg: Config, base: Base, db: Db, c: Id, pair: IdemKey, fp: Fingerprint, plan: seq<Line>, now: Time, reason: Reason)
    requires PlanOk(base.pools, plan)
    ensures TxSafe(cfg, base, db, ReserveTx(cfg, db, c, pair, fp, plan, now).0)
    ensures TxSafe(cfg, base, db, RejectTx(db, c, pair, fp, plan, now, reason).0)
  {
    ReserveForward(cfg, db, c, pair, fp, plan, now);
    RejectForward(db, c, pair, fp, plan, now, reason);
    if DbOk(cfg, base, db) {
      ReserveKeepsInvariant(cfg, base, db, c, pair, fp, plan, now);
      RejectKeepsInvariant(cfg, base, db, c, pair, fp, plan, now, reason);
    }
  }

  lemma ReserveSafe(cfg: Config, cat: Catalogue, base: Base, db: Db, cache: Cache, c: Id, call: Call, choice: Choice)
    requires call.CreateReserve?
    ensures StepSafe(cfg, cat, base, db, cache, c, call, choice)
  {
    if cat.pools == base.pools && CallOk(cfg, cat, db, c, call) {
      ReserveNextOk(cfg, cat, db, cache, c, call.input, call.plan, call.now);
      CreateTxSafe(cfg, base, db, c, PairOf(call.input), FingerprintOf(call.input), call.plan, call.now, Conflict);
      WriteIsSafe(cfg, cat, base, db, cache, c, call, choice, ReserveNext(cfg, db, cache, c, call.input, call.plan, call.now));
    }
  }

  lemma RejectSafe(cfg: Config, cat: Catalogue, base: Base, db: Db, cache: Cache, c: Id, call: Call, choice: Choice)
    requires call.CreateReject?
    ensures StepSafe(cfg, cat, base, db, cache, c, call, choice)
  {
    if cat.pools == base.pools && CallOk(cfg, cat, db, c, call) {
      RejectNextOk(cfg, cat, db, cache, c, call.input, call.plan, call.now, call.reason);
      CreateTxSafe(cfg, base, db, c, PairOf(call.input), FingerprintOf(call.input), call.plan, call.now, call.reason);
      WriteIsSafe(cfg, cat, base, db, cache, c, call, choice, RejectNext(db, cache, c, call.input, call.plan, call.now, call.reason));
    }
  }

  lemma ConfirmTxSafe(cfg: Config, base: Base, db: Db, id: Id)
    ensures TxSafe(cfg, base, db, ConfirmTx(db, id).0)
  {
    if DbOk(cfg, base, db) {
      ConfirmKeepsInvariant(cfg, base, db, id);
      ConfirmForward(cfg, base, db, id);
    }
  }

  lemma ReleaseTxSafe(cfg: Config, base: Base, db: Db, id: Id, customer: Customer, terminal: Status)
    requires terminal in {Cancelled, Expired} && (id in db.rows ==> customer == db.rows[id].req.customer)
    ensures TxSafe(cfg, base, db, ReleaseTx(db, id, customer, terminal))
  {
    if DbOk(cfg, base, db) {
      ReleaseKeepsInvariant(cfg, base, db, id, customer, terminal);
      ReleaseForward(cfg, base, db, id, customer, terminal);
    }
  }

  lemma ExtendTxSafe(cfg: Config, base: Base, db: Db, id: Id, snap: Request, now: Time, db': Db)
    requires SnapshotOk(cfg, db, id, snap) && ExtendTarget(cfg, snap, now).Some?
    requires db' == ExtendTx(db, id, ExtendTarget(cfg, snap, now).value, snap.extensionCount + 1).0
    ensures TxSafe(cfg, base, db, db')
  {
    if DbOk(cfg, base, db) {
      ExtendKeepsInvariant(cfg, base, db, id, snap, now);
      ExtendForward(db, id, ExtendTarget(cfg, snap, now).value, snap.extensionCount + 1);
    }
  }

  lemma ConfirmSafe(cfg: Config, cat: Catalogue, base: Base, db: Db, cache: Cache, c: Id, call: Call, choice: Choice)
    requires call.ConfirmCommit?
    ensures StepSafe(cfg, cat, base, db, cache, c, call, choice)
  {
    if CallOk(cfg, cat, db, c, call) {
      ConfirmTxSafe(cfg, base, db, call.id);
      WriteIsSafe(cfg, cat, base, db, cache, c, call, choice, Next(cfg, cat, db, cache, c, call, choice));
    }
  }

  lemma CancelSafe(cfg: Config, cat: Catalogue, base: Base, db: Db, cache: Cache, c: Id, call: Call, choice: Choice)
    requires call.CancelCommit?
    ensures StepSafe(cfg, cat, base, db, cache, c, call, choice)
  {
    if CallOk(cfg, cat, db, c, call) {
      ReleaseTxSafe(cfg, base, db, call.id, call.snap.customer, Cancelled);
      WriteIsSafe(cfg, cat, base, db, cache, c, call, choice, Next(cfg, cat, db, cache, c, call, choice));
    }
  }

  lemma SweepSafe(cfg: Config, cat: Catalogue, base: Base, db: Db, cache: Cache, c: Id, call: Call, choice: Choice)
    requires call.SweepCommit?
    ensures StepSafe(cfg, cat, base, db, cache, c, call, choice)
  {
    if CallOk(cfg, cat, db, c, call) {
      ReleaseTxSafe(cfg, base, db, call.id, call.snap.customer, Expired);
      WriteIsSafe(cfg, cat, base, db, cache, c, call, choice, Next(cfg, cat, db, cache, c, call, choice));
    }
  }

  lemma ExtendSafe(cfg: Config, cat: Catalogue, base: Base, db: Db, cache: Cache, c: Id, call: Call, choice: Choice)
    requires call.ExtendCommit?
    ensures StepSafe(cfg, cat, base, db, cache, c, call, choice)
  {
    if CallOk(cfg, cat, db, c, call) {
      ExtendCommitOk(cfg, cat, db, cache, c, call.id, call.snap, call.now);
      ExtendTxSafe(cfg, base, db, call.id, call.snap, call.now, ExtendCommitNext(cfg, db, cache, call.id, call.snap, call.now).db);
      WriteIsSafe(cfg, cat, base, db, cache, c, call, choice, ExtendCommitNext(cfg, db, cache, call.id, call.snap, call.now));
    }
  }

  /** Every step of every call is safe. */
  lemma NextIsSafe(cfg: Config, cat: Catalogue, base: Base, db: Db, cache: Cache, c: Id, call: Call, choice: Choice)
    ensures StepSafe(cfg, cat, base, db, cache, c, call, choice)
  {
    match call
    case CreateLookup(_) => CacheSafe(cfg, cat, base, db, cache, c, call, choice);
    case CreateGet(_, _) => GetSafe(cfg, cat, base, db, cache, c, call, choice);
    case CreateFind(_) => FindSafe(cfg, cat, base, db, cache, c, call, choice);
    case CreateRefresh(_, _) => RefreshSafe(cfg, cat, base, db, cache, c, call, choice);
    case CreateCount(_) => CountSafe(cfg, cat, base, db, cache, c, call, choice);
    case CreatePlan(_) => PlanSafe(cfg, cat, base, db, cache, c, call, choice);
    case CreateReplay(_, _) => ReplaySafe(cfg, cat, base, db, cache, c, call, choice);
    case CreateRecord(_) => RecordSafe(cfg, cat, base, db, cache, c, call, choice);
    case CreateReserve(_, _, _) => ReserveSafe(cfg, cat, base, db, cache, c, call, choice);
    case CreateReject(_, _, _, _) => RejectSafe(cfg, cat, base, db, cache, c, call, choice);
    case ConfirmRead(_) => ConfirmReadSafe(cfg, cat, base, db, cache, c, call, choice);
    case CancelRead(_) => CancelReadSafe(cfg, cat, base, db, cache, c, call, choice);
    case ExtendRead(_) => ExtendReadSafe(cfg, cat, base, db, cache, c, call, choice);
    case ConfirmCommit(_) => ConfirmSafe(cfg, cat, base, db, cache, c, call, choice);
    case CancelCommit(_, _) => CancelSafe(cfg, cat, base, db, cache, c, call, choice);
    case SweepCommit(_, _, _) => SweepSafe(cfg, cat, base, db, cache, c, call, choice);
    case ExtendCommit(_, _, _) => ExtendSafe(cfg, cat, base, db, cache, c, call, choice);
    case SweepEach(_) => SweepReadSafe(cfg, cat, base, db, cache, c, call, choice);
    case _ => IdleSafe(cfg, cat, base, db, cache, c, call, choice);
  }

  // ---- every step, every run ------------------------------------------------------------------

  lemma CallsFrame(cfg: Config, cat: Catalogue, db: Db, db': Db, calls: map<Id, Call>, c: Id, call: Call)
    requires CallsOk(cfg, cat, db, calls) && Forward(db, db')
    requires db'.rows.Keys <= db.rows.Keys + {c} && CallOk(cfg, cat, db', c, call)
    ensures CallsOk(cfg, cat, db', calls[c := call])
  {
    var calls' := calls[c := call];
    forall d | d in calls' ensures CallOk(cfg, cat, db', d, calls'[d]) {
      if d != c { CallFrame(cfg, cat, db, db', d, calls[d]); }
    }
  }

  lemma StartOk(cfg: Config, cat: Catalogue, db: Db, move: Label)
    requires move.StartCreate? || move.StartConfirm? || move.StartCancel? || move.StartExtend? || move.StartSweep?
    requires move.c !in db.rows
    ensures CallOk(cfg, cat, db, move.c, StartCall(move))
  {
  }

  lemma StepOk(cfg: Config, cat: Catalogue, base: Base, w: World, move: Label)
    requires WorldOk(cfg, cat, base, w)
    ensures WorldOk(cfg, cat, base, Step(cfg, cat, w, move)) && Forward(w.db, Step(cfg, cat, w, move).db)
  {
    ForwardReflexive(w.db);
    match move {
      case Advance(c, choice) =>
        if c in w.calls {
          var f := Next(cfg, cat, w.db, w.cache, c, w.calls[c], choice);
          NextIsSafe(cfg, cat, base, w.db, w.cache, c, w.calls[c], choice);
          CallsFrame(cfg, cat, w.db, f.db, w.calls, c, f.call);
        }
      case Crash(c) =>
        if c in w.calls { CallsFrame(cfg, cat, w.db, w.db, w.calls, c, Crashed); }
      case Evict(key) =>
      case _ =>
        if move.c !in w.calls {
          StartOk(cfg, cat, w.db, move);
          CallsFrame(cfg, cat, w.db, w.db, w.calls, move.c, StartCall(move));
        }
    }
  }

  /** The invariant holds after every run. */
  lemma {:induction false} RunOk(cfg: Config, cat: Catalogue, base: Base, labels: seq<Label>)
    requires GoodBase(base) && cat.pools == base.pools
    ensures WorldOk(cfg, cat, base, Run(cfg, cat, base, labels))
  {
    if |labels| == 0 {
      InitOk(cfg, base);
    } else {
      RunOk(cfg, cat, base, labels[..|labels| - 1]);
      StepOk(cfg, cat, base, Run(cfg, cat, base, labels[..|labels| - 1]), labels[|labels| - 1]);
    }
  }

  /** From any moment of a run to any later one, requests only move forward and no pair is rebound. */
  lemma {:induction false} RunForward(cfg: Config, cat: Catalogue, base: Base, labels: seq<Label>, k: nat)
    requires GoodBase(base) && cat.pools == base.pools && k <= |labels|
    ensures Forward(Run(cfg, cat, base, labels[..k]).db, Run(cfg, cat, base, labels).db)
  {
    var last := Run(cfg, cat, base, labels);
    if k == |labels| {
      assert labels[..k] == labels;
      ForwardReflexive(last.db);
    } else {
      var front := labels[..|labels| - 1];
      assert front[..k] == labels[..k];
      RunForward(cfg, cat, base, front, k);
      RunOk(cfg, cat, base, front);
      StepOk(cfg, cat, base, Run(cfg, cat, base, front), labels[|labels| - 1]);
      ForwardTransitive(Run(cfg, cat, base, labels[..k]).db, Run(cfg, cat, base, front).db, last.db);
    }
  }
}
