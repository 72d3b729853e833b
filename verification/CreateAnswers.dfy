/** What a create answers and writes, told in the fields of its body, of the catalogue and of the records. */
module CreateAnswers {
  import opened Domain
  import opened Ledger
  import opened Invariant
  import opened Reserve
  import opened Intake
  import opened CacheKey
  import opened Arithmetic
  import opened Interleaving
  import opened Guarantees
  import opened Serial

  // ---- validation -----------------------------------------------------------------------------

  /** The documented bounds, in numbers. */
  predicate BodyInBounds(input: CreateInput) {
    if input.product != "" then 0 <= input.quantity <= 1000 && |input.lines| == 0
    else
      && |input.lines| <= 50
      && (forall l :: l in input.lines ==> |l.kind| > 0 && 1 <= l.amount <= 9_007_199_254_740_991)
      && (forall i, j :: 0 <= i < j < |input.lines| ==> input.lines[i].kind != input.lines[j].kind)
  }

  predicate Acceptable(input: CreateInput) {
    input.key != "" && input.customer != "" && BodyInBounds(input)
  }

  /** A body out of bounds is refused before anything is read, with the reason of the first check that
      fails. */
  lemma RefusesBadInput(cfg: Config, db: Db, found: Option<Result<Id>>, id: Id, input: CreateInput, planned: Result<seq<Line>>, now: Time)
    ensures Acceptable(input) <==> Validate(input).None?
    ensures var reason := if input.key == "" then MissingIdempotency else if input.customer == "" then Conflict else InvalidInput;
      !Acceptable(input) ==> CreateAfterCheck(cfg, db, found, id, input, planned, now) == (db, Refused(reason))
  {
    if input.product == "" && BodyInBounds(input) {
      forall i | 0 <= i < |input.lines| ensures input.lines[i].kind != "" && 0 < input.lines[i].amount <= MAX_AMOUNT {
        assert input.lines[i] in input.lines;
      }
    }
  }

  // ---- a key used before ------------------------------------------------------------------------

  predicate HasPair(e: Entry, input: CreateInput) {
    e.req.customer == input.customer && e.req.key == input.key
  }

  /** A create whose pair a stored request has changes nothing: it answers with that request if it was made
      from the same body and refuses the reused key otherwise. */
  lemma ReplayAnswers(cfg: Config, db: Db, id: Id, input: CreateInput, planned: Result<seq<Line>>, now: Time, stored: Id)
    requires IdemOk(db) && Acceptable(input) && stored in db.rows && HasPair(db.rows[stored], input)
    ensures CreateCall(cfg, db, id, input, planned, now) ==
      (db, if db.rows[stored].req.fingerprint == FingerprintOf(input) then Returned(stored) else Refused(IdempotencyKeyReused))
    ensures ReplayOutcome(db, input) ==
      if db.rows[stored].req.fingerprint == FingerprintOf(input) then Returned(stored) else Refused(IdempotencyKeyReused)
  {
    RefusesBadInput(cfg, db, CheckStore(db, input), id, input, planned, now);
    assert KeyOf(db.rows[stored].req) == PairOf(input);
  }

  /** Same body means what the caller sent: the same product and effective quantity, or the same lines in
      some order. */
  lemma ReplayComparesBodies(cfg: Config, db: Db, id: Id, input: CreateInput, planned: Result<seq<Line>>, now: Time, stored: Id, first: CreateInput)
    requires IdemOk(db) && Acceptable(input) && stored in db.rows && HasPair(db.rows[stored], input)
    requires db.rows[stored].req.fingerprint == FingerprintOf(first)
    ensures CreateCall(cfg, db, id, input, planned, now).0 == db
    ensures CreateCall(cfg, db, id, input, planned, now).1 ==
      if first.product == input.product
         && (if input.product != "" then Effective(first.quantity) == Effective(input.quantity)
             else multiset(first.lines) == multiset(input.lines))
      then Returned(stored) else Refused(IdempotencyKeyReused)
  {
    ReplayAnswers(cfg, db, id, input, planned, now, stored);
    FingerprintCanonical(first, input);
    EffectiveIsNormal(first.quantity);
    EffectiveIsNormal(input.quantity);
  }

  /** A positive quantity counts as it is, anything else as one. */
  function Effective(quantity: int): (units: int)
    ensures quantity > 0 ==> units == quantity
    ensures quantity <= 0 ==> units == 1
  {
    if quantity > 0 then quantity else 1
  }

  lemma EffectiveIsNormal(quantity: int)
    ensures NormalQuantity(quantity) == Effective(quantity)
  {
  }

  /** When no stored request has the pair, the lookups find nothing, also after a lost insert. */
  lemma NothingFound(db: Db, input: CreateInput)
    requires IdemOk(db) && forall stored :: stored in db.rows ==> !HasPair(db.rows[stored], input)
    ensures CheckStore(db, input) == None && ReplayOutcome(db, input) == Refused(Conflict)
    ensures PairOf(input) !in db.idem
  {
    if PairOf(input) in db.idem {
      assert HasPair(db.rows[db.idem[PairOf(input)]], input);
    }
  }

  /** Whatever the cache holds, what the check finds is a stored request of the pair's text: it is returned
      iff it was made from the same body. */
  lemma CheckComparesBodies(db: Db, cache: Cache, input: CreateInput)
    requires IdemOk(db) && CacheOk(db, cache)
    ensures match CheckReplay(db, cache, input)
      case Some(Ok(id)) =>
        id in db.rows && TextOf(KeyOf(db.rows[id].req)) == TextOf(PairOf(input)) && db.rows[id].req.fingerprint == FingerprintOf(input)
      case Some(Err(reason)) =>
        && reason == IdempotencyKeyReused
        && exists id :: id in db.rows && TextOf(KeyOf(db.rows[id].req)) == TextOf(PairOf(input))
                        && db.rows[id].req.fingerprint != FingerprintOf(input)
      case None => forall id :: id in db.rows ==> !HasPair(db.rows[id], input)
  {
    var text := TextOf(PairOf(input));
    if text in cache {
      assert cache[text] in db.rows;
    } else if PairOf(input) in db.idem {
      assert db.idem[PairOf(input)] in db.rows;
    } else {
      forall id | id in db.rows ensures !HasPair(db.rows[id], input) {
        assert KeyOf(db.rows[id].req) in db.idem;
      }
    }
  }

  // ---- the plan -------------------------------------------------------------------------------

  predicate Asks(l: Line, input: LineInput) { l.kind == input.kind && l.amount == input.amount }

  predicate AskedBy(l: Line, lines: seq<LineInput>) { exists j :: 0 <= j < |lines| && Asks(l, lines[j]) }

  predicate PlannedIn(input: LineInput, plan: seq<Line>) { exists i :: 0 <= i < |plan| && Asks(plan[i], input) }

  /** The lines ask for exactly what the body lists. */
  predicate SameAsLines(lines: seq<LineInput>, plan: seq<Line>) {
    && (forall j :: 0 <= j < |lines| ==> PlannedIn(lines[j], plan))
    && (forall i :: 0 <= i < |plan| ==> AskedBy(plan[i], lines))
  }

  /** A whole number of grains, where the pool has a grain. */
  predicate OnGrain(pool: Pool, l: Line) {
    pool.minGrain > 0 ==> l.amount == (l.amount / pool.minGrain) * pool.minGrain
  }

  /** Equal in 64-bit arithmetic. */
  predicate Same64(a: int, b: int) { (a - b) % 0x1_0000_0000_0000_0000 == 0 }

  predicate SameAsTemplate(template: map<Kind, int>, units: int, plan: seq<Line>) {
    && (forall i :: 0 <= i < |plan| ==> plan[i].kind in template && Same64(plan[i].amount, template[plan[i].kind] * units))
    && (forall k :: k in template ==> exists i :: 0 <= i < |plan| && plan[i].kind == k)
  }

  lemma WrapIsSame64(x: int)
    ensures Same64(Wrap64(x), x)
  {
  }

  lemma AlignedIsOnGrain(pool: Pool, l: Line)
    ensures Aligned(pool, l.amount) <==> OnGrain(pool, l)
  {
  }

  lemma KindIsListed(lines: seq<LineInput>, k: Kind)
    requires ValidLines(lines) && k in AddLines(lines)
    ensures exists j :: 0 <= j < |lines| && lines[j] == LineInput(k, AddLines(lines)[k])
  {
    AddLinesOfDistinct(lines, k);
    var j :| 0 <= j < |lines| && lines[j].kind == k;
    assert lines[j] == LineInput(k, AddLines(lines)[k]);
  }

  lemma PlanOfLines(lines: seq<LineInput>, pools: Pools, plan: seq<Line>)
    requires ValidLines(lines) && IsPlan(pools, AddLines(lines), plan)
    ensures SameAsLines(lines, plan)
  {
    forall j | 0 <= j < |lines| ensures PlannedIn(lines[j], plan) {
      AddLinesOfDistinct(lines, lines[j].kind);
      var i :| 0 <= i < |plan| && plan[i].kind == lines[j].kind;
      assert Asks(plan[i], lines[j]);
    }
    forall i | 0 <= i < |plan| ensures AskedBy(plan[i], lines) {
      KindIsListed(lines, plan[i].kind);
      var j :| 0 <= j < |lines| && lines[j] == LineInput(plan[i].kind, AddLines(lines)[plan[i].kind]);
      assert Asks(plan[i], lines[j]);
    }
  }

  lemma PlanOfTemplate(template: map<Kind, int>, quantity: int, pools: Pools, plan: seq<Line>)
    requires IsPlan(pools, TemplateAmounts(template, NormalQuantity(quantity)), plan)
    ensures SameAsTemplate(template, Effective(quantity), plan)
  {
    forall i | 0 <= i < |plan| ensures plan[i].kind in template && Same64(plan[i].amount, template[plan[i].kind] * Effective(quantity)) {
      WrapIsSame64(template[plan[i].kind] * Effective(quantity));
    }
    forall k | k in template ensures exists i :: 0 <= i < |plan| && plan[i].kind == k {
      assert k in TemplateAmounts(template, NormalQuantity(quantity));
    }
  }

  /** One line of a plan: a positive bounded amount on the pool of its kind, a whole number of grains. */
  predicate LineInOrder(pools: Pools, l: Line) {
    && 1 <= l.amount <= 9_007_199_254_740_991
    && l.poolId in pools && pools[l.poolId].kind == l.kind && OnGrain(pools[l.poolId], l)
  }

  lemma PlannedLines(cat: Catalogue, input: CreateInput, plan: seq<Line>)
    requires ValidBody(input) && PlannedAs(cat, input, Ok(plan))
    ensures forall i :: 0 <= i < |plan| ==> LineInOrder(cat.pools, plan[i])
  {
    ResolvedInBounds(cat, input);
    forall i | 0 <= i < |plan| ensures LineInOrder(cat.pools, plan[i]) {
      assert InBounds(Resolve(cat, input).value[plan[i].kind]);
      AlignedIsOnGrain(cat.pools[plan[i].poolId], plan[i]);
    }
  }

  predicate PlanMatches(cat: Catalogue, input: CreateInput, plan: seq<Line>) {
    if input.product != "" then
      input.product in cat.products && SameAsTemplate(cat.products[input.product], Effective(input.quantity), plan)
    else
      |input.lines| > 0 && SameAsLines(input.lines, plan)
  }

  lemma PlanOfBody(cat: Catalogue, input: CreateInput, plan: seq<Line>)
    requires ValidBody(input) && PlannedAs(cat, input, Ok(plan))
    ensures PlanMatches(cat, input, plan)
  {
    if input.product != "" {
      PlanOfTemplate(cat.products[input.product], input.quantity, cat.pools, plan);
    } else {
      PlanOfLines(input.lines, cat.pools, plan);
    }
  }

  /** A plan has one line per kind of the body, in ascending pool order, each with the amount asked for. */
  lemma PlanAnswers(cat: Catalogue, input: CreateInput, plan: seq<Line>)
    requires KindsUnique(cat.pools) && Acceptable(input) && PlannedAs(cat, input, Ok(plan))
    ensures forall i :: 0 <= i < |plan| ==> LineInOrder(cat.pools, plan[i])
    ensures forall i, j :: 0 <= i < j < |plan| ==> plan[i].poolId < plan[j].poolId && plan[i].kind != plan[j].kind
    ensures PlanMatches(cat, input, plan)
  {
    AcceptableIsValid(input);
    PlannedLines(cat, input, plan);
    PlanOfBody(cat, input, plan);
    forall i, j | 0 <= i < j < |plan| ensures plan[i].poolId < plan[j].poolId && plan[i].kind != plan[j].kind {
      assert HasKind(cat.pools, plan[i].poolId, plan[i].kind) && HasKind(cat.pools, plan[j].poolId, plan[j].kind);
    }
  }

  lemma AcceptableIsValid(input: CreateInput)
    requires Acceptable(input)
    ensures ValidBody(input)
  {
    RefusesBadInput(Config(0, 0, 0, 0), Db(map[], map[], map[], map[]), None, 0, input, Err(Conflict), 0);
  }

  /** The body asks for this amount of the kind. */
  predicate AskedFor(cat: Catalogue, input: CreateInput, k: Kind, amount: int) {
    if input.product != "" then
      && input.product in cat.products && k in cat.products[input.product]
      && amount == cat.products[input.product][k] * Effective(input.quantity)
    else
      exists j :: 0 <= j < |input.lines| && input.lines[j] == LineInput(k, amount)
  }

  predicate NoPoolOf(pools: Pools, k: Kind) { forall p :: p in pools ==> pools[p].kind != k }

  predicate OffGrain(pools: Pools, p: Id, k: Kind, amount: int) {
    p in pools && pools[p].kind == k && !OnGrain(pools[p], Line(p, k, amount))
  }

  ghost predicate RefusedFor(cat: Catalogue, input: CreateInput, reason: Reason) {
    match reason
    case InvalidResourceKind => exists k, amount :: AskedFor(cat, input, k, amount) && NoPoolOf(cat.pools, k)
    case Conflict => exists k, amount, p :: AskedFor(cat, input, k, amount) && OffGrain(cat.pools, p, k, amount)
    case _ => false
  }

  predicate SomeOutOfBounds(template: map<Kind, int>, units: int) {
    exists k :: k in template && !(1 <= template[k] * units <= 9_007_199_254_740_991)
  }

  /** Why no plan was made: an unknown product, a template amount out of bounds, an empty body, or a wanted
      kind without a pool or off its pool's grain. */
  lemma RefusalAnswers(cat: Catalogue, input: CreateInput, reason: Reason)
    requires Acceptable(input) && PlannedAs(cat, input, Err(reason))
    requires input.product in cat.products ==> SafeTemplate(cat.products[input.product])
    ensures if input.product != "" && input.product !in cat.products then reason == ProductNotFound
      else if input.product == "" && input.lines == [] then reason == Conflict
      else if input.product != "" && SomeOutOfBounds(cat.products[input.product], Effective(input.quantity)) then
        reason == InvalidInput
      else RefusedFor(cat, input, reason)
  {
    AcceptableIsValid(input);
    EffectiveIsNormal(input.quantity);
    if input.product != "" && input.product in cat.products {
      ResolveIsExact(cat, input);
    }
    if Resolve(cat, input).Ok? {
      RefusedPlan(cat, input, Resolve(cat, input).value, reason);
    }
  }

  lemma WantedAmount(cat: Catalogue, input: CreateInput, amounts: map<Kind, int>, k: Kind)
    requires ValidBody(input) && Resolve(cat, input) == Ok(amounts) && k in amounts
    requires input.product in cat.products ==> SafeTemplate(cat.products[input.product])
    ensures AskedFor(cat, input, k, amounts[k])
  {
    EffectiveIsNormal(input.quantity);
    if input.product != "" {
      ResolveIsExact(cat, input);
    } else {
      KindIsListed(input.lines, k);
    }
  }

  lemma RefusedPlan(cat: Catalogue, input: CreateInput, amounts: map<Kind, int>, reason: Reason)
    requires ValidBody(input) && Resolve(cat, input) == Ok(amounts) && Refusable(cat.pools, amounts, reason)
    requires input.product in cat.products ==> SafeTemplate(cat.products[input.product])
    ensures RefusedFor(cat, input, reason)
  {
    if reason == InvalidResourceKind {
      var k :| k in amounts && NoPoolFor(cat.pools, k);
      WantedAmount(cat, input, amounts, k);
      assert forall p :: p in cat.pools ==> !HasKind(cat.pools, p, k);
      assert NoPoolOf(cat.pools, k);
    } else {
      var k, p :| k in amounts && p in cat.pools && MisalignedOn(cat.pools, p, k, amounts[k]);
      WantedAmount(cat, input, amounts, k);
      AlignedIsOnGrain(cat.pools[p], Line(p, k, amounts[k]));
      assert OffGrain(cat.pools, p, k, amounts[k]);
    }
  }

  // ---- a fresh create ---------------------------------------------------------------------------

  predicate PoolHas(db: Db, l: Line) {
    l.poolId in db.pools && db.pools[l.poolId].effective - db.pools[l.poolId].dedicated - db.pools[l.poolId].reserved >= l.amount
  }

  /** A customer without a row has ten thousand of every kind. */
  predicate QuotaHas(db: Db, customer: Customer, l: Line) {
    var key := QuotaKey(customer, l.kind);
    if key in db.quotas then db.quotas[key].limit - db.quotas[key].used >= l.amount else l.amount <= 10_000
  }

  predicate HasRoom(db: Db, customer: Customer, l: Line) { PoolHas(db, l) && QuotaHas(db, customer, l) }

  predicate AddsRow(db: Db, id: Id, input: CreateInput, db': Db) {
    && id !in db.rows && db'.rows.Keys == db.rows.Keys + {id}
    && (forall other :: other in db.rows ==> db'.rows[other] == db.rows[other])
    && db'.idem == db.idem[IdemKey(input.customer, input.key) := id]
  }

  predicate ReservedRow(cfg: Config, id: Id, input: CreateInput, plan: seq<Line>, now: Time, e: Entry) {
    && e.req == Request(input.customer, input.key, FingerprintOf(input), Reserved, None, Some(now + cfg.ttl), 0, now)
    && e.lines == plan && |e.holds| == |plan| && e.dedications == [] && e.events == [EventReserved]
    && forall i :: 0 <= i < |plan| ==> e.holds[i] == Hold(HoldId(id, i), plan[i].poolId, plan[i].amount, Active)
  }

  predicate RejectedRow(input: CreateInput, plan: seq<Line>, now: Time, reason: Reason, e: Entry) {
    && e.req == Request(input.customer, input.key, FingerprintOf(input), Rejected, Some(reason), None, 0, now)
    && e.lines == plan && e.holds == [] && e.dedications == [] && e.events == [EventRejected]
  }

  /** Each pool and quota takes exactly what the plan asks of it; missing quota rows start at the default. */
  ghost predicate CountersTake(db: Db, db': Db, customer: Customer, plan: seq<Line>) {
    && db'.pools.Keys == db.pools.Keys
    && (forall p :: p in db.pools ==> db'.pools[p] == db.pools[p].(reserved := db.pools[p].reserved + AmountOn(plan, p)))
    && (forall key :: QuotaRow(db'.quotas, key) == QuotaRow(db.quotas, key).(used :=
         QuotaRow(db.quotas, key).used + if key.customer == customer then KindAmount(plan, key.kind) else 0))
    && (forall key :: key in db'.quotas <==> key in db.quotas || exists i :: 0 <= i < |plan| && key == QuotaKey(customer, plan[i].kind))
  }

  ghost predicate PlanAnswered(cfg: Config, db: Db, id: Id, input: CreateInput, plan: seq<Line>, now: Time, db': Db) {
    && AddsRow(db, id, input, db')
    && (if forall i :: 0 <= i < |plan| ==> HasRoom(db, input.customer, plan[i]) then
          ReservedRow(cfg, id, input, plan, now, db'.rows[id]) && CountersTake(db, db', input.customer, plan)
        else
          exists k :: 0 <= k < |plan| && RejectedAt(db, id, input, plan, now, k, db'))
  }

  /** Rejected for line k, the first without room, with its reason, and no counter touched. */
  predicate RejectedAt(db: Db, id: Id, input: CreateInput, plan: seq<Line>, now: Time, k: nat, db': Db)
    requires k < |plan| && id in db'.rows
  {
    && (forall i :: 0 <= i < k ==> HasRoom(db, input.customer, plan[i])) && !HasRoom(db, input.customer, plan[k])
    && RejectedRow(input, plan, now, if PoolHas(db, plan[k]) then QuotaExceeded else InsufficientCapacity, db'.rows[id])
    && db'.pools == db.pools && db'.quotas == db.quotas
  }

  ghost predicate CreateAnswered(cfg: Config, db: Db, id: Id, input: CreateInput, planned: Result<seq<Line>>, now: Time, db': Db, outcome: Outcome) {
    if cfg.maxActiveHolds > 0 && |ActiveRequests(db.rows, input.customer)| >= cfg.maxActiveHolds then
      db' == db && outcome == Refused(TooManyActiveHolds)
    else
      match planned
      case Err(reason) => db' == db && outcome == Refused(reason)
      case Ok(plan) => outcome == Returned(id) && PlanAnswered(cfg, db, id, input, plan, now, db')
  }

  /** The requests that count against the cap are the customer's RESERVED ones with an ACTIVE hold. */
  lemma ActiveRequestsAre(rows: Rows, customer: Customer, id: Id)
    ensures id in ActiveRequests(rows, customer) <==>
      && id in rows && rows[id].req.customer == customer && rows[id].req.status == Reserved
      && exists i :: 0 <= i < |rows[id].holds| && rows[id].holds[i].status == Active
  {
    if id in rows { ActiveHoldsEmpty(rows[id].holds); }
  }

  lemma RoomIsFit(db: Db, customer: Customer, plan: seq<Line>)
    ensures forall i :: 0 <= i < |plan| ==>
      (HasRoom(db, customer, plan[i]) <==> LineFits(db.pools, db.quotas, customer, plan[i]))
      && (PoolHas(db, plan[i]) <==> PoolFits(db.pools, plan[i]))
  {
  }

  lemma TakesCounters(db: Db, db': Db, customer: Customer, plan: seq<Line>)
    requires Separate(plan) && db'.pools == AfterReserve(db.pools, plan) && db'.quotas == AfterCharge(db.quotas, customer, plan)
    ensures CountersTake(db, db', customer, plan)
  {
    forall key
      ensures QuotaRow(db'.quotas, key) == QuotaRow(db.quotas, key).(used :=
        QuotaRow(db.quotas, key).used + if key.customer == customer then KindAmount(plan, key.kind) else 0)
    {
      KindAmountSeparate(plan, key.kind);
      if key.customer == customer {
        if i :| 0 <= i < |plan| && plan[i].kind == key.kind { assert key in PlanKeys(customer, plan); }
      }
    }
  }

  lemma ReserveWrites(cfg: Config, db: Db, id: Id, input: CreateInput, plan: seq<Line>, now: Time, db': Db)
    requires Separate(plan) && AllFit(db.pools, db.quotas, input.customer, plan)
    requires id !in db.rows && PairOf(input) !in db.idem
    requires db' == ReserveTx(cfg, db, id, PairOf(input), FingerprintOf(input), plan, now).0
    ensures AddsRow(db, id, input, db') && ReservedRow(cfg, id, input, plan, now, db'.rows[id])
    ensures CountersTake(db, db', input.customer, plan)
  {
    LoopRefinesSimultaneousCheck(db.pools, db.quotas, input.customer, plan);
    ReserveAdds(cfg, db, id, input, plan, now, db');
    TakesCounters(db, db', input.customer, plan);
  }

  lemma ReserveAdds(cfg: Config, db: Db, id: Id, input: CreateInput, plan: seq<Line>, now: Time, db': Db)
    requires id !in db.rows && PairOf(input) !in db.idem
    requires ReserveLoop(db.pools, db.quotas, input.customer, plan).Fits?
    requires db' == ReserveTx(cfg, db, id, PairOf(input), FingerprintOf(input), plan, now).0
    ensures AddsRow(db, id, input, db') && ReservedRow(cfg, id, input, plan, now, db'.rows[id])
    ensures LoopResult.Fits(db'.pools, db'.quotas) == ReserveLoop(db.pools, db.quotas, input.customer, plan)
  {
  }

  lemma RejectWrites(cfg: Config, db: Db, id: Id, input: CreateInput, plan: seq<Line>, now: Time, db': Db)
    requires Separate(plan) && !AllFit(db.pools, db.quotas, input.customer, plan)
    requires id !in db.rows && PairOf(input) !in db.idem
    requires (db', Returned(id)) == CreateFresh(cfg, db, id, input, plan, now)
    ensures AddsRow(db, id, input, db') && exists k :: 0 <= k < |plan| && RejectedAt(db, id, input, plan, now, k, db')
  {
    LoopRefinesSimultaneousCheck(db.pools, db.quotas, input.customer, plan);
    RoomIsFit(db, input.customer, plan);
    var k := ReserveLoop(db.pools, db.quotas, input.customer, plan).at;
    assert RejectedAt(db, id, input, plan, now, k, db');
  }

  lemma FreshOutcome(cfg: Config, db: Db, id: Id, input: CreateInput, plan: seq<Line>, now: Time)
    requires id !in db.rows && PairOf(input) !in db.idem
    ensures CreateFresh(cfg, db, id, input, plan, now).1 == Returned(id)
    ensures ReserveLoop(db.pools, db.quotas, input.customer, plan).Fits? ==>
      CreateFresh(cfg, db, id, input, plan, now).0 == ReserveTx(cfg, db, id, PairOf(input), FingerprintOf(input), plan, now).0
  {
  }

  lemma FreshAnswers(cfg: Config, db: Db, id: Id, input: CreateInput, plan: seq<Line>, now: Time, db': Db)
    requires Separate(plan) && id !in db.rows && PairOf(input) !in db.idem
    requires db' == CreateFresh(cfg, db, id, input, plan, now).0
    ensures PlanAnswered(cfg, db, id, input, plan, now, db')
  {
    FreshOutcome(cfg, db, id, input, plan, now);
    RoomIsFit(db, input.customer, plan);
    if AllFit(db.pools, db.quotas, input.customer, plan) {
      LoopRefinesSimultaneousCheck(db.pools, db.quotas, input.customer, plan);
      ReserveWrites(cfg, db, id, input, plan, now, db');
    } else {
      RejectWrites(cfg, db, id, input, plan, now, db');
    }
  }

  /** The answer of every create with a fresh id whose pair no stored request has: over the cap, without a
      plan, RESERVED now for one TTL with exactly the plan's lines, holds and counters, or REJECTED for the
      first line without room. */
  lemma CreateAnswers(cfg: Config, cat: Catalogue, base: Base, db: Db, id: Id, input: CreateInput, planned: Result<seq<Line>>, now: Time)
    requires DbOk(cfg, base, db) && cat.pools == base.pools && Acceptable(input) && (planned.Ok? ==> PlannedAs(cat, input, planned))
    requires id !in db.rows && forall stored :: stored in db.rows ==> !HasPair(db.rows[stored], input)
    ensures CreateAnswered(cfg, db, id, input, planned, now,
                           CreateCall(cfg, db, id, input, planned, now).0, CreateCall(cfg, db, id, input, planned, now).1)
  {
    NothingFound(db, input);
    RefusesBadInput(cfg, db, CheckStore(db, input), id, input, planned, now);
    if planned.Ok? {
      PlanIsOk(cat, input, planned.value);
      PlanIsSeparate(base, planned.value);
    }
    FirstCall(cfg, db, id, input, planned, now);
  }

  lemma FirstCall(cfg: Config, db: Db, id: Id, input: CreateInput, planned: Result<seq<Line>>, now: Time)
    requires Validate(input).None? && CheckStore(db, input) == None && id !in db.rows && PairOf(input) !in db.idem
    requires planned.Ok? ==> Separate(planned.value)
    ensures CreateAnswered(cfg, db, id, input, planned, now,
                           CreateCall(cfg, db, id, input, planned, now).0, CreateCall(cfg, db, id, input, planned, now).1)
  {
    if planned.Ok? {
      FreshOutcome(cfg, db, id, input, planned.value, now);
      FreshAnswers(cfg, db, id, input, planned.value, now, CreateFresh(cfg, db, id, input, planned.value, now).0);
    }
  }

  // ---- every create -----------------------------------------------------------------------------

  /** The invariant holds for this catalogue, whatever the quotas were at first. */
  ghost predicate SoundFor(cfg: Config, cat: Catalogue, db: Db) {
    exists base :: DbOk(cfg, base, db) && base.pools == cat.pools
  }

  /** A body out of bounds, a pair already stored, and a pair not stored. */
  ghost predicate Answered(cfg: Config, cat: Catalogue, db: Db, id: Id, input: CreateInput, planned: Result<seq<Line>>, now: Time, db': Db, outcome: Outcome) {
    if !Acceptable(input) then
      db' == db && outcome == Refused(if input.key == "" then MissingIdempotency else if input.customer == "" then Conflict else InvalidInput)
    else
      && (forall stored :: stored in db.rows && HasPair(db.rows[stored], input) ==>
           db' == db && outcome == if db.rows[stored].req.fingerprint == FingerprintOf(input) then Returned(stored) else Refused(IdempotencyKeyReused))
      && (SoundFor(cfg, cat, db) && id !in db.rows && (forall stored :: stored in db.rows ==> !HasPair(db.rows[stored], input)) ==>
           CreateAnswered(cfg, db, id, input, planned, now, db', outcome))
  }

  /** All of the above for one call, on every state with a consistent index. */
  lemma CallAnswers(cfg: Config, cat: Catalogue, db: Db, id: Id, input: CreateInput, planned: Result<seq<Line>>, now: Time, r: (Db, Outcome))
    requires IdemOk(db) && (planned.Ok? ==> PlannedAs(cat, input, planned))
    requires r == CreateCall(cfg, db, id, input, planned, now)
    ensures Answered(cfg, cat, db, id, input, planned, now, r.0, r.1)
  {
    RefusesBadInput(cfg, db, CheckStore(db, input), id, input, planned, now);
    if Acceptable(input) {
      forall stored | stored in db.rows && HasPair(db.rows[stored], input)
        ensures r == (db, if db.rows[stored].req.fingerprint == FingerprintOf(input) then Returned(stored) else Refused(IdempotencyKeyReused))
      {
        ReplayAnswers(cfg, db, id, input, planned, now, stored);
      }
      if SoundFor(cfg, cat, db) && id !in db.rows && forall stored :: stored in db.rows ==> !HasPair(db.rows[stored], input) {
        var base :| DbOk(cfg, base, db) && base.pools == cat.pools;
        CreateAnswers(cfg, cat, base, db, id, input, planned, now);
      }
    }
  }

  /** Told in records: on a serial run no set of RESERVED requests of one customer with an ACTIVE hold each is
      larger than the limit. */
  lemma CapInRecords(cfg: Config, cat: Catalogue, base: Base, ops: seq<Op>, customer: Customer, ids: set<Id>)
    requires Setup(cat, base) && cfg.maxActiveHolds > 0
    requires var rows := SerialRun(cfg, cat, base, ops).rows;
      forall id :: id in ids ==>
        && id in rows && rows[id].req.customer == customer && rows[id].req.status == Reserved
        && exists i :: 0 <= i < |rows[id].holds| && rows[id].holds[i].status == Active
    ensures |ids| <= cfg.maxActiveHolds
  {
    var rows := SerialRun(cfg, cat, base, ops).rows;
    SerialRunOk(cfg, cat, base, ops);
    forall id | id in ids ensures id in ActiveRequests(rows, customer) {
      ActiveRequestsAre(rows, customer, id);
    }
    SubsetSize(ids, ActiveRequests(rows, customer));
  }
}
