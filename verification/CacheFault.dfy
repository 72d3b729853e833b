/** What the joined cache text costs: exactly which customers can be answered with each other's requests. */
module CacheFault {
  import opened Domain
  import opened Ledger
  import opened Invariant
  import opened Reserve
  import opened Intake
  import opened CacheKey
  import opened Interleaving
  import opened Guarantees

  /** In this run a create of customer d has succeeded with a request of customer c. */
  ghost predicate AnsweredFor(cfg: Config, cat: Catalogue, base: Base, labels: seq<Label>, call: Id, c: Customer, d: Customer) {
    var w := Run(cfg, cat, base, labels);
    && Setup(cat, base)
    && call in w.calls && w.calls[call].CreateReturned?
    && w.calls[call].input.customer == d
    && w.calls[call].id in w.db.rows && w.db.rows[w.calls[call].id].req.customer == c
  }

  ghost predicate MayBeAnsweredFor(c: Customer, d: Customer) {
    exists cfg, cat, base, labels, call :: AnsweredFor(cfg, cat, base, labels, call, c, d)
  }

  /** A product without resources; reserving it needs no pool. */
  const CATALOGUE: Catalogue := Catalogue(map["p" := map[]], map[])
  const NOTHING: Base := Base(map[], map[])

  function Ask(customer: Customer, key: string): CreateInput { CreateInput(customer, key, "p", 1, []) }

  function Now(): Choice { Choice(0, [], Conflict, []) }

  lemma AskIsEmpty(customer: Customer, key: string)
    requires customer != "" && key != ""
    ensures Validate(Ask(customer, key)).None?
    ensures FingerprintOf(Ask(customer, key)) == ProductBody("p", 1)
    ensures Resolve(CATALOGUE, Ask(customer, key)) == Ok(map[])
  {
    assert TemplateAmounts(map[], 1) == map[];
  }

  /** What the first create leaves: its request and its cache entry. */
  function AfterFirst(cfg: Config, c: Customer, k: string): World {
    var pair := IdemKey(c, k);
    World(Db(map[], map[], map[1 := ReservedEntry(1, ReservedRequest(cfg, pair, ProductBody("p", 1), 0), [])], map[pair := 1]),
          map[TextOf(pair) := 1],
          map[1 := CreateReturned(Ask(c, k), 1)])
  }

  /** Lookup, find, count, plan, reserve, record. */
  function FirstLabels(c: Customer, k: string): seq<Label> {
    [StartCreate(1, Ask(c, k)), Advance(1, Now()), Advance(1, Now()), Advance(1, Now()), Advance(1, Now()),
     Advance(1, Now()), Advance(1, Now())]
  }

  lemma RunMore(cfg: Config, cat: Catalogue, base: Base, labels: seq<Label>, move: Label)
    ensures Run(cfg, cat, base, labels + [move]) == Step(cfg, cat, Run(cfg, cat, base, labels), move)
  {
    assert (labels + [move])[..|labels|] == labels;
  }

  lemma NothingToPlan()
    ensures !Refusable(NOTHING.pools, map[], Conflict) && IsPlan(NOTHING.pools, map[], [])
  {
  }

  lemma EmptyPlanCommits(cfg: Config, pair: IdemKey)
    ensures ReserveTx(cfg, Init(NOTHING), 1, pair, ProductBody("p", 1), [], 0)
         == (Db(map[], map[], map[1 := ReservedEntry(1, ReservedRequest(cfg, pair, ProductBody("p", 1), 0), [])], map[pair := 1]),
             Committed)
  {
  }

  /** One step of a create that is alone in the world, on the given database and cache. */
  lemma OneStep(cfg: Config, db: Db, cache: Cache, call: Call)
    ensures var f := Next(cfg, CATALOGUE, db, cache, 1, call, Now());
      Step(cfg, CATALOGUE, World(db, cache, map[1 := call]), Advance(1, Now())) == World(f.db, f.cache, map[1 := f.call])
  {
    assert map[1 := call][1 := Next(cfg, CATALOGUE, db, cache, 1, call, Now()).call]
        == map[1 := Next(cfg, CATALOGUE, db, cache, 1, call, Now()).call];
  }

  lemma FirstReads(cfg: Config, c: Customer, k: string)
    requires c != "" && k != ""
    ensures var input, db, none := Ask(c, k), Init(NOTHING), map[];
      && Next(cfg, CATALOGUE, db, none, 1, CreateLookup(input), Now()) == Effect(db, none, CreateFind(input))
      && Next(cfg, CATALOGUE, db, none, 1, CreateFind(input), Now()) == Effect(db, none, CreateCount(input))
      && Next(cfg, CATALOGUE, db, none, 1, CreateCount(input), Now()) == Effect(db, none, CreatePlan(input))
      && Next(cfg, CATALOGUE, db, none, 1, CreatePlan(input), Now()) == Effect(db, none, CreateReserve(input, [], 0))
  {
    AskIsEmpty(c, k);
    NothingToPlan();
    assert ActiveRequests(Init(NOTHING).rows, c) == {};
  }

  lemma FirstWrites(cfg: Config, c: Customer, k: string)
    requires c != "" && k != ""
    ensures var input, db, none := Ask(c, k), AfterFirst(cfg, c, k).db, map[];
      && Next(cfg, CATALOGUE, Init(NOTHING), none, 1, CreateReserve(input, [], 0), Now()) == Effect(db, none, CreateRecord(input))
      && Next(cfg, CATALOGUE, db, none, 1, CreateRecord(input), Now())
         == Effect(db, AfterFirst(cfg, c, k).cache, CreateReturned(input, 1))
  {
    AskIsEmpty(c, k);
    EmptyPlanCommits(cfg, PairOf(Ask(c, k)));
  }

  lemma FirstCreate(cfg: Config, c: Customer, k: string)
    requires c != "" && k != ""
    ensures Run(cfg, CATALOGUE, NOTHING, FirstLabels(c, k)) == AfterFirst(cfg, c, k)
  {
    var input, db0, db1, none := Ask(c, k), Init(NOTHING), AfterFirst(cfg, c, k).db, map[];
    var go := Advance(1, Now());
    var l0: seq<Label> := [];
    FirstStart(cfg, c, k);
    FirstReads(cfg, c, k);
    FirstWrites(cfg, c, k);
    OneStep(cfg, db0, none, CreateLookup(input));
    OneStep(cfg, db0, none, CreateFind(input));
    OneStep(cfg, db0, none, CreateCount(input));
    OneStep(cfg, db0, none, CreatePlan(input));
    OneStep(cfg, db0, none, CreateReserve(input, [], 0));
    OneStep(cfg, db1, none, CreateRecord(input));
    var l1 := [StartCreate(1, input)];
    RunMore(cfg, CATALOGUE, NOTHING, l1, go);
    RunMore(cfg, CATALOGUE, NOTHING, l1 + [go], go);
    RunMore(cfg, CATALOGUE, NOTHING, l1 + [go] + [go], go);
    RunMore(cfg, CATALOGUE, NOTHING, l1 + [go] + [go] + [go], go);
    RunMore(cfg, CATALOGUE, NOTHING, l1 + [go] + [go] + [go] + [go], go);
    RunMore(cfg, CATALOGUE, NOTHING, l1 + [go] + [go] + [go] + [go] + [go], go);
    assert l1 + [go] + [go] + [go] + [go] + [go] + [go] == FirstLabels(c, k);
  }

  lemma FirstStart(cfg: Config, c: Customer, k: string)
    requires c != "" && k != ""
    ensures Run(cfg, CATALOGUE, NOTHING, [StartCreate(1, Ask(c, k))])
         == World(Init(NOTHING), map[], map[1 := CreateLookup(Ask(c, k))])
  {
    AskIsEmpty(c, k);
    RunMore(cfg, CATALOGUE, NOTHING, [], StartCreate(1, Ask(c, k)));
    assert [] + [StartCreate(1, Ask(c, k))] == [StartCreate(1, Ask(c, k))];
  }

  /** A second customer asks with a pair of the same text and the same body. */
  function SecondLabels(d: Customer, l: string): seq<Label> {
    [StartCreate(2, Ask(d, l)), Advance(2, Now()), Advance(2, Now())]
  }

  lemma SecondSteps(cfg: Config, c: Customer, k: string, d: Customer, l: string)
    requires d != "" && l != "" && TextOf(IdemKey(c, k)) == TextOf(IdemKey(d, l))
    ensures var w, input := AfterFirst(cfg, c, k), Ask(d, l);
      var w1 := Step(cfg, CATALOGUE, w, StartCreate(2, input));
      var w2 := Step(cfg, CATALOGUE, w1, Advance(2, Now()));
      && w1 == w.(calls := w.calls[2 := CreateLookup(input)])
      && w2 == w.(calls := w.calls[2 := CreateGet(input, 1)])
      && Step(cfg, CATALOGUE, w2, Advance(2, Now())) == w.(calls := w.calls[2 := CreateReturned(input, 1)])
  {
    AskIsEmpty(d, l);
  }

  /** It is answered with the first customer's request, which the store alone would not have found. */
  lemma SecondCreate(cfg: Config, c: Customer, k: string, d: Customer, l: string)
    requires c != "" && k != "" && d != "" && l != "" && c != d
    requires TextOf(IdemKey(c, k)) == TextOf(IdemKey(d, l))
    ensures AnsweredFor(cfg, CATALOGUE, NOTHING, FirstLabels(c, k) + SecondLabels(d, l), 2, c, d)
    ensures CheckReplay(AfterFirst(cfg, c, k).db, AfterFirst(cfg, c, k).cache, Ask(d, l)) == Some(Ok(1))
    ensures CheckStore(AfterFirst(cfg, c, k).db, Ask(d, l)) == None
  {
    var l0, go := FirstLabels(c, k), Advance(2, Now());
    var l1 := l0 + [StartCreate(2, Ask(d, l))];
    FirstCreate(cfg, c, k);
    SecondSteps(cfg, c, k, d, l);
    RunMore(cfg, CATALOGUE, NOTHING, l0, StartCreate(2, Ask(d, l)));
    RunMore(cfg, CATALOGUE, NOTHING, l1, go);
    RunMore(cfg, CATALOGUE, NOTHING, l1 + [go], go);
    assert l1 + [go] + [go] == FirstLabels(c, k) + SecondLabels(d, l);
  }

  /** The smallest case: customer "a" used the key "b:k"; customer "a:b" asks with the key "k". */
  lemma WrongCustomerIsAnswered(cfg: Config)
    ensures AnsweredFor(cfg, CATALOGUE, NOTHING, FirstLabels("a", "b:k") + SecondLabels("a:b", "k"), 2, "a", "a:b")
  {
    assert "idempotency:" + "a" + ":" + "b:k" == "idempotency:" + "a:b" + ":" + "k";
    SecondCreate(cfg, "a", "b:k", "a:b", "k");
  }

  /** A create of one customer can ever be answered with a request of another iff one of the two names
      extends the other by a colon. */
  lemma AnsweredForIff(c: Customer, d: Customer)
    requires c != "" && d != "" && c != d
    ensures MayBeAnsweredFor(c, d) <==> Related(c, d)
  {
    if cfg, cat, base, labels, call :| AnsweredFor(cfg, cat, base, labels, call, c, d) {
      var w := Run(cfg, cat, base, labels);
      CreateReturnsItsRequest(cfg, cat, base, labels, call);
      SameText(KeyOf(w.db.rows[w.calls[call].id].req), PairOf(w.calls[call].input));
    }
    if Related(c, d) {
      CollisionIff(c, d);
      var k: string, l: string :| k != "" && l != "" && TextOf(IdemKey(c, k)) == TextOf(IdemKey(d, l));
      SecondCreate(Config(0, 0, 0, 0), c, k, d, l);
    }
  }
}
