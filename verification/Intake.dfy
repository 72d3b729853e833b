/** From a create call's body to its fingerprint and to its sorted reservation plan. */
module Intake {
  import opened Domain
  import opened Invariant
  import opened Lex

  datatype Result<+T> = Ok(value: T) | Err(reason: Reason)

  datatype CreateInput = CreateInput(customer: Customer, key: string, product: string, quantity: int, lines: seq<LineInput>)

  /** The product templates and the fixed part of the pools. */
  datatype Catalogue = Catalogue(products: map<string, map<Kind, int>>, pools: Pools)

  // ---- validation -----------------------------------------------------------------------------

  predicate ValidLines(lines: seq<LineInput>) {
    && |lines| <= MAX_LINES_PER_REQUEST
    && (forall i :: 0 <= i < |lines| ==> lines[i].kind != "" && 0 < lines[i].amount <= MAX_AMOUNT)
    && (forall i, j :: 0 <= i < j < |lines| ==> lines[i].kind != lines[j].kind)
  }

  predicate ValidBody(input: CreateInput) {
    if input.product != "" then 0 <= input.quantity <= MAX_QUANTITY && input.lines == []
    else ValidLines(input.lines)
  }

  function Validate(input: CreateInput): Option<Reason> {
    if input.key == "" then Some(MissingIdempotency)
    else if input.customer == "" then Some(Conflict)
    else if !ValidBody(input) then Some(InvalidInput)
    else None
  }

  // ---- the fingerprint ------------------------------------------------------------------------

  function NormalQuantity(quantity: int): int { if quantity <= 0 then 1 else quantity }

  predicate LineLe(x: LineInput, y: LineInput) {
    if x.kind == y.kind then x.amount <= y.amount else LexLe(x.kind, y.kind)
  }

  predicate Sorted(s: seq<LineInput>) {
    forall i, j :: 0 <= i < j < |s| ==> LineLe(s[i], s[j])
  }

  function InsertLine(s: seq<LineInput>, x: LineInput): seq<LineInput> {
    if |s| == 0 then [x]
    else if LineLe(s[|s| - 1], x) then s + [x]
    else InsertLine(s[..|s| - 1], x) + [s[|s| - 1]]
  }

  function SortLines(s: seq<LineInput>): seq<LineInput> {
    if |s| == 0 then [] else InsertLine(SortLines(s[..|s| - 1]), s[|s| - 1])
  }

  function FingerprintOf(input: CreateInput): Fingerprint {
    if input.product != "" then ProductBody(input.product, NormalQuantity(input.quantity))
    else LinesBody(SortLines(input.lines))
  }

  lemma LineTotal(x: LineInput, y: LineInput)
    ensures LineLe(x, y) || LineLe(y, x)
    ensures LineLe(x, y) && LineLe(y, x) ==> x == y
  {
    LexTotal(x.kind, y.kind);
    if LexLe(x.kind, y.kind) && LexLe(y.kind, x.kind) { LexAntisymmetric(x.kind, y.kind); }
  }

  lemma LineTransitive(x: LineInput, y: LineInput, z: LineInput)
    requires LineLe(x, y) && LineLe(y, z)
    ensures LineLe(x, z)
  {
    if x.kind != y.kind && y.kind != z.kind {
      LexTransitive(x.kind, y.kind, z.kind);
      if x.kind == z.kind { LexAntisymmetric(x.kind, y.kind); }
    }
  }

  lemma {:induction false} InsertSorts(s: seq<LineInput>, x: LineInput)
    requires Sorted(s)
    ensures Sorted(InsertLine(s, x)) && multiset(InsertLine(s, x)) == multiset(s) + multiset{x}
  {
    if |s| > 0 {
      var front, last := s[..|s| - 1], s[|s| - 1];
      assert s == front + [last];
      if LineLe(last, x) {
        forall i | 0 <= i < |s| ensures LineLe(s[i], x) {
          if i < |s| - 1 { LineTransitive(s[i], last, x); }
        }
      } else {
        InsertSorts(front, x);
        LineTotal(last, x);
        var r := InsertLine(front, x);
        forall i | 0 <= i < |r| ensures LineLe(r[i], last) {
          assert r[i] in multiset(r);
          assert r[i] in multiset(front) || r[i] == x;
          if r[i] != x {
            assert r[i] in front;
          }
        }
      }
    }
  }

  lemma {:induction false} SortSorts(s: seq<LineInput>)
    ensures Sorted(SortLines(s)) && multiset(SortLines(s)) == multiset(s)
  {
    if |s| > 0 {
      SortSorts(s[..|s| - 1]);
      InsertSorts(SortLines(s[..|s| - 1]), s[|s| - 1]);
      assert s == s[..|s| - 1] + [s[|s| - 1]];
    }
  }

  lemma LastOfSorted(a: seq<LineInput>, b: seq<LineInput>)
    requires Sorted(a) && Sorted(b) && multiset(a) == multiset(b) && |a| > 0
    ensures |b| > 0 && LineLe(b[|b| - 1], a[|a| - 1])
  {
    assert |multiset(a)| == |a| && |multiset(b)| == |b|;
    var y := b[|b| - 1];
    assert y in multiset(b);
    assert y in multiset(a);
    var j :| 0 <= j < |a| && a[j] == y;
    LineTotal(y, y);
  }

  lemma MultisetWithoutLast(a: seq<LineInput>)
    requires |a| > 0
    ensures multiset(a[..|a| - 1]) == multiset(a) - multiset{a[|a| - 1]}
  {
    assert a == a[..|a| - 1] + [a[|a| - 1]];
  }

  lemma SortedStep(a: seq<LineInput>, b: seq<LineInput>)
    requires Sorted(a) && Sorted(b) && multiset(a) == multiset(b) && |a| > 0
    ensures |b| > 0 && a[|a| - 1] == b[|b| - 1]
    ensures Sorted(a[..|a| - 1]) && Sorted(b[..|b| - 1]) && multiset(a[..|a| - 1]) == multiset(b[..|b| - 1])
  {
    LastOfSorted(a, b);
    LastOfSorted(b, a);
    LineTotal(a[|a| - 1], b[|b| - 1]);
    MultisetWithoutLast(a);
    MultisetWithoutLast(b);
  }

  /** A sorted list is determined by what is in it, so any correct sort gives the same fingerprint. */
  lemma {:induction false} SortedUnique(a: seq<LineInput>, b: seq<LineInput>)
    requires Sorted(a) && Sorted(b) && multiset(a) == multiset(b)
    ensures a == b
  {
    assert |multiset(a)| == |a| && |multiset(b)| == |b|;
    if |a| > 0 {
      SortedStep(a, b);
      SortedUnique(a[..|a| - 1], b[..|b| - 1]);
      assert a == a[..|a| - 1] + [a[|a| - 1]];
      assert b == b[..|b| - 1] + [b[|b| - 1]];
    }
  }

  /** The same product and quantity, or the same lines in some order. */
  predicate SameBody(a: CreateInput, b: CreateInput) {
    if a.product != "" then
      b.product == a.product && NormalQuantity(b.quantity) == NormalQuantity(a.quantity)
    else
      b.product == "" && multiset(a.lines) == multiset(b.lines)
  }

  /** The fingerprint is sound and complete for equality of bodies. */
  lemma FingerprintCanonical(a: CreateInput, b: CreateInput)
    ensures FingerprintOf(a) == FingerprintOf(b) <==> SameBody(a, b)
  {
    SortSorts(a.lines);
    SortSorts(b.lines);
    if a.product == "" && b.product == "" && multiset(a.lines) == multiset(b.lines) {
      SortedUnique(SortLines(a.lines), SortLines(b.lines));
    }
  }

  // ---- resolving the lines --------------------------------------------------------------------

  /** Two's complement wrap-around of a 64-bit signed integer. */
  function Wrap64(x: int): int {
    (x + 0x8000_0000_0000_0000) % 0x1_0000_0000_0000_0000 - 0x8000_0000_0000_0000
  }

  predicate InBounds(amount: int) { 0 < amount <= MAX_AMOUNT }

  function TemplateAmounts(template: map<Kind, int>, units: int): map<Kind, int> {
    map k | k in template :: Wrap64(template[k] * units)
  }

  function AddLine(out: map<Kind, int>, l: LineInput): map<Kind, int> {
    out[l.kind := (if l.kind in out then out[l.kind] else 0) + l.amount]
  }

  function AddLines(lines: seq<LineInput>): map<Kind, int> {
    if |lines| == 0 then map[] else AddLine(AddLines(lines[..|lines| - 1]), lines[|lines| - 1])
  }

  function Resolve(cat: Catalogue, input: CreateInput): Result<map<Kind, int>> {
    if input.product != "" then
      if input.product !in cat.products then Err(ProductNotFound)
      else
        var amounts := TemplateAmounts(cat.products[input.product], NormalQuantity(input.quantity));
        if forall k :: k in amounts ==> InBounds(amounts[k]) then Ok(amounts) else Err(InvalidInput)
    else if input.lines == [] then Err(Conflict)
    else Ok(AddLines(input.lines))
  }

  lemma {:induction false} AddLinesOfDistinct(lines: seq<LineInput>, k: Kind)
    requires forall i, j :: 0 <= i < j < |lines| ==> lines[i].kind != lines[j].kind
    ensures forall i :: 0 <= i < |lines| && lines[i].kind == k ==> k in AddLines(lines) && AddLines(lines)[k] == lines[i].amount
    ensures (forall i :: 0 <= i < |lines| ==> lines[i].kind != k) ==> k !in AddLines(lines)
  {
    if |lines| > 0 { AddLinesOfDistinct(lines[..|lines| - 1], k); }
  }

  lemma SubsetOfAddLines(a: seq<LineInput>, b: seq<LineInput>, k: Kind)
    requires ValidLines(a) && ValidLines(b) && multiset(a) == multiset(b) && k in AddLines(a)
    ensures k in AddLines(b) && AddLines(a)[k] == AddLines(b)[k]
  {
    AddLinesOfDistinct(a, k);
    AddLinesOfDistinct(b, k);
    var i :| 0 <= i < |a| && a[i].kind == k;
    assert a[i] in multiset(a) && a[i] in multiset(b);
    var j :| 0 <= j < |b| && b[j] == a[i];
  }

  lemma SameBodySameAmounts(cat: Catalogue, a: CreateInput, b: CreateInput)
    requires ValidBody(a) && ValidBody(b) && SameBody(a, b)
    ensures Resolve(cat, a) == Resolve(cat, b)
  {
    if a.product == "" {
      assert |multiset(a.lines)| == |a.lines| && |multiset(b.lines)| == |b.lines|;
      forall k | k in AddLines(a.lines) ensures k in AddLines(b.lines) && AddLines(a.lines)[k] == AddLines(b.lines)[k] {
        SubsetOfAddLines(a.lines, b.lines, k);
      }
      forall k | k in AddLines(b.lines) ensures k in AddLines(a.lines) {
        SubsetOfAddLines(b.lines, a.lines, k);
      }
      assert AddLines(a.lines) == AddLines(b.lines);
    }
  }

  // ---- the plan -------------------------------------------------------------------------------

  predicate Aligned(pool: Pool, amount: int) {
    pool.minGrain > 0 ==> amount % pool.minGrain == 0
  }

  predicate HasKind(pools: Pools, p: Id, kind: Kind) { p in pools && pools[p].kind == kind }

  /** Every kind has a pool and an amount aligned to its grain. */
  predicate Plannable(pools: Pools, amounts: map<Kind, int>) {
    forall k :: k in amounts ==> exists p :: p in pools && HasKind(pools, p, k) && Aligned(pools[p], amounts[k])
  }

  predicate NoPoolFor(pools: Pools, k: Kind) { forall p :: p in pools ==> !HasKind(pools, p, k) }

  predicate MisalignedOn(pools: Pools, p: Id, k: Kind, amount: int) {
    p in pools && HasKind(pools, p, k) && !Aligned(pools[p], amount)
  }

  /** The reasons the loop over the amounts may stop with, which depends on the order of the map. */
  predicate Refusable(pools: Pools, amounts: map<Kind, int>, reason: Reason) {
    match reason
    case InvalidResourceKind => exists k :: k in amounts && NoPoolFor(pools, k)
    case Conflict => exists k, p :: k in amounts && p in pools && MisalignedOn(pools, p, k, amounts[k])
    case _ => false
  }

  /** The plan for the amounts: one line per kind, ascending by pool id. */
  predicate IsPlan(pools: Pools, amounts: map<Kind, int>, plan: seq<Line>) {
    && Ascending(plan)
    && (forall i :: 0 <= i < |plan| ==>
         && HasKind(pools, plan[i].poolId, plan[i].kind)
         && plan[i].kind in amounts && plan[i].amount == amounts[plan[i].kind]
         && Aligned(pools[plan[i].poolId], plan[i].amount))
    && (forall k :: k in amounts ==> exists i :: 0 <= i < |plan| && plan[i].kind == k)
  }

  lemma PlanContains(pools: Pools, amounts: map<Kind, int>, a: seq<Line>, b: seq<Line>, i: nat) returns (j: nat)
    requires KindsUnique(pools) && IsPlan(pools, amounts, a) && IsPlan(pools, amounts, b) && i < |a|
    ensures j < |b| && b[j] == a[i]
  {
    assert a[i].kind in amounts;
    j :| 0 <= j < |b| && b[j].kind == a[i].kind;
    assert HasKind(pools, a[i].poolId, a[i].kind) && HasKind(pools, b[j].poolId, b[j].kind);
  }

  predicate Among(x: Line, b: seq<Line>) {
    exists j :: 0 <= j < |b| && b[j] == x
  }

  predicate Within(a: seq<Line>, b: seq<Line>) {
    forall i :: 0 <= i < |a| ==> Among(a[i], b)
  }

  lemma LastWithin(a: seq<Line>, b: seq<Line>)
    requires Ascending(b) && Within(a, b) && |a| > 0
    ensures |b| > 0 && a[|a| - 1].poolId <= b[|b| - 1].poolId
  {
    assert Among(a[|a| - 1], b);
    var j :| 0 <= j < |b| && b[j] == a[|a| - 1];
  }

  lemma WithinWithoutLast(a: seq<Line>, b: seq<Line>, a': seq<Line>, b': seq<Line>)
    requires Ascending(a) && Ascending(b) && Within(a, b) && |a| > 0 && |b| > 0
    requires a[|a| - 1].poolId == b[|b| - 1].poolId
    requires a' == a[..|a| - 1] && b' == b[..|b| - 1]
    ensures a[|a| - 1] == b[|b| - 1] && Within(a', b')
  {
    assert Among(a[|a| - 1], b);
    forall i | 0 <= i < |a'| ensures Among(a'[i], b') {
      assert Among(a[i], b);
      var j :| 0 <= j < |b| && b[j] == a[i];
      assert b'[j] == a'[i];
    }
  }

  /** Ascending plans with the same lines are the same plan. */
  lemma {:induction false} AscendingUnique(a: seq<Line>, b: seq<Line>)
    requires Ascending(a) && Ascending(b) && Within(a, b) && Within(b, a)
    ensures a == b
  {
    if |a| > 0 {
      LastWithin(a, b);
      LastWithin(b, a);
      var a', b' := a[..|a| - 1], b[..|b| - 1];
      WithinWithoutLast(a, b, a', b');
      WithinWithoutLast(b, a, b', a');
      AscendingUnique(a', b');
      assert a == a' + [a[|a| - 1]] && b == b' + [b[|b| - 1]];
    } else if |b| > 0 {
      LastWithin(b, a);
    }
  }

  /** Some reason to refuse exists exactly when some kind has no pool it is aligned to. */
  lemma RefusedIffUnplannable(pools: Pools, amounts: map<Kind, int>)
    requires KindsUnique(pools)
    ensures !Plannable(pools, amounts) <==>
      Refusable(pools, amounts, InvalidResourceKind) || Refusable(pools, amounts, Conflict)
  {
    if k, p :| k in amounts && p in pools && MisalignedOn(pools, p, k, amounts[k]) {
      forall q | q in pools && HasKind(pools, q, k) ensures !Aligned(pools[q], amounts[k]) {
        assert q == p;
      }
    }
    if !Plannable(pools, amounts) {
      var k :| k in amounts && !exists p :: p in pools && HasKind(pools, p, k) && Aligned(pools[p], amounts[k]);
      if !NoPoolFor(pools, k) {
        var p :| p in pools && HasKind(pools, p, k);
        assert MisalignedOn(pools, p, k, amounts[k]);
      }
    }
  }

  /** Amounts that have a plan cannot be refused, so a call ends the same way in every order. */
  lemma PlannedIsNotRefused(pools: Pools, amounts: map<Kind, int>, plan: seq<Line>, reason: Reason)
    requires KindsUnique(pools) && IsPlan(pools, amounts, plan)
    ensures !Refusable(pools, amounts, reason)
  {
    forall k | k in amounts ensures exists p :: p in pools && HasKind(pools, p, k) && Aligned(pools[p], amounts[k]) {
      var i :| 0 <= i < |plan| && plan[i].kind == k;
      assert HasKind(pools, plan[i].poolId, k) && Aligned(pools[plan[i].poolId], amounts[k]);
    }
    RefusedIffUnplannable(pools, amounts);
  }

  /** There is at most one plan, so the order in which the map of amounts is iterated is irrelevant. */
  lemma PlanUnique(pools: Pools, amounts: map<Kind, int>, a: seq<Line>, b: seq<Line>)
    requires KindsUnique(pools) && IsPlan(pools, amounts, a) && IsPlan(pools, amounts, b)
    ensures a == b
  {
    forall i | 0 <= i < |a| ensures Among(a[i], b) {
      var j := PlanContains(pools, amounts, a, b, i);
    }
    forall i | 0 <= i < |b| ensures Among(b[i], a) {
      var j := PlanContains(pools, amounts, b, a, i);
    }
    AscendingUnique(a, b);
  }

  /** The plans of two bodies with equal fingerprints are the same plan. */
  lemma EqualFingerprintsSamePlan(cat: Catalogue, a: CreateInput, b: CreateInput, planA: seq<Line>, planB: seq<Line>)
    requires KindsUnique(cat.pools) && ValidBody(a) && ValidBody(b)
    requires FingerprintOf(a) == FingerprintOf(b)
    requires Resolve(cat, a).Ok? && IsPlan(cat.pools, Resolve(cat, a).value, planA)
    requires Resolve(cat, b).Ok? && IsPlan(cat.pools, Resolve(cat, b).value, planB)
    ensures planA == planB
  {
    FingerprintCanonical(a, b);
    SameBodySameAmounts(cat, a, b);
    PlanUnique(cat.pools, Resolve(cat, a).value, planA, planB);
  }

  lemma ResolvedInBounds(cat: Catalogue, input: CreateInput)
    requires ValidBody(input) && Resolve(cat, input).Ok?
    ensures forall k :: k in Resolve(cat, input).value ==> InBounds(Resolve(cat, input).value[k])
  {
    if input.product == "" {
      forall k | k in AddLines(input.lines) ensures InBounds(AddLines(input.lines)[k]) {
        AddLinesOfDistinct(input.lines, k);
        var i :| 0 <= i < |input.lines| && input.lines[i].kind == k;
      }
    }
  }

  /** A plan of resolved amounts is one the ledger accepts. */
  lemma PlanIsOk(cat: Catalogue, input: CreateInput, plan: seq<Line>)
    requires ValidBody(input) && Resolve(cat, input).Ok? && IsPlan(cat.pools, Resolve(cat, input).value, plan)
    ensures PlanOk(cat.pools, plan)
  {
    ResolvedInBounds(cat, input);
    forall i | 0 <= i < |plan| ensures 0 < plan[i].amount <= MAX_AMOUNT {
      assert InBounds(Resolve(cat, input).value[plan[i].kind]);
    }
  }
}
