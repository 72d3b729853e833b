/** The template product is formed in 64 bits and checked only afterwards. This says how large a
    template value may be for that check to be right. */
module Arithmetic {
  import opened Domain
  import opened Intake

  /** The check after the multiplication accepts exactly the true products in range, unchanged. */
  predicate CheckedRight(value: int, units: int) {
    && (InBounds(Wrap64(value * units)) <==> InBounds(value * units))
    && (InBounds(value * units) ==> Wrap64(value * units) == value * units)
  }

  /** The least magnitude at which some product of at most 1000 units wraps into range. */
  const WRAP_LIMIT: int := 18_437_736_874_454_811

  lemma TimesMonotone(x: int, y: int, k: int)
    requires x <= y && 0 <= k
    ensures k * x <= k * y && x * k <= y * k
  {
    assert 0 <= (y - x) * k;
  }

  lemma ProductBounds(value: int, units: int, bound: int)
    requires -bound <= value <= bound && 1 <= units <= MAX_QUANTITY
    ensures -(bound * MAX_QUANTITY) <= value * units <= bound * MAX_QUANTITY
  {
    TimesMonotone(units, MAX_QUANTITY, bound);
    TimesMonotone(value, bound, units);
    TimesMonotone(-bound, value, units);
  }

  lemma WrapBelowLimit(x: int)
    requires -((WRAP_LIMIT - 1) * MAX_QUANTITY) <= x <= (WRAP_LIMIT - 1) * MAX_QUANTITY
    ensures InBounds(Wrap64(x)) <==> InBounds(x)
    ensures InBounds(x) ==> Wrap64(x) == x
  {
    if x > MAX_INT64 {
      assert Wrap64(x) == x - 0x1_0000_0000_0000_0000;
    } else if x < -MAX_INT64 - 1 {
      assert Wrap64(x) == x + 0x1_0000_0000_0000_0000;
    } else {
      assert Wrap64(x) == x;
    }
  }

  /** The check is right for every template value up to a bound and every valid quantity iff the bound
      is below WRAP_LIMIT; it is therefore right for magnitudes up to 2^53 - 1, and wrong for all int64. */
  lemma CheckedRightBelowLimit(bound: int)
    requires bound >= 0
    ensures (forall v, q {:trigger CheckedRight(v, q)} :: -bound <= v <= bound && 1 <= q <= MAX_QUANTITY ==> CheckedRight(v, q))
      <==> bound < WRAP_LIMIT
    ensures MAX_AMOUNT < WRAP_LIMIT < MAX_INT64
  {
    if bound < WRAP_LIMIT {
      forall v, q | -bound <= v <= bound && 1 <= q <= MAX_QUANTITY ensures CheckedRight(v, q) {
        ProductBounds(v, q, bound);
        WrapBelowLimit(v * q);
      }
    } else {
      assert Wrap64(-WRAP_LIMIT * MAX_QUANTITY) == 9_007_199_254_740_616;
      assert !CheckedRight(-WRAP_LIMIT, MAX_QUANTITY);
    }
  }

  predicate SafeTemplate(template: map<Kind, int>) {
    forall k :: k in template ==> -WRAP_LIMIT < template[k] < WRAP_LIMIT
  }

  /** For templates below the limit, resolving a product accepts exactly when every true product is in
      [1, 2^53 - 1], and then yields the true products. */
  lemma ResolveIsExact(cat: Catalogue, input: CreateInput)
    requires ValidBody(input) && input.product in cat.products && input.product != ""
    requires SafeTemplate(cat.products[input.product])
    ensures var t, q := cat.products[input.product], NormalQuantity(input.quantity);
      && (Resolve(cat, input).Ok? <==> forall k :: k in t ==> InBounds(t[k] * q))
      && (Resolve(cat, input).Ok? ==> Resolve(cat, input).value == map k | k in t :: t[k] * q)
  {
    var t, q := cat.products[input.product], NormalQuantity(input.quantity);
    CheckedRightBelowLimit(WRAP_LIMIT - 1);
    forall k | k in t ensures CheckedRight(t[k], q) {
    }
    var amounts := TemplateAmounts(t, q);
    assert forall k :: k in t ==> amounts[k] == Wrap64(t[k] * q);
    if forall k :: k in t ==> InBounds(t[k] * q) {
      assert forall k :: k in amounts ==> InBounds(amounts[k]);
    } else {
      var k :| k in t && !InBounds(t[k] * q);
      assert !InBounds(amounts[k]);
    }
  }

  /** A template value that wraps: one thousand units of it are accepted as the amount 384. */
  lemma WrappedProductIsAccepted()
    ensures Wrap64(18_446_744_073_709_552 * 1000) == 384
    ensures !CheckedRight(18_446_744_073_709_552, 1000)
  {
  }
}
