/**
 * The pricing engine: `computePricing` turns an original price and an
 * optional discounted price into the stored pricing triple, or rejects
 * the pair. Prices are integers (the number type's integer values).
 */
module Pricing {
  import opened Wrappers

  /** The `PricingComputed` shape: the discount fields are both null or both set. */
  datatype PricingComputed = PricingComputed(
    originalPrice: int,
    discountedPrice: Option<int>,
    discountPercent: Option<int>)

  /** The three errors `computePricing` throws. */
  datatype PricingError =
    | OriginalNegative          // the original price is below zero
    | DiscountedNegative        // the discounted price is below zero
    | DiscountedAboveOriginal   // the discounted price exceeds the original

  type PricingResult = Result<PricingComputed, PricingError>

  /** The result with no discount. */
  function NoDiscount(o: int): PricingComputed {
    PricingComputed(o, None, None)
  }

  /**
   * `Math.round(((o - d) / o) * 100)` in exact arithmetic: the percentage
   * 100 * (o - d) / o rounded half up, that is floor(100 * (o - d) / o + 1/2).
   */
  function RoundedPercent(o: int, d: int): int
    requires o > 0
  {
    (200 * (o - d) + o) / (2 * o)
  }

  /** The error checks and early returns of `computePricing`, in the source's order. */
  function ComputePricing(o: int, d: Option<int>): (r: PricingResult)
    ensures r.Ok? ==> r.value.originalPrice == o
    ensures r.Ok? ==> (r.value.discountedPrice.None? <==> r.value.discountPercent.None?)
    ensures r.Err? <==> o < 0 || (d.Some? && (d.value < 0 || d.value > o))
    ensures r == Err(OriginalNegative) <==> o < 0
    ensures r == Err(DiscountedNegative) <==> o >= 0 && d.Some? && d.value < 0
    ensures r == Err(DiscountedAboveOriginal) <==> o >= 0 && d.Some? && d.value > o
  {
    if o < 0 then Err(OriginalNegative)
    else if d.None? then Ok(NoDiscount(o))
    else if d.value < 0 then Err(DiscountedNegative)
    else if d.value == o then Ok(NoDiscount(o))
    else if d.value > o then Err(DiscountedAboveOriginal)
    else if o == 0 then Ok(NoDiscount(0))
    else
      var percent := RoundedPercent(o, d.value);
      if percent <= 0 then Ok(NoDiscount(o))
      else Ok(PricingComputed(o, d, Some(percent)))
  }

  // ---------------------------------------------------------------------
  // Properties

  /** An absent discounted price, or one equal to the original, is "no discount", never an error. */
  lemma NoDiscountCases(o: int, d: Option<int>)
    requires o >= 0
    requires d.None? || d.value == o
    ensures ComputePricing(o, d) == Ok(NoDiscount(o))
  {
  }

  /**
   * With a zero original price every discounted price is settled by the
   * checks before the `originalPrice === 0` branch: no discount for an absent
   * or zero one, an error for any other, so that branch never changes a result.
   */
  lemma ZeroOriginalDecided(d: Option<int>)
    ensures d.None? || d == Some(0) ==> ComputePricing(0, d) == Ok(NoDiscount(0))
    ensures d.Some? && d.value < 0 ==> ComputePricing(0, d) == Err(DiscountedNegative)
    ensures d.Some? && d.value > 0 ==> ComputePricing(0, d) == Err(DiscountedAboveOriginal)
  {
  }

  /** Division facts used below: the quotient by a positive divisor is bounded by its products. */
  lemma QuotientBounds(a: int, b: int)
    requires b > 0
    ensures b * (a / b) <= a < b * (a / b) + b
  {
  }

  /** Half-up rounding: `p` is within one half of the exact percentage, ties going up. */
  lemma RoundedPercentIsHalfUp(o: int, d: int)
    requires o > 0
    ensures var p := RoundedPercent(o, d);
      2 * o * p <= 200 * (o - d) + o < 2 * o * p + 2 * o
  {
    QuotientBounds(200 * (o - d) + o, 2 * o);
  }

  /** The rounded percentage is positive exactly when the discount is at least half a percent. */
  lemma RoundedPercentPositive(o: int, d: int)
    requires o > 0
    ensures RoundedPercent(o, d) >= 1 <==> 200 * (o - d) >= o
  {
    var p := RoundedPercent(o, d);
    RoundedPercentIsHalfUp(o, d);
    if p >= 1 {
      assert 2 * o * p >= 2 * o by { MulMonotone(2 * o, 1, p); }
    } else {
      assert 2 * o * p <= 0 by { MulMonotone(2 * o, p, 0); }
    }
  }

  /** A non-negative discounted price gives at most 100 percent. */
  lemma RoundedPercentAtMostHundred(o: int, d: int)
    requires o > 0 && d >= 0
    ensures RoundedPercent(o, d) <= 100
  {
    var p := RoundedPercent(o, d);
    RoundedPercentIsHalfUp(o, d);
    if p >= 101 {
      MulMonotone(2 * o, 101, p);
      assert false;
    }
  }

  lemma MulMonotone(k: int, a: int, b: int)
    requires k >= 0 && a <= b
    ensures k * a <= k * b
  {
  }

  /** A discount is returned exactly when `0 <= d < o` and it amounts to at least half a percent. */
  lemma DiscountReturnedWhen(o: int, d: Option<int>)
    ensures ComputePricing(o, d).Ok? && ComputePricing(o, d).value.discountPercent.Some?
      <==> d.Some? && 0 <= d.value < o && 200 * (o - d.value) >= o
  {
    if d.Some? && 0 <= d.value < o {
      RoundedPercentPositive(o, d.value);
    }
  }

  /** A returned discount carries `d` and the rounded percentage, which lies in 1..100. */
  lemma DiscountReturnedShape(o: int, d: Option<int>)
    requires ComputePricing(o, d).Ok? && ComputePricing(o, d).value.discountPercent.Some?
    ensures d.Some? && 0 <= d.value < o
    ensures ComputePricing(o, d).value.discountedPrice == d
    ensures ComputePricing(o, d).value.discountPercent == Some(RoundedPercent(o, d.value))
    ensures 1 <= RoundedPercent(o, d.value) <= 100
  {
    RoundedPercentAtMostHundred(o, d.value);
  }

  /** Feeding the result's discounted price back in gives the same result. */
  lemma Idempotent(o: int, d: Option<int>)
    requires ComputePricing(o, d).Ok?
    ensures ComputePricing(o, ComputePricing(o, d).value.discountedPrice) == ComputePricing(o, d)
  {
    var r := ComputePricing(o, d).value;
    if r.discountedPrice.Some? {
      DiscountReturnedShape(o, d);
    }
  }

  /** A discount that rounds to 0 percent collapses to no discount. */
  lemma TinyDiscountCollapses()
    ensures ComputePricing(201, Some(200)) == Ok(NoDiscount(201))
  {
  }

  /** The price pairs of the seeded listings give the percentages stored beside them. */
  lemma SeededVectors()
    ensures ComputePricing(800, Some(600)) == Ok(PricingComputed(800, Some(600), Some(25)))
    ensures ComputePricing(1000, Some(600)) == Ok(PricingComputed(1000, Some(600), Some(40)))
    ensures ComputePricing(150, Some(120)) == Ok(PricingComputed(150, Some(120), Some(20)))
  {
  }
}
