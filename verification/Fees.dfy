/** Fee and refund arithmetic at the source's integer widths. The release profile does not check overflow, so
    every product is taken modulo its width and the exact results are derived from what the inputs allow. */
module Fees {
  import opened Common

  type u8 = x: int | 0 <= x < 256
  type u32 = x: int | 0 <= x < TWO_32
  type u64 = x: int | 0 <= x < TWO_64

  function WrapU64(x: int): u64 {
    x % TWO_64
  }

  function WrapI64(x: int): i64 {
    if x % TWO_64 < TWO_63 then x % TWO_64 else x % TWO_64 - TWO_64
  }

  /** Division of machine integers drops the fraction. */
  function TruncDiv(x: int, y: int): int
    requires y > 0
  {
    if x >= 0 then x / y else -((-x) / y)
  }

  function Refundable(nonrefundableCents: u32, totalFeeCents: u32): u32 {
    if nonrefundableCents <= totalFeeCents then totalFeeCents - nonrefundableCents else 0
  }

  function CalculateRefundAmount(paidUnits: u64, nonrefundableCents: u32, totalFeeCents: u32): u64 {
    if totalFeeCents == 0 || paidUnits == 0 then 0
    else
      var product := WrapU64(paidUnits * Refundable(nonrefundableCents, totalFeeCents));
      DivAtMost(product, totalFeeCents);
      product / totalFeeCents
  }

  function Pow10(e: nat): nat {
    if e == 0 then 1 else 10 * Pow10(e - 1)
  }

  function WrappedPow10(e: nat): i64 {
    if e == 0 then 1 else WrapI64(10 * WrappedPow10(e - 1))
  }

  function CentsToTokenUnits(cents: u32, decimals: u8): i64 {
    TruncDiv(WrapI64(cents * WrappedPow10(decimals)), 100)
  }

  // ---------------------------------------------------------------- division

  lemma MulMonotone(a: int, b: int, c: nat)
    requires a <= b
    ensures a * c <= b * c && c * a <= c * b
  {}

  lemma MulCancelLess(a: int, b: int, d: nat)
    requires a * d < b * d
    ensures a < b
  {
    if b <= a {
      MulMonotone(b, a, d);
    }
  }

  /** q is the quotient of x by d exactly when it leaves a remainder below d. */
  lemma QuotientIff(x: nat, d: nat, q: nat)
    requires d >= 1
    ensures q == x / d <==> q * d <= x < q * d + d
    ensures (x / d) * d <= x < (x / d) * d + d
  {
    var r := x / d;
    assert x == r * d + x % d;
    if q * d <= x < q * d + d {
      assert (q + 1) * d == q * d + d && (r + 1) * d == r * d + d;
      MulCancelLess(q, r + 1, d);
      MulCancelLess(r, q + 1, d);
    }
  }

  lemma DivMonotone(x: nat, y: nat, d: nat)
    requires x <= y && d >= 1
    ensures 0 <= x / d <= y / d
  {
    QuotientIff(x, d, 0);
    QuotientIff(y, d, 0);
    assert (y / d + 1) * d == (y / d) * d + d;
    MulCancelLess(x / d, y / d + 1, d);
    if x / d < 0 {
      MulMonotone(x / d, -1, d);
    }
  }

  lemma DivCancels(a: nat, d: nat)
    requires d >= 1
    ensures a * d / d == a
  {
    MulMonotone(0, a, d);
    QuotientIff(a * d, d, a);
  }

  lemma DivAtMost(x: nat, d: nat)
    requires d >= 1
    ensures 0 <= x / d <= x
  {
    MulMonotone(1, d, x);
    DivMonotone(x, x * d, d);
    DivCancels(x, d);
  }

  // ---------------------------------------------------------------- the refund formula

  /** The machine result is the exact quotient, rounded down, precisely when the product fits 64 bits. */
  lemma RefundExactIff(paid: u64, nonref: u32, total: u32)
    requires total > 0
    ensures CalculateRefundAmount(paid, nonref, total) == paid * Refundable(nonref, total) / total
            <==> paid * Refundable(nonref, total) < TWO_64
  {
    MulMonotone(0, paid, Refundable(nonref, total));
    WrapQuotient(paid * Refundable(nonref, total), total);
  }

  lemma QuotientsDiffer(m: nat, p: nat, d: nat)
    requires d >= 1 && m + d <= p
    ensures m / d != p / d
  {
    QuotientIff(m, d, m / d);
    QuotientIff(p, d, p / d);
  }

  lemma WrapDrops(p: nat)
    ensures p < TWO_64 ==> WrapU64(p) == p
    ensures p >= TWO_64 ==> WrapU64(p) + TWO_64 <= p
  {}

  lemma WrapQuotient(p: nat, d: nat)
    requires 1 <= d <= TWO_64
    ensures WrapU64(p) / d == p / d <==> p < TWO_64
  {
    var m := WrapU64(p);
    WrapDrops(p);
    if p >= TWO_64 {
      QuotientsDiffer(m, p, d);
    }
  }

  /** Whatever the inputs, and even when the product wraps, no more than the payment is returned. */
  lemma RefundAtMostPaid(paid: u64, nonref: u32, total: u32)
    ensures CalculateRefundAmount(paid, nonref, total) <= paid
  {
    if total > 0 && paid > 0 {
      var r := Refundable(nonref, total);
      MulMonotone(r, total, paid);
      MulMonotone(0, r, paid);
      WrapAtMost(paid * r);
      DivMonotone(WrapU64(paid * r), paid * total, total);
      DivCancels(paid, total);
    }
  }

  lemma WrapAtMost(x: nat)
    ensures WrapU64(x) <= x
  {
    assert x == (x / TWO_64) * TWO_64 + x % TWO_64;
  }

  /** Rounding favours the platform by less than one unit exactly when the product fits. */
  lemma RefundRoundingIff(paid: u64, nonref: u32, total: u32)
    requires total > 0
    ensures var lost := paid * Refundable(nonref, total) - CalculateRefundAmount(paid, nonref, total) * total;
            0 <= lost < total <==> paid * Refundable(nonref, total) < TWO_64
  {
    MulMonotone(0, paid, Refundable(nonref, total));
    RefundExactIff(paid, nonref, total);
    QuotientIff(paid * Refundable(nonref, total), total, CalculateRefundAmount(paid, nonref, total));
  }

  /** A larger payment never gives a smaller refund, and a larger non-refundable part never a larger one. */
  lemma RefundMonotone(paid1: u64, paid2: u64, nonref1: u32, nonref2: u32, total: u32)
    requires paid1 <= paid2 && nonref1 >= nonref2
    requires paid2 * Refundable(nonref2, total) < TWO_64
    ensures CalculateRefundAmount(paid1, nonref1, total) <= CalculateRefundAmount(paid2, nonref2, total)
  {
    var r1, r2 := Refundable(nonref1, total), Refundable(nonref2, total);
    MulMonotone(paid1, paid2, r1);
    MulMonotone(r1, r2, paid2);
    MulMonotone(0, paid1, r1);
    if total > 0 {
      DivMonotone(paid1 * r1, paid2 * r2, total);
    }
  }

  /** The first multiple of r that does not fit 64 bits. */
  lemma FirstWrap(r: nat) returns (n: nat)
    requires 1 <= r < TWO_32
    ensures n >= 1 && (n - 1) * r < TWO_64 <= n * r
  {
    n := (TWO_64 - 1) / r + 1;
    QuotientIff(TWO_64 - 1, r, n - 1);
    assert n * r == (n - 1) * r + r;
  }

  lemma WrapsOnce(x: nat)
    requires TWO_64 <= x < 2 * TWO_64
    ensures WrapU64(x) == x - TWO_64
  {}

  /** The first payment whose product wraps is refunded nothing, the one before it at least a unit. */
  lemma WrapResets(n: nat, nonref: u32, total: u32)
    requires total > 0 && 1 <= n < TWO_64
    requires (n - 1) * Refundable(nonref, total) < TWO_64 <= n * Refundable(nonref, total)
    ensures CalculateRefundAmount(n, nonref, total) == 0 && CalculateRefundAmount(n - 1, nonref, total) >= 1
  {
    var r := Refundable(nonref, total);
    assert n * r == (n - 1) * r + r;
    WrapsOnce(n * r);
    QuotientIff(n * r - TWO_64, total, 0);
    DivMonotone(total, (n - 1) * r, total);
    DivCancels(1, total);
    assert n - 1 != 0;
  }

  /** Refunds grow with the payment, up to a given payment, exactly when the product of that payment fits. */
  lemma RefundMonotoneIff(paid: u64, nonref: u32, total: u32)
    requires total > 0
    ensures (forall p1: u64, p2: u64 :: p1 <= p2 <= paid ==>
               CalculateRefundAmount(p1, nonref, total) <= CalculateRefundAmount(p2, nonref, total))
            <==> paid * Refundable(nonref, total) < TWO_64
  {
    var r := Refundable(nonref, total);
    if paid * r < TWO_64 {
      forall p1: u64, p2: u64 | p1 <= p2 <= paid
        ensures CalculateRefundAmount(p1, nonref, total) <= CalculateRefundAmount(p2, nonref, total)
      {
        MulMonotone(p2, paid, r);
        RefundMonotone(p1, p2, nonref, nonref, total);
      }
    } else {
      var n := FirstWrap(r);
      if paid < n {
        MulMonotone(paid, n - 1, r);
      }
      WrapResets(n, nonref, total);
      var before: u64 := n - 1;
    }
  }

  /** One more refundable cent that makes the product wrap lowers the refund. */
  lemma WrapLowers(paid: u64, r: nat, total: u32)
    requires total > 0 && paid + total <= TWO_64 && r >= 1
    requires paid * (r - 1) < TWO_64 <= paid * r
    ensures WrapU64(paid * r) / total < WrapU64(paid * (r - 1)) / total
  {
    var high, low := paid * (r - 1), paid * r - TWO_64;
    assert paid * r == high + paid;
    WrapsOnce(paid * r);
    MulMonotone(0, r - 1, paid);
    assert WrapU64(high) == high;
    QuotientLower(low, high, total);
  }

  lemma QuotientLower(low: nat, high: nat, d: nat)
    requires d >= 1 && low + d <= high
    ensures low / d < high / d
  {
    QuotientIff(low, d, low / d);
    assert (low / d + 1) * d == (low / d) * d + d;
    QuotientIff(low + d, d, low / d + 1);
    DivMonotone(low + d, high, d);
  }

  /** Refunds shrink with the non-refundable part, from a given one on, exactly when the product fits. The bound on
      the payment holds for every amount that the signed column can hold. */
  lemma RefundAntitoneIff(paid: u64, nonref: u32, total: u32)
    requires total > 0 && paid + total <= TWO_64
    ensures (forall n1: u32, n2: u32 :: nonref <= n2 <= n1 ==>
               CalculateRefundAmount(paid, n1, total) <= CalculateRefundAmount(paid, n2, total))
            <==> paid * Refundable(nonref, total) < TWO_64
  {
    var r := Refundable(nonref, total);
    if paid * r < TWO_64 {
      forall n1: u32, n2: u32 | nonref <= n2 <= n1
        ensures CalculateRefundAmount(paid, n1, total) <= CalculateRefundAmount(paid, n2, total)
      {
        MulMonotone(Refundable(n2, total), r, paid);
        RefundMonotone(paid, paid, n1, n2, total);
      }
    } else {
      var k := FirstWrapOf(paid, r);
      WrapLowers(paid, k, total);
      var n2: u32, n1: u32 := total - k, total - k + 1;
      assert Refundable(n2, total) == k && Refundable(n1, total) == k - 1;
      CalculatedBy(paid, n1, total);
      CalculatedBy(paid, n2, total);
    }
  }

  lemma CalculatedBy(paid: u64, nonref: u32, total: u32)
    requires total > 0
    ensures CalculateRefundAmount(paid, nonref, total) == WrapU64(paid * Refundable(nonref, total)) / total
  {
    if paid == 0 {
      QuotientIff(0, total, 0);
    }
  }

  lemma FirstWrapOf(paid: u64, r: nat) returns (k: nat)
    requires paid * r >= TWO_64
    ensures 1 <= k <= r && paid * (k - 1) < TWO_64 <= paid * k
    decreases r
  {
    if r > 0 && paid * (r - 1) >= TWO_64 {
      k := FirstWrapOf(paid, r - 1);
    } else {
      k := r;
    }
  }

  /** For instance, a payment 2^32 units larger is refunded nothing. */
  lemma RefundNotMonotoneOnWrap()
    ensures CalculateRefundAmount(0x1_0000_0000, 0, 0x1000_0000) == 0x1_0000_0000
    ensures CalculateRefundAmount(0x10_0000_0000, 0, 0x1000_0000) == 0
  {
    assert 0x10_0000_0000 * 0x1000_0000 == TWO_64;
  }

  // ---------------------------------------------------------------- the fee conversion

  lemma WrapI64Keeps(x: i64)
    ensures WrapI64(x) == x
  {}

  lemma {:induction false} WrappedPow10Exact(e: nat)
    requires e <= 18
    ensures WrappedPow10(e) == Pow10(e)
  {
    if e > 0 {
      WrappedPow10Exact(e - 1);
      Pow10Monotone(e, 18);
      Pow10Values();
      WrapI64Keeps(Pow10(e));
    }
  }

  lemma Pow10Values()
    ensures Pow10(6) == 1_000_000 && Pow10(9) == 1_000_000_000 && Pow10(10) == 10_000_000_000
    ensures Pow10(18) == 1_000_000_000_000_000_000
  {
    assert Pow10(3) == 1000;
    assert Pow10(6) == 1_000_000;
    assert Pow10(9) == 1_000_000_000;
    assert Pow10(12) == 1_000_000_000_000;
    assert Pow10(15) == 1_000_000_000_000_000;
  }

  lemma {:induction false} Pow10Monotone(a: nat, b: nat)
    requires a <= b
    ensures 1 <= Pow10(a) <= Pow10(b)
  {
    if a < b {
      Pow10Monotone(a, b - 1);
    } else if a > 0 {
      Pow10Monotone(a - 1, a - 1);
    }
  }

  ghost predicate FeeExact(cents: u32, decimals: u8) {
    CentsToTokenUnits(cents, decimals) == cents * Pow10(decimals) / 100
  }

  lemma FeeExactUpToNine(cents: u32, decimals: u8)
    requires decimals <= 9
    ensures FeeExact(cents, decimals)
  {
    WrappedPow10Exact(decimals);
    Pow10Monotone(decimals, 9);
    Pow10Values();
    var p := cents * Pow10(decimals);
    assert 0 <= p <= cents * 1_000_000_000 < TWO_63 by {
      MulMonotone(Pow10(decimals), 1_000_000_000, cents);
      MulMonotone(0, Pow10(decimals), cents);
    }
    WrapI64Keeps(p);
  }

  /** The conversion is exact for every fee a u32 can hold exactly up to nine decimals. */
  lemma FeeExactIff(decimals: u8)
    ensures (forall cents: u32 :: FeeExact(cents, decimals)) <==> decimals <= 9
  {
    if decimals <= 9 {
      forall cents: u32 ensures FeeExact(cents, decimals) {
        FeeExactUpToNine(cents, decimals);
      }
    } else {
      var cents: u32 := TWO_32 - 1;
      Pow10Values();
      Pow10Monotone(10, decimals);
      assert cents * Pow10(decimals) >= cents * 10_000_000_000 by {
        MulMonotone(10_000_000_000, Pow10(decimals), cents);
      }
      DivMonotone(cents * 10_000_000_000, cents * Pow10(decimals), 100);
      assert !FeeExact(cents, decimals);
    }
  }

  lemma FeeSixDecimals(cents: u32)
    ensures CentsToTokenUnits(cents, 6) == cents * 10_000
  {
    FeeExactUpToNine(cents, 6);
    Pow10Values();
    DivCancels(cents * 10_000, 100);
  }

  // ---------------------------------------------------------------- the two together

  /** The refund of a payment made at the six-decimal fee is exactly the refundable cents, in units. */
  ghost predicate FullFeeRefundExact(nonref: u32, total: u32) {
    CalculateRefundAmount(WrapU64(CentsToTokenUnits(total, 6)), nonref, total) == Refundable(nonref, total) * 10_000
  }

  lemma FeeQuotient(total: nat, r: nat, paid: nat)
    requires total >= 1 && paid == total * 10_000
    ensures paid * r / total == r * 10_000
  {
    assert paid * r == (r * 10_000) * total;
    DivCancels(r * 10_000, total);
  }

  lemma FullFeeRefundIff(nonref: u32, total: u32)
    requires total > 0
    ensures FullFeeRefundExact(nonref, total) <==> CentsToTokenUnits(total, 6) * Refundable(nonref, total) < TWO_64
  {
    FeeSixDecimals(total);
    var paid := CentsToTokenUnits(total, 6);
    WrapDrops(paid);
    FeeQuotient(total, Refundable(nonref, total), paid);
    RefundExactIff(paid, nonref, total);
  }

  /** 42,949,672 cents is the largest fee whose every refund is computed without wrapping. */
  lemma FullFeeRefundBound(total: u32)
    ensures (forall nonref: u32 :: FullFeeRefundExact(nonref, total)) <==> total <= 42_949_672
  {
    if total == 0 {
      forall nonref: u32 ensures FullFeeRefundExact(nonref, total) {}
    } else if total <= 42_949_672 {
      FeeSixDecimals(total);
      forall nonref: u32 ensures FullFeeRefundExact(nonref, total) {
        var r := Refundable(nonref, total);
        MulMonotone(r, 42_949_672, total * 10_000);
        MulMonotone(total * 10_000, 429_496_720_000, 42_949_672);
        FullFeeRefundIff(nonref, total);
      }
    } else {
      FeeSixDecimals(total);
      MulMonotone(42_949_673, total, total * 10_000);
      MulMonotone(429_496_730_000, total * 10_000, 42_949_673);
      FullFeeRefundIff(0, total);
      assert !FullFeeRefundExact(0, total);
    }
  }
}
