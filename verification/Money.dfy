/** Rounding of money: integer cents, half-up, rates in basis points. */
module Money {
  import opened Common

  const BPS := 10000
  const IVA_RATE_BPS := 1400

  /** Nearest integer to `num / den`; a tie goes away from zero (decimal ROUND_HALF_UP). */
  function RoundHalfUp(num: int, den: int): int
    requires den > 0
  {
    if num >= 0 then (2 * num + den) / (2 * den) else -((-2 * num + den) / (2 * den))
  }

  /** Nearest integer to `num / den`; a tie goes to the even neighbour (the default decimal rounding). */
  function RoundHalfEven(num: int, den: int): int
    requires den > 0
  {
    var q, r := num / den, num % den;
    if 2 * r < den then q
    else if 2 * r > den then q + 1
    else if q % 2 == 0 then q else q + 1
  }

  lemma RoundHalfEvenIsNearest(num: int, den: int, c: int)
    requires den > 0
    ensures c == RoundHalfEven(num, den) <==>
            && -den <= 2 * (num - c * den) <= den
            && (2 * (num - c * den) in {den, -den} ==> c % 2 == 0)
  {
    var q, r := num / den, num % den;
    assert num - c * den == r - (c - q) * den;
    NearestByRemainder(q, r, den, c - q);
  }

  lemma NearestByRemainder(q: int, r: nat, den: int, d: int)
    requires r < den
    ensures d == (if 2 * r < den || (2 * r == den && q % 2 == 0) then 0 else 1) <==>
            && -den <= 2 * (r - d * den) <= den
            && (2 * (r - d * den) in {den, -den} ==> (q + d) % 2 == 0)
  {
    if d >= 2 {
      assert d * den >= 2 * den;
    } else if d <= -1 {
      assert d * den <= -den;
    }
  }

  function Commission(gross: int, rate: int): int {
    RoundHalfUp(gross * rate, BPS)
  }

  /** Rounding is characterised by its distance to the exact value, with ties going up. */
  lemma CommissionIsNearest(gross: nat, rate: nat, c: int)
    ensures c == Commission(gross, rate) <==>
            2 * BPS * c - BPS <= 2 * (gross * rate) < 2 * BPS * c + BPS
  {
    assert gross * rate >= 0;
  }

  /** Refunds and reversals mirror charges: the rounding is odd. */
  lemma RoundingIsOdd(num: int, den: int)
    requires den > 0
    ensures RoundHalfUp(-num, den) == -RoundHalfUp(num, den)
  {
  }

  lemma CommissionBounds(gross: nat, rate: nat)
    requires rate <= BPS
    ensures 0 <= Commission(gross, rate) <= gross
  {
    assert gross * rate <= gross * BPS;
    CommissionIsNearest(gross, rate, Commission(gross, rate));
  }

  lemma CommissionMonotone(g: nat, g': nat, rate: nat, rate': nat)
    requires g <= g' && rate <= rate'
    ensures Commission(g, rate) <= Commission(g', rate')
  {
    assert g * rate <= g' * rate <= g' * rate';
    CommissionIsNearest(g, rate, Commission(g, rate));
    CommissionIsNearest(g', rate', Commission(g', rate'));
  }

  function TotalCommission(parts: seq<nat>, rate: nat): int {
    if parts == [] then 0 else TotalCommission(parts[..|parts| - 1], rate) + Commission(parts[|parts| - 1], rate)
  }

  function Total(parts: seq<nat>): nat {
    if parts == [] then 0 else Total(parts[..|parts| - 1]) + parts[|parts| - 1]
  }

  lemma Distribute(a: nat, b: nat, rate: nat)
    ensures (a + b) * rate == a * rate + b * rate
  {
  }

  /** The accumulated rounding error of n commissions stays within n half-cents. */
  lemma {:induction false} AccumulatedError(parts: seq<nat>, rate: nat)
    ensures 2 * BPS * TotalCommission(parts, rate) <= 2 * (Total(parts) * rate) + BPS * |parts|
    ensures 2 * BPS * TotalCommission(parts, rate) >= 2 * (Total(parts) * rate) - BPS * |parts|
    ensures parts != [] ==> 2 * BPS * TotalCommission(parts, rate) > 2 * (Total(parts) * rate) - BPS * |parts|
  {
    if parts != [] {
      var init, last := parts[..|parts| - 1], parts[|parts| - 1];
      AccumulatedError(init, rate);
      CommissionIsNearest(last, rate, Commission(last, rate));
      Distribute(Total(init), last, rate);
    }
  }

  /** Splitting an amount into n parts moves the total commission by at most n/2 cents. */
  lemma SplittingError(parts: seq<nat>, rate: nat)
    ensures -|parts| <= 2 * (TotalCommission(parts, rate) - Commission(Total(parts), rate)) <= |parts|
  {
    AccumulatedError(parts, rate);
    CommissionIsNearest(Total(parts), rate, Commission(Total(parts), rate));
  }

  /** The bound is attained: n one-cent sales at 50% charge n cents, one sale of n charges half. */
  lemma {:induction false} SplittingErrorIsTight(parts: seq<nat>)
    requires forall i :: 0 <= i < |parts| ==> parts[i] == 1
    ensures TotalCommission(parts, 5000) == |parts| == Total(parts)
    ensures |parts| % 2 == 0 ==> 2 * (TotalCommission(parts, 5000) - Commission(Total(parts), 5000)) == |parts|
  {
    if parts != [] {
      SplittingErrorIsTight(parts[..|parts| - 1]);
    }
  }
}
