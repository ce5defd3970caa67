/** Rounding to a double: nearest, ties to even, subnormal numbers included. Below 2^53 in size this is
    binary64; from there on the grid stays at whole numbers. */
module Binary64 {

  /** 2^52 and 2^53: a double has 53 significant bits. */
  const HALF: int := 4_503_599_627_370_496
  const FULL: int := 9_007_199_254_740_992

  /** Subnormal numbers are multiples of 2^-1074. */
  const FINEST: nat := 1074

  function Pow2(i: nat): (r: int)
    ensures r >= 1
  {
    if i == 0 then 1 else 2 * Pow2(i - 1)
  }

  /** x counted in steps of 2^-i. */
  function Scale(x: real, i: nat): real { x * Pow2(i) as real }

  function Unscale(n: int, i: nat): real { n as real / Pow2(i) as real }

  function Nearest(x: real): int {
    var f := x.Floor;
    var rest := x - f as real;
    if rest < 0.5 || (rest == 0.5 && f % 2 == 0) then f else f + 1
  }

  /** The finest grid, from 2^-i up, on which x has at most 53 bits. */
  function RoundedFrom(x: real, i: nat): real {
    if i == 0 || Scale(x, i) < FULL as real then Unscale(Nearest(Scale(x, i)), i) else RoundedFrom(x, i - 1)
  }

  function Double(x: real): real { if x < 0.0 then -RoundedFrom(-x, FINEST) else RoundedFrom(x, FINEST) }

  predicate IsDouble(x: real) { Double(x) == x }

  // ----- Scaling

  lemma ScaleStep(x: real, i: nat)
    ensures Scale(x, i + 1) == 2.0 * Scale(x, i)
  {
    assert Pow2(i + 1) as real == 2.0 * Pow2(i) as real;
  }

  lemma UnscaledScales(n: int, i: nat)
    ensures Scale(Unscale(n, i), i) == n as real
  {
    var p := Pow2(i) as real;
    assert n as real / p * p == n as real;
  }

  lemma ScaleInOrder(x: real, y: real, i: nat)
    ensures x <= y <==> Scale(x, i) <= Scale(y, i)
  {
    ProductInOrder(x, y, Pow2(i) as real);
  }

  lemma ProductInOrder(x: real, y: real, p: real)
    requires p > 0.0
    ensures x <= y <==> x * p <= y * p
  {
    if x < y { assert (y - x) * p > 0.0; }
    if y < x { assert (x - y) * p > 0.0; }
  }

  lemma ScaleIsInjective(x: real, y: real, i: nat)
    requires Scale(x, i) == Scale(y, i)
    ensures x == y
  {
    hide Scale;
    ScaleInOrder(x, y, i);
    ScaleInOrder(y, x, i);
  }

  lemma NearestInOrder(x: real, y: real)
    requires x <= y
    ensures Nearest(x) <= Nearest(y)
  {
    assert x.Floor <= y.Floor;
  }

  lemma NearestFixes(n: int)
    ensures Nearest(n as real) == n
  {
  }

  // ----- Rounding is monotone

  lemma {:induction false} AtLeastHalf(x: real, i: nat)
    requires Scale(x, i) >= HALF as real
    ensures Scale(RoundedFrom(x, i), i) >= HALF as real
  {
    hide Scale, Unscale, Nearest;
    if i == 0 || Scale(x, i) < FULL as real {
      NearestInOrder(HALF as real, Scale(x, i));
      NearestFixes(HALF);
      UnscaledScales(Nearest(Scale(x, i)), i);
    } else {
      ScaleStep(x, i - 1);
      AtLeastHalf(x, i - 1);
      ScaleStep(RoundedFrom(x, i - 1), i - 1);
    }
  }

  lemma {:induction false} RoundedInOrder(x: real, y: real, i: nat)
    requires x <= y
    ensures RoundedFrom(x, i) <= RoundedFrom(y, i)
  {
    hide Scale, Unscale, Nearest;
    ScaleInOrder(x, y, i);
    if i == 0 || Scale(y, i) < FULL as real {
      NearestInOrder(Scale(x, i), Scale(y, i));
      UnscaledScales(Nearest(Scale(x, i)), i);
      UnscaledScales(Nearest(Scale(y, i)), i);
      ScaleInOrder(RoundedFrom(x, i), RoundedFrom(y, i), i);
    } else if Scale(x, i) < FULL as real {
      NearestInOrder(Scale(x, i), FULL as real);
      NearestFixes(FULL);
      UnscaledScales(Nearest(Scale(x, i)), i);
      ScaleStep(y, i - 1);
      AtLeastHalf(y, i - 1);
      ScaleStep(RoundedFrom(y, i - 1), i - 1);
      ScaleInOrder(RoundedFrom(x, i), RoundedFrom(y, i), i);
    } else {
      RoundedInOrder(x, y, i - 1);
    }
  }

  // ----- Numbers with few bits are doubles

  /** x is m steps of 2^-j, for some j from i on. */
  lemma {:induction false} RoundedFixes(x: real, i: nat, j: nat, m: nat)
    requires j <= i && Scale(x, j) == m as real && m <= FULL
    ensures RoundedFrom(x, i) == x
  {
    hide Scale, Unscale, Nearest;
    var n := WholeSteps(x, i, j, m);
    NearestFixes(n);
    UnscaledScales(n, i);
    if i == 0 || Scale(x, i) < FULL as real {
      ScaleIsInjective(RoundedFrom(x, i), x, i);
    } else if j < i {
      RoundedFixes(x, i - 1, j, m);
    } else {
      ScaleStep(x, i - 1);
      RoundedFixes(x, i - 1, i - 1, HALF);
    }
  }

  lemma {:induction false} WholeSteps(x: real, i: nat, j: nat, m: nat) returns (n: int)
    requires j <= i && Scale(x, j) == m as real
    ensures Scale(x, i) == n as real
  {
    hide Scale;
    if i == j {
      n := m;
    } else {
      n := WholeSteps(x, i - 1, j, m);
      ScaleStep(x, i - 1);
      n := 2 * n;
    }
  }

  // ----- The value at a given point

  lemma {:induction false} RoundedAt(x: real, i: nat, j: nat)
    requires j <= i && HALF as real <= Scale(x, j) < FULL as real
    ensures RoundedFrom(x, i) == Unscale(Nearest(Scale(x, j)), j)
  {
    hide Scale, Unscale, Nearest;
    if j < i {
      ScaleGrows(x, i, j);
      RoundedAt(x, i - 1, j);
    }
  }

  lemma {:induction false} ScaleGrows(x: real, i: nat, j: nat)
    requires j < i && Scale(x, j) >= HALF as real
    ensures Scale(x, i) >= FULL as real
  {
    hide Scale;
    ScaleStep(x, i - 1);
    if j < i - 1 { ScaleGrows(x, i - 1, j); }
  }

  lemma Powers()
    ensures Pow2(19) == 524_288 && Pow2(20) == 1_048_576 && Pow2(22) == 4_194_304 && Pow2(23) == 8_388_608
    ensures Pow2(25) == 33_554_432 && Pow2(27) == 134_217_728
    ensures Pow2(52) == HALF && Pow2(53) == FULL && Pow2(55) == 4 * FULL
  {
    assert Pow2(0) == 1;
    hide Pow2;
    FiveMore(0);
    FiveMore(5);
    FiveMore(10);
    FiveMore(15);
    FiveMore(20);
    FiveMore(25);
    FiveMore(30);
    FiveMore(35);
    FiveMore(40);
    FiveMore(45);
    FiveMore(50);
  }

  lemma FiveMore(i: nat)
    ensures Pow2(i + 5) == 32 * Pow2(i) && Pow2(i + 4) == 16 * Pow2(i) && Pow2(i + 3) == 8 * Pow2(i)
    ensures Pow2(i + 2) == 4 * Pow2(i)
  {
    assert Pow2(i + 1) == 2 * Pow2(i) && Pow2(i + 2) == 2 * Pow2(i + 1) && Pow2(i + 3) == 2 * Pow2(i + 2);
    assert Pow2(i + 4) == 2 * Pow2(i + 3) && Pow2(i + 5) == 2 * Pow2(i + 4);
  }

  /** The value at a point of the binade with step 1/k. */
  lemma DoubleAt(x: real, j: nat, k: int, m: int)
    requires x >= 0.0 && j <= FINEST && Pow2(j) == k
    requires HALF as real <= x * k as real < FULL as real && Nearest(x * k as real) == m
    ensures Double(x) == m as real / k as real
  {
    hide RoundedFrom, Nearest, Pow2, Scale, Unscale;
    ScaleIs(x, m, j, k);
    RoundedAt(x, FINEST, j);
  }

  lemma ScaleIs(x: real, m: int, j: nat, k: int)
    requires Pow2(j) == k
    ensures Scale(x, j) == x * k as real && Unscale(m, j) == m as real / k as real
  {
    hide Pow2;
  }

  /** m steps of 1/k. */
  lemma DoubleFixes(x: real, j: nat, k: int, m: nat)
    requires j <= FINEST && Pow2(j) == k && x * k as real == m as real && m <= FULL && x >= 0.0
    ensures Double(x) == x && Double(-x) == -x
  {
    hide RoundedFrom, Pow2;
    RoundedFixes(x, FINEST, j, m);
    if x == 0.0 { assert -x == x; }
  }

  lemma DoubleInOrder(x: real, y: real)
    requires x <= y
    ensures Double(x) <= Double(y)
  {
    hide RoundedFrom;
    if y < 0.0 {
      RoundedInOrder(-y, -x, FINEST);
    } else if x < 0.0 {
      RoundedInOrder(0.0, -x, FINEST);
      RoundedInOrder(0.0, y, FINEST);
      RoundedFixes(0.0, FINEST, 0, 0);
    } else {
      RoundedInOrder(x, y, FINEST);
    }
  }

  lemma WholeIsDouble(n: int)
    requires -FULL <= n <= FULL
    ensures Double(n as real) == n as real
  {
    hide Double;
    if n >= 0 { DoubleFixes(n as real, 0, 1, n); } else { DoubleFixes((-n) as real, 0, 1, -n); }
  }

  /** Between a half and 1 the doubles are the multiples of 2^-53. */
  lemma DoublesBelowOne(x: real) returns (m: int)
    requires IsDouble(x) && 0.5 <= x < 1.0
    ensures x * FULL as real == m as real
  {
    Powers();
    hide Nearest, RoundedFrom, Pow2;
    DoubleAt(x, 53, FULL, Nearest(x * FULL as real));
    m := Nearest(x * FULL as real);
  }
}
