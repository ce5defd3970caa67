/** The retry schedule, in ticks of 100 nanoseconds. The band holds for every rounding with a few
    properties of doubles; when its upper end is reached is decided for doubles themselves. */
module Backoff {
  import opened Common
  import opened Binary64

  const SECOND: int := 10_000_000
  const MAX_ATTEMPTS: nat := 8
  const CAP: int := 900 * SECOND

  function Schedule(): seq<int> { [5 * SECOND, 15 * SECOND, 45 * SECOND, 120 * SECOND, 360 * SECOND] }

  function BaseDelay(attempt: int): int
    requires attempt >= 1
  {
    var base := if attempt <= |Schedule()| then Schedule()[attempt - 1] else CAP;
    if base > CAP then CAP else base
  }

  datatype Jitter = NaN | Infinite(positive: bool) | Finite(value: real)

  /** The guard throws on anything below 0 or from 1 on; a NaN is neither. */
  predicate Accepted(j: Jitter) {
    match j
    case NaN => true
    case Infinite(_) => false
    case Finite(v) => 0.0 <= v < 1.0
  }

  type Rounding = real -> real

  function Times(x: real, y: real): real { x * y }

  /** Every operation rounds its result. */
  function Multiplier(round: Rounding, jitter: real): real {
    round(1.0 + round(Times(round(round(jitter - 0.5) * 2.0), round(0.20))))
  }

  predicate InOrder(round: Rounding, x: real, y: real) { x <= y ==> round(x) <= round(y) }

  predicate Fixes(round: Rounding, n: int) { round(n as real) == n as real }

  /** What the band needs of the rounding: it is monotone, exact on integers up to 2^53, and at the two
      ends of the jitter range the multiplier does not leave [0.8, 1.2]. */
  ghost predicate Rounds(round: Rounding) {
    && (forall x: real, y: real :: InOrder(round, x, y)) && (forall n: int | -FULL <= n <= FULL :: Fixes(round, n))
    && 0.8 <= Multiplier(round, 0.0) && Multiplier(round, 1.0) <= 1.2
  }

  /** None when the call throws. Converting a NaN to a tick count gives 0. */
  function DelayFor(round: Rounding, attempt: int, jitter: Jitter): Option<int> {
    if attempt < 1 || !Accepted(jitter) then None
    else match jitter
      case Finite(v) => Some(round(Times(BaseDelay(attempt) as real, Multiplier(round, v))).Floor)
      case _ => Some(0)
  }

  predicate IsExhausted(failures: nat) { failures >= MAX_ATTEMPTS }

  /** The shortest and the longest jittered delay of an attempt. */
  function Shortest(attempt: int): int
    requires attempt >= 1
  {
    BaseDelay(attempt) / 5 * 4
  }

  function Longest(attempt: int): int
    requires attempt >= 1
  {
    BaseDelay(attempt) / 5 * 6
  }

  lemma Product(a: real, x: real, y: real)
    requires a >= 0.0 && x <= y
    ensures Times(x, a) <= Times(y, a) && Times(a, x) <= Times(a, y)
  {
  }

  lemma MultiplierIsMonotone(round: Rounding, x: real, y: real)
    requires Rounds(round) && x <= y
    ensures Multiplier(round, x) <= Multiplier(round, y)
  {
    assert Fixes(round, 0) && InOrder(round, 0.0, 0.20);
    var a, b := round(x - 0.5), round(y - 0.5);
    assert InOrder(round, x - 0.5, y - 0.5);
    assert InOrder(round, a * 2.0, b * 2.0);
    var f, c, d := round(0.20), round(a * 2.0), round(b * 2.0);
    Product(f, c, d);
    hide Times;
    assert InOrder(round, Times(c, f), Times(d, f));
    assert InOrder(round, 1.0 + round(Times(c, f)), 1.0 + round(Times(d, f)));
  }

  lemma BaseIsFifths(attempt: int)
    requires attempt >= 1
    ensures BaseDelay(attempt) == BaseDelay(attempt) / 5 * 5 && 5 * SECOND <= BaseDelay(attempt) <= CAP
  {
  }

  /** A fifth times five times a multiplier from the band. */
  lemma Scaled(fifth: int, multiplier: real)
    requires fifth > 0 && 0.8 <= multiplier <= 1.2
    ensures (fifth * 4) as real <= Times((fifth * 5) as real, multiplier) <= (fifth * 6) as real
  {
    Fifths((fifth * 5) as real);
    hide Times;
    Product((fifth * 5) as real, 0.8, multiplier);
    Product((fifth * 5) as real, multiplier, 1.2);
  }

  lemma Fifths(a: real)
    ensures Times(a, 0.8) * 5.0 == a * 4.0 && Times(a, 1.2) * 5.0 == a * 6.0
  {
  }

  /** Every jittered delay is within a fifth of its base, both ends included. */
  lemma DelayBand(round: Rounding, attempt: int, jitter: Jitter)
    requires attempt >= 1 && Rounds(round) && Accepted(jitter) && jitter.Finite?
    ensures DelayFor(round, attempt, jitter).Some?
    ensures Shortest(attempt) <= DelayFor(round, attempt, jitter).value <= Longest(attempt)
    ensures 4 * SECOND <= DelayFor(round, attempt, jitter).value <= 1080 * SECOND
  {
    hide Multiplier, BaseDelay, Times;
    BaseIsFifths(attempt);
    var fifth, m := BaseDelay(attempt) / 5, Multiplier(round, jitter.value);
    MultiplierInBand(round, jitter.value);
    Scaled(fifth, m);
    hide Rounds;
    RoundedWithin(round, fifth * 4, Times(BaseDelay(attempt) as real, m), fifth * 6);
  }

  lemma MultiplierInBand(round: Rounding, jitter: real)
    requires Rounds(round) && 0.0 <= jitter < 1.0
    ensures 0.8 <= Multiplier(round, jitter) <= 1.2
  {
    hide Multiplier;
    MultiplierIsMonotone(round, 0.0, jitter);
    MultiplierIsMonotone(round, jitter, 1.0);
  }

  lemma RoundedWithin(round: Rounding, low: int, x: real, high: int)
    requires Rounds(round) && low as real <= x <= high as real && 0 <= low && high <= FULL
    ensures low <= round(x).Floor <= high
  {
    hide Multiplier;
    assert Fixes(round, low) && Fixes(round, high);
    assert InOrder(round, low as real, x) && InOrder(round, x, high as real);
  }

  /** Among the jitters the guard accepts, exactly a NaN falls out of the band: it does not wait at all. */
  lemma BandIff(round: Rounding, attempt: int, jitter: Jitter)
    requires attempt >= 1 && Rounds(round) && Accepted(jitter)
    ensures DelayFor(round, attempt, jitter).Some?
    ensures Shortest(attempt) <= DelayFor(round, attempt, jitter).value <= Longest(attempt) <==> !jitter.NaN?
  {
    BaseIsFifths(attempt);
    if jitter.Finite? { DelayBand(round, attempt, jitter); }
  }

  // ----- Doubles

  /** The doubles nearest to 0.2, 0.8 and 1.2, and the one below the last. */
  const FIFTH: real := 7_205_759_403_792_794.0 / 36_028_797_018_963_968.0
  const LOW: real := 7_205_759_403_792_794.0 / 9_007_199_254_740_992.0
  const TOP: real := 5_404_319_552_844_595.0 / 4_503_599_627_370_496.0
  const BELOW_TOP: real := 5_404_319_552_844_594.0 / 4_503_599_627_370_496.0

  /** 1 - a * 2^-53: for small a > 0 the a-th largest double below 1. */
  function FromOne(a: nat): real { 1.0 - a as real / FULL as real }

  lemma FifthIsDouble()
    ensures Double(0.20) == FIFTH && Double(FIFTH) == FIFTH && Double(-FIFTH) == -FIFTH
  {
    hide Double, Pow2;
    Powers();
    DoubleAt(0.20, 55, 4 * FULL, 7_205_759_403_792_794);
    DoubleFixes(FIFTH, 55, 4 * FULL, 7_205_759_403_792_794);
  }

  /** Halving the distance to 1 and doubling it again is exact. */
  lemma FromOneIsExact(a: nat)
    requires a <= 4
    ensures Double(FromOne(a) - 0.5) == FromOne(a) - 0.5
    ensures Double((FromOne(a) - 0.5) * 2.0) == FromOne(2 * a)
  {
    hide Double, Pow2;
    Powers();
    DoubleFixes(FromOne(a) - 0.5, 53, FULL, HALF - a);
    DoubleFixes(FromOne(2 * a), 53, FULL, FULL - 2 * a);
    assert (FromOne(a) - 0.5) * 2.0 == FromOne(2 * a);
  }

  /** The spread p of a jitter FromOne(a), and the multiplier m it leads to. */
  lemma MultiplierFrom(a: nat, p: int, m: int)
    requires a <= 4 && Nearest(Times(FromOne(2 * a), FIFTH) * (4 * FULL) as real) == p
    requires HALF as real <= Times(FromOne(2 * a), FIFTH) * (4 * FULL) as real < FULL as real
    requires Nearest((1.0 + p as real / (4 * FULL) as real) * HALF as real) == m
    requires HALF as real <= (1.0 + p as real / (4 * FULL) as real) * HALF as real < FULL as real
    requires Times(FromOne(2 * a), FIFTH) >= 0.0 && p >= 0
    ensures Multiplier(Double, FromOne(a)) == m as real / HALF as real
  {
    hide Double, Pow2, Nearest, Times, FromOne;
    Powers();
    FifthIsDouble();
    FromOneIsExact(a);
    DoubleAt(Times(FromOne(2 * a), FIFTH), 55, 4 * FULL, p);
    DoubleAt(1.0 + p as real / (4 * FULL) as real, 52, HALF, m);
  }

  /** The multiplier steps from the double below 1.2 to 1.2 between the fourth and the third largest
      jitter. */
  lemma TopMultipliers()
    ensures Multiplier(Double, FromOne(0)) == Multiplier(Double, FromOne(3)) == TOP
    ensures Multiplier(Double, FromOne(4)) == BELOW_TOP
  {
    hide Multiplier, Double;
    MultiplierFrom(0, 7_205_759_403_792_794, 5_404_319_552_844_595);
    MultiplierFrom(3, 7_205_759_403_792_789, 5_404_319_552_844_595);
    MultiplierFrom(4, 7_205_759_403_792_788, 5_404_319_552_844_594);
  }

  lemma LowMultiplier()
    ensures Multiplier(Double, 0.0) == LOW
  {
    hide Double, Pow2;
    Powers();
    FifthIsDouble();
    DoubleFixes(0.5, 52, HALF, HALF / 2);
    WholeIsDouble(-1);
    assert Times(-1.0, FIFTH) == -FIFTH;
    DoubleAt(1.0 - FIFTH, 53, FULL, 7_205_759_403_792_794);
  }

  lemma DoubleRounds()
    ensures Rounds(Double)
  {
    TopMultipliers();
    LowMultiplier();
    hide Multiplier, Double;
    forall x: real, y: real ensures InOrder(Double, x, y) {
      if x <= y { DoubleInOrder(x, y); }
    }
    forall n: int | -FULL <= n <= FULL ensures Fixes(Double, n) {
      WholeIsDouble(n);
    }
  }

  // ----- When the upper end is reached

  /** The whole ticks of a product, where the steps are 1/k. */
  lemma DelayAt(x: real, j: nat, k: int, m: int, delay: int)
    requires x >= 0.0 && j <= FINEST && Pow2(j) == k && HALF as real <= x * k as real < FULL as real
    requires Nearest(x * k as real) == m && (m as real / k as real).Floor == delay
    ensures Double(x).Floor == delay
  {
    hide Double, Pow2, Nearest;
    DoubleAt(x, j, k, m);
  }

  /** 1.2 gives six fifths of every base. */
  lemma TopDelay(attempt: int)
    requires attempt >= 1
    ensures Double(Times(BaseDelay(attempt) as real, TOP)).Floor == Longest(attempt)
  {
    hide Double, Pow2;
    Powers();
    DelayAt(50_000_000.0 * TOP, 27, 134_217_728, 8_053_063_680_000_000, 60_000_000);
    DelayAt(150_000_000.0 * TOP, 25, 33_554_432, 6_039_797_760_000_000, 180_000_000);
    DelayAt(450_000_000.0 * TOP, 23, 8_388_608, 4_529_848_320_000_000, 540_000_000);
    DelayAt(1_200_000_000.0 * TOP, 22, 4_194_304, 6_039_797_760_000_000, 1_440_000_000);
    DelayAt(3_600_000_000.0 * TOP, 20, 1_048_576, 4_529_848_320_000_000, 4_320_000_000);
    DelayAt(9_000_000_000.0 * TOP, 19, 524_288, 5_662_310_400_000_000, 10_800_000_000);
  }

  /** The double below 1.2 gives one tick less. */
  lemma BelowTopDelay(attempt: int)
    requires attempt >= 1
    ensures Double(Times(BaseDelay(attempt) as real, BELOW_TOP)).Floor == Longest(attempt) - 1
  {
    hide Double, Pow2;
    Powers();
    DelayAt(50_000_000.0 * BELOW_TOP, 27, 134_217_728, 8_053_063_679_999_998, 59_999_999);
    DelayAt(150_000_000.0 * BELOW_TOP, 25, 33_554_432, 6_039_797_759_999_999, 179_999_999);
    DelayAt(450_000_000.0 * BELOW_TOP, 23, 8_388_608, 4_529_848_319_999_999, 539_999_999);
    DelayAt(1_200_000_000.0 * BELOW_TOP, 22, 4_194_304, 6_039_797_759_999_999, 1_439_999_999);
    DelayAt(3_600_000_000.0 * BELOW_TOP, 20, 1_048_576, 4_529_848_319_999_999, 4_319_999_999);
    DelayAt(9_000_000_000.0 * BELOW_TOP, 19, 524_288, 5_662_310_399_999_999, 10_799_999_999);
  }

  lemma DelayInOrder(round: Rounding, attempt: int, v: real, w: real)
    requires attempt >= 1 && Rounds(round) && 0.0 <= v <= w < 1.0
    ensures DelayFor(round, attempt, Finite(v)).Some? && DelayFor(round, attempt, Finite(w)).Some?
    ensures DelayFor(round, attempt, Finite(v)).value <= DelayFor(round, attempt, Finite(w)).value
  {
    hide Multiplier, Times, BaseDelay;
    BaseIsFifths(attempt);
    MultiplierIsMonotone(round, v, w);
    var base, m, n := BaseDelay(attempt) as real, Multiplier(round, v), Multiplier(round, w);
    Product(base, m, n);
    assert InOrder(round, Times(base, m), Times(base, n));
    FloorInOrder(round(Times(base, m)), round(Times(base, n)));
  }

  lemma FloorInOrder(x: real, y: real)
    requires x <= y
    ensures x.Floor <= y.Floor
  {
  }

  lemma DelaysNearOne(attempt: int)
    requires attempt >= 1
    ensures DelayFor(Double, attempt, Finite(FromOne(3))) == Some(Longest(attempt))
    ensures DelayFor(Double, attempt, Finite(FromOne(4))) == Some(Longest(attempt) - 1)
  {
    hide Multiplier, Double, Times, BaseDelay;
    TopMultipliers();
    TopDelay(attempt);
    BelowTopDelay(attempt);
  }

  /** The third largest double below 1 is the next one after 1 - 2^-51. */
  lemma NextJitter(v: real)
    requires IsDouble(v) && FromOne(4) < v < 1.0
    ensures FromOne(3) <= v
  {
    hide Double;
    var m := DoublesBelowOne(v);
    assert m > FULL - 4;
  }

  /** With doubles the delay stays below six fifths of its base, as documented, exactly for the jitters up
      to 1 - 2^-51: the three larger doubles below 1 reach it, at every attempt. */
  lemma HalfOpenIff(attempt: int, v: real)
    requires attempt >= 1 && IsDouble(v) && 0.0 <= v < 1.0
    ensures DelayFor(Double, attempt, Finite(v)).Some?
    ensures DelayFor(Double, attempt, Finite(v)).value < Longest(attempt) <==> v <= FromOne(4)
  {
    hide Multiplier, Double, BaseDelay, DelayFor, Rounds;
    DoubleRounds();
    DelaysNearOne(attempt);
    if v <= FromOne(4) {
      DelayInOrder(Double, attempt, v, FromOne(4));
    } else {
      NextJitter(v);
      DelayInOrder(Double, attempt, FromOne(3), v);
    }
  }

  /** The largest double below 1 waits the full six fifths, 18 minutes at the cap. */
  lemma LongestIsReached(attempt: int)
    requires attempt >= 1
    ensures IsDouble(FromOne(1)) && Accepted(Finite(FromOne(1)))
    ensures DelayFor(Double, attempt, Finite(FromOne(1))) == Some(Longest(attempt))
  {
    hide Multiplier, Double, BaseDelay, DelayFor, Rounds, Pow2;
    Powers();
    DoubleFixes(FromOne(1), 53, FULL, FULL - 1);
    DoubleRounds();
    HalfOpenIff(attempt, FromOne(1));
    DelayBand(Double, attempt, Finite(FromOne(1)));
  }

  /** The bands of the first six attempts are disjoint and increase, so a later retry
      always waits longer, whatever the two jitters. */
  lemma LaterWaitsLonger(round: Rounding, a: int, b: int, j: Jitter, k: Jitter)
    requires 1 <= a < b <= 6 && Rounds(round) && Accepted(j) && Accepted(k) && j.Finite? && k.Finite?
    ensures DelayFor(round, a, j).Some? && DelayFor(round, b, k).Some?
    ensures DelayFor(round, a, j).value < DelayFor(round, b, k).value
  {
    hide DelayFor, Rounds;
    DelayBand(round, a, j);
    DelayBand(round, b, k);
    assert Longest(a) < Shortest(b);
  }

  /** Least total wait over the first n attempts. */
  function LeastWait(n: nat): int { if n == 0 then 0 else LeastWait(n - 1) + Shortest(n) }

  lemma {:induction false} LeastWaitOfSeven()
    ensures LeastWait(7) == 1876 * SECOND
  {
    assert LeastWait(1) == 4 * SECOND;
    assert LeastWait(2) == 16 * SECOND;
    assert LeastWait(3) == 52 * SECOND;
    assert LeastWait(4) == 148 * SECOND;
    assert LeastWait(5) == 436 * SECOND;
    assert LeastWait(6) == 1156 * SECOND;
  }
}
