/** What the smoother of servo.c does over whole sequences of samples. */
module FilterRuns {
  import opened Words
  import opened Filter

  predicate Samples(xs: seq<int>) { forall i | 0 <= i < |xs| :: Sample(xs[i]) }

  /** The state after a sequence of samples, in exact integers. */
  function Run(f: State, xs: seq<int>): (r: State)
    requires Coherent(f) && Samples(xs)
    ensures Coherent(r) && r.s == f.s && (xs != [] ==> r.n > 0)
  {
    if xs == [] then f else Step(Run(f, xs[..|xs| - 1]), xs[|xs| - 1])
  }

  /** The state after a sequence of samples, in 32-bit words. */
  function StoredRun(f: State, xs: seq<int>): (r: State)
    requires InWords(f) && Samples(xs)
    ensures InWords(r)
  {
    if xs == [] then f else
      var was := StoredRun(f, xs[..|xs| - 1]);
      StoredStepExactness(was, xs[|xs| - 1]);
      StoredStep(was, xs[|xs| - 1])
  }

  /** No step of the run overflows anywhere. */
  predicate SafeRun(f: State, xs: seq<int>)
    requires Coherent(f) && Samples(xs)
  {
    xs == [] || (SafeRun(f, xs[..|xs| - 1]) && NoOverflow(Run(f, xs[..|xs| - 1]), xs[|xs| - 1]))
  }

  /** Where nothing overflows, the words compute the exact run. */
  lemma {:induction false} StoredRunIsExact(f: State, xs: seq<int>)
    requires InWords(f) && Samples(xs) && SafeRun(f, xs)
    ensures StoredRun(f, xs) == Run(f, xs)
  {
    if xs != [] {
      StoredRunIsExact(f, xs[..|xs| - 1]);
      StoredStepExactness(Run(f, xs[..|xs| - 1]), xs[|xs| - 1]);
    }
  }

  // ----- The sample count and the hull of the samples -----

  lemma {:induction false} CountOfRun(f: State, xs: seq<int>)
    requires Coherent(f) && f.n == 0 && Samples(xs)
    ensures Run(f, xs).n == Min(|xs|, Pow2(f.s))
  {
    if xs != [] {
      CountOfRun(f, xs[..|xs| - 1]);
    }
  }

  predicate Within(xs: seq<int>, lo: int, hi: int) { forall i | 0 <= i < |xs| :: lo <= xs[i] <= hi }

  /** Every output lies in the hull of the samples so far. */
  lemma {:induction false} OutputInHull(f: State, xs: seq<int>, lo: int, hi: int)
    requires Coherent(f) && f.n == 0 && Samples(xs) && Within(xs, lo, hi) && xs != []
    ensures lo <= Run(f, xs).yPrev <= hi
  {
    if |xs| > 1 {
      OutputInHull(f, xs[..|xs| - 1], lo, hi);
    }
  }

  // ----- Tracking the rational filter -----

  /** One part in 2^k. */
  ghost function Part(k: nat): (a: real)
    ensures 0.0 < a <= 1.0
  {
    if k == 0 then 1.0 else Part(k - 1) / 2.0
  }

  // Products of reals go through `Times`, so that proofs can hide them.
  ghost function Times(a: real, b: real): real { a * b }

  /** The value a sum stands for at an order. */
  ghost function Level(sum: int, k: nat): real { Times(sum as real, Part(k)) }

  /** Y moved towards `x` by the part `a` of their difference. */
  ghost function Blend(y: real, x: real, a: real): real { y + Times(x - y, a) }

  /** The rational recurrence Y := Y + (x - Y) / 2^o, run with the orders the smoother chooses. */
  ghost function Rational(f: State, xs: seq<int>): real
    requires Coherent(f) && f.n == 0 && Samples(xs) && xs != []
  {
    var front, x := xs[..|xs| - 1], xs[|xs| - 1];
    if front == [] then x as real else Blend(Rational(f, front), x as real, Part(NextOrder(Run(f, front), x)))
  }

  /** The sum of `f` stands for a value less than one unit from `y`. */
  ghost predicate Tracks(f: State, y: real) { -1.0 < Level(f.ySum, f.sPrev) - y < 1.0 }

  /** The sum never drifts a whole unit from the rational filter, whatever the orders and the dropped bits. */
  lemma {:induction false} RunTracksRational(f: State, xs: seq<int>)
    requires Coherent(f) && f.n == 0 && Samples(xs) && xs != []
    ensures Tracks(Run(f, xs), Rational(f, xs))
  {
    var front, x := xs[..|xs| - 1], xs[|xs| - 1];
    if front == [] {
      FirstSumIsSample(f, x);
    } else {
      RunTracksRational(f, front);
      StepKeepsGap(Run(f, front), x, Rational(f, front));
    }
  }

  lemma {:induction false} PartOfPow2(k: nat)
    ensures Times(Pow2(k) as real, Part(k)) == 1.0
  {
    if k > 0 {
      PartOfPow2(k - 1);
      DoubleAndHalf(Pow2(k - 1) as real, Part(k - 1));
    }
  }

  lemma DoubleAndHalf(a: real, b: real)
    ensures Times(2.0 * a, b / 2.0) == Times(a, b)
  {
  }

  lemma {:induction false} PartOfSum(a: nat, b: nat)
    ensures Part(a + b) == Times(Part(a), Part(b))
  {
    if b > 0 {
      PartOfSum(a, b - 1);
      HalfOfProduct(Part(a), Part(b - 1));
    }
  }

  lemma HalfOfProduct(a: real, b: real)
    ensures Times(a, b) / 2.0 == Times(a, b / 2.0)
  {
  }

  lemma TimesAssociates(a: real, b: real, c: real)
    ensures Times(a, Times(b, c)) == Times(Times(a, b), c) == Times(Times(a, c), b)
  {
  }

  lemma TimesDistributes(a: real, b: real, c: real)
    ensures Times(a + b, c) == Times(a, c) + Times(b, c)
    ensures Times(a - b, c) == Times(a, c) - Times(b, c)
  {
  }

  lemma TimesMonotone(a: real, b: real, c: real)
    requires a <= b && c >= 0.0
    ensures Times(a, c) <= Times(b, c)
  {
  }

  /** A proper part of `a`. */
  lemma TimesPart(d: real, a: real)
    requires 0.0 <= d < 1.0 && a > 0.0
    ensures 0.0 <= Times(d, a) < a
  {
  }

  lemma ProductOfInts(a: int, b: int)
    ensures (a * b) as real == Times(a as real, b as real)
  {
  }

  lemma LevelOfMultiple(q: int, k: nat)
    ensures Level(q * Pow2(k), k) == q as real
  {
    LevelOfScaled(q, 0, k);
    assert Level(q, 0) == Times(q as real, 1.0);
  }

  lemma LevelOfScaled(sum: int, from: nat, k: nat)
    ensures Level(sum * Pow2(k), from + k) == Level(sum, from)
  {
    PartOfSum(from, k);
    PartOfPow2(k);
    ProductOfInts(sum, Pow2(k));
    var s, p, a, b := sum as real, Pow2(k) as real, Part(from), Part(k);
    TimesAssociates(Times(s, p), a, b);
    TimesAssociates(s, p, b);
    TimesAssociates(Times(s, p), b, a);
    assert Times(s, 1.0) == s;
    hide Times, Part;
  }

  lemma LevelOfSum(a: int, b: int, k: nat)
    ensures Level(a + b, k) == Level(a, k) + Times(b as real, Part(k))
  {
    TimesDistributes(a as real, b as real, Part(k));
  }

  lemma FirstSumIsSample(f: State, x: int)
    requires Coherent(f) && f.n == 0 && Sample(x)
    ensures Step(f, x).yPrev == x && Level(Step(f, x).ySum, Step(f, x).sPrev) == x as real
  {
    LevelOfMultiple(x, NextOrder(f, x));
  }

  lemma StepKeepsGap(f: State, x: int, y: real)
    requires Coherent(f) && f.n > 0 && Sample(x)
    requires Tracks(f, y)
    ensures Tracks(Step(f, x), Blend(y, x as real, Part(NextOrder(f, x))))
  {
    var o, r := NextOrder(f, x), RescaledSum(f, x);
    RescaleDrops(f.ySum, f.sPrev, o);
    RescaleKeepsFloor(f.ySum, f.sPrev, o);
    SumAtFloor(r, f.yPrev, x, o, Level(f.ySum, f.sPrev), y);
  }

  lemma SumAtFloor(r: int, floor: int, x: int, o: nat, level: real, y: real)
    requires floor == ShiftRight(r, o)
    requires -1.0 < level - y < 1.0 && 0.0 <= level - Level(r, o) < Part(o)
    ensures -1.0 < Level(r + (x - floor), o) - Blend(y, x as real, Part(o)) < 1.0
  {
    LevelOfFloor(floor, r, o);
    LevelOfSum(r, x - floor, o);
    GapArithmetic(level, Level(r, o), floor as real, x as real, y, Part(o));
    hide *;
  }

  /** Moving down loses less than one unit of the new sum. */
  lemma RescaleDrops(sum: int, from: nat, to: nat)
    ensures 0.0 <= Level(sum, from) - Level(Rescale(sum, from, to), to) < Part(to)
  {
    if from > to {
      var k := from - to;
      LevelOfFloor(ShiftRight(sum, k), sum, k);
      LevelOfShifted(sum, ShiftRight(sum, k), to, k);
      TimesPart(Level(sum, k) - ShiftRight(sum, k) as real, Part(to));
      hide *;
    } else {
      LevelOfScaled(sum, from, to - from);
    }
  }

  lemma LevelOfShifted(sum: int, q: int, to: nat, k: nat)
    ensures Level(sum, to + k) - Level(q, to) == Times(Level(sum, k) - q as real, Part(to))
  {
    PartOfSum(to, k);
    TimesAssociates(sum as real, Part(to), Part(k));
    TimesDistributes(Times(sum as real, Part(k)), q as real, Part(to));
    hide Times, Part;
  }

  lemma LevelOfFloor(q: int, sum: int, k: nat)
    requires q == ShiftRight(sum, k)
    ensures 0.0 <= Level(sum, k) - q as real < 1.0
  {
    FloorIs(q, sum, k);
    LevelOfMultiple(q, k);
    LevelOfMultiple(q + 1, k);
    TimesMonotone((q * Pow2(k)) as real, sum as real, Part(k));
    TimesMonotone((sum + 1) as real, ((q + 1) * Pow2(k)) as real, Part(k));
    LevelOfSum(sum, 1, k);
    assert Times(1.0, Part(k)) == Part(k);
    hide Times, Part;
  }

  /** The new gap is (1 - a) times the old one less what was dropped, plus `a` times the fraction of the floor. */
  lemma GapArithmetic(level: real, r: real, floor: real, x: real, y: real, a: real)
    requires 0.0 < a <= 1.0 && -1.0 < level - y < 1.0
    requires 0.0 <= level - r < a && 0.0 <= r - floor < 1.0
    ensures -1.0 < r + Times(x - floor, a) - Blend(y, x, a) < 1.0
  {
    GapSplits(r, floor, x, y, a);
    GapBounds(r - y, r - floor, a);
    hide Times;
  }

  lemma GapSplits(r: real, floor: real, x: real, y: real, a: real)
    ensures r + Times(x - floor, a) - Blend(y, x, a) == Times(r - y, 1.0 - a) + Times(r - floor, a)
  {
  }

  lemma GapBounds(g: real, f: real, a: real)
    requires 0.0 < a <= 1.0 && -1.0 - a < g < 1.0 && 0.0 <= f < 1.0
    ensures -1.0 < Times(g, 1.0 - a) + Times(f, a) < 1.0
  {
    TimesDistributes(g, 1.0 + a, 1.0 - a);
    TimesMonotone(0.0, g + (1.0 + a), 1.0 - a);
    TimesMonotone(g, 1.0, 1.0 - a);
    TimesPart(f, a);
    TimesEnds(a);
    assert Times(0.0, 1.0 - a) == 0.0;
    hide Times;
  }

  lemma TimesEnds(a: real)
    requires 0.0 < a <= 1.0
    ensures Times(1.0, 1.0 - a) == 1.0 - a
    ensures Times(1.0 + a, 1.0 - a) < 1.0
  {
    assert Times(1.0 + a, 1.0 - a) == 1.0 - a + Times(1.0 - a, a);
    TimesPart(1.0 - a, a);
    hide Times;
  }
}
