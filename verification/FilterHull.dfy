/** Hull and tracking of the smoother of servo.c as the program runs it, in 32-bit words. */
module FilterHull {
  import opened Words
  import opened Filter
  import opened FilterRuns
  import opened FilterLimits
  import opened FilterWords

  // ----- Constant samples -----

  /** A constant input is reproduced without a remainder from the first call, whatever the sample. */
  lemma {:induction false} StoredConstantRun(f: State, x: int, k: nat)
    requires InWords(f) && f.n == 0 && Sample(x) && k > 0
    ensures Samples(Copies(x, k))
    ensures var r := StoredRun(f, Copies(x, k)); r.n > 0 && r.s == f.s && r.yPrev == x && r.ySum == x * Pow2(r.sPrev)
  {
    var xs := Copies(x, k);
    hide Step, StoredStep, NextOrder, Coherent, Pow2, Sample;
    if k == 1 {
      assert xs[..0] == [] && StoredRun(f, xs[..0]) == f;
      FirstOutput(f, x);
      StepKeepsOrder(f, x);
    } else {
      assert xs[..k - 1] == Copies(x, k - 1);
      StoredConstantRun(f, x, k - 1);
      var was := StoredRun(f, Copies(x, k - 1));
      SettledStep(was, x);
      SettledSum(was, x);
      StepKeepsOrder(was, x);
    }
  }

  lemma StepKeepsOrder(f: State, x: int)
    requires InWords(f) && Sample(x)
    ensures var g := StoredStep(f, x); g.n > 0 && g.s == f.s && g.sPrev == NextOrder(f, x)
  {
    Pow2Monotone(0, f.s);
    hide NextOrder, NextSum;
  }

  lemma SettledSum(f: State, x: int)
    requires InWords(f) && Sample(x) && Settled(f, x) && f.ySum == x * Pow2(f.sPrev)
    ensures Step(f, x).ySum == x * Pow2(NextOrder(f, x))
  {
    hide Pow2, NextOrder, Rescale;
    RescaleOfMultiple(x, f.sPrev, NextOrder(f, x));
  }

  lemma {:induction false} StoredCount(f: State, xs: seq<int>)
    requires InWords(f) && f.n == 0 && Samples(xs)
    ensures StoredRun(f, xs).n == Min(|xs|, Pow2(f.s)) && StoredRun(f, xs).s == f.s
  {
    if xs != [] {
      StoredCount(f, xs[..|xs| - 1]);
      hide NextOrder, NextSum, Pow2, ShiftRight, Wrap32;
    }
  }

  // ----- The exact bound -----

  /** The output of every run of samples in [-low, high] lies in the hull of its samples. */
  ghost predicate HullKept(f: State, low: int, high: int)
    requires InWords(f) && Bound(low) && Bound(high)
  {
    forall xs: seq<int>, lo: int, hi: int ::
      xs != [] && Within(xs, -low, high) && Within(xs, lo, hi) ==> lo <= StoredRun(f, xs).yPrev <= hi
  }

  /** The output stays in the hull of the samples, for all runs from -low to high of a fresh filter in 32-bit
      words, exactly when low * 2^s <= 2^31. */
  lemma HullKeptExactlyWhen(f: State, low: int, high: int)
    requires InWords(f) && f.n == 0 && Bound(low) && Bound(high)
    ensures HullKept(f, low, high) <==> low * Pow2(f.s) <= TWO31
  {
    hide Pow2, Coherent, Run, StoredRun, ShiftRight;
    if low * Pow2(f.s) <= TWO31 {
      forall xs: seq<int>, lo: int, hi: int | xs != [] && Within(xs, -low, high) && Within(xs, lo, hi)
        ensures Samples(xs) && lo <= StoredRun(f, xs).yPrev <= hi
      {
        SafeRunIsExact(f, xs, low, high);
        OutputInHull(f, xs, lo, hi);
      }
    } else {
      assert f.s <= 30 by { OrderAtMost(f); }
      LowAboveLimit(low, f.s);
      var xs := Escape(f.s);
      EscapeIsWithin(f.s, low, high);
      EscapesHull(f);
    }
  }

  lemma SafeRunIsExact(f: State, xs: seq<int>, low: int, high: int)
    requires InWords(f) && f.n == 0 && Bound(low) && Bound(high) && low * Pow2(f.s) <= TWO31 && Within(xs, -low, high)
    ensures Samples(xs) && StoredRun(f, xs) == Run(f, xs)
  {
    hide Pow2, Coherent, Run, StoredRun, SafeRun;
    SafeExactlyWhen(f, low, high);
    StoredRunIsExact(f, xs);
  }

  lemma OrderAtMost(f: State)
    requires InWords(f)
    ensures f.s <= 30
  {
  }

  /** The limit itself in units of the full order. */
  function Limit(s: nat): nat
    requires s <= 31
  {
    Pow2(31 - s)
  }

  lemma LowAboveLimit(low: int, s: nat)
    requires s <= 30 && Bound(low) && low * Pow2(s) > TWO31
    ensures s >= 2 && low >= Limit(s) + 1 && 2 <= Limit(s) <= 0x2000_0000
  {
    assert Pow2(0) == 1 && Pow2(1) == 2;
    assert s >= 2;
    EscapeNumbers(s);
    hide Pow2, Limit;
    if low <= Limit(s) {
      MulLe(low, Limit(s), Pow2(s));
    }
  }

  /** Samples just beyond the limit to the end of the warm-up, and then one just inside it, which the guard lets
      through at the full order. */
  function Escape(s: nat): (xs: seq<int>)
    requires s <= 31
  {
    Copies(-1 - Limit(s), Pow2(s) - 1) + [1 - Limit(s)]
  }

  lemma EscapeIsWithin(s: nat, low: int, high: int)
    requires 2 <= s <= 30 && Bound(high) && low >= Limit(s) + 1 && Limit(s) >= 2
    ensures Escape(s) != [] && Within(Escape(s), -low, high) && Within(Escape(s), -1 - Limit(s), -1)
  {
    hide Pow2, Limit;
    var xs := Escape(s);
    forall i | 0 <= i < |xs|
      ensures xs[i] == -1 - Limit(s) || xs[i] == 1 - Limit(s)
    {
    }
  }

  lemma EscapeOutput(f: State)
    requires InWords(f) && f.n == 0 && 2 <= f.s <= 30
    ensures Samples(Escape(f.s)) && Escape(f.s) != []
    ensures var r := StoredRun(f, Escape(f.s));
            r.ySum == TWO31 - Pow2(f.s) + 2 && r.sPrev == f.s && r.yPrev == Limit(f.s) - 1
  {
    var s := f.s;
    var a, b, k: nat := -1 - Limit(s), 1 - Limit(s), Pow2(s) - 1;
    var front := Copies(a, k);
    assert Escape(s) == front + [b] && (front + [b])[..k] == front;
    hide Pow2, Limit, Copies, Escape, Order, Coherent, StoredStep;
    EscapeNumbers(s);
    StoredConstantRun(f, a, k);
    StoredCount(f, front);
    LastStep(StoredRun(f, front), a, b);
  }

  lemma EscapeNumbers(s: nat)
    requires 2 <= s <= 30
    ensures 2 <= Limit(s) <= 0x2000_0000 && Pow2(s) >= 4 && Limit(s) * Pow2(s) == TWO31
  {
    assert Pow2(1) == 2 && Pow2(2) == 4;
    Pow2Add(31 - s, s);
    Pow2Monotone(1, 31 - s);
    Pow2Monotone(2, s);
    Pow2Monotone(31 - s, 29);
    Halves();
    Pow2Values();
  }

  /** The sum at the full order is two to the order below the least word, and wraps. */
  lemma LastStep(f: State, a: int, b: int)
    requires InWords(f) && 2 <= f.s <= 30 && f.n == Pow2(f.s) - 1 && a == -1 - Limit(f.s) && b == 1 - Limit(f.s)
    requires f.n > 0 && f.yPrev == a && f.ySum == a * Pow2(f.sPrev)
    ensures Sample(b)
    ensures var r := StoredStep(f, b); r.ySum == TWO31 - Pow2(f.s) + 2 && r.sPrev == f.s && r.yPrev == Limit(f.s) - 1
  {
    LogBelowPower(Limit(f.s) - 1, 31 - f.s);
    EscapeNumbers(f.s);
    FullOrder(f, a, b);
    LastSum(f, a, b);
    hide Pow2, Limit, NextOrder, NextSum, Order, FloorLog, Wrap32, ShiftRight, Coherent;
    WrappedFloor(Limit(f.s), f.s);
  }

  lemma LastSum(f: State, a: int, b: int)
    requires InWords(f) && 2 <= f.s <= 30 && Sample(b) && f.n > 0 && NextOrder(f, b) == f.s
    requires a == -1 - Limit(f.s) && b == 1 - Limit(f.s) && f.yPrev == a && f.ySum == a * Pow2(f.sPrev)
    ensures NextSum(f, b) == -TWO31 - Pow2(f.s) + 2
  {
    hide Pow2, Limit, Rescale, NextOrder, Coherent;
    EscapeNumbers(f.s);
    RescaleOfMultiple(a, f.sPrev, f.s);
    SumOfEscape(a, Limit(f.s), Pow2(f.s));
  }

  lemma FullOrder(f: State, a: int, b: int)
    requires InWords(f) && Sample(b) && f.n > 0 && f.n == Pow2(f.s) - 1 && f.yPrev == a <= b && Order(b) == 30 - f.s
    ensures NextOrder(f, b) == f.s
  {
    hide Pow2, Order, ShiftRight;
  }

  lemma WrappedFloor(limit: int, s: nat)
    requires 2 <= s <= 30 && limit >= 2 && Pow2(s) >= 4 && limit * Pow2(s) == TWO31
    ensures Wrap32(-TWO31 - Pow2(s) + 2) == TWO31 - Pow2(s) + 2
    ensures ShiftRight(TWO31 - Pow2(s) + 2, s) == limit - 1
  {
    hide Pow2, ShiftRight;
    Pow2Monotone(s, 30);
    Pow2Values();
    assert (limit - 1) * Pow2(s) == TWO31 - Pow2(s);
    FloorIs(limit - 1, TWO31 - Pow2(s) + 2, s);
  }

  /** All samples are negative, the output is positive. */
  lemma EscapesHull(f: State)
    requires InWords(f) && f.n == 0 && 2 <= f.s <= 30
    ensures Samples(Escape(f.s)) && StoredRun(f, Escape(f.s)).yPrev >= 1
  {
    EscapeNumbers(f.s);
    EscapeOutput(f);
    hide StoredRun, Limit, Escape;
  }

  // ----- Tracking -----

  /** The rational recurrence Y := Y + (x - Y) / 2^o, run with the orders the program chooses. */
  ghost function StoredRational(f: State, xs: seq<int>): real
    requires InWords(f) && f.n == 0 && Samples(xs) && xs != []
  {
    var front, x := xs[..|xs| - 1], xs[|xs| - 1];
    if front == [] then x as real
    else Blend(StoredRational(f, front), x as real, Part(NextOrder(StoredRun(f, front), x)))
  }

  /** After every run of samples in [-low, high] the sum is less than one unit from the rational recurrence. */
  ghost predicate TracksKept(f: State, low: int, high: int)
    requires InWords(f) && f.n == 0 && Bound(low) && Bound(high)
  {
    forall xs: seq<int> :: xs != [] && Within(xs, -low, high) ==> Tracks(StoredRun(f, xs), StoredRational(f, xs))
  }

  /** The filter of the program tracks the recurrence, for all runs from -low to high, exactly when
      low * 2^s <= 2^31. */
  lemma TracksKeptExactlyWhen(f: State, low: int, high: int)
    requires InWords(f) && f.n == 0 && Bound(low) && Bound(high)
    ensures TracksKept(f, low, high) <==> low * Pow2(f.s) <= TWO31
  {
    hide Pow2, Coherent, Run, StoredRun, ShiftRight, Tracks, StoredRational, Rational;
    if low * Pow2(f.s) <= TWO31 {
      forall xs: seq<int> | xs != [] && Within(xs, -low, high)
        ensures Samples(xs) && Tracks(StoredRun(f, xs), StoredRational(f, xs))
      {
        SafeRunIsExact(f, xs, low, high);
        RationalsAgree(f, xs, low, high);
        RunTracksRational(f, xs);
      }
    } else {
      assert f.s <= 30 by { OrderAtMost(f); }
      LowAboveLimit(low, f.s);
      EscapeIsWithin(f.s, low, high);
      EscapesTracking(f);
    }
  }

  lemma {:induction false} RationalsAgree(f: State, xs: seq<int>, low: int, high: int)
    requires InWords(f) && f.n == 0 && Bound(low) && Bound(high) && low * Pow2(f.s) <= TWO31
    requires xs != [] && Within(xs, -low, high)
    ensures Samples(xs) && StoredRational(f, xs) == Rational(f, xs)
  {
    hide Pow2, Coherent, Run, StoredRun, ShiftRight, NextOrder, Blend, Part;
    var front := xs[..|xs| - 1];
    if front != [] {
      RationalsAgree(f, front, low, high);
      SafeRunIsExact(f, front, low, high);
    }
  }

  lemma {:induction false} ConstantRational(f: State, x: int, k: nat)
    requires InWords(f) && f.n == 0 && Sample(x) && k > 0
    ensures Samples(Copies(x, k)) && StoredRational(f, Copies(x, k)) == x as real
  {
    hide Coherent, StoredRun, NextOrder, Part;
    var xs := Copies(x, k);
    assert Samples(xs);
    if k == 1 {
      assert xs[..0] == [];
    } else {
      assert xs[..k - 1] == Copies(x, k - 1);
      ConstantRational(f, x, k - 1);
    }
  }

  /** The wrap takes the sum 2^32 units from where it should be. */
  lemma EscapesTracking(f: State)
    requires InWords(f) && f.n == 0 && 2 <= f.s <= 30
    ensures Samples(Escape(f.s)) && Escape(f.s) != []
            && !Tracks(StoredRun(f, Escape(f.s)), StoredRational(f, Escape(f.s)))
  {
    EscapeOutput(f);
    var s, xs := f.s, Escape(f.s);
    var a: int, b: int, k: nat := -1 - Limit(s), 1 - Limit(s), Pow2(s) - 1;
    EscapeNumbers(s);
    var front := Copies(a, k);
    assert xs == front + [b] && xs[..|xs| - 1] == front && xs[|xs| - 1] == b;
    hide Pow2, Limit, Copies, Escape, Order, Coherent, StoredRun, Part, Blend;
    StoredConstantRun(f, a, k);
    StoredCount(f, front);
    ConstantRational(f, a, k);
    OrderOfEscape(StoredRun(f, front), a, b);
    WrappedLevel(a, b, s);
  }

  lemma OrderOfEscape(f: State, a: int, b: int)
    requires InWords(f) && 2 <= f.s <= 30 && f.n == Pow2(f.s) - 1 && a == -1 - Limit(f.s) && b == 1 - Limit(f.s)
    requires f.n > 0 && f.yPrev == a
    ensures Sample(b) && NextOrder(f, b) == f.s
  {
    LogBelowPower(Limit(f.s) - 1, 31 - f.s);
    EscapeNumbers(f.s);
    FullOrder(f, a, b);
  }

  lemma WrappedLevel(a: int, b: int, s: nat)
    requires 2 <= s <= 30 && a == -1 - Limit(s) && b == 1 - Limit(s)
    ensures Level(TWO31 - Pow2(s) + 2, s) - Blend(a as real, b as real, Part(s)) >= 4.0
  {
    hide Pow2, Limit, Part, Level, Times;
    EscapeNumbers(s);
    var p: int := Pow2(s);
    SumOfEscape(a, Limit(s), p);
    LevelOfMultiple(a, s);
    LevelOfSum(a * p, b - a, s);
    LevelAdds(a * p + (b - a), TWO32, s);
    LevelOfWrap(s);
  }

  lemma SumOfEscape(a: int, limit: int, p: int)
    requires a == -1 - limit && limit * p == TWO31
    ensures a * p + 2 + TWO32 == TWO31 - p + 2
  {
    assert (-1 - limit) * p == -(limit * p) - p;
  }

  lemma LevelOfWrap(s: nat)
    requires s <= 30
    ensures Level(TWO32, s) >= 4.0
  {
    assert Pow2(2) == 4;
    Pow2Add(32 - s, s);
    Pow2Monotone(2, 32 - s);
    Pow2Values();
    hide Pow2, Level;
    LevelOfMultiple(Pow2(32 - s), s);
  }

  lemma LevelAdds(a: int, b: int, k: nat)
    ensures Level(a + b, k) == Level(a, k) + Level(b, k)
  {
    LevelOfSum(a, b, k);
  }

  // ----- A run that never reaches its last sample -----

  lemma {:induction false} RunThenFeed(f: State, xs: seq<int>, x: int, k: nat)
    requires InWords(f) && Samples(xs) && Sample(x)
    ensures Samples(xs + Copies(x, k)) && StoredRun(f, xs + Copies(x, k)) == StoredFeed(StoredRun(f, xs), x, k)
  {
    hide StoredStep, Coherent;
    if k == 0 {
      assert xs + Copies(x, 0) == xs;
    } else {
      var ys := xs + Copies(x, k);
      assert ys[..|ys| - 1] == xs + Copies(x, k - 1);
      RunThenFeed(f, xs, x, k - 1);
      StoredFeedAdds(StoredRun(f, xs), x, k - 1, 1);
      var g := StoredFeed(StoredRun(f, xs), x, k - 1);
      FeedOnce(g, x, 0);
    }
  }

  /** A fresh delay filter that has warmed up on 21.7 ms never outputs a constant of -0.86 s that follows. */
  lemma NeverReached(f: State, k: nat)
    requires InWords(f) && f.n == 0 && f.s == 6
    ensures var xs := Copies(21_696_785, 64) + [21_696_833] + Copies(NEVER, k);
            Samples(xs) && StoredRun(f, xs).yPrev != NEVER
  {
    var xs := Copies(21_696_785, 64) + [21_696_833];
    WarmUp(f);
    NegativeConstantCycles(k);
    hide StoredRun, StoredFeed, Coherent;
    RunThenFeed(f, xs, NEVER, k);
    FeedCounts(k);
  }

  lemma FeedCounts(k: nat)
    ensures InWords(Warm(1_388_594_288)) && StoredFeed(Warm(1_388_594_288), NEVER, k).n > 0
  {
    CycleStep(1_388_594_288);
    var end := StaysOnCycle(1_388_594_288, k);
    hide StoredFeed;
  }

  lemma WarmUp(f: State)
    requires InWords(f) && f.n == 0 && f.s == 6
    ensures var xs := Copies(21_696_785, 64) + [21_696_833];
            Samples(xs) && StoredRun(f, xs) == Warm(1_388_594_288)
  {
    var a, b := 21_696_785, 21_696_833;
    var xs := Copies(a, 64) + [b];
    assert xs[..64] == Copies(a, 64);
    assert Pow2(6) == 64;
    StoredConstantRun(f, a, 64);
    StoredCount(f, Copies(a, 64));
    LastOfWarmUp(StoredRun(f, Copies(a, 64)), a, b);
    hide StoredStep, Coherent, Pow2;
  }

  lemma LastOfWarmUp(f: State, a: int, b: int)
    requires InWords(f) && f.s == 6 && f.n == 64 && a == 21_696_785 && b == 21_696_833
    requires f.yPrev == a && f.ySum == a * Pow2(f.sPrev)
    ensures Sample(b) && StoredStep(f, b) == Warm(1_388_594_288)
  {
    SmallOrder(b);
    assert Pow2(6) == 64;
    FullOrderFor(f, b);
    RescaleOfMultiple(a, f.sPrev, 6);
    hide Pow2, NextOrder, Rescale, Order;
    FloorIs(a, 1_388_594_288, 6);
  }

  lemma FullOrderFor(f: State, b: int)
    requires InWords(f) && f.s == 6 && f.n == 64 && Sample(b) && f.yPrev <= b && Order(b) <= 24
    ensures NextOrder(f, b) == 6
  {
    assert Pow2(6) == 64;
    hide Order;
  }
}
