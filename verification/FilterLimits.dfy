/** When the smoother of servo.c overflows, and where it settles. */
module FilterLimits {
  import opened Words
  import opened Filter
  import opened FilterRuns

  // ----- Overflow -----

  predicate Bound(b: int) { 0 <= b < 0x4000_0000 }

  /** Every run of samples in [-low, high] stays inside 32-bit words. */
  ghost predicate AlwaysSafe(f: State, low: int, high: int)
    requires Coherent(f) && Bound(low) && Bound(high)
  {
    forall xs: seq<int> :: Within(xs, -low, high) ==> SafeRun(f, xs)
  }

  /** The guard on the order bounds the largest of output and sample, not the magnitudes, so what
      saves the sum from below is only the size of the samples: low * 2^s must not exceed 2^31. */
  lemma SafeExactlyWhen(f: State, low: int, high: int)
    requires Coherent(f) && f.n == 0 && Bound(low) && Bound(high)
    ensures AlwaysSafe(f, low, high) <==> low * Pow2(f.s) <= TWO31
  {
    if low * Pow2(f.s) <= TWO31 {
      forall xs: seq<int> | Within(xs, -low, high)
        ensures SafeRun(f, xs)
      {
        SmallSamplesAreSafe(f, xs, low, high);
      }
    } else {
      LargeSamplesOverflow(f, low);
      assert Within(Copies(-low, Pow2(f.s) - 1) + [0], -low, high);
    }
  }

  /** No order is unsafe for non-negative samples. */
  lemma NonNegativeIsSafe(f: State, high: int)
    requires Coherent(f) && f.n == 0 && Bound(high)
    ensures AlwaysSafe(f, 0, high)
  {
    SafeExactlyWhen(f, 0, high);
  }

  /** The two orders the program configures, for samples of less than a second: the offset filter is
      safe, the delay filter only down to -2^25 ns. */
  lemma ConfiguredOrders(offset: State, delay: State, low: int)
    requires Coherent(offset) && offset.n == 0 && offset.s == 1
    requires Coherent(delay) && delay.n == 0 && delay.s == 6
    requires 0 <= low < 1_000_000_000
    ensures AlwaysSafe(offset, low, 999_999_999)
    ensures AlwaysSafe(delay, low, 999_999_999) <==> low <= 0x200_0000
  {
    Pow2Values();
    assert Pow2(6) == 64;
    SafeExactlyWhen(offset, low, 999_999_999);
    SafeExactlyWhen(delay, low, 999_999_999);
  }

  lemma {:induction false} SmallSamplesAreSafe(f: State, xs: seq<int>, low: int, high: int)
    requires Coherent(f) && f.n == 0 && Bound(low) && Bound(high)
    requires low * Pow2(f.s) <= TWO31 && Within(xs, -low, high)
    ensures SafeRun(f, xs)
  {
    if xs != [] {
      var front, x := xs[..|xs| - 1], xs[|xs| - 1];
      SmallSamplesAreSafe(f, front, low, high);
      var was := Run(f, front);
      if front != [] {
        OutputInHull(f, front, -low, high);
      }
      SmallStepFits(was, x, low, high);
    }
  }

  lemma SmallStepFits(f: State, x: int, low: int, high: int)
    requires Coherent(f) && Bound(low) && Bound(high)
    requires low * Pow2(f.s) <= TWO31 && -low <= x <= high
    requires f.n > 0 ==> -low <= f.yPrev <= high
    ensures NoOverflow(f, x)
  {
    var p, o := Primed(f, x), NextOrder(f, x);
    assert Pow2(0) == 1;
    RescaleKeepsFloor(p.ySum, p.sPrev, o);
    NextFloor(f, x);
    var m := Max(p.yPrev, x);
    SumFits(p.yPrev, RescaledSum(f, x), o, m, low, f.s);
    SumFits(ShiftRight(NextSum(f, x), o), NextSum(f, x), o, m, low, f.s);
  }

  /** A sum fits when its floor is at most `m`, whose order the guard has seen, and at least -low. */
  lemma SumFits(floor: int, sum: int, o: nat, m: int, low: int, s: nat)
    requires floor == ShiftRight(sum, o) && -low <= floor <= m && Sample(m) && low >= 0
    requires o + Order(m) <= 30 && o <= s && low * Pow2(s) <= TWO31
    ensures FitsS32(sum)
  {
    FloorIs(floor, sum, o);
    LowEnd(floor, low, o, s);
    HighEnd(floor, m, o);
  }

  lemma LowEnd(floor: int, low: int, o: nat, s: nat)
    requires -low <= floor && low >= 0 && o <= s && low * Pow2(s) <= TWO31
    ensures floor * Pow2(o) >= -TWO31
  {
    hide Pow2;
    Pow2Monotone(o, s);
    MulLe(Pow2(o), Pow2(s), low);
    MulLe(-low, floor, Pow2(o));
  }

  lemma HighEnd(floor: int, m: int, o: nat)
    requires floor <= m && Sample(m) && o + Order(m) <= 30
    ensures (floor + 1) * Pow2(o) <= TWO31
  {
    hide Order, Pow2;
    if m >= 0 {
      var l := Order(m);
      OrderBound(m);
      MulLe(floor + 1, Pow2(l + 1), Pow2(o));
      Pow2Add(l + 1, o);
      Pow2Monotone(l + 1 + o, 31);
      Pow2Values();
    } else {
      MulLe(floor + 1, 0, Pow2(o));
    }
  }

  function Copies(x: int, k: nat): (xs: seq<int>)
    ensures |xs| == k && forall i | 0 <= i < k :: xs[i] == x
  {
    seq(k, _ => x)
  }

  /** A constant input is reproduced without a remainder, at every order. */
  lemma {:induction false} ConstantRun(f: State, x: int, k: nat)
    requires Coherent(f) && f.n == 0 && Sample(x) && k > 0
    ensures var r := Run(f, Copies(x, k)); r.yPrev == x && r.ySum == x * Pow2(r.sPrev)
  {
    var xs := Copies(x, k);
    if k == 1 {
      assert xs[..0] == [];
      FloorIs(x, x * Pow2(NextOrder(f, x)), NextOrder(f, x));
    } else {
      assert xs[..k - 1] == Copies(x, k - 1);
      ConstantRun(f, x, k - 1);
      var was := Run(f, Copies(x, k - 1));
      RescaleOfMultiple(x, was.sPrev, NextOrder(was, x));
      FloorIs(x, x * Pow2(NextOrder(was, x)), NextOrder(was, x));
    }
  }

  lemma RescaleOfMultiple(x: int, from: nat, to: nat)
    ensures Rescale(x * Pow2(from), from, to) == x * Pow2(to)
  {
    if from > to {
      Pow2Add(to, from - to);
      QuotientOfMultiple(x, Pow2(to), Pow2(from - to));
    } else {
      Pow2Add(from, to - from);
      MulAssociates(x, Pow2(from), Pow2(to - from));
    }
  }

  lemma QuotientOfMultiple(x: int, p: int, k: int)
    requires k > 0
    ensures x * (p * k) / k == x * p
  {
    MulAssociates(x, p, k);
    assert x * p * k < (x * p + 1) * k;
    DivUnique(x * p * k, k, x * p);
  }

  /** Enough copies of -low to end the warm-up, and then a zero, which lifts the order to s. */
  lemma LargeSamplesOverflow(f: State, low: int)
    requires Coherent(f) && f.n == 0 && Bound(low) && low * Pow2(f.s) > TWO31
    ensures !SafeRun(f, Copies(-low, Pow2(f.s) - 1) + [0])
  {
    hide Step, NoOverflow, Pow2, Order;
    AboveOne(low, Pow2(f.s));
    var k := Pow2(f.s) - 1;
    var front := Copies(-low, k);
    assert (front + [0])[..k] == front;
    ConstantRun(f, -low, k);
    CountOfRun(f, front);
    ZeroAfterLowOverflows(Run(f, front), low);
  }

  lemma AboveOne(low: int, p: int)
    requires Bound(low) && p >= 1 && low * p > TWO31
    ensures p > 1
  {
    if p == 1 {
      assert false;
    }
  }

  lemma ZeroAfterLowOverflows(f: State, low: int)
    requires Coherent(f) && f.n > 0 && f.n == Pow2(f.s) - 1 && Bound(low) && low * Pow2(f.s) > TWO31
    requires f.yPrev == -low && f.ySum == -low * Pow2(f.sPrev)
    ensures !NoOverflow(f, 0)
  {
    FullOrderForZero(f, low);
    hide Coherent, Pow2, Rescale, NextOrder, NextSum, ShiftRight;
    RescaleOfMultiple(-low, f.sPrev, f.s);
    OverflowsBelow(low, Pow2(f.s));
  }

  lemma OverflowsBelow(low: int, p: int)
    requires low * p > TWO31
    ensures !FitsS32(-low * p)
  {
    assert -low * p == -(low * p);
  }

  lemma FullOrderForZero(f: State, low: int)
    requires Coherent(f) && f.n > 0 && f.n == Pow2(f.s) - 1 && Bound(low) && f.yPrev == -low
    ensures NextOrder(f, 0) == f.s
  {
    assert Order(0) == 0;
    hide Pow2, Order, ShiftRight;
  }

  // ----- Settling -----

  /** The state after `k` times the same sample. */
  function Feed(f: State, x: int, k: nat): (r: State)
    requires Coherent(f) && Sample(x)
    ensures Coherent(r)
    decreases k
  {
    if k == 0 then f else Feed(Step(f, x), x, k - 1)
  }

  predicate Settled(f: State, x: int) { f.n > 0 && f.yPrev == x }

  lemma {:induction false} StaysSettled(f: State, x: int, k: nat)
    requires Coherent(f) && Sample(x) && Settled(f, x)
    ensures Settled(Feed(f, x, k), x)
    decreases k
  {
    if k > 0 {
      StaysSettled(Step(f, x), x, k - 1);
    }
  }

  /** How far the sum may still move before the output has to. */
  function Slack(f: State, x: int): (d: nat)
    requires Coherent(f) && Sample(x) && f.n > 0
  {
    var p, r := Pow2(NextOrder(f, x)), RescaledSum(f, x);
    RescaleKeepsFloor(f.ySum, f.sPrev, NextOrder(f, x));
    FloorIs(f.yPrev, r, NextOrder(f, x));
    if f.yPrev < x then (f.yPrev + 1) * p - r else r - f.yPrev * p
  }

  /** While the output stands still the order can only rise. */
  lemma OrderRises(f: State, x: int)
    requires Coherent(f) && Sample(x) && f.n > 0 && Step(f, x).yPrev == f.yPrev
    ensures NextOrder(Step(f, x), x) >= NextOrder(f, x)
  {
    WarmOrderRises(f, Step(f, x));
  }

  lemma WarmOrderRises(f: State, g: State)
    requires g.s == f.s && g.n == NextCount(f)
    ensures WarmOrder(g) >= WarmOrder(f)
  {
    WarmOrderBound(f);
    if Pow2(f.s) > f.n + 2 {
      FloorLogMonotone(f.n + 1, f.n + 2);
    }
  }

  /** From any state, a constant input is reached exactly, in finitely many calls. */
  lemma {:induction false} Reaches(f: State, x: int) returns (k: nat)
    requires Coherent(f) && Sample(x) && f.n > 0
    ensures Settled(Feed(f, x, k), x)
    decreases Abs(x - f.yPrev), 30 - NextOrder(f, x), Slack(f, x)
  {
    if f.yPrev == x {
      return 0;
    }
    var g := Step(f, x);
    if g.yPrev == f.yPrev {
      OrderRises(f, x);
      if NextOrder(g, x) == NextOrder(f, x) {
        SlackFalls(f, x);
      }
    }
    k := Reaches(g, x);
    k := k + 1;
  }

  lemma SlackFalls(f: State, x: int)
    requires Coherent(f) && Sample(x) && f.n > 0 && f.yPrev != x
    requires Step(f, x).yPrev == f.yPrev && NextOrder(Step(f, x), x) == NextOrder(f, x)
    ensures Slack(Step(f, x), x) < Slack(f, x)
  {
    assert Pow2(0) == 1;
    assert RescaledSum(Step(f, x), x) == RescaledSum(f, x) + x - f.yPrev;
  }

  /** From the call numbered `k` on, the output is the input. */
  ghost predicate SettlesBy(f: State, x: int, k: nat)
    requires Coherent(f) && Sample(x)
  {
    forall m: nat :: m >= k ==> Settled(Feed(f, x, m), x)
  }

  /** A constant input is reproduced for ever from some call on, whatever came before: no residual bias. */
  lemma ConstantInputSettles(f: State, x: int)
    requires Coherent(f) && Sample(x)
    ensures exists k: nat :: SettlesBy(f, x, k)
  {
    hide Step, Coherent;
    var g := Step(f, x);
    var k := Reaches(g, x);
    forall m: nat | m >= k + 1
      ensures Settled(Feed(f, x, m), x)
    {
      FeedAdds(g, x, k, m - 1 - k);
      StaysSettled(Feed(g, x, k), x, m - 1 - k);
    }
    assert SettlesBy(f, x, k + 1);
  }

  lemma {:induction false} FeedAdds(f: State, x: int, k: nat, m: nat)
    requires Coherent(f) && Sample(x)
    ensures Feed(f, x, k + m) == Feed(Feed(f, x, k), x, m)
    decreases k
  {
    hide Step, Coherent, Sample;
    if k > 0 {
      FeedAdds(Step(f, x), x, k - 1, m);
    }
  }

  /** For non-negative input the order never falls again after the first of equal samples. */
  lemma OrderNeverFalls(f: State, x: int)
    requires Coherent(f) && Sample(x) && x >= 0 && f.n > 0 && f.yPrev >= 0
    ensures NextOrder(Step(f, x), x) >= NextOrder(f, x)
  {
    WarmOrderRises(f, Step(f, x));
    var m, m' := Max(f.yPrev, x), Max(Step(f, x).yPrev, x);
    assert 0 <= m' <= m;
    if m' > 0 {
      FloorLogMonotone(m', m);
    }
  }
}
