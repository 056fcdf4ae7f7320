/** Where the smoother of servo.c settles as the program runs it, in 32-bit words. */
module FilterWords {
  import opened Words
  import opened Filter
  import opened FilterRuns
  import opened FilterLimits

  /** The state after `k` times the same sample, in 32-bit words. */
  function StoredFeed(f: State, x: int, k: nat): (r: State)
    requires InWords(f) && Sample(x)
    ensures InWords(r) && r.s == f.s
    decreases k
  {
    if k == 0 then f else
      StoredStepExactness(f, x);
      StoredFeed(StoredStep(f, x), x, k - 1)
  }

  /** From the call numbered `k` on, the output is the input. */
  ghost predicate StoredSettlesBy(f: State, x: int, k: nat)
    requires InWords(f) && Sample(x)
  {
    forall m: nat :: m >= k ==> Settled(StoredFeed(f, x, m), x)
  }

  ghost predicate StoredSettles(f: State, x: int)
    requires InWords(f) && Sample(x)
  {
    exists k: nat :: StoredSettlesBy(f, x, k)
  }

  // ----- Falling towards the sample -----

  /** At no order up to `s` does a fall towards `x` leave 32 bits. */
  ghost predicate DescentSafe(s: nat, x: int)
    requires s <= 30
  {
    forall o: nat | 1 <= o <= s :: -x < Pow2(o) + Pow2(31 - o)
  }

  /** The lowest sum from which a sample is added at order `o` to an output the guard lets through. */
  lemma LowestFall(y: int, x: int, o: nat, r: int)
    requires 1 <= o <= 30 && Sample(x) && Sample(y) && x <= y && o + Order(y) <= 30
    requires r >= y * Pow2(o) && -x < Pow2(o) + Pow2(31 - o)
    ensures r + x - y >= -TWO31
  {
    hide Order, Pow2;
    OrderBound(y);
    Pow2Monotone(Order(y) + 1, 31 - o);
    Pow2Add(o, 31 - o);
    Pow2Values();
    FallProduct(y, x, r, Pow2(o), Pow2(31 - o));
  }

  lemma FallProduct(y: int, x: int, r: int, p: int, q: int)
    requires p >= 1 && p * q == TWO31 && 1 - q <= y && Sample(x) && r >= y * p && -x < p + q
    ensures r + x - y >= -TWO31
  {
    if y >= 0 {
      MulLe(1, p, y);
    } else {
      MulLe(1 - q, y, p - 1);
      assert (1 - q) * (p - 1) == p + q - 1 - p * q;
      assert y * (p - 1) == y * p - y;
    }
  }

  /** A step from the sample or above stays in words where falls are safe. */
  lemma FallFits(f: State, x: int)
    requires InWords(f) && Sample(x) && f.n > 0 && f.yPrev >= x && DescentSafe(f.s, x)
    ensures FitsS32(NextSum(f, x))
  {
    hide Coherent, DescentSafe, Sample, Pow2, Order, ShiftRight, FitsS32, NextOrder, RescaledSum, NextSum;
    FallGuard(f, x);
    FallFloor(f, x);
    FallingSumFits(f.yPrev, x, NextOrder(f, x), RescaledSum(f, x));
  }

  lemma FallGuard(f: State, x: int)
    requires InWords(f) && Sample(x) && f.n > 0 && f.yPrev >= x && DescentSafe(f.s, x)
    ensures var o := NextOrder(f, x);
            && o <= 30 && Sample(f.yPrev) && o + Order(f.yPrev) <= 30
            && (o >= 1 ==> -x < Pow2(o) + Pow2(31 - o))
  {
    hide Pow2, Order, ShiftRight, WarmOrder;
  }

  lemma FallFloor(f: State, x: int)
    requires InWords(f) && Sample(x) && f.n > 0 && f.yPrev >= x
    ensures var o, r := NextOrder(f, x), RescaledSum(f, x);
            && f.yPrev == ShiftRight(r, o) && NextSum(f, x) == r + x - f.yPrev
            && x <= ShiftRight(r + x - f.yPrev, o) <= f.yPrev
  {
    hide Pow2, Order, ShiftRight, Rescale, NextOrder;
    RescaleKeepsFloor(f.ySum, f.sPrev, NextOrder(f, x));
    NextFloor(f, x);
  }

  lemma FallingSumFits(y: int, x: int, o: nat, r: int)
    requires o <= 30 && Sample(x) && Sample(y) && x <= y && o + Order(y) <= 30 && y == ShiftRight(r, o)
    requires x <= ShiftRight(r + x - y, o) <= y && (o >= 1 ==> -x < Pow2(o) + Pow2(31 - o))
    ensures FitsS32(r + x - y)
  {
    assert Pow2(0) == 1;
    hide Order, Pow2, ShiftRight;
    FloorIs(ShiftRight(r + x - y, o), r + x - y, o);
    HighEnd(ShiftRight(r + x - y, o), y, o);
    FloorIs(y, r, o);
    if o > 0 {
      LowestFall(y, x, o, r);
    }
  }

  lemma FallStep(f: State, x: int)
    requires InWords(f) && Sample(x) && f.n > 0 && f.yPrev >= x && DescentSafe(f.s, x)
    ensures StoredStep(f, x) == Step(f, x)
    ensures var g := StoredStep(f, x); InWords(g) && g.n > 0 && g.yPrev >= x && g.s == f.s
  {
    FallFits(f, x);
    StoredStepExactness(f, x);
    NextFloor(f, x);
    hide NextOrder, ShiftRight, NextSum, Coherent, DescentSafe, WarmOrder, Order;
  }

  /** So from there on words and exact integers agree. */
  lemma {:induction false} FallIsExact(f: State, x: int, k: nat)
    requires InWords(f) && Sample(x) && f.n > 0 && f.yPrev >= x && DescentSafe(f.s, x)
    ensures StoredFeed(f, x, k) == Feed(f, x, k)
    decreases k
  {
    hide Step, StoredStep, DescentSafe, Sample;
    if k > 0 {
      FallStep(f, x);
      FallIsExact(Step(f, x), x, k - 1);
    }
  }

  /** Every order that may be safe below, and one fall that overflows where it is not: the bound is sharp. */
  lemma DescentSafeExactlyWhen(s: nat, x: int)
    requires 1 <= s <= 30 && Sample(x)
    ensures DescentSafe(s, x)
            <==> forall f: State | InWords(f) && f.s == s && f.n > 0 && f.yPrev >= x :: FitsS32(NextSum(f, x))
  {
    if DescentSafe(s, x) {
      forall f: State | InWords(f) && f.s == s && f.n > 0 && f.yPrev >= x
        ensures FitsS32(NextSum(f, x))
      {
        FallFits(f, x);
      }
    } else {
      var o: nat :| 1 <= o <= s && -x >= Pow2(o) + Pow2(31 - o);
      var f := UnsafeFall(s, x, o);
    }
  }

  /** The least output that the guard lets through at order `o`, its sum without a fraction. */
  lemma UnsafeFall(s: nat, x: int, o: nat) returns (f: State)
    requires 1 <= o <= s <= 30 && Sample(x) && -x >= Pow2(o) + Pow2(31 - o)
    ensures InWords(f) && f.s == s && f.n > 0 && f.yPrev >= x && !FitsS32(NextSum(f, x))
  {
    hide Pow2, NextOrder, Rescale, Coherent;
    var p: int, q: int := Pow2(o), Pow2(31 - o);
    f := State(1 - q, (1 - q) * p, s, o, Pow2(s));
    Pow2Add(o, 31 - o);
    Pow2Values();
    LeastOutput(f, x, o, p, q);
    LeastSum(p, q);
  }

  lemma LeastSum(p: int, q: int)
    requires p * q == TWO31
    ensures (1 - q) * p == p - TWO31
  {
  }

  lemma LeastOutput(f: State, x: int, o: nat, p: int, q: int)
    requires 1 <= o <= f.s <= 30 && Sample(x) && p == Pow2(o) && q == Pow2(31 - o) && -x >= p + q
    requires f == State(1 - q, (1 - q) * p, f.s, o, Pow2(f.s))
    ensures InWords(f) && NextOrder(f, x) == o
    ensures Rescale(f.ySum, o, o) == f.ySum
  {
    assert Pow2(0) == 1;
    LogBelowPower(q - 1, 31 - o);
    SumOfLeastOutput(o, p, q);
    hide Pow2, Order, ShiftRight, FloorLog;
  }

  lemma SumOfLeastOutput(o: nat, p: int, q: int)
    requires 1 <= o <= 30 && p == Pow2(o) && q == Pow2(31 - o)
    ensures Sample(1 - q) && FitsS32((1 - q) * p) && 1 - q == ShiftRight((1 - q) * p, o)
  {
    hide Pow2, ShiftRight;
    Pow2Add(o, 31 - o);
    Pow2Values();
    Pow2Monotone(31 - o, 30);
    FloorIs(1 - q, (1 - q) * p, o);
    LeastProduct(1 - q, o);
    assert (1 - q + 1) * p == (1 - q) * p + p;
    MulLe(1 - q, 0, p);
  }

  /** 2^k - 1 has the order k - 1. */
  lemma LogBelowPower(n: int, k: nat)
    requires k >= 1 && n == Pow2(k) - 1
    ensures n >= 1 && FloorLog(n) == k - 1 && Order(-n) == k - 1
  {
    assert Pow2(k) == 2 * Pow2(k - 1);
    Pow2Monotone(0, k - 1);
    FloorLogUnique(n, k - 1);
  }

  // ----- At the sample -----

  /** An output equal to the sample is kept, whatever the sample. */
  lemma SettledStep(f: State, x: int)
    requires InWords(f) && Sample(x) && Settled(f, x)
    ensures FitsS32(NextSum(f, x)) && StoredStep(f, x) == Step(f, x)
    ensures Settled(StoredStep(f, x), x) && InWords(StoredStep(f, x))
  {
    var o, r := NextOrder(f, x), RescaledSum(f, x);
    RescaleKeepsFloor(f.ySum, f.sPrev, o);
    FloorIs(x, r, o);
    FloorFits(x, r, o);
    StoredStepExactness(f, x);
  }

  /** A sum fits at an order that the guard allows for its floor. */
  lemma FloorFits(q: int, sum: int, o: nat)
    requires q == ShiftRight(sum, o) && Sample(q) && o + Order(q) <= 30
    ensures FitsS32(sum)
  {
    hide Pow2, Order, ShiftRight;
    FloorIs(q, sum, o);
    HighEnd(q, q, o);
    OrderBound(q);
    Pow2Monotone(Order(q) + 1, 31 - o);
    LeastProduct(q, o);
  }

  lemma LeastProduct(q: int, o: nat)
    requires o <= 31 && -q <= Pow2(31 - o)
    ensures q * Pow2(o) >= -TWO31
  {
    hide Pow2;
    Pow2Add(31 - o, o);
    Pow2Values();
    ScaledDown(q, Pow2(31 - o), Pow2(o));
  }

  lemma ScaledDown(q: int, n: int, p: int)
    requires -q <= n && n * p == TWO31 && p >= 0
    ensures q * p >= -TWO31
  {
    MulLe(-n, q, p);
    assert -n * p == -(n * p);
  }

  lemma {:induction false} SettledStays(f: State, x: int, k: nat)
    requires InWords(f) && Sample(x) && Settled(f, x)
    ensures Settled(StoredFeed(f, x, k), x)
    decreases k
  {
    if k > 0 {
      SettledStep(f, x);
      SettledStays(StoredStep(f, x), x, k - 1);
    }
  }

  // ----- Rising towards the sample -----

  /** The output times the next order's unit is no less than the least word. */
  predicate Liftable(f: State, x: int)
    requires Coherent(f) && Sample(x)
  {
    f.yPrev * Pow2(NextOrder(f, x)) >= -TWO31
  }

  /** From below, a liftable output makes an exact step. */
  lemma RiseStep(f: State, x: int)
    requires InWords(f) && Sample(x) && f.n > 0 && f.yPrev < x && Liftable(f, x)
    ensures StoredStep(f, x) == Step(f, x) && f.yPrev <= StoredStep(f, x).yPrev <= x
  {
    hide Pow2, NextOrder, ShiftRight, Order, Rescale;
    var o, sum := NextOrder(f, x), NextSum(f, x);
    NextFloor(f, x);
    FloorIs(ShiftRight(sum, o), sum, o);
    HighEnd(ShiftRight(sum, o), x, o);
    MulLe(f.yPrev, ShiftRight(sum, o), Pow2(o));
    StoredStepExactness(f, x);
  }

  /** Whatever a step did, its output is liftable at the same order again. */
  lemma OutputIsLiftable(f: State, x: int)
    requires InWords(f) && Sample(x)
    ensures var g := StoredStep(f, x); InWords(g) && (NextOrder(g, x) == NextOrder(f, x) ==> Liftable(g, x))
  {
    StoredStepExactness(f, x);
    LeastFloor(Wrap32(NextSum(f, x)), NextOrder(f, x));
    hide NextOrder, NextSum, Wrap32, Pow2, ShiftRight;
  }

  lemma LeastFloor(sum: int, o: nat)
    requires FitsS32(sum) && o <= 30
    ensures ShiftRight(sum, o) * Pow2(o) >= -TWO31
  {
    var q := ShiftRight(sum, o);
    FloorIs(q, sum, o);
    hide Pow2, ShiftRight;
    Pow2Add(31 - o, o);
    Pow2Values();
    FloorOfWord(q, sum, Pow2(31 - o), Pow2(o));
  }

  lemma FloorOfWord(q: int, sum: int, n: int, p: int)
    requires sum >= -TWO31 && sum < (q + 1) * p && n * p == TWO31 && p > 0
    ensures q * p >= -TWO31
  {
    assert -n * p == -(n * p);
    if q < -n {
      MulLe(q + 1, -n, p);
    }
    MulLe(-n, Max(q, -n), p);
  }

  /** Below the sample the order follows the warm-up and can only rise. */
  lemma RisingOrder(f: State, x: int)
    requires InWords(f) && Sample(x) && f.n > 0 && f.yPrev < x && StoredStep(f, x).yPrev < x
    ensures InWords(StoredStep(f, x)) && NextOrder(StoredStep(f, x), x) >= NextOrder(f, x)
  {
    StoredStepExactness(f, x);
    WarmOrderRises(f, StoredStep(f, x));
    hide WarmOrder, Pow2, ShiftRight, Order, Coherent;
  }

  /** From below, the sample or an output above it is reached: the sum leaves 32 bits at most once at each order. */
  lemma {:induction false} Rises(f: State, x: int) returns (k: nat)
    requires InWords(f) && Sample(x) && f.n > 0 && f.yPrev < x
    ensures StoredFeed(f, x, k).yPrev >= x && StoredFeed(f, x, k).n > 0
    decreases 30 - NextOrder(f, x), if Liftable(f, x) then 0 else 1, Abs(x - f.yPrev), Slack(f, x)
  {
    var g := StoredStep(f, x);
    StoredStepExactness(f, x);
    if g.yPrev >= x {
      return 1;
    }
    RisingOrder(f, x);
    OutputIsLiftable(f, x);
    if Liftable(f, x) {
      RiseStep(f, x);
      if g.yPrev == f.yPrev && NextOrder(g, x) == NextOrder(f, x) {
        SlackFalls(f, x);
      }
    }
    hide Step, StoredStep, NextOrder, Slack;
    k := Rises(g, x);
    k := k + 1;
  }

  // ----- Settling -----

  lemma {:induction false} StoredFeedAdds(f: State, x: int, k: nat, m: nat)
    requires InWords(f) && Sample(x)
    ensures StoredFeed(f, x, k + m) == StoredFeed(StoredFeed(f, x, k), x, m)
    decreases k
  {
    hide StoredStep, Coherent, Sample;
    if k > 0 {
      StoredStepExactness(f, x);
      StoredFeedAdds(StoredStep(f, x), x, k - 1, m);
    }
  }

  /** Settled once is settled for ever. */
  lemma SettledOnce(f: State, x: int, k: nat)
    requires InWords(f) && Sample(x) && Settled(StoredFeed(f, x, k), x)
    ensures StoredSettlesBy(f, x, k)
  {
    hide StoredFeed, Coherent, Settled;
    forall m: nat | m >= k
      ensures Settled(StoredFeed(f, x, m), x)
    {
      StoredFeedAdds(f, x, k, m - k);
      SettledStays(StoredFeed(f, x, k), x, m - k);
    }
  }

  /** From the sample or above, where falls are safe. */
  lemma FallSettles(f: State, x: int) returns (k: nat)
    requires InWords(f) && Sample(x) && f.n > 0 && f.yPrev >= x && DescentSafe(f.s, x)
    ensures Settled(StoredFeed(f, x, k), x)
  {
    k := Reaches(f, x);
    FallIsExact(f, x, k);
  }

  /** The first sample is the output. */
  lemma FirstOutput(f: State, x: int)
    requires InWords(f) && Sample(x) && f.n == 0
    ensures StoredStep(f, x) == Step(f, x) && Settled(StoredStep(f, x), x)
            && StoredStep(f, x).ySum == x * Pow2(NextOrder(f, x))
  {
    var o := NextOrder(f, x);
    assert NextSum(f, x) == x * Pow2(o);
    FloorIs(x, x * Pow2(o), o);
    FloorFits(x, x * Pow2(o), o);
    StoredStepExactness(f, x);
  }

  /** In 32-bit words, from every state the program can be in, a constant input is reached exactly after finitely
      many calls and kept for ever, if no fall towards it can overflow. */
  lemma ConstantSettlesInWords(f: State, x: int)
    requires InWords(f) && Sample(x) && DescentSafe(f.s, x)
    ensures StoredSettles(f, x)
  {
    hide Step, StoredStep, DescentSafe, Sample;
    var i, g := 0, f;
    if f.n == 0 {
      FirstOutput(f, x);
      i, g := 1, StoredFeed(f, x, 1);
      assert g == StoredStep(f, x) by { assert StoredFeed(StoredStep(f, x), x, 0) == StoredStep(f, x); }
    }
    var j, h := 0, g;
    if g.yPrev < x {
      j := Rises(g, x);
      h := StoredFeed(g, x, j);
    }
    var k := FallSettles(h, x);
    hide StoredFeed, Settled, Coherent;
    StoredFeedAdds(g, x, j, k);
    StoredFeedAdds(f, x, i, j + k);
    SettledOnce(f, x, i + j + k);
  }

  /** Samples down to -2^31 / 2^s, all non-negative ones among them, make safe falls. */
  lemma DescentSafeFor(s: nat, x: int)
    requires s <= 30 && x * Pow2(s) >= -TWO31
    ensures DescentSafe(s, x)
  {
    forall o: nat | 1 <= o <= s
      ensures -x < Pow2(o) + Pow2(31 - o)
    {
      SafeAt(s, x, o);
    }
  }

  lemma SafeAt(s: nat, x: int, o: nat)
    requires o <= s <= 30 && x * Pow2(s) >= -TWO31
    ensures -x < Pow2(o) + Pow2(31 - o)
  {
    Pow2Add(31 - o, o);
    Pow2Values();
    Pow2Monotone(o, s);
    hide Pow2;
    SafeProduct(Pow2(31 - o), Pow2(o), Pow2(s), x);
  }

  lemma SafeProduct(q: int, t: int, p: int, x: int)
    requires q >= 1 && 1 <= t <= p && q * t == TWO31 && x * p >= -TWO31
    ensures -x < t + q
  {
    assert -x * p == -(x * p) && (q + 1) * t == q * t + t;
    MulLe(t, p, q + 1);
    if -x > q {
      MulLe(q + 1, -x, p);
    }
  }

  /** The two orders the program configures: the offset filter makes safe falls to every sample below a second,
      the delay filter exactly down to -2^25 - 63 ns. */
  lemma ConfiguredDescents(x: int)
    requires -1_000_000_000 < x < 1_000_000_000
    ensures DescentSafe(1, x)
    ensures DescentSafe(6, x) <==> x >= -0x200_003F
  {
    Pow2Values();
    assert Pow2(1) == 2 && Pow2(2) == 4 && Pow2(3) == 8 && Pow2(4) == 16 && Pow2(5) == 32 && Pow2(6) == 64;
    Halves();
  }

  lemma Halves()
    ensures Pow2(30) == 0x4000_0000 && Pow2(29) == 0x2000_0000 && Pow2(28) == 0x1000_0000
    ensures Pow2(27) == 0x800_0000 && Pow2(26) == 0x400_0000 && Pow2(25) == 0x200_0000
  {
    Pow2Values();
    assert Pow2(30) == 2 * Pow2(29) && Pow2(29) == 2 * Pow2(28) && Pow2(28) == 2 * Pow2(27);
    assert Pow2(27) == 2 * Pow2(26) && Pow2(26) == 2 * Pow2(25);
  }

  /** So the configured filters settle, in words and from every state, on these constants. */
  lemma ConfiguredConstantsSettle(f: State, x: int)
    requires InWords(f) && -1_000_000_000 < x < 1_000_000_000
    requires f.s == 1 || (f.s == 6 && x >= -0x200_003F)
    ensures StoredSettles(f, x)
  {
    ConfiguredDescents(x);
    hide DescentSafe, StoredSettles, Coherent;
    ConstantSettlesInWords(f, x);
  }

  // ----- When it does not -----

  /** From some call on, no sum leaves 32 bits. */
  ghost predicate StaysInWords(f: State, x: int)
    requires InWords(f) && Sample(x)
  {
    exists k: nat :: FitsFrom(f, x, k)
  }

  ghost predicate FitsFrom(f: State, x: int, k: nat)
    requires InWords(f) && Sample(x)
  {
    forall m: nat :: m >= k ==> FitsS32(NextSum(StoredFeed(f, x, m), x))
  }

  /** For every sample and from every state: the filter settles exactly when it overflows finitely often. */
  lemma SettlesExactlyWhen(f: State, x: int)
    requires InWords(f) && Sample(x)
    ensures StoredSettles(f, x) <==> StaysInWords(f, x)
  {
    hide NextSum, Step, StoredStep, Sample, Coherent;
    if StoredSettles(f, x) {
      var k: nat :| StoredSettlesBy(f, x, k);
      forall m: nat | m >= k
        ensures FitsS32(NextSum(StoredFeed(f, x, m), x))
      {
        SettledStep(StoredFeed(f, x, m), x);
      }
      assert FitsFrom(f, x, k);
    }
    if StaysInWords(f, x) {
      var k: nat :| FitsFrom(f, x, k);
      FittingSettles(f, x, k);
    }
  }

  lemma FittingSettles(f: State, x: int, k: nat)
    requires InWords(f) && Sample(x) && FitsFrom(f, x, k)
    ensures StoredSettles(f, x)
  {
    hide NextSum, Step, StoredStep, Sample, Coherent, StoredFeed, Settled;
    var g := StoredFeed(f, x, k + 1);
    CallCounts(f, x, k);
    var j := Reaches(g, x);
    forall m: nat
      ensures FitsS32(NextSum(StoredFeed(g, x, m), x))
    {
      StoredFeedAdds(f, x, k + 1, m);
    }
    FittingIsExact(g, x, j);
    StoredFeedAdds(f, x, k + 1, j);
    SettledOnce(f, x, k + 1 + j);
  }

  lemma CallCounts(f: State, x: int, k: nat)
    requires InWords(f) && Sample(x)
    ensures StoredFeed(f, x, k + 1).n > 0
    decreases k
  {
    StoredStepExactness(f, x);
    if k > 0 {
      CallCounts(StoredStep(f, x), x, k - 1);
    } else {
      assert StoredFeed(StoredStep(f, x), x, 0) == StoredStep(f, x);
      Pow2Monotone(0, f.s);
    }
  }

  lemma {:induction false} FittingIsExact(f: State, x: int, j: nat)
    requires InWords(f) && Sample(x)
    requires forall m: nat :: FitsS32(NextSum(StoredFeed(f, x, m), x))
    ensures StoredFeed(f, x, j) == Feed(f, x, j)
    decreases j
  {
    hide NextSum, Step, StoredStep, Sample;
    if j > 0 {
      StoredStepExactness(f, x);
      assert StoredFeed(f, x, 0) == f;
      var g := StoredStep(f, x);
      forall m: nat
        ensures FitsS32(NextSum(StoredFeed(g, x, m), x))
      {
        assert StoredFeed(f, x, m + 1) == StoredFeed(g, x, m);
      }
      FittingIsExact(g, x, j - 1);
    }
  }

  // ----- A sample that is never reached -----

  const NEVER: int := -864_562_916

  /** A state of the delay filter after its warm-up, with the output that goes with its sum. */
  function Warm(sum: int): State { State(sum / 64, sum, 6, 6, 64) }

  /** The five sums the delay filter goes round, the last step by wrapping. */
  predicate OnCycle(sum: int) {
    sum in {1_388_594_288, 502_334_587, -370_077_306, -1_228_857_764, -2_074_219_777}
  }

  lemma WarmStep(sum: int, x: int)
    requires FitsS32(sum) && Sample(x) && x <= sum / 64 && -0x200_0000 < sum / 64 < 0x200_0000
    ensures InWords(Warm(sum)) && StoredStep(Warm(sum), x) == Warm(Wrap32(sum + x - sum / 64))
  {
    var f := Warm(sum);
    assert Pow2(6) == 64 && Pow2(0) == 1;
    SmallOrder(sum / 64);
    hide Order;
    assert NextOrder(f, x) == 6;
    assert Rescale(sum, 6, 6) == sum;
  }

  lemma SmallOrder(n: int)
    requires -0x200_0000 < n < 0x200_0000
    ensures Order(n) <= 24
  {
    Halves();
    if n != 0 && Order(n) > 24 {
      Pow2Monotone(25, Order(n));
    }
  }

  /** The next sum. */
  function Turn(sum: int): int { Wrap32(sum + NEVER - sum / 64) }

  lemma Turns()
    ensures Turn(1_388_594_288) == 502_334_587 && Turn(502_334_587) == -370_077_306
    ensures Turn(-370_077_306) == -1_228_857_764 && Turn(-1_228_857_764) == -2_074_219_777
    ensures Turn(-2_074_219_777) == 1_388_594_288
  {
  }

  lemma CycleStep(sum: int)
    requires OnCycle(sum)
    ensures InWords(Warm(sum)) && StoredStep(Warm(sum), NEVER) == Warm(Turn(sum))
    ensures OnCycle(Turn(sum)) && !Settled(Warm(sum), NEVER)
  {
    WarmStep(sum, NEVER);
    Turns();
    hide StoredStep, Coherent;
  }

  lemma FeedOnce(f: State, x: int, k: nat)
    requires InWords(f) && Sample(x)
    ensures InWords(StoredStep(f, x)) && StoredFeed(f, x, k + 1) == StoredFeed(StoredStep(f, x), x, k)
  {
    StoredStepExactness(f, x);
    hide StoredStep, Coherent;
  }

  lemma {:induction false} StaysOnCycle(sum: int, k: nat) returns (end: int)
    requires OnCycle(sum)
    ensures InWords(Warm(sum)) && OnCycle(end) && StoredFeed(Warm(sum), NEVER, k) == Warm(end)
    decreases k
  {
    hide *;
    CycleStep(sum);
    NoFeed(sum);
    end := sum;
    if k > 0 {
      end := StaysOnCycle(Turn(sum), k - 1);
      Feeds(sum, k - 1);
    }
  }

  /** Five calls bring the delay filter back to where it was, so that it never outputs this sample: as the guard
      looks at the larger of output and sample, falls of this size overflow at the full order. */
  lemma NegativeConstantCycles(k: nat)
    ensures InWords(Warm(1_388_594_288)) && Sample(NEVER)
    ensures !Settled(StoredFeed(Warm(1_388_594_288), NEVER, k), NEVER)
    ensures StoredFeed(Warm(1_388_594_288), NEVER, 5) == Warm(1_388_594_288)
  {
    var end := StaysOnCycle(1_388_594_288, k);
    CycleStep(end);
    hide StoredStep, StoredFeed, OnCycle, Coherent, Warm, Turn;
    FiveSteps();
  }

  lemma FiveSteps()
    ensures InWords(Warm(1_388_594_288)) && StoredFeed(Warm(1_388_594_288), NEVER, 5) == Warm(1_388_594_288)
  {
    assert OnCycle(1_388_594_288) && OnCycle(502_334_587) && OnCycle(-370_077_306);
    assert OnCycle(-1_228_857_764) && OnCycle(-2_074_219_777);
    hide *;
    Turns();
    Feeds(1_388_594_288, 4);
    Feeds(502_334_587, 3);
    Feeds(-370_077_306, 2);
    Feeds(-1_228_857_764, 1);
    Feeds(-2_074_219_777, 0);
    NoFeed(1_388_594_288);
  }

  lemma Feeds(sum: int, k: nat)
    requires OnCycle(sum)
    ensures InWords(Warm(sum)) && InWords(Warm(Turn(sum)))
    ensures StoredFeed(Warm(sum), NEVER, k + 1) == StoredFeed(Warm(Turn(sum)), NEVER, k)
  {
    CycleStep(sum);
    CycleStep(Turn(sum));
    hide StoredStep, StoredFeed, OnCycle, Coherent, Warm, Turn;
    FeedOnce(Warm(sum), NEVER, k);
  }

  lemma NoFeed(sum: int)
    requires InWords(Warm(sum))
    ensures StoredFeed(Warm(sum), NEVER, 0) == Warm(sum)
  {
  }
}
