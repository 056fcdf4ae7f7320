/** The exponential smoother of servo.c: one step, in exact integers and in 32-bit words. */
module Filter {
  import opened Words
  import Arith

  /** The contents of a `filter_t`; everything but `s` is dead until the first sample, when `n` is 0. */
  datatype State = State(yPrev: int, ySum: int, s: nat, sPrev: nat, n: nat)

  /** Samples are 32-bit words other than the one whose magnitude is not a word. */
  predicate Sample(x: int) { -TWO31 < x < TWO31 }

  /** What every call keeps: the output is the floor of the sum at its own order. */
  predicate Coherent(f: State) {
    && f.s <= 30 && f.n <= Pow2(f.s)
    && (f.n > 0 ==> f.sPrev <= f.s && Sample(f.yPrev) && f.yPrev == ShiftRight(f.ySum, f.sPrev))
  }

  /** Coherent, and the sum is a word: the states the program itself can be in. */
  predicate InWords(f: State) { Coherent(f) && (f.n > 0 ==> FitsS32(f.ySum)) }

  /** The order of a number: the logarithm of its magnitude, 0 for 0. */
  function Order(n: int): nat { if n == 0 then 0 else FloorLog(Abs(n)) }

  lemma OrderBound(n: int)
    requires Sample(n)
    ensures Order(n) <= 30 && Abs(n) < Pow2(Order(n) + 1)
  {
    Pow2Values();
    if n != 0 && Order(n) > 30 {
      Pow2Monotone(31, Order(n));
    }
  }

  /** The first sample becomes the output, at order 0. */
  function Primed(f: State, x: int): State {
    if f.n == 0 then f.(yPrev := x, ySum := x, sPrev := 0) else f
  }

  /** The order the number of samples allows: lower while the filter warms up. */
  function WarmOrder(f: State): nat {
    if Pow2(f.s) > f.n + 1 then Order(f.n + 1) else f.s
  }

  /** The sample count after one more, held at 2^s. */
  function NextCount(f: State): nat { Min(f.n + 1, Pow2(f.s)) }

  lemma WarmOrderBound(f: State)
    ensures WarmOrder(f) <= f.s
  {
    if Pow2(f.s) > f.n + 1 && WarmOrder(f) > f.s {
      Pow2Monotone(f.s, WarmOrder(f));
    }
  }

  /** The order of the next step: the warm-up order, lowered where a sum at it might not fit a word. */
  function NextOrder(f: State, x: int): (o: nat)
    requires Coherent(f) && Sample(x)
    ensures o <= f.s && o <= WarmOrder(f) && o + Order(Max(Primed(f, x).yPrev, x)) <= 30
  {
    OrderBound(Max(Primed(f, x).yPrev, x));
    WarmOrderBound(f);
    Min(WarmOrder(f), 30 - Order(Max(Primed(f, x).yPrev, x)))
  }

  /** The sum moved from one order to another; moving down drops the low bits. */
  function Rescale(sum: int, from: nat, to: nat): int {
    if from > to then ShiftRight(sum, from - to) else sum * Pow2(to - from)
  }

  function RescaledSum(f: State, x: int): int
    requires Coherent(f) && Sample(x)
  {
    Rescale(Primed(f, x).ySum, Primed(f, x).sPrev, NextOrder(f, x))
  }

  /** `q` is the floor of `sum` at order `k`. */
  predicate IsFloor(q: int, sum: int, k: nat) { q * Pow2(k) <= sum < (q + 1) * Pow2(k) }

  lemma FloorIs(q: int, sum: int, k: nat)
    ensures IsFloor(q, sum, k) <==> q == ShiftRight(sum, k)
  {
    QuotientIs(q, sum, Pow2(k));
  }

  lemma QuotientIs(q: int, x: int, m: int)
    requires m > 0
    ensures q * m <= x < (q + 1) * m <==> q == x / m
  {
    if q * m <= x < (q + 1) * m {
      DivUnique(x, m, q);
    }
  }

  lemma QuotientBetween(x: int, m: int, lo: int, hi: int)
    requires m > 0 && lo * m <= x < (hi + 1) * m
    ensures lo <= x / m <= hi
  {
    var q := x / m;
    QuotientIs(q, x, m);
    if q < lo {
      MulLe(q + 1, lo, m);
    }
    if q > hi {
      MulLe(hi + 1, q, m);
    }
  }

  /** Changing the order does not change the floor, even where bits are dropped. */
  lemma RescaleKeepsFloor(sum: int, from: nat, to: nat)
    ensures ShiftRight(Rescale(sum, from, to), to) == ShiftRight(sum, from)
  {
    var y := ShiftRight(sum, from);
    FloorIs(y, sum, from);
    if from > to {
      Pow2Add(to, from - to);
      ScaleDown(y, sum, Pow2(to), Pow2(from - to));
    } else {
      Pow2Add(from, to - from);
      ScaleUp(y, sum, Pow2(from), Pow2(to - from));
    }
    FloorIs(y, Rescale(sum, from, to), to);
  }

  lemma ScaleDown(y: int, sum: int, p: int, k: int)
    requires p > 0 && k > 0 && y * (p * k) <= sum < (y + 1) * (p * k)
    ensures y * p <= sum / k < (y + 1) * p
  {
    MulAssociates(y, p, k);
    MulAssociates(y + 1, p, k);
    assert (y + 1) * p == (y + 1) * p - 1 + 1;
    QuotientBetween(sum, k, y * p, (y + 1) * p - 1);
  }

  lemma ScaleUp(y: int, sum: int, p: int, k: int)
    requires p > 0 && k > 0 && y * p <= sum < (y + 1) * p
    ensures y * (p * k) <= sum * k < (y + 1) * (p * k)
  {
    MulLe(y * p, sum, k);
    MulLe(sum + 1, (y + 1) * p, k);
    MulAssociates(y, p, k);
    MulAssociates(y + 1, p, k);
  }

  /** Adding the difference between sample and output moves the floor towards the sample, never past it. */
  lemma FloorMovesToward(sum: int, y: int, x: int, k: nat)
    requires y == ShiftRight(sum, k)
    ensures Min(y, x) <= ShiftRight(sum + x - y, k) <= Max(y, x)
  {
    var p := Pow2(k);
    FloorIs(y, sum, k);
    if x >= y {
      MulLe(x - y, (x - y) * p, 1) by { MulLe(1, p, x - y); }
      assert (x + 1) * p == (y + 1) * p + (x - y) * p;
    } else {
      MulLe(y - x, (y - x) * p, 1) by { MulLe(1, p, y - x); }
      assert x * p == y * p - (y - x) * p;
    }
    QuotientBetween(sum + x - y, p, Min(y, x), Max(y, x));
  }

  /** The sum after the step, in exact integers. */
  function NextSum(f: State, x: int): int
    requires Coherent(f) && Sample(x)
  {
    RescaledSum(f, x) + (x - Primed(f, x).yPrev)
  }

  /** One step in exact integers. */
  function Step(f: State, x: int): (f': State)
    requires Coherent(f) && Sample(x)
    ensures Coherent(f') && f'.s == f.s && f'.n == NextCount(f) >= 1
    ensures Min(Primed(f, x).yPrev, x) <= f'.yPrev <= Max(Primed(f, x).yPrev, x)
  {
    NextFloor(f, x);
    State(ShiftRight(NextSum(f, x), NextOrder(f, x)), NextSum(f, x), f.s, NextOrder(f, x), NextCount(f))
  }

  /** The floor of the new sum lies between the last output and the sample. */
  lemma NextFloor(f: State, x: int)
    requires Coherent(f) && Sample(x)
    ensures var p := Primed(f, x);
            Min(p.yPrev, x) <= ShiftRight(NextSum(f, x), NextOrder(f, x)) <= Max(p.yPrev, x)
  {
    PrimedIsFloor(f, x);
    hide Coherent, Primed, NextOrder, ShiftRight, Rescale, Pow2, Sample;
    var p, o := Primed(f, x), NextOrder(f, x);
    RescaleKeepsFloor(p.ySum, p.sPrev, o);
    FloorMovesToward(RescaledSum(f, x), p.yPrev, x, o);
  }

  lemma PrimedIsFloor(f: State, x: int)
    requires Coherent(f)
    ensures Primed(f, x).yPrev == ShiftRight(Primed(f, x).ySum, Primed(f, x).sPrev)
  {
    assert Pow2(0) == 1;
    hide NextOrder;
  }

  /** None of the three 32-bit computations of a step overflows. */
  predicate NoOverflow(f: State, x: int)
    requires Coherent(f) && Sample(x)
  {
    FitsS32(RescaledSum(f, x)) && FitsS32(x - Primed(f, x).yPrev) && FitsS32(NextSum(f, x))
  }

  /** One step in 32-bit words: the sum wraps, the output is its floor. */
  function StoredStep(f: State, x: int): State
    requires InWords(f) && Sample(x)
  {
    var sum := Wrap32(NextSum(f, x));
    State(ShiftRight(sum, NextOrder(f, x)), sum, f.s, NextOrder(f, x), NextCount(f))
  }

  /** The stored step stays coherent whatever happens, and is the exact one when the exact sum is a word. */
  lemma StoredStepExactness(f: State, x: int)
    requires InWords(f) && Sample(x)
    ensures InWords(StoredStep(f, x))
    ensures StoredStep(f, x) == Step(f, x) <==> FitsS32(NextSum(f, x))
  {
    Pow2Monotone(0, f.s);
    var o, sum := NextOrder(f, x), Wrap32(NextSum(f, x));
    if o == 0 {
      RescaleKeepsFloor(Primed(f, x).ySum, Primed(f, x).sPrev, 0);
      assert NextSum(f, x) == x;
    } else {
      HalfOfWord(sum, o);
    }
  }

  lemma HalfOfWord(sum: int, k: nat)
    requires FitsS32(sum) && k > 0
    ensures Sample(ShiftRight(sum, k))
  {
    Pow2Monotone(1, k);
    MulLe(2, Pow2(k), TWO31 - 1);
    QuotientBetween(sum, Pow2(k), -TWO31 + 1, TWO31 - 1);
  }

  lemma NextOrderIs(f: State, x: int)
    requires Coherent(f) && Sample(x)
    ensures NextOrder(f, x) == Min(if Pow2(f.s) > f.n + 1 then Order(f.n + 1) else f.s,
                                   30 - Order(Max(Primed(f, x).yPrev, x)))
  {
  }

  /** A `filter_t`, updated in place. */
  class Smoother {
    var yPrev: int
    var ySum: int
    var s: nat
    var sPrev: nat
    var n: nat

    constructor (order: nat)
      ensures Get() == State(0, 0, order, 0, 0)
    {
      yPrev, ySum, s, sPrev, n := 0, 0, order, 0, 0;
    }

    function Get(): State
      reads this
    {
      State(yPrev, ySum, s, sPrev, n)
    }

    /** The order for a new sample, after `n` has counted it; holds `n` at 2^s. */
    method ChooseOrder(x: int) returns (order: nat)
      requires s <= 30 && 1 <= n <= Pow2(s) + 1 && Sample(yPrev) && Sample(x)
      modifies this`n
      ensures n == Min(old(n), Pow2(s))
      ensures order == Min(if Pow2(s) > old(n) then Order(old(n)) else s, 30 - Order(Max(yPrev, x)))
    {
      order := s;
      Pow2Monotone(s, 30);
      Pow2Values();
      if Pow2(s) > n {
        order := OrderOf(n);
      } else {
        n := Pow2(s);
      }
      OrderBound(Max(yPrev, x));
      var o := OrderOf(Max(yPrev, x));
      order := Min(order, 30 - o);
    }

    /** Moves the sum to another order, in place. */
    method ChangeOrder(order: nat)
      requires FitsS32(ySum)
      modifies this`ySum
      ensures ySum == Wrap32(Rescale(old(ySum), sPrev, order))
    {
      if sPrev > order {
        QuotientBetween(ySum, Pow2(sPrev - order), -TWO31, TWO31 - 1) by {
          MulLe(1, Pow2(sPrev - order), TWO31);
        }
        ySum := ShiftRight(ySum, sPrev - order);
      } else if sPrev < order {
        ySum := Wrap32(ySum * Pow2(order - sPrev));
      }
    }

    /** Takes a sample and returns the smoothed value. */
    method Filter(x: int) returns (y: int)
      requires InWords(Get()) && Sample(x)
      modifies this
      ensures Get() == StoredStep(old(Get()), x) && InWords(Get()) && y == yPrev
    {
      ghost var was := Get();
      StoredStepExactness(was, x);
      NextOrderIs(was, x);
      assert FitsS32(ySum) || n == 0;
      hide NextOrder, WarmOrder, Order, Wrap32, ShiftRight, Rescale, Pow2, InWords;
      n := n + 1;
      if n == 1 {
        yPrev, ySum, sPrev := x, x, 0;
      }
      var order := ChooseOrder(x);
      assert order == NextOrder(was, x);
      hide Sample, Min, Max;
      ChangeOrder(order);
      WrapOfSum(RescaledSum(was, x), x - yPrev);
      ySum := Wrap32(ySum + Wrap32(x - yPrev));
      yPrev := ShiftRight(ySum, order);
      sPrev := order;
      y := yPrev;
    }
  }

  /** The order of a number, as the program computes it from its magnitude. */
  method OrderOf(n: int) returns (o: nat)
    requires Sample(n)
    ensures o == Order(n)
  {
    var magnitude := if n < 0 then -n else n;
    if magnitude == 0 {
      return 0;
    }
    o := Arith.FloorLog2(magnitude);
  }
}
