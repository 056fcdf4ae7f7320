/** Signed (seconds, nanoseconds) time and the integer logarithm of arith.c. */
module Arith {
  import opened Words

  const BILLION: int := 1_000_000_000

  /** The nanosecond span of the wrap-around of a 32-bit seconds field. */
  const SPAN: int := TWO32 * BILLION

  /** The contents of a `timeInternal_t`. */
  datatype Time = Time(seconds: int, nanoseconds: int)

  /** The duration in nanoseconds that a pair denotes. */
  function Nanos(t: Time): int { t.seconds * BILLION + t.nanoseconds }

  /** Less than a second of nanoseconds, and both parts of the same sign. */
  predicate Canonical(t: Time) {
    && -BILLION < t.nanoseconds < BILLION
    && (t.seconds > 0 ==> t.nanoseconds >= 0)
    && (t.seconds < 0 ==> t.nanoseconds <= 0)
  }

  /** Two fields of 32 bits: what every function below reads, a time received from the wire among them. */
  predicate InFields(t: Time) { FitsS32(t.seconds) && FitsS32(t.nanoseconds) }

  /** Canonical, with a seconds field of 32 bits: what every function below leaves. */
  predicate WellFormed(t: Time) { Canonical(t) && FitsS32(t.seconds) }

  /** The pair for a duration, by truncation toward zero. */
  function FromNanos(v: int): (t: Time) { Time(Quot(v, BILLION), Rem(v, BILLION)) }

  /** A duration whose seconds fit the 32-bit field. */
  predicate Representable(v: int) { FitsS32(Quot(v, BILLION)) }

  /** What is left of a duration once its seconds field has wrapped at most once. */
  function Stored(v: int): int {
    if Representable(v) then v else if v > 0 then v - SPAN else v + SPAN
  }

  /** Exactly one canonical pair denotes each duration. */
  lemma CanonicalIsUnique(t: Time, v: int)
    ensures Canonical(t) && Nanos(t) == v <==> t == FromNanos(v)
  {
    if Canonical(t) && Nanos(t) == v {
      if v >= 0 {
        assert t.seconds >= 0;
        DivUnique(v, BILLION, t.seconds);
      } else {
        assert t.seconds <= 0;
        DivUnique(-v, BILLION, -t.seconds);
      }
    }
  }

  /** The stored pair for the duration two fields denote. */
  function Normalized(t: Time): Time { FromNanos(Stored(Nanos(t))) }

  /** What `AddTime` leaves: both fields wrap, then the pair is normalised. */
  function Sum(x: Time, y: Time): Time {
    Normalized(Time(Wrap32(x.seconds + y.seconds), Wrap32(x.nanoseconds + y.nanoseconds)))
  }

  /** What `SubTime` leaves. */
  function Difference(x: Time, y: Time): Time {
    Normalized(Time(Wrap32(x.seconds - y.seconds), Wrap32(x.nanoseconds - y.nanoseconds)))
  }

  lemma NormalizedIsWellFormed(t: Time)
    requires InFields(t)
    ensures WellFormed(Normalized(t)) && Nanos(Normalized(t)) == Stored(Nanos(t))
  {
    CanonicalIsUnique(Normalized(t), Stored(Nanos(t)));
  }

  /** Whatever the fields hold, sums and differences are canonical. */
  lemma ResultsAreWellFormed(x: Time, y: Time)
    requires InFields(x) && InFields(y)
    ensures WellFormed(Sum(x, y)) && WellFormed(Difference(x, y))
  {
    hide Normalized, WellFormed, Wrap32;
    NormalizedIsWellFormed(Time(Wrap32(x.seconds + y.seconds), Wrap32(x.nanoseconds + y.nanoseconds)));
    NormalizedIsWellFormed(Time(Wrap32(x.seconds - y.seconds), Wrap32(x.nanoseconds - y.nanoseconds)));
  }

  /** A difference of canonical times: seconds that differ by 2^31 wrap even where a borrow would bring them back. */
  function StoredDifference(x: Time, y: Time): int {
    var v := Nanos(x) - Nanos(y);
    if x.seconds - y.seconds == TWO31 then v - SPAN else Stored(v)
  }

  class TimeInternal {
    var seconds: int
    var nanoseconds: int

    constructor (s: int, ns: int)
      ensures Get() == Time(s, ns)
    {
      seconds, nanoseconds := s, ns;
    }

    function Get(): Time
      reads this
    {
      Time(seconds, nanoseconds)
    }

    /** Assignment between two structures. */
    method Set(t: Time)
      modifies this
      ensures Get() == t
    {
      seconds, nanoseconds := t.seconds, t.nanoseconds;
    }

    /** Carries whole seconds out of the nanoseconds, then makes the signs agree. */
    method NormalizeTime()
      requires InFields(Get())
      modifies this
      ensures Get() == Normalized(old(Get())) && WellFormed(Get()) && InFields(Get())
    {
      ghost var v := Nanos(Get());
      NormalizedIsWellFormed(Get());
      var carry := Quot(nanoseconds, BILLION);
      CarryWraps(Get());
      hide Quot, Stored, Wrap32;
      seconds := Wrap32(seconds + carry);
      nanoseconds := nanoseconds - carry * BILLION;
      if seconds > 0 && nanoseconds < 0 {
        seconds := seconds - 1;
        nanoseconds := nanoseconds + BILLION;
      } else if seconds < 0 && nanoseconds > 0 {
        seconds := seconds + 1;
        nanoseconds := nanoseconds - BILLION;
      }
      CanonicalIsUnique(Get(), Stored(v));
    }
  }

  /** Carrying leaves less than a second, and wraps exactly where the duration is not representable. */
  lemma CarryWraps(t: Time)
    requires InFields(t)
    ensures var carry := Quot(t.nanoseconds, BILLION);
            -BILLION < t.nanoseconds - carry * BILLION < BILLION &&
            Wrap32(t.seconds + carry) * BILLION + (t.nanoseconds - carry * BILLION) == Stored(Nanos(t))
  {
  }

  /** Canonical operands: the nanoseconds do not wrap, and wrapped seconds make up for a whole span. */
  lemma SumOfCanonical(x: Time, y: Time)
    requires WellFormed(x) && WellFormed(y)
    ensures Sum(x, y) == FromNanos(Stored(Nanos(x) + Nanos(y)))
  {
    var s, ns := x.seconds + y.seconds, x.nanoseconds + y.nanoseconds;
    assert s >= TWO31 ==> ns >= 0;
    assert s < -TWO31 ==> ns <= 0;
    assert Stored(Nanos(Time(Wrap32(s), ns))) == Stored(Nanos(x) + Nanos(y));
    hide FromNanos, Stored;
  }

  /** `r` may be the same structure as `x` or `y`. */
  method AddTime(r: TimeInternal, x: TimeInternal, y: TimeInternal)
    requires InFields(x.Get()) && InFields(y.Get())
    modifies r
    ensures r.Get() == old(Sum(x.Get(), y.Get())) && WellFormed(r.Get()) && InFields(r.Get())
  {
    hide Normalized, Wrap32;
    r.seconds := Wrap32(x.seconds + y.seconds);
    r.nanoseconds := Wrap32(x.nanoseconds + y.nanoseconds);
    r.NormalizeTime();
  }

  lemma DifferenceOfCanonical(x: Time, y: Time)
    requires WellFormed(x) && WellFormed(y)
    ensures Difference(x, y) == FromNanos(StoredDifference(x, y))
  {
    var s, ns := x.seconds - y.seconds, x.nanoseconds - y.nanoseconds;
    assert s > TWO31 ==> ns >= 0;
    assert s < -TWO31 ==> ns <= 0;
    assert Stored(Nanos(Time(Wrap32(s), ns))) == StoredDifference(x, y);
    hide FromNanos, Stored, StoredDifference;
  }

  /** `r` may be the same structure as `x` or `y`. */
  method SubTime(r: TimeInternal, x: TimeInternal, y: TimeInternal)
    requires InFields(x.Get()) && InFields(y.Get())
    modifies r
    ensures r.Get() == old(Difference(x.Get(), y.Get())) && WellFormed(r.Get()) && InFields(r.Get())
  {
    hide Normalized, Wrap32;
    r.seconds := Wrap32(x.seconds - y.seconds);
    r.nanoseconds := Wrap32(x.nanoseconds - y.nanoseconds);
    r.NormalizeTime();
  }

  lemma HalfOfSum(k: int, n: int)
    requires (k >= 0 && n >= 0) || (k <= 0 && n <= 0)
    ensures Quot(2 * k + n, 2) == k + Quot(n, 2)
  {
  }

  /** Halving, truncated toward zero; never overflows. */
  method Div2Time(r: TimeInternal)
    requires WellFormed(r.Get())
    modifies r
    ensures r.Get() == FromNanos(Quot(old(Nanos(r.Get())), 2)) && WellFormed(r.Get())
  {
    ghost var v := Nanos(r.Get());
    r.nanoseconds := r.nanoseconds + Rem(r.seconds, 2) * BILLION;
    r.seconds := Quot(r.seconds, 2);
    HalfOfSum(r.seconds * BILLION, r.nanoseconds);
    r.nanoseconds := Quot(r.nanoseconds, 2);
    assert Canonical(r.Get());
    CanonicalIsUnique(r.Get(), Quot(v, 2));
    r.NormalizeTime();
  }

  /** For well-formed operands, sums are exact precisely when the true sum is representable. */
  lemma SumExactness(x: Time, y: Time)
    requires WellFormed(x) && WellFormed(y)
    ensures WellFormed(Sum(x, y))
    ensures Nanos(Sum(x, y)) == Nanos(x) + Nanos(y) <==> Representable(Nanos(x) + Nanos(y))
  {
    SumOfCanonical(x, y);
    CanonicalIsUnique(Sum(x, y), Stored(Nanos(x) + Nanos(y)));
    hide Sum;
  }

  /** For well-formed operands, differences are exact precisely when representable and the seconds do not differ
      by 2^31. */
  lemma DifferenceExactness(x: Time, y: Time)
    requires WellFormed(x) && WellFormed(y)
    ensures WellFormed(Difference(x, y))
    ensures Nanos(Difference(x, y)) == Nanos(x) - Nanos(y)
            <==> Representable(Nanos(x) - Nanos(y)) && x.seconds - y.seconds != TWO31
  {
    DifferenceOfCanonical(x, y);
    CanonicalIsUnique(Difference(x, y), StoredDifference(x, y));
    hide Difference;
    var v := Nanos(x) - Nanos(y);
    assert v == (x.seconds - y.seconds) * BILLION + (x.nanoseconds - y.nanoseconds);
  }

  /** Fields `s` and `ns` before they wrap denote what is stored: the nanoseconds fit, the duration is
      representable, and where the seconds wrap it has no second stored form. */
  predicate StoredAs(s: int, ns: int) {
    var v := s * BILLION + ns;
    && FitsS32(ns) && Representable(v)
    && (s >= TWO31 ==> v <= (TWO31 - 1) * BILLION) && (s < -TWO31 ==> v >= -TWO31 * BILLION)
  }

  lemma FieldsExactness(s: int, ns: int)
    requires -TWO32 <= s < TWO32 && -TWO32 <= ns < TWO32
    ensures Nanos(Normalized(Time(Wrap32(s), Wrap32(ns)))) == s * BILLION + ns <==> StoredAs(s, ns)
  {
    var t := Time(Wrap32(s), Wrap32(ns));
    NormalizedIsWellFormed(t);
    hide Normalized, Wrap32;
    assert Nanos(t) == t.seconds * BILLION + t.nanoseconds;
  }

  /** For any two pairs of 32-bit fields, canonical or not: when a sum is exact. */
  lemma SumExactnessOfFields(x: Time, y: Time)
    requires InFields(x) && InFields(y)
    ensures Nanos(Sum(x, y)) == Nanos(x) + Nanos(y) <==> StoredAs(x.seconds + y.seconds, x.nanoseconds + y.nanoseconds)
  {
    FieldsExactness(x.seconds + y.seconds, x.nanoseconds + y.nanoseconds);
    hide StoredAs, Normalized, Wrap32;
  }

  /** The same for differences. */
  lemma DifferenceExactnessOfFields(x: Time, y: Time)
    requires InFields(x) && InFields(y)
    ensures Nanos(Difference(x, y)) == Nanos(x) - Nanos(y)
            <==> StoredAs(x.seconds - y.seconds, x.nanoseconds - y.nanoseconds)
  {
    FieldsExactness(x.seconds - y.seconds, x.nanoseconds - y.nanoseconds);
    hide StoredAs, Normalized, Wrap32;
  }

  /** No other duration is stored as this one: all but the fractions beyond the outermost whole seconds. */
  predicate HasOneForm(x: Time) {
    !(x.seconds == TWO31 - 1 && x.nanoseconds > 0) && !(x.seconds == -TWO31 && x.nanoseconds < 0)
  }

  lemma SubUndoesAdd(x: Time, y: Time)
    requires WellFormed(x) && WellFormed(y) && HasOneForm(x)
    ensures Difference(Sum(x, y), y) == x
  {
    hide Sum, Difference;
    var r := Sum(x, y);
    SumExactness(x, y);
    SumOfCanonical(x, y);
    CanonicalIsUnique(r, Stored(Nanos(x) + Nanos(y)));
    DifferenceOfCanonical(r, y);
    CanonicalIsUnique(x, Nanos(x));
    assert StoredDifference(r, y) == Nanos(x) by { hide FromNanos; }
  }

  /** Subtracting what was added restores a time, even when the sum has wrapped, exactly when it has one form. */
  lemma SubUndoesAddExactlyWhen(x: Time)
    requires WellFormed(x)
    ensures (forall y: Time | WellFormed(y) :: Difference(Sum(x, y), y) == x) <==> HasOneForm(x)
  {
    if HasOneForm(x) {
      forall y: Time | WellFormed(y)
        ensures Difference(Sum(x, y), y) == x
      {
        SubUndoesAdd(x, y);
      }
    } else if x.seconds > 0 {
      TopIsNotRestored(x);
      assert WellFormed(Time(-TWO31, 0));
    } else {
      BottomIsNotRestored(x);
      assert WellFormed(Time(-1, 0));
    }
  }

  /** A fraction after the last second comes back as one before the first. */
  lemma TopIsNotRestored(x: Time)
    requires WellFormed(x) && x.seconds == TWO31 - 1 && x.nanoseconds > 0
    ensures Difference(Sum(x, Time(-TWO31, 0)), Time(-TWO31, 0)) != x
  {
    var r := Time(0, x.nanoseconds - BILLION);
    CanonicalIsUnique(r, Nanos(x) - TWO31 * BILLION);
    CanonicalIsUnique(Time(-TWO31, x.nanoseconds - BILLION), Nanos(x) - SPAN);
  }

  lemma BottomIsNotRestored(x: Time)
    requires WellFormed(x) && x.seconds == -TWO31 && x.nanoseconds < 0
    ensures Difference(Sum(x, Time(-1, 0)), Time(-1, 0)) != x
  {
    var r := Time(TWO31 - 2, BILLION + x.nanoseconds);
    CanonicalIsUnique(r, Nanos(x) - BILLION + SPAN);
    CanonicalIsUnique(Time(TWO31 - 1, BILLION + x.nanoseconds), Nanos(r) + BILLION);
  }

  /** Addition is commutative, with zero for its unit. */
  lemma SumCommutes(x: Time, y: Time)
    requires WellFormed(x) && WellFormed(y)
    ensures Sum(x, y) == Sum(y, x) && Sum(x, Time(0, 0)) == x
  {
    CanonicalIsUnique(x, Nanos(x));
    assert Stored(Nanos(x)) == Nanos(x);
  }

  /** As long as no sum overflows, addition is associative. */
  lemma SumAssociates(x: Time, y: Time, z: Time)
    requires WellFormed(x) && WellFormed(y) && WellFormed(z)
    requires Representable(Nanos(x) + Nanos(y)) && Representable(Nanos(y) + Nanos(z))
    ensures Sum(Sum(x, y), z) == Sum(x, Sum(y, z))
  {
    hide *;
    SumExactness(x, y);
    SumExactness(y, z);
    SumOfCanonical(Sum(x, y), z);
    SumOfCanonical(x, Sum(y, z));
  }

  /** The inverse of a time is its difference from zero; -2^31 seconds has none. */
  lemma SumHasInverses(x: Time)
    requires WellFormed(x) && x.seconds > -TWO31
    ensures Sum(x, Difference(Time(0, 0), x)) == Time(0, 0)
  {
    CanonicalIsUnique(Time(-x.seconds, -x.nanoseconds), -Nanos(x));
  }

  /** Wire intervals are in units of 2^-16 ns; fractions of a nanosecond are dropped toward zero. */
  method ScaledNanosecondsToInternalTime(scaledNanoseconds: int, internal: TimeInternal)
    requires FitsS64(scaledNanoseconds)
    modifies internal
    ensures WellFormed(internal.Get())
    ensures scaledNanoseconds != -TWO63 ==> internal.Get() == FromNanos(Quot(scaledNanoseconds, TWO16))
    ensures scaledNanoseconds == -TWO63 ==> internal.Get() == FromNanos(Quot(TWO63, TWO16))
  {
    var sign := 1;
    var nanoseconds := scaledNanoseconds;
    if nanoseconds < 0 {
      nanoseconds := Wrap64(-nanoseconds);
      sign := -1;
    }
    nanoseconds := nanoseconds / TWO16;
    var seconds, rest := Quot(nanoseconds, BILLION), Rem(nanoseconds, BILLION);
    internal.seconds := if sign == 1 then seconds else -seconds;
    internal.nanoseconds := if sign == 1 then rest else -rest;
  }

  /** The contents of a `timestamp_t`: unsigned words of 16, 32 and 32 bits. */
  datatype Timestamp = Timestamp(secondsMsb: int, secondsLsb: int, nanoseconds: int)

  predicate ValidTimestamp(t: Timestamp) {
    0 <= t.secondsMsb < TWO16 && 0 <= t.secondsLsb < TWO32 && 0 <= t.nanoseconds < TWO32
  }

  /** A negative part leaves the destination, here `was`, as it is. */
  function FromInternalTime(internal: Time, was: Timestamp): (external: Timestamp)
    ensures InFields(internal) && ValidTimestamp(was) ==> ValidTimestamp(external)
  {
    if internal.seconds < 0 || internal.nanoseconds < 0 then was
    else Timestamp(0, internal.seconds, internal.nanoseconds)
  }

  /** Seconds from 2^31 - 1 on leave the destination, here `was`, as it is; the high word is ignored. */
  function ToInternalTime(external: Timestamp, was: Time): (internal: Time)
    ensures ValidTimestamp(external) && InFields(was) ==> InFields(internal)
  {
    if external.secondsLsb < TWO31 - 1 then Time(external.secondsLsb, Wrap32(external.nanoseconds)) else was
  }

  /** The two conversions are inverse exactly on non-negative times before second 2^31 - 1. */
  lemma ConversionRoundTrip(t: Time)
    requires WellFormed(t)
    ensures (forall e: Timestamp, was: Time :: ToInternalTime(FromInternalTime(t, e), was) == t)
            <==> t.nanoseconds >= 0 && 0 <= t.seconds < TWO31 - 1
  {
    if !(t.nanoseconds >= 0 && 0 <= t.seconds < TWO31 - 1) {
      var e, was := Timestamp(0, TWO31, 0), Time(t.seconds - 1, 0);
      assert ToInternalTime(FromInternalTime(t, e), was) != t;
    }
  }

  /** `n` is `value` shifted right by `pos`. */
  predicate Shifted(value: int, n: int, pos: nat) { n * Pow2(pos) <= value < (n + 1) * Pow2(pos) }

  lemma ShiftKeepsBounds(value: int, n: int, pos: nat, k: nat)
    requires Shifted(value, n, pos)
    ensures Shifted(value, n / Pow2(k), pos + k)
  {
    Pow2Add(k, pos);
    QuotientBounds(n, Pow2(k));
    ScaleBounds(n, n / Pow2(k), Pow2(k), Pow2(pos));
  }

  /** One halving step of the width: drops `k` bits when a higher one is set. */
  method DropBits(ghost value: int, n: int, pos: nat, k: nat, width: int) returns (n': int, pos': nat)
    requires Shifted(value, n, pos) && 1 <= n < width * width
    requires (k == 16 && width == TWO16) || (k == 8 && width == 256) || (k == 4 && width == 16)
             || (k == 2 && width == 4)
    ensures Shifted(value, n', pos') && 1 <= n' < width
    ensures pos' == pos || pos' == pos + k
  {
    n', pos' := n, pos;
    if n >= width {
      Pow2Values();
      ShiftKeepsBounds(value, n, pos, k);
      n', pos' := n / width, pos + k;
    }
  }

  lemma QuotientBounds(n: int, q: int)
    requires q > 0
    ensures n / q * q <= n && n + 1 <= (n / q + 1) * q
  {
  }

  lemma ScaleBounds(n: int, m: int, q: int, p: int)
    requires m * q <= n && n + 1 <= (m + 1) * q && p > 0
    ensures m * (q * p) <= n * p && (n + 1) * p <= (m + 1) * (q * p)
  {
    MulLe(m * q, n, p);
    MulLe(n + 1, (m + 1) * q, p);
    MulAssociates(m, q, p);
    MulAssociates(m + 1, q, p);
  }

  /** The floor of the binary logarithm, by halving the width; -1 for zero. */
  method FloorLog2(value: int) returns (pos: int)
    requires 0 <= value < TWO32
    ensures value == 0 ==> pos == -1
    ensures value > 0 ==> 0 <= pos < 32 && Pow2(pos) <= value < Pow2(pos + 1)
    ensures value > 0 ==> pos == FloorLog(value)
  {
    if value == 0 {
      return -1;
    }
    var n := value;
    pos := 0;
    assert Shifted(value, n, pos);
    n, pos := DropBits(value, n, pos, 16, TWO16);
    n, pos := DropBits(value, n, pos, 8, 256);
    n, pos := DropBits(value, n, pos, 4, 16);
    n, pos := DropBits(value, n, pos, 2, 4);
    LogOfShifted(value, n, pos);
    if n >= 2 { pos := pos + 1; }
  }

  lemma LogOfShifted(value: int, n: int, pos: nat)
    requires 1 <= n <= 3 && Shifted(value, n, pos)
    ensures value >= 1 && FloorLog(value) == if n >= 2 then pos + 1 else pos
  {
    MulLe(1, n, Pow2(pos));
    FloorLogUnique(value, if n >= 2 then pos + 1 else pos);
  }
}
