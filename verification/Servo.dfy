/** The clock servo of servo.c: offset and delay measurement, and the clamped controller. */
module Servo {
  import opened Types
  import opened Words
  import opened Arith
  import opened Filter

  const CALIBRATED_OFFSET_NS: int := 10_000
  const UNCALIBRATED_OFFSET_NS: int := 1_000_000
  const MAX_ADJ_OFFSET_NS: int := 1_000_000_000
  const ADJ_FREQ_MAX: int := 32_768_000

  /** What the servo does to the system clock: sets it and levels its rate, changes its rate, or neither. */
  datatype Action = Reset(time: Time) | Slew(rate: int) | Idle

  function Clamp(x: int): int { Max(-ADJ_FREQ_MAX, Min(x, ADJ_FREQ_MAX)) }

  /** The limit nearest to `x`, or `x` itself. */
  lemma ClampIsNearest(x: int, y: int)
    requires -ADJ_FREQ_MAX <= y <= ADJ_FREQ_MAX
    ensures -ADJ_FREQ_MAX <= Clamp(x) <= ADJ_FREQ_MAX && Abs(x - Clamp(x)) <= Abs(x - y)
    ensures Abs(x - y) <= Abs(x - Clamp(x)) ==> y == Clamp(x)
  {
  }

  lemma ClampIsMonotone(x: int, y: int)
    requires x <= y
    ensures Clamp(x) <= Clamp(y)
  {
  }

  /** Less than a second either way. */
  predicate BelowSecond(ns: int) { -BILLION < ns < BILLION }

  // ----- The smoothed outputs stay below a second -----

  /** Whether or not its sum has overflowed, a filter fed less than a second returns less than a second:
      orders of 2 and more divide any word down to that, and at orders 0 and 1 nothing overflows. */
  lemma StoredOutputBelowSecond(f: State, x: int)
    requires InWords(f) && BelowSecond(x) && (f.n > 0 ==> BelowSecond(f.yPrev))
    ensures BelowSecond(StoredStep(f, x).yPrev)
  {
    hide NextOrder, NextSum, ShiftRight, Pow2, Wrap32;
    var o, sum := NextOrder(f, x), NextSum(f, x);
    NextFloor(f, x);
    if o < 2 {
      LowOrderFits(ShiftRight(sum, o), sum, o);
    } else {
      QuarterOfWord(Wrap32(sum), o);
    }
  }

  lemma LowOrderFits(floor: int, sum: int, o: nat)
    requires floor == ShiftRight(sum, o) && o < 2 && BelowSecond(floor)
    ensures FitsS32(sum)
  {
    FloorIs(floor, sum, o);
    assert Pow2(0) == 1 && Pow2(1) == 2;
  }

  lemma QuarterOfWord(sum: int, k: nat)
    requires FitsS32(sum) && k >= 2
    ensures BelowSecond(ShiftRight(sum, k))
  {
    hide Pow2;
    Pow2Monotone(2, k);
    Pow2Values();
    MulLe(4, Pow2(k), 0x2000_0000);
    QuotientBetween(sum, Pow2(k), -0x2000_0000, 0x2000_0000);
  }

  // ----- The controller in 32-bit words -----

  /** The offset normalised to a sync interval of one second. */
  function Normalised(ns: int, logSyncInterval: int): int {
    if logSyncInterval >= 0 then ShiftRight(ns, logSyncInterval) else ns * Pow2(-logSyncInterval)
  }

  /** No computation of the controller leaves 32 bits. */
  predicate ControllerFits(ns: int, drift: int, logSyncInterval: int, ap: int, ai: int)
    requires ap >= 1 && ai >= 1
  {
    var norm := Normalised(ns, logSyncInterval);
    var sum := drift + Quot(norm, ai);
    FitsS32(norm) && FitsS32(sum) && FitsS32(Quot(norm, ap) + Clamp(sum)) && Quot(norm, ap) + Clamp(sum) != -TWO31
  }

  function StoredNorm(ns: int, logSyncInterval: int): int {
    if logSyncInterval >= 0 then ShiftRight(ns, logSyncInterval) else Wrap32(ns * Pow2(-logSyncInterval))
  }

  /** The accumulator after a step in 32-bit words. */
  function StoredDrift(ns: int, drift: int, logSyncInterval: int, ai: int): int
    requires ai >= 1
  {
    Clamp(Wrap32(drift + Quot(StoredNorm(ns, logSyncInterval), ai)))
  }

  /** The rate a step applies, in 32-bit words. */
  function StoredRate(ns: int, drift: int, logSyncInterval: int, ap: int, ai: int): int
    requires ap >= 1 && ai >= 1
  {
    Clamp(Wrap32(-Wrap32(Quot(StoredNorm(ns, logSyncInterval), ap) + StoredDrift(ns, drift, logSyncInterval, ai))))
  }

  /** Where nothing overflows, the words compute the clamped proportional-integral law. */
  lemma ControllerIsExact(ns: int, drift: int, logSyncInterval: int, ap: int, ai: int)
    requires ap >= 1 && ai >= 1 && ControllerFits(ns, drift, logSyncInterval, ap, ai)
    ensures var norm := Normalised(ns, logSyncInterval);
            var drift' := Clamp(drift + Quot(norm, ai));
            && StoredDrift(ns, drift, logSyncInterval, ai) == drift'
            && StoredRate(ns, drift, logSyncInterval, ap, ai) == Clamp(-(Quot(norm, ap) + drift'))
  {
    hide Quot, Pow2, ShiftRight;
  }

  /** Negative feedback: a clock that is ahead, and has not been held back before, is held back and not less than
      before; and the mirror image. */
  lemma ControllerOpposesOffset(ns: int, drift: int, logSyncInterval: int, ap: int, ai: int)
    requires ap >= 1 && ai >= 1 && ControllerFits(ns, drift, logSyncInterval, ap, ai)
    requires -ADJ_FREQ_MAX <= drift <= ADJ_FREQ_MAX
    ensures var drift' := StoredDrift(ns, drift, logSyncInterval, ai);
            var rate := StoredRate(ns, drift, logSyncInterval, ap, ai);
            && (ns >= 0 && drift >= 0 ==> drift <= drift' && rate <= 0)
            && (ns <= 0 && drift <= 0 ==> drift' <= drift && rate >= 0)
  {
    ControllerIsExact(ns, drift, logSyncInterval, ap, ai);
    var norm := Normalised(ns, logSyncInterval);
    NormalisedSign(ns, logSyncInterval);
    QuotSign(norm, ap);
    QuotSign(norm, ai);
    hide Quot, Normalised, StoredDrift, StoredRate;
  }

  lemma NormalisedSign(ns: int, logSyncInterval: int)
    ensures (ns >= 0 ==> Normalised(ns, logSyncInterval) >= 0) && (ns <= 0 ==> Normalised(ns, logSyncInterval) <= 0)
  {
    if logSyncInterval >= 0 {
      var p := Pow2(logSyncInterval);
      MulLe(1, p, Abs(ns));
      QuotientBetween(ns, p, Min(ns, 0), Max(ns, 0));
    } else if ns >= 0 {
      MulLe(0, ns, Pow2(-logSyncInterval));
    } else {
      MulLe(ns, 0, Pow2(-logSyncInterval));
    }
  }

  lemma QuotSign(a: int, b: int)
    requires b >= 1
    ensures (a >= 0 ==> Quot(a, b) >= 0) && (a <= 0 ==> Quot(a, b) <= 0)
  {
    var m := Abs(a);
    QuotientBetween(m, b, 0, m) by { MulLe(1, b, m + 1); }
  }

  ghost predicate ControllerNeverOverflows(logSyncInterval: int) {
    forall ns: int, drift: int, ap: int, ai: int ::
      BelowSecond(ns) && -ADJ_FREQ_MAX <= drift <= ADJ_FREQ_MAX && ap >= 1 && ai >= 1
      ==> ControllerFits(ns, drift, logSyncInterval, ap, ai)
  }

  /** Sync intervals down to half a second are safe, shorter ones are not. */
  lemma ControllerSafeExactlyWhen(logSyncInterval: int)
    requires -128 <= logSyncInterval < 128
    ensures ControllerNeverOverflows(logSyncInterval) <==> logSyncInterval >= -1
  {
    if logSyncInterval >= -1 {
      forall ns: int, drift: int, ap: int, ai: int |
        BelowSecond(ns) && -ADJ_FREQ_MAX <= drift <= ADJ_FREQ_MAX && ap >= 1 && ai >= 1
        ensures ControllerFits(ns, drift, logSyncInterval, ap, ai)
      {
        NormalisedBound(ns, logSyncInterval);
        QuotBound(Normalised(ns, logSyncInterval), ai);
        QuotBound(Normalised(ns, logSyncInterval), ap);
      }
    } else {
      ShortIntervalOverflows(logSyncInterval);
    }
  }

  lemma ShortIntervalOverflows(logSyncInterval: int)
    requires logSyncInterval < -1
    ensures !ControllerFits(BILLION - 1, 0, logSyncInterval, 1, 1)
  {
    Pow2Values();
    Pow2Monotone(2, -logSyncInterval);
    MulLe(4, Pow2(-logSyncInterval), BILLION - 1);
  }

  lemma NormalisedBound(ns: int, logSyncInterval: int)
    requires BelowSecond(ns) && logSyncInterval >= -1
    ensures -2 * BILLION < Normalised(ns, logSyncInterval) < 2 * BILLION
  {
    if logSyncInterval < 0 {
      assert Pow2(1) == 2;
    } else {
      var p := Pow2(logSyncInterval);
      MulLe(1, p, BILLION);
      QuotientBetween(ns, p, -BILLION, BILLION);
    }
  }

  lemma QuotBound(a: int, b: int)
    requires b >= 1
    ensures 0 - Abs(a) <= Quot(a, b) <= Abs(a)
  {
    var m := Abs(a);
    MulLe(1, b, m);
    if m > 0 {
      QuotientBetween(m, b, 0, m) by { MulLe(1, b, m + 1); }
    }
  }

  // ----- What the measurements compute -----

  /** Difference between a received and a sent timestamp, less the correction on the way. */
  function Leg(received: Time, sent: Time, correction: Time): Time {
    Difference(Difference(received, sent), correction)
  }

  function Half(t: Time): Time { FromNanos(Quot(Nanos(t), 2)) }

  /** The mean path delay before smoothing, from both legs of an end-to-end exchange. */
  function RawMeanPathDelay(masterToSlave: Time, slaveToMaster: Time): Time { Half(Sum(masterToSlave, slaveToMaster)) }

  /** The peer delay before smoothing; a one-step responder has already subtracted its turnaround. */
  function RawPeerDelay(t1: Time, t2: Time, t3: Time, t4: Time, correction: Time, twoStep: bool): Time {
    var turn := if twoStep then Sum(Difference(t2, t1), Difference(t4, t3)) else Difference(t4, t1);
    Half(Difference(turn, correction))
  }

  /** A measured time after smoothing: seconds cannot be filtered and pass through. */
  function Smoothed(f: State, raw: Time): Time
    requires InWords(f) && BelowSecond(raw.nanoseconds)
  {
    if raw.seconds != 0 then raw else Time(0, StoredStep(f, raw.nanoseconds).yPrev)
  }

  function FilterAfter(f: State, raw: Time): State
    requires InWords(f) && BelowSecond(raw.nanoseconds)
  {
    if raw.seconds != 0 then f else StoredStep(f, raw.nanoseconds)
  }

  // ----- Where the measurements are exact -----

  /** Every difference of this size has its own stored form, whatever times it is a difference of. */
  predicate Near(v: int) { -(TWO31 - 1) * BILLION <= v <= (TWO31 - 1) * BILLION }

  lemma NearDifference(x: Time, y: Time)
    requires InFields(x) && InFields(y) && FitsS32(x.nanoseconds - y.nanoseconds) && Near(Nanos(x) - Nanos(y))
    ensures WellFormed(Difference(x, y)) && Nanos(Difference(x, y)) == Nanos(x) - Nanos(y)
  {
    DifferenceExactnessOfFields(x, y);
    ResultsAreWellFormed(x, y);
    hide Difference;
  }

  /** No step on the way from two timestamps to an offset is out of reach. */
  predicate InReach(ingress: Time, origin: Time, correction: Time, delay: Time) {
    && InFields(ingress) && InFields(origin) && FitsS32(ingress.nanoseconds - origin.nanoseconds)
    && WellFormed(correction) && WellFormed(delay)
    && Near(Nanos(ingress) - Nanos(origin)) && Near(Nanos(ingress) - Nanos(origin) - Nanos(correction))
    && Near(Nanos(ingress) - Nanos(origin) - Nanos(correction) - Nanos(delay))
  }

  lemma LegInReach(ingress: Time, origin: Time, correction: Time, delay: Time)
    requires InReach(ingress, origin, correction, delay)
    ensures var leg := Leg(ingress, origin, correction);
            && WellFormed(leg) && leg == FromNanos(Nanos(ingress) - Nanos(origin) - Nanos(correction))
            && Nanos(leg) == Nanos(ingress) - Nanos(origin) - Nanos(correction)
  {
    NearDifference(ingress, origin);
    NearDifference(Difference(ingress, origin), correction);
    CanonicalIsUnique(Leg(ingress, origin, correction), Nanos(ingress) - Nanos(origin) - Nanos(correction));
    hide Difference, FromNanos;
  }

  lemma OffsetInReach(ingress: Time, origin: Time, correction: Time, delay: Time)
    requires InReach(ingress, origin, correction, delay)
    ensures var raw := Difference(Leg(ingress, origin, correction), delay);
            && raw == FromNanos(Nanos(ingress) - Nanos(origin) - Nanos(correction) - Nanos(delay))
            && Nanos(raw) == Nanos(ingress) - Nanos(origin) - Nanos(correction) - Nanos(delay)
  {
    LegInReach(ingress, origin, correction, delay);
    var leg := Leg(ingress, origin, correction);
    NearDifference(leg, delay);
    CanonicalIsUnique(Difference(leg, delay), Nanos(ingress) - Nanos(origin) - Nanos(correction) - Nanos(delay));
    hide Difference, FromNanos, Leg;
  }

  /** `w` nanoseconds were measured: a filter takes what is below a second, and all else passes as it is. */
  predicate SmoothedFrom(w: int, was: State, offset: Time, filter: State)
    requires InWords(was)
  {
    if BelowSecond(w) then filter == StoredStep(was, w) && offset == Time(0, filter.yPrev)
    else filter == was && offset == FromNanos(w)
  }

  /** Seconds pass; nanoseconds stay below a second. */
  lemma SmoothedBelowSecond(was: State, raw: Time)
    requires InWords(was) && WellFormed(raw) && (was.n > 0 ==> BelowSecond(was.yPrev))
    ensures var t := Smoothed(was, raw);
            && (t.seconds != 0 <==> Abs(Nanos(raw)) >= BILLION) && (t.seconds != 0 ==> t == raw)
            && (t.seconds == 0 ==> BelowSecond(t.nanoseconds))
  {
    WholeSecondOrMore(raw);
    StoredOutputBelowSecond(was, raw.nanoseconds);
    hide StoredStep, InWords;
  }

  lemma MeasuredIsSmoothed(raw: Time, was: State)
    requires InWords(was) && WellFormed(raw)
    ensures SmoothedFrom(Nanos(raw), was, Smoothed(was, raw), FilterAfter(was, raw))
  {
    CanonicalIsUnique(raw, Nanos(raw));
    SmoothedIs(Nanos(raw), was, raw);
    hide SmoothedFrom;
  }

  lemma SmoothedIs(w: int, was: State, raw: Time)
    requires InWords(was) && WellFormed(raw) && raw == FromNanos(w) && Nanos(raw) == w
    ensures SmoothedFrom(w, was, Smoothed(was, raw), FilterAfter(was, raw))
  {
    WholeSecondOrMore(raw);
    hide FromNanos, StoredStep, InWords;
  }

  /** Small offsets calibrate a port, large ones fault a slave. */
  function OffsetEvents(portState: PortState, raw: Time, smoothed: Time): set<Event> {
    if raw.seconds != 0 then
      if portState == Slave then {SynchronizationFault} else {}
    else if Abs(smoothed.nanoseconds) < CALIBRATED_OFFSET_NS then
      if portState == Uncalibrated then {MasterClockSelected} else {}
    else if Abs(smoothed.nanoseconds) > UNCALIBRATED_OFFSET_NS then
      if portState == Slave then {SynchronizationFault} else {}
    else {}
  }

  datatype Options = Options(delayMechanism: DelayMechanism, noAdjust: bool, noResetClock: bool, ap: int, ai: int,
                             sDelay: nat, sOffset: nat, logSyncInterval: int)

  /** The servo's part of the clock record. */
  class ServoClock {
    const tms: TimeInternal
    const tsm: TimeInternal
    const offsetFromMaster: TimeInternal
    const meanPathDelay: TimeInternal
    const peerMeanPathDelay: TimeInternal
    const ofmFilt: Smoother
    const owdFilt: Smoother
    const delayMechanism: DelayMechanism
    const noAdjust: bool
    const noResetClock: bool
    const ap: int
    const ai: int
    const sDelay: nat
    const sOffset: nat
    const logSyncInterval: int
    var portState: PortState
    var events: set<Event>
    var observedDrift: int
    var waitingForFollowUp: bool
    var waitingForPDelayRespFollowUp: bool

    /** A zeroed record with the run-time options of `options`. */
    constructor (options: Options)
      requires options.ap >= 1 && options.ai >= 1 && options.sDelay <= 30 && options.sOffset <= 30
      requires -31 <= options.logSyncInterval <= 31
      ensures Valid() && ofmFilt.n == 0 && owdFilt.n == 0 && observedDrift == 0 && events == {}
    {
      assert WellFormed(Time(0, 0)) && InWords(State(0, 0, options.sOffset, 0, 0))
             && InWords(State(0, 0, options.sDelay, 0, 0));
      hide WellFormed, InWords;
      tms := new TimeInternal(0, 0);
      tsm := new TimeInternal(0, 0);
      offsetFromMaster := new TimeInternal(0, 0);
      meanPathDelay := new TimeInternal(0, 0);
      peerMeanPathDelay := new TimeInternal(0, 0);
      ofmFilt := new Smoother(options.sOffset);
      owdFilt := new Smoother(options.sDelay);
      delayMechanism, noAdjust, noResetClock := options.delayMechanism, options.noAdjust, options.noResetClock;
      ap, ai, sDelay, sOffset := options.ap, options.ai, options.sDelay, options.sOffset;
      logSyncInterval := options.logSyncInterval;
      portState, events, observedDrift := Initializing, {}, 0;
      waitingForFollowUp, waitingForPDelayRespFollowUp := false, false;
    }

    ghost function Times(): set<TimeInternal> {
      {tms, tsm, offsetFromMaster, meanPathDelay, peerMeanPathDelay}
    }

    /** The embedded structures are different objects. */
    ghost predicate Apart() {
      && tms != tsm && tms != offsetFromMaster && tms != meanPathDelay && tms != peerMeanPathDelay
      && tsm != offsetFromMaster && tsm != meanPathDelay && tsm != peerMeanPathDelay
      && offsetFromMaster != meanPathDelay && offsetFromMaster != peerMeanPathDelay
      && meanPathDelay != peerMeanPathDelay
      && ofmFilt != owdFilt
    }

    /** The configuration is one the start-up code lets through. */
    ghost predicate Configured() {
      ap >= 1 && ai >= 1 && sDelay <= 30 && sOffset <= 30 && -31 <= logSyncInterval <= 31
    }

    ghost predicate Valid()
      reads this, Times(), ofmFilt, owdFilt
    {
      && Apart() && Configured()
      && WellFormed(tms.Get()) && WellFormed(tsm.Get()) && WellFormed(offsetFromMaster.Get())
      && WellFormed(meanPathDelay.Get()) && WellFormed(peerMeanPathDelay.Get())
      && Calm(ofmFilt) && Calm(owdFilt)
      && -ADJ_FREQ_MAX <= observedDrift <= ADJ_FREQ_MAX
    }

    /** The stored times are pairs of words, as every valid record has them. */
    ghost predicate FieldsFit()
      reads Times()
    {
      && InFields(tms.Get()) && InFields(tsm.Get()) && InFields(offsetFromMaster.Get())
      && InFields(meanPathDelay.Get()) && InFields(peerMeanPathDelay.Get())
    }

    /** A filter of the program whose last output is below a second. */
    static predicate Calm(f: Smoother)
      reads f
    {
      InWords(f.Get()) && (f.n > 0 ==> BelowSecond(f.yPrev))
    }

    function RawOffset(masterToSlave: Time): Time
      reads meanPathDelay, peerMeanPathDelay
    {
      match delayMechanism
      case E2E => Difference(masterToSlave, meanPathDelay.Get())
      case P2P => Difference(masterToSlave, peerMeanPathDelay.Get())
      case DelayDisabled => masterToSlave
    }

    /** Within reach, the raw offset is the difference of the timestamps less the correction and less the delay of
        the configured mechanism. */
    lemma RawOffsetInReach(ingress: Time, origin: Time, correction: Time)
      ensures var raw := RawOffset(Leg(ingress, origin, correction));
              var v := Nanos(ingress) - Nanos(origin) - Nanos(correction);
              && (delayMechanism == E2E && InReach(ingress, origin, correction, meanPathDelay.Get()) ==>
                    var w := v - Nanos(meanPathDelay.Get()); raw == FromNanos(w) && Nanos(raw) == w)
              && (delayMechanism == P2P && InReach(ingress, origin, correction, peerMeanPathDelay.Get()) ==>
                    var w := v - Nanos(peerMeanPathDelay.Get()); raw == FromNanos(w) && Nanos(raw) == w)
              && (delayMechanism == DelayDisabled && InReach(ingress, origin, correction, Time(0, 0)) ==>
                    raw == FromNanos(v) && Nanos(raw) == v)
    {
      hide Difference, FromNanos, InReach, Leg, Nanos;
      if delayMechanism == E2E && InReach(ingress, origin, correction, meanPathDelay.Get()) {
        OffsetInReach(ingress, origin, correction, meanPathDelay.Get());
      }
      if delayMechanism == P2P && InReach(ingress, origin, correction, peerMeanPathDelay.Get()) {
        OffsetInReach(ingress, origin, correction, peerMeanPathDelay.Get());
      }
      if delayMechanism == DelayDisabled && InReach(ingress, origin, correction, Time(0, 0)) {
        LegInReach(ingress, origin, correction, Time(0, 0));
      }
    }

    /** Within reach, what was smoothed is the difference of the timestamps less the correction, and less the delay of
        the configured mechanism. */
    ghost predicate MeasuredFrom(ingress: Time, origin: Time, correction: Time, was: State)
      requires InWords(was)
      reads ofmFilt, offsetFromMaster, meanPathDelay, peerMeanPathDelay
    {
      var v := Nanos(ingress) - Nanos(origin) - Nanos(correction);
      && (delayMechanism == E2E && InReach(ingress, origin, correction, meanPathDelay.Get()) ==>
            SmoothedFrom(v - Nanos(meanPathDelay.Get()), was, offsetFromMaster.Get(), ofmFilt.Get()))
      && (delayMechanism == P2P && InReach(ingress, origin, correction, peerMeanPathDelay.Get()) ==>
            SmoothedFrom(v - Nanos(peerMeanPathDelay.Get()), was, offsetFromMaster.Get(), ofmFilt.Get()))
      && (delayMechanism == DelayDisabled && InReach(ingress, origin, correction, Time(0, 0)) ==>
            SmoothedFrom(v, was, offsetFromMaster.Get(), ofmFilt.Get()))
    }

    /** And the clock is set by that. */
    predicate SetFrom(ingress: Time, origin: Time, correction: Time, now: Time, action: Action)
      reads meanPathDelay, peerMeanPathDelay
    {
      var v := Nanos(ingress) - Nanos(origin) - Nanos(correction);
      && (delayMechanism == E2E && InReach(ingress, origin, correction, meanPathDelay.Get()) ==>
            SetBy(v - Nanos(meanPathDelay.Get()), now, action))
      && (delayMechanism == P2P && InReach(ingress, origin, correction, peerMeanPathDelay.Get()) ==>
            SetBy(v - Nanos(peerMeanPathDelay.Get()), now, action))
      && (delayMechanism == DelayDisabled && InReach(ingress, origin, correction, Time(0, 0)) ==> SetBy(v, now, action))
    }

    /** Smooths `t` in place through `f`. */
    method FilterNanoseconds(t: TimeInternal, f: Smoother)
      requires WellFormed(t.Get()) && t.seconds == 0 && Calm(f)
      modifies t, f
      ensures Calm(f) && f.s == old(f.s)
      ensures t.Get() == old(Smoothed(f.Get(), t.Get())) && f.Get() == old(FilterAfter(f.Get(), t.Get()))
      ensures WellFormed(t.Get())
    {
      StoredOutputBelowSecond(f.Get(), t.nanoseconds);
      t.nanoseconds := f.Filter(t.nanoseconds);
    }

    /** Clears the accumulators, the filters and the pending two-step exchanges. */
    method InitClock()
      requires Valid()
      modifies this`observedDrift, this`waitingForFollowUp, this`waitingForPDelayRespFollowUp
      modifies tms, ofmFilt, owdFilt
      ensures Valid()
      ensures observedDrift == 0 && !waitingForFollowUp && !waitingForPDelayRespFollowUp
      ensures tms.Get() == Time(0, 0) && ofmFilt.n == 0 && owdFilt.n == 0
      ensures ofmFilt.s == sOffset && owdFilt.s == sDelay
    {
      assert WellFormed(Time(0, 0));
      hide WellFormed, InWords;
      tms.Set(Time(0, 0));
      observedDrift := 0;
      owdFilt.n, owdFilt.s := 0, sDelay;
      ofmFilt.n, ofmFilt.s := 0, sOffset;
      waitingForFollowUp := false;
      waitingForPDelayRespFollowUp := false;
    }

    /** Measures and smooths the offset from the master. */
    method UpdateOffset(ingress: TimeInternal, origin: TimeInternal, correction: TimeInternal)
      requires Valid() && InFields(ingress.Get()) && InFields(origin.Get()) && InFields(correction.Get())
      requires {ingress, origin, correction} !! {tms, offsetFromMaster}
      modifies this`events, tms, offsetFromMaster, ofmFilt
      ensures Valid()
      ensures tms.Get() == Leg(ingress.Get(), origin.Get(), correction.Get())
      ensures var raw := RawOffset(tms.Get());
              && WellFormed(raw)
              && offsetFromMaster.Get() == Smoothed(old(ofmFilt.Get()), raw)
              && ofmFilt.Get() == FilterAfter(old(ofmFilt.Get()), raw)
              && events == old(events) + OffsetEvents(portState, raw, offsetFromMaster.Get())
      ensures MeasuredFrom(ingress.Get(), origin.Get(), correction.Get(), old(ofmFilt.Get()))
    {
      hide Difference, WellFormed, InFields, InWords, Leg, Smoothed, FilterAfter, OffsetEvents, InReach, Nanos,
           FromNanos, RawOffset, SmoothedFrom, Calm, Configured;
      MeasureOffset(ingress, origin, correction);
      SmoothOffset();
    }

    /** The offset as it is measured. */
    method MeasureOffset(ingress: TimeInternal, origin: TimeInternal, correction: TimeInternal)
      requires Apart() && InFields(ingress.Get()) && InFields(origin.Get()) && InFields(correction.Get())
      requires WellFormed(meanPathDelay.Get()) && WellFormed(peerMeanPathDelay.Get())
      requires {ingress, origin, correction} !! {tms, offsetFromMaster}
      modifies tms, offsetFromMaster
      ensures tms.Get() == Leg(ingress.Get(), origin.Get(), correction.Get()) && WellFormed(tms.Get())
      ensures offsetFromMaster.Get() == RawOffset(tms.Get()) && WellFormed(offsetFromMaster.Get())
      ensures delayMechanism == E2E && InReach(ingress.Get(), origin.Get(), correction.Get(), meanPathDelay.Get()) ==>
                Nanos(offsetFromMaster.Get()) ==
                Nanos(ingress.Get()) - Nanos(origin.Get()) - Nanos(correction.Get()) - Nanos(meanPathDelay.Get())
      ensures delayMechanism == P2P
              && InReach(ingress.Get(), origin.Get(), correction.Get(), peerMeanPathDelay.Get()) ==>
                Nanos(offsetFromMaster.Get()) ==
                Nanos(ingress.Get()) - Nanos(origin.Get()) - Nanos(correction.Get()) - Nanos(peerMeanPathDelay.Get())
      ensures delayMechanism == DelayDisabled && InReach(ingress.Get(), origin.Get(), correction.Get(), Time(0, 0)) ==>
                Nanos(offsetFromMaster.Get()) == Nanos(ingress.Get()) - Nanos(origin.Get()) - Nanos(correction.Get())
    {
      assert InFields(meanPathDelay.Get()) && InFields(peerMeanPathDelay.Get());
      RawOffsetInReach(ingress.Get(), origin.Get(), correction.Get());
      hide Difference, WellFormed, InFields, InReach, Nanos, Leg;
      SubTime(tms, ingress, origin);
      SubTime(tms, tms, correction);
      offsetFromMaster.Set(tms.Get());
      match delayMechanism {
        case E2E => SubTime(offsetFromMaster, offsetFromMaster, meanPathDelay);
        case P2P => SubTime(offsetFromMaster, offsetFromMaster, peerMeanPathDelay);
        case DelayDisabled =>
      }
    }

    /** An offset below a second is smoothed in place; its size is signalled. */
    method SmoothOffset()
      requires Apart() && WellFormed(offsetFromMaster.Get()) && Calm(ofmFilt)
      modifies this`events, offsetFromMaster, ofmFilt
      ensures WellFormed(offsetFromMaster.Get()) && Calm(ofmFilt)
      ensures var raw := old(offsetFromMaster.Get());
              && offsetFromMaster.Get() == Smoothed(old(ofmFilt.Get()), raw)
              && ofmFilt.Get() == FilterAfter(old(ofmFilt.Get()), raw)
              && events == old(events) + OffsetEvents(portState, raw, offsetFromMaster.Get())
              && SmoothedFrom(Nanos(raw), old(ofmFilt.Get()), offsetFromMaster.Get(), ofmFilt.Get())
    {
      ghost var raw, was := offsetFromMaster.Get(), ofmFilt.Get();
      assert InWords(was) && BelowSecond(raw.nanoseconds);
      hide InWords, StoredStep, SmoothedFrom, Nanos, WellFormed, Calm;
      MeasuredIsSmoothed(raw, was);
      if offsetFromMaster.seconds != 0 {
        if portState == Slave {
          events := events + {SynchronizationFault};
        }
        return;
      }
      FilterNanoseconds(offsetFromMaster, ofmFilt);
      if Abs(offsetFromMaster.nanoseconds) < CALIBRATED_OFFSET_NS {
        if portState == Uncalibrated {
          events := events + {MasterClockSelected};
        }
      } else if Abs(offsetFromMaster.nanoseconds) > UNCALIBRATED_OFFSET_NS {
        if portState == Slave {
          events := events + {SynchronizationFault};
        }
      }
    }

    /** Measures and smooths the mean path delay, once an offset has been measured. */
    method UpdateDelay(egress: TimeInternal, receive: TimeInternal, correction: TimeInternal)
      requires Valid() && InFields(egress.Get()) && InFields(receive.Get()) && InFields(correction.Get())
      requires {egress, receive, correction} !! {tms, tsm, meanPathDelay}
      modifies tsm, meanPathDelay, owdFilt
      ensures Valid()
      ensures ofmFilt.n == 0 ==> unchanged(tsm, meanPathDelay, owdFilt)
      ensures ofmFilt.n != 0 ==>
              var raw := RawMeanPathDelay(tms.Get(), Leg(receive.Get(), egress.Get(), correction.Get()));
              && WellFormed(raw)
              && meanPathDelay.Get() == Smoothed(old(owdFilt.Get()), raw)
              && owdFilt.Get() == FilterAfter(old(owdFilt.Get()), raw)
    {
      hide WellFormed, InFields, InWords, StoredStep, Calm, RawMeanPathDelay, Leg;
      if ofmFilt.n == 0 {
        return;
      }
      MeasureDelay(egress, receive, correction);
      if meanPathDelay.seconds == 0 {
        FilterNanoseconds(meanPathDelay, owdFilt);
      }
    }

    /** Half of the two legs. */
    method MeasureDelay(egress: TimeInternal, receive: TimeInternal, correction: TimeInternal)
      requires Apart() && WellFormed(tms.Get())
      requires InFields(egress.Get()) && InFields(receive.Get()) && InFields(correction.Get())
      requires {egress, receive, correction} !! {tms, tsm, meanPathDelay}
      modifies tsm, meanPathDelay
      ensures tsm.Get() == Leg(receive.Get(), egress.Get(), correction.Get()) && WellFormed(tsm.Get())
      ensures meanPathDelay.Get() == RawMeanPathDelay(tms.Get(), tsm.Get()) && WellFormed(meanPathDelay.Get())
    {
      assert InFields(tms.Get());
      hide Difference, Sum, FromNanos, WellFormed, InFields, Quot, Nanos;
      SubTime(tsm, receive, egress);
      SubTime(tsm, tsm, correction);
      AddTime(meanPathDelay, tms, tsm);
      Div2Time(meanPathDelay);
    }

    /** Measures and smooths the peer delay from the four timestamps of the port record. */
    method UpdatePeerDelay(t1: TimeInternal, t2: TimeInternal, t3: TimeInternal, t4: TimeInternal,
                           correction: TimeInternal, twoStep: bool)
      requires Valid() && InFields(correction.Get())
      requires InFields(t1.Get()) && InFields(t2.Get()) && InFields(t3.Get()) && InFields(t4.Get())
      requires peerMeanPathDelay !in {t1, t2, t3, t4, correction}
      modifies peerMeanPathDelay, owdFilt
      ensures Valid()
      ensures var raw := RawPeerDelay(t1.Get(), t2.Get(), t3.Get(), t4.Get(), correction.Get(), twoStep);
              && WellFormed(raw)
              && peerMeanPathDelay.Get() == Smoothed(old(owdFilt.Get()), raw)
              && owdFilt.Get() == FilterAfter(old(owdFilt.Get()), raw)
    {
      hide WellFormed, InFields, InWords, StoredStep, Calm, RawPeerDelay;
      MeasurePeerDelay(t1, t2, t3, t4, correction, twoStep);
      if peerMeanPathDelay.seconds != 0 {
        return;
      }
      FilterNanoseconds(peerMeanPathDelay, owdFilt);
    }

    /** Half of the turnaround, less the correction. */
    method MeasurePeerDelay(t1: TimeInternal, t2: TimeInternal, t3: TimeInternal, t4: TimeInternal,
                            correction: TimeInternal, twoStep: bool)
      requires InFields(t1.Get()) && InFields(t2.Get()) && InFields(t3.Get()) && InFields(t4.Get())
      requires InFields(correction.Get()) && peerMeanPathDelay !in {t1, t2, t3, t4, correction}
      modifies peerMeanPathDelay
      ensures peerMeanPathDelay.Get() == RawPeerDelay(t1.Get(), t2.Get(), t3.Get(), t4.Get(), correction.Get(), twoStep)
      ensures WellFormed(peerMeanPathDelay.Get())
    {
      hide Difference, Sum, FromNanos, WellFormed, InFields, Quot, Nanos;
      if twoStep {
        var tab := new TimeInternal(0, 0);
        var tba := new TimeInternal(0, 0);
        SubTime(tab, t2, t1);
        SubTime(tba, t4, t3);
        AddTime(peerMeanPathDelay, tab, tba);
      } else {
        SubTime(peerMeanPathDelay, t4, t1);
      }
      SubTime(peerMeanPathDelay, peerMeanPathDelay, correction);
      Div2Time(peerMeanPathDelay);
    }

    /** The proportional-integral controller, on an offset within reach. */
    method Steer() returns (action: Action)
      requires Valid()
      modifies this`observedDrift
      ensures Valid() && observedDrift == DriftAfter(old(observedDrift))
      ensures action == SteerAction(old(observedDrift)) && !action.Reset?
      ensures noAdjust ==> action == Idle
      ensures offsetFromMaster.seconds == 0 && logSyncInterval >= -1 ==>
                Opposes(offsetFromMaster.nanoseconds, old(observedDrift), observedDrift, action)
    {
      SteeringOpposes(observedDrift);
      assert ShiftRight(offsetFromMaster.nanoseconds, 0) == offsetFromMaster.nanoseconds by { assert Pow2(0) == 1; }
      hide WellFormed, Calm, Quot, ShiftRight, Pow2, Wrap32;
      var offsetNorm := offsetFromMaster.nanoseconds;
      if logSyncInterval > 0 {
        offsetNorm := ShiftRight(offsetNorm, logSyncInterval);
      } else if logSyncInterval < 0 {
        offsetNorm := Wrap32(offsetNorm * Pow2(-logSyncInterval));
      }
      observedDrift := Wrap32(observedDrift + Quot(offsetNorm, ai));
      if observedDrift > ADJ_FREQ_MAX {
        observedDrift := ADJ_FREQ_MAX;
      } else if observedDrift < -ADJ_FREQ_MAX {
        observedDrift := -ADJ_FREQ_MAX;
      }
      action := Idle;
      if !noAdjust {
        var adj := Wrap32(Quot(offsetNorm, ap) + observedDrift);
        action := Slew(Clamp(Wrap32(-adj)));
      }
    }

    /** An offset against which the clock has not been steered yet is held against, never followed. */
    static predicate Opposes(ns: int, drift: int, drift': int, action: Action) {
      && (ns >= 0 && drift >= 0 ==> drift <= drift' && (action.Slew? ==> action.rate <= 0))
      && (ns <= 0 && drift <= 0 ==> drift' <= drift && (action.Slew? ==> action.rate >= 0))
    }

    lemma SteeringOpposes(drift: int)
      requires Valid() && -ADJ_FREQ_MAX <= drift <= ADJ_FREQ_MAX
      ensures offsetFromMaster.seconds == 0 && logSyncInterval >= -1 ==>
                Opposes(offsetFromMaster.nanoseconds, drift, DriftAfter(drift), SteerAction(drift))
    {
      if logSyncInterval >= -1 {
        ControllerSafeExactlyWhen(logSyncInterval);
        assert BelowSecond(offsetFromMaster.nanoseconds);
        ControllerOpposesOffset(offsetFromMaster.nanoseconds, drift, logSyncInterval, ap, ai);
      }
      hide StoredDrift, StoredRate, ControllerFits, Calm, InWords;
    }

    /** Sets the clock on an offset of seconds, otherwise steers its rate; `now` is the system time. */
    method UpdateClock(now: Time) returns (action: Action)
      requires Valid() && InFields(now)
      modifies this`observedDrift, this`waitingForFollowUp, this`waitingForPDelayRespFollowUp
      modifies tms, ofmFilt, owdFilt
      ensures Valid()
      ensures action == ClockAction(now, old(observedDrift))
      ensures action.Reset? ==> observedDrift == 0 && ofmFilt.n == 0 && owdFilt.n == 0 && !waitingForFollowUp
      ensures !action.Reset? ==> unchanged(tms, ofmFilt, owdFilt)
      ensures !OutOfReach(offsetFromMaster.Get()) ==> observedDrift == DriftAfter(old(observedDrift))
      ensures OutOfReach(offsetFromMaster.Get()) && !action.Reset? ==> observedDrift == old(observedDrift)
      ensures offsetFromMaster.seconds == 0 && logSyncInterval >= -1 ==>
                Opposes(offsetFromMaster.nanoseconds, old(observedDrift), observedDrift, action)
      ensures offsetFromMaster.seconds != 0 && action.Slew? ==>
                Abs(action.rate) == ADJ_FREQ_MAX
                && (action.rate < 0 <==> offsetFromMaster.nanoseconds > 0)
    {
      assert FieldsFit();
      assert offsetFromMaster.seconds == 0 ==> !OutOfReach(offsetFromMaster.Get());
      hide Opposes, Difference, WellFormed, Calm, DriftAfter, SteerAction;
      action := Idle;
      if offsetFromMaster.seconds != 0 || Abs(offsetFromMaster.nanoseconds) > MAX_ADJ_OFFSET_NS {
        if !noAdjust {
          if !noResetClock {
            var timeTmp := new TimeInternal(now.seconds, now.nanoseconds);
            SubTime(timeTmp, timeTmp, offsetFromMaster);
            action := Reset(timeTmp.Get());
            InitClock();
          } else {
            var adj := if offsetFromMaster.nanoseconds > 0 then ADJ_FREQ_MAX else -ADJ_FREQ_MAX;
            action := Slew(Clamp(-adj));
          }
        }
      } else {
        action := Steer();
      }
    }

    /** What a one-step Sync or a matching FollowUp does with its timestamps: the clock is set exactly when
        the raw offset is a second or more, so the nanosecond limit of `OutOfReach` decides nothing. */
    method Synchronize(ingress: TimeInternal, origin: TimeInternal, correction: TimeInternal, now: Time)
        returns (action: Action)
      requires Valid() && InFields(ingress.Get()) && InFields(origin.Get()) && InFields(correction.Get())
      requires {ingress, origin, correction} !! {tms, offsetFromMaster} && InFields(now)
      modifies this`events, this`observedDrift, this`waitingForFollowUp, this`waitingForPDelayRespFollowUp
      modifies tms, offsetFromMaster, ofmFilt, owdFilt
      ensures Valid()
      ensures var raw := old(RawOffset(Leg(ingress.Get(), origin.Get(), correction.Get())));
              && SetBy(Nanos(raw), now, action)
              && (action.Reset? ==> action.time == Difference(now, raw))
              && (Abs(Nanos(raw)) < BILLION ==>
                    offsetFromMaster.seconds == 0 && BelowSecond(offsetFromMaster.nanoseconds))
              && events == old(events) + OffsetEvents(portState, raw, offsetFromMaster.Get())
      ensures SetFrom(ingress.Get(), origin.Get(), correction.Get(), now, action)
    {
      ghost var raw, was := RawOffset(Leg(ingress.Get(), origin.Get(), correction.Get())), ofmFilt.Get();
      assert InWords(was) && (was.n > 0 ==> BelowSecond(was.yPrev));
      assert {meanPathDelay, peerMeanPathDelay} !! {tms, offsetFromMaster};
      hide ServoClock.Valid, Apart, Leg, Difference, WellFormed, Calm, Nanos, InWords, InReach, SetBy, FromNanos,
           InFields, Configured, RawOffset, OffsetEvents, BelowSecond, Smoothed, FilterAfter, MeasuredFrom, SetFrom;
      UpdateOffset(ingress, origin, correction);
      action := ClockAfterOffset(raw, was, now);
      SetFromRaw(ingress.Get(), origin.Get(), correction.Get(), raw, now, action);
    }

    lemma SetFromRaw(ingress: Time, origin: Time, correction: Time, raw: Time, now: Time, action: Action)
      requires raw == RawOffset(Leg(ingress, origin, correction)) && SetBy(Nanos(raw), now, action)
      ensures SetFrom(ingress, origin, correction, now, action)
    {
      RawOffsetInReach(ingress, origin, correction);
      hide RawOffset, SetBy, Nanos, InReach, FromNanos, Leg;
    }

    /** `UpdateClock` on an offset that comes from the raw offset `raw`. */
    method ClockAfterOffset(ghost raw: Time, ghost was: State, now: Time) returns (action: Action)
      requires Valid() && WellFormed(raw) && InWords(was) && (was.n > 0 ==> BelowSecond(was.yPrev)) && InFields(now)
      requires offsetFromMaster.Get() == Smoothed(was, raw)
      modifies this`observedDrift, this`waitingForFollowUp, this`waitingForPDelayRespFollowUp
      modifies tms, ofmFilt, owdFilt
      ensures Valid()
      ensures SetBy(Nanos(raw), now, action) && (action.Reset? ==> action.time == Difference(now, raw))
      ensures Abs(Nanos(raw)) < BILLION ==> offsetFromMaster.seconds == 0 && BelowSecond(offsetFromMaster.nanoseconds)
    {
      SmoothedBelowSecond(was, raw);
      ghost var offset, drift := offsetFromMaster.Get(), observedDrift;
      hide Difference, WellFormed, Calm, Nanos, DriftAfter, StoredRate, InWords, SetBy, FromNanos, InFields, Smoothed,
           Opposes, ClockAction, OutOfReach;
      action := UpdateClock(now);
      ActionOn(raw, offset, now, drift, action);
    }

    /** On a raw offset of `w` nanoseconds the clock is set exactly when that is allowed and `w` is a second or more,
        to the time less `w`. */
    predicate SetBy(w: int, now: Time, action: Action) {
      && (action.Reset? <==> !noAdjust && !noResetClock && Abs(w) >= BILLION)
      && (action.Reset? && WellFormed(now) && Near(Nanos(now) - w) ==> Nanos(action.time) == Nanos(now) - w)
    }

    lemma ActionOn(raw: Time, offset: Time, now: Time, drift: int, action: Action)
      requires Configured() && WellFormed(raw) && InFields(now) && offset == offsetFromMaster.Get()
      requires offset.seconds != 0 <==> Abs(Nanos(raw)) >= BILLION
      requires if offset.seconds != 0 then offset == raw else BelowSecond(offset.nanoseconds)
      requires action == ClockAction(now, drift)
      ensures SetBy(Nanos(raw), now, action) && (action.Reset? ==> action.time == Difference(now, raw))
    {
      if WellFormed(now) && Near(Nanos(now) - Nanos(raw)) {
        NearDifference(now, raw);
      }
      hide Difference, StoredRate;
    }

    predicate OutOfReach(offset: Time) { offset.seconds != 0 || Abs(offset.nanoseconds) > MAX_ADJ_OFFSET_NS }

    function DriftAfter(drift: int): int
      requires -31 <= logSyncInterval && ai >= 1
      reads offsetFromMaster
    {
      StoredDrift(offsetFromMaster.nanoseconds, drift, logSyncInterval, ai)
    }

    function ClockAction(now: Time, drift: int): Action
      requires -31 <= logSyncInterval && ai >= 1 && ap >= 1
      reads offsetFromMaster
    {
      if noAdjust then Idle
      else if OutOfReach(offsetFromMaster.Get()) then
        if !noResetClock then Reset(Difference(now, offsetFromMaster.Get()))
        else Slew(if offsetFromMaster.nanoseconds > 0 then -ADJ_FREQ_MAX else ADJ_FREQ_MAX)
      else SteerAction(drift)
    }

    function SteerAction(drift: int): Action
      requires -31 <= logSyncInterval && ai >= 1 && ap >= 1
      reads offsetFromMaster
    {
      if noAdjust then Idle
      else Slew(StoredRate(offsetFromMaster.nanoseconds, drift, logSyncInterval, ap, ai))
    }
  }

  /** With resets forbidden, an offset of a second or more is slewed against at the full rate, except one of whole
      seconds ahead: its nanoseconds decide, they are not positive, and so it is slewed with. */
  lemma SlewsAgainstExactlyWhen(offset: Time, rate: int)
    requires WellFormed(offset) && offset.seconds != 0
    requires Abs(rate) == ADJ_FREQ_MAX && (rate < 0 <==> offset.nanoseconds > 0)
    ensures (rate < 0 <==> Nanos(offset) > 0) <==> !(offset.seconds > 0 && offset.nanoseconds == 0)
  {
  }

  lemma WholeSecondOrMore(t: Time)
    requires Canonical(t)
    ensures t.seconds != 0 <==> Abs(Nanos(t)) >= BILLION
  {
  }
}
