/** The four-timestamp exchanges of servo.c recover delay and offset. */
module ServoExchange {
  import opened Types
  import opened Words
  import opened Arith
  import opened Filter
  import FilterWords
  import opened Servo

  /** A time on the wire or from the hardware: never negative. */
  predicate Stamp(t: Time) { WellFormed(t) && t.seconds >= 0 && t.nanoseconds >= 0 }

  /** A correction field holds at most 2^63 units of 2^-16 ns. */
  predicate WireCorrection(c: Time) { WellFormed(c) && Abs(Nanos(c)) <= 0x8000_0000_0000 }

  /** `t` denotes `v` and is the stored form of it. */
  predicate Denotes(t: Time, v: int) { WellFormed(t) && Nanos(t) == v }

  lemma StampDifference(x: Time, y: Time)
    requires Stamp(x) && Stamp(y)
    ensures Denotes(Difference(x, y), Nanos(x) - Nanos(y))
  {
    DifferenceExactness(x, y);
  }

  /** A leg measures the true interval once the correction is taken out. */
  lemma LegMeasures(received: Time, sent: Time, correction: Time, interval: int)
    requires Stamp(received) && Stamp(sent) && WireCorrection(correction)
    requires Nanos(received) == Nanos(sent) + interval + Nanos(correction) && Representable(interval)
    ensures Denotes(Leg(received, sent, correction), interval)
  {
    StampDifference(received, sent);
    var x := Difference(received, sent);
    DifferenceExactness(x, correction);
    assert correction.seconds > -TWO31 + 1;
  }

  lemma HalfOf(t: Time, v: int)
    requires Denotes(t, v)
    ensures Half(t) == FromNanos(Quot(v, 2)) && Quot(2 * v, 2) == v
  {
  }

  /** An end-to-end exchange with delays `d1` to the slave and `d2` back, between clocks `theta` apart,
      measures half of the delays truncated toward zero; when they are equal it measures the delay, and
      the offset measured with that delay is `theta`. */
  lemma EndToEnd(t1: Time, t2: Time, t3: Time, t4: Time, c1: Time, c2: Time, d1: nat, d2: nat, theta: int)
    requires Stamp(t1) && Stamp(t2) && Stamp(t3) && Stamp(t4) && WireCorrection(c1) && WireCorrection(c2)
    requires Nanos(t2) == Nanos(t1) + (d1 + theta) + Nanos(c1)
    requires Nanos(t4) == Nanos(t3) + (d2 - theta) + Nanos(c2)
    requires Representable(d1 + theta) && Representable(d2 - theta) && Representable(d1 + d2) && Representable(theta)
    ensures RawMeanPathDelay(Leg(t2, t1, c1), Leg(t4, t3, c2)) == FromNanos(Quot(d1 + d2, 2))
    ensures d1 == d2 ==> RawMeanPathDelay(Leg(t2, t1, c1), Leg(t4, t3, c2)) == FromNanos(d1)
    ensures d1 == d2 ==> Difference(Leg(t2, t1, c1), FromNanos(d1)) == FromNanos(theta)
  {
    hide Leg, Difference, Sum, Quot, Half;
    LegMeasures(t2, t1, c1, d1 + theta);
    LegMeasures(t4, t3, c2, d2 - theta);
    var tms, tsm := Leg(t2, t1, c1), Leg(t4, t3, c2);
    SumExactness(tms, tsm);
    HalfOf(Sum(tms, tsm), d1 + d2);
    if d1 == d2 {
      assert d1 + d2 == 2 * d1;
      QuotOfTwice(d1);
      OffsetFromLeg(tms, d1, theta);
    }
  }

  lemma QuotOfTwice(d: nat)
    ensures Quot(2 * d, 2) == d
  {
  }

  lemma OffsetFromLeg(tms: Time, d: nat, theta: int)
    requires Denotes(tms, d + theta) && Representable(theta) && Representable(2 * d)
    ensures Difference(tms, FromNanos(d)) == FromNanos(theta)
  {
    var delay := FromNanos(d);
    CanonicalIsUnique(delay, d);
    DifferenceExactness(tms, delay);
    CanonicalIsUnique(Difference(tms, delay), theta);
  }

  /** A two-step peer exchange recovers the delay whatever the responder's clock reads. */
  lemma PeerToPeer(t1: Time, t2: Time, t3: Time, t4: Time, c1: int, c2: int, correction: Time,
                   d1: nat, d2: nat, theta: int)
    requires Stamp(t1) && Stamp(t2) && Stamp(t3) && Stamp(t4) && WireCorrection(correction)
    requires Nanos(t2) == Nanos(t1) + (d1 + theta) + c1 && Nanos(t4) == Nanos(t3) + (d2 - theta) + c2
    requires Nanos(correction) == c1 + c2
    requires Representable(d1 + d2) && Representable(d1 + d2 + Nanos(correction))
    ensures RawPeerDelay(t1, t2, t3, t4, correction, true) == FromNanos(Quot(d1 + d2, 2))
    ensures d1 == d2 ==> RawPeerDelay(t1, t2, t3, t4, correction, true) == FromNanos(d1)
  {
    hide Difference, Sum, Quot, Half;
    StampDifference(t2, t1);
    StampDifference(t4, t3);
    var turn := Sum(Difference(t2, t1), Difference(t4, t3));
    SumExactness(Difference(t2, t1), Difference(t4, t3));
    TurnLessCorrection(turn, correction, d1 + d2);
    HalfOf(Difference(turn, correction), d1 + d2);
    if d1 == d2 {
      QuotOfTwice(d1);
      assert d1 + d2 == 2 * d1;
    }
  }

  lemma TurnLessCorrection(turn: Time, correction: Time, v: int)
    requires WireCorrection(correction) && Denotes(turn, v + Nanos(correction)) && Representable(v)
    ensures Denotes(Difference(turn, correction), v)
  {
    DifferenceExactness(turn, correction);
    assert correction.seconds > -TWO31 + 1;
  }

  /** A one-step responder puts its turnaround into the correction: the same result. */
  lemma PeerToPeerOneStep(t1: Time, t2: Time, t3: Time, t4: Time, c1: int, c2: int, correction: Time,
                          d1: nat, d2: nat, theta: int)
    requires Stamp(t1) && Stamp(t4) && WireCorrection(correction)
    requires Nanos(t2) == Nanos(t1) + (d1 + theta) + c1 && Nanos(t4) == Nanos(t3) + (d2 - theta) + c2
    requires Nanos(correction) == c1 + c2 + (Nanos(t3) - Nanos(t2)) && Representable(d1 + d2)
    ensures RawPeerDelay(t1, t2, t3, t4, correction, false) == FromNanos(Quot(d1 + d2, 2))
    ensures d1 == d2 ==> RawPeerDelay(t1, t2, t3, t4, correction, false) == FromNanos(d1)
  {
    hide Difference, Quot, Half;
    StampDifference(t4, t1);
    TurnLessCorrection(Difference(t4, t1), correction, d1 + d2);
    HalfOf(Difference(Difference(t4, t1), correction), d1 + d2);
    if d1 == d2 {
      QuotOfTwice(d1);
      assert d1 + d2 == 2 * d1;
    }
  }

  // ----- The exchange on the clock record -----

  /** What a fresh filter makes of a time is the time itself. */
  lemma FreshFilterPasses(f: State, raw: Time)
    requires InWords(f) && f.n == 0 && BelowSecond(raw.nanoseconds)
    ensures Smoothed(f, raw) == raw
  {
    FilterWords.FirstOutput(f, raw.nanoseconds);
    hide StoredStep, InWords;
  }

  lemma FreshFilterShows(w: int, was: State, offset: Time, filter: State)
    requires InWords(was) && was.n == 0 && SmoothedFrom(w, was, offset, filter)
    ensures offset == FromNanos(w)
  {
    if BelowSecond(w) {
      FilterWords.FirstOutput(was, w);
      CanonicalIsUnique(Time(0, w), w);
    }
    hide StoredStep, InWords, FromNanos;
  }

  /** The times of a Sync over a path of delay `d` to a clock `theta` ahead. */
  predicate SyncOver(t1: Time, t2: Time, c: Time, d: nat, theta: int) {
    && Stamp(t1) && Stamp(t2) && WireCorrection(c) && Nanos(t2) == Nanos(t1) + (d + theta) + Nanos(c)
    && Near(d + theta) && Near(d + theta + Nanos(c)) && Near(theta) && Near(2 * d)
  }

  predicate DelayOver(t3: Time, t4: Time, c: Time, d: nat, theta: int) {
    Stamp(t3) && Stamp(t4) && WireCorrection(c) && Nanos(t4) == Nanos(t3) + (d - theta) + Nanos(c) && Near(d - theta)
  }

  lemma SyncInReach(t1: Time, t2: Time, c: Time, d: nat, theta: int)
    requires SyncOver(t1, t2, c, d, theta)
    ensures WellFormed(FromNanos(d)) && Nanos(FromNanos(d)) == d && InReach(t2, t1, c, FromNanos(d))
  {
    CanonicalIsUnique(FromNanos(d), d);
    hide FromNanos;
  }

  /** Once the mean path delay is known, the first Sync through a fresh offset filter shows the offset. */
  method OffsetShown(clock: ServoClock, t1: Time, t2: Time, c: Time, ghost d: nat, ghost theta: int)
    requires clock.Valid() && clock.delayMechanism == E2E && clock.ofmFilt.n == 0
    requires SyncOver(t1, t2, c, d, theta) && clock.meanPathDelay.Get() == FromNanos(d)
    modifies clock`events, clock.tms, clock.offsetFromMaster, clock.ofmFilt
    ensures clock.Valid() && clock.offsetFromMaster.Get() == FromNanos(theta)
  {
    ghost var was := clock.ofmFilt.Get();
    assert InFields(t1) && InFields(t2) && InFields(c) && InWords(was);
    assert clock.meanPathDelay !in {clock.tms, clock.offsetFromMaster};
    hide ServoClock.Valid, ServoClock.Apart, ServoClock.MeasuredFrom, ServoClock.RawOffset, WellFormed, InFields,
         InWords, FromNanos, Leg, Nanos, SyncOver, Smoothed, FilterAfter, OffsetEvents;
    var ingress := new TimeInternal(t2.seconds, t2.nanoseconds);
    var origin := new TimeInternal(t1.seconds, t1.nanoseconds);
    var correction := new TimeInternal(c.seconds, c.nanoseconds);
    clock.UpdateOffset(ingress, origin, correction);
    MeasuredShows(clock, t1, t2, c, was, d, theta);
  }

  lemma MeasuredShows(clock: ServoClock, t1: Time, t2: Time, c: Time, was: State, d: nat, theta: int)
    requires InWords(was) && was.n == 0 && clock.MeasuredFrom(t2, t1, c, was)
    requires clock.delayMechanism == E2E && clock.meanPathDelay.Get() == FromNanos(d) && SyncOver(t1, t2, c, d, theta)
    ensures clock.offsetFromMaster.Get() == FromNanos(theta)
  {
    SyncInReach(t1, t2, c, d, theta);
    FreshFilterShows(theta, was, clock.offsetFromMaster.Get(), clock.ofmFilt.Get());
    hide InReach, InWords, FromNanos, WellFormed;
  }

  /** After a Sync has been measured, the delay exchange through a fresh delay filter shows the mean path delay. */
  method DelayShown(clock: ServoClock, t1: Time, t2: Time, c1: Time, t3: Time, t4: Time, c2: Time,
                    ghost d: nat, ghost theta: int)
    requires clock.Valid() && clock.ofmFilt.n != 0 && clock.owdFilt.n == 0
    requires SyncOver(t1, t2, c1, d, theta) && DelayOver(t3, t4, c2, d, theta) && clock.tms.Get() == Leg(t2, t1, c1)
    modifies clock.tsm, clock.meanPathDelay, clock.owdFilt
    ensures clock.Valid() && clock.meanPathDelay.Get() == FromNanos(d)
  {
    ghost var was := clock.owdFilt.Get();
    assert InFields(t3) && InFields(t4) && InFields(c2) && InWords(was);
    hide *;
    LegsShow(t1, t2, t3, t4, c1, c2, d, theta);
    FreshFilterPasses(was, FromNanos(d));
    DelayMeasured(clock, t3, t4, c2, was);
  }

  method DelayMeasured(clock: ServoClock, t3: Time, t4: Time, c: Time, ghost was: State)
    requires clock.Valid() && clock.ofmFilt.n != 0 && was == clock.owdFilt.Get() && InWords(was)
    requires InFields(t3) && InFields(t4) && InFields(c)
    requires BelowSecond(RawMeanPathDelay(clock.tms.Get(), Leg(t4, t3, c)).nanoseconds)
    modifies clock.tsm, clock.meanPathDelay, clock.owdFilt
    ensures clock.Valid()
    ensures clock.meanPathDelay.Get() == Smoothed(was, RawMeanPathDelay(old(clock.tms.Get()), Leg(t4, t3, c)))
  {
    assert clock.tms != clock.tsm && clock.tms != clock.meanPathDelay && clock.ofmFilt != clock.owdFilt;
    hide ServoClock.Valid, ServoClock.Apart, ServoClock.Configured, WellFormed, InFields, InWords, Leg, Smoothed,
         FilterAfter, RawMeanPathDelay, BelowSecond;
    var egress := new TimeInternal(t3.seconds, t3.nanoseconds);
    var receive := new TimeInternal(t4.seconds, t4.nanoseconds);
    var correction := new TimeInternal(c.seconds, c.nanoseconds);
    clock.UpdateDelay(egress, receive, correction);
  }

  lemma LegsShow(t1: Time, t2: Time, t3: Time, t4: Time, c1: Time, c2: Time, d: nat, theta: int)
    requires SyncOver(t1, t2, c1, d, theta) && DelayOver(t3, t4, c2, d, theta)
    ensures RawMeanPathDelay(Leg(t2, t1, c1), Leg(t4, t3, c2)) == FromNanos(d)
    ensures WellFormed(FromNanos(d)) && BelowSecond(FromNanos(d).nanoseconds)
  {
    NearIsRepresentable(d + theta);
    NearIsRepresentable(d - theta);
    NearIsRepresentable(d + d);
    NearIsRepresentable(theta);
    CanonicalIsUnique(FromNanos(d), d);
    hide Leg, RawMeanPathDelay, FromNanos, Representable;
    EndToEnd(t1, t2, t3, t4, c1, c2, d, d, theta);
  }

  lemma NearIsRepresentable(v: int)
    requires Near(v)
    ensures Representable(v)
  {
  }

  /** A symmetric end-to-end exchange on a clock record: a Sync, the delay exchange through a fresh delay filter, the
      filters cleared as they are when the clock is set, and a Sync again. The delay and the offset come out. */
  method SymmetricExchange(clock: ServoClock, t1: Time, t2: Time, c1: Time, t3: Time, t4: Time, c2: Time,
                           u1: Time, u2: Time, c3: Time, ghost d: nat, ghost theta: int)
    requires clock.Valid() && clock.delayMechanism == E2E && clock.ofmFilt.n != 0 && clock.owdFilt.n == 0
    requires SyncOver(t1, t2, c1, d, theta) && DelayOver(t3, t4, c2, d, theta) && SyncOver(u1, u2, c3, d, theta)
    modifies clock, clock.Times(), clock.ofmFilt, clock.owdFilt
    ensures clock.Valid()
    ensures clock.meanPathDelay.Get() == FromNanos(d) && clock.offsetFromMaster.Get() == FromNanos(theta)
  {
    assert InFields(t1) && InFields(t2) && InFields(c1);
    assert clock.tms != clock.tsm && clock.meanPathDelay !in {clock.tms, clock.offsetFromMaster}
           && clock.ofmFilt != clock.owdFilt;
    hide ServoClock.Valid, ServoClock.Apart, WellFormed, InFields, InWords, FromNanos, Leg, Nanos, SyncOver, DelayOver,
         Smoothed, FilterAfter, ServoClock.MeasuredFrom, ServoClock.RawOffset, OffsetEvents;
    FirstSync(clock, t1, t2, c1);
    DelayShown(clock, t1, t2, c1, t3, t4, c2, d, theta);
    clock.InitClock();
    OffsetShown(clock, u1, u2, c3, d, theta);
  }

  method FirstSync(clock: ServoClock, t1: Time, t2: Time, c: Time)
    requires clock.Valid() && clock.ofmFilt.n != 0 && InFields(t1) && InFields(t2) && InFields(c)
    modifies clock`events, clock.tms, clock.offsetFromMaster, clock.ofmFilt
    ensures clock.Valid() && clock.ofmFilt.n != 0 && clock.tms.Get() == Leg(t2, t1, c)
  {
    ghost var was := clock.ofmFilt.Get();
    assert InWords(was);
    hide ServoClock.Valid, ServoClock.Apart, ServoClock.Configured, WellFormed, InFields, InWords, FromNanos, Leg,
         Nanos, ServoClock.MeasuredFrom, ServoClock.RawOffset, Smoothed, FilterAfter, OffsetEvents;
    var ingress := new TimeInternal(t2.seconds, t2.nanoseconds);
    var origin := new TimeInternal(t1.seconds, t1.nanoseconds);
    var correction := new TimeInternal(c.seconds, c.nanoseconds);
    clock.UpdateOffset(ingress, origin, correction);
    FilterCounts(was, clock.RawOffset(clock.tms.Get()), clock.ofmFilt.Get());
  }

  lemma FilterCounts(f: State, raw: Time, f': State)
    requires InWords(f) && f.n != 0 && WellFormed(raw) && f' == FilterAfter(f, raw)
    ensures f'.n != 0
  {
    Pow2Monotone(0, f.s);
    hide NextOrder, NextSum, Wrap32, ShiftRight, Pow2;
  }
}
