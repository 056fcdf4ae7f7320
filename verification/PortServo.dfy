/** The servo and the port together: the offset of module Servo is the one the port reacts to. */
module PortServo {
  import opened Types
  import opened Words
  import opened Arith
  import opened Servo
  import Port

  /** How the port sees an offset. */
  function ClassOf(raw: Time, smoothed: Time): Port.OffsetClass {
    if raw.seconds != 0 then Port.Seconds
    else if Abs(smoothed.nanoseconds) < CALIBRATED_OFFSET_NS then Port.Calibrated
    else if Abs(smoothed.nanoseconds) > UNCALIBRATED_OFFSET_NS then Port.Uncalibrating
    else Port.Between
  }

  /** The events a port sees are those the servo raises, and a two-step exchange is forgotten exactly when the
      clock may be set and the raw offset is a second or more. */
  lemma PortFollowsServo(s: Port.State, e: Port.Env, raw: Time, smoothed: Time)
    requires Canonical(raw) && e.offset == ClassOf(raw, smoothed)
    ensures var s' := Port.UpdateOffsetAndClock(s, e);
            && s'.events == s.events + OffsetEvents(s.portState, raw, smoothed)
            && (s'.waitingForFollowUp <==> s.waitingForFollowUp && !(e.clockReset && Abs(Nanos(raw)) >= BILLION))
  {
    WholeSecondOrMore(raw);
  }
}
