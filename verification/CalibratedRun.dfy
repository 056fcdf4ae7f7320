/** A run in which a clock follows a master: how far it gets is decided by the offsets it measures. */
module CalibratedRun {
  import opened Types
  import opened Messages
  import opened BmcOrder
  import opened BmcDecision
  import FM = ForeignMasters
  import Codec
  import opened Port
  import opened PortInvariants
  import opened PortRuns
  import PortSteps
  import PortResults
  import opened MixedPair

  /** A call in which an offset of the given size is measured, if what arrives is measured. */
  function Measuring(r: Reception, offset: OffsetClass): Env { Env(true, {}, r, {}, {}, offset, false) }

  function OneStepSync(h: Header, a: Announce): Reception {
    Packet(44, h.(messageType := Codec.SYNC, flag0 := 0), a, h.source)
  }

  /** Start up; an announce; the decision and a two-step Sync; its FollowUp; nothing; a one-step Sync; nothing. */
  function Calls(h: Header, a: Announce, id: int, first: OffsetClass, second: OffsetClass): seq<Env> {
    [Receiving(Nothing), Receiving(AnnouncePacket(h, a)), Receiving(SyncPacket(h, a, id)),
     Measuring(FollowUpPacket(h, a, id), first), Receiving(Nothing), Measuring(OneStepSync(h, a), second),
     Receiving(Nothing)]
  }

  /** A port that follows `h` without anything else having happened to it. */
  predicate Following(s: State, portState: PortState, h: Header) {
    s.portState == portState && s.recommended == Slave && s.parent.port == h.source && StateDecision !in s.events
  }

  /** The FollowUp of the Sync that waits is measured in UNCALIBRATED. */
  lemma FollowUpArrives(c: Config, s: State, h: Header, a: Announce, id: int, offset: OffsetClass, e: Env)
    requires FM.Valid(s.ring) && At(s, Uncalibrated, Slave, false) && Following(s, Uncalibrated, h) && Heeded(c, h)
    requires s.waitingForFollowUp && s.recvSyncId == id && e == Measuring(FollowUpPacket(h, a, id), offset)
    ensures var s' := DoState(c, s, e);
            && FM.Valid(s'.ring) && Following(s', Uncalibrated, h)
            && s'.events == s.events - {MasterClockChanged} + PortSteps.Signalled(Uncalibrated, offset)
  {
    assert StateDecisionEvent(c, s) == s;
    PortSteps.SlaveMovesExactlyWhen(c, s, e);
    PortResults.FollowKeepsWaiting(c, s, e);
    FollowKeepsRecommendation(c, s, e);
    var s1 := FollowRecommendation(c, s, e);
    assert s1.events == s.events - {MasterClockChanged};
    hide FollowRecommendation, StateDecisionEvent, Handle, At, PortInvariants.QuietTrace, TimersOk;
    assert Act(c, s1, e) == Handle(c, s1, e);
    PortSteps.ReceptionDecides(c, s1, e);
    HandleIsCalm(c, NO_PORT, s1, e);
  }

  lemma FollowKeepsRecommendation(c: Config, s: State, e: Env)
    requires s.recommended == Slave && Synchronizing(s.portState)
    ensures FollowRecommendation(c, s, e).recommended == Slave
  {
    forall events, p | p in {Slave, Uncalibrated}
      ensures ToState(c, s.(events := events), p).recommended == Slave
    {
    }
  }

  /** A one-step Sync is measured in SLAVE. */
  lemma SyncArrives(c: Config, s: State, h: Header, a: Announce, offset: OffsetClass, e: Env)
    requires FM.Valid(s.ring) && Following(s, Slave, h) && Heeded(c, h) && e == Measuring(OneStepSync(h, a), offset)
    requires {SynchronizationFault, MasterClockChanged} !! s.events
    ensures var s' := DoState(c, s, e);
            && FM.Valid(s'.ring) && Following(s', Slave, h)
            && s'.events == s.events + PortSteps.Signalled(Slave, offset)
  {
    assert StateDecisionEvent(c, s) == s && FollowRecommendation(c, s, e) == s;
    hide FollowRecommendation, StateDecisionEvent, Handle, PortInvariants.QuietTrace, TimersOk;
    assert Act(c, s, e) == Handle(c, s, e);
    PortSteps.ReceptionDecides(c, s, e);
    HandleIsCalm(c, NO_PORT, s, e);
  }

  /** A call in which nothing happens acts on the events of the call before. */
  lemma NothingArrives(c: Config, s: State, h: Header, e: Env)
    requires FM.Valid(s.ring) && Synchronizing(s.portState) && Following(s, s.portState, h) && e == Receiving(Nothing)
    ensures var s' := DoState(c, s, e);
            FM.Valid(s'.ring) && Following(s', s'.portState, h) && PortSteps.CalibrationMoves(s, s')
  {
    assert StateDecisionEvent(c, s) == s;
    PortSteps.SlaveMovesExactlyWhen(c, s, e);
    FollowKeepsRecommendation(c, s, e);
    hide FollowRecommendation, StateDecisionEvent;
  }

  /** Any clock that would follow a master is SLAVE after its first Sync exactly when the offset was small, and is then
      still SLAVE after the second exactly when that offset was not large. */
  lemma SlaveExactlyWhen(c: Config, slots: seq<FM.Record>, h: Header, a: Announce, id: int, first: OffsetClass,
                         second: OffsetClass)
    requires slots != [] && Heeded(c, h) && Decide(c.local, CandidateOf(h, a)) == Slave
    ensures var es := Calls(h, a, id, first, second);
            && Run(c, slots, es[..5]).portState == (if first == Calibrated then Slave else Uncalibrated)
            && (first == Calibrated ==>
                  Run(c, slots, es).portState == if second in {Uncalibrating, Seconds} then Uncalibrated else Slave)
  {
    var es := Calls(h, a, id, first, second);
    hide DoState, Run, PowerUp, Inv, Decide, Heeded, Holds, CandidateOf;
    PowerUpRun(c, slots);
    assert es[..0] == [] && es[..7] == es;
    forall k: nat | k < 7 ensures FM.Valid(Run(c, slots, es[..k]).ring) &&
                                  Run(c, slots, es[..k + 1]) == DoState(c, Run(c, slots, es[..k]), es[k]) {
      RunExtends(c, slots, es, k);
    }
    var s0 := PowerUp(c, slots);
    FirstCall(c, s0, es[0]);
    var s1 := DoState(c, s0, es[0]);
    SecondCall(c, s1, h, a, es[1]);
    var s2 := DoState(c, s1, es[1]);
    ThirdCall(c, s2, h, a, id, es[2]);
    var s3 := DoState(c, s2, es[2]);
    FollowUpArrives(c, s3, h, a, id, first, es[3]);
    var s4 := DoState(c, s3, es[3]);
    NothingArrives(c, s4, h, es[4]);
    var s5 := DoState(c, s4, es[4]);
    if first == Calibrated {
      SyncArrives(c, s5, h, a, second, es[5]);
      NothingArrives(c, DoState(c, s5, es[5]), h, es[6]);
    }
  }
}
