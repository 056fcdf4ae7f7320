/** The clock record of protocol.c, updated in place, against the functions of module Port. */
module PortClock {
  import opened Types
  import opened Words
  import opened Messages
  import opened BmcOrder
  import BmcDecision
  import FM = ForeignMasters
  import Codec
  import Port
  import PortRuns
  import PortSteps

  class PtpClock {
    const config: Port.Config
    var portState: PortState
    var recommendedState: PortState
    var events: set<Event>
    var armed: set<Port.Timer>
    const foreign: FM.ForeignMasterDS
    var parent: Port.Parent
    var stepsRemoved: int
    var waitingForFollowUp: bool
    var recvSyncId: int
    var waitingForPeerFollowUp: bool
    var sentSync: int
    var sentAnnounce: int
    var sentDelayReq: int
    var sentPDelayReq: int
    ghost var inits: nat
    ghost var heard: set<Port.Heard>
    ghost var sent: set<Port.Kind>
    ghost var trace: seq<Port.Trace>
    ghost var accepted: nat
    ghost const slots: seq<FM.Record>
    ghost var calls: seq<Port.Env>

    /** The state the fields stand for. */
    ghost function Now(): Port.State
      reads this, foreign, foreign.records
    {
      Port.State(portState, recommendedState, events, armed, foreign.Get(), parent, stepsRemoved, waitingForFollowUp,
                 recvSyncId, waitingForPeerFollowUp, sentSync, sentAnnounce, sentDelayReq, sentPDelayReq,
                 inits, heard, sent, trace, accepted)
    }

    /** The parent data set as an announce would describe it. */
    function Described(): Candidate
      reads this
    {
      Candidate(parent.priority1, parent.quality, parent.priority2, parent.grandmaster, stepsRemoved,
                parent.port.clockIdentity)
    }

    /** The state is that of the run of all calls so far. */
    ghost predicate Valid()
      reads this, foreign, foreign.records
    {
      slots != [] && Now() == PortRuns.Run(config, slots, calls)
    }

    /** Start-up: a cleared record is told to initialise. */
    constructor (config: Port.Config, foreign: FM.ForeignMasterDS)
      requires foreign.Get() == FM.Ring(foreign.records[..], 0, 0, 0) && foreign.records.Length > 0
      ensures this.config == config && this.foreign == foreign && calls == [] && slots == foreign.records[..] && Valid()
    {
      this.config, this.foreign := config, foreign;
      portState, recommendedState, events, armed := Initializing, Initializing, {}, {};
      parent := Port.Parent(PortRuns.NO_PORT, PortRuns.NO_CLOCK, Quality(0, 0, 0), 0, 0);
      stepsRemoved, recvSyncId, waitingForFollowUp, waitingForPeerFollowUp := 0, 0, false, false;
      sentSync, sentAnnounce, sentDelayReq, sentPDelayReq := 0, 0, 0, 0;
      inits, heard, sent, trace, accepted, calls, slots := 0, {}, {}, [], 0, [], foreign.records[..];
      new;
      ToState(Initializing);
    }

    // ----- Data sets -----

    method InitClock()
      modifies this`waitingForFollowUp, this`waitingForPeerFollowUp
      ensures Now() == Port.InitClock(old(Now()))
    {
      waitingForFollowUp := false;
      waitingForPeerFollowUp := false;
    }

    method SetParent(parent: Port.Parent, stepsRemoved: int)
      modifies this`parent, this`stepsRemoved, this`trace
      ensures Now() == Port.SetParent(old(Now()), parent, stepsRemoved)
    {
      if this.parent.port != parent.port {
        trace := trace + [Port.ParentChanged(parent.port)];
      }
      this.stepsRemoved := stepsRemoved;
      this.parent := parent;
    }

    /** The parent data set describes what the clock compares others with. */
    method M1()
      modifies this`parent, this`stepsRemoved, this`trace
      ensures Now() == Port.M1(config, old(Now()))
      ensures Described() == BmcDecision.D0(config.local)
    {
      SetParent(Port.OwnParent(config), 0);
    }

    /** The parent data set describes the sender's, one step further on; a new parent is signalled. */
    method S1(h: Header, a: Announce)
      modifies this`parent, this`stepsRemoved, this`trace, this`events
      ensures Now() == Port.S1(old(Now()), h, a)
      ensures Described() == CandidateOf(h, a).(stepsRemoved := Wrap16(a.stepsRemoved + 1)) && parent.port == h.source
      ensures events - {MasterClockChanged} == old(events) - {MasterClockChanged}
      ensures MasterClockChanged in events <==> MasterClockChanged in old(events) || old(parent).port != h.source
    {
      if parent.port != h.source {
        events := events + {MasterClockChanged};
      }
      SetParent(Port.ParentFrom(h, a), Wrap16(a.stepsRemoved + 1));
    }

    // ----- State changes -----

    method StopTimer(t: Port.Timer)
      modifies this`armed
      ensures armed == old(armed) - {t}
    {
      armed := armed - {t};
    }

    method StartTimer(t: Port.Timer)
      modifies this`armed
      ensures Now() == Port.Start(old(Now()), t)
    {
      armed := armed + {t};
    }

    method LeaveSlave(target: PortState)
      modifies this`armed, this`waitingForFollowUp, this`waitingForPeerFollowUp
      ensures Now() == Port.LeaveSlave(config, old(Now()), target)
    {
      if target == Uncalibrated || target == Slave {
        return;
      }
      StopTimer(Port.AnnounceReceipt);
      match config.delayMechanism {
        case E2E => StopTimer(Port.DelayReqInterval);
        case P2P => StopTimer(Port.PDelayReqInterval);
        case DelayDisabled =>
      }
      InitClock();
    }

    method LeaveMaster()
      modifies this`armed, this`waitingForFollowUp, this`waitingForPeerFollowUp
      ensures Now() == Port.Stop(Port.InitClock(old(Now())),
                                 {Port.SyncInterval, Port.AnnounceInterval, Port.PDelayReqInterval})
    {
      InitClock();
      StopTimer(Port.SyncInterval);
      StopTimer(Port.AnnounceInterval);
      StopTimer(Port.PDelayReqInterval);
      assert armed == old(armed) - {Port.SyncInterval, Port.AnnounceInterval, Port.PDelayReqInterval};
    }

    method LeavePassive()
      modifies this`armed, this`waitingForFollowUp, this`waitingForPeerFollowUp
      ensures Now() == Port.Stop(Port.InitClock(old(Now())), {Port.PDelayReqInterval, Port.AnnounceReceipt})
    {
      InitClock();
      StopTimer(Port.PDelayReqInterval);
      StopTimer(Port.AnnounceReceipt);
      assert armed == old(armed) - {Port.PDelayReqInterval, Port.AnnounceReceipt};
    }

    /** What leaving LISTENING and PRE_MASTER has in common. */
    method LeaveWaiting(t: Port.Timer)
      modifies this`armed, this`waitingForFollowUp, this`waitingForPeerFollowUp
      ensures Now() == Port.Stop(Port.InitClock(old(Now())), {t})
    {
      InitClock();
      StopTimer(t);
    }

    method Leave(target: PortState)
      modifies this`armed, this`waitingForFollowUp, this`waitingForPeerFollowUp
      ensures Now() == Port.Leave(config, old(Now()), target)
    {
      hide Port.LeaveSlave, Port.Stop, Port.InitClock, FM.ForeignMasterDS.Get;
      match portState {
        case Master => LeaveMaster();
        case Uncalibrated => LeaveSlave(target);
        case Slave => LeaveSlave(target);
        case Passive => LeavePassive();
        case Listening => LeaveWaiting(Port.AnnounceReceipt);
        case PreMaster => LeaveWaiting(Port.QualificationTimeout);
        case _ =>
      }
    }

    method EnterMaster()
      modifies this`armed, this`portState
      ensures Now() == Port.EnterMaster(config, old(Now())) && portState == Master
    {
      StartTimer(Port.SyncInterval);
      StartTimer(Port.AnnounceInterval);
      if config.delayMechanism == P2P {
        StartTimer(Port.PDelayReqInterval);
      }
      portState := Master;
    }

    method EnterUncalibrated()
      modifies this`armed, this`portState
      ensures Now() == Port.Enter(config, old(Now()), Uncalibrated) && portState == Uncalibrated
    {
      StartTimer(Port.AnnounceReceipt);
      match config.delayMechanism {
        case E2E => StartTimer(Port.DelayReqInterval);
        case P2P => StartTimer(Port.PDelayReqInterval);
        case DelayDisabled =>
      }
      portState := Uncalibrated;
    }

    /** Entering PRE_MASTER falls through to MASTER. */
    method Enter(target: PortState)
      modifies this`armed, this`portState, this`recommendedState
      ensures Now() == Port.Enter(config, old(Now()), target)
      ensures portState == if target == PreMaster then Master else target
      ensures recommendedState == if target in {Initializing, Listening} then target else old(recommendedState)
    {
      match target {
        case Initializing =>
          portState := Initializing;
          recommendedState := Initializing;
        case Faulty => portState := Faulty;
        case Disabled => portState := Disabled;
        case Listening =>
          StartTimer(Port.AnnounceReceipt);
          portState := Listening;
          recommendedState := Listening;
        case PreMaster => EnterMaster();
        case Master => EnterMaster();
        case Passive =>
          StartTimer(Port.AnnounceReceipt);
          if config.delayMechanism == P2P {
            StartTimer(Port.PDelayReqInterval);
          }
          portState := Passive;
        case Uncalibrated => EnterUncalibrated();
        case Slave => portState := Slave;
      }
      hide Port.EnterMaster;
    }

    method ToState(target: PortState)
      modifies this`armed, this`portState, this`recommendedState, this`waitingForFollowUp, this`waitingForPeerFollowUp
      ensures Now() == Port.ToState(config, old(Now()), target)
      ensures portState == if target == PreMaster then Master else target
      ensures recommendedState == if target in {Initializing, Listening} then target else old(recommendedState)
    {
      Leave(target);
      Enter(target);
      hide Port.Leave, Port.Enter;
    }

    // ----- Sending -----

    /** Hands a message to the network; the port is faulty if it cannot be sent. */
    method Send(k: Port.Kind, e: Port.Env) returns (ok: bool)
      modifies this
      ensures Now() == Port.Send(config, old(Now()), k, e) && ok == (k !in e.failing)
      ensures calls == old(calls) && sent == old(sent) + {k} && portState == if ok then old(portState) else Faulty
      ensures ok ==> armed == old(armed)
      ensures unchanged(`sentSync, `sentAnnounce, `sentDelayReq, `sentPDelayReq)
    {
      hide Port.ToState, FM.ForeignMasterDS.Get;
      sent := sent + {k};
      ok := k !in e.failing;
      if !ok {
        ToState(Faulty);
      }
    }

    method IssueAnnounce(e: Port.Env)
      modifies this
      ensures Now() == Port.IssueAnnounce(config, old(Now()), e) && calls == old(calls)
      ensures FitsS16(old(sentAnnounce)) ==> (sentAnnounce != old(sentAnnounce) <==> Port.Announcing !in e.failing)
      ensures portState == Faulty <==> old(portState) == Faulty || Port.Announcing in e.failing
    {
      var ok := Send(Port.Announcing, e);
      if ok {
        sentAnnounce := Wrap16(sentAnnounce + 1);
      }
      hide Port.ToState;
    }

    method IssueFollowUp(e: Port.Env)
      modifies this
      ensures Now() == Port.Send(config, old(Now()), Port.FollowingUp, e) && calls == old(calls)
      ensures sent == old(sent) + {Port.FollowingUp} && unchanged(`sentSync)
      ensures portState == if Port.FollowingUp in e.failing then Faulty else old(portState)
    {
      var _ := Send(Port.FollowingUp, e);
    }

    /** The Sync of a call is followed up: it went out, it was stamped, and the clock is two-step. */
    predicate Followed(e: Port.Env) { Port.Syncing !in e.failing && Port.Syncing !in e.unstamped && config.twoStep }

    /** A Sync, and the FollowUp with its time of sending when the network stamped it. */
    method IssueSync(e: Port.Env)
      modifies this
      ensures Now() == Port.IssueSync(config, old(Now()), e) && calls == old(calls)
      ensures sent == old(sent) + {Port.Syncing} + (if Followed(e) then {Port.FollowingUp} else {})
      ensures FitsS16(old(sentSync)) ==> (sentSync != old(sentSync) <==> Port.Syncing !in e.failing)
      ensures FitsS16(old(sentSync)) && Followed(e) ==> Wrap16(sentSync - 1) == old(sentSync)
      ensures portState == Faulty
              <==> (old(portState) == Faulty || Port.Syncing in e.failing
                    || (Followed(e) && Port.FollowingUp in e.failing))
    {
      var ok := Send(Port.Syncing, e);
      if ok {
        sentSync := Wrap16(sentSync + 1);
        if Port.Syncing !in e.unstamped && config.twoStep {
          IssueFollowUp(e);
        }
      }
      hide Port.ToState;
    }

    method IssueDelayReq(e: Port.Env)
      modifies this
      ensures Now() == Port.IssueDelayReq(config, old(Now()), e) && calls == old(calls)
      ensures sentDelayReq == if Port.DelayRequest in e.failing then old(sentDelayReq)
                              else Wrap16(old(sentDelayReq) + 1)
      ensures portState == Faulty <==> old(portState) == Faulty || Port.DelayRequest in e.failing
      ensures portState != Faulty ==> portState == old(portState) && armed == old(armed)
      ensures unchanged(`sentPDelayReq)
    {
      var ok := Send(Port.DelayRequest, e);
      if ok {
        sentDelayReq := Wrap16(sentDelayReq + 1);
      }
      hide Port.ToState;
    }

    method IssuePDelayReq(e: Port.Env)
      modifies this
      ensures Now() == Port.IssuePDelayReq(config, old(Now()), e) && calls == old(calls)
      ensures sentPDelayReq == if Port.PeerRequest in e.failing then old(sentPDelayReq)
                               else Wrap16(old(sentPDelayReq) + 1)
      ensures portState == Faulty <==> old(portState) == Faulty || Port.PeerRequest in e.failing
      ensures portState != Faulty ==> portState == old(portState) && armed == old(armed)
      ensures unchanged(`sentDelayReq)
    {
      var ok := Send(Port.PeerRequest, e);
      if ok {
        sentPDelayReq := Wrap16(sentPDelayReq + 1);
      }
      hide Port.ToState;
    }

    method CheckTimer(t: Port.Timer, e: Port.Env) returns (expired: bool)
      ensures expired == Port.Check(Now(), t, e)
    {
      expired := t in armed && t in e.expired;
    }

    method IssueDelayReqTimerExpired(e: Port.Env)
      modifies this
      ensures Now() == Port.IssueDelayReqTimerExpired(config, old(Now()), e) && calls == old(calls)
      ensures FitsS16(old(sentDelayReq)) ==>
                (sentDelayReq != old(sentDelayReq)
                 <==> config.delayMechanism == E2E && old(portState) == Slave && Port.DelayRequest !in e.failing
                      && Port.DelayReqInterval in old(armed) && Port.DelayReqInterval in e.expired)
      ensures FitsS16(old(sentPDelayReq)) ==>
                (sentPDelayReq != old(sentPDelayReq)
                 <==> config.delayMechanism == P2P && Port.PeerRequest !in e.failing
                      && Port.PDelayReqInterval in old(armed) && Port.PDelayReqInterval in e.expired)
      ensures portState != Faulty ==> portState == old(portState) && armed == old(armed)
    {
      hide Port.IssueDelayReq, Port.IssuePDelayReq;
      match config.delayMechanism {
        case E2E =>
          if portState != Slave {
            return;
          }
          var expired := CheckTimer(Port.DelayReqInterval, e);
          if expired {
            StartTimer(Port.DelayReqInterval);
            IssueDelayReq(e);
          }
        case P2P =>
          var expired := CheckTimer(Port.PDelayReqInterval, e);
          if expired {
            StartTimer(Port.PDelayReqInterval);
            IssuePDelayReq(e);
          }
        case DelayDisabled =>
      }
    }

    // ----- Handling messages -----

    method AddForeign(h: Header, a: Announce)
      requires FM.Valid(foreign.Get())
      modifies this`heard, foreign`count, foreign`i, foreign.records
      ensures Now() == Port.AddForeign(config, old(Now()), h, a)
    {
      foreign.AddForeign(h, a, config.matching);
      heard := heard + {Port.Heard(h, a)};
      hide FM.Added;
    }

    method HandleAnnounce(p: Port.Reception)
      requires p.Packet? && FM.Valid(foreign.Get())
      modifies this, foreign`count, foreign`i, foreign.records
      ensures Now() == Port.HandleAnnounce(config, old(Now()), p) && calls == old(calls)
    {
      hide Port.ToState, FM.Added, FM.Valid, Port.HandleAnnounceSynchronizing;
      var h, a := p.header, p.announce;
      if p.length < Codec.ANNOUNCE_LENGTH {
        ToState(Faulty);
        return;
      }
      if h.source == config.port {
        return;
      }
      match portState {
        case Initializing =>
        case Faulty =>
        case Disabled =>
        case Uncalibrated => HandleAnnounceSynchronizing(h, a);
        case Slave => HandleAnnounceSynchronizing(h, a);
        case Passive =>
          StartTimer(Port.AnnounceReceipt);
          events := events + {StateDecision};
          AddForeign(h, a);
        case _ =>
          events := events + {StateDecision};
          AddForeign(h, a);
      }
    }

    method HandleAnnounceSynchronizing(h: Header, a: Announce)
      requires FM.Valid(foreign.Get())
      modifies this, foreign`count, foreign`i, foreign.records
      ensures Now() == Port.HandleAnnounceSynchronizing(config, old(Now()), h, a) && calls == old(calls)
    {
      hide FM.Added, Port.S1, Port.AddForeign;
      events := events + {StateDecision};
      if parent.port == h.source {
        ParentAnnounces(h, a);
      } else {
        AddForeign(h, a);
      }
    }

    /** The parent's newer announce goes into the data sets, and the wait for the next starts over. */
    method ParentAnnounces(h: Header, a: Announce)
      modifies this
      ensures Now() == Port.ParentAnnounces(old(Now()), h, a) && calls == old(calls)
    {
      hide Port.S1, FM.ForeignMasterDS.Get;
      S1(h, a);
      heard := heard + {Port.Heard(h, a)};
      StartTimer(Port.AnnounceReceipt);
    }

    /** What updateOffset and updateClock do to the port. */
    method UpdateOffsetAndClock(e: Port.Env)
      modifies this`events, this`waitingForFollowUp, this`waitingForPeerFollowUp
      ensures Now() == Port.UpdateOffsetAndClock(old(Now()), e)
    {
      if e.offset == Port.Uncalibrating || e.offset == Port.Seconds {
        if portState == Slave {
          events := events + {SynchronizationFault};
        }
      } else if e.offset == Port.Calibrated {
        if portState == Uncalibrated {
          events := events + {MasterClockSelected};
        }
      }
      if e.offset == Port.Seconds && e.clockReset {
        InitClock();
      }
    }

    method HandleSync(p: Port.Reception, e: Port.Env)
      requires p.Packet?
      modifies this
      ensures Now() == Port.HandleSync(config, old(Now()), p, e) && calls == old(calls)
      ensures p.length >= Codec.SYNC_LENGTH && old(portState) in {Uncalibrated, Slave}
              && p.header.source == old(parent).port != config.port && !Port.TwoStepFlag(p.header) ==>
                PortSteps.Measured(config, old(Now()), Now(), e)
    {
      ghost var was := Now();
      SyncIsMeasured(was, p, e);
      hide PortSteps.Measured;
      hide Port.ToState, Port.IssueDelayReqTimerExpired, Port.UpdateOffsetAndClock;
      var h := p.header;
      if p.length < Codec.SYNC_LENGTH {
        ToState(Faulty);
        return;
      }
      match portState {
        case Uncalibrated => HandleSyncSynchronizing(h, e);
        case Slave => HandleSyncSynchronizing(h, e);
        case Passive => IssueDelayReqTimerExpired(e);
        case _ =>
      }
    }

    lemma SyncIsMeasured(was: Port.State, p: Port.Reception, e: Port.Env)
      requires p.Packet?
      ensures p.length >= Codec.SYNC_LENGTH && was.portState in {Uncalibrated, Slave}
              && p.header.source == was.parent.port != config.port && !Port.TwoStepFlag(p.header) ==>
                PortSteps.Measured(config, was, Port.HandleSync(config, was, p, e), e)
    {
      if p.length >= Codec.SYNC_LENGTH && was.portState in {Uncalibrated, Slave} {
        PortSteps.SyncMeasuredExactlyWhen(config, was, p, e);
      }
      hide PortSteps.Measured, Port.HandleSync;
    }

    lemma FollowUpIsMeasured(was: Port.State, p: Port.Reception, e: Port.Env)
      requires p.Packet?
      ensures p.length >= Codec.FOLLOW_UP_LENGTH && was.portState in {Uncalibrated, Slave} ==>
                if was.waitingForFollowUp && p.header.source == was.parent.port != config.port
                   && p.header.sequenceId == was.recvSyncId
                then PortSteps.Measured(config, was, Port.HandleFollowUp(config, was, p, e), e)
                else Port.HandleFollowUp(config, was, p, e) == was
    {
      if p.length >= Codec.FOLLOW_UP_LENGTH && was.portState in {Uncalibrated, Slave} {
        PortSteps.FollowUpMeasuredExactlyWhen(config, was, p, e);
      }
      hide PortSteps.Measured, Port.HandleFollowUp;
    }

    method HandleSyncSynchronizing(h: Header, e: Port.Env)
      modifies this
      ensures Now() == (if Port.FromSelf(config, h) || old(parent).port != h.source then old(Now())
                        else if Port.TwoStepFlag(h) then Port.StoreSync(old(Now()), h)
                        else Port.UseSync(config, old(Now()), h, e))
      ensures calls == old(calls)
    {
      hide Port.IssueDelayReqTimerExpired, Port.UpdateOffsetAndClock;
      if h.source == config.port || parent.port != h.source {
        return;
      }
      if Port.TwoStepFlag(h) {
        waitingForFollowUp := true;
        recvSyncId := h.sequenceId;
        trace := trace + [Port.SyncStored(h.source, h.sequenceId)];
      } else {
        waitingForFollowUp := false;
        trace := trace + [Port.SyncUsed(h.source)];
        UpdateOffsetAndClock(e);
        IssueDelayReqTimerExpired(e);
      }
    }

    method HandleFollowUp(p: Port.Reception, e: Port.Env)
      requires p.Packet?
      modifies this
      ensures Now() == Port.HandleFollowUp(config, old(Now()), p, e) && calls == old(calls)
      ensures p.length >= Codec.FOLLOW_UP_LENGTH && old(portState) in {Uncalibrated, Slave} ==>
                if old(waitingForFollowUp) && p.header.source == old(parent).port != config.port
                   && p.header.sequenceId == old(recvSyncId)
                then PortSteps.Measured(config, old(Now()), Now(), e)
                else Now() == old(Now())
    {
      ghost var was := Now();
      FollowUpIsMeasured(was, p, e);
      hide PortSteps.Measured;
      hide Port.ToState, Port.IssueDelayReqTimerExpired, Port.UseFollowUp;
      var h := p.header;
      if p.length < Codec.FOLLOW_UP_LENGTH {
        ToState(Faulty);
        return;
      }
      if h.source == config.port {
        return;
      }
      if portState == Uncalibrated || portState == Slave {
        if !waitingForFollowUp || parent.port != h.source || recvSyncId != h.sequenceId {
          return;
        }
        UseFollowUp(h, e);
      } else if portState == Passive {
        IssueDelayReqTimerExpired(e);
      }
    }

    method UseFollowUp(h: Header, e: Port.Env)
      modifies this
      ensures Now() == Port.UseFollowUp(config, old(Now()), h, e) && calls == old(calls)
    {
      hide Port.IssueDelayReqTimerExpired, Port.UpdateOffsetAndClock;
      waitingForFollowUp := false;
      trace := trace + [Port.FollowUpUsed(h.source, h.sequenceId)];
      UpdateOffsetAndClock(e);
      IssueDelayReqTimerExpired(e);
    }

    method HandleDelayReq(p: Port.Reception, e: Port.Env)
      requires p.Packet?
      modifies this
      ensures Now() == Port.HandleDelayReq(config, old(Now()), p, e) && calls == old(calls)
      ensures var read := config.delayMechanism == E2E && p.length >= Codec.DELAY_REQ_LENGTH;
              && sent == old(sent) + (if read && old(portState) == Master then {Port.DelayResponse} else {})
              && (config.delayMechanism != E2E ==> portState == old(portState))
              && (read ==> (portState == Faulty <==> old(portState) == Faulty
                                                     || (old(portState) == Master && Port.DelayResponse in e.failing)))
    {
      hide Port.ToState, Port.Send;
      if config.delayMechanism == E2E {
        if p.length < Codec.DELAY_REQ_LENGTH {
          ToState(Faulty);
        } else if portState == Master {
          var _ := Send(Port.DelayResponse, e);
        }
      }
    }

    method HandleDelayResp(p: Port.Reception)
      requires p.Packet?
      modifies this
      ensures Now() == Port.HandleDelayResp(config, old(Now()), p) && calls == old(calls)
      ensures config.delayMechanism != E2E ==> Now() == old(Now())
      ensures config.delayMechanism == E2E && p.length >= Codec.DELAY_RESP_LENGTH ==>
                && Now() == old(Now()).(accepted := accepted)
                && accepted == old(accepted) + (if old(portState) in {Uncalibrated, Slave}
                                                   && p.header.sequenceId + 1 == old(sentDelayReq)
                                                   && p.requester == config.port
                                                   && p.header.source == old(parent).port then 1 else 0)
    {
      hide Port.ToState;
      if config.delayMechanism == E2E {
        if p.length < Codec.DELAY_RESP_LENGTH {
          ToState(Faulty);
        } else if portState == Uncalibrated || portState == Slave {
          if sentDelayReq - 1 == p.header.sequenceId && p.requester == config.port && parent.port == p.header.source {
            accepted := accepted + 1;
          }
        }
      }
    }

    /** A peer request is answered: by a peer-to-peer port in one of three states, to others only. */
    predicate Answers(p: Port.Reception, state: PortState)
      requires p.Packet?
    {
      && config.delayMechanism == P2P && p.length >= Codec.PDELAY_REQ_LENGTH
      && state in {Passive, Slave, Master} && p.header.source != config.port
    }

    /** The follow-up goes out even after a failed response. */
    method HandlePDelayReq(p: Port.Reception, e: Port.Env)
      requires p.Packet?
      modifies this
      ensures Now() == Port.HandlePDelayReq(config, old(Now()), p, e) && calls == old(calls)
      ensures var followed := Port.PeerResponse !in e.unstamped && Port.TwoStepFlag(p.header);
              if Answers(p, old(portState)) then
                && sent == old(sent) + {Port.PeerResponse} + (if followed then {Port.PeerFollowUp} else {})
                && (portState == Faulty
                    <==> (Port.PeerResponse in e.failing || (followed && Port.PeerFollowUp in e.failing)))
              else sent == old(sent) && (portState == old(portState) || p.length < Codec.PDELAY_REQ_LENGTH)
    {
      hide Port.ToState, Port.Send;
      if config.delayMechanism != P2P {
        return;
      }
      if p.length < Codec.PDELAY_REQ_LENGTH {
        ToState(Faulty);
        return;
      }
      if portState == Passive || portState == Slave || portState == Master {
        if p.header.source == config.port {
          return;
        }
        var _ := Send(Port.PeerResponse, e);
        if Port.PeerResponse !in e.unstamped && Port.TwoStepFlag(p.header) {
          var _ := Send(Port.PeerFollowUp, e);
        }
      }
    }

    method HandlePDelayResp(p: Port.Reception)
      requires p.Packet?
      modifies this
      ensures Now() == Port.HandlePDelayResp(config, old(Now()), p) && calls == old(calls)
      ensures config.delayMechanism != P2P ==> Now() == old(Now())
      ensures config.delayMechanism == P2P && p.length >= Codec.PDELAY_RESP_LENGTH ==>
                var current := old(portState) in {Master, Slave} && p.header.source != config.port
                               && p.header.sequenceId + 1 == old(sentPDelayReq) && p.requester == config.port;
                && Now() == old(Now()).(accepted := accepted, waitingForPeerFollowUp := waitingForPeerFollowUp)
                && accepted == old(accepted) + (if current && !Port.TwoStepFlag(p.header) then 1 else 0)
                && (waitingForPeerFollowUp
                    <==> if current then Port.TwoStepFlag(p.header) else old(waitingForPeerFollowUp))
    {
      hide Port.ToState;
      if config.delayMechanism != P2P {
        return;
      }
      if p.length < Codec.PDELAY_RESP_LENGTH {
        ToState(Faulty);
        return;
      }
      if portState == Master || portState == Slave {
        if p.header.source == config.port {
          return;
        }
        if sentPDelayReq - 1 == p.header.sequenceId && p.requester == config.port {
          waitingForPeerFollowUp := Port.TwoStepFlag(p.header);
          if !Port.TwoStepFlag(p.header) {
            accepted := accepted + 1;
          }
        }
      }
    }

    method HandlePDelayRespFollowUp(p: Port.Reception)
      requires p.Packet?
      modifies this
      ensures Now() == Port.HandlePDelayRespFollowUp(config, old(Now()), p) && calls == old(calls)
      ensures config.delayMechanism != P2P ==> Now() == old(Now())
      ensures config.delayMechanism == P2P && p.length >= Codec.PDELAY_RESP_FOLLOW_UP_LENGTH ==>
                var current := old(portState) in {Master, Slave} && old(waitingForPeerFollowUp)
                               && p.header.sequenceId + 1 == old(sentPDelayReq);
                Now() == if current then old(Now()).(accepted := old(accepted) + 1, waitingForPeerFollowUp := false)
                         else old(Now())
    {
      hide Port.ToState;
      if config.delayMechanism != P2P {
        return;
      }
      if p.length < Codec.PDELAY_RESP_FOLLOW_UP_LENGTH {
        ToState(Faulty);
        return;
      }
      if portState == Slave || portState == Master {
        if waitingForPeerFollowUp && p.header.sequenceId == sentPDelayReq - 1 {
          waitingForPeerFollowUp := false;
          accepted := accepted + 1;
        }
      }
    }

    /** Receives at most one packet and dispatches it. */
    method Handle(e: Port.Env)
      requires FM.Valid(foreign.Get())
      modifies this, foreign`count, foreign`i, foreign.records
      ensures Now() == Port.Handle(config, old(Now()), e) && calls == old(calls)
      ensures PortSteps.Decided(config, old(Now()), Now(), e)
    {
      PortSteps.ReceptionDecides(config, Now(), e);
      hide Port.ToState, Port.HandleAnnounce, Port.HandleSync, Port.HandleFollowUp, Port.HandleDelayReq,
           Port.HandleDelayResp, Port.HandlePDelayReq, Port.HandlePDelayResp, Port.HandlePDelayRespFollowUp, FM.Valid,
           PortSteps.Decided, PortSteps.Measured;
      var p := e.reception;
      if p.Nothing? {
        return;
      }
      if p.Failure? || p.length < Port.HEADER_LENGTH {
        ToState(Faulty);
        return;
      }
      if p.header.versionPTP != config.version || p.header.domainNumber != config.domain {
        return;
      }
      var kind := p.header.messageType;
      if kind == Codec.ANNOUNCE {
        HandleAnnounce(p);
      } else if kind == Codec.SYNC {
        HandleSync(p, e);
      } else if kind == Codec.FOLLOW_UP {
        HandleFollowUp(p, e);
      } else if kind == Codec.DELAY_REQ {
        HandleDelayReq(p, e);
      } else if kind == Codec.PDELAY_REQ {
        HandlePDelayReq(p, e);
      } else if kind == Codec.DELAY_RESP {
        HandleDelayResp(p);
      } else if kind == Codec.PDELAY_RESP {
        HandlePDelayResp(p);
      } else if kind == Codec.PDELAY_RESP_FOLLOW_UP {
        HandlePDelayRespFollowUp(p);
      }
    }

    // ----- The best master clock algorithm -----

    /** Scans the table, decides, and brings the data sets in line; what it recommends. */
    method Bmc() returns (recommended: PortState)
      requires FM.Valid(foreign.Get())
      modifies this`parent, this`stepsRemoved, this`trace, this`events, foreign`best
      ensures Now().(recommended := recommended) == Port.RunBmc(config, old(Now()))
    {
      var best := 0;
      if foreign.count > 0 {
        best := BmcDecision.FindBest(Port.Candidates(foreign.Get()), config.local.identity, config.scan);
      }
      foreign.best := best;
      hide BmcDecision.Scan, BmcDecision.Decide;
      if foreign.count == 0 && portState == Listening {
        return Listening;
      }
      recommended := BmcStateDecision(foreign.records[best]);
      hide Port.DecideOn;
    }

    method BmcStateDecision(record: FM.Record) returns (recommended: PortState)
      modifies this`parent, this`stepsRemoved, this`trace, this`events
      ensures Now().(recommended := recommended) == Port.DecideOn(config, old(Now()), record)
    {
      recommended := BmcDecision.Decide(config.local, CandidateOf(record.header, record.announce));
      hide BmcDecision.Decide, CandidateOf;
      match recommended {
        case Master => M1();
        case Passive =>
        case _ =>
          S1(record.header, record.announce);
          recommended := Slave;
      }
    }

    method StateDecisionEvent()
      requires FM.Valid(foreign.Get())
      modifies this, foreign`best
      ensures Now() == Port.StateDecisionEvent(config, old(Now())) && calls == old(calls)
    {
      hide Port.RunBmc, FM.ForeignMasterDS.Get;
      if Port.Active(portState) && StateDecision in events {
        events := events - {StateDecision};
        recommendedState := Bmc();
        if recommendedState == Master || recommendedState == Passive {
          if config.local.slaveOnly || config.local.quality.clockClass == 255 {
            recommendedState := Listening;
          }
        }
      }
    }

    // ----- One call of doState -----

    /** Moves the port to the recommended state. */
    method FollowRecommendation(e: Port.Env)
      modifies this
      ensures Now() == Port.FollowRecommendation(config, old(Now()), e) && calls == old(calls)
      ensures old(recommendedState) == Slave ==> PortSteps.CalibrationMoves(old(Now()), Now())
    {
      hide Port.ToState, PortSteps.CalibrationMoves;
      match recommendedState {
        case Master =>
          if portState == PreMaster {
            var expired := CheckTimer(Port.QualificationTimeout, e);
            if expired {
              ToState(Master);
            }
          } else if portState != Master {
            ToState(PreMaster);
          }
        case Passive =>
          if portState != Passive {
            ToState(Passive);
          }
        case Slave => FollowSlave(e);
        case Listening =>
          if portState != Listening {
            ToState(Listening);
          }
        case _ =>
      }
    }

    method FollowSlave(e: Port.Env)
      requires recommendedState == Slave
      modifies this
      ensures Now() == Port.FollowRecommendation(config, old(Now()), e) && calls == old(calls)
      ensures PortSteps.CalibrationMoves(old(Now()), Now())
    {
      PortSteps.SlaveMovesExactlyWhen(config, Now(), e);
      hide Port.ToState, PortSteps.CalibrationMoves;
      if portState == Uncalibrated {
        if MasterClockSelected in events {
          events := events - {MasterClockSelected};
          ToState(Slave);
        }
        events := events - {MasterClockChanged};
      } else if portState == Slave {
        FollowAsSlave(e);
      } else {
        ToState(Uncalibrated);
      }
    }

    method FollowAsSlave(e: Port.Env)
      requires recommendedState == Slave && portState == Slave
      modifies this
      ensures Now() == Port.FollowRecommendation(config, old(Now()), e) && calls == old(calls)
    {
      hide Port.ToState;
      if SynchronizationFault in events {
        events := events - {SynchronizationFault};
        ToState(Uncalibrated);
      }
      if MasterClockChanged in events {
        events := events - {MasterClockChanged};
        ToState(Uncalibrated);
      }
    }

    method DoInit(e: Port.Env) returns (ok: bool)
      modifies this, foreign`count
      ensures ok == e.networkUp && calls == old(calls)
      ensures Now() == if ok then Port.DoInit(config, old(Now())) else old(Now())
    {
      ok := e.networkUp;
      if ok {
        foreign.count := 0;
        heard := {};
        armed := {};
        inits := inits + 1;
        InitClock();
        M1();
      }
    }

    method EmptyTable()
      modifies this`heard, foreign`count, foreign`i
      ensures Now() == old(Now()).(ring := old(foreign.Get()).(count := 0, i := 0), heard := {})
      ensures foreign.count == foreign.i == 0
    {
      foreign.count := 0;
      foreign.i := 0;
      heard := {};
    }

    method AnnounceTimeout()
      modifies this, foreign`count, foreign`i
      ensures Now() == Port.AnnounceTimeout(config, old(Now())) && calls == old(calls)
      ensures foreign.count == foreign.i == 0
      ensures portState ==
              if config.local.slaveOnly || config.local.quality.clockClass == 255 then Listening else Master
      ensures portState == Master ==> recommendedState == Master && Described() == BmcDecision.D0(config.local)
    {
      hide Port.ToState, Port.M1, FM.ForeignMasterDS.Get;
      EmptyTable();
      if !(config.local.slaveOnly || config.local.quality.clockClass == 255) {
        TakeOver();
      } else if portState != Listening {
        ToState(Listening);
      }
    }

    /** The clock becomes its own parent and master. */
    method TakeOver()
      modifies this
      ensures Now() == Port.ToState(config, Port.M1(config, old(Now())).(recommended := Master), Master)
      ensures calls == old(calls) && portState == recommendedState == Master
      ensures Described() == BmcDecision.D0(config.local)
    {
      hide Port.ToState, Port.M1, FM.ForeignMasterDS.Get;
      M1();
      recommendedState := Master;
      ToState(Master);
    }

    method ActAsMaster(e: Port.Env)
      requires FM.Valid(foreign.Get())
      modifies this, foreign`count, foreign`i, foreign.records
      ensures Now() == Port.ActAsMaster(config, old(Now()), e) && calls == old(calls)
    {
      hide Port.IssueSync, Port.IssueAnnounce, Port.Handle, Port.IssueDelayReqTimerExpired, FM.Valid;
      var expired := CheckTimer(Port.SyncInterval, e);
      if expired {
        IssueSync(e);
      }
      expired := CheckTimer(Port.AnnounceInterval, e);
      if expired {
        IssueAnnounce(e);
      }
      Handle(e);
      IssueDelayReqTimerExpired(e);
    }

    /** The actions of the state the port is now in. */
    method Act(e: Port.Env)
      requires FM.Valid(foreign.Get())
      modifies this, foreign`count, foreign`i, foreign.records
      ensures Now() == Port.Act(config, old(Now()), e) && calls == old(calls)
    {
      hide Port.ToState, Port.DoInit, Port.Handle, Port.ActAsMaster, Port.AnnounceTimeout, FM.Valid;
      match portState {
        case Initializing =>
          var ok := DoInit(e);
          if ok {
            ToState(Listening);
          } else {
            ToState(Faulty);
          }
        case Faulty => ToState(Initializing);
        case Disabled => Handle(e);
        case PreMaster =>
        case Master => ActAsMaster(e);
        case _ =>
          var expired := CheckTimer(Port.AnnounceReceipt, e);
          if expired {
            AnnounceTimeout();
          } else {
            Handle(e);
          }
      }
    }

    /** One call, after which the state is that of the run one call longer. */
    method DoState(e: Port.Env)
      requires Valid()
      modifies this, foreign`count, foreign`i, foreign`best, foreign.records
      ensures Valid() && calls == old(calls) + [e]
      ensures old(FM.Valid(foreign.Get())) && Now() == Port.DoState(config, old(Now()), e)
    {
      hide Port.StateDecisionEvent, Port.FollowRecommendation, Port.Act, FM.Valid, PortRuns.Inv;
      PortRuns.CoreStarts(config, Now());
      StateDecisionEvent();
      FollowRecommendation(e);
      Act(e);
      calls := calls + [e];
      assert calls[..|calls| - 1] == old(calls);
    }
  }
}
