/** What holds of every run of the port from power-up. */
module PortRuns {
  import opened Types
  import opened Words
  import opened Messages
  import opened BmcOrder
  import opened BmcDecision
  import FM = ForeignMasters
  import Codec
  import opened Port
  import opened PortInvariants

  // ----- Power-up -----

  const NO_CLOCK: ClockIdentity := [0, 0, 0, 0, 0, 0, 0, 0]
  const NO_PORT: PortIdentity := PortIdentity(NO_CLOCK, 0)

  /** A cleared clock record, told to initialise. */
  function PowerUp(c: Config, slots: seq<FM.Record>): State {
    var cleared := State(Initializing, Initializing, {}, {}, FM.Ring(slots, 0, 0, 0),
                         Parent(NO_PORT, NO_CLOCK, Quality(0, 0, 0), 0, 0), 0, false, 0, false, 0, 0, 0, 0,
                         0, {}, {}, [], 0);
    ToState(c, cleared, Initializing)
  }

  // ----- The invariant -----

  /** INITIALIZING, and FAULTY before services have started, go with an empty table and no pending event. */
  predicate StartUpOk(s: State) {
    && (s.portState == Initializing ==> s.recommended == Initializing)
    && (s.recommended == Initializing ==>
          && s.portState in {Initializing, Faulty} && s.inits == 0
          && s.ring.count == 0 && s.ring.i == 0 && StateDecision !in s.events)
    && (s.recommended != Initializing ==> s.inits == 1)
  }

  /** Only a clock of class 128 or more is told to be slave, only one below 128 to be passive. */
  predicate ClassOk(c: Config, recommended: PortState) {
    && (recommended == Slave ==> c.local.quality.clockClass >= 128)
    && (recommended == Passive ==> c.local.quality.clockClass < 128)
  }

  /** The states a port can be in, and those that can be recommended to it. */
  predicate StatesOk(c: Config, s: State) {
    && s.portState !in {PreMaster, Disabled}
    && s.recommended in {Initializing, Listening, Master, Passive, Slave} && ClassOk(c, s.recommended)
    && (CannotBeMaster(c) ==> s.portState !in {Master, Passive} && s.recommended !in {Master, Passive})
  }

  /** The records in use were announced, by others. */
  predicate TableOk(c: Config, s: State) {
    && FM.Valid(s.ring)
    && (forall x | x in s.heard :: x.header.source != c.port)
    && (forall k | 0 <= k < s.ring.count :: Heard(s.ring.slots[k].header, s.ring.slots[k].announce) in s.heard)
  }

  /** A decision is pending only when there is a record to decide on. */
  predicate PendingOk(s: State) {
    StateDecision in s.events ==> s.ring.count >= 1 && (s.portState == Faulty ==> s.recommended == Master)
  }

  /** The parent is what one of the announces acted on says. */
  ghost predicate ParentAnnounced(s: State) {
    exists x | x in s.heard ::
      s.parent == ParentFrom(x.header, x.announce) && s.stepsRemoved == Wrap16(x.announce.stepsRemoved + 1)
  }

  ghost predicate DataSetsOk(c: Config, s: State) {
    && (s.recommended == Slave ==> s.ring.count >= 1 && ParentAnnounced(s))
    && (s.recommended == Master ==> s.parent == OwnParent(c) && s.stepsRemoved == 0)
  }

  predicate SentOk(c: Config, s: State) {
    forall k | k in s.sent :: OfConfig(c, k) && (CannotBeMaster(c) ==> !OfMaster(k))
  }

  ghost predicate Core(c: Config, s: State) {
    && StartUpOk(s) && StatesOk(c, s) && TableOk(c, s) && PendingOk(s) && DataSetsOk(c, s) && SentOk(c, s)
    && TimersOk(c, s) && TraceOk(NO_PORT, s)
  }

  /** Once services have started, a port that is not faulty is in the state recommended to it. */
  predicate Agree(s: State) {
    s.recommended != Initializing && s.portState != Faulty ==>
      if s.recommended == Slave then Synchronizing(s.portState) else s.portState == s.recommended
  }

  ghost predicate Inv(c: Config, s: State) { Core(c, s) && Agree(s) }

  /** Between following the recommendation and acting on the state. */
  ghost predicate Ready(c: Config, s: State) {
    && Inv(c, s) && (StateDecision in s.events ==> s.portState == Master)
    && (s.recommended != Initializing ==> s.portState != Faulty)
  }

  // ----- Quiet steps -----

  lemma QuietKeeps(c: Config, s: State, s': State)
    requires Inv(c, s) && s.recommended != Initializing && Calm(c, NO_PORT, s, s')
    requires StateDecision in s.events ==> s.recommended == Master
    ensures Inv(c, s')
  {
    hide TimersOk, TraceOk;
  }

  // ----- The state decision -----

  /** The algorithm has a record to decide on, and leaves everything but the recommendation and the data sets. */
  lemma RunBmcDecides(c: Config, s: State)
    requires Core(c, s) && s.ring.count >= 1
    ensures var s' := RunBmc(c, s);
            && s'.recommended in {Master, Passive, Slave} && ClassOk(c, s'.recommended)
            && DataSetsOk(c, s') && TraceOk(NO_PORT, s')
            && s' == s.(recommended := s'.recommended, ring := s.ring.(best := s'.ring.best), parent := s'.parent,
                        stepsRemoved := s'.stepsRemoved, events := s'.events, trace := s'.trace)
            && (StateDecision in s'.events ==> StateDecision in s.events)
  {
    RoleByClass(c.local, CandidateOf(s.ring.slots[BestRecord(c, s.ring)].header,
                                     s.ring.slots[BestRecord(c, s.ring)].announce));
    hide Decide, TraceOk, TimersOk, CandidateOf, Candidates, SentOk;
    var best := BestRecord(c, s.ring);
    hide BestRecord;
    var record := s.ring.slots[best];
    var s' := s.(ring := s.ring.(best := best));
    TraceOfBest(s, best);
    TraceOfSetParent(NO_PORT, s', OwnParent(c), 0);
    S1Keeps(c, s', record.header, record.announce);
    TraceOfRecommendation(M1(c, s'), Master);
    TraceOfRecommendation(s', Passive);
    TraceOfRecommendation(S1(s', record.header, record.announce), Slave);
  }

  lemma TraceOfBest(s: State, best: nat)
    ensures TraceOk(NO_PORT, s) ==> TraceOk(NO_PORT, s.(ring := s.ring.(best := best)))
  {
  }

  lemma TraceOfRecommendation(s: State, p: PortState)
    ensures TraceOk(NO_PORT, s) ==> TraceOk(NO_PORT, s.(recommended := p))
  {
  }

  lemma S1Keeps(c: Config, s: State, h: Header, a: Announce)
    requires TraceOk(NO_PORT, s)
    ensures TraceOk(NO_PORT, S1(s, h, a))
    ensures var s' := S1(s, h, a);
            && s' == s.(parent := ParentFrom(h, a), stepsRemoved := Wrap16(a.stepsRemoved + 1), events := s'.events,
                        trace := s'.trace)
            && (StateDecision in s'.events <==> StateDecision in s.events)
  {
    TraceOfSetParent(NO_PORT, s, ParentFrom(h, a), Wrap16(a.stepsRemoved + 1));
  }

  lemma ClearedKeeps(c: Config, s: State)
    requires Core(c, s)
    ensures Core(c, s.(events := s.events - {StateDecision}))
  {
  }

  /** A clock that cannot be master is told to listen instead. */
  lemma OverruledKeeps(c: Config, s: State, s': State)
    requires Core(c, s) && StateDecision !in s.events && Active(s.portState)
    requires s'.recommended in {Master, Passive, Slave} && ClassOk(c, s'.recommended)
    requires DataSetsOk(c, s') && TraceOk(NO_PORT, s')
    requires s' == s.(recommended := s'.recommended, ring := s.ring.(best := s'.ring.best), parent := s'.parent,
                      stepsRemoved := s'.stepsRemoved, events := s'.events, trace := s'.trace)
    requires StateDecision !in s'.events && FM.Valid(s'.ring)
    ensures Core(c, if s'.recommended in {Master, Passive} && CannotBeMaster(c)
                    then s'.(recommended := Listening) else s')
  {
    TraceOfRecommendation(s', Listening);
    assert TimersOk(c, s');
    hide TimersOf, Matched, Open, CurrentParent;
  }

  lemma DecisionKeeps(c: Config, s: State)
    requires Inv(c, s)
    ensures var s' := StateDecisionEvent(c, s);
            && Core(c, s') && s'.portState == s.portState
            && (StateDecision in s'.events ==> s'.portState == Faulty)
            && (s.recommended == Initializing ==> s' == s)
            && (s.recommended != Initializing ==> s'.recommended != Initializing)
  {
    assert s.portState !in {PreMaster, Disabled} && PendingOk(s) && StartUpOk(s);
    if Active(s.portState) && StateDecision in s.events {
      var cleared := s.(events := s.events - {StateDecision});
      ClearedKeeps(c, s);
      RunBmcDecides(c, cleared);
      OverruledKeeps(c, cleared, RunBmc(c, cleared));
    }
    hide RunBmc, Core, Inv;
  }

  // ----- State changes -----

  /** A change of state touches the timers, the pending two-step exchanges and little else. */
  lemma ToStateFrame(c: Config, s: State, target: PortState)
    requires TimersOk(c, s) && (target == Slave ==> Synchronizing(s.portState))
    ensures var s' := ToState(c, s, target);
            && TimersOk(c, s') && (TraceOk(NO_PORT, s) ==> TraceOk(NO_PORT, s'))
            && s' == s.(portState := Landing(target), armed := s'.armed, waitingForFollowUp := s'.waitingForFollowUp,
                        recommended := if target in {Initializing, Listening} then target else s.recommended,
                        waitingForPeerFollowUp := s'.waitingForPeerFollowUp)
  {
    ToStateTimers(c, s, target);
    ToStateForgets(c, s, target);
    hide ToState;
  }

  /** A port that has started moves to a state it may be in. */
  lemma MoveKeeps(c: Config, s: State, target: PortState)
    requires Core(c, s) && s.recommended != Initializing && (target == Slave ==> Synchronizing(s.portState))
    requires target in {Listening, PreMaster, Master, Passive, Uncalibrated, Slave}
    requires CannotBeMaster(c) ==> target !in {PreMaster, Master, Passive}
    ensures Core(c, ToState(c, s, target)) && ToState(c, s, target).portState == Landing(target)
    ensures ToState(c, s, target).recommended == if target == Listening then Listening else s.recommended
    ensures ToState(c, s, target).events == s.events
  {
    ToStateFrame(c, s, target);
    hide ToState, TimersOk, TraceOk;
  }

  lemma EventsKeep(c: Config, s: State, events: set<Event>)
    requires Core(c, s) && (StateDecision in events <==> StateDecision in s.events)
    ensures Core(c, s.(events := events))
  {
  }

  // ----- Following the recommendation -----

  lemma FollowKeeps(c: Config, s: State, e: Env)
    requires Core(c, s) && (StateDecision in s.events ==> s.portState == Faulty)
    ensures Ready(c, FollowRecommendation(c, s, e)) && FollowRecommendation(c, s, e).recommended == s.recommended
    ensures s.recommended == Initializing ==> FollowRecommendation(c, s, e) == s
  {
    assert PendingOk(s) && StatesOk(c, s) && StartUpOk(s);
    match s.recommended {
      case Initializing =>
      case Slave => FollowSlave(c, s, e);
      case p =>
        if s.portState != p {
          MoveKeeps(c, s, if p == Master then PreMaster else p);
        }
    }
    hide ToState, Core, Check;
  }

  lemma FollowSlave(c: Config, s: State, e: Env)
    requires Core(c, s) && s.recommended == Slave && StateDecision !in s.events
    ensures var s' := FollowRecommendation(c, s, e);
            Core(c, s') && s'.recommended == Slave && Synchronizing(s'.portState) && StateDecision !in s'.events
  {
    hide ToState, Core, Check;
    if s.portState == Uncalibrated {
      var selected := s.(events := s.events - {MasterClockSelected});
      EventsKeep(c, s, selected.events);
      MoveKeeps(c, selected, Slave);
      var s' := if MasterClockSelected in s.events then ToState(c, selected, Slave) else s;
      EventsKeep(c, s', s'.events - {MasterClockChanged});
    } else if s.portState == Slave {
      var faulted := s.(events := s.events - {SynchronizationFault});
      EventsKeep(c, s, faulted.events);
      MoveKeeps(c, faulted, Uncalibrated);
      var s' := if SynchronizationFault in s.events then ToState(c, faulted, Uncalibrated) else s;
      EventsKeep(c, s', s'.events - {MasterClockChanged});
      MoveKeeps(c, s'.(events := s'.events - {MasterClockChanged}), Uncalibrated);
    } else {
      MoveKeeps(c, s, Uncalibrated);
    }
  }

  // ----- Announces -----

  /** A record for an announce of another clock. */
  lemma AddForeignKeeps(c: Config, s: State, h: Header, a: Announce)
    requires Inv(c, s) && s.recommended != Initializing && s.portState != Faulty && !FromSelf(c, h)
    ensures Inv(c, AddForeign(c, RequestDecision(s), h, a))
  {
    var s' := AddForeign(c, RequestDecision(s), h, a);
    AddedRecords(c, s, h, a);
    assert TimersOk(c, s') && TraceOk(NO_PORT, s');
    assert ParentAnnounced(s) ==> ParentAnnounced(s');
    hide FM.Added, TimersOk, TraceOk;
  }

  lemma AddedRecords(c: Config, s: State, h: Header, a: Announce)
    requires TableOk(c, s)
    ensures var ring := FM.Added(s.ring, h, a, c.matching);
            forall k | 0 <= k < ring.count ::
              Heard(ring.slots[k].header, ring.slots[k].announce) in s.heard + {Heard(h, a)}
  {
  }

  lemma ParentAnnouncesKeeps(c: Config, s: State, h: Header, a: Announce)
    requires Inv(c, s) && Synchronizing(s.portState) && s.parent.port == h.source && !FromSelf(c, h)
    ensures Inv(c, HandleAnnounceSynchronizing(c, s, h, a))
  {
    var s1 := S1(RequestDecision(s), h, a);
    assert TraceOk(NO_PORT, RequestDecision(s));
    S1Keeps(c, RequestDecision(s), h, a);
    var s' := HandleAnnounceSynchronizing(c, s, h, a);
    assert s.armed + {AnnounceReceipt} == s.armed;
    assert TimersOk(c, s') && TraceOk(NO_PORT, s');
    assert Heard(h, a) in s'.heard;
    hide S1, TimersOk, TraceOk;
  }

  // ----- Acting -----

  /** What holds while a started port acts; a decision can be pending before the next call in MASTER only. */
  ghost predicate Acting(c: Config, s: State) {
    Inv(c, s) && s.recommended != Initializing && (StateDecision in s.events ==> s.recommended == Master)
  }

  lemma HandleAnnounceKeeps(c: Config, s: State, p: Reception)
    requires Acting(c, s) && p.Packet?
    ensures Inv(c, HandleAnnounce(c, s, p)) && HandleAnnounce(c, s, p).recommended == s.recommended
    ensures StateDecision in HandleAnnounce(c, s, p).events && HandleAnnounce(c, s, p).portState == Faulty
            ==> s.recommended == Master
  {
    var h, a := p.header, p.announce;
    ToFaultyIsCalm(c, NO_PORT, s);
    QuietKeeps(c, s, ToState(c, s, Faulty));
    if !FromSelf(c, h) {
      if Synchronizing(s.portState) {
        SynchronizingKeeps(c, s, h, a);
      } else if s.portState in {Passive, Listening, Master} {
        assert s.portState == Passive ==> s.armed + {AnnounceReceipt} == s.armed;
        assert s.portState == Passive ==> Start(s, AnnounceReceipt) == s;
        AddForeignKeeps(c, s, h, a);
      }
    }
    assert StatesOk(c, s) && FM.Valid(s.ring);
    hide Inv, ToState, HandleAnnounceSynchronizing;
  }

  lemma SynchronizingKeeps(c: Config, s: State, h: Header, a: Announce)
    requires Acting(c, s) && Synchronizing(s.portState) && !FromSelf(c, h)
    ensures var s' := HandleAnnounceSynchronizing(c, s, h, a);
            Inv(c, s') && s'.recommended == s.recommended && s'.portState == s.portState
  {
    if s.parent.port == h.source {
      ParentAnnouncesKeeps(c, s, h, a);
    } else {
      AddForeignKeeps(c, s, h, a);
    }
    hide Inv, FM.Added;
  }

  lemma HandleKeeps(c: Config, s: State, e: Env)
    requires Acting(c, s)
    ensures Inv(c, Handle(c, s, e)) && Handle(c, s, e).recommended == s.recommended
  {
    var r := e.reception;
    if r.Packet? && r.header.messageType == Codec.ANNOUNCE {
      HandleAnnounceKeeps(c, s, r);
      ToFaultyIsCalm(c, NO_PORT, s);
      QuietKeeps(c, s, ToState(c, s, Faulty));
    } else {
      HandleIsCalm(c, NO_PORT, s, e);
      QuietKeeps(c, s, Handle(c, s, e));
    }
    hide Inv, ToState, HandleAnnounce, HandleSync, HandleFollowUp, HandleDelayReq, HandleDelayResp, HandlePDelayReq,
         HandlePDelayResp, HandlePDelayRespFollowUp, QuietTrace;
  }

  /** The table is emptied; the port becomes master, or listens if it cannot. */
  lemma TimeoutKeeps(c: Config, s: State)
    requires Acting(c, s) && StateDecision !in s.events && s.portState in {Listening, Uncalibrated, Slave, Passive}
    ensures Inv(c, AnnounceTimeout(c, s)) && AnnounceTimeout(c, s).recommended in {Listening, Master}
  {
    var s' := s.(ring := s.ring.(count := 0, i := 0), heard := {});
    EmptiedKeeps(c, s);
    if !CannotBeMaster(c) {
      MoveKeeps(c, M1(c, s').(recommended := Master), Master);
    } else if s.portState != Listening {
      ListeningKeeps(c, s');
    } else {
      assert s.recommended == Listening;
    }
    hide ToState, Core, M1;
  }

  lemma EmptiedKeeps(c: Config, s: State)
    requires Acting(c, s) && StateDecision !in s.events
    ensures var s' := s.(ring := s.ring.(count := 0, i := 0), heard := {});
            && Core(c, s'.(recommended := Listening))
            && (!CannotBeMaster(c) ==> Core(c, M1(c, s').(recommended := Master)))
  {
    var s' := s.(ring := s.ring.(count := 0, i := 0), heard := {});
    assert TimersOk(c, s') && TimersOk(c, M1(c, s')) && TraceOk(NO_PORT, s');
    TraceOfRecommendation(s', Listening);
    TraceOfSetParent(NO_PORT, s', OwnParent(c), 0);
    TraceOfRecommendation(M1(c, s'), Master);
    assert TimersOk(c, s'.(recommended := Listening)) && TimersOk(c, M1(c, s').(recommended := Master));
    hide TraceOk, TimersOk, OwnParent;
  }

  /** The recommendation is overwritten on entering LISTENING. */
  lemma ListeningKeeps(c: Config, s: State)
    requires Core(c, s.(recommended := Listening)) && s.portState != Initializing
    ensures Core(c, ToState(c, s, Listening))
    ensures ToState(c, s, Listening).portState == ToState(c, s, Listening).recommended == Listening
  {
    assert TimersOk(c, s);
    TraceOfRecommendation(s.(recommended := Listening), s.recommended);
    ToStateFrame(c, s, Listening);
    hide ToState, TimersOk, TraceOk;
  }

  /** Sync, Announce, one reception, the peer delay timer. */
  lemma MasterKeeps(c: Config, s: State, e: Env)
    requires Acting(c, s) && s.portState == Master
    ensures Inv(c, ActAsMaster(c, s, e)) && ActAsMaster(c, s, e).recommended == Master
  {
    assert s.recommended == Master;
    IssueSyncIsCalm(c, NO_PORT, s, e);
    Reflexive(c, NO_PORT, s);
    var s1 := if Check(s, SyncInterval, e) then IssueSync(c, s, e) else s;
    QuietKeeps(c, s, s1);
    Reflexive(c, NO_PORT, s1);
    assert Check(s1, AnnounceInterval, e) ==> s1.portState == Master;
    if s1.portState == Master {
      IssueAnnounceIsCalm(c, NO_PORT, s1, e);
    }
    var s2 := if Check(s1, AnnounceInterval, e) then IssueAnnounce(c, s1, e) else s1;
    QuietKeeps(c, s1, s2);
    HandleKeeps(c, s2, e);
    var s3 := Handle(c, s2, e);
    DelayTimerIsCalm(c, NO_PORT, s3, e);
    QuietKeeps(c, s3, IssueDelayReqTimerExpired(c, s3, e));
    hide Handle, IssueSync, IssueAnnounce, IssueDelayReqTimerExpired, TraceOk, TableOk, DataSetsOk;
  }

  /** Services start, once, and the port listens; or it is faulty and tries again. */
  lemma StartKeeps(c: Config, s: State, e: Env)
    requires Ready(c, s) && s.recommended == Initializing
    ensures Inv(c, Act(c, s, e))
    ensures Act(c, s, e).recommended == if s.portState == Initializing && e.networkUp then Listening else Initializing
    ensures Act(c, s, e).portState ==
            if s.portState == Faulty then Initializing else if e.networkUp then Listening else Faulty
  {
    if s.portState == Initializing && e.networkUp {
      InitKeeps(c, s);
      ToStateFrame(c, DoInit(c, s), Listening);
    } else {
      ToStateFrame(c, s, if s.portState == Initializing then Faulty else Initializing);
    }
    hide ToState, DoInit, TraceOk;
  }

  lemma InitKeeps(c: Config, s: State)
    requires Ready(c, s) && s.portState == Initializing
    ensures var s' := DoInit(c, s);
            && TimersOk(c, s') && TraceOk(NO_PORT, s') && s'.ring == s.ring && s'.inits == 1 && s'.heard == {}
            && s'.sent == s.sent && s'.events == s.events && s'.portState == Initializing
  {
    var cleared := InitClock(s.(ring := s.ring.(count := 0), armed := {}, inits := s.inits + 1, heard := {}));
    assert TraceOk(NO_PORT, cleared);
    TraceOfSetParent(NO_PORT, cleared, OwnParent(c), 0);
    hide TraceOk;
  }

  lemma ActKeeps(c: Config, s: State, e: Env)
    requires Ready(c, s)
    ensures Inv(c, Act(c, s, e)) && (s.recommended != Initializing ==> Act(c, s, e).recommended != Initializing)
  {
    assert StatesOk(c, s);
    if s.recommended == Initializing {
      StartKeeps(c, s, e);
    } else {
      assert s.portState in {Listening, Master, Passive, Uncalibrated, Slave} by {
        assert StartUpOk(s);
      }
      assert Acting(c, s);
      if s.portState == Master {
        MasterKeeps(c, s, e);
      } else if Check(s, AnnounceReceipt, e) {
        TimeoutKeeps(c, s);
      } else {
        HandleKeeps(c, s, e);
      }
    }
    hide Inv, Core, ToState, Handle, ActAsMaster, AnnounceTimeout, DoInit;
  }

  // ----- Runs -----

  /** One call of `doState` keeps the invariant. */
  lemma DoStateKeeps(c: Config, s: State, e: Env)
    requires Inv(c, s)
    ensures Inv(c, DoState(c, s, e))
  {
    var decided := StateDecisionEvent(c, s);
    DecisionKeeps(c, s);
    FollowKeeps(c, decided, e);
    ActKeeps(c, FollowRecommendation(c, decided, e), e);
    hide StateDecisionEvent, FollowRecommendation, Act, Core, Agree;
  }

  /** The state after power-up and one call for each element of `envs`. */
  function Run(c: Config, slots: seq<FM.Record>, envs: seq<Env>): (s: State)
    requires slots != []
    ensures Inv(c, s)
  {
    if envs == [] then
      PowerUpKeeps(c, slots);
      PowerUp(c, slots)
    else
      var was, e := Run(c, slots, envs[..|envs| - 1]), envs[|envs| - 1];
      DoStateKeeps(c, was, e);
      DoState(c, was, e)
  }

  lemma PowerUpKeeps(c: Config, slots: seq<FM.Record>)
    requires slots != []
    ensures Inv(c, PowerUp(c, slots)) && PowerUp(c, slots).portState == PowerUp(c, slots).recommended == Initializing
  {
  }

  // ----- Timers and states -----

  /** After every call the armed timers are those of the state and the delay mechanism. */
  lemma TimersFollowState(c: Config, slots: seq<FM.Record>, envs: seq<Env>)
    requires slots != []
    ensures var s := Run(c, slots, envs); s.armed == TimersOf(c, s.portState)
  {
    hide Run, TimersOf;
    var s := Run(c, slots, envs);
    assert Core(c, s);
  }

  /** Once services have started, a port that is not faulty is where it is told to be; it is never in PRE_MASTER
      or DISABLED, nor in INITIALIZING again. */
  lemma StateFollowsRecommendation(c: Config, slots: seq<FM.Record>, envs: seq<Env>)
    requires slots != []
    ensures var s := Run(c, slots, envs);
            && s.portState !in {PreMaster, Disabled}
            && (s.recommended != Initializing && s.portState != Faulty ==>
                  if s.recommended == Slave then s.portState in {Uncalibrated, Slave} else s.portState == s.recommended)
            && (s.portState == Initializing ==> s.recommended == Initializing)
  {
    hide Run;
    var s := Run(c, slots, envs);
    assert Core(c, s) && Agree(s);
  }

  /** Starting up takes one call, or two for every failure. */
  predicate UpAt(envs: seq<Env>, k: nat) { k < |envs| && k % 2 == 0 && envs[k].networkUp }

  ghost predicate Up(envs: seq<Env>) { exists k :: UpAt(envs, k) }

  /** Services have started exactly when some call made in INITIALIZING found the network up; until then the
      port alternates between INITIALIZING and FAULTY, and from then on they are not started again. */
  lemma {:induction false} StartsExactlyWhen(c: Config, slots: seq<FM.Record>, envs: seq<Env>)
    requires slots != []
    ensures var s := Run(c, slots, envs);
            && (s.recommended != Initializing <==> Up(envs))
            && s.inits == (if Up(envs) then 1 else 0)
            && (s.recommended == Initializing ==> s.portState == if |envs| % 2 == 0 then Initializing else Faulty)
  {
    hide Inv, PowerUp, DoState;
    var s := Run(c, slots, envs);
    CoreStarts(c, s);
    PowerUpKeeps(c, slots);
    if envs == [] {
      assert s == PowerUp(c, slots);
    } else {
      var n := |envs| - 1;
      var was := Run(c, slots, envs[..n]);
      StartsExactlyWhen(c, slots, envs[..n]);
      UpAtExtends(envs);
      StepOfStart(c, was, envs[n]);
      CoreStarts(c, was);
      assert s == DoState(c, was, envs[n]);
      hide Up, Run;
    }
  }

  lemma UpAtExtends(envs: seq<Env>)
    requires envs != []
    ensures Up(envs) <==> Up(envs[..|envs| - 1]) || UpAt(envs, |envs| - 1)
  {
    var n := |envs| - 1;
    forall k: nat ensures UpAt(envs, k) <==> UpAt(envs[..n], k) || (k == n && UpAt(envs, n)) {
    }
  }

  lemma CoreStarts(c: Config, s: State)
    requires Inv(c, s)
    ensures StartUpOk(s) && FM.Valid(s.ring)
  {
  }

  /** Services start in INITIALIZING with the network up, and never again. */
  lemma StepOfStart(c: Config, s: State, e: Env)
    requires Inv(c, s)
    ensures var s' := DoState(c, s, e);
            && (s'.recommended == Initializing
                <==> s.recommended == Initializing && !(s.portState == Initializing && e.networkUp))
            && (s'.recommended == Initializing ==>
                  s'.portState == if s.portState == Initializing then Faulty else Initializing)
  {
    var decided := StateDecisionEvent(c, s);
    DecisionKeeps(c, s);
    FollowKeeps(c, decided, e);
    var ready := FollowRecommendation(c, decided, e);
    ActKeeps(c, ready, e);
    if s.recommended == Initializing {
      StartKeeps(c, ready, e);
      assert StartUpOk(s);
    }
    hide StateDecisionEvent, FollowRecommendation, Act, TraceOk, TimersOk, TableOk, DataSetsOk;
  }
}
