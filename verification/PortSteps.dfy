/** What single calls and receptions do to the fields of a port. */
module PortSteps {
  import opened Types
  import opened Words
  import opened Messages
  import opened BmcOrder
  import opened BmcDecision
  import FM = ForeignMasters
  import Codec
  import opened Port
  import opened PortInvariants

  // ----- Starting -----

  /** Services start with an empty table, the clock its own parent, and nothing running but the announce timeout. */
  lemma StartDecides(c: Config, s: State, e: Env)
    requires FM.Valid(s.ring) && s.portState == Initializing
    ensures var s' := Act(c, s, e);
            if e.networkUp then
              && s'.portState == s'.recommended == Listening && s'.armed == {AnnounceReceipt} && s'.inits == s.inits + 1
              && s'.ring == s.ring.(count := 0) && s'.heard == {} && s'.parent == OwnParent(c) && s'.stepsRemoved == 0
              && !s'.waitingForFollowUp && !s'.waitingForPeerFollowUp && s'.events == s.events && s'.sent == s.sent
            else s' == s.(portState := Faulty)
  {
  }

  // ----- The state decision -----

  /** The decision event is consumed, the best record chosen, and the data sets are those of the outcome: the clock's
      own for MASTER, the record's for SLAVE, which signals a new parent, and as they were for PASSIVE. */
  lemma DecisionDecides(c: Config, s: State)
    requires FM.Valid(s.ring) && s.ring.count >= 1 && Active(s.portState) && StateDecision in s.events
    ensures var s' := StateDecisionEvent(c, s);
            && s'.ring == s.ring.(best := s'.ring.best) && s'.ring.best < s.ring.count
            && (Orderly(Candidates(s.ring), c.local.identity) ==>
                  FirstExtreme(Candidates(s.ring), s'.ring.best, c.local.identity, c.scan))
            && var record := s.ring.slots[s'.ring.best];
               match Decide(c.local, CandidateOf(record.header, record.announce))
               case Master =>
                 && s'.recommended == (if CannotBeMaster(c) then Listening else Master)
                 && s'.parent == OwnParent(c) && s'.stepsRemoved == 0 && s'.events == s.events - {StateDecision}
               case Passive =>
                 && s'.recommended == (if CannotBeMaster(c) then Listening else Passive)
                 && s'.parent == s.parent && s'.stepsRemoved == s.stepsRemoved
                 && s'.events == s.events - {StateDecision}
               case _ =>
                 && s'.recommended == Slave && s'.parent == ParentFrom(record.header, record.announce)
                 && s'.stepsRemoved == Wrap16(record.announce.stepsRemoved + 1)
                 && s'.events == s.events - {StateDecision}
                    + (if s.parent.port != record.header.source then {MasterClockChanged} else {})
  {
    hide Orderly, FirstExtreme, Scan, Decide, CandidateOf, Candidates, BestRecord;
    BestIsExtreme(c, s.ring);
  }

  lemma BestIsExtreme(c: Config, r: FM.Ring)
    requires FM.Valid(r) && r.count >= 1
    ensures BestRecord(c, r) < r.count
    ensures Orderly(Candidates(r), c.local.identity) ==>
              FirstExtreme(Candidates(r), BestRecord(c, r), c.local.identity, c.scan)
  {
    if Orderly(Candidates(r), c.local.identity) {
      ScanIsExtreme(Candidates(r), c.local.identity, c.scan);
    }
    hide Orderly, FirstExtreme, Scan, Candidates;
  }

  // ----- Following the recommendation -----

  /** How a port told to be slave moves between UNCALIBRATED and SLAVE, and which events are then gone. */
  predicate CalibrationMoves(s: State, s': State) {
    match s.portState
    case Uncalibrated =>
      && s'.portState == (if MasterClockSelected in s.events then Slave else Uncalibrated)
      && s'.events == s.events - {MasterClockSelected, MasterClockChanged}
    case Slave =>
      && s'.portState == (if {SynchronizationFault, MasterClockChanged} !! s.events then Slave else Uncalibrated)
      && s'.events == s.events - {SynchronizationFault, MasterClockChanged}
    case _ => s'.portState == Uncalibrated && s'.events == s.events
  }

  /** UNCALIBRATED becomes SLAVE exactly when the master clock was selected, SLAVE becomes UNCALIBRATED exactly on a
      fault or a change of master, and every other state becomes UNCALIBRATED. */
  lemma SlaveMovesExactlyWhen(c: Config, s: State, e: Env)
    requires s.recommended == Slave
    ensures CalibrationMoves(s, FollowRecommendation(c, s, e))
    ensures FollowRecommendation(c, s, e).parent == s.parent && FollowRecommendation(c, s, e).trace == s.trace
  {
    forall events, p | p in {Slave, Uncalibrated}
      ensures var s' := ToState(c, s.(events := events), p);
              s'.portState == p && s'.events == events && s'.parent == s.parent && s'.trace == s.trace
              && s'.recommended == s.recommended
    {
      ToStateForgets(c, s.(events := events), p);
    }
    if s.portState == Slave && SynchronizationFault in s.events {
      var s1 := ToState(c, s.(events := s.events - {SynchronizationFault}), Uncalibrated);
      ToStateForgets(c, s1.(events := s1.events - {MasterClockChanged}), Uncalibrated);
    }
    hide ToState;
  }

  // ----- The delay request that is due -----

  /** The delay request that is sent when its timer has expired: by a slave end to end, in any state peer to peer. */
  predicate RequestDue(c: Config, s: State, e: Env, k: Kind) {
    match k
    case DelayRequest => c.delayMechanism == E2E && s.portState == Slave && Check(s, DelayReqInterval, e)
    case PeerRequest => c.delayMechanism == P2P && Check(s, PDelayReqInterval, e)
    case _ => false
  }

  /** A due request cannot be sent. */
  ghost predicate RequestFails(c: Config, s: State, e: Env) { exists k :: RequestDue(c, s, e, k) && k in e.failing }

  /** A due request is tried and counted when it goes out; if it fails the port is faulty; if none is due nothing
      happens. */
  ghost predicate Requested(c: Config, s: State, s': State, e: Env) {
    && (forall k :: k in s'.sent <==> k in s.sent || RequestDue(c, s, e, k))
    && s'.sentDelayReq == (if RequestDue(c, s, e, DelayRequest) && DelayRequest !in e.failing
                           then Wrap16(s.sentDelayReq + 1) else s.sentDelayReq)
    && s'.sentPDelayReq == (if RequestDue(c, s, e, PeerRequest) && PeerRequest !in e.failing
                            then Wrap16(s.sentPDelayReq + 1) else s.sentPDelayReq)
    && s'.portState == (if RequestFails(c, s, e) then Faulty else s.portState)
    && s'.sentSync == s.sentSync && s'.sentAnnounce == s.sentAnnounce && s'.accepted == s.accepted
    && (!RequestFails(c, s, e) ==> s'.armed == s.armed)
  }

  lemma DueIsRequested(c: Config, s: State, e: Env)
    ensures var s' := IssueDelayReqTimerExpired(c, s, e);
            Requested(c, s, s', e) && s'.events == s.events && s'.trace == s.trace
            && (s'.waitingForFollowUp ==> s.waitingForFollowUp)
            && (s'.waitingForPeerFollowUp ==> s.waitingForPeerFollowUp) && s'.recvSyncId == s.recvSyncId
            && (s'.portState == s.portState ==>
                  && s'.waitingForFollowUp == s.waitingForFollowUp
                  && s'.waitingForPeerFollowUp == s.waitingForPeerFollowUp)
  {
    hide ToState;
    var k := if c.delayMechanism == E2E then DelayRequest else PeerRequest;
    var t := if c.delayMechanism == E2E then DelayReqInterval else PDelayReqInterval;
    if RequestDue(c, s, e, k) {
      var s' := Start(s, t).(sent := s.sent + {k});
      assert s.armed + {t} == s.armed;
      ToStateForgets(c, s', Faulty);
      assert s.portState == Faulty ==> ToState(c, s', Faulty) == s' by { StaysFaulty(c, s'); }
    }
  }

  lemma StaysFaulty(c: Config, s: State)
    ensures s.portState == Faulty ==> ToState(c, s, Faulty) == s
  {
  }

  // ----- Sync and FollowUp -----

  /** What an offset of the size of the call signals in `p`. */
  function Signalled(p: PortState, offset: OffsetClass): set<Event> {
    if p == Uncalibrated && offset == Calibrated then {MasterClockSelected}
    else if p == Slave && offset in {Uncalibrating, Seconds} then {SynchronizationFault}
    else {}
  }

  /** A Sync has been used: its offset is signalled, nothing waits for a FollowUp, a reset of the clock forgets the peer
      exchange too, and a due request goes out. */
  ghost predicate Measured(c: Config, s: State, s': State, e: Env) {
    && s'.events == s.events + Signalled(s.portState, e.offset) && !s'.waitingForFollowUp
    && (e.offset == Seconds && e.clockReset ==> !s'.waitingForPeerFollowUp)
    && (!(e.offset == Seconds && e.clockReset) && s'.portState == s.portState ==>
          s'.waitingForPeerFollowUp == s.waitingForPeerFollowUp)
    && s'.recvSyncId == s.recvSyncId && Requested(c, s, s', e)
  }

  lemma OffsetIsSignalled(c: Config, s: State, s': State, e: Env)
    requires s' == s.(waitingForFollowUp := false, trace := s'.trace)
    ensures var s'' := IssueDelayReqTimerExpired(c, UpdateOffsetAndClock(s', e), e);
            Measured(c, s, s'', e) && s''.trace == s'.trace
  {
    hide IssueDelayReqTimerExpired, RequestDue, RequestFails, Wrap16;
    var measured := UpdateOffsetAndClock(s', e);
    DueIsRequested(c, measured, e);
    SameDue(c, s, measured, e);
  }

  lemma SameDue(c: Config, s: State, s': State, e: Env)
    requires s'.portState == s.portState && s'.armed == s.armed
    ensures (forall k :: RequestDue(c, s', e, k) <==> RequestDue(c, s, e, k))
            && (RequestFails(c, s', e) <==> RequestFails(c, s, e))
  {
    assert forall k :: RequestDue(c, s', e, k) <==> RequestDue(c, s, e, k);
    hide RequestDue;
  }

  /** The FollowUp a synchronizing port waits for is measured, and any other changes nothing. */
  lemma FollowUpMeasuredExactlyWhen(c: Config, s: State, p: Reception, e: Env)
    requires p.Packet? && p.length >= Codec.FOLLOW_UP_LENGTH && Synchronizing(s.portState)
    ensures var s', h := HandleFollowUp(c, s, p, e), p.header;
            if s.waitingForFollowUp && h.source == s.parent.port && h.source != c.port && h.sequenceId == s.recvSyncId
            then Measured(c, s, s', e) && s'.trace == s.trace + [FollowUpUsed(h.source, h.sequenceId)]
            else s' == s
  {
    var s' := s.(waitingForFollowUp := false, trace := s.trace + [FollowUpUsed(p.header.source, p.header.sequenceId)]);
    OffsetIsSignalled(c, s, s', e);
    hide IssueDelayReqTimerExpired, UpdateOffsetAndClock, Measured;
  }

  /** A Sync of the parent is measured at once when it is one-step, and otherwise waits for its FollowUp. */
  lemma SyncMeasuredExactlyWhen(c: Config, s: State, p: Reception, e: Env)
    requires p.Packet? && p.length >= Codec.SYNC_LENGTH && Synchronizing(s.portState)
    ensures var s', h := HandleSync(c, s, p, e), p.header;
            if h.source != s.parent.port || h.source == c.port then s' == s
            else if TwoStepFlag(h) then
              s'.waitingForFollowUp && s'.recvSyncId == h.sequenceId
              && s' == s.(waitingForFollowUp := true, recvSyncId := h.sequenceId,
                          trace := s.trace + [SyncStored(h.source, h.sequenceId)])
            else Measured(c, s, s', e) && s'.trace == s.trace + [SyncUsed(h.source)]
  {
    var s' := s.(waitingForFollowUp := false, trace := s.trace + [SyncUsed(p.header.source)]);
    OffsetIsSignalled(c, s, s', e);
    hide IssueDelayReqTimerExpired, UpdateOffsetAndClock, Measured;
  }

  // ----- One reception -----

  /** The shortest packet of each type that is not a fault, where the delay mechanism reads it. */
  function LeastLength(c: Config, messageType: int): nat {
    if messageType == Codec.ANNOUNCE then 64
    else if messageType == Codec.SYNC || messageType == Codec.FOLLOW_UP then 44
    else if messageType == Codec.DELAY_REQ && c.delayMechanism == E2E then 44
    else if messageType == Codec.DELAY_RESP && c.delayMechanism == E2E then 54
    else if messageType in {Codec.PDELAY_REQ, Codec.PDELAY_RESP, Codec.PDELAY_RESP_FOLLOW_UP} && c.delayMechanism == P2P
    then 54
    else 34
  }

  /** A whole packet of `messageType`, of the port's version and domain. */
  predicate Arrives(c: Config, e: Env, messageType: int) {
    && e.reception.Packet? && e.reception.header.messageType == messageType
    && e.reception.header.versionPTP == c.version && e.reception.header.domainNumber == c.domain
    && e.reception.length >= LeastLength(c, messageType)
  }

  /** What the network delivers is no whole packet. */
  predicate Broken(c: Config, e: Env) {
    || e.reception.Failure?
    || (e.reception.Packet?
        && (e.reception.length < 34
            || (e.reception.header.versionPTP == c.version && e.reception.header.domainNumber == c.domain
                && e.reception.length < LeastLength(c, e.reception.header.messageType))))
  }

  predicate FromParent(c: Config, s: State, h: Header) { h.source == s.parent.port && h.source != c.port }

  /** A two-step Sync of the parent. */
  predicate StoresSync(c: Config, s: State, e: Env) {
    Arrives(c, e, Codec.SYNC) && Synchronizing(s.portState) && FromParent(c, s, e.reception.header)
    && TwoStepFlag(e.reception.header)
  }

  predicate UsesSync(c: Config, s: State, e: Env) {
    Arrives(c, e, Codec.SYNC) && Synchronizing(s.portState) && FromParent(c, s, e.reception.header)
    && !TwoStepFlag(e.reception.header)
  }

  /** The FollowUp of the Sync that was stored last. */
  predicate UsesFollowUp(c: Config, s: State, e: Env) {
    Arrives(c, e, Codec.FOLLOW_UP) && Synchronizing(s.portState) && FromParent(c, s, e.reception.header)
    && s.waitingForFollowUp && e.reception.header.sequenceId == s.recvSyncId
  }

  predicate Measures(c: Config, s: State, e: Env) { UsesSync(c, s, e) || UsesFollowUp(c, s, e) }

  /** A passive port looks at its delay timer when a Sync or another's FollowUp comes in. */
  predicate WatchesTimer(c: Config, s: State, e: Env) {
    s.portState == Passive
    && (Arrives(c, e, Codec.SYNC) || (Arrives(c, e, Codec.FOLLOW_UP) && e.reception.header.source != c.port))
  }

  predicate HeedsAnnounce(c: Config, s: State, e: Env) {
    Arrives(c, e, Codec.ANNOUNCE) && e.reception.header.source != c.port
    && s.portState !in {Initializing, Faulty, Disabled}
  }

  predicate AnswersPeer(c: Config, s: State, e: Env) {
    Arrives(c, e, Codec.PDELAY_REQ) && c.delayMechanism == P2P && s.portState in {Passive, Slave, Master}
    && e.reception.header.source != c.port
  }

  /** The messages a reception makes the port send. */
  predicate Tries(c: Config, s: State, e: Env, k: Kind) {
    match k
    case DelayResponse => Arrives(c, e, Codec.DELAY_REQ) && c.delayMechanism == E2E && s.portState == Master
    case PeerResponse => AnswersPeer(c, s, e)
    case PeerFollowUp => AnswersPeer(c, s, e) && PeerResponse !in e.unstamped && TwoStepFlag(e.reception.header)
    case DelayRequest => Measures(c, s, e) && RequestDue(c, s, e, k)
    case PeerRequest => (Measures(c, s, e) || WatchesTimer(c, s, e)) && RequestDue(c, s, e, k)
    case _ => false
  }

  /** The answer to the port's last request: of its number, to this port, and end to end from its parent. */
  predicate Accepts(c: Config, s: State, e: Env) {
    || (Arrives(c, e, Codec.DELAY_RESP) && c.delayMechanism == E2E && Synchronizing(s.portState)
        && e.reception.header.sequenceId + 1 == s.sentDelayReq && e.reception.requester == c.port
        && e.reception.header.source == s.parent.port)
    || (Arrives(c, e, Codec.PDELAY_RESP) && c.delayMechanism == P2P && s.portState in {Master, Slave}
        && e.reception.header.sequenceId + 1 == s.sentPDelayReq && e.reception.requester == c.port
        && e.reception.header.source != c.port && !TwoStepFlag(e.reception.header))
    || (Arrives(c, e, Codec.PDELAY_RESP_FOLLOW_UP) && c.delayMechanism == P2P && s.portState in {Master, Slave}
        && e.reception.header.sequenceId + 1 == s.sentPDelayReq && s.waitingForPeerFollowUp)
  }

  /** A message could not be sent. */
  ghost predicate SendFails(c: Config, s: State, e: Env) { exists k :: Tries(c, s, e, k) && k in e.failing }

  /** What a reception sends, and when it leaves the port faulty. */
  ghost predicate Sends(c: Config, s: State, s': State, e: Env) {
    && (forall k :: k in s'.sent <==> k in s.sent || Tries(c, s, e, k))
    && s'.portState == (if Broken(c, e) || SendFails(c, s, e) then Faulty else s.portState)
    && s'.sentSync == s.sentSync && s'.sentAnnounce == s.sentAnnounce
    && s'.sentDelayReq == (if Tries(c, s, e, DelayRequest) && DelayRequest !in e.failing
                           then Wrap16(s.sentDelayReq + 1) else s.sentDelayReq)
    && s'.sentPDelayReq == (if Tries(c, s, e, PeerRequest) && PeerRequest !in e.failing
                            then Wrap16(s.sentPDelayReq + 1) else s.sentPDelayReq)
  }

  /** What a reception leaves on record of the answers and Syncs it has used, and which events it raises. */
  predicate Records(c: Config, s: State, s': State, e: Env) {
    && s'.accepted == s.accepted + (if Accepts(c, s, e) then 1 else 0)
    && s'.trace == (if StoresSync(c, s, e) then
                      s.trace + [SyncStored(e.reception.header.source, e.reception.header.sequenceId)]
                    else if UsesSync(c, s, e) then s.trace + [SyncUsed(e.reception.header.source)]
                    else if UsesFollowUp(c, s, e) then
                      s.trace + [FollowUpUsed(e.reception.header.source, e.reception.header.sequenceId)]
                    else s.trace)
    && s'.events == s.events + (if Measures(c, s, e) then Signalled(s.portState, e.offset) else {})
                    + (if HeedsAnnounce(c, s, e) then {StateDecision} else {})
  }

  /** The peer's answer to the last request, of which a two-step one waits for its follow-up. */
  predicate PeerAnswers(c: Config, s: State, e: Env) {
    Arrives(c, e, Codec.PDELAY_RESP) && c.delayMechanism == P2P && s.portState in {Master, Slave}
    && e.reception.header.sequenceId + 1 == s.sentPDelayReq && e.reception.requester == c.port
    && e.reception.header.source != c.port
  }

  /** What a port that stays in its state waits for after a reception. */
  predicate Waits(c: Config, s: State, s': State, e: Env) {
    s'.portState == s.portState ==>
      && s'.waitingForFollowUp == (StoresSync(c, s, e) || (s.waitingForFollowUp && !Measures(c, s, e)))
      && s'.recvSyncId == (if StoresSync(c, s, e) then e.reception.header.sequenceId else s.recvSyncId)
      && s'.waitingForPeerFollowUp ==
         (if PeerAnswers(c, s, e) then TwoStepFlag(e.reception.header)
          else s.waitingForPeerFollowUp && !(c.delayMechanism == P2P && Accepts(c, s, e))
               && !(Measures(c, s, e) && e.offset == Seconds && e.clockReset))
  }

  ghost predicate Decided(c: Config, s: State, s': State, e: Env) {
    Sends(c, s, s', e) && Records(c, s, s', e) && Waits(c, s, s', e)
  }

  /** One reception, of anything: what it sends, accepts, measures and signals, what the port then waits for, and
      when it is a fault. */
  lemma ReceptionDecides(c: Config, s: State, e: Env)
    requires FM.Valid(s.ring)
    ensures Decided(c, s, Handle(c, s, e), e)
  {
    var s' := Handle(c, s, e);
    if Broken(c, e) {
      BrokenFaults(c, s, e);
    } else if Arrives(c, e, Codec.ANNOUNCE) {
      AnnounceDecides(c, s, e);
    } else if Arrives(c, e, Codec.SYNC) {
      SyncDecides(c, s, e);
    } else if Arrives(c, e, Codec.FOLLOW_UP) {
      FollowUpDecides(c, s, e);
    } else if Arrives(c, e, Codec.DELAY_REQ) || Arrives(c, e, Codec.DELAY_RESP) {
      DelayDecides(c, s, e);
    } else {
      PeerDecides(c, s, e);
    }
    hide Decided, Handle;
  }

  lemma BrokenFaults(c: Config, s: State, e: Env)
    requires FM.Valid(s.ring) && Broken(c, e)
    ensures Decided(c, s, Handle(c, s, e), e)
  {
    assert Handle(c, s, e) == ToState(c, s, Faulty) by { hide ToState; }
    ToStateForgets(c, s, Faulty);
    StaysFaulty(c, s);
    hide ToState, Handle;
  }

  lemma AnnounceDecides(c: Config, s: State, e: Env)
    requires FM.Valid(s.ring) && Arrives(c, e, Codec.ANNOUNCE)
    ensures Decided(c, s, Handle(c, s, e), e)
  {
    var s' := Handle(c, s, e);
    assert s' == HandleAnnounce(c, s, e.reception) by { hide HandleAnnounce, ToState; }
    AnnounceTouches(c, s, e.reception);
    TypesDiffer(c, e, Codec.ANNOUNCE);
    hide Handle, HandleAnnounce, Arrives, Broken;
    NothingSent(c, s, s', e);
    hide Sends;
  }

  lemma AnnounceTouches(c: Config, s: State, p: Reception)
    requires FM.Valid(s.ring) && p.Packet? && p.length >= Codec.ANNOUNCE_LENGTH
    ensures var s' := HandleAnnounce(c, s, p);
            && s' == s.(events := s'.events, armed := s'.armed, ring := s'.ring, heard := s'.heard, parent := s'.parent,
                        stepsRemoved := s'.stepsRemoved)
            && s'.events == s.events + (if p.header.source == c.port || s.portState in {Initializing, Faulty, Disabled}
                                        then {} else {StateDecision})
  {
    hide FM.Added, ToState, HandleAnnounceSynchronizing;
    if Synchronizing(s.portState) {
      SynchronizingTouches(c, s, p.header, p.announce);
    }
  }

  lemma SynchronizingTouches(c: Config, s: State, h: Header, a: Announce)
    requires FM.Valid(s.ring)
    ensures var s' := HandleAnnounceSynchronizing(c, s, h, a);
            && s'.events == s.events + {StateDecision}
            && s' == s.(events := s'.events, armed := s'.armed, ring := s'.ring, heard := s'.heard, parent := s'.parent,
                        stepsRemoved := s'.stepsRemoved)
  {
    hide FM.Added;
  }

  lemma SyncDecides(c: Config, s: State, e: Env)
    requires FM.Valid(s.ring) && Arrives(c, e, Codec.SYNC)
    ensures Decided(c, s, Handle(c, s, e), e)
  {
    var s', p := Handle(c, s, e), e.reception;
    assert s' == HandleSync(c, s, p, e) by { hide HandleSync, ToState; }
    assert p.Packet? && p.length >= Codec.SYNC_LENGTH;
    if !Synchronizing(s.portState) {
      SyncWatched(c, s, p, e);
    }
    TypesDiffer(c, e, Codec.SYNC);
    assert StoresSync(c, s, e) <==> Synchronizing(s.portState) && FromParent(c, s, p.header) && TwoStepFlag(p.header);
    assert UsesSync(c, s, e) <==> Synchronizing(s.portState) && FromParent(c, s, p.header) && !TwoStepFlag(p.header);
    assert WatchesTimer(c, s, e) <==> s.portState == Passive;
    hide Handle, HandleSync, ToState, Arrives, Broken, Requested, RequestDue, StoresSync, UsesSync, WatchesTimer,
         Signalled;
    if Synchronizing(s.portState) {
      SyncMeasuredExactlyWhen(c, s, p, e);
    }
    if UsesSync(c, s, e) || WatchesTimer(c, s, e) {
      OnlyRequests(c, s, s', e);
    } else {
      NothingSent(c, s, s', e);
    }
    hide Sends;
  }

  lemma SyncWatched(c: Config, s: State, p: Reception, e: Env)
    requires p.Packet? && p.length >= Codec.SYNC_LENGTH && !Synchronizing(s.portState)
    ensures var s' := HandleSync(c, s, p, e);
            if s.portState == Passive then Requested(c, s, s', e) && s'.events == s.events && s'.trace == s.trace
            else s' == s
  {
    DueIsRequested(c, s, e);
    hide IssueDelayReqTimerExpired, Requested;
  }

  lemma FollowUpWatched(c: Config, s: State, p: Reception, e: Env)
    requires p.Packet? && p.length >= Codec.FOLLOW_UP_LENGTH && !Synchronizing(s.portState)
    ensures var s' := HandleFollowUp(c, s, p, e);
            if s.portState == Passive && p.header.source != c.port then
              Requested(c, s, s', e) && s'.events == s.events && s'.trace == s.trace
            else s' == s
  {
    DueIsRequested(c, s, e);
    hide IssueDelayReqTimerExpired, Requested;
  }

  /** A packet has one type. */
  lemma TypesDiffer(c: Config, e: Env, t: int)
    requires Arrives(c, e, t)
    ensures !Broken(c, e) && forall u :: Arrives(c, e, u) ==> u == t
  {
  }

  lemma OnlyRequests(c: Config, s: State, s': State, e: Env)
    requires (Measures(c, s, e) || WatchesTimer(c, s, e)) && Requested(c, s, s', e)
    ensures Sends(c, s, s', e)
  {
    var t := e.reception.header.messageType;
    TypesDiffer(c, e, t);
    assert t == Codec.SYNC || t == Codec.FOLLOW_UP;
    assert s.portState == Passive && c.delayMechanism == E2E ==> !RequestDue(c, s, e, DelayRequest);
    forall k ensures Tries(c, s, e, k) <==> RequestDue(c, s, e, k) {
      hide Arrives, Broken, Measures, WatchesTimer, Check;
    }
    assert SendFails(c, s, e) <==> RequestFails(c, s, e);
    hide Arrives, Broken, Measures, WatchesTimer, RequestDue, Tries;
  }

  lemma NothingSent(c: Config, s: State, s': State, e: Env)
    requires !Broken(c, e) && s'.sent == s.sent && s'.portState == s.portState
    requires s'.sentSync == s.sentSync && s'.sentAnnounce == s.sentAnnounce
    requires s'.sentDelayReq == s.sentDelayReq && s'.sentPDelayReq == s.sentPDelayReq
    requires forall k :: !Tries(c, s, e, k)
    ensures Sends(c, s, s', e)
  {
    hide Tries, Broken;
  }

  lemma FollowUpDecides(c: Config, s: State, e: Env)
    requires FM.Valid(s.ring) && Arrives(c, e, Codec.FOLLOW_UP)
    ensures Decided(c, s, Handle(c, s, e), e)
  {
    var s', p := Handle(c, s, e), e.reception;
    assert s' == HandleFollowUp(c, s, p, e) by { hide HandleFollowUp, ToState; }
    assert p.Packet? && p.length >= Codec.FOLLOW_UP_LENGTH;
    TypesDiffer(c, e, Codec.FOLLOW_UP);
    if !Synchronizing(s.portState) {
      FollowUpWatched(c, s, p, e);
    }
    assert UsesFollowUp(c, s, e) <==> Synchronizing(s.portState) && FromParent(c, s, p.header) && s.waitingForFollowUp
                                      && p.header.sequenceId == s.recvSyncId;
    assert WatchesTimer(c, s, e) <==> s.portState == Passive && p.header.source != c.port;
    hide Handle, HandleFollowUp, ToState, Arrives, Broken, Requested, RequestDue, UsesFollowUp, WatchesTimer, Signalled;
    if Synchronizing(s.portState) {
      FollowUpMeasuredExactlyWhen(c, s, p, e);
    }
    if UsesFollowUp(c, s, e) || WatchesTimer(c, s, e) {
      OnlyRequests(c, s, s', e);
    } else {
      NothingSent(c, s, s', e);
    }
    hide Sends;
  }

  lemma DelayDecides(c: Config, s: State, e: Env)
    requires FM.Valid(s.ring) && (Arrives(c, e, Codec.DELAY_REQ) || Arrives(c, e, Codec.DELAY_RESP))
    ensures Decided(c, s, Handle(c, s, e), e)
  {
    ToStateForgets(c, s.(sent := s.sent + {DelayResponse}), Faulty);
    assert !StoresSync(c, s, e) && !Measures(c, s, e) && !PeerAnswers(c, s, e) && !HeedsAnnounce(c, s, e);
    hide ToState;
  }

  /** The peer messages, and what the port has no use for. */
  lemma PeerDecides(c: Config, s: State, e: Env)
    requires FM.Valid(s.ring) && !Broken(c, e)
    requires forall t | t in {Codec.ANNOUNCE, Codec.SYNC, Codec.FOLLOW_UP, Codec.DELAY_REQ, Codec.DELAY_RESP} ::
               !Arrives(c, e, t)
    ensures Decided(c, s, Handle(c, s, e), e)
  {
    if AnswersPeer(c, s, e) {
      TypesDiffer(c, e, Codec.PDELAY_REQ);
      PeerIsAnswered(c, s, e);
    } else {
      PeerIsRecorded(c, s, e);
    }
  }

  lemma PeerIsAnswered(c: Config, s: State, e: Env)
    requires FM.Valid(s.ring) && AnswersPeer(c, s, e) && !Broken(c, e)
    ensures Decided(c, s, Handle(c, s, e), e)
  {
    assert Handle(c, s, e) == HandlePDelayReq(c, s, e.reception, e) by { hide HandlePDelayReq; }
    TypesDiffer(c, e, Codec.PDELAY_REQ);
    assert e.reception.Packet? && e.reception.length >= Codec.PDELAY_REQ_LENGTH;
    hide Handle, Arrives, Broken;
    var followed := PeerResponse !in e.unstamped && TwoStepFlag(e.reception.header);
    PeerAnswer(c, s, e, followed);
    assert !Accepts(c, s, e) && !Measures(c, s, e) && !StoresSync(c, s, e) && !PeerAnswers(c, s, e);
    assert SendFails(c, s, e) <==> PeerResponse in e.failing || (followed && PeerFollowUp in e.failing) by {
      assert Tries(c, s, e, PeerResponse) && (Tries(c, s, e, PeerFollowUp) <==> followed);
    }
    hide ToState, Send;
  }

  lemma PeerAnswer(c: Config, s: State, e: Env, followed: bool)
    ensures var s1 := Send(c, s, PeerResponse, e);
            var s' := if followed then Send(c, s1, PeerFollowUp, e) else s1;
            && s'.sent == s.sent + {PeerResponse} + (if followed then {PeerFollowUp} else {})
            && s' == s.(portState := s'.portState, armed := s'.armed, waitingForFollowUp := s'.waitingForFollowUp,
                        waitingForPeerFollowUp := s'.waitingForPeerFollowUp, sent := s'.sent)
            && s'.portState == (if PeerResponse in e.failing || (followed && PeerFollowUp in e.failing) then Faulty
                                else s.portState)
  {
    hide ToState;
    var s1 := Send(c, s, PeerResponse, e);
    ToStateForgets(c, s.(sent := s.sent + {PeerResponse}), Faulty);
    ToStateForgets(c, s1.(sent := s1.sent + {PeerFollowUp}), Faulty);
  }

  lemma PeerIsRecorded(c: Config, s: State, e: Env)
    requires FM.Valid(s.ring) && !AnswersPeer(c, s, e) && !Broken(c, e)
    requires forall t | t in {Codec.ANNOUNCE, Codec.SYNC, Codec.FOLLOW_UP, Codec.DELAY_REQ, Codec.DELAY_RESP} ::
               !Arrives(c, e, t)
    ensures Decided(c, s, Handle(c, s, e), e)
  {
    hide ToState, Send, HandleAnnounce, HandleSync, HandleFollowUp, HandleDelayReq, HandleDelayResp;
    assert !Arrives(c, e, Codec.ANNOUNCE) && !Arrives(c, e, Codec.SYNC) && !Arrives(c, e, Codec.FOLLOW_UP)
           && !Arrives(c, e, Codec.DELAY_REQ) && !Arrives(c, e, Codec.DELAY_RESP);
    NothingSent(c, s, Handle(c, s, e), e);
    hide Sends;
  }

  /** The same answer again is accepted again until the next request goes out, unless it is the follow-up of a peer:
      only that one is waited for. */
  lemma AcceptedAgainExactlyWhen(c: Config, s: State, e: Env)
    requires FM.Valid(s.ring) && Accepts(c, s, e)
    ensures Accepts(c, Handle(c, s, e), e) <==> e.reception.header.messageType != Codec.PDELAY_RESP_FOLLOW_UP
  {
    var s' := Handle(c, s, e);
    var t := e.reception.header.messageType;
    assert t in {Codec.DELAY_RESP, Codec.PDELAY_RESP, Codec.PDELAY_RESP_FOLLOW_UP} && Arrives(c, e, t);
    TypesDiffer(c, e, t);
    ReceptionDecides(c, s, e);
    HandleIsCalm(c, s.parent.port, s, e);
    assert forall k :: !Tries(c, s, e, k);
    hide Handle, Arrives, Broken, Records, QuietTrace, TimersOk;
  }

  // ----- Announces -----

  /** An announce of another clock asks for a decision and is on record: that of the parent in the data sets, and any
      other in the table, unless a search with the flag set starts out of use. */
  lemma AnnounceIsHeard(c: Config, s: State, e: Env)
    requires FM.Valid(s.ring) && HeedsAnnounce(c, s, e)
    ensures var s', h, a := Handle(c, s, e), e.reception.header, e.reception.announce;
            && StateDecision in s'.events && s'.heard == s.heard + {Heard(h, a)}
            && s'.armed == s.armed + (if s.portState == Passive
                                         || (Synchronizing(s.portState) && h.source == s.parent.port)
                                      then {AnnounceReceipt} else {})
            && if Synchronizing(s.portState) && h.source == s.parent.port then
                 s'.parent == ParentFrom(h, a) && s'.stepsRemoved == Wrap16(a.stepsRemoved + 1) && s'.ring == s.ring
               else
                 && s'.parent == s.parent && s'.stepsRemoved == s.stepsRemoved
                 && ((c.matching == FM.Intended && s.ring.count > 0 ==> s.ring.best < s.ring.count) ==>
                       InTable(s'.ring, h, a))
  {
    var h, a := e.reception.header, e.reception.announce;
    assert Handle(c, s, e) == HandleAnnounce(c, s, e.reception) by { hide HandleAnnounce, ToState; }
    hide Handle;
    if !(Synchronizing(s.portState) && h.source == s.parent.port)
       && (c.matching == FM.Intended && s.ring.count > 0 ==> s.ring.best < s.ring.count) {
      var k := FM.AddedIsHeld(s.ring, h, a, c.matching);
    }
    hide FM.Added;
  }

  ghost predicate InTable(r: FM.Ring, h: Header, a: Announce) {
    r.count <= |r.slots| && exists k | 0 <= k < r.count :: r.slots[k].header == h && r.slots[k].announce == a
  }

  // ----- The announce timeout -----

  /** A port that hears no announce in time empties its table, and is from then on its own parent and master or, where
      it cannot be, listens. */
  lemma TimeoutDecides(c: Config, s: State, e: Env)
    requires FM.Valid(s.ring) && TimersOk(c, s) && s.portState in {Listening, Uncalibrated, Slave, Passive}
    requires AnnounceReceipt in e.expired
    ensures var s' := Act(c, s, e);
            && s'.ring == s.ring.(count := 0, i := 0) && s'.heard == {} && s'.events == s.events && s'.sent == s.sent
            && (if CannotBeMaster(c) then
                  s'.portState == Listening && s'.parent == s.parent
                  && (s.portState == Listening ==> s'.recommended == s.recommended)
                  && (s.portState != Listening ==> s'.recommended == Listening)
                else
                  s'.portState == s'.recommended == Master && s'.parent == OwnParent(c) && s'.stepsRemoved == 0)
  {
    var s1 := s.(ring := s.ring.(count := 0, i := 0), heard := {});
    ToStateForgets(c, M1(c, s1).(recommended := Master), Master);
    ToStateForgets(c, s1, Listening);
    hide ToState;
  }

  /** As long as an announce is not overdue, a port that is not master acts on what it receives. */
  lemma ReceiverActs(c: Config, s: State, e: Env)
    requires FM.Valid(s.ring) && s.portState in {Listening, Uncalibrated, Slave, Passive}
    requires AnnounceReceipt !in s.armed || AnnounceReceipt !in e.expired
    ensures Decided(c, s, Act(c, s, e), e)
  {
    ReceptionDecides(c, s, e);
    hide Handle, Decided;
  }

  // ----- What a master sends -----

  predicate SyncFollowed(c: Config, e: Env) { Syncing !in e.failing && Syncing !in e.unstamped && c.twoStep }

  /** The Sync of the call, or its FollowUp, does not go out. */
  predicate SyncFails(c: Config, s: State, e: Env) {
    Check(s, SyncInterval, e) && (Syncing in e.failing || (SyncFollowed(c, e) && FollowingUp in e.failing))
  }

  predicate AnnounceDue(c: Config, s: State, e: Env) { Check(s, AnnounceInterval, e) && !SyncFails(c, s, e) }

  /** The port is faulty before its peer timer is looked at. */
  ghost predicate FailsBefore(c: Config, s: State, e: Env) {
    SyncFails(c, s, e) || (AnnounceDue(c, s, e) && Announcing in e.failing) || Broken(c, e) || SendFails(c, s, e)
  }

  lemma SyncGoesOut(c: Config, s: State, e: Env)
    requires s.portState == Master && TimersOk(c, s) && SyncInterval in e.expired
    ensures var s' := IssueSync(c, s, e);
            && s'.sent == s.sent + {Syncing} + (if SyncFollowed(c, e) then {FollowingUp} else {})
            && s'.sentSync == (if Syncing in e.failing then s.sentSync else Wrap16(s.sentSync + 1))
            && s'.portState == (if SyncFails(c, s, e) then Faulty else Master)
            && s' == s.(portState := s'.portState, armed := s'.armed, waitingForFollowUp := s'.waitingForFollowUp,
                        waitingForPeerFollowUp := s'.waitingForPeerFollowUp, sent := s'.sent, sentSync := s'.sentSync)
            && TimersOk(c, s') && (s'.portState == Master ==> s' == s.(sent := s'.sent, sentSync := s'.sentSync))
  {
    assert Check(s, SyncInterval, e);
    hide ToState, TimersOf;
    var s1 := s.(sent := s.sent + {Syncing});
    ToStateForgets(c, s1, Faulty);
    ToStateTimers(c, s1, Faulty);
    var s2 := s1.(sentSync := Wrap16(s.sentSync + 1), sent := s1.sent + {FollowingUp});
    ToStateForgets(c, s2, Faulty);
    ToStateTimers(c, s2, Faulty);
  }

  lemma AnnounceGoesOut(c: Config, s: State, e: Env)
    requires s.portState == Master && TimersOk(c, s)
    ensures var s' := IssueAnnounce(c, s, e);
            && s'.sent == s.sent + {Announcing}
            && s'.sentAnnounce == (if Announcing in e.failing then s.sentAnnounce else Wrap16(s.sentAnnounce + 1))
            && s'.portState == (if Announcing in e.failing then Faulty else Master)
            && s' == s.(portState := s'.portState, armed := s'.armed, waitingForFollowUp := s'.waitingForFollowUp,
                        waitingForPeerFollowUp := s'.waitingForPeerFollowUp, sent := s'.sent,
                        sentAnnounce := s'.sentAnnounce)
            && TimersOk(c, s')
            && (s'.portState == Master ==> s' == s.(sent := s'.sent, sentAnnounce := s'.sentAnnounce))
  {
    hide ToState, TimersOf;
    var s1 := s.(sent := s.sent + {Announcing});
    ToStateForgets(c, s1, Faulty);
    ToStateTimers(c, s1, Faulty);
  }

  lemma MasterReceives(c: Config, s: State, e: Env)
    requires FM.Valid(s.ring) && TimersOk(c, s) && s.portState in {Master, Faulty}
    ensures var s' := IssueDelayReqTimerExpired(c, Handle(c, s, e), e);
            && (forall k | k in {Syncing, FollowingUp, Announcing} :: k in s'.sent <==> k in s.sent)
            && s'.sentSync == s.sentSync && s'.sentAnnounce == s.sentAnnounce
            && s'.portState == (if s.portState == Faulty || Broken(c, e) || SendFails(c, s, e)
                                   || (RequestDue(c, s, e, PeerRequest) && PeerRequest in e.failing)
                                then Faulty else Master)
            && Records(c, s, s', e)
  {
    ReceptionDecides(c, s, e);
    var s' := Handle(c, s, e);
    if s.portState == Master && s'.portState == Master {
      MasterTimers(c, s, e);
      assert forall k :: RequestDue(c, s, e, k) <==> RequestDue(c, s', e, k);
      assert !RequestDue(c, s, e, DelayRequest);
    }
    DueIsRequested(c, s', e);
    hide Handle, IssueDelayReqTimerExpired, TimersOf, Broken, SendFails, Records, Waits;
  }

  lemma MasterTimers(c: Config, s: State, e: Env)
    requires FM.Valid(s.ring) && TimersOk(c, s) && s.portState == Handle(c, s, e).portState == Master
    ensures Handle(c, s, e).armed == s.armed
  {
    if HeedsAnnounce(c, s, e) {
      AnnounceIsHeard(c, s, e);
    } else if e.reception.Packet? && e.reception.header.messageType == Codec.ANNOUNCE {
      ToStateForgets(c, s, Faulty);
      hide ToState;
      assert Handle(c, s, e) == s;
    } else {
      HandleIsCalm(c, s.parent.port, s, e);
    }
    hide Handle, TimersOf, Broken;
  }

  /** A call of a master: a Sync, its FollowUp and an Announce go out exactly when their timers have expired and
      nothing before them failed; then the answers to what was received; then a due peer request. */
  lemma MasterActs(c: Config, s: State, e: Env)
    requires FM.Valid(s.ring) && s.portState == Master && TimersOk(c, s)
    ensures var s' := Act(c, s, e);
            && (Syncing in s'.sent <==> Syncing in s.sent || SyncInterval in e.expired)
            && (FollowingUp in s'.sent <==> FollowingUp in s.sent || (SyncInterval in e.expired && SyncFollowed(c, e)))
            && (Announcing in s'.sent
                <==> Announcing in s.sent || (AnnounceInterval in e.expired && !SyncFails(c, s, e)))
            && s'.sentSync == (if SyncInterval in e.expired && Syncing !in e.failing then Wrap16(s.sentSync + 1)
                               else s.sentSync)
            && s'.sentAnnounce == (if AnnounceDue(c, s, e) && Announcing !in e.failing then Wrap16(s.sentAnnounce + 1)
                                   else s.sentAnnounce)
            && s'.portState == (if FailsBefore(c, s, e)
                                   || (RequestDue(c, s, e, PeerRequest) && PeerRequest in e.failing)
                                then Faulty else Master)
            && (!SyncFails(c, s, e) && !(AnnounceDue(c, s, e) && Announcing in e.failing) ==> Records(c, s, s', e))
  {
    hide IssueSync, IssueAnnounce, Handle, IssueDelayReqTimerExpired, SendFails, RequestDue, Broken, Wrap16, TimersOf,
         Records, TimersOk, SyncFollowed;
    MasterSyncs(c, s, e);
    var s1 := if Check(s, SyncInterval, e) then IssueSync(c, s, e) else s;
    MasterAnnounces(c, s1, e);
    var s2 := if Check(s1, AnnounceInterval, e) then IssueAnnounce(c, s1, e) else s1;
    MasterReceives(c, s2, e);
    if s2.portState == Master {
      SameFailures(c, s, s2, e);
      SameRecords(c, s, s2, Act(c, s, e), e);
    }
  }

  lemma MasterSyncs(c: Config, s: State, e: Env)
    requires TimersOk(c, s) && s.portState == Master
    ensures var s' := if Check(s, SyncInterval, e) then IssueSync(c, s, e) else s;
            var due := SyncInterval in e.expired;
            && s' == s.(portState := s'.portState, armed := s'.armed, waitingForFollowUp := s'.waitingForFollowUp,
                        waitingForPeerFollowUp := s'.waitingForPeerFollowUp, sent := s'.sent, sentSync := s'.sentSync)
            && TimersOk(c, s') && (Check(s, SyncInterval, e) <==> due) && AnnounceInterval in s.armed
            && s'.sent == s.sent + (if due then {Syncing} else {})
                          + (if due && SyncFollowed(c, e) then {FollowingUp} else {})
            && s'.sentSync == (if due && Syncing !in e.failing then Wrap16(s.sentSync + 1) else s.sentSync)
            && s'.portState == (if SyncFails(c, s, e) then Faulty else Master)
            && (s'.portState == Master ==> s'.armed == s.armed && s' == s.(sent := s'.sent, sentSync := s'.sentSync))
  {
    if SyncInterval in e.expired {
      SyncGoesOut(c, s, e);
    }
    hide IssueSync, Wrap16, SyncFollowed;
  }

  lemma MasterAnnounces(c: Config, s: State, e: Env)
    requires TimersOk(c, s) && s.portState in {Master, Faulty}
    ensures var s' := if Check(s, AnnounceInterval, e) then IssueAnnounce(c, s, e) else s;
            var due := s.portState == Master && AnnounceInterval in e.expired;
            && s' == s.(portState := s'.portState, armed := s'.armed, waitingForFollowUp := s'.waitingForFollowUp,
                        waitingForPeerFollowUp := s'.waitingForPeerFollowUp, sent := s'.sent,
                        sentAnnounce := s'.sentAnnounce)
            && TimersOk(c, s') && s'.sent == s.sent + (if due then {Announcing} else {})
            && s'.sentAnnounce == (if due && Announcing !in e.failing then Wrap16(s.sentAnnounce + 1)
                                   else s.sentAnnounce)
            && s'.portState == (if due && Announcing in e.failing then Faulty else s.portState)
            && (s'.portState == Master ==> s' == s.(sent := s'.sent, sentAnnounce := s'.sentAnnounce))
  {
    if s.portState == Master {
      AnnounceGoesOut(c, s, e);
    }
    hide IssueAnnounce, Wrap16;
  }

  lemma SameRecords(c: Config, s: State, s1: State, s': State, e: Env)
    requires s1 == s.(sent := s1.sent, sentSync := s1.sentSync, sentAnnounce := s1.sentAnnounce)
    requires Records(c, s1, s', e)
    ensures Records(c, s, s', e)
  {
    assert Accepts(c, s1, e) <==> Accepts(c, s, e);
    hide Arrives;
  }

  /** Whether a reception fails depends on the state and what it compares with, not on what was sent before. */
  lemma SameFailures(c: Config, s: State, s': State, e: Env)
    requires s'.portState == s.portState == Master && s'.armed == s.armed
    ensures (SendFails(c, s', e) <==> SendFails(c, s, e))
    ensures RequestDue(c, s', e, PeerRequest) <==> RequestDue(c, s, e, PeerRequest)
  {
    assert forall k :: Tries(c, s', e, k) <==> Tries(c, s, e, k) by {
      hide Arrives;
    }
    hide Tries;
  }
}
