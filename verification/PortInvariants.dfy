/** What every call of the port state machine keeps. */
module PortInvariants {
  import opened Types
  import opened Words
  import opened Messages
  import opened BmcOrder
  import opened BmcDecision
  import FM = ForeignMasters
  import opened Port

  // ----- Timers -----

  /** The timers that run in a state. */
  function TimersOf(c: Config, p: PortState): set<Timer> {
    match p
    case Listening => {AnnounceReceipt}
    case Master => {SyncInterval, AnnounceInterval} + PeerTimer(c)
    case Passive => {AnnounceReceipt} + PeerTimer(c)
    case Uncalibrated => {AnnounceReceipt} + DelayTimer(c)
    case Slave => {AnnounceReceipt} + DelayTimer(c)
    case PreMaster => {QualificationTimeout}
    case _ => {}
  }

  function PeerTimer(c: Config): set<Timer> { if c.delayMechanism == P2P then {PDelayReqInterval} else {} }

  function DelayTimer(c: Config): set<Timer> {
    match c.delayMechanism
    case E2E => {DelayReqInterval}
    case P2P => {PDelayReqInterval}
    case DelayDisabled => {}
  }

  predicate TimersOk(c: Config, s: State) { s.armed == TimersOf(c, s.portState) }

  lemma LeaveStops(c: Config, s: State, target: PortState)
    requires TimersOk(c, s)
    ensures Leave(c, s, target).armed == if Synchronizing(s.portState) && Synchronizing(target) then s.armed else {}
  {
  }

  /** SLAVE is entered from UNCALIBRATED only, and takes its timers over. */
  lemma ToStateTimers(c: Config, s: State, target: PortState)
    requires TimersOk(c, s) && (target == Slave ==> Synchronizing(s.portState))
    ensures TimersOk(c, ToState(c, s, target))
  {
    LeaveStops(c, s, target);
    hide Leave;
  }

  // ----- What a change of state leaves alone -----

  function Landing(target: PortState): PortState { if target == PreMaster then Master else target }

  lemma ToStateForgets(c: Config, s: State, target: PortState)
    ensures var s' := ToState(c, s, target);
            && (s'.waitingForFollowUp ==> s.waitingForFollowUp)
            && (s'.waitingForPeerFollowUp ==> s.waitingForPeerFollowUp)
            && s' == s.(portState := Landing(target), armed := s'.armed, waitingForFollowUp := s'.waitingForFollowUp,
                        recommended := if target in {Initializing, Listening} then target else s.recommended,
                        waitingForPeerFollowUp := s'.waitingForPeerFollowUp)
  {
    LeaveForgets(c, s, target);
    hide Leave;
  }

  lemma LeaveForgets(c: Config, s: State, target: PortState)
    ensures var s' := Leave(c, s, target);
            && (s'.waitingForFollowUp ==> s.waitingForFollowUp)
            && (s'.waitingForPeerFollowUp ==> s.waitingForPeerFollowUp)
            && s' == s.(armed := s'.armed, waitingForFollowUp := s'.waitingForFollowUp,
                        waitingForPeerFollowUp := s'.waitingForPeerFollowUp)
  {
    if Synchronizing(s.portState) {
      LeaveSlaveForgets(c, s, target);
    }
    hide LeaveSlave;
  }

  lemma LeaveSlaveForgets(c: Config, s: State, target: PortState)
    ensures var s' := LeaveSlave(c, s, target);
            && (s'.waitingForFollowUp ==> s.waitingForFollowUp)
            && (s'.waitingForPeerFollowUp ==> s.waitingForPeerFollowUp)
            && s' == s.(armed := s'.armed, waitingForFollowUp := s'.waitingForFollowUp,
                        waitingForPeerFollowUp := s'.waitingForPeerFollowUp)
  {
  }

  // ----- Traces -----

  /** A two-step Sync that no FollowUp has used; `kept` while the parent has not changed since. */
  datatype Pending = Pending(source: PortIdentity, id: int, kept: bool)

  function Open(t: seq<Trace>): Option<Pending> {
    if t == [] then None else
      match t[|t| - 1]
      case SyncStored(source, id) => Some(Pending(source, id, true))
      case SyncUsed(_) => None
      case FollowUpUsed(_, _) => None
      case ParentChanged(_) =>
        match Open(t[..|t| - 1])
        case None => None
        case Some(p) => Some(p.(kept := false))
  }

  function CurrentParent(first: PortIdentity, t: seq<Trace>): PortIdentity {
    if t == [] then first
    else if t[|t| - 1].ParentChanged? then t[|t| - 1].port
    else CurrentParent(first, t[..|t| - 1])
  }

  /** Every Sync and every FollowUp came from the parent of the moment, and every FollowUp carried the number of
      the last two-step Sync, which nothing had used; with the same parent throughout, both had one sender. */
  predicate Matched(first: PortIdentity, t: seq<Trace>) {
    t == [] ||
    var front, last := t[..|t| - 1], t[|t| - 1];
    && Matched(first, front)
    && (last.SyncStored? || last.SyncUsed? ==> last.source == CurrentParent(first, front))
    && (last.FollowUpUsed? ==>
          && last.source == CurrentParent(first, front)
          && var open := Open(front);
             open.Some? && open.value.id == last.id && (open.value.kept ==> open.value.source == last.source))
  }

  predicate TraceOk(first: PortIdentity, s: State) {
    && Matched(first, s.trace) && s.parent.port == CurrentParent(first, s.trace)
    && (s.waitingForFollowUp ==>
          var open := Open(s.trace);
          open.Some? && open.value.id == s.recvSyncId && (open.value.kept ==> open.value.source == s.parent.port))
  }

  lemma Extended(t: seq<Trace>, x: Trace)
    ensures (t + [x])[..|t + [x]| - 1] == t && (t + [x])[|t + [x]| - 1] == x
  {
  }

  lemma TraceOfSetParent(first: PortIdentity, s: State, parent: Parent, stepsRemoved: int)
    requires TraceOk(first, s)
    ensures TraceOk(first, SetParent(s, parent, stepsRemoved))
  {
    Extended(s.trace, ParentChanged(parent.port));
  }

  // ----- What most handlers do -----

  /** The messages of a master. */
  predicate OfMaster(k: Kind) { k in {Announcing, Syncing, FollowingUp, DelayResponse} }

  /** The messages the configuration has a use for: one delay mechanism, and FollowUps of a two-step clock. */
  predicate OfConfig(c: Config, k: Kind) {
    match k
    case FollowingUp => c.twoStep
    case DelayRequest => c.delayMechanism == E2E
    case DelayResponse => c.delayMechanism == E2E
    case PeerRequest => c.delayMechanism == P2P
    case PeerResponse => c.delayMechanism == P2P
    case PeerFollowUp => c.delayMechanism == P2P
    case _ => true
  }

  predicate MaySend(c: Config, s: State, k: Kind) { OfConfig(c, k) && (OfMaster(k) ==> s.portState == Master) }

  /** `s'` follows from `s` without touching the recommendation, the table, the parent or the decision event,
      in the same state or in FAULTY. */
  predicate Quiet(c: Config, s: State, s': State) {
    && s'.recommended == s.recommended && s'.ring == s.ring && s'.heard == s.heard && s'.inits == s.inits
    && s'.parent == s.parent && s'.stepsRemoved == s.stepsRemoved
    && (StateDecision in s'.events <==> StateDecision in s.events)
    && (s'.portState == s.portState || s'.portState == Faulty)
    && (TimersOk(c, s) ==> TimersOk(c, s'))
    && (forall k | k in s'.sent :: k in s.sent || MaySend(c, s, k))
  }

  /** The same for the trace. */
  predicate QuietTrace(first: PortIdentity, s: State, s': State) { TraceOk(first, s) ==> TraceOk(first, s') }

  predicate Calm(c: Config, first: PortIdentity, s: State, s': State) {
    Quiet(c, s, s') && QuietTrace(first, s, s')
  }

  lemma CalmTransitive(c: Config, first: PortIdentity, s: State, s': State, s'': State)
    requires Calm(c, first, s, s') && Calm(c, first, s', s'')
    ensures Calm(c, first, s, s'')
  {
    hide TimersOk, TraceOk;
  }

  lemma ToFaultyIsCalm(c: Config, first: PortIdentity, s: State)
    ensures Calm(c, first, s, ToState(c, s, Faulty)) && ToState(c, s, Faulty).portState == Faulty
    ensures ToState(c, s, Faulty).sent == s.sent && ToState(c, s, Faulty).events == s.events
  {
    if TimersOk(c, s) {
      ToStateTimers(c, s, Faulty);
    }
    ToStateForgets(c, s, Faulty);
    hide ToState, TimersOf;
  }

  lemma SendIsCalm(c: Config, first: PortIdentity, s: State, k: Kind, e: Env)
    requires MaySend(c, s, k)
    ensures Calm(c, first, s, Send(c, s, k, e))
    ensures k !in e.failing ==> Send(c, s, k, e) == s.(sent := s.sent + {k})
  {
    ToFaultyIsCalm(c, first, s.(sent := s.sent + {k}));
    hide ToState;
  }

  lemma IssueDelayReqIsCalm(c: Config, first: PortIdentity, s: State, e: Env)
    ensures c.delayMechanism == E2E ==> Calm(c, first, s, IssueDelayReq(c, s, e))
    ensures c.delayMechanism == P2P ==> Calm(c, first, s, IssuePDelayReq(c, s, e))
  {
    if c.delayMechanism == E2E {
      SendIsCalm(c, first, s, DelayRequest, e);
    } else if c.delayMechanism == P2P {
      SendIsCalm(c, first, s, PeerRequest, e);
    }
    hide Send;
  }

  lemma StartIsCalm(c: Config, first: PortIdentity, s: State, t: Timer)
    requires t in s.armed
    ensures Calm(c, first, s, Start(s, t))
  {
    assert s.armed + {t} == s.armed;
  }

  lemma DelayTimerIsCalm(c: Config, first: PortIdentity, s: State, e: Env)
    ensures Calm(c, first, s, IssueDelayReqTimerExpired(c, s, e))
  {
    hide Start, Calm, IssueDelayReq, IssuePDelayReq;
    Reflexive(c, first, s);
    if c.delayMechanism == E2E && Check(s, DelayReqInterval, e) {
      StartIsCalm(c, first, s, DelayReqInterval);
      IssueDelayReqIsCalm(c, first, Start(s, DelayReqInterval), e);
      CalmTransitive(c, first, s, Start(s, DelayReqInterval), IssueDelayReq(c, Start(s, DelayReqInterval), e));
    }
    if c.delayMechanism == P2P && Check(s, PDelayReqInterval, e) {
      StartIsCalm(c, first, s, PDelayReqInterval);
      IssueDelayReqIsCalm(c, first, Start(s, PDelayReqInterval), e);
      CalmTransitive(c, first, s, Start(s, PDelayReqInterval), IssuePDelayReq(c, Start(s, PDelayReqInterval), e));
    }
  }

  lemma Reflexive(c: Config, first: PortIdentity, s: State)
    ensures Calm(c, first, s, s)
  {
  }

  lemma IssueAnnounceIsCalm(c: Config, first: PortIdentity, s: State, e: Env)
    requires s.portState == Master
    ensures Calm(c, first, s, IssueAnnounce(c, s, e))
  {
    SendIsCalm(c, first, s, Announcing, e);
    hide Send;
  }

  lemma IssueSyncIsCalm(c: Config, first: PortIdentity, s: State, e: Env)
    requires s.portState == Master
    ensures Calm(c, first, s, IssueSync(c, s, e))
  {
    SendIsCalm(c, first, s, Syncing, e);
    if Syncing !in e.failing && c.twoStep {
      var s' := s.(sent := s.sent + {Syncing}, sentSync := Wrap16(s.sentSync + 1));
      SendIsCalm(c, first, s', FollowingUp, e);
      assert Calm(c, first, s, s');
      CalmTransitive(c, first, s, s', Send(c, s', FollowingUp, e));
    }
    hide Send;
  }

  lemma OffsetIsCalm(c: Config, first: PortIdentity, s: State, e: Env)
    ensures Calm(c, first, s, UpdateOffsetAndClock(s, e)) && UpdateOffsetAndClock(s, e).portState == s.portState
  {
  }

  lemma HandleSyncIsCalm(c: Config, first: PortIdentity, s: State, p: Reception, e: Env)
    requires p.Packet?
    ensures Calm(c, first, s, HandleSync(c, s, p, e))
  {
    var h := p.header;
    Reflexive(c, first, s);
    ToFaultyIsCalm(c, first, s);
    DelayTimerIsCalm(c, first, s, e);
    if Synchronizing(s.portState) && s.parent.port == h.source {
      StoreIsCalm(c, first, s, h);
      UseIsCalm(c, first, s, h, e);
    }
    hide Calm, ToState, IssueDelayReqTimerExpired, UpdateOffsetAndClock;
  }

  lemma StoreIsCalm(c: Config, first: PortIdentity, s: State, h: Header)
    requires s.parent.port == h.source
    ensures Calm(c, first, s, s.(waitingForFollowUp := true, recvSyncId := h.sequenceId,
                                 trace := s.trace + [SyncStored(h.source, h.sequenceId)]))
  {
    Extended(s.trace, SyncStored(h.source, h.sequenceId));
  }

  lemma UseIsCalm(c: Config, first: PortIdentity, s: State, h: Header, e: Env)
    requires s.parent.port == h.source
    ensures var s' := s.(waitingForFollowUp := false, trace := s.trace + [SyncUsed(h.source)]);
            Calm(c, first, s, IssueDelayReqTimerExpired(c, UpdateOffsetAndClock(s', e), e))
  {
    var s' := s.(waitingForFollowUp := false, trace := s.trace + [SyncUsed(h.source)]);
    Extended(s.trace, SyncUsed(h.source));
    assert Calm(c, first, s, s');
    OffsetThenTimer(c, first, s, s', e);
  }

  lemma OffsetThenTimer(c: Config, first: PortIdentity, s: State, s': State, e: Env)
    requires Calm(c, first, s, s')
    ensures Calm(c, first, s, IssueDelayReqTimerExpired(c, UpdateOffsetAndClock(s', e), e))
  {
    var s'' := UpdateOffsetAndClock(s', e);
    OffsetIsCalm(c, first, s', e);
    DelayTimerIsCalm(c, first, s'', e);
    CalmTransitive(c, first, s, s', s'');
    CalmTransitive(c, first, s, s'', IssueDelayReqTimerExpired(c, s'', e));
  }

  lemma HandleFollowUpIsCalm(c: Config, first: PortIdentity, s: State, p: Reception, e: Env)
    requires p.Packet?
    ensures Calm(c, first, s, HandleFollowUp(c, s, p, e))
  {
    var h := p.header;
    Reflexive(c, first, s);
    ToFaultyIsCalm(c, first, s);
    DelayTimerIsCalm(c, first, s, e);
    if AcceptsFollowUp(s, h) {
      var s' := s.(waitingForFollowUp := false, trace := s.trace + [FollowUpUsed(h.source, h.sequenceId)]);
      Extended(s.trace, FollowUpUsed(h.source, h.sequenceId));
      assert Calm(c, first, s, s');
      OffsetThenTimer(c, first, s, s', e);
    }
    hide Calm, ToState, IssueDelayReqTimerExpired, UpdateOffsetAndClock;
  }

  lemma HandlePeerIsCalm(c: Config, first: PortIdentity, s: State, p: Reception, e: Env)
    requires p.Packet?
    ensures Calm(c, first, s, HandlePDelayReq(c, s, p, e))
    ensures Calm(c, first, s, HandlePDelayResp(c, s, p)) && Calm(c, first, s, HandlePDelayRespFollowUp(c, s, p))
  {
    Reflexive(c, first, s);
    ToFaultyIsCalm(c, first, s);
    if c.delayMechanism == P2P {
      SendIsCalm(c, first, s, PeerResponse, e);
      var s' := Send(c, s, PeerResponse, e);
      SendIsCalm(c, first, s', PeerFollowUp, e);
      CalmTransitive(c, first, s, s', Send(c, s', PeerFollowUp, e));
    }
    assert forall w: bool :: Calm(c, first, s, s.(waitingForPeerFollowUp := w));
    assert forall w: bool :: Calm(c, first, s, AcceptDelay(s.(waitingForPeerFollowUp := w)));
    hide Calm, ToState, Send, AcceptDelay;
  }

  lemma HandleDelayIsCalm(c: Config, first: PortIdentity, s: State, p: Reception, e: Env)
    requires p.Packet?
    ensures Calm(c, first, s, HandleDelayReq(c, s, p, e)) && Calm(c, first, s, HandleDelayResp(c, s, p))
  {
    Reflexive(c, first, s);
    ToFaultyIsCalm(c, first, s);
    if s.portState == Master && c.delayMechanism == E2E {
      SendIsCalm(c, first, s, DelayResponse, e);
    }
    assert Calm(c, first, s, AcceptDelay(s));
    hide Calm, ToState, Send, AcceptDelay;
  }

  /** All of one reception but an announce that is acted on. */
  lemma HandleIsCalm(c: Config, first: PortIdentity, s: State, e: Env)
    requires FM.Valid(s.ring)
    requires !(e.reception.Packet? && e.reception.header.messageType == Codec.ANNOUNCE)
    ensures Calm(c, first, s, Handle(c, s, e))
  {
    Reflexive(c, first, s);
    ToFaultyIsCalm(c, first, s);
    if e.reception.Packet? {
      HandleSyncIsCalm(c, first, s, e.reception, e);
      HandleFollowUpIsCalm(c, first, s, e.reception, e);
      HandlePeerIsCalm(c, first, s, e.reception, e);
      HandleDelayIsCalm(c, first, s, e.reception, e);
    }
    hide Calm, ToState, HandleSync, HandleFollowUp, HandleDelayReq, HandleDelayResp, HandlePDelayReq, HandlePDelayResp,
         HandlePDelayRespFollowUp;
  }
}
