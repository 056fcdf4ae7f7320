/** The port state machine of protocol.c as a function of the state and of what the environment does. */
module Port {
  import opened Types
  import opened Words
  import opened Messages
  import opened BmcOrder
  import opened BmcDecision
  import FM = ForeignMasters
  import Codec

  datatype Timer =
    | PDelayReqInterval | DelayReqInterval | SyncInterval | AnnounceReceipt | AnnounceInterval | QualificationTimeout

  datatype Kind =
    | Announcing | Syncing | FollowingUp | DelayRequest | DelayResponse | PeerRequest | PeerResponse | PeerFollowUp

  const HEADER_LENGTH: nat := 34

  /** What start-up fixes, and which form of the two loops of bmc.c runs. */
  datatype Config = Config(local: DefaultDataSet, port: PortIdentity, delayMechanism: DelayMechanism, twoStep: bool,
                           version: int, domain: int, scan: ScanRule, matching: FM.MatchRule)

  /** The parent data set: the parent's port and what it says of the grandmaster. */
  datatype Parent = Parent(port: PortIdentity, grandmaster: ClockIdentity, quality: Quality, priority1: int,
                           priority2: int)

  /** An announce the port has acted on since its table was last emptied. */
  datatype Heard = Heard(header: Header, announce: Announce)

  /** What happened to Sync and FollowUp messages, and to the parent they must come from. */
  datatype Trace =
    | SyncStored(source: PortIdentity, id: int)
    | SyncUsed(source: PortIdentity)
    | FollowUpUsed(source: PortIdentity, id: int)
    | ParentChanged(port: PortIdentity)

  datatype State = State(
    portState: PortState, recommended: PortState, events: set<Event>, armed: set<Timer>,
    ring: FM.Ring, parent: Parent, stepsRemoved: int,
    waitingForFollowUp: bool, recvSyncId: int, waitingForPeerFollowUp: bool,
    sentSync: int, sentAnnounce: int, sentDelayReq: int, sentPDelayReq: int,
    // histories, for the statements about runs
    inits: nat, heard: set<Heard>, sent: set<Kind>, trace: seq<Trace>, accepted: nat)

  /** What arrives in one call: nothing, a failure, or a packet with its header and the body fields read. */
  datatype Reception =
    | Nothing
    | Failure
    | Packet(length: nat, header: Header, announce: Announce, requester: PortIdentity)

  /** How large the offset came out. */
  datatype OffsetClass = Calibrated | Between | Uncalibrating | Seconds

  /** What the environment does during one call of `doState`. */
  datatype Env = Env(networkUp: bool, expired: set<Timer>, reception: Reception, failing: set<Kind>,
                     unstamped: set<Kind>, offset: OffsetClass, clockReset: bool)

  // ----- Timers -----

  /** A stopped timer never reports that it has expired. */
  predicate Check(s: State, t: Timer, e: Env) { t in s.armed && t in e.expired }

  function Start(s: State, t: Timer): State { s.(armed := s.armed + {t}) }

  function Stop(s: State, ts: set<Timer>): State { s.(armed := s.armed - ts) }

  // ----- Data sets -----

  /** Forgets the pending two-step exchanges. */
  function InitClock(s: State): State { s.(waitingForFollowUp := false, waitingForPeerFollowUp := false) }

  function OwnParent(c: Config): Parent {
    Parent(PortIdentity(c.local.identity, 0), c.local.identity, c.local.quality, c.local.priority1, c.local.priority2)
  }

  function ParentFrom(h: Header, a: Announce): Parent {
    Parent(h.source, a.grandmasterIdentity, a.quality, a.priority1, a.priority2)
  }

  function SetParent(s: State, parent: Parent, stepsRemoved: int): State {
    s.(parent := parent, stepsRemoved := stepsRemoved,
       trace := if parent.port == s.parent.port then s.trace else s.trace + [ParentChanged(parent.port)])
  }

  /** The local clock becomes its own parent (table 13). */
  function M1(c: Config, s: State): (s': State)
    ensures s'.ring == s.ring
  {
    SetParent(s, OwnParent(c), 0)
  }

  /** The sender of an announce becomes the parent (table 16). */
  function S1(s: State, h: Header, a: Announce): (s': State)
    ensures s'.ring == s.ring
  {
    var s' := SetParent(s, ParentFrom(h, a), Wrap16(a.stepsRemoved + 1));
    if s.parent.port == h.source then s' else s'.(events := s'.events + {MasterClockChanged})
  }

  // ----- State changes -----

  predicate Synchronizing(p: PortState) { p == Uncalibrated || p == Slave }

  function Leave(c: Config, s: State, target: PortState): (s': State)
    ensures s'.ring == s.ring
  {
    match s.portState
    case Master => Stop(InitClock(s), {SyncInterval, AnnounceInterval, PDelayReqInterval})
    case Uncalibrated => LeaveSlave(c, s, target)
    case Slave => LeaveSlave(c, s, target)
    case Passive => Stop(InitClock(s), {PDelayReqInterval, AnnounceReceipt})
    case Listening => Stop(InitClock(s), {AnnounceReceipt})
    case PreMaster => Stop(InitClock(s), {QualificationTimeout})
    case _ => s
  }

  /** Nothing is cleared or stopped between UNCALIBRATED and SLAVE. */
  function LeaveSlave(c: Config, s: State, target: PortState): (s': State)
    ensures s'.ring == s.ring
  {
    if Synchronizing(target) then s
    else
      var s' := Stop(s, {AnnounceReceipt});
      match c.delayMechanism
      case E2E => InitClock(Stop(s', {DelayReqInterval}))
      case P2P => InitClock(Stop(s', {PDelayReqInterval}))
      case DelayDisabled => InitClock(s')
  }

  function StartPeerDelay(c: Config, s: State): State {
    if c.delayMechanism == P2P then Start(s, PDelayReqInterval) else s
  }

  /** Entering PRE_MASTER falls through to MASTER. */
  function Enter(c: Config, s: State, target: PortState): (s': State)
    ensures s'.ring == s.ring
  {
    match target
    case Initializing => s.(portState := Initializing, recommended := Initializing)
    case Faulty => s.(portState := Faulty)
    case Disabled => s.(portState := Disabled)
    case Listening => Start(s, AnnounceReceipt).(portState := Listening, recommended := Listening)
    case PreMaster => EnterMaster(c, s)
    case Master => EnterMaster(c, s)
    case Passive => StartPeerDelay(c, Start(s, AnnounceReceipt)).(portState := Passive)
    case Uncalibrated =>
      var s' := StartPeerDelay(c, Start(s, AnnounceReceipt));
      (if c.delayMechanism == E2E then Start(s', DelayReqInterval) else s').(portState := Uncalibrated)
    case Slave => s.(portState := Slave)
  }

  function EnterMaster(c: Config, s: State): State {
    StartPeerDelay(c, Start(Start(s, SyncInterval), AnnounceInterval)).(portState := Master)
  }

  function ToState(c: Config, s: State, target: PortState): (s': State)
    ensures s'.ring == s.ring
  {
    var left := Leave(c, s, target);
    Enter(c, left, target)
  }

  // ----- Sending -----

  /** A message goes out, or the port becomes faulty; either way the attempt is on record. */
  function Send(c: Config, s: State, k: Kind, e: Env): State {
    var s' := s.(sent := s.sent + {k});
    if k in e.failing then ToState(c, s', Faulty) else s'
  }

  function IssueAnnounce(c: Config, s: State, e: Env): State {
    var s' := Send(c, s, Announcing, e);
    if Announcing in e.failing then s' else s'.(sentAnnounce := Wrap16(s.sentAnnounce + 1))
  }

  function IssueSync(c: Config, s: State, e: Env): State {
    var s' := Send(c, s, Syncing, e);
    if Syncing in e.failing then s'
    else
      var s'' := s'.(sentSync := Wrap16(s.sentSync + 1));
      if Syncing !in e.unstamped && c.twoStep then Send(c, s'', FollowingUp, e) else s''
  }

  function IssueDelayReq(c: Config, s: State, e: Env): State {
    var s' := Send(c, s, DelayRequest, e);
    if DelayRequest in e.failing then s' else s'.(sentDelayReq := Wrap16(s.sentDelayReq + 1))
  }

  function IssuePDelayReq(c: Config, s: State, e: Env): State {
    var s' := Send(c, s, PeerRequest, e);
    if PeerRequest in e.failing then s' else s'.(sentPDelayReq := Wrap16(s.sentPDelayReq + 1))
  }

  function IssueDelayReqTimerExpired(c: Config, s: State, e: Env): State {
    match c.delayMechanism
    case E2E =>
      if s.portState == Slave && Check(s, DelayReqInterval, e)
      then IssueDelayReq(c, Start(s, DelayReqInterval), e) else s
    case P2P =>
      if Check(s, PDelayReqInterval, e) then IssuePDelayReq(c, Start(s, PDelayReqInterval), e) else s
    case DelayDisabled => s
  }

  // ----- Handling messages -----

  predicate FromSelf(c: Config, h: Header) { h.source == c.port }

  predicate TwoStepFlag(h: Header) { h.flag0 / 2 % 2 == 1 }

  function AddForeign(c: Config, s: State, h: Header, a: Announce): State
    requires FM.Valid(s.ring)
  {
    s.(ring := FM.Added(s.ring, h, a, c.matching), heard := s.heard + {Heard(h, a)})
  }

  function HandleAnnounce(c: Config, s: State, p: Reception): State
    requires p.Packet? && FM.Valid(s.ring)
  {
    var h, a := p.header, p.announce;
    if p.length < Codec.ANNOUNCE_LENGTH then ToState(c, s, Faulty)
    else if FromSelf(c, h) then s
    else
      match s.portState
      case Initializing => s
      case Faulty => s
      case Disabled => s
      case Uncalibrated => HandleAnnounceSynchronizing(c, s, h, a)
      case Slave => HandleAnnounceSynchronizing(c, s, h, a)
      case Passive => AddForeign(c, RequestDecision(Start(s, AnnounceReceipt)), h, a)
      case _ => AddForeign(c, RequestDecision(s), h, a)
  }

  /** Asks for a state decision in the next call. */
  function RequestDecision(s: State): State { s.(events := s.events + {StateDecision}) }

  function ParentAnnounces(s: State, h: Header, a: Announce): State {
    var s' := S1(s, h, a);
    Start(s'.(heard := s'.heard + {Heard(h, a)}), AnnounceReceipt)
  }

  function HandleAnnounceSynchronizing(c: Config, s: State, h: Header, a: Announce): State
    requires FM.Valid(s.ring)
  {
    if s.parent.port == h.source then ParentAnnounces(RequestDecision(s), h, a)
    else AddForeign(c, RequestDecision(s), h, a)
  }

  /** What an offset does to the port: events, and a reset of the clock when it is out of reach. */
  function UpdateOffsetAndClock(s: State, e: Env): State {
    var found :=
      match e.offset
      case Calibrated => if s.portState == Uncalibrated then {MasterClockSelected} else {}
      case Between => {}
      case Uncalibrating => if s.portState == Slave then {SynchronizationFault} else {}
      case Seconds => if s.portState == Slave then {SynchronizationFault} else {};
    var s' := s.(events := s.events + found);
    if e.offset == Seconds && e.clockReset then InitClock(s') else s'
  }

  /** A two-step Sync waits for its FollowUp. */
  function StoreSync(s: State, h: Header): State {
    s.(waitingForFollowUp := true, recvSyncId := h.sequenceId, trace := s.trace + [SyncStored(h.source, h.sequenceId)])
  }

  function UseSync(c: Config, s: State, h: Header, e: Env): State {
    var s' := s.(waitingForFollowUp := false, trace := s.trace + [SyncUsed(h.source)]);
    IssueDelayReqTimerExpired(c, UpdateOffsetAndClock(s', e), e)
  }

  function HandleSync(c: Config, s: State, p: Reception, e: Env): State
    requires p.Packet?
  {
    var h := p.header;
    if p.length < Codec.SYNC_LENGTH then ToState(c, s, Faulty)
    else if Synchronizing(s.portState) then
      if FromSelf(c, h) || s.parent.port != h.source then s
      else if TwoStepFlag(h) then StoreSync(s, h)
      else UseSync(c, s, h, e)
    else if s.portState == Passive then IssueDelayReqTimerExpired(c, s, e)
    else s
  }

  /** The FollowUp the port waits for: from the parent, with the number of the last two-step Sync. */
  predicate AcceptsFollowUp(s: State, h: Header) {
    s.waitingForFollowUp && s.parent.port == h.source && s.recvSyncId == h.sequenceId
  }

  function UseFollowUp(c: Config, s: State, h: Header, e: Env): State {
    var s' := s.(waitingForFollowUp := false, trace := s.trace + [FollowUpUsed(h.source, h.sequenceId)]);
    IssueDelayReqTimerExpired(c, UpdateOffsetAndClock(s', e), e)
  }

  function HandleFollowUp(c: Config, s: State, p: Reception, e: Env): State
    requires p.Packet?
  {
    var h := p.header;
    if p.length < Codec.FOLLOW_UP_LENGTH then ToState(c, s, Faulty)
    else if FromSelf(c, h) then s
    else if Synchronizing(s.portState) then
      if AcceptsFollowUp(s, h) then UseFollowUp(c, s, h, e) else s
    else if s.portState == Passive then IssueDelayReqTimerExpired(c, s, e)
    else s
  }

  function HandleDelayReq(c: Config, s: State, p: Reception, e: Env): State
    requires p.Packet?
  {
    if c.delayMechanism != E2E then s
    else if p.length < Codec.DELAY_REQ_LENGTH then ToState(c, s, Faulty)
    else if s.portState == Master then Send(c, s, DelayResponse, e)
    else s
  }

  /** The response to the last request: the comparison is of an int with a 16-bit number, so that a counter
      that has just wrapped to -32768 matches nothing. */
  predicate AcceptsDelayResp(c: Config, s: State, h: Header, requester: PortIdentity) {
    s.sentDelayReq - 1 == h.sequenceId && requester == c.port && s.parent.port == h.source
  }

  /** The response goes to the servo; here it is counted. */
  function AcceptDelay(s: State): State { s.(accepted := s.accepted + 1) }

  function HandleDelayResp(c: Config, s: State, p: Reception): State
    requires p.Packet?
  {
    if c.delayMechanism != E2E then s
    else if p.length < Codec.DELAY_RESP_LENGTH then ToState(c, s, Faulty)
    else if Synchronizing(s.portState) && AcceptsDelayResp(c, s, p.header, p.requester) then AcceptDelay(s)
    else s
  }

  function HandlePDelayReq(c: Config, s: State, p: Reception, e: Env): State
    requires p.Packet?
  {
    if c.delayMechanism != P2P then s
    else if p.length < Codec.PDELAY_REQ_LENGTH then ToState(c, s, Faulty)
    else if s.portState !in {Passive, Slave, Master} || FromSelf(c, p.header) then s
    else
      var s' := Send(c, s, PeerResponse, e);
      if PeerResponse !in e.unstamped && TwoStepFlag(p.header) then Send(c, s', PeerFollowUp, e) else s'
  }

  function HandlePDelayResp(c: Config, s: State, p: Reception): State
    requires p.Packet?
  {
    if c.delayMechanism != P2P then s
    else if p.length < Codec.PDELAY_RESP_LENGTH then ToState(c, s, Faulty)
    else if s.portState !in {Master, Slave} || FromSelf(c, p.header) then s
    else if s.sentPDelayReq - 1 == p.header.sequenceId && p.requester == c.port then
      if TwoStepFlag(p.header) then s.(waitingForPeerFollowUp := true)
      else AcceptDelay(s.(waitingForPeerFollowUp := false))
    else s
  }

  function HandlePDelayRespFollowUp(c: Config, s: State, p: Reception): State
    requires p.Packet?
  {
    if c.delayMechanism != P2P then s
    else if p.length < Codec.PDELAY_RESP_FOLLOW_UP_LENGTH then ToState(c, s, Faulty)
    else if s.portState in {Master, Slave} && s.waitingForPeerFollowUp && p.header.sequenceId == s.sentPDelayReq - 1
    then
      AcceptDelay(s.(waitingForPeerFollowUp := false))
    else s
  }

  /** Receives one packet and dispatches it. */
  function Handle(c: Config, s: State, e: Env): State
    requires FM.Valid(s.ring)
  {
    match e.reception
    case Nothing => s
    case Failure => ToState(c, s, Faulty)
    case Packet(length, h, a, requester) =>
      var p := e.reception;
      if length < HEADER_LENGTH then ToState(c, s, Faulty)
      else if h.versionPTP != c.version || h.domainNumber != c.domain then s
      else if h.messageType == Codec.ANNOUNCE then HandleAnnounce(c, s, p)
      else if h.messageType == Codec.SYNC then HandleSync(c, s, p, e)
      else if h.messageType == Codec.FOLLOW_UP then HandleFollowUp(c, s, p, e)
      else if h.messageType == Codec.DELAY_REQ then HandleDelayReq(c, s, p, e)
      else if h.messageType == Codec.PDELAY_REQ then HandlePDelayReq(c, s, p, e)
      else if h.messageType == Codec.DELAY_RESP then HandleDelayResp(c, s, p)
      else if h.messageType == Codec.PDELAY_RESP then HandlePDelayResp(c, s, p)
      else if h.messageType == Codec.PDELAY_RESP_FOLLOW_UP then HandlePDelayRespFollowUp(c, s, p)
      else s
  }

  // ----- One call of doState -----

  predicate CannotBeMaster(c: Config) { c.local.slaveOnly || c.local.quality.clockClass == 255 }

  function Candidates(r: FM.Ring): (t: seq<Candidate>)
    requires FM.Valid(r)
    ensures |t| == r.count
  {
    seq(r.count, k requires 0 <= k < r.count && FM.Valid(r) => CandidateOf(r.slots[k].header, r.slots[k].announce))
  }

  /** The record the scan settles on; slot 0 when the table is empty. */
  function BestRecord(c: Config, r: FM.Ring): (best: nat)
    requires FM.Valid(r)
    ensures best < |r.slots| && (r.count > 0 ==> best < r.count)
  {
    if r.count == 0 then 0 else Scan(Candidates(r), c.local.identity, c.scan)
  }

  function RunBmc(c: Config, s: State): (s': State)
    requires FM.Valid(s.ring)
    ensures FM.Valid(s'.ring)
  {
    var best := BestRecord(c, s.ring);
    var s' := s.(ring := s.ring.(best := best));
    if s.ring.count == 0 && s.portState == Listening then s'.(recommended := Listening)
    else DecideOn(c, s', s.ring.slots[best])
  }

  /** Figure 26, with what each outcome does to the data sets. */
  function DecideOn(c: Config, s: State, record: FM.Record): (s': State)
    ensures s'.ring == s.ring
  {
    match BmcDecision.Decide(c.local, CandidateOf(record.header, record.announce))
    case Master => M1(c, s).(recommended := Master)
    case Passive => s.(recommended := Passive)
    case _ => S1(s, record.header, record.announce).(recommended := Slave)
  }

  predicate Active(p: PortState) { p in {Listening, Uncalibrated, Slave, PreMaster, Master, Passive} }

  /** The state decision event runs the best master clock algorithm; a clock that cannot be master listens. */
  function StateDecisionEvent(c: Config, s: State): (s': State)
    requires FM.Valid(s.ring)
    ensures FM.Valid(s'.ring)
  {
    if Active(s.portState) && StateDecision in s.events then
      var s' := RunBmc(c, s.(events := s.events - {StateDecision}));
      if s'.recommended in {Master, Passive} && CannotBeMaster(c) then s'.(recommended := Listening) else s'
    else s
  }

  /** Moves the port to the recommended state. */
  function FollowRecommendation(c: Config, s: State, e: Env): (s': State)
    ensures s'.ring == s.ring
  {
    match s.recommended
    case Master =>
      if s.portState == PreMaster then (if Check(s, QualificationTimeout, e) then ToState(c, s, Master) else s)
      else if s.portState == Master then s
      else ToState(c, s, PreMaster)
    case Passive => if s.portState == Passive then s else ToState(c, s, Passive)
    case Slave =>
      if s.portState == Uncalibrated then
        var s' := if MasterClockSelected in s.events
                  then ToState(c, s.(events := s.events - {MasterClockSelected}), Slave) else s;
        s'.(events := s'.events - {MasterClockChanged})
      else if s.portState == Slave then
        var s' := if SynchronizationFault in s.events
                  then ToState(c, s.(events := s.events - {SynchronizationFault}), Uncalibrated) else s;
        if MasterClockChanged in s'.events
        then ToState(c, s'.(events := s'.events - {MasterClockChanged}), Uncalibrated) else s'
      else ToState(c, s, Uncalibrated)
    case Listening => if s.portState == Listening then s else ToState(c, s, Listening)
    case _ => s
  }

  /** Services from scratch: the table is emptied, the timers stopped, the clock its own parent. */
  function DoInit(c: Config, s: State): State {
    M1(c, InitClock(s.(ring := s.ring.(count := 0), armed := {}, inits := s.inits + 1, heard := {})))
  }

  /** No announce in time: the table is emptied and the clock becomes master, or listens if it cannot. */
  function AnnounceTimeout(c: Config, s: State): State {
    var s' := s.(ring := s.ring.(count := 0, i := 0), heard := {});
    if !CannotBeMaster(c) then ToState(c, M1(c, s').(recommended := Master), Master)
    else if s.portState != Listening then ToState(c, s', Listening)
    else s'
  }

  function ActAsMaster(c: Config, s: State, e: Env): State
    requires FM.Valid(s.ring)
  {
    var s1 := if Check(s, SyncInterval, e) then IssueSync(c, s, e) else s;
    var s2 := if Check(s1, AnnounceInterval, e) then IssueAnnounce(c, s1, e) else s1;
    IssueDelayReqTimerExpired(c, Handle(c, s2, e), e)
  }

  /** The actions of the state the port is now in. */
  function Act(c: Config, s: State, e: Env): State
    requires FM.Valid(s.ring)
  {
    match s.portState
    case Initializing => if e.networkUp then ToState(c, DoInit(c, s), Listening) else ToState(c, s, Faulty)
    case Faulty => ToState(c, s, Initializing)
    case Disabled => Handle(c, s, e)
    case PreMaster => s
    case Master => ActAsMaster(c, s, e)
    case _ => if Check(s, AnnounceReceipt, e) then AnnounceTimeout(c, s) else Handle(c, s, e)
  }

  /** One call. */
  function DoState(c: Config, s: State, e: Env): State
    requires FM.Valid(s.ring)
  {
    var s' := FollowRecommendation(c, StateDecisionEvent(c, s), e);
    Act(c, s', e)
  }
}
