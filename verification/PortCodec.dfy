/** The port and the wire together: what one clock packs and another unpacks and acts on. */
module PortCodec {
  import opened Types
  import opened Words
  import opened Messages
  import opened Octets
  import opened Codec
  import CodecRuns
  import BmcOrder
  import BmcDecision
  import FM = ForeignMasters
  import Arith
  import opened Port
  import PortInvariants
  import PortRuns

  /** The port identity is that of the clock, and the data sets fit the octets they travel in. */
  predicate Configured(c: Config) {
    && c.port.clockIdentity == c.local.identity && FitsS16(c.port.portNumber)
    && 0 <= c.local.priority1 < 256 && 0 <= c.local.priority2 < 256 && FitsS16(c.local.quality.offsetScaledLogVariance)
    && 0 <= c.local.quality.clockClass < 256 && 0 <= c.local.quality.clockAccuracy < 256
  }

  // ----- Announces -----

  /** What `msgPackAnnounce` reads: the quality is always the local clock's own. */
  function AnnounceBody(c: Config, s: State, utcOffset: int, timeSource: int): Announce {
    Announce(Arith.Timestamp(0, 0, 0), utcOffset, s.parent.priority1, c.local.quality, s.parent.priority2,
             s.parent.grandmaster, s.stepsRemoved, timeSource)
  }

  /** In every run, an announce sent in MASTER unpacks to the data set the sender compares others with. */
  lemma MasterAnnouncesItself(c: Config, slots: seq<FM.Record>, envs: seq<Env>, e: Env, start: Buffer, station: Station,
                              ps: seq<Packet>, id: int, log: int, utcOffset: int, timeSource: int)
    requires slots != [] && Configured(c) && station.port == c.port
    requires (forall i | 0 <= i < |ps| :: CodecRuns.ValidPacket(ps[i])) && FitsS16(utcOffset) && 0 <= timeSource < 256
    ensures var s := FollowRecommendation(c, StateDecisionEvent(c, PortRuns.Run(c, slots, envs)), e);
            var p := AnnouncePacket(id, log, AnnounceBody(c, s, utcOffset, timeSource));
            var b := CodecRuns.Run(start, station, ps + [p]);
            s.portState == Master ==>
              BmcOrder.CandidateOf(UnpackHeader(b), UnpackAnnounce(b)) == BmcDecision.D0(c.local)
  {
    var s := FollowRecommendation(c, StateDecisionEvent(c, PortRuns.Run(c, slots, envs)), e);
    if s.portState != Master {
      return;
    }
    MasterIsOwnParent(c, PortRuns.Run(c, slots, envs), e);
    hide PortRuns.Run, StateDecisionEvent, FollowRecommendation;
    var a := AnnounceBody(c, s, utcOffset, timeSource);
    assert CodecRuns.ValidPacket(AnnouncePacket(id, log, a));
    CodecRuns.ReceiverSeesLastMessage(start, station, ps, AnnouncePacket(id, log, a));
    hide CodecRuns.Run, UnpackHeader, UnpackAnnounce, FromOctet;
  }

  lemma MasterIsOwnParent(c: Config, s: State, e: Env)
    requires PortRuns.Inv(c, s) && FollowRecommendation(c, StateDecisionEvent(c, s), e).portState == Master
    ensures var s' := FollowRecommendation(c, StateDecisionEvent(c, s), e);
            s'.parent == OwnParent(c) && s'.stepsRemoved == 0
  {
    PortRuns.DecisionKeeps(c, s);
    PortRuns.FollowKeeps(c, StateDecisionEvent(c, s), e);
    hide StateDecisionEvent, FollowRecommendation, PortRuns.TableOk, PortRuns.PendingOk, PortInvariants.TimersOk,
         PortInvariants.TraceOk, PortRuns.SentOk;
  }

  // ----- Delay requests -----

  /** A slave with a request on its way: it and its master are on the same network and agree on the mechanism. */
  predicate Exchanging(c: Config, s: State, slave: Station, master: Station, e: Env) {
    && c.delayMechanism == E2E && Synchronizing(s.portState) && DelayRequest !in e.failing
    && FitsS16(s.sentDelayReq) && FitsS16(c.port.portNumber) && FitsS16(master.port.portNumber)
    && slave.port == c.port && s.parent.port == master.port
  }

  /** The response to the request a slave has just sent is accepted, if its parent sent it, for every value of
      the counter but the one it wraps to. */
  lemma DelayRespAcceptedExactlyWhen(c: Config, s: State, startS: Buffer, slave: Station, ps: seq<Packet>,
                                     t: Arith.Timestamp, startM: Buffer, master: Station, qs: seq<Packet>, log: int,
                                     u: Arith.Timestamp, e: Env)
    requires Exchanging(c, s, slave, master, e) && Arith.ValidTimestamp(t) && Arith.ValidTimestamp(u)
    requires (forall i | 0 <= i < |ps| :: CodecRuns.ValidPacket(ps[i]))
             && (forall i | 0 <= i < |qs| :: CodecRuns.ValidPacket(qs[i]))
    ensures var request := UnpackHeader(CodecRuns.Run(startS, slave, ps + [DelayReqPacket(s.sentDelayReq, t)]));
            var response := CodecRuns.Run(startM, master, qs + [DelayRespPacket(request, log, u)]);
            var s' := IssueDelayReq(c, s, e);
            HandleDelayResp(c, s', Received(response, DELAY_RESP_LENGTH)) ==
            if s'.sentDelayReq != -0x8000 then s'.(accepted := s'.accepted + 1) else s'
  {
    hide CodecRuns.Run, CodecRuns.ValidPacket, UnpackHeader, UnpackRequester, UnpackAnnounce, IssueDelayReq, ToState;
    ResponseAnswersRequest(s.sentDelayReq, startS, slave, ps, t, startM, master, qs, log, u);
    SentRequest(c, s, e);
  }

  /** A packet of `length` octets as the port receives it. */
  function Received(b: Buffer, length: nat): Reception {
    Packet(length, UnpackHeader(b), UnpackAnnounce(b), UnpackRequester(b))
  }

  lemma SentRequest(c: Config, s: State, e: Env)
    requires DelayRequest !in e.failing
    ensures var s' := IssueDelayReq(c, s, e);
            s'.sentDelayReq == Wrap16(s.sentDelayReq + 1) && s'.parent == s.parent && s'.portState == s.portState
  {
    hide ToState;
  }

  /** A response shows the number and the sender of its request, and comes from the master. */
  lemma ResponseAnswersRequest(id: int, startS: Buffer, slave: Station, ps: seq<Packet>, t: Arith.Timestamp,
                               startM: Buffer, master: Station, qs: seq<Packet>, log: int, u: Arith.Timestamp)
    requires FitsS16(id) && FitsS16(slave.port.portNumber) && FitsS16(master.port.portNumber)
    requires Arith.ValidTimestamp(t) && Arith.ValidTimestamp(u)
    requires (forall i | 0 <= i < |ps| :: CodecRuns.ValidPacket(ps[i]))
             && (forall i | 0 <= i < |qs| :: CodecRuns.ValidPacket(qs[i]))
    ensures var request := UnpackHeader(CodecRuns.Run(startS, slave, ps + [DelayReqPacket(id, t)]));
            var response := CodecRuns.Run(startM, master, qs + [DelayRespPacket(request, log, u)]);
            && UnpackHeader(response).sequenceId == id && UnpackHeader(response).source == master.port
            && UnpackRequester(response) == slave.port
  {
    hide CodecRuns.Run, UnpackHeader, UnpackRequester, UnpackTimestamp, FromOctet;
    var p := DelayReqPacket(id, t);
    CodecRuns.ReceiverSeesLastMessage(startS, slave, ps, p);
    var request := UnpackHeader(CodecRuns.Run(startS, slave, ps + [p]));
    var q := DelayRespPacket(request, log, u);
    assert CodecRuns.ValidPacket(q);
    CodecRuns.ReceiverSeesLastMessage(startM, master, qs, q);
  }

  /** The response of any station to the request of any station is accepted by a port exactly when it synchronizes
      with the first, is the second, and has not sent a request since: those to others never are. */
  lemma ResponseAcceptedExactlyWhen(c: Config, s: State, id: int, startS: Buffer, slave: Station, ps: seq<Packet>,
                                    t: Arith.Timestamp, startM: Buffer, master: Station, qs: seq<Packet>, log: int,
                                    u: Arith.Timestamp)
    requires c.delayMechanism == E2E && FitsS16(id) && FitsS16(slave.port.portNumber) && FitsS16(master.port.portNumber)
    requires Arith.ValidTimestamp(t) && Arith.ValidTimestamp(u)
    requires (forall i | 0 <= i < |ps| :: CodecRuns.ValidPacket(ps[i]))
             && (forall i | 0 <= i < |qs| :: CodecRuns.ValidPacket(qs[i]))
    ensures var request := UnpackHeader(CodecRuns.Run(startS, slave, ps + [DelayReqPacket(id, t)]));
            var response := CodecRuns.Run(startM, master, qs + [DelayRespPacket(request, log, u)]);
            HandleDelayResp(c, s, Received(response, DELAY_RESP_LENGTH)) ==
            if Synchronizing(s.portState) && s.sentDelayReq == id + 1 && slave.port == c.port
               && master.port == s.parent.port
            then s.(accepted := s.accepted + 1) else s
  {
    hide CodecRuns.Run, CodecRuns.ValidPacket, UnpackHeader, UnpackRequester, UnpackAnnounce, ToState;
    ResponseAnswersRequest(id, startS, slave, ps, t, startM, master, qs, log, u);
  }

  // ----- Peer delay requests -----

  predicate PeerExchanging(c: Config, s: State, requester: Station, responder: Station, e: Env) {
    && c.delayMechanism == P2P && s.portState in {Master, Slave} && PeerRequest !in e.failing
    && FitsS16(s.sentPDelayReq) && FitsS16(c.port.portNumber) && FitsS16(responder.port.portNumber)
    && requester.port == c.port && responder.port != c.port && responder.twoStep
  }

  /** The same for the two messages with which a two-step neighbour answers a peer request, whatever it sends
      in between: together they are accepted once, unless the counter has just wrapped. */
  lemma PeerRespAcceptedExactlyWhen(c: Config, s: State, startS: Buffer, requester: Station, ps: seq<Packet>,
                                    t: Arith.Timestamp, startM: Buffer, responder: Station, qs: seq<Packet>,
                                    u: Arith.Timestamp, rs: seq<Packet>, v: Arith.Timestamp, e: Env)
    requires PeerExchanging(c, s, requester, responder, e)
    requires Arith.ValidTimestamp(t) && Arith.ValidTimestamp(u) && Arith.ValidTimestamp(v)
    requires (forall i | 0 <= i < |ps| :: CodecRuns.ValidPacket(ps[i]))
             && (forall i | 0 <= i < |qs| :: CodecRuns.ValidPacket(qs[i]))
    requires forall i | 0 <= i < |rs| :: CodecRuns.ValidPacket(rs[i])
    ensures var request := UnpackHeader(CodecRuns.Run(startS, requester, ps + [PDelayReqPacket(s.sentPDelayReq, t)]));
            var response := CodecRuns.Run(startM, responder, qs + [PDelayRespPacket(request, u)]);
            var followUp := CodecRuns.Run(startM, responder, rs + [PDelayRespFollowUpPacket(request, v)]);
            var s' := IssuePDelayReq(c, s, e);
            var answered := HandlePDelayResp(c, s', Received(response, PDELAY_RESP_LENGTH));
            HandlePDelayRespFollowUp(c, answered, Received(followUp, PDELAY_RESP_FOLLOW_UP_LENGTH)) ==
            if s'.sentPDelayReq != -0x8000 then s'.(waitingForPeerFollowUp := false, accepted := s'.accepted + 1)
            else s'
  {
    hide CodecRuns.Run, CodecRuns.ValidPacket, UnpackHeader, UnpackRequester, UnpackAnnounce, IssuePDelayReq, ToState;
    PeerAnswers(s.sentPDelayReq, startS, requester, ps, t, startM, responder, qs, u, rs, v);
    SentPeerRequest(c, s, e);
  }

  lemma SentPeerRequest(c: Config, s: State, e: Env)
    requires PeerRequest !in e.failing
    ensures var s' := IssuePDelayReq(c, s, e);
            s'.sentPDelayReq == Wrap16(s.sentPDelayReq + 1) && s'.portState == s.portState
  {
    hide ToState;
  }

  lemma PeerAnswers(id: int, startS: Buffer, requester: Station, ps: seq<Packet>, t: Arith.Timestamp,
                    startM: Buffer, responder: Station, qs: seq<Packet>, u: Arith.Timestamp, rs: seq<Packet>,
                    v: Arith.Timestamp)
    requires FitsS16(id) && FitsS16(requester.port.portNumber) && FitsS16(responder.port.portNumber)
             && responder.twoStep
    requires Arith.ValidTimestamp(t) && Arith.ValidTimestamp(u) && Arith.ValidTimestamp(v)
    requires (forall i | 0 <= i < |ps| :: CodecRuns.ValidPacket(ps[i]))
             && (forall i | 0 <= i < |qs| :: CodecRuns.ValidPacket(qs[i]))
    requires forall i | 0 <= i < |rs| :: CodecRuns.ValidPacket(rs[i])
    ensures var request := UnpackHeader(CodecRuns.Run(startS, requester, ps + [PDelayReqPacket(id, t)]));
            var response := CodecRuns.Run(startM, responder, qs + [PDelayRespPacket(request, u)]);
            var followUp := CodecRuns.Run(startM, responder, rs + [PDelayRespFollowUpPacket(request, v)]);
            && UnpackHeader(response).sequenceId == UnpackHeader(followUp).sequenceId == id
            && UnpackRequester(response) == requester.port && UnpackHeader(response).source == responder.port
            && TwoStepFlag(UnpackHeader(response))
  {
    hide CodecRuns.Run, UnpackHeader, UnpackRequester, UnpackTimestamp, FromOctet;
    var p := PDelayReqPacket(id, t);
    CodecRuns.ReceiverSeesLastMessage(startS, requester, ps, p);
    var request := UnpackHeader(CodecRuns.Run(startS, requester, ps + [p]));
    var q, r := PDelayRespPacket(request, u), PDelayRespFollowUpPacket(request, v);
    assert CodecRuns.ValidPacket(q) && CodecRuns.ValidPacket(r);
    CodecRuns.ReceiverSeesLastMessage(startM, responder, qs, q);
    CodecRuns.ReceiverSeesLastMessage(startM, responder, rs, r);
  }

  /** Of the answers of a two-step station to the peer request of any station, a port takes the first exactly when it
      has sent the request itself, but the second from and to whomever, as long as it waits for one of that number. */
  lemma PeerAnswersAcceptedExactlyWhen(c: Config, s: State, id: int, startS: Buffer, requester: Station,
                                       ps: seq<Packet>, t: Arith.Timestamp, startM: Buffer, responder: Station,
                                       qs: seq<Packet>, u: Arith.Timestamp, rs: seq<Packet>, v: Arith.Timestamp)
    requires c.delayMechanism == P2P && s.portState in {Master, Slave} && responder.twoStep && FitsS16(id)
    requires FitsS16(requester.port.portNumber) && FitsS16(responder.port.portNumber)
    requires Arith.ValidTimestamp(t) && Arith.ValidTimestamp(u) && Arith.ValidTimestamp(v)
    requires (forall i | 0 <= i < |ps| :: CodecRuns.ValidPacket(ps[i]))
             && (forall i | 0 <= i < |qs| :: CodecRuns.ValidPacket(qs[i]))
    requires forall i | 0 <= i < |rs| :: CodecRuns.ValidPacket(rs[i])
    ensures var request := UnpackHeader(CodecRuns.Run(startS, requester, ps + [PDelayReqPacket(id, t)]));
            var response := CodecRuns.Run(startM, responder, qs + [PDelayRespPacket(request, u)]);
            var followUp := CodecRuns.Run(startM, responder, rs + [PDelayRespFollowUpPacket(request, v)]);
            && HandlePDelayResp(c, s, Received(response, PDELAY_RESP_LENGTH)) ==
               (if s.sentPDelayReq == id + 1 && requester.port == c.port && responder.port != c.port
                then s.(waitingForPeerFollowUp := true) else s)
            && HandlePDelayRespFollowUp(c, s, Received(followUp, PDELAY_RESP_FOLLOW_UP_LENGTH)) ==
               (if s.sentPDelayReq == id + 1 && s.waitingForPeerFollowUp
                then s.(waitingForPeerFollowUp := false, accepted := s.accepted + 1) else s)
  {
    hide CodecRuns.Run, CodecRuns.ValidPacket, UnpackHeader, UnpackRequester, UnpackAnnounce, ToState;
    PeerAnswers(id, startS, requester, ps, t, startM, responder, qs, u, rs, v);
  }
}
