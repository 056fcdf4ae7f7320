/** A run in which the FollowUp of one master completes the Sync of another. */
module MixedPair {
  import opened Types
  import opened Words
  import opened Messages
  import opened BmcOrder
  import opened BmcDecision
  import FM = ForeignMasters
  import Codec
  import opened Port
  import opened PortInvariants
  import PortRuns

  /** A call in which no timer expires, nothing fails and no offset is large; the network is up. */
  function Receiving(r: Reception): Env { Env(true, {}, r, {}, {}, Between, false) }

  function AnnouncePacket(h: Header, a: Announce): Reception {
    Packet(64, h.(messageType := Codec.ANNOUNCE), a, h.source)
  }

  function SyncPacket(h: Header, a: Announce, id: int): Reception {
    Packet(44, h.(messageType := Codec.SYNC, sequenceId := id, flag0 := Codec.TWO_STEP), a, h.source)
  }

  function FollowUpPacket(h: Header, a: Announce, id: int): Reception {
    Packet(44, h.(messageType := Codec.FOLLOW_UP, sequenceId := id), a, h.source)
  }

  /** Start up; an announce of A; the decision for A and a Sync of A; an announce of B; the decision for B and a
      FollowUp of B with the number of the Sync. */
  function Calls(hA: Header, aA: Announce, hB: Header, aB: Announce, id: int): seq<Env> {
    [Receiving(Nothing), Receiving(AnnouncePacket(hA, aA)), Receiving(SyncPacket(hA, aA, id)),
     Receiving(AnnouncePacket(hB, aB)), Receiving(FollowUpPacket(hB, aB, id))]
  }

  predicate Heeded(c: Config, h: Header) {
    h.versionPTP == c.version && h.domainNumber == c.domain && h.source != c.port
  }

  /** The state between calls, as far as the next call depends on it. */
  predicate At(s: State, portState: PortState, recommended: PortState, pending: bool) {
    && s.portState == portState && s.recommended == recommended && (StateDecision in s.events <==> pending)
    && MasterClockSelected !in s.events && SynchronizationFault !in s.events
  }

  predicate Holds(r: FM.Ring, h: Header, a: Announce, k: nat) {
    && k < |r.slots| && r.slots[k].identity == h.source
    && CandidateOf(r.slots[k].header, r.slots[k].announce) == CandidateOf(h, a)
    && r.slots[k].header.source == h.source
  }

  lemma FirstCall(c: Config, s: State, e: Env)
    requires FM.Valid(s.ring) && At(s, Initializing, Initializing, false) && e == Receiving(Nothing)
    requires s.ring.count == 0 && s.ring.i == 0 && s.ring.best == 0
    ensures var s' := DoState(c, s, e);
            At(s', Listening, Listening, false) && s'.ring == s.ring
  {
  }

  lemma SecondCall(c: Config, s: State, h: Header, a: Announce, e: Env)
    requires FM.Valid(s.ring) && At(s, Listening, Listening, false) && Heeded(c, h)
    requires s.ring.count == 0 && s.ring.best == 0 && e == Receiving(AnnouncePacket(h, a))
    ensures var s' := DoState(c, s, e);
            && At(s', Listening, Listening, true) && FM.Valid(s'.ring)
            && s'.ring.count == 1 && s'.ring.best == 0 && |s'.ring.slots| == |s.ring.slots| && Holds(s'.ring, h, a, 0)
  {
  }

  /** The one record is the best. */
  lemma FirstDecision(c: Config, s: State, h: Header, a: Announce, e: Env)
    requires FM.Valid(s.ring) && At(s, Listening, Listening, true) && e.expired == {}
    requires s.ring.count == 1 && s.ring.best == 0 && Holds(s.ring, h, a, 0)
             && Decide(c.local, CandidateOf(h, a)) == Slave
    ensures var s' := FollowRecommendation(c, StateDecisionEvent(c, s), e);
            At(s', Uncalibrated, Slave, false) && s'.ring == s.ring && s'.parent.port == h.source
  {
    var s1 := StateDecisionEvent(c, s);
    assert s1.recommended == Slave && s1.parent.port == h.source && s1.portState == Listening && s1.ring == s.ring
           && StateDecision !in s1.events && MasterClockSelected !in s1.events by {
      hide Decide;
    }
    hide StateDecisionEvent, Decide, Candidates, Leave;
    ToStateForgets(c, s1, Uncalibrated);
    hide ToState;
  }

  lemma ThirdCall(c: Config, s: State, h: Header, a: Announce, id: int, e: Env)
    requires FM.Valid(s.ring) && At(s, Listening, Listening, true) && Heeded(c, h)
    requires s.ring.count == 1 && s.ring.best == 0 && Holds(s.ring, h, a, 0) && e == Receiving(SyncPacket(h, a, id))
    requires Decide(c.local, CandidateOf(h, a)) == Slave
    ensures var s' := DoState(c, s, e);
            && At(s', Uncalibrated, Slave, false) && s'.ring == s.ring && s'.parent.port == h.source
            && s'.waitingForFollowUp && s'.recvSyncId == id && s'.trace != []
            && s'.trace[|s'.trace| - 1] == SyncStored(h.source, id)
  {
    hide FollowRecommendation, StateDecisionEvent, Act, Decide, CandidateOf, Holds, At;
    FirstDecision(c, s, h, a, e);
    SyncArrives(c, FollowRecommendation(c, StateDecisionEvent(c, s), e), h, a, id, e);
  }

  lemma SyncArrives(c: Config, s: State, h: Header, a: Announce, id: int, e: Env)
    requires FM.Valid(s.ring) && At(s, Uncalibrated, Slave, false) && Heeded(c, h)
    requires s.parent.port == h.source && e == Receiving(SyncPacket(h, a, id))
    ensures var s' := Act(c, s, e);
            && At(s', Uncalibrated, Slave, false) && s'.ring == s.ring && s'.parent == s.parent
            && s'.waitingForFollowUp && s'.recvSyncId == id && s'.trace != []
            && s'.trace[|s'.trace| - 1] == SyncStored(h.source, id)
  {
  }

  lemma FourthCall(c: Config, s: State, hA: Header, aA: Announce, h: Header, a: Announce, id: int, e: Env)
    requires FM.Valid(s.ring) && At(s, Uncalibrated, Slave, false) && Heeded(c, h)
    requires s.ring.count == 1 && s.ring.best == 0 && Holds(s.ring, hA, aA, 0) && |s.ring.slots| >= 2
    requires s.parent.port == hA.source && hA.source != h.source && e == Receiving(AnnouncePacket(h, a))
    requires s.waitingForFollowUp
    ensures var s' := DoState(c, s, e);
            && At(s', Uncalibrated, Slave, true) && FM.Valid(s'.ring)
            && s'.ring.count == 2 && Holds(s'.ring, hA, aA, 0) && Holds(s'.ring, h, a, 1)
            && s'.parent == s.parent && s'.waitingForFollowUp && s'.recvSyncId == s.recvSyncId && s'.trace == s.trace
  {
    var s2 := FollowRecommendation(c, s, e);
    assert StateDecisionEvent(c, s) == s;
    assert s2 == s.(events := s.events - {MasterClockChanged});
    hide FollowRecommendation, StateDecisionEvent;
  }

  /** Two records, of which the scan settles on the second. */
  lemma SecondIsBest(c: Config, r: FM.Ring, hA: Header, aA: Announce, h: Header, a: Announce)
    requires FM.Valid(r) && r.count == 2 && Holds(r, hA, aA, 0) && Holds(r, h, a, 1)
    requires Replaces(Comparison(CandidateOf(h, a), CandidateOf(hA, aA), c.local.identity), c.scan)
    ensures BestRecord(c, r) == 1
  {
    var t := Candidates(r);
    assert t == [CandidateOf(hA, aA), CandidateOf(h, a)];
    assert t[..1][..0] == [] && t[..1][0] == t[0];
    hide Comparison, CandidateOf;
  }

  lemma FifthCall(c: Config, s: State, hA: Header, aA: Announce, h: Header, a: Announce, id: int, e: Env)
    requires FM.Valid(s.ring) && At(s, Uncalibrated, Slave, true) && Heeded(c, h)
    requires s.ring.count == 2 && Holds(s.ring, hA, aA, 0) && Holds(s.ring, h, a, 1)
    requires s.parent.port == hA.source && hA.source != h.source && e == Receiving(FollowUpPacket(h, a, id))
    requires s.waitingForFollowUp && s.recvSyncId == id
    requires Decide(c.local, CandidateOf(h, a)) == Slave
    requires Replaces(Comparison(CandidateOf(h, a), CandidateOf(hA, aA), c.local.identity), c.scan)
    ensures DoState(c, s, e).trace == s.trace + [ParentChanged(h.source), FollowUpUsed(h.source, id)]
  {
    SecondIsBest(c, s.ring, hA, aA, h, a);
    var s1 := StateDecisionEvent(c, s);
    assert s1.recommended == Slave && s1.parent.port == h.source && s1.portState == Uncalibrated
           && s1.trace == s.trace + [ParentChanged(h.source)] && s1.waitingForFollowUp && s1.recvSyncId == id
           && MasterClockSelected !in s1.events && FM.Valid(s1.ring) by {
      hide Decide, BestRecord, Comparison;
    }
    hide StateDecisionEvent, Decide, BestRecord, Comparison;
    var s2 := FollowRecommendation(c, s1, e);
    assert s2 == s1.(events := s1.events - {MasterClockChanged});
    hide FollowRecommendation;
  }

  /** For any two foreign masters A and B that the local clock would follow, B the one the scan prefers, the run
      of `Calls` uses a FollowUp of B for the Sync of A: a parent that changes between the two is not noticed. */
  lemma FollowUpOfAnotherMaster(c: Config, slots: seq<FM.Record>, hA: Header, aA: Announce, hB: Header, aB: Announce,
                                id: int)
    requires |slots| >= 2 && Heeded(c, hA) && Heeded(c, hB) && hA.source != hB.source
    requires Decide(c.local, CandidateOf(hA, aA)) == Decide(c.local, CandidateOf(hB, aB)) == Slave
    requires Replaces(Comparison(CandidateOf(hB, aB), CandidateOf(hA, aA), c.local.identity), c.scan)
    ensures var t := PortRuns.Run(c, slots, Calls(hA, aA, hB, aB, id)).trace;
            |t| >= 3 && t[|t| - 3..] == [SyncStored(hA.source, id), ParentChanged(hB.source),
                                         FollowUpUsed(hB.source, id)]
  {
    hide *;
    var es := Calls(hA, aA, hB, aB, id);
    var e := Receiving(FollowUpPacket(hB, aB, id));
    LastOfCalls(hA, aA, hB, aB, id);
    var s4 := FourCalls(c, slots, hA, aA, hB, aB, id);
    RunExtends(c, slots, es, 4);
    FifthCall(c, s4, hA, aA, hB, aB, id, e);
    EndOfTrace(s4.trace, ParentChanged(hB.source), FollowUpUsed(hB.source, id));
  }

  lemma LastOfCalls(hA: Header, aA: Announce, hB: Header, aB: Announce, id: int)
    ensures var es := Calls(hA, aA, hB, aB, id);
            |es| == 5 && es[4] == Receiving(FollowUpPacket(hB, aB, id)) && es[..4 + 1] == es
  {
  }

  lemma EndOfTrace(t: seq<Trace>, x: Trace, y: Trace)
    requires t != []
    ensures var t' := t + [x, y]; |t'| >= 3 && t'[|t'| - 3..] == [t[|t| - 1], x, y]
  {
  }

  lemma FourCalls(c: Config, slots: seq<FM.Record>, hA: Header, aA: Announce, hB: Header, aB: Announce, id: int)
    returns (s: State)
    requires |slots| >= 2 && Heeded(c, hA) && Heeded(c, hB) && hA.source != hB.source
    requires Decide(c.local, CandidateOf(hA, aA)) == Slave
    ensures s == PortRuns.Run(c, slots, Calls(hA, aA, hB, aB, id)[..4])
    ensures FM.Valid(s.ring) && At(s, Uncalibrated, Slave, true)
    ensures s.ring.count == 2 && Holds(s.ring, hA, aA, 0) && Holds(s.ring, hB, aB, 1)
    ensures s.parent.port == hA.source && s.waitingForFollowUp && s.recvSyncId == id
    ensures s.trace != [] && s.trace[|s.trace| - 1] == SyncStored(hA.source, id)
  {
    var es := Calls(hA, aA, hB, aB, id);
    var s0 := PortRuns.PowerUp(c, slots);
    PowerUpRun(c, slots);
    hide DoState, PortRuns.Run, PortRuns.PowerUp, PortRuns.Inv, Decide, Heeded, Holds, CandidateOf;
    assert es[..0] == [];
    forall k: nat | k < 4 ensures FM.Valid(PortRuns.Run(c, slots, es[..k]).ring) &&
                                  PortRuns.Run(c, slots, es[..k + 1]) ==
                                  DoState(c, PortRuns.Run(c, slots, es[..k]), es[k]) {
      RunExtends(c, slots, es, k);
    }
    FirstCall(c, s0, es[0]);
    var s1 := DoState(c, s0, es[0]);
    SecondCall(c, s1, hA, aA, es[1]);
    var s2 := DoState(c, s1, es[1]);
    ThirdCall(c, s2, hA, aA, id, es[2]);
    var s3 := DoState(c, s2, es[2]);
    FourthCall(c, s3, hA, aA, hB, aB, id, es[3]);
    s := DoState(c, s3, es[3]);
  }

  lemma PowerUpRun(c: Config, slots: seq<FM.Record>)
    requires slots != []
    ensures var s := PortRuns.PowerUp(c, slots);
            && s == PortRuns.Run(c, slots, []) && At(s, Initializing, Initializing, false)
            && s.ring == FM.Ring(slots, 0, 0, 0)
  {
  }

  lemma RunExtends(c: Config, slots: seq<FM.Record>, es: seq<Env>, k: nat)
    requires slots != [] && k < |es|
    ensures FM.Valid(PortRuns.Run(c, slots, es[..k]).ring)
    ensures PortRuns.Run(c, slots, es[..k + 1]) == DoState(c, PortRuns.Run(c, slots, es[..k]), es[k])
  {
    assert es[..k + 1][..k] == es[..k];
    PortRuns.CoreStarts(c, PortRuns.Run(c, slots, es[..k]));
    hide DoState, PortRuns.Inv;
  }
}
