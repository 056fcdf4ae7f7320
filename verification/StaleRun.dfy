/** A run in which the search of the foreign table starts at a record out of use and misses the one in use. */
module StaleRun {
  import opened Types
  import opened Messages
  import opened BmcOrder
  import opened BmcDecision
  import FM = ForeignMasters
  import Codec
  import opened Port
  import opened PortInvariants
  import opened PortRuns
  import PortTable
  import opened MixedPair

  /** A call in which a timer expires and nothing arrives. */
  function Expiring(t: Timer): Env { Env(true, {t}, Nothing, {}, {}, Between, false) }

  /** A call in which an announce arrives and the peer request that is due cannot be sent. */
  function Failing(r: Reception): Env { Env(true, {PDelayReqInterval}, r, {PeerRequest}, {}, Between, false) }

  /** Start up; an announce of A; the decision for A and an announce of B; the decision for B and the announce
      timeout; an announce of A and a failing peer request; the same announce again. */
  function Calls(hA: Header, aA: Announce, hB: Header, aB: Announce): seq<Env> {
    [Receiving(Nothing), Receiving(AnnouncePacket(hA, aA)), Receiving(AnnouncePacket(hB, aB)),
     Expiring(AnnounceReceipt), Failing(AnnouncePacket(hA, aA)), Receiving(AnnouncePacket(hA, aA))]
  }

  /** The first two slots. */
  predicate Slots(r: FM.Ring, first: PortIdentity, second: PortIdentity) {
    |r.slots| >= 2 && r.slots[0].identity == first && r.slots[1].identity == second
  }

  lemma ThirdCallAdds(c: Config, s: State, hA: Header, aA: Announce, h: Header, a: Announce, e: Env)
    requires FM.Valid(s.ring) && At(s, Listening, Listening, true) && Heeded(c, h)
             && e == Receiving(AnnouncePacket(h, a))
    requires s.ring.count == 1 && s.ring.best == 0 && Holds(s.ring, hA, aA, 0) && |s.ring.slots| >= 2
    requires hA.source != h.source && Decide(c.local, CandidateOf(hA, aA)) == Slave
    ensures var s' := DoState(c, s, e);
            && At(s', Uncalibrated, Slave, true) && FM.Valid(s'.ring) && |s'.ring.slots| >= 2
            && s'.ring.count == 2 && Holds(s'.ring, hA, aA, 0) && Holds(s'.ring, h, a, 1)
  {
    FirstDecision(c, s, hA, aA, e);
    AnotherArrives(c, FollowRecommendation(c, StateDecisionEvent(c, s), e), hA, aA, h, a, e);
    hide FollowRecommendation, StateDecisionEvent, Act, Decide, CandidateOf, Holds;
  }

  lemma AnotherArrives(c: Config, s: State, hA: Header, aA: Announce, h: Header, a: Announce, e: Env)
    requires FM.Valid(s.ring) && At(s, Uncalibrated, Slave, false) && Heeded(c, h)
             && e == Receiving(AnnouncePacket(h, a))
    requires s.ring.count == 1 && s.ring.best == 0 && Holds(s.ring, hA, aA, 0) && |s.ring.slots| >= 2
    requires s.parent.port == hA.source && hA.source != h.source
    ensures var s' := Act(c, s, e);
            && At(s', Uncalibrated, Slave, true) && FM.Valid(s'.ring) && |s'.ring.slots| >= 2
            && s'.ring.count == 2 && Holds(s'.ring, hA, aA, 0) && Holds(s'.ring, h, a, 1)
  {
  }

  lemma FourthCallTimesOut(c: Config, s: State, hA: Header, aA: Announce, h: Header, a: Announce, e: Env)
    requires Inv(c, s) && FM.Valid(s.ring) && At(s, Uncalibrated, Slave, true) && !CannotBeMaster(c)
    requires s.ring.count == 2 && Holds(s.ring, hA, aA, 0) && Holds(s.ring, h, a, 1) && e == Expiring(AnnounceReceipt)
    requires Decide(c.local, CandidateOf(h, a)) == Slave
    requires Replaces(Comparison(CandidateOf(h, a), CandidateOf(hA, aA), c.local.identity), c.scan)
    ensures var s' := DoState(c, s, e);
            && At(s', Master, Master, false) && FM.Valid(s'.ring) && Slots(s'.ring, hA.source, h.source)
            && s'.ring.count == 0 && s'.ring.i == 0 && s'.ring.best == 1
  {
    SecondIsBest(c, s.ring, hA, aA, h, a);
    var s1 := StateDecisionEvent(c, s);
    assert At(s1, Uncalibrated, Slave, false) && s1.ring == s.ring.(best := 1) by {
      hide Decide, BestRecord, Comparison;
    }
    DecisionKeeps(c, s);
    FollowKeeps(c, s1, e);
    hide StateDecisionEvent, Decide, BestRecord, Comparison, CandidateOf;
    var s2 := FollowRecommendation(c, s1, e);
    assert At(s2, Uncalibrated, Slave, false) && s2.ring == s1.ring;
    assert TimersOk(c, s2);
    hide FollowRecommendation, Core, Inv;
    TimesOut(c, s2, e);
  }

  lemma TimesOut(c: Config, s: State, e: Env)
    requires FM.Valid(s.ring) && At(s, Uncalibrated, Slave, false) && TimersOk(c, s) && !CannotBeMaster(c)
    requires e == Expiring(AnnounceReceipt)
    ensures var s' := Act(c, s, e);
            && At(s', Master, Master, false) && FM.Valid(s'.ring) && s'.ring == s.ring.(count := 0, i := 0)
  {
    ToStateForgets(c, M1(c, s.(ring := s.ring.(count := 0, i := 0), heard := {})).(recommended := Master), Master);
    hide ToState;
  }

  lemma FifthCallFaults(c: Config, s: State, h: Header, a: Announce, second: PortIdentity, e: Env)
    requires Inv(c, s) && FM.Valid(s.ring) && At(s, Master, Master, false) && c.delayMechanism == P2P && Heeded(c, h)
    requires s.ring.count == 0 && s.ring.i == 0 && s.ring.best == 1 && |s.ring.slots| >= 2
    requires s.ring.slots[1].identity == second && e == Failing(AnnouncePacket(h, a))
    ensures var s' := DoState(c, s, e);
            && At(s', Faulty, Master, true) && FM.Valid(s'.ring) && Slots(s'.ring, h.source, second)
            && s'.ring.count == 1 && s'.ring.i == 1 && s'.ring.best == 1
  {
    assert TimersOk(c, s);
    assert FollowRecommendation(c, StateDecisionEvent(c, s), e) == s;
    var s1 := Handle(c, s, e);
    assert At(s1, Master, Master, true) && FM.Valid(s1.ring) && Slots(s1.ring, h.source, second) && s1.armed == s.armed
           && s1.ring.count == 1 && s1.ring.i == 1 && s1.ring.best == 1 by {
      hide Inv;
    }
    hide Inv, Handle, StateDecisionEvent, FollowRecommendation;
    RequestFails(c, s1, e);
  }

  lemma RequestFails(c: Config, s: State, e: Env)
    requires At(s, Master, Master, true) && c.delayMechanism == P2P && PDelayReqInterval in s.armed
    requires PDelayReqInterval in e.expired && PeerRequest in e.failing
    ensures var s' := IssueDelayReqTimerExpired(c, s, e); At(s', Faulty, Master, true) && s'.ring == s.ring
  {
    var s1 := Start(s, PDelayReqInterval).(sent := s.sent + {PeerRequest});
    ToStateForgets(c, s1, Faulty);
    hide ToState;
  }

  lemma SixthCallDoubles(c: Config, s: State, h: Header, a: Announce, second: PortIdentity, e: Env)
    requires FM.Valid(s.ring) && At(s, Faulty, Master, true) && Heeded(c, h) && e == Receiving(AnnouncePacket(h, a))
    requires s.ring.count == 1 && s.ring.i == 1 && s.ring.best == 1 && Slots(s.ring, h.source, second)
             && second != h.source
    ensures var s' := DoState(c, s, e);
            FM.Valid(s'.ring) && s'.ring.count == 2 && Slots(s'.ring, h.source, h.source)
  {
    assert StateDecisionEvent(c, s) == s;
    ToStateForgets(c, s, PreMaster);
    hide ToState;
    var s2 := FollowRecommendation(c, s, e);
    assert s2.portState == Master && s2.ring == s.ring && s2.recommended == Master;
    hide FollowRecommendation, StateDecisionEvent;
    DoubleArrives(c, s2, h, a, second, e);
  }

  lemma DoubleArrives(c: Config, s: State, h: Header, a: Announce, second: PortIdentity, e: Env)
    requires FM.Valid(s.ring) && s.portState == Master && Heeded(c, h) && e == Receiving(AnnouncePacket(h, a))
    requires s.ring.count == 1 && s.ring.i == 1 && s.ring.best == 1 && Slots(s.ring, h.source, second)
             && second != h.source
    ensures var s' := Act(c, s, e); FM.Valid(s'.ring) && s'.ring.count == 2 && Slots(s'.ring, h.source, h.source)
  {
    assert FM.Search(s.ring, h.source, 1, 1).None? by { assert FM.Search(s.ring, h.source, (1 + 1) % 1, 0).None?; }
    assert IssueDelayReqTimerExpired(c, Handle(c, s, e), e) == Handle(c, s, e) by { hide Handle; }
  }

  /** For any two foreign masters A and B that a peer-to-peer clock able to be master would follow, B the one the
      scan prefers, the run of `Calls` leaves two records of A, whether or not a match ends the search. */
  lemma SenderTwice(c: Config, slots: seq<FM.Record>, hA: Header, aA: Announce, hB: Header, aB: Announce)
    requires |slots| >= 2 && !PortTable.Steady(c) && Heeded(c, hA) && Heeded(c, hB) && hA.source != hB.source
    requires Decide(c.local, CandidateOf(hA, aA)) == Decide(c.local, CandidateOf(hB, aB)) == Slave
    requires Replaces(Comparison(CandidateOf(hB, aB), CandidateOf(hA, aA), c.local.identity), c.scan)
    ensures var r := Run(c, slots, Calls(hA, aA, hB, aB)).ring; FM.Valid(r) && !FM.Distinct(r)
  {
    assert c.delayMechanism == P2P && !CannotBeMaster(c);
    hide *;
    var s4 := FourCalls(c, slots, hA, aA, hB, aB);
    LastOfCalls(hA, aA, hB, aB);
    LastTwoCalls(c, slots, Calls(hA, aA, hB, aB), s4, hA, aA, hB.source);
  }

  lemma LastTwoCalls(c: Config, slots: seq<FM.Record>, es: seq<Env>, s: State, h: Header, a: Announce,
                     second: PortIdentity)
    requires slots != [] && |es| == 6 && c.delayMechanism == P2P && Heeded(c, h) && second != h.source
    requires es[4] == Failing(AnnouncePacket(h, a)) && es[5] == Receiving(AnnouncePacket(h, a)) && es[..6] == es
    requires s == Run(c, slots, es[..4]) && FM.Valid(s.ring) && At(s, Master, Master, false)
    requires Slots(s.ring, h.source, second) && s.ring.count == 0 && s.ring.i == 0 && s.ring.best == 1
    ensures var r := Run(c, slots, es).ring; FM.Valid(r) && !FM.Distinct(r)
  {
    assert |s.ring.slots| >= 2 && s.ring.slots[1].identity == second;
    hide *;
    RunExtends(c, slots, es, 4);
    RunExtends(c, slots, es, 5);
    FifthCallFaults(c, s, h, a, second, es[4]);
    SixthCallDoubles(c, Run(c, slots, es[..5]), h, a, second, es[5]);
    TwiceIsNotDistinct(Run(c, slots, es).ring, h.source);
  }

  lemma TwiceIsNotDistinct(r: FM.Ring, id: PortIdentity)
    requires FM.Valid(r) && r.count == 2 && Slots(r, id, id)
    ensures !FM.Distinct(r)
  {
    assert r.slots[0].identity == r.slots[1].identity;
  }

  lemma LastOfCalls(hA: Header, aA: Announce, hB: Header, aB: Announce)
    ensures var es := Calls(hA, aA, hB, aB);
            && |es| == 6 && es[..6] == es
            && es[0] == Receiving(Nothing) && es[1] == Receiving(AnnouncePacket(hA, aA))
            && es[2] == Receiving(AnnouncePacket(hB, aB)) && es[3] == Expiring(AnnounceReceipt)
            && es[4] == Failing(AnnouncePacket(hA, aA)) && es[5] == Receiving(AnnouncePacket(hA, aA))
  {
  }

  lemma FourCalls(c: Config, slots: seq<FM.Record>, hA: Header, aA: Announce, hB: Header, aB: Announce)
    returns (s: State)
    requires |slots| >= 2 && !CannotBeMaster(c) && Heeded(c, hA) && Heeded(c, hB) && hA.source != hB.source
    requires Decide(c.local, CandidateOf(hA, aA)) == Decide(c.local, CandidateOf(hB, aB)) == Slave
    requires Replaces(Comparison(CandidateOf(hB, aB), CandidateOf(hA, aA), c.local.identity), c.scan)
    ensures s == Run(c, slots, Calls(hA, aA, hB, aB)[..4])
    ensures FM.Valid(s.ring) && At(s, Master, Master, false) && Slots(s.ring, hA.source, hB.source)
    ensures s.ring.count == 0 && s.ring.i == 0 && s.ring.best == 1
  {
    var es := Calls(hA, aA, hB, aB);
    hide *;
    LastOfCalls(hA, aA, hB, aB);
    PowerUpRun(c, slots);
    var s0 := PowerUp(c, slots);
    StartOfCalls(es);
    RunExtends(c, slots, es, 0);
    RunExtends(c, slots, es, 1);
    RunExtends(c, slots, es, 2);
    RunExtends(c, slots, es, 3);
    FirstCall(c, s0, es[0]);
    var s1 := DoState(c, s0, es[0]);
    SecondCall(c, s1, hA, aA, es[1]);
    var s2 := DoState(c, s1, es[1]);
    ThirdCallAdds(c, s2, hA, aA, hB, aB, es[2]);
    var s3 := DoState(c, s2, es[2]);
    FourthCallTimesOut(c, s3, hA, aA, hB, aB, es[3]);
    s := DoState(c, s3, es[3]);
  }

  lemma StartOfCalls(es: seq<Env>)
    ensures es[..0] == []
  {
  }

  /** With the flag set on a match, no sender is ever twice in the table exactly when the port cannot become
      faulty between an announce and its decision: not peer-to-peer, or never master. */
  lemma DistinctExactlyWhen(c: Config, slots: seq<FM.Record>, hA: Header, aA: Announce, hB: Header, aB: Announce)
    requires |slots| >= 2 && c.matching == FM.Intended && Heeded(c, hA) && Heeded(c, hB) && hA.source != hB.source
    requires Decide(c.local, CandidateOf(hA, aA)) == Decide(c.local, CandidateOf(hB, aB)) == Slave
    requires Replaces(Comparison(CandidateOf(hB, aB), CandidateOf(hA, aA), c.local.identity), c.scan)
    ensures (forall envs: seq<Env> :: AlwaysDistinct(c, slots, envs)) <==> PortTable.Steady(c)
  {
    hide Run, Inv, Decide, Comparison, Heeded, CandidateOf, PortTable.Steady, Calls;
    if PortTable.Steady(c) {
      forall envs: seq<Env>
        ensures AlwaysDistinct(c, slots, envs)
      {
        PortTable.RunKeepsTable(c, slots, envs);
      }
    } else {
      SenderTwice(c, slots, hA, aA, hB, aB);
      assert !AlwaysDistinct(c, slots, Calls(hA, aA, hB, aB));
    }
  }

  ghost predicate AlwaysDistinct(c: Config, slots: seq<FM.Record>, envs: seq<Env>)
    requires slots != []
  {
    var r := Run(c, slots, envs).ring; FM.Valid(r) && FM.Distinct(r)
  }
}
