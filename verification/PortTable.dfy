/** The foreign table over runs of the port: when the search starts inside the records in use. */
module PortTable {
  import opened Types
  import opened Messages
  import opened BmcOrder
  import opened BmcDecision
  import FM = ForeignMasters
  import Codec
  import opened Port
  import opened PortInvariants
  import opened PortRuns

  /** A port that cannot become faulty between an announce it heard in MASTER and the decision on it. */
  predicate Steady(c: Config) { c.delayMechanism != P2P || CannotBeMaster(c) }

  ghost predicate SendersDistinct(c: Config, s: State)
    requires FM.Valid(s.ring)
  {
    c.matching == FM.Intended ==> FM.Distinct(s.ring)
  }

  /** Nothing is pending, and the search would start at a record in use. */
  ghost predicate Searchable(c: Config, s: State) {
    && FM.Valid(s.ring) && SendersDistinct(c, s)
    && StateDecision !in s.events && (s.ring.count > 0 ==> s.ring.best < s.ring.count)
  }

  /** Between calls: the same, unless a decision is pending that the next call will take. */
  ghost predicate TableSteady(c: Config, s: State) {
    && FM.Valid(s.ring) && SendersDistinct(c, s)
    && (StateDecision in s.events ==> s.portState != Faulty)
    && (StateDecision !in s.events && s.ring.count > 0 ==> s.ring.best < s.ring.count)
  }

  lemma DecisionPicks(c: Config, s: State)
    requires Inv(c, s) && TableSteady(c, s)
    ensures Searchable(c, StateDecisionEvent(c, s))
  {
    assert StatesOk(c, s) && StartUpOk(s) && PendingOk(s);
    var cleared := s.(events := s.events - {StateDecision});
    if StateDecision in s.events {
      ClearedKeeps(c, s);
      RunBmcDecides(c, cleared);
      BestIsInUse(c, cleared);
    }
    hide RunBmc, Core, Inv;
  }

  lemma BestIsInUse(c: Config, s: State)
    requires FM.Valid(s.ring) && s.ring.count > 0
    ensures RunBmc(c, s).ring.best < s.ring.count
  {
    hide DecideOn, Candidates;
  }

  lemma FollowKeepsTable(c: Config, s: State, e: Env)
    requires Searchable(c, s)
    ensures Searchable(c, FollowRecommendation(c, s, e))
  {
    forall s1: State, target
      ensures ToState(c, s1, target).events == s1.events
    {
      ToStateForgets(c, s1, target);
    }
    hide ToState;
  }

  lemma CalmKeepsTable(c: Config, s: State, s': State)
    requires Searchable(c, s) && Calm(c, NO_PORT, s, s')
    ensures Searchable(c, s')
  {
    hide TimersOk, TraceOk;
  }

  lemma AddKeepsTable(c: Config, s: State, h: Header, a: Announce)
    requires Searchable(c, s) && s.portState != Faulty
    ensures TableSteady(c, AddForeign(c, RequestDecision(s), h, a))
  {
    if c.matching == FM.Intended {
      FM.IntendedKeepsDistinct(s.ring, h, a);
    }
    hide FM.Added;
  }

  lemma HandleAnnounceKeepsTable(c: Config, s: State, p: Reception)
    requires Searchable(c, s) && p.Packet?
    ensures TableSteady(c, HandleAnnounce(c, s, p))
  {
    var h, a := p.header, p.announce;
    ToFaultyIsCalm(c, NO_PORT, s);
    CalmKeepsTable(c, s, ToState(c, s, Faulty));
    if s.portState != Faulty {
      AddKeepsTable(c, s, h, a);
      AddKeepsTable(c, Start(s, AnnounceReceipt), h, a);
      SynchronizingKeepsTable(c, s, h, a);
    }
    hide ToState, AddForeign, HandleAnnounceSynchronizing;
  }

  lemma SynchronizingKeepsTable(c: Config, s: State, h: Header, a: Announce)
    requires Searchable(c, s) && s.portState != Faulty
    ensures TableSteady(c, HandleAnnounceSynchronizing(c, s, h, a))
  {
    AddKeepsTable(c, s, h, a);
    hide AddForeign;
  }

  lemma HandleKeepsTable(c: Config, s: State, e: Env)
    requires Searchable(c, s)
    ensures TableSteady(c, Handle(c, s, e))
  {
    var r := e.reception;
    if r.Packet? && r.header.messageType == Codec.ANNOUNCE {
      HandleAnnounceKeepsTable(c, s, r);
      ToFaultyIsCalm(c, NO_PORT, s);
      CalmKeepsTable(c, s, ToState(c, s, Faulty));
    } else {
      HandleIsCalm(c, NO_PORT, s, e);
      CalmKeepsTable(c, s, Handle(c, s, e));
    }
    hide ToState, HandleAnnounce, HandleSync, HandleFollowUp, HandleDelayReq, HandleDelayResp, HandlePDelayReq,
         HandlePDelayResp, HandlePDelayRespFollowUp, QuietTrace, SendersDistinct;
  }

  lemma HandleStaysMaster(c: Config, s: State, e: Env)
    requires FM.Valid(s.ring) && s.portState in {Master, Faulty}
    ensures Handle(c, s, e).portState in {Master, Faulty}
  {
    var r := e.reception;
    ToFaultyIsCalm(c, NO_PORT, s);
    if r.Packet? && r.header.messageType == Codec.ANNOUNCE {
      assert HandleAnnounce(c, s, r).portState in {Master, Faulty} by { hide FM.Added, ToState; }
    } else {
      HandleIsCalm(c, NO_PORT, s, e);
    }
    hide ToState, HandleAnnounce, HandleSync, HandleFollowUp, HandleDelayReq, HandleDelayResp, HandlePDelayReq,
         HandlePDelayResp, HandlePDelayRespFollowUp, TraceOk, TimersOk;
  }

  /** In MASTER the delay timer does nothing but under the peer mechanism. */
  lemma MasterKeepsTable(c: Config, s: State, e: Env)
    requires Searchable(c, s) && TimersOk(c, s) && s.portState == Master && c.delayMechanism != P2P
    ensures TableSteady(c, ActAsMaster(c, s, e))
  {
    IssueSyncIsCalm(c, NO_PORT, s, e);
    Reflexive(c, NO_PORT, s);
    var s1 := if Check(s, SyncInterval, e) then IssueSync(c, s, e) else s;
    CalmKeepsTable(c, s, s1);
    Reflexive(c, NO_PORT, s1);
    assert Check(s1, AnnounceInterval, e) ==> s1.portState == Master;
    if s1.portState == Master {
      IssueAnnounceIsCalm(c, NO_PORT, s1, e);
    }
    var s2 := if Check(s1, AnnounceInterval, e) then IssueAnnounce(c, s1, e) else s1;
    CalmKeepsTable(c, s1, s2);
    HandleKeepsTable(c, s2, e);
    HandleStaysMaster(c, s2, e);
    hide Handle, IssueSync, IssueAnnounce, TraceOk, Searchable, TableSteady;
  }

  lemma StartKeepsTable(c: Config, s: State, e: Env)
    requires Searchable(c, s) && s.portState in {Initializing, Faulty} && s.ring.count == 0 && s.ring.i == 0
    ensures TableSteady(c, Act(c, s, e))
  {
    ToStateForgets(c, DoInit(c, s), Listening);
    ToStateForgets(c, s, Faulty);
    ToStateForgets(c, s, Initializing);
    hide ToState;
  }

  lemma TimeoutKeepsTable(c: Config, s: State)
    requires Searchable(c, s)
    ensures TableSteady(c, AnnounceTimeout(c, s))
  {
    var s' := s.(ring := s.ring.(count := 0, i := 0), heard := {});
    ToStateForgets(c, M1(c, s').(recommended := Master), Master);
    ToStateForgets(c, s', Listening);
    hide ToState;
  }

  lemma ActKeepsTable(c: Config, s: State, e: Env)
    requires Steady(c) && Ready(c, s) && Searchable(c, s)
    ensures TableSteady(c, Act(c, s, e))
  {
    assert StatesOk(c, s) && StartUpOk(s) && TimersOk(c, s);
    if s.recommended == Initializing {
      StartKeepsTable(c, s, e);
    } else if s.portState == Master {
      MasterKeepsTable(c, s, e);
    } else if Check(s, AnnounceReceipt, e) {
      TimeoutKeepsTable(c, s);
    } else {
      HandleKeepsTable(c, s, e);
    }
    hide Inv, TimersOk, Searchable, TableSteady, ToState, Handle, ActAsMaster, AnnounceTimeout, DoInit;
  }

  lemma DoStateKeepsTable(c: Config, s: State, e: Env)
    requires Steady(c) && Inv(c, s) && TableSteady(c, s)
    ensures FM.Valid(s.ring) && TableSteady(c, DoState(c, s, e))
  {
    var decided := StateDecisionEvent(c, s);
    DecisionPicks(c, s);
    DecisionKeeps(c, s);
    FollowKeeps(c, decided, e);
    FollowKeepsTable(c, decided, e);
    ActKeepsTable(c, FollowRecommendation(c, decided, e), e);
    hide StateDecisionEvent, FollowRecommendation, Act, Core, Agree, SendersDistinct;
  }

  lemma {:induction false} RunKeepsTable(c: Config, slots: seq<FM.Record>, envs: seq<Env>)
    requires slots != [] && Steady(c)
    ensures TableSteady(c, Run(c, slots, envs))
  {
    if envs == [] {
      PowerUpKeeps(c, slots);
    } else {
      var was := Run(c, slots, envs[..|envs| - 1]);
      RunKeepsTable(c, slots, envs[..|envs| - 1]);
      DoStateKeepsTable(c, was, envs[|envs| - 1]);
      hide DoState, Inv, TableSteady;
    }
  }
}
