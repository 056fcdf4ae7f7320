/** The claims about the port state machine, for every run from power-up. */
module PortResults {
  import opened Types
  import opened Words
  import opened Messages
  import opened BmcOrder
  import opened BmcDecision
  import FM = ForeignMasters
  import Codec
  import opened Port
  import opened PortInvariants
  import opened PortRuns
  import PortSteps

  // ----- The foreign table and the data sets -----

  /** A decision is never taken over an empty table, so that the branch of `bmcStateDecision` for one is dead:
      the record decided on was announced, by another clock, since the table was last emptied. */
  lemma DecisionHasRecord(c: Config, slots: seq<FM.Record>, envs: seq<Env>)
    requires slots != []
    ensures var s := Run(c, slots, envs);
            && FM.Valid(s.ring)
            && (StateDecision in s.events ==>
                  && BestRecord(c, s.ring) < s.ring.count
                  && var record := s.ring.slots[BestRecord(c, s.ring)];
                     record.header.source != c.port && Heard(record.header, record.announce) in s.heard)
  {
    var s := Run(c, slots, envs);
    hide Run, BestRecord;
    assert TableOk(c, s) && PendingOk(s);
    if StateDecision in s.events {
      var record := s.ring.slots[BestRecord(c, s.ring)];
      assert Heard(record.header, record.announce) in s.heard;
    }
  }

  /** A port told to be slave has a foreign record, and its parent and distance are those of an announce it acted
      on since the table was last emptied, which was not its own; a port told to be master is its own grandmaster
      at distance 0. */
  lemma DataSetsFollowRecommendation(c: Config, slots: seq<FM.Record>, envs: seq<Env>)
    requires slots != []
    ensures var s := Run(c, slots, envs);
            && (s.recommended == Slave ==>
                  s.ring.count >= 1 &&
                  exists x | x in s.heard ::
                    && x.header.source != c.port && s.parent == ParentFrom(x.header, x.announce)
                    && s.stepsRemoved == Wrap16(x.announce.stepsRemoved + 1))
            && (s.recommended == Master ==> s.parent == OwnParent(c) && s.stepsRemoved == 0)
  {
    var s := Run(c, slots, envs);
    hide Run, TimersOk, TraceOk;
    if s.recommended == Slave {
      assert ParentAnnounced(s) && TableOk(c, s);
      var x :| x in s.heard && s.parent == ParentFrom(x.header, x.announce)
               && s.stepsRemoved == Wrap16(x.announce.stepsRemoved + 1);
      assert x.header.source != c.port;
    }
  }

  /** A newer announce of the parent goes into the data sets and not into the table, so that the next decision
      for a slave puts back what the best record says: the announce is kept exactly when that record says the same. */
  lemma ParentsAnnounceKeptExactlyWhen(c: Config, s: State, h: Header, a: Announce)
    requires Inv(c, s) && Synchronizing(s.portState) && s.parent.port == h.source && !FromSelf(c, h)
    requires Decide(c.local, CandidateOf(s.ring.slots[BestRecord(c, s.ring)].header,
                                         s.ring.slots[BestRecord(c, s.ring)].announce)) == Slave
    ensures FM.Valid(s.ring)
    ensures var heard := HandleAnnounceSynchronizing(c, s, h, a);
            && heard.parent == ParentFrom(h, a) && heard.stepsRemoved == Wrap16(a.stepsRemoved + 1)
            && heard.ring == s.ring
    ensures var decided := StateDecisionEvent(c, HandleAnnounceSynchronizing(c, s, h, a));
            var record := s.ring.slots[BestRecord(c, s.ring)];
            decided.parent == ParentFrom(h, a) && decided.stepsRemoved == Wrap16(a.stepsRemoved + 1)
            <==> ParentFrom(record.header, record.announce) == ParentFrom(h, a)
                 && Wrap16(record.announce.stepsRemoved + 1) == Wrap16(a.stepsRemoved + 1)
  {
    var heard := HandleAnnounceSynchronizing(c, s, h, a);
    assert FM.Valid(s.ring) && s.ring.count >= 1 by { SlaveHasRecord(c, s); }
    hide Inv, BestRecord, Decide, CandidateOf, ParentFrom, FM.Valid;
    assert heard.ring == s.ring && StateDecision in heard.events && heard.portState == s.portState;
    DecidesForBest(c, heard);
    hide HandleAnnounceSynchronizing, StateDecisionEvent;
  }

  lemma SlaveHasRecord(c: Config, s: State)
    requires Inv(c, s) && Synchronizing(s.portState)
    ensures FM.Valid(s.ring) && s.ring.count >= 1
  {
    assert StartUpOk(s) && StatesOk(c, s) && Agree(s);
    hide TimersOk, TraceOk;
  }

  lemma DecidesForBest(c: Config, s: State)
    requires FM.Valid(s.ring) && s.ring.count >= 1 && Synchronizing(s.portState) && StateDecision in s.events
    requires Decide(c.local, CandidateOf(s.ring.slots[BestRecord(c, s.ring)].header,
                                         s.ring.slots[BestRecord(c, s.ring)].announce)) == Slave
    ensures var decided, record := StateDecisionEvent(c, s), s.ring.slots[BestRecord(c, s.ring)];
            && decided.parent == ParentFrom(record.header, record.announce)
            && decided.stepsRemoved == Wrap16(record.announce.stepsRemoved + 1)
  {
    hide BestRecord, Decide, CandidateOf, ParentFrom;
  }

  /** A slave-only or class-255 clock is never MASTER or PASSIVE and never tries to send a message of a master. */
  lemma SlaveOnlyNeverMaster(c: Config, slots: seq<FM.Record>, envs: seq<Env>)
    requires slots != [] && CannotBeMaster(c)
    ensures var s := Run(c, slots, envs);
            && s.portState !in {Master, Passive} && s.recommended !in {Master, Passive}
            && s.sent !! {Announcing, Syncing, FollowingUp, DelayResponse}
  {
    hide Run, Inv;
    SentMessages(c, Run(c, slots, envs));
  }

  lemma SentMessages(c: Config, s: State)
    requires Inv(c, s)
    ensures StatesOk(c, s) && SentOk(c, s)
  {
    hide StatesOk, SentOk, TableOk, DataSetsOk, TimersOk, TraceOk, PendingOk, StartUpOk;
  }

  /** In no run does a clock send a message of the other delay mechanism, or a FollowUp when it is one-step. */
  lemma ConfigurationDecidesMessages(c: Config, slots: seq<FM.Record>, envs: seq<Env>)
    requires slots != []
    ensures var sent := Run(c, slots, envs).sent;
            && (c.delayMechanism != E2E ==> sent !! {DelayRequest, DelayResponse})
            && (c.delayMechanism != P2P ==> sent !! {PeerRequest, PeerResponse, PeerFollowUp})
            && (!c.twoStep ==> FollowingUp !in sent)
  {
    hide Run, Inv;
    SentMessages(c, Run(c, slots, envs));
  }

  // ----- Roles -----

  /** In no run is a clock of class below 128 on the way to being slave, and in none is any other passive. */
  lemma ClassDecidesRole(c: Config, slots: seq<FM.Record>, envs: seq<Env>)
    requires slots != []
    ensures var s := Run(c, slots, envs);
            if c.local.quality.clockClass < 128 then
              s.recommended != Slave && s.portState !in {Uncalibrated, Slave}
            else s.recommended != Passive && s.portState != Passive
  {
    hide Run;
    var s := Run(c, slots, envs);
    assert Core(c, s) && Agree(s);
  }

  /** The network is up, and nothing arrives or fails. */
  predicate Silent(e: Env) { e.networkUp && e.reception.Nothing? && e.failing == {} }

  predicate TimesOutAt(envs: seq<Env>, k: nat) { 1 <= k < |envs| && AnnounceReceipt in envs[k].expired }

  ghost predicate TimesOut(envs: seq<Env>) { exists k :: TimesOutAt(envs, k) }

  /** A clock alone on a network listens until an announce is overdue, and then becomes master and remains it; one
      that cannot be master goes on listening. */
  lemma {:induction false} LoneClockIsMasterExactlyWhen(c: Config, slots: seq<FM.Record>, envs: seq<Env>)
    requires slots != [] && forall k | 0 <= k < |envs| :: Silent(envs[k])
    ensures var s := Run(c, slots, envs);
            && StateDecision !in s.events
            && s.portState == s.recommended
            && s.portState == if envs == [] then Initializing
                              else if TimesOut(envs) && !CannotBeMaster(c) then Master else Listening
  {
    hide Inv, PowerUp, DoState, Silent;
    if envs == [] {
      PowerUpRaisesNothing(c, slots);
    } else {
      var n := |envs| - 1;
      LoneClockIsMasterExactlyWhen(c, slots, envs[..n]);
      assert TimesOut(envs) <==> TimesOut(envs[..n]) || TimesOutAt(envs, n) by {
        forall k: nat ensures TimesOutAt(envs, k) <==> TimesOutAt(envs[..n], k) || (k == n && TimesOutAt(envs, n)) {
        }
      }
      SilentCall(c, Run(c, slots, envs[..n]), envs[n]);
      hide TimesOut;
    }
  }

  lemma PowerUpRaisesNothing(c: Config, slots: seq<FM.Record>)
    requires slots != []
    ensures var s := PowerUp(c, slots);
            s == Run(c, slots, []) && s.portState == s.recommended == Initializing && StateDecision !in s.events
  {
  }

  lemma SilentCall(c: Config, s: State, e: Env)
    requires Inv(c, s) && Silent(e) && StateDecision !in s.events
    requires s.portState == s.recommended && s.portState in {Initializing, Listening, Master}
    ensures FM.Valid(s.ring)
    ensures var s' := DoState(c, s, e);
            && StateDecision !in s'.events && s'.portState == s'.recommended
            && s'.portState == match s.portState
                               case Initializing => Listening
                               case Listening =>
                                 if AnnounceReceipt in e.expired && !CannotBeMaster(c) then Master else Listening
                               case _ => Master
  {
    assert TimersOk(c, s) && FM.Valid(s.ring);
    hide Inv;
    assert FollowRecommendation(c, StateDecisionEvent(c, s), e) == s by { hide ToState, RunBmc; }
    hide FollowRecommendation, StateDecisionEvent;
    match s.portState {
      case Initializing => ToStateForgets(c, DoInit(c, s), Listening);
      case Listening => SilentListening(c, s, e);
      case _ => SilentMaster(c, s, e);
    }
    hide ToState, ActAsMaster, AnnounceTimeout, Handle;
  }

  lemma SilentListening(c: Config, s: State, e: Env)
    requires FM.Valid(s.ring) && TimersOk(c, s) && Silent(e) && s.portState == s.recommended == Listening
    ensures var s' := Act(c, s, e);
            && s'.events == s.events && s'.portState == s'.recommended
            && s'.portState == if AnnounceReceipt in e.expired && !CannotBeMaster(c) then Master else Listening
  {
    if AnnounceReceipt in e.expired {
      PortSteps.TimeoutDecides(c, s, e);
    }
    hide AnnounceTimeout, ToState;
  }

  lemma SilentMaster(c: Config, s: State, e: Env)
    requires FM.Valid(s.ring) && Silent(e) && s.portState == s.recommended == Master
    ensures var s' := Act(c, s, e);
            s'.events == s.events && s'.portState == s'.recommended == Master
  {
    hide ToState;
    var s1 := if Check(s, SyncInterval, e) then IssueSync(c, s, e) else s;
    assert s1.events == s.events && s1.portState == s1.recommended == Master;
    var s2 := if Check(s1, AnnounceInterval, e) then IssueAnnounce(c, s1, e) else s1;
    assert s2.events == s.events && s2.portState == s2.recommended == Master;
    assert Handle(c, s2, e) == s2;
  }

  // ----- Faults -----

  /** A call finds the port faulty after following the recommendation, and so initialises it again, exactly when
      services never started: a fault after that is left behind by following the recommendation. */
  lemma FaultyReinitialisesExactlyWhen(c: Config, slots: seq<FM.Record>, envs: seq<Env>, e: Env)
    requires slots != []
    ensures var s := Run(c, slots, envs);
            && FM.Valid(s.ring)
            && (FollowRecommendation(c, StateDecisionEvent(c, s), e).portState == Faulty
                <==> s.portState == Faulty && !Up(envs))
  {
    var s := Run(c, slots, envs);
    CoreStarts(c, s);
    StartsExactlyWhen(c, slots, envs);
    DecisionKeeps(c, s);
    FollowKeeps(c, StateDecisionEvent(c, s), e);
    hide Run, Up, StateDecisionEvent, FollowRecommendation, Core, Inv, TableOk, PendingOk;
  }

  // ----- Two-step Syncs -----

  /** FollowUp `j` completes Sync `k`: the numbers agree and only changes of parent lie between them. */
  ghost predicate Completes(t: seq<Trace>, k: nat, j: nat) {
    && k < j < |t| && t[k].SyncStored? && t[j].FollowUpUsed? && t[k].id == t[j].id
    && forall m | k < m < j :: t[m].ParentChanged?
  }

  lemma {:induction false} OpenSync(t: seq<Trace>) returns (k: nat)
    requires Open(t).Some?
    ensures k < |t| && t[k] == SyncStored(Open(t).value.source, Open(t).value.id)
    ensures forall m | k < m < |t| :: t[m].ParentChanged?
  {
    var n := |t| - 1;
    if t[n].SyncStored? {
      k := n;
    } else {
      k := OpenSync(t[..n]);
    }
  }

  lemma {:induction false} MatchedPrefix(first: PortIdentity, t: seq<Trace>, j: nat)
    requires Matched(first, t) && j <= |t|
    ensures Matched(first, t[..j])
  {
    if j == |t| {
      assert t[..j] == t;
    } else {
      MatchedPrefix(first, t[..|t| - 1], j);
      assert t[..|t| - 1][..j] == t[..j];
    }
  }

  /** Every FollowUp that moved the clock completes a two-step Sync, each came from the parent of its moment, and
      so they have one sender exactly when the parent was the same at both moments. */
  lemma FollowUpCompletesSync(first: PortIdentity, t: seq<Trace>, j: nat) returns (k: nat)
    requires Matched(first, t) && j < |t| && t[j].FollowUpUsed?
    ensures Completes(t, k, j)
    ensures t[k].source == CurrentParent(first, t[..k]) && t[j].source == CurrentParent(first, t[..j])
  {
    MatchedAt(first, t, j);
    k := OpenSync(t[..j]);
    MatchedAt(first, t, k);
  }

  lemma MatchedAt(first: PortIdentity, t: seq<Trace>, j: nat)
    requires Matched(first, t) && j < |t|
    ensures t[j].SyncStored? ==> t[j].source == CurrentParent(first, t[..j])
    ensures t[j].FollowUpUsed? ==> t[j].source == CurrentParent(first, t[..j])
                                   && Open(t[..j]).Some? && Open(t[..j]).value.id == t[j].id
  {
    MatchedPrefix(first, t, j + 1);
    assert t[..j + 1][..j] == t[..j] && t[..j + 1][j] == t[j];
  }

  /** No Sync is completed twice. */
  lemma SyncCompletedOnce(t: seq<Trace>, k: nat, j: nat, j': nat)
    requires Completes(t, k, j) && Completes(t, k, j')
    ensures j == j'
  {
    if j < j' {
      OnlyParentsBetween(t, k, j, j');
    } else if j' < j {
      OnlyParentsBetween(t, k, j', j);
    }
  }

  lemma OnlyParentsBetween(t: seq<Trace>, k: nat, m: nat, j: nat)
    requires Completes(t, k, j) && k < m < j
    ensures t[m].ParentChanged?
  {
  }

  function Count(t: seq<Trace>, followUps: bool): nat {
    if t == [] then 0
    else
      var last := t[|t| - 1];
      Count(t[..|t| - 1], followUps) + if (if followUps then last.FollowUpUsed? else last.SyncStored?) then 1 else 0
  }

  /** There are never more FollowUps used than Syncs stored; strictly fewer while one waits. */
  lemma {:induction false} FollowUpsNeverExceedSyncs(first: PortIdentity, t: seq<Trace>)
    requires Matched(first, t)
    ensures Count(t, true) + (if Open(t).Some? then 1 else 0) <= Count(t, false)
  {
    if t != [] {
      FollowUpsNeverExceedSyncs(first, t[..|t| - 1]);
    }
  }

  /** In every run each FollowUp the port used completes a two-step Sync, and the two have one sender exactly when
      the parent was the same at both moments. */
  lemma FollowUpsComplete(c: Config, slots: seq<FM.Record>, envs: seq<Env>)
    requires slots != []
    ensures var t := Run(c, slots, envs).trace;
            && Count(t, true) <= Count(t, false)
            && forall j: nat | j < |t| && t[j].FollowUpUsed? :: exists k: nat ::
                 && Completes(t, k, j)
                 && (t[k].source == t[j].source <==> CurrentParent(NO_PORT, t[..k]) == CurrentParent(NO_PORT, t[..j]))
  {
    var s := Run(c, slots, envs);
    assert TraceOk(NO_PORT, s);
    hide Run, Inv, Open, CurrentParent;
    FollowUpsNeverExceedSyncs(NO_PORT, s.trace);
    forall j: nat | j < |s.trace| && s.trace[j].FollowUpUsed?
      ensures exists k: nat ::
                && Completes(s.trace, k, j)
                && (s.trace[k].source == s.trace[j].source
                    <==> CurrentParent(NO_PORT, s.trace[..k]) == CurrentParent(NO_PORT, s.trace[..j]))
    {
      var k := FollowUpCompletesSync(NO_PORT, s.trace, j);
    }
  }

  /** A port that waits for a FollowUp goes on waiting across a change of state exactly when it stays
      synchronizing, whether or not its parent changes. */
  lemma WaitingSurvivesExactlyWhen(c: Config, s: State, target: PortState)
    requires s.waitingForFollowUp && Active(s.portState)
    ensures ToState(c, s, target).waitingForFollowUp <==> Synchronizing(s.portState) && Synchronizing(target)
  {
    LeaveWaits(c, s, target);
    hide Leave;
  }

  lemma LeaveWaits(c: Config, s: State, target: PortState)
    requires s.waitingForFollowUp && Active(s.portState)
    ensures Leave(c, s, target).waitingForFollowUp <==> Synchronizing(s.portState) && Synchronizing(target)
  {
    if Synchronizing(s.portState) {
      LeaveSlaveWaits(c, s, target);
    }
    hide LeaveSlave;
  }

  lemma LeaveSlaveWaits(c: Config, s: State, target: PortState)
    requires s.waitingForFollowUp
    ensures LeaveSlave(c, s, target).waitingForFollowUp <==> Synchronizing(target)
  {
  }

  /** So when the decision picks a new parent, the FollowUp accepted next is one from the new parent with the
      number of a Sync of the old one. */
  lemma NewParentCompletesOldSync(c: Config, s: State, e: Env, h: Header)
    requires Inv(c, s) && Synchronizing(s.portState) && s.waitingForFollowUp && StateDecision in s.events
    requires var record := s.ring.slots[BestRecord(c, s.ring)];
             Decide(c.local, CandidateOf(record.header, record.announce)) == Slave
    ensures FM.Valid(s.ring)
    ensures AcceptsFollowUp(FollowRecommendation(c, StateDecisionEvent(c, s), e), h)
            <==> h.source == s.ring.slots[BestRecord(c, s.ring)].header.source && h.sequenceId == s.recvSyncId
  {
    var decided := StateDecisionEvent(c, s);
    assert PendingOk(s) && TableOk(c, s);
    assert decided.recommended == Slave && decided.portState == s.portState && decided.waitingForFollowUp
           && decided.recvSyncId == s.recvSyncId
           && decided.parent.port == s.ring.slots[BestRecord(c, s.ring)].header.source by {
      hide Inv, BestRecord, Decide, TableOk, CandidateOf;
    }
    hide StateDecisionEvent, BestRecord, Inv, Decide, TableOk, PendingOk;
    FollowKeepsWaiting(c, decided, e);
  }

  lemma FollowKeepsWaiting(c: Config, s: State, e: Env)
    requires s.recommended == Slave && Synchronizing(s.portState) && s.waitingForFollowUp
    ensures var s' := FollowRecommendation(c, s, e);
            s'.waitingForFollowUp && s'.recvSyncId == s.recvSyncId && s'.parent == s.parent
  {
    forall events, p | p in {Slave, Uncalibrated}
      ensures var s' := ToState(c, s.(events := events), p);
              s'.waitingForFollowUp && s'.recvSyncId == s.recvSyncId && s'.parent == s.parent
    {
    }
  }
}
