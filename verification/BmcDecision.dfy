/** The scan of the foreign masters and the state decision of bmc.c (figure 26). */
module BmcDecision {
  import opened Types
  import opened Messages
  import opened BmcOrder

  /** Which of two records the scan keeps: the source replaces the best so far when the comparison is
      negative, which keeps the loser; the figure asks for the winner. */
  datatype ScanRule = AsWritten | Intended

  /** The record at hand compared with the best so far makes the scan move on to it. */
  predicate Replaces(comparison: int, rule: ScanRule) {
    match rule
    case AsWritten => comparison < 0
    case Intended => comparison > 0
  }

  function Scan(table: seq<Candidate>, local: ClockIdentity, rule: ScanRule): (best: nat)
    requires table != []
    ensures best < |table|
  {
    var n := |table| - 1;
    if n == 0 then 0 else
      var best := Scan(table[..n], local, rule);
      if Replaces(Comparison(table[n], table[best], local), rule) then n else best
  }

  /** The loop of the source, over the records below `count`. */
  method FindBest(table: seq<Candidate>, local: ClockIdentity, rule: ScanRule) returns (best: nat)
    requires table != []
    ensures best == Scan(table, local, rule)
  {
    best := 0;
    var i := 1;
    while i < |table|
      invariant 1 <= i <= |table| && best < i
      invariant best == Scan(table[..i], local, rule)
    {
      assert table[..i + 1][..i] == table[..i];
      if Replaces(Comparison(table[i], table[best], local), rule) {
        best := i;
      }
      i := i + 1;
    }
    assert table[..i] == table;
  }

  /** Every two records agree on what they say of one grandmaster, and none is the receiver's own. */
  ghost predicate Orderly(table: seq<Candidate>, local: ClockIdentity) {
    && (forall i | 0 <= i < |table| :: table[i].sender != local)
    && (forall i, j | 0 <= i < |table| && 0 <= j < |table| :: Consistent(table[i], table[j]))
  }

  /** `x` is at the end of the order the rule scans for, with respect to `y`. */
  predicate Extreme(x: Candidate, y: Candidate, local: ClockIdentity, rule: ScanRule) {
    match rule
    case AsWritten => Comparison(x, y, local) <= 0
    case Intended => Comparison(x, y, local) >= 0
  }

  predicate StrictlyExtreme(x: Candidate, y: Candidate, local: ClockIdentity, rule: ScanRule) {
    Extreme(x, y, local, rule) && Comparison(x, y, local) != 0
  }

  lemma ExtremeTransitive(x: Candidate, y: Candidate, z: Candidate, local: ClockIdentity, rule: ScanRule)
    requires Consistent(x, y) && Consistent(y, z) && Consistent(x, z)
    requires x.sender != local && y.sender != local && z.sender != local
    requires Extreme(x, y, local, rule) && Extreme(y, z, local, rule)
    ensures Extreme(x, z, local, rule)
    ensures StrictlyExtreme(x, y, local, rule) || StrictlyExtreme(y, z, local, rule)
            ==> StrictlyExtreme(x, z, local, rule)
  {
    hide Comparison;
    ComparisonAntisymmetric(x, y, local);
    ComparisonAntisymmetric(y, z, local);
    ComparisonAntisymmetric(x, z, local);
    if rule == Intended {
      ComparisonTransitive(x, y, z, local);
    } else {
      ComparisonTransitive(z, y, x, local);
    }
  }

  /** `best` is the first record at its end of the order. */
  ghost predicate FirstExtreme(table: seq<Candidate>, best: nat, local: ClockIdentity, rule: ScanRule)
    requires best < |table|
  {
    && (forall i | 0 <= i < |table| :: Extreme(table[best], table[i], local, rule))
    && (forall i | 0 <= i < best :: StrictlyExtreme(table[best], table[i], local, rule))
  }

  /** The scan returns the first record at its end of the order: with the intended sign no record beats
      it, with the sign as written it beats no record. */
  lemma {:induction false} ScanIsExtreme(table: seq<Candidate>, local: ClockIdentity, rule: ScanRule)
    requires table != [] && Orderly(table, local)
    ensures FirstExtreme(table, Scan(table, local, rule), local, rule)
  {
    hide Comparison, StrictlyExtreme, Extreme;
    var n := |table| - 1;
    if n == 0 {
      SelfExtreme(table[0], local, rule);
    } else {
      var front := table[..n];
      ScanIsExtreme(front, local, rule);
      OneMore(front, table[n], Scan(front, local, rule), local, rule);
      assert front + [table[n]] == table;
    }
  }

  lemma SelfExtreme(x: Candidate, local: ClockIdentity, rule: ScanRule)
    ensures Extreme(x, x, local, rule)
  {
    ComparisonAntisymmetric(x, x, local);
  }

  lemma OneMore(front: seq<Candidate>, x: Candidate, best: nat, local: ClockIdentity, rule: ScanRule)
    requires best < |front| && Orderly(front + [x], local) && FirstExtreme(front, best, local, rule)
    ensures var next := if Replaces(Comparison(x, front[best], local), rule) then |front| else best;
            FirstExtreme(front + [x], next, local, rule)
  {
    var table := front + [x];
    assert table[|front|] == x;
    ComparisonAntisymmetric(x, front[best], local);
    SelfExtreme(x, local, rule);
    forall i | 0 <= i < |front|
      ensures table[i] == front[i]
      ensures Replaces(Comparison(x, front[best], local), rule) ==> StrictlyExtreme(x, front[i], local, rule)
    {
      assert table[best] == front[best] && table[i] == front[i];
      if Replaces(Comparison(x, front[best], local), rule) {
        hide Comparison;
        assert Extreme(front[best], front[i], local, rule);
        ExtremeTransitive(x, table[best], table[i], local, rule);
      }
    }
    hide Comparison;
  }

  // ----- The decision -----

  /** The local clock's own description (table 12). */
  datatype DefaultDataSet = DefaultDataSet(identity: ClockIdentity, priority1: int, quality: Quality, priority2: int,
                                           slaveOnly: bool)

  /** What `copyD0` puts into the header and announce it compares with. */
  function D0(local: DefaultDataSet): Candidate {
    Candidate(local.priority1, local.quality, local.priority2, local.identity, 0, local.identity)
  }

  /** Figure 26 for one foreign record. */
  function Decide(local: DefaultDataSet, record: Candidate): PortState {
    var comparison := Comparison(D0(local), record, local.identity);
    if local.quality.clockClass < 128 then
      if comparison == 1 then Master else Passive
    else
      if comparison == 1 then Master else Slave
  }

  /** A clock of class below 128 that is not master is passive, any other is slave. */
  lemma RoleByClass(local: DefaultDataSet, record: Candidate)
    ensures Decide(local, record) in {Master, Passive, Slave}
    ensures Decide(local, record) == Passive ==> local.quality.clockClass < 128
    ensures Decide(local, record) == Slave ==> local.quality.clockClass >= 128
  {
    hide Comparison;
  }

  /** `bmc` on a non-empty table. */
  function Bmc(local: DefaultDataSet, table: seq<Candidate>, rule: ScanRule): PortState
    requires table != []
  {
    Decide(local, table[Scan(table, local.identity, rule)])
  }

  /** No record claims the local clock for its grandmaster. */
  ghost predicate Foreign(local: DefaultDataSet, table: seq<Candidate>) {
    forall i | 0 <= i < |table| :: table[i].grandmasterIdentity != local.identity
  }

  lemma LocalRank(local: DefaultDataSet, x: Candidate)
    requires x.grandmasterIdentity != local.identity
    ensures Comparison(D0(local), x, local.identity) == -Lex(Rank(D0(local)), Rank(x)) != 0
  {
    RankOrder(D0(local), x, local.identity);
  }

  /** A candidate that does not lose to `y` is not ranked behind it. */
  lemma ExtremeRanks(x: Candidate, y: Candidate, local: ClockIdentity)
    requires Consistent(x, y) && x.sender != local && y.sender != local
    ensures Comparison(x, y, local) >= 0 ==> Lex(Rank(x), Rank(y)) <= 0
  {
    ComparisonIsLexicographic(x, y, local);
    LexConcat(Rank(x), Path(x), Rank(y), Path(y));
  }

  /** The decision over the whole table: with the intended scan the local clock is master exactly when it
      beats every record; with the scan as written, exactly when it beats some record. */
  lemma DecisionOverTable(local: DefaultDataSet, table: seq<Candidate>)
    requires table != [] && Orderly(table, local.identity) && Foreign(local, table)
    ensures Bmc(local, table, Intended) == Master
            <==> forall i | 0 <= i < |table| :: Comparison(D0(local), table[i], local.identity) == 1
    ensures Bmc(local, table, AsWritten) == Master
            <==> exists i | 0 <= i < |table| :: Comparison(D0(local), table[i], local.identity) == 1
  {
    hide Comparison, Rank;
    var id := local.identity;
    var best, worst := Scan(table, id, Intended), Scan(table, id, AsWritten);
    ScanIsExtreme(table, id, Intended);
    ScanIsExtreme(table, id, AsWritten);
    forall i | 0 <= i < |table|
      ensures Comparison(D0(local), table[best], id) == 1 ==> Comparison(D0(local), table[i], id) == 1
      ensures Comparison(D0(local), table[i], id) == 1 ==> Comparison(D0(local), table[worst], id) == 1
    {
      assert Extreme(table[best], table[i], id, Intended) && Extreme(table[worst], table[i], id, AsWritten);
      ComparisonAntisymmetric(table[worst], table[i], id);
      if Comparison(D0(local), table[best], id) == 1 {
        BeatsFollows(local, table[best], table[i]);
      }
      if Comparison(D0(local), table[i], id) == 1 {
        BeatsFollows(local, table[i], table[worst]);
      }
    }
  }

  /** What beats `x` beats everything that does not beat `x`. */
  lemma BeatsFollows(local: DefaultDataSet, x: Candidate, y: Candidate)
    requires Consistent(x, y) && x.sender != local.identity && y.sender != local.identity
    requires x.grandmasterIdentity != local.identity && y.grandmasterIdentity != local.identity
    requires Comparison(x, y, local.identity) >= 0 && Comparison(D0(local), x, local.identity) == 1
    ensures Comparison(D0(local), y, local.identity) == 1
  {
    hide Comparison, Rank;
    LocalRank(local, x);
    LocalRank(local, y);
    ExtremeRanks(x, y, local.identity);
    RankTransitive(D0(local), x, y);
  }

  lemma RankTransitive(x: Candidate, y: Candidate, z: Candidate)
    requires Lex(Rank(x), Rank(y)) <= 0 && Lex(Rank(y), Rank(z)) <= 0
    ensures Lex(Rank(x), Rank(z)) <= 0 && (Lex(Rank(x), Rank(y)) < 0 ==> Lex(Rank(x), Rank(z)) < 0)
  {
    LexTransitive(Rank(x), Rank(y), Rank(z));
  }
}
