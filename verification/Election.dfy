/** The election that the best master clock algorithm is for: N clocks, each holding the others' announces. */
module Election {
  import opened Types
  import opened Messages
  import opened BmcOrder
  import opened BmcDecision

  /** Clocks that may become master or slave: distinct identities, class 128 to 254, not slave-only. */
  ghost predicate Electable(clocks: seq<DefaultDataSet>) {
    && |clocks| >= 2
    && (forall i | 0 <= i < |clocks| :: 128 <= clocks[i].quality.clockClass <= 254 && !clocks[i].slaveOnly)
    && (forall i, j | 0 <= i < j < |clocks| :: clocks[i].identity != clocks[j].identity)
  }

  /** `table` holds announces of every other clock and of no one else, in any order and number. */
  ghost predicate HoldsOthers(clocks: seq<DefaultDataSet>, k: nat, table: seq<Candidate>)
    requires k < |clocks|
  {
    && (forall i | 0 <= i < |table| :: exists j | 0 <= j < |clocks| :: j != k && table[i] == D0(clocks[j]))
    && (forall j | 0 <= j < |clocks| && j != k :: D0(clocks[j]) in table)
  }

  /** Every clock has its table. */
  ghost predicate Informed(clocks: seq<DefaultDataSet>, tables: seq<seq<Candidate>>) {
    |tables| == |clocks| && forall k | 0 <= k < |clocks| :: HoldsOthers(clocks, k, tables[k])
  }

  /** The state clock `k` chooses. */
  function Choice(clocks: seq<DefaultDataSet>, tables: seq<seq<Candidate>>, k: nat, rule: ScanRule): PortState
    requires k < |clocks| == |tables| && tables[k] != []
  {
    Bmc(clocks[k], tables[k], rule)
  }

  /** Clock `a` is ranked before clock `b`. */
  predicate Before(a: DefaultDataSet, b: DefaultDataSet) { Lex(Rank(D0(a)), Rank(D0(b))) < 0 }

  lemma BeforeIsTotal(a: DefaultDataSet, b: DefaultDataSet)
    requires a.identity != b.identity
    ensures Before(a, b) != Before(b, a)
    ensures forall local: ClockIdentity :: Comparison(D0(a), D0(b), local) == if Before(a, b) then 1 else -1
  {
    forall local: ClockIdentity
      ensures Comparison(D0(a), D0(b), local) == if Before(a, b) then 1 else -1
    {
      RankOrder(D0(a), D0(b), local);
    }
    RankOrder(D0(a), D0(b), a.identity);
    LexAntisymmetric(Rank(D0(a)), Rank(D0(b)));
  }

  lemma BeforeTransitive(a: DefaultDataSet, b: DefaultDataSet, c: DefaultDataSet)
    requires Before(a, b) && Before(b, c)
    ensures Before(a, c)
  {
    LexTransitive(Rank(D0(a)), Rank(D0(b)), Rank(D0(c)));
  }

  /** Clock `b` is ranked before all the others. */
  ghost predicate IsFirst(clocks: seq<DefaultDataSet>, b: nat) {
    b < |clocks| && forall k | 0 <= k < |clocks| && k != b :: Before(clocks[b], clocks[k])
  }

  /** All the others are ranked before clock `w`. */
  ghost predicate IsLast(clocks: seq<DefaultDataSet>, w: nat) {
    w < |clocks| && forall k | 0 <= k < |clocks| && k != w :: Before(clocks[k], clocks[w])
  }

  lemma {:induction false} FirstAndLastExist(clocks: seq<DefaultDataSet>) returns (b: nat, w: nat)
    requires |clocks| >= 1
    requires forall i, j | 0 <= i < j < |clocks| :: clocks[i].identity != clocks[j].identity
    ensures IsFirst(clocks, b) && IsLast(clocks, w)
  {
    hide Before;
    var n := |clocks| - 1;
    if n == 0 {
      return 0, 0;
    }
    b, w := FirstAndLastExist(clocks[..n]);
    BeforeIsTotal(clocks[b], clocks[n]);
    BeforeIsTotal(clocks[w], clocks[n]);
    if Before(clocks[n], clocks[b]) {
      forall k | 0 <= k < n && k != b
        ensures Before(clocks[n], clocks[k])
      {
        assert clocks[..n][k] == clocks[k] && clocks[..n][b] == clocks[b];
        BeforeTransitive(clocks[n], clocks[b], clocks[k]);
      }
      b := n;
    } else {
      forall k | 0 <= k < n && k != b
        ensures Before(clocks[b], clocks[k])
      {
        assert clocks[..n][k] == clocks[k];
      }
    }
    if Before(clocks[w], clocks[n]) {
      forall k | 0 <= k < n && k != w
        ensures Before(clocks[k], clocks[n])
      {
        assert clocks[..n][k] == clocks[k] && clocks[..n][w] == clocks[w];
        BeforeTransitive(clocks[k], clocks[w], clocks[n]);
      }
      w := n;
    } else {
      forall k | 0 <= k < n && k != w
        ensures Before(clocks[k], clocks[w])
      {
        assert clocks[..n][k] == clocks[k];
      }
    }
  }

  lemma TableIsOrderly(clocks: seq<DefaultDataSet>, k: nat, table: seq<Candidate>)
    requires Electable(clocks) && k < |clocks| && HoldsOthers(clocks, k, table)
    ensures table != [] && Orderly(table, clocks[k].identity) && Foreign(clocks[k], table)
  {
    var other := if k == 0 then 1 else 0;
    assert D0(clocks[other]) in table;
    forall i, j | 0 <= i < |table| && 0 <= j < |table|
      ensures table[i].sender != clocks[k].identity && table[i].grandmasterIdentity != clocks[k].identity
      ensures Consistent(table[i], table[j])
    {
      var p :| 0 <= p < |clocks| && p != k && table[i] == D0(clocks[p]);
      var q :| 0 <= q < |clocks| && q != k && table[j] == D0(clocks[q]);
    }
  }

  /** Beating the records of a table is being ranked before the clocks it stands for. */
  lemma TableMirrorsClocks(clocks: seq<DefaultDataSet>, k: nat, table: seq<Candidate>)
    requires Electable(clocks) && k < |clocks| && HoldsOthers(clocks, k, table)
    ensures var local := clocks[k];
            (forall i | 0 <= i < |table| :: Comparison(D0(local), table[i], local.identity) == 1)
            <==> forall j | 0 <= j < |clocks| && j != k :: Before(local, clocks[j])
    ensures var local := clocks[k];
            (exists i | 0 <= i < |table| :: Comparison(D0(local), table[i], local.identity) == 1)
            <==> exists j | 0 <= j < |clocks| && j != k :: Before(local, clocks[j])
  {
    hide Before, Comparison;
    var local := clocks[k];
    forall j | 0 <= j < |clocks| && j != k
      ensures exists i :: 0 <= i < |table| && table[i] == D0(clocks[j])
      ensures Comparison(D0(local), D0(clocks[j]), local.identity) == 1 <==> Before(local, clocks[j])
    {
      assert D0(clocks[j]) in table;
      BeforeIsTotal(local, clocks[j]);
    }
  }

  /** What a clock chooses depends only on whom it is ranked before: all the others with the intended scan,
      any of them with the scan as written. */
  lemma ChoiceByRank(clocks: seq<DefaultDataSet>, k: nat, table: seq<Candidate>)
    requires Electable(clocks) && k < |clocks| && HoldsOthers(clocks, k, table)
    ensures table != []
    ensures Bmc(clocks[k], table, Intended) ==
            if forall j | 0 <= j < |clocks| && j != k :: Before(clocks[k], clocks[j]) then Master else Slave
    ensures Bmc(clocks[k], table, AsWritten) ==
            if exists j | 0 <= j < |clocks| && j != k :: Before(clocks[k], clocks[j]) then Master else Slave
  {
    TableIsOrderly(clocks, k, table);
    TableMirrorsClocks(clocks, k, table);
    hide Before, Comparison, Foreign, Orderly, HoldsOthers, Scan;
    DecisionOverTable(clocks[k], table);
  }

  /** Exactly clock `m` is in state `s`, all the others in state `t`. */
  ghost predicate AllBut(clocks: seq<DefaultDataSet>, tables: seq<seq<Candidate>>, rule: ScanRule, m: nat,
                         s: PortState, t: PortState)
    requires |clocks| == |tables| && forall k | 0 <= k < |tables| :: tables[k] != []
  {
    m < |clocks| && forall k | 0 <= k < |clocks| :: Choice(clocks, tables, k, rule) == if k == m then s else t
  }

  /** A scan that keeps the winner elects exactly one master, the clock ranked first. */
  lemma IntendedElectsOne(clocks: seq<DefaultDataSet>, tables: seq<seq<Candidate>>) returns (first: nat)
    requires Electable(clocks) && Informed(clocks, tables)
    ensures IsFirst(clocks, first) && forall k | 0 <= k < |tables| :: tables[k] != []
    ensures AllBut(clocks, tables, Intended, first, Master, Slave)
  {
    var last;
    first, last := FirstAndLastExist(clocks);
    hide Before, Bmc;
    forall k | 0 <= k < |clocks|
      ensures tables[k] != [] && Choice(clocks, tables, k, Intended) == if k == first then Master else Slave
    {
      ChoiceByRank(clocks, k, tables[k]);
      if k != first {
        BeforeIsTotal(clocks[first], clocks[k]);
      }
    }
  }

  /** The scan as written leaves only the clock ranked last a slave: with three clocks or more there are
      several masters. */
  lemma AsWrittenElectsAllButOne(clocks: seq<DefaultDataSet>, tables: seq<seq<Candidate>>) returns (last: nat)
    requires Electable(clocks) && Informed(clocks, tables)
    ensures IsLast(clocks, last) && forall k | 0 <= k < |tables| :: tables[k] != []
    ensures AllBut(clocks, tables, AsWritten, last, Slave, Master)
  {
    var first;
    first, last := FirstAndLastExist(clocks);
    hide Before, Bmc;
    forall k | 0 <= k < |clocks|
      ensures tables[k] != [] && Choice(clocks, tables, k, AsWritten) == if k == last then Slave else Master
    {
      ChoiceByRank(clocks, k, tables[k]);
      if k == last {
        forall j | 0 <= j < |clocks| && j != k
          ensures !Before(clocks[k], clocks[j])
        {
          BeforeIsTotal(clocks[k], clocks[j]);
        }
      }
    }
  }

  /** So the scan as written elects a single master exactly when there are two clocks. */
  lemma SingleMasterExactlyWhen(clocks: seq<DefaultDataSet>, tables: seq<seq<Candidate>>)
    requires Electable(clocks) && Informed(clocks, tables)
    ensures forall k | 0 <= k < |tables| :: tables[k] != []
    ensures (exists m: nat :: AllBut(clocks, tables, AsWritten, m, Master, Slave)) <==> |clocks| == 2
  {
    var last := AsWrittenElectsAllButOne(clocks, tables);
    hide Choice, IsLast, Informed, Electable;
    if |clocks| == 2 {
      assert AllBut(clocks, tables, AsWritten, 1 - last, Master, Slave);
    } else {
      var a := if last == 0 then 1 else 0;
      var b := if last <= 1 then 2 else 1;
      assert Choice(clocks, tables, a, AsWritten) == Master == Choice(clocks, tables, b, AsWritten);
    }
  }

  /** With the intended scan every slave has taken the one master for its parent. */
  lemma SlavesFollowTheMaster(clocks: seq<DefaultDataSet>, k: nat, table: seq<Candidate>, first: nat)
    requires Electable(clocks) && k < |clocks| && HoldsOthers(clocks, k, table) && IsFirst(clocks, first) && k != first
    ensures table != [] && table[Scan(table, clocks[k].identity, Intended)] == D0(clocks[first])
  {
    TableIsOrderly(clocks, k, table);
    var local := clocks[k].identity;
    var best := Scan(table, local, Intended);
    ScanIsExtreme(table, local, Intended);
    hide Before, Comparison, Foreign, Orderly, Scan;
    var j :| 0 <= j < |clocks| && j != k && table[best] == D0(clocks[j]);
    assert D0(clocks[first]) in table;
    var i :| 0 <= i < |table| && table[i] == D0(clocks[first]);
    assert Extreme(table[best], table[i], local, Intended);
    if j != first {
      BehindFirst(clocks[j], clocks[first], local);
    }
  }

  lemma BehindFirst(a: DefaultDataSet, first: DefaultDataSet, local: ClockIdentity)
    requires a.identity != first.identity && Before(first, a)
    ensures Comparison(D0(a), D0(first), local) == -1
  {
    hide Before, Comparison;
    BeforeIsTotal(a, first);
  }
}
