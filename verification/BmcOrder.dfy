/** The data set comparison of bmc.c (IEEE 1588-2008, section 9.3.4, figures 27 and 28) as an order. */
module BmcOrder {
  import opened Messages

  // ----- Lexicographic comparison -----

  /** The sign of a byte-wise comparison, as `memcmp` reports it. */
  function Lex(a: seq<int>, b: seq<int>): (sign: int)
    requires |a| == |b|
    ensures sign == -1 || sign == 0 || sign == 1
  {
    if a == [] then 0
    else if a[0] < b[0] then -1
    else if a[0] > b[0] then 1
    else Lex(a[1..], b[1..])
  }

  lemma {:induction false} LexZero(a: seq<int>, b: seq<int>)
    requires |a| == |b|
    ensures Lex(a, b) == 0 <==> a == b
  {
    if a != [] {
      LexZero(a[1..], b[1..]);
      assert a == [a[0]] + a[1..] && b == [b[0]] + b[1..];
    }
  }

  lemma {:induction false} LexAntisymmetric(a: seq<int>, b: seq<int>)
    requires |a| == |b|
    ensures Lex(b, a) == -Lex(a, b)
  {
    if a != [] {
      LexAntisymmetric(a[1..], b[1..]);
    }
  }

  lemma {:induction false} LexTransitive(a: seq<int>, b: seq<int>, c: seq<int>)
    requires |a| == |b| == |c| && Lex(a, b) <= 0 && Lex(b, c) <= 0
    ensures Lex(a, c) <= 0 && (Lex(a, c) == 0 ==> Lex(a, b) == 0 && Lex(b, c) == 0)
  {
    if a != [] && a[0] == b[0] == c[0] {
      LexTransitive(a[1..], b[1..], c[1..]);
    }
  }

  lemma {:induction false} LexConcat(a: seq<int>, b: seq<int>, a': seq<int>, b': seq<int>)
    requires |a| == |a'| && |b| == |b'|
    ensures Lex(a + b, a' + b') == if Lex(a, a') != 0 then Lex(a, a') else Lex(b, b')
  {
    if a == [] {
      assert a + b == b && a' + b' == b';
    } else {
      assert (a + b)[1..] == a[1..] + b && (a' + b')[1..] == a'[1..] + b';
      LexConcat(a[1..], b, a'[1..], b');
    }
  }

  // ----- The comparison -----

  /** What the comparison looks at: the announced grandmaster, the distance to it, and the sender. */
  datatype Candidate = Candidate(priority1: int, quality: Quality, priority2: int,
                                 grandmasterIdentity: ClockIdentity, stepsRemoved: int, sender: ClockIdentity)

  function CandidateOf(header: Header, announce: Announce): Candidate {
    Candidate(announce.priority1, announce.quality, announce.priority2, announce.grandmasterIdentity,
              announce.stepsRemoved, header.source.clockIdentity)
  }

  /** Positive when `a` is better, negative when `b` is, 0 on the two error outcomes; `local` receives both. */
  function Comparison(a: Candidate, b: Candidate, local: ClockIdentity): (sign: int) {
    var identities := Lex(a.grandmasterIdentity, b.grandmasterIdentity);
    if identities != 0 then
      if a.priority1 > b.priority1 then -1
      else if b.priority1 > a.priority1 then 1
      else if a.quality.clockClass > b.quality.clockClass then -1
      else if b.quality.clockClass > a.quality.clockClass then 1
      else if a.quality.clockAccuracy > b.quality.clockAccuracy then -1
      else if b.quality.clockAccuracy > a.quality.clockAccuracy then 1
      else if a.quality.offsetScaledLogVariance > b.quality.offsetScaledLogVariance then -1
      else if b.quality.offsetScaledLogVariance > a.quality.offsetScaledLogVariance then 1
      else if a.priority2 > b.priority2 then -1
      else if b.priority2 > a.priority2 then 1
      else if identities > 0 then -1
      else 1
    else TopologyComparison(a, b, local)
  }

  /** Figure 28: the same grandmaster over two paths. */
  function TopologyComparison(a: Candidate, b: Candidate, local: ClockIdentity): (sign: int) {
    if a.stepsRemoved > b.stepsRemoved + 1 then -1
    else if b.stepsRemoved > a.stepsRemoved + 1 then 1
    else if a.stepsRemoved > b.stepsRemoved then
      if Lex(a.sender, local) != 0 then -1 else 0
    else if a.stepsRemoved < b.stepsRemoved then
      if Lex(b.sender, local) != 0 then 1 else 0
    else
      var senders := Lex(a.sender, b.sender);
      if senders > 0 then -1 else if senders < 0 then 1 else 0
  }

  /** Exchanging the operands changes the sign, on all inputs. */
  lemma ComparisonAntisymmetric(a: Candidate, b: Candidate, local: ClockIdentity)
    ensures Comparison(b, a, local) == -Comparison(a, b, local)
  {
    LexAntisymmetric(a.grandmasterIdentity, b.grandmasterIdentity);
    LexAntisymmetric(a.sender, b.sender);
  }

  /** The two error outcomes: the same grandmaster from the same sender at the same distance, or from two senders
      one step apart of which the farther is the receiver. Otherwise the nearer of one grandmaster is better. */
  lemma TieExactlyWhen(a: Candidate, b: Candidate, local: ClockIdentity)
    ensures Comparison(a, b, local) == 0
            <==> a.grandmasterIdentity == b.grandmasterIdentity
                 && (if a.stepsRemoved == b.stepsRemoved then a.sender == b.sender
                     else if a.stepsRemoved == b.stepsRemoved + 1 then a.sender == local
                     else b.stepsRemoved == a.stepsRemoved + 1 && b.sender == local)
    ensures Comparison(a, b, local) != 0 && a.grandmasterIdentity == b.grandmasterIdentity ==>
              (Comparison(a, b, local) > 0
               <==> a.stepsRemoved < b.stepsRemoved
                    || (a.stepsRemoved == b.stepsRemoved && Lex(a.sender, b.sender) < 0))
  {
    LexZero(a.grandmasterIdentity, b.grandmasterIdentity);
    LexZero(a.sender, b.sender);
    LexZero(a.sender, local);
    LexZero(b.sender, local);
  }

  // ----- The order it should be -----

  function Attributes(c: Candidate): seq<int> {
    [c.priority1, c.quality.clockClass, c.quality.clockAccuracy, c.quality.offsetScaledLogVariance, c.priority2]
  }

  /** The grandmaster's rank, then the path's: smaller is better. */
  function Rank(c: Candidate): (k: seq<int>)
    ensures |k| == 13
  {
    Attributes(c) + c.grandmasterIdentity
  }

  function Path(c: Candidate): seq<int> { [c.stepsRemoved] + c.sender }

  function Key(c: Candidate): (k: seq<int>)
    ensures |k| == 22
  {
    Rank(c) + Path(c)
  }

  /** One grandmaster, one set of attributes. */
  predicate Consistent(a: Candidate, b: Candidate) {
    a.grandmasterIdentity == b.grandmasterIdentity ==> Attributes(a) == Attributes(b)
  }

  lemma RankOrder(a: Candidate, b: Candidate, local: ClockIdentity)
    requires a.grandmasterIdentity != b.grandmasterIdentity
    ensures Comparison(a, b, local) == -Lex(Rank(a), Rank(b)) != 0
  {
    LexConcat(Attributes(a), a.grandmasterIdentity, Attributes(b), b.grandmasterIdentity);
    LexZero(a.grandmasterIdentity, b.grandmasterIdentity);
    AttributesLex(a, b);
  }

  /** Lexicographic order of the five attributes, spelled out. */
  lemma AttributesLex(a: Candidate, b: Candidate)
    ensures Lex(Attributes(a), Attributes(b)) ==
            if a.priority1 != b.priority1 then Sign(a.priority1, b.priority1)
            else if a.quality.clockClass != b.quality.clockClass then Sign(a.quality.clockClass, b.quality.clockClass)
            else if a.quality.clockAccuracy != b.quality.clockAccuracy then
              Sign(a.quality.clockAccuracy, b.quality.clockAccuracy)
            else if a.quality.offsetScaledLogVariance != b.quality.offsetScaledLogVariance then
              Sign(a.quality.offsetScaledLogVariance, b.quality.offsetScaledLogVariance)
            else Sign(a.priority2, b.priority2)
  {
    var x, y := Attributes(a), Attributes(b);
    LexStep(x, y);
    LexStep(x[1..], y[1..]);
    LexStep(x[2..], y[2..]);
    LexStep(x[3..], y[3..]);
    LexStep(x[4..], y[4..]);
    assert x[1..][1..] == x[2..] && x[2..][1..] == x[3..] && x[3..][1..] == x[4..] && x[4..][1..] == [];
    assert y[1..][1..] == y[2..] && y[2..][1..] == y[3..] && y[3..][1..] == y[4..] && y[4..][1..] == [];
  }

  function Sign(x: int, y: int): int { if x < y then -1 else if x > y then 1 else 0 }

  lemma LexStep(a: seq<int>, b: seq<int>)
    requires |a| == |b| > 0
    ensures Lex(a, b) == if a[0] != b[0] then Sign(a[0], b[0]) else Lex(a[1..], b[1..])
  {
  }

  lemma PathOrder(a: Candidate, b: Candidate, local: ClockIdentity)
    requires a.sender != local && b.sender != local
    ensures TopologyComparison(a, b, local) == -Lex(Path(a), Path(b))
  {
    LexZero(a.sender, local);
    LexZero(b.sender, local);
    LexStep(Path(a), Path(b));
    assert Path(a)[1..] == a.sender && Path(b)[1..] == b.sender;
  }

  /** When grandmasters are described consistently and nothing comes from the receiver itself, the
      comparison is the lexicographic order on (attributes, grandmaster, steps, sender), smaller is better. */
  lemma ComparisonIsLexicographic(a: Candidate, b: Candidate, local: ClockIdentity)
    requires Consistent(a, b) && a.sender != local && b.sender != local
    ensures Comparison(a, b, local) == -Lex(Key(a), Key(b))
  {
    LexConcat(Rank(a), Path(a), Rank(b), Path(b));
    LexZero(a.grandmasterIdentity, b.grandmasterIdentity);
    if a.grandmasterIdentity == b.grandmasterIdentity {
      LexZero(Rank(a), Rank(b));
      PathOrder(a, b, local);
    } else {
      RankOrder(a, b, local);
    }
  }

  /** Hence it is transitive. */
  lemma ComparisonTransitive(a: Candidate, b: Candidate, c: Candidate, local: ClockIdentity)
    requires Consistent(a, b) && Consistent(b, c) && Consistent(a, c)
    requires a.sender != local && b.sender != local && c.sender != local
    requires Comparison(a, b, local) >= 0 && Comparison(b, c, local) >= 0
    ensures Comparison(a, c, local) >= 0
    ensures Comparison(a, b, local) + Comparison(b, c, local) > 0 ==> Comparison(a, c, local) > 0
  {
    hide Comparison, Key, Lex;
    ComparisonIsLexicographic(a, b, local);
    ComparisonIsLexicographic(b, c, local);
    ComparisonIsLexicographic(a, c, local);
    LexTransitive(Key(a), Key(b), Key(c));
  }

  // ----- Where it is not an order -----

  /** Some third candidate loses to `b` and beats `a`. */
  ghost predicate ClosesCycle(a: Candidate, b: Candidate, local: ClockIdentity) {
    exists c: Candidate :: c.sender != local && Comparison(b, c, local) > 0 && Comparison(c, a, local) > 0
  }

  /** Two descriptions of one grandmaster can be part of a cycle exactly when the one that wins by
      topology carries the worse attributes. */
  lemma CycleExactlyWhen(a: Candidate, b: Candidate, local: ClockIdentity)
    requires a.grandmasterIdentity == b.grandmasterIdentity && a.sender != local && b.sender != local
    requires Comparison(a, b, local) > 0
    ensures ClosesCycle(a, b, local) <==> Lex(Attributes(b), Attributes(a)) < 0
  {
    if Lex(Attributes(b), Attributes(a)) < 0 {
      CycleExists(a, b, local);
    } else {
      forall c: Candidate | c.sender != local && Comparison(b, c, local) > 0
        ensures Comparison(c, a, local) <= 0
      {
        NoCycle(a, b, c, local);
      }
    }
  }

  /** A neighbouring identity: above `id`, or below it when there is none above. */
  function Neighbour(id: ClockIdentity): ClockIdentity {
    if id[7] < 255 then id[7 := id[7] + 1] else id[7 := 0]
  }

  lemma {:induction false} LexOfLast(a: seq<int>, b: seq<int>)
    requires |a| == |b| > 0 && a[..|a| - 1] == b[..|b| - 1]
    ensures Lex(a, b) == Sign(a[|a| - 1], b[|b| - 1])
  {
    var front := a[..|a| - 1];
    assert a == front + [a[|a| - 1]] && b == front + [b[|b| - 1]];
    LexConcat(front, [a[|a| - 1]], front, [b[|b| - 1]]);
    LexZero(front, front);
  }

  lemma CycleExists(a: Candidate, b: Candidate, local: ClockIdentity)
    requires a.grandmasterIdentity == b.grandmasterIdentity && a.sender != local
    requires Lex(Attributes(b), Attributes(a)) < 0
    ensures ClosesCycle(a, b, local)
  {
    var id := a.grandmasterIdentity;
    var other := Neighbour(id);
    LexOfLast(id, other);
    LexAntisymmetric(id, other);
    var like := if id[7] < 255 then b else a;
    var c := like.(grandmasterIdentity := other, sender := a.sender);
    assert Attributes(c) == Attributes(like);
    RankOrder(b, c, local);
    RankOrder(c, a, local);
    LexConcat(Attributes(b), id, Attributes(c), other);
    LexConcat(Attributes(c), other, Attributes(a), id);
    LexZero(Attributes(like), Attributes(like));
  }

  lemma NoCycle(a: Candidate, b: Candidate, c: Candidate, local: ClockIdentity)
    requires a.grandmasterIdentity == b.grandmasterIdentity
    requires a.sender != local && b.sender != local && c.sender != local
    requires Comparison(a, b, local) > 0 && Comparison(b, c, local) > 0
    requires Lex(Attributes(b), Attributes(a)) >= 0
    ensures Comparison(c, a, local) <= 0
  {
    var id := a.grandmasterIdentity;
    LexZero(id, c.grandmasterIdentity);
    LexZero(c.grandmasterIdentity, id);
    LexZero(id, id);
    if c.grandmasterIdentity == id {
      PathOrder(a, b, local);
      PathOrder(b, c, local);
      PathOrder(c, a, local);
      LexTransitive(Path(a), Path(b), Path(c));
      LexAntisymmetric(Path(a), Path(c));
    } else {
      RankOrder(b, c, local);
      RankOrder(c, a, local);
      LexAntisymmetric(Attributes(b), Attributes(a));
      LexConcat(Attributes(a), id, Attributes(b), id);
      LexTransitive(Rank(a), Rank(b), Rank(c));
      LexAntisymmetric(Rank(a), Rank(c));
    }
  }
}
