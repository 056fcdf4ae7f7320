/** The foreign-master ring of bmc.c: search, update and append. */
module ForeignMasters {
  import opened Types
  import opened Words
  import opened Messages

  /** Whether a match ends the matter: the source sets its flag to false on a match, so the record is
      appended again; the flag is there to be set to true. */
  datatype MatchRule = AsWritten | Intended

  datatype Record = Record(identity: PortIdentity, announceMessages: int, header: Header, announce: Announce)

  /** The ring as a value; `slots` has the capacity for its length. */
  datatype Ring = Ring(slots: seq<Record>, count: nat, i: nat, best: nat)

  predicate Valid(r: Ring) {
    && 0 < |r.slots| && r.count <= |r.slots| && r.i < |r.slots| && r.best < |r.slots|
    && (r.count < |r.slots| ==> r.i == r.count)
  }

  /** Looks at `left` slots from `j` on, modulo the count, for a sender. */
  function Search(r: Ring, id: PortIdentity, j: nat, left: nat): (hit: Option<nat>)
    requires Valid(r) && j < |r.slots| && left <= r.count
    ensures hit.Some? ==> hit.value < |r.slots| && r.slots[hit.value].identity == id
    decreases left
  {
    if left == 0 then None
    else if r.slots[j].identity == id then Some(j)
    else Search(r, id, (j + 1) % r.count, left - 1)
  }

  /** The record of a known sender, brought up to date. */
  function Updated(record: Record, header: Header, announce: Announce): Record {
    record.(announceMessages := Wrap16(record.announceMessages + 1), header := header, announce := announce)
  }

  function Matched(r: Ring, header: Header, announce: Announce): Ring
    requires Valid(r)
  {
    match Search(r, header.source, r.best, r.count)
    case None => r
    case Some(j) => r.(slots := r.slots[j := Updated(r.slots[j], header, announce)])
  }

  function Appended(r: Ring, header: Header, announce: Announce): Ring
    requires Valid(r)
  {
    Ring(r.slots[r.i := Record(header.source, 0, header, announce)],
         Min(r.count + 1, |r.slots|), (r.i + 1) % |r.slots|, r.best)
  }

  function Added(r: Ring, header: Header, announce: Announce, rule: MatchRule): (r': Ring)
    requires Valid(r)
    ensures Valid(r') && |r'.slots| == |r.slots| && r'.best == r.best && r'.count >= 1
  {
    var matched := Matched(r, header, announce);
    if rule == Intended && Search(r, header.source, r.best, r.count).Some? then matched
    else
      NextIndex(r.i, |r.slots|);
      Appended(matched, header, announce)
  }

  lemma NextIndex(i: nat, n: nat)
    requires i < n
    ensures (i + 1) % n == if i + 1 == n then 0 else i + 1
  {
  }

  /** The `foreignMasterDS` of the clock record. */
  class ForeignMasterDS {
    const records: array<Record>
    var count: nat
    var i: nat
    var best: nat

    constructor (records: array<Record>)
      requires records.Length > 0
      ensures this.records == records && Get() == Ring(records[..], 0, 0, 0) && Valid(Get())
    {
      this.records := records;
      count, i, best := 0, 0, 0;
    }

    function Get(): Ring
      reads this, records
    {
      Ring(records[..], count, i, best)
    }

    /** Forgets all records; the index of the best one stays. */
    method Reset()
      requires Valid(Get())
      modifies this`count, this`i
      ensures Get() == old(Get()).(count := 0, i := 0) && Valid(Get())
    {
      count := 0;
      i := 0;
    }

    /** Adds the sender of an announce, or brings its record up to date. */
    method AddForeign(header: Header, announce: Announce, rule: MatchRule)
      requires Valid(Get())
      modifies this`count, this`i, records
      ensures Get() == Added(old(Get()), header, announce, rule) && Valid(Get())
    {
      ghost var was := Get();
      var found := false;
      var j := best;
      var k := 0;
      while k < count
        invariant 0 <= k <= count && 0 <= j < records.Length
        invariant Get() == was
        invariant Search(was, header.source, was.best, count) == Search(was, header.source, j, count - k)
      {
        if records[j].identity == header.source {
          records[j] := Updated(records[j], header, announce);
          found := rule == Intended;
          break;
        }
        j := (j + 1) % count;
        k := k + 1;
      }
      assert Get() == Matched(was, header, announce);
      if !found {
        if count < records.Length {
          count := count + 1;
        }
        records[i] := Record(header.source, 0, header, announce);
        i := (i + 1) % records.Length;
      }
    }
  }

  // ----- The search -----

  lemma {:induction false} SearchCovers(r: Ring, id: PortIdentity, j: nat, left: nat)
    requires Valid(r) && j < r.count && left <= r.count
    ensures Search(r, id, j, left).None?
            ==> forall k | 0 <= k < r.count && InArc(k, j, left, r.count) :: r.slots[k].identity != id
    decreases left
  {
    if left > 0 {
      NextIndex(j, r.count);
      SearchCovers(r, id, (j + 1) % r.count, left - 1);
    }
  }

  /** `k` is one of the `left` slots from `j` on, around a circle of `n`. */
  predicate InArc(k: int, j: nat, left: nat, n: nat) { j <= k < j + left || k < j + left - n }

  /** Started inside the count, the search finds a sender exactly when some record has it. */
  lemma SearchFindsExactly(r: Ring, id: PortIdentity)
    requires Valid(r) && r.best < r.count
    ensures Search(r, id, r.best, r.count).Some?
            <==> exists k | 0 <= k < r.count :: r.slots[k].identity == id
  {
    SearchCovers(r, id, r.best, r.count);
    if Search(r, id, r.best, r.count).Some? {
      SearchStaysBelow(r, id, r.best, r.count);
    }
  }

  lemma {:induction false} SearchStaysBelow(r: Ring, id: PortIdentity, j: nat, left: nat)
    requires Valid(r) && j < r.count && left <= r.count && Search(r, id, j, left).Some?
    ensures Search(r, id, j, left).value < r.count && InArc(Search(r, id, j, left).value, j, left, r.count)
    decreases left
  {
    if r.slots[j].identity != id {
      NextIndex(j, r.count);
      SearchStaysBelow(r, id, (j + 1) % r.count, left - 1);
    }
  }

  /** Started at an index left over from before a reset, the search looks at that slot, which is out of use, and
      misses exactly one of those in use. */
  lemma StaleSearchFindsExactly(r: Ring, id: PortIdentity)
    requires Valid(r) && 0 < r.count <= r.best
    ensures Search(r, id, r.best, r.count).Some?
            <==> r.slots[r.best].identity == id
                 || exists k | 0 <= k < r.count :: k != r.best % r.count && r.slots[k].identity == id
  {
    var n, left := r.count, r.count - 1;
    var j := (r.best + 1) % n;
    SuccessorModulo(r.best, n);
    NextIndex(r.best % n, n);
    if r.slots[r.best].identity != id {
      forall k | 0 <= k < n
        ensures InArc(k, j, left, n) <==> k != r.best % n
      {
      }
      SearchCovers(r, id, j, left);
      if Search(r, id, j, left).Some? {
        SearchStaysBelow(r, id, j, left);
      }
    }
  }

  /** For instance the only record there is. */
  lemma StaleStartMisses(a: Record, b: Record)
    requires a.identity != b.identity
    ensures var r := Ring([a, b], 1, 1, 1);
            Valid(r) && r.slots[0].identity == a.identity && Search(r, a.identity, r.best, r.count).None?
  {
    StaleSearchFindsExactly(Ring([a, b], 1, 1, 1), a.identity);
  }

  // ----- What an addition leaves of a known sender -----

  /** How far around a circle of `n` slot `k` is from slot `b`. */
  function Distance(b: nat, k: nat, n: nat): int { if k >= b then k - b else k - b + n }

  /** Slot `k` is the first in use with a sender, around the circle from the best record. */
  ghost predicate FirstAround(r: Ring, id: PortIdentity, k: nat) {
    && r.best < r.count <= |r.slots| && k < r.count && r.slots[k].identity == id
    && forall m | 0 <= m < r.count && r.slots[m].identity == id ::
         Distance(r.best, k, r.count) <= Distance(r.best, m, r.count)
  }

  lemma {:induction false} SearchHitsFirst(r: Ring, id: PortIdentity, k: nat, j: nat, left: nat)
    requires Valid(r) && FirstAround(r, id, k) && j < r.count && left <= r.count
    requires Distance(r.best, j, r.count) == r.count - left && Distance(r.best, k, r.count) >= r.count - left
    ensures Search(r, id, j, left) == Some(k)
    decreases left
  {
    if r.slots[j].identity != id {
      NextIndex(j, r.count);
      SearchHitsFirst(r, id, k, (j + 1) % r.count, left - 1);
    }
  }

  /** An addition brings the sender's record that comes first around the circle up to date, with one announce more
      to its account, unless it is the slot that the addition takes. */
  lemma KnownSenderUpdated(r: Ring, header: Header, announce: Announce, rule: MatchRule, k: nat)
    requires Valid(r) && FirstAround(r, header.source, k)
    ensures var record := Added(r, header, announce, rule).slots[k];
            && record.identity == header.source && record.header == header && record.announce == announce
            && (rule == Intended || k != r.i ==> record.announceMessages == Wrap16(r.slots[k].announceMessages + 1))
  {
    SearchHitsFirst(r, header.source, k, r.best, r.count);
  }

  /** With the flag set, and senders distinct, nothing else changes. */
  lemma IntendedUpdatesInPlace(r: Ring, header: Header, announce: Announce, k: nat)
    requires Valid(r) && Distinct(r) && r.best < r.count && k < r.count && r.slots[k].identity == header.source
    ensures var count := Wrap16(r.slots[k].announceMessages + 1);
            Added(r, header, announce, Intended) ==
            r.(slots := r.slots[k := Record(header.source, count, header, announce)])
  {
    assert FirstAround(r, header.source, k);
    SearchHitsFirst(r, header.source, k, r.best, r.count);
  }

  /** In use, some record holds the announce just added. */
  lemma AddedIsHeld(r: Ring, header: Header, announce: Announce, rule: MatchRule) returns (k: nat)
    requires Valid(r) && (rule == Intended && r.count > 0 ==> r.best < r.count)
    ensures var r' := Added(r, header, announce, rule);
            && k < r'.count && r'.slots[k].identity == header.source
            && r'.slots[k].header == header && r'.slots[k].announce == announce
            && (rule == AsWritten || Search(r, header.source, r.best, r.count).None? ==>
                  k == r.i && r'.slots[k].announceMessages == 0)
  {
    k := r.i;
    if rule == Intended && Search(r, header.source, r.best, r.count).Some? {
      k := Search(r, header.source, r.best, r.count).value;
      SearchStaysBelow(r, header.source, r.best, r.count);
    }
  }

  // ----- What the table holds -----

  ghost predicate Distinct(r: Ring)
    requires Valid(r)
  {
    forall j, k | 0 <= j < k < r.count :: r.slots[j].identity != r.slots[k].identity
  }

  /** With the flag set, a search that starts inside the count keeps senders distinct. */
  lemma IntendedKeepsDistinct(r: Ring, header: Header, announce: Announce)
    requires Valid(r) && Distinct(r) && (r.count > 0 ==> r.best < r.count)
    ensures Distinct(Added(r, header, announce, Intended))
  {
    if r.count > 0 {
      SearchFindsExactly(r, header.source);
    }
  }

  /** As written, an add keeps them distinct exactly when the sender is in no slot but the one overwritten. */
  lemma AsWrittenKeepsDistinctExactlyWhen(r: Ring, header: Header, announce: Announce)
    requires Valid(r) && Distinct(r)
    ensures Distinct(Added(r, header, announce, AsWritten))
            <==> forall k | 0 <= k < r.count && k != r.i :: r.slots[k].identity != header.source
  {
    var r' := Added(r, header, announce, AsWritten);
    assert r'.slots[r.i].identity == header.source && r.i < r'.count;
    forall k | 0 <= k < r.count && k != r.i
      ensures r'.slots[k].identity == r.slots[k].identity
    {
    }
  }

  /** An operation on the table between two start-ups of the count. */
  datatype Op = Add(header: Header, announce: Announce) | Select(best: nat)

  /** The ring after a reset and a sequence of adds and scans. */
  function After(slots: seq<Record>, stale: nat, ops: seq<Op>): (r: Ring)
    requires stale < |slots|
    ensures Valid(r) && |r.slots| == |slots|
  {
    if ops == [] then Ring(slots, 0, 0, stale) else
      var was := After(slots, stale, ops[..|ops| - 1]);
      match ops[|ops| - 1]
      case Add(header, announce) => Added(was, header, announce, AsWritten)
      case Select(best) => if best < was.count then was.(best := best) else was
  }

  /** An announce with its header. */
  datatype Entry = Entry(header: Header, announce: Announce)

  /** The announces, in order. */
  function Announced(ops: seq<Op>): seq<Entry> {
    if ops == [] then [] else
      var front, last := ops[..|ops| - 1], ops[|ops| - 1];
      if last.Add? then Announced(front) + [Entry(last.header, last.announce)] else Announced(front)
  }

  /** The record holds announce number `g`. */
  predicate Holds(record: Record, log: seq<Entry>, g: nat)
    requires g < |log|
  {
    record.identity == log[g].header.source && record.header == log[g].header && record.announce == log[g].announce
  }

  /** Slot `k` was taken by announce number `h`, and holds that one or a later one of the same sender. */
  ghost predicate Keeps(r: Ring, log: seq<Entry>, k: nat, h: nat)
    requires k < |r.slots| && h < |log|
  {
    exists g: nat :: h <= g < |log| && log[g].header.source == log[h].header.source && Holds(r.slots[k], log, g)
  }

  /** As written, every announce takes a slot of its own: slot h modulo the capacity was taken by announce number
      h, for the last announces up to the capacity, however often one sender occurs among them, and holds that
      announce or a later one of its sender; the slot taken last holds the last announce. */
  ghost predicate IsLog(r: Ring, log: seq<Entry>)
    requires Valid(r)
  {
    var n := |r.slots|;
    && r.count == Min(|log|, n) && r.i == |log| % n
    && (forall h | 0 <= h < |log| && h >= |log| - n :: h % n < n && Keeps(r, log, h % n, h))
    && (log != [] ==> var last := |log| - 1; last % n < n && Holds(r.slots[last % n], log, last))
  }

  lemma {:induction false} TableIsLog(slots: seq<Record>, stale: nat, ops: seq<Op>)
    requires stale < |slots|
    ensures IsLog(After(slots, stale, ops), Announced(ops))
  {
    if ops != [] {
      var front, last := ops[..|ops| - 1], ops[|ops| - 1];
      TableIsLog(slots, stale, front);
      if last.Add? {
        AddExtendsLog(After(slots, stale, front), Announced(front), last.header, last.announce);
      } else if last.best < After(slots, stale, front).count {
        SelectKeepsLog(After(slots, stale, front), Announced(front), last.best);
      }
    }
  }

  lemma SelectKeepsLog(r: Ring, log: seq<Entry>, best: nat)
    requires Valid(r) && IsLog(r, log) && best < |r.slots|
    ensures IsLog(r.(best := best), log)
  {
    forall h | 0 <= h < |log| && h >= |log| - |r.slots|
      ensures h % |r.slots| < |r.slots| && Keeps(r.(best := best), log, h % |r.slots|, h)
    {
      assert Keeps(r, log, h % |r.slots|, h);
    }
  }

  lemma AddExtendsLog(r: Ring, log: seq<Entry>, header: Header, announce: Announce)
    requires Valid(r) && IsLog(r, log)
    ensures IsLog(Added(r, header, announce, AsWritten), log + [Entry(header, announce)])
  {
    var n, t := |r.slots|, |log|;
    var r', log' := Added(r, header, announce, AsWritten), log + [Entry(header, announce)];
    SuccessorModulo(t, n);
    assert Holds(r'.slots[r.i], log', t);
    forall h | 0 <= h <= t && h >= t + 1 - n
      ensures h % n < n && Keeps(r', log', h % n, h)
    {
      if h < t {
        ModuloDiffers(h, t, n);
        SlotKeeps(r, log, header, announce, h % n, h);
      }
    }
    hide Added, Keeps, Holds;
  }

  /** An addition leaves a slot but the one it takes as it is, or brings it up to date for its own sender. */
  lemma SlotKeeps(r: Ring, log: seq<Entry>, header: Header, announce: Announce, k: nat, h: nat)
    requires Valid(r) && k < |r.slots| && k != r.i && h < |log| && Keeps(r, log, k, h)
    ensures Keeps(Added(r, header, announce, AsWritten), log + [Entry(header, announce)], k, h)
  {
    var log' := log + [Entry(header, announce)];
    var r' := Added(r, header, announce, AsWritten);
    var g: nat :| h <= g < |log| && log[g].header.source == log[h].header.source && Holds(r.slots[k], log, g);
    if r'.slots[k] == r.slots[k] {
      assert Holds(r'.slots[k], log', g);
    } else {
      assert r.slots[k].identity == header.source;
      assert Holds(r'.slots[k], log', |log|);
    }
  }

  lemma SuccessorModulo(t: nat, n: nat)
    requires n > 0
    ensures (t + 1) % n == (t % n + 1) % n
  {
    NextIndex(t % n, n);
    ModuloShift(t, n, t / n);
    if t % n + 1 == n {
      ModuloShift(t + 1, n, t / n + 1);
    } else {
      ModuloShift(t + 1, n, t / n);
    }
  }

  lemma ModuloDiffers(h: nat, t: nat, n: nat)
    requires n > 0 && t - n < h < t
    ensures h % n != t % n && h % n < n
  {
    var q := h / n;
    if h % n == t % n {
      assert t - h == (t / n - q) * n;
      if t / n - q >= 1 {
        MulLe(1, t / n - q, n);
      } else {
        MulLe(t / n - q, 0, n);
      }
    }
  }

  /** So as many announces in a row from one sender as there are slots put every other sender out. */
  lemma OneSenderFillsTable(slots: seq<Record>, stale: nat, ops: seq<Op>, id: PortIdentity)
    requires stale < |slots| <= |Announced(ops)|
    requires forall h | |Announced(ops)| - |slots| <= h < |Announced(ops)| :: Announced(ops)[h].header.source == id
    ensures var r := After(slots, stale, ops);
            r.count == |slots| && forall k | 0 <= k < |slots| :: r.slots[k].identity == id
  {
    TableIsLog(slots, stale, ops);
    var n, t := |slots|, |Announced(ops)|;
    forall k | 0 <= k < n
      ensures After(slots, stale, ops).slots[k].identity == id
    {
      var h := NumberOf(k, t, n);
      assert Keeps(After(slots, stale, ops), Announced(ops), k, h);
    }
  }

  /** The number of the announce that took slot `k`. */
  lemma NumberOf(k: nat, t: nat, n: nat) returns (h: nat)
    requires k < n <= t
    ensures t - n <= h < t && h % n == k
  {
    var q, m := t / n, t % n;
    assert t == q * n + m;
    if k < m {
      h := q * n + k;
      ModuloShift(h, n, q);
    } else {
      MulLe(1, q, n) by { if q < 1 { MulLe(q, 0, n); } }
      h := (q - 1) * n + k;
      assert (q - 1) * n == q * n - n;
      ModuloShift(h, n, q - 1);
    }
  }
}
