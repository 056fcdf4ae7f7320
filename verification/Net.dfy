/** The packet rings and the chain copy of net.c, one callback or call at a time. */
module Net {
  import opened Types
  import opened Messages
  import opened Octets

  const PBUF_QUEUE_SIZE: nat := 4
  const PACKET_SIZE: nat := 300

  /** A chain of buffers; the head's total length is that of all its octets. */
  datatype Pbuf = Pbuf(payload: Octets, next: Option<Pbuf>)

  function Bytes(p: Pbuf): Octets {
    p.payload + (match p.next case None => [] case Some(q) => Bytes(q))
  }

  /** No buffer is empty before the last octet: the copy loop reads an octet before it compares lengths. */
  predicate Solid(p: Pbuf) {
    Bytes(p) == [] || (p.payload != [] && (match p.next case None => true case Some(q) => Solid(q)))
  }

  /** The slots of a mailbox are the last ones before the head, in order around the ring. */
  predicate Behind(mailbox: seq<nat>, head: nat) {
    && head < PBUF_QUEUE_SIZE && |mailbox| <= PBUF_QUEUE_SIZE
    && forall k | 0 <= k < |mailbox| :: mailbox[k] == (head + PBUF_QUEUE_SIZE - |mailbox| + k) % PBUF_QUEUE_SIZE
  }

  /** The packets in the slots of a mailbox. */
  function Gather(slots: seq<Pbuf>, mailbox: seq<nat>, head: nat): (c: seq<Pbuf>)
    requires |slots| == PBUF_QUEUE_SIZE && Behind(mailbox, head)
    ensures |c| == |mailbox| && forall k | 0 <= k < |c| :: c[k] == slots[mailbox[k]]
  {
    if mailbox == [] then [] else [slots[mailbox[0]]] + Gather(slots, mailbox[1..], head)
  }

  /** A packet in the slot at the head of a ring that is not full joins the end. */
  lemma GatherOneMore(slots: seq<Pbuf>, mailbox: seq<nat>, head: nat, p: Pbuf)
    requires |slots| == PBUF_QUEUE_SIZE && Behind(mailbox, head) && |mailbox| < PBUF_QUEUE_SIZE
    ensures var next := if head + 1 == PBUF_QUEUE_SIZE then 0 else head + 1;
            && Behind(mailbox + [head], next)
            && Gather(slots[head := p], mailbox + [head], next) == Gather(slots, mailbox, head) + [p]
  {
    assert forall k | 0 <= k < |mailbox| :: mailbox[k] != head;
  }

  /** The ring of packet slots and the mailbox of slot numbers that hands them over. */
  class PacketQueue {
    const slots: array<Pbuf>
    var head: nat
    var mailbox: seq<nat>

    constructor (slots: array<Pbuf>)
      requires slots.Length == PBUF_QUEUE_SIZE
      ensures this.slots == slots && Valid() && Contents() == []
    {
      this.slots := slots;
      head, mailbox := 0, [];
    }

    predicate Valid()
      reads this
    {
      slots.Length == PBUF_QUEUE_SIZE && Behind(mailbox, head)
    }

    /** The packets waiting, first come first. */
    ghost function Contents(): (c: seq<Pbuf>)
      requires Valid()
      reads this, slots
      ensures |c| == |mailbox|
    {
      Gather(slots[..], mailbox, head)
    }

    /** Overwrites the slot at the head and offers it; when the mailbox is full the slot, which is still
        waiting, gets its packet back and the new one is dropped. */
    method Post(p: Pbuf) returns (accepted: bool)
      requires Valid()
      modifies this`head, this`mailbox, slots
      ensures Valid() && accepted == (|old(Contents())| < PBUF_QUEUE_SIZE)
      ensures Contents() == if accepted then old(Contents()) + [p] else old(Contents())
    {
      ghost var was := slots[..];
      if |mailbox| < PBUF_QUEUE_SIZE {
        GatherOneMore(was, mailbox, head, p);
      }
      hide Behind, Gather;
      var backup := slots[head];
      slots[head] := p;
      if |mailbox| == PBUF_QUEUE_SIZE {
        slots[head] := backup;
        assert slots[..] == was;
        return false;
      }
      assert slots[..] == was[head := p];
      mailbox := mailbox + [head];
      head := head + 1;
      if head == PBUF_QUEUE_SIZE {
        head := 0;
      }
      return true;
    }

    /** Takes the first waiting packet. */
    method Fetch() returns (packet: Option<Pbuf>)
      requires Valid()
      modifies this`mailbox
      ensures Valid()
      ensures packet == if old(Contents()) == [] then None else Some(old(Contents())[0])
      ensures Contents() == if old(Contents()) == [] then [] else old(Contents())[1..]
    {
      if mailbox == [] {
        return None;
      }
      packet := Some(slots[mailbox[0]]);
      mailbox := mailbox[1..];
    }

    /** Takes all waiting packets and forgets them. */
    method EmptyQueue()
      requires Valid()
      modifies this`mailbox
      ensures Valid() && Contents() == []
    {
      while mailbox != []
        invariant Valid()
        decreases |mailbox|
      {
        var _ := Fetch();
      }
    }
  }

  /** The reads of the copy loop, from octet `j` of a buffer on and with `left` octets to go, stay inside buffers. */
  predicate ReadsInside(p: Option<Pbuf>, j: nat, left: nat)
    decreases left
  {
    left == 0 ||
    (p.Some? && j < |p.value.payload| &&
     if j + 1 == |p.value.payload| then ReadsInside(p.value.next, 0, left - 1)
     else ReadsInside(p, j + 1, left - 1))
  }

  /** Within one buffer. */
  lemma {:induction false} ReadsToTheEnd(p: Pbuf, j: nat, left: nat)
    requires j < |p.payload| <= j + left
    ensures ReadsInside(Some(p), j, left) <==> ReadsInside(p.next, 0, left - (|p.payload| - j))
    decreases left
  {
    if j + 1 < |p.payload| {
      ReadsToTheEnd(p, j + 1, left - 1);
    }
  }

  /** The loop reads past the end of a buffer exactly when an empty one comes before the last octet. */
  lemma {:induction false} ReadsInsideExactlyWhen(p: Pbuf)
    ensures ReadsInside(Some(p), 0, |Bytes(p)|) <==> Solid(p)
  {
    if p.payload != [] {
      ReadsToTheEnd(p, 0, |Bytes(p)|);
      match p.next {
        case None =>
        case Some(q) => ReadsInsideExactlyWhen(q);
      }
    }
  }

  /** Where the copy stands: octets remain, and the next one is in this buffer; or none remain. */
  predicate Standing(whole: Octets, i: nat, pcopy: Option<Pbuf>, j: nat)
    requires i <= |whole|
  {
    match pcopy
    case None => j == 0 && whole[i..] == []
    case Some(p) =>
      && Solid(p) && whole[i..] == Bytes(p)[Min(j, |Bytes(p)|)..]
      && (if Bytes(p) == [] then j == 0 else j < |p.payload|)
  }

  function Min(a: nat, b: nat): nat { if a < b then a else b }

  /** The next octet of the whole is the next of the buffer, and what follows it follows there. */
  lemma NextOctet(whole: Octets, i: nat, pcopy: Option<Pbuf>, j: nat)
    requires i < |whole| && Standing(whole, i, pcopy, j)
    ensures pcopy.Some? && j < |pcopy.value.payload| && whole[i] == pcopy.value.payload[j]
    ensures if j + 1 == |pcopy.value.payload| then Standing(whole, i + 1, pcopy.value.next, 0)
            else Standing(whole, i + 1, pcopy, j + 1)
  {
    assert whole[i..] != [];
    var p := pcopy.value;
    assert whole[i] == whole[i..][0] == Bytes(p)[j];
    assert whole[i + 1..] == whole[i..][1..] == Bytes(p)[j + 1..];
    assert Bytes(p)[|p.payload|..] == match p.next case None => [] case Some(q) => Bytes(q);
  }

  /** Copies the octets of a chain into a buffer, one at a time; nothing is copied from a packet that is
      empty or too long. */
  method CopyChain(p: Pbuf, buf: array<Octet>) returns (length: nat)
    requires buf.Length == PACKET_SIZE && Solid(p)
    modifies buf
    ensures length == if |Bytes(p)| > PACKET_SIZE then 0 else |Bytes(p)|
    ensures buf[..length] == Bytes(p)[..length] && buf[length..] == old(buf[length..])
  {
    var total := |Bytes(p)|;
    if total > PACKET_SIZE || total == 0 {
      return 0;
    }
    var i, j, pcopy := 0, 0, Some(p);
    assert Standing(Bytes(p), i, pcopy, j);
    hide Bytes, Solid, Standing;
    while i < total
      invariant 0 <= i <= total && 0 <= j && Standing(Bytes(p), i, pcopy, j)
      invariant forall k | 0 <= k < i :: buf[k] == Bytes(p)[k]
      invariant forall k | i <= k < PACKET_SIZE :: buf[k] == old(buf[k])
    {
      NextOctet(Bytes(p), i, pcopy, j);
      buf[i] := pcopy.value.payload[j];
      j := j + 1;
      if j == |pcopy.value.payload| {
        pcopy := pcopy.value.next;
        j := 0;
      }
      i := i + 1;
    }
    length := total;
  }

  // ----- Histories -----

  datatype Op = Posted(packet: Pbuf) | Fetched

  /** What a run of posts and fetches has accepted, handed out and still holds. */
  datatype History = History(accepted: seq<Pbuf>, fetched: seq<Pbuf>, waiting: seq<Pbuf>)

  /** One operation, as `Post` and `Fetch` do it. */
  function Next(h: History, op: Op): History {
    match op
    case Posted(p) =>
      if |h.waiting| < PBUF_QUEUE_SIZE then h.(accepted := h.accepted + [p], waiting := h.waiting + [p]) else h
    case Fetched =>
      if h.waiting == [] then h else h.(fetched := h.fetched + [h.waiting[0]], waiting := h.waiting[1..])
  }

  function Play(ops: seq<Op>): History {
    if ops == [] then History([], [], []) else Next(Play(ops[..|ops| - 1]), ops[|ops| - 1])
  }

  /** Packets come out in the order they were accepted, none lost, doubled or made up. */
  lemma {:induction false} FirstInFirstOut(ops: seq<Op>)
    ensures var h := Play(ops); h.accepted == h.fetched + h.waiting && |h.waiting| <= PBUF_QUEUE_SIZE
  {
    if ops != [] {
      FirstInFirstOut(ops[..|ops| - 1]);
      var h := Play(ops[..|ops| - 1]);
      if h.waiting != [] {
        assert h.waiting == [h.waiting[0]] + h.waiting[1..];
      }
    }
  }

  lemma PlayOneMore(ops: seq<Op>, k: nat)
    requires k < |ops|
    ensures Play(ops[..k + 1]) == Next(Play(ops[..k]), ops[k])
  {
    assert ops[..k + 1][..k] == ops[..k];
  }

  /** Ring and mailbox play any run as the history says: whatever they accepted has come out, in order, or waits. */
  method PlayOnQueue(q: PacketQueue, ops: seq<Op>) returns (accepted: seq<Pbuf>, fetched: seq<Pbuf>)
    requires q.Valid() && q.Contents() == []
    modifies q`head, q`mailbox, q.slots
    ensures q.Valid() && History(accepted, fetched, q.Contents()) == Play(ops)
    ensures accepted == fetched + q.Contents() && |q.Contents()| <= PBUF_QUEUE_SIZE
  {
    accepted, fetched := [], [];
    var k := 0;
    while k < |ops|
      invariant 0 <= k <= |ops| && q.Valid()
      invariant History(accepted, fetched, q.Contents()) == Play(ops[..k])
    {
      PlayOneMore(ops, k);
      hide Play, Gather, Behind;
      match ops[k] {
        case Posted(p) =>
          var ok := q.Post(p);
          if ok {
            accepted := accepted + [p];
          }
        case Fetched =>
          var packet := q.Fetch();
          if packet.Some? {
            fetched := fetched + [packet.value];
          }
      }
      k := k + 1;
    }
    assert ops[..k] == ops;
    FirstInFirstOut(ops);
  }
}
