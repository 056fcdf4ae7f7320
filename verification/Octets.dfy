/** Big-endian fields in an octet buffer: writing a field and reading it back. */
module Octets {
  import opened Words
  import opened Messages

  type Octets = seq<Octet>

  // ----- Numbers -----

  function U16(s: Octets): int
    requires |s| == 2
  {
    var high: int, low: int := s[0], s[1];
    high * 256 + low
  }

  function U32(s: Octets): int
    requires |s| == 4
  {
    U16(s[..2]) * TWO16 + U16(s[2..])
  }

  function S16(s: Octets): int
    requires |s| == 2
  {
    Wrap16(U16(s))
  }

  lemma OctetsOf16(x: int)
    ensures 0 <= x % TWO16 / 256 < 256 && x % TWO16 / 256 * 256 + x % 256 == x % TWO16
  {
    var r, q := x % TWO16, x / TWO16;
    ModuloShift(x, 256, r / 256 + 256 * q);
  }

  /** The low 16 bits of a number, high octet first. */
  function Big16(x: int): (s: Octets)
    ensures |s| == 2 && U16(s) == x % TWO16
  {
    OctetsOf16(x);
    [x % TWO16 / 256, x % 256]
  }

  /** The low 32 bits of a number, high octet first. */
  function Big32(x: int): (s: Octets)
    ensures |s| == 4 && U32(s) == x % TWO32
  {
    var s := Big16(x / TWO16) + Big16(x);
    assert s[..2] == Big16(x / TWO16) && s[2..] == Big16(x);
    s
  }

  lemma S16RoundTrip(x: int)
    ensures S16(Big16(x)) == Wrap16(x)
  {
    Wrap16OfRemainder(x, x / TWO16);
    hide Big16, U16, Wrap16;
  }

  lemma Wrap16OfRemainder(x: int, k: int)
    ensures Wrap16(x - k * TWO16) == Wrap16(x)
  {
    var r := (x + 0x8000) % TWO16;
    ModuloShift(x - k * TWO16 + 0x8000, TWO16, (x + 0x8000) / TWO16 - k);
  }

  function FromOctet(o: Octet): int { if o < 128 then o else o - 256 }

  /** The low 8 bits of a number. */
  function ToOctet(x: int): (o: Octet)
    ensures -128 <= x < 128 ==> FromOctet(o) == x
    ensures 0 <= x < 256 ==> o == x
  {
    x % 256
  }

  /** A correction field as the receiver assembles it: the high word shifted up, the low word added. */
  function Correction(high: Octets, low: Octets): int
    requires |high| == 4 == |low|
  {
    Wrap64(Wrap64(U32(high) * TWO32) + U32(low))
  }

  /** All 64 bits of a correction survive, sign included. */
  lemma CorrectionRoundTrip(x: int)
    requires FitsS64(x)
    ensures Correction(Big32(x / TWO32), Big32(x)) == x
  {
    var q, r := x / TWO32, x % TWO32;
    assert x == q * TWO32 + r && -TWO31 <= q < TWO31;
    assert q % TWO32 == if q >= 0 then q else q + TWO32;
  }

  // ----- Fields -----

  function Read(buf: Octets, from: nat, n: nat): (s: Octets)
    requires from + n <= |buf|
    ensures |s| == n
  {
    buf[from..from + n]
  }

  function Put(buf: Octets, at: nat, s: Octets): (buf': Octets)
    requires at + |s| <= |buf|
    ensures |buf'| == |buf|
  {
    buf[..at] + s + buf[at + |s|..]
  }

  lemma ReadOfPut(buf: Octets, at: nat, s: Octets, from: nat, n: nat)
    requires at + |s| <= |buf| && from + n <= |buf|
    ensures from + n <= at || at + |s| <= from ==> Read(Put(buf, at, s), from, n) == Read(buf, from, n)
    ensures at <= from && from + n <= at + |s| ==> Read(Put(buf, at, s), from, n) == s[from - at..from - at + n]
    ensures from == at && n == |s| ==> Read(Put(buf, at, s), from, n) == s
  {
    var buf' := Put(buf, at, s);
    assert forall i | 0 <= i < |buf| :: buf'[i] == if at <= i < at + |s| then s[i - at] else buf[i];
  }

  /** The same for all whole fields at once. */
  lemma ReadsOfPuts()
    ensures forall buf: Octets, at: nat, s: Octets, from: nat, n: nat {:trigger Read(Put(buf, at, s), from, n)} ::
              at + |s| <= |buf| && from + n <= |buf| && (from + n <= at || at + |s| <= from)
              ==> Read(Put(buf, at, s), from, n) == Read(buf, from, n)
    ensures forall buf: Octets, at: nat, s: Octets, n: nat {:trigger Read(Put(buf, at, s), at, n)} ::
              at + |s| <= |buf| && n == |s| ==> Read(Put(buf, at, s), at, n) == s
  {
    forall buf: Octets, at: nat, s: Octets, from: nat, n: nat | at + |s| <= |buf| && from + n <= |buf|
      ensures from + n <= at || at + |s| <= from ==> Read(Put(buf, at, s), from, n) == Read(buf, from, n)
      ensures from == at && n == |s| ==> Read(Put(buf, at, s), from, n) == s
    {
      ReadOfPut(buf, at, s, from, n);
    }
  }

  /** Writes octets into a buffer, in place. */
  method Store(buf: array<Octet>, at: nat, s: Octets)
    requires at + |s| <= buf.Length
    modifies buf
    ensures buf[..] == Put(old(buf[..]), at, s)
  {
    var k := 0;
    while k < |s|
      invariant 0 <= k <= |s|
      invariant buf[..] == Put(old(buf[..]), at, s[..k])
    {
      buf[at + k] := s[k];
      k := k + 1;
    }
    assert s[..k] == s;
  }
}
