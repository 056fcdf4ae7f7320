/** What a receiver unpacks after any sequence of packs into the one buffer of msg.c. */
module CodecRuns {
  import opened Words
  import opened Messages
  import opened Octets
  import opened Arith
  import opened Codec

  // ----- What a message sets in the header -----

  function TypeOf(p: Packet): Octet {
    match p
    case AnnouncePacket(_, _, _) => ANNOUNCE
    case SyncPacket(_, _, _) => SYNC
    case FollowUpPacket(_, _, _) => FOLLOW_UP
    case DelayReqPacket(_, _) => DELAY_REQ
    case DelayRespPacket(_, _, _) => DELAY_RESP
    case PDelayReqPacket(_, _) => PDELAY_REQ
    case PDelayRespPacket(_, _) => PDELAY_RESP
    case PDelayRespFollowUpPacket(_, _) => PDELAY_RESP_FOLLOW_UP
  }

  function LengthOf(p: Packet): int {
    if p.AnnouncePacket? then 64
    else if p.SyncPacket? || p.FollowUpPacket? || p.DelayReqPacket? then 44
    else 54
  }

  /** The number the message carries: its own, its Sync's, or its request's. */
  function SequenceOf(p: Packet): int {
    match p
    case AnnouncePacket(id, _, _) => id
    case SyncPacket(id, _, _) => id
    case FollowUpPacket(sent, _, _) => sent - 1
    case DelayReqPacket(id, _) => id
    case DelayRespPacket(request, _, _) => request.sequenceId
    case PDelayReqPacket(id, _) => id
    case PDelayRespPacket(request, _) => request.sequenceId
    case PDelayRespFollowUpPacket(request, _) => request.sequenceId
  }

  function ControlOf(p: Packet): Octet {
    if p.SyncPacket? then CTRL_SYNC
    else if p.DelayReqPacket? then CTRL_DELAY_REQ
    else if p.FollowUpPacket? then CTRL_FOLLOW_UP
    else if p.DelayRespPacket? then CTRL_DELAY_RESP
    else CTRL_OTHER
  }

  function LogOf(p: Packet): Octet {
    match p
    case AnnouncePacket(_, log, _) => ToOctet(log)
    case SyncPacket(_, log, _) => ToOctet(log)
    case FollowUpPacket(_, log, _) => ToOctet(log)
    case DelayRespPacket(_, log, _) => ToOctet(log)
    case _ => 0x7F
  }

  /** Announces and FollowUps leave the correction field as they find it. */
  predicate KeepsCorrection(p: Packet) { p.AnnouncePacket? || p.FollowUpPacket? }

  function CorrectionOf(p: Packet): int {
    match p
    case DelayRespPacket(request, _, _) => request.correction
    case PDelayRespFollowUpPacket(request, _) => request.correction
    case _ => 0
  }

  predicate Packable(p: Packet) { FitsS64(CorrectionOf(p)) }

  /** The header a receiver sees, from the one it would have seen before. */
  function HeaderAfter(h: Header, p: Packet): Header {
    h.(messageType := TypeOf(p), messageLength := LengthOf(p), sequenceId := Wrap16(SequenceOf(p)),
       controlField := ControlOf(p), logMessageInterval := FromOctet(LogOf(p)),
       correction := if KeepsCorrection(p) then h.correction else CorrectionOf(p))
  }

  // ----- One pack -----

  /** Neither the message part of the header nor the body: what no message touches, and the correction. */
  predicate Elsewhere(from: nat, n: nat) { (from == 1 && n == 1) || (4 <= from && from + n <= 30) }

  lemma HeaderFields(buf: Buffer, messageType: Octet, length: int, sequenceId: int, control: Octet, log: Octet)
    requires messageType < 16
    ensures var b := PutHeader(buf, messageType, length, sequenceId, control, log);
            && At(b, 0) == Typed(At(buf, 0), messageType)
            && Read(b, 2, 2) == Big16(length) && Read(b, 30, 2) == Big16(sequenceId)
            && At(b, 32) == control && At(b, 33) == log
            && forall from: nat, n: nat {:trigger Read(b, from, n)} :: Elsewhere(from, n)
                 ==> Read(b, from, n) == Read(buf, from, n)
  {
    ReadsOfPuts();
    hide Put, Read, Big16, Typed;
  }

  lemma HeaderOfPutHeader(buf: Buffer, messageType: Octet, length: int, sequenceId: int, control: Octet, log: Octet)
    requires messageType < 16
    ensures UnpackHeader(PutHeader(buf, messageType, length, sequenceId, control, log)) ==
            UnpackHeader(buf).(messageType := messageType, messageLength := Wrap16(length),
              sequenceId := Wrap16(sequenceId), controlField := control, logMessageInterval := FromOctet(log))
  {
    hide PutHeader, Read, Big16, S16, Typed, Correction;
    HeaderFields(buf, messageType, length, sequenceId, control, log);
    TypedNibbles(At(buf, 0), messageType);
    S16RoundTrip(length);
    S16RoundTrip(sequenceId);
  }

  lemma HeaderOfPutCorrection(buf: Buffer, c: int)
    requires FitsS64(c)
    ensures UnpackHeader(PutCorrection(buf, c)) == UnpackHeader(buf).(correction := c)
  {
    CorrectionRoundTrip(c);
    ReadsOfPuts();
    hide Put, Read, Big32, S16, Correction;
  }

  lemma HeaderOfPutZeros(buf: Buffer)
    ensures UnpackHeader(Put(buf, 8, ZEROS8)) == UnpackHeader(buf).(correction := 0)
  {
    assert Correction(ZEROS8[0..4], ZEROS8[4..8]) == 0;
    ReadOfPut(buf, 8, ZEROS8, 8, 4);
    ReadOfPut(buf, 8, ZEROS8, 12, 4);
    ReadsOfPuts();
    hide Put, Read, S16, Correction;
  }

  lemma TypedNibbles(o: Octet, messageType: Octet)
    requires messageType < 16
    ensures Typed(o, messageType) % 16 == messageType && Typed(o, messageType) / 16 == o / 16
  {
  }

  /** The header of a buffer whose first 34 octets are those of another is the same. */
  lemma BodyKeepsHeader(b: Buffer, c: Buffer)
    requires c[..34] == b[..34]
    ensures UnpackHeader(c) == UnpackHeader(b)
  {
    forall from: nat, n: nat | from + n <= 34
      ensures Read(c, from, n) == Read(b, from, n)
    {
      assert forall i | 0 <= i < 34 :: c[i] == c[..34][i] == b[..34][i] == b[i];
    }
    hide Read, S16, Correction;
  }

  lemma PutInBody(buf: Buffer, at: nat, s: Octets)
    requires 34 <= at && at + |s| <= |buf|
    ensures Put(buf, at, s)[..34] == buf[..34]
  {
  }

  lemma TimestampInBody(buf: Buffer, t: Timestamp)
    ensures PutTimestamp(buf, t)[..34] == buf[..34]
  {
    var b0 := Put(buf, 34, Big16(t.secondsMsb));
    var b1 := Put(b0, 36, Big32(t.secondsLsb));
    PutInBody(buf, 34, Big16(t.secondsMsb));
    PutInBody(b0, 36, Big32(t.secondsLsb));
    PutInBody(b1, 40, Big32(t.nanoseconds));
    hide Put, Big16, Big32;
  }

  lemma RequesterInBody(buf: Buffer, id: PortIdentity)
    ensures PutRequester(buf, id)[..34] == buf[..34]
  {
    PutInBody(buf, 44, id.clockIdentity);
    PutInBody(Put(buf, 44, id.clockIdentity), 52, Big16(id.portNumber));
    hide Put, Big16;
  }

  lemma AnnounceInBody(buf: Buffer, a: Announce)
    ensures PutAnnounce(buf, a)[..34] == buf[..34]
  {
    forall b: Buffer, at: nat, s: Octets | 34 <= at && at + |s| <= |b|
      ensures Put(b, at, s)[..34] == b[..34]
    {
      PutInBody(b, at, s);
    }
    hide Put, Big16, ToOctet;
  }

  /** A packed message shows its own fields in the header; version, domain, flags, sender stay, and so does
      the correction under an Announce or a FollowUp. */
  lemma HeaderOfPack(buf: Buffer, p: Packet)
    requires Packable(p)
    ensures UnpackHeader(Pack(buf, p)) == HeaderAfter(UnpackHeader(buf), p)
  {
    hide UnpackHeader, PutHeader, PutCorrection, PutTimestamp, PutRequester, PutAnnounce, Put, ToOctet, FromOctet;
    HeaderOfPutHeader(buf, TypeOf(p), LengthOf(p), SequenceOf(p), ControlOf(p), LogOf(p));
    var b := PutHeader(buf, TypeOf(p), LengthOf(p), SequenceOf(p), ControlOf(p), LogOf(p));
    HeaderOfPutZeros(b);
    HeaderOfPutCorrection(b, CorrectionOf(p));
    var c := if KeepsCorrection(p) then b
             else if p.DelayRespPacket? || p.PDelayRespFollowUpPacket? then PutCorrection(b, CorrectionOf(p))
             else Put(b, 8, ZEROS8);
    BodyInBody(c, p);
    BodyKeepsHeader(c, Pack(buf, p));
  }

  /** What a message puts behind the header. */
  function PutBody(b: Buffer, p: Packet): (c: Buffer) {
    match p
    case AnnouncePacket(_, _, body) => PutAnnounce(b, body)
    case SyncPacket(_, _, t) => PutTimestamp(b, t)
    case FollowUpPacket(_, _, t) => PutTimestamp(b, t)
    case DelayReqPacket(_, t) => PutTimestamp(b, t)
    case DelayRespPacket(request, _, t) => PutRequester(PutTimestamp(b, t), request.source)
    case PDelayReqPacket(_, t) => Put(PutTimestamp(b, t), 44, ZEROS10)
    case PDelayRespPacket(request, t) => PutRequester(PutTimestamp(b, t), request.source)
    case PDelayRespFollowUpPacket(request, t) => PutRequester(PutTimestamp(b, t), request.source)
  }

  lemma BodyInBody(b: Buffer, p: Packet)
    ensures PutBody(b, p)[..34] == b[..34]
  {
    hide PutTimestamp, PutRequester, PutAnnounce, Put;
    match p {
      case AnnouncePacket(_, _, body) => AnnounceInBody(b, body);
      case SyncPacket(_, _, t) => TimestampInBody(b, t);
      case FollowUpPacket(_, _, t) => TimestampInBody(b, t);
      case DelayReqPacket(_, t) => TimestampInBody(b, t);
      case DelayRespPacket(request, _, t) =>
        TimestampInBody(b, t);
        RequesterInBody(PutTimestamp(b, t), request.source);
      case PDelayReqPacket(_, t) =>
        TimestampInBody(b, t);
        PutInBody(PutTimestamp(b, t), 44, ZEROS10);
      case PDelayRespPacket(request, t) =>
        TimestampInBody(b, t);
        RequesterInBody(PutTimestamp(b, t), request.source);
      case PDelayRespFollowUpPacket(request, t) =>
        TimestampInBody(b, t);
        RequesterInBody(PutTimestamp(b, t), request.source);
    }
  }

  // ----- Bodies -----

  lemma TimestampRoundTrip(buf: Buffer, t: Timestamp)
    requires ValidTimestamp(t)
    ensures UnpackTimestamp(PutTimestamp(buf, t)) == t
  {
    ReadsOfPuts();
    hide Put, Read, Big16, Big32, U16, U32;
  }

  lemma RequesterRoundTrip(buf: Buffer, id: PortIdentity)
    requires FitsS16(id.portNumber)
    ensures UnpackRequester(PutRequester(buf, id)) == id
    ensures UnpackTimestamp(PutRequester(buf, id)) == UnpackTimestamp(buf)
  {
    S16RoundTrip(id.portNumber);
    ReadsOfPuts();
    hide Put, Read, Big16, S16, U16, U32;
  }

  /** The fields of an announce fit the octets they travel in. */
  predicate ValidAnnounce(a: Announce) {
    && FitsS16(a.currentUtcOffset) && FitsS16(a.stepsRemoved) && FitsS16(a.quality.offsetScaledLogVariance)
    && 0 <= a.priority1 < 256 && 0 <= a.priority2 < 256 && 0 <= a.timeSource < 256
    && 0 <= a.quality.clockClass < 256 && 0 <= a.quality.clockAccuracy < 256
  }

  lemma AnnounceFields(buf: Buffer, a: Announce)
    ensures var b := PutAnnounce(buf, a);
            && Read(b, 34, 2) == ZEROS10[0..2] && Read(b, 36, 4) == ZEROS10[2..6] && Read(b, 40, 4) == ZEROS10[6..10]
            && Read(b, 44, 2) == Big16(a.currentUtcOffset) && At(b, 47) == ToOctet(a.priority1)
            && At(b, 48) == ToOctet(a.quality.clockClass) && At(b, 49) == ToOctet(a.quality.clockAccuracy)
            && Read(b, 50, 2) == Big16(a.quality.offsetScaledLogVariance) && At(b, 52) == ToOctet(a.priority2)
            && Read(b, 53, 8) == a.grandmasterIdentity && Read(b, 61, 2) == Big16(a.stepsRemoved)
            && At(b, 63) == ToOctet(a.timeSource)
  {
    ReadOfPut(buf, 34, ZEROS10, 34, 2);
    ReadOfPut(buf, 34, ZEROS10, 36, 4);
    ReadOfPut(buf, 34, ZEROS10, 40, 4);
    ReadsOfPuts();
    hide Put, Read, Big16, ToOctet;
  }

  lemma ZerosDecode()
    ensures U16(ZEROS10[0..2]) == 0 && U32(ZEROS10[2..6]) == 0 && U32(ZEROS10[6..10]) == 0
  {
  }

  /** An announce comes back as it went, but for its origin timestamp, which travels as zero. */
  lemma AnnounceRoundTrip(buf: Buffer, a: Announce)
    requires ValidAnnounce(a)
    ensures UnpackAnnounce(PutAnnounce(buf, a)) == a.(originTimestamp := Timestamp(0, 0, 0))
  {
    AnnounceFields(buf, a);
    S16RoundTrip(a.currentUtcOffset);
    S16RoundTrip(a.stepsRemoved);
    S16RoundTrip(a.quality.offsetScaledLogVariance);
    ZerosDecode();
    hide PutAnnounce, Read, Big16, S16, U16, U32, ToOctet, FromOctet, Wrap16;
  }

  lemma PutAfterTimestamp(buf: Buffer)
    ensures UnpackTimestamp(Put(buf, 44, ZEROS10)) == UnpackTimestamp(buf)
  {
    ReadsOfPuts();
    hide Put, Read, U16, U32;
  }

  /** The body a receiver unpacks is the one packed. */
  ghost predicate CarriesBody(buf: Buffer, p: Packet) {
    match p
    case AnnouncePacket(_, _, body) => UnpackAnnounce(buf) == body.(originTimestamp := Timestamp(0, 0, 0))
    case SyncPacket(_, _, t) => UnpackTimestamp(buf) == t
    case FollowUpPacket(_, _, t) => UnpackTimestamp(buf) == t
    case DelayReqPacket(_, t) => UnpackTimestamp(buf) == t
    case DelayRespPacket(request, _, t) => UnpackTimestamp(buf) == t && UnpackRequester(buf) == request.source
    case PDelayReqPacket(_, t) => UnpackTimestamp(buf) == t
    case PDelayRespPacket(request, t) => UnpackTimestamp(buf) == t && UnpackRequester(buf) == request.source
    case PDelayRespFollowUpPacket(request, t) => UnpackTimestamp(buf) == t && UnpackRequester(buf) == request.source
  }

  predicate ValidPacket(p: Packet) {
    && Packable(p)
    && (p.AnnouncePacket? ==> ValidAnnounce(p.body))
    && (!p.AnnouncePacket? ==> ValidTimestamp(p.timestamp))
    && (p.DelayRespPacket? || p.PDelayRespPacket? || p.PDelayRespFollowUpPacket?
        ==> FitsS16(p.request.source.portNumber))
  }

  lemma BodyOfPut(b: Buffer, p: Packet)
    requires ValidPacket(p)
    ensures CarriesBody(PutBody(b, p), p)
  {
    hide PutTimestamp, PutRequester, PutAnnounce, Put, UnpackTimestamp, UnpackRequester, UnpackAnnounce;
    if p.AnnouncePacket? {
      AnnounceRoundTrip(b, p.body);
    } else {
      TimestampRoundTrip(b, p.timestamp);
      PutAfterTimestamp(PutTimestamp(b, p.timestamp));
      if p.DelayRespPacket? || p.PDelayRespPacket? || p.PDelayRespFollowUpPacket? {
        RequesterRoundTrip(PutTimestamp(b, p.timestamp), p.request.source);
      }
    }
  }

  lemma BodyOfPack(buf: Buffer, p: Packet)
    requires ValidPacket(p)
    ensures CarriesBody(Pack(buf, p), p)
  {
    hide PutHeader, PutTimestamp, PutRequester, PutAnnounce, PutCorrection, Put, CarriesBody, ToOctet;
    var b := PutHeader(buf, TypeOf(p), LengthOf(p), SequenceOf(p), ControlOf(p), LogOf(p));
    var c := if KeepsCorrection(p) then b
             else if p.DelayRespPacket? || p.PDelayRespFollowUpPacket? then PutCorrection(b, CorrectionOf(p))
             else Put(b, 8, ZEROS8);
    BodyOfPut(c, p);
    assert PutBody(c, p) == Pack(buf, p);
  }

  // ----- Runs -----

  /** The buffer after the start-up header and a sequence of messages. */
  function Run(start: Buffer, s: Station, ps: seq<Packet>): (b: Buffer) {
    if ps == [] then PackHeader(start, s) else Pack(Run(start, s, ps[..|ps| - 1]), ps[|ps| - 1])
  }

  /** The correction of the last message that wrote one. */
  function LastCorrection(ps: seq<Packet>): int {
    if ps == [] then 0
    else if KeepsCorrection(ps[|ps| - 1]) then LastCorrection(ps[..|ps| - 1])
    else CorrectionOf(ps[|ps| - 1])
  }

  /** What every header of a station says, whatever the message. */
  predicate FromStation(h: Header, s: Station, start: Buffer) {
    && h.transportSpecific == 8 && h.versionPTP == s.version % 16 && h.domainNumber == s.domain
    && h.flag0 == (if s.twoStep then TWO_STEP else At(start, 6)) && h.flag1 == At(start, 7)
    && h.source == PortIdentity(s.port.clockIdentity, Wrap16(s.port.portNumber))
  }

  lemma StartFields(start: Buffer, s: Station)
    ensures var b := PackHeader(start, s);
            && At(b, 0) == 0x80 && At(b, 1) == s.version && At(b, 4) == s.domain
            && At(b, 6) == (if s.twoStep then TWO_STEP else At(start, 6)) && At(b, 7) == At(start, 7)
            && Read(b, 8, 4) == ZEROS8[0..4] && Read(b, 12, 4) == ZEROS8[4..8]
            && Read(b, 20, 8) == s.port.clockIdentity && Read(b, 28, 2) == Big16(s.port.portNumber)
  {
    var b0 := Put(Put(Put(start, 0, [0x80]), 1, [s.version]), 4, [s.domain]);
    var b1 := if s.twoStep then Put(b0, 6, [TWO_STEP]) else b0;
    ReadOfPut(b1, 8, ZEROS8, 8, 4);
    ReadOfPut(b1, 8, ZEROS8, 12, 4);
    ReadsOfPuts();
    hide Put, Read, Big16;
  }

  lemma StartHeader(start: Buffer, s: Station)
    ensures FromStation(UnpackHeader(PackHeader(start, s)), s, start)
    ensures UnpackHeader(PackHeader(start, s)).correction == 0
  {
    StartFields(start, s);
    S16RoundTrip(s.port.portNumber);
    assert Correction(ZEROS8[0..4], ZEROS8[4..8]) == 0;
    hide PackHeader, Read, Big16, S16, Correction;
  }

  lemma {:induction false} HeaderOfRun(start: Buffer, s: Station, ps: seq<Packet>)
    requires forall i | 0 <= i < |ps| :: ValidPacket(ps[i])
    ensures var h := UnpackHeader(Run(start, s, ps)); FromStation(h, s, start) && h.correction == LastCorrection(ps)
  {
    hide UnpackHeader, PackHeader, Pack, FromOctet;
    if ps == [] {
      StartHeader(start, s);
    } else {
      HeaderOfRun(start, s, ps[..|ps| - 1]);
      HeaderOfPack(Run(start, s, ps[..|ps| - 1]), ps[|ps| - 1]);
    }
  }

  /** After any sequence of packs into the one buffer, a receiver unpacks the last message: its type,
      length, number, control field and interval, its body, and the sender's version, domain, flags and
      identity; the correction is that of the last message that wrote one. */
  lemma ReceiverSeesLastMessage(start: Buffer, s: Station, ps: seq<Packet>, p: Packet)
    requires (forall i | 0 <= i < |ps| :: ValidPacket(ps[i])) && ValidPacket(p)
    ensures var b := Run(start, s, ps + [p]);
            var h := UnpackHeader(b);
            && CarriesBody(b, p) && FromStation(h, s, start)
            && h.messageType == TypeOf(p) && h.messageLength == LengthOf(p)
            && h.sequenceId == Wrap16(SequenceOf(p)) && h.controlField == ControlOf(p)
            && h.logMessageInterval == FromOctet(LogOf(p))
            && h.correction == if KeepsCorrection(p) then LastCorrection(ps) else CorrectionOf(p)
  {
    hide UnpackHeader, PackHeader, Pack, FromOctet, CarriesBody;
    assert (ps + [p])[..|ps|] == ps;
    HeaderOfRun(start, s, ps);
    HeaderOfPack(Run(start, s, ps), p);
    BodyOfPack(Run(start, s, ps), p);
  }

  /** A FollowUp is packed after its Sync, when the counter has moved on: it carries the Sync's number,
      across the wrap of the counter, and a zero correction whatever was sent before. */
  lemma FollowUpMatchesSync(start: Buffer, s: Station, ps: seq<Packet>, id: int, log: int, t: Timestamp, u: Timestamp)
    requires forall i | 0 <= i < |ps| :: ValidPacket(ps[i])
    requires FitsS16(id) && ValidTimestamp(t) && ValidTimestamp(u)
    ensures var sync := UnpackHeader(Run(start, s, ps + [SyncPacket(id, log, t)]));
            var qs := ps + [SyncPacket(id, log, t)];
            var followUp := UnpackHeader(Run(start, s, qs + [FollowUpPacket(Wrap16(id + 1), log, u)]));
            followUp.sequenceId == sync.sequenceId == id && followUp.correction == 0
  {
    hide UnpackHeader, Run, FromOctet, CarriesBody;
    ReceiverSeesLastMessage(start, s, ps, SyncPacket(id, log, t));
    var qs := ps + [SyncPacket(id, log, t)];
    assert qs[..|ps|] == ps;
    ReceiverSeesLastMessage(start, s, qs, FollowUpPacket(Wrap16(id + 1), log, u));
  }

  /** An Announce has no such luck: it goes out with the correction of the last response sent before it. */
  lemma AnnounceCarriesStaleCorrection(start: Buffer, s: Station, request: Header, log: int, t: Timestamp, id: int,
                                       a: Announce)
    requires FitsS64(request.correction) && FitsS16(request.source.portNumber) && ValidTimestamp(t) && ValidAnnounce(a)
    ensures UnpackHeader(Run(start, s, [DelayRespPacket(request, log, t)] + [AnnouncePacket(id, log, a)])).correction
            == request.correction
  {
    hide UnpackHeader, Run, FromOctet, CarriesBody;
    var ps := [DelayRespPacket(request, log, t)];
    ReceiverSeesLastMessage(start, s, ps, AnnouncePacket(id, log, a));
    assert ps[..0] == [];
  }
}
