/** The message formats of msg.c, all packed into one reused buffer. */
module Codec {
  import opened Words
  import opened Messages
  import opened Octets
  import opened Arith

  const PACKET_SIZE: nat := 300

  const SYNC: Octet := 0
  const DELAY_REQ: Octet := 1
  const PDELAY_REQ: Octet := 2
  const PDELAY_RESP: Octet := 3
  const FOLLOW_UP: Octet := 8
  const DELAY_RESP: Octet := 9
  const PDELAY_RESP_FOLLOW_UP: Octet := 10
  const ANNOUNCE: Octet := 11

  const ANNOUNCE_LENGTH: int := 64
  const SYNC_LENGTH: int := 44
  const FOLLOW_UP_LENGTH: int := 44
  const PDELAY_REQ_LENGTH: int := 54
  const DELAY_REQ_LENGTH: int := 44
  const DELAY_RESP_LENGTH: int := 54
  const PDELAY_RESP_LENGTH: int := 54
  const PDELAY_RESP_FOLLOW_UP_LENGTH: int := 54

  const CTRL_SYNC: Octet := 0
  const CTRL_DELAY_REQ: Octet := 1
  const CTRL_FOLLOW_UP: Octet := 2
  const CTRL_DELAY_RESP: Octet := 3
  const CTRL_OTHER: Octet := 5

  const TWO_STEP: Octet := 2

  const ZEROS8: Octets := [0, 0, 0, 0, 0, 0, 0, 0]
  const ZEROS10: Octets := [0, 0, 0, 0, 0, 0, 0, 0, 0, 0]

  type Buffer = s: Octets | |s| == PACKET_SIZE witness seq(PACKET_SIZE, _ => 0)

  // ----- Unpacking -----

  function At(buf: Octets, i: nat): Octet
    requires i < |buf|
  {
    Read(buf, i, 1)[0]
  }

  function UnpackPortIdentity(buf: Octets, at: nat): PortIdentity
    requires at + 10 <= |buf|
  {
    PortIdentity(Read(buf, at, 8), S16(Read(buf, at + 8, 2)))
  }

  function UnpackHeader(buf: Octets): Header
    requires |buf| >= 34
  {
    Header(At(buf, 0) / 16, At(buf, 0) % 16, At(buf, 1) % 16, S16(Read(buf, 2, 2)), At(buf, 4), At(buf, 6), At(buf, 7),
           Correction(Read(buf, 8, 4), Read(buf, 12, 4)), UnpackPortIdentity(buf, 20), S16(Read(buf, 30, 2)),
           At(buf, 32), FromOctet(At(buf, 33)))
  }

  /** The timestamp that starts every body. */
  function UnpackTimestamp(buf: Octets): Timestamp
    requires |buf| >= 44
  {
    Timestamp(U16(Read(buf, 34, 2)), U32(Read(buf, 36, 4)), U32(Read(buf, 40, 4)))
  }

  function UnpackAnnounce(buf: Octets): Announce
    requires |buf| >= 64
  {
    Announce(UnpackTimestamp(buf), S16(Read(buf, 44, 2)), At(buf, 47),
             Quality(At(buf, 48), At(buf, 49), S16(Read(buf, 50, 2))), At(buf, 52), Read(buf, 53, 8),
             S16(Read(buf, 61, 2)), At(buf, 63))
  }

  /** The port a response is for. */
  function UnpackRequester(buf: Octets): PortIdentity
    requires |buf| >= 54
  {
    UnpackPortIdentity(buf, 44)
  }

  // ----- Packing -----

  /** What the common header says about the sender. */
  datatype Station = Station(version: Octet, domain: Octet, twoStep: bool, port: PortIdentity)

  /** A message to pack, with the fields of the clock record that go into it. */
  datatype Packet =
    | AnnouncePacket(sequenceId: int, logInterval: int, body: Announce)
    | SyncPacket(sequenceId: int, logInterval: int, timestamp: Timestamp)
    | FollowUpPacket(sentSyncSequenceId: int, logInterval: int, timestamp: Timestamp)
    | DelayReqPacket(sequenceId: int, timestamp: Timestamp)
    | DelayRespPacket(request: Header, logInterval: int, timestamp: Timestamp)
    | PDelayReqPacket(sequenceId: int, timestamp: Timestamp)
    | PDelayRespPacket(request: Header, timestamp: Timestamp)
    | PDelayRespFollowUpPacket(request: Header, timestamp: Timestamp)

  function Typed(o: Octet, messageType: Octet): Octet
    requires messageType < 16
  {
    o - o % 16 + messageType
  }

  /** Type, length, sequence id, control field and interval: what every message sets in the header. */
  function PutHeader(buf: Buffer, messageType: Octet, length: int, sequenceId: int, control: Octet,
                     log: Octet): (b: Buffer)
    requires messageType < 16
  {
    var b0 := Put(buf, 0, [Typed(At(buf, 0), messageType)]);
    var b1 := Put(b0, 2, Big16(length));
    var b2 := Put(b1, 30, Big16(sequenceId));
    var b3 := Put(b2, 32, [control]);
    Put(b3, 33, [log])
  }

  function PutTimestamp(buf: Buffer, t: Timestamp): (b: Buffer) {
    var b0 := Put(buf, 34, Big16(t.secondsMsb));
    var b1 := Put(b0, 36, Big32(t.secondsLsb));
    Put(b1, 40, Big32(t.nanoseconds))
  }

  function PutRequester(buf: Buffer, id: PortIdentity): (b: Buffer) {
    Put(Put(buf, 44, id.clockIdentity), 52, Big16(id.portNumber))
  }

  function PutCorrection(buf: Buffer, correction: int): (b: Buffer) {
    Put(Put(buf, 8, Big32(correction / TWO32)), 12, Big32(correction))
  }

  function PutAnnounce(buf: Buffer, a: Announce): (b: Buffer) {
    var b0 := Put(buf, 34, ZEROS10);
    var b1 := Put(b0, 44, Big16(a.currentUtcOffset));
    var b2 := Put(b1, 47, [ToOctet(a.priority1)]);
    var b3 := Put(b2, 48, [ToOctet(a.quality.clockClass)]);
    var b4 := Put(b3, 49, [ToOctet(a.quality.clockAccuracy)]);
    var b5 := Put(b4, 50, Big16(a.quality.offsetScaledLogVariance));
    var b6 := Put(b5, 52, [ToOctet(a.priority2)]);
    var b7 := Put(b6, 53, a.grandmasterIdentity);
    var b8 := Put(b7, 61, Big16(a.stepsRemoved));
    Put(b8, 63, [ToOctet(a.timeSource)])
  }

  /** The common header, packed once at start-up. */
  function PackHeader(buf: Buffer, s: Station): (b: Buffer) {
    var b0 := Put(buf, 0, [0x80]);
    var b1 := Put(b0, 1, [s.version]);
    var b2 := Put(b1, 4, [s.domain]);
    var b3 := if s.twoStep then Put(b2, 6, [TWO_STEP]) else b2;
    var b4 := Put(b3, 8, ZEROS8);
    var b5 := Put(b4, 20, s.port.clockIdentity);
    var b6 := Put(b5, 28, Big16(s.port.portNumber));
    Put(b6, 33, [0x7F])
  }

  /** The buffer after one more message is packed over what is there. */
  function Pack(buf: Buffer, p: Packet): (b: Buffer) {
    match p
    case AnnouncePacket(id, log, body) =>
      PutAnnounce(PutHeader(buf, ANNOUNCE, ANNOUNCE_LENGTH, id, CTRL_OTHER, ToOctet(log)), body)
    case SyncPacket(id, log, t) =>
      PutTimestamp(Put(PutHeader(buf, SYNC, SYNC_LENGTH, id, CTRL_SYNC, ToOctet(log)), 8, ZEROS8), t)
    case FollowUpPacket(sent, log, t) =>
      PutTimestamp(PutHeader(buf, FOLLOW_UP, FOLLOW_UP_LENGTH, sent - 1, CTRL_FOLLOW_UP, ToOctet(log)), t)
    case DelayReqPacket(id, t) =>
      PutTimestamp(Put(PutHeader(buf, DELAY_REQ, DELAY_REQ_LENGTH, id, CTRL_DELAY_REQ, 0x7F), 8, ZEROS8), t)
    case DelayRespPacket(request, log, t) =>
      PutRequester(PutTimestamp(PutCorrection(
        PutHeader(buf, DELAY_RESP, DELAY_RESP_LENGTH, request.sequenceId, CTRL_DELAY_RESP, ToOctet(log)),
        request.correction), t), request.source)
    case PDelayReqPacket(id, t) =>
      Put(PutTimestamp(Put(
        PutHeader(buf, PDELAY_REQ, PDELAY_REQ_LENGTH, id, CTRL_OTHER, 0x7F), 8, ZEROS8), t), 44, ZEROS10)
    case PDelayRespPacket(request, t) =>
      PutRequester(PutTimestamp(Put(
        PutHeader(buf, PDELAY_RESP, PDELAY_RESP_LENGTH, request.sequenceId, CTRL_OTHER, 0x7F), 8, ZEROS8), t),
        request.source)
    case PDelayRespFollowUpPacket(request, t) =>
      PutRequester(PutTimestamp(PutCorrection(
        PutHeader(buf, PDELAY_RESP_FOLLOW_UP, PDELAY_RESP_FOLLOW_UP_LENGTH, request.sequenceId, CTRL_OTHER, 0x7F),
        request.correction), t), request.source)
  }
}
