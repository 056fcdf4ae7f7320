/** The pack functions of msg.c, writing the shared buffer in place. */
module Packer {
  import opened Words
  import opened Messages
  import opened Octets
  import opened Arith
  import opened Codec

  /** The first five writes of every message. */
  method StoreHeader(buf: array<Octet>, messageType: Octet, length: int, sequenceId: int, control: Octet, log: Octet)
    requires buf.Length == PACKET_SIZE && messageType < 16
    modifies buf
    ensures buf[..] == PutHeader(old(buf[..]), messageType, length, sequenceId, control, log)
  {
    assert At(buf[..], 0) == buf[0];
    hide Put, At, Big16;
    Store(buf, 0, [Typed(buf[0], messageType)]);
    Store(buf, 2, Big16(length));
    Store(buf, 30, Big16(sequenceId));
    Store(buf, 32, [control]);
    Store(buf, 33, [log]);
  }

  method StoreTimestamp(buf: array<Octet>, t: Timestamp)
    requires buf.Length == PACKET_SIZE
    modifies buf
    ensures buf[..] == PutTimestamp(old(buf[..]), t)
  {
    hide Put, Big16, Big32;
    Store(buf, 34, Big16(t.secondsMsb));
    Store(buf, 36, Big32(t.secondsLsb));
    Store(buf, 40, Big32(t.nanoseconds));
  }

  method StoreRequester(buf: array<Octet>, id: PortIdentity)
    requires buf.Length == PACKET_SIZE
    modifies buf
    ensures buf[..] == PutRequester(old(buf[..]), id)
  {
    hide Put, Big16;
    Store(buf, 44, id.clockIdentity);
    Store(buf, 52, Big16(id.portNumber));
  }

  /** High word, then low word. */
  method StoreCorrection(buf: array<Octet>, correction: int)
    requires buf.Length == PACKET_SIZE
    modifies buf
    ensures buf[..] == PutCorrection(old(buf[..]), correction)
  {
    hide Put, Big32;
    Store(buf, 8, Big32(correction / TWO32));
    Store(buf, 12, Big32(correction));
  }

  method MsgPackHeader(buf: array<Octet>, s: Station)
    requires buf.Length == PACKET_SIZE
    modifies buf
    ensures buf[..] == PackHeader(old(buf[..]), s)
  {
    hide Put, Big16;
    Store(buf, 0, [0x80]);
    Store(buf, 1, [s.version]);
    Store(buf, 4, [s.domain]);
    if s.twoStep {
      Store(buf, 6, [TWO_STEP]);
    }
    Store(buf, 8, ZEROS8);
    Store(buf, 20, s.port.clockIdentity);
    Store(buf, 28, Big16(s.port.portNumber));
    Store(buf, 33, [0x7F]);
  }

  method MsgPackAnnounce(buf: array<Octet>, sentAnnounceSequenceId: int, log: int, body: Announce)
    requires buf.Length == PACKET_SIZE
    modifies buf
    ensures buf[..] == Pack(old(buf[..]), AnnouncePacket(sentAnnounceSequenceId, log, body))
  {
    hide Put, Big16, ToOctet, PutHeader;
    StoreHeader(buf, ANNOUNCE, ANNOUNCE_LENGTH, sentAnnounceSequenceId, CTRL_OTHER, ToOctet(log));
    Store(buf, 34, ZEROS10);
    Store(buf, 44, Big16(body.currentUtcOffset));
    Store(buf, 47, [ToOctet(body.priority1)]);
    Store(buf, 48, [ToOctet(body.quality.clockClass)]);
    Store(buf, 49, [ToOctet(body.quality.clockAccuracy)]);
    Store(buf, 50, Big16(body.quality.offsetScaledLogVariance));
    Store(buf, 52, [ToOctet(body.priority2)]);
    Store(buf, 53, body.grandmasterIdentity);
    Store(buf, 61, Big16(body.stepsRemoved));
    Store(buf, 63, [ToOctet(body.timeSource)]);
  }

  method MsgPackSync(buf: array<Octet>, sentSyncSequenceId: int, log: int, t: Timestamp)
    requires buf.Length == PACKET_SIZE
    modifies buf
    ensures buf[..] == Pack(old(buf[..]), SyncPacket(sentSyncSequenceId, log, t))
  {
    hide Put, ToOctet, PutHeader, PutTimestamp;
    StoreHeader(buf, SYNC, SYNC_LENGTH, sentSyncSequenceId, CTRL_SYNC, ToOctet(log));
    Store(buf, 8, ZEROS8);
    StoreTimestamp(buf, t);
  }

  /** The counter has already moved past the Sync this belongs to; the correction is left as it is. */
  method MsgPackFollowUp(buf: array<Octet>, sentSyncSequenceId: int, log: int, t: Timestamp)
    requires buf.Length == PACKET_SIZE
    modifies buf
    ensures buf[..] == Pack(old(buf[..]), FollowUpPacket(sentSyncSequenceId, log, t))
  {
    hide Put, ToOctet, PutHeader, PutTimestamp;
    StoreHeader(buf, FOLLOW_UP, FOLLOW_UP_LENGTH, sentSyncSequenceId - 1, CTRL_FOLLOW_UP, ToOctet(log));
    StoreTimestamp(buf, t);
  }

  method MsgPackDelayReq(buf: array<Octet>, sentDelayReqSequenceId: int, t: Timestamp)
    requires buf.Length == PACKET_SIZE
    modifies buf
    ensures buf[..] == Pack(old(buf[..]), DelayReqPacket(sentDelayReqSequenceId, t))
  {
    hide Put, PutHeader, PutTimestamp;
    StoreHeader(buf, DELAY_REQ, DELAY_REQ_LENGTH, sentDelayReqSequenceId, CTRL_DELAY_REQ, 0x7F);
    Store(buf, 8, ZEROS8);
    StoreTimestamp(buf, t);
  }

  method MsgPackDelayResp(buf: array<Octet>, request: Header, log: int, t: Timestamp)
    requires buf.Length == PACKET_SIZE
    modifies buf
    ensures buf[..] == Pack(old(buf[..]), DelayRespPacket(request, log, t))
  {
    hide Put, ToOctet, PutHeader, PutTimestamp, PutCorrection, PutRequester;
    StoreHeader(buf, DELAY_RESP, DELAY_RESP_LENGTH, request.sequenceId, CTRL_DELAY_RESP, ToOctet(log));
    StoreCorrection(buf, request.correction);
    StoreTimestamp(buf, t);
    StoreRequester(buf, request.source);
  }

  method MsgPackPDelayReq(buf: array<Octet>, sentPDelayReqSequenceId: int, t: Timestamp)
    requires buf.Length == PACKET_SIZE
    modifies buf
    ensures buf[..] == Pack(old(buf[..]), PDelayReqPacket(sentPDelayReqSequenceId, t))
  {
    hide Put, PutHeader, PutTimestamp;
    StoreHeader(buf, PDELAY_REQ, PDELAY_REQ_LENGTH, sentPDelayReqSequenceId, CTRL_OTHER, 0x7F);
    Store(buf, 8, ZEROS8);
    StoreTimestamp(buf, t);
    Store(buf, 44, ZEROS10);
  }

  method MsgPackPDelayResp(buf: array<Octet>, request: Header, t: Timestamp)
    requires buf.Length == PACKET_SIZE
    modifies buf
    ensures buf[..] == Pack(old(buf[..]), PDelayRespPacket(request, t))
  {
    hide Put, PutHeader, PutTimestamp, PutRequester;
    StoreHeader(buf, PDELAY_RESP, PDELAY_RESP_LENGTH, request.sequenceId, CTRL_OTHER, 0x7F);
    Store(buf, 8, ZEROS8);
    StoreTimestamp(buf, t);
    StoreRequester(buf, request.source);
  }

  method MsgPackPDelayRespFollowUp(buf: array<Octet>, request: Header, t: Timestamp)
    requires buf.Length == PACKET_SIZE
    modifies buf
    ensures buf[..] == Pack(old(buf[..]), PDelayRespFollowUpPacket(request, t))
  {
    hide Put, PutHeader, PutTimestamp, PutCorrection, PutRequester;
    StoreHeader(buf, PDELAY_RESP_FOLLOW_UP, PDELAY_RESP_FOLLOW_UP_LENGTH, request.sequenceId, CTRL_OTHER, 0x7F);
    StoreCorrection(buf, request.correction);
    StoreTimestamp(buf, t);
    StoreRequester(buf, request.source);
  }
}
