/** Identities, headers and bodies of PTP messages, as the program holds them once unpacked. */
module Messages {
  import opened Words
  import Arith

  type Octet = x: int | 0 <= x < 256

  type ClockIdentity = s: seq<Octet> | |s| == 8 witness [0, 0, 0, 0, 0, 0, 0, 0]

  datatype PortIdentity = PortIdentity(clockIdentity: ClockIdentity, portNumber: int)

  datatype Quality = Quality(clockClass: int, clockAccuracy: int, offsetScaledLogVariance: int)

  datatype Header = Header(transportSpecific: int, messageType: int, versionPTP: int, messageLength: int,
                           domainNumber: int, flag0: Octet, flag1: Octet, correction: int,
                           source: PortIdentity, sequenceId: int, controlField: int, logMessageInterval: int)

  datatype Announce = Announce(originTimestamp: Arith.Timestamp, currentUtcOffset: int, priority1: int,
                               quality: Quality, priority2: int, grandmasterIdentity: ClockIdentity,
                               stepsRemoved: int, timeSource: int)
}
