/** The ingress packet classifier of bpf/redirect.c: is a received frame a
    reply to one of our synthetic UDP/TCP test packets?

    The classifier reads a fixed 38-byte prefix of the frame: a 14-byte
    Ethernet header, a 20-byte IPv4 header without options (section 3.1 of
    RFC 791) and the first 4 bytes of the transport header, which for both
    UDP (RFC 768) and TCP (section 3.1 of RFC 793) are the source and
    destination ports. */
module Classifier {
  import opened Bytes
  import opened Optional

  type Packet = seq<byte>

  const EthHdrLen: nat := 14
  const IpHdrLen: nat := 20
  const L4StubLen: nat := 4
  /** Shortest frame the classifier inspects: Ethernet + IPv4 + port stub. */
  const MinLen: nat := EthHdrLen + IpHdrLen + L4StubLen

  const EthProtoOffset: nat := 12
  const IpVersionIhlOffset: nat := EthHdrLen
  const IpProtocolOffset: nat := EthHdrLen + 9
  const SportOffset: nat := EthHdrLen + IpHdrLen
  const DportOffset: nat := SportOffset + 2

  const EthProtoIpv4: nat := 0x0800
  const IpIhlNoOptions: nat := 5
  const IpProtoTcp: byte := 6
  const IpProtoUdp: byte := 17
  /** The local port range our test packets are sent from. */
  const TestPortFirst: nat := 32700
  const TestPortLast: nat := 32767

  // ---------------------------------------------------------------------
  // Byte-level view: what the XDP program reads, at fixed offsets.
  // Each accessor needs the whole prefix, so none reads past the frame.
  // ---------------------------------------------------------------------

  function EthProto(pkt: Packet): nat
    requires |pkt| >= MinLen
  {
    Be16(pkt[EthProtoOffset], pkt[EthProtoOffset + 1])
  }

  /** `ihl` is the low nibble of the first IPv4 byte on the wire. `struct iphdr`
      orders its two 4-bit fields by the target's byte order, so `ip->ihl`
      reads that nibble on both little- and big-endian targets. */
  function IpIhl(pkt: Packet): nat
    requires |pkt| >= MinLen
  {
    LowNibble(pkt[IpVersionIhlOffset])
  }

  function IpProtocol(pkt: Packet): byte
    requires |pkt| >= MinLen
  {
    pkt[IpProtocolOffset]
  }

  function Dport(pkt: Packet): nat
    requires |pkt| >= MinLen
  {
    Be16(pkt[DportOffset], pkt[DportOffset + 1])
  }

  predicate IsTestPort(port: nat)
  {
    TestPortFirst <= port <= TestPortLast
  }

  predicate IsTcpOrUdp(protocol: byte)
  {
    protocol == IpProtoTcp || protocol == IpProtoUdp
  }

  /** is_test_pkt_reply: the checks run in the source's order and the first
      failing one answers false. The IPv4 version nibble is never looked at. */
  function IsTestPktReply(pkt: Packet): (r: bool)
    ensures |pkt| < MinLen ==> !r
    ensures r ==> |pkt| >= MinLen && EthProto(pkt) == EthProtoIpv4 && IpIhl(pkt) == IpIhlNoOptions
    ensures r ==> |pkt| >= MinLen && IsTcpOrUdp(IpProtocol(pkt))
    ensures r ==> |pkt| >= MinLen && IsTestPort(Dport(pkt))
  {
    if |pkt| < MinLen then
      false
    else if EthProto(pkt) != EthProtoIpv4 || IpIhl(pkt) != IpIhlNoOptions then
      false
    else if !IsTcpOrUdp(IpProtocol(pkt)) then
      false
    else
      IsTestPort(Dport(pkt))
  }

  // ---------------------------------------------------------------------
  // Header-level view: struct ethhdr, struct iphdr and struct l4stubhdr
  // as fields, with an encoder and a decoder for the 38-byte prefix.
  // ---------------------------------------------------------------------

  datatype Headers = Headers(
    ethDest: seq<byte>, ethSource: seq<byte>, ethProto: nat,
    ipVersion: nat, ipIhl: nat, ipTos: byte, ipTotLen: nat, ipId: nat,
    ipFragOff: nat, ipTtl: byte, ipProtocol: byte, ipCheck: nat,
    ipSaddr: seq<byte>, ipDaddr: seq<byte>,
    sport: nat, dport: nat)

  /** Every field fits its wire width. */
  predicate ValidHeaders(h: Headers)
  {
    && |h.ethDest| == 6 && |h.ethSource| == 6 && h.ethProto < U16Modulus
    && h.ipVersion < 16 && h.ipIhl < 16
    && h.ipTotLen < U16Modulus && h.ipId < U16Modulus && h.ipFragOff < U16Modulus
    && h.ipCheck < U16Modulus && |h.ipSaddr| == 4 && |h.ipDaddr| == 4
    && h.sport < U16Modulus && h.dport < U16Modulus
  }

  /** What a test-reply frame is, stated on header fields. */
  predicate Accepts(h: Headers)
  {
    && h.ethProto == EthProtoIpv4
    && h.ipIhl == IpIhlNoOptions
    && IsTcpOrUdp(h.ipProtocol)
    && IsTestPort(h.dport)
  }

  /** Byte `i` of the wire encoding of `h`. */
  function WireByte(h: Headers, i: nat): byte
    requires ValidHeaders(h) && i < MinLen
  {
    if i < 6 then h.ethDest[i]
    else if i < 12 then h.ethSource[i - 6]
    else if i == 12 then HiByte(h.ethProto)
    else if i == 13 then LoByte(h.ethProto)
    else if i == 14 then PackNibbles(h.ipVersion, h.ipIhl)
    else if i == 15 then h.ipTos
    else if i == 16 then HiByte(h.ipTotLen)
    else if i == 17 then LoByte(h.ipTotLen)
    else if i == 18 then HiByte(h.ipId)
    else if i == 19 then LoByte(h.ipId)
    else if i == 20 then HiByte(h.ipFragOff)
    else if i == 21 then LoByte(h.ipFragOff)
    else if i == 22 then h.ipTtl
    else if i == 23 then h.ipProtocol
    else if i == 24 then HiByte(h.ipCheck)
    else if i == 25 then LoByte(h.ipCheck)
    else if i < 30 then h.ipSaddr[i - 26]
    else if i < 34 then h.ipDaddr[i - 30]
    else if i == 34 then HiByte(h.sport)
    else if i == 35 then LoByte(h.sport)
    else if i == 36 then HiByte(h.dport)
    else LoByte(h.dport)
  }

  /** The 38-byte prefix of a frame carrying headers `h`. */
  function Build(h: Headers): (bytes: Packet)
    requires ValidHeaders(h)
    ensures |bytes| == MinLen
  {
    seq(MinLen, i requires 0 <= i < MinLen => WireByte(h, i))
  }

  /** Decodes the 38-byte prefix; a shorter frame has no headers. */
  function Parse(pkt: Packet): (r: Option<Headers>)
    ensures r.Some? <==> |pkt| >= MinLen
    ensures r.Some? ==> ValidHeaders(r.value)
  {
    if |pkt| < MinLen then None
    else Some(Headers(
      pkt[0..6], pkt[6..12], Be16(pkt[EthProtoOffset], pkt[EthProtoOffset + 1]),
      HighNibble(pkt[IpVersionIhlOffset]), LowNibble(pkt[IpVersionIhlOffset]), pkt[15],
      Be16(pkt[16], pkt[17]), Be16(pkt[18], pkt[19]), Be16(pkt[20], pkt[21]), pkt[22],
      pkt[IpProtocolOffset], Be16(pkt[24], pkt[25]), pkt[26..30], pkt[30..34],
      Be16(pkt[SportOffset], pkt[SportOffset + 1]), Be16(pkt[DportOffset], pkt[DportOffset + 1])))
  }

  /** Decoding an encoded frame recovers its headers, whatever follows them. */
  lemma ParseBuild(h: Headers, payload: Packet)
    requires ValidHeaders(h)
    ensures Parse(Build(h) + payload) == Some(h)
  {
    var pkt := Build(h) + payload;
    forall i | 0 <= i < MinLen
      ensures pkt[i] == WireByte(h, i)
    {
    }
    Be16OfBytes(h.ethProto);
    Be16OfBytes(h.ipTotLen);
    Be16OfBytes(h.ipId);
    Be16OfBytes(h.ipFragOff);
    Be16OfBytes(h.ipCheck);
    Be16OfBytes(h.sport);
    Be16OfBytes(h.dport);
    assert pkt[0..6] == h.ethDest;
    assert pkt[6..12] == h.ethSource;
    assert pkt[26..30] == h.ipSaddr;
    assert pkt[30..34] == h.ipDaddr;
  }

  /** Every frame long enough to classify is the encoding of its decoded
      headers followed by the rest of the frame. */
  lemma BuildParse(pkt: Packet)
    requires |pkt| >= MinLen
    ensures Build(Parse(pkt).value) + pkt[MinLen..] == pkt
  {
    var h := Parse(pkt).value;
    var built := Build(h) + pkt[MinLen..];
    forall i | 0 <= i < |pkt|
      ensures built[i] == pkt[i]
    {
      if i < MinLen {
        assert built[i] == WireByte(h, i);
        if 12 <= i < 14 { BytesOfBe16(pkt[12], pkt[13]); }
        else if i == 14 { PackNibblesOfByte(pkt[14]); }
        else if 16 <= i < 18 { BytesOfBe16(pkt[16], pkt[17]); }
        else if 18 <= i < 20 { BytesOfBe16(pkt[18], pkt[19]); }
        else if 20 <= i < 22 { BytesOfBe16(pkt[20], pkt[21]); }
        else if 24 <= i < 26 { BytesOfBe16(pkt[24], pkt[25]); }
        else if 34 <= i < 36 { BytesOfBe16(pkt[34], pkt[35]); }
        else if 36 <= i < 38 { BytesOfBe16(pkt[36], pkt[37]); }
      }
    }
  }

  /** On an encoded frame the classifier answers exactly `Accepts` of the headers. */
  lemma ClassifyBuilt(h: Headers, payload: Packet)
    requires ValidHeaders(h)
    ensures IsTestPktReply(Build(h) + payload) <==> Accepts(h)
  {
    var pkt := Build(h) + payload;
    ParseBuild(h, payload);
    assert pkt[12] == HiByte(h.ethProto) && pkt[13] == LoByte(h.ethProto);
    assert pkt[14] == PackNibbles(h.ipVersion, h.ipIhl);
    assert pkt[23] == h.ipProtocol;
    assert pkt[36] == HiByte(h.dport) && pkt[37] == LoByte(h.dport);
  }

  /** The classifier, on every frame, is `Accepts` of the decoded headers:
      false when there are no headers, and otherwise true exactly for IPv4
      without options, TCP or UDP, destination port in [32700, 32767]. */
  lemma ClassifierMatchesHeaders(pkt: Packet)
    ensures IsTestPktReply(pkt) <==> Parse(pkt).Some? && Accepts(Parse(pkt).value)
  {
    if |pkt| >= MinLen {
      BuildParse(pkt);
      ClassifyBuilt(Parse(pkt).value, pkt[MinLen..]);
    }
  }

  /** A frame whose only obstacle is the port: 32699 and 32768 are rejected,
      32700 and 32767 accepted. */
  lemma TestPortBoundaries(h: Headers, payload: Packet)
    requires ValidHeaders(h)
    requires h.ethProto == EthProtoIpv4 && h.ipIhl == IpIhlNoOptions
    requires IsTcpOrUdp(h.ipProtocol)
    ensures !IsTestPktReply(Build(h.(dport := 32699)) + payload)
    ensures IsTestPktReply(Build(h.(dport := 32700)) + payload)
    ensures IsTestPktReply(Build(h.(dport := 32767)) + payload)
    ensures !IsTestPktReply(Build(h.(dport := 32768)) + payload)
  {
    ClassifyBuilt(h.(dport := 32699), payload);
    ClassifyBuilt(h.(dport := 32700), payload);
    ClassifyBuilt(h.(dport := 32767), payload);
    ClassifyBuilt(h.(dport := 32768), payload);
  }

  /** Neither the source port, nor the IPv4 version nibble, nor anything past
      the 38-byte prefix changes the answer. */
  lemma IgnoredFields(h: Headers, sport: nat, version: nat, payload: Packet, other: Packet)
    requires ValidHeaders(h) && sport < U16Modulus && version < 16
    ensures IsTestPktReply(Build(h.(sport := sport)) + payload) == IsTestPktReply(Build(h) + other)
    ensures IsTestPktReply(Build(h.(ipVersion := version)) + payload) == IsTestPktReply(Build(h) + other)
  {
    ClassifyBuilt(h, other);
    ClassifyBuilt(h.(sport := sport), payload);
    ClassifyBuilt(h.(ipVersion := version), payload);
  }

  /** A frame that is not IPv4 without options, or not TCP or UDP, is never a
      test reply, whatever its ports. */
  lemma NonMatchingHeadersRejected(h: Headers, payload: Packet)
    requires ValidHeaders(h)
    requires h.ethProto != EthProtoIpv4 || h.ipIhl != IpIhlNoOptions
          || !IsTcpOrUdp(h.ipProtocol)
    ensures !IsTestPktReply(Build(h) + payload)
  {
    ClassifyBuilt(h, payload);
  }
}
