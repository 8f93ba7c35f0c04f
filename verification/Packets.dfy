/**
 The packets themselves, as the standards lay them out: IPv4 (RFC 791, section 3.1), TCP (RFC 9293, section 3.1) and UDP
 (RFC 768). They are written here field by field, and what the engine reads from the bytes is proved to be what was written.
 */
module Packets {
  import opened Basics
  import opened Wire
  import opened Engine
  import TcpTable
  import U = UdpTable

  /** The control bits of a TCP header: high holds the three above ACK. */
  datatype Flags = Flags(fin: bool, syn: bool, rst: bool, psh: bool, ack: bool, high: Octal)

  type Octal = x: int | 0 <= x < 8

  function Bit(b: bool): nat {
    if b then 1 else 0
  }

  function FlagByte(f: Flags): byte {
    Bit(f.fin) + 2 * Bit(f.syn) + 4 * Bit(f.rst) + 8 * Bit(f.psh) + 16 * Bit(f.ack) + 32 * f.high
  }

  function Bytes16(v: Port): (r: seq<byte>)
    ensures |r| == 2
  {
    [v / 0x100, v % 0x100]
  }

  function BytesOf(ip: Ip): (r: seq<byte>)
    ensures |r| == 4
  {
    [ip.a, ip.b, ip.c, ip.d]
  }

  /** The header fields nobody here reads: service, lengths, identification, fragment and lifetime; then the checksum. */
  datatype Unread = Unread(before: seq<byte>, sum: seq<byte>, options: seq<byte>)

  predicate Sized(h: Unread) {
    |h.before| == 8 && |h.sum| == 2 && |h.options| % 4 == 0 && |h.options| <= 40
  }

  function HeaderLength(h: Unread): nat {
    20 + |h.options|
  }

  function Ipv4(h: Unread, protocol: byte, src: Ip, dst: Ip, payload: seq<byte>): (r: seq<byte>)
    requires Sized(h)
    ensures |r| == HeaderLength(h) + |payload|
  {
    [0x40 + HeaderLength(h) / 4] + h.before + [protocol] + h.sum + BytesOf(src) + BytesOf(dst) + h.options + payload
  }

  function Ports(e: Endpoints): (r: seq<byte>)
    ensures |r| == 4
  {
    Bytes16(e.srcPort) + Bytes16(e.dstPort)
  }

  /** numbers are sequence, acknowledgement and data offset; rest is everything after the control bits. */
  function TcpPacket(h: Unread, e: Endpoints, numbers: seq<byte>, f: Flags, rest: seq<byte>): (r: seq<byte>)
    requires Sized(h) && |numbers| == 9
    ensures |r| == HeaderLength(h) + 14 + |rest|
  {
    Ipv4(h, 6, e.srcIP, e.dstIP, Ports(e) + numbers + [FlagByte(f)] + rest)
  }

  /** rest is length, checksum and payload. */
  function UdpPacket(h: Unread, e: Endpoints, rest: seq<byte>): (r: seq<byte>)
    requires Sized(h) && |rest| >= 4
  {
    Ipv4(h, 17, e.srcIP, e.dstIP, Ports(e) + rest)
  }

  // ---- Reading what was written ----

  lemma Ipv4Reads(h: Unread, protocol: byte, src: Ip, dst: Ip, payload: seq<byte>)
    requires Sized(h)
    ensures var p := Ipv4(h, protocol, src, dst, payload);
            && p[0] / 16 == 4 && p[0] % 16 * 4 == HeaderLength(h) && p[9] == protocol
            && IpAt(p, SRC_IP) == src && IpAt(p, DST_IP) == dst && p[HeaderLength(h)..] == payload
  {
    var p := Ipv4(h, protocol, src, dst, payload);
    assert p[12..16] == BytesOf(src) && p[16..20] == BytesOf(dst);
    assert p[12] == p[12..16][0] && p[13] == p[12..16][1] && p[14] == p[12..16][2] && p[15] == p[12..16][3];
    assert p[16] == p[16..20][0] && p[17] == p[16..20][1] && p[18] == p[16..20][2] && p[19] == p[16..20][3];
  }

  lemma PortsRead(p: seq<byte>, o: nat, e: Endpoints, rest: seq<byte>)
    requires o <= |p| && p[o..] == Ports(e) + rest
    ensures o + 4 <= |p| && U16(p, o) == e.srcPort && U16(p, o + 2) == e.dstPort
  {
    var t := p[o..];
    assert p[o] == t[0] && p[o + 1] == t[1] && p[o + 2] == t[2] && p[o + 3] == t[3];
  }

  lemma FlagsRead(f: Flags)
    ensures FlagByte(f) / 2 % 2 == Bit(f.syn) && FlagByte(f) / 16 % 2 == Bit(f.ack)
  {
    var above := Bit(f.rst) + 2 * Bit(f.psh) + 4 * Bit(f.ack) + 8 * f.high;
    assert FlagByte(f) == Bit(f.fin) + 2 * (Bit(f.syn) + 2 * above);
    assert FlagByte(f) / 2 == Bit(f.syn) + 2 * above;
    var low := Bit(f.fin) + 2 * Bit(f.syn) + 4 * Bit(f.rst) + 8 * Bit(f.psh);
    assert FlagByte(f) == low + 16 * (Bit(f.ack) + 2 * f.high);
    assert FlagByte(f) / 16 == Bit(f.ack) + 2 * f.high;
  }

  /** Every TCP packet is taken for one, with the ends it was written with and its SYN and ACK bits. */
  lemma TcpPacketReads(h: Unread, e: Endpoints, numbers: seq<byte>, f: Flags, rest: seq<byte>)
    requires Sized(h) && |numbers| == 9
    ensures var p, ihl := TcpPacket(h, e, numbers, f, rest), HeaderLength(h);
            && Classify(p) == Tcp(ihl) && TcpSized(p, ihl)
            && SegmentOf(p, ihl) == TcpTable.Segment(e, f.syn, f.ack)
  {
    var p, ihl := TcpPacket(h, e, numbers, f, rest), HeaderLength(h);
    var t := Ports(e) + numbers + [FlagByte(f)] + rest;
    Ipv4Reads(h, 6, e.srcIP, e.dstIP, t);
    assert t == Ports(e) + (numbers + [FlagByte(f)] + rest);
    PortsRead(p, ihl, e, numbers + [FlagByte(f)] + rest);
    assert p[ihl + 13] == p[ihl..][13] == t[13] == FlagByte(f);
    FlagsRead(f);
  }

  /** Every UDP packet is taken for one, under the key of its ends. */
  lemma UdpPacketReads(h: Unread, e: Endpoints, rest: seq<byte>)
    requires Sized(h) && |rest| >= 4
    ensures var p, ihl := UdpPacket(h, e, rest), HeaderLength(h);
            && Classify(p) == Udp(ihl) && EndpointsOf(p, ihl) == e
            && KeyOf(p, ihl) == U.Key(e.srcPort, e.dstIP, e.dstPort)
  {
    Ipv4Reads(h, 17, e.srcIP, e.dstIP, Ports(e) + rest);
    PortsRead(UdpPacket(h, e, rest), HeaderLength(h), e, rest);
  }

  function FlagsOf(b: byte): Flags {
    var c := b / 2;
    var d := c / 2;
    var e := d / 2;
    var g := e / 2;
    Flags(b % 2 == 1, c % 2 == 1, d % 2 == 1, e % 2 == 1, g % 2 == 1, g / 2)
  }

  lemma Halves(b: nat)
    ensures b == 2 * (b / 2) + Bit(b % 2 == 1)
  {
  }

  lemma FlagByteBack(b: byte)
    ensures FlagByte(FlagsOf(b)) == b
  {
    var c := b / 2;
    var d := c / 2;
    var e := d / 2;
    Halves(b);
    Halves(c);
    Halves(d);
    Halves(e);
    Halves(e / 2);
  }

  lemma Ipv4Back(p: seq<byte>, ihl: nat)
    requires 20 <= ihl <= 60 && ihl <= |p| && p[0] / 16 == 4 && p[0] % 16 * 4 == ihl
    ensures var h := Unread(p[1..9], p[10..12], p[20..ihl]);
            Sized(h) && HeaderLength(h) == ihl && p == Ipv4(h, p[9], IpAt(p, SRC_IP), IpAt(p, DST_IP), p[ihl..])
  {
    AddressBack(p, SRC_IP);
    AddressBack(p, DST_IP);
    assert p[0] == 0x40 + ihl / 4;
    assert p[..12] == [p[0]] + p[1..9] + [p[9]] + p[10..12];
    assert p[..ihl] == p[..12] + p[12..16] + p[16..20] + p[20..ihl];
    assert p == p[..ihl] + p[ihl..];
  }

  lemma AddressBack(p: seq<byte>, o: nat)
    requires o + 4 <= |p|
    ensures p[o..o + 4] == BytesOf(IpAt(p, o))
  {
  }

  lemma PortsBack(p: seq<byte>, o: nat, e: Endpoints)
    requires o + 4 <= |p| && U16(p, o) == e.srcPort && U16(p, o + 2) == e.dstPort
    ensures p[o..o + 4] == Ports(e)
  {
  }

  ghost predicate IsTcpPacket(p: seq<byte>, ihl: nat) {
    exists h: Unread, e: Endpoints, numbers: seq<byte>, f: Flags, rest: seq<byte> ::
      Sized(h) && HeaderLength(h) == ihl && |numbers| == 9 && p == TcpPacket(h, e, numbers, f, rest)
  }

  /** And nothing else is: what reaches the TCP tables is exactly the TCP packets long enough to show their control bits. */
  lemma OnlyTcpPackets(p: seq<byte>, ihl: nat)
    ensures IsTcpPacket(p, ihl) <==> Classify(p) == Tcp(ihl) && TcpSized(p, ihl)
  {
    if Classify(p) == Tcp(ihl) && TcpSized(p, ihl) {
      Ipv4Back(p, ihl);
      var h, e := Unread(p[1..9], p[10..12], p[20..ihl]), EndpointsOf(p, ihl);
      var numbers, b, rest := p[ihl + 4..ihl + 13], p[ihl + 13], p[ihl + 14..];
      PortsBack(p, ihl, e);
      FlagByteBack(b);
      assert p[ihl..] == p[ihl..ihl + 4] + numbers + [b] + rest;
      assert p == TcpPacket(h, e, numbers, FlagsOf(b), rest);
    } else if h: Unread, e: Endpoints, numbers: seq<byte>, f: Flags, rest: seq<byte> :|
        Sized(h) && HeaderLength(h) == ihl && |numbers| == 9 && p == TcpPacket(h, e, numbers, f, rest) {
      TcpPacketReads(h, e, numbers, f, rest);
    }
  }

  // ---- What the engine does with them ----

  /** The step the engine takes for the packet p, in which it becomes q. */
  ghost predicate Handled(t: TcpTable.Tcp, t': TcpTable.Tcp, env: TcpTable.Env, p: seq<byte>, q: seq<byte>, ihl: nat, inbound: bool)
  {
    TcpSized(p, ihl) && TcpTable.Inv(t) && TcpStep(t, t', SegmentOf(p, ihl), env, p, q, ihl, inbound)
  }

  /**
   A selected application's first packet to a peer, SYN without ACK and whatever its other bits, from a port nothing is
   decided for: it turns inbound, addressed to the listener, and its port is mapped to exactly that peer.
   */
  lemma FirstSynIsRedirected(h: Unread, e: Endpoints, numbers: seq<byte>, f: Flags, rest: seq<byte>,
                             t: TcpTable.Tcp, t': TcpTable.Tcp, env: TcpTable.Env, q: seq<byte>, inbound: bool)
    requires Sized(h) && |numbers| == 9 && f.syn && !f.ack
    requires Handled(t, t', env, TcpPacket(h, e, numbers, f, rest), q, HeaderLength(h), inbound)
    requires e.srcPort != REDIR_PORT && !IsLocalDst(e.dstIP) && e.srcPort !in t.seen && env.Selected()
    ensures inbound && |q| >= HeaderLength(h) + 14
    ensures EndpointsOf(q, HeaderLength(h)) == Endpoints(e.dstIP, e.srcPort, e.srcIP, REDIR_PORT)
    ensures q[HeaderLength(h) + 4..] == numbers + [FlagByte(f)] + rest
    ensures t'.tracked == t.tracked[e.srcPort := TcpTable.Mapping(e.srcIP, e.dstIP, e.dstPort, env.pid)]
  {
    var p, ihl := TcpPacket(h, e, numbers, f, rest), HeaderLength(h);
    TcpPacketReads(h, e, numbers, f, rest);
    Ipv4Reads(h, 6, e.srcIP, e.dstIP, Ports(e) + numbers + [FlagByte(f)] + rest);
    assert p[ihl + 4..] == p[ihl..][4..];
    assert p[ihl + 4..] == numbers + [FlagByte(f)] + rest;
    assert q[ihl + 4..] == p[ihl + 4..];
  }

  /** A packet that does not open a connection decides nothing: without a mapping it leaves as it came. */
  lemma OthersDecideNothing(h: Unread, e: Endpoints, numbers: seq<byte>, f: Flags, rest: seq<byte>,
                            t: TcpTable.Tcp, t': TcpTable.Tcp, env: TcpTable.Env, q: seq<byte>, inbound: bool)
    requires Sized(h) && |numbers| == 9 && !(f.syn && !f.ack)
    requires Handled(t, t', env, TcpPacket(h, e, numbers, f, rest), q, HeaderLength(h), inbound)
    requires e.srcPort != REDIR_PORT
    ensures !f.syn ==> t' == t
    ensures t'.tracked.Keys <= t.tracked.Keys && t'.seen.Keys <= t.seen.Keys
    ensures e.srcPort !in t.tracked ==> !inbound && q == TcpPacket(h, e, numbers, f, rest) && t' == t
    ensures e.srcPort in t.tracked && !f.syn && !IsLocalDst(e.dstIP) ==>
              inbound && EndpointsOf(q, HeaderLength(h)) == TcpTable.ToListener(t.tracked[e.srcPort], e.srcPort)
  {
    TcpPacketReads(h, e, numbers, f, rest);
  }
}
