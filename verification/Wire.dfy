/**
 Packets as the capture loop sees them: header fields, the in-place address rewrites of the TCP
 redirect, and the UDP replies built for the application.
 Byte strings are specified as sequences; the methods write the same bytes into an array.
 */
module Wire {
  import opened Basics

  const REDIR_PORT: Port := 1083
  const SRC_IP := 12
  const DST_IP := 16

  function U16(p: seq<byte>, o: nat): Port
    requires o + 2 <= |p|
  {
    p[o] as int * 0x100 + p[o + 1]
  }

  function IpAt(p: seq<byte>, o: nat): Ip
    requires o + 4 <= |p|
  {
    Ip(p[o], p[o + 1], p[o + 2], p[o + 3])
  }

  function WithU16(p: seq<byte>, o: nat, v: Port): (r: seq<byte>)
    requires o + 2 <= |p|
    ensures |r| == |p| && U16(r, o) == v
    ensures forall i :: 0 <= i < |p| && !(o <= i < o + 2) ==> r[i] == p[i]
  {
    p[o := v / 0x100][o + 1 := v % 0x100]
  }

  function WithIp(p: seq<byte>, o: nat, ip: Ip): (r: seq<byte>)
    requires o + 4 <= |p|
    ensures |r| == |p| && IpAt(r, o) == ip
    ensures forall i :: 0 <= i < |p| && !(o <= i < o + 4) ==> r[i] == p[i]
  {
    p[o := ip.a][o + 1 := ip.b][o + 2 := ip.c][o + 3 := ip.d]
  }

  method PutU16(p: array<byte>, o: nat, v: Port)
    requires o + 2 <= p.Length
    modifies p
    ensures p[..] == WithU16(old(p[..]), o, v)
  {
    p[o] := v / 0x100;
    p[o + 1] := v % 0x100;
  }

  method SetIP(p: array<byte>, o: nat, ip: Ip)
    requires o + 4 <= p.Length
    modifies p
    ensures p[..] == WithIp(old(p[..]), o, ip)
  {
    p[o] := ip.a;
    p[o + 1] := ip.b;
    p[o + 2] := ip.c;
    p[o + 3] := ip.d;
  }

  /** A TCP segment long enough for its flags behind an IPv4 header of ihl bytes. */
  predicate TcpSized(p: seq<byte>, ihl: nat) {
    20 <= ihl <= 60 && ihl + 14 <= |p|
  }

  datatype Endpoints = Endpoints(srcIP: Ip, srcPort: Port, dstIP: Ip, dstPort: Port) {
    function Swapped(): Endpoints {
      Endpoints(dstIP, dstPort, srcIP, srcPort)
    }
  }

  function EndpointsOf(p: seq<byte>, ihl: nat): Endpoints
    requires 20 <= ihl && ihl + 4 <= |p|
  {
    Endpoints(IpAt(p, SRC_IP), U16(p, ihl), IpAt(p, DST_IP), U16(p, ihl + 2))
  }

  /** Aim an application's segment at the redirect listener, keeping the real peer as its source. */
  function Redirected(p: seq<byte>, ihl: nat, peer: Ip, app: Ip): (r: seq<byte>)
    requires TcpSized(p, ihl)
    ensures |r| == |p|
  {
    WithU16(WithIp(WithIp(p, SRC_IP, peer), DST_IP, app), ihl + 2, REDIR_PORT)
  }

  /** Dress the listener's segment up as the peer's answer. */
  function Returned(p: seq<byte>, ihl: nat, peer: Ip, peerPort: Port, app: Ip): (r: seq<byte>)
    requires TcpSized(p, ihl)
    ensures |r| == |p|
  {
    WithIp(WithU16(WithIp(p, SRC_IP, peer), ihl, peerPort), DST_IP, app)
  }

  predicate InAddresses(i: int) {
    SRC_IP <= i < DST_IP + 4
  }

  lemma RedirectedFields(p: seq<byte>, ihl: nat, peer: Ip, app: Ip)
    requires TcpSized(p, ihl)
    ensures var r := Redirected(p, ihl, peer, app);
            && EndpointsOf(r, ihl) == Endpoints(peer, U16(p, ihl), app, REDIR_PORT)
            && forall i :: 0 <= i < |p| && !InAddresses(i) && !(ihl + 2 <= i < ihl + 4) ==> r[i] == p[i]
  {
    var a := WithIp(p, SRC_IP, peer);
    var b := WithIp(a, DST_IP, app);
    var r := WithU16(b, ihl + 2, REDIR_PORT);
    assert IpAt(r, DST_IP) == IpAt(b, DST_IP) && IpAt(r, SRC_IP) == IpAt(b, SRC_IP) == IpAt(a, SRC_IP);
    assert U16(r, ihl) == U16(b, ihl) == U16(p, ihl);
  }

  lemma ReturnedFields(p: seq<byte>, ihl: nat, peer: Ip, peerPort: Port, app: Ip)
    requires TcpSized(p, ihl)
    ensures var r := Returned(p, ihl, peer, peerPort, app);
            && EndpointsOf(r, ihl) == Endpoints(peer, peerPort, app, U16(p, ihl + 2))
            && forall i :: 0 <= i < |p| && !InAddresses(i) && !(ihl <= i < ihl + 2) ==> r[i] == p[i]
  {
    var a := WithIp(p, SRC_IP, peer);
    var b := WithU16(a, ihl, peerPort);
    var r := WithIp(b, DST_IP, app);
    assert U16(r, ihl) == U16(b, ihl) && U16(r, ihl + 2) == U16(b, ihl + 2) == U16(a, ihl + 2) == U16(p, ihl + 2);
    assert IpAt(r, SRC_IP) == IpAt(b, SRC_IP) == IpAt(a, SRC_IP);
  }

  /**
   The redirect is a mirror: whatever the listener answers to a redirected segment (swapping the
   endpoints it saw) reaches the application with exactly the original endpoints swapped.
   The two segments may have different lengths and header sizes.
   */
  lemma NatMirror(p: seq<byte>, ihl: nat, q: seq<byte>, qihl: nat)
    requires TcpSized(p, ihl) && TcpSized(q, qihl)
    requires var e := EndpointsOf(p, ihl);
             EndpointsOf(q, qihl) == EndpointsOf(Redirected(p, ihl, e.dstIP, e.srcIP), ihl).Swapped()
    ensures var e := EndpointsOf(p, ihl);
            && U16(q, qihl) == REDIR_PORT && U16(q, qihl + 2) == e.srcPort && IpAt(q, DST_IP) == e.dstIP
            && EndpointsOf(Returned(q, qihl, e.dstIP, e.dstPort, e.srcIP), qihl) == e.Swapped()
  {
    var e := EndpointsOf(p, ihl);
    RedirectedFields(p, ihl, e.dstIP, e.srcIP);
    ReturnedFields(q, qihl, e.dstIP, e.dstPort, e.srcIP);
  }

  const UDP_HEADERS := 28

  /** A bare IPv4 header announcing total bytes of UDP from e's source to its destination. */
  function Ipv4Header(e: Endpoints, total: Port): (r: seq<byte>)
    ensures |r| == 20
  {
    [0x45, 0, total / 0x100, total % 0x100, 0, 0, 0, 0, 64, 17, 0, 0,
     e.srcIP.a, e.srcIP.b, e.srcIP.c, e.srcIP.d, e.dstIP.a, e.dstIP.b, e.dstIP.c, e.dstIP.d]
  }

  function UdpHeader(e: Endpoints, length: Port): (r: seq<byte>)
    ensures |r| == 8
  {
    [e.srcPort / 0x100, e.srcPort % 0x100, e.dstPort / 0x100, e.dstPort % 0x100, length / 0x100, length % 0x100, 0, 0]
  }

  /** The inbound datagram that carries payload from e's source to its destination; its length fields keep 16 bits. */
  function UdpReply(e: Endpoints, payload: seq<byte>): (r: seq<byte>)
    ensures |r| == UDP_HEADERS + |payload|
  {
    Ipv4Header(e, Low16(UDP_HEADERS + |payload|)) + UdpHeader(e, Low16(8 + |payload|)) + payload
  }

  function Low16(n: nat): Port {
    n % 0x1_0000
  }

  /** Reads a UDP datagram the way the stack does; None unless both length fields agree with the packet. */
  function ParseUdp(p: seq<byte>): Option<(Endpoints, seq<byte>)> {
    if |p| < 20 || p[0] / 16 != 4 || p[9] != 17 then None
    else
      var ihl := p[0] % 16 * 4;
      if ihl < 20 || |p| < ihl + 8 || U16(p, 2) != |p| || U16(p, ihl + 4) != |p| - ihl then None
      else Some((EndpointsOf(p, ihl), p[ihl + 8..]))
  }

  /**
   A reply reads back as exactly the endpoints and payload it was built from, as long as its length fits the
   16 bits it is given; a longer one does not read back at all.
   */
  lemma UdpReplyReadsBack(e: Endpoints, payload: seq<byte>)
    ensures ParseUdp(UdpReply(e, payload))
            == if UDP_HEADERS + |payload| < 0x1_0000 then Some((e, payload)) else None
  {
    var r := UdpReply(e, payload);
    assert r[28..] == payload;
    assert U16(r, 2) == Low16(|r|) && U16(r, 24) == Low16(8 + |payload|);
    assert U16(r, 20) == e.srcPort && U16(r, 22) == e.dstPort;
    assert IpAt(r, SRC_IP) == e.srcIP && IpAt(r, DST_IP) == e.dstIP;
  }

  method WriteIpv4Header(pkt: array<byte>, e: Endpoints, total: Port)
    requires 20 <= pkt.Length && forall i :: 0 <= i < 20 ==> pkt[i] == 0
    modifies pkt
    ensures pkt[..20] == Ipv4Header(e, total)
    ensures pkt[20..] == old(pkt[20..])
  {
    pkt[0] := 0x45;
    PutU16(pkt, 2, total);
    pkt[8] := 64;
    pkt[9] := 17;
    ghost var fixedPart := pkt[..];
    assert fixedPart[..12] == Ipv4Header(e, total)[..12];
    SetIP(pkt, SRC_IP, e.srcIP);
    SetIP(pkt, DST_IP, e.dstIP);
    ghost var r := pkt[..];
    assert r[..12] == fixedPart[..12];
    assert r[12..20] == Ipv4Header(e, total)[12..20] by {
      assert IpAt(r, SRC_IP) == e.srcIP && IpAt(r, DST_IP) == e.dstIP;
    }
    assert pkt[..20] == r[..12] + r[12..20];
  }

  method WriteUdpHeader(pkt: array<byte>, e: Endpoints, length: Port)
    requires 28 <= pkt.Length && pkt[26] == pkt[27] == 0
    modifies pkt
    ensures pkt[20..28] == UdpHeader(e, length)
    ensures pkt[..20] == old(pkt[..20]) && pkt[28..] == old(pkt[28..])
  {
    pkt[20], pkt[21] := e.srcPort / 0x100, e.srcPort % 0x100;
    pkt[22], pkt[23] := e.dstPort / 0x100, e.dstPort % 0x100;
    pkt[24], pkt[25] := length / 0x100, length % 0x100;
  }

  /** Writes a reply into the reader's reused buffer; -1, and nothing written, when it does not fit. */
  method BuildUDPReply(pkt: array<byte>, e: Endpoints, payload: seq<byte>) returns (n: int)
    modifies pkt
    ensures n == if UDP_HEADERS + |payload| > pkt.Length then -1 else UDP_HEADERS + |payload|
    ensures n == -1 ==> pkt[..] == old(pkt[..])
    ensures n >= 0 ==> pkt[..n] == UdpReply(e, payload) && pkt[n..] == old(pkt[n..])
  {
    var total := UDP_HEADERS + |payload|;
    if total > pkt.Length {
      return -1;
    }
    var i := 0;
    while i < UDP_HEADERS
      invariant 0 <= i <= UDP_HEADERS
      invariant forall j :: 0 <= j < i ==> pkt[j] == 0
      invariant pkt[UDP_HEADERS..] == old(pkt[UDP_HEADERS..])
    {
      pkt[i] := 0;
      i := i + 1;
    }
    WriteIpv4Header(pkt, e, Low16(total));
    ghost var front := pkt[20..];
    WriteUdpHeader(pkt, e, Low16(8 + |payload|));
    ghost var header := pkt[..UDP_HEADERS];
    assert header == pkt[..20] + pkt[20..28];
    ghost var tail := pkt[total..];
    assert pkt[28..] == front[8..];
    assert tail == old(pkt[UDP_HEADERS..])[|payload|..];
    var k := 0;
    while k < |payload|
      invariant 0 <= k <= |payload|
      invariant pkt[..UDP_HEADERS] == header
      invariant pkt[UDP_HEADERS..UDP_HEADERS + k] == payload[..k]
      invariant pkt[total..] == tail
    {
      pkt[UDP_HEADERS + k] := payload[k];
      k := k + 1;
    }
    n := total;
    assert pkt[..n] == pkt[..UDP_HEADERS] + pkt[UDP_HEADERS..n];
  }
}
