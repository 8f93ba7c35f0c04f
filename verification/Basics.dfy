/** Values shared by every component: bytes, ports, process ids, IPv4 addresses and sampled port tables. */
module Basics {
  datatype Option<+T> = None | Some(value: T)

  type byte = x: int | 0 <= x < 0x100
  type Port = x: int | 0 <= x < 0x1_0000
  type Pid = nat

  const SYSTEM_PID: Pid := 4

  datatype Ip = Ip(a: byte, b: byte, c: byte, d: byte)

  /** Loopback, RFC 1918, link-local, multicast, unspecified and limited broadcast. */
  predicate IsLocalDst(ip: Ip) {
    || ip.a == 127
    || ip.a == 10
    || (ip.a == 172 && 16 <= ip.b < 32)
    || (ip.a == 192 && ip.b == 168)
    || (ip.a == 169 && ip.b == 254)
    || 224 <= ip.a < 240
    || ip == Ip(0, 0, 0, 0)
    || ip == Ip(255, 255, 255, 255)
  }

  /** The address as a 32-bit number. */
  function Number(ip: Ip): nat {
    ip.a as int * 0x100_0000 + ip.b as int * 0x1_0000 + ip.c as int * 0x100 + ip.d as int
  }

  /** Both addresses lie in one aligned block of this size. */
  predicate SameBlock(ip: Ip, net: Ip, size: nat)
    requires size > 0
  {
    Number(ip) / size == Number(net) / size
  }

  /**
   The local addresses as the standards list them: 127.0.0.0/8, the three private blocks of RFC 1918, 169.254.0.0/16
   (RFC 3927), 224.0.0.0/4 (RFC 5771), and the two addresses of all zeros and all ones.
   */
  lemma LocalIsListed(ip: Ip)
    ensures IsLocalDst(ip) <==>
              || SameBlock(ip, Ip(127, 0, 0, 0), 0x100_0000)
              || SameBlock(ip, Ip(10, 0, 0, 0), 0x100_0000)
              || SameBlock(ip, Ip(172, 16, 0, 0), 0x10_0000)
              || SameBlock(ip, Ip(192, 168, 0, 0), 0x1_0000)
              || SameBlock(ip, Ip(169, 254, 0, 0), 0x1_0000)
              || SameBlock(ip, Ip(224, 0, 0, 0), 0x1000_0000)
              || Number(ip) == 0 || Number(ip) == 0xFFFF_FFFF
  {
    var a: int, b: int := ip.a as int, ip.b as int;
    assert Number(ip) / 0x100_0000 == a;
    assert Number(ip) / 0x1_0000 == a * 0x100 + b;
    assert Number(ip) / 0x10_0000 == a * 0x10 + b / 0x10;
    assert Number(ip) / 0x1000_0000 == a / 0x10;
  }

  /** A sampled port -> owner table; None when no walk has succeeded yet. */
  type Table = Option<map<Port, Pid>>

  function OwnerIn(t: Table, port: Port): Pid {
    if t.Some? && port in t.value then t.value[port] else 0
  }

  predicate HasEntries(t: Table) {
    t.Some? && |t.value| > 0
  }

  /** Some table has something to say. */
  predicate Known(v4: Table, v6: Table) {
    HasEntries(v4) || HasEntries(v6)
  }

  predicate Listed(v4: Table, v6: Table, port: Port) {
    OwnerIn(v4, port) != 0 || OwnerIn(v6, port) != 0
  }

  /** The walk found something, but not this port: the only kind of absence that counts as evidence. */
  predicate Absent(v4: Table, v6: Table, port: Port) {
    Known(v4, v6) && !Listed(v4, v6, port)
  }

  /** The IPv4 table answers first, then the IPv6 one. */
  function Owner(v4: Table, v6: Table, port: Port): (r: Pid)
    ensures r != 0 <==> Listed(v4, v6, port)
    ensures v4.Some? && port in v4.value && v4.value[port] != 0 ==> r == v4.value[port]
  {
    if OwnerIn(v4, port) != 0 then OwnerIn(v4, port) else OwnerIn(v6, port)
  }

  /** Process names as the lookup reports them; "" stands for a name that could not be read. */
  type Names = map<Pid, string>

  function NameOf(names: Names, pid: Pid): string {
    if pid in names then names[pid] else ""
  }

  /** Every readable name agrees with the one the process really has. */
  ghost predicate Truthful(names: Names, truth: Names) {
    forall p :: p in names && names[p] != "" ==> p in truth && truth[p] == names[p]
  }
}
