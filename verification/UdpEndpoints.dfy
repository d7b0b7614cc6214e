/** Socket addresses, the peer identity of a dual-stack UDP server, and the address
    a datagram is finally sent to. */
module UdpEndpoints {
  import opened Bytes

  /** An IPv4 address is 4 octets, an IPv6 address 16; Unspecified is any other
      address family. */
  datatype Endpoint =
    | Unspecified
    | V4(addr: seq<byte>, port: nat)
    | V6(addr6: seq<byte>, scope: nat, port6: nat)

  predicate Usable(e: Endpoint) {
    match e
    case Unspecified => false
    case V4(a, _) => |a| == 4
    case V6(a, _, _) => |a| == 16
  }

  const MAPPED_PREFIX: seq<byte> := [0, 0, 0, 0, 0, 0, 0, 0, 0, 0, 0xff, 0xff]

  /** The port accessor answers 0 for other families. */
  function PortOf(e: Endpoint): nat {
    match e
    case Unspecified => 0
    case V4(_, p) => p
    case V6(_, _, p) => p
  }

  /** same_udp_address, branch by branch. */
  predicate SamePeer(a: Endpoint, b: Endpoint) {
    if PortOf(a) != PortOf(b) then false
    else if a.V4? && b.V4? then a.addr == b.addr
    else if a.V6? && b.V6? then a.scope == b.scope && a.addr6 == b.addr6
    else
      var v6 := if a.V6? then a else b;
      var v4 := if a.V4? then a else b;
      v6.V6? && v4.V4? && v6.scope == 0 && |v6.addr6| == 16 &&
      v6.addr6[..12] == MAPPED_PREFIX && v6.addr6[12..] == v4.addr
  }

  /** The IPv6 form of an endpoint: a.b.c.d becomes ::ffff:a.b.c.d. */
  function Canonical(e: Endpoint): Endpoint {
    if e.V4? then V6(MAPPED_PREFIX + e.addr, 0, e.port) else e
  }

  lemma MappedPrefixSplits(addr: seq<byte>, full: seq<byte>)
    requires |full| == 16
    ensures full == MAPPED_PREFIX + addr <==> full[..12] == MAPPED_PREFIX && full[12..] == addr
  {
    if full[..12] == MAPPED_PREFIX && full[12..] == addr {
      assert full == full[..12] + full[12..];
    }
    if full == MAPPED_PREFIX + addr {
      assert (MAPPED_PREFIX + addr)[..12] == MAPPED_PREFIX;
      assert (MAPPED_PREFIX + addr)[12..] == addr;
    }
  }

  /** On IPv4 and IPv6 endpoints the branchy comparison is equality of the mapped
      forms, hence an equivalence. */
  lemma SamePeerIsCanonicalEquality(a: Endpoint, b: Endpoint)
    requires Usable(a) && Usable(b)
    ensures SamePeer(a, b) <==> Canonical(a) == Canonical(b)
  {
    if a.V4? && b.V4? {
      MappedPrefixSplits(b.addr, MAPPED_PREFIX + a.addr);
      assert (MAPPED_PREFIX + a.addr)[12..] == a.addr;
    } else if a.V4? {
      MappedPrefixSplits(a.addr, b.addr6);
    } else if b.V4? {
      MappedPrefixSplits(b.addr, a.addr6);
    }
  }

  lemma SamePeerIsEquivalence(a: Endpoint, b: Endpoint, c: Endpoint)
    requires Usable(a) && Usable(b) && Usable(c)
    ensures SamePeer(a, a)
    ensures SamePeer(a, b) ==> SamePeer(b, a)
    ensures SamePeer(a, b) && SamePeer(b, c) ==> SamePeer(a, c)
  {
    hide SamePeer, Canonical;
    SamePeerIsCanonicalEquality(a, a);
    SamePeerIsCanonicalEquality(a, b);
    SamePeerIsCanonicalEquality(b, a);
    SamePeerIsCanonicalEquality(b, c);
    SamePeerIsCanonicalEquality(a, c);
  }

  /** 127.0.0.1 and ::ffff:127.0.0.1 are one peer, unless the port or the scope differs. */
  lemma LoopbackIsMapped(port: nat, port6: nat, scope: nat)
    ensures SamePeer(V4([127, 0, 0, 1], port),
                     V6([0, 0, 0, 0, 0, 0, 0, 0, 0, 0, 0xff, 0xff, 127, 0, 0, 1], scope, port6))
            <==> port == port6 && scope == 0
  {
    var mapped: seq<byte> := [0, 0, 0, 0, 0, 0, 0, 0, 0, 0, 0xff, 0xff, 127, 0, 0, 1];
    assert mapped[..12] == MAPPED_PREFIX;
    assert mapped[12..] == [127, 0, 0, 1];
  }

  datatype Family = Inet | Inet6

  datatype Target = NoTarget | Target(to: Endpoint)

  /** The destination send_datagram hands to the system, given the family of the
      native socket: unchanged in its own family, mapped from IPv4 to IPv6, refused
      the other way. */
  function Destination(family: Family, remote: Endpoint): Target {
    if (remote.V4? && family == Inet) || (remote.V6? && family == Inet6) then Target(remote)
    else if family == Inet6 && remote.V4? then Target(V6(MAPPED_PREFIX + remote.addr, 0, remote.port))
    else NoTarget
  }

  /** Whatever is sent goes to the peer itself, in the socket's own family; only an
      IPv6 peer of an IPv4 socket cannot be reached. */
  lemma DestinationIsThePeer(family: Family, remote: Endpoint)
    requires Usable(remote)
    ensures match Destination(family, remote)
            case NoTarget => family == Inet && remote.V6?
            case Target(to) => Usable(to) && SamePeer(to, remote) && (to.V4? <==> family == Inet)
  {
    if remote.V4? && family == Inet6 {
      assert (MAPPED_PREFIX + remote.addr)[..12] == MAPPED_PREFIX;
      assert (MAPPED_PREFIX + remote.addr)[12..] == remote.addr;
    }
  }
}
