/** The flow key: a packet's five-tuple put in a canonical order, so that the
    two half connections of a session share one flow. */
module FlowKey {

  const ADDRESS_BITS := 128
  const IP4_PAD_BITS := 96

  /** An IPv4 or IPv6 address as 128 bits in network order.  An IPv4 address
      has 96 leading zero bits. */
  type Address = a: seq<bool> | |a| == ADDRESS_BITS witness seq(ADDRESS_BITS, _ => false)

  const PROTO_ICMP := 1
  const PROTO_TCP := 6
  const PROTO_UDP := 17

  predicate IsIp4(a: Address) {
    forall i :: 0 <= i < IP4_PAD_BITS ==> !a[i]
  }

  predicate HasPorts(proto: nat) {
    proto == PROTO_UDP || proto == PROTO_TCP
  }

  datatype Packet = Packet(src: Address, dst: Address, proto: nat, sport: nat, dport: nat)

  datatype Key = Key(seid: nat, ip: seq<Address>, port: seq<nat>, proto: nat)

  /** Slot 0 or 1 of direction d, as an exclusive or with the orientation. */
  function Slot(d: nat, isReverse: bool): (s: nat)
    requires d < 2
    ensures s < 2
  {
    if isReverse then 1 - d else d
  }

  /** An address comparison orders any two different addresses one way only. */
  ghost predicate Antisymmetric(less: (Address, Address) -> bool) {
    forall a: Address, b: Address :: a != b ==> (less(a, b) <==> !less(b, a))
  }

  function IsReverse(less: (Address, Address) -> bool, p: Packet): bool {
    less(p.src, p.dst)
  }

  function MkKey(less: (Address, Address) -> bool, seid: nat, p: Packet): Key {
    var sport := if HasPorts(p.proto) then p.sport else 0;
    var dport := if HasPorts(p.proto) then p.dport else 0;
    if IsReverse(less, p)
    then Key(seid, [p.dst, p.src], [dport, sport], p.proto)
    else Key(seid, [p.src, p.dst], [sport, dport], p.proto)
  }

  /** What the key is meant to identify: session, protocol, and the tuple with
      ports read as zero outside TCP and UDP. */
  function Tuple(p: Packet): (Address, Address, nat, nat) {
    if HasPorts(p.proto) then (p.src, p.dst, p.sport, p.dport) else (p.src, p.dst, 0, 0)
  }

  function Swapped(p: Packet): Packet {
    Packet(p.dst, p.src, p.proto, p.dport, p.sport)
  }

  /** Whatever the comparison, two packets share a key exactly when they share
      session and protocol and their tuples are equal if they have the same
      orientation, and swapped if not. */
  lemma KeyCanonicity(less: (Address, Address) -> bool, s: nat, p: Packet, t: nat, q: Packet)
    ensures MkKey(less, s, p) == MkKey(less, t, q) <==>
            s == t && p.proto == q.proto
            && Tuple(p) == if IsReverse(less, p) == IsReverse(less, q) then Tuple(q) else Tuple(Swapped(q))
  {
    var k, l := MkKey(less, s, p), MkKey(less, t, q);
    assert k == l <==> k.seid == l.seid && k.proto == l.proto
                       && k.ip[0] == l.ip[0] && k.ip[1] == l.ip[1]
                       && k.port[0] == l.port[0] && k.port[1] == l.port[1];
  }

  /** With a comparison that orders different addresses one way only: their
      tuples are equal, or swapped between two different addresses. */
  lemma OrderedKeyCanonicity(less: (Address, Address) -> bool, s: nat, p: Packet, t: nat, q: Packet)
    requires Antisymmetric(less)
    ensures MkKey(less, s, p) == MkKey(less, t, q) <==>
            s == t && p.proto == q.proto
            && (Tuple(p) == Tuple(q) || (p.src != p.dst && Tuple(p) == Tuple(Swapped(q))))
    ensures p.src != p.dst ==> IsReverse(less, p) != IsReverse(less, Swapped(p))
  {
    KeyCanonicity(less, s, p, t, q);
    if p.src != p.dst {
      assert less(p.src, p.dst) <==> !less(p.dst, p.src);
    }
  }

  /** A packet and its reply land in opposite slots of every per-direction
      member of the flow. */
  lemma RepliesUseTheOtherSlot(less: (Address, Address) -> bool, p: Packet, d: nat)
    requires Antisymmetric(less) && p.src != p.dst && d < 2
    ensures Slot(d, IsReverse(less, p)) != Slot(d, IsReverse(less, Swapped(p)))
  {
    OrderedKeyCanonicity(less, 0, p, 0, p);
  }

  /** Between equal addresses the orientation cannot tell the two directions
      apart: different ports then give a packet and its reply different keys. */
  lemma EqualAddressesSplitTheFlow(less: (Address, Address) -> bool, seid: nat, p: Packet)
    requires p.src == p.dst
    ensures MkKey(less, seid, p) == MkKey(less, seid, Swapped(p)) <==> !HasPorts(p.proto) || p.sport == p.dport
  {
    var k, l := MkKey(less, seid, p), MkKey(less, seid, Swapped(p));
    assert k == l <==> k.port[0] == l.port[0] && k.port[1] == l.port[1];
  }

  /** The key as it is filled in, field by field, in the packet's buffer. */
  class KeyBuffer {
    var seid: nat
    const ip: array<Address>
    const port: array<nat>
    var proto: nat

    ghost predicate Valid()
      reads this
    {
      ip.Length == 2 && port.Length == 2
    }

    function Contents(): Key
      reads this, ip, port
    {
      Key(seid, ip[..], port[..], proto)
    }

    constructor ()
      ensures Valid() && fresh(ip) && fresh(port)
    {
      seid, proto := 0, 0;
      ip := new Address[2](_ => seq(ADDRESS_BITS, _ => false));
      port := new nat[2](_ => 0);
    }

    method ParsePacketProtocol(p: Packet, isReverse: bool)
      requires Valid()
      modifies port
      ensures port[..] == (if !HasPorts(proto) then [0, 0] else if isReverse then [p.dport, p.sport] else [p.sport, p.dport])
    {
      if proto == PROTO_UDP || proto == PROTO_TCP {
        port[Slot(0, isReverse)] := p.sport;
        port[Slot(1, isReverse)] := p.dport;
      } else {
        port[0], port[1] := 0, 0;
      }
    }

    method FlowMkKey(less: (Address, Address) -> bool, s: nat, p: Packet) returns (isReverse: bool)
      requires Valid()
      modifies this, ip, port
      ensures Contents() == MkKey(less, s, p) && isReverse == IsReverse(less, p)
    {
      seid := s;
      proto := p.proto;
      isReverse := less(p.src, p.dst);
      ip[Slot(0, isReverse)] := p.src;
      ip[Slot(1, isReverse)] := p.dst;
      ParsePacketProtocol(p, isReverse);
      assert ip[..] == (if isReverse then [p.dst, p.src] else [p.src, p.dst]);
    }
  }
}
