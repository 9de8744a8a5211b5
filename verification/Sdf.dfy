/** SDF filters: an IP filter rule of a packet detection rule is compiled to a
    mask and a pattern, and matched against the canonical flow key.  What the
    composition accepts is what the rule says about the raw packet. */
module Sdf {
  import opened Options
  import opened FlowKey
  import opened AppRules

  const SRC := 0
  const DST := 1
  const PROTO_ANY := 255
  const SRC_INTF_ACCESS := 0

  datatype Family = Wildcard | Ipv4 | Ipv6

  /** An address with a prefix length; all ones stands for `any` or `assigned`. */
  datatype RuleAddress = RuleAddress(address: Address, mask: nat)

  datatype AclRule = AclRule(family: Family, proto: nat, address: seq<RuleAddress>, port: seq<PortRange>)

  datatype UeIp = UeIp(ip4: Option<Address>, ip6: Option<Address>)

  /** What the compiler uses of a packet detection rule. */
  datatype Pdr = Pdr(srcIntf: nat, teid: Option<nat>, ueIp: Option<UeIp>, ipApp: bool, acl: seq<AclRule>)

  /** Protocol, addresses and ports; the mask holds the lower ports, the pattern
      the upper ones. */
  datatype FiveTuple = FiveTuple(protocol: nat, address: seq<Address>, port: seq<nat>)

  datatype UeMatch = UeIgnored | UeUplink(uplink: Address) | UeDownlink(downlink: Address)

  datatype Acl = Acl(isIp4: bool, teid: Option<nat>, ueIp: UeMatch, ipApp: bool, mask: FiveTuple, pattern: FiveTuple, pdrIdx: nat)

  function Ones(): Address { seq(ADDRESS_BITS, _ => true) }

  function Zeros(): Address { seq(ADDRESS_BITS, _ => false) }

  predicate IsAny(r: RuleAddress) {
    r.address == Ones() && r.mask == 0
  }

  predicate IsAssigned(r: RuleAddress) {
    r.address == Ones() && r.mask == 255
  }

  // ----- what a rule says about a packet

  /** The first n bits of an address within its family. */
  function Head(isIp4: bool, a: Address, n: nat): seq<bool>
    requires n <= Width(isIp4)
  {
    if isIp4 then a[IP4_PAD_BITS..IP4_PAD_BITS + n] else a[..n]
  }

  function Width(isIp4: bool): nat {
    if isIp4 then 32 else 128
  }

  /** The session's own address of the family, if the rule's session has one. */
  function UeAddress(isIp4: bool, pdr: Pdr): Option<Address> {
    match pdr.ueIp
    case None => None
    case Some(ue) => if isIp4 then ue.ip4 else ue.ip6
  }

  /** The bits of the session's own address that identify it: an IPv4 address
      or an IPv6 prefix. */
  function UeWidth(isIp4: bool): nat {
    if isIp4 then 32 else 64
  }

  predicate AddressAccepts(isIp4: bool, pdr: Pdr, r: RuleAddress, a: Address)
    requires IsAny(r) || IsAssigned(r) || r.mask <= Width(isIp4)
  {
    if IsAny(r) then true
    else if IsAssigned(r) then
      var ue := UeAddress(isIp4, pdr);
      ue.Some? ==> Head(isIp4, ue.value, UeWidth(isIp4)) == Head(isIp4, a, UeWidth(isIp4))
    else Head(isIp4, r.address, r.mask) == Head(isIp4, a, r.mask)
  }

  /** What the source demands of a rule compiled for a family. */
  predicate Compilable(isIp4: bool, rule: AclRule) {
    && |rule.address| == 2 && |rule.port| == 2 && rule.proto <= PROTO_ANY
    && (forall i | 0 <= i < 2 :: AddressCompilable(isIp4, rule.address[i]))
  }

  predicate AddressCompilable(isIp4: bool, r: RuleAddress) {
    IsAny(r) || IsAssigned(r) || (r.mask <= Width(isIp4) && (isIp4 ==> IsIp4(r.address)))
  }

  /** Filter rules are written from the network's side: for traffic from the
      access side the rule's source is the packet's destination. */
  predicate RuleAccepts(isIp4: bool, pdr: Pdr, rule: AclRule, p: Packet)
    requires Compilable(isIp4, rule)
  {
    var (src, dst, sport, dport) := Tuple(p);
    var uplink := pdr.srcIntf == SRC_INTF_ACCESS;
    && (rule.proto == PROTO_ANY || rule.proto == p.proto)
    && AddressAccepts(isIp4, pdr, rule.address[SRC], if uplink then dst else src)
    && AddressAccepts(isIp4, pdr, rule.address[DST], if uplink then src else dst)
    && InRange(if uplink then dport else sport, rule.port[SRC])
    && InRange(if uplink then sport else dport, rule.port[DST])
  }

  // ----- the compiler

  /** The mask of the first `width` bits of an address of the family. */
  function WidthMask(isIp4: bool, width: nat): Address
    requires width <= Width(isIp4)
  {
    seq(ADDRESS_BITS, i => if isIp4 then IP4_PAD_BITS <= i < IP4_PAD_BITS + width else i < width)
  }

  datatype Masked = Masked(mask: Address, pattern: Address)

  function CompileAddress(isIp4: bool, pdr: Pdr, r: RuleAddress): Masked
    requires AddressCompilable(isIp4, r)
  {
    if IsAny(r) then Masked(Zeros(), Zeros())
    else if IsAssigned(r) then
      match UeAddress(isIp4, pdr)
      case None => Masked(Zeros(), Zeros())
      case Some(ue) => Masked(WidthMask(isIp4, UeWidth(isIp4)), ue)
    else Masked(WidthMask(isIp4, r.mask), r.address)
  }

  /** Mask and pattern of a filter rule. */
  function CompileSdf(isIp4: bool, pdr: Pdr, rule: AclRule): (FiveTuple, FiveTuple)
    requires Compilable(isIp4, rule)
  {
    var (s, d) := if pdr.srcIntf == SRC_INTF_ACCESS then (DST, SRC) else (SRC, DST);
    var src, dst := CompileAddress(isIp4, pdr, rule.address[s]), CompileAddress(isIp4, pdr, rule.address[d]);
    (FiveTuple(if rule.proto == PROTO_ANY then 0 else 255, [src.mask, dst.mask], [rule.port[s].min, rule.port[d].min]),
     FiveTuple(if rule.proto == PROTO_ANY then 0 else rule.proto, [src.pattern, dst.pattern], [rule.port[s].max, rule.port[d].max]))
  }

  function CompileUeIp(isIp4: bool, pdr: Pdr): UeMatch {
    match UeAddress(isIp4, pdr)
    case None => UeIgnored
    case Some(ue) => if pdr.srcIntf == SRC_INTF_ACCESS then UeUplink(ue) else UeDownlink(ue)
  }

  function CompilePdi(isIp4: bool, pdr: Pdr, rule: AclRule, pdrIdx: nat): Acl
    requires Compilable(isIp4, rule)
  {
    var (mask, pattern) := CompileSdf(isIp4, pdr, rule);
    Acl(isIp4, pdr.teid, CompileUeIp(isIp4, pdr), pdr.ipApp, mask, pattern, pdrIdx)
  }

  // ----- the matcher

  /** Bitwise and of the low n bits. */
  function BitAnd(a: nat, b: nat, n: nat): nat {
    if n == 0 then 0 else 2 * BitAnd(a / 2, b / 2, n - 1) + (a % 2) * (b % 2)
  }

  lemma {:induction false} AndOnes(a: nat, b: nat, p: nat, n: nat)
    requires a < p && b == p - 1 && p == Pow2(n)
    ensures BitAnd(a, b, n) == a && BitAnd(a, 0, n) == 0
  {
    if n > 0 {
      AndOnes(a / 2, b / 2, p / 2, n - 1);
    }
  }

  function Pow2(n: nat): nat {
    if n == 0 then 1 else 2 * Pow2(n - 1)
  }

  /** Equal wherever the mask has a bit. */
  ghost predicate MaskedEqual(a: Address, b: Address, mask: Address) {
    forall i :: 0 <= i < ADDRESS_BITS && mask[i] ==> a[i] == b[i]
  }

  ghost predicate UeStep(acl: Acl, src: Address, dst: Address) {
    match acl.ueIp
    case UeIgnored => true
    case UeUplink(ue) => MaskedEqual(ue, src, WidthMask(false, UeWidth(acl.isIp4)))
    case UeDownlink(ue) => MaskedEqual(ue, dst, WidthMask(false, UeWidth(acl.isIp4)))
  }

  ghost predicate WellShaped(acl: Acl) {
    |acl.mask.address| == |acl.pattern.address| == |acl.mask.port| == |acl.pattern.port| == 2
  }

  /** One compiled filter against a flow key, read in the given direction. */
  ghost predicate ClassifyOne(acl: Acl, isIp4: bool, teid: nat, key: Key, isReverse: bool, appOk: bool)
    requires WellShaped(acl) && |key.ip| == |key.port| == 2
  {
    var s, d := Slot(0, isReverse), Slot(1, isReverse);
    && isIp4 == acl.isIp4
    && (acl.teid.Some? ==> acl.teid.value == teid)
    && UeStep(acl, key.ip[s], key.ip[d])
    && (acl.ipApp ==> !acl.ueIp.UeIgnored? && appOk)
    && TupleStep(acl, key.proto, key.ip[s], key.ip[d], key.port[s], key.port[d])
  }

  /** Protocol, addresses and ports. */
  ghost predicate TupleStep(acl: Acl, proto: nat, src: Address, dst: Address, sport: nat, dport: nat)
    requires WellShaped(acl)
  {
    && BitAnd(proto, acl.mask.protocol, 8) == BitAnd(acl.pattern.protocol, acl.mask.protocol, 8)
    && MaskedEqual(src, acl.pattern.address[SRC], acl.mask.address[SRC])
    && MaskedEqual(dst, acl.pattern.address[DST], acl.mask.address[DST])
    && acl.mask.port[SRC] <= sport <= acl.pattern.port[SRC]
    && acl.mask.port[DST] <= dport <= acl.pattern.port[DST]
  }

  // ----- compiling preserves meaning

  /** A width mask compares exactly the first bits of the family. */
  lemma WidthMaskCompares(isIp4: bool, a: Address, b: Address, n: nat)
    requires n <= Width(isIp4)
    ensures MaskedEqual(a, b, WidthMask(isIp4, n)) <==> Head(isIp4, a, n) == Head(isIp4, b, n)
  {
    var m := WidthMask(isIp4, n);
    var base := if isIp4 then IP4_PAD_BITS else 0;
    assert forall k :: 0 <= k < n ==> Head(isIp4, a, n)[k] == a[base + k] && Head(isIp4, b, n)[k] == b[base + k];
    if MaskedEqual(a, b, m) {
      forall k | 0 <= k < n ensures Head(isIp4, a, n)[k] == Head(isIp4, b, n)[k] {
        assert m[base + k];
      }
      assert Head(isIp4, a, n) == Head(isIp4, b, n);
    }
    if Head(isIp4, a, n) == Head(isIp4, b, n) {
      forall i | 0 <= i < ADDRESS_BITS && m[i] ensures a[i] == b[i] {
        assert Head(isIp4, a, n)[i - base] == Head(isIp4, b, n)[i - base];
      }
    }
  }

  lemma AddressMeaning(isIp4: bool, pdr: Pdr, r: RuleAddress, a: Address)
    requires AddressCompilable(isIp4, r)
    ensures var c := CompileAddress(isIp4, pdr, r);
            MaskedEqual(a, c.pattern, c.mask) <==> AddressAccepts(isIp4, pdr, r, a)
  {
    if IsAny(r) {
    } else if IsAssigned(r) {
      var ue := UeAddress(isIp4, pdr);
      if ue.Some? {
        WidthMaskCompares(isIp4, a, ue.value, UeWidth(isIp4));
      }
    } else {
      WidthMaskCompares(isIp4, a, r.address, r.mask);
    }
  }

  lemma ProtocolMeaning(rule: nat, proto: nat)
    requires rule <= PROTO_ANY && proto < 256
    ensures var mask, pattern := if rule == PROTO_ANY then 0 else 255, if rule == PROTO_ANY then 0 else rule;
            BitAnd(proto, mask, 8) == BitAnd(pattern, mask, 8) <==> rule == PROTO_ANY || rule == proto
  {
    assert Pow2(8) == 256;
    AndOnes(proto, 255, 256, 8);
    AndOnes(rule, 255, 256, 8);
    AndOnes(0, 255, 256, 8);
  }

  /** The step on the session's own address compares the first 64 bits of an
      IPv6 address; of a padded IPv4 address it only ever sees the padding. */
  predicate UeAccepts(isIp4: bool, pdr: Pdr, p: Packet) {
    var ue := UeAddress(isIp4, pdr);
    ue.Some? && !isIp4 ==> Head(false, ue.value, 64) == Head(false, if pdr.srcIntf == SRC_INTF_ACCESS then p.src else p.dst, 64)
  }

  lemma UeMeaning(isIp4: bool, pdr: Pdr, rule: AclRule, pdrIdx: nat, p: Packet)
    requires Compilable(isIp4, rule) && OfFamily(isIp4, pdr, p)
    ensures UeStep(CompilePdi(isIp4, pdr, rule, pdrIdx), p.src, p.dst) <==> UeAccepts(isIp4, pdr, p)
  {
    var ue := UeAddress(isIp4, pdr);
    if ue.Some? {
      var a := if pdr.srcIntf == SRC_INTF_ACCESS then p.src else p.dst;
      WidthMaskCompares(false, ue.value, a, UeWidth(isIp4));
      if isIp4 {
        assert Head(false, ue.value, 32) == Head(false, a, 32);
      }
    }
  }

  /** IPv4 addresses are padded with zeros. */
  ghost predicate OfFamily(isIp4: bool, pdr: Pdr, p: Packet) {
    && p.proto < 256
    && (isIp4 ==> IsIp4(p.src) && IsIp4(p.dst))
    && (isIp4 && UeAddress(true, pdr).Some? ==> IsIp4(UeAddress(true, pdr).value))
  }

  /** The key, read in the packet's own direction, is the packet. */
  lemma KeyIsPacket(less: (Address, Address) -> bool, seid: nat, p: Packet)
    ensures var k, r := MkKey(less, seid, p), IsReverse(less, p);
            && |k.ip| == |k.port| == 2 && k.proto == p.proto
            && (k.ip[Slot(0, r)], k.ip[Slot(1, r)], k.port[Slot(0, r)], k.port[Slot(1, r)]) == Tuple(p)
  {
  }

  lemma TupleMeaning(p: Packet, isIp4: bool, pdr: Pdr, rule: AclRule, pdrIdx: nat)
    requires Compilable(isIp4, rule) && p.proto < 256
    ensures var acl, t := CompilePdi(isIp4, pdr, rule, pdrIdx), Tuple(p);
            WellShaped(acl) && (TupleStep(acl, p.proto, t.0, t.1, t.2, t.3) <==> RuleAccepts(isIp4, pdr, rule, p))
  {
    hide BitAnd, MaskedEqual, CompileAddress, AddressAccepts, IsAny, IsAssigned, IsIp4, HasPorts, CompileUeIp, InRange;
    ProtocolMeaning(rule.proto, p.proto);
    var t := Tuple(p);
    if pdr.srcIntf == SRC_INTF_ACCESS {
      AddressMeaning(isIp4, pdr, rule.address[SRC], p.dst);
      AddressMeaning(isIp4, pdr, rule.address[DST], p.src);
      PortMeaning(t.3, rule.port[SRC]);
      PortMeaning(t.2, rule.port[DST]);
    } else {
      AddressMeaning(isIp4, pdr, rule.address[SRC], p.src);
      AddressMeaning(isIp4, pdr, rule.address[DST], p.dst);
      PortMeaning(t.2, rule.port[SRC]);
      PortMeaning(t.3, rule.port[DST]);
    }
  }

  lemma PortMeaning(port: nat, r: PortRange)
    ensures r.min <= port <= r.max <==> InRange(port, r)
  {
  }

  /** Matching the compiled filter against the canonical key in the packet's
      direction accepts exactly the packets the rule accepts, besides the TEID,
      own-address and application steps. */
  lemma SdfMeaning(less: (Address, Address) -> bool, seid: nat, p: Packet, isIp4: bool, pdr: Pdr, rule: AclRule,
                   pdrIdx: nat, teid: nat, appOk: bool)
    requires Compilable(isIp4, rule) && OfFamily(isIp4, pdr, p)
    ensures var acl, k := CompilePdi(isIp4, pdr, rule, pdrIdx), MkKey(less, seid, p);
            && WellShaped(acl) && |k.ip| == |k.port| == 2
            && (ClassifyOne(acl, isIp4, teid, k, IsReverse(less, p), appOk) <==>
                RuleAccepts(isIp4, pdr, rule, p) && OtherSteps(isIp4, pdr, p, teid, appOk))
  {
    KeyIsPacket(less, seid, p);
    UeMeaning(isIp4, pdr, rule, pdrIdx, p);
    TupleMeaning(p, isIp4, pdr, rule, pdrIdx);
    hide MkKey, CompileSdf, RuleAccepts, TupleStep, UeAccepts, UeStep, IsReverse, Compilable, OfFamily;
  }

  predicate OtherSteps(isIp4: bool, pdr: Pdr, p: Packet, teid: nat, appOk: bool) {
    && (pdr.teid.Some? ==> pdr.teid.value == teid)
    && UeAccepts(isIp4, pdr, p)
    && (pdr.ipApp ==> UeAddress(isIp4, pdr).Some? && appOk)
  }

  // ----- a session's filters

  predicate Admits(rule: AclRule, isIp4: bool) {
    rule.family == Wildcard || rule.family == (if isIp4 then Ipv4 else Ipv6)
  }

  /** Every rule can be compiled for the families it is compiled for. */
  ghost predicate AllCompilable(pdrs: seq<Pdr>) {
    forall i, r, isIp4 :: 0 <= i < |pdrs| && 0 <= r < |pdrs[i].acl| && Admits(pdrs[i].acl[r], isIp4)
                          ==> Compilable(isIp4, pdrs[i].acl[r])
  }

  /** The filters of the first m rules of one packet detection rule. */
  function RuleAcls(isIp4: bool, pdrs: seq<Pdr>, i: nat, m: nat): seq<Acl>
    requires AllCompilable(pdrs) && i < |pdrs| && m <= |pdrs[i].acl|
  {
    if m == 0 then []
    else RuleAcls(isIp4, pdrs, i, m - 1)
         + if Admits(pdrs[i].acl[m - 1], isIp4) then [CompilePdi(isIp4, pdrs[i], pdrs[i].acl[m - 1], i)] else []
  }

  function PdrAcls(isIp4: bool, pdrs: seq<Pdr>, n: nat): seq<Acl>
    requires AllCompilable(pdrs) && n <= |pdrs|
  {
    if n == 0 then []
    else PdrAcls(isIp4, pdrs, n - 1) + RuleAcls(isIp4, pdrs, n - 1, |pdrs[n - 1].acl|)
  }

  /** The filter compiled from rule r of packet detection rule i. */
  ghost predicate From(isIp4: bool, pdrs: seq<Pdr>, acl: Acl, i: nat, r: nat)
    requires AllCompilable(pdrs)
  {
    && i < |pdrs| && r < |pdrs[i].acl| && Admits(pdrs[i].acl[r], isIp4)
    && acl == CompilePdi(isIp4, pdrs[i], pdrs[i].acl[r], i)
  }

  lemma {:induction false} RuleAclsCover(isIp4: bool, pdrs: seq<Pdr>, i: nat, m: nat, acl: Acl)
    requires AllCompilable(pdrs) && i < |pdrs| && m <= |pdrs[i].acl|
    ensures acl in RuleAcls(isIp4, pdrs, i, m) <==> exists r: nat :: r < m && From(isIp4, pdrs, acl, i, r)
  {
    hide CompilePdi, Compilable;
    if m > 0 {
      RuleAclsCover(isIp4, pdrs, i, m - 1, acl);
      assert acl in RuleAcls(isIp4, pdrs, i, m) <==> acl in RuleAcls(isIp4, pdrs, i, m - 1) || From(isIp4, pdrs, acl, i, m - 1);
    }
  }

  lemma {:induction false} PdrAclsCover(isIp4: bool, pdrs: seq<Pdr>, n: nat, acl: Acl)
    requires AllCompilable(pdrs) && n <= |pdrs|
    ensures acl in PdrAcls(isIp4, pdrs, n) <==> exists i: nat, r: nat :: i < n && From(isIp4, pdrs, acl, i, r)
  {
    if n > 0 {
      PdrAclsCover(isIp4, pdrs, n - 1, acl);
      RuleAclsCover(isIp4, pdrs, n - 1, |pdrs[n - 1].acl|, acl);
      assert acl in PdrAcls(isIp4, pdrs, n) <==>
             acl in PdrAcls(isIp4, pdrs, n - 1) || acl in RuleAcls(isIp4, pdrs, n - 1, |pdrs[n - 1].acl|);
      hide PdrAcls, RuleAcls;
      if i: nat, r: nat :| i < n && From(isIp4, pdrs, acl, i, r) && i == n - 1 {
        assert r < |pdrs[n - 1].acl|;
      }
      hide From, Admits, AllCompilable;
    }
  }

  /** The direction argument the classifier passes: the packet's direction
      relative to the flow's first packet, read through the flow's own. */
  function Argument(flowReverse: bool, packetReverse: bool): bool {
    var direction := if packetReverse == flowReverse then 0 else 1;
    Slot(direction, flowReverse) == 1
  }

  /** Whether rule r of packet detection rule i accepts the packet. */
  ghost predicate Accepts(isIp4: bool, pdrs: seq<Pdr>, p: Packet, teid: nat, appOk: nat -> bool, i: nat, r: nat)
    requires AllCompilable(pdrs)
  {
    && i < |pdrs| && r < |pdrs[i].acl| && Admits(pdrs[i].acl[r], isIp4)
    && RuleAccepts(isIp4, pdrs[i], pdrs[i].acl[r], p) && OtherSteps(isIp4, pdrs[i], p, teid, appOk(i))
  }

  /** In a flow opened by any packet `first` with the same key, and whatever
      order the filters are kept in, a filter matches the packet exactly when it
      was compiled from a rule that accepts it. */
  lemma FilterMeaning(less: (Address, Address) -> bool, seid: nat, first: Packet, p: Packet, isIp4: bool, pdrs: seq<Pdr>,
                      teid: nat, appOk: nat -> bool, acl: Acl, i: nat, r: nat)
    requires AllCompilable(pdrs) && From(isIp4, pdrs, acl, i, r) && OfFamily(isIp4, pdrs[i], p)
    requires MkKey(less, seid, first) == MkKey(less, seid, p)
    ensures var key := MkKey(less, seid, first);
            && WellShaped(acl) && |key.ip| == |key.port| == 2
            && (ClassifyOne(acl, isIp4, teid, key, Argument(IsReverse(less, first), IsReverse(less, p)), appOk(i))
                <==> Accepts(isIp4, pdrs, p, teid, appOk, i, r))
  {
    assert Compilable(isIp4, pdrs[i].acl[r]);
    hide ClassifyOne, MkKey, CompilePdi, RuleAccepts, OtherSteps, Compilable;
    SdfMeaning(less, seid, p, isIp4, pdrs[i], pdrs[i].acl[r], i, teid, appOk(i));
  }

  /** A session lets a packet through exactly when one of its rules accepts it. */
  lemma SessionMeaning(less: (Address, Address) -> bool, seid: nat, first: Packet, p: Packet, isIp4: bool, pdrs: seq<Pdr>,
                       teid: nat, appOk: nat -> bool, acls: seq<Acl>)
    requires AllCompilable(pdrs) && (forall pdr :: pdr in pdrs ==> OfFamily(isIp4, pdr, p))
    requires multiset(acls) == multiset(PdrAcls(isIp4, pdrs, |pdrs|))
    requires MkKey(less, seid, first) == MkKey(less, seid, p)
    ensures var arg := Argument(IsReverse(less, first), IsReverse(less, p));
            (exists acl :: acl in acls && WellShaped(acl) && Matches(acl, isIp4, teid, MkKey(less, seid, first), arg, appOk))
            <==> (exists i: nat, r: nat :: Accepts(isIp4, pdrs, p, teid, appOk, i, r))
  {
    hide ClassifyOne, MkKey, CompilePdi, RuleAccepts, OtherSteps, Compilable, OfFamily;
    var key, arg := MkKey(less, seid, first), Argument(IsReverse(less, first), IsReverse(less, p));
    assert forall acl :: acl in acls <==> acl in multiset(acls);
    if acl :| acl in acls && WellShaped(acl) && Matches(acl, isIp4, teid, key, arg, appOk) {
      assert acl in multiset(PdrAcls(isIp4, pdrs, |pdrs|));
      PdrAclsCover(isIp4, pdrs, |pdrs|, acl);
      var i: nat, r: nat :| i < |pdrs| && From(isIp4, pdrs, acl, i, r);
      FromNames(isIp4, pdrs, acl, i, r);
      FilterMeaning(less, seid, first, p, isIp4, pdrs, teid, appOk, acl, i, r);
    }
    if i: nat, r: nat :| Accepts(isIp4, pdrs, p, teid, appOk, i, r) {
      assert Compilable(isIp4, pdrs[i].acl[r]);
      var acl := CompilePdi(isIp4, pdrs[i], pdrs[i].acl[r], i);
      assert From(isIp4, pdrs, acl, i, r);
      PdrAclsCover(isIp4, pdrs, |pdrs|, acl);
      assert acl in multiset(PdrAcls(isIp4, pdrs, |pdrs|));
      FromNames(isIp4, pdrs, acl, i, r);
      FilterMeaning(less, seid, first, p, isIp4, pdrs, teid, appOk, acl, i, r);
    }
  }

  lemma FromNames(isIp4: bool, pdrs: seq<Pdr>, acl: Acl, i: nat, r: nat)
    requires AllCompilable(pdrs) && From(isIp4, pdrs, acl, i, r)
    ensures acl.pdrIdx == i
  {
  }

  ghost predicate Matches(acl: Acl, isIp4: bool, teid: nat, key: Key, arg: bool, appOk: nat -> bool)
    requires WellShaped(acl)
  {
    |key.ip| == |key.port| == 2 && ClassifyOne(acl, isIp4, teid, key, arg, appOk(acl.pdrIdx))
  }
}
