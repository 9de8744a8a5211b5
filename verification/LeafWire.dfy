/** Where each leaf puts its flags, numbers and addresses. */
module LeafWire {
  import opened Bytes
  import opened Codec
  import opened Message
  import opened Leaves
  import opened Wire
  import PfcpInstance

  /** The octets an optional part takes. */
  function Size(present: bool, k: nat): nat {
    if present then k else 0
  }

  lemma NumPart(front: bytes, present: bool, n: nat, k: nat, tail: bytes)
    ensures var b := front + PutNum(present, n, k) + tail;
            present ==> NumAt(b, |front|, n, k)
    ensures |PutNum(present, n, k)| == Size(present, k)
  {
    hide NumAt;
    PutsNumber(front, n, k, tail);
  }

  lemma AddrPart(front: bytes, present: bool, a: bytes, tail: bytes)
    ensures present ==> OctetsAt(front + PutAddr(present, a) + tail, |front|, a)
    ensures |PutAddr(present, a)| == Size(present, |a|)
  {
    PutsOctets(front, a, tail);
  }

  lemma NumberWire(n: nat, k: nat)
    ensures NumAt(BigEndian(n, k), 0, n, k) && |BigEndian(n, k)| == k
  {
    hide BigEndian, NumAt;
    PutsNumber([], n, k, []);
    assert [] + BigEndian(n, k) + [] == BigEndian(n, k);
  }

  /** Uplink first. */
  lemma BitRateWire(v: BitRate)
    ensures NumAt(EncodeBitRate(v), 0, v.ul, 5) && NumAt(EncodeBitRate(v), 5, v.dl, 5) && |EncodeBitRate(v)| == 10
  {
    hide BigEndian, NumAt;
    var x, y := BigEndian(v.ul, 5), BigEndian(v.dl, 5);
    assert EncodeBitRate(v) == [] + x + y && EncodeBitRate(v) == x + y + [];
    PutsNumber([], v.ul, 5, y);
    PutsNumber(x, v.dl, 5, []);
  }

  /** Seconds since 1900, modulo 2^32. */
  lemma TimeWire(v: nat)
    requires v < 0x1_0000_0000
    ensures NumAt(EncodeTime(v), 0, (v + 2208988800) % 0x1_0000_0000, 4) && |EncodeTime(v)| == 4
  {
    NtpAndBack(v);
    hide BigEndian, NumAt, ToNtp;
    NumberWire(ToNtp(v), 4);
  }

  /** Flags, then total, uplink and downlink, each if its flag is set. */
  lemma VolumeWire(v: Volume)
    ensures var b, f := EncodeVolume(v), v.fields;
            var ul := 1 + Size(Flag(f, 1), 8);
            var dl := ul + Size(Flag(f, 2), 8);
            && |b| == dl + Size(Flag(f, 4), 8) && b[0] == f
            && (Flag(f, 1) ==> NumAt(b, 1, v.total, 8))
            && (Flag(f, 2) ==> NumAt(b, ul, v.ul, 8))
            && (Flag(f, 4) ==> NumAt(b, dl, v.dl, 8))
  {
    hide NumAt, PutNum, Flag;
    var f, b := v.fields, EncodeVolume(v);
    var x, y, z := PutNum(Flag(f, 1), v.total, 8), PutNum(Flag(f, 2), v.ul, 8), PutNum(Flag(f, 4), v.dl, 8);
    assert b == [f] + x + (y + z) && b == ([f] + x) + y + z && b == ([f] + x + y) + z + [];
    NumPart([f], Flag(f, 1), v.total, 8, y + z);
    NumPart([f] + x, Flag(f, 2), v.ul, 8, z);
    NumPart([f] + x + y, Flag(f, 4), v.dl, 8, []);
  }

  /** Flags (2 for IPv4, 1 for IPv6), the identifier, and the addresses. */
  lemma FSeidWire(v: FSeid)
    requires |v.ip4| == 4 && |v.ip6| == 16
    ensures var b, f := EncodeFSeid(v), v.flags;
            var six := 9 + Size(Flag(f, 2), 4);
            && |b| == six + Size(Flag(f, 1), 16) && b[0] == f && NumAt(b, 1, v.seid, 8)
            && (Flag(f, 2) ==> OctetsAt(b, 9, v.ip4)) && (Flag(f, 1) ==> OctetsAt(b, six, v.ip6))
  {
    hide NumAt, PutAddr, Flag, BigEndian, OctetsAt;
    var f, b, n := v.flags, EncodeFSeid(v), BigEndian(v.seid, 8);
    var x, y := PutAddr(Flag(f, 2), v.ip4), PutAddr(Flag(f, 1), v.ip6);
    assert b == [f] + n + (x + y) && b == ([f] + n) + x + y && b == ([f] + n + x) + y + [];
    PutsNumber([f], v.seid, 8, x + y);
    AddrPart([f] + n, Flag(f, 2), v.ip4, y);
    AddrPart([f] + n + x, Flag(f, 1), v.ip6, []);
  }

  /** The kind of name (0 IPv4, 1 IPv6, 2 FQDN), then the name. */
  lemma NodeIdWire(v: NodeId)
    ensures var b := EncodeNodeId(v);
            && |b| >= 1
            && (v.NodeIp4? ==> b[0] == 0 && b[1..] == v.ip4)
            && (v.NodeIp6? ==> b[0] == 1 && b[1..] == v.ip6)
            && (v.NodeFqdn? ==> b[0] == 2 && b[1..] == v.name)
  {
  }

  /** Flags, IPv4 address (2), IPv6 address (1), delegated prefix length (8),
      prefix length (64). */
  lemma UeIpWire(v: Leaves.UeIp)
    requires |v.ip4| == 4 && |v.ip6| == 16
    ensures var b, f := EncodeUeIp(v), v.flags;
            var six := 1 + Size(Flag(f, 2), 4);
            var deleg := six + Size(Flag(f, 1), 16);
            var plen := deleg + Size(Flag(f, 8), 1);
            && |b| == plen + Size(Flag(f, 64), 1) && b[0] == f
            && (Flag(f, 2) ==> OctetsAt(b, 1, v.ip4)) && (Flag(f, 1) ==> OctetsAt(b, six, v.ip6))
            && (Flag(f, 8) ==> NumAt(b, deleg, v.delegation, 1)) && (Flag(f, 64) ==> NumAt(b, plen, v.prefix, 1))
  {
    hide NumAt, PutAddr, PutNum, Flag, OctetsAt;
    var f, b := v.flags, EncodeUeIp(v);
    var x, y := PutAddr(Flag(f, 2), v.ip4), PutAddr(Flag(f, 1), v.ip6);
    var z, w := PutNum(Flag(f, 8), v.delegation, 1), PutNum(Flag(f, 64), v.prefix, 1);
    assert b == [f] + x + (y + z + w) && b == ([f] + x) + y + (z + w);
    assert b == ([f] + x + y) + z + w && b == ([f] + x + y + z) + w + [];
    AddrPart([f], Flag(f, 2), v.ip4, y + z + w);
    AddrPart([f] + x, Flag(f, 1), v.ip6, z + w);
    NumPart([f] + x + y, Flag(f, 8), v.delegation, 1, w);
    NumPart([f] + x + y + z, Flag(f, 64), v.prefix, 1, []);
  }

  /** Flags, tunnel endpoint, IPv4 address (1), IPv6 address (2), choose id (8). */
  lemma FTeidWire(v: FTeid)
    requires |v.ip4| == 4 && |v.ip6| == 16
    ensures var b, f := EncodeFTeid(v), v.flags;
            var six := 5 + Size(Flag(f, 1), 4);
            var id := six + Size(Flag(f, 2), 16);
            && |b| == id + Size(Flag(f, 8), 1) && b[0] == f && NumAt(b, 1, v.teid, 4)
            && (Flag(f, 1) ==> OctetsAt(b, 5, v.ip4)) && (Flag(f, 2) ==> OctetsAt(b, six, v.ip6))
            && (Flag(f, 8) ==> NumAt(b, id, v.chooseId, 1))
  {
    hide NumAt, PutAddr, PutNum, Flag, OctetsAt, BigEndian;
    var f, b, n := v.flags, EncodeFTeid(v), BigEndian(v.teid, 4);
    var x, y, z := PutAddr(Flag(f, 1), v.ip4), PutAddr(Flag(f, 2), v.ip6), PutNum(Flag(f, 8), v.chooseId, 1);
    assert b == [f] + n + (x + y + z) && b == ([f] + n) + x + (y + z);
    assert b == ([f] + n + x) + y + z && b == ([f] + n + x + y) + z + [];
    PutsNumber([f], v.teid, 4, x + y + z);
    AddrPart([f] + n, Flag(f, 1), v.ip4, y + z);
    AddrPart([f] + n + x, Flag(f, 2), v.ip6, z);
    NumPart([f] + n + x + y, Flag(f, 8), v.chooseId, 1, []);
  }

  /** Four flags and a spare, the counted description (1), type of service (2),
      security parameter index (4), flow label (8), filter id (16). */
  lemma SdfWire(v: SdfFilter)
    ensures var b, f := EncodeSdf(v), v.flags;
            var tos := 2 + Size(Flag(f, 1), 2 + |v.flow|);
            var spi := tos + Size(Flag(f, 2), 2);
            var flowLabel := spi + Size(Flag(f, 4), 4);
            var id := flowLabel + Size(Flag(f, 8), 3);
            && |b| == id + Size(Flag(f, 16), 4) && b[0] == f % 16 && b[1] == 0
            && (Flag(f, 1) ==> NumAt(b, 2, |v.flow|, 2) && OctetsAt(b, 4, v.flow))
            && (Flag(f, 2) ==> NumAt(b, tos, v.tos, 2)) && (Flag(f, 4) ==> NumAt(b, spi, v.spi, 4))
            && (Flag(f, 8) ==> NumAt(b, flowLabel, v.flowLabel, 3)) && (Flag(f, 16) ==> NumAt(b, id, v.filterId, 4))
  {
    hide NumAt, PutNum, Flag, OctetsAt, PutFlow;
    var f, b := v.flags, EncodeSdf(v);
    var h := [f % 16, 0];
    var x, y, z := PutFlow(Flag(f, 1), v.flow), PutNum(Flag(f, 2), v.tos, 2), PutNum(Flag(f, 4), v.spi, 4);
    var w, u := PutNum(Flag(f, 8), v.flowLabel, 3), PutNum(Flag(f, 16), v.filterId, 4);
    assert b == h + x + (y + z + w + u) && b == (h + x) + y + (z + w + u) && b == (h + x + y) + z + (w + u);
    assert b == (h + x + y + z) + w + u && b == (h + x + y + z + w) + u + [];
    FlowPart(h, Flag(f, 1), v.flow, y + z + w + u);
    NumPart(h + x, Flag(f, 2), v.tos, 2, z + w + u);
    NumPart(h + x + y, Flag(f, 4), v.spi, 4, w + u);
    NumPart(h + x + y + z, Flag(f, 8), v.flowLabel, 3, u);
    NumPart(h + x + y + z + w, Flag(f, 16), v.filterId, 4, []);
  }

  lemma FlowPart(front: bytes, present: bool, flow: bytes, tail: bytes)
    ensures var b := front + PutFlow(present, flow) + tail;
            present ==> NumAt(b, |front|, |flow|, 2) && OctetsAt(b, |front| + 2, flow)
    ensures |PutFlow(present, flow)| == Size(present, 2 + |flow|)
  {
    hide NumAt, BigEndian;
    if present {
      var n, b := BigEndian(|flow|, 2), front + PutFlow(present, flow) + tail;
      assert b == front + n + (flow + tail) && b == (front + n) + flow + tail;
      PutsNumber(front, |flow|, 2, flow + tail);
      PutsOctets(front + n, flow, tail);
    }
  }

  lemma {:induction false} CsidsAt(front: bytes, c: seq<nat>, j: nat)
    requires j < |c|
    ensures NumAt(front + PutCsids(c), |front| + 2 * j, c[j], 2)
    decreases |c|
  {
    hide NumAt, BigEndian;
    var n := BigEndian(c[0], 2);
    assert front + PutCsids(c) == front + n + PutCsids(c[1..]);
    if j == 0 {
      PutsNumber(front, c[0], 2, PutCsids(c[1..]));
    } else {
      CsidsAt(front + n, c[1..], j - 1);
    }
  }

  /** Kind of node and number of identifiers in one octet, the node, and the
      identifiers in order. */
  lemma FqCsidWire(v: FqCsid, j: nat)
    requires (v.node.CsidIp4? ==> |v.node.ip4| == 4) && (v.node.CsidIp6? ==> |v.node.ip6| == 16)
    ensures var b, n := EncodeFqCsid(v), PutCsidNode(v.node);
            && |b| >= 1 + |n|
            && (v.node.CsidIp4? ==> b[0] == |v.csid| % 16 && OctetsAt(b, 1, v.node.ip4))
            && (v.node.CsidIp6? ==> b[0] == 16 + |v.csid| % 16 && OctetsAt(b, 1, v.node.ip6))
            && (v.node.CsidNid? ==> b[0] == 32 + |v.csid| % 16
                                    && NumAt(b, 1, (v.node.mcc * 1000 + v.node.mnc) * 4096 + v.node.nid % 4096, 4))
            && (j < |v.csid| ==>
                  NumAt(b, (if v.node.CsidIp6? then 17 else if v.node.CsidNone? then 1 else 5) + 2 * j, v.csid[j], 2))
  {
    hide NumAt, BigEndian, PutCsids;
    var b, n := EncodeFqCsid(v), PutCsidNode(v.node);
    var h := [b[0]];
    assert b == h + n + PutCsids(v.csid);
    PutsOctets(h, n, PutCsids(v.csid));
    if v.node.CsidNid? {
      PutsNumber(h, (v.node.mcc * 1000 + v.node.mnc) * 4096 + v.node.nid % 4096, 4, PutCsids(v.csid));
    }
    if j < |v.csid| {
      CsidsAt(h + n, v.csid, j);
    }
  }

  /** A string that is not empty stands here as its length and its octets. */
  ghost predicate CountedAt(b: bytes, at: nat, a: bytes) {
    a != [] ==> at < |b| && b[at] == |a| && OctetsAt(b, at + 1, a)
  }

  lemma CountedPart(front: bytes, a: bytes, tail: bytes)
    requires |a| < 256
    ensures CountedAt(front + PutCounted(a) + tail, |front|, a)
    ensures |PutCounted(a)| == Size(a != [], 1 + |a|)
  {
    if a != [] {
      PutsOctets(front + [|a| % 256], a, tail);
      assert front + PutCounted(a) + tail == front + [|a| % 256] + a + tail;
    }
  }

  /** Flags (1 IMEI, 2 IMSI, 4 MSISDN, 16 NAI), then the counted strings. */
  lemma UserIdWire(v: UserId)
    requires |v.imei| < 256 && |v.imsi| < 256 && |v.msisdn| < 256 && |v.nai| < 256
    ensures var b := EncodeUserId(v);
            var imsi := 1 + Size(v.imei != [], 1 + |v.imei|);
            var msisdn := imsi + Size(v.imsi != [], 1 + |v.imsi|);
            var nai := msisdn + Size(v.msisdn != [], 1 + |v.msisdn|);
            && |b| == nai + Size(v.nai != [], 1 + |v.nai|)
            && b[0] == Size(v.imei != [], 1) + Size(v.imsi != [], 2) + Size(v.msisdn != [], 4) + Size(v.nai != [], 16)
            && CountedAt(b, 1, v.imei) && CountedAt(b, imsi, v.imsi)
            && CountedAt(b, msisdn, v.msisdn) && CountedAt(b, nai, v.nai)
  {
    hide OctetsAt, PutCounted, CountedAt;
    var h, b := [UserIdFlags(v)], EncodeUserId(v);
    var x, y, z, w := PutCounted(v.imei), PutCounted(v.imsi), PutCounted(v.msisdn), PutCounted(v.nai);
    assert b == h + x + (y + z + w) && b == (h + x) + y + (z + w) && b == (h + x + y) + z + w && b == (h + x + y + z) + w + [];
    CountedPart(h, v.imei, y + z + w);
    CountedPart(h + x, v.imsi, z + w);
    CountedPart(h + x + y, v.msisdn, w);
    CountedPart(h + x + y + z, v.nai, []);
    UserIdFlagged(v);
    hide UserIdFlags, EncodeUserId;
  }

  lemma UserIdFlagged(v: UserId)
    ensures EncodeUserId(v) != [] && EncodeUserId(v)[0] == UserIdFlags(v)
    ensures UserIdFlags(v) == Size(v.imei != [], 1) + Size(v.imsi != [], 2) + Size(v.msisdn != [], 4) + Size(v.nai != [], 16)
  {
  }

  // ----- a whole message

  lemma DigitsOfTime(n: nat)
    ensures BigEndian(n, 4) == [n / 0x100_0000 % 256, n / 0x1_0000 % 256, n / 256 % 256, n % 256]
  {
    BigEndianDigit(n, 4, 0);
    BigEndianDigit(n, 4, 1);
    BigEndianDigit(n, 4, 2);
    BigEndianDigit(n, 4, 3);
    assert Pow256(0) == 1 && Pow256(1) == 256 && Pow256(2) == 0x1_0000 && Pow256(3) == 0x100_0000;
    hide BigEndian;
  }

  lemma DigitsOfSequence(n: nat)
    ensures BigEndian(n, 3) == [n / 0x1_0000 % 256, n / 256 % 256, n % 256]
  {
    BigEndianDigit(n, 3, 0);
    BigEndianDigit(n, 3, 1);
    BigEndianDigit(n, 3, 2);
    assert Pow256(0) == 1 && Pow256(1) == 256 && Pow256(2) == 0x1_0000;
    hide BigEndian;
  }

  /** A heartbeat request, all sixteen octets. */
  lemma HeartbeatOctets(seqNo: nat, t: nat)
    requires t < 0x1_0000_0000
    ensures var n := (t + 2208988800) % 0x1_0000_0000;
            EncodeMsg(PfcpInstance.Elements(), PfcpInstance.Messages(), PfcpInstance.Heartbeat(seqNo, t))
            == Ok([0x20, 1, 0, 12, seqNo / 0x1_0000 % 256, seqNo / 256 % 256, seqNo % 256, 0,
                   0, 96, 0, 4, n / 0x100_0000 % 256, n / 0x1_0000 % 256, n / 256 % 256, n % 256])
  {
    var n := (t + 2208988800) % 0x1_0000_0000;
    NtpAndBack(t);
    DigitsOfTime(n);
    DigitsOfSequence(seqNo);
    U16Is(12);
    U16Is(96);
    U16Is(4);
    PfcpInstance.HeartbeatEncodes(seqNo, t);
    assert EncodeTime(t) == BigEndian(n, 4);
    hide *;
    Sixteen([0, 12], BigEndian(seqNo, 3), [0, 96], [0, 4], BigEndian(n, 4));
  }

  lemma Sixteen(n: bytes, s: bytes, e: bytes, l: bytes, t: bytes)
    requires |n| == |e| == |l| == 2 && |s| == 3 && |t| == 4
    ensures [0x20, 1] + n + s + [0] + (e + l + t)
         == [0x20, 1, n[0], n[1], s[0], s[1], s[2], 0, e[0], e[1], l[0], l[1], t[0], t[1], t[2], t[3]]
  {
  }

  lemma U16Is(n: nat)
    ensures U16(n) == [n / 256 % 256, n % 256]
  {
    U16Octets(n);
  }
}
