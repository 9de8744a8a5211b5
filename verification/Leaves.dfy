/** Leaf codecs, and for each of them exactly which values survive encoding
    followed by decoding. */
module Leaves {
  import opened Bytes
  import opened Codec

  // ----- octet readers

  predicate Flag(n: nat, bit: nat)
    requires bit > 0
  {
    (n / bit) % 2 == 1
  }

  function Zeros(n: nat): (z: bytes)
    ensures |z| == n
  {
    seq(n, _ => 0)
  }

  /** A number of k octets, if its flag is set. */
  function PutNum(present: bool, n: nat, k: nat): bytes {
    if present then BigEndian(n, k) else []
  }

  /** Reads a number of k octets if its flag is set; without it the field keeps
      the zero it was initialised with. */
  function GetNum(present: bool, b: bytes, k: nat): Result<(nat, bytes)> {
    if !present then Ok((0, b))
    else if |b| < k then Err(CAUSE_INVALID_LENGTH)
    else Ok((FromBigEndian(b[..k]), b[k..]))
  }

  lemma NumTrip(present: bool, n: nat, k: nat, tail: bytes)
    ensures Pow256(k) > 0
    ensures GetNum(present, PutNum(present, n, k) + tail, k)
         == Ok((if present then n % Pow256(k) else 0, tail))
  {
    BigEndianLow(n, k);
    var b := PutNum(present, n, k) + tail;
    if present {
      assert b[..k] == BigEndian(n, k) && b[k..] == tail;
    } else {
      assert b == tail;
    }
  }

  /** An address of k octets, if its flag is set. */
  function PutAddr(present: bool, a: bytes): bytes {
    if present then a else []
  }

  function GetAddr(present: bool, b: bytes, k: nat): Result<(bytes, bytes)> {
    if !present then Ok((Zeros(k), b))
    else if |b| < k then Err(CAUSE_INVALID_LENGTH)
    else Ok((b[..k], b[k..]))
  }

  lemma AddrTrip(present: bool, a: bytes, tail: bytes)
    ensures GetAddr(present, PutAddr(present, a) + tail, |a|) == Ok((if present then a else Zeros(|a|), tail))
  {
    var b := PutAddr(present, a) + tail;
    if present {
      assert b[..|a|] == a && b[|a|..] == tail;
    } else {
      assert b == tail;
    }
  }

  // ----- numbers and octet strings

  function DecodeNum(b: bytes, k: nat): Result<nat> {
    if |b| < k then Err(CAUSE_INVALID_LENGTH) else Ok(FromBigEndian(b[..k]))
  }

  /** Fixed-size numbers (u8, u16, u32): all that fit survive. */
  lemma NumberRoundTrip(n: nat, k: nat)
    ensures Pow256(k) > 0
    ensures DecodeNum(BigEndian(n, k), k) == Ok(n) <==> n < Pow256(k)
  {
    BigEndianLow(n, k);
    hide FromBigEndian, Pow256;
    assert BigEndian(n, k)[..k] == BigEndian(n, k);
    FitsIffUnchanged(n, Pow256(k));
  }

  lemma FitsIffUnchanged(n: nat, m: nat)
    requires m > 0
    ensures n % m == n <==> n < m
  {
    if n < m {
      ModUnique(n, 0, n, m);
    }
  }

  /** Bit rates: two numbers of 40 bits. */
  datatype BitRate = BitRate(ul: nat, dl: nat)

  function EncodeBitRate(v: BitRate): bytes {
    BigEndian(v.ul, 5) + BigEndian(v.dl, 5)
  }

  function DecodeBitRate(b: bytes): Result<BitRate> {
    if |b| < 10 then Err(CAUSE_INVALID_LENGTH)
    else Ok(BitRate(FromBigEndian(b[..5]), FromBigEndian(b[5..10])))
  }

  lemma BitRateRoundTrip(v: BitRate)
    ensures DecodeBitRate(EncodeBitRate(v)) == Ok(v) <==> v.ul < Pow256(5) && v.dl < Pow256(5)
  {
    var b := EncodeBitRate(v);
    assert b[..5] == BigEndian(v.ul, 5) && b[5..10] == BigEndian(v.dl, 5);
    BigEndianLow(v.ul, 5);
    BigEndianLow(v.dl, 5);
    hide FromBigEndian, Pow256;
    FitsIffUnchanged(v.ul, Pow256(5));
    FitsIffUnchanged(v.dl, Pow256(5));
  }

  // ----- time stamps

  const ERA_0_OFFSET := 2208988800
  const ERA_1_OFFSET := 2085978496

  /** Seconds since 1970 to the timestamp of section 6 of RFC 5905 and back;
      both directions work modulo 2^32. */
  function ToNtp(v: nat): nat {
    if v >= ERA_1_OFFSET then v - ERA_1_OFFSET else v + ERA_0_OFFSET
  }

  function FromNtp(t: nat): nat {
    if t >= 0x8000_0000 then (t - ERA_0_OFFSET) % 0x1_0000_0000 else (t + ERA_1_OFFSET) % 0x1_0000_0000
  }

  function EncodeTime(v: nat): bytes {
    BigEndian(ToNtp(v), 4)
  }

  function DecodeTime(b: bytes): Result<nat> {
    if |b| != 4 then Err(CAUSE_INVALID_LENGTH) else Ok(FromNtp(FromBigEndian(b)))
  }

  /** The two eras are one translation modulo 2^32, so every 32-bit time
      survives, on either side of both era boundaries. */
  lemma TimeRoundTrip(v: nat)
    requires v < 0x1_0000_0000
    ensures ToNtp(v) == (v + ERA_0_OFFSET) % 0x1_0000_0000
    ensures DecodeTime(EncodeTime(v)) == Ok(v)
  {
    FourOctets();
    hide BigEndian, FromBigEndian, ToNtp, FromNtp, Pow256;
    NtpAndBack(v);
    BigEndianLow(ToNtp(v), 4);
  }

  lemma FourOctets()
    ensures Pow256(4) == 0x1_0000_0000
  {
  }

  lemma NtpAndBack(v: nat)
    requires v < 0x1_0000_0000
    ensures ToNtp(v) == (v + ERA_0_OFFSET) % 0x1_0000_0000 < 0x1_0000_0000
    ensures FromNtp(ToNtp(v)) == v
  {
  }

  // ----- volumes

  datatype Volume = Volume(fields: byte, total: nat, ul: nat, dl: nat)

  function EncodeVolume(v: Volume): bytes {
    [v.fields] + (PutNum(Flag(v.fields, 1), v.total, 8)
                  + (PutNum(Flag(v.fields, 2), v.ul, 8) + (PutNum(Flag(v.fields, 4), v.dl, 8) + [])))
  }

  function DecodeVolume(b: bytes): Result<Volume> {
    if |b| < 1 then Err(CAUSE_INVALID_LENGTH)
    else
      var f: byte := b[0] % 8;
      var total :- GetNum(Flag(f, 1), b[1..], 8);
      var ul :- GetNum(Flag(f, 2), total.1, 8);
      var dl :- GetNum(Flag(f, 4), ul.1, 8);
      Ok(Volume(f, total.0, ul.0, dl.0))
  }

  lemma VolumeRoundTrip(v: Volume)
    requires v.total < Pow256(8) && v.ul < Pow256(8) && v.dl < Pow256(8)
    ensures DecodeVolume(EncodeVolume(v)) == Ok(v) <==>
            v.fields < 8
            && (Flag(v.fields, 1) || v.total == 0) && (Flag(v.fields, 2) || v.ul == 0) && (Flag(v.fields, 4) || v.dl == 0)
  {
    hide Flag, PutNum, GetNum;
    var f := v.fields;
    if f < 8 {
      var t3 := PutNum(Flag(f, 4), v.dl, 8) + [];
      var t2 := PutNum(Flag(f, 2), v.ul, 8) + t3;
      assert EncodeVolume(v)[1..] == PutNum(Flag(f, 1), v.total, 8) + t2;
      NumTrip(Flag(f, 1), v.total, 8, t2);
      NumTrip(Flag(f, 2), v.ul, 8, t3);
      NumTrip(Flag(f, 4), v.dl, 8, []);
    }
  }

  // ----- F-SEID

  datatype FSeid = FSeid(flags: byte, seid: nat, ip4: bytes, ip6: bytes)

  function EncodeFSeid(v: FSeid): bytes {
    [v.flags] + (BigEndian(v.seid, 8) + (PutAddr(Flag(v.flags, 2), v.ip4) + (PutAddr(Flag(v.flags, 1), v.ip6) + [])))
  }

  /** The length checks for the addresses do not count what was read before, so
      they pass some elements that are cut short: those are malformed. */
  function DecodeFSeid(b: bytes): Result<FSeid> {
    if |b| < 9 then Err(CAUSE_INVALID_LENGTH)
    else
      var f: byte := b[0] % 4;
      if f == 0 then Err(-1)
      else
        var ip4 := GetAddr(Flag(f, 2), b[9..], 4);
        if !ip4.Ok? then Malformed
        else if Flag(f, 1) && |b| - (if Flag(f, 2) then 4 else 0) < 16 then Err(CAUSE_INVALID_LENGTH)
        else
          var ip6 := GetAddr(Flag(f, 1), ip4.value.1, 16);
          if !ip6.Ok? then Malformed
          else Ok(FSeid(f, FromBigEndian(b[1..9]), ip4.value.0, ip6.value.0))
  }

  /** Absent addresses come back as zeros. */
  lemma FSeidTrip(v: FSeid)
    requires v.seid < Pow256(8) && |v.ip4| == 4 && |v.ip6| == 16 && 1 <= v.flags <= 3
    ensures DecodeFSeid(EncodeFSeid(v))
         == Ok(v.(ip4 := if Flag(v.flags, 2) then v.ip4 else Zeros(4), ip6 := if Flag(v.flags, 1) then v.ip6 else Zeros(16)))
  {
    hide Flag, BigEndian, FromBigEndian, Pow256, Zeros;
    var f, b := v.flags, EncodeFSeid(v);
    BigEndianLow(v.seid, 8);
    FitsIffUnchanged(v.seid, Pow256(8));
    hide GetAddr;
    var t := PutAddr(Flag(f, 1), v.ip6) + [];
    var z := PutAddr(Flag(f, 2), v.ip4) + t;
    assert |z| == (if Flag(f, 2) then 4 else 0) + (if Flag(f, 1) then 16 else 0);
    AddrTrip(Flag(f, 2), v.ip4, t);
    AddrTrip(Flag(f, 1), v.ip6, []);
    hide PutAddr;
    AfterNineOctets(f, BigEndian(v.seid, 8), z);
  }

  lemma AfterNineOctets(f: byte, y: bytes, z: bytes)
    requires |y| == 8
    ensures var b := [f] + (y + z); b[0] == f && b[1..9] == y && b[9..] == z && |b| == 9 + |z|
  {
  }

  /** The decoder keeps two flags, of which one must be set. */
  lemma FSeidFlags(b: bytes)
    requires |b| > 0
    ensures DecodeFSeid(b).Ok? ==> 1 <= DecodeFSeid(b).value.flags <= 3 && DecodeFSeid(b).value.flags == b[0] % 4
  {
    hide Flag, FromBigEndian, GetAddr;
  }

  lemma FSeidRoundTrip(v: FSeid)
    requires v.seid < Pow256(8) && |v.ip4| == 4 && |v.ip6| == 16
    ensures DecodeFSeid(EncodeFSeid(v)) == Ok(v) <==>
            1 <= v.flags <= 3 && (Flag(v.flags, 2) || v.ip4 == Zeros(4)) && (Flag(v.flags, 1) || v.ip6 == Zeros(16))
  {
    assert |EncodeFSeid(v)| > 0;
    hide Flag, Pow256, DecodeFSeid, EncodeFSeid, Zeros;
    if 1 <= v.flags <= 3 {
      FSeidTrip(v);
    } else {
      FSeidFlags(EncodeFSeid(v));
    }
  }

  // ----- Node ID

  datatype NodeId = NodeIp4(ip4: bytes) | NodeIp6(ip6: bytes) | NodeFqdn(name: bytes) | NodeOther(typ: byte)

  function EncodeNodeId(v: NodeId): bytes {
    match v
    case NodeIp4(a) => [0] + a
    case NodeIp6(a) => [1] + a
    case NodeFqdn(name) => [2] + name
    case NodeOther(t) => [t]
  }

  function DecodeNodeId(b: bytes): Result<NodeId> {
    if |b| < 1 then Err(CAUSE_INVALID_LENGTH)
    else
      var t := b[0] % 16;
      if t == 0 then (if |b| < 5 then Err(CAUSE_INVALID_LENGTH) else Ok(NodeIp4(b[1..5])))
      else if t == 1 then (if |b| < 17 then Err(CAUSE_INVALID_LENGTH) else Ok(NodeIp6(b[1..17])))
      else if t == 2 then Ok(NodeFqdn(b[1..]))
      else Err(CAUSE_REQUEST_REJECTED)
  }

  lemma NodeIdRoundTrip(v: NodeId)
    requires v.NodeIp4? ==> |v.ip4| == 4
    requires v.NodeIp6? ==> |v.ip6| == 16
    ensures DecodeNodeId(EncodeNodeId(v)) == Ok(v) <==> !v.NodeOther?
  {
    match v
    case NodeIp4(a) => assert EncodeNodeId(v)[1..5] == a;
    case NodeIp6(a) => assert EncodeNodeId(v)[1..17] == a;
    case NodeFqdn(name) => assert EncodeNodeId(v)[1..] == name;
    case NodeOther(_) =>
  }

  // ----- UE IP address

  datatype UeIp = UeIp(flags: byte, ip4: bytes, ip6: bytes, delegation: byte, prefix: byte)

  function EncodeUeIp(v: UeIp): bytes {
    [v.flags] + (PutAddr(Flag(v.flags, 2), v.ip4) + (PutAddr(Flag(v.flags, 1), v.ip6)
    + (PutNum(Flag(v.flags, 8), v.delegation, 1) + (PutNum(Flag(v.flags, 64), v.prefix, 1) + []))))
  }

  function DecodeUeIp(b: bytes): Result<UeIp> {
    if |b| < 1 then Err(CAUSE_INVALID_LENGTH)
    else
      var f := b[0];
      var ip4 :- GetAddr(Flag(f, 2), b[1..], 4);
      var ip6 :- GetAddr(Flag(f, 1), ip4.1, 16);
      var delegation :- GetNum(Flag(f, 8), ip6.1, 1);
      var prefix :- GetNum(Flag(f, 64), delegation.1, 1);
      OneOctet(delegation.0, prefix.0, ip6.1, delegation.1, f);
      Ok(UeIp(f, ip4.0, ip6.0, delegation.0, prefix.0))
  }

  lemma OneOctet(x: nat, y: nat, b: bytes, c: bytes, f: byte)
    requires GetNum(Flag(f, 8), b, 1).Ok? && GetNum(Flag(f, 8), b, 1).value.0 == x
    requires GetNum(Flag(f, 64), c, 1).Ok? && GetNum(Flag(f, 64), c, 1).value.0 == y
    ensures x < 256 && y < 256
  {
    OneOctetNumber(b);
    OneOctetNumber(c);
  }

  lemma OneOctetNumber(b: bytes)
    ensures |b| >= 1 ==> FromBigEndian(b[..1]) < 256
  {
    if |b| >= 1 {
      assert b[..1][..0] == [];
    }
  }

  lemma UeIpRoundTrip(v: UeIp)
    requires |v.ip4| == 4 && |v.ip6| == 16
    ensures DecodeUeIp(EncodeUeIp(v)) == Ok(v) <==>
            (Flag(v.flags, 2) || v.ip4 == Zeros(4)) && (Flag(v.flags, 1) || v.ip6 == Zeros(16))
            && (Flag(v.flags, 8) || v.delegation == 0) && (Flag(v.flags, 64) || v.prefix == 0)
  {
    var f := v.flags;
    var t4 := PutNum(Flag(f, 64), v.prefix, 1) + [];
    var t3 := PutNum(Flag(f, 8), v.delegation, 1) + t4;
    var t2 := PutAddr(Flag(f, 1), v.ip6) + t3;
    assert EncodeUeIp(v)[1..] == PutAddr(Flag(f, 2), v.ip4) + t2;
    AddrTrip(Flag(f, 2), v.ip4, t2);
    AddrTrip(Flag(f, 1), v.ip6, t3);
    NumTrip(Flag(f, 8), v.delegation, 1, t4);
    NumTrip(Flag(f, 64), v.prefix, 1, []);
    assert Pow256(1) == 256;
  }

  // ----- F-TEID

  datatype FTeid = FTeid(flags: byte, teid: nat, ip4: bytes, ip6: bytes, chooseId: byte)

  function EncodeFTeid(v: FTeid): bytes {
    [v.flags] + (BigEndian(v.teid, 4) + (PutAddr(Flag(v.flags, 1), v.ip4)
    + (PutAddr(Flag(v.flags, 2), v.ip6) + PutNum(Flag(v.flags, 8), v.chooseId, 1))))
  }

  function DecodeFTeid(b: bytes): Result<FTeid> {
    if |b| < 1 then Err(CAUSE_INVALID_LENGTH)
    else
      var f: byte := b[0] % 16;
      if Flag(f, 4) then
        if !Flag(f, 1) && !Flag(f, 2) then Err(-1)
        else if |b| < 2 then Malformed
        else Ok(FTeid(f, 0, Zeros(4), Zeros(16), b[1]))
      else if |b| < 4 then Err(CAUSE_INVALID_LENGTH)
      else if |b| < 5 then Malformed
      else if Flag(f, 8) || (!Flag(f, 1) && !Flag(f, 2)) then Err(-1)
      else
        var ip4 := GetAddr(Flag(f, 1), b[5..], 4);
        if Flag(f, 1) && |b| - 4 < 4 then Err(CAUSE_INVALID_LENGTH)
        else if !ip4.Ok? then Malformed
        else if Flag(f, 2) && |b| - 4 - (if Flag(f, 1) then 4 else 0) < 16 then Err(CAUSE_INVALID_LENGTH)
        else
          var ip6 := GetAddr(Flag(f, 2), ip4.value.1, 16);
          if !ip6.Ok? then Malformed
          else Ok(FTeid(f, FromBigEndian(b[1..5]), ip4.value.0, ip6.value.0, 0))
  }

  /** With the choose flag the decoder reads the choose identifier where the
      encoder wrote the tunnel identifier: then only the all-zero value survives. */
  lemma FTeidRoundTrip(v: FTeid)
    requires v.teid < Pow256(4) && |v.ip4| == 4 && |v.ip6| == 16
    ensures DecodeFTeid(EncodeFTeid(v)) == Ok(v) <==>
            v.flags < 16 && (Flag(v.flags, 1) || Flag(v.flags, 2))
            && (if Flag(v.flags, 4)
                then v.teid == 0 && v.ip4 == Zeros(4) && v.ip6 == Zeros(16) && v.chooseId == 0
                else !Flag(v.flags, 8) && v.chooseId == 0
                     && (Flag(v.flags, 1) || v.ip4 == Zeros(4)) && (Flag(v.flags, 2) || v.ip6 == Zeros(16)))
  {
    var f, b := v.flags, EncodeFTeid(v);
    BigEndianLow(v.teid, 4);
    assert b[1..5] == BigEndian(v.teid, 4);
    if f < 16 {
      if Flag(f, 4) {
        assert b[1] == BigEndian(v.teid, 4)[0];
        TopOctetOfZero(v.teid);
      } else if !Flag(f, 8) {
        var t := PutAddr(Flag(f, 2), v.ip6) + [];
        assert b[5..] == PutAddr(Flag(f, 1), v.ip4) + t;
        AddrTrip(Flag(f, 1), v.ip4, t);
        AddrTrip(Flag(f, 2), v.ip6, []);
      }
    }
  }

  lemma TopOctetOfZero(n: nat)
    ensures n == 0 ==> BigEndian(n, 4)[0] == 0
  {
    if n == 0 {
      assert BigEndian(0, 1) == [0];
      assert BigEndian(0, 2) == [0, 0];
      assert BigEndian(0, 3) == [0, 0, 0];
    }
  }

  // ----- SDF filter

  datatype SdfFilter = SdfFilter(flags: byte, flow: bytes, tos: nat, spi: nat, flowLabel: nat, filterId: nat)

  function PutFlow(present: bool, flow: bytes): bytes {
    if present then BigEndian(|flow|, 2) + flow else []
  }

  function GetFlow(present: bool, b: bytes): Result<(bytes, bytes)> {
    if !present then Ok(([], b))
    else if |b| < 2 then Err(CAUSE_INVALID_LENGTH)
    else
      var n := FromBigEndian(b[..2]);
      if |b| - 2 < n then Err(CAUSE_INVALID_LENGTH) else Ok((b[2..2 + n], b[2 + n..]))
  }

  lemma FlowTrip(present: bool, flow: bytes, tail: bytes)
    requires |flow| < 65536
    ensures GetFlow(present, PutFlow(present, flow) + tail) == Ok((if present then flow else [], tail))
  {
    var b := PutFlow(present, flow) + tail;
    if present {
      U16RoundTrip(|flow|, flow + tail);
      assert b == U16(|flow|) + (flow + tail);
      assert b[2..2 + |flow|] == flow && b[2 + |flow|..] == tail;
    } else {
      assert b == tail;
    }
  }

  function EncodeSdf(v: SdfFilter): bytes {
    var f := v.flags;
    [f % 16, 0] + (PutFlow(Flag(f, 1), v.flow) + (PutNum(Flag(f, 2), v.tos, 2) + (PutNum(Flag(f, 4), v.spi, 4)
    + (PutNum(Flag(f, 8), v.flowLabel, 3) + PutNum(Flag(f, 16), v.filterId, 4)))))
  }

  /** The flags are masked to four bits, so the filter identifier is never read. */
  function DecodeSdf(b: bytes): Result<SdfFilter> {
    if |b| < 2 then Err(CAUSE_INVALID_LENGTH)
    else
      var f: byte := b[0] % 16;
      var flow :- GetFlow(Flag(f, 1), b[2..]);
      var tos :- GetNum(Flag(f, 2), flow.1, 2);
      var spi :- GetNum(Flag(f, 4), tos.1, 4);
      var flowLabel :- GetNum(Flag(f, 8), spi.1, 3);
      Ok(SdfFilter(f, flow.0, tos.0, spi.0, flowLabel.0, 0))
  }

  lemma FlagsBelow16(f: byte)
    ensures Flag(f, 1) == Flag(f % 16, 1) && Flag(f, 2) == Flag(f % 16, 2)
    ensures Flag(f, 4) == Flag(f % 16, 4) && Flag(f, 8) == Flag(f % 16, 8)
  {
    LowFlag(f / 16, f % 16);
  }

  lemma LowFlag(q: nat, r: nat)
    requires r < 16
    ensures Flag(16 * q + r, 1) == Flag(r, 1) && Flag(16 * q + r, 2) == Flag(r, 2)
    ensures Flag(16 * q + r, 4) == Flag(r, 4) && Flag(16 * q + r, 8) == Flag(r, 8)
  {
    assert (16 * q + r) / 2 == 8 * q + r / 2;
    assert (16 * q + r) / 4 == 4 * q + r / 4;
    assert (16 * q + r) / 8 == 2 * q + r / 8;
  }

  /** What decoding gives back: the low four flags and what they announce. */
  lemma SdfTrip(v: SdfFilter)
    requires |v.flow| < 65536
    ensures Pow256(2) == 65536 && Pow256(4) == 0x1_0000_0000 && Pow256(3) == 0x100_0000
    ensures var f := v.flags;
            DecodeSdf(EncodeSdf(v)) == Ok(SdfFilter(f % 16, if Flag(f, 1) then v.flow else [],
              if Flag(f, 2) then v.tos % Pow256(2) else 0, if Flag(f, 4) then v.spi % Pow256(4) else 0,
              if Flag(f, 8) then v.flowLabel % Pow256(3) else 0, 0))
  {
    var f := v.flags;
    FlagsBelow16(f);
    hide Flag, PutFlow, GetFlow, PutNum, GetNum;
    var t4 := PutNum(Flag(f, 16), v.filterId, 4);
    var t3 := PutNum(Flag(f, 8), v.flowLabel, 3) + t4;
    var t2 := PutNum(Flag(f, 4), v.spi, 4) + t3;
    var t1 := PutNum(Flag(f, 2), v.tos, 2) + t2;
    assert EncodeSdf(v)[2..] == PutFlow(Flag(f, 1), v.flow) + t1;
    FlowTrip(Flag(f, 1), v.flow, t1);
    NumTrip(Flag(f, 2), v.tos, 2, t2);
    NumTrip(Flag(f, 4), v.spi, 4, t3);
    NumTrip(Flag(f, 8), v.flowLabel, 3, t4);
  }

  /** A filter survives exactly when it has no filter identifier and its flow
      label has 24 bits: the flag for the identifier is lost on the way. */
  lemma SdfRoundTrip(v: SdfFilter)
    requires |v.flow| < 65536 && v.tos < 65536 && v.spi < 0x1_0000_0000 && v.flowLabel < 0x1_0000_0000
    ensures DecodeSdf(EncodeSdf(v)) == Ok(v) <==>
            v.flags < 16 && v.filterId == 0 && v.flowLabel < 0x100_0000
            && (Flag(v.flags, 1) || v.flow == []) && (Flag(v.flags, 2) || v.tos == 0)
            && (Flag(v.flags, 4) || v.spi == 0) && (Flag(v.flags, 8) || v.flowLabel == 0)
  {
    SdfTrip(v);
    hide Flag, DecodeSdf, EncodeSdf, Pow256;
    FitsIffUnchanged(v.flags, 16);
    FitsIffUnchanged(v.tos, Pow256(2));
    FitsIffUnchanged(v.spi, Pow256(4));
    FitsIffUnchanged(v.flowLabel, Pow256(3));
  }

  // ----- FQ-CSID

  datatype CsidNode = CsidIp4(ip4: bytes) | CsidIp6(ip6: bytes) | CsidNid(mcc: nat, mnc: nat, nid: nat) | CsidNone(typ: nat)

  datatype FqCsid = FqCsid(node: CsidNode, csid: seq<nat>)

  function CsidType(n: CsidNode): nat {
    match n
    case CsidIp4(_) => 0
    case CsidIp6(_) => 1
    case CsidNid(_, _, _) => 2
    case CsidNone(t) => t
  }

  function PutCsids(c: seq<nat>): bytes {
    if c == [] then [] else BigEndian(c[0], 2) + PutCsids(c[1..])
  }

  function GetCsids(b: bytes, n: nat): (c: seq<nat>)
    requires |b| >= 2 * n
    ensures |c| == n
  {
    if n == 0 then [] else [FromBigEndian(b[..2])] + GetCsids(b[2..], n - 1)
  }

  function PutCsidNode(n: CsidNode): bytes {
    match n
    case CsidIp4(a) => a
    case CsidIp6(a) => a
    case CsidNid(mcc, mnc, nid) => BigEndian((mcc * 1000 + mnc) * 4096 + nid % 4096, 4)
    case CsidNone(_) => []
  }

  function EncodeFqCsid(v: FqCsid): bytes {
    [(CsidType(v.node) * 16 + |v.csid| % 16) % 256] + (PutCsidNode(v.node) + PutCsids(v.csid))
  }

  function GetCsidNode(t: nat, b: bytes): Result<(CsidNode, bytes)> {
    if t == 0 then
      var a :- GetAddr(true, b, 4);
      Ok((CsidIp4(a.0), a.1))
    else if t == 1 then
      var a :- GetAddr(true, b, 16);
      Ok((CsidIp6(a.0), a.1))
    else if t == 2 then
      var id :- GetNum(true, b, 4);
      Ok((CsidNid(id.0 / 4096 / 1000, id.0 / 4096 % 1000, id.0 % 4096), id.1))
    else Ok((CsidNone(t), b))
  }

  function DecodeFqCsid(b: bytes): Result<FqCsid> {
    if |b| < 1 then Err(CAUSE_INVALID_LENGTH)
    else
      var node :- GetCsidNode(b[0] / 16, b[1..]);
      var n := b[0] % 16;
      if |node.1| < 2 * n then Err(CAUSE_INVALID_LENGTH)
      else Ok(FqCsid(node.0, GetCsids(node.1, n)))
  }

  lemma {:induction false} CsidsTrip(c: seq<nat>)
    requires forall i :: 0 <= i < |c| ==> c[i] < 65536
    ensures |PutCsids(c)| == 2 * |c| && GetCsids(PutCsids(c), |c|) == c
  {
    if c != [] {
      CsidsTrip(c[1..]);
      var b := PutCsids(c);
      U16RoundTrip(c[0], PutCsids(c[1..]));
      assert b[2..] == PutCsids(c[1..]);
      assert c == [c[0]] + c[1..];
    }
  }

  lemma NidArithmetic(mcc: nat, mnc: nat, nid: nat)
    requires mcc * 1000 + mnc < 0x10_0000 && mnc < 1000 && nid < 4096
    ensures var id := (mcc * 1000 + mnc) * 4096 + nid;
            id < 0x1_0000_0000 && id / 4096 / 1000 == mcc && id / 4096 % 1000 == mnc && id % 4096 == nid
  {
    var a := mcc * 1000 + mnc;
    assert (a * 4096 + nid) / 4096 == a;
    assert a / 1000 == mcc;
  }

  /** Node identifiers the format has room for: known address lengths, a
      three-digit network code and a 12-bit node number in 20 + 12 bits, and no
      other type above 15. */
  ghost predicate ValidCsidNode(n: CsidNode) {
    match n
    case CsidIp4(a) => |a| == 4
    case CsidIp6(a) => |a| == 16
    case CsidNid(mcc, mnc, nid) => mcc * 1000 + mnc < 0x10_0000 && mnc < 1000 && nid < 4096
    case CsidNone(t) => 3 <= t <= 15
  }

  lemma CsidNodeTrip(n: CsidNode, tail: bytes)
    requires ValidCsidNode(n)
    ensures GetCsidNode(CsidType(n), PutCsidNode(n) + tail) == Ok((n, tail))
  {
    match n
    case CsidIp4(a) => AddrTrip(true, a, tail);
    case CsidIp6(a) => AddrTrip(true, a, tail);
    case CsidNid(mcc, mnc, nid) =>
      var id := (mcc * 1000 + mnc) * 4096 + nid;
      NidArithmetic(mcc, mnc, nid);
      NumTrip(true, id, 4, tail);
      assert Pow256(4) == 0x1_0000_0000;
      FitsIffUnchanged(nid, 4096);
      FitsIffUnchanged(id, Pow256(4));
      hide BigEndian, GetNum, Pow256;
      assert PutNum(true, id, 4) == PutCsidNode(n);
    case CsidNone(_) => assert [] + tail == tail;
  }

  ghost predicate ValidFqCsid(v: FqCsid) {
    ValidCsidNode(v.node) && |v.csid| <= 15 && forall i :: 0 <= i < |v.csid| ==> v.csid[i] < 65536
  }

  lemma {:induction false} CsidsInRange(b: bytes, n: nat)
    requires |b| >= 2 * n
    ensures forall i :: 0 <= i < n ==> GetCsids(b, n)[i] < 65536
  {
    if n > 0 {
      CsidsInRange(b[2..], n - 1);
      GetU16Range(b);
    }
  }

  lemma FourOctetNumber(b: bytes)
    requires |b| == 4
    ensures FromBigEndian(b) < 0x1_0000_0000
  {
    assert FromBigEndian(b[..3]) == FromBigEndian(b[..3][..2]) * 256 + b[2];
    assert b[..3][..2] == b[..2];
    GetU16Range(b);
  }

  /** Whatever the decoder accepts is valid. */
  lemma DecodedFqCsidIsValid(b: bytes)
    ensures DecodeFqCsid(b).Ok? ==> ValidFqCsid(DecodeFqCsid(b).value)
  {
    if DecodeFqCsid(b).Ok? {
      var node := GetCsidNode(b[0] / 16, b[1..]).value;
      CsidsInRange(node.1, b[0] % 16);
      if b[0] / 16 == 2 {
        FourOctetNumber(b[1..][..4]);
      }
    }
  }

  /** An FQ-CSID survives exactly when it is valid. */
  lemma FqCsidRoundTrip(v: FqCsid)
    ensures DecodeFqCsid(EncodeFqCsid(v)) == Ok(v) <==> ValidFqCsid(v)
  {
    hide ValidFqCsid;
    DecodedFqCsidIsValid(EncodeFqCsid(v));
    if ValidFqCsid(v) {
      ValidFqCsidTrip(v);
    }
  }

  lemma CsidHeader(t: nat, n: nat)
    requires t <= 15 && n <= 15
    ensures (t * 16 + n % 16) % 256 / 16 == t && (t * 16 + n % 16) % 256 % 16 == n
  {
  }

  lemma ValidFqCsidTrip(v: FqCsid)
    requires ValidFqCsid(v)
    ensures DecodeFqCsid(EncodeFqCsid(v)) == Ok(v)
  {
    var b := EncodeFqCsid(v);
    CsidHeader(CsidType(v.node), |v.csid|);
    assert b[1..] == PutCsidNode(v.node) + PutCsids(v.csid);
    CsidNodeTrip(v.node, PutCsids(v.csid));
    CsidsTrip(v.csid);
    hide PutCsidNode, GetCsidNode, PutCsids, GetCsids;
  }

  /** With 16 identifiers the count is written as zero and all of them are lost. */
  lemma SixteenCsidsAreLost(v: FqCsid)
    requires v.node.CsidIp4? && |v.node.ip4| == 4 && |v.csid| == 16
    ensures DecodeFqCsid(EncodeFqCsid(v)) == Ok(FqCsid(v.node, []))
  {
    var b := EncodeFqCsid(v);
    assert b[0] == 0;
    assert b[1..] == PutCsidNode(v.node) + PutCsids(v.csid);
    CsidNodeTrip(v.node, PutCsids(v.csid));
  }

  // ----- User ID

  datatype UserId = UserId(imei: bytes, imsi: bytes, msisdn: bytes, nai: bytes)

  /** A counted string, announced by a flag when it is not empty. */
  function PutCounted(a: bytes): bytes {
    if a == [] then [] else [|a| % 256] + a
  }

  function GetCounted(present: bool, b: bytes, max: nat): Result<(bytes, bytes)> {
    if !present then Ok(([], b))
    else if |b| < 1 then Err(CAUSE_INVALID_LENGTH)
    else if b[0] > max || |b| - 1 < b[0] then Err(CAUSE_INVALID_LENGTH)
    else Ok((b[1..1 + b[0]], b[1 + b[0]..]))
  }

  lemma CountedTrip(a: bytes, max: nat, tail: bytes)
    requires |a| <= max && |a| < 256
    ensures GetCounted(a != [], PutCounted(a) + tail, max) == Ok((a, tail))
  {
    var b := PutCounted(a) + tail;
    if a == [] {
      assert b == tail;
    } else {
      assert b[0] == |a|;
      assert b[1..1 + |a|] == a && b[1 + |a|..] == tail;
    }
  }

  function UserIdFlags(v: UserId): byte {
    (if v.imei != [] then 1 else 0) + (if v.imsi != [] then 2 else 0)
    + (if v.msisdn != [] then 4 else 0) + (if v.nai != [] then 16 else 0)
  }

  function EncodeUserId(v: UserId): bytes {
    [UserIdFlags(v)] + (PutCounted(v.imei) + (PutCounted(v.imsi) + (PutCounted(v.msisdn) + (PutCounted(v.nai) + []))))
  }

  function DecodeUserId(b: bytes): Result<UserId> {
    if |b| < 1 then Err(CAUSE_INVALID_LENGTH)
    else
      var f := b[0];
      var imei :- GetCounted(Flag(f, 1), b[1..], 8);
      var imsi :- GetCounted(Flag(f, 2), imei.1, 8);
      var msisdn :- GetCounted(Flag(f, 4), imsi.1, 8);
      var nai :- GetCounted(Flag(f, 16), msisdn.1, 255);
      Ok(UserId(imei.0, imsi.0, msisdn.0, nai.0))
  }

  lemma UserIdFlagsSay(v: UserId)
    ensures var f := UserIdFlags(v);
            && (Flag(f, 1) <==> v.imei != []) && (Flag(f, 2) <==> v.imsi != [])
            && (Flag(f, 4) <==> v.msisdn != []) && (Flag(f, 16) <==> v.nai != [])
  {
  }

  ghost predicate ValidUserId(v: UserId) {
    |v.imei| <= 8 && |v.imsi| <= 8 && |v.msisdn| <= 8 && |v.nai| <= 255
  }

  /** A user identity survives exactly when its parts have room. */
  lemma UserIdRoundTrip(v: UserId)
    ensures DecodeUserId(EncodeUserId(v)) == Ok(v) <==> ValidUserId(v)
  {
    DecodedUserIdIsValid(EncodeUserId(v));
    if ValidUserId(v) {
      ValidUserIdTrip(v);
    }
  }

  lemma DecodedUserIdIsValid(b: bytes)
    ensures DecodeUserId(b).Ok? ==> ValidUserId(DecodeUserId(b).value)
  {
  }

  lemma ValidUserIdTrip(v: UserId)
    requires ValidUserId(v)
    ensures DecodeUserId(EncodeUserId(v)) == Ok(v)
  {
    UserIdFlagsSay(v);
    hide Flag, UserIdFlags, PutCounted, GetCounted;
    var t3 := PutCounted(v.nai) + [];
    var t2 := PutCounted(v.msisdn) + t3;
    var t1 := PutCounted(v.imsi) + t2;
    assert EncodeUserId(v)[1..] == PutCounted(v.imei) + t1;
    CountedTrip(v.imei, 8, t1);
    CountedTrip(v.imsi, 8, t2);
    CountedTrip(v.msisdn, 8, t3);
    CountedTrip(v.nai, 255, []);
  }
}
