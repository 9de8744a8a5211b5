/** What each leaf decoder accepts, and from which octets it takes what: for every
    input, not only for encoded values. */
module LeafRead {
  import opened Bytes
  import opened Codec
  import opened Leaves
  import opened Wire
  import opened LeafWire

  /** The flags, if there is an octet at all. */
  function First(b: bytes): byte {
    if b == [] then 0 else b[0]
  }

  lemma NumRead(b: bytes, at: nat, present: bool, k: nat)
    requires at <= |b|
    ensures var r, end := GetNum(present, b[at..], k), at + Size(present, k);
            && (r.Ok? <==> end <= |b|)
            && (r.Ok? ==> r.value.1 == b[end..] && if present then NumAt(b, at, r.value.0, k) else r.value.0 == 0)
  {
    hide NumAt, FromBigEndian;
    if present && at + k <= |b| {
      ReadsNumber(b, at, k);
      assert b[at..][..k] == b[at..at + k] && b[at..][k..] == b[at + k..];
    }
  }

  lemma AddrRead(b: bytes, at: nat, present: bool, k: nat)
    requires at <= |b|
    ensures var r, end := GetAddr(present, b[at..], k), at + Size(present, k);
            && (r.Ok? <==> end <= |b|)
            && (r.Ok? ==> && r.value.1 == b[end..] && |r.value.0| == k
                          && if present then OctetsAt(b, at, r.value.0) else r.value.0 == Zeros(k))
  {
    if present && at + k <= |b| {
      assert b[at..][..k] == b[at..at + k] && b[at..][k..] == b[at + k..];
    }
  }

  lemma NumberRead(b: bytes, k: nat)
    ensures var r := DecodeNum(b, k); (r.Ok? <==> |b| >= k) && (r.Ok? ==> NumAt(b, 0, r.value, k) && r.value < Pow256(k))
  {
    hide NumAt, FromBigEndian, Pow256;
    if |b| >= k {
      ReadsNumber(b, 0, k);
    }
  }

  lemma BitRateRead(b: bytes)
    ensures var r := DecodeBitRate(b);
            (r.Ok? <==> |b| >= 10) && (r.Ok? ==> NumAt(b, 0, r.value.ul, 5) && NumAt(b, 5, r.value.dl, 5))
  {
    hide NumAt, FromBigEndian;
    if |b| >= 10 {
      ReadsNumber(b, 0, 5);
      ReadsNumber(b, 5, 5);
    }
  }

  lemma VolumeRead(b: bytes)
    ensures var r, f := DecodeVolume(b), First(b) % 8;
            var ul := 1 + Size(Flag(f, 1), 8);
            var dl := ul + Size(Flag(f, 2), 8);
            && (r.Ok? <==> dl + Size(Flag(f, 4), 8) <= |b|)
            && (r.Ok? ==>
                  && r.value.fields == f
                  && (if Flag(f, 1) then NumAt(b, 1, r.value.total, 8) else r.value.total == 0)
                  && (if Flag(f, 2) then NumAt(b, ul, r.value.ul, 8) else r.value.ul == 0)
                  && (if Flag(f, 4) then NumAt(b, dl, r.value.dl, 8) else r.value.dl == 0))
  {
    if |b| < 1 {
      return;
    }
    hide NumAt, Flag, GetNum;
    var f: byte := First(b) % 8;
    var ul := 1 + Size(Flag(f, 1), 8);
    var dl := ul + Size(Flag(f, 2), 8);
    NumRead(b, 1, Flag(f, 1), 8);
    if ul <= |b| {
      NumRead(b, ul, Flag(f, 2), 8);
      if dl <= |b| {
        NumRead(b, dl, Flag(f, 4), 8);
      }
    }
  }

  /** Spare bits are ignored; some address there must be. */
  lemma FSeidRead(b: bytes)
    ensures var r, f := DecodeFSeid(b), First(b) % 4;
            var six := 9 + Size(Flag(f, 2), 4);
            && (r.Ok? <==> f != 0 && six + Size(Flag(f, 1), 16) <= |b|)
            && (r.Ok? ==>
                  && r.value.flags == f && NumAt(b, 1, r.value.seid, 8) && |r.value.ip4| == 4 && |r.value.ip6| == 16
                  && (if Flag(f, 2) then OctetsAt(b, 9, r.value.ip4) else r.value.ip4 == Zeros(4))
                  && (if Flag(f, 1) then OctetsAt(b, six, r.value.ip6) else r.value.ip6 == Zeros(16)))
  {
    if |b| < 1 {
      return;
    }
    hide NumAt, Flag, GetAddr, FromBigEndian, OctetsAt;
    if |b| >= 9 {
      var f: byte := First(b) % 4;
      var six := 9 + Size(Flag(f, 2), 4);
      ReadsNumber(b, 1, 8);
      AddrRead(b, 9, Flag(f, 2), 4);
      if six <= |b| {
        AddrRead(b, six, Flag(f, 1), 16);
      }
    }
  }

  /** The upper half of the first octet is ignored, and what follows an address. */
  lemma NodeIdRead(b: bytes)
    ensures var r, t := DecodeNodeId(b), First(b) % 16;
            && (r.Ok? <==> t <= 2 && (t == 0 ==> |b| >= 5) && (t == 1 ==> |b| >= 17))
            && (r.Ok? ==> r.value == if t == 0 then NodeIp4(b[1..5]) else if t == 1 then NodeIp6(b[1..17]) else NodeFqdn(b[1..]))
  {
  }

  lemma UeIpRead(b: bytes)
    ensures var r, f := DecodeUeIp(b), First(b);
            var six := 1 + Size(Flag(f, 2), 4);
            var deleg := six + Size(Flag(f, 1), 16);
            var plen := deleg + Size(Flag(f, 8), 1);
            && (r.Ok? <==> plen + Size(Flag(f, 64), 1) <= |b|)
            && (r.Ok? ==>
                  && r.value.flags == f && |r.value.ip4| == 4 && |r.value.ip6| == 16
                  && (if Flag(f, 2) then OctetsAt(b, 1, r.value.ip4) else r.value.ip4 == Zeros(4))
                  && (if Flag(f, 1) then OctetsAt(b, six, r.value.ip6) else r.value.ip6 == Zeros(16))
                  && (if Flag(f, 8) then NumAt(b, deleg, r.value.delegation, 1) else r.value.delegation == 0)
                  && (if Flag(f, 64) then NumAt(b, plen, r.value.prefix, 1) else r.value.prefix == 0))
  {
    if |b| < 1 {
      return;
    }
    hide NumAt, Flag, GetAddr, GetNum, OctetsAt;
    var f := First(b);
    var six := 1 + Size(Flag(f, 2), 4);
    var deleg := six + Size(Flag(f, 1), 16);
    var plen := deleg + Size(Flag(f, 8), 1);
    AddrRead(b, 1, Flag(f, 2), 4);
    if six <= |b| {
      AddrRead(b, six, Flag(f, 1), 16);
      if deleg <= |b| {
        NumRead(b, deleg, Flag(f, 8), 1);
        if plen <= |b| {
          NumRead(b, plen, Flag(f, 64), 1);
        }
      }
    }
  }

  /** With the choose flag (4) only the choose identifier is read, from the second
      octet; without it there must be none (8). */
  lemma FTeidRead(b: bytes)
    ensures var r, f := DecodeFTeid(b), First(b) % 16;
            var six := 5 + Size(Flag(f, 1), 4);
            && (r.Ok? <==> && (Flag(f, 1) || Flag(f, 2))
                           && if Flag(f, 4) then |b| >= 2 else !Flag(f, 8) && six + Size(Flag(f, 2), 16) <= |b|)
            && (r.Ok? && Flag(f, 4) ==> r.value == FTeid(f, 0, Zeros(4), Zeros(16), b[1]))
            && (r.Ok? && !Flag(f, 4) ==>
                  && r.value.flags == f && NumAt(b, 1, r.value.teid, 4) && r.value.chooseId == 0
                  && |r.value.ip4| == 4 && |r.value.ip6| == 16
                  && (if Flag(f, 1) then OctetsAt(b, 5, r.value.ip4) else r.value.ip4 == Zeros(4))
                  && (if Flag(f, 2) then OctetsAt(b, six, r.value.ip6) else r.value.ip6 == Zeros(16)))
  {
    if |b| < 1 {
      return;
    }
    hide NumAt, Flag, GetAddr, FromBigEndian, OctetsAt;
    if |b| >= 5 {
      var f: byte := First(b) % 16;
      var six := 5 + Size(Flag(f, 1), 4);
      ReadsNumber(b, 1, 4);
      AddrRead(b, 5, Flag(f, 1), 4);
      if six <= |b| {
        AddrRead(b, six, Flag(f, 2), 16);
      }
    }
  }

  lemma FlowRead(b: bytes, at: nat, present: bool)
    requires at <= |b|
    ensures var r, n := GetFlow(present, b[at..]), if at + 2 <= |b| then Pair(b[at], b[at + 1]) else 0;
            var end := at + Size(present, 2 + n);
            && (r.Ok? <==> end <= |b|)
            && (r.Ok? ==> r.value.1 == b[end..] && r.value.0 == if present then b[at + 2..end] else [])
  {
    hide FromBigEndian;
    if present && at + 2 <= |b| {
      var n := Pair(b[at], b[at + 1]);
      GetU16Octets(b[at..]);
      if at + 2 + n <= |b| {
        assert b[at..][2..2 + n] == b[at + 2..at + 2 + n] && b[at..][2 + n..] == b[at + 2 + n..];
      }
    }
  }

  /** The filter identifier is never read. */
  lemma SdfRead(b: bytes)
    ensures var r, f := DecodeSdf(b), First(b) % 16;
            var n := if |b| >= 4 then Pair(b[2], b[3]) else 0;
            var tos := 2 + Size(Flag(f, 1), 2 + n);
            var spi := tos + Size(Flag(f, 2), 2);
            var flowLabel := spi + Size(Flag(f, 4), 4);
            && (r.Ok? <==> flowLabel + Size(Flag(f, 8), 3) <= |b|)
            && (r.Ok? ==>
                  && r.value.flags == f && r.value.filterId == 0
                  && r.value.flow == (if Flag(f, 1) then b[4..tos] else [])
                  && (if Flag(f, 2) then NumAt(b, tos, r.value.tos, 2) else r.value.tos == 0)
                  && (if Flag(f, 4) then NumAt(b, spi, r.value.spi, 4) else r.value.spi == 0)
                  && (if Flag(f, 8) then NumAt(b, flowLabel, r.value.flowLabel, 3) else r.value.flowLabel == 0))
  {
    if |b| >= 2 {
      SdfParts(b);
      hide Flag, DecodeSdf, NumAt, Pair;
    }
  }

  lemma SdfParts(b: bytes)
    requires |b| >= 2
    ensures var r, f := DecodeSdf(b), b[0] % 16;
            var n := if |b| >= 4 then Pair(b[2], b[3]) else 0;
            var tos := 2 + Size(Flag(f, 1), 2 + n);
            var spi := tos + Size(Flag(f, 2), 2);
            var flowLabel := spi + Size(Flag(f, 4), 4);
            && (r.Ok? <==> flowLabel + Size(Flag(f, 8), 3) <= |b|)
            && (r.Ok? ==>
                  && r.value.flags == f && r.value.filterId == 0
                  && r.value.flow == (if Flag(f, 1) then b[4..tos] else [])
                  && (if Flag(f, 2) then NumAt(b, tos, r.value.tos, 2) else r.value.tos == 0)
                  && (if Flag(f, 4) then NumAt(b, spi, r.value.spi, 4) else r.value.spi == 0)
                  && (if Flag(f, 8) then NumAt(b, flowLabel, r.value.flowLabel, 3) else r.value.flowLabel == 0))
  {
    hide NumAt, Flag, GetFlow, GetNum, Pair;
    var f: byte := b[0] % 16;
    var n := if |b| >= 4 then Pair(b[2], b[3]) else 0;
    PairIsNat(b);
    var tos := 2 + Size(Flag(f, 1), 2 + n);
    var spi := tos + Size(Flag(f, 2), 2);
    var flowLabel := spi + Size(Flag(f, 4), 4);
    FlowRead(b, 2, Flag(f, 1));
    if tos <= |b| {
      NumRead(b, tos, Flag(f, 2), 2);
      if spi <= |b| {
        NumRead(b, spi, Flag(f, 4), 4);
        if flowLabel <= |b| {
          NumRead(b, flowLabel, Flag(f, 8), 3);
        }
      }
    }
  }

  lemma PairIsNat(b: bytes)
    ensures |b| >= 4 ==> Pair(b[2], b[3]) >= 0
  {
  }

  /** Where a counted string that starts here ends; past the input if it is too
      long. */
  function CountedEnd(b: bytes, at: nat, present: bool, max: nat): nat {
    if !present || at > |b| then at
    else if at < |b| && b[at] <= max then at + 1 + b[at]
    else |b| + 1
  }

  lemma CountedRead(b: bytes, at: nat, present: bool, max: nat)
    requires at <= |b|
    ensures var r, end := GetCounted(present, b[at..], max), CountedEnd(b, at, present, max);
            && (r.Ok? <==> end <= |b|)
            && (r.Ok? ==> r.value.1 == b[end..] && r.value.0 == if present then b[at + 1..end] else [])
  {
    var end := CountedEnd(b, at, present, max);
    if present && end <= |b| {
      assert b[at..][1..1 + b[at]] == b[at + 1..end] && b[at..][1 + b[at]..] == b[end..];
    }
  }

  lemma UserIdRead(b: bytes)
    ensures var r, f := DecodeUserId(b), First(b);
            var imsi := CountedEnd(b, 1, Flag(f, 1), 8);
            var msisdn := CountedEnd(b, imsi, Flag(f, 2), 8);
            var nai := CountedEnd(b, msisdn, Flag(f, 4), 8);
            var end := CountedEnd(b, nai, Flag(f, 16), 255);
            && (r.Ok? <==> end <= |b|)
            && (r.Ok? ==>
                  && r.value.imei == (if Flag(f, 1) then b[2..imsi] else [])
                  && r.value.imsi == (if Flag(f, 2) then b[imsi + 1..msisdn] else [])
                  && r.value.msisdn == (if Flag(f, 4) then b[msisdn + 1..nai] else [])
                  && r.value.nai == (if Flag(f, 16) then b[nai + 1..end] else []))
  {
    if |b| >= 1 {
      UserIdParts(b);
      hide Flag, DecodeUserId, CountedEnd;
    }
  }

  lemma UserIdParts(b: bytes)
    requires |b| >= 1
    ensures var r, f := DecodeUserId(b), b[0];
            var imsi := CountedEnd(b, 1, Flag(f, 1), 8);
            var msisdn := CountedEnd(b, imsi, Flag(f, 2), 8);
            var nai := CountedEnd(b, msisdn, Flag(f, 4), 8);
            var end := CountedEnd(b, nai, Flag(f, 16), 255);
            && (r.Ok? <==> end <= |b|)
            && (r.Ok? ==>
                  && r.value.imei == (if Flag(f, 1) then b[2..imsi] else [])
                  && r.value.imsi == (if Flag(f, 2) then b[imsi + 1..msisdn] else [])
                  && r.value.msisdn == (if Flag(f, 4) then b[msisdn + 1..nai] else [])
                  && r.value.nai == (if Flag(f, 16) then b[nai + 1..end] else []))
  {
    hide Flag, GetCounted;
    var f := b[0];
    var imsi := CountedEnd(b, 1, Flag(f, 1), 8);
    var msisdn := CountedEnd(b, imsi, Flag(f, 2), 8);
    var nai := CountedEnd(b, msisdn, Flag(f, 4), 8);
    CountedRead(b, 1, Flag(f, 1), 8);
    if imsi <= |b| {
      CountedRead(b, imsi, Flag(f, 2), 8);
      if msisdn <= |b| {
        CountedRead(b, msisdn, Flag(f, 4), 8);
        if nai <= |b| {
          CountedRead(b, nai, Flag(f, 16), 255);
        }
      }
    }
  }

  lemma {:induction false} CsidsRead(b: bytes, at: nat, n: nat, j: nat)
    requires at + 2 * n <= |b| && j < n
    ensures NumAt(b, at + 2 * j, GetCsids(b[at..], n)[j], 2)
    decreases n
  {
    hide NumAt, FromBigEndian;
    if j == 0 {
      ReadsNumber(b, at, 2);
      assert b[at..][..2] == b[at..at + 2];
    } else {
      CsidsRead(b, at + 2, n - 1, j - 1);
      assert b[at..][2..] == b[at + 2..];
    }
  }

  lemma FqCsidRead(b: bytes, j: nat)
    ensures var r, t, n := DecodeFqCsid(b), First(b) / 16, First(b) % 16;
            var ids := 1 + (if t == 1 then 16 else if t == 0 || t == 2 then 4 else 0);
            && (r.Ok? <==> ids + 2 * n <= |b|)
            && (r.Ok? ==>
                  && (t == 0 ==> r.value.node == CsidIp4(b[1..5])) && (t == 1 ==> r.value.node == CsidIp6(b[1..17]))
                  && (t == 2 ==> && r.value.node.CsidNid? && r.value.node.mnc < 1000 && r.value.node.nid < 4096
                                 && NumAt(b, 1, (r.value.node.mcc * 1000 + r.value.node.mnc) * 4096 + r.value.node.nid, 4))
                  && (t > 2 ==> r.value.node == CsidNone(t))
                  && |r.value.csid| == n && (j < n ==> NumAt(b, ids + 2 * j, r.value.csid[j], 2)))
  {
    if |b| < 1 {
      return;
    }
    hide NumAt, GetCsids, FromBigEndian;
    var t, n := First(b) / 16, First(b) % 16;
    var ids := 1 + (if t == 1 then 16 else if t == 0 || t == 2 then 4 else 0);
    if t == 2 && |b| >= 5 {
      NumRead(b, 1, true, 4);
    }
    if ids <= |b| {
      assert t <= 1 ==> b[1..][..ids - 1] == b[1..ids];
      assert b[1..][ids - 1..] == b[ids..];
      if j < n && ids + 2 * n <= |b| {
        CsidsRead(b, ids, n, j);
      }
    }
  }

  /** Exactly four octets. */
  lemma TimeRead(b: bytes)
    ensures var r := DecodeTime(b);
            && (r.Ok? <==> |b| == 4)
            && (r.Ok? ==> r.value < 0x1_0000_0000 && NumAt(b, 0, (r.value + 2208988800) % 0x1_0000_0000, 4))
  {
    if |b| == 4 {
      ReadsNumber(b, 0, 4);
      assert b[0..4] == b;
      assert Pow256(4) == 0x1_0000_0000;
      FromNtpBack(FromBigEndian(b));
      hide NumAt, FromBigEndian, Pow256, FromNtp;
    }
  }

  lemma FromNtpBack(n: nat)
    requires n < 0x1_0000_0000
    ensures FromNtp(n) < 0x1_0000_0000 && (FromNtp(n) + 2208988800) % 0x1_0000_0000 == n
  {
  }
}
