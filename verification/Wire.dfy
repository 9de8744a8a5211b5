/** The octets themselves, position by position and digit by digit: what a peer
    reads from an encoded element, leaf or message, whatever decoder it uses. */
module Wire {
  import opened Bytes
  import opened Codec
  import opened Message
  import opened Leaves

  // ----- digits

  lemma DivDiv(n: nat, m: nat)
    requires m > 0
    ensures n / 256 / m == n / (256 * m)
  {
    var q, r := n / 256 / m, n / 256 % m;
    assert n / 256 == q * m + r;
    var s := r * 256 + n % 256;
    assert n == q * (256 * m) + s by {
      assert 256 * (q * m) == q * (256 * m);
    }
    assert s < 256 * m;
    QuotientUnique(n, q, s, 256 * m);
  }

  lemma QuotientUnique(n: nat, q: nat, r: nat, m: nat)
    requires m > 0 && r < m && n == q * m + r
    ensures n / m == q
  {
    ModUnique(n, q, r, m);
    assert (n / m) * m == q * m;
    var d := n / m - q;
    assert d * m == 0 by {
      assert (n / m - q) * m == (n / m) * m - q * m;
    }
    assert d >= 1 ==> d * m >= m;
    assert d <= -1 ==> d * m + m <= 0;
  }

  /** Octet i of a number is its i-th digit to base 256, counted from the front. */
  lemma {:induction false} BigEndianDigit(n: nat, k: nat, i: nat)
    requires i < k
    ensures Pow256(k - 1 - i) > 0 && BigEndian(n, k)[i] == n / Pow256(k - 1 - i) % 256
    decreases k
  {
    Pow256Positive(k - 1 - i);
    if i < k - 1 {
      BigEndianDigit(n / 256, k - 1, i);
      DivDiv(n, Pow256(k - 2 - i));
    }
  }

  /** The j-th digit of n to base 256, counted from the back. */
  function Digit(n: nat, j: nat): nat {
    Pow256Positive(j);
    n / Pow256(j) % 256
  }

  /** The number n stands in k octets at this position, first digit first. */
  ghost predicate NumAt(b: bytes, at: nat, n: nat, k: nat) {
    at + k <= |b| && forall i :: at <= i < at + k ==> b[i] == Digit(n, at + k - 1 - i)
  }

  ghost predicate OctetsAt(b: bytes, at: nat, a: bytes) {
    at + |a| <= |b| && b[at..at + |a|] == a
  }

  lemma PutsNumber(front: bytes, n: nat, k: nat, tail: bytes)
    ensures NumAt(front + BigEndian(n, k) + tail, |front|, n, k)
  {
    var b := front + BigEndian(n, k) + tail;
    forall i | |front| <= i < |front| + k ensures b[i] == Digit(n, |front| + k - 1 - i) {
      BigEndianDigit(n, k, i - |front|);
      assert b[i] == BigEndian(n, k)[i - |front|];
    }
  }

  lemma PutsOctets(front: bytes, a: bytes, tail: bytes)
    ensures OctetsAt(front + a + tail, |front|, a)
  {
  }

  lemma {:induction false} BigEndianBack(c: bytes)
    ensures BigEndian(FromBigEndian(c), |c|) == c && FromBigEndian(c) < Pow256(|c|)
    decreases |c|
  {
    if c != [] {
      BigEndianBack(c[..|c| - 1]);
    }
  }

  /** Reading a number gives the one that stands there. */
  lemma ReadsNumber(b: bytes, at: nat, k: nat)
    requires at + k <= |b|
    ensures var n := FromBigEndian(b[at..at + k]); NumAt(b, at, n, k) && n < Pow256(k)
  {
    var c := b[at..at + k];
    BigEndianBack(c);
    hide BigEndian, FromBigEndian, NumAt;
    PutsNumber(b[..at], FromBigEndian(c), k, b[at + k..]);
    assert b == b[..at] + c + b[at + k..];
  }

  /** A number of two digits. */
  function Pair(high: int, low: int): int {
    256 * high + low
  }

  /** Two octets, written out. */
  lemma U16Octets(n: nat)
    ensures |U16(n)| == 2 && U16(n)[0] == n / 256 % 256 && U16(n)[1] == n % 256
    ensures Pair(U16(n)[0], U16(n)[1]) == n % 65536
  {
    BigEndianDigit(n, 2, 0);
    BigEndianDigit(n, 2, 1);
    assert Pow256(1) == 256 && Pow256(0) == 1;
  }

  lemma GetU16Octets(b: bytes)
    requires |b| >= 2
    ensures GetU16(b) == Pair(b[0], b[1])
  {
    var c := b[..2];
    assert c[..1][..0] == [];
    assert FromBigEndian(c[..1]) == c[0];
  }

  // ----- elements

  /** The header of section 8.1.1 of 3GPP TS 29.244: two octets of type, with the
      top bit for a vendor's, two of length, which counts what follows, then the
      vendor if there is one, then the body. */
  lemma ElementWire<L>(s: Schema<L>, item: Item, v: Value<L>)
    requires EncodeIe(s, item, v).Ok?
    ensures var b, own := EncodeIe(s, item, v).value, item.vendor == 0;
            && |b| >= (if own then 4 else 6)
            && Pair(b[0], b[1]) == (item.typ + if own then 0 else 0x8000) % 65536
            && Pair(b[2], b[3]) == (|b| - 4) % 65536
            && (!own ==> Pair(b[4], b[5]) == item.vendor % 65536)
            && (item.vendor, item.typ) in s
            && EncodeBody(s, s[(item.vendor, item.typ)], v) == Ok(b[if own then 4 else 6..])
  {
    var b, body := EncodeIe(s, item, v).value, EncodeBody(s, s[(item.vendor, item.typ)], v).value;
    hide EncodeBody, BigEndian;
    U16Octets(item.typ);
    U16Octets(VENDOR_BIT + item.typ);
    U16Octets(|body|);
    U16Octets(|body| + 2);
    U16Octets(item.vendor);
    hide U16;
    assert b[|Header(item, |body|)|..] == body;
  }

  /** What the decoder takes from the same octets. */
  lemma SplitReads(b: bytes)
    requires b != []
    ensures |b| < 4 || 4 + Pair(b[2], b[3]) > |b| ==> SplitIe(b) == Err(CAUSE_INVALID_LENGTH)
    ensures |b| >= 4 && 4 + Pair(b[2], b[3]) <= |b| ==>
              var typ, end := Pair(b[0], b[1]), 4 + Pair(b[2], b[3]);
              && (typ < 0x8000 ==> SplitIe(b) == Ok(RawIe(true, 0, typ, b[4..end], b[..end])))
              && (typ >= 0x8000 && end < 6 ==> SplitIe(b) == Malformed)
              && (typ >= 0x8000 && end >= 6 ==>
                    SplitIe(b) == Ok(RawIe(false, Pair(b[4], b[5]), typ - 0x8000, b[6..end], b[..end])))
  {
    if |b| >= 4 {
      GetU16Octets(b);
      GetU16Octets(b[2..]);
      if |b| >= 6 {
        GetU16Octets(b[4..]);
      }
      hide GetU16;
    }
  }

  /** All octets of a list of strings, in order. */
  function Joined(parts: seq<bytes>): bytes {
    if parts == [] then [] else Joined(parts[..|parts| - 1]) + parts[|parts| - 1]
  }

  lemma {:induction false} JoinedFront(part: bytes, parts: seq<bytes>)
    ensures Joined([part] + parts) == part + Joined(parts)
    decreases |parts|
  {
    if parts == [] {
      assert [part] + parts == [part] && Joined([part]) == Joined([]) + part;
    } else {
      var k := |parts| - 1;
      JoinedFront(part, parts[..k]);
      assert ([part] + parts)[..k + 1] == [part] + parts[..k];
      assert ([part] + parts)[k + 1] == parts[k];
    }
  }

  /** A group is its fields in the order of its items. */
  lemma {:induction false} GroupIsJoined<L>(s: Schema<L>, items: seq<Item>, g: Group<L>, i: nat, parts: seq<bytes>)
    requires i + |parts| == |items| <= |g.fields|
    requires forall j :: 0 <= j < |parts| ==> EncodeField(s, items[i + j], g.fields[i + j]) == Ok(parts[j])
    ensures EncodeGroup(s, items, g, i) == Ok(Joined(parts))
    decreases |parts|
  {
    hide EncodeField;
    if parts != [] {
      assert EncodeField(s, items[i + 0], g.fields[i + 0]) == Ok(parts[0]);
      forall j | 0 <= j < |parts[1..]|
        ensures EncodeField(s, items[i + 1 + j], g.fields[i + 1 + j]) == Ok(parts[1..][j])
      {
        assert parts[1..][j] == parts[j + 1] && i + 1 + j == i + (j + 1);
      }
      GroupIsJoined(s, items, g, i + 1, parts[1..]);
      JoinedFront(parts[0], parts[1..]);
      assert parts == [parts[0]] + parts[1..];
    }
  }

  // ----- messages

  /** The header of section 7.2.2: version 1 with the flag for a session
      identifier, the type, the length of what follows the first four octets, the
      session identifier if the type has one, the sequence number, and a spare. */
  lemma MessageWire<L>(s: Schema<L>, specs: MsgSpecs<L>, m: Msg<L>)
    requires EncodeMsg(s, specs, m).Ok?
    ensures var b, session := EncodeMsg(s, specs, m).value, 50 <= m.typ <= 99;
            var hdr := if session then 16 else 8;
            && |b| >= hdr && b[0] == (if session then 0x21 else 0x20) && b[1] == m.typ
            && Pair(b[2], b[3]) == (|b| - 4) % 65536
            && (session ==> NumAt(b, 4, m.seid, 8))
            && NumAt(b, hdr - 4, m.seqNo, 3) && b[hdr - 1] == 0
            && m.typ in specs && specs[m.typ].GroupDef? && EncodeGroup(s, specs[m.typ].items, m.grp, 0) == Ok(b[hdr..])
  {
    var b, body := EncodeMsg(s, specs, m).value, EncodeGroup(s, specs[m.typ].items, m.grp, 0).value;
    var n := HdrLen(m.typ) + |body| - 4;
    U16Octets(n);
    hide EncodeGroup, BigEndian, NumAt, U16, Pair;
    if IsSessionMsg(m.typ) {
      SessionWire([VERSION_1 + 1, m.typ], U16(n), m.seid, m.seqNo, body);
    } else {
      NodeWire([VERSION_1, m.typ], U16(n), m.seqNo, body);
    }
  }

  lemma SessionWire(p: bytes, x: bytes, seid: nat, seqNo: nat, body: bytes)
    requires |p| == |x| == 2
    ensures var b := p + x + BigEndian(seid, 8) + BigEndian(seqNo, 3) + [0] + body;
            && b[..2] == p && b[0] == p[0] && b[1] == p[1] && b[2] == x[0] && b[3] == x[1]
            && NumAt(b, 4, seid, 8) && NumAt(b, 12, seqNo, 3) && b[15] == 0 && b[16..] == body
  {
    var y, z := BigEndian(seid, 8), BigEndian(seqNo, 3);
    var b := p + x + y + z + [0] + body;
    hide BigEndian, NumAt;
    assert b == (p + x) + y + (z + [0] + body);
    assert b == (p + x + y) + z + ([0] + body);
    PutsNumber(p + x, seid, 8, z + [0] + body);
    PutsNumber(p + x + y, seqNo, 3, [0] + body);
  }

  lemma NodeWire(p: bytes, x: bytes, seqNo: nat, body: bytes)
    requires |p| == |x| == 2
    ensures var b := p + x + BigEndian(seqNo, 3) + [0] + body;
            && b[..2] == p && b[0] == p[0] && b[1] == p[1] && b[2] == x[0] && b[3] == x[1]
            && NumAt(b, 4, seqNo, 3) && b[7] == 0 && b[8..] == body
  {
    var z := BigEndian(seqNo, 3);
    var b := p + x + z + [0] + body;
    hide BigEndian, NumAt;
    assert b == (p + x) + z + ([0] + body);
    PutsNumber(p + x, seqNo, 3, [0] + body);
  }
}
