/** Whole PFCP messages: the header of section 7.2.2 of 3GPP TS 29.244 around a
    group of information elements. */
module Message {
  import opened Bytes
  import opened Codec

  const NODE_MSG_HDR_LEN := 8
  const SESSION_MSG_HDR_LEN := 16
  const VERSION_1 := 0x20

  datatype Msg<L> = Msg(typ: nat, seqNo: nat, seid: nat, grp: Group<L>)

  /** The group of each message type. */
  type MsgSpecs<!L> = map<nat, IeDef<L>>

  /** Message types 50 to 99 carry a session endpoint identifier. */
  predicate IsSessionMsg(typ: nat) {
    50 <= typ <= 99
  }

  function HdrLen(typ: nat): nat {
    if IsSessionMsg(typ) then SESSION_MSG_HDR_LEN else NODE_MSG_HDR_LEN
  }

  /** The header in front of a group of n octets. */
  function MsgHeader<L>(m: Msg<L>, n: nat): (h: bytes)
    requires m.typ < 256
    ensures |h| == HdrLen(m.typ)
  {
    var len := U16(HdrLen(m.typ) + n - 4);
    if IsSessionMsg(m.typ)
    then [VERSION_1 + 1, m.typ] + len + BigEndian(m.seid, 8) + BigEndian(m.seqNo, 3) + [0]
    else [VERSION_1, m.typ] + len + BigEndian(m.seqNo, 3) + [0]
  }

  function EncodeMsg<L>(s: Schema<L>, specs: MsgSpecs<L>, m: Msg<L>): Result<bytes> {
    if m.typ >= 256 || m.typ !in specs || !specs[m.typ].GroupDef? then Malformed
    else
      var body :- EncodeGroup(s, specs[m.typ].items, m.grp, 0);
      Ok(MsgHeader(m, |body|) + body)
  }

  function DecodeMsg<L>(s: Schema<L>, specs: MsgSpecs<L>, b: bytes): Result<Msg<L>> {
    if |b| < 2 then Err(-1)
    else
      var typ := b[1];
      var hdr := HdrLen(typ);
      if |b| < hdr || typ !in specs || !specs[typ].GroupDef? then Err(-1)
      else
        var seid := if IsSessionMsg(typ) then FromBigEndian(b[4..12]) else 0;
        var seqNo := if IsSessionMsg(typ) then FromBigEndian(b[12..15]) else FromBigEndian(b[4..7]);
        var len := GetU16(b[2..]);
        if len + 4 > |b| then Err(CAUSE_INVALID_LENGTH)
        else if IsSessionMsg(typ) != (b[0] % 2 == 1) then Err(CAUSE_REQUEST_REJECTED)
        else
          var body := if len + 4 < hdr then [] else b[hdr..len + 4];
          var def := specs[typ];
          var g :- DecodeGroup(s, def.mandatory, def.items, body, Group(seq(|def.items|, _ => Absent), []));
          Ok(Msg(typ, seqNo, seid, g))
  }

  lemma HeaderReads<L>(m: Msg<L>, n: nat, body: bytes)
    requires m.typ < 256 && |body| == n && HdrLen(m.typ) + n < 65540
    requires m.seid < Pow256(8)
    ensures Pow256(3) > 0
    ensures var b := MsgHeader(m, n) + body;
            && b[1] == m.typ && b[0] % 2 == (if IsSessionMsg(m.typ) then 1 else 0)
            && GetU16(b[2..]) == HdrLen(m.typ) + n - 4
            && (IsSessionMsg(m.typ) ==> FromBigEndian(b[4..12]) == m.seid && FromBigEndian(b[12..15]) == m.seqNo % Pow256(3))
            && (!IsSessionMsg(m.typ) ==> FromBigEndian(b[4..7]) == m.seqNo % Pow256(3))
  {
    var h := MsgHeader(m, n);
    var b := h + body;
    var len := HdrLen(m.typ) + n - 4;
    BigEndianLow(m.seqNo, 3);
    BigEndianRoundTrip(m.seid, 8);
    var x, y, z := U16(len), BigEndian(m.seid, 8), BigEndian(m.seqNo, 3);
    U16RoundTrip(len, b[4..]);
    hide BigEndian, U16, FromBigEndian, GetU16, Pow256;
    if IsSessionMsg(m.typ) {
      SessionSlices([VERSION_1 + 1, m.typ], x, y, z, body);
    } else {
      NodeSlices([VERSION_1, m.typ], x, z, body);
    }
  }

  lemma SessionSlices(p: bytes, x: bytes, y: bytes, z: bytes, body: bytes)
    requires |p| == |x| == 2 && |y| == 8 && |z| == 3
    ensures var b := p + x + y + z + [0] + body;
            b[0] == p[0] && b[1] == p[1] && b[2..] == x + b[4..] && b[4..12] == y && b[12..15] == z
  {
  }

  lemma NodeSlices(p: bytes, x: bytes, z: bytes, body: bytes)
    requires |p| == |x| == 2 && |z| == 3
    ensures var b := p + x + z + [0] + body;
            b[0] == p[0] && b[1] == p[1] && b[2..] == x + b[4..] && b[4..7] == z
  {
  }

  /** Decoding an encoded message returns its type, its sequence number modulo
      2^24, its 64-bit session identifier if the type carries one, and its group. */
  lemma MessageRoundTrip<L>(s: Schema<L>, specs: MsgSpecs<L>, m: Msg<L>)
    requires WellFormed(s) && m.typ in specs && m.typ < 256 && specs[m.typ].GroupDef?
    requires WellFormedItems(specs[m.typ].items) && FitsGroup(s, specs[m.typ].mandatory, specs[m.typ].items, m.grp)
    requires m.seid < Pow256(8)
    requires EncodeMsg(s, specs, m).Ok? ==> |EncodeMsg(s, specs, m).value| < 65540
    ensures EncodeMsg(s, specs, m).Ok? && Pow256(3) > 0
    ensures DecodeMsg(s, specs, EncodeMsg(s, specs, m).value)
         == Ok(Msg(m.typ, m.seqNo % Pow256(3), if IsSessionMsg(m.typ) then m.seid else 0, m.grp))
  {
    hide FitsGroup, WellFormed, WellFormedItems, DecodeGroup, EncodeGroup, MsgHeader, FromBigEndian, Pow256, GetU16;
    var def := specs[m.typ];
    GroupTrip(s, def.mandatory, def.items, m.grp, 0);
    var body := EncodeGroup(s, def.items, m.grp, 0).value;
    var b := EncodeMsg(s, specs, m).value;
    HeaderReads(m, |body|, body);
    assert b[HdrLen(m.typ)..|b|] == body;
    PrefixOfNothing(s, def.mandatory, def.items, m.grp);
  }

  /** A message that decodes has all mandatory elements, at every depth. */
  lemma DecodedMessageIsComplete<L>(s: Schema<L>, specs: MsgSpecs<L>, b: bytes)
    ensures var r := DecodeMsg(s, specs, b);
            r.Ok? ==> r.value.typ in specs && Complete(s, specs[r.value.typ], Nested(r.value.grp))
  {
    var r := DecodeMsg(s, specs, b);
    if r.Ok? {
      var def := specs[r.value.typ];
      var len := GetU16(b[2..]);
      var body := if len + 4 < HdrLen(b[1]) then [] else b[HdrLen(b[1])..len + 4];
      GroupIsComplete(s, def.mandatory, def.items, body, Group(seq(|def.items|, _ => Absent), []));
    }
  }
}
