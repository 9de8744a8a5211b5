/** The leaf codecs in the table, and two messages of the protocol whose groups
    consist of them. */
module PfcpInstance {
  import opened Bytes
  import opened Codec
  import opened Leaves
  import opened Message

  datatype PfcpLeaf =
    | Number(n: nat)
    | Octets(b: bytes)
    | Time(t: nat)
    | Rate(rate: BitRate)
    | Vol(vol: Volume)
    | Seid(seid: FSeid)
    | Node(node: NodeId)
    | Ue(ue: UeIp)
    | Teid(teid: FTeid)
    | Sdf(sdf: SdfFilter)
    | Csid(csid: FqCsid)
    | User(user: UserId)

  datatype Kind = KNumber(size: nat) | KOctets | KTime | KRate | KVol | KSeid | KNode | KUe | KTeid | KSdf | KCsid | KUser

  function EncodeLeaf(k: Kind, l: PfcpLeaf): Result<bytes> {
    match (k, l)
    case (KNumber(size), Number(n)) => Ok(BigEndian(n, size))
    case (KOctets, Octets(b)) => Ok(b)
    case (KTime, Time(t)) => Ok(EncodeTime(t))
    case (KRate, Rate(v)) => Ok(EncodeBitRate(v))
    case (KVol, Vol(v)) => Ok(EncodeVolume(v))
    case (KSeid, Seid(v)) => Ok(EncodeFSeid(v))
    case (KNode, Node(v)) => Ok(EncodeNodeId(v))
    case (KUe, Ue(v)) => Ok(EncodeUeIp(v))
    case (KTeid, Teid(v)) => Ok(EncodeFTeid(v))
    case (KSdf, Sdf(v)) => Ok(EncodeSdf(v))
    case (KCsid, Csid(v)) => Ok(EncodeFqCsid(v))
    case (KUser, User(v)) => Ok(EncodeUserId(v))
    case _ => Malformed
  }

  function Wrap<T>(r: Result<T>, f: T -> PfcpLeaf): Result<PfcpLeaf> {
    match r
    case Ok(v) => Ok(f(v))
    case Err(cause) => Err(cause)
    case Malformed => Malformed
  }

  function DecodeLeaf(k: Kind, b: bytes): Result<PfcpLeaf> {
    match k
    case KNumber(size) => Wrap(DecodeNum(b, size), n => Number(n))
    case KOctets => Ok(Octets(b))
    case KTime => Wrap(DecodeTime(b), t => Time(t))
    case KRate => Wrap(DecodeBitRate(b), v => Rate(v))
    case KVol => Wrap(DecodeVolume(b), v => Vol(v))
    case KSeid => Wrap(DecodeFSeid(b), v => Seid(v))
    case KNode => Wrap(DecodeNodeId(b), v => Node(v))
    case KUe => Wrap(DecodeUeIp(b), v => Ue(v))
    case KTeid => Wrap(DecodeFTeid(b), v => Teid(v))
    case KSdf => Wrap(DecodeSdf(b), v => Sdf(v))
    case KCsid => Wrap(DecodeFqCsid(b), v => Csid(v))
    case KUser => Wrap(DecodeUserId(b), v => User(v))
  }

  function LeafOf(k: Kind): IeDef<PfcpLeaf> {
    LeafDef(LeafCodec(l => EncodeLeaf(k, l), b => DecodeLeaf(k, b)))
  }

  /** A leaf value that its codec mirrors fits wherever the schema puts it. */
  lemma LeafFits(s: Schema<PfcpLeaf>, item: Item, k: Kind, l: PfcpLeaf)
    requires item.vendor == 0 && (0, item.typ) in s && s[(0, item.typ)] == LeafOf(k)
    requires EncodeLeaf(k, l).Ok? && DecodeLeaf(k, EncodeLeaf(k, l).value) == Ok(l)
    requires |EncodeLeaf(k, l).value| < 65536
    ensures FitsIe(s, item, Leaf(l))
    ensures EncodeBody(s, s[(0, item.typ)], Leaf(l)) == EncodeLeaf(k, l)
  {
    var codec := LeafOf(k).codec;
    assert codec.encode(l) == EncodeLeaf(k, l);
    var b := EncodeLeaf(k, l).value;
    assert codec.decode(b) == DecodeLeaf(k, b);
    assert EncodeBody(s, s[(0, item.typ)], Leaf(l)) == codec.encode(l);
  }

  // ----- Heartbeat Request and Session Set Deletion Request

  const IE_NODE_ID := 60
  const IE_FQ_CSID := 65
  const IE_RECOVERY_TIME_STAMP := 96
  const HEARTBEAT_REQUEST := 1
  const SESSION_SET_DELETION_REQUEST := 14

  function Elements(): Schema<PfcpLeaf> {
    map[(0, IE_NODE_ID) := LeafOf(KNode),
        (0, IE_FQ_CSID) := LeafOf(KCsid),
        (0, IE_RECOVERY_TIME_STAMP) := LeafOf(KTime)]
  }

  function Messages(): MsgSpecs<PfcpLeaf> {
    map[HEARTBEAT_REQUEST := GroupDef({0}, [Item(IE_RECOVERY_TIME_STAMP, 0, false)]),
        SESSION_SET_DELETION_REQUEST := GroupDef({0}, [Item(IE_NODE_ID, 0, false), Item(IE_FQ_CSID, 0, true)])]
  }

  function Heartbeat(seqNo: nat, t: nat): Msg<PfcpLeaf> {
    Msg(HEARTBEAT_REQUEST, seqNo, 0, Group([One(Leaf(Time(t)))], []))
  }

  /** Every heartbeat with a 32-bit time comes back as it was sent, with the
      sequence number modulo 2^24. */
  lemma HeartbeatRoundTrip(seqNo: nat, t: nat)
    requires t < 0x1_0000_0000
    ensures EncodeMsg(Elements(), Messages(), Heartbeat(seqNo, t)).Ok?
    ensures DecodeMsg(Elements(), Messages(), EncodeMsg(Elements(), Messages(), Heartbeat(seqNo, t)).value)
         == Ok(Heartbeat(seqNo % 0x100_0000, t))
  {
    var s, specs, m := Elements(), Messages(), Heartbeat(seqNo, t);
    var v: Value<PfcpLeaf> := Leaf(Time(t));
    var item := Item(IE_RECOVERY_TIME_STAMP, 0, false);
    TimeRoundTrip(t);
    LeafFits(s, item, KTime, Time(t));
    hide EncodeLeaf, DecodeLeaf, EncodeTime;
    assert FitsField(s, item, m.grp.fields[0]);
    assert |EncodeIe(s, item, v).value| == 8;
    assert |EncodeField(s, item, m.grp.fields[0]).value| == 8;
    assert EncodeGroup(s, specs[m.typ].items, m.grp, 1) == Ok([]);
    assert Pow256(3) == 0x100_0000;
    Pow256Positive(8);
    MessageRoundTrip(s, specs, m);
  }

  /** A heartbeat is its header and its one element. */
  lemma HeartbeatEncodes(seqNo: nat, t: nat)
    ensures EncodeMsg(Elements(), Messages(), Heartbeat(seqNo, t))
         == Ok([0x20, HEARTBEAT_REQUEST] + U16(12) + BigEndian(seqNo, 3) + [0]
               + (U16(IE_RECOVERY_TIME_STAMP) + U16(4) + EncodeTime(t)))
  {
    var s, item := Elements(), Item(IE_RECOVERY_TIME_STAMP, 0, false);
    var m: Msg<PfcpLeaf>, v: Value<PfcpLeaf> := Heartbeat(seqNo, t), Leaf(Time(t));
    var items := Messages()[m.typ].items;
    hide U16, BigEndian, EncodeTime;
    var codec := LeafOf(KTime).codec;
    assert codec.encode(Time(t)) == EncodeLeaf(KTime, Time(t)) == Ok(EncodeTime(t));
    assert EncodeBody(s, s[(0, IE_RECOVERY_TIME_STAMP)], v) == codec.encode(Time(t));
    var e := U16(IE_RECOVERY_TIME_STAMP) + U16(4) + EncodeTime(t);
    assert |EncodeTime(t)| == 4 && EncodeIe(s, item, v) == Ok(e);
    assert EncodeField(s, item, m.grp.fields[0]) == Ok(e);
    assert EncodeGroup(s, items, m.grp, 1) == Ok([]);
    assert EncodeGroup(s, items, m.grp, 0) == Ok(e + []) && e + [] == e;
    assert |e| == 8;
  }

  function SetDeletion(seqNo: nat, node: NodeId, csids: seq<FqCsid>): Msg<PfcpLeaf> {
    Msg(SESSION_SET_DELETION_REQUEST, seqNo, 0,
        Group([One(Leaf(Node(node))),
               if csids == [] then Absent else Many(seq(|csids|, i requires 0 <= i < |csids| => Leaf(Csid(csids[i]))))], []))
  }

  lemma CsidIsShort(v: FqCsid)
    requires ValidFqCsid(v)
    ensures |EncodeFqCsid(v)| < 64
  {
    CsidsTrip(v.csid);
  }

  lemma NodeFits(node: NodeId)
    requires node.NodeIp4? ==> |node.ip4| == 4
    requires node.NodeIp6? ==> |node.ip6| == 16
    requires node.NodeFqdn? ==> |node.name| < 65535
    requires !node.NodeOther?
    ensures FitsIe(Elements(), Item(IE_NODE_ID, 0, false), Leaf(Node(node)))
  {
    NodeIdRoundTrip(node);
    LeafFits(Elements(), Item(IE_NODE_ID, 0, false), KNode, Node(node));
    hide FitsIe;
  }

  lemma CsidFits(v: FqCsid)
    requires ValidFqCsid(v)
    ensures FitsIe(Elements(), Item(IE_FQ_CSID, 0, true), Leaf(Csid(v)))
  {
    FqCsidRoundTrip(v);
    CsidIsShort(v);
    LeafFits(Elements(), Item(IE_FQ_CSID, 0, true), KCsid, Csid(v));
    hide FitsIe;
  }

  /** Node name and set identifiers fit the message's group. */
  lemma SetDeletionFits(seqNo: nat, node: NodeId, csids: seq<FqCsid>)
    requires node.NodeIp4? ==> |node.ip4| == 4
    requires node.NodeIp6? ==> |node.ip6| == 16
    requires node.NodeFqdn? ==> |node.name| < 65535
    requires !node.NodeOther? && forall i :: 0 <= i < |csids| ==> ValidFqCsid(csids[i])
    ensures var spec, m := Messages()[SESSION_SET_DELETION_REQUEST], SetDeletion(seqNo, node, csids);
            FitsGroup(Elements(), spec.mandatory, spec.items, m.grp) && WellFormedItems(spec.items)
  {
    hide ValidFqCsid, FitsIe, Elements;
    var s, m := Elements(), SetDeletion(seqNo, node, csids);
    var items := Messages()[m.typ].items;
    NodeFits(node);
    forall i | 0 <= i < |csids| ensures FitsIe(s, items[1], Leaf(Csid(csids[i]))) {
      CsidFits(csids[i]);
    }
    assert FitsField(s, items[0], m.grp.fields[0]);
    assert FitsField(s, items[1], m.grp.fields[1]);
  }

  lemma ElementsWellFormed()
    ensures WellFormed(Elements())
  {
  }

  /** Every set deletion request with a usable node name and valid set
      identifiers, that fits one message, comes back as it was sent. */
  lemma SetDeletionRoundTrip(seqNo: nat, node: NodeId, csids: seq<FqCsid>)
    requires node.NodeIp4? ==> |node.ip4| == 4
    requires node.NodeIp6? ==> |node.ip6| == 16
    requires node.NodeFqdn? ==> |node.name| < 65535
    requires !node.NodeOther? && forall i :: 0 <= i < |csids| ==> ValidFqCsid(csids[i])
    requires EncodeMsg(Elements(), Messages(), SetDeletion(seqNo, node, csids)).Ok? ==>
               |EncodeMsg(Elements(), Messages(), SetDeletion(seqNo, node, csids)).value| < 65540
    ensures EncodeMsg(Elements(), Messages(), SetDeletion(seqNo, node, csids)).Ok?
    ensures DecodeMsg(Elements(), Messages(), EncodeMsg(Elements(), Messages(), SetDeletion(seqNo, node, csids)).value)
         == Ok(SetDeletion(seqNo % 0x100_0000, node, csids))
  {
    assert Pow256(3) == 0x100_0000;
    hide EncodeMsg, DecodeMsg, Elements, FitsGroup, WellFormedItems, WellFormed, ValidFqCsid;
    SetDeletionFits(seqNo, node, csids);
    ElementsWellFormed();
    Pow256Positive(8);
    MessageRoundTrip(Elements(), Messages(), SetDeletion(seqNo, node, csids));
  }
}
