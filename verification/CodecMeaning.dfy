/** What a decoded group is, said of its elements: which of them each field
    holds, and which are left over. */
module CodecMeaning {
  import opened Bytes
  import opened Codec
  import opened Message
  import opened Wire

  /** The input cut into its elements. */
  function Cut(b: bytes): Result<seq<RawIe>>
    decreases |b|
  {
    if b == [] then Ok([])
    else
      var ie :- SplitIe(b);
      var rest :- Cut(b[|ie.whole|..]);
      Ok([ie] + rest)
  }

  /** The item is the first of the element's type, and the element is of a known
      vendor. */
  predicate Answers(items: seq<Item>, id: nat, ie: RawIe)
    requires id < |items|
  {
    !ie.Foreign() && ie.typ != 0 && items[id].typ == ie.typ && forall j :: 0 <= j < id ==> items[j].typ != ie.typ
  }

  /** The elements among the first n for an item, in order. */
  function Wanted(items: seq<Item>, ies: seq<RawIe>, n: nat, id: nat): seq<RawIe>
    requires n <= |ies| && id < |items|
  {
    if n == 0 then []
    else Wanted(items, ies, n - 1, id) + if Answers(items, id, ies[n - 1]) then [ies[n - 1]] else []
  }

  /** Nobody asked for the element, or its item takes one and has had one. */
  ghost predicate Extra(items: seq<Item>, ies: seq<RawIe>, j: nat)
    requires j < |ies|
  {
    forall id :: 0 <= id < |items| && Answers(items, id, ies[j]) ==>
      !items[id].isArray && Wanted(items, ies, j, id) != []
  }

  ghost function Extras(items: seq<Item>, ies: seq<RawIe>, n: nat): seq<bytes>
    requires n <= |ies|
  {
    if n == 0 then []
    else Extras(items, ies, n - 1) + if Extra(items, ies, n - 1) then [ies[n - 1].whole] else []
  }

  function DecodeRaw<L>(s: Schema<L>, ie: RawIe): Result<Value<L>> {
    if (ie.vendor, ie.typ) in s then DecodeBody(s, s[(ie.vendor, ie.typ)], ie.body) else Malformed
  }

  /** A field holds its elements: all of them if it is an array, else the first. */
  ghost predicate Holds<L>(s: Schema<L>, item: Item, f: Field<L>, w: seq<RawIe>) {
    if w == [] then f.Absent?
    else if item.isArray then f.Many? && |f.vs| == |w| && forall i :: 0 <= i < |w| ==> DecodeRaw(s, w[i]) == Ok(f.vs[i])
    else f.One? && DecodeRaw(s, w[0]) == Ok(f.v)
  }

  /** The group is the meaning of the first n elements. */
  ghost predicate Means<L>(s: Schema<L>, items: seq<Item>, ies: seq<RawIe>, n: nat, g: Group<L>)
    requires n <= |ies|
  {
    && |g.fields| == |items| && g.ies == Extras(items, ies, n)
    && forall id :: 0 <= id < |items| ==> Holds(s, items[id], g.fields[id], Wanted(items, ies, n, id))
  }

  lemma {:induction false} FindsFirst(items: seq<Item>, typ: nat, i: nat)
    requires i <= |items| && forall j :: 0 <= j < i ==> typ == 0 || items[j].typ != typ
    ensures var id := FindItem(items, typ, i);
            && (forall j :: 0 <= j < id ==> typ == 0 || items[j].typ != typ)
            && (id < |items| ==> typ != 0 && items[id].typ == typ)
    decreases |items| - i
  {
    if i < |items| && !(items[i].typ != 0 && items[i].typ == typ) {
      FindsFirst(items, typ, i + 1);
    }
  }

  /** The item found is the one the element is for. */
  lemma FindAnswers(items: seq<Item>, ie: RawIe, id: nat)
    requires id < |items|
    ensures Answers(items, id, ie) <==> !ie.Foreign() && FindItem(items, ie.typ, 0) == id
  {
    FindsFirst(items, ie.typ, 0);
  }

  /** The decoder sets aside exactly the extra elements. */
  lemma UnknownIsExtra<L>(s: Schema<L>, items: seq<Item>, ies: seq<RawIe>, n: nat, acc: Group<L>)
    requires n < |ies| && Means(s, items, ies, n, acc)
    ensures IsUnknown(items, acc, ies[n]) <==> Extra(items, ies, n)
  {
    var id := FindItem(items, ies[n].typ, 0);
    forall j | 0 <= j < |items| ensures Answers(items, j, ies[n]) <==> !ies[n].Foreign() && j == id {
      FindAnswers(items, ies[n], j);
    }
    if id < |items| {
      assert Holds(s, items[id], acc.fields[id], Wanted(items, ies, n, id));
    }
    hide Answers, Wanted;
  }

  lemma ExtraStep<L>(s: Schema<L>, items: seq<Item>, ies: seq<RawIe>, n: nat, acc: Group<L>)
    requires n < |ies| && Means(s, items, ies, n, acc) && Extra(items, ies, n)
    ensures Means(s, items, ies, n + 1, AddUnknown(acc, ies[n].whole))
  {
    forall id | 0 <= id < |items|
      ensures Holds(s, items[id], acc.fields[id], Wanted(items, ies, n + 1, id))
    {
      assert Holds(s, items[id], acc.fields[id], Wanted(items, ies, n, id));
    }
    hide Answers;
  }

  /** A field takes one more element. */
  lemma HoldsMore<L>(s: Schema<L>, item: Item, f: Field<L>, w: seq<RawIe>, ie: RawIe, v: Value<L>)
    requires Holds(s, item, f, w) && DecodeRaw(s, ie) == Ok(v) && (!item.isArray ==> w == [])
    ensures Holds(s, item, if item.isArray then Many((if f.Many? then f.vs else []) + [v]) else One(v), w + [ie])
  {
    hide DecodeRaw;
  }

  lemma OnlyItem(items: seq<Item>, ies: seq<RawIe>, n: nat, id: nat)
    requires n < |ies| && id < |items| && Answers(items, id, ies[n])
    ensures forall j :: 0 <= j < |items| ==>
              Wanted(items, ies, n + 1, j) == Wanted(items, ies, n, j) + if j == id then [ies[n]] else []
  {
    forall j | 0 <= j < |items| ensures Answers(items, j, ies[n]) <==> j == id {
      FindAnswers(items, ies[n], j);
      FindAnswers(items, ies[n], id);
    }
    hide Answers;
  }

  /** An element that is asked for is for one item, which takes it. */
  lemma AskedFor<L>(s: Schema<L>, items: seq<Item>, ies: seq<RawIe>, n: nat, acc: Group<L>)
    requires n < |ies| && Means(s, items, ies, n, acc) && !Extra(items, ies, n)
    ensures var id := FindItem(items, ies[n].typ, 0);
            && id < |items| && Answers(items, id, ies[n]) && Extras(items, ies, n + 1) == Extras(items, ies, n)
            && (!items[id].isArray ==> Wanted(items, ies, n, id) == [])
  {
    UnknownIsExtra(s, items, ies, n, acc);
    var id := FindItem(items, ies[n].typ, 0);
    FindAnswers(items, ies[n], id);
    assert Holds(s, items[id], acc.fields[id], Wanted(items, ies, n, id));
    hide Wanted, Answers, Extra;
  }

  lemma ValueStep<L>(s: Schema<L>, items: seq<Item>, ies: seq<RawIe>, n: nat, acc: Group<L>, v: Value<L>)
    requires n < |ies| && Means(s, items, ies, n, acc) && !Extra(items, ies, n) && DecodeRaw(s, ies[n]) == Ok(v)
    ensures var id := FindItem(items, ies[n].typ, 0);
            id < |items| && Means(s, items, ies, n + 1, AddValue(acc, id, items[id].isArray, v))
  {
    hide DecodeRaw, Holds, Answers, Wanted, Extra, Extras, FindItem;
    AskedFor(s, items, ies, n, acc);
    var id := FindItem(items, ies[n].typ, 0);
    var g := AddValue(acc, id, items[id].isArray, v);
    OnlyItem(items, ies, n, id);
    HoldsMore(s, items[id], acc.fields[id], Wanted(items, ies, n, id), ies[n], v);
    forall j | 0 <= j < |items| ensures Holds(s, items[j], g.fields[j], Wanted(items, ies, n + 1, j)) {
      assert Holds(s, items[j], acc.fields[j], Wanted(items, ies, n, j));
      if j != id {
        assert Wanted(items, ies, n, j) + [] == Wanted(items, ies, n, j);
      }
    }
  }

  /** Everything the decoder has to decode decodes. */
  ghost predicate AllDecode<L>(s: Schema<L>, items: seq<Item>, ies: seq<RawIe>, n: nat)
    requires n <= |ies|
  {
    forall j :: n <= j < |ies| && !Extra(items, ies, j) ==> DecodeRaw(s, ies[j]).Ok?
  }

  ghost predicate AllThere(mandatory: set<nat>, items: seq<Item>, ies: seq<RawIe>) {
    forall m :: m in mandatory ==> m < |items| && Wanted(items, ies, |ies|, m) != []
  }

  lemma MandatoryThere<L>(s: Schema<L>, mandatory: set<nat>, items: seq<Item>, ies: seq<RawIe>, g: Group<L>)
    requires Means(s, items, ies, |ies|, g)
    ensures Finish(mandatory, g, Ok(g)) == (if AllThere(mandatory, items, ies) then Ok(g) else Err(CAUSE_MANDATORY_IE_MISSING))
  {
    forall m | m in mandatory && m < |items| ensures g.fields[m].Absent? <==> Wanted(items, ies, |ies|, m) == [] {
      assert Holds(s, items[m], g.fields[m], Wanted(items, ies, |ies|, m));
    }
    hide Wanted;
  }

  lemma CutNext(b: bytes, ies: seq<RawIe>, n: nat)
    requires b != [] && n <= |ies| && Cut(b) == Ok(ies[n..])
    ensures n < |ies| && SplitIe(b) == Ok(ies[n]) && Cut(b[|ies[n].whole|..]) == Ok(ies[n + 1..])
  {
    hide SplitIe;
    var ie := SplitIe(b).value;
    var rest := Cut(b[|ie.whole|..]).value;
    assert ies[n..] == [ie] + rest;
    assert |ies[n..]| == 1 + |rest|;
    assert ies[n] == ies[n..][0] && ies[n + 1..] == ies[n..][1..];
  }

  lemma AllDecodeNext<L>(s: Schema<L>, items: seq<Item>, ies: seq<RawIe>, n: nat)
    requires n < |ies|
    ensures AllDecode(s, items, ies, n) <==> (Extra(items, ies, n) || DecodeRaw(s, ies[n]).Ok?) && AllDecode(s, items, ies, n + 1)
  {
    hide Extra, DecodeRaw;
  }

  /** One round of the decoder. */
  lemma DecodeNext<L>(s: Schema<L>, mandatory: set<nat>, items: seq<Item>, b: bytes, acc: Group<L>, ie: RawIe)
    requires b != [] && SplitIe(b) == Ok(ie) && |acc.fields| == |items|
    ensures var r, rest, id := DecodeGroup(s, mandatory, items, b, acc), b[|ie.whole|..], FindItem(items, ie.typ, 0);
            && (IsUnknown(items, acc, ie) ==> r == DecodeGroup(s, mandatory, items, rest, AddUnknown(acc, ie.whole)))
            && (!IsUnknown(items, acc, ie) && !DecodeRaw(s, ie).Ok? ==> !r.Ok?)
            && (!IsUnknown(items, acc, ie) && DecodeRaw(s, ie).Ok? ==>
                  && id < |items|
                  && r == DecodeGroup(s, mandatory, items, rest, AddValue(acc, id, items[id].isArray, DecodeRaw(s, ie).value)))
  {
    hide SplitIe, DecodeBody, AddValue, AddUnknown, FindItem;
  }

  lemma {:induction false} MeaningFrom<L>(s: Schema<L>, mandatory: set<nat>, items: seq<Item>, ies: seq<RawIe>, n: nat,
                                          b: bytes, acc: Group<L>)
    requires n <= |ies| && Cut(b) == Ok(ies[n..]) && Means(s, items, ies, n, acc)
    ensures var r := DecodeGroup(s, mandatory, items, b, acc);
            && (r.Ok? <==> AllDecode(s, items, ies, n) && AllThere(mandatory, items, ies))
            && (r.Ok? ==> Means(s, items, ies, |ies|, r.value))
    decreases |ies| - n
  {
    hide Extra, IsUnknown, AllThere, Extras, Wanted, DecodeRaw, SplitIe, Holds, AddValue, FindItem;
    if b == [] {
      assert n == |ies|;
      MandatoryThere(s, mandatory, items, ies, acc);
    } else {
      CutNext(b, ies, n);
      var ie := ies[n];
      var rest := b[|ie.whole|..];
      UnknownIsExtra(s, items, ies, n, acc);
      AllDecodeNext(s, items, ies, n);
      DecodeNext(s, mandatory, items, b, acc, ie);
      hide Means, Cut, AllDecode, DecodeGroup;
      if Extra(items, ies, n) {
        ExtraStep(s, items, ies, n, acc);
        MeaningFrom(s, mandatory, items, ies, n + 1, rest, AddUnknown(acc, ie.whole));
      } else if DecodeRaw(s, ie).Ok? {
        ValueStep(s, items, ies, n, acc, DecodeRaw(s, ie).value);
        var id := FindItem(items, ie.typ, 0);
        MeaningFrom(s, mandatory, items, ies, n + 1, rest, AddValue(acc, id, items[id].isArray, DecodeRaw(s, ie).value));
      }
    }
  }

  lemma {:induction false} CutFails<L>(s: Schema<L>, mandatory: set<nat>, items: seq<Item>, b: bytes, acc: Group<L>)
    requires |acc.fields| == |items| && !Cut(b).Ok?
    ensures !DecodeGroup(s, mandatory, items, b, acc).Ok?
    decreases |b|
  {
    if SplitIe(b).Ok? {
      var ie := SplitIe(b).value;
      var rest := b[|ie.whole|..];
      hide IsUnknown;
      if IsUnknown(items, acc, ie) {
        CutFails(s, mandatory, items, rest, AddUnknown(acc, ie.whole));
      } else if DecodeRaw(s, ie).Ok? {
        UnknownFacts(items, acc, ie);
        var id := FindItem(items, ie.typ, 0);
        CutFails(s, mandatory, items, rest, AddValue(acc, id, items[id].isArray, DecodeRaw(s, ie).value));
      }
    }
  }

  lemma UnknownFacts<L>(items: seq<Item>, acc: Group<L>, ie: RawIe)
    requires |acc.fields| == |items| && !IsUnknown(items, acc, ie)
    ensures FindItem(items, ie.typ, 0) < |items|
  {
  }

  /** A group decodes exactly if its input is cut into elements, all that are
      asked for decode and the mandatory ones are there; then each field holds
      the elements of its item, and the foreign, unlisted and repeated ones are
      left over in order and change no field. */
  lemma DecodedMeaning<L>(s: Schema<L>, mandatory: set<nat>, items: seq<Item>, b: bytes)
    ensures var r := DecodeGroup(s, mandatory, items, b, Group(seq(|items|, _ => Absent), []));
            && (r.Ok? <==> && Cut(b).Ok? && AllDecode(s, items, Cut(b).value, 0)
                           && AllThere(mandatory, items, Cut(b).value))
            && (r.Ok? ==> Means(s, items, Cut(b).value, |Cut(b).value|, r.value))
  {
    var none: Group<L> := Group(seq(|items|, _ => Absent), []);
    hide Cut, AllDecode, AllThere;
    if Cut(b).Ok? {
      var ies := Cut(b).value;
      assert ies[0..] == ies;
      assert Means(s, items, ies, 0, none);
      hide Means;
      MeaningFrom(s, mandatory, items, ies, 0, b, none);
    } else {
      CutFails(s, mandatory, items, b, none);
    }
  }

  // ----- messages

  /** What a message header has to say before its group is looked at: a known
      type, all octets of the header, a length within the input, and the flag for
      a session identifier exactly with the types that carry one. */
  ghost predicate Framed<L>(specs: MsgSpecs<L>, b: bytes) {
    && |b| >= 8 && b[1] in specs && specs[b[1]].GroupDef?
    && (50 <= b[1] <= 99 ==> |b| >= 16)
    && Pair(b[2], b[3]) + 4 <= |b|
    && (b[0] % 2 == 1 <==> 50 <= b[1] <= 99)
  }

  /** The elements of a message: what follows its header, up to its length. */
  function MessageBody(b: bytes): bytes
    requires |b| >= 8
  {
    var hdr, end := if 50 <= b[1] <= 99 then 16 else 8, Pair(b[2], b[3]) + 4;
    if hdr <= end <= |b| then b[hdr..end] else []
  }

  /** A message decodes exactly if it is framed and its group decodes; then its
      type, session identifier and sequence number are those at their places, and
      its group is the meaning of its elements. */
  lemma MessageMeaning<L>(s: Schema<L>, specs: MsgSpecs<L>, b: bytes)
    ensures var r := DecodeMsg(s, specs, b);
            && (r.Ok? <==> && Framed(specs, b)
                           && var cut, def := Cut(MessageBody(b)), specs[b[1]];
                           && cut.Ok? && AllDecode(s, def.items, cut.value, 0) && AllThere(def.mandatory, def.items, cut.value))
            && (r.Ok? ==>
                  var m, ies, session := r.value, Cut(MessageBody(b)).value, 50 <= b[1] <= 99;
                  && m.typ == b[1] && (session ==> NumAt(b, 4, m.seid, 8)) && (!session ==> m.seid == 0)
                  && NumAt(b, if session then 12 else 4, m.seqNo, 3) && m.seqNo < Pow256(3)
                  && Means(s, specs[b[1]].items, ies, |ies|, m.grp))
  {
    hide DecodeGroup, Cut, AllDecode, AllThere, Means, NumAt, FromBigEndian, Pow256, GetU16;
    if Framed(specs, b) {
      var def := specs[b[1]];
      GetU16Octets(b[2..]);
      DecodedMeaning(s, def.mandatory, def.items, MessageBody(b));
      if 50 <= b[1] <= 99 {
        ReadsNumber(b, 4, 8);
        ReadsNumber(b, 12, 3);
      } else {
        ReadsNumber(b, 4, 3);
      }
    } else if |b| >= 4 {
      GetU16Octets(b[2..]);
    }
  }
}
