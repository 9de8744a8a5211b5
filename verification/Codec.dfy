/** The table-driven PFCP codec (3GPP TS 29.244, section 8.1.1): information
    elements as type-length-value, groups of elements, arrays of elements and
    vendor elements, all described by a schema. */
module Codec {
  import opened Bytes

  const CAUSE_REQUEST_REJECTED := 64
  const CAUSE_MANDATORY_IE_MISSING := 66
  const CAUSE_INVALID_LENGTH := 68

  const VENDOR_BIT := 0x8000
  const VENDOR_BBF := 3561
  const VENDOR_TRAVELPING := 18681

  /** Malformed stands for inputs on which the program would read outside its
      buffers or tables. */
  datatype Result<T> = Ok(value: T) | Err(cause: int) | Malformed {
    predicate IsFailure() {
      !Ok?
    }
    function PropagateFailure<U>(): Result<U>
      requires !Ok?
    {
      if Err? then Err(cause) else Malformed
    }
    function Extract(): T
      requires Ok?
    {
      value
    }
  }

  datatype LeafCodec<!L> = LeafCodec(encode: L -> Result<bytes>, decode: bytes -> Result<L>)

  datatype Item = Item(typ: nat, vendor: nat, isArray: bool) {
    /** Entries with neither type nor vendor only keep the field numbers. */
    predicate Placeholder() {
      typ == 0 && vendor == 0
    }
  }

  datatype IeDef<!L> = LeafDef(codec: LeafCodec<L>) | GroupDef(mandatory: set<nat>, items: seq<Item>)

  /** The element definitions by vendor and type; vendor 0 is 3GPP. */
  type Schema<!L> = map<(nat, nat), IeDef<L>>

  datatype Value<L> = Leaf(l: L) | Nested(g: Group<L>)

  datatype Field<L> = Absent | One(v: Value<L>) | Many(vs: seq<Value<L>>)

  /** One field per item of the group, and the elements nobody asked for. */
  datatype Group<L> = Group(fields: seq<Field<L>>, ies: seq<bytes>)

  predicate KnownVendor(vendor: nat) {
    vendor == 0 || vendor == VENDOR_BBF || vendor == VENDOR_TRAVELPING
  }

  // ----- encoding

  /** Header of an element with a body of n octets; the length is taken modulo
      2^16, and counts the vendor field. */
  function Header(item: Item, n: nat): bytes {
    if item.vendor == 0 then U16(item.typ) + U16(n)
    else U16(VENDOR_BIT + item.typ) + U16(n + 2) + U16(item.vendor)
  }

  function EncodeIe<L>(s: Schema<L>, item: Item, v: Value<L>): Result<bytes>
    decreases v, 1
  {
    if (item.vendor, item.typ) !in s then Malformed
    else
      var body :- EncodeBody(s, s[(item.vendor, item.typ)], v);
      Ok(Header(item, |body|) + body)
  }

  function EncodeBody<L>(s: Schema<L>, def: IeDef<L>, v: Value<L>): Result<bytes>
    decreases v, 0
  {
    match (def, v)
    case (LeafDef(codec), Leaf(l)) => codec.encode(l)
    case (GroupDef(_, items), Nested(g)) => EncodeGroup(s, items, g, 0)
    case _ => Malformed
  }

  function EncodeArray<L>(s: Schema<L>, item: Item, vs: seq<Value<L>>): Result<bytes>
    decreases vs
  {
    if vs == [] then Ok([])
    else
      var first :- EncodeIe(s, item, vs[0]);
      var rest :- EncodeArray(s, item, vs[1..]);
      Ok(first + rest)
  }

  function EncodeField<L>(s: Schema<L>, item: Item, f: Field<L>): Result<bytes>
    decreases f
  {
    if item.Placeholder() || f.Absent? || !KnownVendor(item.vendor) then Ok([])
    else match f
      case One(v) => if item.isArray then Malformed else EncodeIe(s, item, v)
      case Many(vs) => if item.isArray then EncodeArray(s, item, vs) else Malformed
  }

  /** The fields of a group from item i on. */
  function EncodeGroup<L>(s: Schema<L>, items: seq<Item>, g: Group<L>, i: nat): Result<bytes>
    decreases g, |items| - i
  {
    if i >= |items| then Ok([])
    else if i >= |g.fields| then Malformed
    else
      var first :- EncodeField(s, items[i], g.fields[i]);
      var rest :- EncodeGroup(s, items, g, i + 1);
      Ok(first + rest)
  }

  // ----- decoding

  /** The item of the group with this type, or the number of items. */
  function FindItem(items: seq<Item>, typ: nat, i: nat): (id: nat)
    requires i <= |items|
    ensures i <= id <= |items|
    ensures id < |items| ==> items[id].typ == typ && typ != 0
    decreases |items| - i
  {
    if i == |items| then i
    else if items[i].typ != 0 && items[i].typ == typ then i
    else FindItem(items, typ, i + 1)
  }

  ghost predicate HasMandatory<L>(mandatory: set<nat>, g: Group<L>) {
    forall m :: m in mandatory ==> m < |g.fields| && !g.fields[m].Absent?
  }

  /** What the group decodes to once the loop has stopped: the mandatory check
      takes precedence over the error that stopped it. */
  function Finish<L>(mandatory: set<nat>, g: Group<L>, r: Result<Group<L>>): Result<Group<L>> {
    if exists m :: m in mandatory && (m >= |g.fields| || g.fields[m].Absent?) then Err(CAUSE_MANDATORY_IE_MISSING)
    else r
  }

  function AddUnknown<L>(g: Group<L>, ie: bytes): Group<L> {
    g.(ies := g.ies + [ie])
  }

  function AddValue<L>(g: Group<L>, id: nat, isArray: bool, v: Value<L>): Group<L>
    requires id < |g.fields|
  {
    var f := if isArray then Many((if g.fields[id].Many? then g.fields[id].vs else []) + [v]) else One(v);
    g.(fields := g.fields[id := f])
  }

  /** One element cut off the front of the input; `own` without the vendor bit. */
  datatype RawIe = RawIe(own: bool, vendor: nat, typ: nat, body: bytes, whole: bytes) {
    predicate Foreign() {
      !own && vendor != VENDOR_BBF && vendor != VENDOR_TRAVELPING
    }
  }

  /** Splits the first element off; its header or body may be cut short, and a
      vendor element may be too short for its vendor. */
  function SplitIe(b: bytes): (r: Result<RawIe>)
    requires b != []
    ensures r.Ok? ==> r.value.whole <= b && |r.value.whole| >= 4 + |r.value.body| && (r.value.own ==> r.value.vendor == 0)
  {
    if |b| < 4 then Err(CAUSE_INVALID_LENGTH)
    else
      var typ, len := GetU16(b), GetU16(b[2..]);
      if 4 + len > |b| then Err(CAUSE_INVALID_LENGTH)
      else if typ < VENDOR_BIT then Ok(RawIe(true, 0, typ, b[4..4 + len], b[..4 + len]))
      else if len < 2 then Malformed
      else Ok(RawIe(false, GetU16(b[4..]), typ - VENDOR_BIT, b[6..4 + len], b[..4 + len]))
  }

  /** Whether the element goes to the unknown ones: a foreign vendor, a type the
      group does not list, or a field that is already there. */
  predicate IsUnknown<L>(items: seq<Item>, acc: Group<L>, ie: RawIe)
    requires |acc.fields| == |items|
  {
    var id := FindItem(items, ie.typ, 0);
    ie.Foreign() || id == |items| || (!items[id].isArray && !acc.fields[id].Absent?)
  }

  function DecodeBody<L>(s: Schema<L>, def: IeDef<L>, b: bytes): Result<Value<L>>
    decreases |b|, 1
  {
    match def
    case LeafDef(codec) =>
      var l :- codec.decode(b);
      Ok(Leaf(l))
    case GroupDef(mandatory, items) =>
      var g :- DecodeGroup(s, mandatory, items, b, Group(seq(|items|, _ => Absent), []));
      Ok(Nested(g))
  }

  /** The loop of the group decoder on what is left of the input. */
  function DecodeGroup<L>(s: Schema<L>, mandatory: set<nat>, items: seq<Item>, b: bytes, acc: Group<L>): Result<Group<L>>
    requires |acc.fields| == |items|
    decreases |b|, 0
  {
    if b == [] then Finish(mandatory, acc, Ok(acc))
    else
      var ie :- SplitIe(b);
      var rest := b[|ie.whole|..];
      if IsUnknown(items, acc, ie) then DecodeGroup(s, mandatory, items, rest, AddUnknown(acc, ie.whole))
      else if (ie.vendor, ie.typ) !in s then Malformed
      else
        var id := FindItem(items, ie.typ, 0);
        match DecodeBody(s, s[(ie.vendor, ie.typ)], ie.body)
        case Ok(v) => DecodeGroup(s, mandatory, items, rest, AddValue(acc, id, items[id].isArray, v))
        case Err(cause) => Finish(mandatory, acc, Err(cause))
        case Malformed => Malformed
  }

  // ----- mandatory fields at every depth

  /** Every group in the value has its mandatory fields, whichever vendor's
      definition of the type it was decoded with. */
  ghost predicate Complete<L>(s: Schema<L>, def: IeDef<L>, v: Value<L>)
    decreases v, 1
  {
    match (def, v)
    case (LeafDef(_), Leaf(_)) => true
    case (GroupDef(mandatory, items), Nested(g)) =>
      && |g.fields| == |items| && HasMandatory(mandatory, g)
      && forall i :: 0 <= i < |g.fields| ==> CompleteField(s, items[i], g.fields[i])
    case _ => false
  }

  ghost predicate CompleteField<L>(s: Schema<L>, item: Item, f: Field<L>)
    decreases f, 2
  {
    match f
    case Absent => true
    case One(v) => CompleteIe(s, item.typ, v)
    case Many(vs) => vs != [] && forall j :: 0 <= j < |vs| ==> CompleteIe(s, item.typ, vs[j])
  }

  ghost predicate CompleteIe<L>(s: Schema<L>, typ: nat, v: Value<L>)
    decreases v, 2
  {
    exists vendor: nat :: KnownVendor(vendor) && (vendor, typ) in s && Complete(s, s[(vendor, typ)], v)
  }

  ghost predicate CompleteFields<L>(s: Schema<L>, items: seq<Item>, g: Group<L>) {
    |g.fields| == |items| && forall i :: 0 <= i < |g.fields| ==> CompleteField(s, items[i], g.fields[i])
  }

  lemma AddValueComplete<L>(s: Schema<L>, items: seq<Item>, g: Group<L>, id: nat, v: Value<L>)
    requires CompleteFields(s, items, g) && id < |items| && CompleteIe(s, items[id].typ, v)
    requires !items[id].isArray ==> g.fields[id].Absent?
    ensures CompleteFields(s, items, AddValue(g, id, items[id].isArray, v))
  {
    var h := AddValue(g, id, items[id].isArray, v);
    assert CompleteField(s, items[id], g.fields[id]);
    assert CompleteField(s, items[id], h.fields[id]);
  }

  /** A decode that succeeds has every mandatory field of every group, at every
      depth and in every array element. */
  lemma {:induction false} DecodeIsComplete<L>(s: Schema<L>, def: IeDef<L>, b: bytes)
    ensures var r := DecodeBody(s, def, b);
            r.Ok? ==> Complete(s, def, r.value)
    decreases |b|, 1
  {
    if def.GroupDef? {
      GroupIsComplete(s, def.mandatory, def.items, b, Group(seq(|def.items|, _ => Absent), []));
    }
  }

  lemma {:induction false} GroupIsComplete<L>(s: Schema<L>, mandatory: set<nat>, items: seq<Item>, b: bytes, acc: Group<L>)
    requires CompleteFields(s, items, acc)
    ensures var r := DecodeGroup(s, mandatory, items, b, acc);
            r.Ok? ==> CompleteFields(s, items, r.value) && HasMandatory(mandatory, r.value)
    decreases |b|, 0
  {
    if b != [] && SplitIe(b).Ok? {
      var ie := SplitIe(b).value;
      var rest := b[|ie.whole|..];
      if IsUnknown(items, acc, ie) {
        GroupIsComplete(s, mandatory, items, rest, AddUnknown(acc, ie.whole));
      } else if (ie.vendor, ie.typ) in s {
        var id := FindItem(items, ie.typ, 0);
        DecodeIsComplete(s, s[(ie.vendor, ie.typ)], ie.body);
        var r := DecodeBody(s, s[(ie.vendor, ie.typ)], ie.body);
        if r.Ok? {
          assert CompleteIe(s, items[id].typ, r.value);
          AddValueComplete(s, items, acc, id, r.value);
          GroupIsComplete(s, mandatory, items, rest, AddValue(acc, id, items[id].isArray, r.value));
        }
      }
    }
  }

  // ----- round trip

  /** Types are nonzero, fit beside the vendor bit and are distinct; vendors are
      known ones. */
  ghost predicate WellFormedItems(items: seq<Item>) {
    && (forall i :: 0 <= i < |items| && !items[i].Placeholder() ==>
          0 < items[i].typ < VENDOR_BIT && KnownVendor(items[i].vendor))
    && (forall i, j :: 0 <= i < j < |items| && !items[i].Placeholder() && !items[j].Placeholder() ==>
          items[i].typ != items[j].typ)
  }

  ghost predicate WellFormed<L>(s: Schema<L>) {
    forall k :: k in s && s[k].GroupDef? ==> WellFormedItems(s[k].items)
  }

  /** The value belongs to the definition: groups have their mandatory fields
      and no unknown elements, arrays are not empty, every body fits its 16-bit
      length, and every leaf value is one that its codec mirrors. */
  ghost predicate Fits<L>(s: Schema<L>, def: IeDef<L>, v: Value<L>)
    decreases v, 1
  {
    match (def, v)
    case (LeafDef(codec), Leaf(l)) =>
      codec.encode(l).Ok? && codec.decode(codec.encode(l).value) == Ok(l)
    case (GroupDef(mandatory, items), Nested(g)) => FitsGroup(s, mandatory, items, g)
    case _ => false
  }

  ghost predicate FitsGroup<L>(s: Schema<L>, mandatory: set<nat>, items: seq<Item>, g: Group<L>)
    decreases g, 1
  {
    && g.ies == [] && |g.fields| == |items| && HasMandatory(mandatory, g)
    && forall i :: 0 <= i < |g.fields| ==> FitsField(s, items[i], g.fields[i])
  }

  ghost predicate FitsField<L>(s: Schema<L>, item: Item, f: Field<L>)
    decreases f, 2
  {
    match f
    case Absent => true
    case One(v) => !item.Placeholder() && !item.isArray && FitsIe(s, item, v)
    case Many(vs) =>
      !item.Placeholder() && item.isArray && vs != [] && forall j :: 0 <= j < |vs| ==> FitsIe(s, item, vs[j])
  }

  ghost predicate FitsIe<L>(s: Schema<L>, item: Item, v: Value<L>)
    decreases v, 2
  {
    && (item.vendor, item.typ) in s
    && Fits(s, s[(item.vendor, item.typ)], v)
    && (EncodeBody(s, s[(item.vendor, item.typ)], v).Ok? ==>
          |EncodeBody(s, s[(item.vendor, item.typ)], v).value| + (if item.vendor == 0 then 0 else 2) < 65536)
  }

  lemma {:induction false} FindItemFinds(items: seq<Item>, id: nat, i: nat)
    requires WellFormedItems(items) && i <= id < |items| && !items[id].Placeholder()
    ensures FindItem(items, items[id].typ, i) == id
    decreases id - i
  {
    if i < id {
      FindItemFinds(items, id, i + 1);
    }
  }

  /** Splitting undoes the header. */
  lemma SplitHeader(item: Item, body: bytes, tail: bytes)
    requires 0 < item.typ < VENDOR_BIT && KnownVendor(item.vendor)
    requires |body| + (if item.vendor == 0 then 0 else 2) < 65536
    ensures var b := Header(item, |body|) + body + tail;
            b != [] && SplitIe(b) == Ok(RawIe(item.vendor == 0, item.vendor, item.typ, body, Header(item, |body|) + body))
            && b[|Header(item, |body|) + body|..] == tail
  {
    var h := Header(item, |body|);
    var b := h + body + tail;
    if item.vendor == 0 {
      assert b == U16(item.typ) + (U16(|body|) + (body + tail));
      U16RoundTrip(item.typ, U16(|body|) + (body + tail));
      assert b[2..] == U16(|body|) + (body + tail);
      U16RoundTrip(|body|, body + tail);
      assert b[4..4 + |body|] == body;
      assert b[..4 + |body|] == h + body;
    } else {
      var n := |body| + 2;
      var rest := U16(n) + (U16(item.vendor) + (body + tail));
      assert b == U16(VENDOR_BIT + item.typ) + rest;
      U16RoundTrip(VENDOR_BIT + item.typ, rest);
      assert b[2..] == rest;
      U16RoundTrip(n, U16(item.vendor) + (body + tail));
      assert b[4..] == U16(item.vendor) + (body + tail);
      U16RoundTrip(item.vendor, body + tail);
      assert b[6..4 + n] == body;
      assert b[..4 + n] == h + body;
    }
  }

  /** Decoding one encoded element adds its value to the group. */
  lemma IeStep<L>(s: Schema<L>, mandatory: set<nat>, items: seq<Item>, id: nat, v: Value<L>, tail: bytes, acc: Group<L>)
    requires WellFormedItems(items) && id < |items| == |acc.fields| && !items[id].Placeholder()
    requires FitsIe(s, items[id], v)
    requires !items[id].isArray ==> acc.fields[id].Absent?
    requires var def := s[(items[id].vendor, items[id].typ)];
             EncodeBody(s, def, v).Ok? && DecodeBody(s, def, EncodeBody(s, def, v).value) == Ok(v)
    ensures EncodeIe(s, items[id], v).Ok?
    ensures DecodeGroup(s, mandatory, items, EncodeIe(s, items[id], v).value + tail, acc)
         == DecodeGroup(s, mandatory, items, tail, AddValue(acc, id, items[id].isArray, v))
  {
    var item := items[id];
    var body := EncodeBody(s, s[(item.vendor, item.typ)], v).value;
    SplitHeader(item, body, tail);
    FindItemFinds(items, id, 0);
    var b := EncodeIe(s, item, v).value + tail;
    assert b == Header(item, |body|) + body + tail;
    assert !IsUnknown(items, acc, SplitIe(b).value);
  }

  lemma FitsIeFacts<L>(s: Schema<L>, item: Item, v: Value<L>)
    requires WellFormed(s) && FitsIe(s, item, v)
    ensures (item.vendor, item.typ) in s
    ensures var def := s[(item.vendor, item.typ)]; Fits(s, def, v) && (def.GroupDef? ==> WellFormedItems(def.items))
  {
  }

  lemma ArrayCons<L>(s: Schema<L>, item: Item, vs: seq<Value<L>>)
    requires vs != [] && EncodeIe(s, item, vs[0]).Ok? && EncodeArray(s, item, vs[1..]).Ok?
    ensures EncodeArray(s, item, vs) == Ok(EncodeIe(s, item, vs[0]).value + EncodeArray(s, item, vs[1..]).value)
  {
    hide EncodeIe;
  }

  lemma {:induction false} ArrayTrip<L>(s: Schema<L>, mandatory: set<nat>, items: seq<Item>, id: nat,
                                        done: seq<Value<L>>, vs: seq<Value<L>>, tail: bytes, acc: Group<L>)
    requires WellFormed(s) && WellFormedItems(items) && id < |items| == |acc.fields|
    requires !items[id].Placeholder() && items[id].isArray
    requires forall j :: 0 <= j < |vs| ==> FitsIe(s, items[id], vs[j])
    requires acc.fields[id] == if done == [] then Absent else Many(done)
    requires done + vs != []
    ensures EncodeArray(s, items[id], vs).Ok?
    ensures DecodeGroup(s, mandatory, items, EncodeArray(s, items[id], vs).value + tail, acc)
         == DecodeGroup(s, mandatory, items, tail, acc.(fields := acc.fields[id := Many(done + vs)]))
    decreases vs
  {
    if vs == [] {
      hide DecodeGroup, WellFormed, WellFormedItems, FitsIe;
      assert done + vs == done;
      assert acc.fields[id := Many(done)] == acc.fields;
      assert [] + tail == tail;
    } else {
      var v := vs[0];
      FitsIeFacts(s, items[id], v);
      hide DecodeGroup, EncodeIe, EncodeBody, DecodeBody, Fits, FitsIe, EncodeArray, WellFormed, WellFormedItems, AddValue;
      RoundTrip(s, s[(items[id].vendor, items[id].typ)], v);
      var next := AddValue(acc, id, true, v);
      AddToArray(acc, id, done, vs);
      ArrayTrip(s, mandatory, items, id, done + [v], vs[1..], tail, next);
      var first := EncodeIe(s, items[id], v).value;
      var rest := EncodeArray(s, items[id], vs[1..]).value;
      IeStep(s, mandatory, items, id, v, rest + tail, acc);
      ArrayCons(s, items[id], vs);
      assert (first + rest) + tail == first + (rest + tail);
    }
  }

  lemma AddToArray<L>(acc: Group<L>, id: nat, done: seq<Value<L>>, vs: seq<Value<L>>)
    requires vs != [] && id < |acc.fields| && acc.fields[id] == if done == [] then Absent else Many(done)
    ensures var next := AddValue(acc, id, true, vs[0]);
            && |next.fields| == |acc.fields| && next.fields[id] == Many(done + [vs[0]])
            && next.(fields := next.fields[id := Many(done + [vs[0]] + vs[1..])]) == acc.(fields := acc.fields[id := Many(done + vs)])
  {
    var next := AddValue(acc, id, true, vs[0]);
    assert done + [vs[0]] + vs[1..] == done + vs;
    assert next.fields[id := Many(done + vs)] == acc.fields[id := Many(done + vs)];
  }

  /** The group whose first i fields are those of g and whose rest is absent. */
  ghost function Prefix<L>(g: Group<L>, i: nat): Group<L>
    requires i <= |g.fields|
  {
    Group(g.fields[..i] + seq(|g.fields| - i, _ => Absent), [])
  }

  lemma PrefixOfNothing<L>(s: Schema<L>, mandatory: set<nat>, items: seq<Item>, g: Group<L>)
    requires FitsGroup(s, mandatory, items, g)
    ensures Prefix(g, 0) == Group(seq(|items|, _ => Absent), [])
  {
  }

  lemma {:induction false} FieldTrip<L>(s: Schema<L>, mandatory: set<nat>, items: seq<Item>, g: Group<L>, i: nat, tail: bytes)
    requires WellFormed(s) && WellFormedItems(items) && FitsGroup(s, mandatory, items, g) && i < |items|
    ensures EncodeField(s, items[i], g.fields[i]).Ok?
    ensures DecodeGroup(s, mandatory, items, EncodeField(s, items[i], g.fields[i]).value + tail, Prefix(g, i))
         == DecodeGroup(s, mandatory, items, tail, Prefix(g, i + 1))
    decreases g.fields[i], 3
  {
    var acc, f := Prefix(g, i), g.fields[i];
    assert acc.fields[i] == Absent;
    assert FitsField(s, items[i], f);
    match f
    case Absent =>
      assert Prefix(g, i + 1) == acc;
      assert [] + tail == tail;
    case One(v) =>
      RoundTrip(s, s[(items[i].vendor, items[i].typ)], v);
      IeStep(s, mandatory, items, i, v, tail, acc);
      assert AddValue(acc, i, false, v) == Prefix(g, i + 1);
    case Many(vs) =>
      ArrayTrip(s, mandatory, items, i, [], vs, tail, acc);
      assert [] + vs == vs;
      assert acc.(fields := acc.fields[i := Many(vs)]) == Prefix(g, i + 1);
  }

  lemma {:induction false} GroupTrip<L>(s: Schema<L>, mandatory: set<nat>, items: seq<Item>, g: Group<L>, i: nat)
    requires WellFormed(s) && WellFormedItems(items) && FitsGroup(s, mandatory, items, g) && i <= |items|
    ensures EncodeGroup(s, items, g, i).Ok?
    ensures DecodeGroup(s, mandatory, items, EncodeGroup(s, items, g, i).value, Prefix(g, i)) == Ok(g)
    decreases g, |items| - i
  {
    if i == |items| {
      assert Prefix(g, i) == g;
    } else {
      GroupTrip(s, mandatory, items, g, i + 1);
      FieldTrip(s, mandatory, items, g, i, EncodeGroup(s, items, g, i + 1).value);
    }
  }

  /** For every well-formed schema and every value that fits it, encoding
      succeeds and decoding the octets gives the value back, with no unknown
      elements. */
  lemma {:induction false} RoundTrip<L>(s: Schema<L>, def: IeDef<L>, v: Value<L>)
    requires WellFormed(s) && (def.GroupDef? ==> WellFormedItems(def.items)) && Fits(s, def, v)
    ensures EncodeBody(s, def, v).Ok?
    ensures DecodeBody(s, def, EncodeBody(s, def, v).value) == Ok(v)
    decreases v
  {
    if def.GroupDef? {
      GroupTrip(s, def.mandatory, def.items, v.g, 0);
      PrefixOfNothing(s, def.mandatory, def.items, v.g);
    }
  }

  /** An array field that is present but empty decodes as an absent one. */
  lemma EmptyArrayIsLost<L>(s: Schema<L>, mandatory: set<nat>, items: seq<Item>, g: Group<L>, i: nat)
    requires WellFormed(s) && WellFormedItems(items) && i < |g.fields| && i < |items| && items[i].isArray
    requires FitsGroup(s, mandatory, items, g.(fields := g.fields[i := Absent]))
    ensures var empty, absent := g.(fields := g.fields[i := Many([])]), g.(fields := g.fields[i := Absent]);
            && EncodeGroup(s, items, empty, 0).Ok? && empty != absent
            && DecodeGroup(s, mandatory, items, EncodeGroup(s, items, empty, 0).value, Group(seq(|items|, _ => Absent), []))
               == Ok(absent)
  {
    var empty, absent := g.(fields := g.fields[i := Many([])]), g.(fields := g.fields[i := Absent]);
    assert empty.fields[i] != absent.fields[i];
    hide FitsGroup, WellFormed, WellFormedItems, EncodeGroup, DecodeGroup;
    EmptyArrayEncodes(s, items, g, i, 0);
    GroupTrip(s, mandatory, items, absent, 0);
    PrefixOfNothing(s, mandatory, items, absent);
  }

  /** It leaves no octets behind. */
  lemma {:induction false} EmptyArrayEncodes<L>(s: Schema<L>, items: seq<Item>, g: Group<L>, i: nat, j: nat)
    requires i < |g.fields| && items != [] && i < |items| && items[i].isArray
    ensures EncodeGroup(s, items, g.(fields := g.fields[i := Many([])]), j)
         == EncodeGroup(s, items, g.(fields := g.fields[i := Absent]), j)
    decreases |items| - j
  {
    if j < |items| {
      EmptyArrayEncodes(s, items, g, i, j + 1);
    }
  }
}
