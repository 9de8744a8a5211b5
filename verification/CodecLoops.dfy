/** The codec as the program runs it: an output vector that grows, element
    headers whose length is filled in afterwards, and a position that moves
    through the input. */
module CodecLoops {
  import opened Bytes
  import opened Codec

  function Appended(vec: bytes, r: Result<bytes>): Result<bytes> {
    match r
    case Ok(b) => Ok(vec + b)
    case Err(cause) => Err(cause)
    case Malformed => Malformed
  }

  method EncodeIeTo<L>(s: Schema<L>, item: Item, v: Value<L>, vec: bytes) returns (r: Result<bytes>)
    ensures r == Appended(vec, EncodeIe(s, item, v))
    decreases v, 1
  {
    if (item.vendor, item.typ) !in s {
      return Malformed;
    }
    var def := s[(item.vendor, item.typ)];
    var hdr := |vec|;
    var out := vec;
    if item.vendor == 0 {
      out := out + (U16(item.typ) + [0, 0]);
    } else {
      out := out + (U16(VENDOR_BIT + item.typ) + [0, 0] + U16(item.vendor));
    }
    ghost var started := out;
    match (def, v) {
      case (GroupDef(_, items), Nested(g)) =>
        r := EncodeGroupTo(s, items, g, out);
      case (LeafDef(codec), Leaf(l)) =>
        r := Appended(out, codec.encode(l));
      case _ =>
        return Malformed;
    }
    if r.Ok? {
      ghost var body := EncodeBody(s, def, v).value;
      out := r.value;
      assert out == started + body;
      var len := |out| - hdr - 4;
      out := out[..hdr + 2] + U16(len) + out[hdr + 4..];
      assert out == vec + (Header(item, |body|) + body);
      r := Ok(out);
    }
  }

  method EncodeVectorIeTo<L>(s: Schema<L>, item: Item, vs: seq<Value<L>>, vec: bytes) returns (r: Result<bytes>)
    ensures r == Appended(vec, EncodeArray(s, item, vs))
    decreases vs, 0
  {
    var out := vec;
    assert vs[0..] == vs;
    for i := 0 to |vs|
      invariant Appended(out, EncodeArray(s, item, vs[i..])) == Appended(vec, EncodeArray(s, item, vs))
    {
      assert vs[i..][1..] == vs[i + 1..];
      r := EncodeIeTo(s, item, vs[i], out);
      if !r.Ok? {
        return;
      }
      AppendedTwice(out, EncodeIe(s, item, vs[i]).value, EncodeArray(s, item, vs[i + 1..]));
      out := r.value;
    }
    r := Ok(out);
    assert out + [] == out;
  }

  lemma AppendedTwice(vec: bytes, first: bytes, rest: Result<bytes>)
    ensures Appended(vec + first, rest)
         == Appended(vec, if rest.Ok? then Ok(first + rest.value) else rest)
  {
    if rest.Ok? {
      assert vec + first + rest.value == vec + (first + rest.value);
    }
  }

  method EncodeGroupTo<L>(s: Schema<L>, items: seq<Item>, g: Group<L>, vec: bytes) returns (r: Result<bytes>)
    ensures r == Appended(vec, EncodeGroup(s, items, g, 0))
    decreases g, 1
  {
    var out := vec;
    for i := 0 to |items|
      invariant Appended(out, EncodeGroup(s, items, g, i)) == Appended(vec, EncodeGroup(s, items, g, 0))
    {
      if i >= |g.fields| {
        return Malformed;
      }
      var item := items[i];
      var f := g.fields[i];
      r := Ok(out);
      if !item.Placeholder() && !f.Absent? && KnownVendor(item.vendor) {
        match f {
          case Many(vs) =>
            if item.isArray {
              r := EncodeVectorIeTo(s, item, vs, out);
            } else {
              return Malformed;
            }
          case One(v) =>
            if item.isArray {
              return Malformed;
            }
            r := EncodeIeTo(s, item, v, out);
        }
      }
      assert r == Appended(out, EncodeField(s, item, f)) by {
        assert out + [] == out;
      }
      if !r.Ok? {
        return;
      }
      AppendedTwice(out, EncodeField(s, item, f).value, EncodeGroup(s, items, g, i + 1));
      out := r.value;
    }
    r := Ok(out);
    assert out + [] == out;
  }

  method DecodeIe<L>(s: Schema<L>, def: IeDef<L>, b: bytes) returns (r: Result<Value<L>>)
    ensures r == DecodeBody(s, def, b)
    decreases |b|, 1
  {
    match def {
      case LeafDef(codec) =>
        var d := codec.decode(b);
        match d {
          case Ok(l) => r := Ok(Leaf(l));
          case Err(cause) => r := Err(cause);
          case Malformed => r := Malformed;
        }
      case GroupDef(mandatory, items) =>
        var d := DecodeGroupLoop(s, mandatory, items, b);
        match d {
          case Ok(g) => r := Ok(Nested(g));
          case Err(cause) => r := Err(cause);
          case Malformed => r := Malformed;
        }
    }
  }

  method DecodeGroupLoop<L>(s: Schema<L>, mandatory: set<nat>, items: seq<Item>, p: bytes) returns (r: Result<Group<L>>)
    ensures r == DecodeGroup(s, mandatory, items, p, Group(seq(|items|, _ => Absent), []))
    decreases |p|, 0
  {
    var grp: Group<L> := Group(seq(|items|, _ => Absent), []);
    var pos := 0;
    assert p[0..] == p;
    while pos < |p|
      invariant pos <= |p| && |grp.fields| == |items|
      invariant DecodeGroup(s, mandatory, items, p[pos..], grp)
             == DecodeGroup(s, mandatory, items, p, Group(seq(|items|, _ => Absent), []))
    {
      var ie := SplitIe(p[pos..]);
      if !ie.Ok? {
        return if ie.Err? then Err(ie.cause) else Malformed;
      }
      var next := pos + |ie.value.whole|;
      assert p[pos..][|ie.value.whole|..] == p[next..];
      var id := FindItem(items, ie.value.typ, 0);
      if ie.value.Foreign() || id == |items| || (!items[id].isArray && !grp.fields[id].Absent?) {
        grp := AddUnknown(grp, ie.value.whole);
      } else if (ie.value.vendor, ie.value.typ) !in s {
        return Malformed;
      } else {
        var d := DecodeIe(s, s[(ie.value.vendor, ie.value.typ)], ie.value.body);
        match d {
          case Ok(v) => grp := AddValue(grp, id, items[id].isArray, v);
          case Err(cause) => return Finish(mandatory, grp, Err(cause));
          case Malformed => return Malformed;
        }
      }
      pos := next;
    }
    r := Finish(mandatory, grp, Ok(grp));
  }
}
