/** The filter as it is compiled, field by field, into a zeroed entry, and as it
    is matched, word by word. */
module SdfBuffers {
  import opened Options
  import opened FlowKey
  import opened AppRules
  import opened Sdf

  const IP4_BITS := 32
  const WORD_BITS := 64

  /** Sets the first `width` bits of a 32-bit mask, one bit of one octet at a
      time; octets are stored most significant bit first. */
  method Ip4MaskFromWidth(width: nat) returns (a: seq<bool>)
    requires width <= IP4_BITS
    ensures |a| == IP4_BITS && forall i :: 0 <= i < IP4_BITS ==> (a[i] <==> i < width)
  {
    a := seq(IP4_BITS, _ => false);
    for i := 0 to width
      invariant |a| == IP4_BITS && forall j :: 0 <= j < IP4_BITS ==> (a[j] <==> j < i)
    {
      var bitnum := 7 - i % 8;
      var octet := i / 8;
      a := a[8 * octet + (7 - bitnum) := true];
    }
  }

  function And(a: seq<bool>, b: seq<bool>): seq<bool>
    requires |a| == |b|
  {
    seq(|a|, i requires 0 <= i < |a| => a[i] && b[i])
  }

  /** Masks and compares two words at a time. */
  method AddressIsEqualMasked(a: Address, b: Address, mask: Address) returns (equal: bool)
    ensures equal <==> MaskedEqual(a, b, mask)
  {
    for i := 0 to ADDRESS_BITS / WORD_BITS
      invariant forall j :: 0 <= j < WORD_BITS * i && mask[j] ==> a[j] == b[j]
    {
      var lo, hi := WORD_BITS * i, WORD_BITS * i + WORD_BITS;
      var x, y := And(a[lo..hi], mask[lo..hi]), And(b[lo..hi], mask[lo..hi]);
      if x != y {
        var k :| 0 <= k < WORD_BITS && x[k] != y[k];
        assert mask[lo + k] && a[lo + k] != b[lo + k];
        return false;
      }
      forall j | lo <= j < hi && mask[j] ensures a[j] == b[j] {
        assert x[j - lo] == y[j - lo];
      }
    }
    return true;
  }

  method AclClassifyOne(acl: Acl, isIp4: bool, teid: nat, key: Key, isReverse: bool, appOk: bool) returns (r: bool)
    requires WellShaped(acl) && |key.ip| == |key.port| == 2
    ensures r <==> ClassifyOne(acl, isIp4, teid, key, isReverse, appOk)
  {
    hide MaskedEqual, BitAnd;
    var pfLen := if isIp4 then 32 else 64;
    var s, d := Slot(0, isReverse), Slot(1, isReverse);
    if isIp4 != acl.isIp4 { return false; }
    if acl.teid.Some? && teid != acl.teid.value { return false; }
    match acl.ueIp {
      case UeUplink(ue) =>
        var same := AddressIsEqualMasked(ue, key.ip[s], WidthMask(false, pfLen));
        if !same { return false; }
      case UeDownlink(ue) =>
        var same := AddressIsEqualMasked(ue, key.ip[d], WidthMask(false, pfLen));
        if !same { return false; }
      case UeIgnored =>
    }
    if acl.ipApp {
      if acl.ueIp.UeIgnored? || !appOk { return false; }
    }
    r := TupleMatches(acl, key, s, d);
  }

  method TupleMatches(acl: Acl, key: Key, s: nat, d: nat) returns (r: bool)
    requires WellShaped(acl) && |key.ip| == |key.port| == 2 && s < 2 && d < 2
    ensures r <==> TupleStep(acl, key.proto, key.ip[s], key.ip[d], key.port[s], key.port[d])
  {
    hide MaskedEqual, BitAnd;
    if BitAnd(key.proto, acl.mask.protocol, 8) != BitAnd(acl.pattern.protocol, acl.mask.protocol, 8) { return false; }
    var src := AddressIsEqualMasked(key.ip[s], acl.pattern.address[SRC], acl.mask.address[SRC]);
    if !src { return false; }
    var dst := AddressIsEqualMasked(key.ip[d], acl.pattern.address[DST], acl.mask.address[DST]);
    if !dst { return false; }
    return acl.mask.port[SRC] <= key.port[s] <= acl.pattern.port[SRC]
           && acl.mask.port[DST] <= key.port[d] <= acl.pattern.port[DST];
  }

  /** The two five-tuples of an entry while it is compiled. */
  class AclBuffer {
    var maskProtocol: nat
    var patternProtocol: nat
    var maskAddress: seq<Address>
    var patternAddress: seq<Address>
    var maskPort: seq<nat>
    var patternPort: seq<nat>

    predicate Valid()
      reads this
    {
      |maskAddress| == |patternAddress| == |maskPort| == |patternPort| == 2
    }

    function Mask(): FiveTuple
      reads this
    {
      FiveTuple(maskProtocol, maskAddress, maskPort)
    }

    function Pattern(): FiveTuple
      reads this
    {
      FiveTuple(patternProtocol, patternAddress, patternPort)
    }

    /** A zeroed entry. */
    constructor ()
      ensures Valid() && Mask() == Pattern() == FiveTuple(0, [Zeros(), Zeros()], [0, 0])
    {
      maskProtocol, patternProtocol := 0, 0;
      maskAddress, patternAddress := [Zeros(), Zeros()], [Zeros(), Zeros()];
      maskPort, patternPort := [0, 0], [0, 0];
    }

    method SetMask(field: nat, isIp4: bool, width: nat)
      requires Valid() && field < 2 && width <= Width(isIp4)
      modifies this`maskAddress
      ensures maskAddress == old(maskAddress)[field := WidthMask(isIp4, width)]
    {
      if isIp4 {
        var bits := Ip4MaskFromWidth(width);
        var m := seq(IP4_PAD_BITS, _ => false) + bits;
        assert m == WidthMask(true, width);
        maskAddress := maskAddress[field := m];
      } else {
        maskAddress := maskAddress[field := WidthMask(false, width)];
      }
    }

    method AssignAddress(dst: nat, src: nat, isIp4: bool, pdr: Pdr, rule: AclRule)
      requires Valid() && dst < 2 && src < 2 && Compilable(isIp4, rule)
      requires maskAddress[dst] == patternAddress[dst] == Zeros()
      modifies this`maskAddress, this`patternAddress
      ensures var c := CompileAddress(isIp4, pdr, rule.address[src]);
              maskAddress == old(maskAddress)[dst := c.mask] && patternAddress == old(patternAddress)[dst := c.pattern]
    {
      hide WidthMask;
      var addr := rule.address[src];
      if IsAny(addr) {
      } else if IsAssigned(addr) {
        var ue := UeAddress(isIp4, pdr);
        if ue.Some? {
          patternAddress := patternAddress[dst := ue.value];
          SetMask(dst, isIp4, UeWidth(isIp4));
        }
      } else {
        patternAddress := patternAddress[dst := addr.address];
        SetMask(dst, isIp4, addr.mask);
      }
    }

    method AssignPort(dst: nat, src: nat, rule: AclRule)
      requires Valid() && dst < 2 && src < 2 && |rule.port| == 2
      modifies this`maskPort, this`patternPort
      ensures maskPort == old(maskPort)[dst := rule.port[src].min] && patternPort == old(patternPort)[dst := rule.port[src].max]
    {
      maskPort := maskPort[dst := rule.port[src].min];
      patternPort := patternPort[dst := rule.port[src].max];
    }

    method Compile(isIp4: bool, pdr: Pdr, rule: AclRule)
      requires Valid() && Mask() == Pattern() == FiveTuple(0, [Zeros(), Zeros()], [0, 0]) && Compilable(isIp4, rule)
      modifies this
      ensures Valid() && (Mask(), Pattern()) == CompileSdf(isIp4, pdr, rule)
    {
      hide CompileAddress, Zeros, AddressCompilable;
      if rule.proto != PROTO_ANY {
        maskProtocol, patternProtocol := 255, rule.proto;
      }
      if pdr.srcIntf == SRC_INTF_ACCESS {
        AssignAddress(DST, SRC, isIp4, pdr, rule);
        AssignAddress(SRC, DST, isIp4, pdr, rule);
        AssignPort(DST, SRC, rule);
        AssignPort(SRC, DST, rule);
      } else {
        AssignAddress(SRC, SRC, isIp4, pdr, rule);
        AssignAddress(DST, DST, isIp4, pdr, rule);
        AssignPort(SRC, SRC, rule);
        AssignPort(DST, DST, rule);
      }
      ghost var (mask, pattern) := CompileSdf(isIp4, pdr, rule);
      assert maskAddress == mask.address && patternAddress == pattern.address;
      assert maskPort == mask.port && patternPort == pattern.port;
    }
  }

  method CompileEntry(isIp4: bool, pdr: Pdr, rule: AclRule, pdrIdx: nat) returns (acl: Acl)
    requires Compilable(isIp4, rule)
    ensures acl == CompilePdi(isIp4, pdr, rule, pdrIdx)
  {
    var b := new AclBuffer();
    b.Compile(isIp4, pdr, rule);
    acl := Acl(isIp4, pdr.teid, CompileUeIp(isIp4, pdr), pdr.ipApp, b.Mask(), b.Pattern(), pdrIdx);
  }

  /** The filters of both families, in rule order. */
  method BuildAcls(pdrs: seq<Pdr>) returns (v4: seq<Acl>, v6: seq<Acl>)
    requires AllCompilable(pdrs)
    ensures v4 == PdrAcls(true, pdrs, |pdrs|) && v6 == PdrAcls(false, pdrs, |pdrs|)
  {
    hide CompilePdi, Compilable;
    v4, v6 := [], [];
    for i := 0 to |pdrs|
      invariant v4 == PdrAcls(true, pdrs, i) && v6 == PdrAcls(false, pdrs, i)
    {
      var n := |pdrs[i].acl|;
      for r := 0 to n
        invariant v4 == PdrAcls(true, pdrs, i) + RuleAcls(true, pdrs, i, r)
        invariant v6 == PdrAcls(false, pdrs, i) + RuleAcls(false, pdrs, i, r)
      {
        var rule := pdrs[i].acl[r];
        if Admits(rule, true) {
          var acl := CompileEntry(true, pdrs[i], rule, i);
          v4 := v4 + [acl];
        }
        if Admits(rule, false) {
          var acl := CompileEntry(false, pdrs[i], rule, i);
          v6 := v6 + [acl];
        }
      }
    }
  }

  /** The first filter that matches, in the order they are kept. */
  method FirstMatch(acls: seq<Acl>, isIp4: bool, teid: nat, key: Key, arg: bool, appOk: nat -> bool) returns (found: Option<nat>)
    requires (forall acl :: acl in acls ==> WellShaped(acl)) && |key.ip| == |key.port| == 2
    ensures found.Some? ==> found.value < |acls| && Matches(acls[found.value], isIp4, teid, key, arg, appOk)
    ensures forall i :: 0 <= i < (if found.Some? then found.value else |acls|) ==> !Matches(acls[i], isIp4, teid, key, arg, appOk)
  {
    hide ClassifyOne, WellShaped;
    for i := 0 to |acls|
      invariant forall j :: 0 <= j < i ==> !Matches(acls[j], isIp4, teid, key, arg, appOk)
    {
      var r := AclClassifyOne(acls[i], isIp4, teid, key, arg, appOk(acls[i].pdrIdx));
      if r {
        return Some(i);
      }
    }
    return None;
  }
}
