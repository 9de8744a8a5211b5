/** Application IP rules: a longest-prefix table over the rules' source
    prefixes, in which every entry links to the next shorter one, so that one
    lookup and a walk find every rule whose source contains the address. */
module AppRules {
  import opened Options
  import opened FlowKey

  datatype Source = SrcAssigned | SrcNet(address: Address, mask: nat)

  datatype PortRange = PortRange(min: nat, max: nat)

  datatype Rule = Rule(src: Source, sport: PortRange, dport: PortRange)

  /** An indexed rule: which rule, and the entry to try after it. */
  datatype AppDpo = AppDpo(rule: nat, next: Option<nat>, preflen: nat)

  /** A prefix within its address family. */
  datatype Prefix = Prefix(isIp4: bool, bits: seq<bool>)

  /** The forwarding tables of both families: prefix to entry. */
  type Fib = map<Prefix, nat>

  /** The bits a prefix of the address's family is made of. */
  function Bits(a: Address): seq<bool> {
    if IsIp4(a) then a[IP4_PAD_BITS..] else a
  }

  ghost predicate ValidRule(r: Rule) {
    r.src.SrcNet? ==> r.src.mask <= |Bits(r.src.address)|
  }

  function PrefixOf(r: Rule): Prefix
    requires r.src.SrcNet? && r.src.mask <= |Bits(r.src.address)|
  {
    Prefix(IsIp4(r.src.address), Bits(r.src.address)[..r.src.mask])
  }

  ghost predicate Contains(r: Rule, a: Address) {
    && r.src.SrcNet? && r.src.mask <= |Bits(r.src.address)|
    && IsIp4(r.src.address) == IsIp4(a)
    && Bits(r.src.address)[..r.src.mask] == Bits(a)[..r.src.mask]
  }

  // ----- longest-prefix lookup

  /** The entry of the longest prefix of `bits`, at most n bits long. */
  function Longest(fib: Fib, isIp4: bool, bits: seq<bool>, n: nat): Option<nat>
    requires n <= |bits|
  {
    if Prefix(isIp4, bits[..n]) in fib then Some(fib[Prefix(isIp4, bits[..n])])
    else if n == 0 then None
    else Longest(fib, isIp4, bits, n - 1)
  }

  function Lookup(fib: Fib, a: Address): Option<nat> {
    Longest(fib, IsIp4(a), Bits(a), |Bits(a)|)
  }

  lemma {:induction false} LongestIsLongest(fib: Fib, isIp4: bool, bits: seq<bool>, n: nat)
    requires n <= |bits|
    ensures match Longest(fib, isIp4, bits, n)
            case None => forall m :: 0 <= m <= n ==> Prefix(isIp4, bits[..m]) !in fib
            case Some(i) => exists m :: 0 <= m <= n && Prefix(isIp4, bits[..m]) in fib && fib[Prefix(isIp4, bits[..m])] == i
                              && forall k :: m < k <= n ==> Prefix(isIp4, bits[..k]) !in fib
  {
    if Prefix(isIp4, bits[..n]) !in fib && n > 0 {
      LongestIsLongest(fib, isIp4, bits, n - 1);
    }
  }

  // ----- building the index

  /** One entry per rule with a concrete source, in rule order. */
  function Entries(rules: seq<Rule>, n: nat): (ds: seq<AppDpo>)
    requires n <= |rules|
    ensures forall d :: d in ds ==> d.rule < n && rules[d.rule].src.SrcNet? && d.preflen == rules[d.rule].src.mask
  {
    if n == 0 then []
    else
      var r := rules[n - 1];
      match r.src
      case SrcAssigned => Entries(rules, n - 1)
      case SrcNet(_, mask) => Entries(rules, n - 1) + [AppDpo(n - 1, None, mask)]
  }

  lemma {:induction false} EntriesCover(rules: seq<Rule>, n: nat, r: nat)
    requires r < n <= |rules| && rules[r].src.SrcNet?
    ensures exists d :: d in Entries(rules, n) && d.rule == r
  {
    if r < n - 1 {
      EntriesCover(rules, n - 1, r);
    } else {
      assert Entries(rules, n)[|Entries(rules, n)| - 1].rule == r;
    }
  }

  ghost predicate Sorted(ds: seq<AppDpo>) {
    forall i, j :: 0 <= i < j < |ds| ==> ds[i].preflen <= ds[j].preflen
  }

  /** The linked entries and the table after the first n were entered. */
  datatype Index = Index(dpos: seq<AppDpo>, fib: Fib)

  ghost predicate Concrete(rules: seq<Rule>, ds: seq<AppDpo>) {
    forall d :: d in ds ==> d.rule < |rules| && rules[d.rule].src.SrcNet? && d.preflen == rules[d.rule].src.mask
                            && ValidRule(rules[d.rule])
  }

  /** Each entry is linked to what its own source address finds so far, then
      entered under its prefix. */
  function Link(rules: seq<Rule>, ds: seq<AppDpo>, n: nat): (x: Index)
    requires n <= |ds| && Concrete(rules, ds)
    ensures |x.dpos| == n
  {
    if n == 0 then Index([], map[])
    else
      var x := Link(rules, ds, n - 1);
      var r := rules[ds[n - 1].rule];
      Index(x.dpos + [ds[n - 1].(next := Lookup(x.fib, r.src.address))], x.fib[PrefixOf(r) := n - 1])
  }

  lemma LinkNext(rules: seq<Rule>, ds: seq<AppDpo>, n: nat)
    requires n < |ds| && Concrete(rules, ds)
    ensures ds[n].rule < |rules| && Net(rules[ds[n].rule])
    ensures var r, x := rules[ds[n].rule], Link(rules, ds, n);
            Link(rules, ds, n + 1)
            == Index(x.dpos + [ds[n].(next := Lookup(x.fib, r.src.address))], x.fib[PrefixOf(r) := n])
  {
    assert ds[n] in ds;
    hide Lookup, PrefixOf;
  }

  ghost predicate Net(r: Rule) {
    r.src.SrcNet? && ValidRule(r)
  }

  /** No two rules share a source prefix. */
  ghost predicate DistinctPrefixes(rules: seq<Rule>) {
    forall i, j | 0 <= i < j < |rules| && Net(rules[i]) && Net(rules[j]) :: PrefixOf(rules[i]) != PrefixOf(rules[j])
  }

  ghost predicate DistinctRules(ds: seq<AppDpo>) {
    forall i, j :: 0 <= i < j < |ds| ==> ds[i].rule != ds[j].rule
  }

  /** The prefix of the i-th entry. */
  ghost function Pfx(rules: seq<Rule>, ds: seq<AppDpo>, i: nat): Prefix
    requires Concrete(rules, ds) && i < |ds|
  {
    assert ds[i] in ds;
    PrefixOf(rules[ds[i].rule])
  }

  lemma PfxFacts(rules: seq<Rule>, ds: seq<AppDpo>, i: nat)
    requires Concrete(rules, ds) && i < |ds|
    ensures ds[i].rule < |rules| && rules[ds[i].rule].src.SrcNet? && ValidRule(rules[ds[i].rule])
    ensures |Pfx(rules, ds, i).bits| == ds[i].preflen
    ensures Pfx(rules, ds, i) == PrefixOf(rules[ds[i].rule])
  {
    assert ds[i] in ds;
  }

  /** The table holds exactly the prefixes of the first n entries. */
  ghost predicate Holds(rules: seq<Rule>, ds: seq<AppDpo>, fib: Fib, n: nat)
    requires Concrete(rules, ds) && n <= |ds|
  {
    && (forall i: nat :: i < n ==> Pfx(rules, ds, i) in fib && fib[Pfx(rules, ds, i)] == i)
    && (forall p :: p in fib ==> fib[p] < n && Pfx(rules, ds, fib[p]) == p)
  }

  ghost predicate Distinct(rules: seq<Rule>, ds: seq<AppDpo>)
    requires Concrete(rules, ds)
  {
    forall i: nat, j: nat :: i < j < |ds| ==> Pfx(rules, ds, i) != Pfx(rules, ds, j)
  }

  lemma DistinctEntries(rules: seq<Rule>, ds: seq<AppDpo>)
    requires Concrete(rules, ds) && DistinctPrefixes(rules) && DistinctRules(ds)
    ensures Distinct(rules, ds)
  {
    forall i: nat, j: nat | i < j < |ds| ensures Pfx(rules, ds, i) != Pfx(rules, ds, j) {
      PfxFacts(rules, ds, i);
      PfxFacts(rules, ds, j);
      var a, b := ds[i].rule, ds[j].rule;
      assert a != b;
      if a < b {
        assert PrefixOf(rules[a]) != PrefixOf(rules[b]);
      } else {
        assert PrefixOf(rules[b]) != PrefixOf(rules[a]);
      }
    }
  }

  lemma HoldsExtends(rules: seq<Rule>, ds: seq<AppDpo>, fib: Fib, n: nat)
    requires n < |ds| && Concrete(rules, ds) && Distinct(rules, ds) && Holds(rules, ds, fib, n)
    ensures Holds(rules, ds, fib[Pfx(rules, ds, n) := n], n + 1)
  {
    hide Pfx, Concrete;
  }

  lemma {:induction false} LinkHolds(rules: seq<Rule>, ds: seq<AppDpo>, n: nat)
    requires n <= |ds| && Concrete(rules, ds) && Distinct(rules, ds)
    ensures Holds(rules, ds, Link(rules, ds, n).fib, n)
  {
    if n > 0 {
      LinkHolds(rules, ds, n - 1);
      LinkNext(rules, ds, n - 1);
      PfxFacts(rules, ds, n - 1);
      hide *;
      HoldsExtends(rules, ds, Link(rules, ds, n - 1).fib, n - 1);
    } else {
      assert Link(rules, ds, n).fib == map[];
      hide Link, Pfx;
    }
  }

  lemma {:induction false} LinkKeeps(rules: seq<Rule>, ds: seq<AppDpo>, n: nat, i: nat)
    requires i < n <= |ds| && Concrete(rules, ds)
    ensures var d := Link(rules, ds, n).dpos[i];
            d.rule == ds[i].rule && d.next == Lookup(Link(rules, ds, i).fib, rules[ds[i].rule].src.address)
  {
    hide Link, Lookup, PrefixOf;
    LinkNext(rules, ds, n - 1);
    if i < n - 1 {
      LinkKeeps(rules, ds, n - 1, i);
    }
  }

  // ----- the walk

  ghost predicate PrefixContains(p: Prefix, a: Address) {
    p.isIp4 == IsIp4(a) && |p.bits| <= |Bits(a)| && p.bits == Bits(a)[..|p.bits|]
  }

  /** What a lookup finds: the entry with the longest prefix that contains the
      address, among the first n. */
  lemma LookupFinds(rules: seq<Rule>, ds: seq<AppDpo>, fib: Fib, n: nat, a: Address)
    requires n <= |ds| && Concrete(rules, ds) && Holds(rules, ds, fib, n)
    ensures match Lookup(fib, a)
            case None => forall j: nat :: j < n ==> !PrefixContains(Pfx(rules, ds, j), a)
            case Some(i) => i < n && PrefixContains(Pfx(rules, ds, i), a)
                            && forall j: nat :: j < n && PrefixContains(Pfx(rules, ds, j), a) ==> ds[j].preflen <= ds[i].preflen
  {
    var bits, is4 := Bits(a), IsIp4(a);
    LongestIsLongest(fib, is4, bits, |bits|);
    forall j: nat | j < n && PrefixContains(Pfx(rules, ds, j), a)
      ensures Prefix(is4, bits[..ds[j].preflen]) in fib && ds[j].preflen <= |bits|
    {
      PfxFacts(rules, ds, j);
      assert Pfx(rules, ds, j) == Prefix(is4, bits[..ds[j].preflen]);
    }
    if Lookup(fib, a).Some? {
      var i := Lookup(fib, a).value;
      var m :| 0 <= m <= |bits| && Prefix(is4, bits[..m]) in fib && fib[Prefix(is4, bits[..m])] == i
               && forall k :: m < k <= |bits| ==> Prefix(is4, bits[..k]) !in fib;
      assert Pfx(rules, ds, i) == Prefix(is4, bits[..m]);
      PfxFacts(rules, ds, i);
    }
  }

  /** The entries visited from `at` on; links go to smaller entries only. */
  ghost function Chain(dpos: seq<AppDpo>, at: Option<nat>): seq<nat>
    requires forall i: nat :: i < |dpos| && dpos[i].next.Some? ==> dpos[i].next.value < i
    requires at.Some? ==> at.value < |dpos|
    decreases if at.Some? then at.value + 1 else 0
  {
    match at
    case None => []
    case Some(i) => [i] + Chain(dpos, dpos[i].next)
  }

  /** Links go to strictly smaller entries. */
  lemma LinksGoDown(rules: seq<Rule>, ds: seq<AppDpo>)
    requires Concrete(rules, ds) && Distinct(rules, ds)
    ensures var dpos := Link(rules, ds, |ds|).dpos;
            forall i: nat :: i < |dpos| && dpos[i].next.Some? ==> dpos[i].next.value < i
  {
    forall i: nat | i < |ds|
      ensures Link(rules, ds, |ds|).dpos[i].next.Some? ==> Link(rules, ds, |ds|).dpos[i].next.value < i
    {
      LinkKeeps(rules, ds, |ds|, i);
      LinkHolds(rules, ds, i);
      PfxFacts(rules, ds, i);
      LookupFinds(rules, ds, Link(rules, ds, i).fib, i, rules[ds[i].rule].src.address);
    }
  }

  /** Of two prefixes of one address, the one that is not longer contains the
      other's address too, and everything the other contains. */
  lemma NestedPrefixes(p: Prefix, q: Prefix, a: Address, b: Address)
    requires PrefixContains(q, a) && PrefixContains(q, b) && |p.bits| <= |q.bits|
    ensures PrefixContains(p, a) <==> PrefixContains(p, b)
  {
    assert Bits(a)[..|p.bits|] == q.bits[..|p.bits|] == Bits(b)[..|p.bits|];
  }

  lemma OwnPrefixContains(rules: seq<Rule>, ds: seq<AppDpo>, i: nat)
    requires Concrete(rules, ds) && i < |ds|
    ensures ds[i].rule < |rules| && rules[ds[i].rule].src.SrcNet?
    ensures PrefixContains(Pfx(rules, ds, i), rules[ds[i].rule].src.address)
  {
    PfxFacts(rules, ds, i);
  }

  /** From an entry that contains the address, the walk visits it and exactly
      the smaller entries that contain the address. */
  lemma {:induction false} ChainFrom(rules: seq<Rule>, ds: seq<AppDpo>, a: Address, i: nat)
    requires Concrete(rules, ds) && Distinct(rules, ds) && Sorted(ds)
    requires i < |ds| && PrefixContains(Pfx(rules, ds, i), a)
    ensures var dpos := Link(rules, ds, |ds|).dpos;
            && (forall k: nat :: k < |dpos| && dpos[k].next.Some? ==> dpos[k].next.value < k)
            && (forall j: nat :: j in Chain(dpos, Some(i)) <==> j <= i && PrefixContains(Pfx(rules, ds, j), a))
    decreases i
  {
    hide PrefixContains, Lookup, Link, Pfx, Distinct, Concrete;
    PfxFacts(rules, ds, i);
    LinksGoDown(rules, ds);
    var dpos := Link(rules, ds, |ds|).dpos;
    var src := rules[ds[i].rule].src.address;
    OwnPrefixContains(rules, ds, i);
    LinkKeeps(rules, ds, |ds|, i);
    LinkHolds(rules, ds, i);
    LookupFinds(rules, ds, Link(rules, ds, i).fib, i, src);
    forall j: nat | j < i ensures PrefixContains(Pfx(rules, ds, j), src) <==> PrefixContains(Pfx(rules, ds, j), a) {
      PfxFacts(rules, ds, j);
      NestedPrefixes(Pfx(rules, ds, j), Pfx(rules, ds, i), src, a);
    }
    if dpos[i].next.Some? {
      var k := dpos[i].next.value;
      ChainFrom(rules, ds, a, k);
      forall j: nat | k < j < i ensures !PrefixContains(Pfx(rules, ds, j), a) {
        if PrefixContains(Pfx(rules, ds, j), a) {
          SameLengthSamePrefix(rules, ds, a, k, j);
        }
      }
    }
  }

  lemma SameLengthSamePrefix(rules: seq<Rule>, ds: seq<AppDpo>, a: Address, k: nat, j: nat)
    requires Concrete(rules, ds) && Distinct(rules, ds) && Sorted(ds) && k < j < |ds|
    requires PrefixContains(Pfx(rules, ds, k), a) && PrefixContains(Pfx(rules, ds, j), a)
    ensures ds[k].preflen < ds[j].preflen
  {
    PfxFacts(rules, ds, k);
    PfxFacts(rules, ds, j);
    var p, q := Pfx(rules, ds, k), Pfx(rules, ds, j);
    assert ds[k].preflen == ds[j].preflen ==> p == q;
  }

  /** A lookup followed along the links visits exactly the entries whose prefix
      contains the address. */
  lemma WalkVisitsExactly(rules: seq<Rule>, ds: seq<AppDpo>, a: Address)
    requires Concrete(rules, ds) && Distinct(rules, ds) && Sorted(ds)
    ensures var x := Link(rules, ds, |ds|);
            && (forall k: nat :: k < |x.dpos| && x.dpos[k].next.Some? ==> x.dpos[k].next.value < k)
            && (Lookup(x.fib, a).Some? ==> Lookup(x.fib, a).value < |x.dpos|)
            && (forall j: nat :: j in Chain(x.dpos, Lookup(x.fib, a)) <==> j < |ds| && PrefixContains(Pfx(rules, ds, j), a))
  {
    var x := Link(rules, ds, |ds|);
    LinksGoDown(rules, ds);
    LinkHolds(rules, ds, |ds|);
    LookupFinds(rules, ds, x.fib, |ds|, a);
    if Lookup(x.fib, a).Some? {
      var i := Lookup(x.fib, a).value;
      ChainFrom(rules, ds, a, i);
      forall j: nat | i < j < |ds| ensures !PrefixContains(Pfx(rules, ds, j), a) {
        if PrefixContains(Pfx(rules, ds, j), a) {
          SameLengthSamePrefix(rules, ds, a, i, j);
        }
      }
    }
  }

  // ----- matching

  predicate InRange(port: nat, r: PortRange) {
    r.min <= port <= r.max
  }

  /** The rest of the rule: the destination test, whatever it is, and the port
      ranges. */
  predicate Passes(rules: seq<Rule>, r: nat, sport: nat, dport: nat, dstOk: nat -> bool) {
    r < |rules| && dstOk(r) && InRange(sport, rules[r].sport) && InRange(dport, rules[r].dport)
  }

  /** What a linear scan of the rules says. */
  ghost predicate ScanMatches(rules: seq<Rule>, a: Address, sport: nat, dport: nat, dstOk: nat -> bool) {
    exists r: nat :: r < |rules| && Contains(rules[r], a) && Passes(rules, r, sport, dport, dstOk)
  }

  /** Sorted by prefix length, the entries of exactly the concrete rules. */
  ghost predicate OrderOf(rules: seq<Rule>, ds: seq<AppDpo>) {
    Sorted(ds) && multiset(ds) == multiset(Entries(rules, |rules|))
  }

  lemma {:induction false} EntriesDistinct(rules: seq<Rule>, n: nat)
    requires n <= |rules|
    ensures DistinctRules(Entries(rules, n))
  {
    if n > 0 {
      EntriesDistinct(rules, n - 1);
      assert forall d :: d in Entries(rules, n - 1) ==> d.rule < n - 1;
    }
  }

  /** A rearrangement of pairwise different entries is one of pairwise different
      entries. */
  lemma OrderIsUsable(rules: seq<Rule>, ds: seq<AppDpo>)
    requires OrderOf(rules, ds) && forall r :: r in rules ==> ValidRule(r)
    ensures Concrete(rules, ds) && DistinctRules(ds)
    ensures forall r: nat :: r < |rules| && rules[r].src.SrcNet? ==> exists i: nat :: i < |ds| && ds[i].rule == r
  {
    var es := Entries(rules, |rules|);
    assert forall d :: d in ds <==> d in multiset(ds);
    assert forall d :: d in es <==> d in multiset(es);
    EntriesDistinct(rules, |rules|);
    forall i, j | 0 <= i < j < |ds| ensures ds[i].rule != ds[j].rule {
      assert ds[i] in es && ds[j] in es;
      if ds[i] == ds[j] {
        TwiceInSequence(ds, i, j);
        OnceInSequence(es, ds[i]);
      }
    }
    forall r: nat | r < |rules| && rules[r].src.SrcNet? ensures exists i: nat :: i < |ds| && ds[i].rule == r {
      EntriesCover(rules, |rules|, r);
      var d :| d in es && d.rule == r;
      assert d in ds;
    }
  }

  lemma TwiceInSequence(ds: seq<AppDpo>, i: nat, j: nat)
    requires i < j < |ds| && ds[i] == ds[j]
    ensures multiset(ds)[ds[i]] >= 2
  {
    assert ds == ds[..i] + [ds[i]] + ds[i + 1..j] + [ds[j]] + ds[j + 1..];
  }

  lemma OnceInSequence(es: seq<AppDpo>, d: AppDpo)
    requires DistinctRules(es)
    ensures multiset(es)[d] <= 1
  {
    if d in es {
      var k :| 0 <= k < |es| && es[k] == d;
      assert es == es[..k] + [d] + es[k + 1..];
      assert d !in es[..k] && d !in es[k + 1..];
    }
  }

  function MatchFrom(rules: seq<Rule>, dpos: seq<AppDpo>, at: Option<nat>, sport: nat, dport: nat, dstOk: nat -> bool): bool
    requires forall i: nat :: i < |dpos| && dpos[i].next.Some? ==> dpos[i].next.value < i
    requires at.Some? ==> at.value < |dpos|
    decreases if at.Some? then at.value + 1 else 0
  {
    match at
    case None => false
    case Some(i) =>
      Passes(rules, dpos[i].rule, sport, dport, dstOk) || MatchFrom(rules, dpos, dpos[i].next, sport, dport, dstOk)
  }

  lemma {:induction false} MatchIsOnChain(rules: seq<Rule>, dpos: seq<AppDpo>, at: Option<nat>, sport: nat, dport: nat, dstOk: nat -> bool)
    requires forall i: nat :: i < |dpos| && dpos[i].next.Some? ==> dpos[i].next.value < i
    requires at.Some? ==> at.value < |dpos|
    ensures forall i :: i in Chain(dpos, at) ==> i < |dpos|
    ensures MatchFrom(rules, dpos, at, sport, dport, dstOk)
        <==> exists i :: i in Chain(dpos, at) && Passes(rules, dpos[i].rule, sport, dport, dstOk)
    decreases if at.Some? then at.value + 1 else 0
  {
    if at.Some? {
      var i := at.value;
      MatchIsOnChain(rules, dpos, dpos[i].next, sport, dport, dstOk);
      var c := Chain(dpos, at);
      assert c == [i] + Chain(dpos, dpos[i].next);
      assert i in c;
      assert forall j :: j in Chain(dpos, dpos[i].next) ==> j in c;
    }
  }

  /** The i-th entry still names its rule, and its prefix is that rule's source. */
  lemma EntryIsRule(rules: seq<Rule>, ds: seq<AppDpo>, a: Address, i: nat)
    requires Concrete(rules, ds) && i < |ds|
    ensures Link(rules, ds, |ds|).dpos[i].rule == ds[i].rule < |rules|
    ensures PrefixContains(Pfx(rules, ds, i), a) <==> Contains(rules[ds[i].rule], a)
  {
    LinkKeeps(rules, ds, |ds|, i);
    PfxFacts(rules, ds, i);
  }

  lemma ContainsIsNet(r: Rule, a: Address)
    requires Contains(r, a)
    ensures r.src.SrcNet?
  {
  }

  /** If the visited entries are those that contain the address, some visited
      entry passes exactly when some rule does. */
  lemma VisitedPasses(rules: seq<Rule>, ds: seq<AppDpo>, visited: seq<nat>, a: Address, sport: nat, dport: nat, dstOk: nat -> bool)
    requires Concrete(rules, ds)
    requires forall r: nat :: r < |rules| && rules[r].src.SrcNet? ==> exists i: nat :: i < |ds| && ds[i].rule == r
    requires forall j: nat :: j in visited <==> j < |ds| && PrefixContains(Pfx(rules, ds, j), a)
    ensures (exists i :: i in visited && Passes(rules, Link(rules, ds, |ds|).dpos[i].rule, sport, dport, dstOk))
        <==> ScanMatches(rules, a, sport, dport, dstOk)
  {
    hide Contains, Passes, PrefixContains, Lookup, Link, Pfx;
    var dpos := Link(rules, ds, |ds|).dpos;
    if i :| i in visited && Passes(rules, dpos[i].rule, sport, dport, dstOk) {
      EntryIsRule(rules, ds, a, i);
      assert Contains(rules[ds[i].rule], a);
    }
    if ScanMatches(rules, a, sport, dport, dstOk) {
      var r: nat :| r < |rules| && Contains(rules[r], a) && Passes(rules, r, sport, dport, dstOk);
      ContainsIsNet(rules[r], a);
      var i: nat :| i < |ds| && ds[i].rule == r;
      EntryIsRule(rules, ds, a, i);
      assert i in visited;
    }
  }

  /** The index agrees with a linear scan of the rules, for every order the sort
      may leave equal prefix lengths in and every destination test. */
  lemma IndexAgreesWithScan(rules: seq<Rule>, ds: seq<AppDpo>, a: Address, sport: nat, dport: nat, dstOk: nat -> bool)
    requires OrderOf(rules, ds) && (forall r :: r in rules ==> ValidRule(r)) && DistinctPrefixes(rules)
    ensures Concrete(rules, ds)
    ensures var x := Link(rules, ds, |ds|);
            && (forall i: nat :: i < |x.dpos| && x.dpos[i].next.Some? ==> x.dpos[i].next.value < i)
            && (Lookup(x.fib, a).Some? ==> Lookup(x.fib, a).value < |x.dpos|)
            && (MatchFrom(rules, x.dpos, Lookup(x.fib, a), sport, dport, dstOk)
                <==> ScanMatches(rules, a, sport, dport, dstOk))
  {
    OrderIsUsable(rules, ds);
    DistinctEntries(rules, ds);
    hide Contains, Passes, PrefixContains, Lookup, Link, Pfx, OrderOf, Distinct, DistinctRules, DistinctPrefixes,
         ScanMatches, MatchFrom, Chain;
    WalkVisitsExactly(rules, ds, a);
    var x := Link(rules, ds, |ds|);
    var at := Lookup(x.fib, a);
    MatchIsOnChain(rules, x.dpos, at, sport, dport, dstOk);
    VisitedPasses(rules, ds, Chain(x.dpos, at), a, sport, dport, dstOk);
  }

  // ----- the application entry as the program updates it

  /** An insertion of d behind everything that is not longer. */
  function Insert(ds: seq<AppDpo>, d: AppDpo): seq<AppDpo> {
    if ds == [] || ds[|ds| - 1].preflen <= d.preflen then ds + [d]
    else Insert(ds[..|ds| - 1], d) + [ds[|ds| - 1]]
  }

  lemma SortedAppend(r: seq<AppDpo>, e: AppDpo)
    requires Sorted(r) && forall x :: x in r ==> x.preflen <= e.preflen
    ensures Sorted(r + [e])
  {
  }

  lemma SortedLast(ds: seq<AppDpo>)
    requires Sorted(ds) && ds != []
    ensures Sorted(ds[..|ds| - 1]) && forall x :: x in ds ==> x.preflen <= ds[|ds| - 1].preflen
    ensures forall x :: x in ds[..|ds| - 1] ==> x in ds
    ensures ds == ds[..|ds| - 1] + [ds[|ds| - 1]]
  {
  }

  lemma {:induction false} InsertSorts(ds: seq<AppDpo>, d: AppDpo)
    requires Sorted(ds)
    ensures Sorted(Insert(ds, d)) && multiset(Insert(ds, d)) == multiset(ds) + multiset{d}
    ensures forall e :: e in Insert(ds, d) ==> e in ds || e == d
  {
    if ds != [] {
      SortedLast(ds);
    }
    if ds == [] || ds[|ds| - 1].preflen <= d.preflen {
      SortedAppend(ds, d);
    } else {
      var k := |ds| - 1;
      var r := Insert(ds[..k], d);
      assert Insert(ds, d) == r + [ds[k]];
      InsertSorts(ds[..k], d);
      hide Sorted, Insert;
      SortedAppend(r, ds[k]);
      assert multiset(ds[..k] + [ds[k]]) == multiset(ds[..k]) + multiset{ds[k]};
    }
  }

  class AppEntry {
    var acl: seq<Rule>
    var appDpos: seq<AppDpo>
    var fib: Fib
    ghost var order: seq<AppDpo>

    ghost predicate Indexed()
      reads this
    {
      OrderOf(acl, order) && Concrete(acl, order) && Index(appDpos, fib) == Link(acl, order, |order|)
    }

    /** The entries of the concrete rules, shorter prefixes first. */
    method SortedEntries() returns (sorted: seq<AppDpo>)
      ensures OrderOf(acl, sorted)
    {
      var entries := [];
      for i := 0 to |acl|
        invariant entries == Entries(acl, i)
      {
        match acl[i].src
        case SrcAssigned =>
        case SrcNet(_, mask) => entries := entries + [AppDpo(i, None, mask)];
      }
      sorted := [];
      assert Sorted(sorted);
      hide Entries, Sorted;
      for i := 0 to |entries|
        invariant Sorted(sorted) && multiset(sorted) == multiset(entries[..i])
      {
        assert entries[..i + 1] == entries[..i] + [entries[i]];
        InsertSorts(sorted, entries[i]);
        sorted := Insert(sorted, entries[i]);
      }
      assert entries[..|entries|] == entries;
    }

    /** Builds the index of an entry that has none yet. */
    method EnsureAppFib()
      requires if appDpos == [] then fib == map[] else Indexed()
      requires forall r :: r in acl ==> ValidRule(r)
      modifies this
      ensures acl == old(acl) && Indexed()
      ensures old(appDpos) != [] ==> appDpos == old(appDpos) && fib == old(fib)
    {
      if acl == [] || appDpos != [] {
        if appDpos == [] {
          order := [];
        }
        return;
      }
      var sorted := SortedEntries();
      order := sorted;
      OrderIsUsable(acl, order);
      hide *;
      LinkEntries(sorted);
    }

    /** Links each entry to what its own address finds, and enters it. */
    method LinkEntries(sorted: seq<AppDpo>)
      requires appDpos == [] && fib == map[] && sorted == order && Concrete(acl, order)
      modifies this`appDpos, this`fib
      ensures Index(appDpos, fib) == Link(acl, order, |order|)
    {
      assert Link(acl, order, 0) == Index([], map[]);
      hide Lookup, PrefixOf, Link;
      for i := 0 to |sorted|
        invariant Index(appDpos, fib) == Link(acl, order, i)
      {
        LinkNext(acl, order, i);
        var rule := acl[sorted[i].rule];
        var next := Lookup(fib, rule.src.address);
        appDpos := appDpos + [sorted[i].(next := next)];
        fib := fib[PrefixOf(rule) := i];
      }
    }

    /** Whether some rule matches, found by one lookup and a walk. */
    method DoIpRuleMatch(src: Address, sport: nat, dport: nat, dstOk: nat -> bool) returns (found: bool)
      requires Indexed() && (forall r :: r in acl ==> ValidRule(r)) && DistinctPrefixes(acl)
      ensures found <==> ScanMatches(acl, src, sport, dport, dstOk)
    {
      IndexAgreesWithScan(acl, order, src, sport, dport, dstOk);
      hide ScanMatches, OrderOf, DistinctPrefixes, Link;
      var at := Lookup(fib, src);
      ghost var start := at;
      while at.Some?
        invariant at.Some? ==> at.value < |appDpos|
        invariant MatchFrom(acl, appDpos, at, sport, dport, dstOk) == MatchFrom(acl, appDpos, start, sport, dport, dstOk)
        decreases if at.Some? then at.value + 1 else 0
      {
        var dpo := appDpos[at.value];
        if dpo.rule < |acl| && dstOk(dpo.rule) {
          if InRange(sport, acl[dpo.rule].sport) && InRange(dport, acl[dpo.rule].dport) {
            return true;
          }
        }
        at := dpo.next;
      }
      return false;
    }
  }
}
