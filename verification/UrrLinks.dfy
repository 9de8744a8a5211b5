/** Linked usage: each usage reporting rule names the rules it is linked to;
    the link map turns this around, so that every rule knows who links to it. */
module UrrLinks {
  import opened Options

  const ID_SIZE := 0x1_0000

  /** A rule's 16-bit id and the 32-bit ids it is linked to. */
  datatype Urr = Urr(id: nat, linked: seq<nat>)

  ghost predicate Increasing(ids: seq<nat>) {
    forall i, j :: 0 <= i < j < |ids| ==> ids[i] < ids[j]
  }

  /** Binary search. */
  method FindId(ids: seq<nat>, id: nat) returns (found: Option<nat>)
    requires Increasing(ids)
    ensures found.Some? ==> found.value < |ids| && ids[found.value] == id
    ensures found.None? ==> id !in ids
  {
    var lo, hi := 0, |ids|;
    while lo < hi
      invariant 0 <= lo <= hi <= |ids|
      invariant forall i :: 0 <= i < lo ==> ids[i] < id
      invariant forall i :: hi <= i < |ids| ==> ids[i] > id
    {
      var mid := (lo + hi) / 2;
      if ids[mid] == id {
        return Some(mid);
      } else if id < ids[mid] {
        hi := mid;
      } else {
        lo := mid + 1;
      }
    }
    return None;
  }

  /** Sorted by unique 16-bit ids. */
  ghost predicate SortedById(urrs: seq<Urr>) {
    Increasing(Ids(urrs)) && forall i :: 0 <= i < |urrs| ==> urrs[i].id < ID_SIZE
  }

  function IdsBy<T>(us: seq<T>, id: T -> nat): (ids: seq<nat>)
    ensures |ids| == |us| && forall i :: 0 <= i < |us| ==> ids[i] == id(us[i])
  {
    seq(|us|, i requires 0 <= i < |us| => id(us[i]))
  }

  function Ids(urrs: seq<Urr>): seq<nat> {
    IdsBy(urrs, (u: Urr) => u.id)
  }

  /** The id a link is looked up by: the lookup takes 16 bits. */
  function LookedUp(id: nat): nat {
    id % ID_SIZE
  }

  /** Rule i links to rule j, as the lookup sees it. */
  ghost predicate Links(urrs: seq<Urr>, i: nat, j: nat)
    requires i < |urrs| && j < |urrs|
  {
    exists id :: id in urrs[i].linked && LookedUp(id) == urrs[j].id
  }

  ghost predicate LinksIn(urrs: seq<Urr>, linked: seq<nat>, j: nat)
    requires j < |urrs|
  {
    exists id :: id in linked && LookedUp(id) == urrs[j].id
  }

  lemma LinksInSnoc(urrs: seq<Urr>, linked: seq<nat>, id: nat, j: nat)
    requires j < |urrs|
    ensures LinksIn(urrs, linked + [id], j) <==> LinksIn(urrs, linked, j) || LookedUp(id) == urrs[j].id
  {
    if LinksIn(urrs, linked, j) {
      var x :| x in linked && LookedUp(x) == urrs[j].id;
      assert x in linked + [id];
    }
    if LookedUp(id) == urrs[j].id {
      assert id in linked + [id];
    }
  }

  /** The bitmaps of all rules: bit i of map j. */
  type Bitmaps = seq<set<nat>>

  /** Builds the map from empty bitmaps: bit i of rule j is set exactly when
      rule i links to rule j. */
  method BuildUrrLinkMap(urrs: seq<Urr>) returns (maps: Bitmaps)
    requires SortedById(urrs)
    ensures |maps| == |urrs|
    ensures forall i: nat, j: nat :: j < |urrs| ==> (i in maps[j] <==> i < |urrs| && Links(urrs, i, j))
  {
    maps := seq(|urrs|, _ => {});
    for idx := 0 to |urrs|
      invariant |maps| == |urrs|
      invariant forall i: nat, j: nat :: j < |urrs| ==> (i in maps[j] <==> i < idx && Links(urrs, i, j))
    {
      ghost var before := maps;
      maps := LinkOne(urrs, idx, maps);
      forall i: nat, j: nat | j < |urrs| ensures i in maps[j] <==> i < idx + 1 && Links(urrs, i, j) {
        assert i in before[j] <==> i < idx && Links(urrs, i, j);
      }
    }
  }

  method LinkOne(urrs: seq<Urr>, idx: nat, before: Bitmaps) returns (maps: Bitmaps)
    requires SortedById(urrs) && idx < |urrs| == |before|
    ensures |maps| == |urrs|
    ensures forall i: nat, j: nat :: j < |urrs| ==> (i in maps[j] <==> i in before[j] || (i == idx && Links(urrs, idx, j)))
  {
    maps := before;
    var linked := urrs[idx].linked;
    for k := 0 to |linked|
      invariant |maps| == |urrs|
      invariant forall i: nat, j: nat :: j < |urrs| ==> (i in maps[j] <==> i in before[j] || (i == idx && LinksIn(urrs, linked[..k], j)))
    {
      assert linked[..k + 1] == linked[..k] + [linked[k]];
      forall j: nat | j < |urrs|
        ensures LinksIn(urrs, linked[..k + 1], j) <==> LinksIn(urrs, linked[..k], j) || LookedUp(linked[k]) == urrs[j].id
      {
        LinksInSnoc(urrs, linked[..k], linked[k], j);
      }
      hide LinksIn;
      var l := FindId(Ids(urrs), LookedUp(linked[k]));
      if l.Some? {
        maps := maps[l.value := maps[l.value] + {idx}];
      }
    }
    assert linked[..|linked|] == linked;
  }

  /** What the map is meant to be: the transpose of the links as they stand. */
  ghost predicate Transposed(urrs: seq<Urr>, maps: Bitmaps)
    requires |maps| == |urrs|
  {
    forall i: nat, j: nat :: j < |urrs| ==> (i in maps[j] <==> i < |urrs| && urrs[j].id in urrs[i].linked)
  }

  /** A link to an id of more than 16 bits whose low half is the id of a rule
      that is not linked itself. */
  ghost predicate Aliases(urrs: seq<Urr>, i: nat, j: nat)
    requires i < |urrs| && j < |urrs|
  {
    urrs[j].id !in urrs[i].linked && exists id :: id in urrs[i].linked && id >= ID_SIZE && LookedUp(id) == urrs[j].id
  }

  lemma LinksExactly(urrs: seq<Urr>, i: nat, j: nat)
    requires SortedById(urrs) && i < |urrs| && j < |urrs|
    ensures (Links(urrs, i, j) <==> urrs[j].id in urrs[i].linked) <==> !Aliases(urrs, i, j)
  {
    if urrs[j].id in urrs[i].linked {
      assert LookedUp(urrs[j].id) == urrs[j].id;
    } else if Links(urrs, i, j) {
      var id :| id in urrs[i].linked && LookedUp(id) == urrs[j].id;
      assert id >= ID_SIZE;
    }
  }

  /** The map is the exact transpose if and only if no link is an alias; ids of
      16 bits never are. */
  lemma TransposeExactly(urrs: seq<Urr>, maps: Bitmaps)
    requires SortedById(urrs) && |maps| == |urrs|
    requires forall i: nat, j: nat :: j < |urrs| ==> (i in maps[j] <==> i < |urrs| && Links(urrs, i, j))
    ensures Transposed(urrs, maps) <==> forall i: nat, j: nat :: i < |urrs| && j < |urrs| ==> !Aliases(urrs, i, j)
  {
    forall i: nat, j: nat | i < |urrs| && j < |urrs|
      ensures (i in maps[j] <==> urrs[j].id in urrs[i].linked) <==> !Aliases(urrs, i, j)
    {
      LinksExactly(urrs, i, j);
    }
    hide Links, Aliases, SortedById;
    if forall i: nat, j: nat :: i < |urrs| && j < |urrs| ==> !Aliases(urrs, i, j) {
      forall i: nat, j: nat | j < |urrs| ensures i in maps[j] <==> i < |urrs| && urrs[j].id in urrs[i].linked {
        if i < |urrs| {
          assert !Aliases(urrs, i, j);
        }
      }
    }
  }

  /** Rule 5 links to id 0x10005, which is no rule: the map that is built says
      that rule 5 links to itself. */
  lemma WideLinkAliases(maps: Bitmaps)
    requires var urrs := [Urr(5, [0x1_0005])];
             && |maps| == |urrs|
             && forall i: nat, j: nat :: j < |urrs| ==> (i in maps[j] <==> i < |urrs| && Links(urrs, i, j))
    ensures var urrs := [Urr(5, [0x1_0005])];
            SortedById(urrs) && 0 in maps[0] && urrs[0].id !in urrs[0].linked && !Transposed(urrs, maps)
  {
    var urrs := [Urr(5, [0x1_0005])];
    assert 0x1_0005 in urrs[0].linked && LookedUp(0x1_0005) == 5;
    assert Aliases(urrs, 0, 0);
    TransposeExactly(urrs, maps);
  }
}
