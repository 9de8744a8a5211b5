/** The index pool that the flow table, the timer elements and the message
    pool are allocated from: a length that only grows and a stack of free
    indices.  Getting an element pops the last free index, or extends the
    pool by one; putting an element back pushes its index. */
module Pools {

  ghost predicate NoDup<T>(s: seq<T>) {
    forall i, j :: 0 <= i < j < |s| ==> s[i] != s[j]
  }

  ghost function Elements<T>(s: seq<T>): set<T> {
    set x | x in s
  }

  lemma NoDupSnoc<T>(s: seq<T>, x: T)
    requires NoDup(s) && x !in s
    ensures NoDup(s + [x])
    ensures Elements(s + [x]) == Elements(s) + {x}
  {
  }

  lemma NoDupPop<T>(s: seq<T>)
    requires NoDup(s) && s != []
    ensures NoDup(s[..|s| - 1]) && s[|s| - 1] !in s[..|s| - 1]
    ensures Elements(s[..|s| - 1]) == Elements(s) - {s[|s| - 1]}
  {
    var k := |s| - 1;
    assert s == s[..k] + [s[k]];
  }

  lemma NoDupCardinality<T>(s: seq<T>)
    requires NoDup(s)
    ensures |Elements(s)| == |s|
    decreases |s|
  {
    if s == [] {
      assert Elements(s) == {};
    } else {
      NoDupPop(s);
      NoDupCardinality(s[..|s| - 1]);
      assert Elements(s) == Elements(s[..|s| - 1]) + {s[|s| - 1]};
    }
  }

  datatype Pool = Pool(len: nat, free: seq<nat>) {

    ghost predicate Valid() {
      NoDup(free) && forall i :: i in free ==> i < len
    }

    ghost function Used(): set<nat> {
      set i: nat | i < len && i !in free
    }

    /** The next index handed out by `pool_get`. */
    function NextIndex(): nat {
      if free == [] then len else free[|free| - 1]
    }

    function Get(): Pool {
      if free == [] then Pool(len + 1, []) else Pool(len, free[..|free| - 1])
    }

    function Put(i: nat): Pool {
      Pool(len, free + [i])
    }
  }

  lemma PoolGet(p: Pool)
    requires p.Valid()
    ensures p.Get().Valid()
    ensures p.NextIndex() !in p.Used()
    ensures p.Get().Used() == p.Used() + {p.NextIndex()}
    ensures |p.Get().Used()| == |p.Used()| + 1
  {
    if p.free != [] {
      NoDupPop(p.free);
      assert p.free == p.Get().free + [p.NextIndex()];
      assert forall i :: i in p.free <==> i in p.Get().free || i == p.NextIndex();
    }
    assert p.Get().Used() == p.Used() + {p.NextIndex()};
  }

  lemma PoolPut(p: Pool, i: nat)
    requires p.Valid() && i in p.Used()
    ensures p.Put(i).Valid()
    ensures p.Put(i).Used() == p.Used() - {i}
    ensures |p.Put(i).Used()| == |p.Used()| - 1
  {
    NoDupSnoc(p.free, i);
    assert p.Put(i).Used() == p.Used() - {i};
  }
}
