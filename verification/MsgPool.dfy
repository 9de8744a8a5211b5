/** The pool of PFCP messages: a freed message is parked on a deferred list and
    becomes available again only when the server loop starts its next round. */
module MsgPool {
  import opened Pools

  const CACHE_MAX := 128

  /** The pool, the indices ready for reuse, those freed in this round, and the
      messages whose validity mark is set. */
  datatype State = State(pool: Pool, cache: seq<nat>, free: seq<nat>, valid: set<nat>)

  function Last(s: seq<nat>): nat
    requires s != []
  {
    s[|s| - 1]
  }

  function Front(s: seq<nat>): seq<nat>
    requires s != []
  {
    s[..|s| - 1]
  }

  /** Freed messages fill the cache up. */
  function Refill(s: State): State
    decreases |s.free|
  {
    if |s.cache| < CACHE_MAX && s.free != []
    then Refill(s.(cache := s.cache + [Last(s.free)], free := Front(s.free)))
    else s
  }

  /** The first n of the remaining ones go back to the pool. */
  function PutBack(pool: Pool, free: seq<nat>, n: nat): Pool
    requires n <= |free|
  {
    if n == 0 then pool else PutBack(pool, free, n - 1).Put(free[n - 1])
  }

  function LoopStart(s: State): State {
    var r := Refill(s);
    State(PutBack(r.pool, r.free, |r.free|), r.cache, [], r.valid)
  }

  /** The message handed out next. */
  function NextMessage(s: State): nat {
    if s.cache != [] then Last(s.cache) else s.pool.NextIndex()
  }

  function Get(s: State): State {
    var valid := s.valid + {NextMessage(s)};
    if s.cache != [] then s.(cache := Front(s.cache), valid := valid) else s.(pool := s.pool.Get(), valid := valid)
  }

  function Put(s: State, i: nat): State {
    s.(valid := s.valid - {i}, free := s.free + [i])
  }

  // ----- conservation

  /** Live, cached and deferred messages are different and make up what the pool
      has handed out. */
  ghost predicate Parts(s: State) {
    && s.pool.Valid() && NoDup(s.cache) && NoDup(s.free)
    && Elements(s.cache) !! Elements(s.free) && Elements(s.cache) !! s.valid && Elements(s.free) !! s.valid
    && s.pool.Used() == Elements(s.cache) + Elements(s.free) + s.valid
  }

  ghost predicate Inv(s: State) {
    Parts(s) && |s.cache| <= CACHE_MAX
  }

  lemma {:induction false} RefillInv(s: State)
    requires Inv(s)
    ensures Inv(Refill(s)) && Refill(s).valid == s.valid && Refill(s).pool == s.pool
    ensures Refill(s).free == [] || |Refill(s).cache| == CACHE_MAX
    decreases |s.free|
  {
    if |s.cache| < CACHE_MAX && s.free != [] {
      var x := Last(s.free);
      var t := s.(cache := s.cache + [x], free := Front(s.free));
      NoDupPop(s.free);
      assert x in Elements(s.free);
      assert x !in Elements(s.cache);
      NoDupSnoc(s.cache, x);
      hide Elements, NoDup;
      RefillInv(t);
    }
  }

  lemma {:induction false} PutBackSpec(pool: Pool, free: seq<nat>, n: nat)
    requires pool.Valid() && NoDup(free) && n <= |free| && Elements(free) <= pool.Used()
    ensures PutBack(pool, free, n).Valid() && PutBack(pool, free, n).Used() == pool.Used() - Elements(free[..n])
  {
    if n == 0 {
      assert Elements(free[..0]) == {};
    } else {
      PutBackSpec(pool, free, n - 1);
      var x := free[n - 1];
      PrefixGrows(free, n);
      assert x in Elements(free);
      hide Elements, NoDup;
      PoolPut(PutBack(pool, free, n - 1), x);
    }
  }

  lemma PrefixGrows(free: seq<nat>, n: nat)
    requires NoDup(free) && 0 < n <= |free|
    ensures Elements(free[..n]) == Elements(free[..n - 1]) + {free[n - 1]} && free[n - 1] !in Elements(free[..n - 1])
  {
    assert free[..n] == free[..n - 1] + [free[n - 1]];
    NoDupSnoc(free[..n - 1], free[n - 1]);
  }

  lemma LoopStartInv(s: State)
    requires Inv(s)
    ensures Inv(LoopStart(s)) && LoopStart(s).valid == s.valid && LoopStart(s).free == []
  {
    RefillInv(s);
    var r := Refill(s);
    PutBackSpec(r.pool, r.free, |r.free|);
    assert r.free[..|r.free|] == r.free;
    assert NoDup(LoopStart(s).free);
    assert Elements(LoopStart(s).free) == {};
    hide Refill, PutBack, NoDup, Elements;
  }

  lemma GetInv(s: State)
    requires Inv(s)
    ensures Inv(Get(s)) && NextMessage(s) !in s.valid && NextMessage(s) !in s.free
    ensures Get(s).valid == s.valid + {NextMessage(s)} && Get(s).free == s.free
  {
    var x := NextMessage(s);
    assert forall i :: i in s.free <==> i in Elements(s.free);
    if s.cache != [] {
      NoDupPop(s.cache);
      assert x in Elements(s.cache);
    } else {
      PoolGet(s.pool);
    }
    hide Elements, NoDup;
  }

  lemma PutInv(s: State, i: nat)
    requires Inv(s) && i in s.valid
    ensures Inv(Put(s, i))
  {
    assert i in s.free ==> i in Elements(s.free);
    NoDupSnoc(s.free, i);
    hide Elements, NoDup;
  }

  /** The free-index test tells a message that was put back from a live one; an
      index that is free in the pool itself it reports as taken. */
  function IsFreeIndex(s: State, i: nat): bool {
    i < s.pool.len && i !in s.pool.free && i !in s.valid
  }

  lemma FreeIndexMeaning(s: State, i: nat)
    requires Inv(s)
    ensures IsFreeIndex(s, i) <==> i in s.cache || i in s.free
    ensures (IsFreeIndex(s, i) <==> i !in s.valid) <==> i in s.pool.Used()
  {
    assert i in s.pool.Used() <==> i in Elements(s.cache) + Elements(s.free) + s.valid;
  }

  // ----- runs

  datatype Event = Start | Take | Give(index: nat)

  /** Only a live message is given back; the program asserts it. */
  function Step(s: State, e: Event): State {
    match e
    case Start => LoopStart(s)
    case Take => Get(s)
    case Give(i) => if i in s.valid then Put(s, i) else s
  }

  function Run(s: State, events: seq<Event>): State {
    if events == [] then s else Step(Run(s, events[..|events| - 1]), events[|events| - 1])
  }

  const EMPTY := State(Pool(0, []), [], [], {})

  lemma StepInv(s: State, e: Event)
    requires Inv(s)
    ensures Inv(Step(s, e))
  {
    match e {
      case Start => LoopStartInv(s);
      case Take => GetInv(s);
      case Give(i) => if i in s.valid { PutInv(s, i); }
    }
  }

  /** Over any run the parts of the pool stay a partition and the cache bounded. */
  lemma {:induction false} RunInv(s: State, events: seq<Event>)
    requires Inv(s)
    ensures Inv(Run(s, events))
    decreases |events|
  {
    if events != [] {
      RunInv(s, events[..|events| - 1]);
      StepInv(Run(s, events[..|events| - 1]), events[|events| - 1]);
    }
  }

  /** A message given back stays parked, and no take of the same round hands it
      out, whatever else happens before the next round starts. */
  lemma {:induction false} NoEarlyReuse(s: State, i: nat, events: seq<Event>)
    requires Inv(s) && i in s.free && Start !in events
    ensures i in Run(s, events).free && i !in Run(s, events).valid
    ensures forall k :: 0 <= k < |events| && events[k] == Take ==> NextMessage(Run(s, events[..k])) != i
    decreases |events|
  {
    RunInv(s, events);
    if events != [] {
      var k := |events| - 1;
      var t := Run(s, events[..k]);
      NoEarlyReuse(s, i, events[..k]);
      RunInv(s, events[..k]);
      assert events[k] in events;
      match events[k] {
        case Take => GetInv(t);
        case Give(j) =>
        case Start => assert false;
      }
      forall m | 0 <= m < |events| && events[m] == Take ensures NextMessage(Run(s, events[..m])) != i {
        if m < k {
          assert events[..k][..m] == events[..m];
        }
      }
    }
    assert i in Elements(Run(s, events).free);
  }

  // ----- the pool as the server updates it

  class MessagePool {
    var pool: Pool
    var cache: seq<nat>
    var free: seq<nat>
    var valid: set<nat>

    function Contents(): State
      reads this
    {
      State(pool, cache, free, valid)
    }

    ghost predicate Valid()
      reads this
    {
      Inv(Contents())
    }

    constructor ()
      ensures Contents() == EMPTY && Valid()
    {
      pool, cache, free, valid := Pool(0, []), [], [], {};
    }

    method StartLoop()
      requires Valid()
      modifies this
      ensures Valid() && Contents() == LoopStart(old(Contents()))
    {
      LoopStartInv(Contents());
      hide Inv;
      while |cache| < CACHE_MAX && free != []
        invariant Refill(Contents()) == Refill(old(Contents()))
        decreases |free|
      {
        cache := cache + [Last(free)];
        free := Front(free);
      }
      ghost var r := Contents();
      if free != [] {
        for i := 0 to |free|
          invariant Contents() == r.(pool := PutBack(r.pool, r.free, i))
        {
          pool := pool.Put(free[i]);
        }
        free := [];
      }
    }

    method Take() returns (i: nat)
      requires Valid()
      modifies this
      ensures Valid() && i == NextMessage(old(Contents())) && Contents() == Get(old(Contents()))
    {
      GetInv(Contents());
      hide Inv;
      if cache != [] {
        i := Last(cache);
        cache := Front(cache);
      } else {
        i := pool.NextIndex();
        pool := pool.Get();
      }
      valid := valid + {i};
    }

    method Give(i: nat)
      requires Valid() && i in valid
      modifies this
      ensures Valid() && Contents() == Put(old(Contents()), i)
    {
      PutInv(Contents(), i);
      valid := valid - {i};
      free := free + [i];
    }
  }
}
