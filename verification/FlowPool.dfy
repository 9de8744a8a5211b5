/** The flow entries shared by all CPUs: one pool, a count of the entries that
    were handed out, and a cache of spare indices per CPU.  A CPU refills an
    empty cache from the pool and gives part of an overfull one back. */
module FlowPool {
  import opened Options
  import opened Pools

  const FLOW_CACHE_SZ := 256

  datatype State = State(pool: Pool, flowsCpt: int, flowsMax: nat, caches: seq<seq<nat>>)

  function CacheAdd(s: State, k: nat, i: nat): State
    requires k < |s.caches|
  {
    s.(caches := s.caches[k := s.caches[k] + [i]])
  }

  function CachePop(s: State, k: nat): State
    requires k < |s.caches| && s.caches[k] != []
  {
    s.(caches := s.caches[k := s.caches[k][..|s.caches[k]| - 1]])
  }

  function CacheTop(s: State, k: nat): nat
    requires k < |s.caches| && s.caches[k] != []
  {
    s.caches[k][|s.caches[k]| - 1]
  }

  /** Moves n entries from the pool to the cache of CPU k. */
  function TakeN(s: State, k: nat, n: nat): (t: State)
    requires k < |s.caches|
    ensures |t.caches| == |s.caches| && t.flowsMax == s.flowsMax && t.flowsCpt == s.flowsCpt
    decreases n, k
  {
    if n == 0 then s
    else TakeN(CacheAdd(s.(pool := s.pool.Get()), k, s.pool.NextIndex()), k, n - 1)
  }

  /** Moves n entries from the cache of CPU k back to the pool. */
  function ReleaseN(s: State, k: nat, n: nat): (t: State)
    requires k < |s.caches| && n <= |s.caches[k]|
    ensures |t.caches| == |s.caches| && t.flowsMax == s.flowsMax && t.flowsCpt == s.flowsCpt
    decreases n, k
  {
    if n == 0 then s
    else ReleaseN(CachePop(s, k).(pool := s.pool.Put(CacheTop(s, k))), k, n - 1)
  }

  function Filled(s: State, k: nat): State
    requires k < |s.caches|
  {
    if s.flowsCpt > s.flowsMax then s
    else
      var t := TakeN(s, k, FLOW_CACHE_SZ);
      t.(flowsCpt := t.flowsCpt + FLOW_CACHE_SZ)
  }

  function Emptied(s: State, k: nat): State
    requires k < |s.caches|
  {
    var len := |s.caches[k]|;
    var t := ReleaseN(s, k, if len > FLOW_CACHE_SZ + 1 then len - 1 - FLOW_CACHE_SZ else 0);
    t.(flowsCpt := t.flowsCpt - FLOW_CACHE_SZ)
  }

  /** Allocation for CPU k: the new state and the entry, if there was one. */
  function Allocated(s: State, k: nat): (State, Option<nat>)
    requires k < |s.caches|
  {
    var t := if s.caches[k] == [] then Filled(s, k) else s;
    if t.caches[k] == [] then (t, None) else (CachePop(t, k), Some(CacheTop(t, k)))
  }

  function Freed(s: State, k: nat, i: nat): State
    requires k < |s.caches|
  {
    var t := CacheAdd(s, k, i);
    if |t.caches[k]| > 2 * FLOW_CACHE_SZ then Emptied(t, k) else t
  }

  lemma FreedShape(s: State, k: nat, i: nat)
    requires k < |s.caches|
    ensures |Freed(s, k, i).caches| == |s.caches|
  {
  }

  // ----- ownership

  /** CPU k has index i, as a spare or as a live flow. */
  ghost predicate Holds(caches: seq<seq<nat>>, live: seq<set<nat>>, k: nat, i: nat) {
    k < |caches| && k < |live| && (i in caches[k] || i in live[k])
  }

  /** Every index is pool-free or in exactly one place: the cache or the live
      set of exactly one CPU. */
  ghost predicate Partition(pool: Pool, caches: seq<seq<nat>>, live: seq<set<nat>>) {
    && pool.Valid()
    && |caches| == |live|
    && (forall k :: 0 <= k < |live| ==> NoDup(caches[k]))
    && (forall k, i :: 0 <= k < |live| && i in caches[k] ==> i !in live[k])
    && (forall j: nat, k: nat, i: nat :: Holds(caches, live, j, i) && Holds(caches, live, k, i) ==> j == k)
    && (forall k: nat, i: nat :: Holds(caches, live, k, i) ==> i in pool.Used())
    && (forall i: nat :: i in pool.Used() ==> exists k: nat :: Holds(caches, live, k, i))
  }

  ghost predicate Accounted(s: State) {
    && s.flowsCpt == |s.pool.Used()|
    && s.flowsCpt % FLOW_CACHE_SZ == 0
    && (s.flowsCpt <= s.flowsMax + FLOW_CACHE_SZ || s.flowsCpt <= FLOW_CACHE_SZ * |s.caches|)
    && forall k :: 0 <= k < |s.caches| ==> |s.caches[k]| <= 2 * FLOW_CACHE_SZ
  }

  ghost predicate Inv(s: State, live: seq<set<nat>>) {
    Partition(s.pool, s.caches, live) && Accounted(s)
  }

  /** Changing what CPU k holds keeps the partition when the pool changes by
      exactly what k gained and lost. */
  lemma Repartition(s: State, live: seq<set<nat>>, t: State, live': seq<set<nat>>, k: nat)
    requires Partition(s.pool, s.caches, live) && k < |live|
    requires t.pool.Valid() && |t.caches| == |live'| == |live|
    requires forall j :: 0 <= j < |live| && j != k ==> t.caches[j] == s.caches[j] && live'[j] == live[j]
    requires NoDup(t.caches[k]) && forall i :: i in t.caches[k] ==> i !in live'[k]
    requires forall i: nat :: i in t.pool.Used() <==>
               Holds(t.caches, live', k, i) || (i in s.pool.Used() && !Holds(s.caches, live, k, i))
    requires forall i: nat :: Holds(t.caches, live', k, i) && i in s.pool.Used() ==> Holds(s.caches, live, k, i)
    ensures Partition(t.pool, t.caches, live')
  {
    forall j: nat, i: nat | j != k && Holds(t.caches, live', j, i)
      ensures Holds(s.caches, live, j, i) && !Holds(s.caches, live, k, i) && !Holds(t.caches, live', k, i) && i in t.pool.Used()
    {
      assert Holds(s.caches, live, j, i);
    }
    forall i: nat | i in t.pool.Used() && !Holds(t.caches, live', k, i)
      ensures exists j: nat :: Holds(t.caches, live', j, i)
    {
      var j: nat :| Holds(s.caches, live, j, i);
      assert Holds(t.caches, live', j, i);
    }
  }

  lemma TakeOne(s: State, live: seq<set<nat>>, k: nat)
    requires Partition(s.pool, s.caches, live) && k < |live|
    ensures var t := CacheAdd(s.(pool := s.pool.Get()), k, s.pool.NextIndex());
            Partition(t.pool, t.caches, live) && |t.pool.Used()| == |s.pool.Used()| + 1
  {
    var i := s.pool.NextIndex();
    var t := CacheAdd(s.(pool := s.pool.Get()), k, i);
    PoolGet(s.pool);
    assert forall x: nat :: Holds(s.caches, live, k, x) ==> x in s.pool.Used();
    NoDupSnoc(s.caches[k], i);
    assert !Holds(s.caches, live, k, i);
    assert forall x: nat :: Holds(t.caches, live, k, x) <==> Holds(s.caches, live, k, x) || x == i;
    Repartition(s, live, t, live, k);
  }

  lemma {:induction false} TakeMany(s: State, live: seq<set<nat>>, k: nat, n: nat)
    requires Partition(s.pool, s.caches, live) && k < |live|
    ensures var t := TakeN(s, k, n);
            && Partition(t.pool, t.caches, live)
            && |t.pool.Used()| == |s.pool.Used()| + n
            && |t.caches[k]| == |s.caches[k]| + n
            && (forall j :: 0 <= j < |live| && j != k ==> t.caches[j] == s.caches[j])
            && t.flowsCpt == s.flowsCpt && t.flowsMax == s.flowsMax
    decreases n
  {
    if n > 0 {
      TakeOne(s, live, k);
      TakeMany(CacheAdd(s.(pool := s.pool.Get()), k, s.pool.NextIndex()), live, k, n - 1);
    }
  }

  lemma ReleaseOne(s: State, live: seq<set<nat>>, k: nat)
    requires Partition(s.pool, s.caches, live) && k < |live| && s.caches[k] != []
    ensures var t := CachePop(s, k).(pool := s.pool.Put(CacheTop(s, k)));
            Partition(t.pool, t.caches, live) && |t.pool.Used()| == |s.pool.Used()| - 1
  {
    var i := CacheTop(s, k);
    var t := CachePop(s, k).(pool := s.pool.Put(i));
    assert Holds(s.caches, live, k, i);
    PoolPut(s.pool, i);
    NoDupPop(s.caches[k]);
    assert s.caches[k] == t.caches[k] + [i];
    assert forall x: nat :: Holds(t.caches, live, k, x) <==> Holds(s.caches, live, k, x) && x != i;
    Repartition(s, live, t, live, k);
  }

  lemma {:induction false} ReleaseMany(s: State, live: seq<set<nat>>, k: nat, n: nat)
    requires Partition(s.pool, s.caches, live) && k < |live| && n <= |s.caches[k]|
    ensures var t := ReleaseN(s, k, n);
            && Partition(t.pool, t.caches, live)
            && |t.pool.Used()| == |s.pool.Used()| - n
            && |t.caches[k]| == |s.caches[k]| - n
            && (forall j :: 0 <= j < |live| && j != k ==> t.caches[j] == s.caches[j])
            && t.flowsCpt == s.flowsCpt && t.flowsMax == s.flowsMax
    decreases n
  {
    if n > 0 {
      ReleaseOne(s, live, k);
      ReleaseMany(CachePop(s, k).(pool := s.pool.Put(CacheTop(s, k))), live, k, n - 1);
    }
  }

  lemma RefillInv(s: State, live: seq<set<nat>>, k: nat)
    requires Inv(s, live) && k < |live| && s.caches[k] == []
    ensures Inv(Filled(s, k), live) && Filled(s, k).flowsMax == s.flowsMax
    ensures s.flowsCpt <= s.flowsMax ==> Filled(s, k).caches[k] != []
  {
    if s.flowsCpt <= s.flowsMax {
      TakeMany(s, live, k, FLOW_CACHE_SZ);
    }
  }

  lemma PopInv(s: State, live: seq<set<nat>>, k: nat)
    requires Inv(s, live) && k < |live| && s.caches[k] != []
    ensures var i := CacheTop(s, k);
            && (forall j :: 0 <= j < |live| ==> i !in live[j])
            && Inv(CachePop(s, k), live[k := live[k] + {i}])
  {
    var t, i := CachePop(s, k), CacheTop(s, k);
    var live' := live[k := live[k] + {i}];
    NoDupPop(s.caches[k]);
    assert s.caches[k] == t.caches[k] + [i];
    assert Holds(s.caches, live, k, i);
    assert forall x: nat :: Holds(t.caches, live', k, x) <==> Holds(s.caches, live, k, x);
    forall j: nat | j < |live| ensures i !in live[j] {
      assert Holds(s.caches, live, j, i) ==> j == k;
    }
    Repartition(s, live, t, live', k);
  }

  /** Allocation keeps the invariant; the entry it returns was live on no CPU,
      and becomes live on CPU k.  It fails only above the limit. */
  lemma AllocSpec(s: State, live: seq<set<nat>>, k: nat)
    requires Inv(s, live) && k < |live|
    ensures var (t, r) := Allocated(s, k);
            && t.flowsMax == s.flowsMax
            && (r.None? ==> s.flowsCpt > s.flowsMax && s.caches[k] == [] && t == s)
            && (r.Some? ==> (forall j :: 0 <= j < |live| ==> r.value !in live[j])
                            && Inv(t, live[k := live[k] + {r.value}]))
  {
    var m := if s.caches[k] == [] then Filled(s, k) else s;
    if s.caches[k] == [] {
      RefillInv(s, live, k);
    }
    hide Inv;
    if m.caches[k] != [] {
      PopInv(m, live, k);
    }
  }

  /** Freeing a live entry keeps the invariant: an overfull cache holds exactly
      513 entries, so the count drops by exactly what went back to the pool. */
  lemma FreeSpec(s: State, live: seq<set<nat>>, k: nat, i: nat)
    requires Inv(s, live) && k < |live| && i in live[k]
    ensures Inv(Freed(s, k, i), live[k := live[k] - {i}])
    ensures Freed(s, k, i).flowsMax == s.flowsMax
  {
    var t := CacheAdd(s, k, i);
    var live' := live[k := live[k] - {i}];
    NoDupSnoc(s.caches[k], i);
    assert forall x: nat :: Holds(t.caches, live', k, x) <==> Holds(s.caches, live, k, x);
    Repartition(s, live, t, live', k);
    if |t.caches[k]| > 2 * FLOW_CACHE_SZ {
      ReleaseMany(t, live', k, FLOW_CACHE_SZ);
    }
  }

  // ----- the initial state and whole runs

  /** `flowtable_init`: every CPU takes its first 256 entries without looking
      at the limit. */
  function InitCpus(s: State, n: nat): (t: State)
    requires n <= |s.caches|
    ensures |t.caches| == |s.caches|
    decreases n
  {
    if n == 0 then s
    else
      var r := InitCpus(s, n - 1);
      var t := TakeN(r, n - 1, FLOW_CACHE_SZ);
      t.(flowsCpt := t.flowsCpt + FLOW_CACHE_SZ)
  }

  function Init(cpus: nat, flowsMax: nat): State {
    InitCpus(State(Pool(0, []), 0, flowsMax, seq(cpus, _ => [])), cpus)
  }

  lemma {:induction false} InitCpusInv(s: State, live: seq<set<nat>>, n: nat)
    requires Partition(s.pool, s.caches, live) && s.pool.Used() == {} && s.flowsCpt == 0
    requires n <= |live|
    ensures var t := InitCpus(s, n);
            && Partition(t.pool, t.caches, live)
            && t.flowsCpt == |t.pool.Used()| == FLOW_CACHE_SZ * n
            && t.flowsMax == s.flowsMax
            && (forall k :: 0 <= k < n ==> |t.caches[k]| == |s.caches[k]| + FLOW_CACHE_SZ)
            && (forall k :: n <= k < |live| ==> t.caches[k] == s.caches[k])
  {
    if n > 0 {
      InitCpusInv(s, live, n - 1);
      var r := InitCpus(s, n - 1);
      TakeMany(r, live, n - 1, FLOW_CACHE_SZ);
    }
  }

  lemma InitInv(cpus: nat, flowsMax: nat)
    ensures Inv(Init(cpus, flowsMax), seq(cpus, _ => {}))
    ensures |Init(cpus, flowsMax).caches| == cpus && Init(cpus, flowsMax).flowsMax == flowsMax
  {
    var s := State(Pool(0, []), 0, flowsMax, seq(cpus, _ => []));
    var live: seq<set<nat>> := seq(cpus, _ => {});
    assert s.pool.Used() == {};
    assert Partition(s.pool, s.caches, live);
    InitCpusInv(s, live, cpus);
  }

  /** Every CPU starts with a full cache. */
  lemma InitCaches(cpus: nat, flowsMax: nat, k: nat)
    requires k < cpus
    ensures |Init(cpus, flowsMax).caches| == cpus && |Init(cpus, flowsMax).caches[k]| == FLOW_CACHE_SZ
  {
    var s := State(Pool(0, []), 0, flowsMax, seq(cpus, _ => []));
    var live: seq<set<nat>> := seq(cpus, _ => {});
    assert s.pool.Used() == {};
    assert Partition(s.pool, s.caches, live);
    InitCpusInv(s, live, cpus);
  }

  datatype Event = Allocate(cpu: nat) | Release(cpu: nat, index: nat)

  datatype System = System(s: State, live: seq<set<nat>>)

  /** One event; releasing what is not live on that CPU does nothing. */
  ghost function Step(y: System, e: Event): System {
    if e.cpu >= |y.live| || e.cpu >= |y.s.caches| then y
    else
      match e
      case Allocate(k) =>
        var (t, r) := Allocated(y.s, k);
        if r.None? then System(t, y.live) else System(t, y.live[k := y.live[k] + {r.value}])
      case Release(k, i) =>
        if i in y.live[k] then System(Freed(y.s, k, i), y.live[k := y.live[k] - {i}]) else y
  }

  ghost function Run(y: System, events: seq<Event>): System
    decreases |events|
  {
    if events == [] then y else Run(Step(y, events[0]), events[1..])
  }

  lemma {:induction false} RunInv(y: System, events: seq<Event>)
    requires Inv(y.s, y.live)
    ensures Inv(Run(y, events).s, Run(y, events).live)
    ensures Run(y, events).s.flowsMax == y.s.flowsMax && |Run(y, events).live| == |y.live|
    decreases |events|
  {
    if events != [] {
      var e := events[0];
      if e.cpu < |y.live| {
        match e
        case Allocate(k) => AllocSpec(y.s, y.live, k);
        case Release(k, i) => if i in y.live[k] { FreeSpec(y.s, y.live, k, i); }
      }
      RunInv(Step(y, e), events[1..]);
    }
  }

  /** Conservation of the shared pool under every interleaving of the CPUs. */
  lemma PoolConservation(cpus: nat, flowsMax: nat, events: seq<Event>)
    ensures var y := Run(System(Init(cpus, flowsMax), seq(cpus, _ => {})), events);
            && Partition(y.s.pool, y.s.caches, y.live)
            && y.s.flowsCpt == |y.s.pool.Used()|
            && y.s.flowsCpt % FLOW_CACHE_SZ == 0
            && |y.s.caches| == cpus
            && (forall k :: 0 <= k < cpus ==> |y.s.caches[k]| <= 2 * FLOW_CACHE_SZ)
            && (y.s.flowsCpt <= flowsMax + FLOW_CACHE_SZ || y.s.flowsCpt <= FLOW_CACHE_SZ * cpus)
  {
    InitInv(cpus, flowsMax);
    RunInv(System(Init(cpus, flowsMax), seq(cpus, _ => {})), events);
  }

  // ----- the shared state as the program updates it

  class FlowPoolMain {
    var pool: Pool
    var flowsCpt: int
    var flowsMax: nat
    var caches: seq<seq<nat>>

    function Model(): State
      reads this
    {
      State(pool, flowsCpt, flowsMax, caches)
    }

    method CacheFill(k: nat)
      requires k < |caches|
      modifies this
      ensures Model() == Filled(old(Model()), k)
    {
      if flowsCpt > flowsMax {
        return;
      }
      CacheTake(k);
    }

    /** Hands 256 entries to CPU k, whatever the limit. */
    method CacheTake(k: nat)
      requires k < |caches|
      modifies this
      ensures Model() == TakeN(old(Model()), k, FLOW_CACHE_SZ).(flowsCpt := old(flowsCpt) + FLOW_CACHE_SZ)
    {
      for i := 0 to FLOW_CACHE_SZ
        invariant k < |caches|
        invariant TakeN(Model(), k, FLOW_CACHE_SZ - i) == TakeN(old(Model()), k, FLOW_CACHE_SZ)
      {
        var f := pool.NextIndex();
        pool := pool.Get();
        caches := caches[k := caches[k] + [f]];
      }
      flowsCpt := flowsCpt + FLOW_CACHE_SZ;
    }

    method CacheEmpty(k: nat)
      requires k < |caches|
      modifies this
      ensures Model() == Emptied(old(Model()), k)
    {
      var i := |caches[k]| - 1;
      while i > FLOW_CACHE_SZ
        invariant k < |caches| && i == |caches[k]| - 1
        invariant (if i > FLOW_CACHE_SZ then i - FLOW_CACHE_SZ else 0) <= |caches[k]|
        invariant ReleaseN(Model(), k, if i > FLOW_CACHE_SZ then i - FLOW_CACHE_SZ else 0)
               == old(ReleaseN(Model(), k, if |caches[k]| > FLOW_CACHE_SZ + 1 then |caches[k]| - 1 - FLOW_CACHE_SZ else 0))
      {
        var f := caches[k][|caches[k]| - 1];
        caches := caches[k := caches[k][..|caches[k]| - 1]];
        pool := pool.Put(f);
        i := i - 1;
      }
      flowsCpt := flowsCpt - FLOW_CACHE_SZ;
    }

    method Alloc(k: nat) returns (r: Option<nat>)
      requires k < |caches|
      modifies this
      ensures (Model(), r) == Allocated(old(Model()), k)
    {
      if |caches[k]| == 0 {
        CacheFill(k);
      }
      if |caches[k]| == 0 {
        return None;
      }
      r := Some(caches[k][|caches[k]| - 1]);
      caches := caches[k := caches[k][..|caches[k]| - 1]];
    }

    method Free(k: nat, f: nat)
      requires k < |caches|
      modifies this
      ensures Model() == Freed(old(Model()), k, f)
    {
      caches := caches[k := caches[k] + [f]];
      if |caches[k]| > 2 * FLOW_CACHE_SZ {
        CacheEmpty(k);
      }
    }
  }
}
