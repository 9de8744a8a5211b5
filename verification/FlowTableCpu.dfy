/** One CPU's flow table as the packet path updates it in place. */
module FlowTableCpu {
  import opened Options
  import opened Pools
  import opened TimerWheel
  import opened FlowKey
  import opened FlowTcp
  import T = FlowTable
  import X = FlowExpiry
  import R = FlowRun
  import FP = FlowPool

  class FlowTableCpu {
    const main: FP.FlowPoolMain
    const cpu: nat
    const lifetimes: T.Lifetimes
    var ht: map<Key, nat>
    var flows: map<nat, T.Flow>
    var timers: map<nat, nat>
    var timerPool: Pool
    var wheel: Wheel
    var timeIndex: nat
    var nextCheck: Option<nat>

    function Model(): T.Table
      reads this, main
    {
      T.Table(main.Model(), T.Cpu(ht, flows, timers, timerPool, wheel, timeIndex, nextCheck))
    }

    /** An empty wheel of 600 slots, and the CPU's first spare entries. */
    constructor (m: FP.FlowPoolMain, k: nat, l: T.Lifetimes)
      requires k < |m.caches|
      modifies m
      ensures main == m && cpu == k && lifetimes == l
      ensures Model() == T.Table(FP.TakeN(old(m.Model()), k, FP.FLOW_CACHE_SZ).(flowsCpt := old(m.flowsCpt) + FP.FLOW_CACHE_SZ),
                                 R.InitCpu())
    {
      main, cpu, lifetimes := m, k, l;
      ht, flows, timers := map[], map[], map[];
      timeIndex, nextCheck := 0xFFFF_FFFF, None;
      timerPool := Pool(SLOTS, []);
      wheel := seq(SLOTS, _ => []);
      new;
      m.CacheTake(k);
    }

    method LookupCreate(key: Key, isReverse: bool, now: nat) returns (r: Option<nat>)
      requires cpu < |main.caches| && |wheel| == SLOTS
      modifies this, main
      ensures (Model(), r) == T.LookupCreate(old(Model()), cpu, lifetimes, key, isReverse, now)
    {
      if key in ht {
        return Some(ht[key]);
      }
      r := main.Alloc(cpu);
      if r.None? {
        return;
      }
      var e := timerPool.NextIndex();
      timerPool := timerPool.Get();
      timers := timers[e := r.value];
      var life := T.LifetimeOf(lifetimes, key);
      flows := flows[r.value := T.Flow(key, isReverse, now, life, Start, e)];
      wheel := AddTail(wheel, (timeIndex + life) % SLOTS, e);
      ht := ht[key := r.value];
    }

    method UpdateActive(f: nat, now: nat)
      requires f in flows
      modifies this
      ensures Model() == old(Model()).(c := T.Touch(old(Model()).c, f, now))
    {
      flows := flows[f := flows[f].(active := now)];
    }

    method UpdateLifetime(f: nat, e: TcpEvent)
      requires f in flows && |wheel| == SLOTS
      modifies this
      ensures Model() == old(Model()).(c := T.UpdateLifetime(old(Model()).c, f, e))
    {
      if flows[f].key.proto == PROTO_TCP {
        var newState := Trans(flows[f].tcp, e);
        if newState != Start && newState != flows[f].tcp {
          flows := flows[f := flows[f].(tcp := newState, lifetime := Lifetime(newState))];
          wheel := Unlink(wheel, flows[f].timer);
          wheel := AddTail(wheel, (flows[f].active + flows[f].lifetime) % SLOTS, flows[f].timer);
        }
      }
    }

    /** Handles element e; whether that counts, and whether the hook was asked. */
    method ExpireSingle(e: nat, now: nat, hook: nat -> bool, asked: nat, ghost expired: nat)
      returns (counts: bool, asked': nat)
      requires cpu < |main.caches| && |wheel| == SLOTS
      requires e in timers && timers[e] in flows && flows[timers[e]].timer == e
      modifies this, main
      ensures T.Pass(Model(), if counts then expired + 1 else expired, asked')
           == T.ExpireSingle(T.Pass(old(Model()), expired, asked), cpu, e, now, hook)
    {
      hide FP.Freed, Unlink, AddTail;
      var f := timers[e];
      var keep := flows[f].active + flows[f].lifetime > now;
      asked' := asked;
      if !keep {
        asked' := asked + 1;
        if hook(asked) {
          flows := flows[f := flows[f].(active := flows[f].active + flows[f].lifetime)];
          keep := true;
        }
      }
      if keep {
        var slot := (flows[f].active + flows[f].lifetime) % SLOTS;
        counts := slot != flows[f].timer;
        if counts {
          wheel := Unlink(wheel, flows[f].timer);
          wheel := AddTail(wheel, slot, flows[f].timer);
        }
      } else {
        wheel := Unlink(wheel, e);
        timerPool := timerPool.Put(e);
        timers := timers - {e};
        ht := ht - {flows[f].key};
        flows := flows - {f};
        main.Free(cpu, f);
        counts := true;
      }
    }

    /** One slot of the pass at time `at`. */
    method ExpireAt(at: nat, now: nat, hook: nat -> bool, expired: nat, asked: nat) returns (expired': nat, asked': nat)
      requires X.Passable(Model(), cpu, now, at)
      modifies this, main
      ensures T.Pass(Model(), expired', asked') == X.ExpireAt(T.Pass(old(Model()), expired, asked), cpu, at, now, hook)
    {
      hide T.CpuInv, T.ExpireSingle, T.Visited, T.GivesUp, T.TimerOk, NextIn, FP.Inv;
      expired', asked' := expired, asked;
      X.PassableFacts(Model().c, now, at);
      if |wheel[at % SLOTS]| == 0 {
        return;
      }
      var index := wheel[at % SLOTS][0];
      ghost var start := X.ExpireAt(T.Pass(Model(), expired, asked), cpu, at, now, hook);
      while index != at % SLOTS && expired' < T.TIMER_MAX_EXPIRE
        invariant X.Passable(Model(), cpu, now, at)
        invariant index == at % SLOTS || index in timers
        invariant X.ExpireSlot(T.Pass(Model(), expired', asked'), cpu, at, index, now, hook) == start
        decreases T.TIMER_MAX_EXPIRE - expired'
      {
        X.PassableFacts(Model().c, now, at);
        X.VisitPassable(T.Pass(Model(), expired', asked'), cpu, index, now, hook, at);
        NextInSpecHere(index, at);
        var e := index;
        index := NextIn(wheel[at % SLOTS], e, at % SLOTS);
        var counts;
        counts, asked' := ExpireSingle(e, now, hook, asked', expired');
        if counts {
          expired' := expired' + 1;
        }
      }
    }

    lemma NextInSpecHere(index: nat, at: nat)
      requires |wheel| == SLOTS && NoDup(wheel[at % SLOTS])
      ensures var n := NextIn(wheel[at % SLOTS], index, at % SLOTS);
              n == at % SLOTS || (n in wheel[at % SLOTS] && n != index)
    {
      X.NextInSpec(wheel[at % SLOTS], index, at % SLOTS);
    }

    method TimerExpire(now: nat, hook: nat -> bool) returns (expired: nat)
      requires cpu < |main.caches| && T.InFrame(Model().c, now)
      modifies this, main
      ensures (Model(), expired) == X.TimerExpire(old(Model()), cpu, now, hook)
    {
      hide T.CpuInv;
      var t := now;
      if nextCheck.Some? {
        if now < nextCheck.value {
          return 0;
        }
        t := nextCheck.value;
      }
      expired := 0;
      var asked := 0;
      ghost var start := X.ExpireFrom(T.Pass(Model(), 0, 0), cpu, t, now, hook);
      while t <= now
        invariant t <= now + 1 && cpu < |main.caches| && expired < T.TIMER_MAX_EXPIRE
        invariant T.CpuInv(Model().c, now, t)
        invariant X.ExpireFrom(T.Pass(Model(), expired, asked), cpu, t, now, hook) == start
      {
        X.ExpireAtSpec(T.Pass(Model(), expired, asked), cpu, t, now, hook);
        expired, asked := ExpireAt(t, now, hook, expired, asked);
        if expired == T.TIMER_MAX_EXPIRE {
          break;
        }
        t := t + 1;
      }
      nextCheck := Some(t);
    }

    method Lookup(p: R.Pkt, now: nat, ghost live: seq<set<nat>>) returns (f: Option<nat>)
      requires T.Good(Model(), cpu, live, now) && lifetimes.Valid()
      modifies this, main
      ensures (Model(), f) == R.Lookup(old(Model()), cpu, live, lifetimes, p, now)
    {
      hide T.Good;
      R.GoodFacts(Model(), cpu, live, now);
      f := LookupCreate(p.key, p.isReverse, now);
    }

    /** One packet in the single loop. */
    method ProcessOne(p: R.Pkt, now: nat, ghost live: seq<set<nat>>)
      requires T.Good(Model(), cpu, live, now) && lifetimes.Valid()
      modifies this, main
      ensures Model() == R.ProcessOne(old(Model()), cpu, live, lifetimes, p, now)
    {
      hide T.Good, R.Lookup;
      var f := Lookup(p, now, live);
      if f.Some? {
        R.GoodFacts(Model(), cpu, live[cpu := Model().c.flows.Keys], now);
        UpdateActive(f.value, now);
        UpdateLifetime(f.value, p.tcp);
      }
    }

    /** Two packets in the dual loop, or in the single loop if that fails. */
    method ProcessTwo(p: R.Pkt, q: R.Pkt, now: nat, ghost live: seq<set<nat>>)
      requires T.Good(Model(), cpu, live, now) && lifetimes.Valid()
      modifies this, main
      ensures Model() == R.ProcessTwo(old(Model()), cpu, live, lifetimes, p, q, now)
    {
      hide T.Good, R.Lookup, R.SeenTwo, R.ProcessOne;
      var f := Lookup(p, now, live);
      ghost var live1 := live[cpu := Model().c.flows.Keys];
      var g := Lookup(q, now, live1);
      ghost var live2 := live[cpu := Model().c.flows.Keys];
      assert live1[cpu := Model().c.flows.Keys] == live2;
      if f.Some? && g.Some? {
        SeenTwo(f.value, p.tcp, g.value, q.tcp, now, live2);
      } else {
        R.OneKeeps(Model(), cpu, live2, lifetimes, p, now);
        ProcessOne(p, now, live2);
        ProcessOne(q, now, live2[cpu := Model().c.flows.Keys]);
      }
    }

    method SeenTwo(f: nat, e: TcpEvent, g: nat, d: TcpEvent, now: nat, ghost live: seq<set<nat>>)
      requires T.Good(Model(), cpu, live, now) && f in flows && g in flows
      modifies this
      ensures Model() == R.SeenTwo(old(Model()), cpu, live, f, e, g, d, now)
    {
      R.GoodFacts(Model(), cpu, live, now);
      hide T.Good;
      UpdateActive(f, now);
      UpdateActive(g, now);
      UpdateLifetime(f, e);
      UpdateLifetime(g, d);
    }

    /** One frame: index update, packets, expiry. */
    method FlowProcess(batches: seq<R.Batch>, now: nat, hook: nat -> bool, ghost live: seq<set<nat>>, ghost last: nat)
      returns (expired: nat)
      requires R.Resting(Model().c, last) && T.PoolInv(Model(), cpu, live) && last <= now && lifetimes.Valid()
      modifies this, main
      ensures (Model(), expired) == R.Frame(old(Model()), cpu, live, lifetimes, last, now, batches, hook)
    {
      hide R.Resting, T.PoolInv, T.Good, R.ProcessOne, R.ProcessTwo;
      R.StartFrameGood(Model(), cpu, live, last, now);
      timeIndex := now % SLOTS;
      ghost var cur := live;
      ghost var start := R.ProcessAll(Model(), cpu, live, lifetimes, batches, now);
      R.ProcessAllKeeps(Model(), cpu, live, lifetimes, batches, now);
      for i := 0 to |batches|
        invariant T.Good(Model(), cpu, cur, now)
        invariant R.ProcessAll(Model(), cpu, cur, lifetimes, batches[i..], now) == start
      {
        ghost var before := Model();
        R.BatchKeeps(before, cpu, cur, lifetimes, batches[i], now);
        assert batches[i..][0] == batches[i] && batches[i..][1..] == batches[i + 1..];
        match batches[i] {
          case One(p) => ProcessOne(p, now, cur);
          case Two(p, q) => ProcessTwo(p, q, now, cur);
        }
        cur := cur[cpu := Model().c.flows.Keys];
      }
      R.GoodFacts(Model(), cpu, cur, now);
      expired := TimerExpire(now, hook);
    }
  }
}
