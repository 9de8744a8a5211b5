/** Runs that stall: two flows that keep returning to the first slot to check
    hold up every pass until one of them falls due or has a packet, and what is
    overdue in later slots stays.  Such runs start from the initial state. */
module FlowStallRun {
  import opened Options
  import opened Pools
  import opened TimerWheel
  import opened FlowKey
  import opened FlowTcp
  import opened FlowTable
  import opened FlowExpiry
  import opened FlowRun
  import opened FlowStall
  import FP = FlowPool

  // ----- stuck CPUs

  /** Element e is linked at slot s and its flow is as given. */
  ghost predicate Parked(c: Cpu, e: nat, s: nat, flow: Flow) {
    && |c.wheel| == SLOTS && s < SLOTS && e in c.wheel[s]
    && e in c.timers && c.timers[e] in c.flows && c.flows[c.timers[e]] == flow && flow.timer == e
  }

  /** A flow that falls due in the slot of time `at`, but not before `until`. */
  ghost predicate FallsBack(flow: Flow, at: nat, until: nat) {
    flow.Deadline() > until && flow.Deadline() % SLOTS == at % SLOTS
  }

  /** Elements a and b, with flows fa and fb, hold up the first slot to check for
      every pass up to `until`. */
  ghost predicate Stuck(c: Cpu, at: nat, until: nat, a: nat, fa: Flow, b: nat, fb: Flow) {
    && c.nextCheck == Some(at) && Blocked(c, at, until, a, fa, b, fb)
  }

  ghost predicate Blocked(c: Cpu, at: nat, until: nat, a: nat, fa: Flow, b: nat, fb: Flow) {
    && a != b && FallsBack(fa, at, until) && FallsBack(fb, at, until)
    && Parked(c, a, at % SLOTS, fa) && Parked(c, b, at % SLOTS, fb)
  }

  /** A flow that is not due keeps its contents and its element through a pass. */
  lemma NotDueStays(t: Table, k: nat, now: nat, hook: nat -> bool, e: nat)
    requires k < |t.pool.caches| && InFrame(t.c, now) && e in t.c.timers && t.c.timers[e] in t.c.flows
    requires t.c.flows[t.c.timers[e]].timer == e && t.c.flows[t.c.timers[e]].Deadline() > now
    ensures var u := TimerExpire(t, k, now, hook).0.c; SameElement(t.c, u, e)
  {
    var f := t.c.timers[e];
    NoPrematureExpiry(t, k, now, hook);
    NoOverdueSurvivors(t, k, now, hook);
    var u := TimerExpire(t, k, now, hook).0.c;
    assert FlowOk(u, f);
    hide TimerExpire, CpuInv;
  }

  lemma BlockedReturns(c: Cpu, at: nat, now: nat, until: nat, a: nat, fa: Flow, b: nat, fb: Flow)
    requires Blocked(c, at, until, a, fa, b, fb) && now <= until
    ensures a != b && Returns(c, a, at, now) && Returns(c, b, at, now)
    ensures |c.wheel| == SLOTS && a in c.wheel[at % SLOTS] && b in c.wheel[at % SLOTS]
  {
  }

  /** The pass of a blocked table returns 256 and leaves it stuck. */
  lemma StuckPass(t: Table, k: nat, now: nat, hook: nat -> bool, at: nat, until: nat, a: nat, fa: Flow, b: nat, fb: Flow)
    requires k < |t.pool.caches| && InFrame(t.c, now) && at <= now <= until
    requires Base(t.c, now) == at && Blocked(t.c, at, until, a, fa, b, fb)
    ensures TimerExpire(t, k, now, hook).1 == TIMER_MAX_EXPIRE
    ensures Stuck(TimerExpire(t, k, now, hook).0.c, at, until, a, fa, b, fb)
  {
    BlockedReturns(t.c, at, now, until, a, fa, b, fb);
    NotDueStays(t, k, now, hook, a);
    NotDueStays(t, k, now, hook, b);
    hide InFrame, Returns, TimerExpire;
    StalledPass(t, k, now, hook, a, b);
  }

  /** An element in another slot stays where it is, however overdue. */
  lemma StuckOthers(t: Table, k: nat, now: nat, hook: nat -> bool, at: nat, until: nat, a: nat, fa: Flow, b: nat, fb: Flow,
                    x: nat, s: nat, flow: Flow)
    requires k < |t.pool.caches| && InFrame(t.c, now) && at <= now <= until
    requires Base(t.c, now) == at && Blocked(t.c, at, until, a, fa, b, fb) && Parked(t.c, x, s, flow) && s != at % SLOTS
    ensures Parked(TimerExpire(t, k, now, hook).0.c, x, s, flow)
  {
    assert x !in t.c.wheel[at % SLOTS];
    BlockedReturns(t.c, at, now, until, a, fa, b, fb);
    hide InFrame, Returns, TimerExpire;
    StalledKeepsOthers(t, k, now, hook, a, b, x);
  }

  // ----- packets of other flows

  lemma ParkedKey(c: Cpu, e: nat, s: nat, flow: Flow, f: nat)
    requires Bijection(c) && Parked(c, e, s, flow) && f in c.flows && c.flows[f].key != flow.key
    ensures f != c.timers[e] && c.flows[f].timer != e
  {
    assert FlowOk(c, f);
    assert FlowOk(c, c.timers[e]);
  }

  lemma TouchParked(c: Cpu, f: nat, now: nat, e: nat, s: nat, flow: Flow)
    requires f in c.flows && Parked(c, e, s, flow) && f != c.timers[e]
    ensures Parked(Touch(c, f, now), e, s, flow) && Touch(c, f, now).nextCheck == c.nextCheck
    ensures Touch(c, f, now).timers == c.timers && Touch(c, f, now).flows[f].timer == c.flows[f].timer
  {
  }

  lemma LifetimeParked(c: Cpu, f: nat, t: TcpEvent, e: nat, s: nat, flow: Flow)
    requires f in c.flows && Parked(c, e, s, flow) && f != c.timers[e] && c.flows[f].timer != e
    ensures Parked(UpdateLifetime(c, f, t), e, s, flow) && UpdateLifetime(c, f, t).nextCheck == c.nextCheck
    ensures UpdateLifetime(c, f, t).timers == c.timers
  {
    hide Trans, Lifetime;
  }

  lemma InsertParked(c: Cpu, l: Lifetimes, f: nat, key: Key, isReverse: bool, now: nat, e: nat, s: nat, flow: Flow)
    requires TimersAllocated(c) && Parked(c, e, s, flow) && f !in c.flows
    ensures Parked(Insert(c, l, f, key, isReverse, now), e, s, flow)
  {
    PoolGet(c.timerPool);
    assert c.timerPool.NextIndex() != e;
  }

  lemma LookupParked(t: Table, k: nat, live: seq<set<nat>>, l: Lifetimes, p: Pkt, now: nat, e: nat, s: nat, flow: Flow)
    requires Good(t, k, live, now) && l.Valid() && Parked(t.c, e, s, flow) && p.key != flow.key
    ensures var (u, r) := Lookup(t, k, live, l, p, now);
            && Parked(u.c, e, s, flow) && u.c.nextCheck == t.c.nextCheck
            && (r.Some? ==> r.value in u.c.flows && u.c.flows[r.value].key == p.key)
            && Bijection(u.c)
  {
    GoodFacts(t, k, live, now);
    LookupCreateKeeps(t, k, live, l, p.key, p.isReverse, now);
    if p.key !in t.c.ht {
      FP.AllocSpec(t.pool, live, k);
      var (pool, r) := FP.Allocated(t.pool, k);
      if r.Some? {
        InsertParked(t.c, l, r.value, p.key, p.isReverse, now, e, s, flow);
      }
    }
    hide Parked, FP.Allocated, FP.Inv, Bijection, TimersAllocated;
  }

  /** A table that differs in other flows only. */
  ghost predicate Undisturbed(c: Cpu, d: Cpu, e: nat, s: nat, flow: Flow) {
    Parked(d, e, s, flow) && d.nextCheck == c.nextCheck
  }

  lemma SeenParked(t: Table, k: nat, live: seq<set<nat>>, f: nat, v: TcpEvent, now: nat, e: nat, s: nat, flow: Flow)
    requires Good(t, k, live, now) && f in t.c.flows && Parked(t.c, e, s, flow) && t.c.flows[f].key != flow.key
    ensures Undisturbed(t.c, Seen(t, k, live, f, v, now).c, e, s, flow)
  {
    ParkedKey(t.c, e, s, flow, f);
    hide Good, Parked;
    ActivateKeeps(t, k, live, f, now);
    TouchParked(t.c, f, now, e, s, flow);
    LifetimeParked(Touch(t.c, f, now), f, v, e, s, flow);
  }

  lemma SeenTwoParked(t: Table, k: nat, live: seq<set<nat>>, f: nat, v: TcpEvent, g: nat, w: TcpEvent, now: nat,
                      e: nat, s: nat, flow: Flow)
    requires Good(t, k, live, now) && f in t.c.flows && g in t.c.flows && Parked(t.c, e, s, flow)
    requires t.c.flows[f].key != flow.key && t.c.flows[g].key != flow.key
    ensures Undisturbed(t.c, SeenTwo(t, k, live, f, v, g, w, now).c, e, s, flow)
  {
    ParkedKey(t.c, e, s, flow, f);
    ParkedKey(t.c, e, s, flow, g);
    hide Good, Parked;
    ActivateKeeps(t, k, live, f, now);
    TouchParked(t.c, f, now, e, s, flow);
    var x := t.(c := Touch(t.c, f, now));
    ActivateKeeps(x, k, live, g, now);
    TouchParked(x.c, g, now, e, s, flow);
    var y := x.(c := Touch(x.c, g, now));
    assert y.c.flows[f].timer == t.c.flows[f].timer && y.c.flows[g].timer == t.c.flows[g].timer;
    hide Touch;
    LifetimeKeeps(y, k, live, f, v, now);
    LifetimeParked(y.c, f, v, e, s, flow);
    var z := y.(c := UpdateLifetime(y.c, f, v));
    LifetimeTimer(y.c, f, v, g);
    LifetimeKeeps(z, k, live, g, w, now);
    LifetimeParked(z.c, g, w, e, s, flow);
  }

  lemma LifetimeTimer(c: Cpu, f: nat, v: TcpEvent, g: nat)
    requires f in c.flows && g in c.flows && |c.wheel| == SLOTS
    ensures g in UpdateLifetime(c, f, v).flows && UpdateLifetime(c, f, v).flows[g].timer == c.flows[g].timer
  {
    hide Trans, Lifetime;
  }

  lemma OneParked(t: Table, k: nat, live: seq<set<nat>>, l: Lifetimes, p: Pkt, now: nat, e: nat, s: nat, flow: Flow)
    requires Good(t, k, live, now) && l.Valid() && Parked(t.c, e, s, flow) && p.key != flow.key
    ensures Undisturbed(t.c, ProcessOne(t, k, live, l, p, now).c, e, s, flow)
  {
    hide Good, Parked, Lookup, Seen;
    LookupParked(t, k, live, l, p, now, e, s, flow);
    var (u, f) := Lookup(t, k, live, l, p, now);
    if f.Some? {
      SeenParked(u, k, live[k := u.c.flows.Keys], f.value, p.tcp, now, e, s, flow);
    }
  }

  lemma OneByOneParked(t: Table, k: nat, live: seq<set<nat>>, l: Lifetimes, p: Pkt, q: Pkt, now: nat,
                       e: nat, s: nat, flow: Flow)
    requires Good(t, k, live, now) && l.Valid() && Parked(t.c, e, s, flow) && p.key != flow.key && q.key != flow.key
    ensures Undisturbed(t.c, OneByOne(t, k, live, l, p, q, now).c, e, s, flow)
  {
    hide Good, Parked, ProcessOne;
    OneKeeps(t, k, live, l, p, now);
    OneParked(t, k, live, l, p, now, e, s, flow);
    var u := ProcessOne(t, k, live, l, p, now);
    OneParked(u, k, live[k := u.c.flows.Keys], l, q, now, e, s, flow);
  }

  lemma TwoParked(t: Table, k: nat, live: seq<set<nat>>, l: Lifetimes, p: Pkt, q: Pkt, now: nat,
                  e: nat, s: nat, flow: Flow)
    requires Good(t, k, live, now) && l.Valid() && Parked(t.c, e, s, flow) && p.key != flow.key && q.key != flow.key
    ensures Undisturbed(t.c, ProcessTwo(t, k, live, l, p, q, now).c, e, s, flow)
  {
    hide Good, Parked, Lookup, SeenTwo, OneByOne, Bijection;
    LookupParked(t, k, live, l, p, now, e, s, flow);
    var (u, f) := Lookup(t, k, live, l, p, now);
    var live' := live[k := u.c.flows.Keys];
    LookupParked(u, k, live', l, q, now, e, s, flow);
    LookupKeepsFlows(u, k, live', l, q, now);
    var (v, g) := Lookup(u, k, live', l, q, now);
    var live'' := live[k := v.c.flows.Keys];
    assert live'[k := v.c.flows.Keys] == live'';
    if f.Some? && g.Some? {
      SeenTwoParked(v, k, live'', f.value, p.tcp, g.value, q.tcp, now, e, s, flow);
    } else {
      OneByOneParked(v, k, live'', l, p, q, now, e, s, flow);
    }
  }

  lemma LookupKeepsFlows(t: Table, k: nat, live: seq<set<nat>>, l: Lifetimes, p: Pkt, now: nat)
    requires Good(t, k, live, now) && l.Valid()
    ensures var (u, r) := Lookup(t, k, live, l, p, now);
            forall f :: f in t.c.flows ==> f in u.c.flows && u.c.flows[f] == t.c.flows[f]
  {
    GoodFacts(t, k, live, now);
    LookupCreateKeeps(t, k, live, l, p.key, p.isReverse, now);
    hide Good, LookupCreate;
  }

  /** No packet of the batch belongs to the key. */
  predicate Spared(b: Batch, key: Key) {
    b.p.key != key && (b.Two? ==> b.q.key != key)
  }

  lemma BatchParked(t: Table, k: nat, live: seq<set<nat>>, l: Lifetimes, b: Batch, now: nat, e: nat, s: nat, flow: Flow)
    requires Good(t, k, live, now) && l.Valid() && Parked(t.c, e, s, flow) && Spared(b, flow.key)
    ensures Undisturbed(t.c, ProcessBatch(t, k, live, l, b, now).c, e, s, flow)
  {
    hide Good, Parked, ProcessOne, ProcessTwo;
    match b {
      case One(p) => OneParked(t, k, live, l, p, now, e, s, flow);
      case Two(p, q) => TwoParked(t, k, live, l, p, q, now, e, s, flow);
    }
  }

  lemma {:induction false} AllParked(t: Table, k: nat, live: seq<set<nat>>, l: Lifetimes, bs: seq<Batch>, now: nat,
                                     e: nat, s: nat, flow: Flow)
    requires Good(t, k, live, now) && l.Valid() && Parked(t.c, e, s, flow) && forall b :: b in bs ==> Spared(b, flow.key)
    ensures Undisturbed(t.c, ProcessAll(t, k, live, l, bs, now).c, e, s, flow)
    decreases |bs|
  {
    hide Good, Parked, ProcessBatch, Spared;
    if bs != [] {
      BatchKeeps(t, k, live, l, bs[0], now);
      BatchParked(t, k, live, l, bs[0], now, e, s, flow);
      var v := ProcessBatch(t, k, live, l, bs[0], now);
      AllParked(v, k, live[k := v.c.flows.Keys], l, bs[1..], now, e, s, flow);
    }
  }

  // ----- frames and runs

  /** The frame brings no packet of the key. */
  predicate SparedAll(bs: seq<Batch>, key: Key) {
    forall b :: b in bs ==> Spared(b, key)
  }

  lemma FrameIsPass(t: Table, k: nat, live: seq<set<nat>>, l: Lifetimes, last: nat, now: nat, bs: seq<Batch>, hook: nat -> bool)
    returns (u: Table)
    requires Resting(t.c, last) && PoolInv(t, k, live) && last <= now && l.Valid()
    ensures k < |u.pool.caches| && InFrame(u.c, now)
    ensures Frame(t, k, live, l, last, now, bs, hook) == TimerExpire(u, k, now, hook)
    ensures forall e, s, flow :: Parked(t.c, e, s, flow) && SparedAll(bs, flow.key) ==> Undisturbed(t.c, u.c, e, s, flow)
    ensures bs == [] ==> u.c == StartFrame(t.c, now)
    ensures Good(t.(c := StartFrame(t.c, now)), k, live, now) && u == ProcessAll(t.(c := StartFrame(t.c, now)), k, live, l, bs, now)
  {
    StartFrameGood(t, k, live, last, now);
    var c := t.(c := StartFrame(t.c, now));
    u := ProcessAll(c, k, live, l, bs, now);
    forall e, s, flow | Parked(t.c, e, s, flow) && SparedAll(bs, flow.key) ensures Undisturbed(t.c, u.c, e, s, flow) {
      assert Parked(c.c, e, s, flow);
      hide Good, Parked, Resting, PoolInv, ProcessAll, Spared;
      AllParked(c, k, live, l, bs, now, e, s, flow);
    }
    hide Good, Resting, PoolInv, Parked, Undisturbed;
    ProcessAllKeeps(c, k, live, l, bs, now);
    GoodFacts(u, k, live[k := u.c.flows.Keys], now);
  }

  /** A frame of a stuck CPU that brings no packet of the two flows: its pass
      returns 256 and the CPU stays stuck. */
  lemma StuckFrame(t: Table, k: nat, live: seq<set<nat>>, l: Lifetimes, last: nat, now: nat, bs: seq<Batch>, hook: nat -> bool,
                   at: nat, until: nat, a: nat, fa: Flow, b: nat, fb: Flow)
    requires Resting(t.c, last) && PoolInv(t, k, live) && last <= now && l.Valid()
    requires Stuck(t.c, at, until, a, fa, b, fb) && at <= now <= until && SparedAll(bs, fa.key) && SparedAll(bs, fb.key)
    ensures var (u, n) := Frame(t, k, live, l, last, now, bs, hook);
            n == TIMER_MAX_EXPIRE && Stuck(u.c, at, until, a, fa, b, fb)
  {
    hide Resting, PoolInv, Good, InFrame, TimerExpire, SparedAll, Parked;
    var u := FrameIsPass(t, k, live, l, last, now, bs, hook);
    assert Undisturbed(t.c, u.c, a, at % SLOTS, fa) && Undisturbed(t.c, u.c, b, at % SLOTS, fb);
    StuckPass(u, k, now, hook, at, until, a, fa, b, fb);
  }

  /** Nor does it handle a flow of another slot that has no packet. */
  lemma StuckFrameLeaves(t: Table, k: nat, live: seq<set<nat>>, l: Lifetimes, last: nat, now: nat, bs: seq<Batch>,
                         hook: nat -> bool, at: nat, until: nat, a: nat, fa: Flow, b: nat, fb: Flow, x: nat, s: nat, fx: Flow)
    requires Resting(t.c, last) && PoolInv(t, k, live) && last <= now && l.Valid()
    requires Stuck(t.c, at, until, a, fa, b, fb) && at <= now <= until && SparedAll(bs, fa.key) && SparedAll(bs, fb.key)
    requires Parked(t.c, x, s, fx) && s != at % SLOTS && SparedAll(bs, fx.key)
    ensures Parked(Frame(t, k, live, l, last, now, bs, hook).0.c, x, s, fx)
  {
    hide Resting, PoolInv, Good, InFrame, TimerExpire, SparedAll, Parked;
    var u := FrameIsPass(t, k, live, l, last, now, bs, hook);
    assert Undisturbed(t.c, u.c, a, at % SLOTS, fa) && Undisturbed(t.c, u.c, b, at % SLOTS, fb);
    assert Undisturbed(t.c, u.c, x, s, fx);
    StuckOthers(u, k, now, hook, at, until, a, fa, b, fb, x, s, fx);
  }

  /** Two elements that hold a CPU up, and one that is left behind. */
  datatype Jam = Jam(at: nat, until: nat, a: nat, fa: Flow, b: nat, fb: Flow, x: nat, s: nat, fx: Flow)

  ghost predicate Jammed(c: Cpu, j: Jam) {
    Stuck(c, j.at, j.until, j.a, j.fa, j.b, j.fb) && Parked(c, j.x, j.s, j.fx) && j.s != j.at % SLOTS
  }

  /** A frame before any of the two flows falls due, without a packet of the three. */
  ghost predicate Idle(e: FrameEvent, j: Jam) {
    e.now <= j.until && SparedAll(e.batches, j.fa.key) && SparedAll(e.batches, j.fb.key) && SparedAll(e.batches, j.fx.key)
  }

  ghost predicate SystemJammed(y: System, cpu: nat, j: Jam) {
    cpu < |y.cpus| == |y.clock| && j.at <= y.clock[cpu] && Jammed(y.cpus[cpu], j)
  }

  lemma JammedStep(y: System, e: FrameEvent, cpu: nat, j: Jam)
    requires SystemInv(y) && SystemJammed(y, cpu, j) && (e.cpu == cpu ==> Idle(e, j))
    ensures SystemJammed(Step(y, e), cpu, j)
    ensures Enabled(y, e) && e.cpu == cpu ==> Outcome(y, e).1 == TIMER_MAX_EXPIRE
  {
    if Enabled(y, e) && e.cpu == cpu {
      FrameStarts(y, cpu);
      hide SystemInv, PoolInv, Resting, Parked, Stuck, SparedAll;
      var t, live, last := TableOf(y, cpu), LiveSets(y.cpus), y.clock[cpu];
      StuckFrame(t, cpu, live, e.lifetimes, last, e.now, e.batches, e.hook, j.at, j.until, j.a, j.fa, j.b, j.fb);
      StuckFrameLeaves(t, cpu, live, e.lifetimes, last, e.now, e.batches, e.hook, j.at, j.until, j.a, j.fa, j.b, j.fb,
                       j.x, j.s, j.fx);
    }
  }

  /** In every run of the system in which no frame of the jammed CPU comes after
      `until` or brings a packet of the three flows, every pass of that CPU
      returns 256 and the flow in the other slot is not handled. */
  lemma {:induction false} JammedRun(y: System, es: seq<FrameEvent>, cpu: nat, j: Jam)
    requires SystemInv(y) && SystemJammed(y, cpu, j) && forall e :: e in es && e.cpu == cpu ==> Idle(e, j)
    ensures SystemInv(Run(y, es)) && SystemJammed(Run(y, es), cpu, j)
    decreases |es|
  {
    hide SystemInv, SystemJammed, Idle, Step;
    if es != [] {
      StepInv(y, es[0]);
      JammedStep(y, es[0], cpu, j);
      JammedRun(Step(y, es[0]), es[1..], cpu, j);
    }
  }

  // ----- from the initial state

  /** A new flow's element is linked at the slot its lifetime ends in. */
  lemma InsertParksNew(c: Cpu, l: Lifetimes, f: nat, key: Key, isReverse: bool, now: nat)
    requires TimersAllocated(c) && |c.wheel| == SLOTS && c.timeIndex == now % SLOTS
    ensures var d, e, flow := Insert(c, l, f, key, isReverse, now), c.timerPool.NextIndex(), NewFlow(c, l, key, isReverse, now);
            && e !in c.timers && Parked(d, e, flow.Deadline() % SLOTS, flow) && d.flows[f].active == now && f in d.flows
            && d.nextCheck == c.nextCheck && d.ht.Keys == c.ht.Keys + {key} && d.flows[f].key == key
  {
    PoolGet(c.timerPool);
    InsertIsEnter(c, l, f, key, isReverse, now);
  }

  lemma TouchNew(c: Cpu, f: nat, now: nat)
    requires f in c.flows && c.flows[f].active == now
    ensures Touch(c, f, now) == c
  {
    assert c.flows[f := c.flows[f].(active := now)] == c.flows;
  }

  lemma LookupNew(t: Table, k: nat, live: seq<set<nat>>, l: Lifetimes, p: Pkt, now: nat)
    requires Good(t, k, live, now) && l.Valid() && p.key !in t.c.ht && k < |t.pool.caches| && t.pool.caches[k] != []
    ensures |t.c.wheel| == SLOTS && TimersAllocated(t.c) && t.c.timeIndex == now % SLOTS
    ensures var f := FP.CacheTop(t.pool, k);
            Lookup(t, k, live, l, p, now)
            == (Table(FP.CachePop(t.pool, k), Insert(t.c, l, f, p.key, p.isReverse, now)), Some(f))
  {
    GoodFacts(t, k, live, now);
  }

  /** A packet of a new flow, other than TCP, with an entry to spare. */
  lemma CreateParked(t: Table, k: nat, live: seq<set<nat>>, l: Lifetimes, p: Pkt, now: nat) returns (e: nat, flow: Flow)
    requires Good(t, k, live, now) && l.Valid() && p.key !in t.c.ht && p.key.proto != PROTO_TCP
    requires k < |t.pool.caches| && t.pool.caches[k] != []
    ensures var u := ProcessOne(t, k, live, l, p, now);
            && e !in t.c.timers && flow.key == p.key && flow.Deadline() == now + LifetimeOf(l, p.key)
            && Parked(u.c, e, flow.Deadline() % SLOTS, flow) && u.c.nextCheck == t.c.nextCheck
            && u.c.ht.Keys == t.c.ht.Keys + {p.key}
            && |u.pool.caches| == |t.pool.caches| && |u.pool.caches[k]| == |t.pool.caches[k]| - 1
  {
    e, flow := t.c.timerPool.NextIndex(), NewFlow(t.c, l, p.key, p.isReverse, now);
    LookupNew(t, k, live, l, p, now);
    hide Good, Lookup, Insert, TimersAllocated, Parked, Touch;
    var f := FP.CacheTop(t.pool, k);
    var d := Insert(t.c, l, f, p.key, p.isReverse, now);
    InsertParksNew(t.c, l, f, p.key, p.isReverse, now);
    TouchNew(d, f, now);
  }

  /** Timeouts the configuration accepts: a second for ICMP, ten minutes else. */
  const LONG := Lifetimes(SLOTS, SLOTS, 1, SLOTS, SLOTS)

  predicate TwoLongOneShort(p: Pkt, q: Pkt, r: Pkt) {
    p.key.proto == q.key.proto == PROTO_UDP && r.key.proto == PROTO_ICMP && p.key != q.key
  }

  /** Three packets of new flows jam an empty table before its pass. */
  lemma ThreePackets(t: Table, k: nat, live: seq<set<nat>>, now: nat, p: Pkt, q: Pkt, r: Pkt) returns (j: Jam)
    requires Good(t, k, live, now) && t.c.ht == map[] && k < |t.pool.caches| && |t.pool.caches[k]| >= 3
    requires TwoLongOneShort(p, q, r)
    ensures var u := ProcessAll(t, k, live, LONG, [One(p), One(q), One(r)], now);
            && u.c.nextCheck == t.c.nextCheck && j.at == now && j.until == now + 599
            && Blocked(u.c, now, now + 599, j.a, j.fa, j.b, j.fb) && Parked(u.c, j.x, j.s, j.fx) && j.s != now % SLOTS
            && j.fa.key == p.key && j.fb.key == q.key && j.fx.key == r.key && j.fx.Deadline() == now + 1
  {
    hide Good, ProcessOne, Parked, ProcessAll;
    var a, fa := CreateParked(t, k, live, LONG, p, now);
    var t1 := ProcessOne(t, k, live, LONG, p, now);
    OneKeeps(t, k, live, LONG, p, now);
    var live1 := live[k := t1.c.flows.Keys];
    var b, fb := CreateParked(t1, k, live1, LONG, q, now);
    OneParked(t1, k, live1, LONG, q, now, a, fa.Deadline() % SLOTS, fa);
    var t2 := ProcessOne(t1, k, live1, LONG, q, now);
    OneKeeps(t1, k, live1, LONG, q, now);
    var live2 := live1[k := t2.c.flows.Keys];
    var x, fx := CreateParked(t2, k, live2, LONG, r, now);
    OneParked(t2, k, live2, LONG, r, now, a, fa.Deadline() % SLOTS, fa);
    OneParked(t2, k, live2, LONG, r, now, b, fb.Deadline() % SLOTS, fb);
    ParkedTimer(t1.c, a, fa.Deadline() % SLOTS, fa);
    j := Jam(now, now + 599, a, fa, b, fb, x, fx.Deadline() % SLOTS, fx);
    NotATurnLater(now, now + 1);
    ThreeInTurn(t, k, live, now, p, q, r);
  }

  lemma ParkedTimer(c: Cpu, e: nat, s: nat, flow: Flow)
    requires Parked(c, e, s, flow)
    ensures e in c.timers
  {
  }

  lemma ThreeInTurn(t: Table, k: nat, live: seq<set<nat>>, now: nat, p: Pkt, q: Pkt, r: Pkt)
    requires Good(t, k, live, now)
    ensures k < |live|
    ensures var t1 := ProcessOne(t, k, live, LONG, p, now);
            var live1 := live[k := t1.c.flows.Keys];
            && Good(t1, k, live1, now)
            && var t2 := ProcessOne(t1, k, live1, LONG, q, now);
               var live2 := live1[k := t2.c.flows.Keys];
               && Good(t2, k, live2, now)
               && ProcessAll(t, k, live, LONG, [One(p), One(q), One(r)], now) == ProcessOne(t2, k, live2, LONG, r, now)
  {
    hide Good, ProcessOne;
    OneKeeps(t, k, live, LONG, p, now);
    var t1 := ProcessOne(t, k, live, LONG, p, now);
    var live1 := live[k := t1.c.flows.Keys];
    OneKeeps(t1, k, live1, LONG, q, now);
    var t2 := ProcessOne(t1, k, live1, LONG, q, now);
    var live2 := live1[k := t2.c.flows.Keys];
    hide ProcessAll;
    FirstOne(t, k, live, p, [One(q), One(r)], now);
    FirstOne(t1, k, live1, q, [One(r)], now);
    FirstOne(t2, k, live2, r, [], now);
    assert [One(p)] + [One(q), One(r)] == [One(p), One(q), One(r)] && [One(q)] + [One(r)] == [One(q), One(r)];
    assert [One(r)] + [] == [One(r)];
  }

  lemma FirstOne(t: Table, k: nat, live: seq<set<nat>>, p: Pkt, bs: seq<Batch>, now: nat)
    requires Good(t, k, live, now)
    ensures var u := ProcessOne(t, k, live, LONG, p, now);
            && k < |live| && Good(u, k, live[k := u.c.flows.Keys], now)
            && ProcessAll(t, k, live, LONG, [One(p)] + bs, now) == ProcessAll(u, k, live[k := u.c.flows.Keys], LONG, bs, now)
            && (bs == [] ==> ProcessAll(t, k, live, LONG, [One(p)] + bs, now) == u)
  {
    hide Good, ProcessOne;
    OneKeeps(t, k, live, LONG, p, now);
    assert ([One(p)] + bs)[1..] == bs;
  }

  /** The first frame of an idle CPU, with these three packets. */
  function JamFrame(now: nat, p: Pkt, q: Pkt, r: Pkt, hook: nat -> bool): FrameEvent {
    FrameEvent(0, now, LONG, [One(p), One(q), One(r)], hook)
  }

  lemma FirstFrame(t: Table, live: seq<set<nat>>, last: nat, now: nat, p: Pkt, q: Pkt, r: Pkt, hook: nat -> bool) returns (j: Jam)
    requires Resting(t.c, last) && PoolInv(t, 0, live) && last <= now && t.c.ht == map[] && t.c.nextCheck == None
    requires 0 < |t.pool.caches| && |t.pool.caches[0]| >= 3 && TwoLongOneShort(p, q, r)
    ensures var (u, n) := Frame(t, 0, live, LONG, last, now, [One(p), One(q), One(r)], hook);
            && n == TIMER_MAX_EXPIRE && Jammed(u.c, j) && j.at == now && j.until == now + 599
            && j.fa.key == p.key && j.fb.key == q.key && j.fx.key == r.key && j.fx.Deadline() == now + 1
  {
    hide Resting, PoolInv, Good, InFrame, TimerExpire, Parked, Blocked, ProcessAll, SparedAll, Undisturbed;
    var bs := [One(p), One(q), One(r)];
    var u := FrameIsPass(t, 0, live, LONG, last, now, bs, hook);
    j := ThreePackets(t.(c := StartFrame(t.c, now)), 0, live, now, p, q, r);
    StuckPass(u, 0, now, hook, now, now + 599, j.a, j.fa, j.b, j.fb);
    StuckOthers(u, 0, now, hook, now, now + 599, j.a, j.fa, j.b, j.fb, j.x, j.s, j.fx);
  }

  /** From the initial state, two packets of new UDP flows and one of a new ICMP
      flow in one frame: its pass returns 256, and so does every later pass of
      the CPU for ten minutes, in every run that brings no more packets of the
      three, while the ICMP flow stays in the table long overdue. */
  lemma StallIsReached(cpus: nat, flowsMax: nat, now: nat, p: Pkt, q: Pkt, r: Pkt, hook: nat -> bool,
                       es: seq<FrameEvent>, e: FrameEvent)
    requires cpus > 0 && TwoLongOneShort(p, q, r)
    requires forall d :: d in es + [e] && d.cpu == 0 ==>
               d.now <= now + 599 && SparedAll(d.batches, p.key) && SparedAll(d.batches, q.key) && SparedAll(d.batches, r.key)
    ensures var y := InitSystem(cpus, flowsMax);
            && SystemInv(y) && Enabled(y, JamFrame(now, p, q, r, hook))
            && Outcome(y, JamFrame(now, p, q, r, hook)).1 == TIMER_MAX_EXPIRE
            && SystemInv(Step(y, JamFrame(now, p, q, r, hook)))
            && var z := Run(Step(y, JamFrame(now, p, q, r, hook)), es);
               && SystemInv(z)
               && (Enabled(z, e) && e.cpu == 0 ==>
                     && Outcome(z, e).1 == TIMER_MAX_EXPIRE
                     && (e.now > now ==> !NothingOverdue(Step(z, e).cpus[0], e.now)))
  {
    var first := JamFrame(now, p, q, r, hook);
    var j := JamFromStart(cpus, flowsMax, now, p, q, r, hook);
    hide SystemInv, Step, Outcome, InitSystem, SystemJammed, SparedAll, NothingOverdue, JamFrame;
    var z0 := Step(InitSystem(cpus, flowsMax), first);
    forall d | d in es && d.cpu == 0 ensures Idle(d, j) {
      assert d in es + [e];
    }
    assert e in es + [e];
    JammedRun(z0, es, 0, j);
    var z := Run(z0, es);
    if Enabled(z, e) && e.cpu == 0 {
      JammedStep(z, e, 0, j);
      JamIsOverdue(Step(z, e), j, e.now);
    }
  }

  lemma JamFromStart(cpus: nat, flowsMax: nat, now: nat, p: Pkt, q: Pkt, r: Pkt, hook: nat -> bool) returns (j: Jam)
    requires cpus > 0 && TwoLongOneShort(p, q, r)
    ensures var y, first := InitSystem(cpus, flowsMax), JamFrame(now, p, q, r, hook);
            && SystemInv(y) && Enabled(y, first) && Outcome(y, first).1 == TIMER_MAX_EXPIRE
            && SystemInv(Step(y, first)) && SystemJammed(Step(y, first), 0, j)
            && j.until == now + 599 && j.fx.Deadline() == now + 1
            && j.fa.key == p.key && j.fb.key == q.key && j.fx.key == r.key
  {
    var y, first := InitSystem(cpus, flowsMax), JamFrame(now, p, q, r, hook);
    hide SystemInv, PoolInv, Resting, Frame, Jammed, InitSystem;
    InitFacts(cpus, flowsMax);
    FrameStarts(y, 0);
    j := FirstFrame(TableOf(y, 0), LiveSets(y.cpus), 0, now, p, q, r, hook);
    StepInv(y, first);
  }

  lemma InitFacts(cpus: nat, flowsMax: nat)
    requires cpus > 0
    ensures var y := InitSystem(cpus, flowsMax);
            && SystemInv(y) && |y.cpus| == |y.clock| == cpus && y.clock[0] == 0
            && y.cpus[0].ht == map[] && y.cpus[0].nextCheck == None
            && 0 < |y.pool.caches| && |y.pool.caches[0]| >= 3
  {
    hide SystemInv, FP.Init;
    InitSystemInv(cpus, flowsMax);
    FP.InitCaches(cpus, flowsMax, 0);
  }

  lemma JamIsOverdue(y: System, j: Jam, now: nat)
    requires SystemJammed(y, 0, j)
    ensures j.fx.Deadline() <= now ==> !NothingOverdue(y.cpus[0], now)
  {
  }
}
