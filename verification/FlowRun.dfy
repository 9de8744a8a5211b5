/** Frames of packets on any number of CPUs: index update, packets one or two
    at a time, then one expiry pass, all at the same `now`. */
module FlowRun {
  import opened Options
  import opened Pools
  import opened TimerWheel
  import opened FlowKey
  import opened FlowTcp
  import opened FlowTable
  import opened FlowExpiry
  import FP = FlowPool

  datatype Pkt = Pkt(key: Key, isReverse: bool, tcp: TcpEvent)

  /** The single loop takes one packet; the dual loop takes two, looks both up
      first, and hands them to the single loop if either lookup fails. */
  datatype Batch = One(p: Pkt) | Two(p: Pkt, q: Pkt)

  /** What is known of a table inside a frame; `live` lists the flows of all
      CPUs. */
  lemma GoodFacts(t: Table, k: nat, live: seq<set<nat>>, now: nat)
    requires Good(t, k, live, now)
    ensures k < |live| && k < |t.pool.caches| && |t.c.wheel| == SLOTS && InFrame(t.c, now)
    ensures live[k := t.c.flows.Keys] == live
  {
  }

  function Lookup(t: Table, k: nat, ghost live: seq<set<nat>>, l: Lifetimes, p: Pkt, now: nat)
    : (r: (Table, Option<nat>))
    requires Good(t, k, live, now) && l.Valid()
    ensures k < |live|
    ensures Good(r.0, k, live[k := r.0.c.flows.Keys], now)
    ensures r.1.Some? ==> r.1.value in r.0.c.flows
    ensures t.c.flows.Keys <= r.0.c.flows.Keys
  {
    hide Good;
    GoodFacts(t, k, live, now);
    LookupCreateKeeps(t, k, live, l, p.key, p.isReverse, now);
    LookupCreate(t, k, l, p.key, p.isReverse, now)
  }

  lemma ActivateKeeps(t: Table, k: nat, live: seq<set<nat>>, f: nat, now: nat)
    requires Good(t, k, live, now) && f in t.c.flows
    ensures var c := Touch(t.c, f, now);
            && Good(t.(c := c), k, live, now) && c.flows.Keys == t.c.flows.Keys && c.flows[f].active == now
            && forall g :: g in t.c.flows && t.c.flows[g].active == now ==> c.flows[g].active == now
  {
    hide InFrame;
    TouchKeeps(t.c, f, now);
    assert Touch(t.c, f, now).flows.Keys == t.c.flows.Keys;
  }

  lemma LifetimeKeeps(t: Table, k: nat, live: seq<set<nat>>, f: nat, e: TcpEvent, now: nat)
    requires Good(t, k, live, now) && f in t.c.flows && t.c.flows[f].active == now
    ensures |t.c.wheel| == SLOTS
    ensures var c := UpdateLifetime(t.c, f, e);
            && Good(t.(c := c), k, live, now) && c.flows.Keys == t.c.flows.Keys
            && forall g :: g in t.c.flows && t.c.flows[g].active == now ==> c.flows[g].active == now
  {
    GoodFacts(t, k, live, now);
    hide InFrame;
    UpdateLifetimeKeeps(t.c, f, e, now);
    assert UpdateLifetime(t.c, f, e).flows.Keys == t.c.flows.Keys;
  }

  /** One flow seen: activity first, so that the lifetime update never
      schedules in the past. */
  function Seen(t: Table, k: nat, ghost live: seq<set<nat>>, f: nat, e: TcpEvent, now: nat): (u: Table)
    requires Good(t, k, live, now) && f in t.c.flows
    ensures Good(u, k, live, now)
  {
    hide Good;
    ActivateKeeps(t, k, live, f, now);
    var v := t.(c := Touch(t.c, f, now));
    LifetimeKeeps(v, k, live, f, e, now);
    v.(c := UpdateLifetime(v.c, f, e))
  }

  /** Two flows seen by the dual loop: both activities, then both lifetimes. */
  function SeenTwo(t: Table, k: nat, ghost live: seq<set<nat>>, f: nat, e: TcpEvent, g: nat, d: TcpEvent, now: nat)
    : (u: Table)
    requires Good(t, k, live, now) && f in t.c.flows && g in t.c.flows
    ensures Good(u, k, live, now)
  {
    hide Good;
    ActivateKeeps(t, k, live, f, now);
    var v := t.(c := Touch(t.c, f, now));
    ActivateKeeps(v, k, live, g, now);
    var w := v.(c := Touch(v.c, g, now));
    LifetimeKeeps(w, k, live, f, e, now);
    var x := w.(c := UpdateLifetime(w.c, f, e));
    LifetimeKeeps(x, k, live, g, d, now);
    x.(c := UpdateLifetime(x.c, g, d))
  }

  /** One packet in the single loop. */
  function ProcessOne(t: Table, k: nat, ghost live: seq<set<nat>>, l: Lifetimes, p: Pkt, now: nat): Table
    requires Good(t, k, live, now) && l.Valid()
  {
    hide Good;
    var (u, f) := Lookup(t, k, live, l, p, now);
    if f.None? then u else Seen(u, k, live[k := u.c.flows.Keys], f.value, p.tcp, now)
  }

  lemma OneKeeps(t: Table, k: nat, live: seq<set<nat>>, l: Lifetimes, p: Pkt, now: nat)
    requires Good(t, k, live, now) && l.Valid()
    ensures k < |live|
    ensures var u := ProcessOne(t, k, live, l, p, now);
            Good(u, k, live[k := u.c.flows.Keys], now)
  {
    hide Good;
    var w := ProcessOne(t, k, live, l, p, now);
    var (u, f) := Lookup(t, k, live, l, p, now);
    SameLive(w, k, live, u, now);
  }

  /** Two packets in the single loop, one after the other. */
  function OneByOne(t: Table, k: nat, ghost live: seq<set<nat>>, l: Lifetimes, p: Pkt, q: Pkt, now: nat): Table
    requires Good(t, k, live, now) && l.Valid()
  {
    hide Good;
    OneKeeps(t, k, live, l, p, now);
    var u := ProcessOne(t, k, live, l, p, now);
    ProcessOne(u, k, live[k := u.c.flows.Keys], l, q, now)
  }

  lemma OneByOneKeeps(t: Table, k: nat, live: seq<set<nat>>, l: Lifetimes, p: Pkt, q: Pkt, now: nat)
    requires Good(t, k, live, now) && l.Valid()
    ensures k < |live|
    ensures var u := OneByOne(t, k, live, l, p, q, now);
            Good(u, k, live[k := u.c.flows.Keys], now)
  {
    hide Good, ProcessOne;
    OneKeeps(t, k, live, l, p, now);
    var u := ProcessOne(t, k, live, l, p, now);
    OneKeeps(u, k, live[k := u.c.flows.Keys], l, q, now);
    var v := OneByOne(t, k, live, l, p, q, now);
    assert live[k := u.c.flows.Keys][k := v.c.flows.Keys] == live[k := v.c.flows.Keys];
  }

  /** Two packets in the dual loop; if a lookup fails the single loop takes
      both. */
  function ProcessTwo(t: Table, k: nat, ghost live: seq<set<nat>>, l: Lifetimes, p: Pkt, q: Pkt, now: nat): Table
    requires Good(t, k, live, now) && l.Valid()
  {
    hide Good;
    var (u, f) := Lookup(t, k, live, l, p, now);
    var (v, g) := Lookup(u, k, live[k := u.c.flows.Keys], l, q, now);
    assert live[k := u.c.flows.Keys][k := v.c.flows.Keys] == live[k := v.c.flows.Keys];
    if f.None? || g.None? then OneByOne(v, k, live[k := v.c.flows.Keys], l, p, q, now)
    else SeenTwo(v, k, live[k := v.c.flows.Keys], f.value, p.tcp, g.value, q.tcp, now)
  }

  lemma TwoKeeps(t: Table, k: nat, live: seq<set<nat>>, l: Lifetimes, p: Pkt, q: Pkt, now: nat)
    requires Good(t, k, live, now) && l.Valid()
    ensures k < |live|
    ensures var u := ProcessTwo(t, k, live, l, p, q, now);
            Good(u, k, live[k := u.c.flows.Keys], now)
  {
    hide Good, OneByOne;
    var w := ProcessTwo(t, k, live, l, p, q, now);
    var (u, f) := Lookup(t, k, live, l, p, now);
    var (v, g) := Lookup(u, k, live[k := u.c.flows.Keys], l, q, now);
    var live' := live[k := v.c.flows.Keys];
    assert live[k := u.c.flows.Keys][k := v.c.flows.Keys] == live';
    if f.None? || g.None? {
      OneByOneKeeps(v, k, live', l, p, q, now);
      assert live'[k := w.c.flows.Keys] == live[k := w.c.flows.Keys];
    } else {
      SameLive(w, k, live, v, now);
    }
  }

  function ProcessBatch(t: Table, k: nat, ghost live: seq<set<nat>>, l: Lifetimes, b: Batch, now: nat): Table
    requires Good(t, k, live, now) && l.Valid()
  {
    match b
    case One(p) => ProcessOne(t, k, live, l, p, now)
    case Two(p, q) => ProcessTwo(t, k, live, l, p, q, now)
  }

  lemma BatchKeeps(t: Table, k: nat, live: seq<set<nat>>, l: Lifetimes, b: Batch, now: nat)
    requires Good(t, k, live, now) && l.Valid()
    ensures k < |live|
    ensures var u := ProcessBatch(t, k, live, l, b, now);
            Good(u, k, live[k := u.c.flows.Keys], now)
  {
    hide Good, ProcessOne, ProcessTwo;
    match b {
      case One(p) => OneKeeps(t, k, live, l, p, now);
      case Two(p, q) => TwoKeeps(t, k, live, l, p, q, now);
    }
  }

  lemma SameLive(v: Table, k: nat, live: seq<set<nat>>, u: Table, now: nat)
    requires k < |live| && Good(v, k, live[k := u.c.flows.Keys], now)
    ensures Good(v, k, live[k := v.c.flows.Keys], now)
  {
  }

  function ProcessAll(t: Table, k: nat, ghost live: seq<set<nat>>, l: Lifetimes, bs: seq<Batch>, now: nat): Table
    requires Good(t, k, live, now) && l.Valid()
    decreases |bs|
  {
    hide Good;
    if bs == [] then t
    else
      BatchKeeps(t, k, live, l, bs[0], now);
      var v := ProcessBatch(t, k, live, l, bs[0], now);
      ProcessAll(v, k, live[k := v.c.flows.Keys], l, bs[1..], now)
  }

  lemma {:induction false} ProcessAllKeeps(t: Table, k: nat, live: seq<set<nat>>, l: Lifetimes, bs: seq<Batch>, now: nat)
    requires Good(t, k, live, now) && l.Valid()
    ensures k < |live|
    ensures var u := ProcessAll(t, k, live, l, bs, now);
            Good(u, k, live[k := u.c.flows.Keys], now)
    decreases |bs|
  {
    hide Good;
    GoodFacts(t, k, live, now);
    if bs != [] {
      BatchKeeps(t, k, live, l, bs[0], now);
      var v := ProcessBatch(t, k, live, l, bs[0], now);
      ProcessAllKeeps(v, k, live[k := v.c.flows.Keys], l, bs[1..], now);
      var u := ProcessAll(t, k, live, l, bs, now);
      assert live[k := v.c.flows.Keys][k := u.c.flows.Keys] == live[k := u.c.flows.Keys];
    }
  }

  // ----- frames

  /** The state between frames, when the CPU last saw time `last`. */
  ghost predicate Resting(c: Cpu, last: nat) {
    && CpuInv(c, last, Base(c, last))
    && Base(c, last) <= last + 1
    && (c.nextCheck.None? ==> c.flows == map[])
  }

  function StartFrame(c: Cpu, now: nat): Cpu {
    c.(timeIndex := now % SLOTS)
  }

  lemma StartFrameKeeps(c: Cpu, last: nat, now: nat)
    requires Resting(c, last) && last <= now
    ensures InFrame(StartFrame(c, now), now)
    ensures StartFrame(c, now).flows == c.flows
  {
    var d := StartFrame(c, now);
    SameLinksBijection(c, d);
    assert Due(d) == Due(c);
    if c.nextCheck.None? {
      assert forall s: nat, e :: s < |d.wheel| && e in d.wheel[s] ==> e in c.timers && TimerOk(c, e);
    }
  }

  lemma StartFrameGood(t: Table, k: nat, live: seq<set<nat>>, last: nat, now: nat)
    requires Resting(t.c, last) && PoolInv(t, k, live) && last <= now
    ensures Good(t.(c := StartFrame(t.c, now)), k, live, now)
  {
    hide Resting, PoolInv, InFrame;
    StartFrameKeeps(t.c, last, now);
    StartFramePool(t, k, live, now);
  }

  /** One call of `upf_flow_process`: the table after it and the number of flows
      its expiry pass handled. */
  function Frame(t: Table, k: nat, ghost live: seq<set<nat>>, l: Lifetimes, ghost last: nat, now: nat,
                 bs: seq<Batch>, hook: nat -> bool): (Table, nat)
    requires Resting(t.c, last) && PoolInv(t, k, live) && last <= now && l.Valid()
  {
    hide Resting, PoolInv, Good;
    StartFrameGood(t, k, live, last, now);
    ProcessAllKeeps(t.(c := StartFrame(t.c, now)), k, live, l, bs, now);
    var u := ProcessAll(t.(c := StartFrame(t.c, now)), k, live, l, bs, now);
    GoodFacts(u, k, live[k := u.c.flows.Keys], now);
    TimerExpire(u, k, now, hook)
  }

  /** Every frame leaves the CPU at rest, and nothing overdue behind unless its
      pass ran into the limit. */
  lemma FrameKeeps(t: Table, k: nat, live: seq<set<nat>>, l: Lifetimes, last: nat, now: nat,
                   bs: seq<Batch>, hook: nat -> bool)
    requires Resting(t.c, last) && PoolInv(t, k, live) && last <= now && l.Valid()
    ensures k < |live|
    ensures var (u, n) := Frame(t, k, live, l, last, now, bs, hook);
            && PoolInv(u, k, live[k := u.c.flows.Keys]) && Resting(u.c, now)
            && n <= TIMER_MAX_EXPIRE
            && (n < TIMER_MAX_EXPIRE ==> NothingOverdue(u.c, now))
  {
    hide Resting, PoolInv, Good, InFrame, NothingOverdue;
    StartFrameGood(t, k, live, last, now);
    var s := t.(c := StartFrame(t.c, now));
    ProcessAllKeeps(s, k, live, l, bs, now);
    var u := ProcessAll(s, k, live, l, bs, now);
    var live' := live[k := u.c.flows.Keys];
    FramePass(u, k, live', now, hook);
    var r := TimerExpire(u, k, now, hook);
    assert live'[k := r.0.c.flows.Keys] == live[k := r.0.c.flows.Keys];
    InFrameRests(r.0.c, now);
  }

  lemma InFrameRests(c: Cpu, now: nat)
    requires InFrame(c, now) && c.nextCheck.Some?
    ensures Resting(c, now)
  {
  }

  lemma StartFramePool(t: Table, k: nat, live: seq<set<nat>>, now: nat)
    requires PoolInv(t, k, live)
    ensures PoolInv(t.(c := StartFrame(t.c, now)), k, live) && k < |live|
  {
  }

  lemma FramePass(u: Table, k: nat, live: seq<set<nat>>, now: nat, hook: nat -> bool)
    requires Good(u, k, live, now)
    ensures k < |u.pool.caches| && k < |live| && InFrame(u.c, now)
    ensures var r := TimerExpire(u, k, now, hook);
            && PoolInv(r.0, k, live[k := r.0.c.flows.Keys]) && InFrame(r.0.c, now)
            && r.0.c.nextCheck.Some? && r.1 <= TIMER_MAX_EXPIRE
            && (r.1 < TIMER_MAX_EXPIRE ==> NothingOverdue(r.0.c, now))
  {
    hide PoolInv, InFrame, NothingOverdue;
    PoolInvFacts(u, k, live);
    assert InFrame(u.c, now);
    NoOverdueSurvivors(u, k, now, hook);
    TimerExpirePool(u, k, live, now, hook);
    PassSetsNextCheck(u, k, now, hook);
  }

  lemma PassSetsNextCheck(u: Table, k: nat, now: nat, hook: nat -> bool)
    requires k < |u.pool.caches| && InFrame(u.c, now)
    ensures TimerExpire(u, k, now, hook).0.c.nextCheck.Some?
  {
    hide CpuInv;
  }

  // ----- whole runs

  datatype System = System(pool: FP.State, cpus: seq<Cpu>, clock: seq<nat>)

  /** A frame on a CPU, with the timeouts configured at the time. */
  datatype FrameEvent = FrameEvent(cpu: nat, now: nat, lifetimes: Lifetimes, batches: seq<Batch>, hook: nat -> bool)

  ghost function LiveSets(cpus: seq<Cpu>): (live: seq<set<nat>>)
    ensures |live| == |cpus| && forall k :: 0 <= k < |cpus| ==> live[k] == cpus[k].flows.Keys
  {
    seq(|cpus|, k requires 0 <= k < |cpus| => cpus[k].flows.Keys)
  }

  ghost predicate SystemInv(y: System) {
    && |y.cpus| == |y.clock|
    && FP.Inv(y.pool, LiveSets(y.cpus))
    && forall k :: 0 <= k < |y.cpus| ==> Resting(y.cpus[k], y.clock[k])
  }

  /** A frame can run on an existing CPU whose clock has not passed its time. */
  ghost predicate Enabled(y: System, e: FrameEvent) {
    e.cpu < |y.cpus| && e.cpu < |y.clock| && y.clock[e.cpu] <= e.now && e.lifetimes.Valid()
  }

  /** The table of the CPU a frame runs on. */
  ghost function TableOf(y: System, k: nat): Table
    requires k < |y.cpus|
  {
    Table(y.pool, y.cpus[k])
  }

  lemma FrameStarts(y: System, k: nat)
    requires SystemInv(y) && k < |y.cpus|
    ensures Resting(y.cpus[k], y.clock[k]) && PoolInv(TableOf(y, k), k, LiveSets(y.cpus))
  {
  }

  ghost function Outcome(y: System, e: FrameEvent): (Table, nat)
    requires SystemInv(y) && Enabled(y, e)
  {
    FrameStarts(y, e.cpu);
    Frame(TableOf(y, e.cpu), e.cpu, LiveSets(y.cpus), e.lifetimes, y.clock[e.cpu], e.now, e.batches, e.hook)
  }

  ghost function Step(y: System, e: FrameEvent): System
    requires SystemInv(y)
  {
    if !Enabled(y, e) then y
    else
      var t := Outcome(y, e).0;
      System(t.pool, y.cpus[e.cpu := t.c], y.clock[e.cpu := e.now])
  }

  /** One frame on one CPU keeps every CPU's invariant; the frame's own CPU is
      left without overdue flows unless its pass handled 256. */
  lemma StepInv(y: System, e: FrameEvent)
    requires SystemInv(y)
    ensures SystemInv(Step(y, e))
    ensures Enabled(y, e) && Outcome(y, e).1 < TIMER_MAX_EXPIRE ==>
              NothingOverdue(Step(y, e).cpus[e.cpu], e.now)
  {
    if Enabled(y, e) {
      var live := LiveSets(y.cpus);
      FrameStarts(y, e.cpu);
      hide Resting, PoolInv, NothingOverdue;
      FrameKeeps(TableOf(y, e.cpu), e.cpu, live, e.lifetimes, y.clock[e.cpu], e.now, e.batches, e.hook);
      var t := Outcome(y, e).0;
      PoolInvMeans(t, e.cpu, live[e.cpu := t.c.flows.Keys]);
      assert LiveSets(y.cpus[e.cpu := t.c]) == live[e.cpu := t.c.flows.Keys];
    }
  }

  lemma PoolInvMeans(t: Table, k: nat, live: seq<set<nat>>)
    requires PoolInv(t, k, live)
    ensures FP.Inv(t.pool, live)
  {
  }

  ghost function Run(y: System, es: seq<FrameEvent>): System
    requires SystemInv(y)
    decreases |es|
  {
    if es == [] then y
    else
      StepInv(y, es[0]);
      Run(Step(y, es[0]), es[1..])
  }

  lemma {:induction false} RunInv(y: System, es: seq<FrameEvent>)
    requires SystemInv(y)
    ensures SystemInv(Run(y, es))
    decreases |es|
  {
    hide SystemInv;
    if es != [] {
      StepInv(y, es[0]);
      RunInv(Step(y, es[0]), es[1..]);
    }
  }

  /** `flowtable_init_cpu`: 600 slot heads and nothing else. */
  function InitCpu(): Cpu {
    Cpu(map[], map[], map[], Pool(SLOTS, []), seq(SLOTS, _ => []), 0xFFFF_FFFF, None)
  }

  ghost function InitSystem(cpus: nat, flowsMax: nat): System {
    System(FP.Init(cpus, flowsMax), seq(cpus, _ => InitCpu()), seq(cpus, _ => 0))
  }

  lemma InitSystemInv(cpus: nat, flowsMax: nat)
    ensures SystemInv(InitSystem(cpus, flowsMax))
  {
    hide FP.Inv, Resting;
    FP.InitInv(cpus, flowsMax);
    var y := InitSystem(cpus, flowsMax);
    var none: seq<set<nat>> := seq(cpus, _ => {});
    assert forall k :: 0 <= k < cpus ==> LiveSets(y.cpus)[k] == none[k];
    assert LiveSets(y.cpus) == none;
    InitCpuRests();
  }

  lemma InitCpuRests()
    ensures Resting(InitCpu(), 0)
  {
    var c := InitCpu();
    assert forall e: nat :: e in c.timerPool.Used() <==> e < SLOTS;
  }

  /** For every run of frames on every number of CPUs, with timeouts that may
      change between frames, and every hook: hash,
      flows and timers stay in bijection, no timer is a slot head or on two
      lists, no flow waits beyond its deadline for its slot's next visit, and
      each frame whose pass stays under the limit ends with nothing overdue. */
  lemma RunSafety(cpus: nat, flowsMax: nat, es: seq<FrameEvent>, e: FrameEvent)
    ensures SystemInv(InitSystem(cpus, flowsMax))
    ensures var y := Run(InitSystem(cpus, flowsMax), es);
            && SystemInv(y)
            && (Enabled(y, e) && Outcome(y, e).1 < TIMER_MAX_EXPIRE ==>
                  NothingOverdue(Step(y, e).cpus[e.cpu], e.now))
  {
    hide SystemInv;
    InitSystemInv(cpus, flowsMax);
    RunInv(InitSystem(cpus, flowsMax), es);
    StepInv(Run(InitSystem(cpus, flowsMax), es), e);
  }
}
