/** What a frame does for the flows it should keep: a flow that is not due, or
    that has a packet in the frame, is still there afterwards and not due. */
module FlowAlive {
  import opened Options
  import opened Pools
  import opened TimerWheel
  import opened FlowKey
  import opened FlowTcp
  import opened FlowTable
  import opened FlowExpiry
  import opened FlowRun

  /** The key leads to a live flow whose lifetime is not over. */
  ghost predicate Alive(c: Cpu, key: Key, now: nat) {
    key in c.ht && c.ht[key] in c.flows && c.flows[c.ht[key]].Deadline() > now
  }

  lemma TouchAlive(c: Cpu, f: nat, now: nat, key: Key)
    requires Aged(c, now) && f in c.flows
    ensures Alive(c, key, now) || (key in c.ht && c.ht[key] == f) ==> Alive(Touch(c, f, now), key, now)
    ensures Touch(c, f, now).ht == c.ht
  {
  }

  lemma LifetimeAlive(c: Cpu, f: nat, e: TcpEvent, now: nat, key: Key)
    requires f in c.flows && c.flows[f].active == now && |c.wheel| == SLOTS
    ensures Alive(c, key, now) ==> Alive(UpdateLifetime(c, f, e), key, now)
    ensures UpdateLifetime(c, f, e).ht == c.ht
  {
    var flow := c.flows[f];
    if flow.key.proto == PROTO_TCP && Moves(flow.tcp, e) {
      MovesForward(flow.tcp, e);
    }
    hide Trans, Lifetime, AddTail, Unlink;
  }

  lemma AgedIn(t: Table, k: nat, live: seq<set<nat>>, now: nat)
    requires Good(t, k, live, now)
    ensures Aged(t.c, now) && |t.c.wheel| == SLOTS && k < |live|
  {
  }

  /** Lookups leave other keys alone, and find or make the flow of their own. */
  lemma LookupAlive(t: Table, k: nat, live: seq<set<nat>>, l: Lifetimes, p: Pkt, now: nat, key: Key)
    requires Good(t, k, live, now) && l.Valid()
    ensures var (u, r) := Lookup(t, k, live, l, p, now);
            && (Alive(t.c, key, now) ==> Alive(u.c, key, now))
            && (key in t.c.ht ==> key in u.c.ht && u.c.ht[key] == t.c.ht[key])
            && (r.Some? ==> p.key in u.c.ht && u.c.ht[p.key] == r.value)
            && (p.key in t.c.ht ==> r.Some?)
  {
    LookupCreateKeeps(t, k, live, l, p.key, p.isReverse, now);
    AgedIn(t, k, live, now);
    hide Good, AddTail;
  }

  /** The flow a packet belongs to is alive once it was seen. */
  lemma SeenAlive(t: Table, k: nat, live: seq<set<nat>>, f: nat, e: TcpEvent, now: nat, key: Key)
    requires Good(t, k, live, now) && f in t.c.flows
    ensures var u := Seen(t, k, live, f, e, now);
            u.c.ht == t.c.ht && (Alive(t.c, key, now) || (key in t.c.ht && t.c.ht[key] == f) ==> Alive(u.c, key, now))
  {
    AgedIn(t, k, live, now);
    hide Good, Alive, Aged;
    TouchAlive(t.c, f, now, key);
    ActivateKeeps(t, k, live, f, now);
    var v := t.(c := Touch(t.c, f, now));
    AgedIn(v, k, live, now);
    LifetimeAlive(v.c, f, e, now, key);
  }

  lemma SeenTwoAlive(t: Table, k: nat, live: seq<set<nat>>, f: nat, e: TcpEvent, g: nat, d: TcpEvent, now: nat, key: Key)
    requires Good(t, k, live, now) && f in t.c.flows && g in t.c.flows
    ensures var u := SeenTwo(t, k, live, f, e, g, d, now);
            && u.c.ht == t.c.ht
            && (Alive(t.c, key, now) || (key in t.c.ht && (t.c.ht[key] == f || t.c.ht[key] == g)) ==> Alive(u.c, key, now))
  {
    AgedIn(t, k, live, now);
    hide Good, Alive, Aged;
    ActivateKeeps(t, k, live, f, now);
    TouchAlive(t.c, f, now, key);
    var v := t.(c := Touch(t.c, f, now));
    AgedIn(v, k, live, now);
    ActivateKeeps(v, k, live, g, now);
    TouchAlive(v.c, g, now, key);
    var w := v.(c := Touch(v.c, g, now));
    hide Touch;
    AgedIn(w, k, live, now);
    LifetimeKeeps(w, k, live, f, e, now);
    LifetimeAlive(w.c, f, e, now, key);
    var x := w.(c := UpdateLifetime(w.c, f, e));
    AgedIn(x, k, live, now);
    LifetimeAlive(x.c, g, d, now, key);
  }

  /** One of the packets belongs to the key. */
  predicate Carries(b: Batch, key: Key) {
    b.p.key == key || (b.Two? && b.q.key == key)
  }

  lemma OneAlive(t: Table, k: nat, live: seq<set<nat>>, l: Lifetimes, p: Pkt, now: nat, key: Key)
    requires Good(t, k, live, now) && l.Valid()
    ensures var u := ProcessOne(t, k, live, l, p, now);
            && (key in t.c.ht ==> key in u.c.ht)
            && (Alive(t.c, key, now) || (p.key == key && key in t.c.ht) ==> Alive(u.c, key, now))
  {
    hide Good, Alive, Lookup, Seen;
    LookupAlive(t, k, live, l, p, now, key);
    var (u, f) := Lookup(t, k, live, l, p, now);
    if f.Some? {
      SeenAlive(u, k, live[k := u.c.flows.Keys], f.value, p.tcp, now, key);
    }
  }

  lemma OneByOneAlive(t: Table, k: nat, live: seq<set<nat>>, l: Lifetimes, p: Pkt, q: Pkt, now: nat, key: Key)
    requires Good(t, k, live, now) && l.Valid()
    ensures var u := OneByOne(t, k, live, l, p, q, now);
            && (key in t.c.ht ==> key in u.c.ht)
            && (Alive(t.c, key, now) || ((p.key == key || q.key == key) && key in t.c.ht) ==> Alive(u.c, key, now))
  {
    hide Good, Alive, ProcessOne;
    OneKeeps(t, k, live, l, p, now);
    OneAlive(t, k, live, l, p, now, key);
    var u := ProcessOne(t, k, live, l, p, now);
    OneAlive(u, k, live[k := u.c.flows.Keys], l, q, now, key);
  }

  /** A pair keeps a known flow that has a packet in it, whatever becomes of its
      partner. */
  lemma TwoAlive(t: Table, k: nat, live: seq<set<nat>>, l: Lifetimes, p: Pkt, q: Pkt, now: nat, key: Key)
    requires Good(t, k, live, now) && l.Valid()
    ensures var u := ProcessTwo(t, k, live, l, p, q, now);
            && (key in t.c.ht ==> key in u.c.ht)
            && (Alive(t.c, key, now) || ((p.key == key || q.key == key) && key in t.c.ht) ==> Alive(u.c, key, now))
  {
    hide Good, Alive, Lookup, SeenTwo, OneByOne;
    LookupAlive(t, k, live, l, p, now, key);
    var (u, f) := Lookup(t, k, live, l, p, now);
    var live' := live[k := u.c.flows.Keys];
    LookupAlive(u, k, live', l, q, now, key);
    var (v, g) := Lookup(u, k, live', l, q, now);
    var live'' := live[k := v.c.flows.Keys];
    assert live'[k := v.c.flows.Keys] == live'';
    if f.Some? && g.Some? {
      SeenTwoAlive(v, k, live'', f.value, p.tcp, g.value, q.tcp, now, key);
    } else {
      OneByOneAlive(v, k, live'', l, p, q, now, key);
    }
  }

  lemma BatchAlive(t: Table, k: nat, live: seq<set<nat>>, l: Lifetimes, b: Batch, now: nat, key: Key)
    requires Good(t, k, live, now) && l.Valid()
    ensures var u := ProcessBatch(t, k, live, l, b, now);
            && (key in t.c.ht ==> key in u.c.ht)
            && (Alive(t.c, key, now) || (Carries(b, key) && key in t.c.ht) ==> Alive(u.c, key, now))
  {
    hide Good, Alive, ProcessOne, ProcessTwo;
    match b {
      case One(p) => OneAlive(t, k, live, l, p, now, key);
      case Two(p, q) => TwoAlive(t, k, live, l, p, q, now, key);
    }
  }

  /** The key's flow is alive, or it exists and has a packet in a batch. */
  ghost predicate Attended(c: Cpu, bs: seq<Batch>, key: Key, now: nat) {
    Alive(c, key, now) || (key in c.ht && exists b :: b in bs && Carries(b, key))
  }

  lemma {:induction false} ProcessAllAlive(t: Table, k: nat, live: seq<set<nat>>, l: Lifetimes, bs: seq<Batch>, now: nat, key: Key)
    requires Good(t, k, live, now) && l.Valid() && Attended(t.c, bs, key, now)
    ensures Alive(ProcessAll(t, k, live, l, bs, now).c, key, now)
    decreases |bs|
  {
    hide Good, Alive, ProcessBatch, Carries;
    if bs != [] {
      BatchKeeps(t, k, live, l, bs[0], now);
      BatchAlive(t, k, live, l, bs[0], now, key);
      var v := ProcessBatch(t, k, live, l, bs[0], now);
      if !Alive(v.c, key, now) {
        var b :| b in bs && Carries(b, key);
        assert b in bs[1..];
      }
      ProcessAllAlive(v, k, live[k := v.c.flows.Keys], l, bs[1..], now, key);
    }
  }

  lemma PassAlive(t: Table, k: nat, now: nat, hook: nat -> bool, key: Key)
    requires k < |t.pool.caches| && InFrame(t.c, now) && Alive(t.c, key, now)
    ensures Alive(TimerExpire(t, k, now, hook).0.c, key, now)
  {
    NoPrematureExpiry(t, k, now, hook);
    NoOverdueSurvivors(t, k, now, hook);
    assert KeyOk(t.c, key);
    var u := TimerExpire(t, k, now, hook).0.c;
    assert FlowOk(u, t.c.ht[key]);
    hide TimerExpire, CpuInv;
  }

  /** A flow that is not due when a frame starts, or that gets a packet in it, is
      still in the table after the frame, under its key, and not due. */
  lemma FrameKeepsAlive(t: Table, k: nat, live: seq<set<nat>>, l: Lifetimes, last: nat, now: nat,
                        bs: seq<Batch>, hook: nat -> bool, key: Key)
    requires Resting(t.c, last) && PoolInv(t, k, live) && last <= now && l.Valid() && Attended(t.c, bs, key, now)
    ensures Alive(Frame(t, k, live, l, last, now, bs, hook).0.c, key, now)
  {
    hide Resting, PoolInv, Good, TimerExpire, ProcessAll, InFrame;
    StartFrameGood(t, k, live, last, now);
    var s := t.(c := StartFrame(t.c, now));
    assert Attended(s.c, bs, key, now);
    hide Attended, Alive;
    ProcessAllAlive(s, k, live, l, bs, now, key);
    ProcessAllKeeps(s, k, live, l, bs, now);
    var u := ProcessAll(s, k, live, l, bs, now);
    GoodFacts(u, k, live[k := u.c.flows.Keys], now);
    PassAlive(u, k, now, hook, key);
  }

  // ----- whole runs

  /** Each frame on the CPU comes while the key's flow is alive, or brings a
      packet of it. */
  ghost predicate AttendedRun(y: System, es: seq<FrameEvent>, cpu: nat, key: Key)
    requires SystemInv(y) && cpu < |y.cpus|
    decreases |es|
  {
    hide SystemInv;
    es == [] ||
    (StepInv(y, es[0]);
     && (Enabled(y, es[0]) && es[0].cpu == cpu ==> Attended(y.cpus[cpu], es[0].batches, key, es[0].now))
     && AttendedRun(Step(y, es[0]), es[1..], cpu, key))
  }

  lemma StepKeepsKey(y: System, e: FrameEvent, cpu: nat, key: Key)
    requires SystemInv(y) && cpu < |y.cpus| && key in y.cpus[cpu].ht
    requires Enabled(y, e) && e.cpu == cpu ==> Attended(y.cpus[cpu], e.batches, key, e.now)
    ensures cpu < |Step(y, e).cpus| && key in Step(y, e).cpus[cpu].ht
  {
    hide SystemInv, Attended, PoolInv, Resting;
    if Enabled(y, e) && e.cpu == cpu {
      FrameStarts(y, cpu);
      FrameKeepsAlive(TableOf(y, cpu), cpu, LiveSets(y.cpus), e.lifetimes, y.clock[cpu], e.now, e.batches, e.hook, key);
    }
  }

  /** A connection whose packets come before its lifetime is over is never
      dropped from the table, in any run, whatever the other CPUs and the
      expiration hook do. */
  lemma {:induction false} RunKeepsKey(y: System, es: seq<FrameEvent>, cpu: nat, key: Key)
    requires SystemInv(y) && cpu < |y.cpus| && key in y.cpus[cpu].ht && AttendedRun(y, es, cpu, key)
    ensures cpu < |Run(y, es).cpus| && key in Run(y, es).cpus[cpu].ht
    decreases |es|
  {
    hide SystemInv, Attended, Step;
    if es != [] {
      StepInv(y, es[0]);
      StepKeepsKey(y, es[0], cpu, key);
      RunKeepsKey(Step(y, es[0]), es[1..], cpu, key);
    }
  }
}
