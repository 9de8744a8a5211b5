/** One CPU's flow table: a hash from keys to flow entries, a timer element per
    flow, and the timer wheel the elements are linked into.  Activity only
    moves a flow's `active` time; the wheel catches up when it visits the slot. */
module FlowTable {
  import opened Options
  import opened Pools
  import opened TimerWheel
  import opened FlowKey
  import opened FlowTcp
  import FP = FlowPool

  const TIMER_MAX_EXPIRE := 256

  datatype Lifetimes = Lifetimes(ipv4: nat, ipv6: nat, icmp: nat, udp: nat, tcp: nat) {
    ghost predicate Valid() {
      1 <= ipv4 <= SLOTS && 1 <= ipv6 <= SLOTS && 1 <= icmp <= SLOTS && 1 <= udp <= SLOTS && 1 <= tcp <= SLOTS
    }
  }

  function LifetimeOf(l: Lifetimes, key: Key): nat {
    if key.proto == PROTO_ICMP then l.icmp
    else if key.proto == PROTO_UDP then l.udp
    else if key.proto == PROTO_TCP then l.tcp
    else if key.ip != [] && IsIp4(key.ip[0]) then l.ipv4
    else l.ipv6
  }

  datatype Flow = Flow(key: Key, isReverse: bool, active: nat, lifetime: nat, tcp: TcpState, timer: nat) {
    function Deadline(): nat {
      active + lifetime
    }
  }

  datatype Cpu = Cpu(ht: map<Key, nat>, flows: map<nat, Flow>, timers: map<nat, nat>, timerPool: Pool,
                     wheel: Wheel, timeIndex: nat, nextCheck: Option<nat>)

  /** CPU k's table together with the pool it shares with the other CPUs. */
  datatype Table = Table(pool: FP.State, c: Cpu)

  // ----- the per-CPU invariant

  ghost function Due(c: Cpu): map<nat, nat> {
    map e | e in c.timers && c.timers[e] in c.flows :: c.flows[c.timers[e]].Deadline()
  }

  /** A hash entry leads to a live flow that carries the entry's key. */
  ghost predicate KeyOk(c: Cpu, key: Key) {
    key in c.ht ==> c.ht[key] in c.flows && c.flows[c.ht[key]].key == key
  }

  /** A live flow is stored under its own key and named by its own element. */
  ghost predicate FlowOk(c: Cpu, f: nat) {
    f in c.flows ==>
      && c.flows[f].key in c.ht && c.ht[c.flows[f].key] == f
      && c.flows[f].timer in c.timers && c.timers[c.flows[f].timer] == f
  }

  /** An element names a live flow that names the element. */
  ghost predicate TimerOk(c: Cpu, e: nat) {
    e in c.timers ==> c.timers[e] in c.flows && c.flows[c.timers[e]].timer == e
  }

  /** Hash entries, live flows and timer elements are in bijection. */
  ghost predicate Bijection(c: Cpu) {
    && (forall key :: KeyOk(c, key))
    && (forall f :: FlowOk(c, f))
    && (forall e :: TimerOk(c, e))
  }

  /** Timer elements are pool elements, and none of them is a slot head. */
  ghost predicate TimersAllocated(c: Cpu) {
    && c.timerPool.Valid()
    && (forall e: nat :: e in c.timerPool.Used() <==> e < SLOTS || e in c.timers)
    && (forall e :: e in c.timers ==> SLOTS <= e)
  }

  ghost predicate Aged(c: Cpu, now: nat) {
    forall f :: f in c.flows ==> 1 <= c.flows[f].lifetime <= SLOTS && c.flows[f].active <= now
  }

  ghost predicate CpuInv(c: Cpu, now: nat, from: nat) {
    && Bijection(c)
    && TimersAllocated(c)
    && Linked(c.wheel, c.timers.Keys)
    && Aged(c, now)
    && OnTime(c.wheel, Due(c), from)
  }

  /** The time from which the next pass visits slots. */
  function Base(c: Cpu, now: nat): nat {
    if c.nextCheck.Some? then c.nextCheck.value else now
  }

  /** The state inside a frame at `now`. */
  ghost predicate InFrame(c: Cpu, now: nat) {
    && CpuInv(c, now, Base(c, now))
    && Base(c, now) <= now + 1
    && c.timeIndex == now % SLOTS
  }

  // ----- creating, touching and rescheduling flows

  /** Enters flow f under its key and links its element at a slot. */
  function Enter(c: Cpu, f: nat, flow: Flow, slot: nat): Cpu
    requires slot < |c.wheel|
  {
    c.(flows := c.flows[f := flow],
       timers := c.timers[flow.timer := f],
       timerPool := c.timerPool.Get(),
       wheel := AddTail(c.wheel, slot, flow.timer),
       ht := c.ht[flow.key := f])
  }

  lemma EnterBijection(c: Cpu, f: nat, flow: Flow, slot: nat)
    requires Bijection(c) && slot < |c.wheel|
    requires f !in c.flows && flow.key !in c.ht && flow.timer !in c.timers
    ensures Bijection(Enter(c, f, flow, slot))
  {
    var d := Enter(c, f, flow, slot);
    forall key ensures KeyOk(d, key) {
      assert KeyOk(c, key);
    }
    forall g ensures FlowOk(d, g) {
      assert FlowOk(c, g);
    }
    forall e ensures TimerOk(d, e) {
      assert TimerOk(c, e);
    }
  }

  lemma EnterDue(c: Cpu, f: nat, flow: Flow, slot: nat)
    requires (forall e :: TimerOk(c, e)) && slot < |c.wheel| && f !in c.flows && flow.timer !in c.timers
    ensures Due(Enter(c, f, flow, slot)) == Due(c)[flow.timer := flow.Deadline()]
  {
    hide AddTail, Due;
    var d := Enter(c, f, flow, slot);
    var due := Due(c)[flow.timer := flow.Deadline()];
    forall e: nat ensures (e in Due(d) <==> e in due) && (e in due ==> Due(d)[e] == due[e]) {
      assert TimerOk(c, e);
      DueAt(c, e);
      DueAt(d, e);
    }
  }

  lemma DueAt(c: Cpu, e: nat)
    ensures e in Due(c) <==> e in c.timers && c.timers[e] in c.flows
    ensures e in Due(c) ==> Due(c)[e] == c.flows[c.timers[e]].Deadline()
  {
  }

  lemma EnterAllocated(c: Cpu, f: nat, flow: Flow, slot: nat)
    requires TimersAllocated(c) && slot < |c.wheel| && flow.timer == c.timerPool.NextIndex()
    ensures flow.timer !in c.timers && TimersAllocated(Enter(c, f, flow, slot))
  {
    PoolGet(c.timerPool);
  }

  lemma EnterAged(c: Cpu, f: nat, flow: Flow, slot: nat, now: nat)
    requires Aged(c, now) && slot < |c.wheel| && 1 <= flow.lifetime <= SLOTS && flow.active <= now
    ensures Aged(Enter(c, f, flow, slot), now)
  {
  }

  lemma CpuInvFacts(c: Cpu, now: nat, from: nat)
    requires CpuInv(c, now, from)
    ensures |c.wheel| == SLOTS && forall e :: TimerOk(c, e)
  {
  }

  lemma EnterKeeps(c: Cpu, f: nat, flow: Flow, now: nat, from: nat)
    requires CpuInv(c, now, from) && f !in c.flows && flow.key !in c.ht
    requires flow.timer == c.timerPool.NextIndex()
    requires 1 <= flow.lifetime <= SLOTS && flow.active <= now && from <= flow.Deadline()
    ensures CpuInv(Enter(c, f, flow, flow.Deadline() % SLOTS), now, from)
  {
    var slot := flow.Deadline() % SLOTS;
    CpuInvFacts(c, now, from);
    hide Bijection, TimersAllocated, Linked, OnTime, Due, AddTail, TimerOk, Aged;
    EnterAged(c, f, flow, slot, now);
    EnterAllocated(c, f, flow, slot);
    EnterBijection(c, f, flow, slot);
    EnterDue(c, f, flow, slot);
    AddTailKeeps(c.wheel, c.timers.Keys, Due(c), from, flow.timer, flow.Deadline());
    assert Enter(c, f, flow, slot).timers.Keys == c.timers.Keys + {flow.timer};
  }

  /** A new flow starts now, at the slot its lifetime after the time index. */
  function Insert(c: Cpu, l: Lifetimes, f: nat, key: Key, isReverse: bool, now: nat): Cpu
    requires |c.wheel| == SLOTS
  {
    Enter(c, f, NewFlow(c, l, key, isReverse, now), (c.timeIndex + LifetimeOf(l, key)) % SLOTS)
  }

  lemma InsertKeeps(c: Cpu, l: Lifetimes, f: nat, key: Key, isReverse: bool, now: nat)
    requires InFrame(c, now) && l.Valid() && f !in c.flows && key !in c.ht
    ensures InFrame(Insert(c, l, f, key, isReverse, now), now)
  {
    LifetimeInRange(l, key);
    InsertIsEnter(c, l, f, key, isReverse, now);
    EnterKeeps(c, f, NewFlow(c, l, key, isReverse, now), now, Base(c, now));
  }

  function NewFlow(c: Cpu, l: Lifetimes, key: Key, isReverse: bool, now: nat): Flow {
    Flow(key, isReverse, now, LifetimeOf(l, key), Start, c.timerPool.NextIndex())
  }

  lemma InsertIsEnter(c: Cpu, l: Lifetimes, f: nat, key: Key, isReverse: bool, now: nat)
    requires |c.wheel| == SLOTS && c.timeIndex == now % SLOTS
    ensures var flow := NewFlow(c, l, key, isReverse, now);
            Insert(c, l, f, key, isReverse, now) == Enter(c, f, flow, flow.Deadline() % SLOTS)
  {
    SlotOfSum(now, LifetimeOf(l, key));
  }

  lemma LifetimeInRange(l: Lifetimes, key: Key)
    requires l.Valid()
    ensures 1 <= LifetimeOf(l, key) <= SLOTS
  {
  }

  lemma SlotOfSum(now: nat, life: nat)
    ensures (now % SLOTS + life) % SLOTS == (now + life) % SLOTS
  {
  }

  function Touch(c: Cpu, f: nat, now: nat): Cpu
    requires f in c.flows
  {
    c.(flows := c.flows[f := c.flows[f].(active := now)])
  }

  /** Changing what a flow holds beside its key and its element. */
  lemma SameLinksBijection(c: Cpu, d: Cpu)
    requires Bijection(c) && d.ht == c.ht && d.timers == c.timers && d.flows.Keys == c.flows.Keys
    requires forall f :: f in c.flows ==> d.flows[f].key == c.flows[f].key && d.flows[f].timer == c.flows[f].timer
    ensures Bijection(d)
  {
    forall key ensures KeyOk(d, key) {
      assert KeyOk(c, key);
    }
    forall g ensures FlowOk(d, g) {
      assert FlowOk(c, g);
    }
    forall e ensures TimerOk(d, e) {
      assert TimerOk(c, e);
    }
  }

  lemma TouchKeeps(c: Cpu, f: nat, now: nat)
    requires InFrame(c, now) && f in c.flows
    ensures InFrame(Touch(c, f, now), now)
  {
    var d := Touch(c, f, now);
    SameLinksBijection(c, d);
    assert Due(d).Keys == Due(c).Keys;
    LaterOnTime(c.wheel, Due(c), Due(d), Base(c, now));
  }

  /** Gives flow f new contents and moves its element to the tail of the slot
      of the new deadline. */
  function Reschedule(c: Cpu, f: nat, flow: Flow): Cpu
    requires |c.wheel| == SLOTS
  {
    c.(flows := c.flows[f := flow],
       wheel := AddTail(Unlink(c.wheel, flow.timer), flow.Deadline() % SLOTS, flow.timer))
  }

  lemma RescheduleDue(c: Cpu, f: nat, flow: Flow)
    requires Bijection(c) && |c.wheel| == SLOTS && f in c.flows && flow.timer == c.flows[f].timer
    ensures Due(Reschedule(c, f, flow)) == Due(c)[flow.timer := flow.Deadline()]
  {
    var d := Reschedule(c, f, flow);
    var due := Due(c)[flow.timer := flow.Deadline()];
    assert FlowOk(c, f);
    forall e ensures e in Due(d) <==> e in due {
      assert TimerOk(c, e);
    }
    forall e | e in Due(d) ensures Due(d)[e] == due[e] {
      assert TimerOk(c, e);
    }
  }

  lemma RescheduleKeeps(c: Cpu, f: nat, flow: Flow, now: nat, from: nat)
    requires CpuInv(c, now, from) && f in c.flows
    requires flow.key == c.flows[f].key && flow.timer == c.flows[f].timer
    requires 1 <= flow.lifetime <= SLOTS && flow.active <= now && from <= flow.Deadline()
    ensures CpuInv(Reschedule(c, f, flow), now, from)
    ensures Due(Reschedule(c, f, flow)) == Due(c)[flow.timer := flow.Deadline()]
  {
    SameLinksBijection(c, Reschedule(c, f, flow));
    RescheduleDue(c, f, flow);
    assert FlowOk(c, f);
    RelinkKeeps(c.wheel, c.timers.Keys, Due(c), from, flow.timer, flow.Deadline());
  }

  /** `flow_update_lifetime`: a TCP packet that moves the state machine gives
      the flow a new lifetime and reschedules it. */
  function UpdateLifetime(c: Cpu, f: nat, e: TcpEvent): Cpu
    requires f in c.flows && |c.wheel| == SLOTS
  {
    var flow := c.flows[f];
    if flow.key.proto == PROTO_TCP && Moves(flow.tcp, e) then
      var s := Trans(flow.tcp, e);
      Reschedule(c, f, flow.(tcp := s, lifetime := Lifetime(s)))
    else c
  }

  /** The assertion before rescheduling holds for every flow that was just
      touched, and rescheduling keeps the invariant. */
  lemma UpdateLifetimeKeeps(c: Cpu, f: nat, e: TcpEvent, now: nat)
    requires InFrame(c, now) && f in c.flows && c.flows[f].active == now
    ensures c.nextCheck.None? || c.flows[f].Deadline() >= c.nextCheck.value
    ensures InFrame(UpdateLifetime(c, f, e), now)
  {
    var flow := c.flows[f];
    if flow.key.proto == PROTO_TCP && Moves(flow.tcp, e) {
      MovesForward(flow.tcp, e);
      var s := Trans(flow.tcp, e);
      RescheduleKeeps(c, f, flow.(tcp := s, lifetime := Lifetime(s)), now, Base(c, now));
    }
  }

  // ----- lookup

  /** The table after looking up or creating the flow of a key, and the flow. */
  function LookupCreate(t: Table, k: nat, l: Lifetimes, key: Key, isReverse: bool, now: nat): (Table, Option<nat>)
    requires k < |t.pool.caches| && |t.c.wheel| == SLOTS
  {
    if key in t.c.ht then (t, Some(t.c.ht[key]))
    else
      var (pool, r) := FP.Allocated(t.pool, k);
      match r
      case None => (Table(pool, t.c), None)
      case Some(f) => (Table(pool, Insert(t.c, l, f, key, isReverse, now)), Some(f))
  }

  /** The live sets of all CPUs, with CPU k's taken from its table. */
  ghost predicate PoolInv(t: Table, k: nat, live: seq<set<nat>>) {
    k < |live| && live[k] == t.c.flows.Keys && FP.Inv(t.pool, live)
  }

  ghost predicate Good(t: Table, k: nat, live: seq<set<nat>>, now: nat) {
    PoolInv(t, k, live) && InFrame(t.c, now)
  }

  lemma LookupCreateKeeps(t: Table, k: nat, live: seq<set<nat>>, l: Lifetimes, key: Key, isReverse: bool, now: nat)
    requires Good(t, k, live, now) && l.Valid()
    ensures var (u, r) := LookupCreate(t, k, l, key, isReverse, now);
            && Good(u, k, live[k := u.c.flows.Keys], now)
            && (r.Some? ==> r.value in u.c.flows && u.c.flows[r.value].key == key && u.c.ht[key] == r.value)
            && (r.None? ==> key !in t.c.ht && u.c == t.c && t.pool.flowsCpt > t.pool.flowsMax)
            && (forall f :: f in t.c.flows ==> f in u.c.flows && u.c.flows[f] == t.c.flows[f])
  {
    assert live[k := live[k]] == live;
    assert KeyOk(t.c, key);
    if key !in t.c.ht {
      FP.AllocSpec(t.pool, live, k);
      var (pool, r) := FP.Allocated(t.pool, k);
      if r.Some? {
        InsertKeeps(t.c, l, r.value, key, isReverse, now);
        var u := Insert(t.c, l, r.value, key, isReverse, now);
        assert u.flows.Keys == live[k] + {r.value};
      }
    }
  }

  // ----- expiry

  /** The flow's element, entry and key are given up. */
  function Remove(c: Cpu, e: nat): Cpu
    requires e in c.timers && c.timers[e] in c.flows
  {
    var f := c.timers[e];
    c.(wheel := Unlink(c.wheel, e),
       timerPool := c.timerPool.Put(e),
       timers := c.timers - {e},
       ht := c.ht - {c.flows[f].key},
       flows := c.flows - {f})
  }

  lemma RemoveBijection(c: Cpu, e: nat)
    requires Bijection(c) && e in c.timers && TimerOk(c, e)
    ensures Bijection(Remove(c, e))
  {
    var d := Remove(c, e);
    assert FlowOk(c, c.timers[e]);
    forall key ensures KeyOk(d, key) {
      assert KeyOk(c, key);
    }
    forall g ensures FlowOk(d, g) {
      assert FlowOk(c, g);
    }
    forall x ensures TimerOk(d, x) {
      assert TimerOk(c, x);
    }
  }

  lemma RemoveDue(c: Cpu, e: nat)
    requires Bijection(c) && e in c.timers && TimerOk(c, e)
    ensures Due(Remove(c, e)) == Due(c) - {e}
  {
    var d := Remove(c, e);
    forall x ensures x in Due(d) <==> x in Due(c) - {e} {
      assert TimerOk(c, x);
    }
    forall x | x in Due(d) ensures Due(d)[x] == Due(c)[x] {
      assert TimerOk(c, x);
    }
  }

  lemma RemoveAllocated(c: Cpu, e: nat)
    requires TimersAllocated(c) && e in c.timers && c.timers[e] in c.flows
    ensures TimersAllocated(Remove(c, e))
  {
    PoolPut(c.timerPool, e);
  }

  lemma RemoveKeeps(c: Cpu, e: nat, now: nat, from: nat)
    requires CpuInv(c, now, from) && e in c.timers && TimerOk(c, e)
    ensures CpuInv(Remove(c, e), now, from)
    ensures Due(Remove(c, e)) == Due(c) - {e}
  {
    RemoveBijection(c, e);
    RemoveDue(c, e);
    RemoveAllocated(c, e);
    UnlinkKeeps(c.wheel, c.timers.Keys, Due(c), from, e);
    assert Remove(c, e).timers.Keys == c.timers.Keys - {e};
  }

  /** A pass in progress: the table, how many flows it has handled, and how
      often it has asked the expiration hook. */
  datatype Pass = Pass(t: Table, expired: nat, asked: nat)

  /** `expire_single_flow` on element e.  The hook's n-th answer is hook(n). */
  function ExpireSingle(p: Pass, k: nat, e: nat, now: nat, hook: nat -> bool): Pass
    requires e in p.t.c.timers && p.t.c.timers[e] in p.t.c.flows && |p.t.c.wheel| == SLOTS
    requires k < |p.t.pool.caches|
  {
    var c := p.t.c;
    var f := c.timers[e];
    var idle := c.flows[f].Deadline() <= now;
    var asked := if idle then p.asked + 1 else p.asked;
    if idle && !hook(p.asked) then
      Pass(Table(FP.Freed(p.t.pool, k, f), Remove(c, e)), p.expired + 1, asked)
    else
      var flow := if idle then c.flows[f].(active := c.flows[f].active + c.flows[f].lifetime) else c.flows[f];
      if flow.Deadline() % SLOTS != flow.timer
      then Pass(p.t.(c := Reschedule(c, f, flow)), p.expired + 1, asked)
      else Pass(p.t.(c := c.(flows := c.flows[f := flow])), p.expired, asked)
  }

  /** The flow an element that is not given up goes on with. */
  function Renewed(flow: Flow, now: nat): Flow {
    if flow.Deadline() <= now then flow.(active := flow.active + flow.lifetime) else flow
  }

  predicate GivesUp(p: Pass, e: nat, now: nat, hook: nat -> bool)
    requires e in p.t.c.timers && p.t.c.timers[e] in p.t.c.flows
  {
    p.t.c.flows[p.t.c.timers[e]].Deadline() <= now && !hook(p.asked)
  }

  /** The table after element e was visited. */
  function Visited(c: Cpu, e: nat, now: nat, givesUp: bool): Cpu
    requires e in c.timers && c.timers[e] in c.flows && |c.wheel| == SLOTS
  {
    if givesUp then Remove(c, e) else Reschedule(c, c.timers[e], Renewed(c.flows[c.timers[e]], now))
  }

  /** Handling an element always counts towards the limit: the slot of its new
      deadline is never its own index, which is not a slot head. */
  lemma ExpireSingleCounts(p: Pass, k: nat, e: nat, now: nat, hook: nat -> bool)
    requires k < |p.t.pool.caches| && |p.t.c.wheel| == SLOTS && e in p.t.c.timers
    requires TimerOk(p.t.c, e) && TimersAllocated(p.t.c)
    ensures var q := ExpireSingle(p, k, e, now, hook);
            && q.expired == p.expired + 1
            && q.t.c == Visited(p.t.c, e, now, GivesUp(p, e, now, hook))
            && |q.t.pool.caches| == |p.t.pool.caches|
  {
    if GivesUp(p, e, now, hook) {
      FP.FreedShape(p.t.pool, k, p.t.c.timers[e]);
    }
  }

  /** Visiting element e in a pass that has reached time `from`: if the element
      stays it is due after `from`. */
  lemma VisitedKeeps(c: Cpu, e: nat, now: nat, givesUp: bool, from: nat)
    requires CpuInv(c, now, from) && e in c.timers && TimerOk(c, e) && from <= now
    ensures CpuInv(Visited(c, e, now, givesUp), now, from)
  {
    if givesUp {
      RemoveKeeps(c, e, now, from);
    } else {
      RenewKeeps(c, e, now, from);
    }
  }

  lemma RenewKeeps(c: Cpu, e: nat, now: nat, from: nat)
    requires CpuInv(c, now, from) && e in c.timers && TimerOk(c, e) && from <= now
    ensures var flow := Renewed(c.flows[c.timers[e]], now);
            var d := Reschedule(c, c.timers[e], flow);
            && from < flow.Deadline() && flow.timer == e && SLOTS <= e
            && CpuInv(d, now, from) && Due(d) == Due(c)[e := flow.Deadline()]
  {
    var flow := c.flows[c.timers[e]];
    OnTimeMeansNotOverdue(c.wheel, Due(c), c.timers.Keys, from, e);
    RescheduleKeeps(c, c.timers[e], Renewed(flow, now), now, from);
  }

  lemma ExpireSinglePool(p: Pass, k: nat, live: seq<set<nat>>, e: nat, now: nat, hook: nat -> bool)
    requires PoolInv(p.t, k, live) && e in p.t.c.timers && |p.t.c.wheel| == SLOTS
    requires TimerOk(p.t.c, e) && TimersAllocated(p.t.c)
    ensures var q := ExpireSingle(p, k, e, now, hook);
            PoolInv(q.t, k, live[k := q.t.c.flows.Keys])
  {
    ExpireSingleCounts(p, k, e, now, hook);
    var c, q := p.t.c, ExpireSingle(p, k, e, now, hook);
    var f := c.timers[e];
    if GivesUp(p, e, now, hook) {
      FP.FreeSpec(p.t.pool, live, k, f);
      assert q.t.c.flows.Keys == live[k] - {f};
    } else {
      assert q.t.c.flows.Keys == live[k];
      assert live[k := live[k]] == live;
    }
  }
}
