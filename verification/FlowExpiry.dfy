/** The expiry pass over the timer wheel, from the first slot not yet checked
    up to the current time, at most 256 elements at a time. */
module FlowExpiry {
  import opened Options
  import opened Pools
  import opened TimerWheel
  import opened FlowTable
  import FlowKey
  import FP = FlowPool

  ghost predicate Passable(t: Table, k: nat, now: nat, at: nat) {
    k < |t.pool.caches| && at <= now && CpuInv(t.c, now, at)
  }

  lemma {:induction false} NextInSpec(l: seq<nat>, e: nat, slot: nat)
    requires NoDup(l)
    ensures NextIn(l, e, slot) == slot || (NextIn(l, e, slot) in l && NextIn(l, e, slot) != e)
  {
    if |l| > 0 && l[0] != e {
      NextInSpec(l[1..], e, slot);
    }
  }

  lemma PassableFacts(c: Cpu, now: nat, at: nat)
    requires CpuInv(c, now, at)
    ensures |c.wheel| == SLOTS && NoDup(c.wheel[at % SLOTS])
    ensures forall e :: e in c.wheel[at % SLOTS] ==> e in c.timers
  {
  }

  /** Visiting one element leaves a table the pass can go on with. */
  lemma VisitPassable(p: Pass, k: nat, e: nat, now: nat, hook: nat -> bool, at: nat)
    requires Passable(p.t, k, now, at) && e in p.t.c.timers
    ensures TimerOk(p.t.c, e)
    ensures var q := ExpireSingle(p, k, e, now, hook);
            && Passable(q.t, k, now, at) && q.expired == p.expired + 1
            && q.t.c == Visited(p.t.c, e, now, GivesUp(p, e, now, hook))
            && |q.t.pool.caches| == |p.t.pool.caches|
            && (forall x :: x in p.t.c.timers && x != e ==> x in q.t.c.timers)
  {
    assert TimerOk(p.t.c, e);
    ExpireSingleCounts(p, k, e, now, hook);
    VisitedKeeps(p.t.c, e, now, GivesUp(p, e, now, hook), at);
  }

  /** The elements of the slot visited at time `at`, starting with `index`; the
      slot's own number stands for the end of the list. */
  function ExpireSlot(p: Pass, k: nat, at: nat, index: nat, now: nat, hook: nat -> bool): Pass
    requires Passable(p.t, k, now, at)
    requires index == at % SLOTS || index in p.t.c.timers
    decreases TIMER_MAX_EXPIRE - p.expired
  {
    if index == at % SLOTS || p.expired >= TIMER_MAX_EXPIRE then p
    else
      var next := NextIn(p.t.c.wheel[at % SLOTS], index, at % SLOTS);
      VisitPassable(p, k, index, now, hook, at);
      NextInSpec(p.t.c.wheel[at % SLOTS], index, at % SLOTS);
      ExpireSlot(ExpireSingle(p, k, index, now, hook), k, at, next, now, hook)
  }

  /** The cursor stands at the front of the list, or at its end with nothing
      left to do; everything from position m on has been dealt with. */
  ghost predicate Cursor(l: seq<nat>, due: map<nat, nat>, at: nat, index: nat, m: nat) {
    && m <= |l| && SlotDone(l[m..], due, at)
    && (index == at % SLOTS ==> m == 0)
    && (index != at % SLOTS ==> l != [] && l[0] == index)
  }

  lemma CursorStep(l: seq<nat>, due: map<nat, nat>, at: nat, e: nat, m: nat, l': seq<nat>, due': map<nat, nat>)
    returns (m': nat)
    requires NoDup(l) && Cursor(l, due, at, e, m) && e != at % SLOTS && at % SLOTS !in l
    requires l' == l[1..] || (l' == l[1..] + [e] && e in due' && at + SLOTS <= due'[e])
    requires forall x :: x in due && x != e ==> x in due' && due'[x] == due[x]
    ensures Cursor(l', due', at, NextIn(l, e, at % SLOTS), m')
  {
    m' := if m == 0 || |l| == 1 then 0 else m - 1;
    forall x | x in l'[m'..] ensures x in due' && at + SLOTS <= due'[x] {
      if x != e {
        assert x in l[m..];
      }
    }
  }

  lemma SameSlotIsATurnLater(at: nat, d: nat)
    requires at < d && d % SLOTS == at % SLOTS
    ensures at + SLOTS <= d
  {
  }

  /** What one visit does to the list that holds the element. */
  lemma VisitedList(c: Cpu, e: nat, now: nat, givesUp: bool, at: nat)
    requires CpuInv(c, now, at) && e in c.timers && TimerOk(c, e) && at <= now
    requires c.wheel[at % SLOTS] != [] && c.wheel[at % SLOTS][0] == e
    ensures var d, l := Visited(c, e, now, givesUp), c.wheel[at % SLOTS];
            |d.wheel| == SLOTS
            && (d.wheel[at % SLOTS] == l[1..]
                || (d.wheel[at % SLOTS] == l[1..] + [e] && e in Due(d) && at + SLOTS <= Due(d)[e]))
  {
    var slot := at % SLOTS;
    var l := c.wheel[slot];
    WithoutNoDup(l, e);
    if !givesUp {
      var d := Visited(c, e, now, givesUp);
      RenewKeeps(c, e, now, at);
      var due := Renewed(c.flows[c.timers[e]], now).Deadline();
      if due % SLOTS == slot {
        SameSlotIsATurnLater(at, due);
        assert d.wheel[slot] == l[1..] + [e];
      }
    }
  }

  lemma VisitedDue(c: Cpu, e: nat, now: nat, givesUp: bool, at: nat)
    requires CpuInv(c, now, at) && e in c.timers && TimerOk(c, e) && at <= now
    ensures var d := Visited(c, e, now, givesUp);
            forall x :: x in Due(c) && x != e ==> x in Due(d) && Due(d)[x] == Due(c)[x]
  {
    if givesUp {
      RemoveDue(c, e);
    } else {
      RenewKeeps(c, e, now, at);
    }
  }

  lemma SlotHeadNotLinked(c: Cpu, now: nat, at: nat, slot: nat)
    requires CpuInv(c, now, at) && slot < SLOTS
    ensures slot !in c.wheel[slot] && NoDup(c.wheel[slot])
  {
    assert slot !in c.timers;
  }

  lemma VisitMovesCursor(c: Cpu, e: nat, now: nat, givesUp: bool, at: nat, m: nat) returns (m': nat)
    requires CpuInv(c, now, at) && e in c.timers && TimerOk(c, e) && at <= now
    requires Cursor(c.wheel[at % SLOTS], Due(c), at, e, m) && e != at % SLOTS
    ensures var d := Visited(c, e, now, givesUp);
            |d.wheel| == SLOTS
            && Cursor(d.wheel[at % SLOTS], Due(d), at, NextIn(c.wheel[at % SLOTS], e, at % SLOTS), m')
  {
    var d := Visited(c, e, now, givesUp);
    hide CpuInv;
    VisitedList(c, e, now, givesUp, at);
    VisitedDue(c, e, now, givesUp, at);
    SlotHeadNotLinked(c, now, at, at % SLOTS);
    m' := CursorStep(c.wheel[at % SLOTS], Due(c), at, e, m, d.wheel[at % SLOTS], Due(d));
  }

  /** A slot that is walked to its end holds only elements due a full turn
      later. */
  lemma {:induction false} SlotPass(p: Pass, k: nat, at: nat, index: nat, now: nat, hook: nat -> bool, m: nat)
    requires Passable(p.t, k, now, at) && p.expired <= TIMER_MAX_EXPIRE
    requires index == at % SLOTS || index in p.t.c.timers
    requires Cursor(p.t.c.wheel[at % SLOTS], Due(p.t.c), at, index, m)
    ensures var q := ExpireSlot(p, k, at, index, now, hook);
            && Passable(q.t, k, now, at)
            && q.expired <= TIMER_MAX_EXPIRE
            && |q.t.pool.caches| == |p.t.pool.caches|
            && q.t.c.timeIndex == p.t.c.timeIndex
            && (q.expired < TIMER_MAX_EXPIRE ==> SlotDone(q.t.c.wheel[at % SLOTS], Due(q.t.c), at))
    decreases TIMER_MAX_EXPIRE - p.expired
  {
    var l := p.t.c.wheel[at % SLOTS];
    if index == at % SLOTS || p.expired >= TIMER_MAX_EXPIRE {
      assert l[0..] == l;
    } else {
      var next := NextIn(l, index, at % SLOTS);
      VisitPassable(p, k, index, now, hook, at);
      NextInSpec(l, index, at % SLOTS);
      var m' := VisitMovesCursor(p.t.c, index, now, GivesUp(p, index, now, hook), at, m);
      SlotPass(ExpireSingle(p, k, index, now, hook), k, at, next, now, hook, m');
    }
  }

  /** The slot visited at time `at`, from its first element. */
  function ExpireAt(p: Pass, k: nat, at: nat, now: nat, hook: nat -> bool): Pass
    requires Passable(p.t, k, now, at)
  {
    var l := p.t.c.wheel[at % SLOTS];
    if l == [] then p else ExpireSlot(p, k, at, l[0], now, hook)
  }

  lemma ExpireAtSpec(p: Pass, k: nat, at: nat, now: nat, hook: nat -> bool)
    requires Passable(p.t, k, now, at) && p.expired < TIMER_MAX_EXPIRE
    ensures var q := ExpireAt(p, k, at, now, hook);
            && Passable(q.t, k, now, at)
            && q.expired <= TIMER_MAX_EXPIRE
            && |q.t.pool.caches| == |p.t.pool.caches|
            && q.t.c.timeIndex == p.t.c.timeIndex
            && (q.expired < TIMER_MAX_EXPIRE ==> CpuInv(q.t.c, now, at + 1))
  {
    var l := p.t.c.wheel[at % SLOTS];
    if l != [] {
      assert l[0] in p.t.c.timers;
      assert l[|l|..] == [];
      SlotPass(p, k, at, l[0], now, hook, |l|);
    }
    var q := ExpireAt(p, k, at, now, hook);
    if q.expired < TIMER_MAX_EXPIRE {
      Advance(q.t.c.wheel, Due(q.t.c), at);
    }
  }

  /** All slots from time `at` to `now`; the second result is where the pass
      stopped. */
  function ExpireFrom(p: Pass, k: nat, at: nat, now: nat, hook: nat -> bool): (Pass, nat)
    requires p.expired < TIMER_MAX_EXPIRE && k < |p.t.pool.caches| && at <= now + 1 && CpuInv(p.t.c, now, at)
    decreases now + 1 - at
  {
    if at > now then (p, at)
    else
      ExpireAtSpec(p, k, at, now, hook);
      var q := ExpireAt(p, k, at, now, hook);
      if q.expired == TIMER_MAX_EXPIRE then (q, at) else ExpireFrom(q, k, at + 1, now, hook)
  }

  lemma {:induction false} ExpireFromSpec(p: Pass, k: nat, at: nat, now: nat, hook: nat -> bool)
    requires p.expired < TIMER_MAX_EXPIRE && k < |p.t.pool.caches| && at <= now + 1 && CpuInv(p.t.c, now, at)
    ensures var (q, stop) := ExpireFrom(p, k, at, now, hook);
            && CpuInv(q.t.c, now, stop) && |q.t.pool.caches| == |p.t.pool.caches|
            && q.expired <= TIMER_MAX_EXPIRE && at <= stop <= now + 1
            && q.t.c.timeIndex == p.t.c.timeIndex
            && (q.expired < TIMER_MAX_EXPIRE ==> stop == now + 1)
            && (q.expired == TIMER_MAX_EXPIRE ==> stop <= now)
    decreases now + 1 - at
  {
    hide CpuInv;
    if at <= now {
      ExpireAtSpec(p, k, at, now, hook);
      var q := ExpireAt(p, k, at, now, hook);
      if q.expired != TIMER_MAX_EXPIRE {
        ExpireFromSpec(q, k, at + 1, now, hook);
      }
    }
  }

  /** `flowtable_timer_expire`: the new table and how many flows it handled. */
  function TimerExpire(t: Table, k: nat, now: nat, hook: nat -> bool): (Table, nat)
    requires k < |t.pool.caches| && InFrame(t.c, now)
  {
    if now < Base(t.c, now) then (t, 0)
    else
      var (p, stop) := ExpireFrom(Pass(t, 0, 0), k, Base(t.c, now), now, hook);
      (p.t.(c := p.t.c.(nextCheck := Some(stop))), p.expired)
  }

  ghost predicate NothingOverdue(c: Cpu, now: nat) {
    forall f :: f in c.flows ==> c.flows[f].Deadline() > now
  }

  lemma NextCheckIsFree(c: Cpu, now: nat, stop: nat)
    requires CpuInv(c, now, stop)
    ensures CpuInv(c.(nextCheck := Some(stop)), now, stop)
  {
    var d := c.(nextCheck := Some(stop));
    SameLinksBijection(c, d);
    assert Due(d) == Due(c);
  }

  lemma CheckedMeansNotOverdue(c: Cpu, now: nat)
    requires CpuInv(c, now, now + 1)
    ensures NothingOverdue(c, now)
  {
    forall f | f in c.flows ensures c.flows[f].Deadline() > now {
      assert FlowOk(c, f);
      OnTimeMeansNotOverdue(c.wheel, Due(c), c.timers.Keys, now + 1, c.flows[f].timer);
    }
  }

  /** A pass that returns fewer than 256 leaves no overdue flow behind, whatever
      the expiration hook answers; every pass keeps the table in frame. */
  lemma NoOverdueSurvivors(t: Table, k: nat, now: nat, hook: nat -> bool)
    requires k < |t.pool.caches| && InFrame(t.c, now)
    ensures var (u, n) := TimerExpire(t, k, now, hook);
            && InFrame(u.c, now) && n <= TIMER_MAX_EXPIRE
            && |u.pool.caches| == |t.pool.caches|
            && (n < TIMER_MAX_EXPIRE ==> u.c.nextCheck == Some(now + 1) && NothingOverdue(u.c, now))
  {
    hide CpuInv, NothingOverdue;
    if now >= Base(t.c, now) {
      ExpireFromSpec(Pass(t, 0, 0), k, Base(t.c, now), now, hook);
      var (p, stop) := ExpireFrom(Pass(t, 0, 0), k, Base(t.c, now), now, hook);
      NextCheckIsFree(p.t.c, now, stop);
    }
    var (u, n) := TimerExpire(t, k, now, hook);
    if n < TIMER_MAX_EXPIRE {
      CheckedMeansNotOverdue(u.c, now);
    }
  }

  // ----- what a pass leaves alone

  /** Flows that are not yet due keep their contents, and nothing new appears. */
  ghost predicate Spares(c: Cpu, d: Cpu, now: nat) {
    && d.flows.Keys <= c.flows.Keys
    && (forall f :: f in c.flows && c.flows[f].Deadline() > now ==> f in d.flows && d.flows[f] == c.flows[f])
    && (forall f :: f in d.flows && c.flows[f].Deadline() <= now ==>
          d.flows[f] == c.flows[f] ||
          (d.flows[f].key == c.flows[f].key && c.flows[f].Deadline() < d.flows[f].Deadline()))
  }

  lemma VisitSpares(c: Cpu, e: nat, now: nat, givesUp: bool, at: nat)
    requires CpuInv(c, now, at) && e in c.timers && TimerOk(c, e)
    requires givesUp ==> c.flows[c.timers[e]].Deadline() <= now
    ensures Spares(c, Visited(c, e, now, givesUp), now)
  {
    var f := c.timers[e];
    assert 1 <= c.flows[f].lifetime;
    assert Visited(c, e, now, givesUp).flows
        == if givesUp then c.flows - {f} else c.flows[f := Renewed(c.flows[f], now)];
  }

  lemma SparesTransitive(c: Cpu, d: Cpu, e: Cpu, now: nat)
    requires Spares(c, d, now) && Spares(d, e, now)
    ensures Spares(c, e, now)
  {
  }

  lemma {:induction false} SlotSpares(p: Pass, k: nat, at: nat, index: nat, now: nat, hook: nat -> bool)
    requires Passable(p.t, k, now, at)
    requires index == at % SLOTS || index in p.t.c.timers
    ensures Spares(p.t.c, ExpireSlot(p, k, at, index, now, hook).t.c, now)
    decreases TIMER_MAX_EXPIRE - p.expired
  {
    if index != at % SLOTS && p.expired < TIMER_MAX_EXPIRE {
      hide CpuInv, Spares;
      PassableFacts(p.t.c, now, at);
      VisitPassable(p, k, index, now, hook, at);
      NextInSpec(p.t.c.wheel[at % SLOTS], index, at % SLOTS);
      var q := ExpireSingle(p, k, index, now, hook);
      var next := NextIn(p.t.c.wheel[at % SLOTS], index, at % SLOTS);
      VisitSpares(p.t.c, index, now, GivesUp(p, index, now, hook), at);
      SlotSpares(q, k, at, next, now, hook);
      SparesTransitive(p.t.c, q.t.c, ExpireSlot(q, k, at, next, now, hook).t.c, now);
    }
  }

  lemma SparesItself(c: Cpu, now: nat)
    ensures Spares(c, c, now)
  {
  }

  lemma AtSpares(p: Pass, k: nat, at: nat, now: nat, hook: nat -> bool)
    requires Passable(p.t, k, now, at)
    ensures Spares(p.t.c, ExpireAt(p, k, at, now, hook).t.c, now)
  {
    hide CpuInv, Spares, ExpireSlot;
    PassableFacts(p.t.c, now, at);
    SparesItself(p.t.c, now);
    var l := p.t.c.wheel[at % SLOTS];
    if l != [] {
      SlotSpares(p, k, at, l[0], now, hook);
    }
  }

  lemma {:induction false} FromSpares(p: Pass, k: nat, at: nat, now: nat, hook: nat -> bool)
    requires p.expired < TIMER_MAX_EXPIRE && k < |p.t.pool.caches| && at <= now + 1 && CpuInv(p.t.c, now, at)
    ensures Spares(p.t.c, ExpireFrom(p, k, at, now, hook).0.t.c, now)
    decreases now + 1 - at
  {
    hide CpuInv, Spares, ExpireAt;
    SparesItself(p.t.c, now);
    if at <= now {
      AtSpares(p, k, at, now, hook);
      ExpireAtSpec(p, k, at, now, hook);
      var q := ExpireAt(p, k, at, now, hook);
      if q.expired != TIMER_MAX_EXPIRE {
        FromSpares(q, k, at + 1, now, hook);
        SparesTransitive(p.t.c, q.t.c, ExpireFrom(q, k, at + 1, now, hook).0.t.c, now);
      }
    }
  }

  /** No premature expiry: a pass never touches a flow that is not yet due, and
      a flow that was due and survives was given another lifetime. */
  lemma NoPrematureExpiry(t: Table, k: nat, now: nat, hook: nat -> bool)
    requires k < |t.pool.caches| && InFrame(t.c, now)
    ensures Spares(t.c, TimerExpire(t, k, now, hook).0.c, now)
  {
    if now >= Base(t.c, now) {
      FromSpares(Pass(t, 0, 0), k, Base(t.c, now), now, hook);
    }
  }

  // ----- the shared pool

  lemma PoolInvFacts(t: Table, k: nat, live: seq<set<nat>>)
    requires PoolInv(t, k, live)
    ensures k < |live| && k < |t.pool.caches| && live[k := t.c.flows.Keys] == live
  {
  }

  lemma VisitPool(p: Pass, k: nat, live: seq<set<nat>>, e: nat, now: nat, hook: nat -> bool, at: nat)
    requires Passable(p.t, k, now, at) && PoolInv(p.t, k, live) && e in p.t.c.timers
    ensures TimerOk(p.t.c, e)
    ensures k < |live|
    ensures var q := ExpireSingle(p, k, e, now, hook);
            PoolInv(q.t, k, live[k := q.t.c.flows.Keys])
  {
    hide PoolInv;
    PoolInvFacts(p.t, k, live);
    assert TimerOk(p.t.c, e);
    ExpireSinglePool(p, k, live, e, now, hook);
  }

  lemma {:induction false} SlotPool(p: Pass, k: nat, live: seq<set<nat>>, at: nat, index: nat, now: nat, hook: nat -> bool)
    requires Passable(p.t, k, now, at) && PoolInv(p.t, k, live)
    requires index == at % SLOTS || index in p.t.c.timers
    ensures k < |live|
    ensures var q := ExpireSlot(p, k, at, index, now, hook);
            PoolInv(q.t, k, live[k := q.t.c.flows.Keys])
    decreases TIMER_MAX_EXPIRE - p.expired
  {
    hide PoolInv, CpuInv;
    PoolInvFacts(p.t, k, live);
    if index != at % SLOTS && p.expired < TIMER_MAX_EXPIRE {
      PassableFacts(p.t.c, now, at);
      VisitPassable(p, k, index, now, hook, at);
      NextInSpec(p.t.c.wheel[at % SLOTS], index, at % SLOTS);
      VisitPool(p, k, live, index, now, hook, at);
      var q := ExpireSingle(p, k, index, now, hook);
      var next := NextIn(p.t.c.wheel[at % SLOTS], index, at % SLOTS);
      SlotPool(q, k, live[k := q.t.c.flows.Keys], at, next, now, hook);
      var r := ExpireSlot(q, k, at, next, now, hook);
      assert live[k := q.t.c.flows.Keys][k := r.t.c.flows.Keys] == live[k := r.t.c.flows.Keys];
    }
  }

  lemma {:induction false} FromPool(p: Pass, k: nat, live: seq<set<nat>>, at: nat, now: nat, hook: nat -> bool)
    requires p.expired < TIMER_MAX_EXPIRE && at <= now + 1 && CpuInv(p.t.c, now, at) && PoolInv(p.t, k, live)
    ensures k < |p.t.pool.caches| && k < |live|
    ensures var q := ExpireFrom(p, k, at, now, hook).0;
            PoolInv(q.t, k, live[k := q.t.c.flows.Keys])
    decreases now + 1 - at
  {
    hide PoolInv, CpuInv;
    PoolInvFacts(p.t, k, live);
    if at <= now {
      PassableFacts(p.t.c, now, at);
      var l := p.t.c.wheel[at % SLOTS];
      ExpireAtSpec(p, k, at, now, hook);
      var q := ExpireAt(p, k, at, now, hook);
      if l != [] {
        SlotPool(p, k, live, at, l[0], now, hook);
      }
      if q.expired != TIMER_MAX_EXPIRE {
        FromPool(q, k, live[k := q.t.c.flows.Keys], at + 1, now, hook);
        var r := ExpireFrom(q, k, at + 1, now, hook).0;
        assert live[k := q.t.c.flows.Keys][k := r.t.c.flows.Keys] == live[k := r.t.c.flows.Keys];
      }
    }
  }

  lemma TimerExpirePool(t: Table, k: nat, live: seq<set<nat>>, now: nat, hook: nat -> bool)
    requires Good(t, k, live, now)
    ensures k < |t.pool.caches|
    ensures var (u, _) := TimerExpire(t, k, now, hook);
            Good(u, k, live[k := u.c.flows.Keys], now)
  {
    assert live[k := live[k]] == live;
    assert k < |t.pool.caches|;
    hide CpuInv;
    NoOverdueSurvivors(t, k, now, hook);
    if now >= Base(t.c, now) {
      FromPool(Pass(t, 0, 0), k, live, Base(t.c, now), now, hook);
    }
  }

  // ----- passes that cannot finish

  /** The element's flow is not yet due, and its deadline falls into the slot
      that is being visited at time `at`. */
  ghost predicate Returns(c: Cpu, e: nat, at: nat, now: nat) {
    && e in c.timers && c.timers[e] in c.flows && c.flows[c.timers[e]].timer == e
    && c.flows[c.timers[e]].Deadline() > now
    && c.flows[c.timers[e]].Deadline() % SLOTS == at % SLOTS
  }

  lemma VisitReturns(c: Cpu, e: nat, now: nat, givesUp: bool, at: nat, a: nat)
    requires CpuInv(c, now, at) && e in c.timers && TimerOk(c, e)
    requires c.wheel[at % SLOTS] != [] && c.wheel[at % SLOTS][0] == e
    requires Returns(c, a, at, now) && a in c.wheel[at % SLOTS]
    requires givesUp ==> c.flows[c.timers[e]].Deadline() <= now
    ensures var d := Visited(c, e, now, givesUp);
            Returns(d, a, at, now) && |d.wheel| == SLOTS && a in d.wheel[at % SLOTS]
            && c.flows[c.timers[a]] == d.flows[d.timers[a]]
  {
    var l := c.wheel[at % SLOTS];
    WithoutNoDup(l, e);
    assert a != e ==> a in l[1..];
    assert TimerOk(c, a);
  }

  /** Two elements that keep returning to the slot under visit keep the walk
      going until the limit. */
  lemma {:induction false} StalledSlot(p: Pass, k: nat, at: nat, index: nat, now: nat, hook: nat -> bool, a: nat, b: nat)
    requires Passable(p.t, k, now, at) && p.expired <= TIMER_MAX_EXPIRE
    requires index in p.t.c.timers && p.t.c.wheel[at % SLOTS] != [] && p.t.c.wheel[at % SLOTS][0] == index
    requires a != b && a in p.t.c.wheel[at % SLOTS] && b in p.t.c.wheel[at % SLOTS]
    requires Returns(p.t.c, a, at, now) && Returns(p.t.c, b, at, now)
    ensures var q := ExpireSlot(p, k, at, index, now, hook);
            && q.expired == TIMER_MAX_EXPIRE
            && Returns(q.t.c, a, at, now) && Returns(q.t.c, b, at, now)
            && |q.t.c.wheel| == SLOTS && a in q.t.c.wheel[at % SLOTS] && b in q.t.c.wheel[at % SLOTS]
    decreases TIMER_MAX_EXPIRE - p.expired
  {
    SlotHeadNotLinked(p.t.c, now, at, at % SLOTS);
    assert index != at % SLOTS;
    if p.expired < TIMER_MAX_EXPIRE {
      var l := p.t.c.wheel[at % SLOTS];
      PassableFacts(p.t.c, now, at);
      hide CpuInv, Returns;
      VisitPassable(p, k, index, now, hook, at);
      var q := ExpireSingle(p, k, index, now, hook);
      VisitReturns(p.t.c, index, now, GivesUp(p, index, now, hook), at, a);
      VisitReturns(p.t.c, index, now, GivesUp(p, index, now, hook), at, b);
      VisitedList(p.t.c, index, now, GivesUp(p, index, now, hook), at);
      assert |l| > 1;
      var next := NextIn(l, index, at % SLOTS);
      assert next == l[1] == q.t.c.wheel[at % SLOTS][0];
      NextInSpec(l, index, at % SLOTS);
      StalledSlot(q, k, at, next, now, hook, a, b);
    }
  }

  /** Once two such flows wait in the first slot to be checked, a pass handles
      256 elements and leaves the first slot to check where it was; the two
      flows are still there, so the next pass is no better off.  Whatever else
      is overdue in later slots stays. */
  lemma StalledPass(t: Table, k: nat, now: nat, hook: nat -> bool, a: nat, b: nat)
    requires k < |t.pool.caches| && InFrame(t.c, now) && Base(t.c, now) <= now
    requires a != b
    requires Returns(t.c, a, Base(t.c, now), now) && Returns(t.c, b, Base(t.c, now), now)
    requires a in t.c.wheel[Base(t.c, now) % SLOTS] && b in t.c.wheel[Base(t.c, now) % SLOTS]
    ensures var (u, n) := TimerExpire(t, k, now, hook);
            && n == TIMER_MAX_EXPIRE
            && u.c.nextCheck == Some(Base(t.c, now))
            && Returns(u.c, a, Base(t.c, now), now) && Returns(u.c, b, Base(t.c, now), now)
            && |u.c.wheel| == SLOTS
            && a in u.c.wheel[Base(t.c, now) % SLOTS] && b in u.c.wheel[Base(t.c, now) % SLOTS]
  {
    var at := Base(t.c, now);
    PassableFacts(t.c, now, at);
    hide CpuInv;
    var p := Pass(t, 0, 0);
    var l := t.c.wheel[at % SLOTS];
    assert l != [] && l[0] in t.c.timers;
    StalledSlot(p, k, at, l[0], now, hook, a, b);
    ExpireAtSpec(p, k, at, now, hook);
    assert ExpireFrom(p, k, at, now, hook) == (ExpireAt(p, k, at, now, hook), at);
  }

  /** Such flows are easy to come by: a flow created with the longest lifetime
      the configuration accepts, in a frame whose pass starts at its own time. */
  lemma LongestLifetimeReturns(c: Cpu, l: Lifetimes, f: nat, key: FlowKey.Key, isReverse: bool, now: nat)
    requires InFrame(c, now) && LifetimeOf(l, key) == SLOTS
    ensures var d := Insert(c, l, f, key, isReverse, now);
            var e := c.timerPool.NextIndex();
            Returns(d, e, now, now) && |d.wheel| == SLOTS && e in d.wheel[now % SLOTS]
  {
    PassableFacts(c, now, Base(c, now));
    var flow := NewFlow(c, l, key, isReverse, now);
    LongestLifetimeEnters(c, f, flow, now, (c.timeIndex + SLOTS) % SLOTS);
  }

  lemma LongestLifetimeEnters(c: Cpu, f: nat, flow: Flow, now: nat, slot: nat)
    requires |c.wheel| == SLOTS && flow.Deadline() == now + SLOTS && slot == now % SLOTS
    ensures var d := Enter(c, f, flow, slot);
            Returns(d, flow.timer, now, now) && |d.wheel| == SLOTS && flow.timer in d.wheel[slot]
  {
    assert (now + SLOTS) % SLOTS == now % SLOTS;
  }
}
