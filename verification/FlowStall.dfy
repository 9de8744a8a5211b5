/** When an expiry pass gets past a slot.  An element whose flow is not due but
    falls due in the slot under visit is put back at the tail of the same list;
    one such element is visited twice, two of them keep the walk going until the
    limit. */
module FlowStall {
  import opened Options
  import opened Pools
  import opened TimerWheel
  import opened FlowTable
  import opened FlowExpiry
  import FP = FlowPool

  // ----- one slot, exactly

  /** A due flow is let go by the hook, or its renewal takes it to another slot. */
  ghost predicate Settles(c: Cpu, e: nat, at: nat, now: nat, hook: nat -> bool) {
    && e in c.timers && c.timers[e] in c.flows
    && (c.flows[c.timers[e]].Deadline() <= now ==>
          (forall n :: !hook(n)) || Renewed(c.flows[c.timers[e]], now).Deadline() % SLOTS != at % SLOTS)
  }

  /** Element x and its flow are the same in both tables. */
  ghost predicate SameElement(c: Cpu, d: Cpu, x: nat) {
    && x in c.timers && x in d.timers && c.timers[x] == d.timers[x]
    && c.timers[x] in c.flows && c.timers[x] in d.flows && c.flows[c.timers[x]] == d.flows[c.timers[x]]
  }

  lemma SameStatus(c: Cpu, d: Cpu, x: nat, at: nat, now: nat, hook: nat -> bool)
    requires SameElement(c, d, x)
    ensures Returns(c, x, at, now) <==> Returns(d, x, at, now)
    ensures Settles(c, x, at, now, hook) <==> Settles(d, x, at, now, hook)
  {
  }

  /** A visit touches no element but its own. */
  lemma VisitTouchesOne(c: Cpu, e: nat, now: nat, givesUp: bool, x: nat)
    requires TimerOk(c, e) && TimerOk(c, x) && e in c.timers && x in c.timers && x != e && |c.wheel| == SLOTS
    ensures SameElement(c, Visited(c, e, now, givesUp), x)
  {
  }

  /** What a visit of the first element leaves of the list. */
  lemma VisitHead(c: Cpu, e: nat, now: nat, givesUp: bool, at: nat)
    requires CpuInv(c, now, at) && at <= now && e in c.timers && TimerOk(c, e)
    requires c.wheel[at % SLOTS] != [] && c.wheel[at % SLOTS][0] == e
    requires givesUp ==> c.flows[c.timers[e]].Deadline() <= now
    requires !givesUp && c.flows[c.timers[e]].Deadline() <= now ==>
               Renewed(c.flows[c.timers[e]], now).Deadline() % SLOTS != at % SLOTS
    ensures var d, l := Visited(c, e, now, givesUp), c.wheel[at % SLOTS];
            && |d.wheel| == SLOTS
            && d.wheel[at % SLOTS] == l[1..] + (if Returns(c, e, at, now) then [e] else [])
            && (Returns(c, e, at, now) ==> Returns(d, e, at, now))
  {
    var l := c.wheel[at % SLOTS];
    WithoutNoDup(l, e);
    assert l[1..] + [] == l[1..];
  }

  /** At most one element of the list comes back. */
  ghost predicate OneReturns(c: Cpu, l: seq<nat>, at: nat, now: nat) {
    forall i, j :: 0 <= i < j < |l| ==> !(Returns(c, l[i], at, now) && Returns(c, l[j], at, now))
  }

  /** An element before the last comes back. */
  ghost predicate EarlyReturn(c: Cpu, l: seq<nat>, at: nat, now: nat) {
    exists i :: 0 <= i < |l| - 1 && Returns(c, l[i], at, now)
  }

  /** The visits still to come, when the first m elements have not been visited
      and the others have come back. */
  ghost function Left(c: Cpu, l: seq<nat>, m: nat, at: nat, now: nat): nat {
    if m < |l| || EarlyReturn(c, l, at, now) then m + 1 else m
  }

  ghost predicate Halfway(c: Cpu, at: nat, m: nat, now: nat, hook: nat -> bool) {
    && |c.wheel| == SLOTS
    && var l := c.wheel[at % SLOTS];
       && m <= |l| <= m + 1 && OneReturns(c, l, at, now)
       && (forall i :: 0 <= i < m ==> Settles(c, l[i], at, now, hook))
       && (forall i :: m <= i < |l| ==> Returns(c, l[i], at, now))
  }

  function Capped(n: nat): nat {
    if n < TIMER_MAX_EXPIRE then n else TIMER_MAX_EXPIRE
  }

  /** One visit on the way: one less to come. */
  lemma HalfwayStep(p: Pass, k: nat, at: nat, index: nat, now: nat, hook: nat -> bool, m: nat) returns (m': nat)
    requires Passable(p.t, k, now, at) && Halfway(p.t.c, at, m, now, hook)
    requires index in p.t.c.timers && TimerOk(p.t.c, index)
    requires p.t.c.wheel[at % SLOTS] != [] && p.t.c.wheel[at % SLOTS][0] == index
    ensures var c, d := p.t.c, Visited(p.t.c, index, now, GivesUp(p, index, now, hook));
            var l, next := c.wheel[at % SLOTS], NextIn(c.wheel[at % SLOTS], index, at % SLOTS);
            if |l| == 1 then next == at % SLOTS && Left(c, l, m, at, now) == 1
            else
              && Halfway(d, at, m', now, hook) && d.wheel[at % SLOTS] != [] && d.wheel[at % SLOTS][0] == next
              && Left(c, l, m, at, now) == 1 + Left(d, d.wheel[at % SLOTS], m', at, now)
  {
    var c, givesUp := p.t.c, GivesUp(p, index, now, hook);
    var l := c.wheel[at % SLOTS];
    m' := if m == 0 then 0 else m - 1;
    if |l| > 1 {
      assert Settles(c, l[0], at, now, hook);
      VisitHead(c, index, now, givesUp, at);
      var d := Visited(c, index, now, givesUp);
      forall i | 1 <= i < |l| ensures SameElement(c, d, l[i]) {
        PassableFacts(c, now, at);
        assert TimerOk(c, l[i]);
        VisitTouchesOne(c, index, now, givesUp, l[i]);
      }
      HalfwayLists(c, d, l, d.wheel[at % SLOTS], m, at, now, hook);
    }
  }

  lemma HalfwayLists(c: Cpu, d: Cpu, l: seq<nat>, l': seq<nat>, m: nat, at: nat, now: nat, hook: nat -> bool)
    requires |l| > 1 && m <= |l| <= m + 1 && OneReturns(c, l, at, now)
    requires forall i :: 0 <= i < m ==> Settles(c, l[i], at, now, hook)
    requires forall i :: m <= i < |l| ==> Returns(c, l[i], at, now)
    requires l' == l[1..] + (if Returns(c, l[0], at, now) then [l[0]] else [])
    requires Returns(c, l[0], at, now) ==> Returns(d, l[0], at, now)
    requires forall i :: 1 <= i < |l| ==> SameElement(c, d, l[i])
    ensures m - 1 <= |l'| <= m && OneReturns(d, l', at, now)
    ensures forall i :: 0 <= i < m - 1 ==> Settles(d, l'[i], at, now, hook)
    ensures forall i :: m - 1 <= i < |l'| ==> Returns(d, l'[i], at, now)
    ensures Left(c, l, m, at, now) == 1 + Left(d, l', m - 1, at, now)
  {
    hide Returns, Settles, SameElement;
    forall i | 1 <= i < |l|
      ensures Returns(c, l[i], at, now) <==> Returns(d, l'[i - 1], at, now)
      ensures Settles(c, l[i], at, now, hook) <==> Settles(d, l'[i - 1], at, now, hook)
    {
      assert l'[i - 1] == l[i];
      SameStatus(c, d, l[i], at, now, hook);
    }
    if Returns(c, l[0], at, now) {
      var last := l[|l| - 1];
      assert m < |l| ==> Returns(c, last, at, now);
      assert EarlyReturn(c, l, at, now);
      forall i, j | 0 <= i < j < |l'| ensures !(Returns(d, l'[i], at, now) && Returns(d, l'[j], at, now)) {
        assert !Returns(c, l[i + 1], at, now);
      }
    } else {
      assert l' == l[1..];
      if EarlyReturn(c, l, at, now) {
        var i :| 0 <= i < |l| - 1 && Returns(c, l[i], at, now);
        assert Returns(d, l'[i - 1], at, now);
      }
      if EarlyReturn(d, l', at, now) {
        var i :| 0 <= i < |l'| - 1 && Returns(d, l'[i], at, now);
        assert Returns(c, l[i + 1], at, now);
      }
    }
  }

  /** From halfway on the walk makes the visits still to come, up to the limit. */
  lemma {:induction false} SlotVisits(p: Pass, k: nat, at: nat, index: nat, now: nat, hook: nat -> bool, m: nat)
    requires Passable(p.t, k, now, at) && p.expired <= TIMER_MAX_EXPIRE && Halfway(p.t.c, at, m, now, hook)
    requires index in p.t.c.timers && p.t.c.wheel[at % SLOTS] != [] && p.t.c.wheel[at % SLOTS][0] == index
    ensures ExpireSlot(p, k, at, index, now, hook).expired
         == Capped(p.expired + Left(p.t.c, p.t.c.wheel[at % SLOTS], m, at, now))
    decreases TIMER_MAX_EXPIRE - p.expired
  {
    SlotHeadNotLinked(p.t.c, now, at, at % SLOTS);
    assert index != at % SLOTS;
    if p.expired < TIMER_MAX_EXPIRE {
      PassableFacts(p.t.c, now, at);
      hide CpuInv, Halfway, Left;
      VisitPassable(p, k, index, now, hook, at);
      NextInSpec(p.t.c.wheel[at % SLOTS], index, at % SLOTS);
      var q := ExpireSingle(p, k, index, now, hook);
      var m' := HalfwayStep(p, k, at, index, now, hook, m);
      var next := NextIn(p.t.c.wheel[at % SLOTS], index, at % SLOTS);
      if |p.t.c.wheel[at % SLOTS]| > 1 {
        PassableFacts(q.t.c, now, at);
        SlotVisits(q, k, at, next, now, hook, m');
      }
    }
  }

  /** The visits a slot takes if at most one element comes back: one each, and
      one more if that element is not the last. */
  ghost function Visits(c: Cpu, at: nat, now: nat): nat
    requires |c.wheel| == SLOTS
  {
    Left(c, c.wheel[at % SLOTS], |c.wheel[at % SLOTS]|, at, now)
  }

  ghost predicate AllSettle(c: Cpu, at: nat, now: nat, hook: nat -> bool)
    requires |c.wheel| == SLOTS
  {
    forall i :: 0 <= i < |c.wheel[at % SLOTS]| ==> Settles(c, c.wheel[at % SLOTS][i], at, now, hook)
  }

  /** A pass gets past a slot under the limit if and only if at most one element
      comes back and the visits fit; the condition is on deadlines and lists
      before the visit. */
  lemma ExpireAtExactly(p: Pass, k: nat, at: nat, now: nat, hook: nat -> bool)
    requires Passable(p.t, k, now, at) && p.expired < TIMER_MAX_EXPIRE
    requires |p.t.c.wheel| == SLOTS && AllSettle(p.t.c, at, now, hook)
    ensures var c, q := p.t.c, ExpireAt(p, k, at, now, hook);
            var one := OneReturns(c, c.wheel[at % SLOTS], at, now);
            && (q.expired < TIMER_MAX_EXPIRE <==> one && p.expired + Visits(c, at, now) < TIMER_MAX_EXPIRE)
            && q.expired == if one then Capped(p.expired + Visits(c, at, now)) else TIMER_MAX_EXPIRE
  {
    PassableFacts(p.t.c, now, at);
    var c := p.t.c;
    var l := c.wheel[at % SLOTS];
    hide CpuInv, Settles, Returns, ExpireSlot;
    if OneReturns(c, l, at, now) {
      if l != [] {
        SlotVisits(p, k, at, l[0], now, hook, |l|);
      }
    } else {
      var i, j :| 0 <= i < j < |l| && Returns(c, l[i], at, now) && Returns(c, l[j], at, now);
      StalledSlot(p, k, at, l[0], now, hook, l[i], l[j]);
    }
  }

  // ----- a guard for the whole pass

  /** Every live flow's lifetime, counted from now, ends before the first slot to
      check comes round again. */
  ghost predicate Short(c: Cpu, now: nat, from: nat) {
    forall f :: f in c.flows ==> now + c.flows[f].lifetime < from + SLOTS
  }

  lemma NotATurnLater(at: nat, d: nat)
    requires at < d < at + SLOTS
    ensures d % SLOTS != at % SLOTS
  {
  }

  /** Then no element comes back to its slot, whatever the hook answers. */
  lemma ShortNeverReturns(c: Cpu, e: nat, at: nat, now: nat, from: nat, hook: nat -> bool)
    requires CpuInv(c, now, at) && from <= at <= now && Short(c, now, from)
    requires e in c.timers && TimerOk(c, e)
    ensures !Returns(c, e, at, now) && Settles(c, e, at, now, hook)
  {
    var flow := c.flows[c.timers[e]];
    OnTimeMeansNotOverdue(c.wheel, Due(c), c.timers.Keys, at, e);
    if flow.Deadline() > now {
      NotATurnLater(at, flow.Deadline());
    } else {
      NotATurnLater(at, flow.Deadline() + flow.lifetime);
    }
  }

  /** So each slot takes one visit per element. */
  lemma ShortSlot(p: Pass, k: nat, at: nat, now: nat, from: nat, hook: nat -> bool)
    requires Passable(p.t, k, now, at) && p.expired < TIMER_MAX_EXPIRE && from <= at && Short(p.t.c, now, from)
    ensures |p.t.c.wheel| == SLOTS
    ensures ExpireAt(p, k, at, now, hook).expired == Capped(p.expired + |p.t.c.wheel[at % SLOTS]|)
  {
    var c := p.t.c;
    PassableFacts(c, now, at);
    var l := c.wheel[at % SLOTS];
    forall i | 0 <= i < |l| ensures !Returns(c, l[i], at, now) && Settles(c, l[i], at, now, hook) {
      assert TimerOk(c, l[i]);
      ShortNeverReturns(c, l[i], at, now, from, hook);
    }
    hide CpuInv, Returns, Settles, ExpireAt;
    ExpireAtExactly(p, k, at, now, hook);
  }

  /** The elements in the slots to be visited. */
  ghost function Waiting(c: Cpu, at: nat, now: nat): nat
    requires |c.wheel| == SLOTS
    decreases now + 1 - at
  {
    if at > now then 0 else |c.wheel[at % SLOTS]| + Waiting(c, at + 1, now)
  }

  /** Visits of slot `at` leave the later slot b of the same pass alone. */
  ghost predicate LaterSame(c: Cpu, d: Cpu, b: nat) {
    && |c.wheel| == |d.wheel| == SLOTS && d.wheel[b % SLOTS] == c.wheel[b % SLOTS]
    && d.flows.Keys <= c.flows.Keys && forall f :: f in d.flows ==> d.flows[f] == c.flows[f]
  }

  lemma ShortVisit(c: Cpu, e: nat, at: nat, now: nat, from: nat, b: nat)
    requires CpuInv(c, now, at) && from <= at < b <= now && Short(c, now, from)
    requires e in c.timers && TimerOk(c, e) && e in c.wheel[at % SLOTS]
    ensures LaterSame(c, Visited(c, e, now, c.flows[c.timers[e]].Deadline() <= now), b)
  {
    var flow := c.flows[c.timers[e]];
    assert now + flow.lifetime < from + SLOTS;
    assert flow.active <= now;
    NotATurnLater(at, b);
    assert e !in c.wheel[b % SLOTS];
    WithoutNoDup(c.wheel[b % SLOTS], e);
    if flow.Deadline() > now {
      NotATurnLater(b, flow.Deadline());
    }
  }

  /** Visiting e leaves the others of its list where they are. */
  lemma NextStays(c: Cpu, e: nat, now: nat, givesUp: bool, slot: nat, x: nat)
    requires |c.wheel| == SLOTS && slot < SLOTS && e in c.timers && c.timers[e] in c.flows && c.flows[c.timers[e]].timer == e
    ensures |Visited(c, e, now, givesUp).wheel| == SLOTS
    ensures x in c.wheel[slot] && x != e ==> x in Visited(c, e, now, givesUp).wheel[slot]
    ensures x !in c.wheel[slot] && x != e ==> x !in Visited(c, e, now, givesUp).wheel[slot]
  {
  }

  lemma {:induction false} ShortWalk(p: Pass, k: nat, at: nat, index: nat, now: nat, from: nat, hook: nat -> bool, b: nat)
    requires Passable(p.t, k, now, at) && from <= at < b <= now && Short(p.t.c, now, from) && forall n :: !hook(n)
    requires |p.t.c.wheel| == SLOTS && (index == at % SLOTS || (index in p.t.c.timers && index in p.t.c.wheel[at % SLOTS]))
    ensures LaterSame(p.t.c, ExpireSlot(p, k, at, index, now, hook).t.c, b)
    decreases TIMER_MAX_EXPIRE - p.expired
  {
    if index != at % SLOTS && p.expired < TIMER_MAX_EXPIRE {
      var c, l := p.t.c, p.t.c.wheel[at % SLOTS];
      PassableFacts(c, now, at);
      VisitPassable(p, k, index, now, hook, at);
      NextInSpec(l, index, at % SLOTS);
      ShortVisit(c, index, at, now, from, b);
      var q := ExpireSingle(p, k, index, now, hook);
      var next := NextIn(l, index, at % SLOTS);
      hide CpuInv, ExpireSingle, Visited, LaterSame, Short;
      PassableFacts(q.t.c, now, at);
      LaterShort(c, q.t.c, b, now, from);
      NextStays(c, index, now, GivesUp(p, index, now, hook), at % SLOTS, next);
      ShortWalk(q, k, at, next, now, from, hook, b);
      LaterTrans(c, q.t.c, ExpireSlot(q, k, at, next, now, hook).t.c, b);
    }
  }

  lemma LaterTrans(c: Cpu, d: Cpu, e: Cpu, b: nat)
    requires LaterSame(c, d, b) && LaterSame(d, e, b)
    ensures LaterSame(c, e, b)
  {
  }

  lemma LaterShort(c: Cpu, d: Cpu, b: nat, now: nat, from: nat)
    requires LaterSame(c, d, b) && Short(c, now, from)
    ensures Short(d, now, from)
  {
  }

  lemma {:induction false} SameWaiting(c: Cpu, d: Cpu, at: nat, now: nat)
    requires |c.wheel| == |d.wheel| == SLOTS && forall b: nat :: at <= b <= now ==> LaterSame(c, d, b)
    ensures Waiting(c, at, now) == Waiting(d, at, now)
    decreases now + 1 - at
  {
    if at <= now {
      assert LaterSame(c, d, at);
      SameWaiting(c, d, at + 1, now);
    }
  }

  lemma ShortLater(p: Pass, k: nat, at: nat, now: nat, from: nat, hook: nat -> bool)
    requires Passable(p.t, k, now, at) && from <= at && Short(p.t.c, now, from) && forall n :: !hook(n)
    ensures var d := ExpireAt(p, k, at, now, hook).t.c;
            && |p.t.c.wheel| == |d.wheel| == SLOTS
            && Waiting(d, at + 1, now) == Waiting(p.t.c, at + 1, now)
            && (at < now ==> Short(d, now, from))
  {
    PassableFacts(p.t.c, now, at);
    hide CpuInv, ExpireSlot, Short, Waiting, LaterSame;
    var c, q := p.t.c, ExpireAt(p, k, at, now, hook);
    var l := c.wheel[at % SLOTS];
    if l != [] {
      SlotPasses(p, k, at, l[0], now, hook);
    }
    forall b: nat | at + 1 <= b <= now ensures LaterSame(c, q.t.c, b) {
      if l != [] {
        ShortWalk(p, k, at, l[0], now, from, hook, b);
      } else {
        LaterItself(c, b);
      }
    }
    if at < now {
      LaterShort(c, q.t.c, now, now, from);
    }
    SameWaiting(c, q.t.c, at + 1, now);
  }

  lemma LaterItself(c: Cpu, b: nat)
    requires |c.wheel| == SLOTS
    ensures LaterSame(c, c, b)
  {
  }

  lemma WaitingStep(c: Cpu, at: nat, now: nat)
    requires |c.wheel| == SLOTS
    ensures Waiting(c, at, now) == if at > now then 0 else |c.wheel[at % SLOTS]| + Waiting(c, at + 1, now)
  {
  }

  lemma {:induction false} SlotPasses(p: Pass, k: nat, at: nat, index: nat, now: nat, hook: nat -> bool)
    requires Passable(p.t, k, now, at)
    requires index == at % SLOTS || index in p.t.c.timers
    ensures Passable(ExpireSlot(p, k, at, index, now, hook).t, k, now, at)
    ensures |ExpireSlot(p, k, at, index, now, hook).t.c.wheel| == SLOTS
    decreases TIMER_MAX_EXPIRE - p.expired
  {
    PassableFacts(p.t.c, now, at);
    hide CpuInv, ExpireSingle;
    if index != at % SLOTS && p.expired < TIMER_MAX_EXPIRE {
      VisitPassable(p, k, index, now, hook, at);
      NextInSpec(p.t.c.wheel[at % SLOTS], index, at % SLOTS);
      SlotPasses(ExpireSingle(p, k, index, now, hook), k, at,
                 NextIn(p.t.c.wheel[at % SLOTS], index, at % SLOTS), now, hook);
    }
  }

  /** A pass about to visit the slot of time `at`. */
  ghost predicate Ready(p: Pass, k: nat, at: nat, now: nat, from: nat) {
    && p.expired < TIMER_MAX_EXPIRE && k < |p.t.pool.caches| && from <= at <= now + 1 && CpuInv(p.t.c, now, at)
    && (at <= now ==> Short(p.t.c, now, from)) && |p.t.c.wheel| == SLOTS
  }

  /** What it will have handled at its end. */
  ghost function Expected(p: Pass, at: nat, now: nat): nat
    requires |p.t.c.wheel| == SLOTS
  {
    Capped(p.expired + Waiting(p.t.c, at, now))
  }

  lemma ShortStep(p: Pass, k: nat, at: nat, now: nat, from: nat, hook: nat -> bool)
    requires Ready(p, k, at, now, from) && at <= now && forall n :: !hook(n)
    ensures var q := ExpireAt(p, k, at, now, hook);
            && |q.t.c.wheel| == SLOTS
            && (q.expired >= TIMER_MAX_EXPIRE ==> q.expired == Expected(p, at, now))
            && (q.expired < TIMER_MAX_EXPIRE ==> Ready(q, k, at + 1, now, from) && Expected(q, at + 1, now) == Expected(p, at, now))
  {
    WaitingStep(p.t.c, at, now);
    hide CpuInv, ExpireAt, Short, Waiting, Capped;
    ExpireAtSpec(p, k, at, now, hook);
    ShortSlot(p, k, at, now, from, hook);
    ShortLater(p, k, at, now, from, hook);
    CappedSum(p.expired + |p.t.c.wheel[at % SLOTS]|, Waiting(p.t.c, at + 1, now));
  }

  /** The rest of a pass, from one slot to the next. */
  lemma ShortNext(p: Pass, k: nat, at: nat, now: nat, from: nat, hook: nat -> bool) returns (q: Pass)
    requires Ready(p, k, at, now, from) && at <= now && forall n :: !hook(n)
    ensures if q.expired >= TIMER_MAX_EXPIRE then ExpireFrom(p, k, at, now, hook).0.expired == Expected(p, at, now)
            else
              && Ready(q, k, at + 1, now, from) && Expected(q, at + 1, now) == Expected(p, at, now)
              && ExpireFrom(p, k, at, now, hook) == ExpireFrom(q, k, at + 1, now, hook)
  {
    hide CpuInv, ExpireAt, ExpireFrom, Expected;
    FromStep(p, k, at, now, hook);
    ShortStep(p, k, at, now, from, hook);
    q := ExpireAt(p, k, at, now, hook);
  }

  lemma {:induction false} ShortFrom(p: Pass, k: nat, at: nat, now: nat, from: nat, hook: nat -> bool)
    requires Ready(p, k, at, now, from) && forall n :: !hook(n)
    ensures ExpireFrom(p, k, at, now, hook).0.expired == Expected(p, at, now)
    decreases now + 1 - at
  {
    hide CpuInv, ExpireFrom, Expected, Short;
    if at <= now {
      var q := ShortNext(p, k, at, now, from, hook);
      if q.expired < TIMER_MAX_EXPIRE {
        ShortFrom(q, k, at + 1, now, from, hook);
      }
    } else {
      FromStep(p, k, at, now, hook);
      ShortEnd(p, k, at, now, from);
    }
  }

  lemma ShortEnd(p: Pass, k: nat, at: nat, now: nat, from: nat)
    requires Ready(p, k, at, now, from) && at > now
    ensures Expected(p, at, now) == p.expired
  {
    hide CpuInv;
  }

  lemma CappedSum(n: nat, m: nat)
    ensures Capped(n) < TIMER_MAX_EXPIRE ==> Capped(n) == n
    ensures Capped(n) >= TIMER_MAX_EXPIRE ==> Capped(n) == Capped(n + m) == TIMER_MAX_EXPIRE
    ensures n < TIMER_MAX_EXPIRE ==> Capped(n) == n
  {
  }

  lemma FromStep(p: Pass, k: nat, at: nat, now: nat, hook: nat -> bool)
    requires p.expired < TIMER_MAX_EXPIRE && k < |p.t.pool.caches| && at <= now + 1 && CpuInv(p.t.c, now, at)
    ensures at > now ==> ExpireFrom(p, k, at, now, hook) == (p, at)
    ensures at <= now ==>
              var q := ExpireAt(p, k, at, now, hook);
              if q.expired >= TIMER_MAX_EXPIRE then ExpireFrom(p, k, at, now, hook) == (q, at)
              else
                && k < |q.t.pool.caches| && CpuInv(q.t.c, now, at + 1)
                && ExpireFrom(p, k, at, now, hook) == ExpireFrom(q, k, at + 1, now, hook)
  {
    hide CpuInv, ExpireAt;
    if at <= now {
      ExpireAtSpec(p, k, at, now, hook);
    }
  }

  /** A pass over flows whose lifetimes are short of a turn, and that the hook
      lets go, handles exactly the elements waiting in the slots from the first
      one to check up to now, at most 256: it gets through if and only if they
      are fewer. */
  lemma ShortPass(t: Table, k: nat, now: nat, hook: nat -> bool)
    requires k < |t.pool.caches| && InFrame(t.c, now) && Short(t.c, now, Base(t.c, now)) && forall n :: !hook(n)
    ensures |t.c.wheel| == SLOTS
    ensures TimerExpire(t, k, now, hook).1 == Capped(Waiting(t.c, Base(t.c, now), now))
  {
    var at := Base(t.c, now);
    PassableFacts(t.c, now, at);
    hide CpuInv, Short;
    if at <= now {
      ShortFrom(Pass(t, 0, 0), k, at, now, at, hook);
    }
  }

  // ----- what a stalled pass leaves behind

  /** A walk touches the elements of its own slot only. */
  lemma {:induction false} WalkKeepsOthers(p: Pass, k: nat, at: nat, index: nat, now: nat, hook: nat -> bool, x: nat)
    requires Passable(p.t, k, now, at) && |p.t.c.wheel| == SLOTS
    requires index == at % SLOTS || (index in p.t.c.timers && index in p.t.c.wheel[at % SLOTS])
    requires x in p.t.c.timers && x !in p.t.c.wheel[at % SLOTS]
    ensures var d := ExpireSlot(p, k, at, index, now, hook).t.c;
            && SameElement(p.t.c, d, x) && |d.wheel| == SLOTS
            && forall s :: 0 <= s < SLOTS ==> (x in d.wheel[s] <==> x in p.t.c.wheel[s])
    decreases TIMER_MAX_EXPIRE - p.expired
  {
    var c, l := p.t.c, p.t.c.wheel[at % SLOTS];
    assert TimerOk(c, x);
    if index != at % SLOTS && p.expired < TIMER_MAX_EXPIRE {
      PassableFacts(c, now, at);
      hide CpuInv;
      VisitPassable(p, k, index, now, hook, at);
      NextInSpec(l, index, at % SLOTS);
      var givesUp := GivesUp(p, index, now, hook);
      var q := ExpireSingle(p, k, index, now, hook);
      var next := NextIn(l, index, at % SLOTS);
      VisitTouchesOne(c, index, now, givesUp, x);
      NextStays(c, index, now, givesUp, at % SLOTS, next);
      forall s | 0 <= s < SLOTS ensures x in q.t.c.wheel[s] <==> x in c.wheel[s] {
        NextStays(c, index, now, givesUp, s, x);
      }
      PassableFacts(q.t.c, now, at);
      hide ExpireSingle, Visited;
      WalkKeepsOthers(q, k, at, next, now, hook, x);
    }
  }

  /** A stalled pass leaves every element outside the first slot to check as it
      was, however overdue its flow is. */
  lemma StalledKeepsOthers(t: Table, k: nat, now: nat, hook: nat -> bool, a: nat, b: nat, x: nat)
    requires k < |t.pool.caches| && InFrame(t.c, now) && Base(t.c, now) <= now && a != b
    requires Returns(t.c, a, Base(t.c, now), now) && Returns(t.c, b, Base(t.c, now), now)
    requires a in t.c.wheel[Base(t.c, now) % SLOTS] && b in t.c.wheel[Base(t.c, now) % SLOTS]
    requires x in t.c.timers && x !in t.c.wheel[Base(t.c, now) % SLOTS]
    ensures var u := TimerExpire(t, k, now, hook).0.c;
            && SameElement(t.c, u, x) && |u.wheel| == SLOTS
            && forall s :: 0 <= s < SLOTS ==> (x in u.wheel[s] <==> x in t.c.wheel[s])
  {
    var at, p := Base(t.c, now), Pass(t, 0, 0);
    PassableFacts(t.c, now, at);
    var l := t.c.wheel[at % SLOTS];
    hide CpuInv, ExpireSlot, Returns;
    StalledSlot(p, k, at, l[0], now, hook, a, b);
    FromStep(p, k, at, now, hook);
    WalkKeepsOthers(p, k, at, l[0], now, hook, x);
  }
}
