/** What the expiration hook decides: a due flow is given up exactly if the hook
    lets it go, and goes on for another lifetime if the hook keeps it. */
module FlowHook {
  import opened Options
  import opened Pools
  import opened TimerWheel
  import opened FlowKey
  import opened FlowTable
  import opened FlowExpiry
  import FP = FlowPool

  // ----- one visit

  /** The flow is gone: from the hash, the flows, the elements and every list. */
  ghost predicate Gone(c: Cpu, d: Cpu, e: nat)
    requires e in c.timers && c.timers[e] in c.flows
  {
    && d.flows == c.flows - {c.timers[e]} && d.ht == c.ht - {c.flows[c.timers[e]].key}
    && d.timers == c.timers - {e} && |d.wheel| == SLOTS && forall s :: 0 <= s < SLOTS ==> e !in d.wheel[s]
  }

  /** The flow is kept under its key, falls due a lifetime later, and waits in the
      slot of that time; no other flow changes. */
  ghost predicate KeptOn(c: Cpu, d: Cpu, e: nat)
    requires e in c.timers && c.timers[e] in c.flows
  {
    var f := c.timers[e];
    && d.ht == c.ht && d.timers == c.timers && f in d.flows && d.flows == c.flows[f := d.flows[f]]
    && d.flows[f].key == c.flows[f].key && d.flows[f].lifetime == c.flows[f].lifetime
    && d.flows[f].Deadline() == c.flows[f].Deadline() + c.flows[f].lifetime
    && |d.wheel| == SLOTS && e in d.wheel[d.flows[f].Deadline() % SLOTS]
  }

  /** A visit asks the hook exactly about due flows; what it answers decides. */
  lemma VisitOutcome(p: Pass, k: nat, e: nat, now: nat, hook: nat -> bool)
    requires k < |p.t.pool.caches| && |p.t.c.wheel| == SLOTS && e in p.t.c.timers
    requires TimerOk(p.t.c, e) && TimersAllocated(p.t.c)
    ensures var c, q := p.t.c, ExpireSingle(p, k, e, now, hook);
            var due := c.flows[c.timers[e]].Deadline() <= now;
            && q.asked == (if due then p.asked + 1 else p.asked)
            && (due && !hook(p.asked) ==> Gone(c, q.t.c, e))
            && (due && hook(p.asked) ==> KeptOn(c, q.t.c, e))
            && (!due ==> q.t.c.flows == c.flows && q.t.c.ht == c.ht && q.t.c.timers == c.timers)
  {
    hide FP.Freed;
  }

  // ----- whole passes

  /** How many of the answers i, i + 1, ... before j let a flow go. */
  function LetGo(hook: nat -> bool, i: nat, j: nat): nat
    decreases j
  {
    if j <= i then 0 else LetGo(hook, i, j - 1) + if hook(j - 1) then 0 else 1
  }

  lemma {:induction false} LetGoAdds(hook: nat -> bool, i: nat, j: nat, k: nat)
    requires i <= j <= k
    ensures LetGo(hook, i, k) == LetGo(hook, i, j) + LetGo(hook, j, k)
    decreases k
  {
    if j < k {
      LetGoAdds(hook, i, j, k - 1);
    }
  }

  lemma {:induction false} LetGoNone(hook: nat -> bool, i: nat, j: nat)
    requires forall n :: hook(n)
    ensures LetGo(hook, i, j) == 0
    decreases j
  {
    if i < j {
      LetGoNone(hook, i, j - 1);
    }
  }

  /** The flows that went are as many as the answers that let one go; survivors
      keep their keys, and all they hold if the hook keeps none. */
  ghost predicate Answered(p: Pass, q: Pass, hook: nat -> bool) {
    FlowsAnswered(p.t.c.flows, p.asked, q.t.c.flows, q.asked, hook)
  }

  ghost predicate FlowsAnswered(c: map<nat, Flow>, i: nat, d: map<nat, Flow>, j: nat, hook: nat -> bool) {
    && i <= j && d.Keys <= c.Keys
    && |c.Keys| == |d.Keys| + LetGo(hook, i, j)
    && (forall f :: f in d ==> d[f].key == c[f].key)
    && ((forall n :: !hook(n)) ==> forall f :: f in d ==> d[f] == c[f])
  }

  lemma AnsweredNothing(p: Pass, hook: nat -> bool)
    ensures Answered(p, p, hook)
  {
  }

  lemma AnsweredInTurn(p: Pass, q: Pass, r: Pass, hook: nat -> bool)
    requires Answered(p, q, hook) && Answered(q, r, hook)
    ensures Answered(p, r, hook)
  {
    LetGoAdds(hook, p.asked, q.asked, r.asked);
    hide LetGo;
  }

  lemma VisitAnswers(p: Pass, k: nat, e: nat, now: nat, hook: nat -> bool)
    requires k < |p.t.pool.caches| && |p.t.c.wheel| == SLOTS && e in p.t.c.timers
    requires TimerOk(p.t.c, e) && TimersAllocated(p.t.c)
    ensures Answered(p, ExpireSingle(p, k, e, now, hook), hook)
  {
    VisitOutcome(p, k, e, now, hook);
    hide ExpireSingle, TimersAllocated, FlowsAnswered;
    var c, q, f := p.t.c, ExpireSingle(p, k, e, now, hook), p.t.c.timers[e];
    if c.flows[f].Deadline() > now {
      AnsweredNothing(p, hook);
    } else if hook(p.asked) {
      KeepAnswers(c.flows, f, q.t.c.flows[f], p.asked, hook);
    } else {
      GoneAnswers(c.flows, f, p.asked, hook);
    }
  }

  lemma LetGoOne(hook: nat -> bool, i: nat)
    ensures LetGo(hook, i, i + 1) == if hook(i) then 0 else 1
  {
  }

  lemma GoneAnswers(c: map<nat, Flow>, f: nat, i: nat, hook: nat -> bool)
    requires f in c && !hook(i)
    ensures FlowsAnswered(c, i, c - {f}, i + 1, hook)
  {
    LetGoOne(hook, i);
    hide LetGo;
    assert (c - {f}).Keys == c.Keys - {f};
  }

  lemma KeepAnswers(c: map<nat, Flow>, f: nat, flow: Flow, i: nat, hook: nat -> bool)
    requires f in c && hook(i) && flow.key == c[f].key
    ensures FlowsAnswered(c, i, c[f := flow], i + 1, hook)
  {
    LetGoOne(hook, i);
    hide LetGo;
    assert c[f := flow].Keys == c.Keys;
  }

  lemma {:induction false} SlotAnswers(p: Pass, k: nat, at: nat, index: nat, now: nat, hook: nat -> bool)
    requires Passable(p.t, k, now, at)
    requires index == at % SLOTS || index in p.t.c.timers
    ensures Answered(p, ExpireSlot(p, k, at, index, now, hook), hook)
    decreases TIMER_MAX_EXPIRE - p.expired
  {
    AnsweredNothing(p, hook);
    if index != at % SLOTS && p.expired < TIMER_MAX_EXPIRE {
      assert TimersAllocated(p.t.c);
      PassableFacts(p.t.c, now, at);
      hide CpuInv, Answered, TimersAllocated, ExpireSingle;
      VisitPassable(p, k, index, now, hook, at);
      NextInSpec(p.t.c.wheel[at % SLOTS], index, at % SLOTS);
      var q := ExpireSingle(p, k, index, now, hook);
      var next := NextIn(p.t.c.wheel[at % SLOTS], index, at % SLOTS);
      VisitAnswers(p, k, index, now, hook);
      SlotAnswers(q, k, at, next, now, hook);
      AnsweredInTurn(p, q, ExpireSlot(q, k, at, next, now, hook), hook);
    }
  }

  lemma {:induction false} FromAnswers(p: Pass, k: nat, at: nat, now: nat, hook: nat -> bool)
    requires p.expired < TIMER_MAX_EXPIRE && k < |p.t.pool.caches| && at <= now + 1 && CpuInv(p.t.c, now, at)
    ensures Answered(p, ExpireFrom(p, k, at, now, hook).0, hook)
    decreases now + 1 - at
  {
    AnsweredNothing(p, hook);
    hide Answered;
    if at <= now {
      PassableFacts(p.t.c, now, at);
      hide CpuInv, ExpireSlot;
      var l := p.t.c.wheel[at % SLOTS];
      if l != [] {
        SlotAnswers(p, k, at, l[0], now, hook);
      }
      ExpireAtSpec(p, k, at, now, hook);
      var q := ExpireAt(p, k, at, now, hook);
      hide ExpireAt;
      if q.expired != TIMER_MAX_EXPIRE {
        FromAnswers(q, k, at + 1, now, hook);
        AnsweredInTurn(p, q, ExpireFrom(q, k, at + 1, now, hook).0, hook);
      }
    }
  }

  // ----- what a pass leaves

  /** Whatever the hook answers, a pass removes as many flows as there were
      answers to let one go; `asked` is how often it asked. */
  lemma PassAnswers(t: Table, k: nat, now: nat, hook: nat -> bool) returns (asked: nat)
    requires k < |t.pool.caches| && InFrame(t.c, now)
    ensures FlowsAnswered(t.c.flows, 0, TimerExpire(t, k, now, hook).0.c.flows, asked, hook)
  {
    hide CpuInv;
    asked := 0;
    AnsweredNothing(Pass(t, 0, 0), hook);
    if now >= Base(t.c, now) {
      FromAnswers(Pass(t, 0, 0), k, Base(t.c, now), now, hook);
      asked := ExpireFrom(Pass(t, 0, 0), k, Base(t.c, now), now, hook).0.asked;
    }
  }

  /** The hash is what the flows' keys make it. */
  lemma HashFollows(c: Cpu, d: Cpu)
    requires Bijection(c) && Bijection(d) && d.flows.Keys <= c.flows.Keys
    requires forall f :: f in d.flows ==> d.flows[f].key == c.flows[f].key
    ensures forall key :: key in d.ht <==> key in c.ht && c.ht[key] in d.flows
    ensures forall key :: key in d.ht ==> d.ht[key] == c.ht[key]
  {
    forall key ensures (key in d.ht <==> key in c.ht && c.ht[key] in d.flows) && (key in d.ht ==> d.ht[key] == c.ht[key]) {
      assert KeyOk(c, key);
      assert KeyOk(d, key);
      if key in d.ht {
        assert FlowOk(c, d.ht[key]);
      }
      if key in c.ht && c.ht[key] in d.flows {
        assert FlowOk(d, c.ht[key]);
      }
    }
  }

  lemma SameSize<T>(a: set<T>, b: set<T>)
    requires a <= b && |a| == |b|
    ensures a == b
  {
    assert |b - a| == |b| - |a|;
  }

  /** A hook that keeps every flow: no flow and no hash entry goes. */
  lemma KeepAll(t: Table, k: nat, now: nat, hook: nat -> bool)
    requires k < |t.pool.caches| && InFrame(t.c, now) && forall n :: hook(n)
    ensures var u := TimerExpire(t, k, now, hook).0.c;
            u.flows.Keys == t.c.flows.Keys && u.ht == t.c.ht
  {
    var u := TimerExpire(t, k, now, hook).0.c;
    var asked := PassAnswers(t, k, now, hook);
    LetGoNone(hook, 0, asked);
    NoOverdueSurvivors(t, k, now, hook);
    SameSize(u.flows.Keys, t.c.flows.Keys);
    HashFollows(t.c, u);
    forall key | key in t.c.ht ensures t.c.ht[key] in u.flows {
      assert KeyOk(t.c, key);
    }
    hide TimerExpire, InFrame, Bijection;
    assert u.ht == t.c.ht;
  }

  /** A hook that keeps none: every survivor is as it was, and after a pass under
      the limit the survivors are exactly the flows that were not due, with their
      hash entries. */
  lemma LetAllGo(t: Table, k: nat, now: nat, hook: nat -> bool)
    requires k < |t.pool.caches| && InFrame(t.c, now) && forall n :: !hook(n)
    ensures var (u, n) := TimerExpire(t, k, now, hook);
            && (forall f :: f in u.c.flows ==> f in t.c.flows && u.c.flows[f] == t.c.flows[f])
            && (n < TIMER_MAX_EXPIRE ==>
                  && u.c.flows == (map f | f in t.c.flows && t.c.flows[f].Deadline() > now :: t.c.flows[f])
                  && u.c.ht == (map key | key in t.c.ht && t.c.ht[key] in t.c.flows
                                          && t.c.flows[t.c.ht[key]].Deadline() > now :: t.c.ht[key]))
  {
    var asked := PassAnswers(t, k, now, hook);
    NoOverdueSurvivors(t, k, now, hook);
    NoPrematureExpiry(t, k, now, hook);
    var u, n := TimerExpire(t, k, now, hook).0.c, TimerExpire(t, k, now, hook).1;
    hide TimerExpire;
    if n < TIMER_MAX_EXPIRE {
      assert Bijection(t.c) && Bijection(u);
      hide CpuInv, Spares, NothingOverdue, LetGo, Bijection;
      ExactSurvivors(t.c, u, now);
    }
  }

  lemma ExactSurvivors(c: Cpu, u: Cpu, now: nat)
    requires Bijection(c) && Bijection(u) && Spares(c, u, now) && NothingOverdue(u, now)
    requires forall f :: f in u.flows ==> f in c.flows && u.flows[f] == c.flows[f]
    ensures u.flows == map f | f in c.flows && c.flows[f].Deadline() > now :: c.flows[f]
    ensures u.ht == map key | key in c.ht && c.ht[key] in c.flows && c.flows[c.ht[key]].Deadline() > now :: c.ht[key]
  {
    HashFollows(c, u);
    hide Bijection;
    forall f ensures f in u.flows <==> f in c.flows && c.flows[f].Deadline() > now {
    }
    hide Spares, NothingOverdue;
  }
}
