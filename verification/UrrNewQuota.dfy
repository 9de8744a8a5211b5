/** Quotas across updates: what the merge after an update charges to the quota,
    and what enforcement then lets through. */
module UrrNewQuota {
  import opened Options
  import opened UrrUsage
  import opened UrrQuota

  // ----- enforcement from any state of the counters

  /** Packets are not refused: no second monitoring time is set. */
  predicate Steady(u: Urr) {
    u.volume && !(u.after && u.monitor.Some?)
  }

  /** The packets take the counter from below its quota to it. */
  predicate Crosses(u: Urr, ps: seq<Packet>, d: Direction) {
    Get(u.quota, d) != 0 && Get(u.consumed, d) < Get(u.quota, d) <= Get(u.consumed, d) + Charged(ps, d)
  }

  lemma {:induction false} SteadyAfter(u: Urr, ps: seq<Packet>, d: Direction)
    requires Steady(u)
    ensures var t := After(u, ps);
            && Steady(t) && t.quota == u.quota && t.newQuota == u.newQuota
            && Get(t.consumed, d) == Get(u.consumed, d) + Charged(ps, d)
    decreases |ps|
  {
    if ps != [] {
      var k := |ps| - 1;
      SteadyAfter(u, ps[..k], d);
      ProcessStep(After(u, ps[..k]), ps[k], d);
      SameFlag(After(u, ps[..k]), ps[k]);
      hide Process;
    }
  }

  lemma SameFlag(u: Urr, p: Packet)
    ensures Process(u, p).newQuota == u.newQuota && Process(u, p).quota == u.quota
  {
  }

  lemma SignalCrosses(u: Urr, ps: seq<Packet>, d: Direction)
    requires Steady(u) && ps != []
    ensures var k := |ps| - 1;
            Crosses(u, ps, d) <==> Crosses(u, ps[..k], d) || Signals(After(u, ps[..k]), ps[k], d)
  {
    SteadyAfter(u, ps[..|ps| - 1], d);
    hide After;
  }

  /** A rule is over its quota exactly if it was, or some counter went from below
      its quota to it; a counter that starts above its quota never shows. */
  lemma {:induction false} OverExactly(u: Urr, ps: seq<Packet>)
    requires Steady(u)
    ensures After(u, ps).over <==> u.over || exists d :: Crosses(u, ps, d)
    decreases |ps|
  {
    if ps != [] {
      var k := |ps| - 1;
      var t := After(u, ps[..k]);
      OverExactly(u, ps[..k]);
      SteadyAfter(u, ps[..k], Both);
      ProcessStep(t, ps[k], Both);
      ExhaustsMeaning(t, ps[k]);
      assert After(u, ps).over <==> t.over || exists d :: Signals(t, ps[k], d);
      forall d ensures Crosses(u, ps, d) <==> Crosses(u, ps[..k], d) || Signals(t, ps[k], d) {
        SignalCrosses(u, ps, d);
      }
      hide Crosses, Signals, Process, Exhausts, After;
    }
  }

  /** Packet k is dropped exactly if the rule was over its quota at the start or
      some counter goes from below its quota to it up to this packet. */
  lemma EnforcedExactly(u: Urr, ps: seq<Packet>, k: nat)
    requires Steady(u) && k < |ps|
    ensures var seen := ps[..k + 1]; Dropped(After(u, ps[..k]), ps[k]) <==> u.over || exists d :: Crosses(u, seen, d)
  {
    assert ps[..k + 1][..k] == ps[..k];
    OverExactly(u, ps[..k + 1]);
    SteadyAfter(u, ps[..k], Both);
    ProcessStep(After(u, ps[..k]), ps[k], Both);
    hide Process, Crosses;
  }

  lemma {:induction false} PassedAtMost(u: Urr, ps: seq<Packet>, d: Direction)
    ensures Passed(u, ps, d) <= Charged(ps, d)
    decreases |ps|
  {
    if ps != [] {
      PassedAtMost(u, ps[..|ps| - 1], d);
    }
  }

  /** What is let through keeps a counter below its quota exactly if the counter
      is below it at the start. */
  lemma {:induction false} BoundExactly(u: Urr, ps: seq<Packet>, d: Direction)
    requires Steady(u) && Get(u.quota, d) != 0
    ensures Get(u.consumed, d) + Passed(u, ps, d) < Get(u.quota, d) <==> Get(u.consumed, d) < Get(u.quota, d)
    decreases |ps|
  {
    if ps != [] {
      var k := |ps| - 1;
      BoundExactly(u, ps[..k], d);
      PassedAtMost(u, ps, d);
      assert ps[..k + 1] == ps;
      EnforcedExactly(u, ps, k);
      assert Crosses(u, ps, d) ==> Dropped(After(u, ps[..k]), ps[k]);
      hide Dropped, After;
    }
  }

  /** Of a rule that is not over its quota, with every quota it has reached
      already, nothing is ever dropped. */
  lemma {:induction false} NeverEnforced(u: Urr, ps: seq<Packet>, d: Direction)
    requires Steady(u) && !u.over && forall c :: Get(u.quota, c) != 0 ==> Full(u, c)
    ensures Passed(u, ps, d) == Charged(ps, d)
    decreases |ps|
  {
    if ps != [] {
      var k := |ps| - 1;
      NeverEnforced(u, ps[..k], d);
      assert ps[..k + 1] == ps;
      EnforcedExactly(u, ps, k);
      forall c ensures !Crosses(u, ps, c) {
        assert Get(u.quota, c) != 0 ==> Full(u, c);
      }
      hide Dropped, After;
    }
  }

  // ----- an update

  function Arrivals(ps: seq<Packet>): (es: seq<Event>)
    ensures |es| == |ps|
  {
    seq(|ps|, i requires 0 <= i < |ps| => Arrive(ps[i]))
  }

  /** An update with packets at every point of it, up to the flip. */
  function UntilFlip(early: seq<Packet>, quota: Option<Counter>, monitor: Option<real>, late: seq<Packet>): seq<Event> {
    [Stage] + Arrivals(early) + [Change(true, quota, monitor)] + Arrivals(late) + [Flip]
  }

  lemma {:induction false} RunJoin(s: State, a: seq<Event>, b: seq<Event>)
    ensures Run(s, a + b) == Run(Run(s, a), b)
    decreases |b|
  {
    if b == [] {
      assert a + b == a;
    } else {
      var k := |b| - 1;
      RunJoin(s, a, b[..k]);
      assert (a + b)[..|a + b| - 1] == a + b[..k];
      hide Step;
    }
  }

  lemma RunOne(s: State, e: Event)
    ensures Run(s, [e]) == Step(s, e)
  {
    assert [e][..0] == [];
    assert Run(s, [e][..0]) == s;
    hide Step;
  }

  lemma {:induction false} Arrived(s: State, ps: seq<Packet>)
    ensures var t := Run(s, Arrivals(ps));
            t.active == After(s.active, ps) && t.staged == s.staged && t.leaving == s.leaving
    decreases |ps|
  {
    if ps != [] {
      var k := |ps| - 1;
      Arrived(s, ps[..k]);
      assert Arrivals(ps)[..k] == Arrivals(ps[..k]);
      hide Process;
    }
  }

  lemma {:induction false} AfterJoin(u: Urr, a: seq<Packet>, b: seq<Packet>)
    ensures After(u, a + b) == After(After(u, a), b)
    decreases |b|
  {
    if b == [] {
      assert a + b == a;
    } else {
      var k := |b| - 1;
      AfterJoin(u, a, b[..k]);
      assert (a + b)[..|a + b| - 1] == a + b[..k];
      hide Process;
    }
  }

  /** The rule in use after the flip, and the one it has replaced. */
  lemma Flipped(s: State, early: seq<Packet>, quota: Option<Counter>, monitor: Option<real>, late: seq<Packet>)
    requires s.staged.None? && s.leaving.None?
    ensures var t := Run(s, UntilFlip(early, quota, monitor, late));
            && t.staged == None && t.leaving == Some(After(s.active, early + late))
            && t.active == Changed(Copy(s.active), true, quota, monitor)
  {
    hide Copy, Changed, After, Arrivals, Run, Loss;
    var a := [Stage] + Arrivals(early);
    var b := a + [Change(true, quota, monitor)];
    var c := b + Arrivals(late);
    RunOne(s, Stage);
    RunJoin(s, [Stage], Arrivals(early));
    Arrived(Run(s, [Stage]), early);
    RunJoin(s, a, [Change(true, quota, monitor)]);
    RunOne(Run(s, a), Change(true, quota, monitor));
    RunJoin(s, b, Arrivals(late));
    Arrived(Run(s, b), late);
    RunJoin(s, c, [Flip]);
    RunOne(Run(s, c), Flip);
    AfterJoin(s.active, early, late);
  }

  /** An update takes a rule off its quota: between flip and merge a packet is
      dropped exactly if the packets since the flip reach a quota. */
  lemma UpdateLetsThrough(s: State, early: seq<Packet>, quota: Option<Counter>, monitor: Option<real>, late: seq<Packet>,
                          ps: seq<Packet>, k: nat)
    requires s.staged.None? && s.leaving.None? && k < |ps|
    requires !(s.active.after && (monitor.Some? || s.active.monitor.Some?))
    ensures var u, seen := Run(s, UntilFlip(early, quota, monitor, late)).active, ps[..k + 1];
            var limit := if quota.Some? then quota.value else s.active.quota;
            Dropped(After(u, ps[..k]), ps[k]) <==> exists d :: 0 < Get(limit, d) <= Charged(seen, d)
  {
    Flipped(s, early, quota, monitor, late);
    var u := Run(s, UntilFlip(early, quota, monitor, late)).active;
    var limit := if quota.Some? then quota.value else s.active.quota;
    assert Steady(u) && u.quota == limit && !u.over && u.consumed == ZERO;
    hide Run, UntilFlip, Changed, Copy, Dropped, Get, After;
    FromZero(u, limit, ps, k);
  }

  lemma FromZero(u: Urr, limit: Counter, ps: seq<Packet>, k: nat)
    requires Steady(u) && u.quota == limit && !u.over && u.consumed == ZERO && k < |ps|
    ensures var seen := ps[..k + 1];
            Dropped(After(u, ps[..k]), ps[k]) <==> exists d :: 0 < Get(limit, d) <= Charged(seen, d)
  {
    hide Dropped, After;
    var seen := ps[..k + 1];
    EnforcedExactly(u, ps, k);
    forall d ensures Crosses(u, seen, d) <==> 0 < Get(limit, d) <= Charged(seen, d) {
      assert Get(u.consumed, d) == 0;
    }
  }

  /** The octets a rule counts from the packets on top of those it starts with,
      since the last monitoring time that passed. */
  function Since(volume: bool, after: bool, monitor: Option<real>, start: int, ps: seq<Packet>, d: Direction): int
    decreases |ps|
  {
    if ps == [] then start
    else
      var n := if volume then Charge(ps[0], d) else 0;
      if monitor.Some? && monitor.value < ps[0].now then
        if after then Since(volume, after, monitor, start, ps[1..], d) else Since(volume, true, None, n, ps[1..], d)
      else Since(volume, after, monitor, start + n, ps[1..], d)
  }

  lemma {:induction false} SinceIsUsage(u: Urr, ps: seq<Packet>, d: Direction)
    ensures Get(After(u, ps).usage.bytes, d) == Since(u.volume, u.after, u.monitor, Get(u.usage.bytes, d), ps, d)
    ensures After(u, ps).volume == u.volume && After(u, ps).quota == u.quota && After(u, ps).newQuota == u.newQuota
    decreases |ps|
  {
    if ps != [] {
      var v := Process(u, ps[0]);
      AfterFirst(u, ps);
      SinceIsUsage(v, ps[1..], d);
      ChargeAdds(u.usage.bytes, ps[0], d);
      ChargeAdds(ZERO, ps[0], d);
      hide After, Exhausts, AddCounter, PacketCounter;
    }
  }

  lemma AfterFirst(u: Urr, ps: seq<Packet>)
    requires ps != []
    ensures After(u, ps) == After(Process(u, ps[0]), ps[1..])
  {
    AfterJoin(u, ps[..1], ps[1..]);
    assert ps[..1] + ps[1..] == ps;
    assert ps[..1][..0] == [];
    assert After(u, ps[..1][..0]) == u;
    hide Process;
  }

  lemma {:induction false} SinceWithout(start: int, after: bool, ps: seq<Packet>, d: Direction)
    ensures Since(true, after, None, start, ps, d) == start + Charged(ps, d)
    decreases |ps|
  {
    if ps != [] {
      SinceWithout(start + Charge(ps[0], d), after, ps[1..], d);
      ChargedFirst(ps, d);
      hide Charged;
    }
  }

  lemma {:induction false} ChargedJoin(a: seq<Packet>, b: seq<Packet>, d: Direction)
    ensures Charged(a + b, d) == Charged(a, d) + Charged(b, d)
    decreases |b|
  {
    if b == [] {
      assert a + b == a;
    } else {
      ChargedJoin(a, b[..|b| - 1], d);
      assert (a + b)[..|a + b| - 1] == a + b[..|b| - 1];
    }
  }

  lemma ChargedFirst(ps: seq<Packet>, d: Direction)
    requires ps != []
    ensures Charged(ps, d) == Charge(ps[0], d) + Charged(ps[1..], d)
  {
    ChargedJoin(ps[..1], ps[1..], d);
    assert ps[..1] + ps[1..] == ps;
    assert ps[..1][..0] == [];
    assert Charged(ps[..1], d) == Charge(ps[0], d);
  }

  /** A whole update, with packets at every point of it. */
  function WholeUpdate(early: seq<Packet>, quota: Option<Counter>, monitor: Option<real>, late: seq<Packet>, last: seq<Packet>)
    : seq<Event>
  {
    UntilFlip(early, quota, monitor, late) + Arrivals(last) + [Merge]
  }

  lemma MergedRule(s: State, early: seq<Packet>, quota: Option<Counter>, monitor: Option<real>, late: seq<Packet>, last: seq<Packet>)
    requires s.staged.None? && s.leaving.None?
    ensures var t, v := Run(s, WholeUpdate(early, quota, monitor, late, last)), Changed(Copy(s.active), true, quota, monitor);
            t.staged == None && t.leaving == None && t.active == Merged(After(v, last), After(s.active, early + late))
  {
    hide Copy, Changed, After, Arrivals, Run, Loss, UntilFlip, Merged;
    var a := UntilFlip(early, quota, monitor, late);
    var b := a + Arrivals(last);
    Flipped(s, early, quota, monitor, late);
    RunJoin(s, a, Arrivals(last));
    Arrived(Run(s, a), last);
    RunJoin(s, b, [Merge]);
    RunOne(Run(s, b), Merge);
  }

  /** What the new quota is charged with in the end: the octets the replaced rule
      had counted since its last report or monitoring time, and those of the new
      one, in each direction; it is what the rule has yet to report. */
  lemma NewQuotaIsCharged(s: State, early: seq<Packet>, q: Counter, monitor: Option<real>, late: seq<Packet>, last: seq<Packet>,
                          d: Direction)
    requires s.staged.None? && s.leaving.None?
    ensures var u, t := s.active, Run(s, WholeUpdate(early, Some(q), monitor, late, last)).active;
            var m := if monitor.Some? then monitor else u.monitor;
            && t.volume && t.quota == q && t.consumed == t.usage.bytes
            && Get(t.consumed, d) == Since(u.volume, u.after, u.monitor, Get(u.usage.bytes, d), early + late, d)
                                     + Since(true, u.after, m, 0, last, d)
  {
    MergedRule(s, early, Some(q), monitor, late, last);
    var u, v := s.active, Changed(Copy(s.active), true, Some(q), monitor);
    SinceIsUsage(u, early + late, d);
    SinceIsUsage(v, last, d);
    hide Run, WholeUpdate, After, Since;
  }

  /** Without a monitoring time: all that was unreported when the update was
      staged, and every octet since. */
  lemma NewQuotaIsChargedWith(s: State, early: seq<Packet>, q: Counter, late: seq<Packet>, last: seq<Packet>, d: Direction)
    requires s.staged.None? && s.leaving.None? && s.active.volume && s.active.monitor.None?
    ensures var t := Run(s, WholeUpdate(early, Some(q), None, late, last)).active;
            Get(t.consumed, d) == Get(s.active.usage.bytes, d) + Charged(early + late + last, d)
  {
    hide Run, WholeUpdate;
    NewQuotaIsCharged(s, early, q, None, late, last, d);
    SinceWithout(Get(s.active.usage.bytes, d), s.active.after, early + late, d);
    SinceWithout(0, s.active.after, last, d);
    ChargedJoin(early + late, last, d);
    hide Since, Charged;
  }

  /** After the merge, what is let through on top of what is unreported stays
      below the new quota exactly if what is unreported is below it; and the rule
      is over its quota at the merge exactly if the packets since the flip alone
      reach it. */
  lemma NewQuotaHolds(s: State, early: seq<Packet>, q: Counter, monitor: Option<real>, late: seq<Packet>, last: seq<Packet>,
                      ps: seq<Packet>, d: Direction)
    requires s.staged.None? && s.leaving.None? && Get(q, d) != 0
    requires !(s.active.after && (monitor.Some? || s.active.monitor.Some?))
    ensures var t := Run(s, WholeUpdate(early, Some(q), monitor, late, last)).active;
            && (Get(t.usage.bytes, d) + Passed(t, ps, d) < Get(q, d) <==> Get(t.usage.bytes, d) < Get(q, d))
            && (t.over <==> exists c :: 0 < Get(q, c) <= Charged(last, c))
  {
    MergedRule(s, early, Some(q), monitor, late, last);
    var v := Changed(Copy(s.active), true, Some(q), monitor);
    var t := Run(s, WholeUpdate(early, Some(q), monitor, late, last)).active;
    NewQuotaIsCharged(s, early, q, monitor, late, last, d);
    assert Steady(v) && v.quota == q && !v.over && forall c :: Get(v.consumed, c) == 0;
    SteadyAfter(v, last, d);
    OverExactly(v, last);
    assert Steady(t) && t.over == After(v, last).over;
    hide Run, WholeUpdate, After, Changed, Copy;
    assert forall c :: Crosses(v, last, c) <==> 0 < Get(q, c) <= Charged(last, c);
    BoundExactly(t, ps, d);
  }

  /** When it is not below, nothing is dropped at all: 1300 octets unreported, a
      new quota of 1000, and whatever comes passes. */
  lemma NewQuotaIsMissed(ps: seq<Packet>)
    ensures var bytes := Counter(1300, 0, 1300);
            var u := Urr(true, false, false, None, Usage(Counter(1, 0, 1), bytes), bytes, NONE, ZERO, false);
            var s := State(u, None, None, u.usage, NONE, NONE);
            var t := Run(s, WholeUpdate([], Some(Counter(0, 0, 1000)), None, [], [])).active;
            Balanced(s) && t.consumed.total == 1300 && Passed(t, ps, Both) == Charged(ps, Both)
  {
    var bytes := Counter(1300, 0, 1300);
    var u := Urr(true, false, false, None, Usage(Counter(1, 0, 1), bytes), bytes, NONE, ZERO, false);
    var s := State(u, None, None, u.usage, NONE, NONE);
    var q := Counter(0, 0, 1000);
    assert Balanced(s);
    MergedRule(s, [], Some(q), None, [], []);
    var no: seq<Packet> := [];
    assert no + no == no;
    var t := Run(s, WholeUpdate([], Some(q), None, [], [])).active;
    assert t == Merged(Changed(Copy(u), true, Some(q), None), u);
    hide Run, WholeUpdate;
    assert t.quota == q && t.consumed == bytes && Steady(t) && !t.over;
    forall c | Get(t.quota, c) != 0 ensures Full(t, c) {
    }
    NeverEnforced(t, ps, Both);
  }

  /** An update that sets no quota lifts a quota that is used up: unless the
      packets between flip and merge reach it once more, nothing is dropped from
      then on. */
  lemma UsedUpQuotaIsLifted(s: State, early: seq<Packet>, late: seq<Packet>, last: seq<Packet>, ps: seq<Packet>, d: Direction)
    requires s.staged.None? && s.leaving.None? && Steady(s.active)
    requires forall c :: Get(s.active.quota, c) != 0 ==> Full(s.active, c)
    requires forall c :: !(0 < Get(s.active.quota, c) <= Charged(last, c))
    ensures var t := Run(s, WholeUpdate(early, None, None, late, last)).active;
            Passed(t, ps, d) == Charged(ps, d)
  {
    MergedRule(s, early, None, None, late, last);
    var u, v := s.active, Changed(Copy(s.active), true, None, None);
    var t := Run(s, WholeUpdate(early, None, None, late, last)).active;
    assert Steady(v) && v.quota == u.quota && !v.over && v.consumed == ZERO && !v.newQuota;
    OverExactly(v, last);
    SteadyAfter(v, last, d);
    hide Run, WholeUpdate, After, Changed, Copy;
    forall c ensures !Crosses(v, last, c) {
      assert Get(v.consumed, c) == 0;
    }
    forall c | Get(t.quota, c) != 0 ensures Full(t, c) {
      SteadyAfter(v, last, c);
      SteadyAfter(u, early + late, c);
      assert Full(u, c);
      GetAdds(After(v, last).consumed, After(u, early + late).consumed, c);
    }
    NeverEnforced(t, ps, d);
  }

  lemma GetAdds(a: Counter, b: Counter, d: Direction)
    ensures Get(AddCounter(a, b), d) == Get(a, d) + Get(b, d)
  {
  }
}
