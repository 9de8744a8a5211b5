/** The QoS rules of all sessions through their updates: staged copies start
    unattached, a commit attaches them and frees the rules they replace. */
module PolicerRun {
  import opened Options
  import opened Pools
  import opened Policers

  /** Handles of the active rules and of the staged ones, if any are staged. */
  datatype Rules = Rules(active: seq<Handle>, pending: Option<seq<Handle>>)

  datatype System = System(pol: State, sessions: map<nat, Rules>, next: nat)

  function AttachAll(s: State, hs: seq<Handle>): State
    decreases |hs|
  {
    if hs == [] then s
    else if hs[0] !in s.qers then AttachAll(s, hs[1..])
    else AttachAll(Attach(s, hs[0]), hs[1..])
  }

  function FreeOne(s: State, h: Handle): State {
    if h in s.qers then Free(s, h) else s
  }

  function FreeAll(s: State, hs: seq<Handle>): State
    decreases |hs|
  {
    if hs == [] then s
    else FreeAll(FreeOne(s, hs[0]), hs[1..])
  }

  /** A rule is written, unattached. */
  function Add(s: State, h: Handle, q: Qer): State {
    s.(qers := s.qers[h := q.(policer := None)])
  }

  function AddAll(s: State, hs: seq<Handle>, qs: seq<Qer>): State
    requires |hs| == |qs|
    decreases |hs|
  {
    if hs == [] then s else AddAll(Add(s, hs[0], qs[0]), hs[1..], qs[1..])
  }

  datatype Event =
    | Open(session: nat)
    | Stage(session: nat)
    | Create(session: nat, key: Option<nat>, mbr: bool)
    | Update(session: nat, at: nat, key: Option<nat>, mbr: bool)
    | Remove(session: nat, at: nat)
    | Commit(session: nat)
    | Close(session: nat)

  function Pending(r: Rules): seq<Handle> {
    if r.pending.Some? then r.pending.value else []
  }

  function Fresh(sys: System, x: nat, n: nat): seq<Handle> {
    seq(n, i requires 0 <= i => Handle(x, sys.next + i))
  }

  function Contents(s: State, hs: seq<Handle>): (qs: seq<Qer>)
    ensures |qs| == |hs|
  {
    seq(|hs|, i requires 0 <= i < |hs| => if hs[i] in s.qers then s.qers[hs[i]] else Qer(None, false, None))
  }

  /** A staged vector is a copy of the active one, unattached. */
  function Staged(sys: System, x: nat): System
    requires x in sys.sessions
  {
    var r := sys.sessions[x];
    if r.pending.Some? || r.active == [] then sys
    else
      var hs := Fresh(sys, x, |r.active|);
      System(AddAll(sys.pol, hs, Contents(sys.pol, r.active)), sys.sessions[x := r.(pending := Some(hs))], sys.next + |hs|)
  }

  function Step(sys: System, e: Event): System {
    match e
    case Open(x) => if x in sys.sessions then sys else sys.(sessions := sys.sessions[x := Rules([], None)])
    case Stage(x) => if x in sys.sessions then Staged(sys, x) else sys
    case Create(x, key, mbr) =>
      if x !in sys.sessions then sys
      else
        var t := Staged(sys, x);
        var h := Handle(x, t.next);
        System(Add(t.pol, h, Qer(key, mbr, None)),
               t.sessions[x := t.sessions[x].(pending := Some(Pending(t.sessions[x]) + [h]))], t.next + 1)
    case Update(x, i, key, mbr) =>
      if x !in sys.sessions || i >= |Pending(sys.sessions[x])| then sys
      else sys.(pol := Add(sys.pol, Pending(sys.sessions[x])[i], Qer(key, mbr, None)))
    case Remove(x, i) =>
      if x !in sys.sessions || i >= |Pending(sys.sessions[x])| then sys
      else
        var hs := Pending(sys.sessions[x]);
        System(FreeOne(sys.pol, hs[i]), sys.sessions[x := sys.sessions[x].(pending := Some(hs[..i] + hs[i + 1..]))], sys.next)
    case Commit(x) =>
      if x !in sys.sessions || sys.sessions[x].pending.None? then sys
      else
        var r := sys.sessions[x];
        System(FreeAll(AttachAll(sys.pol, r.pending.value), r.active), sys.sessions[x := Rules(r.pending.value, None)], sys.next)
    case Close(x) =>
      if x !in sys.sessions then sys
      else
        var r := sys.sessions[x];
        System(FreeAll(FreeAll(sys.pol, r.active), Pending(r)), sys.sessions - {x}, sys.next)
  }

  // ----- the loops keep the counts exact

  ghost predicate Unattached(s: State, hs: seq<Handle>) {
    forall h :: h in hs ==> h in s.qers && s.qers[h].policer == None
  }

  /** A rule after attaching what is to be attached: as before, but for the
      policer, which it has exactly if it limits the bit rate. */
  ghost predicate Attaches(q: Qer, q': Qer) {
    q' == q.(policer := q'.policer) && (q'.policer.Some? <==> Limits(q'))
  }

  /** Attaching a vector attaches every rule of it that limits the bit rate, and
      changes no other rule. */
  lemma {:induction false} AttachAllInv(s: State, hs: seq<Handle>)
    requires Inv(s) && NoDup(hs) && Unattached(s, hs)
    ensures Inv(AttachAll(s, hs)) && AttachAll(s, hs).qers.Keys == s.qers.Keys
    ensures forall g :: g in hs ==> Attaches(s.qers[g], AttachAll(s, hs).qers[g])
    ensures forall g :: g in s.qers && g !in hs ==> AttachAll(s, hs).qers[g] == s.qers[g]
    decreases |hs|
  {
    if hs != [] {
      assert hs[0] in hs;
      AttachInv(s, hs[0]);
      AttachServes(s, hs[0]);
      var t := Attach(s, hs[0]);
      assert hs[0] !in hs[1..];
      assert forall g :: g in hs <==> g == hs[0] || g in hs[1..];
      assert t.qers.Keys == s.qers.Keys && forall g :: g in s.qers && g != hs[0] ==> t.qers[g] == s.qers[g];
      assert Attaches(s.qers[hs[0]], t.qers[hs[0]]);
      hide Inv, Attach, Attaches, Served, Limits;
      AttachAllInv(t, hs[1..]);
    }
  }

  lemma FreedRule(s: State, h: Handle)
    requires h in s.qers
    ensures Free(s, h).qers == s.qers - {h}
  {
  }

  lemma {:induction false} FreeAllInv(s: State, hs: seq<Handle>)
    requires Inv(s)
    ensures Inv(FreeAll(s, hs)) && FreeAll(s, hs).qers.Keys == s.qers.Keys - Elements(hs)
    ensures forall g :: g in FreeAll(s, hs).qers ==> FreeAll(s, hs).qers[g] == s.qers[g]
    decreases |hs|
  {
    hide Inv, Free;
    if hs == [] {
      assert Elements(hs) == {};
    } else {
      assert Elements(hs) == {hs[0]} + Elements(hs[1..]);
      hide Elements;
      if hs[0] !in s.qers {
        FreeAllInv(s, hs[1..]);
      } else {
        FreeInv(s, hs[0]);
        FreedRule(s, hs[0]);
        FreeAllInv(Free(s, hs[0]), hs[1..]);
      }
    }
  }

  /** Adding or rewriting rules that are not attached changes no count. */
  lemma {:induction false} AddAllInv(s: State, hs: seq<Handle>, qs: seq<Qer>)
    requires Inv(s) && |hs| == |qs| && forall h :: h in hs && h in s.qers ==> s.qers[h].policer == None
    ensures Inv(AddAll(s, hs, qs)) && AddAll(s, hs, qs).qers.Keys == s.qers.Keys + Elements(hs)
    ensures Unattached(AddAll(s, hs, qs), hs)
    ensures forall g :: g in s.qers && g !in hs ==> AddAll(s, hs, qs).qers[g] == s.qers[g]
    decreases |hs|
  {
    if hs == [] {
      assert Elements(hs) == {};
    } else {
      AddInv(s, hs[0], qs[0]);
      var t := Add(s, hs[0], qs[0]);
      assert Elements(hs) == {hs[0]} + Elements(hs[1..]);
      assert forall h :: h in hs <==> h == hs[0] || h in hs[1..];
      hide Elements, Inv;
      AddAllInv(t, hs[1..], qs[1..]);
    }
  }

  lemma AddInv(s: State, h: Handle, q: Qer)
    requires Inv(s) && (h in s.qers ==> s.qers[h].policer == None)
    ensures Inv(Add(s, h, q))
  {
    var t := Add(s, h, q);
    forall p ensures Attached(t.qers, p) == Attached(s.qers, p) {
    }
    forall p | p in t.pool.Used() ensures Counted(t, p) {
      assert Counted(s, p);
    }
    forall g | g in t.qers ensures UnderKey(t, g) {
      if g != h {
        assert UnderKey(s, g);
      }
    }
    forall k | k in t.byId ensures KeyLive(t, k) {
      assert KeyLive(s, k);
    }
  }

  // ----- runs

  /** A session's vectors hold its own rules, each once; staged rules are not
      attached, and of the active ones exactly those that limit the bit rate. */
  ghost predicate SessionOk(sys: System, x: nat)
    requires x in sys.sessions
  {
    var r := sys.sessions[x];
    && NoDup(r.active) && NoDup(Pending(r)) && (forall h :: h in r.active ==> h !in Pending(r))
    && (forall h :: h in r.active || h in Pending(r) ==> h.session == x && h in sys.pol.qers)
    && Unattached(sys.pol, Pending(r))
    && (forall h :: h in r.active ==> (sys.pol.qers[h].policer.Some? <==> Limits(sys.pol.qers[h])))
  }

  ghost predicate Owned(sys: System, h: Handle) {
    && h.session in sys.sessions && h.uid < sys.next
    && (h in sys.sessions[h.session].active || h in Pending(sys.sessions[h.session]))
  }

  ghost predicate SysInv(sys: System) {
    && Inv(sys.pol)
    && (forall x :: x in sys.sessions ==> SessionOk(sys, x))
    && (forall h :: h in sys.pol.qers ==> Owned(sys, h))
  }

  /** A step within session x leaves every other session as it was. */
  ghost predicate Local(sys: System, t: System, x: nat) {
    && (forall y :: y != x ==> (y in t.sessions <==> y in sys.sessions))
    && (forall y :: y != x && y in sys.sessions ==> t.sessions[y] == sys.sessions[y])
    && (forall g :: g in sys.pol.qers && g.session != x ==> g in t.pol.qers && t.pol.qers[g] == sys.pol.qers[g])
    && (forall g :: g in t.pol.qers && g.session != x ==> g in sys.pol.qers)
    && sys.next <= t.next
  }

  lemma LocalInv(sys: System, t: System, x: nat)
    requires SysInv(sys) && Local(sys, t, x) && Inv(t.pol)
    requires x in t.sessions ==> SessionOk(t, x)
    requires forall h :: h in t.pol.qers && h.session == x ==> Owned(t, h)
    ensures SysInv(t)
  {
    hide Inv;
    forall y | y in t.sessions && y != x ensures SessionOk(t, y) {
      assert SessionOk(sys, y);
    }
    forall h | h in t.pol.qers && h.session != x ensures Owned(t, h) {
      assert Owned(sys, h);
    }
  }

  lemma OwnedIn(sys: System, h: Handle)
    requires SysInv(sys) && h in sys.pol.qers
    ensures Owned(sys, h)
  {
  }

  /** What a step within session x has to show. */
  lemma StepWithin(sys: System, t: System, x: nat, qers: map<Handle, Qer>)
    requires SysInv(sys) && Inv(t.pol) && sys.next <= t.next && t.pol.qers == qers
    requires t.sessions == sys.sessions - {x} || (x in t.sessions && t.sessions == sys.sessions[x := t.sessions[x]])
    requires forall g: Handle :: g.session != x ==> (g in qers <==> g in sys.pol.qers)
    requires forall g: Handle :: g in sys.pol.qers && g.session != x ==> qers[g] == sys.pol.qers[g]
    requires x in t.sessions ==> SessionOk(t, x)
    requires forall h :: h in qers && h.session == x ==> Owned(t, h)
    ensures SysInv(t)
  {
    hide Inv;
    LocalInv(sys, t, x);
  }

  lemma FreshHandles(sys: System, x: nat, n: nat)
    requires SysInv(sys)
    ensures NoDup(Fresh(sys, x, n))
    ensures forall h :: h in Fresh(sys, x, n) ==>
              h !in sys.pol.qers && h.session == x && sys.next <= h.uid < sys.next + n
  {
    forall h | h in Fresh(sys, x, n) ensures h !in sys.pol.qers && h.session == x && sys.next <= h.uid < sys.next + n {
      assert h in sys.pol.qers ==> Owned(sys, h);
    }
  }

  lemma StagedInv(sys: System, x: nat)
    requires SysInv(sys) && x in sys.sessions
    ensures SysInv(Staged(sys, x)) && Staged(sys, x).sessions.Keys == sys.sessions.Keys
  {
    var r := sys.sessions[x];
    if r.pending.None? && r.active != [] {
      var t := Staged(sys, x);
      var hs := Fresh(sys, x, |r.active|);
      FreshHandles(sys, x, |r.active|);
      AddAllInv(sys.pol, hs, Contents(sys.pol, r.active));
      assert SessionOk(sys, x);
      assert t.sessions[x].pending == Some(hs) && t.sessions[x].active == r.active;
      assert t.sessions == sys.sessions[x := r.(pending := Some(hs))] && t.next == sys.next + |hs|;
      assert forall h :: h in Elements(hs) <==> h in hs;
      hide SysInv, Inv, Fresh, AddAll, Contents, Staged, Elements, NoDup;
      forall h | h in t.pol.qers && h.session == x ensures Owned(t, h) {
        if h in sys.pol.qers {
          OwnedIn(sys, h);
        }
      }
      StepWithin(sys, t, x, t.pol.qers);
    }
  }

  lemma CreateInv(sys: System, x: nat, key: Option<nat>, mbr: bool)
    requires SysInv(sys) && x in sys.sessions
    ensures SysInv(Step(sys, Create(x, key, mbr)))
  {
    hide SysInv, Staged, Add;
    StagedInv(sys, x);
    CreateFresh(Staged(sys, x), x, key, mbr);
  }

  lemma CreateFresh(s: System, x: nat, key: Option<nat>, mbr: bool)
    requires SysInv(s) && x in s.sessions
    ensures var h, r := Handle(x, s.next), s.sessions[x];
            SysInv(System(Add(s.pol, h, Qer(key, mbr, None)), s.sessions[x := r.(pending := Some(Pending(r) + [h]))], s.next + 1))
  {
    var h, r := Handle(x, s.next), s.sessions[x];
    var hs := Pending(r);
    var t := System(Add(s.pol, h, Qer(key, mbr, None)), s.sessions[x := r.(pending := Some(hs + [h]))], s.next + 1);
    if h in s.pol.qers {
      OwnedIn(s, h);
    }
    assert SessionOk(s, x);
    AddInv(s.pol, h, Qer(key, mbr, None));
    hide SysInv, Inv, NoDup;
    CreatedSession(s, t, x, h);
    hide SessionOk, Unattached;
    forall g | g in t.pol.qers && g.session == x ensures Owned(t, g) {
      if g != h {
        OwnedIn(s, g);
      }
    }
    StepWithin(s, t, x, t.pol.qers);
  }

  lemma CreatedSession(s: System, t: System, x: nat, h: Handle)
    requires x in s.sessions && SessionOk(s, x) && h.session == x && h !in s.pol.qers
    requires x in t.sessions && t.sessions[x] == s.sessions[x].(pending := Some(Pending(s.sessions[x]) + [h]))
    requires h in t.pol.qers && t.pol.qers[h].policer == None
    requires forall g :: g in s.pol.qers ==> g in t.pol.qers && t.pol.qers[g] == s.pol.qers[g]
    ensures SessionOk(t, x)
  {
    NoDupSnoc(Pending(s.sessions[x]), h);
    hide NoDup;
  }

  lemma UpdatedSession(s: System, t: System, x: nat, h: Handle)
    requires x in s.sessions && SessionOk(s, x) && t.sessions == s.sessions && h in t.pol.qers && t.pol.qers[h].policer == None
    requires h in Pending(s.sessions[x])
    requires forall g :: g in s.pol.qers ==> g in t.pol.qers && (g == h || t.pol.qers[g] == s.pol.qers[g])
    ensures SessionOk(t, x)
  {
  }

  lemma UpdateInv(sys: System, x: nat, i: nat, key: Option<nat>, mbr: bool)
    requires SysInv(sys) && x in sys.sessions && i < |Pending(sys.sessions[x])|
    ensures SysInv(Step(sys, Update(x, i, key, mbr)))
  {
    hide Inv, NoDup, Attach, Free;
    var t := Step(sys, Update(x, i, key, mbr));
    var h := Pending(sys.sessions[x])[i];
    assert SessionOk(sys, x);
    assert h.session == x;
    AddInv(sys.pol, h, Qer(key, mbr, None));
    assert t.sessions == sys.sessions && t.next == sys.next && t.pol == Add(sys.pol, h, Qer(key, mbr, None));
    hide SysInv, Step;
    UpdatedSession(sys, t, x, h);
    hide SessionOk, Unattached;
    forall g | g in t.pol.qers && g.session == x ensures Owned(t, g) {
      OwnedIn(sys, g);
    }
    StepWithin(sys, t, x, t.pol.qers);
  }

  lemma DropKeeps(hs: seq<Handle>, i: nat)
    requires NoDup(hs) && i < |hs|
    ensures var rest := hs[..i] + hs[i + 1..]; NoDup(rest) && forall h :: h in rest <==> h in hs && h != hs[i]
  {
    var rest := hs[..i] + hs[i + 1..];
    forall h | h in hs && h != hs[i] ensures h in rest {
      var k :| 0 <= k < |hs| && hs[k] == h;
      if k < i {
        assert rest[k] == h;
      } else {
        assert rest[k - 1] == h;
      }
    }
  }

  lemma RemovedSession(s: System, t: System, x: nat, i: nat)
    requires x in s.sessions && SessionOk(s, x) && i < |Pending(s.sessions[x])| && x in t.sessions
    requires var hs := Pending(s.sessions[x]);
             && t.sessions[x] == s.sessions[x].(pending := Some(hs[..i] + hs[i + 1..]))
             && t.pol.qers == s.pol.qers - {hs[i]}
    ensures SessionOk(t, x)
  {
    DropKeeps(Pending(s.sessions[x]), i);
    hide NoDup;
  }

  lemma RemoveInv(sys: System, x: nat, i: nat)
    requires SysInv(sys) && x in sys.sessions && i < |Pending(sys.sessions[x])|
    ensures SysInv(Step(sys, Remove(x, i)))
  {
    var t := Step(sys, Remove(x, i));
    var r, hs := sys.sessions[x], Pending(sys.sessions[x]);
    assert SessionOk(sys, x);
    FreeInv(sys.pol, hs[i]);
    FreedRule(sys.pol, hs[i]);
    DropKeeps(hs, i);
    var rest := hs[..i] + hs[i + 1..];
    assert t.sessions == sys.sessions[x := r.(pending := Some(rest))] && t.next == sys.next;
    assert t.pol == Free(sys.pol, hs[i]);
    hide SysInv, Inv, Free, FreeOne, Step, NoDup, Attached;
    RemovedSession(sys, t, x, i);
    hide SessionOk, Unattached;
    forall g | g in t.pol.qers && g.session == x ensures Owned(t, g) {
      OwnedIn(sys, g);
    }
    StepWithin(sys, t, x, t.pol.qers);
  }

  /** Attaching the pending rules and freeing the active ones. */
  lemma Committed(s: State, active: seq<Handle>, pending: seq<Handle>)
    requires Inv(s) && NoDup(pending) && Unattached(s, pending) && forall h :: h in active ==> h !in pending
    ensures var t := FreeAll(AttachAll(s, pending), active);
            && Inv(t) && t.qers.Keys == s.qers.Keys - Elements(active)
            && (forall g :: g in t.qers && g !in pending ==> t.qers[g] == s.qers[g])
            && (forall g :: g in t.qers ==> g !in active)
            && (forall g :: g in pending ==> g in t.qers && Attaches(s.qers[g], t.qers[g]))
  {
    AttachAllInv(s, pending);
    FreeAllInv(AttachAll(s, pending), active);
    assert forall h :: h in Elements(active) <==> h in active;
    hide Inv, FreeAll, AttachAll, Elements, Attaches;
  }

  /** A commit attaches the staged rules and frees exactly the replaced ones. */
  lemma CommitInv(sys: System, x: nat)
    requires SysInv(sys) && x in sys.sessions && sys.sessions[x].pending.Some?
    ensures SysInv(Step(sys, Commit(x)))
  {
    hide Inv, FreeAll, AttachAll, NoDup, Unattached, Attach, Free;
    var t := Step(sys, Commit(x));
    var r := sys.sessions[x];
    assert SessionOk(sys, x);
    Committed(sys.pol, r.active, r.pending.value);
    assert t.sessions == sys.sessions[x := Rules(r.pending.value, None)] && t.next == sys.next;
    assert t.pol == FreeAll(AttachAll(sys.pol, r.pending.value), r.active);
    assert forall h :: h in Elements(r.active) ==> h in r.active;
    hide SysInv, Inv, FreeAll, AttachAll, Elements, Step, NoDup, Unattached;
    CommittedSession(sys, t, x);
    assert forall h :: h in r.active || h in r.pending.value ==> h.session == x;
    hide SessionOk, Inv, SysInv;
    forall g | g in t.pol.qers && g.session == x ensures Owned(t, g) {
      OwnedIn(sys, g);
    }
    StepWithin(sys, t, x, t.pol.qers);
  }

  lemma CommittedSession(sys: System, t: System, x: nat)
    requires x in sys.sessions && SessionOk(sys, x) && x in t.sessions
    requires sys.sessions[x].pending.Some? && t.sessions[x] == Rules(sys.sessions[x].pending.value, None)
    requires forall g :: g in sys.sessions[x].pending.value ==> g in t.pol.qers && Attaches(sys.pol.qers[g], t.pol.qers[g])
    ensures SessionOk(t, x)
  {
  }

  lemma CloseInv(sys: System, x: nat)
    requires SysInv(sys) && x in sys.sessions
    ensures SysInv(Step(sys, Close(x)))
  {
    var t := Step(sys, Close(x));
    var r := sys.sessions[x];
    assert SessionOk(sys, x);
    FreeAllInv(sys.pol, r.active);
    FreeAllInv(FreeAll(sys.pol, r.active), Pending(r));
    assert forall h :: h in Elements(r.active) <==> h in r.active;
    assert forall h :: h in Elements(Pending(r)) <==> h in Pending(r);
    assert t.sessions == sys.sessions - {x} && t.next == sys.next;
    hide SysInv, Inv, FreeAll, Elements, Step;
    forall g | g in t.pol.qers ensures g.session != x {
      OwnedIn(sys, g);
    }
    StepWithin(sys, t, x, t.pol.qers);
  }

  lemma StepInv(sys: System, e: Event)
    requires SysInv(sys)
    ensures SysInv(Step(sys, e))
  {
    hide Inv;
    match e {
      case Open(x) =>
        if x !in sys.sessions {
          forall h | h in sys.pol.qers ensures h.session != x {
            assert Owned(sys, h);
          }
          LocalInv(sys, Step(sys, e), x);
        }
      case Stage(x) => if x in sys.sessions { StagedInv(sys, x); }
      case Create(x, key, mbr) => if x in sys.sessions { CreateInv(sys, x, key, mbr); }
      case Update(x, i, key, mbr) => if x in sys.sessions && i < |Pending(sys.sessions[x])| { UpdateInv(sys, x, i, key, mbr); }
      case Remove(x, i) => if x in sys.sessions && i < |Pending(sys.sessions[x])| { RemoveInv(sys, x, i); }
      case Commit(x) => if x in sys.sessions && sys.sessions[x].pending.Some? { CommitInv(sys, x); }
      case Close(x) => if x in sys.sessions { CloseInv(sys, x); }
    }
  }

  const EMPTY := System(State(Pool(0, []), map[], map[], map[]), map[], 0)

  function Run(events: seq<Event>): System {
    if events == [] then EMPTY else Step(Run(events[..|events| - 1]), events[|events| - 1])
  }

  lemma {:induction false} RunInv(events: seq<Event>)
    ensures SysInv(Run(events))
    decreases |events|
  {
    if events != [] {
      hide SysInv, Step;
      RunInv(events[..|events| - 1]);
      StepInv(Run(events[..|events| - 1]), events[|events| - 1]);
    }
  }

  /** Over every run of every session: a policer is live exactly when its key is
      in the table and exactly when a rule is attached to it, its count is the
      number of those rules, and with no session left no policer is. */
  lemma CountsAreExact(events: seq<Event>, p: nat)
    ensures var s := Run(events).pol;
            && (p in s.pool.Used() <==> p in s.byId.Values)
            && (p in s.pool.Used() <==> Attached(s.qers, p) != {})
            && (p in s.pool.Used() ==> p in s.refCnt && s.refCnt[p] == |Attached(s.qers, p)|)
            && (Run(events).sessions == map[] ==> s.pool.Used() == {} && s.byId == map[])
  {
    RunInv(events);
    var sys := Run(events);
    KeysAreLivePolicers(sys.pol, p);
    if p in sys.pol.pool.Used() {
      assert Counted(sys.pol, p);
    }
    if sys.sessions == map[] {
      assert forall h :: h in sys.pol.qers ==> Owned(sys, h);
      assert sys.pol.qers == map[];
      assert forall q :: q in sys.pol.pool.Used() ==> Counted(sys.pol, q);
      assert forall q :: Attached(sys.pol.qers, q) == {};
      assert sys.pol.pool.Used() == {};
      assert forall k :: k in sys.pol.byId ==> KeyLive(sys.pol, k);
    }
  }
}
