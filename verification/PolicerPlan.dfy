/** What the policers amount to: the rules of the sessions as plain sequences,
    and for each key the number of active rules that limit the bit rate under
    it. */
module PolicerPlan {
  import opened Options
  import opened Pools
  import opened Policers
  import opened PolicerRun

  datatype Terms = Terms(key: Option<nat>, mbr: bool)

  datatype Sheet = Sheet(active: seq<Terms>, pending: Option<seq<Terms>>)

  type Plan = map<nat, Sheet>

  function Drafted(r: Sheet): seq<Terms> {
    if r.pending.Some? then r.pending.value else []
  }

  function Drafts(r: Sheet): Sheet {
    if r.pending.Some? || r.active == [] then r else r.(pending := Some(r.active))
  }

  /** The events without handles and policers. */
  function PlanStep(m: Plan, e: Event): Plan {
    var x := e.session;
    if e.Open? then (if x in m then m else m[x := Sheet([], None)])
    else if x !in m then m
    else
      var r := m[x];
      match e
      case Open(_) => m
      case Stage(_) => m[x := Drafts(r)]
      case Create(_, key, mbr) => m[x := r.(pending := Some(Drafted(Drafts(r)) + [Terms(key, mbr)]))]
      case Update(_, i, key, mbr) =>
        if i >= |Drafted(r)| then m else m[x := r.(pending := Some(Drafted(r)[i := Terms(key, mbr)]))]
      case Remove(_, i) =>
        if i >= |Drafted(r)| then m else m[x := r.(pending := Some(Drafted(r)[..i] + Drafted(r)[i + 1..]))]
      case Commit(_) => if r.pending.None? then m else m[x := Sheet(r.pending.value, None)]
      case Close(_) => m - {x}
  }

  function PlanRun(events: seq<Event>): Plan {
    if events == [] then map[] else PlanStep(PlanRun(events[..|events| - 1]), events[|events| - 1])
  }

  // ----- the system seen as a plan

  function TermsOf(qers: map<Handle, Qer>, h: Handle): Terms {
    if h in qers then Terms(qers[h].key, qers[h].mbr) else Terms(None, false)
  }

  function Listed(qers: map<Handle, Qer>, hs: seq<Handle>): (ts: seq<Terms>)
    ensures |ts| == |hs|
  {
    seq(|hs|, i requires 0 <= i < |hs| => TermsOf(qers, hs[i]))
  }

  function SheetOf(qers: map<Handle, Qer>, r: Rules): Sheet {
    Sheet(Listed(qers, r.active), if r.pending.Some? then Some(Listed(qers, r.pending.value)) else None)
  }

  function View(sys: System): Plan {
    map x | x in sys.sessions :: SheetOf(sys.pol.qers, sys.sessions[x])
  }

  /** The rules keep their terms. */
  ghost predicate Kept(a: map<Handle, Qer>, b: map<Handle, Qer>, hs: seq<Handle>) {
    forall h :: h in hs ==> TermsOf(b, h) == TermsOf(a, h)
  }

  lemma ListedKept(a: map<Handle, Qer>, b: map<Handle, Qer>, hs: seq<Handle>)
    requires Kept(a, b, hs)
    ensures Listed(a, hs) == Listed(b, hs)
  {
  }

  lemma SheetKept(a: map<Handle, Qer>, b: map<Handle, Qer>, r: Rules)
    requires Kept(a, b, r.active) && Kept(a, b, Pending(r))
    ensures SheetOf(a, r) == SheetOf(b, r)
  {
    ListedKept(a, b, r.active);
    ListedKept(a, b, Pending(r));
  }

  lemma OtherSheet(sys: System, t: System, x: nat, y: nat)
    requires SysInv(sys) && Local(sys, t, x) && y != x && y in sys.sessions
    ensures SheetOf(sys.pol.qers, sys.sessions[y]) == SheetOf(t.pol.qers, sys.sessions[y])
  {
    hide Inv, Listed, NoDup;
    assert SessionOk(sys, y);
    SheetKept(sys.pol.qers, t.pol.qers, sys.sessions[y]);
  }

  /** A step within session x shows in the sheet of x alone. */
  lemma ViewWithin(sys: System, t: System, x: nat)
    requires SysInv(sys) && Local(sys, t, x)
    ensures var m, m' := View(sys), View(t);
            m' == if x in t.sessions then m[x := SheetOf(t.pol.qers, t.sessions[x])] else m - {x}
  {
    forall y | y != x && y in sys.sessions ensures SheetOf(t.pol.qers, sys.sessions[y]) == SheetOf(sys.pol.qers, sys.sessions[y]) {
      OtherSheet(sys, t, x, y);
    }
    SameElsewhere(View(sys), View(t), x);
    hide SysInv, SheetOf, Local;
  }

  lemma SameElsewhere(m: Plan, m': Plan, x: nat)
    requires forall y :: y != x ==> (y in m' <==> y in m)
    requires forall y :: y != x && y in m ==> m'[y] == m[y]
    ensures m' == if x in m' then m[x := m'[x]] else m - {x}
  {
  }

  // ----- step by step

  lemma {:induction false} AddAllTerms(s: State, hs: seq<Handle>, qs: seq<Qer>, i: nat)
    requires |hs| == |qs| && NoDup(hs) && i < |hs|
    ensures TermsOf(AddAll(s, hs, qs).qers, hs[i]) == Terms(qs[i].key, qs[i].mbr)
    decreases |hs|
  {
    var t := Add(s, hs[0], qs[0]);
    if i == 0 {
      AddAllOthers(t, hs[1..], qs[1..], hs[0]);
    } else {
      AddAllTerms(t, hs[1..], qs[1..], i - 1);
    }
  }

  lemma {:induction false} AddAllOthers(s: State, hs: seq<Handle>, qs: seq<Qer>, h: Handle)
    requires |hs| == |qs| && h !in hs
    ensures TermsOf(AddAll(s, hs, qs).qers, h) == TermsOf(s.qers, h)
    decreases |hs|
  {
    if hs != [] {
      AddAllOthers(Add(s, hs[0], qs[0]), hs[1..], qs[1..], h);
    }
  }

  /** Staged rules have the terms of the active ones. */
  lemma StagedTerms(sys: System, x: nat)
    requires SysInv(sys) && x in sys.sessions && sys.sessions[x].pending.None? && sys.sessions[x].active != []
    ensures var t, r := Staged(sys, x), sys.sessions[x];
            && t.sessions[x].pending.Some? && t.sessions[x].active == r.active
            && Listed(t.pol.qers, t.sessions[x].pending.value) == Listed(sys.pol.qers, r.active)
  {
    var t, r := Staged(sys, x), sys.sessions[x];
    var hs := Fresh(sys, x, |r.active|);
    var qs := Contents(sys.pol, r.active);
    FreshHandles(sys, x, |r.active|);
    hide SysInv, NoDup, AddAll;
    forall i | 0 <= i < |hs| ensures Listed(t.pol.qers, hs)[i] == Listed(sys.pol.qers, r.active)[i] {
      AddAllTerms(sys.pol, hs, qs, i);
    }
    assert |hs| == |r.active|;
  }

  /** Staging leaves the rules there were alone. */
  lemma StagedLocal(sys: System, x: nat)
    requires SysInv(sys) && x in sys.sessions
    ensures Local(sys, Staged(sys, x), x)
    ensures forall g :: g in sys.pol.qers ==> TermsOf(Staged(sys, x).pol.qers, g) == TermsOf(sys.pol.qers, g)
  {
    var r := sys.sessions[x];
    if r.pending.None? && r.active != [] {
      var hs := Fresh(sys, x, |r.active|);
      FreshHandles(sys, x, |r.active|);
      AddAllInv(sys.pol, hs, Contents(sys.pol, r.active));
      assert forall h :: h in Elements(hs) <==> h in hs;
      hide SysInv, Inv, Fresh, AddAll, Contents, Elements, NoDup;
    }
  }

  lemma StagedView(sys: System, x: nat)
    requires SysInv(sys) && x in sys.sessions
    ensures View(Staged(sys, x)) == View(sys)[x := Drafts(View(sys)[x])]
  {
    StagedLocal(sys, x);
    ViewWithin(sys, Staged(sys, x), x);
    var t, r := Staged(sys, x), sys.sessions[x];
    assert SessionOk(sys, x);
    if r.pending.None? && r.active != [] {
      StagedTerms(sys, x);
      ListedKept(sys.pol.qers, t.pol.qers, r.active);
      hide SysInv, Staged, Local, Listed, SessionOk;
    }
  }

  lemma ListedSnoc(qers: map<Handle, Qer>, hs: seq<Handle>, h: Handle)
    ensures Listed(qers, hs + [h]) == Listed(qers, hs) + [TermsOf(qers, h)]
  {
  }

  /** A rule is added at the end of the staged ones. */
  lemma CreatedView(s: System, x: nat, key: Option<nat>, mbr: bool)
    requires SysInv(s) && x in s.sessions
    ensures var h, r := Handle(x, s.next), s.sessions[x];
            View(System(Add(s.pol, h, Qer(key, mbr, None)), s.sessions[x := r.(pending := Some(Pending(r) + [h]))], s.next + 1))
            == View(s)[x := View(s)[x].(pending := Some(Drafted(View(s)[x]) + [Terms(key, mbr)]))]
  {
    var h, r := Handle(x, s.next), s.sessions[x];
    var t := System(Add(s.pol, h, Qer(key, mbr, None)), s.sessions[x := r.(pending := Some(Pending(r) + [h]))], s.next + 1);
    assert SessionOk(s, x);
    if h in s.pol.qers {
      OwnedIn(s, h);
    }
    assert Local(s, t, x);
    ViewWithin(s, t, x);
    hide SysInv;
    assert Kept(s.pol.qers, t.pol.qers, r.active) && Kept(s.pol.qers, t.pol.qers, Pending(r));
    SheetKept(s.pol.qers, t.pol.qers, r);
    ListedSnoc(t.pol.qers, Pending(r), h);
    assert Listed(s.pol.qers, []) == [];
    hide Listed, SessionOk, Local, Kept;
  }

  lemma UpdatedView(sys: System, x: nat, i: nat, key: Option<nat>, mbr: bool)
    requires SysInv(sys) && x in sys.sessions && i < |Pending(sys.sessions[x])|
    ensures View(Step(sys, Update(x, i, key, mbr)))
         == View(sys)[x := View(sys)[x].(pending := Some(Drafted(View(sys)[x])[i := Terms(key, mbr)]))]
  {
    var t, r, hs := Step(sys, Update(x, i, key, mbr)), sys.sessions[x], Pending(sys.sessions[x]);
    assert SessionOk(sys, x);
    assert Local(sys, t, x);
    ViewWithin(sys, t, x);
    hide SysInv;
    assert Kept(sys.pol.qers, t.pol.qers, r.active);
    ListedKept(sys.pol.qers, t.pol.qers, r.active);
    assert Listed(t.pol.qers, hs) == Listed(sys.pol.qers, hs)[i := Terms(key, mbr)];
  }

  lemma RemovedView(sys: System, x: nat, i: nat)
    requires SysInv(sys) && x in sys.sessions && i < |Pending(sys.sessions[x])|
    ensures var d := Drafted(View(sys)[x]);
            View(Step(sys, Remove(x, i))) == View(sys)[x := View(sys)[x].(pending := Some(d[..i] + d[i + 1..]))]
  {
    hide SysInv, Step, Kept, Local;
    var t, r, hs := Step(sys, Remove(x, i)), sys.sessions[x], Pending(sys.sessions[x]);
    var rest := hs[..i] + hs[i + 1..];
    RemovedFacts(sys, x, i);
    ViewWithin(sys, t, x);
    ListedKept(sys.pol.qers, t.pol.qers, r.active);
    ListedKept(sys.pol.qers, t.pol.qers, rest);
    ListedDrop(sys.pol.qers, hs, i);
    hide Listed;
  }

  lemma ListedDrop(qers: map<Handle, Qer>, hs: seq<Handle>, i: nat)
    requires i < |hs|
    ensures Listed(qers, hs[..i] + hs[i + 1..]) == Listed(qers, hs)[..i] + Listed(qers, hs)[i + 1..]
  {
  }

  lemma RemovedFacts(sys: System, x: nat, i: nat)
    requires SysInv(sys) && x in sys.sessions && i < |Pending(sys.sessions[x])|
    ensures var t, r, hs := Step(sys, Remove(x, i)), sys.sessions[x], Pending(sys.sessions[x]);
            var rest := hs[..i] + hs[i + 1..];
            && t.sessions == sys.sessions[x := r.(pending := Some(rest))] && Local(sys, t, x)
            && Kept(sys.pol.qers, t.pol.qers, r.active) && Kept(sys.pol.qers, t.pol.qers, rest)
  {
    var t, r, hs := Step(sys, Remove(x, i)), sys.sessions[x], Pending(sys.sessions[x]);
    assert SessionOk(sys, x);
    FreedRule(sys.pol, hs[i]);
    DropKeeps(hs, i);
    hide Free, SysInv, NoDup;
    assert t.pol.qers == sys.pol.qers - {hs[i]};
  }

  lemma CommittedView(sys: System, x: nat)
    requires SysInv(sys) && x in sys.sessions && sys.sessions[x].pending.Some?
    ensures View(Step(sys, Commit(x))) == View(sys)[x := Sheet(Drafted(View(sys)[x]), None)]
  {
    hide SysInv, Step, Kept, Local;
    var t, r := Step(sys, Commit(x)), sys.sessions[x];
    CommittedFacts(sys, x);
    ListedKept(sys.pol.qers, t.pol.qers, r.pending.value);
    ViewWithin(sys, t, x);
    assert Listed(t.pol.qers, r.pending.value) == Drafted(View(sys)[x]);
    hide Listed;
  }

  lemma CommittedFacts(sys: System, x: nat)
    requires SysInv(sys) && x in sys.sessions && sys.sessions[x].pending.Some?
    ensures var t, r := Step(sys, Commit(x)), sys.sessions[x];
            && t.sessions == sys.sessions[x := Rules(r.pending.value, None)]
            && Local(sys, t, x) && Kept(sys.pol.qers, t.pol.qers, r.pending.value)
  {
    hide Inv, FreeAll, AttachAll, NoDup, Elements, Local;
    var t, r := Step(sys, Commit(x)), sys.sessions[x];
    assert SessionOk(sys, x);
    Committed(sys.pol, r.active, r.pending.value);
    ElementsIn(r.active);
    hide SysInv;
    assert t.next == sys.next && t.pol == FreeAll(AttachAll(sys.pol, r.pending.value), r.active);
    CommittedLocal(sys, t, x);
  }

  lemma ElementsIn(hs: seq<Handle>)
    ensures forall h :: h in Elements(hs) <==> h in hs
  {
  }

  lemma CommittedLocal(sys: System, t: System, x: nat)
    requires x in sys.sessions && SessionOk(sys, x) && t.next == sys.next
    requires sys.sessions[x].pending.Some? && t.sessions == sys.sessions[x := Rules(sys.sessions[x].pending.value, None)]
    requires forall g :: g in t.pol.qers ==> g in sys.pol.qers
    requires forall g :: g in sys.pol.qers && g !in sys.sessions[x].active ==> g in t.pol.qers
    requires forall g :: g in t.pol.qers && g !in sys.sessions[x].pending.value ==> t.pol.qers[g] == sys.pol.qers[g]
    ensures Local(sys, t, x)
  {
  }

  lemma ClosedView(sys: System, x: nat)
    requires SysInv(sys) && x in sys.sessions
    ensures View(Step(sys, Close(x))) == View(sys) - {x}
  {
    hide SysInv, View, Local;
    ClosedFacts(sys, x);
    ViewWithin(sys, Step(sys, Close(x)), x);
  }

  lemma ClosedFacts(sys: System, x: nat)
    requires SysInv(sys) && x in sys.sessions
    ensures Local(sys, Step(sys, Close(x)), x)
  {
    hide Inv, FreeAll, Elements, NoDup, Local;
    var t, r := Step(sys, Close(x)), sys.sessions[x];
    assert SessionOk(sys, x);
    FreeAllInv(sys.pol, r.active);
    FreeAllInv(FreeAll(sys.pol, r.active), Pending(r));
    ElementsIn(r.active);
    ElementsIn(Pending(r));
    hide SysInv;
    assert t.pol == FreeAll(FreeAll(sys.pol, r.active), Pending(r));
    assert t.sessions == sys.sessions - {x} && t.next == sys.next;
    hide Step;
    ClosedLocal(sys, t, x);
  }

  lemma ClosedLocal(sys: System, t: System, x: nat)
    requires x in sys.sessions && SessionOk(sys, x) && t.next == sys.next && t.sessions == sys.sessions - {x}
    requires forall g :: g in t.pol.qers ==> g in sys.pol.qers && t.pol.qers[g] == sys.pol.qers[g]
    requires forall g :: g in sys.pol.qers && g !in sys.sessions[x].active && g !in Pending(sys.sessions[x]) ==> g in t.pol.qers
    ensures Local(sys, t, x)
  {
  }

  /** Every event does to the sessions what it does to the plan. */
  lemma StepView(sys: System, e: Event)
    requires SysInv(sys)
    ensures View(Step(sys, e)) == PlanStep(View(sys), e)
  {
    var x := e.session;
    if x !in sys.sessions {
      if e.Open? {
        OpenedView(sys, x);
      }
    } else {
      SheetSizes(sys, x);
      match e {
        case Open(_) =>
        case Stage(_) => StagedView(sys, x);
        case Create(_, key, mbr) => CreateView(sys, x, key, mbr);
        case Update(_, i, key, mbr) => if i < |Pending(sys.sessions[x])| { UpdatedView(sys, x, i, key, mbr); }
        case Remove(_, i) => if i < |Pending(sys.sessions[x])| { RemovedView(sys, x, i); }
        case Commit(_) => if sys.sessions[x].pending.Some? { CommittedView(sys, x); }
        case Close(_) => ClosedView(sys, x);
      }
    }
    hide SysInv, Staged, FreeAll, AttachAll, Add, FreeOne, SheetOf;
  }

  lemma SheetSizes(sys: System, x: nat)
    requires x in sys.sessions
    ensures var r, d := sys.sessions[x], View(sys)[x];
            |Drafted(d)| == |Pending(r)| && (d.pending.Some? <==> r.pending.Some?)
  {
  }

  lemma OpenedView(sys: System, x: nat)
    requires SysInv(sys) && x !in sys.sessions
    ensures View(Step(sys, Open(x))) == View(sys)[x := Sheet([], None)]
  {
    forall h | h in sys.pol.qers ensures h.session != x {
      OwnedIn(sys, h);
    }
    ViewWithin(sys, Step(sys, Open(x)), x);
  }

  lemma CreateView(sys: System, x: nat, key: Option<nat>, mbr: bool)
    requires SysInv(sys) && x in sys.sessions
    ensures View(Step(sys, Create(x, key, mbr)))
         == View(sys)[x := View(sys)[x].(pending := Some(Drafted(Drafts(View(sys)[x])) + [Terms(key, mbr)]))]
  {
    hide SysInv, Staged, Add, SheetOf;
    StagedInv(sys, x);
    StagedView(sys, x);
    CreatedView(Staged(sys, x), x, key, mbr);
    var m, d := View(sys), Drafts(View(sys)[x]);
    var staged: Plan, e := m[x := d], d.(pending := Some(Drafted(d) + [Terms(key, mbr)]));
    assert staged[x := e] == m[x := e];
  }

  // ----- every run

  lemma {:induction false} RunView(events: seq<Event>)
    ensures View(Run(events)) == PlanRun(events)
    decreases |events|
  {
    if events != [] {
      RunView(events[..|events| - 1]);
      RunInv(events[..|events| - 1]);
      StepView(Run(events[..|events| - 1]), events[|events| - 1]);
      hide SysInv, Step, PlanStep, View;
    }
  }

  /** Where the plan has an active rule that limits the bit rate under the key. */
  ghost function Users(m: Plan, k: nat): set<(nat, nat)> {
    set x, i | x in m && 0 <= i < |m[x].active| && m[x].active[i] == Terms(Some(k), true) :: (x, i)
  }

  lemma {:induction false} InjectiveSize<A, B>(m: map<A, B>)
    requires forall a, b :: a in m && b in m && m[a] == m[b] ==> a == b
    ensures |m.Keys| == |m.Values|
    decreases |m|
  {
    if a :| a in m {
      var rest := m - {a};
      assert rest.Keys == m.Keys - {a};
      assert |rest| < |m| by {
        assert |rest.Keys| == |rest| && |m.Keys| == |m|;
      }
      InjectiveSize(rest);
      forall v | v in m.Values && v != m[a] ensures v in rest.Values {
        var b :| b in m && m[b] == v;
        assert b in rest && rest[b] == v;
      }
      assert rest.Values == m.Values - {m[a]};
    } else {
      assert m.Keys == {} && m.Values == {};
    }
  }

  /** The rule at a place of an active vector. */
  ghost function RuleAt(sys: System, u: (nat, nat)): Handle {
    if u.0 in sys.sessions && u.1 < |sys.sessions[u.0].active| then sys.sessions[u.0].active[u.1] else Handle(u.0, 0)
  }

  ghost function RulesAt(sys: System, k: nat): map<(nat, nat), Handle> {
    map u | u in Users(View(sys), k) :: RuleAt(sys, u)
  }

  /** A user is attached to the policer of the key. */
  lemma UserIsAttached(sys: System, k: nat, u: (nat, nat))
    requires SysInv(sys) && u in Users(View(sys), k)
    ensures k in sys.pol.byId && RuleAt(sys, u) in Attached(sys.pol.qers, sys.pol.byId[k])
    ensures RuleAt(sys, u).session == u.0 && u.0 in sys.sessions && u.1 < |sys.sessions[u.0].active|
  {
    assert SessionOk(sys, u.0);
    var h := RuleAt(sys, u);
    assert h in sys.sessions[u.0].active;
    assert TermsOf(sys.pol.qers, h) == View(sys)[u.0].active[u.1];
    assert UnderKey(sys.pol, h);
  }

  /** A rule attached to the policer of a key is a user of the key. */
  lemma AttachedIsUser(sys: System, k: nat, h: Handle)
    requires SysInv(sys) && k in sys.pol.byId && h in Attached(sys.pol.qers, sys.pol.byId[k])
    ensures h in RulesAt(sys, k).Values
  {
    assert KeyLive(sys.pol, k);
    assert Owned(sys, h);
    var x := h.session;
    assert SessionOk(sys, x);
    assert h in sys.sessions[x].active;
    var i: nat :| i < |sys.sessions[x].active| && sys.sessions[x].active[i] == h;
    assert View(sys)[x].active[i] == TermsOf(sys.pol.qers, h) == Terms(Some(k), true);
    assert (x, i) in Users(View(sys), k);
    assert RulesAt(sys, k)[(x, i)] == h;
  }

  lemma SameRuleSamePlace(sys: System, k: nat, u: (nat, nat), v: (nat, nat))
    requires SysInv(sys) && u in Users(View(sys), k) && v in Users(View(sys), k) && RuleAt(sys, u) == RuleAt(sys, v)
    ensures u == v
  {
    hide Inv, Users, View, Attached;
    UserIsAttached(sys, k, u);
    UserIsAttached(sys, k, v);
    assert SessionOk(sys, u.0);
    hide SysInv, Unattached;
    var hs := sys.sessions[u.0].active;
    assert NoDup(hs) && hs[u.1] == hs[v.1];
  }

  lemma UsersAreAttached(sys: System, k: nat)
    requires SysInv(sys)
    ensures k in sys.pol.byId ==> |Users(View(sys), k)| == |Attached(sys.pol.qers, sys.pol.byId[k])|
    ensures k !in sys.pol.byId ==> Users(View(sys), k) == {}
  {
    hide SysInv, Attached, RuleAt, Users, View;
    forall u | u in Users(View(sys), k)
      ensures k in sys.pol.byId && RuleAt(sys, u) in Attached(sys.pol.qers, sys.pol.byId[k])
    {
      UserIsAttached(sys, k, u);
    }
    if k in sys.pol.byId {
      var m := RulesAt(sys, k);
      forall h | h in Attached(sys.pol.qers, sys.pol.byId[k]) ensures h in m.Values {
        AttachedIsUser(sys, k, h);
      }
      assert m.Values == Attached(sys.pol.qers, sys.pol.byId[k]);
      assert m.Keys == Users(View(sys), k);
      forall u, v | u in m && v in m && m[u] == m[v] ensures u == v {
        SameRuleSamePlace(sys, k, u, v);
      }
      InjectiveSize(m);
    }
  }

  /** In every run, for every key: it has a policer exactly if some active rule of
      some session limits the bit rate under it; the policer is live, its count
      is the number of those rules, and each of them is attached to it. */
  lemma LimitsAreShared(events: seq<Event>, k: nat)
    ensures var sys := Run(events);
            var s, users := sys.pol, Users(PlanRun(events), k);
            && (k in s.byId <==> users != {})
            && (k in s.byId ==> s.byId[k] in s.pool.Used() && s.byId[k] in s.refCnt && s.refCnt[s.byId[k]] == |users|)
            && (forall u :: u in users ==>
                  && u.0 in sys.sessions && u.1 < |sys.sessions[u.0].active| && sys.sessions[u.0].active[u.1] in s.qers
                  && s.qers[sys.sessions[u.0].active[u.1]].policer == Some(s.byId[k]))
  {
    RunView(events);
    RunInv(events);
    var sys := Run(events);
    hide PlanRun, Run;
    UsersAreAttached(sys, k);
    if k in sys.pol.byId {
      assert KeyLive(sys.pol, k);
      assert Counted(sys.pol, sys.pol.byId[k]);
    }
    hide SysInv, Inv;
    forall u | u in Users(View(sys), k)
      ensures && u.0 in sys.sessions && u.1 < |sys.sessions[u.0].active| && k in sys.pol.byId
              && RuleAt(sys, u) in Attached(sys.pol.qers, sys.pol.byId[k])
    {
      UserIsAttached(sys, k, u);
    }
    hide Users;
  }
}
