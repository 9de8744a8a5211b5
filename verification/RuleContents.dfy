/** What the two rule sets of a session hold, from staging to the end of every
    run of updates. */
module RuleContents {
  import opened RuleSwap

  /** What an update of the kind would be about to put in force. */
  function Shown(s: Session, k: Kind): seq<nat> {
    Held(if k in s.pend then s.pend else s.act, s.heap, k)
  }

  /** Staging shows the rules in force, and leaves staged ones and everything
      else as it is. */
  lemma StagedHolds(s: Session, k: Kind)
    requires Inv(s)
    ensures var t := MakePending(s, k);
            && (k in s.pend ==> t == s)
            && (k !in s.pend ==> Held(t.pend, t.heap, k) == Held(s.act, s.heap, k))
            && (forall j :: j != k ==> (j in t.pend <==> j in s.pend) && Held(t.pend, t.heap, j) == Held(s.pend, s.heap, j))
            && (forall j :: Held(t.act, t.heap, j) == Held(s.act, s.heap, j))
  {
    ActiveApart(s);
    hide Inv;
  }

  /** Writing a staged vector: it holds the rules, nothing else changes. */
  lemma WrittenHolds(m: Session, k: Kind, rules: seq<nat>)
    requires Inv(m)
    ensures var t := Written(m, k, rules);
            && k in t.pend && Held(t.pend, t.heap, k) == rules
            && (forall j :: j != k ==> (j in t.pend <==> j in m.pend) && Held(t.pend, t.heap, j) == Held(m.pend, m.heap, j))
            && (forall j :: Held(t.act, t.heap, j) == Held(m.act, m.heap, j))
  {
    ActiveApart(m);
    hide Inv, Held;
    var n := if k in m.pend then m.pend[k] else m.next;
    forall j ensures Held(m.act, m.heap[Ptr(k, n) := rules], j) == Held(m.act, m.heap, j) {
      HeldWritten(m.act, m.heap, Ptr(k, n), rules, j);
    }
    forall j ensures Held(m.pend[k := n], m.heap[Ptr(k, n) := rules], j) == if j == k then rules else Held(m.pend, m.heap, j) {
      HeldWritten(m.pend[k := n], m.heap, Ptr(k, n), rules, j);
      HeldElsewhere(m.pend, m.heap, k, n, j);
    }
    assert k in m.pend ==> m.pend[k := n] == m.pend;
  }

  lemma HeldWritten(r: RuleSet, heap: map<Ptr, seq<nat>>, p: Ptr, rules: seq<nat>, j: Kind)
    ensures Held(r, heap[p := rules], j) == if j in r && p == Ptr(j, r[j]) then rules else Held(r, heap, j)
  {
  }

  lemma HeldElsewhere(r: RuleSet, heap: map<Ptr, seq<nat>>, k: Kind, n: nat, j: Kind)
    ensures j != k ==> Held(r[k := n], heap, j) == Held(r, heap, j)
  {
  }

  /** The vectors in force are none of the pending ones, nor the next new one. */
  lemma ActiveApart(m: Session)
    requires Inv(m)
    ensures forall j :: j in m.act ==> m.act[j] < m.next && (j in m.pend ==> m.act[j] != m.pend[j])
  {
    forall j | j in m.act ensures m.act[j] < m.next && (j in m.pend ==> m.act[j] != m.pend[j]) {
      assert KindOk(m, j);
      assert PtrOk(m, Ptr(j, m.act[j]));
    }
  }

  lemma EditHolds(s: Session, k: Kind, rules: seq<nat>)
    requires Inv(s) && IsRule(k)
    ensures var t := Edit(s, k, rules);
            && k in t.pend && Held(t.pend, t.heap, k) == rules
            && (forall j :: j != k ==> (j in t.pend <==> j in s.pend) && Held(t.pend, t.heap, j) == Held(s.pend, s.heap, j))
            && (forall j :: Held(t.act, t.heap, j) == Held(s.act, s.heap, j))
  {
    hide MakePending, Written, Inv, Held;
    StagedHolds(s, k);
    MakePendingInv(s, k);
    WrittenHolds(MakePending(s, k), k, rules);
  }

  /** An update puts in force what is shown, for every kind of rules. */
  lemma UpdateHolds(s: Session, derive: Derive, endpoints: Derive, k: Kind)
    requires Inv(s) && IsRule(k)
    ensures var t := Step(s, Update, derive, endpoints);
            Held(t.act, t.heap, k) == Shown(t, k) == Shown(s, k)
  {
    UpdateSwap(s, derive, endpoints);
    hide Inv, Apply, Finish, Held, RuleSwapped, Expected;
    SwappedHeld(s, Step(s, Update, derive, endpoints), k);
  }

  /** Staging and then updating without a change in between changes no rule. */
  lemma StageAndUpdate(s: Session, k: Kind, derive: Derive, endpoints: Derive, j: Kind)
    requires Inv(s) && IsRule(k) && IsRule(j) && s.pend == map[]
    ensures var t := Step(Step(s, Stage(k), derive, endpoints), Update, derive, endpoints);
            Held(t.act, t.heap, j) == Held(s.act, s.heap, j)
  {
    hide Inv, MakePending, Apply, Finish, Held;
    MakePendingInv(s, k);
    StagedHolds(s, k);
    UpdateHolds(MakePending(s, k), derive, endpoints, j);
  }

  // ----- runs

  /** The rules of the kind that were written last. */
  function LastWritten(events: seq<Event>, k: Kind): seq<nat> {
    if events == [] then []
    else
      var e := events[|events| - 1];
      if e.Change? && e.kind == k then e.rules else LastWritten(events[..|events| - 1], k)
  }

  /** The events up to the last update. */
  function UpToUpdate(events: seq<Event>): seq<Event> {
    if events == [] || events[|events| - 1].Update? then events else UpToUpdate(events[..|events| - 1])
  }

  /** In every run, for every kind of rules: in force is what was last written
      before the last update, and shown what was last written. */
  lemma {:induction false} InForce(events: seq<Event>, derive: Derive, endpoints: Derive, k: Kind)
    requires IsRule(k)
    ensures var s := Run(events, derive, endpoints);
            && Held(s.act, s.heap, k) == LastWritten(UpToUpdate(events), k)
            && Shown(s, k) == LastWritten(events, k)
    decreases |events|
  {
    if events != [] {
      var init := events[..|events| - 1];
      InForce(init, derive, endpoints, k);
      RunInv(init, derive, endpoints);
      StepHolds(Run(init, derive, endpoints), events[|events| - 1], derive, endpoints, k);
      hide Inv, Step, Held;
    }
  }

  lemma StepHolds(s: Session, e: Event, derive: Derive, endpoints: Derive, k: Kind)
    requires Inv(s) && IsRule(k)
    ensures var t := Step(s, e, derive, endpoints);
            && Shown(t, k) == (if e.Change? && e.kind == k then e.rules else Shown(s, k))
            && Held(t.act, t.heap, k) == if e.Update? then Shown(s, k) else Held(s.act, s.heap, k)
  {
    hide Inv, MakePending, Edit, Apply, Finish, Held;
    match e {
      case Change(j, rules) => if IsRule(j) { EditHolds(s, j, rules); EditInv(s, j, rules); }
      case Stage(j) => if IsRule(j) { StageShows(s, j, k); }
      case Update => UpdateHolds(s, derive, endpoints, k);
    }
  }

  lemma StageShows(s: Session, j: Kind, k: Kind)
    requires Inv(s)
    ensures var t := MakePending(s, j);
            Shown(t, k) == Shown(s, k) && Held(t.act, t.heap, k) == Held(s.act, s.heap, k)
  {
    StagedHolds(s, j);
    hide Inv, Held;
  }

  /** In every run the address and filter lists in force are those of the
      detection rules in force. */
  lemma {:induction false} ListsFollow(events: seq<Event>, derive: Derive, endpoints: Derive, k: Kind)
    requires !IsRule(k) && !IsTeid(k) && derive(k, []) == []
    ensures var s := Run(events, derive, endpoints);
            Held(s.act, s.heap, k) == derive(k, Held(s.act, s.heap, PdrVec))
    decreases |events|
  {
    if events != [] {
      var init := events[..|events| - 1];
      ListsFollow(init, derive, endpoints, k);
      RunInv(init, derive, endpoints);
      ListsStep(Run(init, derive, endpoints), events[|events| - 1], derive, endpoints, k);
      hide Inv, Step, Held;
    }
  }

  lemma ListsStep(s: Session, e: Event, derive: Derive, endpoints: Derive, k: Kind)
    requires Inv(s) && !IsRule(k) && !IsTeid(k)
    requires Held(s.act, s.heap, k) == derive(k, Held(s.act, s.heap, PdrVec))
    ensures var t := Step(s, e, derive, endpoints);
            Held(t.act, t.heap, k) == derive(k, Held(t.act, t.heap, PdrVec))
  {
    hide Inv, MakePending, Edit, Apply, Finish, Held, RuleSwapped, Staged;
    match e {
      case Change(j, rules) => if IsRule(j) { EditHolds(s, j, rules); }
      case Stage(j) => StagedHolds(s, j);
      case Update =>
        UpdateSwap(s, derive, endpoints);
        UpdateHolds(s, derive, endpoints, PdrVec);
        StagedNone(s);
    }
  }
}
