/** The sessions of each association, kept as a doubly linked list through the
    session entries themselves. */
module Associations {
  import opened Options
  import opened Pools

  datatype Link = Link(node: Option<nat>, prev: Option<nat>, next: Option<nat>)

  const DETACHED := Link(None, None, None)

  /** The links of every live session and the first session of every node. */
  datatype State = State(sessions: map<nat, Link>, nodes: map<nat, Option<nat>>)

  function SetPrev(ss: map<nat, Link>, at: Option<nat>, prev: Option<nat>): map<nat, Link> {
    if at.Some? && at.value in ss then ss[at.value := ss[at.value].(prev := prev)] else ss
  }

  function SetNext(ss: map<nat, Link>, at: Option<nat>, next: Option<nat>): map<nat, Link> {
    if at.Some? && at.value in ss then ss[at.value := ss[at.value].(next := next)] else ss
  }

  /** A session becomes the first of its node's list. */
  function Attach(s: State, n: nat, x: nat): State
    requires n in s.nodes
  {
    State(SetPrev(s.sessions, s.nodes[n], Some(x))[x := Link(Some(n), None, s.nodes[n])], s.nodes[n := Some(x)])
  }

  function Detach(s: State, x: nat): State
    requires x in s.sessions && s.sessions[x].node.Some?
  {
    var l := s.sessions[x];
    State(SetPrev(SetNext(s.sessions, l.prev, l.next), l.next, l.prev)[x := DETACHED],
          if l.prev.None? then s.nodes[l.node.value := l.next] else s.nodes)
  }

  /** A session is disabled and freed. */
  function Delete(s: State, x: nat): (t: State)
    requires x in s.sessions && s.sessions[x].node.Some?
    ensures t.sessions.Keys == s.sessions.Keys - {x}
  {
    var d := Detach(s, x);
    d.(sessions := d.sessions - {x})
  }

  // ----- the lists

  function At(c: seq<nat>, i: int): Option<nat> {
    if 0 <= i < |c| then Some(c[i]) else None
  }

  /** Position i of the list c of node n is linked to its neighbours. */
  ghost predicate LinkedAt(ss: map<nat, Link>, n: nat, c: seq<nat>, i: nat)
    requires i < |c|
  {
    c[i] in ss && ss[c[i]] == Link(Some(n), At(c, i - 1), At(c, i + 1))
  }

  ghost predicate Linked(s: State, n: nat, c: seq<nat>) {
    && NoDup(c) && n in s.nodes && s.nodes[n] == At(c, 0)
    && forall i: nat :: i < |c| ==> LinkedAt(s.sessions, n, c, i)
  }

  ghost predicate Listed(s: State, chains: map<nat, seq<nat>>, x: nat)
    requires x in s.sessions
  {
    var node := s.sessions[x].node;
    node.Some? ==> node.value in chains && x in chains[node.value]
  }

  /** Each node's list is linked up, and every attached session is in its list. */
  ghost predicate Lists(s: State, chains: map<nat, seq<nat>>) {
    && chains.Keys == s.nodes.Keys
    && (forall n :: n in chains ==> Linked(s, n, chains[n]))
    && (forall x :: x in s.sessions ==> Listed(s, chains, x))
  }

  /** The list headed at a node holds exactly the sessions of that node. */
  lemma ListsMembers(s: State, chains: map<nat, seq<nat>>, n: nat, x: nat)
    requires Lists(s, chains) && n in s.nodes
    ensures x in chains[n] <==> x in s.sessions && s.sessions[x].node == Some(n)
  {
    if x in chains[n] {
      var i: nat :| i < |chains[n]| && chains[n][i] == x;
      assert LinkedAt(s.sessions, n, chains[n], i);
    }
    if x in s.sessions {
      assert Listed(s, chains, x);
    }
  }

  lemma PositionOf(s: State, chains: map<nat, seq<nat>>, x: nat) returns (i: nat)
    requires Lists(s, chains) && x in s.sessions && s.sessions[x].node.Some?
    ensures var n := s.sessions[x].node.value;
            n in chains && i < |chains[n]| && chains[n][i] == x && LinkedAt(s.sessions, n, chains[n], i)
  {
    assert Listed(s, chains, x);
    var n := s.sessions[x].node.value;
    i :| i < |chains[n]| && chains[n][i] == x;
    assert Linked(s, n, chains[n]);
  }

  /** Previous and next are inverse to each other and stay within one node. */
  lemma LinksAreMutual(s: State, chains: map<nat, seq<nat>>, x: nat)
    requires Lists(s, chains) && x in s.sessions && s.sessions[x].node.Some?
    ensures var l := s.sessions[x];
            && (l.next.Some? ==> l.next.value in s.sessions && s.sessions[l.next.value].prev == Some(x)
                                 && s.sessions[l.next.value].node == l.node)
            && (l.prev.Some? ==> l.prev.value in s.sessions && s.sessions[l.prev.value].next == Some(x)
                                 && s.sessions[l.prev.value].node == l.node)
            && l.node.value in s.nodes
            && (l.prev.None? <==> s.nodes[l.node.value] == Some(x))
  {
    var i := PositionOf(s, chains, x);
    var n := s.sessions[x].node.value;
    var c := chains[n];
    assert Linked(s, n, c);
    if i > 0 {
      assert LinkedAt(s.sessions, n, c, i - 1);
    }
    if i + 1 < |c| {
      assert LinkedAt(s.sessions, n, c, i + 1);
    }
  }

  /** Lists of different nodes share no session. */
  lemma ListsAreDisjoint(s: State, chains: map<nat, seq<nat>>, m: nat, n: nat, x: nat)
    requires Lists(s, chains) && m in s.nodes && n in s.nodes && x in chains[m] && x in chains[n]
    ensures m == n
  {
    ListsMembers(s, chains, m, x);
    ListsMembers(s, chains, n, x);
  }

  /** A list is untouched by changes to sessions outside it. */
  lemma LinkedFrame(s: State, t: State, n: nat, c: seq<nat>)
    requires Linked(s, n, c) && n in t.nodes && t.nodes[n] == s.nodes[n]
    requires forall x :: x in c ==> x in s.sessions && x in t.sessions && t.sessions[x] == s.sessions[x]
    ensures Linked(t, n, c)
  {
    forall i: nat | i < |c| ensures LinkedAt(t.sessions, n, c, i) {
      assert LinkedAt(s.sessions, n, c, i);
      assert c[i] in c;
    }
  }

  lemma {:induction false} AttachLists(s: State, chains: map<nat, seq<nat>>, n: nat, x: nat)
    requires Lists(s, chains) && n in s.nodes && (x in s.sessions ==> s.sessions[x].node.None?)
    ensures Lists(Attach(s, n, x), chains[n := [x] + chains[n]])
  {
    var t := Attach(s, n, x);
    var c := chains[n];
    var c' := [x] + c;
    var chains' := chains[n := c'];
    ListsMembers(s, chains, n, x);
    assert Linked(s, n, c);
    AttachHere(s, n, x, c);
    forall m | m in chains && m != n ensures Linked(t, m, chains[m]) {
      assert Linked(s, m, chains[m]);
      forall y | y in chains[m] ensures y in s.sessions && y in t.sessions && t.sessions[y] == s.sessions[y] {
        ListsMembers(s, chains, m, y);
        if c != [] {
          ListsMembers(s, chains, n, c[0]);
        }
      }
      LinkedFrame(s, t, m, chains[m]);
    }
    forall y | y in t.sessions ensures Listed(t, chains', y) {
      if y in s.sessions {
        assert Listed(s, chains, y);
      }
      assert x in c';
      assert forall z :: z in c ==> z in c';
    }
  }

  lemma AttachHere(s: State, n: nat, x: nat, c: seq<nat>)
    requires Linked(s, n, c) && x !in c
    ensures Linked(Attach(s, n, x), n, [x] + c)
  {
    var t := Attach(s, n, x);
    var c' := [x] + c;
    forall i: nat | i < |c'| ensures LinkedAt(t.sessions, n, c', i) {
      if i > 0 {
        assert LinkedAt(s.sessions, n, c, i - 1);
        assert c'[i] == c[i - 1];
      }
    }
  }

  /** A list without its i-th element. */
  function Drop(c: seq<nat>, i: nat): seq<nat>
    requires i < |c|
  {
    c[..i] + c[i + 1..]
  }

  lemma DetachHere(s: State, n: nat, c: seq<nat>, i: nat)
    requires Linked(s, n, c) && i < |c|
    ensures c[i] in s.sessions && s.sessions[c[i]].node == Some(n)
    ensures Linked(Detach(s, c[i]), n, Drop(c, i))
  {
    assert LinkedAt(s.sessions, n, c, i);
    var t := Detach(s, c[i]);
    var c' := Drop(c, i);
    if i > 0 {
      assert LinkedAt(s.sessions, n, c, i - 1);
    }
    if i + 1 < |c| {
      assert LinkedAt(s.sessions, n, c, i + 1);
    }
    forall j: nat | j < |c'| ensures LinkedAt(t.sessions, n, c', j) {
      if j < i {
        assert LinkedAt(s.sessions, n, c, j);
      } else {
        assert LinkedAt(s.sessions, n, c, j + 1);
      }
    }
  }

  /** Detaching touches the session and its two neighbours only. */
  lemma DetachFrame(s: State, n: nat, c: seq<nat>, i: nat, y: nat)
    requires Linked(s, n, c) && i < |c| && y in s.sessions && y !in c
    ensures c[i] in s.sessions && s.sessions[c[i]].node == Some(n)
    ensures y in Detach(s, c[i]).sessions && Detach(s, c[i]).sessions[y] == s.sessions[y]
  {
    assert LinkedAt(s.sessions, n, c, i);
  }

  lemma DetachNodes(s: State, n: nat, c: seq<nat>, i: nat)
    requires Linked(s, n, c) && i < |c|
    ensures c[i] in s.sessions && s.sessions[c[i]].node == Some(n)
    ensures var t := Detach(s, c[i]);
            && t.sessions.Keys == s.sessions.Keys && t.nodes.Keys == s.nodes.Keys
            && (forall m :: m in s.nodes && m != n ==> t.nodes[m] == s.nodes[m])
            && (forall y :: y in s.sessions ==> t.sessions[y].node == if y == c[i] then None else s.sessions[y].node)
            && t.sessions[c[i]] == DETACHED
  {
    assert LinkedAt(s.sessions, n, c, i);
  }

  lemma {:induction false} DetachLists(s: State, chains: map<nat, seq<nat>>, n: nat, i: nat)
    requires Lists(s, chains) && n in chains && i < |chains[n]|
    ensures var x := chains[n][i];
            && x in s.sessions && s.sessions[x].node == Some(n)
            && Lists(Detach(s, x), chains[n := Drop(chains[n], i)])
  {
    var c := chains[n];
    var x := c[i];
    assert Linked(s, n, c);
    DetachHere(s, n, c, i);
    DetachNodes(s, n, c, i);
    var t := Detach(s, x);
    var chains' := chains[n := Drop(c, i)];
    forall m | m in chains && m != n ensures Linked(t, m, chains[m]) {
      assert Linked(s, m, chains[m]);
      forall y | y in chains[m] ensures y in s.sessions && y in t.sessions && t.sessions[y] == s.sessions[y] {
        ListsMembers(s, chains, m, y);
        ListsMembers(s, chains, n, y);
        DetachFrame(s, n, c, i, y);
      }
      LinkedFrame(s, t, m, chains[m]);
    }
    hide Detach, Linked;
    forall y | y in t.sessions ensures Listed(t, chains', y) {
      assert Listed(s, chains, y);
      if y != x && y in c {
        DropKeeps(c, i, y);
      }
    }
  }

  lemma DropKeeps(c: seq<nat>, i: nat, y: nat)
    requires i < |c| && y in c && y != c[i]
    ensures y in Drop(c, i)
  {
    var k :| 0 <= k < |c| && c[k] == y;
    if k < i {
      assert Drop(c, i)[k] == y;
    } else {
      assert Drop(c, i)[k - 1] == y;
    }
  }

  /** Sessions outside c and nodes other than n are as they were. */
  ghost predicate OthersKept(s: State, t: State, n: nat, c: seq<nat>) {
    && (forall y :: y in s.sessions && y !in c ==> y in t.sessions && t.sessions[y] == s.sessions[y])
    && (forall m :: m in s.nodes && m != n ==> m in t.nodes && t.nodes[m] == s.nodes[m])
  }

  lemma DeleteLists(s: State, chains: map<nat, seq<nat>>, n: nat, i: nat)
    requires Lists(s, chains) && n in chains && i < |chains[n]|
    ensures var x := chains[n][i];
            && x in s.sessions && s.sessions[x].node == Some(n)
            && Lists(Delete(s, x), chains[n := Drop(chains[n], i)])
            && OthersKept(s, Delete(s, x), n, chains[n])
  {
    var c := chains[n];
    assert Linked(s, n, c);
    DetachLists(s, chains, n, i);
    DetachNodes(s, n, c, i);
    var d, t := Detach(s, c[i]), Delete(s, c[i]);
    var chains' := chains[n := Drop(c, i)];
    forall y | y in s.sessions && y !in c ensures y in t.sessions && t.sessions[y] == s.sessions[y] {
      DetachFrame(s, n, c, i, y);
    }
    hide Detach;
    forall m | m in chains' ensures Linked(t, m, chains'[m]) {
      assert Linked(d, m, chains'[m]);
      forall y | y in chains'[m] ensures y in d.sessions && y in t.sessions && t.sessions[y] == d.sessions[y] {
        ListsMembers(d, chains', m, y);
      }
      LinkedFrame(d, t, m, chains'[m]);
    }
    forall y | y in t.sessions ensures Listed(t, chains', y) {
      assert Listed(d, chains', y);
    }
  }

  // ----- releasing an association

  /** The sessions from idx on are deleted one by one; the next one is read
      before the session goes. */
  function ReleaseFrom(s: State, idx: Option<nat>): State
    decreases |s.sessions.Keys|
  {
    if idx.None? || idx.value !in s.sessions || s.sessions[idx.value].node.None? then s
    else
      var t := Delete(s, idx.value);
      assert |t.sessions.Keys| == |s.sessions.Keys| - 1;
      ReleaseFrom(t, s.sessions[idx.value].next)
  }

  /** Exactly the sessions of c are gone; other sessions and other nodes are as
      they were. */
  ghost predicate OnlyGone(s: State, t: State, n: nat, c: seq<nat>) {
    && t.sessions.Keys == s.sessions.Keys - Elements(c)
    && (forall y :: y in t.sessions ==> y in s.sessions && t.sessions[y] == s.sessions[y])
    && (forall m :: m in s.nodes && m != n ==> m in t.nodes && t.nodes[m] == s.nodes[m])
  }

  lemma OnlyGoneNext(s: State, t: State, u: State, n: nat, c: seq<nat>)
    requires c != [] && t.sessions.Keys == s.sessions.Keys - {c[0]}
    requires OthersKept(s, t, n, c) && OnlyGone(t, u, n, c[1..])
    ensures OnlyGone(s, u, n, c)
  {
    assert Elements(c) == {c[0]} + Elements(c[1..]);
    assert forall y :: y in u.sessions ==> y !in c;
  }

  /** Releasing from the head empties the node's list, deletes exactly its
      sessions and changes nothing else. */
  lemma {:induction false} ReleaseEmpties(s: State, chains: map<nat, seq<nat>>, n: nat)
    requires Lists(s, chains) && n in s.nodes
    ensures var t := ReleaseFrom(s, s.nodes[n]);
            && Lists(t, chains[n := []]) && n in t.nodes && t.nodes[n] == None
            && OnlyGone(s, t, n, chains[n])
    decreases |chains[n]|
  {
    assert n in chains;
    hide Linked, Delete, ReleaseFrom, Lists, Elements, OnlyGone, OthersKept;
    var c := chains[n];
    if c == [] {
      ReleaseEmptied(s, chains, n);
    } else {
      HeadDeleted(s, chains, n);
      var t := Delete(s, c[0]);
      var chains' := chains[n := c[1..]];
      ReleaseEmpties(t, chains', n);
      OnlyGoneNext(s, t, ReleaseFrom(t, t.nodes[n]), n, c);
    }
  }

  /** One round of the loop deletes the head. */
  lemma HeadDeleted(s: State, chains: map<nat, seq<nat>>, n: nat)
    requires Lists(s, chains) && n in s.nodes && n in chains && chains[n] != []
    ensures var c := chains[n];
            && c[0] in s.sessions && s.sessions[c[0]].node.Some?
            && var t := Delete(s, c[0]);
               && n in t.nodes && ReleaseFrom(s, s.nodes[n]) == ReleaseFrom(t, t.nodes[n])
               && Lists(t, chains[n := c[1..]]) && OthersKept(s, t, n, c)
               && chains[n := c[1..]][n := []] == chains[n := []]
  {
    hide Linked, Delete, ReleaseFrom, Lists, OthersKept;
    ReleaseHead(s, chains, n);
    DeleteLists(s, chains, n, 0);
    assert Drop(chains[n], 0) == chains[n][1..];
  }

  lemma ReleaseNothing(s: State)
    ensures ReleaseFrom(s, None) == s
  {
  }

  lemma ReleaseEmptied(s: State, chains: map<nat, seq<nat>>, n: nat)
    requires Lists(s, chains) && n in s.nodes && chains[n] == []
    ensures s.nodes[n] == None && chains[n := []] == chains && ReleaseFrom(s, None) == s && OnlyGone(s, s, n, [])
  {
    assert Linked(s, n, chains[n]);
    ReleaseNothing(s);
    var none: seq<nat> := [];
    assert Elements(none) == {};
  }

  /** One round of the loop: the head goes and its successor is the new head. */
  lemma ReleaseHead(s: State, chains: map<nat, seq<nat>>, n: nat)
    requires Lists(s, chains) && n in s.nodes && chains[n] != []
    ensures var x := chains[n][0];
            && x in s.sessions && s.sessions[x].node.Some?
            && n in Delete(s, x).nodes
            && ReleaseFrom(s, s.nodes[n]) == ReleaseFrom(Delete(s, x), Delete(s, x).nodes[n])
  {
    var c := chains[n];
    assert Linked(s, n, c);
    assert LinkedAt(s.sessions, n, c, 0);
  }

  // ----- runs

  /** What the protocol does to associations and sessions; indices come from
      pools, so a new one is free. */
  datatype Event = Associate(node: nat) | Create(node: nat, session: nat) | Remove(session: nat) | Release(node: nat)

  function Step(s: State, e: Event): State {
    match e
    case Associate(n) => if n in s.nodes then s else s.(nodes := s.nodes[n := None])
    case Create(n, x) => if n in s.nodes && x !in s.sessions then Attach(s, n, x) else s
    case Remove(x) => if x in s.sessions && s.sessions[x].node.Some? then Delete(s, x) else s
    case Release(n) =>
      if n !in s.nodes then s
      else
        var t := ReleaseFrom(s, s.nodes[n]);
        t.(nodes := t.nodes - {n})
  }

  function Run(s: State, events: seq<Event>): State {
    if events == [] then s else Step(Run(s, events[..|events| - 1]), events[|events| - 1])
  }

  lemma StepLists(s: State, chains: map<nat, seq<nat>>, e: Event) returns (chains': map<nat, seq<nat>>)
    requires Lists(s, chains)
    ensures Lists(Step(s, e), chains')
  {
    chains' := chains;
    assert chains.Keys == s.nodes.Keys;
    hide Lists, Linked, Attach, Delete, ReleaseFrom, OnlyGone;
    match e {
      case Associate(n) =>
        if n !in s.nodes {
          chains' := chains[n := []];
          AssociateLists(s, chains, n);
        }
      case Create(n, x) =>
        if n in s.nodes && x !in s.sessions {
          AttachLists(s, chains, n, x);
          chains' := chains[n := [x] + chains[n]];
        }
      case Remove(x) =>
        if x in s.sessions && s.sessions[x].node.Some? {
          var n := s.sessions[x].node.value;
          var i := PositionOf(s, chains, x);
          DeleteLists(s, chains, n, i);
          chains' := chains[n := Drop(chains[n], i)];
        }
      case Release(n) =>
        if n in s.nodes {
          chains' := chains - {n};
          ReleaseLists(s, chains, n);
        }
    }
  }

  lemma ReleaseLists(s: State, chains: map<nat, seq<nat>>, n: nat)
    requires Lists(s, chains) && n in s.nodes
    ensures Lists(Step(s, Release(n)), chains - {n})
  {
    assert n in chains;
    hide Lists, ReleaseFrom, OnlyGone;
    ReleaseEmpties(s, chains, n);
    DissociateLists(ReleaseFrom(s, s.nodes[n]), chains[n := []], n);
    assert chains[n := []] - {n} == chains - {n};
  }

  lemma AssociateLists(s: State, chains: map<nat, seq<nat>>, n: nat)
    requires Lists(s, chains) && n !in s.nodes
    ensures Lists(s.(nodes := s.nodes[n := None]), chains[n := []])
  {
    var t := s.(nodes := s.nodes[n := None]);
    forall m | m in chains ensures Linked(t, m, chains[m]) {
      assert Linked(s, m, chains[m]);
      assert forall i: nat :: i < |chains[m]| ==> LinkedAt(s.sessions, m, chains[m], i);
    }
    forall y | y in t.sessions ensures Listed(t, chains[n := []], y) {
      assert Listed(s, chains, y);
    }
  }

  lemma DissociateLists(s: State, chains: map<nat, seq<nat>>, n: nat)
    requires Lists(s, chains) && n in chains && chains[n] == []
    ensures Lists(s.(nodes := s.nodes - {n}), chains - {n})
  {
    var t := s.(nodes := s.nodes - {n});
    forall m | m in chains && m != n ensures Linked(t, m, chains[m]) {
      assert Linked(s, m, chains[m]);
      assert forall i: nat :: i < |chains[m]| ==> LinkedAt(s.sessions, m, chains[m], i);
    }
    forall y | y in t.sessions ensures Listed(t, chains - {n}, y) {
      assert Listed(s, chains, y);
    }
  }

  /** Every reachable state: the lists hold, so each node's list holds exactly
      its sessions, and every session belongs to a live node. */
  lemma {:induction false} RunLists(events: seq<Event>) returns (chains: map<nat, seq<nat>>)
    ensures var s := Run(State(map[], map[]), events);
            && Lists(s, chains)
            && (forall n :: n in s.nodes ==> Elements(chains[n]) == set x | x in s.sessions && s.sessions[x].node == Some(n))
            && (forall x :: x in s.sessions ==> s.sessions[x].node.Some? && s.sessions[x].node.value in s.nodes)
  {
    chains := RunAttached(events);
    var s := Run(State(map[], map[]), events);
    forall n | n in s.nodes ensures Elements(chains[n]) == set x | x in s.sessions && s.sessions[x].node == Some(n) {
      forall x {
        ListsMembers(s, chains, n, x);
      }
    }
    forall x | x in s.sessions ensures s.sessions[x].node.Some? && s.sessions[x].node.value in s.nodes {
      assert Listed(s, chains, x);
    }
  }

  lemma {:induction false} RunAttached(events: seq<Event>) returns (chains: map<nat, seq<nat>>)
    ensures var s := Run(State(map[], map[]), events);
            Lists(s, chains) && forall x :: x in s.sessions ==> s.sessions[x].node.Some?
    decreases |events|
  {
    if events == [] {
      chains := map[];
    } else {
      var k := |events| - 1;
      var before := RunAttached(events[..k]);
      var s := Run(State(map[], map[]), events[..k]);
      chains := StepLists(s, before, events[k]);
      StepAttached(s, before, events[k]);
    }
  }

  lemma StepAttached(s: State, chains: map<nat, seq<nat>>, e: Event)
    requires Lists(s, chains) && forall x :: x in s.sessions ==> s.sessions[x].node.Some?
    ensures forall x :: x in Step(s, e).sessions ==> Step(s, e).sessions[x].node.Some?
  {
    match e {
      case Associate(n) =>
      case Create(n, x) =>
      case Remove(x) =>
        if x in s.sessions {
          var i := PositionOf(s, chains, x);
          var n := s.sessions[x].node.value;
          assert Linked(s, n, chains[n]);
          DetachNodes(s, n, chains[n], i);
        }
      case Release(n) =>
        if n in s.nodes {
          ReleaseEmpties(s, chains, n);
        }
    }
  }
}
