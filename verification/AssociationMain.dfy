/** Associations and sessions as the program updates them, link by link, with
    the assertions the program makes on the way. */
module AssociationMain {
  import opened Options
  import opened Pools
  import opened Associations

  /** The links form the lists of the nodes. */
  ghost predicate HasLists(s: State) {
    exists chains :: Lists(s, chains)
  }

  lemma HeadFacts(s: State, n: nat)
    requires HasLists(s) && n in s.nodes
    ensures s.nodes[n].Some? ==>
              var x := s.nodes[n].value;
              && x in s.sessions && s.sessions[x].prev == None && s.sessions[x].node == Some(n)
              && var t := Delete(s, x);
                 n in t.nodes && t.nodes[n] == s.sessions[x].next && ReleaseFrom(s, s.nodes[n]) == ReleaseFrom(t, t.nodes[n])
  {
    var chains :| Lists(s, chains);
    assert Linked(s, n, chains[n]);
    if chains[n] != [] {
      assert LinkedAt(s.sessions, n, chains[n], 0);
      ReleaseHead(s, chains, n);
    }
  }

  lemma AttachHas(s: State, n: nat, x: nat)
    requires HasLists(s) && n in s.nodes && x !in s.sessions
    ensures HasLists(Attach(s, n, x))
  {
    var chains :| Lists(s, chains);
    AttachLists(s, chains, n, x);
    hide Lists, Attach;
  }

  /** What the assertions of a detach rest on. */
  lemma DetachHas(s: State, x: nat)
    requires HasLists(s) && x in s.sessions && s.sessions[x].node.Some?
    ensures HasLists(Detach(s, x)) && HasLists(Delete(s, x))
    ensures var l := s.sessions[x];
            && l.node.value in s.nodes
            && (l.prev.Some? ==> l.prev.value in s.sessions && s.sessions[l.prev.value].node == l.node && l.prev != l.next)
            && (l.prev.None? ==> s.nodes[l.node.value] != None)
            && (l.next.Some? ==> l.next.value in s.sessions && s.sessions[l.next.value].node == l.node)
  {
    var chains :| Lists(s, chains);
    LinksAreMutual(s, chains, x);
    var i := PositionOf(s, chains, x);
    var c := chains[s.sessions[x].node.value];
    assert Linked(s, s.sessions[x].node.value, c);
    hide Lists, Linked, Detach, Delete;
    DetachLists(s, chains, s.sessions[x].node.value, i);
    DeleteLists(s, chains, s.sessions[x].node.value, i);
  }

  lemma ReleaseHas(s: State, n: nat)
    requires HasLists(s) && n in s.nodes
    ensures HasLists(Step(s, Release(n)))
  {
    var chains :| Lists(s, chains);
    var after := StepLists(s, chains, Release(n));
    hide Lists, Step;
  }

  class AssocMain {
    var sessions: map<nat, Link>
    var nodes: map<nat, Option<nat>>

    function Contents(): State
      reads this
    {
      State(sessions, nodes)
    }

    ghost predicate Valid()
      reads this
    {
      HasLists(Contents())
    }

    constructor ()
      ensures Contents() == State(map[], map[]) && Valid()
    {
      sessions, nodes := map[], map[];
      new;
      assert Lists(Contents(), map[]);
    }

    method AttachSession(n: nat, x: nat)
      requires Valid() && n in nodes && x !in sessions
      modifies this
      ensures Valid() && Contents() == Attach(old(Contents()), n, x)
    {
      HeadFacts(Contents(), n);
      AttachHas(Contents(), n, x);
      hide HasLists, Delete, ReleaseFrom;
      var head := nodes[n];
      sessions := sessions[x := Link(Some(n), None, None)];
      if head.Some? {
        var first := head.value;
        assert first in sessions;
        assert sessions[first].prev == None;
        assert sessions[first].node == sessions[x].node;
        sessions := sessions[first := sessions[first].(prev := Some(x))];
      }
      sessions := sessions[x := sessions[x].(next := head)];
      nodes := nodes[n := Some(x)];
      assert Contents() == Attach(old(Contents()), n, x);
    }

    method DetachSession(x: nat)
      requires Valid() && x in sessions && sessions[x].node.Some?
      modifies this
      ensures Valid() && Contents() == Detach(old(Contents()), x)
    {
      DetachHas(Contents(), x);
      hide HasLists, Delete;
      var link := sessions[x];
      assert link.node.value in nodes;
      if link.prev.Some? {
        var p := link.prev.value;
        assert sessions[p].node == link.node;
        sessions := sessions[p := sessions[p].(next := link.next)];
      } else {
        assert nodes[link.node.value] != None;
        nodes := nodes[link.node.value := link.next];
      }
      if link.next.Some? {
        var q := link.next.value;
        assert sessions[q].node == link.node;
        sessions := sessions[q := sessions[q].(prev := link.prev)];
      }
      sessions := sessions[x := DETACHED];
      assert Contents() == Detach(old(Contents()), x);
    }

    /** Disables and frees a session. */
    method DeleteSession(x: nat)
      requires Valid() && x in sessions && sessions[x].node.Some?
      modifies this
      ensures Valid() && Contents() == Delete(old(Contents()), x)
    {
      DetachHas(Contents(), x);
      hide HasLists, Detach;
      DetachSession(x);
      sessions := sessions - {x};
    }

    /** Deletes every session of the node and the node itself. */
    method ReleaseAssociation(n: nat)
      requires Valid() && n in nodes
      modifies this
      ensures Valid() && Contents() == Step(old(Contents()), Release(n))
    {
      ReleaseHas(Contents(), n);
      hide HasLists, Delete, ReleaseFrom;
      var idx := nodes[n];
      while idx.Some?
        invariant Valid() && n in nodes && idx == nodes[n]
        invariant ReleaseFrom(Contents(), idx) == ReleaseFrom(old(Contents()), old(nodes[n]))
        decreases |sessions.Keys|
      {
        HeadFacts(Contents(), n);
        assert sessions[idx.value].node == Some(n);
        ghost var size := |sessions.Keys|;
        var x := idx.value;
        idx := sessions[x].next;
        DeleteSession(x);
        assert |sessions.Keys| == size - 1;
      }
      ReleaseNothing(Contents());
      assert nodes[n] == None;
      nodes := nodes - {n};
    }
  }
}
