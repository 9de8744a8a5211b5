/** The timer wheel: one list of timer elements per second of the longest
    lifetime.  An element that falls due at time d is linked at slot d modulo
    600; slots are visited in time order. */
module TimerWheel {
  import opened Pools

  const SLOTS := 600

  type Wheel = seq<seq<nat>>

  /** The first time, at or after `from`, at which the slot is visited. */
  function NextVisit(slot: nat, from: nat): nat {
    from + (slot - from) % SLOTS
  }

  lemma NextVisitIsFirst(slot: nat, from: nat, d: nat)
    requires slot < SLOTS
    ensures NextVisit(slot, from) % SLOTS == slot
    ensures from <= NextVisit(slot, from) < from + SLOTS
    ensures from <= d && d % SLOTS == slot ==> NextVisit(slot, from) <= d
  {
  }

  lemma NextVisitAdvance(slot: nat, from: nat)
    requires slot < SLOTS
    ensures slot != from % SLOTS ==> NextVisit(slot, from + 1) == NextVisit(slot, from)
    ensures slot == from % SLOTS ==> NextVisit(slot, from) == from && NextVisit(slot, from + 1) == from + SLOTS
  {
    NextVisitIsFirst(slot, from, NextVisit(slot, from + 1));
    NextVisitIsFirst(slot, from + 1, NextVisit(slot, from));
    NextVisitIsFirst(slot, from + 1, from + SLOTS);
  }

  // ----- list operations

  /** The list without element e. */
  function Without(l: seq<nat>, e: nat): (r: seq<nat>)
    ensures forall x :: x in r <==> x in l && x != e
    ensures |r| <= |l|
  {
    if l == [] then []
    else if l[0] == e then Without(l[1..], e)
    else [l[0]] + Without(l[1..], e)
  }

  lemma {:induction false} WithoutNoDup(l: seq<nat>, e: nat)
    requires NoDup(l)
    ensures NoDup(Without(l, e))
    ensures e !in l ==> Without(l, e) == l
    ensures l != [] && l[0] == e ==> Without(l, e) == l[1..]
  {
    if l != [] {
      WithoutNoDup(l[1..], e);
      if l[0] == e {
        assert e !in l[1..];
      } else {
        assert l[0] !in Without(l[1..], e);
        assert l == [l[0]] + l[1..];
      }
    }
  }

  /** `clib_dlist_remove`: unlinks e from whatever list it is on. */
  function Unlink(w: Wheel, e: nat): (r: Wheel)
    ensures |r| == |w| && forall s :: 0 <= s < |w| ==> r[s] == Without(w[s], e)
  {
    seq(|w|, s requires 0 <= s < |w| => Without(w[s], e))
  }

  /** `clib_dlist_addtail` onto the list headed by the slot. */
  function AddTail(w: Wheel, slot: nat, e: nat): Wheel
    requires slot < |w|
  {
    w[slot := w[slot] + [e]]
  }

  /** The element after e in the list headed by `slot`; the head after the last. */
  function NextIn(l: seq<nat>, e: nat, slot: nat): nat {
    if |l| == 0 then slot
    else if l[0] == e then (if |l| == 1 then slot else l[1])
    else NextIn(l[1..], e, slot)
  }

  /** Every element is on exactly one list, once, and nothing else is. */
  ghost predicate Linked(w: Wheel, elts: set<nat>) {
    && |w| == SLOTS
    && (forall s :: 0 <= s < SLOTS ==> NoDup(w[s]))
    && (forall s, e :: 0 <= s < SLOTS && e in w[s] ==> e in elts)
    && (forall s, t, e :: 0 <= s < SLOTS && 0 <= t < SLOTS && e in w[s] && e in w[t] ==> s == t)
    && (forall e :: e in elts ==> exists s :: 0 <= s < SLOTS && e in w[s])
  }

  lemma UnlinkLinked(w: Wheel, elts: set<nat>, e: nat)
    requires Linked(w, elts)
    ensures Linked(Unlink(w, e), elts - {e})
  {
    var r := Unlink(w, e);
    forall s | 0 <= s < SLOTS ensures NoDup(r[s]) {
      WithoutNoDup(w[s], e);
    }
    forall x | x in elts - {e} ensures exists s :: 0 <= s < SLOTS && x in r[s] {
      var s :| 0 <= s < SLOTS && x in w[s];
      assert x in r[s];
    }
  }

  lemma AddTailLinked(w: Wheel, elts: set<nat>, slot: nat, e: nat)
    requires Linked(w, elts) && slot < SLOTS && e !in elts
    ensures Linked(AddTail(w, slot, e), elts + {e})
  {
    var r := AddTail(w, slot, e);
    assert e !in w[slot];
    forall x | x in elts + {e} ensures exists s :: 0 <= s < SLOTS && x in r[s] {
      if x == e {
        assert x in r[slot];
      } else {
        var s :| 0 <= s < SLOTS && x in w[s];
        assert x in r[s];
      }
    }
  }

  // ----- deadlines

  /** No element waits in a slot whose next visit, counted from `from`, comes
      after the element is due. */
  ghost predicate OnTime(w: Wheel, due: map<nat, nat>, from: nat) {
    forall s: nat, e :: s < |w| && e in w[s] ==> e in due && NextVisit(s, from) <= due[e]
  }

  /** The slot visited at time t has been dealt with. */
  ghost predicate SlotDone(l: seq<nat>, due: map<nat, nat>, t: nat) {
    forall e :: e in l ==> e in due && t + SLOTS <= due[e]
  }

  lemma Advance(w: Wheel, due: map<nat, nat>, t: nat)
    requires |w| == SLOTS && OnTime(w, due, t) && SlotDone(w[t % SLOTS], due, t)
    ensures OnTime(w, due, t + 1)
  {
    forall s: nat, e | s < |w| && e in w[s]
      ensures e in due && NextVisit(s, t + 1) <= due[e]
    {
      NextVisitAdvance(s, t);
    }
  }

  /** Linking an element at the slot of its own deadline keeps the wheel on time. */
  lemma AddTailOnTime(w: Wheel, due: map<nat, nat>, from: nat, e: nat, d: nat)
    requires |w| == SLOTS && OnTime(w, due, from) && from <= d
    requires forall s :: 0 <= s < |w| ==> e !in w[s]
    ensures OnTime(AddTail(w, d % SLOTS, e), due[e := d], from)
  {
    var r := AddTail(w, d % SLOTS, e);
    forall s: nat, x | s < |r| && x in r[s]
      ensures x in due[e := d] && NextVisit(s, from) <= due[e := d][x]
    {
      if x == e {
        assert s == d % SLOTS;
        NextVisitIsFirst(s, from, d);
      } else {
        assert x in w[s];
      }
    }
  }

  lemma UnlinkOnTime(w: Wheel, due: map<nat, nat>, from: nat, e: nat)
    requires |w| == SLOTS && OnTime(w, due, from)
    ensures OnTime(Unlink(w, e), due - {e}, from)
    ensures forall s :: 0 <= s < |w| ==> e !in Unlink(w, e)[s]
  {
    var r := Unlink(w, e);
    forall s: nat, x | s < |r| && x in r[s]
      ensures x in due - {e} && NextVisit(s, from) <= (due - {e})[x]
    {
      assert x in w[s];
    }
  }

  lemma LaterOnTime(w: Wheel, due: map<nat, nat>, due': map<nat, nat>, from: nat)
    requires OnTime(w, due, from)
    requires forall e :: e in due ==> e in due' && due[e] <= due'[e]
    ensures OnTime(w, due', from)
  {
  }

  /** A wheel on time for `from` holds nothing that fell due earlier. */
  lemma OnTimeMeansNotOverdue(w: Wheel, due: map<nat, nat>, elts: set<nat>, from: nat, e: nat)
    requires Linked(w, elts) && OnTime(w, due, from) && e in elts
    ensures e in due && from <= due[e]
  {
    var s: nat :| s < SLOTS && e in w[s];
    NextVisitIsFirst(s, from, from);
  }

  // ----- the wheel as a whole, under the operations of the flow table

  lemma AddTailKeeps(w: Wheel, elts: set<nat>, due: map<nat, nat>, from: nat, e: nat, d: nat)
    requires Linked(w, elts) && OnTime(w, due, from) && e !in elts && from <= d
    ensures Linked(AddTail(w, d % SLOTS, e), elts + {e})
    ensures OnTime(AddTail(w, d % SLOTS, e), due[e := d], from)
  {
    AddTailLinked(w, elts, d % SLOTS, e);
    AddTailOnTime(w, due, from, e, d);
  }

  lemma UnlinkKeeps(w: Wheel, elts: set<nat>, due: map<nat, nat>, from: nat, e: nat)
    requires Linked(w, elts) && OnTime(w, due, from)
    ensures Linked(Unlink(w, e), elts - {e})
    ensures OnTime(Unlink(w, e), due - {e}, from)
  {
    UnlinkLinked(w, elts, e);
    UnlinkOnTime(w, due, from, e);
  }

  lemma RelinkKeeps(w: Wheel, elts: set<nat>, due: map<nat, nat>, from: nat, e: nat, d: nat)
    requires Linked(w, elts) && OnTime(w, due, from) && e in elts && from <= d
    ensures Linked(AddTail(Unlink(w, e), d % SLOTS, e), elts)
    ensures OnTime(AddTail(Unlink(w, e), d % SLOTS, e), due[e := d], from)
  {
    UnlinkKeeps(w, elts, due, from, e);
    AddTailKeeps(Unlink(w, e), elts - {e}, due - {e}, from, e, d);
    assert elts - {e} + {e} == elts;
    assert (due - {e})[e := d] == due[e := d];
  }
}
