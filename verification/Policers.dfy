/** Policers shared by the QoS rules of all sessions: one per correlation key,
    counted by the rules attached to it and released with the last of them. */
module Policers {
  import opened Options
  import opened Pools

  /** A QoS enforcement rule: its policer key, if it has one, whether it limits
      the bit rate, and the policer it is attached to. */
  datatype Qer = Qer(key: Option<nat>, mbr: bool, policer: Option<nat>)

  /** A rule in the memory of a session. */
  datatype Handle = Handle(session: nat, uid: nat)

  /** The policer pool, the reference counts, the policers by key, and the rules
      of all sessions, active or staged. */
  datatype State = State(pool: Pool, refCnt: map<nat, int>, byId: map<nat, nat>, qers: map<Handle, Qer>)

  /** Attaching finds the key's policer or makes one. */
  function Attach(s: State, h: Handle): State
    requires h in s.qers
  {
    var q := s.qers[h];
    if q.key.None? || !q.mbr then s
    else if q.key.value !in s.byId then
      var p := s.pool.NextIndex();
      State(s.pool.Get(), s.refCnt[p := 1], s.byId[q.key.value := p], s.qers[h := q.(policer := Some(p))])
    else
      var p := s.byId[q.key.value];
      var n := if p in s.refCnt then s.refCnt[p] else 0;
      s.(refCnt := s.refCnt[p := n + 1], qers := s.qers[h := q.(policer := Some(p))])
  }

  /** Freeing a rule drops its reference; the last one releases the policer. */
  function Free(s: State, h: Handle): State
    requires h in s.qers
  {
    var q := s.qers[h];
    var rest := s.qers - {h};
    if q.policer.None? then s.(qers := rest)
    else
      var p := q.policer.value;
      var n := (if p in s.refCnt then s.refCnt[p] else 0) - 1;
      if n != 0 then s.(refCnt := s.refCnt[p := n], qers := rest)
      else State(s.pool.Put(p), s.refCnt - {p}, if q.key.Some? then s.byId - {q.key.value} else s.byId, rest)
  }

  // ----- the counts are exact

  ghost function Attached(qers: map<Handle, Qer>, p: nat): set<Handle> {
    set h | h in qers && qers[h].policer == Some(p)
  }

  /** A live policer's count is the number of rules attached to it, and there is
      one. */
  ghost predicate Counted(s: State, p: nat) {
    && p in s.refCnt && s.refCnt[p] == |Attached(s.qers, p)| > 0
  }

  /** An attached rule is attached to its key's policer. */
  ghost predicate UnderKey(s: State, h: Handle)
    requires h in s.qers
  {
    var q := s.qers[h];
    q.policer.Some? ==> q.key.Some? && q.key.value in s.byId && s.byId[q.key.value] == q.policer.value
  }

  /** A key in the table belongs to a live policer, and to it alone. */
  ghost predicate KeyLive(s: State, k: nat)
    requires k in s.byId
  {
    s.byId[k] in s.pool.Used() && forall h :: h in Attached(s.qers, s.byId[k]) ==> s.qers[h].key == Some(k)
  }

  ghost predicate Inv(s: State) {
    && s.pool.Valid()
    && (forall p :: p in s.pool.Used() ==> Counted(s, p))
    && (forall h :: h in s.qers ==> UnderKey(s, h))
    && (forall k :: k in s.byId ==> KeyLive(s, k))
  }

  /** The table maps keys to policers one to one, onto the live ones. */
  lemma KeysAreLivePolicers(s: State, p: nat)
    requires Inv(s)
    ensures p in s.pool.Used() <==> p in s.byId.Values
    ensures p in s.pool.Used() <==> Attached(s.qers, p) != {}
    ensures forall j, k :: j in s.byId && k in s.byId && s.byId[j] == p && s.byId[k] == p ==> j == k
  {
    if p in s.pool.Used() {
      assert Counted(s, p);
    }
    if Attached(s.qers, p) != {} {
      var h :| h in Attached(s.qers, p);
      assert UnderKey(s, h);
      assert KeyLive(s, s.qers[h].key.value);
    }
    if k :| k in s.byId && s.byId[k] == p {
      assert KeyLive(s, k);
      assert Counted(s, p);
      var h :| h in Attached(s.qers, p);
      forall j | j in s.byId && s.byId[j] == p ensures j == k {
        assert KeyLive(s, j);
      }
    }
  }

  lemma AttachedGrows(qers: map<Handle, Qer>, h: Handle, q: Qer, p: nat, r: nat)
    requires h in qers && qers[h].policer == None && q == qers[h].(policer := Some(p))
    ensures Attached(qers[h := q], r) == if r == p then Attached(qers, r) + {h} else Attached(qers, r)
    ensures |Attached(qers[h := q], r)| == |Attached(qers, r)| + if r == p then 1 else 0
  {
    assert Attached(qers[h := q], r) == if r == p then Attached(qers, r) + {h} else Attached(qers, r);
  }

  lemma AttachedShrinks(qers: map<Handle, Qer>, h: Handle, r: nat)
    requires h in qers
    ensures Attached(qers - {h}, r) == Attached(qers, r) - {h}
    ensures |Attached(qers - {h}, r)| == |Attached(qers, r)| - if qers[h].policer == Some(r) then 1 else 0
  {
    assert Attached(qers - {h}, r) == Attached(qers, r) - {h};
  }

  /** The rule limits the bit rate under a key. */
  predicate Limits(q: Qer) {
    q.key.Some? && q.mbr
  }

  /** The rule has its key's policer if it limits the bit rate, and none
      otherwise. */
  ghost predicate Served(s: State, h: Handle) {
    && h in s.qers
    && (s.qers[h].policer.Some? <==> Limits(s.qers[h]))
    && (s.qers[h].policer.Some? ==>
          && s.qers[h].key.value in s.byId && s.byId[s.qers[h].key.value] == s.qers[h].policer.value
          && s.qers[h].policer.value in s.pool.Used())
  }

  /** Attaching attaches: the rule gets the live policer of its key, the one
      there was if there was one, with one reference more; other keys keep their
      policers and other rules stay as they are. */
  lemma AttachServes(s: State, h: Handle)
    requires Inv(s) && h in s.qers && s.qers[h].policer == None
    ensures var t, q := Attach(s, h), s.qers[h];
            && Served(t, h) && t.qers == s.qers[h := q.(policer := t.qers[h].policer)]
            && (forall k :: k in s.byId ==> k in t.byId && t.byId[k] == s.byId[k])
            && (forall k :: k in t.byId ==> k in s.byId || q.key == Some(k))
            && s.pool.Used() <= t.pool.Used()
            && (Limits(q) ==>
                  t.refCnt[t.byId[q.key.value]] == 1 + if q.key.value in s.byId then s.refCnt[s.byId[q.key.value]] else 0)
  {
    KeyCounted(s, h);
    var t, q := Attach(s, h), s.qers[h];
    PoolGet(s.pool);
    assert q.key.Some? && q.key.value in s.byId ==> KeyLive(s, q.key.value);
    hide Inv, s.pool.Used, s.pool.Valid;
  }

  /** A rule that is not attached yet keeps the counts exact when it attaches. */
  lemma AttachInv(s: State, h: Handle)
    requires Inv(s) && h in s.qers && s.qers[h].policer == None
    ensures Inv(Attach(s, h))
  {
    var q := s.qers[h];
    if q.key.Some? && q.mbr {
      if q.key.value in s.byId {
        AttachOld(s, h);
      } else {
        AttachNew(s, h);
      }
    }
  }

  lemma AttachOld(s: State, h: Handle)
    requires Inv(s) && h in s.qers && s.qers[h].policer == None
    requires s.qers[h].mbr && s.qers[h].key.Some? && s.qers[h].key.value in s.byId
    ensures Inv(Attach(s, h))
  {
    var q, t := s.qers[h], Attach(s, h);
    var p := s.byId[q.key.value];
    assert KeyLive(s, q.key.value);
    assert Counted(s, p);
    forall r | r in t.pool.Used() ensures Counted(t, r) {
      assert Counted(s, r);
      AttachedGrows(s.qers, h, t.qers[h], p, r);
    }
    forall g | g in t.qers ensures UnderKey(t, g) {
      assert UnderKey(s, g);
    }
    forall k | k in t.byId ensures KeyLive(t, k) {
      assert KeyLive(s, k);
      AttachedGrows(s.qers, h, t.qers[h], p, s.byId[k]);
      KeysAreLivePolicers(s, p);
    }
  }

  lemma AttachNew(s: State, h: Handle)
    requires Inv(s) && h in s.qers && s.qers[h].policer == None
    requires s.qers[h].mbr && s.qers[h].key.Some? && s.qers[h].key.value !in s.byId
    ensures Inv(Attach(s, h))
  {
    var t := Attach(s, h);
    PoolGet(s.pool);
    KeysAreLivePolicers(s, s.pool.NextIndex());
    NewCounted(s, h);
    NewKeys(s, h);
    forall g | g in t.qers ensures UnderKey(t, g) {
      assert UnderKey(s, g);
    }
  }

  lemma NewCounted(s: State, h: Handle)
    requires s.pool.Valid() && (forall p :: p in s.pool.Used() ==> Counted(s, p)) && h in s.qers && s.qers[h].policer == None
    requires s.qers[h].mbr && s.qers[h].key.Some? && s.qers[h].key.value !in s.byId && Attached(s.qers, s.pool.NextIndex()) == {}
    ensures forall r :: r in Attach(s, h).pool.Used() ==> Counted(Attach(s, h), r)
  {
    var t, p := Attach(s, h), s.pool.NextIndex();
    PoolGet(s.pool);
    forall r | r in t.pool.Used() ensures Counted(t, r) {
      AttachedGrows(s.qers, h, t.qers[h], p, r);
      assert r == p || Counted(s, r);
    }
  }

  lemma NewKeys(s: State, h: Handle)
    requires s.pool.Valid() && (forall k :: k in s.byId ==> KeyLive(s, k)) && h in s.qers && s.qers[h].policer == None
    requires s.qers[h].mbr && s.qers[h].key.Some? && s.qers[h].key.value !in s.byId && Attached(s.qers, s.pool.NextIndex()) == {}
    ensures forall k :: k in Attach(s, h).byId ==> KeyLive(Attach(s, h), k)
  {
    var t, p := Attach(s, h), s.pool.NextIndex();
    PoolGet(s.pool);
    forall k | k in t.byId ensures KeyLive(t, k) {
      AttachedGrows(s.qers, h, t.qers[h], p, t.byId[k]);
      if k in s.byId {
        assert KeyLive(s, k);
      }
    }
  }

  /** Freeing a rule keeps the counts exact, and releases the policer exactly
      when the rule was the last one attached to it. */
  lemma FreeInv(s: State, h: Handle)
    requires Inv(s) && h in s.qers
    ensures Inv(Free(s, h))
    ensures Free(s, h).pool.Used() == s.pool.Used() - (if s.qers[h].policer.Some? && Attached(s.qers, s.qers[h].policer.value) == {h}
                                                       then {s.qers[h].policer.value} else {})
  {
    var q, t := s.qers[h], Free(s, h);
    if q.policer.Some? {
      var p := q.policer.value;
      assert UnderKey(s, h);
      assert KeyLive(s, q.key.value);
      assert Counted(s, p);
      assert h in Attached(s.qers, p);
      AttachedShrinks(s.qers, h, p);
      assert Attached(s.qers, p) == {h} <==> |Attached(s.qers, p)| == 1 by {
        if |Attached(s.qers, p)| == 1 {
          assert |Attached(s.qers, p) - {h}| == 0;
        }
      }
      if s.refCnt[p] == 1 {
        PoolPut(s.pool, p);
      }
    }
    FreeCounts(s, h);
  }

  lemma FreeCounts(s: State, h: Handle)
    requires Inv(s) && h in s.qers
    ensures Inv(Free(s, h))
  {
    var q, t := s.qers[h], Free(s, h);
    if q.policer.Some? {
      var p := q.policer.value;
      assert UnderKey(s, h);
      assert KeyLive(s, q.key.value);
      assert Counted(s, p);
      KeysAreLivePolicers(s, p);
      AttachedShrinks(s.qers, h, p);
      if s.refCnt[p] == 1 {
        PoolPut(s.pool, p);
      }
    }
    forall r | r in t.pool.Used() ensures Counted(t, r) {
      assert Counted(s, r);
      AttachedShrinks(s.qers, h, r);
    }
    forall g | g in t.qers ensures UnderKey(t, g) {
      assert UnderKey(s, g);
    }
    forall k | k in t.byId ensures KeyLive(t, k) {
      assert KeyLive(s, k);
      AttachedShrinks(s.qers, h, s.byId[k]);
    }
  }

  // ----- the policers as the program updates them

  class PolicerMain {
    var pool: Pool
    var refCnt: map<nat, int>
    var byId: map<nat, nat>
    var qers: map<Handle, Qer>

    function Contents(): State
      reads this
    {
      State(pool, refCnt, byId, qers)
    }

    ghost predicate Valid()
      reads this
    {
      Inv(Contents())
    }

    /** Makes the policer of a key that has none, with no reference yet. */
    method InitQerPolicer(h: Handle, key: nat) returns (p: nat)
      requires h in qers
      modifies this
      ensures p == old(pool).NextIndex() && pool == old(pool).Get() && refCnt == old(refCnt)[p := 0]
      ensures byId == old(byId)[key := p] && qers == old(qers)[h := old(qers)[h].(policer := Some(p))]
    {
      p := pool.NextIndex();
      pool := pool.Get();
      refCnt := refCnt[p := 0];
      qers := qers[h := qers[h].(policer := Some(p))];
      byId := byId[key := p];
    }

    method AttachQerPolicer(h: Handle)
      requires Valid() && h in qers && qers[h].policer == None
      modifies this
      ensures Valid() && Contents() == Attach(old(Contents()), h)
    {
      AttachInv(Contents(), h);
      KeyCounted(Contents(), h);
      hide Inv;
      var qer := qers[h];
      if qer.key.None? || !qer.mbr {
        return;
      }
      var p: nat;
      if qer.key.value !in byId {
        p := InitQerPolicer(h, qer.key.value);
      } else {
        p := byId[qer.key.value];
        qers := qers[h := qer.(policer := Some(p))];
      }
      refCnt := refCnt[p := refCnt[p] + 1];
      assert Contents() == Attach(old(Contents()), h);
    }

    /** Drops the rule's reference and the rule. */
    method FreeQer(h: Handle)
      requires Valid() && h in qers
      modifies this
      ensures Valid() && Contents() == Free(old(Contents()), h)
    {
      FreeCounts(Contents(), h);
      KeyCounted(Contents(), h);
      hide Inv;
      ghost var before := refCnt;
      var qer := qers[h];
      qers := qers - {h};
      if qer.policer.None? {
        return;
      }
      var p := qer.policer.value;
      refCnt := refCnt[p := refCnt[p] - 1];
      if refCnt[p] == 0 {
        byId := byId - {qer.key.value};
        pool := pool.Put(p);
        refCnt := refCnt - {p};
        assert refCnt == before - {p};
      }
    }
  }

  lemma KeyCounted(s: State, h: Handle)
    requires Inv(s) && h in s.qers
    ensures s.qers[h].key.Some? && s.qers[h].key.value in s.byId ==> s.byId[s.qers[h].key.value] in s.refCnt
    ensures s.qers[h].policer.Some? ==> s.qers[h].policer.value in s.refCnt && s.qers[h].key.Some?
  {
    assert UnderKey(s, h);
    var q := s.qers[h];
    if q.key.Some? && q.key.value in s.byId {
      assert KeyLive(s, q.key.value);
      assert Counted(s, s.byId[q.key.value]);
    }
  }
}
