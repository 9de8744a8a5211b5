/** The two rule sets of a session: updates are staged in one while traffic uses
    the other, an apply completes the staged set and flips the two, and a finish
    frees what is left behind.  Vectors are pointers into a heap, so that sharing
    and freeing show. */
module RuleSwap {
  import opened Pools

  datatype Kind = PdrVec | FarVec | UrrVec | QerVec | UeSrcIp | UeDstIp | V4Teid | V6Teid | V4Acls | V6Acls

  predicate IsRule(k: Kind) {
    k == PdrVec || k == FarVec || k == UrrVec || k == QerVec
  }

  predicate IsTeid(k: Kind) {
    k == V4Teid || k == V6Teid
  }

  /** A vector on the heap; vectors of different types never share memory. */
  datatype Ptr = Ptr(kind: Kind, serial: nat)

  /** The vectors of a rule set that are not null. */
  type RuleSet = map<Kind, nat>

  datatype Session = Session(act: RuleSet, pend: RuleSet, heap: map<Ptr, seq<nat>>, next: nat)

  /** What a rule set holds for a kind. */
  function Held(r: RuleSet, heap: map<Ptr, seq<nat>>, k: Kind): seq<nat> {
    if k in r && Ptr(k, r[k]) in heap then heap[Ptr(k, r[k])] else []
  }

  /** The list of a kind that a vector of packet detection rules gives rise to. */
  type Derive = (Kind, seq<nat>) -> seq<nat>

  // ----- staging

  /** A rule vector is staged as a copy, unless it is staged already. */
  function MakePending(s: Session, k: Kind): Session {
    if k in s.pend || Held(s.act, s.heap, k) == [] then s
    else Session(s.act, s.pend[k := s.next], s.heap[Ptr(k, s.next) := Held(s.act, s.heap, k)], s.next + 1)
  }

  /** Creating, updating and removing staged rules. */
  function Edit(s: Session, k: Kind, rules: seq<nat>): Session {
    Written(MakePending(s, k), k, rules)
  }

  /** Writing a pending vector, or starting one. */
  function Written(m: Session, k: Kind, rules: seq<nat>): Session {
    if k in m.pend then m.(heap := m.heap[Ptr(k, m.pend[k]) := rules])
    else Session(m.act, m.pend[k := m.next], m.heap[Ptr(k, m.next) := rules], m.next + 1)
  }

  // ----- apply

  /** The kinds of lists that packet detection rules give rise to. */
  function ListKinds(): set<Kind> {
    set k: Kind | !IsRule(k)
  }

  /** New vectors for the lists of the kinds in `done`. */
  function NewPtrs(derive: Derive, rules: seq<nat>, serial: nat, done: set<Kind>): map<Kind, nat> {
    map k: Kind | k in done && derive(k, rules) != [] :: serial
  }

  function NewLists(derive: Derive, rules: seq<nat>, serial: nat, done: set<Kind>): map<Ptr, seq<nat>> {
    map k: Kind | k in done && derive(k, rules) != [] :: Ptr(k, serial) := derive(k, rules)
  }

  /** The lists of the kinds in `done` rebuilt. */
  function PartlyBuilt(s: Session, derive: Derive, done: set<Kind>): Session {
    var rules := Held(s.pend, s.heap, PdrVec);
    Session(s.act, s.pend + NewPtrs(derive, rules, s.next, done), s.heap + NewLists(derive, rules, s.next, done), s.next + 1)
  }

  /** The detection rules and the lists of the kinds in `done` moved over. */
  function PartlyCarried(s: Session, done: set<Kind>): Session {
    s.(pend := s.pend + Moved(s.act, done), act := s.act - done)
  }

  function Moved(act: RuleSet, done: set<Kind>): RuleSet {
    map k | k in act && (k == PdrVec || k in done) :: act[k]
  }

  /** The derived lists are rebuilt from staged rules, or move over from the
      active set together with its rules. */
  function MovePdr(s: Session, derive: Derive): Session {
    if PdrVec in s.pend then PartlyBuilt(s, derive, ListKinds()) else PartlyCarried(s, ListKinds())
  }

  /** An endpoint is added once. */
  function AddTeids(list: seq<nat>, teids: seq<nat>): seq<nat>
    decreases |teids|
  {
    if teids == [] then list
    else AddTeids(if teids[0] in list then list else list + [teids[0]], teids[1..])
  }

  function AddTo(s: Session, k: Kind, teids: seq<nat>): Session {
    var list := AddTeids(Held(s.pend, s.heap, k), teids);
    if k in s.pend then s.(heap := s.heap[Ptr(k, s.pend[k]) := list])
    else if list == [] then s
    else Session(s.act, s.pend[k := s.next], s.heap[Ptr(k, s.next) := list], s.next + 1)
  }

  /** The endpoints of staged forwarding rules join the list of endpoints. */
  function MoveFar(s: Session, endpoints: Derive): Session {
    if FarVec in s.pend then
      var rules := Held(s.pend, s.heap, FarVec);
      AddTo(AddTo(s, V4Teid, endpoints(V4Teid, rules)), V6Teid, endpoints(V6Teid, rules))
    else Carry(s, FarVec)
  }

  function Carry(s: Session, k: Kind): Session {
    if k !in s.pend && k in s.act then s.(pend := s.pend[k := s.act[k]]) else s
  }

  function Staged(s: Session): set<Kind> {
    set k: Kind | IsRule(k) && k in s.pend
  }

  function Completed(s: Session, derive: Derive, endpoints: Derive): Session {
    Carry(Carry(MoveFar(MovePdr(s, derive), endpoints), UrrVec), QerVec)
  }

  /** Complete the staged set, flip the two, and forget the carried vectors in
      the set that is now pending. */
  function Apply(s: Session, derive: Derive, endpoints: Derive): Session {
    if Staged(s) == {} then s
    else
      var t := Completed(s, derive, endpoints);
      Session(t.pend, map k | k in t.act && (!IsRule(k) || k in Staged(s)) :: t.act[k], t.heap, t.next)
  }

  /** Everything the pending set points to is freed. */
  function Finish(s: Session): Session {
    s.(pend := map[], heap := map p | p in s.heap && !(p.kind in s.pend && s.pend[p.kind] == p.serial) :: s.heap[p])
  }

  // ----- what every step keeps

  ghost predicate PointsTo(r: RuleSet, p: Ptr) {
    p.kind in r && r[p.kind] == p.serial
  }

  ghost predicate KindOk(s: Session, k: Kind) {
    && (k in s.act ==> Ptr(k, s.act[k]) in s.heap)
    && (k in s.pend ==> Ptr(k, s.pend[k]) in s.heap)
    && (k in s.act && k in s.pend ==> s.act[k] != s.pend[k])
  }

  ghost predicate PtrOk(s: Session, p: Ptr) {
    p.serial < s.next && (PointsTo(s.act, p) || PointsTo(s.pend, p))
  }

  /** No dangling and no shared vectors, none lost, and nothing but rule vectors
      staged. */
  ghost predicate Inv(s: Session) {
    && (forall k: Kind :: KindOk(s, k))
    && (forall p :: p in s.heap ==> PtrOk(s, p))
    && (forall k :: k in s.pend ==> IsRule(k))
  }

  lemma MakePendingInv(s: Session, k: Kind)
    requires Inv(s) && IsRule(k)
    ensures Inv(MakePending(s, k))
    ensures MakePending(s, k).act == s.act && forall j :: Held(s.act, MakePending(s, k).heap, j) == Held(s.act, s.heap, j)
  {
    var t := MakePending(s, k);
    forall j: Kind ensures KindOk(t, j) {
      assert KindOk(s, j);
      if j in s.act {
        assert PtrOk(s, Ptr(j, s.act[j]));
      }
    }
    forall p | p in t.heap ensures PtrOk(t, p) {
      if p in s.heap {
        assert PtrOk(s, p);
      }
    }
    forall j ensures Held(s.act, t.heap, j) == Held(s.act, s.heap, j) {
      assert KindOk(s, j);
      if j in s.act {
        assert PtrOk(s, Ptr(j, s.act[j]));
      }
    }
  }

  /** Staging never touches what the active set holds. */
  lemma EditInv(s: Session, k: Kind, rules: seq<nat>)
    requires Inv(s) && IsRule(k)
    ensures Inv(Edit(s, k, rules)) && Edit(s, k, rules).act == s.act
    ensures forall j :: Held(s.act, Edit(s, k, rules).heap, j) == Held(s.act, s.heap, j)
  {
    hide MakePending, Inv;
    MakePendingInv(s, k);
    EditPending(MakePending(s, k), k, rules);
  }

  lemma EditPending(m: Session, k: Kind, rules: seq<nat>)
    requires Inv(m) && IsRule(k)
    ensures Inv(Written(m, k, rules)) && Written(m, k, rules).act == m.act
    ensures forall j :: Held(m.act, Written(m, k, rules).heap, j) == Held(m.act, m.heap, j)
  {
    var t := Written(m, k, rules);
    assert KindOk(m, k);
    forall j: Kind ensures KindOk(t, j) && Held(m.act, t.heap, j) == Held(m.act, m.heap, j) {
      assert KindOk(m, j);
      if j in m.act {
        assert PtrOk(m, Ptr(j, m.act[j]));
      }
    }
    forall p | p in t.heap ensures PtrOk(t, p) {
      if p in m.heap {
        assert PtrOk(m, p);
      }
    }
  }

  // ----- the steps of an apply

  /** While the staged set is completed, the two sets share exactly the rule
      vectors that were not staged. */
  ghost predicate KindMid(t: Session, staged: set<Kind>, k: Kind) {
    && (k in t.act ==> Ptr(k, t.act[k]) in t.heap)
    && (k in t.pend ==> Ptr(k, t.pend[k]) in t.heap)
    && (k in t.act && k in t.pend ==> (t.act[k] == t.pend[k] <==> IsRule(k) && k !in staged))
  }

  ghost predicate Mid(t: Session, staged: set<Kind>) {
    && (forall k: Kind :: KindMid(t, staged, k))
    && (forall p :: p in t.heap ==> PtrOk(t, p))
  }

  /** Rule vectors are only moved: none is allocated, freed or written. */
  ghost predicate RulesKept(s: Session, t: Session) {
    && (forall p: Ptr :: IsRule(p.kind) ==> (p in t.heap <==> p in s.heap))
    && (forall p :: p in s.heap && IsRule(p.kind) ==> t.heap[p] == s.heap[p])
    && (forall k :: IsRule(k) ==> (k in t.act <==> k in s.act))
    && (forall k :: k in s.act && IsRule(k) ==> t.act[k] == s.act[k])
    && (forall k :: k in s.pend && IsRule(k) ==> k in t.pend && t.pend[k] == s.pend[k])
  }

  lemma RulesKeptAct(s: Session, t: Session, k: Kind)
    requires RulesKept(s, t) && IsRule(k)
    ensures (k in t.act <==> k in s.act) && (k in s.pend ==> k in t.pend)
  {
  }

  lemma RulesKeptTrans(s: Session, t: Session, u: Session)
    requires RulesKept(s, t) && RulesKept(t, u)
    ensures RulesKept(s, u)
  {
  }

  /** Rebuilt lists are new vectors beside everything there was. */
  lemma Built(s: Session, derive: Derive)
    requires PdrVec in s.pend
    ensures var t, rules := MovePdr(s, derive), Held(s.pend, s.heap, PdrVec);
            && t.act == s.act && t.next == s.next + 1
            && (forall k :: k in t.pend <==> k in s.pend || (!IsRule(k) && derive(k, rules) != []))
            && (forall k :: k in t.pend ==> t.pend[k] == if !IsRule(k) && derive(k, rules) != [] then s.next else s.pend[k])
            && (forall p :: p in t.heap <==> p in s.heap || (p.serial == s.next && !IsRule(p.kind) && derive(p.kind, rules) != []))
            && (forall k :: !IsRule(k) && derive(k, rules) != [] ==> t.heap[Ptr(k, s.next)] == derive(k, rules))
  {
    hide Held;
    var t, rules := MovePdr(s, derive), Held(s.pend, s.heap, PdrVec);
    forall p: Ptr ensures p in t.heap <==> p in s.heap || (p.serial == s.next && !IsRule(p.kind) && derive(p.kind, rules) != []) {
      assert p == Ptr(p.kind, p.serial);
    }
  }

  lemma BuiltMid(s: Session, derive: Derive)
    requires Inv(s) && PdrVec in s.pend
    ensures Mid(MovePdr(s, derive), Staged(s))
  {
    Built(s, derive);
    hide MovePdr, Held;
    var t := MovePdr(s, derive);
    forall k: Kind ensures KindMid(t, Staged(s), k) {
      assert KindOk(s, k);
      if k in s.act {
        assert PtrOk(s, Ptr(k, s.act[k]));
      }
    }
    forall p | p in t.heap ensures PtrOk(t, p) {
      if p in s.heap {
        assert PtrOk(s, p);
      }
    }
  }

  lemma CarriedMid(s: Session, derive: Derive)
    requires Inv(s) && PdrVec !in s.pend
    ensures Mid(MovePdr(s, derive), Staged(s))
  {
    var t := MovePdr(s, derive);
    forall k: Kind ensures KindMid(t, Staged(s), k) {
      assert KindOk(s, k);
    }
    forall p | p in t.heap ensures PtrOk(t, p) {
      assert PtrOk(s, p);
    }
  }

  lemma MovePdrKeeps(s: Session, derive: Derive)
    requires forall k :: k in s.pend ==> IsRule(k)
    ensures RulesKept(s, MovePdr(s, derive))
    ensures forall k :: IsRule(k) && k != PdrVec ==> (k in MovePdr(s, derive).pend <==> k in s.pend)
    ensures PdrVec in MovePdr(s, derive).pend <==> PdrVec in s.pend || PdrVec in s.act
  {
    hide Held;
  }

  lemma MovePdrMid(s: Session, derive: Derive)
    requires Inv(s)
    ensures Mid(MovePdr(s, derive), Staged(s)) && RulesKept(s, MovePdr(s, derive))
    ensures forall k :: IsRule(k) && k != PdrVec ==> (k in MovePdr(s, derive).pend <==> k in s.pend)
    ensures PdrVec in MovePdr(s, derive).pend <==> PdrVec in s.pend || PdrVec in s.act
  {
    MovePdrKeeps(s, derive);
    hide Mid, MovePdr, RulesKept;
    if PdrVec in s.pend {
      BuiltMid(s, derive);
    } else {
      CarriedMid(s, derive);
    }
  }

  /** The derived lists after the first step. */
  lemma MovePdrHeld(s: Session, derive: Derive, k: Kind)
    requires Inv(s) && !IsRule(k)
    ensures var t := MovePdr(s, derive);
            Held(t.pend, t.heap, k) == if PdrVec in s.pend then derive(k, Held(s.pend, s.heap, PdrVec)) else Held(s.act, s.heap, k)
  {
    assert KindOk(s, k);
    if PdrVec in s.pend {
      Built(s, derive);
      hide MovePdr;
    }
  }

  lemma AddToMid(t: Session, staged: set<Kind>, k: Kind, teids: seq<nat>)
    requires Mid(t, staged) && IsTeid(k)
    ensures Mid(AddTo(t, k, teids), staged)
  {
    var u := AddTo(t, k, teids);
    assert KindMid(t, staged, k);
    hide AddTeids;
    forall j: Kind ensures KindMid(u, staged, j) {
      assert KindMid(t, staged, j);
      if j in t.act {
        assert PtrOk(t, Ptr(j, t.act[j]));
      }
    }
    forall p | p in u.heap ensures PtrOk(u, p) {
      if p in t.heap {
        assert PtrOk(t, p);
      }
    }
  }

  lemma AddToKeeps(t: Session, k: Kind, teids: seq<nat>)
    requires IsTeid(k)
    ensures RulesKept(t, AddTo(t, k, teids))
    ensures forall j :: IsRule(j) ==> (j in AddTo(t, k, teids).pend <==> j in t.pend)
  {
    hide AddTeids, Held;
  }

  /** Only the list of the kind changes, and it gains the endpoints. */
  lemma AddToHeld(t: Session, k: Kind, teids: seq<nat>)
    requires IsTeid(k)
    ensures var u := AddTo(t, k, teids);
            && RulesKept(t, u)
            && (forall j :: IsRule(j) ==> (j in u.pend <==> j in t.pend))
            && Held(u.pend, u.heap, k) == AddTeids(Held(t.pend, t.heap, k), teids)
            && (forall j :: j != k ==> Held(u.pend, u.heap, j) == Held(t.pend, t.heap, j))
  {
    AddToKeeps(t, k, teids);
    hide AddTeids, RulesKept;
  }

  lemma CarryMid(t: Session, staged: set<Kind>, k: Kind)
    requires Mid(t, staged) && IsRule(k) && (k in staged ==> k in t.pend)
    ensures Mid(Carry(t, k), staged) && RulesKept(t, Carry(t, k)) && Carry(t, k).heap == t.heap
    ensures k !in t.pend ==> (k in Carry(t, k).pend <==> k in t.act)
  {
    var u := Carry(t, k);
    forall j: Kind ensures KindMid(u, staged, j) {
      assert KindMid(t, staged, j);
    }
    forall p | p in u.heap ensures PtrOk(u, p) {
      assert PtrOk(t, p);
    }
  }

  // ----- the completed set

  /** What the list of a kind holds after an update: built from the staged rules
      or carried over, with the endpoints of staged forwarding rules. */
  function Expected(s: Session, derive: Derive, endpoints: Derive, k: Kind): seq<nat> {
    var base := if PdrVec in s.pend then derive(k, Held(s.pend, s.heap, PdrVec)) else Held(s.act, s.heap, k);
    if IsTeid(k) && FarVec in s.pend then AddTeids(base, endpoints(k, Held(s.pend, s.heap, FarVec))) else base
  }

  lemma MoveFarMid(s: Session, t: Session, endpoints: Derive)
    requires Mid(t, Staged(s)) && RulesKept(s, t) && Inv(s) && (FarVec in t.pend <==> FarVec in s.pend)
    ensures Mid(MoveFar(t, endpoints), Staged(s)) && RulesKept(t, MoveFar(t, endpoints))
    ensures forall k :: IsRule(k) && k != FarVec ==> (k in MoveFar(t, endpoints).pend <==> k in t.pend)
    ensures FarVec in MoveFar(t, endpoints).pend <==> FarVec in s.pend || FarVec in s.act
  {
    hide Inv, AddTeids, RulesKept, Mid, KindMid;
    RulesKeptAct(s, t, FarVec);
    if FarVec in t.pend {
      hide AddTo;
      var rules := Held(t.pend, t.heap, FarVec);
      var u := AddTo(t, V4Teid, endpoints(V4Teid, rules));
      var v := AddTo(u, V6Teid, endpoints(V6Teid, rules));
      hide Held;
      AddToMid(t, Staged(s), V4Teid, endpoints(V4Teid, rules));
      AddToHeld(t, V4Teid, endpoints(V4Teid, rules));
      AddToMid(u, Staged(s), V6Teid, endpoints(V6Teid, rules));
      AddToHeld(u, V6Teid, endpoints(V6Teid, rules));
      RulesKeptTrans(t, u, v);
    } else {
      CarryMid(t, Staged(s), FarVec);
    }
  }

  lemma CompletedMid(s: Session, derive: Derive, endpoints: Derive)
    requires Inv(s)
    ensures var t := Completed(s, derive, endpoints);
            && Mid(t, Staged(s)) && RulesKept(s, t)
            && (forall k :: IsRule(k) ==> (k in t.pend <==> k in s.pend || k in s.act))
  {
    hide Inv, MovePdr, Mid, RulesKept, MoveFar;
    MovePdrMid(s, derive);
    var a := MovePdr(s, derive);
    RulesKeptAct(s, a, UrrVec);
    RulesKeptAct(s, a, QerVec);
    MoveFarMid(s, a, endpoints);
    var b := MoveFar(a, endpoints);
    RulesKeptTrans(s, a, b);
    RulesKeptAct(s, b, UrrVec);
    CarryMid(b, Staged(s), UrrVec);
    var c := Carry(b, UrrVec);
    RulesKeptTrans(s, b, c);
    RulesKeptAct(s, c, QerVec);
    CarryMid(c, Staged(s), QerVec);
    RulesKeptTrans(s, c, Carry(c, QerVec));
  }

  lemma MoveFarHeld(t: Session, endpoints: Derive, k: Kind)
    requires !IsRule(k)
    ensures var u := MoveFar(t, endpoints);
            Held(u.pend, u.heap, k) == if IsTeid(k) && FarVec in t.pend
                                       then AddTeids(Held(t.pend, t.heap, k), endpoints(k, Held(t.pend, t.heap, FarVec)))
                                       else Held(t.pend, t.heap, k)
  {
    hide Held, AddTeids, AddTo, RulesKept, Carry;
    if FarVec in t.pend {
      var rules := Held(t.pend, t.heap, FarVec);
      AddToHeld(t, V4Teid, endpoints(V4Teid, rules));
      AddToHeld(AddTo(t, V4Teid, endpoints(V4Teid, rules)), V6Teid, endpoints(V6Teid, rules));
    } else {
      CarryHeld(t, FarVec, k);
    }
  }

  lemma CarryHeld(b: Session, rule: Kind, k: Kind)
    requires IsRule(rule) && !IsRule(k)
    ensures Held(Carry(b, rule).pend, Carry(b, rule).heap, k) == Held(b.pend, b.heap, k)
  {
  }

  lemma CompletedHeld(s: Session, derive: Derive, endpoints: Derive, k: Kind)
    requires Inv(s) && !IsRule(k)
    ensures var t := Completed(s, derive, endpoints);
            Held(t.pend, t.heap, k) == Expected(s, derive, endpoints, k)
  {
    hide MovePdr, Mid, AddTeids, MoveFar, RulesKept, Inv;
    var a := MovePdr(s, derive);
    MovePdrHeld(s, derive, k);
    MovePdrMid(s, derive);
    if FarVec in s.pend {
      KeptHeld(s, a, FarVec);
    }
    CarriedHeld(MoveFar(a, endpoints), k);
    hide Held, Carry;
    MoveFarHeld(a, endpoints, k);
  }

  lemma CarriedHeld(b: Session, k: Kind)
    requires !IsRule(k)
    ensures var t := Carry(Carry(b, UrrVec), QerVec); Held(t.pend, t.heap, k) == Held(b.pend, b.heap, k)
  {
    hide Carry, Held;
    CarryHeld(b, UrrVec, k);
    CarryHeld(Carry(b, UrrVec), QerVec, k);
  }

  lemma KeptHeld(s: Session, t: Session, k: Kind)
    requires Inv(s) && RulesKept(s, t) && IsRule(k) && k in s.pend
    ensures Held(t.pend, t.heap, k) == Held(s.pend, s.heap, k)
  {
    assert KindOk(s, k);
  }

  // ----- the swap

  /** After an apply and a finish the active set holds, for each rule kind, the
      staged vector if one was staged and the previous one otherwise, unchanged;
      the derived lists are as expected; nothing is pending; and nothing the
      active set points to was freed, nor anything else left behind. */
  lemma UpdateSwap(s: Session, derive: Derive, endpoints: Derive)
    requires Inv(s)
    ensures var t := Finish(Apply(s, derive, endpoints));
            && Inv(t) && t.pend == map[]
            && (forall k :: IsRule(k) ==> RuleSwapped(s, t, k))
            && (forall k: Kind :: !IsRule(k) ==>
                  Held(t.act, t.heap, k)
                  == if Staged(s) == {} then Held(s.act, s.heap, k) else Expected(s, derive, endpoints, k))
  {
    if Staged(s) == {} {
      NothingStaged(s);
    } else {
      CompletedMid(s, derive, endpoints);
      var c := Completed(s, derive, endpoints);
      forall k | !IsRule(k) ensures Held(c.pend, c.heap, k) == Expected(s, derive, endpoints, k) {
        CompletedHeld(s, derive, endpoints, k);
      }
      hide Completed, Expected;
      var t := Finish(Apply(s, derive, endpoints));
      SwapInv(s, c);
      SwapHeld(s, c);
    }
  }

  /** The vector of a rule kind after an update. */
  ghost predicate RuleSwapped(s: Session, t: Session, k: Kind) {
    && (k in t.act <==> k in s.pend || k in s.act)
    && (k in t.act ==> && t.act[k] == (if k in s.pend then s.pend[k] else s.act[k])
                       && Ptr(k, t.act[k]) in t.heap && Ptr(k, t.act[k]) in s.heap
                       && t.heap[Ptr(k, t.act[k])] == s.heap[Ptr(k, t.act[k])])
  }

  lemma NothingStaged(s: Session)
    requires Inv(s) && Staged(s) == {}
    ensures s.pend == map[] && Finish(s) == s
    ensures forall k :: IsRule(k) ==> RuleSwapped(s, s, k)
  {
    assert forall k :: k in s.pend ==> k in Staged(s);
    assert s.pend == map[];
    forall k | IsRule(k) ensures RuleSwapped(s, s, k) {
      assert KindOk(s, k);
    }
  }

  /** The flip of a completed session, and the finish. */
  function Swapped(s: Session, c: Session): Session {
    Finish(Session(c.pend, map k | k in c.act && (!IsRule(k) || k in Staged(s)) :: c.act[k], c.heap, c.next))
  }

  lemma SwapInv(s: Session, c: Session)
    requires Inv(s) && Mid(c, Staged(s)) && RulesKept(s, c) && forall k :: IsRule(k) ==> (k in c.pend <==> k in s.pend || k in s.act)
    ensures Inv(Swapped(s, c)) && Swapped(s, c).pend == map[]
  {
    var t := Swapped(s, c);
    forall k: Kind ensures KindOk(t, k) {
      assert KindMid(c, Staged(s), k);
    }
    forall p | p in t.heap ensures PtrOk(t, p) {
      assert PtrOk(c, p);
      assert KindMid(c, Staged(s), p.kind);
    }
  }

  lemma SwapHeld(s: Session, c: Session)
    requires Inv(s) && Mid(c, Staged(s)) && RulesKept(s, c) && forall k :: IsRule(k) ==> (k in c.pend <==> k in s.pend || k in s.act)
    ensures forall k :: IsRule(k) ==> RuleSwapped(s, Swapped(s, c), k)
    ensures forall k: Kind :: !IsRule(k) ==> Held(Swapped(s, c).act, Swapped(s, c).heap, k) == Held(c.pend, c.heap, k)
  {
    var t := Swapped(s, c);
    forall k | IsRule(k) ensures RuleSwapped(s, t, k) {
      assert KindMid(c, Staged(s), k);
      assert KindOk(s, k);
    }
    forall k | !IsRule(k) ensures Held(t.act, t.heap, k) == Held(c.pend, c.heap, k) {
      assert KindMid(c, Staged(s), k);
    }
  }

  // ----- the endpoint lists

  lemma {:induction false} AddTeidsElements(list: seq<nat>, teids: seq<nat>)
    ensures Elements(AddTeids(list, teids)) == Elements(list) + Elements(teids)
    ensures NoDup(list) ==> NoDup(AddTeids(list, teids))
    decreases |teids|
  {
    if teids == [] {
      assert Elements(teids) == {};
    } else {
      assert Elements(teids) == {teids[0]} + Elements(teids[1..]);
      if teids[0] in list {
        AddTeidsElements(list, teids[1..]);
        assert teids[0] in Elements(list);
      } else {
        AddTeidsElements(list + [teids[0]], teids[1..]);
        assert Elements(list + [teids[0]]) == Elements(list) + {teids[0]};
      }
    }
  }

  /** The active list names exactly the endpoints of the active detection and
      forwarding rules. */
  ghost predicate EndpointsExact(s: Session, derive: Derive, endpoints: Derive, k: Kind) {
    Elements(Held(s.act, s.heap, k))
    == Elements(derive(k, Held(s.act, s.heap, PdrVec))) + Elements(endpoints(k, Held(s.act, s.heap, FarVec)))
  }

  /** Which updates keep an exact list exact: with both kinds of rules staged
      always; with detection rules alone, the endpoints of the forwarding rules
      must be among theirs; with forwarding rules alone, the endpoints of the
      replaced ones must still be in use. */
  ghost predicate KeepsEndpoints(s: Session, derive: Derive, endpoints: Derive, k: Kind) {
    var pdr := Held(if PdrVec in s.pend then s.pend else s.act, s.heap, PdrVec);
    var far := Held(if FarVec in s.pend then s.pend else s.act, s.heap, FarVec);
    && (PdrVec in s.pend && FarVec !in s.pend ==> Elements(endpoints(k, far)) <= Elements(derive(k, pdr)))
    && (PdrVec !in s.pend && FarVec in s.pend ==>
          Elements(endpoints(k, Held(s.act, s.heap, FarVec))) <= Elements(derive(k, pdr)) + Elements(endpoints(k, far)))
  }

  lemma EndpointsFollow(s: Session, derive: Derive, endpoints: Derive, k: Kind)
    requires Inv(s) && IsTeid(k) && EndpointsExact(s, derive, endpoints, k)
    ensures EndpointsExact(Finish(Apply(s, derive, endpoints)), derive, endpoints, k) <==> KeepsEndpoints(s, derive, endpoints, k)
  {
    hide Apply, Finish, Inv, AddTeids, Elements, Expected, Staged, RuleSwapped, Held;
    UpdateSwap(s, derive, endpoints);
    var t := Finish(Apply(s, derive, endpoints));
    SwappedHeld(s, t, PdrVec);
    SwappedHeld(s, t, FarVec);
    ExpectedElements(s, derive, endpoints, k);
    StagedNone(s);
    var pdr := PdrVec in s.pend;
    var far := FarVec in s.pend;
    EndpointSets(pdr, far, Elements(derive(k, Held(s.act, s.heap, PdrVec))), Elements(derive(k, Held(s.pend, s.heap, PdrVec))),
                 Elements(endpoints(k, Held(s.act, s.heap, FarVec))), Elements(endpoints(k, Held(s.pend, s.heap, FarVec))));
  }

  lemma StagedNone(s: Session)
    ensures Staged(s) == {} ==> PdrVec !in s.pend && FarVec !in s.pend
  {
    assert PdrVec in s.pend ==> PdrVec in Staged(s);
    assert FarVec in s.pend ==> FarVec in Staged(s);
  }

  lemma ExpectedElements(s: Session, derive: Derive, endpoints: Derive, k: Kind)
    requires IsTeid(k)
    ensures Elements(Expected(s, derive, endpoints, k))
         == (if PdrVec in s.pend then Elements(derive(k, Held(s.pend, s.heap, PdrVec))) else Elements(Held(s.act, s.heap, k)))
            + (if FarVec in s.pend then Elements(endpoints(k, Held(s.pend, s.heap, FarVec))) else {})
  {
    var base := if PdrVec in s.pend then derive(k, Held(s.pend, s.heap, PdrVec)) else Held(s.act, s.heap, k);
    AddTeidsElements(base, endpoints(k, Held(s.pend, s.heap, FarVec)));
  }

  /** The old and new endpoints of both kinds of rules. */
  lemma EndpointSets(pdr: bool, far: bool, p: set<nat>, p': set<nat>, f: set<nat>, f': set<nat>)
    ensures var list := (if pdr then p' else p + f) + (if far then f' else {});
            list == (if pdr then p' else p) + (if far then f' else f) <==>
            (pdr && !far ==> f <= p') && (!pdr && far ==> f <= p + f')
  {
    if pdr && !far && p' == p' + f {
      assert f <= p' + f;
    }
    if !pdr && far && p + f + f' == p + f' {
      assert f <= p + f + f';
    }
  }

  lemma SwappedHeld(s: Session, t: Session, k: Kind)
    requires RuleSwapped(s, t, k)
    ensures Held(t.act, t.heap, k) == Held(if k in s.pend then s.pend else s.act, s.heap, k)
  {
  }

  /** A forwarding rule with endpoint 7, and an update of the detection rules
      alone: the endpoint goes although the rule stays. */
  lemma EndpointIsLost()
    ensures var derive: Derive := (k, rules) => [];
            var endpoints: Derive := (k, rules) => if k == V4Teid then rules else [];
            var s := Session(map[FarVec := 0, V4Teid := 0], map[PdrVec := 1],
                             map[Ptr(FarVec, 0) := [7], Ptr(V4Teid, 0) := [7], Ptr(PdrVec, 1) := [1]], 2);
            && Inv(s) && EndpointsExact(s, derive, endpoints, V4Teid)
            && !EndpointsExact(Finish(Apply(s, derive, endpoints)), derive, endpoints, V4Teid)
  {
    var derive: Derive := (k, rules) => [];
    var endpoints: Derive := (k, rules) => if k == V4Teid then rules else [];
    var s := Session(map[FarVec := 0, V4Teid := 0], map[PdrVec := 1],
                     map[Ptr(FarVec, 0) := [7], Ptr(V4Teid, 0) := [7], Ptr(PdrVec, 1) := [1]], 2);
    var none: seq<nat> := [];
    assert Elements(none) == {};
    assert Held(s.act, s.heap, FarVec) == [7] && Held(s.act, s.heap, V4Teid) == [7];
    assert 7 in Elements(Held(s.act, s.heap, FarVec));
    assert Inv(s) && EndpointsExact(s, derive, endpoints, V4Teid) && !KeepsEndpoints(s, derive, endpoints, V4Teid);
    hide *;
    EndpointsFollow(s, derive, endpoints, V4Teid);
  }

  // ----- runs

  datatype Event = Change(kind: Kind, rules: seq<nat>) | Stage(kind: Kind) | Update

  function Step(s: Session, e: Event, derive: Derive, endpoints: Derive): Session {
    match e
    case Change(k, rules) => if IsRule(k) then Edit(s, k, rules) else s
    case Stage(k) => if IsRule(k) then MakePending(s, k) else s
    case Update => Finish(Apply(s, derive, endpoints))
  }

  function Run(events: seq<Event>, derive: Derive, endpoints: Derive): Session {
    if events == [] then Session(map[], map[], map[], 0)
    else Step(Run(events[..|events| - 1], derive, endpoints), events[|events| - 1], derive, endpoints)
  }

  /** Over every run of updates nothing dangles, is shared or is lost. */
  lemma {:induction false} RunInv(events: seq<Event>, derive: Derive, endpoints: Derive)
    ensures Inv(Run(events, derive, endpoints))
    decreases |events|
  {
    if events != [] {
      RunInv(events[..|events| - 1], derive, endpoints);
      var s := Run(events[..|events| - 1], derive, endpoints);
      hide Inv, Run, MakePending, Edit, Apply, Finish;
      match events[|events| - 1] {
        case Change(k, rules) => if IsRule(k) { EditInv(s, k, rules); }
        case Stage(k) => if IsRule(k) { MakePendingInv(s, k); }
        case Update => UpdateSwap(s, derive, endpoints);
      }
    }
  }

  // ----- the session as the program updates it

  ghost function Vectors(): set<Kind> {
    {PdrVec, FarVec, UrrVec, QerVec, UeSrcIp, UeDstIp, V4Teid, V6Teid, V4Acls, V6Acls}
  }

  /** Six lists there are. */
  lemma AllLists()
    ensures ListKinds() == {UeSrcIp, UeDstIp, V4Teid, V6Teid, V4Acls, V6Acls}
  {
    var six := {UeSrcIp, UeDstIp, V4Teid, V6Teid, V4Acls, V6Acls};
    forall k: Kind ensures k in six <==> !IsRule(k) {
      match k {
        case PdrVec =>
        case FarVec =>
        case UrrVec =>
        case QerVec =>
        case UeSrcIp =>
        case UeDstIp =>
        case V4Teid =>
        case V6Teid =>
        case V4Acls =>
        case V6Acls =>
      }
    }
  }

  lemma ListPairs()
    ensures var two, four := {UeSrcIp, UeDstIp}, {UeSrcIp, UeDstIp, V4Teid, V6Teid};
            {} + {UeSrcIp, UeDstIp} == two && two + {V4Teid, V6Teid} == four && four + {V4Acls, V6Acls} == ListKinds()
  {
    AllLists();
  }

  lemma VectorPairs()
    ensures {} + {PdrVec, FarVec} + {UrrVec, QerVec} + {UeSrcIp, UeDstIp} + {V4Teid, V6Teid} + {V4Acls, V6Acls} == Vectors()
  {
  }

  lemma AllKinds(k: Kind)
    ensures k in Vectors()
  {
    match k {
      case PdrVec =>
      case FarVec =>
      case UrrVec =>
      case QerVec =>
      case UeSrcIp =>
      case UeDstIp =>
      case V4Teid =>
      case V6Teid =>
      case V4Acls =>
      case V6Acls =>
    }
  }

  lemma NewListsHas(derive: Derive, rules: seq<nat>, serial: nat, done: set<Kind>, p: Ptr)
    ensures p in NewLists(derive, rules, serial, done) <==> p.serial == serial && p.kind in done && derive(p.kind, rules) != []
    ensures p in NewLists(derive, rules, serial, done) ==> NewLists(derive, rules, serial, done)[p] == derive(p.kind, rules)
  {
    assert p == Ptr(p.kind, p.serial);
  }

  lemma NewListsStep(derive: Derive, rules: seq<nat>, serial: nat, done: set<Kind>, k: Kind)
    ensures var list, more := derive(k, rules), done + {k};
            && NewPtrs(derive, rules, serial, more)
               == (if list == [] then NewPtrs(derive, rules, serial, done) else NewPtrs(derive, rules, serial, done)[k := serial])
            && NewLists(derive, rules, serial, more)
               == if list == [] then NewLists(derive, rules, serial, done)
                  else NewLists(derive, rules, serial, done)[Ptr(k, serial) := list]
  {
    var list, more := derive(k, rules), done + {k};
    var m, m' := NewLists(derive, rules, serial, done), NewLists(derive, rules, serial, more);
    var e := if list == [] then m else m[Ptr(k, serial) := list];
    hide NewLists;
    forall p: Ptr ensures (p in m' <==> p in e) && (p in e ==> m'[p] == e[p]) {
      NewListsHas(derive, rules, serial, done, p);
      NewListsHas(derive, rules, serial, more, p);
      assert p == Ptr(p.kind, p.serial);
    }
  }

  lemma BuiltStep(s: Session, derive: Derive, done: set<Kind>, k: Kind)
    ensures var t, list := PartlyBuilt(s, derive, done), derive(k, Held(s.pend, s.heap, PdrVec));
            PartlyBuilt(s, derive, done + {k})
            == if list == [] then t else t.(pend := t.pend[k := s.next], heap := t.heap[Ptr(k, s.next) := list])
  {
    hide Held, NewPtrs, NewLists;
    var rules := Held(s.pend, s.heap, PdrVec);
    NewListsStep(derive, rules, s.next, done, k);
    MergeStep(s.pend, NewPtrs(derive, rules, s.next, done), k, s.next);
    MergeStep(s.heap, NewLists(derive, rules, s.next, done), Ptr(k, s.next), derive(k, rules));
  }

  lemma BuiltNone(s: Session, derive: Derive)
    ensures PartlyBuilt(s, derive, {}) == s.(next := s.next + 1)
  {
    hide Held;
    var t := PartlyBuilt(s, derive, {});
    assert t.pend == s.pend && t.heap == s.heap;
  }

  lemma CarriedStep(s: Session, done: set<Kind>, k: Kind)
    requires k !in done
    ensures var t := PartlyCarried(s, done);
            PartlyCarried(s, done + {k}) == if k in t.act then t.(pend := t.pend[k := t.act[k]], act := t.act - {k}) else t
  {
    assert s.act - (done + {k}) == s.act - done - {k};
    assert k !in s.act ==> s.act - done - {k} == s.act - done;
    MovedStep(s.act, done, k);
    hide Moved;
    if k in s.act {
      MergeStep(s.pend, Moved(s.act, done), k, s.act[k]);
    }
  }

  lemma MovedStep(act: RuleSet, done: set<Kind>, k: Kind)
    ensures Moved(act, done + {k}) == if k in act then Moved(act, done)[k := act[k]] else Moved(act, done)
  {
  }

  lemma MergeStep<K, V>(base: map<K, V>, m: map<K, V>, k: K, v: V)
    ensures base + m[k := v] == (base + m)[k := v]
  {
  }

  lemma CarriedNone(s: Session)
    ensures PartlyCarried(s, {}) == if PdrVec in s.act then s.(pend := s.pend[PdrVec := s.act[PdrVec]]) else s
  {
    var t := PartlyCarried(s, {});
    assert t.act == s.act;
    assert t.pend == if PdrVec in s.act then s.pend[PdrVec := s.act[PdrVec]] else s.pend;
  }

  /** The pending vectors of the kinds in `done` freed. */
  ghost function PartlyFreed(s: Session, done: set<Kind>): Session {
    s.(heap := map p | p in s.heap && !(p.kind in done && PointsTo(s.pend, p)) :: s.heap[p])
  }

  lemma FreedStep(s: Session, done: set<Kind>, k: Kind)
    ensures PartlyFreed(s, done).pend == s.pend
    ensures PartlyFreed(s, done + {k})
         == if k in s.pend then PartlyFreed(s, done).(heap := PartlyFreed(s, done).heap - {Ptr(k, s.pend[k])})
            else PartlyFreed(s, done)
  {
  }

  lemma FreedNone(s: Session)
    ensures PartlyFreed(s, {}) == s
  {
    assert PartlyFreed(s, {}).heap == s.heap;
  }

  lemma FreedAll(s: Session)
    ensures PartlyFreed(s, Vectors()).(pend := map[]) == Finish(s)
  {
    hide Vectors;
    forall k ensures k in Vectors() {
      AllKinds(k);
    }
    assert PartlyFreed(s, Vectors()).heap == Finish(s).heap;
  }

  class SessionRules {
    var rules: seq<RuleSet>
    var active: nat
    var heap: map<Ptr, seq<nat>>
    var next: nat

    predicate Shaped()
      reads this
    {
      |rules| == 2 && active < 2
    }

    /** The rule set in use and the other one. */
    function Contents(): Session
      requires Shaped()
      reads this
    {
      Session(rules[active], rules[1 - active], heap, next)
    }

    ghost predicate Valid()
      reads this
    {
      Shaped() && Inv(Contents())
    }

    constructor ()
      ensures Valid() && Contents() == Session(map[], map[], map[], 0)
    {
      rules, active, heap, next := [map[], map[]], 0, map[], 0;
    }

    method SetPending(k: Kind, serial: nat)
      requires Shaped()
      modifies this`rules
      ensures Shaped() && Contents() == old(Contents()).(pend := old(Contents()).pend[k := serial])
    {
      var p := 1 - active;
      var changed: RuleSet := rules[p][k := serial];
      rules := rules[p := changed];
    }

    /** Stages the rules in force as a copy, unless rules are staged already. */
    method StageRules(k: Kind)
      requires Valid() && IsRule(k)
      modifies this
      ensures Valid() && Contents() == MakePending(old(Contents()), k)
    {
      MakePendingInv(Contents(), k);
      hide Inv;
      if k in rules[1 - active] {
        return;
      }
      var copy := Held(rules[active], heap, k);
      if copy != [] {
        heap := heap[Ptr(k, next) := copy];
        SetPending(k, next);
        next := next + 1;
      }
    }

    /** Adds endpoints to a list of the pending set, each once. */
    method AddEndpoints(k: Kind, teids: seq<nat>)
      requires Shaped()
      modifies this
      ensures Shaped() && Contents() == AddTo(old(Contents()), k, teids)
    {
      var list := Held(rules[1 - active], heap, k);
      var known := list;
      for i := 0 to |teids|
        invariant AddTeids(list, teids[i..]) == AddTeids(known, teids)
      {
        assert teids[i..][1..] == teids[i + 1..];
        if teids[i] !in list {
          list := list + [teids[i]];
        }
      }
      hide AddTeids;
      if k in rules[1 - active] {
        heap := heap[Ptr(k, rules[1 - active][k]) := list];
      } else if list != [] {
        heap := heap[Ptr(k, next) := list];
        SetPending(k, next);
        next := next + 1;
      }
    }

    method CarryOver(k: Kind)
      requires Shaped()
      modifies this`rules
      ensures Shaped() && Contents() == Carry(old(Contents()), k)
    {
      if k !in rules[1 - active] && k in rules[active] {
        SetPending(k, rules[active][k]);
      }
    }

    /** One list of the staged detection rules. */
    method BuildList(k: Kind, list: seq<nat>, serial: nat, ghost s: Session, ghost derive: Derive, ghost done: set<Kind>)
      requires Shaped() && Contents() == PartlyBuilt(s, derive, done)
      requires serial == s.next && list == derive(k, Held(s.pend, s.heap, PdrVec))
      modifies this
      ensures Shaped() && active == old(active) && Contents() == PartlyBuilt(s, derive, done + {k})
    {
      BuiltStep(s, derive, done, k);
      hide PartlyBuilt, Held;
      if list != [] {
        heap := heap[Ptr(k, serial) := list];
        SetPending(k, serial);
      }
    }

    /** Rebuilds the lists of the staged detection rules. */
    method BuildLists(derive: Derive)
      requires Shaped() && PdrVec in rules[1 - active]
      modifies this
      ensures Shaped() && active == old(active) && Contents() == MovePdr(old(Contents()), derive)
    {
      ghost var s := Contents();
      var pdrs, serial := Held(rules[1 - active], heap, PdrVec), next;
      next := next + 1;
      BuiltNone(s, derive);
      ListPairs();
      hide Held, PartlyBuilt, ListKinds;
      ghost var two, four := {UeSrcIp, UeDstIp}, {UeSrcIp, UeDstIp, V4Teid, V6Teid};
      BuildTwo(UeSrcIp, UeDstIp, pdrs, serial, s, derive, {});
      BuildTwo(V4Teid, V6Teid, pdrs, serial, s, derive, two);
      BuildTwo(V4Acls, V6Acls, pdrs, serial, s, derive, four);
    }

    method BuildTwo(j: Kind, k: Kind, pdrs: seq<nat>, serial: nat, ghost s: Session, derive: Derive, ghost done: set<Kind>)
      requires Shaped() && Contents() == PartlyBuilt(s, derive, done)
      requires serial == s.next && pdrs == Held(s.pend, s.heap, PdrVec)
      modifies this
      ensures Shaped() && active == old(active) && Contents() == PartlyBuilt(s, derive, done + {j, k})
    {
      hide Held, PartlyBuilt;
      BuildList(j, derive(j, pdrs), serial, s, derive, done);
      BuildList(k, derive(k, pdrs), serial, s, derive, done + {j});
      assert done + {j} + {k} == done + {j, k};
    }

    /** Moves one list of the active set over. */
    method CarryList(k: Kind, ghost s: Session, ghost done: set<Kind>)
      requires Shaped() && Contents() == PartlyCarried(s, done) && k !in done
      modifies this`rules
      ensures Shaped() && Contents() == PartlyCarried(s, done + {k})
    {
      CarriedStep(s, done, k);
      hide PartlyCarried;
      if k in rules[active] {
        SetPending(k, rules[active][k]);
        var rest: RuleSet := rules[active] - {k};
        rules := rules[active := rest];
      }
    }

    /** Moves the lists of the active detection rules over; the rules themselves
        stay shared. */
    method CarryLists(ghost derive: Derive)
      requires Shaped() && PdrVec !in rules[1 - active]
      modifies this`rules
      ensures Shaped() && Contents() == MovePdr(old(Contents()), derive)
    {
      ListPairs();
      hide PartlyCarried, ListKinds, PartlyBuilt;
      ghost var s := Contents();
      CarryRules();
      CarryTwo(UeSrcIp, UeDstIp, s, {});
      CarryTwo(V4Teid, V6Teid, s, {UeSrcIp, UeDstIp});
      CarryTwo(V4Acls, V6Acls, s, {UeSrcIp, UeDstIp, V4Teid, V6Teid});
    }

    /** The detection rules of the active set are shared for the time being. */
    method CarryRules()
      requires Shaped()
      modifies this`rules
      ensures Shaped() && Contents() == PartlyCarried(old(Contents()), {})
    {
      CarriedNone(Contents());
      hide PartlyCarried;
      if PdrVec in rules[active] {
        SetPending(PdrVec, rules[active][PdrVec]);
      }
    }

    method CarryTwo(j: Kind, k: Kind, ghost s: Session, ghost done: set<Kind>)
      requires Shaped() && Contents() == PartlyCarried(s, done) && j !in done && k !in done && j != k
      modifies this`rules
      ensures Shaped() && Contents() == PartlyCarried(s, done + {j, k})
    {
      hide PartlyCarried;
      CarryList(j, s, done);
      CarryList(k, s, done + {j});
      assert done + {j} + {k} == done + {j, k};
    }

    /** Completes the pending set: what is not staged comes from the active set. */
    method Complete(derive: Derive, endpoints: Derive)
      requires Shaped()
      modifies this
      ensures Shaped() && Contents() == Completed(old(Contents()), derive, endpoints)
    {
      hide Held, AddTo, Carry, MovePdr;
      if PdrVec in rules[1 - active] {
        BuildLists(derive);
      } else {
        CarryLists(derive);
      }
      MoveFars(endpoints);
      hide MoveFar;
      CarryOver(UrrVec);
      CarryOver(QerVec);
    }

    method MoveFars(endpoints: Derive)
      requires Shaped()
      modifies this
      ensures Shaped() && Contents() == MoveFar(old(Contents()), endpoints)
    {
      hide Held, AddTo, Carry;
      if FarVec in rules[1 - active] {
        var far := Held(rules[1 - active], heap, FarVec);
        AddEndpoints(V4Teid, endpoints(V4Teid, far));
        AddEndpoints(V6Teid, endpoints(V6Teid, far));
      } else {
        CarryOver(FarVec);
      }
    }

    /** Completes the pending set, flips, and forgets what was carried over. */
    method UpdateApply(derive: Derive, endpoints: Derive)
      requires Shaped()
      modifies this
      ensures Shaped() && Contents() == Apply(old(Contents()), derive, endpoints)
    {
      hide Completed;
      var staged := Staged(Contents());
      if staged == {} {
        return;
      }
      Complete(derive, endpoints);
      Flip(staged);
    }

    method Flip(staged: set<Kind>)
      requires Shaped()
      modifies this`active, this`rules
      ensures Shaped()
      ensures var t := old(Contents());
              Contents() == Session(t.pend, map k | k in t.act && (!IsRule(k) || k in staged) :: t.act[k], heap, next)
    {
      active := 1 - active;
      var old_ := rules[1 - active];
      rules := rules[1 - active := map k | k in old_ && (!IsRule(k) || k in staged) :: old_[k]];
    }

    /** Frees one vector of the pending set, if it has one. */
    method FreeVector(k: Kind, ghost s: Session, ghost done: set<Kind>)
      requires Shaped() && Contents() == PartlyFreed(s, done)
      modifies this`heap
      ensures Shaped() && Contents() == PartlyFreed(s, done + {k})
    {
      FreedStep(s, done, k);
      hide PartlyFreed;
      var pend := rules[1 - active];
      if k in pend {
        heap := heap - {Ptr(k, pend[k])};
      }
    }

    /** Frees the vectors of the pending set one after the other and clears it. */
    method UpdateFinish()
      requires Shaped()
      modifies this
      ensures Shaped() && Contents() == Finish(old(Contents()))
    {
      ghost var s := Contents();
      FreedNone(s);
      FreedAll(s);
      hide PartlyFreed, Finish;
      VectorPairs();
      hide Vectors;
      ghost var two := {} + {PdrVec, FarVec};
      ghost var four := two + {UrrVec, QerVec};
      ghost var six := four + {UeSrcIp, UeDstIp};
      ghost var eight := six + {V4Teid, V6Teid};
      FreeTwo(PdrVec, FarVec, s, {});
      FreeTwo(UrrVec, QerVec, s, two);
      FreeTwo(UeSrcIp, UeDstIp, s, four);
      FreeTwo(V4Teid, V6Teid, s, six);
      FreeTwo(V4Acls, V6Acls, s, eight);
      rules := rules[1 - active := map[]];
    }

    method FreeTwo(j: Kind, k: Kind, ghost s: Session, ghost done: set<Kind>)
      requires Shaped() && Contents() == PartlyFreed(s, done)
      modifies this`heap
      ensures Shaped() && Contents() == PartlyFreed(s, done + {j, k})
    {
      hide PartlyFreed;
      FreeVector(j, s, done);
      FreeVector(k, s, done + {j});
      assert done + {j} + {k} == done + {j, k};
    }

    /** An update as the protocol runs it. */
    method CommitUpdate(derive: Derive, endpoints: Derive)
      requires Valid()
      modifies this
      ensures Valid() && Contents() == Step(old(Contents()), Update, derive, endpoints)
    {
      UpdateSwap(Contents(), derive, endpoints);
      hide Inv, Apply, Finish;
      UpdateApply(derive, endpoints);
      UpdateFinish();
    }
  }
}
