/** Bringing a global table from an old vector of entries to a new one: both are
    sorted and merged, and the entries found on one side only are added to or
    deleted from the table. */
module VecDiff {

  datatype Op<T> = Op(item: T, isAdd: bool)

  /** The comparator's sign is a total preorder. */
  ghost predicate TotalPreorder<T(!new)>(cmp: (T, T) -> int) {
    && (forall a, b :: cmp(a, b) < 0 <==> cmp(b, a) > 0)
    && (forall a, b, c :: cmp(a, b) <= 0 && cmp(b, c) <= 0 ==> cmp(a, c) <= 0)
  }

  ghost predicate Sorted<T(!new)>(cmp: (T, T) -> int, s: seq<T>) {
    forall i, j :: 0 <= i <= j < |s| ==> cmp(s[i], s[j]) <= 0
  }

  /** How many entries have the key of x. */
  function Count<T>(cmp: (T, T) -> int, s: seq<T>, x: T): nat {
    if s == [] then 0 else Count(cmp, s[1..], x) + if cmp(s[0], x) == 0 then 1 else 0
  }

  function OpCount<T>(cmp: (T, T) -> int, ops: seq<Op<T>>, x: T, isAdd: bool): nat {
    if ops == [] then 0
    else OpCount(cmp, ops[1..], x, isAdd) + if ops[0].isAdd == isAdd && cmp(ops[0].item, x) == 0 then 1 else 0
  }

  /** The merge of two sorted vectors. */
  function Diff<T>(cmp: (T, T) -> int, new_: seq<T>, old_: seq<T>): seq<Op<T>>
    decreases |new_| + |old_|
  {
    if new_ == [] && old_ == [] then []
    else if old_ == [] || (new_ != [] && cmp(new_[0], old_[0]) < 0) then [Op(new_[0], true)] + Diff(cmp, new_[1..], old_)
    else if new_ == [] || cmp(new_[0], old_[0]) > 0 then [Op(old_[0], false)] + Diff(cmp, new_, old_[1..])
    else Diff(cmp, new_[1..], old_[1..])
  }

  function Excess(a: nat, b: nat): nat {
    if a > b then a - b else 0
  }

  lemma {:induction false} CountAbsent<T(!new)>(cmp: (T, T) -> int, s: seq<T>, x: T)
    requires forall i :: 0 <= i < |s| ==> cmp(s[i], x) != 0
    ensures Count(cmp, s, x) == 0
  {
    if s != [] {
      CountAbsent(cmp, s[1..], x);
    }
  }

  /** A key below the head of a sorted vector does not occur in it. */
  lemma CountBelow<T(!new)>(cmp: (T, T) -> int, a: T, s: seq<T>, x: T)
    requires TotalPreorder(cmp) && Sorted(cmp, s) && (s == [] || cmp(a, s[0]) < 0) && cmp(a, x) == 0
    ensures Count(cmp, s, x) == 0
  {
    forall i | 0 <= i < |s| ensures cmp(s[i], x) != 0 {
      var head, y := s[0], s[i];
      assert cmp(head, y) <= 0;
      assert cmp(x, a) <= 0;
      assert cmp(y, x) == 0 ==> cmp(head, x) <= 0;
      assert cmp(head, x) <= 0 ==> cmp(head, a) <= 0;
    }
    CountAbsent(cmp, s, x);
  }

  lemma OpCountCons<T(!new)>(cmp: (T, T) -> int, op: Op<T>, ops: seq<Op<T>>, x: T, isAdd: bool)
    ensures OpCount(cmp, [op] + ops, x, isAdd)
         == OpCount(cmp, ops, x, isAdd) + if op.isAdd == isAdd && cmp(op.item, x) == 0 then 1 else 0
  {
    assert ([op] + ops)[1..] == ops;
  }

  lemma SameKey<T(!new)>(cmp: (T, T) -> int, a: T, b: T, x: T)
    requires TotalPreorder(cmp) && cmp(a, b) == 0
    ensures cmp(a, x) == 0 <==> cmp(b, x) == 0
  {
    assert cmp(b, a) == 0;
    if cmp(a, x) == 0 {
      assert cmp(x, a) == 0;
      assert cmp(b, x) <= 0 && cmp(x, b) <= 0;
    }
    if cmp(b, x) == 0 {
      assert cmp(x, b) == 0;
      assert cmp(a, x) <= 0 && cmp(x, a) <= 0;
    }
  }

  lemma TailSorted<T(!new)>(cmp: (T, T) -> int, s: seq<T>, x: T)
    requires Sorted(cmp, s) && s != []
    ensures Sorted(cmp, s[1..])
    ensures Count(cmp, s, x) == Count(cmp, s[1..], x) + if cmp(s[0], x) == 0 then 1 else 0
  {
  }

  /** One step of the merge. */
  lemma DiffStep<T(!new)>(cmp: (T, T) -> int, new_: seq<T>, old_: seq<T>)
    ensures new_ == [] && old_ == [] ==> Diff(cmp, new_, old_) == []
    ensures new_ != [] && (old_ == [] || cmp(new_[0], old_[0]) < 0) ==>
              Diff(cmp, new_, old_) == [Op(new_[0], true)] + Diff(cmp, new_[1..], old_)
    ensures old_ != [] && (new_ == [] || cmp(new_[0], old_[0]) > 0) ==>
              Diff(cmp, new_, old_) == [Op(old_[0], false)] + Diff(cmp, new_, old_[1..])
    ensures new_ != [] && old_ != [] && cmp(new_[0], old_[0]) == 0 ==>
              Diff(cmp, new_, old_) == Diff(cmp, new_[1..], old_[1..])
  {
  }

  /** By key, the additions are new minus old and the deletions old minus new. */
  lemma {:induction false} DiffCounts<T(!new)>(cmp: (T, T) -> int, new_: seq<T>, old_: seq<T>, x: T)
    requires TotalPreorder(cmp) && Sorted(cmp, new_) && Sorted(cmp, old_)
    ensures OpCount(cmp, Diff(cmp, new_, old_), x, true) == Excess(Count(cmp, new_, x), Count(cmp, old_, x))
    ensures OpCount(cmp, Diff(cmp, new_, old_), x, false) == Excess(Count(cmp, old_, x), Count(cmp, new_, x))
    decreases |new_| + |old_|
  {
    if new_ == [] && old_ == [] {
      return;
    }
    hide Diff, OpCount, Count, Sorted;
    DiffStep(cmp, new_, old_);
    if new_ != [] {
      TailSorted(cmp, new_, x);
    }
    if old_ != [] {
      TailSorted(cmp, old_, x);
    }
    if old_ == [] || (new_ != [] && cmp(new_[0], old_[0]) < 0) {
      DiffCounts(cmp, new_[1..], old_, x);
      OpCountCons(cmp, Op(new_[0], true), Diff(cmp, new_[1..], old_), x, true);
      OpCountCons(cmp, Op(new_[0], true), Diff(cmp, new_[1..], old_), x, false);
      if cmp(new_[0], x) == 0 {
        CountBelow(cmp, new_[0], old_, x);
      }
    } else if new_ == [] || cmp(new_[0], old_[0]) > 0 {
      DiffCounts(cmp, new_, old_[1..], x);
      OpCountCons(cmp, Op(old_[0], false), Diff(cmp, new_, old_[1..]), x, true);
      OpCountCons(cmp, Op(old_[0], false), Diff(cmp, new_, old_[1..]), x, false);
      if cmp(old_[0], x) == 0 {
        CountBelow(cmp, old_[0], new_, x);
      }
    } else {
      DiffCounts(cmp, new_[1..], old_[1..], x);
      SameKey(cmp, new_[0], old_[0], x);
    }
  }

  /** A rearrangement has the same keys. */
  lemma {:induction false} CountPermutation<T(!new)>(cmp: (T, T) -> int, a: seq<T>, b: seq<T>, x: T)
    requires multiset(a) == multiset(b)
    ensures Count(cmp, a, x) == Count(cmp, b, x)
    decreases |a|
  {
    if a == [] {
      assert |multiset(b)| == 0;
    } else {
      assert a[0] in multiset(b);
      var k :| 0 <= k < |b| && b[k] == a[0];
      hide *;
      RemoveOne(a, b, k);
      CountAround(cmp, a, 0, x);
      assert a[..0] + a[1..] == a[1..];
      CountPermutation(cmp, a[1..], b[..k] + b[k + 1..], x);
      CountAround(cmp, b, k, x);
    }
  }

  lemma RemoveOne<T>(a: seq<T>, b: seq<T>, k: nat)
    requires multiset(a) == multiset(b) && a != [] && k < |b| && b[k] == a[0]
    ensures multiset(a[1..]) == multiset(b[..k] + b[k + 1..])
  {
    assert a == [a[0]] + a[1..];
    assert b == b[..k] + [b[k]] + b[k + 1..];
    var m, n := multiset(a[1..]), multiset(b[..k] + b[k + 1..]);
    assert multiset(a) == multiset{a[0]} + m;
    assert multiset(b) == multiset{a[0]} + n;
    assert multiset(a) - multiset{a[0]} == m && multiset(b) - multiset{a[0]} == n;
  }

  lemma {:induction false} CountAround<T(!new)>(cmp: (T, T) -> int, b: seq<T>, k: nat, x: T)
    requires k < |b|
    ensures Count(cmp, b, x) == Count(cmp, b[..k] + b[k + 1..], x) + if cmp(b[k], x) == 0 then 1 else 0
  {
    if k == 0 {
      assert b[..0] + b[1..] == b[1..];
    } else {
      CountAround(cmp, b[1..], k - 1, x);
      var rest := b[..k] + b[k + 1..];
      assert rest[1..] == b[1..][..k - 1] + b[1..][k..];
    }
  }

  // ----- the table

  /** Which keys are in the table. */
  type Table<!T> = T -> bool

  function Apply<T>(cmp: (T, T) -> int, table: Table<T>, ops: seq<Op<T>>): Table<T> {
    if ops == [] then table
    else
      var op := ops[0];
      Apply(cmp, y => if cmp(op.item, y) == 0 then op.isAdd else table(y), ops[1..])
  }

  ghost predicate Agrees<T(!new)>(cmp: (T, T) -> int, table: Table<T>, s: seq<T>) {
    forall y :: table(y) <==> Count(cmp, s, y) > 0
  }

  lemma {:induction false} ApplyOneKind<T(!new)>(cmp: (T, T) -> int, table: Table<T>, ops: seq<Op<T>>, y: T, isAdd: bool)
    requires OpCount(cmp, ops, y, !isAdd) == 0
    ensures Apply(cmp, table, ops)(y) == if OpCount(cmp, ops, y, isAdd) > 0 then isAdd else table(y)
    decreases |ops|
  {
    if ops != [] {
      var op := ops[0];
      ApplyOneKind(cmp, z => if cmp(op.item, z) == 0 then op.isAdd else table(z), ops[1..], y, isAdd);
    }
  }

  /** A key that loses only some of its entries is deleted although it stays. */
  ghost predicate LosesSome<T(!new)>(cmp: (T, T) -> int, new_: seq<T>, old_: seq<T>, y: T) {
    Count(cmp, old_, y) > Count(cmp, new_, y) > 0
  }

  /** A table in agreement with the old vector ends in agreement with the new
      one exactly when no key loses some but not all of its entries. */
  lemma TableFollows<T(!new)>(cmp: (T, T) -> int, table: Table<T>, new_: seq<T>, old_: seq<T>)
    requires TotalPreorder(cmp) && Sorted(cmp, new_) && Sorted(cmp, old_) && Agrees(cmp, table, old_)
    ensures Agrees(cmp, Apply(cmp, table, Diff(cmp, new_, old_)), new_) <==> forall y :: !LosesSome(cmp, new_, old_, y)
  {
    var ops := Diff(cmp, new_, old_);
    forall y ensures (Apply(cmp, table, ops)(y) <==> Count(cmp, new_, y) > 0) <==> !LosesSome(cmp, new_, old_, y) {
      DiffCounts(cmp, new_, old_, y);
      hide Apply, Diff, OpCount, Count, TotalPreorder;
      if Count(cmp, new_, y) >= Count(cmp, old_, y) {
        ApplyOneKind(cmp, table, ops, y, true);
      } else {
        ApplyOneKind(cmp, table, ops, y, false);
      }
    }
    hide Apply, Diff, Count, TotalPreorder, LosesSome;
  }

  ghost predicate DuplicateFree<T(!new)>(cmp: (T, T) -> int, s: seq<T>) {
    forall y :: Count(cmp, s, y) <= 1
  }

  /** The intended use: old vectors without repeated keys. */
  lemma DuplicateFreeTableFollows<T(!new)>(cmp: (T, T) -> int, table: Table<T>, new_: seq<T>, old_: seq<T>)
    requires TotalPreorder(cmp) && Sorted(cmp, new_) && Sorted(cmp, old_)
    requires Agrees(cmp, table, old_) && DuplicateFree(cmp, old_)
    ensures Agrees(cmp, Apply(cmp, table, Diff(cmp, new_, old_)), new_)
  {
    TableFollows(cmp, table, new_, old_);
  }

  lemma CountSevens(cmp: (int, int) -> int, y: int)
    requires forall a, b :: cmp(a, b) == a - b
    ensures Count(cmp, [7], y) == (if y == 7 then 1 else 0) && Count(cmp, [7, 7], y) == if y == 7 then 2 else 0
  {
    assert [7, 7][1..] == [7] && [7][1..] == [];
  }

  /** Two equal entries of which one goes: the key is deleted from the table. */
  lemma RepeatedKeyIsDropped()
    ensures var cmp := (a: int, b: int) => a - b;
            var table := (y: int) => y == 7;
            Agrees(cmp, table, [7, 7]) && !Agrees(cmp, Apply(cmp, table, Diff(cmp, [7], [7, 7])), [7])
  {
    var cmp := (a: int, b: int) => a - b;
    var table := (y: int) => y == 7;
    hide Count, Diff, Apply;
    forall y ensures Count(cmp, [7], y) == (if y == 7 then 1 else 0) && Count(cmp, [7, 7], y) == if y == 7 then 2 else 0 {
      CountSevens(cmp, y);
    }
    assert Sorted(cmp, [7]) && Sorted(cmp, [7, 7]);
    TableFollows(cmp, table, [7], [7, 7]);
    assert LosesSome(cmp, [7], [7, 7], 7);
  }

  // ----- the loops

  /** A sort, by insertion. */
  method Sort<T(!new)>(cmp: (T, T) -> int, s: seq<T>) returns (r: seq<T>)
    requires TotalPreorder(cmp)
    ensures Sorted(cmp, r) && multiset(r) == multiset(s)
  {
    r := [];
    for i := 0 to |s|
      invariant Sorted(cmp, r) && multiset(r) == multiset(s[..i])
    {
      var k := 0;
      while k < |r| && cmp(r[k], s[i]) <= 0
        invariant k <= |r| && forall j :: 0 <= j < k ==> cmp(r[j], s[i]) <= 0
      {
        k := k + 1;
      }
      InsertSorted(cmp, r, k, s[i]);
      assert s[..i + 1] == s[..i] + [s[i]];
      assert r == r[..k] + r[k..];
      r := r[..k] + [s[i]] + r[k..];
    }
    assert s[..|s|] == s;
  }

  lemma InsertSorted<T(!new)>(cmp: (T, T) -> int, r: seq<T>, k: nat, x: T)
    requires TotalPreorder(cmp) && Sorted(cmp, r) && k <= |r|
    requires forall j :: 0 <= j < k ==> cmp(r[j], x) <= 0
    requires k < |r| ==> cmp(r[k], x) > 0
    ensures Sorted(cmp, r[..k] + [x] + r[k..])
  {
    var t := r[..k] + [x] + r[k..];
    assert cmp(x, x) == 0;
    forall i, j | 0 <= i <= j < |t| ensures cmp(t[i], t[j]) <= 0 {
      if i == k < j {
        assert cmp(x, r[k]) <= 0 && cmp(r[k], r[j - 1]) <= 0;
      }
    }
  }

  /** Sorts both vectors and issues the operations. */
  method Run<T(!new)>(cmp: (T, T) -> int, newVec: seq<T>, oldVec: seq<T>) returns (new_: seq<T>, old_: seq<T>, ops: seq<Op<T>>)
    requires TotalPreorder(cmp)
    ensures Sorted(cmp, new_) && multiset(new_) == multiset(newVec)
    ensures Sorted(cmp, old_) && multiset(old_) == multiset(oldVec)
    ensures ops == Diff(cmp, new_, old_)
    ensures forall x :: OpCount(cmp, ops, x, true) == Excess(Count(cmp, newVec, x), Count(cmp, oldVec, x))
    ensures forall x :: OpCount(cmp, ops, x, false) == Excess(Count(cmp, oldVec, x), Count(cmp, newVec, x))
  {
    new_ := Sort(cmp, newVec);
    old_ := Sort(cmp, oldVec);
    ops := Merge(cmp, new_, old_);
    forall x ensures OpCount(cmp, ops, x, true) == Excess(Count(cmp, newVec, x), Count(cmp, oldVec, x))
      ensures OpCount(cmp, ops, x, false) == Excess(Count(cmp, oldVec, x), Count(cmp, newVec, x))
    {
      hide *;
      DiffCounts(cmp, new_, old_, x);
      CountPermutation(cmp, new_, newVec, x);
      CountPermutation(cmp, old_, oldVec, x);
    }
  }

  method Merge<T(!new)>(cmp: (T, T) -> int, new_: seq<T>, old_: seq<T>) returns (ops: seq<Op<T>>)
    ensures ops == Diff(cmp, new_, old_)
  {
    hide Diff;
    ops := [];
    var i, j := 0, 0;
    assert new_[0..] == new_ && old_[0..] == old_;
    while i < |new_| && j < |old_|
      invariant i <= |new_| && j <= |old_|
      invariant ops + Diff(cmp, new_[i..], old_[j..]) == Diff(cmp, new_, old_)
    {
      var r := cmp(new_[i], old_[j]);
      DiffStep(cmp, new_[i..], old_[j..]);
      assert new_[i..][1..] == new_[i + 1..] && old_[j..][1..] == old_[j + 1..];
      if r == 0 {
        i, j := i + 1, j + 1;
      } else if r < 0 {
        ops, i := ops + [Op(new_[i], true)], i + 1;
      } else {
        ops, j := ops + [Op(old_[j], false)], j + 1;
      }
    }
    while i < |new_|
      invariant i <= |new_| && j <= |old_| && (i < |new_| ==> j == |old_|)
      invariant ops + Diff(cmp, new_[i..], old_[j..]) == Diff(cmp, new_, old_)
    {
      DiffStep(cmp, new_[i..], old_[j..]);
      assert new_[i..][1..] == new_[i + 1..];
      ops, i := ops + [Op(new_[i], true)], i + 1;
    }
    while j < |old_|
      invariant i == |new_| && j <= |old_|
      invariant ops + Diff(cmp, new_[i..], old_[j..]) == Diff(cmp, new_, old_)
    {
      DiffStep(cmp, new_[i..], old_[j..]);
      assert old_[j..][1..] == old_[j + 1..];
      ops, j := ops + [Op(old_[j], false)], j + 1;
    }
    DiffStep(cmp, new_[i..], old_[j..]);
  }
}
