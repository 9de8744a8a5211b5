/** The usage reporting rules of a session as traffic and updates change them. */
module UrrMain {
  import opened Options
  import opened Pools
  import opened UrrUsage
  import UrrLinks

  /** Adds a packet to one counter and says whether its quota is reached. */
  method IncrementAndCheckCounter(packets: int, bytes: int, consumed: int, quota: int, n: nat)
    returns (packets': int, bytes': int, consumed': int, exhausted: bool)
    ensures packets' == packets + 1 && bytes' == bytes + n && consumed' == consumed + n
    ensures exhausted <==> Reaches(quota, consumed, n)
  {
    exhausted := quota != 0 && consumed < quota && consumed + n >= quota;
    consumed' := consumed + n;
    bytes' := bytes + n;
    packets' := packets + 1;
  }

  /** A rule whose counters are updated in place. */
  class UsageRule {
    var volume: bool
    var after: bool
    var over: bool
    var monitor: Option<real>
    var packets: Counter
    var bytes: Counter
    var consumed: Counter
    var before: Usage
    var quota: Counter
    var newQuota: bool

    function Contents(): Urr
      reads this
    {
      Urr(volume, after, over, monitor, Usage(packets, bytes), consumed, before, quota, newQuota)
    }

    constructor (u: Urr)
      ensures Contents() == u
    {
      volume, after, over, monitor := u.volume, u.after, u.over, u.monitor;
      packets, bytes, consumed := u.usage.packets, u.usage.bytes, u.consumed;
      before, quota, newQuota := u.before, u.quota, u.newQuota;
    }

    /** Counts a packet; a second monitoring time gives the session up. */
    method ProcessPacket(p: Packet) returns (dropSession: bool, drop: bool)
      modifies this
      ensures dropSession == Refused(old(Contents()), p)
      ensures Contents() == Process(old(Contents()), p)
      ensures drop == Dropped(old(Contents()), p)
    {
      hide Exhausts, AddCounter, PacketCounter;
      if Due(Contents(), p.now) {
        if after {
          return true, false;
        }
        before := Usage(packets, bytes);
        packets := Counter(0, 0, 0);
        bytes := Counter(0, 0, 0);
        monitor := None;
        after := true;
      }
      if volume {
        CountVolume(p);
      }
      return false, over;
    }

    method CountVolume(p: Packet)
      modifies this`packets, this`bytes, this`consumed, this`over
      ensures packets == AddCounter(old(packets), PacketCounter(p, 1)) && bytes == AddCounter(old(bytes), PacketCounter(p, p.len))
      ensures consumed == AddCounter(old(consumed), PacketCounter(p, p.len)) && over == (old(over) || Exhausts(old(Contents()), p))
    {
      hide Reaches;
      var exhausted := false;
      if p.ul {
        var a, b, c, e := IncrementAndCheckCounter(packets.ul, bytes.ul, consumed.ul, quota.ul, p.len);
        packets, bytes, consumed := packets.(ul := a), bytes.(ul := b), consumed.(ul := c);
        exhausted := exhausted || e;
      }
      if p.dl {
        var a, b, c, e := IncrementAndCheckCounter(packets.dl, bytes.dl, consumed.dl, quota.dl, p.len);
        packets, bytes, consumed := packets.(dl := a), bytes.(dl := b), consumed.(dl := c);
        exhausted := exhausted || e;
      }
      var a, b, c, e := IncrementAndCheckCounter(packets.total, bytes.total, consumed.total, quota.total, p.len);
      packets, bytes, consumed := packets.(total := a), bytes.(total := b), consumed.(total := c);
      exhausted := exhausted || e;
      if exhausted {
        over := true;
      }
    }

    /** Starts the copy that an update is staged in. */
    method MakePending() returns (staged: UsageRule)
      ensures fresh(staged) && staged.Contents() == Copy(Contents())
    {
      staged := new UsageRule(Contents());
      staged.newQuota := false;
      staged.packets, staged.bytes, staged.consumed := Counter(0, 0, 0), Counter(0, 0, 0), Counter(0, 0, 0);
    }

    /** Adds what the replaced rule has counted. */
    method MergeFrom(old_: UsageRule)
      requires old_ != this
      modifies this
      ensures Contents() == Merged(old(Contents()), old_.Contents())
    {
      if volume {
        packets := AddCounter(packets, old_.packets);
        bytes := AddCounter(bytes, old_.bytes);
        if newQuota {
          consumed := bytes;
        } else {
          consumed := AddCounter(consumed, old_.consumed);
        }
      }
    }
  }

  // ----- the rules a packet is charged to

  datatype Outcome = Outcome(urrs: map<nat, Urr>, drop: bool, dropSession: bool)

  /** The rules of a packet in turn; giving the session up ends it. */
  function ProcessUrrs(urrs: map<nat, Urr>, ids: seq<nat>, p: Packet, drop: bool): Outcome
    decreases |ids|
  {
    if ids == [] then Outcome(urrs, drop, false)
    else if ids[0] !in urrs then ProcessUrrs(urrs, ids[1..], p, drop)
    else if Refused(urrs[ids[0]], p) then Outcome(urrs, drop, true)
    else ProcessUrrs(urrs[ids[0] := Process(urrs[ids[0]], p)], ids[1..], p, drop || Dropped(urrs[ids[0]], p))
  }

  /** How often a detection rule names the usage rule. */
  function Named(ids: seq<nat>, i: nat): nat {
    if ids == [] then 0 else Named(ids[1..], i) + if ids[0] == i then 1 else 0
  }

  /** The rule after counting the packet n times. */
  function Repeated(u: Urr, p: Packet, n: nat): Urr
    decreases n
  {
    if n == 0 then u else Repeated(Process(u, p), p, n - 1)
  }

  lemma {:induction false} OverStays(u: Urr, p: Packet, n: nat)
    requires u.over
    ensures Repeated(u, p, n).over
    decreases n
  {
    if n > 0 {
      assert Process(u, p).over;
      hide Process;
      OverStays(Process(u, p), p, n - 1);
    }
  }

  lemma {:induction false} NamedMeansIn(ids: seq<nat>, i: nat)
    ensures Named(ids, i) > 0 <==> i in ids
  {
    if ids != [] {
      NamedMeansIn(ids[1..], i);
      assert ids == [ids[0]] + ids[1..];
    }
  }

  /** A rule that does not refuse a packet does not refuse it again. */
  lemma NotRefusedAgain(u: Urr, p: Packet)
    requires !Refused(u, p)
    ensures !Refused(Process(u, p), p)
  {
    hide Plus, AddCounter, Exhausts;
  }

  /** Unless the session is given up, each rule counts the packet as often as it
      is named and the others do not change; the packet is dropped exactly if one
      of the named rules is over its quota. */
  lemma {:induction false} EachRuleCounts(urrs: map<nat, Urr>, ids: seq<nat>, p: Packet, drop: bool)
    requires !ProcessUrrs(urrs, ids, p, drop).dropSession
    ensures var o := ProcessUrrs(urrs, ids, p, drop);
            && o.urrs.Keys == urrs.Keys
            && (forall i :: i in urrs ==> o.urrs[i] == Repeated(urrs[i], p, Named(ids, i)))
            && (o.drop <==> drop || exists i :: i in ids && i in urrs && o.urrs[i].over)
    decreases |ids|
  {
    hide Process, Refused;
    if ids != [] {
      var i, rest := ids[0], ids[1..];
      assert ids == [i] + rest;
      assert forall j :: j in ids <==> j == i || j in rest;
      if i !in urrs {
        EachRuleCounts(urrs, rest, p, drop);
      } else {
        var next := urrs[i := Process(urrs[i], p)];
        EachRuleCounts(next, rest, p, drop || Dropped(urrs[i], p));
        var o := ProcessUrrs(urrs, ids, p, drop);
        NamedMeansIn(rest, i);
        if next[i].over {
          OverStays(next[i], p, Named(rest, i));
        }
        assert o.urrs[i] == Repeated(next[i], p, Named(rest, i));
      }
    }
  }

  /** The session is given up exactly if one of the packet's rules refuses it. */
  lemma {:induction false} GivenUpExactly(urrs: map<nat, Urr>, ids: seq<nat>, p: Packet, drop: bool)
    ensures ProcessUrrs(urrs, ids, p, drop).dropSession <==> exists i :: i in ids && i in urrs && Refused(urrs[i], p)
    decreases |ids|
  {
    hide Process, Dropped, Refused;
    if ids != [] {
      var i, rest := ids[0], ids[1..];
      assert ids == [i] + rest;
      assert forall j :: j in ids <==> j == i || j in rest;
      if i !in urrs {
        GivenUpExactly(urrs, rest, p, drop);
      } else if !Refused(urrs[i], p) {
        NotRefusedAgain(urrs[i], p);
        GivenUpExactly(urrs[i := Process(urrs[i], p)], rest, p, drop || Dropped(urrs[i], p));
      }
    }
  }

  // ----- merging after a flip

  datatype Entry = Entry(id: nat, urr: Urr)

  function Names(us: seq<Entry>): seq<nat> {
    UrrLinks.IdsBy(us, (u: Entry) => u.id)
  }

  /** Rule j after the replaced rules up to n were merged in. */
  ghost predicate MergedUpTo(active: seq<Entry>, leaving: seq<Entry>, n: nat, merged: seq<Entry>, j: nat)
    requires |merged| == |active| && j < |active| && n <= |leaving|
  {
    && (forall i :: 0 <= i < n && leaving[i].id == active[j].id ==>
          merged[j] == Entry(active[j].id, Merged(active[j].urr, leaving[i].urr)))
    && (active[j].id !in Names(leaving[..n]) ==> merged[j] == active[j])
  }

  /** Every surviving rule takes over the counters of the rule it replaces. */
  method MergeUrrs(active: seq<Entry>, leaving: seq<Entry>) returns (merged: seq<Entry>)
    requires UrrLinks.Increasing(Names(active)) && UrrLinks.Increasing(Names(leaving))
    ensures |merged| == |active| && Names(merged) == Names(active)
    ensures forall j: nat :: j < |active| ==> MergedUpTo(active, leaving, |leaving|, merged, j)
  {
    hide Merged;
    merged := active;
    for n := 0 to |leaving|
      invariant |merged| == |active| && Names(merged) == Names(active)
      invariant forall j: nat :: j < |active| ==> MergedUpTo(active, leaving, n, merged, j)
    {
      var old_ := leaving[n];
      var found := UrrLinks.FindId(Names(merged), old_.id);
      ghost var before := merged;
      if found.Some? {
        var j := found.value;
        StillUnmerged(active, leaving, n, merged, j);
        merged := merged[j := Entry(merged[j].id, Merged(merged[j].urr, old_.urr))];
      }
      ghost var m := n + 1;
      forall j: nat | j < |active| ensures MergedUpTo(active, leaving, m, merged, j) {
        assert MergedUpTo(active, leaving, n, before, j);
        MergeNext(active, leaving, n, before, merged, j);
      }
    }
  }

  lemma StillUnmerged(active: seq<Entry>, leaving: seq<Entry>, n: nat, merged: seq<Entry>, j: nat)
    requires |merged| == |active| && j < |active| && n < |leaving| && MergedUpTo(active, leaving, n, merged, j)
    requires UrrLinks.Increasing(Names(leaving)) && leaving[n].id == active[j].id
    ensures merged[j] == active[j]
  {
    forall i | 0 <= i < n ensures leaving[i].id != active[j].id {
      assert Names(leaving)[i] < Names(leaving)[n];
    }
  }

  lemma MergeNext(active: seq<Entry>, leaving: seq<Entry>, n: nat, before: seq<Entry>, merged: seq<Entry>, j: nat)
    requires |before| == |merged| == |active| && j < |active| && n < |leaving|
    requires UrrLinks.Increasing(Names(leaving)) && UrrLinks.Increasing(Names(active)) && MergedUpTo(active, leaving, n, before, j)
    requires merged[j] == if leaving[n].id == active[j].id then Entry(active[j].id, Merged(active[j].urr, leaving[n].urr)) else before[j]
    ensures MergedUpTo(active, leaving, n + 1, merged, j)
  {
    if leaving[n].id == active[j].id {
      forall i | 0 <= i < n ensures leaving[i].id != active[j].id {
        assert Names(leaving)[i] < Names(leaving)[n];
      }
    }
    assert leaving[..n + 1] == leaving[..n] + [leaving[n]];
    assert active[j].id in Names(leaving[..n]) ==> active[j].id in Names(leaving[..n + 1]) by {
      if active[j].id in Names(leaving[..n]) {
        var i :| 0 <= i < n && Names(leaving[..n])[i] == active[j].id;
        assert Names(leaving[..n + 1])[i] == active[j].id;
      }
    }
    assert Names(leaving[..n + 1])[n] == leaving[n].id;
  }
}
