/** Quota enforcement over a sequence of packets without a session update. */
module UrrQuota {
  import opened Options
  import opened UrrUsage

  datatype Direction = Uplink | Downlink | Both

  function Get(c: Counter, d: Direction): int {
    match d
    case Uplink => c.ul
    case Downlink => c.dl
    case Both => c.total
  }

  /** The octets a packet charges to a counter. */
  function Charge(p: Packet, d: Direction): nat {
    match d
    case Uplink => if p.ul then p.len else 0
    case Downlink => if p.dl then p.len else 0
    case Both => p.len
  }

  /** A counter has a quota and has reached it. */
  predicate Full(u: Urr, d: Direction) {
    Get(u.quota, d) != 0 && Get(u.consumed, d) >= Get(u.quota, d)
  }

  /** A packet is the one with which a counter reaches its quota. */
  predicate Signals(u: Urr, p: Packet, d: Direction) {
    (d == Uplink ==> p.ul) && (d == Downlink ==> p.dl) && Reaches(Get(u.quota, d), Get(u.consumed, d), p.len)
  }

  lemma ExhaustsMeaning(u: Urr, p: Packet)
    ensures Exhausts(u, p) <==> exists d :: Signals(u, p, d)
  {
    assert Signals(u, p, Both) <==> Reaches(u.quota.total, u.consumed.total, p.len);
    assert Signals(u, p, Uplink) <==> p.ul && Reaches(u.quota.ul, u.consumed.ul, p.len);
    assert Signals(u, p, Downlink) <==> p.dl && Reaches(u.quota.dl, u.consumed.dl, p.len);
    if d :| Signals(u, p, d) {
      match d {
        case Uplink =>
        case Downlink =>
        case Both =>
      }
    }
  }

  function After(u: Urr, ps: seq<Packet>): Urr {
    if ps == [] then u else Process(After(u, ps[..|ps| - 1]), ps[|ps| - 1])
  }

  /** The octets of the packets that were let through. */
  function Passed(u: Urr, ps: seq<Packet>, d: Direction): nat {
    if ps == [] then 0
    else
      var k := |ps| - 1;
      Passed(u, ps[..k], d) + if Dropped(After(u, ps[..k]), ps[k]) then 0 else Charge(ps[k], d)
  }

  function Charged(ps: seq<Packet>, d: Direction): nat {
    if ps == [] then 0 else Charged(ps[..|ps| - 1], d) + Charge(ps[|ps| - 1], d)
  }

  /** A rule below all its quotas, with no second monitoring time set. */
  ghost predicate Fresh(u: Urr) {
    u.volume && !u.over && !(u.after && u.monitor.Some?) && forall d :: !Full(u, d)
  }

  ghost predicate Sound(u: Urr, t: Urr) {
    && t.volume && t.quota == u.quota && !(t.after && t.monitor.Some?)
    && (t.over <==> exists d :: Full(t, d))
  }

  lemma ProcessStep(t: Urr, p: Packet, d: Direction)
    requires t.volume && !(t.after && t.monitor.Some?)
    ensures var v := Process(t, p);
            && !Refused(t, p) && v.volume && v.quota == t.quota && !(v.after && v.monitor.Some?)
            && Get(v.consumed, d) == Get(t.consumed, d) + Charge(p, d)
            && (v.over <==> t.over || Exhausts(t, p))
  {
    ChargeAdds(t.consumed, p, d);
    SplitExhausts(t, p);
    hide AddCounter, PacketCounter, Plus, UsageOf, Exhausts;
  }

  lemma ChargeAdds(c: Counter, p: Packet, d: Direction)
    ensures Get(AddCounter(c, PacketCounter(p, p.len)), d) == Get(c, d) + Charge(p, d)
  {
  }

  lemma SplitExhausts(t: Urr, p: Packet)
    ensures Exhausts(Split(t, p.now), p) == Exhausts(t, p)
  {
    hide Reaches;
  }

  /** A counter is full after a packet exactly if it was, or the packet signals. */
  lemma FullStep(t: Urr, p: Packet, d: Direction)
    requires t.volume && !(t.after && t.monitor.Some?)
    ensures Full(Process(t, p), d) <==> Full(t, d) || Signals(t, p, d)
  {
    ProcessStep(t, p, d);
    hide Process;
  }

  lemma {:induction false} AfterSound(u: Urr, ps: seq<Packet>)
    requires Fresh(u)
    ensures Sound(u, After(u, ps))
    decreases |ps|
  {
    if ps != [] {
      var k := |ps| - 1;
      AfterSound(u, ps[..k]);
      var t, v := After(u, ps[..k]), After(u, ps);
      ProcessStep(t, ps[k], Both);
      ExhaustsMeaning(t, ps[k]);
      forall d ensures Full(v, d) <==> Full(t, d) || Signals(t, ps[k], d) {
        FullStep(t, ps[k], d);
      }
      hide Process, Full, Signals, Exhausts;
    }
  }

  lemma {:induction false} ConsumedIsCharged(u: Urr, ps: seq<Packet>, d: Direction)
    requires Fresh(u)
    ensures Get(After(u, ps).consumed, d) == Get(u.consumed, d) + Charged(ps, d)
    decreases |ps|
  {
    if ps != [] {
      var k := |ps| - 1;
      ConsumedIsCharged(u, ps[..k], d);
      AfterSound(u, ps[..k]);
      ProcessStep(After(u, ps[..k]), ps[k], d);
      hide Process, Sound;
    }
  }

  /** Packet k is dropped exactly if some quota is reached with it or before. */
  lemma DroppedExactly(u: Urr, ps: seq<Packet>, k: nat)
    requires Fresh(u) && k < |ps|
    ensures Dropped(After(u, ps[..k]), ps[k])
       <==> exists d :: Get(u.quota, d) != 0 && Get(u.consumed, d) + Charged(ps[..k + 1], d) >= Get(u.quota, d)
  {
    var t, v := After(u, ps[..k]), After(u, ps[..k + 1]);
    assert ps[..k + 1][..k] == ps[..k];
    assert v == Process(t, ps[k]);
    AfterSound(u, ps[..k]);
    AfterSound(u, ps[..k + 1]);
    ProcessStep(t, ps[k], Both);
    hide Process, After;
    forall d ensures Full(v, d) <==> Get(u.quota, d) != 0 && Get(u.consumed, d) + Charged(ps[..k + 1], d) >= Get(u.quota, d) {
      ConsumedIsCharged(u, ps[..k + 1], d);
    }
  }

  /** Each counter signals on exactly the packet that reaches its quota. */
  lemma SignalsExactly(u: Urr, ps: seq<Packet>, k: nat, d: Direction)
    requires Fresh(u) && k < |ps|
    ensures Signals(After(u, ps[..k]), ps[k], d)
       <==> && Get(u.quota, d) != 0
            && Get(u.consumed, d) + Charged(ps[..k], d) < Get(u.quota, d) <= Get(u.consumed, d) + Charged(ps[..k + 1], d)
  {
    AfterSound(u, ps[..k]);
    ConsumedIsCharged(u, ps[..k], d);
    assert ps[..k + 1][..k] == ps[..k];
  }

  lemma {:induction false} ChargedGrows(ps: seq<Packet>, j: nat, k: nat, d: Direction)
    requires j <= k <= |ps|
    ensures Charged(ps[..j], d) <= Charged(ps[..k], d)
  {
    if j < k {
      ChargedGrows(ps, j, k - 1, d);
      assert ps[..k][..k - 1] == ps[..k - 1];
    }
  }

  /** No counter signals twice. */
  lemma SignalsOnce(u: Urr, ps: seq<Packet>, j: nat, k: nat, d: Direction)
    requires Fresh(u) && j < k < |ps|
    requires Signals(After(u, ps[..j]), ps[j], d)
    ensures !Signals(After(u, ps[..k]), ps[k], d)
  {
    SignalsExactly(u, ps, j, d);
    SignalsExactly(u, ps, k, d);
    ChargedGrows(ps, j + 1, k, d);
  }

  /** What is let through stays strictly below every quota. */
  lemma {:induction false} PassedBelowQuota(u: Urr, ps: seq<Packet>, d: Direction)
    requires Fresh(u)
    ensures Get(u.quota, d) != 0 ==> Get(u.consumed, d) + Passed(u, ps, d) < Get(u.quota, d)
    ensures !After(u, ps).over ==> Passed(u, ps, d) == Charged(ps, d)
    decreases |ps|
  {
    if ps == [] {
      assert !Full(u, d);
    } else {
      var k := |ps| - 1;
      PassedBelowQuota(u, ps[..k], d);
      AfterSound(u, ps[..k]);
      AfterSound(u, ps);
      var t, v := After(u, ps[..k]), After(u, ps);
      ProcessStep(t, ps[k], d);
      ConsumedIsCharged(u, ps, d);
      if !v.over {
        assert !Full(v, d);
      }
      hide Process, After;
    }
  }

  /** With a second monitoring time set, every packet after it is let through
      and counted nowhere; this is why Fresh rules it out. */
  lemma RefusedPackets(u: Urr, p: Packet)
    ensures (Process(u, p) == u && !Dropped(u, p)) <==>
            ((u.after && Due(u, p.now)) || (!u.volume && !Due(u, p.now) && !u.over))
  {
  }
}
