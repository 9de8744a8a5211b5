/** What a flow is when it is created, and what its packets make of it: the state
    and the lifetime said of the whole history of the connection. */
module FlowStates {
  import opened Options
  import opened TimerWheel
  import opened FlowKey
  import opened FlowTcp
  import opened FlowTable
  import FP = FlowPool

  // ----- connections

  /** What the flags of a segment say: opening before ending before resetting,
      and data if it is none of these. */
  lemma EventMeaning(f: TcpFlags)
    ensures Event(f) == EvSynAck <==> f.syn && f.ack
    ensures Event(f) == EvSyn <==> f.syn && !f.ack
    ensures Event(f) == EvFinAck <==> !f.syn && f.fin && f.ack
    ensures Event(f) == EvFin <==> !f.syn && f.fin && !f.ack
    ensures Event(f) == EvRst <==> !f.syn && !f.fin && f.rst
    ensures Event(f) == EvPshAck <==> !f.syn && !f.fin && !f.rst
  {
  }

  predicate Opens(e: TcpEvent) {
    e == EvSyn || e == EvSynAck
  }

  /** A segment that opens the connection comes before one with data. */
  ghost predicate Opened(es: seq<TcpEvent>) {
    exists i, j :: 0 <= i < j < |es| && Opens(es[i]) && es[j] == EvPshAck
  }

  /** The state a history amounts to. */
  ghost function Verdict(es: seq<TcpEvent>): TcpState {
    if EvRst in es then Rst
    else if EvFinAck in es then FinAck
    else if EvFin in es then Fin
    else if Opened(es) then Established
    else if EvSynAck in es then SynAck
    else if EvSyn in es then Syn
    else Start
  }

  lemma OpenedSnoc(es: seq<TcpEvent>, e: TcpEvent)
    ensures Opened(es + [e]) <==> Opened(es) || ((EvSyn in es || EvSynAck in es) && e == EvPshAck)
  {
    var fs := es + [e];
    assert fs[|es|] == e;
    if Opened(es) {
      var i, j :| 0 <= i < j < |es| && Opens(es[i]) && es[j] == EvPshAck;
      assert Opens(fs[i]) && fs[j] == EvPshAck;
    }
    if (EvSyn in es || EvSynAck in es) && e == EvPshAck {
      var i :| 0 <= i < |es| && Opens(es[i]);
      assert Opens(fs[i]) && fs[|es|] == EvPshAck;
    }
    if Opened(fs) {
      var i, j :| 0 <= i < j < |fs| && Opens(fs[i]) && fs[j] == EvPshAck;
      assert Opens(es[i]);
      assert j < |es| ==> es[j] == EvPshAck;
    }
  }

  lemma OpenedOpens(es: seq<TcpEvent>)
    ensures Opened(es) ==> EvSyn in es || EvSynAck in es
  {
  }

  lemma VerdictSnoc(es: seq<TcpEvent>, e: TcpEvent)
    requires e != EvNone
    ensures Verdict(es + [e]) == Next(Verdict(es), e)
  {
    var fs := es + [e];
    OpenedSnoc(es, e);
    OpenedOpens(es);
    assert forall x :: x in fs <==> x in es || x == e;
    hide Opened;
  }

  /** Whatever segments a connection sees, in whatever order, its state is what
      its history amounts to. */
  lemma {:induction false} StateIsVerdict(es: seq<TcpEvent>)
    requires EvNone !in es
    ensures After(Start, es) == Verdict(es)
    decreases |es|
  {
    if es != [] {
      var k := |es| - 1;
      assert es == es[..k] + [es[k]];
      StateIsVerdict(es[..k]);
      VerdictSnoc(es[..k], es[k]);
      hide Verdict, Next;
    }
  }

  // ----- the flow of a connection

  /** The table after segments of flow f. */
  function Segments(c: Cpu, f: nat, es: seq<TcpEvent>): (d: Cpu)
    requires f in c.flows && |c.wheel| == SLOTS
    ensures f in d.flows && |d.wheel| == SLOTS
  {
    if es == [] then c else UpdateLifetime(Segments(c, f, es[..|es| - 1]), f, es[|es| - 1])
  }

  /** The lifetime of a state, once there is one. */
  function StateLifetime(s: TcpState, initial: nat): nat {
    match s
    case Start => initial
    case Syn => 15
    case SynAck => 60
    case Established => 299
    case Fin => 15
    case FinAck => 3
    case Rst => 6
  }

  lemma {:induction false} SegmentsFollow(c: Cpu, f: nat, es: seq<TcpEvent>)
    requires f in c.flows && |c.wheel| == SLOTS && c.flows[f].key.proto == PROTO_TCP && c.flows[f].tcp == Start
    ensures var g, s := Segments(c, f, es).flows[f], After(Start, es);
            g == c.flows[f].(tcp := s, lifetime := StateLifetime(s, c.flows[f].lifetime))
    decreases |es|
  {
    if es != [] {
      var k := |es| - 1;
      SegmentsFollow(c, f, es[..k]);
      hide AddTail, Unlink;
    }
  }

  /** A new TCP flow has, after any segments, the lifetime of its history: reset 6,
      ended and acknowledged 3, ended or just opened 15, answered 60, open 299, and the
      initial one before it opens. */
  lemma FlowLifetime(c: Cpu, f: nat, es: seq<TcpEvent>)
    requires f in c.flows && |c.wheel| == SLOTS && c.flows[f].key.proto == PROTO_TCP && c.flows[f].tcp == Start && EvNone !in es
    ensures Segments(c, f, es).flows[f].tcp == Verdict(es)
    ensures Segments(c, f, es).flows[f].lifetime ==
              if EvRst in es then 6
              else if EvFinAck in es then 3
              else if EvFin in es then 15
              else if Opened(es) then 299
              else if EvSynAck in es then 60
              else if EvSyn in es then 15
              else c.flows[f].lifetime
  {
    SegmentsFollow(c, f, es);
    StateIsVerdict(es);
    hide Segments, After, Opened;
  }

  // ----- a new flow

  /** The lifetime of a packet's protocol, or of the family of the address that
      stands first in its key. */
  function InitialLifetime(l: Lifetimes, p: Packet, isReverse: bool): nat {
    match p.proto
    case 1 => l.icmp
    case 17 => l.udp
    case 6 => l.tcp
    case _ => if IsIp4(if isReverse then p.dst else p.src) then l.ipv4 else l.ipv6
  }

  /** A packet without a flow gets one, unless the pool is used up: active now,
      with the lifetime of its protocol, and oriented so that the packet's source
      and source port stand in the slot of the origin; nothing else changes. */
  lemma NewFlowOf(t: Table, k: nat, live: seq<set<nat>>, l: Lifetimes, less: (Address, Address) -> bool, seid: nat, p: Packet, now: nat)
    requires Good(t, k, live, now) && l.Valid() && MkKey(less, seid, p) !in t.c.ht
    ensures var key := MkKey(less, seid, p);
            var (u, r) := LookupCreate(t, k, l, key, IsReverse(less, p), now);
            r.Some? ==>
              && r.value !in t.c.flows && u.c.flows.Keys == t.c.flows.Keys + {r.value}
              && var g := u.c.flows[r.value];
              && g.active == now && g.lifetime == InitialLifetime(l, p, g.isReverse) && g.tcp == Start
              && |g.key.ip| == 2 && |g.key.port| == 2 && g.key.seid == seid && g.key.proto == p.proto
              && g.key.ip[Slot(0, g.isReverse)] == p.src && g.key.ip[Slot(1, g.isReverse)] == p.dst
              && g.key.port[Slot(0, g.isReverse)] == (if HasPorts(p.proto) then p.sport else 0)
              && g.key.port[Slot(1, g.isReverse)] == (if HasPorts(p.proto) then p.dport else 0)
  {
    FP.AllocSpec(t.pool, live, k);
    KeyPlaces(less, seid, p);
    KeyLifetime(l, less, seid, p);
    hide Good, FP.Inv, AddTail, FP.Allocated, IsIp4, MkKey, IsReverse, InitialLifetime, LifetimeOf, HasPorts;
  }

  lemma KeyPlaces(less: (Address, Address) -> bool, seid: nat, p: Packet)
    ensures var key, rev := MkKey(less, seid, p), IsReverse(less, p);
            && |key.ip| == 2 && |key.port| == 2 && key.seid == seid && key.proto == p.proto
            && key.ip[Slot(0, rev)] == p.src && key.ip[Slot(1, rev)] == p.dst
            && key.port[Slot(0, rev)] == (if HasPorts(p.proto) then p.sport else 0)
            && key.port[Slot(1, rev)] == (if HasPorts(p.proto) then p.dport else 0)
  {
  }

  lemma KeyLifetime(l: Lifetimes, less: (Address, Address) -> bool, seid: nat, p: Packet)
    ensures LifetimeOf(l, MkKey(less, seid, p)) == InitialLifetime(l, p, IsReverse(less, p))
  {
    hide IsIp4;
  }
}
