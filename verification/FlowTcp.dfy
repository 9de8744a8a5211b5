/** The TCP state machine that drives a flow's lifetime. */
module FlowTcp {

  datatype TcpState = Start | Syn | SynAck | Established | Fin | FinAck | Rst

  datatype TcpEvent = EvNone | EvSyn | EvSynAck | EvFin | EvFinAck | EvRst | EvPshAck

  datatype TcpFlags = TcpFlags(syn: bool, ack: bool, fin: bool, rst: bool)

  function Event(f: TcpFlags): TcpEvent {
    if f.syn && f.ack then EvSynAck
    else if f.syn then EvSyn
    else if f.fin && f.ack then EvFinAck
    else if f.fin then EvFin
    else if f.rst then EvRst
    else EvPshAck
  }

  /** The transition table; entries it leaves out are zero, that is, Start. */
  function Trans(s: TcpState, e: TcpEvent): TcpState {
    match (s, e)
    case (Start, EvSyn) => Syn
    case (Start, EvNone) => Established
    case (Start, EvSynAck) => SynAck
    case (Syn, EvSynAck) => SynAck
    case (Syn, EvPshAck) => Established
    case (SynAck, EvPshAck) => Established
    case (Start, EvFin) => Fin
    case (Syn, EvFin) => Fin
    case (SynAck, EvFin) => Fin
    case (Established, EvFin) => Fin
    case (FinAck, EvFinAck) => Start
    case (Rst, _) => Start
    case (_, EvFinAck) => FinAck
    case (_, EvRst) => Rst
    case (_, _) => Start
  }

  function Lifetime(s: TcpState): nat {
    match s
    case Start => 0
    case Syn => 15
    case SynAck => 60
    case Established => 299
    case Fin => 15
    case FinAck => 3
    case Rst => 6
  }

  /** Whether a packet moves the flow to a new state and lifetime. */
  predicate Moves(s: TcpState, e: TcpEvent) {
    Trans(s, e) != Start && Trans(s, e) != s
  }

  function Rank(s: TcpState): nat {
    match s
    case Start => 0
    case Syn => 1
    case SynAck => 2
    case Established => 3
    case Fin => 4
    case FinAck => 5
    case Rst => 6
  }

  /** States only move forward, and every state reached has a usable lifetime. */
  lemma MovesForward(s: TcpState, e: TcpEvent)
    requires Moves(s, e)
    ensures Rank(s) < Rank(Trans(s, e)) <= 6
    ensures 1 <= Lifetime(Trans(s, e)) <= 299
  {
  }

  /** The state after a packet: unmoved unless the table has an entry for it. */
  function Next(s: TcpState, e: TcpEvent): TcpState {
    if Moves(s, e) then Trans(s, e) else s
  }

  function After(s: TcpState, es: seq<TcpEvent>): TcpState {
    if es == [] then s else Next(After(s, es[..|es| - 1]), es[|es| - 1])
  }

  /** How many packets of a connection move its state, and so its timer. */
  function Changes(s: TcpState, es: seq<TcpEvent>): nat {
    if es == [] then 0
    else
      var k := |es| - 1;
      Changes(s, es[..k]) + if Moves(After(s, es[..k]), es[k]) then 1 else 0
  }

  /** Over any sequence of packets the state only moves forward, so a connection
      changes its lifetime at most six times. */
  lemma {:induction false} ConnectionMovesForward(s: TcpState, es: seq<TcpEvent>)
    ensures Rank(s) + Changes(s, es) <= Rank(After(s, es)) <= 6
    decreases |es|
  {
    if es != [] {
      var k := |es| - 1;
      ConnectionMovesForward(s, es[..k]);
      if Moves(After(s, es[..k]), es[k]) {
        MovesForward(After(s, es[..k]), es[k]);
      }
    }
  }

  /** Once a connection is closing, no sequence of packets brings the long
      lifetime of an open one back. */
  lemma ClosingIsFinal(s: TcpState, es: seq<TcpEvent>)
    requires s == Fin || s == FinAck || s == Rst
    ensures var t := After(s, es); (t == Fin || t == FinAck || t == Rst) && 3 <= Lifetime(t) <= 15
    ensures s == Rst ==> After(s, es) == Rst
  {
    ConnectionMovesForward(s, es);
  }
}
