/** The volume counters of a usage reporting rule through packets, monitoring
    time splits, staged updates and reports: what is counted is what is reported
    or still held, and quotas let no more through than they say. */
module UrrUsage {
  import opened Options

  datatype Counter = Counter(ul: int, dl: int, total: int)

  datatype Usage = Usage(packets: Counter, bytes: Counter)

  const NONE := Usage(Counter(0, 0, 0), Counter(0, 0, 0))

  function AddCounter(a: Counter, b: Counter): Counter {
    Counter(a.ul + b.ul, a.dl + b.dl, a.total + b.total)
  }

  function Plus(a: Usage, b: Usage): Usage {
    Usage(AddCounter(a.packets, b.packets), AddCounter(a.bytes, b.bytes))
  }

  function Minus(a: Usage, b: Usage): Usage {
    Usage(Counter(a.packets.ul - b.packets.ul, a.packets.dl - b.packets.dl, a.packets.total - b.packets.total),
          Counter(a.bytes.ul - b.bytes.ul, a.bytes.dl - b.bytes.dl, a.bytes.total - b.bytes.total))
  }

  datatype Packet = Packet(len: nat, ul: bool, dl: bool, now: real)

  /** A rule: whether it measures volume, whether a monitoring time has passed
      since the last report, whether a quota is used up, the monitoring time, the
      usage, the volume charged to the quota, the usage before the monitoring
      time, and whether the quota is new in this update. */
  datatype Urr = Urr(volume: bool, after: bool, over: bool, monitor: Option<real>, usage: Usage, consumed: Counter,
                     before: Usage, quota: Counter, newQuota: bool)

  // ----- a packet

  function PacketCounter(p: Packet, n: nat): Counter {
    Counter(if p.ul then n else 0, if p.dl then n else 0, n)
  }

  function UsageOf(p: Packet): Usage {
    Usage(PacketCounter(p, 1), PacketCounter(p, p.len))
  }

  predicate Due(u: Urr, now: real) {
    u.monitor.Some? && u.monitor.value < now
  }

  /** A second monitoring time has passed: the session is given up instead. */
  predicate Refused(u: Urr, p: Packet) {
    Due(u, p.now) && u.after
  }

  function Split(u: Urr, now: real): Urr {
    if Due(u, now) then u.(before := u.usage, usage := NONE, monitor := None, after := true) else u
  }

  predicate Reaches(quota: int, consumed: int, n: nat) {
    quota != 0 && consumed < quota && consumed + n >= quota
  }

  /** Some counter reaches its quota with this packet. */
  predicate Exhausts(u: Urr, p: Packet) {
    || (p.ul && Reaches(u.quota.ul, u.consumed.ul, p.len))
    || (p.dl && Reaches(u.quota.dl, u.consumed.dl, p.len))
    || Reaches(u.quota.total, u.consumed.total, p.len)
  }

  function Process(u: Urr, p: Packet): Urr {
    if Refused(u, p) then u
    else
      var v := Split(u, p.now);
      if !v.volume then v
      else v.(usage := Plus(v.usage, UsageOf(p)), consumed := AddCounter(v.consumed, PacketCounter(p, p.len)),
              over := v.over || Exhausts(v, p))
  }

  predicate Dropped(u: Urr, p: Packet) {
    !Refused(u, p) && Process(u, p).over
  }

  // ----- updates and reports

  /** The rule in use, its staged copy, the rule it has replaced until their
      counters are merged, and the books: what was counted, what was reported,
      and what went missing. */
  datatype State = State(active: Urr, staged: Option<Urr>, leaving: Option<Urr>, counted: Usage, reported: Usage, lost: Usage)

  datatype Event =
    | Arrive(packet: Packet)
    | Stage
    | Change(volume: bool, quota: Option<Counter>, monitor: Option<real>)
    | Flip
    | Merge
    | Report(now: real, startOfTraffic: bool)

  /** A staged copy counts from zero. */
  function Copy(u: Urr): Urr {
    u.(usage := NONE, consumed := Counter(0, 0, 0), newQuota := false)
  }

  function Changed(u: Urr, volume: bool, quota: Option<Counter>, monitor: Option<real>): Urr {
    var v := u.(volume := volume, over := false);
    var w := if quota.Some? then v.(quota := quota.value, consumed := Counter(0, 0, 0), newQuota := true) else v;
    if monitor.Some? then w.(monitor := monitor) else w
  }

  /** The counters of the replaced rule are added to the new one. */
  function Merged(u: Urr, old_: Urr): Urr {
    if !u.volume then u
    else
      var usage := Plus(u.usage, old_.usage);
      u.(usage := usage, consumed := if u.newQuota then usage.bytes else AddCounter(u.consumed, old_.consumed))
  }

  /** A report splits first if the monitoring time has passed. */
  function AtReport(u: Urr, now: real): Urr {
    if u.after then u else Split(u, now)
  }

  /** The usage before the monitoring time, while it is still to be reported. */
  function BeforePart(u: Urr): Usage {
    if u.after then u.before else NONE
  }

  /** What a report says; one about the start of traffic leaves the volume out. */
  function ReportedBy(u: Urr, now: real, startOfTraffic: bool): Usage {
    var v := AtReport(u, now);
    Plus(BeforePart(v), if startOfTraffic then NONE else v.usage)
  }

  function AfterReport(u: Urr, now: real): Urr {
    AtReport(u, now).(usage := NONE, after := false)
  }

  /** Which steps the protocol takes when: staging, flip, merge and reports are
      the main thread's, packets may come at any time. */
  predicate Enabled(s: State, e: Event) {
    match e
    case Arrive(_) => true
    case Stage => s.staged.None? && s.leaving.None?
    case Change(_, _, _) => s.staged.Some?
    case Flip => s.staged.Some? && s.leaving.None?
    case Merge => s.leaving.Some?
    case Report(_, _) => s.leaving.None?
  }

  function Step(s: State, e: Event): State {
    if !Enabled(s, e) then s
    else
      var t := s.(lost := Plus(s.lost, Loss(s, e)));
      match e
      case Arrive(p) =>
        t.(active := Process(s.active, p), counted := if Counts(s.active, p) then Plus(s.counted, UsageOf(p)) else s.counted)
      case Stage => t.(staged := Some(Copy(s.active)))
      case Change(volume, quota, monitor) => t.(staged := Some(Changed(s.staged.value, volume, quota, monitor)))
      case Flip => t.(active := s.staged.value, staged := None, leaving := Some(s.active))
      case Merge => t.(active := Merged(s.active, s.leaving.value), leaving := None)
      case Report(now, start) => t.(active := AfterReport(s.active, now), reported := Plus(s.reported, ReportedBy(s.active, now, start)))
  }

  predicate Counts(u: Urr, p: Packet) {
    u.volume && !Refused(u, p)
  }

  /** What a step drops from the books, or counts twice where it is negative. */
  function Loss(s: State, e: Event): Usage {
    match e
    case Flip => if s.staged.Some? then Minus(BeforePart(s.active), BeforePart(s.staged.value)) else NONE
    case Merge => if s.leaving.Some? && !s.active.volume then s.leaving.value.usage else NONE
    case Report(now, start) => if start then AtReport(s.active, now).usage else NONE
    case Arrive(_) => NONE
    case Stage => NONE
    case Change(_, _, _) => NONE
  }

  function Run(s: State, events: seq<Event>): State {
    if events == [] then s else Step(Run(s, events[..|events| - 1]), events[|events| - 1])
  }

  // ----- conservation

  function Total(u: Urr): Usage {
    Plus(u.usage, BeforePart(u))
  }

  /** What the rule still holds. */
  function Held(s: State): Usage {
    Plus(Total(s.active), if s.leaving.Some? then s.leaving.value.usage else NONE)
  }

  /** A staged copy has counted nothing yet; the before part counts only once
      the monitoring time has passed. */
  ghost predicate Balanced(s: State) {
    && (s.staged.Some? ==> s.staged.value.usage == NONE)
    && s.counted == Plus(Plus(s.reported, Held(s)), s.lost)
  }

  lemma PlusAlgebra(a: Usage, b: Usage, c: Usage)
    ensures Plus(a, NONE) == a == Plus(NONE, a)
    ensures Plus(a, b) == Plus(b, a)
    ensures Plus(Plus(a, b), c) == Plus(a, Plus(b, c)) == Plus(Plus(a, c), b)
    ensures Plus(Minus(a, b), b) == a && (Minus(a, b) == NONE <==> a == b)
  {
  }

  /** Counting a packet adds it to the rule's total, split or not. */
  lemma ProcessTotal(u: Urr, p: Packet)
    ensures Total(Process(u, p)) == if Counts(u, p) then Plus(Total(u), UsageOf(p)) else Total(u)
    ensures Process(u, p).volume == u.volume
  {
    hide Plus, Exhausts, UsageOf, AddCounter;
    PlusAlgebra(u.usage, BeforePart(u), UsageOf(p));
    PlusAlgebra(NONE, UsageOf(p), u.usage);
    PlusAlgebra(u.usage, UsageOf(p), NONE);
    PlusAlgebra(UsageOf(p), NONE, NONE);
  }

  lemma ReportTotal(u: Urr, now: real, start: bool)
    ensures Total(AfterReport(u, now)) == NONE
    ensures Total(u) == Plus(ReportedBy(u, now, start), if start then AtReport(u, now).usage else NONE)
  {
    hide Plus;
    var v := AtReport(u, now);
    PlusAlgebra(u.usage, BeforePart(u), NONE);
    PlusAlgebra(v.usage, BeforePart(v), NONE);
    PlusAlgebra(NONE, NONE, NONE);
    PlusAlgebra(u.usage, NONE, NONE);
    PlusAlgebra(BeforePart(v), v.usage, NONE);
  }

  lemma ArriveBalanced(s: State, p: Packet)
    requires Balanced(s)
    ensures Balanced(Step(s, Arrive(p)))
  {
    ProcessTotal(s.active, p);
    hide Plus, Process, Total, UsageOf, Counts;
    var rest := if s.leaving.Some? then s.leaving.value.usage else NONE;
    PlusAlgebra(Total(s.active), UsageOf(p), rest);
    PlusAlgebra(s.reported, Held(s), UsageOf(p));
    PlusAlgebra(Plus(s.reported, Held(s)), s.lost, UsageOf(p));
    PlusAlgebra(s.lost, NONE, NONE);
  }

  lemma FlipBalanced(s: State)
    requires Balanced(s) && Enabled(s, Flip)
    ensures Balanced(Step(s, Flip))
  {
    hide Plus, Minus, BeforePart;
    var was, now := BeforePart(s.active), BeforePart(s.staged.value);
    var use := s.active.usage;
    var loss := Minus(was, now);
    PlusAlgebra(was, now, NONE);
    PlusAlgebra(now, use, loss);
    PlusAlgebra(use, was, NONE);
    PlusAlgebra(Plus(use, was), NONE, NONE);
    PlusAlgebra(use, now, loss);
    PlusAlgebra(use, loss, now);
    PlusAlgebra(loss, now, NONE);
    assert Held(s) == Plus(Plus(use, now), loss);
    assert Held(Step(s, Flip)) == Plus(use, now);
    PlusAlgebra(s.reported, Plus(use, now), loss);
    PlusAlgebra(Plus(s.reported, Plus(use, now)), loss, s.lost);
    PlusAlgebra(loss, s.lost, NONE);
  }

  lemma MergeBalanced(s: State)
    requires Balanced(s) && Enabled(s, Merge)
    ensures Balanced(Step(s, Merge))
  {
    hide Plus, AddCounter;
    var u, v := s.active, s.leaving.value;
    PlusAlgebra(u.usage, BeforePart(u), v.usage);
    PlusAlgebra(Total(u), NONE, NONE);
    PlusAlgebra(Plus(Plus(u.usage, v.usage), BeforePart(u)), NONE, NONE);
    PlusAlgebra(s.reported, Total(u), v.usage);
    PlusAlgebra(Plus(s.reported, Total(u)), v.usage, s.lost);
    PlusAlgebra(v.usage, s.lost, NONE);
    PlusAlgebra(s.lost, NONE, NONE);
  }

  lemma ReportBalanced(s: State, now: real, start: bool)
    requires Balanced(s) && Enabled(s, Report(now, start))
    ensures Balanced(Step(s, Report(now, start)))
  {
    ReportTotal(s.active, now, start);
    var said := ReportedBy(s.active, now, start);
    var loss := if start then AtReport(s.active, now).usage else NONE;
    hide Plus, Total, ReportedBy, AfterReport, AtReport;
    PlusAlgebra(Total(s.active), NONE, NONE);
    PlusAlgebra(NONE, NONE, NONE);
    PlusAlgebra(s.reported, said, loss);
    PlusAlgebra(Plus(s.reported, said), NONE, NONE);
    PlusAlgebra(Plus(s.reported, said), loss, s.lost);
    PlusAlgebra(loss, s.lost, NONE);
  }

  lemma StageBalanced(s: State)
    requires Balanced(s)
    ensures Balanced(Step(s, Stage))
  {
    hide Plus, Total;
    PlusAlgebra(s.lost, NONE, NONE);
  }

  lemma ChangeBalanced(s: State, volume: bool, quota: Option<Counter>, monitor: Option<real>)
    requires Balanced(s)
    ensures Balanced(Step(s, Change(volume, quota, monitor)))
  {
    hide Plus, Total;
    PlusAlgebra(s.lost, NONE, NONE);
  }

  lemma DisabledStep(s: State, e: Event)
    requires !Enabled(s, e)
    ensures Step(s, e) == s
  {
  }

  lemma StepBalanced(s: State, e: Event)
    requires Balanced(s)
    ensures Balanced(Step(s, e))
  {
    hide *;
    if !Enabled(s, e) {
      DisabledStep(s, e);
    } else {
      match e {
        case Arrive(p) => ArriveBalanced(s, p);
        case Stage => StageBalanced(s);
        case Change(volume, quota, monitor) => ChangeBalanced(s, volume, quota, monitor);
        case Flip => FlipBalanced(s);
        case Merge => MergeBalanced(s);
        case Report(now, start) => ReportBalanced(s, now, start);
      }
    }
  }

  /** Every run keeps the books: counted is reported plus held plus lost. */
  lemma {:induction false} RunBalanced(s: State, events: seq<Event>)
    requires Balanced(s)
    ensures Balanced(Run(s, events))
    decreases |events|
  {
    if events != [] {
      RunBalanced(s, events[..|events| - 1]);
      StepBalanced(Run(s, events[..|events| - 1]), events[|events| - 1]);
    }
  }

  /** While an update is staged, no monitoring time splits off usage, and no
      report settles usage from before one; the rule keeps measuring volume; and
      no start-of-traffic report meets usage. */
  ghost predicate Quiet(s: State, e: Event) {
    match e
    case Arrive(p) => s.staged.Some? && Due(s.active, p.now) ==> s.active.after || s.active.usage == NONE
    case Report(now, start) =>
      && (s.staged.Some? ==> BeforePart(s.active) == NONE)
      && (start ==> AtReport(s.active, now).usage == NONE)
    case Change(volume, _, _) => volume
    case Stage => true
    case Flip => true
    case Merge => true
  }

  ghost predicate QuietRun(s: State, events: seq<Event>)
    decreases |events|
  {
    events == [] ||
    (QuietRun(s, events[..|events| - 1]) && Quiet(Run(s, events[..|events| - 1]), events[|events| - 1]))
  }

  /** Staged and active agree on the before part, and both measure volume. */
  ghost predicate Agreed(s: State) {
    s.active.volume && (s.staged.Some? ==> s.staged.value.volume && BeforePart(s.staged.value) == BeforePart(s.active))
  }

  lemma QuietArrive(s: State, p: Packet)
    requires Agreed(s) && Quiet(s, Arrive(p)) && s.lost == NONE
    ensures Agreed(Step(s, Arrive(p))) && Step(s, Arrive(p)).lost == NONE
  {
    PlusAlgebra(NONE, NONE, NONE);
    hide Plus, Exhausts, AddCounter, UsageOf;
  }

  lemma QuietFlip(s: State)
    requires Agreed(s) && s.lost == NONE
    ensures Agreed(Step(s, Flip)) && Step(s, Flip).lost == NONE
  {
    hide Plus, Minus, BeforePart;
    PlusAlgebra(NONE, NONE, NONE);
    if s.staged.Some? {
      PlusAlgebra(BeforePart(s.active), BeforePart(s.staged.value), NONE);
    }
  }

  lemma QuietMain(s: State, e: Event)
    requires Agreed(s) && Quiet(s, e) && s.lost == NONE && (e.Stage? || e.Change? || e.Merge? || e.Report?)
    ensures Agreed(Step(s, e)) && Step(s, e).lost == NONE
  {
    PlusAlgebra(NONE, NONE, NONE);
    hide Plus, Minus, AddCounter;
  }

  lemma QuietStep(s: State, e: Event)
    requires Agreed(s) && Quiet(s, e) && s.lost == NONE
    ensures Agreed(Step(s, e)) && Step(s, e).lost == NONE
  {
    hide *;
    match e {
      case Arrive(p) => QuietArrive(s, p);
      case Flip => QuietFlip(s);
      case Stage => QuietMain(s, e);
      case Change(_, _, _) => QuietMain(s, e);
      case Merge => QuietMain(s, e);
      case Report(_, _) => QuietMain(s, e);
    }
  }

  /** In a quiet run nothing is lost: everything counted is reported or held. */
  lemma {:induction false} QuietRunsConserve(s: State, events: seq<Event>)
    requires Balanced(s) && Agreed(s) && s.lost == NONE && QuietRun(s, events)
    ensures var t := Run(s, events); Agreed(t) && t.lost == NONE && t.counted == Plus(t.reported, Held(t))
    decreases |events|
  {
    hide Step, Balanced, Agreed, Plus, Quiet, Held;
    RunBalanced(s, events);
    if events != [] {
      var k := |events| - 1;
      QuietRunsConserve(s, events[..k]);
      QuietStep(Run(s, events[..k]), events[k]);
    }
    NothingLost(Run(s, events));
  }

  lemma NothingLost(t: State)
    requires Balanced(t) && t.lost == NONE
    ensures t.counted == Plus(t.reported, Held(t))
  {
    PlusAlgebra(Plus(t.reported, Held(t)), NONE, NONE);
    hide Plus, Held;
  }

  /** A flip conserves exactly when active and staged rule agree on the usage
      before the monitoring time. */
  lemma FlipConserves(s: State)
    requires Balanced(s) && Enabled(s, Flip)
    ensures Held(Step(s, Flip)) == Held(s) <==> BeforePart(s.active) == BeforePart(s.staged.value)
  {
  }

  /** A monitoring time that passes between staging and flip: the flip then
      conserves exactly if nothing had been counted before it. */
  lemma SplitWhileStaged(s: State, p: Packet)
    requires Balanced(s) && Agreed(s) && Enabled(s, Flip) && Due(s.active, p.now) && !s.active.after
    ensures var t := Step(s, Arrive(p)); Held(Step(t, Flip)) == Held(t) <==> s.active.usage == NONE
  {
    hide Plus, Held, Balanced, Exhausts, AddCounter, UsageOf, PacketCounter;
    var t := Step(s, Arrive(p));
    assert BeforePart(t.active) == s.active.usage;
    assert t.staged == s.staged && t.leaving == s.leaving;
    hide Step, Process;
    StepBalanced(s, Arrive(p));
    FlipConserves(t);
  }

  /** For instance, 100 octets before the monitoring time. */
  lemma SplitWhileStagedLoses()
    ensures var u := Urr(true, false, false, Some(5.0), Usage(Counter(1, 0, 1), Counter(100, 0, 100)), Counter(100, 0, 100), NONE,
                         Counter(0, 0, 0), false);
            var s := State(u, Some(Copy(u)), None, u.usage, NONE, NONE);
            var t := Step(s, Arrive(Packet(10, true, false, 6.0)));
            Balanced(s) && Agreed(s) && Held(Step(t, Flip)) != Held(t)
  {
    var u := Urr(true, false, false, Some(5.0), Usage(Counter(1, 0, 1), Counter(100, 0, 100)), Counter(100, 0, 100), NONE,
                 Counter(0, 0, 0), false);
    var s := State(u, Some(Copy(u)), None, u.usage, NONE, NONE);
    assert Balanced(s) && Agreed(s);
    hide Step, Held, Balanced, Agreed;
    SplitWhileStaged(s, Packet(10, true, false, 6.0));
  }

  /** A report made while an update is staged: the flip then conserves exactly if
      there was no usage from before a monitoring time; else it is held again. */
  lemma ReportWhileStaged(s: State, now: real)
    requires Balanced(s) && Agreed(s) && Enabled(s, Flip)
    ensures var t := Step(s, Report(now, false)); Held(Step(t, Flip)) == Held(t) <==> BeforePart(s.active) == NONE
  {
    hide Plus, Held, Balanced, Minus;
    var t := Step(s, Report(now, false));
    assert BeforePart(t.active) == NONE;
    assert t.staged == s.staged && t.leaving == s.leaving;
    hide Step;
    StepBalanced(s, Report(now, false));
    FlipConserves(t);
  }

  /** What was counted before the monitoring time is then reported and held. */
  lemma ReportedAndHeld(s: State, now: real)
    requires Balanced(s) && Agreed(s) && Enabled(s, Flip) && s.active.after && s.active.usage == NONE
    ensures var t := Step(Step(s, Report(now, false)), Flip);
            t.counted == s.counted && t.reported == Plus(s.reported, s.active.before) && Held(t) == s.active.before
  {
    hide Plus, Minus, AfterReport, ReportedBy, Held;
    OnlyBefore(s.active, now);
    var t := Step(s, Report(now, false));
    assert t.active.usage == NONE && t.staged == s.staged && t.leaving == None;
    assert t.counted == s.counted && t.reported == Plus(s.reported, s.active.before);
    hide Step;
    HeldAgain(t, s.active.before);
  }

  /** 100 octets counted before a monitoring time, and an update staged since. */
  function HundredBefore(): State {
    var before := Usage(Counter(1, 0, 1), Counter(100, 0, 100));
    var u := Urr(true, true, false, None, NONE, Counter(100, 0, 100), before, Counter(0, 0, 0), false);
    State(u, Some(Copy(u)), None, before, NONE, NONE)
  }

  lemma HundredBeforeOk()
    ensures var s := HundredBefore();
            && Balanced(s) && Agreed(s) && Enabled(s, Flip) && s.active.after && s.active.usage == NONE
            && s.counted.bytes.ul == 100 && Plus(s.reported, s.active.before) == s.active.before == s.counted
  {
    hide Plus;
    PlusAlgebra(HundredBefore().active.before, NONE, NONE);
    PlusAlgebra(NONE, HundredBefore().active.before, NONE);
  }

  /** They are reported and held after a report and the flip. */
  lemma ReportWhileStagedCountsTwice(now: real)
    ensures var s := HundredBefore();
            var t := Step(Step(s, Report(now, false)), Flip);
            Balanced(s) && Agreed(s) && t.counted.bytes.ul == t.reported.bytes.ul == Held(t).bytes.ul == 100
  {
    HundredBeforeOk();
    hide HundredBefore, Step, Balanced, Agreed, Held, Plus;
    ReportedAndHeld(HundredBefore(), now);
  }

  lemma OnlyBefore(u: Urr, now: real)
    requires u.after && u.usage == NONE
    ensures AfterReport(u, now) == u.(after := false) && ReportedBy(u, now, false) == u.before
  {
    PlusAlgebra(u.before, NONE, NONE);
    hide Plus;
  }

  lemma HeldAgain(t: State, before: Usage)
    requires t.staged.Some? && t.leaving == None && t.active.usage == NONE
    requires t.staged.value.usage == NONE && BeforePart(t.staged.value) == before
    ensures Held(Step(t, Flip)) == before
    ensures Step(t, Flip).reported == t.reported && Step(t, Flip).counted == t.counted
  {
    hide Plus, Minus, BeforePart;
    PlusAlgebra(before, NONE, NONE);
    PlusAlgebra(NONE, before, NONE);
  }

  // ----- the volume charged to the quota

  const ZERO := Counter(0, 0, 0)

  /** What is charged to the quota, while two rules share it too. */
  function ConsumedHeld(s: State): Counter {
    AddCounter(s.active.consumed, if s.leaving.Some? then s.leaving.value.consumed else ZERO)
  }

  /** No update in progress sets a new quota or ends volume measurement. */
  ghost predicate SameQuota(s: State) {
    && s.active.volume
    && (s.staged.Some? ==> s.staged.value.volume && !s.staged.value.newQuota && s.staged.value.consumed == ZERO)
    && (s.leaving.Some? ==> !s.active.newQuota)
  }

  predicate KeepsQuota(e: Event) {
    e.Change? ==> e.volume && e.quota.None?
  }

  /** The octets an event charges. */
  function ChargedBy(s: State, e: Event): Counter {
    if e.Arrive? && Counts(s.active, e.packet) then PacketCounter(e.packet, e.packet.len) else ZERO
  }

  lemma CounterAlgebra(a: Counter, b: Counter, c: Counter)
    ensures AddCounter(a, ZERO) == a == AddCounter(ZERO, a)
    ensures AddCounter(a, b) == AddCounter(b, a) && AddCounter(AddCounter(a, b), c) == AddCounter(AddCounter(a, c), b)
  {
  }

  lemma ChargeStep(s: State, e: Event)
    requires SameQuota(s) && KeepsQuota(e)
    ensures SameQuota(Step(s, e)) && ConsumedHeld(Step(s, e)) == AddCounter(ConsumedHeld(s), ChargedBy(s, e))
  {
    hide Plus, Minus, AddCounter, Exhausts, UsageOf, PacketCounter, BeforePart;
    var rest := if s.leaving.Some? then s.leaving.value.consumed else ZERO;
    CounterAlgebra(ConsumedHeld(s), rest, ZERO);
    CounterAlgebra(s.active.consumed, ChargedBy(s, e), rest);
    CounterAlgebra(s.active.consumed, rest, ZERO);
    CounterAlgebra(ConsumedHeld(Step(s, e)), ZERO, ZERO);
  }

  function ChargedIn(s: State, events: seq<Event>): Counter {
    if events == [] then ZERO
    else
      var k := |events| - 1;
      AddCounter(ChargedIn(s, events[..k]), ChargedBy(Run(s, events[..k]), events[k]))
  }

  /** Splits, updates and reports leave the quota's charge alone: over any run
      that sets no quota it grows by exactly the octets counted. */
  lemma {:induction false} ChargeIsKept(s: State, events: seq<Event>)
    requires SameQuota(s) && forall e :: e in events ==> KeepsQuota(e)
    ensures SameQuota(Run(s, events)) && ConsumedHeld(Run(s, events)) == AddCounter(ConsumedHeld(s), ChargedIn(s, events))
    decreases |events|
  {
    if events == [] {
      CounterAlgebra(ConsumedHeld(s), ZERO, ZERO);
    } else {
      var k := |events| - 1;
      var t := Run(s, events[..k]);
      ChargeIsKept(s, events[..k]);
      assert events[k] in events;
      ChargeStep(t, events[k]);
      AddAssociates(ConsumedHeld(s), ChargedIn(s, events[..k]), ChargedBy(t, events[k]));
      hide Step, SameQuota, ConsumedHeld, ChargedBy, KeepsQuota, AddCounter;
    }
  }

  lemma AddAssociates(a: Counter, b: Counter, c: Counter)
    ensures AddCounter(AddCounter(a, b), c) == AddCounter(a, AddCounter(b, c))
  {
  }
}
