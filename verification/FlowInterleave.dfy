/** CPUs that interleave within their frames: between any two batches of packets
    and between any two visited timer elements of one CPU, other CPUs allocate
    and free entries of the shared pool. */
module FlowInterleave {
  import opened Options
  import opened Pools
  import opened TimerWheel
  import opened FlowKey
  import opened FlowTcp
  import opened FlowTable
  import opened FlowExpiry
  import opened FlowRun
  import FP = FlowPool

  /** Where a CPU is in its frame: between frames, among the packets, or in the
      expiry pass, about to look at `index` in the slot of time `at`. */
  datatype Phase = Between(last: nat) | Packets(now: nat) | Expiring(now: nat, at: nat, index: nat, expired: nat)

  datatype Event =
    | Begin(cpu: nat, now: nat)
    | Process(cpu: nat, lifetimes: Lifetimes, batch: Batch)
    | StartPass(cpu: nat)
    | Visit(cpu: nat, keep: bool)

  /** The hook's answer to the one question it may be asked. */
  function Always(keep: bool): nat -> bool {
    n => keep
  }

  /** The first element of a slot, or the slot itself if it is empty. */
  function First(c: Cpu, at: nat): nat
    requires |c.wheel| == SLOTS
  {
    if c.wheel[at % SLOTS] == [] then at % SLOTS else c.wheel[at % SLOTS][0]
  }

  ghost predicate OnCourse(c: Cpu, at: nat, index: nat) {
    && |c.wheel| == SLOTS && (index == at % SLOTS || index in c.timers)
    && exists m: nat :: Cursor(c.wheel[at % SLOTS], Due(c), at, index, m)
  }

  ghost predicate PhaseOk(c: Cpu, ph: Phase) {
    match ph
    case Between(last) => Resting(c, last)
    case Packets(now) => InFrame(c, now)
    case Expiring(now, at, index, expired) =>
      at <= now && expired <= TIMER_MAX_EXPIRE && CpuInv(c, now, at) && OnCourse(c, at, index)
  }

  /** The pass stops: the next one starts at the slot of time `at`. */
  function Stopped(t: Table, at: nat): Table {
    t.(c := t.c.(nextCheck := Some(at)))
  }

  /** One visit, or the end of a slot or of the pass. */
  ghost function VisitStep(t: Table, k: nat, ph: Phase, keep: bool): (Table, Phase)
    requires ph.Expiring? && PhaseOk(t.c, ph) && k < |t.pool.caches|
  {
    if ph.expired >= TIMER_MAX_EXPIRE then (Stopped(t, ph.at), Between(ph.now))
    else if ph.index == ph.at % SLOTS then
      if ph.at == ph.now then (Stopped(t, ph.now + 1), Between(ph.now))
      else (t, ph.(at := ph.at + 1, index := First(t.c, ph.at + 1)))
    else
      assert TimerOk(t.c, ph.index);
      var p := ExpireSingle(Pass(t, ph.expired, 0), k, ph.index, ph.now, Always(keep));
      (p.t, ph.(index := NextIn(t.c.wheel[ph.at % SLOTS], ph.index, ph.at % SLOTS), expired := p.expired))
  }

  /** A CPU's own step; events that do not fit its phase do nothing. */
  ghost function Move(t: Table, k: nat, live: seq<set<nat>>, ph: Phase, e: Event): (Table, Phase)
    requires PhaseOk(t.c, ph) && PoolInv(t, k, live) && k < |t.pool.caches|
  {
    match (e, ph)
    case (Begin(_, now), Between(last)) =>
      if last <= now then (t.(c := StartFrame(t.c, now)), Packets(now)) else (t, ph)
    case (Process(_, l, b), Packets(now)) =>
      if l.Valid() then (ProcessBatch(t, k, live, l, b, now), ph) else (t, ph)
    case (StartPass(_), Packets(now)) =>
      if now < Base(t.c, now) then (t, Between(now)) else (t, Expiring(now, Base(t.c, now), First(t.c, Base(t.c, now)), 0))
    case (Visit(_, keep), Expiring(_, _, _, _)) => VisitStep(t, k, ph, keep)
    case _ => (t, ph)
  }

  // ----- each step keeps the CPU and the pool

  lemma CourseStarts(c: Cpu, now: nat, at: nat)
    requires CpuInv(c, now, at)
    ensures OnCourse(c, at, First(c, at))
  {
    PassableFacts(c, now, at);
    SlotHeadNotLinked(c, now, at, at % SLOTS);
    var l := c.wheel[at % SLOTS];
    assert l[|l|..] == [];
    assert Cursor(l, Due(c), at, First(c, at), |l|);
  }

  /** At the end of a slot everything in it is due a full turn later. */
  lemma CourseEnds(c: Cpu, now: nat, at: nat)
    requires CpuInv(c, now, at) && OnCourse(c, at, at % SLOTS)
    ensures CpuInv(c, now, at + 1)
  {
    var l := c.wheel[at % SLOTS];
    var m: nat :| Cursor(l, Due(c), at, at % SLOTS, m);
    assert l[0..] == l;
    Advance(c.wheel, Due(c), at);
  }

  lemma CourseGoesOn(t: Table, k: nat, now: nat, at: nat, index: nat, expired: nat, keep: bool)
    requires Passable(t, k, now, at) && OnCourse(t.c, at, index) && index != at % SLOTS && TimerOk(t.c, index)
    ensures var q := ExpireSingle(Pass(t, expired, 0), k, index, now, Always(keep));
            && q.expired == expired + 1 && CpuInv(q.t.c, now, at)
            && OnCourse(q.t.c, at, NextIn(t.c.wheel[at % SLOTS], index, at % SLOTS))
  {
    var p, hook := Pass(t, expired, 0), Always(keep);
    var m: nat :| Cursor(t.c.wheel[at % SLOTS], Due(t.c), at, index, m);
    PassableFacts(t.c, now, at);
    NextInSpec(t.c.wheel[at % SLOTS], index, at % SLOTS);
    hide CpuInv, ExpireSingle, Visited, Cursor, Always, GivesUp;
    VisitPassable(p, k, index, now, hook, at);
    var m' := VisitMovesCursor(t.c, index, now, GivesUp(p, index, now, hook), at, m);
  }

  /** A step's outcome: the CPU is where its phase says, and the pool accounts
      for its flows. */
  ghost predicate Fine(r: (Table, Phase), k: nat, live: seq<set<nat>>) {
    k < |live| && PhaseOk(r.0.c, r.1) && PoolInv(r.0, k, live[k := r.0.c.flows.Keys])
  }

  lemma SamePool(t: Table, c: Cpu, k: nat, live: seq<set<nat>>)
    requires PoolInv(t, k, live) && c.flows.Keys == t.c.flows.Keys
    ensures PoolInv(t.(c := c), k, live[k := c.flows.Keys]) && k < |live|
  {
    assert live[k := c.flows.Keys] == live;
  }

  lemma StopFine(t: Table, k: nat, live: seq<set<nat>>, now: nat, at: nat)
    requires PoolInv(t, k, live) && CpuInv(t.c, now, at) && at <= now + 1
    ensures Fine((Stopped(t, at), Between(now)), k, live)
  {
    NextCheckIsFree(t.c, now, at);
    SamePool(t, t.c.(nextCheck := Some(at)), k, live);
    hide CpuInv, PoolInv;
  }

  /** A visit keeps everything, and a pass that ends under the limit leaves
      nothing overdue, whatever other CPUs did meanwhile. */
  lemma VisitFine(t: Table, k: nat, live: seq<set<nat>>, ph: Phase, keep: bool)
    requires ph.Expiring? && PhaseOk(t.c, ph) && PoolInv(t, k, live) && k < |t.pool.caches|
    ensures Fine(VisitStep(t, k, ph, keep), k, live)
    ensures var r := VisitStep(t, k, ph, keep);
            r.1.Between? && ph.expired < TIMER_MAX_EXPIRE ==> NothingOverdue(r.0.c, ph.now)
  {
    if ph.expired >= TIMER_MAX_EXPIRE {
      hide CpuInv, PoolInv, OnCourse, NothingOverdue;
      StopFine(t, k, live, ph.now, ph.at);
    } else if ph.index == ph.at % SLOTS {
      if ph.at == ph.now {
        PassEndFine(t, k, live, ph, keep);
      } else {
        SlotEndFine(t, k, live, ph, keep);
      }
    } else {
      ElementFine(t, k, live, ph, keep);
    }
  }

  /** The end of a slot before the last. */
  lemma SlotEndFine(t: Table, k: nat, live: seq<set<nat>>, ph: Phase, keep: bool)
    requires ph.Expiring? && PhaseOk(t.c, ph) && PoolInv(t, k, live) && k < |t.pool.caches|
    requires ph.expired < TIMER_MAX_EXPIRE && ph.index == ph.at % SLOTS && ph.at != ph.now
    ensures Fine(VisitStep(t, k, ph, keep), k, live) && VisitStep(t, k, ph, keep).1.Expiring?
  {
    PhaseCourse(t.c, ph);
    hide Fine, CpuInv, PoolInv, OnCourse, PhaseOk, ExpireSingle, First;
    NextSlotFine(t, k, live, ph.now, ph.at, ph.expired);
  }

  /** The end of the last slot. */
  lemma PassEndFine(t: Table, k: nat, live: seq<set<nat>>, ph: Phase, keep: bool)
    requires ph.Expiring? && PhaseOk(t.c, ph) && PoolInv(t, k, live) && k < |t.pool.caches|
    requires ph.expired < TIMER_MAX_EXPIRE && ph.index == ph.at % SLOTS && ph.at == ph.now
    ensures Fine(VisitStep(t, k, ph, keep), k, live) && NothingOverdue(VisitStep(t, k, ph, keep).0.c, ph.now)
  {
    PhaseCourse(t.c, ph);
    hide Fine, CpuInv, PoolInv, OnCourse, NothingOverdue, PhaseOk, ExpireSingle, Stopped;
    LastSlotFine(t, k, live, ph.now);
  }

  lemma PhaseCourse(c: Cpu, ph: Phase)
    requires ph.Expiring? && PhaseOk(c, ph)
    ensures CpuInv(c, ph.now, ph.at) && OnCourse(c, ph.at, ph.index) && ph.at <= ph.now && |c.wheel| == SLOTS
  {
  }

  lemma LastSlotFine(t: Table, k: nat, live: seq<set<nat>>, now: nat)
    requires CpuInv(t.c, now, now) && OnCourse(t.c, now, now % SLOTS) && PoolInv(t, k, live)
    ensures Fine((Stopped(t, now + 1), Between(now)), k, live) && NothingOverdue(Stopped(t, now + 1).c, now)
  {
    CourseEnds(t.c, now, now);
    CheckedMeansNotOverdue(t.c, now);
    hide CpuInv, OnCourse, PoolInv, Fine;
    StopFine(t, k, live, now, now + 1);
  }

  lemma NextSlotFine(t: Table, k: nat, live: seq<set<nat>>, now: nat, at: nat, expired: nat)
    requires CpuInv(t.c, now, at) && OnCourse(t.c, at, at % SLOTS) && PoolInv(t, k, live) && at < now
    requires expired <= TIMER_MAX_EXPIRE && |t.c.wheel| == SLOTS
    ensures Fine((t, Expiring(now, at + 1, First(t.c, at + 1), expired)), k, live)
  {
    hide CpuInv, OnCourse, PoolInv, First;
    CourseEnds(t.c, now, at);
    CourseStarts(t.c, now, at + 1);
    SamePool(t, t.c, k, live);
  }

  /** The visit of one element. */
  lemma ElementFine(t: Table, k: nat, live: seq<set<nat>>, ph: Phase, keep: bool)
    requires ph.Expiring? && PhaseOk(t.c, ph) && PoolInv(t, k, live) && k < |t.pool.caches|
    requires ph.expired < TIMER_MAX_EXPIRE && ph.index != ph.at % SLOTS
    ensures Fine(VisitStep(t, k, ph, keep), k, live) && VisitStep(t, k, ph, keep).1.Expiring?
  {
    var Expiring(now, at, index, expired) := ph;
    assert TimerOk(t.c, index);
    PassableFacts(t.c, now, at);
    assert TimersAllocated(t.c) && k < |live|;
    hide CpuInv, PoolInv, OnCourse, TimersAllocated, ExpireSingle;
    CourseGoesOn(t, k, now, at, index, expired, keep);
    ExpireSinglePool(Pass(t, expired, 0), k, live, index, now, Always(keep));
  }

  lemma BeginFine(t: Table, k: nat, live: seq<set<nat>>, last: nat, now: nat)
    requires Resting(t.c, last) && PoolInv(t, k, live) && last <= now
    ensures Fine((t.(c := StartFrame(t.c, now)), Packets(now)), k, live)
  {
    StartFrameKeeps(t.c, last, now);
    hide Resting, InFrame, PoolInv;
    SamePool(t, StartFrame(t.c, now), k, live);
  }

  lemma ProcessFine(t: Table, k: nat, live: seq<set<nat>>, now: nat, l: Lifetimes, b: Batch)
    requires InFrame(t.c, now) && PoolInv(t, k, live) && l.Valid()
    ensures Fine((ProcessBatch(t, k, live, l, b, now), Packets(now)), k, live)
  {
    hide InFrame, PoolInv, ProcessBatch;
    BatchKeeps(t, k, live, l, b, now);
  }

  lemma StartPassFine(t: Table, k: nat, live: seq<set<nat>>, now: nat)
    requires InFrame(t.c, now) && PoolInv(t, k, live)
    ensures if now < Base(t.c, now) then Fine((t, Between(now)), k, live)
            else |t.c.wheel| == SLOTS && Fine((t, Expiring(now, Base(t.c, now), First(t.c, Base(t.c, now)), 0)), k, live)
  {
    SamePool(t, t.c, k, live);
    if now < Base(t.c, now) {
      InFrameRests(t.c, now);
    } else {
      CourseStarts(t.c, now, Base(t.c, now));
    }
    hide CpuInv, PoolInv;
  }

  lemma MoveFine(t: Table, k: nat, live: seq<set<nat>>, ph: Phase, e: Event)
    requires PhaseOk(t.c, ph) && PoolInv(t, k, live) && k < |t.pool.caches|
    ensures Fine(Move(t, k, live, ph, e), k, live)
    ensures var r := Move(t, k, live, ph, e);
            ph.Expiring? && r.1.Between? && ph.expired < TIMER_MAX_EXPIRE ==> NothingOverdue(r.0.c, ph.now)
  {
    SamePool(t, t.c, k, live);
    hide PoolInv, Resting, InFrame, OnCourse, CpuInv, NothingOverdue, VisitStep;
    match (e, ph) {
      case (Begin(_, now), Between(last)) =>
        if last <= now {
          BeginFine(t, k, live, last, now);
        }
      case (Process(_, l, b), Packets(now)) =>
        if l.Valid() {
          ProcessFine(t, k, live, now, l, b);
        }
      case (StartPass(_), Packets(now)) => StartPassFine(t, k, live, now);
      case (Visit(_, keep), Expiring(_, _, _, _)) => VisitFine(t, k, live, ph, keep);
      case _ =>
    }
  }

  // ----- all CPUs

  datatype Machine = Machine(pool: FP.State, cpus: seq<Cpu>, phases: seq<Phase>)

  ghost predicate MachineOk(y: Machine) {
    && |y.cpus| == |y.phases| == |y.pool.caches|
    && FP.Inv(y.pool, LiveSets(y.cpus))
    && forall k :: 0 <= k < |y.cpus| ==> PhaseOk(y.cpus[k], y.phases[k])
  }

  lemma CpuOk(y: Machine, k: nat)
    requires MachineOk(y) && k < |y.cpus|
    ensures PhaseOk(y.cpus[k], y.phases[k]) && PoolInv(Table(y.pool, y.cpus[k]), k, LiveSets(y.cpus))
  {
  }

  ghost function Step(y: Machine, e: Event): Machine
    requires MachineOk(y)
  {
    if e.cpu >= |y.cpus| then y
    else
      CpuOk(y, e.cpu);
      var (t, ph) := Move(Table(y.pool, y.cpus[e.cpu]), e.cpu, LiveSets(y.cpus), y.phases[e.cpu], e);
      Machine(t.pool, y.cpus[e.cpu := t.c], y.phases[e.cpu := ph])
  }

  /** One step of one CPU keeps every CPU and the pool; a pass that ends under the
      limit leaves its CPU without overdue flows. */
  lemma StepOk(y: Machine, e: Event)
    requires MachineOk(y)
    ensures MachineOk(Step(y, e))
    ensures e.cpu < |y.cpus| && y.phases[e.cpu].Expiring? && Step(y, e).phases[e.cpu].Between?
            && y.phases[e.cpu].expired < TIMER_MAX_EXPIRE ==>
              NothingOverdue(Step(y, e).cpus[e.cpu], y.phases[e.cpu].now)
  {
    var k := e.cpu;
    if k < |y.cpus| {
      CpuOk(y, k);
      hide PhaseOk, PoolInv, Move, NothingOverdue, FP.Inv;
      var live := LiveSets(y.cpus);
      MoveFine(Table(y.pool, y.cpus[k]), k, live, y.phases[k], e);
      var (t, ph) := Move(Table(y.pool, y.cpus[k]), k, live, y.phases[k], e);
      assert LiveSets(y.cpus[k := t.c]) == live[k := t.c.flows.Keys];
      CachesMatch(t, k, live[k := t.c.flows.Keys]);
    }
  }

  lemma CachesMatch(t: Table, k: nat, live: seq<set<nat>>)
    requires PoolInv(t, k, live)
    ensures FP.Inv(t.pool, live) && |t.pool.caches| == |live|
  {
  }

  ghost function Run(y: Machine, es: seq<Event>): Machine
    requires MachineOk(y)
    decreases |es|
  {
    if es == [] then y
    else
      StepOk(y, es[0]);
      Run(Step(y, es[0]), es[1..])
  }

  lemma {:induction false} RunOk(y: Machine, es: seq<Event>)
    requires MachineOk(y)
    ensures MachineOk(Run(y, es))
    decreases |es|
  {
    hide MachineOk, Step;
    if es != [] {
      StepOk(y, es[0]);
      RunOk(Step(y, es[0]), es[1..]);
    }
  }

  ghost function InitMachine(cpus: nat, flowsMax: nat): Machine {
    Machine(FP.Init(cpus, flowsMax), seq(cpus, _ => InitCpu()), seq(cpus, _ => Between(0)))
  }

  /** For every interleaving of every number of CPUs, down to single batches and
      single visited elements: every CPU's table is in order, the pool accounts
      for all flows, and a pass that ends under the limit leaves nothing overdue. */
  lemma InterleavedSafety(cpus: nat, flowsMax: nat, es: seq<Event>, e: Event)
    ensures MachineOk(InitMachine(cpus, flowsMax))
    ensures var y := Run(InitMachine(cpus, flowsMax), es);
            && MachineOk(y) && MachineOk(Step(y, e))
            && (e.cpu < |y.cpus| && y.phases[e.cpu].Expiring? && Step(y, e).phases[e.cpu].Between?
                && y.phases[e.cpu].expired < TIMER_MAX_EXPIRE ==>
                  NothingOverdue(Step(y, e).cpus[e.cpu], y.phases[e.cpu].now))
  {
    InitOk(cpus, flowsMax);
    hide MachineOk, Step, NothingOverdue;
    RunOk(InitMachine(cpus, flowsMax), es);
    StepOk(Run(InitMachine(cpus, flowsMax), es), e);
  }

  lemma InitOk(cpus: nat, flowsMax: nat)
    ensures MachineOk(InitMachine(cpus, flowsMax))
  {
    hide FP.Inv, Resting;
    FP.InitInv(cpus, flowsMax);
    InitCpuRests();
    var y := InitMachine(cpus, flowsMax);
    var none: seq<set<nat>> := seq(cpus, _ => {});
    assert forall k :: 0 <= k < cpus ==> LiveSets(y.cpus)[k] == none[k];
    assert LiveSets(y.cpus) == none;
  }
}
