/** The validation slots: those of the checker, shared by everyone, and the
    share of them that the AutoConfig and policy controllers hold between them.
    A controller holds one of its share while it waits for one of the
    checker's. */
module Slots {
  import opened Base

  type Id = nat

  /** Gateway workers and admission requests take a checker slot alone. */
  datatype Kind = GatewayWorker | Controller | Admission

  /** How a check or a pass ends: an error is also the end of its context. */
  datatype Ending = Success | Failure | Panic

  /** Holding: a controller has its share and no checker slot. Running: a check
      runs in a checker slot. FreeingSlot and FreeingShare: it ended, and the
      deferred release of what it took is next. */
  datatype Phase =
    | Idle
    | WaitingForShare
    | Holding
    | WaitingForSlot
    | Running
    | FreeingSlot(ending: Ending)
    | FreeingShare

  datatype Process = Process(kind: Kind, phase: Phase)

  /** slots and gatewayWorkers as the operator is set up; the controllers' share
      is what is left besides one slot for admission. */
  datatype Setup = Setup(slots: nat, gatewayWorkers: nat)
  {
    predicate Valid() {
      Share() >= 1
    }

    function Share(): int {
      slots - 1 - gatewayWorkers
    }
  }

  const OPERATOR := Setup(3, 1)

  /** taken and shareTaken: how many are in the two channels. */
  datatype State = State(processes: map<Id, Process>, taken: nat, shareTaken: nat)
  {
    function Put(p: Id, phase: Phase): State
      requires p in processes
    {
      this.(processes := processes[p := processes[p].(phase := phase)])
    }
  }

  type Processes = map<Id, Process>

  /** The process has put its token in the checker's channel. */
  predicate InSlot(process: Process) {
    process.phase == Running || process.phase.FreeingSlot?
  }

  function AllInSlots(ps: Processes): set<Id> {
    set p | p in ps && InSlot(ps[p])
  }

  function InSlotsOf(ps: Processes, kind: Kind): set<Id> {
    set p | p in ps && InSlot(ps[p]) && ps[p].kind == kind
  }

  function OfKind(ps: Processes, kind: Kind): set<Id> {
    set p | p in ps && ps[p].kind == kind
  }

  /** The process has put its token in the controllers' channel. */
  predicate Shares(process: Process) {
    process.kind == Controller && !process.phase.Idle? && !process.phase.WaitingForShare?
  }

  /** The controllers that have their share. */
  function Sharing(ps: Processes): set<Id> {
    set p | p in ps && Shares(ps[p])
  }

  datatype Event =
    | Start(p: Id)
    | TakeShare(p: Id)
    | AskForSlot(p: Id)
    | TakeSlot(p: Id)
    | EndCheck(p: Id, ending: Ending)
    | FreeSlot(p: Id)
    | EndPass(p: Id, ending: Ending)
    | FreeShare(p: Id)
    | Cancel(p: Id)

  function Subject(e: Event): Id {
    e.p
  }

  predicate Enabled(setup: Setup, s: State, e: Event) {
    Subject(e) in s.processes &&
    var process := s.processes[Subject(e)];
    match e
    case Start(_) => process.phase == Idle
    case TakeShare(_) => process.phase == WaitingForShare && s.shareTaken < setup.Share()
    case AskForSlot(_) => process.phase == Holding
    case TakeSlot(_) => process.phase == WaitingForSlot && s.taken < setup.slots
    case EndCheck(_, _) => process.phase == Running
    case FreeSlot(_) => process.phase.FreeingSlot?
    case EndPass(_, _) => process.phase == Holding
    case FreeShare(_) => process.phase == FreeingShare
    case Cancel(_) => process.phase == WaitingForShare || process.phase == WaitingForSlot
  }

  /** The state after e. A process ends through the deferred release of what it
      took. A controller keeps its share from one check to the next, unless the
      check panics: that ends its pass as well. */
  function Step(setup: Setup, s: State, e: Event): State
    requires Enabled(setup, s, e)
  {
    var p := Subject(e);
    var process := s.processes[p];
    var controller := process.kind == Controller;
    match e
    case Start(_) => s.Put(p, if controller then WaitingForShare else WaitingForSlot)
    case TakeShare(_) => s.Put(p, Holding).(shareTaken := s.shareTaken + 1)
    case AskForSlot(_) => s.Put(p, WaitingForSlot)
    case TakeSlot(_) => s.Put(p, Running).(taken := s.taken + 1)
    case EndCheck(_, ending) => s.Put(p, FreeingSlot(ending))
    case FreeSlot(_) =>
      s.Put(p, if !controller then Idle else if process.phase.ending == Panic then FreeingShare else Holding)
       .(taken := OneLess(s.taken))
    case EndPass(_, _) => s.Put(p, FreeingShare)
    case FreeShare(_) => s.Put(p, Idle).(shareTaken := OneLess(s.shareTaken))
    case Cancel(_) =>
      if process.phase == WaitingForSlot && controller then s.Put(p, Holding) else s.Put(p, Idle)
  }

  /** Receiving from a channel of n tokens. The receiver put one in, so n is
      never 0: Inv. */
  function OneLess(n: nat): nat {
    if n > 0 then n - 1 else 0
  }

  // ---- The invariant ----

  /** Only controllers have or wait for a share. */
  predicate PhasesFit(s: State) {
    forall p :: p in s.processes && s.processes[p].phase in {WaitingForShare, Holding, FreeingShare} ==>
      s.processes[p].kind == Controller
  }

  /** What is taken is what processes hold, and within bounds. */
  ghost predicate Inv(setup: Setup, s: State) {
    && PhasesFit(s)
    && s.taken == |AllInSlots(s.processes)| <= setup.slots
    && s.shareTaken == |Sharing(s.processes)| && s.shareTaken <= setup.Share()
    && |OfKind(s.processes, GatewayWorker)| <= setup.gatewayWorkers
  }

  function One(b: bool): int {
    if b then 1 else 0
  }

  lemma Toggled(was: set<Id>, now: set<Id>, p: Id, isIn: bool)
    requires now == if isIn then was + {p} else was - {p}
    ensures |now| == |was| + One(isIn) - One(p in was)
  {
    assert p in was ==> was + {p} == was;
    assert p !in was ==> was - {p} == was;
  }

  lemma InSlotsAfter(was: Processes, p: Id, q: Process)
    requires p in was
    ensures |AllInSlots(was[p := q])| == |AllInSlots(was)| + One(InSlot(q)) - One(InSlot(was[p]))
  {
    var now := was[p := q];
    assert forall i :: i in AllInSlots(now) <==> if i == p then InSlot(q) else i in AllInSlots(was);
    Toggled(AllInSlots(was), AllInSlots(now), p, InSlot(q));
  }

  lemma SharingAfter(was: Processes, p: Id, q: Process)
    requires p in was
    ensures |Sharing(was[p := q])| == |Sharing(was)| + One(Shares(q)) - One(Shares(was[p]))
  {
    hide Shares;
    var now := was[p := q];
    assert forall i :: i in Sharing(now) <==> if i == p then Shares(q) else i in Sharing(was);
    Toggled(Sharing(was), Sharing(now), p, Shares(q));
  }

  /** A change of phase counts for one at most. */
  lemma CountsAfter(s: State, p: Id, phase: Phase)
    requires p in s.processes
    ensures var was, now := s.processes, s.Put(p, phase).processes;
      && OfKind(now, GatewayWorker) == OfKind(was, GatewayWorker)
      && |AllInSlots(now)| == |AllInSlots(was)| + One(InSlot(now[p])) - One(InSlot(was[p]))
      && |Sharing(now)| == |Sharing(was)| + One(Shares(now[p])) - One(Shares(was[p]))
  {
    var q := s.processes[p].(phase := phase);
    InSlotsAfter(s.processes, p, q);
    SharingAfter(s.processes, p, q);
    hide AllInSlots, Sharing, Shares, One;
  }

  lemma StepKeepsInv(setup: Setup, s: State, e: Event)
    requires Inv(setup, s) && Enabled(setup, s, e)
    ensures Inv(setup, Step(setup, s, e))
  {
    CountsAfter(s, Subject(e), Step(setup, s, e).processes[Subject(e)].phase);
    hide AllInSlots, Sharing, OfKind;
  }

  /** From s, the events lead to t. */
  ghost predicate Leads(setup: Setup, s: State, events: seq<Event>, t: State)
    decreases |events|
  {
    if events == [] then t == s
    else Enabled(setup, s, events[0]) && Leads(setup, Step(setup, s, events[0]), events[1..], t)
  }

  ghost predicate Initial(setup: Setup, s: State) {
    && s.taken == s.shareTaken == 0
    && (forall p :: p in s.processes ==> s.processes[p].phase == Idle)
    && |OfKind(s.processes, GatewayWorker)| <= setup.gatewayWorkers
  }

  lemma {:induction false} RunKeepsInv(setup: Setup, s: State, events: seq<Event>, t: State)
    requires Inv(setup, s) && Leads(setup, s, events, t)
    ensures Inv(setup, t)
    decreases |events|
  {
    if events != [] {
      StepKeepsInv(setup, s, events[0]);
      RunKeepsInv(setup, Step(setup, s, events[0]), events[1..], t);
    }
  }

  lemma InitialInv(setup: Setup, s: State)
    requires setup.Valid() && Initial(setup, s)
    ensures Inv(setup, s)
  {
    assert AllInSlots(s.processes) == {} && Sharing(s.processes) == {};
  }

  // ---- What every reachable state meets ----

  /** In every state of every run the gateway workers and the controllers hold
      all but one slot at most, so an admission request alone never waits. */
  lemma AdmissionIsLeftASlot(setup: Setup, s: State, events: seq<Event>, t: State)
    requires setup.Valid() && Initial(setup, s) && Leads(setup, s, events, t)
    ensures |InSlotsOf(t.processes, GatewayWorker)| + |InSlotsOf(t.processes, Controller)| <= setup.slots - 1
    ensures InSlotsOf(t.processes, Admission) == {} ==> t.taken < setup.slots
  {
    InitialInv(setup, s);
    RunKeepsInv(setup, s, events, t);
    var ps := t.processes;
    SubsetIsSmaller(InSlotsOf(ps, GatewayWorker), OfKind(ps, GatewayWorker));
    SubsetIsSmaller(InSlotsOf(ps, Controller), Sharing(ps));
    InSlotsByKind(ps);
  }

  lemma InSlotsByKind(ps: Processes)
    ensures |AllInSlots(ps)| ==
      |InSlotsOf(ps, GatewayWorker)| + |InSlotsOf(ps, Controller)| + |InSlotsOf(ps, Admission)|
  {
    var workers, controllers, requests :=
      InSlotsOf(ps, GatewayWorker), InSlotsOf(ps, Controller), InSlotsOf(ps, Admission);
    assert AllInSlots(ps) == workers + controllers + requests;
    assert workers !! controllers && workers + controllers !! requests;
  }

  /** Steps that bring what is under way to its end. */
  predicate IsProgress(e: Event) {
    !e.Start? && !e.AskForSlot? && !e.Cancel?
  }

  /** No deadlock: while some process is at work, one can go on without giving
      up. */
  lemma SomeoneCanGoOn(setup: Setup, s: State, busy: Id) returns (e: Event)
    requires setup.Valid() && Inv(setup, s)
    requires busy in s.processes && s.processes[busy].phase != Idle
    ensures Enabled(setup, s, e) && IsProgress(e)
  {
    var ps := s.processes;
    if p :| p in ps && ps[p].phase.FreeingSlot? { return FreeSlot(p); }
    if p :| p in ps && ps[p].phase == Running { return EndCheck(p, Success); }
    assert AllInSlots(ps) == {};
    if p :| p in ps && ps[p].phase == WaitingForSlot { return TakeSlot(p); }
    if p :| p in ps && ps[p].phase == FreeingShare { return FreeShare(p); }
    if p :| p in ps && ps[p].phase == Holding { return EndPass(p, Success); }
    assert Sharing(ps) == {};
    return TakeShare(busy);
  }

  // ---- Every run can be brought to its end ----

  /** How many steps of progress a process is from Idle, at most. */
  function StepsLeft(process: Process): nat {
    match process.phase
    case Idle => 0
    case FreeingShare => 1
    case Holding => 2
    case FreeingSlot(_) => 3
    case Running => 4
    case WaitingForSlot => 5
    case WaitingForShare => 6
  }

  function HasLeft(ps: Processes, n: nat): set<Id> {
    set p | p in ps && StepsLeft(ps[p]) >= n
  }

  /** The steps of progress that are left: each process counts once for each
      number up to its own. */
  function WorkFrom(ps: Processes, n: nat): nat
    decreases 7 - n
  {
    if n >= 7 then 0 else |HasLeft(ps, n)| + WorkFrom(ps, n + 1)
  }

  lemma HasLeftAfter(was: Processes, p: Id, q: Process, n: nat)
    requires p in was
    ensures |HasLeft(was[p := q], n)| == |HasLeft(was, n)| + One(StepsLeft(q) >= n) - One(StepsLeft(was[p]) >= n)
  {
    hide StepsLeft;
    var now := was[p := q];
    assert forall i :: i in HasLeft(now, n) <==> if i == p then StepsLeft(q) >= n else i in HasLeft(was, n);
    Toggled(HasLeft(was, n), HasLeft(now, n), p, StepsLeft(q) >= n);
  }

  lemma {:induction false} WorkAfter(was: Processes, p: Id, q: Process, n: nat)
    requires p in was && 1 <= n <= 7
    ensures WorkFrom(was[p := q], n) - WorkFrom(was, n) == Left(q, n) - Left(was[p], n)
    decreases 7 - n
  {
    hide HasLeft, StepsLeft, Left, One;
    LeftFrom(was[p], n);
    LeftFrom(q, n);
    if n < 7 {
      HasLeftAfter(was, p, q, n);
      WorkAfter(was, p, q, n + 1);
    }
  }

  /** What of process's steps the numbers from n on count. */
  function Left(process: Process, n: nat): nat {
    if StepsLeft(process) >= n then StepsLeft(process) + 1 - n else 0
  }

  lemma LeftFrom(process: Process, n: nat)
    requires 1 <= n
    ensures n < 7 ==> Left(process, n) == Left(process, n + 1) + One(StepsLeft(process) >= n)
    ensures n == 7 ==> Left(process, n) == 0
  {}

  lemma ProgressLeavesLess(setup: Setup, s: State, e: Event)
    requires Enabled(setup, s, e) && IsProgress(e)
    ensures WorkFrom(Step(setup, s, e).processes, 1) < WorkFrom(s.processes, 1)
  {
    var p, next := Subject(e), Step(setup, s, e).processes;
    assert next == s.processes[p := next[p]] && StepsLeft(next[p]) < StepsLeft(s.processes[p]);
    hide Enabled, Step, StepsLeft, WorkFrom;
    WorkAfter(s.processes, p, next[p], 1);
  }

  /** From every reachable state steps of progress alone, of processes already
      at work, lead to one where all are idle. */
  lemma {:induction false} Drains(setup: Setup, s: State) returns (events: seq<Event>, t: State)
    requires setup.Valid() && Inv(setup, s)
    ensures Leads(setup, s, events, t) && (forall e :: e in events ==> IsProgress(e))
    ensures forall p :: p in t.processes ==> t.processes[p].phase == Idle
    ensures t.taken == 0 && t.shareTaken == 0
    decreases WorkFrom(s.processes, 1)
  {
    hide Enabled, Step;
    if p :| p in s.processes && s.processes[p].phase != Idle {
      var e := SomeoneCanGoOn(setup, s, p);
      ProgressLeavesLess(setup, s, e);
      StepKeepsInv(setup, s, e);
      var rest;
      rest, t := Drains(setup, Step(setup, s, e));
      events := [e] + rest;
      assert events[1..] == rest;
    } else {
      events, t := [], s;
      AllIdleMeansFree(setup, s);
    }
  }

  lemma AllIdleMeansFree(setup: Setup, s: State)
    requires Inv(setup, s) && forall p :: p in s.processes ==> s.processes[p].phase == Idle
    ensures s.taken == 0 && s.shareTaken == 0
  {
    assert AllInSlots(s.processes) == {} && Sharing(s.processes) == {};
  }

  /** From every state a run reaches, what is under way can be brought to its
      end, and then every slot is free. */
  lemma RunDrains(setup: Setup, s: State, events: seq<Event>, t: State) returns (more: seq<Event>, end: State)
    requires setup.Valid() && Initial(setup, s) && Leads(setup, s, events, t)
    ensures Leads(setup, t, more, end) && (forall e :: e in more ==> IsProgress(e))
    ensures forall p :: p in end.processes ==> end.processes[p].phase == Idle
    ensures end.taken == 0 && end.shareTaken == 0
  {
    InitialInv(setup, s);
    RunKeepsInv(setup, s, events, t);
    more, end := Drains(setup, t);
  }

  /** Nothing leaks: however processes ended, once all are idle every slot is
      free. */
  lemma AllSlotsComeBack(setup: Setup, s: State, events: seq<Event>, t: State)
    requires setup.Valid() && Initial(setup, s) && Leads(setup, s, events, t)
    requires forall p :: p in t.processes ==> t.processes[p].phase == Idle
    ensures t.taken == 0 && t.shareTaken == 0
  {
    InitialInv(setup, s);
    RunKeepsInv(setup, s, events, t);
    AllIdleMeansFree(setup, t);
  }

  /** The operator's setup leaves the controllers a share. */
  lemma OperatorIsValid()
    ensures OPERATOR.Valid() && OPERATOR.Share() == 1
  {}}
