/** Parallel branch and prune (solver/icp_parallel.cc) as a step system: workers
    share a stack of boxes, the counter `number_of_boxes` and the flag
    `found_delta_sat`. One step is one access to the shared state, or one local
    pruning; steps of different workers interleave freely. The statuses of the
    workers keep the branching point -1 they start with: the program never sets
    it, so that a worklist always calls all of its contractors. */
module IcpParallel {
  import opened Symbolic
  import opened Boxes
  import opened Explanations
  import opened ContractorStatuses
  import opened ContractorSpec
  import opened PruneRuns
  import opened Contractors
  import opened Icp

  /** What the workers read and never change. */
  datatype Env = Env(fo: Foreign, types: seq<VarType>, c: Contractor, evs: seq<FormulaEvaluator>, precision: real,
                     smear: Option<(Box, nat) -> real>)

  /** Where a worker stands. `carrying` tells that its status holds a box it still
      has to process, so that it need not pop one. */
  datatype Pc =
    | TestFound(carrying: bool)
    | TestCount(carrying: bool)
    | Pop
    | Process
    | Retire
    | Announce
    | Grow(toStack: Box, toKeep: Box)
    | Push(toStack: Box, toKeep: Box)
    | Done(carrying: bool)
    | Crashed

  /** `stackLeft` tells that the left half goes to the stack at the next branching. */
  datatype Worker = Worker(pc: Pc, status: Snapshot, stackLeft: bool)

  datatype State = State(stack: seq<Box>, count: int, found: int, workers: seq<Worker>)

  /** The boxes a worker is responsible for. */
  function BoxesOf(w: Worker): set<Box> {
    match w.pc
    case TestFound(carrying) => if carrying then {w.status.box} else {}
    case TestCount(carrying) => if carrying then {w.status.box} else {}
    case Done(carrying) => if carrying then {w.status.box} else {}
    case Process => {w.status.box}
    case Announce => {w.status.box}
    case Crashed => {w.status.box}
    case Grow(toStack, toKeep) => {toStack, toKeep}
    case Push(toStack, toKeep) => {toStack, toKeep}
    case Pop => {}
    case Retire => {}
  }

  function InPlay(s: State): set<Box> {
    (set b | b in s.stack) + (set j, b | 0 <= j < |s.workers| && b in BoxesOf(s.workers[j]) :: b)
  }

  // ------------------------------------------------------------------ steps

  /** The local part of a turn: prune, evaluate and choose a split. Which half
      goes to the stack alternates. A turn that runs into an assertion ends the
      worker. */
  ghost predicate LocalStep(env: Env, w: Worker, w': Worker) {
    exists turn :: TurnStep(env, w, w', turn)
  }

  ghost predicate TurnStep(env: Env, w: Worker, w': Worker, turn: Turn) {
    && Processed(env.fo, env.types, env.c, env.evs, env.precision, env.smear, -1, w.status, w'.status, turn)
    && w'.pc == NextPc(turn, w.stackLeft) && w'.stackLeft == if turn.Branched? then !w.stackLeft else w.stackLeft
  }

  function NextPc(turn: Turn, stackLeft: bool): Pc {
    match turn
    case Discarded => Retire
    case Found => Announce
    case Branched(l, r, _) => if stackLeft then Grow(l, r) else Grow(r, l)
    case Aborted(_) => Crashed
  }

  /** One step of worker `i`. */
  ghost predicate Step(env: Env, s: State, s': State, i: nat) {
    && i < |s.workers| && |s'.workers| == |s.workers|
    && s'.workers == s.workers[i := s'.workers[i]]
    && var w, w' := s.workers[i], s'.workers[i];
       match w.pc
       case TestFound(carrying) =>
         && Shared(s) == Shared(s')
         && w' == w.(pc := if s.found == -1 then TestCount(carrying) else Done(carrying))
       case TestCount(carrying) =>
         && Shared(s) == Shared(s')
         && w' == w.(pc := if s.count > 0 then (if carrying then Process else Pop) else Done(carrying))
       case Pop =>
         if s.stack == [] then
           Shared(s) == Shared(s') && w' == w.(pc := TestFound(false))
         else
           && (s'.count, s'.found) == (s.count, s.found) && s'.stack == s.stack[..|s.stack| - 1]
           && w' == w.(pc := Process, status := w.status.(box := s.stack[|s.stack| - 1]))
       case Process => Shared(s) == Shared(s') && LocalStep(env, w, w')
       case Retire =>
         && (s'.stack, s'.count, s'.found) == (s.stack, s.count - 1, s.found)
         && w' == w.(pc := TestFound(false))
       case Announce =>
         && (s'.stack, s'.count, s'.found) == (s.stack, s.count, i)
         && w' == w.(pc := Done(true))
       case Grow(toStack, toKeep) =>
         && (s'.stack, s'.count, s'.found) == (s.stack, s.count + 1, s.found)
         && w' == w.(pc := Push(toStack, toKeep))
       case Push(toStack, toKeep) =>
         && (s'.stack, s'.count, s'.found) == (s.stack + [toStack], s.count, s.found)
         && w' == w.(pc := TestFound(true), status := w.status.(box := toKeep))
       case Done(_) => false
       case Crashed => false
  }

  function Shared(s: State): (seq<Box>, int, int) {
    (s.stack, s.count, s.found)
  }

  /** The state in which `CheckSat` starts the workers, after the initial prune. */
  ghost predicate Init(s: State, start: Snapshot, stackLeft: bool, jobs: nat) {
    && s.stack == [start.box] && s.count == 1 && s.found == -1
    && |s.workers| == jobs && forall j | 0 <= j < jobs :: s.workers[j] == Worker(TestFound(false), start, stackLeft)
  }

  // --------------------------------------------------- the counter of boxes

  /** How much of the counter a worker accounts for: the box it holds, and an
      increment whose box is not yet on the stack. */
  function Load(w: Worker): nat {
    match w.pc
    case TestFound(carrying) => if carrying then 1 else 0
    case TestCount(carrying) => if carrying then 1 else 0
    case Done(carrying) => if carrying then 1 else 0
    case Pop => 0
    case Process => 1
    case Retire => 1
    case Announce => 1
    case Crashed => 1
    case Grow(_, _) => 1
    case Push(_, _) => 2
  }

  function Sum(xs: seq<nat>): nat {
    if xs == [] then 0 else xs[0] + Sum(xs[1..])
  }

  lemma {:induction false} SumUpdate(xs: seq<nat>, i: nat, x: nat)
    requires i < |xs|
    ensures Sum(xs[i := x]) == Sum(xs) - xs[i] + x
    ensures xs[i] <= Sum(xs)
  {
    if i == 0 {
    } else {
      SumUpdate(xs[1..], i - 1, x);
      assert xs[i := x][1..] == xs[1..][i - 1 := x];
    }
  }

  function Loads(ws: seq<Worker>): seq<nat> {
    seq(|ws|, i requires 0 <= i < |ws| => Load(ws[i]))
  }

  /** The counter is the boxes on the stack, the boxes held by workers, and the
      increments whose push is still to come. */
  ghost predicate CounterExact(s: State) {
    s.count == |s.stack| + Sum(Loads(s.workers))
  }

  lemma CounterStep(env: Env, s: State, s': State, i: nat)
    requires Step(env, s, s', i) && CounterExact(s)
    ensures CounterExact(s')
  {
    SumUpdate(Loads(s.workers), i, Load(s'.workers[i]));
    assert Loads(s'.workers) == Loads(s.workers)[i := Load(s'.workers[i])];
  }

  /** A counter of zero means that no box is left anywhere. */
  lemma ZeroMeansNone(s: State)
    requires CounterExact(s) && s.count <= 0
    ensures InPlay(s) == {} && forall j | 0 <= j < |s.workers| :: Load(s.workers[j]) == 0
  {
    forall j | 0 <= j < |s.workers| ensures Load(s.workers[j]) == 0 && BoxesOf(s.workers[j]) == {} {
      SumUpdate(Loads(s.workers), j, 0);
      assert Loads(s.workers)[j] == Load(s.workers[j]);
    }
  }

  // ------------------------------------------------------------ termination

  /** Workers that gave up because the counter was zero, and the announced winner. */
  ghost predicate Verdicts(env: Env, s: State) {
    && -1 <= s.found < |s.workers|
    && (s.found >= 0 ==> Certified(env, s.workers[s.found]) && s.workers[s.found].pc == Done(true))
    && (forall j | 0 <= j < |s.workers| && s.workers[j].pc == Announce :: Certified(env, s.workers[j]))
    && (s.found == -1 ==> forall j | 0 <= j < |s.workers| && s.workers[j].pc.Done? :: s.count == 0)
  }

  /** The status of the worker is one that a turn has accepted: its box is what
      pruning has left, and meets the exit condition of the search. */
  ghost predicate Certified(env: Env, w: Worker) {
    exists s: Snapshot ::
      Processed(env.fo, env.types, env.c, env.evs, env.precision, env.smear, -1, s, w.status, Found)
  }

  lemma CertifiedIsSat(env: Env, w: Worker)
    requires Certified(env, w)
    ensures DeltaSat(env.fo, env.evs, w.status.box, env.precision)
  {
  }

  /** Racing announcements, and workers leaving at different times, keep the
      verdict right: the flag names a certified worker, and while it is unset
      nobody has left unless there is nothing left to do. */
  lemma VerdictStep(env: Env, s: State, s': State, i: nat)
    requires Step(env, s, s', i) && CounterExact(s) && Verdicts(env, s)
    ensures Verdicts(env, s')
  {
    var w, w' := s.workers[i], s'.workers[i];
    CounterStep(env, s, s', i);
    if s.count <= 0 { ZeroMeansNone(s); }
    forall j | 0 <= j < |s.workers| && j != i ensures s'.workers[j] == s.workers[j] {
    }
    if w.pc == Process && w'.pc == Announce { AcceptedIsCertified(env, w, w'); }
    if s'.found == -1 {
      forall j | 0 <= j < |s'.workers| && s'.workers[j].pc.Done? ensures s'.count == 0 {
        if j == i { assert w.pc.TestCount?; }
      }
    }
  }

  lemma AcceptedIsCertified(env: Env, w: Worker, w': Worker)
    requires LocalStep(env, w, w') && w'.pc == Announce
    ensures Certified(env, w')
  {
    var turn :| TurnStep(env, w, w', turn);
    assert turn == Found;
  }

  // --------------------------------------------------------------- coverage

  function UsedBy(s: State): set<Formula> {
    set j, f | 0 <= j < |s.workers| && f in s.workers[j].status.used :: f
  }

  function WitnessedBy(s: State): set<nat> {
    set j, v | 0 <= j < |s.workers| && v in s.workers[j].status.unsatWitness :: v
  }

  ghost predicate StateCovers(s: State, S: set<nat>, p: Point) {
    exists b :: b in InPlay(s) && Covers(b, S, p)
  }

  /** While nothing was found, every candidate of the initial box is in a box on
      the stack or in the hands of a worker. The candidates are judged by the
      records of all workers together. */
  ghost predicate NothingLost(env: Env, b1: Box, s: State) {
    forall S, p :: Admissible(env.types, S, p, UsedBy(s), WitnessedBy(s)) && Covers(b1, S, p) ==> StateCovers(s, S, p)
  }

  /** Records only grow. */
  lemma RecordsGrow(env: Env, s: State, s': State, i: nat)
    requires Step(env, s, s', i)
    ensures UsedBy(s) <= UsedBy(s') && WitnessedBy(s) <= WitnessedBy(s')
    ensures s'.workers[i].status.used <= UsedBy(s') && s'.workers[i].status.unsatWitness <= WitnessedBy(s')
    ensures UsedBy(s') <= UsedBy(s) + Constraints(env.c) + FormulasOf(env.evs)
  {
    var w, w' := s.workers[i], s'.workers[i];
    assert w.status.used <= w'.status.used <= w.status.used + Constraints(env.c) + FormulasOf(env.evs);
    assert w.status.unsatWitness <= w'.status.unsatWitness;
    forall f | f in UsedBy(s) ensures f in UsedBy(s') {
      var j :| 0 <= j < |s.workers| && f in s.workers[j].status.used;
      assert f in s'.workers[j].status.used;
    }
    forall v | v in WitnessedBy(s) ensures v in WitnessedBy(s') {
      var j :| 0 <= j < |s.workers| && v in s.workers[j].status.unsatWitness;
      assert v in s'.workers[j].status.unsatWitness;
    }
    forall f | f in UsedBy(s') ensures f in UsedBy(s) + Constraints(env.c) + FormulasOf(env.evs) {
      var j :| 0 <= j < |s'.workers| && f in s'.workers[j].status.used;
      if j != i { assert f in s.workers[j].status.used; }
    }
  }

  /** A step moves boxes between the stack and the stepping worker only. */
  lemma InPlayStep(env: Env, s: State, s': State, i: nat)
    requires Step(env, s, s', i)
    ensures InPlay(s) - BoxesOf(s.workers[i]) <= InPlay(s') <= InPlay(s) + BoxesOf(s'.workers[i])
    ensures BoxesOf(s'.workers[i]) <= InPlay(s')
    ensures s.workers[i].pc != Process ==> InPlay(s') == InPlay(s)
  {
    var w, w' := s.workers[i], s'.workers[i];
    StackStep(env, s, s', i);
    forall b | b in InPlay(s) ensures b in InPlay(s') || b in BoxesOf(w) {
      if b !in s.stack {
        var j :| 0 <= j < |s.workers| && b in BoxesOf(s.workers[j]);
        if j != i { assert b in BoxesOf(s'.workers[j]); }
      }
    }
    forall b | b in InPlay(s') ensures b in InPlay(s) || b in BoxesOf(w') {
      if b !in s'.stack {
        var j :| 0 <= j < |s'.workers| && b in BoxesOf(s'.workers[j]);
        if j != i { assert b in BoxesOf(s.workers[j]); }
      }
    }
  }

  lemma StackStep(env: Env, s: State, s': State, i: nat)
    requires Step(env, s, s', i)
    ensures forall b | b in s.stack :: b in s'.stack || b in BoxesOf(s'.workers[i])
    ensures forall b | b in s'.stack :: b in s.stack || b in BoxesOf(s.workers[i])
    ensures s.workers[i].pc != Process ==> forall b | b in BoxesOf(s.workers[i]) ::
            b in s'.stack || b in BoxesOf(s'.workers[i])
    ensures s.workers[i].pc != Process ==> forall b | b in BoxesOf(s'.workers[i]) ::
            b in s.stack || b in BoxesOf(s.workers[i])
  {
    match s.workers[i].pc {
      case Pop => if s.stack != [] { TopOfStack(s.stack); }
      case Push(toStack, _) => assert s'.stack == s.stack + [toStack];
      case _ => assert s'.stack == s.stack;
    }
  }

  lemma TopOfStack(stack: seq<Box>)
    requires stack != []
    ensures forall b :: b in stack <==> b in stack[..|stack| - 1] || b == stack[|stack| - 1]
  {
    assert stack == stack[..|stack| - 1] + [stack[|stack| - 1]];
  }

  /** A box that holds what is left of the candidates after a turn. */
  ghost function NextBox(turn: Turn, b: Box, S: set<nat>, p: Point): Box {
    match turn
    case Branched(l, r, _) => if Covers(l, S, p) then l else r
    case _ => b
  }

  lemma TurnCovers(env: Env, w: Worker, w': Worker, turn: Turn, S: set<nat>, p: Point)
    requires TurnStep(env, w, w', turn)
    requires Admissible(env.types, S, p, w'.status.used, w'.status.unsatWitness) && Covers(w.status.box, S, p)
    ensures !turn.Discarded? && Covers(NextBox(turn, w'.status.box, S, p), S, p)
  {
    assert Covers(w'.status.box, S, p);
    if turn.Branched? {
      BranchCovers(env.types, w'.status.box, turn.dim, S, p, w'.status.used, w'.status.unsatWitness);
    }
  }

  lemma NextBoxIsHeld(w: Worker, w': Worker, turn: Turn, S: set<nat>, p: Point)
    requires w'.pc == NextPc(turn, w.stackLeft) && !turn.Discarded?
    ensures NextBox(turn, w'.status.box, S, p) in BoxesOf(w')
  {
  }

  /** A turn keeps the candidates of the box it processes. */
  lemma ProcessCovers(env: Env, w: Worker, w': Worker, U: set<Formula>, W: set<nat>, S: set<nat>, p: Point)
    requires LocalStep(env, w, w') && w'.status.used <= U && w'.status.unsatWitness <= W
    requires Admissible(env.types, S, p, U, W) && Covers(w.status.box, S, p)
    ensures exists b :: b in BoxesOf(w') && Covers(b, S, p)
  {
    AdmissibleWithLess(env.types, S, p, w'.status.used, w'.status.unsatWitness, U, W);
    var turn :| TurnStep(env, w, w', turn);
    TurnCovers(env, w, w', turn, S, p);
    NextBoxIsHeld(w, w', turn, S, p);
  }

  lemma CoverageStep(env: Env, b1: Box, s: State, s': State, i: nat)
    requires Step(env, s, s', i) && NothingLost(env, b1, s)
    ensures NothingLost(env, b1, s')
  {
    var w, w' := s.workers[i], s'.workers[i];
    RecordsGrow(env, s, s', i);
    InPlayStep(env, s, s', i);
    forall S, p | Admissible(env.types, S, p, UsedBy(s'), WitnessedBy(s')) && Covers(b1, S, p)
      ensures StateCovers(s', S, p)
    {
      AdmissibleWithLess(env.types, S, p, UsedBy(s), WitnessedBy(s), UsedBy(s'), WitnessedBy(s'));
      var b :| b in InPlay(s) && Covers(b, S, p);
      if b in BoxesOf(w) && w.pc == Process {
        ProcessCovers(env, w, w', UsedBy(s'), WitnessedBy(s'), S, p);
        var b' :| b' in BoxesOf(w') && Covers(b', S, p);
        assert b' in InPlay(s');
      } else {
        assert b in InPlay(s');
      }
    }
  }

  // ------------------------------------------------------ boxes in the start box

  /** The box is valid and inside the initial one. */
  predicate Inside(env: Env, b1: Box, b: Box) {
    ValidBox(b, |env.types|) && SubBox(b, b1)
  }

  /** Every box in play is. */
  ghost predicate AllInside(env: Env, b1: Box, s: State) {
    forall b | b in InPlay(s) :: Inside(env, b1, b)
  }

  lemma TurnStaysInside(env: Env, b1: Box, w: Worker, w': Worker, b: Box)
    requires LocalStep(env, w, w') && Inside(env, b1, w.status.box) && b in BoxesOf(w')
    ensures Inside(env, b1, b)
  {
    var turn :| TurnStep(env, w, w', turn);
    TurnNarrows(env, w, w', turn);
    HeldIsInside(|env.types|, w, w', turn, b);
    SubBoxTransitive(b, w.status.box, b1);
  }

  lemma HeldIsInside(n: nat, w: Worker, w': Worker, turn: Turn, b: Box)
    requires w'.pc == NextPc(turn, w.stackLeft)
    requires ValidBox(w'.status.box, n) && SubBox(w'.status.box, w.status.box) && b in BoxesOf(w')
    requires turn.Branched? ==>
               && ValidBox(turn.left, n) && ValidBox(turn.right, n)
               && SubBox(turn.left, w'.status.box) && SubBox(turn.right, w'.status.box)
    ensures ValidBox(b, n) && SubBox(b, w.status.box)
  {
    SubBoxTransitive(b, w'.status.box, w.status.box);
  }

  lemma InsideStep(env: Env, b1: Box, s: State, s': State, i: nat)
    requires Step(env, s, s', i) && AllInside(env, b1, s)
    ensures AllInside(env, b1, s')
  {
    var w, w' := s.workers[i], s'.workers[i];
    InPlayStep(env, s, s', i);
    forall b | b in InPlay(s') ensures Inside(env, b1, b) {
      if b !in InPlay(s) {
        assert w.status.box in BoxesOf(w) && w.status.box in InPlay(s);
        TurnStaysInside(env, b1, w, w', b);
      }
    }
  }

  // ------------------------------------------------------------ whole runs

  ghost predicate Inv(env: Env, b1: Box, s: State) {
    CounterExact(s) && Verdicts(env, s) && NothingLost(env, b1, s) && AllInside(env, b1, s) && NoneCrashed(env, s)
  }

  /** No worker runs into an assertion when the contractor leaves integer ends
      without a branching point. */
  ghost predicate NoneCrashed(env: Env, s: State) {
    NeverAborts(env.types, env.c, env.evs, -1) ==> forall j | 0 <= j < |s.workers| :: s.workers[j].pc != Crashed
  }

  /** The records hold those of the start, and nothing but the constraints. */
  ghost predicate RecordsFrom(env: Env, start: Snapshot, s: State) {
    && start.used <= UsedBy(s) <= start.used + Constraints(env.c) + FormulasOf(env.evs)
    && start.unsatWitness <= WitnessedBy(s)
  }

  lemma InvStep(env: Env, start: Snapshot, s: State, s': State, i: nat)
    requires Step(env, s, s', i) && Inv(env, start.box, s) && RecordsFrom(env, start, s)
    ensures Inv(env, start.box, s') && RecordsFrom(env, start, s')
  {
    CounterStep(env, s, s', i);
    VerdictStep(env, s, s', i);
    CoverageStep(env, start.box, s, s', i);
    InsideStep(env, start.box, s, s', i);
    RecordsGrow(env, s, s', i);
    CrashStep(env, s, s', i);
  }

  lemma CrashStep(env: Env, s: State, s': State, i: nat)
    requires Step(env, s, s', i) && NoneCrashed(env, s)
    ensures NoneCrashed(env, s')
  {
    var w, w' := s.workers[i], s'.workers[i];
    if w.pc == Process { var turn :| TurnStep(env, w, w', turn); }
    forall j | 0 <= j < |s'.workers| && j != i ensures s'.workers[j] == s.workers[j] {
    }
  }

  lemma InitInv(env: Env, start: Snapshot, stackLeft: bool, jobs: nat, s: State)
    requires Init(s, start, stackLeft, jobs) && jobs > 0 && ValidBox(start.box, |env.types|)
    ensures Inv(env, start.box, s) && RecordsFrom(env, start, s)
  {
    AllZero(Loads(s.workers));
    assert start.box in InPlay(s);
    forall f | f in start.used ensures f in UsedBy(s) { assert f in s.workers[0].status.used; }
    forall v | v in start.unsatWitness ensures v in WitnessedBy(s) { assert v in s.workers[0].status.unsatWitness; }
  }

  lemma {:induction false} AllZero(xs: seq<nat>)
    requires forall i | 0 <= i < |xs| :: xs[i] == 0
    ensures Sum(xs) == 0
  {
    if xs == [] {
    } else {
      AllZero(xs[1..]);
    }
  }

  /** The scheduler grants worker `i` a step: it takes one, or nothing happens when
      it has left or does not exist. */
  ghost predicate Granted(env: Env, s: State, s': State, i: nat) {
    if i < |s.workers| && !s.workers[i].pc.Done? && s.workers[i].pc != Crashed then Step(env, s, s', i) else s' == s
  }

  /** The run of the workers under a schedule, which is any sequence of grants. */
  ghost predicate IsRun(env: Env, start: Snapshot, stackLeft: bool, jobs: nat, schedule: seq<nat>, run: seq<State>) {
    && |run| == |schedule| + 1 && Init(run[0], start, stackLeft, jobs)
    && forall k | 0 <= k < |schedule| :: Granted(env, run[k], run[k + 1], schedule[k])
  }

  lemma {:induction false} RunInv(env: Env, start: Snapshot, stackLeft: bool, jobs: nat, schedule: seq<nat>,
                                  run: seq<State>, k: nat)
    requires IsRun(env, start, stackLeft, jobs, schedule, run) && jobs > 0 && ValidBox(start.box, |env.types|)
    requires k < |run|
    ensures Inv(env, start.box, run[k]) && RecordsFrom(env, start, run[k]) && |run[k].workers| == jobs
  {
    if k == 0 {
      InitInv(env, start, stackLeft, jobs, run[0]);
    } else {
      RunInv(env, start, stackLeft, jobs, schedule, run, k - 1);
      assert Granted(env, run[k - 1], run[k], schedule[k - 1]);
      if run[k] != run[k - 1] { InvStep(env, start, run[k - 1], run[k], schedule[k - 1]); }
    }
  }

  ghost predicate AllDone(s: State) {
    forall j | 0 <= j < |s.workers| :: s.workers[j].pc.Done?
  }

  /** The verdict when all workers have left, for every interleaving: a negative
      one refutes the initial box, a positive one names a worker whose box lies in
      the initial one, was pruned, and meets the exit condition, however many
      workers raced to announce. No worker crashes if every split is sure to
      succeed. */
  lemma RunVerdict(env: Env, start: Snapshot, stackLeft: bool, jobs: nat, schedule: seq<nat>, run: seq<State>, s: State)
    requires IsRun(env, start, stackLeft, jobs, schedule, run) && jobs > 0 && ValidBox(start.box, |env.types|)
    requires s == run[|run| - 1]
    ensures NoneCrashed(env, s)
    ensures AllDone(s) ==> -1 <= s.found < |s.workers|
    ensures AllDone(s) && s.found >= 0 ==>
              Certified(env, s.workers[s.found]) && Inside(env, start.box, s.workers[s.found].status.box)
    ensures AllDone(s) && s.found == -1 ==> Refuted(env.types, start.box, UsedBy(s), WitnessedBy(s))
  {
    RunInv(env, start, stackLeft, jobs, schedule, run, |run| - 1);
    if AllDone(s) { InvVerdict(env, start.box, s); }
  }

  lemma InvVerdict(env: Env, b1: Box, s: State)
    requires Inv(env, b1, s) && AllDone(s) && s.workers != []
    ensures -1 <= s.found < |s.workers|
    ensures s.found >= 0 ==> Certified(env, s.workers[s.found]) && Inside(env, b1, s.workers[s.found].status.box)
    ensures s.found == -1 ==> Refuted(env.types, b1, UsedBy(s), WitnessedBy(s))
  {
    if s.found == -1 {
      assert s.workers[0].pc.Done?;
      ZeroMeansNone(s);
      NoBoxNoCandidate(env, b1, s);
    } else {
      assert s.workers[s.found].status.box in BoxesOf(s.workers[s.found]);
      assert s.workers[s.found].status.box in InPlay(s);
    }
  }

  lemma NoBoxNoCandidate(env: Env, b1: Box, s: State)
    requires NothingLost(env, b1, s) && InPlay(s) == {}
    ensures Refuted(env.types, b1, UsedBy(s), WitnessedBy(s))
  {
    forall S, p ensures !StateCovers(s, S, p) { }
  }

  // --------------------------------------------------------- no endless work

  /** The weight of the boxes in the hands of a worker. */
  function Weight(n: nat, w: Worker): nat {
    match w.pc
    case TestFound(carrying) => if carrying then BoxWeight(n, w.status.box) else 0
    case TestCount(carrying) => if carrying then BoxWeight(n, w.status.box) else 0
    case Done(carrying) => if carrying then BoxWeight(n, w.status.box) else 0
    case Process => BoxWeight(n, w.status.box)
    case Announce => BoxWeight(n, w.status.box)
    case Crashed => BoxWeight(n, w.status.box)
    case Grow(x, y) => BoxWeight(n, x) + BoxWeight(n, y)
    case Push(x, y) => BoxWeight(n, x) + BoxWeight(n, y)
    case Pop => 0
    case Retire => 0
  }

  function Weights(n: nat, ws: seq<Worker>): seq<nat> {
    seq(|ws|, i requires 0 <= i < |ws| => Weight(n, ws[i]))
  }

  function StackedWeight(n: nat, stack: seq<Box>): nat {
    if stack == [] then 0 else StackedWeight(n, stack[..|stack| - 1]) + BoxWeight(n, stack[|stack| - 1])
  }

  function TotalWeight(n: nat, s: State): nat {
    StackedWeight(n, s.stack) + Sum(Weights(n, s.workers))
  }

  /** No step adds weight, and every turn that does not end the search removes
      some: across all interleavings only finitely many boxes are processed. */
  lemma WeightStep(env: Env, s: State, s': State, i: nat)
    requires Step(env, s, s', i)
    ensures TotalWeight(|env.types|, s') <= TotalWeight(|env.types|, s)
    ensures s.workers[i].pc == Process && s'.workers[i].pc != Announce && s'.workers[i].pc != Crashed ==>
              TotalWeight(|env.types|, s') < TotalWeight(|env.types|, s)
  {
    var n := |env.types|;
    var w, w' := s.workers[i], s'.workers[i];
    SumUpdate(Weights(n, s.workers), i, Weight(n, w'));
    assert Weights(n, s'.workers) == Weights(n, s.workers)[i := Weight(n, w')];
    match w.pc {
      case Process => LocalWeight(env, w, w');
      case Push(toStack, _) => assert (s.stack + [toStack])[..|s.stack|] == s.stack;
      case _ =>
    }
  }

  lemma TurnNarrows(env: Env, w: Worker, w': Worker, turn: Turn)
    requires TurnStep(env, w, w', turn)
    ensures ValidBox(w.status.box, |env.types|) && ValidBox(w'.status.box, |env.types|)
    ensures SubBox(w'.status.box, w.status.box)
    ensures turn.Branched? ==>
              && ValidBox(turn.left, |env.types|) && ValidBox(turn.right, |env.types|)
              && SubBox(turn.left, w'.status.box) && SubBox(turn.right, w'.status.box)
              && TotalWidth(turn.left) < TotalWidth(w'.status.box)
              && TotalWidth(turn.right) < TotalWidth(w'.status.box)
  {
  }

  lemma LocalWeight(env: Env, w: Worker, w': Worker)
    requires LocalStep(env, w, w') && w.pc == Process
    ensures Weight(|env.types|, w') <= Weight(|env.types|, w)
    ensures w'.pc != Announce && w'.pc != Crashed ==> Weight(|env.types|, w') < Weight(|env.types|, w)
  {
    var turn :| TurnStep(env, w, w', turn);
    TurnNarrows(env, w, w', turn);
    TurnWeight(|env.types|, w, w', turn);
  }

  lemma TurnWeight(n: nat, w: Worker, w': Worker, turn: Turn)
    requires w.pc == Process && ValidBox(w.status.box, n) && ValidBox(w'.status.box, n)
    requires SubBox(w'.status.box, w.status.box)
    requires w'.pc == NextPc(turn, w.stackLeft)
    requires turn.Branched? ==>
               && ValidBox(turn.left, n) && ValidBox(turn.right, n)
               && TotalWidth(turn.left) < TotalWidth(w'.status.box)
               && TotalWidth(turn.right) < TotalWidth(w'.status.box)
    ensures Weight(n, w') <= Weight(n, w)
    ensures w'.pc != Announce && w'.pc != Crashed ==> Weight(n, w') < Weight(n, w)
  {
    NarrowedWeight(n, w.status.box, w'.status.box);
    if turn.Branched? { BranchedWeight(n, w'.status.box, turn.left, turn.right); }
  }

  lemma NarrowedWeight(n: nat, b: Box, b': Box)
    requires ValidBox(b, n) && ValidBox(b', n) && SubBox(b', b)
    ensures 0 < BoxWeight(n, b') <= BoxWeight(n, b)
  {
    WidthFalls(b', b, n);
    Pow3Monotone(TotalWidth(b'), TotalWidth(b));
  }

  lemma BranchedWeight(n: nat, b: Box, l: Box, r: Box)
    requires ValidBox(b, n) && ValidBox(l, n) && ValidBox(r, n)
    requires TotalWidth(l) < TotalWidth(b) && TotalWidth(r) < TotalWidth(b)
    ensures BoxWeight(n, l) + BoxWeight(n, r) < BoxWeight(n, b)
  {
    ChildrenWeighLess(TotalWidth(l), TotalWidth(r), TotalWidth(b));
  }

  // ----------------------------------------------------- after the barrier

  /** The statuses of all workers joined into the caller's, and the box of the
      winner or the empty box put in. */
  method JoinStatuses(cs: ContractorStatus, statuses: seq<ContractorStatus>, found: int) returns (sat: bool)
    requires cs.Valid() && -1 <= found < |statuses|
    requires forall j | 0 <= j < |statuses| :: statuses[j].Valid() && statuses[j].types == cs.types && statuses[j] != cs
    modifies cs
    ensures cs.Valid() && sat == (found >= 0)
    ensures cs.box == if found >= 0 then statuses[found].box else NoPoints
    ensures cs.output == old(cs.output) + set j, v | 0 <= j < |statuses| && v in statuses[j].output :: v
    ensures cs.used == old(cs.used) + set j, f | 0 <= j < |statuses| && f in statuses[j].used :: f
    ensures cs.unsatWitness == old(cs.unsatWitness) +
              set j, v | 0 <= j < |statuses| && v in statuses[j].unsatWitness :: v
  {
    JoinAll(cs, statuses);
    if found >= 0 {
      cs.box := statuses[found].box;
      return true;
    } else {
      cs.box := NoPoints;
      return false;
    }
  }

  /** The loop over the statuses. */
  method JoinAll(cs: ContractorStatus, statuses: seq<ContractorStatus>)
    requires cs.Valid()
    requires forall j | 0 <= j < |statuses| :: statuses[j].Valid() && statuses[j].types == cs.types && statuses[j] != cs
    modifies cs
    ensures cs.Valid()
    ensures cs.output == old(cs.output) + set j, v | 0 <= j < |statuses| && v in statuses[j].output :: v
    ensures cs.used == old(cs.used) + set j, f | 0 <= j < |statuses| && f in statuses[j].used :: f
    ensures cs.unsatWitness == old(cs.unsatWitness) +
              set j, v | 0 <= j < |statuses| && v in statuses[j].unsatWitness :: v
  {
    for k := 0 to |statuses|
      invariant cs.Valid()
      invariant forall j | 0 <= j < |statuses| :: statuses[j].Valid() && statuses[j].Snap() == old(statuses[j].Snap())
      invariant cs.output == old(cs.output) + set j, v | 0 <= j < k && v in statuses[j].output :: v
      invariant cs.used == old(cs.used) + set j, f | 0 <= j < k && f in statuses[j].used :: f
      invariant cs.unsatWitness == old(cs.unsatWitness) + set j, v | 0 <= j < k && v in statuses[j].unsatWitness :: v
    {
      cs.InplaceJoin(statuses[k]);
    }
  }

  /** The explanation drawn from the joined records of a negative verdict is an
      unsat core of the box before the initial prune. */
  lemma JoinedExplanationIsCore(env: Env, b0: Box, start: Snapshot, stackLeft: bool, jobs: nat, schedule: seq<nat>,
                                run: seq<State>, s: State, E: set<Formula>)
    requires IsRun(env, start, stackLeft, jobs, schedule, run) && jobs > 0
    requires ValidBox(b0, |env.types|) && ValidBox(start.box, |env.types|)
    requires Keeps(env.types, b0, start.box, start.used, start.unsatWitness)
    requires s == run[|run| - 1] && AllDone(s) && s.found == -1
    requires IsExplanation(E, UsedBy(s), WitnessedBy(s))
    ensures UnsatCore(env.types, b0, E)
  {
    RunVerdict(env, start, stackLeft, jobs, schedule, run, s);
    RunInv(env, start, stackLeft, jobs, schedule, run, |run| - 1);
    KeepsTrans(env.types, b0, start.box, NoPoints, start.used, start.unsatWitness, UsedBy(s), WitnessedBy(s));
    ExplanationIsCore(env.types, b0, UsedBy(s), WitnessedBy(s), E);
  }
}
