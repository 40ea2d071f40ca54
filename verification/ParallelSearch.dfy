/** `IcpParallel::CheckSat` (solver/icp_parallel.cc) under a given schedule: the
    workers as objects, each step of which is a step of the step system. */
module ParallelSearch {
  import opened Symbolic
  import opened Boxes
  import opened Explanations
  import opened ContractorStatuses
  import opened ContractorSpec
  import opened PruneRuns
  import opened Contractors
  import opened Icp
  import opened IcpParallel

  /** What the search needs to be sound. */
  ghost predicate SoundEnv(env: Env) {
    && SoundForeign(env.fo) && SearchContractor(env.c, env.types) && WellFormedEvaluators(env.evs, |env.types|)
    && env.precision > 0.0
  }

  /** The configuration of the search is that of the workers. */
  ghost predicate Configures(cfg: IcpConfig, env: Env) {
    cfg.precision == env.precision && cfg.smear == env.smear
  }

  class Workers {
    const statuses: seq<ContractorStatus>
    var stack: seq<Box>
    var count: int
    var found: int
    var pcs: seq<Pc>
    /** Whether the left half goes to the stack at the next branching. */
    var stackLeft: seq<bool>

    ghost predicate Valid(types: seq<VarType>)
      reads this, statuses
    {
      && |pcs| == |stackLeft| == |statuses|
      && (forall j, k | 0 <= j < k < |statuses| :: statuses[j] != statuses[k])
      && forall j | 0 <= j < |statuses| ::
           statuses[j].Valid() && statuses[j].types == types && statuses[j].branchingPoint == -1
    }

    ghost function WorkerAt(j: nat): Worker
      requires j < |pcs| == |stackLeft| == |statuses|
      reads this, statuses
    {
      Worker(pcs[j], statuses[j].Snap(), stackLeft[j])
    }

    /** The state of the step system. */
    ghost function At(): State
      requires |pcs| == |stackLeft| == |statuses|
      reads this, statuses
    {
      State(stack, count, found,
            seq(|pcs|, j requires 0 <= j < |pcs| == |stackLeft| == |statuses| reads this, statuses => WorkerAt(j)))
    }

    constructor (statuses: seq<ContractorStatus>, box: Box, stackLeftBoxFirst: bool)
      ensures this.statuses == statuses && stack == [box] && count == 1 && found == -1
      ensures pcs == seq(|statuses|, _ => TestFound(false)) && stackLeft == seq(|statuses|, _ => stackLeftBoxFirst)
    {
      this.statuses := statuses;
      stack, count, found := [box], 1, -1;
      pcs, stackLeft := seq(|statuses|, _ => TestFound(false)), seq(|statuses|, _ => stackLeftBoxFirst);
    }

    /** Prunes and evaluates the box of worker `i`. */
    method Process(env: Env, cfg: IcpConfig, i: nat)
      requires SoundEnv(env) && Valid(env.types) && Configures(cfg, env)
      requires i < |pcs| && pcs[i] == Pc.Process
      modifies this`pcs, this`stackLeft, statuses[i]
      ensures Valid(env.types) && LocalStep(env, old(WorkerAt(i)), WorkerAt(i))
      ensures pcs[i] != Retire ==>
                Achieves(env.fo, env.types, env.c, -1, old(statuses[i].Snap()), statuses[i].Snap())
      ensures |pcs| == old(|pcs|) && forall j | 0 <= j < |pcs| && j != i :: WorkerAt(j) == old(WorkerAt(j))
    {
      var cs := statuses[i];
      ghost var w := WorkerAt(i);
      var turn := ProcessBox(env.fo, env.c, env.evs, cfg, cs);
      pcs := pcs[i := NextPc(turn, stackLeft[i])];
      if turn.Branched? { stackLeft := stackLeft[i := !stackLeft[i]]; }
      assert TurnStep(env, w, WorkerAt(i), turn);
    }

    /** Worker `i` takes a box. */
    method TakeBox(types: seq<VarType>, i: nat, box: Box, pc: Pc)
      requires Valid(types) && i < |pcs| && ValidBox(box, |types|)
      modifies this`pcs, statuses[i]
      ensures Valid(types) && |pcs| == old(|pcs|)
      ensures WorkerAt(i) == Worker(pc, old(statuses[i].Snap()).(box := box), stackLeft[i])
      ensures forall j | 0 <= j < |pcs| && j != i :: WorkerAt(j) == old(WorkerAt(j))
    {
      statuses[i].box := box;
      pcs := pcs[i := pc];
    }

    /** Worker `i` pops a box, if there is one. */
    method PopBox(types: seq<VarType>, i: nat)
      requires Valid(types) && i < |pcs| && pcs[i] == Pop && forall b | b in stack :: ValidBox(b, |types|)
      modifies this`pcs, this`stack, statuses[i]
      ensures Valid(types) && |pcs| == old(|pcs|)
      ensures forall j | 0 <= j < |pcs| && j != i :: WorkerAt(j) == old(WorkerAt(j))
      ensures if old(stack) == [] then stack == [] && WorkerAt(i) == old(WorkerAt(i)).(pc := TestFound(false))
              else
                && stack == old(stack)[..|old(stack)| - 1]
                && WorkerAt(i) ==
                   Worker(Pc.Process, old(statuses[i].Snap()).(box := old(stack)[|old(stack)| - 1]), stackLeft[i])
    {
      if stack == [] {
        pcs := pcs[i := TestFound(false)];
      } else {
        var top := stack[|stack| - 1];
        stack := stack[..|stack| - 1];
        TakeBox(types, i, top, Pc.Process);
      }
    }

    /** Worker `i` accesses the counter or the flag. */
    method Access(env: Env, i: nat)
      requires Valid(env.types) && i < |pcs|
      requires pcs[i].TestFound? || pcs[i].TestCount? || pcs[i].Retire? || pcs[i].Announce? || pcs[i].Grow?
      modifies this`pcs, this`count, this`found
      ensures Valid(env.types) && |pcs| == old(|pcs|) && Step(env, old(At()), At(), i)
    {
      ghost var s := At();
      match pcs[i] {
        case TestFound(carrying) =>
          pcs := pcs[i := if found == -1 then TestCount(carrying) else Done(carrying)];
        case TestCount(carrying) =>
          pcs := pcs[i := if count > 0 then (if carrying then Pc.Process else Pop) else Done(carrying)];
        case Retire => count, pcs := count - 1, pcs[i := TestFound(false)];
        case Announce => found, pcs := i, pcs[i := Done(true)];
        case Grow(toStack, toKeep) => count, pcs := count + 1, pcs[i := Push(toStack, toKeep)];
      }
      assert At().workers == s.workers[i := At().workers[i]];
    }

    /** One access of worker `i` to the shared state, or the processing of its box. */
    method Advance(env: Env, cfg: IcpConfig, i: nat)
      requires SoundEnv(env) && Valid(env.types) && Configures(cfg, env)
      requires i < |pcs| && !pcs[i].Done? && pcs[i] != Crashed
      requires forall b | b in InPlay(At()) :: ValidBox(b, |env.types|)
      modifies this, statuses[i]
      ensures Valid(env.types) && |pcs| == old(|pcs|) && Step(env, old(At()), At(), i)
    {
      ghost var s := At();
      if pcs[i].Pop? {
        PopBox(env.types, i);
      } else if pcs[i].Process? {
        Process(env, cfg, i);
      } else if pcs[i].Push? {
        var toStack, toKeep := pcs[i].toStack, pcs[i].toKeep;
        assert toKeep in BoxesOf(At().workers[i]) && toKeep in InPlay(At());
        stack := stack + [toStack];
        TakeBox(env.types, i, toKeep, TestFound(true));
      } else {
        Access(env, i);
      }
      assert At().workers == s.workers[i := At().workers[i]];
    }
  }

  // ---------------------------------------------------------------- CheckSat

  /** The copies of the status that the workers start with. */
  method CopyStatuses(cs: ContractorStatus, jobs: nat) returns (statuses: seq<ContractorStatus>)
    requires cs.Valid()
    ensures |statuses| == jobs && (forall j, k | 0 <= j < k < jobs :: statuses[j] != statuses[k])
    ensures forall j | 0 <= j < jobs ::
              && fresh(statuses[j]) && statuses[j].Valid() && statuses[j].types == cs.types
              && statuses[j].branchingPoint == cs.branchingPoint && statuses[j].Snap() == cs.Snap()
  {
    statuses := [];
    while |statuses| < jobs
      invariant |statuses| <= jobs && (forall j, k | 0 <= j < k < |statuses| :: statuses[j] != statuses[k])
      invariant forall j | 0 <= j < |statuses| ::
                && fresh(statuses[j]) && statuses[j].Valid() && statuses[j].types == cs.types
                && statuses[j].branchingPoint == cs.branchingPoint && statuses[j].Snap() == cs.Snap()
    {
      var copy := new ContractorStatus.Copy(cs);
      statuses := statuses + [copy];
    }
  }

  /** Lets the workers step in the order of the schedule, which makes the run of the
      step system under it. An entry for a worker that has left, or that does not
      exist, grants nothing. */
  method RunWorkers(env: Env, cfg: IcpConfig, workers: Workers, schedule: seq<nat>, ghost start: Snapshot)
    returns (ghost run: seq<State>)
    requires SoundEnv(env) && workers.Valid(env.types) && Configures(cfg, env)
    requires workers.statuses != [] && ValidBox(start.box, |env.types|)
    requires Init(workers.At(), start, cfg.stackLeftBoxFirst, |workers.statuses|)
    modifies workers, workers.statuses
    ensures workers.Valid(env.types)
    ensures IsRun(env, start, cfg.stackLeftBoxFirst, |workers.statuses|, schedule, run)
    ensures run[|run| - 1] == workers.At()
  {
    run := [workers.At()];
    assert schedule[..0] == [];
    for k := 0 to |schedule|
      invariant workers.Valid(env.types)
      invariant IsRun(env, start, cfg.stackLeftBoxFirst, |workers.statuses|, schedule[..k], run)
      invariant run[|run| - 1] == workers.At()
    {
      RunStaysValid(env, start, cfg.stackLeftBoxFirst, |workers.statuses|, schedule[..k], run);
      Grant(env, cfg, workers, schedule[k]);
      RunGrows(env, start, cfg.stackLeftBoxFirst, |workers.statuses|, schedule, k, run, workers.At());
      run := run + [workers.At()];
    }
    assert schedule[..|schedule|] == schedule;
  }

  /** One entry of the schedule. */
  method Grant(env: Env, cfg: IcpConfig, workers: Workers, i: nat)
    requires SoundEnv(env) && workers.Valid(env.types) && Configures(cfg, env)
    requires forall b | b in InPlay(workers.At()) :: ValidBox(b, |env.types|)
    modifies workers, workers.statuses
    ensures workers.Valid(env.types) && Granted(env, old(workers.At()), workers.At(), i)
  {
    if i < |workers.pcs| && !workers.pcs[i].Done? && workers.pcs[i] != Crashed { workers.Advance(env, cfg, i); }
  }

  lemma RunStaysValid(env: Env, start: Snapshot, stackLeft: bool, jobs: nat, schedule: seq<nat>, run: seq<State>)
    requires IsRun(env, start, stackLeft, jobs, schedule, run) && jobs > 0 && ValidBox(start.box, |env.types|)
    ensures forall b | b in InPlay(run[|run| - 1]) :: ValidBox(b, |env.types|)
  {
    RunInv(env, start, stackLeft, jobs, schedule, run, |schedule|);
  }

  lemma RunGrows(env: Env, start: Snapshot, stackLeft: bool, jobs: nat, schedule: seq<nat>, k: nat, run: seq<State>,
                 s: State)
    requires k < |schedule| && IsRun(env, start, stackLeft, jobs, schedule[..k], run)
    requires Granted(env, run[k], s, schedule[k])
    ensures IsRun(env, start, stackLeft, jobs, schedule[..k + 1], run + [s])
  {
    var longer, grants := run + [s], schedule[..k + 1];
    forall j | 0 <= j < |grants| ensures Granted(env, longer[j], longer[j + 1], grants[j]) {
      if j < k { assert Granted(env, run[j], run[j + 1], schedule[..k][j]); }
    }
  }

  /** Runs the workers from the status. */
  method Search(env: Env, cfg: IcpConfig, jobs: nat, schedule: seq<nat>, cs: ContractorStatus)
    returns (workers: Workers, ghost run: seq<State>)
    requires cs.Valid() && cs.box.Box? && cs.branchingPoint == -1 && jobs > 0
    requires SoundEnv(env) && env.types == cs.types && Configures(cfg, env)
    ensures fresh(workers) && workers.Valid(env.types) && |workers.statuses| == jobs && fresh(workers.statuses)
    ensures IsRun(env, cs.Snap(), cfg.stackLeftBoxFirst, jobs, schedule, run) && run[|run| - 1] == workers.At()
  {
    var statuses := CopyStatuses(cs, jobs);
    workers := new Workers(statuses, cs.box, cfg.stackLeftBoxFirst);
    run := RunWorkers(env, cfg, workers, schedule, cs.Snap());
  }

  /** What is drawn from the state `s` in which the schedule leaves the workers: a
      verdict when all of them have left, with their records joined into the
      status and the box of the winner. */
  ghost predicate Concluded(start: Snapshot, s: State, t: Snapshot, verdict: Verdict) {
    if exists j :: 0 <= j < |s.workers| && s.workers[j].pc == Crashed then verdict == Failed && t == start
    else if !AllDone(s) then verdict == Unfinished && t == start
    else
      && -1 <= s.found < |s.workers|
      && verdict == (if s.found >= 0 then Satisfiable else Unsatisfiable)
      && t == Snapshot(if s.found >= 0 then s.workers[s.found].status.box else NoPoints,
                       start.output + OutputBy(s), start.used + UsedBy(s), start.unsatWitness + WitnessedBy(s))
  }

  function OutputBy(s: State): set<nat> {
    set j, v | 0 <= j < |s.workers| && v in s.workers[j].status.output :: v
  }

  /** What a run that has been concluded says about the status it started from. */
  lemma ConclusionMeans(env: Env, start: Snapshot, stackLeft: bool, jobs: nat, schedule: seq<nat>, run: seq<State>,
                        t: Snapshot, verdict: Verdict)
    requires IsRun(env, start, stackLeft, jobs, schedule, run) && jobs > 0 && ValidBox(start.box, |env.types|)
    requires start.box.Box? && Concluded(start, run[|run| - 1], t, verdict)
    ensures ValidBox(t.box, |env.types|) && Recorded(Constraints(env.c) + FormulasOf(env.evs), start, t)
    ensures verdict.Unsatisfiable? <==> t.box.NoPoints?
    ensures verdict.Satisfiable? ==> DeltaSat(env.fo, env.evs, t.box, env.precision)
    ensures NeverAborts(env.types, env.c, env.evs, -1) ==> !verdict.Failed?
    ensures verdict.Unsatisfiable? ==> Refuted(env.types, start.box, t.used, t.unsatWitness)
  {
    var s := run[|run| - 1];
    RunVerdict(env, start, stackLeft, jobs, schedule, run, s);
    RunInv(env, start, stackLeft, jobs, schedule, run, |run| - 1);
    if verdict.Satisfiable? {
      CertifiedIsSat(env, s.workers[s.found]);
    } else if verdict.Unsatisfiable? {
      KeepsTrans(env.types, start.box, NoPoints, NoPoints, UsedBy(s), WitnessedBy(s), t.used, t.unsatWitness);
    }
  }

  /** Draws the verdict from the workers. */
  method Conclude(cs: ContractorStatus, workers: Workers) returns (verdict: Verdict)
    requires cs.Valid() && workers.Valid(cs.types) && -1 <= workers.found < |workers.statuses|
    requires forall j | 0 <= j < |workers.statuses| :: workers.statuses[j] != cs
    modifies cs
    ensures cs.Valid() && Concluded(old(cs.Snap()), old(workers.At()), cs.Snap(), verdict)
  {
    ghost var start, s := cs.Snap(), workers.At();
    if j :| 0 <= j < |workers.pcs| && workers.pcs[j] == Crashed {
      assert s.workers[j].pc == Crashed;
      return Failed;
    }
    assert !exists j :: 0 <= j < |s.workers| && s.workers[j].pc == Crashed;
    if j :| 0 <= j < |workers.pcs| && !workers.pcs[j].Done? {
      assert !s.workers[j].pc.Done?;
      return Unfinished;
    }
    assert AllDone(s);
    var sat := JoinStatuses(cs, workers.statuses, workers.found);
    verdict := if sat then Satisfiable else Unsatisfiable;
    forall j | 0 <= j < |s.workers| ensures s.workers[j].status == old(workers.statuses[j].Snap()) { }
  }

  /** The box is pruned once; if that does not empty it, the workers run from the
      result under the schedule, and the verdict is drawn from where they stand
      when it ends. */
  ghost predicate SearchesInParallel(env: Env, cfg: IcpConfig, jobs: nat, schedule: seq<nat>, s: Snapshot, t: Snapshot,
                                     verdict: Verdict)
  {
    exists m: Snapshot ::
      && Pruned(env.fo, env.types, env.c, -1, s, m)
      && if m.box.NoPoints? then verdict == Unsatisfiable && t == m
         else exists run ::
           && IsRun(env, m, cfg.stackLeftBoxFirst, jobs, schedule, run)
           && Concluded(m, run[|run| - 1], t, verdict)
  }

  /** The environment of the workers. */
  function EnvOf(fo: Foreign, types: seq<VarType>, c: Contractor, evs: seq<FormulaEvaluator>, cfg: IcpConfig): Env {
    Env(fo, types, c, evs, cfg.precision, cfg.smear)
  }

  /** `IcpParallel::CheckSat`, under any schedule. It cannot fail when the
      contractor leaves integer ends without a branching point, given that the
      constraints have no Boolean variable. */
  method CheckSat(fo: Foreign, c: Contractor, evs: seq<FormulaEvaluator>, cfg: IcpConfig, jobs: nat,
                  schedule: seq<nat>, cs: ContractorStatus)
    returns (verdict: Verdict)
    requires cs.Valid() && cs.branchingPoint == -1 && jobs > 0
    requires SoundEnv(EnvOf(fo, cs.types, c, evs, cfg))
    modifies cs
    ensures cs.Valid() && SubBox(cs.box, old(cs.box))
    ensures old(cs.used) <= cs.used <= old(cs.used) + Constraints(c) + FormulasOf(evs)
    ensures old(cs.unsatWitness) <= cs.unsatWitness
    ensures verdict.Unsatisfiable? <==> cs.box.NoPoints?
    ensures verdict.Satisfiable? ==> DeltaSat(fo, evs, cs.box, cfg.precision)
    ensures NeverAborts(cs.types, c, evs, -1) ==> !verdict.Failed?
    ensures verdict.Unsatisfiable? ==> Refuted(cs.types, old(cs.box), cs.used, cs.unsatWitness)
    ensures SearchesInParallel(EnvOf(fo, cs.types, c, evs, cfg), cfg, jobs, schedule, old(cs.Snap()), cs.Snap(),
                               verdict)
  {
    var env := EnvOf(fo, cs.types, c, evs, cfg);
    ghost var b0 := cs.box;
    Prune(fo, c, cs);
    if cs.box.NoPoints? { return Unsatisfiable; }
    ghost var m := cs.Snap();
    var workers, run := Search(env, cfg, jobs, schedule, cs);
    RunInv(env, m, cfg.stackLeftBoxFirst, jobs, schedule, run, |schedule|);
    verdict := Conclude(cs, workers);
    ConclusionMeans(env, m, cfg.stackLeftBoxFirst, jobs, schedule, run, cs.Snap(), verdict);
    SubBoxTransitive(cs.box, m.box, b0);
    if verdict.Unsatisfiable? {
      KeepsTrans(cs.types, b0, m.box, NoPoints, m.used, m.unsatWitness, cs.used, cs.unsatWitness);
    }
  }
}
