/** The pruning algorithms (contractor/contractor_*.cc) as methods on a shared
    status. */
module Contractors {
  import opened Symbolic
  import opened Boxes
  import opened Explanations
  import opened ContractorStatuses
  import opened ContractorSpec
  import opened FixpointTheory
  import opened PruneRuns
  import ContractorBuilder

  // ------------------------------------------------ termination condition

  /** `DefaultTerminationCondition`. */
  method DefaultTerminationCondition(old_iv: seq<Interval>, new_iv: seq<Interval>) returns (stop: bool)
    requires |old_iv| == |new_iv|
    ensures stop <==> forall i | 0 <= i < |old_iv| :: !Improved(old_iv[i], new_iv[i])
  {
    var i := 0;
    while i < |old_iv|
      invariant 0 <= i <= |old_iv|
      invariant forall k | 0 <= k < i :: !Improved(old_iv[k], new_iv[k])
    {
      var n, o := new_iv[i], old_iv[i];
      if n.lo == -INF || n.hi == INF {
        // No improvement.
      } else if o.lo == o.hi {
        // Already a point.
      } else {
        var ratio := if o.lo == -INF || o.hi == INF then 0.0 else (n.hi - n.lo) as real / (o.hi - o.lo) as real;
        if 1.0 - ratio >= 0.01 { return false; }
      }
      i := i + 1;
    }
    return true;
  }

  lemma ImprovedShrinks(o: Interval, n: Interval)
    requires ValidInterval(o) && ValidInterval(n) && Within(n, o) && Improved(o, n)
    ensures o != n
  {
    SelfRatio((o.hi - o.lo) as real);
  }

  lemma SelfRatio(w: real)
    requires w != 0.0
    ensures w / w == 1.0
  {
  }

  /** Continuing a fixpoint loop means that some width was lost. */
  lemma ContinueShrinks(a: Box, b: Box, n: nat)
    requires ValidBox(a, n) && ValidBox(b, n) && a.Box? && b.Box? && SubBox(b, a)
    requires exists i :: 0 <= i < n && Improved(a.iv[i], b.iv[i])
    ensures TotalWidth(b) < TotalWidth(a)
  {
    var i :| 0 <= i < n && Improved(a.iv[i], b.iv[i]);
    ImprovedShrinks(a.iv[i], b.iv[i]);
    WidthFalls(b, a, n);
  }

  // -------------------------------------------------------------- leaves

  /** `ContractorIbexFwdbwd::Prune`. */
  method PruneFwdbwd(fo: Foreign, f: Formula, cs: ContractorStatus)
    requires SoundForeign(fo) && cs.Valid() && FreeVars(f) <= Dims(cs.types)
    modifies cs
    ensures cs.Valid() && cs.branchingPoint == old(cs.branchingPoint)
    ensures PruneSpec(fo, cs.types, Fwdbwd(f), old(cs.Snap()), cs.Snap())
    ensures Pruned(fo, cs.types, Fwdbwd(f), cs.branchingPoint, old(cs.Snap()), cs.Snap())
  {
    ghost var s0 := cs.Snap();
    var b := cs.box;
    var r := fo.hc4(f, b);
    Hc4Contract(fo, f, b, |cs.types|);
    cs.box := r;
    assert Changed(r, r) == {};
    cs.output := if r.NoPoints? then Dims(cs.types) else cs.output + Changed(b, r);
    if r.NoPoints? || r != b {
      cs.AddUsedConstraint(f);
      KeepsByFormula(cs.types, b, r, f, cs.used, cs.unsatWitness);
    }
  }

  /** `ContractorInteger::Prune`. */
  method PruneInteger(fo: Foreign, cs: ContractorStatus)
    requires cs.Valid()
    modifies cs
    ensures cs.Valid() && cs.branchingPoint == old(cs.branchingPoint)
    ensures PruneSpec(fo, cs.types, IntegerCtc, old(cs.Snap()), cs.Snap())
    ensures Pruned(fo, cs.types, IntegerCtc, cs.branchingPoint, old(cs.Snap()), cs.Snap())
  {
    ghost var s0 := cs.Snap();
    var n := |cs.types|;
    var i := 0;
    while i < n
      invariant 0 <= i <= n && cs.Valid() && cs.branchingPoint == old(cs.branchingPoint)
      invariant IntegerInv(cs.types, s0, cs.Snap(), i)
    {
      ghost var s := cs.Snap();
      TightenDim(cs, i);
      IntegerStep(cs.types, s0, s, cs.Snap(), i);
      i := i + 1;
    }
  }

  /** The first `i` dimensions have been treated. */
  ghost predicate IntegerInv(types: seq<VarType>, s0: Snapshot, s: Snapshot, i: nat)
    requires ValidBox(s0.box, |types|) && i <= |types|
  {
    && s == TightenedBelow(types, s0, i) && s.used == s0.used && s0.unsatWitness <= s.unsatWitness
    && KeepsSat(types, IntegerCtc, s0.box, s.box) && Keeps(types, s0.box, s.box, s.used, s.unsatWitness)
    && (s.box.Box? ==> s.output == s0.output + Changed(s0.box, s.box))
  }

  lemma IntegerStep(types: seq<VarType>, s0: Snapshot, s: Snapshot, t: Snapshot, i: nat)
    requires ValidBox(s0.box, |types|) && i < |types| && IntegerInv(types, s0, s, i) && t == TightenedAt(types, s, i)
    requires t.unsatWitness == s.unsatWitness + (if s.box.Box? && t.box.NoPoints? then {i} else {})
    requires t.box.Box? ==> t.output == s.output + Changed(s.box, t.box)
    ensures IntegerInv(types, s0, t, i + 1)
  {
    TightenStepKeeps(types, s0.box, s.box, i, s.used, s.unsatWitness, t.unsatWitness);
    if t.box.Box? { ChangesAdd(s0.box, s.box, t.box, |types|); }
  }

  /** One step of the loop: rounds the ends of an integer dimension inwards. */
  method TightenDim(cs: ContractorStatus, i: nat)
    requires cs.Valid() && i < |cs.types|
    modifies cs`box, cs`output, cs`unsatWitness
    ensures cs.Valid() && cs.Snap() == TightenedAt(cs.types, old(cs.Snap()), i)
    ensures cs.unsatWitness == old(cs.unsatWitness) + (if old(cs.box).Box? && cs.box.NoPoints? then {i} else {})
    ensures cs.box.Box? ==> cs.output == old(cs.output) + Changed(old(cs.box), cs.box)
  {
    if IsIntType(cs.types[i]) && cs.box.Box? {
      var iv := cs.box.iv[i];
      if iv.lo % UNIT != 0 || iv.hi % UNIT != 0 {
        var newLb, newUb := CeilUnit(iv.lo), FloorUnit(iv.hi);
        if newLb <= newUb {
          RoundedIsValid(iv);
          cs.box := Box(cs.box.iv[i := Interval(newLb, newUb)]);
          cs.output := cs.output + {i};
        } else {
          cs.box := NoPoints;
          cs.AddUnsatWitness(i);
          cs.output := Dims(cs.types);
        }
      }
    }
  }

  lemma TightenStepKeeps(types: seq<VarType>, b0: Box, b: Box, i: nat, U: set<Formula>, W: set<nat>, W': set<nat>)
    requires ValidBox(b0, |types|) && i < |types| && b == TightenBelow(types, b0, i)
    requires KeepsSat(types, IntegerCtc, b0, b) && Keeps(types, b0, b, U, W)
    requires W <= W' && (b.Box? && TightenAt(types, b, i).NoPoints? ==> i in W')
    ensures KeepsSat(types, IntegerCtc, b0, TightenAt(types, b, i))
    ensures Keeps(types, b0, TightenAt(types, b, i), U, W')
  {
    var r := TightenAt(types, b, i);
    forall p | InBox(b0, p) && Sat(IntegerCtc, types, p) ensures InBox(r, p) {
      assert IntegralAt(types, p, i);
      TightenAtKeeps(types, b, i, p);
    }
    if b.Box? && IsIntType(types[i]) {
      forall x | Contains(b.iv[i], x) && Integral(x) ensures r.Box? && Contains(r.iv[i], x) {
        IntegralTightens(b.iv[i], x);
      }
      KeepsByInteger(types, b, r, i, U, W');
    }
    KeepsTrans(types, b0, b, r, U, W, U, W');
  }

  // --------------------------------------------------------- composition

  /** What the loops leave behind: a fixpoint ends with a round that empties the box
      or improves no dimension; a worklist ends with a common fixpoint, or early,
      and then no dimension has improved; a forall ends without a counterexample
      that narrows the box. */
  ghost predicate Achieves(fo: Foreign, types: seq<VarType>, c: Contractor, branchingPoint: int, s0: Snapshot,
                           s: Snapshot)
    requires SoundForeign(fo)
  {
    match c
    case FixpointCtc(cs) => AllLoopless(cs) ==> exists b :: LastRound(fo, types, cs, s0.box, b, s.box)
    case WorklistCtc(_) => exists worklist ::
      && WorklistOutcome(fo, types, c, s0, s, branchingPoint, worklist)
      && (worklist != {} ==> NoneImproved(types, s0.box, s.box))
    case ForallCtc(_, _, _, inner) =>
      Loopless(inner) && ValidBox(s.box, |types|) && s.box.Box? ==>
        exists side, exhausted :: LoopEnd(fo, types, c, s.box, side, exhausted)
    case _ => true
  }

  /** Both boxes are non-empty, and no dimension has improved by the threshold. */
  predicate NoneImproved(types: seq<VarType>, a: Box, b: Box) {
    && a.Box? && b.Box? && |a.iv| == |b.iv| == |types|
    && forall i | 0 <= i < |types| :: !Improved(a.iv[i], b.iv[i])
  }


  /** `Contractor::Prune`. */
  method Prune(fo: Foreign, c: Contractor, cs: ContractorStatus)
    requires SoundForeign(fo) && cs.Valid() && WellFormed(c, cs.types)
    modifies cs
    ensures cs.Valid() && cs.branchingPoint == old(cs.branchingPoint)
    ensures PruneSpec(fo, cs.types, c, old(cs.Snap()), cs.Snap())
    ensures Pruned(fo, cs.types, c, cs.branchingPoint, old(cs.Snap()), cs.Snap())
    ensures EndsIntegral(c, cs.types, cs.branchingPoint) ==> IntegralBox(cs.types, cs.box)
    ensures Loopless(c) ==> cs.box == Run(fo, cs.types, c, old(cs.box))
    ensures Achieves(fo, cs.types, c, cs.branchingPoint, old(cs.Snap()), cs.Snap())
    decreases c, 8
  {
    match c {
      case Id =>
      case Fwdbwd(f) => PruneFwdbwd(fo, f, cs);
      case IntegerCtc => PruneInteger(fo, cs);
      case SeqCtc(_) => PruneSeq(fo, c, cs);
      case JoinCtc(_) => PruneJoin(fo, c, cs);
      case FixpointCtc(_) => PruneFixpoint(fo, c, cs);
      case WorklistCtc(_) => var _ := PruneWorklist(fo, c, cs);
      case ForallCtc(_, _, _, _) => var _ := PruneForall(fo, c, cs);
    }
    NoIntegersIsIntegral(cs.types, cs.box);
  }

  /** `ContractorSeq::Prune`. */
  method PruneSeq(fo: Foreign, c: Contractor, cs: ContractorStatus)
    requires SoundForeign(fo) && cs.Valid() && c.SeqCtc? && WellFormed(c, cs.types)
    modifies cs
    ensures cs.Valid() && cs.branchingPoint == old(cs.branchingPoint)
    ensures PruneSpec(fo, cs.types, c, old(cs.Snap()), cs.Snap())
    ensures Pruned(fo, cs.types, c, cs.branchingPoint, old(cs.Snap()), cs.Snap())
    ensures Loopless(c) ==> cs.box == RunAll(fo, cs.types, c.cs, old(cs.box))
    decreases c, 4
  {
    ghost var s0 := cs.Snap();
    PruneSpecRefl(fo, cs.types, c, s0);
    var i := 0;
    while i < |c.cs|
      invariant 0 <= i <= |c.cs| && cs.Valid() && cs.branchingPoint == old(cs.branchingPoint)
      invariant PruneSpec(fo, cs.types, c, s0, cs.Snap())
      invariant Loopless(c) ==> cs.box == RunAll(fo, cs.types, c.cs[..i], s0.box)
      invariant s0.box.Box? ==> cs.box.Box? && PrunesAll(fo, cs.types, c.cs[..i], cs.branchingPoint, s0, cs.Snap())
    {
      ghost var b, s := cs.box, cs.Snap();
      PruneChild(fo, c, i, cs, s0);
      if s0.box.Box? { PrunesAllStep(fo, cs.types, c.cs, i, cs.branchingPoint, s0, s, cs.Snap()); }
      if Loopless(c) { RunAllNext(fo, cs.types, c.cs, i, s0.box, b, cs.box); }
      if cs.box.NoPoints? { return; }
      i := i + 1;
    }
    assert c.cs[..|c.cs|] == c.cs;
  }

  /** Prunes by one child of a sequence, fixpoint or worklist `c`, where `s0` is
      the status in which pruning by `c` began. */
  method PruneChild(fo: Foreign, c: Contractor, i: nat, cs: ContractorStatus, ghost s0: Snapshot)
    requires SoundForeign(fo) && cs.Valid() && Conjunctive(c) && i < |c.cs| && WellFormed(c, cs.types)
    requires PruneSpec(fo, cs.types, c, s0, cs.Snap())
    modifies cs
    ensures cs.Valid() && cs.branchingPoint == old(cs.branchingPoint)
    ensures PruneSpec(fo, cs.types, c, s0, cs.Snap())
    ensures PruneSpec(fo, cs.types, c.cs[i], old(cs.Snap()), cs.Snap())
    ensures Pruned(fo, cs.types, c.cs[i], cs.branchingPoint, old(cs.Snap()), cs.Snap())
    ensures Loopless(c.cs[i]) ==> cs.box == Run(fo, cs.types, c.cs[i], old(cs.box))
    decreases c, 0
  {
    ghost var s1 := cs.Snap();
    Prune(fo, c.cs[i], cs);
    ChildIsPart(c, i, cs.types);
    PruneSpecStep(fo, cs.types, c, c.cs[i], s0, s1, cs.Snap());
  }

  // ----------------------------------------------------------------- join

  /** The status while the first `i` alternatives have been joined. */
  ghost predicate JoinSpec(types: seq<VarType>, c: Contractor, i: nat, s0: Snapshot, s: Snapshot)
    requires c.JoinCtc? && i <= |c.cs|
  {
    && ValidBox(s0.box, |types|) && ValidBox(s.box, |types|) && SubBox(s.box, s0.box)
    && s0.used <= s.used <= s0.used + Constraints(c)
    && s0.unsatWitness <= s.unsatWitness
    && SameOff(s0.box, s.box, Inputs(c, types))
    && (forall j, p | 0 <= j < i && InBox(s0.box, p) && Sat(c.cs[j], types, p) :: InBox(s.box, p))
  }

  /** The same, and the status that the first alternatives leave. */
  ghost predicate JoinInv(fo: Foreign, types: seq<VarType>, c: Contractor, i: nat, branchingPoint: int, s0: Snapshot,
                          s: Snapshot)
    requires SoundForeign(fo) && c.JoinCtc? && i <= |c.cs| && ValidBox(s0.box, |types|)
  {
    && JoinSpec(types, c, i, s0, s)
    && (s0.box.Box? ==> PrunesJoin(fo, types, c.cs[..i], branchingPoint, s0, s))
    && (Loopless(c) ==> s.box == RunJoin(fo, types, c.cs[..i], s0.box))
  }

  lemma JoinBegins(fo: Foreign, types: seq<VarType>, c: Contractor, branchingPoint: int, s0: Snapshot, s: Snapshot)
    requires SoundForeign(fo) && c.JoinCtc? && ValidBox(s0.box, |types|) && s == s0.(box := NoPoints)
    ensures JoinInv(fo, types, c, 0, branchingPoint, s0, s)
  {
  }

  lemma JoinEnds(fo: Foreign, types: seq<VarType>, c: Contractor, branchingPoint: int, s0: Snapshot, s: Snapshot)
    requires SoundForeign(fo) && c.JoinCtc? && ValidBox(s0.box, |types|)
    requires JoinInv(fo, types, c, |c.cs|, branchingPoint, s0, s)
    ensures PruneSpec(fo, types, c, s0, s) && Pruned(fo, types, c, branchingPoint, s0, s)
    ensures Loopless(c) ==> s.box == RunJoin(fo, types, c.cs, s0.box)
  {
    assert c.cs[..|c.cs|] == c.cs;
    forall p: Point | InBox(s0.box, p) && Sat(c, types, p) ensures InBox(s.box, p) {
      var j :| 0 <= j < |c.cs| && Sat(c.cs[j], types, p);
    }
  }

  /** Joins one more alternative. */
  method JoinTurn(fo: Foreign, c: Contractor, i: nat, cs: ContractorStatus, saved: ContractorStatus)
    requires SoundForeign(fo) && cs.Valid() && c.JoinCtc? && i < |c.cs| && WellFormed(c, cs.types)
    requires saved.Valid() && saved.types == cs.types && saved != cs && saved.branchingPoint == cs.branchingPoint
    requires JoinInv(fo, cs.types, c, i, cs.branchingPoint, saved.Snap(), cs.Snap())
    modifies cs
    ensures cs.Valid() && cs.branchingPoint == old(cs.branchingPoint)
    ensures JoinInv(fo, cs.types, c, i + 1, cs.branchingPoint, saved.Snap(), cs.Snap())
    decreases c, 3
  {
    ghost var s := cs.Snap();
    var state := new ContractorStatus.Copy(saved);
    Prune(fo, c.cs[i], state);
    ghost var t := state.Snap();
    cs.InplaceJoin(state);
    JoinStep(fo, cs.types, c, i, saved.Snap(), s, t, cs.Snap());
    if saved.box.Box? { PrunesJoinStep(fo, cs.types, c.cs, i, cs.branchingPoint, saved.Snap(), s, t); }
    if Loopless(c) { RunStep(fo, cs.types, c.cs, i, saved.box); }
  }

  lemma JoinStep(fo: Foreign, types: seq<VarType>, c: Contractor, i: nat, s0: Snapshot, s: Snapshot, t: Snapshot,
                 s': Snapshot)
    requires c.JoinCtc? && i < |c.cs| && JoinSpec(types, c, i, s0, s)
    requires PruneSpec(fo, types, c.cs[i], s0, t)
    requires s'.box == HullBox(s.box, t.box) && s'.used == s.used + t.used
    requires s'.unsatWitness == s.unsatWitness + t.unsatWitness
    ensures JoinSpec(types, c, i + 1, s0, s')
  {
    assert Inputs(c.cs[i], types) <= Inputs(c, types);
    assert Constraints(c.cs[i]) <= Constraints(c);
    forall j, p | 0 <= j < i + 1 && InBox(s0.box, p) && Sat(c.cs[j], types, p) ensures InBox(s'.box, p) {
      if j < i {
        SubBoxContains(s.box, s'.box, |types|, p);
      } else {
        SubBoxContains(t.box, s'.box, |types|, p);
      }
    }
  }

  lemma PrunesJoinStep(fo: Foreign, types: seq<VarType>, cs: seq<Contractor>, i: nat, branchingPoint: int,
                       s0: Snapshot, s: Snapshot, t: Snapshot)
    requires i < |cs| && ValidBox(s.box, |types|) && ValidBox(t.box, |types|)
    requires PrunesJoin(fo, types, cs[..i], branchingPoint, s0, s) && Prunes(fo, types, cs[i], branchingPoint, s0, t)
    ensures PrunesJoin(fo, types, cs[..i + 1], branchingPoint, s0, JoinedWith(s, t))
  {
    assert cs[..i + 1][..i] == cs[..i];
  }

  /** `ContractorJoin::Prune`. */
  method PruneJoin(fo: Foreign, c: Contractor, cs: ContractorStatus)
    requires SoundForeign(fo) && cs.Valid() && c.JoinCtc? && WellFormed(c, cs.types)
    modifies cs
    ensures cs.Valid() && cs.branchingPoint == old(cs.branchingPoint)
    ensures PruneSpec(fo, cs.types, c, old(cs.Snap()), cs.Snap())
    ensures Pruned(fo, cs.types, c, cs.branchingPoint, old(cs.Snap()), cs.Snap())
    ensures Loopless(c) ==> cs.box == RunJoin(fo, cs.types, c.cs, old(cs.box))
    decreases c, 4
  {
    ghost var s0 := cs.Snap();
    var saved := new ContractorStatus.Copy(cs);
    cs.box := NoPoints;
    JoinBegins(fo, cs.types, c, cs.branchingPoint, s0, cs.Snap());
    var i := 0;
    while i < |c.cs|
      invariant 0 <= i <= |c.cs| && cs.Valid() && cs.branchingPoint == old(cs.branchingPoint)
      invariant saved.Valid() && saved.types == cs.types && saved.Snap() == s0 && saved != cs
      invariant saved.branchingPoint == cs.branchingPoint
      invariant JoinInv(fo, cs.types, c, i, cs.branchingPoint, s0, cs.Snap())
    {
      JoinTurn(fo, c, i, cs, saved);
      i := i + 1;
    }
    JoinEnds(fo, cs.types, c, cs.branchingPoint, s0, cs.Snap());
  }

  // ------------------------------------------------------------- fixpoint

  /** `r` comes from `b` by one round that empties the box or improves no
      dimension enough to go on. */
  ghost predicate LastRound(fo: Foreign, types: seq<VarType>, cs: seq<Contractor>, b0: Box, b: Box, r: Box)
    requires SoundForeign(fo) && AllLoopless(cs)
  {
    && ValidBox(b, |types|) && SubBox(b, b0) && r == RunAll(fo, types, cs, b)
    && (r.Box? ==> forall i | 0 <= i < |types| :: !Improved(b.iv[i], r.iv[i]))
  }

  /** What the loop has achieved: `n` rounds that went on, or a last one. */
  ghost predicate LoopInv(fo: Foreign, types: seq<VarType>, cs: seq<Contractor>, branchingPoint: int, keepGoing: bool,
                          n: nat, s0: Snapshot, s: Snapshot)
  {
    if keepGoing then Rounds(fo, types, cs, branchingPoint, n, s0, s)
    else PrunesLoop(fo, types, cs, branchingPoint, s0, s)
  }

  lemma LoopStep(fo: Foreign, types: seq<VarType>, cs: seq<Contractor>, branchingPoint: int, n: nat, s0: Snapshot,
                 s: Snapshot, t: Snapshot)
    requires Rounds(fo, types, cs, branchingPoint, n, s0, s) && PrunesAll(fo, types, cs, branchingPoint, s, t)
    ensures LoopInv(fo, types, cs, branchingPoint, GoesOn(s.box, t.box), n + 1, s0, t)
  {
  }

  /** What the loop maintains, and what it leaves when it does not go on. */
  ghost predicate FixpointInv(fo: Foreign, types: seq<VarType>, c: Contractor, branchingPoint: int, keepGoing: bool,
                              n: nat, s0: Snapshot, s: Snapshot)
    requires SoundForeign(fo) && c.FixpointCtc?
  {
    && PruneSpec(fo, types, c, s0, s)
    && (s0.box.Box? ==> LoopInv(fo, types, c.cs, branchingPoint, keepGoing, n, s0, s) && (keepGoing ==> s.box.Box?))
    && (AllSimple(c.cs) && MonotoneForeign(fo) ==> AboveFixpoints(fo, types, c.cs, s0.box, s.box))
    && (!keepGoing && EndsIntegral(c, types, branchingPoint) ==> IntegralBox(types, s.box))
    && (!keepGoing && AllLoopless(c.cs) ==> exists b :: LastRound(fo, types, c.cs, s0.box, b, s.box))
  }

  /** One turn of the loop. */
  method FixpointTurn(fo: Foreign, c: Contractor, cs: ContractorStatus, ghost n: nat, ghost s0: Snapshot)
    returns (keepGoing: bool)
    requires SoundForeign(fo) && cs.Valid() && c.FixpointCtc? && WellFormed(c, cs.types)
    requires FixpointInv(fo, cs.types, c, cs.branchingPoint, true, n, s0, cs.Snap())
    modifies cs
    ensures cs.Valid() && cs.branchingPoint == old(cs.branchingPoint)
    ensures FixpointInv(fo, cs.types, c, cs.branchingPoint, keepGoing, n + 1, s0, cs.Snap())
    ensures keepGoing ==> TotalWidth(cs.box) < TotalWidth(old(cs.box))
    ensures TotalWidth(cs.box) <= TotalWidth(old(cs.box))
    decreases c, 4
  {
    var oldBox := cs.box;
    ghost var above, s := AllSimple(c.cs) && MonotoneForeign(fo), cs.Snap();
    PruneRound(fo, c, cs, s0, above);
    if s0.box.Box? { LoopStep(fo, cs.types, c.cs, cs.branchingPoint, n, s0, s, cs.Snap()); }
    WidthFalls(cs.box, oldBox, |cs.types|);
    var stop := true;
    if cs.box.Box? {
      stop := DefaultTerminationCondition(oldBox.iv, cs.box.iv);
      if !stop { ContinueShrinks(oldBox, cs.box, |cs.types|); }
    }
    assert stop && AllLoopless(c.cs) ==> LastRound(fo, cs.types, c.cs, s0.box, oldBox, cs.box);
    keepGoing := !stop;
  }

  /** `ContractorFixpoint::Prune`. */
  method PruneFixpoint(fo: Foreign, c: Contractor, cs: ContractorStatus)
    requires SoundForeign(fo) && cs.Valid() && c.FixpointCtc? && WellFormed(c, cs.types)
    modifies cs
    ensures cs.Valid() && cs.branchingPoint == old(cs.branchingPoint)
    ensures PruneSpec(fo, cs.types, c, old(cs.Snap()), cs.Snap())
    ensures Pruned(fo, cs.types, c, cs.branchingPoint, old(cs.Snap()), cs.Snap())
    ensures EndsIntegral(c, cs.types, cs.branchingPoint) ==> IntegralBox(cs.types, cs.box)
    ensures AllSimple(c.cs) && MonotoneForeign(fo) ==> AboveFixpoints(fo, cs.types, c.cs, old(cs.box), cs.box)
    ensures AllLoopless(c.cs) ==> exists b :: LastRound(fo, cs.types, c.cs, old(cs.box), b, cs.box)
    decreases c, 5
  {
    ghost var s0 := cs.Snap();
    PruneSpecRefl(fo, cs.types, c, s0);
    var keepGoing := true;
    ghost var n := 0;
    while keepGoing
      invariant cs.Valid() && cs.branchingPoint == old(cs.branchingPoint)
      invariant FixpointInv(fo, cs.types, c, cs.branchingPoint, keepGoing, n, s0, cs.Snap())
      decreases TotalWidth(cs.box), keepGoing
    {
      keepGoing := FixpointTurn(fo, c, cs, n, s0);
      n := n + 1;
    }
  }

  /** The integer contractor comes last. */
  predicate LastIsInteger(cs: seq<Contractor>) {
    cs != [] && cs[|cs| - 1].IntegerCtc?
  }

  /** No branching dimension was given, or an integer one. */
  predicate CallsInteger(types: seq<VarType>, branchingPoint: int) {
    branchingPoint < 0 || branchingPoint in IntDims(types)
  }

  /** Non-empty results of `c` have integer ends in the integer dimensions: there
      are none, or the integer contractor comes last; in a worklist it must also
      have been called, which branching on a continuous dimension does not do. */
  predicate EndsIntegral(c: Contractor, types: seq<VarType>, branchingPoint: int) {
    || IntDims(types) == {}
    || c.IntegerCtc?
    || (c.FixpointCtc? && LastIsInteger(c.cs))
    || (c.WorklistCtc? && LastIsInteger(c.cs) && CallsInteger(types, branchingPoint))
  }

  /** What one round has achieved after `i` contractors, from the box `b0`. */
  ghost predicate RoundInv(fo: Foreign, types: seq<VarType>, c: Contractor, s0: Snapshot, b0: Box, above: bool,
                           s: Snapshot, i: nat)
    requires SoundForeign(fo) && c.FixpointCtc? && i <= |c.cs| && ValidBox(b0, |types|)
  {
    && PruneSpec(fo, types, c, s0, s) && SubBox(s.box, b0)
    && (0 < i && c.cs[i - 1].IntegerCtc? ==> IntegralBox(types, s.box))
    && (above ==> AboveFixpoints(fo, types, c.cs, s0.box, s.box))
    && (AllLoopless(c.cs) ==> s.box == RunAll(fo, types, c.cs[..i], b0))
  }

  /** What it has achieved in the end. */
  ghost predicate RoundDone(fo: Foreign, types: seq<VarType>, c: Contractor, s0: Snapshot, b0: Box, above: bool,
                            s: Snapshot)
    requires SoundForeign(fo) && c.FixpointCtc? && ValidBox(b0, |types|)
  {
    && PruneSpec(fo, types, c, s0, s) && SubBox(s.box, b0)
    && (LastIsInteger(c.cs) || IntDims(types) == {} ==> IntegralBox(types, s.box))
    && (above ==> AboveFixpoints(fo, types, c.cs, s0.box, s.box))
    && (AllLoopless(c.cs) ==> s.box == RunAll(fo, types, c.cs, b0))
  }

  lemma RoundBegins(fo: Foreign, types: seq<VarType>, c: Contractor, s0: Snapshot, above: bool, s: Snapshot)
    requires SoundForeign(fo) && c.FixpointCtc? && PruneSpec(fo, types, c, s0, s)
    requires above ==> AboveFixpoints(fo, types, c.cs, s0.box, s.box)
    ensures RoundInv(fo, types, c, s0, s.box, above, s, 0)
  {
  }

  lemma RoundEnds(fo: Foreign, types: seq<VarType>, c: Contractor, s0: Snapshot, b0: Box, above: bool, s: Snapshot)
    requires SoundForeign(fo) && c.FixpointCtc? && ValidBox(b0, |types|)
    requires RoundInv(fo, types, c, s0, b0, above, s, |c.cs|)
    ensures RoundDone(fo, types, c, s0, b0, above, s)
  {
    assert c.cs[..|c.cs|] == c.cs;
    NoIntegersIsIntegral(types, s.box);
  }

  /** One round of the do-while loop. */
  method PruneRound(fo: Foreign, c: Contractor, cs: ContractorStatus, ghost s0: Snapshot, ghost above: bool)
    requires SoundForeign(fo) && cs.Valid() && c.FixpointCtc? && WellFormed(c, cs.types)
    requires PruneSpec(fo, cs.types, c, s0, cs.Snap())
    requires above ==>
               AllSimple(c.cs) && MonotoneForeign(fo) && AboveFixpoints(fo, cs.types, c.cs, s0.box, cs.box)
    modifies cs
    ensures cs.Valid() && cs.branchingPoint == old(cs.branchingPoint)
    ensures RoundDone(fo, cs.types, c, s0, old(cs.box), above, cs.Snap())
    ensures old(cs.box).Box? ==> PrunesAll(fo, cs.types, c.cs, cs.branchingPoint, old(cs.Snap()), cs.Snap())
    decreases c, 3
  {
    ghost var b0, r0 := cs.box, cs.Snap();
    RoundBegins(fo, cs.types, c, s0, above, cs.Snap());
    var i := 0;
    while i < |c.cs|
      invariant 0 <= i <= |c.cs| && cs.Valid() && cs.branchingPoint == old(cs.branchingPoint)
      invariant RoundInv(fo, cs.types, c, s0, b0, above, cs.Snap(), i)
      invariant b0.Box? ==> cs.box.Box? && PrunesAll(fo, cs.types, c.cs[..i], cs.branchingPoint, r0, cs.Snap())
    {
      ghost var s := cs.Snap();
      PruneRoundChild(fo, c, i, cs, s0, b0, above);
      if b0.Box? { PrunesAllStep(fo, cs.types, c.cs, i, cs.branchingPoint, r0, s, cs.Snap()); }
      if cs.box.NoPoints? { return; }
      i := i + 1;
    }
    assert c.cs[..|c.cs|] == c.cs;
    RoundEnds(fo, cs.types, c, s0, b0, above, cs.Snap());
  }

  /** One contractor of the round. */
  method PruneRoundChild(fo: Foreign, c: Contractor, i: nat, cs: ContractorStatus, ghost s0: Snapshot, ghost b0: Box,
                         ghost above: bool)
    requires SoundForeign(fo) && cs.Valid() && c.FixpointCtc? && WellFormed(c, cs.types) && i < |c.cs|
    requires ValidBox(b0, |cs.types|) && RoundInv(fo, cs.types, c, s0, b0, above, cs.Snap(), i)
    requires above ==> AllSimple(c.cs) && MonotoneForeign(fo)
    modifies cs
    ensures cs.Valid() && cs.branchingPoint == old(cs.branchingPoint)
    ensures RoundInv(fo, cs.types, c, s0, b0, above, cs.Snap(), i + 1)
    ensures Pruned(fo, cs.types, c.cs[i], cs.branchingPoint, old(cs.Snap()), cs.Snap())
    ensures cs.box.NoPoints? ==> RoundDone(fo, cs.types, c, s0, b0, above, cs.Snap())
    decreases c, 2
  {
    ghost var b := cs.box;
    PruneChild(fo, c, i, cs, s0);
    SubBoxTransitive(cs.box, b, b0);
    if above { AboveStep(fo, cs.types, c.cs, i, s0.box, b, cs.box); }
    if AllLoopless(c.cs) { RunAllNext(fo, cs.types, c.cs, i, b0, b, cs.box); }
  }

  lemma NoIntegersIsIntegral(types: seq<VarType>, b: Box)
    requires ValidBox(b, |types|)
    ensures IntDims(types) == {} ==> IntegralBox(types, b)
  {
    forall k | 0 <= k < |types| && IsIntType(types[k]) ensures k in IntDims(types) {
    }
  }

  // ------------------------------------------------------------- worklist

  /** `m` maps each dimension to its readers. */
  predicate IsInputMap(m: seq<set<nat>>, cs: seq<Contractor>, types: seq<VarType>) {
    |m| == |types| && forall i | 0 <= i < |types| :: m[i] == Readers(cs, types, {i})
  }

  /** The constructor of `ContractorWorklistFixpoint`: for each dimension, the
      contractors that read it. */
  method InputToContractors(cs: seq<Contractor>, types: seq<VarType>) returns (m: seq<set<nat>>)
    ensures IsInputMap(m, cs, types)
  {
    m := seq(|types|, _ => {});
    var j := 0;
    while j < |cs|
      invariant 0 <= j <= |cs| && |m| == |types|
      invariant forall i | 0 <= i < |types| :: m[i] == Readers(cs[..j], types, {i})
    {
      var i := 0;
      while i < |types|
        invariant 0 <= i <= |types| && |m| == |types|
        invariant forall k | 0 <= k < i :: m[k] == Readers(cs[..j + 1], types, {k})
        invariant forall k | i <= k < |types| :: m[k] == Readers(cs[..j], types, {k})
      {
        ReadersExtend(cs, types, j, i);
        if i in Inputs(cs[j], types) { m := m[i := m[i] + {j}]; }
        i := i + 1;
      }
      j := j + 1;
    }
    assert cs[..|cs|] == cs;
  }

  lemma ReadersExtend(cs: seq<Contractor>, types: seq<VarType>, j: nat, i: nat)
    requires j < |cs|
    ensures Readers(cs[..j + 1], types, {i}) ==
            Readers(cs[..j], types, {i}) + (if i in Inputs(cs[j], types) then {j} else {})
  {
    assert i in Inputs(cs[j], types) ==> i in Inputs(cs[j], types) * {i};
  }

  /** `UpdateWorklist`. */
  method UpdateWorklist(output: set<nat>, m: seq<set<nat>>, cs: seq<Contractor>, types: seq<VarType>,
                        worklist: set<nat>)
    returns (r: set<nat>)
    requires IsInputMap(m, cs, types)
    requires output <= Dims(types)
    ensures r == worklist + Readers(cs, types, output)
  {
    r := worklist;
    ghost var done: set<nat> := {};
    var i := 0;
    while i < |types|
      invariant 0 <= i <= |types| && done == set v | v in output && v < i
      invariant r == worklist + Readers(cs, types, done)
    {
      if i in output {
        ReadersUnion(cs, types, done, i);
        r := r + m[i];
        done := done + {i};
      }
      i := i + 1;
    }
    assert done == output;
  }

  lemma ReadersUnion(cs: seq<Contractor>, types: seq<VarType>, dims: set<nat>, i: nat)
    ensures Readers(cs, types, dims + {i}) == Readers(cs, types, dims) + Readers(cs, types, {i})
  {
    forall j | 0 <= j < |cs|
      ensures Inputs(cs[j], types) * (dims + {i}) == Inputs(cs[j], types) * dims + Inputs(cs[j], types) * {i}
    {
    }
  }

  /** The first `done` contractors and those in `quiet` have nothing to narrow,
      unless they are queued. */
  ghost predicate FixedExcept(fo: Foreign, types: seq<VarType>, cs: seq<Contractor>, b: Box, done: nat, quiet: set<nat>,
                              worklist: set<nat>)
    requires ValidBox(b, |types|) && done <= |cs|
  {
    forall j | 0 <= j < |cs| && (j < done || j in quiet) && j !in worklist && Simple(cs[j]) ::
      Apply(fo, types, cs[j], b) == b
  }

  lemma UnchangedOn(b: Box, b': Box, vs: set<nat>, n: nat)
    requires ValidBox(b, n) && ValidBox(b', n) && b.Box? && b'.Box? && vs * Changed(b, b') == {}
    ensures forall i | 0 <= i < n && i in vs :: b.iv[i] == b'.iv[i]
  {
    forall i | 0 <= i < n && i in vs ensures b.iv[i] == b'.iv[i] {
      assert i !in vs * Changed(b, b');
    }
  }

  /** Queueing the readers of every changed dimension keeps the rest fixed. */
  lemma FixedStep(fo: Foreign, types: seq<VarType>, cs: seq<Contractor>, k: nat, b: Box, b': Box,
                  done: nat, done': nat, quiet: set<nat>, wl: set<nat>, wl': set<nat>)
    requires LocalForeign(fo) && k < |cs| && done <= done' <= |cs|
    requires ValidBox(b, |types|) && ValidBox(b', |types|) && b.Box? && b'.Box?
    requires (Simple(cs[k]) ==> b' == Apply(fo, types, cs[k], b)) && SameOff(b, b', Inputs(cs[k], types))
    requires FixedExcept(fo, types, cs, b, done, quiet, wl)
    requires done' == done || (done' == done + 1 && k == done)
    requires wl - {k} <= wl' && Readers(cs, types, Changed(b, b')) <= wl'
    ensures FixedExcept(fo, types, cs, b', done', quiet, wl')
  {
    forall j | 0 <= j < |cs| && (j < done' || j in quiet) && j !in wl' && Simple(cs[j])
      ensures Apply(fo, types, cs[j], b') == b'
    {
      assert j !in Readers(cs, types, Changed(b, b'));
      assert Inputs(cs[j], types) * Changed(b, b') == {};
      UnchangedOn(b, b', Inputs(cs[j], types), |types|);
      if j == k {
        assert b'.iv == b.iv;
      } else {
        FixedByLocality(fo, types, cs[j], b, b');
      }
    }
  }

  /** An integer contractor that is sure to have been called, or started from
      integer ends, is queued unless the integer dimensions have integer ends. */
  ghost predicate IntegerSettled(types: seq<VarType>, cs: seq<Contractor>, b0: Box, b: Box, called: bool, done: nat,
                                 worklist: set<nat>)
    requires ValidBox(b0, |types|) && ValidBox(b, |types|)
  {
    forall j | 0 <= j < |cs| && j !in worklist && cs[j].IntegerCtc? ::
      IntegralBox(types, b0) || (j < done && called) ==> IntegralBox(types, b)
  }

  lemma SettledStep(types: seq<VarType>, cs: seq<Contractor>, k: nat, b0: Box, b: Box, b': Box, called: bool,
                    done: nat, done': nat, wl: set<nat>, wl': set<nat>)
    requires k < |cs| && done <= done' <= |cs| && ValidBox(b0, |types|)
    requires ValidBox(b, |types|) && ValidBox(b', |types|) && b.Box? && b'.Box?
    requires cs[k].IntegerCtc? ==> IntegralBox(types, b')
    requires IntegerSettled(types, cs, b0, b, called, done, wl)
    requires done' == done || (done' == done + 1 && k == done)
    requires wl - {k} <= wl' && Readers(cs, types, Changed(b, b')) <= wl'
    ensures IntegerSettled(types, cs, b0, b', called, done', wl')
  {
    forall j | 0 <= j < |cs| && j !in wl' && cs[j].IntegerCtc?
      ensures IntegralBox(types, b0) || (j < done' && called) ==> IntegralBox(types, b')
    {
      if j != k && IntegralBox(types, b) {
        assert j !in Readers(cs, types, Changed(b, b'));
        UnchangedOn(b, b', IntDims(types), |types|);
        forall i | 0 <= i < |types| && IsIntType(types[i]) ensures IntegralInterval(b'.iv[i]) {
          assert i in IntDims(types);
        }
      }
    }
  }

  /** Prunes by contractor `k` with a fresh output set and queues the readers of
      the dimensions it changed. */
  method PruneAndQueue(fo: Foreign, c: Contractor, k: nat, cs: ContractorStatus, m: seq<set<nat>>, wl: set<nat>,
                       ghost s0: Snapshot)
    returns (wl': set<nat>)
    requires SoundForeign(fo) && cs.Valid() && c.WorklistCtc? && k < |c.cs| && WellFormed(c, cs.types)
    requires PruneSpec(fo, cs.types, c, s0, cs.Snap())
    requires IsInputMap(m, c.cs, cs.types)
    modifies cs
    ensures cs.Valid() && cs.branchingPoint == old(cs.branchingPoint)
    ensures PruneSpec(fo, cs.types, c, s0, cs.Snap()) && SubBox(cs.box, old(cs.box))
    ensures SameOff(old(cs.box), cs.box, Inputs(c.cs[k], cs.types))
    ensures Simple(c.cs[k]) ==> cs.box == Apply(fo, cs.types, c.cs[k], old(cs.box))
    ensures cs.box.NoPoints? ==> wl' == {}
    ensures cs.box.Box? ==> wl' == wl + Readers(c.cs, cs.types, Changed(old(cs.box), cs.box))
    ensures old(cs.box).Box? ==>
              Turned(fo, cs.types, c.cs, k, cs.branchingPoint, old(cs.Snap()), wl, cs.Snap(), wl')
    decreases c, 1
  {
    cs.output := {};
    PruneSpecReset(fo, cs.types, c, s0, old(cs.Snap()), {});
    PruneChild(fo, c, k, cs, s0);
    wl' := {};
    if cs.box.Box? {
      wl' := UpdateWorklist(cs.output, m, c.cs, cs.types, wl);
    }
  }

  /** What a run of the worklist keeps track of: that the box is above every common
      fixpoint; that contractors considered, or in `quiet`, are fixed unless
      queued; that the integer contractor is called in phase 1. */
  datatype Track = Track(above: bool, fixed: bool, quiet: set<nat>, called: bool)

  /** The contractors that phase 1 passes over after a branching. */
  function PassedBy(cs: seq<Contractor>, types: seq<VarType>, branchingPoint: int): set<nat> {
    set j | 0 <= j < |cs| && branchingPoint >= 0 && branchingPoint !in Inputs(cs[j], types)
  }

  /** The contractors that phase 1 passes over have nothing to narrow in `b`. They
      have not if `b` is one half of a fixpoint. */
  ghost predicate PassedAreFixed(fo: Foreign, types: seq<VarType>, cs: seq<Contractor>, branchingPoint: int, b: Box)
    requires ValidBox(b, |types|)
  {
    FixedExcept(fo, types, cs, b, 0, PassedBy(cs, types, branchingPoint), {})
  }

  /** The grounds for keeping track of it. */
  ghost predicate Grounds(fo: Foreign, cs: seq<Contractor>, t: Track) {
    (t.above ==> AllSimple(cs) && MonotoneForeign(fo)) && (t.fixed ==> LocalForeign(fo))
  }

  /** What phase 1 calls after a branching. */
  predicate Calls(types: seq<VarType>, cs: seq<Contractor>, branchingPoint: int, t: Track) {
    t.quiet == PassedBy(cs, types, branchingPoint) && (t.called ==> CallsInteger(types, branchingPoint))
  }

  /** A half of a common fixpoint is a fixpoint of the contractors that do not read
      the branched dimension. */
  lemma HalfIsFixed(fo: Foreign, types: seq<VarType>, cs: seq<Contractor>, b: Box, d: nat, half: Box)
    requires LocalForeign(fo) && CommonFixpoint(fo, types, cs, b) && ValidBox(half, |types|)
    requires b.Box? && half.Box? && d < |types| && forall i | 0 <= i < |types| && i != d :: half.iv[i] == b.iv[i]
    ensures PassedAreFixed(fo, types, cs, d, half)
  {
    forall j | 0 <= j < |cs| && j in PassedBy(cs, types, d) && Simple(cs[j])
      ensures Apply(fo, types, cs[j], half) == half
    {
      FixedByLocality(fo, types, cs[j], b, half);
    }
  }

  /** What both phases maintain once the first `done` contractors have been
      considered. */
  ghost predicate WorklistInv(fo: Foreign, types: seq<VarType>, c: Contractor, s0: Snapshot, s: Snapshot, t: Track,
                              done: nat, worklist: set<nat>)
    requires c.WorklistCtc? && done <= |c.cs|
  {
    && PruneSpec(fo, types, c, s0, s)
    && (forall j | j in worklist :: j < |c.cs|)
    && (t.above ==> AboveFixpoints(fo, types, c.cs, s0.box, s.box))
    && (t.fixed ==> FixedExcept(fo, types, c.cs, s.box, done, t.quiet, worklist))
    && IntegerSettled(types, c.cs, s0.box, s.box, t.called, done, worklist)
  }

  /** What holds once the box is empty. */
  ghost predicate EmptiedInv(fo: Foreign, types: seq<VarType>, c: Contractor, s0: Snapshot, s: Snapshot, t: Track)
    requires c.WorklistCtc?
  {
    s.box.NoPoints? && PruneSpec(fo, types, c, s0, s) && (t.above ==> AboveFixpoints(fo, types, c.cs, s0.box, s.box))
  }

  /** What phase 2 has achieved: it leaves nothing queued. */
  ghost predicate QueueDone(fo: Foreign, types: seq<VarType>, c: Contractor, s0: Snapshot, s: Snapshot, t: Track)
    requires c.WorklistCtc?
  {
    && (s.box.Box? ==> WorklistInv(fo, types, c, s0, s, t, |c.cs|, {}))
    && (s.box.NoPoints? ==> EmptiedInv(fo, types, c, s0, s, t))
  }

  /** The box after phase 1 has considered the first `i` contractors: all of them,
      or those that read the branched dimension, up to the first empty box. */
  ghost function FillBox(fo: Foreign, types: seq<VarType>, cs: seq<Contractor>, i: nat, branchingPoint: int,
                         b: Box): (r: Box)
    requires SoundForeign(fo) && AllSimple(cs) && i <= |cs| && ValidBox(b, |types|)
    ensures ValidBox(r, |types|)
  {
    if i == 0 then b
    else
      var r := FillBox(fo, types, cs, i - 1, branchingPoint, b);
      if r.NoPoints? || !(branchingPoint < 0 || branchingPoint in Inputs(cs[i - 1], types)) then r
      else
        ApplyIsValid(fo, types, cs[i - 1], r);
        Apply(fo, types, cs[i - 1], r)
  }

  lemma ApplyIsValid(fo: Foreign, types: seq<VarType>, c: Contractor, b: Box)
    requires SoundForeign(fo) && Simple(c) && ValidBox(b, |types|)
    ensures ValidBox(Apply(fo, types, c, b), |types|)
  {
    if c.Fwdbwd? { Hc4Contract(fo, c.f, b, |types|); }
  }

  lemma {:induction false} FillBoxStaysEmpty(fo: Foreign, types: seq<VarType>, cs: seq<Contractor>, i: nat, k: nat,
                                             branchingPoint: int, b: Box)
    requires SoundForeign(fo) && AllSimple(cs) && i <= k <= |cs| && ValidBox(b, |types|)
    requires FillBox(fo, types, cs, i, branchingPoint, b).NoPoints?
    ensures FillBox(fo, types, cs, k, branchingPoint, b).NoPoints?
    decreases k
  {
    if i == k {
    } else {
      FillBoxStaysEmpty(fo, types, cs, i, k - 1, branchingPoint, b);
    }
  }

  /** Phase 1 leaves a box that improves on none of the dimensions of `b`, and
      the loop returns with whatever is queued. */
  ghost predicate EarlyReturn(fo: Foreign, types: seq<VarType>, cs: seq<Contractor>, branchingPoint: int, b: Box)
    requires SoundForeign(fo) && AllSimple(cs) && ValidBox(b, |types|)
  {
    var r := FillBox(fo, types, cs, |cs|, branchingPoint, b);
    b.Box? && r.Box? && forall i | 0 <= i < |types| :: !Improved(b.iv[i], r.iv[i])
  }

  /** What a run of the worklist leaves, with `worklist` still queued.

      With nothing queued, and no branching point or one half of a fixpoint to
      start from, the box is a fixpoint of all simple contractors, and the
      greatest one below the start box when there are no others. Integer ends are
      left in the integer dimensions when the integer contractor is last and was
      called, or when nothing is queued and the ends were integers to begin with. */
  ghost predicate WorklistOutcome(fo: Foreign, types: seq<VarType>, c: Contractor, s0: Snapshot, s: Snapshot,
                                  branchingPoint: int, worklist: set<nat>)
    requires SoundForeign(fo) && c.WorklistCtc?
  {
    && PruneSpec(fo, types, c, s0, s)
    && (AllSimple(c.cs) && MonotoneForeign(fo) ==> AboveFixpoints(fo, types, c.cs, s0.box, s.box))
    && (LocalForeign(fo) && PassedAreFixed(fo, types, c.cs, branchingPoint, s0.box) && worklist == {} ==>
          && CommonFixpoint(fo, types, c.cs, s.box)
          && (AllSimple(c.cs) && MonotoneForeign(fo) ==> GreatestCommonFixpoint(fo, types, c.cs, s0.box, s.box)))
    && (EndsIntegral(c, types, branchingPoint) ==> IntegralBox(types, s.box))
    && (worklist == {} && LastIsInteger(c.cs) && IntegralBox(types, s0.box) ==> IntegralBox(types, s.box))
    && (AllSimple(c.cs) && EarlyReturn(fo, types, c.cs, branchingPoint, s0.box) ==>
          s.box == FillBox(fo, types, c.cs, |c.cs|, branchingPoint, s0.box))
  }

  ghost function Everything(fo: Foreign, types: seq<VarType>, cs: seq<Contractor>, branchingPoint: int, b0: Box): Track
    requires ValidBox(b0, |types|)
  {
    Track(AllSimple(cs) && MonotoneForeign(fo), LocalForeign(fo) && PassedAreFixed(fo, types, cs, branchingPoint, b0),
          PassedBy(cs, types, branchingPoint), CallsInteger(types, branchingPoint))
  }

  /** Leaving after phase 1. */
  lemma FillOutcome(fo: Foreign, types: seq<VarType>, c: Contractor, s0: Snapshot, s: Snapshot, branchingPoint: int,
                    worklist: set<nat>)
    requires SoundForeign(fo) && c.WorklistCtc? && ValidBox(s0.box, |types|)
    requires
      FillDone(fo, types, c, s0, s, branchingPoint, Everything(fo, types, c.cs, branchingPoint, s0.box), worklist)
    ensures WorklistOutcome(fo, types, c, s0, s, branchingPoint, worklist)
  {
    NoIntegersIsIntegral(types, s.box);
    if s.box.NoPoints? { EmptyIsFixed(fo, types, c.cs); }
  }

  /** Leaving after phase 2. */
  lemma QueueOutcome(fo: Foreign, types: seq<VarType>, c: Contractor, s0: Snapshot, s: Snapshot, branchingPoint: int)
    requires SoundForeign(fo) && c.WorklistCtc? && ValidBox(s0.box, |types|)
    requires QueueDone(fo, types, c, s0, s, Everything(fo, types, c.cs, branchingPoint, s0.box))
    requires AllSimple(c.cs) ==> !EarlyReturn(fo, types, c.cs, branchingPoint, s0.box)
    ensures WorklistOutcome(fo, types, c, s0, s, branchingPoint, {})
  {
    NoIntegersIsIntegral(types, s.box);
    if s.box.NoPoints? { EmptyIsFixed(fo, types, c.cs); }
  }

  lemma NotEarly(fo: Foreign, types: seq<VarType>, c: Contractor, s0: Snapshot, s: Snapshot, branchingPoint: int,
                 t: Track, worklist: set<nat>)
    requires SoundForeign(fo) && c.WorklistCtc? && FillDone(fo, types, c, s0, s, branchingPoint, t, worklist)
    requires s0.box.Box? && s.box.Box? && ValidBox(s0.box, |types|) && ValidBox(s.box, |types|)
    requires exists i :: 0 <= i < |types| && Improved(s0.box.iv[i], s.box.iv[i])
    ensures AllSimple(c.cs) ==> !EarlyReturn(fo, types, c.cs, branchingPoint, s0.box)
  {
  }

  /** `ContractorWorklistFixpoint::Prune`; the result is the worklist on exit.
      The guard of the source's do-while is not modelled because its inner loop
      leaves only by returning. */
  method PruneWorklist(fo: Foreign, c: Contractor, cs: ContractorStatus) returns (worklist: set<nat>)
    requires SoundForeign(fo) && cs.Valid() && c.WorklistCtc? && WellFormed(c, cs.types)
    modifies cs
    ensures cs.Valid() && cs.branchingPoint == old(cs.branchingPoint)
    ensures WorklistOutcome(fo, cs.types, c, old(cs.Snap()), cs.Snap(), cs.branchingPoint, worklist)
    ensures old(cs.box).Box? ==>
              PrunesQueueTo(fo, cs.types, c.cs, cs.branchingPoint, old(cs.Snap()), cs.Snap(), worklist)
    ensures Pruned(fo, cs.types, c, cs.branchingPoint, old(cs.Snap()), cs.Snap())
    ensures worklist != {} ==> NoneImproved(cs.types, old(cs.box), cs.box)
    decreases c, 6
  {
    ghost var s0, t := cs.Snap(), Everything(fo, cs.types, c.cs, cs.branchingPoint, cs.box);
    var m := InputToContractors(c.cs, cs.types);
    var oldBox := cs.box;
    // 1. Fill the queue.
    NothingCalled(fo, cs.types, c, s0, cs.branchingPoint, t);
    worklist := FillQueue(fo, c, cs, m, s0, t);
    ghost var filled, queued := cs.Snap(), worklist;
    FillOutcome(fo, cs.types, c, s0, cs.Snap(), cs.branchingPoint, worklist);
    FillLeaves(fo, cs.types, c, s0, filled, cs.branchingPoint, t, worklist);
    if cs.box.NoPoints? || worklist == {} { return; }
    var stop := DefaultTerminationCondition(oldBox.iv, cs.box.iv);
    if stop { return; }
    NotEarly(fo, cs.types, c, s0, cs.Snap(), cs.branchingPoint, t, worklist);
    // 2. Run the worklist algorithm.
    worklist := RunQueue(fo, c, cs, m, worklist, s0, t);
    QueueOutcome(fo, cs.types, c, s0, cs.Snap(), cs.branchingPoint);
    QueueLeaves(fo, cs.types, c, s0, filled, cs.Snap(), cs.branchingPoint, queued);
  }

  /** Leaving after phase 1, in the terms of the relation. */
  lemma FillLeaves(fo: Foreign, types: seq<VarType>, c: Contractor, s0: Snapshot, s: Snapshot, branchingPoint: int,
                   t: Track, worklist: set<nat>)
    requires SoundForeign(fo) && c.WorklistCtc? && ValidBox(s0.box, |types|)
    requires FillDone(fo, types, c, s0, s, branchingPoint, t, worklist)
    ensures ValidBox(s.box, |types|) && SubBox(s.box, s0.box)
    ensures s0.box.Box? && (worklist == {} || !GoesOn(s0.box, s.box)) ==>
              && PrunesQueueTo(fo, types, c.cs, branchingPoint, s0, s, worklist)
              && Prunes(fo, types, c, branchingPoint, s0, s)
  {
    if s0.box.Box? && (worklist == {} || !GoesOn(s0.box, s.box)) {
      assert PrunesQueueTo(fo, types, c.cs, branchingPoint, s0, s, worklist);
    }
  }

  /** Leaving after phase 2. */
  lemma QueueLeaves(fo: Foreign, types: seq<VarType>, c: Contractor, s0: Snapshot, s: Snapshot, u: Snapshot,
                    branchingPoint: int, queued: set<nat>)
    requires c.WorklistCtc? && ValidBox(s0.box, |types|) && queued != {} && GoesOn(s0.box, s.box)
    requires Filled(fo, types, c.cs, |c.cs|, branchingPoint, s0, s, queued)
    requires PrunesRest(fo, types, c.cs, branchingPoint, s, queued, u)
    ensures PrunesQueueTo(fo, types, c.cs, branchingPoint, s0, u, {}) && Prunes(fo, types, c, branchingPoint, s0, u)
  {
    assert PrunesQueueTo(fo, types, c.cs, branchingPoint, s0, u, {});
  }

  /** What phase 1 maintains once it has considered the first `i` contractors. */
  ghost predicate FillInv(fo: Foreign, types: seq<VarType>, c: Contractor, s0: Snapshot, s: Snapshot,
                          branchingPoint: int, t: Track, i: nat, worklist: set<nat>)
    requires SoundForeign(fo) && c.WorklistCtc? && i <= |c.cs|
  {
    && WorklistInv(fo, types, c, s0, s, t, i, worklist) && (s.box.NoPoints? ==> worklist == {})
    && (0 < i && c.cs[i - 1].IntegerCtc? && t.called ==> IntegralBox(types, s.box))
    && (AllSimple(c.cs) ==> s.box == FillBox(fo, types, c.cs, i, branchingPoint, s0.box))
    && (s0.box.Box? ==> Filled(fo, types, c.cs, i, branchingPoint, s0, s, worklist))
  }

  /** What phase 1 has achieved in the end; an emptied box leaves nothing queued. */
  ghost predicate FillDone(fo: Foreign, types: seq<VarType>, c: Contractor, s0: Snapshot, s: Snapshot,
                           branchingPoint: int, t: Track, worklist: set<nat>)
    requires SoundForeign(fo) && c.WorklistCtc?
  {
    && (s.box.Box? ==> WorklistInv(fo, types, c, s0, s, t, |c.cs|, worklist))
    && (s.box.NoPoints? ==> worklist == {} && EmptiedInv(fo, types, c, s0, s, t))
    && (LastIsInteger(c.cs) && t.called ==> IntegralBox(types, s.box))
    && (AllSimple(c.cs) ==> s.box == FillBox(fo, types, c.cs, |c.cs|, branchingPoint, s0.box))
    && (s0.box.Box? ==> Filled(fo, types, c.cs, |c.cs|, branchingPoint, s0, s, worklist))
  }

  lemma FillEnds(fo: Foreign, types: seq<VarType>, c: Contractor, s0: Snapshot, s: Snapshot, branchingPoint: int,
                 t: Track, worklist: set<nat>)
    requires SoundForeign(fo) && c.WorklistCtc? && FillInv(fo, types, c, s0, s, branchingPoint, t, |c.cs|, worklist)
    ensures FillDone(fo, types, c, s0, s, branchingPoint, t, worklist)
  {
  }

  lemma NothingCalled(fo: Foreign, types: seq<VarType>, c: Contractor, s: Snapshot, branchingPoint: int, t: Track)
    requires SoundForeign(fo) && c.WorklistCtc? && ValidBox(s.box, |types|)
    requires t == Everything(fo, types, c.cs, branchingPoint, s.box)
    ensures FillInv(fo, types, c, s, s, branchingPoint, t, 0, {})
  {
    PruneSpecRefl(fo, types, c, s);
  }

  lemma FilledPast(fo: Foreign, types: seq<VarType>, cs: seq<Contractor>, i: nat, branchingPoint: int, s0: Snapshot,
                   s: Snapshot, wl: set<nat>)
    requires i < |cs| && branchingPoint >= 0 && branchingPoint !in Inputs(cs[i], types)
    requires Filled(fo, types, cs, i, branchingPoint, s0, s, wl)
    ensures Filled(fo, types, cs, i + 1, branchingPoint, s0, s, wl)
  {
    assert FilledBy(fo, types, cs, i, branchingPoint, s0, s, wl);
  }

  /** Passing over a contractor that does not read the branched dimension. */
  lemma PassedOver(fo: Foreign, types: seq<VarType>, c: Contractor, s0: Snapshot, s: Snapshot, branchingPoint: int,
                   t: Track, i: nat, worklist: set<nat>)
    requires SoundForeign(fo) && c.WorklistCtc? && i < |c.cs| &&
             FillInv(fo, types, c, s0, s, branchingPoint, t, i, worklist)
    requires branchingPoint >= 0 && branchingPoint !in Inputs(c.cs[i], types) &&
             Calls(types, c.cs, branchingPoint, t)
    ensures FillInv(fo, types, c, s0, s, branchingPoint, t, i + 1, worklist)
  {
    if s0.box.Box? { FilledPast(fo, types, c.cs, i, branchingPoint, s0, s, worklist); }
  }

  lemma ReadsDimension(cs: seq<Contractor>, types: seq<VarType>, i: nat, d: nat)
    requires i < |cs|
    ensures i in Readers(cs, types, {d}) <==> d in Inputs(cs[i], types)
  {
    if d in Inputs(cs[i], types) { assert d in Inputs(cs[i], types) * {d}; }
  }

  /** One contractor of phase 1, which is passed over unless it reads the branched
      dimension. */
  method FillStep(fo: Foreign, c: Contractor, i: nat, cs: ContractorStatus, m: seq<set<nat>>, wl: set<nat>,
                  ghost s0: Snapshot, ghost t: Track)
    returns (worklist: set<nat>)
    requires SoundForeign(fo) && cs.Valid() && c.WorklistCtc? && i < |c.cs| && WellFormed(c, cs.types)
    requires FillInv(fo, cs.types, c, s0, cs.Snap(), cs.branchingPoint, t, i, wl) && (s0.box.Box? ==> cs.box.Box?)
    requires IsInputMap(m, c.cs, cs.types) && Grounds(fo, c.cs, t)
    requires Calls(cs.types, c.cs, cs.branchingPoint, t)
    modifies cs
    ensures cs.Valid() && cs.branchingPoint == old(cs.branchingPoint)
    ensures cs.box.Box? ==> FillInv(fo, cs.types, c, s0, cs.Snap(), cs.branchingPoint, t, i + 1, worklist)
    ensures cs.box.NoPoints? ==> FillDone(fo, cs.types, c, s0, cs.Snap(), cs.branchingPoint, t, worklist)
    decreases c, 4
  {
    if cs.branchingPoint >= 0 { ReadsDimension(c.cs, cs.types, i, cs.branchingPoint); }
    if cs.branchingPoint < 0 || i in m[cs.branchingPoint] {
      worklist := FillCall(fo, c, i, cs, m, wl, s0, t);
    } else {
      worklist := wl;
      PassedOver(fo, cs.types, c, s0, cs.Snap(), cs.branchingPoint, t, i, wl);
      if cs.box.NoPoints? && AllSimple(c.cs) {
        FillBoxStaysEmpty(fo, cs.types, c.cs, i, |c.cs|, cs.branchingPoint, s0.box);
      }
    }
  }

  /** A contractor that is called. */
  method FillCall(fo: Foreign, c: Contractor, i: nat, cs: ContractorStatus, m: seq<set<nat>>, wl: set<nat>,
                  ghost s0: Snapshot, ghost t: Track)
    returns (worklist: set<nat>)
    requires SoundForeign(fo) && cs.Valid() && c.WorklistCtc? && i < |c.cs| && WellFormed(c, cs.types)
    requires FillInv(fo, cs.types, c, s0, cs.Snap(), cs.branchingPoint, t, i, wl) && (s0.box.Box? ==> cs.box.Box?)
    requires IsInputMap(m, c.cs, cs.types) && Grounds(fo, c.cs, t)
    requires cs.branchingPoint < 0 || cs.branchingPoint in Inputs(c.cs[i], cs.types)
    modifies cs
    ensures cs.Valid() && cs.branchingPoint == old(cs.branchingPoint)
    ensures cs.box.Box? ==> FillInv(fo, cs.types, c, s0, cs.Snap(), cs.branchingPoint, t, i + 1, worklist)
    ensures cs.box.NoPoints? ==> FillDone(fo, cs.types, c, s0, cs.Snap(), cs.branchingPoint, t, worklist)
    decreases c, 3
  {
    worklist := WorklistTurn(fo, c, i, cs, m, wl, wl, i, i + 1, s0, t);
    if AllSimple(c.cs) { FillBoxStep(fo, cs.types, c.cs, i, cs.branchingPoint, s0.box, old(cs.box), cs.box); }
    FilledCall(fo, cs.types, c.cs, i, cs.branchingPoint, s0, old(cs.Snap()), wl, cs.Snap(), worklist);
  }

  /** Phase 1 after one more call. */
  lemma FilledCall(fo: Foreign, types: seq<VarType>, cs: seq<Contractor>, i: nat, branchingPoint: int, s0: Snapshot,
                   s: Snapshot, wl: set<nat>, t: Snapshot, wl': set<nat>)
    requires i < |cs| && (branchingPoint < 0 || branchingPoint in Inputs(cs[i], types))
    requires s0.box.Box? ==> s.box.Box? && Filled(fo, types, cs, i, branchingPoint, s0, s, wl)
    requires s.box.Box? ==> Turned(fo, types, cs, i, branchingPoint, s, wl, t, wl')
    ensures s0.box.Box? ==> Filled(fo, types, cs, i + 1, branchingPoint, s0, t, wl')
    ensures s0.box.Box? && t.box.NoPoints? ==> Filled(fo, types, cs, |cs|, branchingPoint, s0, t, wl')
  {
    if s0.box.Box? {
      assert FilledBy(fo, types, cs, i, branchingPoint, s0, t, wl');
      if t.box.NoPoints? { FilledStays(fo, types, cs, i + 1, |cs|, branchingPoint, s0, t, wl'); }
    }
  }

  lemma {:induction false} FilledStays(fo: Foreign, types: seq<VarType>, cs: seq<Contractor>, i: nat, k: nat,
                                       branchingPoint: int, s0: Snapshot, t: Snapshot, wl: set<nat>)
    requires i <= k <= |cs| && Filled(fo, types, cs, i, branchingPoint, s0, t, wl) && t.box.NoPoints?
    ensures Filled(fo, types, cs, k, branchingPoint, s0, t, wl)
    decreases k
  {
    if i == k {
    } else {
      FilledStays(fo, types, cs, i, k - 1, branchingPoint, s0, t, wl);
      assert FilledBy(fo, types, cs, k - 1, branchingPoint, s0, t, wl);
    }
  }

  lemma FillBoxStep(fo: Foreign, types: seq<VarType>, cs: seq<Contractor>, i: nat, branchingPoint: int, b0: Box,
                    b: Box, b': Box)
    requires SoundForeign(fo) && AllSimple(cs) && i < |cs| && ValidBox(b0, |types|)
    requires b == FillBox(fo, types, cs, i, branchingPoint, b0) && b' == Apply(fo, types, cs[i], b)
    requires branchingPoint < 0 || branchingPoint in Inputs(cs[i], types)
    ensures b' == FillBox(fo, types, cs, i + 1, branchingPoint, b0)
    ensures b'.NoPoints? ==> FillBox(fo, types, cs, |cs|, branchingPoint, b0).NoPoints?
  {
    AppliedToEmpty(fo, types, cs[i], b);
    if b'.NoPoints? { FillBoxStaysEmpty(fo, types, cs, i + 1, |cs|, branchingPoint, b0); }
  }

  lemma AppliedToEmpty(fo: Foreign, types: seq<VarType>, c: Contractor, b: Box)
    requires SoundForeign(fo) && Simple(c) && ValidBox(b, |types|)
    ensures b.NoPoints? ==> Apply(fo, types, c, b).NoPoints?
  {
    if c.Fwdbwd? { Hc4Contract(fo, c.f, b, |types|); }
  }

  /** Phase 1: every contractor, or those reading the branched dimension. */
  method FillQueue(fo: Foreign, c: Contractor, cs: ContractorStatus, m: seq<set<nat>>, ghost s0: Snapshot,
                   ghost t: Track)
    returns (worklist: set<nat>)
    requires SoundForeign(fo) && cs.Valid() && c.WorklistCtc? && WellFormed(c, cs.types)
    requires FillInv(fo, cs.types, c, s0, cs.Snap(), cs.branchingPoint, t, 0, {}) && (s0.box.Box? ==> cs.box.Box?)
    requires IsInputMap(m, c.cs, cs.types) && Grounds(fo, c.cs, t)
    requires Calls(cs.types, c.cs, cs.branchingPoint, t)
    modifies cs
    ensures cs.Valid() && cs.branchingPoint == old(cs.branchingPoint)
    ensures FillDone(fo, cs.types, c, s0, cs.Snap(), cs.branchingPoint, t, worklist)
    decreases c, 5
  {
    worklist := {};
    var i := 0;
    while i < |c.cs|
      invariant 0 <= i <= |c.cs| && cs.Valid() && cs.branchingPoint == old(cs.branchingPoint)
      invariant FillInv(fo, cs.types, c, s0, cs.Snap(), cs.branchingPoint, t, i, worklist)
      invariant s0.box.Box? ==> cs.box.Box?
    {
      worklist := FillStep(fo, c, i, cs, m, worklist, s0, t);
      if cs.box.NoPoints? { return; }
      i := i + 1;
    }
    FillEnds(fo, cs.types, c, s0, cs.Snap(), cs.branchingPoint, t, worklist);
  }

  /** Phase 2. */
  method RunQueue(fo: Foreign, c: Contractor, cs: ContractorStatus, m: seq<set<nat>>, wl: set<nat>,
                  ghost s0: Snapshot, ghost t: Track)
    returns (worklist: set<nat>)
    requires SoundForeign(fo) && cs.Valid() && c.WorklistCtc? && WellFormed(c, cs.types)
    requires FillDone(fo, cs.types, c, s0, cs.Snap(), cs.branchingPoint, t, wl) && wl != {} && cs.box.Box?
    requires IsInputMap(m, c.cs, cs.types) && Grounds(fo, c.cs, t)
    modifies cs
    ensures cs.Valid() && cs.branchingPoint == old(cs.branchingPoint) && worklist == {}
    ensures QueueDone(fo, cs.types, c, s0, cs.Snap(), t)
    ensures PrunesRest(fo, cs.types, c.cs, cs.branchingPoint, old(cs.Snap()), wl, cs.Snap())
    decreases c, 4
  {
    worklist := wl;
    var idx: nat := FindFrom(worklist, 0, |c.cs|).value;
    ghost var p0, turns, first: nat := cs.Snap(), 0, idx;
    while worklist != {}
      invariant cs.Valid() && cs.branchingPoint == old(cs.branchingPoint)
      invariant QueueInv(fo, cs.types, c, cs.branchingPoint, turns, p0, wl, first, s0, cs.Snap(), t, worklist, idx)
      decreases TotalWidth(cs.box), |worklist|
    {
      worklist, idx := QueueTurn(fo, c, cs, m, worklist, idx, turns, p0, wl, first, s0, t);
      turns := turns + 1;
    }
  }

  /** What phase 2 maintains while something is queued, and leaves when nothing is. */
  ghost predicate QueueInv(fo: Foreign, types: seq<VarType>, c: Contractor, branchingPoint: int, n: nat, p0: Snapshot,
                           wl0: set<nat>, first: nat, s0: Snapshot, s: Snapshot, t: Track, wl: set<nat>, k: nat)
    requires c.WorklistCtc?
  {
    if wl == {} then QueueDone(fo, types, c, s0, s, t) && PrunesRest(fo, types, c.cs, branchingPoint, p0, wl0, s)
    else
      && s.box.Box? && WorklistInv(fo, types, c, s0, s, t, |c.cs|, wl) && k in wl && k < |c.cs|
      && FindFrom(wl0, 0, |c.cs|) == Some(first)
      && Queued(fo, types, c.cs, branchingPoint, n, p0, wl0, first, s, wl, k)
  }

  /** One turn of phase 2. */
  method QueueTurn(fo: Foreign, c: Contractor, cs: ContractorStatus, m: seq<set<nat>>, wl: set<nat>, k: nat,
                   ghost n: nat, ghost p0: Snapshot, ghost wl0: set<nat>, ghost first: nat, ghost s0: Snapshot,
                   ghost t: Track)
    returns (worklist: set<nat>, idx: nat)
    requires SoundForeign(fo) && cs.Valid() && c.WorklistCtc? && WellFormed(c, cs.types) && wl != {}
    requires QueueInv(fo, cs.types, c, cs.branchingPoint, n, p0, wl0, first, s0, cs.Snap(), t, wl, k)
    requires IsInputMap(m, c.cs, cs.types) && Grounds(fo, c.cs, t)
    modifies cs
    ensures cs.Valid() && cs.branchingPoint == old(cs.branchingPoint)
    ensures QueueInv(fo, cs.types, c, cs.branchingPoint, n + 1, p0, wl0, first, s0, cs.Snap(), t, worklist, idx)
    ensures TotalWidth(cs.box) < TotalWidth(old(cs.box)) ||
            (TotalWidth(cs.box) == TotalWidth(old(cs.box)) && |worklist| < |wl|)
    decreases c, 3
  {
    ghost var b, s := cs.box, cs.Snap();
    worklist := WorklistTurn(fo, c, k, cs, m, wl - {k}, wl, |c.cs|, |c.cs|, s0, t);
    QueuedTurn(fo, cs.types, c.cs, cs.branchingPoint, n, p0, wl0, first, s, wl, k, cs.Snap(), worklist);
    idx := k;
    WidthFalls(cs.box, b, |cs.types|);
    if worklist != {} {
      QueueMeasure(c.cs, cs.types, b, cs.box, wl, k);
      var next := FindFrom(worklist, k + 1, |c.cs|);
      if next.None? { next := FindFrom(worklist, 0, |c.cs|); }
      idx := next.value;
    }
  }

  lemma QueuedTurn(fo: Foreign, types: seq<VarType>, cs: seq<Contractor>, branchingPoint: int, n: nat, s0: Snapshot,
                   wl0: set<nat>, first: nat, s: Snapshot, wl: set<nat>, k: nat, t: Snapshot, wl': set<nat>)
    requires k < |cs| && k in wl && Queued(fo, types, cs, branchingPoint, n, s0, wl0, first, s, wl, k)
    requires Turned(fo, types, cs, k, branchingPoint, s, wl - {k}, t, wl') && FindFrom(wl0, 0, |cs|) == Some(first)
    ensures wl' == {} ==> PrunesRest(fo, types, cs, branchingPoint, s0, wl0, t)
    ensures forall k': nat | NextOf(wl', k + 1, |cs|) == Some(k') ::
              Queued(fo, types, cs, branchingPoint, n + 1, s0, wl0, first, t, wl', k')
  {
    if wl' == {} { assert Queued(fo, types, cs, branchingPoint, n + 1, s0, wl0, first, t, {}, k); }
  }

  /** Prunes by contractor `k` and queues the readers of what changed. The queue
      is `wl` with `k` possibly taken out already. */
  method WorklistTurn(fo: Foreign, c: Contractor, k: nat, cs: ContractorStatus, m: seq<set<nat>>, queue: set<nat>,
                      ghost wl: set<nat>, ghost done: nat, ghost done': nat, ghost s0: Snapshot, ghost t: Track)
    returns (worklist: set<nat>)
    requires SoundForeign(fo) && cs.Valid() && c.WorklistCtc? && k < |c.cs| && WellFormed(c, cs.types)
    requires IsInputMap(m, c.cs, cs.types) && Grounds(fo, c.cs, t)
    requires wl - {k} <= queue <= wl && done <= done' <= |c.cs|
    requires done' == done || (done' == done + 1 && k == done)
    requires WorklistInv(fo, cs.types, c, s0, cs.Snap(), t, done, wl)
    modifies cs
    ensures cs.Valid() && cs.branchingPoint == old(cs.branchingPoint) && SubBox(cs.box, old(cs.box))
    ensures c.cs[k].IntegerCtc? ==> IntegralBox(cs.types, cs.box)
    ensures Simple(c.cs[k]) ==> cs.box == Apply(fo, cs.types, c.cs[k], old(cs.box))
    ensures cs.box.Box? ==> worklist == queue + Readers(c.cs, cs.types, Changed(old(cs.box), cs.box))
    ensures cs.box.NoPoints? ==> worklist == {}
    ensures old(cs.box).Box? ==>
              Turned(fo, cs.types, c.cs, k, cs.branchingPoint, old(cs.Snap()), queue, cs.Snap(), worklist)
    ensures cs.box.Box? ==> WorklistInv(fo, cs.types, c, s0, cs.Snap(), t, done', worklist)
    ensures cs.box.NoPoints? ==> EmptiedInv(fo, cs.types, c, s0, cs.Snap(), t)
    decreases c, 2
  {
    worklist := PruneAndQueue(fo, c, k, cs, m, queue, s0);
    if t.above { AboveStep(fo, cs.types, c.cs, k, s0.box, old(cs.box), cs.box); }
    if cs.box.Box? {
      if t.fixed {
        FixedStep(fo, cs.types, c.cs, k, old(cs.box), cs.box, done, done', t.quiet, wl, worklist);
      }
      SettledStep(cs.types, c.cs, k, s0.box, old(cs.box), cs.box, t.called, done, done', wl, worklist);
    }
  }

  lemma EmptyIsFixed(fo: Foreign, types: seq<VarType>, cs: seq<Contractor>)
    requires SoundForeign(fo)
    ensures CommonFixpoint(fo, types, cs, NoPoints)
  {
    forall j | 0 <= j < |cs| && Simple(cs[j]) ensures Apply(fo, types, cs[j], NoPoints) == NoPoints {
      if cs[j].Fwdbwd? { Hc4Contract(fo, cs[j].f, NoPoints, |types|); }
    }
  }

  /** Each turn of the worklist loop narrows the box or shortens the queue. */
  lemma QueueMeasure(cs: seq<Contractor>, types: seq<VarType>, b: Box, b': Box, wl: set<nat>, k: nat)
    requires ValidBox(b, |types|) && ValidBox(b', |types|) && b.Box? && b'.Box? && SubBox(b', b) && k in wl
    ensures TotalWidth(b') < TotalWidth(b) ||
            (TotalWidth(b') == TotalWidth(b) &&
             wl - {k} + Readers(cs, types, Changed(b, b')) == wl - {k} && |wl - {k}| < |wl|)
  {
    WidthFalls(b', b, |types|);
    if b' == b {
      assert Changed(b, b') == {};
      assert Readers(cs, types, {}) == {};
    }
  }

  // --------------------------------------------------------------- forall

  /** A point of the box extended by the midpoints of the counterexample. */
  ghost function InstancePoint(p: Point, ce: Box, n: nat, m: nat): Point {
    (v: nat) => if n <= v < n + m then CounterexampleMid(ce, v) as real else p(v)
  }

  /** What the loop of `ContractorForall::Prune` maintains before it records its
      formula. */
  ghost predicate ForallSpec(types: seq<VarType>, c: Contractor, s0: Snapshot, s: Snapshot)
    requires c.ForallCtc?
  {
    && ValidBox(s0.box, |types|) && ValidBox(s.box, |types|) && SubBox(s.box, s0.box)
    && s.used == s0.used && s.unsatWitness == s0.unsatWitness
    && SameOff(s0.box, s.box, FreeVars(c.f))
    && KeepsSat(types, c, s0.box, s.box)
    && (s.box.Box? ==> s.output == s0.output + Changed(s0.box, s.box))
  }

  /** An instance of the matrix at one value of the universal variables keeps
      every point for which the universal formula holds. */
  lemma InstanceKeeps(fo: Foreign, types: seq<VarType>, c: Contractor, b: Box, ce: Box, t0: Snapshot, t: Snapshot,
                      p: Point)
    requires c.ForallCtc? && WellFormed(c, types) && ValidBox(b, |types|) && b.Box?
    requires t0.box == Instance(b, ce, |c.utypes|)
    requires PruneSpec(fo, types + c.utypes, c.inner, t0, t)
    requires InBox(b, p) && Holds(c.f, p)
    ensures t.box.Box? && forall i | 0 <= i < |types| :: Contains(t.box.iv[i], p(i))
  {
    var q := InstancePoint(p, ce, |types|, |c.utypes|);
    InstanceContains(types, c, b, ce, p);
    assert Sat(c.inner, types + c.utypes, q);
    assert InBox(t.box, q);
    forall i | 0 <= i < |types| ensures Contains(t.box.iv[i], p(i)) { assert q(i) == p(i); }
  }

  lemma InstanceContains(types: seq<VarType>, c: Contractor, b: Box, ce: Box, p: Point)
    requires c.ForallCtc? && WellFormed(c, types) && ValidBox(b, |types|) && InBox(b, p) && Holds(c.f, p)
    ensures InBox(Instance(b, ce, |c.utypes|), InstancePoint(p, ce, |types|, |c.utypes|))
    ensures Holds(c.f.body, InstancePoint(p, ce, |types|, |c.utypes|))
  {
    var q := InstancePoint(p, ce, |types|, |c.utypes|);
    forall v: nat | v !in c.f.vars ensures p(v) == q(v) {
      assert !(|types| <= v < |types + c.utypes|);
    }
    assert AgreeOff(p, q, c.f.vars);
  }

  /** Pruning an instance narrows only free variables of the formula. */
  lemma InstanceFrame(fo: Foreign, types: seq<VarType>, c: Contractor, b: Box, ce: Box, t0: Snapshot, t: Snapshot)
    requires c.ForallCtc? && WellFormed(c, types) && ValidBox(b, |types|) && b.Box? && t.box.Box?
    requires t0.box == Instance(b, ce, |c.utypes|)
    requires PruneSpec(fo, types + c.utypes, c.inner, t0, t)
    ensures |t.box.iv| == |types| + |c.utypes|
    ensures forall i | 0 <= i < |types| :: ValidInterval(t.box.iv[i]) && Within(t.box.iv[i], b.iv[i])
    ensures forall i | 0 <= i < |types| && i !in FreeVars(c.f) :: t.box.iv[i] == b.iv[i]
  {
    forall i | 0 <= i < |types| && i !in FreeVars(c.f) ensures t.box.iv[i] == b.iv[i] {
      assert i !in Inputs(c.inner, types + c.utypes);
    }
  }

  /** `ContractorForall::PruneWithCounterexample`. */
  method PruneWithCounterexample(fo: Foreign, c: Contractor, cs: ContractorStatus, ce: Box, ghost s0: Snapshot)
    returns (stop: bool)
    requires SoundForeign(fo) && cs.Valid() && c.ForallCtc? && WellFormed(c, cs.types) && cs.box.Box?
    requires ForallSpec(cs.types, c, s0, cs.Snap())
    modifies cs`box, cs`output
    ensures cs.Valid() && ForallSpec(cs.types, c, s0, cs.Snap())
    ensures cs.box == InstanceRun(fo, cs.types, c, old(cs.box), ce)
    ensures cs.Snap() == Instanced(fo, cs.types, c, old(cs.Snap()), ce)
    ensures stop <==> cs.box.NoPoints? || cs.box == old(cs.box)
    ensures TotalWidth(cs.box) <= TotalWidth(old(cs.box))
    ensures !stop ==> TotalWidth(cs.box) < TotalWidth(old(cs.box))
    decreases c, 3
  {
    var n := |cs.types|;
    var b := cs.box;
    InstanceIsValid(b, ce, n, |c.utypes|);
    var state := new ContractorStatus(cs.types + c.utypes, Instance(b, ce, |c.utypes|), -1);
    ghost var t0 := state.Snap();
    Prune(fo, c.inner, state);
    InstanceStep(fo, cs.types, c, s0, cs.Snap(), ce, t0, state.Snap());
    if state.box.NoPoints? {
      cs.output := Dims(cs.types);
      cs.box := NoPoints;
      return true;
    }
    var changed := CopyBack(cs, state.box.iv);
    WidthFalls(cs.box, b, n);
    return !changed;
  }

  /** One round of counterexample-guided pruning preserves `ForallSpec`. */
  lemma InstanceStep(fo: Foreign, types: seq<VarType>, c: Contractor, s0: Snapshot, s: Snapshot, ce: Box,
                     t0: Snapshot, t: Snapshot)
    requires c.ForallCtc? && WellFormed(c, types) && ForallSpec(types, c, s0, s) && s.box.Box?
    requires t0.box == Instance(s.box, ce, |c.utypes|)
    requires PruneSpec(fo, types + c.utypes, c.inner, t0, t)
    ensures t.box.NoPoints? ==> forall o :: ForallSpec(types, c, s0, s.(box := NoPoints, output := o))
    ensures t.box.Box? ==>
              |t.box.iv| >= |types| && (forall i | 0 <= i < |types| :: ValidInterval(t.box.iv[i])) &&
              var r := Box(t.box.iv[..|types|]);
              SubBox(r, s.box) && ForallSpec(types, c, s0, s.(box := r, output := s.output + Changed(s.box, r)))
  {
    if t.box.Box? {
      InstanceFrame(fo, types, c, s.box, ce, t0, t);
      var r := Box(t.box.iv[..|types|]);
      SubBoxTransitive(r, s.box, s0.box);
      ChangesAdd(s0.box, s.box, r, |types|);
    }
    forall p | InBox(s0.box, p) && Sat(c, types, p)
      ensures t.box.Box? && |t.box.iv| >= |types| && InBox(Box(t.box.iv[..|types|]), p)
    {
      assert InBox(s.box, p);
      InstanceKeeps(fo, types, c, s.box, ce, t0, t, p);
    }
  }

  /** Copies the pruned existential dimensions back into the status box. */
  method CopyBack(cs: ContractorStatus, iv: seq<Interval>) returns (changed: bool)
    requires cs.Valid() && cs.box.Box? && |cs.types| <= |iv|
    requires forall i | 0 <= i < |cs.types| :: ValidInterval(iv[i])
    modifies cs`box, cs`output
    ensures cs.Valid() && cs.box == Box(iv[..|cs.types|])
    ensures cs.output == old(cs.output) + Changed(old(cs.box), cs.box)
    ensures changed <==> cs.box != old(cs.box)
  {
    ghost var b := cs.box;
    var n := |cs.types|;
    changed := false;
    var i := 0;
    while i < n
      invariant 0 <= i <= n && cs.box.Box? && |cs.box.iv| == n
      invariant forall k | 0 <= k < n :: cs.box.iv[k] == if k < i then iv[k] else b.iv[k]
      invariant cs.output == old(cs.output) + Changed(b, cs.box)
      invariant changed <==> cs.box != b
    {
      if cs.box.iv[i] != iv[i] {
        cs.output := cs.output + {i};
        cs.box := Box(cs.box.iv[i := iv[i]]);
        assert cs.box.iv[i] != b.iv[i];
        changed := true;
      }
      i := i + 1;
    }
  }

  /** Why the loop stops at a non-empty box: no counterexample is left, or the
      one found cannot narrow the box. */
  ghost predicate LoopEnd(fo: Foreign, types: seq<VarType>, c: Contractor, b: Box, side: bool, exhausted: bool)
    requires SoundForeign(fo) && c.ForallCtc? && Loopless(c.inner) && ValidBox(b, |types|) && b.Box?
  {
    match fo.solve(c.query, b, side)
    case None => exhausted
    case Some(ce) => !exhausted && InstanceRun(fo, types, c, b, ce) == b
  }

  ghost predicate ForallDecided(fo: Foreign, types: seq<VarType>, c: Contractor, b: Box)
    requires c.ForallCtc? && c.f.Forall?
  {
    forall epsilon, grid | ContractorBuilder.Decides(fo, c.f, types, c.utypes, c.query, epsilon, grid) ::
      ContractorBuilder.WeakenedOver(c.f, types + c.utypes, b, epsilon, grid)
  }

  lemma NoneLeftDecides(fo: Foreign, types: seq<VarType>, c: Contractor, b: Box, side: bool)
    requires c.ForallCtc? && c.f.Forall? && ValidBox(b, |types|) && fo.solve(c.query, b, side).None?
    ensures ForallDecided(fo, types, c, b)
  {
    forall epsilon, grid | ContractorBuilder.Decides(fo, c.f, types, c.utypes, c.query, epsilon, grid)
      ensures ContractorBuilder.WeakenedOver(c.f, types + c.utypes, b, epsilon, grid)
    {
      ContractorBuilder.ExhaustedIsWeakened(fo, c.f, types, c.utypes, c.query, epsilon, b, side, grid);
    }
  }

  /** What the loop has achieved: `n` rounds that narrowed the box, or a last one
      after `n`. */
  ghost predicate InstanceInv(fo: Foreign, types: seq<VarType>, c: Contractor, side: bool, keepGoing: bool, n: nat,
                              s0: Snapshot, s: Snapshot)
    requires SoundForeign(fo) && c.ForallCtc? && Loopless(c.inner)
  {
    if keepGoing then s.box.Box? && Instances(fo, types, c, side, n, s0, s)
    else exists m: Snapshot ::
      Instances(fo, types, c, side, n, s0, m) && LastInstance(fo, types, c, SideAt(side, n), m, s)
  }

  /** What the loop maintains, and what it leaves when it does not go on. */
  ghost predicate ForallInv(fo: Foreign, types: seq<VarType>, c: Contractor, side: bool, keepGoing: bool,
                            exhausted: bool, n: nat, s0: Snapshot, s: Snapshot)
    requires SoundForeign(fo) && c.ForallCtc? && Loopless(c.inner)
  {
    && ForallSpec(types, c, s0, s)
    && (s0.box.Box? ==> InstanceInv(fo, types, c, side, keepGoing, n, s0, s))
    && (!keepGoing && s.box.Box? ==> LoopEnd(fo, types, c, s.box, SideAt(side, n), exhausted))
  }

  lemma InstanceTurn(fo: Foreign, types: seq<VarType>, c: Contractor, side: bool, n: nat, s0: Snapshot, s: Snapshot,
                     ce: Box, stop: bool)
    requires SoundForeign(fo) && c.ForallCtc? && Loopless(c.inner)
    requires InstanceInv(fo, types, c, side, true, n, s0, s) && ValidBox(s.box, |types|)
    requires fo.solve(c.query, s.box, SideAt(side, n)) == Some(ce)
    requires var t := Instanced(fo, types, c, s, ce); stop <==> t.box.NoPoints? || t.box == s.box
    ensures InstanceInv(fo, types, c, side, !stop, if stop then n else n + 1, s0, Instanced(fo, types, c, s, ce))
  {
    if stop { assert LastInstance(fo, types, c, SideAt(side, n), s, Instanced(fo, types, c, s, ce)); }
  }

  /** One turn of the loop: asks for a counterexample and prunes with it. */
  method ForallTurn(fo: Foreign, c: Contractor, cs: ContractorStatus, side: bool, ghost side0: bool, ghost n: nat,
                    ghost s0: Snapshot)
    returns (keepGoing: bool, exhausted: bool)
    requires SoundForeign(fo) && cs.Valid() && c.ForallCtc? && WellFormed(c, cs.types)
    requires side == SideAt(side0, n) && ForallInv(fo, cs.types, c, side0, true, false, n, s0, cs.Snap())
    modifies cs`box, cs`output
    ensures cs.Valid()
    ensures ForallInv(fo, cs.types, c, side0, keepGoing, exhausted, if keepGoing then n + 1 else n, s0, cs.Snap())
    ensures keepGoing ==> !exhausted && TotalWidth(cs.box) < TotalWidth(old(cs.box))
    ensures TotalWidth(cs.box) <= TotalWidth(old(cs.box))
    decreases c, 4
  {
    ghost var s := cs.Snap();
    var ce := if cs.box.NoPoints? then None else fo.solve(c.query, cs.box, side);
    match ce {
      case Some(counterexample) =>
        var stop := PruneWithCounterexample(fo, c, cs, counterexample, s0);
        if s0.box.Box? { InstanceTurn(fo, cs.types, c, side0, n, s0, s, counterexample, stop); }
        keepGoing, exhausted := !stop, false;
      case None =>
        assert s0.box.Box? ==> LastInstance(fo, cs.types, c, side, s, s);
        keepGoing, exhausted := false, true;
    }
  }

  /** The same, counting the turns after which the loop goes on. */
  method ForallNext(fo: Foreign, c: Contractor, cs: ContractorStatus, side: bool, ghost side0: bool, ghost n: nat,
                    ghost s0: Snapshot)
    returns (keepGoing: bool, exhausted: bool, ghost n': nat)
    requires SoundForeign(fo) && cs.Valid() && c.ForallCtc? && WellFormed(c, cs.types)
    requires side == SideAt(side0, n) && ForallInv(fo, cs.types, c, side0, true, false, n, s0, cs.Snap())
    modifies cs`box, cs`output
    ensures cs.Valid()
    ensures ForallInv(fo, cs.types, c, side0, keepGoing, exhausted, n', s0, cs.Snap())
    ensures keepGoing ==> !exhausted && side == !SideAt(side0, n') && TotalWidth(cs.box) < TotalWidth(old(cs.box))
    ensures TotalWidth(cs.box) <= TotalWidth(old(cs.box))
    decreases c, 5
  {
    keepGoing, exhausted := ForallTurn(fo, c, cs, side, side0, n, s0);
    n' := if keepGoing then n + 1 else n;
    SideTurns(side0, n);
  }

  lemma SideTurns(side: bool, n: nat)
    ensures SideAt(side, n + 1) == !SideAt(side, n)
  {
  }

  lemma ForallBegins(fo: Foreign, types: seq<VarType>, c: Contractor, side: bool, s: Snapshot)
    requires SoundForeign(fo) && c.ForallCtc? && Loopless(c.inner) && ValidBox(s.box, |types|)
    ensures ForallInv(fo, types, c, side, true, false, 0, s, s)
  {
  }

  /** The loop of `ContractorForall::Prune`. */
  method ForallLoop(fo: Foreign, c: Contractor, cs: ContractorStatus)
    returns (exhausted: bool, ghost side0: bool, ghost n: nat)
    requires SoundForeign(fo) && cs.Valid() && c.ForallCtc? && WellFormed(c, cs.types)
    modifies cs`box, cs`output
    ensures cs.Valid()
    ensures ForallInv(fo, cs.types, c, side0, false, exhausted, n, old(cs.Snap()), cs.Snap())
    decreases c, 6
  {
    ghost var s0 := cs.Snap();
    var side: bool := *;
    exhausted := false;
    var keepGoing := true;
    n, side0 := 0, side;
    ForallBegins(fo, cs.types, c, side, s0);
    while keepGoing
      invariant cs.Valid() && (keepGoing ==> !exhausted && side == !SideAt(side0, n))
      invariant ForallInv(fo, cs.types, c, side0, keepGoing, exhausted, n, s0, cs.Snap())
      decreases TotalWidth(cs.box), keepGoing
    {
      // Alternate the stacking order.
      side := !side;
      keepGoing, exhausted, n := ForallNext(fo, c, cs, side, side0, n, s0);
    }
  }

  /** `ContractorForall::Prune`: counterexample-guided pruning. The result says
      that the loop ended because no counterexample was left; what is left of the
      box then satisfies the matrix, weakened by the margin of the query, for all
      values of the universal variables. */
  method PruneForall(fo: Foreign, c: Contractor, cs: ContractorStatus) returns (exhausted: bool)
    requires SoundForeign(fo) && cs.Valid() && c.ForallCtc? && WellFormed(c, cs.types)
    modifies cs
    ensures cs.Valid() && cs.branchingPoint == old(cs.branchingPoint)
    ensures PruneSpec(fo, cs.types, c, old(cs.Snap()), cs.Snap())
    ensures Pruned(fo, cs.types, c, cs.branchingPoint, old(cs.Snap()), cs.Snap())
    ensures cs.box.Box? ==> exists side :: LoopEnd(fo, cs.types, c, cs.box, side, exhausted)
    ensures exhausted && cs.box.Box? ==> ForallDecided(fo, cs.types, c, cs.box)
    decreases c, 7
  {
    ghost var s0 := cs.Snap();
    ghost var side, n;
    exhausted, side, n := ForallLoop(fo, c, cs);
    ghost var u := cs.Snap();
    RecordForall(c, cs, s0);
    ForallEnds(fo, cs.types, c, side, n, cs.branchingPoint, exhausted, s0, u, cs.Snap());
  }

  /** The status after the loop, with the formula recorded. */
  function ForallRecorded(f: Formula, u: Snapshot): Snapshot {
    u.(used := u.used + {f},
       unsatWitness := if u.box.NoPoints? then u.unsatWitness + FreeVars(f) else u.unsatWitness)
  }

  method RecordForall(c: Contractor, cs: ContractorStatus, ghost s0: Snapshot)
    requires cs.Valid() && c.ForallCtc? && WellFormed(c, cs.types) && ForallSpec(cs.types, c, s0, cs.Snap())
    modifies cs`used, cs`unsatWitness
    ensures cs.Valid() && cs.Snap() == ForallRecorded(c.f, old(cs.Snap()))
    ensures Keeps(cs.types, s0.box, cs.box, cs.used, cs.unsatWitness)
  {
    cs.AddUsedConstraint(c.f);
    KeepsByFormula(cs.types, s0.box, cs.box, c.f, cs.used, cs.unsatWitness);
  }

  lemma ForallEnds(fo: Foreign, types: seq<VarType>, c: Contractor, side: bool, n: nat, branchingPoint: int,
                   exhausted: bool, s0: Snapshot, u: Snapshot, t: Snapshot)
    requires SoundForeign(fo) && c.ForallCtc? && WellFormed(c, types)
    requires t == ForallRecorded(c.f, u) && ForallInv(fo, types, c, side, false, exhausted, n, s0, u)
    requires Keeps(types, s0.box, t.box, t.used, t.unsatWitness)
    ensures PruneSpec(fo, types, c, s0, t) && Pruned(fo, types, c, branchingPoint, s0, t)
    ensures t.box.Box? ==> LoopEnd(fo, types, c, t.box, SideAt(side, n), exhausted)
    ensures exhausted && t.box.Box? ==> ForallDecided(fo, types, c, t.box)
  {
    if exhausted && t.box.Box? { NoneLeftDecides(fo, types, c, t.box, SideAt(side, n)); }
    if s0.box.Box? { ForallRuns(fo, types, c, side, n, branchingPoint, s0, u); }
  }

  lemma ForallRuns(fo: Foreign, types: seq<VarType>, c: Contractor, side: bool, n: nat, branchingPoint: int,
                   s0: Snapshot, u: Snapshot)
    requires SoundForeign(fo) && c.ForallCtc? && Loopless(c.inner) && ValidBox(s0.box, |types|)
    requires InstanceInv(fo, types, c, side, false, n, s0, u)
    ensures Prunes(fo, types, c, branchingPoint, s0, ForallRecorded(c.f, u))
  {
    var t := ForallRecorded(c.f, u);
    assert PrunesForall(fo, types, c, s0, t);
  }
}
