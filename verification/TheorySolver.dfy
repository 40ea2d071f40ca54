/** The theory solver (solver/theory_solver.cc): filtering of assertions into the
    box, assembly of the contractor and the evaluators, and the verdict with its
    model or its explanation. */
module TheorySolvers {
  import opened Symbolic
  import opened Boxes
  import opened Explanations
  import opened ContractorStatuses
  import opened ContractorSpec
  import opened PruneRuns
  import opened Contractors
  import opened Nnf
  import opened Delta
  import opened Evaluator
  import opened Filter
  import opened ForallQuery
  import opened ContractorBuilder
  import opened Icp
  import IcpParallel
  import ParallelSearch

  /** The options read here; `order` sorts the contractors by their number of
      inputs, ascending or descending. With more than one job the search is
      parallel, and its workers step in the order of the schedule. */
  datatype TheoryConfig = TheoryConfig(
    precision: real,
    useWorklist: bool,
    order: Option<bool>,
    stackLeftBoxFirst: bool,
    seeds: Box -> seq<Box>,
    jobs: nat,
    schedule: Box -> seq<nat>,
    smear: Option<(Box, nat) -> real>)

  /** The literals of the theory: relational ones, and foralls whose matrix is a
      clause. The universal variables of a forall are the dimensions after the
      box, of the types `utypes(f)`. */
  ghost predicate IsAssertion(f: Formula, types: seq<VarType>, utypes: Formula -> seq<VarType>) {
    if f.Forall? then
      && ForallOver(f, types, utypes(f))
      && Compile(Convert(f.body, true)).Some?
      && AllEvaluable(Literals(f.body), |types| + |utypes(f)|) && NoBooleans(f.body, types + utypes(f))
    else
      Evaluable(f, |types|) && VarsBelow(FreeVars(f), |types|) && NoBooleans(f, types)
  }

  ghost predicate AreAssertions(fs: seq<Formula>, types: seq<VarType>, utypes: Formula -> seq<VarType>) {
    forall i | 0 <= i < |fs| :: IsAssertion(fs[i], types, utypes)
  }

  lemma AssertionVars(f: Formula, types: seq<VarType>, utypes: Formula -> seq<VarType>)
    requires IsAssertion(f, types, utypes)
    ensures FreeVars(f) <= Dims(types) && VarsBelow(FreeVars(f), |types|) && NoBooleans(f, types)
  {
    if f.Forall? {
      forall v | v in FreeVars(f) && v < |types| ensures types[v] != BOOLEAN {
        assert v in FreeVars(f.body) && (types + utypes(f))[v] == types[v];
      }
    }
  }

  function SetOf<T>(s: seq<T>): set<T> {
    set x | x in s
  }

  // ------------------------------------------------------------- filtering

  /** What is left of the box lies inside the bound, if `f` is one. */
  predicate BoundAbsorbed(f: Formula, b: Box) {
    b.Box? && AsBound(f, true).Some? ==> InsideBound(f, b)
  }

  lemma AbsorbedInLess(f: Formula, b: Box, b': Box)
    requires BoundAbsorbed(f, b) && SubBox(b', b)
    ensures BoundAbsorbed(f, b')
  {
    if b'.Box? && AsBound(f, true).Some? { InsideBoundOfLarger(f, b', b); }
  }

  /** The status after an assertion has been absorbed: it is recorded if it changed
      the box, and its variables if it emptied it. */
  function FilteredTo(types: seq<VarType>, f: Formula, s: Snapshot): Snapshot
    requires ValidBox(s.box, |types|) && BoundInScope(f, true, |types|)
  {
    var r := FilteredBox(types, f, true, s.box);
    if r == s.box then s else if r.NoPoints? then RefutedBy(s, f) else s.(box := r, used := s.used + {f})
  }

  /** Absorbing one assertion; `stop` when filtering ends with it. Whether it is
      recorded over a box that is already empty is up to the interval library. */
  predicate Absorbs(types: seq<VarType>, f: Formula, s: Snapshot, t: Snapshot, stop: bool) {
    && ValidBox(s.box, |types|) && BoundInScope(f, true, |types|)
    && if s.box.Box? then
         t == FilteredTo(types, f, s) && (stop <==> IsFiltered(types, f, true) && t.box.NoPoints?)
       else if stop then IsFiltered(types, f, true) && t == RefutedBy(s, f)
       else t == s || (!IsFiltered(types, f, true) && t == RefutedBy(s, f))
  }

  /** Absorbing assertions one after the other, without a stop. */
  ghost predicate Filters(types: seq<VarType>, fs: seq<Formula>, s: Snapshot, t: Snapshot) {
    if fs == [] then t == s
    else exists m: Snapshot ::
      && ValidBox(m.box, |types|) && Filters(types, fs[..|fs| - 1], s, m)
      && Absorbs(types, fs[|fs| - 1], m, t, false)
  }

  lemma FiltersOneMore(types: seq<VarType>, fs: seq<Formula>, k: nat, s: Snapshot, m: Snapshot, t: Snapshot)
    requires k < |fs| && Filters(types, fs[..k], s, m) && Absorbs(types, fs[k], m, t, false)
    ensures Filters(types, fs[..k + 1], s, t)
  {
    assert fs[..k + 1][..k] == fs[..k];
  }

  /** The assertions that still need a contractor. */
  function Kept(types: seq<VarType>, fs: seq<Formula>): seq<Formula> {
    if fs == [] then []
    else
      var f := fs[|fs| - 1];
      Kept(types, fs[..|fs| - 1]) + if BoundInScope(f, true, |types|) && IsFiltered(types, f, true) then [] else [f]
  }

  /** Absorbs one assertion into the box of the status and says whether it still
      needs a contractor. */
  method Absorb(f: Formula, cs: ContractorStatus) returns (keep: bool, changed: bool)
    requires cs.Valid() && FreeVars(f) <= Dims(cs.types)
    modifies cs
    ensures cs.Valid() && cs.branchingPoint == old(cs.branchingPoint) && SubBox(cs.box, old(cs.box))
    ensures old(cs.used) <= cs.used <= old(cs.used) + {f} && old(cs.unsatWitness) <= cs.unsatWitness
    ensures Keeps(cs.types, old(cs.box), cs.box, cs.used, cs.unsatWitness)
    ensures BoundInScope(f, true, |cs.types|) && (keep <==> !IsFiltered(cs.types, f, true))
    ensures Absorbs(cs.types, f, old(cs.Snap()), cs.Snap(), !keep && changed && cs.box.NoPoints?)
    ensures !keep && !StrictAtEdge(f) ==> forall p | InBox(cs.box, p) :: Holds(f, p)
    ensures BoundAbsorbed(f, cs.box)
  {
    var b := cs.box;
    BoundsInScope(cs.types, f);
    if AsBound(f, true).Some? { FilteredIsInside(cs.types, f, b); }
    FilteringKeeps(cs.types, f, b);
    var filtered, r;
    filtered, changed, r := FilterAssertion(cs.types, f, b);
    if filtered { FilteredIsImplied(cs.types, f, b); }
    cs.box := r;
    if changed {
      cs.AddUsedConstraint(f);
      KeepsByFormula(cs.types, b, r, f, cs.used, cs.unsatWitness);
      if filtered && cs.box.NoPoints? { AddWitnesses(cs, FreeVars(f)); }
    }
    keep := !filtered;
  }

  method AddWitnesses(cs: ContractorStatus, vars: set<nat>)
    modifies cs`unsatWitness
    ensures cs.unsatWitness == old(cs.unsatWitness) + vars
  {
    var rest := vars;
    while rest != {}
      invariant rest <= vars && cs.unsatWitness == old(cs.unsatWitness) + (vars - rest)
      decreases rest
    {
      var v :| v in rest;
      cs.AddUnsatWitness(v);
      rest := rest - {v};
    }
  }

  // -------------------------------------------------------------- assembly

  /** The contractors assembled for theory literals of `A`. */
  ghost predicate TheoryContractors(cs: seq<Contractor>, types: seq<VarType>, A: set<Formula>) {
    forall c | c in cs ::
      WellFormed(c, types) && JoinFree(c) && Plain(c) && !c.SeqCtc? && Constraints(c) <= A
  }

  function Insert(c: Contractor, cs: seq<Contractor>, types: seq<VarType>, asc: bool): (r: seq<Contractor>)
    ensures multiset(r) == multiset([c]) + multiset(cs)
  {
    if cs == [] then [c]
    else if (if asc then |Inputs(c, types)| <= |Inputs(cs[0], types)|
             else |Inputs(c, types)| >= |Inputs(cs[0], types)|) then
      [c] + cs
    else
      assert cs == [cs[0]] + cs[1..];
      [cs[0]] + Insert(c, cs[1..], types, asc)
  }

  /** The stable sort by number of inputs. */
  function StableSort(cs: seq<Contractor>, types: seq<VarType>, asc: bool): (r: seq<Contractor>)
    ensures multiset(r) == multiset(cs)
  {
    if cs == [] then []
    else
      assert cs == [cs[0]] + cs[1..];
      Insert(cs[0], StableSort(cs[1..], types, asc), types, asc)
  }

  /** Flattening a list without sequences only drops identities. */
  lemma {:induction false} FlattenMembers(cs: seq<Contractor>)
    requires forall c | c in cs :: !c.SeqCtc?
    ensures forall c :: c in Flatten(cs) <==> c in cs && c != Id
  {
    if cs == [] {
    } else {
      FlattenMembers(cs[1..]);
    }
  }

  lemma {:induction false} FlattenLast(cs: seq<Contractor>, c: Contractor)
    requires c != Id && !c.SeqCtc?
    ensures Flatten(cs + [c]) != [] && Flatten(cs + [c])[|Flatten(cs + [c])| - 1] == c
  {
    if cs == [] {
      assert Flatten([c]) == [c] + Flatten([]);
    } else {
      FlattenLast(cs[1..], c);
      assert (cs + [c])[1..] == cs[1..] + [c];
    }
  }

  /** `make_contractor_fixpoint` and `make_contractor_worklist_fixpoint`. */
  function MakeFixpoint(cs: seq<Contractor>, useWorklist: bool): Contractor {
    var flat := Flatten(cs);
    if flat == [] then Id else if useWorklist then WorklistCtc(flat) else FixpointCtc(flat)
  }

  /** No variable is an integer, or none is continuous. */
  predicate UniformTypes(types: seq<VarType>) {
    || (forall i | 0 <= i < |types| :: !IsIntType(types[i]))
    || (forall i | 0 <= i < |types| :: types[i] != CONTINUOUS)
  }

  /** A contractor that can drive the search for constraints of `A`. It leaves
      integer ends in the integer dimensions when there is no branching point;
      it always does, unless it is a worklist and some branching dimension is
      continuous while another is an integer. */
  ghost predicate Drives(c: Contractor, types: seq<VarType>, A: set<Formula>, useWorklist: bool) {
    && SearchContractor(c, types) && Constraints(c) <= A && EndsIntegral(c, types, -1)
    && (!useWorklist || UniformTypes(types) ==> AlwaysIntegral(c, types))
  }

  /** The assembled contractor is one. */
  lemma AssembledContractor(nl: seq<Contractor>, types: seq<VarType>, A: set<Formula>, useWorklist: bool)
    requires TheoryContractors(nl, types, A)
    ensures var c := MakeFixpoint(nl + [MakeInteger(types)], useWorklist);
            && Drives(c, types, A, useWorklist)
            && (forall d, f | d in nl && f in Constraints(d) :: f in Constraints(c))
  {
    var cs := nl + [MakeInteger(types)];
    assert TheoryContractors(cs, types, A);
    FlattenMembers(cs);
    var flat := Flatten(cs);
    if IntDims(types) != {} { FlattenLast(nl, IntegerCtc); }
    assert TheoryContractors(flat, types, A);
    FlatDrives(flat, types, A, useWorklist);
    forall d, f | d in nl && f in Constraints(d) ensures f in Constraints(MakeFixpoint(cs, useWorklist)) {
      assert d in cs && d != Id;
      var j :| 0 <= j < |flat| && flat[j] == d;
    }
  }

  lemma FlatDrives(flat: seq<Contractor>, types: seq<VarType>, A: set<Formula>, useWorklist: bool)
    requires TheoryContractors(flat, types, A) && (IntDims(types) != {} ==> LastIsInteger(flat))
    ensures var c := if flat == [] then Id else if useWorklist then WorklistCtc(flat) else FixpointCtc(flat);
            Drives(c, types, A, useWorklist) && Constraints(c) == ConstraintsOf(flat)
  {
    forall j | 0 <= j < |flat|
      ensures WellFormed(flat[j], types) && JoinFree(flat[j]) && Plain(flat[j]) && Constraints(flat[j]) <= A
    {
      assert flat[j] in flat;
    }
    if !useWorklist || UniformTypes(types) { FixpointEndsIntegral(flat, types, useWorklist); }
  }

  lemma FixpointEndsIntegral(flat: seq<Contractor>, types: seq<VarType>, useWorklist: bool)
    requires IntDims(types) != {} ==> LastIsInteger(flat)
    requires !useWorklist || UniformTypes(types)
    ensures var c := if flat == [] then Id else if useWorklist then WorklistCtc(flat) else FixpointCtc(flat);
            AlwaysIntegral(c, types)
  {
    var c := if flat == [] then Id else if useWorklist then WorklistCtc(flat) else FixpointCtc(flat);
    if IntDims(types) != {} {
      var d :| d in IntDims(types);
      assert IsIntType(types[d]);
      forall branchingPoint | IsBranchingPoint(types, branchingPoint)
        ensures EndsIntegral(c, types, branchingPoint)
      {
        if useWorklist && branchingPoint >= 0 {
          assert IsIntType(types[branchingPoint]);
          assert branchingPoint in IntDims(types);
        }
      }
    }
  }

  /** The contractor of one assertion: HC4, or a fixpoint of counterexample-
      guided pruning at half the precision. */
  ghost predicate IsContractorFor(c: Contractor, f: Formula, types: seq<VarType>, utypes: Formula -> seq<VarType>,
                                  precision: real)
  {
    if f.Forall? then
      exists d :: BuiltFor(d, f, types, utypes(f), precision * 0.5) && c == MakeFixpoint([d], false)
    else c == MakeFwdbwd(f)
  }

  ghost predicate AreContractorsFor(nl: seq<Contractor>, fs: seq<Formula>, types: seq<VarType>,
                                    utypes: Formula -> seq<VarType>, precision: real)
  {
    |nl| == |fs| && forall k | 0 <= k < |fs| :: IsContractorFor(nl[k], fs[k], types, utypes, precision)
  }

  method ContractorFor(f: Formula, types: seq<VarType>, utypes: Formula -> seq<VarType>, precision: real)
    returns (c: Contractor)
    requires IsAssertion(f, types, utypes) && precision > 0.0
    ensures IsContractorFor(c, f, types, utypes, precision)
    ensures TheoryContractors([c], types, {f})
    ensures f in Constraints(c) || IsNeq(f, true)
  {
    AssertionVars(f, types, utypes);
    if f.Forall? {
      var forallCtc := MakeForall(f, types, utypes(f), precision * 0.5);
      c := MakeFixpoint([forallCtc.value], false);
      FixpointOfForall(forallCtc.value, types);
    } else {
      c := MakeFwdbwd(f);
    }
  }

  lemma FixpointOfForall(c: Contractor, types: seq<VarType>)
    requires c.ForallCtc? && WellFormed(c, types)
    ensures TheoryContractors([MakeFixpoint([c], false)], types, {c.f})
    ensures c.f in Constraints(MakeFixpoint([c], false))
  {
    assert Flatten([c]) == [c] + Flatten([]);
    var d := MakeFixpoint([c], false);
    assert d == FixpointCtc([c]);
    assert forall j | 0 <= j < |d.cs| :: d.cs[j] == c;
    assert ConstraintsOf([c]) == {c.f} by { assert c.f in Constraints([c][0]); }
    assert Constraints(d) == ConstraintsOf(d.cs);
    assert JoinFree(d) && Plain(d) && WellFormed(d, types);
  }

  /** What `BuildContractor` has achieved for one assertion: a contractor stands
      for it, or the box implies it. Disequalities have no contractor, and a
      strict bound at the edge of the doubles is lost. */
  ghost predicate Represented(f: Formula, cs: set<Formula>, b: Box) {
    f in cs || IsNeq(f, true) || StrictAtEdge(f) || forall p | InBox(b, p) :: Holds(f, p)
  }

  lemma RepresentedInLess(f: Formula, cs: set<Formula>, cs': set<Formula>, b: Box, b': Box, n: nat)
    requires Represented(f, cs, b) && cs <= cs' && ValidBox(b, n) && ValidBox(b', n) && SubBox(b', b)
    ensures Represented(f, cs', b')
  {
    forall p | InBox(b', p) ensures InBox(b, p) { SubBoxContains(b', b, n, p); }
  }

  /** What the filtering loop maintains after `k` assertions. */
  ghost predicate Filtering(assertions: seq<Formula>, k: nat, types: seq<VarType>, b0: Box, s: Snapshot,
                            nl: seq<Contractor>)
    requires k <= |assertions|
  {
    var done := SetOf(assertions[..k]);
    && ValidBox(s.box, |types|) && SubBox(s.box, b0)
    && s.used <= done
    && Keeps(types, b0, s.box, s.used, s.unsatWitness)
    && TheoryContractors(nl, types, done)
    && (forall f | f in done :: Represented(f, ConstraintsOf(nl), s.box) && BoundAbsorbed(f, s.box))
  }

  lemma FilteringStep(assertions: seq<Formula>, k: nat, types: seq<VarType>, b0: Box, s: Snapshot, nl: seq<Contractor>,
                      s': Snapshot, nl': seq<Contractor>)
    requires k < |assertions| && ValidBox(b0, |types|) && Filtering(assertions, k, types, b0, s, nl)
    requires ValidBox(s'.box, |types|) && SubBox(s'.box, s.box)
    requires s.used <= s'.used <= s.used + {assertions[k]} && s.unsatWitness <= s'.unsatWitness
    requires Keeps(types, s.box, s'.box, s'.used, s'.unsatWitness)
    requires nl' == nl ||
             (|nl'| == |nl| + 1 && nl' == nl + [nl'[|nl|]] && TheoryContractors([nl'[|nl|]], types, {assertions[k]}))
    requires Represented(assertions[k], ConstraintsOf(nl'), s'.box) && BoundAbsorbed(assertions[k], s'.box)
    ensures Filtering(assertions, k + 1, types, b0, s', nl')
  {
    var done, done' := SetOf(assertions[..k]), SetOf(assertions[..k + 1]);
    assert assertions[..k + 1] == assertions[..k] + [assertions[k]];
    assert done' == done + {assertions[k]};
    SubBoxTransitive(s'.box, s.box, b0);
    KeepsTrans(types, b0, s.box, s'.box, s.used, s.unsatWitness, s'.used, s'.unsatWitness);
    MoreConstraints(nl, nl');
    forall f | f in done' ensures Represented(f, ConstraintsOf(nl'), s'.box) && BoundAbsorbed(f, s'.box) {
      if f in done {
        RepresentedInLess(f, ConstraintsOf(nl), ConstraintsOf(nl'), s.box, s'.box, |types|);
        AbsorbedInLess(f, s.box, s'.box);
      }
    }
    if nl' != nl {
      assert nl'[|nl|] in [nl'[|nl|]];
      forall c | c in nl' ensures c in nl || c == nl'[|nl|] { }
    }
  }

  lemma MoreConstraints(nl: seq<Contractor>, nl': seq<Contractor>)
    requires nl <= nl'
    ensures ConstraintsOf(nl) <= ConstraintsOf(nl')
  {
    forall f | f in ConstraintsOf(nl) ensures f in ConstraintsOf(nl') {
      var j :| 0 <= j < |nl| && f in Constraints(nl[j]);
      assert nl'[j] == nl[j];
    }
  }

  /** The contractors sorted as the option says. */
  function Ordered(nl: seq<Contractor>, types: seq<VarType>, order: Option<bool>): (r: seq<Contractor>)
    ensures multiset(r) == multiset(nl)
  {
    if order.Some? then StableSort(nl, types, order.value) else nl
  }

  /** The contractor of a list of assertions: those that filtering has not absorbed
      have one each, and the integer contractor comes last. */
  ghost predicate IsAssembled(c: Contractor, assertions: seq<Formula>, types: seq<VarType>,
                              utypes: Formula -> seq<VarType>, cfg: TheoryConfig)
  {
    if assertions == [] then c == MakeInteger(types)
    else exists nl ::
      && AreContractorsFor(nl, Kept(types, assertions), types, utypes, cfg.precision)
      && c == MakeFixpoint(Ordered(nl, types, cfg.order) + [MakeInteger(types)], cfg.useWorklist)
  }

  /** What building does to the status: all assertions are absorbed, or filtering
      stops at one that empties the box. */
  ghost predicate Builds(assertions: seq<Formula>, types: seq<VarType>, utypes: Formula -> seq<VarType>,
                         cfg: TheoryConfig, s: Snapshot, t: Snapshot, c: Option<Contractor>)
  {
    match c
    case None => exists k: nat, m: Snapshot ::
      k < |assertions| && Filters(types, assertions[..k], s, m) && Absorbs(types, assertions[k], m, t, true)
    case Some(d) => Filters(types, assertions, s, t) && IsAssembled(d, assertions, types, utypes, cfg)
  }

  /** What the loop of `BuildContractor` has done with `k` assertions. */
  ghost predicate Building(assertions: seq<Formula>, k: nat, types: seq<VarType>, utypes: Formula -> seq<VarType>,
                           precision: real, s: Snapshot, t: Snapshot, nl: seq<Contractor>)
    requires k <= |assertions|
  {
    && Filters(types, assertions[..k], s, t)
    && AreContractorsFor(nl, Kept(types, assertions[..k]), types, utypes, precision)
  }

  lemma BuildingStep(assertions: seq<Formula>, k: nat, types: seq<VarType>, utypes: Formula -> seq<VarType>,
                     precision: real, s: Snapshot, m: Snapshot, t: Snapshot, nl: seq<Contractor>, nl': seq<Contractor>)
    requires k < |assertions| && Building(assertions, k, types, utypes, precision, s, m, nl)
    requires Absorbs(types, assertions[k], m, t, false)
    requires if IsFiltered(types, assertions[k], true) then nl' == nl
             else |nl'| == |nl| + 1 && nl' == nl + [nl'[|nl|]] &&
                  IsContractorFor(nl'[|nl|], assertions[k], types, utypes, precision)
    ensures Building(assertions, k + 1, types, utypes, precision, s, t, nl')
  {
    var fs := assertions[..k + 1];
    FiltersOneMore(types, assertions, k, s, m, t);
    assert fs[..k] == assertions[..k];
    var kept, kept' := Kept(types, fs[..k]), Kept(types, fs);
    forall i | 0 <= i < |kept'| ensures IsContractorFor(nl'[i], kept'[i], types, utypes, precision) {
      if i < |kept| { assert IsContractorFor(nl[i], kept[i], types, utypes, precision); }
    }
  }

  /** The loop of `BuildContractor`. */
  method FilterAll(assertions: seq<Formula>, utypes: Formula -> seq<VarType>, cfg: TheoryConfig,
                   cs: ContractorStatus)
    returns (stopped: bool, nl: seq<Contractor>)
    requires cs.Valid() && cs.box.Box? && cs.used == {} && cfg.precision > 0.0
    requires AreAssertions(assertions, cs.types, utypes)
    modifies cs
    ensures cs.Valid() && cs.branchingPoint == old(cs.branchingPoint)
    ensures !stopped ==>
              && Filtering(assertions, |assertions|, cs.types, old(cs.box), cs.Snap(), nl)
              && Building(assertions, |assertions|, cs.types, utypes, cfg.precision, old(cs.Snap()), cs.Snap(), nl)
    ensures stopped ==>
              && cs.box.NoPoints? && cs.used <= SetOf(assertions)
              && Keeps(cs.types, old(cs.box), cs.box, cs.used, cs.unsatWitness)
              && Builds(assertions, cs.types, utypes, cfg, old(cs.Snap()), cs.Snap(), None)
  {
    ghost var s0 := cs.Snap();
    nl := [];
    var k := 0;
    while k < |assertions|
      invariant 0 <= k <= |assertions| && cs.Valid() && cs.branchingPoint == old(cs.branchingPoint)
      invariant Filtering(assertions, k, cs.types, s0.box, cs.Snap(), nl)
      invariant Building(assertions, k, cs.types, utypes, cfg.precision, s0, cs.Snap(), nl)
    {
      stopped, nl := FilterOne(assertions, k, utypes, cfg, cs, nl, s0);
      k := k + 1;
      if stopped {
        UsedSoFar(assertions, k);
        return;
      }
    }
    stopped := false;
  }

  /** One round of the loop. */
  method FilterOne(assertions: seq<Formula>, k: nat, utypes: Formula -> seq<VarType>, cfg: TheoryConfig,
                   cs: ContractorStatus, nl: seq<Contractor>, ghost s0: Snapshot)
    returns (stopped: bool, nl': seq<Contractor>)
    requires cs.Valid() && k < |assertions| && cfg.precision > 0.0
    requires AreAssertions(assertions, cs.types, utypes) && ValidBox(s0.box, |cs.types|)
    requires Filtering(assertions, k, cs.types, s0.box, cs.Snap(), nl)
    requires Building(assertions, k, cs.types, utypes, cfg.precision, s0, cs.Snap(), nl)
    modifies cs
    ensures cs.Valid() && cs.branchingPoint == old(cs.branchingPoint)
    ensures Filtering(assertions, k + 1, cs.types, s0.box, cs.Snap(), nl')
    ensures !stopped ==> Building(assertions, k + 1, cs.types, utypes, cfg.precision, s0, cs.Snap(), nl')
    ensures stopped ==> cs.box.NoPoints? && Builds(assertions, cs.types, utypes, cfg, s0, cs.Snap(), None)
  {
    ghost var s := cs.Snap();
    AssertionVars(assertions[k], cs.types, utypes);
    var keep, changed := Absorb(assertions[k], cs);
    nl' := nl;
    if keep {
      var ctc := ContractorFor(assertions[k], cs.types, utypes, cfg.precision);
      nl' := nl + [ctc];
      assert assertions[k] in Constraints(ctc) ==> assertions[k] in ConstraintsOf(nl') by {
        assert nl'[|nl'| - 1] == ctc;
      }
    }
    FilteringStep(assertions, k, cs.types, s0.box, s, nl, cs.Snap(), nl');
    stopped := !keep && changed && cs.box.NoPoints?;
    if !stopped { BuildingStep(assertions, k, cs.types, utypes, cfg.precision, s0, s, cs.Snap(), nl, nl'); }
  }

  /** `BuildContractor`, without the ODE part. `None` means that filtering alone
      emptied the box. */
  method BuildContractor(assertions: seq<Formula>, utypes: Formula -> seq<VarType>, cfg: TheoryConfig,
                         cs: ContractorStatus)
    returns (c: Option<Contractor>)
    requires cs.Valid() && cs.box.Box? && cs.used == {} && cfg.precision > 0.0
    requires AreAssertions(assertions, cs.types, utypes)
    modifies cs
    ensures cs.Valid() && SubBox(cs.box, old(cs.box)) && cs.used <= SetOf(assertions)
    ensures cs.branchingPoint == old(cs.branchingPoint)
    ensures Keeps(cs.types, old(cs.box), cs.box, cs.used, cs.unsatWitness)
    ensures c.None? ==> cs.box.NoPoints?
    ensures c.Some? ==>
              && Drives(c.value, cs.types, SetOf(assertions), cfg.useWorklist)
              && (forall f | f in assertions :: Represented(f, Constraints(c.value), cs.box))
              && (forall f | f in assertions :: BoundAbsorbed(f, cs.box))
    ensures Builds(assertions, cs.types, utypes, cfg, old(cs.Snap()), cs.Snap(), c)
  {
    if assertions == [] {
      c := Some(MakeInteger(cs.types));
      return;
    }
    var stopped, nl := FilterAll(assertions, utypes, cfg, cs);
    if stopped { return None; }
    assert assertions[..|assertions|] == assertions;
    var sorted := Ordered(nl, cs.types, cfg.order);
    c := Some(MakeFixpoint(sorted + [MakeInteger(cs.types)], cfg.useWorklist));
    SameMembers(sorted, nl);
    AssembledContractor(sorted, cs.types, SetOf(assertions), cfg.useWorklist);
    AllRepresented(assertions, nl, c.value, cs.box);
  }

  lemma AllRepresented(assertions: seq<Formula>, nl: seq<Contractor>, c: Contractor, b: Box)
    requires forall f | f in assertions :: Represented(f, ConstraintsOf(nl), b)
    requires forall d, f | d in nl && f in Constraints(d) :: f in Constraints(c)
    ensures forall f | f in assertions :: Represented(f, Constraints(c), b)
  {
    forall f | f in assertions ensures Represented(f, Constraints(c), b) {
      if f in ConstraintsOf(nl) {
        var j :| 0 <= j < |nl| && f in Constraints(nl[j]);
        assert nl[j] in nl;
      }
    }
  }

  lemma UsedSoFar(assertions: seq<Formula>, k: nat)
    requires k <= |assertions|
    ensures SetOf(assertions[..k]) <= SetOf(assertions)
  {
  }

  lemma SameMembers(a: seq<Contractor>, b: seq<Contractor>)
    requires multiset(a) == multiset(b)
    ensures forall c :: c in a <==> c in b
  {
    forall c ensures c in a <==> c in b {
      assert c in a <==> c in multiset(a);
      assert c in b <==> c in multiset(b);
    }
  }

  /** The evaluator of one assertion. */
  ghost predicate EvaluatorFor(ev: FormulaEvaluator, f: Formula, types: seq<VarType>, utypes: Formula -> seq<VarType>,
                               epsilon: real) {
    && ev.f == f && WellFormedEvaluator(ev, |types|)
    && (ev.ForallEval? <==> f.Forall?)
    && (ev.ForallEval? ==> ev.utypes == utypes(f) && QueryFor(f, types, utypes(f), epsilon, ev.query))
  }

  /** The evaluators of the assertions, in order. */
  ghost predicate EvaluatorsFor(evs: seq<FormulaEvaluator>, assertions: seq<Formula>, types: seq<VarType>,
                                utypes: Formula -> seq<VarType>, epsilon: real)
  {
    |evs| == |assertions| && forall k | 0 <= k < |evs| :: EvaluatorFor(evs[k], assertions[k], types, utypes, epsilon)
  }

  method MakeEvaluator(f: Formula, types: seq<VarType>, utypes: Formula -> seq<VarType>, epsilon: real)
    returns (ev: FormulaEvaluator)
    requires IsAssertion(f, types, utypes) && epsilon > 0.0
    ensures EvaluatorFor(ev, f, types, utypes, epsilon)
  {
    AssertionVars(f, types, utypes);
    if f.Forall? {
      var query, narrow := StrengthenForallCounterexampleQuery(types + utypes(f), f.vars, f.body, epsilon);
      assert QueryFor(f, types, utypes(f), epsilon, query);
      ev := ForallEval(f, utypes(f), query);
    } else {
      ev := RelEval(f);
    }
  }

  /** `BuildFormulaEvaluator`: all assertions are evaluated, filtered or not. */
  method BuildFormulaEvaluator(assertions: seq<Formula>, types: seq<VarType>, utypes: Formula -> seq<VarType>,
                               precision: real)
    returns (evs: seq<FormulaEvaluator>)
    requires AreAssertions(assertions, types, utypes) && precision > 0.0
    ensures EvaluatorsFor(evs, assertions, types, utypes, 0.99 * precision)
  {
    evs := [];
    var k := 0;
    while k < |assertions|
      invariant 0 <= k <= |assertions| && |evs| == k
      invariant forall j | 0 <= j < k :: EvaluatorFor(evs[j], assertions[j], types, utypes, 0.99 * precision)
    {
      var ev := MakeEvaluator(assertions[k], types, utypes, 0.99 * precision);
      evs := evs + [ev];
      k := k + 1;
    }
  }

  // ---------------------------------------------------------------- CheckSat

  ghost predicate SeedsInside(seeds: seq<Box>, types: seq<VarType>, b: Box) {
    forall k | 0 <= k < |seeds| :: ValidBox(seeds[k], |types|) && SubBox(seeds[k], b)
  }

  function SearchConfig(cfg: TheoryConfig, b: Box): IcpConfig {
    IcpConfig(cfg.precision, cfg.stackLeftBoxFirst, cfg.seeds(b), cfg.smear)
  }

  lemma SearchConfigIsValid(cfg: TheoryConfig, types: seq<VarType>, b: Box)
    requires ValidTheoryConfig(cfg, types) && ValidBox(b, |types|)
    ensures ValidConfig(SearchConfig(cfg, b), types, b)
  {
    assert SeedsInside(cfg.seeds(b), types, b);
  }

  ghost predicate ValidTheoryConfig(cfg: TheoryConfig, types: seq<VarType>) {
    && cfg.precision > 0.0
    && (forall b | ValidBox(b, |types|) :: SeedsInside(cfg.seeds(b), types, b))
  }

  /** No variable of the constraint can be split any further. */
  ghost predicate Unsplittable(f: Formula, b: Box)
    requires b.Box?
  {
    forall v | v in FreeVars(f) && v < |b.iv| :: !Bisectable(b.iv[v])
  }

  /** What a positive verdict says of one assertion over the box. A bound on one
      variable holds up to the precision. Any other literal does, or it is
      ground, or no variable of it can be split; a negated equality, or a
      literal whose constant is not a double, may be undecided. A forall for
      which the nested solver found no counterexample has its matrix weakened at
      every typed point, if the nested solver can be trusted with that answer. */
  ghost predicate Settled(fo: Foreign, types: seq<VarType>, ev: FormulaEvaluator, b: Box, precision: real)
    requires b.Box? && WellFormedEvaluator(ev, |b.iv|) && precision > 0.0
  {
    match ev
    case RelEval(f) =>
      || NegatedEquality(f)
      || Weakened(f, b, precision)
      || (AsBound(f, true).None? && (FreeVars(f) == {} || IsSimpleRelational(f) || Unsplittable(f, b)))
    case ForallEval(f, utypes, query) =>
      || FreeVars(f) == {}
      || Unsplittable(f, b)
      || (fo.solve(query, b, false).None? &&
          (forall grid | SolveRefutes(fo, types + utypes, query, |types|, grid) ::
             WeakenedOver(f, types + utypes, b, 0.99 * precision, grid)))
      || (fo.solve(query, b, false).Some? &&
          SpreadWithin(Literals(f.body), CounterexampleBox(b, fo.solve(query, b, false).value, |utypes|),
            Fin(precision)))
  }

  /** The box settles the assertions, through the evaluators built for them. */
  ghost predicate CertifiedFor(fo: Foreign, types: seq<VarType>, utypes: Formula -> seq<VarType>, precision: real,
                               assertions: seq<Formula>, b: Box)
  {
    exists evs :: SettledBy(fo, types, utypes, precision, assertions, evs, b)
  }

  ghost predicate SettledBy(fo: Foreign, types: seq<VarType>, utypes: Formula -> seq<VarType>, precision: real,
                            assertions: seq<Formula>, evs: seq<FormulaEvaluator>, b: Box)
  {
    && EvaluatorsFor(evs, assertions, types, utypes, 0.99 * precision)
    && precision > 0.0 && b.Box? && |b.iv| == |types| && WellFormedEvaluators(evs, |b.iv|)
    && forall k | 0 <= k < |evs| :: Settled(fo, types, evs[k], b, precision)
  }

  /** The search settles an assertion, given that its bound was absorbed. */
  lemma SearchSettles(fo: Foreign, types: seq<VarType>, utypes: Formula -> seq<VarType>, ev: FormulaEvaluator,
                      f: Formula, b: Box, precision: real)
    requires b.Box? && ValidBox(b, |types|) && precision > 0.0 && IsAssertion(f, types, utypes)
    requires EvaluatorFor(ev, f, types, utypes, 0.99 * precision) && BoundAbsorbed(f, b)
    requires CertifiedBy(fo, ev, b, precision) || Unsplittable(f, b)
    ensures Settled(fo, types, ev, b, precision)
  {
    match ev
    case RelEval(_) =>
      if AsBound(f, true).Some? && !NegatedEquality(f) { InsideBoundIsWeakened(f, b, precision); }
    case ForallEval(_, ut, query) =>
      if fo.solve(query, b, false).None? {
        forall grid | SolveRefutes(fo, types + ut, query, |types|, grid)
          ensures WeakenedOver(f, types + ut, b, 0.99 * precision, grid)
        {
          ExhaustedIsWeakened(fo, f, types, ut, query, 0.99 * precision, b, false, grid);
        }
      }
  }

  lemma CertifiedByEvaluators(fo: Foreign, types: seq<VarType>, utypes: Formula -> seq<VarType>, precision: real,
                              assertions: seq<Formula>, evs: seq<FormulaEvaluator>, b: Box)
    requires EvaluatorsFor(evs, assertions, types, utypes, 0.99 * precision) && DeltaSat(fo, evs, b, precision)
    requires ValidBox(b, |types|) && AreAssertions(assertions, types, utypes)
    requires forall f | f in assertions :: BoundAbsorbed(f, b)
    ensures CertifiedFor(fo, types, utypes, precision, assertions, b)
  {
    forall k | 0 <= k < |evs| ensures Settled(fo, types, evs[k], b, precision) {
      assert EvaluatorFor(evs[k], assertions[k], types, utypes, 0.99 * precision);
      SearchSettles(fo, types, utypes, evs[k], assertions[k], b, precision);
    }
    assert SettledBy(fo, types, utypes, precision, assertions, evs, b);
  }

  /** What the search found after filtering is certified. */
  lemma FoundIsCertified(fo: Foreign, types: seq<VarType>, utypes: Formula -> seq<VarType>, precision: real,
                         assertions: seq<Formula>, evs: seq<FormulaEvaluator>, b1: Box, b: Box)
    requires EvaluatorsFor(evs, assertions, types, utypes, 0.99 * precision) && DeltaSat(fo, evs, b, precision)
    requires ValidBox(b, |types|) && AreAssertions(assertions, types, utypes) && SubBox(b, b1)
    requires forall f | f in assertions :: BoundAbsorbed(f, b1)
    ensures CertifiedFor(fo, types, utypes, precision, assertions, b)
  {
    forall f | f in assertions ensures BoundAbsorbed(f, b) { AbsorbedInLess(f, b1, b); }
    CertifiedByEvaluators(fo, types, utypes, precision, assertions, evs, b);
  }

  /** What the search needs of its evaluators. */
  ghost predicate EvaluatorsOver(evs: seq<FormulaEvaluator>, types: seq<VarType>, A: set<Formula>) {
    WellFormedEvaluators(evs, |types|) && FormulasOf(evs) <= A && ArithmeticOnly(evs, types)
  }

  /** The evaluators, ready for the search. */
  method MakeEvaluators(assertions: seq<Formula>, types: seq<VarType>, utypes: Formula -> seq<VarType>, precision: real)
    returns (evs: seq<FormulaEvaluator>)
    requires AreAssertions(assertions, types, utypes) && precision > 0.0
    ensures EvaluatorsFor(evs, assertions, types, utypes, 0.99 * precision)
    ensures EvaluatorsOver(evs, types, SetOf(assertions))
  {
    evs := BuildFormulaEvaluator(assertions, types, utypes, precision);
    EvaluatorFormulas(evs, assertions, types, utypes, 0.99 * precision);
  }

  /** When the search can fail, and when it can be left unfinished. */
  predicate Explained(cfg: TheoryConfig, types: seq<VarType>, verdict: Verdict) {
    && (verdict.Failed? ==> cfg.jobs <= 1 && cfg.useWorklist && !UniformTypes(types))
    && (verdict.Unfinished? ==> cfg.jobs > 1)
  }

  /** What a search of the box does to the status, and what its verdict means. */
  ghost predicate Searched(cfg: TheoryConfig, types: seq<VarType>, A: set<Formula>, s0: Snapshot, s: Snapshot,
                           verdict: Verdict)
  {
    && Recorded(A, s0, s)
    && (verdict.Unsatisfiable? <==> s.box.NoPoints?)
    && (verdict.Unsatisfiable? ==> Refuted(types, s0.box, s.used, s.unsatWitness))
    && Explained(cfg, types, verdict)
  }

  /** The run of the search from the status that filtering has left. */
  ghost predicate RunOf(fo: Foreign, types: seq<VarType>, c: Contractor, evs: seq<FormulaEvaluator>,
                        config: TheoryConfig, s: Snapshot, t: Snapshot, verdict: Verdict)
  {
    var cfg := SearchConfig(config, s.box);
    if config.jobs > 1 then
      ParallelSearch.SearchesInParallel(ParallelSearch.EnvOf(fo, types, c, evs, cfg), cfg, config.jobs,
        config.schedule(s.box), s, t, verdict)
    else SearchRuns(fo, types, c, evs, cfg, s, t, verdict)
  }

  method RunSequential(fo: Foreign, c: Contractor, evs: seq<FormulaEvaluator>, ghost A: set<Formula>,
                       config: TheoryConfig, cs: ContractorStatus)
    returns (verdict: Verdict)
    requires SoundForeign(fo) && cs.Valid() && ValidTheoryConfig(config, cs.types) && config.jobs <= 1
    requires Drives(c, cs.types, A, config.useWorklist) && EvaluatorsOver(evs, cs.types, A)
    modifies cs
    ensures cs.Valid() && Searched(config, cs.types, A, old(cs.Snap()), cs.Snap(), verdict)
    ensures verdict.Satisfiable? ==> DeltaSat(fo, evs, cs.box, config.precision)
    ensures RunOf(fo, cs.types, c, evs, config, old(cs.Snap()), cs.Snap(), verdict)
  {
    SearchConfigIsValid(config, cs.types, cs.box);
    verdict := Icp.CheckSat(fo, c, evs, SearchConfig(config, cs.box), cs);
  }

  method RunParallel(fo: Foreign, c: Contractor, evs: seq<FormulaEvaluator>, ghost A: set<Formula>,
                     config: TheoryConfig, cs: ContractorStatus)
    returns (verdict: Verdict)
    requires SoundForeign(fo) && cs.Valid() && cs.branchingPoint == -1 && ValidTheoryConfig(config, cs.types)
    requires config.jobs > 1 && Drives(c, cs.types, A, config.useWorklist) && EvaluatorsOver(evs, cs.types, A)
    modifies cs
    ensures cs.Valid() && Searched(config, cs.types, A, old(cs.Snap()), cs.Snap(), verdict)
    ensures verdict.Satisfiable? ==> DeltaSat(fo, evs, cs.box, config.precision)
    ensures RunOf(fo, cs.types, c, evs, config, old(cs.Snap()), cs.Snap(), verdict)
  {
    verdict := ParallelSearch.CheckSat(fo, c, evs, SearchConfig(config, cs.box), config.jobs, config.schedule(cs.box),
                                       cs);
  }

  /** The search, sequential or parallel. */
  method RunSearch(fo: Foreign, c: Contractor, evs: seq<FormulaEvaluator>, ghost A: set<Formula>,
                   config: TheoryConfig, cs: ContractorStatus)
    returns (verdict: Verdict)
    requires SoundForeign(fo) && cs.Valid() && cs.branchingPoint == -1 && ValidTheoryConfig(config, cs.types)
    requires Drives(c, cs.types, A, config.useWorklist) && EvaluatorsOver(evs, cs.types, A)
    modifies cs
    ensures cs.Valid() && Searched(config, cs.types, A, old(cs.Snap()), cs.Snap(), verdict)
    ensures verdict.Satisfiable? ==> DeltaSat(fo, evs, cs.box, config.precision)
    ensures RunOf(fo, cs.types, c, evs, config, old(cs.Snap()), cs.Snap(), verdict)
  {
    if config.jobs > 1 {
      verdict := RunParallel(fo, c, evs, A, config, cs);
    } else {
      verdict := RunSequential(fo, c, evs, A, config, cs);
    }
  }

  /** How the verdict and the final status `t` of a check of the box come about:
      filtering from a fresh status, and, unless that stops with an empty box, the
      run of the search with the assembled contractor and the evaluators. */
  ghost predicate Answers(fo: Foreign, types: seq<VarType>, utypes: Formula -> seq<VarType>, config: TheoryConfig,
                          box: Box, assertions: seq<Formula>, t: Snapshot, verdict: Verdict)
  {
    exists m: Snapshot, c: Option<Contractor> ::
      && Builds(assertions, types, utypes, config, Snapshot(box, {}, {}, {}), m, c)
      && match c
         case None => verdict == Unsatisfiable && t == m
         case Some(d) => SearchesFrom(fo, types, utypes, config, assertions, d, m, t, verdict)
  }

  ghost predicate SearchesFrom(fo: Foreign, types: seq<VarType>, utypes: Formula -> seq<VarType>, config: TheoryConfig,
                               assertions: seq<Formula>, c: Contractor, m: Snapshot, t: Snapshot, verdict: Verdict)
  {
    exists evs ::
      && EvaluatorsFor(evs, assertions, types, utypes, 0.99 * config.precision)
      && RunOf(fo, types, c, evs, config, m, t, verdict)
  }

  /** What a check of the box establishes. */
  ghost predicate Checked(fo: Foreign, types: seq<VarType>, utypes: Formula -> seq<VarType>, config: TheoryConfig,
                          box: Box, assertions: seq<Formula>, s: Snapshot, verdict: Verdict)
  {
    && s.used <= SetOf(assertions) && Explained(config, types, verdict)
    && (verdict.Satisfiable? ==> s.box.Box? && SubBox(s.box, box))
    && (verdict.Satisfiable? ==> CertifiedFor(fo, types, utypes, config.precision, assertions, s.box))
    && (verdict.Unsatisfiable? ==> Refuted(types, box, s.used, s.unsatWitness))
  }

  /** Filtering has stopped. */
  lemma StoppedIsChecked(fo: Foreign, types: seq<VarType>, utypes: Formula -> seq<VarType>, config: TheoryConfig,
                         box: Box, assertions: seq<Formula>, s: Snapshot)
    requires s.used <= SetOf(assertions) && s.box.NoPoints? && Keeps(types, box, s.box, s.used, s.unsatWitness)
    ensures Checked(fo, types, utypes, config, box, assertions, s, Unsatisfiable)
  {
  }

  /** The search has run. */
  lemma SearchedIsChecked(fo: Foreign, types: seq<VarType>, utypes: Formula -> seq<VarType>, config: TheoryConfig,
                          box: Box, assertions: seq<Formula>, evs: seq<FormulaEvaluator>, m: Snapshot, s: Snapshot,
                          verdict: Verdict)
    requires m.used <= SetOf(assertions) && SubBox(m.box, box) && Keeps(types, box, m.box, m.used, m.unsatWitness)
    requires forall f | f in assertions :: BoundAbsorbed(f, m.box)
    requires EvaluatorsFor(evs, assertions, types, utypes, 0.99 * config.precision)
    requires AreAssertions(assertions, types, utypes) && ValidBox(s.box, |types|)
    requires Searched(config, types, SetOf(assertions), m, s, verdict)
    requires verdict.Satisfiable? ==> DeltaSat(fo, evs, s.box, config.precision)
    ensures Checked(fo, types, utypes, config, box, assertions, s, verdict)
  {
    SubBoxTransitive(s.box, m.box, box);
    if verdict.Satisfiable? {
      FoundIsCertified(fo, types, utypes, config.precision, assertions, evs, m.box, s.box);
    } else if verdict.Unsatisfiable? {
      RefutedFromStart(types, box, m.box, m.used, m.unsatWitness, s.used, s.unsatWitness);
    }
  }

  lemma StoppedAnswers(fo: Foreign, types: seq<VarType>, utypes: Formula -> seq<VarType>, config: TheoryConfig,
                       box: Box, assertions: seq<Formula>, m: Snapshot)
    requires Builds(assertions, types, utypes, config, Snapshot(box, {}, {}, {}), m, None)
    ensures Answers(fo, types, utypes, config, box, assertions, m, Unsatisfiable)
  {
  }

  lemma SearchAnswers(fo: Foreign, types: seq<VarType>, utypes: Formula -> seq<VarType>, config: TheoryConfig,
                      box: Box, assertions: seq<Formula>, c: Contractor, evs: seq<FormulaEvaluator>, m: Snapshot,
                      s: Snapshot, verdict: Verdict)
    requires Builds(assertions, types, utypes, config, Snapshot(box, {}, {}, {}), m, Some(c))
    requires EvaluatorsFor(evs, assertions, types, utypes, 0.99 * config.precision)
    requires RunOf(fo, types, c, evs, config, m, s, verdict)
    ensures Answers(fo, types, utypes, config, box, assertions, s, verdict)
  {
    assert SearchesFrom(fo, types, utypes, config, assertions, c, m, s, verdict);
  }

  /** Filtering has left the status `m` and has assembled a contractor that can
      drive the search. */
  ghost predicate Assembled(types: seq<VarType>, utypes: Formula -> seq<VarType>, config: TheoryConfig, box: Box,
                            assertions: seq<Formula>, m: Snapshot, c: Contractor)
  {
    && m.used <= SetOf(assertions) && SubBox(m.box, box) && Keeps(types, box, m.box, m.used, m.unsatWitness)
    && (forall f | f in assertions :: BoundAbsorbed(f, m.box))
    && Drives(c, types, SetOf(assertions), config.useWorklist)
  }

  /** The search with the evaluators of the assertions. */
  method SearchBox(fo: Foreign, types: seq<VarType>, utypes: Formula -> seq<VarType>, ghost box: Box,
                   assertions: seq<Formula>, config: TheoryConfig, c: Contractor, evs: seq<FormulaEvaluator>,
                   ghost m: Snapshot, cs: ContractorStatus)
    returns (verdict: Verdict)
    requires SoundForeign(fo) && ValidTheoryConfig(config, types) && AreAssertions(assertions, types, utypes)
    requires cs.Valid() && cs.types == types && cs.branchingPoint == -1 && cs.Snap() == m
    requires Assembled(types, utypes, config, box, assertions, m, c)
    requires EvaluatorsFor(evs, assertions, types, utypes, 0.99 * config.precision)
    requires EvaluatorsOver(evs, types, SetOf(assertions))
    requires Builds(assertions, types, utypes, config, Snapshot(box, {}, {}, {}), m, Some(c))
    modifies cs
    ensures cs.Valid() && Checked(fo, types, utypes, config, box, assertions, cs.Snap(), verdict)
    ensures Answers(fo, types, utypes, config, box, assertions, cs.Snap(), verdict)
  {
    verdict := RunSearch(fo, c, evs, SetOf(assertions), config, cs);
    SearchedIsChecked(fo, types, utypes, config, box, assertions, evs, m, cs.Snap(), verdict);
    SearchAnswers(fo, types, utypes, config, box, assertions, c, evs, m, cs.Snap(), verdict);
  }

  /** The search after filtering. */
  method SearchAssembled(fo: Foreign, types: seq<VarType>, utypes: Formula -> seq<VarType>, ghost box: Box,
                         assertions: seq<Formula>, config: TheoryConfig, c: Contractor, ghost m: Snapshot,
                         cs: ContractorStatus)
    returns (verdict: Verdict)
    requires SoundForeign(fo) && ValidTheoryConfig(config, types) && AreAssertions(assertions, types, utypes)
    requires cs.Valid() && cs.types == types && cs.branchingPoint == -1 && cs.Snap() == m
    requires Assembled(types, utypes, config, box, assertions, m, c)
    requires Builds(assertions, types, utypes, config, Snapshot(box, {}, {}, {}), m, Some(c))
    modifies cs
    ensures cs.Valid() && Checked(fo, types, utypes, config, box, assertions, cs.Snap(), verdict)
    ensures Answers(fo, types, utypes, config, box, assertions, cs.Snap(), verdict)
  {
    var evs := MakeEvaluators(assertions, types, utypes, config.precision);
    verdict := SearchBox(fo, types, utypes, box, assertions, config, c, evs, m, cs);
  }

  /** Filtering, on a new status of the box. */
  method Start(types: seq<VarType>, utypes: Formula -> seq<VarType>, box: Box, assertions: seq<Formula>,
               config: TheoryConfig)
    returns (c: Option<Contractor>, cs: ContractorStatus)
    requires ValidTheoryConfig(config, types)
    requires box.Box? && ValidBox(box, |types|) && AreAssertions(assertions, types, utypes)
    ensures fresh(cs) && cs.Valid() && cs.types == types && cs.branchingPoint == -1
    ensures Builds(assertions, types, utypes, config, Snapshot(box, {}, {}, {}), cs.Snap(), c)
    ensures match c
            case None => cs.used <= SetOf(assertions) && cs.box.NoPoints? &&
                         Keeps(types, box, cs.box, cs.used, cs.unsatWitness)
            case Some(d) => Assembled(types, utypes, config, box, assertions, cs.Snap(), d)
  {
    cs := new ContractorStatus(types, box, -1);
    c := BuildContractor(assertions, utypes, config, cs);
  }

  /** Filtering, evaluators and search. */
  method CheckBox(fo: Foreign, types: seq<VarType>, utypes: Formula -> seq<VarType>, box: Box,
                  assertions: seq<Formula>, config: TheoryConfig)
    returns (verdict: Verdict, cs: ContractorStatus)
    requires SoundForeign(fo) && ValidTheoryConfig(config, types)
    requires box.Box? && ValidBox(box, |types|) && AreAssertions(assertions, types, utypes)
    ensures fresh(cs) && cs.Valid() && cs.types == types
    ensures Checked(fo, types, utypes, config, box, assertions, cs.Snap(), verdict)
    ensures Answers(fo, types, utypes, config, box, assertions, cs.Snap(), verdict)
  {
    var contractor;
    contractor, cs := Start(types, utypes, box, assertions, config);
    ghost var m := cs.Snap();
    if contractor.None? {
      verdict := Unsatisfiable;
      StoppedIsChecked(fo, types, utypes, config, box, assertions, m);
      StoppedAnswers(fo, types, utypes, config, box, assertions, m);
    } else {
      verdict := SearchAssembled(fo, types, utypes, box, assertions, config, contractor.value, m, cs);
    }
  }

  class TheorySolver {
    const config: TheoryConfig
    var model: Box
    var explanation: set<Formula>

    constructor (config: TheoryConfig)
      ensures this.config == config
    {
      this.config := config;
      model, explanation := NoPoints, {};
    }

    /** `TheorySolver::CheckSat`. A negative verdict comes with an unsat core, the
        explanation generated from the records of the run; a positive one with
        the box the run ends with, which settles every assertion up to the
        precision. The search fails only sequentially, with the worklist option,
        over a mix of integer and continuous variables. */
    method CheckSat(fo: Foreign, types: seq<VarType>, utypes: Formula -> seq<VarType>, box: Box,
                    assertions: seq<Formula>)
      returns (verdict: Verdict)
      requires SoundForeign(fo) && ValidTheoryConfig(config, types)
      requires box.Box? && ValidBox(box, |types|) && AreAssertions(assertions, types, utypes)
      modifies this
      ensures verdict.Satisfiable? ==> explanation == old(explanation)
      ensures verdict.Satisfiable? ==> model.Box? && ValidBox(model, |types|) && SubBox(model, box)
      ensures verdict.Satisfiable? ==> CertifiedFor(fo, types, utypes, config.precision, assertions, model)
      ensures verdict.Unsatisfiable? ==> model == old(model)
      ensures verdict.Unsatisfiable? ==> explanation <= SetOf(assertions) && UnsatCore(types, box, explanation)
      ensures Explained(config, types, verdict)
      ensures exists s: Snapshot ::
                && Answers(fo, types, utypes, config, box, assertions, s, verdict)
                && (verdict.Satisfiable? ==> model == s.box)
                && (verdict.Unsatisfiable? ==> IsExplanation(explanation, s.used, s.unsatWitness))
    {
      var cs;
      verdict, cs := CheckBox(fo, types, utypes, box, assertions, config);
      match verdict {
        case Unsatisfiable => explanation := Explain(cs, box);
        case Satisfiable => model := cs.box;
        case _ =>
      }
    }
  }

  /** The explanation of a refuted box. */
  method Explain(cs: ContractorStatus, ghost box: Box) returns (E: set<Formula>)
    requires ValidBox(box, |cs.types|) && Refuted(cs.types, box, cs.used, cs.unsatWitness)
    ensures IsExplanation(E, cs.used, cs.unsatWitness) && E <= cs.used && UnsatCore(cs.types, box, E)
  {
    E := cs.Explanation();
    ExplanationIsCore(cs.types, box, cs.used, cs.unsatWitness, E);
  }

  lemma EvaluatorFormulas(evs: seq<FormulaEvaluator>, assertions: seq<Formula>, types: seq<VarType>,
                          utypes: Formula -> seq<VarType>, epsilon: real)
    requires EvaluatorsFor(evs, assertions, types, utypes, epsilon) && AreAssertions(assertions, types, utypes)
    ensures WellFormedEvaluators(evs, |types|) && FormulasOf(evs) <= SetOf(assertions) && ArithmeticOnly(evs, types)
  {
    forall k | 0 <= k < |evs|
      ensures WellFormedEvaluator(evs[k], |types|) && evs[k].f in assertions && NoBooleans(evs[k].f, types)
    {
      assert EvaluatorFor(evs[k], assertions[k], types, utypes, epsilon);
      AssertionVars(assertions[k], types, utypes);
    }
  }

  /** What filtering kept and the search refuted is refuted from the start. */
  lemma RefutedFromStart(types: seq<VarType>, b0: Box, b1: Box, U: set<Formula>, W: set<nat>, U': set<Formula>,
                         W': set<nat>)
    requires Keeps(types, b0, b1, U, W) && U <= U' && W <= W' && Refuted(types, b1, U', W')
    ensures Refuted(types, b0, U', W')
  {
    KeepsTrans(types, b0, b1, NoPoints, U, W, U', W');
  }
}
