/** Assembling contractors: flattening (contractor/contractor.cc), compilation of
    a matrix (contractor/generic_contractor_generator.cc), and the contractor of
    a forall with what it decides (contractor/contractor_forall.h). */
module ContractorBuilder {
  import opened Symbolic
  import opened Boxes
  import opened Explanations
  import opened ContractorSpec
  import opened Nnf
  import opened Delta
  import opened Evaluator
  import opened ForallQuery

  // -------------------------------------------------------------- assembly

  /** Drops identities and splices sequences, one level deep. */
  function Flatten(cs: seq<Contractor>): seq<Contractor> {
    if cs == [] then []
    else
      (match cs[0]
       case Id => []
       case SeqCtc(ds) => ds
       case c => [c]) + Flatten(cs[1..])
  }

  ghost predicate AllSat(cs: seq<Contractor>, types: seq<VarType>, p: Point) {
    forall j | 0 <= j < |cs| :: Sat(cs[j], types, p)
  }

  lemma AllSatAppend(cs: seq<Contractor>, ds: seq<Contractor>, types: seq<VarType>, p: Point)
    ensures AllSat(cs + ds, types, p) <==> AllSat(cs, types, p) && AllSat(ds, types, p)
  {
    var es := cs + ds;
    if AllSat(es, types, p) {
      forall j | 0 <= j < |cs| ensures Sat(cs[j], types, p) { assert es[j] == cs[j]; }
      forall j | 0 <= j < |ds| ensures Sat(ds[j], types, p) { assert es[|cs| + j] == ds[j]; }
    }
  }

  lemma {:induction false} FlattenMeaning(cs: seq<Contractor>, types: seq<VarType>, p: Point)
    ensures AllSat(Flatten(cs), types, p) <==> AllSat(cs, types, p)
  {
    if cs == [] {
    } else {
      FlattenMeaning(cs[1..], types, p);
      var head := match cs[0] case Id => [] case SeqCtc(ds) => ds case c => [c];
      AllSatAppend(head, Flatten(cs[1..]), types, p);
      AllSatAppend([cs[0]], cs[1..], types, p);
      assert cs == [cs[0]] + cs[1..];
      assert AllSat(head, types, p) <==> Sat(cs[0], types, p);
      assert AllSat([cs[0]], types, p) <==> Sat([cs[0]][0], types, p);
    }
  }

  /** The operands are well-formed and change dimensions of `vs` only. */
  ghost predicate Operate(cs: seq<Contractor>, types: seq<VarType>, vs: set<nat>) {
    forall j | 0 <= j < |cs| :: WellFormed(cs[j], types) && Inputs(cs[j], types) <= vs
  }

  lemma {:induction false} FlattenOperates(cs: seq<Contractor>, types: seq<VarType>, vs: set<nat>)
    requires Operate(cs, types, vs)
    ensures Operate(Flatten(cs), types, vs)
  {
    if cs == [] {
    } else {
      FlattenOperates(cs[1..], types, vs);
      if cs[0].SeqCtc? {
        forall j | 0 <= j < |cs[0].cs|
          ensures WellFormed(cs[0].cs[j], types) && Inputs(cs[0].cs[j], types) <= vs
        {
          assert Inputs(cs[0].cs[j], types) <= Inputs(cs[0], types);
        }
      }
    }
  }

  /** `make_contractor_ibex_fwdbwd`: HC4 has nothing to do for disequalities. */
  function MakeFwdbwd(f: Formula): Contractor {
    if f.True? || IsNeq(f, true) then Id else Fwdbwd(f)
  }

  function MakeInteger(types: seq<VarType>): Contractor {
    if IntDims(types) == {} then Id else IntegerCtc
  }

  // ------------------------------------------------------ matrix compilation

  /** `GenericContractorGenerator::Visit` on a formula in negation normal form;
      `None` stands for its runtime errors. */
  function Compile(f: Formula): Option<Contractor> {
    match f
    case True => Some(Id)
    case Rel(_, _, _) => Some(MakeFwdbwd(f))
    case And(fs) =>
      (match CompileAll(fs)
       case Some(cs) => Some(SeqCtc(Flatten(cs)))
       case None => None)
    case Or(fs) =>
      (match CompileAll(fs)
       case Some(cs) => Some(JoinCtc(cs))
       case None => None)
    case _ => None
  }

  function CompileAll(fs: seq<Formula>): (r: Option<seq<Contractor>>)
    ensures r.Some? ==> |r.value| == |fs|
    ensures r.Some? ==> forall i | 0 <= i < |fs| :: Compile(fs[i]) == Some(r.value[i])
  {
    if fs == [] then Some([])
    else
      match (Compile(fs[0]), CompileAll(fs[1..]))
      case (Some(c), Some(cs)) => Some([c] + cs)
      case _ => None
  }

  /** No disequality among the atoms: HC4 then takes part for each of them. */
  predicate DisequalityFree(f: Formula) {
    match f
    case Rel(op, _, _) => op != NEQ
    case And(fs) => forall i | 0 <= i < |fs| :: DisequalityFree(fs[i])
    case Or(fs) => forall i | 0 <= i < |fs| :: DisequalityFree(fs[i])
    case _ => true
  }

  /** The compiled contractor keeps every point of the formula, and stands for
      no more than the formula when there is no disequality in it. */
  lemma {:induction false} CompileMeaning(f: Formula, types: seq<VarType>, p: Point)
    requires Compile(f).Some?
    ensures Holds(f, p) ==> Sat(Compile(f).value, types, p)
    ensures DisequalityFree(f) && Sat(Compile(f).value, types, p) ==> Holds(f, p)
  {
    match f
    case And(fs) =>
      var cs := CompileAll(fs).value;
      forall i | 0 <= i < |fs|
        ensures Holds(fs[i], p) ==> Sat(cs[i], types, p)
        ensures DisequalityFree(fs[i]) && Sat(cs[i], types, p) ==> Holds(fs[i], p)
      {
        CompileMeaning(fs[i], types, p);
      }
      FlattenMeaning(cs, types, p);
      assert Sat(SeqCtc(Flatten(cs)), types, p) <==> AllSat(Flatten(cs), types, p);
    case Or(fs) =>
      var cs := CompileAll(fs).value;
      forall i | 0 <= i < |fs|
        ensures Holds(fs[i], p) ==> Sat(cs[i], types, p)
        ensures DisequalityFree(fs[i]) && Sat(cs[i], types, p) ==> Holds(fs[i], p)
      {
        CompileMeaning(fs[i], types, p);
      }
    case _ =>
  }

  lemma {:induction false} FlattenLoopless(cs: seq<Contractor>)
    requires AllLoopless(cs)
    ensures AllLoopless(Flatten(cs))
  {
    if cs == [] {
    } else {
      assert Loopless(cs[0]);
      FlattenLoopless(cs[1..]);
    }
  }

  lemma {:induction false} CompileLoopless(f: Formula)
    requires Compile(f).Some?
    ensures Loopless(Compile(f).value)
  {
    match f
    case And(fs) =>
      var cs := CompileAll(fs).value;
      forall i | 0 <= i < |fs| ensures Loopless(cs[i]) { CompileLoopless(fs[i]); }
      FlattenLoopless(cs);
    case Or(fs) =>
      var cs := CompileAll(fs).value;
      forall i | 0 <= i < |fs| ensures Loopless(cs[i]) { CompileLoopless(fs[i]); }
    case _ =>
  }

  lemma {:induction false} CompileOperates(f: Formula, types: seq<VarType>)
    requires Compile(f).Some? && FreeVars(f) <= Dims(types)
    ensures WellFormed(Compile(f).value, types) && Inputs(Compile(f).value, types) <= FreeVars(f)
  {
    match f
    case And(fs) =>
      var cs := CompileAll(fs).value;
      forall i | 0 <= i < |fs| ensures WellFormed(cs[i], types) && Inputs(cs[i], types) <= FreeVars(f) {
        assert FreeVars(fs[i]) <= FreeVars(f);
        CompileOperates(fs[i], types);
      }
      FlattenOperates(cs, types, FreeVars(f));
    case Or(fs) =>
      var cs := CompileAll(fs).value;
      forall i | 0 <= i < |fs| ensures WellFormed(cs[i], types) && Inputs(cs[i], types) <= FreeVars(f) {
        assert FreeVars(fs[i]) <= FreeVars(f);
        CompileOperates(fs[i], types);
      }
    case _ =>
  }

  // ------------------------------------------------------ the forall contractor

  /** A forall over the dimensions after the box, with a quantifier-free matrix. */
  ghost predicate ForallOver(f: Formula, types: seq<VarType>, utypes: seq<VarType>) {
    && f.Forall? && IsPlain(f.body)
    && f.vars == Dims(types + utypes) - Dims(types)
    && FreeVars(f.body) <= Dims(types + utypes)
  }

  /** The query is the counterexample query of the matrix, up to equivalence. */
  ghost predicate QueryFor(f: Formula, types: seq<VarType>, utypes: seq<VarType>, epsilon: real, query: Formula)
    requires f.Forall?
  {
    exists narrow :: IsQuery(types + utypes, f.vars, f.body, epsilon, query, narrow)
  }

  /** The contractor of a forall: the compiled matrix and the counterexample query
      at `epsilon`. */
  ghost predicate BuiltFor(c: Contractor, f: Formula, types: seq<VarType>, utypes: seq<VarType>, epsilon: real) {
    && c.ForallCtc? && c.f == f && c.utypes == utypes && ForallOver(f, types, utypes) && epsilon > 0.0
    && Compile(Convert(f.body, true)) == Some(c.inner) && QueryFor(f, types, utypes, epsilon, c.query)
  }

  /** It keeps every point of the forall and works on the variables it should. */
  lemma BuiltIsWellFormed(c: Contractor, f: Formula, types: seq<VarType>, utypes: seq<VarType>, epsilon: real)
    requires BuiltFor(c, f, types, utypes, epsilon)
    ensures WellFormed(c, types)
  {
    var all := types + utypes;
    var matrix := Convert(f.body, true);
    NnfVars(f.body, true, true);
    CompileOperates(matrix, all);
    CompileLoopless(matrix);
    forall p | Holds(f.body, p) ensures Sat(c.inner, all, p) {
      NnfMeaning(f.body, true, true, p);
      CompileMeaning(matrix, all, p);
    }
  }

  /** The constructor of `ContractorForall`. */
  method MakeForall(f: Formula, types: seq<VarType>, utypes: seq<VarType>, epsilon: real)
    returns (c: Option<Contractor>)
    requires ForallOver(f, types, utypes) && epsilon > 0.0
    ensures c.None? <==> Compile(Convert(f.body, true)).None?
    ensures c.Some? ==> BuiltFor(c.value, f, types, utypes, epsilon) && WellFormed(c.value, types)
  {
    var strengthened, narrow := StrengthenForallCounterexampleQuery(types + utypes, f.vars, f.body, epsilon);
    var query := Convert(strengthened, true);
    match Compile(Convert(f.body, true)) {
      case None => return None;
      case Some(inner) =>
        c := Some(ForallCtc(f, utypes, query, inner));
        forall p ensures Holds(query, p) <==> Holds(strengthened, p) { NnfMeaning(strengthened, true, true, p); }
        assert IsQuery(types + utypes, f.vars, f.body, epsilon, query, narrow);
        BuiltIsWellFormed(c.value, f, types, utypes, epsilon);
    }
  }

  /** When no counterexample is left over a box, every typed point of the box
      and every value of the universal variables satisfy the weakened matrix. */
  lemma NoCounterexampleDecides(f: Formula, types: seq<VarType>, utypes: seq<VarType>, epsilon: real,
                                query: Formula, b: Box, grid: bool, p: Point)
    requires ForallOver(f, types, utypes) && epsilon > 0.0 && QueryFor(f, types, utypes, epsilon, query)
    requires NoModel(types + utypes, query, b, grid) && TypedIn(types + utypes, b, grid, p)
    ensures Holds(DeltaWeaken(f.body, epsilon), p)
  {
    var narrow :| IsQuery(types + utypes, f.vars, f.body, epsilon, query, narrow);
    NoCounterexampleWeakens(types + utypes, f.vars, f.body, epsilon, query, narrow, p);
  }

  /** At every typed point of the box, universal variables included, the matrix
      holds weakened by `epsilon`; with `grid`, at those on the grid. */
  ghost predicate WeakenedOver(f: Formula, types: seq<VarType>, b: Box, epsilon: real, grid: bool)
    requires f.Forall?
  {
    epsilon > 0.0 && IsPlain(f.body) && forall p | TypedIn(types, b, grid, p) :: Holds(DeltaWeaken(f.body, epsilon), p)
  }

  /** The query is the one of `f` at `epsilon`, and the nested solver is right when
      it finds no counterexample. */
  ghost predicate Decides(fo: Foreign, f: Formula, types: seq<VarType>, utypes: seq<VarType>, query: Formula,
                          epsilon: real, grid: bool) {
    && ForallOver(f, types, utypes) && epsilon > 0.0 && QueryFor(f, types, utypes, epsilon, query)
    && SolveRefutes(fo, types + utypes, query, |types|, grid)
  }

  /** A box over which the nested solver finds no counterexample satisfies the
      weakened matrix for all values of the universal variables. */
  lemma ExhaustedIsWeakened(fo: Foreign, f: Formula, types: seq<VarType>, utypes: seq<VarType>, query: Formula,
                            epsilon: real, b: Box, side: bool, grid: bool)
    requires Decides(fo, f, types, utypes, query, epsilon, grid)
    requires ValidBox(b, |types|) && fo.solve(query, b, side).None?
    ensures WeakenedOver(f, types + utypes, b, epsilon, grid)
  {
    forall p | TypedIn(types + utypes, b, grid, p) ensures Holds(DeltaWeaken(f.body, epsilon), p) {
      NoCounterexampleDecides(f, types, utypes, epsilon, query, b, grid, p);
    }
  }

  /** A counterexample over a point box refutes the forall there. */
  lemma CounterexampleRefutes(f: Formula, types: seq<VarType>, utypes: seq<VarType>, epsilon: real,
                              query: Formula, p: Point)
    requires ForallOver(f, types, utypes) && epsilon > 0.0 && QueryFor(f, types, utypes, epsilon, query)
    requires Holds(query, p)
    ensures !Holds(f, p)
  {
    var narrow :| IsQuery(types + utypes, f.vars, f.body, epsilon, query, narrow);
    QueryImpliesNegation(types + utypes, f.vars, f.body, epsilon, query, narrow, p);
    assert AgreeOff(p, p, f.vars);
  }
}
