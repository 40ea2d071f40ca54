/** Branch and prune (solver/icp.cc, solver/icp_seq.cc): the evaluation of a box
    and the depth-first search over a stack of boxes. */
module Icp {
  import opened Symbolic
  import opened Boxes
  import opened Explanations
  import opened ContractorStatuses
  import opened ContractorSpec
  import opened PruneRuns
  import opened Contractors
  import opened Delta
  import opened Evaluator
  import opened Brancher

  /** A formula evaluator: relational, or for a forall with its counterexample
      query over the box extended by the universal variables. */
  datatype FormulaEvaluator =
    | RelEval(f: Formula)
    | ForallEval(f: Formula, utypes: seq<VarType>, query: Formula)

  /** The literals of a clause. */
  function Literals(f: Formula): seq<Formula> {
    if f.Or? then f.fs else [f]
  }

  predicate AllEvaluable(fs: seq<Formula>, n: nat) {
    forall j | 0 <= j < |fs| :: Evaluable(fs[j], n)
  }

  predicate WellFormedEvaluator(ev: FormulaEvaluator, n: nat) {
    match ev
    case RelEval(f) => Evaluable(f, n) && VarsBelow(FreeVars(f), n)
    case ForallEval(f, utypes, _) =>
      && f.Forall? && VarsBelow(FreeVars(f), n)
      && AllEvaluable(Literals(f.body), n + |utypes|)
  }

  predicate WellFormedEvaluators(evs: seq<FormulaEvaluator>, n: nat) {
    forall k | 0 <= k < |evs| :: WellFormedEvaluator(evs[k], n)
  }

  /** No constraint has a Boolean variable, which cannot be split. */
  ghost predicate ArithmeticOnly(evs: seq<FormulaEvaluator>, types: seq<VarType>) {
    forall k | 0 <= k < |evs| :: NoBooleans(evs[k].f, types)
  }

  function FormulasOf(evs: seq<FormulaEvaluator>): set<Formula> {
    set k | 0 <= k < |evs| :: evs[k].f
  }

  // -------------------------------------------------------- forall evaluation

  function DiamOf(g: Range): Ext {
    if g.lo.Fin? && g.hi.Fin? then Fin(g.hi.r - g.lo.r) else PosInf
  }

  function MagOf(g: Range): Ext {
    EMax(if g.lo.Fin? then Fin(RAbs(g.lo.r)) else PosInf, if g.hi.Fin? then Fin(RAbs(g.hi.r)) else PosInf)
  }

  /** What one literal contributes to the spread of a forall: its magnitude when
      the counterexample refutes it, else its diameter. */
  function Spread(g: Formula, b: Box): Ext
    requires b.Box? && Evaluable(g, |b.iv|)
  {
    var r := EvaluateRelational(g, b);
    if r.kind == UNSAT then MagOf(r.evaluation) else DiamOf(r.evaluation)
  }

  /** Every literal contributes at most `bound`. */
  predicate SpreadWithin(fs: seq<Formula>, b: Box, bound: Ext)
    requires b.Box? && AllEvaluable(fs, |b.iv|)
  {
    forall j | 0 <= j < |fs| :: Leq(Spread(fs[j], b), bound)
  }

  /** `m` is the largest contribution, or zero. */
  ghost predicate IsSpread(fs: seq<Formula>, b: Box, m: Ext)
    requires b.Box? && AllEvaluable(fs, |b.iv|)
  {
    && SpreadWithin(fs, b, m)
    && (m == Fin(0.0) || exists j | 0 <= j < |fs| :: Spread(fs[j], b) == m)
  }

  /** The counterexample with the existential dimensions replaced by the box. */
  function CounterexampleBox(b: Box, ce: Box, m: nat): (r: Box)
    requires b.Box?
    ensures r.Box? && |r.iv| == |b.iv| + m
  {
    Box(seq(|b.iv| + m, i requires 0 <= i < |b.iv| + m =>
      if i < |b.iv| then b.iv[i] else if ce.Box? && i < |ce.iv| then ce.iv[i] else Interval(-INF, INF)))
  }

  /** `ForallFormulaEvaluator::operator()`. */
  method EvaluateForall(fo: Foreign, ev: FormulaEvaluator, b: Box) returns (r: EvalResult)
    requires ev.ForallEval? && b.Box? && WellFormedEvaluator(ev, |b.iv|)
    ensures r.kind == if fo.solve(ev.query, b, false).None? then VALID else UNKNOWN
    ensures r.kind == UNKNOWN ==>
              var cb := CounterexampleBox(b, fo.solve(ev.query, b, false).value, |ev.utypes|);
              r.evaluation.lo == Fin(0.0) && IsSpread(Literals(ev.f.body), cb, r.evaluation.hi)
  {
    var ce := fo.solve(ev.query, b, false);
    match ce {
      case None => return EvalResult(VALID, Range(Fin(0.0), Fin(0.0)));
      case Some(counterexample) =>
        var cb := CounterexampleBox(b, counterexample, |ev.utypes|);
        var literals := Literals(ev.f.body);
        var maxDiam := Fin(0.0);
        var i := 0;
        while i < |literals|
          invariant 0 <= i <= |literals|
          invariant AllEvaluable(literals, |cb.iv|)
          invariant forall j | 0 <= j < i :: Leq(Spread(literals[j], cb), maxDiam)
          invariant maxDiam == Fin(0.0) || exists j | 0 <= j < i :: Spread(literals[j], cb) == maxDiam
        {
          var diam := Spread(literals[i], cb);
          if !Leq(diam, maxDiam) { maxDiam := diam; }
          i := i + 1;
        }
        return EvalResult(UNKNOWN, Range(Fin(0.0), maxDiam));
    }
  }

  // ------------------------------------------------------------- certificates

  /** Every point of the box satisfies the formula weakened by `precision`. */
  ghost predicate Weakened(f: Formula, b: Box, precision: real)
    requires precision > 0.0
  {
    IsPlain(f) && forall p | InBox(b, p) :: Holds(DeltaWeaken(f, precision), p)
  }

  /** Constraints that never make the search branch and that nothing certifies: a
      negated equality, and a bound on one variable that the box exceeds. */
  predicate Exempt(f: Formula, b: Box)
    requires b.Box?
  {
    || FreeVars(f) == {}
    || (IsLiteral(f) && (NegatedEquality(f) || (IsSimpleRelational(f) && !InsideBound(f, b))))
  }

  /** Over the whole box the constraint holds up to `precision`; for a forall,
      there is no counterexample or its literals spread by at most `precision`
      around the one found. */
  ghost predicate CertifiedBy(fo: Foreign, ev: FormulaEvaluator, b: Box, precision: real)
    requires b.Box? && WellFormedEvaluator(ev, |b.iv|) && precision > 0.0
  {
    match ev
    case RelEval(f) => Exempt(f, b) || Weakened(f, b, precision)
    case ForallEval(f, utypes, query) =>
      || FreeVars(f) == {}
      || fo.solve(query, b, false).None?
      || SpreadWithin(Literals(f.body), CounterexampleBox(b, fo.solve(query, b, false).value, |utypes|), Fin(precision))
  }

  /** A literal on one variable compares the variable with the constant, or the
      constant with the variable. */
  lemma {:induction false} BoundShape(f: Formula, polarity: bool)
    requires IsLiteral(f) && AsBound(f, polarity).Some?
    ensures var bd := AsBound(f, polarity).value;
            var op := if polarity then OperatorOf(f) else Negate(OperatorOf(f));
            || (DifferenceOf(f) == Sub(Var(bd.v), Const(bd.c as real)) && bd.op == op)
            || (DifferenceOf(f) == Sub(Const(bd.c as real), Var(bd.v)) && bd.op == Mirror(op))
  {
    if f.Rel? {
    } else {
      BoundShape(f.f, !polarity);
    }
  }

  lemma DifferenceFromConstant(v: nat, c: real, p: Point)
    ensures Eval(Sub(Var(v), Const(c)), p) == p(v) - c && Eval(Sub(Const(c), Var(v)), p) == c - p(v)
  {
    SubMeaning(Var(v), Const(c), p);
    SubMeaning(Const(c), Var(v), p);
    assert Eval(Var(v), p) == p(v);
    assert Eval(Const(c), p) == c;
  }

  /** A value in the closure of a bound meets the bound weakened. */
  lemma ClosureIsWeakened(op: RelOp, c: int, iv: Interval, x: real, d: real)
    requires Finite(c) && Within(iv, ClosedBound(op, c)) && Contains(iv, x) && d < 0.0
    ensures RelShifted(op, x - c as real, d) && RelShifted(Mirror(op), c as real - x, d)
  {
  }

  lemma InsideBoundHolds(f: Formula, b: Box, precision: real, p: Point)
    requires b.Box? && precision > 0.0 && IsLiteral(f) && IteFreeExpr(DifferenceOf(f))
    requires InsideBound(f, b) && !NegatedEquality(f) && InBox(b, p)
    ensures IsPlain(f) && Holds(DeltaWeaken(f, precision), p)
  {
    var bd := AsBound(f, true).value;
    var v: nat := bd.v;
    assert Contains(b.iv[v], p(v));
    AsBoundIsFinite(f, true);
    BoundShape(f, true);
    DifferenceFromConstant(v, bd.c as real, p);
    ClosureIsWeakened(bd.op, bd.c, b.iv[v], p(v), -precision);
    LiteralShifted(f, -precision, p);
  }

  /** Inside the closure of a bound, the bound holds weakened by any margin, also
      where filtering gives up its strictness. */
  lemma InsideBoundIsWeakened(f: Formula, b: Box, precision: real)
    requires b.Box? && precision > 0.0 && Evaluable(f, |b.iv|)
    requires InsideBound(f, b) && !NegatedEquality(f)
    ensures Weakened(f, b, precision)
  {
    InScopeVars(DifferenceOf(f), |b.iv|);
    LiteralIsPlain(f);
    forall p | InBox(b, p) ensures Holds(DeltaWeaken(f, precision), p) { InsideBoundHolds(f, b, precision, p); }
  }

  /** The constraint asks for branching: it is undecided over the box, varies by
      more than `precision`, and is not exempt. */
  ghost predicate NeedsBranching(fo: Foreign, ev: FormulaEvaluator, b: Box, precision: real)
    requires b.Box? && WellFormedEvaluator(ev, |b.iv|)
  {
    match ev
    case RelEval(f) =>
      var r := EvaluateRelational(f, b);
      r.kind == UNKNOWN && !Narrow(r.evaluation, precision) && !IsSimpleRelational(f) && !IsNeq(f, true)
    case ForallEval(f, utypes, query) =>
      && fo.solve(query, b, false).Some?
      && !SpreadWithin(Literals(f.body), CounterexampleBox(b, fo.solve(query, b, false).value, |utypes|),
           Fin(precision))
  }

  /** The constraint has no solution in the box. */
  predicate EvaluatesUnsat(ev: FormulaEvaluator, b: Box)
    requires b.Box? && WellFormedEvaluator(ev, |b.iv|)
  {
    ev.RelEval? && EvaluateRelational(ev.f, b).kind == UNSAT
  }

  /** A constraint that neither fails nor asks for branching is certified. */
  lemma SettledIsCertified(fo: Foreign, ev: FormulaEvaluator, b: Box, precision: real)
    requires b.Box? && precision > 0.0 && WellFormedEvaluator(ev, |b.iv|)
    requires !EvaluatesUnsat(ev, b) && !NeedsBranching(fo, ev, b, precision)
    ensures CertifiedBy(fo, ev, b, precision)
  {
    if ev.RelEval? { RelationalIsCertified(fo, ev.f, b, precision); }
  }

  lemma RelationalIsCertified(fo: Foreign, f: Formula, b: Box, precision: real)
    requires b.Box? && precision > 0.0 && WellFormedEvaluator(RelEval(f), |b.iv|)
    requires var r := EvaluateRelational(f, b);
             r.kind == VALID ||
             (r.kind == UNKNOWN && (Narrow(r.evaluation, precision) || IsSimpleRelational(f) || IsNeq(f, true)))
    ensures CertifiedBy(fo, RelEval(f), b, precision)
  {
    IsNeqMeansNeq(f, true);
    InScopeVars(DifferenceOf(f), |b.iv|);
    LiteralIsPlain(f);
    if Exempt(f, b) {
    } else if IsSimpleRelational(f) {
      InsideBoundIsWeakened(f, b, precision);
    } else {
      forall p | InBox(b, p) ensures Holds(DeltaWeaken(f, precision), p) {
        DeltaCertificate(f, b, precision, p);
      }
    }
  }

  /** What a small spread around a counterexample means: over the whole box that
      the existential dimensions span with it, every literal of the clause holds
      weakened by any margin above the spread. */
  lemma SpreadMeansWeakened(fs: seq<Formula>, b: Box, precision: real, d: real, j: nat, p: Point)
    requires b.Box? && AllEvaluable(fs, |b.iv|) && j < |fs| && !NegatedEquality(fs[j])
    requires 0.0 < precision < d && SpreadWithin(fs, b, Fin(precision)) && InBox(b, p)
    ensures IsPlain(fs[j]) && Holds(DeltaWeaken(fs[j], d), p)
  {
    var f := fs[j];
    assert Leq(Spread(f, b), Fin(precision));
    InScopeVars(DifferenceOf(f), |b.iv|);
    LiteralIsPlain(f);
    if EvaluateRelational(f, b).kind == UNSAT {
      EvalEncloses(DifferenceOf(f), b, p);
      LiteralShifted(f, -d, p);
    } else {
      DeltaCertificate(f, b, precision, p);
      ShiftIsMonotone(f, -d, -precision, p);
    }
  }

  // ------------------------------------------------------------ EvaluateBox

  /** The variables of the first `n` constraints that ask for branching. */
  ghost function Candidates(fo: Foreign, evs: seq<FormulaEvaluator>, n: nat, b: Box, precision: real): set<nat>
    requires n <= |evs| && b.Box? && WellFormedEvaluators(evs, |b.iv|)
  {
    set k, v | 0 <= k < n && NeedsBranching(fo, evs[k], b, precision) && v in FreeVars(evs[k].f) :: v
  }

  lemma CandidatesStep(fo: Foreign, evs: seq<FormulaEvaluator>, n: nat, b: Box, precision: real)
    requires n < |evs| && b.Box? && WellFormedEvaluators(evs, |b.iv|)
    ensures Candidates(fo, evs, n + 1, b, precision) ==
            Candidates(fo, evs, n, b, precision) +
              (if NeedsBranching(fo, evs[n], b, precision) then FreeVars(evs[n].f) else {})
  {
  }

  /** The first constraint without a solution in the box is `evs[k]`. */
  predicate FirstUnsat(evs: seq<FormulaEvaluator>, b: Box, k: nat)
    requires b.Box? && WellFormedEvaluators(evs, |b.iv|)
  {
    k < |evs| && EvaluatesUnsat(evs[k], b) && forall j | 0 <= j < k :: !EvaluatesUnsat(evs[j], b)
  }

  /** The status after a constraint has emptied the box: it is recorded with its
      variables. */
  function RefutedBy(s: Snapshot, f: Formula): Snapshot {
    Snapshot(NoPoints, s.output, s.used + {f}, s.unsatWitness + FreeVars(f))
  }

  /** `EvaluateBox`: `None` when some constraint has no solution in the box, else
      the variables of exactly those constraints that ask for branching. */
  method EvaluateBox(fo: Foreign, evs: seq<FormulaEvaluator>, precision: real, cs: ContractorStatus)
    returns (r: Option<set<nat>>)
    requires cs.Valid() && cs.box.Box? && precision > 0.0 && WellFormedEvaluators(evs, |cs.types|)
    modifies cs
    ensures cs.Valid() && cs.branchingPoint == old(cs.branchingPoint)
    ensures r.None? <==> exists k | 0 <= k < |evs| :: EvaluatesUnsat(evs[k], old(cs.box))
    ensures r.Some? ==> cs.Snap() == old(cs.Snap()) && r.value == Candidates(fo, evs, |evs|, cs.box, precision)
    ensures r.None? ==> exists k: nat ::
              FirstUnsat(evs, old(cs.box), k) && cs.Snap() == RefutedBy(old(cs.Snap()), evs[k].f)
  {
    var b := cs.box;
    var candidates: set<nat> := {};
    var k := 0;
    while k < |evs|
      invariant 0 <= k <= |evs| && cs.Valid() && cs.Snap() == old(cs.Snap()) &&
                cs.branchingPoint == old(cs.branchingPoint)
      invariant candidates == Candidates(fo, evs, k, b, precision)
      invariant forall j | 0 <= j < k :: !EvaluatesUnsat(evs[j], b)
    {
      var ev := evs[k];
      assert WellFormedEvaluator(ev, |cs.types|);
      var result := Evaluate(fo, ev, b);
      CandidatesStep(fo, evs, k, b, precision);
      match result.kind {
        case UNSAT =>
          assert FirstUnsat(evs, b, k);
          cs.box := NoPoints;
          cs.AddUsedConstraint(ev.f);
          return None;
        case VALID =>
        case UNKNOWN =>
          var simple := IsSimpleRelational(ev.f) || IsNeq(ev.f, true);
          if ev.ForallEval? { BranchingTest(fo, ev, b, precision, result.evaluation); }
          if !Narrow(result.evaluation, precision) && !simple {
            candidates := candidates + FreeVars(ev.f);
          }
      }
      k := k + 1;
    }
    return Some(candidates);
  }

  /** For a forall the test on the evaluation is the test on the spread. */
  lemma BranchingTest(fo: Foreign, ev: FormulaEvaluator, b: Box, precision: real, g: Range)
    requires b.Box? && WellFormedEvaluator(ev, |b.iv|) && ev.ForallEval? && precision > 0.0
    requires fo.solve(ev.query, b, false).Some? && g.lo == Fin(0.0)
    requires IsSpread(Literals(ev.f.body), CounterexampleBox(b, fo.solve(ev.query, b, false).value, |ev.utypes|), g.hi)
    ensures NeedsBranching(fo, ev, b, precision) <==>
            !Narrow(g, precision) && !(IsSimpleRelational(ev.f) || IsNeq(ev.f, true))
  {
  }

  /** What the evaluation of a box means for the search. */
  lemma EvaluationMeaning(fo: Foreign, evs: seq<FormulaEvaluator>, types: seq<VarType>, b: Box, precision: real)
    requires ValidBox(b, |types|) && b.Box? && precision > 0.0 && WellFormedEvaluators(evs, |types|)
    ensures VarsBelow(Candidates(fo, evs, |evs|, b, precision), |types|)
    ensures forall k | 0 <= k < |evs| && !EvaluatesUnsat(evs[k], b) ::
              CertifiedBy(fo, evs[k], b, precision) || FreeVars(evs[k].f) <= Candidates(fo, evs, |evs|, b, precision)
    ensures forall k, U, W | 0 <= k < |evs| && EvaluatesUnsat(evs[k], b) ::
            Keeps(types, b, NoPoints, U + {evs[k].f}, W + FreeVars(evs[k].f))
  {
    forall k | 0 <= k < |evs| && !EvaluatesUnsat(evs[k], b)
      ensures CertifiedBy(fo, evs[k], b, precision) || FreeVars(evs[k].f) <= Candidates(fo, evs, |evs|, b, precision)
    {
      if !NeedsBranching(fo, evs[k], b, precision) { SettledIsCertified(fo, evs[k], b, precision); }
    }
    forall k, U, W | 0 <= k < |evs| && EvaluatesUnsat(evs[k], b)
      ensures Keeps(types, b, NoPoints, U + {evs[k].f}, W + FreeVars(evs[k].f))
    {
      RefutedByEvaluation(types, b, evs[k].f, U + {evs[k].f}, W + FreeVars(evs[k].f));
    }
    forall v | v in Candidates(fo, evs, |evs|, b, precision) ensures v < |types| {
      var k :| 0 <= k < |evs| && v in FreeVars(evs[k].f);
      assert WellFormedEvaluator(evs[k], |types|);
    }
  }

  /** One evaluator call. */
  method Evaluate(fo: Foreign, ev: FormulaEvaluator, b: Box) returns (r: EvalResult)
    requires b.Box? && WellFormedEvaluator(ev, |b.iv|)
    ensures ev.RelEval? ==> r == EvaluateRelational(ev.f, b)
    ensures ev.ForallEval? ==> r.kind == if fo.solve(ev.query, b, false).None? then VALID else UNKNOWN
    ensures ev.ForallEval? && r.kind == UNKNOWN ==>
              var cb := CounterexampleBox(b, fo.solve(ev.query, b, false).value, |ev.utypes|);
              r.evaluation.lo == Fin(0.0) && IsSpread(Literals(ev.f.body), cb, r.evaluation.hi)
  {
    match ev
    case RelEval(f) => r := EvaluateRelational(f, b);
    case ForallEval(_, _, _) => r := EvaluateForall(fo, ev, b);
  }

  /** A constraint that evaluates to UNSAT refutes the box on its own. */
  lemma RefutedByEvaluation(types: seq<VarType>, b: Box, f: Formula, U: set<Formula>, W: set<nat>)
    requires ValidBox(b, |types|) && b.Box? && Evaluable(f, |types|) && EvaluateRelational(f, b).kind == UNSAT
    requires f in U && FreeVars(f) <= W
    ensures Keeps(types, b, NoPoints, U, W)
  {
    forall p | InBox(b, p) ensures !Obeys(f, p) {
      ClassificationIsSound(f, b, p);
    }
    KeepsByFormula(types, b, NoPoints, f, U, W);
  }

  // -------------------------------------------------------- the stack of boxes

  /** A stack entry: a box and the dimension whose split produced it, or -1. */
  type Entry = (Box, int)

  /** What a branching point can be: no dimension, or one that can be split. */
  predicate IsBranchingPoint(types: seq<VarType>, d: int) {
    -1 <= d < |types| && (d >= 0 ==> types[d] != BOOLEAN)
  }

  ghost predicate ValidStack(types: seq<VarType>, b0: Box, stack: seq<Entry>) {
    forall k | 0 <= k < |stack| ::
      ValidBox(stack[k].0, |types|) && SubBox(stack[k].0, b0) && IsBranchingPoint(types, stack[k].1)
  }

  ghost predicate StackCovers(stack: seq<Entry>, S: set<nat>, p: Point) {
    exists k :: 0 <= k < |stack| && Covers(stack[k].0, S, p)
  }

  /** Every candidate of the initial box is still in some box of the stack. */
  ghost predicate NothingLost(types: seq<VarType>, b0: Box, stack: seq<Entry>, U: set<Formula>, W: set<nat>) {
    forall S, p :: Admissible(types, S, p, U, W) && Covers(b0, S, p) ==> StackCovers(stack, S, p)
  }

  /** Replacing the top of the stack by boxes that hold all candidates left in it. */
  lemma NothingLostStep(types: seq<VarType>, b0: Box, rest: seq<Entry>, top: Entry, b: Box, news: seq<Entry>,
                        U: set<Formula>, W: set<nat>, U': set<Formula>, W': set<nat>)
    requires U <= U' && W <= W' && NothingLost(types, b0, rest + [top], U, W)
    requires Keeps(types, top.0, b, U', W')
    requires forall S, p | Admissible(types, S, p, U', W') && Covers(b, S, p) :: StackCovers(news, S, p)
    ensures NothingLost(types, b0, rest + news, U', W')
  {
    forall S, p | Admissible(types, S, p, U', W') && Covers(b0, S, p) ensures StackCovers(rest + news, S, p) {
      AdmissibleWithLess(types, S, p, U, W, U', W');
      var old_stack := rest + [top];
      var k :| 0 <= k < |old_stack| && Covers(old_stack[k].0, S, p);
      if k < |rest| {
        assert (rest + news)[k] == old_stack[k];
      } else {
        assert Covers(b, S, p);
        var j :| 0 <= j < |news| && Covers(news[j].0, S, p);
        assert (rest + news)[|rest| + j] == news[j];
      }
    }
  }

  lemma BothHalvesCover(types: seq<VarType>, b: Box, d: nat, news: seq<Entry>, U: set<Formula>, W: set<nat>)
    requires ValidBox(b, |types|) && b.Box? && d < |types| && CanSplit(types[d], b.iv[d])
    requires var (l, r) := Bisect(types, b, d); news == [(r, d), (l, d)] || news == [(l, d), (r, d)]
    ensures forall S, p | Admissible(types, S, p, U, W) && Covers(b, S, p) :: StackCovers(news, S, p)
  {
    forall S, p | Admissible(types, S, p, U, W) && Covers(b, S, p) ensures StackCovers(news, S, p) {
      BranchCovers(types, b, d, S, p, U, W);
      assert Covers(news[0].0, S, p) || Covers(news[1].0, S, p);
    }
  }

  // ------------------------------------------------------ termination measure

  function Pow3(n: nat): (r: nat)
    ensures r > 0
  {
    if n == 0 then 1 else 3 * Pow3(n - 1)
  }

  lemma {:induction false} Pow3Monotone(m: nat, n: nat)
    requires m <= n
    ensures Pow3(m) <= Pow3(n)
    decreases n
  {
    if m == n {
    } else {
      Pow3Monotone(m, n - 1);
    }
  }

  /** Two strictly narrower boxes together weigh less than their parent. */
  lemma ChildrenWeighLess(l: nat, r: nat, w: nat)
    requires l < w && r < w
    ensures Pow3(l) + Pow3(r) < Pow3(w)
  {
    Pow3Monotone(l, w - 1);
    Pow3Monotone(r, w - 1);
  }

  function BoxWeight(n: nat, b: Box): nat {
    if ValidBox(b, n) then Pow3(TotalWidth(b)) else 1
  }

  function StackWeight(n: nat, stack: seq<Entry>): nat {
    if stack == [] then 0
    else StackWeight(n, stack[..|stack| - 1]) + BoxWeight(n, stack[|stack| - 1].0)
  }

  lemma StackWeightPush(n: nat, stack: seq<Entry>, e: Entry)
    ensures StackWeight(n, stack + [e]) == StackWeight(n, stack) + BoxWeight(n, e.0)
    ensures BoxWeight(n, e.0) > 0
  {
    assert (stack + [e])[..|stack|] == stack;
  }

  /** Pushing the two halves of a narrowed box back lowers the weight. */
  lemma BranchWeight(n: nat, rest: seq<Entry>, top: Entry, b: Box, x: Entry, y: Entry)
    requires ValidBox(top.0, n) && ValidBox(b, n) && ValidBox(x.0, n) && ValidBox(y.0, n)
    requires SubBox(b, top.0) && TotalWidth(x.0) < TotalWidth(b) && TotalWidth(y.0) < TotalWidth(b)
    ensures StackWeight(n, rest + [x, y]) < StackWeight(n, rest + [top])
  {
    StackWeightPush(n, rest, top);
    StackWeightPush(n, rest, x);
    StackWeightPush(n, rest + [x], y);
    assert rest + [x] + [y] == rest + [x, y];
    WidthFalls(b, top.0, n);
    ChildrenWeighLess(TotalWidth(x.0), TotalWidth(y.0), TotalWidth(b));
    Pow3Monotone(TotalWidth(b), TotalWidth(top.0));
  }

  // ----------------------------------------------------------------- IcpSeq

  /** The configuration read by the search: precision, first branching side, the
      seed boxes, and the smear score when smear branching is on. */
  datatype IcpConfig = IcpConfig(precision: real, stackLeftBoxFirst: bool, seeds: seq<Box>,
                                 smear: Option<(Box, nat) -> real>)

  /** Contractors for which the search is sound: they record what they use. */
  ghost predicate SearchContractor(c: Contractor, types: seq<VarType>) {
    WellFormed(c, types) && JoinFree(c)
  }

  /** After every branching the contractor leaves integer ends in the integer
      dimensions, as the assertions of `bisect_int` demand. */
  ghost predicate AlwaysIntegral(c: Contractor, types: seq<VarType>) {
    forall branchingPoint | IsBranchingPoint(types, branchingPoint) :: EndsIntegral(c, types, branchingPoint)
  }

  ghost predicate ValidConfig(cfg: IcpConfig, types: seq<VarType>, b: Box) {
    cfg.precision > 0.0 && forall k | 0 <= k < |cfg.seeds| :: ValidBox(cfg.seeds[k], |types|) && SubBox(cfg.seeds[k], b)
  }

  /** Each constraint is certified over the box, or no variable of it can be
      split any further. */
  ghost predicate DeltaSat(fo: Foreign, evs: seq<FormulaEvaluator>, b: Box, precision: real) {
    && b.Box? && WellFormedEvaluators(evs, |b.iv|) && precision > 0.0
    && forall k | 0 <= k < |evs| ::
         CertifiedBy(fo, evs[k], b, precision) ||
         (forall v | v in FreeVars(evs[k].f) && v < |b.iv| :: !Bisectable(b.iv[v]))
  }

  /** The outcome of one turn of the search loop; `Aborted` when an assertion of
      `bisect_int` fails, or the dimension is a Boolean one. */
  datatype Turn = Discarded | Found | Branched(left: Box, right: Box, dim: int) | Aborted(dim: int)

  /** The outcome of a search; `Unfinished` when the steps granted to the workers
      of a parallel search end before all of them have left. */
  datatype Verdict = Satisfiable | Unsatisfiable | Failed | Unfinished

  /** Splitting dimension `dim` runs into an assertion of `bisect_int`, or into the
      unreachable case of `Box::bisect`. */
  predicate FailsToSplit(types: seq<VarType>, b: Box, dim: int)
    requires ValidBox(b, |types|)
  {
    b.Box? && 0 <= dim < |types| && Bisectable(b.iv[dim]) && !CanSplit(types[dim], b.iv[dim])
  }

  /** The contractor leaves integer ends after a split of the branching point, and
      the constraints have no Boolean variable: every split will succeed. */
  ghost predicate NeverAborts(types: seq<VarType>, c: Contractor, evs: seq<FormulaEvaluator>, branchingPoint: int) {
    EndsIntegral(c, types, branchingPoint) && ArithmeticOnly(evs, types)
  }

  /** What becomes of a pruned box: it is discarded if it is empty, or if some
      constraint has no solution in it, which is recorded; else it is kept as it
      is, and the turn follows from the candidates. */
  ghost predicate Judged(fo: Foreign, types: seq<VarType>, evs: seq<FormulaEvaluator>, precision: real,
                         smear: Option<(Box, nat) -> real>, p: Snapshot, s: Snapshot, turn: Turn)
  {
    && WellFormedEvaluators(evs, |types|) && ValidBox(p.box, |types|)
    && if p.box.NoPoints? then turn.Discarded? && s == p
       else if exists k: nat :: FirstUnsat(evs, p.box, k) then
         turn.Discarded? && exists k: nat :: FirstUnsat(evs, p.box, k) && s == RefutedBy(p, evs[k].f)
       else !turn.Discarded? && s == p && Chosen(fo, types, evs, precision, smear, p.box, turn)
  }

  /** A turn prunes the box and judges the result. */
  ghost predicate PrunedAndJudged(fo: Foreign, types: seq<VarType>, c: Contractor, evs: seq<FormulaEvaluator>,
                                  precision: real, smear: Option<(Box, nat) -> real>, branchingPoint: int,
                                  s0: Snapshot, s1: Snapshot, turn: Turn)
  {
    exists p: Snapshot ::
      Pruned(fo, types, c, branchingPoint, s0, p) && Judged(fo, types, evs, precision, smear, p, s1, turn)
  }

  /** What a turn may do to a status: the box is pruned and judged; it is empty, or
      certified as far as it can be, or split in two, and no candidate is lost. */
  ghost predicate Processed(fo: Foreign, types: seq<VarType>, c: Contractor, evs: seq<FormulaEvaluator>,
                            precision: real, smear: Option<(Box, nat) -> real>, branchingPoint: int,
                            s0: Snapshot, s1: Snapshot, turn: Turn)
  {
    && PrunedAndJudged(fo, types, c, evs, precision, smear, branchingPoint, s0, s1, turn)
    && ValidBox(s0.box, |types|) && ValidBox(s1.box, |types|) && SubBox(s1.box, s0.box)
    && s0.used <= s1.used <= s0.used + Constraints(c) + FormulasOf(evs)
    && s0.unsatWitness <= s1.unsatWitness
    && Keeps(types, s0.box, s1.box, s1.used, s1.unsatWitness)
    && (turn.Discarded? <==> s1.box.NoPoints?)
    && (turn.Found? ==> DeltaSat(fo, evs, s1.box, precision))
    && (turn.Branched? ==> HalvesOf(types, s1.box, turn.left, turn.right, turn.dim))
    && (turn.Aborted? ==>
          FailsToSplit(types, s1.box, turn.dim) && !NeverAborts(types, c, evs, branchingPoint))
  }

  /** The boxes are the halves of `b` in dimension `dim`. */
  ghost predicate HalvesOf(types: seq<VarType>, b: Box, left: Box, right: Box, dim: int)
    requires b.Box? && ValidBox(b, |types|)
  {
    0 <= dim < |types| && CanSplit(types[dim], b.iv[dim]) && (left, right) == Bisect(types, b, dim)
  }

  /** The choice made for a pruned box: no candidate dimension can be split, or
      the split is in the candidate dimension of largest diameter (of largest
      score, when smear branching is on). */
  ghost predicate Chosen(fo: Foreign, types: seq<VarType>, evs: seq<FormulaEvaluator>, precision: real,
                         smear: Option<(Box, nat) -> real>, b: Box, turn: Turn)
    requires b.Box? && ValidBox(b, |types|) && WellFormedEvaluators(evs, |types|)
  {
    var candidates := Candidates(fo, evs, |evs|, b, precision);
    && (turn.Found? ==> LargestFirst(b, candidates, -1))
    && (turn.Branched? ==> HalvesOf(types, b, turn.left, turn.right, turn.dim))
    && (turn.Aborted? ==> FailsToSplit(types, b, turn.dim))
    && (turn.Branched? || turn.Aborted? ==>
         && turn.dim in candidates
         && match smear
            case None => LargestFirst(b, candidates, turn.dim)
            case Some(score) => SmearFirst(score, b, candidates, turn.dim))
  }

  /** A constraint without a solution refutes the box. */
  lemma RefutationKeeps(evs: seq<FormulaEvaluator>, types: seq<VarType>, p: Snapshot, s: Snapshot)
    requires ValidBox(p.box, |types|) && p.box.Box? && WellFormedEvaluators(evs, |types|)
    requires exists k: nat :: FirstUnsat(evs, p.box, k) && s == RefutedBy(p, evs[k].f)
    ensures p.used <= s.used <= p.used + FormulasOf(evs) && p.unsatWitness <= s.unsatWitness
    ensures Keeps(types, p.box, NoPoints, s.used, s.unsatWitness)
  {
    var k: nat :| FirstUnsat(evs, p.box, k) && s == RefutedBy(p, evs[k].f);
    RefutedByEvaluation(types, p.box, evs[k].f, s.used, s.unsatWitness);
  }

  /** Evaluates a pruned box and picks a split. */
  method ChooseTurn(fo: Foreign, evs: seq<FormulaEvaluator>, cfg: IcpConfig, cs: ContractorStatus) returns (turn: Turn)
    requires cs.Valid() && cs.box.Box?
    requires WellFormedEvaluators(evs, |cs.types|) && cfg.precision > 0.0
    modifies cs
    ensures cs.Valid() && cs.branchingPoint == old(cs.branchingPoint)
    ensures turn.Discarded? <==> cs.box.NoPoints?
    ensures Judged(fo, cs.types, evs, cfg.precision, cfg.smear, old(cs.Snap()), cs.Snap(), turn)
    ensures !turn.Discarded? ==>
              && cs.Snap() == old(cs.Snap())
              && Chosen(fo, cs.types, evs, cfg.precision, cfg.smear, cs.box, turn)
    ensures turn.Discarded? ==>
              && old(cs.used) <= cs.used <= old(cs.used) + FormulasOf(evs) && old(cs.unsatWitness) <= cs.unsatWitness
              && Keeps(cs.types, old(cs.box), NoPoints, cs.used, cs.unsatWitness)
    ensures turn.Found? ==> DeltaSat(fo, evs, cs.box, cfg.precision)
  {
    EvaluationMeaning(fo, evs, cs.types, cs.box, cfg.precision);
    var result := EvaluateBox(fo, evs, cfg.precision, cs);
    if result.None? {
      RefutationKeeps(evs, cs.types, old(cs.Snap()), cs.Snap());
      return Discarded;
    }
    assert forall k | 0 <= k < |evs| :: !EvaluatesUnsat(evs[k], cs.box);
    var candidates := result.value;
    if candidates == {} { return Found; }
    var dim: int;
    match cfg.smear {
      case Some(score) => dim := FindSmear(score, cs.box, candidates);
      case None => dim := FindMaxDiam(cs.box, candidates);
    }
    if dim < 0 { return Found; }
    if !CanSplit(cs.types[dim], cs.box.iv[dim]) { return Aborted(dim); }
    var halves := Bisect(cs.types, cs.box, dim);
    return Branched(halves.0, halves.1, dim);
  }

  /** A bisectable candidate of a box with integer ends can be split. */
  lemma CandidateSplits(fo: Foreign, evs: seq<FormulaEvaluator>, types: seq<VarType>, b: Box, precision: real, d: nat)
    requires ValidBox(b, |types|) && b.Box? && WellFormedEvaluators(evs, |types|) && ArithmeticOnly(evs, types)
    requires d in Candidates(fo, evs, |evs|, b, precision) && d < |types| && Bisectable(b.iv[d])
    requires IntegralBox(types, b)
    ensures CanSplit(types[d], b.iv[d])
  {
    var k :| 0 <= k < |evs| && d in FreeVars(evs[k].f);
    assert NoBooleans(evs[k].f, types);
    if IsIntType(types[d]) { IntegralIsSplit(b.iv[d]); }
  }

  /** Prunes and evaluates the current box and picks a split. */
  method ProcessBox(fo: Foreign, c: Contractor, evs: seq<FormulaEvaluator>, cfg: IcpConfig, cs: ContractorStatus)
    returns (turn: Turn)
    requires SoundForeign(fo) && cs.Valid() && SearchContractor(c, cs.types)
    requires WellFormedEvaluators(evs, |cs.types|) && cfg.precision > 0.0
    modifies cs
    ensures cs.Valid() && cs.branchingPoint == old(cs.branchingPoint)
    ensures Processed(fo, cs.types, c, evs, cfg.precision, cfg.smear, cs.branchingPoint, old(cs.Snap()), cs.Snap(),
                      turn)
    ensures !turn.Discarded? ==> Achieves(fo, cs.types, c, cs.branchingPoint, old(cs.Snap()), cs.Snap())
  {
    ghost var b0 := cs.box;
    Prune(fo, c, cs);
    ghost var p := cs.Snap();
    if cs.box.NoPoints? {
      assert Judged(fo, cs.types, evs, cfg.precision, cfg.smear, p, p, Discarded);
      return Discarded;
    }
    ghost var b1, U1, W1 := cs.box, cs.used, cs.unsatWitness;
    turn := ChooseTurn(fo, evs, cfg, cs);
    if turn.Aborted? && NeverAborts(cs.types, c, evs, cs.branchingPoint) {
      CandidateSplits(fo, evs, cs.types, cs.box, cfg.precision, turn.dim);
    }
    if turn.Discarded? {
      KeepsTrans(cs.types, b0, b1, NoPoints, U1, W1, cs.used, cs.unsatWitness);
    }
  }

  // ------------------------------------------------------------ whole runs

  /** The state of the search between two turns. */
  datatype Search = Search(stack: seq<Entry>, leftFirst: bool, s: Snapshot)

  /** One turn of the search: the top of the stack is processed, and the halves of
      a split are pushed, the one explored first last. */
  ghost predicate SearchStep(fo: Foreign, types: seq<VarType>, c: Contractor, evs: seq<FormulaEvaluator>,
                             cfg: IcpConfig, x: Search, y: Search, turn: Turn)
  {
    && x.stack != []
    && var top, rest := x.stack[|x.stack| - 1], x.stack[..|x.stack| - 1];
       && PrunedAndJudged(fo, types, c, evs, cfg.precision, cfg.smear, top.1, x.s.(box := top.0), y.s, turn)
       && match turn
          case Branched(l, r, d) =>
            && y.stack == rest + (if x.leftFirst then [(r, d), (l, d)] else [(l, d), (r, d)])
            && y.leftFirst == !x.leftFirst
          case _ => y.stack == rest && y.leftFirst == x.leftFirst
  }

  /** `n` turns, each of which discards or splits a box. */
  ghost predicate Searches(fo: Foreign, types: seq<VarType>, c: Contractor, evs: seq<FormulaEvaluator>,
                           cfg: IcpConfig, n: nat, x: Search, y: Search)
  {
    if n == 0 then y == x
    else exists m: Search, turn ::
      && SearchStep(fo, types, c, evs, cfg, m, y, turn) && (turn.Discarded? || turn.Branched?)
      && Searches(fo, types, c, evs, cfg, n - 1, x, m)
  }

  /** The seeds are put on top of the box. */
  function SearchStart(cfg: IcpConfig, s: Snapshot): Search {
    Search([(s.box, -1)] + seq(|cfg.seeds|, k requires 0 <= k < |cfg.seeds| => (cfg.seeds[k], -1)),
           !cfg.stackLeftBoxFirst, s)
  }

  /** The search leads from the status `s0` to `s`: nothing is left on the stack,
      or the last turn accepted a box, or failed. */
  ghost predicate SearchRuns(fo: Foreign, types: seq<VarType>, c: Contractor, evs: seq<FormulaEvaluator>,
                             cfg: IcpConfig, s0: Snapshot, s: Snapshot, verdict: Verdict)
  {
    exists n: nat, y: Search ::
      && Searches(fo, types, c, evs, cfg, n, SearchStart(cfg, s0), y)
      && match verdict
         case Unsatisfiable => y.stack == [] && s == y.s
         case Satisfiable => LastTurn(fo, types, c, evs, cfg, y, s, true)
         case Failed => LastTurn(fo, types, c, evs, cfg, y, s, false)
         case Unfinished => false
  }

  ghost predicate LastTurn(fo: Foreign, types: seq<VarType>, c: Contractor, evs: seq<FormulaEvaluator>,
                           cfg: IcpConfig, y: Search, s: Snapshot, found: bool)
  {
    exists z: Search, turn ::
      SearchStep(fo, types, c, evs, cfg, y, z, turn) && s == z.s && if found then turn.Found? else turn.Aborted?
  }

  /** The first half of a turn: makes the box on top the current one and processes
      it. */
  method ProcessTop(fo: Foreign, c: Contractor, evs: seq<FormulaEvaluator>, cfg: IcpConfig, cs: ContractorStatus,
                    ghost rest: seq<Entry>, top: Entry, ghost s0: Snapshot)
    returns (turn: Turn)
    requires SoundForeign(fo) && cs.Valid() && SearchContractor(c, cs.types)
    requires WellFormedEvaluators(evs, |cs.types|) && cfg.precision > 0.0
    requires SearchState(cs.types, Constraints(c) + FormulasOf(evs), s0, cs.Snap(), rest + [top])
    modifies cs
    ensures cs.Valid() && Recorded(Constraints(c) + FormulasOf(evs), s0, cs.Snap())
    ensures Processed(fo, cs.types, c, evs, cfg.precision, cfg.smear, top.1, old(cs.Snap()).(box := top.0), cs.Snap(),
                      turn)
    ensures IsBranchingPoint(cs.types, top.1)
  {
    // 1. Pop the current box from the stack.
    cs.box, cs.branchingPoint := top.0, top.1;
    ghost var s := cs.Snap();
    PopStep(cs.types, Constraints(c) + FormulasOf(evs), s0, s, rest, top);
    // 2. Prune, evaluate, and choose a split.
    turn := ProcessBox(fo, c, evs, cfg, cs);
    TurnRecords(fo, cs.types, c, evs, cfg.precision, cfg.smear, top.1, s0, s, cs.Snap(), turn);
  }

  /** One turn of the loop: pops the top of the stack, processes it, and pushes the
      halves of a split, the one explored first last. */
  method SearchTurn(fo: Foreign, c: Contractor, evs: seq<FormulaEvaluator>, cfg: IcpConfig, cs: ContractorStatus,
                    stack: seq<Entry>, exploreLeftFirst: bool, ghost s0: Snapshot)
    returns (rest: seq<Entry>, turn: Turn)
    requires SoundForeign(fo) && cs.Valid() && SearchContractor(c, cs.types)
    requires WellFormedEvaluators(evs, |cs.types|) && cfg.precision > 0.0 && stack != []
    requires SearchState(cs.types, Constraints(c) + FormulasOf(evs), s0, cs.Snap(), stack)
    modifies cs
    ensures cs.Valid() && Recorded(Constraints(c) + FormulasOf(evs), s0, cs.Snap())
    ensures turn.Discarded? <==> cs.box.NoPoints?
    ensures turn.Discarded? || turn.Branched? ==>
              && SearchInv(cs.types, s0.box, rest, cs.used, cs.unsatWitness)
              && StackWeight(|cs.types|, rest) < StackWeight(|cs.types|, stack)
    ensures turn.Branched? ==> rest != []
    ensures turn.Found? ==> DeltaSat(fo, evs, cs.box, cfg.precision)
    ensures turn.Aborted? ==> FailsToSplit(cs.types, cs.box, turn.dim)
    ensures AlwaysIntegral(c, cs.types) && ArithmeticOnly(evs, cs.types) ==> !turn.Aborted?
    ensures SearchStep(fo, cs.types, c, evs, cfg, Search(stack, exploreLeftFirst, old(cs.Snap())),
                       Search(rest, if turn.Branched? then !exploreLeftFirst else exploreLeftFirst, cs.Snap()), turn)
  {
    var top;
    top, rest := stack[|stack| - 1], stack[..|stack| - 1];
    assert stack == rest + [top];
    ghost var s := cs.Snap().(box := top.0);
    turn := ProcessTop(fo, c, evs, cfg, cs, rest, top, s0);
    match turn {
      case Discarded =>
        DiscardStep(cs.types, s0.box, rest, top, s.used, s.unsatWitness, cs.used, cs.unsatWitness);
      case Branched(left, right, dim) =>
        // 3. Push both children; the one explored first is pushed last.
        var x, y := (left, dim), (right, dim);
        if exploreLeftFirst { x, y := y, x; }
        BranchStep(cs.types, s0.box, rest, top, cs.box, dim, x, y, s.used, s.unsatWitness, cs.used, cs.unsatWitness);
        rest := rest + [x, y];
      case _ =>
    }
  }

  /** `IcpSeq::CheckSat`. It fails only where an assertion of `bisect_int` does,
      which a contractor that leaves integer ends rules out, given that the
      constraints have no Boolean variable. */
  method CheckSat(fo: Foreign, c: Contractor, evs: seq<FormulaEvaluator>, cfg: IcpConfig, cs: ContractorStatus)
    returns (verdict: Verdict)
    requires SoundForeign(fo) && cs.Valid() && SearchContractor(c, cs.types)
    requires WellFormedEvaluators(evs, |cs.types|) && ValidConfig(cfg, cs.types, cs.box)
    modifies cs
    ensures cs.Valid() && SubBox(cs.box, old(cs.box))
    ensures old(cs.used) <= cs.used <= old(cs.used) + Constraints(c) + FormulasOf(evs)
    ensures old(cs.unsatWitness) <= cs.unsatWitness
    ensures verdict.Unsatisfiable? <==> cs.box.NoPoints?
    ensures verdict.Satisfiable? ==> DeltaSat(fo, evs, cs.box, cfg.precision)
    ensures verdict.Failed? ==> exists dim :: FailsToSplit(cs.types, cs.box, dim)
    ensures AlwaysIntegral(c, cs.types) && ArithmeticOnly(evs, cs.types) ==> !verdict.Failed?
    ensures !verdict.Unfinished?
    ensures verdict.Unsatisfiable? ==> Refuted(cs.types, old(cs.box), cs.used, cs.unsatWitness)
    ensures SearchRuns(fo, cs.types, c, evs, cfg, old(cs.Snap()), cs.Snap(), verdict)
  {
    ghost var s0 := cs.Snap();
    var exploreLeftFirst := !cfg.stackLeftBoxFirst;
    var stack: seq<Entry> := [(cs.box, -1)] + seq(|cfg.seeds|, k requires 0 <= k < |cfg.seeds| => (cfg.seeds[k], -1));
    LoopBegins(fo, cs.types, c, evs, cfg, s0);
    ghost var n;
    verdict, n, stack, exploreLeftFirst := SearchOn(fo, c, evs, cfg, cs, stack, exploreLeftFirst, s0);
    LoopEnds(fo, cs.types, c, evs, cfg, n, stack, exploreLeftFirst, s0, cs.Snap(), verdict);
  }

  /** The loop of `CheckSat`. */
  method SearchOn(fo: Foreign, c: Contractor, evs: seq<FormulaEvaluator>, cfg: IcpConfig, cs: ContractorStatus,
                  start: seq<Entry>, leftFirst0: bool, ghost s0: Snapshot)
    returns (verdict: Verdict, ghost n: nat, stack: seq<Entry>, leftFirst: bool)
    requires SoundForeign(fo) && cs.Valid() && SearchContractor(c, cs.types)
    requires WellFormedEvaluators(evs, |cs.types|) && cfg.precision > 0.0
    requires SearchLoop(fo, cs.types, c, evs, cfg, 0, start, leftFirst0, s0, cs.Snap(), Unsatisfiable)
    modifies cs
    ensures cs.Valid() && SearchLoop(fo, cs.types, c, evs, cfg, n, stack, leftFirst, s0, cs.Snap(), verdict)
    ensures stack == [] || !verdict.Unsatisfiable?
  {
    n, stack, leftFirst, verdict := 0, start, leftFirst0, Unsatisfiable;
    while stack != [] && verdict.Unsatisfiable?
      invariant cs.Valid() && SearchLoop(fo, cs.types, c, evs, cfg, n, stack, leftFirst, s0, cs.Snap(), verdict)
      decreases verdict.Unsatisfiable?, StackWeight(|cs.types|, stack)
    {
      stack, leftFirst, verdict := SearchRound(fo, c, evs, cfg, cs, n, stack, leftFirst, s0);
      n := n + 1;
    }
  }

  /** One round of the loop. */
  method SearchRound(fo: Foreign, c: Contractor, evs: seq<FormulaEvaluator>, cfg: IcpConfig, cs: ContractorStatus,
                     ghost n: nat, stack: seq<Entry>, exploreLeftFirst: bool, ghost s0: Snapshot)
    returns (rest: seq<Entry>, leftFirst: bool, verdict: Verdict)
    requires SoundForeign(fo) && cs.Valid() && SearchContractor(c, cs.types)
    requires WellFormedEvaluators(evs, |cs.types|) && cfg.precision > 0.0 && stack != []
    requires SearchLoop(fo, cs.types, c, evs, cfg, n, stack, exploreLeftFirst, s0, cs.Snap(), Unsatisfiable)
    modifies cs
    ensures cs.Valid() && SearchLoop(fo, cs.types, c, evs, cfg, n + 1, rest, leftFirst, s0, cs.Snap(), verdict)
    ensures verdict.Unsatisfiable? ==> StackWeight(|cs.types|, rest) < StackWeight(|cs.types|, stack)
  {
    ghost var s := cs.Snap();
    var turn;
    rest, turn := SearchTurn(fo, c, evs, cfg, cs, stack, exploreLeftFirst, s0);
    LoopTurn(fo, cs.types, c, evs, cfg, n, stack, exploreLeftFirst, s0, s, rest, cs.Snap(), turn);
    leftFirst := exploreLeftFirst;
    match turn {
      case Found => verdict := Satisfiable;
      case Aborted(_) => verdict := Failed;
      case Branched(_, _, _) => verdict, leftFirst := Unsatisfiable, !exploreLeftFirst;
      case Discarded => verdict := Unsatisfiable;
    }
  }

  /** What the loop maintains: the state of the search after `n` turns, and after
      the last one the verdict. */
  ghost predicate SearchLoop(fo: Foreign, types: seq<VarType>, c: Contractor, evs: seq<FormulaEvaluator>,
                             cfg: IcpConfig, n: nat, stack: seq<Entry>, leftFirst: bool, s0: Snapshot, s: Snapshot,
                             verdict: Verdict)
  {
    var A := Constraints(c) + FormulasOf(evs);
    && Recorded(A, s0, s)
    && match verdict
       case Unsatisfiable =>
         && SearchInv(types, s0.box, stack, s.used, s.unsatWitness) && (stack == [] ==> s.box.NoPoints?)
         && Searches(fo, types, c, evs, cfg, n, SearchStart(cfg, s0), Search(stack, leftFirst, s))
       case Satisfiable =>
         DeltaSat(fo, evs, s.box, cfg.precision) && SearchRuns(fo, types, c, evs, cfg, s0, s, Satisfiable)
       case Failed =>
         && (exists dim :: ValidBox(s.box, |types|) && FailsToSplit(types, s.box, dim))
         && !(AlwaysIntegral(c, types) && ArithmeticOnly(evs, types))
         && SearchRuns(fo, types, c, evs, cfg, s0, s, Failed)
       case Unfinished => false
  }

  lemma LoopBegins(fo: Foreign, types: seq<VarType>, c: Contractor, evs: seq<FormulaEvaluator>, cfg: IcpConfig,
                   s: Snapshot)
    requires ValidBox(s.box, |types|) && ValidConfig(cfg, types, s.box)
    ensures var x := SearchStart(cfg, s);
            SearchLoop(fo, types, c, evs, cfg, 0, x.stack, x.leftFirst, s, s, Unsatisfiable)
  {
    var stack := SearchStart(cfg, s).stack;
    assert stack[0].0 == s.box;
  }

  /** What the state after the last round says. */
  lemma LoopEnds(fo: Foreign, types: seq<VarType>, c: Contractor, evs: seq<FormulaEvaluator>, cfg: IcpConfig, n: nat,
                 stack: seq<Entry>, leftFirst: bool, s0: Snapshot, s: Snapshot, verdict: Verdict)
    requires ValidBox(s.box, |types|) && SearchLoop(fo, types, c, evs, cfg, n, stack, leftFirst, s0, s, verdict)
    requires stack == [] || !verdict.Unsatisfiable?
    ensures Recorded(Constraints(c) + FormulasOf(evs), s0, s)
    ensures verdict.Unsatisfiable? <==> s.box.NoPoints?
    ensures verdict.Unsatisfiable? ==> Refuted(types, s0.box, s.used, s.unsatWitness)
    ensures verdict.Satisfiable? ==> DeltaSat(fo, evs, s.box, cfg.precision)
    ensures verdict.Failed? ==> exists dim :: FailsToSplit(types, s.box, dim)
    ensures AlwaysIntegral(c, types) && ArithmeticOnly(evs, types) ==> !verdict.Failed?
    ensures SearchRuns(fo, types, c, evs, cfg, s0, s, verdict) && !verdict.Unfinished?
  {
    if verdict.Unsatisfiable? {
      assert Search(stack, leftFirst, s).stack == [];
    }
  }

  lemma LoopTurn(fo: Foreign, types: seq<VarType>, c: Contractor, evs: seq<FormulaEvaluator>, cfg: IcpConfig, n: nat,
                 stack: seq<Entry>, leftFirst: bool, s0: Snapshot, s: Snapshot, rest: seq<Entry>, t: Snapshot,
                 turn: Turn)
    requires Searches(fo, types, c, evs, cfg, n, SearchStart(cfg, s0), Search(stack, leftFirst, s))
    requires SearchStep(fo, types, c, evs, cfg, Search(stack, leftFirst, s),
                        Search(rest, if turn.Branched? then !leftFirst else leftFirst, t), turn)
    ensures turn.Discarded? ==>
              Searches(fo, types, c, evs, cfg, n + 1, SearchStart(cfg, s0), Search(rest, leftFirst, t))
    ensures turn.Branched? ==>
              Searches(fo, types, c, evs, cfg, n + 1, SearchStart(cfg, s0), Search(rest, !leftFirst, t))
    ensures turn.Found? ==> SearchRuns(fo, types, c, evs, cfg, s0, t, Satisfiable)
    ensures turn.Aborted? ==> SearchRuns(fo, types, c, evs, cfg, s0, t, Failed)
  {
    if turn.Found? || turn.Aborted? {
      assert LastTurn(fo, types, c, evs, cfg, Search(stack, leftFirst, s), t, turn.Found?);
    }
  }

  /** What the loop of `CheckSat` maintains. */
  ghost predicate SearchInv(types: seq<VarType>, b0: Box, stack: seq<Entry>, U: set<Formula>, W: set<nat>) {
    ValidStack(types, b0, stack) && NothingLost(types, b0, stack, U, W)
  }

  ghost predicate Recorded(A: set<Formula>, s0: Snapshot, s: Snapshot) {
    SubBox(s.box, s0.box) && s0.used <= s.used <= s0.used + A && s0.unsatWitness <= s.unsatWitness
  }

  ghost predicate SearchState(types: seq<VarType>, A: set<Formula>, s0: Snapshot, s: Snapshot, stack: seq<Entry>) {
    Recorded(A, s0, s) && SearchInv(types, s0.box, stack, s.used, s.unsatWitness)
  }

  /** Popping a box moves to another box in the initial one. */
  lemma PopStep(types: seq<VarType>, A: set<Formula>, s0: Snapshot, s: Snapshot, rest: seq<Entry>, top: Entry)
    requires s.box == top.0 && s0.used <= s.used <= s0.used + A && s0.unsatWitness <= s.unsatWitness
    requires SearchInv(types, s0.box, rest + [top], s.used, s.unsatWitness)
    ensures SearchState(types, A, s0, s, rest + [top]) && ValidBox(top.0, |types|) && IsBranchingPoint(types, top.1)
  {
    assert (rest + [top])[|rest|] == top;
  }

  /** A turn records constraints of the search only. */
  lemma TurnRecords(fo: Foreign, types: seq<VarType>, c: Contractor, evs: seq<FormulaEvaluator>, precision: real,
                    smear: Option<(Box, nat) -> real>, branchingPoint: int, s0: Snapshot, s: Snapshot, s': Snapshot,
                    turn: Turn)
    requires Recorded(Constraints(c) + FormulasOf(evs), s0, s)
    requires Processed(fo, types, c, evs, precision, smear, branchingPoint, s, s', turn)
    ensures Recorded(Constraints(c) + FormulasOf(evs), s0, s')
  {
    SubBoxTransitive(s'.box, s.box, s0.box);
  }

  lemma DiscardStep(types: seq<VarType>, b0: Box, rest: seq<Entry>, top: Entry,
                    U: set<Formula>, W: set<nat>, U': set<Formula>, W': set<nat>)
    requires SearchInv(types, b0, rest + [top], U, W) && U <= U' && W <= W'
    requires Keeps(types, top.0, NoPoints, U', W')
    ensures SearchInv(types, b0, rest, U', W')
    ensures StackWeight(|types|, rest) < StackWeight(|types|, rest + [top])
  {
    NothingLostStep(types, b0, rest, top, NoPoints, [], U, W, U', W');
    assert rest + [] == rest;
    StackWeightPush(|types|, rest, top);
    forall k | 0 <= k < |rest|
      ensures ValidBox(rest[k].0, |types|) && SubBox(rest[k].0, b0) && IsBranchingPoint(types, rest[k].1)
    {
      assert (rest + [top])[k] == rest[k];
    }
  }

  lemma BranchStep(types: seq<VarType>, b0: Box, rest: seq<Entry>, top: Entry, b: Box, d: nat, x: Entry, y: Entry,
                   U: set<Formula>, W: set<nat>, U': set<Formula>, W': set<nat>)
    requires SearchInv(types, b0, rest + [top], U, W) && U <= U' && W <= W'
    requires ValidBox(b, |types|) && b.Box? && d < |types| && CanSplit(types[d], b.iv[d])
    requires SubBox(b, top.0) && Keeps(types, top.0, b, U', W')
    requires var (l, r) := Bisect(types, b, d); (x, y) == ((r, d), (l, d)) || (x, y) == ((l, d), (r, d))
    ensures SearchInv(types, b0, rest + [x, y], U', W')
    ensures StackWeight(|types|, rest + [x, y]) < StackWeight(|types|, rest + [top])
  {
    assert (rest + [top])[|rest|] == top;
    BothHalvesCover(types, b, d, [x, y], U', W');
    NothingLostStep(types, b0, rest, top, b, [x, y], U, W, U', W');
    BranchWeight(|types|, rest, top, b, x, y);
    SubBoxTransitive(x.0, b, top.0);
    SubBoxTransitive(x.0, top.0, b0);
    SubBoxTransitive(y.0, b, top.0);
    SubBoxTransitive(y.0, top.0, b0);
    var stack := rest + [x, y];
    forall k | 0 <= k < |stack|
      ensures ValidBox(stack[k].0, |types|) && SubBox(stack[k].0, b0) && IsBranchingPoint(types, stack[k].1)
    {
      if k < |rest| { assert (rest + [top])[k] == rest[k]; }
    }
  }

  /** A point that obeys all recorded constraints is a candidate. */
  lemma ObeyingIsAdmissible(types: seq<VarType>, p: Point, U: set<Formula>, W: set<nat>)
    requires IntOk(types, p) && forall f | f in U :: Obeys(f, p)
    ensures Admissible(types, W + VarsOf(U), p, U, W)
  {
    var S := W + VarsOf(U);
    forall f | f in U ensures Respects(S, p, f) {
      assert FreeVars(f) <= VarsOf(U);
    }
    forall i | i in S && i < |types| ensures IntegralAt(types, p, i) {
    }
  }

  /** A refuted box has no point that obeys all constraints: the `false` verdict
      is sound for every seed, branching order and score. */
  lemma RefutedIsUnsat(types: seq<VarType>, b: Box, U: set<Formula>, W: set<nat>, A: set<Formula>, p: Point)
    requires Refuted(types, b, U, W) && U <= A
    requires InBox(b, p) && IntOk(types, p)
    ensures exists f | f in A :: !Obeys(f, p)
  {
    if forall f | f in A :: Obeys(f, p) {
      assert Covers(b, W + VarsOf(U), p);
      ObeyingIsAdmissible(types, p, U, W);
      assert false;
    }
  }
}
