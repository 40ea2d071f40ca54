/** The worklist option with integer variables: a run of the search that ends in
    a failed assertion of `bisect_int` (contractor_worklist_fixpoint.cc,
    util/box.cc).

    The constraints are 256 y >= x and y * y = y, for x in [0, 1] and y an integer
    in [0, 1]. At the root nothing can be narrowed. Splitting x lets the first
    constraint lift y to 1/512, less than one percent, so the worklist returns
    before the integer contractor has been called; the search then picks y to
    split next. The early return can leave fractional ends over every mix of
    integer and continuous dimensions, and only there. */
module FractionalEnds {
  import opened Symbolic
  import opened Boxes
  import opened ContractorSpec
  import opened FixpointTheory
  import opened PruneRuns
  import opened Contractors
  import opened Evaluator
  import opened Brancher
  import opened Icp
  import opened ContractorBuilder
  import opened TheorySolvers

  const TYPES := [CONTINUOUS, INTEGER]
  const LINE := Line(0, 1)
  const PARABOLA := Rel(EQ, Mul(Var(1), Var(1)), Mul(Const(UNIT as real), Var(1)))
  const PARTS := [Fwdbwd(LINE), Fwdbwd(PARABOLA), IntegerCtc]
  const EVALUATORS := [RelEval(LINE), RelEval(PARABOLA)]

  const ROOT := Box([Interval(0, UNIT), Interval(0, UNIT)])
  const CHILD := Box([Interval(UNIT / 2, UNIT), Interval(0, UNIT)])
  const LIFTED := Box([Interval(UNIT / 2, UNIT), Interval(UNIT / 512, UNIT)])

  /** 256 times variable `y` is at least variable `x`. */
  function Line(x: nat, y: nat): Formula { Rel(GEQ, Mul(Const(256.0), Var(y)), Var(x)) }

  function Hc4(): Foreign { OneShot(LINE, CHILD, LIFTED) }

  lemma LineMeaning(x: nat, y: nat, p: Point)
    ensures Holds(Line(x, y), p) <==> 256.0 * p(y) >= p(x)
  {
    var f := Line(x, y);
    assert Eval(Var(x), p) == p(x) && Eval(Var(y), p) == p(y) && Eval(Const(256.0), p) == 256.0;
    assert Eval(f.lhs, p) == 256.0 * p(y);
  }

  lemma FreeVarsOfParts()
    ensures FreeVars(LINE) == {0, 1} && FreeVars(PARABOLA) == {1} && IntDims(TYPES) == {1}
  {
    assert ExprVars(LINE.lhs) == {1} && ExprVars(PARABOLA.lhs) == {1} && ExprVars(PARABOLA.rhs) == {1};
    assert TYPES[1] == INTEGER && TYPES[0] == CONTINUOUS;
  }

  lemma LiftIsSound()
    ensures SoundForeign(Hc4())
  {
    FreeVarsOfParts();
    forall p | InBox(CHILD, p) && Holds(LINE, p) ensures InBox(LIFTED, p) {
      LineMeaning(0, 1, p);
      InDimension(CHILD, p, 0);
      InDimension(CHILD, p, 1);
      LiftedContains(p);
    }
    OneShotIsSound(LINE, CHILD, LIFTED);
  }

  lemma LiftedContains(p: Point)
    requires Contains(CHILD.iv[0], p(0)) && Contains(CHILD.iv[1], p(1)) && 256.0 * p(1) >= p(0)
    ensures InBox(LIFTED, p)
  {
  }

  // ------------------------------------------------------------- evaluation

  lemma SquaredRange(e: Expr, b: Box, l: real, h: real)
    requires b.Box? && InScope(e, |b.iv|) && EvalRange(e, b) == Range(Fin(l), Fin(h)) && 0.0 <= l <= h
    ensures EvalRange(Mul(e, e), b) == Range(Fin(l * l), Fin(h * h))
  {
    var ll, lh, hl, hh := l * l, l * h, h * l, h * h;
    EMulReal(l, l);
    EMulReal(l, h);
    EMulReal(h, l);
    EMulReal(h, h);
    OrderedSquares(l, h, ll, lh, hl, hh);
    CornerRange(EvalRange(e, b), EvalRange(e, b), ll, lh, hl, hh);
  }

  lemma OrderedSquares(l: real, h: real, ll: real, lh: real, hl: real, hh: real)
    requires 0.0 <= l <= h && ll == l * l && lh == l * h && hl == h * l && hh == h * h
    ensures ll <= lh == hl <= hh
  {
  }

  /** Over a box whose upper corner is 1, whose lower one is on or below the line,
      and where y is at most one half at its lower end, both constraints are
      undecided and wide. */
  lemma BothNeedBranching(box: Box, precision: real)
    requires ValidBox(box, 2) && box.Box? && 0.0 < precision <= UNIT as real
    requires 0 <= box.iv[0].lo < box.iv[0].hi == UNIT && 0 <= box.iv[1].lo < box.iv[1].hi == UNIT
    requires 256 * box.iv[1].lo <= box.iv[0].lo && 2 * box.iv[1].lo <= UNIT
    ensures WellFormedEvaluators(EVALUATORS, 2)
    ensures Candidates(Hc4(), EVALUATORS, 2, box, precision) == {0, 1}
  {
    LineIsWide(box, precision);
    ParabolaIsWide(box, precision);
    TwoCandidates(RelEval(LINE), RelEval(PARABOLA), box, precision);
    FreeVarsOfParts();
  }

  lemma TwoCandidates(x: FormulaEvaluator, y: FormulaEvaluator, box: Box, precision: real)
    requires box.Box? && WellFormedEvaluator(x, |box.iv|) && WellFormedEvaluator(y, |box.iv|)
    requires NeedsBranching(Hc4(), x, box, precision) && NeedsBranching(Hc4(), y, box, precision)
    ensures WellFormedEvaluators([x, y], |box.iv|)
    ensures Candidates(Hc4(), [x, y], 2, box, precision) == FreeVars(x.f) + FreeVars(y.f)
  {
    CandidatesStep(Hc4(), [x, y], 0, box, precision);
    CandidatesStep(Hc4(), [x, y], 1, box, precision);
    assert Candidates(Hc4(), [x, y], 0, box, precision) == {};
  }

  lemma LineIsWide(box: Box, precision: real)
    requires ValidBox(box, 2) && box.Box? && 0.0 < precision <= UNIT as real
    requires 0 <= box.iv[0].lo < box.iv[0].hi == UNIT && 0 <= box.iv[1].lo < box.iv[1].hi == UNIT
    requires 256 * box.iv[1].lo <= box.iv[0].lo
    ensures WellFormedEvaluator(RelEval(LINE), 2) && NeedsBranching(Hc4(), RelEval(LINE), box, precision)
  {
    var (x, y) := (box.iv[0], box.iv[1]);
    FreeVarsOfParts();
    LineRange(box, x.lo as real, x.hi as real, y.lo as real, y.hi as real);
    WideLine(box, 256.0 * y.lo as real - x.hi as real, 256.0 * y.hi as real - x.lo as real, precision);
  }

  lemma LineRange(box: Box, xl: real, xh: real, yl: real, yh: real)
    requires ValidBox(box, 2) && box.Box? && xl <= xh && yl <= yh
    requires RangeOf(box.iv[0]) == Range(Fin(xl), Fin(xh)) && RangeOf(box.iv[1]) == Range(Fin(yl), Fin(yh))
    ensures Evaluable(LINE, 2)
    ensures EvalRange(DifferenceOf(LINE), box) == Range(Fin(256.0 * yl - xh), Fin(256.0 * yh - xl))
  {
    ScaledRange(256.0, Var(1), box, yl, yh);
    NegatedRange(Var(0), box, xl, xh);
    DifferenceRange(LINE.lhs, Mul(Const(-1.0), Var(0)), box, 256.0 * yl, 256.0 * yh, xl, xh);
  }

  lemma WideLine(box: Box, l: real, h: real, precision: real)
    requires box.Box? && |box.iv| == 2 && WellFormedEvaluator(RelEval(LINE), 2)
    requires EvalRange(DifferenceOf(LINE), box) == Range(Fin(l), Fin(h)) && l < 0.0 < h && h - l > precision
    ensures NeedsBranching(Hc4(), RelEval(LINE), box, precision)
  {
  }

  lemma ParabolaIsWide(box: Box, precision: real)
    requires ValidBox(box, 2) && box.Box? && 0.0 < precision <= UNIT as real
    requires 0 <= box.iv[1].lo < box.iv[1].hi == UNIT && 2 * box.iv[1].lo <= UNIT
    ensures WellFormedEvaluator(RelEval(PARABOLA), 2) && NeedsBranching(Hc4(), RelEval(PARABOLA), box, precision)
  {
    var l, u := box.iv[1].lo as real, UNIT as real;
    FreeVarsOfParts();
    ParabolaRange(box, l, u);
    ParabolaBounds(l, u);
    WideEquality(box, l * l - u * u, u * u - u * l, precision);
  }

  lemma WideEquality(box: Box, l: real, h: real, precision: real)
    requires box.Box? && |box.iv| == 2 && WellFormedEvaluator(RelEval(PARABOLA), 2)
    requires EvalRange(DifferenceOf(PARABOLA), box) == Range(Fin(l), Fin(h)) && l < 0.0 < h && h - l > precision
    ensures NeedsBranching(Hc4(), RelEval(PARABOLA), box, precision)
  {
  }

  lemma ParabolaRange(box: Box, l: real, u: real)
    requires ValidBox(box, 2) && box.Box? && u == UNIT as real && 0.0 <= l <= u
    requires RangeOf(box.iv[1]) == Range(Fin(l), Fin(u))
    ensures Evaluable(PARABOLA, 2)
    ensures EvalRange(DifferenceOf(PARABOLA), box) == Range(Fin(l * l - u * u), Fin(u * u - u * l))
  {
    var low, high, square := u * l, u * u, l * l;
    OrderedSquares(l, u, square, l * u, low, high);
    SquaredRange(Var(1), box, l, u);
    ScaledRange(u, Var(1), box, l, u);
    NegatedRange(PARABOLA.rhs, box, low, high);
    DifferenceRange(PARABOLA.lhs, Mul(Const(-1.0), PARABOLA.rhs), box, square, high, low, high);
  }

  lemma ParabolaBounds(l: real, u: real)
    requires 0.0 <= l && 2.0 * l <= u && u >= 2.0
    ensures l * l - u * u < 0.0 < u * u - u * l
    ensures (u * u - u * l) - (l * l - u * u) > u
  {
    OrderTimes(l, u, l);
    DoubleProduct(l, u);
    OrderTimes(2.0, u, u);
  }

  lemma DoubleProduct(l: real, u: real)
    requires 2.0 * l <= u && u >= 0.0
    ensures 2.0 * (u * l) <= u * u
  {
    OrderTimes(2.0 * l, u, u);
  }

  // ------------------------------------------------------------------ the run

  lemma PartsAreSimple()
    ensures AllSimple(PARTS) && LastIsInteger(PARTS)
    ensures WellFormed(WorklistCtc(PARTS), TYPES) && JoinFree(WorklistCtc(PARTS))
  {
    FreeVarsOfParts();
    forall j | 0 <= j < |PARTS| ensures WellFormed(PARTS[j], TYPES) && Plain(PARTS[j]) && JoinFree(PARTS[j]) {
      assert PARTS[j] == Fwdbwd(LINE) || PARTS[j] == Fwdbwd(PARABOLA) || PARTS[j] == IntegerCtc;
    }
  }

  /** The option makes this worklist of the two constraints. */
  lemma AssembledParts()
    ensures MakeFixpoint([Fwdbwd(LINE), Fwdbwd(PARABOLA)] + [MakeInteger(TYPES)], true) == WorklistCtc(PARTS)
    ensures !UniformTypes(TYPES)
  {
    FreeVarsOfParts();
    var parts := [Fwdbwd(LINE), Fwdbwd(PARABOLA)] + [MakeInteger(TYPES)];
    assert parts == PARTS;
    assert PARTS[1..] == [Fwdbwd(PARABOLA), IntegerCtc] && PARTS[1..][1..] == [IntegerCtc] &&
      PARTS[1..][1..][1..] == [];
    assert Flatten([IntegerCtc]) == [IntegerCtc];
    assert Flatten([Fwdbwd(PARABOLA), IntegerCtc]) == [Fwdbwd(PARABOLA), IntegerCtc];
    assert Flatten(PARTS) == PARTS;
    assert !IsIntType(TYPES[0]) && IsIntType(TYPES[1]);
  }

  /** At the root the worklist narrows nothing, both variables are candidates, and
      the search splits x, the first of two equally wide ones. */
  lemma RootSplits(precision: real, dim: int)
    requires 0.0 < precision <= UNIT as real && LargestFirst(ROOT, {0, 1}, dim)
    ensures SoundForeign(Hc4()) && AllSimple(PARTS) && WellFormedEvaluators(EVALUATORS, 2)
    ensures EarlyReturn(Hc4(), TYPES, PARTS, -1, ROOT) && FillBox(Hc4(), TYPES, PARTS, 3, -1, ROOT) == ROOT
    ensures Candidates(Hc4(), EVALUATORS, 2, ROOT, precision) == {0, 1}
    ensures dim == 0 && CanSplit(TYPES[0], ROOT.iv[0]) && Bisect(TYPES, ROOT, 0).1 == CHILD
  {
    LiftIsSound();
    PartsAreSimple();
    BothNeedBranching(ROOT, precision);
    RootIsFixed();
    XIsSplit(dim);
  }

  lemma XIsSplit(dim: int)
    requires LargestFirst(ROOT, {0, 1}, dim)
    ensures dim == 0 && CanSplit(TYPES[0], ROOT.iv[0]) && Bisect(TYPES, ROOT, 0).1 == CHILD
  {
    assert Bisectable(ROOT.iv[0]) && Bisectable(ROOT.iv[1]) && Diam(ROOT.iv[0]) == Diam(ROOT.iv[1]);
  }

  lemma RootIsFixed()
    requires SoundForeign(Hc4()) && AllSimple(PARTS)
    ensures EarlyReturn(Hc4(), TYPES, PARTS, -1, ROOT) && FillBox(Hc4(), TYPES, PARTS, 3, -1, ROOT) == ROOT
  {
    assert ROOT.iv[0] != CHILD.iv[0];
    assert FillBox(Hc4(), TYPES, PARTS, 0, -1, ROOT) == ROOT;
    assert FillBox(Hc4(), TYPES, PARTS, 1, -1, ROOT) == ROOT;
    assert FillBox(Hc4(), TYPES, PARTS, 2, -1, ROOT) == ROOT;
    IntegralIsFixed(TYPES, ROOT, 2);
    SelfRatio(UNIT as real);
  }

  /** In the right child the worklist leaves a fractional end in y, which is now
      wider than x; the search runs into the assertion when it splits y. */
  lemma ChildFails(precision: real, dim: int)
    requires 0.0 < precision <= UNIT as real && LargestFirst(LIFTED, {0, 1}, dim)
    ensures SoundForeign(Hc4()) && AllSimple(PARTS) && WellFormedEvaluators(EVALUATORS, 2)
    ensures EarlyReturn(Hc4(), TYPES, PARTS, 0, CHILD) && FillBox(Hc4(), TYPES, PARTS, 3, 0, CHILD) == LIFTED
    ensures IntegralBox(TYPES, CHILD) && !IntegralBox(TYPES, LIFTED)
    ensures Candidates(Hc4(), EVALUATORS, 2, LIFTED, precision) == {0, 1}
    ensures dim == 1 && FailsToSplit(TYPES, LIFTED, dim)
  {
    LiftIsSound();
    PartsAreSimple();
    BothNeedBranching(LIFTED, precision);
    ChildIsLifted();
    YIsSplit(dim);
    EndsAreFractional();
  }

  lemma YIsSplit(dim: int)
    requires LargestFirst(LIFTED, {0, 1}, dim)
    ensures dim == 1
  {
    assert Bisectable(LIFTED.iv[1]) && Diam(LIFTED.iv[0]) < Diam(LIFTED.iv[1]);
  }

  lemma EndsAreFractional()
    ensures IntegralBox(TYPES, CHILD) && !IntegralBox(TYPES, LIFTED) && FailsToSplit(TYPES, LIFTED, 1)
  {
    FractionIsNotSplit(UNIT / 512);
    assert IsIntType(TYPES[1]) && !IntegralInterval(LIFTED.iv[1]);
  }

  lemma ChildIsLifted()
    requires SoundForeign(Hc4()) && AllSimple(PARTS)
    ensures EarlyReturn(Hc4(), TYPES, PARTS, 0, CHILD) && FillBox(Hc4(), TYPES, PARTS, 3, 0, CHILD) == LIFTED
  {
    FreeVarsOfParts();
    assert FillBox(Hc4(), TYPES, PARTS, 0, 0, CHILD) == CHILD;
    assert FillBox(Hc4(), TYPES, PARTS, 1, 0, CHILD) == LIFTED by { assert 0 in Inputs(PARTS[0], TYPES); }
    assert FillBox(Hc4(), TYPES, PARTS, 2, 0, CHILD) == LIFTED by { assert 0 !in Inputs(PARTS[1], TYPES); }
    assert FillBox(Hc4(), TYPES, PARTS, 3, 0, CHILD) == LIFTED by { assert 0 !in Inputs(PARTS[2], TYPES); }
    SelfRatio((UNIT - UNIT / 2) as real);
  }

  // ----------------------------------------------------- the exact condition

  /** A run of the first phase from integer ends, with the integer contractor last
      in the list, after which the worklist returns early. */
  ghost predicate EarlyRun(fo: Foreign, types: seq<VarType>, cs: seq<Contractor>, branchingPoint: int, b: Box) {
    && SoundForeign(fo) && AllSimple(cs) && LastIsInteger(cs) && WellFormed(WorklistCtc(cs), types)
    && IsBranchingPoint(types, branchingPoint) && ValidBox(b, |types|) && IntegralBox(types, b)
    && EarlyReturn(fo, types, cs, branchingPoint, b)
  }

  /** Every such run leaves integer ends. */
  ghost predicate EarlyReturnsIntegral(types: seq<VarType>) {
    forall fo, cs, branchingPoint, b | EarlyRun(fo, types, cs, branchingPoint, b) ::
      IntegralBox(types, FillBox(fo, types, cs, |cs|, branchingPoint, b))
  }

  /** That is so exactly when no dimension is an integer, or none is continuous. */
  lemma EarlyReturnsExactly(types: seq<VarType>)
    ensures EarlyReturnsIntegral(types) <==> UniformTypes(types)
  {
    if UniformTypes(types) {
      forall fo, cs, branchingPoint, b | EarlyRun(fo, types, cs, branchingPoint, b)
        ensures IntegralBox(types, FillBox(fo, types, cs, |cs|, branchingPoint, b))
      {
        UniformIsIntegral(fo, types, cs, branchingPoint, b);
      }
    } else {
      var x :| 0 <= x < |types| && types[x] == CONTINUOUS;
      var y :| 0 <= y < |types| && IsIntType(types[y]);
      MixedIsFractional(types, x, y);
    }
  }

  lemma UniformIsIntegral(fo: Foreign, types: seq<VarType>, cs: seq<Contractor>, branchingPoint: int, b: Box)
    requires EarlyRun(fo, types, cs, branchingPoint, b) && UniformTypes(types)
    ensures IntegralBox(types, FillBox(fo, types, cs, |cs|, branchingPoint, b))
  {
    var r := FillBox(fo, types, cs, |cs| - 1, branchingPoint, b);
    if IntDims(types) == {} {
      NoIntegersIsIntegral(types, FillBox(fo, types, cs, |cs|, branchingPoint, b));
    } else if r.Box? {
      var d :| d in IntDims(types);
      assert IsIntType(types[d]);
      if branchingPoint >= 0 {
        assert IsIntType(types[branchingPoint]);
        assert branchingPoint in IntDims(types);
      }
      assert FillBox(fo, types, cs, |cs|, branchingPoint, b) == TightenBelow(types, r, |types|);
    }
  }

  function Side(n: nat, x: nat, xs: Interval, y: nat, ys: Interval): Box {
    Box(seq(n, k => if k == x then xs else if k == y then ys else Interval(0, UNIT)))
  }

  /** Over any mix of types the child of the run above loses its integer ends in
      the same way. */
  lemma MixedIsFractional(types: seq<VarType>, x: nat, y: nat)
    requires x < |types| && y < |types| && types[x] == CONTINUOUS && IsIntType(types[y])
    ensures !EarlyReturnsIntegral(types)
  {
    var n, f := |types|, Line(x, y);
    var b := Side(n, x, Interval(UNIT / 2, UNIT), y, Interval(0, UNIT));
    var r := Side(n, x, Interval(UNIT / 2, UNIT), y, Interval(UNIT / 512, UNIT));
    var cs := [Fwdbwd(f), IntegerCtc];
    var fo := OneShot(f, b, r);
    SideIsLifted(n, x, y, b, r);
    OneShotIsSound(f, b, r);
    SideFilled(fo, types, x, y, b, r);
    SideImproves(n, x, y, b, r);
    SideIsIntegral(types, x, y, b);
    assert |cs| == 2 && FillBox(fo, types, cs, |cs|, x, b) == r;
    assert EarlyReturn(fo, types, cs, x, b);
    assert types[x] != BOOLEAN && IsBranchingPoint(types, x);
    assert EarlyRun(fo, types, cs, x, b);
    assert !IntegralInterval(r.iv[y]);
  }

  lemma SideIsIntegral(types: seq<VarType>, x: nat, y: nat, b: Box)
    requires x < |types| && y < |types| && !IsIntType(types[x]) && IsIntType(types[y])
    requires b == Side(|types|, x, Interval(UNIT / 2, UNIT), y, Interval(0, UNIT)) && ValidBox(b, |types|)
    ensures IntegralBox(types, b)
  {
    forall k | 0 <= k < |types| && IsIntType(types[k]) ensures IntegralInterval(b.iv[k]) {
      assert b.iv[k] == Interval(0, UNIT);
    }
  }

  lemma SideFilled(fo: Foreign, types: seq<VarType>, x: nat, y: nat, b: Box, r: Box)
    requires SoundForeign(fo) && ValidBox(b, |types|) && b.Box? && r.Box? && fo.hc4(Line(x, y), b) == r
    requires x < |types| && y < |types| && !IsIntType(types[x]) && FreeVars(Line(x, y)) == {x, y}
    ensures var cs := [Fwdbwd(Line(x, y)), IntegerCtc];
            AllSimple(cs) && FillBox(fo, types, cs, 2, x, b) == r
  {
    var cs := [Fwdbwd(Line(x, y)), IntegerCtc];
    assert FillBox(fo, types, cs, 0, x, b) == b;
    assert FillBox(fo, types, cs, 1, x, b) == r by { assert x in Inputs(cs[0], types); }
    assert FillBox(fo, types, cs, 2, x, b) == r by { assert x !in Inputs(cs[1], types); }
  }

  /** The lift is below the threshold of one percent. */
  lemma SideImproves(n: nat, x: nat, y: nat, b: Box, r: Box)
    requires x < n && y < n && x != y
    requires b == Side(n, x, Interval(UNIT / 2, UNIT), y, Interval(0, UNIT))
    requires r == Side(n, x, Interval(UNIT / 2, UNIT), y, Interval(UNIT / 512, UNIT))
    ensures forall k | 0 <= k < n :: !Improved(b.iv[k], r.iv[k])
  {
    SelfRatio((UNIT - UNIT / 2) as real);
    SelfRatio(UNIT as real);
    forall k | 0 <= k < n ensures !Improved(b.iv[k], r.iv[k]) {
      if k != y { assert b.iv[k] == r.iv[k]; }
    }
  }

  lemma SideIsLifted(n: nat, x: nat, y: nat, b: Box, r: Box)
    requires x < n && y < n && x != y
    requires b == Side(n, x, Interval(UNIT / 2, UNIT), y, Interval(0, UNIT))
    requires r == Side(n, x, Interval(UNIT / 2, UNIT), y, Interval(UNIT / 512, UNIT))
    ensures FreeVars(Line(x, y)) == {x, y} && ValidBox(b, n) && Hc4Ok(Line(x, y), b, r, n)
  {
    var f := Line(x, y);
    assert ExprVars(f.lhs) == {y};
    assert ExprVars(f.rhs) == {x};
    forall p | InBox(b, p) && Holds(f, p) ensures InBox(r, p) {
      LineMeaning(x, y, p);
      InDimension(b, p, x);
      InDimension(b, p, y);
    }
  }
}
