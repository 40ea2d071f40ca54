/** Interval evaluation of expressions (solver/expression_evaluator.cc) and the
    classification of relational constraints over a box
    (solver/relational_formula_evaluator.cc). Interval operations are exact;
    outward rounding would only widen them. */
module Evaluator {
  import opened Symbolic
  import opened Boxes
  import opened Explanations
  import opened Delta

  datatype Ext = NegInf | Fin(r: real) | PosInf

  /** A non-empty interval of extended reals. */
  datatype Range = Range(lo: Ext, hi: Ext)

  predicate Leq(a: Ext, b: Ext) {
    a.NegInf? || b.PosInf? || (a.Fin? && b.Fin? && a.r <= b.r)
  }

  predicate Encloses(g: Range, x: real) {
    Leq(g.lo, Fin(x)) && Leq(Fin(x), g.hi)
  }

  function EMin(a: Ext, b: Ext): Ext { if Leq(a, b) then a else b }
  function EMax(a: Ext, b: Ext): Ext { if Leq(a, b) then b else a }

  function ENeg(a: Ext): Ext {
    match a case NegInf => PosInf case PosInf => NegInf case Fin(r) => Fin(-r)
  }

  /** Extended product with zero times infinity equal to zero. */
  function EMul(a: Ext, b: Ext): Ext {
    if a == Fin(0.0) || b == Fin(0.0) then Fin(0.0)
    else if a.Fin? && b.Fin? then Fin(a.r * b.r)
    else if Positive(a) == Positive(b) then PosInf
    else NegInf
  }

  predicate Positive(a: Ext) { a.PosInf? || (a.Fin? && a.r > 0.0) }

  function EPow(a: Ext, n: nat): Ext {
    match a
    case Fin(r) => Fin(RPow(r, n))
    case PosInf => if n == 0 then Fin(1.0) else PosInf
    case NegInf => if n == 0 then Fin(1.0) else if n % 2 == 0 then PosInf else NegInf
  }

  function AddLo(a: Ext, b: Ext): Ext {
    if a.Fin? && b.Fin? then Fin(a.r + b.r) else NegInf
  }

  function AddHi(a: Ext, b: Ext): Ext {
    if a.Fin? && b.Fin? then Fin(a.r + b.r) else PosInf
  }

  function AddRange(a: Range, b: Range): Range {
    Range(AddLo(a.lo, b.lo), AddHi(a.hi, b.hi))
  }

  function MulRange(a: Range, b: Range): Range {
    var ll, lh, hl, hh := EMul(a.lo, b.lo), EMul(a.lo, b.hi), EMul(a.hi, b.lo), EMul(a.hi, b.hi);
    Range(EMin(EMin(ll, lh), EMin(hl, hh)), EMax(EMax(ll, lh), EMax(hl, hh)))
  }

  function AbsRange(a: Range): Range {
    if Leq(Fin(0.0), a.lo) then a
    else if Leq(a.hi, Fin(0.0)) then Range(ENeg(a.hi), ENeg(a.lo))
    else Range(Fin(0.0), EMax(ENeg(a.lo), a.hi))
  }

  function PowRange(a: Range, n: nat): Range {
    if n == 0 then Range(Fin(1.0), Fin(1.0))
    else if n % 2 == 1 || Leq(Fin(0.0), a.lo) then Range(EPow(a.lo, n), EPow(a.hi, n))
    else if Leq(a.hi, Fin(0.0)) then Range(EPow(a.hi, n), EPow(a.lo, n))
    else Range(Fin(0.0), EMax(EPow(a.lo, n), EPow(a.hi, n)))
  }

  function RangeOf(iv: Interval): Range {
    Range(if iv.lo == -INF then NegInf else Fin(iv.lo as real), if iv.hi == INF then PosInf else Fin(iv.hi as real))
  }

  /** The expression has no conditional and no variable beyond the first `n`. */
  predicate InScope(e: Expr, n: nat) {
    match e
    case Const(_) => true
    case Var(v) => v < n
    case Add(x, y) => InScope(x, n) && InScope(y, n)
    case Mul(x, y) => InScope(x, n) && InScope(y, n)
    case Pow(x, _) => InScope(x, n)
    case Abs(x) => InScope(x, n)
    case Min(x, y) => InScope(x, n) && InScope(y, n)
    case Max(x, y) => InScope(x, n) && InScope(y, n)
    case Ite(_, _, _) => false
  }

  predicate VarsBelow(vs: set<nat>, n: nat) {
    forall v: nat :: v in vs ==> v < n
  }

  lemma {:induction false} InScopeVars(e: Expr, n: nat)
    ensures InScope(e, n) <==> IteFreeExpr(e) && VarsBelow(ExprVars(e), n)
  {
    match e
    case Const(_) =>
    case Var(_) =>
    case Add(x, y) => InScopeVars(x, n); InScopeVars(y, n);
    case Mul(x, y) => InScopeVars(x, n); InScopeVars(y, n);
    case Pow(x, _) => InScopeVars(x, n);
    case Abs(x) => InScopeVars(x, n);
    case Min(x, y) => InScopeVars(x, n); InScopeVars(y, n);
    case Max(x, y) => InScopeVars(x, n); InScopeVars(y, n);
    case Ite(_, _, _) =>
  }

  /** `ExpressionEvaluator::Visit`. */
  function EvalRange(e: Expr, b: Box): Range
    requires b.Box? && InScope(e, |b.iv|)
    decreases e
  {
    match e
    case Const(c) => Range(Fin(c), Fin(c))
    case Var(v) => RangeOf(b.iv[v])
    case Add(x, y) => AddRange(EvalRange(x, b), EvalRange(y, b))
    case Mul(x, y) => MulRange(EvalRange(x, b), EvalRange(y, b))
    case Pow(x, n) => PowRange(EvalRange(x, b), n)
    case Abs(x) => AbsRange(EvalRange(x, b))
    case Min(x, y) =>
      var r, s := EvalRange(x, b), EvalRange(y, b);
      Range(EMin(r.lo, s.lo), EMin(r.hi, s.hi))
    case Max(x, y) =>
      var r, s := EvalRange(x, b), EvalRange(y, b);
      Range(EMax(r.lo, s.lo), EMax(r.hi, s.hi))
  }

  // ------------------------------------------------------------- enclosure

  /** Scaling by a real: the products of the ends bound the product. */
  lemma ScaleByReal(lo: Ext, hi: Ext, x: real, y: real)
    requires Leq(lo, Fin(x)) && Leq(Fin(x), hi)
    ensures y >= 0.0 ==> Leq(EMul(lo, Fin(y)), Fin(x * y)) && Leq(Fin(x * y), EMul(hi, Fin(y)))
    ensures y <= 0.0 ==> Leq(EMul(hi, Fin(y)), Fin(x * y)) && Leq(Fin(x * y), EMul(lo, Fin(y)))
  {
    ScaleAbove(lo, x, y);
    ScaleBelow(hi, x, y);
  }

  lemma ScaleAbove(a: Ext, x: real, y: real)
    requires Leq(a, Fin(x))
    ensures y >= 0.0 ==> Leq(EMul(a, Fin(y)), Fin(x * y))
    ensures y <= 0.0 ==> Leq(Fin(x * y), EMul(a, Fin(y)))
  {
    if a.Fin? {
      assert a == Fin(a.r);
      EMulReal(a.r, y);
      OrderTimes(a.r, x, y);
    } else if y == 0.0 {
      ZeroTimes(x);
      assert EMul(a, Fin(y)) == Fin(0.0);
    } else {
      assert EMul(a, Fin(y)) == if y > 0.0 then NegInf else PosInf;
    }
  }

  lemma ScaleBelow(a: Ext, x: real, y: real)
    requires Leq(Fin(x), a)
    ensures y >= 0.0 ==> Leq(Fin(x * y), EMul(a, Fin(y)))
    ensures y <= 0.0 ==> Leq(EMul(a, Fin(y)), Fin(x * y))
  {
    if a.Fin? {
      assert a == Fin(a.r);
      EMulReal(a.r, y);
      OrderTimes(x, a.r, y);
    } else if y == 0.0 {
      ZeroTimes(x);
      assert EMul(a, Fin(y)) == Fin(0.0);
    } else {
      assert EMul(a, Fin(y)) == if y > 0.0 then PosInf else NegInf;
    }
  }

  lemma ZeroTimes(x: real)
    ensures x * 0.0 == 0.0
  {
  }

  lemma EMulReal(x: real, y: real)
    ensures EMul(Fin(x), Fin(y)) == Fin(x * y)
  {
    if x == 0.0 || y == 0.0 { assert x * y == 0.0; }
  }

  lemma OrderTimes(a: real, b: real, y: real)
    requires a <= b
    ensures y >= 0.0 ==> a * y <= b * y
    ensures y <= 0.0 ==> b * y <= a * y
  {
  }

  /** Scaling an extended end by a value inside `[lo, hi]`. */
  lemma ScaleEnd(a: Ext, lo: Ext, hi: Ext, y: real)
    requires Leq(lo, Fin(y)) && Leq(Fin(y), hi)
    ensures Leq(EMin(EMul(a, lo), EMul(a, hi)), EMul(a, Fin(y)))
    ensures Leq(EMul(a, Fin(y)), EMax(EMul(a, lo), EMul(a, hi)))
  {
    if a.Fin? {
      assert a == Fin(a.r);
      ScaleByReal(lo, hi, y, a.r);
      EMulCommutes(lo, a);
      EMulCommutes(hi, a);
      EMulReal(y, a.r);
      EMulCommutes(Fin(y), a);
      MinMaxBound(EMul(a, lo), EMul(a, hi), EMul(a, Fin(y)));
    } else {
      ScaleInfiniteEnd(a, lo, hi, y);
    }
  }

  lemma MinMaxBound(u: Ext, v: Ext, z: Ext)
    requires (Leq(u, z) && Leq(z, v)) || (Leq(v, z) && Leq(z, u))
    ensures Leq(EMin(u, v), z) && Leq(z, EMax(u, v))
  {
  }

  lemma ScaleInfiniteEnd(a: Ext, lo: Ext, hi: Ext, y: real)
    requires !a.Fin? && Leq(lo, Fin(y)) && Leq(Fin(y), hi)
    ensures Leq(EMin(EMul(a, lo), EMul(a, hi)), EMul(a, Fin(y)))
    ensures Leq(EMul(a, Fin(y)), EMax(EMul(a, lo), EMul(a, hi)))
  {
    if y == 0.0 {
      assert EMul(a, Fin(y)) == Fin(0.0);
    }
  }

  lemma EMulCommutes(a: Ext, b: Ext)
    ensures EMul(a, b) == EMul(b, a)
  {
    if a.Fin? && b.Fin? { assert a.r * b.r == b.r * a.r; }
  }

  lemma MulEncloses(a: Range, b: Range, x: real, y: real, g: Range, z: real)
    requires Encloses(a, x) && Encloses(b, y) && g == MulRange(a, b) && z == x * y
    ensures Encloses(g, z)
  {
    ScaleByReal(a.lo, a.hi, x, y);
    ScaleEnd(a.lo, b.lo, b.hi, y);
    ScaleEnd(a.hi, b.lo, b.hi, y);
    var l1, l2 := EMin(EMul(a.lo, b.lo), EMul(a.lo, b.hi)), EMin(EMul(a.hi, b.lo), EMul(a.hi, b.hi));
    var h1, h2 := EMax(EMul(a.lo, b.lo), EMul(a.lo, b.hi)), EMax(EMul(a.hi, b.lo), EMul(a.hi, b.hi));
    BetweenEnds(l1, h1, l2, h2, EMul(a.lo, Fin(y)), EMul(a.hi, Fin(y)), Fin(z));
  }

  lemma BetweenEnds(l1: Ext, h1: Ext, l2: Ext, h2: Ext, u: Ext, v: Ext, z: Ext)
    requires Leq(l1, u) && Leq(u, h1) && Leq(l2, v) && Leq(v, h2)
    requires (Leq(u, z) && Leq(z, v)) || (Leq(v, z) && Leq(z, u))
    ensures Leq(EMin(l1, l2), z) && Leq(z, EMax(h1, h2))
  {
  }

  lemma {:induction false} PowMonotone(x: real, y: real, n: nat)
    requires 0.0 <= x <= y
    ensures 0.0 <= RPow(x, n) <= RPow(y, n)
  {
    if n == 0 {
    } else {
      PowMonotone(x, y, n - 1);
      OrderTimes(x, y, RPow(x, n - 1));
      OrderTimes(RPow(x, n - 1), RPow(y, n - 1), y);
      OrderTimes(0.0, x, RPow(x, n - 1));
    }
  }

  lemma {:induction false} PowOfNegation(x: real, n: nat)
    ensures RPow(-x, n) == if n % 2 == 0 then RPow(x, n) else -RPow(x, n)
  {
    if n == 0 {
    } else {
      PowOfNegation(x, n - 1);
    }
  }

  /** Odd powers are monotone on all reals. */
  lemma OddPowMonotone(x: real, y: real, n: nat)
    requires x <= y && n % 2 == 1
    ensures RPow(x, n) <= RPow(y, n)
  {
    if x >= 0.0 {
      PowMonotone(x, y, n);
    } else {
      PowOfNegation(x, n);
      PowOfNegation(y, n);
      if y <= 0.0 { PowMonotone(-y, -x, n); } else { PowMonotone(0.0, y, n); PowMonotone(0.0, -x, n); }
    }
  }

  lemma PowEncloses(a: Range, x: real, n: nat)
    requires Encloses(a, x)
    ensures Encloses(PowRange(a, n), RPow(x, n))
  {
    if n == 0 {
    } else if n % 2 == 1 {
      if a.lo.Fin? { OddPowMonotone(a.lo.r, x, n); }
      if a.hi.Fin? { OddPowMonotone(x, a.hi.r, n); }
    } else if x >= 0.0 {
      PowMonotone(0.0, x, n);
      if a.lo.Fin? && a.lo.r >= 0.0 { PowMonotone(a.lo.r, x, n); }
      if a.hi.Fin? { PowMonotone(x, a.hi.r, n); }
    } else {
      PowOfNegation(x, n);
      PowMonotone(0.0, -x, n);
      if a.lo.Fin? { PowOfNegation(a.lo.r, n); PowMonotone(-x, -a.lo.r, n); }
      if a.hi.Fin? && a.hi.r <= 0.0 { PowOfNegation(a.hi.r, n); PowMonotone(-a.hi.r, -x, n); }
    }
  }

  lemma SumRangeEncloses(a: Range, b: Range, x: real, y: real)
    requires Encloses(a, x) && Encloses(b, y)
    ensures Encloses(AddRange(a, b), x + y)
  {
  }

  lemma AbsRangeEncloses(a: Range, x: real)
    requires Encloses(a, x)
    ensures Encloses(AbsRange(a), RAbs(x))
  {
  }

  lemma ExtremaEnclose(a: Range, b: Range, x: real, y: real)
    requires Encloses(a, x) && Encloses(b, y)
    ensures Encloses(Range(EMin(a.lo, b.lo), EMin(a.hi, b.hi)), RMin(x, y))
    ensures Encloses(Range(EMax(a.lo, b.lo), EMax(a.hi, b.hi)), RMax(x, y))
  {
  }

  /** The interval value of an expression encloses its value at every point. */
  lemma {:induction false} EvalEncloses(e: Expr, b: Box, p: Point)
    requires b.Box? && InScope(e, |b.iv|) && InBox(b, p)
    ensures Encloses(EvalRange(e, b), Eval(e, p))
    decreases e, 1
  {
    match e
    case Const(_) =>
    case Var(_) =>
    case Pow(x, n) =>
      EvalEncloses(x, b, p);
      PowEncloses(EvalRange(x, b), Eval(x, p), n);
    case Abs(x) =>
      EvalEncloses(x, b, p);
      AbsRangeEncloses(EvalRange(x, b), Eval(x, p));
    case _ => BinaryEncloses(e, b, p);
  }

  lemma {:induction false} BinaryEncloses(e: Expr, b: Box, p: Point)
    requires b.Box? && InScope(e, |b.iv|) && InBox(b, p) && (e.Add? || e.Mul? || e.Min? || e.Max?)
    ensures Encloses(EvalRange(e, b), Eval(e, p))
    decreases e, 0
  {
    EvalEncloses(e.a, b, p);
    EvalEncloses(e.b, b, p);
    match e
    case Mul(x, y) => ProductEncloses(x, y, b, p);
    case Add(_, _) => SumEncloses(e, b, p);
    case Min(_, _) => ExtremumEncloses(e, b, p);
    case Max(_, _) => ExtremumEncloses(e, b, p);
  }

  lemma ProductRange(x: Expr, y: Expr, b: Box)
    requires b.Box? && InScope(x, |b.iv|) && InScope(y, |b.iv|)
    ensures EvalRange(Mul(x, y), b) == MulRange(EvalRange(x, b), EvalRange(y, b))
  {
  }

  lemma ProductEncloses(x: Expr, y: Expr, b: Box, p: Point)
    requires b.Box? && InScope(x, |b.iv|) && InScope(y, |b.iv|)
    requires Encloses(EvalRange(x, b), Eval(x, p)) && Encloses(EvalRange(y, b), Eval(y, p))
    ensures Encloses(EvalRange(Mul(x, y), b), Eval(Mul(x, y), p))
  {
    var vx, vy, v := Eval(x, p), Eval(y, p), Eval(Mul(x, y), p);
    ProductValue(x, y, p, vx, vy, v);
    ProductRange(x, y, b);
    MulEncloses(EvalRange(x, b), EvalRange(y, b), vx, vy, EvalRange(Mul(x, y), b), v);
  }

  lemma ProductValue(x: Expr, y: Expr, p: Point, vx: real, vy: real, v: real)
    requires vx == Eval(x, p) && vy == Eval(y, p) && v == Eval(Mul(x, y), p)
    ensures v == vx * vy
  {
  }

  lemma SumEncloses(e: Expr, b: Box, p: Point)
    requires b.Box? && e.Add? && InScope(e, |b.iv|)
    requires Encloses(EvalRange(e.a, b), Eval(e.a, p)) && Encloses(EvalRange(e.b, b), Eval(e.b, p))
    ensures Encloses(EvalRange(e, b), Eval(e, p))
  {
    SumRangeEncloses(EvalRange(e.a, b), EvalRange(e.b, b), Eval(e.a, p), Eval(e.b, p));
  }

  lemma ExtremumEncloses(e: Expr, b: Box, p: Point)
    requires b.Box? && (e.Min? || e.Max?) && InScope(e, |b.iv|)
    requires Encloses(EvalRange(e.a, b), Eval(e.a, p)) && Encloses(EvalRange(e.b, b), Eval(e.b, p))
    ensures Encloses(EvalRange(e, b), Eval(e, p))
  {
    ExtremaEnclose(EvalRange(e.a, b), EvalRange(e.b, b), Eval(e.a, p), Eval(e.b, p));
  }

  // ------------------------------------------------ relational constraints

  datatype EvalType = VALID | UNSAT | UNKNOWN

  datatype EvalResult = EvalResult(kind: EvalType, evaluation: Range)

  /** A relational atom under any number of negations. */
  predicate IsLiteral(f: Formula) {
    f.Rel? || (f.Not? && IsLiteral(f.f))
  }

  /** `GetRelationalOperator`. */
  function OperatorOf(f: Formula): RelOp
    requires IsLiteral(f)
  {
    if f.Rel? then f.op else Negate(OperatorOf(f.f))
  }

  /** `ExtractExpression`: the difference of the two sides. */
  function DifferenceOf(f: Formula): Expr
    requires IsLiteral(f)
  {
    if f.Rel? then Sub(f.lhs, f.rhs) else DifferenceOf(f.f)
  }

  /** The six-way case split of `RelationalFormulaEvaluator::operator()`. */
  function Classify(op: RelOp, g: Range): EvalType {
    match op
    case EQ =>
      if g.lo == Fin(0.0) && g.hi == Fin(0.0) then VALID
      else if !Encloses(g, 0.0) then UNSAT
      else UNKNOWN
    case NEQ =>
      if Below(g.hi) || Above(g.lo) then VALID
      else if g.hi == Fin(0.0) && g.lo == Fin(0.0) then UNSAT
      else UNKNOWN
    case GT => if Above(g.lo) then VALID else if !Above(g.hi) then UNSAT else UNKNOWN
    case GEQ => if !Below(g.lo) then VALID else if Below(g.hi) then UNSAT else UNKNOWN
    case LT => if Below(g.hi) then VALID else if !Below(g.lo) then UNSAT else UNKNOWN
    case LEQ => if !Above(g.hi) then VALID else if Above(g.lo) then UNSAT else UNKNOWN
  }

  predicate Above(a: Ext) { a.PosInf? || (a.Fin? && a.r > 0.0) }
  predicate Below(a: Ext) { a.NegInf? || (a.Fin? && a.r < 0.0) }

  predicate Evaluable(f: Formula, n: nat) {
    IsLiteral(f) && InScope(DifferenceOf(f), n)
  }

  function EvaluateRelational(f: Formula, b: Box): EvalResult
    requires b.Box? && Evaluable(f, |b.iv|)
  {
    var g := EvalRange(DifferenceOf(f), b);
    EvalResult(Classify(OperatorOf(f), g), g)
  }

  lemma {:induction false} LiteralMeaning(f: Formula, p: Point)
    requires IsLiteral(f)
    ensures Holds(f, p) <==> RelHolds(OperatorOf(f), Eval(DifferenceOf(f), p), 0.0)
    ensures FreeVars(f) == ExprVars(DifferenceOf(f))
  {
    if f.Rel? {
      SubMeaning(f.lhs, f.rhs, p);
      assert ExprVars(Mul(Const(-1.0), f.rhs)) == ExprVars(f.rhs);
    } else {
      LiteralMeaning(f.f, p);
    }
  }

  /** VALID constraints hold at every point of the box, UNSAT ones at none. */
  lemma ClassificationIsSound(f: Formula, b: Box, p: Point)
    requires b.Box? && Evaluable(f, |b.iv|) && InBox(b, p)
    ensures EvaluateRelational(f, b).kind == VALID ==> Holds(f, p)
    ensures EvaluateRelational(f, b).kind == UNSAT ==> !Holds(f, p)
  {
    LiteralMeaning(f, p);
    EvalEncloses(DifferenceOf(f), b, p);
  }

  /** `safe_diam(evaluation) <= precision`. */
  predicate Narrow(g: Range, precision: real) {
    g.lo.Fin? && g.hi.Fin? && g.hi.r - g.lo.r <= precision
  }

  lemma {:induction false} LiteralIsPlain(f: Formula)
    requires IsLiteral(f) && IteFreeExpr(DifferenceOf(f))
    ensures IsPlain(f)
  {
    if f.Not? { LiteralIsPlain(f.f); }
  }

  /** The literal is an equality under an odd number of negations. */
  predicate NegatedEquality(f: Formula)
    requires IsLiteral(f)
  {
    OperatorOf(f) == NEQ && BaseOperator(f) == EQ
  }

  function BaseOperator(f: Formula): RelOp
    requires IsLiteral(f)
  {
    if f.Rel? then f.op else BaseOperator(f.f)
  }

  lemma {:induction false} BaseIsSameOrNegated(f: Formula)
    requires IsLiteral(f)
    ensures BaseOperator(f) == OperatorOf(f) || BaseOperator(f) == Negate(OperatorOf(f))
  {
    if f.Not? { BaseIsSameOrNegated(f.f); }
  }

  /** Shifting a literal shifts its operator on the difference of its sides,
      except that a negated equality is not weakened and a negated disequality
      becomes unsatisfiable when strengthened. */
  lemma {:induction false} LiteralShifted(f: Formula, d: real, p: Point)
    requires IsLiteral(f) && IteFreeExpr(DifferenceOf(f)) && d != 0.0
    ensures IsPlain(f)
    ensures Holds(Shift(f, d), p) <==>
              if d < 0.0 && NegatedEquality(f) then Eval(DifferenceOf(f), p) != 0.0
              else if d > 0.0 && OperatorOf(f) == EQ && BaseOperator(f) == NEQ then false
              else RelShifted(OperatorOf(f), Eval(DifferenceOf(f), p), d)
  {
    LiteralIsPlain(f);
    if f.Rel? {
      SubMeaning(f.lhs, f.rhs, p);
      ShiftRelMeaning(f.op, f.lhs, f.rhs, d, p);
    } else {
      LiteralShifted(f.f, -d, p);
      MkNotMeaning(Shift(f.f, -d), p);
      BaseIsSameOrNegated(f.f);
      var op := OperatorOf(f.f);
      assert op == EQ <==> Negate(op) == NEQ;
      assert op == NEQ <==> Negate(op) == EQ;
    }
  }

  /** The delta certificate: a constraint that is not UNSAT and whose value
      varies by at most `precision` over the box holds, weakened by
      `precision`, at every point of the box. Disequalities need no bound on
      their variation, because weakened they hold everywhere. */
  lemma DeltaCertificate(f: Formula, b: Box, precision: real, p: Point)
    requires b.Box? && Evaluable(f, |b.iv|) && InBox(b, p) && precision > 0.0
    requires EvaluateRelational(f, b).kind != UNSAT
    requires EvaluateRelational(f, b).kind == VALID ||
             (!NegatedEquality(f) && (OperatorOf(f) == NEQ || Narrow(EvaluateRelational(f, b).evaluation, precision)))
    ensures IsPlain(f) && Holds(DeltaWeaken(f, precision), p)
  {
    InScopeVars(DifferenceOf(f), |b.iv|);
    LiteralIsPlain(f);
    if EvaluateRelational(f, b).kind == VALID {
      ClassificationIsSound(f, b, p);
      ShiftIsDirected(f, -precision, p);
    } else {
      EvalEncloses(DifferenceOf(f), b, p);
      LiteralShifted(f, -precision, p);
    }
  }

  /** Weakening does nothing to a negated equality: the certificate for it holds
      exactly at the points that satisfy it. */
  lemma NegatedEqualityIsNotWeakened(f: Formula, precision: real, p: Point)
    requires IsLiteral(f) && IteFreeExpr(DifferenceOf(f)) && NegatedEquality(f) && precision > 0.0
    ensures IsPlain(f) && (Holds(DeltaWeaken(f, precision), p) <==> Holds(f, p))
  {
    LiteralShifted(f, -precision, p);
    LiteralMeaning(f, p);
  }

  /** The exemption of disequalities from branching is therefore not harmless for
      `!(x0 = x1)`: over any square around the origin it is UNKNOWN, too wide and
      not simple, so that it is exempt as a disequality only; yet at the origin
      its weakening fails. */
  lemma NegatedEqualityEscapesCertificate(k: int, p: Point)
    requires 0 < k <= MAX && p(0) == 0.0 && p(1) == 0.0
    ensures var f := Not(Rel(EQ, Var(0), Var(1)));
            var b := Box([Interval(-k, k), Interval(-k, k)]);
            && Evaluable(f, 2) && EvaluateRelational(f, b).kind == UNKNOWN
            && !Narrow(EvaluateRelational(f, b).evaluation, 1.0)
            && !IsSimpleRelational(f) && IsNeq(f, true) && Bisectable(b.iv[0])
            && InBox(b, p) && IsPlain(f) && !Holds(DeltaWeaken(f, 1.0), p)
  {
    var f := Not(Rel(EQ, Var(0), Var(1)));
    DifferenceOverSquare(Box([Interval(-k, k), Interval(-k, k)]), k as real);
    assert DifferenceOf(f) == Sub(Var(0), Var(1));
    assert IteFreeExpr(Mul(Const(-1.0), Var(1)));
    NegatedEqualityIsNotWeakened(f, 1.0, p);
    assert Holds(f.f, p) by { assert Eval(Var(0), p) == p(0) && Eval(Var(1), p) == p(1); }
  }

  lemma DifferenceOverSquare(b: Box, k: real)
    requires b.Box? && |b.iv| == 2 && k > 0.0
    requires RangeOf(b.iv[0]) == Range(Fin(-k), Fin(k)) && RangeOf(b.iv[1]) == Range(Fin(-k), Fin(k))
    ensures InScope(Sub(Var(0), Var(1)), 2)
    ensures EvalRange(Sub(Var(0), Var(1)), b) == Range(Fin(-k - k), Fin(k + k))
  {
    var minus := Mul(Const(-1.0), Var(1));
    assert InScope(minus, 2);
    assert EvalRange(minus, b) == MulRange(EvalRange(Const(-1.0), b), EvalRange(Var(1), b));
    assert EMul(Fin(-1.0), Fin(-k)) == Fin(k) && EMul(Fin(-1.0), Fin(k)) == Fin(-k);
    assert EvalRange(minus, b) == Range(Fin(-k), Fin(k));
  }

  // ------------------------------------- formula_evaluator_cell.cc tests

  /** `is_simple_relational`: a bound on one variable. */
  predicate IsSimpleRelational(f: Formula) {
    match f
    case Not(g) => IsSimpleRelational(g)
    case Rel(_, l, r) => (l.Const? && r.Var?) || (l.Var? && r.Const?)
    case _ => false
  }

  /** `is_neq`. */
  predicate IsNeq(f: Formula, polarity: bool) {
    match f
    case Not(g) => IsNeq(g, !polarity)
    case Rel(op, _, _) => (polarity && op == NEQ) || (!polarity && op == EQ)
    case _ => false
  }

  lemma {:induction false} IsNeqMeansNeq(f: Formula, polarity: bool)
    requires IsLiteral(f)
    ensures IsNeq(f, polarity) <==> (if polarity then OperatorOf(f) else Negate(OperatorOf(f))) == NEQ
  {
    if f.Not? { IsNeqMeansNeq(f.f, !polarity); }
  }

  // ------------------------------------------------ ranges of simple terms

  /** The product range from its four corners. */
  lemma CornerRange(a: Range, b: Range, ll: real, lh: real, hl: real, hh: real)
    requires EMul(a.lo, b.lo) == Fin(ll) && EMul(a.lo, b.hi) == Fin(lh) && EMul(a.hi, b.lo) == Fin(hl) &&
             EMul(a.hi, b.hi) == Fin(hh)
    ensures ll <= lh <= hh && ll <= hl <= hh ==> MulRange(a, b) == Range(Fin(ll), Fin(hh))
    ensures lh <= ll && hh <= hl && ll == hl && lh == hh ==> MulRange(a, b) == Range(Fin(lh), Fin(ll))
  {
  }

  lemma ScaledRange(c: real, e: Expr, b: Box, l: real, h: real)
    requires b.Box? && InScope(e, |b.iv|) && EvalRange(e, b) == Range(Fin(l), Fin(h)) && c > 0.0 && l <= h
    ensures EvalRange(Mul(Const(c), e), b) == Range(Fin(c * l), Fin(c * h))
  {
    var low, high := c * l, c * h;
    ScaledOrder(c, l, h, low, high);
    EMulReal(c, l);
    EMulReal(c, h);
    CornerRange(EvalRange(Const(c), b), EvalRange(e, b), low, high, low, high);
  }

  lemma ScaledOrder(c: real, l: real, h: real, low: real, high: real)
    requires c > 0.0 && l <= h && low == c * l && high == c * h
    ensures low <= high
  {
  }

  lemma NegatedRange(e: Expr, b: Box, l: real, h: real)
    requires b.Box? && InScope(e, |b.iv|) && EvalRange(e, b) == Range(Fin(l), Fin(h)) && l <= h
    ensures EvalRange(Mul(Const(-1.0), e), b) == Range(Fin(-h), Fin(-l))
  {
    EMulReal(-1.0, l);
    EMulReal(-1.0, h);
    CornerRange(EvalRange(Const(-1.0), b), EvalRange(e, b), -l, -h, -l, -h);
  }

  lemma DifferenceRange(e: Expr, g: Expr, box: Box, l: real, h: real, m: real, k: real)
    requires box.Box? && InScope(e, |box.iv|) && InScope(g, |box.iv|)
    requires EvalRange(e, box) == Range(Fin(l), Fin(h)) && EvalRange(g, box) == Range(Fin(-k), Fin(-m))
    ensures EvalRange(Add(e, g), box) == Range(Fin(l - k), Fin(h - m))
  {
    AddedRange(EvalRange(e, box), EvalRange(g, box), l, h, m, k);
  }

  lemma AddedRange(x: Range, y: Range, l: real, h: real, m: real, k: real)
    requires x == Range(Fin(l), Fin(h)) && y == Range(Fin(-k), Fin(-m))
    ensures AddRange(x, y) == Range(Fin(l - k), Fin(h - m))
  {
  }
}
