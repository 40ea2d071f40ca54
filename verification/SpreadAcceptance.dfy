/** What the acceptance of a forall through a counterexample is worth
    (solver/forall_formula_evaluator.cc, solver/icp.cc): the literals spread by at
    most the precision around the counterexample that was found, and nothing is
    known of the values of the universal variables elsewhere. */
module SpreadAcceptance {
  import opened Symbolic
  import opened Boxes
  import opened Explanations
  import opened ContractorSpec
  import opened Nnf
  import opened Delta
  import opened Evaluator
  import opened ForallQuery
  import opened ContractorBuilder
  import opened Icp
  import TypedForall

  /** A clause the evaluator is built for, without negated equalities. */
  ghost predicate IsClause(types: seq<VarType>, utypes: seq<VarType>, f: Formula) {
    && ForallOver(f, types, utypes) && NoBooleans(f.body, types + utypes) && Compile(Convert(f.body, true)).Some?
    && Literals(f.body) != [] && AllEvaluable(Literals(f.body), |types| + |utypes|)
    && forall j | 0 <= j < |Literals(f.body)| :: !NegatedEquality(Literals(f.body)[j])
  }

  /** The box may be given with the counterexample. */
  ghost predicate BoxesOk(types: seq<VarType>, utypes: seq<VarType>, b: Box, ce: Box) {
    && b.Box? && ce.Box? && ValidBox(b, |types|) && ValidBox(ce, |types| + |utypes|)
    && SubBox(ce, TypedForall.ExtendedBox(b, utypes))
  }

  /** Over the box the search accepts the forall because of the counterexample: all
      its points satisfy the query, and the literals spread by no more than the
      precision. */
  ghost predicate Accepted(types: seq<VarType>, utypes: seq<VarType>, f: Formula, query: Formula, b: Box, ce: Box,
                           precision: real)
  {
    && precision > 0.0 && IsClause(types, utypes, f) && BoxesOk(types, utypes, b, ce)
    && QueryFor(f, types, utypes, 0.99 * precision, query) && (forall q: Point | InBox(ce, q) :: Holds(query, q))
    && SpreadWithin(Literals(f.body), CounterexampleBox(b, ce, |utypes|), Fin(precision))
  }

  predicate IsUniversal(types: seq<VarType>, utypes: seq<VarType>, v: nat) {
    |types| <= v < |types| + |utypes| && utypes[v - |types|] != BOOLEAN
  }

  /** The counterexample has every value of the universal variables, Boolean ones
      aside, which occur in no term. */
  ghost predicate CoversUniversals(types: seq<VarType>, utypes: seq<VarType>, b: Box, ce: Box)
    requires BoxesOk(types, utypes, b, ce)
  {
    forall p: Point, v: nat | TypedIn(types + utypes, b, false, p) && IsUniversal(types, utypes, v) ::
      Contains(ce.iv[v], p(v))
  }

  /** Acceptance gives the forall, weakened by a margin above the precision. */
  ghost predicate AcceptanceDecides(types: seq<VarType>, utypes: seq<VarType>, b: Box, ce: Box, precision: real,
                                    d: real)
  {
    forall f, query | Accepted(types, utypes, f, query, b, ce, precision) ::
      WeakenedOver(f, types + utypes, b, d, false)
  }

  /** It does exactly when the counterexample covers the universal variables. */
  lemma AcceptanceDecidesExactly(types: seq<VarType>, utypes: seq<VarType>, b: Box, ce: Box, precision: real, d: real)
    requires BoxesOk(types, utypes, b, ce) && 0.0 < precision < d
    ensures AcceptanceDecides(types, utypes, b, ce, precision, d) <==> CoversUniversals(types, utypes, b, ce)
  {
    if CoversUniversals(types, utypes, b, ce) {
      forall f, query | Accepted(types, utypes, f, query, b, ce, precision)
        ensures WeakenedOver(f, types + utypes, b, d, false)
      {
        CoveredIsWeakened(types, utypes, f, query, b, ce, precision, d);
      }
    } else {
      var p: Point, v: nat :| TypedIn(types + utypes, b, false, p) && IsUniversal(types, utypes, v) &&
        !Contains(ce.iv[v], p(v));
      UncoveredIsAccepted(types, utypes, b, ce, precision, d, v, p);
    }
  }

  // ------------------------------------------------ covered counterexamples

  lemma CoveredIsWeakened(types: seq<VarType>, utypes: seq<VarType>, f: Formula, query: Formula, b: Box, ce: Box,
                          precision: real, d: real)
    requires Accepted(types, utypes, f, query, b, ce, precision) && precision < d
    requires CoversUniversals(types, utypes, b, ce)
    ensures WeakenedOver(f, types + utypes, b, d, false)
  {
    var g, cb := Literals(f.body)[0], CounterexampleBox(b, ce, |utypes|);
    assert FreeVars(g) <= FreeVars(f.body);
    forall p | TypedIn(types + utypes, b, false, p) ensures Holds(DeltaWeaken(f.body, d), p) {
      var q := MoveUniversals(types, utypes, b, ce, p);
      LiteralIsWeakened(Literals(f.body), cb, precision, d, p, q);
      ClauseIsWeakened(f.body, d, p);
    }
  }

  /** A clause holds weakened where its first literal does. */
  lemma ClauseIsWeakened(body: Formula, d: real, p: Point)
    requires IsPlain(body) && d > 0.0 && Literals(body) != [] && IsPlain(Literals(body)[0])
    requires Holds(DeltaWeaken(Literals(body)[0], d), p)
    ensures Holds(DeltaWeaken(body, d), p)
  {
    if body.Or? {
      MkOrMeaning(ShiftAll(body.fs, -d), p);
      assert Holds(ShiftAll(body.fs, -d)[0], p);
    }
  }

  lemma LiteralIsWeakened(fs: seq<Formula>, cb: Box, precision: real, d: real, p: Point, q: Point)
    requires cb.Box? && AllEvaluable(fs, |cb.iv|) && fs != [] && !NegatedEquality(fs[0])
    requires 0.0 < precision < d && SpreadWithin(fs, cb, Fin(precision))
    requires InBox(cb, q) && AgreeOn(p, q, FreeVars(fs[0]))
    ensures IsPlain(fs[0]) && Holds(DeltaWeaken(fs[0], d), p)
  {
    SpreadMeansWeakened(fs, cb, precision, d, 0, q);
    InScopeVars(DifferenceOf(fs[0]), |cb.iv|);
    SameShift(fs[0], -d, p, q);
  }

  lemma SameShift(g: Formula, d: real, p: Point, q: Point)
    requires IsLiteral(g) && IteFreeExpr(DifferenceOf(g)) && d != 0.0 && AgreeOn(p, q, FreeVars(g))
    ensures IsPlain(g) && (Holds(Shift(g, d), p) <==> Holds(Shift(g, d), q))
  {
    LiteralMeaning(g, p);
    EvalCoincides(DifferenceOf(g), p, q);
    LiteralShifted(g, d, p);
    LiteralShifted(g, d, q);
  }

  /** The point with its Boolean universal variables moved into the counterexample. */
  lemma MoveUniversals(types: seq<VarType>, utypes: seq<VarType>, b: Box, ce: Box, p: Point) returns (q: Point)
    requires BoxesOk(types, utypes, b, ce) && CoversUniversals(types, utypes, b, ce)
    requires TypedIn(types + utypes, b, false, p)
    ensures InBox(CounterexampleBox(b, ce, |utypes|), q)
    ensures forall f | NoBooleans(f, types + utypes) && FreeVars(f) <= Dims(types + utypes) ::
              AgreeOn(p, q, FreeVars(f))
  {
    var n, m, all := |types|, |utypes|, types + utypes;
    var inner := AnyPoint(ce, p, n + m);
    q := Patch(p, inner, set v | n <= v < n + m && all[v] == BOOLEAN);
    forall v | 0 <= v < n + m ensures Contains(CounterexampleBox(b, ce, m).iv[v], q(v)) {
      MovedIsInside(types, utypes, b, ce, p, inner, q(v), v);
    }
  }

  lemma MovedIsInside(types: seq<VarType>, utypes: seq<VarType>, b: Box, ce: Box, p: Point, inner: Point, x: real,
                      v: nat)
    requires BoxesOk(types, utypes, b, ce) && CoversUniversals(types, utypes, b, ce)
    requires TypedIn(types + utypes, b, false, p) && InBox(ce, inner) && v < |types| + |utypes|
    requires x == if |types| <= v && !IsUniversal(types, utypes, v) then inner(v) else p(v)
    ensures Contains(CounterexampleBox(b, ce, |utypes|).iv[v], x)
  {
    InDimension(ce, inner, v);
    if v < |types| { InDimension(b, p, v); }
  }

  // ---------------------------------------------- uncovered counterexamples

  /** The excess of a term over `h`, scaled by `c`, plus the precision, is at most
      zero: false where the term is at most `h`, but only by the precision. */
  function Excess(t: Expr, h: real, c: real, precision: real): Formula {
    Rel(LEQ, Mul(Const(c), Max(t, Const(h))), Const(c * h - precision))
  }

  lemma ExcessShape(t: Expr, h: real, c: real, precision: real)
    requires IteFreeExpr(t)
    ensures FreeVars(Excess(t, h, c, precision)) == ExprVars(t) && IsPlain(Excess(t, h, c, precision))
  {
    var top := Max(t, Const(h));
    assert ExprVars(Const(h)) == {} && ExprVars(Const(c)) == {} && ExprVars(top) == ExprVars(t);
    assert ExprVars(Mul(Const(c), top)) == ExprVars(t) && IteFreeExpr(Const(h)) && IteFreeExpr(top);
    assert IteFreeExpr(Mul(Const(c), top));
  }

  /** Where the term exceeds `h` by `x`, which `c` scales to `w`, or by nothing. */
  lemma ExcessValue(t: Expr, h: real, c: real, precision: real, x: real, w: real, p: Point)
    requires x >= 0.0 && c * x == w && if x == 0.0 then Eval(t, p) <= h else Eval(t, p) == h + x
    ensures var f := Excess(t, h, c, precision); Eval(f.lhs, p) - Eval(f.rhs, p) == w + precision
  {
    var f, top := Excess(t, h, c, precision), Max(t, Const(h));
    assert Eval(Const(h), p) == h && Eval(Const(c), p) == c && Eval(f.rhs, p) == c * h - precision;
    assert Eval(top, p) == h + x;
    assert Eval(f.lhs, p) == c * (h + x);
    Distribute(c, h, x);
  }

  lemma Distribute(c: real, h: real, x: real)
    ensures c * (h + x) == c * h + c * x
  {
  }

  /** A term of the variable `v` that is at most `h` over the box. */
  ghost predicate Capped(t: Expr, v: nat, h: real, b: Box) {
    && b.Box? && ExprVars(t) == {v} && IteFreeExpr(t) && InScope(t, |b.iv|)
    && Leq(EvalRange(t, b).lo, Fin(h)) && Leq(EvalRange(t, b).hi, Fin(h))
  }

  /** Over such a box the literal spreads by exactly the precision. */
  lemma ExcessSpread(t: Expr, v: nat, h: real, c: real, precision: real, b: Box)
    requires Capped(t, v, h, b) && c > 0.0 && precision > 0.0
    ensures Evaluable(Excess(t, h, c, precision), |b.iv|)
    ensures Spread(Excess(t, h, c, precision), b) == Fin(precision)
  {
    var f, low := Excess(t, h, c, precision), c * h;
    var top := Max(t, Const(h));
    assert EvalRange(top, b) == Range(Fin(h), Fin(h));
    ScaledRange(c, top, b, h, h);
    NegatedRange(f.rhs, b, low - precision, low - precision);
    DifferenceRange(f.lhs, Mul(Const(-1.0), f.rhs), b, low, low, low - precision, low - precision);
    assert EvalRange(DifferenceOf(f), b) == Range(Fin(precision), Fin(precision));
  }

  function ExcessQuery(t: Expr, h: real, c: real, precision: real, epsilon: real): Formula {
    var f := Excess(t, h, c, precision);
    ShiftGt(f.lhs, f.rhs, epsilon)
  }

  /** The query of a matrix `l <= r` that is not a bound. */
  lemma SimpleQuery(types: seq<VarType>, qvars: set<nat>, matrix: Formula, epsilon: real)
    requires IsPlain(matrix) && FreeVars(matrix) <= Dims(types) && qvars <= Dims(types) && epsilon > 0.0
    requires matrix.Rel? && matrix.op == LEQ && UniversalBoundVar(Rel(GT, matrix.lhs, matrix.rhs), qvars).None?
    ensures exists narrow :: IsQuery(types, qvars, matrix, epsilon, ShiftGt(matrix.lhs, matrix.rhs, epsilon), narrow)
  {
    var cs, query := NegatedConjuncts(matrix), ShiftGt(matrix.lhs, matrix.rhs, epsilon);
    assert MkNot(matrix) == Not(matrix) && ToNnf(Not(matrix), true, true) == ToNnf(matrix, false, true);
    assert cs == [Rel(GT, matrix.lhs, matrix.rhs)];
    NegatedIsPlain(types, matrix);
    var domain := UniversalDomain(types, qvars, cs);
    var narrow := set y | y in qvars && domain.Box? && y < |domain.iv| && ForallQuery.Narrow(domain.iv[y], epsilon);
    assert Routed(cs[0], qvars, narrow, epsilon) == query;
    forall p: Point ensures Holds(query, p) <==> QueryHolds(cs, qvars, narrow, epsilon, p) {
    }
    assert IsQuery(types, qvars, matrix, epsilon, query, narrow);
  }

  lemma UncoveredIsAccepted(types: seq<VarType>, utypes: seq<VarType>, b: Box, ce: Box, precision: real, d: real,
                            v: nat, p: Point)
    requires BoxesOk(types, utypes, b, ce) && 0.0 < precision < d && TypedIn(types + utypes, b, false, p)
    requires IsUniversal(types, utypes, v) && !Contains(ce.iv[v], p(v))
    ensures !AcceptanceDecides(types, utypes, b, ce, precision, d)
  {
    var iv, cb := ce.iv[v], CounterexampleBox(b, ce, |utypes|);
    assert cb.iv[v] == iv && Eval(Var(v), p) == p(v);
    if iv.hi != INF && p(v) > iv.hi as real {
      BeyondIsAccepted(types, utypes, b, ce, precision, d, v, Var(v), iv.hi as real, p);
    } else {
      var t, h := Mul(Const(-1.0), Var(v)), -(iv.lo as real);
      assert Eval(Const(-1.0), p) == -1.0 && Eval(t, p) == -p(v);
      assert ExprVars(Const(-1.0)) == {} && ExprVars(Var(v)) == {v};
      NegatedIsCapped(v, iv, cb);
      BeyondIsAccepted(types, utypes, b, ce, precision, d, v, t, h, p);
    }
  }

  lemma NegatedIsCapped(v: nat, iv: Interval, b: Box)
    requires b.Box? && v < |b.iv| && b.iv[v] == iv && ValidInterval(iv) && iv.lo != -INF
    ensures Capped(Mul(Const(-1.0), Var(v)), v, -(iv.lo as real), b)
  {
    EMulReal(-1.0, iv.lo as real);
    if iv.hi != INF { EMulReal(-1.0, iv.hi as real); }
    assert ExprVars(Const(-1.0)) == {} && ExprVars(Var(v)) == {v};
  }

  /** Beyond the counterexample the literal fails by more than any given margin. */
  lemma BeyondIsAccepted(types: seq<VarType>, utypes: seq<VarType>, b: Box, ce: Box, precision: real, d: real,
                         v: nat, t: Expr, h: real, p: Point)
    requires BoxesOk(types, utypes, b, ce) && 0.0 < precision < d && TypedIn(types + utypes, b, false, p)
    requires IsUniversal(types, utypes, v)
    requires Capped(t, v, h, CounterexampleBox(b, ce, |utypes|)) && Eval(t, p) > h
    ensures !AcceptanceDecides(types, utypes, b, ce, precision, d)
  {
    var x := Eval(t, p) - h;
    var c := Scale(d, x);
    ExcessIsAccepted(types, utypes, b, ce, precision, v, t, h, c);
    AcceptedButFails(types, utypes, b, ce, precision, d, t, h, c, x, p);
  }

  lemma Scale(d: real, x: real) returns (c: real)
    requires d > 0.0 && x > 0.0
    ensures c > 0.0 && c * x == d
  {
    c := d / x;
  }

  lemma AcceptedButFails(types: seq<VarType>, utypes: seq<VarType>, b: Box, ce: Box, precision: real, d: real,
                         t: Expr, h: real, c: real, x: real, p: Point)
    requires 0.0 < precision < d && TypedIn(types + utypes, b, false, p) && IteFreeExpr(t)
    requires Eval(t, p) == h + x && x > 0.0 && c * x == d
    requires var f := Forall(Dims(types + utypes) - Dims(types), Excess(t, h, c, precision));
             Accepted(types, utypes, f, ExcessQuery(t, h, c, precision, 0.99 * precision), b, ce, precision)
    ensures !AcceptanceDecides(types, utypes, b, ce, precision, d)
  {
    var f := Forall(Dims(types + utypes) - Dims(types), Excess(t, h, c, precision));
    ExcessFails(t, h, c, precision, d, x, p);
    assert !WeakenedOver(f, types + utypes, b, d, false);
  }

  lemma ShiftLeqFails(l: Expr, r: Expr, d: real, more: real, p: Point)
    requires d > 0.0 && more > 0.0 && Eval(l, p) - Eval(r, p) == d + more
    requires IsPlain(Rel(LEQ, l, r))
    ensures !Holds(DeltaWeaken(Rel(LEQ, l, r), d), p)
  {
    ShiftAtomMeaning(l, r, -d, p);
  }

  lemma ExcessFails(t: Expr, h: real, c: real, precision: real, d: real, x: real, p: Point)
    requires IteFreeExpr(t) && d > 0.0 && precision > 0.0 && Eval(t, p) == h + x && x > 0.0 && c * x == d
    ensures IsPlain(Excess(t, h, c, precision)) && !Holds(DeltaWeaken(Excess(t, h, c, precision), d), p)
  {
    var f := Excess(t, h, c, precision);
    ExcessShape(t, h, c, precision);
    ExcessValue(t, h, c, precision, x, d, p);
    ShiftLeqFails(f.lhs, f.rhs, d, precision, p);
  }

  lemma ExcessIsAccepted(types: seq<VarType>, utypes: seq<VarType>, b: Box, ce: Box, precision: real, v: nat, t: Expr,
                         h: real, c: real)
    requires BoxesOk(types, utypes, b, ce) && 0.0 < precision && c > 0.0
    requires IsUniversal(types, utypes, v)
    requires Capped(t, v, h, CounterexampleBox(b, ce, |utypes|))
    ensures var f := Forall(Dims(types + utypes) - Dims(types), Excess(t, h, c, precision));
            Accepted(types, utypes, f, ExcessQuery(t, h, c, precision, 0.99 * precision), b, ce, precision)
  {
    var all, body, epsilon := types + utypes, Excess(t, h, c, precision), 0.99 * precision;
    var f, query := Forall(Dims(all) - Dims(types), body), ExcessQuery(t, h, c, precision, epsilon);
    ExcessShape(t, h, c, precision);
    ExcessSpread(t, v, h, c, precision, CounterexampleBox(b, ce, |utypes|));
    assert v in Dims(all) && all[v] == utypes[v - |types|];
    AtomIsClause(types, utypes, f);
    SimpleQuery(all, f.vars, body, epsilon);
    ExcessIsCounterexample(types, utypes, b, ce, v, t, h, c, precision, epsilon);
    assert Literals(f.body) == [body];
  }

  lemma ExcessIsCounterexample(types: seq<VarType>, utypes: seq<VarType>, b: Box, ce: Box, v: nat, t: Expr, h: real,
                               c: real, precision: real, epsilon: real)
    requires BoxesOk(types, utypes, b, ce) && |types| <= v < |types| + |utypes| && epsilon < precision
    requires Capped(t, v, h, CounterexampleBox(b, ce, |utypes|))
    ensures forall q: Point | InBox(ce, q) :: Holds(ExcessQuery(t, h, c, precision, epsilon), q)
  {
    var body := Excess(t, h, c, precision);
    forall q: Point | InBox(ce, q) ensures Holds(ExcessQuery(t, h, c, precision, epsilon), q) {
      CappedIsBelow(types, utypes, b, ce, v, t, h, q);
      ExcessValue(t, h, c, precision, 0.0, 0.0, q);
      ShiftAtomMeaning(body.lhs, body.rhs, epsilon, q);
    }
  }

  lemma AtomIsClause(types: seq<VarType>, utypes: seq<VarType>, f: Formula)
    requires f.Forall? && f.vars == Dims(types + utypes) - Dims(types) && f.body.Rel? && f.body.op == LEQ
    requires FreeVars(f.body) <= Dims(types + utypes) && NoBooleans(f.body, types + utypes)
    requires IsPlain(f.body) && Evaluable(f.body, |types| + |utypes|)
    ensures IsClause(types, utypes, f)
  {
    assert Convert(f.body, true) == f.body && Literals(f.body) == [f.body];
  }

  lemma CappedIsBelow(types: seq<VarType>, utypes: seq<VarType>, b: Box, ce: Box, v: nat, t: Expr, h: real, q: Point)
    requires BoxesOk(types, utypes, b, ce) && InBox(ce, q) && |types| <= v < |types| + |utypes|
    requires Capped(t, v, h, CounterexampleBox(b, ce, |utypes|))
    ensures Eval(t, q) <= h
  {
    var cb := CounterexampleBox(b, ce, |utypes|);
    forall i | 0 <= i < |cb.iv| ensures Contains(cb.iv[i], q(i)) {
      InDimension(ce, q, i);
      if i < |types| { assert Within(ce.iv[i], TypedForall.ExtendedBox(b, utypes).iv[i]); }
    }
    EvalEncloses(t, cb, q);
  }

  // ------------------------------------------------------------- an instance

  /** `forall y. y <= x`, for real x and y. It holds nowhere. */
  const TYPES := [CONTINUOUS]
  const BELOW := Rel(LEQ, Var(1), Var(0))
  const UNBOUNDED := Forall({1}, BELOW)

  function BelowQuery(precision: real): Formula {
    ShiftGt(Var(1), Var(0), 0.99 * precision)
  }

  /** x in a small interval, and a counterexample in which y exceeds it by just
      under the precision. */
  const NEAR := Box([Interval(0, 2)])
  function Beside(precision: real): Box { Box([Interval(0, 0), Interval(precision.Floor, precision.Floor)]) }

  lemma BelowMeaning(d: real, p: Point)
    requires d != 0.0
    ensures IsPlain(BELOW)
    ensures Holds(Shift(BELOW, d), p) <==> p(1) - p(0) <= -d
    ensures Holds(ShiftGt(Var(1), Var(0), d), p) <==> p(1) - p(0) > d
  {
    assert Eval(Var(0), p) == p(0) && Eval(Var(1), p) == p(1);
    ShiftAtomMeaning(Var(1), Var(0), d, p);
  }

  /** The search accepts the box with this counterexample, although the forall
      fails at each of its points, by any margin. */
  lemma UnboundedIsAccepted(fo: Foreign, precision: real)
    requires 100.0 <= precision <= MAX as real
    requires fo.solve(BelowQuery(precision), NEAR, false) == Some(Beside(precision))
    ensures Accepted(TYPES, TYPES, UNBOUNDED, BelowQuery(precision), NEAR, Beside(precision), precision)
    ensures DeltaSat(fo, [ForallEval(UNBOUNDED, TYPES, BelowQuery(precision))], NEAR, precision)
    ensures Bisectable(NEAR.iv[0])
    ensures forall d, p: Point | d > 0.0 && InBox(NEAR, p) :: FailsBeside(d, p)
  {
    BelowIsClause();
    BelowIsQueried(precision);
    BelowIsCounterexample(precision);
    BelowSpreads(precision);
    BelowIsAccepted(fo, precision);
    forall d, p: Point | d > 0.0 && InBox(NEAR, p) ensures FailsBeside(d, p) { BelowFails(d, p); }
  }

  ghost predicate FailsAt(d: real, q: Point) {
    d > 0.0 && IsPlain(BELOW) && !Holds(DeltaWeaken(BELOW, d), q)
  }

  /** Some value of y fails the matrix, weakened by `d`. */
  ghost predicate FailsBeside(d: real, p: Point) {
    exists q: Point :: AgreeOff(p, q, {1}) && FailsAt(d, q)
  }

  lemma BelowFails(d: real, p: Point)
    requires d > 0.0
    ensures FailsBeside(d, p)
  {
    var y := p(0) + d + 1.0;
    var q: Point := Patch(p, (_: nat) => y, {1});
    BelowFailsAt(d, q);
    assert AgreeOff(p, q, {1});
  }

  lemma BelowFailsAt(d: real, q: Point)
    requires d > 0.0 && q(1) > q(0) + d
    ensures FailsAt(d, q)
  {
    BelowMeaning(-d, q);
  }

  lemma BelowIsAccepted(fo: Foreign, precision: real)
    requires precision > 0.0 && fo.solve(BelowQuery(precision), NEAR, false) == Some(Beside(precision))
    requires Evaluable(BELOW, 2) && Leq(Spread(BELOW, CounterexampleBox(NEAR, Beside(precision), 1)), Fin(precision))
    ensures Literals(BELOW) == [BELOW]
    ensures DeltaSat(fo, [ForallEval(UNBOUNDED, TYPES, BelowQuery(precision))], NEAR, precision)
  {
    var ev := ForallEval(UNBOUNDED, TYPES, BelowQuery(precision));
    BelowShape();
    assert Literals(BELOW) == [BELOW];
    assert FreeVars(UNBOUNDED) == {0};
    assert WellFormedEvaluator(ev, 1) && CertifiedBy(fo, ev, NEAR, precision);
  }

  lemma BelowShape()
    ensures FreeVars(BELOW) == {0, 1} && IsPlain(BELOW) && Evaluable(BELOW, 2)
    ensures Dims(TYPES + TYPES) == {0, 1} && Dims(TYPES + TYPES) - Dims(TYPES) == {1}
    ensures NoBooleans(BELOW, TYPES + TYPES)
  {
    assert InScope(Mul(Const(-1.0), Var(0)), 2) && InScope(DifferenceOf(BELOW), 2);
    assert ExprVars(BELOW.lhs) == {1} && ExprVars(BELOW.rhs) == {0};
  }

  lemma BelowIsClause()
    ensures IsClause(TYPES, TYPES, UNBOUNDED)
  {
    BelowShape();
    AtomIsClause(TYPES, TYPES, Forall({1}, BELOW));
  }

  lemma BelowIsQueried(precision: real)
    requires precision > 0.0
    ensures QueryFor(UNBOUNDED, TYPES, TYPES, 0.99 * precision, BelowQuery(precision))
  {
    BelowShape();
    SimpleQuery(TYPES + TYPES, {1}, BELOW, 0.99 * precision);
  }

  lemma BelowIsCounterexample(precision: real)
    requires 100.0 <= precision <= MAX as real
    ensures BoxesOk(TYPES, TYPES, NEAR, Beside(precision))
    ensures forall q: Point | InBox(Beside(precision), q) :: Holds(BelowQuery(precision), q)
  {
    var ce, epsilon := Beside(precision), 0.99 * precision;
    assert TypedForall.ExtendedBox(NEAR, TYPES).iv == [Interval(0, 2), Interval(-INF, INF)];
    forall q: Point | InBox(ce, q) ensures Holds(BelowQuery(precision), q) {
      InDimension(ce, q, 0);
      InDimension(ce, q, 1);
      BelowMeaning(epsilon, q);
    }
  }

  lemma BelowSpreads(precision: real)
    requires 100.0 <= precision <= MAX as real
    ensures var cb := CounterexampleBox(NEAR, Beside(precision), 1);
            Evaluable(BELOW, 2) && Leq(Spread(BELOW, cb), Fin(precision))
  {
    var cb, k := CounterexampleBox(NEAR, Beside(precision), 1), precision.Floor as real;
    assert cb.iv == [Interval(0, 2), Interval(precision.Floor, precision.Floor)];
    NegatedRange(Var(0), cb, 0.0, 2.0);
    DifferenceRange(Var(1), Mul(Const(-1.0), Var(0)), cb, k, k, 0.0, 2.0);
  }
}
