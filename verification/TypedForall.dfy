/** Integer universal variables in counterexample-guided pruning
    (contractor/contractor_forall.h): the instance is taken at the midpoint of the
    counterexample, which need not be an integer. Points for which the forall
    holds over the integers can then be lost, and exactly then. */
module TypedForall {
  import opened Symbolic
  import opened Boxes
  import opened ContractorSpec
  import opened PruneRuns
  import opened Contractors
  import opened Nnf
  import opened Delta
  import opened Evaluator
  import opened ForallQuery
  import opened ContractorBuilder

  /** Universal variable `i` has a value of its type. */
  ghost predicate UniversalTyped(n: nat, utypes: seq<VarType>, q: Point, i: nat)
    requires i < |utypes|
  {
    (IsIntType(utypes[i]) ==> Integral(q(n + i))) && Contains(InitialInterval(utypes[i]), q(n + i))
  }

  ghost predicate UniversalsTyped(n: nat, utypes: seq<VarType>, q: Point) {
    forall i | 0 <= i < |utypes| :: UniversalTyped(n, utypes, q, i)
  }

  /** The forall, with its variables ranging over the values of their types. */
  ghost predicate HoldsTyped(n: nat, utypes: seq<VarType>, f: Formula, p: Point)
    requires f.Forall?
  {
    forall q: Point | AgreeOff(p, q, f.vars) && UniversalsTyped(n, utypes, q) :: Holds(f.body, q)
  }

  /** The box of the nested solver: the current box and the initial intervals of
      the universal variables. */
  function ExtendedBox(b: Box, utypes: seq<VarType>): Box
    requires b.Box?
  {
    Box(seq(|b.iv| + |utypes|, i requires 0 <= i < |b.iv| + |utypes| =>
      if i < |b.iv| then b.iv[i] else InitialInterval(utypes[i - |b.iv|])))
  }

  ghost predicate TypedPointOf(types: seq<VarType>, b: Box, p: Point) {
    InBox(b, p) && TypesOk(types, p)
  }

  /** A box that the nested solver may return: it has a typed point, and all its
      points satisfy the query, so that it is certified whatever the precision. */
  ghost predicate IsCounterexample(types: seq<VarType>, utypes: seq<VarType>, query: Formula, b: Box, ce: Box) {
    && b.Box? && ce.Box? && ValidBox(ce, |types| + |utypes|) && SubBox(ce, ExtendedBox(b, utypes))
    && (exists q :: TypedPointOf(types + utypes, ce, q))
    && (forall q: Point | InBox(ce, q) :: Holds(query, q))
  }

  /** Everything a round of pruning may be given, and a point that it has to keep. */
  ghost predicate Round(fo: Foreign, types: seq<VarType>, utypes: seq<VarType>, epsilon: real, c: Contractor, b: Box,
                        ce: Box, p: Point)
  {
    && SoundForeign(fo) && c.ForallCtc? && BuiltFor(c, c.f, types, utypes, epsilon) && WellFormed(c, types)
    && NoBooleans(c.f.body, types + utypes)
    && ValidBox(b, |types|) && b.Box? && IsCounterexample(types, utypes, c.query, b, ce)
    && InBox(b, p) && IntOk(types, p) && HoldsTyped(|types|, utypes, c.f, p)
  }

  /** Pruning by a counterexample never loses a typed point for which the forall
      holds over the typed universal variables. */
  ghost predicate NeverLoses(types: seq<VarType>, utypes: seq<VarType>, epsilon: real) {
    forall fo, c, b, ce, p: Point | Round(fo, types, utypes, epsilon, c, b, ce, p) ::
      InBox(InstanceRun(fo, types, c, b, ce), p)
  }

  predicate AllBoolean(types: seq<VarType>) {
    forall d | 0 <= d < |types| :: types[d] == BOOLEAN
  }

  predicate NoIntegerIn(utypes: seq<VarType>) {
    forall i | 0 <= i < |utypes| :: !IsIntType(utypes[i])
  }

  /** That is so exactly when no universal variable is an integer, or there is no
      other variable but Boolean ones. */
  lemma NeverLosesExactly(types: seq<VarType>, utypes: seq<VarType>, epsilon: real)
    requires epsilon > 0.0
    ensures NeverLoses(types, utypes, epsilon) <==> AllBoolean(types) || NoIntegerIn(utypes)
  {
    if AllBoolean(types) {
      forall fo, c, b, ce, p: Point ensures !Round(fo, types, utypes, epsilon, c, b, ce, p) {
        ClosedHasNoRound(fo, types, utypes, epsilon, c, b, ce, p);
      }
    } else if NoIntegerIn(utypes) {
      forall fo, c, b, ce, p: Point | Round(fo, types, utypes, epsilon, c, b, ce, p)
        ensures InBox(InstanceRun(fo, types, c, b, ce), p)
      {
        RealInstanceKeeps(fo, types, utypes, epsilon, c, b, ce, p);
      }
    } else {
      var i :| 0 <= i < |utypes| && IsIntType(utypes[i]);
      var d :| 0 <= d < |types| && types[d] != BOOLEAN;
      MidpointLoses(types, utypes, epsilon, d, i);
    }
  }

  // ------------------------------------------------- what is never lost

  lemma MidpointTyped(t: VarType, iv: Interval)
    requires ValidInterval(iv) && Within(iv, InitialInterval(t)) && !IsIntType(t)
    ensures Contains(InitialInterval(t), Mid(iv) as real)
  {
  }

  /** Without integers the instance is at typed values. */
  lemma InstanceIsTyped(types: seq<VarType>, utypes: seq<VarType>, b: Box, ce: Box, p: Point)
    requires ValidBox(b, |types|) && b.Box? && ce.Box? && ValidBox(ce, |types| + |utypes|)
    requires SubBox(ce, ExtendedBox(b, utypes)) && NoIntegerIn(utypes)
    ensures UniversalsTyped(|types|, utypes, InstancePoint(p, ce, |types|, |utypes|))
  {
    var n := |types|;
    var q := InstancePoint(p, ce, n, |utypes|);
    forall i | 0 <= i < |utypes| ensures UniversalTyped(n, utypes, q, i) {
      assert ValidInterval(ce.iv[n + i]) && CounterexampleMid(ce, n + i) == Mid(ce.iv[n + i]);
      assert Within(ce.iv[n + i], ExtendedBox(b, utypes).iv[n + i]);
      MidpointTyped(utypes[i], ce.iv[n + i]);
    }
  }

  lemma RealInstanceKeeps(fo: Foreign, types: seq<VarType>, utypes: seq<VarType>, epsilon: real, c: Contractor, b: Box,
                          ce: Box, p: Point)
    requires Round(fo, types, utypes, epsilon, c, b, ce, p) && NoIntegerIn(utypes)
    ensures InBox(InstanceRun(fo, types, c, b, ce), p)
  {
    var n, m := |types|, |utypes|;
    var q := InstancePoint(p, ce, n, m);
    InstanceIsTyped(types, utypes, b, ce, p);
    InstanceAgrees(types, utypes, c.f, ce, p);
    assert Holds(c.f.body, q);
    InstanceIsValid(b, ce, n, m);
    InstanceHolds(b, ce, n, m, p);
    assert |types + utypes| == n + m;
    RunKeeps(fo, types + utypes, c.inner, Instance(b, ce, m), q);
    InstanceProjects(Run(fo, types + utypes, c.inner, Instance(b, ce, m)), ce, n, m, p);
  }

  lemma InstanceAgrees(types: seq<VarType>, utypes: seq<VarType>, f: Formula, ce: Box, p: Point)
    requires f.Forall? && f.vars == Dims(types + utypes) - Dims(types)
    ensures AgreeOff(p, InstancePoint(p, ce, |types|, |utypes|), f.vars)
  {
    var q := InstancePoint(p, ce, |types|, |utypes|);
    forall v: nat | v !in f.vars ensures p(v) == q(v) {
      assert !(|types| <= v < |types + utypes|);
    }
  }

  lemma InstanceHolds(b: Box, ce: Box, n: nat, m: nat, p: Point)
    requires b.Box? && |b.iv| == n && InBox(b, p)
    ensures InBox(Instance(b, ce, m), InstancePoint(p, ce, n, m))
  {
  }

  lemma InstanceProjects(r: Box, ce: Box, n: nat, m: nat, p: Point)
    requires InBox(r, InstancePoint(p, ce, n, m)) && |r.iv| == n + m
    ensures InBox(Box(r.iv[..n]), p)
  {
    forall i | 0 <= i < n ensures Contains(r.iv[i], p(i)) { InDimension(r, InstancePoint(p, ce, n, m), i); }
  }

  /** A forall without other than Boolean free variables is closed; with a
      counterexample it does not hold. */
  lemma ClosedIsRefuted(types: seq<VarType>, utypes: seq<VarType>, epsilon: real, c: Contractor, b: Box, ce: Box,
                        p: Point)
    requires AllBoolean(types) && c.ForallCtc? && BuiltFor(c, c.f, types, utypes, epsilon)
    requires NoBooleans(c.f.body, types + utypes) && IsCounterexample(types, utypes, c.query, b, ce)
    ensures !HoldsTyped(|types|, utypes, c.f, p)
  {
    var f, all, n := c.f, types + utypes, |types|;
    var q: Point :| TypedPointOf(all, ce, q);
    var r := Patch(p, q, f.vars);
    forall i | 0 <= i < |utypes| ensures UniversalTyped(n, utypes, r, i) {
      assert n + i in Dims(all) && n + i !in Dims(types);
      assert IntegralAt(all, q, n + i) && all[n + i] == utypes[i];
    }
    assert AgreeOff(p, r, f.vars);
    forall v | v in FreeVars(f.body) ensures v in f.vars {
      assert v < |all| && all[v] != BOOLEAN;
    }
    assert AgreeOn(q, r, FreeVars(f.body));
    HoldsCoincides(f.body, q, r);
    var narrow :| IsQuery(types + utypes, f.vars, f.body, epsilon, c.query, narrow);
    QueryImpliesNegation(types + utypes, f.vars, f.body, epsilon, c.query, narrow, q);
  }

  lemma ClosedHasNoRound(fo: Foreign, types: seq<VarType>, utypes: seq<VarType>, epsilon: real, c: Contractor, b: Box,
                         ce: Box, p: Point)
    requires AllBoolean(types)
    ensures !Round(fo, types, utypes, epsilon, c, b, ce, p)
  {
    if Round(fo, types, utypes, epsilon, c, b, ce, p) {
      ClosedIsRefuted(types, utypes, epsilon, c, b, ce, p);
    }
  }

  // ------------------------------------------------------- what can be lost

  /** The slope that makes (y - 1/2) * (y - 1/2) + k * x >= k + 1/5 true where x is
      1 and y an integer, false where x is at most 1 and y is one half, and false
      by more than `epsilon` where x is 0 and y in [0, 1]. */
  function Slope(epsilon: real): real { UNIT as real + epsilon }

  function Threshold(epsilon: real): real { Slope(epsilon) * UNIT as real + UNIT as real * UNIT as real / 5.0 }

  /** The left side, for x as variable `d` and y as variable `v`. */
  function Curve(d: nat, v: nat, epsilon: real): Expr {
    var shifted := Sub(Var(v), Const((UNIT / 2) as real));
    Add(Mul(shifted, shifted), Mul(Const(Slope(epsilon)), Var(d)))
  }

  function CurveValue(x: real, y: real, epsilon: real): real {
    (y - UNIT as real / 2.0) * (y - UNIT as real / 2.0) + Slope(epsilon) * x
  }

  lemma CurveMeaning(d: nat, v: nat, epsilon: real, p: Point)
    ensures Eval(Curve(d, v, epsilon), p) == CurveValue(p(d), p(v), epsilon)
    ensures ExprVars(Curve(d, v, epsilon)) == {d, v} && IteFreeExpr(Curve(d, v, epsilon))
  {
    var half := Const((UNIT / 2) as real);
    var shifted := Sub(Var(v), half);
    SubMeaning(Var(v), half, p);
    assert (UNIT / 2) as real == UNIT as real / 2.0;
    assert Eval(Var(v), p) == p(v) && Eval(Var(d), p) == p(d) && Eval(half, p) == (UNIT / 2) as real;
    assert Eval(Mul(shifted, shifted), p) == Eval(shifted, p) * Eval(shifted, p);
    assert Eval(Mul(Const(Slope(epsilon)), Var(d)), p) == Slope(epsilon) * p(d) by {
      assert Eval(Const(Slope(epsilon)), p) == Slope(epsilon);
    }
    assert ExprVars(Mul(Const(-1.0), half)) == {} && ExprVars(shifted) == {v};
    assert IteFreeExpr(Mul(Const(-1.0), half)) && IteFreeExpr(shifted);
    assert ExprVars(Mul(shifted, shifted)) == {v} && ExprVars(Mul(Const(Slope(epsilon)), Var(d))) == {d};
  }

  function LostMatrix(d: nat, v: nat, epsilon: real): Formula {
    Rel(GEQ, Curve(d, v, epsilon), Const(Threshold(epsilon)))
  }

  lemma LostMatrixMeaning(d: nat, v: nat, epsilon: real, p: Point)
    ensures Holds(LostMatrix(d, v, epsilon), p) <==> CurveValue(p(d), p(v), epsilon) >= Threshold(epsilon)
    ensures FreeVars(LostMatrix(d, v, epsilon)) == {d, v} && IsPlain(LostMatrix(d, v, epsilon))
  {
    CurveMeaning(d, v, epsilon, p);
    assert Eval(Const(Threshold(epsilon)), p) == Threshold(epsilon);
  }

  /** The negation, strengthened. */
  function LostQuery(d: nat, v: nat, epsilon: real): Formula {
    ShiftLt(Curve(d, v, epsilon), Const(Threshold(epsilon)), epsilon)
  }

  lemma LostQueryMeaning(d: nat, v: nat, epsilon: real, p: Point)
    ensures Holds(LostQuery(d, v, epsilon), p) <==> CurveValue(p(d), p(v), epsilon) - Threshold(epsilon) < -epsilon
  {
    CurveMeaning(d, v, epsilon, p);
    ShiftAtomMeaning(Curve(d, v, epsilon), Const(Threshold(epsilon)), epsilon, p);
    assert Eval(Const(Threshold(epsilon)), p) == Threshold(epsilon);
  }

  lemma LostQueryIsQuery(types: seq<VarType>, qvars: set<nat>, d: nat, v: nat, epsilon: real)
    requires epsilon > 0.0 && {d, v} <= Dims(types) && qvars <= Dims(types)
    ensures exists narrow :: IsQuery(types, qvars, LostMatrix(d, v, epsilon), epsilon, LostQuery(d, v, epsilon), narrow)
  {
    var matrix := LostMatrix(d, v, epsilon);
    var cs := NegatedConjuncts(matrix);
    LostMatrixMeaning(d, v, epsilon, (i: nat) => 0.0);
    assert MkNot(matrix) == Not(matrix) && ToNnf(Not(matrix), true, true) == ToNnf(matrix, false, true);
    assert cs == [Rel(LT, matrix.lhs, matrix.rhs)];
    NegatedIsPlain(types, matrix);
    var domain := UniversalDomain(types, qvars, cs);
    var narrow := set y | y in qvars && domain.Box? && y < |domain.iv| && ForallQuery.Narrow(domain.iv[y], epsilon);
    assert UniversalBoundVar(cs[0], qvars).None?;
    assert Routed(cs[0], qvars, narrow, epsilon) == LostQuery(d, v, epsilon);
    forall p: Point ensures Holds(LostQuery(d, v, epsilon), p) <==> QueryHolds(cs, qvars, narrow, epsilon, p) {
    }
    assert IsQuery(types, qvars, matrix, epsilon, LostQuery(d, v, epsilon), narrow);
  }

  // The three facts about the curve, over the reals.

  lemma HoldsAtIntegers(y: real, epsilon: real)
    requires Integral(y)
    ensures CurveValue(UNIT as real, y, epsilon) >= Threshold(epsilon)
  {
    MultiplesApart(y.Floor, 0);
    MultiplesApart(UNIT, y.Floor);
    var h := UNIT as real / 2.0;
    var d := y - h;
    assert d <= -h || h <= d;
    SquareAtLeast(d, h);
    assert h * h == UNIT as real * UNIT as real / 4.0;
  }

  lemma SquareAtLeast(d: real, h: real)
    requires h >= 0.0 && (d <= -h || h <= d)
    ensures d * d >= h * h
  {
    if d <= -h { assert (-d) * (-d) >= h * h; }
  }

  lemma SquareAtMost(d: real, h: real)
    requires -h <= d <= h
    ensures 0.0 <= d * d <= h * h
  {
    if d < 0.0 { assert (-d) * (-d) <= h * h; }
  }

  lemma FailsAtHalf(x: real, epsilon: real)
    requires x <= UNIT as real && epsilon > 0.0
    ensures CurveValue(x, UNIT as real / 2.0, epsilon) < Threshold(epsilon)
  {
    assert Slope(epsilon) * x <= Slope(epsilon) * UNIT as real;
  }

  lemma FailsByMargin(y: real, epsilon: real)
    requires 0.0 <= y <= UNIT as real && epsilon > 0.0
    ensures CurveValue(0.0, y, epsilon) - Threshold(epsilon) < -epsilon
  {
    var u := UNIT as real;
    SquareAtMost(y - u / 2.0, u / 2.0);
    assert Slope(epsilon) * u == u * u + epsilon * u;
    assert epsilon * u >= epsilon;
    assert (u / 2.0) * (u / 2.0) == u * u / 4.0;
  }

  // The boxes.

  /** [0, 1] in dimension `d` and 0 elsewhere. */
  function UnitIn(n: nat, d: nat): (r: Box)
    requires d < n
    ensures r.Box? && |r.iv| == n && ValidBox(r, n)
    ensures forall i | 0 <= i < n :: r.iv[i] == if i == d then Interval(0, UNIT) else Interval(0, 0)
  {
    Box(seq(n, i requires 0 <= i < n => if i == d then Interval(0, UNIT) else Interval(0, 0)))
  }

  /** The point with x at 1 and 0 elsewhere. */
  function LostPoint(d: nat): Point { (v: nat) => if v == d then UNIT as real else 0.0 }

  /** The contractor, for the integer universal variable `v`. */
  ghost function LostContractor(types: seq<VarType>, utypes: seq<VarType>, d: nat, v: nat, epsilon: real): Contractor {
    ForallCtc(Forall(Dims(types + utypes) - Dims(types), LostMatrix(d, v, epsilon)), utypes, LostQuery(d, v, epsilon),
              Fwdbwd(LostMatrix(d, v, epsilon)))
  }

  lemma LostIsBuilt(types: seq<VarType>, utypes: seq<VarType>, d: nat, v: nat, epsilon: real)
    requires epsilon > 0.0 && d < |types| <= v < |types| + |utypes|
    ensures var c := LostContractor(types, utypes, d, v, epsilon);
            BuiltFor(c, c.f, types, utypes, epsilon) && WellFormed(c, types) &&
            (types[d] != BOOLEAN && IsIntType(utypes[v - |types|]) ==> NoBooleans(c.f.body, types + utypes))
  {
    var c := LostContractor(types, utypes, d, v, epsilon);
    var all := types + utypes;
    LostMatrixMeaning(d, v, epsilon, (i: nat) => 0.0);
    assert {d, v} <= Dims(all) && Dims(all) - Dims(types) <= Dims(all);
    LostQueryIsQuery(all, Dims(all) - Dims(types), d, v, epsilon);
    assert Convert(LostMatrix(d, v, epsilon), true) == LostMatrix(d, v, epsilon);
    BuiltIsWellFormed(c, c.f, types, utypes, epsilon);
  }

  lemma OriginIsTyped(types: seq<VarType>, ce: Box, origin: Point)
    requires ce.Box? && |ce.iv| == |types| && forall i | 0 <= i < |types| :: Contains(ce.iv[i], 0.0)
    requires forall v :: origin(v) == 0.0
    ensures TypedPointOf(types, ce, origin)
  {
    forall i | 0 <= i < |types| ensures IntegralAt(types, origin, i) && Contains(InitialInterval(types[i]), origin(i)) {
    }
  }

  /** Over the box where y is in [0, 1] and all else is 0 the query holds. */
  lemma LostHasCounterexample(types: seq<VarType>, utypes: seq<VarType>, d: nat, i: nat, epsilon: real)
    requires epsilon > 0.0 && d < |types| && types[d] != BOOLEAN && i < |utypes| && IsIntType(utypes[i])
    ensures var v := |types| + i;
            IsCounterexample(types, utypes, LostQuery(d, v, epsilon), UnitIn(|types|, d), UnitIn(|types| + |utypes|, v))
  {
    var n, m, v := |types|, |utypes|, |types| + i;
    var b, ce := UnitIn(n, d), UnitIn(n + m, v);
    var outer := ExtendedBox(b, utypes);
    forall k | 0 <= k < n + m ensures Within(ce.iv[k], outer.iv[k]) {
      assert outer.iv[k] == if k < n then b.iv[k] else InitialInterval(utypes[k - n]);
    }
    OriginIsTyped(types + utypes, ce, (k: nat) => 0.0);
    forall q: Point | InBox(ce, q) ensures Holds(LostQuery(d, v, epsilon), q) {
      InDimension(ce, q, d);
      InDimension(ce, q, v);
      LostQueryMeaning(d, v, epsilon, q);
      FailsByMargin(q(v), epsilon);
    }
  }

  /** The point satisfies the typed forall. */
  lemma LostIsSolution(types: seq<VarType>, utypes: seq<VarType>, d: nat, i: nat, epsilon: real)
    requires epsilon > 0.0 && d < |types| && types[d] != BOOLEAN && i < |utypes| && IsIntType(utypes[i])
    ensures HoldsTyped(|types|, utypes, LostContractor(types, utypes, d, |types| + i, epsilon).f, LostPoint(d))
    ensures InBox(UnitIn(|types|, d), LostPoint(d)) && IntOk(types, LostPoint(d))
  {
    var v, f := |types| + i, LostContractor(types, utypes, d, |types| + i, epsilon).f;
    forall q: Point | AgreeOff(LostPoint(d), q, f.vars) && UniversalsTyped(|types|, utypes, q)
      ensures Holds(f.body, q)
    {
      assert d !in f.vars && q(d) == UNIT as real;
      assert UniversalTyped(|types|, utypes, q, i);
      HoldsAtIntegers(q(v), epsilon);
      LostMatrixMeaning(d, v, epsilon, q);
    }
    forall k | 0 <= k < |types| ensures IntegralAt(types, LostPoint(d), k) {
    }
  }

  /** The instance at y = 1/2 has no solution in the box: exact HC4 empties it. */
  lemma InstanceIsEmptied(types: seq<VarType>, utypes: seq<VarType>, d: nat, i: nat, epsilon: real)
    requires epsilon > 0.0 && d < |types| && types[d] != BOOLEAN && i < |utypes| && IsIntType(utypes[i])
    ensures var v, b := |types| + i, UnitIn(|types|, d);
            var inst := Instance(b, UnitIn(|types| + |utypes|, v), |utypes|);
            |inst.iv| == |types| + |utypes| && Hc4Ok(LostMatrix(d, v, epsilon), inst, NoPoints, |types| + |utypes|)
  {
    var n, m, v := |types|, |utypes|, |types| + i;
    var b, ce := UnitIn(n, d), UnitIn(n + m, v);
    var inst := Instance(b, ce, m);
    assert inst.iv[v] == Interval(UNIT / 2, UNIT / 2);
    forall p: Point | InBox(inst, p) ensures !Holds(LostMatrix(d, v, epsilon), p) {
      InDimension(inst, p, d);
      InDimension(inst, p, v);
      LostMatrixMeaning(d, v, epsilon, p);
      FailsAtHalf(p(d), epsilon);
      assert p(v) == UNIT as real / 2.0;
    }
  }

  /** The HC4 that empties this instance and narrows nothing else. */
  ghost function LostHc4(types: seq<VarType>, utypes: seq<VarType>, d: nat, v: nat, epsilon: real): Foreign
    requires d < |types| <= v < |types| + |utypes|
  {
    OneShot(LostMatrix(d, v, epsilon), Instance(UnitIn(|types|, d), UnitIn(|types| + |utypes|, v), |utypes|), NoPoints)
  }

  lemma LostHc4IsSound(types: seq<VarType>, utypes: seq<VarType>, d: nat, i: nat, epsilon: real)
    requires epsilon > 0.0 && d < |types| && types[d] != BOOLEAN && i < |utypes| && IsIntType(utypes[i])
    ensures SoundForeign(LostHc4(types, utypes, d, |types| + i, epsilon))
  {
    var n, m, v := |types|, |utypes|, |types| + i;
    InstanceIsEmptied(types, utypes, d, i, epsilon);
    OneShotIsSound(LostMatrix(d, v, epsilon), Instance(UnitIn(n, d), UnitIn(n + m, v), m), NoPoints);
  }

  lemma LostRound(types: seq<VarType>, utypes: seq<VarType>, d: nat, i: nat, epsilon: real)
    requires epsilon > 0.0 && d < |types| && types[d] != BOOLEAN && i < |utypes| && IsIntType(utypes[i])
    ensures var v := |types| + i;
            Round(LostHc4(types, utypes, d, v, epsilon), types, utypes, epsilon,
                  LostContractor(types, utypes, d, v, epsilon), UnitIn(|types|, d), UnitIn(|types| + |utypes|, v),
                  LostPoint(d))
  {
    LostHc4IsSound(types, utypes, d, i, epsilon);
    LostIsBuilt(types, utypes, d, |types| + i, epsilon);
    LostHasCounterexample(types, utypes, d, i, epsilon);
    LostIsSolution(types, utypes, d, i, epsilon);
  }

  lemma LostRun(types: seq<VarType>, utypes: seq<VarType>, d: nat, i: nat, epsilon: real)
    requires epsilon > 0.0 && d < |types| && types[d] != BOOLEAN && i < |utypes| && IsIntType(utypes[i])
    requires SoundForeign(LostHc4(types, utypes, d, |types| + i, epsilon))
    ensures var v := |types| + i;
            InstanceRun(LostHc4(types, utypes, d, v, epsilon), types, LostContractor(types, utypes, d, v, epsilon),
                        UnitIn(|types|, d), UnitIn(|types| + |utypes|, v)) == NoPoints
  {
    var n, m, v := |types|, |utypes|, |types| + i;
    var inst := Instance(UnitIn(n, d), UnitIn(n + m, v), m);
    InstanceIsValid(UnitIn(n, d), UnitIn(n + m, v), n, m);
    assert |types + utypes| == n + m;
    assert Run(LostHc4(types, utypes, d, v, epsilon), types + utypes, Fwdbwd(LostMatrix(d, v, epsilon)), inst) ==
           NoPoints;
  }

  /** Any integer universal variable makes pruning lose a typed solution, for some
      formula that the contractor can be built for and some counterexample that
      the nested solver can return. */
  lemma MidpointLoses(types: seq<VarType>, utypes: seq<VarType>, epsilon: real, d: nat, i: nat)
    requires epsilon > 0.0 && d < |types| && types[d] != BOOLEAN && i < |utypes| && IsIntType(utypes[i])
    ensures !NeverLoses(types, utypes, epsilon)
  {
    LostRound(types, utypes, d, i, epsilon);
    LostRun(types, utypes, d, i, epsilon);
  }
}
