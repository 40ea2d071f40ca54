/** Elimination of universal variables pinned to a point
    (solver/context_impl.cc, `EliminatePointUniversals`). */
module PointQuantifier {
  import opened Symbolic
  import opened Boxes
  import opened Explanations
  import opened ContractorSpec
  import opened Nnf
  import opened Filter
  import opened ForallQuery

  // ---------------------------------------------------------- substitution

  function SubstExpr(e: Expr, y: nat, c: real): Expr
    decreases e
  {
    match e
    case Const(_) => e
    case Var(v) => if v == y then Const(c) else e
    case Add(a, b) => Add(SubstExpr(a, y, c), SubstExpr(b, y, c))
    case Mul(a, b) => Mul(SubstExpr(a, y, c), SubstExpr(b, y, c))
    case Pow(a, n) => Pow(SubstExpr(a, y, c), n)
    case Abs(a) => Abs(SubstExpr(a, y, c))
    case Min(a, b) => Min(SubstExpr(a, y, c), SubstExpr(b, y, c))
    case Max(a, b) => Max(SubstExpr(a, y, c), SubstExpr(b, y, c))
    case Ite(f, t, s) => Ite(Subst(f, y, c), SubstExpr(t, y, c), SubstExpr(s, y, c))
  }

  /** `Formula::Substitute` of a variable by a constant. */
  function Subst(f: Formula, y: nat, c: real): Formula
    decreases f
  {
    match f
    case Rel(op, l, r) => Rel(op, SubstExpr(l, y, c), SubstExpr(r, y, c))
    case Not(g) => Not(Subst(g, y, c))
    case And(fs) => And(SubstAll(fs, y, c))
    case Or(fs) => Or(SubstAll(fs, y, c))
    case Forall(vars, g) => if y in vars then f else Forall(vars, Subst(g, y, c))
    case BoolVar(b) => if b == y then (if c != 0.0 then True else False) else f
    case _ => f
  }

  function SubstAll(fs: seq<Formula>, y: nat, c: real): seq<Formula>
    decreases fs
  {
    seq(|fs|, i requires 0 <= i < |fs| => Subst(fs[i], y, c))
  }

  function At(p: Point, y: nat, c: real): Point {
    (v: nat) => if v == y then c else p(v)
  }

  lemma {:induction false} SubstExprMeaning(e: Expr, y: nat, c: real, p: Point)
    ensures Eval(SubstExpr(e, y, c), p) == Eval(e, At(p, y, c))
    decreases e, 0
  {
    match e
    case Const(_) =>
    case Var(_) =>
    case Pow(a, _) => SubstExprMeaning(a, y, c, p);
    case Abs(a) => SubstExprMeaning(a, y, c, p);
    case Add(a, b) => SubstExprMeaning(a, y, c, p); SubstExprMeaning(b, y, c, p);
    case Mul(a, b) => SubstExprMeaning(a, y, c, p); SubstExprMeaning(b, y, c, p);
    case Min(a, b) => SubstExprMeaning(a, y, c, p); SubstExprMeaning(b, y, c, p);
    case Max(a, b) => SubstExprMeaning(a, y, c, p); SubstExprMeaning(b, y, c, p);
    case Ite(f, t, s) =>
      SubstMeaning(f, y, c, p);
      SubstExprMeaning(t, y, c, p);
      SubstExprMeaning(s, y, c, p);
  }

  /** Substituting a constant is evaluating where the variable has that value. */
  lemma {:induction false} SubstMeaning(f: Formula, y: nat, c: real, p: Point)
    ensures Holds(Subst(f, y, c), p) <==> Holds(f, At(p, y, c))
    decreases f, 0
  {
    match f
    case Rel(_, l, r) => SubstExprMeaning(l, y, c, p); SubstExprMeaning(r, y, c, p);
    case Not(g) => SubstMeaning(g, y, c, p);
    case And(fs) =>
      forall i | 0 <= i < |fs| ensures Holds(SubstAll(fs, y, c)[i], p) <==> Holds(fs[i], At(p, y, c)) {
        SubstMeaning(fs[i], y, c, p);
      }
    case Or(fs) =>
      forall i | 0 <= i < |fs| ensures Holds(SubstAll(fs, y, c)[i], p) <==> Holds(fs[i], At(p, y, c)) {
        SubstMeaning(fs[i], y, c, p);
      }
    case Forall(vars, g) =>
      if y in vars { HoldsCoincides(f, p, At(p, y, c)); } else { SubstUnderForall(vars, g, y, c, p); }
    case _ =>
  }

  lemma {:induction false} SubstUnderForall(vars: set<nat>, g: Formula, y: nat, c: real, p: Point)
    requires y !in vars
    ensures Holds(Forall(vars, Subst(g, y, c)), p) <==> Holds(Forall(vars, g), At(p, y, c))
    decreases g, 1
  {
    if Holds(Forall(vars, Subst(g, y, c)), p) {
      forall q: Point | AgreeOff(At(p, y, c), q, vars) ensures Holds(g, q) {
        var q' := At(q, y, p(y));
        assert AgreeOff(p, q', vars);
        SubstMeaning(g, y, c, q');
        HoldsCoincides(g, At(q', y, c), q);
      }
    }
    if Holds(Forall(vars, g), At(p, y, c)) {
      forall q: Point | AgreeOff(p, q, vars) ensures Holds(Subst(g, y, c), q) {
        assert AgreeOff(At(p, y, c), At(q, y, c), vars);
        SubstMeaning(g, y, c, q);
      }
    }
  }

  lemma {:induction false} SubstExprVars(e: Expr, y: nat, c: real)
    ensures ExprVars(SubstExpr(e, y, c)) == ExprVars(e) - {y}
    decreases e, 0
  {
    match e
    case Const(_) =>
    case Var(_) =>
    case Pow(a, _) => SubstExprVars(a, y, c);
    case Abs(a) => SubstExprVars(a, y, c);
    case Add(a, b) => SubstExprVars(a, y, c); SubstExprVars(b, y, c);
    case Mul(a, b) => SubstExprVars(a, y, c); SubstExprVars(b, y, c);
    case Min(a, b) => SubstExprVars(a, y, c); SubstExprVars(b, y, c);
    case Max(a, b) => SubstExprVars(a, y, c); SubstExprVars(b, y, c);
    case Ite(f, t, s) => SubstVars(f, y, c); SubstExprVars(t, y, c); SubstExprVars(s, y, c);
  }

  /** Substitution removes the variable and no other. */
  lemma {:induction false} SubstVars(f: Formula, y: nat, c: real)
    ensures FreeVars(Subst(f, y, c)) == FreeVars(f) - {y}
    decreases f, 0
  {
    match f
    case Rel(_, l, r) => SubstExprVars(l, y, c); SubstExprVars(r, y, c);
    case Not(g) => SubstVars(g, y, c);
    case And(fs) => SubstAllVars(fs, y, c);
    case Or(fs) => SubstAllVars(fs, y, c);
    case Forall(vars, g) => SubstVars(g, y, c);
    case _ =>
  }

  lemma {:induction false} SubstAllVars(fs: seq<Formula>, y: nat, c: real)
    ensures FreeVars(And(SubstAll(fs, y, c))) == FreeVars(And(fs)) - {y}
    ensures FreeVars(Or(SubstAll(fs, y, c))) == FreeVars(Or(fs)) - {y}
    decreases fs, 0
  {
    var gs := SubstAll(fs, y, c);
    forall i | 0 <= i < |fs| ensures FreeVars(gs[i]) == FreeVars(fs[i]) - {y} { SubstVars(fs[i], y, c); }
    var all := set i, v | 0 <= i < |fs| && v in FreeVars(fs[i]) :: v;
    var left := set i, v | 0 <= i < |gs| && v in FreeVars(gs[i]) :: v;
    forall v | v in all && v != y ensures v in left {
      var i :| 0 <= i < |fs| && v in FreeVars(fs[i]);
      assert v in FreeVars(gs[i]);
    }
    assert left == all - {y};
  }

  // --------------------------------------------------------------- pinning

  function IsPinned(domain: Box, y: nat): bool {
    domain.Box? && y < |domain.iv| && domain.iv[y].lo == domain.iv[y].hi
  }

  /** `p` with the variables of `pinned` at their only value. */
  ghost function Pin(p: Point, domain: Box, pinned: set<nat>): Point
    requires forall y | y in pinned :: IsPinned(domain, y)
  {
    (v: nat) => if v in pinned then PinnedValue(domain, v) else p(v)
  }

  function PinnedValue(domain: Box, v: nat): real {
    if IsPinned(domain, v) then domain.iv[v].lo as real else 0.0
  }

  ghost function PinnedVars(domain: Box, qvars: set<nat>): (r: set<nat>)
    ensures forall y | y in r :: IsPinned(domain, y)
  {
    set y | y in qvars && IsPinned(domain, y)
  }

  ghost function BinderDomain(types: seq<VarType>, f: Formula): Box
    requires f.Forall? && FreeVars(f.body) <= Dims(types)
  {
    NegatedVars(types, f.body);
    UniversalDomain(types, f.vars, NegatedConjuncts(f.body))
  }

  lemma NegatedVars(types: seq<VarType>, matrix: Formula)
    requires FreeVars(matrix) <= Dims(types)
    ensures forall c | c in NegatedConjuncts(matrix) :: FreeVars(c) <= Dims(types)
  {
    NnfVars(MkNot(matrix), true, true);
    var neg := Convert(MkNot(matrix), true);
    forall c | c in TopConjuncts(neg) ensures FreeVars(c) <= FreeVars(neg) {
    }
  }

  /** `g` is the matrix with the pinned variables at their values. */
  ghost predicate IsPinnedMatrix(g: Formula, matrix: Formula, domain: Box, pinned: set<nat>)
    requires forall y | y in pinned :: IsPinned(domain, y)
  {
    forall q :: Holds(g, q) <==> Holds(matrix, Pin(q, domain, pinned))
  }

  /** What the result of the elimination is: the formula itself when nothing is
      pinned, else its matrix at the pinned values, under the variables left. */
  ghost predicate IsElimination(types: seq<VarType>, f: Formula, r: Formula)
    requires f.Forall? && FreeVars(f.body) <= Dims(types)
  {
    var domain := BinderDomain(types, f);
    var pinned := PinnedVars(domain, f.vars);
    if pinned == {} then r == f
    else if f.vars == pinned then IsPinnedMatrix(r, f.body, domain, pinned)
    else r.Forall? && r.vars == f.vars - pinned && IsPinnedMatrix(r.body, f.body, domain, pinned)
  }

  /** The substitution loop: replaces every pinned variable and collects the
      others. */
  method SubstitutePinned(matrix: Formula, domain: Box, qvars: set<nat>)
    returns (result: Formula, surviving: set<nat>, anyEliminated: bool)
    ensures surviving == qvars - PinnedVars(domain, qvars)
    ensures anyEliminated <==> PinnedVars(domain, qvars) != {}
    ensures IsPinnedMatrix(result, matrix, domain, PinnedVars(domain, qvars))
    ensures FreeVars(result) == FreeVars(matrix) - PinnedVars(domain, qvars)
    ensures !anyEliminated ==> result == matrix
  {
    surviving, result, anyEliminated := {}, matrix, false;
    var rest := qvars;
    ghost var done: set<nat> := {};
    NothingPinned(matrix, domain);
    while rest != {}
      invariant done !! rest && done + rest == qvars
      invariant surviving == done - PinnedVars(domain, done)
      invariant anyEliminated <==> PinnedVars(domain, done) != {}
      invariant IsPinnedMatrix(result, matrix, domain, PinnedVars(domain, done))
      invariant FreeVars(result) == FreeVars(matrix) - PinnedVars(domain, done)
      invariant !anyEliminated ==> result == matrix
      decreases rest
    {
      var y :| y in rest;
      rest := rest - {y};
      PinnedGrows(domain, done, y);
      if IsPinned(domain, y) {
        PinOneMore(result, matrix, domain, PinnedVars(domain, done), y);
        SubstVars(result, y, domain.iv[y].lo as real);
        result := Subst(result, y, domain.iv[y].lo as real);
        anyEliminated := true;
      } else {
        surviving := surviving + {y};
      }
      done := done + {y};
    }
    assert done == qvars;
  }

  /** `EliminatePointUniversals`. An emptied binder domain pins nothing. */
  method EliminatePointUniversals(types: seq<VarType>, f: Formula) returns (r: Formula)
    requires f.Forall? && FreeVars(f.body) <= Dims(types) && f.vars <= FreeVars(f.body)
    ensures IsElimination(types, f, r)
  {
    NegatedVars(types, f.body);
    var domain := AbsorbBounds(types, f.vars, NegatedConjuncts(f.body));
    var result, surviving, anyEliminated := SubstitutePinned(f.body, domain, f.vars);
    if !anyEliminated { return f; }
    assert f.vars == PinnedVars(domain, f.vars) + surviving;
    if surviving == {} { return result; }
    assert surviving * FreeVars(result) == surviving;
    return MkForall(surviving, result);
  }

  lemma PinnedGrows(domain: Box, vars: set<nat>, y: nat)
    ensures IsPinned(domain, y) ==> PinnedVars(domain, vars + {y}) == PinnedVars(domain, vars) + {y}
    ensures !IsPinned(domain, y) ==> PinnedVars(domain, vars + {y}) == PinnedVars(domain, vars)
    ensures PinnedVars(domain, vars) <= vars
  {
  }

  lemma NothingPinned(matrix: Formula, domain: Box)
    ensures IsPinnedMatrix(matrix, matrix, domain, PinnedVars(domain, {}))
  {
    forall q ensures Holds(matrix, q) <==> Holds(matrix, Pin(q, domain, PinnedVars(domain, {}))) {
      HoldsCoincides(matrix, q, Pin(q, domain, PinnedVars(domain, {})));
    }
  }

  lemma PinOneMore(before: Formula, matrix: Formula, domain: Box, pinned: set<nat>, y: nat)
    requires (forall v | v in pinned :: IsPinned(domain, v)) && IsPinned(domain, y)
    requires IsPinnedMatrix(before, matrix, domain, pinned)
    ensures IsPinnedMatrix(Subst(before, y, domain.iv[y].lo as real), matrix, domain, pinned + {y})
  {
    var c := domain.iv[y].lo as real;
    forall q ensures Holds(Subst(before, y, c), q) <==> Holds(matrix, Pin(q, domain, pinned + {y})) {
      SubstMeaning(before, y, c, q);
      assert Holds(before, At(q, y, c)) <==> Holds(matrix, Pin(At(q, y, c), domain, pinned));
      HoldsCoincides(matrix, Pin(At(q, y, c), domain, pinned), Pin(q, domain, pinned + {y}));
    }
  }

  // ------------------------------------------------------------ equivalence

  /** The points the quantifier ranges over: the universal variables have values
      of their type, outside the gaps of strict binder bounds. */
  ghost predicate InRange(types: seq<VarType>, f: Formula, q: Point)
    requires f.Forall?
  {
    && (forall y | y in f.vars && y < |types| :: IntegralAt(types, q, y) && Contains(InitialInterval(types[y]), q(y)))
    && (forall c | c in NegatedConjuncts(f.body) && FreeVars(c) <= f.vars :: Clear(c, q))
  }

  /** The formula, with its quantifier over that range. */
  ghost predicate HoldsInRange(types: seq<VarType>, f: Formula, p: Point)
    requires f.Forall?
  {
    forall q | AgreeOff(p, q, f.vars) && InRange(types, f, q) :: Holds(f.body, q)
  }

  /** Every counterexample of the matrix has the pinned values. */
  lemma CounterexampleIsPinned(types: seq<VarType>, f: Formula, q: Point, y: nat)
    requires f.Forall? && FreeVars(f.body) <= Dims(types)
    requires InRange(types, f, q) && !Holds(f.body, q)
    requires y in PinnedVars(BinderDomain(types, f), f.vars)
    ensures q(y) == PinnedValue(BinderDomain(types, f), y)
  {
    var cs := NegatedConjuncts(f.body);
    var q' := Patch((v: nat) => 0.0, q, f.vars);
    NegatedVars(types, f.body);
    assert TypesOk(types, q') by {
      forall i | 0 <= i < |types| ensures IntegralAt(types, q', i) && Contains(InitialInterval(types[i]), q'(i)) {
        if i in f.vars { assert IntegralAt(types, q, i); }
      }
    }
    forall c | c in cs && FreeVars(c) <= f.vars ensures Obeys(c, q') {
      NegatedConjunctHolds(f.body, c, q);
      ObeysCoincides(c, q, q');
    }
    DomainHoldsObeying(types, f.vars, cs, q');
    assert Contains(BinderDomain(types, f).iv[y], q'(y));
    FinitePin(types, f.vars, cs, y);
  }

  lemma NegatedConjunctHolds(matrix: Formula, c: Formula, q: Point)
    requires !Holds(matrix, q) && c in NegatedConjuncts(matrix)
    ensures Holds(c, q)
  {
    MkNotMeaning(matrix, q);
    NnfMeaning(MkNot(matrix), true, true, q);
    var neg := Convert(MkNot(matrix), true);
    if neg.And? { var i :| 0 <= i < |neg.fs| && neg.fs[i] == c; }
  }

  /** A pinned interval is a finite point. */
  lemma FinitePin(types: seq<VarType>, qvars: set<nat>, cs: seq<Formula>, y: nat)
    requires forall c | c in cs :: FreeVars(c) <= Dims(types)
    requires y < |types| && UniversalDomain(types, qvars, cs).Box?
    ensures var iv := UniversalDomain(types, qvars, cs).iv[y]; iv.lo == iv.hi ==> iv.lo != -INF && iv.hi != INF
  {
    var r := UniversalDomain(types, qvars, cs);
    assert ValidInterval(r.iv[y]);
  }

  /** The smaller forall, with its quantifier over the same range. */
  ghost predicate SmallerHoldsInRange(types: seq<VarType>, f: Formula, r: Formula, p: Point)
    requires f.Forall? && r.Forall? && FreeVars(f.body) <= Dims(types)
  {
    forall q | AgreeOff(p, q, r.vars) &&
      InRange(types, f, Pin(q, BinderDomain(types, f), PinnedVars(BinderDomain(types, f), f.vars))) ::
      Holds(r.body, q)
  }

  /** When something survives, the smaller forall says the same as the formula. */
  lemma PartialElimination(types: seq<VarType>, f: Formula, r: Formula, p: Point)
    requires f.Forall? && FreeVars(f.body) <= Dims(types) && IsElimination(types, f, r)
    requires r.Forall? && PinnedVars(BinderDomain(types, f), f.vars) !in {{}, f.vars}
    ensures HoldsInRange(types, f, p) <==> SmallerHoldsInRange(types, f, r, p)
  {
    var domain := BinderDomain(types, f);
    var pinned := PinnedVars(domain, f.vars);
    if HoldsInRange(types, f, p) {
      forall q | AgreeOff(p, q, r.vars) && InRange(types, f, Pin(q, domain, pinned)) ensures Holds(r.body, q) {
        assert AgreeOff(p, Pin(q, domain, pinned), f.vars);
      }
    } else {
      var q :| AgreeOff(p, q, f.vars) && InRange(types, f, q) && !Holds(f.body, q);
      var q' := Patch(q, p, pinned);
      PinnedCounterexample(types, f, p, q);
      assert AgreeOff(p, q', r.vars);
      assert !Holds(r.body, q');
    }
  }

  /** A counterexample is what pinning makes of its other coordinates. */
  lemma PinnedCounterexample(types: seq<VarType>, f: Formula, p: Point, q: Point)
    requires f.Forall? && FreeVars(f.body) <= Dims(types)
    requires InRange(types, f, q) && !Holds(f.body, q)
    ensures var domain := BinderDomain(types, f);
            var pinned := PinnedVars(domain, f.vars);
            var q' := Pin(Patch(q, p, pinned), domain, pinned);
            InRange(types, f, q') && !Holds(f.body, q')
  {
    var domain := BinderDomain(types, f);
    var pinned := PinnedVars(domain, f.vars);
    var q' := Pin(Patch(q, p, pinned), domain, pinned);
    forall v: nat ensures q(v) == q'(v) {
      if v in pinned { CounterexampleIsPinned(types, f, q, v); }
    }
    HoldsCoincides(f.body, q, q');
    forall y | y in f.vars && y < |types|
      ensures IntegralAt(types, q', y) && Contains(InitialInterval(types[y]), q'(y)) {
      assert IntegralAt(types, q, y);
    }
    forall c | c in NegatedConjuncts(f.body) && FreeVars(c) <= f.vars ensures Clear(c, q') {
      NegatedConjunctHolds(f.body, c, q);
      ObeysCoincides(c, q, q');
    }
  }

  /** When every variable is pinned, the matrix at the pinned values says the
      same as the formula, provided those values are in range: an integer
      variable pinned to a fraction ranges over nothing. */
  lemma TotalElimination(types: seq<VarType>, f: Formula, r: Formula, p: Point)
    requires f.Forall? && FreeVars(f.body) <= Dims(types) && f.vars != {} && IsElimination(types, f, r)
    requires PinnedVars(BinderDomain(types, f), f.vars) == f.vars
    ensures HoldsInRange(types, f, p) <==> (InRange(types, f, Pin(p, BinderDomain(types, f), f.vars)) ==> Holds(r, p))
  {
    var pin := Pin(p, BinderDomain(types, f), f.vars);
    assert Holds(r, p) <==> Holds(f.body, pin);
    assert AgreeOff(p, pin, f.vars);
    if !HoldsInRange(types, f, p) {
      var q :| AgreeOff(p, q, f.vars) && InRange(types, f, q) && !Holds(f.body, q);
      OnlyCounterexample(types, f, p, q);
    }
  }

  /** With every variable pinned there is one candidate counterexample. */
  lemma OnlyCounterexample(types: seq<VarType>, f: Formula, p: Point, q: Point)
    requires f.Forall? && FreeVars(f.body) <= Dims(types)
    requires PinnedVars(BinderDomain(types, f), f.vars) == f.vars
    requires AgreeOff(p, q, f.vars) && InRange(types, f, q) && !Holds(f.body, q)
    ensures var pin := Pin(p, BinderDomain(types, f), f.vars); InRange(types, f, pin) && !Holds(f.body, pin)
  {
    var domain := BinderDomain(types, f);
    PinnedCounterexample(types, f, p, q);
    SameOnAll(types, f, Pin(Patch(q, p, f.vars), domain, f.vars), Pin(p, domain, f.vars));
  }

  lemma SameOnAll(types: seq<VarType>, f: Formula, q: Point, q': Point)
    requires f.Forall? && (forall v: nat :: q(v) == q'(v)) && InRange(types, f, q)
    ensures InRange(types, f, q') && (Holds(f.body, q) <==> Holds(f.body, q'))
  {
    HoldsCoincides(f.body, q, q');
    forall y | y in f.vars && y < |types|
      ensures IntegralAt(types, q', y) && Contains(InitialInterval(types[y]), q'(y)) {
      assert IntegralAt(types, q, y);
    }
    forall c | c in NegatedConjuncts(f.body) && FreeVars(c) <= f.vars ensures Clear(c, q') {
      AsBoundMeaning(c, true, q);
    }
  }

  /** For continuous variables under non-strict bounds the range is everything:
      there the result is equivalent to the formula outright. */
  lemma RangeIsEverything(types: seq<VarType>, f: Formula, p: Point)
    requires f.Forall? && forall y | y in f.vars && y < |types| :: types[y] == CONTINUOUS
    requires forall c | c in NegatedConjuncts(f.body) && AsBound(c, true).Some? ::
             AsBound(c, true).value.op !in {GT, LT}
    ensures InRange(types, f, p)
    ensures HoldsInRange(types, f, p) <==> Holds(f, p)
  {
    forall q: Point ensures InRange(types, f, q) {
    }
  }
}
