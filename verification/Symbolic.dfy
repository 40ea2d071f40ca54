/** Symbolic terms: expressions, formulas, their meaning over real points, and
    the coincidence lemma that ties meaning to free variables.

    Every quantity is measured in the grid units of module Boxes, in which each
    finite double is an integer. */
module Symbolic {

  /** A valuation of all variables. Variable `i` is also dimension `i` of a box. */
  type Point = nat -> real

  datatype Option<+T> = None | Some(value: T)

  datatype VarType = CONTINUOUS | INTEGER | BINARY | BOOLEAN

  datatype RelOp = EQ | NEQ | GT | GEQ | LT | LEQ

  datatype Expr =
    | Const(c: real)
    | Var(v: nat)
    | Add(a: Expr, b: Expr)
    | Mul(a: Expr, b: Expr)
    | Pow(a: Expr, n: nat)
    | Abs(a: Expr)
    | Min(a: Expr, b: Expr)
    | Max(a: Expr, b: Expr)
    | Ite(cond: Formula, thn: Expr, els: Expr)

  datatype Formula =
    | True
    | False
    | BoolVar(b: nat)
    | Rel(op: RelOp, lhs: Expr, rhs: Expr)
    | Not(f: Formula)
    | And(fs: seq<Formula>)
    | Or(fs: seq<Formula>)
    | Forall(vars: set<nat>, body: Formula)

  function Sub(a: Expr, b: Expr): Expr {
    Add(a, Mul(Const(-1.0), b))
  }

  function RPow(x: real, n: nat): real {
    if n == 0 then 1.0 else x * RPow(x, n - 1)
  }

  function RAbs(x: real): real { if x < 0.0 then -x else x }
  function RMin(x: real, y: real): real { if x <= y then x else y }
  function RMax(x: real, y: real): real { if x <= y then y else x }

  predicate RelHolds(op: RelOp, x: real, y: real) {
    match op
    case EQ => x == y
    case NEQ => x != y
    case GT => x > y
    case GEQ => x >= y
    case LT => x < y
    case LEQ => x <= y
  }

  /** `RelationalOperator::operator!`. */
  function Negate(op: RelOp): (r: RelOp)
    ensures forall x, y :: RelHolds(r, x, y) <==> !RelHolds(op, x, y)
    ensures r != op && (r == EQ || r == NEQ <==> op == EQ || op == NEQ)
  {
    match op
    case EQ => NEQ
    case NEQ => EQ
    case GT => LEQ
    case GEQ => LT
    case LT => GEQ
    case LEQ => GT
  }

  // ---------------------------------------------------------------- meaning

  /** `q` differs from `p` at most on `vars`. */
  ghost predicate AgreeOff(p: Point, q: Point, vars: set<nat>) {
    forall v: nat | v !in vars :: p(v) == q(v)
  }

  ghost predicate AgreeOn(p: Point, q: Point, vars: set<nat>) {
    forall v: nat | v in vars :: p(v) == q(v)
  }

  ghost function Eval(e: Expr, p: Point): real
    decreases e
  {
    match e
    case Const(c) => c
    case Var(v) => p(v)
    case Add(a, b) => Eval(a, p) + Eval(b, p)
    case Mul(a, b) => Eval(a, p) * Eval(b, p)
    case Pow(a, n) => RPow(Eval(a, p), n)
    case Abs(a) => RAbs(Eval(a, p))
    case Min(a, b) => RMin(Eval(a, p), Eval(b, p))
    case Max(a, b) => RMax(Eval(a, p), Eval(b, p))
    case Ite(c, t, s) => if Holds(c, p) then Eval(t, p) else Eval(s, p)
  }

  ghost predicate Holds(f: Formula, p: Point)
    decreases f
  {
    match f
    case True => true
    case False => false
    case BoolVar(b) => p(b) != 0.0
    case Rel(op, l, r) => RelHolds(op, Eval(l, p), Eval(r, p))
    case Not(g) => !Holds(g, p)
    case And(fs) => forall i | 0 <= i < |fs| :: Holds(fs[i], p)
    case Or(fs) => exists i | 0 <= i < |fs| :: Holds(fs[i], p)
    case Forall(vars, g) => forall q: Point | AgreeOff(p, q, vars) :: Holds(g, q)
  }

  lemma SubMeaning(a: Expr, b: Expr, p: Point)
    ensures Eval(Sub(a, b), p) == Eval(a, p) - Eval(b, p)
  {
    assert Eval(Const(-1.0), p) == -1.0;
    assert Eval(Mul(Const(-1.0), b), p) == -1.0 * Eval(b, p);
  }

  ghost predicate AllHold(fs: set<Formula>, p: Point) {
    forall f | f in fs :: Holds(f, p)
  }

  // --------------------------------------------------------- free variables

  function ExprVars(e: Expr): set<nat>
    decreases e
  {
    match e
    case Const(_) => {}
    case Var(v) => {v}
    case Add(a, b) => ExprVars(a) + ExprVars(b)
    case Mul(a, b) => ExprVars(a) + ExprVars(b)
    case Pow(a, _) => ExprVars(a)
    case Abs(a) => ExprVars(a)
    case Min(a, b) => ExprVars(a) + ExprVars(b)
    case Max(a, b) => ExprVars(a) + ExprVars(b)
    case Ite(c, t, s) => FreeVars(c) + ExprVars(t) + ExprVars(s)
  }

  function FreeVars(f: Formula): set<nat>
    decreases f
  {
    match f
    case True => {}
    case False => {}
    case BoolVar(b) => {b}
    case Rel(_, l, r) => ExprVars(l) + ExprVars(r)
    case Not(g) => FreeVars(g)
    case And(fs) => set i, v | 0 <= i < |fs| && v in FreeVars(fs[i]) :: v
    case Or(fs) => set i, v | 0 <= i < |fs| && v in FreeVars(fs[i]) :: v
    case Forall(vars, g) => FreeVars(g) - vars
  }

  /** The point that takes the coordinates `vars` from `q` and the rest from `p`. */
  function Patch(p: Point, q: Point, vars: set<nat>): Point {
    (v: nat) => if v in vars then q(v) else p(v)
  }

  lemma {:induction false} EvalCoincides(e: Expr, p: Point, q: Point)
    requires AgreeOn(p, q, ExprVars(e))
    ensures Eval(e, p) == Eval(e, q)
    decreases e, 0
  {
    match e
    case Const(_) =>
    case Var(_) =>
    case Add(a, b) => EvalCoincides(a, p, q); EvalCoincides(b, p, q);
    case Mul(a, b) => EvalCoincides(a, p, q); EvalCoincides(b, p, q);
    case Pow(a, _) => EvalCoincides(a, p, q);
    case Abs(a) => EvalCoincides(a, p, q);
    case Min(a, b) => EvalCoincides(a, p, q); EvalCoincides(b, p, q);
    case Max(a, b) => EvalCoincides(a, p, q); EvalCoincides(b, p, q);
    case Ite(c, t, s) =>
      HoldsCoincides(c, p, q);
      EvalCoincides(t, p, q);
      EvalCoincides(s, p, q);
  }

  /** The truth of a formula depends on its free variables only. */
  lemma {:induction false} HoldsCoincides(f: Formula, p: Point, q: Point)
    requires AgreeOn(p, q, FreeVars(f))
    ensures Holds(f, p) <==> Holds(f, q)
    decreases f, 0
  {
    match f
    case True =>
    case False =>
    case BoolVar(_) =>
    case Rel(_, l, r) => EvalCoincides(l, p, q); EvalCoincides(r, p, q);
    case Not(g) => HoldsCoincides(g, p, q);
    case And(fs) =>
      forall i | 0 <= i < |fs| ensures Holds(fs[i], p) <==> Holds(fs[i], q) {
        HoldsCoincides(fs[i], p, q);
      }
    case Or(fs) =>
      forall i | 0 <= i < |fs| ensures Holds(fs[i], p) <==> Holds(fs[i], q) {
        HoldsCoincides(fs[i], p, q);
      }
    case Forall(vars, g) =>
      if Holds(f, p) { ForallTransfers(vars, g, p, q); }
      if Holds(f, q) { ForallTransfers(vars, g, q, p); }
  }

  lemma {:induction false} ForallTransfers(vars: set<nat>, g: Formula, p: Point, q: Point)
    requires AgreeOn(p, q, FreeVars(g) - vars)
    requires Holds(Forall(vars, g), p)
    ensures Holds(Forall(vars, g), q)
    decreases g, 1
  {
    forall q': Point | AgreeOff(q, q', vars) ensures Holds(g, q') {
      var p' := Patch(p, q', vars);
      assert AgreeOff(p, p', vars);
      assert AgreeOn(p', q', FreeVars(g));
      HoldsCoincides(g, p', q');
    }
  }

  /** `forall`: quantifies only variables that occur free in the matrix. */
  function MkForall(vars: set<nat>, g: Formula): Formula {
    Forall(vars * FreeVars(g), g)
  }

  lemma MkForallMeaning(vars: set<nat>, g: Formula, p: Point)
    ensures Holds(MkForall(vars, g), p) <==> Holds(Forall(vars, g), p)
    ensures FreeVars(MkForall(vars, g)) == FreeVars(g) - vars
  {
    if Holds(MkForall(vars, g), p) {
      forall q: Point | AgreeOff(p, q, vars) ensures Holds(g, q) {
        var q' := Patch(p, q, vars * FreeVars(g));
        assert AgreeOff(p, q', vars * FreeVars(g));
        HoldsCoincides(g, q, q');
      }
    } else {
      var q: Point :| AgreeOff(p, q, vars * FreeVars(g)) && !Holds(g, q);
      assert AgreeOff(p, q, vars);
    }
  }

  // ------------------------------------------------------------- fragments

  predicate IteFreeExpr(e: Expr)
    decreases e
  {
    match e
    case Const(_) => true
    case Var(_) => true
    case Add(a, b) => IteFreeExpr(a) && IteFreeExpr(b)
    case Mul(a, b) => IteFreeExpr(a) && IteFreeExpr(b)
    case Pow(a, _) => IteFreeExpr(a)
    case Abs(a) => IteFreeExpr(a)
    case Min(a, b) => IteFreeExpr(a) && IteFreeExpr(b)
    case Max(a, b) => IteFreeExpr(a) && IteFreeExpr(b)
    case Ite(_, _, _) => false
  }

  predicate IteFree(f: Formula)
    decreases f
  {
    match f
    case True => true
    case False => true
    case BoolVar(_) => true
    case Rel(_, l, r) => IteFreeExpr(l) && IteFreeExpr(r)
    case Not(g) => IteFree(g)
    case And(fs) => forall i | 0 <= i < |fs| :: IteFree(fs[i])
    case Or(fs) => forall i | 0 <= i < |fs| :: IteFree(fs[i])
    case Forall(_, g) => IteFree(g)
  }

  predicate QuantifierFree(f: Formula)
    decreases f
  {
    match f
    case Not(g) => QuantifierFree(g)
    case And(fs) => forall i | 0 <= i < |fs| :: QuantifierFree(fs[i])
    case Or(fs) => forall i | 0 <= i < |fs| :: QuantifierFree(fs[i])
    case Forall(_, g) => false
    case _ => true
  }

  // ------------------------------------------- simplifying constructors

  /** `operator!` on formulas: folds constants and double negation. */
  function MkNot(f: Formula): Formula {
    match f
    case True => False
    case False => True
    case Not(g) => g
    case _ => Not(f)
  }

  lemma MkNotMeaning(f: Formula, p: Point)
    ensures Holds(MkNot(f), p) <==> !Holds(f, p)
  {
  }

  /** The operands of a set-valued `make_conjunction`, flattened one level and
      with `True` dropped. */
  function Conjuncts(fs: seq<Formula>): seq<Formula> {
    if fs == [] then []
    else
      (match fs[0]
       case True => []
       case And(gs) => gs
       case g => [g]) + Conjuncts(fs[1..])
  }

  function Disjuncts(fs: seq<Formula>): seq<Formula> {
    if fs == [] then []
    else
      (match fs[0]
       case False => []
       case Or(gs) => gs
       case g => [g]) + Disjuncts(fs[1..])
  }

  /** `make_conjunction`: short-circuits on `False`, drops `True`, flattens. */
  function MkAnd(fs: seq<Formula>): Formula {
    if False in fs then False
    else
      var gs := Conjuncts(fs);
      if gs == [] then True else if |gs| == 1 then gs[0] else And(gs)
  }

  /** `make_disjunction`: short-circuits on `True`, drops `False`, flattens. */
  function MkOr(fs: seq<Formula>): Formula {
    if True in fs then True
    else
      var gs := Disjuncts(fs);
      if gs == [] then False else if |gs| == 1 then gs[0] else Or(gs)
  }

  ghost predicate AllTrue(fs: seq<Formula>, p: Point) {
    forall i | 0 <= i < |fs| :: Holds(fs[i], p)
  }

  ghost predicate SomeTrue(fs: seq<Formula>, p: Point) {
    exists i | 0 <= i < |fs| :: Holds(fs[i], p)
  }

  lemma AllTrueAppend(fs: seq<Formula>, gs: seq<Formula>, p: Point)
    ensures AllTrue(fs + gs, p) <==> AllTrue(fs, p) && AllTrue(gs, p)
  {
    var hs := fs + gs;
    if AllTrue(hs, p) {
      forall i | 0 <= i < |fs| ensures Holds(fs[i], p) { assert hs[i] == fs[i]; }
      forall i | 0 <= i < |gs| ensures Holds(gs[i], p) { assert hs[|fs| + i] == gs[i]; }
    }
  }

  lemma SomeTrueAppend(fs: seq<Formula>, gs: seq<Formula>, p: Point)
    ensures SomeTrue(fs + gs, p) <==> SomeTrue(fs, p) || SomeTrue(gs, p)
  {
    var hs := fs + gs;
    if i :| 0 <= i < |fs| && Holds(fs[i], p) { assert hs[i] == fs[i]; }
    if i :| 0 <= i < |gs| && Holds(gs[i], p) { assert hs[|fs| + i] == gs[i]; }
  }

  lemma {:induction false} ConjunctsMeaning(fs: seq<Formula>, p: Point)
    ensures AllTrue(Conjuncts(fs), p) <==> AllTrue(fs, p)
  {
    if fs == [] {
    } else {
      ConjunctsMeaning(fs[1..], p);
      var head := match fs[0] case True => [] case And(gs) => gs case g => [g];
      AllTrueAppend(head, Conjuncts(fs[1..]), p);
      AllTrueAppend([fs[0]], fs[1..], p);
      assert fs == [fs[0]] + fs[1..];
      assert AllTrue(head, p) <==> Holds(fs[0], p);
      assert AllTrue([fs[0]], p) <==> Holds([fs[0]][0], p);
    }
  }

  lemma {:induction false} DisjunctsMeaning(fs: seq<Formula>, p: Point)
    ensures SomeTrue(Disjuncts(fs), p) <==> SomeTrue(fs, p)
  {
    if fs == [] {
    } else {
      DisjunctsMeaning(fs[1..], p);
      var head := match fs[0] case False => [] case Or(gs) => gs case g => [g];
      SomeTrueAppend(head, Disjuncts(fs[1..]), p);
      SomeTrueAppend([fs[0]], fs[1..], p);
      assert fs == [fs[0]] + fs[1..];
      assert SomeTrue(head, p) <==> Holds(fs[0], p) by {
        if Holds(fs[0], p) && !fs[0].Or? { assert Holds(head[0], p); }
      }
      assert SomeTrue([fs[0]], p) <==> Holds(fs[0], p) by {
        if Holds(fs[0], p) { assert Holds([fs[0]][0], p); }
      }
    }
  }

  /** `make_conjunction` means the conjunction of its operands. */
  lemma MkAndMeaning(fs: seq<Formula>, p: Point)
    ensures Holds(MkAnd(fs), p) <==> AllTrue(fs, p)
  {
    if False in fs {
      var i :| 0 <= i < |fs| && fs[i] == False;
      assert !Holds(fs[i], p);
    } else {
      ConjunctsMeaning(fs, p);
    }
  }

  /** `make_disjunction` means the disjunction of its operands. */
  lemma MkOrMeaning(fs: seq<Formula>, p: Point)
    ensures Holds(MkOr(fs), p) <==> SomeTrue(fs, p)
  {
    if True in fs {
      var i :| 0 <= i < |fs| && fs[i] == True;
      assert Holds(fs[i], p);
    } else {
      DisjunctsMeaning(fs, p);
    }
  }

  lemma MkAnd2Meaning(f: Formula, g: Formula, p: Point)
    ensures Holds(MkAnd([f, g]), p) <==> Holds(f, p) && Holds(g, p)
  {
    MkAndMeaning([f, g], p);
    assert AllTrue([f, g], p) <==> Holds([f, g][0], p) && Holds([f, g][1], p);
  }

  lemma MkOr2Meaning(f: Formula, g: Formula, p: Point)
    ensures Holds(MkOr([f, g]), p) <==> Holds(f, p) || Holds(g, p)
  {
    MkOrMeaning([f, g], p);
    if Holds(f, p) { assert Holds([f, g][0], p); }
    if Holds(g, p) { assert Holds([f, g][1], p); }
  }
}
