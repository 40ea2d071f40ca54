/** The encoding of (Pareto) minimisation as a universally quantified constraint
    (solver/context_impl.cc, `Minimize`). */
module Minimization {
  import opened Symbolic
  import opened Boxes
  import opened Explanations
  import opened ContractorSpec

  // ---------------------------------------------- renaming to fresh copies

  function RenameExpr(e: Expr, xs: set<nat>, N: nat): Expr
    decreases e
  {
    match e
    case Const(_) => e
    case Var(v) => if v in xs then Var(v + N) else e
    case Add(a, b) => Add(RenameExpr(a, xs, N), RenameExpr(b, xs, N))
    case Mul(a, b) => Mul(RenameExpr(a, xs, N), RenameExpr(b, xs, N))
    case Pow(a, n) => Pow(RenameExpr(a, xs, N), n)
    case Abs(a) => Abs(RenameExpr(a, xs, N))
    case Min(a, b) => Min(RenameExpr(a, xs, N), RenameExpr(b, xs, N))
    case Max(a, b) => Max(RenameExpr(a, xs, N), RenameExpr(b, xs, N))
    case Ite(f, t, s) => Ite(Rename(f, xs, N), RenameExpr(t, xs, N), RenameExpr(s, xs, N))
  }

  /** `Substitute` of each variable `v` of `xs` by its copy `v + N`. */
  function Rename(f: Formula, xs: set<nat>, N: nat): Formula
    decreases f
  {
    match f
    case BoolVar(b) => if b in xs then BoolVar(b + N) else f
    case Rel(op, l, r) => Rel(op, RenameExpr(l, xs, N), RenameExpr(r, xs, N))
    case Not(g) => Not(Rename(g, xs, N))
    case And(fs) => And(RenameAll(fs, xs, N))
    case Or(fs) => Or(RenameAll(fs, xs, N))
    case Forall(vars, g) => Forall(vars, Rename(g, xs - vars, N))
    case _ => f
  }

  function RenameAll(fs: seq<Formula>, xs: set<nat>, N: nat): seq<Formula>
    decreases fs
  {
    seq(|fs|, i requires 0 <= i < |fs| => Rename(fs[i], xs, N))
  }

  /** The copies are fresh: no binder is among them. */
  predicate BindersBelowExpr(e: Expr, N: nat)
    decreases e
  {
    match e
    case Const(_) => true
    case Var(_) => true
    case Pow(a, _) => BindersBelowExpr(a, N)
    case Abs(a) => BindersBelowExpr(a, N)
    case Ite(f, t, s) => BindersBelow(f, N) && BindersBelowExpr(t, N) && BindersBelowExpr(s, N)
    case _ => BindersBelowExpr(e.a, N) && BindersBelowExpr(e.b, N)
  }

  predicate BindersBelow(f: Formula, N: nat)
    decreases f
  {
    match f
    case Rel(_, l, r) => BindersBelowExpr(l, N) && BindersBelowExpr(r, N)
    case Not(g) => BindersBelow(g, N)
    case And(fs) => forall i | 0 <= i < |fs| :: BindersBelow(fs[i], N)
    case Or(fs) => forall i | 0 <= i < |fs| :: BindersBelow(fs[i], N)
    case Forall(vars, g) => (forall v | v in vars :: v < N) && BindersBelow(g, N)
    case _ => true
  }

  /** The point seen through the copies. */
  function Through(p: Point, xs: set<nat>, N: nat): Point {
    (v: nat) => if v in xs then p(v + N) else p(v)
  }

  lemma {:induction false} RenameExprMeaning(e: Expr, xs: set<nat>, N: nat, p: Point)
    requires BindersBelowExpr(e, N)
    ensures Eval(RenameExpr(e, xs, N), p) == Eval(e, Through(p, xs, N))
    decreases e, 0
  {
    match e
    case Const(_) =>
    case Var(_) =>
    case Pow(a, _) => RenameExprMeaning(a, xs, N, p);
    case Abs(a) => RenameExprMeaning(a, xs, N, p);
    case Add(a, b) => RenameExprMeaning(a, xs, N, p); RenameExprMeaning(b, xs, N, p);
    case Mul(a, b) => RenameExprMeaning(a, xs, N, p); RenameExprMeaning(b, xs, N, p);
    case Min(a, b) => RenameExprMeaning(a, xs, N, p); RenameExprMeaning(b, xs, N, p);
    case Max(a, b) => RenameExprMeaning(a, xs, N, p); RenameExprMeaning(b, xs, N, p);
    case Ite(f, t, s) =>
      RenameMeaning(f, xs, N, p);
      RenameExprMeaning(t, xs, N, p);
      RenameExprMeaning(s, xs, N, p);
  }

  /** A renamed formula says of the copies what the formula says of the
      variables. */
  lemma {:induction false} RenameMeaning(f: Formula, xs: set<nat>, N: nat, p: Point)
    requires BindersBelow(f, N)
    ensures Holds(Rename(f, xs, N), p) <==> Holds(f, Through(p, xs, N))
    decreases f, 0
  {
    match f
    case Rel(_, l, r) => RenameExprMeaning(l, xs, N, p); RenameExprMeaning(r, xs, N, p);
    case Not(g) => RenameMeaning(g, xs, N, p);
    case And(fs) =>
      forall i | 0 <= i < |fs| ensures Holds(RenameAll(fs, xs, N)[i], p) <==> Holds(fs[i], Through(p, xs, N)) {
        RenameMeaning(fs[i], xs, N, p);
      }
    case Or(fs) =>
      forall i | 0 <= i < |fs| ensures Holds(RenameAll(fs, xs, N)[i], p) <==> Holds(fs[i], Through(p, xs, N)) {
        RenameMeaning(fs[i], xs, N, p);
      }
    case Forall(vars, g) => RenameUnderForall(vars, g, xs, N, p);
    case _ =>
  }

  lemma {:induction false} RenameUnderForall(vars: set<nat>, g: Formula, xs: set<nat>, N: nat, p: Point)
    requires BindersBelow(Forall(vars, g), N)
    ensures Holds(Forall(vars, Rename(g, xs - vars, N)), p) <==> Holds(Forall(vars, g), Through(p, xs, N))
    decreases g, 1
  {
    if Holds(Forall(vars, Rename(g, xs - vars, N)), p) {
      forall q: Point | AgreeOff(Through(p, xs, N), q, vars) ensures Holds(g, q) {
        var q' := Patch(p, q, vars);
        assert AgreeOff(p, q', vars);
        RenameMeaning(g, xs - vars, N, q');
        HoldsCoincides(g, Through(q', xs - vars, N), q);
      }
    } else {
      var q: Point :| AgreeOff(p, q, vars) && !Holds(Rename(g, xs - vars, N), q);
      RenameMeaning(g, xs - vars, N, q);
      var q' := Through(q, xs - vars, N);
      assert AgreeOff(Through(p, xs, N), q', vars);
    }
  }

  // ------------------------------------------------- connected constraints

  ghost function ObjectiveVars(fs: seq<Expr>): set<nat> {
    set k, v | 0 <= k < |fs| && v in ExprVars(fs[k]) :: v
  }

  /** `C` are the stack formulas connected to the objectives through shared
      variables, and `X` all variables involved. */
  ghost predicate Connected(stack: seq<Formula>, objectives: seq<Expr>, C: set<Formula>, X: set<nat>) {
    && (forall c | c in C :: c in stack)
    && X == ObjectiveVars(objectives) + VarsOf(C)
    && (forall f | f in stack && f !in C :: FreeVars(f) !! X)
  }

  function StackSet(stack: seq<Formula>): set<Formula> {
    set f | f in stack
  }

  /** Collects the variables of the objectives and closes under sharing. */
  method CollectConstraints(stack: seq<Formula>, objectives: seq<Expr>) returns (C: set<Formula>, X: set<nat>)
    ensures Connected(stack, objectives, C, X)
  {
    X, C := {}, {};
    var k := 0;
    while k < |objectives|
      invariant 0 <= k <= |objectives| && X == ObjectiveVars(objectives[..k])
    {
      ObjectiveVarsStep(objectives, k);
      X := X + ExprVars(objectives[k]);
      k := k + 1;
    }
    assert objectives[..|objectives|] == objectives;
    NoVarsOfNone();
    var keepGoing := true;
    while keepGoing
      invariant C <= StackSet(stack) && X == ObjectiveVars(objectives) + VarsOf(C)
      invariant !keepGoing ==> forall f | f in stack && f !in C :: FreeVars(f) !! X
      decreases |StackSet(stack) - C|, keepGoing
    {
      ghost var C0 := C;
      C, X, keepGoing := CollectPass(stack, objectives, C, X);
      if keepGoing { FewerLeft(StackSet(stack), C0, C); }
    }
  }

  lemma NoVarsOfNone()
    ensures VarsOf({}) == {}
  {
  }

  lemma ObjectiveVarsStep(objectives: seq<Expr>, k: nat)
    requires k < |objectives|
    ensures ObjectiveVars(objectives[..k + 1]) == ObjectiveVars(objectives[..k]) + ExprVars(objectives[k])
  {
    var fs, gs := objectives[..k + 1], objectives[..k];
    forall v | v in ObjectiveVars(fs) ensures v in ObjectiveVars(gs) + ExprVars(objectives[k]) {
      var j :| 0 <= j < |fs| && v in ExprVars(fs[j]);
      if j < k { assert gs[j] == fs[j]; }
    }
    forall v | v in ObjectiveVars(gs) ensures v in ObjectiveVars(fs) {
      var j :| 0 <= j < |gs| && v in ExprVars(gs[j]);
      assert gs[j] == fs[j];
    }
    forall v | v in ExprVars(objectives[k]) ensures v in ObjectiveVars(fs) {
      assert v in ExprVars(fs[k]);
    }
  }

  lemma FewerLeft(S: set<Formula>, C0: set<Formula>, C: set<Formula>)
    requires C0 <= C <= S && C != C0
    ensures |S - C| < |S - C0|
  {
    assert S - C0 == (S - C) + (C - C0);
    assert C - C0 != {};
  }

  /** One pass over the stack. */
  method CollectPass(stack: seq<Formula>, ghost objectives: seq<Expr>, C0: set<Formula>, X0: set<nat>)
    returns (C: set<Formula>, X: set<nat>, changed: bool)
    requires C0 <= StackSet(stack) && X0 == ObjectiveVars(objectives) + VarsOf(C0)
    ensures C0 <= C <= StackSet(stack) && X == ObjectiveVars(objectives) + VarsOf(C)
    ensures changed <==> C != C0
    ensures !changed ==> forall f | f in stack && f !in C :: FreeVars(f) !! X
  {
    C, X, changed := C0, X0, false;
    var i := 0;
    while i < |stack|
      invariant 0 <= i <= |stack| && C0 <= C <= StackSet(stack) && X == ObjectiveVars(objectives) + VarsOf(C)
      invariant changed <==> C != C0
      invariant !changed ==> forall j | 0 <= j < i :: stack[j] in C || FreeVars(stack[j]) !! X
    {
      var f := stack[i];
      if f !in C && X * FreeVars(f) != {} {
        VarsOfOneMore(C, f);
        X := X + FreeVars(f);
        C := C + {f};
        assert f in C && f !in C0;
        changed := true;
      } else {
        assert f in C || FreeVars(f) !! X;
      }
      i := i + 1;
    }
    assert !changed ==> forall f | f in stack && f !in C :: FreeVars(f) !! X by {
      forall f | !changed && f in stack && f !in C ensures FreeVars(f) !! X {
        var j :| 0 <= j < |stack| && stack[j] == f;
      }
    }
  }

  lemma VarsOfOneMore(C: set<Formula>, f: Formula)
    ensures VarsOf(C + {f}) == VarsOf(C) + FreeVars(f)
  {
  }

  // ------------------------------------------------------- the matrix of psi

  /** The copies of the variables `X`. */
  function Copies(X: set<nat>, N: nat): set<nat> {
    set v | v in X :: v + N
  }

  /** The copy of `v` violates the finite bounds of the box. */
  ghost predicate OutOfBounds(box: Box, v: nat, N: nat, q: Point)
    requires box.Box? ==> v < |box.iv|
  {
    box.Box? && !Contains(box.iv[v], q(v + N))
  }

  ghost predicate VarsInBox(box: Box, X: set<nat>) {
    box.Box? ==> forall v | v in X :: v < |box.iv|
  }

  /** Some copy is out of bounds, or some connected constraint fails on them. */
  ghost predicate CopiesFail(box: Box, C: set<Formula>, X: set<nat>, N: nat, q: Point)
    requires VarsInBox(box, X)
  {
    (exists v :: v in X && OutOfBounds(box, v, N, q)) || (exists c :: c in C && !Holds(c, Through(q, X, N)))
  }

  /** The negated bounds of the copies. */
  method NegatedBounds(box: Box, X: set<nat>, N: nat) returns (fs: seq<Formula>)
    requires VarsInBox(box, X)
    ensures forall q :: SomeTrue(fs, q) <==> exists v :: v in X && OutOfBounds(box, v, N, q)
  {
    fs := [];
    var rest := X;
    while rest != {} && box.Box?
      invariant rest <= X
      invariant forall q :: SomeTrue(fs, q) <==> exists v :: v in X - rest && OutOfBounds(box, v, N, q)
      decreases rest
    {
      var v :| v in rest;
      ghost var before, done := fs, X - rest;
      rest := rest - {v};
      var bounds := BoundNegations(box.iv[v], v + N);
      fs := fs + bounds;
      assert X - rest == done + {v};
      forall q ensures SomeTrue(fs, q) <==> exists u :: u in X - rest && OutOfBounds(box, u, N, q) {
        SomeTrueAppend(before, bounds, q);
        BoundNegationsMeaning(box.iv[v], v + N, q);
        if OutOfBounds(box, v, N, q) { assert v in X - rest; }
        if u :| u in done && OutOfBounds(box, u, N, q) { assert u in X - rest; }
      }
    }
  }

  /** A negated bound for each finite end. */
  function BoundNegations(iv: Interval, y: nat): seq<Formula> {
    (if iv.lo != -INF then [MkNot(Rel(LEQ, Const(iv.lo as real), Var(y)))] else []) +
    (if iv.hi != INF then [MkNot(Rel(LEQ, Var(y), Const(iv.hi as real)))] else [])
  }

  lemma BoundNegationsMeaning(iv: Interval, y: nat, q: Point)
    ensures SomeTrue(BoundNegations(iv, y), q) <==> !Contains(iv, q(y))
  {
    var lo := if iv.lo != -INF then [MkNot(Rel(LEQ, Const(iv.lo as real), Var(y)))] else [];
    var hi := if iv.hi != INF then [MkNot(Rel(LEQ, Var(y), Const(iv.hi as real)))] else [];
    SomeTrueAppend(lo, hi, q);
    SomeOfOne(MkNot(Rel(LEQ, Const(iv.lo as real), Var(y))), q);
    SomeOfOne(MkNot(Rel(LEQ, Var(y), Const(iv.hi as real))), q);
    assert Holds(Rel(LEQ, Const(iv.lo as real), Var(y)), q) <==> iv.lo as real <= q(y);
    assert Holds(Rel(LEQ, Var(y), Const(iv.hi as real)), q) <==> q(y) <= iv.hi as real;
  }

  lemma SomeOfOne(f: Formula, q: Point)
    ensures SomeTrue([f], q) <==> Holds(f, q)
  {
    if Holds(f, q) { assert Holds([f][0], q); }
  }

  /** The negated constraints on the copies. */
  method NegatedCopies(C: set<Formula>, X: set<nat>, N: nat) returns (fs: seq<Formula>)
    requires forall c | c in C :: BindersBelow(c, N)
    ensures forall q :: SomeTrue(fs, q) <==> exists c :: c in C && !Holds(c, Through(q, X, N))
  {
    fs := [];
    var rest := C;
    while rest != {}
      invariant rest <= C
      invariant forall q :: SomeTrue(fs, q) <==> exists c :: c in C - rest && !Holds(c, Through(q, X, N))
      decreases rest
    {
      var c :| c in rest;
      ghost var before, done := fs, C - rest;
      rest := rest - {c};
      fs := fs + [MkNot(Rename(c, X, N))];
      assert C - rest == done + {c};
      forall q ensures SomeTrue(fs, q) <==> exists d :: d in C - rest && !Holds(d, Through(q, X, N)) {
        SomeTrueAppend(before, [MkNot(Rename(c, X, N))], q);
        SomeOfOne(MkNot(Rename(c, X, N)), q);
        MkNotMeaning(Rename(c, X, N), q);
        RenameMeaning(c, X, N, q);
        if !Holds(c, Through(q, X, N)) { assert c in C - rest; }
        if d :| d in done && !Holds(d, Through(q, X, N)) { assert d in C - rest; }
      }
    }
  }

  /** Each `z` of the first `k` objectives has the objective's value. */
  ghost predicate ZsDefined(objectives: seq<Expr>, n: nat, k: nat, p: Point)
    requires k <= |objectives|
  {
    forall j | 0 <= j < k :: p(n + j) == Eval(objectives[j], p)
  }

  /** Some objective of the first `k` is no smaller on the copies. */
  ghost predicate NotBeaten(objectives: seq<Expr>, n: nat, k: nat, X: set<nat>, N: nat, q: Point)
    requires k <= |objectives|
  {
    exists j :: 0 <= j < k && q(n + j) <= Eval(objectives[j], Through(q, X, N))
  }

  /** The `z` block and the disjunction of the matrix. */
  method AddObjectives(objectives: seq<Expr>, n: nat, X: set<nat>, N: nat, start: Formula)
    returns (zBlock: Formula, matrix: Formula)
    requires forall j | 0 <= j < |objectives| :: BindersBelowExpr(objectives[j], N)
    ensures forall p :: Holds(zBlock, p) <==> ZsDefined(objectives, n, |objectives|, p)
    ensures forall q :: Holds(matrix, q) <==> Holds(start, q) || NotBeaten(objectives, n, |objectives|, X, N, q)
  {
    zBlock, matrix := True, start;
    var k := 0;
    while k < |objectives|
      invariant 0 <= k <= |objectives|
      invariant forall p :: Holds(zBlock, p) <==> ZsDefined(objectives, n, k, p)
      invariant forall q :: Holds(matrix, q) <==> Holds(start, q) || NotBeaten(objectives, n, k, X, N, q)
    {
      ghost var z0, m0 := zBlock, matrix;
      var z, f := Var(n + k), objectives[k];
      zBlock := MkAnd([zBlock, Rel(EQ, z, f)]);
      matrix := MkOr([matrix, Rel(LEQ, z, RenameExpr(f, X, N))]);
      k := k + 1;
      forall p ensures Holds(zBlock, p) <==> ZsDefined(objectives, n, k, p) {
        MkAnd2Meaning(z0, Rel(EQ, z, f), p);
      }
      forall q ensures Holds(matrix, q) <==> Holds(start, q) || NotBeaten(objectives, n, k, X, N, q) {
        MkOr2Meaning(m0, Rel(LEQ, z, RenameExpr(f, X, N)), q);
        RenameExprMeaning(f, X, N, q);
      }
    }
  }

  /** What `psi` consists of: the `z` block, and a forall over the copies of the
      connected variables. */
  datatype Encoding = Encoding(C: set<Formula>, X: set<nat>, zBlock: Formula, matrix: Formula)

  ghost predicate PsiOf(psi: Formula, e: Encoding, N: nat) {
    psi == MkAnd([e.zBlock, MkForall(Copies(e.X, N), e.matrix)])
  }

  ghost predicate Encodes(box: Box, stack: seq<Formula>, objectives: seq<Expr>, n: nat, psi: Formula, e: Encoding) {
    var N := n + |objectives|;
    && Connected(stack, objectives, e.C, e.X) && VarsInBox(box, e.X)
    && PsiOf(psi, e, N)
    && (forall p :: Holds(e.zBlock, p) <==> ZsDefined(objectives, n, |objectives|, p))
    && MatrixMeans(box, objectives, n, e)
  }

  ghost predicate MatrixMeans(box: Box, objectives: seq<Expr>, n: nat, e: Encoding)
    requires VarsInBox(box, e.X)
  {
    var N := n + |objectives|;
    forall q :: Holds(e.matrix, q) <==>
      CopiesFail(box, e.C, e.X, N, q) || NotBeaten(objectives, n, |objectives|, e.X, N, q)
  }

  /** Stack and objectives speak of the `n` variables of the box. */
  ghost predicate Over(stack: seq<Formula>, objectives: seq<Expr>, n: nat) {
    && (forall f | f in stack :: (forall v | v in FreeVars(f) :: v < n) && BindersBelow(f, n + |objectives|))
    && (forall f | f in objectives :: (forall v | v in ExprVars(f) :: v < n) && BindersBelowExpr(f, n + |objectives|))
  }

  /** `Minimize`, up to the assertion of `psi`. The variables `z` are the
      dimensions after the box, and the copies come after them. */
  method Minimize(box: Box, stack: seq<Formula>, objectives: seq<Expr>, n: nat) returns (psi: Formula)
    requires Over(stack, objectives, n) && ValidBox(box, n)
    ensures exists e :: Encodes(box, stack, objectives, n, psi, e)
  {
    var N := n + |objectives|;
    var C, X := CollectConstraints(stack, objectives);
    ConnectedVars(stack, objectives, n, C, X);
    var negatedBounds := NegatedBounds(box, X, N);
    var negatedCopies := NegatedCopies(C, X, N);
    assert forall j | 0 <= j < |objectives| :: objectives[j] in objectives;
    var zBlock, matrix := AddObjectives(objectives, n, X, N, MkOr(negatedBounds + negatedCopies));
    psi := MkAnd([zBlock, MkForall(Copies(X, N), matrix)]);
    ghost var e := Encoding(C, X, zBlock, matrix);
    forall q ensures Holds(matrix, q) <==>
      CopiesFail(box, C, X, N, q) || NotBeaten(objectives, n, |objectives|, X, N, q) {
      MkOrMeaning(negatedBounds + negatedCopies, q);
      SomeTrueAppend(negatedBounds, negatedCopies, q);
    }
    assert Encodes(box, stack, objectives, n, psi, e);
  }

  lemma ConnectedVars(stack: seq<Formula>, objectives: seq<Expr>, n: nat, C: set<Formula>, X: set<nat>)
    requires Over(stack, objectives, n) && Connected(stack, objectives, C, X)
    ensures forall v | v in X :: v < n
  {
    forall v | v in X ensures v < n {
      if v in VarsOf(C) {
        var c :| c in C && v in FreeVars(c);
      } else {
        var k :| 0 <= k < |objectives| && v in ExprVars(objectives[k]);
        assert objectives[k] in objectives;
      }
    }
  }

  // ----------------------------------------------------------- correctness

  /** A model of the whole stack in the box. */
  ghost predicate FullModel(types: seq<VarType>, box: Box, stack: seq<Formula>, p: Point) {
    InBox(box, p) && IntOk(types, p) && AllTrue(stack, p)
  }

  /** `x` makes every objective strictly smaller than at `p`. */
  ghost predicate Beats(objectives: seq<Expr>, x: Point, p: Point) {
    forall j | 0 <= j < |objectives| :: Eval(objectives[j], x) < Eval(objectives[j], p)
  }

  /** No model of the whole stack makes every objective strictly smaller. */
  ghost predicate ParetoMinimal(types: seq<VarType>, box: Box, stack: seq<Formula>, objectives: seq<Expr>, p: Point) {
    !exists x :: FullModel(types, box, stack, x) && Beats(objectives, x, p)
  }

  /** The copies of integer variables are integers. */
  ghost predicate CopiesTyped(types: seq<VarType>, X: set<nat>, N: nat, q: Point) {
    forall v | v in X && v < |types| && IsIntType(types[v]) :: Integral(q(v + N))
  }

  /** `psi`, with its quantifier over typed copies. */
  ghost predicate PsiHolds(types: seq<VarType>, N: nat, e: Encoding, p: Point) {
    Holds(e.zBlock, p) && forall q | AgreeOff(p, q, Copies(e.X, N)) && CopiesTyped(types, e.X, N, q) ::
      Holds(e.matrix, q)
  }

  /** The connected part of an encoding, over the `n` variables of the box. */
  ghost predicate Copying(stack: seq<Formula>, objectives: seq<Expr>, n: nat, e: Encoding) {
    Over(stack, objectives, n) && Connected(stack, objectives, e.C, e.X) && forall v | v in e.X :: v < n
  }

  /** For a model of the stack with `z` at the objective values, the encoding
      holds exactly when the model is Pareto minimal among all models of the
      stack, although only the connected constraints were copied. */
  lemma EncodingIsPareto(types: seq<VarType>, box: Box, stack: seq<Formula>, objectives: seq<Expr>, psi: Formula,
                         e: Encoding, N: nat, p: Point)
    requires ValidBox(box, |types|) && Over(stack, objectives, |types|) && N == |types| + |objectives|
    requires Encodes(box, stack, objectives, |types|, psi, e)
    requires FullModel(types, box, stack, p) && ZsDefined(objectives, |types|, |objectives|, p)
    ensures PsiHolds(types, N, e, p) <==> ParetoMinimal(types, box, stack, objectives, p)
  {
    ConnectedVars(stack, objectives, |types|, e.C, e.X);
    if ParetoMinimal(types, box, stack, objectives, p) {
      MinimalIsNotRefuted(types, box, stack, objectives, e, N, p);
    } else {
      var x :| FullModel(types, box, stack, x) && Beats(objectives, x, p);
      BeatenIsRefuted(types, box, stack, objectives, e, N, p, x);
    }
  }

  /** Without integer variables among the connected ones the typed reading of
      `psi` is the plain one. */
  lemma PsiIsPlain(types: seq<VarType>, N: nat, psi: Formula, e: Encoding, p: Point)
    requires PsiOf(psi, e, N) && forall v | v in e.X && v < |types| :: !IsIntType(types[v])
    ensures Holds(psi, p) <==> PsiHolds(types, N, e, p)
  {
    var copies := Copies(e.X, N);
    MkAnd2Meaning(e.zBlock, MkForall(copies, e.matrix), p);
    MkForallMeaning(copies, e.matrix, p);
    assert Holds(Forall(copies, e.matrix), p) <==> forall q: Point | AgreeOff(p, q, copies) :: Holds(e.matrix, q);
  }

  /** What is asserted, read as a formula, is Pareto minimality, provided that no
      variable connected to the objectives has an integer type. */
  lemma PsiIsPareto(types: seq<VarType>, box: Box, stack: seq<Formula>, objectives: seq<Expr>, psi: Formula,
                    e: Encoding, N: nat, p: Point)
    requires ValidBox(box, |types|) && Over(stack, objectives, |types|) && N == |types| + |objectives|
    requires Encodes(box, stack, objectives, |types|, psi, e)
    requires forall v | v in e.X && v < |types| :: !IsIntType(types[v])
    requires FullModel(types, box, stack, p) && ZsDefined(objectives, |types|, |objectives|, p)
    ensures Holds(psi, p) <==> ParetoMinimal(types, box, stack, objectives, p)
  {
    PsiIsPlain(types, N, psi, e, p);
    EncodingIsPareto(types, box, stack, objectives, psi, e, N, p);
  }

  ghost predicate AgreeBelow(p: Point, q: Point, n: nat) {
    forall v: nat | v < n :: p(v) == q(v)
  }

  /** `x` has the copies of `q` in place of `X` and is `p` elsewhere below `n`. */
  ghost predicate Glued(p: Point, q: Point, X: set<nat>, n: nat, N: nat, x: Point) {
    forall v: nat | v < n :: x(v) == if v in X then q(v + N) else p(v)
  }

  lemma CopiesAreAbove(p: Point, q: Point, X: set<nat>, N: nat)
    requires AgreeOff(p, q, Copies(X, N))
    ensures AgreeBelow(p, q, N)
  {
    forall v: nat | v < N ensures p(v) == q(v) { assert v !in Copies(X, N); }
  }

  lemma ThroughIsGlued(p: Point, q: Point, X: set<nat>, n: nat, N: nat)
    requires AgreeBelow(p, q, N) && n <= N
    ensures Glued(p, q, X, n, N, Through(q, X, N))
  {
  }

  /** Copies that refute the matrix, put in place of the connected variables,
      are a better model. */
  lemma RefutedIsBeaten(types: seq<VarType>, box: Box, stack: seq<Formula>, objectives: seq<Expr>, e: Encoding,
                        N: nat, p: Point)
    requires ValidBox(box, |types|) && VarsInBox(box, e.X) && Copying(stack, objectives, |types|, e)
    requires MatrixMeans(box, objectives, |types|, e) && N == |types| + |objectives|
    requires Holds(e.zBlock, p) && !PsiHolds(types, N, e, p)
    requires FullModel(types, box, stack, p) && ZsDefined(objectives, |types|, |objectives|, p)
    ensures !ParetoMinimal(types, box, stack, objectives, p)
  {
    var q :| AgreeOff(p, q, Copies(e.X, N)) && CopiesTyped(types, e.X, N, q) && !Holds(e.matrix, q);
    RefuterBeats(types, box, stack, objectives, e, N, p, q);
  }

  lemma MinimalIsNotRefuted(types: seq<VarType>, box: Box, stack: seq<Formula>, objectives: seq<Expr>, e: Encoding,
                            N: nat, p: Point)
    requires ValidBox(box, |types|) && VarsInBox(box, e.X) && Copying(stack, objectives, |types|, e)
    requires MatrixMeans(box, objectives, |types|, e) && N == |types| + |objectives| && Holds(e.zBlock, p)
    requires FullModel(types, box, stack, p) && ZsDefined(objectives, |types|, |objectives|, p)
    requires ParetoMinimal(types, box, stack, objectives, p)
    ensures PsiHolds(types, N, e, p)
  {
    if !PsiHolds(types, N, e, p) { RefutedIsBeaten(types, box, stack, objectives, e, N, p); }
  }

  lemma RefuterBeats(types: seq<VarType>, box: Box, stack: seq<Formula>, objectives: seq<Expr>, e: Encoding, N: nat,
                     p: Point, q: Point)
    requires ValidBox(box, |types|) && VarsInBox(box, e.X) && Copying(stack, objectives, |types|, e)
    requires MatrixMeans(box, objectives, |types|, e) && N == |types| + |objectives|
    requires AgreeOff(p, q, Copies(e.X, N)) && CopiesTyped(types, e.X, N, q) && !Holds(e.matrix, q)
    requires FullModel(types, box, stack, p) && ZsDefined(objectives, |types|, |objectives|, p)
    ensures !ParetoMinimal(types, box, stack, objectives, p)
  {
    assert FullModel(types, box, stack, Through(q, e.X, N)) && Beats(objectives, Through(q, e.X, N), p) by {
      CopiesAreAbove(p, q, e.X, N);
      MatrixFails(box, objectives, |types|, e, N, q);
      GluedModel(types, box, stack, objectives, e, N, p, q);
    }
    BetterModelRefutes(types, box, stack, objectives, p, Through(q, e.X, N));
  }

  lemma BetterModelRefutes(types: seq<VarType>, box: Box, stack: seq<Formula>, objectives: seq<Expr>, p: Point,
                           x: Point)
    requires FullModel(types, box, stack, x) && Beats(objectives, x, p)
    ensures !ParetoMinimal(types, box, stack, objectives, p)
  {
  }

  lemma MatrixFails(box: Box, objectives: seq<Expr>, n: nat, e: Encoding, N: nat, q: Point)
    requires VarsInBox(box, e.X) && MatrixMeans(box, objectives, n, e) && N == n + |objectives|
    ensures !Holds(e.matrix, q) <==>
            !CopiesFail(box, e.C, e.X, N, q) && !NotBeaten(objectives, n, |objectives|, e.X, N, q)
  {
  }

  lemma GluedModel(types: seq<VarType>, box: Box, stack: seq<Formula>, objectives: seq<Expr>, e: Encoding, N: nat,
                   p: Point, q: Point)
    requires ValidBox(box, |types|) && VarsInBox(box, e.X) && Copying(stack, objectives, |types|, e)
    requires N == |types| + |objectives| && AgreeBelow(p, q, N) && CopiesTyped(types, e.X, N, q)
    requires !CopiesFail(box, e.C, e.X, N, q) && !NotBeaten(objectives, |types|, |objectives|, e.X, N, q)
    requires FullModel(types, box, stack, p) && ZsDefined(objectives, |types|, |objectives|, p)
    ensures FullModel(types, box, stack, Through(q, e.X, N)) && Beats(objectives, Through(q, e.X, N), p)
  {
    var x := Through(q, e.X, N);
    ThroughIsGlued(p, q, e.X, |types|, N);
    NothingFails(box, e.C, e.X, N, q, x);
    GlueBox(types, box, e.X, N, p, q, x);
    GlueStack(stack, objectives, |types|, e, p, q, N, x);
    BetterObjectives(objectives, |types|, e.X, N, p, q, x);
  }

  lemma NothingFails(box: Box, C: set<Formula>, X: set<nat>, N: nat, q: Point, x: Point)
    requires VarsInBox(box, X) && !CopiesFail(box, C, X, N, q) && x == Through(q, X, N)
    ensures forall v | v in X :: !OutOfBounds(box, v, N, q)
    ensures forall c | c in C :: Holds(c, x)
  {
  }

  /** The glued point lies in the box. */
  lemma GlueBox(types: seq<VarType>, box: Box, X: set<nat>, N: nat, p: Point, q: Point, x: Point)
    requires ValidBox(box, |types|) && VarsInBox(box, X) && InBox(box, p) && IntOk(types, p)
    requires Glued(p, q, X, |types|, N, x) && CopiesTyped(types, X, N, q)
    requires forall v | v in X :: !OutOfBounds(box, v, N, q)
    ensures InBox(box, x) && IntOk(types, x)
  {
    forall i | 0 <= i < |types| ensures Contains(box.iv[i], x(i)) && IntegralAt(types, x, i) {
      assert IntegralAt(types, p, i) && Contains(box.iv[i], p(i));
      if i in X { assert !OutOfBounds(box, i, N, q); }
    }
  }

  /** Constraints that were not copied share no variable with the copied ones:
      the glued point satisfies them because `p` does. */
  lemma GlueStack(stack: seq<Formula>, objectives: seq<Expr>, n: nat, e: Encoding, p: Point, q: Point, N: nat, x: Point)
    requires Copying(stack, objectives, n, e) && AllTrue(stack, p)
    requires Glued(p, q, e.X, n, N, x) && forall c | c in e.C :: Holds(c, x)
    ensures AllTrue(stack, x)
  {
    forall i | 0 <= i < |stack| ensures Holds(stack[i], x) {
      var f := stack[i];
      if f !in e.C {
        assert f in stack && FreeVars(f) !! e.X;
        assert AgreeOn(p, x, FreeVars(f));
        HoldsCoincides(f, p, x);
      }
    }
  }

  lemma BetterObjectives(objectives: seq<Expr>, n: nat, X: set<nat>, N: nat, p: Point, q: Point, x: Point)
    requires ZsDefined(objectives, n, |objectives|, p) && AgreeBelow(p, q, N) && N == n + |objectives|
    requires x == Through(q, X, N) && !NotBeaten(objectives, n, |objectives|, X, N, q)
    ensures Beats(objectives, x, p)
  {
    forall j | 0 <= j < |objectives| ensures Eval(objectives[j], x) < Eval(objectives[j], p) {
      assert p(n + j) == q(n + j);
      assert q(n + j) > Eval(objectives[j], x);
    }
  }

  /** `p` with the copies of `X` at the values of `x`. */
  function CopyPoint(p: Point, x: Point, X: set<nat>, N: nat): Point {
    (v: nat) => if v >= N && v - N in X then x(v - N) else p(v)
  }

  /** The copies of `X` have the values of `x`. */
  ghost predicate Carries(q: Point, x: Point, X: set<nat>, N: nat) {
    forall v | v in X :: q(v + N) == x(v)
  }

  lemma CopyPointAgrees(p: Point, x: Point, X: set<nat>, N: nat)
    ensures AgreeOff(p, CopyPoint(p, x, X, N), Copies(X, N))
    ensures AgreeBelow(p, CopyPoint(p, x, X, N), N) && Carries(CopyPoint(p, x, X, N), x, X, N)
  {
    forall v: nat | v >= N && v - N in X ensures v in Copies(X, N) {
      assert v == (v - N) + N;
    }
  }

  lemma CarriedThrough(q: Point, x: Point, X: set<nat>, N: nat)
    requires Carries(q, x, X, N)
    ensures AgreeOn(x, Through(q, X, N), X)
  {
  }

  /** A better model gives copies that refute the matrix. */
  lemma BeatenIsRefuted(types: seq<VarType>, box: Box, stack: seq<Formula>, objectives: seq<Expr>, e: Encoding, N: nat,
                        p: Point, x: Point)
    requires ValidBox(box, |types|) && VarsInBox(box, e.X) && Copying(stack, objectives, |types|, e)
    requires MatrixMeans(box, objectives, |types|, e) && ZsDefined(objectives, |types|, |objectives|, p)
    requires FullModel(types, box, stack, x) && Beats(objectives, x, p) && N == |types| + |objectives|
    ensures !PsiHolds(types, N, e, p)
  {
    CopyPointAgrees(p, x, e.X, N);
    CopiesRefute(types, box, stack, objectives, e, N, p, x, CopyPoint(p, x, e.X, N));
  }

  lemma CopiesRefute(types: seq<VarType>, box: Box, stack: seq<Formula>, objectives: seq<Expr>, e: Encoding, N: nat,
                     p: Point, x: Point, q: Point)
    requires VarsInBox(box, e.X) && Connected(stack, objectives, e.C, e.X) && N == |types| + |objectives|
    requires MatrixMeans(box, objectives, |types|, e) && ZsDefined(objectives, |types|, |objectives|, p)
    requires FullModel(types, box, stack, x) && Beats(objectives, x, p)
    requires AgreeBelow(p, q, N) && Carries(q, x, e.X, N)
    ensures CopiesTyped(types, e.X, N, q) && !Holds(e.matrix, q)
  {
    CopiesAreTyped(types, e.X, N, x, q);
    assert !Holds(e.matrix, q) by {
      CopiesSucceed(types, box, stack, objectives, e, N, x, q);
      CopiesBeat(objectives, |types|, e, N, p, x, q);
      MatrixFails(box, objectives, |types|, e, N, q);
    }
  }

  lemma CopiesAreTyped(types: seq<VarType>, X: set<nat>, N: nat, x: Point, q: Point)
    requires IntOk(types, x) && Carries(q, x, X, N)
    ensures CopiesTyped(types, X, N, q)
  {
    forall v | v in X && v < |types| && IsIntType(types[v])
      ensures Integral(q(v + N)) { assert IntegralAt(types, x, v); }
  }

  lemma CopiesSucceed(types: seq<VarType>, box: Box, stack: seq<Formula>, objectives: seq<Expr>, e: Encoding, N: nat,
                      x: Point, q: Point)
    requires VarsInBox(box, e.X) && Connected(stack, objectives, e.C, e.X)
    requires FullModel(types, box, stack, x) && Carries(q, x, e.X, N)
    ensures !CopiesFail(box, e.C, e.X, N, q)
  {
    forall v | v in e.X ensures !OutOfBounds(box, v, N, q) { assert Contains(box.iv[v], x(v)); }
    CarriedThrough(q, x, e.X, N);
    forall c | c in e.C ensures Holds(c, Through(q, e.X, N)) {
      var i :| 0 <= i < |stack| && stack[i] == c;
      assert FreeVars(c) <= VarsOf(e.C);
      HoldsCoincides(c, x, Through(q, e.X, N));
    }
  }

  lemma CopiesBeat(objectives: seq<Expr>, n: nat, e: Encoding, N: nat, p: Point, x: Point, q: Point)
    requires ObjectiveVars(objectives) <= e.X && Carries(q, x, e.X, N) && AgreeBelow(p, q, N) && N == n + |objectives|
    requires ZsDefined(objectives, n, |objectives|, p) && Beats(objectives, x, p)
    ensures !NotBeaten(objectives, n, |objectives|, e.X, N, q)
  {
    CarriedThrough(q, x, e.X, N);
    forall j | 0 <= j < |objectives| ensures q(n + j) > Eval(objectives[j], Through(q, e.X, N)) {
      assert ExprVars(objectives[j]) <= ObjectiveVars(objectives);
      EvalCoincides(objectives[j], x, Through(q, e.X, N));
    }
  }
}
