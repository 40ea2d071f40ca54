/** Elimination of if-then-else terms (util/if_then_else_eliminator.cc): every
    term becomes a fresh variable, constrained under the guards that lead to it. */
module IfThenElse {
  import opened Symbolic
  import opened Nnf

  /** The state of an eliminator: the next fresh variable, the formulas added,
      and the variables introduced. */
  datatype Elim = Elim(next: nat, added: seq<Formula>, vars: set<nat>)

  function Rebuild(e: Expr, a: Expr, b: Expr): Expr
    requires e.Add? || e.Mul? || e.Min? || e.Max?
  {
    match e
    case Add(_, _) => Add(a, b)
    case Mul(_, _) => Mul(a, b)
    case Min(_, _) => Min(a, b)
    case Max(_, _) => Max(a, b)
  }

  predicate Grows(s: Elim, s': Elim) {
    s.next <= s'.next && s.added <= s'.added && s.vars <= s'.vars
  }

  /** What visiting an expression under a guard gives. */
  function ElimExpr(e: Expr, guard: Formula, s: Elim): (r: (Expr, Elim))
    ensures Grows(s, r.1)
    decreases e, 1
  {
    if IteFreeExpr(e) then (e, s)
    else
      match e
      case Const(_) => (e, s)
      case Var(_) => (e, s)
      case Pow(a, n) => var (a', s') := ElimExpr(a, guard, s); (Pow(a', n), s')
      case Abs(a) => var (a', s') := ElimExpr(a, guard, s); (Abs(a'), s')
      case Ite(_, _, _) =>
        var i := ElimIte(e, guard, s);
        (Var(i.v), i.s3.(added := i.s3.added + Constraints(i)))
      case _ =>
        var (a', s1) := ElimExpr(e.a, guard, s);
        var (b', s2) := ElimExpr(e.b, guard, s1);
        (Rebuild(e, a', b'), s2)
  }

  /** The parts of a visited if-then-else, in the order of the visit. */
  datatype IteParts = IteParts(v: nat, s0: Elim, c: Formula, s1: Elim, thenGuard: Formula, elseGuard: Formula,
                               t: Expr, s2: Elim, u: Expr, s3: Elim)

  function ElimIte(e: Expr, guard: Formula, s: Elim): (i: IteParts)
    requires e.Ite?
    ensures i.v == s.next && i.s0 == s.(next := s.next + 1, vars := s.vars + {s.next})
    ensures Grows(s, i.s0) && Grows(i.s0, i.s1) && Grows(i.s1, i.s2) && Grows(i.s2, i.s3)
    decreases e, 0
  {
    var s0 := s.(next := s.next + 1, vars := s.vars + {s.next});
    var (c, s1) := ElimForm(e.cond, guard, s0);
    var thenGuard, elseGuard := MkAnd([guard, c]), MkAnd([guard, MkNot(c)]);
    var (t, s2) := ElimExpr(e.thn, thenGuard, s1);
    var (u, s3) := ElimExpr(e.els, elseGuard, s2);
    IteParts(s.next, s0, c, s1, thenGuard, elseGuard, t, s2, u, s3)
  }

  /** The fresh variable is one branch under the first guard and the other under
      the second. */
  function Constraints(i: IteParts): seq<Formula> {
    [MkOr([MkNot(i.thenGuard), Rel(EQ, Var(i.v), i.t)]), MkOr([MkNot(i.elseGuard), Rel(EQ, Var(i.v), i.u)])]
  }

  function ElimForm(f: Formula, guard: Formula, s: Elim): (r: (Formula, Elim))
    ensures Grows(s, r.1)
    decreases f, 0
  {
    match f
    case Rel(op, a, b) =>
      var (a', s1) := ElimExpr(a, guard, s);
      var (b', s2) := ElimExpr(b, guard, s1);
      (Rel(op, a', b'), s2)
    case Not(g) => var (g', s') := ElimForm(g, guard, s); (MkNot(g'), s')
    case And(fs) => var (gs, s') := ElimForms(fs, guard, s); (MkAnd(gs), s')
    case Or(fs) => var (gs, s') := ElimForms(fs, guard, s); (MkOr(gs), s')
    case Forall(vars, g) =>
      // The negated matrix gets an eliminator of its own, whose fresh variables
      // become universal. Negating visits the matrix and negates the result.
      var (g', s') := ElimNegation(g, Elim(s.next, [], {}));
      (MkForall(vars + s'.vars, Convert(MkNot(Finish(MkNot(g), g', s'.added)), false)), s.(next := s'.next))
    case _ => (f, s)
  }

  function ElimForms(fs: seq<Formula>, guard: Formula, s: Elim): (r: (seq<Formula>, Elim))
    ensures Grows(s, r.1) && |r.0| == |fs|
    decreases fs, 0
  {
    if fs == [] then ([], s)
    else
      var (g, s1) := ElimForm(fs[0], guard, s);
      var (gs, s2) := ElimForms(fs[1..], guard, s1);
      ([g] + gs, s2)
  }

  /** `ElimForm(MkNot(g), True, s)`, by cases on the simplification of `!`. */
  function ElimNegation(g: Formula, s: Elim): (r: (Formula, Elim))
    ensures Grows(s, r.1)
    decreases g, 1
  {
    match g
    case True => (False, s)
    case False => (True, s)
    case Not(h) => ElimForm(h, True, s)
    case _ => var (g', s') := ElimForm(g, True, s); (MkNot(g'), s')
  }

  /** The last lines of `Process`. */
  function Finish(f: Formula, f': Formula, added: seq<Formula>): Formula {
    if f == f' && added == [] then f else MkAnd([f', MkAnd(added)])
  }

  /** `IfThenElseEliminator::Process`, with fresh variables from `next` on. */
  function ProcessFrom(f: Formula, next: nat): (Formula, Elim) {
    var (f', s) := ElimForm(f, True, Elim(next, [], {}));
    (Finish(f, f', s.added), s)
  }

  lemma FinishMeaning(f: Formula, f': Formula, added: seq<Formula>, p: Point)
    ensures Holds(Finish(f, f', added), p) <==> Holds(f', p) && AllTrue(added, p)
  {
    MkAnd2Meaning(f', MkAnd(added), p);
    MkAndMeaning(added, p);
  }

  // ------------------------------------------------------------- soundness

  /** The formulas added between two states. */
  function New(s: Elim, s': Elim): seq<Formula>
    requires s.added <= s'.added
  {
    s'.added[|s.added|..]
  }

  lemma NewSplits(s: Elim, s1: Elim, s2: Elim, p: Point)
    requires s.added <= s1.added <= s2.added
    ensures AllTrue(New(s, s2), p) <==> AllTrue(New(s, s1), p) && AllTrue(New(s1, s2), p)
  {
    assert New(s, s2) == New(s, s1) + New(s1, s2);
    AllTrueAppend(New(s, s1), New(s1, s2), p);
  }

  lemma ConstraintsMeaning(i: IteParts, p: Point)
    ensures AllTrue(Constraints(i), p) <==>
              (Holds(i.thenGuard, p) ==> p(i.v) == Eval(i.t, p)) && (Holds(i.elseGuard, p) ==> p(i.v) == Eval(i.u, p))
  {
    var cs := Constraints(i);
    MkNotMeaning(i.thenGuard, p);
    MkNotMeaning(i.elseGuard, p);
    MkOr2Meaning(MkNot(i.thenGuard), Rel(EQ, Var(i.v), i.t), p);
    MkOr2Meaning(MkNot(i.elseGuard), Rel(EQ, Var(i.v), i.u), p);
    assert Holds(Rel(EQ, Var(i.v), i.t), p) <==> p(i.v) == Eval(i.t, p);
    assert Holds(Rel(EQ, Var(i.v), i.u), p) <==> p(i.v) == Eval(i.u, p);
    assert AllTrue(cs, p) <==> Holds(cs[0], p) && Holds(cs[1], p);
  }

  lemma GuardsMeaning(e: Expr, guard: Formula, s: Elim, p: Point)
    requires e.Ite?
    ensures var i := ElimIte(e, guard, s);
            && (Holds(i.thenGuard, p) <==> Holds(guard, p) && Holds(i.c, p))
            && (Holds(i.elseGuard, p) <==> Holds(guard, p) && !Holds(i.c, p))
  {
    var i := ElimIte(e, guard, s);
    MkNotMeaning(i.c, p);
    MkAnd2Meaning(guard, i.c, p);
    MkAnd2Meaning(guard, MkNot(i.c), p);
  }

  /** What an if-then-else adds, part by part. */
  lemma IteNew(e: Expr, guard: Formula, s: Elim, p: Point)
    requires e.Ite?
    ensures var i := ElimIte(e, guard, s);
            AllTrue(New(s, ElimExpr(e, guard, s).1), p) <==>
              && AllTrue(New(i.s0, i.s1), p) && AllTrue(New(i.s1, i.s2), p) && AllTrue(New(i.s2, i.s3), p)
              && AllTrue(Constraints(i), p)
  {
    var i := ElimIte(e, guard, s);
    var s4 := ElimExpr(e, guard, s).1;
    NewSplits(i.s0, i.s3, s4, p);
    NewSplits(i.s0, i.s2, i.s3, p);
    NewSplits(i.s0, i.s1, i.s2, p);
    assert New(i.s3, s4) == Constraints(i);
    assert New(s, s4) == New(i.s0, s4);
  }

  // -------------------------------------------------- variables in use

  function Max2(a: nat, b: nat): nat { if a < b then b else a }

  /** All variables of an expression, bound ones included, are below this. */
  function ExprBound(e: Expr): nat
    decreases e
  {
    match e
    case Const(_) => 0
    case Var(v) => v + 1
    case Pow(a, _) => ExprBound(a)
    case Abs(a) => ExprBound(a)
    case Ite(c, t, u) => Max2(FormBound(c), Max2(ExprBound(t), ExprBound(u)))
    case _ => Max2(ExprBound(e.a), ExprBound(e.b))
  }

  function FormBound(f: Formula): nat
    decreases f
  {
    match f
    case BoolVar(b) => b + 1
    case Rel(_, a, b) => Max2(ExprBound(a), ExprBound(b))
    case Not(g) => FormBound(g)
    case And(fs) => BoundOf(fs)
    case Or(fs) => BoundOf(fs)
    case Forall(_, g) => FormBound(g)
    case _ => 0
  }

  function BoundOf(fs: seq<Formula>): nat
    decreases fs
  {
    if fs == [] then 0 else Max2(FormBound(fs[0]), BoundOf(fs[1..]))
  }

  predicate Below(vs: set<nat>, n: nat) {
    forall v: nat | v in vs :: v < n
  }

  lemma {:induction false} ExprVarsBounded(e: Expr)
    ensures Below(ExprVars(e), ExprBound(e))
    decreases e, 0
  {
    match e
    case Const(_) =>
    case Var(_) =>
    case Pow(a, _) => ExprVarsBounded(a);
    case Abs(a) => ExprVarsBounded(a);
    case Ite(c, t, u) => FreeVarsBounded(c); ExprVarsBounded(t); ExprVarsBounded(u);
    case _ => ExprVarsBounded(e.a); ExprVarsBounded(e.b);
  }

  lemma {:induction false} FreeVarsBounded(f: Formula)
    ensures Below(FreeVars(f), FormBound(f))
    decreases f, 0
  {
    match f
    case Rel(_, a, b) => ExprVarsBounded(a); ExprVarsBounded(b);
    case Not(g) => FreeVarsBounded(g);
    case And(fs) => AllVarsBounded(fs);
    case Or(fs) => AllVarsBounded(fs);
    case Forall(_, g) => FreeVarsBounded(g);
    case _ =>
  }

  lemma {:induction false} AllVarsBounded(fs: seq<Formula>)
    ensures forall i | 0 <= i < |fs| :: Below(FreeVars(fs[i]), BoundOf(fs))
    decreases fs, 0
  {
    if fs == [] {
    } else {
      FreeVarsBounded(fs[0]);
      AllVarsBounded(fs[1..]);
      forall i | 0 <= i < |fs| ensures Below(FreeVars(fs[i]), BoundOf(fs)) {
        if i > 0 { assert fs[i] == fs[1..][i - 1]; }
      }
    }
  }

  // ------------------------------------------------------------------ shape

  /** The variables introduced are the fresh ones. */
  ghost predicate FreshVars(s: Elim, s': Elim) {
    forall v | v in s'.vars && v !in s.vars :: s.next <= v < s'.next
  }

  /** The added formulas are free of ITE and speak of `vs` and introduced
      variables. */
  ghost predicate AddedOver(s: Elim, s': Elim, vs: set<nat>)
    requires s.added <= s'.added
  {
    forall g | g in New(s, s') :: IteFree(g) && FreeVars(g) <= vs + s'.vars
  }

  lemma AddedSplits(s: Elim, s1: Elim, s2: Elim, vs: set<nat>)
    requires Grows(s, s1) && Grows(s1, s2)
    requires FreshVars(s, s1) && FreshVars(s1, s2) && AddedOver(s, s1, vs) && AddedOver(s1, s2, vs)
    ensures FreshVars(s, s2) && AddedOver(s, s2, vs)
  {
    assert New(s, s2) == New(s, s1) + New(s1, s2);
  }

  lemma MoreVars(s: Elim, s': Elim, vs: set<nat>, ws: set<nat>)
    requires s.added <= s'.added && AddedOver(s, s', vs) && vs <= ws + s'.vars
    ensures AddedOver(s, s', ws)
  {
  }

  /** The result has no ITE, and every new variable in it is reported. */
  lemma {:induction false} ExprShape(e: Expr, guard: Formula, s: Elim)
    requires IteFree(guard)
    ensures var (e', s') := ElimExpr(e, guard, s);
            && IteFreeExpr(e') && ExprVars(e') <= ExprVars(e) + s'.vars
            && FreshVars(s, s') && AddedOver(s, s', ExprVars(e) + FreeVars(guard))
    decreases e, 2
  {
    if !IteFreeExpr(e) {
      match e
      case Const(_) =>
      case Var(_) =>
      case Pow(a, _) => ExprShape(a, guard, s);
      case Abs(a) => ExprShape(a, guard, s);
      case Ite(_, _, _) => IteShape(e, guard, s);
      case _ =>
        var s1 := ElimExpr(e.a, guard, s).1;
        var s2 := ElimExpr(e.b, guard, s1).1;
        var vs := ExprVars(e) + FreeVars(guard);
        ExprShape(e.a, guard, s);
        ExprShape(e.b, guard, s1);
        MoreVars(s, s1, ExprVars(e.a) + FreeVars(guard), vs);
        MoreVars(s1, s2, ExprVars(e.b) + FreeVars(guard), vs);
        AddedSplits(s, s1, s2, vs);
    }
  }

  lemma {:induction false} IteShape(e: Expr, guard: Formula, s: Elim)
    requires IteFree(guard) && e.Ite?
    ensures var s' := ElimExpr(e, guard, s).1;
            FreshVars(s, s') && AddedOver(s, s', ExprVars(e) + FreeVars(guard))
    decreases e, 1
  {
    var vs := ExprVars(e) + FreeVars(guard);
    var i := ElimIte(e, guard, s);
    var s' := ElimExpr(e, guard, s).1;
    IteBranchShape(e, guard, s);
    assert New(i.s3, s') == Constraints(i);
    ConstraintsShape(i, vs + i.s3.vars);
    AddedSplits(i.s0, i.s3, s', vs);
    assert New(s, s') == New(i.s0, s');
  }

  lemma {:induction false} IteBranchShape(e: Expr, guard: Formula, s: Elim)
    requires IteFree(guard) && e.Ite?
    ensures var i := ElimIte(e, guard, s);
            && GuardShape(i, ExprVars(e) + FreeVars(guard))
            && FreshVars(i.s0, i.s1) && FreshVars(i.s1, i.s2) && FreshVars(i.s2, i.s3) && FreshVars(i.s0, i.s3)
            && AddedOver(i.s0, i.s1, ExprVars(e) + FreeVars(guard))
            && AddedOver(i.s0, i.s2, ExprVars(e) + FreeVars(guard))
            && AddedOver(i.s0, i.s3, ExprVars(e) + FreeVars(guard))
            && FreeVars(i.c) <= ExprVars(e) + i.s1.vars
            && IteFreeExpr(i.t) && ExprVars(i.t) <= ExprVars(e) + i.s2.vars
            && IteFreeExpr(i.u) && ExprVars(i.u) <= ExprVars(e) + i.s3.vars
    decreases e, 0
  {
    var vs := ExprVars(e) + FreeVars(guard);
    var i := ElimIte(e, guard, s);
    IteConditionShape(e, guard, s);
    ExprShape(e.thn, i.thenGuard, i.s1);
    ExprShape(e.els, i.elseGuard, i.s2);
    MoreVars(i.s1, i.s2, ExprVars(e.thn) + FreeVars(i.thenGuard), vs);
    MoreVars(i.s2, i.s3, ExprVars(e.els) + FreeVars(i.elseGuard), vs);
    AddedSplits(i.s0, i.s1, i.s2, vs);
    AddedSplits(i.s0, i.s2, i.s3, vs);
  }

  ghost predicate GuardShape(i: IteParts, vs: set<nat>) {
    && IteFree(i.thenGuard) && FreeVars(i.thenGuard) <= vs + i.s1.vars
    && IteFree(i.elseGuard) && FreeVars(i.elseGuard) <= vs + i.s1.vars
  }

  lemma {:induction false} IteConditionShape(e: Expr, guard: Formula, s: Elim)
    requires IteFree(guard) && e.Ite?
    ensures var i := ElimIte(e, guard, s);
            && GuardShape(i, ExprVars(e) + FreeVars(guard)) && FreeVars(i.c) <= ExprVars(e) + i.s1.vars
            && FreshVars(i.s0, i.s1) && AddedOver(i.s0, i.s1, ExprVars(e) + FreeVars(guard))
    decreases e.cond, 1
  {
    var vs := ExprVars(e) + FreeVars(guard);
    var i := ElimIte(e, guard, s);
    FormShape(e.cond, guard, i.s0);
    MkNotShape(i.c);
    PairShape(guard, i.c, vs + i.s1.vars);
    PairShape(guard, MkNot(i.c), vs + i.s1.vars);
    MoreVars(i.s0, i.s1, FreeVars(e.cond) + FreeVars(guard), vs);
  }

  lemma MkNotShape(f: Formula)
    requires IteFree(f)
    ensures IteFree(MkNot(f)) && FreeVars(MkNot(f)) <= FreeVars(f)
  {
  }

  lemma PairShape(f: Formula, g: Formula, vs: set<nat>)
    requires IteFree(f) && IteFree(g) && FreeVars(f) <= vs && FreeVars(g) <= vs
    ensures IteFree(MkAnd([f, g])) && FreeVars(MkAnd([f, g])) <= vs
    ensures IteFree(MkOr([f, g])) && FreeVars(MkOr([f, g])) <= vs
  {
    OperandVars([f, g], vs);
    ConjunctsFragment([f, g]);
  }

  lemma ConstraintsShape(i: IteParts, vs: set<nat>)
    requires IteFree(i.thenGuard) && IteFree(i.elseGuard) && IteFreeExpr(i.t) && IteFreeExpr(i.u)
    requires i.v in vs && FreeVars(i.thenGuard) <= vs && FreeVars(i.elseGuard) <= vs && ExprVars(i.t) <= vs &&
             ExprVars(i.u) <= vs
    ensures forall g | g in Constraints(i) :: IteFree(g) && FreeVars(g) <= vs
  {
    MkNotShape(i.thenGuard);
    MkNotShape(i.elseGuard);
    PairShape(MkNot(i.thenGuard), Rel(EQ, Var(i.v), i.t), vs);
    PairShape(MkNot(i.elseGuard), Rel(EQ, Var(i.v), i.u), vs);
  }

  lemma {:induction false} FormShape(f: Formula, guard: Formula, s: Elim)
    requires IteFree(guard)
    ensures var (f', s') := ElimForm(f, guard, s);
            && IteFree(f') && FreeVars(f') <= FreeVars(f) + s'.vars
            && FreshVars(s, s') && AddedOver(s, s', FreeVars(f) + FreeVars(guard))
    decreases f, 0
  {
    match f
    case Rel(_, a, b) =>
      var s1 := ElimExpr(a, guard, s).1;
      var s2 := ElimExpr(b, guard, s1).1;
      var vs := FreeVars(f) + FreeVars(guard);
      ExprShape(a, guard, s);
      ExprShape(b, guard, s1);
      MoreVars(s, s1, ExprVars(a) + FreeVars(guard), vs);
      MoreVars(s1, s2, ExprVars(b) + FreeVars(guard), vs);
      AddedSplits(s, s1, s2, vs);
    case Not(g) => FormShape(g, guard, s);
    case And(fs) => FormsShape(fs, guard, s, FreeVars(f));
    case Or(fs) => FormsShape(fs, guard, s, FreeVars(f));
    case Forall(vars, g) => ForallShape(vars, g, s);
    case _ =>
  }

  lemma {:induction false} FormsShape(fs: seq<Formula>, guard: Formula, s: Elim, vs: set<nat>)
    requires IteFree(guard) && forall i | 0 <= i < |fs| :: FreeVars(fs[i]) <= vs
    ensures var (gs, s') := ElimForms(fs, guard, s);
            && IteFree(MkAnd(gs)) && IteFree(MkOr(gs))
            && FreeVars(MkAnd(gs)) <= vs + s'.vars && FreeVars(MkOr(gs)) <= vs + s'.vars
            && FreshVars(s, s') && AddedOver(s, s', vs + FreeVars(guard))
    decreases fs, 1
  {
    var (gs, s') := ElimForms(fs, guard, s);
    FormsMembers(fs, guard, s, vs);
    OperandVars(gs, vs + s'.vars);
    ConjunctsFragment(gs);
  }

  lemma {:induction false} FormsMembers(fs: seq<Formula>, guard: Formula, s: Elim, vs: set<nat>)
    requires IteFree(guard) && forall i | 0 <= i < |fs| :: FreeVars(fs[i]) <= vs
    ensures var (gs, s') := ElimForms(fs, guard, s);
            && (forall i | 0 <= i < |gs| :: IteFree(gs[i]) && FreeVars(gs[i]) <= vs + s'.vars)
            && FreshVars(s, s') && AddedOver(s, s', vs + FreeVars(guard))
    decreases fs, 0
  {
    if fs == [] {
    } else {
      var (g, s1) := ElimForm(fs[0], guard, s);
      var (gs, s2) := ElimForms(fs[1..], guard, s1);
      assert FreeVars(fs[0]) <= vs;
      FormShape(fs[0], guard, s);
      FormsMembers(fs[1..], guard, s1, vs);
      MoreVars(s, s1, FreeVars(fs[0]) + FreeVars(guard), vs + FreeVars(guard));
      AddedSplits(s, s1, s2, vs + FreeVars(guard));
    }
  }

  lemma {:induction false} ForallShape(vars: set<nat>, g: Formula, s: Elim)
    ensures var (f', s') := ElimForm(Forall(vars, g), True, s);
            IteFree(f') && FreeVars(f') <= FreeVars(g) - vars
    decreases g, 2
  {
    var (g', s1) := ElimNegation(g, Elim(s.next, [], {}));
    var finished := Finish(MkNot(g), g', s1.added);
    NegationShape(g, Elim(s.next, [], {}));
    FinishShape(MkNot(g), g', s1.added, FreeVars(g) + s1.vars);
    MkNotShape(finished);
    NnfVars(MkNot(finished), true, false);
    NnfIteFree(MkNot(finished), true, false);
    MkForallMeaning(vars + s1.vars, Convert(MkNot(finished), false), (v: nat) => 0.0);
  }

  lemma {:induction false} NegationShape(g: Formula, s: Elim)
    requires s.added == [] && s.vars == {}
    ensures var (g', s') := ElimNegation(g, s);
            && IteFree(g') && FreeVars(g') <= FreeVars(g) + s'.vars
            && FreshVars(s, s') && forall h | h in s'.added :: IteFree(h) && FreeVars(h) <= FreeVars(g) + s'.vars
    decreases g, 1
  {
    var s' := ElimNegation(g, s).1;
    assert New(s, s') == s'.added;
    match g
    case True =>
    case False =>
    case Not(h) => FormShape(h, True, s);
    case _ => FormShape(g, True, s); MkNotShape(ElimForm(g, True, s).0);
  }

  lemma FinishShape(f: Formula, f': Formula, added: seq<Formula>, vs: set<nat>)
    requires IteFree(f') && FreeVars(f') <= vs && forall h | h in added :: IteFree(h) && FreeVars(h) <= vs
    ensures IteFree(Finish(f, f', added)) && FreeVars(Finish(f, f', added)) <= vs
  {
    OperandVars(added, vs);
    ConjunctsFragment(added);
    PairShape(f', MkAnd(added), vs);
  }

  /** Negation normal form introduces no ITE. */
  lemma {:induction false} NnfIteFree(f: Formula, polarity: bool, push: bool)
    requires IteFree(f)
    ensures IteFree(ToNnf(f, polarity, push))
  {
    match f
    case Not(g) => NnfIteFree(g, !polarity, push);
    case And(fs) =>
      forall i | 0 <= i < |fs| ensures IteFree(Operands(fs, polarity, push)[i]) { NnfIteFree(fs[i], polarity, push); }
      ConjunctsFragment(Operands(fs, polarity, push));
    case Or(fs) =>
      forall i | 0 <= i < |fs| ensures IteFree(Operands(fs, polarity, push)[i]) { NnfIteFree(fs[i], polarity, push); }
      ConjunctsFragment(Operands(fs, polarity, push));
    case _ =>
  }

  // ------------------------------------------------------------- soundness

  lemma {:induction false} BoundOfMember(fs: seq<Formula>, i: nat)
    requires i < |fs|
    ensures FormBound(fs[i]) <= BoundOf(fs)
  {
    if i == 0 {
    } else {
      BoundOfMember(fs[1..], i - 1);
    }
  }

  /** Where the guard and the added formulas hold, the rewritten expression has
      the value of the original. */
  lemma {:induction false} ExprSound(e: Expr, guard: Formula, s: Elim, p: Point)
    requires ExprBound(e) <= s.next
    requires Holds(guard, p) && AllTrue(New(s, ElimExpr(e, guard, s).1), p)
    ensures Eval(ElimExpr(e, guard, s).0, p) == Eval(e, p)
    decreases e, 1
  {
    if !IteFreeExpr(e) {
      match e
      case Const(_) =>
      case Var(_) =>
      case Pow(a, _) => ExprSound(a, guard, s, p);
      case Abs(a) => ExprSound(a, guard, s, p);
      case Ite(_, _, _) => IteSound(e, guard, s, p);
      case _ =>
        var s1 := ElimExpr(e.a, guard, s).1;
        NewSplits(s, s1, ElimExpr(e.b, guard, s1).1, p);
        ExprSound(e.a, guard, s, p);
        ExprSound(e.b, guard, s1, p);
        RebuildMeaning(e, ElimExpr(e.a, guard, s).0, ElimExpr(e.b, guard, s1).0, p, p);
    }
  }

  lemma RebuildMeaning(e: Expr, a: Expr, b: Expr, p: Point, q: Point)
    requires (e.Add? || e.Mul? || e.Min? || e.Max?) && Eval(a, q) == Eval(e.a, p) && Eval(b, q) == Eval(e.b, p)
    ensures Eval(Rebuild(e, a, b), q) == Eval(e, p)
  {
    match e
    case Add(_, _) =>
    case Mul(_, _) =>
      assert Eval(Rebuild(e, a, b), q) == Eval(a, q) * Eval(b, q);
    case Min(_, _) =>
    case Max(_, _) =>
  }

  lemma {:induction false} IteSound(e: Expr, guard: Formula, s: Elim, p: Point)
    requires ExprBound(e) <= s.next && e.Ite?
    requires Holds(guard, p) && AllTrue(New(s, ElimExpr(e, guard, s).1), p)
    ensures p(s.next) == Eval(e, p)
    decreases e, 0
  {
    var i := ElimIte(e, guard, s);
    IteNew(e, guard, s, p);
    ConstraintsMeaning(i, p);
    GuardsMeaning(e, guard, s, p);
    FormSound(e.cond, guard, i.s0, p);
    if Holds(e.cond, p) {
      ExprSound(e.thn, i.thenGuard, i.s1, p);
    } else {
      ExprSound(e.els, i.elseGuard, i.s2, p);
    }
  }

  lemma {:induction false} FormSound(f: Formula, guard: Formula, s: Elim, p: Point)
    requires FormBound(f) <= s.next
    requires Holds(guard, p) && AllTrue(New(s, ElimForm(f, guard, s).1), p)
    ensures Holds(ElimForm(f, guard, s).0, p) <==> Holds(f, p)
    decreases f, 0
  {
    match f
    case Rel(_, a, b) =>
      var s1 := ElimExpr(a, guard, s).1;
      NewSplits(s, s1, ElimExpr(b, guard, s1).1, p);
      ExprSound(a, guard, s, p);
      ExprSound(b, guard, s1, p);
    case Not(g) =>
      FormSound(g, guard, s, p);
      MkNotMeaning(ElimForm(g, guard, s).0, p);
    case And(fs) =>
      FormsSound(fs, guard, s, p);
      MkAndMeaning(ElimForms(fs, guard, s).0, p);
    case Or(fs) =>
      FormsSound(fs, guard, s, p);
      MkOrMeaning(ElimForms(fs, guard, s).0, p);
    case Forall(vars, g) => ForallEquivalent(vars, g, guard, s, p);
    case _ =>
  }

  lemma {:induction false} FormsSound(fs: seq<Formula>, guard: Formula, s: Elim, p: Point)
    requires BoundOf(fs) <= s.next
    requires Holds(guard, p) && AllTrue(New(s, ElimForms(fs, guard, s).1), p)
    ensures forall i | 0 <= i < |fs| :: Holds(ElimForms(fs, guard, s).0[i], p) <==> Holds(fs[i], p)
    decreases fs, 0
  {
    if fs == [] {
    } else {
      var s1 := ElimForm(fs[0], guard, s).1;
      NewSplits(s, s1, ElimForms(fs[1..], guard, s1).1, p);
      FormSound(fs[0], guard, s, p);
      FormsSound(fs[1..], guard, s1, p);
    }
  }

  // -------------------------------------------------------------- extension

  ghost predicate AgreeBelow(p: Point, q: Point, n: nat) {
    forall v: nat | v < n :: p(v) == q(v)
  }

  /** The eliminator may go on: the guard and what was introduced so far lie
      below the next fresh variable. */
  ghost predicate Ready(s: Elim, guard: Formula) {
    IteFree(guard) && Below(FreeVars(guard), s.next) && Below(s.vars, s.next)
  }

  /** `q` is `p` with values for the variables introduced between two states that
      make the added formulas true. */
  ghost predicate Extended(s: Elim, s': Elim, p: Point, q: Point)
    requires s.added <= s'.added
  {
    AgreeOff(p, q, s'.vars - s.vars) && AllTrue(New(s, s'), q)
  }

  /** Extending further leaves alone what is below the next fresh variable. */
  lemma ExtendedBelow(s: Elim, s': Elim, p: Point, q: Point)
    requires Grows(s, s') && FreshVars(s, s') && Extended(s, s', p, q)
    ensures AgreeBelow(p, q, s.next)
  {
    forall v: nat | v < s.next ensures p(v) == q(v) { assert v !in s'.vars - s.vars; }
  }

  lemma Compose(s: Elim, s1: Elim, s2: Elim, vs: set<nat>, p: Point, q1: Point, q2: Point)
    requires Grows(s, s1) && Grows(s1, s2) && FreshVars(s, s1) && FreshVars(s1, s2)
    requires AddedOver(s, s1, vs) && Below(vs, s1.next) && Below(s1.vars, s1.next)
    requires Extended(s, s1, p, q1) && Extended(s1, s2, q1, q2)
    ensures Extended(s, s2, p, q2) && AgreeBelow(q1, q2, s1.next)
  {
    ExtendedBelow(s1, s2, q1, q2);
    var new1 := New(s, s1);
    forall i | 0 <= i < |new1| ensures Holds(new1[i], q2) {
      assert new1[i] in new1 && Holds(new1[i], q1);
      HoldsCoincides(new1[i], q1, q2);
    }
    NewSplits(s, s1, s2, q2);
    forall v: nat | v !in s2.vars - s.vars ensures p(v) == q2(v) {
      assert v !in s1.vars - s.vars && v !in s2.vars - s1.vars;
    }
  }

  lemma ReadyAfter(s: Elim, s': Elim, guard: Formula)
    requires Ready(s, guard) && Grows(s, s') && FreshVars(s, s')
    ensures Ready(s', guard)
  {
  }

  lemma EvalBelow(e: Expr, n: nat, p: Point, q: Point)
    requires Below(ExprVars(e), n) && AgreeBelow(p, q, n)
    ensures Eval(e, p) == Eval(e, q)
  {
    EvalCoincides(e, p, q);
  }

  lemma HoldsBelow(f: Formula, n: nat, p: Point, q: Point)
    requires Below(FreeVars(f), n) && AgreeBelow(p, q, n)
    ensures Holds(f, p) <==> Holds(f, q)
  {
    HoldsCoincides(f, p, q);
  }

  /** Every point extends to the fresh variables so that all added formulas hold,
      under whatever guards, and the rewritten expression has its value. */
  lemma {:induction false} ExprExtends(e: Expr, guard: Formula, s: Elim, p: Point) returns (q: Point)
    requires ExprBound(e) <= s.next && Ready(s, guard)
    ensures var (e', s') := ElimExpr(e, guard, s); Extended(s, s', p, q) && Eval(e', q) == Eval(e, p)
    decreases e, 1
  {
    q := p;
    if !IteFreeExpr(e) {
      match e
      case Const(_) =>
      case Var(_) =>
      case Pow(a, _) => q := ExprExtends(a, guard, s, p);
      case Abs(a) => q := ExprExtends(a, guard, s, p);
      case Ite(_, _, _) => q := IteExtends(e, guard, s, p);
      case _ =>
        var s1 := ElimExpr(e.a, guard, s).1;
        ExprShape(e.a, guard, s);
        ReadyAfter(s, s1, guard);
        var q1 := ExprExtends(e.a, guard, s, p);
        q := ExprExtends(e.b, guard, s1, q1);
        PairCompose(e.a, e.b, guard, s, p, q1, q);
        RebuildMeaning(e, ElimExpr(e.a, guard, s).0, ElimExpr(e.b, guard, s1).0, p, q);
    }
  }

  lemma PairCompose(a: Expr, b: Expr, guard: Formula, s: Elim, p: Point, q1: Point, q: Point)
    requires ExprBound(a) <= s.next && ExprBound(b) <= s.next && Ready(s, guard)
    requires var (a', s1) := ElimExpr(a, guard, s);
             var (b', s2) := ElimExpr(b, guard, s1);
             && Extended(s, s1, p, q1) && Eval(a', q1) == Eval(a, p)
             && Extended(s1, s2, q1, q) && Eval(b', q) == Eval(b, q1)
    ensures var (a', s1) := ElimExpr(a, guard, s);
            var (b', s2) := ElimExpr(b, guard, s1);
            Extended(s, s2, p, q) && Eval(a', q) == Eval(a, p) && Eval(b', q) == Eval(b, p)
  {
    var (a', s1) := ElimExpr(a, guard, s);
    var s2 := ElimExpr(b, guard, s1).1;
    ExprShape(a, guard, s);
    ExprShape(b, guard, s1);
    ExprVarsBounded(a);
    ExprVarsBounded(b);
    Compose(s, s1, s2, ExprVars(a) + FreeVars(guard), p, q1, q);
    ExtendedBelow(s, s1, p, q1);
    EvalBelow(a', s1.next, q1, q);
    EvalBelow(b, s.next, p, q1);
  }

  function At(p: Point, v: nat, x: real): Point {
    (u: nat) => if u == v then x else p(u)
  }

  lemma {:induction false} IteExtends(e: Expr, guard: Formula, s: Elim, p: Point) returns (q: Point)
    requires ExprBound(e) <= s.next && Ready(s, guard) && e.Ite?
    ensures var (e', s') := ElimExpr(e, guard, s); Extended(s, s', p, q) && Eval(e', q) == Eval(e, p)
    decreases e, 0
  {
    var i := ElimIte(e, guard, s);
    IteReady(e, guard, s);
    // The fresh variable gets the value of the term.
    var p0 := At(p, i.v, Eval(e, p));
    var q1 := FormExtends(e.cond, guard, i.s0, p0);
    var q2 := ExprExtends(e.thn, i.thenGuard, i.s1, q1);
    q := ExprExtends(e.els, i.elseGuard, i.s2, q2);
    IteCompose(e, guard, s, p, q1, q2, q);
  }

  lemma IteReady(e: Expr, guard: Formula, s: Elim)
    requires ExprBound(e) <= s.next && Ready(s, guard) && e.Ite?
    ensures var i := ElimIte(e, guard, s); Ready(i.s0, guard) && Ready(i.s1, i.thenGuard) && Ready(i.s2, i.elseGuard)
  {
    IteBranchShape(e, guard, s);
    ExprVarsBounded(e);
  }

  lemma IteCompose(e: Expr, guard: Formula, s: Elim, p: Point, q1: Point, q2: Point, q: Point)
    requires ExprBound(e) <= s.next && Ready(s, guard) && e.Ite?
    requires var i := ElimIte(e, guard, s);
             var p0 := At(p, i.v, Eval(e, p));
             && Extended(i.s0, i.s1, p0, q1) && (Holds(i.c, q1) <==> Holds(e.cond, p0))
             && Extended(i.s1, i.s2, q1, q2) && Eval(i.t, q2) == Eval(e.thn, q1)
             && Extended(i.s2, i.s3, q2, q) && Eval(i.u, q) == Eval(e.els, q2)
    ensures Extended(s, ElimExpr(e, guard, s).1, p, q) && q(s.next) == Eval(e, p)
  {
    var i := ElimIte(e, guard, s);
    var p0 := At(p, i.v, Eval(e, p));
    var vs := ExprVars(e) + FreeVars(guard);
    IteBranchShape(e, guard, s);
    IteReady(e, guard, s);
    ExprVarsBounded(e);
    ExtendedBelow(i.s0, i.s1, p0, q1);
    ExtendedBelow(i.s1, i.s2, q1, q2);
    ExtendedBelow(i.s2, i.s3, q2, q);
    Compose(i.s0, i.s1, i.s2, vs, p0, q1, q2);
    Compose(i.s0, i.s2, i.s3, vs, p0, q2, q);
    IteValues(e, guard, s, p, q1, q2, q);
    GuardsMeaning(e, guard, s, q);
    ConstraintsMeaning(i, q);
    NewSplits(i.s0, i.s2, i.s3, q);
    NewSplits(i.s0, i.s1, i.s2, q);
    IteNew(e, guard, s, q);
  }

  /** The parts of an if-then-else have their original values at the final point. */
  lemma IteValues(e: Expr, guard: Formula, s: Elim, p: Point, q1: Point, q2: Point, q: Point)
    requires ExprBound(e) <= s.next && Ready(s, guard) && e.Ite?
    requires var i := ElimIte(e, guard, s);
             var p0 := At(p, i.v, Eval(e, p));
             && AgreeBelow(p0, q1, i.s0.next) && AgreeBelow(q1, q2, i.s1.next) && AgreeBelow(q2, q, i.s2.next)
             && (Holds(i.c, q1) <==> Holds(e.cond, p0))
             && Eval(i.t, q2) == Eval(e.thn, q1) && Eval(i.u, q) == Eval(e.els, q2)
    ensures var i := ElimIte(e, guard, s);
            && (Holds(i.c, q) <==> Holds(e.cond, p)) && Eval(i.t, q) == Eval(e.thn, p) && Eval(i.u, q) == Eval(e.els, p)
            && q(i.v) == Eval(e, p)
  {
    var i := ElimIte(e, guard, s);
    var p0 := At(p, i.v, Eval(e, p));
    IteBranchShape(e, guard, s);
    IteReady(e, guard, s);
    ExprVarsBounded(e);
    assert AgreeBelow(q1, q, i.s1.next);
    assert AgreeBelow(p, p0, s.next) && AgreeBelow(p, q1, s.next) && AgreeBelow(p, q2, s.next);
    HoldsBelow(e.cond, s.next, p, p0);
    HoldsBelow(i.c, i.s1.next, q1, q);
    EvalBelow(e.thn, s.next, p, q1);
    EvalBelow(i.t, i.s2.next, q2, q);
    EvalBelow(e.els, s.next, p, q2);
  }

  lemma {:induction false} FormExtends(f: Formula, guard: Formula, s: Elim, p: Point) returns (q: Point)
    requires FormBound(f) <= s.next && Ready(s, guard)
    ensures var (f', s') := ElimForm(f, guard, s); Extended(s, s', p, q) && (Holds(f', q) <==> Holds(f, p))
    decreases f, 0
  {
    q := p;
    match f
    case Rel(_, a, b) =>
      var s1 := ElimExpr(a, guard, s).1;
      ExprShape(a, guard, s);
      ReadyAfter(s, s1, guard);
      var q1 := ExprExtends(a, guard, s, p);
      q := ExprExtends(b, guard, s1, q1);
      PairCompose(a, b, guard, s, p, q1, q);
    case Not(g) =>
      q := FormExtends(g, guard, s, p);
      MkNotMeaning(ElimForm(g, guard, s).0, q);
    case And(fs) =>
      q := FormsExtend(fs, guard, s, p);
      MkAndMeaning(ElimForms(fs, guard, s).0, q);
    case Or(fs) =>
      q := FormsExtend(fs, guard, s, p);
      MkOrMeaning(ElimForms(fs, guard, s).0, q);
    case Forall(vars, g) => ForallEquivalent(vars, g, guard, s, p);
    case _ =>
  }

  lemma {:induction false} FormsExtend(fs: seq<Formula>, guard: Formula, s: Elim, p: Point) returns (q: Point)
    requires BoundOf(fs) <= s.next && Ready(s, guard)
    ensures var (gs, s') := ElimForms(fs, guard, s);
            Extended(s, s', p, q) && forall i | 0 <= i < |fs| :: Holds(gs[i], q) <==> Holds(fs[i], p)
    decreases fs, 0
  {
    q := p;
    if fs != [] {
      var s1 := ElimForm(fs[0], guard, s).1;
      FormShape(fs[0], guard, s);
      ReadyAfter(s, s1, guard);
      var q1 := FormExtends(fs[0], guard, s, p);
      q := FormsExtend(fs[1..], guard, s1, q1);
      ListCompose(fs, guard, s, p, q1, q);
    }
  }

  lemma ListCompose(fs: seq<Formula>, guard: Formula, s: Elim, p: Point, q1: Point, q: Point)
    requires fs != [] && BoundOf(fs) <= s.next && Ready(s, guard)
    requires var (g, s1) := ElimForm(fs[0], guard, s);
             var (gs, s2) := ElimForms(fs[1..], guard, s1);
             && Extended(s, s1, p, q1) && (Holds(g, q1) <==> Holds(fs[0], p))
             && Extended(s1, s2, q1, q) && forall i | 0 <= i < |gs| :: Holds(gs[i], q) <==> Holds(fs[1..][i], q1)
    ensures var (gs, s') := ElimForms(fs, guard, s);
            Extended(s, s', p, q) && forall i | 0 <= i < |fs| :: Holds(gs[i], q) <==> Holds(fs[i], p)
  {
    var (g, s1) := ElimForm(fs[0], guard, s);
    var (gs, s2) := ElimForms(fs[1..], guard, s1);
    TailFresh(fs[1..], guard, s1);
    HeadCompose(fs[0], guard, s, s2, p, q1, q);
    TailUndisturbed(fs, s.next, p, q1);
    forall i | 0 <= i < |fs| ensures Holds(([g] + gs)[i], q) <==> Holds(fs[i], p) {
      if i > 0 { assert Holds(fs[1..][i - 1], q1) <==> Holds(fs[(i - 1) + 1], p); }
    }
  }

  lemma HeadCompose(f: Formula, guard: Formula, s: Elim, s2: Elim, p: Point, q1: Point, q: Point)
    requires FormBound(f) <= s.next && Ready(s, guard)
    requires var (g, s1) := ElimForm(f, guard, s);
             && Grows(s1, s2) && FreshVars(s1, s2)
             && Extended(s, s1, p, q1) && (Holds(g, q1) <==> Holds(f, p)) && Extended(s1, s2, q1, q)
    ensures Extended(s, s2, p, q) && (Holds(ElimForm(f, guard, s).0, q) <==> Holds(f, p)) && AgreeBelow(p, q1, s.next)
  {
    var (g, s1) := ElimForm(f, guard, s);
    FormShape(f, guard, s);
    FreeVarsBounded(f);
    Compose(s, s1, s2, FreeVars(f) + FreeVars(guard), p, q1, q);
    ExtendedBelow(s, s1, p, q1);
    HoldsBelow(g, s1.next, q1, q);
  }

  lemma TailFresh(fs: seq<Formula>, guard: Formula, s: Elim)
    requires IteFree(guard)
    ensures FreshVars(s, ElimForms(fs, guard, s).1)
  {
    var vs := set i, v | 0 <= i < |fs| && v in FreeVars(fs[i]) :: v;
    FormsMembers(fs, guard, s, vs);
  }

  lemma TailUndisturbed(fs: seq<Formula>, n: nat, p: Point, q: Point)
    requires fs != [] && BoundOf(fs) <= n && AgreeBelow(p, q, n)
    ensures forall i | 0 <= i < |fs| - 1 :: Holds(fs[1..][i], q) <==> Holds(fs[i + 1], p)
  {
    AllVarsBounded(fs);
    forall i | 0 <= i < |fs| - 1 ensures Holds(fs[1..][i], q) <==> Holds(fs[i + 1], p) {
      assert fs[1..][i] == fs[i + 1];
      HoldsBelow(fs[i + 1], n, p, q);
    }
  }

  // ----------------------------------------------------------------- forall

  /** The finished negation implies the negation. */
  lemma {:induction false} NegationSound(g: Formula, n: nat, p: Point)
    requires FormBound(g) <= n
    ensures var (g', s') := ElimNegation(g, Elim(n, [], {}));
            Holds(Finish(MkNot(g), g', s'.added), p) ==> !Holds(g, p)
    decreases g, 1
  {
    var s := Elim(n, [], {});
    var (g', s') := ElimNegation(g, s);
    FinishMeaning(MkNot(g), g', s'.added, p);
    if AllTrue(s'.added, p) {
      assert New(s, s') == s'.added;
      match g
      case True =>
      case False =>
      case Not(h) => FormSound(h, True, s, p);
      case _ => FormSound(g, True, s, p); MkNotMeaning(ElimForm(g, True, s).0, p);
    }
  }

  /** Where the negation holds, values of the fresh variables make the finished
      negation hold. */
  lemma {:induction false} NegationExtends(g: Formula, n: nat, p: Point) returns (q: Point)
    requires FormBound(g) <= n && !Holds(g, p)
    ensures var (g', s') := ElimNegation(g, Elim(n, [], {}));
            AgreeOff(p, q, s'.vars) && Holds(Finish(MkNot(g), g', s'.added), q)
    decreases g, 1
  {
    var s := Elim(n, [], {});
    var (g', s') := ElimNegation(g, s);
    q := p;
    match g {
      case True =>
      case False =>
      case Not(h) => q := FormExtends(h, True, s, p);
      case _ => q := FormExtends(g, True, s, p); MkNotMeaning(ElimForm(g, True, s).0, q);
    }
    assert New(s, s') == s'.added && s'.vars - s.vars == s'.vars;
    FinishMeaning(MkNot(g), g', s'.added, q);
  }

  /** Under forall the result is equivalent: after the double negation the fresh
      variables are universal. */
  lemma {:induction false} ForallEquivalent(vars: set<nat>, g: Formula, guard: Formula, s: Elim, p: Point)
    requires FormBound(g) <= s.next
    ensures Holds(ElimForm(Forall(vars, g), guard, s).0, p) <==> Holds(Forall(vars, g), p)
    decreases g, 2
  {
    var n := s.next;
    var (g', s') := ElimNegation(g, Elim(n, [], {}));
    var finished := Finish(MkNot(g), g', s'.added);
    var body := Convert(MkNot(finished), false);
    assert ElimForm(Forall(vars, g), guard, s).0 == MkForall(vars + s'.vars, body);
    MkForallMeaning(vars + s'.vars, body, p);
    forall q: Point ensures Holds(body, q) <==> !Holds(finished, q) {
      NnfMeaning(MkNot(finished), true, false, q);
      MkNotMeaning(finished, q);
    }
    NegationShape(g, Elim(n, [], {}));
    FreeVarsBounded(g);
    if Holds(Forall(vars, g), p) {
      forall q: Point | AgreeOff(p, q, vars + s'.vars) ensures Holds(body, q) {
        var q' := Patch(q, p, s'.vars);
        assert AgreeOff(p, q', vars);
        HoldsCoincides(g, q, q');
        NegationSound(g, n, q);
      }
    } else {
      var q: Point :| AgreeOff(p, q, vars) && !Holds(g, q);
      var q' := NegationExtends(g, n, q);
      assert AgreeOff(p, q', vars + s'.vars);
      assert !Holds(body, q');
    }
  }

  // ------------------------------------------------------------ main results

  /** Every model of the output satisfies the input. */
  lemma ProcessSound(f: Formula, next: nat, p: Point)
    requires FormBound(f) <= next && Holds(ProcessFrom(f, next).0, p)
    ensures Holds(f, p)
  {
    var s := Elim(next, [], {});
    var (f', s') := ElimForm(f, True, s);
    FinishMeaning(f, f', s'.added, p);
    assert New(s, s') == s'.added;
    FormSound(f, True, s, p);
  }

  /** Every model of the input extends to the reported variables, and to no
      others, to a model of the output. */
  lemma ProcessComplete(f: Formula, next: nat, p: Point) returns (q: Point)
    requires FormBound(f) <= next && Holds(f, p)
    ensures AgreeOff(p, q, ProcessFrom(f, next).1.vars) && Holds(ProcessFrom(f, next).0, q)
  {
    var s := Elim(next, [], {});
    var (f', s') := ElimForm(f, True, s);
    q := FormExtends(f, True, s, p);
    assert New(s, s') == s'.added && s'.vars - s.vars == s'.vars;
    FinishMeaning(f, f', s'.added, q);
  }

  /** The output has no ITE, and its new variables are fresh and reported. */
  lemma ProcessShape(f: Formula, next: nat)
    requires FormBound(f) <= next
    ensures var (r, s) := ProcessFrom(f, next);
            && IteFree(r) && FreeVars(r) <= FreeVars(f) + s.vars
            && forall v | v in s.vars :: next <= v < s.next && v !in FreeVars(f)
  {
    var s := Elim(next, [], {});
    var (f', s') := ElimForm(f, True, s);
    FormShape(f, True, s);
    assert New(s, s') == s'.added;
    FinishShape(f, f', s'.added, FreeVars(f) + s'.vars);
    FreeVarsBounded(f);
  }
}
