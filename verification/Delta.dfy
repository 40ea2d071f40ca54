/** Delta-strengthening and weakening of formulas (symbolic/symbolic.cc). */
module Delta {
  import opened Symbolic
  import opened Nnf

  /** Formulas that can be strengthened. */
  predicate IsPlain(f: Formula) {
    IteFree(f) && QuantifierFree(f)
  }

  predicate AllPlain(fs: seq<Formula>) {
    forall i | 0 <= i < |fs| :: IsPlain(fs[i])
  }

  /** `DeltaStrengthenVisitor::Visit`; a negative `d` weakens. The atoms keep the
      form `variable op constant` when one side is a variable. */
  function Shift(f: Formula, d: real): Formula
    requires IsPlain(f)
    decreases f
  {
    match f
    case True => f
    case False => f
    case BoolVar(_) => f
    case Rel(EQ, l, r) =>
      if d > 0.0 then f else MkAnd([ShiftGeq(l, r, d), ShiftLeq(l, r, d)])
    case Rel(NEQ, l, r) =>
      if d > 0.0 then MkOr([ShiftGt(l, r, d), ShiftLt(l, r, d)]) else True
    case Rel(GT, l, r) => ShiftGt(l, r, d)
    case Rel(GEQ, l, r) => ShiftGeq(l, r, d)
    case Rel(LT, l, r) => ShiftLt(l, r, d)
    case Rel(LEQ, l, r) => ShiftLeq(l, r, d)
    case Not(g) => MkNot(Shift(g, -d))
    case And(fs) => MkAnd(ShiftAll(fs, d))
    case Or(fs) => MkOr(ShiftAll(fs, d))
  }

  function ShiftAll(fs: seq<Formula>, d: real): seq<Formula>
    requires AllPlain(fs)
    decreases fs
  {
    seq(|fs|, i requires 0 <= i < |fs| => Shift(fs[i], d))
  }

  function ShiftGt(l: Expr, r: Expr, d: real): Formula {
    if r.Var? then Rel(GT, Sub(l, Const(d)), r) else Rel(GT, l, Add(r, Const(d)))
  }

  function ShiftGeq(l: Expr, r: Expr, d: real): Formula {
    if r.Var? then Rel(GEQ, Sub(l, Const(d)), r) else Rel(GEQ, l, Add(r, Const(d)))
  }

  function ShiftLt(l: Expr, r: Expr, d: real): Formula {
    if l.Var? then Rel(LT, l, Sub(r, Const(d))) else Rel(LT, Add(l, Const(d)), r)
  }

  function ShiftLeq(l: Expr, r: Expr, d: real): Formula {
    if l.Var? then Rel(LEQ, l, Sub(r, Const(d))) else Rel(LEQ, Add(l, Const(d)), r)
  }

  /** `DeltaStrengthenVisitor::Strengthen`, which returns `f` itself at zero. */
  function StrengthenBy(f: Formula, d: real): Formula
    requires IsPlain(f)
  {
    if d == 0.0 then f else Shift(f, d)
  }

  function DeltaStrengthen(f: Formula, d: real): Formula
    requires IsPlain(f) && d > 0.0
  {
    StrengthenBy(f, d)
  }

  function DeltaWeaken(f: Formula, d: real): Formula
    requires IsPlain(f) && d > 0.0
  {
    StrengthenBy(f, -d)
  }

  /** The meaning of a shifted atom, in terms of the difference of its sides:
      each bound moves by `d`, an equality is left alone when strengthened, and
      a weakened disequality holds everywhere. */
  ghost predicate RelShifted(op: RelOp, x: real, d: real) {
    match op
    case EQ => if d > 0.0 then x == 0.0 else d <= x <= -d
    case NEQ => d <= 0.0 || x > d || x < -d
    case GT => x > d
    case GEQ => x >= d
    case LT => x < -d
    case LEQ => x <= -d
  }

  lemma ShiftAtomMeaning(l: Expr, r: Expr, d: real, p: Point)
    ensures Holds(ShiftGt(l, r, d), p) <==> Eval(l, p) - Eval(r, p) > d
    ensures Holds(ShiftGeq(l, r, d), p) <==> Eval(l, p) - Eval(r, p) >= d
    ensures Holds(ShiftLt(l, r, d), p) <==> Eval(l, p) - Eval(r, p) < -d
    ensures Holds(ShiftLeq(l, r, d), p) <==> Eval(l, p) - Eval(r, p) <= -d
  {
    SubMeaning(l, Const(d), p);
    SubMeaning(r, Const(d), p);
    assert Eval(Add(r, Const(d)), p) == Eval(r, p) + d;
    assert Eval(Add(l, Const(d)), p) == Eval(l, p) + d;
  }

  lemma ShiftRelMeaning(op: RelOp, l: Expr, r: Expr, d: real, p: Point)
    requires IteFreeExpr(l) && IteFreeExpr(r)
    ensures Holds(Shift(Rel(op, l, r), d), p) <==> RelShifted(op, Eval(l, p) - Eval(r, p), d)
  {
    ShiftAtomMeaning(l, r, d, p);
    match op
    case EQ => MkAnd2Meaning(ShiftGeq(l, r, d), ShiftLeq(l, r, d), p);
    case NEQ => MkOr2Meaning(ShiftGt(l, r, d), ShiftLt(l, r, d), p);
    case _ =>
  }

  /** Strengthening implies the formula, and the formula implies its weakening. */
  lemma {:induction false} ShiftIsDirected(f: Formula, d: real, p: Point)
    requires IsPlain(f)
    ensures d > 0.0 && Holds(Shift(f, d), p) ==> Holds(f, p)
    ensures d < 0.0 && Holds(f, p) ==> Holds(Shift(f, d), p)
    decreases f
  {
    match f
    case Rel(op, l, r) => ShiftRelMeaning(op, l, r, d, p);
    case Not(g) =>
      ShiftIsDirected(g, -d, p);
      MkNotMeaning(Shift(g, -d), p);
    case And(fs) =>
      forall i | 0 <= i < |fs|
        ensures d > 0.0 && Holds(ShiftAll(fs, d)[i], p) ==> Holds(fs[i], p)
        ensures d < 0.0 && Holds(fs[i], p) ==> Holds(ShiftAll(fs, d)[i], p)
      {
        ShiftIsDirected(fs[i], d, p);
      }
      MkAndMeaning(ShiftAll(fs, d), p);
    case Or(fs) =>
      forall i | 0 <= i < |fs|
        ensures d > 0.0 && Holds(ShiftAll(fs, d)[i], p) ==> Holds(fs[i], p)
        ensures d < 0.0 && Holds(fs[i], p) ==> Holds(ShiftAll(fs, d)[i], p)
      {
        ShiftIsDirected(fs[i], d, p);
      }
      MkOrMeaning(ShiftAll(fs, d), p);
    case _ =>
  }

  /** A larger margin gives a stronger formula, across zero as well. */
  lemma {:induction false} ShiftIsMonotone(f: Formula, d: real, d': real, p: Point)
    requires IsPlain(f) && d <= d' && d != 0.0 && d' != 0.0
    ensures Holds(Shift(f, d'), p) ==> Holds(Shift(f, d), p)
    decreases f
  {
    match f
    case Rel(op, l, r) =>
      ShiftRelMeaning(op, l, r, d, p);
      ShiftRelMeaning(op, l, r, d', p);
    case Not(g) =>
      ShiftIsMonotone(g, -d', -d, p);
      MkNotMeaning(Shift(g, -d), p);
      MkNotMeaning(Shift(g, -d'), p);
    case And(fs) =>
      forall i | 0 <= i < |fs| ensures Holds(ShiftAll(fs, d')[i], p) ==> Holds(ShiftAll(fs, d)[i], p) {
        ShiftIsMonotone(fs[i], d, d', p);
      }
      MkAndMeaning(ShiftAll(fs, d), p);
      MkAndMeaning(ShiftAll(fs, d'), p);
    case Or(fs) =>
      forall i | 0 <= i < |fs| ensures Holds(ShiftAll(fs, d')[i], p) ==> Holds(ShiftAll(fs, d)[i], p) {
        ShiftIsMonotone(fs[i], d, d', p);
      }
      MkOrMeaning(ShiftAll(fs, d), p);
      MkOrMeaning(ShiftAll(fs, d'), p);
    case _ =>
  }

  /** Strengthening survives the passage to negation normal form: where the
      strengthened formula holds, and where the weakened formula fails for the
      opposite polarity, the strengthened normal form holds. */
  lemma {:induction false} ShiftThroughNnf(f: Formula, polarity: bool, d: real, p: Point)
    requires IsPlain(f) && d > 0.0
    requires if polarity then Holds(Shift(f, d), p) else !Holds(Shift(f, -d), p)
    ensures IsPlain(ToNnf(f, polarity, true)) && Holds(Shift(ToNnf(f, polarity, true), d), p)
    decreases f
  {
    NnfFragment(f, polarity, true);
    match f
    case Rel(op, l, r) =>
      ShiftRelMeaning(op, l, r, if polarity then d else -d, p);
      ShiftRelMeaning(if polarity then op else Negate(op), l, r, d, p);
    case Not(g) =>
      MkNotMeaning(Shift(g, -d), p);
      MkNotMeaning(Shift(g, d), p);
      ShiftThroughNnf(g, !polarity, d, p);
    case And(fs) =>
      MkAndMeaning(ShiftAll(fs, if polarity then d else -d), p);
      ShiftThroughOperands(fs, true, polarity, d, p);
    case Or(fs) =>
      MkOrMeaning(ShiftAll(fs, if polarity then d else -d), p);
      ShiftThroughOperands(fs, false, polarity, d, p);
    case _ =>
  }

  lemma {:induction false} ShiftThroughOperands(fs: seq<Formula>, conj: bool, polarity: bool, d: real, p: Point)
    requires AllPlain(fs) && d > 0.0
    requires var e := if polarity then d else -d;
             (if conj then AllTrue(ShiftAll(fs, e), p) else SomeTrue(ShiftAll(fs, e), p)) <==> polarity
    ensures var gs := Operands(fs, polarity, true);
            var h := if conj == polarity then MkAnd(gs) else MkOr(gs);
            IsPlain(h) && Holds(Shift(h, d), p)
    decreases fs
  {
    var e := if polarity then d else -d;
    var gs := Operands(fs, polarity, true);
    forall i | 0 <= i < |fs| ensures IsPlain(gs[i]) {
      NnfFragment(fs[i], polarity, true);
    }
    forall i | 0 <= i < |fs| && (Holds(ShiftAll(fs, e)[i], p) <==> polarity) ensures Holds(ShiftAll(gs, d)[i], p) {
      ShiftThroughNnf(fs[i], polarity, d, p);
    }
    if conj == polarity {
      ShiftMkAnd(gs, d, p);
    } else {
      var i :| 0 <= i < |fs| && (Holds(ShiftAll(fs, e)[i], p) <==> polarity);
      assert Holds(ShiftAll(gs, d)[i], p);
      ShiftMkOr(gs, d, p);
    }
  }

  /** Strengthening commutes with the simplifying conjunction. */
  lemma ShiftMkAnd(fs: seq<Formula>, d: real, p: Point)
    requires AllPlain(fs)
    ensures IsPlain(MkAnd(fs))
    ensures Holds(Shift(MkAnd(fs), d), p) <==> AllTrue(ShiftAll(fs, d), p)
  {
    if False in fs {
      var i :| 0 <= i < |fs| && fs[i] == False;
      assert !Holds(ShiftAll(fs, d)[i], p);
    } else {
      ShiftConjuncts(fs, d, p);
      var gs := Conjuncts(fs);
      if |gs| == 1 { assert ShiftAll(gs, d)[0] == Shift(gs[0], d); }
      MkAndMeaning(ShiftAll(gs, d), p);
    }
  }

  lemma ShiftMkOr(fs: seq<Formula>, d: real, p: Point)
    requires AllPlain(fs)
    ensures IsPlain(MkOr(fs))
    ensures Holds(Shift(MkOr(fs), d), p) <==> SomeTrue(ShiftAll(fs, d), p)
  {
    if True in fs {
      var i :| 0 <= i < |fs| && fs[i] == True;
      assert Holds(ShiftAll(fs, d)[i], p);
    } else {
      ShiftDisjuncts(fs, d, p);
      var gs := Disjuncts(fs);
      if |gs| == 1 { assert ShiftAll(gs, d)[0] == Shift(gs[0], d); }
      MkOrMeaning(ShiftAll(gs, d), p);
    }
  }

  lemma ShiftAllAppend(fs: seq<Formula>, gs: seq<Formula>, d: real)
    requires AllPlain(fs) && AllPlain(gs)
    ensures AllPlain(fs + gs) && ShiftAll(fs + gs, d) == ShiftAll(fs, d) + ShiftAll(gs, d)
  {
  }

  lemma {:induction false} ShiftConjuncts(fs: seq<Formula>, d: real, p: Point)
    requires AllPlain(fs)
    ensures AllPlain(Conjuncts(fs))
    ensures AllTrue(ShiftAll(Conjuncts(fs), d), p) <==> AllTrue(ShiftAll(fs, d), p)
  {
    if fs == [] {
    } else {
      ShiftConjuncts(fs[1..], d, p);
      var head := match fs[0] case True => [] case And(gs) => gs case g => [g];
      assert AllPlain(head) by { assert IsPlain(fs[0]); }
      assert AllTrue(ShiftAll(head, d), p) <==> Holds(Shift(fs[0], d), p) by {
        if fs[0].And? {
          MkAndMeaning(ShiftAll(fs[0].fs, d), p);
        } else if !fs[0].True? {
          assert ShiftAll(head, d)[0] == Shift(fs[0], d);
        }
      }
      ShiftAllAppend(head, Conjuncts(fs[1..]), d);
      AllTrueAppend(ShiftAll(head, d), ShiftAll(Conjuncts(fs[1..]), d), p);
      ShiftAllAppend([fs[0]], fs[1..], d);
      assert fs == [fs[0]] + fs[1..];
      AllTrueAppend(ShiftAll([fs[0]], d), ShiftAll(fs[1..], d), p);
      assert AllTrue(ShiftAll([fs[0]], d), p) <==> Holds(ShiftAll([fs[0]], d)[0], p);
    }
  }

  lemma {:induction false} ShiftDisjuncts(fs: seq<Formula>, d: real, p: Point)
    requires AllPlain(fs)
    ensures AllPlain(Disjuncts(fs))
    ensures SomeTrue(ShiftAll(Disjuncts(fs), d), p) <==> SomeTrue(ShiftAll(fs, d), p)
  {
    if fs == [] {
    } else {
      ShiftDisjuncts(fs[1..], d, p);
      var head := match fs[0] case False => [] case Or(gs) => gs case g => [g];
      assert AllPlain(head) by { assert IsPlain(fs[0]); }
      assert SomeTrue(ShiftAll(head, d), p) <==> Holds(Shift(fs[0], d), p) by {
        if fs[0].Or? {
          MkOrMeaning(ShiftAll(fs[0].fs, d), p);
        } else if !fs[0].False? {
          assert ShiftAll(head, d)[0] == Shift(fs[0], d);
        }
      }
      ShiftAllAppend(head, Disjuncts(fs[1..]), d);
      SomeTrueAppend(ShiftAll(head, d), ShiftAll(Disjuncts(fs[1..]), d), p);
      ShiftAllAppend([fs[0]], fs[1..], d);
      assert fs == [fs[0]] + fs[1..];
      SomeTrueAppend(ShiftAll([fs[0]], d), ShiftAll(fs[1..], d), p);
      assert ShiftAll([fs[0]], d)[0] == Shift(fs[0], d);
    }
  }
}
