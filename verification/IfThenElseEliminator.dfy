/** The eliminator as the stateful visitor it is
    (util/if_then_else_eliminator.cc). */
module IfThenElseEliminators {
  import opened Symbolic
  import opened Nnf
  import opened IfThenElse

  class IfThenElseEliminator {
    /** The next fresh variable. The program shares this counter between all
        eliminators; here a nested eliminator starts from it and hands it back. */
    var counter: nat
    var addedFormulas: seq<Formula>
    var iteVariables: set<nat>

    ghost function State(): Elim
      reads this
    {
      Elim(counter, addedFormulas, iteVariables)
    }

    constructor (counter: nat)
      ensures State() == Elim(counter, [], {})
    {
      this.counter := counter;
      addedFormulas, iteVariables := [], {};
    }

    method VisitExpression(e: Expr, guard: Formula) returns (r: Expr)
      modifies this
      ensures (r, State()) == ElimExpr(e, guard, old(State()))
      decreases e, 1
    {
      if IteFreeExpr(e) { return e; }
      match e
      case Const(_) => return e;
      case Var(_) => return e;
      case Pow(a, n) =>
        var a' := VisitExpression(a, guard);
        return Pow(a', n);
      case Abs(a) =>
        var a' := VisitExpression(a, guard);
        return Abs(a');
      case Ite(_, _, _) => r := VisitIfThenElse(e, guard);
      case _ =>
        var a' := VisitExpression(e.a, guard);
        var b' := VisitExpression(e.b, guard);
        return Rebuild(e, a', b');
    }

    method VisitIfThenElse(e: Expr, guard: Formula) returns (r: Expr)
      requires e.Ite?
      modifies this
      ensures (r, State()) == ElimExpr(e, guard, old(State()))
      decreases e, 0
    {
      var newVar := counter;
      counter := counter + 1;
      iteVariables := iteVariables + {newVar};
      var c := VisitFormula(e.cond, guard);
      var thenGuard, elseGuard := MkAnd([guard, c]), MkAnd([guard, MkNot(c)]);
      var e1 := VisitExpression(e.thn, thenGuard);
      var e2 := VisitExpression(e.els, elseGuard);
      addedFormulas := addedFormulas + [MkOr([MkNot(thenGuard), Rel(EQ, Var(newVar), e1)])];
      addedFormulas := addedFormulas + [MkOr([MkNot(elseGuard), Rel(EQ, Var(newVar), e2)])];
      ghost var i := ElimIte(e, guard, old(State()));
      assert addedFormulas == i.s3.added + Constraints(i);
      return Var(newVar);
    }

    method VisitFormula(f: Formula, guard: Formula) returns (r: Formula)
      modifies this
      ensures (r, State()) == ElimForm(f, guard, old(State()))
      decreases f, 0
    {
      match f
      case Rel(op, a, b) =>
        var a' := VisitExpression(a, guard);
        var b' := VisitExpression(b, guard);
        return Rel(op, a', b');
      case Not(g) =>
        var g' := VisitFormula(g, guard);
        return MkNot(g');
      case And(fs) =>
        var gs := VisitOperands(fs, guard);
        return MkAnd(gs);
      case Or(fs) =>
        var gs := VisitOperands(fs, guard);
        return MkOr(gs);
      case Forall(vars, g) => r := VisitForall(vars, g, guard);
      case _ => return f;
    }

    method VisitOperands(fs: seq<Formula>, guard: Formula) returns (gs: seq<Formula>)
      modifies this
      ensures (gs, State()) == ElimForms(fs, guard, old(State()))
      decreases fs, 0
    {
      gs := [];
      var i := 0;
      assert fs[0..] == fs;
      while i < |fs|
        invariant 0 <= i <= |fs|
        invariant ElimForms(fs, guard, old(State())).0 == gs + ElimForms(fs[i..], guard, State()).0
        invariant ElimForms(fs, guard, old(State())).1 == ElimForms(fs[i..], guard, State()).1
      {
        ghost var rest := fs[i..];
        assert rest[0] == fs[i] && rest[1..] == fs[i + 1..];
        var g := VisitFormula(fs[i], guard);
        gs := gs + [g];
        i := i + 1;
      }
      assert fs[i..] == [];
      assert gs + ElimForms(fs[i..], guard, State()).0 == gs;
    }

    /** The negated matrix is processed by an eliminator of its own, and the
        result negated again. */
    method VisitForall(vars: set<nat>, g: Formula, guard: Formula) returns (r: Formula)
      modifies this
      ensures (r, State()) == ElimForm(Forall(vars, g), guard, old(State()))
      decreases g, 2
    {
      var inner := new IfThenElseEliminator(counter);
      var eliminated := inner.ProcessNegation(g);
      counter := inner.counter;
      return MkForall(vars + inner.iteVariables, Convert(MkNot(eliminated), false));
    }

    /** `Process(!g)`, on an eliminator just created. */
    method ProcessNegation(g: Formula) returns (r: Formula)
      requires addedFormulas == [] && iteVariables == {}
      modifies this
      ensures State() == ElimNegation(g, old(State())).1
      ensures r == Finish(MkNot(g), ElimNegation(g, old(State())).0, addedFormulas)
      decreases g, 1
    {
      var g': Formula;
      match g {
        case True => g' := False;
        case False => g' := True;
        case Not(h) => g' := VisitFormula(h, True);
        case _ =>
          g' := VisitFormula(g, True);
          g' := MkNot(g');
      }
      return Finish(MkNot(g), g', addedFormulas);
    }

    /** `Process`, on an eliminator just created. */
    method Process(f: Formula) returns (r: Formula)
      requires addedFormulas == [] && iteVariables == {} && FormBound(f) <= counter
      modifies this
      ensures (r, State()) == ProcessFrom(f, old(counter))
      ensures forall p :: Holds(r, p) ==> Holds(f, p)
      ensures forall p | Holds(f, p) :: exists q :: AgreeOff(p, q, iteVariables) && Holds(r, q)
    {
      var f' := VisitFormula(f, True);
      if f == f' && addedFormulas == [] {
        r := f;
      } else {
        r := MkAnd([f', MkAnd(addedFormulas)]);
      }
      forall p | Holds(r, p) ensures Holds(f, p) { ProcessSound(f, old(counter), p); }
      forall p | Holds(f, p) ensures exists q :: AgreeOff(p, q, iteVariables) && Holds(r, q) {
        var q := ProcessComplete(f, old(counter), p);
      }
    }
  }
}
