/** Negation normal form (util/nnfizer.cc). */
module Nnf {
  import opened Symbolic

  /** `Nnfizer::Visit`: `push` moves negations into relational atoms. */
  function ToNnf(f: Formula, polarity: bool, push: bool): Formula {
    match f
    case True => if polarity then True else False
    case False => if polarity then False else True
    case BoolVar(_) => if polarity then f else MkNot(f)
    case Rel(op, l, r) =>
      if polarity then f
      else if push then Rel(Negate(op), l, r)
      else MkNot(f)
    case Not(g) => ToNnf(g, !polarity, push)
    case And(fs) =>
      var gs := Operands(fs, polarity, push);
      if polarity then MkAnd(gs) else MkOr(gs)
    case Or(fs) =>
      var gs := Operands(fs, polarity, push);
      if polarity then MkOr(gs) else MkAnd(gs)
    case Forall(_, _) => if polarity then f else MkNot(f)
  }

  function Operands(fs: seq<Formula>, polarity: bool, push: bool): seq<Formula> {
    seq(|fs|, i requires 0 <= i < |fs| => ToNnf(fs[i], polarity, push))
  }

  /** `Nnfizer::Convert`. */
  function Convert(f: Formula, push: bool): Formula {
    ToNnf(f, true, push)
  }

  /** The normal form means the formula, negated when the polarity is negative. */
  lemma {:induction false} NnfMeaning(f: Formula, polarity: bool, push: bool, p: Point)
    ensures Holds(ToNnf(f, polarity, push), p) <==> (Holds(f, p) <==> polarity)
  {
    match f
    case True =>
    case False =>
    case BoolVar(_) =>
    case Rel(op, l, r) =>
    case Not(g) => NnfMeaning(g, !polarity, push, p);
    case And(fs) =>
      var gs := Operands(fs, polarity, push);
      forall i | 0 <= i < |fs| ensures Holds(gs[i], p) <==> (Holds(fs[i], p) <==> polarity) {
        NnfMeaning(fs[i], polarity, push, p);
      }
      MkAndMeaning(gs, p);
      MkOrMeaning(gs, p);
    case Or(fs) =>
      var gs := Operands(fs, polarity, push);
      forall i | 0 <= i < |fs| ensures Holds(gs[i], p) <==> (Holds(fs[i], p) <==> polarity) {
        NnfMeaning(fs[i], polarity, push, p);
      }
      MkAndMeaning(gs, p);
      MkOrMeaning(gs, p);
    case Forall(_, _) =>
  }

  // ------------------------------------------------------------------ shape

  /** Negation stands only before Boolean variables and foralls, and before
      relational atoms unless it was pushed into them. */
  predicate IsNnf(f: Formula, push: bool) {
    match f
    case Not(g) => g.BoolVar? || g.Forall? || (!push && g.Rel?)
    case And(fs) => forall i | 0 <= i < |fs| :: IsNnf(fs[i], push)
    case Or(fs) => forall i | 0 <= i < |fs| :: IsNnf(fs[i], push)
    case _ => true
  }

  predicate AllNnf(fs: seq<Formula>, push: bool) {
    forall i | 0 <= i < |fs| :: IsNnf(fs[i], push)
  }

  lemma {:induction false} ConjunctsNnf(fs: seq<Formula>, push: bool)
    requires AllNnf(fs, push)
    ensures AllNnf(Conjuncts(fs), push) && AllNnf(Disjuncts(fs), push)
  {
    if fs == [] {
    } else {
      assert IsNnf(fs[0], push);
      ConjunctsNnf(fs[1..], push);
    }
  }

  lemma {:induction false} NnfShape(f: Formula, polarity: bool, push: bool)
    ensures IsNnf(ToNnf(f, polarity, push), push)
  {
    match f
    case Not(g) => NnfShape(g, !polarity, push);
    case And(fs) =>
      forall i | 0 <= i < |fs| ensures IsNnf(ToNnf(fs[i], polarity, push), push) {
        NnfShape(fs[i], polarity, push);
      }
      ConjunctsNnf(Operands(fs, polarity, push), push);
    case Or(fs) =>
      forall i | 0 <= i < |fs| ensures IsNnf(ToNnf(fs[i], polarity, push), push) {
        NnfShape(fs[i], polarity, push);
      }
      ConjunctsNnf(Operands(fs, polarity, push), push);
    case _ =>
  }

  // ------------------------------------------------- closure of fragments

  lemma {:induction false} ConjunctsFragment(fs: seq<Formula>)
    ensures (forall i | 0 <= i < |fs| :: IteFree(fs[i])) ==>
              forall g | g in Conjuncts(fs) || g in Disjuncts(fs) :: IteFree(g)
    ensures (forall i | 0 <= i < |fs| :: QuantifierFree(fs[i])) ==>
              forall g | g in Conjuncts(fs) || g in Disjuncts(fs) :: QuantifierFree(g)
  {
    if fs == [] {
    } else {
      ConjunctsFragment(fs[1..]);
    }
  }

  /** The normal form of a quantifier- and ITE-free formula is one. */
  lemma {:induction false} NnfFragment(f: Formula, polarity: bool, push: bool)
    requires IteFree(f) && QuantifierFree(f)
    ensures IteFree(ToNnf(f, polarity, push)) && QuantifierFree(ToNnf(f, polarity, push))
  {
    match f
    case Not(g) => NnfFragment(g, !polarity, push);
    case And(fs) =>
      forall i | 0 <= i < |fs|
        ensures IteFree(ToNnf(fs[i], polarity, push)) && QuantifierFree(ToNnf(fs[i], polarity, push))
      {
        NnfFragment(fs[i], polarity, push);
      }
      ConjunctsFragment(Operands(fs, polarity, push));
    case Or(fs) =>
      forall i | 0 <= i < |fs|
        ensures IteFree(ToNnf(fs[i], polarity, push)) && QuantifierFree(ToNnf(fs[i], polarity, push))
      {
        NnfFragment(fs[i], polarity, push);
      }
      ConjunctsFragment(Operands(fs, polarity, push));
    case _ =>
  }

  lemma {:induction false} OperandVars(fs: seq<Formula>, vs: set<nat>)
    requires forall i | 0 <= i < |fs| :: FreeVars(fs[i]) <= vs
    ensures forall g | g in Conjuncts(fs) || g in Disjuncts(fs) :: FreeVars(g) <= vs
    ensures FreeVars(MkAnd(fs)) <= vs && FreeVars(MkOr(fs)) <= vs
  {
    if fs == [] {
    } else {
      OperandVars(fs[1..], vs);
      assert FreeVars(fs[0]) <= vs;
      forall g | (fs[0].And? || fs[0].Or?) && g in fs[0].fs ensures FreeVars(g) <= vs {
        assert FreeVars(g) <= FreeVars(fs[0]);
      }
    }
  }

  /** The normal form has no new free variables. */
  lemma {:induction false} NnfVars(f: Formula, polarity: bool, push: bool)
    ensures FreeVars(ToNnf(f, polarity, push)) <= FreeVars(f)
  {
    match f
    case Not(g) => NnfVars(g, !polarity, push);
    case And(fs) =>
      var gs := Operands(fs, polarity, push);
      forall i | 0 <= i < |gs| ensures FreeVars(gs[i]) <= FreeVars(f) { NnfVars(fs[i], polarity, push); }
      OperandVars(gs, FreeVars(f));
    case Or(fs) =>
      var gs := Operands(fs, polarity, push);
      forall i | 0 <= i < |gs| ensures FreeVars(gs[i]) <= FreeVars(f) { NnfVars(fs[i], polarity, push); }
      OperandVars(gs, FreeVars(f));
    case _ =>
  }
}
