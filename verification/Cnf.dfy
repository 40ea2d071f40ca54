/** Conjunctive normal form by distribution (util/naive_cnfizer.cc) and the shape
    tests of symbolic/symbolic.cc. */
module Cnf {
  import opened Symbolic
  import opened Nnf
  import opened ForallQuery

  // ------------------------------------------------------------ the shapes

  predicate IsAtomic(f: Formula) {
    match f
    case And(_) => false
    case Or(_) => false
    case Not(g) => g.BoolVar? || g.Rel?
    case _ => true
  }

  predicate AllAtomic(fs: seq<Formula>) {
    forall i | 0 <= i < |fs| :: IsAtomic(fs[i])
  }

  predicate IsClause(f: Formula) {
    IsAtomic(f) || (f.Not? && IsAtomic(f.f)) || (f.Or? && AllAtomic(f.fs))
  }

  predicate AllClauses(fs: seq<Formula>) {
    forall i | 0 <= i < |fs| :: IsClause(fs[i])
  }

  predicate IsCnf(f: Formula) {
    IsAtomic(f) || (f.Or? && IsClause(f)) || (f.And? && AllClauses(f.fs))
  }

  // --------------------------------------------------------- distribution

  /** The clauses `c || d` for every `d`. */
  function CrossOne(c: Formula, ds: seq<Formula>): seq<Formula> {
    seq(|ds|, j requires 0 <= j < |ds| => MkOr([c, ds[j]]))
  }

  function Cross(cs: seq<Formula>, ds: seq<Formula>): seq<Formula> {
    if cs == [] then [] else Cross(cs[..|cs| - 1], ds) + CrossOne(cs[|cs| - 1], ds)
  }

  /** One step of the disjunction fold. */
  function Distribute(a: Formula, b: Formula): Formula {
    MkAnd(Cross(TopConjuncts(a), TopConjuncts(b)))
  }

  function FoldDisjunction(fs: seq<Formula>): Formula {
    if fs == [] then False else Distribute(FoldDisjunction(fs[..|fs| - 1]), fs[|fs| - 1])
  }

  /** The body of the fold, which collects the clauses in nested loops. */
  method DistributeStep(cnf1: Formula, cnf2: Formula) returns (r: Formula)
    ensures r == Distribute(cnf1, cnf2)
  {
    var clauses: seq<Formula> := [];
    var cs, ds := TopConjuncts(cnf1), TopConjuncts(cnf2);
    var i := 0;
    while i < |cs|
      invariant 0 <= i <= |cs| && clauses == Cross(cs[..i], ds)
    {
      var j := 0;
      while j < |ds|
        invariant 0 <= j <= |ds| && clauses == Cross(cs[..i], ds) + CrossOne(cs[i], ds)[..j]
      {
        clauses := clauses + [MkOr([cs[i], ds[j]])];
        j := j + 1;
      }
      assert cs[..i + 1][..i] == cs[..i];
      i := i + 1;
    }
    assert cs[..|cs|] == cs;
    r := MkAnd(clauses);
  }

  lemma CrossOneMeaning(c: Formula, ds: seq<Formula>, p: Point)
    ensures AllTrue(CrossOne(c, ds), p) <==> Holds(c, p) || AllTrue(ds, p)
  {
    var es := CrossOne(c, ds);
    forall j | 0 <= j < |ds| ensures Holds(es[j], p) <==> Holds(c, p) || Holds(ds[j], p) {
      MkOr2Meaning(c, ds[j], p);
    }
  }

  lemma {:induction false} CrossMeaning(cs: seq<Formula>, ds: seq<Formula>, p: Point)
    ensures AllTrue(Cross(cs, ds), p) <==> AllTrue(cs, p) || AllTrue(ds, p)
  {
    if cs == [] {
    } else {
      var init, last := cs[..|cs| - 1], cs[|cs| - 1];
      CrossMeaning(init, ds, p);
      CrossOneMeaning(last, ds, p);
      AllTrueAppend(Cross(init, ds), CrossOne(last, ds), p);
      AllTrueAppend(init, [last], p);
      assert cs == init + [last];
      assert AllTrue([last], p) <==> Holds([last][0], p);
    }
  }

  lemma TopConjunctsMeaning(f: Formula, p: Point)
    ensures AllTrue(TopConjuncts(f), p) <==> Holds(f, p)
  {
    if !f.And? { assert TopConjuncts(f)[0] == f; }
  }

  /** Distribution is the disjunction of its operands. */
  lemma DistributeMeaning(a: Formula, b: Formula, p: Point)
    ensures Holds(Distribute(a, b), p) <==> Holds(a, p) || Holds(b, p)
  {
    CrossMeaning(TopConjuncts(a), TopConjuncts(b), p);
    TopConjunctsMeaning(a, p);
    TopConjunctsMeaning(b, p);
    MkAndMeaning(Cross(TopConjuncts(a), TopConjuncts(b)), p);
  }

  /** What the fold keeps: it is equivalent to the disjunction of the operands so
      far. */
  lemma {:induction false} FoldMeaning(fs: seq<Formula>, p: Point)
    ensures Holds(FoldDisjunction(fs), p) <==> SomeTrue(fs, p)
  {
    if fs == [] {
    } else {
      var init, last := fs[..|fs| - 1], fs[|fs| - 1];
      FoldMeaning(init, p);
      DistributeMeaning(FoldDisjunction(init), last, p);
      SomeTrueAppend(init, [last], p);
      assert fs == init + [last];
      assert Holds(last, p) ==> Holds([last][0], p);
    }
  }

  // ------------------------------------------------------------ conversion

  function Max(a: nat, b: nat): nat { if a < b then b else a }

  /** How deeply foralls are nested. */
  function ForallDepth(f: Formula): nat {
    match f
    case Not(g) => ForallDepth(g)
    case And(fs) => MaxDepth(fs)
    case Or(fs) => MaxDepth(fs)
    case Forall(_, g) => 1 + ForallDepth(g)
    case _ => 0
  }

  function MaxDepth(fs: seq<Formula>): nat {
    if fs == [] then 0 else Max(ForallDepth(fs[0]), MaxDepth(fs[1..]))
  }

  lemma {:induction false} DepthOfMember(fs: seq<Formula>, i: nat)
    requires i < |fs|
    ensures ForallDepth(fs[i]) <= MaxDepth(fs)
  {
    if i == 0 {
    } else {
      DepthOfMember(fs[1..], i - 1);
    }
  }

  predicate DepthWithin(fs: seq<Formula>, d: nat) {
    forall i | 0 <= i < |fs| :: ForallDepth(fs[i]) <= d
  }

  lemma {:induction false} ConjunctDepth(fs: seq<Formula>, d: nat)
    requires DepthWithin(fs, d)
    ensures MaxDepth(Conjuncts(fs)) <= d
  {
    if fs == [] {
    } else {
      ConjunctDepth(fs[1..], d);
      assert ForallDepth(fs[0]) <= d;
      MaxDepthAppend(match fs[0] case True => [] case And(gs) => gs case g => [g], Conjuncts(fs[1..]));
    }
  }

  lemma {:induction false} DisjunctDepth(fs: seq<Formula>, d: nat)
    requires DepthWithin(fs, d)
    ensures MaxDepth(Disjuncts(fs)) <= d
  {
    if fs == [] {
    } else {
      DisjunctDepth(fs[1..], d);
      assert ForallDepth(fs[0]) <= d;
      MaxDepthAppend(match fs[0] case False => [] case Or(gs) => gs case g => [g], Disjuncts(fs[1..]));
    }
  }

  lemma DepthBounded(fs: seq<Formula>, d: nat)
    requires DepthWithin(fs, d)
    ensures ForallDepth(MkAnd(fs)) <= d && ForallDepth(MkOr(fs)) <= d
  {
    ConjunctDepth(fs, d);
    DisjunctDepth(fs, d);
  }

  lemma {:induction false} MaxDepthAppend(fs: seq<Formula>, gs: seq<Formula>)
    ensures MaxDepth(fs + gs) == Max(MaxDepth(fs), MaxDepth(gs))
  {
    if fs == [] {
      assert fs + gs == gs;
    } else {
      MaxDepthAppend(fs[1..], gs);
      assert (fs + gs)[1..] == fs[1..] + gs;
    }
  }

  lemma {:induction false} NnfDepth(f: Formula, polarity: bool, push: bool)
    ensures ForallDepth(ToNnf(f, polarity, push)) <= ForallDepth(f)
  {
    match f
    case Not(g) => NnfDepth(g, !polarity, push);
    case And(fs) => OperandDepth(fs, polarity, push);
    case Or(fs) => OperandDepth(fs, polarity, push);
    case _ =>
  }

  lemma {:induction false} OperandDepth(fs: seq<Formula>, polarity: bool, push: bool)
    ensures var gs := Operands(fs, polarity, push);
            ForallDepth(MkAnd(gs)) <= MaxDepth(fs) && ForallDepth(MkOr(gs)) <= MaxDepth(fs)
  {
    var gs := Operands(fs, polarity, push);
    forall i | 0 <= i < |gs| ensures ForallDepth(gs[i]) <= MaxDepth(fs) {
      NnfDepth(fs[i], polarity, push);
      DepthOfMember(fs, i);
    }
    DepthBounded(gs, MaxDepth(fs));
  }

  /** `NaiveCnfizer::Visit`, on formulas in negation normal form. */
  function ToCnf(f: Formula): Formula
    decreases ForallDepth(f), f, 0
  {
    match f
    case Rel(EQ, l, r) => MkAnd([Rel(GEQ, l, r), Rel(LEQ, l, r)])
    case Rel(NEQ, l, r) => MkOr([Rel(GT, l, r), Rel(LT, l, r)])
    case And(fs) => MkAnd(ToCnfAll(fs))
    case Or(fs) => FoldDisjunction(ToCnfAll(fs))
    case Forall(vars, g) =>
      NnfDepth(g, true, true);
      MkForall(vars, ToCnf(Convert(g, true)))
    case _ => f
  }

  function ToCnfAll(fs: seq<Formula>): (r: seq<Formula>)
    ensures |r| == |fs|
    ensures forall i | 0 <= i < |fs| :: ForallDepth(fs[i]) <= MaxDepth(fs) && r[i] == ToCnf(fs[i])
    decreases MaxDepth(fs), fs, 0
  {
    if fs == [] then []
    else [ToCnf(fs[0])] + ToCnfAll(fs[1..])
  }

  /** `NaiveCnfizer::Convert`. */
  function Cnfize(f: Formula): Formula {
    ToCnf(Convert(f, true))
  }

  /** The visitor preserves meaning at every point, inside foralls as well. */
  lemma {:induction false} ToCnfMeaning(f: Formula, p: Point)
    ensures Holds(ToCnf(f), p) <==> Holds(f, p)
    decreases ForallDepth(f), f
  {
    match f
    case Rel(EQ, l, r) => MkAnd2Meaning(Rel(GEQ, l, r), Rel(LEQ, l, r), p);
    case Rel(NEQ, l, r) => MkOr2Meaning(Rel(GT, l, r), Rel(LT, l, r), p);
    case And(fs) =>
      forall i | 0 <= i < |fs| ensures Holds(ToCnfAll(fs)[i], p) <==> Holds(fs[i], p) {
        DepthOfMember(fs, i);
        ToCnfMeaning(fs[i], p);
      }
      MkAndMeaning(ToCnfAll(fs), p);
    case Or(fs) =>
      forall i | 0 <= i < |fs| ensures Holds(ToCnfAll(fs)[i], p) <==> Holds(fs[i], p) {
        DepthOfMember(fs, i);
        ToCnfMeaning(fs[i], p);
      }
      FoldMeaning(ToCnfAll(fs), p);
    case Forall(vars, g) =>
      NnfDepth(g, true, true);
      forall q: Point ensures Holds(ToCnf(Convert(g, true)), q) <==> Holds(g, q) {
        ToCnfMeaning(Convert(g, true), q);
        NnfMeaning(g, true, true, q);
      }
      MkForallMeaning(vars, ToCnf(Convert(g, true)), p);
    case _ =>
  }

  /** The conversion preserves meaning. */
  lemma CnfizeMeaning(f: Formula, p: Point)
    ensures Holds(Cnfize(f), p) <==> Holds(f, p)
  {
    ToCnfMeaning(Convert(f, true), p);
    NnfMeaning(f, true, true, p);
  }

  // ----------------------------------------------------------------- shape

  /** No forall stands under an odd number of negations. */
  predicate ForallsPositive(f: Formula, polarity: bool) {
    match f
    case Not(g) => ForallsPositive(g, !polarity)
    case And(fs) => forall i | 0 <= i < |fs| :: ForallsPositive(fs[i], polarity)
    case Or(fs) => forall i | 0 <= i < |fs| :: ForallsPositive(fs[i], polarity)
    case Forall(_, _) => polarity
    case _ => true
  }

  /** Negation stands only before Boolean variables. */
  predicate Clean(f: Formula) {
    match f
    case Not(g) => g.BoolVar?
    case And(fs) => forall i | 0 <= i < |fs| :: Clean(fs[i])
    case Or(fs) => forall i | 0 <= i < |fs| :: Clean(fs[i])
    case _ => true
  }

  predicate AllClean(fs: seq<Formula>) {
    forall i | 0 <= i < |fs| :: Clean(fs[i])
  }

  lemma {:induction false} CleanOperands(fs: seq<Formula>)
    requires AllClean(fs)
    ensures AllClean(Conjuncts(fs)) && AllClean(Disjuncts(fs))
  {
    if fs == [] {
    } else {
      assert Clean(fs[0]);
      CleanOperands(fs[1..]);
    }
  }

  lemma {:induction false} NnfIsClean(f: Formula, polarity: bool)
    requires ForallsPositive(f, polarity)
    ensures Clean(ToNnf(f, polarity, true))
  {
    match f
    case Not(g) => NnfIsClean(g, !polarity);
    case And(fs) =>
      forall i | 0 <= i < |fs| ensures Clean(Operands(fs, polarity, true)[i]) { NnfIsClean(fs[i], polarity); }
      CleanOperands(Operands(fs, polarity, true));
    case Or(fs) =>
      forall i | 0 <= i < |fs| ensures Clean(Operands(fs, polarity, true)[i]) { NnfIsClean(fs[i], polarity); }
      CleanOperands(Operands(fs, polarity, true));
    case _ =>
  }

  /** A clause the conversion builds: never a negated forall. */
  predicate Plain(f: Formula) {
    IsAtomic(f) || (f.Or? && AllAtomic(f.fs))
  }

  predicate AllPlainClauses(fs: seq<Formula>) {
    forall i | 0 <= i < |fs| :: Plain(fs[i])
  }

  predicate Shaped(f: Formula) {
    Plain(f) || (f.And? && AllPlainClauses(f.fs))
  }

  predicate AllShaped(fs: seq<Formula>) {
    forall i | 0 <= i < |fs| :: Shaped(fs[i])
  }

  lemma {:induction false} DisjunctsOfClauses(fs: seq<Formula>)
    requires AllPlainClauses(fs)
    ensures AllAtomic(Disjuncts(fs)) && Plain(MkOr(fs))
  {
    if fs == [] {
    } else {
      assert Plain(fs[0]);
      DisjunctsOfClauses(fs[1..]);
    }
  }

  lemma {:induction false} ConjunctsOfShaped(fs: seq<Formula>)
    requires AllShaped(fs)
    ensures AllPlainClauses(Conjuncts(fs)) && Shaped(MkAnd(fs))
  {
    if fs == [] {
    } else {
      assert Shaped(fs[0]);
      ConjunctsOfShaped(fs[1..]);
    }
  }

  lemma {:induction false} CrossIsClauses(cs: seq<Formula>, ds: seq<Formula>)
    requires AllPlainClauses(cs) && AllPlainClauses(ds)
    ensures AllPlainClauses(Cross(cs, ds))
  {
    if cs == [] {
    } else {
      var last := cs[|cs| - 1];
      CrossIsClauses(cs[..|cs| - 1], ds);
      forall j | 0 <= j < |ds| ensures Plain(CrossOne(last, ds)[j]) {
        assert AllPlainClauses([last, ds[j]]);
        DisjunctsOfClauses([last, ds[j]]);
      }
    }
  }

  /** The fold stays a conjunction of clauses. */
  lemma {:induction false} FoldIsShaped(fs: seq<Formula>)
    requires AllShaped(fs)
    ensures Shaped(FoldDisjunction(fs))
  {
    if fs == [] {
    } else {
      var init, last := fs[..|fs| - 1], fs[|fs| - 1];
      FoldIsShaped(init);
      assert Shaped(last);
      var cs, ds := TopConjuncts(FoldDisjunction(init)), TopConjuncts(last);
      CrossIsClauses(cs, ds);
      assert AllShaped(Cross(cs, ds));
      ConjunctsOfShaped(Cross(cs, ds));
    }
  }

  lemma {:induction false} ToCnfShape(f: Formula)
    requires Clean(f)
    ensures Shaped(ToCnf(f))
  {
    match f
    case Rel(EQ, l, r) =>
      assert AllShaped([Rel(GEQ, l, r), Rel(LEQ, l, r)]);
      ConjunctsOfShaped([Rel(GEQ, l, r), Rel(LEQ, l, r)]);
    case Rel(NEQ, l, r) =>
      assert AllPlainClauses([Rel(GT, l, r), Rel(LT, l, r)]);
      DisjunctsOfClauses([Rel(GT, l, r), Rel(LT, l, r)]);
    case And(fs) =>
      forall i | 0 <= i < |fs| ensures Shaped(ToCnfAll(fs)[i]) { ToCnfShape(fs[i]); }
      ConjunctsOfShaped(ToCnfAll(fs));
    case Or(fs) =>
      forall i | 0 <= i < |fs| ensures Shaped(ToCnfAll(fs)[i]) { ToCnfShape(fs[i]); }
      FoldIsShaped(ToCnfAll(fs));
    case _ =>
  }

  /** Without negated quantifiers the result passes `is_cnf`. */
  lemma CnfizeShape(f: Formula)
    requires ForallsPositive(f, true)
    ensures IsCnf(Cnfize(f))
  {
    NnfIsClean(f, true);
    ToCnfShape(Convert(f, true));
  }

  /** A negated forall comes back as it is, and `is_cnf` does not accept it. */
  lemma NegatedForallIsNotCnf(vars: set<nat>, g: Formula)
    ensures var f := Not(Forall(vars, g)); !ForallsPositive(f, true) && Cnfize(f) == f && !IsCnf(f)
  {
    var f := Not(Forall(vars, g));
    assert !ForallsPositive(f.f, false);
    assert Convert(f, true) == ToNnf(f.f, false, true);
  }
}
