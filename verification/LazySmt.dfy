/** The lazy SMT loop (solver/context_impl.cc, `CheckSatCore`): a SAT oracle
    proposes truth values for the atoms, the theory solver checks them, and each
    explanation becomes a learned clause. */
module LazySmt {
  import opened Symbolic
  import opened Boxes
  import opened Nnf
  import opened Explanations
  import opened ContractorStatuses
  import opened ContractorSpec
  import opened ForallQuery
  import opened ContractorBuilder
  import TypedForall
  import opened Delta
  import opened Evaluator
  import opened Icp
  import opened TheorySolvers

  // -------------------------------------------------- Boolean abstraction

  /** The atoms the SAT solver sees. */
  function AtomsOf(f: Formula): set<Formula> {
    match f
    case True => {}
    case False => {}
    case Not(g) => AtomsOf(g)
    case And(fs) => set i, a | 0 <= i < |fs| && a in AtomsOf(fs[i]) :: a
    case Or(fs) => set i, a | 0 <= i < |fs| && a in AtomsOf(fs[i]) :: a
    case _ => {f}
  }

  /** The truth of a formula when exactly the atoms in `T` are true. */
  ghost predicate Abs(f: Formula, T: set<Formula>) {
    match f
    case True => true
    case False => false
    case Not(g) => !Abs(g, T)
    case And(fs) => forall i | 0 <= i < |fs| :: Abs(fs[i], T)
    case Or(fs) => exists i | 0 <= i < |fs| :: Abs(fs[i], T)
    case _ => f in T
  }

  /** The atoms true at a point. */
  ghost function TruthSet(atoms: set<Formula>, p: Point): set<Formula> {
    set a | a in atoms && Holds(a, p)
  }

  /** A point makes the abstraction of a formula true exactly when it satisfies
      the formula. */
  lemma {:induction false} AbsAtPoint(f: Formula, atoms: set<Formula>, p: Point)
    requires AtomsOf(f) <= atoms
    ensures Abs(f, TruthSet(atoms, p)) <==> Holds(f, p)
  {
    match f
    case Not(g) => AbsAtPoint(g, atoms, p);
    case And(fs) =>
      forall i | 0 <= i < |fs| ensures Abs(fs[i], TruthSet(atoms, p)) <==> Holds(fs[i], p) {
        assert AtomsOf(fs[i]) <= AtomsOf(f);
        AbsAtPoint(fs[i], atoms, p);
      }
    case Or(fs) =>
      forall i | 0 <= i < |fs| ensures Abs(fs[i], TruthSet(atoms, p)) <==> Holds(fs[i], p) {
        assert AtomsOf(fs[i]) <= AtomsOf(f);
        AbsAtPoint(fs[i], atoms, p);
      }
    case _ =>
  }

  ghost predicate AbsAll(fs: seq<Formula>, T: set<Formula>) {
    forall i | 0 <= i < |fs| :: Abs(fs[i], T)
  }

  lemma AbsAllAtPoint(fs: seq<Formula>, atoms: set<Formula>, p: Point)
    requires forall f | f in fs :: AtomsOf(f) <= atoms
    ensures AbsAll(fs, TruthSet(atoms, p)) <==> AllTrue(fs, p)
  {
    forall i | 0 <= i < |fs| ensures Abs(fs[i], TruthSet(atoms, p)) <==> Holds(fs[i], p) {
      AbsAtPoint(fs[i], atoms, p);
    }
  }

  // ------------------------------------------------------- learned clauses

  /** A learned clause is kept as the conflict it negates: some literal of the
      conflict is false. */
  ghost predicate Avoids(T: set<Formula>, conflict: set<Formula>) {
    exists e :: e in conflict && !Abs(e, T)
  }

  ghost predicate AvoidsAll(T: set<Formula>, learned: seq<set<Formula>>) {
    forall i | 0 <= i < |learned| :: Avoids(T, learned[i])
  }

  /** The assignments the learned clauses leave. */
  ghost function Remaining(atoms: set<Formula>, learned: seq<set<Formula>>): set<set<Formula>> {
    set T | T <= atoms && AvoidsAll(T, learned)
  }

  lemma LearningExcludes(atoms: set<Formula>, learned: seq<set<Formula>>, conflict: set<Formula>, T: set<Formula>)
    requires T <= atoms && AvoidsAll(T, learned) && !Avoids(T, conflict)
    ensures |Remaining(atoms, learned + [conflict])| < |Remaining(atoms, learned)|
  {
    var before, after := Remaining(atoms, learned), Remaining(atoms, learned + [conflict]);
    forall T' | T' in after ensures T' in before && T' != T {
      forall i | 0 <= i < |learned| ensures Avoids(T', learned[i]) {
        assert (learned + [conflict])[i] == learned[i];
      }
      assert Avoids(T', (learned + [conflict])[|learned|]);
    }
    assert T in before && after <= before - {T};
    SubsetIsSmaller(after, before - {T});
  }

  lemma {:induction false} SubsetIsSmaller<X>(a: set<X>, b: set<X>)
    requires a <= b
    ensures |a| <= |b|
    decreases a
  {
    if a == {} {
    } else {
      var x :| x in a;
      SubsetIsSmaller(a - {x}, b - {x});
    }
  }

  // -------------------------------------------------------------- the oracle

  /** Truth values for some Boolean variables and theory atoms; `full` when all
      of them have one. */
  datatype SatModel = SatModel(booleans: map<nat, bool>, theory: map<Formula, bool>, full: bool)

  ghost predicate Extends(m: SatModel, T: set<Formula>) {
    && (forall a | a in m.theory :: m.theory[a] <==> a in T)
    && (forall b | b in m.booleans :: m.booleans[b] <==> BoolVar(b) in T)
  }

  ghost predicate Satisfies(T: set<Formula>, stack: seq<Formula>, learned: seq<set<Formula>>) {
    AbsAll(stack, T) && AvoidsAll(T, learned)
  }

  /** What a SAT answer promises: no assignment at all, or a partial one that
      extends to an assignment satisfying the stack and the learned clauses. */
  ghost predicate AnswerOk(r: Option<SatModel>, stack: seq<Formula>, atoms: set<Formula>, learned: seq<set<Formula>>,
                           full: bool) {
    match r
    case None => forall T | T <= atoms :: !Satisfies(T, stack, learned)
    case Some(m) =>
      && (full ==> m.full)
      && (forall a | a in m.theory :: a in atoms && !a.BoolVar?)
      && (forall b | b in m.booleans :: BoolVar(b) in atoms)
      && (m.full ==> forall a | a in atoms :: if a.BoolVar? then a.b in m.booleans else a in m.theory)
      && (exists T :: T <= atoms && Extends(m, T) && Satisfies(T, stack, learned))
  }

  ghost predicate SoundSat(sat: (seq<set<Formula>>, bool) -> Option<SatModel>, stack: seq<Formula>,
                           atoms: set<Formula>) {
    forall learned, full :: AnswerOk(sat(learned, full), stack, atoms, learned, full)
  }

  // ------------------------------------------------------ stacks and models

  /** Boolean variables are Boolean dimensions, theory atoms are theory literals
      over the other dimensions, and foralls are asserted outright. */
  ghost predicate AtomOk(a: Formula, stack: seq<Formula>, types: seq<VarType>, utypes: Formula -> seq<VarType>) {
    match a
    case BoolVar(b) => b < |types| && types[b] == BOOLEAN
    case Rel(_, _, _) => IsAssertion(a, types, utypes)
    case Forall(_, _) => IsAssertion(a, types, utypes) && a in stack
    case _ => false
  }

  ghost predicate StackOk(stack: seq<Formula>, atoms: set<Formula>, types: seq<VarType>,
                          utypes: Formula -> seq<VarType>) {
    && (forall f | f in stack :: AtomsOf(f) <= atoms)
    && (forall a | a in atoms :: AtomOk(a, stack, types, utypes))
  }

  /** `HasForall`. */
  predicate HasForall(f: Formula) {
    match f
    case Forall(_, _) => true
    case And(fs) => exists i | 0 <= i < |fs| :: HasForall(fs[i])
    case Or(fs) => exists i | 0 <= i < |fs| :: HasForall(fs[i])
    case Not(g) => HasForall(g)
    case _ => false
  }

  /** `RejectUnsupportedForall` lets the formula pass. */
  predicate Supported(f: Formula) {
    if f.Forall? then !HasForall(f.body) else !HasForall(f)
  }

  lemma {:induction false} HasForallMeaning(f: Formula)
    ensures HasForall(f) <==> !QuantifierFree(f)
    ensures HasForall(f) <==> exists a :: a in AtomsOf(f) && a.Forall?
  {
    match f
    case Not(g) => HasForallMeaning(g);
    case And(fs) => OperandsHaveForall(fs);
    case Or(fs) => OperandsHaveForall(fs);
    case Forall(_, _) => assert f in AtomsOf(f);
    case _ =>
  }

  lemma {:induction false} OperandsHaveForall(fs: seq<Formula>)
    ensures (exists i | 0 <= i < |fs| :: HasForall(fs[i])) <==> !(forall i | 0 <= i < |fs| :: QuantifierFree(fs[i]))
    ensures (exists i | 0 <= i < |fs| :: HasForall(fs[i])) <==>
            exists i, a :: 0 <= i < |fs| && a in AtomsOf(fs[i]) && a.Forall?
  {
    forall i | 0 <= i < |fs|
      ensures HasForall(fs[i]) <==> !QuantifierFree(fs[i])
      ensures HasForall(fs[i]) <==> exists a :: a in AtomsOf(fs[i]) && a.Forall?
    {
      HasForallMeaning(fs[i]);
    }
  }

  /** What passes has the form the loop relies on: a forall is asserted outright,
      with a quantifier-free matrix. */
  lemma SupportedForalls(f: Formula)
    ensures Supported(f) <==> QuantifierFree(f) || (f.Forall? && QuantifierFree(f.body))
    ensures Supported(f) ==> forall a | a in AtomsOf(f) && a.Forall? :: a == f
  {
    HasForallMeaning(f);
    if f.Forall? { HasForallMeaning(f.body); }
  }

  /** The literal of an atom with its truth value. */
  function LiteralOf(a: Formula, value: bool): Formula {
    if value then a else Not(a)
  }

  function LiteralSet(m: map<Formula, bool>): set<Formula> {
    set a | a in m :: LiteralOf(a, m[a])
  }

  /** The literals of the theory model, in some order. */
  method TheoryLiterals(m: map<Formula, bool>) returns (fs: seq<Formula>)
    ensures SetOf(fs) == LiteralSet(m)
  {
    fs := [];
    var rest := m.Keys;
    while rest != {}
      invariant rest <= m.Keys
      invariant forall f :: f in fs <==> exists a :: a in m.Keys - rest && f == LiteralOf(a, m[a])
      decreases rest
    {
      var a :| a in rest;
      ghost var fs0, rest0 := fs, rest;
      rest := rest - {a};
      fs := fs + [LiteralOf(a, m[a])];
      forall f ensures f in fs <==> exists a :: a in m.Keys - rest && f == LiteralOf(a, m[a]) {
        if f in fs0 {
          var a' :| a' in m.Keys - rest0 && f == LiteralOf(a', m[a']);
          assert a' in m.Keys - rest;
        }
      }
    }
  }

  /** Literals with fewer variables come first. */
  predicate Ascending(fs: seq<Formula>) {
    forall i, j | 0 <= i < j < |fs| :: |FreeVars(fs[i])| <= |FreeVars(fs[j])|
  }

  function InsertLiteral(f: Formula, fs: seq<Formula>): seq<Formula> {
    if fs == [] || |FreeVars(f)| <= |FreeVars(fs[0])| then [f] + fs else [fs[0]] + InsertLiteral(f, fs[1..])
  }

  /** The order in which the theory solver gets the literals. */
  function SortLiterals(fs: seq<Formula>): seq<Formula> {
    if fs == [] then [] else InsertLiteral(fs[0], SortLiterals(fs[1..]))
  }

  lemma {:induction false} InsertKeepsMembers(f: Formula, fs: seq<Formula>, g: Formula)
    ensures g in InsertLiteral(f, fs) <==> g == f || g in fs
  {
    if fs == [] || |FreeVars(f)| <= |FreeVars(fs[0])| {
    } else {
      InsertKeepsMembers(f, fs[1..], g);
    }
  }

  lemma {:induction false} InsertKeepsOrder(f: Formula, fs: seq<Formula>)
    requires Ascending(fs)
    ensures Ascending(InsertLiteral(f, fs))
  {
    var r := InsertLiteral(f, fs);
    if fs == [] || |FreeVars(f)| <= |FreeVars(fs[0])| {
    } else {
      InsertKeepsOrder(f, fs[1..]);
      forall j | 1 <= j < |r| ensures |FreeVars(r[0])| <= |FreeVars(r[j])| {
        InsertKeepsMembers(f, fs[1..], r[1..][j - 1]);
      }
      forall i, j | 1 <= i < j < |r| ensures |FreeVars(r[i])| <= |FreeVars(r[j])| {
        assert r[i] == r[1..][i - 1] && r[j] == r[1..][j - 1];
      }
    }
  }

  lemma {:induction false} SortLiteralsIsSort(fs: seq<Formula>)
    ensures Ascending(SortLiterals(fs)) && forall g :: g in SortLiterals(fs) <==> g in fs
  {
    if fs == [] {
    } else {
      SortLiteralsIsSort(fs[1..]);
      InsertKeepsOrder(fs[0], SortLiterals(fs[1..]));
      forall g ensures g in SortLiterals(fs) <==> g in fs { InsertKeepsMembers(fs[0], SortLiterals(fs[1..]), g); }
    }
  }

  /** The literals in the order of the theory check. */
  method SortedLiterals(m: map<Formula, bool>) returns (fs: seq<Formula>)
    ensures Ascending(fs) && SetOf(fs) == LiteralSet(m)
  {
    var found := TheoryLiterals(m);
    fs := SortLiterals(found);
    SortLiteralsIsSort(found);
    assert SetOf(fs) == SetOf(found);
  }

  lemma LiteralsAreAssertions(m: SatModel, fs: seq<Formula>, stack: seq<Formula>, atoms: set<Formula>,
                              learned: seq<set<Formula>>, full: bool, types: seq<VarType>,
                              utypes: Formula -> seq<VarType>)
    requires StackOk(stack, atoms, types, utypes) && AnswerOk(Some(m), stack, atoms, learned, full)
    requires SetOf(fs) == LiteralSet(m.theory)
    ensures AreAssertions(fs, types, utypes) && forall f | f in fs :: NoBooleans(f, types)
  {
    var T :| T <= atoms && Extends(m, T) && Satisfies(T, stack, learned);
    forall f | f in fs ensures IsAssertion(f, types, utypes) && NoBooleans(f, types) {
      assert f in LiteralSet(m.theory);
      var a :| a in m.theory && f == LiteralOf(a, m.theory[a]);
      assert AtomOk(a, stack, types, utypes);
      if a.Forall? {
        var i :| 0 <= i < |stack| && stack[i] == a;
        assert Abs(stack[i], T);
      }
    }
  }

  /** Boolean dimensions set to the values the SAT model gives them. */
  ghost predicate SameOffBooleans(a: Box, b: Box, types: seq<VarType>) {
    && ValidBox(a, |types|) && ValidBox(b, |types|) && a.Box? && b.Box?
    && forall i | 0 <= i < |types| && types[i] != BOOLEAN :: a.iv[i] == b.iv[i]
  }

  /** The Boolean dimensions of the box have the values of the model. */
  ghost predicate BooleansSet(types: seq<VarType>, box: Box, booleans: map<nat, bool>) {
    && ValidBox(box, |types|) && box.Box?
    && forall b | b in booleans ::
         b < |types| && box.iv[b] == if booleans[b] then Interval(UNIT, UNIT) else Interval(0, 0)
  }

  /** The box with the Boolean dimensions of the model set; the others stay. */
  function WithBooleans(box: Box, booleans: map<nat, bool>): Box
    requires box.Box?
  {
    Box(seq(|box.iv|, i requires 0 <= i < |box.iv| =>
      if i in booleans then (if booleans[i] then Interval(UNIT, UNIT) else Interval(0, 0)) else box.iv[i]))
  }

  method SetBooleans(types: seq<VarType>, box: Box, booleans: map<nat, bool>) returns (r: Box)
    requires box.Box? && ValidBox(box, |types|)
    requires forall b | b in booleans :: b < |types| && types[b] == BOOLEAN
    ensures SameOffBooleans(r, box, types) && BooleansSet(types, r, booleans) && r == WithBooleans(box, booleans)
  {
    r := box;
    var rest := booleans.Keys;
    while rest != {}
      invariant rest <= booleans.Keys && SameOffBooleans(r, box, types)
      invariant forall b | b in booleans.Keys - rest ::
                r.iv[b] == if booleans[b] then Interval(UNIT, UNIT) else Interval(0, 0)
      invariant forall b | 0 <= b < |types| && b !in booleans.Keys - rest :: r.iv[b] == box.iv[b]
      decreases rest
    {
      var b :| b in rest;
      rest := rest - {b};
      r := Box(r.iv[b := if booleans[b] then Interval(UNIT, UNIT) else Interval(0, 0)]);
    }
  }

  // -------------------------------------------------------------- soundness

  /** `p` lies in the box; its Boolean coordinates are free, because their truth
      is up to the SAT solver. */
  ghost predicate InTheoryBox(types: seq<VarType>, box: Box, p: Point) {
    && ValidBox(box, |types|) && box.Box?
    && forall i | 0 <= i < |types| && types[i] != BOOLEAN :: Contains(box.iv[i], p(i))
  }

  /** The points the verdict speaks about: in the box, integer where they must
      be, and not in the gap next to the constant of a strict bound. */
  ghost predicate Candidate(types: seq<VarType>, box: Box, atoms: set<Formula>, p: Point) {
    InTheoryBox(types, box, p) && IntOk(types, p) && forall a | a in atoms :: Clear(a, p) && Clear(Not(a), p)
  }

  lemma BoxPointsAreCandidates(types: seq<VarType>, box: Box, atoms: set<Formula>, p: Point)
    requires ValidBox(box, |types|) && InBox(box, p) && IntOk(types, p) && OnGrid(p)
    ensures Candidate(types, box, atoms, p)
  {
    forall a | a in atoms ensures Clear(a, p) && Clear(Not(a), p) {
      GridPointsAreClear(a, p);
      GridPointsAreClear(Not(a), p);
    }
  }

  /** A candidate of the original box, with the Boolean dimensions moved into
      the values they were set to. */
  lemma MoveBooleans(types: seq<VarType>, box0: Box, box: Box, p: Point) returns (q: Point)
    requires SameOffBooleans(box, box0, types) && InTheoryBox(types, box0, p) && IntOk(types, p)
    ensures InBox(box, q) && IntOk(types, q)
    ensures forall f | NoBooleans(f, types) :: AgreeOn(p, q, FreeVars(f))
  {
    var booleans := set i | 0 <= i < |types| && types[i] == BOOLEAN;
    q := Patch(p, AnyPoint(box, p, |types|), booleans);
    forall i | 0 <= i < |types| ensures Contains(box.iv[i], q(i)) && IntegralAt(types, q, i) {
      assert IntegralAt(types, p, i);
      if i !in booleans { assert Contains(box0.iv[i], p(i)); }
    }
  }

  /** An unsat core found after fixing the Boolean dimensions is a clause that
      every candidate of the original box satisfies. */
  lemma CoreIsAvoided(types: seq<VarType>, box0: Box, box: Box, atoms: set<Formula>, m: map<Formula, bool>,
                      E: set<Formula>, p: Point)
    requires SameOffBooleans(box, box0, types) && UnsatCore(types, box, E) && E <= LiteralSet(m)
    requires forall a | a in m :: a in atoms && (a.Rel? || a.Forall?)
    requires forall f | f in LiteralSet(m) :: NoBooleans(f, types)
    requires Candidate(types, box0, atoms, p)
    ensures Avoids(TruthSet(atoms, p), E)
  {
    var q := MoveBooleans(types, box0, box, p);
    var e :| e in E && !Obeys(e, q);
    var a :| a in m && e == LiteralOf(a, m[a]);
    ObeysCoincides(e, p, q);
    LiteralAtPoint(a, m[a], atoms, p);
    assert !Abs(e, TruthSet(atoms, p));
  }

  lemma LiteralAtPoint(a: Formula, value: bool, atoms: set<Formula>, p: Point)
    requires a in atoms && (a.Rel? || a.Forall?)
    ensures Abs(LiteralOf(a, value), TruthSet(atoms, p)) <==> Holds(LiteralOf(a, value), p)
  {
    AbsAtPoint(a, atoms, p);
  }

  /** An explanation made of literals of the current model blocks every
      assignment that extends the model. */
  lemma ExplanationBlocksModel(m: SatModel, atoms: set<Formula>, E: set<Formula>, T: set<Formula>)
    requires Extends(m, T) && E <= LiteralSet(m.theory)
    requires forall a | a in m.theory :: a.Rel? || a.Forall?
    ensures !Avoids(T, E)
  {
    forall e | e in E ensures Abs(e, T) {
      var a :| a in m.theory && e == LiteralOf(a, m.theory[a]);
      assert Abs(a, T) <==> a in T;
    }
  }

  /** A model that assigns every atom decides the stack: wherever its literals
      hold and the Boolean variables have their values, the whole stack holds. */
  lemma FullModelDecides(m: SatModel, stack: seq<Formula>, atoms: set<Formula>, learned: seq<set<Formula>>, p: Point,
                         types: seq<VarType>, utypes: Formula -> seq<VarType>)
    requires m.full && AnswerOk(Some(m), stack, atoms, learned, true) && StackOk(stack, atoms, types, utypes)
    requires forall f | f in LiteralSet(m.theory) :: Holds(f, p)
    requires forall b | b in m.booleans :: m.booleans[b] <==> p(b) != 0.0
    ensures AllTrue(stack, p)
  {
    var T :| T <= atoms && Extends(m, T) && Satisfies(T, stack, learned);
    assert T == TruthSet(atoms, p) by {
      forall a | a in atoms ensures a in T <==> Holds(a, p) {
        if !a.BoolVar? { assert LiteralOf(a, m.theory[a]) in LiteralSet(m.theory); }
      }
    }
    AbsAllAtPoint(stack, atoms, p);
  }

  /** The atom has the truth that `T` gives it, with `d` to spare. */
  ghost predicate AtomShifted(a: Formula, T: set<Formula>, d: real, p: Point) {
    IsPlain(a) && if a in T then Holds(Shift(a, -d), p) else !Holds(Shift(a, d), p)
  }

  /** What is true under an assignment holds weakened, and what is false does not
      hold strengthened, when that is so of the atoms. */
  lemma {:induction false} ModelShifts(f: Formula, T: set<Formula>, d: real, p: Point)
    requires QuantifierFree(f) && d > 0.0 && forall a | a in AtomsOf(f) :: AtomShifted(a, T, d, p)
    ensures IsPlain(f)
    ensures Abs(f, T) ==> Holds(Shift(f, -d), p)
    ensures !Abs(f, T) ==> !Holds(Shift(f, d), p)
  {
    match f
    case Not(g) =>
      ModelShifts(g, T, d, p);
      MkNotMeaning(Shift(g, d), p);
      MkNotMeaning(Shift(g, -d), p);
    case And(fs) =>
      OperandsShift(fs, T, d, p);
      MkAndMeaning(ShiftAll(fs, -d), p);
      MkAndMeaning(ShiftAll(fs, d), p);
    case Or(fs) =>
      OperandsShift(fs, T, d, p);
      MkOrMeaning(ShiftAll(fs, -d), p);
      MkOrMeaning(ShiftAll(fs, d), p);
    case True =>
    case False =>
    case Rel(_, _, _) => assert f in AtomsOf(f);
    case BoolVar(_) => assert f in AtomsOf(f);
    case Forall(_, _) =>
  }

  lemma {:induction false} OperandsShift(fs: seq<Formula>, T: set<Formula>, d: real, p: Point)
    requires d > 0.0 && forall i | 0 <= i < |fs| ::
               QuantifierFree(fs[i]) && forall a | a in AtomsOf(fs[i]) :: AtomShifted(a, T, d, p)
    ensures AllPlain(fs)
    ensures forall i | 0 <= i < |fs| ::
              (Abs(fs[i], T) ==> Holds(ShiftAll(fs, -d)[i], p)) && (!Abs(fs[i], T) ==> !Holds(ShiftAll(fs, d)[i], p))
  {
    forall i | 0 <= i < |fs|
      ensures IsPlain(fs[i])
      ensures Abs(fs[i], T) ==> Holds(Shift(fs[i], -d), p)
      ensures !Abs(fs[i], T) ==> !Holds(Shift(fs[i], d), p)
    {
      ModelShifts(fs[i], T, d, p);
    }
  }

  /** Every relational literal of the model holds over the box, weakened. */
  ghost predicate LiteralsWeakened(m: SatModel, box: Box, d: real)
    requires d > 0.0
  {
    forall a | a in m.theory && a.Rel? :: Weakened(LiteralOf(a, m.theory[a]), box, d)
  }

  /** Every quantifier-free formula of the stack does. */
  ghost predicate StackWeakened(stack: seq<Formula>, box: Box, d: real)
    requires d > 0.0
  {
    forall f | f in stack && QuantifierFree(f) :: Weakened(f, box, d)
  }

  /** A model that assigns every atom decides the stack up to a margin: where its
      literals hold weakened, so does the stack. */
  lemma FullModelDecidesWeakened(m: SatModel, stack: seq<Formula>, atoms: set<Formula>, learned: seq<set<Formula>>,
                                 box: Box, d: real, types: seq<VarType>, utypes: Formula -> seq<VarType>)
    requires m.full && AnswerOk(Some(m), stack, atoms, learned, true) && StackOk(stack, atoms, types, utypes)
    requires d > 0.0 && BooleansSet(types, box, m.booleans) && LiteralsWeakened(m, box, d)
    ensures StackWeakened(stack, box, d)
  {
    var T :| T <= atoms && Extends(m, T) && Satisfies(T, stack, learned);
    forall f | f in stack && QuantifierFree(f) ensures Weakened(f, box, d) {
      var i :| 0 <= i < |stack| && stack[i] == f;
      assert Abs(stack[i], T);
      AtomsAreQuantifierFree(f);
      forall p | InBox(box, p) ensures IsPlain(f) && Holds(DeltaWeaken(f, d), p) {
        forall a | a in AtomsOf(f) ensures AtomShifted(a, T, d, p) {
          LiteralShifts(m, T, a, stack, atoms, box, d, p, types, utypes);
        }
        ModelShifts(f, T, d, p);
      }
      AtomsArePlain(f, stack, atoms, types, utypes);
    }
  }

  lemma LiteralShifts(m: SatModel, T: set<Formula>, a: Formula, stack: seq<Formula>, atoms: set<Formula>, box: Box,
                      d: real, p: Point, types: seq<VarType>, utypes: Formula -> seq<VarType>)
    requires m.full && Extends(m, T) && StackOk(stack, atoms, types, utypes)
    requires a in atoms && !a.Forall? && (if a.BoolVar? then a.b in m.booleans else a in m.theory)
    requires d > 0.0 && BooleansSet(types, box, m.booleans) && LiteralsWeakened(m, box, d) && InBox(box, p)
    ensures AtomShifted(a, T, d, p)
  {
    assert AtomOk(a, stack, types, utypes);
    if a.BoolVar? {
      BooleanValue(types, box, m.booleans, a.b, p);
    } else {
      assert Weakened(LiteralOf(a, m.theory[a]), box, d);
      if a !in T { MkNotMeaning(Shift(a, d), p); }
    }
  }

  lemma {:induction false} AtomsAreQuantifierFree(f: Formula)
    requires QuantifierFree(f)
    ensures forall a | a in AtomsOf(f) :: !a.Forall?
  {
    HasForallMeaning(f);
  }

  lemma {:induction false} AtomsArePlain(f: Formula, stack: seq<Formula>, atoms: set<Formula>, types: seq<VarType>,
                                         utypes: Formula -> seq<VarType>)
    requires QuantifierFree(f) && AtomsOf(f) <= atoms && StackOk(stack, atoms, types, utypes)
    ensures IsPlain(f)
  {
    match f
    case Not(g) => AtomsArePlain(g, stack, atoms, types, utypes);
    case And(fs) =>
      forall i | 0 <= i < |fs| ensures IsPlain(fs[i]) { AtomsArePlain(fs[i], stack, atoms, types, utypes); }
    case Or(fs) =>
      forall i | 0 <= i < |fs| ensures IsPlain(fs[i]) { AtomsArePlain(fs[i], stack, atoms, types, utypes); }
    case Rel(_, _, _) =>
      assert f in AtomsOf(f) && AtomOk(f, stack, types, utypes);
      InScopeVars(DifferenceOf(f), |types|);
      LiteralIsPlain(f);
    case _ =>
  }

  // ------------------------------------------------------------------ the loop

  /** The evidence for a positive verdict: a propositional model of the stack.
      Either it assigns every atom and its literals are certified on the box, or
      it has no theory literal; then the box satisfies the stack if the model
      assigns every atom, and need not otherwise. In the first case the stack
      holds weakened over the box if all literals do. */
  ghost predicate Evidence(fo: Foreign, types: seq<VarType>, utypes: Formula -> seq<VarType>, precision: real,
                           stack: seq<Formula>, atoms: set<Formula>, learned: seq<set<Formula>>, box: Box, m: SatModel)
  {
    && AnswerOk(Some(m), stack, atoms, learned, m.full)
    && if m.theory == map[] then m.full ==> SatisfiedOver(stack, box)
       else
         && m.full && Certified(fo, types, utypes, precision, m, box)
         && (precision > 0.0 && LiteralsWeakened(m, box, precision) ==> StackWeakened(stack, box, precision))
  }

  ghost predicate SatisfiedOver(stack: seq<Formula>, box: Box) {
    forall p | InBox(box, p) :: AllTrue(stack, p)
  }

  lemma BooleanValue(types: seq<VarType>, box: Box, booleans: map<nat, bool>, b: nat, p: Point)
    requires BooleansSet(types, box, booleans) && b in booleans && InBox(box, p)
    ensures booleans[b] <==> p(b) != 0.0
  {
    InDimension(box, p, b);
  }

  /** A model that assigns every atom and has no theory literal decides the
      stack over the whole box. */
  lemma FullModelCovers(m: SatModel, stack: seq<Formula>, atoms: set<Formula>, learned: seq<set<Formula>>, box: Box,
                        types: seq<VarType>, utypes: Formula -> seq<VarType>)
    requires m.full && m.theory == map[] && AnswerOk(Some(m), stack, atoms, learned, true)
    requires StackOk(stack, atoms, types, utypes) && BooleansSet(types, box, m.booleans)
    ensures SatisfiedOver(stack, box)
  {
    forall p | InBox(box, p) ensures AllTrue(stack, p) {
      FullModelCoversPoint(m, stack, atoms, learned, box, p, types, utypes);
    }
  }

  lemma FullModelCoversPoint(m: SatModel, stack: seq<Formula>, atoms: set<Formula>, learned: seq<set<Formula>>,
                             box: Box, p: Point, types: seq<VarType>, utypes: Formula -> seq<VarType>)
    requires m.full && m.theory == map[] && AnswerOk(Some(m), stack, atoms, learned, true)
    requires StackOk(stack, atoms, types, utypes) && BooleansSet(types, box, m.booleans) && InBox(box, p)
    ensures AllTrue(stack, p)
  {
    forall b | b in m.booleans ensures m.booleans[b] <==> p(b) != 0.0 { BooleanValue(types, box, m.booleans, b, p); }
    FullModelDecides(m, stack, atoms, learned, p, types, utypes);
  }

  ghost predicate Certified(fo: Foreign, types: seq<VarType>, utypes: Formula -> seq<VarType>, precision: real,
                            m: SatModel, box: Box)
  {
    exists fs :: SetOf(fs) == LiteralSet(m.theory) && CertifiedFor(fo, types, utypes, precision, fs, box)
  }

  /** Every candidate of the box that respects the clauses `first` respects the
      clauses `learned`. */
  ghost predicate ClausesHold(types: seq<VarType>, box: Box, atoms: set<Formula>, first: seq<set<Formula>>,
                              learned: seq<set<Formula>>) {
    forall p | Candidate(types, box, atoms, p) && AvoidsAll(TruthSet(atoms, p), first) ::
      AvoidsAll(TruthSet(atoms, p), learned)
  }

  /** No candidate of the box that respects the clauses `first` satisfies the
      stack. */
  ghost predicate NoCandidate(types: seq<VarType>, box: Box, atoms: set<Formula>, first: seq<set<Formula>>,
                              stack: seq<Formula>) {
    forall p | Candidate(types, box, atoms, p) && AvoidsAll(TruthSet(atoms, p), first) :: !AllTrue(stack, p)
  }

  /** What a theory check hands out: a box, an explanation, or neither when the search
      fails or is not finished. */
  datatype CheckResult = IsSat(model: Box) | IsUnsat(explanation: set<Formula>) | NoVerdict(verdict: Verdict)

  function VerdictOf(r: CheckResult): Verdict {
    match r
    case IsSat(_) => Satisfiable
    case IsUnsat(_) => Unsatisfiable
    case NoVerdict(verdict) => verdict
  }

  /** The result is drawn from the status that the run ends with. */
  ghost predicate DrawnFrom(s: Snapshot, r: CheckResult) {
    match r
    case IsSat(model) => model == s.box
    case IsUnsat(E) => IsExplanation(E, s.used, s.unsatWitness)
    case NoVerdict(verdict) => verdict.Failed? || verdict.Unfinished?
  }

  /** A check of the literals of the model over the box, sorted by their number of
      variables, has the result `r`: the box its run ends with, or the explanation
      generated from the records of the run. */
  ghost predicate TheoryCheck(fo: Foreign, types: seq<VarType>, utypes: Formula -> seq<VarType>, config: TheoryConfig,
                              m: SatModel, box: Box, r: CheckResult)
  {
    exists fs, s: Snapshot ::
      && Ascending(fs) && SetOf(fs) == LiteralSet(m.theory)
      && Answers(fo, types, utypes, config, box, fs, s, VerdictOf(r)) && DrawnFrom(s, r)
  }

  /** What a call of `CheckSatCore` reads and never changes. */
  datatype SmtEnv = SmtEnv(fo: Foreign, sat: (seq<set<Formula>>, bool) -> Option<SatModel>, types: seq<VarType>,
                           utypes: Formula -> seq<VarType>, config: TheoryConfig, alwaysFull: bool)

  /** The loop between two SAT answers: the clauses, how many answers have yet to be
      full models, how many will have to be after the next partial one, and the
      box. */
  datatype SmtState = SmtState(learned: seq<set<Formula>>, recent: nat, limit: nat, box: Box)

  /** The next answer of the SAT solver. */
  function AnswerAt(env: SmtEnv, x: SmtState): Option<SatModel> {
    env.sat(x.learned, env.alwaysFull || x.recent > 0)
  }

  /** The next answer is `m`, and the check of its literals over the box, whose
      Boolean dimensions are set, has the result `r`. */
  ghost predicate SmtCheck(env: SmtEnv, x: SmtState, m: SatModel, r: CheckResult) {
    && AnswerAt(env, x) == Some(m) && m.theory != map[] && x.box.Box?
    && TheoryCheck(env.fo, env.types, env.utypes, env.config, m, WithBooleans(x.box, m.booleans), r)
  }

  /** The state after a round that does not end the loop: the explanation is learned;
      or full models are asked for, twice as often as the last time. */
  function NextState(x: SmtState, m: SatModel, r: CheckResult): SmtState
    requires x.box.Box?
  {
    var box := WithBooleans(x.box, m.booleans);
    if r.IsUnsat? then
      SmtState(x.learned + [r.explanation], if x.recent > 0 then x.recent - 1 else 0, x.limit, box)
    else SmtState(x.learned, x.limit, 2 * x.limit, box)
  }

  /** A round that does not end the loop: a negative check, or a positive one of a
      partial model. */
  ghost predicate SmtRound(env: SmtEnv, x: SmtState, y: SmtState) {
    exists m, r ::
      SmtCheck(env, x, m, r) && (r.IsUnsat? || (r.IsSat? && !m.full)) && y == NextState(x, m, r)
  }

  /** The last round: no answer, a model without theory literals, which is returned
      unchecked, a full model whose check is positive, or a check that fails. */
  ghost predicate SmtEnds(env: SmtEnv, x: SmtState, verdict: Verdict, model: Box, m: SatModel) {
    match AnswerAt(env, x)
    case None => verdict == Unsatisfiable
    case Some(answer) =>
      && x.box.Box? && (verdict.Satisfiable? ==> m == answer)
      && if answer.theory == map[] then verdict == Satisfiable && model == WithBooleans(x.box, answer.booleans)
         else exists r :: SmtCheck(env, x, answer, r) && LastResult(r, answer, verdict, model)
  }

  /** The result of the last check gives the verdict. */
  predicate LastResult(r: CheckResult, m: SatModel, verdict: Verdict, model: Box) {
    match r
    case IsSat(found) => m.full && verdict == Satisfiable && model == found
    case IsUnsat(_) => false
    case NoVerdict(outcome) => verdict == outcome && !outcome.Satisfiable? && !outcome.Unsatisfiable?
  }

  /** The rounds of a loop: those after which it goes on, and those that end it. */
  datatype Loop = Loop(round: (SmtState, SmtState) -> bool, ends: (SmtState, Verdict, Box, SatModel) -> bool)

  ghost predicate Rounds(loop: Loop, n: nat, x: SmtState, y: SmtState) {
    if n == 0 then y == x else exists z: SmtState :: loop.round(x, z) && Rounds(loop, n - 1, z, y)
  }

  /** The loop leads from `x` to the verdict and leaves these clauses and counters. */
  ghost predicate Runs(loop: Loop, x: SmtState, learned: seq<set<Formula>>, recent: nat, limit: nat, verdict: Verdict,
                       model: Box, m: SatModel)
  {
    exists n: nat, z: SmtState ::
      && Rounds(loop, n, x, z) && loop.ends(z, verdict, model, m)
      && z.learned == learned && z.recent == recent && z.limit == limit
  }

  /** `loop` has all rounds of the loop of `CheckSatCore`; `SmtLoop` has no others. */
  ghost predicate LoopFor(loop: Loop, env: SmtEnv) {
    && (forall x, y {:trigger SmtRound(env, x, y)} :: SmtRound(env, x, y) ==> loop.round(x, y))
    && (forall x, verdict, model, m {:trigger SmtEnds(env, x, verdict, model, m)} ::
          SmtEnds(env, x, verdict, model, m) ==> loop.ends(x, verdict, model, m))
  }

  ghost function SmtLoop(env: SmtEnv): (loop: Loop)
    ensures LoopFor(loop, env)
  {
    Loop((x: SmtState, y: SmtState) => SmtRound(env, x, y),
         (x: SmtState, verdict: Verdict, model: Box, m: SatModel) => SmtEnds(env, x, verdict, model, m))
  }

  /** The box lies in the one that was asked about, except in the Boolean
      dimensions, which have the values of the propositional model. */
  ghost predicate Inside(types: seq<VarType>, box0: Box, model: Box, booleans: map<nat, bool>) {
    && ValidBox(box0, |types|) && box0.Box? && BooleansSet(types, model, booleans)
    && forall i | 0 <= i < |types| && types[i] != BOOLEAN :: Within(model.iv[i], box0.iv[i])
  }

  predicate Trivial(stack: seq<Formula>) {
    stack == [] || stack == [True]
  }

  class Context {
    const theory: TheorySolver
    const alwaysFull: bool
    /** The clauses learned so far; they outlive a call of `CheckSatCore`. */
    var learned: seq<set<Formula>>
    var recentUnderConstrained: nat
    var underConstrainedLimit: nat

    constructor (theory: TheorySolver, alwaysFull: bool)
      ensures this.theory == theory && this.alwaysFull == alwaysFull && learned == []
      ensures underConstrainedLimit > 0
    {
      this.theory := theory;
      this.alwaysFull := alwaysFull;
      learned, recentUnderConstrained, underConstrainedLimit := [], 0, 2;
    }

    /** The state of the loop at a box. */
    ghost function At(box: Box): SmtState
      reads this
    {
      SmtState(learned, recentUnderConstrained, underConstrainedLimit, box)
    }

    /** What the theory solver hands out with a verdict. */
    ghost function ResultOf(verdict: Verdict): CheckResult
      reads theory
    {
      match verdict
      case Satisfiable => IsSat(theory.model)
      case Unsatisfiable => IsUnsat(theory.explanation)
      case _ => NoVerdict(verdict)
    }

    /** `CheckSatCore`. A negative verdict means that no candidate of the box that
        respects the clauses learned in earlier calls satisfies the stack, and
        what is learned holds for all such candidates. A positive one comes with
        a box, which lies in the one that was asked about, and a propositional
        model `m` as evidence. Clauses, counters, verdict and box are those of a
        run of the loop. When the first answer of the SAT solver has no theory
        literal, it is the verdict. */
    method CheckSatCore(fo: Foreign, sat: (seq<set<Formula>>, bool) -> Option<SatModel>, types: seq<VarType>,
                        utypes: Formula -> seq<VarType>, stack: seq<Formula>, ghost atoms: set<Formula>,
                        ghost loop: Loop, box0: Box)
      returns (verdict: Verdict, model: Box, ghost m: SatModel)
      requires SoundForeign(fo) && SoundSat(sat, stack, atoms) && ValidTheoryConfig(theory.config, types)
      requires LoopFor(loop, SmtEnv(fo, sat, types, utypes, theory.config, alwaysFull))
      requires StackOk(stack, atoms, types, utypes) && ValidBox(box0, |types|) && underConstrainedLimit > 0
      modifies this, theory
      ensures old(learned) <= learned && underConstrainedLimit > 0
      ensures ClausesHold(types, box0, atoms, old(learned), learned)
      ensures verdict.Unsatisfiable? ==> NoCandidate(types, box0, atoms, old(learned), stack)
      ensures verdict.Satisfiable? ==> model.Box? && ValidBox(model, |types|)
      ensures verdict.Satisfiable? ==> Inside(types, box0, model, m.booleans)
      ensures verdict.Satisfiable? && !Trivial(stack) ==>
                Evidence(fo, types, utypes, theory.config.precision, stack, atoms, learned, model, m)
      ensures Explained(theory.config, types, verdict)
      ensures box0.Box? && False !in stack && !Trivial(stack) ==>
                Runs(loop, old(At(box0)), learned, recentUnderConstrained, underConstrainedLimit, verdict, model, m)
      ensures box0.NoPoints? || False in stack ==> verdict == Unsatisfiable && At(box0) == old(At(box0))
      ensures box0.Box? && False !in stack && Trivial(stack) ==>
                verdict == Satisfiable && model == box0 && At(box0) == old(At(box0))
      ensures box0.Box? && False !in stack && !Trivial(stack) &&
              WithoutTheory(sat(old(learned), alwaysFull || old(recentUnderConstrained) > 0)) ==>
                verdict.Satisfiable? && SameOffBooleans(model, box0, types)
      decreases |Remaining(atoms, learned)|, if recentUnderConstrained == 0 then 2 else 0, 5
    {
      m, model := SatModel(map[], map[], false), NoPoints;
      if box0.NoPoints? { return Unsatisfiable, model, m; }
      if False in stack {
        FalseIsUnsat(stack);
        return Unsatisfiable, model, m;
      }
      if Trivial(stack) { return Satisfiable, box0, m; }
      verdict, model, m := Cycle(fo, sat, types, utypes, stack, atoms, loop, box0);
    }

    /** The loop of `CheckSatCore`: SAT answers and theory checks in turn. */
    method Cycle(fo: Foreign, sat: (seq<set<Formula>>, bool) -> Option<SatModel>, types: seq<VarType>,
                 utypes: Formula -> seq<VarType>, stack: seq<Formula>, ghost atoms: set<Formula>, ghost loop: Loop,
                 box0: Box)
      returns (verdict: Verdict, model: Box, ghost m: SatModel)
      requires SoundForeign(fo) && SoundSat(sat, stack, atoms) && ValidTheoryConfig(theory.config, types)
      requires LoopFor(loop, SmtEnv(fo, sat, types, utypes, theory.config, alwaysFull))
      requires StackOk(stack, atoms, types, utypes) && box0.Box? && ValidBox(box0, |types|) && underConstrainedLimit > 0
      requires !Trivial(stack) && False !in stack
      modifies this, theory
      ensures old(learned) <= learned && underConstrainedLimit > 0
      ensures ClausesHold(types, box0, atoms, old(learned), learned)
      ensures verdict.Unsatisfiable? ==> NoCandidate(types, box0, atoms, old(learned), stack)
      ensures verdict.Satisfiable? ==>
                && model.Box? && ValidBox(model, |types|) && Inside(types, box0, model, m.booleans)
                && Evidence(fo, types, utypes, theory.config.precision, stack, atoms, learned, model, m)
      ensures Explained(theory.config, types, verdict)
      ensures Runs(loop, old(At(box0)), learned, recentUnderConstrained, underConstrainedLimit, verdict, model, m)
      ensures WithoutTheory(sat(old(learned), alwaysFull || old(recentUnderConstrained) > 0)) ==>
                verdict.Satisfiable? && SameOffBooleans(model, box0, types)
      decreases |Remaining(atoms, learned)|, if recentUnderConstrained == 0 then 2 else 0, 4
    {
      verdict, model, m := Unfinished, NoPoints, SatModel(map[], map[], false);
      var box, done := box0, false;
      ghost var x, n := At(box0), 0;
      ghost var outright := WithoutTheory(sat(learned, alwaysFull || recentUnderConstrained > 0));
      while !done
        invariant !done ==> CycleInv(sat, types, atoms, loop, n, outright, x, At(box))
        invariant done ==> CycleEnd(fo, types, utypes, stack, atoms, loop, outright, x, box0, verdict, model, m)
        decreases !done, |Remaining(atoms, learned)|
      {
        done, verdict, model, m, box, n := NextRound(fo, sat, types, utypes, stack, atoms, loop, n, outright, x, box);
      }
    }

    /** What the loop maintains, `n` rounds after the state `x`. */
    ghost predicate CycleInv(sat: (seq<set<Formula>>, bool) -> Option<SatModel>, types: seq<VarType>,
                             atoms: set<Formula>, loop: Loop, n: nat, outright: bool, x: SmtState, y: SmtState)
    {
      && SameOffBooleans(y.box, x.box, types) && x.learned <= y.learned && y.limit > 0
      && ClausesHold(types, x.box, atoms, x.learned, y.learned) && Rounds(loop, n, x, y)
      && (|Remaining(atoms, y.learned)| < |Remaining(atoms, x.learned)| || y.(box := x.box) == x)
      && (outright ==> WithoutTheory(sat(y.learned, alwaysFull || y.recent > 0)))
    }

    /** What it leaves. */
    ghost predicate CycleEnd(fo: Foreign, types: seq<VarType>, utypes: Formula -> seq<VarType>, stack: seq<Formula>,
                             atoms: set<Formula>, loop: Loop, outright: bool, x: SmtState, box0: Box, verdict: Verdict,
                             model: Box, m: SatModel)
      reads this
    {
      && x.learned <= learned && underConstrainedLimit > 0 && ClausesHold(types, box0, atoms, x.learned, learned)
      && (verdict.Unsatisfiable? ==> NoCandidate(types, box0, atoms, x.learned, stack))
      && (verdict.Satisfiable? ==>
            && model.Box? && ValidBox(model, |types|) && Inside(types, box0, model, m.booleans)
            && Evidence(fo, types, utypes, theory.config.precision, stack, atoms, learned, model, m))
      && Explained(theory.config, types, verdict)
      && Runs(loop, x, learned, recentUnderConstrained, underConstrainedLimit, verdict, model, m)
      && (outright ==> verdict.Satisfiable? && SameOffBooleans(model, box0, types))
    }

    /** A round after `n` others. */
    method NextRound(fo: Foreign, sat: (seq<set<Formula>>, bool) -> Option<SatModel>, types: seq<VarType>,
                     utypes: Formula -> seq<VarType>, stack: seq<Formula>, ghost atoms: set<Formula>,
                     ghost loop: Loop, ghost n: nat, ghost outright: bool, ghost x: SmtState, box: Box)
      returns (done: bool, verdict: Verdict, model: Box, ghost m: SatModel, box': Box, ghost n': nat)
      requires SoundForeign(fo) && SoundSat(sat, stack, atoms) && ValidTheoryConfig(theory.config, types)
      requires LoopFor(loop, SmtEnv(fo, sat, types, utypes, theory.config, alwaysFull))
      requires StackOk(stack, atoms, types, utypes) && !Trivial(stack) && False !in stack
      requires CycleInv(sat, types, atoms, loop, n, outright, x, At(box))
      modifies this, theory
      ensures done ==> CycleEnd(fo, types, utypes, stack, atoms, loop, outright, x, x.box, verdict, model, m)
      ensures !done ==> CycleInv(sat, types, atoms, loop, n', outright, x, At(box'))
      ensures !done ==> |Remaining(atoms, learned)| < |Remaining(atoms, old(learned))|
      decreases |Remaining(atoms, learned)|, if recentUnderConstrained == 0 then 2 else 0, 3
    {
      ghost var y := At(box);
      done, verdict, model, m, box' := Round(fo, sat, types, utypes, stack, atoms, loop, x.box, box, x.learned);
      n' := n + 1;
      if done {
        RunContinues(loop, n, x, y, learned, recentUnderConstrained, underConstrainedLimit, verdict, model, m);
      } else {
        RoundsAppend(loop, n, x, y, At(box'));
      }
    }

    /** One round of the loop: a SAT answer, and the theory check of its literals. */
    method Round(fo: Foreign, sat: (seq<set<Formula>>, bool) -> Option<SatModel>, types: seq<VarType>,
                 utypes: Formula -> seq<VarType>, stack: seq<Formula>, ghost atoms: set<Formula>, ghost loop: Loop,
                 ghost box0: Box, box: Box, ghost first: seq<set<Formula>>)
      returns (done: bool, verdict: Verdict, model: Box, ghost m: SatModel, box': Box)
      requires SoundForeign(fo) && SoundSat(sat, stack, atoms) && ValidTheoryConfig(theory.config, types)
      requires LoopFor(loop, SmtEnv(fo, sat, types, utypes, theory.config, alwaysFull))
      requires StackOk(stack, atoms, types, utypes) && SameOffBooleans(box, box0, types) && underConstrainedLimit > 0
      requires !Trivial(stack) && False !in stack && ClausesHold(types, box0, atoms, first, learned)
      modifies this, theory
      ensures old(learned) <= learned && underConstrainedLimit > 0 && SameOffBooleans(box', box0, types)
      ensures ClausesHold(types, box0, atoms, first, learned)
      ensures done && verdict.Unsatisfiable? ==> NoCandidate(types, box0, atoms, first, stack)
      ensures done && verdict.Satisfiable? ==>
                && model.Box? && ValidBox(model, |types|) && Inside(types, box0, model, m.booleans)
                && Evidence(fo, types, utypes, theory.config.precision, stack, atoms, learned, model, m)
      ensures done ==> Explained(theory.config, types, verdict)
      ensures !done ==> |Remaining(atoms, learned)| < |Remaining(atoms, old(learned))|
      ensures done ==>
                Runs(loop, old(At(box)), learned, recentUnderConstrained, underConstrainedLimit, verdict, model, m)
      ensures !done ==> loop.round(old(At(box)), At(box'))
      ensures WithoutTheory(sat(old(learned), alwaysFull || old(recentUnderConstrained) > 0)) ==>
                done && verdict.Satisfiable? && SameOffBooleans(model, box0, types)
      decreases |Remaining(atoms, learned)|, if recentUnderConstrained == 0 then 2 else 0, 2
    {
      m, model, box', done := SatModel(map[], map[], false), NoPoints, box, true;
      var requestFull := alwaysFull || recentUnderConstrained > 0;
      var answer := sat(learned, requestFull);
      assert AnswerOk(answer, stack, atoms, learned, requestFull);
      if answer.None? {
        NoAssignmentNoModel(types, box0, stack, atoms, learned, requestFull);
        verdict := Unsatisfiable;
        EndsAtOnce(loop, SmtEnv(fo, sat, types, utypes, theory.config, alwaysFull), At(box), verdict, model, m);
        return;
      }
      var proposed := answer.value;
      BooleansInScope(proposed, stack, atoms, learned, requestFull, types, utypes);
      box' := SetBooleans(types, box, proposed.booleans);
      if proposed.theory == map[] {
        SetBoxIsModel(fo, types, utypes, theory.config.precision, stack, atoms, box0, learned, requestFull, proposed,
                      box');
        verdict, model, m := Satisfiable, box', proposed;
        EndsAtOnce(loop, SmtEnv(fo, sat, types, utypes, theory.config, alwaysFull), At(box), verdict, model, m);
        return;
      }
      done, verdict, model, m :=
        TheoryTurn(fo, sat, types, utypes, stack, atoms, loop, box0, box, box', first, requestFull, proposed);
    }

    /** Checks a model with theory literals: either this gives the verdict, or an
        explanation is learned. */
    method TheoryTurn(fo: Foreign, sat: (seq<set<Formula>>, bool) -> Option<SatModel>, types: seq<VarType>,
                      utypes: Formula -> seq<VarType>, stack: seq<Formula>, ghost atoms: set<Formula>,
                      ghost loop: Loop, ghost box0: Box, ghost before: Box, box: Box, ghost first: seq<set<Formula>>,
                      requestFull: bool, proposed: SatModel)
      returns (done: bool, verdict: Verdict, model: Box, ghost m: SatModel)
      requires SoundForeign(fo) && SoundSat(sat, stack, atoms) && ValidTheoryConfig(theory.config, types)
      requires LoopFor(loop, SmtEnv(fo, sat, types, utypes, theory.config, alwaysFull))
      requires StackOk(stack, atoms, types, utypes) && SameOffBooleans(box, box0, types) && underConstrainedLimit > 0
      requires !Trivial(stack) && False !in stack && ClausesHold(types, box0, atoms, first, learned)
      requires requestFull == (alwaysFull || recentUnderConstrained > 0) && proposed.theory != map[]
      requires AnswerOk(Some(proposed), stack, atoms, learned, requestFull)
      requires sat(learned, requestFull) == Some(proposed) && BooleansSet(types, box, proposed.booleans)
      requires before.Box? && box == WithBooleans(before, proposed.booleans)
      modifies this, theory
      ensures old(learned) <= learned && underConstrainedLimit > 0
      ensures ClausesHold(types, box0, atoms, first, learned)
      ensures done && verdict.Unsatisfiable? ==> NoCandidate(types, box0, atoms, first, stack)
      ensures done && verdict.Satisfiable? ==>
                && model.Box? && ValidBox(model, |types|) && Inside(types, box0, model, m.booleans)
                && Evidence(fo, types, utypes, theory.config.precision, stack, atoms, learned, model, m)
      ensures done ==> Explained(theory.config, types, verdict)
      ensures done ==>
                Runs(loop, old(At(before)), learned, recentUnderConstrained, underConstrainedLimit, verdict, model, m)
      ensures !done ==> loop.round(old(At(before)), At(box))
      ensures !done ==> |Remaining(atoms, learned)| < |Remaining(atoms, old(learned))|
      decreases |Remaining(atoms, learned)|, if recentUnderConstrained == 0 then 2 else 0, 1
    {
      m, model, done := proposed, NoPoints, true;
      ghost var env, x := SmtEnv(fo, sat, types, utypes, theory.config, alwaysFull), At(before);
      verdict := CheckTheory(fo, types, utypes, stack, atoms, learned, requestFull, proposed, box);
      if verdict.Unsatisfiable? {
        ghost var r := ResultOf(verdict);
        Learn(types, utypes, stack, atoms, box0, box, first, requestFull, proposed);
        done := false;
        RoundTaken(loop, env, x, At(box), proposed, r);
      } else {
        verdict, model, m :=
          Decide(fo, sat, types, utypes, stack, atoms, loop, env, x, box0, box, first, proposed, verdict);
      }
    }

    /** What follows a theory check that is not negative: full models are asked for
        when the model was a partial one, else the loop ends. */
    method Decide(fo: Foreign, sat: (seq<set<Formula>>, bool) -> Option<SatModel>, types: seq<VarType>,
                  utypes: Formula -> seq<VarType>, stack: seq<Formula>, ghost atoms: set<Formula>, ghost loop: Loop,
                  ghost env: SmtEnv, ghost x: SmtState, ghost box0: Box, box: Box, ghost first: seq<set<Formula>>,
                  proposed: SatModel, checked: Verdict)
      returns (verdict: Verdict, model: Box, ghost m: SatModel)
      requires SoundForeign(fo) && SoundSat(sat, stack, atoms) && ValidTheoryConfig(theory.config, types)
      requires env == SmtEnv(fo, sat, types, utypes, theory.config, alwaysFull) && LoopFor(loop, env)
      requires StackOk(stack, atoms, types, utypes) && SameOffBooleans(box, box0, types) && underConstrainedLimit > 0
      requires !Trivial(stack) && False !in stack && ClausesHold(types, box0, atoms, first, learned)
      requires AnswerOk(Some(proposed), stack, atoms, learned, proposed.full)
      requires BooleansSet(types, box, proposed.booleans)
      requires !checked.Unsatisfiable? && SmtCheck(env, x, proposed, ResultOf(checked))
      requires x.box.Box? && At(box) == x.(box := box) && box == WithBooleans(x.box, proposed.booleans)
      requires checked.Satisfiable? ==>
                 && theory.model.Box? && ValidBox(theory.model, |types|) && SubBox(theory.model, box)
                 && Certified(fo, types, utypes, theory.config.precision, proposed, theory.model)
      requires Explained(theory.config, types, checked)
      modifies this, theory
      ensures old(learned) <= learned && underConstrainedLimit > 0
      ensures ClausesHold(types, box0, atoms, first, learned)
      ensures verdict.Unsatisfiable? ==> NoCandidate(types, box0, atoms, first, stack)
      ensures verdict.Satisfiable? ==>
                && model.Box? && ValidBox(model, |types|) && Inside(types, box0, model, m.booleans)
                && Evidence(fo, types, utypes, theory.config.precision, stack, atoms, learned, model, m)
      ensures Explained(theory.config, types, verdict)
      ensures Runs(loop, x, learned, recentUnderConstrained, underConstrainedLimit, verdict, model, m)
      decreases |Remaining(atoms, learned)|, if recentUnderConstrained == 0 then 2 else 0, 0
    {
      if checked.Satisfiable? && !proposed.full {
        ghost var r := ResultOf(checked);
        RoundTaken(loop, env, x, NextState(x, proposed, r), proposed, r);
        verdict, model, m := AskForFull(fo, sat, types, utypes, stack, atoms, loop, x, box0, box, first);
      } else {
        verdict, m := checked, proposed;
        model := Settle(fo, types, utypes, stack, atoms, loop, env, x, box0, box, proposed, verdict);
      }
    }

    /** The loop ends with the last theory check. */
    method Settle(ghost fo: Foreign, ghost types: seq<VarType>, ghost utypes: Formula -> seq<VarType>,
                  ghost stack: seq<Formula>, ghost atoms: set<Formula>, ghost loop: Loop, ghost env: SmtEnv,
                  ghost x: SmtState, ghost box0: Box, ghost box: Box, ghost m: SatModel, verdict: Verdict)
      returns (model: Box)
      requires LoopFor(loop, env) && SmtCheck(env, x, m, ResultOf(verdict))
      requires !verdict.Unsatisfiable? && (verdict.Satisfiable? ==> m.full)
      requires StackOk(stack, atoms, types, utypes) && AnswerOk(Some(m), stack, atoms, learned, m.full)
      requires SameOffBooleans(box, box0, types) && BooleansSet(types, box, m.booleans) && theory.config.precision > 0.0
      requires verdict.Satisfiable? ==>
                 && theory.model.Box? && ValidBox(theory.model, |types|) && SubBox(theory.model, box)
                 && Certified(fo, types, utypes, theory.config.precision, m, theory.model)
      ensures verdict.Satisfiable? ==>
                && model.Box? && ValidBox(model, |types|) && Inside(types, box0, model, m.booleans)
                && Evidence(fo, types, utypes, theory.config.precision, stack, atoms, learned, model, m)
      ensures Runs(loop, x, x.learned, x.recent, x.limit, verdict, model, m)
    {
      model := NoPoints;
      if verdict.Satisfiable? {
        model := theory.model;
        FoundIsEvidence(fo, types, utypes, theory.config.precision, stack, atoms, learned, m, box0, box, model);
      }
      EndsWithCheck(loop, env, x, verdict, model, m, ResultOf(verdict));
    }

    /** Learns the explanation of the last theory check. */
    method Learn(ghost types: seq<VarType>, ghost utypes: Formula -> seq<VarType>, ghost stack: seq<Formula>,
                 ghost atoms: set<Formula>, ghost box0: Box, ghost box: Box, ghost first: seq<set<Formula>>,
                 ghost full: bool, ghost m: SatModel)
      requires StackOk(stack, atoms, types, utypes) && SameOffBooleans(box, box0, types)
      requires ClausesHold(types, box0, atoms, first, learned) && AnswerOk(Some(m), stack, atoms, learned, full)
      requires theory.explanation <= LiteralSet(m.theory) && UnsatCore(types, box, theory.explanation)
      requires forall f | f in LiteralSet(m.theory) :: NoBooleans(f, types)
      modifies this`learned, this`recentUnderConstrained
      ensures learned == old(learned) + [theory.explanation]
      ensures recentUnderConstrained == if old(recentUnderConstrained) > 0 then old(recentUnderConstrained) - 1 else 0
      ensures ClausesHold(types, box0, atoms, first, learned)
      ensures |Remaining(atoms, learned)| < |Remaining(atoms, old(learned))|
    {
      if recentUnderConstrained > 0 { recentUnderConstrained := recentUnderConstrained - 1; }
      LearnStep(types, box0, box, stack, atoms, learned, m, full, theory.explanation, first, utypes);
      learned := learned + [theory.explanation];
    }

    /** Asks for full models for a while, twice as long each time, and starts over
        with the Boolean dimensions as they stand. */
    method AskForFull(fo: Foreign, sat: (seq<set<Formula>>, bool) -> Option<SatModel>, types: seq<VarType>,
                      utypes: Formula -> seq<VarType>, stack: seq<Formula>, ghost atoms: set<Formula>,
                      ghost loop: Loop, ghost x: SmtState, ghost box0: Box, box: Box, ghost first: seq<set<Formula>>)
      returns (verdict: Verdict, model: Box, ghost m: SatModel)
      requires SoundForeign(fo) && SoundSat(sat, stack, atoms) && ValidTheoryConfig(theory.config, types)
      requires LoopFor(loop, SmtEnv(fo, sat, types, utypes, theory.config, alwaysFull))
      requires StackOk(stack, atoms, types, utypes) && SameOffBooleans(box, box0, types) && underConstrainedLimit > 0
      requires !Trivial(stack) && False !in stack && ClausesHold(types, box0, atoms, first, learned)
      requires Rounds(loop, 1, x, SmtState(learned, underConstrainedLimit, 2 * underConstrainedLimit, box))
      modifies this, theory
      ensures old(learned) <= learned && underConstrainedLimit > 0
      ensures ClausesHold(types, box0, atoms, first, learned)
      ensures verdict.Unsatisfiable? ==> NoCandidate(types, box0, atoms, first, stack)
      ensures verdict.Satisfiable? ==>
                && model.Box? && ValidBox(model, |types|) && Inside(types, box0, model, m.booleans)
                && Evidence(fo, types, utypes, theory.config.precision, stack, atoms, learned, model, m)
      ensures Explained(theory.config, types, verdict)
      ensures Runs(loop, x, learned, recentUnderConstrained, underConstrainedLimit, verdict, model, m)
      decreases |Remaining(atoms, learned)|, 1, 1
    {
      ghost var middle := learned;
      ghost var y := SmtState(learned, underConstrainedLimit, 2 * underConstrainedLimit, box);
      verdict, model, m := StartOver(fo, sat, types, utypes, stack, atoms, loop, box);
      SameCandidates(types, box0, box, stack, atoms, first, middle, learned);
      if verdict.Satisfiable? { InsideAsWell(types, box0, box, model, m.booleans); }
      RunContinues(loop, 1, x, y, learned, recentUnderConstrained, underConstrainedLimit, verdict, model, m);
    }

    method StartOver(fo: Foreign, sat: (seq<set<Formula>>, bool) -> Option<SatModel>, types: seq<VarType>,
                     utypes: Formula -> seq<VarType>, stack: seq<Formula>, ghost atoms: set<Formula>,
                     ghost loop: Loop, box: Box)
      returns (verdict: Verdict, model: Box, ghost m: SatModel)
      requires SoundForeign(fo) && SoundSat(sat, stack, atoms) && ValidTheoryConfig(theory.config, types)
      requires LoopFor(loop, SmtEnv(fo, sat, types, utypes, theory.config, alwaysFull))
      requires StackOk(stack, atoms, types, utypes) && box.Box? && ValidBox(box, |types|) && underConstrainedLimit > 0
      requires !Trivial(stack) && False !in stack
      modifies this, theory
      ensures old(learned) <= learned && underConstrainedLimit > 0
      ensures ClausesHold(types, box, atoms, old(learned), learned)
      ensures verdict.Unsatisfiable? ==> NoCandidate(types, box, atoms, old(learned), stack)
      ensures verdict.Satisfiable? ==>
                && model.Box? && ValidBox(model, |types|) && Inside(types, box, model, m.booleans)
                && Evidence(fo, types, utypes, theory.config.precision, stack, atoms, learned, model, m)
      ensures Explained(theory.config, types, verdict)
      ensures Runs(loop, SmtState(old(learned), old(underConstrainedLimit), 2 * old(underConstrainedLimit), box),
                   learned, recentUnderConstrained, underConstrainedLimit, verdict, model, m)
      decreases |Remaining(atoms, learned)|, 1, 0
    {
      ghost var first, x := learned, SmtState(learned, underConstrainedLimit, 2 * underConstrainedLimit, box);
      recentUnderConstrained := underConstrainedLimit;
      underConstrainedLimit := underConstrainedLimit * 2;
      assert learned == first && At(box) == x;
      verdict, model, m := CheckSatCore(fo, sat, types, utypes, stack, atoms, loop, box);
    }

    /** Checks the theory literals of a model. */
    method CheckTheory(fo: Foreign, types: seq<VarType>, utypes: Formula -> seq<VarType>, ghost stack: seq<Formula>,
                       ghost atoms: set<Formula>, ghost learned: seq<set<Formula>>, ghost requestFull: bool,
                       m: SatModel, box: Box)
      returns (verdict: Verdict)
      requires SoundForeign(fo) && ValidTheoryConfig(theory.config, types) && StackOk(stack, atoms, types, utypes)
      requires AnswerOk(Some(m), stack, atoms, learned, requestFull) && box.Box? && ValidBox(box, |types|)
      modifies theory
      ensures verdict.Satisfiable? ==>
                theory.model.Box? && ValidBox(theory.model, |types|) && SubBox(theory.model, box)
      ensures verdict.Satisfiable? ==> Certified(fo, types, utypes, theory.config.precision, m, theory.model)
      ensures verdict.Unsatisfiable? ==>
                theory.explanation <= LiteralSet(m.theory) && UnsatCore(types, box, theory.explanation)
      ensures Explained(theory.config, types, verdict)
      ensures forall f | f in LiteralSet(m.theory) :: NoBooleans(f, types)
      ensures TheoryCheck(fo, types, utypes, theory.config, m, box, ResultOf(verdict))
    {
      var literals := SortedLiterals(m.theory);
      LiteralsAreAssertions(m, literals, stack, atoms, learned, requestFull, types, utypes);
      assert forall f | f in LiteralSet(m.theory) :: f in SetOf(literals) && f in literals;
      verdict := theory.CheckSat(fo, types, utypes, box, literals);
      ghost var s: Snapshot :|
        && Answers(fo, types, utypes, theory.config, box, literals, s, verdict)
        && (verdict.Satisfiable? ==> theory.model == s.box)
        && (verdict.Unsatisfiable? ==> IsExplanation(theory.explanation, s.used, s.unsatWitness));
      CheckHasResult(fo, types, utypes, theory.config, m, box, literals, s, verdict, ResultOf(verdict));
    }
  }

  lemma InsideAsWell(types: seq<VarType>, box0: Box, box: Box, model: Box, booleans: map<nat, bool>)
    requires SameOffBooleans(box, box0, types) && Inside(types, box, model, booleans)
    ensures Inside(types, box0, model, booleans)
  {
  }

  // ------------------------------------------------------ runs of the loop

  lemma CheckHasResult(fo: Foreign, types: seq<VarType>, utypes: Formula -> seq<VarType>, config: TheoryConfig,
                       m: SatModel, box: Box, fs: seq<Formula>, s: Snapshot, verdict: Verdict, r: CheckResult)
    requires Ascending(fs) && SetOf(fs) == LiteralSet(m.theory)
    requires Answers(fo, types, utypes, config, box, fs, s, verdict)
    requires verdict == VerdictOf(r) && DrawnFrom(s, r)
    ensures TheoryCheck(fo, types, utypes, config, m, box, r)
  {
  }

  lemma {:induction false} RoundsAppend(loop: Loop, n: nat, x: SmtState, y: SmtState, z: SmtState)
    requires Rounds(loop, n, x, y) && loop.round(y, z)
    ensures Rounds(loop, n + 1, x, z)
  {
    if n == 0 {
      assert Rounds(loop, 0, z, z);
    } else {
      var w: SmtState :| loop.round(x, w) && Rounds(loop, n - 1, w, y);
      RoundsAppend(loop, n - 1, w, y, z);
    }
  }

  lemma {:induction false} RoundsJoin(loop: Loop, n: nat, k: nat, x: SmtState, y: SmtState, z: SmtState)
    requires Rounds(loop, n, x, y) && Rounds(loop, k, y, z)
    ensures Rounds(loop, n + k, x, z)
  {
    if n == 0 {
    } else {
      var w: SmtState :| loop.round(x, w) && Rounds(loop, n - 1, w, y);
      RoundsJoin(loop, n - 1, k, w, y, z);
    }
  }

  /** A run after some rounds is a run from the start. */
  lemma RunContinues(loop: Loop, n: nat, x: SmtState, y: SmtState, learned: seq<set<Formula>>, recent: nat, limit: nat,
                     verdict: Verdict, model: Box, m: SatModel)
    requires Rounds(loop, n, x, y) && Runs(loop, y, learned, recent, limit, verdict, model, m)
    ensures Runs(loop, x, learned, recent, limit, verdict, model, m)
  {
    var k: nat, z: SmtState :|
      && Rounds(loop, k, y, z) && loop.ends(z, verdict, model, m)
      && z.learned == learned && z.recent == recent && z.limit == limit;
    RoundsJoin(loop, n, k, x, y, z);
  }

  lemma EndsAtOnce(loop: Loop, env: SmtEnv, x: SmtState, verdict: Verdict, model: Box, m: SatModel)
    requires LoopFor(loop, env) && SmtEnds(env, x, verdict, model, m)
    ensures Runs(loop, x, x.learned, x.recent, x.limit, verdict, model, m)
  {
    assert Rounds(loop, 0, x, x);
  }

  lemma EndsWithCheck(loop: Loop, env: SmtEnv, x: SmtState, verdict: Verdict, model: Box, m: SatModel, r: CheckResult)
    requires LoopFor(loop, env) && SmtCheck(env, x, m, r) && LastResult(r, m, verdict, model)
    ensures Runs(loop, x, x.learned, x.recent, x.limit, verdict, model, m)
  {
    EndsAtOnce(loop, env, x, verdict, model, m);
  }

  lemma RoundTaken(loop: Loop, env: SmtEnv, x: SmtState, y: SmtState, m: SatModel, r: CheckResult)
    requires LoopFor(loop, env) && SmtCheck(env, x, m, r)
    requires (r.IsUnsat? || (r.IsSat? && !m.full)) && y == NextState(x, m, r)
    ensures loop.round(x, y) && Rounds(loop, 1, x, y)
  {
    assert SmtRound(env, x, y);
    OneRound(loop, x, y);
  }

  lemma OneRound(loop: Loop, x: SmtState, y: SmtState)
    requires loop.round(x, y)
    ensures Rounds(loop, 1, x, y)
  {
    RoundsAppend(loop, 0, x, x, y);
  }

  /** The boxes differ in Boolean dimensions only. */
  ghost predicate AlikeOffBooleans(types: seq<VarType>, a: Box, b: Box) {
    && a.Box? && b.Box? && |a.iv| == |b.iv| == |types|
    && forall i | 0 <= i < |types| && types[i] != BOOLEAN :: a.iv[i] == b.iv[i]
  }

  /** The clause is the explanation of a theory check of the box, the Boolean
      dimensions aside, that refutes the model proposed after the clauses `before`. */
  ghost predicate IsTheoryClause(env: SmtEnv, box: Box, before: seq<set<Formula>>, E: set<Formula>) {
    exists x: SmtState, m ::
      x.learned == before && AlikeOffBooleans(env.types, x.box, box) && SmtCheck(env, x, m, IsUnsat(E))
  }

  /** Answers set Boolean dimensions only. */
  ghost predicate SetsBooleans(env: SmtEnv) {
    forall learned, full | env.sat(learned, full).Some? ::
      forall b | b in env.sat(learned, full).value.booleans :: b < |env.types| && env.types[b] == BOOLEAN
  }

  lemma RoundIsAlike(env: SmtEnv, x: SmtState, y: SmtState, box: Box)
    requires SmtRound(env, x, y) && SetsBooleans(env) && AlikeOffBooleans(env.types, x.box, box)
    ensures AlikeOffBooleans(env.types, y.box, box) && x.learned <= y.learned
    ensures |y.learned| <= |x.learned| + 1
    ensures |y.learned| > |x.learned| ==> IsTheoryClause(env, box, x.learned, y.learned[|x.learned|])
  {
    var m, r :| SmtCheck(env, x, m, r) && (r.IsUnsat? || (r.IsSat? && !m.full)) && y == NextState(x, m, r);
    if r.IsUnsat? { assert SmtCheck(env, x, m, IsUnsat(y.learned[|x.learned|])); }
  }

  /** What each round learns, over a whole run. */
  lemma {:induction false} LearnedStepwise(loop: Loop, alike: SmtState -> bool,
                                           clause: (seq<set<Formula>>, set<Formula>) -> bool, n: nat, x: SmtState,
                                           y: SmtState)
    requires Rounds(loop, n, x, y) && alike(x)
    requires forall v, w | loop.round(v, w) && alike(v) ::
               && alike(w) && v.learned <= w.learned && |w.learned| <= |v.learned| + 1
               && (|w.learned| > |v.learned| ==> clause(v.learned, w.learned[|v.learned|]))
    ensures x.learned <= y.learned
    ensures forall i | |x.learned| <= i < |y.learned| :: clause(y.learned[..i], y.learned[i])
  {
    if n == 0 {
    } else {
      var z: SmtState :| loop.round(x, z) && Rounds(loop, n - 1, z, y);
      LearnedStepwise(loop, alike, clause, n - 1, z, y);
      forall i | |x.learned| <= i < |y.learned| ensures clause(y.learned[..i], y.learned[i]) {
        if i < |z.learned| { assert i == |x.learned| && y.learned[..i] == x.learned; }
      }
    }
  }

  /** Everything a run learns is such a clause: no round learns more than the
      generated explanation. */
  lemma LearnedAreExplanations(env: SmtEnv, n: nat, x: SmtState, y: SmtState, box: Box)
    requires Rounds(SmtLoop(env), n, x, y) && SetsBooleans(env) && AlikeOffBooleans(env.types, x.box, box)
    ensures x.learned <= y.learned
    ensures forall i | |x.learned| <= i < |y.learned| :: IsTheoryClause(env, box, y.learned[..i], y.learned[i])
  {
    var loop := SmtLoop(env);
    var alike := (v: SmtState) => AlikeOffBooleans(env.types, v.box, box);
    var clause := (before: seq<set<Formula>>, E: set<Formula>) => IsTheoryClause(env, box, before, E);
    forall v, w | loop.round(v, w) && alike(v)
      ensures alike(w) && v.learned <= w.learned && |w.learned| <= |v.learned| + 1
      ensures |w.learned| > |v.learned| ==> clause(v.learned, w.learned[|v.learned|])
    {
      RoundIsAlike(env, v, w, box);
    }
    LearnedStepwise(loop, alike, clause, n, x, y);
    forall i | |x.learned| <= i < |y.learned| ensures IsTheoryClause(env, box, y.learned[..i], y.learned[i]) {
      assert clause(y.learned[..i], y.learned[i]);
    }
  }

  /** The box with the Boolean dimensions set is a model without literals. */
  lemma SetBoxIsModel(fo: Foreign, types: seq<VarType>, utypes: Formula -> seq<VarType>, precision: real,
                      stack: seq<Formula>, atoms: set<Formula>, box0: Box, learned: seq<set<Formula>>, full: bool,
                      m: SatModel, box: Box)
    requires StackOk(stack, atoms, types, utypes) && AnswerOk(Some(m), stack, atoms, learned, full)
    requires m.theory == map[] && SameOffBooleans(box, box0, types) && BooleansSet(types, box, m.booleans)
    ensures Inside(types, box0, box, m.booleans)
    ensures Evidence(fo, types, utypes, precision, stack, atoms, learned, box, m)
  {
    if m.full { FullModelCovers(m, stack, atoms, learned, box, types, utypes); }
  }

  /** What a positive theory check of a full model finds is one. */
  lemma FoundIsEvidence(fo: Foreign, types: seq<VarType>, utypes: Formula -> seq<VarType>, precision: real,
                        stack: seq<Formula>, atoms: set<Formula>, learned: seq<set<Formula>>, m: SatModel, box0: Box,
                        box: Box, model: Box)
    requires StackOk(stack, atoms, types, utypes) && AnswerOk(Some(m), stack, atoms, learned, true)
    requires m.full && m.theory != map[] && precision > 0.0 && Certified(fo, types, utypes, precision, m, model)
    requires BooleansSet(types, box, m.booleans) && model.Box? && ValidBox(model, |types|) && SubBox(model, box)
    requires SameOffBooleans(box, box0, types)
    ensures Evidence(fo, types, utypes, precision, stack, atoms, learned, model, m)
    ensures Inside(types, box0, model, m.booleans)
  {
    FullModelWeakened(m, stack, atoms, learned, box, model, precision, types, utypes);
  }

  /** The Boolean dimensions keep their values in a box inside. */
  lemma FullModelWeakened(m: SatModel, stack: seq<Formula>, atoms: set<Formula>, learned: seq<set<Formula>>, box: Box,
                          model: Box, d: real, types: seq<VarType>, utypes: Formula -> seq<VarType>)
    requires m.full && AnswerOk(Some(m), stack, atoms, learned, true) && StackOk(stack, atoms, types, utypes)
    requires d > 0.0 && BooleansSet(types, box, m.booleans)
    requires model.Box? && ValidBox(model, |types|) && SubBox(model, box)
    ensures LiteralsWeakened(m, model, d) ==> StackWeakened(stack, model, d)
  {
    assert BooleansSet(types, model, m.booleans);
    if LiteralsWeakened(m, model, d) {
      FullModelDecidesWeakened(m, stack, atoms, learned, model, d, types, utypes);
    }
  }

  /** The SAT solver found a model without theory literals. */
  predicate WithoutTheory(answer: Option<SatModel>) {
    answer.Some? && answer.value.theory == map[]
  }

  lemma BooleansInScope(m: SatModel, stack: seq<Formula>, atoms: set<Formula>, learned: seq<set<Formula>>, full: bool,
                        types: seq<VarType>, utypes: Formula -> seq<VarType>)
    requires StackOk(stack, atoms, types, utypes) && AnswerOk(Some(m), stack, atoms, learned, full)
    ensures forall b | b in m.booleans :: b < |types| && types[b] == BOOLEAN
  {
    forall b | b in m.booleans ensures b < |types| && types[b] == BOOLEAN {
      assert AtomOk(BoolVar(b), stack, types, utypes);
    }
  }

  /** What a check over the box with other Boolean dimensions established. */
  lemma SameCandidates(types: seq<VarType>, box0: Box, box: Box, stack: seq<Formula>, atoms: set<Formula>,
                       first: seq<set<Formula>>, middle: seq<set<Formula>>, learned: seq<set<Formula>>)
    requires SameOffBooleans(box, box0, types)
    requires ClausesHold(types, box0, atoms, first, middle) && ClausesHold(types, box, atoms, middle, learned)
    ensures ClausesHold(types, box0, atoms, first, learned)
    ensures NoCandidate(types, box, atoms, middle, stack) ==> NoCandidate(types, box0, atoms, first, stack)
  {
    forall p | Candidate(types, box0, atoms, p) ensures Candidate(types, box, atoms, p) {
    }
  }

  lemma FalseIsUnsat(stack: seq<Formula>)
    requires False in stack
    ensures forall p :: !AllTrue(stack, p)
  {
    var i :| 0 <= i < |stack| && stack[i] == False;
    forall p ensures !AllTrue(stack, p) { assert !Holds(stack[i], p); }
  }

  lemma NoAssignmentNoModel(types: seq<VarType>, box: Box, stack: seq<Formula>, atoms: set<Formula>,
                            learned: seq<set<Formula>>, full: bool)
    requires forall f | f in stack :: AtomsOf(f) <= atoms
    requires AnswerOk(None, stack, atoms, learned, full)
    ensures NoCandidate(types, box, atoms, learned, stack)
  {
    forall p | Candidate(types, box, atoms, p) && AvoidsAll(TruthSet(atoms, p), learned) ensures !AllTrue(stack, p) {
      AbsAllAtPoint(stack, atoms, p);
      assert !Satisfies(TruthSet(atoms, p), stack, learned);
    }
  }

  /** Learning an explanation keeps every candidate and excludes an assignment. */
  lemma LearnStep(types: seq<VarType>, box0: Box, box: Box, stack: seq<Formula>, atoms: set<Formula>,
                  learned: seq<set<Formula>>, m: SatModel, full: bool, E: set<Formula>, first: seq<set<Formula>>,
                  utypes: Formula -> seq<VarType>)
    requires StackOk(stack, atoms, types, utypes) && AnswerOk(Some(m), stack, atoms, learned, full)
    requires SameOffBooleans(box, box0, types) && UnsatCore(types, box, E) && E <= LiteralSet(m.theory)
    requires forall f | f in LiteralSet(m.theory) :: NoBooleans(f, types)
    requires ClausesHold(types, box0, atoms, first, learned)
    ensures ClausesHold(types, box0, atoms, first, learned + [E])
    ensures |Remaining(atoms, learned + [E])| < |Remaining(atoms, learned)|
  {
    forall a | a in m.theory ensures a in atoms && (a.Rel? || a.Forall?) {
      assert AtomOk(a, stack, types, utypes);
    }
    var T :| T <= atoms && Extends(m, T) && Satisfies(T, stack, learned);
    ExplanationBlocksModel(m, atoms, E, T);
    LearningExcludes(atoms, learned, E, T);
    forall p | Candidate(types, box0, atoms, p) && AvoidsAll(TruthSet(atoms, p), first)
      ensures AvoidsAll(TruthSet(atoms, p), learned + [E])
    {
      CoreIsAvoided(types, box0, box, atoms, m.theory, E, p);
    }
  }

  // ------------------------------------------------------ clauses across calls

  /** The verdict of a first call is about all candidates: no real-typed grid
      point of the box satisfies the stack. */
  lemma FirstVerdictIsUnsat(types: seq<VarType>, box: Box, atoms: set<Formula>, stack: seq<Formula>, p: Point)
    requires NoCandidate(types, box, atoms, [], stack)
    requires ValidBox(box, |types|) && InBox(box, p) && IntOk(types, p) && OnGrid(p)
    ensures !AllTrue(stack, p)
  {
    BoxPointsAreCandidates(types, box, atoms, p);
    assert AvoidsAll(TruthSet(atoms, p), []);
  }

  /** The nested solver answers over the box extended by the universal variables,
      and with no clause left from other boxes. */
  ghost predicate SolvesAfresh(fo: Foreign, types: seq<VarType>, utypes: seq<VarType>, query: Formula) {
    forall b, side | ValidBox(b, |types|) && b.Box? && fo.solve(query, b, side).None? ::
      exists atoms :: NoCandidate(types + utypes, TypedForall.ExtendedBox(b, utypes), atoms, [], [query])
  }

  /** Then it is right on the grid when it finds no counterexample, which is what
      `ExhaustedIsWeakened` needs of it there. */
  lemma AfreshRefutesOnGrid(fo: Foreign, types: seq<VarType>, utypes: seq<VarType>, query: Formula)
    requires SolvesAfresh(fo, types, utypes, query)
    ensures SolveRefutes(fo, types + utypes, query, |types|, true)
  {
    var all := types + utypes;
    forall b, side, p | ValidBox(b, |types|) && fo.solve(query, b, side).None? && TypedIn(all, b, true, p)
      ensures !Holds(query, p)
    {
      var outer := TypedForall.ExtendedBox(b, utypes);
      var atoms :| NoCandidate(all, outer, atoms, [], [query]);
      InExtendedBox(types, utypes, b, p);
      FirstVerdictIsUnsat(all, outer, atoms, [query], p);
    }
  }

  lemma InExtendedBox(types: seq<VarType>, utypes: seq<VarType>, b: Box, p: Point)
    requires ValidBox(b, |types|) && InBox(b, p) && TypesOk(types + utypes, p)
    ensures var outer := TypedForall.ExtendedBox(b, utypes);
            ValidBox(outer, |types + utypes|) && InBox(outer, p) && IntOk(types + utypes, p)
  {
    var all, outer := types + utypes, TypedForall.ExtendedBox(b, utypes);
    forall i | 0 <= i < |all| ensures ValidInterval(outer.iv[i]) && Contains(outer.iv[i], p(i)) {
      if i < |types| { InDimension(b, p, i); } else { assert all[i] == utypes[i - |types|]; }
    }
  }

  /** Every clause that holds for the candidates of `box` can stay in place for a
      check over `inner`: its verdicts are about all candidates of `inner`. */
  ghost predicate Reusable(types: seq<VarType>, box: Box, inner: Box) {
    forall atoms, learned, stack |
      ClausesHold(types, box, atoms, [], learned) && NoCandidate(types, inner, atoms, learned, stack) ::
      NoCandidate(types, inner, atoms, [], stack)
  }

  /** Every typed point of `inner` is in `box`, the Boolean dimensions aside. */
  ghost predicate TypedInside(types: seq<VarType>, inner: Box, box: Box) {
    forall p :: !OutsidePoint(types, inner, box, p)
  }

  /** Clauses learned over a box can be reused over another exactly when the other
      lies inside it: any typed point outside makes some clause, learned from an
      unsat core over the box, hide a model over the other. */
  lemma ReuseExactlyInside(types: seq<VarType>, box: Box, inner: Box)
    requires ValidBox(box, |types|) && box.Box? && ValidBox(inner, |types|)
    ensures Reusable(types, box, inner) <==> TypedInside(types, inner, box)
  {
    if TypedInside(types, inner, box) {
      forall atoms, learned, stack |
        ClausesHold(types, box, atoms, [], learned) && NoCandidate(types, inner, atoms, learned, stack)
        ensures NoCandidate(types, inner, atoms, [], stack)
      {
        ReuseInside(types, box, inner, atoms, learned, stack);
      }
    } else {
      var p :| OutsidePoint(types, inner, box, p);
      OutsideIsNotReusable(types, box, inner, p);
    }
  }

  ghost predicate OutsidePoint(types: seq<VarType>, inner: Box, box: Box, p: Point) {
    InTheoryBox(types, inner, p) && IntOk(types, p) && !InTheoryBox(types, box, p)
  }

  lemma OutsideIsNotReusable(types: seq<VarType>, box: Box, inner: Box, p: Point)
    requires ValidBox(box, |types|) && box.Box? && OutsidePoint(types, inner, box, p)
    ensures !Reusable(types, box, inner)
  {
    var i :| 0 <= i < |types| && types[i] != BOOLEAN && !Contains(box.iv[i], p(i));
    var a := OutsideAtom(i, box.iv[i], p(i));
    StaleClauseHidesModel(types, box, inner, i, p);
    OutsideAtomMeaning(i, box.iv[i], p(i), p);
    StaleClauseHolds(types, box, a, i);
    NoModelWithClause(types, inner, a);
    assert AvoidsAll(TruthSet({a}, p), []);
    assert !NoCandidate(types, inner, {a}, [], [a]);
  }

  lemma ReuseInside(types: seq<VarType>, box: Box, inner: Box, atoms: set<Formula>, learned: seq<set<Formula>>,
                    stack: seq<Formula>)
    requires TypedInside(types, inner, box)
    requires ClausesHold(types, box, atoms, [], learned) && NoCandidate(types, inner, atoms, learned, stack)
    ensures NoCandidate(types, inner, atoms, [], stack)
  {
    forall p | Candidate(types, inner, atoms, p) ensures Candidate(types, box, atoms, p) {
      assert !OutsidePoint(types, inner, box, p);
    }
  }

  /** `v + v` lies beyond the end of the interval that `x` exceeds. */
  function OutsideAtom(v: nat, iv: Interval, x: real): Formula {
    if iv.lo != -INF && x < iv.lo as real then Rel(LT, Add(Var(v), Var(v)), Const((2 * iv.lo) as real))
    else Rel(GT, Add(Var(v), Var(v)), Const((2 * iv.hi) as real))
  }

  lemma OutsideAtomMeaning(v: nat, iv: Interval, x: real, q: Point)
    ensures Holds(OutsideAtom(v, iv, x), q) <==>
              if iv.lo != -INF && x < iv.lo as real then q(v) < iv.lo as real else q(v) > iv.hi as real
    ensures FreeVars(OutsideAtom(v, iv, x)) == {v}
    ensures Clear(OutsideAtom(v, iv, x), q) && Clear(Not(OutsideAtom(v, iv, x)), q)
  {
    var a := OutsideAtom(v, iv, x);
    assert Eval(a.lhs.a, q) == q(v) && Eval(a.lhs.b, q) == q(v);
    assert Eval(a.lhs, q) == q(v) + q(v);
    assert ExprVars(a.lhs) == {v} && ExprVars(a.rhs) == {};
  }

  /** For any typed point of `inner` outside `box`: the atom that says so is an
      unsat core over `box`, and true at the point. With the clause learned from
      the core no assignment satisfies the atom. */
  lemma StaleClauseHidesModel(types: seq<VarType>, box: Box, inner: Box, v: nat, p: Point)
    requires ValidBox(box, |types|) && box.Box? && v < |types| && types[v] != BOOLEAN
    requires InTheoryBox(types, inner, p) && IntOk(types, p) && !Contains(box.iv[v], p(v))
    ensures var a := OutsideAtom(v, box.iv[v], p(v));
            && UnsatCore(types, box, {a})
            && Candidate(types, inner, {a}, p) && AllTrue([a], p)
            && forall T | T <= {a} :: !Satisfies(T, [a], [{a}])
  {
    var a := OutsideAtom(v, box.iv[v], p(v));
    OutsideAtomMeaning(v, box.iv[v], p(v), p);
    forall q | InBox(box, q) && IntOk(types, q) ensures exists f | f in {a} :: !Obeys(f, q) {
      OutsideAtomMeaning(v, box.iv[v], p(v), q);
      InDimension(box, q, v);
      assert a in {a} && !Obeys(a, q);
    }
    forall T | T <= {a} ensures !Satisfies(T, [a], [{a}]) { AtomAgainstItself(a, T); }
  }

  lemma AtomAgainstItself(a: Formula, T: set<Formula>)
    ensures !Satisfies(T, [a], [{a}])
  {
    if AbsAll([a], T) {
      assert Abs([a][0], T);
      assert !Avoids(T, [{a}][0]);
    }
  }

  lemma NoModelWithClause(types: seq<VarType>, box: Box, a: Formula)
    requires a.Rel?
    ensures NoCandidate(types, box, {a}, [{a}], [a])
  {
    forall p | AvoidsAll(TruthSet({a}, p), [{a}]) ensures !AllTrue([a], p) {
      AbsAllAtPoint([a], {a}, p);
      AtomAgainstItself(a, TruthSet({a}, p));
    }
  }

  /** The clause learned from a core of one atom holds over the box. */
  lemma StaleClauseHolds(types: seq<VarType>, box: Box, a: Formula, v: nat)
    requires ValidBox(box, |types|) && box.Box? && v < |types| && types[v] != BOOLEAN
    requires a.Rel? && FreeVars(a) == {v} && UnsatCore(types, box, {a})
    ensures ClausesHold(types, box, {a}, [], [{a}])
  {
    var m: map<Formula, bool> := map[a := true];
    assert LiteralSet(m) == {a} by { assert a in m && LiteralOf(a, m[a]) == a; }
    forall p | Candidate(types, box, {a}, p) ensures AvoidsAll(TruthSet({a}, p), [{a}]) {
      CoreIsAvoided(types, box, box, {a}, m, {a}, p);
    }
  }

  // --------------------------------------------- partial models of the stack

  /** Flipping the truth of an atom. */
  function Flip(T: set<Formula>, a: Formula): set<Formula> {
    if a in T then T - {a} else T + {a}
  }

  ghost predicate FlipsOneByOne(T: set<Formula>, order: seq<Formula>, stack: seq<Formula>, learned: seq<set<Formula>>)
    decreases |order|
  {
    Satisfies(T, stack, learned) && (order != [] ==> FlipsOneByOne(Flip(T, order[0]), order[1..], stack, learned))
  }

  /** How `get_partial_model` drops all atoms of an assignment: each can be flipped
      on its own, and all can be flipped one after the other. */
  ghost predicate Dropped(T: set<Formula>, order: seq<Formula>, stack: seq<Formula>, learned: seq<set<Formula>>) {
    (forall a | a in order :: Satisfies(Flip(T, a), stack, learned)) && FlipsOneByOne(T, order, stack, learned)
  }

  /** `|x| >= 0`, `x * x < 0` and `x ^ 4 >= 0`. */
  const ABS_ATOM := Rel(GEQ, Expr.Abs(Var(0)), Const(0.0))
  const SQUARE_ATOM := Rel(LT, Mul(Var(0), Var(0)), Const(0.0))
  const POWER_ATOM := Rel(GEQ, Pow(Var(0), 4), Const(0.0))

  /** The first atom fails, or the second holds, or the third fails. */
  const MISJUDGED := Or([Not(ABS_ATOM), SQUARE_ATOM, Not(POWER_ATOM)])

  lemma AtomsOfMisjudged()
    ensures AtomsOf(MISJUDGED) == {ABS_ATOM, SQUARE_ATOM, POWER_ATOM}
  {
    var fs := MISJUDGED.fs;
    assert AtomsOf(fs[0]) == {ABS_ATOM} && AtomsOf(fs[1]) == {SQUARE_ATOM} && AtomsOf(fs[2]) == {POWER_ATOM};
  }

  lemma AbsMisjudged(T: set<Formula>)
    ensures Abs(MISJUDGED, T) <==> ABS_ATOM !in T || SQUARE_ATOM in T || POWER_ATOM !in T
  {
    var fs := MISJUDGED.fs;
    assert Abs(fs[0], T) <==> ABS_ATOM !in T;
    assert Abs(fs[1], T) <==> SQUARE_ATOM in T;
    assert Abs(fs[2], T) <==> POWER_ATOM !in T;
    if Abs(MISJUDGED, T) {
      var i :| 0 <= i < |fs| && Abs(fs[i], T);
    }
  }

  /** No point satisfies the clause. */
  lemma MisjudgedIsUnsat(p: Point)
    ensures !Holds(MISJUDGED, p)
  {
    var fs := MISJUDGED.fs;
    var x := p(0);
    assert Eval(Var(0), p) == x && Eval(Const(0.0), p) == 0.0;
    assert Eval(Mul(Var(0), Var(0)), p) == x * x && x * x >= 0.0;
    assert Eval(Pow(Var(0), 4), p) == RPow(x, 4);
    FourthPower(x);
    assert Holds(ABS_ATOM, p) && !Holds(SQUARE_ATOM, p) && Holds(POWER_ATOM, p);
    forall i | 0 <= i < |fs| ensures !Holds(fs[i], p) { }
  }

  lemma FourthPower(x: real)
    ensures RPow(x, 4) >= 0.0
  {
    var y := x * x;
    assert RPow(x, 1) == x * RPow(x, 0) && RPow(x, 0) == 1.0;
    assert RPow(x, 2) == x * RPow(x, 1) == y;
    assert RPow(x, 4) == x * RPow(x, 3) && RPow(x, 3) == x * y;
    assert x * (x * y) == y * y;
  }

  /** A SAT solver whose first, partial answer assigns nothing, and which answers
      with full models from then on. */
  ghost function PartialFirst(stack: seq<Formula>, atoms: set<Formula>): (seq<set<Formula>>, bool) -> Option<SatModel> {
    (learned: seq<set<Formula>>, full: bool) =>
      if learned == [] && !full then Some(SatModel(map[], map[], false)) else FullAnswer(stack, atoms, learned)
  }

  ghost function FullAnswer(stack: seq<Formula>, atoms: set<Formula>, learned: seq<set<Formula>>): Option<SatModel> {
    if exists T :: T <= atoms && Satisfies(T, stack, learned) then
      var T :| T <= atoms && Satisfies(T, stack, learned);
      Some(SatModel(map[], map a | a in atoms :: a in T, true))
    else None
  }

  lemma FullAnswerOk(stack: seq<Formula>, atoms: set<Formula>, learned: seq<set<Formula>>, full: bool)
    requires forall a | a in atoms :: !a.BoolVar?
    ensures AnswerOk(FullAnswer(stack, atoms, learned), stack, atoms, learned, full)
  {
    if exists T :: T <= atoms && Satisfies(T, stack, learned) {
      var m := FullAnswer(stack, atoms, learned).value;
      assert exists T :: T <= atoms && Extends(m, T) && Satisfies(T, stack, learned);
    }
  }

  /** A partial model need not be a model. The SAT solver finds the assignment
      without true atoms, drops every atom of it, and is left with no theory
      literal; `CheckSatCore` then returns the box unchecked, yet no point
      satisfies the stack. With full models this cannot happen
      (`FullModelCovers`). */
  lemma PartialModelIsNoModel(utypes: Formula -> seq<VarType>)
    ensures var stack, atoms := [MISJUDGED], AtomsOf(MISJUDGED);
            var sat := PartialFirst(stack, atoms);
            && SoundSat(sat, stack, atoms) && StackOk(stack, atoms, [CONTINUOUS], utypes)
            && False !in stack && !Trivial(stack) && WithoutTheory(sat([], false))
            && Dropped({}, [ABS_ATOM, SQUARE_ATOM, POWER_ATOM], stack, [])
            && forall p :: !AllTrue(stack, p)
  {
    MisjudgedDrops();
    PartialFirstIsSound([MISJUDGED]);
    MisjudgedIsOk(utypes);
    forall p ensures !AllTrue([MISJUDGED], p) {
      MisjudgedIsUnsat(p);
      assert !Holds([MISJUDGED][0], p);
    }
  }

  lemma PartialFirstIsSound(stack: seq<Formula>)
    requires stack == [MISJUDGED]
    ensures SoundSat(PartialFirst(stack, AtomsOf(MISJUDGED)), stack, AtomsOf(MISJUDGED))
  {
    var atoms := AtomsOf(MISJUDGED);
    var sat := PartialFirst(stack, atoms);
    AtomsOfMisjudged();
    forall learned, full ensures AnswerOk(sat(learned, full), stack, atoms, learned, full) {
      FullAnswerOk(stack, atoms, learned, full);
      MisjudgedSatisfied({});
      assert Extends(SatModel(map[], map[], false), {});
    }
  }

  lemma MisjudgedIsOk(utypes: Formula -> seq<VarType>)
    ensures StackOk([MISJUDGED], AtomsOf(MISJUDGED), [CONTINUOUS], utypes)
  {
    AtomsOfMisjudged();
    var minus := Mul(Const(-1.0), Const(0.0));
    assert InScope(minus, 1);
    forall a | a in AtomsOf(MISJUDGED) ensures AtomOk(a, [MISJUDGED], [CONTINUOUS], utypes) {
      assert InScope(DifferenceOf(a), 1) && ExprVars(a.lhs) == {0} && ExprVars(a.rhs) == {};
    }
  }

  lemma MisjudgedSatisfied(T: set<Formula>)
    ensures Satisfies(T, [MISJUDGED], []) <==> ABS_ATOM !in T || SQUARE_ATOM in T || POWER_ATOM !in T
  {
    AbsMisjudged(T);
    assert AbsAll([MISJUDGED], T) <==> Abs([MISJUDGED][0], T);
  }

  lemma MisjudgedDrops()
    ensures Dropped({}, [ABS_ATOM, SQUARE_ATOM, POWER_ATOM], [MISJUDGED], [])
  {
    var order, stack := [ABS_ATOM, SQUARE_ATOM, POWER_ATOM], [MISJUDGED];
    forall T ensures Satisfies(T, stack, []) <==> ABS_ATOM !in T || SQUARE_ATOM in T || POWER_ATOM !in T {
      MisjudgedSatisfied(T);
    }
    var t1, t2 := Flip({}, ABS_ATOM), Flip(Flip({}, ABS_ATOM), SQUARE_ATOM);
    var t3 := Flip(t2, POWER_ATOM);
    assert order[1..] == [SQUARE_ATOM, POWER_ATOM] && order[1..][1..] == [POWER_ATOM] && order[1..][1..][1..] == [];
    assert FlipsOneByOne(t3, [], stack, []);
    assert FlipsOneByOne(t2, [POWER_ATOM], stack, []);
    assert FlipsOneByOne(t1, [SQUARE_ATOM, POWER_ATOM], stack, []);
  }

  /** The loop returns the box with this answer, without a theory check. */
  ghost predicate Unchecked(stack: seq<Formula>, atoms: set<Formula>, learned: seq<set<Formula>>, m: SatModel, box: Box,
                            types: seq<VarType>, utypes: Formula -> seq<VarType>)
  {
    && m.theory == map[] && AnswerOk(Some(m), stack, atoms, learned, m.full)
    && StackOk(stack, atoms, types, utypes) && BooleansSet(types, box, m.booleans)
  }

  /** Unchecked boxes satisfy the stack at every point. */
  ghost predicate UncheckedIsRight(full: bool) {
    forall stack, atoms, learned, m, box, types, utypes ::
      Unchecked(stack, atoms, learned, m, box, types, utypes) && m.full == full ==> SatisfiedOver(stack, box)
  }

  /** Returning a box without a theory check is right for full models, and only
      for those. */
  lemma UncheckedIsRightWhenFull(full: bool)
    ensures UncheckedIsRight(full) <==> full
  {
    if full {
      forall stack, atoms, learned, m, box, types, utypes |
        Unchecked(stack, atoms, learned, m, box, types, utypes) && m.full == full
        ensures SatisfiedOver(stack, box)
      {
        FullModelCovers(m, stack, atoms, learned, box, types, utypes);
      }
    } else {
      var utypes := (f: Formula) => [];
      var stack, atoms, box, m := [MISJUDGED], AtomsOf(MISJUDGED), Box([Interval(0, 0)]), SatModel(map[], map[], false);
      PartialModelIsNoModel(utypes);
      assert AnswerOk(PartialFirst(stack, atoms)([], false), stack, atoms, [], false);
      assert Unchecked(stack, atoms, [], m, box, [CONTINUOUS], utypes);
      var origin := (v: nat) => 0.0;
      assert InBox(box, origin) && !AllTrue(stack, origin);
    }
  }
}
