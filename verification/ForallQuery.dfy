/** The counterexample query of a forall: the negated matrix, strengthened by
    epsilon except for the bounds of narrow universal variables
    (contractor/forall_counterexample_query.cc). */
module ForallQuery {
  import opened Symbolic
  import opened Boxes
  import opened Explanations
  import opened ContractorSpec
  import opened Nnf
  import opened Delta
  import opened Filter

  function TopConjuncts(f: Formula): seq<Formula> {
    if f.And? then f.fs else [f]
  }

  /** The conjuncts of the negated matrix in negation normal form. */
  function NegatedConjuncts(matrix: Formula): seq<Formula> {
    TopConjuncts(Convert(MkNot(matrix), true))
  }

  /** The variable of a universal bound atom. */
  function UniversalBoundVar(c: Formula, qvars: set<nat>): Option<nat> {
    match c
    case Rel(_, l, r) =>
      if l.Var? && r.Const? && l.v in qvars then Some(l.v)
      else if r.Var? && l.Const? && r.v in qvars then Some(r.v)
      else None
    case _ => None
  }

  function InitialBox(types: seq<VarType>): (r: Box)
    ensures ValidBox(r, |types|) && r.Box?
  {
    Box(seq(|types|, i requires 0 <= i < |types| => InitialInterval(types[i])))
  }

  /** The universal box after absorbing the binder bounds among `cs`. */
  function UniversalDomain(types: seq<VarType>, qvars: set<nat>, cs: seq<Formula>): (r: Box)
    requires forall c | c in cs :: FreeVars(c) <= Dims(types)
    ensures ValidBox(r, |types|)
  {
    if cs == [] then InitialBox(types)
    else
      var b, c := UniversalDomain(types, qvars, cs[..|cs| - 1]), cs[|cs| - 1];
      BoundsInScope(types, c);
      FilteringKeeps(types, c, b);
      if FreeVars(c) <= qvars then FilteredBox(types, c, true, b) else b
  }

  lemma BoundsInScope(types: seq<VarType>, c: Formula)
    requires FreeVars(c) <= Dims(types)
    ensures BoundInScope(c, true, |types|)
  {
    AsBoundMeaning(c, true, (v: nat) => 0.0);
  }

  /** Absorbs the binder bounds one by one. */
  method AbsorbBounds(types: seq<VarType>, qvars: set<nat>, cs: seq<Formula>) returns (ubox: Box)
    requires forall c | c in cs :: FreeVars(c) <= Dims(types)
    ensures ubox == UniversalDomain(types, qvars, cs)
  {
    ubox := InitialBox(types);
    var i := 0;
    while i < |cs|
      invariant 0 <= i <= |cs| && ubox == UniversalDomain(types, qvars, cs[..i])
    {
      assert cs[..i + 1][..i] == cs[..i];
      BoundsInScope(types, cs[i]);
      if FreeVars(cs[i]) <= qvars {
        var _, _, b := FilterAssertion(types, cs[i], ubox);
        ubox := b;
      }
      i := i + 1;
    }
    assert cs[..|cs|] == cs;
  }

  /** The domain holds every typed point that obeys the universal conjuncts. */
  lemma {:induction false} DomainHoldsObeying(types: seq<VarType>, qvars: set<nat>, cs: seq<Formula>, p: Point)
    requires forall c | c in cs :: FreeVars(c) <= Dims(types)
    requires TypesOk(types, p)
    requires forall c | c in cs && FreeVars(c) <= qvars :: Obeys(c, p)
    ensures InBox(UniversalDomain(types, qvars, cs), p)
  {
    if cs == [] {
    } else {
      DomainHoldsObeying(types, qvars, cs[..|cs| - 1], p);
      BoundsInScope(types, cs[|cs| - 1]);
      FilteringKeeps(types, cs[|cs| - 1], UniversalDomain(types, qvars, cs[..|cs| - 1]));
    }
  }

  /** A non-empty domain lies within each absorbed bound. */
  lemma {:induction false} DomainWithinBounds(types: seq<VarType>, qvars: set<nat>, cs: seq<Formula>, j: nat)
    requires forall c | c in cs :: FreeVars(c) <= Dims(types)
    requires j < |cs| && FreeVars(cs[j]) <= qvars && AsBound(cs[j], true).Some?
    requires UniversalDomain(types, qvars, cs).Box?
    ensures BoundInScope(cs[j], true, |types|)
    ensures var bd := AsBound(cs[j], true).value;
            Within(UniversalDomain(types, qvars, cs).iv[bd.v], BoundInterval(types[bd.v], bd.op, bd.c))
  {
    var init, c := cs[..|cs| - 1], cs[|cs| - 1];
    BoundsInScope(types, cs[j]);
    BoundsInScope(types, c);
    FilteringKeeps(types, c, UniversalDomain(types, qvars, init));
    if j < |init| { DomainWithinBounds(types, qvars, init, j); }
  }

  /** An epsilon-shrink would leave less than epsilon of interior. */
  predicate Narrow(iv: Interval, epsilon: real) {
    iv.lo != -INF && iv.hi != INF && (iv.hi - iv.lo) as real < 3.0 * epsilon
  }

  /** The bound stays exact in the query. */
  predicate KeptExact(c: Formula, qvars: set<nat>, narrow: set<nat>) {
    UniversalBoundVar(c, qvars).Some? && UniversalBoundVar(c, qvars).value in narrow
  }

  /** A conjunct as it appears in the query. */
  function Routed(c: Formula, qvars: set<nat>, narrow: set<nat>, epsilon: real): Formula
    requires IsPlain(c)
  {
    if KeptExact(c, qvars, narrow) then c else Shift(c, epsilon)
  }

  ghost predicate QueryHolds(cs: seq<Formula>, qvars: set<nat>, narrow: set<nat>, epsilon: real, p: Point)
    requires AllPlain(cs)
  {
    forall i | 0 <= i < |cs| :: Holds(Routed(cs[i], qvars, narrow, epsilon), p)
  }

  /** What the query must be for a matrix. */
  ghost predicate IsQuery(types: seq<VarType>, qvars: set<nat>, matrix: Formula, epsilon: real, query: Formula,
                          narrow: set<nat>)
  {
    var cs := NegatedConjuncts(matrix);
    && AllPlain(cs) && (forall c | c in cs :: FreeVars(c) <= Dims(types))
    && narrow <= qvars
    && (var domain := UniversalDomain(types, qvars, cs);
        domain.Box? ==> forall y | y in qvars && y < |types| :: y in narrow <==> Narrow(domain.iv[y], epsilon))
    && (forall p :: Holds(query, p) <==> QueryHolds(cs, qvars, narrow, epsilon, p))
  }

  lemma NegatedIsPlain(types: seq<VarType>, matrix: Formula)
    requires IsPlain(matrix) && FreeVars(matrix) <= Dims(types)
    ensures AllPlain(NegatedConjuncts(matrix))
    ensures forall c | c in NegatedConjuncts(matrix) :: FreeVars(c) <= Dims(types)
  {
    NnfFragment(MkNot(matrix), true, true);
    NnfVars(MkNot(matrix), true, true);
    var neg := Convert(MkNot(matrix), true);
    forall c | c in TopConjuncts(neg) ensures IsPlain(c) && FreeVars(c) <= FreeVars(neg) {
    }
  }

  /** `StrengthenForallCounterexampleQuery`. What an emptied universal domain
      counts as depends on the interval library: there the choice is arbitrary. */
  method StrengthenForallCounterexampleQuery(types: seq<VarType>, qvars: set<nat>, matrix: Formula, epsilon: real)
    returns (query: Formula, narrow: set<nat>)
    requires IsPlain(matrix) && FreeVars(matrix) <= Dims(types) && qvars <= Dims(types) && epsilon > 0.0
    ensures IsQuery(types, qvars, matrix, epsilon, query, narrow)
  {
    var cs := NegatedConjuncts(matrix);
    NegatedIsPlain(types, matrix);
    // Recover each universal variable's binder domain.
    var ubox := AbsorbBounds(types, qvars, cs);
    narrow := NarrowVariables(types, qvars, ubox, epsilon);
    // Keep the bounds of narrow variables exact; strengthen everything else.
    var exact, rest := True, True;
    var i := 0;
    while i < |cs|
      invariant 0 <= i <= |cs| && IsPlain(rest)
      invariant forall p :: RoutedSoFar(cs[..i], qvars, narrow, epsilon, exact, rest, p)
    {
      ghost var exact0, rest0 := exact, rest;
      if KeptExact(cs[i], qvars, narrow) {
        exact := MkAnd([exact, cs[i]]);
      } else {
        PlainConjunction(rest, cs[i]);
        rest := MkAnd([rest, cs[i]]);
      }
      ghost var done := cs[..i + 1];
      forall p ensures RoutedSoFar(done, qvars, narrow, epsilon, exact, rest, p) {
        RouteStep(cs, i, qvars, narrow, epsilon, exact0, rest0, p);
      }
      i := i + 1;
    }
    query := MkAnd([exact, DeltaStrengthen(rest, epsilon)]);
    assert cs[..|cs|] == cs;
    forall p ensures Holds(query, p) <==> QueryHolds(cs, qvars, narrow, epsilon, p) {
      MkAnd2Meaning(exact, DeltaStrengthen(rest, epsilon), p);
      assert RoutedSoFar(cs, qvars, narrow, epsilon, exact, rest, p);
    }
  }

  method NarrowVariables(types: seq<VarType>, qvars: set<nat>, ubox: Box, epsilon: real) returns (narrow: set<nat>)
    requires qvars <= Dims(types) && ValidBox(ubox, |types|)
    ensures narrow <= qvars
    ensures ubox.Box? ==> forall y | y in qvars && y < |types| :: y in narrow <==> Narrow(ubox.iv[y], epsilon)
  {
    narrow := {};
    var left := qvars;
    while left != {}
      invariant left <= qvars && narrow <= qvars - left
      invariant ubox.Box? ==> forall y | y in qvars - left && y < |types| ::
                y in narrow <==> Narrow(ubox.iv[y], epsilon)
      decreases left
    {
      var y :| y in left;
      left := left - {y};
      var isNarrow: bool := *;
      if ubox.Box? { isNarrow := Narrow(ubox.iv[y], epsilon); }
      if isNarrow { narrow := narrow + {y}; }
    }
  }

  /** `exact` and `rest` mean the conjuncts routed so far. */
  ghost predicate RoutedSoFar(cs: seq<Formula>, qvars: set<nat>, narrow: set<nat>, epsilon: real,
                              exact: Formula, rest: Formula, p: Point)
    requires AllPlain(cs) && IsPlain(rest)
  {
    Holds(exact, p) && Holds(Shift(rest, epsilon), p) <==> QueryHolds(cs, qvars, narrow, epsilon, p)
  }

  lemma PlainConjunction(f: Formula, g: Formula)
    requires IsPlain(f) && IsPlain(g)
    ensures IsPlain(MkAnd([f, g]))
  {
    assert AllPlain([f, g]);
    ShiftMkAnd([f, g], 1.0, (v: nat) => 0.0);
  }

  lemma RouteStep(cs: seq<Formula>, i: nat, qvars: set<nat>, narrow: set<nat>, epsilon: real,
                  exact: Formula, rest: Formula, p: Point)
    requires AllPlain(cs) && i < |cs| && IsPlain(rest)
    requires RoutedSoFar(cs[..i], qvars, narrow, epsilon, exact, rest, p)
    ensures KeptExact(cs[i], qvars, narrow) ==>
              RoutedSoFar(cs[..i + 1], qvars, narrow, epsilon, MkAnd([exact, cs[i]]), rest, p)
    ensures !KeptExact(cs[i], qvars, narrow) ==>
              IsPlain(MkAnd([rest, cs[i]])) &&
              RoutedSoFar(cs[..i + 1], qvars, narrow, epsilon, exact, MkAnd([rest, cs[i]]), p)
  {
    var r := Routed(cs[i], qvars, narrow, epsilon);
    assert QueryHolds(cs[..i + 1], qvars, narrow, epsilon, p) <==>
           QueryHolds(cs[..i], qvars, narrow, epsilon, p) && Holds(r, p) by {
      assert cs[..i + 1] == cs[..i] + [cs[i]];
      assert cs[..i + 1][i] == cs[i];
    }
    MkAnd2Meaning(exact, cs[i], p);
    if !KeptExact(cs[i], qvars, narrow) {
      ShiftMkAnd([rest, cs[i]], epsilon, p);
      var shifted := ShiftAll([rest, cs[i]], epsilon);
      assert shifted[0] == Shift(rest, epsilon) && shifted[1] == Shift(cs[i], epsilon);
    }
  }

  // ----------------------------------------------------------- the sandwich

  lemma RoutedIsSandwiched(c: Formula, qvars: set<nat>, narrow: set<nat>, epsilon: real, p: Point)
    requires IsPlain(c) && epsilon > 0.0
    ensures Holds(Shift(c, epsilon), p) ==> Holds(Routed(c, qvars, narrow, epsilon), p)
    ensures Holds(Routed(c, qvars, narrow, epsilon), p) ==> Holds(c, p)
  {
    ShiftIsDirected(c, epsilon, p);
  }

  /** The strengthened negation implies the query. */
  lemma StrengthenedImpliesQuery(types: seq<VarType>, qvars: set<nat>, matrix: Formula, epsilon: real,
                                 query: Formula, narrow: set<nat>, p: Point)
    requires IsPlain(matrix) && epsilon > 0.0 && IsQuery(types, qvars, matrix, epsilon, query, narrow)
    ensures IsPlain(Convert(MkNot(matrix), true))
    ensures Holds(DeltaStrengthen(Convert(MkNot(matrix), true), epsilon), p) ==> Holds(query, p)
  {
    var neg := Convert(MkNot(matrix), true);
    var cs := NegatedConjuncts(matrix);
    NnfFragment(MkNot(matrix), true, true);
    if Holds(Shift(neg, epsilon), p) {
      if neg.And? { MkAndMeaning(ShiftAll(cs, epsilon), p); }
      forall i | 0 <= i < |cs| ensures Holds(Routed(cs[i], qvars, narrow, epsilon), p) {
        assert neg.And? ==> Holds(ShiftAll(cs, epsilon)[i], p);
        RoutedIsSandwiched(cs[i], qvars, narrow, epsilon, p);
      }
      assert QueryHolds(cs, qvars, narrow, epsilon, p);
    }
  }

  /** The query implies the negated matrix. */
  lemma QueryImpliesNegation(types: seq<VarType>, qvars: set<nat>, matrix: Formula, epsilon: real,
                             query: Formula, narrow: set<nat>, p: Point)
    requires IsPlain(matrix) && epsilon > 0.0 && IsQuery(types, qvars, matrix, epsilon, query, narrow)
    requires Holds(query, p)
    ensures !Holds(matrix, p)
  {
    var neg := Convert(MkNot(matrix), true);
    var cs := NegatedConjuncts(matrix);
    forall i | 0 <= i < |cs| ensures Holds(cs[i], p) {
      RoutedIsSandwiched(cs[i], qvars, narrow, epsilon, p);
    }
    assert Holds(neg, p) by { if !neg.And? { assert cs[0] == neg; } }
    NnfMeaning(MkNot(matrix), true, true, p);
    MkNotMeaning(matrix, p);
  }

  /** Where the query fails, the weakened matrix holds. */
  lemma NoCounterexampleWeakens(types: seq<VarType>, qvars: set<nat>, matrix: Formula, epsilon: real,
                                query: Formula, narrow: set<nat>, p: Point)
    requires IsPlain(matrix) && epsilon > 0.0 && IsQuery(types, qvars, matrix, epsilon, query, narrow)
    requires !Holds(query, p)
    ensures Holds(DeltaWeaken(matrix, epsilon), p)
  {
    if !Holds(Shift(matrix, -epsilon), p) {
      MkNotMeaning(Shift(matrix, -epsilon), p);
      assert Holds(Shift(MkNot(matrix), epsilon), p);
      ShiftThroughNnf(MkNot(matrix), true, epsilon, p);
      StrengthenedImpliesQuery(types, qvars, matrix, epsilon, query, narrow, p);
      assert false;
    }
  }

  /** A value of a universal variable that the split leaves in its domain. */
  function Witness(iv: Interval, epsilon: real): (x: real)
    requires ValidInterval(iv)
  {
    if Narrow(iv, epsilon) then Pick(iv)
    else if iv.lo != -INF then iv.lo as real + epsilon
    else if iv.hi != INF then iv.hi as real - epsilon
    else 0.0
  }

  /** Non-strict binder bounds with a non-empty domain keep a non-empty domain in
      the query: one value of the variable meets all its bounds as routed,
      because narrow bounds stay exact and wide ones leave room for epsilon on
      both sides. */
  lemma DomainSurvives(types: seq<VarType>, qvars: set<nat>, matrix: Formula, epsilon: real,
                       query: Formula, narrow: set<nat>, y: nat, j: nat, p: Point)
    requires IsPlain(matrix) && epsilon > 0.0 && IsQuery(types, qvars, matrix, epsilon, query, narrow)
    requires var cs := NegatedConjuncts(matrix);
             var domain := UniversalDomain(types, qvars, cs);
             && domain.Box? && y in qvars && y < |types| && j < |cs|
             && (match AsBound(cs[j], true)
                 case Some(Bound(v, op, _)) => v == y && op in {EQ, GEQ, LEQ}
                 case None => false)
             && p(y) == Witness(domain.iv[y], epsilon)
    ensures Holds(Routed(NegatedConjuncts(matrix)[j], qvars, narrow, epsilon), p)
  {
    var cs := NegatedConjuncts(matrix);
    var iv := UniversalDomain(types, qvars, cs).iv[y];
    var c := cs[j];
    NegatedShape(matrix, j);
    BoundAtomIsUniversal(c, qvars, y);
    DomainWithinBounds(types, qvars, cs, j);
    BoundMet(types[y], c, y, iv, epsilon, p);
  }

  /** The chosen value meets a bound of the variable: as it stands when the
      variable is narrow, strengthened when it is wide. */
  lemma BoundMet(t: VarType, c: Formula, y: nat, iv: Interval, epsilon: real, p: Point)
    requires c.Rel? && IsPlain(c) && AsBound(c, true).Some? && AsBound(c, true).value.v == y && epsilon > 0.0
    requires AsBound(c, true).value.op in {EQ, GEQ, LEQ} && ValidInterval(iv) && p(y) == Witness(iv, epsilon)
    requires Within(iv, BoundInterval(t, AsBound(c, true).value.op, AsBound(c, true).value.c))
    ensures if Narrow(iv, epsilon) then Holds(c, p) else Holds(Shift(c, epsilon), p)
  {
    AsBoundMeaning(c, true, p);
    AsBoundIsFinite(c, true);
    if !Narrow(iv, epsilon) { ShiftRelMeaning(c.op, c.lhs, c.rhs, epsilon, p); }
  }

  lemma NegatedShape(matrix: Formula, j: nat)
    requires j < |NegatedConjuncts(matrix)| && AsBound(NegatedConjuncts(matrix)[j], true).Some?
    ensures NegatedConjuncts(matrix)[j].Rel?
  {
    NnfShape(MkNot(matrix), true, true);
    assert IsNnf(NegatedConjuncts(matrix)[j], true);
  }

  lemma BoundAtomIsUniversal(c: Formula, qvars: set<nat>, y: nat)
    requires c.Rel? && AsBound(c, true).Some? && AsBound(c, true).value.v == y && y in qvars
    ensures UniversalBoundVar(c, qvars) == Some(y) && FreeVars(c) <= qvars
  {
  }
}
