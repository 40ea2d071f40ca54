/** The semantic core of conflict explanations: what it means for a narrowing to
    be justified by the constraints recorded so far, and why the variable
    closure of those constraints is an unsat core.

    The argument follows one point down the search tree. Fix a set S of
    coordinates that is closed under the recorded constraints; constraints that
    do not touch S can move the point only outside S, so its S-coordinates
    survive every narrowing and every branching. */
module Explanations {
  import opened Symbolic
  import opened Boxes

  // ------------------------------------------------ bounds on one variable

  /** A relational atom read as `var op c` with a double constant. */
  datatype Bound = Bound(v: nat, op: RelOp, c: int)

  function ConstOf(e: Expr): Option<int> {
    match e
    case Const(c) => if c == c.Floor as real && Finite(c.Floor) then Some(c.Floor) else None
    case _ => None
  }

  /** `c op v` is `v Mirror(op) c`. */
  function Mirror(op: RelOp): (r: RelOp)
    ensures forall x, y :: RelHolds(op, x, y) <==> RelHolds(r, y, x)
  {
    match op
    case EQ => EQ
    case NEQ => NEQ
    case GT => LT
    case GEQ => LEQ
    case LT => GT
    case LEQ => GEQ
  }

  function AsBound(f: Formula, polarity: bool): Option<Bound> {
    match f
    case Not(g) => AsBound(g, !polarity)
    case Rel(op, l, r) =>
      var op' := if polarity then op else Negate(op);
      if l.Var? && ConstOf(r).Some? then Some(Bound(l.v, op', ConstOf(r).value))
      else if r.Var? && ConstOf(l).Some? then Some(Bound(r.v, Mirror(op'), ConstOf(l).value))
      else None
    case _ => None
  }

  lemma {:induction false} AsBoundMeaning(f: Formula, polarity: bool, p: Point)
    ensures AsBound(f, polarity).Some? ==>
              var b := AsBound(f, polarity).value;
              b.v in FreeVars(f) && (RelHolds(b.op, p(b.v), b.c as real) <==> (Holds(f, p) <==> polarity))
  {
    match f
    case Not(g) => AsBoundMeaning(g, !polarity, p);
    case Rel(op, l, r) =>
    case _ =>
  }

  lemma {:induction false} AsBoundIsFinite(f: Formula, polarity: bool)
    ensures AsBound(f, polarity).Some? ==> Finite(AsBound(f, polarity).value.c)
  {
    if f.Not? { AsBoundIsFinite(f.f, !polarity); }
  }

  /** The interval of the values that satisfy a bound, closed. */
  function ClosedBound(op: RelOp, c: int): Interval {
    match op
    case EQ => Interval(c, c)
    case NEQ => Interval(-INF, INF)
    case GEQ => Interval(c, INF)
    case GT => Interval(c, INF)
    case LEQ => Interval(-INF, c)
    case LT => Interval(-INF, c)
  }

  /** The box lies inside the closure of the bound that `f` expresses. */
  predicate InsideBound(f: Formula, b: Box)
    requires b.Box?
  {
    match AsBound(f, true)
    case Some(Bound(v, op, c)) => v < |b.iv| && Within(b.iv[v], ClosedBound(op, c))
    case None => false
  }

  lemma InsideBoundOfLarger(f: Formula, a: Box, b: Box)
    requires a.Box? && SubBox(a, b) && InsideBound(f, b)
    ensures InsideBound(f, a)
  {
  }

  /** `nextafter` towards the largest and the smallest finite double. */
  function NextUp(k: int): int { if k < MAX then k + 1 else k }
  function NextDown(k: int): int { if k > -MAX then k - 1 else k }

  /** `p` does not lie strictly between the constant of a strict bound and the
      neighbouring double that FilterAssertion puts in its place. */
  ghost predicate Clear(f: Formula, p: Point) {
    match AsBound(f, true)
    case Some(Bound(v, GT, c)) => !(c as real < p(v) < NextUp(c) as real)
    case Some(Bound(v, LT, c)) => !(NextDown(c) as real < p(v) < c as real)
    case _ => true
  }

  ghost predicate Obeys(f: Formula, p: Point) {
    Holds(f, p) && Clear(f, p)
  }

  lemma ObeysCoincides(f: Formula, p: Point, q: Point)
    requires AgreeOn(p, q, FreeVars(f))
    ensures Obeys(f, p) <==> Obeys(f, q)
  {
    HoldsCoincides(f, p, q);
    AsBoundMeaning(f, true, p);
  }

  /** Grid points are never inside a gap. */
  lemma GridPointsAreClear(f: Formula, p: Point)
    requires forall v | v in FreeVars(f) :: p(v) == p(v).Floor as real
    ensures Clear(f, p)
  {
    AsBoundMeaning(f, true, p);
    if AsBound(f, true).Some? {
      var b := AsBound(f, true).value;
      NoGridPointBetween(p(b.v), b.c, NextUp(b.c));
      NoGridPointBetween(p(b.v), NextDown(b.c), b.c);
    }
  }

  lemma NoGridPointBetween(x: real, c: int, d: int)
    requires x == x.Floor as real && d <= c + 1
    ensures !(c as real < x < d as real)
  {
    if c as real < x { assert c + 1 <= x.Floor; }
  }

  // ------------------------------------------- points followed down the tree

  /** `p` restricted to `S` is a candidate that the recorded constraints `U` and
      emptying variables `W` cannot rule out: `S` contains W, every recorded
      constraint either avoids `S` or lies inside `S` and is obeyed. */
  ghost predicate Admissible(types: seq<VarType>, S: set<nat>, p: Point, U: set<Formula>, W: set<nat>) {
    && W <= S
    && (forall i | i in S && i < |types| :: IntegralAt(types, p, i))
    && (forall f | f in U :: Respects(S, p, f))
  }

  ghost predicate Respects(S: set<nat>, p: Point, f: Formula) {
    (FreeVars(f) != {} && FreeVars(f) !! S) || (FreeVars(f) <= S && Obeys(f, p))
  }

  /** `b` has a point whose `S`-coordinates are those of `p`. */
  ghost predicate Covers(b: Box, S: set<nat>, p: Point) {
    b.Box? && forall i | i in S && i < |b.iv| :: Contains(b.iv[i], p(i))
  }

  /** Going from `b0` to `b1` loses no candidate. */
  ghost predicate Keeps(types: seq<VarType>, b0: Box, b1: Box, U: set<Formula>, W: set<nat>) {
    forall S, p :: Admissible(types, S, p, U, W) && Covers(b0, S, p) ==> Covers(b1, S, p)
  }

  /** The recorded constraints leave no candidate in `b`. */
  ghost predicate Refuted(types: seq<VarType>, b: Box, U: set<Formula>, W: set<nat>) {
    forall S, p :: !(Admissible(types, S, p, U, W) && Covers(b, S, p))
  }

  lemma AdmissibleWithLess(types: seq<VarType>, S: set<nat>, p: Point,
                           U: set<Formula>, W: set<nat>, U': set<Formula>, W': set<nat>)
    requires U <= U' && W <= W' && Admissible(types, S, p, U', W')
    ensures Admissible(types, S, p, U, W)
  {
  }

  /** Narrowings compose while the records grow. */
  lemma KeepsTrans(types: seq<VarType>, b0: Box, b1: Box, b2: Box,
                   U: set<Formula>, W: set<nat>, U': set<Formula>, W': set<nat>)
    requires U <= U' && W <= W'
    requires Keeps(types, b0, b1, U, W) && Keeps(types, b1, b2, U', W')
    ensures Keeps(types, b0, b2, U', W')
  {
    forall S, p | Admissible(types, S, p, U', W') && Covers(b0, S, p)
      ensures Covers(b2, S, p)
    {
      AdmissibleWithLess(types, S, p, U, W, U', W');
    }
  }

  /** A point of `b` with the `S`-coordinates of `p`. */
  ghost function Fill(b: Box, S: set<nat>, p: Point, n: nat): (q: Point)
    requires ValidBox(b, n) && Covers(b, S, p)
    ensures InBox(b, q) && AgreeOn(p, q, S)
  {
    (v: nat) => FillAt(b, S, p, n, v)
  }

  ghost function FillAt(b: Box, S: set<nat>, p: Point, n: nat, v: nat): (x: real)
    requires ValidBox(b, n) && Covers(b, S, p)
    ensures v in S ==> x == p(v)
    ensures v < n ==> Contains(b.iv[v], x)
  {
    if v in S || v >= n then p(v) else Pick(b.iv[v])
  }

  /** Some point of a non-empty box that keeps `p` off the first `n` variables. */
  ghost function AnyPoint(b: Box, p: Point, n: nat): (q: Point)
    requires ValidBox(b, n) && b.Box?
    ensures InBox(b, q)
  {
    Fill(b, {}, p, n)
  }

  /** A narrowing by one recorded constraint `f` that keeps the points obeying
      `f`, changes only variables of `f`, and names them when it empties the
      box, loses no candidate. */
  lemma KeepsByFormula(types: seq<VarType>, b0: Box, b1: Box, f: Formula, U: set<Formula>, W: set<nat>)
    requires ValidBox(b0, |types|) && ValidBox(b1, |types|)
    requires f in U && (b1.NoPoints? ==> FreeVars(f) <= W)
    requires b0.Box? && b1.Box? ==> forall i | 0 <= i < |types| && i !in FreeVars(f) :: b1.iv[i] == b0.iv[i]
    requires forall p | InBox(b0, p) && Obeys(f, p) :: InBox(b1, p)
    ensures Keeps(types, b0, b1, U, W)
  {
    forall S, p | Admissible(types, S, p, U, W) && Covers(b0, S, p)
      ensures Covers(b1, S, p)
    {
      assert Respects(S, p, f);
      if FreeVars(f) <= S {
        var q := Fill(b0, S, p, |types|);
        ObeysCoincides(f, p, q);
        assert InBox(b1, q);
      }
    }
  }

  /** Rounding an integer dimension loses no candidate if an emptied dimension
      is named. */
  lemma KeepsByInteger(types: seq<VarType>, b0: Box, b1: Box, d: nat, U: set<Formula>, W: set<nat>)
    requires ValidBox(b0, |types|) && ValidBox(b1, |types|) && d < |types| && IsIntType(types[d])
    requires b0.Box? && b1.NoPoints? ==> d in W
    requires b0.Box? && b1.Box? ==> forall i | 0 <= i < |types| && i != d :: b1.iv[i] == b0.iv[i]
    requires b0.Box? ==> forall x | Contains(b0.iv[d], x) && Integral(x) :: b1.Box? && Contains(b1.iv[d], x)
    ensures Keeps(types, b0, b1, U, W)
  {
    forall S, p | Admissible(types, S, p, U, W) && Covers(b0, S, p)
      ensures Covers(b1, S, p)
    {
      if d in S { assert IntegralAt(types, p, d); }
    }
  }

  /** Branching loses no candidate. */
  lemma BranchCovers(types: seq<VarType>, b: Box, d: nat, S: set<nat>, p: Point, U: set<Formula>, W: set<nat>)
    requires ValidBox(b, |types|) && b.Box? && d < |types| && CanSplit(types[d], b.iv[d])
    requires Admissible(types, S, p, U, W) && Covers(b, S, p)
    ensures var (l, r) := Bisect(types, b, d); Covers(l, S, p) || Covers(r, S, p)
  {
    if d in S {
      assert IntegralAt(types, p, d);
      HalvesCover(types[d], b.iv[d], p(d));
    }
  }

  // ------------------------------------------------------- the explanation

  predicate Share(f: Formula, g: Formula) {
    FreeVars(f) * FreeVars(g) != {}
  }

  /** `X` contains the ground constraints of `U`, those touching `W`, and with
      each constraint all constraints of `U` sharing a variable with it. */
  ghost predicate ClosedExplanation(X: set<Formula>, U: set<Formula>, W: set<nat>) {
    && (forall f | f in U && (FreeVars(f) == {} || FreeVars(f) * W != {}) :: f in X)
    && (forall f, g | f in X && g in U && Share(f, g) :: g in X)
  }

  /** The least closed explanation. */
  ghost predicate IsExplanation(E: set<Formula>, U: set<Formula>, W: set<nat>) {
    && E <= U
    && ClosedExplanation(E, U, W)
    && (forall X | ClosedExplanation(X, U, W) :: E <= X)
  }

  ghost function VarsOf(E: set<Formula>): set<nat> {
    set f, v | f in E && v in FreeVars(f) :: v
  }

  /** What the closure leaves out has no variable in common with the closure or
      with the emptying variables. */
  lemma ExcludedIsDisjoint(E: set<Formula>, U: set<Formula>, W: set<nat>, f: Formula)
    requires ClosedExplanation(E, U, W) && f in U && f !in E
    ensures FreeVars(f) != {} && FreeVars(f) !! W + VarsOf(E)
  {
    assert FreeVars(f) * W == {};
    forall v | v in FreeVars(f) ensures v !in W && v !in VarsOf(E) {
      assert v !in FreeVars(f) * W;
      forall g | g in E ensures v !in FreeVars(g) {
        assert !Share(g, f);
        assert v !in FreeVars(g) * FreeVars(f);
      }
    }
  }

  /** No admissible point of the box obeys all of `E`. */
  ghost predicate UnsatCore(types: seq<VarType>, b: Box, E: set<Formula>) {
    forall p | InBox(b, p) && IntOk(types, p) :: exists f | f in E :: !Obeys(f, p)
  }

  /** Once the search has refuted the box from its records, every closed
      explanation is an unsat core, although narrowing and branching on the
      excluded constraints took part in the search. */
  lemma ExplanationIsCore(types: seq<VarType>, b: Box, U: set<Formula>, W: set<nat>, E: set<Formula>)
    requires ValidBox(b, |types|)
    requires Refuted(types, b, U, W) && E <= U && ClosedExplanation(E, U, W)
    ensures UnsatCore(types, b, E)
  {
    forall p | InBox(b, p) && IntOk(types, p)
      ensures exists f | f in E :: !Obeys(f, p)
    {
      if forall f | f in E :: Obeys(f, p) {
        var S := W + VarsOf(E);
        forall f | f in U ensures Respects(S, p, f) {
          if f in E {
            assert FreeVars(f) <= VarsOf(E);
          } else {
            ExcludedIsDisjoint(E, U, W, f);
          }
        }
        assert Admissible(types, S, p, U, W);
        assert Covers(b, S, p);
        assert false;
      }
    }
  }

  /** Over points whose coordinates are doubles, an unsat core is unsatisfiable
      in the plain sense. */
  lemma CoreOverGridPoints(types: seq<VarType>, b: Box, E: set<Formula>, p: Point)
    requires UnsatCore(types, b, E) && InBox(b, p) && IntOk(types, p)
    requires OnGrid(p)
    ensures !AllHold(E, p)
  {
    var f :| f in E && !Obeys(f, p);
    GridPointsAreClear(f, p);
  }

  /** Over all real points it is, when the core has no strict bound. */
  lemma CoreWithoutStrictBounds(types: seq<VarType>, b: Box, E: set<Formula>, p: Point)
    requires UnsatCore(types, b, E) && InBox(b, p) && IntOk(types, p)
    requires forall f | f in E && AsBound(f, true).Some? :: AsBound(f, true).value.op !in {GT, LT}
    ensures !AllHold(E, p)
  {
    var f :| f in E && !Obeys(f, p);
  }
}
