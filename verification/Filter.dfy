/** Absorbing bounds into a box (solver/filter_assertion.cc). */
module Filter {
  import opened Symbolic
  import opened Boxes
  import opened Explanations
  import opened ContractorSpec

  /** The part of `b` whose dimension `v` lies in `iv`. */
  function Meet(b: Box, v: nat, iv: Interval): Box
    requires b.Box? ==> v < |b.iv|
  {
    if b.NoPoints? then b
    else
      var lo := if b.iv[v].lo <= iv.lo then iv.lo else b.iv[v].lo;
      var hi := if iv.hi <= b.iv[v].hi then iv.hi else b.iv[v].hi;
      if lo <= hi then Box(b.iv[v := Interval(lo, hi)]) else NoPoints
  }

  /** The interval that stands for a bound on one variable: a strict bound on a
      continuous variable moves to the neighbouring double. */
  function BoundInterval(t: VarType, op: RelOp, c: int): Interval {
    match op
    case EQ => Interval(c, c)
    case NEQ => Interval(-INF, INF)
    case GEQ => Interval(c, INF)
    case LEQ => Interval(-INF, c)
    case GT => Interval(if t == CONTINUOUS then NextUp(c) else c, INF)
    case LT => Interval(-INF, if t == CONTINUOUS then NextDown(c) else c)
  }

  predicate BoundInScope(f: Formula, polarity: bool, n: nat) {
    AsBound(f, polarity).Some? ==> AsBound(f, polarity).value.v < n
  }

  /** The box after filtering by `f`, or by its negation. */
  function FilteredBox(types: seq<VarType>, f: Formula, polarity: bool, b: Box): Box
    requires ValidBox(b, |types|) && BoundInScope(f, polarity, |types|)
  {
    match AsBound(f, polarity)
    case None => b
    case Some(Bound(v, op, c)) => Meet(b, v, BoundInterval(types[v], op, c))
  }

  /** The bound is absorbed: the box says all that the constraint says. */
  predicate IsFiltered(types: seq<VarType>, f: Formula, polarity: bool)
    requires BoundInScope(f, polarity, |types|)
  {
    match AsBound(f, polarity)
    case None => false
    case Some(Bound(v, op, _)) => op in {EQ, GEQ, LEQ} || (op != NEQ && types[v] == CONTINUOUS)
  }

  // ------------------------------------------------------------- updates

  method UpdateBoundsViaEquality(b: Box, v: nat, c: int) returns (changed: bool, r: Box)
    requires b.Box? && v < |b.iv| && ValidInterval(b.iv[v]) && Finite(c)
    ensures r == Meet(b, v, Interval(c, c)) && (changed <==> r != b)
  {
    var iv := b.iv[v];
    if iv.lo == iv.hi && iv.lo == c { return false, b; }
    if iv.lo <= c <= iv.hi {
      r := Box(b.iv[v := Interval(c, c)]);
      assert r.iv[v] != b.iv[v];
    } else {
      r := NoPoints;
    }
    changed := true;
  }

  method UpdateLowerBound(b: Box, v: nat, c: int) returns (changed: bool, r: Box)
    requires b.Box? && v < |b.iv| && ValidInterval(b.iv[v])
    ensures r == Meet(b, v, Interval(c, INF)) && (changed <==> r != b)
  {
    var iv := b.iv[v];
    if c <= iv.lo { return false, b; }
    if c <= iv.hi {
      r := Box(b.iv[v := Interval(c, iv.hi)]);
      assert r.iv[v] != b.iv[v];
    } else {
      r := NoPoints;
    }
    changed := true;
  }

  method UpdateUpperBound(b: Box, v: nat, c: int) returns (changed: bool, r: Box)
    requires b.Box? && v < |b.iv| && ValidInterval(b.iv[v])
    ensures r == Meet(b, v, Interval(-INF, c)) && (changed <==> r != b)
  {
    var iv := b.iv[v];
    if c >= iv.hi { return false, b; }
    if c >= iv.lo {
      r := Box(b.iv[v := Interval(iv.lo, c)]);
      assert r.iv[v] != b.iv[v];
    } else {
      r := NoPoints;
    }
    changed := true;
  }

  /** Integer and binary variables keep the constraint. */
  method UpdateStrictLowerBound(t: VarType, b: Box, v: nat, c: int) returns (filtered: bool, changed: bool, r: Box)
    requires b.Box? && v < |b.iv| && ValidInterval(b.iv[v])
    ensures filtered <==> t == CONTINUOUS
    ensures r == Meet(b, v, BoundInterval(t, GT, c)) && (changed <==> r != b)
  {
    if t == CONTINUOUS {
      filtered := true;
      changed, r := UpdateLowerBound(b, v, NextUp(c));
    } else {
      filtered := false;
      changed, r := UpdateLowerBound(b, v, c);
    }
  }

  method UpdateStrictUpperBound(t: VarType, b: Box, v: nat, c: int) returns (filtered: bool, changed: bool, r: Box)
    requires b.Box? && v < |b.iv| && ValidInterval(b.iv[v])
    ensures filtered <==> t == CONTINUOUS
    ensures r == Meet(b, v, BoundInterval(t, LT, c)) && (changed <==> r != b)
  {
    if t == CONTINUOUS {
      filtered := true;
      changed, r := UpdateUpperBound(b, v, NextDown(c));
    } else {
      filtered := false;
      changed, r := UpdateUpperBound(b, v, c);
    }
  }

  // ------------------------------------------------------------- visitors

  /** `VisitEqualTo`, and with the polarity flipped `VisitNotEqualTo`. */
  method VisitEqualTo(types: seq<VarType>, l: Expr, rhs: Expr, b: Box, polarity: bool)
    returns (filtered: bool, changed: bool, r: Box)
    requires b.Box? && ValidBox(b, |types|) && BoundInScope(Rel(EQ, l, rhs), polarity, |types|)
    ensures filtered <==> IsFiltered(types, Rel(EQ, l, rhs), polarity)
    ensures r == FilteredBox(types, Rel(EQ, l, rhs), polarity, b) && (changed <==> r != b)
  {
    if polarity && l.Var? && ConstOf(rhs).Some? {
      filtered := true;
      changed, r := UpdateBoundsViaEquality(b, l.v, ConstOf(rhs).value);
    } else if polarity && rhs.Var? && ConstOf(l).Some? {
      filtered := true;
      changed, r := UpdateBoundsViaEquality(b, rhs.v, ConstOf(l).value);
    } else {
      filtered, changed, r := false, false, b;
      if !polarity { MeetsNothing(types, Rel(EQ, l, rhs), polarity, b); }
    }
  }

  lemma MeetsNothing(types: seq<VarType>, f: Formula, polarity: bool, b: Box)
    requires ValidBox(b, |types|) && BoundInScope(f, polarity, |types|)
    requires AsBound(f, polarity).Some? ==> AsBound(f, polarity).value.op == NEQ
    ensures FilteredBox(types, f, polarity, b) == b
  {
    if b.Box? && AsBound(f, polarity).Some? {
      var v := AsBound(f, polarity).value.v;
      assert b.iv[v := b.iv[v]] == b.iv;
    }
  }

  /** `VisitGreaterThan`, and with the polarity flipped `VisitLessThanOrEqualTo`. */
  method VisitGreaterThan(types: seq<VarType>, l: Expr, rhs: Expr, b: Box, polarity: bool)
    returns (filtered: bool, changed: bool, r: Box)
    requires b.Box? && ValidBox(b, |types|) && BoundInScope(Rel(GT, l, rhs), polarity, |types|)
    ensures filtered <==> IsFiltered(types, Rel(GT, l, rhs), polarity)
    ensures r == FilteredBox(types, Rel(GT, l, rhs), polarity, b) && (changed <==> r != b)
  {
    if l.Var? && ConstOf(rhs).Some? {
      if polarity {
        filtered, changed, r := UpdateStrictLowerBound(types[l.v], b, l.v, ConstOf(rhs).value);
      } else {
        filtered := true;
        changed, r := UpdateUpperBound(b, l.v, ConstOf(rhs).value);
      }
    } else if rhs.Var? && ConstOf(l).Some? {
      if polarity {
        filtered, changed, r := UpdateStrictUpperBound(types[rhs.v], b, rhs.v, ConstOf(l).value);
      } else {
        filtered := true;
        changed, r := UpdateLowerBound(b, rhs.v, ConstOf(l).value);
      }
    } else {
      filtered, changed, r := false, false, b;
    }
  }

  /** `VisitGreaterThanOrEqualTo`, and with the polarity flipped `VisitLessThan`. */
  method VisitGreaterThanOrEqualTo(types: seq<VarType>, l: Expr, rhs: Expr, b: Box, polarity: bool)
    returns (filtered: bool, changed: bool, r: Box)
    requires b.Box? && ValidBox(b, |types|) && BoundInScope(Rel(GEQ, l, rhs), polarity, |types|)
    ensures filtered <==> IsFiltered(types, Rel(GEQ, l, rhs), polarity)
    ensures r == FilteredBox(types, Rel(GEQ, l, rhs), polarity, b) && (changed <==> r != b)
  {
    if l.Var? && ConstOf(rhs).Some? {
      if polarity {
        filtered := true;
        changed, r := UpdateLowerBound(b, l.v, ConstOf(rhs).value);
      } else {
        filtered, changed, r := UpdateStrictUpperBound(types[l.v], b, l.v, ConstOf(rhs).value);
      }
    } else if rhs.Var? && ConstOf(l).Some? {
      if polarity {
        filtered := true;
        changed, r := UpdateUpperBound(b, rhs.v, ConstOf(l).value);
      } else {
        filtered, changed, r := UpdateStrictLowerBound(types[rhs.v], b, rhs.v, ConstOf(l).value);
      }
    } else {
      filtered, changed, r := false, false, b;
    }
  }

  /** `AssertionFilter::Visit`. The method meets the meaning of the bound under
      every operator, side and number of negations. */
  method Visit(types: seq<VarType>, f: Formula, b: Box, polarity: bool)
    returns (filtered: bool, changed: bool, r: Box)
    requires b.Box? && ValidBox(b, |types|) && BoundInScope(f, polarity, |types|)
    ensures filtered <==> IsFiltered(types, f, polarity)
    ensures r == FilteredBox(types, f, polarity, b) && (changed <==> r != b)
    decreases f
  {
    match f
    case Rel(EQ, l, rhs) => filtered, changed, r := VisitEqualTo(types, l, rhs, b, polarity);
    case Rel(NEQ, l, rhs) => filtered, changed, r := VisitEqualTo(types, l, rhs, b, !polarity);
    case Rel(GT, l, rhs) => filtered, changed, r := VisitGreaterThan(types, l, rhs, b, polarity);
    case Rel(GEQ, l, rhs) => filtered, changed, r := VisitGreaterThanOrEqualTo(types, l, rhs, b, polarity);
    case Rel(LT, l, rhs) => filtered, changed, r := VisitGreaterThanOrEqualTo(types, l, rhs, b, !polarity);
    case Rel(LEQ, l, rhs) => filtered, changed, r := VisitGreaterThan(types, l, rhs, b, !polarity);
    case Not(g) => filtered, changed, r := Visit(types, g, b, !polarity);
    case _ => filtered, changed, r := false, false, b;
  }

  /** `FilterAssertion`. What it reports for a bound over an emptied box depends
      on the interval library; the box stays empty. */
  method FilterAssertion(types: seq<VarType>, f: Formula, b: Box) returns (filtered: bool, changed: bool, r: Box)
    requires ValidBox(b, |types|) && BoundInScope(f, true, |types|)
    ensures filtered <==> IsFiltered(types, f, true)
    ensures r == FilteredBox(types, f, true, b)
    ensures b.Box? ==> (changed <==> r != b)
  {
    if b.Box? {
      filtered, changed, r := Visit(types, f, b, true);
    } else {
      changed := *;
      filtered, r := IsFiltered(types, f, true), b;
    }
  }

  // --------------------------------------------------------- what it means

  /** The contract every narrowing by a recorded constraint must meet. */
  lemma FilteringKeeps(types: seq<VarType>, f: Formula, b: Box)
    requires ValidBox(b, |types|) && BoundInScope(f, true, |types|)
    ensures var r := FilteredBox(types, f, true, b);
            ValidBox(r, |types|) && SubBox(r, b) && SameOff(b, r, FreeVars(f)) &&
            forall p | InBox(b, p) && Obeys(f, p) :: InBox(r, p)
  {
    var r := FilteredBox(types, f, true, b);
    AsBoundIsFinite(f, true);
    assert AsBound(f, true).Some? ==> AsBound(f, true).value.v in FreeVars(f) by {
      AsBoundMeaning(f, true, (v: nat) => 0.0);
    }
    forall p | InBox(b, p) && Obeys(f, p) ensures InBox(r, p) {
      AsBoundMeaning(f, true, p);
      if AsBound(f, true).Some? {
        var bd := AsBound(f, true).value;
        MeetContains(b, bd.v, BoundInterval(types[bd.v], bd.op, bd.c), p);
      }
    }
  }

  /** What is left of the box lies inside the bound. */
  lemma FilteredIsInside(types: seq<VarType>, f: Formula, b: Box)
    requires ValidBox(b, |types|) && BoundInScope(f, true, |types|) && AsBound(f, true).Some?
    ensures var r := FilteredBox(types, f, true, b); r.Box? ==> InsideBound(f, r)
  {
  }

  lemma MeetContains(b: Box, v: nat, iv: Interval, p: Point)
    requires b.Box? && v < |b.iv| && ValidInterval(b.iv[v]) && ValidInterval(iv)
    ensures InBox(Meet(b, v, iv), p) <==> InBox(b, p) && Contains(iv, p(v))
  {
    var r := Meet(b, v, iv);
    if r.Box? && InBox(r, p) {
      forall i | 0 <= i < |b.iv| ensures Contains(b.iv[i], p(i)) { assert Contains(r.iv[i], p(i)); }
    }
    if InBox(b, p) && Contains(iv, p(v)) {
      assert Contains(b.iv[v], p(v));
    }
  }

  /** A strict bound at the largest or smallest finite double: the neighbouring
      double is the bound itself. */
  predicate StrictAtEdge(f: Formula) {
    match AsBound(f, true)
    case Some(Bound(_, op, c)) => (op == GT && c == MAX) || (op == LT && c == -MAX)
    case None => false
  }

  /** A filtered constraint may be dropped: every point of the new box satisfies
      it. This holds exactly when the new box is empty or the bound is not a
      strict one at the edge of the finite doubles. */
  lemma FilteredIsImplied(types: seq<VarType>, f: Formula, b: Box)
    requires ValidBox(b, |types|) && BoundInScope(f, true, |types|) && IsFiltered(types, f, true)
    ensures var r := FilteredBox(types, f, true, b);
            (forall p | InBox(r, p) :: Holds(f, p)) <==> (r.NoPoints? || !StrictAtEdge(f))
  {
    var r := FilteredBox(types, f, true, b);
    var bd := AsBound(f, true).value;
    AsBoundIsFinite(f, true);
    if r.Box? {
      if StrictAtEdge(f) {
        var at := (v: nat) => if v == bd.v then bd.c as real else 0.0;
        assert Covers(r, {bd.v}, at);
        var p := Fill(r, {bd.v}, at, |types|);
        AsBoundMeaning(f, true, p);
        assert InBox(r, p) && !Holds(f, p);
      } else {
        forall p | InBox(r, p) ensures Holds(f, p) {
          MeetContains(b, bd.v, BoundInterval(types[bd.v], bd.op, bd.c), p);
          AsBoundMeaning(f, true, p);
        }
      }
    }
  }

  /** On grid points filtering is exact. */
  lemma FilteringIsExactOnGrid(types: seq<VarType>, f: Formula, b: Box, p: Point)
    requires ValidBox(b, |types|) && BoundInScope(f, true, |types|) && IsFiltered(types, f, true) && !StrictAtEdge(f)
    requires forall v | v in FreeVars(f) :: p(v) == p(v).Floor as real
    ensures InBox(FilteredBox(types, f, true, b), p) <==> InBox(b, p) && Holds(f, p)
  {
    FilteredIsImplied(types, f, b);
    FilteringKeeps(types, f, b);
    GridPointsAreClear(f, p);
    if InBox(FilteredBox(types, f, true, b), p) {
      SubBoxContains(FilteredBox(types, f, true, b), b, |types|, p);
    }
  }
}
