/** Common fixpoints of simple contractors: what the round-robin and the
    worklist loops converge to, and why the order of contractors is irrelevant. */
module FixpointTheory {
  import opened Symbolic
  import opened Boxes
  import opened ContractorSpec

  predicate AllSimple(cs: seq<Contractor>) {
    forall j | 0 <= j < |cs| :: Simple(cs[j])
  }

  /** HC4 is monotone. */
  ghost predicate MonotoneForeign(fo: Foreign) {
    forall f, a, b, n: nat | ValidBox(a, n) && ValidBox(b, n) && SubBox(a, b) :: SubBox(fo.hc4(f, a), fo.hc4(f, b))
  }

  ghost predicate AgreeOnDims(a: Box, b: Box, vars: set<nat>) {
    a.Box? && b.Box? && |a.iv| == |b.iv| && forall i | 0 <= i < |a.iv| && i in vars :: a.iv[i] == b.iv[i]
  }

  /** Whether HC4 has nothing to narrow depends on the variables of `f` only. */
  ghost predicate LocalForeign(fo: Foreign) {
    forall f, a, b, n: nat | ValidBox(a, n) && ValidBox(b, n) && AgreeOnDims(a, b, FreeVars(f)) && fo.hc4(f, a) == a ::
      fo.hc4(f, b) == b
  }

  ghost predicate CommonFixpoint(fo: Foreign, types: seq<VarType>, cs: seq<Contractor>, b: Box) {
    && ValidBox(b, |types|)
    && forall j | 0 <= j < |cs| && Simple(cs[j]) :: Apply(fo, types, cs[j], b) == b
  }

  /** Every common fixpoint below `b0` is below `b`. */
  ghost predicate AboveFixpoints(fo: Foreign, types: seq<VarType>, cs: seq<Contractor>, b0: Box, b: Box) {
    forall F | CommonFixpoint(fo, types, cs, F) && SubBox(F, b0) :: SubBox(F, b)
  }

  ghost predicate GreatestCommonFixpoint(fo: Foreign, types: seq<VarType>, cs: seq<Contractor>, b0: Box, r: Box) {
    CommonFixpoint(fo, types, cs, r) && SubBox(r, b0) && AboveFixpoints(fo, types, cs, b0, r)
  }

  lemma CeilFloorMonotone(a: int, b: int)
    requires a <= b
    ensures CeilUnit(a) <= CeilUnit(b) && FloorUnit(a) <= FloorUnit(b)
  {
    MultiplesApart(CeilUnit(a), CeilUnit(b));
    MultiplesApart(FloorUnit(a), FloorUnit(b));
  }

  lemma TightenAtMonotone(types: seq<VarType>, a: Box, b: Box, i: nat)
    requires ValidBox(a, |types|) && ValidBox(b, |types|) && i < |types| && SubBox(a, b)
    ensures SubBox(TightenAt(types, a, i), TightenAt(types, b, i))
  {
    if a.Box? && IsIntType(types[i]) {
      var x, y := a.iv[i], b.iv[i];
      CeilFloorMonotone(y.lo, x.lo);
      CeilFloorMonotone(x.hi, y.hi);
      if IntegralInterval(x) { RoundingFixes(x.lo); RoundingFixes(x.hi); }
      if IntegralInterval(y) { RoundingFixes(y.lo); RoundingFixes(y.hi); }
    }
  }

  lemma {:induction false} TightenBelowMonotone(types: seq<VarType>, a: Box, b: Box, k: nat)
    requires ValidBox(a, |types|) && ValidBox(b, |types|) && k <= |types| && SubBox(a, b)
    ensures SubBox(TightenBelow(types, a, k), TightenBelow(types, b, k))
  {
    if k == 0 {
    } else {
      TightenBelowMonotone(types, a, b, k - 1);
      TightenAtMonotone(types, TightenBelow(types, a, k - 1), TightenBelow(types, b, k - 1), k - 1);
    }
  }

  lemma ApplyMonotone(fo: Foreign, types: seq<VarType>, c: Contractor, a: Box, b: Box)
    requires MonotoneForeign(fo) && Simple(c)
    requires ValidBox(a, |types|) && ValidBox(b, |types|) && SubBox(a, b)
    ensures SubBox(Apply(fo, types, c, a), Apply(fo, types, c, b))
  {
    if c.IntegerCtc? { TightenBelowMonotone(types, a, b, |types|); }
  }

  /** Applying one of the contractors never drops below a common fixpoint. */
  lemma AboveStep(fo: Foreign, types: seq<VarType>, cs: seq<Contractor>, j: nat, b0: Box, b: Box, b': Box)
    requires MonotoneForeign(fo) && AllSimple(cs) && j < |cs|
    requires ValidBox(b, |types|) && AboveFixpoints(fo, types, cs, b0, b) && b' == Apply(fo, types, cs[j], b)
    ensures AboveFixpoints(fo, types, cs, b0, b')
  {
    forall F | CommonFixpoint(fo, types, cs, F) && SubBox(F, b0) ensures SubBox(F, b') {
      ApplyMonotone(fo, types, cs[j], F, b);
    }
  }

  /** A tightened dimension set is a fixpoint exactly when every integer
      dimension has integer ends. */
  lemma {:induction false} IntegralIsFixed(types: seq<VarType>, b: Box, k: nat)
    requires ValidBox(b, |types|) && k <= |types|
    requires b.Box? ==> forall i | 0 <= i < k && IsIntType(types[i]) :: IntegralInterval(b.iv[i])
    ensures TightenBelow(types, b, k) == b
  {
    if k == 0 {
    } else {
      IntegralIsFixed(types, b, k - 1);
    }
  }

  /** A fixed contractor stays fixed while its input dimensions do not change. */
  lemma FixedByLocality(fo: Foreign, types: seq<VarType>, c: Contractor, a: Box, b: Box)
    requires LocalForeign(fo) && Simple(c) && ValidBox(a, |types|) && ValidBox(b, |types|)
    requires AgreeOnDims(a, b, Inputs(c, types)) && Apply(fo, types, c, a) == a
    ensures Apply(fo, types, c, b) == b
  {
    if c.IntegerCtc? {
      forall i | 0 <= i < |types| && IsIntType(types[i]) ensures IntegralInterval(b.iv[i]) {
        assert i in Inputs(c, types);
        assert TightenBelow(types, a, |types|).Box?;
        assert IntegralInterval(TightenBelow(types, a, |types|).iv[i]);
      }
      IntegralIsFixed(types, b, |types|);
    }
  }

  /** There is one greatest common fixpoint, and it depends on the contractors
      only as a set. */
  lemma GreatestFixpointUnique(fo: Foreign, types: seq<VarType>, cs: seq<Contractor>, cs': seq<Contractor>,
                               b0: Box, r: Box, r': Box)
    requires forall c :: c in cs <==> c in cs'
    requires GreatestCommonFixpoint(fo, types, cs, b0, r) && GreatestCommonFixpoint(fo, types, cs', b0, r')
    ensures r == r'
  {
    CommonFixpointReorder(fo, types, cs, cs', r);
    CommonFixpointReorder(fo, types, cs', cs, r');
    assert SubBox(r, r') && SubBox(r', r);
    if r.Box? {
      forall i | 0 <= i < |types| ensures r.iv[i] == r'.iv[i] {
        assert Within(r.iv[i], r'.iv[i]) && Within(r'.iv[i], r.iv[i]);
      }
    }
  }

  lemma CommonFixpointReorder(fo: Foreign, types: seq<VarType>, cs: seq<Contractor>, cs': seq<Contractor>, b: Box)
    requires forall c :: c in cs' ==> c in cs
    requires CommonFixpoint(fo, types, cs, b)
    ensures CommonFixpoint(fo, types, cs', b)
  {
    forall j | 0 <= j < |cs'| && Simple(cs'[j]) ensures Apply(fo, types, cs'[j], b) == b {
      assert cs'[j] in cs;
      var k :| 0 <= k < |cs| && cs[k] == cs'[j];
    }
  }

  /** The greatest common fixpoint lies inside every result of the round-robin
      loop, which may stop early. */
  lemma GreatestFixpointIsInside(fo: Foreign, types: seq<VarType>, cs: seq<Contractor>, b0: Box, r: Box, s: Box)
    requires GreatestCommonFixpoint(fo, types, cs, b0, r) && AboveFixpoints(fo, types, cs, b0, s)
    ensures SubBox(r, s)
  {
  }
}
