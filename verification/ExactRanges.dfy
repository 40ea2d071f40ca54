/** How sharp interval evaluation is (solver/expression_evaluator.cc): every
    interval operation yields exactly the values of the operation, so that an
    expression in which no variable occurs twice has exactly its values over the
    box as its range, and a constraint between such expressions is decided.

    Powers need roots, whose existence is the one fact about the reals that is
    taken as a hypothesis here. */
module ExactRanges {
  import opened Symbolic
  import opened Boxes
  import opened Explanations
  import opened Evaluator

  /** The range has a real in it. */
  predicate Inhabited(g: Range) {
    Leq(g.lo, g.hi) && !g.lo.PosInf? && !g.hi.NegInf?
  }

  // -------------------------------------------------------------- addition

  lemma SplitSum(a: Range, b: Range, z: real) returns (x: real, y: real)
    requires Inhabited(a) && Inhabited(b) && Encloses(AddRange(a, b), z)
    ensures Encloses(a, x) && Encloses(b, y) && x + y == z
  {
    if a.lo.Fin? && Leq(Fin(z - a.lo.r), b.hi) {
      x := a.lo.r;
    } else if b.hi.Fin? {
      x := z - b.hi.r;
    } else if a.hi.Fin? && Leq(b.lo, Fin(z - a.hi.r)) {
      x := a.hi.r;
    } else if b.lo.Fin? {
      x := z - b.lo.r;
    } else {
      x := z;
    }
    y := z - x;
  }

  /** Sums of values of `a` and `b` are exactly the values of the sum range. */
  lemma AddRangeIsExact(a: Range, b: Range, z: real)
    requires Inhabited(a) && Inhabited(b)
    ensures Encloses(AddRange(a, b), z) <==> exists x, y :: Encloses(a, x) && Encloses(b, y) && x + y == z
  {
    if Encloses(AddRange(a, b), z) { var x, y := SplitSum(a, b, z); }
  }

  // -------------------------------------------------------- multiplication

  function Product(x: real, y: real): real {
    x * y
  }

  lemma QuotientTimes(z: real, y: real, x: real)
    requires y != 0.0 && x == z / y
    ensures x * y == z
  {
  }

  /** A quotient by a positive number compares as the product does. */
  lemma QuotientOrder(z: real, y: real, x: real, l: real)
    requires y > 0.0 && x * y == z
    ensures l * y <= z ==> l <= x
    ensures z <= l * y ==> x <= l
  {
    if l * y <= z && x < l { StrictTimes(x, l, y); }
    if z <= l * y && l < x { StrictTimes(l, x, y); }
  }

  lemma StrictTimes(a: real, b: real, y: real)
    requires a < b && y > 0.0
    ensures a * y < b * y
  {
  }

  lemma TimesCommutes(x: real, y: real)
    ensures x * y == y * x
  {
  }

  /** A positive product factors within positive bounds, the first one finite. */
  lemma FactorBounded(l1: real, h1: real, l2: real, h2: Ext, z: real) returns (x: real, y: real)
    requires 0.0 <= l1 <= h1 && 0.0 <= l2 && Leq(Fin(l2), h2) && h1 > 0.0 && z > 0.0
    requires l1 * l2 <= z && (h2.Fin? ==> z <= h2.r * h1)
    ensures l1 <= x <= h1 && l2 <= y && Leq(Fin(y), h2) && x * y == z
  {
    y := z / h1;
    QuotientTimes(z, h1, y);
    TimesCommutes(y, h1);
    if h2.Fin? { QuotientOrder(z, h1, y, h2.r); }
    if l2 <= y {
      x := h1;
    } else {
      x, y := FactorAtLower(l1, h1, l2, z, y);
    }
  }

  lemma FactorAtLower(l1: real, h1: real, l2: real, z: real, y0: real) returns (x: real, y: real)
    requires h1 > 0.0 && z > 0.0 && y0 * h1 == z && y0 < l2 && l1 * l2 <= z
    ensures l1 <= x <= h1 && y == l2 && x * y == z
  {
    ZeroTimes(h1);
    QuotientOrder(z, h1, y0, 0.0);
    StrictTimes(y0, l2, h1);
    TimesCommutes(l2, h1);
    x, y := z / l2, l2;
    QuotientTimes(z, l2, x);
    QuotientOrder(z, l2, x, l1);
    QuotientOrder(z, l2, x, h1);
  }

  /** A positive product factors within positive bounds. */
  lemma FactorPositive(l1: real, h1: Ext, l2: real, h2: Ext, z: real) returns (x: real, y: real)
    requires 0.0 <= l1 && 0.0 <= l2 && Leq(Fin(l1), h1) && Leq(Fin(l2), h2) && Positive(h1) && Positive(h2)
    requires z > 0.0 && Product(l1, l2) <= z && Leq(Fin(z), EMul(h1, h2))
    ensures l1 <= x && Leq(Fin(x), h1) && l2 <= y && Leq(Fin(y), h2) && Product(x, y) == z
  {
    if h1.Fin? {
      if h2.Fin? {
        EMulReal(h1.r, h2.r);
        TimesCommutes(h1.r, h2.r);
      }
      x, y := FactorBounded(l1, h1.r, l2, h2, z);
    } else if l2 > 0.0 {
      x, y := z / l2, l2;
      QuotientTimes(z, l2, x);
      QuotientOrder(z, l2, x, l1);
    } else {
      x, y := FactorFar(l1, h2, z);
    }
  }

  /** With no bound above on `x`, a small `y` will do. */
  lemma FactorFar(l1: real, h2: Ext, z: real) returns (x: real, y: real)
    requires 0.0 <= l1 && Positive(h2) && z > 0.0
    ensures l1 <= x && 0.0 <= y && Leq(Fin(y), h2) && x * y == z
  {
    var far := l1 + 1.0;
    y := z / far;
    QuotientTimes(z, far, y);
    if Leq(Fin(y), h2) {
      QuotientOrder(z, far, y, 0.0);
      x := far;
    } else {
      y := h2.r;
      x := z / y;
      QuotientTimes(z, y, x);
      QuotientOrder(z, far, z / far, y);
      QuotientOrder(z, y, x, far);
    }
  }

  function Mirrored(g: Range): Range {
    Range(ENeg(g.hi), ENeg(g.lo))
  }

  lemma NegatedFactor(x: real, y: real)
    ensures (-x) * y == -(x * y) && x * (-y) == -(x * y)
  {
  }

  lemma RealNegates(x: real, y: real, z: real)
    requires z == x * y
    ensures EMul(Fin(x), Fin(y)) == Fin(z) && EMul(Fin(-x), Fin(y)) == Fin(-z) && EMul(Fin(x), Fin(-y)) == Fin(-z)
  {
    EMulReal(x, y);
    EMulReal(-x, y);
    EMulReal(x, -y);
    NegatedFactor(x, y);
  }

  lemma InfiniteNegates(a: Ext, y: real)
    requires !a.Fin?
    ensures EMul(ENeg(a), Fin(y)) == ENeg(EMul(a, Fin(y))) && EMul(a, Fin(-y)) == ENeg(EMul(a, Fin(y)))
  {
  }

  lemma EMulNegates(a: Ext, b: Ext)
    ensures EMul(ENeg(a), b) == ENeg(EMul(a, b)) && EMul(a, ENeg(b)) == ENeg(EMul(a, b))
  {
    if a.Fin? && b.Fin? {
      assert a == Fin(a.r) && b == Fin(b.r);
      RealNegates(a.r, b.r, a.r * b.r);
    } else if a.Fin? {
      assert a == Fin(a.r);
      InfiniteNegates(b, a.r);
      EMulCommutes(a, b);
      EMulCommutes(ENeg(a), b);
      EMulCommutes(a, ENeg(b));
    } else if b.Fin? {
      assert b == Fin(b.r);
      InfiniteNegates(a, b.r);
    }
  }

  lemma ExtremaMirror(u: Ext, v: Ext)
    ensures EMin(ENeg(u), ENeg(v)) == ENeg(EMax(u, v)) && EMax(ENeg(u), ENeg(v)) == ENeg(EMin(u, v))
    ensures EMin(u, v) == EMin(v, u) && EMax(u, v) == EMax(v, u)
  {
  }

  /** The range between the least and the greatest of four corners. */
  function Corners(ll: Ext, lh: Ext, hl: Ext, hh: Ext): Range {
    Range(EMin(EMin(ll, lh), EMin(hl, hh)), EMax(EMax(ll, lh), EMax(hl, hh)))
  }

  lemma MulRangeCorners(a: Range, b: Range, ll: Ext, lh: Ext, hl: Ext, hh: Ext)
    requires ll == EMul(a.lo, b.lo) && lh == EMul(a.lo, b.hi) && hl == EMul(a.hi, b.lo) && hh == EMul(a.hi, b.hi)
    ensures MulRange(a, b) == Corners(ll, lh, hl, hh)
  {
  }

  lemma CornersMirror(ll: Ext, lh: Ext, hl: Ext, hh: Ext)
    ensures Corners(ENeg(hl), ENeg(hh), ENeg(ll), ENeg(lh)) == Mirrored(Corners(ll, lh, hl, hh))
  {
    ExtremaMirror(ll, lh);
    ExtremaMirror(hl, hh);
    ExtremaMirror(EMin(ll, lh), EMin(hl, hh));
    ExtremaMirror(EMax(ll, lh), EMax(hl, hh));
  }

  lemma CornersReverse(ll: Ext, lh: Ext, hl: Ext, hh: Ext)
    ensures Corners(hh, hl, lh, ll) == Corners(ll, lh, hl, hh)
  {
  }

  lemma NegatedFactors(u: Ext, v: Ext)
    ensures EMul(ENeg(u), ENeg(v)) == EMul(u, v)
  {
    EMulNegates(u, ENeg(v));
    EMulNegates(u, v);
  }

  lemma BothMirrorByCorners(a: Range, b: Range, ll: Ext, lh: Ext, hl: Ext, hh: Ext)
    requires ll == EMul(a.lo, b.lo) && lh == EMul(a.lo, b.hi) && hl == EMul(a.hi, b.lo) && hh == EMul(a.hi, b.hi)
    ensures MulRange(Mirrored(a), Mirrored(b)) == MulRange(a, b)
  {
    NegatedFactors(a.lo, b.lo);
    NegatedFactors(a.lo, b.hi);
    NegatedFactors(a.hi, b.lo);
    NegatedFactors(a.hi, b.hi);
    MulRangeCorners(a, b, ll, lh, hl, hh);
    MulRangeCorners(Mirrored(a), Mirrored(b), hh, hl, lh, ll);
    CornersReverse(ll, lh, hl, hh);
  }

  /** Mirroring both factors leaves the product. */
  lemma BothMirror(a: Range, b: Range)
    ensures MulRange(Mirrored(a), Mirrored(b)) == MulRange(a, b)
  {
    BothMirrorByCorners(a, b, EMul(a.lo, b.lo), EMul(a.lo, b.hi), EMul(a.hi, b.lo), EMul(a.hi, b.hi));
  }

  lemma FirstMirrors(a: Range, b: Range, ll: Ext, lh: Ext, hl: Ext, hh: Ext)
    requires ll == EMul(a.lo, b.lo) && lh == EMul(a.lo, b.hi) && hl == EMul(a.hi, b.lo) && hh == EMul(a.hi, b.hi)
    ensures MulRange(Mirrored(a), b) == Mirrored(MulRange(a, b))
  {
    MulRangeCorners(a, b, ll, lh, hl, hh);
    EMulNegates(a.lo, b.lo);
    EMulNegates(a.lo, b.hi);
    EMulNegates(a.hi, b.lo);
    EMulNegates(a.hi, b.hi);
    MulRangeCorners(Mirrored(a), b, ENeg(hl), ENeg(hh), ENeg(ll), ENeg(lh));
    CornersMirror(ll, lh, hl, hh);
  }

  /** Mirroring a factor mirrors the product. */
  lemma MulRangeMirrors(a: Range, b: Range)
    ensures MulRange(Mirrored(a), b) == Mirrored(MulRange(a, b))
  {
    FirstMirrors(a, b, EMul(a.lo, b.lo), EMul(a.lo, b.hi), EMul(a.hi, b.lo), EMul(a.hi, b.hi));
  }

  lemma RealGrows(x: real, x': real, y: real)
    requires 0.0 < x <= x' && y > 0.0
    ensures Leq(EMul(Fin(x), Fin(y)), EMul(Fin(x'), Fin(y))) && Positive(EMul(Fin(x), Fin(y)))
  {
    var p, p' := x * y, x' * y;
    ProductGrows(x, x', y, p, p');
    ProductIsFinite(x, y, p);
    ProductIsFinite(x', y, p');
  }

  lemma ProductGrows(x: real, x': real, y: real, p: real, p': real)
    requires 0.0 < x <= x' && y > 0.0 && p == x * y && p' == x' * y
    ensures 0.0 < p <= p'
  {
    OrderTimes(x, x', y);
  }

  lemma ProductIsFinite(x: real, y: real, p: real)
    requires p == x * y
    ensures EMul(Fin(x), Fin(y)) == Fin(p)
  {
    EMulReal(x, y);
  }

  lemma EMulGrows(u: Ext, u': Ext, v: Ext)
    requires Leq(u, u') && Positive(u) && Positive(v)
    ensures Leq(EMul(u, v), EMul(u', v)) && Leq(EMul(v, u), EMul(v, u')) && Positive(EMul(u, v))
  {
    EMulCommutes(u, v);
    EMulCommutes(u', v);
    if u.Fin? && v.Fin? {
      assert u == Fin(u.r) && v == Fin(v.r);
      RealGrows(u.r, if u'.Fin? then u'.r else u.r, v.r);
    } else {
      assert EMul(u, v) == PosInf;
    }
  }

  /** The lower end of the positive part. */
  function PositivePart(a: Ext): real {
    if Positive(a) && a.Fin? then a.r else 0.0
  }

  lemma FactorUpper(a: Range, b: Range, z: real) returns (x: real, y: real)
    requires Inhabited(a) && Inhabited(b) && z > 0.0 && Product(PositivePart(a.lo), PositivePart(b.lo)) <= z
    requires Positive(a.hi) && Positive(b.hi) && Leq(Fin(z), EMul(a.hi, b.hi))
    ensures Encloses(a, x) && Encloses(b, y) && Product(x, y) == z
  {
    x, y := FactorPositive(PositivePart(a.lo), a.hi, PositivePart(b.lo), b.hi, z);
  }

  /** The product of the lower ends of the positive parts is below every positive
      value of the product. */
  lemma LowerPartsBelow(a: Range, b: Range, z: real)
    requires Inhabited(a) && Inhabited(b) && Encloses(MulRange(a, b), z) && z > 0.0
    ensures Product(PositivePart(a.lo), PositivePart(b.lo)) <= z
  {
    if Positive(a.lo) && Positive(b.lo) {
      PositiveFactors(a, b);
      LowestIsProduct(a.lo, b.lo, EMul(a.lo, b.lo), z);
    } else {
      ZeroProduct(PositivePart(a.lo), PositivePart(b.lo));
    }
  }

  lemma LowestIsProduct(u: Ext, v: Ext, low: Ext, z: real)
    requires Positive(u) && Positive(v) && low == EMul(u, v) && Leq(low, Fin(z)) && u.Fin? && v.Fin?
    ensures Product(PositivePart(u), PositivePart(v)) <= z
  {
    assert u == Fin(u.r) && v == Fin(v.r);
    EMulReal(u.r, v.r);
  }

  lemma ZeroProduct(x: real, y: real)
    requires x == 0.0 || y == 0.0
    ensures Product(x, y) == 0.0
  {
  }

  lemma LowestCorner(ll: Ext, lh: Ext, hl: Ext, hh: Ext)
    requires Leq(ll, lh) && Leq(ll, hl) && Leq(lh, hh)
    ensures EMin(EMin(ll, lh), EMin(hl, hh)) == ll
  {
  }

  /** A positive value of the product comes from the upper ends, or from the lower
      ends, both of the same sign. */
  lemma PositiveCorner(a: Range, b: Range, z: real)
    requires Inhabited(a) && Inhabited(b) && Encloses(MulRange(a, b), z) && z > 0.0
    ensures || (Positive(a.hi) && Positive(b.hi) && Leq(Fin(z), EMul(a.hi, b.hi)))
            || (Positive(ENeg(a.lo)) && Positive(ENeg(b.lo)) && Leq(Fin(z), EMul(a.lo, b.lo)))
  {
    if Leq(Fin(z), EMul(a.hi, b.hi)) {
      CornerSign(a.hi, b.hi, z);
      LowerCorner(a, b, a.hi, b.hi, z);
    } else if Leq(Fin(z), EMul(a.lo, b.lo)) {
      CornerSign(a.lo, b.lo, z);
      UpperCorner(a, b, a.lo, b.lo, z);
    } else if Leq(Fin(z), EMul(a.lo, b.hi)) {
      CornerSign(a.lo, b.hi, z);
      UpperCorner(a, b, a.lo, b.hi, z);
      LowerCorner(a, b, a.lo, b.hi, z);
    } else {
      CornerSign(a.hi, b.lo, z);
      UpperCorner(a, b, a.hi, b.lo, z);
      LowerCorner(a, b, a.hi, b.lo, z);
    }
  }

  lemma CornerSign(u: Ext, v: Ext, z: real)
    requires z > 0.0 && Leq(Fin(z), EMul(u, v))
    ensures (Positive(u) && Positive(v)) || (Positive(ENeg(u)) && Positive(ENeg(v)))
  {
    if u.Fin? && v.Fin? {
      var product := u.r * v.r;
      assert product > 0.0 by { EMulReal(u.r, v.r); }
      SignsOfProduct(u.r, v.r, product);
    }
  }

  lemma SignsOfProduct(x: real, y: real, product: real)
    requires product == x * y && product > 0.0
    ensures (x > 0.0 && y > 0.0) || (x < 0.0 && y < 0.0)
  {
    if x > 0.0 && y <= 0.0 { OrderTimes(0.0, x, y); }
    if x < 0.0 && y >= 0.0 { OrderTimes(x, 0.0, y); }
    if x == 0.0 { ZeroTimes(y); }
  }

  /** A positive corner of positive ends is below that of the upper ends. */
  lemma UpperCorner(a: Range, b: Range, u: Ext, v: Ext, z: real)
    requires Leq(u, a.hi) && Leq(v, b.hi) && Leq(Fin(z), EMul(u, v))
    ensures Positive(u) && Positive(v) ==> Positive(a.hi) && Positive(b.hi) && Leq(Fin(z), EMul(a.hi, b.hi))
  {
    if Positive(u) && Positive(v) {
      EMulGrows(u, a.hi, v);
      EMulGrows(v, b.hi, a.hi);
    }
  }

  lemma LowerCorner(a: Range, b: Range, u: Ext, v: Ext, z: real)
    requires Leq(a.lo, u) && Leq(b.lo, v) && Leq(Fin(z), EMul(u, v))
    ensures Positive(ENeg(u)) && Positive(ENeg(v)) ==>
              Positive(ENeg(a.lo)) && Positive(ENeg(b.lo)) && Leq(Fin(z), EMul(a.lo, b.lo))
  {
    if Positive(ENeg(u)) && Positive(ENeg(v)) {
      NegatedFactors(u, v);
      NegatedFactors(a.lo, b.lo);
      EMulGrows(ENeg(u), ENeg(a.lo), ENeg(v));
      EMulGrows(ENeg(v), ENeg(b.lo), ENeg(a.lo));
    }
  }

  lemma NegatedTimes(x: real, y: real, z: real)
    requires Product(x, y) == z
    ensures Product(-x, -y) == z && Product(-x, y) == -z
  {
  }

  lemma MirroredValue(a: Range, x: real)
    ensures Encloses(Mirrored(a), x) <==> Encloses(a, -x)
    ensures Inhabited(Mirrored(a)) <==> Inhabited(a)
  {
  }

  /** A value that comes from the lower ends is one of the mirrored factors. */
  lemma LowerIsUpper(a: Range, b: Range, z: real)
    requires Encloses(MulRange(a, b), z) && Leq(Fin(z), EMul(a.lo, b.lo))
    ensures Encloses(MulRange(Mirrored(a), Mirrored(b)), z)
    ensures Leq(Fin(z), EMul(ENeg(a.lo), ENeg(b.lo)))
  {
    BothMirror(a, b);
    NegatedFactors(a.lo, b.lo);
  }

  lemma FactorAbove(a: Range, b: Range, z: real) returns (x: real, y: real)
    requires Inhabited(a) && Inhabited(b) && Encloses(MulRange(a, b), z) && z > 0.0
    ensures Encloses(a, x) && Encloses(b, y) && Product(x, y) == z
  {
    PositiveCorner(a, b, z);
    if Positive(a.hi) && Positive(b.hi) && Leq(Fin(z), EMul(a.hi, b.hi)) {
      LowerPartsBelow(a, b, z);
      x, y := FactorUpper(a, b, z);
    } else {
      LowerIsUpper(a, b, z);
      MirroredValue(a, 0.0);
      MirroredValue(b, 0.0);
      LowerPartsBelow(Mirrored(a), Mirrored(b), z);
      x, y := FactorMirrored(a, b, Mirrored(a), Mirrored(b), z);
    }
  }

  lemma FactorMirrored(a: Range, b: Range, m: Range, k: Range, z: real) returns (x: real, y: real)
    requires m == Mirrored(a) && k == Mirrored(b)
    requires Inhabited(m) && Inhabited(k) && z > 0.0 && Product(PositivePart(m.lo), PositivePart(k.lo)) <= z
    requires Positive(m.hi) && Positive(k.hi) && Leq(Fin(z), EMul(m.hi, k.hi))
    ensures Encloses(a, x) && Encloses(b, y) && Product(x, y) == z
  {
    var x', y' := FactorUpper(m, k, z);
    MirroredValue(a, x');
    MirroredValue(b, y');
    NegatedTimes(x', y', z);
    x, y := -x', -y';
  }

  lemma FactorZero(a: Range, b: Range) returns (x: real, y: real)
    requires Inhabited(a) && Inhabited(b) && Encloses(MulRange(a, b), 0.0)
    ensures Encloses(a, x) && Encloses(b, y) && Product(x, y) == 0.0
  {
    x, y := AnyValue(a), AnyValue(b);
    if Encloses(a, 0.0) {
      x := 0.0;
    } else if Encloses(b, 0.0) {
      y := 0.0;
    } else {
      NoZeroCorner(a, b, EMul(a.lo, b.lo), EMul(a.lo, b.hi), EMul(a.hi, b.lo), EMul(a.hi, b.hi));
    }
  }

  function AnyValue(g: Range): (x: real)
    requires Inhabited(g)
    ensures Encloses(g, x)
  {
    if g.lo.Fin? then g.lo.r else if g.hi.Fin? then g.hi.r else 0.0
  }

  lemma CornerSigns(u: Ext, v: Ext)
    ensures (Positive(u) && Positive(v)) || (Positive(ENeg(u)) && Positive(ENeg(v))) ==> Positive(EMul(u, v))
    ensures (Positive(u) && Positive(ENeg(v))) || (Positive(ENeg(u)) && Positive(v)) ==> Positive(ENeg(EMul(u, v)))
  {
    NegatedFactors(u, v);
    EMulNegates(u, v);
    if Positive(u) && Positive(v) { EMulGrows(u, u, v); }
    if Positive(ENeg(u)) && Positive(ENeg(v)) { EMulGrows(ENeg(u), ENeg(u), ENeg(v)); }
    if Positive(u) && Positive(ENeg(v)) { EMulGrows(u, u, ENeg(v)); }
    if Positive(ENeg(u)) && Positive(v) { EMulGrows(ENeg(u), ENeg(u), v); }
  }

  lemma CornersOfOneSign(ll: Ext, lh: Ext, hl: Ext, hh: Ext)
    ensures Positive(ll) && Positive(lh) && Positive(hl) && Positive(hh) ==> Positive(Corners(ll, lh, hl, hh).lo)
    ensures Positive(ENeg(ll)) && Positive(ENeg(lh)) && Positive(ENeg(hl)) && Positive(ENeg(hh)) ==>
              Positive(ENeg(Corners(ll, lh, hl, hh).hi))
  {
  }

  /** Factors without zero have a product without zero. */
  lemma NoZeroCorner(a: Range, b: Range, ll: Ext, lh: Ext, hl: Ext, hh: Ext)
    requires Inhabited(a) && Inhabited(b) && !Encloses(a, 0.0) && !Encloses(b, 0.0)
    requires ll == EMul(a.lo, b.lo) && lh == EMul(a.lo, b.hi) && hl == EMul(a.hi, b.lo) && hh == EMul(a.hi, b.hi)
    ensures !Encloses(MulRange(a, b), 0.0)
  {
    CornerSigns(a.lo, b.lo);
    CornerSigns(a.lo, b.hi);
    CornerSigns(a.hi, b.lo);
    CornerSigns(a.hi, b.hi);
    CornersOfOneSign(ll, lh, hl, hh);
    MulRangeCorners(a, b, ll, lh, hl, hh);
  }

  lemma PositiveFactors(a: Range, b: Range)
    requires Inhabited(a) && Inhabited(b) && Positive(a.lo) && Positive(b.lo)
    ensures MulRange(a, b).lo == EMul(a.lo, b.lo) && Positive(MulRange(a, b).lo)
  {
    EMulGrows(b.lo, b.hi, a.lo);
    EMulGrows(a.lo, a.hi, b.lo);
    EMulGrows(a.lo, a.hi, b.hi);
    LowestCorner(EMul(a.lo, b.lo), EMul(a.lo, b.hi), EMul(a.hi, b.lo), EMul(a.hi, b.hi));
  }

  lemma NegateFactor(a: Range, x': real, y: real, z: real) returns (x: real)
    requires Encloses(Mirrored(a), x') && Product(x', y) == -z
    ensures Encloses(a, x) && Product(x, y) == z
  {
    x := -x';
    MirroredValue(a, x');
    NegatedTimes(x', y, -z);
  }

  lemma FactorProduct(a: Range, b: Range, z: real) returns (x: real, y: real)
    requires Inhabited(a) && Inhabited(b) && Encloses(MulRange(a, b), z)
    ensures Encloses(a, x) && Encloses(b, y) && Product(x, y) == z
  {
    if z > 0.0 {
      x, y := FactorAbove(a, b, z);
    } else if z == 0.0 {
      x, y := FactorZero(a, b);
    } else {
      MulRangeMirrors(a, b);
      MirroredValue(MulRange(a, b), -z);
      MirroredValue(a, 0.0);
      var x';
      x', y := FactorAbove(Mirrored(a), b, -z);
      x := NegateFactor(a, x', y, z);
    }
  }

  /** Products of values of `a` and `b` are exactly the values of the product
      range, also where an end is zero and another infinite. */
  lemma MulRangeIsExact(a: Range, b: Range, z: real)
    requires Inhabited(a) && Inhabited(b)
    ensures Encloses(MulRange(a, b), z) <==> exists x, y :: Encloses(a, x) && Encloses(b, y) && x * y == z
  {
    if Encloses(MulRange(a, b), z) { var x, y := FactorProduct(a, b, z); }
    if exists x, y :: Encloses(a, x) && Encloses(b, y) && x * y == z {
      var x, y :| Encloses(a, x) && Encloses(b, y) && x * y == z;
      MulEncloses(a, b, x, y, MulRange(a, b), z);
    }
  }

  // ----------------------------------------------- absolute value, extrema

  lemma AbsRangeIsExact(a: Range, z: real)
    requires Inhabited(a)
    ensures Encloses(AbsRange(a), z) <==> exists x :: Encloses(a, x) && RAbs(x) == z
  {
    if Encloses(AbsRange(a), z) {
      var x := if Encloses(a, z) then z else -z;
      assert Encloses(a, x) && RAbs(x) == z;
    }
  }

  function MinRange(a: Range, b: Range): Range {
    Range(EMin(a.lo, b.lo), EMin(a.hi, b.hi))
  }

  function MaxRange(a: Range, b: Range): Range {
    Range(EMax(a.lo, b.lo), EMax(a.hi, b.hi))
  }

  /** A value of the range not below `z`, `z` itself if possible. */
  function AtLeast(g: Range, z: real): real {
    if Leq(g.lo, Fin(z)) || !g.lo.Fin? then z else g.lo.r
  }

  function AtMost(g: Range, z: real): real {
    if Leq(Fin(z), g.hi) || !g.hi.Fin? then z else g.hi.r
  }

  lemma MinRangeIsExact(a: Range, b: Range, z: real)
    requires Inhabited(a) && Inhabited(b)
    ensures Encloses(MinRange(a, b), z) <==> exists x, y :: Encloses(a, x) && Encloses(b, y) && RMin(x, y) == z
  {
    if Encloses(MinRange(a, b), z) {
      var x, y := AtLeast(a, z), AtLeast(b, z);
      assert Encloses(a, x) && Encloses(b, y) && RMin(x, y) == z;
    }
  }

  lemma MaxRangeIsExact(a: Range, b: Range, z: real)
    requires Inhabited(a) && Inhabited(b)
    ensures Encloses(MaxRange(a, b), z) <==> exists x, y :: Encloses(a, x) && Encloses(b, y) && RMax(x, y) == z
  {
    if Encloses(MaxRange(a, b), z) {
      var x, y := AtMost(a, z), AtMost(b, z);
      assert Encloses(a, x) && Encloses(b, y) && RMax(x, y) == z;
    }
  }

  // ---------------------------------------------------------------- powers

  /** Every real that is not negative has a root of every degree. */
  ghost predicate RootsExist() {
    forall v: real, n: nat | v >= 0.0 && n > 0 :: HasRoot(v, n)
  }

  ghost predicate HasRoot(v: real, n: nat) {
    exists w :: w >= 0.0 && RPow(w, n) == v
  }

  lemma {:induction false} PowStrict(x: real, y: real, n: nat)
    requires 0.0 <= x < y && n > 0
    ensures RPow(x, n) < RPow(y, n)
  {
    PowMonotone(x, y, n - 1);
    if n == 1 {
    } else {
      PowStrict(x, y, n - 1);
      OrderTimes(x, y, RPow(x, n - 1));
      StrictTimes(RPow(x, n - 1), RPow(y, n - 1), y);
    }
  }

  /** Roots compare as the powers do. */
  lemma RootOrder(w: real, n: nat, l: real)
    requires w >= 0.0 && n > 0
    ensures l >= 0.0 && RPow(l, n) <= RPow(w, n) ==> l <= w
    ensures l >= 0.0 && RPow(w, n) <= RPow(l, n) ==> w <= l
  {
    if l >= 0.0 && w < l { PowStrict(w, l, n); }
    if l >= 0.0 && l < w { PowStrict(l, w, n); }
  }

  lemma OddPowSign(l: real, n: nat)
    requires n % 2 == 1 && l < 0.0
    ensures RPow(l, n) < 0.0
  {
    PowOfNegation(l, n);
    PowStrict(0.0, -l, n);
    assert RPow(0.0, n) == 0.0 * RPow(0.0, n - 1);
  }

  /** A root within the bounds of a range whose powers enclose `z`. */
  lemma RootWithin(a: Range, n: nat, z: real, w: real)
    requires n > 0 && w >= 0.0 && RPow(w, n) == z
    requires a.lo.Fin? && a.lo.r >= 0.0 ==> RPow(a.lo.r, n) <= z
    requires a.hi.Fin? ==> a.hi.r >= 0.0 && z <= RPow(a.hi.r, n)
    requires !a.lo.PosInf? && !a.hi.NegInf?
    ensures Encloses(a, w)
  {
    if a.lo.Fin? { RootOrder(w, n, a.lo.r); }
    if a.hi.Fin? { RootOrder(w, n, a.hi.r); }
  }

  lemma OddRoot(a: Range, n: nat, z: real) returns (x: real)
    requires RootsExist() && Inhabited(a) && n % 2 == 1 && Encloses(PowRange(a, n), z) && z >= 0.0
    ensures Encloses(a, x) && RPow(x, n) == z
  {
    assert HasRoot(z, n);
    x :| x >= 0.0 && RPow(x, n) == z;
    if a.hi.Fin? && a.hi.r < 0.0 { OddPowSign(a.hi.r, n); }
    RootWithin(a, n, z, x);
  }

  lemma EvenRoot(a: Range, n: nat, z: real) returns (x: real)
    requires RootsExist() && Inhabited(a) && n > 0 && n % 2 == 0 && z >= 0.0
    requires Leq(Fin(0.0), a.lo) ==> Leq(EPow(a.lo, n), Fin(z))
    requires Leq(Fin(0.0), a.hi) && Leq(Fin(z), EPow(a.hi, n))
    ensures Encloses(a, x) && RPow(x, n) == z
  {
    assert HasRoot(z, n);
    x :| x >= 0.0 && RPow(x, n) == z;
    RootWithin(a, n, z, x);
  }

  lemma EPowMirrors(a: Ext, n: nat)
    requires n > 0
    ensures EPow(ENeg(a), n) == if n % 2 == 0 then EPow(a, n) else ENeg(EPow(a, n))
  {
    if a.Fin? { PowOfNegation(a.r, n); }
  }

  /** The negated root of a mirrored range. */
  lemma NegateRoot(a: Range, n: nat, w: real, z: real) returns (x: real)
    requires Encloses(Mirrored(a), w) && RPow(w, n) == if n % 2 == 0 then z else -z
    ensures Encloses(a, x) && RPow(x, n) == z
  {
    x := -w;
    MirroredValue(a, w);
    PowOfNegation(w, n);
  }

  lemma OddRangeMirrors(a: Range, n: nat, z: real)
    requires n % 2 == 1 && Encloses(PowRange(a, n), z)
    ensures Encloses(PowRange(Mirrored(a), n), -z)
  {
    EPowMirrors(a.lo, n);
    EPowMirrors(a.hi, n);
    MirroredValue(PowRange(a, n), -z);
  }

  lemma TakeRoot(a: Range, n: nat, z: real) returns (x: real)
    requires RootsExist() && Inhabited(a) && Encloses(PowRange(a, n), z)
    ensures Encloses(a, x) && RPow(x, n) == z
  {
    if n == 0 {
      x := AnyValue(a);
    } else if n % 2 == 0 {
      x := TakeEvenRoot(a, n, z);
    } else if z >= 0.0 {
      x := OddRoot(a, n, z);
    } else {
      OddRangeMirrors(a, n, z);
      MirroredValue(a, 0.0);
      var w := OddRoot(Mirrored(a), n, -z);
      x := NegateRoot(a, n, w, z);
    }
  }

  lemma TakeEvenRoot(a: Range, n: nat, z: real) returns (x: real)
    requires RootsExist() && Inhabited(a) && n > 0 && n % 2 == 0 && Encloses(PowRange(a, n), z)
    ensures Encloses(a, x) && RPow(x, n) == z
  {
    EvenIsNotNegative(a, n, z);
    EvenCases(a, EPow(a.lo, n), EPow(a.hi, n), PowRange(a, n), z);
    if !Leq(a.hi, Fin(0.0)) && Leq(Fin(z), EPow(a.hi, n)) {
      x := EvenRoot(a, n, z);
    } else {
      EPowMirrors(a.lo, n);
      EPowMirrors(a.hi, n);
      MirroredValue(a, 0.0);
      var w := EvenRoot(Mirrored(a), n, z);
      x := NegateRoot(a, n, w, z);
    }
  }

  /** Which end a value of an even power comes from. */
  lemma EvenCases(a: Range, low: Ext, high: Ext, g: Range, z: real)
    requires Inhabited(a) && Encloses(g, z) && (a.lo == a.hi ==> low == high)
    requires g == if Leq(Fin(0.0), a.lo) then Range(low, high)
                  else if Leq(a.hi, Fin(0.0)) then Range(high, low)
                  else Range(Fin(0.0), EMax(low, high))
    ensures Leq(Fin(0.0), a.lo) ==> Leq(low, Fin(z)) && Leq(Fin(z), high)
    ensures Leq(a.hi, Fin(0.0)) ==> Leq(high, Fin(z)) && Leq(Fin(z), low)
    ensures !Leq(Fin(z), high) ==> Leq(a.lo, Fin(0.0)) && Leq(Fin(z), low)
  {
  }

  lemma EvenIsNotNegative(a: Range, n: nat, z: real)
    requires Inhabited(a) && n > 0 && n % 2 == 0 && Encloses(PowRange(a, n), z)
    ensures z >= 0.0
  {
    if Leq(Fin(0.0), a.lo) {
      PowMonotone(0.0, a.lo.r, n);
    } else if Leq(a.hi, Fin(0.0)) {
      PowOfNegation(a.hi.r, n);
      PowMonotone(0.0, -a.hi.r, n);
    }
  }

  /** Powers of values of `a` are exactly the values of the power range. */
  lemma PowRangeIsExact(a: Range, n: nat, z: real)
    requires RootsExist() && Inhabited(a)
    ensures Encloses(PowRange(a, n), z) <==> exists x :: Encloses(a, x) && RPow(x, n) == z
  {
    if Encloses(PowRange(a, n), z) { var x := TakeRoot(a, n, z); }
    if exists x :: Encloses(a, x) && RPow(x, n) == z {
      var x :| Encloses(a, x) && RPow(x, n) == z;
      PowEncloses(a, x, n);
    }
  }

  // ----------------------------------------------------------- expressions

  /** No variable occurs twice. */
  predicate ReadOnce(e: Expr) {
    match e
    case Const(_) => true
    case Var(_) => true
    case Add(x, y) => ReadOnce(x) && ReadOnce(y) && ExprVars(x) !! ExprVars(y)
    case Mul(x, y) => ReadOnce(x) && ReadOnce(y) && ExprVars(x) !! ExprVars(y)
    case Min(x, y) => ReadOnce(x) && ReadOnce(y) && ExprVars(x) !! ExprVars(y)
    case Max(x, y) => ReadOnce(x) && ReadOnce(y) && ExprVars(x) !! ExprVars(y)
    case Pow(x, _) => ReadOnce(x)
    case Abs(x) => ReadOnce(x)
    case Ite(_, _, _) => false
  }

  predicate PowerFree(e: Expr) {
    match e
    case Const(_) => true
    case Var(_) => true
    case Add(x, y) => PowerFree(x) && PowerFree(y)
    case Mul(x, y) => PowerFree(x) && PowerFree(y)
    case Min(x, y) => PowerFree(x) && PowerFree(y)
    case Max(x, y) => PowerFree(x) && PowerFree(y)
    case Pow(_, _) => false
    case Abs(x) => PowerFree(x)
    case Ite(_, _, _) => false
  }

  /** An expression in which no variable occurs twice, without powers unless roots
      exist, over a box that is not empty. */
  ghost predicate Sharp(e: Expr, b: Box) {
    && b.Box? && ValidBox(b, |b.iv|) && InScope(e, |b.iv|)
    && ReadOnce(e) && (PowerFree(e) || RootsExist())
  }

  lemma RangeInhabited(e: Expr, b: Box)
    requires b.Box? && ValidBox(b, |b.iv|) && InScope(e, |b.iv|)
    ensures Inhabited(EvalRange(e, b))
  {
    var p := AnyPoint(b, (v: nat) => 0.0, |b.iv|);
    EvalEncloses(e, b, p);
  }

  /** `z` is a value of the expression for some values of its operands within their
      ranges, each operand varying on its own. */
  ghost predicate TakenFromRanges(e: Expr, b: Box, z: real)
    requires b.Box? && InScope(e, |b.iv|)
  {
    match e
    case Const(c) => z == c
    case Var(v) => Contains(b.iv[v], z)
    case Pow(x, n) => exists u :: Encloses(EvalRange(x, b), u) && RPow(u, n) == z
    case Abs(x) => exists u :: Encloses(EvalRange(x, b), u) && RAbs(u) == z
    case Add(x, y) => exists u, v :: Encloses(EvalRange(x, b), u) && Encloses(EvalRange(y, b), v) && u + v == z
    case Mul(x, y) => exists u, v :: Encloses(EvalRange(x, b), u) && Encloses(EvalRange(y, b), v) && u * v == z
    case Min(x, y) => exists u, v :: Encloses(EvalRange(x, b), u) && Encloses(EvalRange(y, b), v) && RMin(u, v) == z
    case Max(x, y) => exists u, v :: Encloses(EvalRange(x, b), u) && Encloses(EvalRange(y, b), v) && RMax(u, v) == z
  }

  /** Interval evaluation is the natural interval extension: at every node, of any
      expression, the range is exactly the set of values of the operation over the
      ranges of the operands. */
  lemma EvalIsNatural(e: Expr, b: Box, z: real)
    requires b.Box? && ValidBox(b, |b.iv|) && InScope(e, |b.iv|) && (e.Pow? ==> RootsExist())
    ensures Encloses(EvalRange(e, b), z) <==> TakenFromRanges(e, b, z)
  {
    match e
    case Const(_) =>
    case Var(_) =>
    case Pow(x, n) => RangeInhabited(x, b); PowRangeIsExact(EvalRange(x, b), n, z);
    case Abs(x) => RangeInhabited(x, b); AbsRangeIsExact(EvalRange(x, b), z);
    case _ => BinaryIsNatural(e, b, z);
  }

  lemma BinaryIsNatural(e: Expr, b: Box, z: real)
    requires b.Box? && ValidBox(b, |b.iv|) && InScope(e, |b.iv|) && (e.Add? || e.Mul? || e.Min? || e.Max?)
    ensures Encloses(EvalRange(e, b), z) <==> TakenFromRanges(e, b, z)
  {
    var g, h := EvalRange(e.a, b), EvalRange(e.b, b);
    RangeInhabited(e.a, b);
    RangeInhabited(e.b, b);
    match e
    case Add(_, _) => AddRangeIsExact(g, h, z);
    case Mul(x, y) => ProductRange(x, y, b); MulRangeIsExact(g, h, z);
    case Min(_, _) => MinRangeIsExact(g, h, z);
    case Max(_, _) => MaxRangeIsExact(g, h, z);
  }

  /** Points for two expressions without a common variable make one point. */
  lemma JoinPoints(x: Expr, y: Expr, b: Box, p: Point, q: Point) returns (r: Point)
    requires ExprVars(x) !! ExprVars(y) && InBox(b, p) && InBox(b, q)
    ensures InBox(b, r) && Eval(x, r) == Eval(x, p) && Eval(y, r) == Eval(y, q)
  {
    r := Patch(p, q, ExprVars(y));
    EvalCoincides(x, r, p);
    EvalCoincides(y, r, q);
  }

  /** Values of the operands that yield `z`. */
  lemma OperandValues(e: Expr, b: Box, z: real) returns (u: real, v: real)
    requires Sharp(e, b) && (e.Add? || e.Mul? || e.Min? || e.Max?) && Encloses(EvalRange(e, b), z)
    ensures Encloses(EvalRange(e.a, b), u) && Encloses(EvalRange(e.b, b), v)
    ensures forall p :: Eval(e.a, p) == u && Eval(e.b, p) == v ==> Eval(e, p) == z
  {
    RangeInhabited(e.a, b);
    RangeInhabited(e.b, b);
    var g, h := EvalRange(e.a, b), EvalRange(e.b, b);
    match e
    case Add(x, y) => u, v := SplitSum(g, h, z);
    case Mul(x, y) =>
      ProductRange(x, y, b);
      u, v := FactorProduct(g, h, z);
      ProductIs(x, y, u, v, z);
    case Min(x, y) =>
      MinRangeIsExact(g, h, z);
      u, v :| Encloses(g, u) && Encloses(h, v) && RMin(u, v) == z;
    case Max(x, y) =>
      MaxRangeIsExact(g, h, z);
      u, v :| Encloses(g, u) && Encloses(h, v) && RMax(u, v) == z;
  }

  lemma ProductIs(x: Expr, y: Expr, u: real, v: real, z: real)
    requires Product(u, v) == z
    ensures forall p :: Eval(x, p) == u && Eval(y, p) == v ==> Eval(Mul(x, y), p) == z
  {
    forall p | Eval(x, p) == u && Eval(y, p) == v ensures Eval(Mul(x, y), p) == z {
      ProductValue(x, y, p, u, v, Eval(Mul(x, y), p));
    }
  }

  /** Every value in the range is taken at some point of the box. */
  lemma {:induction false} ValueIsTaken(e: Expr, b: Box, z: real) returns (p: Point)
    requires Sharp(e, b) && Encloses(EvalRange(e, b), z)
    ensures InBox(b, p) && Eval(e, p) == z
    decreases e, 1
  {
    p := AnyPoint(b, (v: nat) => 0.0, |b.iv|);
    match e
    case Const(_) =>
    case Var(v) => p := SetVariable(b, p, v, z);
    case Pow(x, n) =>
      RangeInhabited(x, b);
      var u := TakeRoot(EvalRange(x, b), n, z);
      p := ValueIsTaken(x, b, u);
    case Abs(x) =>
      RangeInhabited(x, b);
      AbsRangeIsExact(EvalRange(x, b), z);
      var u :| Encloses(EvalRange(x, b), u) && RAbs(u) == z;
      p := ValueIsTaken(x, b, u);
    case _ => p := BinaryIsTaken(e, b, z);
  }

  lemma {:induction false} BinaryIsTaken(e: Expr, b: Box, z: real) returns (p: Point)
    requires Sharp(e, b) && (e.Add? || e.Mul? || e.Min? || e.Max?) && Encloses(EvalRange(e, b), z)
    ensures InBox(b, p) && Eval(e, p) == z
    decreases e, 0
  {
    var u, v := OperandValues(e, b, z);
    p := ValueIsTaken(e.a, b, u);
    var q := ValueIsTaken(e.b, b, v);
    p := JoinPoints(e.a, e.b, b, p, q);
  }

  lemma SetVariable(b: Box, p: Point, v: nat, z: real) returns (q: Point)
    requires InBox(b, p) && v < |b.iv| && Encloses(RangeOf(b.iv[v]), z)
    ensures InBox(b, q) && q(v) == z
  {
    q := (w: nat) => if w == v then z else p(w);
    forall i | 0 <= i < |b.iv| ensures Contains(b.iv[i], q(i)) { assert Contains(b.iv[i], p(i)); }
  }

  /** Where no variable occurs twice, the range is exactly the set of values over
      the box. */
  lemma ReadOnceIsExact(e: Expr, b: Box, z: real)
    requires Sharp(e, b)
    ensures Encloses(EvalRange(e, b), z) <==> exists p :: InBox(b, p) && Eval(e, p) == z
  {
    if Encloses(EvalRange(e, b), z) { var p := ValueIsTaken(e, b, z); }
    if exists p :: InBox(b, p) && Eval(e, p) == z {
      var p :| InBox(b, p) && Eval(e, p) == z;
      EvalEncloses(e, b, p);
    }
  }

  // ------------------------------------------------ relational constraints

  /** A value of the range below `c`. */
  lemma ValueBelow(g: Range, c: real) returns (v: real)
    requires Inhabited(g) && !Leq(Fin(c), g.lo)
    ensures Encloses(g, v) && v < c
  {
    v := if g.lo.Fin? then g.lo.r else if g.hi.Fin? then RMin(g.hi.r, c - 1.0) else c - 1.0;
  }

  lemma ValueAbove(g: Range, c: real) returns (v: real)
    requires Inhabited(g) && !Leq(g.hi, Fin(c))
    ensures Encloses(g, v) && v > c
  {
    v := if g.hi.Fin? then g.hi.r else if g.lo.Fin? then RMax(g.lo.r, c + 1.0) else c + 1.0;
  }

  /** What is not VALID fails for a value of the range. */
  lemma FailingValue(op: RelOp, g: Range) returns (v: real)
    requires Inhabited(g) && Classify(op, g) != VALID
    ensures Encloses(g, v) && !RelHolds(op, v, 0.0)
  {
    match op
    case EQ =>
      if !Leq(Fin(0.0), g.lo) { v := ValueBelow(g, 0.0); }
      else if !Leq(g.hi, Fin(0.0)) { v := ValueAbove(g, 0.0); }
      else { v := 0.0; }
    case NEQ => v := 0.0;
    case GT => if Leq(g.hi, Fin(0.0)) { v := AnyValue(g); } else { v := 0.0; }
    case LT => if Leq(Fin(0.0), g.lo) { v := AnyValue(g); } else { v := 0.0; }
    case GEQ => v := ValueBelow(g, 0.0);
    case LEQ => v := ValueAbove(g, 0.0);
  }

  lemma NegatedClass(op: RelOp, g: Range)
    requires Inhabited(g)
    ensures Classify(Negate(op), g) == VALID <==> Classify(op, g) == UNSAT
  {
  }

  /** Between expressions without a repeated variable a constraint is VALID exactly
      when it holds at every point of the box, and UNSAT exactly when it holds at
      none. */
  lemma ReadOnceIsDecided(f: Formula, b: Box)
    requires IsLiteral(f) && Sharp(DifferenceOf(f), b)
    ensures EvaluateRelational(f, b).kind == VALID <==> forall p | InBox(b, p) :: Holds(f, p)
    ensures EvaluateRelational(f, b).kind == UNSAT <==> forall p | InBox(b, p) :: !Holds(f, p)
  {
    var kind := EvaluateRelational(f, b).kind;
    forall p | InBox(b, p) ensures (kind == VALID ==> Holds(f, p)) && (kind == UNSAT ==> !Holds(f, p)) {
      ClassificationIsSound(f, b, p);
    }
    if kind != VALID { var p := Refuting(f, b); }
    if kind != UNSAT { var p := Confirming(f, b); }
  }

  lemma Refuting(f: Formula, b: Box) returns (p: Point)
    requires IsLiteral(f) && Sharp(DifferenceOf(f), b) && EvaluateRelational(f, b).kind != VALID
    ensures InBox(b, p) && !Holds(f, p)
  {
    var e := DifferenceOf(f);
    RangeInhabited(e, b);
    var v := FailingValue(OperatorOf(f), EvalRange(e, b));
    p := ValueIsTaken(e, b, v);
    LiteralMeaning(f, p);
  }

  lemma Confirming(f: Formula, b: Box) returns (p: Point)
    requires IsLiteral(f) && Sharp(DifferenceOf(f), b) && EvaluateRelational(f, b).kind != UNSAT
    ensures InBox(b, p) && Holds(f, p)
  {
    var e := DifferenceOf(f);
    RangeInhabited(e, b);
    NegatedClass(OperatorOf(f), EvalRange(e, b));
    var v := FailingValue(Negate(OperatorOf(f)), EvalRange(e, b));
    p := ValueIsTaken(e, b, v);
    LiteralMeaning(f, p);
  }

  /** When such a constraint asks for branching there is a reason: it holds at one
      point of the box and fails at another, and the difference of its sides
      varies by more than the precision. */
  lemma UndecidedVaries(f: Formula, b: Box, precision: real) returns (p: Point, q: Point, low: Point, high: Point)
    requires IsLiteral(f) && Sharp(DifferenceOf(f), b) && precision > 0.0
    requires var r := EvaluateRelational(f, b); r.kind == UNKNOWN && !Narrow(r.evaluation, precision)
    ensures InBox(b, p) && InBox(b, q) && InBox(b, low) && InBox(b, high)
    ensures Holds(f, p) && !Holds(f, q)
    ensures Eval(DifferenceOf(f), high) - Eval(DifferenceOf(f), low) > precision
  {
    var e := DifferenceOf(f);
    RangeInhabited(e, b);
    p := Confirming(f, b);
    q := Refuting(f, b);
    var g := EvalRange(e, b);
    var l, h := AnyValue(g), AnyValue(g);
    if !g.hi.Fin? { h := ValueAbove(g, l + precision); }
    else if !g.lo.Fin? { l := ValueBelow(g, h - precision); }
    else { l, h := g.lo.r, g.hi.r; }
    low := ValueIsTaken(e, b, l);
    high := ValueIsTaken(e, b, h);
  }
}
