/** Intervals and boxes (util/box.cc), their order, hull, bisection and the
    width measure behind every termination proof.

    Doubles are modelled by a uniform fixed-point grid: an endpoint is an
    integer number of grid units, the value 1.0 is UNIT units, and -INF and INF
    stand for the two infinities. Points range over all reals. No proof depends
    on the chosen sizes beyond their signs and INF being a multiple of UNIT. */
module Boxes {
  import opened Symbolic

  const UNIT: int := 0x1_0000_0000
  const INF: int := 0x1_0000_0000_0000_0000_0000_0000
  /** The largest finite double. */
  const MAX: int := INF - UNIT

  const INT_MAX: int := 0x7FFF_FFFF

  datatype Interval = Interval(lo: int, hi: int)

  predicate Finite(k: int) { -MAX <= k <= MAX }

  predicate ValidInterval(iv: Interval) {
    iv.lo <= iv.hi && (iv.lo == -INF || Finite(iv.lo)) && (iv.hi == INF || Finite(iv.hi))
  }

  /** `x` lies in `iv`; an infinite end does not bound `x`. */
  predicate Contains(iv: Interval, x: real) {
    (iv.lo == -INF || iv.lo as real <= x) && (iv.hi == INF || x <= iv.hi as real)
  }

  predicate Within(a: Interval, b: Interval) {
    b.lo <= a.lo && a.hi <= b.hi
  }

  function Width(iv: Interval): nat
    requires ValidInterval(iv)
  {
    iv.hi - iv.lo
  }

  /** `safe_diam`: larger than every finite width when `iv` is unbounded. */
  function Diam(iv: Interval): int {
    if iv.lo == -INF || iv.hi == INF then 2 * INF + 1 else iv.hi - iv.lo
  }

  /** `ibex::Interval::mid`. */
  function Mid(iv: Interval): int {
    if iv.lo == -INF && iv.hi == INF then 0
    else if iv.lo == -INF then -MAX
    else if iv.hi == INF then MAX
    else (iv.lo + iv.hi) / 2
  }

  /** `ibex::Interval::is_bisectable`. */
  predicate Bisectable(iv: Interval) {
    iv.lo < Mid(iv) < iv.hi
  }

  /** Some point of `iv`. */
  function Pick(iv: Interval): (x: real)
    requires ValidInterval(iv)
    ensures Contains(iv, x)
  {
    if iv.lo != -INF then iv.lo as real else if iv.hi != INF then iv.hi as real else 0.0
  }

  predicate Integral(x: real) {
    x == x.Floor as real && x.Floor % UNIT == 0
  }

  function CeilUnit(k: int): (r: int)
    ensures k <= r < k + UNIT && r % UNIT == 0
  {
    -((-k) / UNIT * UNIT)
  }

  function FloorUnit(k: int): (r: int)
    ensures k - UNIT < r <= k && r % UNIT == 0
  {
    k / UNIT * UNIT
  }

  lemma MultiplesApart(k: int, m: int)
    requires k % UNIT == 0 && m % UNIT == 0
    ensures k <= m || m + UNIT <= k
  {
    assert k == UNIT * (k / UNIT) && m == UNIT * (m / UNIT);
  }

  lemma RoundingFixes(k: int)
    requires k % UNIT == 0
    ensures CeilUnit(k) == k && FloorUnit(k) == k
  {
    MultiplesApart(CeilUnit(k), k);
    MultiplesApart(k, FloorUnit(k));
  }

  predicate IntegralInterval(iv: Interval) {
    iv.lo % UNIT == 0 && iv.hi % UNIT == 0
  }

  /** Rounding an interval inwards to integers loses no integer. */
  lemma IntegralTightens(iv: Interval, x: real)
    requires ValidInterval(iv) && Contains(iv, x) && Integral(x)
    ensures CeilUnit(iv.lo) <= FloorUnit(iv.hi)
    ensures Contains(Interval(CeilUnit(iv.lo), FloorUnit(iv.hi)), x)
  {
    var k := x.Floor;
    assert iv.lo != -INF ==> iv.lo <= k && CeilUnit(iv.lo) <= k;
    assert iv.hi != INF ==> k <= iv.hi && k <= FloorUnit(iv.hi);
    assert iv.lo == -INF ==> CeilUnit(iv.lo) == -INF;
    assert iv.hi == INF ==> FloorUnit(iv.hi) == INF;
  }

  lemma RoundedIsValid(iv: Interval)
    requires ValidInterval(iv) && CeilUnit(iv.lo) <= FloorUnit(iv.hi)
    ensures ValidInterval(Interval(CeilUnit(iv.lo), FloorUnit(iv.hi)))
    ensures Within(Interval(CeilUnit(iv.lo), FloorUnit(iv.hi)), iv)
  {
    assert iv.lo == -INF ==> CeilUnit(iv.lo) == -INF;
    assert iv.hi == INF ==> FloorUnit(iv.hi) == INF;
  }

  // ------------------------------------------------------------------ boxes

  /** A box is empty as a whole or an interval per variable. */
  datatype Box = NoPoints | Box(iv: seq<Interval>)

  predicate ValidBox(b: Box, n: nat) {
    b.Box? ==> |b.iv| == n && forall i | 0 <= i < n :: ValidInterval(b.iv[i])
  }

  predicate InBox(b: Box, p: Point) {
    b.Box? && forall i | 0 <= i < |b.iv| :: Contains(b.iv[i], p(i))
  }

  lemma InDimension(b: Box, p: Point, v: nat)
    requires InBox(b, p) && v < |b.iv|
    ensures Contains(b.iv[v], p(v))
  {
  }

  predicate SubBox(a: Box, b: Box) {
    a.Box? ==> b.Box? && |a.iv| == |b.iv| && forall i | 0 <= i < |a.iv| :: Within(a.iv[i], b.iv[i])
  }

  lemma WithinContains(a: Interval, b: Interval, x: real)
    requires ValidInterval(a) && ValidInterval(b) && Within(a, b) && Contains(a, x)
    ensures Contains(b, x)
  {
  }

  lemma SubBoxContains(a: Box, b: Box, n: nat, p: Point)
    requires ValidBox(a, n) && ValidBox(b, n) && SubBox(a, b) && InBox(a, p)
    ensures InBox(b, p)
  {
    forall i | 0 <= i < n ensures Contains(b.iv[i], p(i)) {
      WithinContains(a.iv[i], b.iv[i], p(i));
    }
  }

  lemma SubBoxTransitive(a: Box, b: Box, c: Box)
    requires SubBox(a, b) && SubBox(b, c)
    ensures SubBox(a, c)
  {
  }

  function HullInterval(a: Interval, b: Interval): Interval {
    Interval(if a.lo <= b.lo then a.lo else b.lo, if a.hi <= b.hi then b.hi else a.hi)
  }

  /** `Box::InplaceUnion` as a value: the smallest box around both. */
  function HullBox(a: Box, b: Box): (r: Box)
    requires a.Box? && b.Box? ==> |a.iv| == |b.iv|
    ensures forall n :: ValidBox(a, n) && ValidBox(b, n) ==> ValidBox(r, n)
    ensures SubBox(a, r) && SubBox(b, r)
    ensures forall c :: SubBox(a, c) && SubBox(b, c) ==> SubBox(r, c)
  {
    if a.NoPoints? then b
    else if b.NoPoints? then a
    else Box(seq(|a.iv|, i requires 0 <= i < |a.iv| => HullInterval(a.iv[i], b.iv[i])))
  }

  // --------------------------------------------------------- width measure

  function SumWidth(s: seq<Interval>): nat
    requires forall i | 0 <= i < |s| :: ValidInterval(s[i])
  {
    if s == [] then 0 else Width(s[0]) + SumWidth(s[1..])
  }

  function TotalWidth(b: Box): nat
    requires b.Box? ==> forall i | 0 <= i < |b.iv| :: ValidInterval(b.iv[i])
  {
    if b.NoPoints? then 0 else SumWidth(b.iv)
  }

  lemma {:induction false} SumWidthMonotone(a: seq<Interval>, b: seq<Interval>)
    requires |a| == |b|
    requires forall i | 0 <= i < |a| :: ValidInterval(a[i]) && ValidInterval(b[i]) && Within(a[i], b[i])
    ensures SumWidth(a) <= SumWidth(b)
    ensures a != b ==> SumWidth(a) < SumWidth(b)
  {
    if a == [] {
    } else {
      SumWidthMonotone(a[1..], b[1..]);
      if a != b && a[0] == b[0] {
        assert a == [a[0]] + a[1..] && b == [b[0]] + b[1..];
      }
    }
  }

  /** Narrowing never widens, and every proper narrowing loses width. */
  lemma WidthFalls(a: Box, b: Box, n: nat)
    requires ValidBox(a, n) && ValidBox(b, n) && SubBox(a, b)
    ensures TotalWidth(a) <= TotalWidth(b)
    ensures a.Box? && a != b ==> TotalWidth(a) < TotalWidth(b)
  {
    if a.Box? { SumWidthMonotone(a.iv, b.iv); }
  }

  // -------------------------------------------------------------- bisection

  predicate IsIntType(t: VarType) { t == INTEGER || t == BINARY }

  /** Every coordinate is a double. */
  ghost predicate OnGrid(p: Point) {
    forall v :: p(v) == p(v).Floor as real
  }

  predicate IntegralAt(types: seq<VarType>, p: Point, i: nat)
    requires i < |types|
  {
    IsIntType(types[i]) ==> Integral(p(i))
  }

  /** The integer-typed coordinates of `p` are integers. */
  predicate IntOk(types: seq<VarType>, p: Point) {
    forall i | 0 <= i < |types| :: IntegralAt(types, p, i)
  }

  /** The interval `Box::Add` gives a new variable. */
  function InitialInterval(t: VarType): (r: Interval)
    ensures ValidInterval(r)
  {
    match t
    case CONTINUOUS => Interval(-INF, INF)
    case INTEGER => Interval(-INT_MAX * UNIT, INT_MAX * UNIT)
    case _ => Interval(0, UNIT)
  }

  /** `p` gives every variable a value of its type. */
  predicate TypesOk(types: seq<VarType>, p: Point) {
    IntOk(types, p) && forall i | 0 <= i < |types| :: Contains(InitialInterval(types[i]), p(i))
  }

  /** The integer-typed dimensions of `b` have integer ends. */
  predicate IntegralBox(types: seq<VarType>, b: Box)
    requires ValidBox(b, |types|)
  {
    b.Box? ==> forall i | 0 <= i < |types| && IsIntType(types[i]) :: IntegralInterval(b.iv[i])
  }

  /** The integer after `m`; beyond the largest double it rounds back. */
  function NextInteger(m: int): int {
    if m == MAX then m else m + UNIT
  }

  /** What `bisect_int` asserts of an interval: an integer lies on either side of
      its midpoint. */
  predicate SplitAsserted(iv: Interval) {
    var m := FloorUnit(Mid(iv));
    CeilUnit(iv.lo) <= m && NextInteger(m) <= FloorUnit(iv.hi)
  }

  lemma MidIsFinite(iv: Interval)
    requires ValidInterval(iv) && Bisectable(iv)
    ensures var m := FloorUnit(Mid(iv)); Finite(m) && Finite(NextInteger(m))
    ensures var m := FloorUnit(Mid(iv)); m <= Mid(iv) <= NextInteger(m)
  {
    var m := FloorUnit(Mid(iv));
    MultiplesApart(MAX, m);
    MultiplesApart(m, -MAX);
  }

  /** Integer ends meet the assertions. */
  lemma IntegralIsSplit(iv: Interval)
    requires ValidInterval(iv) && Bisectable(iv) && IntegralInterval(iv)
    ensures SplitAsserted(iv)
  {
    var m := FloorUnit(Mid(iv));
    MidIsFinite(iv);
    RoundingFixes(iv.lo);
    RoundingFixes(iv.hi);
    MultiplesApart(iv.lo, m);
    MultiplesApart(iv.hi, m);
  }

  /** Fractional ends need not: an interval inside (0, 1] has no integer below its
      midpoint. */
  lemma FractionIsNotSplit(k: int)
    requires 0 < k < UNIT - 1
    ensures Bisectable(Interval(k, UNIT)) && !SplitAsserted(Interval(k, UNIT))
  {
    var mid := Mid(Interval(k, UNIT));
    assert mid == (k + UNIT) / 2 && 0 < mid < UNIT;
    MultiplesApart(CeilUnit(k), 0);
    MultiplesApart(UNIT, FloorUnit(mid));
  }

  /** `bisect_int`: the halves are disjoint unless the interval reaches infinity,
      where MAX + 1 rounds back to MAX. */
  function HalvesInt(iv: Interval): (r: (Interval, Interval))
    requires ValidInterval(iv) && Bisectable(iv) && SplitAsserted(iv)
    ensures ValidInterval(r.0) && ValidInterval(r.1)
    ensures Within(r.0, iv) && Within(r.1, iv) && r.0 != iv && r.1 != iv
    ensures iv.hi != INF ==> r.0.hi < r.1.lo
  {
    var m := FloorUnit(Mid(iv));
    MidIsFinite(iv);
    EndsRound(iv);
    (Interval(CeilUnit(iv.lo), m), Interval(NextInteger(m), FloorUnit(iv.hi)))
  }

  lemma EndsRound(iv: Interval)
    requires ValidInterval(iv)
    ensures iv.lo <= CeilUnit(iv.lo) && FloorUnit(iv.hi) <= iv.hi
    ensures iv.lo == -INF ==> CeilUnit(iv.lo) == -INF
    ensures iv.hi == INF ==> FloorUnit(iv.hi) == INF
  {
    RoundingFixes(-INF);
    RoundingFixes(INF);
  }

  /** `bisect_continuous` at ratio one half: the halves share their boundary. */
  function HalvesContinuous(iv: Interval): (r: (Interval, Interval))
    requires ValidInterval(iv) && Bisectable(iv)
    ensures ValidInterval(r.0) && ValidInterval(r.1)
    ensures Within(r.0, iv) && Within(r.1, iv) && r.0 != iv && r.1 != iv
  {
    (Interval(iv.lo, Mid(iv)), Interval(Mid(iv), iv.hi))
  }

  /** The interval can be bisected, it is not that of a Boolean variable, and
      `bisect_int` does not assert against it. */
  predicate CanSplit(t: VarType, iv: Interval) {
    Bisectable(iv) && t != BOOLEAN && (IsIntType(t) ==> SplitAsserted(iv))
  }

  function Halves(t: VarType, iv: Interval): (r: (Interval, Interval))
    requires ValidInterval(iv) && CanSplit(t, iv)
    ensures ValidInterval(r.0) && ValidInterval(r.1)
    ensures Within(r.0, iv) && Within(r.1, iv) && r.0 != iv && r.1 != iv
  {
    if IsIntType(t) then HalvesInt(iv) else HalvesContinuous(iv)
  }

  /** Every value admissible for the dimension falls in one of the halves. */
  lemma HalvesCover(t: VarType, iv: Interval, x: real)
    requires ValidInterval(iv) && CanSplit(t, iv)
    requires Contains(iv, x) && (IsIntType(t) ==> Integral(x))
    ensures Contains(Halves(t, iv).0, x) || Contains(Halves(t, iv).1, x)
  {
    if IsIntType(t) { HalvesIntCover(iv, x); }
  }

  lemma HalvesIntCover(iv: Interval, x: real)
    requires ValidInterval(iv) && Bisectable(iv) && SplitAsserted(iv)
    requires Contains(iv, x) && Integral(x)
    ensures Contains(HalvesInt(iv).0, x) || Contains(HalvesInt(iv).1, x)
  {
    var m := FloorUnit(Mid(iv));
    IntegralTightens(iv, x);
    MultiplesApart(x.Floor, m);
    if x.Floor <= m {
      assert Contains(Interval(CeilUnit(iv.lo), m), x);
    } else {
      assert Contains(Interval(NextInteger(m), FloorUnit(iv.hi)), x);
    }
  }

  predicate Bounded(iv: Interval) { iv.lo != -INF && iv.hi != INF }

  /** Among bounded intervals the order by diameter is the order by width; every
      unbounded interval comes after them, and all of those are equal. */
  lemma DiamOrdersByWidth(a: Interval, b: Interval)
    requires ValidInterval(a) && ValidInterval(b)
    ensures Bounded(a) && Bounded(b) ==> (Diam(a) <= Diam(b) <==> Width(a) <= Width(b))
    ensures Bounded(a) && !Bounded(b) ==> Diam(a) < Diam(b)
    ensures !Bounded(a) && !Bounded(b) ==> Diam(a) == Diam(b)
  {
  }

  /** The halves of a bounded continuous interval share the midpoint and are equal
      up to one grid unit. */
  lemma HalvesAreEven(iv: Interval)
    requires ValidInterval(iv) && Bisectable(iv) && Bounded(iv)
    ensures var (l, r) := Halves(CONTINUOUS, iv);
            && l.lo == iv.lo && l.hi == r.lo && r.hi == iv.hi
            && Width(l) <= Width(r) <= Width(l) + 1
  {
  }

  /** Those of a bounded interval with integer ends hold all integers of it, each
      in one of them, and as many up to one. */
  lemma IntegerHalvesAreEven(iv: Interval)
    requires ValidInterval(iv) && Bisectable(iv) && Bounded(iv) && IntegralInterval(iv)
    ensures SplitAsserted(iv)
    ensures var (l, r) := HalvesInt(iv);
            && l.lo == iv.lo && r.lo == l.hi + UNIT && r.hi == iv.hi
            && Width(r) <= Width(l) <= Width(r) + UNIT
  {
    var m := FloorUnit(Mid(iv));
    IntegralIsSplit(iv);
    RoundingFixes(iv.lo);
    RoundingFixes(iv.hi);
    MultiplesApart(MAX, m);
    FloorOfMiddle(iv.lo / UNIT, iv.hi / UNIT, m / UNIT);
  }

  /** The integer below the middle of two integers. */
  lemma FloorOfMiddle(lo: int, hi: int, m: int)
    requires m * UNIT <= (lo * UNIT + hi * UNIT) / 2 < m * UNIT + UNIT
    ensures lo + hi - 1 <= 2 * m <= lo + hi
  {
  }


  /** `Box::bisect` in dimension `i`. */
  function Bisect(types: seq<VarType>, b: Box, i: nat): (r: (Box, Box))
    requires ValidBox(b, |types|) && b.Box? && i < |types|
    requires CanSplit(types[i], b.iv[i])
    ensures ValidBox(r.0, |types|) && ValidBox(r.1, |types|) && r.0.Box? && r.1.Box?
    ensures SubBox(r.0, b) && SubBox(r.1, b) && r.0 != b && r.1 != b
    ensures TotalWidth(r.0) < TotalWidth(b) && TotalWidth(r.1) < TotalWidth(b)
  {
    var (l, r) := Halves(types[i], b.iv[i]);
    var bl, br := Box(b.iv[i := l]), Box(b.iv[i := r]);
    assert bl.iv[i] != b.iv[i] && br.iv[i] != b.iv[i];
    WidthFalls(bl, b, |types|);
    WidthFalls(br, b, |types|);
    (bl, br)
  }
}
