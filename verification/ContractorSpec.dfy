/** Contractors as terms, and what one call of `Prune` may do to a status.

    A contractor is a tree; the leaf for one constraint runs foreign HC4 code
    and is known only by its contract. `PruneSpec` relates the status before
    and after; it composes along sequences, loops and worklists. */
module ContractorSpec {
  import opened Symbolic
  import opened Boxes
  import opened Explanations
  import opened ContractorStatuses

  datatype Contractor =
    | Id
    | Fwdbwd(f: Formula)
    | IntegerCtc
    | SeqCtc(cs: seq<Contractor>)
    | JoinCtc(cs: seq<Contractor>)
    | FixpointCtc(cs: seq<Contractor>)
    | WorklistCtc(cs: seq<Contractor>)
    | ForallCtc(f: Formula, utypes: seq<VarType>, query: Formula, inner: Contractor)

  /** Code outside the model: HC4 contraction of a box by one constraint, and
      the nested solver that looks for a counterexample of a forall over a box
      (the flag is its branching side). */
  datatype Foreign = Foreign(
    hc4: (Formula, Box) -> Box,
    solve: (Formula, Box, bool) -> Option<Box>)

  // ---------------------------------------------------- foreign contracts

  ghost predicate SameOff(a: Box, b: Box, vars: set<nat>) {
    a.Box? && b.Box? ==> |a.iv| == |b.iv| && forall i | 0 <= i < |a.iv| && i !in vars :: a.iv[i] == b.iv[i]
  }

  /** HC4 narrows variables of `f` only and keeps every point satisfying `f`. */
  ghost predicate Hc4Ok(f: Formula, b: Box, r: Box, n: nat) {
    && ValidBox(r, n) && SubBox(r, b) && SameOff(b, r, FreeVars(f))
    && (forall p | InBox(b, p) && Holds(f, p) :: InBox(r, p))
  }

  /** The typed points of the box; those with doubles for coordinates, if `grid`. */
  ghost predicate TypedIn(types: seq<VarType>, b: Box, grid: bool, p: Point) {
    InBox(b, p) && TypesOk(types, p) && (grid ==> OnGrid(p))
  }

  /** The query has no typed model over the box, or none on the grid. */
  ghost predicate NoModel(types: seq<VarType>, q: Formula, b: Box, grid: bool) {
    forall p | TypedIn(types, b, grid, p) :: !Holds(q, p)
  }

  /** When the nested solver finds no counterexample over a box of the first `n`
      variables, the query has no typed model over it. On the grid that is what
      the first verdict of a context says. */
  ghost predicate SolveRefutes(fo: Foreign, types: seq<VarType>, query: Formula, n: nat, grid: bool) {
    forall b, side | ValidBox(b, n) && fo.solve(query, b, side).None? :: NoModel(types, query, b, grid)
  }

  ghost predicate SoundForeign(fo: Foreign) {
    forall f, b, n: nat | ValidBox(b, n) :: Hc4Ok(f, b, fo.hc4(f, b), n)
  }

  // ------------------------------------------------------- contractor terms

  function Dims(types: seq<VarType>): (r: set<nat>)
    ensures forall i: nat :: i in r <==> i < |types|
  {
    if types == [] then {} else Dims(types[..|types| - 1]) + {|types| - 1}
  }

  /** No Boolean variable is free in the formula. None is in a term, because the
      constructor of an expression refuses them (symbolic_expression_cell.cc). */
  ghost predicate NoBooleans(f: Formula, types: seq<VarType>) {
    forall v | v in FreeVars(f) && v < |types| :: types[v] != BOOLEAN
  }

  function IntDims(types: seq<VarType>): set<nat> {
    set i | 0 <= i < |types| && IsIntType(types[i]) :: i
  }

  /** The `input` bitset of a contractor: the dimensions it may change. */
  function Inputs(c: Contractor, types: seq<VarType>): set<nat> {
    match c
    case Id => {}
    case Fwdbwd(f) => FreeVars(f)
    case IntegerCtc => IntDims(types)
    case SeqCtc(cs) => InputsOf(cs, types)
    case JoinCtc(cs) => InputsOf(cs, types)
    case FixpointCtc(cs) => InputsOf(cs, types)
    case WorklistCtc(cs) => InputsOf(cs, types)
    case ForallCtc(f, _, _, _) => FreeVars(f)
  }

  function InputsOf(cs: seq<Contractor>, types: seq<VarType>): set<nat> {
    set j, v | 0 <= j < |cs| && v in Inputs(cs[j], types) :: v
  }

  /** The constraints a contractor may record. */
  function Constraints(c: Contractor): set<Formula> {
    match c
    case Id => {}
    case Fwdbwd(f) => {f}
    case IntegerCtc => {}
    case SeqCtc(cs) => ConstraintsOf(cs)
    case JoinCtc(cs) => ConstraintsOf(cs)
    case FixpointCtc(cs) => ConstraintsOf(cs)
    case WorklistCtc(cs) => ConstraintsOf(cs)
    case ForallCtc(f, _, _, _) => {f}
  }

  function ConstraintsOf(cs: seq<Contractor>): set<Formula> {
    set j, f | 0 <= j < |cs| && f in Constraints(cs[j]) :: f
  }

  /** What a contractor stands for: it must keep the points that satisfy it. */
  ghost predicate Sat(c: Contractor, types: seq<VarType>, p: Point) {
    match c
    case Id => true
    case Fwdbwd(f) => Holds(f, p)
    case IntegerCtc => IntOk(types, p)
    case SeqCtc(cs) => forall j | 0 <= j < |cs| :: Sat(cs[j], types, p)
    case JoinCtc(cs) => exists j | 0 <= j < |cs| :: Sat(cs[j], types, p)
    case FixpointCtc(cs) => forall j | 0 <= j < |cs| :: Sat(cs[j], types, p)
    case WorklistCtc(cs) => forall j | 0 <= j < |cs| :: Sat(cs[j], types, p)
    case ForallCtc(f, _, _, _) => Holds(f, p)
  }

  /** No hull of alternatives outside the matrix of a forall. */
  predicate JoinFree(c: Contractor) {
    match c
    case SeqCtc(cs) => forall j | 0 <= j < |cs| :: JoinFree(cs[j])
    case FixpointCtc(cs) => forall j | 0 <= j < |cs| :: JoinFree(cs[j])
    case WorklistCtc(cs) => forall j | 0 <= j < |cs| :: JoinFree(cs[j])
    case JoinCtc(_) => false
    case _ => true
  }

  /** Contractors that report exactly the dimensions they narrowed: a join may
      report a dimension that its hull restores, and a worklist resets the
      report. */
  predicate Plain(c: Contractor) {
    match c
    case SeqCtc(cs) => forall j | 0 <= j < |cs| :: Plain(cs[j])
    case FixpointCtc(cs) => forall j | 0 <= j < |cs| :: Plain(cs[j])
    case WorklistCtc(_) => false
    case JoinCtc(_) => false
    case _ => true
  }

  predicate Simple(c: Contractor) {
    c.Id? || c.Fwdbwd? || c.IntegerCtc?
  }

  /** Trees of simple contractors without a fixpoint loop: the form of a compiled
      matrix. Their result is a function of the box. */
  predicate Loopless(c: Contractor) {
    match c
    case SeqCtc(cs) => forall j | 0 <= j < |cs| :: Loopless(cs[j])
    case JoinCtc(cs) => forall j | 0 <= j < |cs| :: Loopless(cs[j])
    case _ => Simple(c)
  }

  predicate AllLoopless(cs: seq<Contractor>) {
    forall j | 0 <= j < |cs| :: Loopless(cs[j])
  }

  /** Variables in range, worklists over plain contractors, and for a forall:
      its variables are the dimensions after the box, and the compiled matrix
      keeps the points satisfying the matrix. */
  ghost predicate WellFormed(c: Contractor, types: seq<VarType>)
    decreases c
  {
    match c
    case Id => true
    case Fwdbwd(f) => FreeVars(f) <= Dims(types)
    case IntegerCtc => true
    case SeqCtc(cs) => forall j | 0 <= j < |cs| :: WellFormed(cs[j], types)
    case JoinCtc(cs) => forall j | 0 <= j < |cs| :: WellFormed(cs[j], types)
    case FixpointCtc(cs) => forall j | 0 <= j < |cs| :: WellFormed(cs[j], types)
    case WorklistCtc(cs) => forall j | 0 <= j < |cs| :: WellFormed(cs[j], types) && Plain(cs[j])
    case ForallCtc(f, utypes, query, inner) =>
      && f.Forall? && f.vars == Dims(types + utypes) - Dims(types) && FreeVars(f) <= Dims(types)
      && WellFormed(inner, types + utypes) && Loopless(inner)
      && Inputs(inner, types + utypes) <= FreeVars(f.body)
      && (forall p | Holds(f.body, p) :: Sat(inner, types + utypes, p))
  }

  // ------------------------------------------------------ leaf operations

  /** One step of `ContractorInteger::Prune`. */
  function TightenAt(types: seq<VarType>, b: Box, i: nat): (r: Box)
    requires ValidBox(b, |types|) && i < |types|
    ensures ValidBox(r, |types|) && SubBox(r, b)
    ensures b.Box? && r.Box? ==> forall k | 0 <= k < |types| && k != i :: r.iv[k] == b.iv[k]
    ensures r.Box? && IsIntType(types[i]) ==> IntegralInterval(r.iv[i])
  {
    if b.NoPoints? || !IsIntType(types[i]) then b
    else
      var iv := b.iv[i];
      if IntegralInterval(iv) then b
      else
        var lo, hi := CeilUnit(iv.lo), FloorUnit(iv.hi);
        if lo <= hi then
          RoundedIsValid(iv);
          Box(b.iv[i := Interval(lo, hi)])
        else NoPoints
  }

  /** The integer contractor over the dimensions below `k`. */
  function TightenBelow(types: seq<VarType>, b: Box, k: nat): (r: Box)
    requires ValidBox(b, |types|) && k <= |types|
    ensures ValidBox(r, |types|) && SubBox(r, b)
    ensures b.Box? && r.Box? ==> forall i | k <= i < |types| :: r.iv[i] == b.iv[i]
    ensures r.Box? ==> forall i | 0 <= i < k && IsIntType(types[i]) :: IntegralInterval(r.iv[i])
    ensures SameOff(b, r, IntDims(types))
  {
    if k == 0 then b else TightenAt(types, TightenBelow(types, b, k - 1), k - 1)
  }

  lemma TightenAtKeeps(types: seq<VarType>, b: Box, i: nat, p: Point)
    requires ValidBox(b, |types|) && i < |types| && InBox(b, p) && IntegralAt(types, p, i)
    ensures InBox(TightenAt(types, b, i), p)
  {
    if IsIntType(types[i]) { IntegralTightens(b.iv[i], p(i)); }
  }

  /** The box a simple contractor produces. */
  function Apply(fo: Foreign, types: seq<VarType>, c: Contractor, b: Box): Box
    requires ValidBox(b, |types|) && Simple(c)
  {
    match c
    case Id => b
    case Fwdbwd(f) => fo.hc4(f, b)
    case IntegerCtc => TightenBelow(types, b, |types|)
  }

  /** HC4 that narrows one box by one constraint and nothing else. */
  function OneShot(f: Formula, b: Box, r: Box): Foreign {
    Foreign((g: Formula, x: Box) => if g == f && x == b then r else x, (_: Formula, _: Box, _: bool) => None)
  }

  lemma OneShotIsSound(f: Formula, b: Box, r: Box)
    requires b.Box? && Hc4Ok(f, b, r, |b.iv|)
    ensures SoundForeign(OneShot(f, b, r))
  {
  }

  lemma Hc4Contract(fo: Foreign, f: Formula, b: Box, n: nat)
    requires SoundForeign(fo) && ValidBox(b, n)
    ensures Hc4Ok(f, b, fo.hc4(f, b), n)
  {
  }

  /** The box a loopless contractor produces. */
  ghost function Run(fo: Foreign, types: seq<VarType>, c: Contractor, b: Box): (r: Box)
    requires SoundForeign(fo) && ValidBox(b, |types|) && Loopless(c)
    ensures ValidBox(r, |types|) && SubBox(r, b)
    decreases c
  {
    match c
    case SeqCtc(cs) => RunAll(fo, types, cs, b)
    case JoinCtc(cs) => RunJoin(fo, types, cs, b)
    case Fwdbwd(f) =>
      Hc4Contract(fo, f, b, |types|);
      fo.hc4(f, b)
    case IntegerCtc => TightenBelow(types, b, |types|)
    case _ => b
  }

  /** One contractor after the other. */
  ghost function RunAll(fo: Foreign, types: seq<VarType>, cs: seq<Contractor>, b: Box): (r: Box)
    requires SoundForeign(fo) && ValidBox(b, |types|) && AllLoopless(cs)
    ensures ValidBox(r, |types|) && SubBox(r, b)
    decreases cs
  {
    if cs == [] then b else Run(fo, types, cs[|cs| - 1], RunAll(fo, types, cs[..|cs| - 1], b))
  }

  /** The hull of what each contractor makes of the same box. */
  ghost function RunJoin(fo: Foreign, types: seq<VarType>, cs: seq<Contractor>, b: Box): (r: Box)
    requires SoundForeign(fo) && ValidBox(b, |types|) && AllLoopless(cs)
    ensures ValidBox(r, |types|) && SubBox(r, b)
    decreases cs
  {
    if cs == [] then NoPoints
    else HullBox(RunJoin(fo, types, cs[..|cs| - 1], b), Run(fo, types, cs[|cs| - 1], b))
  }

  /** A loopless contractor keeps the points it stands for. */
  lemma {:induction false} RunKeeps(fo: Foreign, types: seq<VarType>, c: Contractor, b: Box, p: Point)
    requires SoundForeign(fo) && ValidBox(b, |types|) && Loopless(c) && InBox(b, p) && Sat(c, types, p)
    ensures InBox(Run(fo, types, c, b), p)
    decreases c, 0
  {
    match c
    case SeqCtc(cs) => RunAllKeeps(fo, types, cs, b, p);
    case JoinCtc(cs) =>
      var j :| 0 <= j < |cs| && Sat(cs[j], types, p);
      RunJoinKeeps(fo, types, cs, j, b, p);
    case Fwdbwd(f) => Hc4Contract(fo, f, b, |types|);
    case IntegerCtc => TightenBelowKeeps(types, b, |types|, p);
    case _ =>
  }

  lemma {:induction false} RunAllKeeps(fo: Foreign, types: seq<VarType>, cs: seq<Contractor>, b: Box, p: Point)
    requires SoundForeign(fo) && ValidBox(b, |types|) && AllLoopless(cs) && InBox(b, p)
    requires forall j | 0 <= j < |cs| :: Sat(cs[j], types, p)
    ensures InBox(RunAll(fo, types, cs, b), p)
    decreases cs, 1
  {
    if cs == [] {
    } else {
      var init, last := cs[..|cs| - 1], cs[|cs| - 1];
      RunAllKeeps(fo, types, init, b, p);
      RunKeeps(fo, types, last, RunAll(fo, types, init, b), p);
    }
  }

  lemma {:induction false} RunJoinKeeps(fo: Foreign, types: seq<VarType>, cs: seq<Contractor>, j: nat, b: Box, p: Point)
    requires SoundForeign(fo) && ValidBox(b, |types|) && AllLoopless(cs) && InBox(b, p)
    requires j < |cs| && Sat(cs[j], types, p)
    ensures InBox(RunJoin(fo, types, cs, b), p)
    decreases cs, 1
  {
    var init, last := cs[..|cs| - 1], cs[|cs| - 1];
    var x, y := RunJoin(fo, types, init, b), Run(fo, types, last, b);
    if j < |init| {
      RunJoinKeeps(fo, types, init, j, b, p);
      SubBoxContains(x, HullBox(x, y), |types|, p);
    } else {
      RunKeeps(fo, types, last, b, p);
      SubBoxContains(y, HullBox(x, y), |types|, p);
    }
  }

  lemma {:induction false} TightenBelowKeeps(types: seq<VarType>, b: Box, k: nat, p: Point)
    requires ValidBox(b, |types|) && k <= |types| && InBox(b, p) && IntOk(types, p)
    ensures InBox(TightenBelow(types, b, k), p)
  {
    if k == 0 {
    } else {
      TightenBelowKeeps(types, b, k - 1, p);
      TightenAtKeeps(types, TightenBelow(types, b, k - 1), k - 1, p);
    }
  }

  /** Once the box is empty the rest of a sequence changes nothing. */
  lemma {:induction false} RunAllStaysEmpty(fo: Foreign, types: seq<VarType>, cs: seq<Contractor>, i: nat, b: Box)
    requires SoundForeign(fo) && ValidBox(b, |types|) && AllLoopless(cs) && i <= |cs|
    requires RunAll(fo, types, cs[..i], b).NoPoints?
    ensures RunAll(fo, types, cs, b).NoPoints?
    decreases |cs|
  {
    if i == |cs| {
      assert cs[..i] == cs;
    } else {
      assert cs[..|cs| - 1][..i] == cs[..i];
      RunAllStaysEmpty(fo, types, cs[..|cs| - 1], i, b);
    }
  }

  lemma RunStep(fo: Foreign, types: seq<VarType>, cs: seq<Contractor>, i: nat, b: Box)
    requires SoundForeign(fo) && ValidBox(b, |types|) && AllLoopless(cs) && i < |cs|
    ensures RunAll(fo, types, cs[..i + 1], b) == Run(fo, types, cs[i], RunAll(fo, types, cs[..i], b))
    ensures RunJoin(fo, types, cs[..i + 1], b) == HullBox(RunJoin(fo, types, cs[..i], b), Run(fo, types, cs[i], b))
  {
    assert cs[..i + 1][..i] == cs[..i];
  }

  /** One more contractor of a sequence; if it empties the box, the rest does not
      matter. */
  lemma RunAllNext(fo: Foreign, types: seq<VarType>, cs: seq<Contractor>, i: nat, b0: Box, b: Box, b': Box)
    requires SoundForeign(fo) && ValidBox(b0, |types|) && AllLoopless(cs) && i < |cs|
    requires b == RunAll(fo, types, cs[..i], b0) && b' == Run(fo, types, cs[i], b)
    ensures b' == RunAll(fo, types, cs[..i + 1], b0)
    ensures b'.NoPoints? ==> b' == RunAll(fo, types, cs, b0)
  {
    RunStep(fo, types, cs, i, b0);
    if b'.NoPoints? { RunAllStaysEmpty(fo, types, cs, i + 1, b0); }
  }

  // ------------------------------------------------------ the prune contract

  function Changed(a: Box, b: Box): set<nat> {
    if a.Box? && b.Box? && |a.iv| == |b.iv| then set i | 0 <= i < |a.iv| && a.iv[i] != b.iv[i] :: i
    else {}
  }

  /** What pruning by `c` does to a status. */
  ghost predicate PruneSpec(fo: Foreign, types: seq<VarType>, c: Contractor, s0: Snapshot, s1: Snapshot) {
    && ValidBox(s0.box, |types|) && ValidBox(s1.box, |types|)
    && SubBox(s1.box, s0.box)
    && s0.used <= s1.used <= s0.used + Constraints(c)
    && s0.unsatWitness <= s1.unsatWitness
    && SameOff(s0.box, s1.box, Inputs(c, types))
    && KeepsSat(types, c, s0.box, s1.box)
    && (JoinFree(c) ==> Keeps(types, s0.box, s1.box, s1.used, s1.unsatWitness))
    && (Plain(c) && s1.box.Box? ==> s1.output == s0.output + Changed(s0.box, s1.box))
    && (Simple(c) ==> s1.box == Apply(fo, types, c, s0.box))
  }

  ghost predicate KeepsSat(types: seq<VarType>, c: Contractor, b0: Box, b1: Box) {
    forall p | InBox(b0, p) && Sat(c, types, p) :: InBox(b1, p)
  }

  /** Pruning by `c` is part of pruning by `d`. */
  ghost predicate PartOf(c: Contractor, d: Contractor, types: seq<VarType>) {
    && Inputs(c, types) <= Inputs(d, types)
    && Constraints(c) <= Constraints(d)
    && (forall p | Sat(d, types, p) :: Sat(c, types, p))
    && (JoinFree(d) ==> JoinFree(c))
    && (Plain(d) ==> Plain(c))
    && !Simple(d)
  }

  ghost predicate Conjunctive(d: Contractor) {
    d.SeqCtc? || d.FixpointCtc? || d.WorklistCtc?
  }

  lemma ChildIsPart(d: Contractor, j: nat, types: seq<VarType>)
    requires Conjunctive(d) && j < |d.cs|
    ensures PartOf(d.cs[j], d, types)
  {
  }

  lemma PruneSpecRefl(fo: Foreign, types: seq<VarType>, d: Contractor, s: Snapshot)
    requires ValidBox(s.box, |types|) && !Simple(d)
    ensures PruneSpec(fo, types, d, s, s)
  {
  }

  /** Pruning by a part after pruning by the whole is pruning by the whole. */
  lemma PruneSpecStep(fo: Foreign, types: seq<VarType>, d: Contractor, c: Contractor,
                      s0: Snapshot, s1: Snapshot, s2: Snapshot)
    requires PruneSpec(fo, types, d, s0, s1) && PruneSpec(fo, types, c, s1, s2) && PartOf(c, d, types)
    ensures PruneSpec(fo, types, d, s0, s2)
  {
    if JoinFree(d) {
      KeepsTrans(types, s0.box, s1.box, s2.box, s1.used, s1.unsatWitness, s2.used, s2.unsatWitness);
    }
    forall p | InBox(s0.box, p) && Sat(d, types, p) ensures InBox(s2.box, p) {
      assert InBox(s1.box, p);
    }
    if Plain(d) && s2.box.Box? { ChangesAdd(s0.box, s1.box, s2.box, |types|); }
  }

  lemma ChangesAdd(a: Box, b: Box, c: Box, n: nat)
    requires ValidBox(a, n) && ValidBox(b, n) && ValidBox(c, n) && c.Box?
    requires SubBox(b, a) && SubBox(c, b)
    ensures Changed(a, c) == Changed(a, b) + Changed(b, c)
  {
    forall i | 0 <= i < n && a.iv[i] == c.iv[i] ensures a.iv[i] == b.iv[i] == c.iv[i] {
      assert Within(c.iv[i], b.iv[i]) && Within(b.iv[i], a.iv[i]);
    }
  }

  /** Resetting the output is invisible to contractors that do not report it. */
  lemma PruneSpecReset(fo: Foreign, types: seq<VarType>, d: Contractor, s0: Snapshot, s1: Snapshot, o: set<nat>)
    requires PruneSpec(fo, types, d, s0, s1) && !Plain(d)
    ensures PruneSpec(fo, types, d, s0, s1.(output := o))
  {
  }
}
