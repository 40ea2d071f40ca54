/** What pruning does to a status, contractor by contractor
    (contractor/contractor_*.cc): the box, the dimensions reported, and the
    constraints and variables recorded. The relation fixes everything but the
    side that the nested solver of a forall explores first. It is about boxes that
    are not empty; what is recorded for an empty one is up to the libraries. */
module PruneRuns {
  import opened Symbolic
  import opened Boxes
  import opened ContractorStatuses
  import opened ContractorSpec

  // ------------------------------------------------ termination condition

  /** The improvement of one dimension reaches the threshold of one percent. */
  predicate Improved(o: Interval, n: Interval) {
    && n.lo != -INF && n.hi != INF
    && o.lo != o.hi
    && 1.0 - (if o.lo == -INF || o.hi == INF then 0.0 else (n.hi - n.lo) as real / (o.hi - o.lo) as real) >= 0.01
  }

  /** For a bounded interval the threshold is reached exactly when it is not a point
      and has lost at least one percent of its width; cutting an unbounded one down
      to a bounded one always reaches it. */
  lemma ImprovedIsOnePercent(o: Interval, n: Interval)
    requires ValidInterval(o) && ValidInterval(n) && Within(n, o)
    ensures Bounded(o) ==> (Improved(o, n) <==> 0 < Width(o) <= 100 * (Width(o) - Width(n)))
    ensures !Bounded(o) ==> (Improved(o, n) <==> Bounded(n))
  {
    if Bounded(o) && o.lo != o.hi {
      var from, to := Width(o) as real, Width(n) as real;
      assert Improved(o, n) <==> 1.0 - to / from >= 0.01;
      OnePercent(from, to, to / from);
    }
  }

  lemma OnePercent(from: real, to: real, ratio: real)
    requires from > 0.0 && ratio == to / from
    ensures 1.0 - ratio >= 0.01 <==> from <= 100.0 * (from - to)
  {
    QuotientOf(from, to, ratio);
    TimesPositive(ratio, 0.99, from);
    TimesPositive(0.99, ratio, from);
  }

  lemma QuotientOf(from: real, to: real, ratio: real)
    requires from > 0.0 && ratio == to / from
    ensures ratio * from == to
  {
  }

  lemma TimesPositive(a: real, b: real, y: real)
    requires y > 0.0
    ensures (a <= b ==> a * y <= b * y) && (a < b ==> a * y < b * y)
  {
  }

  /** Some dimension has improved, and the loop goes on. */
  predicate GoesOn(a: Box, b: Box) {
    a.Box? && b.Box? && |a.iv| == |b.iv| && exists i | 0 <= i < |a.iv| :: Improved(a.iv[i], b.iv[i])
  }

  // -------------------------------------------------------------- leaves

  /** The status after HC4 has left the box `r`: the constraint is recorded if it
      changed the box, and its variables if it emptied it. */
  function NarrowedTo(types: seq<VarType>, f: Formula, s: Snapshot, r: Box): Snapshot {
    if r == s.box then s
    else if r.NoPoints? then Snapshot(NoPoints, Dims(types), s.used + {f}, s.unsatWitness + FreeVars(f))
    else Snapshot(r, s.output + Changed(s.box, r), s.used + {f}, s.unsatWitness)
  }

  /** The status after the integer contractor has treated dimension `i`: it names
      the dimension if that has no integer. */
  function TightenedAt(types: seq<VarType>, s: Snapshot, i: nat): (t: Snapshot)
    requires ValidBox(s.box, |types|) && i < |types|
    ensures t.box == TightenAt(types, s.box, i)
  {
    var r := TightenAt(types, s.box, i);
    if r == s.box then s
    else if r.NoPoints? then Snapshot(NoPoints, Dims(types), s.used, s.unsatWitness + {i})
    else s.(box := r, output := s.output + {i})
  }

  function TightenedBelow(types: seq<VarType>, s: Snapshot, k: nat): (t: Snapshot)
    requires ValidBox(s.box, |types|) && k <= |types|
    ensures t.box == TightenBelow(types, s.box, k)
  {
    if k == 0 then s else TightenedAt(types, TightenedBelow(types, s, k - 1), k - 1)
  }

  /** The status after `InplaceJoin`. */
  function JoinedWith(s: Snapshot, t: Snapshot): Snapshot
    requires s.box.Box? && t.box.Box? ==> |s.box.iv| == |t.box.iv|
  {
    Snapshot(HullBox(s.box, t.box), s.output + t.output, s.used + t.used, s.unsatWitness + t.unsatWitness)
  }

  // ---------------------------------------------------------------- worklist

  /** The contractors that read one of the dimensions `dims`. */
  function Readers(cs: seq<Contractor>, types: seq<VarType>, dims: set<nat>): set<nat> {
    set j | 0 <= j < |cs| && Inputs(cs[j], types) * dims != {} :: j
  }

  /** `find_first` and `find_next`: the least element not below `from`. */
  function FindFrom(s: set<nat>, from: nat, n: nat): (r: Option<nat>)
    ensures r.Some? ==> r.value in s && from <= r.value < n
    ensures r.None? ==> forall k | from <= k < n :: k !in s
    decreases n - from
  {
    if from >= n then None else if from in s then Some(from) else FindFrom(s, from + 1, n)
  }

  /** The next contractor of the queue after `k`, from the start again if there is
      none behind it. */
  function NextOf(s: set<nat>, k: nat, n: nat): Option<nat> {
    if FindFrom(s, k, n).Some? then FindFrom(s, k, n) else FindFrom(s, 0, n)
  }

  // ------------------------------------------------------------------ forall

  function CounterexampleMid(ce: Box, i: nat): (m: int)
    ensures Finite(m)
  {
    if ce.Box? && i < |ce.iv| && ValidInterval(ce.iv[i]) then Mid(ce.iv[i]) else 0
  }

  /** The box extended by the universal variables, each pinned to the midpoint
      of the counterexample. */
  function Instance(b: Box, ce: Box, m: nat): (r: Box)
    requires b.Box?
    ensures r.Box? && |r.iv| == |b.iv| + m
    ensures forall i | 0 <= i < |b.iv| :: r.iv[i] == b.iv[i]
    ensures forall i | |b.iv| <= i < |b.iv| + m ::
            r.iv[i] == Interval(CounterexampleMid(ce, i), CounterexampleMid(ce, i))
  {
    Box(seq(|b.iv| + m, i requires 0 <= i < |b.iv| + m =>
      if i < |b.iv| then b.iv[i] else Interval(CounterexampleMid(ce, i), CounterexampleMid(ce, i))))
  }

  lemma InstanceIsValid(b: Box, ce: Box, n: nat, m: nat)
    requires b.Box? && ValidBox(b, n)
    ensures ValidBox(Instance(b, ce, m), n + m)
  {
  }

  /** What pruning one instance of the matrix leaves of the box. */
  ghost function InstanceRun(fo: Foreign, types: seq<VarType>, c: Contractor, b: Box, ce: Box): Box
    requires SoundForeign(fo) && c.ForallCtc? && Loopless(c.inner) && ValidBox(b, |types|) && b.Box?
  {
    InstanceIsValid(b, ce, |types|, |c.utypes|);
    assert |types + c.utypes| == |types| + |c.utypes|;
    var r := Run(fo, types + c.utypes, c.inner, Instance(b, ce, |c.utypes|));
    if r.NoPoints? then NoPoints else Box(r.iv[..|types|])
  }

  /** The status after one counterexample: nothing is recorded for it. */
  ghost function Instanced(fo: Foreign, types: seq<VarType>, c: Contractor, s: Snapshot, ce: Box): Snapshot
    requires SoundForeign(fo) && c.ForallCtc? && Loopless(c.inner) && ValidBox(s.box, |types|) && s.box.Box?
  {
    var r := InstanceRun(fo, types, c, s.box, ce);
    if r.NoPoints? then s.(box := r, output := Dims(types))
    else s.(box := r, output := s.output + Changed(s.box, r))
  }

  /** The stacking order of the nested solver alternates. */
  function SideAt(side: bool, n: nat): bool {
    if n == 0 then !side else !SideAt(side, n - 1)
  }

  /** `n` rounds with a counterexample that narrows the box. */
  ghost predicate Instances(fo: Foreign, types: seq<VarType>, c: Contractor, side: bool, n: nat, s: Snapshot,
                            t: Snapshot)
    requires SoundForeign(fo) && c.ForallCtc? && Loopless(c.inner)
    decreases n
  {
    if n == 0 then t == s
    else exists m: Snapshot ::
      && Instances(fo, types, c, side, n - 1, s, m) && ValidBox(m.box, |types|) && m.box.Box?
      && var ce := fo.solve(c.query, m.box, SideAt(side, n - 1));
         ce.Some? && t == Instanced(fo, types, c, m, ce.value) && t.box.Box? && t.box != m.box
  }

  /** The last round: no counterexample, or one that empties the box or changes
      nothing. */
  ghost predicate LastInstance(fo: Foreign, types: seq<VarType>, c: Contractor, side: bool, m: Snapshot, t: Snapshot)
    requires SoundForeign(fo) && c.ForallCtc? && Loopless(c.inner)
  {
    && ValidBox(m.box, |types|) && m.box.Box?
    && match fo.solve(c.query, m.box, side)
       case None => t == m
       case Some(ce) => t == Instanced(fo, types, c, m, ce) && (t.box.NoPoints? || t.box == m.box)
  }

  /** The loop of counterexample-guided pruning; in the end its formula is
      recorded whether or not it changed the box. */
  ghost predicate PrunesForall(fo: Foreign, types: seq<VarType>, c: Contractor, s: Snapshot, t: Snapshot)
    requires SoundForeign(fo) && c.ForallCtc? && Loopless(c.inner)
  {
    exists side, n: nat, m: Snapshot, u: Snapshot ::
      && Instances(fo, types, c, side, n, s, m) && LastInstance(fo, types, c, SideAt(side, n), m, u)
      && t == u.(used := u.used + {c.f},
                 unsatWitness := if u.box.NoPoints? then u.unsatWitness + FreeVars(c.f) else u.unsatWitness)
  }

  // ------------------------------------------------------------ the relation

  /** Pruning by `c` turns the status `s`, with a box that is not empty, into `t`. */
  ghost predicate Prunes(fo: Foreign, types: seq<VarType>, c: Contractor, branchingPoint: int, s: Snapshot, t: Snapshot)
    decreases c, 0, 0
  {
    && ValidBox(s.box, |types|)
    && match c
       case Id => t == s
       case Fwdbwd(f) => t == NarrowedTo(types, f, s, fo.hc4(f, s.box))
       case IntegerCtc => t == TightenedBelow(types, s, |types|)
       case SeqCtc(cs) => PrunesAll(fo, types, cs, branchingPoint, s, t)
       case JoinCtc(cs) => PrunesJoin(fo, types, cs, branchingPoint, s, t)
       case FixpointCtc(cs) => PrunesLoop(fo, types, cs, branchingPoint, s, t)
       case WorklistCtc(cs) => PrunesQueue(fo, types, cs, branchingPoint, s, t)
       case ForallCtc(_, _, _, inner) => SoundForeign(fo) && Loopless(inner) && PrunesForall(fo, types, c, s, t)
  }

  /** One contractor after the other, up to the first empty box. */
  ghost predicate PrunesAll(fo: Foreign, types: seq<VarType>, cs: seq<Contractor>, branchingPoint: int, s: Snapshot,
                            t: Snapshot)
    decreases cs, 0, 0
  {
    if cs == [] then t == s
    else exists m: Snapshot ::
      && PrunesAll(fo, types, cs[..|cs| - 1], branchingPoint, s, m)
      && if m.box.NoPoints? then t == m else Prunes(fo, types, cs[|cs| - 1], branchingPoint, m, t)
  }

  /** Each contractor on a copy of the status, the copies joined. */
  ghost predicate PrunesJoin(fo: Foreign, types: seq<VarType>, cs: seq<Contractor>, branchingPoint: int, s: Snapshot,
                             t: Snapshot)
    decreases cs, 0, 0
  {
    if cs == [] then t == s.(box := NoPoints)
    else exists m: Snapshot, u: Snapshot ::
      && PrunesJoin(fo, types, cs[..|cs| - 1], branchingPoint, s, m)
      && Prunes(fo, types, cs[|cs| - 1], branchingPoint, s, u)
      && ValidBox(m.box, |types|) && ValidBox(u.box, |types|) && t == JoinedWith(m, u)
  }

  /** `n` rounds after each of which the loop goes on. */
  ghost predicate Rounds(fo: Foreign, types: seq<VarType>, cs: seq<Contractor>, branchingPoint: int, n: nat,
                         s: Snapshot, t: Snapshot)
    decreases cs, 1, n
  {
    if n == 0 then t == s
    else exists m: Snapshot ::
      && Rounds(fo, types, cs, branchingPoint, n - 1, s, m)
      && PrunesAll(fo, types, cs, branchingPoint, m, t) && GoesOn(m.box, t.box)
  }

  /** The do-while loop: rounds, and a last one that empties the box or improves no
      dimension. */
  ghost predicate PrunesLoop(fo: Foreign, types: seq<VarType>, cs: seq<Contractor>, branchingPoint: int, s: Snapshot,
                             t: Snapshot)
    decreases cs, 2, 0
  {
    exists n: nat, m: Snapshot ::
      && Rounds(fo, types, cs, branchingPoint, n, s, m)
      && PrunesAll(fo, types, cs, branchingPoint, m, t) && !GoesOn(m.box, t.box)
  }

  /** One call of contractor `k` in a worklist, with a fresh report; the readers of
      what it reports are queued. */
  ghost predicate Turned(fo: Foreign, types: seq<VarType>, cs: seq<Contractor>, k: nat, branchingPoint: int,
                         s: Snapshot, wl: set<nat>, t: Snapshot, wl': set<nat>)
    requires k < |cs|
    decreases cs, 0, 0
  {
    && s.box.Box? && Prunes(fo, types, cs[k], branchingPoint, s.(output := {}), t)
    && wl' == if t.box.NoPoints? then {} else wl + Readers(cs, types, t.output)
  }

  /** Phase 1 has considered the first `i` contractors: it calls all of them, or
      those that read the branched dimension, up to the first empty box. */
  ghost predicate Filled(fo: Foreign, types: seq<VarType>, cs: seq<Contractor>, i: nat, branchingPoint: int,
                         s: Snapshot, t: Snapshot, wl: set<nat>)
    requires i <= |cs|
    decreases cs, 1, i, 0
  {
    if i == 0 then t == s && wl == {} else FilledBy(fo, types, cs, i - 1, branchingPoint, s, t, wl)
  }

  ghost predicate FilledBy(fo: Foreign, types: seq<VarType>, cs: seq<Contractor>, k: nat, branchingPoint: int,
                           s: Snapshot, t: Snapshot, wl: set<nat>)
    requires k < |cs|
    decreases cs, 1, k, 1
  {
    exists m: Snapshot, w: set<nat> ::
      && Filled(fo, types, cs, k, branchingPoint, s, m, w)
      && if m.box.Box? && (branchingPoint < 0 || branchingPoint in Inputs(cs[k], types)) then
           Turned(fo, types, cs, k, branchingPoint, m, w, t, wl)
         else t == m && wl == w
  }

  /** Phase 2 has made `n` turns, in the order of the queue, and is about to call
      contractor `k'`. */
  ghost predicate Queued(fo: Foreign, types: seq<VarType>, cs: seq<Contractor>, branchingPoint: int, n: nat,
                         s: Snapshot, wl: set<nat>, k: nat, t: Snapshot, wl': set<nat>, k': nat)
    decreases cs, 1, n
  {
    if n == 0 then t == s && wl' == wl && k' == k
    else exists m: Snapshot, w: set<nat>, j: nat ::
      && Queued(fo, types, cs, branchingPoint, n - 1, s, wl, k, m, w, j)
      && j < |cs| && j in w && Turned(fo, types, cs, j, branchingPoint, m, w - {j}, t, wl')
      && (wl' != {} ==> NextOf(wl', j + 1, |cs|) == Some(k'))
  }

  /** Phase 2, which ends with nothing queued or with an empty box. */
  ghost predicate PrunesRest(fo: Foreign, types: seq<VarType>, cs: seq<Contractor>, branchingPoint: int, s: Snapshot,
                             wl: set<nat>, t: Snapshot)
    decreases cs, 2, 0
  {
    exists n: nat, k: nat, k': nat ::
      FindFrom(wl, 0, |cs|) == Some(k) && Queued(fo, types, cs, branchingPoint, n, s, wl, k, t, {}, k')
  }

  /** Both phases; the second is left out when phase 1 empties the box, queues
      nothing, or improves no dimension. What is still queued then is `rest`. */
  ghost predicate PrunesQueueTo(fo: Foreign, types: seq<VarType>, cs: seq<Contractor>, branchingPoint: int,
                                s: Snapshot, t: Snapshot, rest: set<nat>)
    decreases cs, 3, 0
  {
    exists m: Snapshot, wl: set<nat> ::
      && Filled(fo, types, cs, |cs|, branchingPoint, s, m, wl)
      && if wl == {} || !GoesOn(s.box, m.box) then t == m && rest == wl
         else rest == {} && PrunesRest(fo, types, cs, branchingPoint, m, wl, t)
  }

  ghost predicate PrunesQueue(fo: Foreign, types: seq<VarType>, cs: seq<Contractor>, branchingPoint: int, s: Snapshot,
                              t: Snapshot)
    decreases cs, 4, 0
  {
    exists rest :: PrunesQueueTo(fo, types, cs, branchingPoint, s, t, rest)
  }

  /** The same for any status; an empty box stays empty. */
  ghost predicate Pruned(fo: Foreign, types: seq<VarType>, c: Contractor, branchingPoint: int, s: Snapshot,
                         t: Snapshot) {
    if s.box.Box? then Prunes(fo, types, c, branchingPoint, s, t) else t.box.NoPoints?
  }

  // ------------------------------------------------------------ consequences

  /** Once the box is empty the rest of a sequence changes nothing. */
  lemma {:induction false} PrunesAllStays(fo: Foreign, types: seq<VarType>, cs: seq<Contractor>, i: nat,
                                          branchingPoint: int, s: Snapshot, t: Snapshot)
    requires i <= |cs| && PrunesAll(fo, types, cs[..i], branchingPoint, s, t) && t.box.NoPoints?
    ensures PrunesAll(fo, types, cs, branchingPoint, s, t)
    decreases |cs|
  {
    if i == |cs| {
      assert cs[..i] == cs;
    } else {
      assert cs[..|cs| - 1][..i] == cs[..i];
      PrunesAllStays(fo, types, cs[..|cs| - 1], i, branchingPoint, s, t);
    }
  }

  lemma PrunesAllStep(fo: Foreign, types: seq<VarType>, cs: seq<Contractor>, i: nat, branchingPoint: int, s: Snapshot,
                      m: Snapshot, t: Snapshot)
    requires i < |cs| && PrunesAll(fo, types, cs[..i], branchingPoint, s, m) && m.box.Box?
    requires Prunes(fo, types, cs[i], branchingPoint, m, t)
    ensures PrunesAll(fo, types, cs[..i + 1], branchingPoint, s, t)
    ensures t.box.NoPoints? ==> PrunesAll(fo, types, cs, branchingPoint, s, t)
  {
    assert cs[..i + 1][..i] == cs[..i];
    if t.box.NoPoints? { PrunesAllStays(fo, types, cs, i + 1, branchingPoint, s, t); }
  }
}
