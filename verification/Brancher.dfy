/** Choice of the dimension to split (solver/brancher.cc, brancher_smear.cc). */
module Brancher {
  import opened Symbolic
  import opened Boxes

  /** `dim` is the first among the bisectable active dimensions of largest
      diameter, and -1 exactly when no active dimension is bisectable. */
  ghost predicate LargestFirst(b: Box, active: set<nat>, dim: int)
    requires b.Box?
  {
    if dim < 0 then
      dim == -1 && forall d: nat | d in active && d < |b.iv| :: !Bisectable(b.iv[d])
    else
      && dim < |b.iv| && dim in active && Bisectable(b.iv[dim])
      && (forall d: nat | d in active && d < |b.iv| && Bisectable(b.iv[d]) ::
            Diam(b.iv[d]) < Diam(b.iv[dim]) || (Diam(b.iv[d]) == Diam(b.iv[dim]) && dim <= d))
  }

  /** When the bisectable active dimensions are bounded, the choice is the first of
      the widest ones. */
  lemma LargestFirstIsWidest(b: Box, active: set<nat>, dim: int)
    requires b.Box? && ValidBox(b, |b.iv|) && LargestFirst(b, active, dim) && dim >= 0
    requires forall d: nat | d in active && d < |b.iv| && Bisectable(b.iv[d]) :: Bounded(b.iv[d])
    ensures forall d: nat | d in active && d < |b.iv| && Bisectable(b.iv[d]) ::
              Width(b.iv[d]) < Width(b.iv[dim]) || (Width(b.iv[d]) == Width(b.iv[dim]) && dim <= d)
  {
    forall d: nat | d in active && d < |b.iv| && Bisectable(b.iv[d])
      ensures Width(b.iv[d]) < Width(b.iv[dim]) || (Width(b.iv[d]) == Width(b.iv[dim]) && dim <= d)
    {
      DiamOrdersByWidth(b.iv[d], b.iv[dim]);
      DiamOrdersByWidth(b.iv[dim], b.iv[d]);
    }
  }

  /** `FindMaxDiam`. */
  method FindMaxDiam(b: Box, active: set<nat>) returns (dim: int)
    requires b.Box? && ValidBox(b, |b.iv|)
    ensures LargestFirst(b, active, dim)
  {
    var maxDiam := 0;
    dim := -1;
    var idx := 0;
    while idx < |b.iv|
      invariant 0 <= idx <= |b.iv|
      invariant dim == -1 ==> maxDiam == 0 && forall d: nat | d in active && d < idx :: !Bisectable(b.iv[d])
      invariant dim != -1 ==> 0 <= dim < idx && dim in active && Bisectable(b.iv[dim]) && maxDiam == Diam(b.iv[dim])
      invariant dim != -1 ==> forall d: nat | d in active && d < idx && Bisectable(b.iv[d]) ::
                  Diam(b.iv[d]) < maxDiam || (Diam(b.iv[d]) == maxDiam && dim <= d)
    {
      if idx in active {
        var diam := Diam(b.iv[idx]);
        if diam > maxDiam && Bisectable(b.iv[idx]) {
          maxDiam, dim := diam, idx;
        }
      }
      idx := idx + 1;
    }
  }

  /** A bisectable active dimension of largest positive score, else the first
      choice by diameter. */
  ghost predicate SmearFirst(score: (Box, nat) -> real, b: Box, active: set<nat>, dim: int)
    requires b.Box?
  {
    && (dim >= 0 ==> dim < |b.iv| && dim in active && Bisectable(b.iv[dim]))
    && (dim < 0 || score(b, dim) <= 0.0 ==> LargestFirst(b, active, dim))
    && (dim >= 0 && (exists d: nat :: d in active && d < |b.iv| && Bisectable(b.iv[d]) && score(b, d) > 0.0) ==>
          forall d: nat | d in active && d < |b.iv| && Bisectable(b.iv[d]) :: score(b, d) <= score(b, dim))
  }

  /** `SmearBrancher::operator()` for an arbitrary score: the bisectable active
      dimension of largest positive score, else largest-first. */
  method FindSmear(score: (Box, nat) -> real, b: Box, active: set<nat>) returns (dim: int)
    requires b.Box? && ValidBox(b, |b.iv|)
    ensures SmearFirst(score, b, active, dim)
  {
    var best := -1;
    var bestScore := -1.0;
    var idx := 0;
    while idx < |b.iv|
      invariant 0 <= idx <= |b.iv|
      invariant best == -1 ==> bestScore == -1.0
      invariant best != -1 ==> 0 <= best < idx && best in active && Bisectable(b.iv[best])
      invariant best != -1 ==> bestScore == score(b, best)
      invariant forall d: nat | d in active && d < idx && Bisectable(b.iv[d]) :: score(b, d) <= bestScore
    {
      if idx in active && Bisectable(b.iv[idx]) && score(b, idx) > bestScore {
        best, bestScore := idx, score(b, idx);
      }
      idx := idx + 1;
    }
    if best < 0 || !(bestScore > 0.0) {
      dim := FindMaxDiam(b, active);
    } else {
      dim := best;
    }
  }
}
