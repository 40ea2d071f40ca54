/** The mutable status that contractors share (contractor/contractor_status.cc)
    and the generation of explanations from it. */
module ContractorStatuses {
  import opened Symbolic
  import opened Boxes
  import opened Explanations

  /** `HaveIntersection` on the sorted variable lists of symbolic.cc. */
  method HaveIntersection(xs: seq<nat>, ys: seq<nat>) returns (r: bool)
    requires Sorted(xs) && Sorted(ys)
    ensures r <==> exists v :: v in xs && v in ys
  {
    var i, j := 0, 0;
    while i < |xs| && j < |ys|
      invariant 0 <= i <= |xs| && 0 <= j <= |ys|
      invariant forall a, b | 0 <= a < |xs| && 0 <= b < |ys| && xs[a] == ys[b] :: i <= a && j <= b
      decreases |xs| - i + |ys| - j
    {
      if xs[i] < ys[j] {
        i := i + 1;
      } else {
        if !(ys[j] < xs[i]) {
          assert xs[i] in xs && xs[i] in ys;
          return true;
        }
        j := j + 1;
      }
    }
    return false;
  }

  predicate Sorted(xs: seq<nat>) {
    forall i, j | 0 <= i < j < |xs| :: xs[i] < xs[j]
  }

  /** The recorded constraints that are ground or touch the emptying variables. */
  ghost function Touching(U: set<Formula>, W: set<nat>): set<Formula> {
    set f | f in U && (FreeVars(f) == {} || FreeVars(f) * W != {})
  }

  /** `E` is below every closed explanation. */
  ghost predicate BelowClosed(E: set<Formula>, U: set<Formula>, W: set<nat>) {
    forall X | ClosedExplanation(X, U, W) :: E <= X
  }

  /** `GenerateExplanation`, without the ODE splice. The constraint sets are
      visited in an arbitrary order: the result does not depend on it. */
  method GenerateExplanation(W: set<nat>, U: set<Formula>) returns (E: set<Formula>)
    ensures IsExplanation(E, U, W)
  {
    var seen: set<nat>;
    E, seen := InitialExplanation(W, U);
    if W == {} {
      GroundOnlyIsClosed(E, U);
      return;
    }
    var keepGoing := true;
    while keepGoing
      invariant Touching(U, W) <= E <= U && seen == VarsOf(E) && BelowClosed(E, U, W)
      invariant !keepGoing ==> forall f | f in U - E :: FreeVars(f) !! VarsOf(E)
      decreases |U - E|, keepGoing
    {
      ghost var E0 := E;
      E, seen, keepGoing := ClosurePass(W, U, E, seen);
      if keepGoing { ProperGrowthShrinksRest(E0, E, U); }
    }
    ClosedWhenNoneTouches(E, U, W);
  }

  /** The first loop of `GenerateExplanation`. */
  method InitialExplanation(W: set<nat>, U: set<Formula>) returns (E: set<Formula>, seen: set<nat>)
    ensures E == Touching(U, W) && seen == VarsOf(E)
  {
    seen, E := {}, {};
    var rest := U;
    while rest != {}
      invariant rest <= U && E == Touching(U - rest, W) && seen == VarsOf(E)
      decreases rest
    {
      var f :| f in rest;
      assert U - (rest - {f}) == (U - rest) + {f};
      rest := rest - {f};
      VarsOfAdd(E, f);
      if FreeVars(f) == {} {
        E := E + {f};
      } else if FreeVars(f) * W != {} {
        E := E + {f};
        seen := seen + FreeVars(f);
      }
    }
    assert U - rest == U;
  }

  /** One round of the closure loop: adds every recorded constraint that shares
      a variable with what has been seen so far. */
  method ClosurePass(ghost W: set<nat>, U: set<Formula>, E0: set<Formula>, seen0: set<nat>)
    returns (E: set<Formula>, seen: set<nat>, changed: bool)
    requires E0 <= U && seen0 == VarsOf(E0) && BelowClosed(E0, U, W)
    ensures E0 <= E <= U && seen == VarsOf(E) && BelowClosed(E, U, W)
    ensures changed <==> E != E0
    ensures !changed ==> forall f | f in U - E :: FreeVars(f) !! VarsOf(E)
  {
    E, seen, changed := E0, seen0, false;
    var rest := U;
    while rest != {}
      invariant rest <= U && E0 <= E <= U && seen == VarsOf(E) && BelowClosed(E, U, W)
      invariant changed <==> E != E0
      invariant !changed ==> forall f | f in (U - rest) - E :: FreeVars(f) !! VarsOf(E)
      decreases rest
    {
      var f :| f in rest;
      rest := rest - {f};
      if f !in E && seen * FreeVars(f) != {} {
        StepStaysLeast(E, U, W, f);
        VarsOfAdd(E, f);
        E := E + {f};
        seen := seen + FreeVars(f);
        changed := true;
      }
    }
  }

  lemma GroundOnlyIsClosed(E: set<Formula>, U: set<Formula>)
    requires E == Touching(U, {})
    ensures IsExplanation(E, U, {})
  {
    assert forall f | f in E :: FreeVars(f) == {};
  }

  lemma VarsOfAdd(E: set<Formula>, f: Formula)
    ensures VarsOf(E + {f}) == VarsOf(E) + FreeVars(f)
  {
  }

  lemma StepStaysLeast(E: set<Formula>, U: set<Formula>, W: set<nat>, f: Formula)
    requires BelowClosed(E, U, W) && f in U && VarsOf(E) * FreeVars(f) != {}
    ensures BelowClosed(E + {f}, U, W)
  {
    var v :| v in VarsOf(E) * FreeVars(f);
    var g :| g in E && v in FreeVars(g);
    assert v in FreeVars(g) * FreeVars(f);
    assert Share(g, f);
  }

  lemma ProperGrowthShrinksRest(E0: set<Formula>, E: set<Formula>, U: set<Formula>)
    requires E0 <= E <= U && E != E0
    ensures |U - E| < |U - E0|
  {
    assert U - E0 == (U - E) + (E - E0);
    assert E - E0 != {};
  }

  lemma ClosedWhenNoneTouches(E: set<Formula>, U: set<Formula>, W: set<nat>)
    requires Touching(U, W) <= E <= U
    requires forall f | f in U - E :: FreeVars(f) !! VarsOf(E)
    ensures ClosedExplanation(E, U, W)
  {
    forall f, g | f in E && g in U && Share(f, g) ensures g in E {
      var v :| v in FreeVars(f) * FreeVars(g);
      assert v in VarsOf(E);
    }
  }

  /** The part of a status that pruning changes, as a value. */
  datatype Snapshot = Snapshot(box: Box, output: set<nat>, used: set<Formula>, unsatWitness: set<nat>)

  class ContractorStatus {
    /** The types of the box variables; fixed for the life of the box. */
    const types: seq<VarType>
    var box: Box
    var branchingPoint: int
    /** Dimensions narrowed since the last reset. */
    var output: set<nat>
    var used: set<Formula>
    var unsatWitness: set<nat>

    ghost predicate Valid()
      reads this
    {
      ValidBox(box, |types|) && -1 <= branchingPoint < |types|
    }

    ghost function Snap(): Snapshot
      reads this
    {
      Snapshot(box, output, used, unsatWitness)
    }

    constructor (types: seq<VarType>, box: Box, branchingPoint: int)
      requires box.Box? && ValidBox(box, |types|) && -1 <= branchingPoint < |types|
      ensures Valid() && this.types == types && this.box == box && this.branchingPoint == branchingPoint
      ensures output == {} && used == {} && unsatWitness == {}
    {
      this.types := types;
      this.box := box;
      this.branchingPoint := branchingPoint;
      output, used, unsatWitness := {}, {}, {};
    }

    constructor Copy(cs: ContractorStatus)
      requires cs.Valid()
      ensures Valid() && types == cs.types && box == cs.box && branchingPoint == cs.branchingPoint
      ensures output == cs.output && used == cs.used && unsatWitness == cs.unsatWitness
    {
      types := cs.types;
      box := cs.box;
      branchingPoint := cs.branchingPoint;
      output, used, unsatWitness := cs.output, cs.used, cs.unsatWitness;
    }

    method AddUnsatWitness(v: nat)
      modifies this`unsatWitness
      ensures unsatWitness == old(unsatWitness) + {v}
    {
      unsatWitness := unsatWitness + {v};
    }

    /** An emptying constraint also names its variables as responsible. */
    method AddUsedConstraint(f: Formula)
      modifies this`used, this`unsatWitness
      ensures used == old(used) + {f}
      ensures unsatWitness == if box.NoPoints? then old(unsatWitness) + FreeVars(f) else old(unsatWitness)
    {
      if box.NoPoints? {
        var vs := FreeVars(f);
        while vs != {}
          invariant vs <= FreeVars(f) && unsatWitness == old(unsatWitness) + (FreeVars(f) - vs)
          invariant used == old(used)
          decreases vs
        {
          var v :| v in vs;
          AddUnsatWitness(v);
          vs := vs - {v};
        }
      }
      used := used + {f};
    }

    method InplaceJoin(other: ContractorStatus)
      requires Valid() && other.Valid() && types == other.types
      modifies this
      ensures Valid() && branchingPoint == old(branchingPoint)
      ensures box == HullBox(old(box), old(other.box))
      ensures output == old(output) + old(other.output)
      ensures used == old(used) + old(other.used)
      ensures unsatWitness == old(unsatWitness) + old(other.unsatWitness)
    {
      box := HullBox(box, other.box);
      output := output + other.output;
      unsatWitness := unsatWitness + other.unsatWitness;
      used := used + other.used;
    }

    method Explanation() returns (E: set<Formula>)
      ensures IsExplanation(E, used, unsatWitness)
    {
      E := GenerateExplanation(unsatWitness, used);
    }
  }
}
