/** Bound predicates for the SAT solver and the implications between them
    (solver/sat_solver_interval_logic.cc, `MakeSatUbVar` and `MakeSatLbVar`). */
module BoundChain {
  import opened Symbolic
  import opened Boxes

  /** One ordered table of the program: the upper or lower bounds, inclusive or
      exclusive, of a variable. */
  datatype Kind = Kind(v: nat, upper: bool, inclusive: bool)

  datatype Atom = Atom(kind: Kind, c: int)

  /** The learned clause `!a || b`. */
  datatype Clause = Clause(a: Atom, b: Atom)

  predicate AtomHolds(a: Atom, p: Point) {
    var x, c := p(a.kind.v), a.c as real;
    if a.kind.upper then (if a.kind.inclusive then x <= c else x < c)
    else (if a.kind.inclusive then c <= x else c < x)
  }

  /** The clauses are consequences of the theory. */
  ghost predicate AllSound(clauses: seq<Clause>) {
    forall k, p | 0 <= k < |clauses| && AtomHolds(clauses[k].a, p) :: AtomHolds(clauses[k].b, p)
  }

  ghost predicate Models(T: Atom -> bool, clauses: seq<Clause>) {
    forall k | 0 <= k < |clauses| :: T(clauses[k].a) ==> T(clauses[k].b)
  }

  /** The clauses alone let the SAT solver conclude `b` from `a`. */
  ghost predicate Entails(clauses: seq<Clause>, a: Atom, b: Atom) {
    forall T | Models(T, clauses) && T(a) :: T(b)
  }

  lemma EntailsMore(clauses: seq<Clause>, more: seq<Clause>, a: Atom, b: Atom)
    requires clauses <= more && Entails(clauses, a, b)
    ensures Entails(more, a, b)
  {
    forall T | Models(T, more) && T(a) ensures T(b) {
      forall k | 0 <= k < |clauses| ensures T(clauses[k].a) ==> T(clauses[k].b) {
        assert clauses[k] == more[k];
      }
      assert Models(T, clauses);
    }
  }

  lemma EntailsTrans(clauses: seq<Clause>, a: Atom, b: Atom, c: Atom)
    requires Entails(clauses, a, b) && Entails(clauses, b, c)
    ensures Entails(clauses, a, c)
  {
  }

  lemma EntailsByClause(clauses: seq<Clause>, k: nat)
    requires k < |clauses|
    ensures Entails(clauses, clauses[k].a, clauses[k].b)
  {
  }

  /** Of two bounds of one kind, the first implies the second. */
  predicate Stronger(kind: Kind, c: int, d: int) {
    if kind.upper then c <= d else d <= c
  }

  lemma StrongerMeaning(kind: Kind, c: int, d: int)
    ensures Stronger(kind, c, d) <==> forall p :: AtomHolds(Atom(kind, c), p) ==> AtomHolds(Atom(kind, d), p)
  {
    if !Stronger(kind, c, d) {
      // A value between the two bounds, at the end each of them includes.
      var x := if kind.inclusive then c as real else (c as real + d as real) / 2.0;
      var p: Point := (v: nat) => x;
      assert AtomHolds(Atom(kind, c), p) && !AtomHolds(Atom(kind, d), p);
    }
  }

  predicate StrictlySorted(s: seq<int>) {
    forall i, j | 0 <= i < j < |s| :: s[i] < s[j]
  }

  /** All ordering implications among the stored bounds follow. */
  ghost predicate Chained(kind: Kind, s: seq<int>, clauses: seq<Clause>) {
    forall i, j | 0 <= i < |s| && 0 <= j < |s| && Stronger(kind, s[i], s[j]) ::
      Entails(clauses, Atom(kind, s[i]), Atom(kind, s[j]))
  }

  /** `std::map::lower_bound`. */
  method LowerBound(s: seq<int>, c: int) returns (i: nat)
    requires StrictlySorted(s)
    ensures i <= |s|
    ensures forall k | 0 <= k < i :: s[k] < c
    ensures forall k | i <= k < |s| :: c <= s[k]
  {
    i := 0;
    while i < |s| && s[i] < c
      invariant 0 <= i <= |s|
      invariant forall k | 0 <= k < i :: s[k] < c
    {
      i := i + 1;
    }
  }

  /** What is added when `c` is inserted at position `i`: links to the two
      neighbours only. */
  function Links(kind: Kind, s: seq<int>, i: nat, c: int): seq<Clause>
    requires i <= |s|
  {
    (if i < |s| then [Link(kind, c, s[i])] else []) + (if i > 0 then [Link(kind, s[i - 1], c)] else [])
  }

  /** The implication between two bounds `c < d`. */
  function Link(kind: Kind, c: int, d: int): Clause {
    if kind.upper then Clause(Atom(kind, c), Atom(kind, d)) else Clause(Atom(kind, d), Atom(kind, c))
  }

  function Inserted(s: seq<int>, i: nat, c: int): seq<int>
    requires i <= |s|
  {
    s[..i] + [c] + s[i..]
  }

  lemma LinkEntails(clauses: seq<Clause>, kind: Kind, c: int, d: int, k: nat)
    requires k < |clauses| && clauses[k] == Link(kind, c, d) && c < d
    ensures Stronger(kind, c, d) ==> Entails(clauses, Atom(kind, c), Atom(kind, d))
    ensures Stronger(kind, d, c) ==> Entails(clauses, Atom(kind, d), Atom(kind, c))
  {
    EntailsByClause(clauses, k);
  }

  /** The links are consequences of the theory. */
  lemma LinksAreSound(clauses: seq<Clause>, kind: Kind, s: seq<int>, i: nat, c: int)
    requires AllSound(clauses) && i <= |s|
    requires (i < |s| ==> c < s[i]) && (i > 0 ==> s[i - 1] < c)
    ensures AllSound(clauses + Links(kind, s, i, c))
  {
    var all := clauses + Links(kind, s, i, c);
    forall k, p | 0 <= k < |all| && AtomHolds(all[k].a, p) ensures AtomHolds(all[k].b, p) {
      if k < |clauses| { assert all[k] == clauses[k]; }
    }
  }

  /** One implication of the new bound, through the neighbour on that side. */
  lemma ThroughNeighbour(clauses: seq<Clause>, kind: Kind, s: seq<int>, i: nat, c: int, j: nat)
    requires StrictlySorted(s) && i <= |s| && j < |s| && Chained(kind, s, clauses)
    requires (forall k | 0 <= k < i :: s[k] < c) && (forall k | i <= k < |s| :: c < s[k])
    ensures var all := clauses + Links(kind, s, i, c);
            && (Stronger(kind, c, s[j]) ==> Entails(all, Atom(kind, c), Atom(kind, s[j])))
            && (Stronger(kind, s[j], c) ==> Entails(all, Atom(kind, s[j]), Atom(kind, c)))
  {
    var all := clauses + Links(kind, s, i, c);
    if j >= i {
      assert all[|clauses|] == Link(kind, c, s[i]);
      LinkEntails(all, kind, c, s[i], |clauses|);
      ChainStep(clauses, all, kind, s, i, j, c);
    } else {
      var k := |clauses| + if i < |s| then 1 else 0;
      assert all[k] == Link(kind, s[i - 1], c);
      LinkEntails(all, kind, s[i - 1], c, k);
      ChainStep(clauses, all, kind, s, i - 1, j, c);
    }
  }

  lemma ChainStep(clauses: seq<Clause>, all: seq<Clause>, kind: Kind, s: seq<int>, n: nat, j: nat, c: int)
    requires clauses <= all && Chained(kind, s, clauses) && n < |s| && j < |s|
    requires (c < s[n] && s[n] <= s[j]) || (s[n] < c && s[j] <= s[n])
    requires Stronger(kind, c, s[n]) ==> Entails(all, Atom(kind, c), Atom(kind, s[n]))
    requires Stronger(kind, s[n], c) ==> Entails(all, Atom(kind, s[n]), Atom(kind, c))
    ensures Stronger(kind, c, s[j]) ==> Entails(all, Atom(kind, c), Atom(kind, s[j]))
    ensures Stronger(kind, s[j], c) ==> Entails(all, Atom(kind, s[j]), Atom(kind, c))
  {
    if Stronger(kind, c, s[j]) {
      EntailsMore(clauses, all, Atom(kind, s[n]), Atom(kind, s[j]));
      EntailsTrans(all, Atom(kind, c), Atom(kind, s[n]), Atom(kind, s[j]));
    }
    if Stronger(kind, s[j], c) {
      EntailsMore(clauses, all, Atom(kind, s[j]), Atom(kind, s[n]));
      EntailsTrans(all, Atom(kind, s[j]), Atom(kind, s[n]), Atom(kind, c));
    }
  }

  lemma InsertedAt(s: seq<int>, i: nat, c: int, k: nat)
    requires i <= |s| && k < |Inserted(s, i, c)|
    ensures Inserted(s, i, c)[k] == if k < i then s[k] else if k == i then c else s[k - 1]
  {
  }

  lemma InsertedIsSorted(s: seq<int>, i: nat, c: int)
    requires StrictlySorted(s) && i <= |s|
    requires (forall k | 0 <= k < i :: s[k] < c) && (forall k | i <= k < |s| :: c < s[k])
    ensures StrictlySorted(Inserted(s, i, c))
  {
    var t := Inserted(s, i, c);
    forall a, b | 0 <= a < b < |t| ensures t[a] < t[b] {
      InsertedAt(s, i, c, a);
      InsertedAt(s, i, c, b);
    }
  }

  /** The implication between two bounds of the longer chain. */
  lemma InsertedPair(clauses: seq<Clause>, kind: Kind, s: seq<int>, i: nat, c: int, a: nat, b: nat)
    requires StrictlySorted(s) && i <= |s| && Chained(kind, s, clauses)
    requires (forall k | 0 <= k < i :: s[k] < c) && (forall k | i <= k < |s| :: c < s[k])
    requires a < |Inserted(s, i, c)| && b < |Inserted(s, i, c)|
    requires Stronger(kind, Inserted(s, i, c)[a], Inserted(s, i, c)[b])
    ensures Entails(clauses + Links(kind, s, i, c), Atom(kind, Inserted(s, i, c)[a]), Atom(kind, Inserted(s, i, c)[b]))
  {
    InsertedAt(s, i, c, a);
    InsertedAt(s, i, c, b);
    var a', b' := if a < i then a else a - 1, if b < i then b else b - 1;
    if a == i && b == i {
    } else if a == i {
      ThroughNeighbour(clauses, kind, s, i, c, b');
    } else if b == i {
      ThroughNeighbour(clauses, kind, s, i, c, a');
    } else {
      EntailsMore(clauses, clauses + Links(kind, s, i, c), Atom(kind, s[a']), Atom(kind, s[b']));
    }
  }

  /** Linking to the neighbours keeps the whole chain. */
  lemma InsertionKeepsChain(clauses: seq<Clause>, kind: Kind, s: seq<int>, i: nat, c: int)
    requires StrictlySorted(s) && i <= |s| && Chained(kind, s, clauses)
    requires (forall k | 0 <= k < i :: s[k] < c) && (forall k | i <= k < |s| :: c < s[k])
    ensures StrictlySorted(Inserted(s, i, c))
    ensures Chained(kind, Inserted(s, i, c), clauses + Links(kind, s, i, c))
  {
    var t := Inserted(s, i, c);
    InsertedIsSorted(s, i, c);
    forall a, b | 0 <= a < |t| && 0 <= b < |t| && Stronger(kind, t[a], t[b])
      ensures Entails(clauses + Links(kind, s, i, c), Atom(kind, t[a]), Atom(kind, t[b]))
    {
      InsertedPair(clauses, kind, s, i, c, a, b);
    }
  }

  lemma OtherChainsKept(clauses: seq<Clause>, more: seq<Clause>, kind: Kind, s: seq<int>)
    requires clauses <= more && Chained(kind, s, clauses)
    ensures Chained(kind, s, more)
  {
    forall i, j | 0 <= i < |s| && 0 <= j < |s| && Stronger(kind, s[i], s[j])
      ensures Entails(more, Atom(kind, s[i]), Atom(kind, s[j]))
    {
      EntailsMore(clauses, more, Atom(kind, s[i]), Atom(kind, s[j]));
    }
  }

  /** Between stored bounds of one kind, the clauses give exactly the
      implications that hold over the reals. */
  lemma ChainIsExact(clauses: seq<Clause>, kind: Kind, s: seq<int>, i: nat, j: nat)
    requires AllSound(clauses) && Chained(kind, s, clauses) && i < |s| && j < |s|
    ensures Entails(clauses, Atom(kind, s[i]), Atom(kind, s[j])) <==>
            forall p :: AtomHolds(Atom(kind, s[i]), p) ==> AtomHolds(Atom(kind, s[j]), p)
  {
    StrongerMeaning(kind, s[i], s[j]);
    forall p | Entails(clauses, Atom(kind, s[i]), Atom(kind, s[j])) && AtomHolds(Atom(kind, s[i]), p)
      ensures AtomHolds(Atom(kind, s[j]), p)
    {
      var T := (a: Atom) => AtomHolds(a, p);
      assert Models(T, clauses);
    }
  }

  class BoundPredicates {
    var stored: map<Kind, seq<int>>
    var clauses: seq<Clause>

    ghost predicate Valid()
      reads this
    {
      && AllSound(clauses)
      && forall kind | kind in stored :: StrictlySorted(stored[kind]) && Chained(kind, stored[kind], clauses)
    }

    constructor ()
      ensures Valid() && stored == map[] && clauses == []
    {
      stored, clauses := map[], [];
    }

    /** `MakeSatUbVar`: the predicate `v <= ub` or `v < ub`, or `None` for a bound
        at infinity, and whether nothing had to be made. */
    method MakeSatUbVar(v: nat, ub: int, inclusive: bool) returns (atom: Option<Atom>, existed: bool)
      requires Valid()
      modifies this
      ensures Valid() && old(clauses) <= clauses && |clauses| <= |old(clauses)| + 2
      ensures atom == if Finite(ub) then Some(Atom(Kind(v, true, inclusive), ub)) else None
      ensures existed <==> (Finite(ub) ==> ub in Bounds(old(stored), Kind(v, true, inclusive)))
      ensures forall kind, c :: c in Bounds(stored, kind) <==>
                c in Bounds(old(stored), kind) || (Finite(ub) && kind == Kind(v, true, inclusive) && c == ub)
    {
      if !Finite(ub) { return None, true; }
      var kind := Kind(v, true, inclusive);
      var s := Bounds(stored, kind);
      assert StrictlySorted(s) && Chained(kind, s, clauses);
      var i := LowerBound(s, ub);
      if i < |s| && s[i] == ub { return Some(Atom(kind, ub)), true; }
      ghost var before := clauses;
      // (v < ub) implies the next larger bound.
      if i < |s| { clauses := clauses + [Clause(Atom(kind, ub), Atom(kind, s[i]))]; }
      // The next smaller bound implies (v < ub).
      if i > 0 { clauses := clauses + [Clause(Atom(kind, s[i - 1]), Atom(kind, ub))]; }
      assert clauses == before + Links(kind, s, i, ub);
      Insert(kind, s, i, ub, before);
      return Some(Atom(kind, ub)), false;
    }

    /** `MakeSatLbVar`, with the implications reversed. */
    method MakeSatLbVar(v: nat, lb: int, inclusive: bool) returns (atom: Option<Atom>, existed: bool)
      requires Valid()
      modifies this
      ensures Valid() && old(clauses) <= clauses && |clauses| <= |old(clauses)| + 2
      ensures atom == if Finite(lb) then Some(Atom(Kind(v, false, inclusive), lb)) else None
      ensures existed <==> (Finite(lb) ==> lb in Bounds(old(stored), Kind(v, false, inclusive)))
      ensures forall kind, c :: c in Bounds(stored, kind) <==>
                c in Bounds(old(stored), kind) || (Finite(lb) && kind == Kind(v, false, inclusive) && c == lb)
    {
      if !Finite(lb) { return None, true; }
      var kind := Kind(v, false, inclusive);
      var s := Bounds(stored, kind);
      assert StrictlySorted(s) && Chained(kind, s, clauses);
      var i := LowerBound(s, lb);
      if i < |s| && s[i] == lb { return Some(Atom(kind, lb)), true; }
      ghost var before := clauses;
      // The next larger bound implies (lb < v).
      if i < |s| { clauses := clauses + [Clause(Atom(kind, s[i]), Atom(kind, lb))]; }
      // (lb < v) implies the next smaller bound.
      if i > 0 { clauses := clauses + [Clause(Atom(kind, lb), Atom(kind, s[i - 1]))]; }
      assert clauses == before + Links(kind, s, i, lb);
      Insert(kind, s, i, lb, before);
      return Some(Atom(kind, lb)), false;
    }

    /** Stores the new bound, once its links have been added. */
    method Insert(kind: Kind, s: seq<int>, i: nat, c: int, ghost before: seq<Clause>)
      requires s == Bounds(stored, kind) && StrictlySorted(s) && i <= |s|
      requires (forall k | 0 <= k < i :: s[k] < c) && (forall k | i <= k < |s| :: c < s[k])
      requires AllSound(before) && clauses == before + Links(kind, s, i, c) && Chained(kind, s, before)
      requires forall k | k in stored :: StrictlySorted(stored[k]) && Chained(k, stored[k], before)
      modifies this`stored
      ensures Valid()
      ensures forall k, d :: d in Bounds(stored, k) <==> d in Bounds(old(stored), k) || (k == kind && d == c)
    {
      LinksAreSound(before, kind, s, i, c);
      InsertionKeepsChain(before, kind, s, i, c);
      forall k | k in stored ensures Chained(k, stored[k], clauses) { OtherChainsKept(before, clauses, k, stored[k]); }
      assert s == s[..i] + s[i..];
      stored := stored[kind := Inserted(s, i, c)];
    }
  }

  function Bounds(stored: map<Kind, seq<int>>, kind: Kind): seq<int> {
    if kind in stored then stored[kind] else []
  }
}
