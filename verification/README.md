# A verified model of dReal's delta-decision engine

dReal decides existential and exists-forall problems over the reals up to a
precision delta. This project models its decision engine in Dafny and proves
what its verdicts mean:

- branch and prune over boxes (`Icp.dfy`, `Brancher.dfy`, `Evaluator.dfy`,
  `ExactRanges.dfy`), the contractor algebra (`ContractorSpec.dfy`,
  `Contractors.dfy`, `FixpointTheory.dfy`) and what each contractor does to a
  status (`PruneRuns.dfy`), and the explanations drawn from a refuted search
  (`Explanations.dfy`, `ContractorStatus.dfy`); what the search accepts of a
  forall (`SpreadAcceptance.dfy`);
- the theory solver on top of them (`Filter.dfy`, `ContractorBuilder.dfy`,
  `TheorySolver.dfy`, `FractionalEnds.dfy`) and the lazy SMT loop
  (`LazySmt.dfy`, `BoundChain.dfy`);
- the parallel search as an interleaved step system (`IcpParallel.dfy`), and as
  workers that refine it (`ParallelSearch.dfy`);
- the formula transformations that feed both: negation normal form, CNF,
  delta-strengthening, the counterexample query of a forall, elimination of
  conditionals and of pinned quantifiers, and the Pareto encoding (`Nnf.dfy`,
  `Cnf.dfy`, `Delta.dfy`, `ForallQuery.dfy`, `TypedForall.dfy`,
  `IfThenElse.dfy`, `IfThenElseEliminator.dfy`, `PointQuantifier.dfy`,
  `Minimize.dfy`).

`dafny verify dfyconfig.toml` checks the whole project.

## How things are modelled

- Numbers. Points range over all reals. Box endpoints are integers in grid units:
  `UNIT` units are the value 1.0, `INF` and `-INF` stand for the infinities, and
  `MAX` is the largest finite double. The grid is uniform, doubles are not; no
  proof uses more than the order of endpoints and the position of the integers.
  Interval operations are exact, where the program rounds outwards.
- Variables. A variable is the number of its box dimension. The universal
  variables of a forall are the dimensions after the box, and so are the fresh
  variables of a transformation.
- Formulas. Operands of conjunctions and disjunctions are sequences, where the
  program keeps sets. Constants are reals; interval constants, transcendental
  functions and division are not part of the expressions.
- Foreign code. HC4 contraction and the nested solver are function values with
  contracts stated as hypotheses. `SoundForeign` is assumed throughout;
  `MonotoneForeign`, `LocalForeign` and `SolveRefutes`, which says that the
  nested solver is right when it finds no counterexample, over the reals or on
  the grid of doubles, only where a statement names them. The SAT solver is a
  function with the contract `SoundSat`. Seeds, smear scores and the schedule of
  parallel workers are arbitrary.
- Runs. What the operations do to their state is stated by relations that leave
  no choice but the side that the nested solver of a forall explores first, the
  order of literals with equally many variables, and what the libraries report
  for a box that is already empty:
  `PruneRuns.Prunes` for a contractor, `Icp.SearchRuns` for the search,
  `ParallelSearch.SearchesInParallel` for the parallel one under a schedule,
  `TheorySolvers.Answers` for a theory check, and `LazySmt.Runs` for the lazy SMT
  loop, whose contract holds for every relation that contains its rounds
  (`LazySmt.LoopFor`), in particular for the least one (`LazySmt.SmtLoop`). What a
  verdict means is proved besides.
- Roots. That every real which is not negative has a root of every degree is a
  hypothesis (`ExactRanges.RootsExist`) of the statements that say that the range
  of a power is not too wide; it holds of the reals, but is not among the axioms
  of Dafny's type `real`.
- The central notion. `Keeps` says that a narrowing loses no candidate: a point
  is followed through the search on a set of coordinates closed under the
  recorded constraints and may move freely elsewhere. It composes through
  contractors, branching, workers and the theory solver, and yields the unsat
  core at the end. `Obeys` is satisfaction, except that the real values between
  the constant of a strict bound and the neighbouring double are set aside,
  because filtering gives them up.

## Where the code falls short of the intended property

- A negated equality is exempt from branching like a disequality, but weakening
  does nothing to it, so a box can be accepted over which it is undecided
  (`Evaluator.NegatedEqualityEscapesCertificate`). A bound on one variable is
  exempt as well, and nothing certifies it over a box that exceeds it
  (`Icp.Exempt`); the theory solver starts from a box inside the bounds, and
  there they hold up to the precision (`Icp.InsideBoundIsWeakened`,
  `TheorySolvers.SearchSettles`).
- A strict bound at the largest or smallest finite double is reported as filtered
  although its strictness is lost (`Filter.FilteredIsImplied` is exact about it).
- Filtering a strict bound on a continuous variable gives up the real values
  between the constant and the neighbouring double (`Explanations.Clear`).
- A forall is accepted over a box when its literals spread by at most the
  precision around the one counterexample that was found, which says nothing of
  other values of the universal variables (`SpreadAcceptance.UnboundedIsAccepted`).
  It gives the weakened forall exactly when the counterexample covers them
  (`SpreadAcceptance.AcceptanceDecidesExactly`).
- Counterexample-guided pruning instantiates an integer universal variable at the
  midpoint of its interval, which may be a fraction. Points for which the forall
  holds over the integers are then lost, and `TypedForall.NeverLosesExactly` says
  when: exactly when some universal variable is an integer and there is another
  variable to prune, Boolean ones aside.
- Learned clauses are right for the box in which they were learned. The nested
  contexts of foralls change the box between calls and keep the clauses
  (`src/dreal/contractor/contractor_forall.h:212-220`). They stay right exactly
  over boxes inside that box (`LazySmt.ReuseExactlyInside`); elsewhere they can
  hide a model (`LazySmt.StaleClauseHidesModel`).
- A propositional model without theory literals is returned as a verdict without
  a theory check (`src/dreal/solver/context_impl.cc:521`). That is right for full
  models and only for those (`LazySmt.UncheckedIsRightWhenFull`): dropping atoms
  that can be flipped can leave such a model for a stack that nothing satisfies
  (`LazySmt.PartialModelIsNoModel`).
- With `--worklist-fixpoint` the early return after the first phase leaves integer
  ends in the integer dimensions exactly when no variable is an integer or none is
  continuous (`FractionalEnds.EarlyReturnsExactly`). Over a mix of the two the
  sequential search can then fail in an assertion of `Box::bisect_int`
  (`FractionalEnds.RootSplits`, `FractionalEnds.ChildFails`); without the option or
  the mix it cannot, and neither can the parallel search, which never passes a
  branching point to its contractors (`TheorySolvers.TheorySolver.CheckSat`).
- An integer variable pinned to a fraction ranges over nothing, while eliminating
  it instantiates the matrix there; `PointQuantifier.TotalElimination` states the
  condition.
- The comment above `ContractorWorklistFixpoint::Prune` promises a termination
  test in its loop; the code leaves the loop only when the box or the worklist is
  empty, and the model follows the code.
- The back-off limit of `CheckSatCore` doubles in an `int`; the model lets it grow
  without bound.

## Model

| member | source | states |
|---|---|---|
| ContractorStatuses.HaveIntersection | src/dreal/symbolic/symbolic.cc:148-165 | the merge walk over sorted variable lists answers true exactly when the lists share a variable |
| ContractorStatuses.GenerateExplanation | src/dreal/contractor/contractor_status.cc:117-185 | the result is the least set of recorded constraints that contains the ground ones and those touching the witness and is closed under sharing a variable; the loop ends |
| ContractorStatuses.ClosurePass | src/dreal/contractor/contractor_status.cc:153-164 | one round stays inside the records and below every closed set, reports whether it grew, and when it did not, what is left out shares no variable with the result |
| ContractorStatuses.ContractorStatus.AddUsedConstraint | src/dreal/contractor/contractor_status.cc:90-99 | records the constraint, and its variables as witnesses exactly when the box is empty |
| ContractorStatuses.ContractorStatus.InplaceJoin | src/dreal/contractor/contractor_status.cc:191-202 | box becomes the hull, outputs, witnesses and used constraints become unions |
| Explanations.ExcludedIsDisjoint | src/dreal/contractor/contractor_status.cc:131-164 | a recorded constraint outside a closed explanation shares no variable with it or with the witness |
| Explanations.KeepsTrans | src/dreal/solver/icp_seq.cc:131-157 | narrowings that lose no candidate compose while the records grow |
| Explanations.KeepsByFormula | src/dreal/contractor/contractor_ibex_fwdbwd.cc:92-158 | narrowing by one recorded constraint moves a candidate only off a closed set of coordinates, so none is lost |
| Explanations.KeepsByInteger | src/dreal/contractor/contractor_integer.cc:43-68 | rounding an integer dimension loses no candidate when an emptied dimension is named as witness |
| Explanations.BranchCovers | src/dreal/solver/icp_seq.cc:164-183 | every candidate of a box is in one of its halves, also when the split dimension is outside the closed set |
| Explanations.ExplanationIsCore | src/dreal/contractor/contractor_status.cc:117-189 | once a box is refuted from the records, every closed explanation is an unsat core of it, although constraints outside the explanation narrowed and split the boxes |
| Explanations.CoreOverGridPoints | src/dreal/solver/theory_solver.cc:345-382 | over points whose coordinates are doubles no point of the box satisfies the core |
| Explanations.CoreWithoutStrictBounds | src/dreal/solver/theory_solver.cc:345-382 | over all real points the same, when the core has no strict bound on a variable |
| Boxes.HalvesCover | src/dreal/util/box.cc:200-231 | every value admissible for the type of a bisected dimension is in one of the halves |
| Boxes.Bisect | src/dreal/util/box.cc:170-231 | wherever the assertions of `bisect_int` hold, integer ends or not, both halves are non-empty valid sub-boxes, strictly narrower than the box |
| Boxes.IntegralIsSplit | src/dreal/util/box.cc:200-213 | integer ends meet the assertions of `bisect_int` |
| Boxes.FractionIsNotSplit | src/dreal/util/box.cc:200-213 | a bisectable interval from a fraction above 0 to 1 does not |
| Boxes.HullBox | src/dreal/util/box.cc:233-240 | the union is the least box around both operands |
| Boxes.WidthFalls | src/dreal/util/box.cc:200-231 | narrowing never adds width and every proper narrowing loses some: the measure behind all termination proofs |
| Boxes.DiamOrdersByWidth | src/dreal/solver/brancher.cc:29-46 | bounded intervals are ordered by width, and every unbounded one comes after them |
| Boxes.HalvesAreEven | src/dreal/util/box.cc:220-231 | the halves of a bounded continuous interval share the midpoint and are equal up to one grid unit |
| Boxes.IntegerHalvesAreEven | src/dreal/util/box.cc:200-218 | the halves of a bounded interval with integer ends are consecutive and hold as many integers, up to one |
| Contractors.DefaultTerminationCondition | src/dreal/solver/theory_solver.cc:60-89 | stops exactly when no dimension improves by the threshold |
| PruneRuns.ImprovedIsOnePercent | src/dreal/solver/theory_solver.cc:60-89 | a bounded interval improves by the threshold exactly when it is not a point and has lost at least one percent of its width, an unbounded one exactly when it has become bounded |
| Contractors.ContinueShrinks | src/dreal/solver/theory_solver.cc:60-89 | continuing a fixpoint loop means that some dimension lost width |
| Contractors.PruneFwdbwd | src/dreal/contractor/contractor_ibex_fwdbwd.cc:92-158 | the status is the one HC4 leaves: its box, the changed dimensions reported, the constraint recorded exactly when it changed the box and its variables as witnesses exactly when it emptied it; no candidate is lost |
| Contractors.PruneInteger | src/dreal/contractor/contractor_integer.cc:43-68 | integer dimensions are rounded inwards in order, each change is reported, the emptied dimension alone is the witness, and no integer point is lost |
| Contractors.Prune | src/dreal/contractor/contractor.cc:108-114 | every contractor keeps the points it stands for and loses no candidate; the status it leaves, with the box, the reported dimensions, the recorded constraints and the witnesses, is one to which the relation of its kind leads; a fixpoint ends with a round that improves no dimension, a worklist with a common fixpoint or early without an improved dimension, a forall without a counterexample that narrows the box |
| Contractors.PruneSeq | src/dreal/contractor/contractor_seq.cc:43-50 | the children are applied in order up to the first empty box, with all their records |
| Contractors.PruneJoin | src/dreal/contractor/contractor_join.cc:43-51 | the box is the hull, and the records are the unions, of what each child makes of a copy of the original status |
| Contractors.PruneFixpoint | src/dreal/contractor/contractor_fixpoint.cc:48-68 | terminates; the status comes from rounds over all contractors that go on exactly while some dimension improves; the box stays above every common fixpoint below the start box |
| Contractors.InputToContractors | src/dreal/contractor/contractor_worklist_fixpoint.cc:62-69 | each dimension is mapped to exactly the contractors that read it |
| Contractors.UpdateWorklist | src/dreal/contractor/contractor_worklist_fixpoint.cc:32-40 | adds exactly the contractors that read a changed dimension |
| Contractors.PruneWorklist | src/dreal/contractor/contractor_worklist_fixpoint.cc:90-156 | terminates; phase 1 calls all contractors, or those that read the branched dimension, and phase 2, in the order of the queue, follows unless phase 1 empties the box, queues nothing or improves no dimension; with an empty worklist on exit, the box is a common fixpoint of all simple contractors, whatever else is in the list, when no branching point is given or the box was half of a fixpoint, and the greatest one when all are simple and monotone; which exits leave integer ends; and the exact box of an early return |
| Contractors.FixedStep | src/dreal/contractor/contractor_worklist_fixpoint.cc:136-154 | queueing the readers of what changed keeps all simple contractors outside the queue at a fixpoint, in lists with any other contractors |
| Contractors.HalfIsFixed | src/dreal/contractor/contractor_worklist_fixpoint.cc:117-134 | halving a common fixpoint leaves the contractors that do not read the branched dimension at a fixpoint, which is why phase 1 may pass over them |
| Contractors.QueueMeasure | src/dreal/contractor/contractor_worklist_fixpoint.cc:136-155 | each turn of the worklist loop loses width or shortens the queue |
| FixpointTheory.AboveStep | src/dreal/contractor/contractor_fixpoint.cc:61-66 | applying a monotone contractor stays above every common fixpoint |
| FixpointTheory.FixedByLocality | src/dreal/contractor/contractor_worklist_fixpoint.cc:62-69 | a contractor that has nothing to narrow still has nothing to narrow when dimensions it does not read change |
| FixpointTheory.GreatestFixpointUnique | src/dreal/contractor/contractor_worklist_fixpoint.cc:100-155 | there is one greatest common fixpoint below a box |
| FixpointTheory.CommonFixpointReorder | src/dreal/contractor/contractor_worklist_fixpoint.cc:100-155 | it does not depend on the order of the contractors |
| FixpointTheory.GreatestFixpointIsInside | src/dreal/contractor/contractor_fixpoint.cc:48-68 | it lies inside every box that stays above the common fixpoints, in particular inside the result of the round-robin fixpoint |
| ContractorSpec.PruneSpecStep | src/dreal/contractor/contractor_seq.cc:43-50 | pruning by a part after pruning by the whole is pruning by the whole, in all clauses of the contract |
| ContractorSpec.RunKeeps | src/dreal/contractor/contractor.cc:108-114 | a contractor without a loop keeps every point it stands for, in the box that `Run` defines |
| Contractors.PruneWithCounterexample | src/dreal/contractor/contractor_forall.h:150-189 | the box becomes what the compiled matrix leaves of it at the midpoints of the counterexample; stops exactly when it is empty or unchanged |
| Contractors.PruneForall | src/dreal/contractor/contractor_forall.h:197-242 | keeps every point for which the universal formula holds; the box comes from the instances at the counterexamples found, in turn for both stacking orders, until none is left or one empties the box or narrows nothing, and nothing but the formula is recorded; terminates because each further round loses width; if no counterexample is left and the nested solver can be trusted with that, over the reals or on the grid, what remains of the box satisfies the weakened matrix at every typed point there |
| Contractors.InstanceKeeps | src/dreal/contractor/contractor_forall.h:153-187 | an instance of the matrix at one value of the universal variables keeps every point for which the universal formula holds |
| ContractorBuilder.FlattenMeaning | src/dreal/contractor/contractor.cc:53-72 | flattening keeps what a list of contractors stands for |
| ContractorBuilder.CompileMeaning | src/dreal/contractor/generic_contractor_generator.cc:37-143 | the compiled contractor keeps every point satisfying the matrix, and stands for no more than the matrix when there is no disequality in it |
| ContractorBuilder.CompileOperates | src/dreal/contractor/generic_contractor_generator.cc:116-143 | it reads only variables of the matrix |
| ContractorBuilder.MakeForall | src/dreal/contractor/contractor_forall.h:79-136 | the contractor of a forall carries the compiled matrix and its counterexample query up to equivalence, is fit for pruning, and fails to build exactly when the matrix does not compile |
| ContractorBuilder.NoCounterexampleDecides | src/dreal/contractor/contractor_forall.h:58-61 | when no counterexample is left over a box, over the reals or on the grid, every typed point of it there, with every value of the universal variables, satisfies the weakened matrix |
| ContractorBuilder.ExhaustedIsWeakened | src/dreal/contractor/contractor_forall.h:197-242 | a box over which a nested solver, trusted over the reals or on the grid, finds no counterexample satisfies the weakened matrix at every typed point there |
| ContractorBuilder.CounterexampleRefutes | src/dreal/contractor/contractor_forall.h:63-69 | a model of the query refutes the forall at its existential coordinates |
| TypedForall.NeverLosesExactly | src/dreal/contractor/contractor_forall.h:150-189 | over all formulas, boxes, counterexamples that satisfy the query and sound narrowings: an instance never loses a typed point of the typed forall exactly when no universal variable is an integer, or there is no other variable but Boolean ones |
| TypedForall.MidpointLoses | src/dreal/contractor/contractor_forall.h:162-166 | any integer universal variable makes it lose one, with a matrix and a counterexample that meet every contract |
| TypedForall.RealInstanceKeeps | src/dreal/contractor/contractor_forall.h:150-189 | without integer universal variables an instance at the midpoints keeps every typed point of the typed forall |
| ForallQuery.AbsorbBounds | src/dreal/contractor/forall_counterexample_query.cc:58-71 | the universal box is the initial one met with the binder bounds |
| ForallQuery.DomainHoldsObeying | src/dreal/contractor/forall_counterexample_query.cc:58-71 | it holds every typed point that obeys the universal conjuncts |
| ForallQuery.StrengthenForallCounterexampleQuery | src/dreal/contractor/forall_counterexample_query.cc:51-108 | the query means: bounds of narrow universal variables as they stand, every other conjunct of the negated matrix strengthened by epsilon |
| ForallQuery.StrengthenedImpliesQuery | src/dreal/contractor/forall_counterexample_query.cc:51-108 | the strengthened normal form of the negated matrix implies the query |
| ForallQuery.QueryImpliesNegation | src/dreal/contractor/forall_counterexample_query.cc:51-108 | the query implies the negated matrix |
| ForallQuery.NoCounterexampleWeakens | src/dreal/contractor/forall_counterexample_query.cc:51-108 | where the query fails, the matrix weakened by epsilon holds |
| ForallQuery.DomainSurvives | src/dreal/contractor/forall_counterexample_query.cc:73-86 | a universal variable with non-strict bounds and a non-empty domain keeps a value that meets all its bounds as the query has them |
| Symbolic.Negate | src/dreal/symbolic/symbolic.cc:589-610 | the negated operator holds exactly where the operator does not |
| Symbolic.MkAndMeaning | src/third_party/com_github_robotlocomotion_drake/dreal/symbolic/symbolic_formula.cc:259-291 | the simplifying conjunction means the conjunction of its operands |
| Symbolic.MkOrMeaning | src/third_party/com_github_robotlocomotion_drake/dreal/symbolic/symbolic_formula.cc:387-419 | the simplifying disjunction means the disjunction of its operands |
| Symbolic.MkForallMeaning | src/third_party/com_github_robotlocomotion_drake/dreal/symbolic/symbolic_formula.cc:191-193 | dropping quantified variables that do not occur changes nothing |
| Nnf.NnfMeaning | src/dreal/util/nnfizer.cc:24-179 | the normal form means the formula, negated under negative polarity |
| Nnf.NnfShape | src/dreal/util/nnfizer.cc:24-179 | negation is left only before Boolean variables and foralls, and before relational atoms unless pushed |
| Delta.ShiftRelMeaning | src/dreal/symbolic/symbolic.cc:286-381 | what strengthening or weakening does to an atom, in terms of the difference of its sides |
| Delta.ShiftIsDirected | src/dreal/symbolic/symbolic.cc:169-427 | strengthening implies the formula and the formula implies its weakening |
| Delta.ShiftIsMonotone | src/dreal/symbolic/symbolic.cc:169-427 | a larger margin gives a stronger formula, across zero as well |
| Delta.ShiftThroughNnf | src/dreal/symbolic/symbolic.cc:169-427 | where the weakened formula fails, the strengthened normal form of its negation holds |
| Evaluator.EvalEncloses | src/dreal/solver/expression_evaluator.cc:44-207 | the interval value of an expression encloses its value at every point of the box |
| ExactRanges.MulRangeIsExact | src/dreal/solver/expression_evaluator.cc:80-91 | the product range holds exactly the products of values of the factors, also where an end is zero and another infinite |
| ExactRanges.AddRangeIsExact | src/dreal/solver/expression_evaluator.cc:68-78 | the sum range holds exactly the sums |
| ExactRanges.PowRangeIsExact | src/dreal/solver/expression_evaluator.cc:118-144 | the power range holds exactly the powers, given that roots exist |
| ExactRanges.AbsRangeIsExact | src/dreal/solver/expression_evaluator.cc:103-106 | the range of the absolute value holds exactly the absolute values |
| ExactRanges.MinRangeIsExact | src/dreal/solver/expression_evaluator.cc:197-201 | the range of the minimum holds exactly the minima |
| ExactRanges.MaxRangeIsExact | src/dreal/solver/expression_evaluator.cc:203-207 | the range of the maximum holds exactly the maxima |
| ExactRanges.EvalIsNatural | src/dreal/solver/expression_evaluator.cc:44-207 | evaluation is the natural interval extension: at every node of any expression the range is exactly the set of values of the operation over the ranges of its operands |
| ExactRanges.ReadOnceIsExact | src/dreal/solver/expression_evaluator.cc:44-207 | where no variable occurs twice, the range is exactly the set of values of the expression over the box |
| ExactRanges.ReadOnceIsDecided | src/dreal/solver/relational_formula_evaluator.cc:93-200 | a constraint in which no variable occurs twice is VALID exactly when it holds at every point of the box, and UNSAT exactly when it holds at none |
| ExactRanges.UndecidedVaries | src/dreal/solver/icp.cc:31-78 | when such a constraint asks for branching, it holds at one point of the box and fails at another, and the difference of its sides varies by more than the precision |
| Evaluator.ClassificationIsSound | src/dreal/solver/relational_formula_evaluator.cc:93-200 | VALID constraints hold at every point of the box, UNSAT ones at none, for all six operators under any number of negations |
| Evaluator.DeltaCertificate | src/dreal/solver/icp.cc:31-78 | a constraint that is not UNSAT and varies by at most the precision holds, weakened by the precision, at every point of the box |
| Evaluator.LiteralShifted | src/dreal/symbolic/symbolic.cc:286-398 | shifting a literal shifts its operator, with the exact exceptions for negated equalities and disequalities |
| Evaluator.IsNeqMeansNeq | src/dreal/solver/formula_evaluator_cell.cc:36-44 | the disequality test sees through negations |
| Evaluator.NegatedEqualityIsNotWeakened | src/dreal/symbolic/symbolic.cc:286-311 | weakening does nothing to a negated equality |
| Evaluator.NegatedEqualityEscapesCertificate | src/dreal/solver/formula_evaluator_cell.cc:36-44 | so exempting it from branching as a disequality is not harmless: over every square around the origin `!(x0 = x1)` is undecided, wide and not simple, and its weakening fails at the origin |
| Icp.EvaluateForall | src/dreal/solver/forall_formula_evaluator.cc:98-132 | VALID exactly when the nested solver finds no counterexample; otherwise the evaluation is the largest spread of a literal around it |
| Icp.SpreadMeansWeakened | src/dreal/solver/forall_formula_evaluator.cc:112-126 | a spread within the precision means that every literal holds, weakened by any larger margin, over the box extended by the counterexample |
| SpreadAcceptance.AcceptanceDecidesExactly | src/dreal/solver/forall_formula_evaluator.cc:98-132 | accepting a forall because its literals spread by at most the precision around a counterexample gives the weakened matrix over the box, for all clauses and margins above the precision, exactly when the counterexample covers the values of the universal variables |
| SpreadAcceptance.UnboundedIsAccepted | src/dreal/solver/icp.cc:55-76 | an instance: the search accepts `forall y. y <= x` next to one counterexample, although it fails everywhere by any margin |
| Icp.EvaluateBox | src/dreal/solver/icp.cc:31-78 | empties the box exactly when some constraint is UNSAT on it, recording the first one and its variables; otherwise leaves the status as it is and returns the variables of exactly the undecided, wide, non-exempt constraints |
| Icp.EvaluationMeaning | src/dreal/solver/icp.cc:31-78 | every constraint that is not UNSAT is certified, or all its variables are branching candidates, or it is ground, a negated equality, or a bound that the box exceeds |
| Icp.InsideBoundIsWeakened | src/dreal/solver/icp.cc:59-66 | a bound on one variable needs no branching once the box lies inside it: then it holds, weakened by any margin, over the whole box |
| Brancher.FindMaxDiam | src/dreal/solver/brancher.cc:29-46 | the first bisectable candidate dimension of largest diameter, or -1 exactly when none is bisectable |
| Brancher.LargestFirstIsWidest | src/dreal/solver/brancher.cc:29-46 | among bounded dimensions that is the first of the widest |
| Brancher.FindSmear | src/dreal/solver/brancher_smear.cc:170-241 | for any score a bisectable candidate dimension of largest positive score, else the largest-first choice |
| Icp.ChooseTurn | src/dreal/solver/icp_seq.cc:143-191 | a pruned box is discarded when it evaluates to empty, accepted when certified or not bisectable, else split in the chosen candidate dimension |
| Icp.ProcessBox | src/dreal/solver/icp_seq.cc:131-183 | what is evaluated and split is what pruning has left of the popped box, whatever the types of the variables, and the turn follows from the evaluation |
| Icp.CheckSat | src/dreal/solver/icp_seq.cc:37-196 | terminates; verdict and status are those of a run that starts with the seeds on top of the box, prunes and evaluates the box on top in every turn, pushes both halves of a split, the sides alternating, and ends with an empty stack, an accepted box or a failed split; a false verdict leaves the box empty and refutes the initial box for any seeds, branching order and score; a true verdict leaves a sub-box on which each constraint is certified or cannot be split further; the search fails only where an assertion of `bisect_int` does, and not at all if the contractor leaves integer ends and no constraint has a Boolean variable |
| Icp.NothingLostStep | src/dreal/solver/icp_seq.cc:112-193 | replacing the top of the stack by boxes that hold what is left of it loses no candidate of the initial box |
| Icp.BranchWeight | src/dreal/solver/icp_seq.cc:112-193 | the sum of 3 to the width over the stack falls at every split |
| Icp.RefutedIsUnsat | src/dreal/solver/icp_seq.cc:193-196 | a refuted box has no point that obeys all constraints |
| Filter.UpdateBoundsViaEquality | src/dreal/solver/filter_assertion.cc:31-45 | the box is met with the point; changed exactly when it differs |
| Filter.UpdateLowerBound | src/dreal/solver/filter_assertion.cc:66-80 | the box is met with the half-line; changed exactly when it differs |
| Filter.UpdateUpperBound | src/dreal/solver/filter_assertion.cc:106-120 | the box is met with the half-line; changed exactly when it differs |
| Filter.UpdateStrictLowerBound | src/dreal/solver/filter_assertion.cc:90-103 | continuous variables move to the next double, others keep the constraint |
| Filter.UpdateStrictUpperBound | src/dreal/solver/filter_assertion.cc:130-143 | continuous variables move to the previous double, others keep the constraint |
| Filter.Visit | src/dreal/solver/filter_assertion.cc:145-360 | under every operator, side and number of negations the box is met with the interval of the bound the literal expresses |
| Filter.FilterAssertion | src/dreal/solver/filter_assertion.cc:371-374 | filtered exactly when the bound is absorbed; over a non-empty box changed exactly when the box differs |
| Filter.FilteringKeeps | src/dreal/solver/filter_assertion.cc:31-143 | only the bounded variable is narrowed and no point obeying the assertion is lost |
| Filter.FilteredIsImplied | src/dreal/solver/filter_assertion.cc:82-143 | every point of the new box satisfies a filtered assertion, exactly when the box is empty or the bound is not a strict one at the edge of the finite doubles |
| Filter.FilteringIsExactOnGrid | src/dreal/solver/filter_assertion.cc:31-143 | on grid points the new box is the old box and the assertion |
| Filter.FilteredIsInside | src/dreal/solver/filter_assertion.cc:31-143 | the new box lies inside the closure of the bound, at the edge of the doubles as well |
| TheorySolvers.BuildContractor | src/dreal/solver/theory_solver.cc:146-313 | filtering absorbs the assertions in order, records exactly those that change the box, and stops exactly at one that is filtered and empties it; those not filtered get a contractor each, sorted as the option says, with the integer contractor last; no candidate is lost, the box is inside every bound, and each assertion is represented by a contractor, or implied by the box, or a disequality, or a strict bound at the edge |
| TheorySolvers.Absorb | src/dreal/solver/theory_solver.cc:155-179 | one assertion is absorbed: the box is the filtered one, the assertion is recorded exactly if it changed the box, its variables are witnesses exactly if it emptied it, and it keeps a contractor exactly if it is not filtered |
| TheorySolvers.ContractorFor | src/dreal/solver/theory_solver.cc:180-207 | HC4 for a relational assertion, and for a forall a fixpoint of the contractor built at half the precision |
| TheorySolvers.AssembledContractor | src/dreal/solver/theory_solver.cc:222-312 | sorting, appending the integer contractor and flattening keep every constraint, and leave integer ends unless it is a worklist over a mix of integer and continuous dimensions and has a branching point |
| TheorySolvers.BuildFormulaEvaluator | src/dreal/solver/theory_solver.cc:315-343 | one evaluator per assertion, filtered or not, with the counterexample query at 0.99 of the precision for foralls |
| TheorySolvers.SearchSettles | src/dreal/solver/theory_solver.cc:345-382 | what the exit condition of the search means for an assertion: a bound holds up to the precision, a forall without counterexample has its matrix weakened by 0.99 of it, over the reals or on the grid as far as the nested solver is trusted, any other literal holds up to the precision or cannot be split, negated equalities aside |
| TheorySolvers.TheorySolver.CheckSat | src/dreal/solver/theory_solver.cc:345-382 | the verdict comes from filtering and a run of the search, sequential or parallel under any schedule; an unsatisfiable one comes with the explanation generated from the records of that run, which is the least closed set, a subset of the assertions and an unsat core of the box; a satisfiable one with the box the run ends with, which lies in the box and settles every assertion, bounds included; the search fails only sequentially, with the worklist option over a mix of integer and continuous variables |
| FractionalEnds.AssembledParts | src/dreal/solver/theory_solver.cc:222-312 | with the worklist option, a linear and a quadratic constraint on a continuous and an integer variable become a worklist with the integer contractor at its end |
| FractionalEnds.EarlyReturnsExactly | src/dreal/contractor/contractor_worklist_fixpoint.cc:117-138 | a worklist with the integer contractor last, started from integer ends, leaves integer ends in every early return exactly when no variable is an integer or none is continuous; Boolean dimensions do not count, because they are never split |
| FractionalEnds.RootSplits | src/dreal/solver/icp_seq.cc:112-191 | a run over it: the root is narrowed by nothing and the search splits the continuous variable |
| FractionalEnds.ChildFails | src/dreal/contractor/contractor_worklist_fixpoint.cc:117-138 | and in the right half a sound narrowing of the integer variable by less than one percent makes the worklist return early with a fractional end; the search then runs into an assertion of `bisect_int` |
| LazySmt.AbsAtPoint | src/dreal/solver/context_impl.cc:368-404 | a point makes the Boolean abstraction true exactly when it satisfies the formula |
| LazySmt.SupportedForalls | src/dreal/solver/context_impl.cc:61-103 | what passes the check has each forall asserted outright with a quantifier-free matrix, and only that passes |
| LazySmt.CoreIsAvoided | src/dreal/solver/context_impl.cc:412-437 | an unsat core found after fixing the Boolean dimensions is a clause that every candidate of the original box satisfies |
| LazySmt.ExplanationBlocksModel | src/dreal/solver/sat_solver_interval_logic.cc:24-32 | a clause built from literals of the current model excludes every assignment extending it |
| LazySmt.LearnStep | src/dreal/solver/context_impl.cc:448-512 | learning keeps all candidates and strictly lowers the number of remaining assignments |
| LazySmt.FullModelDecides | src/dreal/solver/sat_solver.cc:138-207 | a fully constrained model decides the stack: wherever its literals hold, the whole stack holds |
| LazySmt.ModelShifts | src/dreal/solver/sat_solver.cc:138-207 | a formula true under an assignment holds weakened, and a false one does not hold strengthened, where that is so of its atoms |
| LazySmt.FullModelDecidesWeakened | src/dreal/solver/sat_solver.cc:138-207 | a fully constrained model decides the stack up to the precision: over a box where its literals hold weakened, every quantifier-free formula of the stack does |
| LazySmt.FullModelCovers | src/dreal/solver/context_impl.cc:521 | a full model without theory literals makes the whole returned box satisfy the stack |
| LazySmt.UncheckedIsRightWhenFull | src/dreal/solver/context_impl.cc:405-521 | returning a box without a theory check is right for full models, and only for those |
| LazySmt.PartialModelIsNoModel | src/dreal/solver/sat_solver_model_logic.cc:6-74 | an unsatisfiable clause whose atoms are all flippable is reduced to a model without literals, whose box is returned unchecked |
| LazySmt.Context.CheckSatCore | src/dreal/solver/context_impl.cc:368-528 | terminates; clauses, back-off counters, verdict and box are those of a run of the loop, in which each answer is checked over the box with its Boolean values, each explanation is learned, and after a partial model that passes full models are asked for, twice as long each time; an unsatisfiable verdict means that no candidate respecting the earlier clauses satisfies the stack; a returned box lies in the given one, Boolean dimensions at the values of the model, and comes with a propositional model whose theory literals are certified on it, and the quantifier-free stack holds weakened there if they do, or, if the model has none, a box that satisfies the stack when the model is full; a first answer without theory literals is the verdict; all learned clauses hold for all candidates; it fails as the theory solver does |
| LazySmt.LearnedAreExplanations | src/dreal/solver/context_impl.cc:448-481 | everything a run learns is the explanation generated from the records of a theory check that refutes a proposed model over the box, Boolean dimensions aside |
| LazySmt.SortLiteralsIsSort | src/dreal/solver/context_impl.cc:419-427 | the literals go to the theory solver sorted by their number of variables, and none is lost or added |
| LazySmt.FirstVerdictIsUnsat | src/dreal/solver/context_impl.cc:522-526 | the verdict of a first call is about every grid point of the box |
| LazySmt.AfreshRefutesOnGrid | src/dreal/contractor/contractor_forall.h:197-242 | a nested solver that answers from a first call over the extended box can be trusted on the grid when it finds no counterexample |
| LazySmt.ReuseExactlyInside | src/dreal/solver/context_impl.cc:530-551 | clauses learned over a box remain right for later calls over another box exactly when every typed point of that box lies in the first |
| LazySmt.StaleClauseHidesModel | src/dreal/solver/context_impl.cc:530-551 | any typed point outside gives an unsat core over the first box whose clause hides it as a model |
| IcpParallel.CounterStep | src/dreal/solver/icp_parallel.cc:52-61 | every step keeps the counter equal to the boxes on the stack, the boxes held and the increments not yet pushed |
| IcpParallel.ZeroMeansNone | src/dreal/solver/icp_parallel.cc:97-98 | a counter of zero means that no box is left anywhere |
| IcpParallel.CoverageStep | src/dreal/solver/icp_parallel.cc:97-173 | every step keeps each candidate of the initial box in a pending or held box |
| IcpParallel.VerdictStep | src/dreal/solver/icp_parallel.cc:124-164 | racing announcements and workers leaving at different times keep the flag pointing at a certified box |
| IcpParallel.InsideStep | src/dreal/solver/icp_parallel.cc:97-173 | every step keeps all boxes in play valid and inside the initial one |
| IcpParallel.CrashStep | src/dreal/solver/icp_parallel.cc:97-173 | since the branching point of a worker status is never set, no worker runs into an assertion of `bisect_int` when the contractor leaves integer ends without one, which a worklist does over any mix of types |
| IcpParallel.RunVerdict | src/dreal/solver/icp_parallel.cc:230-266 | for every schedule: a negative verdict refutes the initial box, a positive one names a worker whose box lies in the initial one, is what a turn has pruned and accepted, and meets the exit condition, and no worker crashes when the contractor leaves integer ends without a branching point |
| IcpParallel.WeightStep | src/dreal/solver/icp_parallel.cc:97-173 | no step adds weight and every turn that does not end the search removes some, so only finitely many boxes are processed |
| IcpParallel.JoinStatuses | src/dreal/solver/icp_parallel.cc:254-266 | records of all workers are joined and the box is the winner's or empty |
| IcpParallel.JoinedExplanationIsCore | src/dreal/solver/icp_parallel.cc:254-266 | the explanation drawn from the joined records is an unsat core of the box before the initial prune |
| ParallelSearch.Workers.Process | src/dreal/solver/icp_parallel.cc:114-173 | prunes and evaluates the box of one worker, with the side that goes to the stack alternating: a local step of the step system, which leaves all other workers as they are; what is kept is what pruning has left |
| ParallelSearch.Workers.Advance | src/dreal/solver/icp_parallel.cc:52-173 | every access of a worker to the stack, the counter or the flag is a step of the step system |
| ParallelSearch.RunWorkers | src/dreal/solver/icp_parallel.cc:230-252 | under every schedule the workers make the run of the step system in which each entry grants its worker one step, or nothing if it has left |
| ParallelSearch.CheckSat | src/dreal/solver/icp_parallel.cc:184-267 | the box is pruned once and the workers run from the result; the verdict is drawn from the state in which the schedule leaves them: a box or none when all have left, unfinished when not, failed when one has crashed; it means what that of the sequential search does, and it does not fail when the contractor leaves integer ends without a branching point |
| Cnf.DistributeStep | src/dreal/util/naive_cnfizer.cc:85-113 | the nested loops compute the distribution of one disjunct |
| Cnf.FoldMeaning | src/dreal/util/naive_cnfizer.cc:79-114 | the fold is equivalent to the disjunction of the operands so far |
| Cnf.FoldIsShaped | src/dreal/util/naive_cnfizer.cc:79-114 | and stays a conjunction of clauses |
| Cnf.CnfizeMeaning | src/dreal/util/naive_cnfizer.cc:33-119 | the output is equivalent to the input at every point, inside foralls as well |
| Cnf.CnfizeShape | src/dreal/symbolic/symbolic.cc:97-146 | without negated quantifiers the output passes the CNF test |
| Cnf.NegatedForallIsNotCnf | src/dreal/symbolic/symbolic.cc:97-146 | a negated quantifier comes back as it is and does not pass |
| PointQuantifier.SubstMeaning | src/dreal/solver/context_impl.cc:182-190 | substituting a constant is evaluating where the variable has that value |
| PointQuantifier.EliminatePointUniversals | src/dreal/solver/context_impl.cc:159-198 | returns the formula itself, its matrix at the pinned values, or a smaller forall over the variables left |
| PointQuantifier.CounterexampleIsPinned | src/dreal/solver/context_impl.cc:150-158 | every counterexample of the matrix has the pinned values |
| PointQuantifier.PartialElimination | src/dreal/solver/context_impl.cc:197 | the smaller forall says the same as the formula |
| PointQuantifier.TotalElimination | src/dreal/solver/context_impl.cc:194-196 | the quantifier-free result says the same provided the pinned values are in range |
| PointQuantifier.RangeIsEverything | src/dreal/solver/context_impl.cc:150-158 | for continuous variables under non-strict bounds the equivalence is the plain one |
| IfThenElse.ExprSound | src/dreal/util/if_then_else_eliminator.cc:226-242 | where the guard and the added formulas hold, the rewritten expression has the original value, with nested terms constrained only under their guards |
| IfThenElse.ExprExtends | src/dreal/util/if_then_else_eliminator.cc:226-242 | every point extends to the fresh variables so that all added formulas hold and the value is kept |
| IfThenElse.ForallEquivalent | src/dreal/util/if_then_else_eliminator.cc:326-353 | under forall the result is equivalent, because after the double negation the fresh variables are universal |
| IfThenElse.ProcessSound | src/dreal/util/if_then_else_eliminator.cc:65-76 | every model of the output satisfies the input |
| IfThenElse.ProcessComplete | src/dreal/util/if_then_else_eliminator.cc:65-76 | every model of the input extends to the reported variables, and to no others, to a model of the output |
| IfThenElse.ProcessShape | src/dreal/util/if_then_else_eliminator.cc:65-81 | the output has no conditional and its new variables are fresh and reported |
| IfThenElseEliminators.IfThenElseEliminator.VisitIfThenElse | src/dreal/util/if_then_else_eliminator.cc:226-242 | the visitor bumps the counter, registers the variable and adds the two guarded equations |
| IfThenElseEliminators.IfThenElseEliminator.Process | src/dreal/util/if_then_else_eliminator.cc:65-76 | the stateful visitor is equisatisfiable on every input |
| Minimization.CollectConstraints | src/dreal/solver/context_impl.cc:605-623 | collects constraints connected to the objectives such that all others share no variable with them |
| Minimization.RenameMeaning | src/dreal/solver/context_impl.cc:643-645 | a renamed constraint says of the copies what the constraint says of the variables |
| Minimization.Minimize | src/dreal/solver/context_impl.cc:582-659 | the encoding consists of the equations for z and a forall whose matrix says: bounds or connected constraints fail on the copies, or some objective is not beaten |
| Minimization.GlueStack | src/dreal/solver/context_impl.cc:610-623 | copies put in place of the connected variables still satisfy the constraints that were not copied |
| Minimization.EncodingIsPareto | src/dreal/solver/context_impl.cc:582-659 | for a model of stack and box with z at the objective values the encoding, with its copies typed like the variables, holds exactly when no model makes every objective strictly smaller |
| Minimization.PsiIsPareto | src/dreal/solver/context_impl.cc:582-659 | the asserted formula itself holds at such a model exactly when the model is Pareto minimal, provided no variable connected to the objectives is an integer |
| BoundChain.BoundPredicates.MakeSatUbVar | src/dreal/solver/sat_solver_interval_logic.cc:257-296 | stores the bound, links it to its neighbours only, and keeps all clauses sound and all chains complete |
| BoundChain.BoundPredicates.MakeSatLbVar | src/dreal/solver/sat_solver_interval_logic.cc:299-338 | the same with the implications reversed |
| BoundChain.InsertionKeepsChain | src/dreal/solver/sat_solver_interval_logic.cc:273-294 | linking to the neighbours keeps every ordering implication among the stored bounds derivable |
| BoundChain.ChainIsExact | src/dreal/solver/sat_solver_interval_logic.cc:257-338 | between stored bounds of one variable and kind the clauses give exactly the implications valid over the reals |

## Left out

- Contractors.PruneFwdbwd: HC4 itself is foreign; only its contract is used.
- Contractors.PruneWorklist: worklists over joins are not well formed here, because a join reports dimensions that its hull restores and the loop might not end; `BuildContractor` builds none. After an early return the box is that of the first phase and need not be a fixpoint.
- Contractors.PruneForall: the counterexample comes from a foreign solver; its refinement by local optimisation is not modelled.
- Brancher.FindSmear: the smear score is an arbitrary function, because it only affects which covering split is taken.
- Contractors.Prune: what is recorded and reported for a box that is already empty is up to the libraries; it is bounded by the constraints of the contractor.
- ExactRanges.ReadOnceIsExact: where a variable occurs twice the range can be wider than the set of values, as in the program; `ExactRanges.EvalIsNatural` is exact about each operation there too.
- TheorySolvers.TheorySolver.CheckSat: the polytope, ACID and forall pre-prune contractors are foreign and left out; a negated equality may be undecided over the model, as in the program, and so may a bound whose constant is off the grid, which no double is.
- LazySmt.Context.CheckSatCore: clauses from pattern matching, CaDiCaL, the Tseitin encoding, predicate abstraction and the shrinking of models are behind the oracle.
- IcpParallel.RunVerdict: atomic accesses are sequentially consistent and the lock-free stack is a sequence; busy waiting of idle workers is not bounded.
- ParallelSearch.CheckSat: a schedule that ends before all workers have left leaves the search unfinished; how long it must be is not stated beyond `IcpParallel.WeightStep`. A worker that crashes is noticed after the schedule.
- SpreadAcceptance.AcceptanceDecidesExactly: clauses with negated equalities are left out, because weakening does nothing to those.
- FractionalEnds.ChildFails: the run uses a narrowing that meets the contract of HC4 and a largest-first choice; that HC4 narrows in this way is not proved.
- TypedForall.MidpointLoses: the point is lost by a narrowing that meets the contract of HC4; how much HC4 itself cuts away is up to HC4.
- ODE contractors, `forall_t`, integrals and the splicing of inconclusive ODE constraints into explanations: not part of this model.
- `Context::Impl::Assert` as a whole (it chains filtering, quantifier and conditional elimination, which are modelled one by one), `Tighten`, `Push`, `Pop` and options.
- Predicate normalisation, caches, statistics, logging, drivers, parsers and printers.
- The folding of comparisons whose difference is a constant, done by the formula constructors.
- Multi-threaded wrappers of contractors and per-thread contexts of evaluators.
