# Die-roll poker abstraction and limited-lookahead opponent, modelled in Dafny

This project models two model builders of the ExtensiveFormGames library. Both translate an
extensive-form game into a mixed-integer optimisation model for an external solver.

- **DieRollPokerAbstractor** builds the model that computes a signal abstraction for die-roll
  poker. Each player rolls a die with `numSides` sides twice. Every history (first roll, second
  roll) is put into exactly one of `numAbstractionInformationSets` buckets. A cost variable per
  history is forced up to the merge cost whenever two histories share a bucket, and the objective
  sums the cost variables. After a solve, `getAbstraction` reads the bucket indicators back and
  maps every member of a bucket to the bucket's first member.
- **LimitedLookAheadOpponentSolver** extends a sequence-form model of a two-player game. It models
  an opponent who looks only `lookAhead` plies ahead and judges positions by a heuristic
  node-evaluation table. It normalises that table in place, scans the payoff range, computes a
  per-sequence maximum evaluation, and adds binary deactivation variables for the opponent's
  (dual) sequences. It weakens each dual constraint by the payoff range times its deactivation
  variable, and constrains every opponent information set. It also provides helpers that build
  the value expressions of incentivised and dominated actions; their only caller, the
  primal-incentive step, is commented out.

The solver is not part of the model. Every call that creates a variable, adds a constraint or
changes a coefficient becomes a `Record` in an append-only log (`ConstraintLog`), over symbolic
variables: `B(f;s;b)`, `Cost(f;s)`, `D<q>`, `T<q>`, strategy variables, and anonymous variables
numbered in creation order. What a solver reports after a solve is a valuation `Var -> real`. A
valuation satisfies a log when every declared variable lies in its bounds, binary variables are 0
or 1, and every constraint holds. The meaning of the built models is stated against such
valuations: for example, "in every solution, each history is in exactly one bucket".

Modules:

- `ConstraintLog`: variables, terms, linear expressions, constraints, records, and their value
  under a valuation.
- `CostEstimator`: the merge cost of two histories (`computeCostOfAbstractingSecondRollPair`).
- `DieRollPoker`: the specification functions of the abstraction model and the class
  `DieRollPokerAbstractor` that builds it.
- `DieRollPokerLayout`: how often each variable and constraint occurs in the built model.
- `DieRollPokerSemantics`: what the built model means for a valuation that satisfies it.
- `DieRollPokerExtraction`: what `getAbstraction` returns for such a valuation.
- `LookAheadGame`: the game tree, its information sets and the sequence form, payoff folds,
  leaves, and the look-ahead frontier.
- `LookAheadEvaluation`: the normalisation of the table and the per-sequence maximum evaluation.
- `LookAheadDeactivation`: the deactivation variables, the dual-constraint relaxation, and the
  deactivation walk.
- `LookAheadIncentive`: the incentivised-action walk, its choice blocks, its frontier value, and
  the memo table of dominated actions.
- `LookAheadSolver`: the class `LimitedLookAheadOpponentSolver`, whose methods are proved
  against the functions above.

Details of the code that the model reproduces:

- The table is normalised by adding `|min(0, smallest entry)|`, not by subtracting the minimum. A
  table with no negative entry is left unchanged.
- The deactivation walk shares one visited set across the whole walk. It does not use a fresh set
  per path.
- The objective counts every cost variable `numAbstractionInformationSets + 1` times, because its
  bucket loop runs to `<=`. It is not the plain sum of the cost variables.
- The linking constraints are added for every ordered pair of histories, equal pairs included, not
  just for distinct pairs.
- The primal-incentive constraints are commented out in the code, so the builder adds none.
- Neither builder validates its configuration. A side count of zero gives an empty model. A bucket
  count of zero gives one sum-to-one constraint per history that reads 0 = 1, so the model has no
  solution. A look-ahead of any value (zero or negative included) is accepted.
- The incentive walk looks up choice variables by action name, so the nodes of one information set
  must offer actions of the same names, in any order. The model asks this of the incentive
  expression (`NamesAgree`); with a name missing, the code would read a missing map entry.

## Model

| member | source | states |
|---|---|---|
| CostEstimator.OffValue | ExtensiveFormGames/src/edu/cmu/cs/kroer/extensive_form_game/abstraction/DieRollPokerAbstractor.java:198-200 | the swing of one opponent roll pair is 0, 1 or 2; it is 0 exactly when the opponent's sum is neither one of the two sums nor strictly between them |
| CostEstimator.ComputeMergeCost | ExtensiveFormGames/src/edu/cmu/cs/kroer/extensive_form_game/abstraction/DieRollPokerAbstractor.java:185-205 | the computed cost is the merge cost: 0 for equal sums, otherwise the weighted swing summed over all opponent roll pairs |
| CostEstimator.AccumulateError | ExtensiveFormGames/src/edu/cmu/cs/kroer/extensive_form_game/abstraction/DieRollPokerAbstractor.java:194-202 | the double loop over opponent rolls accumulates exactly the row-by-row sum of weighted swings |
| CostEstimator.MergeCostScaled | ExtensiveFormGames/src/edu/cmu/cs/kroer/extensive_form_game/abstraction/DieRollPokerAbstractor.java:192-202 | for unequal sums the cost is the integer count of swings times `largestPayoff / numSides²` |
| CostEstimator.MergeCostZeroIff | ExtensiveFormGames/src/edu/cmu/cs/kroer/extensive_form_game/abstraction/DieRollPokerAbstractor.java:186-202 | for rolls on the die and a positive largest payoff, merging costs nothing if and only if the two sums are equal (merging is lossless exactly then) |
| CostEstimator.MergeCostSymmetric | ExtensiveFormGames/src/edu/cmu/cs/kroer/extensive_form_game/abstraction/DieRollPokerAbstractor.java:186-193 | swapping the two histories does not change the cost |
| CostEstimator.MergeCostBounds | ExtensiveFormGames/src/edu/cmu/cs/kroer/extensive_form_game/abstraction/DieRollPokerAbstractor.java:195-202 | the cost lies in `[0, 2 * largestPayoff]`, the bounds of the cost variables it lower-bounds |
| DieRollPoker.DieRollPokerAbstractor.constructor | ExtensiveFormGames/src/edu/cmu/cs/kroer/extensive_form_game/abstraction/DieRollPokerAbstractor.java:45-73 | the builder's log is the cost declarations, then the partition, then the linking constraints; its objective is every cost variable `buckets + 1` times |
| DieRollPoker.DieRollPokerAbstractor.InitializeDataStructures | ExtensiveFormGames/src/edu/cmu/cs/kroer/extensive_form_game/abstraction/DieRollPokerAbstractor.java:117-126 | appends one cost variable in `[0, 2 * largestPayoff]` per history, in row-major order |
| DieRollPoker.DieRollPokerAbstractor.CreateSecondRollAbstractionVars | ExtensiveFormGames/src/edu/cmu/cs/kroer/extensive_form_game/abstraction/DieRollPokerAbstractor.java:135-147 | appends, history by history, the bucket indicators and their sum-to-one constraint |
| DieRollPoker.DieRollPokerAbstractor.CreateHistoryAbstractionVars | ExtensiveFormGames/src/edu/cmu/cs/kroer/extensive_form_game/abstraction/DieRollPokerAbstractor.java:138-145 | appends one binary indicator per bucket for one history, then the constraint that they sum to 1 |
| DieRollPoker.DieRollPokerAbstractor.AddObjectiveCostSecondRoll | ExtensiveFormGames/src/edu/cmu/cs/kroer/extensive_form_game/abstraction/DieRollPokerAbstractor.java:168-183 | appends the two linking constraints for every pair of histories and every bucket, in the order of the five nested loops |
| DieRollPoker.DieRollPokerAbstractor.AddCostConstraintsForFirstRoll | ExtensiveFormGames/src/edu/cmu/cs/kroer/extensive_form_game/abstraction/DieRollPokerAbstractor.java:170-182 | the `firstRoll2` loop appends exactly its part of the linking constraints |
| DieRollPoker.DieRollPokerAbstractor.AddCostConstraintsForFirstRolls | ExtensiveFormGames/src/edu/cmu/cs/kroer/extensive_form_game/abstraction/DieRollPokerAbstractor.java:171-182 | the `secondRoll1` loop appends exactly its part of the linking constraints |
| DieRollPoker.DieRollPokerAbstractor.AddCostConstraintsForSecondRoll | ExtensiveFormGames/src/edu/cmu/cs/kroer/extensive_form_game/abstraction/DieRollPokerAbstractor.java:172-182 | the `secondRoll2` loop appends exactly its part of the linking constraints |
| DieRollPoker.DieRollPokerAbstractor.AddCostConstraintsForHistories | ExtensiveFormGames/src/edu/cmu/cs/kroer/extensive_form_game/abstraction/DieRollPokerAbstractor.java:173-181 | for one pair of histories, appends per bucket the two constraints `cost*B1 + cost*B2 - cost <= Cost` with the merge cost |
| DieRollPoker.DieRollPokerAbstractor.AddCostsToObjective | ExtensiveFormGames/src/edu/cmu/cs/kroer/extensive_form_game/abstraction/DieRollPokerAbstractor.java:207-213 | appends every cost variable `buckets + 1` times, in row-major order |
| DieRollPoker.DieRollPokerAbstractor.AddCostCopies | ExtensiveFormGames/src/edu/cmu/cs/kroer/extensive_form_game/abstraction/DieRollPokerAbstractor.java:210-212 | the innermost loop appends one history's cost variable `buckets + 1` times |
| DieRollPoker.DieRollPokerAbstractor.GetAbstraction | ExtensiveFormGames/src/edu/cmu/cs/kroer/extensive_form_game/abstraction/DieRollPokerAbstractor.java:82-115 | the recorded merges are those of the bucket lists read off the valuation: each member of a nonempty bucket is mapped to the bucket's first member |
| DieRollPoker.DieRollPokerAbstractor.CollectBucket | ExtensiveFormGames/src/edu/cmu/cs/kroer/extensive_form_game/abstraction/DieRollPokerAbstractor.java:93-103 | a bucket's list holds exactly the histories whose indicator exceeds `1 - epsilon`, in row-major order, as 0-based signal pairs |
| DieRollPoker.DieRollPokerAbstractor.MapToFirstMembers | ExtensiveFormGames/src/edu/cmu/cs/kroer/extensive_form_game/abstraction/DieRollPokerAbstractor.java:106-112 | the merges of all buckets, bucket by bucket; empty buckets record none |
| DieRollPoker.DieRollPokerAbstractor.MapBucketToFirstMember | ExtensiveFormGames/src/edu/cmu/cs/kroer/extensive_form_game/abstraction/DieRollPokerAbstractor.java:107-111 | one merge `(first member -> member)` per member of a nonempty bucket, the first member included |
| DieRollPokerLayout.CostVarDeclaredOnce | ExtensiveFormGames/src/edu/cmu/cs/kroer/extensive_form_game/abstraction/DieRollPokerAbstractor.java:121-124 | each history on the die has its cost variable declared exactly once in the model, and no other history has one |
| DieRollPokerLayout.IndicatorDeclaredOnce | ExtensiveFormGames/src/edu/cmu/cs/kroer/extensive_form_game/abstraction/DieRollPokerAbstractor.java:135-146 | the indicator `B(f;s;b)` is declared exactly once when `f`, `s` are rolls and `b` a bucket, and never otherwise |
| DieRollPokerLayout.PartitionConstraintOnce | ExtensiveFormGames/src/edu/cmu/cs/kroer/extensive_form_game/abstraction/DieRollPokerAbstractor.java:138-145 | each history on the die has exactly one sum-to-one constraint, and no other history has one |
| DieRollPokerSemantics.LinkForcesCostOnlyWhenShared | ExtensiveFormGames/src/edu/cmu/cs/kroer/extensive_form_game/abstraction/DieRollPokerAbstractor.java:176-181 | for binary indicators and a non-negative cost, a linking constraint holds if and only if sharing bucket `b` implies the cost variable reaches the merge cost (the linearisation is exact) |
| DieRollPokerSemantics.SharedBucketPaysMergeCost | ExtensiveFormGames/src/edu/cmu/cs/kroer/extensive_form_game/abstraction/DieRollPokerAbstractor.java:168-182 | in every solution, two histories in the same bucket both have cost variables at least their merge cost |
| DieRollPokerSemantics.ObjectiveIsScaledCostSum | ExtensiveFormGames/src/edu/cmu/cs/kroer/extensive_form_game/abstraction/DieRollPokerAbstractor.java:207-213 | the objective's value is the sum of all cost variables times `buckets + 1` |
| DieRollPokerSemantics.ObjectiveOrdersAsCostSum | ExtensiveFormGames/src/edu/cmu/cs/kroer/extensive_form_game/abstraction/DieRollPokerAbstractor.java:207-213 | two valuations compare under the objective exactly as under the plain sum of costs, so the repeated terms do not change which bucketing is optimal |
| DieRollPokerSemantics.ObjectiveNonNegative | ExtensiveFormGames/src/edu/cmu/cs/kroer/extensive_form_game/abstraction/DieRollPokerAbstractor.java:207-213 | in every solution the objective is at least 0 |
| DieRollPokerSemantics.LosslessAbstractionIsOptimal | ExtensiveFormGames/src/edu/cmu/cs/kroer/extensive_form_game/abstraction/DieRollPokerAbstractor.java:185-190 | with at least `2 * numSides - 1` buckets, putting each history in the bucket of its sum satisfies the model with objective 0, so the optimum is 0 |
| DieRollPokerExtraction.SolvedHistoryHasOneBucket | ExtensiveFormGames/src/edu/cmu/cs/kroer/extensive_form_game/abstraction/DieRollPokerAbstractor.java:135-146 | in every solution each history's indicators are 0 or 1 and exactly one of them is 1 |
| DieRollPokerExtraction.ThresholdReadsBinary | ExtensiveFormGames/src/edu/cmu/cs/kroer/extensive_form_game/abstraction/DieRollPokerAbstractor.java:96 | for a 0/1 value and `0 < epsilon <= 1`, the test `> 1 - epsilon` holds exactly when the value is 1 |
| DieRollPokerExtraction.SolvedHistoryListedOnce | ExtensiveFormGames/src/edu/cmu/cs/kroer/extensive_form_game/abstraction/DieRollPokerAbstractor.java:91-103 | in every solution each history appears in the list of exactly one bucket |
| DieRollPokerExtraction.BucketListRowMajor | ExtensiveFormGames/src/edu/cmu/cs/kroer/extensive_form_game/abstraction/DieRollPokerAbstractor.java:93-103 | each bucket list is strictly increasing in row-major order, so its first member is its first-discovered history |
| DieRollPokerExtraction.AbstractionMerges | ExtensiveFormGames/src/edu/cmu/cs/kroer/extensive_form_game/abstraction/DieRollPokerAbstractor.java:106-111 | a merge is recorded if and only if its member is selected for some bucket and its canonical history is that bucket's first member |
| DieRollPokerExtraction.CanonicalMapsToItself | ExtensiveFormGames/src/edu/cmu/cs/kroer/extensive_form_game/abstraction/DieRollPokerAbstractor.java:106-111 | the canonical history of any recorded merge is itself recorded as mapping to itself |
| DieRollPokerExtraction.SolvedAbstractionMapsEveryHistoryOnce | ExtensiveFormGames/src/edu/cmu/cs/kroer/extensive_form_game/abstraction/DieRollPokerAbstractor.java:82-115 | in every solution each history is the member of some recorded merge, and all merges of a history name the same canonical history |
| LookAheadSolver.LimitedLookAheadOpponentSolver.constructor | ExtensiveFormGames/src/extensive_form_game_solver/LimitedLookAheadOpponentSolver.java:38-50 | keeps the caller's table and shifts it in place; afterwards the payoff range is the extreme leaf payoffs, the per-sequence maxima are the frontier maxima, and the model is the set-up prefix followed by the deactivation walk |
| LookAheadSolver.LimitedLookAheadOpponentSolver.MakeNodeEvaluationTableNonNegative | ExtensiveFormGames/src/extensive_form_game_solver/LimitedLookAheadOpponentSolver.java:56-64 | the table becomes its non-negative shift: every entry raised by `|min(0, smallest entry)|` |
| LookAheadSolver.LimitedLookAheadOpponentSolver.SetUpModel | ExtensiveFormGames/src/extensive_form_game_solver/LimitedLookAheadOpponentSolver.java:66-82 | afterwards `maxPayoff`/`minPayoff` are the largest and smallest leaf payoffs; the per-sequence maxima and the appended records are those of the specification functions |
| LookAheadSolver.LimitedLookAheadOpponentSolver.InitializeDataStructures | ExtensiveFormGames/src/extensive_form_game_solver/LimitedLookAheadOpponentSolver.java:84-92 | the payoff range starts at `(-MAX, MAX)`, and a fresh per-sequence table of `numDualSequences` entries starts at `-MAX` |
| LookAheadSolver.LimitedLookAheadOpponentSolver.CreateBooleanDualVars | ExtensiveFormGames/src/extensive_form_game_solver/LimitedLookAheadOpponentSolver.java:133-146 | appends a binary `D<q>` for every dual sequence, then a binary `T<q>` for every dual sequence |
| LookAheadSolver.LimitedLookAheadOpponentSolver.ComputeMaxMinPayoff | ExtensiveFormGames/src/extensive_form_game_solver/LimitedLookAheadOpponentSolver.java:474-489 | widens the payoff range exactly by the leaf payoffs below the node: a max fold and a min fold over them |
| LookAheadSolver.LimitedLookAheadOpponentSolver.ComputeMaxEvaluation | ExtensiveFormGames/src/extensive_form_game_solver/LimitedLookAheadOpponentSolver.java:491-504 | from an all-zero table, applies the root seed and then one seed per action of each opponent node, in loop order |
| LookAheadSolver.LimitedLookAheadOpponentSolver.MaxEvaluationForInfoSet | ExtensiveFormGames/src/extensive_form_game_solver/LimitedLookAheadOpponentSolver.java:496-502 | the loop over the nodes of one information set applies exactly their seeds |
| LookAheadSolver.LimitedLookAheadOpponentSolver.MaxEvaluationForNode | ExtensiveFormGames/src/extensive_form_game_solver/LimitedLookAheadOpponentSolver.java:498-501 | the loop over the actions of one node raises each action's sequence entry by the frontier below its child |
| LookAheadSolver.LimitedLookAheadOpponentSolver.ComputeMaxEvaluationForAction | ExtensiveFormGames/src/extensive_form_game_solver/LimitedLookAheadOpponentSolver.java:506-516 | only the entry of `sequenceId` changes, and it becomes the max of its old value and the evaluations on the frontier (depth `lookAhead` or a leaf) below the node |
| LookAheadSolver.LimitedLookAheadOpponentSolver.AddDualConstraintRemoval | ExtensiveFormGames/src/extensive_form_game_solver/LimitedLookAheadOpponentSolver.java:184-195 | appends exactly the coefficient changes of `DualRemoval`: every dual row but the empty sequence's gets `maxPayoff - minPayoff` on its own `D<q>` |
| LookAheadSolver.LimitedLookAheadOpponentSolver.CreateDeactivationSequenceFormConstraints | ExtensiveFormGames/src/extensive_form_game_solver/LimitedLookAheadOpponentSolver.java:148-181 | the appended records, the visited set and the information sets opened are exactly those of the deactivation walk from the node |
| LookAheadSolver.LimitedLookAheadOpponentSolver.DeactivateInformationSet | ExtensiveFormGames/src/extensive_form_game_solver/LimitedLookAheadOpponentSolver.java:152-168 | opening an unvisited opponent information set marks it visited; per action it walks the child, then adds `D<q> >= parent`; finally it adds the sum constraint, all as the walk specifies |
| LookAheadSolver.LimitedLookAheadOpponentSolver.FillIncentivizedActionExpression | ExtensiveFormGames/src/extensive_form_game_solver/LimitedLookAheadOpponentSolver.java:358-399 | the records, fresh variables, expression terms and choice map are exactly those of the incentive walk from the node |
| LookAheadSolver.LimitedLookAheadOpponentSolver.OpenInformationSet | ExtensiveFormGames/src/extensive_form_game_solver/LimitedLookAheadOpponentSolver.java:381-394 | declares one fresh binary choice variable per action and a sum-to-one constraint, and maps the set to the name-to-variable map |
| LookAheadSolver.LimitedLookAheadOpponentSolver.GetIncentivizedActionExpression | ExtensiveFormGames/src/extensive_form_game_solver/LimitedLookAheadOpponentSolver.java:325-356 | the returned terms, the new records and the fresh-variable counter are those of the incentive expression of action `a` of information set `k` |
| LookAheadSolver.LimitedLookAheadOpponentSolver.GetDominatedActionExpression | ExtensiveFormGames/src/extensive_form_game_solver/LimitedLookAheadOpponentSolver.java:255-285 | returns the memoised expression when the action has one; otherwise it declares a fresh value variable that is at least 0 and memoises it |
| LookAheadSolver.IncentiveActionForNode | ExtensiveFormGames/src/extensive_form_game_solver/LimitedLookAheadOpponentSolver.java:340-343 | the chosen action is the last action with the incentivised name, or the first action when none has that name |
| LookAheadSolver.SetUpModelSolved | ExtensiveFormGames/src/extensive_form_game_solver/LimitedLookAheadOpponentSolver.java:66-82 | in every solution of the built model, `D0 = 0`, and the walk visits exactly the opponent information sets below the root, each once. At each, a deactivated parent deactivates every action, and an active parent keeps at least one action active |
| LookAheadEvaluation.NonNegativeShiftIsLeastUniformShift | ExtensiveFormGames/src/extensive_form_game_solver/LimitedLookAheadOpponentSolver.java:56-64 | the shift is a non-negative constant added to every entry, the result has no negative entry, and the shift is 0 or some entry becomes exactly 0 (it is the least such shift) |
| LookAheadEvaluation.NonNegativeShiftPreservesDifferences | ExtensiveFormGames/src/extensive_form_game_solver/LimitedLookAheadOpponentSolver.java:56-64 | the normalisation keeps every difference between two entries, so it does not change which node evaluates higher |
| LookAheadEvaluation.NonNegativeShiftKeepsNonNegativeTable | ExtensiveFormGames/src/extensive_form_game_solver/LimitedLookAheadOpponentSolver.java:56-64 | a table with no negative entry is left unchanged |
| LookAheadEvaluation.PayoffScanFindsExtremes | ExtensiveFormGames/src/extensive_form_game_solver/LimitedLookAheadOpponentSolver.java:474-489 | scanning from `-MAX`/`MAX` over payoffs within range gives values attained by some leaf that bound all leaves, with min <= max |
| LookAheadEvaluation.SeedsStartAtRootThenActions | ExtensiveFormGames/src/extensive_form_game_solver/LimitedLookAheadOpponentSolver.java:491-504 | the seeds start with the root for sequence 0 at depth 0; every later seed is an action's child at depth 1 for that action's dual sequence |
| LookAheadEvaluation.ApplySeedsIncreases | ExtensiveFormGames/src/extensive_form_game_solver/LimitedLookAheadOpponentSolver.java:506-516 | applying seeds never lowers an entry |
| LookAheadEvaluation.ApplySeedsCoversFrontiers | ExtensiveFormGames/src/extensive_form_game_solver/LimitedLookAheadOpponentSolver.java:506-516 | every frontier node below a seed has an evaluation at most the final entry of that seed's sequence (an upper bound) |
| LookAheadEvaluation.ApplySeedsAttained | ExtensiveFormGames/src/extensive_form_game_solver/LimitedLookAheadOpponentSolver.java:506-516 | each final entry is its starting value or the evaluation of a frontier node below one of its seeds (the bound is attained) |
| LookAheadDeactivation.BooleanDualVarsDeclaredOnce | ExtensiveFormGames/src/extensive_form_game_solver/LimitedLookAheadOpponentSolver.java:133-146 | `D<q>` is declared binary at position `q` and `T<q>` at position `n + q`, and nowhere else |
| LookAheadDeactivation.DeactivationVarsAreBinary | ExtensiveFormGames/src/extensive_form_game_solver/LimitedLookAheadOpponentSolver.java:133-146 | in every solution each `D<q>` is 0 or 1 |
| LookAheadDeactivation.DualRemovalSkipsEmptySequence | ExtensiveFormGames/src/extensive_form_game_solver/LimitedLookAheadOpponentSolver.java:184-195 | every coefficient change is on row `q` for `1 <= q < n`, on `D<q>`, with the payoff range; each such row gets one; none touches the empty sequence |
| LookAheadDeactivation.DeactWalkConsistent | ExtensiveFormGames/src/extensive_form_game_solver/LimitedLookAheadOpponentSolver.java:152-154 | the walk keeps the visited set equal to the set of information sets opened, only at opponent nodes, and never opens one twice |
| LookAheadDeactivation.DeactWalkVisits | ExtensiveFormGames/src/extensive_form_game_solver/LimitedLookAheadOpponentSolver.java:148-181 | the walk adds to the visited set exactly the opponent information sets in the subtree |
| LookAheadDeactivation.DeactWalkBlocks | ExtensiveFormGames/src/extensive_form_game_solver/LimitedLookAheadOpponentSolver.java:152-168 | every information set the walk opens has its `D<q> >= parent` constraints and its sum constraint in the resulting model |
| LookAheadDeactivation.SolvedBlockMeaning | ExtensiveFormGames/src/extensive_form_game_solver/LimitedLookAheadOpponentSolver.java:161-167 | under a satisfying valuation, a deactivated parent forces every action's `D` to 1, and an active parent leaves some action's `D` at 0 |
| LookAheadIncentive.FillWalkGrows | ExtensiveFormGames/src/extensive_form_game_solver/LimitedLookAheadOpponentSolver.java:358-399 | the walk only appends to the records and the terms, and every variable it declares is fresh |
| LookAheadIncentive.FillWalkOpens | ExtensiveFormGames/src/extensive_form_game_solver/LimitedLookAheadOpponentSolver.java:379-394 | the walk adds to the choice map exactly the opponent information sets inside the look-ahead window of the node |
| LookAheadIncentive.FillWalkChoices | ExtensiveFormGames/src/extensive_form_game_solver/LimitedLookAheadOpponentSolver.java:379-394 | every information set the walk opens maps its action names injectively into a block of binary variables constrained to sum to 1 |
| LookAheadIncentive.ChoiceBlockPicksOne | ExtensiveFormGames/src/extensive_form_game_solver/LimitedLookAheadOpponentSolver.java:381-393 | in every solution exactly one variable of a choice block is 1 and the rest are 0 |
| LookAheadIncentive.ChoiceMapPicksAtMostOne | ExtensiveFormGames/src/extensive_form_game_solver/LimitedLookAheadOpponentSolver.java:381-396 | in every solution, the choice variables of an opened information set are 0 or 1, and at most one action name is chosen |
| LookAheadIncentive.FillWalkTerms | ExtensiveFormGames/src/extensive_form_game_solver/LimitedLookAheadOpponentSolver.java:360-376 | the new terms correspond one-to-one with the frontier nodes below the node, each bounded by both of its `<=` constraints; the second is under a gating variable, which is declared binary and constrained to `1 - D<q>` of the action's sequence `q`, or is a variable of a sum-to-one choice block in the model |
| LookAheadIncentive.ActionValueGated | ExtensiveFormGames/src/extensive_form_game_solver/LimitedLookAheadOpponentSolver.java:366-372 | in every solution each node-value variable is at most its weight times a binary gating variable, either the action's gate `1 - D<q>` or a variable of a sum-to-one choice block; when that variable is 0 the node contributes at most 0 |
| LookAheadIncentive.ActionValueBounded | ExtensiveFormGames/src/extensive_form_game_solver/LimitedLookAheadOpponentSolver.java:360-375 | in every solution the expression's value is at most the nature-weighted evaluations of its frontier nodes times the rational player's strategy variables |
| LookAheadIncentive.IncentiveNodesBuilt | ExtensiveFormGames/src/extensive_form_game_solver/LimitedLookAheadOpponentSolver.java:337-353 | the loop over the nodes of the information set, with a gate `1 - D<q>` per node, builds terms covering the frontier below every node's matching action, each gated by that gate or a choice variable, and only fresh choice blocks |
| LookAheadIncentive.IncentiveExpressionShape | ExtensiveFormGames/src/extensive_form_game_solver/LimitedLookAheadOpponentSolver.java:325-356 | the incentive expression only appends, covers the frontiers below the matching actions, and opens each information set as a choice block |
| LookAheadIncentive.IncentiveExpressionSolved | ExtensiveFormGames/src/extensive_form_game_solver/LimitedLookAheadOpponentSolver.java:325-356 | in every solution the expression's value is bounded by its frontier value, and each opened information set chooses at most one action |
| LookAheadIncentive.IncentiveTermsGated | ExtensiveFormGames/src/extensive_form_game_solver/LimitedLookAheadOpponentSolver.java:344-349 | in every solution each frontier value of the expression is at most its weight times a binary variable that is the gate `1 - D<q>` of the incentivised action's sequence `q` or a choice variable; a deactivated sequence or an untaken choice makes the node contribute at most 0 |
| LookAheadIncentive.MatchingAction | ExtensiveFormGames/src/extensive_form_game_solver/LimitedLookAheadOpponentSolver.java:340-343 | the index is on the node; it names the action with the given name, or is 0 when no action has it; no later action has that name |
| LookAheadIncentive.DominatedLookup | ExtensiveFormGames/src/extensive_form_game_solver/LimitedLookAheadOpponentSolver.java:255-285 | afterwards the action is memoised, its expression is the memoised one, other entries are kept, and the model only grows with fresh variables |
| LookAheadIncentive.DominatedLookupMemoises | ExtensiveFormGames/src/extensive_form_game_solver/LimitedLookAheadOpponentSolver.java:256-257 | a second lookup of the same action returns the same expression and changes nothing |
| LookAheadIncentive.DominatedValueNonNegative | ExtensiveFormGames/src/extensive_form_game_solver/LimitedLookAheadOpponentSolver.java:263-265 | in every solution a newly created dominated-action expression has a value of at least 0 |

## Left out

- The solver itself: variable creation, constraints, `chgCoeff`, `model.update`, `addMinimize`, solving, and `getValue`. Each call becomes a record in a log, and solved values are a valuation passed in as a parameter.
- Java `double` arithmetic and rounding: all numbers are exact reals. `Double.MAX_VALUE` is its exact value, `(2 - 2^-52) * 2^1023`.
- Exceptions from the solver, the `try`/`catch` blocks that print them, and `printSequenceActivationValues`.
- Variable names. Anonymous variables are numbered in creation order instead.
- `addPrimalIncentiveConstraints`: its body is commented out in the code, so it adds nothing.
- `createInformationSetValueVars` and `createInformationSetValueConstraints`, with their recursive helper, which pushes and pops `dualParentSequences`. They build the information-set value part of the sequence-form model, which is not modelled. The model log starts from whatever records the caller passes.
- `computeAuxiliaryInformationForNodes`, `dualUpperBounds`, the nature probabilities and the sequence-form base class. They are inputs of the model (a `SequenceForm` value), not computed.
- `getIncentivizedActionExpression`: its local `maxHeuristicAtNode` is computed but never used, so it is omitted.
- GetDominatedActionExpression (LookAheadSolver.LimitedLookAheadOpponentSolver): the per-node loop that calls `fillDominatedActionRange` is left out, together with that walk. Its contract covers only the memo table, the fresh value variable and its `>= 0` constraint, not the ranges the walk adds to that constraint.
- DominatedLookup (LookAheadIncentive): as above, it states nothing about the `fillDominatedActionRange` terms.
- The memo table of dominated actions is keyed by the action's position among the first node's actions, not by the `Action` object.
- The visited set of the deactivation walk, and the map from information set to choice variables, are passed in and handed back as values. In the code they are shared mutable objects.
- Several nested loops are split into helper methods: `MaxEvaluationForInfoSet`, `MaxEvaluationForNode`, `DeactivateInformationSet`, `OpenInformationSet`, `IncentiveActionForNode`, and the `AddCostConstraintsFor*`, `CreateHistoryAbstractionVars`, `AddCostCopies`, `CollectBucket` and `MapToFirstMembers` methods.
- The 4-argument constructor of `LimitedLookAheadOpponentSolver`, which only supplies `epsilon = 0.001`.
- `numDualInformationSets` is taken to be the number of opponent information sets in the game.
- The code of `DieRollPokerAbstractor` that is never called: `createBucketLevelSwitchVars`, `createFirstRollAbstractionVars`, `createFirstRollImplicationConstraints` and `addBucketLevelSwitchConstraint`. Also left out: the `firstRollAbstractionVariables` and `bucketLevelSwitch` arrays, `sideProbabilities` and the second constructor that sets it, and the `informationSetMapping`/`actionMapping` getters, which return `null` fields.
- `SignalAbstraction` is modelled as the sequence of its `addAbstraction(canonical, member)` calls. Signal names are left out.
- The cost of merging when `numSides` is 0: the code's probability `1.0 / 0` is never used there, and the model uses 0 instead.
- A negative side count or bucket count: the code throws `NegativeArraySizeException` when it allocates its arrays (a bucket count below 0, a side count below -1, and, for `sideProbabilities`, any side count below 0). The model types both counts as natural numbers, so these inputs cannot be expressed.
- The numbering of game nodes: the model requires every child to have a larger id than its parent (`ChildrenAfter`), which makes the walks terminate. The code accepts any numbering of a finite tree. Any tree can be renumbered this way, so no behaviour is lost.
- The 32-bit width of `numSides * numSides` in the merge cost, which wraps around for `numSides >= 46341`. The model multiplies unbounded integers. Such a die would need arrays of about 2 * 10^9 cells, far beyond what the constructor can allocate.
