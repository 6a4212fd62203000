# Verified model of TaxOS core

A Dafny model of the part of TaxOS that produces and guards a tax figure, with proofs of what each part
promises. The parts form one story: figures are ingested, computed, explained, chained into an audit log
and approved.

- **Explaining a score** (`RealSums`, `Coalitions`, `Shapley`). The attribution method enumerates all
  coalitions, scores them in one batch and accumulates factorial-weighted marginals. Proved: its loops
  compute the Shapley value, which is the average marginal over all n! joining orders, and so has all the
  axioms, for every number of features and every score function.
- **Computing a return** (`Formula`, `Graphs`, `Pack`, `Derivation`, `Rounding`, `Engine`,
  `PublishedReturns`, `UkPacks`, `Fingerprints`). A rule pack is a small language. Proved: a pack loads exactly when its formulas are accepted and its derivations
  acyclic; the depth-first sort terminates and finds a dependency order exactly then; one pass over the
  derived boxes computes the unique solution of all formulas; the result forgets the order of the rows;
  published figures stay within stated rounding bounds; for the two UK packs what each box comes to, and that the
  reverse charge cancels; equal fingerprints mean equal inputs and figures.
- **The audit log** (`CanonicalJson`, `AuditChain`, `AuditLog`, `AuditProgress`). Proved: the canonical text has a left
  inverse up to key order; the verifier accepts exactly the chains and names the first broken event; of
  all removals only a cut tail goes unnoticed; and under every interleaving of concurrent transactions, with aborts and sequence gaps, every tenant's
  committed log verifies and is exactly its committed drafts in commit order, and every transaction can be
  brought to its commit.
- **The approval gate and the agent run** (`Workflow`, `WorkflowRuns`, `Supervisor`). Proved over all runs
  of service calls: approvals are never the preparer's, always for the content of that moment, and current
  after every revalidation; the three histories of an item agree; a run follows its plan within budget and
  hands off an item its requester can never approve.
- **Ingestion and anomaly scans** (`Decimals`, `Ingestion`, `VatTolerance`, `Risk`, `RiskScans`). Proved: a
  row is quarantined exactly for the failures it deserves; the per-row VAT tolerance carries over to the box totals
  of the engine; rescanning a fixed population adds nothing and loses no disposition.

`Wrappers`, `Sets`, `Sequences` and `StringOrder` hold the option and result types, picking from a set in any
order, repetition and reordering, and the sort by a string key. `Coalitions` also shows that its joining orders are exactly the n! permutations,
each listed once (`OrdersArePermutations`, `OrdersDistinct`, `OrdersCount`).

Code that changes state is modelled as methods and classes whose contracts tie the new state to
specification functions; the properties over several calls are lemmas about those functions. Amounts and
scores are exact reals. The hash is a parameter; collision-freeness is a hypothesis, always only over the
texts at hand. Where a lemma speaks of a run, its steps are the service calls or transaction steps.

## Where the code and its documentation differ

The model follows the code. Each point below is a lemma in the table.

- `formula.py` says a bad formula is rejected at load, never at compute time. A bare `abs` and a boolean
  literal pass the check and fail when evaluated (`Formula.AcceptedButFailing`); a pack that holds one fails
  on all totals (`Derivation.PassSucceedsExactlyWhen`).
- A derived box named `abs` is not seen as a dependency, so a formula using it may run too early and keep
  a stale value (`Derivation.HiddenAbsBreaksThePass`, `Derivation.PassFindsSolutionIff`). Nor is a cycle through it the
  pack error `pack.py` speaks of: such a pack loads, and its pass can succeed where no assignment satisfies the
  formulas (`Derivation.CycleThroughAbsLoads`, `Derivation.PlacedOrderExistsIff`).
- `states.py` says an approved item is re-opened by invalidation only. `transition` takes APPROVED to DRAFT
  for anyone and leaves the approval live for good (`WorkflowRuns.ReopenedApprovalIsNeverVoided`,
  `WorkflowRuns.LiveApprovalsCounted`).
- `execute` on a run that was handed off sets it back to EXECUTING (`Supervisor.StuckExactlyWhenUsedUp`),
  and an escalated step is not repeated on resumption, so a run that was ever parked is handed off without
  that step done, and a failed step does not stop a run at all (`Supervisor.HandoffIsCleanExactlyWhen`,
  `Supervisor.RecordsTellTheAttempts`).
- The duplicate rule divides by the signed amount: a negative first amount matches every amount of its
  counterparty (`Risk.SimilarMeansTwoPercent`).
- A rescan is said not to double the queue. It does not when the rows come back in the same order; in
  another order it can add the other half of a pair, unless the first scan flagged every row that clashes
  with another (`RiskScans.RescanIsSafeIff`).
- `validate_row` is said to return failures a preparer can act on. An amount of NaN or Infinity parses, and
  under a known code the VAT check mostly raises on it, so the whole batch fails; a reverse-charge row with
  zero VAT gets through with a net amount of NaN (`Ingestion.ValidateRow`, `Ingestion.AmountsThatGetThrough`).
- Removing events from the end of the log leaves a log that verifies; only its head hash differs
  (`AuditChain.TruncationOnlyShowsInHead`).

## Model

| member | source | states |
|---|---|---|
| Coalitions.LevelsCoverSubsets | src/taxos_core/taxos_core/ml/explain.py:51-53 | going through the sizes and the combinations of each size visits every coalition exactly once, so any sum taken that way is the sum over all subsets |
| Coalitions.CombinationsAreSubsets | src/taxos_core/taxos_core/ml/explain.py:52-53 | every combination of size k is a k-element coalition without repeated members |
| Coalitions.EverySubsetIsACombination | src/taxos_core/taxos_core/ml/explain.py:51-54 | conversely every coalition is one of the combinations enumerated for its size |
| Shapley.MaskedVector | src/taxos_core/taxos_core/ml/explain.py:55-58 | the in-place loop over a coalition, in whatever order the set yields it, produces the baseline with exactly the coalition's features replaced |
| Shapley.ScoreCoalitions | src/taxos_core/taxos_core/ml/explain.py:48-60 | the single batch tabulates, for every subset of the features, the score of its own masked vector |
| Shapley.AddLevel | src/taxos_core/taxos_core/ml/explain.py:66-69 | the inner loop over one size adds the weighted marginals of exactly the coalitions of that size |
| Shapley.WeightedMarginals | src/taxos_core/taxos_core/ml/explain.py:63-69 | the accumulation loop for one feature equals the factorial-weighted sum over all coalitions without it |
| Coalitions.SubsetsMatchOrders | src/taxos_core/taxos_core/ml/explain.py:62-69 | the sum over coalitions weighted by size! (n - size - 1)! equals the sum, over all n! joining orders, of what the feature adds when it joins |
| Shapley.ValueIsOrderAverage | src/taxos_core/taxos_core/ml/explain.py:62-69 | each feature's value is the average of its marginal over all n! orders, for every n and score |
| Shapley.Efficiency | src/taxos_core/taxos_core/ml/explain.py:41-43 | the values of all features sum to the full coalition's score minus the empty one's |
| Shapley.NullPlayer | src/taxos_core/taxos_core/ml/explain.py:62-69 | a feature that never changes the score gets exactly zero |
| Shapley.Symmetry | src/taxos_core/taxos_core/ml/explain.py:62-69 | features interchangeable in every coalition get equal values |
| Shapley.Linearity | src/taxos_core/taxos_core/ml/explain.py:62-69 | attributing a linear combination of scores combines the attributions |
| Shapley.WeightsSumToOne | src/taxos_core/taxos_core/ml/explain.py:66-66 | the factorial weights used for one feature sum to one over all coalitions of the others |
| Shapley.Bounds | src/taxos_core/taxos_core/ml/explain.py:66-69 | each value lies between the feature's smallest and largest marginal |
| Shapley.UnchangedFeatureGetsZero | src/taxos_core/taxos_core/ml/explain.py:55-69 | a feature whose row value equals its baseline gets exactly zero, whatever the score function |
| Shapley.InterchangeableFeatures | src/taxos_core/taxos_core/ml/explain.py:55-69 | two features with equal values and baselines, which the score treats alike, are credited alike |
| Shapley.SortIsStablePermutation | src/taxos_core/taxos_core/ml/explain.py:74-74 | the final sort is a permutation, descends in magnitude, and keeps feature order among equal magnitudes |
| Shapley.ShapleyAttributions | src/taxos_core/taxos_core/ml/explain.py:31-75 | the whole method: it lists every feature once, under its own name and value, with its average marginal over all n! orders, larger magnitudes first and ties in feature order, and the contributions sum to score(row) minus score(baseline) |
| Formula.RefsAreLookups | src/taxos_core/taxos_core/compliance/formula.py:41-68 | for an accepted formula the reported dependencies are exactly the names evaluation looks up, abs excepted |
| Formula.EvalDependsOnLookups | src/taxos_core/taxos_core/compliance/formula.py:86-101 | evaluation depends on nothing but the names it looks up |
| Formula.OnlyDivisionFails | src/taxos_core/taxos_core/compliance/formula.py:55-101 | an accepted formula without boolean literals, whose names all have values, can only fail by dividing by zero |
| Formula.EvaluatesExactlyWhen | src/taxos_core/taxos_core/compliance/formula.py:55-101 | an accepted formula evaluates if and only if it has no boolean literal, its names, a bare abs included, all have values, and no divisor is zero |
| Formula.EvaluatesUnlessDividing | src/taxos_core/taxos_core/compliance/formula.py:55-101 | equivalently, it evaluates if and only if it has no boolean literal, its names have values, and evaluation does not end in a division by zero |
| Formula.AcceptedButFailing | src/taxos_core/taxos_core/compliance/formula.py:63-66 | a bare abs and a boolean literal pass the load-time check and fail at computation time: the class comment's promise (lines 30-31) is false for them |
| Formula.SubstituteThenEval | src/taxos_core/taxos_core/compliance/formula.py:86-101 | expanding definitions inside a formula and evaluating equals evaluating over the definitions' values |
| Formula.SumLaws | src/taxos_core/taxos_core/compliance/formula.py:21-26 | adding and subtracting undo each other in this order of operands, addition is commutative with zero, and unary minus gives the additive inverse |
| Formula.ProductLaws | src/taxos_core/taxos_core/compliance/formula.py:21-26 | multiplication has the literal one as unit and distributes over addition, dividing a product by its second factor gives the first, and a zero divisor is an error |
| Formula.MagnitudeLaw | src/taxos_core/taxos_core/compliance/formula.py:93-94 | abs is never negative and is its argument or the negation of it |
| Formula.LiteralLaws | src/taxos_core/taxos_core/compliance/formula.py:99-100 | literals stand for their numbers: adding them gives the literal of the sum, and an integer written with a point is the same |
| Formula.AcceptsWhatEvaluates | src/taxos_core/taxos_core/compliance/formula.py:55-68 | the load-time check refuses nothing that evaluates, but for literals that are not numbers |
| Formula.AcceptsOnlyGrammar | src/taxos_core/taxos_core/compliance/formula.py:55-68 | and it accepts no such literal and no expression outside the grammar |
| Formula.LeftmostMissingIsReported | src/taxos_core/taxos_core/compliance/formula.py:86-98 | where nothing else can fail, evaluation fails on exactly the leftmost name without a value |
| Pack.TopologicalIsAcyclic | src/taxos_core/taxos_core/compliance/pack.py:171-187 | an order that lists every derived box once, after all it depends on, exists only for acyclic packs |
| Pack.DerivationSorter.Visit | src/taxos_core/taxos_core/compliance/pack.py:171-182 | the depth-first visit terminates on every graph; it either places the box and all it depends on, or names a box that lies on a cycle |
| Pack.ValidateDerivations | src/taxos_core/taxos_core/compliance/pack.py:146-187 | succeeds if and only if all formulas are accepted and the derivations have no cycle, and then returns a dependency order; otherwise the error names a box at fault in the way it says, a cyclic one being on a cycle |
| Pack.CheckMapping | src/taxos_core/taxos_core/compliance/pack.py:118-122 | a mapping is refused exactly when it names an unknown box, and the error names one |
| Pack.ParsePack | src/taxos_core/taxos_core/compliance/pack.py:106-143 | a pack loads if and only if its mappings are known, its formulas accepted and its derivations acyclic; a loaded pack gives the engine all it assumes, and an error is explained by the document |
| Derivation.SinglePassIsMeaning | src/taxos_core/taxos_core/compliance/engine.py:179-182 | the single pass returns v if and only if v extends the primary totals and satisfies every derived formula at once; so the solution is unique, and failure means there is none |
| Derivation.OrderIndependent | src/taxos_core/taxos_core/compliance/pack.py:177-187 | every dependency order, hence every iteration order of a formula's references, gives the same values |
| Derivation.DerivedTotalsAreIgnored | src/taxos_core/taxos_core/compliance/engine.py:163-182 | what transactions accumulated in a derived box never affects any value |
| Derivation.ExpansionsEvaluate | src/taxos_core/taxos_core/compliance/engine.py:179-182 | the pass returns v if and only if v extends the primary totals and every formula, recursively expanded down to primary boxes, evaluates over them to v |
| Derivation.PassFailsWithAnExpansion | src/taxos_core/taxos_core/compliance/engine.py:179-182 | the pass succeeds if and only if every such expansion evaluates |
| Derivation.ExpansionsArePrimary | src/taxos_core/taxos_core/compliance/engine.py:179-182 | those expansions mention no derived box |
| Derivation.LoadedPackOnlyFailsByDivision | src/taxos_core/taxos_core/compliance/engine.py:179-182 | for a loaded pack without the two formulas accepted by mistake, the pass fails only by division by zero |
| Derivation.PassSucceedsExactlyWhen | src/taxos_core/taxos_core/compliance/formula.py:29-31 | a loaded pack computes if and only if it holds neither of those two formulas and nothing divides by zero; a pack that holds one fails on all totals |
| Derivation.HiddenAbsBreaksThePass | src/taxos_core/taxos_core/compliance/formula.py:44-46 | a concrete pack with a derived box named abs that loads, yet whose pass misses the solution of its formulas |
| Derivation.PassFindsSolutionIff | src/taxos_core/taxos_core/compliance/formula.py:44-46 | given a solution of the formulas, the pass returns it if and only if each formula placed before a derived box abs it uses gives its value also from the total abs begins with; this covers failing passes |
| Derivation.PassIsRightIff | src/taxos_core/taxos_core/compliance/formula.py:44-46 | and what a successful pass returns is a solution if and only if none of those formulas tells the stale abs from the final one |
| Derivation.PlacedOrderExistsIff | src/taxos_core/taxos_core/compliance/pack.py:149-151 | some dependency order puts every formula after all it looks up if and only if the lookups, a bare abs included, have no cycle |
| Derivation.CycleThroughAbsLoads | src/taxos_core/taxos_core/compliance/pack.py:149-151 | a concrete pack whose two formulas refer to each other through a bare abs: it loads and its pass succeeds, although no assignment satisfies the formulas |
| Rounding.QuantizeBound | src/taxos_core/taxos_core/compliance/engine.py:123-124 | quantizing moves a figure by at most half a unit, lands on the grid, and leaves grid values alone |
| Rounding.QuantizeIsNearest | src/taxos_core/taxos_core/compliance/engine.py:123-124 | quantizing gives the one nearest multiple of the unit, and of two equally near the one farther from zero |
| Rounding.UnitIsDecimal | src/taxos_core/taxos_core/compliance/engine.py:124-124 | the unit of no places is one, and every place more makes it ten times smaller |
| Rounding.PublishRounds | src/taxos_core/taxos_core/compliance/engine.py:186-189 | a published box is the nearest multiple of the unit to its total, and a whole-pound box the nearest pound to that figure |
| Rounding.TwoRoundingsDiffer | src/taxos_core/taxos_core/compliance/engine.py:186-189 | so not always the nearest pound to its total: 49.6 pence is published as one pound |
| Rounding.PublishBound | src/taxos_core/taxos_core/compliance/engine.py:186-189 | a published box is within half a unit of its total, a whole-pound box within half a pound and half a unit |
| Rounding.SumLikeIsLipschitz | src/taxos_core/taxos_core/compliance/formula.py:86-101 | moving every box a sum-like formula uses by at most g moves its value by at most g per reference |
| Rounding.SumLikeEvaluates | src/taxos_core/taxos_core/compliance/formula.py:86-101 | a sum-like formula over boxes that have values always evaluates, so the two bounds below speak of every such formula |
| Rounding.PublishedFormulaBound | src/taxos_core/taxos_core/compliance/engine.py:179-196 | for boxes not rounded to pounds, recomputing a sum-like box from the k published figures it uses misses its published figure by at most (k+1)/2 units |
| Rounding.PublishedFormulaExact | src/taxos_core/taxos_core/compliance/engine.py:179-196 | it misses by nothing when the totals are already on the grid |
| PublishedReturns.ReportedFormulaBound | src/taxos_core/taxos_core/compliance/engine.py:175-196 | the same for what a return reports of a sum-like box, when neither it nor the boxes it uses are rounded to pounds: recomputing it from the k figures the return publishes misses the figure it publishes for the box by at most (k+1)/2 units |
| PublishedReturns.ReportedFormulaExact | src/taxos_core/taxos_core/compliance/engine.py:175-196 | such a recomputation always succeeds, and gives the published figure when the exact values of the boxes used are already on the grid |
| Engine.AddRow | src/taxos_core/taxos_core/compliance/engine.py:147-173 | one row's loop keeps every total equal to the sum of its box's contributions and appends exactly the row's contributions: one for each pair of the sales mapping if it is a sale, of the purchase mapping if it is a purchase |
| Engine.RowGoesWhereItsCodeSays | src/taxos_core/taxos_core/compliance/engine.py:147-147 | a sale contributes exactly the pairs of kind and box its code maps for sales, a purchase those for purchases, once each |
| Engine.RowAmounts | src/taxos_core/taxos_core/compliance/engine.py:148-173 | every contribution names its row, code and citation, and amounts to the invoice VAT under the VAT kinds, the rate of the net amount to the nearest unit where the charge is reversed, and the net amount otherwise, never negated |
| Engine.ReverseChargeIsNeutral | src/taxos_core/taxos_core/compliance/engine.py:158-161 | under the reverse charge a row's input tax equals its self-accounted output tax |
| Engine.LineageInOrder | src/taxos_core/taxos_core/compliance/engine.py:141-147 | for rows with distinct ids the lineage stands in code-point order of the row ids, and within a row of the kinds |
| Engine.NoRowIsIgnored | src/taxos_core/taxos_core/compliance/engine.py:141-145 | every row either has its code reported as unknown, or is known to the pack and has all its contributions in the lineage; nothing else is reported |
| Engine.Accumulate | src/taxos_core/taxos_core/compliance/engine.py:137-173 | the accumulation loop yields the lineage in row-id order, the totals it sums to, and exactly the unknown codes |
| Engine.SortedSet | src/taxos_core/taxos_core/compliance/engine.py:204-204 | the reported codes are exactly the set's members, each once, in code-point order |
| Engine.RunFormulas | src/taxos_core/taxos_core/compliance/engine.py:179-182 | the loop over the derivation order computes the single pass or its first failure |
| Engine.PublishBoxes | src/taxos_core/taxos_core/compliance/engine.py:184-196 | every box of the pack is published with its total rounded by its own rule and the number of its contributions |
| Engine.ReportedBox | src/taxos_core/taxos_core/compliance/engine.py:185-196 | a reported box stands under its id with its title and kind, counts exactly the lineage entries that name it, and shows its value doubly rounded if it is a whole-pound box |
| Engine.ComputeReturn | src/taxos_core/taxos_core/compliance/engine.py:127-205 | the whole computation: the published boxes are the rounded values of the single pass, with the lineage and the unmapped codes; unless a formula runs before a derived box abs it uses, these are the unique solution of the formulas over the primary totals, and the computation fails exactly when there is none |
| Engine.OnlyKnownRowsCount | src/taxos_core/taxos_core/compliance/engine.py:141-145 | rows with unknown codes leave no trace but in the list of those codes: lineage and totals are those of the other rows |
| Engine.TotalsPermute | src/taxos_core/taxos_core/compliance/engine.py:141-173 | primary totals do not depend on the order of the rows |
| Engine.LineagePermutes | src/taxos_core/taxos_core/compliance/engine.py:141-173 | with distinct row ids the whole lineage does not either |
| Engine.TotalsAdd | src/taxos_core/taxos_core/compliance/engine.py:137-173 | primary totals are additive over concatenated lists of rows |
| Engine.ContributionsForSum | src/taxos_core/taxos_core/compliance/engine.py:109-110 | the contributions listed for a box sum to the box's share of the lineage |
| Engine.PrimaryBoxIsItsLineage | src/taxos_core/taxos_core/compliance/engine.py:162-173 | a primary box's exact value is the sum of the contributions listed for it |
| UkPacks.VatReturn | packs/uk-vat/1.0.0/pack.yaml:26-83 | for the VAT pack and any transactions: boxes 1, 4, 6 and 7 are the sums of what the rows add by code and direction, and box 5 is the difference of boxes 1 and 4 without its sign |
| UkPacks.ReverseChargeCancels | packs/uk-vat/1.0.0/pack.yaml:52-66 | one more reverse-charge purchase raises boxes 1 and 4 alike, by 20% of its net amount to the penny, and leaves the net VAT as it was |
| UkPacks.CorporationTax | packs/uk-corporation-tax/1.0.0/pack.yaml:24-83 | for the corporation tax pack and any adjustments: the tax is a quarter of profit before tax plus the amounts added back less the reliefs |
| Fingerprints.Reproducible | src/taxos_core/taxos_core/compliance/engine.py:12-18 | two computations over the same rows, fetched in any order, give the same result: every box, the lineage and the unmapped codes |
| Fingerprints.InputsTextDetermines | src/taxos_core/taxos_core/compliance/engine.py:113-120 | the hashed text of the inputs is the same if and only if the pack and the multiset of row texts are |
| Fingerprints.SameInputsHash | src/taxos_core/taxos_core/compliance/engine.py:113-120 | with a hash that does not collide on the two texts, the same for the inputs hashes |
| Fingerprints.RowTextDetermines | src/taxos_core/taxos_core/compliance/engine.py:116-118 | the bar-separated text of a transaction determines it, when no field but the last holds a bar and amounts are told apart |
| Fingerprints.RowTextFields | src/taxos_core/taxos_core/compliance/engine.py:116-118 | that text holds row id, direction, code, net and VAT in this order |
| Fingerprints.SameTextsSameRows | src/taxos_core/taxos_core/compliance/engine.py:116-118 | the multisets of row texts are equal if and only if the multisets of transactions are |
| Fingerprints.SameInputsHashSameRows | src/taxos_core/taxos_core/compliance/engine.py:113-120 | so equal inputs hashes mean the same pack and the same transactions, in whatever order they were fetched |
| Fingerprints.ResultTextDetermines | src/taxos_core/taxos_core/compliance/engine.py:91-104 | the hashed text of a result is the same if and only if pack, engine version and the figure in every box are |
| Fingerprints.SameResultHash | src/taxos_core/taxos_core/compliance/engine.py:91-104 | so equal result hashes mean the same pack, engine version and published value in every box, for values told apart and texts that do not collide |
| CanonicalJson.ValueRoundTrip | src/taxos_core/taxos_core/audit/hashing.py:14-18 | parsing the printed text of any tree returns that tree and leaves the rest of the input |
| CanonicalJson.ParseCanonical | src/taxos_core/taxos_core/audit/hashing.py:14-18 | parsing the canonical text recovers the tree with its keys sorted, so the encoding loses nothing but key order, and in every object of the text the keys stand in code-point order |
| StringOrder.LeIsCodePointOrder | src/taxos_core/taxos_core/audit/hashing.py:16-18 | the order used for keys, row ids and codes is code-point order: a prefix comes first, otherwise the string with the smaller character at the first difference |
| CanonicalJson.EscapesOnlyWhatItMust | src/taxos_core/taxos_core/audit/hashing.py:16-18 | of the spellings that read back, the text has each character as it is unless it is a quote, a backslash or a control character, and the short escape where there is one |
| CanonicalJson.IntegerSpelling | src/taxos_core/taxos_core/audit/hashing.py:16-18 | integers have no leading zeros, and exactly the negative ones a sign |
| CanonicalJson.CanonicalIsNormal | src/taxos_core/taxos_core/audit/hashing.py:14-18 | two trees print alike if and only if their key-sorted forms are equal |
| CanonicalJson.NormalIffSame | src/taxos_core/taxos_core/audit/hashing.py:14-18 | key-sorted forms are equal if and only if the trees differ only in key order |
| CanonicalJson.PrintAlike | src/taxos_core/taxos_core/audit/hashing.py:14-18 | two payloads print alike if and only if they differ only in key order |
| AuditChain.PayloadTextDetermines | src/taxos_core/taxos_core/audit/hashing.py:26-47 | the text hashed for an event determines its eight hashed fields and nothing else |
| AuditChain.VerifyChain | src/taxos_core/taxos_core/audit/verify.py:25-67 | verifies exactly the logs that are chains from the genesis hash; otherwise reports the first broken event with the right reason |
| AuditChain.SameHashSamePrefix | src/taxos_core/taxos_core/audit/hashing.py:21-23 | for a collision-free hash equal event hashes imply equally many events before them, with equal content and hashes |
| AuditChain.SameHeadSameLog | src/taxos_core/taxos_core/audit/verify.py:32-67 | two verified logs with the same head hash agree on every hashed field of every event |
| AuditChain.AlterationIsLocalised | src/taxos_core/taxos_core/audit/verify.py:42-60 | altering any hashed field of one event is reported at that event |
| AuditChain.RemovalIsReportedAtSuccessor | src/taxos_core/taxos_core/audit/verify.py:33-41 | removing an event other than the last is reported at the event that followed it |
| AuditChain.TruncationOnlyShowsInHead | src/taxos_core/taxos_core/audit/verify.py:63-67 | dropping events from the end still verifies, with a different head hash |
| AuditChain.GapIsReported | src/taxos_core/taxos_core/audit/verify.py:33-41 | whatever events are removed, one by one or in blocks, the first one that remains after a gap is reported |
| AuditChain.OnlyTruncationVerifies | src/taxos_core/taxos_core/audit/verify.py:32-67 | what is left of a verified log after any removals verifies if and only if only its end was cut off |
| AuditChain.CommitExtendsChain | src/taxos_core/taxos_core/shared/persistence/uow.py:113-140 | rows stamped from the tip extend a chain to a chain, whatever sequence numbers they get |
| AuditChain.AuditedUnitOfWork.constructor | src/taxos_core/taxos_core/shared/persistence/uow.py:62-67 | a unit of work starts with no drafts and no events |
| AuditChain.AuditedUnitOfWork.Record | src/taxos_core/taxos_core/shared/persistence/uow.py:69-78 | appends one draft and nothing else |
| AuditChain.AuditedUnitOfWork.Publish | src/taxos_core/taxos_core/shared/persistence/uow.py:80-82 | buffers one domain event and nothing else |
| AuditChain.AuditedUnitOfWork.Commit | src/taxos_core/taxos_core/shared/persistence/uow.py:107-152 | refuses exactly the empty unit of work; otherwise yields one row per draft, each chained to the one before from the tip, and the outbox events |
| AuditLog.StepKeepsInv | src/taxos_core/taxos_core/shared/persistence/uow.py:84-152 | every step of every concurrent transaction keeps every tenant's log a chain and the rows in progress a continuation of it |
| AuditLog.TipIsLastHash | src/taxos_core/taxos_core/shared/persistence/uow.py:98-105 | the tip the query reads is the hash the next event must continue from |
| AuditLog.RunKeepsInv | src/taxos_core/taxos_core/shared/persistence/uow.py:84-152 | the same in every reachable state |
| AuditLog.EveryLogVerifies | src/taxos_core/taxos_core/shared/persistence/uow.py:84-152 | under any interleaving, with aborts and sequence gaps, every tenant's committed events by sequence number form a verified chain and are exactly the drafts of its committed units, in commit order |
| AuditLog.LockHolderSeesTip | src/taxos_core/taxos_core/shared/persistence/uow.py:84-105 | while a transaction writes, the tip it read is still its tenant's committed tip, and no other transaction of the tenant is past the lock |
| AuditLog.LogsOnlyGrow | src/taxos_core/taxos_core/shared/persistence/uow.py:107-152 | along any run a tenant's log only grows at the end |
| AuditProgress.HolderCanFinish | src/taxos_core/taxos_core/shared/persistence/uow.py:84-152 | from every such state the holder of a tenant's lock can go on to its commit without any other transaction moving |
| AuditProgress.EveryTransactionCanCommit | src/taxos_core/taxos_core/shared/persistence/uow.py:84-152 | so in every reachable state every transaction with something to record can be brought to its commit, after at most one other, and its drafts then end its tenant's log |
| Workflow.LiveApproval | src/taxos_core/taxos_core/workflow/service.py:342-349 | the approval returned is not voided and the latest granted of those, and none is returned only if all are voided |
| Workflow.WorkflowService.CreateWorkItem | src/taxos_core/taxos_core/workflow/service.py:72-110 | inserts exactly the draft item prepared by the given person or the actor |
| Workflow.WorkflowService.TransitionTo | src/taxos_core/taxos_core/workflow/service.py:112-148 | the whole new state, or the refusal of an edge that is not legal, nothing else changing |
| Workflow.WorkflowService.Approve | src/taxos_core/taxos_core/workflow/service.py:152-219 | the whole new state of an approval, or the first guard that refuses it, nothing else changing |
| Workflow.WorkflowService.AttachComputation | src/taxos_core/taxos_core/workflow/service.py:221-245 | replaces the item's computation in any state and records it, or refuses a missing one |
| Workflow.WorkflowService.Revalidate | src/taxos_core/taxos_core/workflow/service.py:247-292 | voids the live approval and returns the item to DRAFT exactly when the content moved, and changes nothing otherwise |
| Workflow.WorkflowService.CanApprove | src/taxos_core/taxos_core/workflow/service.py:323-332 | the refusal shown is the first failing guard for this actor |
| Workflow.ApproveIffAllowed | src/taxos_core/taxos_core/workflow/service.py:152-173 | an approval goes through if and only if can_approve allows it and the supplied hash is the current one; otherwise it fails as can_approve says, or on stale content |
| Workflow.TransitionsByTarget | src/taxos_core/taxos_core/workflow/states.py:23-37 | read by its targets: submitted from DRAFT or after requested changes, changes requested in review only, back to DRAFT from review or APPROVED, cancelled at any time before approval, never APPROVED, and nothing leaves CANCELLED |
| Workflow.RevalidationDecides | src/taxos_core/taxos_core/workflow/service.py:247-292 | revalidating an approved item changes nothing if and only if its last approval is for the hash of its present content; otherwise it becomes a draft without a frozen hash and exactly that approval is voided |
| Workflow.AttachThenRevalidate | src/taxos_core/taxos_core/workflow/service.py:221-292 | attaching a computation changes neither state nor approvals, and the approval survives the next revalidation if and only if it was for the hash of that computation's payload |
| WorkflowRuns.ReviewedAsSubmitted | src/taxos_core/taxos_core/workflow/service.py:121-125 | in every reachable state an item in review carries the hash its content had when it was last submitted, whatever was attached since |
| WorkflowRuns.ApprovesWhatWasSubmitted | src/taxos_core/taxos_core/workflow/service.py:152-173 | so approving what an item shows goes through if and only if someone else than its preparer asks and the content is still what it was at the submission |
| Workflow.TransitionKeepsInv | src/taxos_core/taxos_core/workflow/service.py:112-148 | a plain transition keeps the agreement of the three histories and of the live approvals |
| Workflow.ApproveKeepsInv | src/taxos_core/taxos_core/workflow/service.py:175-219 | so does an approval |
| Workflow.AttachKeepsInv | src/taxos_core/taxos_core/workflow/service.py:231-245 | so does attaching a computation |
| Workflow.RevalidateKeepsInv | src/taxos_core/taxos_core/workflow/service.py:254-292 | so does a revalidation |
| Workflow.LiveIsLast | src/taxos_core/taxos_core/workflow/service.py:342-349 | in an approved item the live approval is the most recently granted one |
| WorkflowRuns.RunKeepsInv | src/taxos_core/taxos_core/workflow/service.py:72-292 | every reachable state keeps the invariant of every item |
| WorkflowRuns.ApprovedMeansLiveApproval | src/taxos_core/taxos_core/workflow/service.py:152-219 | in every reachable state an approved item's last approval is the live one, and no approver prepared the item |
| WorkflowRuns.HistoriesAgree | src/taxos_core/taxos_core/workflow/service.py:112-219 | the transitions form a path of legal moves from DRAFT to the state, the k-th entry into APPROVED is the k-th approver's, and the audit events trace the same path |
| WorkflowRuns.LiveApprovalsCounted | src/taxos_core/taxos_core/workflow/states.py:31-35 | the number of live approvals is the number of plain exits from APPROVED plus one while approved, which says exactly when at most one is live |
| WorkflowRuns.RunEvolves | migrations/versions/0005_workflow.py:129-156 | along any run preparers never change, histories only grow, approvals keep their facts and voided ones stay voided |
| WorkflowRuns.EveryApprovalWasGranted | src/taxos_core/taxos_core/workflow/service.py:158-183 | every approval stems from a step that granted it, by someone other than the preparer, for the item's content hash at that moment |
| WorkflowRuns.RevalidatedIsCurrent | src/taxos_core/taxos_core/workflow/service.py:247-292 | after revalidation an item is not approved or its live approval's hash is current, whatever was attached before |
| WorkflowRuns.RevalidateIdempotent | src/taxos_core/taxos_core/workflow/service.py:247-292 | revalidating twice is revalidating once |
| WorkflowRuns.RecheckChangesIff | src/taxos_core/taxos_core/workflow/service.py:247-292 | within a run a revalidation changes an item if and only if it is approved and its last approval is not for its present content |
| WorkflowRuns.CallFreezes | src/taxos_core/taxos_core/workflow/service.py:121-132 | the frozen content hash changes only on submission, to the hash of the content at that moment, or is dropped with a voided approval |
| WorkflowRuns.CancelledForGood | src/taxos_core/taxos_core/workflow/states.py:36-36 | a cancelled item is cancelled for good, whatever calls follow |
| WorkflowRuns.ChangeIsAttributed | src/taxos_core/taxos_core/workflow/service.py:126-292 | every change to an item adds one audit event in the name of the user who made it with the states before and after, and a change of state one transition in the same name |
| WorkflowRuns.CreationIsAttributed | src/taxos_core/taxos_core/workflow/service.py:82-110 | a created item is its creator's draft, prepared by the person named or else by the creator, with nothing approved or frozen |
| WorkflowRuns.EveryEventHasItsCall | src/taxos_core/taxos_core/workflow/service.py:72-292 | every audit event of an item in a reachable state was made by an earlier call for that item, in the name of the user who made the call |
| WorkflowRuns.RevalidateSucceeds | src/taxos_core/taxos_core/workflow/service.py:351-357 | revalidating a stored item never fails on a missing computation |
| WorkflowRuns.EqualHashesEqualContent | src/taxos_core/taxos_core/workflow/service.py:46-61 | equal content hashes mean the same figures and, field by field, the same provenance, or the same bare item |
| WorkflowRuns.ApprovalAttestsCurrentContent | src/taxos_core/taxos_core/workflow/service.py:152-292 | an item still approved after a revalidation was approved earlier in the run, by someone else, for exactly its current content hash |
| WorkflowRuns.ReopenedApprovalIsNeverVoided | src/taxos_core/taxos_core/workflow/states.py:31-35 | a plain transition takes an approved item back to DRAFT, although the comment beside the edge says a human cannot, and no later call of any kind ever voids the approval it leaves |
| WorkflowRuns.TwoLiveApprovals | src/taxos_core/taxos_core/workflow/states.py:31-35 | a concrete item with two live approvals |
| Supervisor.StartedRun | src/taxos_core/taxos_core/agents/supervisor.py:88-134 | a run starts for VAT and CT only, in PLANNING, with a plan that ends in its one reporting step and two spare steps of budget |
| Supervisor.StartedPlan | src/taxos_core/taxos_core/agents/supervisor.py:29-59 | the agents of the two plans in order: a VAT run computes VAT and reviews the transactions, a corporation tax run computes corporation tax, and both end with a human; with their budgets |
| Supervisor.RunExecutor.Handoff | src/taxos_core/taxos_core/agents/supervisor.py:246-278 | creates one item in review, prepared by the requester, with its content hash frozen, and changes no other item |
| Supervisor.RunExecutor.ExecuteRun | src/taxos_core/taxos_core/agents/supervisor.py:136-210 | the loop over the remaining plan: the new run state, and a work item created exactly when it ends in HANDOFF |
| Supervisor.DriveKeepsInv | src/taxos_core/taxos_core/agents/supervisor.py:147-199 | from EXECUTING a run ends in HANDOFF, WAITING_INPUT or FAILED, only by a handoff, an escalated step or a refused grant, never by running out of budget |
| Supervisor.ExecuteKeepsInv | src/taxos_core/taxos_core/agents/supervisor.py:136-210 | one execution of a resumable run keeps the numbering, the plan order and the budget, and a run that stopped says why: the refused grant, or the reason of the escalated step |
| Supervisor.ResumptionsKeepInv | src/taxos_core/taxos_core/agents/supervisor.py:136-304 | the same over a run and any number of resumptions, with a work item exactly in HANDOFF |
| Supervisor.StuckExactlyWhenUsedUp | src/taxos_core/taxos_core/agents/supervisor.py:144-147 | executing leaves a run in EXECUTING if and only if its plan was used up, as after a handoff; nothing else changes then |
| Supervisor.EscalatedStepIsNotRepeated | src/taxos_core/taxos_core/agents/supervisor.py:181-199 | resuming never repeats an escalated step: its record stands whatever is attempted later |
| Supervisor.HandsOffExactlyWhen | src/taxos_core/taxos_core/agents/supervisor.py:147-199 | executing hands off if and only if every remaining specialist returns without escalating; a failed step does not stop it |
| Supervisor.HandoffIsCleanExactlyWhen | src/taxos_core/taxos_core/agents/supervisor.py:178-199 | a run is handed off with no escalated record if and only if it had none before, and with no failed record if and only if it had none and no remaining specialist returns a failure |
| Supervisor.RecordsTellTheAttempts | src/taxos_core/taxos_core/agents/supervisor.py:136-210 | over a run and any resumptions, no record is escalated if and only if no attempt ever parked the run, and none is failed if and only if no attempt ran a step that returned a failure |
| Supervisor.HandoffAfterEscalatedComputation | src/taxos_core/taxos_core/agents/supervisor.py:181-199 | a concrete run handed off although its computation step only ever escalated |
| Supervisor.ExecutingAfterHandoffSticks | src/taxos_core/taxos_core/agents/supervisor.py:144-147 | whatever a run has been through, executing it once more leaves it in EXECUTING if and only if it was handed off, and then nothing else changes |
| Supervisor.RequesterNeverApproves | src/taxos_core/taxos_core/workflow/service.py:158-166 | no approval of an item created in a requester's name is ever the requester's |
| Supervisor.HandoverAddsItem | src/taxos_core/taxos_core/agents/supervisor.py:252-264 | within a run of the workflow the two calls of a handoff add exactly the item handed over, in review |
| Supervisor.HandedOffItemNeedsAnother | src/taxos_core/taxos_core/agents/supervisor.py:249-264 | when executing a run hands it off, the item it names is in review in the requester's name, and whatever workflow calls follow, no approval of it is the requester's |
| Ingestion.MissingFields | src/taxos_core/taxos_core/ingestion/rules.py:73-87 | one failure per required field that is missing, and no other |
| Ingestion.CheckVat | src/taxos_core/taxos_core/ingestion/rules.py:117-143 | an unknown code, an inconsistent VAT amount, or nothing; the decimal arithmetic raises exactly on the infinite and not-a-number amounts it cannot compare |
| Ingestion.ValidateRow | src/taxos_core/taxos_core/ingestion/rules.py:54-164 | raises exactly when it reaches the VAT check with such amounts; otherwise reports exactly the failures the row deserves, each once, and yields the parsed row if and only if there are none |
| Ingestion.AmountsThatGetThrough | src/taxos_core/taxos_core/ingestion/rules.py:126-143 | an accepted row has a finite VAT amount and a finite net amount, except that a reverse-charge row with zero VAT is accepted with a net amount that is not a number |
| Ingestion.AcceptedVatTolerance | src/taxos_core/taxos_core/ingestion/rules.py:123-134 | an accepted row that is not reverse-charge carries VAT within 2.5 pence of rate times net |
| Ingestion.AcceptedBand | src/taxos_core/taxos_core/ingestion/rules.py:17-142 | exactly the VAT that passes: within two pence of what is due to the nearest penny, 20% or 5% of net or nothing by code, and none at all under the reverse charge |
| Ingestion.AcceptedExactlyWhen | src/taxos_core/taxos_core/ingestion/rules.py:67-164 | exactly the rows that pass: every column filled, a date in the period with both ends included, readable amounts, a known code with consistent VAT, a currency of three letters |
| Ingestion.ValidateRows | src/taxos_core/taxos_core/ingestion/service.py:169-232 | raises if and only if some row does; otherwise rows are split into accepted and quarantined, each failed rule is counted exactly with its first five row numbers, and the control total is the gross of the accepted rows |
| Ingestion.RowsArePartitioned | src/taxos_core/taxos_core/ingestion/service.py:174-189 | each row number from 1 to n is in exactly one of the two lists, and no other number in either |
| Ingestion.ListsKeepTheOrder | src/taxos_core/taxos_core/ingestion/service.py:174-189 | both lists are in strictly ascending row order, so no row occurs twice |
| Ingestion.ControlIsNetAndVat | src/taxos_core/taxos_core/ingestion/service.py:198-198 | of rows with finite amounts the control total is their net total plus their VAT total |
| VatTolerance.RowShare | src/taxos_core/taxos_core/compliance/engine.py:147-173 | a row adds exactly its own VAT to a box it reaches under a VAT kind, and nothing to any other |
| VatTolerance.AcceptedVatReachesItsBox | src/taxos_core/taxos_core/ingestion/rules.py:123-134 | from ingestion to the return: the VAT of accepted rows of one code that reaches a box is within 2.5 pence a row of rate times their summed net |
| Risk.DetectDuplicates | src/taxos_core/taxos_core/risk/detectors.py:53-91 | the grouping and the pairwise loops compute the duplicate findings group by group |
| Risk.GroupByParty | src/taxos_core/taxos_core/risk/detectors.py:54-56 | the grouping loop yields the counterparties in order of first appearance and exactly the documents of each, in order |
| Risk.DetectRoundAmounts | src/taxos_core/taxos_core/risk/detectors.py:101-118 | the loop computes the round-amount findings in order |
| Risk.DuplicatesArePairs | src/taxos_core/taxos_core/risk/detectors.py:58-64 | a duplicate finding is exactly a same-counterparty pair in row order that passes the amount test |
| Risk.RoundsAre | src/taxos_core/taxos_core/risk/detectors.py:102-103 | a round-amount finding is exactly a row of at least 10000 and a multiple of 1000 |
| Risk.RoundAmountMeans | src/taxos_core/taxos_core/risk/detectors.py:103-103 | a round amount is a whole number of thousands, at least ten of them |
| Risk.DuplicateNamesBoth | src/taxos_core/taxos_core/risk/detectors.py:64-90 | a duplicate finding flags the later of two documents and names the earlier one as its match, high if and only if the amounts are equal |
| Risk.RoundNamesItsRow | src/taxos_core/taxos_core/risk/detectors.py:104-116 | a round-amount finding flags its own document, at low severity |
| Risk.FindingsOnce | src/taxos_core/taxos_core/risk/detectors.py:121-124 | with distinct row ids no finding is reported twice |
| Risk.SimilarMeansTwoPercent | src/taxos_core/taxos_core/risk/detectors.py:61-64 | exactly when the test means two per cent of the first amount: for positive ones, for negative ones in that band, and for zero against non-zero; a negative first amount matches everything |
| Risk.PositiveDuplicates | src/taxos_core/taxos_core/risk/detectors.py:58-64 | among positive amounts the duplicate findings are exactly the same-counterparty pairs whose second amount is within 2% of the first |
| RiskScans.RiskService.Scan | src/taxos_core/taxos_core/risk/service.py:49-153 | appends exactly the findings whose row and detector were not recorded before the scan, and logs the counts |
| RiskScans.RiskService.Disposition | src/taxos_core/taxos_core/risk/service.py:268-313 | overwrites one anomaly's outcome, or refuses a reason outside the taxonomy or an unknown anomaly |
| RiskScans.OnlyFirstScanAdds | src/taxos_core/taxos_core/risk/service.py:74-121 | in any mix of scans and dispositions on a fixed population, fetched in the same order each time, the anomalies of a scope are the findings of one scan if it was ever scanned, else none |
| RiskScans.DispositionsLast | src/taxos_core/taxos_core/risk/service.py:290-295 | no disposition is lost: later scans and decisions on other anomalies leave it, and no finding ever changes |
| RiskScans.DecisionIsRecorded | src/taxos_core/taxos_core/risk/service.py:278-295 | no reason fits both outcomes; a valid decision leaves the anomaly confirmed or dismissed as decided, with its reason, note, actor and time, and any other changes nothing |
| RiskScans.ScanOpens | src/taxos_core/taxos_core/risk/service.py:74-121 | a scan leaves recorded anomalies as they are and adds findings of its scope as open anomalies decided by nobody |
| RiskScans.RescanAddsNothingIff | src/taxos_core/taxos_core/risk/service.py:50-58 | a rescan that fetches the same rows in another order adds nothing if and only if every row it flags as a duplicate was flagged in the first order |
| RiskScans.RescanIsSafeIff | src/taxos_core/taxos_core/risk/service.py:50-58 | after a scan, no order of the same rows makes a rescan add anything if and only if the scan flagged every row that clashes with another one |
| RiskScans.RescanIsAlwaysSafeIff | src/taxos_core/taxos_core/risk/service.py:50-58 | whatever order the first scan fetched, rescans add nothing if and only if no two rows of the population clash |
| RiskScans.ReorderedRescanAdds | src/taxos_core/taxos_core/risk/service.py:50-58 | so it can add: two equal payments scanned the other way round |

## Left out

- Shapley.ShapleyAttributions: scores are reals, so floating-point rounding of the weights and sums is not modelled; the batch scorer is a function of each masked vector.
- Engine.ComputeReturn: amounts are exact, so the decimal context's 28 digits and database column rounding are not modelled; code mappings are lists of pairs, and only VatTolerance assumes that a kind occurs once in each, as in a dictionary.
- Derivation.SinglePassIsMeaning: requires that no formula uses a derived box called abs placed after it; without that Derivation.PassFindsSolutionIff and Derivation.PassIsRightIff give the exact conditions.
- Formula.EvaluatesExactlyWhen: numeric literals are finite decimals, and the recursion limit is not modelled.
- Pack.ParsePack: starts from a loaded document; YAML parsing, missing keys (`_require`) and `ast.parse` are not modelled, and a formula is absent, unparseable or a tree.
- CanonicalJson.PrintAlike: trees hold null, booleans, integers, strings, arrays and objects with string keys; floats, other values printed through `default=str`, and UTF-8 encoding of the text are not modelled.
- Fingerprints.SameInputsHashSameRows: an amount is written as a function of its value, as a column of fixed scale gives it; the same value at two scales would be written in two ways.
- Fingerprints.SameResultHash: a published value is written as a function of its box and value, as the box's number of places fixes it.
- AuditChain.SameHeadSameLog: assumes 64-character hashes other than the genesis hash and no collision among the texts in the two logs; SHA-256 itself is a parameter.
- AuditChain.AuditedUnitOfWork.Commit: outbox rows carry no event ids, and delivery of the outbox is not part of this model.
- AuditLog.EveryLogVerifies: assumes READ COMMITTED reads, a lock held until commit or abort, and that no hash is the empty string; retries and connection loss other than abort are not modelled.
- WorkflowRuns.RunKeepsInv: each service call is one atomic step and grant times increase strictly; interleavings inside a call are not modelled. Titles, comments and notifications are left out.
- Workflow.WorkflowService.CreateWorkItem: the id is supplied by the caller and not in use, where the source draws a fresh one.
- Supervisor.RunExecutor.ExecuteRun: what a specialist returns for a step, and the computation the item refers to, are parameters; a specialist reports under the agent name of its plan entry, and raises nothing but a refused grant. Costs, models and durations are left out.
- Ingestion.ValidateRow: parsing of dates, decimals and case is a parameter; finite arithmetic is exact, so an amount of more digits than the decimal context holds, on which the rounding to pence would raise, is not modelled. The wording of messages and duplicate batches are left out.
- VatTolerance.AcceptedVatReachesItsBox: uses the rates of the ingestion rules; that a pack declares the same rates is not checked anywhere in the source.
- UkPacks.VatReturn: speaks of exact values before rounding, for packs whose mappings and formulas are those of the two shipped files; loading these files is not modelled.
- AuditProgress.EveryTransactionCanCommit: says that a commit can always be reached, not that the database's scheduler reaches it.
- Risk.DetectDuplicates: the wording of explanations is left out; the matched document, row and amounts are kept.
- RiskScans.RiskService.Scan: the statistical scoring that follows a scan, and the audit records of scans and dispositions, are left out.
- Row-level security, sessions, routers, the front end, reporting, knowledge search, calendars, the machine-learning models and their features: translation, library code or display, with no property across functions to add.
