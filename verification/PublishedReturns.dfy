/** The rounding bounds, carried to the figures a return reports. */
module PublishedReturns {
  import opened Wrappers
  import opened Formula
  import opened Pack
  import opened Derivation
  import opened Engine
  import opened Rounding

  /** The box is derived by a sum-like formula, and neither it nor a box it uses is rounded to pounds. */
  ghost predicate SumBox(pack: RulePack, b: string) {
    && pack.boxes.Derived(b) && pack.boxes.defs[b].formula.Parsed? && SumLike(pack.boxes.defs[b].formula.node)
    && !pack.boxes.defs[b].wholePounds
    && forall id | id in Lookups(pack.boxes.defs[b].formula.node) && id in pack.boxes.defs :: !pack.boxes.defs[id].wholePounds
  }

  /** What the return reports of a sum box and of the boxes it uses. */
  lemma ReportedFigures(pack: RulePack, txns: seq<Txn>, values: Totals, result: ComputationResult, b: string)
    requires Loaded(pack) && Reports(pack, txns, values, result) && SumBox(pack, b)
    requires Solves(pack.boxes, PrimaryTotals(pack, txns), values)
    ensures var node := pack.boxes.defs[b].formula.node;
            && b in values && b in result.boxes && Lookups(node) <= values.Keys && Eval(node, values) == Ok(values[b])
            && result.boxes[b].value == Publish(values[b], pack.boxDp, false)
            && Eval(node, Figures(result)) == Eval(node, Published(values, pack.boxDp))
  {
    hide Eval, Lookups, Check, SumLike, Publish, Lineage, PrimaryTotals, ContributionsFor, Topological, AllNames, HasBoolean, DividesByZero;
    var node := pack.boxes.defs[b].formula.node;
    assert FormulaAccepted(pack.boxes, b);
    assert FormulaValue(pack.boxes, b, values) == Ok(values[b]);
    EvaluatesExactlyWhen(node, values);
    assert PublishesBox(pack, b, values[b], result.contributions, result.boxes[b]);
    forall id | id in Lookups(node)
      ensures id in Figures(result) && id in Published(values, pack.boxDp)
      ensures Figures(result)[id] == Published(values, pack.boxDp)[id]
    {
      assert PublishesBox(pack, id, values[id], result.contributions, result.boxes[id]);
    }
    EvalDependsOnLookups(node, Figures(result), Published(values, pack.boxDp));
  }

  /** Recomputing a sum box of a return from the k figures it publishes for the boxes it uses misses the
      figure it publishes for the box by at most (k + 1) / 2 units. */
  lemma ReportedFormulaBound(pack: RulePack, txns: seq<Txn>, values: Totals, result: ComputationResult, b: string, recomputed: real)
    requires Loaded(pack) && Reports(pack, txns, values, result) && SumBox(pack, b)
    requires Solves(pack.boxes, PrimaryTotals(pack, txns), values)
    requires Eval(pack.boxes.defs[b].formula.node, Figures(result)) == Ok(recomputed)
    ensures b in result.boxes
    ensures Distance(recomputed, result.boxes[b].value)
         <= Rounding.Times(References(pack.boxes.defs[b].formula.node) + 1, 0.5 * Unit(pack.boxDp))
  {
    hide Eval, Lookups, SumLike, Publish, Published, Distance, Loaded, Reports, Solves, Rounding.Times, References;
    ReportedFigures(pack, txns, values, result, b);
    PublishedFormulaBound(pack.boxes.defs[b].formula.node, values, pack.boxDp, values[b], recomputed);
  }

  /** Such a recomputation always succeeds, and is exact when the exact values of the boxes used already have
      the published number of places. */
  lemma ReportedFormulaExact(pack: RulePack, txns: seq<Txn>, values: Totals, result: ComputationResult, b: string)
    requires Loaded(pack) && Reports(pack, txns, values, result) && SumBox(pack, b)
    requires Solves(pack.boxes, PrimaryTotals(pack, txns), values)
    ensures b in result.boxes && Eval(pack.boxes.defs[b].formula.node, Figures(result)).Ok?
    ensures (forall id | id in Lookups(pack.boxes.defs[b].formula.node) && id in values :: Multiple(values[id], Unit(pack.boxDp)))
            ==> Eval(pack.boxes.defs[b].formula.node, Figures(result)) == Ok(result.boxes[b].value)
  {
    hide Eval, Lookups, SumLike, Publish, Multiple, Loaded, Reports, Solves;
    var node := pack.boxes.defs[b].formula.node;
    ReportedFigures(pack, txns, values, result, b);
    SumLikeEvaluates(node, Published(values, pack.boxDp));
    if forall id | id in Lookups(node) && id in values :: Multiple(values[id], Unit(pack.boxDp)) {
      PublishedFormulaExact(node, values, pack.boxDp, values[b]);
    }
  }
}
