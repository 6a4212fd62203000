/** What the single pass over the derived boxes means: it computes the one assignment that extends the
    primary totals and satisfies every formula at once, in whatever dependency order it runs. */
module Derivation {
  import opened Wrappers
  import opened Formula
  import opened Pack
  import opened Sequences
  import opened Graphs

  type Totals = map<string, real>

  /** Running the formulas of the first k boxes of the order, one after the other. */
  function DeriveTo(boxes: BoxTable, order: seq<string>, totals: Totals, k: nat): Result<Totals, EvalError>
    requires k <= |order|
  {
    if k == 0 then Ok(totals)
    else
      match DeriveTo(boxes, order, totals, k - 1)
      case Err(e) => Err(e)
      case Ok(current) =>
        match FormulaValue(boxes, order[k - 1], current)
        case Err(e) => Err(e)
        case Ok(x) => Ok(current[order[k - 1] := x])
  }

  function Derive(boxes: BoxTable, order: seq<string>, totals: Totals): Result<Totals, EvalError> {
    DeriveTo(boxes, order, totals, |order|)
  }

  function FormulaValue(boxes: BoxTable, b: string, values: Totals): Result<real, EvalError> {
    if b in boxes.defs && boxes.defs[b].formula.Parsed? then Eval(boxes.defs[b].formula.node, values)
    else Err(Unsupported)
  }

  /** The values agree with the totals of primary boxes and satisfy every derived box's formula. */
  ghost predicate Solves(boxes: BoxTable, totals: Totals, values: Totals) {
    && values.Keys == boxes.defs.Keys
    && (forall b | b in boxes.defs && !boxes.Derived(b) :: b in totals && values[b] == totals[b])
    && (forall b | boxes.Derived(b) :: FormulaValue(boxes, b, values) == Ok(values[b]))
  }

  /** Every formula runs after every derived box it looks up. A dependency order ensures this for all
      names but abs, which the reported dependencies leave out; so this only speaks of a derived box
      called abs that a formula uses as a bare name. */
  ghost predicate AbsPlaced(boxes: BoxTable, order: seq<string>) {
    forall i | 0 <= i < |order| :: PlacedAt(boxes, order, i)
  }

  /** The i-th formula does not look up a derived box called abs that is still to come. */
  ghost predicate PlacedAt(boxes: BoxTable, order: seq<string>, i: nat)
    requires i < |order|
  {
    boxes.Derived(ABS) && UsesAbs(boxes, order[i]) ==> ABS in Before(order, i)
  }

  ghost predicate UsesAbs(boxes: BoxTable, b: string) {
    b in boxes.defs && boxes.defs[b].formula.Parsed? && ABS in Lookups(boxes.defs[b].formula.node)
  }

  /** What loading a pack and accumulating the totals guarantee. */
  ghost predicate Computable(boxes: BoxTable, order: seq<string>, totals: Totals) {
    FormulasAccepted(boxes) && Topological(boxes, order) && totals.Keys == boxes.defs.Keys
  }

  ghost predicate Ready(boxes: BoxTable, order: seq<string>, totals: Totals) {
    Computable(boxes, order, totals) && AbsPlaced(boxes, order)
  }

  /** a and b give the same values to the primary boxes and to the given derived ones. */
  ghost predicate AgreeOn(boxes: BoxTable, settled: set<string>, a: Totals, b: Totals) {
    && a.Keys == b.Keys
    && forall x | x in a && (x in settled || !boxes.Derived(x)) :: a[x] == b[x]
  }

  /** The k-th formula only looks up primary boxes and derived boxes placed before it. */
  lemma FormulaSeesSettled(boxes: BoxTable, order: seq<string>, k: nat, a: Totals, b: Totals)
    requires FormulasAccepted(boxes) && Topological(boxes, order)
    requires k < |order| && PlacedAt(boxes, order, k) && AgreeOn(boxes, Before(order, k), a, b)
    ensures FormulaValue(boxes, order[k], a) == FormulaValue(boxes, order[k], b)
  {
    hide Eval, Lookups, Check, AllNames;
    var box := order[k];
    assert boxes.Derived(box) && FormulaAccepted(boxes, box);
    var node := boxes.defs[box].formula.node;
    RefsAreLookups(node);
    forall id | id in Lookups(node)
      ensures (id in a <==> id in b) && (id in a ==> a[id] == b[id])
    {
      if boxes.Derived(id) {
        assert id != ABS ==> id in Refs(node) && id in boxes.Deps(box);
        assert id == ABS ==> UsesAbs(boxes, box);
        assert id in Before(order, k);
      }
    }
    EvalDependsOnLookups(node, a, b);
  }

  lemma BeforeStep(order: seq<string>, k: nat)
    requires 0 < k <= |order|
    ensures Before(order, k) == Before(order, k - 1) + {order[k - 1]}
  {
    assert order[..k] == order[..k - 1] + [order[k - 1]];
  }

  lemma AgreeStep(boxes: BoxTable, settled: set<string>, a: Totals, b: Totals, box: string)
    requires AgreeOn(boxes, settled, a, b) && box in b
    ensures AgreeOn(boxes, settled + {box}, a[box := b[box]], b)
  {
  }

  /** If some assignment solves the formulas, the pass succeeds and stays in step with it. */
  lemma {:induction false} PassFollowsSolution(boxes: BoxTable, order: seq<string>, totals: Totals, values: Totals, k: nat)
    requires Ready(boxes, order, totals) && Solves(boxes, totals, values) && k <= |order|
    ensures var r := DeriveTo(boxes, order, totals, k);
            r.Ok? && AgreeOn(boxes, Before(order, k), r.value, values)
  {
    hide FormulaValue, FormulasAccepted, PlacedAt, AgreeOn, Before, DepsFirst;
    if k == 0 {
      NothingBefore(order);
      AgreeAtFirst(boxes, totals, values);
    } else {
      PassFollowsSolution(boxes, order, totals, values, k - 1);
      var current := DeriveTo(boxes, order, totals, k - 1).value;
      FormulaSeesSettled(boxes, order, k - 1, current, values);
      BeforeStep(order, k);
      assert order[k - 1] in order && boxes.Derived(order[k - 1]);
      AgreeStep(boxes, Before(order, k - 1), current, values, order[k - 1]);
    }
  }

  lemma NothingBefore(order: seq<string>)
    ensures Before(order, 0) == {}
  {
  }

  lemma AgreeAtFirst(boxes: BoxTable, totals: Totals, values: Totals)
    requires totals.Keys == boxes.defs.Keys && Solves(boxes, totals, values)
    ensures AgreeOn(boxes, {}, totals, values)
  {
  }

  /** The pass only writes the boxes it has reached. */
  lemma {:induction false} PassKeepsOthers(boxes: BoxTable, order: seq<string>, totals: Totals, k: nat)
    requires Computable(boxes, order, totals) && k <= |order|
    requires DeriveTo(boxes, order, totals, k).Ok?
    ensures var r := DeriveTo(boxes, order, totals, k).value;
            r.Keys == totals.Keys && forall b | b in totals && b !in Before(order, k) :: r[b] == totals[b]
  {
    hide FormulaValue, FormulasAccepted, PlacedAt;
    if k > 0 {
      PassKeepsOthers(boxes, order, totals, k - 1);
      BeforeStep(order, k);
      assert order[k - 1] in order && boxes.Derived(order[k - 1]);
    }
  }

  lemma NotBefore(order: seq<string>, i: nat, j: nat)
    requires Distinct(order) && i <= j < |order|
    ensures order[j] !in Before(order, i)
  {
  }

  /** Once the pass has gone through the first k boxes, each of them satisfies its formula, if the box
      was placed after what it looks up. */
  lemma {:induction false} PassSatisfies(boxes: BoxTable, order: seq<string>, totals: Totals, k: nat, i: nat)
    requires Computable(boxes, order, totals) && i < k <= |order| && PlacedAt(boxes, order, i)
    requires DeriveTo(boxes, order, totals, k).Ok?
    ensures var r := DeriveTo(boxes, order, totals, k).value;
            order[i] in r && FormulaValue(boxes, order[i], r) == Ok(r[order[i]])
  {
    hide FormulaValue, FormulasAccepted, PlacedAt, Before, DepsFirst, Distinct;
    var before := DeriveTo(boxes, order, totals, k - 1).value;
    var after := DeriveTo(boxes, order, totals, k).value;
    PassKeepsOthers(boxes, order, totals, k);
    PassKeepsOthers(boxes, order, totals, k - 1);
    assert order[i] in order && boxes.Derived(order[i]);
    NotBefore(order, i, k - 1);
    NotBefore(order, k - 1, k - 1);
    assert AgreeOn(boxes, Before(order, i), before, after) by {
      assert boxes.Derived(order[k - 1]);
    }
    FormulaSeesSettled(boxes, order, i, before, after);
    if i < k - 1 {
      PassSatisfies(boxes, order, totals, k - 1, i);
    }
  }

  /** Single pass equals meaning: for any dependency order, the pass returns v exactly when v is a
      solution of all the formulas over the primary totals. So a solution is unique when there is one,
      and the pass fails exactly when there is none. */
  lemma SinglePassIsMeaning(boxes: BoxTable, order: seq<string>, totals: Totals, v: Totals)
    requires Ready(boxes, order, totals)
    ensures Derive(boxes, order, totals) == Ok(v) <==> Solves(boxes, totals, v)
  {
    hide FormulaValue, FormulasAccepted, PlacedAt, DeriveTo;
    var r := Derive(boxes, order, totals);
    if Solves(boxes, totals, v) {
      PassFollowsSolution(boxes, order, totals, v, |order|);
      AllDerivedBefore(boxes, order);
      assert r.value == v;
    }
    if r.Ok? {
      PassKeepsOthers(boxes, order, totals, |order|);
      AllDerivedBefore(boxes, order);
      forall b | boxes.Derived(b)
        ensures FormulaValue(boxes, b, r.value) == Ok(r.value[b])
      {
        assert b in order;
        var i :| 0 <= i < |order| && order[i] == b;
        PassSatisfies(boxes, order, totals, |order|, i);
      }
    }
  }

  lemma AllDerivedBefore(boxes: BoxTable, order: seq<string>)
    requires Topological(boxes, order)
    ensures Before(order, |order|) == boxes.DerivedBoxes()
  {
    assert order[..|order|] == order;
  }

  /** Every dependency order gives the same values. */
  lemma OrderIndependent(boxes: BoxTable, order1: seq<string>, order2: seq<string>, totals: Totals)
    requires Ready(boxes, order1, totals) && Ready(boxes, order2, totals)
    ensures Derive(boxes, order1, totals).Ok? <==> Derive(boxes, order2, totals).Ok?
    ensures Derive(boxes, order1, totals).Ok? ==> Derive(boxes, order1, totals) == Derive(boxes, order2, totals)
  {
    hide Derive, Solves, Ready;
    var r1, r2 := Derive(boxes, order1, totals), Derive(boxes, order2, totals);
    if r1.Ok? {
      SinglePassIsMeaning(boxes, order1, totals, r1.value);
      SinglePassIsMeaning(boxes, order2, totals, r1.value);
    }
    if r2.Ok? {
      SinglePassIsMeaning(boxes, order1, totals, r2.value);
      SinglePassIsMeaning(boxes, order2, totals, r2.value);
    }
  }

  /** Whatever transactions accumulated in a derived box is overwritten: it never affects any value. */
  lemma DerivedTotalsAreIgnored(boxes: BoxTable, order: seq<string>, totals1: Totals, totals2: Totals)
    requires Ready(boxes, order, totals1) && Ready(boxes, order, totals2)
    requires forall b | b in boxes.defs && !boxes.Derived(b) :: totals1[b] == totals2[b]
    ensures Derive(boxes, order, totals1).Ok? <==> Derive(boxes, order, totals2).Ok?
    ensures Derive(boxes, order, totals1).Ok? ==> Derive(boxes, order, totals1) == Derive(boxes, order, totals2)
  {
    hide Derive, FormulaValue;
    var r1, r2 := Derive(boxes, order, totals1), Derive(boxes, order, totals2);
    if r1.Ok? {
      SinglePassIsMeaning(boxes, order, totals1, r1.value);
      SinglePassIsMeaning(boxes, order, totals2, r1.value);
    }
    if r2.Ok? {
      SinglePassIsMeaning(boxes, order, totals1, r2.value);
      SinglePassIsMeaning(boxes, order, totals2, r2.value);
    }
  }

  /** No accepted formula holds a boolean literal, or uses abs as a name when no box is called abs. */
  ghost predicate OnlyDecimals(boxes: BoxTable) {
    forall b | boxes.Derived(b) && boxes.defs[b].formula.Parsed? ::
      var node := boxes.defs[b].formula.node;
      !HasBoolean(node) && (ABS in Lookups(node) ==> ABS in boxes.defs)
  }

  /** A pack that loads fails at computation time by dividing by zero only, provided none of its
      formulas is one of the two the check lets through by mistake. */
  lemma {:induction false} LoadedPackOnlyFailsByDivision(boxes: BoxTable, order: seq<string>, totals: Totals, k: nat)
    requires FormulasAccepted(boxes) && OnlyDecimals(boxes) && totals.Keys == boxes.defs.Keys
    requires k <= |order| && forall b | b in order :: boxes.Derived(b)
    ensures var r := DeriveTo(boxes, order, totals, k);
            if r.Ok? then r.value.Keys == totals.Keys else r.error == DivisionByZero
  {
    hide Lookups, HasBoolean, Check, Eval, AllNames;
    if k > 0 {
      LoadedPackOnlyFailsByDivision(boxes, order, totals, k - 1);
      var r := DeriveTo(boxes, order, totals, k - 1);
      var b := order[k - 1];
      assert b in order && FormulaAccepted(boxes, b);
      if r.Ok? {
        var node := boxes.defs[b].formula.node;
        RefsAreLookups(node);
        assert Lookups(node) <= r.value.Keys;
        OnlyDivisionFails(node, r.value);
      }
    }
  }

  /** A successful pass has evaluated every formula, so none of them is of the two kinds. */
  lemma {:induction false} SuccessMeansDecimals(boxes: BoxTable, order: seq<string>, totals: Totals, k: nat, i: nat)
    requires Computable(boxes, order, totals) && i < k <= |order| && DeriveTo(boxes, order, totals, k).Ok?
    ensures boxes.Derived(order[i]) && boxes.defs[order[i]].formula.Parsed?
    ensures var node := boxes.defs[order[i]].formula.node;
            !HasBoolean(node) && Lookups(node) <= boxes.defs.Keys
  {
    hide Lookups, HasBoolean, Check, Eval, AllNames, DividesByZero;
    assert order[i] in order && FormulaAccepted(boxes, order[i]);
    if i < k - 1 {
      SuccessMeansDecimals(boxes, order, totals, k - 1, i);
    } else {
      PassKeepsOthers(boxes, order, totals, i);
      EvaluatesExactlyWhen(boxes.defs[order[i]].formula.node, DeriveTo(boxes, order, totals, i).value);
    }
  }

  /** Exactly when a loaded pack computes: it holds neither of the two formulas accepted by mistake, and
      nothing divides by zero. So a pack that holds one fails on all totals. */
  lemma PassSucceedsExactlyWhen(boxes: BoxTable, order: seq<string>, totals: Totals)
    requires Computable(boxes, order, totals)
    ensures Derive(boxes, order, totals).Ok? <==> OnlyDecimals(boxes) && Derive(boxes, order, totals) != Err(DivisionByZero)
    ensures !OnlyDecimals(boxes) ==> Derive(boxes, order, totals).Err?
  {
    hide Lookups, HasBoolean, Check, Eval, AllNames, DeriveTo, FormulasAccepted;
    if OnlyDecimals(boxes) {
      LoadedPackOnlyFailsByDivision(boxes, order, totals, |order|);
    }
    if Derive(boxes, order, totals).Ok? {
      forall b | boxes.Derived(b) && boxes.defs[b].formula.Parsed?
        ensures var node := boxes.defs[b].formula.node;
                !HasBoolean(node) && (ABS in Lookups(node) ==> ABS in boxes.defs)
      {
        assert b in order;
        var i :| 0 <= i < |order| && order[i] == b;
        SuccessMeansDecimals(boxes, order, totals, |order|, i);
      }
    }
  }

  // ---------------------------------------------------------------- expansion to primary boxes

  /** The formulas of the first k boxes with every derived box replaced by its own expansion. */
  function Expansions(boxes: BoxTable, order: seq<string>, k: nat): map<string, Node>
    requires k <= |order|
    requires forall b | b in order :: b in boxes.defs && boxes.defs[b].formula.Parsed?
  {
    if k == 0 then map[]
    else
      assert order[k - 1] in order;
      var defs := Expansions(boxes, order, k - 1);
      defs[order[k - 1] := Substitute(boxes.defs[order[k - 1]].formula.node, defs)]
  }

  lemma {:induction false} ExpansionKeys(boxes: BoxTable, order: seq<string>, k: nat)
    requires k <= |order| && FormulasAccepted(boxes) && Topological(boxes, order)
    ensures forall b | b in order :: b in boxes.defs && boxes.defs[b].formula.Parsed?
    ensures Expansions(boxes, order, k).Keys == Before(order, k)
  {
    forall b | b in order
      ensures b in boxes.defs && boxes.defs[b].formula.Parsed?
    {
      assert boxes.Derived(b) && FormulaAccepted(boxes, b);
    }
    if k > 0 {
      ExpansionKeys(boxes, order, k - 1);
      BeforeStep(order, k);
    }
  }

  ghost predicate ExpansionsMatch(base: Totals, defs: map<string, Node>, values: Totals) {
    forall b | b in defs :: b in values && Eval(defs[b], base) == Ok(values[b])
  }

  /** The assignment has a value for every box, and the primary ones are the totals. */
  ghost predicate Extends(boxes: BoxTable, base: Totals, values: Totals) {
    values.Keys == boxes.defs.Keys && forall b | b in boxes.defs && !boxes.Derived(b) :: b in base && values[b] == base[b]
  }

  /** Evaluating an expansion over the totals is evaluating the formula over the values of the boxes
      before it. */
  lemma ExpansionStep(boxes: BoxTable, order: seq<string>, base: Totals, values: Totals, k: nat, defs: map<string, Node>)
    requires Ready(boxes, order, base) && Extends(boxes, base, values) && k < |order|
    requires defs.Keys == Before(order, k) && ExpansionsMatch(base, defs, values)
    ensures boxes.Derived(order[k]) && boxes.defs[order[k]].formula.Parsed?
    ensures Eval(Substitute(boxes.defs[order[k]].formula.node, defs), base) == FormulaValue(boxes, order[k], values)
  {
    hide Eval, Lookups, Substitute, Check, AllNames;
    var box := order[k];
    assert box in order && boxes.Derived(box) && FormulaAccepted(boxes, box);
    var node := boxes.defs[box].formula.node;
    RefsAreLookups(node);
    assert PlacedAt(boxes, order, k);
    forall id | id in Lookups(node) && id !in defs
      ensures (id in base <==> id in values) && (id in base ==> base[id] == values[id])
    {
      assert boxes.Derived(id) && id != ABS ==> id in Refs(node) && id in boxes.Deps(box);
      assert id == ABS ==> UsesAbs(boxes, box);
      assert !boxes.Derived(id);
    }
    SubstituteThenEval(node, defs, base, values);
  }

  lemma MatchStep(base: Totals, defs: map<string, Node>, values: Totals, b: string, node: Node)
    requires ExpansionsMatch(base, defs, values) && b in values && Eval(node, base) == Ok(values[b])
    ensures ExpansionsMatch(base, defs[b := node], values)
  {
  }

  lemma {:induction false} SolutionExpands(boxes: BoxTable, order: seq<string>, base: Totals, values: Totals, k: nat)
    requires Ready(boxes, order, base) && Solves(boxes, base, values) && k <= |order|
    ensures forall b | b in order :: b in boxes.defs && boxes.defs[b].formula.Parsed?
    ensures ExpansionsMatch(base, Expansions(boxes, order, k), values)
  {
    ExpansionKeys(boxes, order, k);
    if k > 0 {
      hide FormulasAccepted, Solves, AbsPlaced, Eval, Substitute, FormulaValue, ExpansionsMatch, DepsFirst, Before;
      SolutionExpands(boxes, order, base, values, k - 1);
      ExpansionKeys(boxes, order, k - 1);
      var b, defs := order[k - 1], Expansions(boxes, order, k - 1);
      SolutionFacts(boxes, base, values, b);
      ExpansionStep(boxes, order, base, values, k - 1, defs);
      MatchStep(base, defs, values, b, Substitute(boxes.defs[b].formula.node, defs));
    }
  }

  lemma SolutionFacts(boxes: BoxTable, base: Totals, values: Totals, b: string)
    requires Solves(boxes, base, values)
    ensures Extends(boxes, base, values)
    ensures boxes.Derived(b) ==> b in values && FormulaValue(boxes, b, values) == Ok(values[b])
  {
  }

  /** Later expansions leave the earlier ones in place. */
  lemma {:induction false} ExpansionsGrow(boxes: BoxTable, order: seq<string>, k: nat, m: nat)
    requires FormulasAccepted(boxes) && Topological(boxes, order) && k <= m <= |order|
    ensures forall b | b in order :: b in boxes.defs && boxes.defs[b].formula.Parsed?
    ensures forall b | b in Expansions(boxes, order, k) ::
              b in Expansions(boxes, order, m) && Expansions(boxes, order, m)[b] == Expansions(boxes, order, k)[b]
  {
    hide FormulasAccepted, Substitute, DepsFirst;
    ExpansionKeys(boxes, order, k);
    if k < m {
      ExpansionsGrow(boxes, order, k, m - 1);
      NotBefore(order, k, m - 1);
    }
  }

  /** If the expansions evaluate to the values, these satisfy every formula. */
  lemma ExpansionsSolve(boxes: BoxTable, order: seq<string>, base: Totals, values: Totals, k: nat)
    requires Ready(boxes, order, base) && Extends(boxes, base, values) && k < |order|
    requires forall b | b in order :: b in boxes.defs && boxes.defs[b].formula.Parsed?
    requires ExpansionsMatch(base, Expansions(boxes, order, |order|), values)
    ensures order[k] in values && FormulaValue(boxes, order[k], values) == Ok(values[order[k]])
  {
    hide FormulasAccepted, AbsPlaced, Eval, Substitute, FormulaValue, DepsFirst, Extends;
    ExpansionKeys(boxes, order, k);
    ExpansionsGrow(boxes, order, k, |order|);
    ExpansionsGrow(boxes, order, k + 1, |order|);
    ExpansionStep(boxes, order, base, values, k, Expansions(boxes, order, k));
    assert order[k] in Expansions(boxes, order, k + 1);
  }

  /** The pass computes exactly what recursive expansion computes: it returns v if and only if v extends the
      primary totals and every formula, expanded down to primary boxes, evaluates over them to v. */
  lemma ExpansionsEvaluate(boxes: BoxTable, order: seq<string>, base: Totals, v: Totals)
    requires Ready(boxes, order, base)
    ensures forall b | b in order :: b in boxes.defs && boxes.defs[b].formula.Parsed?
    ensures Derive(boxes, order, base) == Ok(v)
       <==> Extends(boxes, base, v) && ExpansionsMatch(base, Expansions(boxes, order, |order|), v)
  {
    hide FormulasAccepted, PlacedAt, Eval, Substitute, FormulaValue, DepsFirst, Expansions, Derive, ExpansionsMatch;
    ExpansionKeys(boxes, order, |order|);
    SinglePassIsMeaning(boxes, order, base, v);
    if Solves(boxes, base, v) {
      SolutionExpands(boxes, order, base, v, |order|);
    }
    if Extends(boxes, base, v) && ExpansionsMatch(base, Expansions(boxes, order, |order|), v) {
      forall b | boxes.Derived(b)
        ensures FormulaValue(boxes, b, v) == Ok(v[b])
      {
        assert b in order;
        var i :| 0 <= i < |order| && order[i] == b;
        ExpansionsSolve(boxes, order, base, v, i);
      }
    }
  }

  /** The values the expansions have over the primary totals. */
  ghost function ExpansionValues(boxes: BoxTable, base: Totals, defs: map<string, Node>): Totals
    requires base.Keys == boxes.defs.Keys
  {
    map b | b in boxes.defs ::
      if b in defs && Eval(defs[b], base).Ok? then Eval(defs[b], base).value else base[b]
  }

  /** So the pass fails exactly when some expansion does. */
  lemma PassFailsWithAnExpansion(boxes: BoxTable, order: seq<string>, base: Totals)
    requires Ready(boxes, order, base)
    ensures forall b | b in order :: b in boxes.defs && boxes.defs[b].formula.Parsed?
    ensures var defs := Expansions(boxes, order, |order|);
            Derive(boxes, order, base).Ok? <==> forall b | b in defs :: Eval(defs[b], base).Ok?
  {
    hide FormulasAccepted, AbsPlaced, Eval, Substitute, DepsFirst, Expansions, Derive;
    ExpansionKeys(boxes, order, |order|);
    AllDerivedBefore(boxes, order);
    var defs := Expansions(boxes, order, |order|);
    if Derive(boxes, order, base).Ok? {
      ExpansionsEvaluate(boxes, order, base, Derive(boxes, order, base).value);
    }
    if forall b | b in defs :: Eval(defs[b], base).Ok? {
      ExpansionsEvaluate(boxes, order, base, ExpansionValues(boxes, base, defs));
    }
  }

  lemma SubstitutedIsPrimary(boxes: BoxTable, order: seq<string>, k: nat, defs: map<string, Node>)
    requires FormulasAccepted(boxes) && Topological(boxes, order) && AbsPlaced(boxes, order) && k < |order|
    requires defs.Keys == Before(order, k)
    requires forall b | b in defs :: Lookups(defs[b]) !! boxes.DerivedBoxes()
    ensures boxes.Derived(order[k]) && boxes.defs[order[k]].formula.Parsed?
    ensures Lookups(Substitute(boxes.defs[order[k]].formula.node, defs)) !! boxes.DerivedBoxes()
  {
    hide Lookups, Substitute, Check, AllNames;
    var box := order[k];
    assert box in order && boxes.Derived(box) && FormulaAccepted(boxes, box);
    var node := boxes.defs[box].formula.node;
    RefsAreLookups(node);
    assert PlacedAt(boxes, order, k);
    var primary := PrimaryNames(node, boxes, defs);
    forall id | id in Lookups(node) && id !in defs
      ensures id in primary
    {
      assert boxes.Derived(id) && id != ABS ==> id in Refs(node) && id in boxes.Deps(box);
      assert id == ABS ==> UsesAbs(boxes, box);
      assert !boxes.Derived(id);
    }
    SubstituteLookups(node, defs, primary);
  }

  /** The expansions mention no derived box. */
  lemma {:induction false} ExpansionsArePrimary(boxes: BoxTable, order: seq<string>, k: nat)
    requires FormulasAccepted(boxes) && Topological(boxes, order) && AbsPlaced(boxes, order) && k <= |order|
    ensures forall b | b in order :: b in boxes.defs && boxes.defs[b].formula.Parsed?
    ensures forall b | b in Expansions(boxes, order, k) ::
              Lookups(Expansions(boxes, order, k)[b]) !! boxes.DerivedBoxes()
  {
    hide Lookups, Substitute, FormulasAccepted, AbsPlaced, DepsFirst;
    ExpansionKeys(boxes, order, k);
    if k > 0 {
      ExpansionsArePrimary(boxes, order, k - 1);
      ExpansionKeys(boxes, order, k - 1);
      SubstitutedIsPrimary(boxes, order, k - 1, Expansions(boxes, order, k - 1));
    }
  }

  /** The non-derived names that a formula, or the definitions it uses, looks up. */
  ghost function PrimaryNames(node: Node, boxes: BoxTable, defs: map<string, Node>): (r: set<string>)
    ensures r !! boxes.DerivedBoxes()
    ensures forall id | id in Lookups(node) && id !in boxes.DerivedBoxes() :: id in r
    ensures forall b, id | b in defs && id in Lookups(defs[b]) && id !in boxes.DerivedBoxes() :: id in r
  {
    (Lookups(node) + set b, id | b in defs && id in Lookups(defs[b]) :: id) - boxes.DerivedBoxes()
  }

  // ---------------------------------------------------------------- the case that is left out

  const HIDDEN: BoxTable := BoxTable(["total", "abs", "paid"], map[
    "total" := BoxDef("total", "Total", true, Parsed(Name("abs")), false),
    "abs" := BoxDef("abs", "Absolute", true, Parsed(Name("paid")), false),
    "paid" := BoxDef("paid", "Paid", false, Missing, false)])

  const HIDDEN_TOTALS: Totals := map["total" := 0.0, "abs" := 0.0, "paid" := 5.0]
  const HIDDEN_SOLUTION: Totals := map["total" := 5.0, "abs" := 5.0, "paid" := 5.0]
  const HIDDEN_ORDER: seq<string> := ["total", "abs"]

  lemma HiddenNames()
    ensures HIDDEN.Valid()
    ensures HIDDEN.DerivedBoxes() == {"total", "abs"} && HIDDEN.Deps("total") == {} && HIDDEN.Deps("abs") == {}
    ensures "total" != "abs"
  {
    assert "total"[0] != "abs"[0] && "total"[0] != "paid"[0] && "abs"[0] != "paid"[0];
    assert HIDDEN.keys[0] == "total" && HIDDEN.keys[1] == "abs" && HIDDEN.keys[2] == "paid";
  }

  lemma HiddenIsAccepted()
    ensures FormulasAccepted(HIDDEN)
  {
    HiddenNames();
    assert FormulaAccepted(HIDDEN, "total") && FormulaAccepted(HIDDEN, "abs");
    assert forall b :: HIDDEN.Derived(b) <==> b in HIDDEN.DerivedBoxes();
  }

  lemma HiddenAbsLoads()
    ensures HIDDEN.Valid() && FormulasAccepted(HIDDEN) && Topological(HIDDEN, HIDDEN_ORDER)
    ensures !AbsPlaced(HIDDEN, HIDDEN_ORDER)
  {
    HiddenNames();
    HiddenIsAccepted();
    hide FormulasAccepted, Check, AllNames;
    assert HIDDEN_ORDER[0] == "total" && HIDDEN_ORDER[1] == "abs" && |HIDDEN_ORDER| == 2;
    assert UsesAbs(HIDDEN, HIDDEN_ORDER[0]) && Before(HIDDEN_ORDER, 0) == {};
    assert !PlacedAt(HIDDEN, HIDDEN_ORDER, 0);
  }

  lemma HiddenAbsPass()
    ensures Derive(HIDDEN, HIDDEN_ORDER, HIDDEN_TOTALS) == Ok(HIDDEN_TOTALS["abs" := 5.0])
  {
    assert "total"[0] != "abs"[0] && "total"[0] != "paid"[0] && "abs"[0] != "paid"[0];
    assert HIDDEN_ORDER[0] == "total" && HIDDEN_ORDER[1] == "abs" && |HIDDEN_ORDER| == 2;
    assert DeriveTo(HIDDEN, HIDDEN_ORDER, HIDDEN_TOTALS, 0) == Ok(HIDDEN_TOTALS);
    assert FormulaValue(HIDDEN, "total", HIDDEN_TOTALS) == Ok(0.0);
    assert HIDDEN_TOTALS["total" := 0.0] == HIDDEN_TOTALS;
    assert DeriveTo(HIDDEN, HIDDEN_ORDER, HIDDEN_TOTALS, 1) == Ok(HIDDEN_TOTALS);
    assert FormulaValue(HIDDEN, "abs", HIDDEN_TOTALS) == Ok(5.0);
  }

  /** The dependencies evaluation has, a bare abs included. */
  ghost function LookupGraph(boxes: BoxTable): Graph {
    (b: string) =>
      if boxes.Derived(b) && boxes.defs[b].formula.Parsed? then Lookups(boxes.defs[b].formula.node) * boxes.DerivedBoxes()
      else {}
  }

  /** For accepted formulas, what evaluation depends on is what is reported, and the derived box abs where a
      formula uses it as a name. */
  lemma LookupsAreDeps(boxes: BoxTable, b: string)
    requires FormulasAccepted(boxes) && boxes.Derived(b)
    ensures LookupGraph(boxes)(b) - {ABS} == boxes.Deps(b)
    ensures ABS in LookupGraph(boxes)(b) <==> boxes.Derived(ABS) && UsesAbs(boxes, b)
  {
    hide Lookups, AllNames, Check;
    assert FormulaAccepted(boxes, b);
    RefsAreLookups(boxes.defs[b].formula.node);
  }

  /** A dependency order in which abs is well placed is an order of the lookups. */
  lemma PlacedIsOrdered(boxes: BoxTable, order: seq<string>)
    requires FormulasAccepted(boxes) && forall b | b in order :: boxes.Derived(b)
    ensures Ordered(LookupGraph(boxes), order) <==> DepsFirst(boxes, order) && AbsPlaced(boxes, order)
  {
    hide FormulasAccepted, LookupGraph, UsesAbs, Before;
    forall i | 0 <= i < |order|
      ensures LookupGraph(boxes)(order[i]) <= Before(order, i)
         <==> ReferenceGraph(boxes)(order[i]) <= Before(order, i) && PlacedAt(boxes, order, i)
    {
      assert order[i] in order;
      LookupsAreDeps(boxes, order[i]);
      assert LookupGraph(boxes)(order[i]) <= boxes.Deps(order[i]) + {ABS};
    }
  }

  /** Exactly when some dependency order puts every formula after all it looks up: when the lookups, and not
      only the reported references, have no cycle. */
  lemma PlacedOrderExistsIff(boxes: BoxTable)
    requires FormulasAccepted(boxes)
    ensures (exists order :: Topological(boxes, order) && AbsPlaced(boxes, order)) <==> NoCycle(LookupGraph(boxes))
  {
    hide FormulasAccepted, Ordered, AbsPlaced, NoCycle, DepsFirst;
    var g := LookupGraph(boxes);
    if order :| Topological(boxes, order) && AbsPlaced(boxes, order) {
      PlacedIsOrdered(boxes, order);
      OrderedHasNoCycle(g, order);
    }
    if NoCycle(g) {
      NothingOrdered(g);
      var order := CanBeOrdered(g, boxes.DerivedBoxes(), []);
      PlacedIsOrdered(boxes, order);
      assert Topological(boxes, order) && AbsPlaced(boxes, order);
    }
  }

  lemma NothingOrdered(g: Graph)
    ensures Ordered(g, [])
  {
  }

  /** A formula placed before a derived box abs was evaluated with the total that abs had to begin with. */
  lemma {:induction false} StaleAbsIsRead(boxes: BoxTable, order: seq<string>, totals: Totals, k: nat, i: nat)
    requires Computable(boxes, order, totals) && i < k <= |order|
    requires boxes.Derived(ABS) && ABS !in Before(order, i)
    requires DeriveTo(boxes, order, totals, k).Ok?
    ensures var r := DeriveTo(boxes, order, totals, k).value;
            order[i] in r && FormulaValue(boxes, order[i], r[ABS := totals[ABS]]) == Ok(r[order[i]])
  {
    hide FormulaValue, FormulasAccepted, Before, DepsFirst, Distinct;
    var before := DeriveTo(boxes, order, totals, k - 1).value;
    var after := DeriveTo(boxes, order, totals, k).value;
    PassKeepsOthers(boxes, order, totals, k);
    PassKeepsOthers(boxes, order, totals, k - 1);
    assert order[i] in order && boxes.Derived(order[i]);
    NotBefore(order, i, k - 1);
    assert boxes.Derived(order[k - 1]);
    var a, b := before[ABS := totals[ABS]], after[ABS := totals[ABS]];
    StaleFormulaSees(boxes, order, i, a, b);
    if i < k - 1 {
      StaleAbsIsRead(boxes, order, totals, k - 1, i);
      NotBefore(order, k - 1, k - 1);
      assert order[i] != order[k - 1] by { DistinctAt(order, i, k - 1); }
    } else {
      assert before[ABS := totals[ABS]] == before;
    }
  }

  lemma DistinctAt(order: seq<string>, i: nat, j: nat)
    requires Distinct(order) && i < j < |order|
    ensures order[i] != order[j]
  {
  }

  /** Two assignments that agree on abs and on what is settled give the i-th formula the same value. */
  lemma StaleFormulaSees(boxes: BoxTable, order: seq<string>, k: nat, a: Totals, b: Totals)
    requires FormulasAccepted(boxes) && Topological(boxes, order)
    requires k < |order| && AgreeOn(boxes, Before(order, k) + {ABS}, a, b)
    ensures FormulaValue(boxes, order[k], a) == FormulaValue(boxes, order[k], b)
  {
    hide Eval, Lookups, Check, AllNames;
    var box := order[k];
    assert boxes.Derived(box) && FormulaAccepted(boxes, box);
    var node := boxes.defs[box].formula.node;
    RefsAreLookups(node);
    forall id | id in Lookups(node)
      ensures (id in a <==> id in b) && (id in a ==> a[id] == b[id])
    {
      if boxes.Derived(id) && id != ABS {
        assert id in Refs(node) && id in boxes.Deps(box);
        assert id in Before(order, k);
      }
    }
    EvalDependsOnLookups(node, a, b);
  }

  /** With the total that abs had to begin with, the formula of b still gives its value in the solution. */
  ghost predicate StaleAgrees(boxes: BoxTable, totals: Totals, v: Totals, b: string) {
    ABS in totals && b in v && FormulaValue(boxes, b, v[ABS := totals[ABS]]) == Ok(v[b])
  }

  lemma {:induction false} PassFollowsStaleSolution(boxes: BoxTable, order: seq<string>, totals: Totals, v: Totals, k: nat)
    requires Computable(boxes, order, totals) && Solves(boxes, totals, v) && k <= |order|
    requires forall i | 0 <= i < |order| && !PlacedAt(boxes, order, i) :: StaleAgrees(boxes, totals, v, order[i])
    ensures var r := DeriveTo(boxes, order, totals, k);
            r.Ok? && AgreeOn(boxes, Before(order, k), r.value, v)
  {
    hide FormulaValue, FormulasAccepted, AgreeOn, Before, DepsFirst, UsesAbs;
    if k == 0 {
      NothingBefore(order);
      AgreeAtFirst(boxes, totals, v);
    } else {
      PassFollowsStaleSolution(boxes, order, totals, v, k - 1);
      var current, b := DeriveTo(boxes, order, totals, k - 1).value, order[k - 1];
      assert b in order && boxes.Derived(b);
      if PlacedAt(boxes, order, k - 1) {
        FormulaSeesSettled(boxes, order, k - 1, current, v);
      } else {
        PassKeepsOthers(boxes, order, totals, k - 1);
        AgreeStale(boxes, Before(order, k - 1), current, v, totals[ABS]);
        StaleFormulaSees(boxes, order, k - 1, current, v[ABS := totals[ABS]]);
      }
      BeforeStep(order, k);
      AgreeStep(boxes, Before(order, k - 1), current, v, b);
    }
  }

  lemma AgreeStale(boxes: BoxTable, settled: set<string>, a: Totals, b: Totals, stale: real)
    requires AgreeOn(boxes, settled, a, b) && ABS in a && a[ABS] == stale && ABS !in settled
    ensures AgreeOn(boxes, settled + {ABS}, a, b[ABS := stale])
  {
  }

  /** Exactly when the pass finds a solution the formulas have: every formula that runs before a derived box
      abs it uses must give its value in the solution also from the total abs has to begin with. This
      covers the passes that fail: there, some such formula does not. */
  lemma PassFindsSolutionIff(boxes: BoxTable, order: seq<string>, totals: Totals, v: Totals)
    requires Computable(boxes, order, totals) && Solves(boxes, totals, v)
    ensures Derive(boxes, order, totals) == Ok(v)
       <==> forall i | 0 <= i < |order| && !PlacedAt(boxes, order, i) :: StaleAgrees(boxes, totals, v, order[i])
  {
    hide FormulaValue, FormulasAccepted, DeriveTo, DepsFirst, Distinct;
    AllDerivedBefore(boxes, order);
    if forall i | 0 <= i < |order| && !PlacedAt(boxes, order, i) :: StaleAgrees(boxes, totals, v, order[i]) {
      PassFollowsStaleSolution(boxes, order, totals, v, |order|);
      assert Derive(boxes, order, totals).value == v;
    }
    if Derive(boxes, order, totals) == Ok(v) {
      forall i | 0 <= i < |order| && !PlacedAt(boxes, order, i)
        ensures StaleAgrees(boxes, totals, v, order[i])
      {
        StaleAbsIsRead(boxes, order, totals, |order|, i);
      }
    }
  }

  /** Exactly when a successful pass is right: every formula that ran before a derived box abs it uses
      must give the same value with the total abs had to begin with as with its final value. */
  lemma PassIsRightIff(boxes: BoxTable, order: seq<string>, totals: Totals, r: Totals)
    requires Computable(boxes, order, totals) && Derive(boxes, order, totals) == Ok(r)
    ensures r.Keys == totals.Keys
    ensures Solves(boxes, totals, r)
       <==> forall i | 0 <= i < |order| && !PlacedAt(boxes, order, i) ::
              FormulaValue(boxes, order[i], r) == FormulaValue(boxes, order[i], r[ABS := totals[ABS]])
  {
    hide FormulaValue, FormulasAccepted, DeriveTo, DepsFirst, Distinct;
    PassKeepsOthers(boxes, order, totals, |order|);
    AllDerivedBefore(boxes, order);
    forall i | 0 <= i < |order|
      ensures order[i] in r && boxes.Derived(order[i])
      ensures PlacedAt(boxes, order, i) ==> FormulaValue(boxes, order[i], r) == Ok(r[order[i]])
      ensures !PlacedAt(boxes, order, i) ==> FormulaValue(boxes, order[i], r[ABS := totals[ABS]]) == Ok(r[order[i]])
    {
      assert order[i] in order;
      if PlacedAt(boxes, order, i) {
        PassSatisfies(boxes, order, totals, |order|, i);
      } else {
        StaleAbsIsRead(boxes, order, totals, |order|, i);
      }
    }
    forall b | boxes.Derived(b)
      ensures exists i :: 0 <= i < |order| && order[i] == b
    {
      assert b in order;
    }
  }

  /** Without that condition the pass can miss the meaning: with a derived box called abs, a formula
      that uses it is not ordered after it. The pack loads, but total keeps the stale value of abs
      although the formulas have a solution. */
  lemma HiddenAbsBreaksThePass()
    ensures FormulasAccepted(HIDDEN) && Topological(HIDDEN, HIDDEN_ORDER)
    ensures Derive(HIDDEN, HIDDEN_ORDER, HIDDEN_TOTALS) == Ok(HIDDEN_TOTALS["abs" := 5.0])
    ensures "total" in HIDDEN_TOTALS && HIDDEN_TOTALS["abs" := 5.0]["total"] == 0.0
    ensures Solves(HIDDEN, HIDDEN_TOTALS, HIDDEN_SOLUTION) && HIDDEN_SOLUTION["total"] == 5.0
  {
    hide Derive, FormulasAccepted, Topological;
    HiddenAbsLoads();
    HiddenAbsPass();
    assert "total"[0] != "abs"[0] && "total"[0] != "paid"[0] && "abs"[0] != "paid"[0];
    assert FormulaValue(HIDDEN, "total", HIDDEN_SOLUTION) == Ok(5.0);
    assert FormulaValue(HIDDEN, "abs", HIDDEN_SOLUTION) == Ok(5.0);
    assert HIDDEN_SOLUTION.Keys == HIDDEN.defs.Keys;
  }

  const KNOT: BoxTable := BoxTable(["total", "abs"], map[
    "total" := BoxDef("total", "Total", true, Parsed(Name("abs")), false),
    "abs" := BoxDef("abs", "Absolute", true, Parsed(BinOp(Add, Name("total"), Constant(IntLit(1)))), false)])

  const KNOT_TOTALS: Totals := map["total" := 0.0, "abs" := 0.0]
  const KNOT_ORDER: seq<string> := ["total", "abs"]

  lemma KnotNames()
    ensures "total" != "abs"
    ensures KNOT.DerivedBoxes() == {"total", "abs"} && KNOT.defs.Keys == {"total", "abs"}
    ensures KNOT.Deps("total") == {} && KNOT.Deps("abs") == {"total"}
  {
    assert "total"[0] != "abs"[0];
    assert AllNames(KNOT.defs["abs"].formula.node) == {"total"};
  }

  lemma KnotRefs()
    ensures Refs(KNOT.defs["total"].formula.node) == {} && Refs(KNOT.defs["abs"].formula.node) == {"total"}
  {
    assert "total"[0] != "abs"[0];
    assert AllNames(KNOT.defs["abs"].formula.node) == {"total"};
  }

  lemma KnotIsAccepted()
    ensures FormulasAccepted(KNOT)
  {
    KnotNames();
    KnotRefs();
    hide Refs;
    assert FormulaAccepted(KNOT, "total") && FormulaAccepted(KNOT, "abs");
    assert forall b :: KNOT.Derived(b) <==> b in KNOT.DerivedBoxes();
  }

  lemma KnotIsOrdered()
    ensures Topological(KNOT, KNOT_ORDER)
  {
    KnotNames();
    assert KNOT_ORDER[0] == "total" && KNOT_ORDER[1] == "abs" && |KNOT_ORDER| == 2;
    assert "total" in KNOT_ORDER[..1];
  }

  lemma KnotComputes()
    ensures Derive(KNOT, KNOT_ORDER, KNOT_TOTALS) == Ok(KNOT_TOTALS["abs" := 1.0])
  {
    KnotNames();
    assert KNOT_ORDER[0] == "total" && KNOT_ORDER[1] == "abs" && |KNOT_ORDER| == 2;
    assert DeriveTo(KNOT, KNOT_ORDER, KNOT_TOTALS, 0) == Ok(KNOT_TOTALS);
    assert FormulaValue(KNOT, "total", KNOT_TOTALS) == Ok(0.0);
    assert KNOT_TOTALS["total" := 0.0] == KNOT_TOTALS;
    assert DeriveTo(KNOT, KNOT_ORDER, KNOT_TOTALS, 1) == Ok(KNOT_TOTALS);
    assert FormulaValue(KNOT, "abs", KNOT_TOTALS) == Ok(1.0);
  }

  lemma KnotValues(v: Totals)
    requires v.Keys == {"total", "abs"}
    ensures "total" in v && "abs" in v
    ensures FormulaValue(KNOT, "total", v) == Ok(v["abs"])
    ensures FormulaValue(KNOT, "abs", v) == Ok(v["total"] + 1.0)
  {
    assert "total"[0] != "abs"[0];
    assert Eval(Name("total"), v) == Ok(v["total"]) && Eval(Constant(IntLit(1)), v) == Ok(1.0);
  }

  lemma KnotHasNoSolution(v: Totals)
    ensures !Solves(KNOT, KNOT_TOTALS, v)
  {
    KnotNames();
    hide FormulaValue;
    assert KNOT.Derived("total") && KNOT.Derived("abs");
    if v.Keys == KNOT.defs.Keys {
      KnotValues(v);
    }
  }

  /** A cycle through a bare abs is not refused: this pack loads and its pass succeeds, although its two
      formulas refer to each other and no assignment satisfies them. */
  lemma CycleThroughAbsLoads()
    ensures KNOT.Valid() && FormulasAccepted(KNOT) && Topological(KNOT, KNOT_ORDER)
    ensures Derive(KNOT, KNOT_ORDER, KNOT_TOTALS) == Ok(KNOT_TOTALS["abs" := 1.0])
    ensures forall v :: !Solves(KNOT, KNOT_TOTALS, v)
    ensures !NoCycle(LookupGraph(KNOT))
  {
    hide Derive, Solves, FormulasAccepted, Topological;
    KnotNames();
    KnotIsAccepted();
    KnotIsOrdered();
    KnotComputes();
    forall v
      ensures !Solves(KNOT, KNOT_TOTALS, v)
    {
      KnotHasNoSolution(v);
    }
    assert KNOT.keys[0] == "total" && KNOT.keys[1] == "abs";
    var p := ["total", "abs", "total"];
    assert "abs" in LookupGraph(KNOT)("total") && "total" in LookupGraph(KNOT)("abs");
    assert Cycle(LookupGraph(KNOT), p);
  }
}
