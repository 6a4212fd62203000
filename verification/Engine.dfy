/** The deterministic tax engine, after compliance/engine.py: classify each row by its code, accumulate
    contributions per box with their lineage, derive, round and publish. Amounts are exact reals. */
module Engine {
  import opened Wrappers
  import opened Formula
  import opened Pack
  import opened Derivation
  import opened StringOrder
  import opened RealSums
  import opened Sets
  import Rounding
  import opened Sequences

  datatype Direction = AP | AR

  datatype Txn = Txn(rowId: string, direction: Direction, vatCode: string, net: real, vat: real)

  datatype Contribution = Contribution(rowId: string, boxId: string, kind: string, amount: real,
                                       vatCode: string, citationRef: string)

  datatype BoxValue = BoxValue(boxId: string, title: string, value: real, derived: bool, contributionCount: nat)

  datatype ComputationResult = ComputationResult(boxes: map<string, BoxValue>, contributions: seq<Contribution>,
                                                 unmappedCodes: seq<string>)

  // ---------------------------------------------------------------- one transaction

  function MappingFor(rule: CodeRule, direction: Direction): seq<(string, string)> {
    if direction == AR then rule.ar else rule.ap
  }

  /** The kinds of contribution that carry a negative sign: none today. */
  const NEGATIVE_KINDS: set<string> := {}

  function SignOf(kind: string): real {
    if kind in NEGATIVE_KINDS then -1.0 else 1.0
  }

  function SelfAccounted(t: Txn, rule: CodeRule, dp: int): real {
    Rounding.Quantize(Product(t.net, rule.rate), Rounding.Unit(dp))
  }

  function Amount(kind: string, t: Txn, rule: CodeRule, dp: int): real {
    var amount :=
      if kind == "output_vat" || kind == "input_vat" then t.vat
      else if kind == "reverse_charge_output_vat" then SelfAccounted(t, rule, dp)
      else t.net;
    if kind == "input_vat" && t.vatCode == "RC20" then SelfAccounted(t, rule, dp) else amount
  }

  function Kind(m: (string, string)): string {
    m.0
  }

  function Contribute(m: (string, string), t: Txn, rule: CodeRule, dp: int): Contribution {
    Contribution(t.rowId, m.1, m.0, Amount(m.0, t, rule, dp) * SignOf(m.0), t.vatCode, rule.citationRef)
  }

  ghost function MappedContributions(mapping: seq<(string, string)>, t: Txn, rule: CodeRule, dp: int): (cs: seq<Contribution>)
    ensures |cs| == |mapping|
  {
    seq(|mapping|, i requires 0 <= i < |mapping| => Contribute(mapping[i], t, rule, dp))
  }

  /** What one row contributes: nothing if the pack does not know its code, otherwise one contribution
      per mapped kind, in the order of the kinds. */
  ghost function ContributionsOf(pack: RulePack, t: Txn): seq<Contribution> {
    if t.vatCode !in pack.codes then []
    else
      var rule := pack.codes[t.vatCode];
      MappedContributions(SortBy(MappingFor(rule, t.direction), Kind), t, rule, pack.boxDp)
  }

  /** The lineage of a list of rows: their contributions one row after the other. */
  ghost function Lineage(pack: RulePack, txns: seq<Txn>): seq<Contribution> {
    if txns == [] then [] else ContributionsOf(pack, txns[0]) + Lineage(pack, txns[1..])
  }

  ghost function AmountIn(b: string): Contribution -> real {
    (c: Contribution) => if c.boxId == b then c.amount else 0.0
  }

  /** The exact total of every box before derivation. */
  ghost function PrimaryTotals(pack: RulePack, txns: seq<Txn>): Totals {
    map b | b in pack.boxes.defs :: Sum(Lineage(pack, txns), AmountIn(b))
  }

  function ContributionsFor(cs: seq<Contribution>, b: string): seq<Contribution> {
    if cs == [] then []
    else (if cs[0].boxId == b then [cs[0]] else []) + ContributionsFor(cs[1..], b)
  }

  function RowId(t: Txn): string {
    t.rowId
  }

  ghost predicate StrictlyAscending(xs: seq<string>) {
    forall i, j | 0 <= i < j < |xs| :: UpTo(xs[i], xs[j]) && xs[i] != xs[j]
  }

  ghost function UnmappedCodes(pack: RulePack, txns: seq<Txn>): set<string> {
    set t | t in txns && t.vatCode !in pack.codes :: t.vatCode
  }

  // ---------------------------------------------------------------- the computation

  /** Adds one row's contributions to the running totals and the lineage. */
  method AddRow(pack: RulePack, t: Txn, rule: CodeRule, totals0: Totals, contributions0: seq<Contribution>)
    returns (totals: Totals, contributions: seq<Contribution>)
    requires Loaded(pack) && totals0.Keys == pack.boxes.defs.Keys
    requires t.vatCode in pack.codes && rule == pack.codes[t.vatCode]
    requires forall b | b in totals0 :: totals0[b] == Sum(contributions0, AmountIn(b))
    ensures contributions == contributions0 + ContributionsOf(pack, t)
    ensures t.direction == AR ==> multiset(Destinations(contributions[|contributions0|..])) == multiset(rule.ar)
    ensures t.direction == AP ==> multiset(Destinations(contributions[|contributions0|..])) == multiset(rule.ap)
    ensures totals.Keys == pack.boxes.defs.Keys
    ensures forall b | b in totals :: totals[b] == Sum(contributions, AmountIn(b))
  {
    hide Sum, FormulasAccepted, Topological, SortBy;
    totals, contributions := totals0, contributions0;
    var mapping := SortBy(MappingFor(rule, t.direction), Kind);
    SortByMembers(MappingFor(rule, t.direction), Kind);
    ghost var cs := MappedContributions(mapping, t, rule, pack.boxDp);
    for i := 0 to |mapping|
      invariant contributions == contributions0 + cs[..i]
      invariant totals.Keys == pack.boxes.defs.Keys
      invariant forall b | b in totals :: totals[b] == Sum(contributions, AmountIn(b))
    {
      assert mapping[i] in MappingFor(rule, t.direction);
      var c := Contribute(mapping[i], t, rule, pack.boxDp);
      forall b | b in totals
        ensures Sum(contributions + [c], AmountIn(b)) == totals[b] + AmountIn(b)(c)
      {
        SumSnoc(contributions, c, AmountIn(b));
      }
      totals := totals[c.boxId := totals[c.boxId] + c.amount];
      contributions := contributions + [c];
      assert cs[..i + 1] == cs[..i] + [c];
    }
    assert cs[..|mapping|] == cs && contributions[|contributions0|..] == cs;
    RowGoesWhereItsCodeSays(pack, t);
  }

  lemma {:induction false} LineageConcat(pack: RulePack, xs: seq<Txn>, ys: seq<Txn>)
    ensures Lineage(pack, xs + ys) == Lineage(pack, xs) + Lineage(pack, ys)
  {
    if xs == [] {
      assert xs + ys == ys;
    } else {
      assert (xs + ys)[1..] == xs[1..] + ys;
      LineageConcat(pack, xs[1..], ys);
    }
  }

  lemma LineageSnoc(pack: RulePack, xs: seq<Txn>, t: Txn)
    ensures Lineage(pack, xs + [t]) == Lineage(pack, xs) + ContributionsOf(pack, t)
  {
    LineageConcat(pack, xs, [t]);
    assert [t][1..] == [];
    assert Lineage(pack, [t]) == ContributionsOf(pack, t) + [];
  }

  /** The accumulation loop over the rows, in row-id order. */
  method Accumulate(pack: RulePack, txns: seq<Txn>)
    returns (totals: Totals, contributions: seq<Contribution>, unmapped: set<string>)
    requires Loaded(pack)
    ensures contributions == Lineage(pack, SortBy(txns, RowId))
    ensures totals == PrimaryTotals(pack, SortBy(txns, RowId))
    ensures unmapped == UnmappedCodes(pack, txns)
  {
    hide Sum, Loaded, SortBy, ContributionsOf;
    totals := map b | b in pack.boxes.defs :: 0.0;
    contributions := [];
    unmapped := {};
    var rows := SortBy(txns, RowId);
    SortByMembers(txns, RowId);
    forall b | b in totals {
      SumEmpty(AmountIn(b));
    }
    for i := 0 to |rows|
      invariant totals.Keys == pack.boxes.defs.Keys
      invariant contributions == Lineage(pack, rows[..i])
      invariant forall b | b in totals :: totals[b] == Sum(contributions, AmountIn(b))
      invariant unmapped == UnmappedCodes(pack, rows[..i])
    {
      var t := rows[i];
      assert rows[..i + 1] == rows[..i] + [t];
      LineageSnoc(pack, rows[..i], t);
      if t.vatCode !in pack.codes {
        unmapped := unmapped + {t.vatCode};
        UnknownContributesNothing(pack, t);
      } else {
        totals, contributions := AddRow(pack, t, pack.codes[t.vatCode], totals, contributions);
      }
    }
    assert rows[..|rows|] == rows;
  }

  /** A row whose code the pack does not define contributes to no box. */
  lemma UnknownContributesNothing(pack: RulePack, t: Txn)
    requires t.vatCode !in pack.codes
    ensures ContributionsOf(pack, t) == []
  {
  }

  /** sorted() of a set of strings. */
  method SortedSet(s: set<string>) returns (r: seq<string>)
    ensures StrictlyAscending(r) && forall x :: x in r <==> x in s
  {
    var todo, members: seq<string> := s, [];
    while todo != {}
      invariant todo <= s && forall x :: x in members <==> x in s - todo
      invariant Distinct(members)
      decreases todo
    {
      var x := AnyOf(todo);
      assert x !in members;
      todo := todo - {x};
      members := members + [x];
    }
    r := SortBy(members, Itself);
    SortByMembers(members, Itself);
    SortedSetAscends(members);
  }

  function Itself(x: string): string {
    x
  }

  lemma SortedSetAscends(xs: seq<string>)
    requires Distinct(xs)
    ensures StrictlyAscending(SortBy(xs, Itself))
  {
    hide SortBy, UpTo;
    assert DistinctKeys(xs, Itself);
    SortKeepsDistinct(xs, Itself);
    var sorted := SortBy(xs, Itself);
    forall i, j | 0 <= i < j < |sorted|
      ensures UpTo(sorted[i], sorted[j]) && sorted[i] != sorted[j]
    {
      SortByInOrder(xs, Itself, i, j);
    }
  }

  /** The derivation pass over the pack's boxes. */
  method RunFormulas(pack: RulePack, totals0: Totals) returns (r: Result<Totals, EvalError>)
    ensures r == Derive(pack.boxes, pack.derivationOrder, totals0)
  {
    var totals := totals0;
    for i := 0 to |pack.derivationOrder|
      invariant DeriveTo(pack.boxes, pack.derivationOrder, totals0, i) == Ok(totals)
    {
      var b := pack.derivationOrder[i];
      var x := FormulaValue(pack.boxes, b, totals);
      if x.Err? {
        FailureStays(pack.boxes, pack.derivationOrder, totals0, i + 1, |pack.derivationOrder|);
        return Err(x.error);
      }
      totals := totals[b := x.value];
    }
    return Ok(totals);
  }

  lemma {:induction false} FailureStays(boxes: BoxTable, order: seq<string>, totals: Totals, i: nat, k: nat)
    requires i <= k <= |order| && DeriveTo(boxes, order, totals, i).Err?
    ensures DeriveTo(boxes, order, totals, k) == DeriveTo(boxes, order, totals, i)
  {
    if i < k {
      FailureStays(boxes, order, totals, i, k - 1);
    }
  }

  /** What a box publishes, given its exact total and the lineage. */
  ghost predicate PublishesBox(pack: RulePack, b: string, total: real, contributions: seq<Contribution>, box: BoxValue)
    requires b in pack.boxes.defs
  {
    var definition := pack.boxes.defs[b];
    box == BoxValue(b, definition.title, Rounding.Publish(total, pack.boxDp, definition.wholePounds),
                    definition.derived, |ContributionsFor(contributions, b)|)
  }

  /** The result publishes every box's value next to the lineage in row-id order, and lists the codes the
      pack does not define. */
  ghost predicate Reports(pack: RulePack, txns: seq<Txn>, values: Totals, result: ComputationResult) {
    && result.boxes.Keys == pack.boxes.defs.Keys <= values.Keys
    && (forall b | b in result.boxes :: PublishesBox(pack, b, values[b], result.contributions, result.boxes[b]))
    && result.contributions == Lineage(pack, SortBy(txns, RowId))
    && StrictlyAscending(result.unmappedCodes)
    && forall c :: c in result.unmappedCodes <==> c in UnmappedCodes(pack, txns)
  }

  /** The figures a return publishes, by box. */
  function Figures(result: ComputationResult): Totals {
    map b | b in result.boxes :: result.boxes[b].value
  }

  /** Rounds and publishes every box of the pack. */
  method PublishBoxes(pack: RulePack, totals: Totals, contributions: seq<Contribution>) returns (boxes: map<string, BoxValue>)
    requires pack.boxes.Valid() && pack.boxes.defs.Keys <= totals.Keys
    ensures boxes.Keys == pack.boxes.defs.Keys
    ensures forall b | b in boxes :: PublishesBox(pack, b, totals[b], contributions, boxes[b])
  {
    hide Rounding.Publish, ContributionsFor, Distinct;
    boxes := map[];
    for i := 0 to |pack.boxes.keys|
      invariant forall b :: b in boxes <==> b in pack.boxes.keys[..i]
      invariant forall b | b in boxes :: b in totals && b in pack.boxes.defs
                                         && PublishesBox(pack, b, totals[b], contributions, boxes[b])
    {
      var b := pack.boxes.keys[i];
      var definition := pack.boxes.defs[b];
      var value := Rounding.Publish(totals[b], pack.boxDp, definition.wholePounds);
      boxes := boxes[b := BoxValue(b, definition.title, value, definition.derived,
                                   |ContributionsFor(contributions, b)|)];
    }
    assert pack.boxes.keys[..|pack.boxes.keys|] == pack.boxes.keys;
  }

  /** The pass finds the solution if there is one; otherwise it fails. */
  lemma PassDecides(pack: RulePack, primary: Totals)
    requires Loaded(pack) && primary.Keys == pack.boxes.defs.Keys && AbsPlaced(pack.boxes, pack.derivationOrder)
    ensures var derived := Derive(pack.boxes, pack.derivationOrder, primary);
            && (derived.Ok? <==> exists v :: Solves(pack.boxes, primary, v))
            && (derived.Ok? ==> Solves(pack.boxes, primary, derived.value))
  {
    hide Derive, Solves, FormulasAccepted, Topological, AbsPlaced;
    forall v
      ensures Derive(pack.boxes, pack.derivationOrder, primary) == Ok(v) <==> Solves(pack.boxes, primary, v)
    {
      SinglePassIsMeaning(pack.boxes, pack.derivationOrder, primary, v);
    }
  }

  /** Computes a return from the values of the single pass over the primary totals. Unless a formula runs
      before a derived box called abs that it uses, these values are the one solution of all the formulas,
      and the computation fails exactly when there is none. */
  method ComputeReturn(txns: seq<Txn>, pack: RulePack) returns (r: Result<ComputationResult, EvalError>)
    requires Loaded(pack)
    ensures match Derive(pack.boxes, pack.derivationOrder, PrimaryTotals(pack, txns))
            case Err(e) => r == Err(e)
            case Ok(values) =>
              && r.Ok? && Reports(pack, txns, values, r.value)
              && (AbsPlaced(pack.boxes, pack.derivationOrder) ==> Solves(pack.boxes, PrimaryTotals(pack, txns), values))
    ensures AbsPlaced(pack.boxes, pack.derivationOrder) ==>
              (r.Ok? <==> exists v :: Solves(pack.boxes, PrimaryTotals(pack, txns), v))
  {
    hide Sum, SortBy, Solves, FormulasAccepted, Topological, AbsPlaced, DeriveTo, Le, PublishesBox, StrictlyAscending;
    var primary, contributions, unmapped := Accumulate(pack, txns);
    TotalsOfSorted(pack, txns);
    var derived := RunFormulas(pack, primary);
    if AbsPlaced(pack.boxes, pack.derivationOrder) {
      PassDecides(pack, primary);
    }
    if derived.Err? {
      return Err(derived.error);
    }
    PassKeepsKeys(pack.boxes, pack.derivationOrder, primary, |pack.derivationOrder|);
    var boxes := PublishBoxes(pack, derived.value, contributions);
    var codes := SortedSet(unmapped);
    return Ok(ComputationResult(boxes, contributions, codes));
  }

  lemma {:induction false} PassKeepsKeys(boxes: BoxTable, order: seq<string>, totals: Totals, k: nat)
    requires k <= |order|
    ensures var r := DeriveTo(boxes, order, totals, k); r.Ok? ==> totals.Keys <= r.value.Keys
  {
    if k > 0 {
      PassKeepsKeys(boxes, order, totals, k - 1);
    }
  }

  // ---------------------------------------------------------------- what one row contributes

  /** Where contributions go: kind and box. */
  ghost function Destinations(cs: seq<Contribution>): seq<(string, string)> {
    seq(|cs|, i requires 0 <= i < |cs| => (cs[i].kind, cs[i].boxId))
  }

  /** A sale contributes exactly to the boxes its code maps for sales, and a purchase to those for
      purchases, once each. */
  lemma RowGoesWhereItsCodeSays(pack: RulePack, t: Txn)
    requires t.vatCode in pack.codes
    ensures t.direction == AR ==> multiset(Destinations(ContributionsOf(pack, t))) == multiset(pack.codes[t.vatCode].ar)
    ensures t.direction == AP ==> multiset(Destinations(ContributionsOf(pack, t))) == multiset(pack.codes[t.vatCode].ap)
  {
    hide SortBy;
    var mapping := MappingFor(pack.codes[t.vatCode], t.direction);
    SortByFacts(mapping, Kind);
    assert Destinations(ContributionsOf(pack, t)) == SortBy(mapping, Kind);
  }

  /** Every contribution of a row names the row, its code and the code's citation. Its amount is the VAT of the
      invoice, under the VAT kinds; the VAT the buyer accounts for, which is the code's rate of the net amount
      to the nearest unit, when the charge is reversed; and the net amount under any other kind. */
  lemma RowAmounts(pack: RulePack, t: Txn, c: Contribution)
    requires c in ContributionsOf(pack, t)
    ensures t.vatCode in pack.codes && c.rowId == t.rowId && c.vatCode == t.vatCode
    ensures c.citationRef == pack.codes[t.vatCode].citationRef
    ensures c.kind == "output_vat" || (c.kind == "input_vat" && t.vatCode != "RC20") ==> c.amount == t.vat
    ensures c.kind == "reverse_charge_output_vat" || (c.kind == "input_vat" && t.vatCode == "RC20") ==>
              Rounding.Nearest(c.amount, Product(t.net, pack.codes[t.vatCode].rate), Rounding.Unit(pack.boxDp))
    ensures c.kind !in {"output_vat", "input_vat", "reverse_charge_output_vat"} ==> c.amount == t.net
  {
    hide SortBy, SelfAccounted, Product, Rounding.Nearest, Rounding.Unit;
    SelfAccountedRounds(t, pack.codes[t.vatCode], pack.boxDp);
  }

  lemma SelfAccountedRounds(t: Txn, rule: CodeRule, dp: int)
    ensures Rounding.Nearest(SelfAccounted(t, rule, dp), Product(t.net, rule.rate), Rounding.Unit(dp))
  {
    hide Rounding.Nearest, Rounding.Unit, Rounding.Quantize, Product;
    Rounding.QuantizeIsNearest(Product(t.net, rule.rate), Rounding.Unit(dp));
  }

  /** Under the reverse charge a row's input tax is its self-accounted output tax. */
  lemma ReverseChargeIsNeutral(pack: RulePack, t: Txn, output: Contribution, input: Contribution)
    requires t.vatCode == "RC20" && output in ContributionsOf(pack, t) && input in ContributionsOf(pack, t)
    requires output.kind == "reverse_charge_output_vat" && input.kind == "input_vat"
    ensures output.amount == input.amount
  {
    hide ContributionsOf, Rounding.Nearest, Product;
    RowAmounts(pack, t, output);
    RowAmounts(pack, t, input);
    var due, unit := Product(t.net, pack.codes[t.vatCode].rate), Rounding.Unit(pack.boxDp);
    Rounding.NearestIsUnique(output.amount, input.amount, due, unit);
  }

  /** Sums over a row's contributions are sums over its mapping. */
  lemma {:induction false} SumOfMapped(mapping: seq<(string, string)>, t: Txn, rule: CodeRule, dp: int,
                                       f: Contribution -> real, g: ((string, string)) -> real)
    requires forall m | m in mapping :: f(Contribute(m, t, rule, dp)) == g(m)
    ensures Sum(MappedContributions(mapping, t, rule, dp), f) == Sum(mapping, g)
  {
    hide Contribute;
    if mapping != [] {
      SumOfMapped(mapping[1..], t, rule, dp, f, g);
      var cs := MappedContributions(mapping, t, rule, dp);
      assert cs[1..] == MappedContributions(mapping[1..], t, rule, dp);
      assert cs[0] == Contribute(mapping[0], t, rule, dp);
    }
  }

  // ---------------------------------------------------------------- the order of the lineage

  /** Contributions stand in the order of their row ids, and those of one row in the order of their kinds. */
  ghost predicate InLineageOrder(cs: seq<Contribution>) {
    forall i, j | 0 <= i < j < |cs| ::
      UpTo(cs[i].rowId, cs[j].rowId) && (cs[i].rowId == cs[j].rowId ==> UpTo(cs[i].kind, cs[j].kind))
  }

  lemma RowInOrder(pack: RulePack, t: Txn)
    ensures InLineageOrder(ContributionsOf(pack, t))
    ensures forall c | c in ContributionsOf(pack, t) :: c.rowId == t.rowId
  {
    hide SortBy, UpTo;
    if t.vatCode in pack.codes {
      var mapping, cs := MappingFor(pack.codes[t.vatCode], t.direction), ContributionsOf(pack, t);
      LeTotal(t.rowId, t.rowId);
      LeIsCodePointOrder(t.rowId, t.rowId);
      forall i, j | 0 <= i < j < |cs|
        ensures UpTo(cs[i].kind, cs[j].kind)
      {
        SortByInOrder(mapping, Kind, i, j);
      }
    }
  }

  lemma {:induction false} LineageRows(pack: RulePack, rows: seq<Txn>)
    ensures forall c | c in Lineage(pack, rows) :: exists t :: t in rows && c.rowId == t.rowId
  {
    hide ContributionsOf;
    if rows != [] {
      LineageRows(pack, rows[1..]);
      RowInOrder(pack, rows[0]);
    }
  }

  lemma {:induction false} LineageOfSorted(pack: RulePack, rows: seq<Txn>)
    requires forall i, j | 0 <= i < j < |rows| :: UpTo(rows[i].rowId, rows[j].rowId) && rows[i].rowId != rows[j].rowId
    ensures InLineageOrder(Lineage(pack, rows))
  {
    hide ContributionsOf, UpTo;
    if rows != [] {
      var first, rest := ContributionsOf(pack, rows[0]), Lineage(pack, rows[1..]);
      RowInOrder(pack, rows[0]);
      LineageRows(pack, rows[1..]);
      LineageOfSorted(pack, rows[1..]);
      forall i, j | 0 <= i < |first| && 0 <= j < |rest|
        ensures UpTo(first[i].rowId, rest[j].rowId) && first[i].rowId != rest[j].rowId
      {
        assert first[i] in first && rest[j] in rest;
        var t :| t in rows[1..] && rest[j].rowId == t.rowId;
        var k :| 0 <= k < |rows[1..]| && rows[1..][k] == t;
        assert rows[k + 1] == t;
      }
    }
  }

  /** The lineage of rows with distinct ids is in order. */
  lemma LineageInOrder(pack: RulePack, txns: seq<Txn>)
    requires DistinctKeys(txns, RowId)
    ensures InLineageOrder(Lineage(pack, SortBy(txns, RowId)))
  {
    hide SortBy, UpTo, Lineage, InLineageOrder;
    SortKeepsDistinct(txns, RowId);
    var rows := SortBy(txns, RowId);
    forall i, j | 0 <= i < j < |rows|
      ensures UpTo(rows[i].rowId, rows[j].rowId) && rows[i].rowId != rows[j].rowId
    {
      SortByInOrder(txns, RowId, i, j);
      assert RowId(rows[i]) == rows[i].rowId && RowId(rows[j]) == rows[j].rowId;
    }
    LineageOfSorted(pack, rows);
  }

  // ---------------------------------------------------------------- lineage and order of rows

  ghost function TxnAmount(pack: RulePack, b: string): Txn -> real {
    (t: Txn) => Sum(ContributionsOf(pack, t), AmountIn(b))
  }

  lemma {:induction false} LineageSum(pack: RulePack, txns: seq<Txn>, b: string)
    ensures Sum(Lineage(pack, txns), AmountIn(b)) == Sum(txns, TxnAmount(pack, b))
  {
    if txns != [] {
      LineageSum(pack, txns[1..], b);
      SumConcat(ContributionsOf(pack, txns[0]), Lineage(pack, txns[1..]), AmountIn(b));
    }
  }

  /** Box totals do not depend on the order of the rows. */
  lemma TotalsPermute(pack: RulePack, xs: seq<Txn>, ys: seq<Txn>)
    requires multiset(xs) == multiset(ys)
    ensures PrimaryTotals(pack, xs) == PrimaryTotals(pack, ys)
  {
    hide Sum, Lineage;
    forall b | b in pack.boxes.defs
      ensures Sum(Lineage(pack, xs), AmountIn(b)) == Sum(Lineage(pack, ys), AmountIn(b))
    {
      LineageSum(pack, xs, b);
      LineageSum(pack, ys, b);
      SumPermutation(xs, ys, TxnAmount(pack, b));
    }
  }

  lemma TotalsOfSorted(pack: RulePack, txns: seq<Txn>)
    ensures PrimaryTotals(pack, SortBy(txns, RowId)) == PrimaryTotals(pack, txns)
  {
    SortByFacts(txns, RowId);
    TotalsPermute(pack, SortBy(txns, RowId), txns);
  }

  /** The rows whose code the pack knows. */
  function Known(pack: RulePack, txns: seq<Txn>): seq<Txn> {
    if txns == [] then []
    else (if txns[0].vatCode in pack.codes then [txns[0]] else []) + Known(pack, txns[1..])
  }

  lemma {:induction false} KnownMembers(pack: RulePack, txns: seq<Txn>)
    ensures forall t :: t in Known(pack, txns) <==> t in txns && t.vatCode in pack.codes
  {
    if txns != [] {
      KnownMembers(pack, txns[1..]);
    }
  }

  lemma KnownCons(pack: RulePack, t: Txn, ts: seq<Txn>)
    ensures Known(pack, [t] + ts) == (if t.vatCode in pack.codes then [t] else []) + Known(pack, ts)
  {
    assert ([t] + ts)[1..] == ts;
  }

  lemma InsertStep(t: Txn, rows: seq<Txn>)
    ensures rows == [] ==> Insert(t, rows, RowId) == [t]
    ensures rows != [] && Le(RowId(t), RowId(rows[0])) ==> Insert(t, rows, RowId) == [t] + rows
    ensures rows != [] && !Le(RowId(t), RowId(rows[0])) ==> Insert(t, rows, RowId) == [rows[0]] + Insert(t, rows[1..], RowId)
  {
    hide Le;
  }

  /** A row that comes first among the sorted rows comes first among the known ones. */
  lemma KnownFirst(pack: RulePack, t: Txn, rows: seq<Txn>)
    requires Ascending(rows, RowId) && (rows != [] ==> Le(RowId(t), RowId(rows[0])))
    ensures Insert(t, Known(pack, rows), RowId) == [t] + Known(pack, rows)
  {
    hide Le, Insert, Ascending, Known;
    var known := Known(pack, rows);
    KnownMembers(pack, rows);
    InsertStep(t, known);
    if known != [] {
      assert known[0] in rows;
      SmallestFirst(rows, RowId, known[0]);
      LeTransitive(RowId(t), RowId(rows[0]), RowId(known[0]));
    }
  }

  /** Inserting among sorted rows and dropping the unknown ones commute. */
  lemma {:induction false} KnownInsert(pack: RulePack, t: Txn, rows: seq<Txn>)
    requires Ascending(rows, RowId)
    ensures Known(pack, Insert(t, rows, RowId))
         == if t.vatCode in pack.codes then Insert(t, Known(pack, rows), RowId) else Known(pack, rows)
  {
    hide Ascending, Le, Insert, Known;
    InsertStep(t, rows);
    if rows == [] || Le(RowId(t), RowId(rows[0])) {
      assert rows == [] ==> [t] + rows == [t];
      KnownCons(pack, t, rows);
      KnownFirst(pack, t, rows);
      assert [] + Known(pack, rows) == Known(pack, rows);
    } else {
      TailFacts(rows, RowId);
      KnownInsert(pack, t, rows[1..]);
      var rest := Known(pack, rows[1..]);
      KnownCons(pack, rows[0], Insert(t, rows[1..], RowId));
      assert rows == [rows[0]] + rows[1..];
      KnownCons(pack, rows[0], rows[1..]);
      if rows[0].vatCode in pack.codes {
        InsertStep(t, [rows[0]] + rest);
        assert ([rows[0]] + rest)[1..] == rest;
      } else {
        assert [] + rest == rest && [] + Insert(t, rest, RowId) == Insert(t, rest, RowId);
      }
    }
  }

  lemma {:induction false} KnownSorted(pack: RulePack, txns: seq<Txn>)
    ensures Known(pack, SortBy(txns, RowId)) == SortBy(Known(pack, txns), RowId)
  {
    hide Insert, Le, Known, Ascending;
    if txns == [] {
      NothingKnown(pack);
    } else {
      var t, rest := txns[0], txns[1..];
      KnownSorted(pack, rest);
      SortByFacts(rest, RowId);
      KnownInsert(pack, t, SortBy(rest, RowId));
      assert txns == [t] + rest;
      KnownCons(pack, t, rest);
      if t.vatCode in pack.codes {
        assert ([t] + Known(pack, rest))[1..] == Known(pack, rest);
      } else {
        assert [] + Known(pack, rest) == Known(pack, rest);
      }
    }
  }

  lemma NothingKnown(pack: RulePack)
    ensures Known(pack, []) == []
  {
  }

  lemma {:induction false} LineageOfKnown(pack: RulePack, txns: seq<Txn>)
    ensures Lineage(pack, txns) == Lineage(pack, Known(pack, txns))
  {
    if txns != [] {
      LineageOfKnown(pack, txns[1..]);
      var t, rest := txns[0], Known(pack, txns[1..]);
      if t.vatCode in pack.codes {
        assert ([t] + rest)[1..] == rest;
      } else {
        UnknownContributesNothing(pack, t);
        assert [] + rest == rest;
      }
    }
  }

  /** Rows with unknown codes leave no trace but in the list of those codes: the lineage and the totals are
      those of the other rows. */
  lemma OnlyKnownRowsCount(pack: RulePack, txns: seq<Txn>)
    ensures Lineage(pack, SortBy(txns, RowId)) == Lineage(pack, SortBy(Known(pack, txns), RowId))
    ensures PrimaryTotals(pack, txns) == PrimaryTotals(pack, Known(pack, txns))
    ensures UnmappedCodes(pack, Known(pack, txns)) == {}
  {
    hide SortBy, Sum;
    LineageOfKnown(pack, txns);
    LineageOfKnown(pack, SortBy(txns, RowId));
    KnownSorted(pack, txns);
    KnownMembers(pack, txns);
  }

  /** With distinct row ids the whole lineage, not only the totals, forgets the order of the rows. */
  lemma LineagePermutes(pack: RulePack, xs: seq<Txn>, ys: seq<Txn>)
    requires multiset(xs) == multiset(ys) && KeyDetermines(xs, RowId)
    ensures Lineage(pack, SortBy(xs, RowId)) == Lineage(pack, SortBy(ys, RowId))
  {
    SortByPermutation(xs, ys, RowId);
  }

  /** Primary totals add up over concatenated lists of rows. */
  lemma TotalsAdd(pack: RulePack, xs: seq<Txn>, ys: seq<Txn>, b: string)
    requires b in pack.boxes.defs
    ensures PrimaryTotals(pack, xs + ys)[b] == PrimaryTotals(pack, xs)[b] + PrimaryTotals(pack, ys)[b]
  {
    LineageConcat(pack, xs, ys);
    SumConcat(Lineage(pack, xs), Lineage(pack, ys), AmountIn(b));
  }

  ghost function AmountOf(): Contribution -> real {
    (c: Contribution) => c.amount
  }

  /** Summing the contributions listed for a box gives the box's share of all contributions. */
  lemma {:induction false} ContributionsForSum(cs: seq<Contribution>, b: string)
    ensures Sum(ContributionsFor(cs, b), AmountOf()) == Sum(cs, AmountIn(b))
  {
    if cs != [] {
      ContributionsForSum(cs[1..], b);
      var here: seq<Contribution> := if cs[0].boxId == b then [cs[0]] else [];
      SumConcat(here, ContributionsFor(cs[1..], b), AmountOf());
      if cs[0].boxId == b {
        SumSingle(cs[0], AmountOf());
      } else {
        SumEmpty(AmountOf());
      }
    }
  }

  /** A primary box's exact value is the sum of the contributions listed for it. */
  lemma PrimaryBoxIsItsLineage(pack: RulePack, txns: seq<Txn>, values: Totals, b: string)
    requires Solves(pack.boxes, PrimaryTotals(pack, txns), values)
    requires b in pack.boxes.defs && !pack.boxes.Derived(b)
    ensures b in values
    ensures values[b] == Sum(ContributionsFor(Lineage(pack, SortBy(txns, RowId)), b), AmountOf())
  {
    hide Sum, SortBy;
    TotalsOfSorted(pack, txns);
    ContributionsForSum(Lineage(pack, SortBy(txns, RowId)), b);
    assert PrimaryTotals(pack, txns)[b] == PrimaryTotals(pack, SortBy(txns, RowId))[b];
  }

  // ---------------------------------------------------------------- no row is ignored

  /** Every row either has its code reported as unknown, or its code is one of the pack's and its contributions are
      in the lineage; and nothing else is reported. */
  lemma NoRowIsIgnored(pack: RulePack, txns: seq<Txn>, values: Totals, result: ComputationResult)
    requires Reports(pack, txns, values, result)
    ensures forall t | t in txns :: t.vatCode in result.unmappedCodes <==> t.vatCode !in pack.codes
    ensures forall c | c in result.unmappedCodes :: exists t :: t in txns && t.vatCode == c
    ensures forall t, c | t in txns && c in ContributionsOf(pack, t) :: c in result.contributions
  {
    hide ContributionsOf, SortBy, PublishesBox, StrictlyAscending;
    SortByMembers(txns, RowId);
    LineageHolds(pack, SortBy(txns, RowId));
  }

  lemma {:induction false} LineageHolds(pack: RulePack, rows: seq<Txn>)
    ensures forall t, c | t in rows && c in ContributionsOf(pack, t) :: c in Lineage(pack, rows)
  {
    hide ContributionsOf;
    if rows != [] {
      LineageHolds(pack, rows[1..]);
      assert rows == [rows[0]] + rows[1..];
    }
  }

  // ---------------------------------------------------------------- the published boxes

  ghost function OneIn(b: string): Contribution -> real {
    (c: Contribution) => if c.boxId == b then 1.0 else 0.0
  }

  lemma {:induction false} CountIsSum(cs: seq<Contribution>, b: string)
    ensures |ContributionsFor(cs, b)| as real == Sum(cs, OneIn(b))
  {
    if cs != [] {
      CountIsSum(cs[1..], b);
    }
  }

  /** A reported box stands under its own id, with the title and kind of its definition, counts the entries of the
      lineage that name it, and shows its value to the nearest unit, or that figure to the nearest pound. */
  lemma ReportedBox(pack: RulePack, txns: seq<Txn>, values: Totals, result: ComputationResult, b: string)
    requires Reports(pack, txns, values, result) && b in result.boxes
    ensures b in pack.boxes.defs && b in values
    ensures var box, definition := result.boxes[b], pack.boxes.defs[b];
            && box.boxId == b && box.title == definition.title && (box.derived <==> pack.boxes.Derived(b))
            && box.contributionCount as real == Sum(result.contributions, OneIn(b))
            && exists figure ::
                 && Rounding.Nearest(figure, values[b], Rounding.Unit(pack.boxDp))
                 && if definition.wholePounds then Rounding.Nearest(box.value, figure, 1.0) else box.value == figure
  {
    hide Sum, Lineage, SortBy, Rounding.Nearest, Rounding.Unit, Rounding.Publish, ContributionsFor, StrictlyAscending;
    assert PublishesBox(pack, b, values[b], result.contributions, result.boxes[b]);
    CountIsSum(result.contributions, b);
    Rounding.PublishRounds(values[b], pack.boxDp);
    var figure := Rounding.Publish(values[b], pack.boxDp, false);
    assert Rounding.Nearest(figure, values[b], Rounding.Unit(pack.boxDp));
    assert Rounding.Nearest(Rounding.Publish(values[b], pack.boxDp, true), figure, 1.0);
  }
}
