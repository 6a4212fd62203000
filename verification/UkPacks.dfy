/** The two rule packs shipped with the engine, uk-vat and uk-corporation-tax 1.0.0: what each box of a return
    comes to for any list of transactions. */
module UkPacks {
  import opened Wrappers
  import opened RealSums
  import opened Formula
  import opened Pack
  import opened Derivation
  import opened Engine
  import opened StringOrder
  import Rounding

  ghost predicate Maps(pack: RulePack, code: string, ar: seq<(string, string)>, ap: seq<(string, string)>) {
    code in pack.codes && pack.codes[code].ar == ar && pack.codes[code].ap == ap
  }

  ghost predicate Primary(pack: RulePack, b: string) {
    b in pack.boxes.defs && !pack.boxes.Derived(b)
  }

  ghost predicate DerivedBy(pack: RulePack, b: string, node: Node) {
    pack.boxes.Derived(b) && pack.boxes.defs[b].formula == Parsed(node)
  }

  // ---------------------------------------------------------------- the formulas

  /** The VAT pack's formulas, evaluated. */
  lemma VatFormulas(values: Totals)
    requires {"box_1", "box_2", "box_3", "box_4"} <= values.Keys
    ensures Eval(BinOp(Add, Name("box_1"), Name("box_2")), values) == Ok(values["box_1"] + values["box_2"])
    ensures Eval(Call(Name(ABS), [BinOp(Sub, Name("box_3"), Name("box_4"))], []), values)
         == Ok(Magnitude(values["box_3"] - values["box_4"]))
  {
    var net := BinOp(Sub, Name("box_3"), Name("box_4"));
    assert Eval(net, values) == Ok(values["box_3"] - values["box_4"]);
    assert Eval(Call(Name(ABS), [net], []), values) == Ok(Magnitude(values["box_3"] - values["box_4"]));
  }

  /** The corporation tax pack's formulas, evaluated. */
  lemma CorporationTaxFormulas(values: Totals)
    requires {"box_pbt", "box_addbacks", "box_deductions", "box_ttp"} <= values.Keys
    ensures Eval(BinOp(Sub, BinOp(Add, Name("box_pbt"), Name("box_addbacks")), Name("box_deductions")), values)
         == Ok(values["box_pbt"] + values["box_addbacks"] - values["box_deductions"])
    ensures Eval(BinOp(Mult, Name("box_ttp"), Constant(FloatLit(0.25))), values) == Ok(0.25 * values["box_ttp"])
  {
    var grossed := BinOp(Add, Name("box_pbt"), Name("box_addbacks"));
    assert Eval(grossed, values) == Ok(values["box_pbt"] + values["box_addbacks"]);
    assert Eval(BinOp(Sub, grossed, Name("box_deductions")), values)
        == Ok(values["box_pbt"] + values["box_addbacks"] - values["box_deductions"]);
  }

  // ---------------------------------------------------------------- sums over one row

  /** What a mapped pair adds to box b. */
  ghost function Adds(t: Txn, rule: CodeRule, dp: int, b: string): ((string, string)) -> real {
    (m: (string, string)) => if m.1 == b then Amount(m.0, t, rule, dp) else 0.0
  }

  lemma RowSum(pack: RulePack, t: Txn, b: string)
    requires t.vatCode in pack.codes
    ensures var rule := pack.codes[t.vatCode];
            Sum(ContributionsOf(pack, t), AmountIn(b)) == Sum(MappingFor(rule, t.direction), Adds(t, rule, pack.boxDp, b))
  {
    hide Sum, SortBy, Amount;
    var rule := pack.codes[t.vatCode];
    var mapping := MappingFor(rule, t.direction);
    SortByFacts(mapping, Kind);
    SumOfMapped(SortBy(mapping, Kind), t, rule, pack.boxDp, AmountIn(b), Adds(t, rule, pack.boxDp, b));
    SumPermutation(SortBy(mapping, Kind), mapping, Adds(t, rule, pack.boxDp, b));
  }

  lemma SumUpToThree<T>(xs: seq<T>, f: T -> real)
    requires |xs| <= 3
    ensures Sum(xs, f) == (if |xs| > 0 then f(xs[0]) else 0.0) + (if |xs| > 1 then f(xs[1]) else 0.0)
                        + (if |xs| > 2 then f(xs[2]) else 0.0)
  {
    if |xs| > 0 {
      assert |xs| > 1 ==> xs[1..][0] == xs[1];
      assert |xs| > 2 ==> xs[1..][1..][0] == xs[2];
    }
  }

  // ---------------------------------------------------------------- uk-vat

  const VAT_SALES: seq<(string, string)> := [("output_vat", "box_1"), ("net_sales", "box_6")]
  const VAT_PURCHASES: seq<(string, string)> := [("input_vat", "box_4"), ("net_purchases", "box_7")]
  const REVERSE_CHARGE: seq<(string, string)> :=
    [("reverse_charge_output_vat", "box_1"), ("input_vat", "box_4"), ("net_purchases", "box_7")]

  ghost predicate IsUkVat(pack: RulePack) {
    && pack.boxDp == 2
    && pack.codes.Keys == {"S20", "R05", "Z00", "E00", "O00", "RC20"}
    && Maps(pack, "S20", VAT_SALES, VAT_PURCHASES)
    && Maps(pack, "R05", VAT_SALES, VAT_PURCHASES)
    && Maps(pack, "Z00", VAT_SALES, VAT_PURCHASES)
    && Maps(pack, "E00", [("net_sales", "box_6")], [("net_purchases", "box_7")])
    && Maps(pack, "O00", [], [])
    && Maps(pack, "RC20", [("net_sales", "box_6")], REVERSE_CHARGE)
    && pack.codes["RC20"].rate == 0.20
    && Primary(pack, "box_1") && Primary(pack, "box_2") && Primary(pack, "box_4")
    && Primary(pack, "box_6") && Primary(pack, "box_7")
    && DerivedBy(pack, "box_3", BinOp(Add, Name("box_1"), Name("box_2")))
    && DerivedBy(pack, "box_5", Call(Name(ABS), [BinOp(Sub, Name("box_3"), Name("box_4"))], []))
  }

  /** The codes whose invoices carry VAT, if at no rate. */
  predicate Taxable(code: string) {
    code == "S20" || code == "R05" || code == "Z00"
  }

  /** The VAT a reverse-charge purchase is accounted for with: twenty per cent of its net amount, to the penny. */
  function ReverseCharge(t: Txn): real {
    Rounding.Quantize(Product(t.net, 0.20), Rounding.Unit(2))
  }

  predicate InReturn(code: string) {
    Taxable(code) || code == "E00" || code == "RC20"
  }

  /** VAT due on a row: the VAT of a sale, and what a reverse-charge purchase is accounted for with. */
  function OutputTax(t: Txn): real {
    if t.direction == AR && Taxable(t.vatCode) then t.vat
    else if t.direction == AP && t.vatCode == "RC20" then ReverseCharge(t)
    else 0.0
  }

  /** VAT reclaimed on a row: that of a purchase, and again what a reverse charge is accounted for with. */
  function InputTax(t: Txn): real {
    if t.direction == AP && Taxable(t.vatCode) then t.vat
    else if t.direction == AP && t.vatCode == "RC20" then ReverseCharge(t)
    else 0.0
  }

  /** What a row adds to each box. */
  function VatShare(t: Txn, b: string): real {
    if b == "box_1" then OutputTax(t)
    else if b == "box_4" then InputTax(t)
    else if b == "box_6" then (if t.direction == AR && InReturn(t.vatCode) then t.net else 0.0)
    else if b == "box_7" then (if t.direction == AP && InReturn(t.vatCode) then t.net else 0.0)
    else 0.0
  }

  ghost function Shares(b: string): Txn -> real {
    (t: Txn) => VatShare(t, b)
  }

  lemma CodeNames()
    ensures "S20" != "R05" && "S20" != "Z00" && "S20" != "E00" && "S20" != "O00" && "R05" != "Z00" && "R05" != "E00"
    ensures "R05" != "O00" && "Z00" != "E00" && "Z00" != "O00" && "E00" != "O00"
    ensures |"S20"| == |"R05"| == |"Z00"| == |"E00"| == |"O00"| == 3 && |"RC20"| == 4
  {
    assert "S20"[0] == 'S' && "R05"[0] == 'R' && "Z00"[0] == 'Z' && "E00"[0] == 'E' && "O00"[0] == 'O';
  }

  lemma BoxNames()
    ensures "box_1" != "box_4" && "box_1" != "box_6" && "box_1" != "box_7" && "box_4" != "box_6" && "box_4" != "box_7"
    ensures "box_6" != "box_7"
  {
    assert "box_1"[4] == '1' && "box_4"[4] == '4' && "box_6"[4] == '6' && "box_7"[4] == '7';
  }

  /** The kinds in the packs, and the amount each takes. */
  lemma KindAmounts(t: Txn, rule: CodeRule, dp: int)
    ensures Amount("output_vat", t, rule, dp) == t.vat
    ensures Amount("net_sales", t, rule, dp) == t.net && Amount("net_purchases", t, rule, dp) == t.net
    ensures Amount("input_vat", t, rule, dp) == if t.vatCode == "RC20" then SelfAccounted(t, rule, dp) else t.vat
    ensures Amount("reverse_charge_output_vat", t, rule, dp) == SelfAccounted(t, rule, dp)
    ensures Amount("accounting_profit", t, rule, dp) == Amount("add_back", t, rule, dp) == Amount("relief", t, rule, dp) == t.net
  {
    hide SelfAccounted;
    assert |"output_vat"| == 10 && |"net_sales"| == 9 && |"input_vat"| == 9 && |"net_purchases"| == 13
        && |"reverse_charge_output_vat"| == 25 && |"accounting_profit"| == 17 && |"add_back"| == 8 && |"relief"| == 6;
    assert "net_sales"[0] == 'n' && "input_vat"[0] == 'i';
  }

  /** What the pack's mappings add, for a row with any code but the reverse charge, and for one with it. */
  lemma TaxedMappings(t: Txn, rule: CodeRule, b: string)
    requires t.vatCode != "RC20"
    ensures Sum(VAT_SALES, Adds(t, rule, 2, b)) == if b == "box_1" then t.vat else if b == "box_6" then t.net else 0.0
    ensures Sum(VAT_PURCHASES, Adds(t, rule, 2, b)) == if b == "box_4" then t.vat else if b == "box_7" then t.net else 0.0
  {
    hide Sum, Amount;
    BoxNames();
    KindAmounts(t, rule, 2);
    SumUpToThree(VAT_SALES, Adds(t, rule, 2, b));
    SumUpToThree(VAT_PURCHASES, Adds(t, rule, 2, b));
  }

  lemma UntaxedMappings(t: Txn, rule: CodeRule, b: string)
    ensures Sum([("net_sales", "box_6")], Adds(t, rule, 2, b)) == if b == "box_6" then t.net else 0.0
    ensures Sum([("net_purchases", "box_7")], Adds(t, rule, 2, b)) == if b == "box_7" then t.net else 0.0
    ensures Sum([], Adds(t, rule, 2, b)) == 0.0
  {
    hide Amount;
    KindAmounts(t, rule, 2);
    SumSingle(("net_sales", "box_6"), Adds(t, rule, 2, b));
    SumSingle(("net_purchases", "box_7"), Adds(t, rule, 2, b));
  }

  lemma ReverseMapping(t: Txn, rule: CodeRule, b: string)
    requires t.vatCode == "RC20" && rule.rate == 0.20
    ensures Sum(REVERSE_CHARGE, Adds(t, rule, 2, b))
         == if b == "box_1" || b == "box_4" then ReverseCharge(t) else if b == "box_7" then t.net else 0.0
  {
    hide Sum, Amount, ReverseCharge, SelfAccounted;
    BoxNames();
    KindAmounts(t, rule, 2);
    SameCharge(t, rule);
    SumUpToThree(REVERSE_CHARGE, Adds(t, rule, 2, b));
  }

  /** What one row adds to each box of a VAT return. */
  lemma VatRow(pack: RulePack, t: Txn, b: string)
    requires IsUkVat(pack)
    ensures Sum(ContributionsOf(pack, t), AmountIn(b)) == VatShare(t, b)
  {
    hide Sum, ContributionsOf, Amount, Adds, ReverseCharge, SelfAccounted, AmountIn;
    CodeNames();
    BoxNames();
    if t.vatCode in pack.codes {
      var rule := pack.codes[t.vatCode];
      RowSum(pack, t, b);
      UntaxedMappings(t, rule, b);
      if t.vatCode == "RC20" {
        ReverseMapping(t, rule, b);
      } else {
        TaxedMappings(t, rule, b);
      }
    } else {
      UnknownContributesNothing(pack, t);
      SumEmpty(AmountIn(b));
    }
  }

  lemma SameCharge(t: Txn, rule: CodeRule)
    requires rule.rate == 0.20
    ensures SelfAccounted(t, rule, 2) == ReverseCharge(t)
  {
    hide Rounding.Quantize;
  }

  lemma SharesOf(txns: seq<Txn>, b: string, t: Txn)
    ensures Shares(b)(t) == VatShare(t, b)
    ensures Sum(txns + [t], Shares(b)) == Sum(txns, Shares(b)) + VatShare(t, b)
  {
    SumSnoc(txns, t, Shares(b));
  }

  lemma VatTotal(pack: RulePack, txns: seq<Txn>, b: string)
    requires IsUkVat(pack) && b in pack.boxes.defs
    ensures PrimaryTotals(pack, txns)[b] == Sum(txns, Shares(b))
  {
    hide Sum, ContributionsOf, Lineage, VatShare, IsUkVat;
    LineageSum(pack, txns, b);
    forall t | t in txns
      ensures TxnAmount(pack, b)(t) == Shares(b)(t)
    {
      VatRow(pack, t, b);
    }
    SumCongruence(txns, TxnAmount(pack, b), Shares(b));
  }

  /** The boxes of a VAT return, for any transactions: VAT due and reclaimed, sales and purchases are the sums of
      what the rows add, and the net VAT is the difference of the first two without its sign. */
  lemma VatReturn(pack: RulePack, txns: seq<Txn>, values: Totals)
    requires IsUkVat(pack) && Solves(pack.boxes, PrimaryTotals(pack, txns), values)
    ensures {"box_1", "box_2", "box_3", "box_4", "box_5", "box_6", "box_7"} <= values.Keys
    ensures values["box_1"] == Sum(txns, Shares("box_1")) && values["box_4"] == Sum(txns, Shares("box_4"))
    ensures values["box_6"] == Sum(txns, Shares("box_6")) && values["box_7"] == Sum(txns, Shares("box_7"))
    ensures values["box_3"] == values["box_1"]
    ensures values["box_5"] == Magnitude(values["box_1"] - values["box_4"])
  {
    hide Sum, PrimaryTotals, Eval, Magnitude;
    VatFormulas(values);
    forall b | Primary(pack, b)
      ensures b in values && values[b] == Sum(txns, Shares(b))
    {
      VatTotal(pack, txns, b);
    }
    NothingInBox2(txns);
    assert FormulaValue(pack.boxes, "box_3", values) == Ok(values["box_3"]);
    assert FormulaValue(pack.boxes, "box_5", values) == Ok(values["box_5"]);
  }

  lemma {:induction false} NothingInBox2(txns: seq<Txn>)
    ensures Sum(txns, Shares("box_2")) == 0.0
  {
    assert "box_2"[4] == '2' && "box_1"[4] == '1' && "box_4"[4] == '4' && "box_6"[4] == '6' && "box_7"[4] == '7';
    if txns != [] {
      NothingInBox2(txns[1..]);
    }
  }

  /** The reverse charge is self-cancelling: one more such purchase raises VAT due and VAT reclaimed alike, by
      twenty per cent of its net amount to the penny, and leaves the net VAT as it was. */
  lemma ReverseChargeCancels(pack: RulePack, txns: seq<Txn>, t: Txn, before: Totals, after: Totals)
    requires IsUkVat(pack) && t.vatCode == "RC20" && t.direction == AP
    requires Solves(pack.boxes, PrimaryTotals(pack, txns), before)
    requires Solves(pack.boxes, PrimaryTotals(pack, txns + [t]), after)
    ensures {"box_1", "box_4", "box_5", "box_6", "box_7"} <= before.Keys && {"box_1", "box_4", "box_5", "box_6", "box_7"} <= after.Keys
    ensures after["box_1"] == before["box_1"] + ReverseCharge(t) && after["box_4"] == before["box_4"] + ReverseCharge(t)
    ensures Rounding.Nearest(ReverseCharge(t), Product(t.net, 0.20), Rounding.Unit(2))
    ensures after["box_5"] == before["box_5"]
    ensures after["box_6"] == before["box_6"] && after["box_7"] == before["box_7"] + t.net
  {
    hide Sum, PrimaryTotals, IsUkVat, Solves, Rounding.Nearest, Rounding.Quantize, Rounding.Unit, Product, Magnitude, Shares;
    VatReturn(pack, txns, before);
    VatReturn(pack, txns + [t], after);
    CodeNames();
    BoxNames();
    SharesOf(txns, "box_1", t);
    SharesOf(txns, "box_4", t);
    SharesOf(txns, "box_6", t);
    SharesOf(txns, "box_7", t);
    Rounding.QuantizeIsNearest(Product(t.net, 0.20), Rounding.Unit(2));
  }

  // ---------------------------------------------------------------- uk-corporation-tax

  ghost predicate IsUkCorporationTax(pack: RulePack) {
    && pack.codes.Keys == {"PBT", "DEP", "ENT", "CAP", "RDE"}
    && Maps(pack, "PBT", [], [("accounting_profit", "box_pbt")])
    && Maps(pack, "DEP", [], [("add_back", "box_addbacks")])
    && Maps(pack, "ENT", [], [("add_back", "box_addbacks")])
    && Maps(pack, "CAP", [], [("relief", "box_deductions")])
    && Maps(pack, "RDE", [], [("relief", "box_deductions")])
    && Primary(pack, "box_pbt") && Primary(pack, "box_addbacks") && Primary(pack, "box_deductions")
    && DerivedBy(pack, "box_ttp", BinOp(Sub, BinOp(Add, Name("box_pbt"), Name("box_addbacks")), Name("box_deductions")))
    && DerivedBy(pack, "box_ct", BinOp(Mult, Name("box_ttp"), Constant(FloatLit(0.25))))
  }

  /** The net amount of an adjustment under one of two codes. */
  ghost function NetUnder(code: string, other: string): Txn -> real {
    (t: Txn) => if t.direction == AP && (t.vatCode == code || t.vatCode == other) then t.net else 0.0
  }

  lemma AdjustmentNames()
    ensures "PBT" != "DEP" && "PBT" != "ENT" && "PBT" != "CAP" && "PBT" != "RDE" && "DEP" != "ENT" && "DEP" != "CAP"
    ensures "DEP" != "RDE" && "ENT" != "CAP" && "ENT" != "RDE" && "CAP" != "RDE"
    ensures |"box_pbt"| == 7 && |"box_addbacks"| == 12 && |"box_deductions"| == 14
  {
    assert "PBT"[0] == 'P' && "DEP"[0] == 'D' && "ENT"[0] == 'E' && "CAP"[0] == 'C' && "RDE"[0] == 'R';
  }

  lemma AdjustmentRow(pack: RulePack, t: Txn)
    requires IsUkCorporationTax(pack)
    ensures Sum(ContributionsOf(pack, t), AmountIn("box_pbt")) == NetUnder("PBT", "PBT")(t)
    ensures Sum(ContributionsOf(pack, t), AmountIn("box_addbacks")) == NetUnder("DEP", "ENT")(t)
    ensures Sum(ContributionsOf(pack, t), AmountIn("box_deductions")) == NetUnder("CAP", "RDE")(t)
  {
    hide Sum, ContributionsOf, Amount;
    AdjustmentNames();
    forall b
      ensures t.vatCode in pack.codes ==>
                var mapping := MappingFor(pack.codes[t.vatCode], t.direction);
                Sum(ContributionsOf(pack, t), AmountIn(b)) == if mapping != [] && mapping[0].1 == b then t.net else 0.0
      ensures t.vatCode !in pack.codes ==> Sum(ContributionsOf(pack, t), AmountIn(b)) == 0.0
    {
      if t.vatCode in pack.codes {
        var rule := pack.codes[t.vatCode];
        RowSum(pack, t, b);
        KindAmounts(t, rule, pack.boxDp);
        SumUpToThree(MappingFor(rule, t.direction), Adds(t, rule, pack.boxDp, b));
      } else {
        UnknownContributesNothing(pack, t);
        SumEmpty(AmountIn(b));
      }
    }
  }

  lemma AdjustmentTotal(pack: RulePack, txns: seq<Txn>, b: string, share: Txn -> real)
    requires b in pack.boxes.defs && forall t :: Sum(ContributionsOf(pack, t), AmountIn(b)) == share(t)
    ensures PrimaryTotals(pack, txns)[b] == Sum(txns, share)
  {
    hide Sum, ContributionsOf, Lineage;
    LineageSum(pack, txns, b);
    SumCongruence(txns, TxnAmount(pack, b), share);
  }

  /** The corporation tax of any list of adjustments is a quarter of the profit before tax plus the amounts added
      back less the reliefs. */
  lemma CorporationTax(pack: RulePack, txns: seq<Txn>, values: Totals)
    requires IsUkCorporationTax(pack) && Solves(pack.boxes, PrimaryTotals(pack, txns), values)
    ensures "box_ttp" in values && "box_ct" in values
    ensures values["box_ttp"] == Sum(txns, NetUnder("PBT", "PBT")) + Sum(txns, NetUnder("DEP", "ENT")) - Sum(txns, NetUnder("CAP", "RDE"))
    ensures values["box_ct"] == 0.25 * values["box_ttp"]
  {
    hide Sum, PrimaryTotals, ContributionsOf, Eval;
    CorporationTaxFormulas(values);
    forall t
      ensures Sum(ContributionsOf(pack, t), AmountIn("box_pbt")) == NetUnder("PBT", "PBT")(t)
      ensures Sum(ContributionsOf(pack, t), AmountIn("box_addbacks")) == NetUnder("DEP", "ENT")(t)
      ensures Sum(ContributionsOf(pack, t), AmountIn("box_deductions")) == NetUnder("CAP", "RDE")(t)
    {
      AdjustmentRow(pack, t);
    }
    AdjustmentTotal(pack, txns, "box_pbt", NetUnder("PBT", "PBT"));
    AdjustmentTotal(pack, txns, "box_addbacks", NetUnder("DEP", "ENT"));
    AdjustmentTotal(pack, txns, "box_deductions", NetUnder("CAP", "RDE"));
    assert FormulaValue(pack.boxes, "box_ttp", values) == Ok(values["box_ttp"]);
    assert FormulaValue(pack.boxes, "box_ct", values) == Ok(values["box_ct"]);
  }
}
