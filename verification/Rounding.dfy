/** Rounding of published figures, after _quantize in compliance/engine.py: to a decimal unit, halves
    away from zero, and how far published figures can stray from the formulas. */
module Rounding {
  import opened Wrappers
  import opened Formula

  function Pow10(n: nat): (r: real)
    ensures r > 0.0
  {
    if n == 0 then 1.0 else 10.0 * Pow10(n - 1)
  }

  /** The last decimal place kept: 1 scaled by -dp. */
  function Unit(dp: int): (r: real)
    ensures r > 0.0
  {
    if dp >= 0 then 1.0 / Pow10(dp) else Pow10(-dp)
  }

  /** The unit of no places is one, and each place more makes it ten times smaller. */
  lemma UnitIsDecimal(dp: int)
    ensures Unit(0) == 1.0
    ensures 10.0 * Unit(dp + 1) == Unit(dp)
  {
    if dp >= 0 {
      Reciprocal(Pow10(dp));
    }
  }

  lemma Reciprocal(p: real)
    requires p > 0.0
    ensures 10.0 * (1.0 / (10.0 * p)) == 1.0 / p
  {
    var a, b := 1.0 / p, 1.0 / (10.0 * p);
    assert a * p == 1.0 && b * (10.0 * p) == 1.0;
    assert (10.0 * b - a) * p == 0.0;
  }

  /** The nearest integer, halves away from zero. */
  function RoundHalfUp(x: real): (k: int)
    ensures -0.5 <= x - k as real <= 0.5
    ensures x == x.Floor as real ==> k == x.Floor
    ensures x - x.Floor as real == 0.5 ==> (if x > 0.0 then k == x.Floor + 1 else k == x.Floor)
  {
    if x >= 0.0 then (x + 0.5).Floor else -((0.5 - x).Floor)
  }

  function Quantize(x: real, unit: real): real
    requires unit > 0.0
  {
    Times(RoundHalfUp(x / unit), unit)
  }

  ghost predicate Multiple(x: real, unit: real) {
    exists k: int :: Times(k, unit) == x
  }

  function Times(k: int, unit: real): real {
    k as real * unit
  }

  ghost function Distance(x: real, y: real): (d: real)
    ensures d >= 0.0
  {
    if x < y then y - x else x - y
  }

  /** Quantizing moves a figure by at most half a unit, lands on a multiple of the unit, and does not
      move a multiple at all. */
  lemma QuantizeBound(x: real, unit: real)
    requires unit > 0.0
    ensures Distance(Quantize(x, unit), x) <= 0.5 * unit
    ensures Multiple(Quantize(x, unit), unit)
    ensures Multiple(x, unit) ==> Quantize(x, unit) == x
  {
    hide Times, Gap;
    var q := x / unit;
    var k := RoundHalfUp(q);
    QuotientTimes(x, unit);
    GapScales(x, q, k, unit);
    GapIsSmall(q, k, unit);
    if Multiple(x, unit) {
      var j :| Times(j, unit) == x;
      CancelUnit(q, j, unit);
      assert q.Floor == j && k == j;
    }
  }

  lemma QuotientTimes(x: real, unit: real)
    requires unit > 0.0
    ensures x / unit * unit == x
  {
  }

  ghost function Gap(q: real, k: int, unit: real): real {
    (q - k as real) * unit
  }

  lemma GapScales(x: real, q: real, k: int, unit: real)
    requires q * unit == x
    ensures Gap(q, k, unit) == x - Times(k, unit)
  {
  }

  lemma GapIsSmall(q: real, k: int, unit: real)
    requires unit > 0.0 && -0.5 <= q - k as real <= 0.5
    ensures -0.5 * unit <= Gap(q, k, unit) <= 0.5 * unit
  {
    var gap := q - k as real;
    assert Gap(q, k, unit) == gap * unit;
    ScaleOrder(gap, 0.5, unit);
    assert gap * unit <= 0.5 * unit;
    ScaleOrder(-0.5, gap, unit);
  }

  lemma ScaleOrder(a: real, b: real, unit: real)
    requires a <= b && unit > 0.0
    ensures a * unit <= b * unit
  {
  }

  lemma CancelUnit(q: real, j: int, unit: real)
    requires unit > 0.0 && q * unit == Times(j, unit)
    ensures q == j as real
  {
    assert (q - j as real) * unit == 0.0;
  }

  /** y is the multiple of the unit nearest to x, and of two equally near the one farther from zero. */
  ghost predicate Nearest(y: real, x: real, unit: real) {
    && Multiple(y, unit)
    && forall k: int ::
         && Distance(y, x) <= Distance(Times(k, unit), x)
         && (Distance(y, x) == Distance(Times(k, unit), x) ==> Distance(Times(k, unit), 0.0) <= Distance(y, 0.0))
  }

  lemma NearestIsUnique(y: real, z: real, x: real, unit: real)
    requires Nearest(y, x, unit) && Nearest(z, x, unit)
    ensures y == z
  {
    hide Times;
    var i :| Times(i, unit) == y;
    var j :| Times(j, unit) == z;
    assert Distance(y, x) == Distance(z, x) && Distance(y, 0.0) == Distance(z, 0.0);
    assert Times(0, unit) == 0.0 by {
      TimesZero(unit);
    }
  }

  lemma TimesZero(unit: real)
    ensures Times(0, unit) == 0.0
  {
  }

  lemma RoundsToNearest(q: real, k: int)
    ensures var r := RoundHalfUp(q);
            && Distance(r as real, q) <= Distance(k as real, q)
            && (Distance(r as real, q) == Distance(k as real, q) ==> Distance(k as real, 0.0) <= Distance(r as real, 0.0))
  {
    var r := RoundHalfUp(q);
    var apart := k - r;
    assert k as real == r as real + apart as real;
    if apart != 0 {
      assert apart as real >= 1.0 || apart as real <= -1.0;
      TieGoesOut(q);
    }
  }

  /** Half way between two integers, the one farther from zero is taken. */
  lemma TieGoesOut(q: real)
    ensures RoundHalfUp(q) as real - q == 0.5 ==> q > 0.0
    ensures RoundHalfUp(q) as real - q == -0.5 ==> q < 0.0
  {
  }

  ghost function Stretched(d: real, unit: real): real {
    d * unit
  }

  lemma StretchedOrder(a: real, b: real, unit: real)
    requires unit > 0.0
    ensures Stretched(a, unit) <= Stretched(b, unit) <==> a <= b
  {
    if a <= b {
      ScaleOrder(a, b, unit);
    } else {
      assert (a - b) * unit > 0.0;
    }
  }

  lemma DistanceStretches(k: int, q: real, x: real, unit: real)
    requires unit > 0.0 && q * unit == x
    ensures Distance(Times(k, unit), x) == Stretched(Distance(k as real, q), unit)
  {
    var d := k as real - q;
    assert Times(k, unit) - x == d * unit;
    if d < 0.0 {
      assert d * unit < 0.0;
      assert -d * unit == -(d * unit);
    } else {
      assert d * unit >= 0.0;
    }
  }

  /** Quantizing rounds to the nearest multiple, halves away from zero. */
  lemma QuantizeIsNearest(x: real, unit: real)
    requires unit > 0.0
    ensures forall y :: Nearest(y, x, unit) <==> y == Quantize(x, unit)
  {
    hide Times, Distance, RoundHalfUp, Multiple;
    var q := x / unit;
    var r := RoundHalfUp(q);
    QuotientTimes(x, unit);
    forall k: int
      ensures Distance(Times(r, unit), x) <= Distance(Times(k, unit), x)
      ensures Distance(Times(r, unit), x) == Distance(Times(k, unit), x) ==>
                Distance(Times(k, unit), 0.0) <= Distance(Times(r, unit), 0.0)
    {
      RoundsToNearest(q, k);
      NearnessScales(q, x, r, k, unit);
      NearnessScales(0.0, 0.0, r, k, unit);
    }
    QuantizeBound(x, unit);
    forall y | Nearest(y, x, unit)
      ensures y == Quantize(x, unit)
    {
      NearestIsUnique(y, Quantize(x, unit), x, unit);
    }
  }

  /** Nearness among integers carries over to multiples of the unit. */
  lemma NearnessScales(q: real, x: real, r: int, k: int, unit: real)
    requires unit > 0.0 && q * unit == x
    ensures Distance(Times(r, unit), x) <= Distance(Times(k, unit), x) <==> Distance(r as real, q) <= Distance(k as real, q)
    ensures Distance(Times(k, unit), x) <= Distance(Times(r, unit), x) <==> Distance(k as real, q) <= Distance(r as real, q)
  {
    hide Distance, Times, Stretched;
    DistanceStretches(r, q, x, unit);
    DistanceStretches(k, q, x, unit);
    StretchedOrder(Distance(r as real, q), Distance(k as real, q), unit);
    StretchedOrder(Distance(k as real, q), Distance(r as real, q), unit);
  }

  /** A published box: quantized to the pack's places, and whole-pound boxes once more to pounds. */
  function Publish(x: real, dp: int, wholePounds: bool): real {
    var v := Quantize(x, Unit(dp));
    if wholePounds then Quantize(v, 1.0) else v
  }

  /** A published box is within half a unit of its exact total; a whole-pound box, which is rounded
      twice, within half a pound and half a unit. */
  lemma PublishBound(x: real, dp: int, wholePounds: bool)
    ensures Distance(Publish(x, dp, wholePounds), x) <= 0.5 * Unit(dp) + (if wholePounds then 0.5 else 0.0)
    ensures Multiple(Publish(x, dp, wholePounds), if wholePounds then 1.0 else Unit(dp))
  {
    QuantizeBound(x, Unit(dp));
    QuantizeBound(Quantize(x, Unit(dp)), 1.0);
  }

  /** A published box is its exact total to the nearest unit; a whole-pound box is that figure to the nearest
      pound, and so not always the total to the nearest pound. */
  lemma PublishRounds(x: real, dp: int)
    ensures forall y :: Nearest(y, x, Unit(dp)) <==> y == Publish(x, dp, false)
    ensures forall y :: Nearest(y, Publish(x, dp, false), 1.0) <==> y == Publish(x, dp, true)
  {
    hide Nearest, Unit;
    QuantizeIsNearest(x, Unit(dp));
    QuantizeIsNearest(Quantize(x, Unit(dp)), 1.0);
  }

  /** 49.6 pence is published as one pound, although it is nearer to none. */
  lemma TwoRoundingsDiffer()
    ensures Publish(0.496, 2, true) == 1.0 && Nearest(0.0, 0.496, 1.0)
  {
    assert Unit(2) == 0.01 by {
      UnitIsDecimal(0);
      UnitIsDecimal(1);
    }
    assert 0.496 / 0.01 == 49.6;
    assert RoundHalfUp(49.6) == 50;
    assert Quantize(0.496, 0.01) == 0.5;
    assert RoundHalfUp(0.5) == 1;
    QuantizeIsNearest(0.496, 1.0);
    assert RoundHalfUp(0.496) == 0;
  }

  // ---------------------------------------------------------------- formulas over published figures

  /** Formulas built from box names with addition, subtraction, unary minus and abs only. */
  predicate SumLike(n: Node) {
    if n.BinOp? && n.op != OtherBinary then (n.op == Add || n.op == Sub) && SumLike(n.left) && SumLike(n.right)
    else if n.UnaryOp? && n.uop == USub then SumLike(n.operand)
    else if IsAbsCall(n) then SumLike(n.args[0])
    else n.Name?
  }

  /** How many box references a formula holds. */
  function References(n: Node): nat {
    if n.BinOp? && n.op != OtherBinary then References(n.left) + References(n.right)
    else if n.UnaryOp? && n.uop == USub then References(n.operand)
    else if IsAbsCall(n) then References(n.args[0])
    else if n.Name? then 1
    else 0
  }

  /** A sum-like formula over known boxes always evaluates. */
  lemma {:induction false} SumLikeEvaluates(n: Node, values: map<string, real>)
    requires SumLike(n) && Lookups(n) <= values.Keys
    ensures Eval(n, values).Ok?
  {
    if n.BinOp? && n.op != OtherBinary {
      SumLikeEvaluates(n.left, values);
      SumLikeEvaluates(n.right, values);
    } else if n.UnaryOp? && n.uop == USub {
      SumLikeEvaluates(n.operand, values);
    } else if IsAbsCall(n) {
      SumLikeEvaluates(n.args[0], values);
    }
  }

  lemma TimesAdds(a: nat, b: nat, gap: real)
    ensures Times(a + b, gap) == Times(a, gap) + Times(b, gap)
  {
  }

  lemma TimesOne(gap: real)
    ensures Times(1, gap) == gap
  {
  }

  /** Moving every looked-up box by at most gap moves a sum-like formula by at most gap per reference. */
  lemma {:induction false} SumLikeIsLipschitz(n: Node, a: map<string, real>, b: map<string, real>, gap: real)
    requires SumLike(n) && Lookups(n) <= a.Keys && Lookups(n) <= b.Keys
    requires forall id | id in Lookups(n) :: Distance(a[id], b[id]) <= gap
    ensures Eval(n, a).Ok? && Eval(n, b).Ok?
    ensures Distance(Eval(n, a).value, Eval(n, b).value) <= Times(References(n), gap)
  {
    hide Times;
    SumLikeEvaluates(n, a);
    SumLikeEvaluates(n, b);
    if n.BinOp? && n.op != OtherBinary {
      SumLikeIsLipschitz(n.left, a, b, gap);
      SumLikeIsLipschitz(n.right, a, b, gap);
      TimesAdds(References(n.left), References(n.right), gap);
    } else if n.UnaryOp? && n.uop == USub {
      SumLikeIsLipschitz(n.operand, a, b, gap);
    } else if IsAbsCall(n) {
      SumLikeIsLipschitz(n.args[0], a, b, gap);
    } else {
      TimesOne(gap);
    }
  }

  lemma MultiplesCombine(x: real, y: real, unit: real)
    requires Multiple(x, unit) && Multiple(y, unit)
    ensures Multiple(x + y, unit) && Multiple(x - y, unit) && Multiple(-x, unit)
  {
    var i :| Times(i, unit) == x;
    var j :| Times(j, unit) == y;
    assert Times(i + j, unit) == x + y;
    assert Times(i - j, unit) == x - y;
    assert Times(-i, unit) == -x;
  }

  /** A sum-like formula over multiples of the unit yields a multiple of the unit. */
  lemma {:induction false} SumLikeKeepsMultiples(n: Node, values: map<string, real>, unit: real)
    requires SumLike(n) && Lookups(n) <= values.Keys
    requires forall id | id in Lookups(n) :: Multiple(values[id], unit)
    ensures Eval(n, values).Ok? && Multiple(Eval(n, values).value, unit)
  {
    hide Times, Multiple;
    SumLikeEvaluates(n, values);
    if n.BinOp? && n.op != OtherBinary {
      SumLikeKeepsMultiples(n.left, values, unit);
      SumLikeKeepsMultiples(n.right, values, unit);
      MultiplesCombine(Eval(n.left, values).value, Eval(n.right, values).value, unit);
    } else if n.UnaryOp? && n.uop == USub {
      SumLikeKeepsMultiples(n.operand, values, unit);
      MultiplesCombine(Eval(n.operand, values).value, Eval(n.operand, values).value, unit);
    } else if IsAbsCall(n) {
      SumLikeKeepsMultiples(n.args[0], values, unit);
      MultiplesCombine(Eval(n.args[0], values).value, Eval(n.args[0], values).value, unit);
    }
  }

  ghost function Published(totals: map<string, real>, dp: int): map<string, real> {
    map b | b in totals :: Publish(totals[b], dp, false)
  }

  /** Recomputing a derived box from the published figures of the k boxes it refers to misses its own
      published figure by at most (k + 1) / 2 units, for boxes that are not rounded to pounds. */
  lemma PublishedFormulaBound(n: Node, totals: map<string, real>, dp: int, exact: real, recomputed: real)
    requires SumLike(n) && Lookups(n) <= totals.Keys
    requires Eval(n, totals) == Ok(exact) && Eval(n, Published(totals, dp)) == Ok(recomputed)
    ensures Distance(recomputed, Publish(exact, dp, false)) <= Times(References(n) + 1, 0.5 * Unit(dp))
  {
    hide Times, Publish, Unit;
    var half := 0.5 * Unit(dp);
    forall id | id in Lookups(n)
      ensures Distance(Published(totals, dp)[id], totals[id]) <= half
    {
      PublishBound(totals[id], dp, false);
    }
    SumLikeIsLipschitz(n, Published(totals, dp), totals, half);
    PublishBound(exact, dp, false);
    TimesAdds(References(n), 1, half);
    TimesOne(half);
  }

  /** When the totals already have the published number of places, the published figures satisfy the
      formula exactly. */
  lemma PublishedFormulaExact(n: Node, totals: map<string, real>, dp: int, exact: real)
    requires SumLike(n) && Lookups(n) <= totals.Keys
    requires forall id | id in Lookups(n) :: Multiple(totals[id], Unit(dp))
    requires Eval(n, totals) == Ok(exact)
    ensures Eval(n, Published(totals, dp)) == Ok(Publish(exact, dp, false))
  {
    hide Times, Unit, Multiple;
    forall id | id in Lookups(n)
      ensures Published(totals, dp)[id] == totals[id]
    {
      QuantizeBound(totals[id], Unit(dp));
    }
    EvalDependsOnLookups(n, Published(totals, dp), totals);
    SumLikeKeepsMultiples(n, totals, Unit(dp));
    QuantizeBound(exact, Unit(dp));
  }
}
