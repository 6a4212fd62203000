/** Exact Shapley attribution of a score to its features, after ml/explain.py: every coalition of
    features is scored once, and factorial-weighted marginals are summed per feature.
    Scores are exact reals and the score function is an arbitrary total function. */
module Shapley {
  import opened RealSums
  import opened Coalitions
  import opened Sets
  import opened Sequences

  datatype Attribution = Attribution(feature: string, value: real, contribution: real)

  // ---------------------------------------------------------------- the attribution as mathematics

  function Indices(n: nat): (r: seq<int>)
    ensures |r| == n && Distinct(r)
    ensures forall i :: i in r <==> 0 <= i < n
    ensures forall i | 0 <= i < n :: r[i] == i
  {
    if n == 0 then [] else Indices(n - 1) + [n - 1]
  }

  /** The row seen by the scorer when only the features in s take their actual value. */
  ghost function Mask(row: seq<real>, baseline: seq<real>, s: set<int>): seq<real> {
    seq(|baseline|, j requires 0 <= j < |baseline| => if j in s && j < |row| then row[j] else baseline[j])
  }

  ghost function CoalitionScore(row: seq<real>, baseline: seq<real>, score: seq<real> -> real): Game {
    s => score(Mask(row, baseline, s))
  }

  function Weight(n: nat, size: nat): real
    requires size < n
  {
    Coefficient(n, size) as real / Fact(n) as real
  }

  ghost function Term(v: Game, n: nat, x: int): Game {
    s => if |s| < n then Product(Weight(n, |s|), Contribution(v, x)(s)) else 0.0
  }

  /** The factorial-weighted sum of x's marginals over all coalitions of the other features. */
  ghost function Value(v: Game, n: nat, x: int): real {
    SubsetSum(Without(Indices(n), x), Term(v, n, x))
  }

  ghost function Values(v: Game, n: nat): int -> real {
    x => Value(v, n, x)
  }

  lemma TermScaled(v: Game, n: nat, x: int, s: set<int>)
    requires |s| < n
    ensures Weighted(v, n, x)(s) == Fact(n) as real * Term(v, n, x)(s)
  {
    hide Fact, Coefficient;
    ShareOfTotal(Coefficient(n, |s|), Fact(n), Contribution(v, x)(s));
  }

  lemma ShareOfTotal(k: nat, f: nat, m: real)
    requires f > 0
    ensures Times(k, m) == f as real * Product(k as real / f as real, m)
  {
    var share := k as real / f as real;
    assert share * f as real == k as real;
    assert f as real * (share * m) == share * f as real * m;
  }

  lemma Quotient(total: real, k: real, mean: real)
    requires total == k * mean && k != 0.0
    ensures mean == total / k
  {
  }

  /** The coalition-weighted value of a feature is the average, over all n! orders in which the
      features can join, of what the feature adds at the moment it joins. */
  lemma ValueIsOrderAverage(v: Game, n: nat, x: int)
    requires 0 <= x < n
    ensures Value(v, n, x) == Sum(Orders(Indices(n)), Marginals(v, x)) / Fact(n) as real
  {
    hide Sum, SubsetSum, Without, Fact, Orders, Weight, Coefficient;
    var q := Indices(n);
    var r := Without(q, x);
    SubsetsMatchOrders(q, v, x);
    forall s | s <= Elements(r)
      ensures Weighted(v, n, x)(s) == Fact(n) as real * Term(v, n, x)(s)
    {
      ElementsSize(r, s);
      TermScaled(v, n, x, s);
    }
    SubsetSumScaled(r, Fact(n) as real, Weighted(v, n, x), Term(v, n, x));
    Quotient(Sum(Orders(q), Marginals(v, x)), Fact(n) as real, Value(v, n, x));
  }

  lemma OrderFacts(n: nat, o: seq<int>)
    requires o in Orders(Indices(n))
    ensures multiset(o) == multiset(Indices(n)) && Distinct(o) && Elements(o) == Elements(Indices(n))
  {
    hide Orders;
    var q := Indices(n);
    OrdersArePermutations(q, o);
    forall x
      ensures multiset(o)[x] <= 1
    {
      DistinctCounts(q, x);
    }
    CountsDistinct(o);
    forall x
      ensures x in o <==> x in q
    {
      assert x in o <==> x in multiset(o);
      assert x in q <==> x in multiset(q);
    }
  }

  lemma {:induction false} DistinctCounts(q: seq<int>, x: int)
    requires Distinct(q)
    ensures multiset(q)[x] <= 1
  {
    if q != [] {
      assert q == [q[0]] + q[1..];
      DistinctCounts(q[1..], x);
      assert q[0] !in q[1..];
    }
  }

  lemma {:induction false} CountsDistinct(o: seq<int>)
    requires forall x :: multiset(o)[x] <= 1
    ensures Distinct(o)
  {
    if o != [] {
      var h, t := o[0], o[1..];
      assert o == [h] + t;
      assert forall x :: multiset(o)[x] == multiset{h}[x] + multiset(t)[x];
      CountsDistinct(t);
      assert multiset(t)[h] == 0;
      assert h !in multiset(t);
    }
  }

  ghost function FactorialTimes(v: Game, n: nat): int -> real {
    x => Sum(Orders(Indices(n)), Marginals(v, x))
  }

  ghost function MarginalTable(v: Game): (int, seq<int>) -> real {
    (x, o) => Marginal(v, o, x)
  }

  lemma CancelTimes(k: nat, a: real, b: real)
    requires k > 0 && k as real * a == Times(k, b)
    ensures a == b
  {
    var c := k as real;
    assert c * a == c * b;
    assert c * (a - b) == 0.0;
  }

  /** Efficiency: the values of all features sum to the score of the full coalition minus that of
      the empty one. */
  lemma Efficiency(v: Game, n: nat)
    ensures Sum(Indices(n), Values(v, n)) == v(Elements(Indices(n))) - v({})
  {
    hide Fact, Orders, Without, Sum, SubsetSum;
    var q := Indices(n);
    var os, f := Orders(q), Fact(n) as real;
    var total := v(Elements(q)) - v({});
    forall x | x in q
      ensures FactorialTimes(v, n)(x) == Scaled(f, Values(v, n))(x)
      ensures FactorialTimes(v, n)(x) == RowSums(os, MarginalTable(v))(x)
    {
      ValueIsOrderAverage(v, n, x);
      SumCongruence(os, Marginals(v, x), Row(MarginalTable(v), x));
    }
    SumCongruence(q, FactorialTimes(v, n), Scaled(f, Values(v, n)));
    SumScaled(q, f, Values(v, n));
    SumCongruence(q, FactorialTimes(v, n), RowSums(os, MarginalTable(v)));
    SumExchange(q, os, MarginalTable(v));
    forall o | o in os
      ensures ColumnSums(q, MarginalTable(v))(o) == total
    {
      OrderFacts(n, o);
      SumPermutation(q, o, Column(MarginalTable(v), o));
      SumCongruence(o, Column(MarginalTable(v), o), MarginalsOf(v, o));
      MarginalsTelescope(v, o);
    }
    OrdersCount(q);
    SumConstant(os, ColumnSums(q, MarginalTable(v)), total, Fact(n));
    CancelTimes(Fact(n), Sum(q, Values(v, n)), total);
  }

  /** Null player: a feature that never changes the score gets exactly zero. */
  lemma NullPlayer(v: Game, n: nat, x: int)
    requires 0 <= x < n
    requires forall s | s <= Elements(Indices(n)) - {x} :: v(s + {x}) == v(s)
    ensures Value(v, n, x) == 0.0
  {
    hide SubsetSum, Without, Weight;
    var r := Without(Indices(n), x);
    forall s | s <= Elements(r)
      ensures Term(v, n, x)(s) == 0.0 * Term(v, n, x)(s)
    {
      assert Contribution(v, x)(s) == 0.0;
    }
    SubsetSumScaled(r, 0.0, Term(v, n, x), Term(v, n, x));
  }

  lemma SymmetricTerms(v: Game, n: nat, x: int, y: int, s: set<int>)
    requires x !in s && y !in s && v(s + {x}) == v(s + {y})
    ensures Term(v, n, x)(s) == Term(v, n, y)(s)
    ensures With(Term(v, n, x), y)(s) == With(Term(v, n, y), x)(s)
  {
    hide Weight, Product;
    assert Contribution(v, x)(s) == Contribution(v, y)(s);
    assert s + {x} + {y} == s + {y} + {x};
    assert Contribution(v, x)(s + {y}) == Contribution(v, y)(s + {x});
    assert x != y ==> |s + {x}| == |s| + 1 == |s + {y}|;
  }

  /** Symmetry: features that are interchangeable in every coalition get equal values. */
  lemma Symmetry(v: Game, n: nat, x: int, y: int)
    requires 0 <= x < n && 0 <= y < n && x != y
    requires forall s | s <= Elements(Indices(n)) - {x, y} :: v(s + {x}) == v(s + {y})
    ensures Value(v, n, x) == Value(v, n, y)
  {
    hide SubsetSum, Without, Term;
    var q := Indices(n);
    var r := Without(Without(q, x), y);
    WithoutCommutes(q, x, y);
    assert y in Elements(Without(q, x)) && x in Elements(Without(q, y));
    SubsetSumSplit(Without(q, x), y, Term(v, n, x));
    SubsetSumSplit(Without(q, y), x, Term(v, n, y));
    forall s | s <= Elements(r)
      ensures Term(v, n, x)(s) == Term(v, n, y)(s)
      ensures With(Term(v, n, x), y)(s) == With(Term(v, n, y), x)(s)
    {
      assert s <= Elements(q) - {x, y};
      SymmetricTerms(v, n, x, y, s);
    }
    SubsetSumCongruence(r, Term(v, n, x), Term(v, n, y));
    SubsetSumCongruence(r, With(Term(v, n, x), y), With(Term(v, n, y), x));
  }

  ghost function Combined(a: real, v: Game, b: real, w: Game): Game {
    s => a * v(s) + b * w(s)
  }

  ghost function ScaledTerm(a: real, v: Game, n: nat, x: int): Game {
    s => a * Term(v, n, x)(s)
  }

  lemma LinearTerms(a: real, v: Game, b: real, w: Game, n: nat, x: int, s: set<int>)
    ensures Term(Combined(a, v, b, w), n, x)(s) == ScaledTerm(a, v, n, x)(s) + ScaledTerm(b, w, n, x)(s)
  {
    hide Weight, Product;
    var p, q := Contribution(v, x)(s), Contribution(w, x)(s);
    LinearContribution(a, v(s + {x}), v(s), b, w(s + {x}), w(s));
    var c := Contribution(Combined(a, v, b, w), x)(s);
    assert c == a * p + b * q;
    if |s| < n {
      LinearTerm(Weight(n, |s|), a, p, b, q, c, Term(v, n, x)(s), Term(w, n, x)(s));
    } else {
      ZeroTimes(a, Term(v, n, x)(s));
      ZeroTimes(b, Term(w, n, x)(s));
    }
  }

  /** Linearity: attributing a combination of two scores combines the attributions. */
  lemma Linearity(a: real, v: Game, b: real, w: Game, n: nat, x: int)
    ensures Value(Combined(a, v, b, w), n, x) == a * Value(v, n, x) + b * Value(w, n, x)
  {
    hide SubsetSum, Without, Term, Combined;
    var r := Without(Indices(n), x);
    forall s | s <= Elements(r)
      ensures Term(Combined(a, v, b, w), n, x)(s) == ScaledTerm(a, v, n, x)(s) + ScaledTerm(b, w, n, x)(s)
    {
      LinearTerms(a, v, b, w, n, x, s);
    }
    SubsetSumPlus(r, Term(Combined(a, v, b, w), n, x), ScaledTerm(a, v, n, x), ScaledTerm(b, w, n, x));
    SubsetSumScaled(r, a, ScaledTerm(a, v, n, x), Term(v, n, x));
    SubsetSumScaled(r, b, ScaledTerm(b, w, n, x), Term(w, n, x));
  }

  lemma LinearTerm(k: real, a: real, p: real, b: real, q: real, c: real, s: real, t: real)
    requires c == a * p + b * q && s == Product(k, p) && t == Product(k, q)
    ensures Product(k, c) == a * s + b * t
  {
  }

  lemma ZeroTimes(a: real, t: real)
    requires t == 0.0
    ensures a * t == 0.0
  {
  }

  lemma LinearContribution(a: real, p1: real, p0: real, b: real, q1: real, q0: real)
    ensures a * p1 + b * q1 - (a * p0 + b * q0) == a * (p1 - p0) + b * (q1 - q0)
  {
  }

  lemma {:induction false} BeforeSubset(o: seq<int>, x: int)
    ensures Before(o, x) <= Elements(o) - {x}
  {
    if o != [] && o[0] != x {
      BeforeSubset(o[1..], x);
    }
  }

  lemma AverageBetween(k: real, total: real, lo: real, hi: real)
    requires k > 0.0 && k * lo <= total <= k * hi
    ensures lo <= total / k <= hi
  {
    var mean := total / k;
    assert mean * k == total;
    if mean < lo {
      StrictProduct(mean, lo, k);
    }
    if hi < mean {
      StrictProduct(hi, mean, k);
    }
  }

  lemma StrictProduct(a: real, b: real, k: real)
    requires a < b && k > 0.0
    ensures a * k < b * k
  {
  }

  /** Each value lies between the feature's smallest and largest marginal. */
  lemma Bounds(v: Game, n: nat, x: int, lo: real, hi: real)
    requires 0 <= x < n
    requires forall s | s <= Elements(Indices(n)) - {x} :: lo <= v(s + {x}) - v(s) <= hi
    ensures lo <= Value(v, n, x) <= hi
  {
    hide Sum, SubsetSum, Fact, Orders, Without;
    var q := Indices(n);
    var os := Orders(q);
    OrdersCount(Indices(n));
    ValueIsOrderAverage(v, n, x);
    var low, high := (o: seq<int>) => lo, (o: seq<int>) => hi;
    forall o | o in os
      ensures low(o) <= Marginals(v, x)(o) <= high(o)
    {
      OrderFacts(n, o);
      BeforeSubset(o, x);
    }
    SumMonotone(os, low, Marginals(v, x));
    SumMonotone(os, Marginals(v, x), high);
    SumConstant(os, low, lo, Fact(n));
    SumConstant(os, high, hi, Fact(n));
    AverageBetween(Fact(n) as real, Sum(os, Marginals(v, x)), lo, hi);
  }

  ghost function WeightOfSize(n: nat): Game {
    s => if |s| < n then Weight(n, |s|) else 0.0
  }

  ghost function Size(): Game {
    s => |s| as real
  }

  lemma SizeContribution(x: int, s: set<int>)
    requires x !in s
    ensures Contribution(Size(), x)(s) == 1.0
  {
    assert |s + {x}| == |s| + 1;
  }

  lemma SizeMarginal(o: seq<int>, x: int)
    ensures Marginals(Size(), x)(o) == 1.0
  {
    BeforeSubset(o, x);
    SizeContribution(x, Before(o, x));
  }

  /** The weights used for one feature x, over all coalitions of the others, sum to one. */
  lemma WeightsSumToOne(others: seq<int>, x: int)
    requires Distinct(others) && x !in others
    ensures SubsetSum(others, WeightOfSize(|others| + 1)) == 1.0
  {
    hide Sum, SubsetSum, Without, Size, Marginals, Fact, Orders, Weight, WeightOfSize, Weighted, Elements, Times, Distinct;
    var q, n := [x] + others, |others| + 1;
    OthersOf(others, x);
    SubsetsMatchOrders(q, Size(), x);
    OrdersCount(q);
    forall o | o in Orders(q)
      ensures Marginals(Size(), x)(o) == 1.0
    {
      SizeMarginal(o, x);
    }
    SumConstant(Orders(q), Marginals(Size(), x), 1.0, Fact(n));
    forall s | s <= Elements(others)
      ensures Weighted(Size(), n, x)(s) == Fact(n) as real * WeightOfSize(n)(s)
    {
      SizeWeighted(others, x, s);
    }
    SubsetSumScaled(others, Fact(n) as real, Weighted(Size(), n, x), WeightOfSize(n));
    CancelTimes(Fact(n), SubsetSum(others, WeightOfSize(n)), 1.0);
  }

  lemma SizeWeighted(others: seq<int>, x: int, s: set<int>)
    requires x !in others && s <= Elements(others)
    ensures Weighted(Size(), |others| + 1, x)(s) == Fact(|others| + 1) as real * WeightOfSize(|others| + 1)(s)
  {
    hide Size, Fact, Weight, Coefficient, Weighted;
    ElementsSize(others, s);
    SizeContribution(x, s);
    TermScaled(Size(), |others| + 1, x, s);
  }

  lemma OthersOf(others: seq<int>, x: int)
    requires Distinct(others) && x !in others
    ensures Distinct([x] + others) && Without([x] + others, x) == others
  {
    assert ([x] + others)[1..] == others;
  }

  // ---------------------------------------------------------------- ordering by magnitude

  function InsertByMagnitude(a: Attribution, xs: seq<Attribution>): seq<Attribution> {
    if xs == [] || Magnitude(xs[0].contribution) <= Magnitude(a.contribution) then [a] + xs
    else [xs[0]] + InsertByMagnitude(a, xs[1..])
  }

  /** list.sort by descending magnitude: equal magnitudes keep their order. */
  function SortByMagnitude(xs: seq<Attribution>): seq<Attribution> {
    if xs == [] then [] else InsertByMagnitude(xs[0], SortByMagnitude(xs[1..]))
  }

  ghost predicate Descending(xs: seq<Attribution>) {
    forall i, j | 0 <= i < j < |xs| :: Magnitude(xs[i].contribution) >= Magnitude(xs[j].contribution)
  }

  ghost function OfMagnitude(xs: seq<Attribution>, m: real): seq<Attribution> {
    if xs == [] then []
    else (if Magnitude(xs[0].contribution) == m then [xs[0]] else []) + OfMagnitude(xs[1..], m)
  }

  lemma DescendingCons(x: Attribution, ys: seq<Attribution>)
    ensures Descending([x] + ys)
       <==> Descending(ys) && forall y | y in ys :: Magnitude(x.contribution) >= Magnitude(y.contribution)
  {
    hide Magnitude;
    var xs := [x] + ys;
    if Descending(xs) {
      forall i, j | 0 <= i < j < |ys|
        ensures Magnitude(ys[i].contribution) >= Magnitude(ys[j].contribution)
      {
        assert xs[i + 1] == ys[i] && xs[j + 1] == ys[j];
      }
      forall j | 0 <= j < |ys|
        ensures Magnitude(x.contribution) >= Magnitude(ys[j].contribution)
      {
        assert xs[0] == x && xs[j + 1] == ys[j];
      }
    }
  }

  lemma {:induction false} InsertAdds(a: Attribution, xs: seq<Attribution>)
    ensures multiset(InsertByMagnitude(a, xs)) == multiset{a} + multiset(xs)
  {
    hide Magnitude;
    if xs != [] {
      assert xs == [xs[0]] + xs[1..];
      InsertAdds(a, xs[1..]);
    }
  }

  lemma {:induction false} InsertSorts(a: Attribution, xs: seq<Attribution>)
    requires Descending(xs)
    ensures Descending(InsertByMagnitude(a, xs))
  {
    hide Descending;
    if xs == [] || Magnitude(xs[0].contribution) <= Magnitude(a.contribution) {
      if xs != [] {
        assert xs == [xs[0]] + xs[1..];
        DescendingCons(xs[0], xs[1..]);
      }
      DescendingCons(a, xs);
    } else {
      var h, t := xs[0], xs[1..];
      assert xs == [h] + t;
      DescendingCons(h, t);
      InsertSorts(a, t);
      InsertAdds(a, t);
      var rest := InsertByMagnitude(a, t);
      assert forall y :: y in rest <==> y in multiset(rest);
      DescendingCons(h, rest);
    }
  }

  lemma {:induction false} InsertKeepsOrder(a: Attribution, xs: seq<Attribution>, m: real)
    requires Descending(xs)
    ensures OfMagnitude(InsertByMagnitude(a, xs), m) == OfMagnitude([a] + xs, m)
  {
    assert ([a] + xs)[1..] == xs;
    if xs == [] || Magnitude(xs[0].contribution) <= Magnitude(a.contribution) {
    } else {
      InsertKeepsOrder(a, xs[1..], m);
      assert ([a] + xs[1..])[1..] == xs[1..];
      assert ([xs[0]] + InsertByMagnitude(a, xs[1..]))[1..] == InsertByMagnitude(a, xs[1..]);
    }
  }

  /** The final sort only permutes the attributions, puts larger magnitudes first, and keeps the
      feature order among equal magnitudes. */
  lemma {:induction false} SortIsStablePermutation(xs: seq<Attribution>)
    ensures multiset(SortByMagnitude(xs)) == multiset(xs)
    ensures Descending(SortByMagnitude(xs))
    ensures forall m :: OfMagnitude(SortByMagnitude(xs), m) == OfMagnitude(xs, m)
  {
    if xs != [] {
      var rest := SortByMagnitude(xs[1..]);
      SortIsStablePermutation(xs[1..]);
      InsertSorts(xs[0], rest);
      InsertAdds(xs[0], rest);
      assert xs == [xs[0]] + xs[1..];
      forall m
        ensures OfMagnitude(SortByMagnitude(xs), m) == OfMagnitude(xs, m)
      {
        InsertKeepsOrder(xs[0], rest, m);
        assert ([xs[0]] + rest)[1..] == rest;
      }
    }
  }

  // ---------------------------------------------------------------- the algorithm

  /** The batch scorer applied to a list of rows, one score per row. */
  function BatchScore(score: seq<real> -> real, vectors: seq<seq<real>>): (scores: seq<real>)
    ensures |scores| == |vectors|
  {
    seq(|vectors|, i requires 0 <= i < |vectors| => score(vectors[i]))
  }

  method MaskedVector(row: seq<real>, baseline: seq<real>, s: set<int>) returns (vector: seq<real>)
    requires forall j | j in s :: 0 <= j < |row| && j < |baseline|
    ensures vector == Mask(row, baseline, s)
  {
    vector := baseline;
    var todo := s;
    while todo != {}
      invariant todo <= s
      invariant vector == Mask(row, baseline, s - todo)
      decreases todo
    {
      var j := AnyOf(todo);
      vector := vector[j := row[j]];
      todo := todo - {j};
    }
    assert s - {} == s;
  }
  ghost predicate Scored(value: map<set<int>, real>, v: Game, n: nat) {
    forall s | s <= Elements(Indices(n)) :: s in value && value[s] == v(s)
  }

  ghost predicate Aligned(subsets: seq<set<int>>, vectors: seq<seq<real>>, row: seq<real>, baseline: seq<real>) {
    && |subsets| == |vectors|
    && forall k | 0 <= k < |subsets| :: vectors[k] == Mask(row, baseline, subsets[k])
  }

  /** Scores every coalition once, in one batch, and tabulates the scores by coalition. */
  method ScoreCoalitions(row: seq<real>, baseline: seq<real>, n: nat, score: seq<real> -> real)
    returns (value: map<set<int>, real>)
    requires n <= |row| && n <= |baseline|
    ensures Scored(value, CoalitionScore(row, baseline, score), n)
  {
    hide Combinations, Mask;
    var indices := Indices(n);
    var subsets: seq<set<int>>, vectors: seq<seq<real>> := [], [];
    for size := 0 to n + 1
      invariant Aligned(subsets, vectors, row, baseline)
      invariant forall s | s <= Elements(indices) && |s| < size :: s in subsets
    {
      var combos := Combinations(indices, size);
      for c := 0 to |combos|
        invariant Aligned(subsets, vectors, row, baseline)
        invariant forall s | s <= Elements(indices) && |s| < size :: s in subsets
        invariant forall k | 0 <= k < c :: Elements(combos[k]) in subsets
      {
        CombinationsAreSubsets(indices, size, combos[c]);
        var s := Elements(combos[c]);
        var vector := MaskedVector(row, baseline, s);
        subsets := subsets + [s];
        vectors := vectors + [vector];
      }
      forall s | s <= Elements(indices) && |s| == size
        ensures s in subsets
      {
        var c := EverySubsetIsACombination(indices, s, size);
      }
    }
    var scores := BatchScore(score, vectors);
    value := map[];
    for k := 0 to |subsets|
      invariant forall j | 0 <= j < k :: subsets[j] in value
      invariant forall s | s in value :: value[s] == CoalitionScore(row, baseline, score)(s)
    {
      value := value[subsets[k] := scores[k]];
    }
    forall s | s <= Elements(indices)
      ensures s in value
    {
      ElementsSize(indices, s);
    }
  }

  lemma ProductValue(a: real, b: real)
    ensures Product(a, b) == a * b
  {
  }

  /** The term of one enumerated coalition, read from the table. */
  lemma CoalitionTerm(value: map<set<int>, real>, n: nat, i: int, others: seq<int>, size: nat, combo: seq<int>, v: Game,
                      s: set<int>)
    requires 0 <= i < n && Scored(value, v, n) && others == Without(Indices(n), i) && size <= |others|
    requires combo in Combinations(others, size) && s == Elements(combo)
    ensures s in value && s + {i} in value && size < n
    ensures OnElements(Term(v, n, i))(combo) == Product(Weight(n, size), value[s + {i}] - value[s])
  {
    hide *;
    CoalitionOf(n, i, others, size, combo);
    TableAt(value, v, n, s);
    TableAt(value, v, n, s + {i});
    TermProduct(v, n, i, s);
    OnElementsAt(Term(v, n, i), combo);
  }

  lemma TermProduct(v: Game, n: nat, x: int, s: set<int>)
    requires |s| < n
    ensures Term(v, n, x)(s) == Product(Weight(n, |s|), v(s + {x}) - v(s))
  {
    hide Weight, Product;
    assert Contribution(v, x)(s) == v(s + {x}) - v(s);
  }

  lemma OnElementsAt(f: Game, combo: seq<int>)
    ensures OnElements(f)(combo) == f(Elements(combo))
  {
  }

  lemma TableAt(value: map<set<int>, real>, v: Game, n: nat, s: set<int>)
    requires Scored(value, v, n) && s <= Elements(Indices(n))
    ensures s in value && value[s] == v(s)
  {
    hide Elements;
  }

  lemma CoalitionOf(n: nat, i: int, others: seq<int>, size: nat, combo: seq<int>)
    requires 0 <= i < n && others == Without(Indices(n), i) && size <= |others|
    requires combo in Combinations(others, size)
    ensures size < n && |Elements(combo)| == size
    ensures Elements(combo) <= Elements(Indices(n)) && Elements(combo) + {i} <= Elements(Indices(n))
  {
    hide Combinations, Without;
    assert i in Indices(n) && |others| == n - 1;
    CombinationsAreSubsets(others, size, combo);
  }

  /** Adds to phi the weighted marginals of one feature over the coalitions of one size. */
  method AddLevel(value: map<set<int>, real>, n: nat, i: int, others: seq<int>, size: nat, phi0: real, ghost v: Game)
    returns (phi: real)
    requires 0 <= i < n && Scored(value, v, n) && others == Without(Indices(n), i) && size <= |others|
    ensures phi == phi0 + Level(others, Term(v, n, i))(size)
  {
    hide Sum, Combinations, Without, Weight, Term, Scored, Elements, OnElements, Product;
    ghost var term := Term(v, n, i);
    phi := phi0;
    assert size < n by {
      assert i in Indices(n);
    }
    var weight := Weight(n, size);
    var combos := Combinations(others, size);
    SumEmpty(OnElements(term));
    for c := 0 to |combos|
      invariant phi == phi0 + Sum(combos[..c], OnElements(term))
    {
      var s := Elements(combos[c]);
      CoalitionTerm(value, n, i, others, size, combos[c], v, s);
      ProductValue(weight, value[s + {i}] - value[s]);
      phi := phi + weight * (value[s + {i}] - value[s]);
      assert combos[..c + 1] == combos[..c] + [combos[c]];
      SumSnoc(combos[..c], combos[c], OnElements(term));
    }
    assert combos[..|combos|] == combos;
  }

  /** The factorial-weighted sum for one feature, coalition size by coalition size. */
  method WeightedMarginals(value: map<set<int>, real>, n: nat, i: int, ghost v: Game) returns (phi: real)
    requires 0 <= i < n && Scored(value, v, n)
    ensures phi == Value(v, n, i)
  {
    hide Sum, SubsetSum, Without, Term, Level, Scored;
    var others := Without(Indices(n), i);
    ghost var term := Term(v, n, i);
    phi := 0.0;
    for size := 0 to |others| + 1
      invariant phi == Below(Level(others, term), size)
    {
      phi := AddLevel(value, n, i, others, size, phi, v);
    }
    LevelsCoverSubsets(others, term);
  }

  ghost function Explained(row: seq<real>, names: seq<string>, v: Game): seq<Attribution>
    requires |names| <= |row|
  {
    seq(|names|, i requires 0 <= i < |names| => Attribution(names[i], row[i], Value(v, |names|, i)))
  }

  /** The credit of feature i by name: its average marginal over all orders of joining. */
  ghost function Credit(row: seq<real>, baseline: seq<real>, names: seq<string>, score: seq<real> -> real, i: nat): Attribution
    requires i < |names| <= |row|
  {
    var n := |names|;
    Attribution(names[i], row[i], Sum(Orders(Indices(n)), Marginals(CoalitionScore(row, baseline, score), i)) / Fact(n) as real)
  }

  ghost function Credits(row: seq<real>, baseline: seq<real>, names: seq<string>, score: seq<real> -> real): seq<Attribution>
    requires |names| <= |row|
  {
    seq(|names|, i requires 0 <= i < |names| => Credit(row, baseline, names, score, i))
  }

  ghost function ContributionOf(): Attribution -> real {
    (a: Attribution) => a.contribution
  }

  lemma {:induction false} ExplainedTotal(row: seq<real>, names: seq<string>, v: Game, k: nat)
    requires k <= |names| <= |row|
    ensures Sum(Explained(row, names, v)[..k], ContributionOf()) == Sum(Indices(k), Values(v, |names|))
  {
    hide Sum, Value;
    var all := Explained(row, names, v);
    if k == 0 {
      SumEmpty(ContributionOf());
      SumEmpty(Values(v, |names|));
    } else {
      ExplainedTotal(row, names, v, k - 1);
      assert all[..k] == all[..k - 1] + [all[k - 1]];
      SumSnoc(all[..k - 1], all[k - 1], ContributionOf());
      SumSnoc(Indices(k - 1), k - 1, Values(v, |names|));
    }
  }

  lemma SortedCredits(row: seq<real>, baseline: seq<real>, names: seq<string>, score: seq<real> -> real)
    requires |names| <= |row|
    ensures var explained := Explained(row, names, CoalitionScore(row, baseline, score));
            && multiset(SortByMagnitude(explained)) == multiset(Credits(row, baseline, names, score))
            && Descending(SortByMagnitude(explained)) && |SortByMagnitude(explained)| == |names|
  {
    hide Value, SortByMagnitude, CoalitionScore, Sum, Orders, Fact, Descending;
    var v := CoalitionScore(row, baseline, score);
    forall i | 0 <= i < |names|
      ensures Explained(row, names, v)[i] == Credits(row, baseline, names, score)[i]
    {
      ValueIsOrderAverage(v, |names|, i);
    }
    assert Explained(row, names, v) == Credits(row, baseline, names, score);
    SortIsStablePermutation(Explained(row, names, v));
    assert |multiset(SortByMagnitude(Explained(row, names, v)))| == |multiset(Credits(row, baseline, names, score))|;
  }

  /** The attributions of one row: every feature with its own value and its average marginal over all orders
      of joining, larger magnitudes first and otherwise in feature order; they sum to the score of the fully
      actual vector minus the score of the baseline. */
  method ShapleyAttributions(row: seq<real>, baseline: seq<real>, names: seq<string>, score: seq<real> -> real)
    returns (attributions: seq<Attribution>)
    requires |names| <= |row| && |names| <= |baseline|
    ensures attributions == SortByMagnitude(Explained(row, names, CoalitionScore(row, baseline, score)))
    ensures multiset(attributions) == multiset(Credits(row, baseline, names, score)) && Descending(attributions)
    ensures |attributions| == |names|
    ensures forall i | 0 <= i < |names| ::
              Attribution(names[i], row[i], Sum(Orders(Indices(|names|)), Marginals(CoalitionScore(row, baseline, score), i))
                                            / Fact(|names|) as real) in attributions
    ensures Sum(attributions, ContributionOf())
         == score(Mask(row, baseline, Elements(Indices(|names|)))) - score(baseline)
    ensures |names| == |row| == |baseline| ==>
              Sum(attributions, ContributionOf()) == score(row) - score(baseline)
  {
    hide Sum, SortByMagnitude, Mask, Value, Scored, CoalitionScore, Elements, Orders, Marginals, Fact, Credits, Descending;
    var n := |names|;
    ghost var v := CoalitionScore(row, baseline, score);
    var value := ScoreCoalitions(row, baseline, n, score);
    var phi := new real[n](_ => 0.0);
    for i := 0 to n
      invariant forall k | 0 <= k < i :: phi[k] == Value(v, n, k)
    {
      phi[i] := WeightedMarginals(value, n, i, v);
    }
    attributions := [];
    for i := 0 to n
      invariant forall k | 0 <= k < n :: phi[k] == Value(v, n, k)
      invariant attributions == Explained(row, names, v)[..i]
    {
      attributions := attributions + [Attribution(names[i], row[i], phi[i])];
    }
    ghost var explained := Explained(row, names, v);
    assert explained[..n] == explained;
    attributions := SortByMagnitude(attributions);
    SortedCredits(row, baseline, names, score);
    forall i | 0 <= i < n
      ensures Attribution(names[i], row[i], Sum(Orders(Indices(n)), Marginals(v, i)) / Fact(n) as real) in attributions
    {
      CreditOf(row, baseline, names, score, i);
      CreditIsListed(row, baseline, names, score, attributions, i);
    }
    TotalOfSorted(row, baseline, names, score);
  }

  lemma CreditIsListed(row: seq<real>, baseline: seq<real>, names: seq<string>, score: seq<real> -> real,
                       xs: seq<Attribution>, i: nat)
    requires i < |names| <= |row| && multiset(xs) == multiset(Credits(row, baseline, names, score))
    ensures Credit(row, baseline, names, score, i) in xs
  {
    hide Credit;
    var credits := Credits(row, baseline, names, score);
    assert credits[i] in credits;
    SameMembers(xs, credits, credits[i]);
  }

  lemma CreditOf(row: seq<real>, baseline: seq<real>, names: seq<string>, score: seq<real> -> real, i: nat)
    requires i < |names| <= |row|
    ensures Credit(row, baseline, names, score, i)
         == Attribution(names[i], row[i], Sum(Orders(Indices(|names|)), Marginals(CoalitionScore(row, baseline, score), i))
                                          / Fact(|names|) as real)
  {
    hide Sum, Orders, Indices, Marginals, CoalitionScore, Fact;
  }

  lemma TotalOfSorted(row: seq<real>, baseline: seq<real>, names: seq<string>, score: seq<real> -> real)
    requires |names| <= |row| && |names| <= |baseline|
    ensures var v := CoalitionScore(row, baseline, score);
            var total := Sum(SortByMagnitude(Explained(row, names, v)), ContributionOf());
            && total == score(Mask(row, baseline, Elements(Indices(|names|)))) - score(baseline)
            && (|names| == |row| == |baseline| ==> total == score(row) - score(baseline))
  {
    hide Sum, SortByMagnitude, Values, Mask, Explained;
    var n, v := |names|, CoalitionScore(row, baseline, score);
    var explained := Explained(row, names, v);
    SortIsStablePermutation(explained);
    SumPermutation(SortByMagnitude(explained), explained, ContributionOf());
    ExplainedTotal(row, names, v, n);
    assert |explained| == n by {
      ExplainedLength(row, names, v);
    }
    assert explained[..n] == explained;
    Efficiency(v, n);
    MaskExtremes(row, baseline, n);
  }

  lemma ExplainedLength(row: seq<real>, names: seq<string>, v: Game)
    requires |names| <= |row|
    ensures |Explained(row, names, v)| == |names|
  {
  }

  lemma MaskExtremes(row: seq<real>, baseline: seq<real>, n: nat)
    ensures Mask(row, baseline, {}) == baseline
    ensures n == |row| == |baseline| ==> Mask(row, baseline, Elements(Indices(n))) == row
  {
  }

  // ---------------------------------------------------------------- the axioms for rows and scores

  /** A feature whose value equals its baseline is credited exactly zero, whatever the score. */
  lemma UnchangedFeatureGetsZero(row: seq<real>, baseline: seq<real>, score: seq<real> -> real, n: nat, x: int)
    requires n <= |row| && n <= |baseline| && 0 <= x < n && row[x] == baseline[x]
    ensures Value(CoalitionScore(row, baseline, score), n, x) == 0.0
  {
    var v := CoalitionScore(row, baseline, score);
    forall s | s <= Elements(Indices(n)) - {x}
      ensures v(s + {x}) == v(s)
    {
      assert Mask(row, baseline, s + {x}) == Mask(row, baseline, s);
    }
    NullPlayer(v, n, x);
  }

  function Swap(vector: seq<real>, x: nat, y: nat): seq<real>
    requires x < |vector| && y < |vector|
  {
    vector[x := vector[y]][y := vector[x]]
  }

  /** Two features with the same value and baseline, which the score treats alike, are credited alike. */
  lemma InterchangeableFeatures(row: seq<real>, baseline: seq<real>, score: seq<real> -> real, n: nat, x: nat, y: nat)
    requires n <= |row| && n <= |baseline| && x < n && y < n && x != y
    requires row[x] == row[y] && baseline[x] == baseline[y]
    requires forall vector: seq<real> | |vector| == |baseline| :: score(Swap(vector, x, y)) == score(vector)
    ensures Value(CoalitionScore(row, baseline, score), n, x) == Value(CoalitionScore(row, baseline, score), n, y)
  {
    var v := CoalitionScore(row, baseline, score);
    forall s | s <= Elements(Indices(n)) - {x, y}
      ensures v(s + {x}) == v(s + {y})
    {
      assert Swap(Mask(row, baseline, s + {x}), x, y) == Mask(row, baseline, s + {y});
    }
    Symmetry(v, n, x, y);
  }
}
