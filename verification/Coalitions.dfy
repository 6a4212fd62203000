/** Coalitions of features: sums over all subsets, the size-by-size enumeration of
    itertools.combinations, and the list of all orders in which features can join. */
module Coalitions {
  import opened RealSums
  import opened Sequences

  type Game = set<int> -> real

  function Fact(n: nat): nat
    ensures Fact(n) > 0
  {
    if n == 0 then 1 else n * Fact(n - 1)
  }

  function Elements(xs: seq<int>): set<int> {
    set x | x in xs
  }

  /** The game in which x has already joined. */
  ghost function With(f: Game, x: int): Game {
    s => f(s + {x})
  }

  // ---------------------------------------------------------------- sums over subsets

  /** The sum of f over every subset of the (distinct) elements of q. */
  ghost function SubsetSum(q: seq<int>, f: Game): real {
    if q == [] then f({}) else SubsetSum(q[1..], f) + SubsetSum(q[1..], With(f, q[0]))
  }

  lemma {:induction false} SubsetSumCongruence(q: seq<int>, f: Game, g: Game)
    requires forall s | s <= Elements(q) :: f(s) == g(s)
    ensures SubsetSum(q, f) == SubsetSum(q, g)
  {
    if q != [] {
      assert Elements(q) == Elements(q[1..]) + {q[0]};
      SubsetSumCongruence(q[1..], f, g);
      SubsetSumCongruence(q[1..], With(f, q[0]), With(g, q[0]));
    }
  }

  lemma {:induction false} SubsetSumScaled(q: seq<int>, c: real, f: Game, g: Game)
    requires forall s | s <= Elements(q) :: f(s) == c * g(s)
    ensures SubsetSum(q, f) == c * SubsetSum(q, g)
  {
    if q != [] {
      assert Elements(q) == Elements(q[1..]) + {q[0]};
      SubsetSumScaled(q[1..], c, f, g);
      SubsetSumScaled(q[1..], c, With(f, q[0]), With(g, q[0]));
    }
  }

  lemma {:induction false} SubsetSumPlus(q: seq<int>, f: Game, g: Game, h: Game)
    requires forall s | s <= Elements(q) :: f(s) == g(s) + h(s)
    ensures SubsetSum(q, f) == SubsetSum(q, g) + SubsetSum(q, h)
  {
    if q != [] {
      assert Elements(q) == Elements(q[1..]) + {q[0]};
      SubsetSumPlus(q[1..], f, g, h);
      SubsetSumPlus(q[1..], With(f, q[0]), With(g, q[0]), With(h, q[0]));
    }
  }

  /** Changing f at the empty coalition only changes the sum by the same amount. */
  lemma {:induction false} SubsetSumAtEmpty(q: seq<int>, f: Game, g: Game)
    requires forall s | s <= Elements(q) && s != {} :: f(s) == g(s)
    ensures SubsetSum(q, f) - SubsetSum(q, g) == f({}) - g({})
  {
    if q != [] {
      assert Elements(q) == Elements(q[1..]) + {q[0]};
      SubsetSumAtEmpty(q[1..], f, g);
      SubsetSumCongruence(q[1..], With(f, q[0]), With(g, q[0]));
    }
  }

  function Without(q: seq<int>, x: int): (r: seq<int>)
    ensures Elements(r) == Elements(q) - {x}
    ensures Distinct(q) ==> Distinct(r)
    ensures Distinct(q) && x in q ==> |r| == |q| - 1
    ensures x !in q ==> r == q
  {
    if q == [] then []
    else if q[0] == x then Without(q[1..], x)
    else
      var rest := Without(q[1..], x);
      assert Elements(q) == {q[0]} + Elements(q[1..]);
      assert Elements([q[0]] + rest) == {q[0]} + Elements(rest);
      assert Distinct(q) ==> q[0] !in Elements(q[1..]);
      [q[0]] + rest
  }

  /** The subset sum may be split on any element, not only on the first. */
  lemma {:induction false} SubsetSumSplit(q: seq<int>, x: int, f: Game)
    requires Distinct(q) && x in q
    ensures SubsetSum(q, f) == SubsetSum(Without(q, x), f) + SubsetSum(Without(q, x), With(f, x))
  {
    if q[0] != x {
      var t, h := q[1..], q[0];
      SubsetSumSplit(t, x, f);
      SubsetSumSplit(t, x, With(f, h));
      assert Without(q, x)[1..] == Without(t, x);
      SubsetSumSwapWith(Without(t, x), f, h, x);
    }
  }

  lemma SubsetSumSwapWith(q: seq<int>, f: Game, x: int, y: int)
    ensures SubsetSum(q, With(With(f, x), y)) == SubsetSum(q, With(With(f, y), x))
  {
    forall s | s <= Elements(q)
      ensures With(With(f, x), y)(s) == With(With(f, y), x)(s)
    {
      assert s + {y} + {x} == s + {x} + {y};
    }
    SubsetSumCongruence(q, With(With(f, x), y), With(With(f, y), x));
  }

  ghost function Joined(q: seq<int>, g: Game): int -> real {
    x => SubsetSum(Without(q, x), With(g, x))
  }

  ghost function SizeTimes(g: Game): Game {
    s => Times(|s|, g(s))
  }

  lemma JoinedAt(h: int, t: seq<int>, g: Game, x: int)
    requires h != x
    ensures Joined([h] + t, g)(x) == Joined(t, g)(x) + Joined(t, With(g, h))(x)
  {
    assert ([h] + t)[1..] == t;
    var r := Without(t, x);
    assert Without([h] + t, x) == [h] + r;
    assert ([h] + r)[1..] == r;
    SubsetSumSwapWith(r, g, x, h);
  }

  lemma JoinedCons(h: int, t: seq<int>, g: Game)
    requires h !in t
    ensures Sum(t, Joined([h] + t, g)) == Sum(t, Joined(t, g)) + Sum(t, Joined(t, With(g, h)))
  {
    hide Sum, SubsetSum, Without;
    forall x | x in t
      ensures Joined([h] + t, g)(x) == Plus(Joined(t, g), Joined(t, With(g, h)))(x)
    {
      JoinedAt(h, t, g, x);
    }
    SumCongruence(t, Joined([h] + t, g), Plus(Joined(t, g), Joined(t, With(g, h))));
    SumPlus(t, Joined(t, g), Joined(t, With(g, h)));
  }

  lemma SizeTimesWith(t: seq<int>, h: int, g: Game)
    requires h !in Elements(t)
    ensures SubsetSum(t, With(SizeTimes(g), h)) == SubsetSum(t, SizeTimes(With(g, h))) + SubsetSum(t, With(g, h))
  {
    forall s | s <= Elements(t)
      ensures With(SizeTimes(g), h)(s) == SizeTimes(With(g, h))(s) + With(g, h)(s)
    {
      assert h !in s && |s + {h}| == |s| + 1;
      TimesSuccessor(|s|, g(s + {h}));
    }
    SubsetSumPlus(t, With(SizeTimes(g), h), SizeTimes(With(g, h)), With(g, h));
  }

  /** Counting every coalition once for each of its members: picking a member x first and then a
      coalition of the others reaches each coalition s exactly |s| times. */
  lemma {:induction false} MemberCounting(q: seq<int>, g: Game)
    requires Distinct(q)
    ensures Sum(q, Joined(q, g)) == SubsetSum(q, SizeTimes(g))
  {
    if q == [] {
      TimesZero(g({}));
      SumEmpty(Joined(q, g));
      assert SubsetSum(q, SizeTimes(g)) == Times(0, g({}));
    } else {
      hide Sum, SubsetSum, Joined, SizeTimes;
      var h, t := q[0], q[1..];
      assert q == [h] + t;
      MemberCounting(t, g);
      MemberCounting(t, With(g, h));
      JoinedCons(h, t, g);
      SizeTimesWith(t, h, g);
      assert h !in t && Without(q, h) == t;
    }
  }

  // ---------------------------------------------------------------- enumeration by size

  function Prefixed(x: int, xss: seq<seq<int>>): (r: seq<seq<int>>) {
    seq(|xss|, i requires 0 <= i < |xss| => [x] + xss[i])
  }

  /** itertools.combinations(xs, k): k-element selections in lexicographic order of position. */
  function Combinations(xs: seq<int>, k: nat): seq<seq<int>> {
    if k == 0 then [[]]
    else if xs == [] then []
    else Prefixed(xs[0], Combinations(xs[1..], k - 1)) + Combinations(xs[1..], k)
  }

  ghost function OnElements(f: Game): seq<int> -> real {
    c => f(Elements(c))
  }

  lemma {:induction false} SumPrefixed(x: int, xss: seq<seq<int>>, f: seq<int> -> real, g: seq<int> -> real)
    requires forall xs | xs in xss :: f([x] + xs) == g(xs)
    ensures Sum(Prefixed(x, xss), f) == Sum(xss, g)
  {
    if xss != [] {
      assert Prefixed(x, xss)[1..] == Prefixed(x, xss[1..]);
      SumPrefixed(x, xss[1..], f, g);
    }
  }

  /** The sum of f over the combinations of each size. */
  ghost function Level(q: seq<int>, f: Game): int -> real {
    k => if k < 0 then 0.0 else Sum(Combinations(q, k), OnElements(f))
  }

  ghost function Below(level: int -> real, m: nat): real {
    if m == 0 then 0.0 else Below(level, m - 1) + level(m - 1)
  }

  lemma LevelStep(q: seq<int>, f: Game, k: nat)
    requires q != []
    ensures Level(q, f)(k) == Level(q[1..], f)(k) + Level(q[1..], With(f, q[0]))(k - 1)
  {
    if k == 0 {
      assert Combinations(q, 0) == Combinations(q[1..], 0);
    } else {
      var taken := Combinations(q[1..], k - 1);
      forall c | c in taken
        ensures OnElements(f)([q[0]] + c) == OnElements(With(f, q[0]))(c)
      {
        assert Elements([q[0]] + c) == Elements(c) + {q[0]};
      }
      SumPrefixed(q[0], taken, OnElements(f), OnElements(With(f, q[0])));
      SumConcat(Prefixed(q[0], taken), Combinations(q[1..], k), OnElements(f));
    }
  }

  lemma {:induction false} BelowStep(a: int -> real, b: int -> real, c: int -> real, m: nat)
    requires c(-1) == 0.0 && forall k: nat :: a(k) == b(k) + c(k - 1)
    ensures Below(a, m + 1) == Below(b, m + 1) + Below(c, m)
  {
    if m > 0 {
      BelowStep(a, b, c, m - 1);
      assert a(m) == b(m) + c(m - 1);
    } else {
      assert a(0) == b(0) + c(-1);
      assert Below(a, 1) == Below(a, 0) + a(0);
      assert Below(b, 1) == Below(b, 0) + b(0);
    }
  }

  lemma {:induction false} NoLargeCombinations(q: seq<int>, k: nat)
    requires k > |q|
    ensures Combinations(q, k) == []
  {
    if q != [] {
      NoLargeCombinations(q[1..], k - 1);
      NoLargeCombinations(q[1..], k);
    }
  }

  /** Going through the sizes 0..|q| and all combinations of each size visits every subset once. */
  lemma {:induction false} LevelsCoverSubsets(q: seq<int>, f: Game)
    ensures Below(Level(q, f), |q| + 1) == SubsetSum(q, f)
  {
    if q == [] {
      assert Elements([]) == {};
      assert Below(Level(q, f), 0) == 0.0;
      SumSingle([], OnElements(f));
      assert Level(q, f)(0) == f({});
    } else {
      var t := q[1..];
      forall k: nat {
        LevelStep(q, f, k);
      }
      BelowStep(Level(q, f), Level(t, f), Level(t, With(f, q[0])), |q|);
      LevelsCoverSubsets(t, f);
      LevelsCoverSubsets(t, With(f, q[0]));
      NoLargeCombinations(t, |q|);
      assert Level(t, f)(|q|) == 0.0;
    }
  }

  /** A nonempty combination either takes the first element or leaves it. */
  lemma CombinationCases(q: seq<int>, k: nat, c: seq<int>)
    requires c in Combinations(q, k)
    ensures k == 0 ==> c == []
    ensures k > 0 ==> q != []
    ensures k > 0 && c !in Combinations(q[1..], k) ==> c != [] && c[0] == q[0] && c[1..] in Combinations(q[1..], k - 1)
  {
    if k > 0 && q != [] {
      PrefixedMembers(q[0], Combinations(q[1..], k - 1), c);
    }
  }

  lemma {:induction false} CombinationsAreSubsets(q: seq<int>, k: nat, c: seq<int>)
    requires Distinct(q) && c in Combinations(q, k)
    ensures Elements(c) <= Elements(q) && |Elements(c)| == k && Distinct(c)
  {
    hide Combinations, Elements;
    CombinationCases(q, k, c);
    if k == 0 {
      ElementsEmpty();
    } else {
      var h, t := q[0], q[1..];
      assert q == [h] + t;
      ElementsCons(h, t);
      if c in Combinations(t, k) {
        CombinationsAreSubsets(t, k, c);
      } else {
        assert c == [h] + c[1..];
        CombinationsAreSubsets(t, k - 1, c[1..]);
        PrefixedSubset(h, t, c[1..]);
      }
    }
  }

  lemma PrefixedSubset(h: int, t: seq<int>, c: seq<int>)
    requires h !in t && Elements(c) <= Elements(t) && Distinct(c)
    ensures Elements([h] + c) <= Elements([h] + t) && |Elements([h] + c)| == |Elements(c)| + 1
    ensures Distinct([h] + c)
  {
    assert Elements([h] + c) == {h} + Elements(c);
    assert h !in Elements(t);
    assert forall x | x in c :: x in Elements(c);
  }

  lemma {:induction false} EverySubsetIsACombination(q: seq<int>, s: set<int>, k: nat) returns (c: seq<int>)
    requires s <= Elements(q) && |s| == k
    ensures c in Combinations(q, k) && Elements(c) == s
  {
    hide Combinations, Elements;
    if k == 0 {
      c := [];
      assert Elements(c) == {} by {
        ElementsEmpty();
      }
      CombinationRule(q, 0, c);
    } else {
      assert q != [] by {
        ElementsEmpty();
      }
      var h, t := q[0], q[1..];
      ElementsCons(h, t);
      assert q == [h] + t;
      if h in s {
        var rest := s - {h};
        assert s == rest + {h};
        var d := EverySubsetIsACombination(t, rest, k - 1);
        c := [h] + d;
        ElementsCons(h, d);
      } else {
        c := EverySubsetIsACombination(t, s, k);
      }
      CombinationRule(q, k, c);
    }
  }

  lemma ElementsEmpty()
    ensures Elements([]) == {}
  {
  }

  lemma ElementsCons(h: int, t: seq<int>)
    ensures Elements([h] + t) == {h} + Elements(t)
  {
  }

  /** The three ways to be a combination. */
  lemma CombinationRule(q: seq<int>, k: nat, c: seq<int>)
    ensures k == 0 ==> (c in Combinations(q, k) <==> c == [])
    ensures k > 0 && q != [] && c in Combinations(q[1..], k) ==> c in Combinations(q, k)
    ensures k > 0 && q != [] && c != [] && c[0] == q[0] && c[1..] in Combinations(q[1..], k - 1)
        ==> c in Combinations(q, k)
  {
    if k > 0 && q != [] && c != [] && c[0] == q[0] && c[1..] in Combinations(q[1..], k - 1) {
      PrefixedMembers(q[0], Combinations(q[1..], k - 1), c);
    }
  }

  // ---------------------------------------------------------------- orders

  /** All orders of the elements of q: every choice of a first element, then every order of the rest. */
  ghost function Orders(q: seq<int>): seq<seq<int>>
    requires Distinct(q)
    decreases |q|, |q| + 1
  {
    if q == [] then [[]] else OrdersFrom(q, q)
  }

  /** The orders of q whose first element is one of firsts. */
  ghost function OrdersFrom(q: seq<int>, firsts: seq<int>): seq<seq<int>>
    requires Distinct(q) && forall x | x in firsts :: x in q
    decreases |q|, |firsts|
  {
    if firsts == [] then []
    else Prefixed(firsts[0], Orders(Without(q, firsts[0]))) + OrdersFrom(q, firsts[1..])
  }
  /** What x adds to v when the features join one after the other in the order o. */
  ghost function Before(o: seq<int>, x: int): set<int> {
    if o == [] || o[0] == x then {} else {o[0]} + Before(o[1..], x)
  }

  ghost function Marginal(v: Game, o: seq<int>, x: int): real {
    v(Before(o, x) + {x}) - v(Before(o, x))
  }

  ghost function Copies(k: nat, each: nat): nat {
    if k == 0 then 0 else each + Copies(k - 1, each)
  }

  lemma {:induction false} CopiesProduct(k: nat, each: nat)
    ensures Copies(k, each) == k * each
  {
    if k > 0 {
      CopiesProduct(k - 1, each);
    }
  }

  lemma CopiesStep(k: nat, each: nat)
    ensures Copies(0, each) == 0 && Copies(k + 1, each) == each + Copies(k, each)
  {
  }

  lemma OrdersFromStep(q: seq<int>, firsts: seq<int>)
    requires Distinct(q) && firsts != [] && forall x | x in firsts :: x in q
    ensures |OrdersFrom(q, firsts)| == |Orders(Without(q, firsts[0]))| + |OrdersFrom(q, firsts[1..])|
  {
    hide Orders, Without;
  }

  lemma {:induction false} OrdersFromCount(q: seq<int>, firsts: seq<int>, each: nat)
    requires Distinct(q) && q != [] && each == Fact(|q| - 1) && forall x | x in firsts :: x in q
    ensures |OrdersFrom(q, firsts)| == Copies(|firsts|, each)
    decreases |q|, |firsts|
  {
    if firsts == [] {
      CopiesStep(0, each);
    } else {
      hide *;
      var r := Without(q, firsts[0]);
      assert |r| == |q| - 1 && Distinct(r);
      OrdersFromStep(q, firsts);
      OrdersCount(r);
      OrdersFromCount(q, firsts[1..], each);
      CopiesStep(|firsts| - 1, each);
    }
  }

  /** There are n! orders of n features. */
  lemma {:induction false} OrdersCount(q: seq<int>)
    requires Distinct(q)
    ensures |Orders(q)| == Fact(|q|)
    decreases |q|, |q| + 1
  {
    if q != [] {
      OrdersFromCount(q, q, Fact(|q| - 1));
      CopiesProduct(|q|, Fact(|q| - 1));
    }
  }

  lemma {:induction false} WithoutMultiset(q: seq<int>, x: int)
    requires Distinct(q) && x in q
    ensures multiset(Without(q, x)) == multiset(q) - multiset{x}
  {
    assert q == [q[0]] + q[1..];
    if q[0] != x {
      WithoutMultiset(q[1..], x);
    }
  }

  /** Orders(q) contains every permutation of q and nothing else. */
  lemma {:induction false} OrdersArePermutations(q: seq<int>, o: seq<int>)
    requires Distinct(q)
    ensures o in Orders(q) <==> multiset(o) == multiset(q)
    decreases |q|, |q| + 1
  {
    if q == [] {
      assert |multiset(q)| == 0;
    } else {
      OrdersFromMembers(q, q, o);
      PermutationHead(q, o);
    }
  }

  lemma PermutationHead(q: seq<int>, o: seq<int>)
    requires Distinct(q) && q != []
    ensures multiset(o) == multiset(q)
       <==> o != [] && o[0] in q && multiset(o[1..]) == multiset(Without(q, o[0]))
  {
    assert |multiset(q)| == |q| && |multiset(o)| == |o|;
    if o != [] {
      var h := o[0];
      assert o == [h] + o[1..];
      assert multiset(o) == multiset{h} + multiset(o[1..]);
      assert h in multiset(o);
      if h in q {
        WithoutMultiset(q, h);
        assert h in multiset(q);
        assert multiset(q) == multiset{h} + multiset(Without(q, h));
      }
    }
  }

  lemma {:induction false} OrdersFromMembers(q: seq<int>, firsts: seq<int>, o: seq<int>)
    requires Distinct(q) && q != [] && forall x | x in firsts :: x in q
    ensures o in OrdersFrom(q, firsts)
       <==> o != [] && o[0] in firsts && multiset(o[1..]) == multiset(Without(q, o[0]))
    decreases |q|, |firsts|
  {
    if firsts != [] {
      var h, rest := firsts[0], Orders(Without(q, firsts[0]));
      OrdersFromMembers(q, firsts[1..], o);
      PrefixedMembers(h, rest, o);
      if o != [] && o[0] == h {
        OrdersArePermutations(Without(q, h), o[1..]);
      }
    }
  }

  lemma PrefixedMembers(x: int, xss: seq<seq<int>>, o: seq<int>)
    ensures o in Prefixed(x, xss) <==> o != [] && o[0] == x && o[1..] in xss
  {
    if o != [] && o[0] == x && o[1..] in xss {
      var i :| 0 <= i < |xss| && xss[i] == o[1..];
      assert Prefixed(x, xss)[i] == o;
    }
    if o in Prefixed(x, xss) {
      var i :| 0 <= i < |xss| && Prefixed(x, xss)[i] == o;
      assert o[1..] == xss[i];
    }
  }

  /** No order is listed twice. */
  lemma {:induction false} OrdersDistinct(q: seq<int>)
    requires Distinct(q)
    ensures Distinct(Orders(q))
    decreases |q|, |q| + 1
  {
    if q != [] {
      OrdersFromDistinct(q, q);
    }
  }

  lemma {:induction false} OrdersFromDistinct(q: seq<int>, firsts: seq<int>)
    requires Distinct(q) && Distinct(firsts) && q != [] && forall x | x in firsts :: x in q
    ensures Distinct(OrdersFrom(q, firsts))
    decreases |q|, |firsts|
  {
    if firsts != [] {
      var h, rest := firsts[0], Orders(Without(q, firsts[0]));
      OrdersDistinct(Without(q, h));
      OrdersFromDistinct(q, firsts[1..]);
      var left, right := Prefixed(h, rest), OrdersFrom(q, firsts[1..]);
      forall i, j | 0 <= i < |left| && 0 <= j < |right|
        ensures left[i] != right[j]
      {
        assert right[j] in right;
        OrdersFromMembers(q, firsts[1..], right[j]);
      }
      forall i, j | 0 <= i < j < |left|
        ensures left[i] != left[j]
      {
        assert left[i][1..] == rest[i] && left[j][1..] == rest[j];
      }
    }
  }

  // ---------------------------------------------------------------- subsets against orders

  /** The number of orders of n features in which a given feature is preceded by exactly s given ones. */
  function Coefficient(n: nat, s: nat): nat {
    if s < n then Fact(s) * Fact(n - 1 - s) else 0
  }

  ghost function Contribution(v: Game, x: int): Game {
    s => v(s + {x}) - v(s)
  }

  ghost function Weighted(v: Game, n: nat, x: int): Game {
    s => Times(Coefficient(n, |s|), Contribution(v, x)(s))
  }

  /** The weighted contribution as seen from one feature earlier. */
  ghost function Lowered(v: Game, n: nat, x: int): Game {
    s => if s == {} || n == 0 then 0.0 else Times(Coefficient(n - 1, |s| - 1), Contribution(v, x)(s))
  }

  ghost function Marginals(v: Game, x: int): seq<int> -> real {
    o => Marginal(v, o, x)
  }

  lemma MarginalAfter(v: Game, h: int, o: seq<int>, x: int)
    requires h != x
    ensures Marginal(v, [h] + o, x) == Marginal(With(v, h), o, x)
  {
    assert ([h] + o)[1..] == o;
    assert Before([h] + o, x) == Before(o, x) + {h};
    assert Before([h] + o, x) + {x} == Before(o, x) + {x} + {h};
  }

  lemma MarginalFirst(v: Game, o: seq<int>, x: int)
    ensures Marginal(v, [x] + o, x) == Contribution(v, x)({})
  {
  }

  /** What the orders contribute in which x comes before all of its m companions. */
  ghost function FirstShare(m: nat, v: Game, x: int): real {
    Times(Fact(m), Contribution(v, x)({}))
  }

  /** The share of the orders that start with h, for a fixed feature x and the others r. */
  ghost function StartingWith(r: seq<int>, v: Game, x: int): int -> real {
    h => if h == x then FirstShare(|r|, v, x) else Joined(r, Lowered(v, |r| + 1, x))(h)
  }

  lemma LoweredAt(v: Game, n: nat, x: int, h: int, s: set<int>)
    requires n > 0 && h !in s
    ensures Weighted(With(v, h), n - 1, x)(s) == With(Lowered(v, n, x), h)(s)
  {
    assert |s + {h}| - 1 == |s| && s + {h} != {};
    assert s + {x} + {h} == s + {h} + {x};
    assert Contribution(With(v, h), x)(s) == Contribution(v, x)(s + {h});
  }

  lemma LoweredJoined(q: seq<int>, v: Game, x: int, h: int)
    requires Distinct(q) && x in q && h in q && h != x
    ensures SubsetSum(Without(Without(q, h), x), Weighted(With(v, h), |q| - 1, x))
         == Joined(Without(q, x), Lowered(v, |q|, x))(h)
  {
    WithoutCommutes(q, h, x);
    var r := Without(Without(q, x), h);
    assert h !in Elements(r);
    forall s | s <= Elements(r)
      ensures Weighted(With(v, h), |q| - 1, x)(s) == With(Lowered(v, |q|, x), h)(s)
    {
      LoweredAt(v, |q|, x, h, s);
    }
    SubsetSumCongruence(r, Weighted(With(v, h), |q| - 1, x), With(Lowered(v, |q|, x), h));
  }

  lemma {:induction false} WithoutCommutes(q: seq<int>, x: int, y: int)
    ensures Without(Without(q, x), y) == Without(Without(q, y), x)
  {
    if q != [] {
      WithoutCommutes(q[1..], x, y);
      assert q[0] != x ==> Without(q, x)[1..] == Without(q[1..], x);
      assert q[0] != y ==> Without(q, y)[1..] == Without(q[1..], y);
    }
  }

  lemma OrdersStartingWithSelf(q: seq<int>, v: Game, x: int)
    requires Distinct(q) && x in q
    ensures Sum(Prefixed(x, Orders(Without(q, x))), Marginals(v, x)) == StartingWith(Without(q, x), v, x)(x)
  {
    var r := Without(q, x);
    var os := Prefixed(x, Orders(r));
    var alone := Contribution(v, x)({});
    forall o | o in os
      ensures Marginals(v, x)(o) == alone
    {
      PrefixedMembers(x, Orders(r), o);
      MarginalFirst(v, o[1..], x);
      assert o == [x] + o[1..];
    }
    OrdersCount(r);
    SumConstant(os, Marginals(v, x), alone, Fact(|r|));
  }

  lemma OrdersStartingWithOther(q: seq<int>, v: Game, x: int, h: int)
    requires Distinct(q) && x in q && h in q && h != x
    requires Sum(Orders(Without(q, h)), Marginals(With(v, h), x))
          == SubsetSum(Without(Without(q, h), x), Weighted(With(v, h), |Without(q, h)|, x))
    ensures Sum(Prefixed(h, Orders(Without(q, h))), Marginals(v, x)) == StartingWith(Without(q, x), v, x)(h)
  {
    var rest := Orders(Without(q, h));
    forall o | o in rest
      ensures Marginals(v, x)([h] + o) == Marginals(With(v, h), x)(o)
    {
      MarginalAfter(v, h, o, x);
    }
    SumPrefixed(h, rest, Marginals(v, x), Marginals(With(v, h), x));
    assert |Without(q, h)| == |q| - 1;
    LoweredJoined(q, v, x, h);
  }

  lemma {:induction false} OrdersFromSum(q: seq<int>, firsts: seq<int>, v: Game, x: int)
    requires Distinct(q) && x in q && forall h | h in firsts :: h in q
    ensures Sum(OrdersFrom(q, firsts), Marginals(v, x)) == Sum(firsts, StartingWith(Without(q, x), v, x))
    decreases |q|, |firsts|
  {
    if firsts != [] {
      var h := firsts[0];
      OrdersFromSum(q, firsts[1..], v, x);
      SumConcat(Prefixed(h, Orders(Without(q, h))), OrdersFrom(q, firsts[1..]), Marginals(v, x));
      if h == x {
        OrdersStartingWithSelf(q, v, x);
      } else {
        assert Distinct(Without(q, h)) && x in Elements(Without(q, h));
        SubsetsMatchOrders(Without(q, h), With(v, h), x);
        OrdersStartingWithOther(q, v, x, h);
      }
    }
  }

  lemma {:induction false} SumWithout(q: seq<int>, x: int, f: int -> real)
    requires Distinct(q) && x in q
    ensures Sum(q, f) == f(x) + Sum(Without(q, x), f)
  {
    if q[0] != x {
      SumWithout(q[1..], x, f);
      assert Without(q, x)[1..] == Without(q[1..], x);
    } else {
      assert Without(q, x) == q[1..];
    }
  }

  lemma SizedLoweredAt(v: Game, n: nat, x: int, s: set<int>)
    requires s != {} && |s| < n
    ensures Weighted(v, n, x)(s) == SizeTimes(Lowered(v, n, x))(s)
  {
    CoefficientStep(n, |s|);
    ScaleThrough(Coefficient(n, |s|), |s|, Coefficient(n - 1, |s| - 1), Contribution(v, x)(s));
  }

  lemma SizedLowered(q: seq<int>, v: Game, n: nat, x: int)
    requires |q| < n
    ensures SubsetSum(q, Weighted(v, n, x)) == SubsetSum(q, SizeTimes(Lowered(v, n, x))) + FirstShare(n - 1, v, x)
  {
    var f, g := Weighted(v, n, x), SizeTimes(Lowered(v, n, x));
    forall s | s <= Elements(q) && s != {}
      ensures f(s) == g(s)
    {
      ElementsSize(q, s);
      SizedLoweredAt(v, n, x, s);
    }
    SubsetSumAtEmpty(q, f, g);
    assert f({}) == FirstShare(n - 1, v, x);
    var none: set<int> := {};
    assert |none| == 0 && Lowered(v, n, x)(none) == 0.0;
    assert g({}) == 0.0;
  }

  lemma ScaleThrough(c: nat, k: nat, d: nat, m: real)
    requires c == k * d
    ensures Times(c, m) == Times(k, Times(d, m))
  {
    assert c as real == k as real * d as real;
  }

  lemma CoefficientStep(n: nat, k: nat)
    requires 0 < k < n
    ensures Coefficient(n, k) == k * Coefficient(n - 1, k - 1)
  {
    assert Fact(k) == k * Fact(k - 1);
    assert n - 1 - k == n - 1 - 1 - (k - 1);
  }

  lemma {:induction false} ElementsSize(q: seq<int>, s: set<int>)
    requires s <= Elements(q)
    ensures |s| <= |q|
  {
    if q != [] {
      ElementsSize(q[1..], s - {q[0]});
    } else {
      assert s == {};
    }
  }

  /** The factorial-weighted sum over all coalitions without x equals the sum, over all orders, of
      what x adds when it joins. */
  lemma {:induction false} SubsetsMatchOrders(q: seq<int>, v: Game, x: int)
    requires Distinct(q) && x in q
    ensures Sum(Orders(q), Marginals(v, x)) == SubsetSum(Without(q, x), Weighted(v, |q|, x))
    decreases |q|, |q| + 1
  {
    hide Sum, SubsetSum, Without, Fact, Coefficient;
    var n, r := |q|, Without(q, x);
    var g := Lowered(v, n, x);
    assert x in Elements(q) && x !in Elements(r);
    calc {
      Sum(Orders(q), Marginals(v, x));
    ==  { OrdersFromSum(q, q, v, x); }
      Sum(q, StartingWith(r, v, x));
    ==  { SumWithout(q, x, StartingWith(r, v, x)); }
      FirstShare(n - 1, v, x) + Sum(r, StartingWith(r, v, x));
    ==  { SumCongruence(r, StartingWith(r, v, x), Joined(r, g)); }
      FirstShare(n - 1, v, x) + Sum(r, Joined(r, g));
    ==  { MemberCounting(r, g); }
      FirstShare(n - 1, v, x) + SubsetSum(r, SizeTimes(g));
    ==  { SizedLowered(r, v, n, x); }
      SubsetSum(r, Weighted(v, n, x));
    }
  }

  ghost function MarginalsOf(v: Game, o: seq<int>): int -> real {
    x => Marginal(v, o, x)
  }

  /** Along one order the marginals telescope. */
  lemma {:induction false} MarginalsTelescope(v: Game, o: seq<int>)
    requires Distinct(o)
    ensures Sum(o, MarginalsOf(v, o)) == v(Elements(o)) - v({})
  {
    if o != [] {
      var h, t := o[0], o[1..];
      assert o == [h] + t;
      MarginalsTelescope(With(v, h), t);
      forall x | x in t
        ensures MarginalsOf(v, o)(x) == MarginalsOf(With(v, h), t)(x)
      {
        MarginalAfter(v, h, t, x);
      }
      SumCongruence(t, MarginalsOf(v, o), MarginalsOf(With(v, h), t));
      MarginalFirst(v, t, h);
      assert Elements(o) == Elements(t) + {h};
    } else {
      assert Elements(o) == {};
    }
  }
}
