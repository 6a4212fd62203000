/** Absolute values, and finite sums of reals over sequences with the rearrangement laws the other modules use. */
module RealSums {

  function Magnitude(x: real): (m: real)
    ensures m >= 0.0
  {
    if x < 0.0 then -x else x
  }

  ghost function Sum<T>(xs: seq<T>, f: T -> real): real {
    if xs == [] then 0.0 else f(xs[0]) + Sum(xs[1..], f)
  }

  lemma {:induction false} SumConcat<T>(xs: seq<T>, ys: seq<T>, f: T -> real)
    ensures Sum(xs + ys, f) == Sum(xs, f) + Sum(ys, f)
  {
    if xs == [] {
      assert xs + ys == ys;
    } else {
      assert (xs + ys)[1..] == xs[1..] + ys;
      SumConcat(xs[1..], ys, f);
    }
  }

  lemma SumEmpty<T>(f: T -> real)
    ensures Sum([], f) == 0.0
  {
  }

  lemma SumSingle<T>(x: T, f: T -> real)
    ensures Sum([x], f) == f(x)
  {
    assert [x][1..] == [];
  }

  lemma SumSnoc<T>(xs: seq<T>, x: T, f: T -> real)
    ensures Sum(xs + [x], f) == Sum(xs, f) + f(x)
  {
    SumConcat(xs, [x], f);
    SumSingle(x, f);
  }

  lemma {:induction false} SumCongruence<T>(xs: seq<T>, f: T -> real, g: T -> real)
    requires forall x | x in xs :: f(x) == g(x)
    ensures Sum(xs, f) == Sum(xs, g)
  {
    if xs != [] {
      SumCongruence(xs[1..], f, g);
    }
  }

  ghost function Plus<T>(f: T -> real, g: T -> real): T -> real {
    x => f(x) + g(x)
  }

  ghost function Scaled<T>(c: real, f: T -> real): T -> real {
    x => c * f(x)
  }

  lemma {:induction false} SumPlus<T>(xs: seq<T>, f: T -> real, g: T -> real)
    ensures Sum(xs, Plus(f, g)) == Sum(xs, f) + Sum(xs, g)
  {
    if xs != [] {
      SumPlus(xs[1..], f, g);
    }
  }

  lemma {:induction false} SumScaled<T>(xs: seq<T>, c: real, f: T -> real)
    ensures Sum(xs, Scaled(c, f)) == c * Sum(xs, f)
  {
    if xs != [] {
      SumScaled(xs[1..], c, f);
    }
  }

  /** k copies of c. Naming the product lets equal factors be recognised without arithmetic. */
  ghost function Times(k: nat, c: real): real {
    k as real * c
  }

  /** A named product, for the same reason. */
  function Product(a: real, b: real): real {
    a * b
  }

  lemma TimesZero(c: real)
    ensures Times(0, c) == 0.0
  {
  }

  lemma TimesSuccessor(k: nat, c: real)
    ensures Times(k + 1, c) == Times(k, c) + c
  {
  }

  lemma {:induction false} SumConstant<T>(xs: seq<T>, f: T -> real, c: real, n: nat)
    requires |xs| == n && forall x | x in xs :: f(x) == c
    ensures Sum(xs, f) == Times(n, c)
  {
    if n > 0 {
      SumConstant(xs[1..], f, c, n - 1);
    }
  }

  lemma {:induction false} SumMonotone<T>(xs: seq<T>, f: T -> real, g: T -> real)
    requires forall x | x in xs :: f(x) <= g(x)
    ensures Sum(xs, f) <= Sum(xs, g)
  {
    if xs != [] {
      SumMonotone(xs[1..], f, g);
    }
  }

  ghost function Row<S, T>(f: (S, T) -> real, x: S): T -> real {
    y => f(x, y)
  }

  ghost function Column<S, T>(f: (S, T) -> real, y: T): S -> real {
    x => f(x, y)
  }

  ghost function RowSums<S, T>(ys: seq<T>, f: (S, T) -> real): S -> real {
    x => Sum(ys, Row(f, x))
  }

  ghost function ColumnSums<S, T>(xs: seq<S>, f: (S, T) -> real): T -> real {
    y => Sum(xs, Column(f, y))
  }

  /** A finite double sum may be taken in either order. */
  lemma {:induction false} SumExchange<S, T>(xs: seq<S>, ys: seq<T>, f: (S, T) -> real)
    ensures Sum(xs, RowSums(ys, f)) == Sum(ys, ColumnSums(xs, f))
  {
    if xs == [] {
      SumConstant(ys, ColumnSums(xs, f), 0.0, |ys|);
    } else {
      SumExchange(xs[1..], ys, f);
      SumPlus(ys, Row(f, xs[0]), ColumnSums(xs[1..], f));
      SumCongruence(ys, ColumnSums(xs, f), Plus(Row(f, xs[0]), ColumnSums(xs[1..], f)));
    }
  }

  ghost function RemoveAt<T>(xs: seq<T>, k: nat): seq<T>
    requires k < |xs|
  {
    xs[..k] + xs[k + 1..]
  }

  /** Removing one element from a sequence removes its term from the sum. */
  lemma SumRemove<T>(xs: seq<T>, k: nat, f: T -> real)
    requires k < |xs|
    ensures Sum(xs, f) == f(xs[k]) + Sum(RemoveAt(xs, k), f)
  {
    hide Sum;
    assert xs == xs[..k] + ([xs[k]] + xs[k + 1..]);
    SumConcat(xs[..k], [xs[k]] + xs[k + 1..], f);
    SumConcat([xs[k]], xs[k + 1..], f);
    SumSingle(xs[k], f);
    SumConcat(xs[..k], xs[k + 1..], f);
  }

  lemma RemoveMultiset<T>(xs: seq<T>, k: nat)
    requires k < |xs|
    ensures multiset(RemoveAt(xs, k)) == multiset(xs) - multiset{xs[k]}
    ensures |RemoveAt(xs, k)| == |xs| - 1
  {
    assert xs == xs[..k] + [xs[k]] + xs[k + 1..];
  }

  /** A sum depends only on the multiset of its terms. */
  lemma {:induction false} SumPermutation<T>(xs: seq<T>, ys: seq<T>, f: T -> real)
    requires multiset(xs) == multiset(ys)
    ensures Sum(xs, f) == Sum(ys, f)
    decreases |xs|
  {
    hide Sum, RemoveAt;
    if xs == [] {
      assert |multiset(ys)| == 0;
      assert ys == [];
    } else {
      assert xs[0] in multiset(ys);
      var k :| 0 <= k < |ys| && ys[k] == xs[0];
      RemoveMultiset(ys, k);
      RemoveMultiset(xs, 0);
      SumPermutation(RemoveAt(xs, 0), RemoveAt(ys, k), f);
      SumRemove(xs, 0, f);
      SumRemove(ys, k, f);
    }
  }
}
