/** Code-point order of strings and the stable sort by a string key (sorted() over str keys). */
module StringOrder {
  import opened Sequences

  predicate Le(a: string, b: string) {
    if a == [] then true
    else if b == [] then false
    else a[0] < b[0] || (a[0] == b[0] && Le(a[1..], b[1..]))
  }

  /** The strings are equal up to position k, and there a has the smaller character. */
  ghost predicate SmallerAt(a: string, b: string, k: nat) {
    k < |a| && k < |b| && a[..k] == b[..k] && a[k] < b[k]
  }

  /** Code-point order: a is a prefix of b, or smaller at the first difference. */
  ghost predicate UpTo(a: string, b: string) {
    a <= b || exists k: nat :: SmallerAt(a, b, k)
  }

  lemma SmallerLater(h: char, s: string, t: string)
    ensures UpTo([h] + s, [h] + t) <==> UpTo(s, t)
  {
    var a, b := [h] + s, [h] + t;
    assert a[1..] == s;
    if |s| <= |t| {
      var start := [h] + t[..|s|];
      assert b[..|a|] == start && start[1..] == t[..|s|];
    }
    if k: nat :| SmallerAt(a, b, k) {
      assert k > 0;
      assert s[..k - 1] == a[..k][1..] && t[..k - 1] == b[..k][1..];
      assert SmallerAt(s, t, k - 1);
    }
    if k: nat :| SmallerAt(s, t, k) {
      assert a[..k + 1] == [h] + s[..k] && b[..k + 1] == [h] + t[..k];
      assert SmallerAt(a, b, k + 1);
    }
  }

  /** The comparison of strings is the code-point order. */
  lemma {:induction false} LeIsCodePointOrder(a: string, b: string)
    ensures Le(a, b) <==> UpTo(a, b)
  {
    if a != [] && b != [] {
      assert a == [a[0]] + a[1..] && b == [b[0]] + b[1..];
      if a[0] == b[0] {
        LeIsCodePointOrder(a[1..], b[1..]);
        SmallerLater(a[0], a[1..], b[1..]);
      } else {
        assert SmallerAt(a, b, 0) <==> a[0] < b[0];
      }
    }
  }

  lemma {:induction false} LeTotal(a: string, b: string)
    ensures Le(a, b) || Le(b, a)
  {
    if a != [] && b != [] && a[0] == b[0] {
      LeTotal(a[1..], b[1..]);
    }
  }

  lemma {:induction false} LeAntisymmetric(a: string, b: string)
    requires Le(a, b) && Le(b, a)
    ensures a == b
  {
    if a != [] {
      LeAntisymmetric(a[1..], b[1..]);
      assert a == [a[0]] + a[1..] && b == [b[0]] + b[1..];
    }
  }

  lemma {:induction false} LeTransitive(a: string, b: string, c: string)
    requires Le(a, b) && Le(b, c)
    ensures Le(a, c)
  {
    if a != [] && b != [] && c != [] && a[0] == b[0] == c[0] {
      LeTransitive(a[1..], b[1..], c[1..]);
    }
  }

  ghost predicate Ascending<T>(xs: seq<T>, key: T -> string) {
    forall i, j | 0 <= i < j < |xs| :: Le(key(xs[i]), key(xs[j]))
  }

  function Insert<T>(x: T, xs: seq<T>, key: T -> string): seq<T> {
    if xs == [] || Le(key(x), key(xs[0])) then [x] + xs else [xs[0]] + Insert(x, xs[1..], key)
  }

  /** The stable ascending sort of xs by key. */
  function SortBy<T>(xs: seq<T>, key: T -> string): seq<T> {
    if xs == [] then [] else Insert(xs[0], SortBy(xs[1..], key), key)
  }

  lemma AscendingCons<T>(x: T, ys: seq<T>, key: T -> string)
    ensures Ascending([x] + ys, key) <==> Ascending(ys, key) && forall y | y in ys :: Le(key(x), key(y))
  {
    hide Le;
    var xs := [x] + ys;
    if Ascending(xs, key) {
      forall i, j | 0 <= i < j < |ys|
        ensures Le(key(ys[i]), key(ys[j]))
      {
        assert xs[i + 1] == ys[i] && xs[j + 1] == ys[j];
      }
      forall j | 0 <= j < |ys|
        ensures Le(key(x), key(ys[j]))
      {
        assert xs[0] == x && xs[j + 1] == ys[j];
      }
    }
  }

  lemma {:induction false} InsertAdds<T>(x: T, xs: seq<T>, key: T -> string)
    ensures multiset(Insert(x, xs, key)) == multiset{x} + multiset(xs)
  {
    hide Le;
    if xs != [] {
      assert xs == [xs[0]] + xs[1..];
      InsertAdds(x, xs[1..], key);
    }
  }

  lemma {:induction false} InsertAscends<T>(x: T, xs: seq<T>, key: T -> string)
    requires Ascending(xs, key)
    ensures Ascending(Insert(x, xs, key), key)
  {
    hide Ascending, Le;
    if xs == [] {
      AscendingCons(x, xs, key);
    } else {
      var h, t := xs[0], xs[1..];
      assert xs == [h] + t;
      AscendingCons(h, t, key);
      if Le(key(x), key(h)) {
        forall y | y in xs
          ensures Le(key(x), key(y))
        {
          if y != h {
            LeTransitive(key(x), key(h), key(y));
          }
        }
        AscendingCons(x, xs, key);
      } else {
        LeTotal(key(x), key(h));
        InsertAscends(x, t, key);
        InsertAdds(x, t, key);
        var rest := Insert(x, t, key);
        assert forall y :: y in rest <==> y in multiset(rest);
        AscendingCons(h, rest, key);
      }
    }
  }

  lemma {:induction false} SortByFacts<T>(xs: seq<T>, key: T -> string)
    ensures multiset(SortBy(xs, key)) == multiset(xs)
    ensures Ascending(SortBy(xs, key), key)
    ensures |SortBy(xs, key)| == |xs|
  {
    hide Ascending, Le, Insert;
    if xs != [] {
      SortByFacts(xs[1..], key);
      InsertAdds(xs[0], SortBy(xs[1..], key), key);
      InsertAscends(xs[0], SortBy(xs[1..], key), key);
      assert xs == [xs[0]] + xs[1..];
    } else {
      assert Ascending(xs, key) by {
        EmptyAscends(key);
      }
    }
    assert |SortBy(xs, key)| == |multiset(SortBy(xs, key))|;
    assert |xs| == |multiset(xs)|;
  }

  lemma EmptyAscends<T>(key: T -> string)
    ensures Ascending([], key)
  {
  }

  /** The sort puts the keys in code-point order. */
  lemma SortByInOrder<T>(xs: seq<T>, key: T -> string, i: nat, j: nat)
    requires i < j < |SortBy(xs, key)|
    ensures UpTo(key(SortBy(xs, key)[i]), key(SortBy(xs, key)[j]))
  {
    hide SortBy, Le, UpTo;
    SortByFacts(xs, key);
    LeIsCodePointOrder(key(SortBy(xs, key)[i]), key(SortBy(xs, key)[j]));
  }

  /** Sorting keeps exactly the elements. */
  lemma SortByMembers<T>(xs: seq<T>, key: T -> string)
    ensures forall x :: x in SortBy(xs, key) <==> x in xs
  {
    SortByFacts(xs, key);
    forall x
      ensures x in SortBy(xs, key) <==> x in xs
    {
      assert x in SortBy(xs, key) <==> x in multiset(SortBy(xs, key));
      assert x in xs <==> x in multiset(xs);
    }
  }

  ghost predicate DistinctKeys<T>(xs: seq<T>, key: T -> string) {
    forall i, j | 0 <= i < j < |xs| :: key(xs[i]) != key(xs[j])
  }

  lemma DistinctKeysCons<T>(x: T, ys: seq<T>, key: T -> string)
    ensures DistinctKeys([x] + ys, key) <==> DistinctKeys(ys, key) && forall y | y in ys :: key(x) != key(y)
  {
    var xs := [x] + ys;
    if DistinctKeys(xs, key) {
      forall i, j | 0 <= i < j < |ys|
        ensures key(ys[i]) != key(ys[j])
      {
        assert xs[i + 1] == ys[i] && xs[j + 1] == ys[j];
      }
      forall j | 0 <= j < |ys|
        ensures key(x) != key(ys[j])
      {
        assert xs[0] == x && xs[j + 1] == ys[j];
      }
    }
  }

  lemma {:induction false} InsertKeepsDistinct<T>(x: T, xs: seq<T>, key: T -> string)
    requires DistinctKeys([x] + xs, key)
    ensures DistinctKeys(Insert(x, xs, key), key)
  {
    hide DistinctKeys, Le;
    if xs != [] && !Le(key(x), key(xs[0])) {
      var h, t := xs[0], xs[1..];
      assert xs == [h] + t;
      DistinctKeysCons(x, xs, key);
      DistinctKeysCons(h, t, key);
      DistinctKeysCons(x, t, key);
      InsertKeepsDistinct(x, t, key);
      HeadStaysDistinct(h, x, t, key);
    }
  }

  lemma HeadStaysDistinct<T>(h: T, x: T, t: seq<T>, key: T -> string)
    requires DistinctKeys(Insert(x, t, key), key)
    requires key(h) != key(x) && forall y | y in t :: key(h) != key(y)
    ensures DistinctKeys([h] + Insert(x, t, key), key)
  {
    hide DistinctKeys, Insert;
    var rest := Insert(x, t, key);
    InsertAdds(x, t, key);
    forall y | y in rest
      ensures key(h) != key(y)
    {
      assert y in multiset(rest);
    }
    DistinctKeysCons(h, rest, key);
  }

  lemma {:induction false} SortKeepsDistinct<T>(xs: seq<T>, key: T -> string)
    requires DistinctKeys(xs, key)
    ensures DistinctKeys(SortBy(xs, key), key)
  {
    hide DistinctKeys, Insert;
    if xs != [] {
      var h, t := xs[0], xs[1..];
      assert xs == [h] + t;
      DistinctKeysCons(h, t, key);
      SortKeepsDistinct(t, key);
      var sorted := SortBy(t, key);
      forall y | y in sorted
        ensures key(h) != key(y)
      {
        SortByFacts(t, key);
        SameMembers(sorted, t, y);
      }
      DistinctKeysCons(h, sorted, key);
      InsertKeepsDistinct(h, sorted, key);
    }
  }

  /** No two different elements share a key. */
  ghost predicate KeyDetermines<T(!new)>(xs: seq<T>, key: T -> string) {
    forall x, y | x in xs && y in xs && key(x) == key(y) :: x == y
  }

  lemma SmallestFirst<T>(xs: seq<T>, key: T -> string, y: T)
    requires xs != [] && Ascending(xs, key) && y in xs
    ensures Le(key(xs[0]), key(y))
  {
    hide Le;
    LeTotal(key(y), key(y));
    var k :| 0 <= k < |xs| && xs[k] == y;
    assert k > 0 ==> Le(key(xs[0]), key(xs[k]));
  }

  lemma TailFacts<T>(xs: seq<T>, key: T -> string)
    requires xs != []
    ensures multiset(xs[1..]) == multiset(xs) - multiset{xs[0]}
    ensures Ascending(xs, key) ==> Ascending(xs[1..], key)
  {
    hide Le;
    assert xs == [xs[0]] + xs[1..];
    if Ascending(xs, key) {
      AscendingCons(xs[0], xs[1..], key);
    }
  }

  /** An ascending sequence with one element per key is determined by its elements. */
  lemma {:induction false} AscendingUnique<T(!new)>(xs: seq<T>, ys: seq<T>, key: T -> string)
    requires Ascending(xs, key) && Ascending(ys, key) && multiset(xs) == multiset(ys)
    requires KeyDetermines(xs, key)
    ensures xs == ys
    decreases |xs|
  {
    hide Le, Ascending;
    assert |multiset(xs)| == |xs| && |multiset(ys)| == |ys|;
    if xs != [] {
      var x, y := xs[0], ys[0];
      SameMembers(xs, ys, x);
      SameMembers(xs, ys, y);
      SmallestFirst(xs, key, y);
      SmallestFirst(ys, key, x);
      LeAntisymmetric(key(x), key(y));
      assert x == y;
      TailFacts(xs, key);
      TailFacts(ys, key);
      AscendingUnique(xs[1..], ys[1..], key);
      assert xs == [x] + xs[1..] && ys == [x] + ys[1..];
    }
  }

  /** With one element per key, sorting forgets the original order. */
  lemma SortByPermutation<T(!new)>(xs: seq<T>, ys: seq<T>, key: T -> string)
    requires multiset(xs) == multiset(ys) && KeyDetermines(xs, key)
    ensures SortBy(xs, key) == SortBy(ys, key)
  {
    hide SortBy, Ascending;
    SortByFacts(xs, key);
    SortByFacts(ys, key);
    SortByMembers(xs, key);
    AscendingUnique(SortBy(xs, key), SortBy(ys, key), key);
  }
}
