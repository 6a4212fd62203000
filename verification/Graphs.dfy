/** Dependency graphs over names: a graph gives each name the names it depends on. */
module Graphs {
  import opened Sequences

  type Graph = string -> set<string>

  /** A walk along dependencies. */
  ghost predicate Walk(g: Graph, p: seq<string>) {
    forall i | 0 <= i < |p| - 1 :: p[i + 1] in g(p[i])
  }

  ghost predicate Cycle(g: Graph, p: seq<string>) {
    |p| >= 2 && p[0] == p[|p| - 1] && Walk(g, p)
  }

  ghost predicate NoCycle(g: Graph) {
    forall p :: !Cycle(g, p)
  }

  ghost function Before(order: seq<string>, i: nat): set<string>
    requires i <= |order|
  {
    set b | b in order[..i]
  }

  /** Every name comes after all it depends on. */
  ghost predicate Ordered(g: Graph, order: seq<string>) {
    forall i | 0 <= i < |order| :: g(order[i]) <= Before(order, i)
  }

  /** From a name in a dependencies-first order, a walk only ever goes back in the order. */
  lemma {:induction false} WalksGoBack(g: Graph, order: seq<string>, p: seq<string>, i: nat)
    requires Distinct(order) && Ordered(g, order) && Walk(g, p)
    requires i < |order| && |p| >= 2 && p[0] == order[i]
    ensures p[|p| - 1] in Before(order, i)
  {
    assert p[1] in g(p[0]);
    assert p[1] in Before(order, i);
    if |p| > 2 {
      var j :| 0 <= j < |order[..i]| && order[..i][j] == p[1];
      var t := p[1..];
      forall k | 0 <= k < |t| - 1
        ensures t[k + 1] in g(t[k])
      {
        assert t[k] == p[k + 1];
      }
      WalksGoBack(g, order, t, j);
      assert forall b | b in order[..j] :: b in order[..i];
    }
  }

  /** An order of all names that depend on something rules out cycles. */
  lemma OrderedHasNoCycle(g: Graph, order: seq<string>)
    requires Distinct(order) && Ordered(g, order) && forall b | g(b) != {} :: b in order
    ensures NoCycle(g)
  {
    forall p
      ensures !Cycle(g, p)
    {
      if Cycle(g, p) {
        assert p[1] in g(p[0]);
        var i :| 0 <= i < |order| && order[i] == p[0];
        WalksGoBack(g, order, p, i);
      }
    }
  }

  // ---------------------------------------------------------------- an order exists without cycles

  /** Every one of the names depends on another one of them. */
  ghost predicate Stuck(g: Graph, names: set<string>) {
    forall b | b in names :: g(b) * names != {}
  }

  lemma SomeMember(s: set<string>) returns (x: string)
    requires s != {}
    ensures x in s
  {
    x :| x in s;
  }

  /** Among stuck names there are walks of any length. */
  lemma {:induction false} LongWalk(g: Graph, names: set<string>, n: nat) returns (p: seq<string>)
    requires Stuck(g, names) && names != {}
    ensures |p| == n + 1 && Walk(g, p) && forall b | b in p :: b in names
  {
    if n == 0 {
      var b := SomeMember(names);
      p := [b];
    } else {
      var q := LongWalk(g, names, n - 1);
      var last := q[n - 1];
      assert last in q;
      var next := SomeMember(g(last) * names);
      p := q + [next];
      forall i | 0 <= i < |p| - 1
        ensures p[i + 1] in g(p[i])
      {
        assert i < n - 1 ==> q[i + 1] in g(q[i]);
      }
    }
  }

  /** A sequence without repetition is no longer than the set it is drawn from. */
  lemma {:induction false} DistinctFits(p: seq<string>, names: set<string>)
    requires Distinct(p) && forall b | b in p :: b in names
    ensures |p| <= |names|
  {
    if p != [] {
      var t := p[1..];
      assert p[0] !in t;
      DistinctFits(t, names - {p[0]});
    }
  }

  lemma PartOfWalk(g: Graph, p: seq<string>, i: nat, j: nat)
    requires Walk(g, p) && i <= j < |p|
    ensures Walk(g, p[i..j + 1])
  {
    var part := p[i..j + 1];
    forall k | 0 <= k < |part| - 1
      ensures part[k + 1] in g(part[k])
    {
      assert p[i + k + 1] in g(p[i + k]);
    }
  }

  /** Stuck names contain a cycle. */
  lemma StuckHasCycle(g: Graph, names: set<string>)
    requires Stuck(g, names) && names != {}
    ensures !NoCycle(g)
  {
    hide Walk, Stuck;
    var p := LongWalk(g, names, |names|);
    if Distinct(p) {
      DistinctFits(p, names);
    }
    var i, j :| 0 <= i < j < |p| && p[i] == p[j];
    PartOfWalk(g, p, i, j);
    assert Cycle(g, p[i..j + 1]);
  }

  /** Names that can be put in order one by one: an order exists whenever there is no cycle. */
  lemma {:induction false} CanBeOrdered(g: Graph, names: set<string>, done: seq<string>) returns (order: seq<string>)
    requires NoCycle(g) && Distinct(done) && Ordered(g, done)
    requires forall b | b in done :: b !in names
    requires forall b | b in names :: forall d | d in g(b) :: d in names || d in done
    ensures Distinct(order) && Ordered(g, order) && forall b :: b in order <==> b in done || b in names
    decreases |names|
  {
    if names == {} {
      order := done;
    } else {
      if Stuck(g, names) {
        StuckHasCycle(g, names);
      }
      var b :| b in names && g(b) * names == {};
      var next := done + [b];
      forall d | d in g(b)
        ensures d in done
      {
        assert d in names ==> d in g(b) * names;
      }
      Place(g, done, b);
      order := CanBeOrdered(g, names - {b}, next);
    }
  }

  lemma Place(g: Graph, done: seq<string>, b: string)
    requires Distinct(done) && Ordered(g, done) && b !in done && forall d | d in g(b) :: d in done
    ensures Distinct(done + [b]) && Ordered(g, done + [b])
  {
    var next := done + [b];
    forall i | 0 <= i < |next|
      ensures g(next[i]) <= Before(next, i)
    {
      if i < |done| {
        assert next[..i] == done[..i];
        assert g(done[i]) <= Before(done, i);
      } else {
        assert next[..i] == done;
      }
    }
  }
}
