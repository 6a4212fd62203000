/** Anomaly detection, after risk/detectors.py: the duplicate and round-amount rules over a population. */
module Risk {
  import opened RealSums
  import opened Sequences

  datatype Txn = Txn(rowId: string, documentRef: string, counterparty: string, net: real)

  datatype Severity = High | Medium | Low

  datatype Detector = DUP001 | RND001

  datatype Evidence = Evidence(matchDocument: string, matchRowId: string, matchAmount: real) | NoMatch

  datatype Finding = Finding(detector: Detector, severity: Severity, rowId: string, documentRef: string,
                             amount: real, evidence: Evidence)

  const ROUND_THRESHOLD: real := 10000.0
  const DUPLICATE_TOLERANCE: real := 0.02

  /** The test of the duplicate rule; note that the difference is divided by the signed amount. */
  predicate Similar(a: real, b: real) {
    a != 0.0 && Magnitude(a - b) / a <= DUPLICATE_TOLERANCE
  }

  function PairFinding(a: Txn, b: Txn): Finding {
    Finding(DUP001, if a.net == b.net then High else Medium, b.rowId, b.documentRef, b.net,
            Evidence(a.documentRef, a.rowId, a.net))
  }

  predicate RoundAmount(x: real) {
    x >= ROUND_THRESHOLD && x == 1000.0 * (x / 1000.0).Floor as real
  }

  function RoundFinding(t: Txn): Finding {
    Finding(RND001, Low, t.rowId, t.documentRef, t.net, NoMatch)
  }

  // ---------------------------------------------------------------- what the loops compute

  /** The counterparties in order of first appearance: the keys of the grouping dictionary. */
  function Parties(txns: seq<Txn>): seq<string> {
    if txns == [] then []
    else
      var before, c := Parties(txns[..|txns| - 1]), txns[|txns| - 1].counterparty;
      if c in before then before else before + [c]
  }

  function Group(txns: seq<Txn>, c: string): seq<Txn> {
    if txns == [] then []
    else
      var last := txns[|txns| - 1];
      Group(txns[..|txns| - 1], c) + if last.counterparty == c then [last] else []
  }

  function MatchesOf(a: Txn, later: seq<Txn>): seq<Finding> {
    if later == [] then []
    else
      var b := later[|later| - 1];
      MatchesOf(a, later[..|later| - 1]) + if Similar(a.net, b.net) then [PairFinding(a, b)] else []
  }

  /** The findings in one group whose first document is among its first n. */
  function GroupFindings(group: seq<Txn>, n: nat): seq<Finding>
    requires n <= |group|
  {
    if n == 0 then [] else GroupFindings(group, n - 1) + MatchesOf(group[n - 1], group[n..])
  }

  function DuplicatesIn(txns: seq<Txn>, parties: seq<string>): seq<Finding> {
    if parties == [] then []
    else
      var group := Group(txns, parties[|parties| - 1]);
      DuplicatesIn(txns, parties[..|parties| - 1]) + GroupFindings(group, |group|)
  }

  function RoundFindings(txns: seq<Txn>): seq<Finding> {
    if txns == [] then []
    else
      var t := txns[|txns| - 1];
      RoundFindings(txns[..|txns| - 1]) + if RoundAmount(t.net) then [RoundFinding(t)] else []
  }

  function AllFindings(txns: seq<Txn>): seq<Finding> {
    DuplicatesIn(txns, Parties(txns)) + RoundFindings(txns)
  }

  // ---------------------------------------------------------------- the detectors

  lemma PartiesSnoc(txns: seq<Txn>, t: Txn)
    ensures Parties(txns + [t])
         == Parties(txns) + if t.counterparty in Parties(txns) then [] else [t.counterparty]
  {
    assert (txns + [t])[..|txns|] == txns;
  }

  lemma GroupSnoc(txns: seq<Txn>, t: Txn, c: string)
    ensures Group(txns + [t], c) == Group(txns, c) + if t.counterparty == c then [t] else []
  {
    assert (txns + [t])[..|txns|] == txns;
  }

  /** The dictionary holds the group of every party, and only those. */
  ghost predicate Grouped(txns: seq<Txn>, parties: seq<string>, groups: map<string, seq<Txn>>) {
    && parties == Parties(txns)
    && (forall c :: c in groups <==> c in parties)
    && (forall c :: Group(txns, c) == if c in groups then groups[c] else [])
  }

  lemma GroupedSnoc(txns: seq<Txn>, parties: seq<string>, groups: map<string, seq<Txn>>, t: Txn)
    requires Grouped(txns, parties, groups)
    ensures var c := t.counterparty;
            Grouped(txns + [t], if c in groups then parties else parties + [c],
                    groups[c := (if c in groups then groups[c] else []) + [t]])
  {
    hide Parties, Group;
    PartiesSnoc(txns, t);
    forall c
      ensures Group(txns + [t], c) == Group(txns, c) + if t.counterparty == c then [t] else []
    {
      GroupSnoc(txns, t, c);
    }
  }

  lemma NothingGrouped()
    ensures Grouped([], [], map[])
  {
  }

  /** Fills the grouping dictionary: its keys in insertion order, and its groups. */
  method GroupByParty(txns: seq<Txn>) returns (parties: seq<string>, groups: map<string, seq<Txn>>)
    ensures Grouped(txns, parties, groups)
  {
    hide Grouped;
    parties, groups := [], map[];
    NothingGrouped();
    for i := 0 to |txns|
      invariant Grouped(txns[..i], parties, groups)
    {
      assert txns[..i + 1] == txns[..i] + [txns[i]];
      GroupedSnoc(txns[..i], parties, groups, txns[i]);
      ghost var before := groups;
      var c := txns[i].counterparty;
      if c !in groups {
        parties := parties + [c];
        groups := groups[c := []];
      }
      groups := groups[c := groups[c] + [txns[i]]];
      assert groups == before[c := (if c in before then before[c] else []) + [txns[i]]];
    }
    assert txns[..|txns|] == txns;
  }

  /** Groups the documents by counterparty and compares every pair within a group. */
  method DetectDuplicates(txns: seq<Txn>) returns (findings: seq<Finding>)
    ensures findings == DuplicatesIn(txns, Parties(txns))
  {
    var parties, groups := GroupByParty(txns);
    hide Parties, Group, GroupFindings;
    findings := [];
    for p := 0 to |parties|
      invariant findings == DuplicatesIn(txns, parties[..p])
    {
      assert parties[..p + 1][..p] == parties[..p];
      var pairs := ComparePairs(groups[parties[p]]);
      findings := findings + pairs;
    }
    assert parties[..|parties|] == parties;
  }

  lemma MatchesStep(a: Txn, later: seq<Txn>, j: nat)
    requires j < |later|
    ensures MatchesOf(a, later[..j + 1])
         == MatchesOf(a, later[..j]) + if Similar(a.net, later[j].net) then [PairFinding(a, later[j])] else []
  {
    hide Similar, PairFinding;
    assert later[..j + 1][..j] == later[..j];
  }

  method ComparePairs(group: seq<Txn>) returns (findings: seq<Finding>)
    ensures findings == GroupFindings(group, |group|)
  {
    hide MatchesOf, PairFinding;
    findings := [];
    for i := 0 to |group|
      invariant findings == GroupFindings(group, i)
    {
      var a, later := group[i], group[i + 1..];
      ghost var before := findings;
      NoMatches(a);
      for j := 0 to |later|
        invariant findings == before + MatchesOf(a, later[..j])
      {
        var b := later[j];
        MatchesStep(a, later, j);
        if a.net == 0.0 {
          continue;
        }
        var delta := Magnitude(a.net - b.net) / a.net;
        if delta <= DUPLICATE_TOLERANCE {
          findings := findings + [PairFinding(a, b)];
        }
      }
      assert later[..|later|] == later;
    }
  }

  lemma NoMatches(a: Txn)
    ensures MatchesOf(a, []) == []
  {
  }

  method DetectRoundAmounts(txns: seq<Txn>) returns (findings: seq<Finding>)
    ensures findings == RoundFindings(txns)
  {
    findings := [];
    for i := 0 to |txns|
      invariant findings == RoundFindings(txns[..i])
    {
      assert txns[..i + 1][..i] == txns[..i];
      if RoundAmount(txns[i].net) {
        findings := findings + [RoundFinding(txns[i])];
      }
    }
    assert txns[..|txns|] == txns;
  }

  method DetectAll(txns: seq<Txn>) returns (findings: seq<Finding>)
    ensures findings == AllFindings(txns)
  {
    var duplicates := DetectDuplicates(txns);
    var rounds := DetectRoundAmounts(txns);
    return duplicates + rounds;
  }

  // ---------------------------------------------------------------- which pairs are flagged

  ghost predicate InOrder(xs: seq<Txn>, a: Txn, b: Txn) {
    exists i, j :: 0 <= i < j < |xs| && xs[i] == a && xs[j] == b
  }

  /** Document b repeats the earlier document a. */
  ghost predicate Repeats(xs: seq<Txn>, a: Txn, b: Txn) {
    InOrder(xs, a, b) && a.counterparty == b.counterparty && Similar(a.net, b.net)
  }

  lemma InOrderSnoc(xs: seq<Txn>, x: Txn, a: Txn, b: Txn)
    ensures InOrder(xs + [x], a, b) <==> InOrder(xs, a, b) || (x == b && a in xs)
  {
    var ys := xs + [x];
    if InOrder(xs, a, b) {
      var i, j :| 0 <= i < j < |xs| && xs[i] == a && xs[j] == b;
      assert ys[i] == a && ys[j] == b;
    }
    if x == b && a in xs {
      var i :| 0 <= i < |xs| && xs[i] == a;
      assert ys[i] == a && ys[|xs|] == b;
    }
    if InOrder(ys, a, b) {
      var i, j :| 0 <= i < j < |ys| && ys[i] == a && ys[j] == b;
      assert xs[i] == a;
      assert j < |xs| ==> xs[j] == b;
    }
  }

  lemma {:induction false} GroupOrder(txns: seq<Txn>, c: string, a: Txn, b: Txn)
    ensures a in Group(txns, c) <==> a in txns && a.counterparty == c
    ensures InOrder(Group(txns, c), a, b) <==> InOrder(txns, a, b) && a.counterparty == b.counterparty == c
  {
    hide InOrder;
    if txns == [] {
      NothingInOrder(a, b);
    } else {
      var init, last := txns[..|txns| - 1], txns[|txns| - 1];
      assert txns == init + [last];
      GroupOrder(init, c, a, b);
      InOrderSnoc(init, last, a, b);
      InOrderSnoc(Group(init, c), last, a, b);
      assert Group(init, c) + [] == Group(init, c);
    }
  }

  lemma NothingInOrder(a: Txn, b: Txn)
    ensures !InOrder([], a, b)
  {
  }

  lemma {:induction false} MatchesAre(a: Txn, later: seq<Txn>, f: Finding)
    ensures f in MatchesOf(a, later) <==> exists b :: b in later && Similar(a.net, b.net) && f == PairFinding(a, b)
  {
    hide Similar, PairFinding;
    if later != [] {
      MatchesAre(a, later[..|later| - 1], f);
    }
  }

  /** The pair is in order and its first document is among the first n. */
  ghost predicate InOrderBelow(xs: seq<Txn>, n: nat, a: Txn, b: Txn) {
    exists i, j :: 0 <= i < j < |xs| && i < n && xs[i] == a && xs[j] == b
  }

  lemma {:induction false} GroupFindingsAre(group: seq<Txn>, n: nat, f: Finding)
    requires n <= |group|
    ensures f in GroupFindings(group, n)
       <==> exists a, b :: InOrderBelow(group, n, a, b) && Similar(a.net, b.net) && f == PairFinding(a, b)
  {
    hide Similar, PairFinding;
    if n > 0 {
      GroupFindingsAre(group, n - 1, f);
      MatchesAre(group[n - 1], group[n..], f);
      forall a, b
        ensures InOrderBelow(group, n, a, b) <==> InOrderBelow(group, n - 1, a, b) || (a == group[n - 1] && b in group[n..])
      {
        BelowNext(group, n, a, b);
      }
    }
  }

  lemma BelowNext(group: seq<Txn>, n: nat, a: Txn, b: Txn)
    requires 0 < n <= |group|
    ensures InOrderBelow(group, n, a, b) <==> InOrderBelow(group, n - 1, a, b) || (a == group[n - 1] && b in group[n..])
  {
    if a == group[n - 1] && b in group[n..] {
      var j :| 0 <= j < |group[n..]| && group[n..][j] == b;
      assert group[n - 1] == a && group[n + j] == b;
    }
    if InOrderBelow(group, n, a, b) {
      var i, j :| 0 <= i < j < |group| && i < n && group[i] == a && group[j] == b;
      assert i == n - 1 ==> group[n..][j - n] == b;
    }
  }

  lemma {:induction false} PartiesAre(txns: seq<Txn>, c: string)
    ensures c in Parties(txns) <==> exists t: Txn :: t in txns && t.counterparty == c
  {
    if txns != [] {
      PartiesAre(txns[..|txns| - 1], c);
      assert txns == txns[..|txns| - 1] + [txns[|txns| - 1]];
    }
  }

  lemma {:induction false} DuplicatesAreIn(txns: seq<Txn>, parties: seq<string>, f: Finding)
    ensures f in DuplicatesIn(txns, parties)
       <==> exists a: Txn, b: Txn :: a.counterparty in parties && Repeats(txns, a, b) && f == PairFinding(a, b)
  {
    hide Similar, PairFinding, InOrder, InOrderBelow;
    if parties != [] {
      var init, c := parties[..|parties| - 1], parties[|parties| - 1];
      var group := Group(txns, c);
      DuplicatesAreIn(txns, init, f);
      GroupFindingsAre(group, |group|, f);
      forall a, b
        ensures InOrderBelow(group, |group|, a, b) <==> InOrder(txns, a, b) && a.counterparty == b.counterparty == c
      {
        BelowAll(group, a, b);
        GroupOrder(txns, c, a, b);
      }
      assert forall p :: p in parties <==> p in init || p == c;
    }
  }

  lemma BelowAll(group: seq<Txn>, a: Txn, b: Txn)
    ensures InOrderBelow(group, |group|, a, b) <==> InOrder(group, a, b)
  {
  }

  /** The duplicate findings are exactly the pairs of one counterparty whose second document repeats the first. */
  lemma DuplicatesArePairs(txns: seq<Txn>, f: Finding)
    ensures f in DuplicatesIn(txns, Parties(txns)) <==> exists a, b :: Repeats(txns, a, b) && f == PairFinding(a, b)
  {
    hide Similar, PairFinding;
    DuplicatesAreIn(txns, Parties(txns), f);
    forall a: Txn, b: Txn | Repeats(txns, a, b)
      ensures a.counterparty in Parties(txns)
    {
      PartiesAre(txns, a.counterparty);
      assert a in txns;
    }
  }

  lemma {:induction false} RoundsAre(txns: seq<Txn>, f: Finding)
    ensures f in RoundFindings(txns) <==> exists t :: t in txns && RoundAmount(t.net) && f == RoundFinding(t)
  {
    hide RoundAmount, RoundFinding;
    if txns != [] {
      RoundsAre(txns[..|txns| - 1], f);
      assert txns == txns[..|txns| - 1] + [txns[|txns| - 1]];
    }
  }

  function Thousands(k: int): real {
    1000.0 * k as real
  }

  /** A round amount is a whole number of thousands, and at least ten of them. */
  lemma RoundAmountMeans(x: real)
    ensures RoundAmount(x) <==> exists k: int :: k >= 10 && x == Thousands(k)
  {
    hide Thousands;
    var k := (x / 1000.0).Floor;
    if RoundAmount(x) {
      ThousandsOf(x, k);
    }
    if j: int :| j >= 10 && x == Thousands(j) {
      ThousandsOf(x, j);
    }
  }

  lemma ThousandsOf(x: real, k: int)
    ensures x == Thousands(k) <==> x == 1000.0 * k as real
    ensures x == Thousands(k) ==> (x / 1000.0).Floor == k
    ensures x == Thousands(k) ==> (x >= 10000.0 <==> k >= 10)
  {
    if x == Thousands(k) {
      assert x / 1000.0 == k as real;
    }
  }

  /** What a duplicate finding says: it flags the later of the two documents and names the earlier one as its
      match, and is of high severity exactly if the amounts are equal. */
  lemma DuplicateNamesBoth(txns: seq<Txn>, f: Finding) returns (i: nat, j: nat)
    requires f in DuplicatesIn(txns, Parties(txns))
    ensures i < j < |txns| && txns[i].counterparty == txns[j].counterparty && Similar(txns[i].net, txns[j].net)
    ensures f.rowId == txns[j].rowId && f.documentRef == txns[j].documentRef && f.amount == txns[j].net
    ensures f.evidence.Evidence? && f.evidence.matchRowId == txns[i].rowId
    ensures f.evidence.matchDocument == txns[i].documentRef && f.evidence.matchAmount == txns[i].net
    ensures f.detector == DUP001 && f.severity == if txns[i].net == txns[j].net then High else Medium
  {
    hide Similar, DuplicatesIn;
    DuplicatesArePairs(txns, f);
    var a, b :| Repeats(txns, a, b) && f == PairFinding(a, b);
    i, j :| 0 <= i < j < |txns| && txns[i] == a && txns[j] == b;
  }

  /** What a round-amount finding says: it flags its own document, at low severity and without a match. */
  lemma RoundNamesItsRow(txns: seq<Txn>, f: Finding) returns (i: nat)
    requires f in RoundFindings(txns)
    ensures i < |txns| && f.rowId == txns[i].rowId && f.documentRef == txns[i].documentRef && f.amount == txns[i].net
    ensures exists k: int :: k >= 10 && f.amount == Thousands(k)
    ensures f.detector == RND001 && f.severity == Low && f.evidence == NoMatch
  {
    hide RoundAmount, RoundFindings, Thousands;
    RoundsAre(txns, f);
    var t :| t in txns && RoundAmount(t.net) && f == RoundFinding(t);
    i :| 0 <= i < |txns| && txns[i] == t;
    RoundAmountMeans(t.net);
  }

  // ---------------------------------------------------------------- no pair twice

  ghost predicate DistinctRows(txns: seq<Txn>) {
    forall i, j | 0 <= i < j < |txns| :: txns[i].rowId != txns[j].rowId
  }

  lemma {:induction false} MatchesOnce(a: Txn, later: seq<Txn>)
    requires DistinctRows(later)
    ensures Distinct(MatchesOf(a, later))
    ensures forall f | f in MatchesOf(a, later) :: f.detector == DUP001 && f.evidence.Evidence?
                                                   && f.evidence.matchRowId == a.rowId
                                                   && exists b :: b in later && b.rowId == f.rowId
  {
    hide Similar;
    if later != [] {
      MatchesOnce(a, later[..|later| - 1]);
    }
  }

  lemma {:induction false} GroupOnce(group: seq<Txn>, n: nat)
    requires n <= |group| && DistinctRows(group)
    ensures Distinct(GroupFindings(group, n))
    ensures forall f | f in GroupFindings(group, n) :: f.detector == DUP001 && f.evidence.Evidence?
                                                       && exists a :: a in group[..n] && a.rowId == f.evidence.matchRowId
  {
    hide MatchesOf;
    if n > 0 {
      GroupOnce(group, n - 1);
      MatchesOnce(group[n - 1], group[n..]);
      DistinctConcat(GroupFindings(group, n - 1), MatchesOf(group[n - 1], group[n..]));
      assert group[..n] == group[..n - 1] + [group[n - 1]];
    }
  }

  lemma {:induction false} GroupsKeepRows(txns: seq<Txn>, c: string)
    requires DistinctRows(txns)
    ensures DistinctRows(Group(txns, c))
    ensures forall a | a in Group(txns, c) :: a in txns && a.counterparty == c
  {
    if txns != [] {
      GroupsKeepRows(txns[..|txns| - 1], c);
    }
  }

  /** The flagged pair's first document belongs to one of these parties. */
  ghost predicate FirstAmong(txns: seq<Txn>, parties: seq<string>, f: Finding) {
    f.evidence.Evidence? && exists a :: a in txns && a.rowId == f.evidence.matchRowId && a.counterparty in parties
  }

  lemma {:induction false} DuplicatesOnce(txns: seq<Txn>, parties: seq<string>)
    requires DistinctRows(txns)
    requires forall i, j | 0 <= i < j < |parties| :: parties[i] != parties[j]
    ensures Distinct(DuplicatesIn(txns, parties))
    ensures forall f | f in DuplicatesIn(txns, parties) :: f.detector == DUP001 && FirstAmong(txns, parties, f)
  {
    hide Group, GroupFindings, Distinct;
    if parties == [] {
      NothingRepeats();
    } else {
      var init, c := parties[..|parties| - 1], parties[|parties| - 1];
      var group := Group(txns, c);
      DuplicatesOnce(txns, init);
      GroupsKeepRows(txns, c);
      GroupOnce(group, |group|);
      assert group[..|group|] == group;
      forall f | f in DuplicatesIn(txns, init) && f in GroupFindings(group, |group|)
        ensures false
      {
        RowsDetermine(txns);
      }
      DistinctConcat(DuplicatesIn(txns, init), GroupFindings(group, |group|));
    }
  }

  lemma NothingRepeats()
    ensures Distinct<Finding>([])
  {
  }

  lemma RowsDetermine(txns: seq<Txn>)
    requires DistinctRows(txns)
    ensures forall a, b | a in txns && b in txns && a.rowId == b.rowId :: a == b
  {
  }

  lemma {:induction false} PartiesOnce(txns: seq<Txn>)
    ensures forall i, j | 0 <= i < j < |Parties(txns)| :: Parties(txns)[i] != Parties(txns)[j]
  {
    if txns != [] {
      PartiesOnce(txns[..|txns| - 1]);
    }
  }

  lemma {:induction false} RoundsOnce(txns: seq<Txn>)
    requires DistinctRows(txns)
    ensures Distinct(RoundFindings(txns))
    ensures forall f | f in RoundFindings(txns) :: f.detector == RND001 && exists t :: t in txns && t.rowId == f.rowId
  {
    hide RoundAmount;
    if txns != [] {
      RoundsOnce(txns[..|txns| - 1]);
    }
  }

  /** With distinct row ids no finding is reported twice. */
  lemma FindingsOnce(txns: seq<Txn>)
    requires DistinctRows(txns)
    ensures Distinct(AllFindings(txns))
  {
    hide DuplicatesIn, RoundFindings, Distinct, Parties;
    PartiesOnce(txns);
    DuplicatesOnce(txns, Parties(txns));
    RoundsOnce(txns);
    DistinctConcat(DuplicatesIn(txns, Parties(txns)), RoundFindings(txns));
  }

  // ---------------------------------------------------------------- the two percent

  /** Within two percent of the first amount, whatever its sign. */
  predicate WithinTwoPercent(a: real, b: real) {
    Magnitude(a - b) <= DUPLICATE_TOLERANCE * Magnitude(a)
  }

  /** The rule finds exactly the amounts within two percent when the first is positive. A negative first
      amount matches every amount, and a zero one none, not even another zero. */
  lemma SimilarMeansTwoPercent(a: real, b: real)
    ensures a > 0.0 ==> (Similar(a, b) <==> WithinTwoPercent(a, b))
    ensures a < 0.0 ==> Similar(a, b)
    ensures a == 0.0 ==> !Similar(a, b)
    ensures (Similar(a, b) <==> WithinTwoPercent(a, b))
       <==> a > 0.0 || (a < 0.0 && 1.02 * a <= b <= 0.98 * a) || (a == 0.0 && b != 0.0)
  {
    if a > 0.0 {
      QuotientOrder(Magnitude(a - b), a, 0.02);
    } else if a < 0.0 {
      NegativeQuotient(Magnitude(a - b), a);
    }
  }

  /** Among positive amounts the duplicate findings are exactly the same-counterparty pairs whose second
      amount is within two percent of the first. */
  lemma PositiveDuplicates(txns: seq<Txn>, f: Finding)
    requires forall t | t in txns :: t.net > 0.0
    ensures f in DuplicatesIn(txns, Parties(txns))
       <==> exists a, b :: InOrder(txns, a, b) && a.counterparty == b.counterparty
                           && WithinTwoPercent(a.net, b.net) && f == PairFinding(a, b)
  {
    hide Similar, WithinTwoPercent, PairFinding, DuplicatesIn;
    DuplicatesArePairs(txns, f);
    forall a, b | InOrder(txns, a, b)
      ensures Repeats(txns, a, b) <==> a.counterparty == b.counterparty && WithinTwoPercent(a.net, b.net)
    {
      assert a in txns;
      SimilarMeansTwoPercent(a.net, b.net);
    }
  }

  lemma QuotientOrder(m: real, a: real, bound: real)
    requires a > 0.0
    ensures m / a <= bound <==> m <= bound * a
  {
    var q := m / a;
    assert q * a == m;
    if q <= bound {
      assert (bound - q) * a >= 0.0;
    } else {
      assert (q - bound) * a > 0.0;
    }
  }

  lemma NegativeQuotient(m: real, a: real)
    requires a < 0.0 && m >= 0.0
    ensures m / a <= 0.0
  {
    var q := m / a;
    assert q * a == m;
    assert q > 0.0 ==> q * a < 0.0;
  }
}
