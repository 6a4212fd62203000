/** Scans and dispositions, after risk/service.py: a scan records the findings not yet recorded for its
    entity and period, and a disposition overwrites one anomaly's outcome. */
module RiskScans {
  import opened Wrappers
  import opened Risk
  import opened Sequences

  /** The entity and period a scan covers. */
  datatype Scope = Scope(entityId: string, periodKey: string)

  datatype Status = Open | Confirmed | Dismissed

  datatype Outcome = Outcome(status: Status, reason: Option<string>, note: Option<string>, actor: Option<string>, at: Option<nat>)

  /** A recorded anomaly; its id is its position in the table. */
  datatype Anomaly = Anomaly(scope: Scope, finding: Finding, outcome: Outcome)

  datatype ScanRecord = ScanRecord(scope: Scope, rowsScanned: nat, flagged: nat, newAnomalies: nat)

  datatype RiskError = InvalidDisposition | NoSuchAnomaly

  const UNDECIDED := Outcome(Open, None, None, None, None)

  const CONFIRM_REASONS: set<string> := {"GENUINE_DUPLICATE", "MISCLASSIFIED", "REQUIRES_INVESTIGATION"}

  const DISMISS_REASONS: set<string> := {"RECURRING_CONTRACT", "DIFFERENT_SUPPLY", "REVIEWED_ACCEPTABLE", "NO_TIME"}

  datatype Decision = Decision(id: nat, confirm: bool, reason: string, note: Option<string>, actor: string, at: nat)

  predicate ValidReason(d: Decision) {
    d.reason in if d.confirm then CONFIRM_REASONS else DISMISS_REASONS
  }

  function OutcomeOf(d: Decision): Outcome {
    Outcome(if d.confirm then Confirmed else Dismissed, Some(d.reason), d.note, Some(d.actor), Some(d.at))
  }

  /** What identifies a finding to the scan: its row and its detector. */
  function Key(f: Finding): (string, Detector) {
    (f.rowId, f.detector)
  }

  function RecordedKeys(table: seq<Anomaly>, scope: Scope): set<(string, Detector)> {
    set a | a in table && a.scope == scope :: Key(a.finding)
  }

  function Unrecorded(findings: seq<Finding>, existing: set<(string, Detector)>): seq<Finding> {
    if findings == [] then []
    else
      var f := findings[|findings| - 1];
      Unrecorded(findings[..|findings| - 1], existing) + if Key(f) in existing then [] else [f]
  }

  function Opened(scope: Scope, findings: seq<Finding>): (r: seq<Anomaly>)
    ensures |r| == |findings|
    ensures forall i | 0 <= i < |r| :: r[i] == Anomaly(scope, findings[i], UNDECIDED)
  {
    if findings == [] then []
    else Opened(scope, findings[..|findings| - 1]) + [Anomaly(scope, findings[|findings| - 1], UNDECIDED)]
  }

  function Scanned(table: seq<Anomaly>, scope: Scope, rows: seq<Txn>): seq<Anomaly> {
    table + Opened(scope, Unrecorded(AllFindings(rows), RecordedKeys(table, scope)))
  }

  function Decided(table: seq<Anomaly>, d: Decision): seq<Anomaly> {
    if ValidReason(d) && d.id < |table| then table[d.id := table[d.id].(outcome := OutcomeOf(d))] else table
  }

  lemma NothingOpened(scope: Scope, existing: set<(string, Detector)>)
    ensures Unrecorded([], existing) == [] && Opened(scope, []) == []
  {
  }

  /** One more finding adds an anomaly exactly if its key is not recorded. */
  lemma OpenedStep(scope: Scope, findings: seq<Finding>, i: nat, existing: set<(string, Detector)>)
    requires i < |findings|
    ensures var before, after := Unrecorded(findings[..i], existing), Unrecorded(findings[..i + 1], existing);
            if Key(findings[i]) in existing then after == before
            else |after| == |before| + 1 && Opened(scope, after) == Opened(scope, before) + [Anomaly(scope, findings[i], UNDECIDED)]
  {
    hide Key;
    assert findings[..i + 1][..i] == findings[..i];
    var before := Unrecorded(findings[..i], existing);
    if Key(findings[i]) in existing {
      assert before + [] == before;
    } else {
      assert (before + [findings[i]])[..|before|] == before;
    }
  }

  class RiskService {
    var anomalies: seq<Anomaly>
    var scans: seq<ScanRecord>

    constructor ()
      ensures anomalies == [] && scans == []
    {
      anomalies, scans := [], [];
    }

    /** Scans the rows fetched for a scope and records what is new. The keys already recorded are read
        once, before the scan adds anything. */
    method Scan(scope: Scope, rows: seq<Txn>) returns (added: nat)
      modifies this
      ensures anomalies == Scanned(old(anomalies), scope, rows)
      ensures added == |anomalies| - |old(anomalies)|
      ensures scans == old(scans) + [ScanRecord(scope, |rows|, |AllFindings(rows)|, added)]
    {
      hide AllFindings, RecordedKeys, Key, Opened, Unrecorded;
      var findings := DetectAll(rows);
      var existing := RecordedKeys(anomalies, scope);
      added := 0;
      NothingOpened(scope, existing);
      for i := 0 to |findings|
        invariant anomalies == old(anomalies) + Opened(scope, Unrecorded(findings[..i], existing))
        invariant added == |Unrecorded(findings[..i], existing)|
        invariant scans == old(scans)
      {
        var f := findings[i];
        OpenedStep(scope, findings, i, existing);
        if Key(f) in existing {
          continue;
        }
        anomalies := anomalies + [Anomaly(scope, f, UNDECIDED)];
        added := added + 1;
      }
      assert findings[..|findings|] == findings;
      scans := scans + [ScanRecord(scope, |rows|, |findings|, added)];
    }

    /** Confirms or dismisses an anomaly. The reason must be in the taxonomy of the chosen outcome; it is
        checked before the anomaly is looked up. */
    method Disposition(d: Decision) returns (r: Result<Anomaly, RiskError>)
      modifies this`anomalies
      ensures anomalies == Decided(old(anomalies), d)
      ensures !ValidReason(d) ==> r == Err(InvalidDisposition)
      ensures ValidReason(d) && d.id >= |old(anomalies)| ==> r == Err(NoSuchAnomaly)
      ensures ValidReason(d) && d.id < |old(anomalies)| ==> r == Ok(anomalies[d.id])
    {
      var valid := if d.confirm then CONFIRM_REASONS else DISMISS_REASONS;
      if d.reason !in valid {
        return Err(InvalidDisposition);
      }
      if d.id >= |anomalies| {
        return Err(NoSuchAnomaly);
      }
      var status := if d.confirm then Confirmed else Dismissed;
      var anomaly := anomalies[d.id];
      anomaly := anomaly.(outcome := anomaly.outcome.(status := status, reason := Some(d.reason)));
      anomaly := anomaly.(outcome := anomaly.outcome.(note := d.note, actor := Some(d.actor), at := Some(d.at)));
      anomalies := anomalies[d.id := anomaly];
      return Ok(anomaly);
    }
  }

  // ---------------------------------------------------------------- runs on a fixed population

  datatype Action = ScanOf(scope: Scope) | Decide(decision: Decision)

  /** The rows of every scope, in the order the database returns them. */
  type Population = Scope -> seq<Txn>

  function Apply(population: Population, table: seq<Anomaly>, action: Action): seq<Anomaly> {
    match action
    case ScanOf(scope) => Scanned(table, scope, population(scope))
    case Decide(d) => Decided(table, d)
  }

  function Run(population: Population, table: seq<Anomaly>, actions: seq<Action>): seq<Anomaly> {
    if actions == [] then table
    else Apply(population, Run(population, table, actions[..|actions| - 1]), actions[|actions| - 1])
  }

  /** The findings recorded for a scope, in order. */
  function FindingsIn(table: seq<Anomaly>, scope: Scope): seq<Finding> {
    if table == [] then []
    else
      var a := table[|table| - 1];
      FindingsIn(table[..|table| - 1], scope) + if a.scope == scope then [a.finding] else []
  }

  lemma {:induction false} FindingsConcat(xs: seq<Anomaly>, ys: seq<Anomaly>, scope: Scope)
    ensures FindingsIn(xs + ys, scope) == FindingsIn(xs, scope) + FindingsIn(ys, scope)
  {
    if ys == [] {
      assert xs + ys == xs;
    } else {
      assert (xs + ys)[..|xs + ys| - 1] == xs + ys[..|ys| - 1];
      FindingsConcat(xs, ys[..|ys| - 1], scope);
    }
  }

  lemma OneFinding(a: Anomaly, scope: Scope)
    ensures FindingsIn([a], scope) == if a.scope == scope then [a.finding] else []
  {
    assert [a][..0] == [];
  }

  lemma OpenedSnoc(scope: Scope, init: seq<Finding>, f: Finding)
    ensures Opened(scope, init + [f]) == Opened(scope, init) + [Anomaly(scope, f, UNDECIDED)]
  {
    assert (init + [f])[..|init|] == init;
  }

  lemma {:induction false} OpenedFindings(findings: seq<Finding>, scope: Scope, other: Scope)
    ensures FindingsIn(Opened(scope, findings), other) == if other == scope then findings else []
  {
    if findings != [] {
      hide FindingsIn, Opened;
      var init, f := findings[..|findings| - 1], findings[|findings| - 1];
      assert findings == init + [f];
      OpenedFindings(init, scope, other);
      OpenedSnoc(scope, init, f);
      FindingsConcat(Opened(scope, init), [Anomaly(scope, f, UNDECIDED)], other);
      OneFinding(Anomaly(scope, f, UNDECIDED), other);
    }
  }

  /** A decision changes no finding. */
  lemma {:induction false} DecisionKeepsFindings(table: seq<Anomaly>, id: nat, outcome: Outcome, scope: Scope)
    requires id < |table|
    ensures FindingsIn(table[id := table[id].(outcome := outcome)], scope) == FindingsIn(table, scope)
  {
    var n := |table| - 1;
    var changed := table[id := table[id].(outcome := outcome)];
    if id < n {
      DecisionKeepsFindings(table[..n], id, outcome, scope);
      assert changed[..n] == table[..n][id := table[id].(outcome := outcome)];
    } else {
      assert changed[..n] == table[..n];
    }
  }

  lemma {:induction false} KeysOfFindings(table: seq<Anomaly>, scope: Scope, k: (string, Detector))
    ensures k in RecordedKeys(table, scope) <==> exists f :: f in FindingsIn(table, scope) && Key(f) == k
  {
    hide Key;
    if table != [] {
      var n := |table| - 1;
      KeysOfFindings(table[..n], scope, k);
      assert table == table[..n] + [table[n]];
    }
  }

  lemma UnrecordedSnoc(init: seq<Finding>, f: Finding, existing: set<(string, Detector)>)
    ensures Unrecorded(init + [f], existing) == Unrecorded(init, existing) + if Key(f) in existing then [] else [f]
  {
    hide Key;
    assert (init + [f])[..|init|] == init;
  }

  lemma {:induction false} AllRecorded(findings: seq<Finding>, existing: set<(string, Detector)>)
    ensures Unrecorded(findings, existing) == [] <==> forall f | f in findings :: Key(f) in existing
  {
    if findings != [] {
      hide Key, Unrecorded;
      var init, f := findings[..|findings| - 1], findings[|findings| - 1];
      assert findings == init + [f];
      AllRecorded(init, existing);
      UnrecordedSnoc(init, f, existing);
    }
  }

  lemma {:induction false} NoneRecorded(findings: seq<Finding>)
    ensures Unrecorded(findings, {}) == findings
  {
    if findings != [] {
      hide Key, Unrecorded;
      var init, f := findings[..|findings| - 1], findings[|findings| - 1];
      assert findings == init + [f];
      NoneRecorded(init);
      UnrecordedSnoc(init, f, {});
    }
  }

  lemma KeysAre(table: seq<Anomaly>, scope: Scope)
    ensures forall k :: k in RecordedKeys(table, scope) <==> exists f :: f in FindingsIn(table, scope) && Key(f) == k
  {
    hide RecordedKeys, FindingsIn, Key;
    forall k
      ensures k in RecordedKeys(table, scope) <==> exists f :: f in FindingsIn(table, scope) && Key(f) == k
    {
      KeysOfFindings(table, scope, k);
    }
  }

  /** While a scope has no anomalies, every finding is new. */
  lemma AllNew(table: seq<Anomaly>, scope: Scope, findings: seq<Finding>)
    requires FindingsIn(table, scope) == []
    ensures Unrecorded(findings, RecordedKeys(table, scope)) == findings
  {
    hide RecordedKeys, FindingsIn, Key, Unrecorded;
    KeysAre(table, scope);
    assert RecordedKeys(table, scope) == {};
    NoneRecorded(findings);
  }

  /** Once a scope's anomalies are these findings, none of them is new. */
  lemma NoneNew(table: seq<Anomaly>, scope: Scope, findings: seq<Finding>)
    requires FindingsIn(table, scope) == findings
    ensures Unrecorded(findings, RecordedKeys(table, scope)) == []
  {
    hide RecordedKeys, FindingsIn, Key, Unrecorded;
    KeysAre(table, scope);
    AllRecorded(findings, RecordedKeys(table, scope));
  }

  /** A scan adds the new findings to its own scope and nothing to any other. */
  lemma ScanAdds(table: seq<Anomaly>, s: Scope, rows: seq<Txn>, scope: Scope)
    ensures FindingsIn(Scanned(table, s, rows), scope)
         == FindingsIn(table, scope) + if scope == s then Unrecorded(AllFindings(rows), RecordedKeys(table, s)) else []
  {
    hide AllFindings, RecordedKeys, Unrecorded, FindingsIn;
    var news := Unrecorded(AllFindings(rows), RecordedKeys(table, s));
    FindingsConcat(table, Opened(s, news), scope);
    OpenedFindings(news, s, scope);
  }

  /** What one action does to the findings of a scope. */
  lemma ActionFindings(population: Population, table: seq<Anomaly>, action: Action, scope: Scope)
    requires FindingsIn(table, scope) == [] || FindingsIn(table, scope) == AllFindings(population(scope))
    ensures FindingsIn(Apply(population, table, action), scope)
         == if action == ScanOf(scope) then AllFindings(population(scope)) else FindingsIn(table, scope)
  {
    hide AllFindings, RecordedKeys, Unrecorded, FindingsIn, Scanned, ValidReason;
    match action
    case ScanOf(s) =>
      ScanAdds(table, s, population(s), scope);
      if s == scope {
        if FindingsIn(table, s) == [] {
          AllNew(table, s, AllFindings(population(s)));
        } else {
          NoneNew(table, s, AllFindings(population(s)));
        }
      } else {
        assert FindingsIn(table, scope) + [] == FindingsIn(table, scope);
      }
    case Decide(d) =>
      if ValidReason(d) && d.id < |table| {
        DecisionKeepsFindings(table, d.id, OutcomeOf(d), scope);
      }
  }

  /** In any mix of scans and decisions on a fixed population, the anomalies of a scope are exactly the
      findings of one scan if it was ever scanned, and none otherwise: only the first scan adds. */
  lemma {:induction false} OnlyFirstScanAdds(population: Population, actions: seq<Action>, scope: Scope)
    ensures FindingsIn(Run(population, [], actions), scope)
         == if ScanOf(scope) in actions then AllFindings(population(scope)) else []
  {
    hide AllFindings, Apply, FindingsIn;
    if actions == [] {
      NothingFound(scope);
    } else {
      var n := |actions| - 1;
      OnlyFirstScanAdds(population, actions[..n], scope);
      ActionFindings(population, Run(population, [], actions[..n]), actions[n], scope);
      assert actions == actions[..n] + [actions[n]];
    }
  }

  lemma NothingFound(scope: Scope)
    ensures FindingsIn([], scope) == []
  {
  }

  /** The table only grows, keeps every finding in place, and an outcome changes only by a valid decision
      on that anomaly. */
  lemma StepKeeps(population: Population, table: seq<Anomaly>, action: Action, id: nat)
    requires id < |table|
    ensures var after := Apply(population, table, action);
            |table| <= |after| && after[id].scope == table[id].scope && after[id].finding == table[id].finding
            && after[id].outcome == if action.Decide? && action.decision.id == id && ValidReason(action.decision)
                                    then OutcomeOf(action.decision) else table[id].outcome
  {
    hide AllFindings, Unrecorded, RecordedKeys, ValidReason;
  }

  /** This action decides this anomaly. */
  predicate Decides(action: Action, id: nat) {
    action.Decide? && action.decision.id == id && ValidReason(action.decision)
  }

  /** No disposition is lost: whatever scans and decisions on other anomalies follow, a decided anomaly
      keeps its outcome, and an undecided one stays open. */
  lemma {:induction false} DispositionsLast(population: Population, table: seq<Anomaly>, actions: seq<Action>, id: nat)
    requires id < |table|
    ensures var after := Run(population, table, actions);
            |table| <= |after| && after[id].scope == table[id].scope && after[id].finding == table[id].finding
    ensures (forall a | a in actions :: !Decides(a, id)) ==> Run(population, table, actions)[id].outcome == table[id].outcome
    ensures actions != [] && Decides(actions[0], id) && (forall a | a in actions[1..] :: !Decides(a, id)) ==>
              Run(population, table, actions)[id].outcome == OutcomeOf(actions[0].decision)
  {
    hide Apply, ValidReason;
    if actions != [] {
      var n := |actions| - 1;
      DispositionsLast(population, table, actions[..n], id);
      StepKeeps(population, Run(population, table, actions[..n]), actions[n], id);
      assert actions == actions[..n] + [actions[n]];
      assert forall a :: a in actions <==> a in actions[..n] || a == actions[n];
      assert actions[n] in actions;
      if n > 0 {
        assert actions[n] in actions[1..];
        assert actions[1..] == actions[..n][1..] + [actions[n]];
        assert forall a :: a in actions[1..] <==> a in actions[..n][1..] || a == actions[n];
      }
    }
  }

  /** A scan leaves what is recorded as it is and adds open anomalies of its scope, decided by nobody. */
  lemma ScanOpens(table: seq<Anomaly>, scope: Scope, rows: seq<Txn>, id: nat)
    requires id < |Scanned(table, scope, rows)|
    ensures var a := Scanned(table, scope, rows)[id];
            if id < |table| then a == table[id]
            else a.scope == scope && a.finding in AllFindings(rows) && a.outcome.status == Open
                 && a.outcome.reason == None && a.outcome.note == None && a.outcome.actor == None && a.outcome.at == None
  {
    hide AllFindings, RecordedKeys, Key;
    UnrecordedAreFindings(AllFindings(rows), RecordedKeys(table, scope));
  }

  lemma {:induction false} UnrecordedAreFindings(findings: seq<Finding>, existing: set<(string, Detector)>)
    ensures forall f | f in Unrecorded(findings, existing) :: f in findings && Key(f) !in existing
  {
    hide Key;
    if findings != [] {
      UnrecordedAreFindings(findings[..|findings| - 1], existing);
      assert findings == findings[..|findings| - 1] + [findings[|findings| - 1]];
    }
  }

  /** The two taxonomies share no reason, so a reason fits one kind of decision at most; a valid decision leaves
      the anomaly confirmed or dismissed as decided, with its reason, note, actor and time. */
  lemma DecisionIsRecorded(population: Population, table: seq<Anomaly>, d: Decision)
    requires d.id < |table|
    ensures d.reason in {"GENUINE_DUPLICATE", "MISCLASSIFIED", "REQUIRES_INVESTIGATION"} ==> (ValidReason(d) <==> d.confirm)
    ensures d.reason in {"RECURRING_CONTRACT", "DIFFERENT_SUPPLY", "REVIEWED_ACCEPTABLE", "NO_TIME"} ==>
              (ValidReason(d) <==> !d.confirm)
    ensures var outcome := Apply(population, table, Decide(d))[d.id].outcome;
            if ValidReason(d) then
              && (outcome.status == Confirmed <==> d.confirm) && (outcome.status == Dismissed <==> !d.confirm)
              && outcome.reason == Some(d.reason) && outcome.note == d.note
              && outcome.actor == Some(d.actor) && outcome.at == Some(d.at)
            else outcome == table[d.id].outcome
  {
    assert |"GENUINE_DUPLICATE"| == 17 && |"MISCLASSIFIED"| == 13 && |"REQUIRES_INVESTIGATION"| == 22;
    assert |"RECURRING_CONTRACT"| == 18 && |"DIFFERENT_SUPPLY"| == 16 && |"REVIEWED_ACCEPTABLE"| == 19 && |"NO_TIME"| == 7;
  }

  // ---------------------------------------------------------------- what depends on the order of rows

  /** Some earlier document of the same counterparty makes the rule flag b. */
  ghost predicate Flagged(rows: seq<Txn>, b: string) {
    (exists x, y :: Repeats(rows, x, y) && y.rowId == b)
  }

  lemma ScanAddsNothing(table: seq<Anomaly>, scope: Scope, rows: seq<Txn>)
    ensures Scanned(table, scope, rows) == table <==> Unrecorded(AllFindings(rows), RecordedKeys(table, scope)) == []
  {
    hide AllFindings, RecordedKeys, Unrecorded;
    var news := Unrecorded(AllFindings(rows), RecordedKeys(table, scope));
    assert |Scanned(table, scope, rows)| == |table| + |news|;
    assert news == [] ==> table + Opened(scope, news) == table;
  }

  /** After a first scan, a scan that fetches the same rows in another order adds nothing exactly when
      every row it flags as a duplicate was already flagged in the first order. */
  lemma RescanAddsNothingIff(xs: seq<Txn>, ys: seq<Txn>, scope: Scope)
    requires multiset(xs) == multiset(ys)
    ensures var table := Scanned([], scope, xs);
            Scanned(table, scope, ys) == table <==> forall b | Flagged(ys, b) :: Flagged(xs, b)
  {
    hide AllFindings, RecordedKeys, Unrecorded, Flagged, Key, Scanned;
    var table := Scanned([], scope, xs);
    var existing := RecordedKeys(table, scope);
    ScanAdds([], scope, xs, scope);
    AllNew([], scope, AllFindings(xs));
    AllRecorded(AllFindings(ys), existing);
    ScanAddsNothing(table, scope, ys);
    KeysAre(table, scope);
    FlaggedKeys(xs, ys, existing);
  }

  ghost predicate KeyIn(rows: seq<Txn>, k: (string, Detector)) {
    exists f :: f in AllFindings(rows) && Key(f) == k
  }

  lemma KeysFlagged(rows: seq<Txn>, b: string)
    ensures KeyIn(rows, (b, DUP001)) <==> Flagged(rows, b)
    ensures KeyIn(rows, (b, RND001)) <==> exists t :: t in rows && RoundAmount(t.net) && t.rowId == b
  {
    hide DuplicatesIn, RoundFindings, Parties, Repeats, RoundAmount;
    forall f
      ensures f in AllFindings(rows) <==> (exists x, y :: Repeats(rows, x, y) && f == PairFinding(x, y))
                                          || (exists t :: t in rows && RoundAmount(t.net) && f == RoundFinding(t))
    {
      DuplicatesArePairs(rows, f);
      RoundsAre(rows, f);
    }
    forall x, y | Repeats(rows, x, y)
      ensures PairFinding(x, y) in AllFindings(rows)
    {
    }
    forall t | t in rows && RoundAmount(t.net)
      ensures RoundFinding(t) in AllFindings(rows)
    {
    }
  }

  lemma FlaggedKeys(xs: seq<Txn>, ys: seq<Txn>, existing: set<(string, Detector)>)
    requires multiset(xs) == multiset(ys)
    requires forall k :: k in existing <==> KeyIn(xs, k)
    ensures (forall f | f in AllFindings(ys) :: Key(f) in existing) <==> forall b | Flagged(ys, b) :: Flagged(xs, b)
  {
    hide AllFindings, Flagged, RoundAmount;
    forall b
      ensures KeyIn(xs, (b, DUP001)) <==> Flagged(xs, b)
      ensures KeyIn(ys, (b, DUP001)) <==> Flagged(ys, b)
      ensures KeyIn(xs, (b, RND001)) <==> KeyIn(ys, (b, RND001))
    {
      KeysFlagged(xs, b);
      KeysFlagged(ys, b);
      assert forall t :: t in xs <==> t in multiset(xs);
      assert forall t :: t in ys <==> t in multiset(ys);
    }
    if forall b | Flagged(ys, b) :: Flagged(xs, b) {
      forall f | f in AllFindings(ys)
        ensures Key(f) in existing
      {
        assert KeyIn(ys, Key(f));
        assert Key(f) == (f.rowId, f.detector);
        assert f.detector == DUP001 || f.detector == RND001;
      }
    }
    if forall f | f in AllFindings(ys) :: Key(f) in existing {
      forall b | Flagged(ys, b)
        ensures Flagged(xs, b)
      {
        assert KeyIn(ys, (b, DUP001));
      }
    }
  }

  // ---------------------------------------------------------------- which populations depend on it

  /** The rows with the i-th one fetched first. */
  function MovedToFront(xs: seq<Txn>, i: nat): (ys: seq<Txn>)
    requires i < |xs|
  {
    [xs[i]] + xs[..i] + xs[i + 1..]
  }

  lemma MovedFacts(xs: seq<Txn>, i: nat)
    requires i < |xs|
    ensures multiset(MovedToFront(xs, i)) == multiset(xs)
    ensures forall b | b in xs && b != xs[i] :: InOrder(MovedToFront(xs, i), xs[i], b)
  {
    var ys := MovedToFront(xs, i);
    assert xs == xs[..i] + [xs[i]] + xs[i + 1..];
    forall b | b in xs && b != xs[i]
      ensures InOrder(ys, xs[i], b)
    {
      assert b in xs[..i] + xs[i + 1..];
      var j :| 0 <= j < |xs[..i] + xs[i + 1..]| && (xs[..i] + xs[i + 1..])[j] == b;
      assert ys[0] == xs[i] && ys[j + 1] == b;
    }
  }

  /** Document a makes the rule flag b whenever it is fetched before it. */
  predicate Clashes(a: Txn, b: Txn) {
    a != b && a.counterparty == b.counterparty && Similar(a.net, b.net)
  }

  lemma {:induction false} OncePerRow(xs: seq<Txn>, x: Txn)
    requires DistinctRows(xs)
    ensures multiset(xs)[x] <= 1
  {
    if xs != [] {
      OncePerRow(xs[1..], x);
      assert xs == [xs[0]] + xs[1..];
      assert xs[0] == x ==> x !in xs[1..];
    }
  }

  lemma TwiceInOrder(ys: seq<Txn>, i: nat, j: nat)
    requires i < j < |ys| && ys[i] == ys[j]
    ensures multiset(ys)[ys[i]] >= 2
  {
    assert ys == ys[..j] + ys[j..];
    assert ys[i] in ys[..j] && ys[j] in ys[j..];
    assert multiset(ys) == multiset(ys[..j]) + multiset(ys[j..]);
  }

  /** Whatever the order, only a clash makes the rule flag a row. */
  lemma FlaggedByClash(xs: seq<Txn>, ys: seq<Txn>, b: string) returns (x: Txn, y: Txn)
    requires DistinctRows(xs) && multiset(ys) == multiset(xs) && Flagged(ys, b)
    ensures x in xs && y in xs && Clashes(x, y) && y.rowId == b
  {
    hide Similar;
    x, y :| Repeats(ys, x, y) && y.rowId == b;
    var i, j :| 0 <= i < j < |ys| && ys[i] == x && ys[j] == y;
    assert x in multiset(ys) && y in multiset(ys);
    OncePerRow(xs, x);
    if x == y {
      TwiceInOrder(ys, i, j);
    }
  }

  /** Fetching a first makes the rule flag every row a clashes with. */
  lemma FrontFlags(xs: seq<Txn>, i: nat, b: Txn)
    requires i < |xs| && b in xs && Clashes(xs[i], b)
    ensures Flagged(MovedToFront(xs, i), b.rowId)
  {
    MovedFacts(xs, i);
    assert Repeats(MovedToFront(xs, i), xs[i], b);
  }

  /** The row fetched first is not flagged. */
  lemma FirstIsNotFlagged(xs: seq<Txn>)
    requires DistinctRows(xs) && xs != []
    ensures !Flagged(xs, xs[0].rowId)
  {
    hide Similar;
    forall x, y | Repeats(xs, x, y)
      ensures y.rowId != xs[0].rowId
    {
      var i, j :| 0 <= i < j < |xs| && xs[i] == x && xs[j] == y;
    }
  }

  /** After a scan of xs, no order of the same rows makes a scan add anything. */
  ghost predicate RescanIsSafe(xs: seq<Txn>, scope: Scope) {
    var table := Scanned([], scope, xs);
    forall ys | multiset(ys) == multiset(xs) :: Scanned(table, scope, ys) == table
  }

  /** Exactly the populations for which rescanning is safe after a first scan: every row that clashes with
      another one was flagged by the first scan. */
  lemma RescanIsSafeIff(xs: seq<Txn>, scope: Scope)
    requires DistinctRows(xs)
    ensures RescanIsSafe(xs, scope) <==> forall a, b | a in xs && b in xs && Clashes(a, b) :: Flagged(xs, b.rowId)
  {
    hide Scanned, Flagged, Clashes, MovedToFront;
    var table := Scanned([], scope, xs);
    if RescanIsSafe(xs, scope) {
      forall a, b | a in xs && b in xs && Clashes(a, b)
        ensures Flagged(xs, b.rowId)
      {
        var i :| 0 <= i < |xs| && xs[i] == a;
        MovedFacts(xs, i);
        FrontFlags(xs, i, b);
        RescanAddsNothingIff(xs, MovedToFront(xs, i), scope);
        assert Scanned(table, scope, MovedToFront(xs, i)) == table;
      }
    }
    if forall a, b | a in xs && b in xs && Clashes(a, b) :: Flagged(xs, b.rowId) {
      forall ys | multiset(ys) == multiset(xs)
        ensures Scanned(table, scope, ys) == table
      {
        RescanAddsNothingIff(xs, ys, scope);
        forall b | Flagged(ys, b)
          ensures Flagged(xs, b)
        {
          var x, y := FlaggedByClash(xs, ys, b);
        }
      }
    }
  }

  /** And exactly the populations for which it is safe whatever order the first scan fetched: those in which
      no two rows clash, so that the rule flags nothing at all. */
  lemma RescanIsAlwaysSafeIff(rows: seq<Txn>, scope: Scope)
    requires DistinctRows(rows)
    ensures (forall xs | multiset(xs) == multiset(rows) :: RescanIsSafe(xs, scope))
       <==> forall a, b | a in rows && b in rows :: !Clashes(a, b)
  {
    hide RescanIsSafe, Flagged, Clashes, MovedToFront;
    if forall xs | multiset(xs) == multiset(rows) :: RescanIsSafe(xs, scope) {
      forall a, b | a in rows && b in rows
        ensures !Clashes(a, b)
      {
        var i :| 0 <= i < |rows| && rows[i] == b;
        var xs := MovedToFront(rows, i);
        MovedFacts(rows, i);
        MovedIsFirst(rows, i);
        StillDistinct(rows, xs);
        FirstIsNotFlagged(xs);
        RescanIsSafeIff(xs, scope);
        SameMembers(rows, xs, a);
        SameMembers(rows, xs, b);
      }
    }
    if forall a, b | a in rows && b in rows :: !Clashes(a, b) {
      forall xs | multiset(xs) == multiset(rows)
        ensures RescanIsSafe(xs, scope)
      {
        StillDistinct(rows, xs);
        RescanIsSafeIff(xs, scope);
        forall a
          ensures a in xs <==> a in rows
        {
          SameMembers(rows, xs, a);
        }
      }
    }
  }

  lemma MovedIsFirst(rows: seq<Txn>, i: nat)
    requires i < |rows|
    ensures MovedToFront(rows, i) != [] && MovedToFront(rows, i)[0] == rows[i]
  {
  }

  /** Reordering keeps the row ids distinct. */
  lemma StillDistinct(xs: seq<Txn>, ys: seq<Txn>)
    requires DistinctRows(xs) && multiset(ys) == multiset(xs)
    ensures DistinctRows(ys)
  {
    forall i, j | 0 <= i < j < |ys|
      ensures ys[i].rowId != ys[j].rowId
    {
      SameMembers(xs, ys, ys[i]);
      SameMembers(xs, ys, ys[j]);
      OncePerRow(xs, ys[i]);
      if ys[i] == ys[j] {
        TwiceInOrder(ys, i, j);
      }
      RowsDetermine(xs);
    }
  }

  /** So the order matters: scanned the other way round, two equal payments to one counterparty give a
      second anomaly. */
  lemma ReorderedRescanAdds(scope: Scope, a: Txn, b: Txn)
    requires a.rowId != b.rowId && a.counterparty == b.counterparty && a.net == b.net > 0.0
    ensures var table := Scanned([], scope, [a, b]);
            Scanned(table, scope, [b, a]) != table
  {
    hide Scanned;
    var xs := [a, b];
    assert MovedToFront(xs, 1) == [b, a];
    assert Clashes(b, a);
    MovedFacts(xs, 1);
    FrontFlags(xs, 1, a);
    FirstIsNotFlagged(xs);
    RescanAddsNothingIff(xs, [b, a], scope);
  }
}
