/** Concurrent units of work on one audit table, after _chain_tip and commit in
    shared/persistence/uow.py. Any number of transactions of any number of tenants interleave step by
    step; the advisory lock is held from before the tip is read until the transaction ends, and each
    read sees the rows committed at that moment. */
module AuditLog {
  import opened Wrappers
  import opened AuditChain

  type TxnId = nat

  /** Where a transaction is in its commit. */
  datatype Phase = Open | Locked | Writing(tip: string)

  /** A transaction: its drafts and the rows it has inserted but not committed. */
  datatype Txn = Txn(tenant: string, actor: string, drafts: seq<Draft>, phase: Phase, rows: seq<Event>)

  datatype Committed = Committed(tenant: string, actor: string, drafts: seq<Draft>)

  /** The committed rows in commit order, the next value of the global sequence, the holders of the
      advisory locks by lock key, and the transactions in progress. The history of committed units of
      work is kept for the specification only. */
  datatype Database = Database(table: seq<Event>, nextSeq: int, locks: map<int, TxnId>, txns: map<TxnId, Txn>,
                               history: seq<Committed>)

  datatype Step =
    | Begin(id: TxnId, tenant: string, actor: string)
    | AddDraft(id: TxnId, draft: Draft)
    | AcquireLock(id: TxnId)
    | ReadTip(id: TxnId)
    | InsertRow(id: TxnId)
    | SkipSequence
    | Commit(id: TxnId)
    | Abort(id: TxnId)

  type LockKey = string -> int

  // ---------------------------------------------------------------- queries

  ghost function OfTenant(rows: seq<Event>, tenant: string): seq<Event> {
    if rows == [] then []
    else (if rows[0].rec.tenant == tenant then [rows[0]] else []) + OfTenant(rows[1..], tenant)
  }

  function InsertBySeq(e: Event, rows: seq<Event>): seq<Event> {
    if rows == [] || e.seqNo <= rows[0].seqNo then [e] + rows else [rows[0]] + InsertBySeq(e, rows[1..])
  }

  function OrderBySeq(rows: seq<Event>): seq<Event> {
    if rows == [] then [] else InsertBySeq(rows[0], OrderBySeq(rows[1..]))
  }

  /** The tenant's committed events ordered by sequence number, as the verifier reads them. */
  ghost function Log(db: Database, tenant: string): seq<Event> {
    OrderBySeq(OfTenant(db.table, tenant))
  }

  /** The hash of the tenant's committed event with the greatest sequence number. */
  ghost function TipHash(db: Database, tenant: string): Option<string> {
    HeadHash(Log(db, tenant))
  }

  // ---------------------------------------------------------------- steps

  ghost predicate Init(db: Database) {
    db.table == [] && db.locks == map[] && db.txns == map[] && db.history == []
  }

  ghost predicate Enabled(key: LockKey, db: Database, step: Step) {
    match step
    case Begin(id, _, _) => id !in db.txns
    case AddDraft(id, _) => id in db.txns && db.txns[id].phase == Open
    case AcquireLock(id) =>
      id in db.txns && db.txns[id].phase == Open && db.txns[id].drafts != [] && key(db.txns[id].tenant) !in db.locks
    case ReadTip(id) => id in db.txns && db.txns[id].phase == Locked
    case InsertRow(id) =>
      id in db.txns && db.txns[id].phase.Writing? && |db.txns[id].rows| < |db.txns[id].drafts|
    case SkipSequence => true
    case Commit(id) =>
      id in db.txns && db.txns[id].phase.Writing? && |db.txns[id].rows| == |db.txns[id].drafts|
    case Abort(id) => id in db.txns
  }

  function Tail(tip: string, rows: seq<Event>): string {
    if rows == [] then tip else rows[|rows| - 1].rec.eventHash
  }

  ghost function Release(key: LockKey, db: Database, t: Txn): map<int, TxnId> {
    if t.phase.Open? then db.locks else db.locks - {key(t.tenant)}
  }

  ghost function After(H: HashFunction, key: LockKey, db: Database, step: Step): Database
    requires Enabled(key, db, step)
  {
    match step
    case Begin(id, tenant, actor) => db.(txns := db.txns[id := Txn(tenant, actor, [], Open, [])])
    case AddDraft(id, d) =>
      var t := db.txns[id];
      db.(txns := db.txns[id := t.(drafts := t.drafts + [d])])
    case AcquireLock(id) =>
      var t := db.txns[id];
      db.(locks := db.locks[key(t.tenant) := id], txns := db.txns[id := t.(phase := Locked)])
    case ReadTip(id) =>
      var t := db.txns[id];
      db.(txns := db.txns[id := t.(phase := Writing(TipOrGenesis(TipHash(db, t.tenant))))])
    case InsertRow(id) =>
      var t := db.txns[id];
      var row := Stamp(H, t.tenant, t.actor, Tail(t.phase.tip, t.rows), t.drafts[|t.rows|]);
      db.(txns := db.txns[id := t.(rows := t.rows + [Event(db.nextSeq, row)])], nextSeq := db.nextSeq + 1)
    case SkipSequence => db.(nextSeq := db.nextSeq + 1)
    case Commit(id) =>
      var t := db.txns[id];
      db.(table := db.table + t.rows, locks := Release(key, db, t), txns := db.txns - {id},
          history := db.history + [Committed(t.tenant, t.actor, t.drafts)])
    case Abort(id) =>
      var t := db.txns[id];
      db.(locks := Release(key, db, t), txns := db.txns - {id})
  }

  // ---------------------------------------------------------------- the invariant

  ghost predicate SeqAscending(rows: seq<Event>) {
    forall i, j | 0 <= i < j < |rows| :: rows[i].seqNo < rows[j].seqNo
  }

  ghost predicate SeqBelow(rows: seq<Event>, bound: int) {
    forall i | 0 <= i < |rows| :: rows[i].seqNo < bound
  }

  /** The tenant's rows in commit order are already in sequence order, and form a chain. */
  ghost predicate TenantInv(H: HashFunction, db: Database, tenant: string) {
    var rows := OfTenant(db.table, tenant);
    SeqAscending(rows) && SeqBelow(rows, db.nextSeq) && Chain(H, rows)
  }

  /** Each row is a draft, in order, chained to the one before or to the tip. */
  ghost predicate Stamped(H: HashFunction, t: Txn, tip: string, rows: seq<Event>) {
    && |rows| <= |t.drafts|
    && forall i | 0 <= i < |rows| :: rows[i].rec == Stamp(H, t.tenant, t.actor, Tail(tip, rows[..i]), t.drafts[i])
  }

  /** A writing transaction's rows continue the committed chain of its tenant. */
  ghost predicate TxnInv(H: HashFunction, db: Database, t: Txn) {
    match t.phase
    case Open => t.rows == []
    case Locked => t.rows == []
    case Writing(tip) =>
      var rows := OfTenant(db.table, t.tenant);
      && Stamped(H, t, tip, t.rows)
      && tip == HashBefore(rows, |rows|)
      && (forall r | r in t.rows :: r.rec.tenant == t.tenant)
      && SeqAscending(rows + t.rows) && SeqBelow(rows + t.rows, db.nextSeq)
      && Chain(H, rows + t.rows)
  }

  /** Exactly the transactions past Open hold a lock, the one of their tenant's key. */
  ghost predicate LockInv(key: LockKey, db: Database) {
    && (forall id | id in db.txns && !db.txns[id].phase.Open? ::
          key(db.txns[id].tenant) in db.locks && db.locks[key(db.txns[id].tenant)] == id)
    && (forall k | k in db.locks ::
          db.locks[k] in db.txns && !db.txns[db.locks[k]].phase.Open? && key(db.txns[db.locks[k]].tenant) == k)
  }

  /** Who did what: the part of a record that its draft and its unit of work determine. */
  datatype Content = Content(actor: string, draft: Draft)

  function ContentOf(r: AuditRecord): Content {
    Content(r.actor, Draft(r.action, r.subjectType, r.subjectId, r.before, r.after))
  }

  function Contents(rows: seq<Event>): (cs: seq<Content>)
    ensures |cs| == |rows|
  {
    if rows == [] then [] else Contents(rows[..|rows| - 1]) + [ContentOf(rows[|rows| - 1].rec)]
  }

  function Acts(actor: string, drafts: seq<Draft>): (cs: seq<Content>)
    ensures |cs| == |drafts|
  {
    if drafts == [] then [] else Acts(actor, drafts[..|drafts| - 1]) + [Content(actor, drafts[|drafts| - 1])]
  }

  /** All drafts of the tenant's committed units of work, in commit order. */
  ghost function Expected(history: seq<Committed>, tenant: string): seq<Content> {
    if history == [] then []
    else
      var last := history[|history| - 1];
      Expected(history[..|history| - 1], tenant) + if last.tenant == tenant then Acts(last.actor, last.drafts) else []
  }

  ghost predicate HistoryInv(db: Database, tenant: string) {
    Contents(OfTenant(db.table, tenant)) == Expected(db.history, tenant)
  }

  ghost predicate Inv(H: HashFunction, key: LockKey, db: Database) {
    && LockInv(key, db)
    && (forall tenant :: TenantInv(H, db, tenant) && HistoryInv(db, tenant))
    && (forall id | id in db.txns :: TxnInv(H, db, db.txns[id]))
  }

  ghost predicate NeverEmpty(H: HashFunction) {
    forall x :: H(x) != ""
  }

  // ---------------------------------------------------------------- facts about the queries

  lemma {:induction false} OfTenantConcat(a: seq<Event>, b: seq<Event>, tenant: string)
    ensures OfTenant(a + b, tenant) == OfTenant(a, tenant) + OfTenant(b, tenant)
  {
    hide *;
    if a == [] {
      OfTenantNone(tenant);
      assert a + b == b;
    } else {
      OfTenantConcat(a[1..], b, tenant);
      OfTenantCons(a[0], a[1..], tenant);
      OfTenantCons(a[0], a[1..] + b, tenant);
      assert a == [a[0]] + a[1..] && a + b == [a[0]] + (a[1..] + b);
    }
  }

  lemma OfTenantNone(tenant: string)
    ensures OfTenant([], tenant) == []
  {
  }

  lemma OfTenantCons(e: Event, rows: seq<Event>, tenant: string)
    ensures OfTenant([e] + rows, tenant) == (if e.rec.tenant == tenant then [e] else []) + OfTenant(rows, tenant)
  {
    assert ([e] + rows)[1..] == rows;
  }

  lemma {:induction false} OfTenantUniform(rows: seq<Event>, owner: string, tenant: string)
    requires forall r | r in rows :: r.rec.tenant == owner
    ensures OfTenant(rows, tenant) == if owner == tenant then rows else []
  {
    if rows != [] {
      assert rows[0] in rows;
      OfTenantUniform(rows[1..], owner, tenant);
    }
  }

  lemma {:induction false} OrderedStays(rows: seq<Event>)
    requires SeqAscending(rows)
    ensures OrderBySeq(rows) == rows
  {
    if rows != [] {
      OrderedStays(rows[1..]);
    }
  }

  lemma {:induction false} ContentsConcat(a: seq<Event>, b: seq<Event>)
    ensures Contents(a + b) == Contents(a) + Contents(b)
    decreases |b|
  {
    if b == [] {
      assert a + b == a;
    } else {
      var n := |b| - 1;
      assert (a + b)[..|a + b| - 1] == a + b[..n];
      ContentsConcat(a, b[..n]);
    }
  }

  lemma StampedContent(H: HashFunction, t: Txn, tip: string, i: nat)
    requires i < |t.rows| && Stamped(H, t, tip, t.rows)
    ensures i < |t.drafts| && ContentOf(t.rows[i].rec) == Content(t.actor, t.drafts[i])
  {
  }

  lemma {:induction false} ContentsAt(rows: seq<Event>)
    ensures forall i | 0 <= i < |rows| :: Contents(rows)[i] == ContentOf(rows[i].rec)
  {
    hide ContentOf;
    if rows != [] {
      ContentsAt(rows[..|rows| - 1]);
    }
  }

  lemma {:induction false} ActsAt(actor: string, drafts: seq<Draft>)
    ensures forall i | 0 <= i < |drafts| :: Acts(actor, drafts)[i] == Content(actor, drafts[i])
  {
    if drafts != [] {
      ActsAt(actor, drafts[..|drafts| - 1]);
    }
  }

  lemma StampedFits(H: HashFunction, t: Txn, tip: string)
    requires Stamped(H, t, tip, t.rows)
    ensures |t.rows| <= |t.drafts|
  {
  }

  lemma StampedContents(H: HashFunction, t: Txn, tip: string, n: nat)
    requires n <= |t.rows| && Stamped(H, t, tip, t.rows)
    ensures n <= |t.drafts| && Contents(t.rows[..n]) == Acts(t.actor, t.drafts[..n])
  {
    hide *;
    StampedFits(H, t, tip);
    ContentsAt(t.rows[..n]);
    ActsAt(t.actor, t.drafts[..n]);
    forall i | 0 <= i < n
      ensures Contents(t.rows[..n])[i] == Acts(t.actor, t.drafts[..n])[i]
    {
      StampedContent(H, t, tip, i);
    }
  }

  /** The tip the code reads is the hash the next event must continue from. */
  lemma TipIsLastHash(H: HashFunction, db: Database, tenant: string)
    requires TenantInv(H, db, tenant) && NeverEmpty(H)
    ensures var rows := OfTenant(db.table, tenant); TipOrGenesis(TipHash(db, tenant)) == HashBefore(rows, |rows|)
  {
    var rows := OfTenant(db.table, tenant);
    OrderedStays(rows);
    if rows != [] {
      assert Linked(H, rows, |rows| - 1);
    }
  }

  // ---------------------------------------------------------------- every step keeps the invariant

  /** Whatever leaves the table alone and does not lower the sequence keeps the tenants' logs and the
      other transactions as they are. */
  lemma TableUntouched(H: HashFunction, db: Database, db': Database, t: Txn)
    requires db'.table == db.table && db'.history == db.history && db.nextSeq <= db'.nextSeq
    ensures forall tenant :: TenantInv(H, db, tenant) ==> TenantInv(H, db', tenant)
    ensures forall tenant :: HistoryInv(db, tenant) ==> HistoryInv(db', tenant)
    ensures TxnInv(H, db, t) ==> TxnInv(H, db', t)
  {
    hide Chain, OfTenant, Stamp;
  }

  lemma KeepsOthers(H: HashFunction, key: LockKey, db: Database, db': Database, id: TxnId)
    requires Inv(H, key, db)
    requires db'.table == db.table && db'.history == db.history && db.nextSeq <= db'.nextSeq
    requires forall i | i in db'.txns && i != id :: i in db.txns && db'.txns[i] == db.txns[i]
    requires id in db'.txns ==> TxnInv(H, db', db'.txns[id])
    requires LockInv(key, db')
    ensures Inv(H, key, db')
  {
    hide TenantInv, TxnInv, HistoryInv, LockInv;
    forall tenant
      ensures TenantInv(H, db', tenant) && HistoryInv(db', tenant)
    {
      TableUntouched(H, db, db', Txn("", "", [], Open, []));
    }
    forall i | i in db'.txns
      ensures TxnInv(H, db', db'.txns[i])
    {
      if i != id {
        TableUntouched(H, db, db', db.txns[i]);
      }
    }
  }

  lemma StampedSnoc(H: HashFunction, t: Txn, tip: string, rows: seq<Event>, row: Event)
    requires Stamped(H, t, tip, rows) && |rows| < |t.drafts|
    requires row.rec == Stamp(H, t.tenant, t.actor, Tail(tip, rows), t.drafts[|rows|])
    ensures Stamped(H, t, tip, rows + [row])
  {
    hide Stamp, Tail;
    var all := rows + [row];
    forall i | 0 <= i < |all|
      ensures all[i].rec == Stamp(H, t.tenant, t.actor, Tail(tip, all[..i]), t.drafts[i])
    {
      if i < |rows| {
        assert all[..i] == rows[..i];
      } else {
        assert all[..i] == rows;
      }
    }
  }

  lemma InsertKeepsTxn(H: HashFunction, db: Database, t: Txn, tip: string)
    requires TxnInv(H, db, t) && t.phase == Writing(tip) && |t.rows| < |t.drafts|
    ensures var row := Event(db.nextSeq, Stamp(H, t.tenant, t.actor, Tail(tip, t.rows), t.drafts[|t.rows|]));
            TxnInv(H, db.(nextSeq := db.nextSeq + 1), t.(rows := t.rows + [row]))
  {
    hide OfTenant, Chain, Stamped;
    var row := Event(db.nextSeq, Stamp(H, t.tenant, t.actor, Tail(tip, t.rows), t.drafts[|t.rows|]));
    var rows := OfTenant(db.table, t.tenant);
    var before := rows + t.rows;
    assert HashBefore(before, |before|) == Tail(tip, t.rows);
    StampLinks(H, t.tenant, t.actor, Tail(tip, t.rows), t.drafts[|t.rows|]);
    ChainSnoc(H, before, row);
    assert rows + (t.rows + [row]) == before + [row];
    StampedSnoc(H, t, tip, t.rows, row);
    StampedFor(H, t, t.(rows := t.rows + [row]), tip, t.rows + [row]);
  }

  lemma StampedFor(H: HashFunction, t: Txn, t': Txn, tip: string, rows: seq<Event>)
    requires Stamped(H, t, tip, rows)
    requires t'.tenant == t.tenant && t'.actor == t.actor && t'.drafts == t.drafts
    ensures Stamped(H, t', tip, rows)
  {
  }

  lemma CommitTenant(H: HashFunction, db: Database, t: Txn, db': Database, tenant: string)
    requires TenantInv(H, db, tenant) && HistoryInv(db, tenant) && TxnInv(H, db, t)
    requires t.phase.Writing? && |t.rows| == |t.drafts|
    requires db'.table == db.table + t.rows && db'.nextSeq == db.nextSeq
    requires db'.history == db.history + [Committed(t.tenant, t.actor, t.drafts)]
    ensures TenantInv(H, db', tenant) && HistoryInv(db', tenant)
    ensures tenant != t.tenant ==> OfTenant(db'.table, tenant) == OfTenant(db.table, tenant)
    ensures OfTenant(db.table, tenant) <= OfTenant(db'.table, tenant)
  {
    hide OfTenant, Chain, Stamp, Contents, Acts, Stamped;
    var earlier, later := OfTenant(db.table, tenant), OfTenant(db'.table, tenant);
    OfTenantConcat(db.table, t.rows, tenant);
    OfTenantUniform(t.rows, t.tenant, tenant);
    assert db'.history[..|db'.history| - 1] == db.history;
    if tenant == t.tenant {
      ContentsConcat(OfTenant(db.table, tenant), t.rows);
      StampedContents(H, t, t.phase.tip, |t.rows|);
      assert t.rows[..|t.rows|] == t.rows && t.drafts[..|t.drafts|] == t.drafts;
    } else {
      assert later == earlier + [] == earlier;
      var expected := Expected(db.history, tenant);
      assert expected + [] == expected;
    }
  }

  lemma CommitKeepsInv(H: HashFunction, key: LockKey, db: Database, id: TxnId)
    requires Inv(H, key, db) && Enabled(key, db, Commit(id))
    ensures Inv(H, key, After(H, key, db, Commit(id)))
  {
    hide TenantInv, HistoryInv, OfTenant;
    var db', t := After(H, key, db, Commit(id)), db.txns[id];
    forall tenant
      ensures TenantInv(H, db', tenant) && HistoryInv(db', tenant)
    {
      CommitTenant(H, db, t, db', tenant);
    }
    forall i | i in db'.txns
      ensures TxnInv(H, db', db'.txns[i])
    {
      var other := db.txns[i];
      assert TxnInv(H, db, other);
      if other.phase.Writing? {
        assert other.tenant != t.tenant;
        CommitTenant(H, db, t, db', other.tenant);
      }
    }
  }

  lemma StepKeepsLocks(H: HashFunction, key: LockKey, db: Database, step: Step)
    requires LockInv(key, db) && Enabled(key, db, step)
    ensures LockInv(key, After(H, key, db, step))
  {
    hide Stamp, TipHash;
  }

  lemma InsertStep(H: HashFunction, key: LockKey, db: Database, id: TxnId)
    requires Inv(H, key, db) && Enabled(key, db, InsertRow(id))
    ensures Inv(H, key, After(H, key, db, InsertRow(id)))
  {
    hide TenantInv, HistoryInv, LockInv, Stamp, TxnInv;
    var db', t := After(H, key, db, InsertRow(id)), db.txns[id];
    InsertKeepsTxn(H, db, t, t.phase.tip);
    TableUntouched(H, db.(nextSeq := db.nextSeq + 1), db', db'.txns[id]);
    StepKeepsLocks(H, key, db, InsertRow(id));
    KeepsOthers(H, key, db, db', id);
  }

  lemma ReadTipStep(H: HashFunction, key: LockKey, db: Database, id: TxnId)
    requires Inv(H, key, db) && Enabled(key, db, ReadTip(id)) && NeverEmpty(H)
    ensures Inv(H, key, After(H, key, db, ReadTip(id)))
  {
    hide TenantInv, HistoryInv, LockInv, TipHash, NeverEmpty, TipOrGenesis;
    var db', t := After(H, key, db, ReadTip(id)), db.txns[id];
    TipIsLastHash(H, db, t.tenant);
    assert TxnInv(H, db, t);
    ReadTipTxn(H, db, t, db'.txns[id]);
    TableUntouched(H, db, db', db'.txns[id]);
    StepKeepsLocks(H, key, db, ReadTip(id));
    KeepsOthers(H, key, db, db', id);
  }

  lemma BookkeepingStep(H: HashFunction, key: LockKey, db: Database, step: Step, id: TxnId)
    requires Inv(H, key, db) && Enabled(key, db, step)
    requires step.Begin? || step.AddDraft? || step.AcquireLock? || step.SkipSequence? || step.Abort?
    requires step.SkipSequence? || id == step.id
    ensures Inv(H, key, After(H, key, db, step))
  {
    hide TenantInv, HistoryInv, LockInv;
    StepKeepsLocks(H, key, db, step);
    var db' := After(H, key, db, step);
    if id in db.txns {
      TableUntouched(H, db, db', db.txns[id]);
    }
    KeepsOthers(H, key, db, db', id);
  }

  /** Every step of every transaction keeps every tenant's log a chain in sequence order, and the rows
      in progress a continuation of it. */
  lemma StepKeepsInv(H: HashFunction, key: LockKey, db: Database, step: Step)
    requires Inv(H, key, db) && Enabled(key, db, step) && NeverEmpty(H)
    ensures Inv(H, key, After(H, key, db, step))
  {
    hide Inv, Enabled, After, NeverEmpty;
    match step
    case ReadTip(id) => ReadTipStep(H, key, db, id);
    case InsertRow(id) => InsertStep(H, key, db, id);
    case Commit(id) => CommitKeepsInv(H, key, db, id);
    case SkipSequence => BookkeepingStep(H, key, db, step, 0);
    case _ => BookkeepingStep(H, key, db, step, step.id);
  }

  lemma ReadTipTxn(H: HashFunction, db: Database, t: Txn, t': Txn)
    requires TenantInv(H, db, t.tenant) && t.rows == []
    requires var rows := OfTenant(db.table, t.tenant); t' == t.(phase := Writing(HashBefore(rows, |rows|)))
    ensures TxnInv(H, db, t')
  {
    hide OfTenant, Chain;
    var rows := OfTenant(db.table, t.tenant);
    assert rows + [] == rows;
  }

  // ---------------------------------------------------------------- runs

  /** A run: steps in any interleaving, each enabled where it is taken, from an empty database. */
  ghost predicate Run(H: HashFunction, key: LockKey, states: seq<Database>, steps: seq<Step>) {
    && |states| == |steps| + 1
    && Init(states[0])
    && forall i | 0 <= i < |steps| :: Enabled(key, states[i], steps[i]) && states[i + 1] == After(H, key, states[i], steps[i])
  }

  lemma InitInv(H: HashFunction, key: LockKey, db: Database)
    requires Init(db)
    ensures Inv(H, key, db)
  {
  }

  lemma {:induction false} RunKeepsInv(H: HashFunction, key: LockKey, states: seq<Database>, steps: seq<Step>, i: nat)
    requires Run(H, key, states, steps) && i < |states| && NeverEmpty(H)
    ensures Inv(H, key, states[i])
  {
    hide Inv, NeverEmpty, After, Enabled;
    if i == 0 {
      InitInv(H, key, states[0]);
    } else {
      RunKeepsInv(H, key, states, steps, i - 1);
      StepKeepsInv(H, key, states[i - 1], steps[i - 1]);
    }
  }

  lemma LogIsTable(H: HashFunction, db: Database, tenant: string)
    requires TenantInv(H, db, tenant)
    ensures Log(db, tenant) == OfTenant(db.table, tenant)
  {
    OrderedStays(OfTenant(db.table, tenant));
  }

  /** Under any interleaving, with aborts and gaps in the sequence, every tenant's committed events in
      sequence order form a chain the verifier accepts, and they are exactly the drafts of the tenant's
      committed units of work, in commit order. */
  lemma EveryLogVerifies(H: HashFunction, key: LockKey, states: seq<Database>, steps: seq<Step>, i: nat, tenant: string)
    requires Run(H, key, states, steps) && i < |states| && NeverEmpty(H)
    ensures Chain(H, Log(states[i], tenant))
    ensures Contents(Log(states[i], tenant)) == Expected(states[i].history, tenant)
  {
    hide Run, NeverEmpty, Chain, Log, Contents;
    RunKeepsInv(H, key, states, steps, i);
    assert TenantInv(H, states[i], tenant) && HistoryInv(states[i], tenant);
    LogIsTable(H, states[i], tenant);
  }

  /** While a transaction writes, the tip it read is still its tenant's committed tip, and no other
      transaction of the tenant has got past waiting for the lock. */
  lemma LockHolderSeesTip(H: HashFunction, key: LockKey, states: seq<Database>, steps: seq<Step>, i: nat, id: TxnId)
    requires Run(H, key, states, steps) && i < |states| && NeverEmpty(H)
    requires id in states[i].txns && states[i].txns[id].phase.Writing?
    ensures var t := states[i].txns[id]; t.phase.tip == TipOrGenesis(TipHash(states[i], t.tenant))
    ensures forall other | other in states[i].txns && other != id ::
              states[i].txns[other].tenant == states[i].txns[id].tenant ==> states[i].txns[other].phase.Open?
  {
    hide Run, NeverEmpty, TenantInv, TipHash, HistoryInv, TipOrGenesis;
    RunKeepsInv(H, key, states, steps, i);
    var t := states[i].txns[id];
    assert TxnInv(H, states[i], t) && TenantInv(H, states[i], t.tenant);
    TipIsLastHash(H, states[i], t.tenant);
  }

  lemma StepGrowsTable(H: HashFunction, key: LockKey, db: Database, step: Step, tenant: string)
    requires Enabled(key, db, step)
    ensures OfTenant(db.table, tenant) <= OfTenant(After(H, key, db, step).table, tenant)
  {
    hide OfTenant, Stamp, TipHash;
    if step.Commit? {
      OfTenantConcat(db.table, db.txns[step.id].rows, tenant);
    }
  }

  /** Logs only ever grow at the end: what was committed stays, unchanged and in place. */
  lemma {:induction false} LogsOnlyGrow(H: HashFunction, key: LockKey, states: seq<Database>, steps: seq<Step>,
                                        i: nat, j: nat, tenant: string)
    requires Run(H, key, states, steps) && i <= j < |states| && NeverEmpty(H)
    ensures Log(states[i], tenant) <= Log(states[j], tenant)
  {
    hide NeverEmpty, After, Enabled, OfTenant, Chain, Log;
    RunKeepsInv(H, key, states, steps, i);
    RunKeepsInv(H, key, states, steps, j);
    assert TenantInv(H, states[i], tenant) && TenantInv(H, states[j], tenant);
    LogIsTable(H, states[i], tenant);
    LogIsTable(H, states[j], tenant);
    if i < j {
      LogsOnlyGrow(H, key, states, steps, i, j - 1, tenant);
      RunKeepsInv(H, key, states, steps, j - 1);
      assert TenantInv(H, states[j - 1], tenant);
      LogIsTable(H, states[j - 1], tenant);
      StepGrowsTable(H, key, states[j - 1], steps[j - 1], tenant);
    }
  }
}
