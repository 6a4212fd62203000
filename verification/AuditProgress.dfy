/** No transaction of the audit log waits in vain: from every reachable state each one with something to record
    can be brought to its commit. A transaction takes a single advisory lock, so its holder never waits itself. */
module AuditProgress {
  import opened AuditChain
  import opened AuditLog

  /** The steps can be taken one after the other, and lead from one state to the other. */
  ghost predicate Leads(H: HashFunction, key: LockKey, db: Database, steps: seq<Step>, final: Database)
    decreases |steps|
  {
    if steps == [] then db == final
    else Enabled(key, db, steps[0]) && Leads(H, key, After(H, key, db, steps[0]), steps[1..], final)
  }

  lemma {:induction false} LeadsOn(H: HashFunction, key: LockKey, a: Database, first: seq<Step>, b: Database, second: seq<Step>, c: Database)
    requires Leads(H, key, a, first, b) && Leads(H, key, b, second, c)
    ensures Leads(H, key, a, first + second, c)
    decreases |first|
  {
    hide Enabled, After;
    if first == [] {
      assert first + second == second;
    } else {
      assert (first + second)[1..] == first[1..] + second;
      LeadsOn(H, key, After(H, key, a, first[0]), first[1..], b, second, c);
    }
  }

  /** The transaction has committed: its drafts are the last unit of work, it is gone, and its lock is free. */
  ghost predicate Finished(key: LockKey, before: Database, id: TxnId, after: Database)
    requires id in before.txns
  {
    var t := before.txns[id];
    && after.history == before.history + [Committed(t.tenant, t.actor, t.drafts)]
    && after.txns == before.txns - {id}
    && after.locks == before.locks - {key(t.tenant)}
  }

  /** What the holder of a lock does next. */
  function NextStep(db: Database, id: TxnId): Step
    requires id in db.txns
  {
    var t := db.txns[id];
    if t.phase == Locked then ReadTip(id) else if |t.rows| < |t.drafts| then InsertRow(id) else Commit(id)
  }

  function StepsLeft(t: Txn): nat {
    (if |t.rows| < |t.drafts| then |t.drafts| - |t.rows| else 0) + if t.phase == Locked then 1 else 0
  }

  lemma HolderAdvances(H: HashFunction, key: LockKey, db: Database, id: TxnId)
    requires Inv(H, key, db) && id in db.txns && !db.txns[id].phase.Open?
    ensures var step := NextStep(db, id);
            && Enabled(key, db, step)
            && var after := After(H, key, db, step);
               if step.Commit? then Finished(key, db, id, after)
               else
                 && id in after.txns && after.history == db.history && after.locks == db.locks
                 && after.txns - {id} == db.txns - {id} && !after.txns[id].phase.Open?
                 && after.txns[id].tenant == db.txns[id].tenant && after.txns[id].actor == db.txns[id].actor
                 && after.txns[id].drafts == db.txns[id].drafts
                 && StepsLeft(after.txns[id]) == StepsLeft(db.txns[id]) - 1
  {
    hide TenantInv, HistoryInv, LockInv, Stamp, TipHash, TipOrGenesis, Tail, Chain, OfTenant;
    assert TxnInv(H, db, db.txns[id]);
  }

  /** Whoever holds a lock can go on to its commit without waiting for anyone. */
  lemma {:induction false} HolderCanFinish(H: HashFunction, key: LockKey, db: Database, id: TxnId)
    returns (steps: seq<Step>, final: Database)
    requires Inv(H, key, db) && NeverEmpty(H) && id in db.txns && !db.txns[id].phase.Open?
    ensures Leads(H, key, db, steps, final) && Inv(H, key, final) && Finished(key, db, id, final)
    decreases StepsLeft(db.txns[id])
  {
    hide Inv, NeverEmpty, Enabled, After, NextStep, StepsLeft;
    HolderAdvances(H, key, db, id);
    var step := NextStep(db, id);
    var next := After(H, key, db, step);
    StepKeepsInv(H, key, db, step);
    if step.Commit? {
      steps, final := [step], next;
      assert steps[1..] == [];
    } else {
      var rest;
      rest, final := HolderCanFinish(H, key, next, id);
      steps := [step] + rest;
      assert steps[1..] == rest;
      assert final.txns == next.txns - {id} == db.txns - {id};
    }
  }

  /** A waiting transaction gets the lock as soon as it is free. */
  lemma WaiterCanFinish(H: HashFunction, key: LockKey, db: Database, id: TxnId) returns (steps: seq<Step>, final: Database)
    requires Inv(H, key, db) && NeverEmpty(H) && id in db.txns && db.txns[id].phase.Open? && db.txns[id].drafts != []
    requires key(db.txns[id].tenant) !in db.locks
    ensures Leads(H, key, db, steps, final) && Inv(H, key, final)
    ensures final.history == db.history + [Committed(db.txns[id].tenant, db.txns[id].actor, db.txns[id].drafts)]
  {
    hide Inv, NeverEmpty, Leads;
    var step := AcquireLock(id);
    StepKeepsInv(H, key, db, step);
    var next := After(H, key, db, step);
    var rest;
    rest, final := HolderCanFinish(H, key, next, id);
    steps := [step] + rest;
    LeadsFirst(H, key, db, step, rest, final);
  }

  lemma LeadsFirst(H: HashFunction, key: LockKey, db: Database, step: Step, rest: seq<Step>, final: Database)
    requires Enabled(key, db, step) && Leads(H, key, After(H, key, db, step), rest, final)
    ensures Leads(H, key, db, [step] + rest, final)
  {
    hide Enabled, After;
    assert ([step] + rest)[1..] == rest;
  }

  /** From every reachable state every transaction that has something to record can be brought to its commit, if
      need be after the transaction whose lock it waits for; then its drafts stand in its tenant's log after all
      that was committed before. */
  lemma EveryTransactionCanCommit(H: HashFunction, key: LockKey, states: seq<Database>, taken: seq<Step>, i: nat, id: TxnId)
    returns (steps: seq<Step>, final: Database)
    requires Run(H, key, states, taken) && i < |states| && NeverEmpty(H)
    requires id in states[i].txns && states[i].txns[id].drafts != []
    ensures Leads(H, key, states[i], steps, final)
    ensures var t := states[i].txns[id];
            && states[i].history < final.history && |final.history| <= |states[i].history| + 2
            && final.history[|final.history| - 1] == Committed(t.tenant, t.actor, t.drafts)
            && Contents(Log(final, t.tenant))
               == Expected(final.history[..|final.history| - 1], t.tenant) + Acts(t.actor, t.drafts)
  {
    hide Inv, NeverEmpty, Leads, Enabled, After, Run, Log, Contents, Acts;
    var db, t := states[i], states[i].txns[id];
    RunKeepsInv(H, key, states, taken, i);
    if !t.phase.Open? {
      steps, final := HolderCanFinish(H, key, db, id);
    } else if key(t.tenant) !in db.locks {
      steps, final := WaiterCanFinish(H, key, db, id);
    } else {
      var holder := db.locks[key(t.tenant)];
      HolderHoldsIt(H, key, db, id);
      var first, between := HolderCanFinish(H, key, db, holder);
      var last;
      last, final := WaiterCanFinish(H, key, between, id);
      steps := first + last;
      LeadsOn(H, key, db, first, between, last, final);
    }
    LogHoldsDrafts(H, key, final, t.tenant);
    assert final.history[..|final.history| - 1] + [final.history[|final.history| - 1]] == final.history;
  }

  /** A lock that a waiting transaction needs is held by another one, of the same key and past waiting. */
  lemma HolderHoldsIt(H: HashFunction, key: LockKey, db: Database, id: TxnId)
    requires Inv(H, key, db) && id in db.txns && db.txns[id].phase.Open? && key(db.txns[id].tenant) in db.locks
    ensures var holder := db.locks[key(db.txns[id].tenant)];
            && holder != id && holder in db.txns && !db.txns[holder].phase.Open?
            && key(db.txns[holder].tenant) == key(db.txns[id].tenant)
  {
    hide TenantInv, HistoryInv, TxnInv;
    var k := key(db.txns[id].tenant);
    assert LockInv(key, db) && k in db.locks;
    assert db.locks[k] in db.txns;
  }

  lemma LogHoldsDrafts(H: HashFunction, key: LockKey, db: Database, tenant: string)
    requires Inv(H, key, db)
    ensures Contents(Log(db, tenant)) == Expected(db.history, tenant)
  {
    hide LockInv, TxnInv, Chain, Log, Contents;
    assert TenantInv(H, db, tenant) && HistoryInv(db, tenant);
    LogIsTable(H, db, tenant);
  }
}
