/** What holds over whole runs of the workflow service: any sequence of calls by any actors. */
module WorkflowRuns {
  import opened Wrappers
  import opened StringOrder
  import opened CanonicalJson
  import opened AuditChain
  import opened Workflow

  datatype Db = Db(items: map<string, WorkItem>, computations: Computations, clock: nat)

  datatype Call =
    | Create(id: string, actor: string, linked: Option<string>, preparedBy: Option<string>)
    | MoveTo(id: string, to: State, actor: string)
    | Grant(id: string, hash: string, actor: string)
    | Attach(id: string, computationId: string, actor: string)
    | Recheck(id: string, actor: string)
    | Compute(computation: Computation)

  /** What a call makes of an existing item; a refused call changes nothing. */
  function ItemResult(H: HashFunction, db: Db, call: Call): Result<WorkItem, WorkflowError>
    requires !call.Create? && !call.Compute?
  {
    if call.id !in db.items then Err(NotFound)
    else
      match call
      case MoveTo(id, to, actor) => TransitionItem(H, db.computations, db.items[id], to, actor)
      case Grant(id, hash, actor) => ApproveItem(H, db.computations, db.items[id], hash, actor, db.clock)
      case Attach(id, c, actor) => AttachToItem(db.computations, db.items[id], c, actor)
      case Recheck(id, actor) => RevalidateItem(H, db.computations, db.items[id], actor)
  }

  /** Ids of new rows are fresh. */
  predicate Enabled(db: Db, call: Call) {
    match call
    case Create(id, _, _, _) => id !in db.items
    case Compute(c) => c.id !in db.computations
    case _ => true
  }

  function Apply(H: HashFunction, db: Db, call: Call): Db
    requires Enabled(db, call)
  {
    match call
    case Create(id, actor, c, preparedBy) =>
      if c.Some? && c.value !in db.computations then db.(clock := db.clock + 1)
      else db.(items := db.items[id := CreateItem(id, actor, c, preparedBy)], clock := db.clock + 1)
    case Compute(c) => db.(computations := db.computations[c.id := c], clock := db.clock + 1)
    case _ =>
      match ItemResult(H, db, call)
      case Err(_) => db.(clock := db.clock + 1)
      case Ok(item) => db.(items := db.items[call.id := item], clock := db.clock + 1)
  }

  ghost predicate Run(H: HashFunction, states: seq<Db>, calls: seq<Call>) {
    && |states| == |calls| + 1
    && states[0] == Db(map[], map[], 0)
    && forall i | 0 <= i < |calls| :: Enabled(states[i], calls[i]) && states[i + 1] == Apply(H, states[i], calls[i])
  }

  // ---------------------------------------------------------------- the invariant over runs

  ghost predicate DbInv(db: Db) {
    && (forall id | id in db.items :: ItemInv(db.items[id], db.clock) && db.items[id].id == id)
    && (forall id | id in db.items && db.items[id].computationId.Some? :: db.items[id].computationId.value in db.computations)
  }

  lemma LaterClock(item: WorkItem, clock: nat)
    requires ItemInv(item, clock)
    ensures ItemInv(item, clock + 1)
  {
  }

  lemma ItemResultInv(H: HashFunction, db: Db, call: Call)
    requires DbInv(db) && !call.Create? && !call.Compute? && ItemResult(H, db, call).Ok?
    ensures var item := ItemResult(H, db, call).value;
            && ItemInv(item, db.clock + 1) && item.id == call.id
            && (item.computationId.Some? ==> item.computationId.value in db.computations)
  {
    hide ItemInv;
    var item := db.items[call.id];
    match call
    case MoveTo(id, to, actor) =>
      TransitionKeepsInv(H, db.computations, item, to, actor, db.clock);
      LaterClock(ItemResult(H, db, call).value, db.clock);
    case Grant(id, hash, actor) =>
      ApproveKeepsInv(H, db.computations, item, hash, actor, db.clock);
    case Attach(id, c, actor) =>
      AttachKeepsInv(db.computations, item, c, actor, db.clock);
      LaterClock(ItemResult(H, db, call).value, db.clock);
    case Recheck(id, actor) =>
      RevalidateKeepsInv(H, db.computations, item, actor, db.clock);
      LaterClock(ItemResult(H, db, call).value, db.clock);
  }

  lemma CallKeepsInv(H: HashFunction, db: Db, call: Call)
    requires DbInv(db) && Enabled(db, call)
    ensures DbInv(Apply(H, db, call))
  {
    hide ItemInv, ItemResult;
    forall id | id in db.items
      ensures ItemInv(db.items[id], db.clock + 1)
    {
      LaterClock(db.items[id], db.clock);
    }
    if call.Create? {
      NewItemInv(call.id, call.actor, call.linked, call.preparedBy, db.clock + 1);
    } else if !call.Compute? && ItemResult(H, db, call).Ok? {
      ItemResultInv(H, db, call);
    }
  }

  lemma {:induction false} RunKeepsInv(H: HashFunction, states: seq<Db>, calls: seq<Call>, i: nat)
    requires Run(H, states, calls) && i < |states|
    ensures DbInv(states[i])
  {
    hide Apply, Enabled;
    if i > 0 {
      RunKeepsInv(H, states, calls, i - 1);
      CallKeepsInv(H, states[i - 1], calls[i - 1]);
    }
  }

  /** In every reachable state an approved item's most recently granted approval is not voided and is the
      live one, and nobody ever approved an item they prepared. */
  lemma ApprovedMeansLiveApproval(H: HashFunction, states: seq<Db>, calls: seq<Call>, i: nat, id: string)
    requires Run(H, states, calls) && i < |states| && id in states[i].items
    ensures var item := states[i].items[id];
            item.state == APPROVED ==> LiveApproval(item.approvals) == Some(|item.approvals| - 1)
    ensures var item := states[i].items[id];
            forall k | 0 <= k < |item.approvals| :: item.approvals[k].approver != item.preparedBy
  {
    hide LiveApproval;
    RunKeepsInv(H, states, calls, i);
    var item := states[i].items[id];
    if item.state == APPROVED {
      LiveIsLast(item, states[i].clock);
    }
  }

  /** The three histories of an item agree: its transitions are a path of legal moves from DRAFT to its
      state, the k-th entry into APPROVED is the k-th approver's, and the audit events record the same
      moves. */
  lemma HistoriesAgree(H: HashFunction, states: seq<Db>, calls: seq<Call>, i: nat, id: string)
    requires Run(H, states, calls) && i < |states| && id in states[i].items
    ensures var item := states[i].items[id];
            && Path(DRAFT, item.transitions, item.state)
            && Approvers(item.transitions) == ApproversOf(item.approvals)
            && Moves(item.events) == item.transitions
  {
    RunKeepsInv(H, states, calls, i);
  }

  /** Approvals left live: one per plain transition out of APPROVED, plus one while approved. So at most
      one approval is live exactly when that sum is at most one. */
  lemma LiveApprovalsCounted(H: HashFunction, states: seq<Db>, calls: seq<Call>, i: nat, id: string)
    requires Run(H, states, calls) && i < |states| && id in states[i].items
    ensures var item := states[i].items[id];
            LiveCount(item.approvals) == DirectExits(item.events) + (if item.state == APPROVED then 1 else 0)
  {
    RunKeepsInv(H, states, calls, i);
  }

  // ---------------------------------------------------------------- the moment of grant

  /** At this step the k-th approval of the item was granted, by another than its preparer, for the hash
      its content had at that moment. */
  ghost predicate GrantedAt(H: HashFunction, states: seq<Db>, calls: seq<Call>, j: nat, id: string, k: nat, a: Approval)
    requires |states| == |calls| + 1
  {
    && j < |calls| && id in states[j].items
    && calls[j] == Grant(id, a.contentHash, a.approver)
    && |states[j].items[id].approvals| == k
    && states[j].items[id].state == AWAITING_REVIEW
    && states[j].items[id].preparedBy != a.approver
    && CurrentHash(H, states[j].computations, states[j].items[id]) == Some(a.contentHash)
  }

  /** Approval facts never change; only voiding is possible, and it is for good. */
  ghost predicate VoidOnly(before: seq<Approval>, after: seq<Approval>) {
    && |before| <= |after|
    && forall k | 0 <= k < |before| ::
         && after[k].approver == before[k].approver && after[k].contentHash == before[k].contentHash
         && after[k].grantedAt == before[k].grantedAt && (before[k].voided ==> after[k].voided)
  }

  /** Everything an item keeps for its history only grows. */
  ghost predicate Evolves(before: WorkItem, after: WorkItem) {
    && after.preparedBy == before.preparedBy && after.createdBy == before.createdBy
    && VoidOnly(before.approvals, after.approvals)
    && before.transitions <= after.transitions
    && before.events <= after.events
  }

  lemma ResultEvolves(H: HashFunction, db: Db, call: Call)
    requires !call.Create? && !call.Compute? && ItemResult(H, db, call).Ok?
    ensures call.id in db.items && Evolves(db.items[call.id], ItemResult(H, db, call).value)
  {
    hide CurrentHash, LegalTransitions;
  }

  lemma CallEvolves(H: HashFunction, db: Db, call: Call, id: string)
    requires Enabled(db, call) && id in db.items
    ensures id in Apply(H, db, call).items && Evolves(db.items[id], Apply(H, db, call).items[id])
  {
    if !call.Create? && !call.Compute? && ItemResult(H, db, call).Ok? {
      ResultEvolves(H, db, call);
    }
    hide ItemResult;
  }

  /** Over any stretch of a run, items keep their preparer, and their histories only grow. */
  lemma {:induction false} RunEvolves(H: HashFunction, states: seq<Db>, calls: seq<Call>, i: nat, j: nat, id: string)
    requires Run(H, states, calls) && i <= j < |states| && id in states[i].items
    ensures id in states[j].items && Evolves(states[i].items[id], states[j].items[id])
  {
    hide Apply, Enabled;
    if i < j {
      RunEvolves(H, states, calls, i, j - 1, id);
      CallEvolves(H, states[j - 1], calls[j - 1], id);
    }
  }

  lemma CallGrants(H: HashFunction, db: Db, call: Call, id: string)
    requires Enabled(db, call) && id in Apply(H, db, call).items
    ensures var after := Apply(H, db, call).items[id].approvals;
            var before := if id in db.items then db.items[id].approvals else [];
            |after| == |before| || (call.Grant? && call.id == id && |after| == |before| + 1 && id in db.items)
  {
    hide CurrentHash;
  }

  lemma GrantFacts(H: HashFunction, db: Db, call: Call)
    requires call.Grant? && call.id in db.items && ItemResult(H, db, call).Ok?
    ensures var before, after := db.items[call.id], ItemResult(H, db, call).value;
            && after.approvals == before.approvals + [Approval(call.actor, call.hash, db.clock, false)]
            && before.state == AWAITING_REVIEW && before.preparedBy != call.actor
            && CurrentHash(H, db.computations, before) == Some(call.hash)
  {
    hide CurrentHash;
  }

  /** Every approval ever granted was granted at some step of the run, by an approver other than the
      item's preparer, with a hash equal to the item's content hash at that moment. */
  lemma {:induction false} EveryApprovalWasGranted(H: HashFunction, states: seq<Db>, calls: seq<Call>, i: nat, id: string, k: nat)
    returns (j: nat)
    requires Run(H, states, calls) && i < |states| && id in states[i].items && k < |states[i].items[id].approvals|
    ensures j < i && GrantedAt(H, states, calls, j, id, k, states[i].items[id].approvals[k])
    decreases i
  {
    hide CurrentHash;
    var db, call := states[i - 1], calls[i - 1];
    var a := states[i].items[id].approvals[k];
    CallGrants(H, db, call, id);
    if id in db.items && k < |db.items[id].approvals| {
      j := EveryApprovalWasGranted(H, states, calls, i - 1, id, k);
      CallEvolves(H, db, call, id);
    } else {
      j := i - 1;
      GrantFacts(H, db, call);
    }
  }

  // ---------------------------------------------------------------- moves over a run

  /** One call moves an item at most along the map of transitions, or approves it from review, or reopens an
      approved one by revalidation. */
  lemma CallMoves(H: HashFunction, db: Db, call: Call, id: string)
    requires Enabled(db, call) && id in db.items
    ensures id in Apply(H, db, call).items
    ensures var from, to := db.items[id].state, Apply(H, db, call).items[id].state;
            || from == to
            || (call.MoveTo? && call.id == id && call.to == to && to in LegalTransitions(from))
            || (call.Grant? && call.id == id && from == AWAITING_REVIEW && to == APPROVED)
            || (call.Recheck? && call.id == id && from == APPROVED && to == DRAFT)
  {
    hide CurrentHash, LiveApproval, LegalTransitions;
  }

  /** The frozen hash changes only where an item is submitted, to the hash of its content at that moment, or
      loses an approval, and is then gone. */
  lemma CallFreezes(H: HashFunction, db: Db, call: Call, id: string)
    requires Enabled(db, call) && id in db.items
    ensures id in Apply(H, db, call).items
    ensures var before, after := db.items[id], Apply(H, db, call).items[id];
            || after.contentHash == before.contentHash
            || (call.MoveTo? && call.id == id && after.state == AWAITING_REVIEW
                && after.contentHash == CurrentHash(H, db.computations, before))
            || (call.Recheck? && call.id == id && before.state == APPROVED && after.state == DRAFT && after.contentHash == None)
  {
    hide CurrentHash, LiveApproval, LegalTransitions;
  }

  // ---------------------------------------------------------------- who did what

  /** The event says who acted, and the states before and after; an approval names the actor as approver of the
      hash supplied. */
  ghost predicate Attributes(event: ItemEvent, call: Call, before: State, after: State)
    requires !call.Compute?
  {
    && event.actor == call.actor
    && match event
       case Created(_, to) => to == after
       case Transitioned(_, from, to) => call.MoveTo? && from == before && to == after
       case Granted(_, from, to, approver, hash) =>
         call.Grant? && from == before && to == after && approver == call.actor && hash == call.hash
       case Attached(_, _, current) => call.Attach? && current == call.computationId && before == after
       case ApprovalVoided(_, from, to) => call.Recheck? && from == before && to == after
  }

  /** Every change to an item is one event more, in the name of the user whose call made it; and a change of state
      is one transition more, in the same name. */
  lemma ChangeIsAttributed(H: HashFunction, db: Db, call: Call, id: string)
    requires Enabled(db, call) && id in db.items && id in Apply(H, db, call).items
    requires Apply(H, db, call).items[id] != db.items[id]
    ensures !call.Create? && !call.Compute? && call.id == id
    ensures var before, after := db.items[id], Apply(H, db, call).items[id];
            && |after.events| == |before.events| + 1 && before.events <= after.events
            && Attributes(after.events[|before.events|], call, before.state, after.state)
            && (after.state != before.state ==>
                  after.transitions == before.transitions + [Transition(before.state, after.state, call.actor)])
  {
    hide CurrentHash, LiveApproval, LegalTransitions;
  }

  /** A created item is a draft of the user who created it, prepared by the person named or else by that user. */
  lemma CreationIsAttributed(H: HashFunction, db: Db, call: Call)
    requires call.Create? && Enabled(db, call) && call.id in Apply(H, db, call).items
    ensures var item := Apply(H, db, call).items[call.id];
            && item.createdBy == call.actor && |item.events| == 1 && Attributes(item.events[0], call, DRAFT, DRAFT)
            && (call.preparedBy.Some? && call.preparedBy.value != "" ==> item.preparedBy == call.preparedBy.value)
            && (call.preparedBy.None? ==> item.preparedBy == call.actor)
            && item.computationId == call.linked && item.contentHash == None && item.approvals == []
  {
  }

  /** At step j a call for the item made its k-th event. */
  ghost predicate MadeAt(states: seq<Db>, calls: seq<Call>, j: nat, id: string, k: nat, event: ItemEvent)
    requires |states| == |calls| + 1
  {
    && j < |calls| && !calls[j].Compute? && calls[j].id == id && id in states[j + 1].items
    && (if id in states[j].items then |states[j].items[id].events| == k else k == 0)
    && Attributes(event, calls[j], if id in states[j].items then states[j].items[id].state else DRAFT, states[j + 1].items[id].state)
  }

  /** The audit events of an item are a complete record: each was made by a call for the item, in the name of the
      user who made it and with the states that call found and left. */
  lemma {:induction false} EveryEventHasItsCall(H: HashFunction, states: seq<Db>, calls: seq<Call>, i: nat, id: string, k: nat)
    returns (j: nat)
    requires Run(H, states, calls) && i < |states| && id in states[i].items && k < |states[i].items[id].events|
    ensures j < i && MadeAt(states, calls, j, id, k, states[i].items[id].events[k])
    decreases i
  {
    hide Apply, Enabled, Attributes;
    var db, call := states[i - 1], calls[i - 1];
    if id !in db.items {
      j := i - 1;
      CallAddsItem(H, db, call, id);
      CreationIsAttributed(H, db, call);
    } else if k < |db.items[id].events| {
      j := EveryEventHasItsCall(H, states, calls, i - 1, id, k);
      CallEvolves(H, db, call, id);
    } else {
      j := i - 1;
      ChangeIsAttributed(H, db, call, id);
    }
  }

  lemma CallAddsItem(H: HashFunction, db: Db, call: Call, id: string)
    requires Enabled(db, call) && id !in db.items && id in Apply(H, db, call).items
    ensures call.Create? && call.id == id && Apply(H, db, call).items[id].state == DRAFT
  {
  }

  /** A cancelled item is cancelled for good, whatever calls follow. */
  lemma {:induction false} CancelledForGood(H: HashFunction, states: seq<Db>, calls: seq<Call>, i: nat, j: nat, id: string)
    requires Run(H, states, calls) && i <= j < |states| && id in states[i].items && states[i].items[id].state == CANCELLED
    ensures id in states[j].items && states[j].items[id].state == CANCELLED
  {
    hide Apply, Enabled;
    if i < j {
      CancelledForGood(H, states, calls, i, j - 1, id);
      CallMoves(H, states[j - 1], calls[j - 1], id);
    }
  }

  // ---------------------------------------------------------------- what a review is a review of

  lemma CallSubmits(H: HashFunction, db: Db, call: Call, id: string)
    requires Enabled(db, call) && id in Apply(H, db, call).items
    requires Apply(H, db, call).items[id].state == AWAITING_REVIEW
    ensures id in db.items
    ensures var before, after := db.items[id], Apply(H, db, call).items[id];
            if before.state == AWAITING_REVIEW then after.contentHash == before.contentHash
            else call.MoveTo? && call.id == id && call.to == AWAITING_REVIEW && after.contentHash.Some?
                 && after.contentHash == CurrentHash(H, db.computations, before)
  {
    hide CurrentHash, LiveApproval;
  }

  /** Step j submits the item, which then stays in review up to state i: it is the last submission. */
  ghost predicate LastSubmission(states: seq<Db>, calls: seq<Call>, j: nat, i: nat, id: string)
    requires |states| == |calls| + 1 && i < |states|
  {
    && j < i && calls[j].MoveTo? && calls[j].id == id && calls[j].to == AWAITING_REVIEW
    && id in states[j].items && states[j].items[id].state != AWAITING_REVIEW
    && forall m | j < m <= i :: id in states[m].items && states[m].items[id].state == AWAITING_REVIEW
  }

  /** In every reachable state, an item in review carries the hash its content had when it was last
      submitted, whatever was attached since. */
  lemma {:induction false} ReviewedAsSubmitted(H: HashFunction, states: seq<Db>, calls: seq<Call>, i: nat, id: string)
    returns (j: nat)
    requires Run(H, states, calls) && i < |states| && id in states[i].items
    requires states[i].items[id].state == AWAITING_REVIEW
    ensures LastSubmission(states, calls, j, i, id)
    ensures states[i].items[id].contentHash.Some?
    ensures states[i].items[id].contentHash == CurrentHash(H, states[j].computations, states[j].items[id])
    decreases i
  {
    hide CurrentHash, Apply;
    CallSubmits(H, states[i - 1], calls[i - 1], id);
    if states[i - 1].items[id].state == AWAITING_REVIEW {
      j := ReviewedAsSubmitted(H, states, calls, i - 1, id);
    } else {
      j := i - 1;
    }
  }

  /** So approving what the item shows goes through exactly when another than its preparer asks, and the
      content is still what it was at the last submission. */
  lemma ApprovesWhatWasSubmitted(H: HashFunction, states: seq<Db>, calls: seq<Call>, i: nat, id: string, actor: string)
    returns (j: nat)
    requires Run(H, states, calls) && i < |states| && id in states[i].items
    requires states[i].items[id].state == AWAITING_REVIEW
    ensures LastSubmission(states, calls, j, i, id)
    ensures states[i].items[id].contentHash.Some?
    ensures ApproveItem(H, states[i].computations, states[i].items[id], states[i].items[id].contentHash.value, actor,
                        states[i].clock).Ok?
       <==> && actor != states[i].items[id].preparedBy
            && CurrentHash(H, states[i].computations, states[i].items[id])
               == CurrentHash(H, states[j].computations, states[j].items[id])
  {
    hide CurrentHash;
    j := ReviewedAsSubmitted(H, states, calls, i, id);
  }

  // ---------------------------------------------------------------- revalidation

  /** After revalidation an item is not approved, or its live approval's hash is the current one. */
  lemma RevalidatedIsCurrent(H: HashFunction, cs: Computations, item: WorkItem, actor: string, clock: nat)
    requires ItemInv(item, clock) && RevalidateItem(H, cs, item, actor).Ok?
    ensures var after := RevalidateItem(H, cs, item, actor).value;
            after.state == APPROVED ==>
              && LiveApproval(after.approvals).Some?
              && Some(after.approvals[LiveApproval(after.approvals).value].contentHash) == CurrentHash(H, cs, after)
  {
    hide ItemInv, CurrentHash, LiveApproval;
    if item.state == APPROVED {
      LiveIsLast(item, clock);
    }
  }

  /** Within a run, a revalidation changes an item exactly if it is approved and its last approval is not for the
      content it has now. */
  lemma RecheckChangesIff(H: HashFunction, states: seq<Db>, calls: seq<Call>, i: nat, id: string)
    requires Run(H, states, calls) && i < |calls| && calls[i].Recheck? && calls[i].id == id && id in states[i].items
    ensures var item := states[i].items[id];
            && id in states[i + 1].items && (item.state == APPROVED ==> item.approvals != [])
            && (states[i + 1].items[id] != item
                <==> && item.state == APPROVED
                     && Some(item.approvals[|item.approvals| - 1].contentHash) != CurrentHash(H, states[i].computations, item))
  {
    hide CurrentHash, LiveApproval, ItemInv, RevalidateItem;
    RunKeepsInv(H, states, calls, i);
    var db, item := states[i], states[i].items[id];
    RevalidateSucceeds(H, db, id, calls[i].actor);
    assert Enabled(db, calls[i]) && states[i + 1] == Apply(H, db, calls[i]);
    if item.state == APPROVED {
      ApprovedHasApproval(item, db.clock);
      assert CurrentHash(H, db.computations, item).Some? by {
        StoredHasHash(H, db, id);
      }
      RevalidationDecides(H, db.computations, item, calls[i].actor, db.clock);
    } else {
      UnapprovedIsKept(H, db.computations, item, calls[i].actor);
    }
  }

  lemma StoredHasHash(H: HashFunction, db: Db, id: string)
    requires DbInv(db) && id in db.items
    ensures CurrentHash(H, db.computations, db.items[id]).Some?
  {
    hide ItemInv;
  }

  lemma UnapprovedIsKept(H: HashFunction, cs: Computations, item: WorkItem, actor: string)
    requires item.state != APPROVED
    ensures RevalidateItem(H, cs, item, actor) == Ok(item)
  {
  }

  /** Revalidating twice is revalidating once. */
  lemma RevalidateIdempotent(H: HashFunction, cs: Computations, item: WorkItem, actor: string, again: string)
    requires RevalidateItem(H, cs, item, actor).Ok?
    ensures RevalidateItem(H, cs, RevalidateItem(H, cs, item, actor).value, again) == RevalidateItem(H, cs, item, actor)
  {
    hide CurrentHash, LiveApproval;
  }

  /** Revalidation of a stored item never fails: its computation exists. */
  lemma RevalidateSucceeds(H: HashFunction, db: Db, id: string, actor: string)
    requires DbInv(db) && id in db.items
    ensures RevalidateItem(H, db.computations, db.items[id], actor).Ok?
  {
    hide ItemInv, LiveApproval;
  }

  lemma PayloadKeysUnique(c: Computation)
    ensures UniqueKeys(ContentPayload(c).fields)
  {
    var f := ContentPayload(c).fields;
    assert |f[0].key| == 14 && |f[1].key| == 6 && |f[2].key| == 11 && |f[3].key| == 11 && |f[4].key| == 8 && |f[5].key| == 14;
    assert f[0].key[0] == 'c' && f[5].key[0] == 'e' && f[2].key[0] == 'r' && f[3].key[0] == 'i';
  }

  lemma PayloadIsDictionary(c: Computation)
    requires Dictionary(c.result)
    ensures Dictionary(ContentPayload(c))
  {
    hide UniqueKeys;
    PayloadKeysUnique(c);
    forall f | f in ContentPayload(c).fields
      ensures Dictionary(f.value)
    {
    }
  }

  lemma TextsDiffer(c: Computation, id: string)
    ensures Canonical(ContentPayload(c)) != "work_item:" + id
  {
    hide PrintFields, NormalFields, SortBy;
    var fields := NormalFields(ContentPayload(c).fields);
    NormalFieldsAt(ContentPayload(c).fields);
    SortByFacts(fields, KeyOf);
    var text := Canonical(ContentPayload(c));
    assert text[0] == '{';
    assert ("work_item:" + id)[0] == 'w';
  }

  /** The same computation: its figures, which may differ in key order, and all of its provenance. */
  ghost predicate SameComputation(a: Computation, b: Computation) {
    && a.id == b.id && SameUpToKeyOrder(a.result, b.result) && a.resultHash == b.resultHash
    && a.inputsHash == b.inputsHash && a.packRef == b.packRef && a.engineVersion == b.engineVersion
  }

  lemma SixValues(fs: seq<Field>, gs: seq<Field>)
    requires |fs| == |gs| == 6
    ensures ValuesSame(fs, gs)
       <==> && SameUpToKeyOrder(fs[0].value, gs[0].value) && SameUpToKeyOrder(fs[1].value, gs[1].value)
            && SameUpToKeyOrder(fs[2].value, gs[2].value) && SameUpToKeyOrder(fs[3].value, gs[3].value)
            && SameUpToKeyOrder(fs[4].value, gs[4].value) && SameUpToKeyOrder(fs[5].value, gs[5].value)
  {
    hide SameUpToKeyOrder;
  }

  lemma PayloadsSame(a: Computation, b: Computation)
    ensures SameUpToKeyOrder(ContentPayload(a), ContentPayload(b)) <==> SameComputation(a, b)
  {
    hide UniqueKeys, SameUpToKeyOrder, ValuesSame;
    var fs, gs := ContentPayload(a).fields, ContentPayload(b).fields;
    PayloadKeysUnique(a);
    AlignedFieldsSame(fs, gs);
    SixValues(fs, gs);
    StringsSame(a.id, b.id);
    StringsSame(a.resultHash, b.resultHash);
    StringsSame(a.inputsHash, b.inputsHash);
    StringsSame(a.packRef, b.packRef);
    StringsSame(a.engineVersion, b.engineVersion);
  }

  /** What equal content hashes mean, for a hash that does not collide on the two texts: both items
      refer to computations with the same figures and provenance, or both are the same bare item. */
  lemma EqualHashesEqualContent(H: HashFunction, cs1: Computations, item1: WorkItem, cs2: Computations, item2: WorkItem)
    requires ContentText(cs1, item1).Some? && CurrentHash(H, cs1, item1) == CurrentHash(H, cs2, item2)
    requires CollisionFree(H, {ContentText(cs1, item1).value} + if ContentText(cs2, item2).Some? then {ContentText(cs2, item2).value} else {})
    requires forall c | c in cs1 :: Dictionary(cs1[c].result)
    requires forall c | c in cs2 :: Dictionary(cs2[c].result)
    ensures item1.computationId.None? <==> item2.computationId.None?
    ensures item1.computationId.None? ==> item1.id == item2.id
    ensures item1.computationId.Some? ==>
              && item1.computationId.value in cs1 && item2.computationId.value in cs2
              && SameComputation(cs1[item1.computationId.value], cs2[item2.computationId.value])
  {
    hide Canonical, ContentPayload, Dictionary, SameComputation;
    var t1, t2 := ContentText(cs1, item1), ContentText(cs2, item2);
    assert t2.Some? && H(t1.value) == H(t2.value) && t1 == t2;
    if item1.computationId.None? {
      if item2.computationId.Some? {
        TextsDiffer(cs2[item2.computationId.value], item1.id);
      } else {
        assert ("work_item:" + item1.id)[10..] == item1.id;
        assert ("work_item:" + item2.id)[10..] == item2.id;
      }
    } else {
      var c1 := cs1[item1.computationId.value];
      if item2.computationId.None? {
        TextsDiffer(c1, item2.id);
      } else {
        var c2 := cs2[item2.computationId.value];
        PayloadIsDictionary(c1);
        PayloadIsDictionary(c2);
        PrintAlike(ContentPayload(c1), ContentPayload(c2));
        PayloadsSame(c1, c2);
      }
    }
  }

  /** The heart of the gate, over whole runs: if an item is approved right after a revalidation, some
      earlier step granted its live approval for exactly the content hash the item has now. */
  lemma ApprovalAttestsCurrentContent(H: HashFunction, states: seq<Db>, calls: seq<Call>, i: nat, id: string) returns (j: nat)
    requires Run(H, states, calls) && i < |calls| && calls[i].Recheck? && calls[i].id == id
    requires id in states[i + 1].items && states[i + 1].items[id].state == APPROVED
    ensures j <= i && id in states[j].items && calls[j].Grant? && calls[j].id == id
    ensures calls[j].actor != states[i + 1].items[id].preparedBy
    ensures CurrentHash(H, states[j].computations, states[j].items[id])
         == CurrentHash(H, states[i + 1].computations, states[i + 1].items[id])
  {
    hide CurrentHash, LiveApproval, RevalidateItem, ItemInv;
    RunKeepsInv(H, states, calls, i);
    RunKeepsInv(H, states, calls, i + 1);
    var before, after := states[i].items[id], states[i + 1].items[id];
    RevalidateSucceeds(H, states[i], id, calls[i].actor);
    RevalidatedIsCurrent(H, states[i].computations, before, calls[i].actor, states[i].clock);
    var k := LiveApproval(after.approvals).value;
    j := EveryApprovalWasGranted(H, states, calls, i + 1, id, k);
    RunEvolves(H, states, calls, j, i + 1, id);
  }

  // ---------------------------------------------------------------- what is not an invariant

  /** Anyone can reopen an approved item by a plain transition, and its approval then stays live. */
  lemma ReopeningKeepsApprovalLive(H: HashFunction, cs: Computations, item: WorkItem, actor: string)
    requires item.state == APPROVED
    ensures var r := TransitionItem(H, cs, item, DRAFT, actor);
            r.Ok? && r.value.state == DRAFT && r.value.approvals == item.approvals
  {
  }

  /** The approval is live, and is not the one an approved item rests on. */
  ghost predicate Stray(item: WorkItem, k: nat) {
    && k < |item.approvals| && !item.approvals[k].voided
    && (item.state == APPROVED ==> k < |item.approvals| - 1)
  }

  lemma RevalidateKeepsStray(H: HashFunction, cs: Computations, item: WorkItem, actor: string, clock: nat, k: nat)
    requires ItemInv(item, clock) && RevalidateItem(H, cs, item, actor).Ok? && Stray(item, k)
    ensures Stray(RevalidateItem(H, cs, item, actor).value, k)
  {
    hide CurrentHash, LiveApproval, ItemInv;
    if item.state == APPROVED {
      LiveIsLast(item, clock);
    }
  }

  lemma ResultKeepsStray(H: HashFunction, db: Db, call: Call, k: nat)
    requires DbInv(db) && !call.Create? && !call.Compute? && ItemResult(H, db, call).Ok?
    requires Stray(db.items[call.id], k)
    ensures Stray(ItemResult(H, db, call).value, k)
  {
    hide CurrentHash, LiveApproval, ItemInv;
    if call.Recheck? {
      hide RevalidateItem, Stray;
      RevalidateKeepsStray(H, db.computations, db.items[call.id], call.actor, db.clock, k);
    }
  }

  lemma StrayStays(H: HashFunction, db: Db, call: Call, id: string, k: nat)
    requires DbInv(db) && Enabled(db, call) && id in db.items && Stray(db.items[id], k)
    ensures id in Apply(H, db, call).items && Stray(Apply(H, db, call).items[id], k)
  {
    hide ItemResult, Stray, ItemInv;
    if !call.Create? && !call.Compute? && call.id == id && ItemResult(H, db, call).Ok? {
      ResultKeepsStray(H, db, call, k);
    }
  }

  lemma {:induction false} StrayForGood(H: HashFunction, states: seq<Db>, calls: seq<Call>, i: nat, j: nat, id: string, k: nat)
    requires Run(H, states, calls) && i <= j < |states| && id in states[i].items && Stray(states[i].items[id], k)
    ensures id in states[j].items && Stray(states[j].items[id], k)
  {
    hide Apply, Enabled, Stray, DbInv;
    if i < j {
      StrayForGood(H, states, calls, i, j - 1, id, k);
      RunKeepsInv(H, states, calls, j - 1);
      StrayStays(H, states[j - 1], calls[j - 1], id, k);
    }
  }

  /** An approval left live by reopening is live for ever after: no later call of any kind voids it. */
  lemma ReopenedApprovalIsNeverVoided(H: HashFunction, states: seq<Db>, calls: seq<Call>, i: nat, j: nat, id: string, actor: string)
    requires Run(H, states, calls) && i < j < |states| && id in states[i].items
    requires states[i].items[id].state == APPROVED && calls[i] == MoveTo(id, DRAFT, actor)
    ensures id in states[j].items && 0 < |states[i].items[id].approvals| <= |states[j].items[id].approvals|
    ensures !states[j].items[id].approvals[|states[i].items[id].approvals| - 1].voided
  {
    hide CurrentHash, LiveApproval;
    RunKeepsInv(H, states, calls, i);
    ReopeningKeepsApprovalLive(H, states[i].computations, states[i].items[id], actor);
    StrayForGood(H, states, calls, i + 1, j, id, |states[i].items[id].approvals| - 1);
  }

  const PREPARER := "user:daniel"
  const REVIEWER := "user:priya"

  function Step(H: HashFunction, item: WorkItem, to: State): WorkItem {
    var r := TransitionItem(H, map[], item, to, PREPARER);
    if r.Ok? then r.value else item
  }

  function Approved(H: HashFunction, item: WorkItem, now: nat): WorkItem {
    var r := ApproveItem(H, map[], item, H("work_item:w"), REVIEWER, now);
    if r.Ok? then r.value else item
  }

  /** So one live approval per item is not an invariant: approve, reopen, resubmit and approve again
      leaves two. */
  lemma TwoLiveApprovals(H: HashFunction)
    ensures var item1 := Approved(H, Step(H, CreateItem("w", PREPARER, None, None), AWAITING_REVIEW), 1);
            var item2 := Approved(H, Step(H, Step(H, item1, DRAFT), AWAITING_REVIEW), 2);
            item2.state == APPROVED && |item2.approvals| == 2 && LiveCount(item2.approvals) == 2
  {
    assert PREPARER[5] != REVIEWER[5];
    assert "work_item:" + "w" == "work_item:w";
    var draft := CreateItem("w", PREPARER, None, None);
    var submitted := Step(H, draft, AWAITING_REVIEW);
    assert submitted.state == AWAITING_REVIEW && submitted.id == "w" && submitted.preparedBy == PREPARER;
    assert CurrentHash(H, map[], submitted) == Some(H("work_item:w"));
    var item1 := Approved(H, submitted, 1);
    assert item1.state == APPROVED && |item1.approvals| == 1 && !item1.approvals[0].voided;
    var resubmitted := Step(H, Step(H, item1, DRAFT), AWAITING_REVIEW);
    assert resubmitted.state == AWAITING_REVIEW && resubmitted.approvals == item1.approvals;
    assert CurrentHash(H, map[], resubmitted) == Some(H("work_item:w"));
    var item2 := Approved(H, resubmitted, 2);
    assert item2.approvals[..1] == item1.approvals;
    assert item1.approvals[..0] == [] && LiveCount(item1.approvals) == 1;
  }
}
