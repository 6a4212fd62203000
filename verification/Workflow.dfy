/** The approval gate, after workflow/states.py and workflow/service.py. Each service call is one atomic
    step on the tables; a work item is kept together with its own rows of the approval, transition and
    audit tables. */
module Workflow {
  import opened Wrappers
  import opened CanonicalJson
  import opened AuditChain

  datatype State = DRAFT | AWAITING_REVIEW | CHANGES_REQUESTED | APPROVED | CANCELLED

  /** Where a plain transition may lead; APPROVED is reached by an approval only. */
  function LegalTransitions(from: State): set<State> {
    match from
    case DRAFT => {AWAITING_REVIEW, CANCELLED}
    case AWAITING_REVIEW => {CHANGES_REQUESTED, DRAFT, CANCELLED}
    case CHANGES_REQUESTED => {AWAITING_REVIEW, CANCELLED}
    case APPROVED => {DRAFT}
    case CANCELLED => {}
  }

  datatype Computation = Computation(id: string, result: Json, resultHash: string, inputsHash: string,
                                     packRef: string, engineVersion: string)

  datatype Approval = Approval(approver: string, contentHash: string, grantedAt: nat, voided: bool)

  datatype Transition = Transition(from: State, to: State, actor: string)

  /** The item's audit events, with the states they record. */
  datatype ItemEvent =
    | Created(actor: string, after: State)
    | Transitioned(actor: string, before: State, after: State)
    | Granted(actor: string, before: State, after: State, approver: string, contentHash: string)
    | Attached(actor: string, previous: Option<string>, current: string)
    | ApprovalVoided(actor: string, before: State, after: State)

  datatype WorkItem = WorkItem(id: string, preparedBy: string, createdBy: string, state: State,
                               computationId: Option<string>, contentHash: Option<string>,
                               approvals: seq<Approval>, transitions: seq<Transition>, events: seq<ItemEvent>)

  type Computations = map<string, Computation>

  datatype WorkflowError =
    | NotFound
    | IllegalTransition(from: State, to: State)
    | NotReviewable(state: State)
    | SegregationOfDuties
    | StaleContent
    | UnknownComputation

  // ---------------------------------------------------------------- content

  /** What an approval of the computation binds to. */
  function ContentPayload(c: Computation): Json {
    Obj([Field("computation_id", Str(c.id)),
         Field("result", c.result),
         Field("result_hash", Str(c.resultHash)),
         Field("inputs_hash", Str(c.inputsHash)),
         Field("pack_ref", Str(c.packRef)),
         Field("engine_version", Str(c.engineVersion))])
  }

  /** The text whose hash is the item's content hash; none if the computation is missing. */
  function ContentText(computations: Computations, item: WorkItem): Option<string> {
    if item.computationId.None? then Some("work_item:" + item.id)
    else if item.computationId.value in computations then
      Some(Canonical(ContentPayload(computations[item.computationId.value])))
    else None
  }

  function CurrentHash(H: HashFunction, computations: Computations, item: WorkItem): Option<string> {
    var text := ContentText(computations, item);
    if text.Some? then Some(H(text.value)) else None
  }

  /** The row the query for the live approval returns: the latest granted one that is not voided. */
  function LiveApproval(approvals: seq<Approval>): (r: Option<nat>)
    ensures r.Some? ==> r.value < |approvals| && !approvals[r.value].voided
    ensures r.Some? ==> forall k | 0 <= k < |approvals| && !approvals[k].voided ::
              approvals[k].grantedAt <= approvals[r.value].grantedAt
    ensures r.None? ==> forall k | 0 <= k < |approvals| :: approvals[k].voided
  {
    if approvals == [] then None
    else
      var n := |approvals| - 1;
      var earlier := LiveApproval(approvals[..n]);
      if !approvals[n].voided && (earlier.None? || approvals[earlier.value].grantedAt <= approvals[n].grantedAt)
      then Some(n) else earlier
  }

  // ---------------------------------------------------------------- what each call does to an item

  function CreateItem(id: string, actor: string, computationId: Option<string>, preparedBy: Option<string>): WorkItem {
    WorkItem(id, if preparedBy.Some? && preparedBy.value != "" then preparedBy.value else actor, actor, DRAFT,
             computationId, None, [], [], [Created(actor, DRAFT)])
  }

  function TransitionItem(H: HashFunction, cs: Computations, item: WorkItem, to: State, actor: string)
    : Result<WorkItem, WorkflowError>
  {
    if to !in LegalTransitions(item.state) then Err(IllegalTransition(item.state, to))
    else if to == AWAITING_REVIEW && CurrentHash(H, cs, item).None? then Err(UnknownComputation)
    else
      Ok(item.(state := to,
               contentHash := if to == AWAITING_REVIEW then CurrentHash(H, cs, item) else item.contentHash,
               transitions := item.transitions + [Transition(item.state, to, actor)],
               events := item.events + [Transitioned(actor, item.state, to)]))
  }

  function ApproveItem(H: HashFunction, cs: Computations, item: WorkItem, hash: string, actor: string, now: nat)
    : Result<WorkItem, WorkflowError>
  {
    if item.state != AWAITING_REVIEW then Err(NotReviewable(item.state))
    else if item.preparedBy == actor then Err(SegregationOfDuties)
    else if CurrentHash(H, cs, item).None? then Err(UnknownComputation)
    else if CurrentHash(H, cs, item) != Some(hash) then Err(StaleContent)
    else
      Ok(item.(state := APPROVED,
               approvals := item.approvals + [Approval(actor, hash, now, false)],
               transitions := item.transitions + [Transition(AWAITING_REVIEW, APPROVED, actor)],
               events := item.events + [Granted(actor, AWAITING_REVIEW, APPROVED, actor, hash)]))
  }

  function AttachToItem(cs: Computations, item: WorkItem, computationId: string, actor: string)
    : Result<WorkItem, WorkflowError>
  {
    if computationId !in cs then Err(UnknownComputation)
    else
      Ok(item.(computationId := Some(computationId),
               events := item.events + [Attached(actor, item.computationId, computationId)]))
  }

  function VoidAt(approvals: seq<Approval>, k: nat): seq<Approval>
    requires k < |approvals|
  {
    approvals[k := approvals[k].(voided := true)]
  }

  function RevalidateItem(H: HashFunction, cs: Computations, item: WorkItem, actor: string)
    : Result<WorkItem, WorkflowError>
  {
    if item.state != APPROVED then Ok(item)
    else
      var current, live := CurrentHash(H, cs, item), LiveApproval(item.approvals);
      if current.None? then Err(UnknownComputation)
      else if live.None? || item.approvals[live.value].contentHash == current.value then Ok(item)
      else
        Ok(item.(state := DRAFT, contentHash := None,
                 approvals := VoidAt(item.approvals, live.value),
                 transitions := item.transitions + [Transition(APPROVED, DRAFT, actor)],
                 events := item.events + [ApprovalVoided(actor, APPROVED, DRAFT)]))
  }

  // ---------------------------------------------------------------- the service

  /** The tables the service works on, and the clock that stamps approvals. */
  class WorkflowService {
    var items: map<string, WorkItem>
    var computations: Computations
    var clock: nat

    constructor ()
      ensures items == map[] && computations == map[] && clock == 0
    {
      items, computations, clock := map[], map[], 0;
    }

    /** Inserts a draft item; a reference to a missing computation is refused. */
    method CreateWorkItem(id: string, actor: string, computationId: Option<string>, preparedBy: Option<string>)
      returns (error: Option<WorkflowError>)
      requires id !in items
      modifies this`items
      ensures error == if computationId.None? || computationId.value in computations then None else Some(UnknownComputation)
      ensures items == if error.None? then old(items)[id := CreateItem(id, actor, computationId, preparedBy)]
                       else old(items)
    {
      if computationId.Some? && computationId.value !in computations {
        return Some(UnknownComputation);
      }
      var preparer := actor;
      if preparedBy.Some? && preparedBy.value != "" {
        preparer := preparedBy.value;
      }
      items := items[id := WorkItem(id, preparer, actor, DRAFT, computationId, None, [], [], [Created(actor, DRAFT)])];
      return None;
    }

    method TransitionTo(H: HashFunction, id: string, to: State, actor: string) returns (error: Option<WorkflowError>)
      modifies this`items
      ensures id !in old(items) ==> error == Some(NotFound) && items == old(items)
      ensures id in old(items) ==>
                match TransitionItem(H, computations, old(items)[id], to, actor)
                case Err(e) => error == Some(e) && items == old(items)
                case Ok(item) => error == None && items == old(items)[id := item]
    {
      if id !in items {
        return Some(NotFound);
      }
      var item := items[id];
      if to !in LegalTransitions(item.state) {
        return Some(IllegalTransition(item.state, to));
      }
      var from := item.state;
      if to == AWAITING_REVIEW {
        var current := CurrentHash(H, computations, item);
        if current.None? {
          return Some(UnknownComputation);
        }
        item := item.(contentHash := current);
      }
      item := item.(state := to);
      item := item.(transitions := item.transitions + [Transition(from, to, actor)]);
      item := item.(events := item.events + [Transitioned(actor, from, to)]);
      items := items[id := item];
      return None;
    }

    method Approve(H: HashFunction, id: string, hash: string, actor: string) returns (error: Option<WorkflowError>)
      modifies this
      ensures computations == old(computations) && clock == old(clock) + 1
      ensures id !in old(items) ==> error == Some(NotFound) && items == old(items)
      ensures id in old(items) ==>
                match ApproveItem(H, computations, old(items)[id], hash, actor, old(clock))
                case Err(e) => error == Some(e) && items == old(items)
                case Ok(item) => error == None && items == old(items)[id := item]
    {
      var now := clock;
      clock := clock + 1;
      if id !in items {
        return Some(NotFound);
      }
      var item := items[id];
      if item.state != AWAITING_REVIEW {
        return Some(NotReviewable(item.state));
      }
      if item.preparedBy == actor {
        return Some(SegregationOfDuties);
      }
      var current := CurrentHash(H, computations, item);
      if current.None? {
        return Some(UnknownComputation);
      }
      if hash != current.value {
        return Some(StaleContent);
      }
      item := item.(approvals := item.approvals + [Approval(actor, current.value, now, false)]);
      var from := item.state;
      item := item.(state := APPROVED);
      item := item.(transitions := item.transitions + [Transition(from, APPROVED, actor)]);
      item := item.(events := item.events + [Granted(actor, from, APPROVED, actor, current.value)]);
      items := items[id := item];
      return None;
    }

    method AttachComputation(id: string, computationId: string, actor: string) returns (error: Option<WorkflowError>)
      modifies this`items
      ensures id !in old(items) ==> error == Some(NotFound) && items == old(items)
      ensures id in old(items) ==>
                match AttachToItem(computations, old(items)[id], computationId, actor)
                case Err(e) => error == Some(e) && items == old(items)
                case Ok(item) => error == None && items == old(items)[id := item]
    {
      if id !in items {
        return Some(NotFound);
      }
      if computationId !in computations {
        return Some(UnknownComputation);
      }
      var item := items[id];
      var previous := item.computationId;
      item := item.(computationId := Some(computationId));
      item := item.(events := item.events + [Attached(actor, previous, computationId)]);
      items := items[id := item];
      return None;
    }

    method Revalidate(H: HashFunction, id: string, actor: string) returns (error: Option<WorkflowError>)
      modifies this`items
      ensures id !in old(items) ==> error == Some(NotFound) && items == old(items)
      ensures id in old(items) ==>
                match RevalidateItem(H, computations, old(items)[id], actor)
                case Err(e) => error == Some(e) && items == old(items)
                case Ok(item) => error == None && items == old(items)[id := item]
    {
      if id !in items {
        return Some(NotFound);
      }
      var item := items[id];
      if item.state != APPROVED {
        assert items == items[id := item];
        return None;
      }
      var current := CurrentHash(H, computations, item);
      if current.None? {
        return Some(UnknownComputation);
      }
      var live := LiveApproval(item.approvals);
      if live.None? || item.approvals[live.value].contentHash == current.value {
        assert items == items[id := item];
        return None;
      }
      item := item.(approvals := VoidAt(item.approvals, live.value));
      item := item.(state := DRAFT, contentHash := None);
      item := item.(transitions := item.transitions + [Transition(APPROVED, DRAFT, actor)]);
      item := item.(events := item.events + [ApprovalVoided(actor, APPROVED, DRAFT)]);
      items := items[id := item];
      return None;
    }

    /** Why the button is disabled, if it is. */
    method CanApprove(id: string, actor: string) returns (refusal: Option<WorkflowError>)
      ensures refusal == Refusal(if id in items then Some(items[id]) else None, actor)
    {
      if id !in items {
        return Some(NotFound);
      }
      if items[id].state != AWAITING_REVIEW {
        return Some(NotReviewable(items[id].state));
      }
      if items[id].preparedBy == actor {
        return Some(SegregationOfDuties);
      }
      return None;
    }
  }

  /** What can_approve reports; None means it allows the approval. */
  function Refusal(item: Option<WorkItem>, actor: string): Option<WorkflowError> {
    if item.None? then Some(NotFound)
    else if item.value.state != AWAITING_REVIEW then Some(NotReviewable(item.value.state))
    else if item.value.preparedBy == actor then Some(SegregationOfDuties)
    else None
  }

  /** An approval goes through exactly when can_approve allows it and the supplied hash is current; otherwise
      it fails as can_approve says, or on the content. */
  lemma ApproveIffAllowed(H: HashFunction, cs: Computations, item: WorkItem, hash: string, actor: string, now: nat)
    ensures ApproveItem(H, cs, item, hash, actor, now).Ok?
       <==> Refusal(Some(item), actor) == None && CurrentHash(H, cs, item) == Some(hash)
    ensures Refusal(Some(item), actor).Some? ==>
              ApproveItem(H, cs, item, hash, actor, now) == Err(Refusal(Some(item), actor).value)
    ensures ApproveItem(H, cs, item, hash, actor, now) == Err(StaleContent)
       <==> Refusal(Some(item), actor) == None && CurrentHash(H, cs, item).Some? && CurrentHash(H, cs, item) != Some(hash)
  {
  }

  /** can_approve refuses exactly an item that is not in review, and the preparer of one that is. */
  lemma RefusalMeans(item: WorkItem, actor: string)
    ensures Refusal(Some(item), actor) == None <==> item.state == AWAITING_REVIEW && actor != item.preparedBy
    ensures Refusal(Some(item), actor) == Some(SegregationOfDuties) <==> item.state == AWAITING_REVIEW && actor == item.preparedBy
  {
  }

  // ---------------------------------------------------------------- the map of transitions

  /** The map, read by its targets: an item is submitted from DRAFT or after requested changes, changes are
      requested in review only, it returns to DRAFT from review or, reopened, from APPROVED, it is cancelled at
      any time before approval, nothing but an approval approves, and a cancelled item stays as it is. */
  lemma TransitionsByTarget(from: State)
    ensures AWAITING_REVIEW in LegalTransitions(from) <==> from == DRAFT || from == CHANGES_REQUESTED
    ensures CHANGES_REQUESTED in LegalTransitions(from) <==> from == AWAITING_REVIEW
    ensures DRAFT in LegalTransitions(from) <==> from == AWAITING_REVIEW || from == APPROVED
    ensures CANCELLED in LegalTransitions(from) <==> from !in {APPROVED, CANCELLED}
    ensures APPROVED !in LegalTransitions(from)
  {
  }

  // ---------------------------------------------------------------- the item's invariant

  predicate LegalEdge(from: State, to: State) {
    to in LegalTransitions(from) || (from == AWAITING_REVIEW && to == APPROVED)
  }

  /** The transitions form a connected path of legal edges from a state to a state. */
  ghost predicate Path(from: State, ts: seq<Transition>, to: State) {
    if ts == [] then from == to
    else
      var last := ts[|ts| - 1];
      last.to == to && LegalEdge(last.from, to) && Path(from, ts[..|ts| - 1], last.from)
  }

  /** The actors of the entries into APPROVED, in order. */
  function Approvers(ts: seq<Transition>): seq<string> {
    if ts == [] then []
    else
      var last := ts[|ts| - 1];
      Approvers(ts[..|ts| - 1]) + if last.to == APPROVED then [last.actor] else []
  }

  function ApproversOf(approvals: seq<Approval>): (r: seq<string>)
    ensures |r| == |approvals|
  {
    if approvals == [] then []
    else ApproversOf(approvals[..|approvals| - 1]) + [approvals[|approvals| - 1].approver]
  }

  /** The moves the audit events record. */
  function Moves(events: seq<ItemEvent>): seq<Transition> {
    if events == [] then []
    else
      var last := events[|events| - 1];
      Moves(events[..|events| - 1]) +
      match last
      case Created(_, _) => []
      case Transitioned(actor, before, after) => [Transition(before, after, actor)]
      case Granted(actor, before, after, _, _) => [Transition(before, after, actor)]
      case Attached(_, _, _) => []
      case ApprovalVoided(actor, before, after) => [Transition(before, after, actor)]
  }

  function LiveCount(approvals: seq<Approval>): nat {
    if approvals == [] then 0
    else LiveCount(approvals[..|approvals| - 1]) + if approvals[|approvals| - 1].voided then 0 else 1
  }

  /** How often the item left APPROVED by a plain transition, without a void. */
  function DirectExits(events: seq<ItemEvent>): nat {
    if events == [] then 0
    else
      var last := events[|events| - 1];
      DirectExits(events[..|events| - 1]) + if last.Transitioned? && last.before == APPROVED then 1 else 0
  }

  ghost predicate TimesAscending(approvals: seq<Approval>, clock: nat) {
    && (forall i, j | 0 <= i < j < |approvals| :: approvals[i].grantedAt < approvals[j].grantedAt)
    && (forall i | 0 <= i < |approvals| :: approvals[i].grantedAt < clock)
  }

  ghost predicate ItemInv(item: WorkItem, clock: nat) {
    && TimesAscending(item.approvals, clock)
    && (item.state == APPROVED ==> item.approvals != [] && !item.approvals[|item.approvals| - 1].voided)
    && (forall k | 0 <= k < |item.approvals| :: item.approvals[k].approver != item.preparedBy)
    && Path(DRAFT, item.transitions, item.state)
    && Approvers(item.transitions) == ApproversOf(item.approvals)
    && Moves(item.events) == item.transitions
    && LiveCount(item.approvals) == DirectExits(item.events) + (if item.state == APPROVED then 1 else 0)
  }

  lemma NewItemInv(id: string, actor: string, computationId: Option<string>, preparedBy: Option<string>, clock: nat)
    ensures ItemInv(CreateItem(id, actor, computationId, preparedBy), clock)
  {
    var item := CreateItem(id, actor, computationId, preparedBy);
    assert item.events[..0] == [];
    assert Moves(item.events) == [] + [];
  }

  lemma TransitionKeepsInv(H: HashFunction, cs: Computations, item: WorkItem, to: State, actor: string, clock: nat)
    requires ItemInv(item, clock) && TransitionItem(H, cs, item, to, actor).Ok?
    ensures ItemInv(TransitionItem(H, cs, item, to, actor).value, clock)
  {
    hide CurrentHash;
    var next := TransitionItem(H, cs, item, to, actor).value;
    assert next.transitions[..|next.transitions| - 1] == item.transitions;
    assert next.events[..|next.events| - 1] == item.events;
  }

  /** Appending an approval keeps the times ascending, and adds one approver and one live approval. */
  lemma AppendApproval(approvals: seq<Approval>, a: Approval, clock: nat)
    requires TimesAscending(approvals, clock) && a.grantedAt == clock && !a.voided
    ensures TimesAscending(approvals + [a], clock + 1)
    ensures ApproversOf(approvals + [a]) == ApproversOf(approvals) + [a.approver]
    ensures LiveCount(approvals + [a]) == LiveCount(approvals) + 1
  {
    assert (approvals + [a])[..|approvals|] == approvals;
  }

  lemma ApproveKeepsInv(H: HashFunction, cs: Computations, item: WorkItem, hash: string, actor: string, clock: nat)
    requires ItemInv(item, clock) && ApproveItem(H, cs, item, hash, actor, clock).Ok?
    ensures ItemInv(ApproveItem(H, cs, item, hash, actor, clock).value, clock + 1)
  {
    hide CurrentHash, TimesAscending, ApproversOf, LiveCount;
    var next := ApproveItem(H, cs, item, hash, actor, clock).value;
    AppendApproval(item.approvals, Approval(actor, hash, clock, false), clock);
    assert next.transitions[..|next.transitions| - 1] == item.transitions;
    assert next.events[..|next.events| - 1] == item.events;
  }

  lemma AttachKeepsInv(cs: Computations, item: WorkItem, computationId: string, actor: string, clock: nat)
    requires ItemInv(item, clock) && AttachToItem(cs, item, computationId, actor).Ok?
    ensures ItemInv(AttachToItem(cs, item, computationId, actor).value, clock)
  {
    var next := AttachToItem(cs, item, computationId, actor).value;
    assert next.events[..|next.events| - 1] == item.events;
  }

  /** In an approved item the most recently granted approval is the live one. */
  lemma LiveIsLast(item: WorkItem, clock: nat)
    requires ItemInv(item, clock) && item.state == APPROVED
    ensures LiveApproval(item.approvals) == Some(|item.approvals| - 1)
  {
    var n := |item.approvals| - 1;
    var earlier := LiveApproval(item.approvals[..n]);
    assert earlier.Some? ==> item.approvals[..n][earlier.value].grantedAt < item.approvals[n].grantedAt;
  }

  lemma VoidLastFacts(approvals: seq<Approval>)
    requires approvals != [] && !approvals[|approvals| - 1].voided
    ensures var after := VoidAt(approvals, |approvals| - 1);
            ApproversOf(after) == ApproversOf(approvals) && LiveCount(after) + 1 == LiveCount(approvals)
  {
    var n := |approvals| - 1;
    var after := VoidAt(approvals, n);
    assert after[..n] == approvals[..n];
  }

  lemma RevalidateKeepsInv(H: HashFunction, cs: Computations, item: WorkItem, actor: string, clock: nat)
    requires ItemInv(item, clock) && RevalidateItem(H, cs, item, actor).Ok?
    ensures ItemInv(RevalidateItem(H, cs, item, actor).value, clock)
  {
    hide CurrentHash, LiveApproval;
    var next := RevalidateItem(H, cs, item, actor).value;
    if next != item {
      LiveIsLast(item, clock);
      VoidLastFacts(item.approvals);
      assert next.transitions[..|next.transitions| - 1] == item.transitions;
      assert next.events[..|next.events| - 1] == item.events;
    }
  }

  /** What a revalidation of an approved item decides: the approval stands, and nothing changes, exactly if its
      hash is the hash of the content as it is now. Otherwise the item is a draft again without a frozen hash,
      and of its approvals exactly the last one is voided. */
  lemma RevalidationDecides(H: HashFunction, cs: Computations, item: WorkItem, actor: string, clock: nat)
    requires ItemInv(item, clock) && item.state == APPROVED && CurrentHash(H, cs, item).Some?
    ensures var n := |item.approvals| - 1;
            var stands := Some(item.approvals[n].contentHash) == CurrentHash(H, cs, item);
            var r := RevalidateItem(H, cs, item, actor);
            && (stands <==> r.Ok? && r.value.state == APPROVED)
            && (stands <==> r == Ok(item))
            && (!stands ==>
                  && r.Ok? && r.value.state == DRAFT && r.value.contentHash == None
                  && |r.value.approvals| == n + 1 && r.value.approvals[..n] == item.approvals[..n]
                  && r.value.approvals[n].voided && r.value.computationId == item.computationId)
  {
    hide CurrentHash, LiveApproval;
    LiveIsLast(item, clock);
  }

  /** Whether an approval survives a new computation: attaching one changes neither state nor approvals, and the
      revalidation that follows lets the approval stand exactly if it was given for the payload of the newly
      attached computation. */
  lemma AttachThenRevalidate(H: HashFunction, cs: Computations, item: WorkItem, computationId: string, actor: string,
                             system: string, clock: nat)
    requires ItemInv(item, clock) && item.state == APPROVED && computationId in cs
    ensures var attached := AttachToItem(cs, item, computationId, actor);
            && attached.Ok? && attached.value.state == APPROVED && attached.value.approvals == item.approvals
            && var r := RevalidateItem(H, cs, attached.value, system);
               && r.Ok?
               && (r.value.state == APPROVED
                   <==> item.approvals[|item.approvals| - 1].contentHash == H(Canonical(ContentPayload(cs[computationId]))))
  {
    hide LiveApproval, ContentPayload, ItemInv;
    var attached := AttachToItem(cs, item, computationId, actor).value;
    AttachKeepsInv(cs, item, computationId, actor, clock);
    assert item.approvals != [] by {
      ApprovedHasApproval(item, clock);
    }
    RevalidationDecides(H, cs, attached, system, clock);
  }

  lemma ApprovedHasApproval(item: WorkItem, clock: nat)
    requires ItemInv(item, clock) && item.state == APPROVED
    ensures item.approvals != []
  {
  }
}
