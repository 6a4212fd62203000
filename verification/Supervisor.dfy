/** Agent runs, after agents/supervisor.py: a fixed plan is executed step by step, may park for input and
    resume, and ends by handing a work item to a human. What a specialist returns is an arbitrary input. */
module Supervisor {
  import opened Wrappers
  import opened AuditChain
  import opened Workflow
  import opened WorkflowRuns

  datatype RunState = PLANNING | EXECUTING | WAITING_INPUT | HANDOFF | FAILED

  datatype PlanStep = PlanStep(agent: string, goal: string)

  datatype StepStatus = COMPLETED | ESCALATED | STEP_FAILED

  datatype StepRecord = StepRecord(sequence: nat, agent: string, goal: string, status: StepStatus)

  /** What running a specialist came to: a result envelope, or a refused tool grant. */
  datatype Outcome = Returned(status: StepStatus, reason: string) | GrantRefused(reason: string)

  datatype AgentRun = AgentRun(state: RunState, plan: seq<PlanStep>, requestedBy: string, budget: nat,
                               stepsUsed: nat, steps: seq<StepRecord>, escalation: Option<string>,
                               workItem: Option<string>)

  const REPORTING := "reporting"
  const SPECIALISTS := {"data", "vat", "ct", "fraud"}

  const VAT_PLAN := [PlanStep("data", "Confirm the data foundation for the period"),
                     PlanStep("vat", "Compute the VAT return and explain the result"),
                     PlanStep("fraud", "Review the transaction population for anomalies"),
                     PlanStep("reporting", "Assemble the review package and hand off to a human")]

  const CT_PLAN := [PlanStep("data", "Confirm the Corporation Tax adjustments are in place"),
                    PlanStep("ct", "Compute the Corporation Tax charge and explain the result"),
                    PlanStep("reporting", "Assemble the review package and hand off to a human")]

  datatype StartError = UnknownTaxType | UnregisteredAgents

  predicate Registered(plan: seq<PlanStep>) {
    forall i | 0 <= i < |plan| :: plan[i].agent in SPECIALISTS || plan[i].agent == REPORTING
  }

  function StartRun(taxType: string, actor: string): Result<AgentRun, StartError> {
    if taxType != "VAT" && taxType != "CT" then Err(UnknownTaxType)
    else
      var plan := if taxType == "VAT" then VAT_PLAN else CT_PLAN;
      if !Registered(plan) then Err(UnregisteredAgents)
      else Ok(AgentRun(PLANNING, plan, actor, |plan| + 2, 0, [], None, None))
  }

  // ---------------------------------------------------------------- executing

  /** The run after the specialist of its next plan entry returned this status. */
  function Recorded(run: AgentRun, status: StepStatus): AgentRun
    requires run.stepsUsed < |run.plan|
  {
    var spec := run.plan[run.stepsUsed];
    run.(stepsUsed := run.stepsUsed + 1,
         steps := run.steps + [StepRecord(run.stepsUsed + 1, spec.agent, spec.goal, status)])
  }

  /** The loop of execute: outcome(k) is what the specialist of plan entry k returns this time, itemId the
      id of the work item a handoff would create. */
  function Drive(run: AgentRun, outcome: nat -> Outcome, itemId: string): AgentRun
    decreases |run.plan| - run.stepsUsed
  {
    if run.stepsUsed >= |run.plan| then run
    else if run.stepsUsed >= run.budget then
      run.(state := FAILED, escalation := Some("Step budget exhausted before the plan completed"))
    else
      var spec := run.plan[run.stepsUsed];
      if spec.agent == REPORTING then
        run.(workItem := Some(itemId), state := HANDOFF, stepsUsed := run.stepsUsed + 1)
      else
        match outcome(run.stepsUsed)
        case GrantRefused(reason) => run.(state := FAILED, escalation := Some("Tool grant refused: " + reason))
        case Returned(status, reason) =>
          var next := Recorded(run, status);
          if status == ESCALATED then next.(state := WAITING_INPUT, escalation := Some(reason))
          else Drive(next, outcome, itemId)
  }

  function Execute(run: AgentRun, outcome: nat -> Outcome, itemId: string): AgentRun {
    Drive(run.(state := EXECUTING), outcome, itemId)
  }

  /** The item a handoff creates and submits, in the requester's name. */
  function HandedOver(H: HashFunction, cs: Computations, requester: string, itemId: string, linked: Option<string>,
                      actor: string): (item: WorkItem)
    requires linked.Some? ==> linked.value in cs
    ensures item.state == AWAITING_REVIEW && item.computationId == linked && item.contentHash == CurrentHash(H, cs, item)
    ensures requester != "" ==> item.preparedBy == requester
  {
    TransitionItem(H, cs, CreateItem(itemId, actor, linked, Some(requester)), AWAITING_REVIEW, actor).value
  }

  /** The supervisor at work on one run, next to the workflow service it hands over to. */
  class RunExecutor {
    var run: AgentRun
    const workflow: WorkflowService

    constructor (run: AgentRun, workflow: WorkflowService)
      ensures this.run == run && this.workflow == workflow
    {
      this.run, this.workflow := run, workflow;
    }

    /** Terminal success: a work item in review, prepared by the human who asked. */
    method Handoff(H: HashFunction, sequence: nat, itemId: string, computationId: Option<string>, actor: string)
      requires run.requestedBy != "" && itemId !in workflow.items
      requires computationId.Some? ==> computationId.value in workflow.computations
      modifies this, workflow`items
      ensures run == old(run).(workItem := Some(itemId), state := HANDOFF, stepsUsed := sequence + 1)
      ensures workflow.items == old(workflow.items)[itemId :=
                HandedOver(H, workflow.computations, run.requestedBy, itemId, computationId, actor)]
      ensures workflow.items.Keys == old(workflow.items).Keys + {itemId}
      ensures forall id | id in old(workflow.items) :: workflow.items[id] == old(workflow.items)[id]
      ensures workflow.items[itemId].preparedBy == run.requestedBy
      ensures workflow.items[itemId].state == AWAITING_REVIEW
      ensures workflow.items[itemId].computationId == computationId
      ensures workflow.items[itemId].contentHash == CurrentHash(H, workflow.computations, workflow.items[itemId])
    {
      var refused := workflow.CreateWorkItem(itemId, actor, computationId, Some(run.requestedBy));
      refused := workflow.TransitionTo(H, itemId, AWAITING_REVIEW, actor);
      run := run.(workItem := Some(itemId), state := HANDOFF, stepsUsed := sequence + 1);
    }

    /** Executes the plan from where the run stopped, recording each step before the next. */
    method ExecuteRun(H: HashFunction, outcome: nat -> Outcome, itemId: string, computationId: Option<string>, actor: string)
      requires run.requestedBy != "" && itemId !in workflow.items
      requires computationId.Some? ==> computationId.value in workflow.computations
      modifies this, workflow`items
      ensures run == Execute(old(run), outcome, itemId)
      ensures run.state != HANDOFF ==> workflow.items == old(workflow.items)
      ensures run.state == HANDOFF ==> workflow.items == old(workflow.items)[itemId :=
                HandedOver(H, workflow.computations, run.requestedBy, itemId, computationId, actor)]
      ensures run.state == HANDOFF ==>
                && workflow.items.Keys == old(workflow.items).Keys + {itemId}
                && (forall id | id in old(workflow.items) :: workflow.items[id] == old(workflow.items)[id])
                && workflow.items[itemId].preparedBy == run.requestedBy
                && workflow.items[itemId].state == AWAITING_REVIEW
    {
      run := run.(state := EXECUTING);
      var sequence := run.stepsUsed;
      while sequence < |run.plan|
        invariant run.stepsUsed == sequence && run.state == EXECUTING && run.requestedBy == old(run.requestedBy)
        invariant Drive(run, outcome, itemId) == Execute(old(run), outcome, itemId)
        invariant workflow.items == old(workflow.items)
        decreases |run.plan| - sequence
      {
        var spec := run.plan[sequence];
        if run.stepsUsed >= run.budget {
          run := run.(state := FAILED, escalation := Some("Step budget exhausted before the plan completed"));
          return;
        }
        if spec.agent == REPORTING {
          Handoff(H, sequence, itemId, computationId, actor);
          return;
        }
        match outcome(sequence) {
          case GrantRefused(reason) =>
            run := run.(state := FAILED, escalation := Some("Tool grant refused: " + reason));
            return;
          case Returned(status, reason) =>
            sequence := sequence + 1;
            run := run.(stepsUsed := sequence,
                        steps := run.steps + [StepRecord(sequence, spec.agent, spec.goal, status)]);
            if status == ESCALATED {
              run := run.(state := WAITING_INPUT, escalation := Some(reason));
              return;
            }
        }
      }
    }
  }

  // ---------------------------------------------------------------- the run's invariant

  /** A plan ends with its only reporting step. */
  ghost predicate PlanShape(plan: seq<PlanStep>) {
    && plan != [] && plan[|plan| - 1].agent == REPORTING
    && forall i | 0 <= i < |plan| - 1 :: plan[i].agent != REPORTING
  }

  /** The recorded steps are numbered from one and follow the plan. */
  ghost predicate FollowsPlan(run: AgentRun) {
    && |run.steps| <= |run.plan|
    && forall i | 0 <= i < |run.steps| ::
         && run.steps[i].sequence == i + 1
         && run.steps[i].agent == run.plan[i].agent && run.steps[i].goal == run.plan[i].goal
  }

  ghost predicate RunInv(run: AgentRun) {
    && PlanShape(run.plan) && FollowsPlan(run)
    && run.budget == |run.plan| + 2
    && run.stepsUsed <= run.budget
    && (run.state == HANDOFF <==> run.workItem.Some?)
    && if run.state == HANDOFF then run.stepsUsed == |run.plan| == |run.steps| + 1
       else run.stepsUsed == |run.steps| < |run.plan|
  }

  predicate Resumable(state: RunState) {
    state in {PLANNING, WAITING_INPUT, FAILED}
  }

  lemma StartedRun(taxType: string, actor: string)
    ensures StartRun(taxType, actor).Ok? <==> taxType == "VAT" || taxType == "CT"
    ensures StartRun(taxType, actor).Ok? ==>
              var run := StartRun(taxType, actor).value;
              RunInv(run) && run.state == PLANNING && run.requestedBy == actor
  {
    assert |"reporting"| == 9 && |"data"| == 4 && |"vat"| == 3 && |"ct"| == 2 && |"fraud"| == 5;
    assert Registered(VAT_PLAN) && Registered(CT_PLAN);
    assert PlanShape(VAT_PLAN) && PlanShape(CT_PLAN);
  }

  /** The specialists of the two plans: each tax type runs its own computation, and a human has the last step. */
  lemma StartedPlan(actor: string)
    ensures var vat := StartRun("VAT", actor);
            vat.Ok? && AgentsOf(vat.value.plan) == ["data", "vat", "fraud", "reporting"] && vat.value.budget == 6
    ensures var ct := StartRun("CT", actor);
            ct.Ok? && AgentsOf(ct.value.plan) == ["data", "ct", "reporting"] && ct.value.budget == 5
  {
    StartedRun("VAT", actor);
    StartedRun("CT", actor);
  }

  function AgentsOf(plan: seq<PlanStep>): seq<string> {
    seq(|plan|, i requires 0 <= i < |plan| => plan[i].agent)
  }

  lemma RecordedKeepsInv(run: AgentRun, status: StepStatus, reason: string)
    requires RunInv(run) && run.state == EXECUTING && run.plan[run.stepsUsed].agent != REPORTING
    ensures RunInv(Recorded(run, status))
    ensures RunInv(Recorded(run, status).(state := WAITING_INPUT, escalation := Some(reason)))
  {
  }

  /** While a run executes, a plan entry and budget are left, and it can stop at once: failed, or handed off
      at the reporting entry. */
  lemma ExecutingFacts(run: AgentRun)
    requires RunInv(run) && run.state == EXECUTING
    ensures |run.steps| == run.stepsUsed < |run.plan| && run.stepsUsed < run.budget
    ensures forall escalation :: RunInv(run.(state := FAILED, escalation := escalation))
    ensures run.plan[run.stepsUsed].agent == REPORTING ==>
              forall itemId :: RunInv(run.(workItem := Some(itemId), state := HANDOFF, stepsUsed := run.stepsUsed + 1))
  {
  }

  /** What stopped the run: the refused grant of the entry it is at, or the escalation of its last step. */
  ghost function StopReason(run: AgentRun, outcome: nat -> Outcome): string {
    if run.state == FAILED then "Tool grant refused: " + outcome(run.stepsUsed).reason
    else if run.steps != [] then outcome(|run.steps| - 1).reason
    else ""
  }

  /** One execution of a run that has not been handed off keeps the invariant and ends in HANDOFF,
      WAITING_INPUT or FAILED; it fails only by a refused tool grant, never by running out of budget. */
  lemma {:induction false} DriveKeepsInv(run: AgentRun, outcome: nat -> Outcome, itemId: string)
    requires RunInv(run) && run.state == EXECUTING
    ensures var after := Drive(run, outcome, itemId);
            && RunInv(after) && after.state in {HANDOFF, WAITING_INPUT, FAILED}
            && run.steps <= after.steps && after.plan == run.plan && after.requestedBy == run.requestedBy
            && (after.state == FAILED ==> outcome(after.stepsUsed).GrantRefused?)
            && (after.state == HANDOFF ==> after.workItem == Some(itemId))
            && (after.state == WAITING_INPUT ==> after.steps != [] && after.steps[|after.steps| - 1].status == ESCALATED)
            && (after.state in {FAILED, WAITING_INPUT} ==> after.escalation == Some(StopReason(after, outcome)))
    decreases |run.plan| - run.stepsUsed
  {
    hide RunInv;
    ExecutingFacts(run);
    if run.plan[run.stepsUsed].agent != REPORTING && outcome(run.stepsUsed).Returned? {
      var status := outcome(run.stepsUsed).status;
      RecordedKeepsInv(run, status, outcome(run.stepsUsed).reason);
      if status != ESCALATED {
        DriveKeepsInv(Recorded(run, status), outcome, itemId);
      }
    }
  }

  lemma ExecuteKeepsInv(run: AgentRun, outcome: nat -> Outcome, itemId: string)
    requires RunInv(run) && Resumable(run.state)
    ensures var after := Execute(run, outcome, itemId);
            && RunInv(after) && after.state in {HANDOFF, WAITING_INPUT, FAILED}
            && run.steps <= after.steps && after.plan == run.plan && after.requestedBy == run.requestedBy
            && (after.state == FAILED ==> outcome(after.stepsUsed).GrantRefused?)
            && (after.state in {FAILED, WAITING_INPUT} ==> after.escalation == Some(StopReason(after, outcome)))
  {
    DriveKeepsInv(run.(state := EXECUTING), outcome, itemId);
  }

  /** One attempt at the run: what its specialists return, and the id a handoff would use. */
  datatype Attempt = Attempt(outcome: nat -> Outcome, itemId: string)

  /** The run after a series of attempts; a run that was handed off is left alone. */
  ghost function Attempts(run: AgentRun, attempts: seq<Attempt>): AgentRun {
    if attempts == [] then run
    else
      var before := Attempts(run, attempts[..|attempts| - 1]);
      var last := attempts[|attempts| - 1];
      if Resumable(before.state) then Execute(before, last.outcome, last.itemId) else before
  }

  /** Over a run and any number of resumptions: the steps are numbered 1..k and follow the first k plan
      entries, the budget is never exceeded, and a work item exists exactly in HANDOFF. */
  lemma {:induction false} ResumptionsKeepInv(taxType: string, actor: string, attempts: seq<Attempt>)
    requires StartRun(taxType, actor).Ok?
    ensures var after := Attempts(StartRun(taxType, actor).value, attempts);
            && RunInv(after) && after.requestedBy == actor
            && after.state in {PLANNING, HANDOFF, WAITING_INPUT, FAILED}
            && (attempts != [] ==> after.state != PLANNING)
  {
    hide RunInv, StartRun, Execute;
    StartedRun(taxType, actor);
    if attempts != [] {
      ResumptionsKeepInv(taxType, actor, attempts[..|attempts| - 1]);
      var before := Attempts(StartRun(taxType, actor).value, attempts[..|attempts| - 1]);
      var last := attempts[|attempts| - 1];
      if Resumable(before.state) {
        ExecuteKeepsInv(before, last.outcome, last.itemId);
      }
    }
  }

  /** Executing leaves a run stuck in EXECUTING exactly when its plan was already used up, as it is after a
      handoff; nothing else changes then. */
  lemma {:induction false} StuckExactlyWhenUsedUp(run: AgentRun, outcome: nat -> Outcome, itemId: string)
    requires PlanShape(run.plan)
    ensures Execute(run, outcome, itemId).state == EXECUTING <==> run.stepsUsed >= |run.plan|
    ensures run.stepsUsed >= |run.plan| ==> Execute(run, outcome, itemId) == run.(state := EXECUTING)
  {
    if run.stepsUsed < |run.plan| {
      DriveSettles(run.(state := EXECUTING), outcome, itemId);
    }
  }

  /** Whatever a run has been through, executing it once more leaves it stuck exactly if it was handed off;
      then its work item stands beside a run that claims to execute. */
  lemma ExecutingAfterHandoffSticks(taxType: string, actor: string, attempts: seq<Attempt>, outcome: nat -> Outcome, itemId: string)
    requires StartRun(taxType, actor).Ok?
    ensures var run := Attempts(StartRun(taxType, actor).value, attempts);
            && (Execute(run, outcome, itemId).state == EXECUTING <==> run.state == HANDOFF)
            && (run.state == HANDOFF ==> run.workItem.Some? && Execute(run, outcome, itemId) == run.(state := EXECUTING))
  {
    hide StartRun, Execute, Attempts;
    ResumptionsKeepInv(taxType, actor, attempts);
    StuckExactlyWhenUsedUp(Attempts(StartRun(taxType, actor).value, attempts), outcome, itemId);
  }

  lemma {:induction false} DriveSettles(run: AgentRun, outcome: nat -> Outcome, itemId: string)
    requires PlanShape(run.plan) && run.stepsUsed < |run.plan|
    ensures Drive(run, outcome, itemId).state in {HANDOFF, WAITING_INPUT, FAILED}
    decreases |run.plan| - run.stepsUsed
  {
    var k := run.stepsUsed;
    if k < run.budget && run.plan[k].agent != REPORTING && outcome(k).Returned? && outcome(k).status != ESCALATED {
      DriveSettles(Recorded(run, outcome(k).status), outcome, itemId);
    }
  }

  /** Resuming never repeats a step: an escalated step keeps its record, whatever is attempted later. */
  lemma {:induction false} EscalatedStepIsNotRepeated(run: AgentRun, attempts: seq<Attempt>, k: nat)
    requires RunInv(run) && run.state != EXECUTING && k < |run.steps| && run.steps[k].status == ESCALATED
    ensures var after := Attempts(run, attempts);
            RunInv(after) && after.state != EXECUTING && k < |after.steps| && after.steps[k] == run.steps[k]
  {
    hide RunInv, Execute;
    if attempts != [] {
      EscalatedStepIsNotRepeated(run, attempts[..|attempts| - 1], k);
      var before := Attempts(run, attempts[..|attempts| - 1]);
      var last := attempts[|attempts| - 1];
      if Resumable(before.state) {
        ExecuteKeepsInv(before, last.outcome, last.itemId);
      }
    }
  }

  // ---------------------------------------------------------------- which records a handed-off run has

  /** Plan entry k runs and does not stop the run. */
  predicate RunsOn(outcome: nat -> Outcome, k: nat) {
    outcome(k).Returned? && outcome(k).status != ESCALATED
  }

  ghost predicate NoneWith(steps: seq<StepRecord>, status: StepStatus) {
    forall k | 0 <= k < |steps| :: steps[k].status != status
  }

  /** The entry at hand is the reporting one exactly when it is the last. */
  lemma LastIsReporting(run: AgentRun)
    requires RunInv(run) && run.state == EXECUTING
    ensures run.stepsUsed < |run.plan|
    ensures run.plan[run.stepsUsed].agent == REPORTING <==> run.stepsUsed == |run.plan| - 1
  {
  }

  /** What one execution adds: the records of the entries it ran, each with the status its specialist
      returned; only the last can be an escalation, and then the run is parked. */
  lemma {:induction false} DriveRecords(run: AgentRun, outcome: nat -> Outcome, itemId: string)
    requires RunInv(run) && run.state == EXECUTING
    ensures var after := Drive(run, outcome, itemId);
            && run.steps <= after.steps
            && (forall k | |run.steps| <= k < |after.steps| ::
                  && outcome(k).Returned? && after.steps[k].status == outcome(k).status
                  && (outcome(k).status == ESCALATED ==> k == |after.steps| - 1 && after.state == WAITING_INPUT))
            && (after.state == WAITING_INPUT ==>
                  |after.steps| > |run.steps| && after.steps[|after.steps| - 1].status == ESCALATED)
            && (after.state == HANDOFF ==> |after.steps| == |run.plan| - 1)
    decreases |run.plan| - run.stepsUsed
  {
    hide RunInv;
    ExecutingFacts(run);
    LastIsReporting(run);
    var n := run.stepsUsed;
    if run.plan[n].agent != REPORTING && outcome(n).Returned? && outcome(n).status != ESCALATED {
      var next := Recorded(run, outcome(n).status);
      RecordedKeepsInv(run, outcome(n).status, outcome(n).reason);
      DriveRecords(next, outcome, itemId);
      assert Drive(next, outcome, itemId).steps[n] == next.steps[n];
    }
  }

  /** It hands off exactly when every remaining specialist returns without escalating, a failed step
      included. */
  lemma {:induction false} DriveHandsOff(run: AgentRun, outcome: nat -> Outcome, itemId: string)
    requires RunInv(run) && run.state == EXECUTING
    ensures Drive(run, outcome, itemId).state == HANDOFF
       <==> forall k | run.stepsUsed <= k < |run.plan| - 1 :: RunsOn(outcome, k)
    decreases |run.plan| - run.stepsUsed
  {
    hide RunInv;
    ExecutingFacts(run);
    LastIsReporting(run);
    var n := run.stepsUsed;
    if run.plan[n].agent != REPORTING && RunsOn(outcome, n) {
      RecordedKeepsInv(run, outcome(n).status, outcome(n).reason);
      DriveHandsOff(Recorded(run, outcome(n).status), outcome, itemId);
    }
  }

  /** The same of execute on a run that can be resumed. */
  lemma ExecuteRecords(run: AgentRun, outcome: nat -> Outcome, itemId: string)
    requires RunInv(run) && Resumable(run.state)
    ensures var after := Execute(run, outcome, itemId);
            && run.steps <= after.steps
            && (forall k | |run.steps| <= k < |after.steps| ::
                  && outcome(k).Returned? && after.steps[k].status == outcome(k).status
                  && (outcome(k).status == ESCALATED ==> k == |after.steps| - 1 && after.state == WAITING_INPUT))
            && (after.state == WAITING_INPUT ==>
                  |after.steps| > |run.steps| && after.steps[|after.steps| - 1].status == ESCALATED)
            && (after.state == HANDOFF ==> |after.steps| == |run.plan| - 1)
  {
    DriveRecords(run.(state := EXECUTING), outcome, itemId);
  }

  /** Exactly when executing hands off: every remaining specialist returns without escalating. */
  lemma HandsOffExactlyWhen(run: AgentRun, outcome: nat -> Outcome, itemId: string)
    requires RunInv(run) && Resumable(run.state)
    ensures Execute(run, outcome, itemId).state == HANDOFF
       <==> forall k | run.stepsUsed <= k < |run.plan| - 1 :: RunsOn(outcome, k)
  {
    DriveHandsOff(run.(state := EXECUTING), outcome, itemId);
  }

  /** Exactly when a run is handed off with no step escalated: when no record escalated before it was
      executed. And with no step failed: when none had, and no remaining specialist returns a failure. */
  lemma HandoffIsCleanExactlyWhen(run: AgentRun, outcome: nat -> Outcome, itemId: string)
    requires RunInv(run) && Resumable(run.state) && Execute(run, outcome, itemId).state == HANDOFF
    ensures NoneWith(Execute(run, outcome, itemId).steps, ESCALATED) <==> NoneWith(run.steps, ESCALATED)
    ensures NoneWith(Execute(run, outcome, itemId).steps, STEP_FAILED)
       <==> && NoneWith(run.steps, STEP_FAILED)
            && forall k | run.stepsUsed <= k < |run.plan| - 1 :: outcome(k).Returned? && outcome(k).status != STEP_FAILED
  {
    hide Execute;
    ExecuteRecords(run, outcome, itemId);
    var steps := Execute(run, outcome, itemId).steps;
    assert forall k | 0 <= k < |run.steps| :: steps[k] == run.steps[k];
  }

  /** Attempt m ran plan entry k, and its specialist returned a failure. */
  ghost predicate FailedIn(run: AgentRun, attempts: seq<Attempt>, m: nat, k: nat)
    requires m < |attempts|
  {
    && |Attempts(run, attempts[..m]).steps| <= k < |Attempts(run, attempts[..m + 1]).steps|
    && attempts[m].outcome(k).Returned? && attempts[m].outcome(k).status == STEP_FAILED
  }

  /** Some attempt parked the run. */
  ghost predicate WasParked(run: AgentRun, attempts: seq<Attempt>) {
    exists m :: 0 <= m <= |attempts| && Attempts(run, attempts[..m]).state == WAITING_INPUT
  }

  /** Some attempt ran a step whose specialist returned a failure. */
  ghost predicate HadFailure(run: AgentRun, attempts: seq<Attempt>) {
    exists m, k :: 0 <= m < |attempts| && 0 <= k && FailedIn(run, attempts, m, k)
  }

  lemma ParkedSnoc(run: AgentRun, attempts: seq<Attempt>, a: Attempt)
    ensures WasParked(run, attempts + [a])
       <==> WasParked(run, attempts) || Attempts(run, attempts + [a]).state == WAITING_INPUT
  {
    hide Attempts;
    var more := attempts + [a];
    assert more[..|more|] == more;
    assert forall m | 0 <= m <= |attempts| :: more[..m] == attempts[..m];
    if WasParked(run, attempts) {
      var m :| 0 <= m <= |attempts| && Attempts(run, attempts[..m]).state == WAITING_INPUT;
      assert Attempts(run, more[..m]).state == WAITING_INPUT;
    }
  }

  lemma FailureSnoc(run: AgentRun, attempts: seq<Attempt>, a: Attempt)
    ensures HadFailure(run, attempts + [a])
       <==> || HadFailure(run, attempts)
            || exists k :: |Attempts(run, attempts).steps| <= k < |Attempts(run, attempts + [a]).steps|
                           && a.outcome(k).Returned? && a.outcome(k).status == STEP_FAILED
  {
    hide Attempts;
    var more := attempts + [a];
    assert more[..|attempts|] == attempts && more[..|more|] == more;
    assert forall m | 0 <= m <= |attempts| :: more[..m] == attempts[..m];
    forall m, k | 0 <= m < |attempts| && 0 <= k
      ensures FailedIn(run, more, m, k) <==> FailedIn(run, attempts, m, k)
    {
      assert more[..m] == attempts[..m] && more[..m + 1] == attempts[..m + 1];
    }
    if k :| |Attempts(run, attempts).steps| <= k < |Attempts(run, more).steps|
            && a.outcome(k).Returned? && a.outcome(k).status == STEP_FAILED {
      assert FailedIn(run, more, |attempts|, k);
    }
    if HadFailure(run, attempts) {
      var m, k :| 0 <= m < |attempts| && 0 <= k && FailedIn(run, attempts, m, k);
      assert FailedIn(run, more, m, k);
    }
  }

  /** Over a run and any number of resumptions, a record escalated exactly if some attempt parked the run,
      and a record failed exactly if some attempt ran a step that returned a failure. So a run is handed
      off with every step escalation-free if and only if no attempt ever parked it. */
  lemma {:induction false} RecordsTellTheAttempts(run: AgentRun, attempts: seq<Attempt>)
    requires RunInv(run) && run.state == PLANNING && run.steps == []
    ensures RunInv(Attempts(run, attempts)) && Attempts(run, attempts).state != EXECUTING
    ensures NoneWith(Attempts(run, attempts).steps, ESCALATED) <==> !WasParked(run, attempts)
    ensures NoneWith(Attempts(run, attempts).steps, STEP_FAILED) <==> !HadFailure(run, attempts)
  {
    hide RunInv, Execute, WasParked, HadFailure;
    if attempts == [] {
      NothingAttempted(run);
    } else {
      var init, a := attempts[..|attempts| - 1], attempts[|attempts| - 1];
      assert attempts == init + [a];
      RecordsTellTheAttempts(run, init);
      ParkedSnoc(run, init, a);
      FailureSnoc(run, init, a);
      var before := Attempts(run, init);
      if Resumable(before.state) {
        ExecuteKeepsInv(before, a.outcome, a.itemId);
        ExecuteRecords(before, a.outcome, a.itemId);
        RecordsOf(before, a.outcome, Execute(before, a.outcome, a.itemId));
      }
    }
  }

  lemma NothingAttempted(run: AgentRun)
    requires run.state == PLANNING
    ensures !WasParked(run, []) && !HadFailure(run, [])
  {
  }

  /** How the added records change what the records hold. */
  lemma RecordsOf(before: AgentRun, outcome: nat -> Outcome, after: AgentRun)
    requires before.steps <= after.steps
    requires forall k | |before.steps| <= k < |after.steps| ::
               && outcome(k).Returned? && after.steps[k].status == outcome(k).status
               && (outcome(k).status == ESCALATED ==> k == |after.steps| - 1 && after.state == WAITING_INPUT)
    requires after.state == WAITING_INPUT ==>
               |after.steps| > |before.steps| && after.steps[|after.steps| - 1].status == ESCALATED
    ensures NoneWith(after.steps, ESCALATED) <==> NoneWith(before.steps, ESCALATED) && after.state != WAITING_INPUT
    ensures NoneWith(after.steps, STEP_FAILED)
       <==> && NoneWith(before.steps, STEP_FAILED)
            && !exists k :: |before.steps| <= k < |after.steps| && outcome(k).Returned? && outcome(k).status == STEP_FAILED
  {
    assert forall k | 0 <= k < |before.steps| :: after.steps[k] == before.steps[k];
  }

  /** So a run can be handed off although its computation step only ever escalated. */
  lemma HandoffAfterEscalatedComputation(actor: string, itemId: string)
    ensures var start := StartRun("VAT", actor).value;
            var escalating := (k: nat) => if k == 1 then Returned(ESCALATED, "no data") else Returned(COMPLETED, "");
            var parked := Execute(start, escalating, itemId);
            var resumed := Execute(parked, escalating, itemId);
            && StartRun("VAT", actor).Ok?
            && parked.state == WAITING_INPUT && resumed.state == HANDOFF
            && |resumed.steps| == 3 && resumed.steps[1].agent == "vat" && resumed.steps[1].status == ESCALATED
  {
    StartedRun("VAT", actor);
    var start := StartRun("VAT", actor).value;
    var escalating := (k: nat) => if k == 1 then Returned(ESCALATED, "no data") else Returned(COMPLETED, "");
    assert |"reporting"| == 9 && |"data"| == 4 && |"vat"| == 3 && |"fraud"| == 5;
    var run0 := start.(state := EXECUTING);
    var run1 := run0.(stepsUsed := 1, steps := [StepRecord(1, "data", VAT_PLAN[0].goal, COMPLETED)]);
    assert Drive(run0, escalating, itemId) == Drive(run1, escalating, itemId);
    var parked := Drive(run1, escalating, itemId);
    assert parked.state == WAITING_INPUT && parked.stepsUsed == 2;
    var run2 := parked.(state := EXECUTING);
    var run3 := run2.(stepsUsed := 3, steps := run2.steps + [StepRecord(3, "fraud", VAT_PLAN[2].goal, COMPLETED)]);
    assert Drive(run2, escalating, itemId) == Drive(run3, escalating, itemId);
    assert Drive(run3, escalating, itemId).state == HANDOFF;
  }

  // ---------------------------------------------------------------- the requester never approves

  /** A handoff creates the item in the requester's name and submits it; from then on, whatever workflow
      calls follow, no approval of that item is the requester's. */
  lemma RequesterNeverApproves(H: HashFunction, states: seq<Db>, calls: seq<Call>, i: nat, j: nat, id: string,
                               actor: string, linked: Option<string>, requester: string)
    requires Run(H, states, calls) && i < j < |states| && requester != ""
    requires calls[i] == Create(id, actor, linked, Some(requester)) && id in states[i + 1].items
    ensures id in states[j].items && states[j].items[id].preparedBy == requester
    ensures forall k | 0 <= k < |states[j].items[id].approvals| :: states[j].items[id].approvals[k].approver != requester
    ensures j < |calls| && calls[j].Grant? && calls[j].id == id && calls[j].actor == requester ==>
              states[j + 1].items == states[j].items
  {
    hide ItemInv, CurrentHash, LiveApproval;
    assert states[i + 1].items[id].preparedBy == requester;
    RunEvolves(H, states, calls, i + 1, j, id);
    ApprovedMeansLiveApproval(H, states, calls, j, id);
  }

  /** The two workflow calls a handoff makes. */
  ghost predicate HandsOver(calls: seq<Call>, i: nat, requester: string, itemId: string, linked: Option<string>, actor: string) {
    && i + 1 < |calls|
    && calls[i] == Create(itemId, actor, linked, Some(requester))
    && calls[i + 1] == MoveTo(itemId, AWAITING_REVIEW, actor)
  }

  /** Within a run of the workflow, they add the item and change no other. */
  lemma HandoverAddsItem(H: HashFunction, states: seq<Db>, calls: seq<Call>, i: nat, requester: string, itemId: string,
                         linked: Option<string>, actor: string)
    requires Run(H, states, calls) && HandsOver(calls, i, requester, itemId, linked, actor)
    requires linked.Some? ==> linked.value in states[i].computations
    ensures states[i + 2].items
         == states[i].items[itemId := HandedOver(H, states[i].computations, requester, itemId, linked, actor)]
  {
    hide CurrentHash;
    assert Enabled(states[i], calls[i]) && states[i + 1] == Apply(H, states[i], calls[i]);
    assert Enabled(states[i + 1], calls[i + 1]) && states[i + 2] == Apply(H, states[i + 1], calls[i + 1]);
    CreatedCanBeSubmitted(H, states[i].computations, requester, itemId, linked, actor);
  }

  lemma CreatedCanBeSubmitted(H: HashFunction, cs: Computations, requester: string, itemId: string, linked: Option<string>, actor: string)
    requires linked.Some? ==> linked.value in cs
    ensures TransitionItem(H, cs, CreateItem(itemId, actor, linked, Some(requester)), AWAITING_REVIEW, actor).Ok?
  {
  }

  /** Separation of duties over the whole life of a run: when executing a run hands it off, the item it names
      is in review in the requester's name, and at no later time, whatever workflow calls follow, does it hold
      an approval of the requester; an approval the requester asks for changes nothing. */
  lemma HandedOffItemNeedsAnother(H: HashFunction, states: seq<Db>, calls: seq<Call>, i: nat, j: nat,
                                  run: AgentRun, outcome: nat -> Outcome, itemId: string, linked: Option<string>, actor: string)
    requires RunInv(run) && Resumable(run.state) && run.requestedBy != ""
    requires Execute(run, outcome, itemId).state == HANDOFF
    requires Run(H, states, calls) && HandsOver(calls, i, run.requestedBy, itemId, linked, actor)
    requires linked.Some? ==> linked.value in states[i].computations
    requires i + 2 <= j < |states|
    ensures Execute(run, outcome, itemId).workItem == Some(itemId)
    ensures itemId in states[i + 2].items && states[i + 2].items[itemId].state == AWAITING_REVIEW
    ensures itemId in states[j].items && states[j].items[itemId].preparedBy == run.requestedBy
    ensures forall k | 0 <= k < |states[j].items[itemId].approvals| ::
              states[j].items[itemId].approvals[k].approver != run.requestedBy
    ensures j < |calls| && calls[j].Grant? && calls[j].id == itemId && calls[j].actor == run.requestedBy ==>
              states[j + 1].items == states[j].items
  {
    hide Execute, Apply, HandedOver;
    HandoffNamesItem(run, outcome, itemId);
    HandoverAddsItem(H, states, calls, i, run.requestedBy, itemId, linked, actor);
    CreateAddsItem(H, states, calls, i);
    RequesterNeverApproves(H, states, calls, i, j, itemId, actor, linked, run.requestedBy);
  }

  lemma CreateAddsItem(H: HashFunction, states: seq<Db>, calls: seq<Call>, i: nat)
    requires Run(H, states, calls) && i < |calls| && calls[i].Create?
    requires calls[i].linked.Some? ==> calls[i].linked.value in states[i].computations
    ensures calls[i].id in states[i + 1].items
  {
    assert Enabled(states[i], calls[i]) && states[i + 1] == Apply(H, states[i], calls[i]);
  }

  lemma HandoffNamesItem(run: AgentRun, outcome: nat -> Outcome, itemId: string)
    requires RunInv(run) && Resumable(run.state)
    ensures Execute(run, outcome, itemId).state == HANDOFF ==> Execute(run, outcome, itemId).workItem == Some(itemId)
  {
    DriveKeepsInv(run.(state := EXECUTING), outcome, itemId);
  }
}
