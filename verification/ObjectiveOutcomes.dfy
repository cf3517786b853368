/** What a fresh objective command is answered and what it leaves behind, told
    from the rows a caller can see before the call: when each command goes
    through, which state it answers, why it is refused, and every row it writes. */
module ObjectiveOutcomes {
  import opened Wrappers
  import opened ObjectiveTables
  import EventJournal

  // ----- The plan of an objective, as its rows show it ------------------------------

  /** The attempt ran a task of the plan. */
  ghost predicate AttemptOf(t: Tables, a: Attempt, plan: string) {
    a in t.attempts && a.taskId in t.tasks && t.tasks[a.taskId].planId == plan && a.runId in t.runs
  }

  /** No task of the plan is being worked on. */
  ghost predicate TasksIdle(t: Tables, planId: Option<string>) {
    forall plan, k :: planId == Some(plan) && k in t.tasks && t.tasks[k].planId == plan ==>
      t.tasks[k].status in {TaskPending, TaskReady, TaskBlocked, TaskCompleted, TaskFailed, TaskCancelled}
  }

  /** Every run of the plan has yet to start or has ended. */
  ghost predicate RunsIdle(t: Tables, planId: Option<string>) {
    forall plan, a :: planId == Some(plan) && AttemptOf(t, a, plan) ==>
      t.runs[a.runId] in {RunQueued, RunCompleted, RunFailed, RunCancelled}
  }

  /** No run of the plan has been committed, and every approved integration of
      one was turned down or held up. */
  ghost predicate NothingIntegrated(t: Tables, planId: Option<string>) {
    forall plan, a :: planId == Some(plan) && AttemptOf(t, a, plan) ==>
      && t.runs[a.runId] !in {RunCommitting, RunCompleted}
      && forall i :: i in t.integrations && i.runId == a.runId && i.approved ==>
           i.status in {IntegrationRejected, IntegrationBlocked}
  }

  lemma RunningTaskIsBusy(t: Tables, planId: Option<string>)
    ensures HasRunningTask(t, planId) <==> !TasksIdle(t, planId)
  {
    if !TasksIdle(t, planId) {
      var plan, k :| planId == Some(plan) && k in t.tasks && t.tasks[k].planId == plan
                     && t.tasks[k].status !in {TaskPending, TaskReady, TaskBlocked, TaskCompleted, TaskFailed,
                                               TaskCancelled};
      assert t.tasks[k].status.TaskRunning?;
    }
  }

  lemma ActiveRunIsBusy(t: Tables, planId: Option<string>)
    ensures HasActiveRun(t, planId) <==> !RunsIdle(t, planId)
  {
    if HasActiveRun(t, planId) {
      var a :| a in t.attempts && RunOfPlan(t, a, planId.value) && RunActive(t.runs[a.runId]);
      assert AttemptOf(t, a, planId.value);
    }
    if !RunsIdle(t, planId) {
      var plan, a :| planId == Some(plan) && AttemptOf(t, a, plan)
                     && t.runs[a.runId] !in {RunQueued, RunCompleted, RunFailed, RunCancelled};
      assert RunOfPlan(t, a, plan) && RunActive(t.runs[a.runId]);
    }
  }

  lemma CommittedIsIntegrated(t: Tables, run: string)
    requires run in t.runs
    ensures !Committed(t, run) <==>
              && t.runs[run] !in {RunCommitting, RunCompleted}
              && forall i :: i in t.integrations && i.runId == run && i.approved ==>
                   i.status in {IntegrationRejected, IntegrationBlocked}
  {
    if !IntegrationBegun(t, run) {
      forall i | i in t.integrations && i.runId == run && i.approved
        ensures i.status in {IntegrationRejected, IntegrationBlocked}
      {
        assert !i.status.Prepared? && !i.status.Integrated? && !i.status.IntegrationFailed?;
      }
    }
  }

  lemma PastMeansIntegrated(t: Tables, planId: Option<string>)
    ensures PointOfNoReturn(t, planId) <==> !NothingIntegrated(t, planId)
  {
    hide Committed;
    forall run | run in t.runs
      ensures !Committed(t, run) <==>
                && t.runs[run] !in {RunCommitting, RunCompleted}
                && forall i :: i in t.integrations && i.runId == run && i.approved ==>
                     i.status in {IntegrationRejected, IntegrationBlocked}
    {
      CommittedIsIntegrated(t, run);
    }
    if PointOfNoReturn(t, planId) {
      var a :| a in t.attempts && RunOfPlan(t, a, planId.value) && Committed(t, a.runId);
      assert AttemptOf(t, a, planId.value);
    }
    if planId.Some? && !PointOfNoReturn(t, planId) {
      forall a | AttemptOf(t, a, planId.value)
        ensures !Committed(t, a.runId)
      {
        assert RunOfPlan(t, a, planId.value);
      }
    }
  }

  // ----- The answer to each command ---------------------------------------------------

  /** A first use of its key: not a replay and not a conflict. */
  ghost predicate Fresh(t: Tables, req: Request) {
    Key(req.session, req.key) !in t.idempotency
  }

  /** A fresh, well-formed command on an objective that exists. */
  ghost predicate Ordered(t: Tables, req: Request, name: CommandName) {
    && Fresh(t, req)
    && req.action.Command? && req.action.name == name && req.body.Reason?
    && req.action.objectiveId in t.objectives
  }

  /** The reply is the acceptance of this state. */
  ghost predicate Answer(req: Request, draws: Draws, reply: Reply, kind: Kind, state: ObjectiveStatus) {
    && req.action.Command?
    && reply == Accepted(OperationResponse(draws.operationId, kind, req.action.objectiveId, state, draws.now))
  }

  /** A cancel goes through exactly on an objective that is not terminal, has
      nothing integrated, and has a legal scope. It is answered CANCELLED exactly
      when the objective is not being planned and its plan has nothing in flight,
      and CANCEL_REQUESTED otherwise. */
  lemma CancelAnswers(t: Tables, req: Request, draws: Draws)
    requires Ordered(t, req, Cancel)
    ensures var reply, o := Atomic(t, req, draws).1, t.objectives[req.action.objectiveId];
            var terminal := o.status in {Completed, Failed, Cancelled};
            var integrated := !NothingIntegrated(t, o.planId);
            var idle := o.status != Planning && TasksIdle(t, o.planId) && RunsIdle(t, o.planId);
            && (reply == Refused(409, "objective_terminal") <==> terminal)
            && (reply == Refused(409, "objective_integration_committed") <==> !terminal && integrated)
            && (reply == Refused(503, "objective_projection_invalid") <==>
                  !terminal && !integrated && !ValidScope(o.scope))
            && (reply == Refused(500, "internal_error") <==>
                  !terminal && !integrated && ValidScope(o.scope) && draws.operationId in t.operations)
            && (reply.Accepted? <==>
                  !terminal && !integrated && ValidScope(o.scope) && draws.operationId !in t.operations)
            && (reply.Accepted? ==>
                  Answer(req, draws, reply, CancelKind, if idle then Cancelled else CancelRequested))
  {
    hide ValidScope, Applied, HasRunningTask, HasActiveRun, PointOfNoReturn;
    hide NothingIntegrated, TasksIdle, RunsIdle;
    var o := t.objectives[req.action.objectiveId];
    PastMeansIntegrated(t, o.planId);
    RunningTaskIsBusy(t, o.planId);
    ActiveRunIsBusy(t, o.planId);
  }

  /** A pause goes through exactly on an objective that is neither terminal nor
      being cancelled; a scope is asked for only where a row is written. It is
      answered PAUSED exactly when it was paused already, or is not being planned
      and has no task running. */
  lemma PauseAnswers(t: Tables, req: Request, draws: Draws)
    requires Ordered(t, req, Pause)
    ensures var reply, o := Atomic(t, req, draws).1, t.objectives[req.action.objectiveId];
            var terminal := o.status in {Completed, Failed, Cancelled};
            var legal := o.status == Paused || ValidScope(o.scope);
            var open := !terminal && o.status != CancelRequested;
            var quiet := o.status == Paused || (o.status != Planning && TasksIdle(t, o.planId));
            && (reply == Refused(409, "objective_cancel_pending") <==> o.status == CancelRequested)
            && (reply == Refused(409, "objective_terminal") <==> terminal)
            && (reply == Refused(503, "objective_projection_invalid") <==> open && !legal)
            && (reply == Refused(500, "internal_error") <==> open && legal && draws.operationId in t.operations)
            && (reply.Accepted? <==> open && legal && draws.operationId !in t.operations)
            && (reply.Accepted? ==>
                  Answer(req, draws, reply, PauseKind, if quiet then Paused else PauseRequested))
  {
    hide ValidScope, Applied, HasRunningTask, TasksIdle;
    RunningTaskIsBusy(t, t.objectives[req.action.objectiveId].planId);
  }

  /** The state a resumed objective takes from its plan. */
  ghost predicate Follows(state: ObjectiveStatus, plan: Option<PlanStatus>) {
    && (state == Running <==> plan == Some(PlanBlocked))
    && (state == Completed <==> plan == Some(PlanCompleted))
    && (state == Failed <==> plan == Some(PlanFailed))
    && (state == Cancelled <==> plan == Some(PlanCancelled))
    && (state == Queued <==> plan in {None, Some(PlanDraft), Some(PlanReady), Some(PlanRunning)})
  }

  /** A resume goes through exactly on a paused objective whose plan, if it has
      one, is stored, and is answered with the state that follows the plan. */
  lemma ResumeAnswers(t: Tables, req: Request, draws: Draws)
    requires Ordered(t, req, Resume)
    ensures var reply, o := Atomic(t, req, draws).1, t.objectives[req.action.objectiveId];
            var planned := o.planId.None? || o.planId.value in t.plans;
            && (reply == Refused(409, "objective_not_paused") <==> o.status != Paused)
            && (reply == Refused(503, "objective_plan_unavailable") <==> o.status == Paused && !planned)
            && (reply == Refused(503, "objective_projection_invalid") <==>
                  o.status == Paused && planned && !ValidScope(o.scope))
            && (reply == Refused(500, "internal_error") <==>
                  o.status == Paused && planned && ValidScope(o.scope) && draws.operationId in t.operations)
            && (reply.Accepted? <==>
                  o.status == Paused && planned && ValidScope(o.scope) && draws.operationId !in t.operations)
            && (reply.Accepted? ==>
                  && reply.response.OperationResponse?
                  && Follows(reply.response.state,
                             if o.planId.None? then None else Some(t.plans[o.planId.value].status))
                  && Answer(req, draws, reply, ResumeKind, reply.response.state))
  {
    hide ValidScope, Applied, DecidePause, DecideCancel, DecideCreate, Follows;
    var o := t.objectives[req.action.objectiveId];
    ResumeFollows(if o.planId.Some? && o.planId.value in t.plans then Some(t.plans[o.planId.value].status) else None);
  }

  lemma ResumeFollows(plan: Option<PlanStatus>)
    ensures Follows(ResumedStatus(plan), plan)
  {
  }

  /** A fresh command that is no pause, resume or cancel, has a malformed body, or
      names no objective is refused for just that reason, in this order. */
  lemma CommandRefusals(t: Tables, req: Request, draws: Draws)
    requires Fresh(t, req) && req.action.Command?
    ensures var reply, known := Atomic(t, req, draws).1, req.action.name in {Pause, Resume, Cancel};
            && (reply == Refused(409, "objective_command_unavailable") <==> !known)
            && (reply == Refused(400, "unknown_request_field") <==> known && !req.body.Reason?)
            && (reply == Refused(404, "objective_not_found") <==>
                  known && req.body.Reason? && req.action.objectiveId !in t.objectives)
  {
    hide ValidScope, Applied, HasRunningTask, HasActiveRun, PointOfNoReturn;
  }

  /** Each project is named once. */
  ghost predicate NamedOnce(scope: seq<string>) {
    forall i :: 0 <= i < |scope| ==> scope[i] !in scope[..i]
  }

  lemma ScopeIsNamedOnce(scope: seq<string>)
    ensures ValidScope(scope) <==> scope != [] && NamedOnce(scope)
  {
    if NamedOnce(scope) {
      forall i, j | 0 <= i < j < |scope|
        ensures scope[i] != scope[j]
      {
        assert scope[j] !in scope[..j] && scope[..j][i] == scope[i];
      }
    }
  }

  /** A create goes through exactly over at least one project, each named once,
      known and enabled, and is answered with a queued objective. */
  lemma CreateAnswers(t: Tables, req: Request, draws: Draws)
    requires Fresh(t, req) && req.action.Create?
    ensures var reply := Atomic(t, req, draws).1;
            && (reply == Refused(400, "invalid_objective") <==> !req.body.NewObjective?)
            && (req.body.NewObjective? ==>
                  var projects := req.body.projects;
                  var formed := projects != [] && NamedOnce(projects);
                  var known := formed && (set p | p in projects) <= t.projects.Keys;
                  var enabled := known && false !in (set p | p in projects :: t.projects[p]);
                  var free := draws.operationId !in t.operations && draws.objectiveId !in t.objectives;
                  && (reply == Refused(400, "invalid_project_ids") <==> !formed)
                  && (reply == Refused(400, "unknown_project") <==> formed && !known)
                  && (reply == Refused(409, "project_disabled") <==> known && !enabled)
                  && (reply == Refused(500, "internal_error") <==> enabled && !free)
                  && (reply.Accepted? <==> enabled && free)
                  && (reply.Accepted? ==>
                        reply == Accepted(OperationResponse(draws.operationId, CreateKind, draws.objectiveId, Queued,
                                                            draws.now))))
  {
    hide ValidScope, Applied, NamedOnce;
    if req.body.NewObjective? { ScopeIsNamedOnce(req.body.projects); }
  }

  /** A token is issued exactly for an empty body, and leaves nothing but the
      reservation with its answer. */
  lemma TokenAnswers(t: Tables, req: Request, draws: Draws)
    requires Fresh(t, req) && req.action.IssueToken?
    ensures var (t', reply) := Atomic(t, req, draws);
            if req.body == Reason(None) then
              && reply == Accepted(TokenResponse(draws.token))
              && t' == t.(idempotency := t.idempotency[Key(req.session, req.key) :=
                            Reservation(req.route, req.body, Some(TokenResponse(draws.token)), None)])
            else t' == t && reply == Refused(400, "invalid_request_body")
  {
  }

  // ----- The rows left behind ------------------------------------------------------------

  /** An accepted command is on record under its own key and identifier: the
      stored answer, one operation and one audit row all name what was done. */
  lemma RecordsNameTheCommand(t: Tables, req: Request, draws: Draws)
    requires Fresh(t, req) && !req.action.IssueToken? && Atomic(t, req, draws).1.Accepted?
    ensures var (t', reply) := Atomic(t, req, draws);
            var key := Key(req.session, req.key);
            && reply.response.OperationResponse? && reply.response.operationId == draws.operationId
            && var r := reply.response;
               && draws.operationId !in t.operations
               && t'.operations == t.operations[draws.operationId :=
                                                  Operation(r.kind, r.objectiveId, r.state, draws.now)]
               && t'.audit == t.audit + [AuditRow(draws.operationId, r.kind, r.objectiveId, key, req.route, req.body)]
               && t'.idempotency == t.idempotency[key :=
                                      Reservation(req.route, req.body, Some(r), Some(draws.operationId))]
  {
    hide Decide, CancelTasks, CancelPlan, ObjectiveRow, EventJournal.Append;
    DecideForms(t, req);
  }

  /** A refused request changes nothing. */
  lemma RefusalsChangeNothing(t: Tables, req: Request, draws: Draws)
    requires Atomic(t, req, draws).1.Refused?
    ensures Atomic(t, req, draws).0 == t
  {
    hide Decide, Applied;
  }

  /** The event and the journal row of a change of state. */
  ghost predicate Announced(t: Tables, t': Tables, id: string, was: Option<ObjectiveStatus>, state: ObjectiveStatus,
                            at: Time) {
    && t'.events == t.events + [ObjectiveEvent(id, was, state, at)]
    && t'.lastSequence == t.lastSequence + 1
    && |t'.journal| == |t.journal| + 1 && t'.journal[..|t.journal|] == t.journal
    && var row := t'.journal[|t.journal|];
       && row.sequence == t'.lastSequence
       && row.draft.aggregateType == EventJournal.Objective && row.draft.aggregateId == id
       && row.draft.data == (if was.None? then "objective.created" else "objective.state_changed")
  }

  lemma AppendAnnounces(t: Tables, t': Tables, id: string, was: Option<ObjectiveStatus>, state: ObjectiveStatus,
                        at: Time)
    requires t'.events == t.events + [ObjectiveEvent(id, was, state, at)] && t'.lastSequence == t.lastSequence + 1
    requires t'.journal == EventJournal.Append(t.journal, t.lastSequence, [Draft(id, was)])
    ensures Announced(t, t', id, was, state, at)
  {
    var draft := Draft(id, was);
    assert [draft][1..] == [];
    assert t'.journal == t.journal + [EventJournal.Emitted(t.journal, t.lastSequence, draft)];
  }

  /** Everything an objective command leaves alone, but for its own row, its
      events and the work of its plan. */
  ghost predicate Untouched(t: Tables, t': Tables) {
    && t'.attempts == t.attempts && t'.runs == t.runs && t'.integrations == t.integrations
    && t'.projects == t.projects
  }

  /** One objective gets a new row, told by one event; tasks and plans stay. */
  ghost predicate OnlyRow(t: Tables, t': Tables, id: string, row: Objective, was: Option<ObjectiveStatus>, at: Time) {
    && Untouched(t, t') && t'.tasks == t.tasks && t'.plans == t.plans
    && t'.objectives == t.objectives[id := row]
    && Announced(t, t', id, was, row.status, at)
  }

  /** Without a plan to cancel, tasks and plans stay. */
  lemma NoPlanNoChange(t: Tables, at: Time)
    ensures CancelTasks(t.tasks, None, at) == t.tasks && CancelPlan(t.plans, None, at) == t.plans
  {
  }

  /** An accepted create leaves one new row, queued, without a plan or a mark of
      having started. */
  lemma CreateLeaves(t: Tables, req: Request, draws: Draws)
    requires Fresh(t, req) && req.action.Create? && Atomic(t, req, draws).1.Accepted?
    ensures req.body.NewObjective?
    ensures OnlyRow(t, Atomic(t, req, draws).0, draws.objectiveId,
                    Objective(Queued, req.body.projects, None, draws.now, None, None, None), None, draws.now)
  {
    hide EventJournal.Append, Announced, ValidScope;
    CreateAnswers(t, req, draws);
    var t' := Atomic(t, req, draws).0;
    AppendAnnounces(t, t', draws.objectiveId, None, Queued, draws.now);
  }

  /** An accepted pause notes when the objective came to rest and clears its last
      error; pausing a paused objective writes no row and no event. */
  lemma PauseLeaves(t: Tables, req: Request, draws: Draws)
    requires Ordered(t, req, Pause) && Atomic(t, req, draws).1.Accepted?
    ensures var (t', reply) := Atomic(t, req, draws);
            var id := req.action.objectiveId;
            var o := t.objectives[id];
            if o.status == Paused then
              t' == t.(idempotency := t'.idempotency, operations := t'.operations, audit := t'.audit)
            else
              && reply.response.OperationResponse?
              && var state := reply.response.state;
                 OnlyRow(t, t', id,
                         Objective(state, o.scope, o.planId, draws.now, o.finishedAt,
                                   if state == Paused then Some(draws.now) else o.pausedAt, None),
                         Some(o.status), draws.now)
  {
    hide HasRunningTask, HasActiveRun, PointOfNoReturn, ValidScope, EventJournal.Append, Announced;
    hide CancelTasks, CancelPlan, ResumedRow, CancelledRow;
    NoPlanNoChange(t, draws.now);
    var (t', reply) := Atomic(t, req, draws);
    var id := req.action.objectiveId;
    var o := t.objectives[id];
    if o.status != Paused {
      AppendAnnounces(t, t', id, Some(o.status), reply.response.state, draws.now);
    }
  }

  /** What is noted as the error of an objective whose plan ended badly. */
  function ResumeError(state: ObjectiveStatus): Option<string> {
    match state
    case Failed => Some("linked orchestration plan failed")
    case Cancelled => Some("linked orchestration plan cancelled")
    case _ => None
  }

  /** An accepted resume clears the pause, and closes the objective exactly when
      its plan has ended. */
  lemma ResumeLeaves(t: Tables, req: Request, draws: Draws)
    requires Ordered(t, req, Resume) && Atomic(t, req, draws).1.Accepted?
    ensures var (t', reply) := Atomic(t, req, draws);
            var id := req.action.objectiveId;
            var o := t.objectives[id];
            && reply.response.OperationResponse?
            && var state := reply.response.state;
               OnlyRow(t, t', id,
                       Objective(state, o.scope, o.planId, draws.now,
                                 if state in {Completed, Failed, Cancelled} then Some(draws.now) else None,
                                 None, ResumeError(state)),
                       Some(o.status), draws.now)
  {
    hide ResumedStatus, HasRunningTask, HasActiveRun, PointOfNoReturn, ValidScope, EventJournal.Append, Announced;
    hide CancelTasks, CancelPlan, PausedRow, CancelledRow;
    NoPlanNoChange(t, draws.now);
    var (t', reply) := Atomic(t, req, draws);
    var id := req.action.objectiveId;
    AppendAnnounces(t, t', id, Some(t.objectives[id].status), reply.response.state, draws.now);
  }

  /** Work of the plan that is neither finished nor running. */
  ghost predicate Waiting(task: Task, planId: Option<string>) {
    planId == Some(task.planId) && task.status in {TaskPending, TaskReady, TaskBlocked}
  }

  /** The plan's waiting tasks are cancelled, with their own reason where they
      have one, and so is the plan unless it has ended; nothing else changes. */
  ghost predicate PlanStopped(t: Tables, t': Tables, planId: Option<string>, at: Time) {
    && t'.tasks.Keys == t.tasks.Keys && t'.plans.Keys == t.plans.Keys
    && (forall k :: k in t.tasks ==>
          t'.tasks[k] ==
            if Waiting(t.tasks[k], planId) then
              Task(t.tasks[k].planId, TaskCancelled, Some(at),
                   Some(if t.tasks[k].failureReason.Some? then t.tasks[k].failureReason.value
                        else "objective cancelled"))
            else t.tasks[k])
    && (forall p :: p in t.plans ==>
          t'.plans[p] ==
            if planId == Some(p) && t.plans[p].status !in {PlanCompleted, PlanFailed, PlanCancelled} then
              Plan(PlanCancelled, Some(at), Some("objective cancelled"))
            else t.plans[p])
  }

  lemma CancelsStopPlans(t: Tables, t': Tables, planId: Option<string>, at: Time)
    requires t'.tasks == CancelTasks(t.tasks, planId, at) && t'.plans == CancelPlan(t.plans, planId, at)
    ensures PlanStopped(t, t', planId, at)
  {
  }

  /** An accepted cancel stops the plan and closes the objective if it is
      answered CANCELLED, and otherwise only marks the objective. */
  lemma CancelLeaves(t: Tables, req: Request, draws: Draws)
    requires Ordered(t, req, Cancel) && Atomic(t, req, draws).1.Accepted?
    ensures var (t', reply) := Atomic(t, req, draws);
            var id := req.action.objectiveId;
            var o := t.objectives[id];
            && reply.response.OperationResponse?
            && var state := reply.response.state;
               && Untouched(t, t')
               && t'.objectives == t.objectives[id :=
                    if state == Cancelled then
                      Objective(Cancelled, o.scope, o.planId, draws.now, Some(draws.now), o.pausedAt,
                                Some("cancelled by operator"))
                    else Objective(CancelRequested, o.scope, o.planId, draws.now, None, o.pausedAt, o.lastError)]
               && Announced(t, t', id, Some(o.status), state, draws.now)
               && (if state == Cancelled then PlanStopped(t, t', o.planId, draws.now)
                   else t'.tasks == t.tasks && t'.plans == t.plans)
  {
    hide HasRunningTask, HasActiveRun, PointOfNoReturn, ValidScope, EventJournal.Append, Announced, PlanStopped;
    hide CancelTasks, CancelPlan;
    var (t', reply) := Atomic(t, req, draws);
    var id := req.action.objectiveId;
    AppendAnnounces(t, t', id, Some(t.objectives[id].status), reply.response.state, draws.now);
    CancelRows(t, req, draws);
    if reply.response.state == Cancelled {
      CancelsStopPlans(t, t', t.objectives[id].planId, draws.now);
    }
  }

  lemma CancelRows(t: Tables, req: Request, draws: Draws)
    requires Ordered(t, req, Cancel) && Atomic(t, req, draws).1.Accepted?
    ensures var (t', reply) := Atomic(t, req, draws);
            var planId := t.objectives[req.action.objectiveId].planId;
            && reply.response.OperationResponse?
            && if reply.response.state == Cancelled then
                 && t'.tasks == CancelTasks(t.tasks, planId, draws.now)
                 && t'.plans == CancelPlan(t.plans, planId, draws.now)
               else t'.tasks == t.tasks && t'.plans == t.plans
  {
    hide HasRunningTask, HasActiveRun, PointOfNoReturn, ValidScope, EventJournal.Append, Cancellable, CancelledTask;
  }
}
