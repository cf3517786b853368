/** What one objective command guarantees about objectives, plans and tasks,
    proved on the atomic transition. */
module ObjectiveLifecycle {
  import opened Wrappers
  import opened ObjectiveTables
  import EventJournal

  /** `finished_at` is set exactly on terminal objectives. */
  ghost predicate Tidy(t: Tables) {
    forall id :: id in t.objectives ==>
      (t.objectives[id].finishedAt.Some? <==> Terminal(t.objectives[id].status))
  }

  lemma RowIsTidy(t: Tables, req: Request, v: Verdict, now: Time)
    requires Tidy(t) && v.Proceed? && v == Decide(t, req) && v.writes
    requires Formed(t, req) && !req.action.IssueToken?
    ensures var row := ObjectiveRow(t, req, v, now);
            row.finishedAt.Some? <==> Terminal(row.status)
  {
  }

  ghost predicate Unwritten(t: Tables, t': Tables) {
    && t'.objectives == t.objectives && t'.events == t.events
    && t'.journal == t.journal && t'.lastSequence == t.lastSequence
  }

  ghost predicate Written(t: Tables, t': Tables, req: Request, v: Verdict, draws: Draws) {
    && v.Proceed? && v.writes && Formed(t, req) && !req.action.IssueToken?
    && t'.objectives == t.objectives[TargetOf(req, draws) := ObjectiveRow(t, req, v, draws.now)]
    && t'.events == t.events + [ObjectiveEvent(TargetOf(req, draws), v.oldStatus, v.newStatus, draws.now)]
    && t'.journal == EventJournal.Append(t.journal, t.lastSequence, [Draft(TargetOf(req, draws), v.oldStatus)])
    && t'.lastSequence == t.lastSequence + 1
  }

  lemma AppliedWrites(t: Tables, req: Request, v: Verdict, draws: Draws)
    requires v.Proceed? && Formed(t, req)
    ensures var t' := Applied(t, req, v, draws); Unwritten(t, t') || Written(t, t', req, v, draws)
  {
    hide CancelTasks, CancelPlan, EventJournal.Append, ResponseOf, ObjectiveRow, CancelsPlan, KindOf;
  }

  /** A command writes at most one objective row and one event of each kind. */
  lemma AtomicWrites(t: Tables, req: Request, draws: Draws)
    ensures var t', v := Atomic(t, req, draws).0, Decide(t, req);
            Unwritten(t, t') || Written(t, t', req, v, draws)
  {
    hide Decide, Applied;
    var v := Decide(t, req);
    if v.Proceed? {
      DecideForms(t, req);
      AppliedWrites(t, req, v, draws);
    }
  }

  lemma AtomicKeepsTidy(t: Tables, req: Request, draws: Draws)
    requires Tidy(t)
    ensures Tidy(Atomic(t, req, draws).0)
  {
    hide Atomic, Decide, ObjectiveRow, EventJournal.Append;
    AtomicWrites(t, req, draws);
    var v := Decide(t, req);
    if Written(t, Atomic(t, req, draws).0, req, v, draws) {
      RowIsTidy(t, req, v, draws.now);
    }
  }

  /** A command the tables really executed, as opposed to a replay or a refusal. */
  ghost predicate Executes(t: Tables, req: Request, draws: Draws, name: CommandName, state: ObjectiveStatus) {
    && KeyOf(req) !in t.idempotency
    && req.action.Command? && req.action.name == name
    && var reply := Atomic(t, req, draws).1;
       reply.Accepted? && reply.response.OperationResponse? && reply.response.state == state
  }

  /** The objective is cancelled, and its whole plan is at rest. */
  ghost predicate AtRest(t: Tables, id: string, at: Time) {
    && id in t.objectives
    && t.objectives[id].status.Cancelled? && t.objectives[id].finishedAt == Some(at)
    && var plan := t.objectives[id].planId;
       plan.Some? ==>
         && (forall k :: k in t.tasks && t.tasks[k].planId == plan.value ==> TaskTerminal(t.tasks[k].status))
         && (plan.value in t.plans ==> PlanTerminal(t.plans[plan.value].status))
         && !HasActiveRun(t, plan) && !PointOfNoReturn(t, plan)
  }

  lemma CancelApplied(t: Tables, req: Request, draws: Draws)
    requires Executes(t, req, draws, Cancel, Cancelled)
    ensures var t' := Atomic(t, req, draws).0;
            var id := req.action.objectiveId;
            && req.action.Command? && id in t.objectives && id in t'.objectives
            && t'.objectives[id] == CancelledRow(t.objectives[id], Cancelled, draws.now)
            && t'.tasks == CancelTasks(t.tasks, t.objectives[id].planId, draws.now)
            && t'.plans == CancelPlan(t.plans, t.objectives[id].planId, draws.now)
            && t'.attempts == t.attempts && t'.runs == t.runs && t'.integrations == t.integrations
            && !HasRunningTask(t, t.objectives[id].planId) && !HasActiveRun(t, t.objectives[id].planId)
            && !PointOfNoReturn(t, t.objectives[id].planId)
  {
    hide HasRunningTask, HasActiveRun, PointOfNoReturn, ValidScope;
    hide CancelTasks, CancelPlan, CancelledRow, EventJournal.Append;
  }

  /** A cancel that commits CANCELLED leaves the objective's whole plan at rest. */
  lemma QuiescentCancel(t: Tables, req: Request, draws: Draws)
    requires Executes(t, req, draws, Cancel, Cancelled)
    ensures var t' := Atomic(t, req, draws).0;
            var id := req.action.objectiveId;
            AtRest(t', id, draws.now) && id in t.objectives && t'.objectives[id].planId == t.objectives[id].planId
  {
    hide Atomic, HasActiveRun, PointOfNoReturn;
    CancelApplied(t, req, draws);
    var t' := Atomic(t, req, draws).0;
    var plan := t.objectives[req.action.objectiveId].planId;
    if plan.Some? {
      forall k | k in t'.tasks && t'.tasks[k].planId == plan.value
        ensures TaskTerminal(t'.tasks[k].status)
      {
        assert k in t.tasks && t.tasks[k].planId == plan.value;
        assert !t.tasks[k].status.TaskRunning?;
      }
      RunsUntouched(t, t', plan.value);
    }
  }

  lemma RunsUntouched(t: Tables, t': Tables, planId: string)
    requires t'.attempts == t.attempts && t'.runs == t.runs && t'.integrations == t.integrations
    requires t'.tasks.Keys == t.tasks.Keys && forall k :: k in t.tasks ==> t'.tasks[k].planId == t.tasks[k].planId
    ensures HasActiveRun(t', Some(planId)) == HasActiveRun(t, Some(planId))
    ensures PointOfNoReturn(t', Some(planId)) == PointOfNoReturn(t, Some(planId))
  {
    assert forall a :: RunOfPlan(t', a, planId) == RunOfPlan(t, a, planId);
    assert forall r :: r in t.runs ==> Committed(t', r) == Committed(t, r);
  }

  /** What a cancel may touch: the target objective, and only when it commits
      CANCELLED the unfinished work of that objective's own plan. */
  lemma CancelTouchesOwnPlanOnly(t: Tables, req: Request, draws: Draws, state: ObjectiveStatus, k: string)
    requires Executes(t, req, draws, Cancel, state) && k in t.tasks
    ensures var t' := Atomic(t, req, draws).0;
            && k in t'.tasks
            && (t'.tasks[k] != t.tasks[k] <==>
                  && state.Cancelled? && t.objectives[req.action.objectiveId].planId == Some(t.tasks[k].planId)
                  && (t.tasks[k].status.TaskPending? || t.tasks[k].status.TaskReady? || t.tasks[k].status.TaskBlocked?))
  {
  }

  /** A pause that commits PAUSED saw no running task, unless the objective was
      paused already: then the command changes no objective at all. */
  lemma QuiescentPause(t: Tables, req: Request, draws: Draws)
    requires Executes(t, req, draws, Pause, Paused)
    ensures var t' := Atomic(t, req, draws).0;
            var o := t.objectives[req.action.objectiveId];
            && req.action.objectiveId in t.objectives
            && (if o.status.Paused? then t'.objectives == t.objectives && t'.journal == t.journal
                else !HasRunningTask(t', o.planId) && !o.status.Planning?)
  {
    hide HasActiveRun, PointOfNoReturn, ValidScope, CancelPlan, EventJournal.Append, ResumedStatus;
  }

  /** The already-paused case really does skip the check: whatever tasks run, a
      fresh pause of a paused objective is answered PAUSED and leaves them be. */
  lemma PauseAgainIgnoresRunningTasks(t: Tables, req: Request, draws: Draws)
    requires KeyOf(req) !in t.idempotency && draws.operationId !in t.operations
    requires req.action.Command? && req.action.name.Pause? && req.body.Reason?
    requires req.action.objectiveId in t.objectives && t.objectives[req.action.objectiveId].status.Paused?
    ensures Executes(t, req, draws, Pause, Paused)
    ensures var t' := Atomic(t, req, draws).0; t'.objectives == t.objectives && t'.tasks == t.tasks
  {
  }

  /** An accepted create adds exactly one objective, queued and without a plan,
      over distinct projects that exist and are enabled. */
  lemma CreateQueues(t: Tables, req: Request, draws: Draws)
    requires KeyOf(req) !in t.idempotency && req.action.Create? && Atomic(t, req, draws).1.Accepted?
    ensures var t' := Atomic(t, req, draws).0;
            && draws.objectiveId !in t.objectives && t'.objectives.Keys == t.objectives.Keys + {draws.objectiveId}
            && (forall id :: id in t.objectives ==> t'.objectives[id] == t.objectives[id])
            && var o := t'.objectives[draws.objectiveId];
               && o.status.Queued? && o.planId.None? && o.finishedAt.None? && o.scope != []
               && (forall i :: 0 <= i < |o.scope| ==> o.scope[i] in t.projects && t.projects[o.scope[i]])
               && (forall i, j :: 0 <= i < j < |o.scope| ==> o.scope[i] != o.scope[j])
  {
    var t' := Atomic(t, req, draws).0;
    AtomicWrites(t, req, draws);
    forall i | 0 <= i < |req.body.projects|
      ensures req.body.projects[i] in t.projects && t.projects[req.body.projects[i]]
    {
      assert req.body.projects[i] in req.body.projects;
    }
  }

  lemma TerminalRefuses(t: Tables, req: Request)
    requires req.action.Command? && req.action.objectiveId in t.objectives
    requires Terminal(t.objectives[req.action.objectiveId].status)
    ensures Decide(t, req).Refuse?
  {
    hide HasRunningTask, HasActiveRun, PointOfNoReturn, ValidScope;
  }

  /** A terminal objective never changes, and a command changes no objective but
      its own target. */
  lemma TerminalFrozen(t: Tables, req: Request, draws: Draws, id: string)
    requires id in t.objectives
    requires Terminal(t.objectives[id].status) || !(req.action.Command? && req.action.objectiveId == id)
    ensures var t' := Atomic(t, req, draws).0; id in t'.objectives && t'.objectives[id] == t.objectives[id]
  {
    hide Decide, Applied, ObjectiveRow, EventJournal.Append;
    AtomicWrites(t, req, draws);
    if Terminal(t.objectives[id].status) && req.action.Command? && req.action.objectiveId == id {
      TerminalRefuses(t, req);
    }
  }

  /** The status changes commands can make. */
  predicate Allowed(old_: ObjectiveStatus, new_: ObjectiveStatus) {
    || old_ == new_
    || (new_.PauseRequested? && (old_.Queued? || old_.Planning? || old_.Running?))
    || (new_.Paused? && (old_.Queued? || old_.Running? || old_.PauseRequested?))
    || (old_.Paused? && (new_.Queued? || new_.Running? || Terminal(new_)))
    || (new_.CancelRequested? && !Terminal(old_))
    || (new_.Cancelled? && !Terminal(old_) && !old_.Planning?)
  }

  lemma RowAllowed(t: Tables, req: Request, v: Verdict, now: Time)
    requires v.Proceed? && v == Decide(t, req) && v.writes && req.action.Command? && Formed(t, req)
    ensures var was, row := t.objectives[req.action.objectiveId], ObjectiveRow(t, req, v, now);
            && Allowed(was.status, row.status)
            && (was.status.CancelRequested? ==> row.status.CancelRequested? || row.status.Cancelled?)
  {
  }

  /** Commands move an objective only along allowed edges; in particular a
      requested cancellation can only stay or complete. */
  lemma AllowedTransitions(t: Tables, req: Request, draws: Draws, id: string)
    requires id in t.objectives
    ensures var t' := Atomic(t, req, draws).0;
            && id in t'.objectives
            && Allowed(t.objectives[id].status, t'.objectives[id].status)
            && (t.objectives[id].status.CancelRequested? ==>
                  t'.objectives[id].status.CancelRequested? || t'.objectives[id].status.Cancelled?)
  {
    hide Decide, Applied, ObjectiveRow, EventJournal.Append;
    AtomicWrites(t, req, draws);
    var t', v := Atomic(t, req, draws).0, Decide(t, req);
    if Written(t, t', req, v, draws) && TargetOf(req, draws) == id && req.action.Command? {
      RowAllowed(t, req, v, draws.now);
    }
  }

  /** A resumed objective follows its plan: it finishes if the plan has, runs if
      the plan is blocked on it, and queues otherwise. */
  lemma ResumeFollowsPlan(t: Tables, req: Request, draws: Draws, state: ObjectiveStatus)
    requires Executes(t, req, draws, Resume, state)
    ensures var o := t.objectives[req.action.objectiveId];
            && o.status.Paused?
            && (o.planId.None? ==> state.Queued?)
            && (o.planId.Some? ==>
                  && o.planId.value in t.plans
                  && (Terminal(state) <==> PlanTerminal(t.plans[o.planId.value].status))
                  && (state.Running? <==> t.plans[o.planId.value].status.PlanBlocked?)
                  && (state.Completed? <==> t.plans[o.planId.value].status.PlanCompleted?)
                  && (state.Failed? <==> t.plans[o.planId.value].status.PlanFailed?))
  {
    hide Applied, HasRunningTask, HasActiveRun, PointOfNoReturn, ValidScope;
  }

  /** The journal stays consistent and gains one event exactly when the
      objective's own event table does. */
  lemma AtomicKeepsJournal(t: Tables, req: Request, draws: Draws)
    requires EventJournal.Consistent(t.journal, t.lastSequence)
    ensures var t' := Atomic(t, req, draws).0;
            && EventJournal.Consistent(t'.journal, t'.lastSequence)
            && t.journal <= t'.journal && t.events <= t'.events
            && |t'.journal| - |t.journal| == |t'.events| - |t.events| <= 1
  {
    hide Atomic, ObjectiveRow, EventJournal.Append;
    AtomicWrites(t, req, draws);
    var drafts := [Draft(TargetOf(req, draws), if Decide(t, req).Proceed? then Decide(t, req).oldStatus else None)];
    EventJournal.AppendKeepsConsistent(t.journal, t.lastSequence, drafts);
    EventJournal.AppendExtends(t.journal, t.lastSequence, drafts);
  }
}
