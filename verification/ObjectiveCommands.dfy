/** The objective commands as they run: one transaction in small steps on a
    private working copy, under the database's single writer lock, with a
    failure possible before every step and any number of clients retrying. The
    system refines the atomic transition of `ObjectiveTables`, and therefore
    executes each (session, key) at most once. */
module ObjectiveCommands {
  import opened Wrappers
  import opened ObjectiveTables
  import opened ObjectiveLifecycle
  import EventJournal

  // ----- The sub-steps of a transaction -------------------------------------------

  function Opened(t: Tables, req: Request): Tables {
    t.(idempotency := t.idempotency[KeyOf(req) := Reservation(req.route, req.body, None, None)])
  }

  function CancelledPlan(t: Tables, req: Request, v: Verdict): Option<string> {
    if CancelsPlan(t, req, v) then t.objectives[req.action.objectiveId].planId else None
  }

  function WithTasks(t: Tables, req: Request, v: Verdict, now: Time): Tables {
    t.(tasks := CancelTasks(t.tasks, CancelledPlan(t, req, v), now))
  }

  function WithPlans(t: Tables, req: Request, v: Verdict, now: Time): Tables {
    t.(plans := CancelPlan(t.plans, CancelledPlan(t, req, v), now))
  }

  function WithObjective(t: Tables, req: Request, v: Verdict, draws: Draws): Tables
    requires v.Proceed? && Formed(t, req) && !req.action.IssueToken?
  {
    if v.writes then t.(objectives := t.objectives[TargetOf(req, draws) := ObjectiveRow(t, req, v, draws.now)]) else t
  }

  function WithEvent(t: Tables, req: Request, v: Verdict, draws: Draws): Tables
    requires v.Proceed?
  {
    if v.writes then
      t.(events := t.events + [ObjectiveEvent(TargetOf(req, draws), v.oldStatus, v.newStatus, draws.now)])
    else t
  }

  function WithJournal(t: Tables, req: Request, v: Verdict, draws: Draws): Tables
    requires v.Proceed?
  {
    if v.writes then
      t.(journal := EventJournal.Append(t.journal, t.lastSequence, [Draft(TargetOf(req, draws), v.oldStatus)]),
         lastSequence := t.lastSequence + 1)
    else t
  }

  function WithOperation(t: Tables, req: Request, v: Verdict, draws: Draws): Tables
    requires v.Proceed?
  {
    t.(operations :=
         t.operations[draws.operationId := Operation(KindOf(req), TargetOf(req, draws), v.newStatus, draws.now)])
  }

  function WithAudit(t: Tables, req: Request, draws: Draws): Tables {
    t.(audit := t.audit +
         [AuditRow(draws.operationId, KindOf(req), TargetOf(req, draws), KeyOf(req), req.route, req.body)])
  }

  function WithResponse(t: Tables, req: Request, v: Verdict, draws: Draws): Tables
    requires v.Proceed?
  {
    var op := if req.action.IssueToken? then None else Some(draws.operationId);
    t.(idempotency := t.idempotency[KeyOf(req) :=
         Reservation(req.route, req.body, Some(ResponseOf(req, v, draws)), op)])
  }

  // ----- The transaction as a machine ------------------------------------------------

  /** The position inside the transaction; each names the next sub-step. */
  datatype Stage =
    | Reserve | Validate | CancelTaskRows | CancelPlanRow | WriteObjective | WriteEvent
    | EmitJournal | RecordOperation | RecordAudit | Complete | CommitWork

  /** The sub-steps that only write rows. */
  predicate Writes(stage: Stage) {
    !stage.Reserve? && !stage.Validate? && !stage.CommitWork?
  }

  function Effect(stage: Stage, t: Tables, req: Request, v: Verdict, draws: Draws): (t': Tables)
    requires Writes(stage) && v.Proceed? && Formed(t, req)
    requires req.action.IssueToken? ==> stage.Complete?
    ensures !stage.WriteObjective? ==> t'.objectives == t.objectives
    ensures !stage.RecordOperation? ==> t'.operations == t.operations
    ensures Formed(t', req)
  {
    match stage
    case CancelTaskRows => WithTasks(t, req, v, draws.now)
    case CancelPlanRow => WithPlans(t, req, v, draws.now)
    case WriteObjective => WithObjective(t, req, v, draws)
    case WriteEvent => WithEvent(t, req, v, draws)
    case EmitJournal => WithJournal(t, req, v, draws)
    case RecordOperation => WithOperation(t, req, v, draws)
    case RecordAudit => WithAudit(t, req, draws)
    case Complete => WithResponse(t, req, v, draws)
  }

  function After(stage: Stage): Stage
    requires Writes(stage)
  {
    match stage
    case CancelTaskRows => CancelPlanRow
    case CancelPlanRow => WriteObjective
    case WriteObjective => WriteEvent
    case WriteEvent => EmitJournal
    case EmitJournal => RecordOperation
    case RecordOperation => RecordAudit
    case RecordAudit => Complete
    case Complete => CommitWork
  }

  function Before(stage: Stage): (s: Stage)
    requires !stage.Reserve? && !stage.Validate? && !stage.CancelTaskRows?
    ensures Writes(s) && After(s) == stage && Rank(s) < Rank(stage)
  {
    match stage
    case CancelPlanRow => CancelTaskRows
    case WriteObjective => CancelPlanRow
    case WriteEvent => WriteObjective
    case EmitJournal => WriteEvent
    case RecordOperation => EmitJournal
    case RecordAudit => RecordOperation
    case Complete => RecordAudit
    case CommitWork => Complete
  }

  function Rank(stage: Stage): nat {
    match stage
    case Reserve => 0
    case Validate => 1
    case CancelTaskRows => 2
    case CancelPlanRow => 3
    case WriteObjective => 4
    case WriteEvent => 5
    case EmitJournal => 6
    case RecordOperation => 7
    case RecordAudit => 8
    case Complete => 9
    case CommitWork => 10
  }

  /** The primary-key violations a sub-step can run into. */
  predicate Violates(stage: Stage, t: Tables, req: Request, draws: Draws) {
    || (stage.WriteObjective? && req.action.Create? && draws.objectiveId in t.objectives)
    || (stage.RecordOperation? && draws.operationId in t.operations)
  }

  /** The lock holder: its request, its private copy and what it has decided. */
  datatype Worker = Worker(req: Request, draws: Draws, stage: Stage, verdict: Verdict, work: Tables)

  datatype Progress =
    | Continue(worker: Worker)
    | Commit(tables: Tables, reply: Reply, executed: bool)
    | Rollback(reply: Reply)

  /** `Advance` may be called on this worker. */
  predicate Runnable(w: Worker) {
    && (!w.stage.Reserve? && !w.stage.Validate? ==> w.verdict.Proceed? && Formed(w.work, w.req))
    && (Writes(w.stage) && w.req.action.IssueToken? ==> w.stage.Complete?)
  }

  function Advance(w: Worker): Progress
    requires Runnable(w)
  {
    match w.stage
    case Reserve =>
      if KeyOf(w.req) in w.work.idempotency then
        var r := w.work.idempotency[KeyOf(w.req)];
        if r.route != w.req.route || r.body != w.req.body then Rollback(Refused(409, "idempotency_conflict"))
        else if r.response.None? then Rollback(Refused(409, "command_in_progress"))
        else Commit(w.work, Accepted(r.response.value), false)
      else Continue(w.(stage := Validate, work := Opened(w.work, w.req)))
    case Validate =>
      var v := Decide(w.work, w.req);
      (match v
       case Refuse(status, code) => Rollback(Refused(status, code))
       case Proceed(_, _, _) =>
         Continue(w.(stage := if w.req.action.IssueToken? then Complete else CancelTaskRows, verdict := v)))
    case CommitWork =>
      Commit(w.work, Accepted(ResponseOf(w.req, w.verdict, w.draws)), true)
    case _ =>
      if Violates(w.stage, w.work, w.req, w.draws) then Rollback(Refused(500, "internal_error"))
      else Continue(w.(stage := After(w.stage), work := Effect(w.stage, w.work, w.req, w.verdict, w.draws)))
  }

  predicate PastOperation(stage: Stage) { Rank(stage) > Rank(RecordOperation) }

  predicate PastObjective(stage: Stage) { Rank(stage) > Rank(WriteObjective) }

  /** The working copy when a command that goes through reaches `stage`. */
  function WorkAt(base: Tables, req: Request, v: Verdict, draws: Draws, stage: Stage): (t: Tables)
    requires v.Proceed? && Formed(base, req) && !req.action.IssueToken? && !stage.Reserve?
    ensures !PastObjective(stage) ==> t.objectives == base.objectives
    ensures !PastOperation(stage) ==> t.operations == base.operations
    ensures Formed(t, req)
    decreases Rank(stage)
  {
    hide Effect;
    if stage.Validate? || stage.CancelTaskRows? then Opened(base, req)
    else Effect(Before(stage), WorkAt(base, req, v, draws, Before(stage)), req, v, draws)
  }

  // ----- Facts about the sub-steps -------------------------------------------------------

  lemma QueriesIgnoreReservations(t: Tables, t': Tables, planId: Option<string>)
    requires t' == t.(idempotency := t'.idempotency)
    ensures HasRunningTask(t', planId) == HasRunningTask(t, planId)
    ensures HasActiveRun(t', planId) == HasActiveRun(t, planId)
    ensures PointOfNoReturn(t', planId) == PointOfNoReturn(t, planId)
  {
    assert forall a, p :: RunOfPlan(t', a, p) == RunOfPlan(t, a, p);
    assert forall r :: IntegrationBegun(t', r) == IntegrationBegun(t, r);
    assert forall r :: r in t.runs ==> Committed(t', r) == Committed(t, r);
  }

  lemma DecisionsIgnoreReservations(t: Tables, t': Tables, o: Objective)
    requires t' == t.(idempotency := t'.idempotency)
    ensures DecidePause(t', o) == DecidePause(t, o) && DecideResume(t', o) == DecideResume(t, o)
    ensures DecideCancel(t', o) == DecideCancel(t, o)
  {
    hide HasRunningTask, HasActiveRun, PointOfNoReturn;
    QueriesIgnoreReservations(t, t', o.planId);
  }

  /** Validation does not read the idempotency table. */
  lemma DecideIgnoresReservation(t: Tables, req: Request)
    ensures Decide(Opened(t, req), req) == Decide(t, req)
  {
    hide DecidePause, DecideResume, DecideCancel, DecideCreate, ValidScope;
    if req.action.Command? && req.action.objectiveId in t.objectives {
      DecisionsIgnoreReservations(t, Opened(t, req), t.objectives[req.action.objectiveId]);
    }
  }

  lemma BeforeAfter(stage: Stage)
    requires Writes(stage)
    ensures Before(After(stage)) == stage && Rank(After(stage)) == Rank(stage) + 1
  {
  }

  lemma WorkStep(base: Tables, req: Request, v: Verdict, draws: Draws, stage: Stage)
    requires v.Proceed? && Formed(base, req) && !req.action.IssueToken? && Writes(stage)
    ensures WorkAt(base, req, v, draws, After(stage))
         == Effect(stage, WorkAt(base, req, v, draws, stage), req, v, draws)
  {
    BeforeAfter(stage);
  }

  lemma WorkStart(base: Tables, req: Request, v: Verdict, draws: Draws)
    requires v.Proceed? && Formed(base, req) && !req.action.IssueToken?
    ensures WorkAt(base, req, v, draws, CancelTaskRows) == Opened(base, req)
  {
  }

  lemma StopSteps(base: Tables, req: Request, v: Verdict, draws: Draws)
    requires v.Proceed? && Formed(base, req) && !req.action.IssueToken?
    ensures var planId := CancelledPlan(base, req, v);
            WorkAt(base, req, v, draws, WriteObjective)
            == Opened(base, req).(tasks := CancelTasks(base.tasks, planId, draws.now),
                                  plans := CancelPlan(base.plans, planId, draws.now))
  {
    hide WorkAt, CancelTasks, CancelPlan;
    WorkStart(base, req, v, draws);
    WorkStep(base, req, v, draws, CancelTaskRows);
    WorkStep(base, req, v, draws, CancelPlanRow);
  }

  lemma PlanSteps(base: Tables, req: Request, v: Verdict, draws: Draws)
    requires v.Proceed? && Formed(base, req) && !req.action.IssueToken?
    ensures var applied := Applied(base, req, v, draws);
            WorkAt(base, req, v, draws, WriteObjective)
            == Opened(base, req).(tasks := applied.tasks, plans := applied.plans)
  {
    StopSteps(base, req, v, draws);
  }

  lemma RowChain(base: Tables, req: Request, v: Verdict, draws: Draws)
    requires v.Proceed? && Formed(base, req) && !req.action.IssueToken?
    ensures var before := WorkAt(base, req, v, draws, WriteObjective);
            WorkAt(base, req, v, draws, RecordOperation)
            == WithJournal(WithEvent(WithObjective(before, req, v, draws), req, v, draws), req, v, draws)
  {
    hide WorkAt, WithObjective, WithEvent, WithJournal;
    WorkStep(base, req, v, draws, WriteObjective);
    WorkStep(base, req, v, draws, WriteEvent);
    WorkStep(base, req, v, draws, EmitJournal);
  }

  lemma RowsAreApplied(base: Tables, before: Tables, req: Request, v: Verdict, draws: Draws)
    requires v.Proceed? && Formed(base, req) && !req.action.IssueToken?
    requires before == base.(idempotency := before.idempotency, tasks := before.tasks, plans := before.plans)
    ensures var applied := Applied(base, req, v, draws);
            WithJournal(WithEvent(WithObjective(before, req, v, draws), req, v, draws), req, v, draws)
            == before.(objectives := applied.objectives, events := applied.events,
                       journal := applied.journal, lastSequence := applied.lastSequence)
  {
    hide CancelTasks, CancelPlan, EventJournal.Append, ResponseOf;
  }

  lemma RowSteps(base: Tables, req: Request, v: Verdict, draws: Draws)
    requires v.Proceed? && Formed(base, req) && !req.action.IssueToken?
    ensures var applied := Applied(base, req, v, draws);
            WorkAt(base, req, v, draws, RecordOperation)
            == WorkAt(base, req, v, draws, WriteObjective).(
                 objectives := applied.objectives, events := applied.events,
                 journal := applied.journal, lastSequence := applied.lastSequence)
  {
    StopSteps(base, req, v, draws);
    RowChain(base, req, v, draws);
    RowsAreApplied(base, WorkAt(base, req, v, draws, WriteObjective), req, v, draws);
  }

  lemma LedgerSteps(base: Tables, req: Request, v: Verdict, draws: Draws)
    requires v.Proceed? && Formed(base, req) && !req.action.IssueToken?
    ensures var applied := Applied(base, req, v, draws);
            WorkAt(base, req, v, draws, Complete)
            == WorkAt(base, req, v, draws, RecordOperation).(operations := applied.operations, audit := applied.audit)
  {
    hide WorkAt, ResponseOf, CancelTasks, CancelPlan;
    WorkStep(base, req, v, draws, RecordOperation);
    WorkStep(base, req, v, draws, RecordAudit);
    RowSteps(base, req, v, draws);
    PlanSteps(base, req, v, draws);
  }

  /** All sub-steps together are the atomic effect. */
  lemma StepsMakeApplied(base: Tables, req: Request, v: Verdict, draws: Draws)
    requires v.Proceed? && Formed(base, req) && !req.action.IssueToken?
    ensures WorkAt(base, req, v, draws, CommitWork) == Applied(base, req, v, draws)
  {
    hide WorkAt, CancelTasks, CancelPlan, EventJournal.Append, ResponseOf;
    WorkStep(base, req, v, draws, Complete);
    PlanSteps(base, req, v, draws);
    RowSteps(base, req, v, draws);
    LedgerSteps(base, req, v, draws);
    var r0 := Reservation(req.route, req.body, None, None);
    var r1 := Reservation(req.route, req.body, Some(ResponseOf(req, v, draws)), Some(draws.operationId));
    assert base.idempotency[KeyOf(req) := r0][KeyOf(req) := r1] == base.idempotency[KeyOf(req) := r1];
  }

  /** The tail of a command, from the rows to the atomic effect. */
  lemma TailMakesApplied(base: Tables, req: Request, v: Verdict, draws: Draws)
    requires v.Proceed? && Formed(base, req) && !req.action.IssueToken?
    ensures var rows := WorkAt(base, req, v, draws, RecordOperation);
            && rows.operations == base.operations
            && WithResponse(WithAudit(WithOperation(rows, req, v, draws), req, draws), req, v, draws)
               == Applied(base, req, v, draws)
  {
    hide WorkAt, Applied, WithOperation, WithAudit, WithResponse;
    WorkStep(base, req, v, draws, RecordOperation);
    WorkStep(base, req, v, draws, RecordAudit);
    WorkStep(base, req, v, draws, Complete);
    StepsMakeApplied(base, req, v, draws);
  }

  // ----- The system -----------------------------------------------------------------------

  datatype Outcome = Outcome(req: Request, reply: Reply, executed: bool)

  /** Committed tables, the holder of the write lock if any, and every reply
      given so far. */
  datatype System = System(committed: Tables, writer: Option<Worker>, outcomes: seq<Outcome>)

  /** A client's request takes the lock, the holder takes one sub-step, the
      holder fails, or the orchestrator commits changes of its own. */
  datatype Step =
    | Begin(req: Request, draws: Draws)
    | SubStep
    | Fail(status: int, code: string)
    | Environment(tables: Tables)

  /** What the orchestrator may do: anything to plans, tasks, runs, projects and
      objectives, as long as it keeps `finished_at` and the journal in order and
      stays out of the command tables. */
  ghost predicate EnvironmentMay(t: Tables, t': Tables) {
    && t'.idempotency == t.idempotency && t'.operations == t.operations && t'.audit == t.audit
    && (Tidy(t) ==> Tidy(t'))
    && (EventJournal.Consistent(t.journal, t.lastSequence) ==> EventJournal.Consistent(t'.journal, t'.lastSequence))
  }

  ghost predicate WorkerOk(base: Tables, w: Worker) {
    match w.stage
    case Reserve => w.work == base
    case Validate => KeyOf(w.req) !in base.idempotency && w.work == Opened(base, w.req)
    case _ =>
      && KeyOf(w.req) !in base.idempotency
      && w.verdict.Proceed? && w.verdict == Decide(base, w.req) && Formed(base, w.req)
      && (if w.req.action.IssueToken? then TokenWork(base, w) else CommandWork(base, w))
  }

  ghost predicate TokenWork(base: Tables, w: Worker)
    requires w.verdict.Proceed?
  {
    || (w.stage.Complete? && w.work == Opened(base, w.req))
    || (w.stage.CommitWork? && w.work == WithResponse(Opened(base, w.req), w.req, w.verdict, w.draws))
  }

  ghost predicate CommandWork(base: Tables, w: Worker)
    requires w.verdict.Proceed? && Formed(base, w.req) && !w.req.action.IssueToken? && !w.stage.Reserve?
  {
    && w.work == WorkAt(base, w.req, w.verdict, w.draws, w.stage)
    && (PastObjective(w.stage) ==> !(w.req.action.Create? && w.draws.objectiveId in base.objectives))
    && (PastOperation(w.stage) ==> w.draws.operationId !in base.operations)
  }

  lemma WorkerIsFormed(base: Tables, w: Worker)
    requires WorkerOk(base, w)
    ensures Runnable(w)
  {
    hide Decide, WorkAt;
  }

  ghost predicate Isolated(s: System) {
    s.writer.Some? ==> WorkerOk(s.committed, s.writer.value)
  }

  function Refusing(s: System, req: Request, status: int, code: string): System {
    s.(writer := None, outcomes := s.outcomes + [Outcome(req, Refused(status, code), false)])
  }

  ghost function Next(s: System, step: Step): System
    requires Isolated(s)
  {
    match step
    case Begin(req, draws) =>
      if s.writer.Some? then s
      else s.(writer := Some(Worker(req, draws, Reserve, Refuse(0, ""), s.committed)))
    case SubStep =>
      if s.writer.None? then s
      else
        var w := s.writer.value;
        WorkerIsFormed(s.committed, w);
        (match Advance(w)
         case Continue(w') => s.(writer := Some(w'))
         case Commit(tables, reply, executed) =>
           System(tables, None, s.outcomes + [Outcome(w.req, reply, executed)])
         case Rollback(reply) =>
           s.(writer := None, outcomes := s.outcomes + [Outcome(w.req, reply, false)]))
    case Fail(status, code) =>
      if s.writer.None? then s else Refusing(s, s.writer.value.req, status, code)
    case Environment(tables) =>
      if s.writer.None? && EnvironmentMay(s.committed, tables) then s.(committed := tables) else s
  }

  // ----- Refinement -------------------------------------------------------------------------

  lemma ReserveOrValidateKeepsOk(base: Tables, w: Worker)
    requires WorkerOk(base, w) && (w.stage.Reserve? || w.stage.Validate?)
    ensures Advance(w).Continue? ==> WorkerOk(base, Advance(w).worker)
  {
    if w.stage.Validate? {
      DecideIgnoresReservation(base, w.req);
      if Decide(base, w.req).Proceed? { DecideForms(base, w.req); }
    }
  }

  /** The key checks made on the way are about the tables the transaction began with. */
  lemma KeysStayFree(base: Tables, w: Worker)
    requires WorkerOk(base, w) && Writes(w.stage) && !w.req.action.IssueToken?
    requires !Violates(w.stage, w.work, w.req, w.draws)
    ensures PastObjective(After(w.stage)) ==> !(w.req.action.Create? && w.draws.objectiveId in base.objectives)
    ensures PastOperation(After(w.stage)) ==> w.draws.operationId !in base.operations
  {
    hide Decide, Effect, WorkAt;
  }

  lemma CommandWriteKeepsOk(base: Tables, w: Worker)
    requires WorkerOk(base, w) && Runnable(w) && Writes(w.stage) && !w.req.action.IssueToken?
    ensures Advance(w).Continue? ==> WorkerOk(base, Advance(w).worker)
  {
    hide Decide, Effect;
    if Advance(w).Continue? {
      KeysStayFree(base, w);
      WorkStep(base, w.req, w.verdict, w.draws, w.stage);
    }
  }

  lemma WriteKeepsOk(base: Tables, w: Worker)
    requires WorkerOk(base, w) && Runnable(w) && Writes(w.stage)
    ensures Advance(w).Continue? ==> WorkerOk(base, Advance(w).worker)
  {
    if !w.req.action.IssueToken? { CommandWriteKeepsOk(base, w); }
  }

  lemma ContinueKeepsOk(base: Tables, w: Worker)
    requires WorkerOk(base, w) && Runnable(w)
    ensures Advance(w).Continue? ==> WorkerOk(base, Advance(w).worker)
  {
    if w.stage.Reserve? || w.stage.Validate? { ReserveOrValidateKeepsOk(base, w); }
    else if Writes(w.stage) { WriteKeepsOk(base, w); }
  }

  /** Every way a transaction can end agrees with the atomic transition: what
      it commits is the atomic result, what it refuses changes nothing. */
  ghost predicate EndsLike(base: Tables, w: Worker)
    requires Runnable(w)
  {
    match Advance(w)
    case Continue(_) => true
    case Commit(tables, reply, executed) =>
      && (tables, reply) == Atomic(base, w.req, w.draws)
      && reply.Accepted? && (executed <==> KeyOf(w.req) !in base.idempotency)
    case Rollback(reply) => (base, reply) == Atomic(base, w.req, w.draws) && reply.Refused?
  }

  lemma CollisionEndsLike(base: Tables, w: Worker)
    requires WorkerOk(base, w) && Runnable(w) && (w.stage.WriteObjective? || w.stage.RecordOperation?)
    ensures EndsLike(base, w)
  {
    hide Decide, WorkAt, Applied;
  }

  lemma TokenCommitEndsLike(base: Tables, w: Worker)
    requires WorkerOk(base, w) && Runnable(w) && w.stage.CommitWork? && w.req.action.IssueToken?
    ensures EndsLike(base, w)
  {
    hide Decide;
    var r0 := Reservation(w.req.route, w.req.body, None, None);
    var r1 := Reservation(w.req.route, w.req.body, Some(ResponseOf(w.req, w.verdict, w.draws)), None);
    assert base.idempotency[KeyOf(w.req) := r0][KeyOf(w.req) := r1] == base.idempotency[KeyOf(w.req) := r1];
  }

  lemma CommandCommitEndsLike(base: Tables, w: Worker)
    requires WorkerOk(base, w) && Runnable(w) && w.stage.CommitWork? && !w.req.action.IssueToken?
    ensures EndsLike(base, w)
  {
    hide Decide, WorkAt, Applied;
    StepsMakeApplied(base, w.req, w.verdict, w.draws);
  }

  lemma CommitEndsLike(base: Tables, w: Worker)
    requires WorkerOk(base, w) && Runnable(w) && w.stage.CommitWork?
    ensures EndsLike(base, w)
  {
    hide WorkerOk, Runnable, EndsLike;
    if w.req.action.IssueToken? { TokenCommitEndsLike(base, w); } else { CommandCommitEndsLike(base, w); }
  }

  lemma EndingsAreAtomic(base: Tables, w: Worker)
    requires WorkerOk(base, w) && Runnable(w)
    ensures EndsLike(base, w)
  {
    if w.stage.Validate? { DecideIgnoresReservation(base, w.req); }
    else if w.stage.WriteObjective? || w.stage.RecordOperation? { CollisionEndsLike(base, w); }
    else if w.stage.CommitWork? { CommitEndsLike(base, w); }
  }

  /** One small step is one step of the atomic specification or none: the
      committed tables move only by a whole command or by the orchestrator. */
  ghost predicate Simulates(s: System, step: Step, s': System) {
    || (s'.committed == s.committed && s'.outcomes == s.outcomes)
    || (step.Environment? && EnvironmentMay(s.committed, s'.committed) && s'.outcomes == s.outcomes)
    || (step.Fail? && s'.committed == s.committed && s.writer.Some?
        && s'.outcomes == s.outcomes + [Outcome(s.writer.value.req, Refused(step.status, step.code), false)])
    || (s.writer.Some?
        && var w := s.writer.value;
           var (tables, reply) := Atomic(s.committed, w.req, w.draws);
           && s'.committed == tables
           && s'.outcomes == s.outcomes
              + [Outcome(w.req, reply, reply.Accepted? && KeyOf(w.req) !in s.committed.idempotency)])
  }

  lemma StepRefines(s: System, step: Step)
    requires Isolated(s)
    ensures Isolated(Next(s, step)) && Simulates(s, step, Next(s, step))
  {
    hide Decide, Atomic, WorkAt, Effect;
    if step.SubStep? && s.writer.Some? {
      var w := s.writer.value;
      WorkerIsFormed(s.committed, w);
      ContinueKeepsOk(s.committed, w);
      EndingsAreAtomic(s.committed, w);
    }
  }

  // ----- Whole runs -------------------------------------------------------------------------

  /** What holds of the committed tables and the replies in every reachable state. */
  ghost predicate Inv(s: System) {
    && Isolated(s)
    && Ledger(s.committed)
    && Tidy(s.committed)
    && EventJournal.Consistent(s.committed.journal, s.committed.lastSequence)
    && (forall i :: 0 <= i < |s.outcomes| ==> Backed(s.committed, s.outcomes[i]))
    && (forall i, j :: 0 <= i < j < |s.outcomes| ==> !Twice(s.outcomes[i], s.outcomes[j]))
  }

  /** An accepted reply is the response stored for its session and key. */
  ghost predicate Backed(t: Tables, o: Outcome) {
    o.reply.Accepted? ==>
      && KeyOf(o.req) in t.idempotency
      && var r := t.idempotency[KeyOf(o.req)];
         r.route == o.req.route && r.body == o.req.body && r.response == Some(o.reply.response)
  }

  ghost predicate Twice(first: Outcome, later: Outcome) {
    KeyOf(first.req) == KeyOf(later.req) && first.reply.Accepted? && later.executed
  }

  /** Committed reservations are permanent. */
  ghost predicate Grows(t: Tables, t': Tables) {
    forall k :: k in t.idempotency ==> k in t'.idempotency && t'.idempotency[k] == t.idempotency[k]
  }

  lemma AtomicGrows(t: Tables, req: Request, draws: Draws)
    ensures Grows(t, Atomic(t, req, draws).0)
  {
    if KeyOf(req) !in t.idempotency && Decide(t, req).Proceed? {
      DecideForms(t, req);
      AppliedStores(t, req, Decide(t, req), draws);
      assert t.idempotency - {KeyOf(req)} == t.idempotency;
    }
  }

  /** The stored reservation after a command that went through. */
  lemma AppliedStores(t: Tables, req: Request, v: Verdict, draws: Draws)
    requires v.Proceed? && Formed(t, req)
    ensures var t' := Applied(t, req, v, draws);
            && KeyOf(req) in t'.idempotency
            && var r := t'.idempotency[KeyOf(req)];
               r.route == req.route && r.body == req.body && r.response == Some(ResponseOf(req, v, draws))
    ensures Grows(t.(idempotency := t.idempotency - {KeyOf(req)}), Applied(t, req, v, draws))
  {
    hide CancelTasks, CancelPlan, EventJournal.Append, ResponseOf;
  }

  lemma AtomicIsBacked(t: Tables, req: Request, draws: Draws)
    ensures var (t', reply) := Atomic(t, req, draws);
            Backed(t', Outcome(req, reply, reply.Accepted? && KeyOf(req) !in t.idempotency))
  {
    if KeyOf(req) !in t.idempotency && Decide(t, req).Proceed? {
      DecideForms(t, req);
      AppliedStores(t, req, Decide(t, req), draws);
    }
  }

  lemma OutcomeKeepsInv(s: System, t': Tables, o: Outcome)
    requires Inv(s) && Grows(s.committed, t') && Backed(t', o)
    requires o.executed ==> KeyOf(o.req) !in s.committed.idempotency
    ensures var outcomes := s.outcomes + [o];
            && (forall i :: 0 <= i < |outcomes| ==> Backed(t', outcomes[i]))
            && (forall i, j :: 0 <= i < j < |outcomes| ==> !Twice(outcomes[i], outcomes[j]))
  {
    var outcomes := s.outcomes + [o];
    forall i | 0 <= i < |outcomes|
      ensures Backed(t', outcomes[i])
    {
      assert i < |s.outcomes| ==> outcomes[i] == s.outcomes[i] && Backed(s.committed, s.outcomes[i]);
    }
    forall i, j | 0 <= i < j < |outcomes|
      ensures !Twice(outcomes[i], outcomes[j])
    {
      assert outcomes[i] == s.outcomes[i] && Backed(s.committed, s.outcomes[i]);
      assert j < |s.outcomes| ==> outcomes[j] == s.outcomes[j];
    }
  }

  lemma CommittedKeepsInv(t: Tables, req: Request, draws: Draws)
    requires Ledger(t) && Tidy(t) && EventJournal.Consistent(t.journal, t.lastSequence)
    ensures var t' := Atomic(t, req, draws).0;
            Ledger(t') && Tidy(t') && EventJournal.Consistent(t'.journal, t'.lastSequence)
  {
    AtomicKeepsLedger(t, req, draws);
    AtomicKeepsTidy(t, req, draws);
    AtomicKeepsJournal(t, req, draws);
  }

  lemma StepKeepsInv(s: System, step: Step)
    requires Inv(s)
    ensures Inv(Next(s, step)) && Grows(s.committed, Next(s, step).committed)
  {
    hide Atomic, Isolated;
    var s' := Next(s, step);
    StepRefines(s, step);
    if s'.outcomes == s.outcomes {
      assert forall o :: Backed(s.committed, o) ==> Backed(s'.committed, o);
    } else if step.Fail? {
      OutcomeKeepsInv(s, s'.committed, Outcome(s.writer.value.req, Refused(step.status, step.code), false));
    } else {
      var w := s.writer.value;
      var (t', reply) := Atomic(s.committed, w.req, w.draws);
      CommittedKeepsInv(s.committed, w.req, w.draws);
      AtomicGrows(s.committed, w.req, w.draws);
      AtomicIsBacked(s.committed, w.req, w.draws);
      OutcomeKeepsInv(s, t', Outcome(w.req, reply, reply.Accepted? && KeyOf(w.req) !in s.committed.idempotency));
    }
  }

  ghost function Run(s: System, steps: seq<Step>): (end: System)
    requires Isolated(s)
    ensures Isolated(end)
    decreases |steps|
  {
    if steps == [] then s
    else
      StepRefines(s, steps[0]);
      Run(Next(s, steps[0]), steps[1..])
  }

  lemma {:induction false} RunKeepsInv(s: System, steps: seq<Step>)
    requires Inv(s)
    ensures Inv(Run(s, steps)) && Grows(s.committed, Run(s, steps).committed)
    decreases |steps|
  {
    if steps == [] {
    } else {
      StepKeepsInv(s, steps[0]);
      RunKeepsInv(Next(s, steps[0]), steps[1..]);
    }
  }

  ghost predicate Initial(s: System) {
    && s.writer.None? && s.outcomes == []
    && Ledger(s.committed) && Tidy(s.committed)
    && EventJournal.Consistent(s.committed.journal, s.committed.lastSequence)
  }

  function EmptyTables(): Tables {
    Tables(map[], map[], [], map[], map[], map[], {}, map[], {}, map[], [], [], 0)
  }

  /** The empty database starts a run. */
  lemma EmptyStarts()
    ensures Initial(System(EmptyTables(), None, []))
  {
  }

  lemma {:induction false} RunConcat(s: System, a: seq<Step>, b: seq<Step>)
    requires Isolated(s)
    ensures Run(s, a + b) == Run(Run(s, a), b)
    decreases |a|
  {
    if a == [] {
      assert a + b == b;
    } else {
      StepRefines(s, a[0]);
      RunConcat(Next(s, a[0]), a[1..], b);
      assert (a + b)[1..] == a[1..] + b;
    }
  }

  lemma RunOne(s: System, step: Step)
    requires Isolated(s)
    ensures Run(s, [step]) == Next(s, step)
  {
    StepRefines(s, step);
    assert Run(Next(s, step), []) == Next(s, step);
  }

  // ----- Undisturbed requests -------------------------------------------------------------------

  function SubSteps(n: nat): seq<Step> {
    if n == 0 then [] else [SubStep] + SubSteps(n - 1)
  }

  /** The lock holder's last state before it ends, for the same request. */
  ghost predicate Ending(s: System, end: System, req: Request, draws: Draws)
    requires Isolated(end)
  {
    && end.writer.Some? && end.writer.value.req == req && end.writer.value.draws == draws
    && end.committed == s.committed && end.outcomes == s.outcomes
    && Next(end, SubStep).writer.None?
  }

  lemma AdvanceMoves(w: Worker)
    requires Runnable(w) && Advance(w).Continue?
    ensures Rank(w.stage) < Rank(Advance(w).worker.stage) <= 10
    ensures Advance(w).worker.req == w.req && Advance(w).worker.draws == w.draws
  {
    hide Decide, Effect;
  }

  /** One sub-step of the lock holder moves it on or ends it. */
  lemma SubStepMoves(s: System)
    requires Isolated(s) && s.writer.Some?
    ensures var w, s' := s.writer.value, Next(s, SubStep);
            s'.writer.Some? ==>
              && Rank(w.stage) < Rank(s'.writer.value.stage) <= 10
              && s'.writer.value.req == w.req && s'.writer.value.draws == w.draws
              && s'.committed == s.committed && s'.outcomes == s.outcomes
  {
    hide Advance, WorkerOk, Rank;
    WorkerIsFormed(s.committed, s.writer.value);
    if Advance(s.writer.value).Continue? { AdvanceMoves(s.writer.value); }
  }

  /** Left alone, a lock holder gets to its end: every sub-step moves it on. */
  lemma {:induction false} GetsToItsEnd(s: System) returns (n: nat)
    requires Isolated(s) && s.writer.Some?
    ensures n <= 10 - Rank(s.writer.value.stage)
    ensures Ending(s, Run(s, SubSteps(n)), s.writer.value.req, s.writer.value.draws)
    decreases 10 - Rank(s.writer.value.stage)
  {
    hide Next, Isolated;
    var s' := Next(s, SubStep);
    SubStepMoves(s);
    StepRefines(s, SubStep);
    if s'.writer.Some? {
      n := GetsToItsEnd(s');
      n := n + 1;
      assert SubSteps(n)[1..] == SubSteps(n - 1);
    } else {
      n := 0;
    }
  }

  /** An undisturbed request is answered within eleven sub-steps, and its answer
      and effect are those of the atomic transition. */
  lemma UndisturbedIsAtomic(s: System, req: Request, draws: Draws) returns (n: nat)
    requires Isolated(s) && s.writer.None?
    ensures n <= 10
    ensures var before := Run(s, [Begin(req, draws)] + SubSteps(n));
            var (tables, reply) := Atomic(s.committed, req, draws);
            && before.writer.Some? && before.writer.value.req == req && before.writer.value.draws == draws
            && before.committed == s.committed && before.outcomes == s.outcomes
            && Next(before, SubStep)
               == System(tables, None,
                         s.outcomes + [Outcome(req, reply, reply.Accepted? && KeyOf(req) !in s.committed.idempotency)])
  {
    var s1 := Next(s, Begin(req, draws));
    StepRefines(s, Begin(req, draws));
    n := GetsToItsEnd(s1);
    RunOne(s, Begin(req, draws));
    RunConcat(s, [Begin(req, draws)], SubSteps(n));
    var w := Run(s1, SubSteps(n)).writer.value;
    WorkerIsFormed(s.committed, w);
    EndingsAreAtomic(s.committed, w);
  }

  // ----- Main results ---------------------------------------------------------------------------

  /** Exactly once: over any interleaving of clients, retries, orchestrator
      commits and failures before any sub-step, all accepted replies to one
      session and key belong to the same request and carry the same response,
      the stored one, and at most one of them executed the command. */
  lemma ExactlyOnce(s: System, steps: seq<Step>, i: nat, j: nat)
    requires Initial(s)
    requires i < j < |Run(s, steps).outcomes|
    requires KeyOf(Run(s, steps).outcomes[i].req) == KeyOf(Run(s, steps).outcomes[j].req)
    requires Run(s, steps).outcomes[i].reply.Accepted? && Run(s, steps).outcomes[j].reply.Accepted?
    ensures var s' := Run(s, steps);
            var first, later := s'.outcomes[i], s'.outcomes[j];
            && later.reply == first.reply && !later.executed
            && later.req.route == first.req.route && later.req.body == first.req.body
            && KeyOf(first.req) in s'.committed.idempotency
            && s'.committed.idempotency[KeyOf(first.req)].response == Some(first.reply.response)
  {
    RunKeepsInv(s, steps);
    var s' := Run(s, steps);
    assert Backed(s'.committed, s'.outcomes[i]) && Backed(s'.committed, s'.outcomes[j]);
    assert !Twice(s'.outcomes[i], s'.outcomes[j]);
  }

  /** In every reachable state each committed reservation carries its response
      and pairs with one operation and one audit row, or with none if it only
      issued a token. */
  lemma NothingHalfDone(s: System, steps: seq<Step>, k: Key)
    requires Initial(s) && k in Run(s, steps).committed.idempotency
    ensures var t := Run(s, steps).committed;
            && t.idempotency[k].response.Some?
            && (AuditedKey(t.audit, k) <==> t.idempotency[k].operationId.Some?)
            && (AuditedKey(t.audit, k) ==> t.idempotency[k].operationId.value in t.operations)
            && forall i, j ::
                 0 <= i < |t.audit| && 0 <= j < |t.audit| && t.audit[i].key == k && t.audit[j].key == k ==> i == j
  {
    RunKeepsInv(s, steps);
    OneToOne(Run(s, steps).committed, k);
  }

  /** Once a command is committed, then after any further run a retry of it,
      whatever identifiers it would draw, returns the stored response, and a
      different request under its key is refused; neither changes anything. */
  lemma RetriesAreInert(s: System, steps: seq<Step>, k: Key, retry: Request, draws: Draws)
    requires Inv(s) && k in s.committed.idempotency && KeyOf(retry) == k
    ensures var t := Run(s, steps).committed;
            var r := s.committed.idempotency[k];
            && r.response.Some?
            && Atomic(t, retry, draws)
               == (t, if retry.route == r.route && retry.body == r.body then Accepted(r.response.value)
                      else Refused(409, "idempotency_conflict"))
  {
    RunKeepsInv(s, steps);
    OneToOne(s.committed, k);
  }

  /** In every reachable state `finished_at` is set exactly on the terminal
      objectives and the journal is consistent. */
  lemma ReachableTablesAreTidy(s: System, steps: seq<Step>)
    requires Initial(s)
    ensures Tidy(Run(s, steps).committed)
    ensures EventJournal.Consistent(Run(s, steps).committed.journal, Run(s, steps).committed.lastSequence)
  {
    RunKeepsInv(s, steps);
  }

  /** In every run, whatever the orchestrator did before, no sub-step of a command
      moves an objective off the listed edges, and none changes a terminal one. */
  lemma SubStepsStayOnEdges(s: System, steps: seq<Step>, step: Step, id: string)
    requires Isolated(s) && !step.Environment? && id in Run(s, steps).committed.objectives
    ensures var was, now := Run(s, steps).committed.objectives, Next(Run(s, steps), step).committed.objectives;
            && id in now && Allowed(was[id].status, now[id].status)
            && (was[id].status.CancelRequested? ==> now[id].status.CancelRequested? || now[id].status.Cancelled?)
            && (Terminal(was[id].status) ==> now[id] == was[id])
  {
    hide Next, Run, Isolated, Atomic, EnvironmentMay;
    var s1 := Run(s, steps);
    StepRefines(s1, step);
    if s1.writer.Some? {
      var w := s1.writer.value;
      AllowedTransitions(s1.committed, w.req, w.draws, id);
      if Terminal(s1.committed.objectives[id].status) { TerminalFrozen(s1.committed, w.req, w.draws, id); }
    }
  }

  /** The orchestrator's commits keep this row. */
  predicate KeepsRow(steps: seq<Step>, id: string, row: Objective) {
    forall i :: 0 <= i < |steps| && steps[i].Environment? ==>
      id in steps[i].tables.objectives && steps[i].tables.objectives[id] == row
  }

  /** A terminal objective stays exactly as it is through every run of commands,
      retries and failures, as long as the orchestrator leaves it alone. */
  lemma {:induction false} TerminalForGood(s: System, steps: seq<Step>, id: string)
    requires Isolated(s) && id in s.committed.objectives && Terminal(s.committed.objectives[id].status)
    requires KeepsRow(steps, id, s.committed.objectives[id])
    ensures id in Run(s, steps).committed.objectives
    ensures Run(s, steps).committed.objectives[id] == s.committed.objectives[id]
    decreases |steps|
  {
    if steps == [] {
    } else {
      hide Next, Isolated, Atomic, EnvironmentMay;
      var s' := Next(s, steps[0]);
      StepRefines(s, steps[0]);
      OneStepKeepsTerminal(s, steps[0], id);
      assert KeepsRow(steps[1..], id, s.committed.objectives[id]);
      TerminalForGood(s', steps[1..], id);
    }
  }

  lemma OneStepKeepsTerminal(s: System, step: Step, id: string)
    requires Isolated(s) && id in s.committed.objectives && Terminal(s.committed.objectives[id].status)
    requires KeepsRow([step], id, s.committed.objectives[id])
    ensures id in Next(s, step).committed.objectives
    ensures Next(s, step).committed.objectives[id] == s.committed.objectives[id]
  {
    hide Isolated, EnvironmentMay, Advance;
    if step.Environment? {
      assert [step][0] == step;
    } else {
      assert Run(s, []) == s;
      SubStepsStayOnEdges(s, [], step, id);
    }
  }

  /** The step answers a command it executed itself, and leaves `status`. */
  ghost predicate Answers(s: System, step: Step, name: CommandName, status: ObjectiveStatus)
    requires Isolated(s)
  {
    && s.writer.Some? && |Next(s, step).outcomes| > |s.outcomes|
    && var o := Next(s, step).outcomes[|s.outcomes|];
       && o.executed && o.req.action.Command? && o.req.action.name == name
       && o.reply.Accepted? && o.reply.response.OperationResponse? && o.reply.response.state == status
  }

  lemma AnswersExecute(s: System, step: Step, name: CommandName, status: ObjectiveStatus)
    requires Isolated(s) && Answers(s, step, name, status)
    ensures var w := s.writer.value;
            Executes(s.committed, w.req, w.draws, name, status)
            && Next(s, step).committed == Atomic(s.committed, w.req, w.draws).0
  {
    StepRefines(s, step);
  }

  /** In every run, the moment a cancel is answered with CANCELLED the committed
      tables show its objective and the whole of its plan at rest. */
  lemma CancelledIsQuiescent(s: System, steps: seq<Step>, step: Step)
    requires Initial(s) && Answers(Run(s, steps), step, Cancel, Cancelled)
    ensures var s1 := Run(s, steps);
            var w := s1.writer.value;
            w.req.action.Command? && AtRest(Next(s1, step).committed, w.req.action.objectiveId, w.draws.now)
  {
    var s1 := Run(s, steps);
    AnswersExecute(s1, step, Cancel, Cancelled);
    QuiescentCancel(s1.committed, s1.writer.value.req, s1.writer.value.draws);
  }

  /** In every run, the moment a pause is answered with PAUSED its objective had
      no running task, unless it was paused already. */
  lemma PausedIsQuiescent(s: System, steps: seq<Step>, step: Step)
    requires Initial(s) && Answers(Run(s, steps), step, Pause, Paused)
    ensures var s1 := Run(s, steps);
            var w := s1.writer.value;
            && w.req.action.Command? && w.req.action.objectiveId in s1.committed.objectives
            && var o := s1.committed.objectives[w.req.action.objectiveId];
               o.status.Paused? || (!o.status.Planning? && !HasRunningTask(Next(s1, step).committed, o.planId))
  {
    var s1 := Run(s, steps);
    AnswersExecute(s1, step, Pause, Paused);
    QuiescentPause(s1.committed, s1.writer.value.req, s1.writer.value.draws);
  }

  /** A run from the empty database after which a pause is answered with PAUSED
      although a task of its objective runs. */
  ghost predicate PausesBesideRunningTask(s: System, steps: seq<Step>) {
    && Initial(s) && Answers(Run(s, steps), SubStep, Pause, Paused)
    && var s1 := Run(s, steps);
       var t, req := Next(s1, SubStep).committed, s1.writer.value.req;
       && req.action.Command? && req.action.objectiveId in t.objectives
       && HasRunningTask(t, t.objectives[req.action.objectiveId].planId)
  }

  /** What the orchestrator has planned, with one task that is ready. */
  function PlannedTables(): Tables {
    EmptyTables().(
      objectives := map["objective" := Objective(Running, ["project"], Some("plan"), 0, None, None, None)],
      plans := map["plan" := Plan(PlanRunning, None, None)],
      tasks := map["task" := Task("plan", TaskReady, None, None)])
  }

  function PauseRequest(key: string): Request {
    Request("session", key, "route", Reason(None), Command("objective", Pause))
  }

  lemma FirstPause(t: Tables, draws: Draws)
    requires t == PlannedTables() && draws.operationId == "first"
    ensures var t' := Atomic(t, PauseRequest("first"), draws).0;
            && t'.idempotency.Keys == {Key("session", "first")} && t'.operations.Keys == {"first"}
            && "objective" in t'.objectives && t'.objectives["objective"].status.Paused?
            && t'.objectives["objective"].planId == Some("plan")
  {
    assert !HasRunningTask(t, Some("plan"));
    assert ValidScope(["project"]);
  }

  /** The orchestrator starts a task of the plan, as it may. */
  lemma StartsTask(t: Tables) returns (t': Tables)
    ensures EnvironmentMay(t, t') && t' == t.(tasks := t'.tasks) && HasRunningTask(t', Some("plan"))
  {
    t' := t.(tasks := map["task" := Task("plan", TaskRunning, None, None)]);
    assert "task" in t'.tasks && t'.tasks["task"].planId == "plan" && t'.tasks["task"].status.TaskRunning?;
  }

  /** A request served from start to end. */
  lemma Served(s: System, req: Request, draws: Draws) returns (steps: seq<Step>, end: System)
    requires Isolated(s) && s.writer.None?
    ensures end == Run(s, steps) && end.writer.None? && end.committed == Atomic(s.committed, req, draws).0
  {
    var n := UndisturbedIsAtomic(s, req, draws);
    var before := [Begin(req, draws)] + SubSteps(n);
    steps := before + [SubStep];
    end := Next(Run(s, before), SubStep);
    RunOne(Run(s, before), SubStep);
    RunConcat(s, before, [SubStep]);
  }

  lemma RunThree(s: System, a: seq<Step>, b: seq<Step>, c: seq<Step>)
    requires Isolated(s)
    ensures Run(s, a + (b + c)) == Run(Run(Run(s, a), b), c)
  {
    RunConcat(s, a, b + c);
    RunConcat(Run(s, a), b, c);
  }

  /** The orchestrator commits `tables` while no transaction is open. */
  lemma Commits(s: System, tables: Tables) returns (end: System)
    requires Isolated(s) && s.writer.None? && EnvironmentMay(s.committed, tables)
    ensures end == Run(s, [Environment(tables)]) && end == s.(committed := tables)
  {
    end := Next(s, Environment(tables));
    RunOne(s, Environment(tables));
  }

  /** Pausing a paused objective with a running task, by an undisturbed request. */
  lemma PausesAgain(s: System, draws: Draws) returns (steps: seq<Step>)
    requires Isolated(s) && s.writer.None? && draws.operationId !in s.committed.operations
    requires KeyOf(PauseRequest("second")) !in s.committed.idempotency
    requires "objective" in s.committed.objectives && s.committed.objectives["objective"].status.Paused?
    requires HasRunningTask(s.committed, s.committed.objectives["objective"].planId)
    ensures var s1 := Run(s, steps);
            && Answers(s1, SubStep, Pause, Paused)
            && s1.writer.value.req == PauseRequest("second")
            && var t := Next(s1, SubStep).committed;
               "objective" in t.objectives && HasRunningTask(t, t.objectives["objective"].planId)
  {
    var req := PauseRequest("second");
    var n := UndisturbedIsAtomic(s, req, draws);
    steps := [Begin(req, draws)] + SubSteps(n);
    PauseAgainIgnoresRunningTasks(s.committed, req, draws);
    var t := Atomic(s.committed, req, draws).0;
    assert HasRunningTask(t, t.objectives["objective"].planId);
  }

  /** The exception of `PausedIsQuiescent` is reachable: pause, let the
      orchestrator start a task, pause again. */
  lemma PausedBesideRunningTask() returns (s: System, steps: seq<Step>)
    ensures PausesBesideRunningTask(s, steps)
  {
    hide Atomic, Next, Answers;
    EmptyStarts();
    s := System(EmptyTables(), None, []);
    var planned := Commits(s, PlannedTables());
    var draws := Draws("first", "", "", 1);
    FirstPause(planned.committed, draws);
    var once, paused := Served(planned, PauseRequest("first"), draws);
    var tables := StartsTask(paused.committed);
    var started := Commits(paused, tables);
    var twice := PausesAgain(started, Draws("second", "", "", 2));
    RunThree(planned, once, [Environment(tables)], twice);
    RunConcat(s, [Environment(PlannedTables())], once + ([Environment(tables)] + twice));
    steps := [Environment(PlannedTables())] + (once + ([Environment(tables)] + twice));
    assert Run(s, steps) == Run(started, twice);
  }

  // ----- The command store ------------------------------------------------------------------------

  /** A sub-step after the validation has something to do; `planId` is the plan
      to cancel. */
  predicate Does(v: Verdict, planId: Option<string>, stage: Stage) {
    && v.Proceed?
    && (stage.CancelTaskRows? || stage.CancelPlanRow? ==> planId.Some?)
    && (stage.WriteObjective? || stage.WriteEvent? || stage.EmitJournal? ==> v.writes)
  }

  /** The transaction for `req` gets as far as this sub-step, and has something
      to do in it, unless an earlier one fails. */
  predicate Reached(t: Tables, req: Request, stage: Stage) {
    match stage
    case Reserve => true
    case Validate => KeyOf(req) !in t.idempotency
    case _ => KeyOf(req) !in t.idempotency && Does(Decide(t, req), CancelledPlan(t, req, Decide(t, req)), stage)
  }

  predicate Hits(t: Tables, req: Request, fault: Option<Stage>) {
    fault.Some? && Reached(t, req, fault.value)
  }

  /** The fault hits a sub-step between `first` and `last`. */
  predicate HitsIn(v: Verdict, planId: Option<string>, fault: Option<Stage>, first: Stage, last: Stage) {
    fault.Some? && Rank(first) <= Rank(fault.value) <= Rank(last) && Does(v, planId, fault.value)
  }

  /** The store that runs commands: `committed` is the database, `work` the
      connection's uncommitted view of it. A `fault` makes the transaction raise
      just before that sub-step. */
  class ObjectiveCommandStore {
    var committed: Tables
    var work: Tables

    constructor (tables: Tables)
      ensures committed == tables
    {
      committed, work := tables, tables;
    }

    method BeginImmediate()
      modifies this`work
      ensures work == committed
    {
      work := committed;
    }

    method CommitTransaction()
      modifies this`committed
      ensures committed == work
    {
      committed := work;
    }

    method RollbackTransaction()
      modifies this`work
      ensures work == committed
    {
      work := committed;
    }

    /** The stored reply to a retry, a refusal, or a fresh reservation. */
    method ReplayOrReserve(req: Request) returns (reply: Option<Reply>)
      modifies this`work
      ensures KeyOf(req) in old(work).idempotency ==>
                reply == Some(Atomic(old(work), req, Draws("", "", "", 0)).1) && work == old(work)
      ensures KeyOf(req) !in old(work).idempotency ==>
                && reply == None && work == Opened(old(work), req)
                && work.idempotency == old(work).idempotency[Key(req.session, req.key) :=
                                         Reservation(req.route, req.body, None, None)]
    {
      if KeyOf(req) in work.idempotency {
        var row := work.idempotency[KeyOf(req)];
        if row.route != req.route || row.body != req.body {
          return Some(Refused(409, "idempotency_conflict"));
        }
        if row.response.None? { return Some(Refused(409, "command_in_progress")); }
        return Some(Accepted(row.response.value));
      }
      work := work.(idempotency := work.idempotency[KeyOf(req) := Reservation(req.route, req.body, None, None)]);
      reply := None;
    }

    /** The checks of the command, made after the key has been reserved. */
    method Check(req: Request, ghost base: Tables) returns (v: Verdict)
      requires work == Opened(base, req)
      ensures v == Decide(base, req)
      ensures v.Proceed? ==> Formed(base, req)
      ensures v.Proceed? && req.action.Create? ==> v == Proceed(None, Queued, true)
    {
      hide HasRunningTask, HasActiveRun, PointOfNoReturn;
      DecideIgnoresReservation(base, req);
      v := Decide(work, req);
    }

    /** The two UPDATE statements that stop a cancelled objective's plan. */
    method StopPlan(planId: Option<string>, now: Time, fault: Option<Stage>) returns (ok: bool)
      modifies this`work
      ensures ok <==> planId.None? || (fault != Some(CancelTaskRows) && fault != Some(CancelPlanRow))
      ensures ok ==> work == old(work).(tasks := CancelTasks(old(work).tasks, planId, now),
                                        plans := CancelPlan(old(work).plans, planId, now))
    {
      if planId.None? { return true; }
      if fault == Some(CancelTaskRows) { return false; }
      work := work.(tasks := map id | id in work.tasks ::
        if Cancellable(work.tasks[id], planId.value) then CancelledTask(work.tasks[id], now) else work.tasks[id]);
      if fault == Some(CancelPlanRow) { return false; }
      if planId.value in work.plans && !PlanTerminal(work.plans[planId.value].status) {
        work := work.(plans := work.plans[planId.value := Plan(PlanCancelled, Some(now), Some("objective cancelled"))]);
      }
      ok := true;
    }

    method AddEvent(objectiveId: string, old_: Option<ObjectiveStatus>, new_: ObjectiveStatus, now: Time,
                    fault: Option<Stage>) returns (ok: bool)
      modifies this`work
      ensures ok <==> fault != Some(WriteEvent) && fault != Some(EmitJournal)
      ensures ok ==> work == old(work).(
                events := old(work).events + [ObjectiveEvent(objectiveId, old_, new_, now)],
                journal := EventJournal.Append(old(work).journal, old(work).lastSequence, [Draft(objectiveId, old_)]),
                lastSequence := old(work).lastSequence + 1)
    {
      if fault == Some(WriteEvent) { return false; }
      work := work.(events := work.events + [ObjectiveEvent(objectiveId, old_, new_, now)]);
      if fault == Some(EmitJournal) { return false; }
      var event := EventJournal.Emitted(work.journal, work.lastSequence, Draft(objectiveId, old_));
      assert [Draft(objectiveId, old_)][1..] == [];
      work := work.(journal := work.journal + [event], lastSequence := work.lastSequence + 1);
      ok := true;
    }

    /** Operation, audit row and stored response: the tail of every command. */
    method Record(req: Request, v: Verdict, draws: Draws, fault: Option<Stage>) returns (ok: bool)
      requires v.Proceed? && !req.action.IssueToken?
      modifies this`work
      ensures ok <==> draws.operationId !in old(work).operations && fault != Some(RecordOperation)
                      && fault != Some(RecordAudit) && fault != Some(Complete)
      ensures ok ==>
        work == WithResponse(WithAudit(WithOperation(old(work), req, v, draws), req, draws), req, v, draws)
    {
      if fault == Some(RecordOperation) || draws.operationId in work.operations { return false; }
      var target, kind := TargetOf(req, draws), KindOf(req);
      work := work.(operations :=
        work.operations[draws.operationId := Operation(kind, target, v.newStatus, draws.now)]);
      if fault == Some(RecordAudit) { return false; }
      work := work.(audit := work.audit + [AuditRow(draws.operationId, kind, target, KeyOf(req), req.route, req.body)]);
      if fault == Some(Complete) { return false; }
      work := work.(idempotency := work.idempotency[KeyOf(req) :=
        Reservation(req.route, req.body, Some(ResponseOf(req, v, draws)), Some(draws.operationId))]);
      ok := true;
    }

    /** The end of a transaction: the commit, or the rollback after a fault. */
    method Settle(ok: bool, response: Response) returns (reply: Reply)
      modifies this
      ensures if ok then committed == old(work) && reply == Accepted(response)
              else committed == old(committed) && reply == Refused(500, "internal_error")
    {
      if ok {
        CommitTransaction();
        reply := Accepted(response);
      } else {
        RollbackTransaction();
        reply := Refused(500, "internal_error");
      }
    }

    /** The UPDATE of the objective's own row, one form for each command. */
    method UpdateObjective(req: Request, v: Verdict, draws: Draws)
      requires req.action.Command? && v.Proceed? && v.writes && Formed(work, req)
      modifies this`work
      ensures work == WithObjective(old(work), req, v, draws)
    {
      var row := work.objectives[req.action.objectiveId];
      if req.action.name.Pause? { row := PausedRow(row, v.newStatus, draws.now); }
      else if req.action.name.Resume? { row := ResumedRow(row, v.newStatus, draws.now); }
      else { row := CancelledRow(row, v.newStatus, draws.now); }
      work := work.(objectives := work.objectives[req.action.objectiveId := row]);
    }

    /** The rows of pause, resume and cancel: plan and tasks, objective, events. */
    method WriteRows(req: Request, v: Verdict, draws: Draws, fault: Option<Stage>, ghost base: Tables)
      returns (ok: bool)
      requires req.action.Command? && v.Proceed? && Formed(base, req)
      requires work == Opened(base, req)
      modifies this`work
      ensures ok <==> !HitsIn(v, CancelledPlan(base, req, v), fault, CancelTaskRows, EmitJournal)
      ensures ok ==> work == WorkAt(base, req, v, draws, RecordOperation)
    {
      ok := StopWhenCancelled(req, v, draws, fault, base);
      if !ok { return false; }
      ok := WriteObjectiveRows(req, v, draws, fault, base);
    }

    method StopWhenCancelled(req: Request, v: Verdict, draws: Draws, fault: Option<Stage>, ghost base: Tables)
      returns (ok: bool)
      requires req.action.Command? && v.Proceed? && Formed(base, req)
      requires work == Opened(base, req)
      modifies this`work
      ensures ok <==> !HitsIn(v, CancelledPlan(base, req, v), fault, CancelTaskRows, CancelPlanRow)
      ensures ok ==> work == WorkAt(base, req, v, draws, WriteObjective)
    {
      hide WorkAt;
      ok := true;
      if req.action.name.Cancel? && v.newStatus.Cancelled? {
        ok := StopPlan(work.objectives[req.action.objectiveId].planId, draws.now, fault);
      }
      StopSteps(base, req, v, draws);
    }

    method WriteObjectiveRows(req: Request, v: Verdict, draws: Draws, fault: Option<Stage>, ghost base: Tables)
      returns (ok: bool)
      requires req.action.Command? && v.Proceed? && Formed(base, req)
      requires work == WorkAt(base, req, v, draws, WriteObjective)
      modifies this`work
      ensures ok <==> !HitsIn(v, CancelledPlan(base, req, v), fault, WriteObjective, EmitJournal)
      ensures ok ==> work == WorkAt(base, req, v, draws, RecordOperation)
    {
      hide WorkAt, Decide, EventJournal.Append;
      RowChain(base, req, v, draws);
      ok := true;
      if v.writes {
        if fault == Some(WriteObjective) { return false; }
        UpdateObjective(req, v, draws);
        ok := AddEvent(req.action.objectiveId, v.oldStatus, v.newStatus, draws.now, fault);
      }
    }

    /** Operation, audit and response after the rows, in both kinds of command. */
    method RecordTail(req: Request, v: Verdict, draws: Draws, fault: Option<Stage>, ghost base: Tables)
      returns (ok: bool)
      requires !req.action.IssueToken? && v.Proceed? && Formed(base, req)
      requires work == WorkAt(base, req, v, draws, RecordOperation)
      modifies this`work
      ensures ok <==>
                && draws.operationId !in base.operations
                && !HitsIn(v, CancelledPlan(base, req, v), fault, RecordOperation, Complete)
      ensures ok ==> work == Applied(base, req, v, draws)
    {
      hide WorkAt, Applied, Decide;
      TailMakesApplied(base, req, v, draws);
      ok := Record(req, v, draws, fault);
    }

    method Execute(req: Request, v: Verdict, draws: Draws, fault: Option<Stage>, ghost base: Tables) returns (ok: bool)
      requires req.action.Command? && v.Proceed? && Formed(base, req)
      requires work == Opened(base, req)
      modifies this`work
      ensures ok <==>
                && !Collides(base, req, draws)
                && !HitsIn(v, CancelledPlan(base, req, v), fault, CancelTaskRows, Complete)
      ensures ok ==> work == Applied(base, req, v, draws)
    {
      hide WorkAt, Applied, CancelledPlan;
      ok := WriteRows(req, v, draws, fault, base);
      if !ok { return false; }
      ok := RecordTail(req, v, draws, fault, base);
    }

    /** The INSERT of a new objective; false on a primary-key violation. */
    method InsertObjective(req: Request, draws: Draws) returns (ok: bool)
      requires req.action.Create? && req.body.NewObjective?
      modifies this`work
      ensures ok <==> draws.objectiveId !in old(work).objectives
      ensures ok ==> work == old(work).(objectives := old(work).objectives[draws.objectiveId :=
                       Objective(Queued, req.body.projects, None, draws.now, None, None, None)])
    {
      if draws.objectiveId in work.objectives { return false; }
      work := work.(objectives := work.objectives[draws.objectiveId :=
        Objective(Queued, req.body.projects, None, draws.now, None, None, None)]);
      ok := true;
    }

    /** The rows of a create. */
    method InsertRows(req: Request, v: Verdict, draws: Draws, fault: Option<Stage>, ghost base: Tables)
      returns (ok: bool)
      requires req.action.Create? && v == Proceed(None, Queued, true) && Formed(base, req)
      requires work == Opened(base, req)
      modifies this`work
      ensures ok <==>
                && draws.objectiveId !in base.objectives
                && !HitsIn(v, CancelledPlan(base, req, v), fault, CancelTaskRows, EmitJournal)
      ensures ok ==> work == WorkAt(base, req, v, draws, RecordOperation)
    {
      hide WorkAt, Applied, EventJournal.Append;
      StopSteps(base, req, v, draws);
      if fault == Some(WriteObjective) { return false; }
      ok := InsertObjective(req, draws);
      if !ok { return false; }
      ok := AddEvent(draws.objectiveId, None, Queued, draws.now, fault);
      RowChain(base, req, v, draws);
    }

    method Insert(req: Request, v: Verdict, draws: Draws, fault: Option<Stage>, ghost base: Tables) returns (ok: bool)
      requires req.action.Create? && v == Proceed(None, Queued, true) && Formed(base, req)
      requires work == Opened(base, req)
      modifies this`work
      ensures ok <==>
                && !Collides(base, req, draws)
                && !HitsIn(v, CancelledPlan(base, req, v), fault, CancelTaskRows, Complete)
      ensures ok ==> work == Applied(base, req, v, draws)
    {
      hide WorkAt, Applied, CancelledPlan;
      ok := InsertRows(req, v, draws, fault, base);
      if !ok { return false; }
      ok := RecordTail(req, v, draws, fault, base);
    }

    /** `create_objective`. A fault at a sub-step the request reaches leaves the
        database as it was; every other call is the atomic transition. */
    method CreateObjective(req: Request, draws: Draws, fault: Option<Stage>) returns (reply: Reply)
      requires req.action.Create?
      modifies this
      ensures Hits(old(committed), req, fault) ==> reply.Refused? && committed == old(committed)
      ensures !Hits(old(committed), req, fault) ==>
                (committed, reply) == Atomic(old(committed), req, draws)
    {
      hide Applied, CancelledPlan, Decide;
      BeginImmediate();
      ghost var base := committed;
      if fault == Some(Reserve) { RollbackTransaction(); return Refused(500, "internal_error"); }
      var replay := ReplayOrReserve(req);
      if replay.Some? {
        if replay.value.Accepted? { CommitTransaction(); } else { RollbackTransaction(); }
        return replay.value;
      }
      if fault == Some(Validate) { RollbackTransaction(); return Refused(500, "internal_error"); }
      var v := Check(req, base);
      if v.Refuse? { RollbackTransaction(); return Refused(v.status, v.code); }
      var ok := Insert(req, v, draws, fault, base);
      reply := Settle(ok && fault != Some(CommitWork), ResponseOf(req, v, draws));
    }

    /** `command_objective`: the three commands with their own rows, then the
        common tail, under the same contract. */
    method CommandObjective(req: Request, draws: Draws, fault: Option<Stage>) returns (reply: Reply)
      requires req.action.Command?
      modifies this
      ensures Hits(old(committed), req, fault) ==> reply.Refused? && committed == old(committed)
      ensures !Hits(old(committed), req, fault) ==>
                (committed, reply) == Atomic(old(committed), req, draws)
    {
      hide Applied, CancelledPlan, Decide;
      BeginImmediate();
      ghost var base := committed;
      if fault == Some(Reserve) { RollbackTransaction(); return Refused(500, "internal_error"); }
      var replay := ReplayOrReserve(req);
      if replay.Some? {
        if replay.value.Accepted? { CommitTransaction(); } else { RollbackTransaction(); }
        return replay.value;
      }
      if fault == Some(Validate) { RollbackTransaction(); return Refused(500, "internal_error"); }
      var v := Check(req, base);
      if v.Refuse? { RollbackTransaction(); return Refused(v.status, v.code); }
      var ok := Execute(req, v, draws, fault, base);
      reply := Settle(ok && fault != Some(CommitWork), ResponseOf(req, v, draws));
    }
  }
}
