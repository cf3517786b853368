/** The tables behind the objective commands, and one command as a single
    atomic transition on them: the specification that the step-by-step
    transaction of `ObjectiveCommands` is proved to refine. */
module ObjectiveTables {
  import opened Wrappers
  import EventJournal

  type Time = nat

  datatype ObjectiveStatus =
    | Queued | Planning | Running | PauseRequested | Paused | CancelRequested
    | Completed | Failed | Cancelled

  datatype PlanStatus =
    | PlanDraft | PlanReady | PlanRunning | PlanBlocked | PlanCompleted | PlanFailed | PlanCancelled

  datatype TaskStatus =
    | TaskPending | TaskReady | TaskRunning | TaskBlocked | TaskCompleted | TaskFailed | TaskCancelled

  datatype RunStatus =
    | RunQueued | RunSnapshotting | RunRunning | RunReviewing | RunWaitingHuman | RunCommitting
    | RunCompleted | RunFailed | RunCancelled | RunRecovering

  datatype IntegrationStatus = Prepared | Integrated | IntegrationRejected | IntegrationBlocked | IntegrationFailed

  datatype Objective = Objective(
    status: ObjectiveStatus,
    scope: seq<string>,
    planId: Option<string>,
    heartbeatAt: Time,
    finishedAt: Option<Time>,
    pausedAt: Option<Time>,
    lastError: Option<string>)

  datatype Plan = Plan(status: PlanStatus, finishedAt: Option<Time>, lastError: Option<string>)

  datatype Task = Task(planId: string, status: TaskStatus, finishedAt: Option<Time>, failureReason: Option<string>)

  datatype Attempt = Attempt(taskId: string, runId: string)

  datatype Integration = Integration(runId: string, approved: bool, status: IntegrationStatus)

  // ----- Requests and responses ------------------------------------------------

  datatype CommandName = Pause | Resume | Cancel | OtherCommand

  datatype Action = IssueToken | Create | Command(objectiveId: string, name: CommandName)

  /** A request body, with the verdict of its field checks already taken. */
  datatype Body =
    | Malformed(raw: string)
    | Reason(reason: Option<string>)
    | NewObjective(projects: seq<string>, text: string)

  /** Session, key, route and body identify a request. The stored HMACs of them
      are modelled by the values themselves, that is, as injective. */
  datatype Request = Request(session: string, key: string, route: string, body: Body, action: Action)

  datatype Key = Key(session: string, key: string)

  datatype Kind = CreateKind | PauseKind | ResumeKind | CancelKind

  datatype Response =
    | OperationResponse(operationId: string, kind: Kind, objectiveId: string, state: ObjectiveStatus, createdAt: Time)
    | TokenResponse(token: string)

  datatype Reply = Accepted(response: Response) | Refused(status: int, code: string)

  datatype Reservation = Reservation(
    route: string, body: Body, response: Option<Response>, operationId: Option<string>)

  datatype Operation = Operation(kind: Kind, objectiveId: string, state: ObjectiveStatus, createdAt: Time)

  datatype AuditRow = AuditRow(operationId: string, kind: Kind, objectiveId: string, key: Key, route: string,
                               body: Body)

  datatype ObjectiveEvent = ObjectiveEvent(
    objectiveId: string, oldStatus: Option<ObjectiveStatus>, newStatus: ObjectiveStatus, createdAt: Time)

  /** The identifiers and the clock reading a command draws for itself. */
  datatype Draws = Draws(operationId: string, objectiveId: string, token: string, now: Time)

  datatype Tables = Tables(
    idempotency: map<Key, Reservation>,
    operations: map<string, Operation>,
    audit: seq<AuditRow>,
    objectives: map<string, Objective>,
    plans: map<string, Plan>,
    tasks: map<string, Task>,
    attempts: set<Attempt>,
    runs: map<string, RunStatus>,
    integrations: set<Integration>,
    projects: map<string, bool>,
    events: seq<ObjectiveEvent>,
    journal: seq<EventJournal.Event>,
    lastSequence: nat)

  function KeyOf(req: Request): Key { Key(req.session, req.key) }

  predicate Terminal(status: ObjectiveStatus) {
    status.Completed? || status.Failed? || status.Cancelled?
  }

  predicate PlanTerminal(status: PlanStatus) {
    status.PlanCompleted? || status.PlanFailed? || status.PlanCancelled?
  }

  predicate TaskTerminal(status: TaskStatus) {
    status.TaskCompleted? || status.TaskFailed? || status.TaskCancelled?
  }

  predicate RunActive(status: RunStatus) {
    || status.RunSnapshotting? || status.RunRunning? || status.RunReviewing?
    || status.RunWaitingHuman? || status.RunCommitting? || status.RunRecovering?
  }

  // ----- The queries a command asks -------------------------------------------------

  predicate HasRunningTask(t: Tables, planId: Option<string>) {
    planId.Some? && exists id :: id in t.tasks && t.tasks[id].planId == planId.value && t.tasks[id].status.TaskRunning?
  }

  predicate RunOfPlan(t: Tables, attempt: Attempt, planId: string) {
    attempt.taskId in t.tasks && t.tasks[attempt.taskId].planId == planId && attempt.runId in t.runs
  }

  predicate HasActiveRun(t: Tables, planId: Option<string>) {
    planId.Some? && exists a :: a in t.attempts && RunOfPlan(t, a, planId.value) && RunActive(t.runs[a.runId])
  }

  predicate IntegrationBegun(t: Tables, runId: string) {
    exists i :: i in t.integrations && i.runId == runId && i.approved
                && (i.status.Prepared? || i.status.Integrated? || i.status.IntegrationFailed?)
  }

  predicate Committed(t: Tables, runId: string)
    requires runId in t.runs
  {
    t.runs[runId].RunCommitting? || t.runs[runId].RunCompleted? || IntegrationBegun(t, runId)
  }

  predicate PointOfNoReturn(t: Tables, planId: Option<string>) {
    && planId.Some?
    && (exists a :: a in t.attempts && RunOfPlan(t, a, planId.value) && Committed(t, a.runId))
  }

  function ResumedStatus(planStatus: Option<PlanStatus>): ObjectiveStatus {
    match planStatus
    case None => Queued
    case Some(PlanBlocked) => Running
    case Some(PlanCompleted) => Completed
    case Some(PlanFailed) => Failed
    case Some(PlanCancelled) => Cancelled
    case Some(_) => Queued
  }

  predicate ValidScope(scope: seq<string>) {
    scope != [] && forall i, j :: 0 <= i < j < |scope| ==> scope[i] != scope[j]
  }

  // ----- The decision -------------------------------------------------------------------

  datatype Verdict =
    | Refuse(status: int, code: string)
    | Proceed(oldStatus: Option<ObjectiveStatus>, newStatus: ObjectiveStatus, writes: bool)

  function DecidePause(t: Tables, o: Objective): Verdict {
    if o.status.CancelRequested? then Refuse(409, "objective_cancel_pending")
    else if Terminal(o.status) then Refuse(409, "objective_terminal")
    else if o.status.Paused? then Proceed(Some(Paused), Paused, false)
    else if o.status.Planning? || HasRunningTask(t, o.planId) then Proceed(Some(o.status), PauseRequested, true)
    else Proceed(Some(o.status), Paused, true)
  }

  function DecideResume(t: Tables, o: Objective): Verdict {
    if !o.status.Paused? then Refuse(409, "objective_not_paused")
    else if o.planId.None? then Proceed(Some(Paused), ResumedStatus(None), true)
    else if o.planId.value !in t.plans then Refuse(503, "objective_plan_unavailable")
    else Proceed(Some(Paused), ResumedStatus(Some(t.plans[o.planId.value].status)), true)
  }

  function DecideCancel(t: Tables, o: Objective): Verdict {
    if Terminal(o.status) then Refuse(409, "objective_terminal")
    else if PointOfNoReturn(t, o.planId) then Refuse(409, "objective_integration_committed")
    else if o.status.Planning? || HasRunningTask(t, o.planId) || HasActiveRun(t, o.planId) then
      Proceed(Some(o.status), CancelRequested, true)
    else Proceed(Some(o.status), Cancelled, true)
  }

  function DecideCreate(projects: map<string, bool>, body: Body): Verdict {
    if !body.NewObjective? then Refuse(400, "invalid_objective")
    else if !ValidScope(body.projects) then Refuse(400, "invalid_project_ids")
    else if exists p :: p in body.projects && p !in projects then Refuse(400, "unknown_project")
    else if exists p :: p in body.projects && !projects[p] then Refuse(409, "project_disabled")
    else Proceed(None, Queued, true)
  }

  function Decide(t: Tables, req: Request): Verdict {
    match req.action
    case IssueToken =>
      if req.body != Reason(None) then Refuse(400, "invalid_request_body") else Proceed(None, Queued, false)
    case Create => DecideCreate(t.projects, req.body)
    case Command(id, name) =>
      if name.OtherCommand? then Refuse(409, "objective_command_unavailable")
      else if !req.body.Reason? then Refuse(400, "unknown_request_field")
      else if id !in t.objectives then Refuse(404, "objective_not_found")
      else
        var o := t.objectives[id];
        var v := match name
                 case Pause => DecidePause(t, o)
                 case Resume => DecideResume(t, o)
                 case _ => DecideCancel(t, o);
        if v.Proceed? && v.writes && !ValidScope(o.scope) then Refuse(503, "objective_projection_invalid")
        else v
  }

  // ----- The effects -----------------------------------------------------------------------

  function TargetOf(req: Request, draws: Draws): string {
    if req.action.Command? then req.action.objectiveId else draws.objectiveId
  }

  function KindOf(req: Request): Kind {
    match req.action
    case Command(_, Pause) => PauseKind
    case Command(_, Resume) => ResumeKind
    case Command(_, _) => CancelKind
    case _ => CreateKind
  }

  function PausedRow(o: Objective, new_: ObjectiveStatus, now: Time): Objective {
    o.(status := new_, heartbeatAt := now,
       pausedAt := if new_.Paused? then Some(now) else o.pausedAt, lastError := None)
  }

  function ResumedRow(o: Objective, new_: ObjectiveStatus, now: Time): Objective {
    o.(status := new_, heartbeatAt := now, pausedAt := None,
       finishedAt := if Terminal(new_) then Some(now) else None,
       lastError := match new_
                    case Failed => Some("linked orchestration plan failed")
                    case Cancelled => Some("linked orchestration plan cancelled")
                    case _ => None)
  }

  function CancelledRow(o: Objective, new_: ObjectiveStatus, now: Time): Objective {
    o.(status := new_, heartbeatAt := now,
       finishedAt := if new_.Cancelled? then Some(now) else None,
       lastError := if new_.Cancelled? then Some("cancelled by operator") else o.lastError)
  }

  function CancelledTask(task: Task, now: Time): Task {
    task.(status := TaskCancelled, finishedAt := Some(now),
          failureReason := if task.failureReason.Some? then task.failureReason else Some("objective cancelled"))
  }

  predicate Cancellable(task: Task, planId: string) {
    task.planId == planId && (task.status.TaskPending? || task.status.TaskReady? || task.status.TaskBlocked?)
  }

  function CancelTasks(tasks: map<string, Task>, planId: Option<string>, now: Time): map<string, Task> {
    if planId.None? then tasks
    else
      (map id | id in tasks ::
        if Cancellable(tasks[id], planId.value) then CancelledTask(tasks[id], now) else tasks[id])
  }

  function CancelPlan(plans: map<string, Plan>, planId: Option<string>, now: Time): map<string, Plan> {
    if planId.None? || planId.value !in plans || PlanTerminal(plans[planId.value].status) then plans
    else plans[planId.value := Plan(PlanCancelled, Some(now), Some("objective cancelled"))]
  }

  function Draft(objectiveId: string, old_: Option<ObjectiveStatus>): EventJournal.Draft {
    EventJournal.Draft(EventJournal.Objective, objectiveId,
                       if old_.None? then "objective.created" else "objective.state_changed")
  }

  predicate CancelsPlan(t: Tables, req: Request, v: Verdict) {
    req.action.Command? && req.action.name.Cancel? && v.Proceed? && v.newStatus.Cancelled?
    && req.action.objectiveId in t.objectives
  }

  /** What the checks of `Decide` establish about the request's shape. */
  predicate Formed(t: Tables, req: Request) {
    && (req.action.Create? ==> req.body.NewObjective?)
    && (req.action.Command? ==> req.action.objectiveId in t.objectives)
  }

  function ObjectiveRow(t: Tables, req: Request, v: Verdict, now: Time): Objective
    requires v.Proceed? && Formed(t, req) && !req.action.IssueToken?
  {
    if req.action.Create? then Objective(Queued, req.body.projects, None, now, None, None, None)
    else
      var o := t.objectives[req.action.objectiveId];
      if req.action.name.Pause? then PausedRow(o, v.newStatus, now)
      else if req.action.name.Resume? then ResumedRow(o, v.newStatus, now)
      else CancelledRow(o, v.newStatus, now)
  }

  function ResponseOf(req: Request, v: Verdict, draws: Draws): Response
    requires v.Proceed?
  {
    if req.action.IssueToken? then TokenResponse(draws.token)
    else OperationResponse(draws.operationId, KindOf(req), TargetOf(req, draws), v.newStatus, draws.now)
  }

  /** The tables after a command that goes through, every changed table at once. */
  function Applied(t: Tables, req: Request, v: Verdict, draws: Draws): Tables
    requires v.Proceed? && Formed(t, req)
  {
    var response := ResponseOf(req, v, draws);
    if req.action.IssueToken? then
      t.(idempotency := t.idempotency[KeyOf(req) := Reservation(req.route, req.body, Some(response), None)])
    else
      var target := TargetOf(req, draws);
      var planId := if CancelsPlan(t, req, v) then t.objectives[target].planId else None;
      t.(idempotency := t.idempotency[KeyOf(req) :=
                          Reservation(req.route, req.body, Some(response), Some(draws.operationId))],
         operations := t.operations[draws.operationId := Operation(KindOf(req), target, v.newStatus, draws.now)],
         audit := t.audit + [AuditRow(draws.operationId, KindOf(req), target, KeyOf(req), req.route, req.body)],
         objectives := if v.writes then t.objectives[target := ObjectiveRow(t, req, v, draws.now)] else t.objectives,
         tasks := CancelTasks(t.tasks, planId, draws.now),
         plans := CancelPlan(t.plans, planId, draws.now),
         events := if v.writes then t.events + [ObjectiveEvent(target, v.oldStatus, v.newStatus, draws.now)]
           else t.events,
         journal := if v.writes then EventJournal.Append(t.journal, t.lastSequence, [Draft(target, v.oldStatus)])
           else t.journal,
         lastSequence := if v.writes then t.lastSequence + 1 else t.lastSequence)
  }

  /** A primary key this command would have to reuse. */
  predicate Collides(t: Tables, req: Request, draws: Draws) {
    && !req.action.IssueToken?
    && (draws.operationId in t.operations || (req.action.Create? && draws.objectiveId in t.objectives))
  }

  /** One request against the committed tables, as a single transition. */
  function Atomic(t: Tables, req: Request, draws: Draws): (Tables, Reply) {
    if KeyOf(req) in t.idempotency then
      var r := t.idempotency[KeyOf(req)];
      if r.route != req.route || r.body != req.body then (t, Refused(409, "idempotency_conflict"))
      else if r.response.None? then (t, Refused(409, "command_in_progress"))
      else (t, Accepted(r.response.value))
    else
      match Decide(t, req)
      case Refuse(status, code) => (t, Refused(status, code))
      case Proceed(_, _, _) =>
        if Collides(t, req, draws) then (t, Refused(500, "internal_error"))
        else (Applied(t, req, Decide(t, req), draws), Accepted(ResponseOf(req, Decide(t, req), draws)))
  }

  lemma DecideForms(t: Tables, req: Request)
    requires Decide(t, req).Proceed?
    ensures Formed(t, req)
  {
    hide HasRunningTask, HasActiveRun, PointOfNoReturn, ValidScope;
  }

  // ----- The ledger ---------------------------------------------------------------------------

  /** What the idempotency, operation and audit tables say together: every
      committed reservation carries its response, and operations and audit rows
      belong one to one to the reservations that ran a command. */
  ghost predicate Ledger(t: Tables) {
    LedgerOf(t.idempotency, t.operations, t.audit)
  }

  ghost predicate LedgerOf(idem: map<Key, Reservation>, ops: map<string, Operation>, audit: seq<AuditRow>) {
    && (forall k :: k in idem ==> Settled(idem[k], ops) && (idem[k].operationId.Some? ==> AuditedKey(audit, k)))
    && (forall i :: 0 <= i < |audit| ==> Accounted(audit[i], idem, ops))
    && (forall i, j :: 0 <= i < j < |audit| ==> audit[i].operationId != audit[j].operationId)
    && (forall op :: op in ops ==> AuditedOperation(audit, op))
  }

  ghost predicate AuditedKey(audit: seq<AuditRow>, k: Key) {
    exists i :: 0 <= i < |audit| && audit[i].key == k
  }

  ghost predicate AuditedOperation(audit: seq<AuditRow>, op: string) {
    exists i :: 0 <= i < |audit| && audit[i].operationId == op
  }

  ghost predicate Settled(r: Reservation, ops: map<string, Operation>) {
    && r.response.Some?
    && match r.response.value
       case TokenResponse(_) => r.operationId.None?
       case OperationResponse(op, kind, id, state, at) =>
         r.operationId == Some(op) && op in ops && ops[op] == Operation(kind, id, state, at)
  }

  ghost predicate Accounted(row: AuditRow, idem: map<Key, Reservation>, ops: map<string, Operation>) {
    && row.key in idem
    && idem[row.key].operationId == Some(row.operationId)
    && idem[row.key].route == row.route && idem[row.key].body == row.body
    && row.operationId in ops
    && ops[row.operationId].kind == row.kind && ops[row.operationId].objectiveId == row.objectiveId
  }

  /** For each session and key: one audit row and one operation if a command
      ran under it, none otherwise. */
  lemma OneToOne(t: Tables, k: Key)
    requires Ledger(t) && k in t.idempotency
    ensures t.idempotency[k].response.Some?
    ensures forall i, j ::
              0 <= i < |t.audit| && 0 <= j < |t.audit| && t.audit[i].key == k && t.audit[j].key == k ==> i == j
    ensures AuditedKey(t.audit, k) <==> t.idempotency[k].operationId.Some?
    ensures AuditedKey(t.audit, k) ==> t.idempotency[k].operationId.value in t.operations
  {
    assert Settled(t.idempotency[k], t.operations);
    forall i, j | 0 <= i < |t.audit| && 0 <= j < |t.audit| && t.audit[i].key == k && t.audit[j].key == k
      ensures i == j
    {
      assert Accounted(t.audit[i], t.idempotency, t.operations) && Accounted(t.audit[j], t.idempotency, t.operations);
    }
    if AuditedKey(t.audit, k) {
      var i :| 0 <= i < |t.audit| && t.audit[i].key == k;
      assert Accounted(t.audit[i], t.idempotency, t.operations);
    }
  }

  lemma TokenKeepsLedger(idem: map<Key, Reservation>, ops: map<string, Operation>, audit: seq<AuditRow>, k: Key,
                         r: Reservation)
    requires LedgerOf(idem, ops, audit) && k !in idem
    requires r.response.Some? && r.response.value.TokenResponse? && r.operationId.None?
    ensures LedgerOf(idem[k := r], ops, audit)
  {
    forall i | 0 <= i < |audit|
      ensures Accounted(audit[i], idem[k := r], ops)
    {
      assert Accounted(audit[i], idem, ops);
    }
  }

  lemma AuditStaysAccounted(
    idem: map<Key, Reservation>, ops: map<string, Operation>, audit: seq<AuditRow>,
    r: Reservation, op: Operation, row: AuditRow)
    requires LedgerOf(idem, ops, audit) && row.key !in idem && row.operationId !in ops
    ensures forall i :: 0 <= i < |audit| ==>
              && Accounted(audit[i], idem[row.key := r], ops[row.operationId := op])
              && audit[i].operationId != row.operationId
  {
    forall i | 0 <= i < |audit|
      ensures Accounted(audit[i], idem[row.key := r], ops[row.operationId := op])
              && audit[i].operationId != row.operationId
    {
      assert Accounted(audit[i], idem, ops);
    }
  }

  lemma AuditedStays(audit: seq<AuditRow>, row: AuditRow, k: Key, o: string)
    ensures AuditedKey(audit, k) || k == row.key ==> AuditedKey(audit + [row], k)
    ensures AuditedOperation(audit, o) || o == row.operationId ==> AuditedOperation(audit + [row], o)
  {
    var longer := audit + [row];
    assert longer[|audit|] == row;
    if AuditedKey(audit, k) {
      var i :| 0 <= i < |audit| && audit[i].key == k;
      assert longer[i].key == k;
    }
    if AuditedOperation(audit, o) {
      var i :| 0 <= i < |audit| && audit[i].operationId == o;
      assert longer[i].operationId == o;
    }
  }

  lemma KeysStaySettled(
    idem: map<Key, Reservation>, ops: map<string, Operation>, audit: seq<AuditRow>,
    r: Reservation, op: Operation, row: AuditRow)
    requires LedgerOf(idem, ops, audit) && row.key !in idem && row.operationId !in ops
    requires Settled(r, ops[row.operationId := op])
    ensures forall k :: k in idem[row.key := r] ==>
              && Settled(idem[row.key := r][k], ops[row.operationId := op])
              && (idem[row.key := r][k].operationId.Some? ==> AuditedKey(audit + [row], k))
  {
    var idem', ops' := idem[row.key := r], ops[row.operationId := op];
    forall k | k in idem'
      ensures Settled(idem'[k], ops') && (idem'[k].operationId.Some? ==> AuditedKey(audit + [row], k))
    {
      AuditedStays(audit, row, k, row.operationId);
      if k != row.key { assert Settled(idem[k], ops); }
    }
  }

  lemma OperationsStayAudited(ops: map<string, Operation>, audit: seq<AuditRow>, op: Operation, row: AuditRow)
    requires forall o :: o in ops ==> AuditedOperation(audit, o)
    ensures forall o :: o in ops[row.operationId := op] ==> AuditedOperation(audit + [row], o)
  {
    forall o | o in ops[row.operationId := op]
      ensures AuditedOperation(audit + [row], o)
    {
      AuditedStays(audit, row, row.key, o);
    }
  }

  lemma CommandKeepsLedger(
    idem: map<Key, Reservation>, ops: map<string, Operation>, audit: seq<AuditRow>,
    r: Reservation, op: Operation, row: AuditRow)
    requires LedgerOf(idem, ops, audit) && row.key !in idem && row.operationId !in ops
    requires Settled(r, ops[row.operationId := op])
    requires Accounted(row, idem[row.key := r], ops[row.operationId := op])
    ensures LedgerOf(idem[row.key := r], ops[row.operationId := op], audit + [row])
  {
    AuditStaysAccounted(idem, ops, audit, r, op, row);
    KeysStaySettled(idem, ops, audit, r, op, row);
    OperationsStayAudited(ops, audit, op, row);
  }

  lemma AtomicKeepsLedger(t: Tables, req: Request, draws: Draws)
    requires Ledger(t)
    ensures Ledger(Atomic(t, req, draws).0)
  {
    if KeyOf(req) !in t.idempotency && Decide(t, req).Proceed? && !Collides(t, req, draws) {
      var v := Decide(t, req);
      var response := ResponseOf(req, v, draws);
      if req.action.IssueToken? {
        TokenKeepsLedger(t.idempotency, t.operations, t.audit, KeyOf(req),
                         Reservation(req.route, req.body, Some(response), None));
      } else {
        var target := TargetOf(req, draws);
        CommandKeepsLedger(t.idempotency, t.operations, t.audit,
                           Reservation(req.route, req.body, Some(response), Some(draws.operationId)),
                           Operation(KindOf(req), target, v.newStatus, draws.now),
                           AuditRow(draws.operationId, KindOf(req), target, KeyOf(req), req.route, req.body));
      }
    }
  }
}
