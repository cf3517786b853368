/** Which failures stop a command: the sub-steps each kind of request gets to, told
    from its answer, and what a failure leaves. */
module CommandFaults {
  import opened Wrappers
  import opened ObjectiveTables
  import opened ObjectiveCommands
  import opened ObjectiveOutcomes

  /** A failure of the lock holder frees the lock, is answered with a refusal, and
      leaves the committed tables as they were; without a holder nothing happens. */
  lemma FailureFreesTheLock(s: System, status: int, code: string)
    requires Isolated(s)
    ensures s.writer.Some? ==>
              Next(s, Fail(status, code))
              == System(s.committed, None, s.outcomes + [Outcome(s.writer.value.req, Refused(status, code), false)])
    ensures s.writer.None? ==> Next(s, Fail(status, code)) == s
  {
    hide Isolated;
  }

  /** While one request holds the lock no other begins and the orchestrator waits. */
  lemma LockExcludes(s: System, req: Request, draws: Draws, tables: Tables)
    requires Isolated(s) && s.writer.Some?
    ensures Next(s, Begin(req, draws)) == s && Next(s, Environment(tables)) == s
  {
    hide Isolated, EnvironmentMay;
  }

  lemma EveryStage(stage: Stage)
    ensures stage in {Reserve, Validate, CancelTaskRows, CancelPlanRow, WriteObjective, WriteEvent, EmitJournal,
                      RecordOperation, RecordAudit, Complete, CommitWork}
  {
  }

  /** A request whose key is on record gets no further than the lookup. */
  lemma RetryStopsAtLookup(t: Tables, req: Request, stage: Stage)
    requires !Fresh(t, req)
    ensures Hits(t, req, Some(stage)) <==> stage == Reserve
  {
    hide Decide, CancelledPlan;
  }

  /** A request that the checks refuse gets as far as them. */
  lemma RefusedStopsAtChecks(t: Tables, req: Request, draws: Draws, stage: Stage)
    requires Fresh(t, req) && Atomic(t, req, draws).1.Refused?
    requires Atomic(t, req, draws).1 != Refused(500, "internal_error")
    ensures Hits(t, req, Some(stage)) <==> stage in {Reserve, Validate}
  {
    hide Decide, CancelledPlan;
  }

  /** A create writes its row, its events and its records. */
  lemma CreateReaches(t: Tables, req: Request, draws: Draws, stage: Stage)
    requires Fresh(t, req) && req.action.Create? && Atomic(t, req, draws).1.Accepted?
    ensures Hits(t, req, Some(stage)) <==> stage !in {CancelTaskRows, CancelPlanRow}
  {
    hide ValidScope;
    EveryStage(stage);
  }

  /** So does a resume. */
  lemma ResumeReaches(t: Tables, req: Request, draws: Draws, stage: Stage)
    requires Ordered(t, req, Resume) && Atomic(t, req, draws).1.Accepted?
    ensures Hits(t, req, Some(stage)) <==> stage !in {CancelTaskRows, CancelPlanRow}
  {
    hide ValidScope, Applied, ResumedStatus;
    EveryStage(stage);
  }

  /** A pause does unless the objective was paused already: then only its records. */
  lemma PauseReaches(t: Tables, req: Request, draws: Draws, stage: Stage)
    requires Ordered(t, req, Pause) && Atomic(t, req, draws).1.Accepted?
    ensures Hits(t, req, Some(stage)) <==>
              if t.objectives[req.action.objectiveId].status == Paused
              then stage in {Reserve, Validate, RecordOperation, RecordAudit, Complete, CommitWork}
              else stage !in {CancelTaskRows, CancelPlanRow}
  {
    hide ValidScope, Applied, HasRunningTask;
    EveryStage(stage);
  }

  /** A cancel stops a plan exactly when it is answered CANCELLED and there is one. */
  lemma CancelReaches(t: Tables, req: Request, draws: Draws, stage: Stage)
    requires Ordered(t, req, Cancel) && Atomic(t, req, draws).1.Accepted?
    ensures Atomic(t, req, draws).1.response.OperationResponse?
    ensures Hits(t, req, Some(stage)) <==>
              || stage !in {CancelTaskRows, CancelPlanRow}
              || (Atomic(t, req, draws).1.response.state == Cancelled
                  && t.objectives[req.action.objectiveId].planId.Some?)
  {
    hide ValidScope, Applied, HasRunningTask, HasActiveRun, PointOfNoReturn;
    EveryStage(stage);
  }
}
