/** What logins, logouts and password changes answer and leave behind, told from
    the rows a caller can see before the call, and what a whole undisturbed login
    comes to. */
module BrowserAuthOutcomes {
  import opened Wrappers
  import opened BrowserAuth

  // ----- Logout ------------------------------------------------------------------------

  /** No session can be used at any time once its row is revoked. */
  ghost predicate Dead(db: Db, id: SessionId) {
    id in db.sessions && forall now: Time :: !Live(db.sessions[id], now)
  }

  /** A first logout under its key goes through exactly when the session exists
      and was not created after the call began. It then ends that session, keeps an
      earlier revocation as it was, and changes no other row. */
  lemma LogoutEndsSession(db: Db, session: SessionId, key: string, started: Time)
    requires LogoutKey(session, key) !in db.replays
    ensures var (db', ok) := Logout(db, session, key, started);
            && (ok <==> session in db.sessions
                        && (db.sessions[session].revokedAt.Some? || db.sessions[session].createdAt <= started))
            && (!ok ==> db' == db)
            && (ok ==>
                  && Dead(db', session)
                  && db'.sessions[session].revokedAt
                     == Some(if db.sessions[session].revokedAt.Some? then db.sessions[session].revokedAt.value
                             else started)
                  && db'.sessions == db.sessions[session :=
                       db.sessions[session].(revokedAt := db'.sessions[session].revokedAt)]
                  && db'.replays == db.replays[LogoutKey(session, key) := Replay(session, 200, Some(session))]
                  && db'.audit == db.audit + [AuditRow(LoggedOut, "", started)]
                  && db'.credential == db.credential)
  {
    var db' := Logout(db, session, key, started).0;
    if session in db.sessions && db.sessions[session].revokedAt.Some? {
      assert db'.sessions == db.sessions;
    }
  }

  /** A logout that is repeated changes nothing and is answered with success. */
  lemma LogoutRepeats(db: Db, session: SessionId, key: string, started: Time)
    requires LogoutKey(session, key) in db.replays
    ensures Logout(db, session, key, started) == (db, true)
  {
  }

  /** Every logout on record ended its session. */
  ghost predicate LogoutsHold(db: Db) {
    forall session, key :: LogoutKey(session, key) in db.replays ==>
      session in db.sessions && db.sessions[session].revokedAt.Some?
  }

  lemma ExtendsKeepsLogouts(db: Db, db': Db)
    requires LogoutsHold(db) && Extends(db, db')
    requires forall session, key :: LogoutKey(session, key) in db'.replays ==> LogoutKey(session, key) in db.replays
    ensures LogoutsHold(db')
  {
  }

  lemma LogoutKeepsLogouts(db: Db, session: SessionId, key: string, started: Time)
    requires LogoutsHold(db)
    ensures LogoutsHold(Logout(db, session, key, started).0)
  {
  }

  /** Only a logout records a logout. */
  lemma OthersRecordNoLogout(s: System, step: Step, session: SessionId, key: string)
    requires !step.EndSession? && LogoutKey(session, key) in Next(s, step).db.replays
    ensures LogoutKey(session, key) in s.db.replays
  {
    hide ReplayOf, Blocked;
  }

  lemma StepKeepsLogouts(s: System, step: Step)
    requires Inv(s) && LogoutsHold(s.db)
    ensures LogoutsHold(Next(s, step).db)
  {
    hide Inv, Extends, AttemptStep, Logout, LogoutsHold;
    match step
    case EndSession(session, key, started) => LogoutKeepsLogouts(s.db, session, key, started);
    case _ =>
      StepKeepsInv(s, step);
      forall session, key | LogoutKey(session, key) in Next(s, step).db.replays
        ensures LogoutKey(session, key) in s.db.replays
      {
        OthersRecordNoLogout(s, step, session, key);
      }
      ExtendsKeepsLogouts(s.db, Next(s, step).db);
  }

  lemma {:induction false} RunKeepsLogouts(s: System, steps: seq<Step>)
    requires Inv(s) && LogoutsHold(s.db)
    ensures LogoutsHold(Run(s, steps).db)
    decreases |steps|
  {
    if steps == [] {
    } else {
      hide Inv, Next, LogoutsHold;
      StepKeepsInv(s, steps[0]);
      StepKeepsLogouts(s, steps[0]);
      RunKeepsLogouts(Next(s, steps[0]), steps[1..]);
    }
  }

  /** A logout is final: once it is answered with success, whether for the first
      time or again, its session is dead in that and every later state, whatever
      logins, retries and password changes follow. */
  lemma LogoutIsFinal(clock: Time, before: seq<Step>, session: SessionId, key: string, started: Time,
                      steps: seq<Step>)
    requires var s := Run(Start(clock), before);
             started <= s.clock && Logout(s.db, session, key, started).1
    ensures var s := Run(Start(clock), before);
            Dead(Run(Next(s, EndSession(session, key, started)), steps).db, session)
  {
    hide Run, Next, Logout, Inv;
    StartIsInv(clock);
    RunKeepsInv(Start(clock), before);
    RunKeepsLogouts(Start(clock), before);
    LogoutNext(Run(Start(clock), before), session, key, started);
    var s1 := Next(Run(Start(clock), before), EndSession(session, key, started));
    RunKeepsInv(s1, steps);
  }

  lemma LogoutNext(s: System, session: SessionId, key: string, started: Time)
    requires Inv(s) && LogoutsHold(s.db) && started <= s.clock && Logout(s.db, session, key, started).1
    ensures var s1 := Next(s, EndSession(session, key, started));
            Inv(s1) && session in s1.db.sessions && s1.db.sessions[session].revokedAt.Some?
  {
    hide Inv;
    StepKeepsInv(s, EndSession(session, key, started));
  }

  // ----- Password changes -----------------------------------------------------------------

  /** After a password change just the new password matches, the account is the
      same, and every session is revoked at the moment the change began unless it
      was revoked before. */
  lemma PasswordChangeLeaves(db: Db, change: Change, started: Time, password: string)
    requires SetPassword(db, change, started).1
    ensures var db' := SetPassword(db, change, started).0;
            && db.credential.Some? && db'.credential.Some?
            && db'.credential.value.username == db.credential.value.username == change.username
            && db'.credential.value.createdAt == db.credential.value.createdAt
            && db'.credential.value.updatedAt == started
            && db'.credential.value.salt == change.salt
            && (Matches(db'.credential, password) <==> password == change.password)
            && db'.sessions.Keys == db.sessions.Keys
            && (forall id :: id in db.sessions ==>
                  db'.sessions[id] ==
                    if db.sessions[id].revokedAt.Some? then db.sessions[id]
                    else db.sessions[id].(revokedAt := Some(started)))
            && db'.replays == db.replays
            && db'.audit == db.audit + [AuditRow(PasswordChanged, "", started)]
  {
  }

  // ----- What is counted -----------------------------------------------------------------------

  ghost predicate Counts(row: AuditRow, outcome: Outcome, source: string, from: Time, to: Time) {
    row.outcome == outcome && row.source == source && from <= row.createdAt <= to
  }

  /** The rows of the audit table a count is about. */
  ghost function Rows(audit: seq<AuditRow>, outcome: Outcome, source: string, from: Time, to: Time): set<nat> {
    set i: nat | i < |audit| && Counts(audit[i], outcome, source, from, to)
  }

  lemma RowsSnoc(audit: seq<AuditRow>, outcome: Outcome, source: string, from: Time, to: Time)
    requires audit != []
    ensures |Rows(audit, outcome, source, from, to)|
         == |Rows(audit[..|audit| - 1], outcome, source, from, to)|
            + (if Counts(audit[|audit| - 1], outcome, source, from, to) then 1 else 0)
  {
    hide Counts, Rows;
    var n := |audit| - 1;
    RowsGrow(audit, outcome, source, from, to);
    if Counts(audit[n], outcome, source, from, to) {
      assert n !in Rows(audit[..n], outcome, source, from, to);
    }
  }

  lemma RowsGrow(audit: seq<AuditRow>, outcome: Outcome, source: string, from: Time, to: Time)
    requires audit != []
    ensures var n := |audit| - 1;
            && n !in Rows(audit[..n], outcome, source, from, to)
            && Rows(audit, outcome, source, from, to)
               == if Counts(audit[n], outcome, source, from, to) then Rows(audit[..n], outcome, source, from, to) + {n}
                  else Rows(audit[..n], outcome, source, from, to)
  {
    hide Counts;
    var n := |audit| - 1;
    forall i: nat
      ensures i in Rows(audit, outcome, source, from, to)
              <==> i in Rows(audit[..n], outcome, source, from, to)
                   || (i == n && Counts(audit[n], outcome, source, from, to))
    {
    }
  }

  /** The window count is the number of failures of that source in it. */
  lemma {:induction false} WithinIsCardinality(audit: seq<AuditRow>, source: string, from: Time, to: Time)
    ensures CountWithin(audit, source, from, to) == |Rows(audit, Failure, source, from, to)|
  {
    if audit == [] {
    } else {
      RowsSnoc(audit, Failure, source, from, to);
      WithinIsCardinality(audit[..|audit| - 1], source, from, to);
    }
  }

  /** The query's count is the number of such rows from the threshold on. */
  lemma {:induction false} SinceIsCardinality(audit: seq<AuditRow>, outcome: Outcome, source: string, since: Time,
                                              now: Time)
    requires forall i :: 0 <= i < |audit| ==> audit[i].createdAt <= now
    ensures CountSince(audit, outcome, source, since) == |Rows(audit, outcome, source, since, now)|
  {
    if audit == [] {
    } else {
      RowsSnoc(audit, outcome, source, since, now);
      SinceIsCardinality(audit[..|audit| - 1], outcome, source, since, now);
    }
  }

  // ----- What every run keeps of the audit table ---------------------------------------------------

  ghost predicate AuditBy(audit: seq<AuditRow>, now: Time) {
    forall i :: 0 <= i < |audit| ==> audit[i].createdAt <= now
  }

  /** Two blocks noted for one source lie more than sixty seconds apart. */
  ghost predicate BlocksSpaced(audit: seq<AuditRow>) {
    forall i, j :: 0 <= i < j < |audit| && audit[i].outcome == audit[j].outcome == RateLimited
                   && audit[i].source == audit[j].source ==>
      audit[i].createdAt + 60000 < audit[j].createdAt
  }

  /** A step adds at most one audit row, dated by now, and notes a block only if
      none was noted in the last sixty seconds. */
  ghost predicate AddsOneRow(s: System, s': System) {
    && s.clock <= s'.clock
    && (s'.db.audit == s.db.audit
        || (exists row :: s'.db.audit == s.db.audit + [row] && RowFits(s, row)))
  }

  ghost predicate RowFits(s: System, row: AuditRow) {
    && row.createdAt <= s.clock
    && (row.outcome == RateLimited ==>
          row.createdAt == s.clock && CountSince(s.db.audit, RateLimited, row.source, s.clock - LOGIN_WINDOW) == 0)
  }

  lemma RowAdded(s: System, s': System, row: AuditRow)
    requires s.clock <= s'.clock && s'.db.audit == s.db.audit + [row] && RowFits(s, row)
    ensures AddsOneRow(s, s')
  {
  }

  lemma NoRowAdded(s: System, s': System)
    requires s.clock <= s'.clock && s'.db.audit == s.db.audit
    ensures AddsOneRow(s, s')
  {
  }

  lemma FinishAudits(db: Db, req: LoginRequest, read: Option<Credential>, valid: bool, now: Time)
    returns (row: AuditRow)
    ensures var db' := FinishLogin(db, req, read, valid, now).0;
            db'.audit == db.audit || db'.audit == db.audit + [row]
    ensures row.createdAt == now
    ensures row.outcome == RateLimited ==>
              FinishLogin(db, req, read, valid, now).0.audit == db.audit
              || CountSince(db.audit, RateLimited, row.source, now - LOGIN_WINDOW) == 0
  {
    hide CountSince, ReplayOf, CredentialOf;
    row := AuditRow(if Blocked(db, req.source, now) then RateLimited else if valid then Success else Failure,
                    req.source, now);
  }

  lemma FinishAddsOneRow(s: System, id: nat)
    requires id in s.attempts && s.attempts[id].phase.Derived?
    ensures AddsOneRow(s, Next(s, Finish(id)))
  {
    hide CountSince, ReplayOf, FinishLogin, Blocked, AddsOneRow;
    var a := s.attempts[id];
    var s' := Next(s, Finish(id));
    var row := FinishAudits(s.db, a.request, a.phase.read, a.phase.valid, s.clock);
    if s'.db.audit == s.db.audit { NoRowAdded(s, s'); } else { RowAdded(s, s', row); }
  }

  lemma LimitAddsOneRow(s: System, id: nat)
    requires id in s.attempts
    ensures AddsOneRow(s, Next(s, CheckLimit(id)))
  {
    hide CountSince, ReplayOf, FinishLogin, AddsOneRow;
    var s' := Next(s, CheckLimit(id));
    if s'.db.audit == s.db.audit { NoRowAdded(s, s'); }
    else { RowAdded(s, s', AuditRow(RateLimited, s.attempts[id].request.source, s.clock)); }
  }

  lemma OtherStepsAddNoRow(s: System, id: nat, step: Step)
    requires id in s.attempts && !step.Finish? && !step.CheckLimit?
    ensures AttemptStep(s, id, step).db == s.db && AttemptStep(s, id, step).clock == s.clock
  {
    hide ReplayOf, Blocked, CredentialOf, Matches;
  }

  lemma StepAddsOneRow(s: System, step: Step)
    ensures AddsOneRow(s, Next(s, step))
  {
    hide AttemptStep, AddsOneRow;
    var s' := Next(s, step);
    if s'.db.audit == s.db.audit && s.clock <= s'.clock { NoRowAdded(s, s'); }
    match step
    case Finish(id) =>
      if id in s.attempts { FinishStepAddsOneRow(s, id); }
    case CheckLimit(id) =>
      if id in s.attempts { LimitAddsOneRow(s, id); }
    case ChangePassword(_, started) =>
      if s'.db.audit != s.db.audit { RowAdded(s, s', AuditRow(PasswordChanged, "", started)); }
    case EndSession(_, _, started) =>
      if s'.db.audit != s.db.audit { RowAdded(s, s', AuditRow(LoggedOut, "", started)); }
    case Tick(_) =>
    case Initialize(_) =>
    case Arrive(_, _) =>
    case _ =>
      if step.id in s.attempts { OtherStepsAddNoRow(s, step.id, step); }
  }

  lemma FinishStepAddsOneRow(s: System, id: nat)
    requires id in s.attempts
    ensures AddsOneRow(s, Next(s, Finish(id)))
  {
    hide AddsOneRow, FinishLogin;
    if s.attempts[id].phase.Derived? { FinishAddsOneRow(s, id); } else { NoRowAdded(s, Next(s, Finish(id))); }
  }

  lemma RowKeepsSpacing(s: System, row: AuditRow)
    requires AuditBy(s.db.audit, s.clock) && BlocksSpaced(s.db.audit) && RowFits(s, row)
    ensures BlocksSpaced(s.db.audit + [row])
  {
    if row.outcome == RateLimited {
      var from := s.clock - LOGIN_WINDOW;
      SinceIsCardinality(s.db.audit, RateLimited, row.source, from, s.clock);
      var none: set<nat> := {};
      assert Rows(s.db.audit, RateLimited, row.source, from, s.clock) == none;
      forall i | 0 <= i < |s.db.audit| && s.db.audit[i].outcome == RateLimited && s.db.audit[i].source == row.source
        ensures s.db.audit[i].createdAt < from
      {
        assert i !in Rows(s.db.audit, RateLimited, row.source, from, s.clock);
      }
    }
  }

  lemma StepKeepsSpacing(s: System, step: Step)
    requires AuditBy(s.db.audit, s.clock) && BlocksSpaced(s.db.audit)
    ensures AuditBy(Next(s, step).db.audit, Next(s, step).clock) && BlocksSpaced(Next(s, step).db.audit)
  {
    hide Next, CountSince, BlocksSpaced;
    StepAddsOneRow(s, step);
    var s' := Next(s, step);
    if s'.db.audit != s.db.audit {
      var row :| s'.db.audit == s.db.audit + [row] && RowFits(s, row);
      RowKeepsSpacing(s, row);
    }
  }

  lemma {:induction false} RunKeepsSpacing(s: System, steps: seq<Step>)
    requires AuditBy(s.db.audit, s.clock) && BlocksSpaced(s.db.audit)
    ensures AuditBy(Run(s, steps).db.audit, Run(s, steps).clock) && BlocksSpaced(Run(s, steps).db.audit)
    decreases |steps|
  {
    if steps == [] {
    } else {
      hide Next, AuditBy, BlocksSpaced;
      StepKeepsSpacing(s, steps[0]);
      RunKeepsSpacing(Next(s, steps[0]), steps[1..]);
    }
  }

  /** However many attempts are turned away, in every run at most one block a
      minute is noted for one source. */
  lemma BlocksAreSpaced(clock: Time, steps: seq<Step>)
    ensures BlocksSpaced(Run(Start(clock), steps).db.audit)
    ensures AuditBy(Run(Start(clock), steps).db.audit, Run(Start(clock), steps).clock)
  {
    RunKeepsSpacing(Start(clock), steps);
  }

  // ----- Retries of a login ------------------------------------------------------------------------

  /** The answer to a login whose key is on record: a different request is a
      conflict; the request itself is answered with its session exactly while that
      is neither revoked nor expired, and refused otherwise, also when it failed. */
  lemma RetryAnswers(db: Db, req: LoginRequest, now: Time)
    requires Paired(db) && LoginKey(req.source, req.key) in db.replays
    ensures var first := db.replays[LoginKey(req.source, req.key)].request;
            ReplayOf(db, req, now) ==
              Some(if first != req then Denied(409, "idempotency_key_conflict")
                   else if req in db.sessions && db.sessions[req].revokedAt.None? && now < db.sessions[req].expiresAt
                   then LoggedIn(req)
                   else Denied(401, "authentication_required"))
  {
    assert ReplayOk(db, req.source, req.key);
  }

  /** A login under a new key is no retry. */
  lemma NewKeyIsNoRetry(db: Db, req: LoginRequest, now: Time)
    requires LoginKey(req.source, req.key) !in db.replays
    ensures ReplayOf(db, req, now).None?
  {
  }

  /** A login that failed stays failed: in every later state each retry under its
      key is refused, even if the password has been changed to match since. */
  lemma FailedLoginStaysFailed(s: System, req: LoginRequest, steps: seq<Step>, retry: LoginRequest, now: Time)
    requires Inv(s) && LoginKey(req.source, req.key) in s.db.replays
    requires s.db.replays[LoginKey(req.source, req.key)].status != 200
    requires retry.source == req.source && retry.key == req.key
    ensures ReplayOf(Run(s, steps).db, retry, now).Some?
    ensures ReplayOf(Run(s, steps).db, retry, now).value.Denied?
  {
    hide Run;
    RunKeepsInv(s, steps);
  }

  // ----- The locked last phase ------------------------------------------------------------------------

  /** The source has failed five times in the sixty seconds up to now. */
  ghost predicate TooManyFailures(db: Db, source: string, now: Time) {
    |Rows(db.audit, Failure, source, now - 60000, now)| >= 5
  }

  lemma BlockedMeansFailures(db: Db, source: string, now: Time)
    requires AuditBy(db.audit, now)
    ensures Blocked(db, source, now) <==> TooManyFailures(db, source, now)
  {
    SinceIsCardinality(db.audit, Failure, source, now - LOGIN_WINDOW, now);
  }

  /** The account as it is stored now is the one the login read. */
  ghost predicate SameAccount(db: Db, username: string, read: Option<Credential>) {
    if db.credential.Some? && db.credential.value.username == username then read == db.credential
    else read == None
  }

  /** A login with a new key opens a session exactly when its source is not
      blocked, the account is unchanged since it was read, and the password
      matched; every refusal says why, and only a wrong password and a block leave
      a trace. */
  lemma FinishAnswers(db: Db, req: LoginRequest, read: Option<Credential>, valid: bool, now: Time)
    requires Paired(db) && AuditBy(db.audit, now) && LoginKey(req.source, req.key) !in db.replays
    requires valid == Matches(read, req.password)
    ensures var (db', reply) := FinishLogin(db, req, read, valid, now);
            var blocked, same := TooManyFailures(db, req.source, now), SameAccount(db, req.username, read);
            && (reply == LoggedIn(req) <==> !blocked && same && valid)
            && (reply == Denied(403, "authentication_temporarily_blocked") <==> blocked)
            && (reply == Denied(503, "browser_auth_credential_changed") <==> !blocked && !same)
            && (reply == Denied(401, "authentication_required") <==> !blocked && same && !valid)
            && (reply.LoggedIn? ==> OpensSession(db, db', req, now))
            && (!blocked && same && !valid ==> NotesFailure(db, db', req, now))
            && (blocked ==> NotesBlock(db, db', req.source, now))
            && (!blocked && !same ==> db' == db)
  {
    hide CountSince, TooManyFailures, Rows;
    BlockedMeansFailures(db, req.source, now);
    BlockLeaves(db, req.source, now);
    NewKeyIsNoRetry(db, req, now);
    NoCollision(db, req, now);
  }

  /** One session for exactly twelve hours, its key and an audit row. */
  ghost predicate OpensSession(db: Db, db': Db, req: LoginRequest, now: Time) {
    && db'.credential == db.credential && db.credential.Some?
    && db'.sessions == db.sessions[req := Session(now, now + 43200000, None, db.credential.value)]
    && db'.replays == db.replays[LoginKey(req.source, req.key) := Replay(req, 200, Some(req))]
    && db'.audit == db.audit + [AuditRow(Success, req.source, now)]
  }

  ghost predicate NotesFailure(db: Db, db': Db, req: LoginRequest, now: Time) {
    && db'.credential == db.credential && db'.sessions == db.sessions
    && db'.replays == db.replays[LoginKey(req.source, req.key) := Replay(req, 401, None)]
    && db'.audit == db.audit + [AuditRow(Failure, req.source, now)]
  }

  /** A block is noted unless one was noted for that source in the last sixty
      seconds; nothing else changes. */
  ghost predicate NotesBlock(db: Db, db': Db, source: string, now: Time) {
    && db'.credential == db.credential && db'.sessions == db.sessions && db'.replays == db.replays
    && db'.audit == db.audit + (if Rows(db.audit, RateLimited, source, now - 60000, now) == {}
                                then [AuditRow(RateLimited, source, now)] else [])
  }

  lemma BlockLeaves(db: Db, source: string, now: Time)
    requires AuditBy(db.audit, now)
    ensures NotesBlock(db, RecordBlock(db, source, now), source, now)
  {
    SinceIsCardinality(db.audit, RateLimited, source, now - LOGIN_WINDOW, now);
    assert db.audit + [] == db.audit;
  }

  // ----- An undisturbed login ---------------------------------------------------------------------------

  /** The steps of one login with nothing between them. */
  function LoginSteps(id: nat, req: LoginRequest): seq<Step> {
    [Arrive(id, req), CheckReplay(id), CheckLimit(id), ReadCredential(id), AcquireSlot(id), Derive(id), Finish(id)]
  }

  lemma RunStep(s: System, steps: seq<Step>)
    requires steps != []
    ensures Run(s, steps) == Run(Next(s, steps[0]), steps[1..])
  {
  }

  /** A login left alone, with a free slot, ends in the last phase on the rows it
      began with, and has answered what that phase answers. */
  lemma UndisturbedLogin(s: System, id: nat, req: LoginRequest)
    requires id !in s.attempts && s.freeSlots > 0
    requires LoginKey(req.source, req.key) !in s.db.replays && !Blocked(s.db, req.source, s.clock)
    ensures var read := CredentialOf(s.db, req.username);
            var (db, reply) := FinishLogin(s.db, req, read, Matches(read, req.password), s.clock);
            Run(s, LoginSteps(id, req)) == s.(db := db, answers := s.answers + [Answer(req, reply, s.clock)])
  {
    hide Run, Next, FinishLogin, Blocked, Matches, CredentialOf;
    var steps := LoginSteps(id, req);
    var s1 := Next(s, Arrive(id, req));
    var s2 := Next(s1, CheckReplay(id));
    var s3 := Next(Next(s2, CheckLimit(id)), ReadCredential(id));
    RunStep(s, steps);
    RunStep(s1, steps[1..]);
    RunStep(s2, steps[2..]);
    RunStep(Next(s2, CheckLimit(id)), steps[3..]);
    ArrivesAndReads(s, id, req);
    UndisturbedDerivation(s, id, req, CredentialOf(s.db, req.username), s3, steps[4..]);
  }

  lemma ArrivesAndReads(s: System, id: nat, req: LoginRequest)
    requires id !in s.attempts
    requires LoginKey(req.source, req.key) !in s.db.replays && !Blocked(s.db, req.source, s.clock)
    ensures Next(Next(Next(Next(s, Arrive(id, req)), CheckReplay(id)), CheckLimit(id)), ReadCredential(id))
         == s.(attempts := s.attempts[id := Attempt(req, CredentialRead(CredentialOf(s.db, req.username)))])
  {
    hide FinishLogin, Blocked, CredentialOf, RecordBlock, ReplayOf;
    NewKeyIsNoRetry(s.db, req, s.clock);
    var s2 := Next(Next(s, Arrive(id, req)), CheckReplay(id));
    assert s2 == s.(attempts := s.attempts[id := Attempt(req, Admitted)]);
    assert Next(s2, CheckLimit(id)) == s2;
  }

  lemma AcquireThenDerive(s: System, id: nat, req: LoginRequest, read: Option<Credential>)
    requires id !in s.attempts && s.freeSlots > 0
    ensures var s3 := s.(attempts := s.attempts[id := Attempt(req, CredentialRead(read))]);
            Next(Next(s3, AcquireSlot(id)), Derive(id))
            == s.(attempts := s.attempts[id := Attempt(req, Derived(read, Matches(read, req.password)))])
  {
    hide FinishLogin, Matches, ReplayOf, Blocked;
    var s3 := s.(attempts := s.attempts[id := Attempt(req, CredentialRead(read))]);
    assert Next(s3, AcquireSlot(id))
        == s.(attempts := s.attempts[id := Attempt(req, Deriving(read))], freeSlots := s.freeSlots - 1);
  }

  lemma FinishLeaves(s: System, id: nat, req: LoginRequest, read: Option<Credential>, valid: bool)
    requires id !in s.attempts
    ensures var (db, reply) := FinishLogin(s.db, req, read, valid, s.clock);
            Next(s.(attempts := s.attempts[id := Attempt(req, Derived(read, valid))]), Finish(id))
            == s.(db := db, answers := s.answers + [Answer(req, reply, s.clock)])
  {
    hide FinishLogin, ReplayOf, Blocked;
    assert s.attempts[id := Attempt(req, Derived(read, valid))] - {id} == s.attempts;
  }

  lemma UndisturbedDerivation(s: System, id: nat, req: LoginRequest, read: Option<Credential>, s3: System,
                              steps: seq<Step>)
    requires id !in s.attempts && s.freeSlots > 0 && steps == [AcquireSlot(id), Derive(id), Finish(id)]
    requires s3 == s.(attempts := s.attempts[id := Attempt(req, CredentialRead(read))])
    ensures var (db, reply) := FinishLogin(s.db, req, read, Matches(read, req.password), s.clock);
            Run(s3, steps) == s.(db := db, answers := s.answers + [Answer(req, reply, s.clock)])
  {
    hide Run, Next, FinishLogin, Matches;
    var s4 := Next(s3, AcquireSlot(id));
    var s5 := Next(s4, Derive(id));
    var s6 := Next(s5, Finish(id));
    RunStep(s3, steps);
    RunStep(s4, steps[1..]);
    RunStep(s5, steps[2..]);
    RunNone(s6, steps[3..]);
    AcquireThenDerive(s, id, req, read);
    FinishLeaves(s, id, req, read, Matches(read, req.password));
  }

  lemma RunNone(s: System, steps: seq<Step>)
    requires steps == []
    ensures Run(s, steps) == s
  {
  }

  /** Left alone, a login with a new key and the right name and password opens a
      session; with anything else it is refused and counted. */
  lemma RightPasswordLogsIn(s: System, id: nat, req: LoginRequest)
    requires Inv(s) && AuditBy(s.db.audit, s.clock) && id !in s.attempts && s.freeSlots > 0
    requires LoginKey(req.source, req.key) !in s.db.replays && !TooManyFailures(s.db, req.source, s.clock)
    ensures var s' := Run(s, LoginSteps(id, req));
            var right := s.db.credential.Some? && s.db.credential.value.username == req.username
                         && Matches(s.db.credential, req.password);
            && s'.answers == s.answers + [Answer(req, if right then LoggedIn(req)
                                                      else Denied(401, "authentication_required"), s.clock)]
            && (if right then OpensSession(s.db, s'.db, req, s.clock) else NotesFailure(s.db, s'.db, req, s.clock))
            && s'.attempts == s.attempts && s'.freeSlots == s.freeSlots && s'.clock == s.clock
  {
    hide Run, FinishLogin, GoodDb, TooManyFailures, OpensSession, NotesFailure, NotesBlock, Blocked;
    BlockedMeansFailures(s.db, req.source, s.clock);
    UndisturbedLogin(s, id, req);
    assert Paired(s.db) by { InvIsPaired(s); }
    var read := CredentialOf(s.db, req.username);
    FinishAnswers(s.db, req, read, Matches(read, req.password), s.clock);
  }

  lemma InvIsPaired(s: System)
    requires Inv(s)
    ensures Paired(s.db)
  {
  }

  /** Rows no run leaves behind are refused, not repaired: a login on record whose
      session row is missing, and a session row without its login. */
  lemma DamagedRowsRefuse(db: Db, req: LoginRequest, read: Option<Credential>, valid: bool, now: Time)
    ensures var key := LoginKey(req.source, req.key);
            && (key in db.replays && db.replays[key].request == req && db.replays[key].status == 200
                && db.replays[key].session.Some? && db.replays[key].session.value !in db.sessions ==>
                  FinishLogin(db, req, read, valid, now) == (db, Denied(503, "browser_auth_session_invalid")))
            && (key !in db.replays && !Blocked(db, req.source, now) && CredentialOf(db, req.username) == read
                && valid ==>
                  && (read.None? ==>
                        FinishLogin(db, req, read, valid, now) == (db, Denied(503, "browser_auth_operator_invalid")))
                  && (read.Some? && req in db.sessions ==>
                        FinishLogin(db, req, read, valid, now) == (db, Denied(503, "browser_auth_unavailable"))))
  {
    hide Blocked, CredentialOf;
  }

  /** A blocked source is turned away before the credential is even read, and a
      retry before anything is derived. */
  lemma TurnedAwayEarly(s: System, id: nat, req: LoginRequest)
    requires Paired(s.db) && AuditBy(s.db.audit, s.clock) && id in s.attempts && s.attempts[id].request == req
    ensures s.attempts[id].phase.Arrived? && LoginKey(req.source, req.key) in s.db.replays ==>
              && ReplayOf(s.db, req, s.clock).Some?
              && Next(s, CheckReplay(id)) == Leave(s, id, ReplayOf(s.db, req, s.clock).value)
    ensures s.attempts[id].phase.Admitted? && TooManyFailures(s.db, req.source, s.clock) ==>
              && Next(s, CheckLimit(id)).answers
                 == s.answers + [Answer(req, Denied(403, "authentication_temporarily_blocked"), s.clock)]
              && NotesBlock(s.db, Next(s, CheckLimit(id)).db, req.source, s.clock)
    ensures s.attempts[id].phase.CredentialRead? && s.freeSlots == 0 ==>
              Next(s, AcquireSlot(id)).answers
              == s.answers + [Answer(req, Denied(503, "browser_auth_capacity_exhausted"), s.clock)]
  {
    hide CountSince, Blocked, RecordBlock, NotesBlock, TooManyFailures, FinishLogin;
    BlockedMeansFailures(s.db, req.source, s.clock);
    BlockLeaves(s.db, req.source, s.clock);
    if LoginKey(req.source, req.key) in s.db.replays { RetryAnswers(s.db, req, s.clock); }
  }
}
