/** Browser logins in three phases (read the credential, derive outside any
    lock, re-check and commit), interleaved with other logins, password changes
    and logouts. */
module BrowserAuth {
  import opened Wrappers

  type Time = int

  const SESSION_TTL: Time := 12 * 60 * 60 * 1000
  const LOGIN_WINDOW: Time := 60 * 1000
  const LOGIN_MAX_FAILURES: nat := 5
  const LOGIN_MAX_CONCURRENT_DERIVATIONS: nat := 2

  /** The key derivation, modelled as an injective function of all its inputs. */
  datatype Digest = Scrypt(password: string, salt: string, n: nat, r: nat, p: nat)

  datatype Credential = Credential(
    username: string, salt: string, digest: Digest, n: nat, r: nat, p: nat, createdAt: Time, updatedAt: Time)

  predicate Matches(credential: Option<Credential>, password: string) {
    credential.Some?
    && var c := credential.value; c.digest == Scrypt(password, c.salt, c.n, c.r, c.p)
  }

  datatype LoginRequest = LoginRequest(source: string, key: string, username: string, password: string)

  /** Session tokens, and so session identifiers, are keyed hashes of the
      request; modelled by the request itself. */
  type SessionId = LoginRequest

  /** A session row. `verified` is the credential its login was checked
      against; the table has no such column, the proof keeps track of it. */
  datatype Session = Session(createdAt: Time, expiresAt: Time, revokedAt: Option<Time>, verified: Credential)

  datatype ReplayKey = LoginKey(source: string, key: string) | LogoutKey(session: SessionId, key: string)

  datatype Replay = Replay(request: LoginRequest, status: int, session: Option<SessionId>)

  datatype Outcome = Success | Failure | RateLimited | LoggedOut | PasswordChanged

  datatype AuditRow = AuditRow(outcome: Outcome, source: string, createdAt: Time)

  datatype Db = Db(
    credential: Option<Credential>,
    sessions: map<SessionId, Session>,
    replays: map<ReplayKey, Replay>,
    audit: seq<AuditRow>)

  datatype LoginReply = LoggedIn(session: SessionId) | Denied(status: int, code: string)

  // ----- Queries ----------------------------------------------------------------------

  /** Audit rows with this outcome and source at or after `since`. */
  function CountSince(audit: seq<AuditRow>, outcome: Outcome, source: string, since: Time): nat {
    if audit == [] then 0
    else
      var row := audit[|audit| - 1];
      CountSince(audit[..|audit| - 1], outcome, source, since)
      + (if row.outcome == outcome && row.source == source && row.createdAt >= since then 1 else 0)
  }

  /** The credential row a query for one username finds. */
  function CredentialOf(db: Db, username: string): Option<Credential> {
    if db.credential.Some? && db.credential.value.username == username then db.credential else None
  }

  predicate Live(s: Session, now: Time) {
    s.revokedAt.None? && now < s.expiresAt
  }

  /** The answer to a login whose key was used before, if it was. */
  function ReplayOf(db: Db, req: LoginRequest, now: Time): Option<LoginReply> {
    var key := LoginKey(req.source, req.key);
    if key !in db.replays then None
    else
      var replay := db.replays[key];
      if replay.request != req then Some(Denied(409, "idempotency_key_conflict"))
      else if replay.status != 200 || replay.session.None? then Some(Denied(401, "authentication_required"))
      else if replay.session.value !in db.sessions then Some(Denied(503, "browser_auth_session_invalid"))
      else if !Live(db.sessions[replay.session.value], now) then Some(Denied(401, "authentication_required"))
      else Some(LoggedIn(replay.session.value))
  }

  predicate Blocked(db: Db, source: string, now: Time) {
    CountSince(db.audit, Failure, source, now - LOGIN_WINDOW) >= LOGIN_MAX_FAILURES
  }

  // ----- Transactions -------------------------------------------------------------------

  function Audited(db: Db, outcome: Outcome, source: string, now: Time): Db {
    db.(audit := db.audit + [AuditRow(outcome, source, now)])
  }

  function RecordBlock(db: Db, source: string, now: Time): Db {
    if CountSince(db.audit, RateLimited, source, now - LOGIN_WINDOW) == 0 then Audited(db, RateLimited, source, now)
    else db
  }

  function RecordFailure(db: Db, req: LoginRequest, now: Time): Db {
    Audited(db.(replays := db.replays[LoginKey(req.source, req.key) := Replay(req, 401, None)]),
            Failure, req.source, now)
  }

  function RecordSuccess(db: Db, req: LoginRequest, c: Credential, now: Time): Db {
    Audited(db.(sessions := db.sessions[req := Session(now, now + SESSION_TTL, None, c)],
                replays := db.replays[LoginKey(req.source, req.key) := Replay(req, 200, Some(req))]),
            Success, req.source, now)
  }

  /** The locked last phase of a login that read `read` and derived `valid`. */
  function FinishLogin(db: Db, req: LoginRequest, read: Option<Credential>, valid: bool, now: Time): (Db, LoginReply) {
    if ReplayOf(db, req, now).Some? then (db, ReplayOf(db, req, now).value)
    else if Blocked(db, req.source, now) then
      (RecordBlock(db, req.source, now), Denied(403, "authentication_temporarily_blocked"))
    else if CredentialOf(db, req.username) != read then (db, Denied(503, "browser_auth_credential_changed"))
    else if !valid then (RecordFailure(db, req, now), Denied(401, "authentication_required"))
    else if read.None? then (db, Denied(503, "browser_auth_operator_invalid"))
    else if req in db.sessions then (db, Denied(503, "browser_auth_unavailable"))
    else (RecordSuccess(db, req, read.value, now), LoggedIn(req))
  }

  function RevokeAll(sessions: map<SessionId, Session>, now: Time): map<SessionId, Session> {
    map id | id in sessions ::
      if sessions[id].revokedAt.None? then sessions[id].(revokedAt := Some(now)) else sessions[id]
  }

  /** The row checks: a revocation may not predate its session. */
  predicate RevocableAt(sessions: map<SessionId, Session>, now: Time) {
    forall id :: id in sessions && sessions[id].revokedAt.None? ==> sessions[id].createdAt <= now
  }

  datatype Change = Change(username: string, password: string, salt: string, n: nat, r: nat, p: nat)

  function Changed(c: Credential, change: Change, now: Time): Credential {
    c.(salt := change.salt, digest := Scrypt(change.password, change.salt, change.n, change.r, change.p),
       n := change.n, r := change.r, p := change.p, updatedAt := now)
  }

  /** `set_password`; `started` is the clock reading it took before waiting for
      the lock. It succeeds for the right operator unless a session was created
      after `started`, and then revokes every session. */
  function SetPassword(db: Db, change: Change, started: Time): (Db, bool) {
    if db.credential.None? || db.credential.value.username != change.username then (db, false)
    else if started < db.credential.value.createdAt || !RevocableAt(db.sessions, started) then (db, false)
    else
      (Audited(db.(credential := Some(Changed(db.credential.value, change, started)),
                   sessions := RevokeAll(db.sessions, started)),
               PasswordChanged, "", started), true)
  }

  function Logout(db: Db, session: SessionId, key: string, started: Time): (Db, bool) {
    var k := LogoutKey(session, key);
    if k in db.replays then (db, true)
    else if session !in db.sessions then (db, false)
    else if db.sessions[session].revokedAt.None? && started < db.sessions[session].createdAt then (db, false)
    else
      var revoked := if db.sessions[session].revokedAt.None?
                     then db.sessions[session].(revokedAt := Some(started)) else db.sessions[session];
      (Audited(db.(sessions := db.sessions[session := revoked],
                   replays := db.replays[k := Replay(session, 200, Some(session))]),
               LoggedOut, "", started), true)
  }

  // ----- The concurrent system --------------------------------------------------------------

  datatype Phase =
    | Arrived
    | Admitted
    | CredentialRead(read: Option<Credential>)
    | Deriving(read: Option<Credential>)
    | Derived(read: Option<Credential>, valid: bool)

  datatype Attempt = Attempt(request: LoginRequest, phase: Phase)

  /** One reply given to an attempt, with the clock at that moment. */
  datatype Answer = Answer(request: LoginRequest, reply: LoginReply, at: Time)

  datatype System = System(
    db: Db, clock: Time, freeSlots: nat, attempts: map<nat, Attempt>, answers: seq<Answer>)

  datatype Step =
    | Tick(to: Time)
    | Initialize(credential: Credential)
    | Arrive(id: nat, request: LoginRequest)
    | CheckReplay(id: nat)
    | CheckLimit(id: nat)
    | ReadCredential(id: nat)
    | AcquireSlot(id: nat)
    | Derive(id: nat)
    | Finish(id: nat)
    | Abandon(id: nat)
    | ChangePassword(change: Change, started: Time)
    | EndSession(session: SessionId, key: string, started: Time)

  function Leave(s: System, id: nat, reply: LoginReply): System
    requires id in s.attempts
  {
    s.(attempts := s.attempts - {id},
       answers := s.answers + [Answer(s.attempts[id].request, reply, s.clock)])
  }

  function Goto(s: System, id: nat, phase: Phase): System
    requires id in s.attempts
  {
    s.(attempts := s.attempts[id := s.attempts[id].(phase := phase)])
  }

  /** A step of attempt `id`; a step that does not fit the attempt's phase does nothing. */
  function AttemptStep(s: System, id: nat, step: Step): System
    requires id in s.attempts
  {
    var a := s.attempts[id];
    match (a.phase, step)
    case (Arrived, CheckReplay(_)) =>
      if ReplayOf(s.db, a.request, s.clock).Some? then Leave(s, id, ReplayOf(s.db, a.request, s.clock).value)
      else Goto(s, id, Admitted)
    case (Admitted, CheckLimit(_)) =>
      if Blocked(s.db, a.request.source, s.clock) then
        Leave(s.(db := RecordBlock(s.db, a.request.source, s.clock)), id,
              Denied(403, "authentication_temporarily_blocked"))
      else s
    case (Admitted, ReadCredential(_)) =>
      Goto(s, id, CredentialRead(CredentialOf(s.db, a.request.username)))
    case (CredentialRead(read), AcquireSlot(_)) =>
      if s.freeSlots == 0 then Leave(s, id, Denied(503, "browser_auth_capacity_exhausted"))
      else Goto(s, id, Deriving(read)).(freeSlots := s.freeSlots - 1)
    case (Deriving(read), Derive(_)) =>
      Goto(s, id, Derived(read, Matches(read, a.request.password))).(freeSlots := s.freeSlots + 1)
    case (Derived(read, valid), Finish(_)) =>
      var (db, reply) := FinishLogin(s.db, a.request, read, valid, s.clock);
      Leave(s.(db := db), id, reply)
    case (Deriving(_), Abandon(_)) =>
      Leave(s, id, Denied(503, "browser_auth_unavailable")).(freeSlots := s.freeSlots + 1)
    case (_, Abandon(_)) => Leave(s, id, Denied(503, "browser_auth_unavailable"))
    case _ => s
  }

  function Next(s: System, step: Step): System {
    match step
    case Tick(to) => if to >= s.clock then s.(clock := to) else s
    case Initialize(c) => if s.db.credential.None? then s.(db := s.db.(credential := Some(c))) else s
    case Arrive(id, req) =>
      if id in s.attempts then s else s.(attempts := s.attempts[id := Attempt(req, Arrived)])
    case ChangePassword(change, started) =>
      if started > s.clock then s else s.(db := SetPassword(s.db, change, started).0)
    case EndSession(session, key, started) =>
      if started > s.clock then s else s.(db := Logout(s.db, session, key, started).0)
    case _ => if step.id in s.attempts then AttemptStep(s, step.id, step) else s
  }

  function Run(s: System, steps: seq<Step>): System
    decreases |steps|
  {
    if steps == [] then s else Run(Next(s, steps[0]), steps[1..])
  }

  // ----- Invariants --------------------------------------------------------------------------

  /** Every unrevoked session was verified against the credential now stored. */
  ghost predicate NoStaleSession(db: Db) {
    forall id :: id in db.sessions && db.sessions[id].revokedAt.None? ==> Current(db, id)
  }

  ghost predicate Current(db: Db, id: SessionId)
    requires id in db.sessions
  {
    && db.credential == Some(db.sessions[id].verified)
    && db.sessions[id].verified.username == id.username
    && Matches(db.credential, id.password)
  }

  /** Login replays and sessions name each other. */
  ghost predicate Paired(db: Db) {
    && (forall id :: id in db.sessions ==>
          LoginKey(id.source, id.key) in db.replays
          && db.replays[LoginKey(id.source, id.key)] == Replay(id, 200, Some(id)))
    && (forall source, key :: LoginKey(source, key) in db.replays ==> ReplayOk(db, source, key))
  }

  ghost predicate ReplayOk(db: Db, source: string, key: string)
    requires LoginKey(source, key) in db.replays
  {
    var r := db.replays[LoginKey(source, key)];
    && r.request.source == source && r.request.key == key
    && (if r.status == 200 then r.session == Some(r.request) && r.request in db.sessions else r.session == None)
  }

  /** At most five failures of one source in any closed sixty-second window. */
  ghost predicate Throttled(audit: seq<AuditRow>) {
    forall source, from: Time :: FailuresInWindow(audit, source, from) <= LOGIN_MAX_FAILURES
  }

  function FailuresInWindow(audit: seq<AuditRow>, source: string, from: Time): nat {
    CountWithin(audit, source, from, from + LOGIN_WINDOW)
  }

  function CountWithin(audit: seq<AuditRow>, source: string, from: Time, to: Time): nat {
    if audit == [] then 0
    else
      var row := audit[|audit| - 1];
      CountWithin(audit[..|audit| - 1], source, from, to)
      + (if row.outcome == Failure && row.source == source && from <= row.createdAt <= to then 1 else 0)
  }

  ghost predicate FailuresBefore(audit: seq<AuditRow>, now: Time) {
    forall i :: 0 <= i < |audit| && audit[i].outcome == Failure ==> audit[i].createdAt <= now
  }

  ghost predicate GoodDb(db: Db, now: Time) {
    NoStaleSession(db) && Paired(db) && Throttled(db.audit) && FailuresBefore(db.audit, now)
  }

  function DerivingIds(attempts: map<nat, Attempt>): set<nat> {
    set id | id in attempts && attempts[id].phase.Deriving?
  }

  ghost predicate Honest(a: Attempt) {
    match a.phase
    case CredentialRead(read) => read.Some? ==> read.value.username == a.request.username
    case Deriving(read) => read.Some? ==> read.value.username == a.request.username
    case Derived(read, valid) =>
      (read.Some? ==> read.value.username == a.request.username) && valid == Matches(read, a.request.password)
    case _ => true
  }

  ghost predicate Backed(db: Db, answer: Answer) {
    answer.reply.LoggedIn? ==>
      && answer.reply.session == answer.request
      && LoginKey(answer.request.source, answer.request.key) in db.replays
      && db.replays[LoginKey(answer.request.source, answer.request.key)]
         == Replay(answer.request, 200, Some(answer.request))
  }

  ghost predicate Inv(s: System) {
    && GoodDb(s.db, s.clock)
    && (forall id :: id in s.attempts ==> Honest(s.attempts[id]))
    && s.freeSlots + |DerivingIds(s.attempts)| == LOGIN_MAX_CONCURRENT_DERIVATIONS
    && (forall i :: 0 <= i < |s.answers| ==> Backed(s.db, s.answers[i]))
  }

  /** What later steps never undo: replays are permanent, sessions stay, and a
      revoked session stays exactly as it is. */
  ghost predicate Extends(db: Db, db': Db) {
    && (forall k :: k in db.replays ==> k in db'.replays && db'.replays[k] == db.replays[k])
    && (forall id :: id in db.sessions ==>
          && id in db'.sessions
          && db'.sessions[id].verified == db.sessions[id].verified
          && (db.sessions[id].revokedAt.Some? ==> db'.sessions[id] == db.sessions[id]))
  }

  // ----- The transactions keep the invariants --------------------------------------------------

  lemma AuditSnoc(audit: seq<AuditRow>, row: AuditRow, source: string, from: Time, to: Time)
    ensures CountWithin(audit + [row], source, from, to)
         == CountWithin(audit, source, from, to)
            + (if row.outcome == Failure && row.source == source && from <= row.createdAt <= to then 1 else 0)
  {
    assert (audit + [row])[..|audit|] == audit;
  }

  lemma {:induction false} WithinBySince(audit: seq<AuditRow>, source: string, from: Time, to: Time, since: Time)
    requires since <= from
    ensures CountWithin(audit, source, from, to) <= CountSince(audit, Failure, source, since)
  {
    if audit == [] {
    } else {
      WithinBySince(audit[..|audit| - 1], source, from, to, since);
    }
  }

  lemma HarmlessAudit(audit: seq<AuditRow>, row: AuditRow, now: Time)
    requires Throttled(audit) && FailuresBefore(audit, now) && row.outcome != Failure
    ensures Throttled(audit + [row]) && FailuresBefore(audit + [row], now)
  {
    forall source, from: Time
      ensures FailuresInWindow(audit + [row], source, from) <= LOGIN_MAX_FAILURES
    {
      AuditSnoc(audit, row, source, from, from + LOGIN_WINDOW);
      assert FailuresInWindow(audit, source, from) <= LOGIN_MAX_FAILURES;
    }
  }

  /** The check under the lock is exactly what the sliding window needs. */
  lemma FailureAudit(db: Db, source: string, now: Time)
    requires Throttled(db.audit) && FailuresBefore(db.audit, now) && !Blocked(db, source, now)
    ensures Throttled(db.audit + [AuditRow(Failure, source, now)])
    ensures FailuresBefore(db.audit + [AuditRow(Failure, source, now)], now)
  {
    var row := AuditRow(Failure, source, now);
    forall other, from: Time
      ensures FailuresInWindow(db.audit + [row], other, from) <= LOGIN_MAX_FAILURES
    {
      AuditSnoc(db.audit, row, other, from, from + LOGIN_WINDOW);
      assert FailuresInWindow(db.audit, other, from) <= LOGIN_MAX_FAILURES;
      if other == source && from <= now <= from + LOGIN_WINDOW {
        WithinBySince(db.audit, source, from, from + LOGIN_WINDOW, now - LOGIN_WINDOW);
      }
    }
  }

  lemma ExtendsItself(db: Db)
    ensures Extends(db, db)
  {
  }

  lemma BlockKeepsGood(db: Db, source: string, now: Time)
    requires GoodDb(db, now)
    ensures GoodDb(RecordBlock(db, source, now), now) && Extends(db, RecordBlock(db, source, now))
  {
    HarmlessAudit(db.audit, AuditRow(RateLimited, source, now), now);
  }

  lemma FailureKeepsGood(db: Db, req: LoginRequest, now: Time)
    requires GoodDb(db, now) && ReplayOf(db, req, now).None? && !Blocked(db, req.source, now)
    ensures GoodDb(RecordFailure(db, req, now), now) && Extends(db, RecordFailure(db, req, now))
  {
    var db' := RecordFailure(db, req, now);
    FailureAudit(db, req.source, now);
    forall source, key | LoginKey(source, key) in db'.replays
      ensures ReplayOk(db', source, key)
    {
      assert LoginKey(source, key) in db.replays ==> ReplayOk(db, source, key);
    }
  }

  /** With the invariants in place no login ever collides with an older session. */
  lemma NoCollision(db: Db, req: LoginRequest, now: Time)
    requires Paired(db) && ReplayOf(db, req, now).None?
    ensures LoginKey(req.source, req.key) !in db.replays && req !in db.sessions
  {
  }

  lemma SuccessKeepsGood(db: Db, req: LoginRequest, now: Time)
    requires GoodDb(db, now) && ReplayOf(db, req, now).None?
    requires db.credential.Some? && db.credential.value.username == req.username && Matches(db.credential, req.password)
    ensures var db' := RecordSuccess(db, req, db.credential.value, now); GoodDb(db', now) && Extends(db, db')
  {
    hide ReplayOf, Throttled, FailuresBefore;
    NoCollision(db, req, now);
    var db' := RecordSuccess(db, req, db.credential.value, now);
    HarmlessAudit(db.audit, AuditRow(Success, req.source, now), now);
    forall source, key | LoginKey(source, key) in db'.replays
      ensures ReplayOk(db', source, key)
    {
      assert LoginKey(source, key) in db.replays ==> ReplayOk(db, source, key);
    }
    forall id | id in db'.sessions && db'.sessions[id].revokedAt.None?
      ensures Current(db', id)
    {
      assert id != req ==> Current(db, id);
    }
  }

  lemma FinishKeepsGood(db: Db, req: LoginRequest, read: Option<Credential>, valid: bool, now: Time)
    requires GoodDb(db, now) && valid == Matches(read, req.password)
    ensures var db' := FinishLogin(db, req, read, valid, now).0;
            GoodDb(db', now) && Extends(db, db') && db'.credential == db.credential
  {
    hide GoodDb, Extends;
    ExtendsItself(db);
    if ReplayOf(db, req, now).Some? {
    } else if Blocked(db, req.source, now) {
      BlockKeepsGood(db, req.source, now);
    } else if CredentialOf(db, req.username) == read {
      if !valid { FailureKeepsGood(db, req, now); }
      else if read.Some? { SuccessKeepsGood(db, req, now); }
    }
  }

  /** A successful login is answered with a live session that was verified
      against the credential now stored; a replayed one, too. */
  lemma LoggedInIsLive(db: Db, req: LoginRequest, read: Option<Credential>, valid: bool, now: Time)
    requires GoodDb(db, now) && valid == Matches(read, req.password)
    requires FinishLogin(db, req, read, valid, now).1.LoggedIn?
    ensures var (db', reply) := FinishLogin(db, req, read, valid, now);
            && reply.session == req && req in db'.sessions
            && Live(db'.sessions[req], now) && Current(db', req)
            && Backed(db', Answer(req, reply, now))
  {
    if ReplayOf(db, req, now).Some? {
      assert ReplayOk(db, req.source, req.key);
      assert Current(db, req);
    }
  }

  /** A login for a username the operator does not have can only be refused,
      even when it retries the key of a session. */
  lemma StrangerIsRefused(db: Db, req: LoginRequest, read: Option<Credential>, now: Time)
    requires GoodDb(db, now) && CredentialOf(db, req.username).None?
    ensures FinishLogin(db, req, read, Matches(read, req.password), now).1.Denied?
  {
    if FinishLogin(db, req, read, Matches(read, req.password), now).1.LoggedIn? {
      LoggedInIsLive(db, req, read, Matches(read, req.password), now);
    }
  }

  lemma SetPasswordKeepsGood(db: Db, change: Change, started: Time, now: Time)
    requires GoodDb(db, now)
    ensures var db' := SetPassword(db, change, started).0; GoodDb(db', now) && Extends(db, db')
  {
    var (db', ok) := SetPassword(db, change, started);
    if ok {
      HarmlessAudit(db.audit, AuditRow(PasswordChanged, "", started), now);
      forall source, key | LoginKey(source, key) in db'.replays
        ensures ReplayOk(db', source, key)
      {
        assert ReplayOk(db, source, key);
      }
    }
  }

  /** A password change succeeds exactly when the operator exists and no
      unrevoked session (nor the credential) is younger than the clock reading
      it started from; it then leaves no session unrevoked. */
  lemma PasswordChangeRevokesAll(db: Db, change: Change, started: Time)
    ensures var (db', ok) := SetPassword(db, change, started);
            && (ok <==>
                  && db.credential.Some? && db.credential.value.username == change.username
                  && db.credential.value.createdAt <= started
                  && forall id ::
                       id in db.sessions && db.sessions[id].revokedAt.None? ==> db.sessions[id].createdAt <= started)
            && (!ok ==> db' == db)
            && (ok ==>
                  && Matches(db'.credential, change.password)
                  && db'.sessions.Keys == db.sessions.Keys
                  && forall id :: id in db.sessions ==> db'.sessions[id].revokedAt.Some?)
  {
  }

  lemma LogoutKeepsGood(db: Db, session: SessionId, key: string, started: Time, now: Time)
    requires GoodDb(db, now)
    ensures var db' := Logout(db, session, key, started).0; GoodDb(db', now) && Extends(db, db')
  {
    var db' := Logout(db, session, key, started).0;
    if db' != db {
      HarmlessAudit(db.audit, AuditRow(LoggedOut, "", started), now);
      forall source, k | LoginKey(source, k) in db'.replays
        ensures ReplayOk(db', source, k)
      {
        assert ReplayOk(db, source, k);
      }
      forall id | id in db'.sessions && db'.sessions[id].revokedAt.None?
        ensures Current(db', id)
      {
        assert Current(db, id);
      }
    }
  }

  // ----- Steps of the concurrent system ------------------------------------------------------------

  lemma ReplayIsBacked(db: Db, req: LoginRequest, now: Time)
    requires GoodDb(db, now) && ReplayOf(db, req, now).Some?
    ensures Backed(db, Answer(req, ReplayOf(db, req, now).value, now))
    ensures ReplayOf(db, req, now).value.LoggedIn? ==>
              req in db.sessions && Live(db.sessions[req], now) && Current(db, req)
  {
    assert ReplayOk(db, req.source, req.key);
  }

  lemma ExtendsKeepsBacked(db: Db, db': Db, answer: Answer)
    requires Backed(db, answer) && Extends(db, db')
    ensures Backed(db', answer)
  {
  }

  function Weight(a: Attempt): nat { if a.phase.Deriving? then 1 else 0 }

  lemma DerivingChange(attempts: map<nat, Attempt>, id: nat, a: Attempt)
    ensures |DerivingIds(attempts[id := a])|
         == |DerivingIds(attempts)| + Weight(a) - (if id in attempts then Weight(attempts[id]) else 0)
  {
    var before, after := DerivingIds(attempts), DerivingIds(attempts[id := a]);
    assert after == if a.phase.Deriving? then before + {id} else before - {id};
    assert id in before <==> id in attempts && attempts[id].phase.Deriving?;
  }

  lemma DerivingRemove(attempts: map<nat, Attempt>, id: nat)
    requires id in attempts
    ensures |DerivingIds(attempts - {id})| == |DerivingIds(attempts)| - Weight(attempts[id])
  {
    var before, after := DerivingIds(attempts), DerivingIds(attempts - {id});
    assert after == before - {id};
    assert id in before <==> attempts[id].phase.Deriving?;
  }

  lemma ClockKeepsGood(db: Db, now: Time, later: Time)
    requires GoodDb(db, now) && now <= later
    ensures GoodDb(db, later)
  {
  }

  /** The part of a step that concerns the database: it keeps the database
      good, only extends it, and any answer it gives is backed by it; a
      successful login is live and current at that moment. */
  ghost predicate DbStep(s: System, s': System) {
    && GoodDb(s'.db, s'.clock) && Extends(s.db, s'.db)
    && (s'.answers == s.answers
        || (exists answer :: s'.answers == s.answers + [answer] && Sincere(s', answer)))
  }

  ghost predicate Sincere(s: System, answer: Answer) {
    && Backed(s.db, answer)
    && (answer.reply.LoggedIn? ==>
          && answer.request in s.db.sessions && Live(s.db.sessions[answer.request], s.clock)
          && Current(s.db, answer.request))
  }

  lemma LeaveIsDbStep(s: System, s': System, answer: Answer)
    requires GoodDb(s'.db, s'.clock) && Extends(s.db, s'.db)
    requires s'.answers == s.answers + [answer] && Sincere(s', answer)
    ensures DbStep(s, s')
  {
  }

  lemma FinishStepKeepsDb(s: System, id: nat)
    requires Inv(s) && id in s.attempts && s.attempts[id].phase.Derived?
    ensures DbStep(s, AttemptStep(s, id, Finish(id)))
  {
    hide GoodDb, Extends, FinishLogin, ReplayOf, Current;
    var a := s.attempts[id];
    assert Honest(a);
    var reply := FinishLogin(s.db, a.request, a.phase.read, a.phase.valid, s.clock).1;
    FinishKeepsGood(s.db, a.request, a.phase.read, a.phase.valid, s.clock);
    if reply.LoggedIn? { LoggedInIsLive(s.db, a.request, a.phase.read, a.phase.valid, s.clock); }
    LeaveIsDbStep(s, AttemptStep(s, id, Finish(id)), Answer(a.request, reply, s.clock));
  }

  lemma AttemptStepKeepsDb(s: System, id: nat, step: Step)
    requires Inv(s) && id in s.attempts
    ensures DbStep(s, AttemptStep(s, id, step))
  {
    hide GoodDb, Extends, FinishLogin, ReplayOf, Current;
    ExtendsItself(s.db);
    var a := s.attempts[id];
    var s' := AttemptStep(s, id, step);
    if a.phase.Arrived? && step.CheckReplay? {
      if ReplayOf(s.db, a.request, s.clock).Some? {
        ReplayIsBacked(s.db, a.request, s.clock);
        LeaveIsDbStep(s, s', Answer(a.request, ReplayOf(s.db, a.request, s.clock).value, s.clock));
      }
    } else if a.phase.Admitted? && step.CheckLimit? {
      if Blocked(s.db, a.request.source, s.clock) {
        BlockKeepsGood(s.db, a.request.source, s.clock);
        LeaveIsDbStep(s, s', Answer(a.request, Denied(403, "authentication_temporarily_blocked"), s.clock));
      }
    } else if a.phase.CredentialRead? && step.AcquireSlot? {
      if s.freeSlots == 0 {
        LeaveIsDbStep(s, s', Answer(a.request, Denied(503, "browser_auth_capacity_exhausted"), s.clock));
      }
    } else if a.phase.Derived? && step.Finish? {
      FinishStepKeepsDb(s, id);
    } else if step.Abandon? {
      LeaveIsDbStep(s, s', Answer(a.request, Denied(503, "browser_auth_unavailable"), s.clock));
    }
  }

  lemma AttemptStepKeepsHonest(s: System, id: nat, step: Step)
    requires id in s.attempts && Honest(s.attempts[id])
    requires forall i :: i in s.attempts ==> Honest(s.attempts[i])
    ensures forall i :: i in AttemptStep(s, id, step).attempts ==> Honest(AttemptStep(s, id, step).attempts[i])
  {
    hide ReplayOf, FinishLogin, Blocked, RecordBlock;
    var s' := AttemptStep(s, id, step);
    assert id in s'.attempts ==> Honest(s'.attempts[id]);
    assert forall i :: i in s'.attempts && i != id ==> i in s.attempts && s'.attempts[i] == s.attempts[i];
  }

  lemma AttemptStepKeepsSlots(s: System, id: nat, step: Step)
    requires id in s.attempts
    ensures var s' := AttemptStep(s, id, step);
            s'.freeSlots + |DerivingIds(s'.attempts)| == s.freeSlots + |DerivingIds(s.attempts)|
  {
    hide ReplayOf, FinishLogin, Blocked, RecordBlock;
    var s' := AttemptStep(s, id, step);
    if id in s'.attempts {
      assert s'.attempts == s.attempts[id := s'.attempts[id]];
      DerivingChange(s.attempts, id, s'.attempts[id]);
      assert s'.freeSlots + Weight(s'.attempts[id]) == s.freeSlots + Weight(s.attempts[id]);
    } else {
      assert s'.attempts == s.attempts - {id};
      DerivingRemove(s.attempts, id);
      assert s'.freeSlots == s.freeSlots + Weight(s.attempts[id]);
    }
  }

  lemma StepKeepsDb(s: System, step: Step)
    requires Inv(s)
    ensures DbStep(s, Next(s, step))
  {
    hide GoodDb, AttemptStep;
    match step
    case Tick(to) =>
      if to >= s.clock { ClockKeepsGood(s.db, s.clock, to); }
    case Initialize(c) =>
      if s.db.credential.None? { InitializeKeepsGood(s.db, c, s.clock); }
    case Arrive(_, _) =>
    case ChangePassword(change, started) => SetPasswordKeepsGood(s.db, change, started, s.clock);
    case EndSession(session, key, started) => LogoutKeepsGood(s.db, session, key, started, s.clock);
    case _ =>
      if step.id in s.attempts { AttemptStepKeepsDb(s, step.id, step); }
  }

  lemma InitializeKeepsGood(db: Db, c: Credential, now: Time)
    requires GoodDb(db, now) && db.credential.None?
    ensures GoodDb(db.(credential := Some(c)), now)
  {
    var db' := db.(credential := Some(c));
    forall source, key | LoginKey(source, key) in db'.replays
      ensures ReplayOk(db', source, key)
    {
      assert ReplayOk(db, source, key);
    }
    forall id | id in db.sessions
      ensures db.sessions[id].revokedAt.Some?
    {
      assert db.sessions[id].revokedAt.None? ==> Current(db, id);
    }
  }

  lemma StepKeepsInv(s: System, step: Step)
    requires Inv(s)
    ensures Inv(Next(s, step)) && DbStep(s, Next(s, step))
  {
    hide GoodDb, AttemptStep;
    var s' := Next(s, step);
    StepKeepsDb(s, step);
    forall i | 0 <= i < |s'.answers|
      ensures Backed(s'.db, s'.answers[i])
    {
      if i < |s.answers| {
        ExtendsKeepsBacked(s.db, s'.db, s.answers[i]);
      }
    }
    match step
    case Tick(_) =>
    case Initialize(_) =>
    case Arrive(id, req) => DerivingChange(s.attempts, id, Attempt(req, Arrived));
    case ChangePassword(_, _) =>
    case EndSession(_, _, _) =>
    case _ =>
      if step.id in s.attempts {
        AttemptStepKeepsHonest(s, step.id, step);
        AttemptStepKeepsSlots(s, step.id, step);
      }
  }

  lemma ExtendsTransitive(a: Db, b: Db, c: Db)
    requires Extends(a, b) && Extends(b, c)
    ensures Extends(a, c)
  {
  }

  lemma {:induction false} RunKeepsInv(s: System, steps: seq<Step>)
    requires Inv(s)
    ensures Inv(Run(s, steps)) && Extends(s.db, Run(s, steps).db)
    decreases |steps|
  {
    if steps == [] {
    } else {
      StepKeepsInv(s, steps[0]);
      RunKeepsInv(Next(s, steps[0]), steps[1..]);
      ExtendsTransitive(s.db, Next(s, steps[0]).db, Run(s, steps).db);
    }
  }

  function Start(clock: Time): System {
    System(Db(None, map[], map[], []), clock, LOGIN_MAX_CONCURRENT_DERIVATIONS, map[], [])
  }

  lemma StartIsInv(clock: Time)
    ensures Inv(Start(clock))
  {
    var none: set<nat> := {};
    assert DerivingIds(map[]) == none;
  }

  // ----- Main results -----------------------------------------------------------------------------

  /** No unrevoked session outlives its credential: in every interleaving of
      logins, password changes and logouts, each unrevoked session was verified
      against the credential stored now. */
  lemma SessionsMatchCredential(clock: Time, steps: seq<Step>, id: SessionId)
    requires id in Run(Start(clock), steps).db.sessions
    requires Run(Start(clock), steps).db.sessions[id].revokedAt.None?
    ensures var db := Run(Start(clock), steps).db;
            && db.credential == Some(db.sessions[id].verified)
            && db.credential.value.username == id.username
            && Matches(db.credential, id.password)
  {
    StartIsInv(clock);
    RunKeepsInv(Start(clock), steps);
    assert Current(Run(Start(clock), steps).db, id);
  }

  /** A password change ends every session there was, for good: none of them is
      live in any later state, whatever retries and logins follow. */
  lemma PasswordChangeIsFinal(s: System, change: Change, started: Time, steps: seq<Step>, id: SessionId, now: Time)
    requires Inv(s) && started <= s.clock && SetPassword(s.db, change, started).1 && id in s.db.sessions
    ensures var s' := Run(Next(s, ChangePassword(change, started)), steps);
            id in s'.db.sessions && !Live(s'.db.sessions[id], now)
  {
    hide Inv, Run, AttemptStep, GoodDb, Current;
    var s1 := Next(s, ChangePassword(change, started));
    StepKeepsInv(s, ChangePassword(change, started));
    PasswordChangeRevokesAll(s.db, change, started);
    RunKeepsInv(s1, steps);
  }

  /** No source ever records more than five failed logins in any closed sixty
      seconds, however many attempts run at once. */
  lemma SlidingWindow(clock: Time, steps: seq<Step>, source: string, from: Time)
    ensures FailuresInWindow(Run(Start(clock), steps).db.audit, source, from) <= LOGIN_MAX_FAILURES
  {
    StartIsInv(clock);
    RunKeepsInv(Start(clock), steps);
  }

  /** Never more than two derivations at once, and every slot comes back. */
  lemma DerivationSlots(clock: Time, steps: seq<Step>)
    ensures var s := Run(Start(clock), steps);
            s.freeSlots + |DerivingIds(s.attempts)| == LOGIN_MAX_CONCURRENT_DERIVATIONS
  {
    StartIsInv(clock);
    RunKeepsInv(Start(clock), steps);
  }

  /** All successful answers to one source and key name the same session, so a
      retried login never opens a second one. */
  lemma OneSessionPerKey(clock: Time, steps: seq<Step>, i: nat, j: nat)
    requires var answers := Run(Start(clock), steps).answers;
             && i < |answers| && j < |answers|
             && answers[i].reply.LoggedIn? && answers[j].reply.LoggedIn?
             && answers[i].request.source == answers[j].request.source
             && answers[i].request.key == answers[j].request.key
    ensures var answers := Run(Start(clock), steps).answers;
            answers[i].reply == answers[j].reply && answers[i].request == answers[j].request
  {
    StartIsInv(clock);
    RunKeepsInv(Start(clock), steps);
    var s := Run(Start(clock), steps);
    assert Backed(s.db, s.answers[i]) && Backed(s.db, s.answers[j]);
  }

  /** Whenever a step answers a login with success, the session is live and
      current at that very moment. */
  lemma SuccessIsLive(clock: Time, steps: seq<Step>, step: Step)
    requires var s := Run(Start(clock), steps);
             |Next(s, step).answers| > |s.answers| && Next(s, step).answers[|s.answers|].reply.LoggedIn?
    ensures var s := Run(Start(clock), steps);
            var s' := Next(s, step);
            var id := s'.answers[|s.answers|].reply.session;
            id in s'.db.sessions && Live(s'.db.sessions[id], s'.clock) && Current(s'.db, id)
  {
    StartIsInv(clock);
    RunKeepsInv(Start(clock), steps);
    var s := Run(Start(clock), steps);
    StepKeepsInv(s, step);
    var s' := Next(s, step);
    var answer :| s'.answers == s.answers + [answer] && Sincere(s', answer);
    assert s'.answers[|s.answers|] == answer;
  }

  // ----- The store ---------------------------------------------------------------------------------

  /** The transactions as they write their rows one table at a time. */
  class BrowserAuthStore {
    var credential: Option<Credential>
    var sessions: map<SessionId, Session>
    var replays: map<ReplayKey, Replay>
    var audit: seq<AuditRow>

    constructor ()
      ensures State() == Db(None, map[], map[], [])
    {
      credential, sessions, replays, audit := None, map[], map[], [];
    }

    ghost function State(): Db
      reads this
    {
      Db(credential, sessions, replays, audit)
    }

    method WriteAudit(outcome: Outcome, source: string, now: Time)
      modifies this`audit
      ensures State() == Audited(old(State()), outcome, source, now)
    {
      audit := audit + [AuditRow(outcome, source, now)];
    }

    /** `set_password` inside its transaction: the credential row, then every
        session, then the audit row; a rejected row undoes them all. */
    method SetPasswordRows(change: Change, started: Time) returns (ok: bool)
      modifies this
      ensures (State(), ok) == SetPassword(old(State()), change, started)
    {
      var before := credential;
      if credential.None? || credential.value.username != change.username { return false; }
      if started < credential.value.createdAt { return false; }
      credential := Some(Changed(credential.value, change, started));
      if exists id :: id in sessions && sessions[id].revokedAt.None? && sessions[id].createdAt > started {
        credential := before;
        return false;
      }
      sessions := map id | id in sessions ::
        if sessions[id].revokedAt.None? then sessions[id].(revokedAt := Some(started)) else sessions[id];
      WriteAudit(PasswordChanged, "", started);
      ok := true;
    }

    method LogoutRows(session: SessionId, key: string, started: Time) returns (ok: bool)
      modifies this
      ensures (State(), ok) == Logout(old(State()), session, key, started)
    {
      var k := LogoutKey(session, key);
      if k in replays { return true; }
      if session !in sessions { return false; }
      if sessions[session].revokedAt.None? {
        if started < sessions[session].createdAt { return false; }
        sessions := sessions[session := sessions[session].(revokedAt := Some(started))];
      }
      replays := replays[k := Replay(session, 200, Some(session))];
      WriteAudit(LoggedOut, "", started);
      assert sessions == Logout(old(State()), session, key, started).0.sessions;
      ok := true;
    }

    /** The locked last phase of a login. */
    method FinishLoginRows(req: LoginRequest, read: Option<Credential>, valid: bool, now: Time)
      returns (reply: LoginReply)
      modifies this
      ensures (State(), reply) == FinishLogin(old(State()), req, read, valid, now)
    {
      var key := LoginKey(req.source, req.key);
      if key in replays {
        var replay := replays[key];
        if replay.request != req { return Denied(409, "idempotency_key_conflict"); }
        if replay.status != 200 || replay.session.None? { return Denied(401, "authentication_required"); }
        if replay.session.value !in sessions { return Denied(503, "browser_auth_session_invalid"); }
        if !Live(sessions[replay.session.value], now) { return Denied(401, "authentication_required"); }
        return LoggedIn(replay.session.value);
      }
      var failures := CountSince(audit, Failure, req.source, now - LOGIN_WINDOW);
      if failures >= LOGIN_MAX_FAILURES {
        var recent := CountSince(audit, RateLimited, req.source, now - LOGIN_WINDOW);
        if recent == 0 { WriteAudit(RateLimited, req.source, now); }
        return Denied(403, "authentication_temporarily_blocked");
      }
      var current := if credential.Some? && credential.value.username == req.username then credential else None;
      if current != read { return Denied(503, "browser_auth_credential_changed"); }
      if !valid {
        replays := replays[key := Replay(req, 401, None)];
        WriteAudit(Failure, req.source, now);
        return Denied(401, "authentication_required");
      }
      if current.None? { return Denied(503, "browser_auth_operator_invalid"); }
      if req in sessions { return Denied(503, "browser_auth_unavailable"); }
      sessions := sessions[req := Session(now, now + SESSION_TTL, None, current.value)];
      replays := replays[key := Replay(req, 200, Some(req))];
      WriteAudit(Success, req.source, now);
      reply := LoggedIn(req);
    }
  }
}
