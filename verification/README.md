# A verified model of the HermesOps Controller

This project models the parts of the Controller API that carry state across
requests, and proves what they keep: over every interleaving, every run and
every input. It is written in Dafny 4.11; `dafny verify dfyconfig.toml` checks
all of it.

One module stands for one component. Protocols are state machines over their
steps, and the program's own methods are classes and methods proved equal to
those steps, with the faults that can interrupt them as parameters. What a step
answers and writes is told a second time from outside (the modules named
`Outcomes`, `Rules` and `Reasons`): from the rows a caller sees before the call, or
from the standard the code follows.

- **Event stream** (`FrameCodec`, `FrameRules`, `EventJournal`, `EventSession`,
  `SessionMessages`): the byte-level reader and encoder of client frames (sections
  5.2, 5.3 and 5.5 of RFC 6455) are exact inverses; a replay session delivers exactly
  the subscribed journal rows between its start and its cursor while others keep
  writing, and catches up.
- **Objective commands** (`ObjectiveTables`, `ObjectiveLifecycle`,
  `ObjectiveOutcomes`, `ObjectiveCommands`, `CommandFaults`): transactions in small
  steps under a single writer lock, with a failure possible before each, refine an atomic
  exactly-once specification; cancel and pause come to rest.
- **Browser logins** (`BrowserAuth`, `BrowserAuthOutcomes`): the three-phase login
  interleaved with password changes, logouts and a sliding-window limit.
- **Hermesfile** (`Units`, `UnitRules`, `Normalizer`, `CanonicalForm`,
  `CanonicalTree`, `CanonicalSample`, `Mounts`, `MountRules`, `MountReasons`,
  `StructuralDiff`, `StructuralDiffTheorems`, `DiffOrder`, `PointerReading`): unit
  arithmetic, a complete normal form and what it does to the node limit, the mount
  rules behind a capped list of diagnostics, and the diff.
- **Storage** (`ProjectStorage`, `ProjectOutcomes`, `RevisionHistory`,
  `RevisionOutcomes`): files and database rows that must agree under faults, and
  revision histories with three writers.
- **Paging, cursors, slots, walks** (`FilteredPaging`, `SandboxCursor`, `Slots`,
  `JsonWalk`).

`Text`, `Json` and `Wrappers` hold what the modules share.

## Where a plain claim is false

In each of these the code is modelled as it is, and the exact condition is
proved beside an input that shows the failure.

- The validator drops every diagnostic after the hundredth, warnings included, so
  one hundred unpinned packages hide an unlawful mount. With no earlier error the
  verdict is right exactly when the cap was not reached or the mounts are lawful
  (`MountRules.VerdictIsRight`).
- `1.5KiB` is an accepted size for which the canonical form raises. An accepted
  document has a canonical form exactly when every size is a multiple of 1024
  bytes (`CanonicalForm.CanonicalExists`,
  `CanonicalSample.AcceptedDocumentWithoutCanonicalForm`).
- Decimal products are rounded to 28 digits, and a 32-character size that is not a
  whole number of bytes is accepted (`Units.FractionalByteAccepted`). The parse
  differs from exact arithmetic exactly when the exact product is no whole number
  of bytes and lies within half a unit of its 28th digit of one in range
  (`Units.ParseIsExactUnlessRounded`).
- The canonical form of a document within the node limit can be past it: each
  missing default that is filled in adds one node. It is within the limit exactly
  when the sum is (`CanonicalTree.BoundsKeptExactly`,
  `CanonicalSample.CanonicalFormPastTheLimit`).
- `_atomic_replace` can raise after the new file is in place, when it synchronises
  the directory. In a create the flag that would undo the file is then not yet
  set: the file stays, and blocks that project name for good
  (`ProjectStorage.FailureLeavesNothing`, `OrphanArises`, `OrphanBlocksForever`). Update and
  command restore the file in the same situation.
- Live handler threads are not bounded by the two slot limits: a WebSocket handler
  gives back its last slot before its thread ends. Only handlers holding a slot are
  bounded (`Slots.HoldersWithinLimits`, `Slots.DrainingIsUnbounded`).
- Pausing a paused objective answers PAUSED without looking at running tasks, and
  a run gets there (`ObjectiveLifecycle.PauseAgainIgnoresRunningTasks`,
  `ObjectiveCommands.PausedBesideRunningTask`). No other pause does
  (`ObjectiveCommands.PausedIsQuiescent`).
- Updates refuse an archived sandbox profile; imports extend its history all the
  same (`RevisionHistory.ArchivedGrowsByImport`, `ArchivedHistoryGrows`). No code of
  the repository writes the state `archived` of a sandbox profile: inserts use
  `draft` and both updates leave the state alone. It comes only from another writer
  of the database (`Changing` in the model).
- A diff that lists exactly 500 differences says `truncated` although it is
  complete (`StructuralDiffTheorems.TruncatedButComplete`,
  `CompleteReportSaysTruncated`).

## Conventions

SHA-256, HMAC and scrypt are taken to be injective: a digest is modelled by what
it digests. SQLite is a set of tables with one writer at a time; a transaction
that does not commit leaves no trace, and closing a connection does not fail.
The orchestrator, which shares the objective tables with the commands, may commit
anything between their transactions that stays out of the command tables
(idempotency keys, operations, audit rows), keeps `finished_at` set exactly on
terminal objectives, and leaves the event journal consistent
(`ObjectiveCommands.EnvironmentMay`). `ObjectiveCommands.ReachableTablesAreTidy`
rests on the last two, and the results on keys on the first; what the orchestrator
does to plans, tasks, runs and projects is otherwise arbitrary.
Clock readings, identifiers and salts drawn at random are parameters. Parsed YAML
and JSON are trees whose floats are real numbers.

## Model

| member | source | states |
|---|---|---|
| FrameCodec.ReadExact | controller_api/websocket_transport.py:115-124 | returns exactly the next `count` bytes however the transport fragments them, and fails exactly when fewer are left |
| FrameCodec.ReadClientFrame | controller_api/websocket_transport.py:127-182 | on any byte stream the reader yields the frame, the closed peer or the protocol error of the decoder specification, and consumes exactly the frame |
| FrameCodec.UnmaskInPlace | controller_api/websocket_transport.py:163-166 | the in-place loop is the XOR with the repeating mask |
| FrameCodec.DecodeOfEncode | controller_api/websocket_transport.py:127-212 | decoding an encoded legal frame gives opcode, payload and mask back and consumes exactly its bytes, whatever follows |
| FrameCodec.EncodeOfDecode | controller_api/websocket_transport.py:127-212 | every accepted byte string is legal and is the encoder's own output for what was read |
| FrameCodec.HeaderOfDecode | controller_api/websocket_transport.py:132-161 | the reader gets past the length exactly on the encoder's headers, also for frames it then refuses or finds cut short; anything else is incomplete or refused with 1002, whatever the payload limit |
| FrameCodec.ProperPrefixIsTruncated | controller_api/websocket_transport.py:115-182 | a legal frame cut anywhere is neither a frame nor an error |
| FrameCodec.PumpOfWire | controller_api/websocket_transport.py:286-314 | a concatenation of legal frames is received as the same list, ended by a close frame or the end of the stream |
| FrameCodec.WireOfPump | controller_api/websocket_transport.py:286-314 | whatever the peer sends, the queued frames are legal and re-encode to the bytes read |
| FrameCodec.MaskTwice | controller_api/websocket_transport.py:163-166 | masking is its own inverse |
| FrameCodec.SignBit | controller_api/websocket_transport.py:151-154 | the sign-bit test on an eight-byte length is the bound of 2^63 |
| FrameRules.XorBitByBit | controller_api/websocket_transport.py:163-166 | a bit of the exclusive or is set exactly where its two operands differ |
| FrameRules.MaskFlipsBits | controller_api/websocket_transport.py:163-166 | unmasking flips in every byte exactly the bits set in the mask byte of its position |
| FrameRules.BitsDetermine | controller_api/websocket_transport.py:163-166 | numbers of one width with the same bits are equal, so those bits leave no choice |
| FrameRules.BigEndianPlaces | controller_api/websocket_transport.py:146-155 | lengths and close codes are read with the most significant byte first |
| FrameRules.ValidExactlyWhenSpelled | controller_api/websocket_transport.py:178-181 | a close reason passes exactly when it is the UTF-8 spelling of some text (section 3 of RFC 3629) |
| FrameRules.HeaderRefusals | controller_api/websocket_transport.py:132-144 | which of the first two bytes is refused, and with which reason, in both directions |
| FrameRules.BodyRefusals | controller_api/websocket_transport.py:157-182 | behind the header: oversized control frame, too large a payload, incomplete, or the verdict on the payload, each exactly when it applies |
| EventJournal.Journal.Emit | controller_api/event_journal.py:313-372 | appends one row with the next sequence and the next revision of its aggregate |
| EventJournal.AppendKeepsConsistent | controller_api/event_journal.py:313-372 | over any transactions the k-th row of an aggregate, in sequence order, carries revision k |
| EventJournal.AppendExtends | controller_api/event_journal.py:313-372 | a transaction only adds rows, all beyond every older sequence |
| EventJournal.AppendKeepsContiguous | controller_api/event_journal.py:313-358 | writers leave no gap in the sequence |
| EventJournal.RevisionsRise | controller_api/event_journal.py:313-348 | within one aggregate revisions rise with the sequence, so no pair repeats |
| EventJournal.MaxIsCount | controller_api/event_journal.py:314-323 | the maximum revision of an aggregate is the number of its rows |
| EventJournal.RevisionCountsRows | controller_api/event_journal.py:314-348 | the revision of a row is the number of rows up to it with the same aggregate type and identifier |
| EventJournal.BoundsAreExtremes | controller_api/event_journal.py:517-527 | the bounds enclose every stored sequence |
| EventJournal.AfterFirst | controller_api/event_journal.py:453-514 | moving the cursor to the first unread row leaves exactly the other unread rows |
| EventSession.ExactDelivery | controller_api/websocket_transport.py:419-512 | in every interleaving with committing writers and failures, the events sent are exactly the subscribed journal rows between start and cursor, in order, each once |
| EventSession.WindowRises | controller_api/websocket_transport.py:439-466 | delivered sequences rise strictly |
| EventSession.WindowMembers | controller_api/websocket_transport.py:439-466 | every delivered event is a subscribed journal row of the window |
| EventSession.WindowComplete | controller_api/websocket_transport.py:439-466 | every subscribed journal row of the window is delivered |
| EventSession.AvailableMeansNothingMissing | controller_api/websocket_transport.py:419-427 | a cursor may go on exactly when it is at most 500 behind and every row after it is still stored |
| EventSession.QuietTurnDrains | controller_api/websocket_transport.py:498-512 | a turn of the loop while nobody writes reads exactly the next hundred unread rows and leaves the session able to go on |
| EventSession.CatchUp | controller_api/websocket_transport.py:498-512 | after five such turns the session is still open and has delivered everything in the journal after its start |
| EventSession.TurnConsumes | controller_api/websocket_transport.py:498-512 | with writers committing around its reads, a turn stays open exactly for a current session, a cursor within bounds and a harmless frame, and has then delivered the next hundred of the rows it saw |
| EventSession.LateCatchUp | controller_api/websocket_transport.py:498-512 | however a session was served before, five quiet turns bring it up to date |
| EventSession.ServedIsRun | controller_api/websocket_transport.py:498-512 | every sequence of turns is a run of the state machine |
| SessionMessages.OpeningSays | controller_api/websocket_transport.py:429-437 | a subscription is answered with the first sequence to be replayed, or with the bounds of the journal and a close when its cursor is outside them |
| SessionMessages.ChecksSay | controller_api/websocket_transport.py:498-508 | a session no longer current is closed with 1008, one out of bounds is told so, any other goes on in silence |
| SessionMessages.DeliverySays | controller_api/websocket_transport.py:452-466 | each row of a batch is sent exactly if its type is subscribed, and becomes the cursor either way |
| SessionMessages.MisorderedSays | controller_api/websocket_transport.py:453-459 | a row that does not lie behind the cursor would close the stream with 1011, unsent |
| SessionMessages.WaitingSays | controller_api/websocket_transport.py:514-545 | the message for a heartbeat and for every kind of frame, and which of them end the session |
| SessionMessages.FailureSays | controller_api/websocket_transport.py:546-553 | a failure closes the stream with its code; an ended session says nothing more |
| EventSession.WebSocketSession.SendCloseFrame | controller_api/websocket_transport.py:365-379 | at most one close message is ever sent |
| EventSession.WebSocketSession.SendReplayUnavailable | controller_api/websocket_transport.py:429-437 | names the oldest available sequence, or 1, and closes |
| EventSession.WebSocketSession.DrainEventBatch | controller_api/websocket_transport.py:439-466 | never sees a row out of order, and leaves exactly the session in which the whole batch was read and delivered |
| EventSession.WebSocketSession.OnePass | controller_api/websocket_transport.py:498-512 | one turn leaves journal and session exactly as the turn of the state machine does, whatever is committed between its reads |
| EventSession.WebSocketSession.Serve | controller_api/websocket_transport.py:468-512 | any turns leave journal and session as the state machine does, with exact delivery wherever the session stops; five quiet turns deliver the whole window |
| JsonWalk.WithinBounds | controller_api/server.py:1288-1298 | for every tree and every pop order the walk accepts exactly when node count and depth are within the bounds |
| JsonWalk.PopAny | controller_api/server.py:1290-1292 | taking any entry off the stack removes exactly its nodes from the total |
| JsonWalk.TakeMember | controller_api/websocket_transport.py:242-245 | the node count of an object does not depend on member order |
| ObjectiveCommands.StepRefines | controller_api/objective_commands.py:744-1077 | every small step of a transaction, and every failure, is one step of the atomic specification or none |
| ObjectiveCommands.EndingsAreAtomic | controller_api/objective_commands.py:855-1077 | a transaction commits the atomic result or changes nothing, with the reply of the atomic transition |
| ObjectiveCommands.StepsMakeApplied | controller_api/objective_commands.py:624-693 | the writes of all sub-steps together are the effect of the command |
| ObjectiveCommands.ExactlyOnce | controller_api/objective_commands.py:526-599 | over any interleaving of sessions, retries and failures, accepted replies to one session and key agree with each other and with the stored response, and at most one of them executed |
| ObjectiveCommands.NothingHalfDone | controller_api/objective_commands.py:526-693 | every committed reservation carries its response and pairs with one operation and one audit row, or with none |
| ObjectiveCommands.RetriesAreInert | controller_api/objective_commands.py:549-563 | after any further run a matching retry returns the stored response, a differing one is refused, and neither changes anything |
| ObjectiveCommands.ReachableTablesAreTidy | controller_api/objective_commands.py:744-1077 | in every run `finished_at` is set exactly on terminal objectives and the journal stays consistent |
| ObjectiveCommands.CancelledIsQuiescent | controller_api/objective_commands.py:1001-1045 | in every run, when a cancel is answered CANCELLED the objective and its whole plan are terminal, without active run or passed integration point |
| ObjectiveCommands.PausedIsQuiescent | controller_api/objective_commands.py:915-951 | in every run, when a pause is answered PAUSED no task of the plan was running, unless it was paused already |
| ObjectiveCommands.PausedBesideRunningTask | controller_api/objective_commands.py:924-925 | a run from the empty database in which a pause is answered PAUSED although a task of its objective runs |
| ObjectiveCommands.UndisturbedIsAtomic | controller_api/objective_commands.py:744-1077 | a request left alone is answered within eleven sub-steps, with the reply and the tables of the atomic transition |
| ObjectiveCommands.ObjectiveCommandStore.ReplayOrReserve | controller_api/objective_commands.py:526-573 | replays, refuses or reserves as the atomic transition does |
| ObjectiveCommands.ObjectiveCommandStore.StopPlan | controller_api/objective_commands.py:504-524 | cancels exactly the unfinished tasks of the plan and the plan unless it is terminal, and fails exactly on a fault before either update |
| ObjectiveCommands.ObjectiveCommandStore.AddEvent | controller_api/objective_commands.py:356-415 | writes one objective event and one journal row, and fails exactly on a fault before either |
| ObjectiveCommands.ObjectiveCommandStore.Record | controller_api/objective_commands.py:624-693 | writes operation, audit row and stored response, and fails exactly on a used identifier or a fault before one of the three |
| ObjectiveCommands.ObjectiveCommandStore.CommandObjective | controller_api/objective_commands.py:855-1077 | a fault at any of the eleven sub-steps that the request reaches is answered with a refusal and changes nothing; every other call has the tables and the reply of the atomic transition |
| ObjectiveCommands.ObjectiveCommandStore.CreateObjective | controller_api/objective_commands.py:744-853 | the same for the creation of an objective |
| CommandFaults.FailureFreesTheLock | controller_api/objective_commands.py:1075-1077 | a failure of the lock holder frees the lock, is answered with a refusal and leaves the committed tables alone |
| CommandFaults.LockExcludes | controller_api/objective_commands.py:867-868 | while one request holds the lock no other begins |
| CommandFaults.RetryStopsAtLookup | controller_api/objective_commands.py:869-880 | a request whose key is on record gets no further than the lookup |
| CommandFaults.RefusedStopsAtChecks | controller_api/objective_commands.py:881-907 | one that the checks refuse gets as far as them |
| CommandFaults.CreateReaches | controller_api/objective_commands.py:766-853 | the sub-steps at which a failure stops an accepted create |
| CommandFaults.PauseReaches | controller_api/objective_commands.py:915-951 | the same for a pause, which writes only its records if the objective was paused already |
| CommandFaults.ResumeReaches | controller_api/objective_commands.py:952-1000 | the same for a resume |
| CommandFaults.CancelReaches | controller_api/objective_commands.py:1001-1045 | the same for a cancel, which stops a plan exactly when it is answered CANCELLED and there is one |
| ObjectiveTables.AtomicKeepsLedger | controller_api/objective_commands.py:526-693 | reservations, operations and audit rows stay in one-to-one correspondence |
| ObjectiveTables.OneToOne | controller_api/objective_commands.py:576-693 | each session and key has at most one audit row and one operation |
| ObjectiveLifecycle.QuiescentCancel | controller_api/objective_commands.py:1001-1045 | a cancel that commits CANCELLED leaves the whole plan at rest |
| ObjectiveLifecycle.CreateQueues | controller_api/objective_commands.py:744-853 | an accepted create adds exactly one queued objective over distinct, existing, enabled projects |
| ObjectiveLifecycle.CancelTouchesOwnPlanOnly | controller_api/objective_commands.py:504-524 | a cancel changes a task exactly when it commits CANCELLED and the task is an unfinished one of that plan |
| ObjectiveLifecycle.QuiescentPause | controller_api/objective_commands.py:915-951 | a pause that commits PAUSED saw no running task, or changed no objective |
| ObjectiveLifecycle.PauseAgainIgnoresRunningTasks | controller_api/objective_commands.py:924-925 | every fresh pause of a paused objective is answered PAUSED and leaves its tasks as they are, running or not |
| ObjectiveLifecycle.TerminalFrozen | controller_api/objective_commands.py:915-1045 | a command changes no terminal objective and no objective but its target |
| ObjectiveLifecycle.AllowedTransitions | controller_api/objective_commands.py:915-1045 | commands move an objective only along the listed edges; a requested cancellation stays or completes |
| ObjectiveCommands.SubStepsStayOnEdges | controller_api/objective_commands.py:855-1077 | in every run, no sub-step of a command moves an objective off the listed edges or changes a terminal one |
| ObjectiveCommands.TerminalForGood | controller_api/objective_commands.py:915-1045 | through every run in which the orchestrator leaves its row alone a terminal objective stays exactly as it is |
| ObjectiveLifecycle.ResumeFollowsPlan | controller_api/objective_commands.py:490-501 | a resumed objective finishes, runs or queues as its plan says |
| ObjectiveLifecycle.AtomicKeepsTidy | controller_api/objective_commands.py:929-936 | every command keeps `finished_at` set exactly on terminal objectives |
| ObjectiveLifecycle.AtomicKeepsJournal | controller_api/objective_commands.py:356-415 | the journal stays consistent and gains an event exactly when the event table does |
| ObjectiveOutcomes.CancelAnswers | controller_api/objective_commands.py:1001-1035 | exactly when a cancel is accepted, CANCELLED or CANCEL_REQUESTED by what is in flight in the plan, and each reason for refusing it |
| ObjectiveOutcomes.PauseAnswers | controller_api/objective_commands.py:915-951 | the same for a pause: PAUSED exactly when it was paused already, or is not being planned and has no running task |
| ObjectiveOutcomes.ResumeAnswers | controller_api/objective_commands.py:952-1000 | the same for a resume: its state follows the status of the plan |
| ObjectiveOutcomes.CommandRefusals | controller_api/objective_commands.py:878-907 | an unknown command, a malformed body and a missing objective, each refused for just that reason |
| ObjectiveOutcomes.CreateAnswers | controller_api/objective_commands.py:766-782 | exactly when a create is accepted, and each reason for refusing it |
| ObjectiveOutcomes.TokenAnswers | controller_api/objective_commands.py:696-742 | a token is issued exactly for an empty body and leaves only its reservation |
| ObjectiveOutcomes.RecordsNameTheCommand | controller_api/objective_commands.py:624-693 | reply, operation, audit row and stored response of an accepted command carry one identifier, kind, target and state |
| ObjectiveOutcomes.RefusalsChangeNothing | controller_api/objective_commands.py:851-853 | a refused request leaves every table as it was |
| ObjectiveOutcomes.CreateLeaves | controller_api/objective_commands.py:783-825 | the one new row, event and journal row of a create, and nothing else |
| ObjectiveOutcomes.PauseLeaves | controller_api/objective_commands.py:924-951 | every member of the paused row, its event, and nothing else; a second pause writes no row |
| ObjectiveOutcomes.ResumeLeaves | controller_api/objective_commands.py:970-1000 | every member of the resumed row; it is closed exactly when its plan has ended |
| ObjectiveOutcomes.CancelLeaves | controller_api/objective_commands.py:1023-1045 | every member of the cancelled row, and of exactly those tasks and that plan that a CANCELLED stops |
| BrowserAuth.SessionsMatchCredential | controller_api/browser_auth.py:629-809 | in every interleaving each unrevoked session was verified against the credential stored now |
| BrowserAuth.PasswordChangeIsFinal | controller_api/browser_auth.py:393-468 | no session that existed at a password change is live in any later state |
| BrowserAuth.PasswordChangeRevokesAll | controller_api/browser_auth.py:415-459 | a password change succeeds exactly for the operator whose rows are not younger than its clock reading, and then revokes every session |
| BrowserAuthOutcomes.LogoutEndsSession | controller_api/browser_auth.py:831-886 | exactly when a first logout under its key succeeds; it then ends that session for every moment and changes no other row |
| BrowserAuthOutcomes.LogoutRepeats | controller_api/browser_auth.py:833-849 | a repeated logout changes nothing and is answered with success |
| BrowserAuthOutcomes.LogoutIsFinal | controller_api/browser_auth.py:831-886 | in every run, once a logout is answered with success, for the first time or again, its session is dead in every later state |
| BrowserAuthOutcomes.PasswordChangeLeaves | controller_api/browser_auth.py:415-459 | afterwards just the new password matches, the account is the same, and each session is revoked unless it was before |
| BrowserAuthOutcomes.RetryAnswers | controller_api/browser_auth.py:650-671 | a retried login gets its session exactly while that is live; another request under the key is a conflict |
| BrowserAuthOutcomes.FailedLoginStaysFailed | controller_api/browser_auth.py:659-660 | in every later state a retry of a failed login is refused, whatever the password is by then |
| BrowserAuthOutcomes.FinishAnswers | controller_api/browser_auth.py:728-809 | under a new key a session is opened exactly when the source is not blocked, the account is unchanged and the password matched; each refusal and each trace it leaves |
| BrowserAuthOutcomes.DamagedRowsRefuse | controller_api/browser_auth.py:661-667 | rows no run leaves behind are refused without a change |
| BrowserAuthOutcomes.RightPasswordLogsIn | controller_api/browser_auth.py:711-809 | a whole login left alone succeeds exactly with the right name and password, and is counted as a failure otherwise |
| BrowserAuthOutcomes.TurnedAwayEarly | controller_api/browser_auth.py:686-722 | a retry, a blocked source and a missing slot are answered before anything is derived |
| BrowserAuthOutcomes.BlocksAreSpaced | controller_api/browser_auth.py:736-757 | in every run two blocks noted for one source lie more than sixty seconds apart |
| BrowserAuthOutcomes.SinceIsCardinality | controller_api/browser_auth.py:673-682 | the count of the query is the number of rows with that outcome and source in the window |
| BrowserAuth.SlidingWindow | controller_api/browser_auth.py:728-776 | no closed 60-second window ever holds more than five recorded failures of one source, for any number of concurrent attempts |
| BrowserAuth.FailureAudit | controller_api/browser_auth.py:733-775 | the count under the lock is what the sliding window needs |
| BrowserAuth.DerivationSlots | controller_api/browser_auth.py:721-726 | free derivation slots and deriving attempts always add up to the limit |
| BrowserAuth.OneSessionPerKey | controller_api/browser_auth.py:650-671 | all successful answers to one source and key name one session |
| BrowserAuth.SuccessIsLive | controller_api/browser_auth.py:728-809 | the session in a successful answer is live and current at that moment |
| BrowserAuth.LoggedInIsLive | controller_api/browser_auth.py:728-809 | for every username, the locked last phase answers success only with a live, current session |
| BrowserAuth.StrangerIsRefused | controller_api/browser_auth.py:611-616 | a login for an unknown username is never answered with a session |
| BrowserAuth.NoCollision | controller_api/browser_auth.py:781-793 | a login without replay meets no existing session row and no used key |
| BrowserAuth.BrowserAuthStore.SetPasswordRows | controller_api/browser_auth.py:415-459 | the row-by-row transaction is the specified change, undone as a whole when refused |
| BrowserAuth.BrowserAuthStore.LogoutRows | controller_api/browser_auth.py:831-886 | revokes the session once and records the key, or replays |
| BrowserAuth.BrowserAuthStore.FinishLoginRows | controller_api/browser_auth.py:728-804 | for every username, the row-by-row last phase is the specified transition |
| Units.DurationNormalForm | controller_api/hermesfile.py:347-369 | canonical durations exist exactly for accepted ones, keep the milliseconds and are canonical |
| Units.DurationsAgree | controller_api/hermesfile.py:359-369 | two durations share a canonical spelling exactly when they are equal |
| Units.CanonicalDurationIsCoarsest | controller_api/hermesfile.py:359-369 | no spelling of the same duration has a smaller number |
| UnitRules.DurationNotation | controller_api/hermesfile.py:347-356 | a duration is accepted with a value exactly if it is a numeral and one of the four units, and at most 365 days |
| Units.SmallProductsAreExact | controller_api/hermesfile.py:372-390 | the parse is exact while the product fits 28 digits |
| Units.ExactQuantitiesParse | controller_api/hermesfile.py:372-390 | rounding never loses a legal size |
| Units.RoundedStaysLarge | controller_api/hermesfile.py:383-389 | rounding never brings a size above the maximum back into range |
| Units.ParseIsNearestWhole | controller_api/hermesfile.py:383-389 | a size is accepted with a value exactly when that value is in range and within half a unit of the 28th digit of the exact product |
| Units.ParseIsExactUnlessRounded | controller_api/hermesfile.py:383-389 | the parse differs from exact arithmetic exactly when the exact product is no whole number of bytes and lies within half a unit of its 28th digit of one in range |
| Units.FractionalByteAccepted | controller_api/hermesfile.py:383-386 | a 32-character size that is no whole number of bytes and is accepted |
| Units.CanonicalQuantityDefined | controller_api/hermesfile.py:393-403 | a canonical size exists exactly for accepted multiples of 1024 bytes |
| Units.AcceptedWithoutCanonicalForm | controller_api/hermesfile.py:393-403 | 1.5KiB is accepted and has no canonical spelling |
| Units.QuantityNormalForm | controller_api/hermesfile.py:393-403 | the canonical size keeps the bytes and is canonical |
| Units.QuantitiesAgree | controller_api/hermesfile.py:393-403 | two sizes share a canonical spelling exactly when their bytes are equal |
| UnitRules.SizeNotation | controller_api/hermesfile.py:372-382 | a size has the notation exactly if it is a numeral, optionally a point and digits, and one of the four units; what is read of it |
| UnitRules.ExactSize | controller_api/hermesfile.py:383-389 | its exact value is number times unit where that is a positive whole number of bytes up to sixteen tebibytes |
| UnitRules.CanonicalSizeIsCoarsest | controller_api/hermesfile.py:393-403 | no spelling of the same size in whole units has a smaller number |
| Normalizer.Canonicalize | controller_api/hermesfile.py:971-1010 | the rewriting, member by member, yields the canonical document, and nothing where a conversion raises |
| Normalizer.RespellTimeouts | controller_api/hermesfile.py:1002-1005 | every timeout of a list is respelled in place, or the loop stops at one that does not convert |
| Normalizer.RespellSizes | controller_api/hermesfile.py:1006-1008 | every mount size is respelled in place |
| CanonicalForm.CanonicalExists | controller_api/hermesfile.py:971-1010 | an accepted document has a canonical form exactly when all its sizes are multiples of 1024 bytes |
| CanonicalForm.AcceptedWithoutCanonicalForm | controller_api/hermesfile.py:993-996 | any accepted document with memory 1.5KiB is accepted and has none |
| CanonicalForm.KeepsMeaning | controller_api/hermesfile.py:971-1010 | the canonical document resolves to the same defaults, bytes, milliseconds and numbers |
| CanonicalForm.DefaultsFillGaps | controller_api/hermesfile.py:975-991 | a default goes exactly where a member is missing, each its own, and no mount, step or command comes or goes |
| CanonicalForm.Idempotent | controller_api/hermesfile.py:971-1010 | canonical documents are their own canonical form |
| CanonicalForm.EqualExactlyWhenSameMeaning | controller_api/hermesfile.py:971-1010 | two documents canonicalise equally exactly when they mean the same |
| CanonicalTree.TreeInjective | controller_api/hermesfile.py:971-1010 | different documents are different trees of members |
| CanonicalTree.TreesAgreeExactlyWhenSameMeaning | controller_api/hermesfile.py:971-1048 | the canonical trees, which are serialised and hashed, are equal exactly for documents that mean the same |
| CanonicalForm.KeepsFieldRules | controller_api/hermesfile.py:971-1010 | the canonical form of an accepted document meets the rules on the members it changes, holds a credential exactly when the document does, and leaves every other member as it was |
| JsonWalk.ValidateGraph | controller_api/hermesfile.py:455-487 | the recursive walk with its running counter is clean exactly when node count and depth are within the bounds |
| CanonicalTree.CanonicalNodes | controller_api/hermesfile.py:971-1010 | the canonical document has exactly the nodes of the document and one for each default filled in, at most ten, and the same verdict on depth |
| CanonicalTree.BoundsKeptExactly | controller_api/hermesfile.py:455-487 | the canonical form of a document within the graph bounds is within them exactly when the document's nodes and the added ones are at most 10000 |
| CanonicalSample.SampleAccepted | controller_api/hermesfile.py:971-1010 | complete documents that the field rules accept and that have a canonical form |
| CanonicalSample.CanonicalFormPastTheLimit | controller_api/hermesfile.py:971-1010 | one of them, of exactly 10000 nodes, whose canonical form has 10003 |
| CanonicalSample.AcceptedDocumentWithoutCanonicalForm | controller_api/hermesfile.py:393-403 | an accepted document that has no canonical form |
| Mounts.OverlapIsSharedSubtree | controller_api/hermesfile.py:429-430 | the overlap test holds exactly when two subtrees share a path |
| Mounts.ProtectedMeansBelow | controller_api/hermesfile.py:406-414 | a path is protected exactly when it is the root, or at or below a protected path |
| Mounts.ContainerPathIsSpelling | controller_api/hermesfile.py:417-426 | accepted paths are exactly the spellings of legal, unprotected components |
| Mounts.Validator.Add | controller_api/hermesfile.py:204-214 | the list keeps the first hundred diagnostics |
| Mounts.Validator.String | controller_api/hermesfile.py:244-273 | adds exactly the findings of a string check and yields the string it accepts |
| Mounts.Validator.CheckEach | controller_api/hermesfile.py:885-919 | the loop over the mounts adds the findings of each and collects names, workspace count and targets |
| Mounts.Validator.CheckPlaces | controller_api/hermesfile.py:924-945 | the nested loops add exactly the findings between mounts and against the workspace |
| Mounts.Validator.CheckMounts | controller_api/hermesfile.py:878-945 | the mount part of the validation adds exactly its findings, up to the cap |
| MountRules.CleanMeansLawful | controller_api/hermesfile.py:878-945 | the checks find nothing exactly when the mounts are lawful: shaped right, distinct, disjoint, at most one workspace mount exactly at its directory, none protected |
| MountReasons.FindingsHaveReasons | controller_api/hermesfile.py:878-945 | every diagnostic on the mounts, code and place, is deserved, and every deserved one is found, told from the document itself |
| MountRules.VerdictIsRight | controller_api/hermesfile.py:204-218 | with no earlier error the verdict on the mounts is right exactly when the cap was not reached or they are lawful |
| MountRules.FewDiagnosticsMeanLawful | controller_api/hermesfile.py:204-218 | no error and fewer than a hundred diagnostics guarantee lawful mounts |
| MountRules.WarningsHide | controller_api/hermesfile.py:570-601 | a hundred unpinned packages suppress every finding on the mounts |
| MountRules.UnpinnedPackagesWarn | controller_api/hermesfile.py:570-601 | exactly the packages without a version are warned about, each at its place |
| MountRules.WarningsHideProtectedMount | controller_api/hermesfile.py:570-601 | for every workspace: a hundred distinct unpinned packages and a mount over /etc, without an error |
| StructuralDiff.Compare | controller_api/hermesfile_lifecycle.py:912-933 | reports the first 500 differences, `changed` exactly when there is one, `truncated` exactly when there are at least 500 |
| StructuralDiff.DiffValues | controller_api/hermesfile_lifecycle.py:869-910 | the recursive walk appends the complete list of differences, cut at the limit |
| StructuralDiffTheorems.TruncatedButComplete | controller_api/hermesfile_lifecycle.py:912-933 | a report that is not truncated lists every difference; a truncated one does exactly when there are just 500 |
| StructuralDiffTheorems.CompleteReportSaysTruncated | controller_api/hermesfile_lifecycle.py:912-933 | two arrays of 500 different numbers: complete, and reported as truncated |
| StructuralDiffTheorems.DiffIsSound | controller_api/hermesfile_lifecycle.py:869-910 | every listed difference is a genuine one of its kind |
| StructuralDiffTheorems.DiffIsComplete | controller_api/hermesfile_lifecycle.py:869-910 | outside the listed places the documents agree everywhere |
| StructuralDiffTheorems.EmptyDiffIsEquality | controller_api/hermesfile_lifecycle.py:869-910 | nothing is listed exactly when the documents are equal, types included |
| StructuralDiffTheorems.AlikeIsEqual | controller_api/hermesfile_lifecycle.py:869-910 | documents alike at every place are equal |
| StructuralDiffTheorems.DiffPointersDistinct | controller_api/hermesfile_lifecycle.py:884-898 | no two differences have the same escaped pointer (section 3 of RFC 6901) |
| StructuralDiffTheorems.ReportPointersDistinct | controller_api/hermesfile_lifecycle.py:880-909 | not even as printed, with the root written "/" |
| DiffOrder.DiffIsInOrder | controller_api/hermesfile_lifecycle.py:884-909 | differences are listed by place, member names in code-point order and items by index |
| PointerReading.PointersLeadThere | controller_api/hermesfile_lifecycle.py:884-898 | read by section 4 of RFC 6901, the pointer of every listed change leads to the listed place in both documents |
| PointerReading.ReportedPath | controller_api/hermesfile_lifecycle.py:868-882 | a reported path is that pointer, but for the root |
| ProjectStorage.AgreementAlways | controller_api/project_commands.py:658-1116 | after any serial run of create, update and command with any faults, every row agrees with its file, digest and directories |
| ProjectStorage.FailureLeavesNothing | controller_api/project_commands.py:827-840 | a call without success leaves database and files unchanged exactly unless it is a create that fails after its configuration file is in place |
| ProjectStorage.OrphanArises | controller_api/project_commands.py:345-365 | the first create of all, failing at its directory synchronisation, leaves such a file |
| ProjectStorage.OrphanIsOneFile | controller_api/project_commands.py:345-365 | that create leaves one configuration file without a project, and nothing else |
| ProjectStorage.OrphanBlocksForever | controller_api/project_commands.py:707-712 | in every later run that project can never be created |
| ProjectStorage.UpdatedOncePerRevision | controller_api/project_commands.py:881-884 | after an accepted update no call with the same `If-Match` on that project is accepted |
| ProjectStorage.ArchivedChangesOnlyByRescan | controller_api/project_commands.py:1006-1007 | only a rescan changes the row of an archived project |
| ProjectStorage.ArchivedForever | controller_api/project_commands.py:879-880 | in every run an archived project stays archived and disabled |
| ProjectStorage.KeysRecordAcceptedCalls | controller_api/project_commands.py:485-527 | a failed attempt leaves its key free; an accepted one found it free and records its request |
| ProjectStorage.AcceptedOncePerKey | controller_api/project_commands.py:485-527 | after an accepted call and any further run, every call under its key changes nothing: the same request is replayed if it gets that far, anything else fails |
| ProjectOutcomes.CreateGoesThrough | controller_api/project_commands.py:692-765 | exactly when a create with a new key is accepted, and which faults stop it |
| ProjectOutcomes.CreateLeaves | controller_api/project_commands.py:728-765 | every member of the new row and its file; disabled, unarchived, revision 1 |
| ProjectOutcomes.UpdateGoesThrough | controller_api/project_commands.py:876-914 | exactly when an update with a new key is accepted, and which faults stop it |
| ProjectOutcomes.UpdateLeaves | controller_api/project_commands.py:883-918 | just the given members change, and the revision rises by one |
| ProjectOutcomes.OrderGoesThrough | controller_api/project_commands.py:1003-1063 | exactly when enable, disable, archive and rescan with a new key are accepted, and which faults stop them |
| ProjectOutcomes.OrderLeaves | controller_api/project_commands.py:1022-1063 | the flags each command leaves; the revision rises by one exactly when something differs |
| ProjectOutcomes.UnchangedOrderWritesNothing | controller_api/project_commands.py:1041-1054 | where nothing differs only the records are written |
| ProjectOutcomes.AgreementRenders | controller_api/project_commands.py:1031-1045 | in every store in which files and rows agree, a row is the one its file was rendered from, as those results ask |
| ProjectStorage.ProjectCommandStore.AtomicReplace | controller_api/project_commands.py:345-365 | fails before or after the new file is in place |
| ProjectStorage.ProjectCommandStore.CreateProject | controller_api/project_commands.py:692-840 | with a fault anywhere, the flags and handlers leave exactly the specified stores |
| ProjectStorage.ProjectCommandStore.UpdateProject | controller_api/project_commands.py:859-960 | with a fault anywhere, row and file change together or not at all |
| ProjectStorage.ProjectCommandStore.CommandProject | controller_api/project_commands.py:985-1116 | the same for enable, disable, rescan and archive |
| RevisionHistory.HistoriesAlwaysSound | controller_api/hermesfile_lifecycle.py:480-771 | in every run each profile's revisions are exactly 1 to current, neighbours differ in source, and the profile points to the last |
| RevisionHistory.RevisionsAreImmutable | controller_api/hermesfile_lifecycle.py:676-700 | stored revisions never change; later histories extend earlier ones |
| RevisionHistory.UpdatedOncePerIfMatch | controller_api/hermesfile_lifecycle.py:649-655 | of all updates sent with one `If-Match` value at most one is newly accepted |
| RevisionHistory.AcceptedOncePerKey | controller_api/hermesfile_lifecycle.py:284-338 | after an accepted create or update and any further run, every call under its key changes nothing: the same request is replayed if its transaction gets through, anything else fails |
| RevisionOutcomes.CreateGoesThrough | controller_api/hermesfile_lifecycle.py:480-555 | exactly when a create with a new key is accepted, and which faults stop it |
| RevisionOutcomes.CreateLeaves | controller_api/hermesfile_lifecycle.py:505-555 | one new profile, a draft at its first revision, and no other change |
| RevisionOutcomes.UpdateGoesThrough | controller_api/hermesfile_lifecycle.py:640-700 | exactly when an update with a new key is accepted, and which faults stop it |
| RevisionOutcomes.UpdateLeaves | controller_api/hermesfile_lifecycle.py:676-720 | one revision more, to which the profile points; name and state stay |
| RevisionOutcomes.ImportGoesThrough | controller_api/sandbox_profiles.py:670-802 | exactly when an import is unchanged, adds a revision or adds a profile, and what each leaves |
| RevisionOutcomes.StateChangeLeaves | migrations/020_sandbox_profile_persistence.sql:144-149 | another writer's change of state advances the resource revision by one and touches nothing else |
| RevisionOutcomes.CreatedCanBeUpdated | controller_api/hermesfile_lifecycle.py:480-771 | a profile just created takes an update at resource revision 1 and has then just these two revisions |
| RevisionHistory.ArchivedRefusesUpdates | controller_api/hermesfile_lifecycle.py:656-661 | creates and updates never extend the history of an archived profile |
| RevisionHistory.ArchivedGrowsByImport | controller_api/sandbox_profiles.py:670-789 | an import extends it exactly when it goes through with a different source under its name |
| RevisionHistory.ArchivedHistoryGrows | controller_api/sandbox_profiles.py:670-789 | a run in which another writer archives an imported profile and the next import extends its history |
| RevisionHistory.HermesfileStore.Create | controller_api/hermesfile_lifecycle.py:480-608 | one transaction with a fault anywhere: the specified tables or none of them |
| RevisionHistory.HermesfileStore.Update | controller_api/hermesfile_lifecycle.py:632-771 | the same for an update, under the guards on the profile row |
| RevisionHistory.HermesfileStore.ImportSource | controller_api/sandbox_profiles.py:672-802 | the same for an import |
| FilteredPaging.ListPage | controller_api/review_recovery_reads.py:962-983 | the collecting loop yields the page and the cursor of the specification |
| FilteredPaging.PageTakesStretch | controller_api/review_recovery_reads.py:962-983 | a page holds the matches of a whole stretch of rows and its cursor names the last of them; without a cursor nothing is left |
| FilteredPaging.FollowingDeliversAll | controller_api/review_recovery_reads.py:936-994 | following cursors ends, and the pages joined are exactly the filtered rows in order, so none is lost, for every limit on every page |
| FilteredPaging.FollowingDescends | controller_api/review_recovery_reads.py:951-994 | among the joined pages each later row lies strictly behind the earlier ones, so none comes twice |
| FilteredPaging.EveryMatchIsDelivered | controller_api/review_recovery_reads.py:936-994 | following cursors from the start delivers a row exactly if it is in the table with the project and the state asked for |
| FilteredPaging.StableRowsOnce | controller_api/review_recovery_reads.py:936-994 | while rows come and go between pages, a matching row that stays is delivered on exactly one page |
| FilteredPaging.SelectAfterRow | controller_api/review_recovery_reads.py:951-959 | a cursor leaves exactly the rows behind it |
| FilteredPaging.PageCovers | controller_api/review_recovery_reads.py:1279-1338 | a row is on a page exactly when it matches and lies between the two cursors |
| SandboxCursor.DecodeIsInverse | controller_api/sandbox_profiles.py:469-489 | accepted segments are exactly the encodings of non-empty octet strings (sections 3.5 and 5 of RFC 4648) |
| SandboxCursor.LeftoverBitsRefused | controller_api/sandbox_profiles.py:482-488 | of the sixteen spellings of one octet only the canonical one is accepted |
| SandboxCursor.AcceptedExactlyWhenEncoded | controller_api/sandbox_profiles.py:492-563 | a cursor is accepted with a name and an identifier exactly when it is the encoder's output for them, the secret and the state |
| SandboxCursor.OtherFilterRefuses | controller_api/sandbox_profiles.py:541-555 | a cursor issued for one state filter is refused under every other |
| SandboxCursor.EncodedLength | controller_api/sandbox_profiles.py:527-528 | everything the encoder issues is within the length bounds |
| SandboxCursor.PayloadInjective | controller_api/sandbox_profiles.py:500-507 | different names, identifiers or states have different payloads |
| SandboxCursor.IdPattern | controller_api/sandbox_profiles.py:22-22 | the identifiers are the prefix and thirty-two lower-case hexadecimal digits |
| Text.NamePattern | controller_api/hermesfile.py:29-29 | names are the strings of the pattern, told by their parts |
| SandboxCursor.SoundPrimitivesExist | controller_api/sandbox_profiles.py:461-466 | the assumptions on signature and reader can be met |
| Slots.SlotsConserved | controller_api/server.py:51-113 | in every interleaving free slots and holders add up to the limits, for both kinds |
| Slots.FreedExactlyOnce | controller_api/server.py:66-113 | each accepted connection gives back its request slot exactly once |
| Slots.NeverOverReleased | controller_api/server.py:60-113 | neither bounded semaphore is released beyond its bound |
| Slots.LiveHandlers | controller_api/server.py:77-113 | the exact number of live handler threads |
| Slots.PlainConnectionEnds | controller_api/server.py:77-113 | a plain connection takes one request slot and leaves nothing taken when it is over |
| Slots.UnstartedConnectionEnds | controller_api/server.py:95-100 | so does one whose thread cannot be started |
| Slots.NoSlotNoConnection | controller_api/server.py:60-93 | with no slot free neither kind is handed out |
| Slots.WebsocketConnectionEnds | controller_api/server.py:1730-1778 | a WebSocket connection gives its request slot back while it holds the other kind, and leaves neither taken |
| Slots.HoldersWithinLimits | controller_api/server.py:77-113 | handlers holding a slot never exceed the sum of the limits; all live ones do exactly when more drain than slots are free or doubly held |
| Slots.DrainingIsUnbounded | controller_api/server.py:1775-1778 | for any limits and any number there is a run with that many live threads and every slot free |
| Slots.ControllerHTTPServer.ProcessRequest | controller_api/server.py:77-100 | takes a slot or refuses |
| Slots.ControllerHTTPServer.ThreadStart | controller_api/server.py:95-100 | starts the handler thread, or gives the request slot back when that raises |
| Slots.ControllerHTTPServer.AcquireWebsocketSlot | controller_api/server.py:60-61 | takes a WebSocket slot exactly when one is free |
| Slots.ControllerHTTPServer.ReleaseWebsocketSlot | controller_api/server.py:63-64 | gives the WebSocket slot back |
| Slots.ControllerHTTPServer.ReleaseRequestSlotForWebsocket | controller_api/server.py:66-70 | gives the request slot back once; a second time it raises and changes nothing |
| Slots.ControllerHTTPServer.LeaveRequest | controller_api/server.py:107-113 | gives the request slot back unless that was done before |

## Left out

- EventSession: the subscription message and its field checks, the timing of heartbeats and receive timeouts, and the bounded inbound queue; a frame, a heartbeat or a failure may come at any time instead.
- EventSession.ExactDelivery: is about a journal from which nothing is deleted while the session lasts; no modelled code deletes rows.
- EventJournal: validation and redaction of event data, the filters of `read_after` other than the cursor, and `correlation_for_causation`; they do not touch sequence or revision.
- ObjectiveCommands: checks on the spelling of objective identifiers, keys and request fields are verdicts in the request; CSRF tokens are opaque.
- ObjectiveCommands.ObjectiveCommandStore.CommandObjective: a failure inside the database's own COMMIT is taken to have no effect on the committed tables.
- BrowserAuth: row validation of a stored credential and a stored session is one step that may refuse; cookies and user-agent fingerprints are not modelled.
- BrowserAuth.SlidingWindow: takes the clock reading and the count of failures under the lock as one instant, and the clock as non-decreasing.
- CanonicalForm.KeepsFieldRules: states the rules on the members the canonical form changes; rules that read only members left alone are covered by their being the same, not written out, and the test for credentials is a parameter of which only `docker.io` is known to pass.
- Normalizer.Canonicalize: the document is a record with one field for each member the canonical form touches, and one value for the members it leaves alone in each node.
- JsonWalk.ValidateGraph: the checks on the text of keys and strings made during the same walk, and the path and wording of its diagnostics.
- Mounts: the diagnostics of the rest of the document are an arbitrary list before and after those of the mounts, apart from the package warnings of apt; message texts are not modelled.
- ProjectStorage.AgreementAlways: is about serial runs, because update and command restore a file after their rollback, outside the write lock; undoing a file is taken to succeed, and a row's configuration path is determined by its project.
- RevisionHistory: retrieving revisions, previews and the runtime configuration derived from a source are projections of the rows.
- FilteredPaging: the state of a review or recovery is a field of its row; deriving it, projecting rows and refusing malformed ones are left out. The signature on its cursor repeats that of `SandboxCursor` without the canonical-form check.
- SandboxCursor: the JSON reader and the signature are parameters with the assumptions stated in `SandboxCursor.Sound`; a secret outside ASCII is not modelled.
- Slots: the content of requests and the keep-alive loop of a connection; any number of upgrade attempts on one connection is allowed instead.
- HTTP routing, headers, cookies and CORS, the console server, probes and command-line scripts: long branch lists without state.
- `review_commands.py` and the read stores without a post-filter: the same schemes with fewer cases.
- YAML, regular-expression and Git internals: parsed values and verdicts are inputs.
