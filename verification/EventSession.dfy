/** One authenticated replay session of the event WebSocket, interleaved with
    writers that keep committing to the journal: what it delivers, in which
    order, and when it gives up instead of skipping. */
module EventSession {
  import opened Wrappers
  import opened EventJournal

  const MAX_REPLAY_BATCH: nat := 100
  const MAX_REPLAY_WINDOW: nat := 500

  /** Messages handed to the socket. */
  datatype Message =
    | Subscribed(replayFrom: nat, latest: nat)
    | Delivery(event: Event)
    | Heartbeat(latest: nat)
    | Pong
    | ReplayUnavailable(oldest: nat, latest: nat)
    | Close(code: int)

  /** Where the session's thread is in its main loop. */
  datatype Phase =
    | Opening
    | LoopHead
    | SessionChecked
    | BoundsChecked
    | Draining(batch: seq<Event>)
    | Waiting
    | Ended

  datatype Session = Session(
    after: nat,
    topics: set<AggregateType>,
    cursor: nat,
    phase: Phase,
    output: seq<Message>,
    closeSent: bool)

  datatype World = World(rows: seq<Event>, last: nat, session: Session)

  datatype Inbound = NoFrame | PingFrame | PongFrame | CloseFrame(code: int) | PeerGone | OtherFrame

  /** One indivisible step of the system: another writer's commit, a step of the
      session, or a failure that unwinds it. */
  datatype Step =
    | Commit(drafts: seq<Draft>)
    | Open
    | CheckSession(current: bool)
    | CheckBounds
    | Read
    | Deliver
    | Beat
    | Receive(frame: Inbound)
    | Fault(closeCode: Option<int>)

  predicate Unavailable(rows: seq<Event>, after: nat) {
    || after > Latest(rows)
    || (Oldest(rows).Some? && after < Oldest(rows).value - 1)
    || Latest(rows) - after > MAX_REPLAY_WINDOW
  }

  function Sent(s: Session, m: Message): Session {
    s.(output := s.output + [m])
  }

  function SendClose(s: Session, code: int): Session {
    if s.closeSent then s else Sent(s, Close(code)).(closeSent := true)
  }

  function GiveUp(s: Session, rows: seq<Event>): Session {
    var oldest := if Oldest(rows).Some? then Oldest(rows).value else 1;
    SendClose(Sent(s, ReplayUnavailable(oldest, Latest(rows))), 1000).(phase := Ended)
  }

  /** One turn of the delivery loop. */
  function DeliverOne(s: Session, e: Event, rest: seq<Event>): Session {
    if e.sequence <= s.cursor then SendClose(s, 1011).(phase := Ended)
    else
      var moved := s.(cursor := e.sequence, phase := Draining(rest));
      if e.draft.aggregateType in s.topics then Sent(moved, Delivery(e)) else moved
  }

  function OnInbound(s: Session, frame: Inbound): Session {
    match frame
    case NoFrame => s.(phase := LoopHead)
    case PongFrame => s.(phase := LoopHead)
    case PingFrame => Sent(s, Pong).(phase := LoopHead)
    case PeerGone => s.(phase := Ended)
    case OtherFrame => SendClose(s, 1008).(phase := Ended)
    case CloseFrame(code) => SendClose(s, code).(phase := Ended)
  }

  /** What a step does to the session; a step that is not enabled does nothing. */
  function SessionStep(s: Session, rows: seq<Event>, step: Step): Session {
    match (s.phase, step)
    case (Opening, Open) =>
      if Unavailable(rows, s.after) then GiveUp(s, rows)
      else Sent(s, Subscribed(s.after + 1, Latest(rows))).(phase := LoopHead)
    case (LoopHead, CheckSession(current)) =>
      if current then s.(phase := SessionChecked) else SendClose(s, 1008).(phase := Ended)
    case (SessionChecked, CheckBounds) =>
      if Unavailable(rows, s.cursor) then GiveUp(s, rows) else s.(phase := BoundsChecked)
    case (BoundsChecked, Read) =>
      s.(phase := Draining(ReadAfter(rows, s.cursor, MAX_REPLAY_BATCH)))
    case (Draining(batch), Deliver) =>
      if batch == [] then s.(phase := Waiting) else DeliverOne(s, batch[0], batch[1..])
    case (Waiting, Beat) => Sent(s, Heartbeat(Latest(rows)))
    case (Waiting, Receive(frame)) => OnInbound(s, frame)
    case (Ended, _) => s
    case (_, Fault(code)) =>
      (if code.Some? then SendClose(s, code.value) else s).(phase := Ended)
    case _ => s
  }

  function Next(w: World, step: Step): World {
    if step.Commit? then w.(rows := Append(w.rows, w.last, step.drafts), last := w.last + |step.drafts|)
    else w.(session := SessionStep(w.session, w.rows, step))
  }

  function Run(w: World, steps: seq<Step>): World
    decreases |steps|
  {
    if steps == [] then w else Run(Next(w, steps[0]), steps[1..])
  }

  ghost predicate Initial(w: World) {
    && Consistent(w.rows, w.last)
    && w.session.cursor == w.session.after
    && w.session.phase == Opening && w.session.output == [] && !w.session.closeSent
  }

  // ----- The specification -----------------------------------------------------------

  /** The journal rows with `lo < sequence <= hi` of a subscribed type, in order. */
  function Window(rows: seq<Event>, lo: nat, hi: nat, topics: set<AggregateType>): seq<Event> {
    if rows == [] then []
    else
      var top := rows[|rows| - 1];
      Window(rows[..|rows| - 1], lo, hi, topics)
      + (if lo < top.sequence <= hi && top.draft.aggregateType in topics then [top] else [])
  }

  /** The events among the messages sent, in order. */
  function Delivered(output: seq<Message>): seq<Event> {
    if output == [] then []
    else
      var m := output[|output| - 1];
      Delivered(output[..|output| - 1]) + (if m.Delivery? then [m.event] else [])
  }

  /** The shape of a transcript, as an automaton over the messages. */
  datatype Stage = Silent | Live | Stale | Closed | Broken

  function StageStep(stage: Stage, m: Message): Stage {
    match (stage, m)
    case (Silent, Subscribed(_, _)) => Live
    case (Silent, ReplayUnavailable(_, _)) => Stale
    case (Silent, Close(_)) => Closed
    case (Live, Delivery(_)) => Live
    case (Live, Heartbeat(_)) => Live
    case (Live, Pong) => Live
    case (Live, ReplayUnavailable(_, _)) => Stale
    case (Live, Close(_)) => Closed
    case (Stale, Close(_)) => Closed
    case _ => Broken
  }

  function StageOf(output: seq<Message>): Stage {
    if output == [] then Silent
    else StageStep(StageOf(output[..|output| - 1]), output[|output| - 1])
  }

  ghost predicate Exact(s: Session, rows: seq<Event>) {
    Delivered(s.output) == Window(rows, s.after, s.cursor, s.topics)
  }

  ghost predicate Orderly(s: Session) {
    match s.phase
    case Opening => StageOf(s.output) == Silent && !s.closeSent && s.cursor == s.after
    case Ended => StageOf(s.output) != Broken && (StageOf(s.output) == Closed <==> s.closeSent)
    case _ => StageOf(s.output) == Live && !s.closeSent
  }

  ghost predicate InPlace(s: Session, rows: seq<Event>, last: nat) {
    && s.after <= s.cursor
    && (s.cursor <= last || s.cursor == s.after)
    && (!s.phase.Opening? && !s.phase.Ended? ==> s.cursor <= last)
    && (s.phase.Draining? ==> s.phase.batch <= After(rows, s.cursor))
  }

  ghost predicate Sound(s: Session, rows: seq<Event>, last: nat) {
    Exact(s, rows) && Orderly(s) && InPlace(s, rows, last)
  }

  ghost predicate Inv(w: World) {
    Consistent(w.rows, w.last) && Sound(w.session, w.rows, w.last)
  }

  // ----- Supporting lemmas --------------------------------------------------------------

  lemma DeliveredSnoc(output: seq<Message>, m: Message)
    ensures Delivered(output + [m]) == Delivered(output) + (if m.Delivery? then [m.event] else [])
    ensures StageOf(output + [m]) == StageStep(StageOf(output), m)
  {
    assert (output + [m])[..|output|] == output;
  }

  lemma {:induction false} WindowEmpty(rows: seq<Event>, lo: nat, hi: nat, topics: set<AggregateType>)
    requires hi <= lo
    ensures Window(rows, lo, hi, topics) == []
  {
    if rows == [] {
    } else {
      WindowEmpty(rows[..|rows| - 1], lo, hi, topics);
    }
  }

  lemma WindowBeyond(rows: seq<Event>, top: Event, lo: nat, hi: nat, topics: set<AggregateType>)
    requires top.sequence > hi
    ensures Window(rows + [top], lo, hi, topics) == Window(rows, lo, hi, topics)
  {
    assert (rows + [top])[..|rows|] == rows;
  }

  lemma RowsRegroup(a: seq<Event>, front: seq<Event>, top: Event)
    ensures a + (front + [top]) == (a + front) + [top]
  {
  }

  lemma {:induction false} WindowOfConcat(a: seq<Event>, b: seq<Event>, lo: nat, hi: nat, topics: set<AggregateType>)
    requires forall i :: 0 <= i < |b| ==> b[i].sequence > hi
    ensures Window(a + b, lo, hi, topics) == Window(a, lo, hi, topics)
  {
    if b == [] {
      assert a + b == a;
    } else {
      var front, top := b[..|b| - 1], b[|b| - 1];
      assert b == front + [top] && forall i :: 0 <= i < |front| ==> front[i] == b[i];
      WindowOfConcat(a, front, lo, hi, topics);
      WindowBeyond(a + front, top, lo, hi, topics);
      RowsRegroup(a, front, top);
    }
  }

  /** Raising the upper bound to the first unread row adds that row, if
      subscribed, and nothing else. */
  lemma {:induction false} WindowAdvance(rows: seq<Event>, last: nat, lo: nat, hi: nat, topics: set<AggregateType>)
    requires Ordered(rows, last) && lo <= hi && After(rows, hi) != []
    ensures var e := After(rows, hi)[0];
            Window(rows, lo, e.sequence, topics)
            == Window(rows, lo, hi, topics) + (if e.draft.aggregateType in topics then [e] else [])
  {
    hide Ordered;
    var front, top := rows[..|rows| - 1], rows[|rows| - 1];
    OrderedFront(rows, last);
    if After(front, hi) == [] {
      assert After(rows, hi) == [top];
      WindowSaturates(front, top.sequence - 1, lo, hi, top.sequence, topics);
    } else {
      WindowAdvance(front, top.sequence - 1, lo, hi, topics);
      AfterMembers(front, top.sequence - 1, hi, 0);
    }
  }

  lemma {:induction false} WindowSaturates(
    rows: seq<Event>, last: nat, lo: nat, hi: nat, more: nat, topics: set<AggregateType>)
    requires Ordered(rows, last) && hi <= more && After(rows, hi) == []
    ensures Window(rows, lo, more, topics) == Window(rows, lo, hi, topics)
  {
    if rows == [] {
    } else {
      OrderedFront(rows, last);
      WindowSaturates(rows[..|rows| - 1], rows[|rows| - 1].sequence - 1, lo, hi, more, topics);
    }
  }

  lemma LatestWithin(rows: seq<Event>, last: nat)
    requires Ordered(rows, last)
    ensures Latest(rows) <= last
  {
  }

  lemma AppendKeepsSound(s: Session, rows: seq<Event>, last: nat, added: seq<Event>)
    requires Sound(s, rows, last)
    requires forall i :: 0 <= i < |added| ==> added[i].sequence > last
    ensures Sound(s, rows + added, last + |added|)
  {
    AfterOfConcat(rows, added, s.cursor);
    if s.cursor <= last {
      WindowOfConcat(rows, added, s.after, s.cursor, s.topics);
    } else {
      WindowEmpty(rows, s.after, s.cursor, s.topics);
      WindowEmpty(rows + added, s.after, s.cursor, s.topics);
    }
  }

  lemma CommitKeepsInv(w: World, drafts: seq<Draft>)
    requires Inv(w)
    ensures Inv(Next(w, Commit(drafts)))
  {
    hide Append, Ordered, Sound;
    var rows' := Append(w.rows, w.last, drafts);
    AppendKeepsConsistent(w.rows, w.last, drafts);
    AppendExtends(w.rows, w.last, drafts);
    var added := rows'[|w.rows|..];
    assert rows' == w.rows + added;
    AppendKeepsSound(w.session, w.rows, w.last, added);
  }

  lemma CloseKeeps(s: Session, code: int)
    requires StageOf(s.output) != Broken && (StageOf(s.output) == Closed <==> s.closeSent)
    ensures var s' := SendClose(s, code);
            && Delivered(s'.output) == Delivered(s.output)
            && StageOf(s'.output) == Closed && s'.closeSent
            && s'.cursor == s.cursor && s'.after == s.after && s'.topics == s.topics
  {
    hide Delivered, StageOf;
    DeliveredSnoc(s.output, Close(code));
  }

  lemma GiveUpKeeps(s: Session, rows: seq<Event>)
    requires StageOf(s.output) in {Silent, Live} && !s.closeSent
    ensures var s' := GiveUp(s, rows);
            && Delivered(s'.output) == Delivered(s.output)
            && StageOf(s'.output) == Closed && s'.closeSent && s'.phase == Ended
            && s'.cursor == s.cursor && s'.after == s.after && s'.topics == s.topics
  {
    hide Delivered, StageOf, Latest, Oldest;
    var oldest := if Oldest(rows).Some? then Oldest(rows).value else 1;
    DeliveredSnoc(s.output, ReplayUnavailable(oldest, Latest(rows)));
    CloseKeeps(Sent(s, ReplayUnavailable(oldest, Latest(rows))), 1000);
  }

  lemma DeliverKeepsInv(w: World)
    requires Inv(w) && w.session.phase.Draining? && w.session.phase.batch != []
    ensures Inv(Next(w, Deliver))
    ensures Next(w, Deliver).session.phase == Draining(w.session.phase.batch[1..])
    ensures Next(w, Deliver).session.cursor == w.session.phase.batch[0].sequence
  {
    hide Delivered, StageOf, Window, After;
    var s, rows := w.session, w.rows;
    var e := s.phase.batch[0];
    assert After(rows, s.cursor)[0] == e;
    AfterMembers(rows, w.last, s.cursor, 0);
    AfterFirst(rows, w.last, s.cursor);
    WindowAdvance(rows, w.last, s.after, s.cursor, s.topics);
    DeliveredSnoc(s.output, Delivery(e));
  }

  /** What a message that is not a delivery does to the session's account. */
  lemma SentKeeps(s: Session, m: Message)
    requires !m.Delivery?
    ensures Delivered(Sent(s, m).output) == Delivered(s.output)
    ensures StageOf(Sent(s, m).output) == StageStep(StageOf(s.output), m)
  {
    hide Delivered, StageOf;
    DeliveredSnoc(s.output, m);
  }

  lemma InboundKeepsSound(s: Session, rows: seq<Event>, last: nat, frame: Inbound)
    requires Sound(s, rows, last) && s.phase.Waiting?
    ensures Sound(OnInbound(s, frame), rows, last)
  {
    hide Delivered, StageOf, Window, After;
    match frame
    case PingFrame => SentKeeps(s, Pong);
    case OtherFrame => CloseKeeps(s, 1008);
    case CloseFrame(code) => CloseKeeps(s, code);
    case _ =>
  }

  lemma OpenKeepsSound(s: Session, rows: seq<Event>, last: nat)
    requires Sound(s, rows, last) && Latest(rows) <= last
    ensures Sound(SessionStep(s, rows, Open), rows, last)
  {
    hide Delivered, StageOf, Window, After;
    if s.phase.Opening? {
      if Unavailable(rows, s.after) { GiveUpKeeps(s, rows); }
      else { SentKeeps(s, Subscribed(s.after + 1, Latest(rows))); }
    }
  }

  lemma CheckSessionKeepsSound(s: Session, rows: seq<Event>, last: nat, current: bool)
    requires Sound(s, rows, last)
    ensures Sound(SessionStep(s, rows, CheckSession(current)), rows, last)
  {
    hide Delivered, StageOf, Window, After;
    if s.phase.LoopHead? && !current { CloseKeeps(s, 1008); }
  }

  lemma CheckBoundsKeepsSound(s: Session, rows: seq<Event>, last: nat)
    requires Sound(s, rows, last)
    ensures Sound(SessionStep(s, rows, CheckBounds), rows, last)
  {
    hide Delivered, StageOf, Window, After;
    if s.phase.SessionChecked? && Unavailable(rows, s.cursor) { GiveUpKeeps(s, rows); }
  }

  lemma ReadKeepsSound(s: Session, rows: seq<Event>, last: nat)
    requires Sound(s, rows, last)
    ensures Sound(SessionStep(s, rows, Read), rows, last)
  {
    hide Delivered, StageOf, Window, After;
  }

  lemma BeatKeepsSound(s: Session, rows: seq<Event>, last: nat)
    requires Sound(s, rows, last)
    ensures Sound(SessionStep(s, rows, Beat), rows, last)
  {
    hide Delivered, StageOf, Window, After;
    if s.phase.Waiting? { SentKeeps(s, Heartbeat(Latest(rows))); }
  }

  lemma FaultKeepsSound(s: Session, rows: seq<Event>, last: nat, code: Option<int>)
    requires Sound(s, rows, last)
    ensures Sound(SessionStep(s, rows, Fault(code)), rows, last)
  {
    hide Delivered, StageOf, Window, After;
    if !s.phase.Ended? && code.Some? { CloseKeeps(s, code.value); }
  }

  lemma SessionStepKeepsSound(s: Session, rows: seq<Event>, last: nat, step: Step)
    requires Sound(s, rows, last) && Latest(rows) <= last && !step.Deliver? && !step.Commit?
    ensures Sound(SessionStep(s, rows, step), rows, last)
  {
    hide Sound, Latest, Oldest, Unavailable;
    match step
    case Open => OpenKeepsSound(s, rows, last);
    case CheckSession(current) => CheckSessionKeepsSound(s, rows, last, current);
    case CheckBounds => CheckBoundsKeepsSound(s, rows, last);
    case Read => ReadKeepsSound(s, rows, last);
    case Beat => BeatKeepsSound(s, rows, last);
    case Receive(frame) =>
      if s.phase.Waiting? { InboundKeepsSound(s, rows, last, frame); }
    case Fault(code) => FaultKeepsSound(s, rows, last, code);
  }

  lemma StepKeepsInv(w: World, step: Step)
    requires Inv(w)
    ensures Inv(Next(w, step))
  {
    hide Delivered, StageOf, Window, Append;
    if step.Commit? {
      CommitKeepsInv(w, step.drafts);
    } else if step.Deliver? && w.session.phase.Draining? && w.session.phase.batch != [] {
      DeliverKeepsInv(w);
    } else if !step.Deliver? {
      LatestWithin(w.rows, w.last);
      SessionStepKeepsSound(w.session, w.rows, w.last, step);
    }
  }

  lemma {:induction false} RunKeepsInv(w: World, steps: seq<Step>)
    requires Inv(w)
    ensures Inv(Run(w, steps))
    decreases |steps|
  {
    if steps == [] {
    } else {
      StepKeepsInv(w, steps[0]);
      RunKeepsInv(Next(w, steps[0]), steps[1..]);
    }
  }

  lemma InitialIsInv(w: World)
    requires Initial(w)
    ensures Inv(w)
  {
    WindowEmpty(w.rows, w.session.after, w.session.cursor, w.session.topics);
  }

  // ----- Main results -----------------------------------------------------------------------

  /** Exact delivery: in every interleaving of the session with any number of
      committing writers and with failures anywhere, the events sent so far are
      exactly the journal rows between the start and the cursor whose type is
      subscribed. Nothing is skipped, repeated, reordered or invented, and the
      transcript never goes wrong. */
  lemma ExactDelivery(w: World, steps: seq<Step>)
    requires Initial(w)
    ensures var w' := Run(w, steps);
            && Delivered(w'.session.output)
               == Window(w'.rows, w.session.after, w'.session.cursor, w.session.topics)
            && StageOf(w'.session.output) != Broken
            && Consistent(w'.rows, w'.last)
  {
    InitialIsInv(w);
    RunKeepsInv(w, steps);
    RunKeepsRequest(w, steps);
  }

  lemma {:induction false} RunKeepsRequest(w: World, steps: seq<Step>)
    ensures Run(w, steps).session.after == w.session.after
    ensures Run(w, steps).session.topics == w.session.topics
    decreases |steps|
  {
    if steps == [] {
    } else {
      StepKeepsRequest(w.session, w.rows, steps[0]);
      RunKeepsRequest(Next(w, steps[0]), steps[1..]);
    }
  }

  lemma StepKeepsRequest(s: Session, rows: seq<Event>, step: Step)
    ensures SessionStep(s, rows, step).after == s.after
    ensures SessionStep(s, rows, step).topics == s.topics
  {
  }

  /** The delivered sequences rise strictly, so no row is sent twice. */
  lemma {:induction false} WindowRises(rows: seq<Event>, last: nat, lo: nat, hi: nat, topics: set<AggregateType>,
                                       i: nat, j: nat)
    requires Ordered(rows, last) && i < j < |Window(rows, lo, hi, topics)|
    ensures Window(rows, lo, hi, topics)[i].sequence < Window(rows, lo, hi, topics)[j].sequence
    decreases |rows|
  {
    var front := rows[..|rows| - 1];
    OrderedFront(rows, last);
    if j < |Window(front, lo, hi, topics)| {
      WindowRises(front, rows[|rows| - 1].sequence - 1, lo, hi, topics, i, j);
    } else {
      WindowMembers(front, rows[|rows| - 1].sequence - 1, lo, hi, topics, i);
    }
  }

  lemma {:induction false} WindowMembers(rows: seq<Event>, last: nat, lo: nat, hi: nat, topics: set<AggregateType>,
                                         i: nat)
    requires Ordered(rows, last) && i < |Window(rows, lo, hi, topics)|
    ensures var e := Window(rows, lo, hi, topics)[i];
            e in rows && lo < e.sequence <= hi && e.sequence <= last && e.draft.aggregateType in topics
  {
    var front := rows[..|rows| - 1];
    OrderedFront(rows, last);
    if i >= |Window(front, lo, hi, topics)| {
    } else {
      WindowMembers(front, rows[|rows| - 1].sequence - 1, lo, hi, topics, i);
    }
  }

  /** Completeness of the window, stated row by row. */
  lemma {:induction false} WindowComplete(rows: seq<Event>, lo: nat, hi: nat, topics: set<AggregateType>, e: Event)
    requires e in rows && lo < e.sequence <= hi && e.draft.aggregateType in topics
    ensures e in Window(rows, lo, hi, topics)
  {
    if e !in rows[..|rows| - 1] {
    } else {
      WindowComplete(rows[..|rows| - 1], lo, hi, topics, e);
    }
  }

  // ----- What the bounds check means ---------------------------------------------------------

  ghost predicate Stored(rows: seq<Event>, sequence: nat) {
    exists i :: 0 <= i < |rows| && rows[i].sequence == sequence
  }

  lemma StoredRange(rows: seq<Event>, last: nat, sequence: nat)
    requires Contiguous(rows, last) && rows != []
    ensures Oldest(rows) == Some(last - |rows| + 1) && Latest(rows) == last
    ensures Stored(rows, sequence) <==> last - |rows| + 1 <= sequence <= last
  {
    if last - |rows| + 1 <= sequence <= last {
      assert rows[sequence - (last - |rows| + 1)].sequence == sequence;
    }
  }

  /** A cursor may go on exactly when it lies at most five hundred behind the
      newest row and every row after it is still stored, however many old rows
      the journal may have lost. */
  lemma AvailableMeansNothingMissing(rows: seq<Event>, last: nat, after: nat)
    requires Contiguous(rows, last)
    ensures !Unavailable(rows, after)
       <==> after <= Latest(rows) <= after + MAX_REPLAY_WINDOW
            && forall sequence: nat :: after < sequence <= Latest(rows) ==> Stored(rows, sequence)
  {
    if rows != [] {
      forall sequence: nat
        ensures Stored(rows, sequence) <==> last - |rows| + 1 <= sequence <= last
      {
        StoredRange(rows, last, sequence);
      }
      StoredRange(rows, last, after + 1);
    }
  }

  // ----- One turn of the main loop ---------------------------------------------------------

  /** What the outside world does during one turn of the main loop: commits by
      other writers around the session's own database reads, and the client's
      next frame. */
  datatype Turn = Turn(
    current: bool,
    before: seq<Draft>, between: seq<Draft>, during: seq<Draft>,
    beat: bool, frame: Inbound)

  function Delivers(n: nat): seq<Step> {
    if n == 0 then [] else [Deliver] + Delivers(n - 1)
  }

  /** The first half of a turn, up to the read. */
  function Checked(w: World, turn: Turn): World {
    if !turn.current then Next(w, CheckSession(false))
    else
      var w' := Next(Next(Next(w, CheckSession(true)), Commit(turn.before)), CheckBounds);
      if w'.session.phase.Ended? then w' else Next(w', Commit(turn.between))
  }

  /** The next batch is read and delivered to its end. */
  function Drained(w: World): World {
    Delivering(Next(w, Read), |ReadAfter(w.rows, w.session.cursor, MAX_REPLAY_BATCH)| + 1)
  }

  function Delivering(w: World, n: nat): World { Run(w, Delivers(n)) }

  /** The rest of a turn: the heartbeat if it is due, and the client's frame. */
  function Answered(w: World, turn: Turn): World {
    var w' := Next(w, Commit(turn.during));
    Next(if turn.beat then Next(w', Beat) else w', Receive(turn.frame))
  }

  function Passed(w: World, turn: Turn): World {
    var w' := Checked(w, turn);
    if w'.session.phase.Ended? then w' else Answered(Drained(w'), turn)
  }

  /** Turns are taken as long as the session stands at its loop head. */
  function Served(w: World, turns: seq<Turn>): World
    decreases |turns|
  {
    if turns == [] || !w.session.phase.LoopHead? then w else Served(Passed(w, turns[0]), turns[1..])
  }

  lemma {:induction false} RunOfConcat(w: World, a: seq<Step>, b: seq<Step>)
    ensures Run(w, a + b) == Run(Run(w, a), b)
    decreases |a|
  {
    if a == [] {
      assert a + b == b;
    } else {
      assert (a + b)[0] == a[0] && (a + b)[1..] == a[1..] + b;
      RunOfConcat(Next(w, a[0]), a[1..], b);
    }
  }

  lemma RunStep(w: World, step: Step, rest: seq<Step>)
    ensures Run(w, [step] + rest) == Run(Next(w, step), rest)
    ensures Run(w, [step]) == Next(w, step)
  {
    assert ([step] + rest)[1..] == rest && [step][1..] == [];
  }

  lemma DeliveringStep(w: World, n: nat)
    ensures Delivering(w, n + 1) == Delivering(Next(w, Deliver), n)
    ensures n == 0 ==> Delivering(w, 1) == Next(w, Deliver)
  {
    assert Delivers(n + 1)[1..] == Delivers(n);
  }

  lemma CheckedIsRun(w: World, turn: Turn) returns (steps: seq<Step>)
    ensures Run(w, steps) == Checked(w, turn)
  {
    hide Run, Next;
    steps := [CheckSession(turn.current)];
    RunStep(w, CheckSession(turn.current), []);
    if turn.current {
      var w1 := Next(w, CheckSession(true));
      RunStep(w1, Commit(turn.before), []);
      RunOfConcat(w, steps, [Commit(turn.before)]);
      var w2 := Next(w1, Commit(turn.before));
      RunStep(w2, CheckBounds, []);
      steps := steps + [Commit(turn.before)];
      RunOfConcat(w, steps, [CheckBounds]);
      steps := steps + [CheckBounds];
      var w3 := Next(w2, CheckBounds);
      if !w3.session.phase.Ended? {
        RunStep(w3, Commit(turn.between), []);
        RunOfConcat(w, steps, [Commit(turn.between)]);
        steps := steps + [Commit(turn.between)];
      }
    }
  }

  lemma AnsweredIsRun(w: World, turn: Turn) returns (steps: seq<Step>)
    ensures Run(w, steps) == Answered(w, turn)
  {
    hide Run, Next;
    var w1 := Next(w, Commit(turn.during));
    RunStep(w, Commit(turn.during), []);
    steps := [Commit(turn.during)];
    var w2 := w1;
    if turn.beat {
      RunStep(w1, Beat, []);
      RunOfConcat(w, steps, [Beat]);
      steps := steps + [Beat];
      w2 := Next(w1, Beat);
    }
    RunStep(w2, Receive(turn.frame), []);
    RunOfConcat(w, steps, [Receive(turn.frame)]);
    steps := steps + [Receive(turn.frame)];
  }

  /** Every turn is a run of the machine, so all that holds of runs holds of turns. */
  lemma PassedIsRun(w: World, turn: Turn) returns (steps: seq<Step>)
    ensures Run(w, steps) == Passed(w, turn)
  {
    hide Run, Next, Checked, Answered, Delivers;
    steps := CheckedIsRun(w, turn);
    var w1 := Checked(w, turn);
    if !w1.session.phase.Ended? {
      var delivers := Delivers(|ReadAfter(w1.rows, w1.session.cursor, MAX_REPLAY_BATCH)| + 1);
      RunStep(w1, Read, delivers);
      RunOfConcat(w, steps, [Read] + delivers);
      steps := steps + ([Read] + delivers);
      var rest := AnsweredIsRun(Drained(w1), turn);
      RunOfConcat(w, steps, rest);
      steps := steps + rest;
    }
  }

  lemma {:induction false} ServedIsRun(w: World, turns: seq<Turn>) returns (steps: seq<Step>)
    ensures Run(w, steps) == Served(w, turns)
    decreases |turns|
  {
    hide Passed;
    if turns == [] || !w.session.phase.LoopHead? {
      steps := [];
    } else {
      var first := PassedIsRun(w, turns[0]);
      var rest := ServedIsRun(Passed(w, turns[0]), turns[1..]);
      RunOfConcat(w, first, rest);
      steps := first + rest;
    }
  }

  // ----- Progress ---------------------------------------------------------------------------

  lemma DeliverProgress(w: World)
    requires Inv(w) && w.session.phase.Draining? && w.session.phase.batch != []
    ensures var w' := Next(w, Deliver);
            && Inv(w') && w'.rows == w.rows && w'.last == w.last
            && w'.session.phase == Draining(w.session.phase.batch[1..])
            && w.session.cursor <= w'.session.cursor <= Latest(w.rows)
            && After(w.rows, w.session.cursor) != []
            && After(w.rows, w'.session.cursor) == After(w.rows, w.session.cursor)[1..]
  {
    hide Delivered, Window, StageOf;
    DeliverKeepsInv(w);
    AfterFirst(w.rows, w.last, w.session.cursor);
    AfterMembers(w.rows, w.last, w.session.cursor, 0);
    LatestBoundsAfter(w.rows, w.last, w.session.cursor);
    assert After(w.rows, w.session.cursor)[0] == w.session.phase.batch[0];
  }

  lemma DrainDone(w: World)
    requires Inv(w) && w.session.phase == Draining([])
    ensures Inv(Next(w, Deliver)) && Next(w, Deliver) == w.(session := w.session.(phase := Waiting))
  {
    hide Delivered, Window, StageOf;
  }

  lemma {:induction false} DrainRuns(w: World, unread: seq<Event>, n: nat)
    requires Inv(w) && w.session.phase.Draining? && n == |w.session.phase.batch|
    requires unread == After(w.rows, w.session.cursor) && n <= |unread|
    ensures var w' := Run(w, Delivers(n + 1));
            && Inv(w') && w'.rows == w.rows && w'.last == w.last && w'.session.phase.Waiting?
            && After(w.rows, w'.session.cursor) == unread[n..]
            && w.session.cursor <= w'.session.cursor
            && (w.session.cursor <= Latest(w.rows) ==> w'.session.cursor <= Latest(w.rows))
    decreases n
  {
    hide Inv, Latest, After;
    var steps := Delivers(n + 1);
    assert steps[0] == Deliver && steps[1..] == Delivers(n);
    assert Run(w, steps) == Run(Next(w, Deliver), Delivers(n));
    if n == 0 {
      DrainDone(w);
    } else {
      DeliverProgress(w);
      DrainRuns(Next(w, Deliver), unread[1..], n - 1);
    }
  }

  lemma LatestBoundsAfter(rows: seq<Event>, last: nat, after: nat)
    requires Ordered(rows, last)
    ensures Ordered(rows, Latest(rows))
    ensures After(rows, after) != [] ==> After(rows, after)[0].sequence <= Latest(rows)
  {
    forall i | 0 <= i < |rows|
      ensures rows[i].sequence <= Latest(rows)
    {
      assert i == |rows| - 1 || rows[i].sequence < rows[|rows| - 1].sequence;
    }
    if After(rows, after) != [] {
      AfterMembers(rows, Latest(rows), after, 0);
    }
  }

  /** Reading and delivering a batch takes exactly its rows from the unread ones. */
  lemma DrainedConsumes(w: World)
    requires Inv(w) && w.session.phase.BoundsChecked?
    ensures var w' := Drained(w);
            var unread := After(w.rows, w.session.cursor);
            && Inv(w') && w'.rows == w.rows && w'.last == w.last && w'.session.phase.Waiting?
            && After(w.rows, w'.session.cursor)
               == (if |unread| <= MAX_REPLAY_BATCH then [] else unread[MAX_REPLAY_BATCH..])
            && w.session.cursor <= w'.session.cursor
            && (w.session.cursor <= Latest(w.rows) ==> w'.session.cursor <= Latest(w.rows))
  {
    hide Inv, Latest, After, Run, Delivers;
    StepKeepsInv(w, Read);
    DrainRuns(Next(w, Read), After(w.rows, w.session.cursor),
              |ReadAfter(w.rows, w.session.cursor, MAX_REPLAY_BATCH)|);
  }

  /** The frame does not end the session. */
  predicate Harmless(frame: Inbound) { frame.NoFrame? || frame.PingFrame? || frame.PongFrame? }

  lemma AnsweredMeans(w: World, turn: Turn)
    requires Inv(w) && w.session.phase.Waiting?
    ensures var w' := Answered(w, turn);
            && Inv(w') && w'.session.cursor == w.session.cursor
            && w'.rows == Append(w.rows, w.last, turn.during) && w'.last == w.last + |turn.during|
            && (w'.session.phase.LoopHead? <==> Harmless(turn.frame))
            && (w'.session.phase.LoopHead? || w'.session.phase.Ended?)
  {
    hide Inv, Append, Latest;
    var w1 := Next(w, Commit(turn.during));
    StepKeepsInv(w, Commit(turn.during));
    StepKeepsInv(w1, Beat);
    StepKeepsInv(if turn.beat then Next(w1, Beat) else w1, Receive(turn.frame));
  }

  lemma CheckedMeans(w: World, turn: Turn)
    requires Inv(w) && w.session.phase.LoopHead?
    ensures var w' := Checked(w, turn);
            var seen := Append(w.rows, w.last, turn.before);
            && Inv(w') && w'.session.cursor == w.session.cursor
            && (w'.session.phase.BoundsChecked? <==> turn.current && !Unavailable(seen, w.session.cursor))
            && (w'.session.phase.BoundsChecked? || w'.session.phase.Ended?)
            && (w'.session.phase.BoundsChecked? ==>
                  && w'.session == w.session.(phase := BoundsChecked)
                  && w'.rows == Append(seen, w.last + |turn.before|, turn.between)
                  && w'.last == w.last + |turn.before| + |turn.between|)
  {
    hide Inv, Append, Latest, Unavailable, Oldest;
    StepKeepsInv(w, CheckSession(turn.current));
    if turn.current {
      var w1 := Next(w, CheckSession(true));
      var w2 := Next(w1, Commit(turn.before));
      StepKeepsInv(w1, Commit(turn.before));
      StepKeepsInv(w2, CheckBounds);
      StepKeepsInv(Next(w2, CheckBounds), Commit(turn.between));
    }
  }

  /** A turn goes on exactly when the session is current, its cursor can go on and
      the client sends nothing that ends it. It has then delivered the next hundred
      of the rows that were unread when it read them, whatever writers commit
      around its reads. */
  lemma TurnConsumes(w: World, turn: Turn)
    requires Inv(w) && w.session.phase.LoopHead?
    ensures var w' := Passed(w, turn);
            var checked := Append(w.rows, w.last, turn.before);
            var seen := Append(checked, w.last + |turn.before|, turn.between);
            var unread := After(seen, w.session.cursor);
            && Inv(w')
            && (w'.session.phase.LoopHead? <==>
                  turn.current && !Unavailable(checked, w.session.cursor) && Harmless(turn.frame))
            && (w'.session.phase.LoopHead? || w'.session.phase.Ended?)
            && (w'.session.phase.LoopHead? ==>
                  && After(seen, w'.session.cursor)
                     == (if |unread| <= MAX_REPLAY_BATCH then [] else unread[MAX_REPLAY_BATCH..])
                  && w'.rows == Append(seen, w.last + |turn.before| + |turn.between|, turn.during)
                  && w.session.cursor <= w'.session.cursor
                  && (w.session.cursor <= Latest(seen) ==> w'.session.cursor <= Latest(seen)))
  {
    hide Inv, Append, Latest, Unavailable, After, Checked, Drained, Answered;
    CheckedMeans(w, turn);
    var w1 := Checked(w, turn);
    if w1.session.phase.BoundsChecked? {
      DrainedConsumes(w1);
      AnsweredMeans(Drained(w1), turn);
    }
  }

  /** Nobody writes during the turn, and nothing ends the session. */
  predicate Quiet(turn: Turn) {
    turn.current && turn.before == turn.between == turn.during == [] && Harmless(turn.frame)
  }

  /** A session at its loop head that the bounds check would let through. */
  ghost predicate Ready(w: World) {
    Inv(w) && w.session.phase.LoopHead? && !Unavailable(w.rows, w.session.cursor)
  }

  /** A quiet turn reads exactly the next hundred unread rows and leaves the
      session ready for the next one. */
  lemma QuietTurnDrains(w: World, turn: Turn)
    requires Ready(w) && Quiet(turn)
    ensures var w' := Passed(w, turn);
            var unread := After(w.rows, w.session.cursor);
            && Ready(w') && w'.rows == w.rows
            && After(w.rows, w'.session.cursor)
               == (if |unread| <= MAX_REPLAY_BATCH then [] else unread[MAX_REPLAY_BATCH..])
  {
    hide Inv, After, Passed;
    TurnConsumes(w, turn);
  }

  lemma PassedKeepsRequest(w: World, turn: Turn)
    ensures Passed(w, turn).session.after == w.session.after
    ensures Passed(w, turn).session.topics == w.session.topics
  {
    hide Run, Passed;
    var steps := PassedIsRun(w, turn);
    RunKeepsRequest(w, steps);
  }

  lemma {:induction false} QuietTurnsDrain(w: World, turns: seq<Turn>)
    requires Ready(w) && (forall turn :: turn in turns ==> Quiet(turn))
    requires |After(w.rows, w.session.cursor)| <= |turns| * MAX_REPLAY_BATCH
    ensures var w' := Served(w, turns);
            && Ready(w') && w'.rows == w.rows && After(w.rows, w'.session.cursor) == []
            && w'.session.after == w.session.after && w'.session.topics == w.session.topics
    decreases |turns|
  {
    hide Inv, Unavailable, After, Passed, Quiet;
    if turns == [] {
    } else {
      QuietTurnDrains(w, turns[0]);
      PassedKeepsRequest(w, turns[0]);
      QuietTurnsDrain(Passed(w, turns[0]), turns[1..]);
    }
  }

  /** Five quiet turns always bring an open session up to date, wherever it stood:
      it is still open, and everything in the journal after its start has then been
      delivered. */
  lemma CatchUp(w: World, turns: seq<Turn>)
    requires Ready(w) && (forall turn :: turn in turns ==> Quiet(turn)) && |turns| >= 5
    ensures var w' := Served(w, turns);
            && w'.session.phase.LoopHead? && w'.rows == w.rows
            && forall hi: nat :: hi >= Latest(w.rows) ==>
                 Delivered(w'.session.output) == Window(w.rows, w.session.after, hi, w.session.topics)
  {
    hide Served, Delivered, Window, StageOf, Passed;
    LatestBoundsAfter(w.rows, w.last, w.session.cursor);
    AfterCount(w.rows, Latest(w.rows), w.session.cursor);
    QuietTurnsDrain(w, turns);
    var w' := Served(w, turns);
    forall hi: nat | hi >= Latest(w.rows)
      ensures Delivered(w'.session.output) == Window(w.rows, w.session.after, hi, w.session.topics)
    {
      WindowSaturates(w.rows, Latest(w.rows), w.session.after, w'.session.cursor, hi, w.session.topics);
    }
  }

  lemma {:induction false} ServedOfConcat(w: World, a: seq<Turn>, b: seq<Turn>)
    ensures Served(w, a + b) == Served(Served(w, a), b)
    decreases |a|
  {
    hide Passed;
    if a == [] {
      assert a + b == b;
    } else if w.session.phase.LoopHead? {
      assert (a + b)[0] == a[0] && (a + b)[1..] == a[1..] + b;
      ServedOfConcat(Passed(w, a[0]), a[1..], b);
    }
  }

  /** However a session was served before, as long as it is still open and the
      bounds check lets it through, five quiet turns more and it has delivered
      everything after its start. */
  lemma LateCatchUp(w: World, turns: seq<Turn>, quiet: seq<Turn>)
    requires Initial(w) && (forall turn :: turn in quiet ==> Quiet(turn)) && |quiet| >= 5
    requires var s := Served(Next(w, Open), turns);
             s.session.phase.LoopHead? && !Unavailable(s.rows, s.session.cursor)
    ensures var end := Served(Next(w, Open), turns + quiet);
            && end.session.phase.LoopHead?
            && Delivered(end.session.output)
               == Window(end.rows, w.session.after, Latest(end.rows), w.session.topics)
  {
    hide Served, Passed, Delivered, Window, Latest, Oldest, Inv, SessionStep, Quiet;
    var w1 := Next(w, Open);
    InitialIsInv(w);
    StepKeepsInv(w, Open);
    StepKeepsRequest(w.session, w.rows, Open);
    var steps := ServedIsRun(w1, turns);
    RunKeepsInv(w1, steps);
    RunKeepsRequest(w1, steps);
    ServedOfConcat(w1, turns, quiet);
    CatchUp(Served(w1, turns), quiet);
  }

  // ----- The same steps on the session alone ----------------------------------------------

  predicate Idle(phase: Phase) {
    phase.LoopHead? || phase.SessionChecked? || phase.BoundsChecked? || phase.Waiting?
  }

  /** Between its database reads a session is as sound in one place as in another. */
  lemma SoundAnywhere(s: Session, rows: seq<Event>, last: nat, phase: Phase)
    requires Sound(s, rows, last) && (Idle(s.phase) || s.phase == Draining([])) && Idle(phase)
    ensures Sound(s.(phase := phase), rows, last)
  {
    hide Delivered, StageOf, Window, After;
  }

  /** One turn of the delivery loop over a sound batch: its first event is new,
      and the rows still unread lose exactly that one. */
  lemma DeliverOneKeepsSound(s: Session, rows: seq<Event>, last: nat)
    requires Consistent(rows, last) && Sound(s, rows, last) && s.phase.Draining? && s.phase.batch != []
    ensures var e := s.phase.batch[0];
            && e.sequence > s.cursor
            && Sound(DeliverOne(s, e, s.phase.batch[1..]), rows, last)
            && After(rows, s.cursor) != [] && After(rows, e.sequence) == After(rows, s.cursor)[1..]
  {
    hide Delivered, StageOf, Window, After;
    DeliverKeepsInv(World(rows, last, s));
    AfterMembers(rows, last, s.cursor, 0);
    AfterFirst(rows, last, s.cursor);
    assert After(rows, s.cursor)[0] == s.phase.batch[0];
  }

  /** Giving up and closing do not depend on the place in the loop. */
  lemma EndsAlike(s: Session, rows: seq<Event>, phase: Phase)
    ensures GiveUp(s.(phase := phase), rows) == GiveUp(s, rows)
    ensures forall code :: SendClose(s.(phase := phase), code) == SendClose(s, code).(phase := phase)
  {
    hide Latest, Oldest;
  }

  lemma SoundOfInv(w: World)
    requires Inv(w)
    ensures Sound(w.session, w.rows, w.last) && Latest(w.rows) <= w.last
  {
    LatestWithin(w.rows, w.last);
  }

  lemma SoundMeans(s: Session, rows: seq<Event>, last: nat)
    requires Sound(s, rows, last)
    ensures Exact(s, rows) && StageOf(s.output) != Broken && (Idle(s.phase) ==> !s.closeSent)
  {
    hide Delivered, StageOf, Window, After;
  }

  // ----- The session object --------------------------------------------------------------

  method CommitAll(journal: Journal, drafts: seq<Draft>)
    modifies journal
    ensures journal.rows == Append(old(journal.rows), old(journal.lastSequence), drafts)
    ensures journal.lastSequence == old(journal.lastSequence) + |drafts|
  {
    var i := 0;
    while i < |drafts|
      invariant 0 <= i <= |drafts| && journal.lastSequence == old(journal.lastSequence) + i
      invariant Append(journal.rows, journal.lastSequence, drafts[i..])
             == Append(old(journal.rows), old(journal.lastSequence), drafts)
    {
      assert drafts[i..][1..] == drafts[i + 1..];
      var _ := journal.Emit(drafts[i]);
      i := i + 1;
    }
  }

  class WebSocketSession {
    const after: nat
    const topics: set<AggregateType>
    var cursor: nat
    var output: seq<Message>
    var closeSent: bool

    constructor (after: nat, topics: set<AggregateType>)
      ensures this.after == after && this.topics == topics
      ensures cursor == after && output == [] && !closeSent
    {
      this.after, this.topics := after, topics;
      cursor, output, closeSent := after, [], false;
    }

    ghost function State(phase: Phase): Session
      reads this
    {
      Session(after, topics, cursor, phase, output, closeSent)
    }

    method SendCloseFrame(code: int)
      modifies this`output, this`closeSent
      ensures State(Ended) == SendClose(old(State(Ended)), code)
    {
      if closeSent { return; }
      closeSent := true;
      output := output + [Close(code)];
    }

    method SendReplayUnavailable(rows: seq<Event>)
      modifies this`output, this`closeSent
      ensures State(Ended) == GiveUp(old(State(Ended)), rows)
    {
      var oldest := if Oldest(rows).Some? then Oldest(rows).value else 1;
      output := output + [ReplayUnavailable(oldest, Latest(rows))];
      SendCloseFrame(1000);
    }

    /** Delivers one batch; `rows` is the snapshot the read saw, while others
        may already have appended more. */
    method DrainEventBatch(rows: seq<Event>, ghost last: nat) returns (inOrder: bool)
      requires Consistent(rows, last) && Sound(State(BoundsChecked), rows, last)
      modifies this`cursor, this`output
      ensures inOrder && Sound(State(Waiting), rows, last)
      ensures World(rows, last, State(Waiting)) == Drained(World(rows, last, old(State(BoundsChecked))))
    {
      hide Sound, Consistent, After, ReadAfter, Delivering;
      ghost var w := Drained(World(rows, last, State(BoundsChecked)));
      var events := ReadAfter(rows, cursor, MAX_REPLAY_BATCH);
      ReadKeepsSound(State(BoundsChecked), rows, last);
      var i := 0;
      assert events[0..] == events;
      while i < |events|
        invariant 0 <= i <= |events|
        invariant Sound(State(Draining(events[i..])), rows, last)
        invariant Delivering(World(rows, last, State(Draining(events[i..]))), |events| - i + 1) == w
      {
        var event := events[i];
        ghost var s := State(Draining(events[i..]));
        DeliveringStep(World(rows, last, s), |events| - i);
        DeliverOneKeepsSound(s, rows, last);
        assert s.phase.batch[0] == event && s.phase.batch[1..] == events[i + 1..];
        if event.sequence <= cursor { return false; }
        cursor := event.sequence;
        if event.draft.aggregateType in topics {
          output := output + [Delivery(event)];
        }
        assert State(Draining(events[i + 1..])) == DeliverOne(s, event, events[i + 1..]);
        i := i + 1;
      }
      assert events[i..] == [];
      DeliveringStep(World(rows, last, State(Draining([]))), 0);
      SoundAnywhere(State(Draining([])), rows, last, Waiting);
      inOrder := true;
    }

    /** The main loop, driven by an arbitrary outside world. Whenever it stops,
        and so at every loop head, the deliveries are exact. */
    method Serve(journal: Journal, turns: seq<Turn>) returns (open: bool)
      requires Consistent(journal.rows, journal.lastSequence)
      requires cursor == after && output == [] && !closeSent
      modifies this, journal
      ensures Consistent(journal.rows, journal.lastSequence)
      ensures Delivered(output) == Window(journal.rows, after, cursor, topics)
      ensures StageOf(output) != Broken
      ensures open ==> !closeSent
      ensures World(journal.rows, journal.lastSequence, State(if open then LoopHead else Ended))
           == Served(Next(World(old(journal.rows), old(journal.lastSequence), old(State(Opening))), Open), turns)
      ensures !old(Unavailable(journal.rows, after)) && |turns| >= 5 && (forall turn :: turn in turns ==> Quiet(turn))
         ==>
                open && Delivered(output) == Window(journal.rows, after, Latest(journal.rows), topics)
    {
      hide Sound, Unavailable, Delivered, Window, StageOf, Latest, Oldest, Consistent, Passed, Quiet;
      ghost var w := Next(World(journal.rows, journal.lastSequence, State(Opening)), Open);
      InitialIsInv(World(journal.rows, journal.lastSequence, State(Opening)));
      SoundOfInv(World(journal.rows, journal.lastSequence, State(Opening)));
      OpenKeepsSound(State(Opening), journal.rows, journal.lastSequence);
      if Unavailable(journal.rows, after) {
        SendReplayUnavailable(journal.rows);
        SoundMeans(State(Ended), journal.rows, journal.lastSequence);
        return false;
      }
      output := output + [Subscribed(after + 1, Latest(journal.rows))];
      var i := 0;
      open := true;
      assert turns[0..] == turns;
      while i < |turns| && open
        invariant 0 <= i <= |turns|
        invariant Consistent(journal.rows, journal.lastSequence)
        invariant Sound(State(if open then LoopHead else Ended), journal.rows, journal.lastSequence)
        invariant Served(World(journal.rows, journal.lastSequence, State(if open then LoopHead else Ended)),
                         turns[i..]) == Served(w, turns)
      {
        assert turns[i..][1..] == turns[i + 1..];
        open := OnePass(journal, turns[i]);
        i := i + 1;
      }
      SoundMeans(State(if open then LoopHead else Ended), journal.rows, journal.lastSequence);
      if (forall turn :: turn in turns ==> Quiet(turn)) && |turns| >= 5 { CatchUp(w, turns); }
    }

    /** Other writers commit while the session stands at `phase`. */
    method OthersCommit(journal: Journal, drafts: seq<Draft>, ghost phase: Phase)
      requires Consistent(journal.rows, journal.lastSequence)
      requires Sound(State(phase), journal.rows, journal.lastSequence)
      modifies journal
      ensures Consistent(journal.rows, journal.lastSequence)
      ensures Sound(State(phase), journal.rows, journal.lastSequence)
      ensures World(journal.rows, journal.lastSequence, State(phase))
           == Next(World(old(journal.rows), old(journal.lastSequence), State(phase)), Commit(drafts))
    {
      CommitKeepsInv(World(journal.rows, journal.lastSequence, State(phase)), drafts);
      CommitAll(journal, drafts);
    }

    method HandleFrame(frame: Inbound) returns (open: bool)
      modifies this`output, this`closeSent
      ensures State(if open then LoopHead else Ended) == OnInbound(old(State(Waiting)), frame)
    {
      match frame
      case NoFrame => open := true;
      case PongFrame => open := true;
      case PingFrame =>
        output := output + [Pong];
        open := true;
      case PeerGone => open := false;
      case CloseFrame(code) =>
        SendCloseFrame(code);
        open := false;
      case OtherFrame =>
        SendCloseFrame(1008);
        open := false;
    }

    /** The first half of a turn: the session is current and its cursor can go on. */
    method Checks(journal: Journal, turn: Turn) returns (open: bool)
      requires Consistent(journal.rows, journal.lastSequence)
      requires Sound(State(LoopHead), journal.rows, journal.lastSequence)
      modifies this, journal
      ensures Consistent(journal.rows, journal.lastSequence)
      ensures Sound(State(if open then BoundsChecked else Ended), journal.rows, journal.lastSequence)
      ensures World(journal.rows, journal.lastSequence, State(if open then BoundsChecked else Ended))
           == Checked(World(old(journal.rows), old(journal.lastSequence), old(State(LoopHead))), turn)
    {
      hide Sound, Unavailable, Consistent, Latest, Oldest, GiveUp, SendClose, Append;
      CheckSessionKeepsSound(State(LoopHead), journal.rows, journal.lastSequence, turn.current);
      if !turn.current {
        EndsAlike(State(LoopHead), journal.rows, Ended);
        SendCloseFrame(1008);
        return false;
      }
      OthersCommit(journal, turn.before, SessionChecked);
      CheckBoundsKeepsSound(State(SessionChecked), journal.rows, journal.lastSequence);
      if Unavailable(journal.rows, cursor) {
        EndsAlike(State(SessionChecked), journal.rows, Ended);
        SendReplayUnavailable(journal.rows);
        return false;
      }
      OthersCommit(journal, turn.between, BoundsChecked);
      open := true;
    }

    /** One turn of the main loop. */
    method OnePass(journal: Journal, turn: Turn) returns (open: bool)
      requires Consistent(journal.rows, journal.lastSequence)
      requires Sound(State(LoopHead), journal.rows, journal.lastSequence)
      modifies this, journal
      ensures Consistent(journal.rows, journal.lastSequence)
      ensures Sound(State(if open then LoopHead else Ended), journal.rows, journal.lastSequence)
      ensures World(journal.rows, journal.lastSequence, State(if open then LoopHead else Ended))
           == Passed(World(old(journal.rows), old(journal.lastSequence), old(State(LoopHead))), turn)
    {
      hide Sound, Consistent, Latest, OnInbound, Checked, Drained, Append;
      open := Checks(journal, turn);
      if !open { return; }
      var inOrder := DrainEventBatch(journal.rows, journal.lastSequence);
      OthersCommit(journal, turn.during, Waiting);
      if turn.beat {
        BeatKeepsSound(State(Waiting), journal.rows, journal.lastSequence);
        output := output + [Heartbeat(Latest(journal.rows))];
      }
      InboundKeepsSound(State(Waiting), journal.rows, journal.lastSequence, turn.frame);
      open := HandleFrame(turn.frame);
    }
  }
}
