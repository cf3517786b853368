/** What a replay session says: the messages every step of the machine sends, told
    from the journal's bounds and the peer's frame. */
module SessionMessages {
  import opened Wrappers
  import opened EventJournal
  import opened EventSession

  /** The step adds these messages, and nothing else of what is sent changes. */
  ghost predicate Says(w: World, step: Step, messages: seq<Message>) {
    Next(w, step).session.output == w.session.output + messages
  }

  /** The smallest and the greatest sequence stored. */
  ghost predicate Bounds(rows: seq<Event>, oldest: nat, latest: nat) {
    && (exists e :: e in rows && e.sequence == oldest) && (exists e :: e in rows && e.sequence == latest)
    && forall e :: e in rows ==> oldest <= e.sequence <= latest
  }

  lemma BoundsAre(rows: seq<Event>, last: nat)
    requires Ordered(rows, last) && rows != []
    ensures Oldest(rows).Some? && Bounds(rows, Oldest(rows).value, Latest(rows))
  {
    assert rows[0] in rows && rows[|rows| - 1] in rows;
    forall e | e in rows
      ensures Oldest(rows).value <= e.sequence <= Latest(rows)
    {
      BoundsAreExtremes(rows, last, e);
    }
  }

  /** What a peer is told whose cursor is out of bounds: the oldest sequence still
      there, or 1, and the newest, or 0; then the stream is closed in good order. */
  ghost predicate Refused(w: World, step: Step) {
    && Next(w, step).session.phase.Ended?
    && exists oldest: nat, latest: nat ::
         && (if w.rows == [] then oldest == 1 && latest == 0 else Bounds(w.rows, oldest, latest))
         && Says(w, step, [ReplayUnavailable(oldest, latest), Close(1000)])
  }

  lemma GivesUp(w: World, step: Step)
    requires Inv(w) && !w.session.closeSent && Next(w, step).session == GiveUp(w.session, w.rows)
    ensures Refused(w, step)
  {
    if w.rows != [] { BoundsAre(w.rows, w.last); }
    var oldest := if Oldest(w.rows).Some? then Oldest(w.rows).value else 1;
    assert Says(w, step, [ReplayUnavailable(oldest, Latest(w.rows)), Close(1000)]);
  }

  /** The answer to a subscription: the first sequence that will be replayed, or
      that the cursor is out of bounds. */
  lemma OpeningSays(w: World)
    requires Inv(w) && w.session.phase.Opening?
    ensures if Unavailable(w.rows, w.session.after) then Refused(w, Open)
            else Says(w, Open, [Subscribed(w.session.after + 1, Latest(w.rows))])
                 && Next(w, Open).session.phase.LoopHead?
  {
    hide Unavailable, Latest, Oldest, Refused, Delivered, Window;
    if Unavailable(w.rows, w.session.after) { GivesUp(w, Open); }
  }

  /** At the loop head a session that is no longer current is closed as a policy
      violation, one whose cursor is out of bounds is told so, and any other goes on
      without a message. */
  lemma ChecksSay(w: World, current: bool)
    requires Inv(w)
    ensures w.session.phase.LoopHead? ==>
              if current then
                Says(w, CheckSession(true), []) && Next(w, CheckSession(true)).session.phase.SessionChecked?
              else Says(w, CheckSession(false), [Close(1008)]) && Next(w, CheckSession(false)).session.phase.Ended?
    ensures w.session.phase.SessionChecked? ==>
              if Unavailable(w.rows, w.session.cursor) then Refused(w, CheckBounds)
              else Says(w, CheckBounds, []) && Next(w, CheckBounds).session.phase.BoundsChecked?
  {
    hide Unavailable, Latest, Oldest, Refused, Delivered, Window;
    assert w.session.output + [] == w.session.output;
    if w.session.phase.SessionChecked? && Unavailable(w.rows, w.session.cursor) { GivesUp(w, CheckBounds); }
  }

  /** A row of the batch is sent if its type is subscribed, and passed over in
      silence otherwise; either way it becomes the cursor. */
  lemma DeliverySays(w: World)
    requires Inv(w) && w.session.phase.Draining? && w.session.phase.batch != []
    ensures var e := w.session.phase.batch[0];
            && Says(w, Deliver, if e.draft.aggregateType in w.session.topics then [Delivery(e)] else [])
            && Next(w, Deliver).session.cursor == e.sequence
  {
    hide Delivered, Window, After;
    DeliverKeepsInv(w);
    DeliverOneKeepsSound(w.session, w.rows, w.last);
    assert w.session.output + [] == w.session.output;
  }

  /** A row that does not lie behind the cursor would not be sent: the stream would
      be closed as failed. In a sound session there is none. */
  lemma MisorderedSays(s: Session, e: Event, rest: seq<Event>)
    requires e.sequence <= s.cursor && !s.closeSent
    ensures DeliverOne(s, e, rest).output == s.output + [Close(1011)] && DeliverOne(s, e, rest).phase.Ended?
    ensures DeliverOne(s, e, rest).cursor == s.cursor
  {
  }

  /** A heartbeat names the newest sequence, a ping is answered with a pong, a close
      frame with its own code, anything else but a pong with 1008, and a peer that
      is gone with nothing. */
  lemma WaitingSays(w: World, frame: Inbound)
    requires Inv(w) && w.session.phase.Waiting?
    ensures Says(w, Beat, [Heartbeat(Latest(w.rows))]) && Next(w, Beat).session.phase.Waiting?
    ensures Says(w, Receive(frame),
                 match frame
                 case NoFrame => []
                 case PongFrame => []
                 case PeerGone => []
                 case PingFrame => [Pong]
                 case CloseFrame(code) => [Close(code)]
                 case OtherFrame => [Close(1008)])
    ensures Next(w, Receive(frame)).session.phase
         == if frame.NoFrame? || frame.PongFrame? || frame.PingFrame? then LoopHead else Ended
  {
    hide Delivered, Window, Latest;
    assert w.session.output + [] == w.session.output;
  }

  /** A failure closes the stream with the code it calls for, if any; once it has
      ended, a session says nothing more. */
  lemma FailureSays(w: World, code: Option<int>, step: Step)
    requires Inv(w)
    ensures !w.session.phase.Ended? ==>
              Says(w, Fault(code), if code.Some? then [Close(code.value)] else [])
              && Next(w, Fault(code)).session.phase.Ended?
    ensures w.session.phase.Ended? ==> Next(w, step).session == w.session
  {
    hide Delivered, Window;
    assert w.session.output + [] == w.session.output;
  }
}
