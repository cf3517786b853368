/** The durable event journal: a sequenced, append-only table in which every
    aggregate's events carry the revisions 1, 2, 3, ... */
module EventJournal {
  import opened Wrappers

  datatype AggregateType =
    | System | Project | Objective | Task | Run | Review | Recovery
    | Sandbox | SandboxBuild | Backup | Notification | Confirmation | Audit

  /** What a writer hands to `Emit`. */
  datatype Draft = Draft(aggregateType: AggregateType, aggregateId: string, data: string)

  datatype Event = Event(sequence: nat, draft: Draft, revision: nat)

  predicate SameAggregate(a: Draft, b: Draft) {
    a.aggregateType == b.aggregateType && a.aggregateId == b.aggregateId
  }

  /** COALESCE(MAX(aggregate_revision), 0) over one aggregate's rows. */
  function MaxRevision(rows: seq<Event>, draft: Draft): nat {
    if rows == [] then 0
    else
      var last := rows[|rows| - 1];
      var r := MaxRevision(rows[..|rows| - 1], draft);
      if SameAggregate(last.draft, draft) && last.revision > r then last.revision else r
  }

  function Emitted(rows: seq<Event>, last: nat, draft: Draft): Event {
    Event(last + 1, draft, MaxRevision(rows, draft) + 1)
  }

  /** The rows after a transaction that emits `drafts` in order. */
  function Append(rows: seq<Event>, last: nat, drafts: seq<Draft>): seq<Event>
    decreases |drafts|
  {
    if drafts == [] then rows
    else Append(rows + [Emitted(rows, last, drafts[0])], last + 1, drafts[1..])
  }

  class Journal {
    var rows: seq<Event>
    var lastSequence: nat

    constructor ()
      ensures rows == [] && lastSequence == 0
    {
      rows, lastSequence := [], 0;
    }

    /** One INSERT inside the caller's transaction. */
    method Emit(draft: Draft) returns (event: Event)
      modifies this
      ensures event == Emitted(old(rows), old(lastSequence), draft)
      ensures rows == old(rows) + [event] && lastSequence == old(lastSequence) + 1
    {
      var revision := MaxRevision(rows, draft) + 1;
      event := Event(lastSequence + 1, draft, revision);
      rows := rows + [event];
      lastSequence := lastSequence + 1;
    }
  }

  // ----- The journal invariant ---------------------------------------------------

  function CountOf(rows: seq<Event>, draft: Draft): nat {
    if rows == [] then 0
    else CountOf(rows[..|rows| - 1], draft) + (if SameAggregate(rows[|rows| - 1].draft, draft) then 1 else 0)
  }

  ghost predicate Ordered(rows: seq<Event>, last: nat) {
    && (forall i, j :: 0 <= i < j < |rows| ==> rows[i].sequence < rows[j].sequence)
    && (forall i :: 0 <= i < |rows| ==> 1 <= rows[i].sequence <= last)
  }

  /** The k-th row of an aggregate, in sequence order, carries revision k. */
  ghost predicate Revisioned(rows: seq<Event>) {
    forall i :: 0 <= i < |rows| ==> rows[i].revision == CountOf(rows[..i + 1], rows[i].draft)
  }

  ghost predicate Consistent(rows: seq<Event>, last: nat) {
    Ordered(rows, last) && Revisioned(rows)
  }

  lemma {:induction false} CountSameAggregate(rows: seq<Event>, a: Draft, b: Draft)
    requires SameAggregate(a, b)
    ensures CountOf(rows, a) == CountOf(rows, b)
  {
    if rows == [] {
    } else {
      CountSameAggregate(rows[..|rows| - 1], a, b);
    }
  }

  lemma {:induction false} MaxIsCount(rows: seq<Event>, draft: Draft)
    requires Revisioned(rows)
    ensures MaxRevision(rows, draft) == CountOf(rows, draft)
  {
    if rows == [] {
    } else {
      var front := rows[..|rows| - 1];
      forall i | 0 <= i < |front|
        ensures front[i].revision == CountOf(front[..i + 1], front[i].draft)
      {
        assert front[..i + 1] == rows[..i + 1] && front[i] == rows[i];
      }
      MaxIsCount(front, draft);
      assert rows[..|rows|] == rows;
      if SameAggregate(rows[|rows| - 1].draft, draft) {
        CountSameAggregate(rows, rows[|rows| - 1].draft, draft);
      }
    }
  }

  lemma EmitKeepsOrdered(rows: seq<Event>, last: nat, draft: Draft)
    requires Ordered(rows, last)
    ensures Ordered(rows + [Emitted(rows, last, draft)], last + 1)
  {
  }

  lemma CountOfMore(rows: seq<Event>, event: Event)
    ensures CountOf(rows + [event], event.draft) == CountOf(rows, event.draft) + 1
  {
    assert (rows + [event])[..|rows|] == rows;
  }

  lemma EmitKeepsRevisioned(rows: seq<Event>, last: nat, draft: Draft)
    requires Revisioned(rows)
    ensures Revisioned(rows + [Emitted(rows, last, draft)])
  {
    hide CountOf, MaxRevision;
    var event := Emitted(rows, last, draft);
    var more := rows + [event];
    MaxIsCount(rows, draft);
    CountOfMore(rows, event);
    forall i | 0 <= i < |more|
      ensures more[i].revision == CountOf(more[..i + 1], more[i].draft)
    {
      assert more[..i + 1] == if i < |rows| then rows[..i + 1] else more;
    }
  }

  lemma EmitKeepsConsistent(rows: seq<Event>, last: nat, draft: Draft)
    requires Consistent(rows, last)
    ensures Consistent(rows + [Emitted(rows, last, draft)], last + 1)
  {
    EmitKeepsOrdered(rows, last, draft);
    EmitKeepsRevisioned(rows, last, draft);
  }

  /** Every committed transaction extends the journal and keeps it consistent:
      over any run of writers each aggregate's revisions are 1, 2, ..., k in
      sequence order. */
  lemma {:induction false} AppendKeepsConsistent(rows: seq<Event>, last: nat, drafts: seq<Draft>)
    requires Consistent(rows, last)
    ensures Consistent(Append(rows, last, drafts), last + |drafts|)
    decreases |drafts|
  {
    if drafts == [] {
    } else {
      EmitKeepsConsistent(rows, last, drafts[0]);
      AppendKeepsConsistent(rows + [Emitted(rows, last, drafts[0])], last + 1, drafts[1..]);
    }
  }

  /** A transaction only adds rows, and all of them lie beyond every older sequence. */
  lemma {:induction false} AppendExtends(rows: seq<Event>, last: nat, drafts: seq<Draft>)
    ensures rows <= Append(rows, last, drafts)
    ensures |Append(rows, last, drafts)| == |rows| + |drafts|
    ensures forall i :: |rows| <= i < |rows| + |drafts| ==> Append(rows, last, drafts)[i].sequence > last
    decreases |drafts|
  {
    if drafts == [] {
    } else {
      var more := rows + [Emitted(rows, last, drafts[0])];
      AppendExtends(more, last + 1, drafts[1..]);
      assert Append(rows, last, drafts)[|rows|] == more[|rows|];
    }
  }

  lemma {:induction false} CountBounds(rows: seq<Event>, i: nat, draft: Draft)
    requires i <= |rows|
    ensures CountOf(rows[..i], draft) <= CountOf(rows, draft)
    ensures i < |rows| && SameAggregate(rows[i].draft, draft) ==> CountOf(rows[..i], draft) < CountOf(rows, draft)
  {
    if i < |rows| {
      var front := rows[..|rows| - 1];
      assert front[..i] == rows[..i];
      CountBounds(front, i, draft);
    } else {
      assert rows[..i] == rows;
    }
  }

  /** No two rows share an aggregate and a revision (the table's UNIQUE key),
      and within one aggregate the revisions rise with the sequence. */
  lemma RevisionsRise(rows: seq<Event>, last: nat, i: nat, j: nat)
    requires Consistent(rows, last)
    requires i < j < |rows| && SameAggregate(rows[i].draft, rows[j].draft)
    ensures 1 <= rows[i].revision < rows[j].revision
  {
    CountSameAggregate(rows[..i + 1], rows[i].draft, rows[j].draft);
    CountBounds(rows[..j + 1], i + 1, rows[j].draft);
    assert rows[..j + 1][..i + 1] == rows[..i + 1];
    CountBounds(rows[..j], i + 1, rows[j].draft);
    assert rows[..j][..i + 1] == rows[..i + 1];
    assert rows[..j + 1][..j] == rows[..j];
    assert rows[..i + 1][|rows[..i + 1]| - 1] == rows[i];
  }

  /** The rows up to `n` that belong to one aggregate, by type and identifier. */
  ghost function RowsOf(rows: seq<Event>, n: nat, kind: AggregateType, id: string): set<nat> {
    set i: nat | i < n && i < |rows| && rows[i].draft.aggregateType == kind && rows[i].draft.aggregateId == id
  }

  lemma {:induction false} CountIsCardinality(rows: seq<Event>, n: nat, draft: Draft)
    requires n <= |rows|
    ensures CountOf(rows[..n], draft) == |RowsOf(rows, n, draft.aggregateType, draft.aggregateId)|
  {
    var kind, id := draft.aggregateType, draft.aggregateId;
    if n == 0 {
      var none: set<nat> := {};
      assert RowsOf(rows, 0, kind, id) == none;
    } else {
      CountIsCardinality(rows, n - 1, draft);
      assert rows[..n][..n - 1] == rows[..n - 1];
      var before, now := RowsOf(rows, n - 1, kind, id), RowsOf(rows, n, kind, id);
      if SameAggregate(rows[n - 1].draft, draft) {
        assert now == before + {n - 1};
      } else {
        assert now == before;
      }
    }
  }

  /** A row's revision is the number of rows up to it with the same aggregate type
      and the same identifier. */
  lemma RevisionCountsRows(rows: seq<Event>, last: nat, i: nat)
    requires Consistent(rows, last) && i < |rows|
    ensures rows[i].revision
         == |RowsOf(rows, i + 1, rows[i].draft.aggregateType, rows[i].draft.aggregateId)|
  {
    CountIsCardinality(rows, i + 1, rows[i].draft);
  }

  /** No sequence is left out from the oldest row to the last one assigned. */
  ghost predicate Contiguous(rows: seq<Event>, last: nat) {
    && (forall i :: 0 <= i < |rows| ==> rows[i].sequence == last - |rows| + 1 + i)
    && |rows| <= last
  }

  /** Writers leave no gaps: a rolled-back transaction takes back the sequences
      it drew. */
  lemma {:induction false} AppendKeepsContiguous(rows: seq<Event>, last: nat, drafts: seq<Draft>)
    requires Contiguous(rows, last)
    ensures Contiguous(Append(rows, last, drafts), last + |drafts|)
    decreases |drafts|
  {
    if drafts == [] {
    } else {
      AppendKeepsContiguous(rows + [Emitted(rows, last, drafts[0])], last + 1, drafts[1..]);
    }
  }

  // ----- Queries ---------------------------------------------------------------------

  /** Rows with `sequence > after`, in order. */
  function After(rows: seq<Event>, after: nat): seq<Event> {
    if rows == [] then []
    else After(rows[..|rows| - 1], after) + (if rows[|rows| - 1].sequence > after then [rows[|rows| - 1]] else [])
  }

  /** ORDER BY sequence LIMIT limit. */
  function ReadAfter(rows: seq<Event>, after: nat, limit: nat): seq<Event> {
    var found := After(rows, after);
    if |found| <= limit then found else found[..limit]
  }

  function Oldest(rows: seq<Event>): Option<nat> {
    if rows == [] then None else Some(rows[0].sequence)
  }

  function Latest(rows: seq<Event>): nat {
    if rows == [] then 0 else rows[|rows| - 1].sequence
  }

  /** On an ordered journal `Oldest` and `Latest` are MIN and MAX of the sequence. */
  lemma BoundsAreExtremes(rows: seq<Event>, last: nat, e: Event)
    requires Ordered(rows, last) && e in rows
    ensures Oldest(rows).value <= e.sequence <= Latest(rows) <= last
  {
    var i :| 0 <= i < |rows| && rows[i] == e;
    assert i == 0 || rows[0].sequence < rows[i].sequence;
    assert i == |rows| - 1 || rows[i].sequence < rows[|rows| - 1].sequence;
  }

  lemma AfterSnoc(rows: seq<Event>, top: Event, after: nat)
    ensures After(rows + [top], after) == After(rows, after) + (if top.sequence > after then [top] else [])
  {
    assert (rows + [top])[..|rows|] == rows;
  }

  lemma {:induction false} AfterOfConcat(a: seq<Event>, b: seq<Event>, after: nat)
    ensures After(a + b, after) == After(a, after) + After(b, after)
  {
    if b == [] {
      assert a + b == a;
    } else {
      hide After;
      var front, top := b[..|b| - 1], b[|b| - 1];
      AfterOfConcat(a, front, after);
      assert b == front + [top];
      AfterSnoc(front, top, after);
      assert a + b == (a + front) + [top];
      AfterSnoc(a + front, top, after);
    }
  }

  lemma OrderedFront(rows: seq<Event>, last: nat)
    requires Ordered(rows, last) && rows != []
    ensures var front, top := rows[..|rows| - 1], rows[|rows| - 1].sequence;
            Ordered(front, top - 1) && 1 <= top <= last
  {
    var front := rows[..|rows| - 1];
    forall i | 0 <= i < |front|
      ensures front[i].sequence < rows[|rows| - 1].sequence
    {
      assert front[i] == rows[i];
    }
  }

  lemma {:induction false} NothingAfterTop(rows: seq<Event>, last: nat, after: nat)
    requires Ordered(rows, last) && last <= after
    ensures After(rows, after) == []
  {
    if rows == [] {
    } else {
      OrderedFront(rows, last);
      NothingAfterTop(rows[..|rows| - 1], rows[|rows| - 1].sequence - 1, after);
    }
  }

  /** A cursor leaves at most as many rows to read as the distance to the
      newest sequence. */
  lemma {:induction false} AfterCount(rows: seq<Event>, last: nat, after: nat)
    requires Ordered(rows, last)
    ensures |After(rows, after)| <= if last > after then last - after else 0
  {
    if rows == [] {
    } else {
      OrderedFront(rows, last);
      AfterCount(rows[..|rows| - 1], rows[|rows| - 1].sequence - 1, after);
    }
  }

  lemma {:induction false} AfterMembers(rows: seq<Event>, last: nat, after: nat, i: nat)
    requires Ordered(rows, last) && i < |After(rows, after)|
    ensures after < After(rows, after)[i].sequence <= last
    decreases |rows|
  {
    var front := rows[..|rows| - 1];
    OrderedFront(rows, last);
    if i >= |After(front, after)| {
    } else {
      AfterMembers(front, rows[|rows| - 1].sequence - 1, after, i);
    }
  }

  /** Moving the cursor to the first unread row leaves exactly the others unread. */
  lemma {:induction false} AfterFirst(rows: seq<Event>, last: nat, after: nat)
    requires Ordered(rows, last) && After(rows, after) != []
    ensures After(rows, After(rows, after)[0].sequence) == After(rows, after)[1..]
  {
    var front, top := rows[..|rows| - 1], rows[|rows| - 1];
    OrderedFront(rows, last);
    if After(front, after) == [] {
      assert After(rows, after) == [top];
      NothingAfterTop(front, top.sequence - 1, top.sequence);
    } else {
      AfterFirst(front, top.sequence - 1, after);
      AfterMembers(front, top.sequence - 1, after, 0);
    }
  }
}
