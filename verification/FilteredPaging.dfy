/** Lists of reviews and recoveries: a keyset scan, newest first, whose state
    filter is applied after the rows are read, in windows of 1001 rows. */
module FilteredPaging {
  import opened Wrappers
  import opened Text

  const WINDOW: nat := 1001
  const MAX_LIMIT: nat := 200

  /** A row's place in the order. */
  datatype Key = Key(created: string, id: string)

  datatype Row = Row(key: Key, project: string, state: string)

  datatype Page = Page(rows: seq<Row>, next: Option<Key>)

  predicate Before(a: Key, b: Key) {
    Less(a.created, b.created) || (a.created == b.created && Less(a.id, b.id))
  }

  lemma BeforeTransitive(a: Key, b: Key, c: Key)
    requires Before(a, b) && Before(b, c)
    ensures Before(a, c)
  {
    if Less(a.created, b.created) && Less(b.created, c.created) {
      LessTransitive(a.created, b.created, c.created);
    } else if a.created == b.created && b.created == c.created {
      LessTransitive(a.id, b.id, c.id);
    }
  }

  lemma BeforeIrreflexive(a: Key)
    ensures !Before(a, a)
  {
    LessIrreflexive(a.created);
    LessIrreflexive(a.id);
  }

  /** `a` is the older key: it was created earlier, or at the same time with the
      identifier that comes first. */
  ghost predicate Older(a: Key, b: Key) {
    Precedes(a.created, b.created) || (a.created == b.created && Precedes(a.id, b.id))
  }

  lemma BeforeIsOlder(a: Key, b: Key)
    ensures Before(a, b) <==> Older(a, b)
  {
    LessIsLexicographic(a.created, b.created);
    LessIsLexicographic(a.id, b.id);
  }

  /** `ORDER BY created_at DESC, id DESC` over rows with distinct identifiers. */
  ghost predicate Descending(rows: seq<Row>) {
    forall i, j :: 0 <= i < j < |rows| ==> Before(rows[j].key, rows[i].key)
  }

  // ----- The query and the page ----------------------------------------------------------

  predicate Selected(row: Row, project: Option<string>, cursor: Option<Key>) {
    (project.Some? ==> row.project == project.value) && (cursor.Some? ==> Before(row.key, cursor.value))
  }

  /** The rows the `WHERE` clauses leave, in order. */
  function Select(table: seq<Row>, project: Option<string>, cursor: Option<Key>): seq<Row> {
    if table == [] then []
    else (if Selected(table[0], project, cursor) then [table[0]] else []) + Select(table[1..], project, cursor)
  }

  predicate Wanted(row: Row, state: Option<string>) { state.Some? ==> row.state == state.value }

  /** The wanted rows among the first `n`. */
  function Found(rows: seq<Row>, n: nat, state: Option<string>): seq<Row>
    requires n <= |rows|
  {
    if n == 0 then [] else Found(rows, n - 1, state) + (if Wanted(rows[n - 1], state) then [rows[n - 1]] else [])
  }

  function Matching(rows: seq<Row>, state: Option<string>): seq<Row> {
    Found(rows, |rows|, state)
  }

  /** One page taken from the rows that the query leaves. */
  function PageOf(left: seq<Row>, limit: nat, state: Option<string>): Page
    requires limit >= 1
  {
    var window := if |left| <= WINDOW then left else left[..WINDOW];
    var found := Matching(window, state);
    if |found| > limit then Page(found[..limit], Some(found[limit - 1].key))
    else if state.Some? && |window| == WINDOW then Page(found, Some(window[WINDOW - 1].key))
    else Page(found, None)
  }

  lemma {:induction false} SelectOnly(table: seq<Row>, project: Option<string>, cursor: Option<Key>)
    ensures forall r :: r in Select(table, project, cursor) <==> r in table && Selected(r, project, cursor)
  {
    if table == [] {
    } else {
      SelectOnly(table[1..], project, cursor);
      assert table == [table[0]] + table[1..];
    }
  }

  lemma {:induction false} SelectDescends(table: seq<Row>, project: Option<string>, cursor: Option<Key>)
    requires Descending(table)
    ensures Descending(Select(table, project, cursor))
  {
    if table == [] {
    } else {
      var rest := Select(table[1..], project, cursor);
      SelectDescends(table[1..], project, cursor);
      SelectOnly(table[1..], project, cursor);
      forall j | 0 <= j < |rest|
        ensures Before(rest[j].key, table[0].key)
      {
        assert rest[j] in table[1..];
      }
    }
  }

  lemma {:induction false} FoundOnly(rows: seq<Row>, n: nat, state: Option<string>)
    requires n <= |rows|
    ensures forall r :: r in Found(rows, n, state) <==> r in rows[..n] && Wanted(r, state)
    ensures state.None? ==> Found(rows, n, state) == rows[..n]
  {
    if n == 0 {
    } else {
      FoundOnly(rows, n - 1, state);
      assert rows[..n] == rows[..n - 1] + [rows[n - 1]];
    }
  }

  lemma MatchingOnly(rows: seq<Row>, state: Option<string>)
    ensures forall r :: r in Matching(rows, state) <==> r in rows && Wanted(r, state)
    ensures state.None? ==> Matching(rows, state) == rows
  {
    FoundOnly(rows, |rows|, state);
    assert rows[..|rows|] == rows;
  }

  lemma {:induction false} FoundGrows(rows: seq<Row>, n: nat, m: nat, state: Option<string>)
    requires n <= m <= |rows|
    ensures Found(rows, n, state) <= Found(rows, m, state)
    decreases m - n
  {
    if n >= m {
    } else {
      FoundGrows(rows, n, m - 1, state);
    }
  }

  /** What follows the rows does not matter. */
  lemma {:induction false} FoundInFront(front: seq<Row>, rows: seq<Row>, n: nat, state: Option<string>)
    requires n <= |front| <= |rows| && front == rows[..|front|]
    ensures Found(front, n, state) == Found(rows, n, state)
  {
    if n == 0 {
    } else {
      FoundInFront(front, rows, n - 1, state);
    }
  }

  lemma {:induction false} FoundConcat(rows: seq<Row>, k: nat, back: seq<Row>, n: nat, state: Option<string>)
    requires k <= |rows| && back == rows[k..] && n <= |back|
    ensures Found(rows, k + n, state) == Found(rows, k, state) + Found(back, n, state)
  {
    if n == 0 {
    } else {
      FoundConcat(rows, k, back, n - 1, state);
      assert back[n - 1] == rows[k + n - 1];
    }
  }

  lemma MatchingSplit(rows: seq<Row>, k: nat, state: Option<string>)
    requires k <= |rows|
    ensures Matching(rows, state) == Matching(rows[..k], state) + Matching(rows[k..], state)
  {
    FoundConcat(rows, k, rows[k..], |rows| - k, state);
    FoundInFront(rows[..k], rows, k, state);
  }

  lemma StoppedEarly(all: seq<Row>, some: seq<Row>, limit: nat)
    requires some <= all && 1 <= limit < |some|
    ensures all[..limit] == some[..limit] && all[limit - 1] == some[limit - 1]
  {
  }

  /** The page as the program collects it: rows are projected until one more than
      the limit is found. */
  method ListPage(table: seq<Row>, limit: nat, cursor: Option<Key>, project: Option<string>, state: Option<string>)
    returns (page: Page)
    requires 1 <= limit <= MAX_LIMIT
    ensures page == PageOf(Select(table, project, cursor), limit, state)
  {
    hide Wanted, Select;
    var left := Select(table, project, cursor);
    var rows := if |left| <= WINDOW then left else left[..WINDOW];
    var projected: seq<Row> := [];
    var lastScanned: Option<Row> := None;
    var i := 0;
    while i < |rows|
      invariant 0 <= i <= |rows|
      invariant projected == Found(rows, i, state) && |projected| <= limit
      invariant lastScanned == if i == 0 then None else Some(rows[i - 1])
    {
      var row := rows[i];
      lastScanned := Some(row);
      i := i + 1;
      if !Wanted(row, state) {
        continue;
      }
      projected := projected + [row];
      if |projected| > limit {
        break;
      }
    }
    FoundGrows(rows, i, |rows|, state);
    if |projected| > limit {
      StoppedEarly(Matching(rows, state), projected, limit);
      page := Page(projected[..limit], Some(projected[limit - 1].key));
    } else if state.Some? && |rows| == WINDOW && lastScanned.Some? {
      page := Page(projected, Some(lastScanned.value.key));
    } else {
      page := Page(projected, None);
    }
  }

  // ----- A page takes a whole stretch off the front ------------------------------------------

  lemma {:induction false} PrefixUpTo(rows: seq<Row>, m: nat, state: Option<string>, n: nat) returns (k: nat)
    requires m <= |rows| && 1 <= n <= |Found(rows, m, state)|
    ensures 1 <= k <= m && Found(rows, k, state) == Found(rows, m, state)[..n]
    ensures rows[k - 1] == Found(rows, m, state)[n - 1]
  {
    if n <= |Found(rows, m - 1, state)| {
      k := PrefixUpTo(rows, m - 1, state, n);
    } else {
      k := m;
    }
  }

  /** The page holds the matches among the first `k` of the rows left, and the
      cursor names the last of them; without a cursor nothing is left. */
  lemma PageTakesStretch(left: seq<Row>, limit: nat, state: Option<string>) returns (k: nat)
    requires 1 <= limit <= MAX_LIMIT
    ensures k <= |left|
    ensures var page := PageOf(left, limit, state);
            && page.rows == Matching(left[..k], state) && |page.rows| <= limit
            && (page.next.None? ==> k == |left|)
            && (page.next.Some? ==> k > 0 && page.next.value == left[k - 1].key)
            && (page.next.Some? ==> |page.rows| == limit || k == WINDOW)
  {
    var window := if |left| <= WINDOW then left else left[..WINDOW];
    var found := Matching(window, state);
    if |found| > limit {
      k := PrefixUpTo(window, |window|, state, limit);
      assert left[..k] == window[..k];
      FoundInFront(window[..k], window, k, state);
    } else {
      k := |window|;
      assert window == left[..k];
      MatchingOnly(window, state);
    }
  }

  // ----- Following the cursors over a fixed table ----------------------------------------------

  lemma FirstSelected(table: seq<Row>, project: Option<string>, cursor: Option<Key>)
    ensures table == [] ==> Select(table, project, cursor) == []
    ensures table != [] ==>
              Select(table, project, cursor)
              == (if Selected(table[0], project, cursor) then [table[0]] else []) + Select(table[1..], project, cursor)
  {
  }

  /** Going on after the `k`-th row left leaves exactly the rows behind it. */
  lemma {:induction false} SelectAfterRow(table: seq<Row>, project: Option<string>, cursor: Option<Key>, k: nat)
    requires Descending(table) && 0 < k <= |Select(table, project, cursor)|
    ensures Select(table, project, Some(Select(table, project, cursor)[k - 1].key))
         == Select(table, project, cursor)[k..]
  {
    FirstSelected(table, project, cursor);
    hide Before, Select;
    var left, tail := Select(table, project, cursor), table[1..];
    var later := Select(tail, project, cursor);
    if Selected(table[0], project, cursor) && k == 1 {
      BeforeIrreflexive(table[0].key);
      SameAfterFirst(tail, project, cursor, table[0].key);
      FirstSelected(table, project, Some(table[0].key));
      assert left[1..] == later;
    } else {
      var j := if Selected(table[0], project, cursor) then k - 1 else k;
      assert left == (if Selected(table[0], project, cursor) then [table[0]] else []) + later;
      assert left[k - 1] == later[j - 1] && left[k..] == later[j..];
      SelectAfterRow(tail, project, cursor, j);
      SelectOnly(tail, project, cursor);
      assert later[j - 1] in later;
      NotSelectedBefore(table, project, later[j - 1]);
      FirstSelected(table, project, Some(later[j - 1].key));
    }
  }

  lemma NotSelectedBefore(table: seq<Row>, project: Option<string>, mark: Row)
    requires Descending(table) && table != [] && mark in table[1..]
    ensures !Selected(table[0], project, Some(mark.key))
  {
    assert Before(mark.key, table[0].key);
    if Before(table[0].key, mark.key) {
      BeforeTransitive(mark.key, table[0].key, mark.key);
      BeforeIrreflexive(mark.key);
    }
  }

  /** Rows behind a selected first row are selected alike before and after it. */
  lemma {:induction false} SameAfterFirst(tail: seq<Row>, project: Option<string>, cursor: Option<Key>, first: Key)
    requires cursor.Some? ==> Before(first, cursor.value)
    requires forall i :: 0 <= i < |tail| ==> Before(tail[i].key, first)
    ensures Select(tail, project, Some(first)) == Select(tail, project, cursor)
  {
    if tail == [] {
    } else {
      SameAfterFirst(tail[1..], project, cursor, first);
      if cursor.Some? { BeforeTransitive(tail[0].key, first, cursor.value); }
    }
  }

  /** One page, and what is left for the cursor it returns. */
  lemma PageThenRest(table: seq<Row>, limit: nat, cursor: Option<Key>, project: Option<string>, state: Option<string>)
    requires Descending(table) && 1 <= limit <= MAX_LIMIT
    ensures var left := Select(table, project, cursor);
            var page := PageOf(left, limit, state);
            if page.next.None? then page.rows == Matching(left, state)
            else
              var rest := Select(table, project, page.next);
              |rest| < |left| && page.rows + Matching(rest, state) == Matching(left, state)
  {
    var left := Select(table, project, cursor);
    var k := PageTakesStretch(left, limit, state);
    if PageOf(left, limit, state).next.None? {
      assert left[..k] == left;
    } else {
      MatchingSplit(left, k, state);
      SelectAfterRow(table, project, cursor, k);
    }
  }

  /** All pages from `cursor` on, when page `n` is asked for with limit `limits(n)`. */
  function Follow(table: seq<Row>, limits: nat -> nat, n: nat, cursor: Option<Key>, project: Option<string>,
                  state: Option<string>, fuel: nat): seq<Page>
    requires forall i :: 1 <= limits(i) <= MAX_LIMIT
    decreases fuel
  {
    var page := PageOf(Select(table, project, cursor), limits(n), state);
    if page.next.None? || fuel == 0 then [page]
    else [page] + Follow(table, limits, n + 1, page.next, project, state, fuel - 1)
  }

  function Joined(pages: seq<Page>): seq<Row> {
    if pages == [] then [] else pages[0].rows + Joined(pages[1..])
  }

  /** The pages end without a cursor and hold together exactly `rows`. */
  predicate Delivers(pages: seq<Page>, rows: seq<Row>) {
    pages != [] && pages[|pages| - 1].next.None? && Joined(pages) == rows
  }

  lemma LastPage(page: Page, rows: seq<Row>)
    requires page.next.None? && page.rows == rows
    ensures Delivers([page], rows)
  {
    JoinedFirst(page, []);
    assert [page] + [] == [page];
  }

  lemma OnePageMore(page: Page, rest: seq<Page>, behind: seq<Row>, rows: seq<Row>)
    requires Delivers(rest, behind) && page.rows + behind == rows
    ensures Delivers([page] + rest, rows)
  {
    JoinedFirst(page, rest);
  }

  lemma FoundBehind(rows: seq<Row>, n: nat, state: Option<string>)
    requires Descending(rows) && n < |rows|
    ensures forall r :: r in Found(rows, n, state) ==> Before(rows[n].key, r.key)
  {
    hide Before, Found, Wanted;
    FoundOnly(rows, n, state);
    assert forall r :: r in rows[..n] ==> Before(rows[n].key, r.key);
  }

  lemma OneMoreDescends(rows: seq<Row>, row: Row)
    requires Descending(rows) && forall r :: r in rows ==> Before(row.key, r.key)
    ensures Descending(rows + [row])
  {
    hide Before;
  }

  /** Taking the wanted rows keeps the order. */
  lemma {:induction false} FoundDescends(rows: seq<Row>, n: nat, state: Option<string>)
    requires Descending(rows) && n <= |rows|
    ensures Descending(Found(rows, n, state))
  {
    if n == 0 {
    } else {
      hide Before, Descending;
      FoundDescends(rows, n - 1, state);
      FoundBehind(rows, n - 1, state);
      OneMoreDescends(Found(rows, n - 1, state), rows[n - 1]);
    }
  }

  /** Following cursors ends within as many pages as there are rows left, and the
      pages together are exactly the matching rows, in order. */
  lemma {:induction false} FollowingDeliversAll(table: seq<Row>, limits: nat -> nat, n: nat, cursor: Option<Key>,
                                                project: Option<string>, state: Option<string>, fuel: nat)
    requires Descending(table) && forall i :: 1 <= limits(i) <= MAX_LIMIT
    requires fuel >= |Select(table, project, cursor)|
    ensures Delivers(Follow(table, limits, n, cursor, project, state, fuel),
                     Matching(Select(table, project, cursor), state))
    decreases fuel
  {
    hide Before, Descending, Select, PageOf, Matching, Joined, Delivers;
    var left := Select(table, project, cursor);
    var page := PageOf(left, limits(n), state);
    PageThenRest(table, limits(n), cursor, project, state);
    if page.next.None? {
      LastPage(page, Matching(left, state));
    } else {
      var behind := Select(table, project, page.next);
      FollowingDeliversAll(table, limits, n + 1, page.next, project, state, fuel - 1);
      OnePageMore(page, Follow(table, limits, n + 1, page.next, project, state, fuel - 1), Matching(behind, state),
                  Matching(left, state));
    }
  }

  /** Among the joined pages each later row lies strictly behind the earlier ones,
      so none comes twice. */
  lemma FollowingDescends(table: seq<Row>, limits: nat -> nat, n: nat, cursor: Option<Key>,
                          project: Option<string>, state: Option<string>, fuel: nat)
    requires Descending(table) && forall i :: 1 <= limits(i) <= MAX_LIMIT
    requires fuel >= |Select(table, project, cursor)|
    ensures Descending(Joined(Follow(table, limits, n, cursor, project, state, fuel)))
  {
    hide Descending, Select, Follow, Found, Joined;
    var left := Select(table, project, cursor);
    FollowingDeliversAll(table, limits, n, cursor, project, state, fuel);
    SelectDescends(table, project, cursor);
    FoundDescends(left, |left|, state);
  }

  /** Following the cursors from the start delivers a row exactly if it is in the
      table with the project and the state that were asked for. */
  lemma EveryMatchIsDelivered(table: seq<Row>, limits: nat -> nat, project: Option<string>, state: Option<string>,
                              r: Row)
    requires Descending(table) && forall i :: 1 <= limits(i) <= MAX_LIMIT
    ensures var fuel := |Select(table, project, None)|;
            r in Joined(Follow(table, limits, 0, None, project, state, fuel))
            <==> r in table && project in {None, Some(r.project)} && state in {None, Some(r.state)}
  {
    hide Select, Follow, Found, Joined, Descending;
    var left := Select(table, project, None);
    FollowingDeliversAll(table, limits, 0, None, project, state, |left|);
    SelectOnly(table, project, None);
    MatchingOnly(left, state);
  }

  lemma JoinedFirst(page: Page, rest: seq<Page>)
    ensures Joined([page] + rest) == page.rows + Joined(rest)
  {
    assert ([page] + rest)[1..] == rest;
  }

  // ----- Following the cursors while rows come and go --------------------------------------------

  function CursorAt(pages: seq<Page>, i: nat): Option<Key>
    requires i <= |pages|
  {
    if i == 0 then None else pages[i - 1].next
  }

  /** A walk to the end in which page `i` was read from `tables[i]`. */
  ghost predicate IsWalk(tables: seq<seq<Row>>, limits: seq<nat>, project: Option<string>, state: Option<string>,
                         pages: seq<Page>) {
    && |pages| == |tables| == |limits| && pages != [] && pages[|pages| - 1].next.None?
    && (forall i :: 0 <= i < |pages| ==> Descending(tables[i]) && 1 <= limits[i] <= MAX_LIMIT)
    && (forall i :: 0 <= i < |pages| - 1 ==> pages[i].next.Some?)
    && (forall i :: 0 <= i < |pages| ==>
          pages[i] == PageOf(Select(tables[i], project, CursorAt(pages, i)), limits[i], state))
  }

  /** A row of the table is on the page exactly when it matches and lies between
      the cursor asked with and the cursor returned. */
  lemma PageCovers(table: seq<Row>, project: Option<string>, cursor: Option<Key>, limit: nat, state: Option<string>,
                   r: Row)
    requires Descending(table) && 1 <= limit <= MAX_LIMIT && r in table
    ensures var page := PageOf(Select(table, project, cursor), limit, state);
            r in page.rows <==>
              && project in {None, Some(r.project)} && state in {None, Some(r.state)}
              && (cursor.Some? ==> Older(r.key, cursor.value))
              && (page.next.Some? ==> !Older(r.key, page.next.value))
  {
    hide Before, Older, Select, Found, PageOf;
    if cursor.Some? { BeforeIsOlder(r.key, cursor.value); }
    var left := Select(table, project, cursor);
    var page := PageOf(left, limit, state);
    var k := PageTakesStretch(left, limit, state);
    SelectOnly(table, project, cursor);
    SelectDescends(table, project, cursor);
    MatchingOnly(left[..k], state);
    if page.next.Some? { BeforeIsOlder(r.key, page.next.value); }
    if page.next.Some? && r in left {
      var i :| 0 <= i < |left| && left[i] == r;
      BeforeIrreflexive(r.key);
      if i < k - 1 {
        if Before(r.key, left[k - 1].key) { BeforeTransitive(r.key, left[k - 1].key, r.key); }
      }
      assert r in left[..k] <==> !Before(r.key, left[k - 1].key);
    }
    if page.next.None? { assert left[..k] == left; }
  }

  predicate FallsAt(pages: seq<Page>, i: nat)
    requires 0 < i < |pages|
  {
    pages[i - 1].next.Some? && pages[i].next.Some? && Before(pages[i].next.value, pages[i - 1].next.value)
  }

  ghost predicate CursorsFall(pages: seq<Page>) {
    forall i :: 0 < i < |pages| - 1 ==> FallsAt(pages, i)
  }

  lemma {:induction false} CursorChain(pages: seq<Page>, r: Row, i: nat, j: nat)
    requires CursorsFall(pages) && i <= j < |pages| - 1
    requires pages[i].next.Some? && pages[j].next.Some? && Before(r.key, pages[j].next.value)
    ensures Before(r.key, pages[i].next.value)
    decreases j - i
  {
    if i >= j {
    } else {
      assert FallsAt(pages, j);
      BeforeTransitive(r.key, pages[j].next.value, pages[j - 1].next.value);
      CursorChain(pages, r, i, j - 1);
    }
  }

  lemma WalkCursorsFall(tables: seq<seq<Row>>, limits: seq<nat>, project: Option<string>, state: Option<string>,
                        pages: seq<Page>)
    requires IsWalk(tables, limits, project, state, pages)
    ensures CursorsFall(pages)
  {
    forall i | 0 < i < |pages| - 1
      ensures FallsAt(pages, i)
    {
      CursorDescends(tables[i], project, CursorAt(pages, i), limits[i], state);
    }
  }

  lemma CursorDescends(table: seq<Row>, project: Option<string>, cursor: Option<Key>, limit: nat, state: Option<string>)
    requires 1 <= limit <= MAX_LIMIT
    ensures var next := PageOf(Select(table, project, cursor), limit, state).next;
            next.Some? && cursor.Some? ==> Before(next.value, cursor.value)
  {
    var left := Select(table, project, cursor);
    var k := PageTakesStretch(left, limit, state);
    SelectOnly(table, project, cursor);
    if PageOf(left, limit, state).next.Some? { assert left[k - 1] in left; }
  }

  /** The row lies between the cursor page `i` was asked with and the one it returned. */
  predicate Between(pages: seq<Page>, i: nat, r: Row)
    requires i < |pages|
  {
    && (CursorAt(pages, i).Some? ==> Before(r.key, CursorAt(pages, i).value))
    && (pages[i].next.Some? ==> !Before(r.key, pages[i].next.value))
  }

  /** The first page whose returned cursor does not lie behind the row. */
  lemma {:induction false} PageReached(pages: seq<Page>, r: Row, n: nat) returns (i: nat)
    requires n < |pages| && pages[|pages| - 1].next.None?
    requires CursorAt(pages, n).Some? ==> Before(r.key, CursorAt(pages, n).value)
    ensures n <= i < |pages| && Between(pages, i, r)
    decreases |pages| - n
  {
    if pages[n].next.Some? && Before(r.key, pages[n].next.value) {
      i := PageReached(pages, r, n + 1);
    } else {
      i := n;
    }
  }

  lemma AtMostOnePage(pages: seq<Page>, r: Row, i: nat, j: nat)
    requires CursorsFall(pages) && i < j < |pages| && forall k :: 0 <= k < |pages| - 1 ==> pages[k].next.Some?
    ensures !(Between(pages, i, r) && Between(pages, j, r))
  {
    if Between(pages, j, r) { CursorChain(pages, r, i, j - 1); }
  }

  lemma OnPageWhenBetween(tables: seq<seq<Row>>, limits: seq<nat>, project: Option<string>, state: Option<string>,
                          pages: seq<Page>, i: nat, r: Row)
    requires IsWalk(tables, limits, project, state, pages) && i < |pages| && r in tables[i]
    requires project in {None, Some(r.project)} && state in {None, Some(r.state)}
    ensures r in pages[i].rows <==> Between(pages, i, r)
  {
    hide Before, Older, Select, Found, PageOf;
    PageCovers(tables[i], project, CursorAt(pages, i), limits[i], state, r);
    if CursorAt(pages, i).Some? { BeforeIsOlder(r.key, CursorAt(pages, i).value); }
    if pages[i].next.Some? { BeforeIsOlder(r.key, pages[i].next.value); }
  }

  /** Whatever is inserted or deleted between the pages, a matching row that is
      there all the time is delivered on exactly one page. */
  lemma StableRowsOnce(tables: seq<seq<Row>>, limits: seq<nat>, project: Option<string>, state: Option<string>,
                       pages: seq<Page>, r: Row) returns (at: nat)
    requires IsWalk(tables, limits, project, state, pages)
    requires forall i :: 0 <= i < |tables| ==> r in tables[i]
    requires project in {None, Some(r.project)} && state in {None, Some(r.state)}
    ensures at < |pages| && forall i :: 0 <= i < |pages| ==> (r in pages[i].rows <==> i == at)
  {
    at := PageReached(pages, r, 0);
    WalkCursorsFall(tables, limits, project, state, pages);
    forall i | 0 <= i < |pages|
      ensures r in pages[i].rows <==> i == at
    {
      OnPageWhenBetween(tables, limits, project, state, pages, i, r);
      if i < at { AtMostOnePage(pages, r, i, at); }
      if at < i { AtMostOnePage(pages, r, at, i); }
    }
  }
}
