/** The structural comparison of two canonical documents: a recursive walk that
    lists the differing places as JSON pointers, and stops at five hundred. */
module StructuralDiff {
  import opened Json
  import Text

  const MAX_DIFF_CHANGES: nat := 500

  datatype Token = Key(name: string) | Index(index: nat)

  datatype Kind = Added | Removed | Modified

  datatype Change = Change(at: seq<Token>, kind: Kind)

  /** One reported change: a pointer and a kind. */
  datatype Entry = Entry(path: string, kind: Kind)

  // ----- JSON pointers (section 3 of RFC 6901) ---------------------------------------

  function Replace(s: string, c: char, substitute: string): string {
    if s == [] then [] else (if s[0] == c then substitute else [s[0]]) + Replace(s[1..], c, substitute)
  }

  function Escape(name: string): string {
    Replace(Replace(name, '~', "~0"), '/', "~1")
  }

  function TokenText(token: Token): string {
    match token
    case Key(name) => Escape(name)
    case Index(index) => Text.DigitsOf(index)
  }

  function Pointer(at: seq<Token>): string {
    if at == [] then "" else Pointer(at[..|at| - 1]) + "/" + TokenText(at[|at| - 1])
  }

  /** `path or "/"`. */
  function Reported(c: Change): Entry {
    Entry(if Pointer(c.at) == "" then "/" else Pointer(c.at), c.kind)
  }

  function ReportedAll(changes: seq<Change>): (entries: seq<Entry>)
    ensures |entries| == |changes|
    ensures forall i :: 0 <= i < |changes| ==> entries[i] == Reported(changes[i])
  {
    seq(|changes|, i requires 0 <= i < |changes| => Reported(changes[i]))
  }

  // ----- The complete list of differences --------------------------------------------

  predicate SameType(b: Json, a: Json) {
    || (b.Null? && a.Null?) || (b.Bool? && a.Bool?) || (b.Int? && a.Int?) || (b.Float? && a.Float?)
    || (b.Str? && a.Str?) || (b.Arr? && a.Arr?) || (b.Obj? && a.Obj?)
  }

  predicate Scalar(j: Json) { !j.Arr? && !j.Obj? }

  ghost function FullDiff(before: Json, after: Json, at: seq<Token>): seq<Change>
    decreases before
  {
    if !SameType(before, after) then [Change(at, Modified)]
    else if before.Obj? then DiffKeys(before, after, Text.SortedKeys(before.fields.Keys + after.fields.Keys), at)
    else if before.Arr? then DiffItems(before, after, 0, at)
    else if before != after then [Change(at, Modified)]
    else []
  }

  ghost function DiffKey(before: Json, after: Json, key: string, at: seq<Token>): seq<Change>
    requires before.Obj? && after.Obj? && (key in before.fields || key in after.fields)
    decreases before, 0
  {
    var child := at + [Key(key)];
    if key !in before.fields then [Change(child, Added)]
    else if key !in after.fields then [Change(child, Removed)]
    else FullDiff(before.fields[key], after.fields[key], child)
  }

  ghost function DiffKeys(before: Json, after: Json, keys: seq<string>, at: seq<Token>): seq<Change>
    requires before.Obj? && after.Obj?
    decreases before, 1, |keys|
  {
    if keys == [] then []
    else
      (if keys[0] in before.fields || keys[0] in after.fields then DiffKey(before, after, keys[0], at) else [])
      + DiffKeys(before, after, keys[1..], at)
  }

  ghost function DiffItem(before: Json, after: Json, i: nat, at: seq<Token>): seq<Change>
    requires before.Arr? && after.Arr? && (i < |before.items| || i < |after.items|)
    decreases before, 0
  {
    var child := at + [Index(i)];
    if i >= |before.items| then [Change(child, Added)]
    else if i >= |after.items| then [Change(child, Removed)]
    else FullDiff(before.items[i], after.items[i], child)
  }

  function Longer(before: Json, after: Json): nat
    requires before.Arr? && after.Arr?
  {
    if |before.items| > |after.items| then |before.items| else |after.items|
  }

  ghost function DiffItems(before: Json, after: Json, i: nat, at: seq<Token>): seq<Change>
    requires before.Arr? && after.Arr?
    decreases before, 1, Longer(before, after) - i
  {
    if i >= Longer(before, after) then []
    else DiffItem(before, after, i, at) + DiffItems(before, after, i + 1, at)
  }

  // ----- The walk as the program runs it -----------------------------------------------

  lemma PointerChild(at: seq<Token>, token: Token)
    ensures Pointer(at + [token]) == Pointer(at) + "/" + TokenText(token)
  {
    assert (at + [token])[..|at|] == at;
  }

  function Cut(all: seq<Entry>): seq<Entry> {
    if |all| < MAX_DIFF_CHANGES then all else all[..MAX_DIFF_CHANGES]
  }

  /** The list after one more part of the walk, cut at the limit. */
  function Capped(was: seq<Entry>, part: seq<Change>): seq<Entry> {
    Cut(was + ReportedAll(part))
  }

  class ChangeList {
    var items: seq<Entry>

    constructor ()
      ensures items == []
    {
      items := [];
    }
  }

  lemma NothingReported()
    ensures ReportedAll([]) == []
  {
  }

  lemma ReportedConcat(a: seq<Change>, b: seq<Change>)
    ensures ReportedAll(a + b) == ReportedAll(a) + ReportedAll(b)
  {
  }

  lemma Regroup<T>(a: seq<T>, b: seq<T>, c: seq<T>)
    ensures a + (b + c) == (a + b) + c
  {
  }

  lemma CutStep(was: seq<Entry>, d: seq<Entry>, p: seq<Entry>, r: seq<Entry>)
    ensures var now := Cut((was + d) + p);
            if |now| >= MAX_DIFF_CHANGES then now == Cut(was + ((d + p) + r)) else now == was + (d + p)
  {
    var reached := (was + d) + p;
    assert reached == was + (d + p);
    assert was + ((d + p) + r) == reached + r;
    if |reached| >= MAX_DIFF_CHANGES {
      assert (reached + r)[..MAX_DIFF_CHANGES] == reached[..MAX_DIFF_CHANGES];
    }
  }

  /** Recording part after part is recording the whole: `now` is the list after
      `done` and then `part` of the complete list `full`. */
  lemma CappedParts(
    was: seq<Entry>, now: seq<Entry>, done: seq<Change>, part: seq<Change>, rest: seq<Change>, full: seq<Change>)
    requires full == done + (part + rest)
    requires now == Capped(was + ReportedAll(done), part)
    ensures |now| >= MAX_DIFF_CHANGES ==> now == Capped(was, full)
    ensures |now| < MAX_DIFF_CHANGES ==> now == was + ReportedAll(done + part) && full == (done + part) + rest
  {
    hide Cut, ReportedAll;
    Regroup(done, part, rest);
    ReportedConcat(done, part);
    ReportedConcat(done + part, rest);
    CutStep(was, ReportedAll(done), ReportedAll(part), ReportedAll(rest));
  }

  /** The shared list receives the differences in order until it is full. The
      result says whether the walk must stop: it may do so only when the list is
      full, and must if more than one difference was looked for. */
  method DiffValues(before: Json, after: Json, path: string, ghost at: seq<Token>, changes: ChangeList)
    returns (truncated: bool)
    requires path == Pointer(at) && |changes.items| <= MAX_DIFF_CHANGES
    modifies changes
    ensures changes.items == Capped(old(changes.items), FullDiff(before, after, at))
    ensures truncated ==> |changes.items| >= MAX_DIFF_CHANGES
    ensures |changes.items| >= MAX_DIFF_CHANGES && !truncated ==> |old(changes.items)| + 1 == MAX_DIFF_CHANGES
    decreases before
  {
    if |changes.items| >= MAX_DIFF_CHANGES { return true; }
    if !SameType(before, after) {
      changes.items := changes.items + [Entry(if path == "" then "/" else path, Modified)];
      return false;
    }
    if before.Obj? {
      truncated := DiffObjects(before, after, path, at, changes);
      return;
    }
    if before.Arr? {
      truncated := DiffArrays(before, after, path, at, changes);
      return;
    }
    if before != after {
      changes.items := changes.items + [Entry(if path == "" then "/" else path, Modified)];
    }
    return false;
  }

  method DiffObjects(before: Json, after: Json, path: string, ghost at: seq<Token>, changes: ChangeList)
    returns (truncated: bool)
    requires before.Obj? && after.Obj? && path == Pointer(at) && |changes.items| < MAX_DIFF_CHANGES
    modifies changes
    ensures changes.items == Capped(old(changes.items), FullDiff(before, after, at))
    ensures truncated <==> |changes.items| >= MAX_DIFF_CHANGES
    decreases before, 2
  {
    var keys := Text.Sort(before.fields.Keys + after.fields.Keys);
    Text.SortedKeysProperties(before.fields.Keys + after.fields.Keys);
    truncated := DiffMembers(before, after, keys, path, at, changes);
  }

  method DiffMembers(before: Json, after: Json, keys: seq<string>, path: string, ghost at: seq<Token>,
                     changes: ChangeList)
    returns (truncated: bool)
    requires before.Obj? && after.Obj? && path == Pointer(at) && |changes.items| < MAX_DIFF_CHANGES
    requires forall k :: k in keys ==> k in before.fields || k in after.fields
    modifies changes
    ensures changes.items == Capped(old(changes.items), DiffKeys(before, after, keys, at))
    ensures truncated <==> |changes.items| >= MAX_DIFF_CHANGES
    decreases before, 1
  {
    hide ReportedAll, Pointer, DiffKey;
    NothingReported();
    ghost var full := DiffKeys(before, after, keys, at);
    ghost var done: seq<Change> := [];
    var i := 0;
    while i < |keys|
      invariant 0 <= i <= |keys|
      invariant full == done + DiffKeys(before, after, keys[i..], at)
      invariant changes.items == old(changes.items) + ReportedAll(done)
      invariant |changes.items| < MAX_DIFF_CHANGES
    {
      assert keys[i] in keys && keys[i..][0] == keys[i] && keys[i..][1..] == keys[i + 1..];
      ghost var part, rest := DiffKey(before, after, keys[i], at), DiffKeys(before, after, keys[i + 1..], at);
      assert DiffKeys(before, after, keys[i..], at) == part + rest by { assert keys[i..][1..] == keys[i + 1..]; }
      var cut := DiffMember(before, after, keys[i], path, at, changes);
      CappedParts(old(changes.items), changes.items, done, part, rest, full);
      if cut || |changes.items| >= MAX_DIFF_CHANGES { return true; }
      done := done + part;
      i := i + 1;
    }
    truncated := false;
    assert full == done by { assert keys[i..] == []; }
  }

  lemma CappedOne(was: seq<Entry>, at: seq<Token>, kind: Kind)
    requires |was| < MAX_DIFF_CHANGES && at != []
    ensures Capped(was, [Change(at, kind)]) == was + [Entry(Pointer(at), kind)]
  {
    assert ReportedAll([Change(at, kind)]) == [Reported(Change(at, kind))];
    var more := was + [Entry(Pointer(at), kind)];
    if |more| == MAX_DIFF_CHANGES { assert more[..MAX_DIFF_CHANGES] == more; }
  }

  method DiffMember(before: Json, after: Json, key: string, path: string, ghost at: seq<Token>, changes: ChangeList)
    returns (cut: bool)
    requires before.Obj? && after.Obj? && path == Pointer(at) && |changes.items| < MAX_DIFF_CHANGES
    requires key in before.fields || key in after.fields
    modifies changes
    ensures changes.items == Capped(old(changes.items), DiffKey(before, after, key, at))
    ensures cut ==> |changes.items| >= MAX_DIFF_CHANGES
    decreases before, 0
  {
    PointerChild(at, Key(key));
    var child := path + "/" + Escape(key);
    cut := false;
    if key !in before.fields {
      CappedOne(changes.items, at + [Key(key)], Added);
      changes.items := changes.items + [Entry(child, Added)];
    } else if key !in after.fields {
      CappedOne(changes.items, at + [Key(key)], Removed);
      changes.items := changes.items + [Entry(child, Removed)];
    } else {
      cut := DiffValues(before.fields[key], after.fields[key], child, at + [Key(key)], changes);
    }
  }

  method DiffArrays(before: Json, after: Json, path: string, ghost at: seq<Token>, changes: ChangeList)
    returns (truncated: bool)
    requires before.Arr? && after.Arr? && path == Pointer(at) && |changes.items| < MAX_DIFF_CHANGES
    modifies changes
    ensures changes.items == Capped(old(changes.items), FullDiff(before, after, at))
    ensures truncated <==> |changes.items| >= MAX_DIFF_CHANGES
    decreases before, 1
  {
    hide ReportedAll, Pointer, DiffItem;
    var maximum := Longer(before, after);
    NothingReported();
    ghost var full := DiffItems(before, after, 0, at);
    ghost var done: seq<Change> := [];
    var index := 0;
    while index < maximum
      invariant 0 <= index <= maximum
      invariant full == done + DiffItems(before, after, index, at)
      invariant changes.items == old(changes.items) + ReportedAll(done)
      invariant |changes.items| < MAX_DIFF_CHANGES
    {
      ghost var part, rest := DiffItem(before, after, index, at), DiffItems(before, after, index + 1, at);
      assert DiffItems(before, after, index, at) == part + rest;
      var cut := DiffElement(before, after, index, path, at, changes);
      CappedParts(old(changes.items), changes.items, done, part, rest, full);
      if cut || |changes.items| >= MAX_DIFF_CHANGES { return true; }
      done := done + part;
      index := index + 1;
    }
    assert full == done;
    truncated := false;
  }

  method DiffElement(before: Json, after: Json, index: nat, path: string, ghost at: seq<Token>, changes: ChangeList)
    returns (cut: bool)
    requires before.Arr? && after.Arr? && path == Pointer(at) && |changes.items| < MAX_DIFF_CHANGES
    requires index < |before.items| || index < |after.items|
    modifies changes
    ensures changes.items == Capped(old(changes.items), DiffItem(before, after, index, at))
    ensures cut ==> |changes.items| >= MAX_DIFF_CHANGES
    decreases before, 0
  {
    PointerChild(at, Index(index));
    var child := path + "/" + Text.DigitsOf(index);
    cut := false;
    if index >= |before.items| {
      CappedOne(changes.items, at + [Index(index)], Added);
      changes.items := changes.items + [Entry(child, Added)];
    } else if index >= |after.items| {
      CappedOne(changes.items, at + [Index(index)], Removed);
      changes.items := changes.items + [Entry(child, Removed)];
    } else {
      cut := DiffValues(before.items[index], after.items[index], child, at + [Index(index)], changes);
    }
  }

  lemma CappedFromEmpty(full: seq<Change>)
    ensures Capped([], full) == ReportedAll(if |full| <= MAX_DIFF_CHANGES then full else full[..MAX_DIFF_CHANGES])
  {
    assert [] + ReportedAll(full) == ReportedAll(full);
    if |full| > MAX_DIFF_CHANGES {
      assert ReportedAll(full)[..MAX_DIFF_CHANGES] == ReportedAll(full[..MAX_DIFF_CHANGES]);
    }
  }

  /** What `compare` returns about two stored canonical documents. */
  datatype Comparison = Comparison(changed: bool, changes: seq<Entry>, truncated: bool)

  /** The first five hundred differences, `changed` exactly when there is one, and
      `truncated` exactly when there are at least five hundred. */
  ghost predicate IsReport(before: Json, after: Json, report: Comparison) {
    var full := FullDiff(before, after, []);
    && report.changes == ReportedAll(if |full| <= MAX_DIFF_CHANGES then full else full[..MAX_DIFF_CHANGES])
    && report.changed == (full != [])
    && report.truncated == (|full| >= MAX_DIFF_CHANGES)
  }

  method Compare(before: Json, after: Json) returns (report: Comparison)
    ensures IsReport(before, after, report)
  {
    var changes := new ChangeList();
    var truncated := DiffValues(before, after, "", [], changes);
    CappedFromEmpty(FullDiff(before, after, []));
    report := Comparison(changes.items != [], changes.items, truncated);
  }
}
