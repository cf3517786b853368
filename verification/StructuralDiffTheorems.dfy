/** Soundness and completeness of the structural comparison, and the uniqueness
    of pointers in one report. */
module StructuralDiffTheorems {
  import opened Wrappers
  import opened Json
  import opened StructuralDiff
  import Text

  /** The value a reference-token path leads to, if there is one. */
  function Resolve(j: Json, path: seq<Token>): Option<Json> {
    if path == [] then Some(j)
    else if path[0].Key? && j.Obj? && path[0].name in j.fields then Resolve(j.fields[path[0].name], path[1..])
    else if path[0].Index? && j.Arr? && path[0].index < |j.items| then Resolve(j.items[path[0].index], path[1..])
    else None
  }

  /** A listed change is a real one. */
  ghost predicate Genuine(before: Json, after: Json, path: seq<Token>, kind: Kind) {
    var b, a := Resolve(before, path), Resolve(after, path);
    match kind
    case Added => b.None? && a.Some?
    case Removed => b.Some? && a.None?
    case Modified =>
      b.Some? && a.Some? && (!SameType(b.value, a.value) || (Scalar(b.value) && b.value != a.value))
  }

  /** Two documents look alike at one place: both absent, or of one type and,
      for scalars, equal. */
  ghost predicate AlikeAt(before: Json, after: Json, path: seq<Token>) {
    var b, a := Resolve(before, path), Resolve(after, path);
    if b.None? || a.None? then b.None? && a.None?
    else SameType(b.value, a.value) && (Scalar(b.value) ==> b.value == a.value)
  }

  ghost predicate Covered(changes: seq<Change>, at: seq<Token>, path: seq<Token>) {
    exists c :: c in changes && at <= c.at && c.at[|at|..] <= path
  }

  // ----- Soundness -------------------------------------------------------------------

  lemma {:induction false} DiffIsSound(before: Json, after: Json, at: seq<Token>, c: Change)
    requires c in FullDiff(before, after, at)
    ensures at <= c.at && Genuine(before, after, c.at[|at|..], c.kind)
    decreases before, 2
  {
    if !SameType(before, after) || Scalar(before) {
      assert c.at[|at|..] == [];
    } else if before.Obj? {
      KeysAreSound(before, after, Text.SortedKeys(before.fields.Keys + after.fields.Keys), at, c);
    } else {
      ItemsAreSound(before, after, 0, at, c);
    }
  }

  lemma ChildPath(at: seq<Token>, token: Token, path: seq<Token>)
    requires at + [token] <= path
    ensures at <= path && path[|at|..] == [token] + path[|at| + 1..]
    ensures path[|at|..][1..] == path[|at| + 1..]
  {
    assert path[..|at| + 1] == at + [token];
    assert path[..|at|] == at;
  }

  lemma {:induction false} KeysAreSound(before: Json, after: Json, keys: seq<string>, at: seq<Token>, c: Change)
    requires before.Obj? && after.Obj? && c in DiffKeys(before, after, keys, at)
    ensures at <= c.at && Genuine(before, after, c.at[|at|..], c.kind)
    decreases before, 1, |keys|
  {
    var known := keys[0] in before.fields || keys[0] in after.fields;
    if known && c in DiffKey(before, after, keys[0], at) {
      var child := at + [Key(keys[0])];
      if keys[0] in before.fields && keys[0] in after.fields {
        DiffIsSound(before.fields[keys[0]], after.fields[keys[0]], child, c);
      }
      ChildPath(at, Key(keys[0]), c.at);
    } else {
      KeysAreSound(before, after, keys[1..], at, c);
    }
  }

  lemma {:induction false} ItemsAreSound(before: Json, after: Json, i: nat, at: seq<Token>, c: Change)
    requires before.Arr? && after.Arr? && c in DiffItems(before, after, i, at)
    ensures at <= c.at && Genuine(before, after, c.at[|at|..], c.kind)
    decreases before, 1, Longer(before, after) - i
  {
    if c in DiffItem(before, after, i, at) {
      var child := at + [Index(i)];
      if i < |before.items| && i < |after.items| {
        DiffIsSound(before.items[i], after.items[i], child, c);
      }
      ChildPath(at, Index(i), c.at);
    } else {
      ItemsAreSound(before, after, i + 1, at, c);
    }
  }

  // ----- Completeness ------------------------------------------------------------------

  lemma {:induction false} KeyListed(before: Json, after: Json, keys: seq<string>, at: seq<Token>, key: string,
                                     c: Change)
    requires before.Obj? && after.Obj? && key in keys && (key in before.fields || key in after.fields)
    requires c in DiffKey(before, after, key, at)
    ensures c in DiffKeys(before, after, keys, at)
  {
    if keys[0] == key {
    } else {
      KeyListed(before, after, keys[1..], at, key, c);
    }
  }

  lemma {:induction false} ItemListed(before: Json, after: Json, i: nat, at: seq<Token>, k: nat, c: Change)
    requires before.Arr? && after.Arr? && i <= k < Longer(before, after)
    requires c in DiffItem(before, after, k, at)
    ensures c in DiffItems(before, after, i, at)
    decreases k - i
  {
    if i == k {
    } else {
      ItemListed(before, after, i + 1, at, k, c);
    }
  }

  lemma CoveredChild(part: seq<Change>, all: seq<Change>, at: seq<Token>, token: Token, path: seq<Token>)
    requires path != [] && path[0] == token && Covered(part, at + [token], path[1..])
    requires forall c :: c in part ==> c in all
    ensures Covered(all, at, path)
  {
    var c :| c in part && at + [token] <= c.at && c.at[|at| + 1..] <= path[1..];
    ChildPath(at, token, c.at);
    assert path == [token] + path[1..];
    assert c in all && at <= c.at && c.at[|at|..] <= path;
  }

  lemma CoveredBy(changes: seq<Change>, at: seq<Token>, c: Change, path: seq<Token>)
    requires c in changes && path != [] && c.at == at + [path[0]]
    ensures Covered(changes, at, path)
  {
    assert c.at[|at|..] == [path[0]] <= path;
  }

  /** Outside the listed places, and below none of them, the two documents are
      alike everywhere. */
  lemma {:induction false} DiffIsComplete(before: Json, after: Json, at: seq<Token>, path: seq<Token>)
    ensures Covered(FullDiff(before, after, at), at, path) || AlikeAt(before, after, path)
    decreases before
  {
    var full := FullDiff(before, after, at);
    if !SameType(before, after) || (Scalar(before) && before != after) {
      assert Change(at, Modified) in full && Change(at, Modified).at[|at|..] == [] <= path;
    } else if path != [] && before.Obj? && path[0].Key? {
      ObjectIsComplete(before, after, at, path);
    } else if path != [] && before.Arr? && path[0].Index? {
      ArrayIsComplete(before, after, at, path);
    }
  }

  lemma KeyPartListed(before: Json, after: Json, at: seq<Token>, key: string)
    requires before.Obj? && after.Obj? && (key in before.fields || key in after.fields)
    ensures forall c :: c in DiffKey(before, after, key, at) ==> c in FullDiff(before, after, at)
  {
    var keys := Text.SortedKeys(before.fields.Keys + after.fields.Keys);
    Text.SortedKeysProperties(before.fields.Keys + after.fields.Keys);
    forall c | c in DiffKey(before, after, key, at)
      ensures c in DiffKeys(before, after, keys, at)
    {
      KeyListed(before, after, keys, at, key, c);
    }
  }

  lemma ItemPartListed(before: Json, after: Json, at: seq<Token>, i: nat)
    requires before.Arr? && after.Arr? && i < Longer(before, after)
    ensures forall c :: c in DiffItem(before, after, i, at) ==> c in FullDiff(before, after, at)
  {
    forall c | c in DiffItem(before, after, i, at)
      ensures c in DiffItems(before, after, 0, at)
    {
      ItemListed(before, after, 0, at, i, c);
    }
  }

  lemma AlikeBelow(before: Json, after: Json, path: seq<Token>)
    requires before.Obj? && after.Obj? && path != [] && path[0].Key?
    requires path[0].name in before.fields && path[0].name in after.fields
    requires AlikeAt(before.fields[path[0].name], after.fields[path[0].name], path[1..])
    ensures AlikeAt(before, after, path)
  {
  }

  lemma {:induction false} ObjectIsComplete(before: Json, after: Json, at: seq<Token>, path: seq<Token>)
    requires before.Obj? && after.Obj? && path != [] && path[0].Key?
    ensures Covered(FullDiff(before, after, at), at, path) || AlikeAt(before, after, path)
    decreases before, 0
  {
    var key := path[0].name;
    if key in before.fields || key in after.fields {
      var part, full := DiffKey(before, after, key, at), FullDiff(before, after, at);
      KeyPartListed(before, after, at, key);
      if key in before.fields && key in after.fields {
        DiffIsComplete(before.fields[key], after.fields[key], at + [path[0]], path[1..]);
        if Covered(part, at + [path[0]], path[1..]) { CoveredChild(part, full, at, path[0], path); }
        else { AlikeBelow(before, after, path); }
      } else {
        CoveredBy(full, at, part[0], path);
      }
    }
  }

  lemma {:induction false} ArrayIsComplete(before: Json, after: Json, at: seq<Token>, path: seq<Token>)
    requires before.Arr? && after.Arr? && path != [] && path[0].Index?
    ensures Covered(FullDiff(before, after, at), at, path) || AlikeAt(before, after, path)
    decreases before, 0
  {
    var i := path[0].index;
    if i < Longer(before, after) {
      var part, full := DiffItem(before, after, i, at), FullDiff(before, after, at);
      ItemPartListed(before, after, at, i);
      if i < |before.items| && i < |after.items| {
        DiffIsComplete(before.items[i], after.items[i], at + [path[0]], path[1..]);
        if Covered(part, at + [path[0]], path[1..]) { CoveredChild(part, full, at, path[0], path); }
      } else {
        CoveredBy(full, at, part[0], path);
      }
    }
  }

  // ----- No change, no difference ---------------------------------------------------------

  /** Documents that look alike at every place are equal. */
  lemma {:induction false} AlikeIsEqual(before: Json, after: Json)
    requires forall path :: AlikeAt(before, after, path)
    ensures before == after
    decreases before
  {
    assert AlikeAt(before, after, []);
    if before.Obj? {
      forall key | key in before.fields || key in after.fields
        ensures key in before.fields && key in after.fields && before.fields[key] == after.fields[key]
      {
        assert AlikeAt(before, after, [Key(key)]);
        assert Resolve(before, [Key(key)]).Some? <==> key in before.fields;
        assert Resolve(after, [Key(key)]).Some? <==> key in after.fields;
        forall path
          ensures AlikeAt(before.fields[key], after.fields[key], path)
        {
          assert AlikeAt(before, after, [Key(key)] + path);
          assert ([Key(key)] + path)[1..] == path;
        }
        AlikeIsEqual(before.fields[key], after.fields[key]);
      }
      assert before.fields == after.fields;
    } else if before.Arr? {
      ArraysAlike(before, after);
    }
  }

  lemma {:induction false} ArraysAlike(before: Json, after: Json)
    requires before.Arr? && after.Arr? && forall path :: AlikeAt(before, after, path)
    ensures before == after
    decreases before, 0
  {
    var shorter, longer := |before.items|, |after.items|;
    assert AlikeAt(before, after, [Index(shorter)]) && AlikeAt(before, after, [Index(longer)]);
    assert Resolve(before, [Index(longer)]).Some? <==> longer < shorter;
    assert Resolve(after, [Index(shorter)]).Some? <==> shorter < longer;
    forall i | 0 <= i < |before.items|
      ensures before.items[i] == after.items[i]
    {
      forall path
        ensures AlikeAt(before.items[i], after.items[i], path)
      {
        assert AlikeAt(before, after, [Index(i)] + path);
        assert ([Index(i)] + path)[1..] == path;
      }
      AlikeIsEqual(before.items[i], after.items[i]);
    }
    assert before.items == after.items;
  }

  /** The list is empty exactly when the documents are equal, types included. */
  lemma EmptyDiffIsEquality(before: Json, after: Json)
    ensures FullDiff(before, after, []) == [] <==> before == after
  {
    var full := FullDiff(before, after, []);
    if full == [] {
      forall path
        ensures AlikeAt(before, after, path)
      {
        DiffIsComplete(before, after, [], path);
      }
      AlikeIsEqual(before, after);
    } else {
      DiffIsSound(before, after, [], full[0]);
    }
  }

  // ----- The pointers of one report are distinct -------------------------------------------

  predicate SlashFree(s: string) { forall i :: 0 <= i < |s| ==> s[i] != '/' }

  /** The escaping, character by character. */
  function EscapeEach(s: string): string {
    if s == [] then []
    else (if s[0] == '~' then "~0" else if s[0] == '/' then "~1" else [s[0]]) + EscapeEach(s[1..])
  }

  lemma {:induction false} ReplaceConcat(a: string, b: string, c: char, substitute: string)
    ensures Replace(a + b, c, substitute) == Replace(a, c, substitute) + Replace(b, c, substitute)
  {
    if a == [] {
      assert a + b == b;
    } else {
      assert (a + b)[1..] == a[1..] + b;
      ReplaceConcat(a[1..], b, c, substitute);
    }
  }

  lemma {:induction false} EscapeIsEscapeEach(s: string)
    ensures Escape(s) == EscapeEach(s)
  {
    if s == [] {
    } else {
      var head := if s[0] == '~' then "~0" else [s[0]];
      EscapeIsEscapeEach(s[1..]);
      ReplaceConcat(head, Replace(s[1..], '~', "~0"), '/', "~1");
      assert Replace(head, '/', "~1") == if s[0] == '~' then "~0" else if s[0] == '/' then "~1" else [s[0]] by {
        assert head[1..] == if s[0] == '~' then "0" else "";
      }
    }
  }

  lemma {:induction false} EscapeEachInjective(s: string, t: string)
    requires EscapeEach(s) == EscapeEach(t)
    ensures s == t
  {
    if s == [] || t == [] {
    } else {
      var x, y := EscapeEach(s), EscapeEach(t);
      assert s[0] == t[0] by {
        assert x[0] == y[0];
        if s[0] == '~' || s[0] == '/' { assert x[1] == y[1]; }
        if t[0] == '~' || t[0] == '/' { assert x[1] == y[1]; }
      }
      var n := if s[0] == '~' || s[0] == '/' then 2 else 1;
      assert EscapeEach(s[1..]) == x[n..] == y[n..] == EscapeEach(t[1..]);
      EscapeEachInjective(s[1..], t[1..]);
      assert s == [s[0]] + s[1..] && t == [t[0]] + t[1..];
    }
  }

  lemma {:induction false} EscapeEachSlashFree(s: string)
    ensures SlashFree(EscapeEach(s))
  {
    if s == [] {
    } else {
      EscapeEachSlashFree(s[1..]);
    }
  }

  /** Tokens of one container have different, slash-free texts. */
  lemma TokenTexts(a: Token, b: Token)
    requires a.Key? == b.Key?
    ensures SlashFree(TokenText(a)) && SlashFree(TokenText(b))
    ensures TokenText(a) == TokenText(b) ==> a == b
  {
    if a.Key? {
      EscapeIsEscapeEach(a.name);
      EscapeIsEscapeEach(b.name);
      EscapeEachSlashFree(a.name);
      EscapeEachSlashFree(b.name);
      if TokenText(a) == TokenText(b) { EscapeEachInjective(a.name, b.name); }
    } else if TokenText(a) == TokenText(b) {
      Text.DigitsInjective(a.index, b.index);
    }
  }

  /** `p` is `base` itself or a pointer below it. */
  predicate AtOrBelow(base: string, p: string) {
    base <= p && (|p| > |base| ==> p[|base|] == '/')
  }

  lemma SiblingsApart(base: string, x: string, y: string, p: string)
    requires SlashFree(x) && SlashFree(y)
    requires AtOrBelow(base + "/" + x, p) && AtOrBelow(base + "/" + y, p)
    ensures x == y
  {
    var n := |base| + 1;
    assert p[n..n + |x|] == x && p[n..n + |y|] == y;
  }

  lemma {:induction false} PointerBelow(at: seq<Token>, path: seq<Token>)
    requires at <= path
    ensures AtOrBelow(Pointer(at), Pointer(path))
    decreases |path|
  {
    if at == path {
    } else {
      var front := path[..|path| - 1];
      PointerBelow(at, front);
    }
  }

  /** Different places under one container have different pointers. */
  lemma PlacesApart(at: seq<Token>, a: Token, b: Token, p: seq<Token>, q: seq<Token>)
    requires a.Key? == b.Key? && a != b && at + [a] <= p && at + [b] <= q
    ensures Pointer(p) != Pointer(q)
  {
    PointerBelow(at + [a], p);
    PointerBelow(at + [b], q);
    PointerChild(at, a);
    PointerChild(at, b);
    TokenTexts(a, b);
    if Pointer(p) == Pointer(q) {
      SiblingsApart(Pointer(at), TokenText(a), TokenText(b), Pointer(p));
    }
  }

  ghost predicate DistinctPointers(changes: seq<Change>) {
    forall i, j :: 0 <= i < j < |changes| ==> Pointer(changes[i].at) != Pointer(changes[j].at)
  }

  ghost predicate Under(changes: seq<Change>, at: seq<Token>, token: Token) {
    forall i :: 0 <= i < |changes| ==> at + [token] <= changes[i].at
  }

  /** Everything in `changes` lies under `at` at a key (or an index) other than `token`. */
  ghost predicate Beside(changes: seq<Change>, at: seq<Token>, token: Token) {
    forall i :: 0 <= i < |changes| ==>
      && |changes[i].at| > |at| && at <= changes[i].at
      && changes[i].at[|at|] != token && changes[i].at[|at|].Key? == token.Key?
  }

  lemma HeadOf(path: seq<Token>, at: seq<Token>, token: Token)
    requires at + [token] <= path
    ensures |path| > |at| && at <= path && path[|at|] == token
  {
    assert path[..|at| + 1] == at + [token];
    assert path[..|at|] == at;
  }

  lemma JoinDistinct(part: seq<Change>, rest: seq<Change>, at: seq<Token>, token: Token)
    requires DistinctPointers(part) && DistinctPointers(rest)
    requires Under(part, at, token) && Beside(rest, at, token)
    ensures DistinctPointers(part + rest)
  {
    forall i, j | 0 <= i < |part| && 0 <= j < |rest|
      ensures Pointer(part[i].at) != Pointer(rest[j].at)
    {
      var other := rest[j].at[|at|];
      assert rest[j].at[..|at| + 1] == at + [other];
      PlacesApart(at, token, other, part[i].at, rest[j].at);
    }
  }

  lemma {:induction false} DiffIsUnder(before: Json, after: Json, at: seq<Token>)
    ensures forall c :: c in FullDiff(before, after, at) ==> at <= c.at
  {
    forall c | c in FullDiff(before, after, at)
      ensures at <= c.at
    {
      DiffIsSound(before, after, at, c);
    }
  }

  /** No two differences of one comparison have the same pointer. */
  lemma {:induction false} DiffPointersDistinct(before: Json, after: Json, at: seq<Token>)
    ensures DistinctPointers(FullDiff(before, after, at))
    decreases before, 2
  {
    if SameType(before, after) && before.Obj? {
      var keys := Text.SortedKeys(before.fields.Keys + after.fields.Keys);
      Text.SortedKeysProperties(before.fields.Keys + after.fields.Keys);
      KeyPointersDistinct(before, after, keys, at);
    } else if SameType(before, after) && before.Arr? {
      ItemPointersDistinct(before, after, 0, at);
    }
  }

  lemma {:induction false} KeyPointersDistinct(before: Json, after: Json, keys: seq<string>, at: seq<Token>)
    requires before.Obj? && after.Obj? && Text.Sorted(keys)
    requires forall k :: k in keys ==> k in before.fields || k in after.fields
    ensures DistinctPointers(DiffKeys(before, after, keys, at))
    ensures forall c :: c in DiffKeys(before, after, keys, at) ==>
              |c.at| > |at| && at <= c.at && c.at[|at|].Key? && c.at[|at|].name in keys
    decreases before, 1, |keys|
  {
    if keys == [] {
    } else {
      var key, rest := keys[0], keys[1..];
      var part := DiffKey(before, after, key, at);
      if key in before.fields && key in after.fields {
        DiffPointersDistinct(before.fields[key], after.fields[key], at + [Key(key)]);
        DiffIsUnder(before.fields[key], after.fields[key], at + [Key(key)]);
      }
      KeyPointersDistinct(before, after, rest, at);
      forall j | 0 <= j < |rest|
        ensures rest[j] != key
      {
        Text.LessIrreflexive(key);
        assert Text.Less(keys[0], keys[j + 1]);
      }
      JoinDistinct(part, DiffKeys(before, after, rest, at), at, Key(key));
      forall c | c in part
        ensures |c.at| > |at| && at <= c.at && c.at[|at|] == Key(key)
      {
        HeadOf(c.at, at, Key(key));
      }
    }
  }

  ghost predicate FromItem(changes: seq<Change>, at: seq<Token>, i: nat) {
    forall k :: 0 <= k < |changes| ==>
      && |changes[k].at| > |at| && at <= changes[k].at
      && changes[k].at[|at|].Index? && changes[k].at[|at|].index >= i
  }

  lemma FromItemOfUnder(part: seq<Change>, rest: seq<Change>, at: seq<Token>, i: nat)
    requires Under(part, at, Index(i)) && FromItem(rest, at, i + 1)
    ensures FromItem(part + rest, at, i) && Beside(rest, at, Index(i))
  {
    forall k | 0 <= k < |part|
      ensures |part[k].at| > |at| && at <= part[k].at && part[k].at[|at|] == Index(i)
    {
      HeadOf(part[k].at, at, Index(i));
    }
  }

  lemma DiffItemDistinct(before: Json, after: Json, i: nat, at: seq<Token>)
    requires before.Arr? && after.Arr? && (i < |before.items| || i < |after.items|)
    ensures DistinctPointers(DiffItem(before, after, i, at)) && Under(DiffItem(before, after, i, at), at, Index(i))
    decreases before, 0
  {
    if i < |before.items| && i < |after.items| {
      DiffPointersDistinct(before.items[i], after.items[i], at + [Index(i)]);
      DiffIsUnder(before.items[i], after.items[i], at + [Index(i)]);
    }
  }

  lemma {:induction false} ItemPointersDistinct(before: Json, after: Json, i: nat, at: seq<Token>)
    requires before.Arr? && after.Arr?
    ensures DistinctPointers(DiffItems(before, after, i, at))
    ensures FromItem(DiffItems(before, after, i, at), at, i)
    decreases before, 1, Longer(before, after) - i
  {
    if i >= Longer(before, after) {
    } else {
      var part, rest := DiffItem(before, after, i, at), DiffItems(before, after, i + 1, at);
      DiffItemDistinct(before, after, i, at);
      ItemPointersDistinct(before, after, i + 1, at);
      assert DiffItems(before, after, i, at) == part + rest;
      FromItemOfUnder(part, rest, at, i);
      JoinDistinct(part, rest, at, Index(i));
    }
  }

  // ----- The report of one comparison --------------------------------------------------

  /** A report's entries have distinct pointers even as printed, where the root
      is written "/": a root entry is always alone. */
  lemma ReportPointersDistinct(before: Json, after: Json, i: nat, j: nat)
    requires i < j < |FullDiff(before, after, [])|
    ensures var full := FullDiff(before, after, []); Reported(full[i]).path != Reported(full[j]).path
  {
    var full := FullDiff(before, after, []);
    DiffPointersDistinct(before, after, []);
    NoRootAmongMany(before, after, full[i]);
    NoRootAmongMany(before, after, full[j]);
  }

  lemma NoRootAmongMany(before: Json, after: Json, c: Change)
    requires c in FullDiff(before, after, []) && |FullDiff(before, after, [])| > 1
    ensures Pointer(c.at) != ""
  {
    if before.Obj? {
      var keys := Text.SortedKeys(before.fields.Keys + after.fields.Keys);
      Text.SortedKeysProperties(before.fields.Keys + after.fields.Keys);
      KeyPointersDistinct(before, after, keys, []);
    } else {
      ItemPointersDistinct(before, after, 0, []);
      var k :| 0 <= k < |FullDiff(before, after, [])| && FullDiff(before, after, [])[k] == c;
    }
    assert |c.at| > 0;
  }

  // ----- What `truncated` says ----------------------------------------------------------

  /** Nothing is missing from the report. */
  ghost predicate ListsAll(before: Json, after: Json, report: Comparison) {
    report.changes == ReportedAll(FullDiff(before, after, []))
  }

  /** A report that is not truncated lists everything; one that is truncated
      lists everything exactly when there are just five hundred differences. */
  lemma TruncatedButComplete(before: Json, after: Json, report: Comparison)
    requires IsReport(before, after, report)
    ensures !report.truncated ==> ListsAll(before, after, report)
    ensures report.truncated && ListsAll(before, after, report) <==> |FullDiff(before, after, [])| == MAX_DIFF_CHANGES
  {
    var full := FullDiff(before, after, []);
    if |full| == MAX_DIFF_CHANGES { assert full[..MAX_DIFF_CHANGES] == full; }
    assert |ReportedAll(full)| == |full| && (|full| > MAX_DIFF_CHANGES ==> |report.changes| == MAX_DIFF_CHANGES);
  }

  function Repeated(value: Json, n: nat): (j: Json)
    ensures j.Arr? && |j.items| == n && forall i :: 0 <= i < n ==> j.items[i] == value
  {
    Arr(seq(n, _ => value))
  }

  lemma {:induction false} EveryItemDiffers(before: Json, after: Json, i: nat)
    requires before.Arr? && after.Arr? && |before.items| == |after.items| && i <= |before.items|
    requires forall k :: 0 <= k < |before.items| ==> before.items[k] == Int(0) && after.items[k] == Int(1)
    ensures |DiffItems(before, after, i, [])| == |before.items| - i
    decreases |before.items| - i
  {
    if i == |before.items| {
      assert DiffItems(before, after, i, []) == [];
    } else {
      EveryItemDiffers(before, after, i + 1);
      assert DiffItem(before, after, i, []) == [Change([] + [Index(i)], Modified)];
    }
  }

  /** Two arrays of five hundred differing numbers: the report is complete and
      says that it is truncated. */
  lemma CompleteReportSaysTruncated(n: nat, report: Comparison)
    requires n == MAX_DIFF_CHANGES && IsReport(Repeated(Int(0), n), Repeated(Int(1), n), report)
    ensures report.truncated && ListsAll(Repeated(Int(0), n), Repeated(Int(1), n), report)
  {
    var before, after := Repeated(Int(0), n), Repeated(Int(1), n);
    EveryItemDiffers(before, after, 0);
    TruncatedButComplete(before, after, report);
  }
}
