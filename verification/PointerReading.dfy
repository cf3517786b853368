/** What the pointers of a comparison say to a reader: read by the rules of
    RFC 6901, each leads to the very place that was listed, in both documents. */
module PointerReading {
  import opened Wrappers
  import opened Json
  import opened StructuralDiff
  import opened StructuralDiffTheorems
  import Mounts
  import Text

  // ----- Reading a pointer (section 4 of RFC 6901) ----------------------------------------

  /** A reference token with `~1` and `~0` read back. */
  function Unescape(s: string): string {
    if s == [] then []
    else if "~1" <= s then ['/'] + Unescape(s[2..])
    else if "~0" <= s then ['~'] + Unescape(s[2..])
    else [s[0]] + Unescape(s[1..])
  }

  /** The reference tokens of a pointer. */
  function Tokens(pointer: string): seq<string> {
    if pointer == "" then [] else Mounts.Split(pointer)[1..]
  }

  /** An array index: digits without a leading zero. */
  predicate IsIndex(s: string) {
    s != [] && Text.AllDigits(s) && (s == "0" || s[0] != '0')
  }

  function Evaluate(j: Json, tokens: seq<string>): Option<Json>
    decreases |tokens|
  {
    if tokens == [] then Some(j)
    else if j.Obj? && Unescape(tokens[0]) in j.fields then Evaluate(j.fields[Unescape(tokens[0])], tokens[1..])
    else if j.Arr? && IsIndex(tokens[0]) && Text.NatOf(tokens[0]) < |j.items| then
      Evaluate(j.items[Text.NatOf(tokens[0])], tokens[1..])
    else None
  }

  function Read(j: Json, pointer: string): Option<Json> { Evaluate(j, Tokens(pointer)) }

  // ----- The tokens of a place ----------------------------------------------------------------

  lemma {:induction false} UnescapeOfEach(s: string)
    ensures Unescape(EscapeEach(s)) == s
  {
    if s == [] {
    } else {
      UnescapeOfEach(s[1..]);
      var head := if s[0] == '~' then "~0" else if s[0] == '/' then "~1" else [s[0]];
      var e := EscapeEach(s);
      assert e[..|head|] == head && e[|head|..] == EscapeEach(s[1..]);
      assert e[0] == head[0] && (|head| > 1 ==> e[1] == head[1]);
      assert s == [s[0]] + s[1..];
    }
  }

  lemma UnescapeOfEscape(name: string)
    ensures Unescape(Escape(name)) == name
  {
    EscapeIsEscapeEach(name);
    UnescapeOfEach(name);
  }

  lemma {:induction false} PointerCons(token: Token, path: seq<Token>)
    ensures Pointer([token] + path) == "/" + TokenText(token) + Pointer(path)
  {
    hide TokenText;
    if path == [] {
      assert [token] + path == [token] && [token][..0] == [];
    } else {
      var front, last := path[..|path| - 1], path[|path| - 1];
      assert ([token] + path)[..|path|] == [token] + front && ([token] + path)[|path|] == last;
      PointerCons(token, front);
      Joins("/" + TokenText(token), Pointer(front), "/", TokenText(last));
    }
  }

  lemma Joins(a: string, b: string, c: string, d: string)
    ensures (a + b) + c + d == a + (b + c + d)
  {
  }

  lemma IndexText(index: nat)
    ensures IsIndex(Text.DigitsOf(index)) && Text.NatOf(Text.DigitsOf(index)) == index
  {
    if index == 0 { assert Text.DigitsOf(0) == "0"; }
  }

  lemma {:induction false} TokensOfPointer(token: Token, path: seq<Token>)
    ensures Tokens(Pointer([token] + path)) == [TokenText(token)] + Tokens(Pointer(path))
  {
    hide TokenText, Pointer;
    var text, rest := TokenText(token), Pointer(path);
    PointerCons(token, path);
    TokenTexts(token, token);
    PointerStarts(path);
    Mounts.SplitOfPiece(text, rest);
    SplitOfSlash(text + rest);
    assert "/" + text + rest == "/" + (text + rest);
    if rest != [] {
      assert rest == "/" + rest[1..];
      SplitOfSlash(rest[1..]);
    }
  }

  lemma PointerStarts(path: seq<Token>)
    ensures Pointer(path) != [] ==> Pointer(path)[0] == '/'
  {
    hide TokenText;
    if path != [] {
      assert path == [path[0]] + path[1..];
      PointerCons(path[0], path[1..]);
    }
  }

  lemma SplitOfSlash(s: string)
    ensures Mounts.Split("/" + s)[1..] == Mounts.Split(s)
  {
    assert ("/" + s)[1..] == s;
    assert Mounts.Split("/" + s) == [""] + Mounts.Split(s);
  }

  // ----- Where a listed place leads -------------------------------------------------------------

  /** As far as the path leads, keys stand for members and indices for items. */
  ghost predicate Fits(j: Json, path: seq<Token>)
    decreases |path|
  {
    if path == [] then true
    else
      match path[0]
      case Key(name) => j.Obj? && (name in j.fields ==> Fits(j.fields[name], path[1..]))
      case Index(i) => j.Arr? && (i < |j.items| ==> Fits(j.items[i], path[1..]))
  }

  /** Such a place is where its pointer leads. */
  lemma {:induction false} ReadIsResolve(j: Json, path: seq<Token>)
    requires Fits(j, path)
    ensures Read(j, Pointer(path)) == Resolve(j, path)
    decreases |path|
  {
    if path == [] {
    } else {
      var rest := path[1..];
      assert path == [path[0]] + rest;
      TokensOfPointer(path[0], rest);
      match path[0]
      case Key(name) =>
        UnescapeOfEscape(name);
        if name in j.fields { ReadIsResolve(j.fields[name], rest); }
      case Index(i) =>
        IndexText(i);
        if i < |j.items| { ReadIsResolve(j.items[i], rest); }
    }
  }

  lemma {:induction false} ListedFits(before: Json, after: Json, at: seq<Token>, c: Change)
    requires c in FullDiff(before, after, at)
    ensures at <= c.at && Fits(before, c.at[|at|..]) && Fits(after, c.at[|at|..])
    decreases before, 2
  {
    if !SameType(before, after) || Scalar(before) {
      assert c.at[|at|..] == [];
    } else if before.Obj? {
      KeyListedFits(before, after, Text.SortedKeys(before.fields.Keys + after.fields.Keys), at, c);
    } else {
      ItemListedFits(before, after, 0, at, c);
    }
  }

  lemma {:induction false} KeyListedFits(before: Json, after: Json, keys: seq<string>, at: seq<Token>, c: Change)
    requires before.Obj? && after.Obj? && c in DiffKeys(before, after, keys, at)
    ensures at <= c.at && Fits(before, c.at[|at|..]) && Fits(after, c.at[|at|..])
    decreases before, 1, |keys|
  {
    var known := keys[0] in before.fields || keys[0] in after.fields;
    if known && c in DiffKey(before, after, keys[0], at) {
      var child := at + [Key(keys[0])];
      if keys[0] in before.fields && keys[0] in after.fields {
        ListedFits(before.fields[keys[0]], after.fields[keys[0]], child, c);
      }
      ChildPath(at, Key(keys[0]), c.at);
    } else {
      KeyListedFits(before, after, keys[1..], at, c);
    }
  }

  lemma {:induction false} ItemListedFits(before: Json, after: Json, i: nat, at: seq<Token>, c: Change)
    requires before.Arr? && after.Arr? && c in DiffItems(before, after, i, at)
    ensures at <= c.at && Fits(before, c.at[|at|..]) && Fits(after, c.at[|at|..])
    decreases before, 1, Longer(before, after) - i
  {
    if c in DiffItem(before, after, i, at) {
      var child := at + [Index(i)];
      if i < |before.items| && i < |after.items| {
        ListedFits(before.items[i], after.items[i], child, c);
      }
      ChildPath(at, Index(i), c.at);
    } else {
      ItemListedFits(before, after, i + 1, at, c);
    }
  }

  /** Read in both documents, the pointer of an addition leads to a value only
      behind the change, that of a removal only before it, and that of any other
      change to two values that differ in type or, as scalars, in value. */
  lemma PointersLeadThere(before: Json, after: Json, c: Change)
    requires c in FullDiff(before, after, [])
    ensures var b, a := Read(before, Pointer(c.at)), Read(after, Pointer(c.at));
            match c.kind
            case Added => b.None? && a.Some?
            case Removed => b.Some? && a.None?
            case Modified =>
              b.Some? && a.Some? && b != a && (!SameType(b.value, a.value) || (Scalar(b.value) && Scalar(a.value)))
  {
    hide FullDiff, Read, Resolve;
    ListedFits(before, after, [], c);
    DiffIsSound(before, after, [], c);
    assert c.at[0..] == c.at;
    ReadIsResolve(before, c.at);
    ReadIsResolve(after, c.at);
  }

  /** A reported path is the pointer itself, but for the root, where it is a slash. */
  lemma ReportedPath(before: Json, after: Json, c: Change)
    requires c in FullDiff(before, after, [])
    ensures Reported(c).kind == c.kind
    ensures Reported(c).path == if c.at == [] then "/" else Pointer(c.at)
  {
  }
}
