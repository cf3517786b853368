/** Container paths and the mount rules of a Hermesfile: the validator that
    collects at most one hundred diagnostics, the checks it makes on the mounts,
    and exactly when a verdict without errors means that the rules hold. */
module Mounts {
  import opened Wrappers
  import opened Json
  import StructuralDiff
  import Text
  import Units

  // ----- Container paths --------------------------------------------------------------

  /** An absolute path as its components; [] is the root. */
  type Path = seq<string>

  predicate StartsWith(s: string, prefix: string) { prefix <= s }

  predicate EndsWith(s: string, suffix: string) {
    |suffix| <= |s| && s[|s| - |suffix|..] == suffix
  }

  predicate DoubleSlash(s: string) {
    exists i :: 0 <= i < |s| - 1 && s[i] == '/' && s[i + 1] == '/'
  }

  /** `s.split("/")`. */
  function Split(s: string): (pieces: seq<string>)
    ensures pieces != []
  {
    if s == [] then [""]
    else if s[0] == '/' then [""] + Split(s[1..])
    else
      var rest := Split(s[1..]);
      [[s[0]] + rest[0]] + rest[1..]
  }

  predicate UnsafePiece(piece: string) { piece == "" || piece == "." || piece == ".." }

  const PROTECTED: seq<Path> :=
    [["bin"], ["boot"], ["dev"], ["etc"], ["lib"], ["lib64"], ["proc"], ["root"], ["run"], ["sbin"], ["sys"], ["usr"],
     ["var", "run"]]

  /** `path.parents`: nearest first, the root last. */
  function Parents(p: Path): seq<Path> {
    if p == [] then [] else [p[..|p| - 1]] + Parents(p[..|p| - 1])
  }

  predicate IsProtected(p: Path) {
    p == [] || exists i :: 0 <= i < |PROTECTED| && (p == PROTECTED[i] || PROTECTED[i] in Parents(p))
  }

  /** The path, or nothing where the source raises. */
  function ContainerPath(value: string): Option<Path> {
    if !StartsWith(value, "/") || EndsWith(value, "/") || DoubleSlash(value) then None
    else
      var pieces := Split(value)[1..];
      if pieces == [] || exists i :: 0 <= i < |pieces| && UnsafePiece(pieces[i]) then None
      else if IsProtected(pieces) then None
      else Some(pieces)
  }

  predicate PathsOverlap(left: Path, right: Path) {
    left == right || left in Parents(right) || right in Parents(left)
  }

  // ----- What paths mean ----------------------------------------------------------------

  /** `p` lies in the subtree of `top`. */
  predicate AtOrBelow(p: Path, top: Path) { top <= p }

  ghost predicate SubtreesMeet(p: Path, q: Path) {
    exists shared: Path :: AtOrBelow(shared, p) && AtOrBelow(shared, q)
  }

  lemma {:induction false} ParentsAreProperPrefixes(p: Path, q: Path)
    ensures q in Parents(p) <==> q < p
  {
    if p == [] {
    } else {
      var up := p[..|p| - 1];
      ParentsAreProperPrefixes(up, q);
      assert q in Parents(p) <==> q == up || q in Parents(up);
      if q < p { assert q == p[..|q|] == up[..|q|]; }
    }
  }

  lemma Nested(p: Path, q: Path, shared: Path)
    requires AtOrBelow(shared, p) && AtOrBelow(shared, q)
    ensures p <= q || q <= p
  {
    assert p == shared[..|p|] && q == shared[..|q|];
  }

  /** The overlap test holds exactly when the two subtrees share a path. */
  lemma OverlapIsSharedSubtree(p: Path, q: Path)
    ensures PathsOverlap(p, q) <==> SubtreesMeet(p, q)
  {
    ParentsAreProperPrefixes(p, q);
    ParentsAreProperPrefixes(q, p);
    if SubtreesMeet(p, q) {
      var shared: Path :| AtOrBelow(shared, p) && AtOrBelow(shared, q);
      Nested(p, q, shared);
    }
    if p <= q { assert AtOrBelow(q, p) && AtOrBelow(q, q); }
    if q <= p { assert AtOrBelow(p, p) && AtOrBelow(p, q); }
  }

  /** A path is refused when it is the root, or at or below a protected path;
      an ancestor of a protected path is not. */
  lemma ProtectedMeansBelow(p: Path)
    ensures IsProtected(p) <==> p == [] || exists i :: 0 <= i < |PROTECTED| && AtOrBelow(p, PROTECTED[i])
  {
    forall i | 0 <= i < |PROTECTED|
      ensures PROTECTED[i] in Parents(p) <==> PROTECTED[i] < p
    {
      ParentsAreProperPrefixes(p, PROTECTED[i]);
    }
  }

  /** The spelling of a path. */
  function Spelling(p: Path): string {
    if p == [] then "" else "/" + p[0] + Spelling(p[1..])
  }

  predicate LegalPiece(piece: string) { piece !in {"", ".", ".."} && '/' !in piece }

  predicate LegalPieces(p: Path) { forall i :: 0 <= i < |p| ==> LegalPiece(p[i]) }

  lemma {:induction false} SplitOfPiece(piece: string, rest: string)
    requires '/' !in piece && (rest != [] ==> rest[0] == '/')
    ensures Split(piece + rest) == [piece] + (if rest == [] then [] else Split(rest[1..]))
  {
    if piece == [] {
      assert piece + rest == rest;
    } else {
      assert (piece + rest)[1..] == piece[1..] + rest;
      SplitOfPiece(piece[1..], rest);
      assert [piece[0]] + piece[1..] == piece && (piece + rest)[0] == piece[0];
    }
  }

  lemma {:induction false} SplitOfSpelling(p: Path)
    requires LegalPieces(p) && p != []
    ensures Split(Spelling(p)[1..]) == p
  {
    var rest := Spelling(p[1..]);
    assert Spelling(p)[1..] == p[0] + rest;
    SplitOfPiece(p[0], rest);
    if |p| > 1 {
      SplitOfSpelling(p[1..]);
      assert p == [p[0]] + p[1..];
    } else {
      assert p[1..] == [] && p == [p[0]];
    }
  }

  lemma SpellingOfFirst(first: string, others: Path)
    ensures Spelling([first] + others) == "/" + first + Spelling(others)
  {
    assert ([first] + others)[1..] == others;
  }

  lemma Prepend(c: char, first: string, tail: string, s: string)
    requires "/" + first + tail == "/" + s
    ensures "/" + ([c] + first) + tail == "/" + ([c] + s)
  {
    assert first + tail == ("/" + first + tail)[1..] == ("/" + s)[1..] == s;
    assert ([c] + first) + tail == [c] + (first + tail);
    assert "/" + ([c] + first) + tail == "/" + (([c] + first) + tail);
  }

  lemma {:induction false} SpellingOfSplit(s: string)
    ensures Spelling(Split(s)) == "/" + s
    ensures forall i :: 0 <= i < |Split(s)| ==> '/' !in Split(s)[i]
  {
    if s == [] {
    } else {
      SpellingOfSplit(s[1..]);
      var rest := Split(s[1..]);
      assert s == [s[0]] + s[1..];
      if s[0] == '/' {
        SpellingOfFirst("", rest);
      } else {
        var first, others := rest[0], rest[1..];
        assert rest == [first] + others;
        SpellingOfFirst(first, others);
        SpellingOfFirst([s[0]] + first, others);
        Prepend(s[0], first, Spelling(others), s[1..]);
      }
    }
  }

  lemma {:induction false} SpellingShape(p: Path)
    requires LegalPieces(p) && p != []
    ensures StartsWith(Spelling(p), "/") && !EndsWith(Spelling(p), "/") && !DoubleSlash(Spelling(p))
  {
    var s, rest := Spelling(p), Spelling(p[1..]);
    assert s == "/" + p[0] + rest && s[0] == '/' && s[1] == p[0][0] != '/';
    if |p| > 1 {
      SpellingShape(p[1..]);
      assert s[|s| - 1..] == rest[|rest| - 1..];
      forall i | 0 <= i < |s| - 1
        ensures !(s[i] == '/' && s[i + 1] == '/')
      {
        if i > |p[0]| {
          assert s[i] == rest[i - 1 - |p[0]|] && s[i + 1] == rest[i - |p[0]|];
        } else if i > 0 {
          assert s[i] == p[0][i - 1];
        }
      }
    } else {
      assert rest == "";
      assert s[|s| - 1] == p[0][|p[0]| - 1];
    }
  }

  lemma SplitOfAbsolute(value: string)
    requires StartsWith(value, "/")
    ensures Split(value)[1..] == Split(value[1..]) && Spelling(Split(value)[1..]) == value
    ensures forall i :: 0 <= i < |Split(value)[1..]| ==> '/' !in Split(value)[1..][i]
  {
    assert value[0] == '/';
    assert Split(value) == [""] + Split(value[1..]);
    SpellingOfSplit(value[1..]);
    assert value == "/" + value[1..];
  }

  /** Accepted paths are exactly the spellings of their legal, unprotected
      components: no two spellings name one path. */
  lemma ContainerPathIsSpelling(value: string, p: Path)
    ensures ContainerPath(value) == Some(p)
       <==> p != [] && LegalPieces(p) && !IsProtected(p) && value == Spelling(p)
  {
    if p != [] && LegalPieces(p) && value == Spelling(p) {
      SpellingShape(p);
      SplitOfSpelling(p);
      SplitOfAbsolute(value);
    }
    if ContainerPath(value) == Some(p) {
      SplitOfAbsolute(value);
    }
  }

  // ----- Diagnostics --------------------------------------------------------------------

  const MAX_DIAGNOSTICS: nat := 100

  datatype Diagnostic = Diagnostic(isError: bool, code: string, path: string)

  function Error(code: string, path: string): Diagnostic { Diagnostic(true, code, path) }

  /** What is left of everything found: the first hundred. */
  function Capped(found: seq<Diagnostic>): (kept: seq<Diagnostic>)
    ensures |kept| <= MAX_DIAGNOSTICS
  {
    if |found| <= MAX_DIAGNOSTICS then found else found[..MAX_DIAGNOSTICS]
  }

  predicate HasErrors(diagnostics: seq<Diagnostic>) {
    exists i :: 0 <= i < |diagnostics| && diagnostics[i].isError
  }

  predicate AllErrors(diagnostics: seq<Diagnostic>) {
    forall i :: 0 <= i < |diagnostics| ==> diagnostics[i].isError
  }

  lemma CapOnce(kept: seq<Diagnostic>, more: seq<Diagnostic>, most: seq<Diagnostic>)
    ensures Capped(Capped(kept + more) + most) == Capped(kept + (more + most))
  {
    assert kept + (more + most) == (kept + more) + most;
  }

  // ----- What each check finds -----------------------------------------------------------

  predicate Control(s: string) { exists i :: 0 <= i < |s| && (s[i] < ' ' || s[i] == '\U{7f}') }

  predicate Multiline(s: string) { '\n' in s || '\r' in s }

  function When(condition: bool, code: string, path: string): (found: seq<Diagnostic>)
    ensures AllErrors(found) && (found == [] <==> !condition)
  {
    if condition then [Error(code, path)] else []
  }

  /** The string a string check yields, if any. */
  function StringValue(value: Option<Json>, maximum: nat): Option<string> {
    if value.None? || !value.value.Str? || !(1 <= |value.value.s| <= maximum) then None else Some(value.value.s)
  }

  function StringFindings(value: Option<Json>, path: string, maximum: nat, pattern: string -> bool,
                          kinds: string -> bool)
    : (found: seq<Diagnostic>)
    ensures AllErrors(found)
  {
    if value.None? || !value.value.Str? then [Error("invalid_type", path)]
    else if !(1 <= |value.value.s| <= maximum) then [Error("invalid_length", path)]
    else
      var s := value.value.s;
      When(Control(s), "control_character_forbidden", path) + When(Multiline(s), "multiline_value_forbidden", path)
      + When(!pattern(s), "invalid_format", path) + When(!kinds(s), "unsupported_value", path)
  }

  function BooleanFindings(value: Option<Json>, path: string): seq<Diagnostic> {
    When(value.None? || !value.value.Bool?, "invalid_type", path)
  }

  function AnyString(s: string): bool { true }

  predicate IsMountKind(s: string) { s == "workspace" || s == "cache" || s == "tmpfs" || s == "artifact" }

  predicate IsQuantityNotation(s: string) { Units.Notation(s).Some? }

  const REQUIRED_KEYS: set<string> := {"name", "type", "target", "readOnly"}

  const MOUNT_KEYS: set<string> := REQUIRED_KEYS + {"size"}

  function Child(path: string, key: string): string { path + "/" + StructuralDiff.Escape(key) }

  /** One diagnostic for each of the first `n` keys. */
  function KeyFindings(keys: seq<string>, n: nat, code: string, path: string): (found: seq<Diagnostic>)
    requires n <= |keys|
    ensures |found| == n && AllErrors(found)
  {
    if n == 0 then [] else KeyFindings(keys, n - 1, code, path) + [Error(code, Child(path, keys[n - 1]))]
  }

  ghost function ShapeFindings(fields: map<string, Json>, path: string): (found: seq<Diagnostic>)
    ensures AllErrors(found)
  {
    var missing, unknown := Text.SortedKeys(REQUIRED_KEYS - fields.Keys), Text.SortedKeys(fields.Keys - MOUNT_KEYS);
    KeyFindings(missing, |missing|, "required_field_missing", path)
    + KeyFindings(unknown, |unknown|, "unknown_field", path)
  }

  function Get(fields: map<string, Json>, key: string): Option<Json> {
    if key in fields then Some(fields[key]) else None
  }

  function SizeFindings(size: Option<Json>, kind: Option<string>, path: string): (found: seq<Diagnostic>)
    ensures AllErrors(found)
  {
    if size.None? then When(kind == Some("tmpfs"), "tmpfs_size_required", path)
    else
      StringFindings(size, path, 32, IsQuantityNotation, AnyString)
      + When(StringValue(size, 32).Some? && Units.ParseQuantity(StringValue(size, 32).value).None?,
             "invalid_quantity", path)
  }

  function TargetFindings(target: Option<string>, path: string): seq<Diagnostic> {
    When(target.Some? && ContainerPath(target.value).None?, "unsafe_container_path", path)
  }

  function NameOf(fields: map<string, Json>): Option<string> { StringValue(Get(fields, "name"), 63) }

  function KindOf(fields: map<string, Json>): Option<string> { StringValue(Get(fields, "type"), 16) }

  function TargetOf(fields: map<string, Json>): Option<string> { StringValue(Get(fields, "target"), 4096) }

  function MountPath(index: nat): string { "/spec/mounts/" + Text.DigitsOf(index) }

  ghost function FieldFindings(fields: map<string, Json>, path: string): (found: seq<Diagnostic>)
    ensures AllErrors(found)
  {
    StringFindings(Get(fields, "name"), path + "/name", 63, Text.IsName, AnyString)
    + StringFindings(Get(fields, "type"), path + "/type", 16, AnyString, IsMountKind)
    + StringFindings(Get(fields, "target"), path + "/target", 4096, AnyString, AnyString)
    + BooleanFindings(Get(fields, "readOnly"), path + "/readOnly")
    + SizeFindings(Get(fields, "size"), KindOf(fields), path + "/size")
    + TargetFindings(TargetOf(fields), path + "/target")
  }

  /** Everything found in one mount by itself. */
  ghost function MountFindings(mount: Json, index: nat): (found: seq<Diagnostic>)
    ensures AllErrors(found)
  {
    var path := MountPath(index);
    if !mount.Obj? then [Error("invalid_type", path)]
    else ShapeFindings(mount.fields, path) + FieldFindings(mount.fields, path)
  }

  /** The first `n` parts, one after the other. */
  function Concat<T>(parts: seq<seq<T>>, n: nat): (whole: seq<T>)
    requires n <= |parts|
    ensures (forall i :: 0 <= i < n ==> parts[i] == []) ==> whole == []
  {
    if n == 0 then [] else Concat(parts, n - 1) + parts[n - 1]
  }

  ghost function FoundInEach(mounts: seq<Json>): (parts: seq<seq<Diagnostic>>)
    ensures |parts| == |mounts|
    ensures forall i :: 0 <= i < |mounts| ==> parts[i] == MountFindings(mounts[i], i)
  {
    seq(|mounts|, i requires 0 <= i < |mounts| => MountFindings(mounts[i], i))
  }

  /** Everything found in the first `n` mounts, each by itself. */
  ghost function EachFindings(mounts: seq<Json>, n: nat): seq<Diagnostic>
    requires n <= |mounts|
  {
    Concat(FoundInEach(mounts), n)
  }

  lemma {:induction false} ConcatAllErrors(parts: seq<seq<Diagnostic>>, n: nat)
    requires n <= |parts| && forall i :: 0 <= i < n ==> AllErrors(parts[i])
    ensures AllErrors(Concat(parts, n))
  {
    if n == 0 {
    } else {
      ConcatAllErrors(parts, n - 1);
    }
  }

  lemma {:induction false} ConcatEmpty<T>(parts: seq<seq<T>>, n: nat)
    requires n <= |parts| && Concat(parts, n) == []
    ensures forall i :: 0 <= i < n ==> parts[i] == []
  {
    if n == 0 {
    } else {
      ConcatEmpty(parts, n - 1);
    }
  }

  // ----- What the loop over the mounts collects -------------------------------------------

  /** A mount whose target is a container path, with its position. */
  datatype Placed = Placed(index: nat, kind: string, target: Path)

  function OptionSeq<T>(value: Option<T>): seq<T> {
    if value.Some? then [value.value] else []
  }

  function PlacedOf(mount: Json, index: nat): Option<Placed> {
    if mount.Obj? && TargetOf(mount.fields).Some? && ContainerPath(TargetOf(mount.fields).value).Some?
    then Some(Placed(index,
                     if KindOf(mount.fields).Some? then KindOf(mount.fields).value else "",
                     ContainerPath(TargetOf(mount.fields).value).value))
    else None
  }

  function MountName(mount: Json): Option<string> {
    if mount.Obj? then NameOf(mount.fields) else None
  }

  lemma PlaceIs(mount: Json, index: nat, target: Option<Path>)
    requires mount.Obj?
    requires target == if TargetOf(mount.fields).None? then None else ContainerPath(TargetOf(mount.fields).value)
    ensures PlacedOf(mount, index)
         == (if target.None? then None
             else Some(Placed(index, if KindOf(mount.fields).Some? then KindOf(mount.fields).value else "",
                              target.value)))
  {
  }

  predicate IsWorkspace(mount: Json) { mount.Obj? && KindOf(mount.fields) == Some("workspace") }

  /** The values present among the first `n` options. */
  function Present<T>(options: seq<Option<T>>, n: nat): seq<T>
    requires n <= |options|
  {
    if n == 0 then [] else Present(options, n - 1) + OptionSeq(options[n - 1])
  }

  lemma {:induction false} AllPresent<T>(options: seq<Option<T>>, n: nat)
    requires n <= |options| && forall i :: 0 <= i < n ==> options[i].Some?
    ensures |Present(options, n)| == n && forall i :: 0 <= i < n ==> Present(options, n)[i] == options[i].value
  {
    if n == 0 {
    } else {
      AllPresent(options, n - 1);
    }
  }

  function NameOptions(mounts: seq<Json>): (options: seq<Option<string>>)
    ensures |options| == |mounts| && forall i :: 0 <= i < |mounts| ==> options[i] == MountName(mounts[i])
  {
    seq(|mounts|, i requires 0 <= i < |mounts| => MountName(mounts[i]))
  }

  function PlacedOptions(mounts: seq<Json>): (options: seq<Option<Placed>>)
    ensures |options| == |mounts| && forall i :: 0 <= i < |mounts| ==> options[i] == PlacedOf(mounts[i], i)
  {
    seq(|mounts|, i requires 0 <= i < |mounts| => PlacedOf(mounts[i], i))
  }

  function Names(mounts: seq<Json>, n: nat): seq<string>
    requires n <= |mounts|
  {
    Present(NameOptions(mounts), n)
  }

  function PlacedAll(mounts: seq<Json>, n: nat): seq<Placed>
    requires n <= |mounts|
  {
    Present(PlacedOptions(mounts), n)
  }

  function WorkspaceCount(mounts: seq<Json>, n: nat): nat
    requires n <= |mounts|
  {
    if n == 0 then 0 else WorkspaceCount(mounts, n - 1) + (if IsWorkspace(mounts[n - 1]) then 1 else 0)
  }

  ghost predicate Collected(mounts: seq<Json>, n: nat, names: seq<string>, workspaces: nat, placed: seq<Placed>)
    requires n <= |mounts|
  {
    names == Names(mounts, n) && workspaces == WorkspaceCount(mounts, n) && placed == PlacedAll(mounts, n)
  }

  lemma EachStep(before: seq<Diagnostic>, mounts: seq<Json>, i: nat)
    requires i < |mounts|
    ensures Capped(Capped(before + EachFindings(mounts, i)) + MountFindings(mounts[i], i))
         == Capped(before + EachFindings(mounts, i + 1))
  {
    CapOnce(before, EachFindings(mounts, i), MountFindings(mounts[i], i));
  }

  // ----- The checks between mounts --------------------------------------------------------

  function MismatchFindings(left: Placed, workspace: Option<Path>): seq<Diagnostic> {
    When(left.kind == "workspace" && workspace.Some? && left.target != workspace.value,
         "workspace_mount_mismatch", MountPath(left.index) + "/target")
  }

  function WorkspaceOverlapFindings(left: Placed, workspace: Option<Path>): seq<Diagnostic> {
    When(workspace.Some? && left.kind != "workspace" && PathsOverlap(left.target, workspace.value),
         "workspace_mount_overlap", MountPath(left.index) + "/target")
  }

  function PairFindings(left: Placed, right: Placed): seq<Diagnostic> {
    When(right.index > left.index && PathsOverlap(left.target, right.target),
         "overlapping_mount_targets", MountPath(right.index) + "/target")
  }

  function RightParts(left: Placed, all: seq<Placed>): (parts: seq<seq<Diagnostic>>)
    ensures |parts| == |all|
    ensures forall i :: 0 <= i < |all| ==> parts[i] == PairFindings(left, all[i])
  {
    seq(|all|, i requires 0 <= i < |all| => PairFindings(left, all[i]))
  }

  /** Overlaps of `left` with the first `n` of `all`. */
  function RightFindings(left: Placed, all: seq<Placed>, n: nat): (found: seq<Diagnostic>)
    requires n <= |all|
    ensures AllErrors(found)
  {
    ConcatAllErrors(RightParts(left, all), n);
    Concat(RightParts(left, all), n)
  }

  function OneLeft(left: Placed, all: seq<Placed>, workspace: Option<Path>): (found: seq<Diagnostic>)
    ensures AllErrors(found)
  {
    MismatchFindings(left, workspace) + RightFindings(left, all, |all|) + WorkspaceOverlapFindings(left, workspace)
  }

  function LeftParts(all: seq<Placed>, workspace: Option<Path>): (parts: seq<seq<Diagnostic>>)
    ensures |parts| == |all|
    ensures forall i :: 0 <= i < |all| ==> parts[i] == OneLeft(all[i], all, workspace)
  {
    seq(|all|, i requires 0 <= i < |all| => OneLeft(all[i], all, workspace))
  }

  function LeftFindings(all: seq<Placed>, n: nat, workspace: Option<Path>): (found: seq<Diagnostic>)
    requires n <= |all|
    ensures AllErrors(found)
  {
    ConcatAllErrors(LeftParts(all, workspace), n);
    Concat(LeftParts(all, workspace), n)
  }

  lemma LeftStep(before: seq<Diagnostic>, all: seq<Placed>, i: nat, workspace: Option<Path>)
    requires i < |all|
    ensures Capped(Capped(before + LeftFindings(all, i, workspace)) + OneLeft(all[i], all, workspace))
         == Capped(before + LeftFindings(all, i + 1, workspace))
  {
    CapOnce(before, LeftFindings(all, i, workspace), OneLeft(all[i], all, workspace));
  }

  lemma RightStep(before: seq<Diagnostic>, left: Placed, all: seq<Placed>, i: nat)
    requires i < |all|
    ensures Capped(Capped(before + RightFindings(left, all, i)) + PairFindings(left, all[i]))
         == Capped(before + RightFindings(left, all, i + 1))
  {
    CapOnce(before, RightFindings(left, all, i), PairFindings(left, all[i]));
  }

  function Distinct(names: seq<string>): set<string> { set n | n in names }

  ghost function BetweenFindings(mounts: seq<Json>, workspace: Option<Path>): (found: seq<Diagnostic>)
    ensures AllErrors(found)
  {
    var names, placed := Names(mounts, |mounts|), PlacedAll(mounts, |mounts|);
    When(|names| != |Distinct(names)|, "duplicate_mount_name", "/spec/mounts")
    + When(WorkspaceCount(mounts, |mounts|) > 1, "duplicate_workspace_mount", "/spec/mounts")
    + LeftFindings(placed, |placed|, workspace)
  }

  /** Everything the mount part of the validation finds. */
  ghost function ListFindings(mounts: seq<Json>, workspace: Option<Path>): (found: seq<Diagnostic>)
    ensures AllErrors(found)
  {
    ConcatAllErrors(FoundInEach(mounts), |mounts|);
    When(|mounts| > 64, "invalid_item_count", "/spec/mounts")
    + EachFindings(mounts, |mounts|) + BetweenFindings(mounts, workspace)
  }

  /** `value` is the `mounts` member, if the document has one. */
  ghost function Findings(value: Option<Json>, workspace: Option<Path>): (found: seq<Diagnostic>)
    ensures AllErrors(found)
  {
    if value.None? then ListFindings([], workspace)
    else if !value.value.Arr? then [Error("invalid_type", "/spec/mounts")]
    else ListFindings(value.value.items, workspace)
  }

  // ----- The validator as the program runs it -----------------------------------------------

  class Validator {
    var diagnostics: seq<Diagnostic>

    ghost predicate Valid()
      reads this
    {
      |diagnostics| <= MAX_DIAGNOSTICS
    }

    constructor ()
      ensures Valid() && diagnostics == []
    {
      diagnostics := [];
    }

    method Add(code: string, path: string)
      requires Valid()
      modifies this
      ensures Valid() && diagnostics == Capped(old(diagnostics) + [Error(code, path)])
    {
      if |diagnostics| >= MAX_DIAGNOSTICS {
        return;
      }
      diagnostics := diagnostics + [Error(code, path)];
    }

    method AddWhen(condition: bool, code: string, path: string)
      requires Valid()
      modifies this
      ensures Valid() && diagnostics == Capped(old(diagnostics) + When(condition, code, path))
    {
      if condition {
        Add(code, path);
      }
    }

    method String(value: Option<Json>, path: string, maximum: nat, pattern: string -> bool, kinds: string -> bool)
        returns (parsed: Option<string>)
      requires Valid()
      modifies this
      ensures Valid() && parsed == StringValue(value, maximum)
      ensures diagnostics == Capped(old(diagnostics) + StringFindings(value, path, maximum, pattern, kinds))
    {
      if value.None? || !value.value.Str? {
        Add("invalid_type", path);
        return None;
      }
      var s := value.value.s;
      if !(1 <= |s| <= maximum) {
        Add("invalid_length", path);
        return None;
      }
      AddWhen(Control(s), "control_character_forbidden", path);
      AddWhen(Multiline(s), "multiline_value_forbidden", path);
      AddWhen(!pattern(s), "invalid_format", path);
      AddWhen(!kinds(s), "unsupported_value", path);
      ghost var c, m := When(Control(s), "control_character_forbidden", path),
        When(Multiline(s), "multiline_value_forbidden", path);
      ghost var f, k := When(!pattern(s), "invalid_format", path), When(!kinds(s), "unsupported_value", path);
      CapOnce(old(diagnostics), c, m);
      CapOnce(old(diagnostics), c + m, f);
      CapOnce(old(diagnostics), c + m + f, k);
      parsed := Some(s);
    }

    /** One diagnostic for each key, in order. */
    method AddKeys(keys: seq<string>, code: string, path: string)
      requires Valid()
      modifies this
      ensures Valid() && diagnostics == Capped(old(diagnostics) + KeyFindings(keys, |keys|, code, path))
    {
      var i := 0;
      while i < |keys|
        invariant 0 <= i <= |keys| && Valid()
        invariant diagnostics == Capped(old(diagnostics) + KeyFindings(keys, i, code, path))
      {
        CapOnce(old(diagnostics), KeyFindings(keys, i, code, path), [Error(code, Child(path, keys[i]))]);
        Add(code, Child(path, keys[i]));
        i := i + 1;
      }
    }

    method ExactKeys(fields: map<string, Json>, path: string)
      requires Valid()
      modifies this
      ensures Valid() && diagnostics == Capped(old(diagnostics) + ShapeFindings(fields, path))
    {
      var missing := Text.Sort(REQUIRED_KEYS - fields.Keys);
      AddKeys(missing, "required_field_missing", path);
      var unknown := Text.Sort(fields.Keys - MOUNT_KEYS);
      AddKeys(unknown, "unknown_field", path);
      CapOnce(old(diagnostics), KeyFindings(missing, |missing|, "required_field_missing", path),
              KeyFindings(unknown, |unknown|, "unknown_field", path));
    }

    method CheckSize(size: Option<Json>, kind: Option<string>, path: string)
      requires Valid()
      modifies this
      ensures Valid() && diagnostics == Capped(old(diagnostics) + SizeFindings(size, kind, path))
    {
      hide Concat, StringFindings;
      if size.Some? {
        var parsed := String(size, path, 32, IsQuantityNotation, AnyString);
        AddWhen(parsed.Some? && Units.ParseQuantity(parsed.value).None?, "invalid_quantity", path);
        CapOnce(old(diagnostics), StringFindings(size, path, 32, IsQuantityNotation, AnyString),
                When(parsed.Some? && Units.ParseQuantity(parsed.value).None?, "invalid_quantity", path));
      }
      AddWhen(kind == Some("tmpfs") && size.None?, "tmpfs_size_required", path);
    }

    method CheckFields(fields: map<string, Json>, path: string)
      returns (name: Option<string>, kind: Option<string>, target: Option<Path>)
      requires Valid()
      modifies this
      ensures Valid() && name == NameOf(fields) && kind == KindOf(fields)
      ensures target == if TargetOf(fields).None? then None else ContainerPath(TargetOf(fields).value)
      ensures diagnostics == Capped(old(diagnostics) + FieldFindings(fields, path))
    {
      name := String(Get(fields, "name"), path + "/name", 63, Text.IsName, AnyString);
      kind := String(Get(fields, "type"), path + "/type", 16, AnyString, IsMountKind);
      var text := String(Get(fields, "target"), path + "/target", 4096, AnyString, AnyString);
      AddWhen(Get(fields, "readOnly").None? || !Get(fields, "readOnly").value.Bool?, "invalid_type",
              path + "/readOnly");
      CheckSize(Get(fields, "size"), kind, path + "/size");
      target := if text.None? then None else ContainerPath(text.value);
      AddWhen(text.Some? && target.None?, "unsafe_container_path", path + "/target");
      ghost var n := StringFindings(Get(fields, "name"), path + "/name", 63, Text.IsName, AnyString);
      ghost var k := StringFindings(Get(fields, "type"), path + "/type", 16, AnyString, IsMountKind);
      ghost var t := StringFindings(Get(fields, "target"), path + "/target", 4096, AnyString, AnyString);
      ghost var b := BooleanFindings(Get(fields, "readOnly"), path + "/readOnly");
      ghost var s := SizeFindings(Get(fields, "size"), KindOf(fields), path + "/size");
      CapOnce(old(diagnostics), n, k);
      CapOnce(old(diagnostics), n + k, t);
      CapOnce(old(diagnostics), n + k + t, b);
      CapOnce(old(diagnostics), n + k + t + b, s);
      CapOnce(old(diagnostics), n + k + t + b + s, TargetFindings(TargetOf(fields), path + "/target"));
    }

    /** One turn of the loop over the mounts. */
    method CheckOne(mount: Json, index: nat) returns (name: Option<string>, isWorkspace: bool, place: Option<Placed>)
      requires Valid()
      modifies this
      ensures Valid() && diagnostics == Capped(old(diagnostics) + MountFindings(mount, index))
      ensures name == MountName(mount) && isWorkspace == IsWorkspace(mount) && place == PlacedOf(mount, index)
    {
      var path := MountPath(index);
      if !mount.Obj? {
        Add("invalid_type", path);
        return None, false, None;
      }
      ExactKeys(mount.fields, path);
      var kind, target;
      name, kind, target := CheckFields(mount.fields, path);
      CapOnce(old(diagnostics), ShapeFindings(mount.fields, path), FieldFindings(mount.fields, path));
      isWorkspace := kind == Some("workspace");
      PlaceIs(mount, index, target);
      place := if target.None? then None else Some(Placed(index, if kind.Some? then kind.value else "", target.value));
    }

    /** One turn of the loop over the mounts, after `index` of them. */
    method CheckNext(mounts: seq<Json>, index: nat, names: seq<string>, workspaces: nat, placed: seq<Placed>,
                     ghost before: seq<Diagnostic>)
        returns (names': seq<string>, workspaces': nat, placed': seq<Placed>)
      requires Valid() && index < |mounts| && diagnostics == Capped(before + EachFindings(mounts, index))
      requires Collected(mounts, index, names, workspaces, placed)
      modifies this
      ensures Valid() && diagnostics == Capped(before + EachFindings(mounts, index + 1))
      ensures Collected(mounts, index + 1, names', workspaces', placed')
    {
      hide MountFindings;
      EachStep(before, mounts, index);
      var name, isWorkspace, place := CheckOne(mounts[index], index);
      names', placed' := names + OptionSeq(name), placed + OptionSeq(place);
      workspaces' := if isWorkspace then workspaces + 1 else workspaces;
    }

    /** The loop over the mounts. */
    method CheckEach(mounts: seq<Json>) returns (names: seq<string>, workspaces: nat, placed: seq<Placed>)
      requires Valid()
      modifies this
      ensures Valid() && diagnostics == Capped(old(diagnostics) + EachFindings(mounts, |mounts|))
      ensures Collected(mounts, |mounts|, names, workspaces, placed)
    {
      names, workspaces, placed := [], 0, [];
      var i := 0;
      while i < |mounts|
        invariant 0 <= i <= |mounts| && Valid()
        invariant diagnostics == Capped(old(diagnostics) + EachFindings(mounts, i))
        invariant Collected(mounts, i, names, workspaces, placed)
      {
        names, workspaces, placed := CheckNext(mounts, i, names, workspaces, placed, old(diagnostics));
        i := i + 1;
      }
    }

    /** The inner loop over the mounts to the right of `left`. */
    method CheckRights(left: Placed, all: seq<Placed>)
      requires Valid()
      modifies this
      ensures Valid() && diagnostics == Capped(old(diagnostics) + RightFindings(left, all, |all|))
    {
      hide Concat, MountPath;
      var i := 0;
      while i < |all|
        invariant 0 <= i <= |all| && Valid()
        invariant diagnostics == Capped(old(diagnostics) + RightFindings(left, all, i))
      {
        var right := all[i];
        RightStep(old(diagnostics), left, all, i);
        i := i + 1;
        if right.index <= left.index {
          continue;
        }
        AddWhen(PathsOverlap(left.target, right.target), "overlapping_mount_targets",
                MountPath(right.index) + "/target");
      }
    }

    /** One turn of the outer loop over the placed mounts. */
    method CheckPlace(left: Placed, all: seq<Placed>, workspace: Option<Path>)
      requires Valid()
      modifies this
      ensures Valid() && diagnostics == Capped(old(diagnostics) + OneLeft(left, all, workspace))
    {
      AddWhen(left.kind == "workspace" && workspace.Some? && left.target != workspace.value,
              "workspace_mount_mismatch", MountPath(left.index) + "/target");
      CheckRights(left, all);
      AddWhen(workspace.Some? && left.kind != "workspace" && PathsOverlap(left.target, workspace.value),
              "workspace_mount_overlap", MountPath(left.index) + "/target");
      ghost var m, r, o := MismatchFindings(left, workspace), RightFindings(left, all, |all|),
        WorkspaceOverlapFindings(left, workspace);
      CapOnce(old(diagnostics), m, r);
      CapOnce(old(diagnostics), m + r, o);
    }

    /** One more turn, after `index` of them. */
    method CheckNextPlace(all: seq<Placed>, index: nat, workspace: Option<Path>, ghost before: seq<Diagnostic>)
      requires Valid() && index < |all| && diagnostics == Capped(before + LeftFindings(all, index, workspace))
      modifies this
      ensures Valid() && diagnostics == Capped(before + LeftFindings(all, index + 1, workspace))
    {
      LeftStep(before, all, index, workspace);
      CheckPlace(all[index], all, workspace);
    }

    method CheckPlaces(all: seq<Placed>, workspace: Option<Path>)
      requires Valid()
      modifies this
      ensures Valid() && diagnostics == Capped(old(diagnostics) + LeftFindings(all, |all|, workspace))
    {
      var i := 0;
      while i < |all|
        invariant 0 <= i <= |all| && Valid()
        invariant diagnostics == Capped(old(diagnostics) + LeftFindings(all, i, workspace))
      {
        CheckNextPlace(all, i, workspace, old(diagnostics));
        i := i + 1;
      }
    }

    method CheckBetween(mounts: seq<Json>, names: seq<string>, workspaces: nat, placed: seq<Placed>,
                        workspace: Option<Path>)
      requires Valid() && Collected(mounts, |mounts|, names, workspaces, placed)
      modifies this
      ensures Valid() && diagnostics == Capped(old(diagnostics) + BetweenFindings(mounts, workspace))
    {
      AddWhen(|names| != |Distinct(names)|, "duplicate_mount_name", "/spec/mounts");
      AddWhen(workspaces > 1, "duplicate_workspace_mount", "/spec/mounts");
      CheckPlaces(placed, workspace);
      ghost var n := When(|names| != |Distinct(names)|, "duplicate_mount_name", "/spec/mounts");
      ghost var w := When(workspaces > 1, "duplicate_workspace_mount", "/spec/mounts");
      CapOnce(old(diagnostics), n, w);
      CapOnce(old(diagnostics), n + w, LeftFindings(placed, |placed|, workspace));
    }

    /** The mount part of the document validation. */
    method CheckMounts(value: Option<Json>, workspace: Option<Path>)
      requires Valid()
      modifies this
      ensures Valid() && diagnostics == Capped(old(diagnostics) + Findings(value, workspace))
    {
      var mounts := if value.None? then Arr([]) else value.value;
      if !mounts.Arr? {
        Add("invalid_type", "/spec/mounts");
      } else {
        AddWhen(|mounts.items| > 64, "invalid_item_count", "/spec/mounts");
        ghost var c, e := When(|mounts.items| > 64, "invalid_item_count", "/spec/mounts"),
          EachFindings(mounts.items, |mounts.items|);
        var names, workspaces, placed := CheckEach(mounts.items);
        CapOnce(old(diagnostics), c, e);
        CheckBetween(mounts.items, names, workspaces, placed, workspace);
        CapOnce(old(diagnostics), c + e, BetweenFindings(mounts.items, workspace));
      }
    }
  }
}
