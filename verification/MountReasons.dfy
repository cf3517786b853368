/** Every diagnostic on the mounts and its reason: exactly which codes are found at
    which places, told from the document itself. */
module MountReasons {
  import opened Wrappers
  import opened Json
  import opened Mounts
  import opened MountRules
  import StructuralDiff
  import Text
  import Units

  // ----- One member ----------------------------------------------------------------------

  /** A string of an allowed length; only then is its content looked at. */
  ghost predicate Readable(value: Option<Json>, maximum: nat) {
    value.Some? && value.value.Str? && 1 <= |value.value.s| <= maximum
  }

  /** What is wrong with a member that has to be a string. */
  ghost predicate StringFault(value: Option<Json>, path: string, maximum: nat, d: Diagnostic) {
    || (d == Error("invalid_type", path) && !(value.Some? && value.value.Str?))
    || (d == Error("invalid_length", path) && value.Some? && value.value.Str? && !Readable(value, maximum))
    || (d == Error("control_character_forbidden", path) && Readable(value, maximum) && !Printable(value.value.s))
    || (d == Error("multiline_value_forbidden", path) && Readable(value, maximum)
        && exists i :: 0 <= i < |value.value.s| && value.value.s[i] as int in {10, 13})
  }

  lemma ControlIsUnprintable(s: string)
    ensures Control(s) <==> !Printable(s)
    ensures Multiline(s) <==> exists i :: 0 <= i < |s| && s[i] as int in {10, 13}
  {
    if Multiline(s) {
      var i :| 0 <= i < |s| && (s[i] == '\n' || s[i] == '\r');
      assert s[i] as int in {10, 13};
    }
    if i :| 0 <= i < |s| && s[i] as int in {10, 13} {
      assert s[i] == '\n' || s[i] == '\r';
    }
  }

  lemma StringReasons(value: Option<Json>, path: string, maximum: nat, pattern: string -> bool,
                      kinds: string -> bool, d: Diagnostic)
    ensures d in StringFindings(value, path, maximum, pattern, kinds) <==>
              || StringFault(value, path, maximum, d)
              || (Readable(value, maximum) && !pattern(value.value.s) && d == Error("invalid_format", path))
              || (Readable(value, maximum) && !kinds(value.value.s) && d == Error("unsupported_value", path))
    ensures Readable(value, maximum) ==> StringValue(value, maximum) == Some(value.value.s)
    ensures !Readable(value, maximum) ==> StringValue(value, maximum) == None
  {
    hide Control, Multiline, Printable, AllErrors;
    if value.Some? && value.value.Str? { ControlIsUnprintable(value.value.s); }
  }

  ghost predicate NameFault(fields: map<string, Json>, p: string, d: Diagnostic) {
    var name := Get(fields, "name");
    || StringFault(name, p + "/name", 63, d)
    || (d == Error("invalid_format", p + "/name") && Readable(name, 63) && !Text.IsName(name.value.s))
  }

  ghost predicate KindFault(fields: map<string, Json>, p: string, d: Diagnostic) {
    var kind := Get(fields, "type");
    || StringFault(kind, p + "/type", 16, d)
    || (d == Error("unsupported_value", p + "/type") && Readable(kind, 16) && kind.value.s !in MOUNT_KINDS)
  }

  ghost predicate TargetFault(fields: map<string, Json>, p: string, d: Diagnostic) {
    var target := Get(fields, "target");
    || StringFault(target, p + "/target", 4096, d)
    || (d == Error("unsafe_container_path", p + "/target") && Readable(target, 4096) && !LegalTarget(target.value.s))
  }

  ghost predicate FlagFault(fields: map<string, Json>, p: string, d: Diagnostic) {
    d == Error("invalid_type", p + "/readOnly") && !("readOnly" in fields && fields["readOnly"].Bool?)
  }

  ghost predicate SizeFault(fields: map<string, Json>, p: string, d: Diagnostic) {
    var size := Get(fields, "size");
    if size.None? then
      && d == Error("tmpfs_size_required", p + "/size")
      && Get(fields, "type") == Some(Str("tmpfs"))
    else
      || StringFault(size, p + "/size", 32, d)
      || (d == Error("invalid_format", p + "/size") && Readable(size, 32) && Units.Notation(size.value.s).None?)
      || (d == Error("invalid_quantity", p + "/size") && Readable(size, 32) && Units.ParseQuantity(size.value.s).None?)
  }

  lemma NameReasons(fields: map<string, Json>, p: string, d: Diagnostic)
    ensures d in StringFindings(Get(fields, "name"), p + "/name", 63, Text.IsName, AnyString)
       <==> NameFault(fields, p, d)
  {
    hide StringFindings, StringFault, Text.IsName;
    StringReasons(Get(fields, "name"), p + "/name", 63, Text.IsName, AnyString, d);
  }

  lemma KindReasons(fields: map<string, Json>, p: string, d: Diagnostic)
    ensures d in StringFindings(Get(fields, "type"), p + "/type", 16, AnyString, IsMountKind)
       <==> KindFault(fields, p, d)
  {
    hide StringFindings, StringFault;
    StringReasons(Get(fields, "type"), p + "/type", 16, AnyString, IsMountKind, d);
  }

  lemma TargetReasons(fields: map<string, Json>, p: string, d: Diagnostic)
    ensures d in StringFindings(Get(fields, "target"), p + "/target", 4096, AnyString, AnyString)
                 + TargetFindings(TargetOf(fields), p + "/target")
       <==> TargetFault(fields, p, d)
  {
    hide StringFindings, StringFault, ContainerPath, LegalTarget;
    var target := Get(fields, "target");
    StringReasons(target, p + "/target", 4096, AnyString, AnyString, d);
    if Readable(target, 4096) { LegalTargetIsContainerPath(target.value.s); }
  }

  lemma SizeReasons(fields: map<string, Json>, p: string, d: Diagnostic)
    ensures d in SizeFindings(Get(fields, "size"), KindOf(fields), p + "/size") <==> SizeFault(fields, p, d)
  {
    hide StringFindings, StringFault, Units.ParseQuantity, Units.Notation;
    var size := Get(fields, "size");
    if size.Some? {
      StringReasons(size, p + "/size", 32, IsQuantityNotation, AnyString, d);
    } else {
      assert KindOf(fields) == Some("tmpfs") <==> Get(fields, "type") == Some(Str("tmpfs"));
    }
  }

  // ----- The keys of a mount -----------------------------------------------------------------

  lemma {:induction false} KeysReported(keys: seq<string>, n: nat, code: string, path: string, d: Diagnostic)
    requires n <= |keys|
    ensures d in KeyFindings(keys, n, code, path) <==>
              exists i :: 0 <= i < n && d == Error(code, path + "/" + StructuralDiff.Escape(keys[i]))
  {
    hide StructuralDiff.Escape;
    if n == 0 {
    } else {
      KeysReported(keys, n - 1, code, path, d);
    }
  }

  lemma KeySetReported(keys: set<string>, code: string, path: string, d: Diagnostic)
    ensures var sorted := Text.SortedKeys(keys);
            d in KeyFindings(sorted, |sorted|, code, path) <==>
              exists k :: k in keys && d == Error(code, path + "/" + StructuralDiff.Escape(k))
  {
    hide StructuralDiff.Escape, KeyFindings;
    var sorted := Text.SortedKeys(keys);
    Text.SortedKeysProperties(keys);
    KeysReported(sorted, |sorted|, code, path, d);
    if k :| k in keys && d == Error(code, path + "/" + StructuralDiff.Escape(k)) {
      var i :| 0 <= i < |sorted| && sorted[i] == k;
    }
  }

  /** A required member is missing, or one is there that mounts do not have. */
  ghost predicate KeyFault(fields: map<string, Json>, p: string, d: Diagnostic) {
    || (exists k :: k in {"name", "type", "target", "readOnly"} - fields.Keys
                    && d == Error("required_field_missing", p + "/" + StructuralDiff.Escape(k)))
    || (exists k :: k in fields.Keys - {"name", "type", "target", "readOnly", "size"}
                    && d == Error("unknown_field", p + "/" + StructuralDiff.Escape(k)))
  }

  lemma KeyReasons(fields: map<string, Json>, p: string, d: Diagnostic)
    ensures d in ShapeFindings(fields, p) <==> KeyFault(fields, p, d)
  {
    hide StructuralDiff.Escape, KeyFindings, Text.SortedKeys;
    KeySetReported(REQUIRED_KEYS - fields.Keys, "required_field_missing", p, d);
    KeySetReported(fields.Keys - MOUNT_KEYS, "unknown_field", p, d);
    assert MOUNT_KEYS == {"name", "type", "target", "readOnly", "size"};
  }

  // ----- One mount -----------------------------------------------------------------------------

  ghost predicate MountFault(mount: Json, index: nat, d: Diagnostic) {
    var p := "/spec/mounts/" + Text.DigitsOf(index);
    if !mount.Obj? then d == Error("invalid_type", p)
    else
      || KeyFault(mount.fields, p, d) || NameFault(mount.fields, p, d) || KindFault(mount.fields, p, d)
      || TargetFault(mount.fields, p, d) || FlagFault(mount.fields, p, d) || SizeFault(mount.fields, p, d)
  }

  /** What is found in a mount by itself is exactly what is wrong with it. */
  lemma MountFindingsHaveReasons(mount: Json, index: nat, d: Diagnostic)
    ensures d in MountFindings(mount, index) <==> MountFault(mount, index, d)
  {
    hide StringFindings, SizeFindings, TargetFindings, ShapeFindings, KeyFault, NameFault, KindFault, TargetFault;
    hide SizeFault, Text.DigitsOf;
    if mount.Obj? {
      var p := MountPath(index);
      KeyReasons(mount.fields, p, d);
      NameReasons(mount.fields, p, d);
      KindReasons(mount.fields, p, d);
      TargetReasons(mount.fields, p, d);
      SizeReasons(mount.fields, p, d);
    }
  }

  // ----- Between mounts ----------------------------------------------------------------------------

  lemma {:induction false} InConcat<T>(parts: seq<seq<T>>, n: nat, d: T)
    requires n <= |parts|
    ensures d in Concat(parts, n) <==> exists i :: 0 <= i < n && d in parts[i]
  {
    if n == 0 {
    } else {
      InConcat(parts, n - 1, d);
    }
  }

  lemma {:induction false} InPresent<T>(options: seq<Option<T>>, n: nat, x: T)
    requires n <= |options|
    ensures x in Present(options, n) <==> exists i :: 0 <= i < n && options[i] == Some(x)
  {
    if n == 0 {
    } else {
      InPresent(options, n - 1, x);
    }
  }

  ghost predicate SameName(options: seq<Option<string>>, i: nat, j: nat)
    requires i < |options| && j < |options|
  {
    options[i].Some? && options[i] == options[j]
  }

  lemma {:induction false} PresentTwice(options: seq<Option<string>>, n: nat)
    requires n <= |options|
    ensures !NoneTwice(Present(options, n)) <==> exists i, j :: 0 <= i < j < n && SameName(options, i, j)
  {
    if n == 0 {
    } else {
      hide NoneTwice;
      PresentTwice(options, n - 1);
      var front := Present(options, n - 1);
      if options[n - 1].Some? {
        NoneTwiceOneMore(front, options[n - 1].value);
        InPresent(options, n - 1, options[n - 1].value);
        if options[n - 1].value in front {
          var i :| 0 <= i < n - 1 && options[i] == options[n - 1];
          assert SameName(options, i, n - 1);
        }
      } else {
        assert front + [] == front;
      }
    }
  }

  /** The mount has a legal target, and this is it. */
  ghost predicate Lies(mount: Json, target: Path) {
    && mount.Obj? && Readable(Get(mount.fields, "target"), 4096)
    && target != [] && LegalPieces(target) && OutsideProtected(target)
    && mount.fields["target"].s == Spelling(target)
  }

  ghost predicate IsWorkspaceMount(mount: Json) {
    mount.Obj? && "type" in mount.fields && mount.fields["type"] == Str("workspace")
  }

  lemma LiesIsPlaced(mount: Json, index: nat, target: Path)
    ensures Lies(mount, target) <==>
              PlacedOf(mount, index).Some? && PlacedOf(mount, index).value.target == target
    ensures PlacedOf(mount, index).Some? ==>
              && PlacedOf(mount, index).value.index == index
              && (PlacedOf(mount, index).value.kind == "workspace" <==> IsWorkspaceMount(mount))
    ensures IsWorkspace(mount) <==> IsWorkspaceMount(mount)
  {
    hide ContainerPath, Spelling, LegalPieces, IsProtected;
    if mount.Obj? && TargetOf(mount.fields).Some? {
      ContainerPathIsSpelling(TargetOf(mount.fields).value, target);
      ProtectedMeansBelow(target);
    }
  }

  ghost predicate WorkspaceFault(mounts: seq<Json>, workspace: Path, i: nat, target: Path, d: Diagnostic)
    requires i < |mounts|
  {
    && Lies(mounts[i], target)
    && d == Error(if IsWorkspaceMount(mounts[i]) then "workspace_mount_mismatch" else "workspace_mount_overlap",
                  "/spec/mounts/" + Text.DigitsOf(i) + "/target")
    && (if IsWorkspaceMount(mounts[i]) then target != workspace else SubtreesMeet(target, workspace))
  }

  ghost predicate OverlapFault(mounts: seq<Json>, i: nat, j: nat, left: Path, right: Path, d: Diagnostic)
    requires i < |mounts| && j < |mounts|
  {
    && Lies(mounts[i], left) && Lies(mounts[j], right) && SubtreesMeet(left, right)
    && d == Error("overlapping_mount_targets", "/spec/mounts/" + Text.DigitsOf(j) + "/target")
  }

  ghost predicate BetweenFault(mounts: seq<Json>, workspace: Option<Path>, d: Diagnostic) {
    || (d == Error("duplicate_mount_name", "/spec/mounts")
        && exists i, j :: 0 <= i < j < |mounts| && SameName(NameOptions(mounts), i, j))
    || (d == Error("duplicate_workspace_mount", "/spec/mounts")
        && exists i, j :: 0 <= i < j < |mounts| && IsWorkspaceMount(mounts[i]) && IsWorkspaceMount(mounts[j]))
    || (workspace.Some?
        && exists i, target :: 0 <= i < |mounts| && WorkspaceFault(mounts, workspace.value, i, target, d))
    || (exists i, j, left, right :: 0 <= i < j < |mounts| && OverlapFault(mounts, i, j, left, right, d))
  }

  lemma InPlaced(mounts: seq<Json>, place: Placed)
    ensures place in PlacedAll(mounts, |mounts|) <==>
              place.index < |mounts| && PlacedOf(mounts[place.index], place.index) == Some(place)
  {
    hide PlacedOf;
    InPresent(PlacedOptions(mounts), |mounts|, place);
    forall i | 0 <= i < |mounts| && PlacedOf(mounts[i], i) == Some(place)
      ensures i == place.index
    {
      LiesIsPlaced(mounts[i], i, place.target);
    }
  }

  lemma InLefts(placed: seq<Placed>, workspace: Option<Path>, d: Diagnostic)
    ensures d in LeftFindings(placed, |placed|, workspace) <==>
              exists left :: left in placed && d in OneLeft(left, placed, workspace)
  {
    hide OneLeft;
    var parts := LeftParts(placed, workspace);
    InConcat(parts, |placed|, d);
    if left :| left in placed && d in OneLeft(left, placed, workspace) {
      var i :| 0 <= i < |placed| && placed[i] == left;
      assert d in parts[i];
    }
  }

  lemma InRights(left: Placed, placed: seq<Placed>, d: Diagnostic)
    ensures d in RightFindings(left, placed, |placed|) <==>
              exists right :: right in placed && d in PairFindings(left, right)
  {
    hide PairFindings;
    var parts := RightParts(left, placed);
    InConcat(parts, |placed|, d);
    if right :| right in placed && d in PairFindings(left, right) {
      var i :| 0 <= i < |placed| && placed[i] == right;
      assert d in parts[i];
    }
  }

  ghost predicate PlaceFault(mounts: seq<Json>, workspace: Option<Path>, d: Diagnostic) {
    || (workspace.Some?
        && exists i, target :: 0 <= i < |mounts| && WorkspaceFault(mounts, workspace.value, i, target, d))
    || (exists i, j, left, right :: 0 <= i < j < |mounts| && OverlapFault(mounts, i, j, left, right, d))
  }

  lemma FoundAtWorkspace(mounts: seq<Json>, workspace: Option<Path>, left: Placed, d: Diagnostic)
    requires left in PlacedAll(mounts, |mounts|)
    ensures d in MismatchFindings(left, workspace) + WorkspaceOverlapFindings(left, workspace) <==>
              && workspace.Some? && left.index < |mounts|
              && WorkspaceFault(mounts, workspace.value, left.index, left.target, d)
  {
    hide PlacedOf, Lies, IsWorkspaceMount, PathsOverlap, SubtreesMeet, PlacedAll, Text.DigitsOf;
    InPlaced(mounts, left);
    LiesIsPlaced(mounts[left.index], left.index, left.target);
    if workspace.Some? { OverlapIsSharedSubtree(left.target, workspace.value); }
  }

  lemma FoundInPair(mounts: seq<Json>, left: Placed, right: Placed, d: Diagnostic)
    requires left in PlacedAll(mounts, |mounts|) && right in PlacedAll(mounts, |mounts|)
    ensures d in PairFindings(left, right) <==>
              && left.index < right.index < |mounts|
              && OverlapFault(mounts, left.index, right.index, left.target, right.target, d)
  {
    hide PlacedOf, Lies, IsWorkspaceMount, PathsOverlap, SubtreesMeet, PlacedAll, Text.DigitsOf;
    InPlaced(mounts, left);
    InPlaced(mounts, right);
    LiesIsPlaced(mounts[left.index], left.index, left.target);
    LiesIsPlaced(mounts[right.index], right.index, right.target);
    OverlapIsSharedSubtree(left.target, right.target);
  }

  /** A legal target is among the collected places. */
  lemma PlaceOfLying(mounts: seq<Json>, i: nat, target: Path) returns (place: Placed)
    requires i < |mounts| && Lies(mounts[i], target)
    ensures place in PlacedAll(mounts, |mounts|) && place.index == i && place.target == target
  {
    hide Lies, PlacedOf, PlacedAll;
    LiesIsPlaced(mounts[i], i, target);
    place := PlacedOf(mounts[i], i).value;
    InPlaced(mounts, place);
  }

  lemma FoundPlacesHaveReasons(mounts: seq<Json>, workspace: Option<Path>, d: Diagnostic)
    requires d in LeftFindings(PlacedAll(mounts, |mounts|), |PlacedAll(mounts, |mounts|)|, workspace)
    ensures PlaceFault(mounts, workspace, d)
  {
    hide PlacedAll, LeftFindings, RightFindings, MismatchFindings, WorkspaceOverlapFindings, PairFindings;
    hide WorkspaceFault, OverlapFault;
    var placed := PlacedAll(mounts, |mounts|);
    InLefts(placed, workspace, d);
    var left :| left in placed && d in OneLeft(left, placed, workspace);
    FoundAtWorkspace(mounts, workspace, left, d);
    InRights(left, placed, d);
    if d in RightFindings(left, placed, |placed|) {
      var right :| right in placed && d in PairFindings(left, right);
      FoundInPair(mounts, left, right, d);
    }
  }

  lemma PlaceFaultsAreFound(mounts: seq<Json>, workspace: Option<Path>, d: Diagnostic)
    requires PlaceFault(mounts, workspace, d)
    ensures d in LeftFindings(PlacedAll(mounts, |mounts|), |PlacedAll(mounts, |mounts|)|, workspace)
  {
    hide PlacedAll, LeftFindings, RightFindings, MismatchFindings, WorkspaceOverlapFindings, PairFindings, Lies;
    var placed := PlacedAll(mounts, |mounts|);
    InLefts(placed, workspace, d);
    if i, target :| workspace.Some? && 0 <= i < |mounts| && WorkspaceFault(mounts, workspace.value, i, target, d) {
      var left := PlaceOfLying(mounts, i, target);
      FoundAtWorkspace(mounts, workspace, left, d);
      assert d in OneLeft(left, placed, workspace);
    } else {
      var i, j, p, q :| 0 <= i < j < |mounts| && OverlapFault(mounts, i, j, p, q, d);
      var left := PlaceOfLying(mounts, i, p);
      var right := PlaceOfLying(mounts, j, q);
      FoundInPair(mounts, left, right, d);
      InRights(left, placed, d);
      assert d in OneLeft(left, placed, workspace);
    }
  }

  lemma WorkspacesTwice(mounts: seq<Json>)
    ensures WorkspaceCount(mounts, |mounts|) > 1 <==>
              exists i, j :: 0 <= i < j < |mounts| && IsWorkspaceMount(mounts[i]) && IsWorkspaceMount(mounts[j])
  {
    hide IsWorkspace, IsWorkspaceMount;
    WorkspacesCounted(mounts, |mounts|);
    assert mounts[..|mounts|] == mounts;
    forall i | 0 <= i < |mounts|
      ensures IsWorkspace(mounts[i]) <==> IsWorkspaceMount(mounts[i])
    {
      LiesIsPlaced(mounts[i], i, []);
    }
  }

  lemma BetweenFindingsHaveReasons(mounts: seq<Json>, workspace: Option<Path>, d: Diagnostic)
    ensures d in BetweenFindings(mounts, workspace) <==> BetweenFault(mounts, workspace, d)
  {
    hide WorkspaceFault, OverlapFault, LeftFindings, PlacedAll, Distinct, IsWorkspaceMount, SameName, NoneTwice;
    DistinctCounts(Names(mounts, |mounts|));
    PresentTwice(NameOptions(mounts), |mounts|);
    WorkspacesTwice(mounts);
    if PlaceFault(mounts, workspace, d) { PlaceFaultsAreFound(mounts, workspace, d); }
    if d in LeftFindings(PlacedAll(mounts, |mounts|), |PlacedAll(mounts, |mounts|)|, workspace) {
      FoundPlacesHaveReasons(mounts, workspace, d);
    }
  }

  // ----- The whole list --------------------------------------------------------------------------------

  /** What is wrong with the mounts of a document. */
  ghost predicate Fault(value: Option<Json>, workspace: Option<Path>, d: Diagnostic) {
    if value.None? then false
    else if !value.value.Arr? then d == Error("invalid_type", "/spec/mounts")
    else
      var mounts := value.value.items;
      || (d == Error("invalid_item_count", "/spec/mounts") && |mounts| > 64)
      || (exists i :: 0 <= i < |mounts| && MountFault(mounts[i], i, d))
      || BetweenFault(mounts, workspace, d)
  }

  lemma ListHasReasons(mounts: seq<Json>, workspace: Option<Path>, d: Diagnostic)
    ensures d in ListFindings(mounts, workspace) <==>
              || (d == Error("invalid_item_count", "/spec/mounts") && |mounts| > 64)
              || (exists i :: 0 <= i < |mounts| && MountFault(mounts[i], i, d))
              || BetweenFault(mounts, workspace, d)
  {
    hide MountFault, BetweenFault, MountFindings, BetweenFindings;
    InConcat(FoundInEach(mounts), |mounts|, d);
    BetweenFindingsHaveReasons(mounts, workspace, d);
    forall i | 0 <= i < |mounts|
      ensures d in MountFindings(mounts[i], i) <==> MountFault(mounts[i], i, d)
    {
      MountFindingsHaveReasons(mounts[i], i, d);
    }
  }

  /** Everything the validation finds on the mounts, code and place, is wrong with
      them, and everything wrong with them is found. */
  lemma FindingsHaveReasons(value: Option<Json>, workspace: Option<Path>, d: Diagnostic)
    ensures d in Findings(value, workspace) <==> Fault(value, workspace, d)
  {
    hide ListFindings, MountFault, BetweenFault;
    ListHasReasons(if value.Some? && value.value.Arr? then value.value.items else [], workspace, d);
    if value.None? { NoMountsNoFault(workspace, d); }
  }

  lemma NoMountsNoFault(workspace: Option<Path>, d: Diagnostic)
    ensures !BetweenFault([], workspace, d)
  {
  }
}
