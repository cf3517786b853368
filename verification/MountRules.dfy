/** What the mount checks amount to: they find nothing exactly when the mounts
    are lawful, and the validator's verdict says so as long as the cap on
    diagnostics has not been reached. */
module MountRules {
  import opened Wrappers
  import opened Json
  import opened Mounts
  import Text
  import Units

  // ----- Lawful mounts ---------------------------------------------------------------

  /** Nothing below the space, so no line break either, and no DEL. */
  predicate Printable(s: string) { forall i :: 0 <= i < |s| ==> 32 <= s[i] as int != 127 }

  predicate PlainString(j: Json, maximum: nat) { j.Str? && 1 <= |j.s| <= maximum && Printable(j.s) }

  const MOUNT_KINDS: set<string> := {"workspace", "cache", "tmpfs", "artifact"}

  ghost predicate LegalTarget(s: string) {
    exists p: Path :: p != [] && LegalPieces(p) && OutsideProtected(p) && s == Spelling(p)
  }

  predicate OutsideProtected(p: Path) {
    forall i :: 0 <= i < |PROTECTED| ==> !AtOrBelow(p, PROTECTED[i])
  }

  ghost predicate LawfulFields(fields: map<string, Json>)
    requires REQUIRED_KEYS <= fields.Keys
  {
    && PlainString(fields["name"], 63) && Text.IsName(fields["name"].s)
    && PlainString(fields["type"], 16) && fields["type"].s in MOUNT_KINDS
    && PlainString(fields["target"], 4096) && LegalTarget(fields["target"].s)
    && fields["readOnly"].Bool?
    && ("size" in fields ==> PlainString(fields["size"], 32) && Units.ParseQuantity(fields["size"].s).Some?)
    && (fields["type"].s == "tmpfs" ==> "size" in fields)
  }

  ghost predicate LawfulMount(mount: Json) {
    mount.Obj? && REQUIRED_KEYS <= mount.fields.Keys <= MOUNT_KEYS && LawfulFields(mount.fields)
  }

  function Target(mount: Json): Path {
    if PlacedOf(mount, 0).Some? then PlacedOf(mount, 0).value.target else []
  }

  ghost predicate DistinctNames(mounts: seq<Json>) {
    forall i, j :: 0 <= i < j < |mounts| ==> MountName(mounts[i]) != MountName(mounts[j])
  }

  ghost predicate OneWorkspace(mounts: seq<Json>) {
    forall i, j :: 0 <= i < j < |mounts| ==> !(IsWorkspace(mounts[i]) && IsWorkspace(mounts[j]))
  }

  ghost predicate DisjointTargets(mounts: seq<Json>) {
    forall i, j :: 0 <= i < j < |mounts| ==> !SubtreesMeet(Target(mounts[i]), Target(mounts[j]))
  }

  /** The workspace mount is exactly the workspace directory; no other mount
      shares a path with it. */
  ghost predicate RespectsWorkspace(mount: Json, workspace: Option<Path>) {
    workspace.Some? ==>
      (if IsWorkspace(mount) then Target(mount) == workspace.value else !SubtreesMeet(Target(mount), workspace.value))
  }

  ghost predicate LawfulAll(mounts: seq<Json>) {
    forall i :: 0 <= i < |mounts| ==> LawfulMount(mounts[i])
  }

  ghost predicate AllRespectWorkspace(mounts: seq<Json>, workspace: Option<Path>) {
    forall i :: 0 <= i < |mounts| ==> RespectsWorkspace(mounts[i], workspace)
  }

  ghost predicate LawfulList(mounts: seq<Json>, workspace: Option<Path>) {
    && |mounts| <= 64 && LawfulAll(mounts)
    && DistinctNames(mounts) && OneWorkspace(mounts)
    && DisjointTargets(mounts) && AllRespectWorkspace(mounts, workspace)
  }

  ghost predicate Lawful(value: Option<Json>, workspace: Option<Path>) {
    value.None? || (value.value.Arr? && LawfulList(value.value.items, workspace))
  }

  // ----- One mount ---------------------------------------------------------------------

  lemma LegalTargetIsContainerPath(s: string)
    ensures LegalTarget(s) <==> ContainerPath(s).Some?
  {
    if ContainerPath(s).Some? {
      var p := ContainerPath(s).value;
      ContainerPathIsSpelling(s, p);
      ProtectedMeansBelow(p);
    }
    if LegalTarget(s) {
      var p: Path :| p != [] && LegalPieces(p) && OutsideProtected(p) && s == Spelling(p);
      ContainerPathIsSpelling(s, p);
      ProtectedMeansBelow(p);
    }
  }

  lemma NoKeys(keys: set<string>)
    ensures |Text.SortedKeys(keys)| == 0 <==> keys == {}
  {
    Text.SortedKeysProperties(keys);
  }

  lemma CleanShape(fields: map<string, Json>, path: string)
    ensures ShapeFindings(fields, path) == [] <==> REQUIRED_KEYS <= fields.Keys <= MOUNT_KEYS
  {
    NoKeys(REQUIRED_KEYS - fields.Keys);
    NoKeys(fields.Keys - MOUNT_KEYS);
  }

  lemma CleanString(value: Option<Json>, path: string, maximum: nat, pattern: string -> bool, kinds: string -> bool)
    ensures StringFindings(value, path, maximum, pattern, kinds) == []
       <==> value.Some? && PlainString(value.value, maximum) && pattern(value.value.s) && kinds(value.value.s)
    ensures StringFindings(value, path, maximum, pattern, kinds) == []
            ==> StringValue(value, maximum) == Some(value.value.s)
  {
  }

  lemma CleanSize(size: Option<Json>, kind: Option<string>, path: string)
    ensures SizeFindings(size, kind, path) == []
       <==> (size.Some? ==> PlainString(size.value, 32) && Units.ParseQuantity(size.value.s).Some?)
            && (kind == Some("tmpfs") ==> size.Some?)
  {
    CleanString(size, path, 32, IsQuantityNotation, AnyString);
  }

  lemma CleanFields(fields: map<string, Json>, path: string)
    requires REQUIRED_KEYS <= fields.Keys
    ensures FieldFindings(fields, path) == [] <==> LawfulFields(fields)
  {
    CleanString(Get(fields, "name"), path + "/name", 63, Text.IsName, AnyString);
    assert forall kind :: IsMountKind(kind) <==> kind in MOUNT_KINDS;
    CleanString(Get(fields, "type"), path + "/type", 16, AnyString, IsMountKind);
    CleanString(Get(fields, "target"), path + "/target", 4096, AnyString, AnyString);
    CleanSize(Get(fields, "size"), KindOf(fields), path + "/size");
    if TargetOf(fields).Some? { LegalTargetIsContainerPath(TargetOf(fields).value); }
  }

  lemma CleanMount(mount: Json, index: nat)
    ensures MountFindings(mount, index) == [] <==> LawfulMount(mount)
  {
    if mount.Obj? {
      CleanShape(mount.fields, MountPath(index));
      if REQUIRED_KEYS <= mount.fields.Keys {
        CleanFields(mount.fields, MountPath(index));
      }
    }
  }

  /** `place` records the position, target and kind of `mount`. */
  predicate IsPlacedAs(place: Placed, mount: Json, index: nat) {
    place.index == index && place.target == Target(mount) && (place.kind == "workspace" <==> IsWorkspace(mount))
  }

  lemma LawfulCollects(mount: Json, index: nat)
    requires LawfulMount(mount)
    ensures MountName(mount).Some? && PlacedOf(mount, index).Some?
    ensures IsPlacedAs(PlacedOf(mount, index).value, mount, index)
  {
    LegalTargetIsContainerPath(mount.fields["target"].s);
  }

  // ----- All mounts --------------------------------------------------------------------

  lemma CleanEach(mounts: seq<Json>)
    ensures EachFindings(mounts, |mounts|) == [] <==> LawfulAll(mounts)
  {
    var parts := FoundInEach(mounts);
    forall i | 0 <= i < |mounts|
      ensures parts[i] == [] <==> LawfulMount(mounts[i])
    {
      CleanMount(mounts[i], i);
    }
    if Concat(parts, |mounts|) == [] { ConcatEmpty(parts, |mounts|); }
  }

  lemma CollectedFromLawful(mounts: seq<Json>)
    requires LawfulAll(mounts)
    ensures |Names(mounts, |mounts|)| == |mounts| == |PlacedAll(mounts, |mounts|)|
    ensures forall i :: 0 <= i < |mounts| ==> MountName(mounts[i]) == Some(Names(mounts, |mounts|)[i])
    ensures forall i :: 0 <= i < |mounts| ==> IsPlacedAs(PlacedAll(mounts, |mounts|)[i], mounts[i], i)
  {
    forall i | 0 <= i < |mounts|
      ensures NameOptions(mounts)[i].Some? && PlacedOptions(mounts)[i].Some?
      ensures IsPlacedAs(PlacedOptions(mounts)[i].value, mounts[i], i)
    {
      LawfulCollects(mounts[i], i);
    }
    AllPresent(NameOptions(mounts), |mounts|);
    AllPresent(PlacedOptions(mounts), |mounts|);
  }

  lemma DistinctOneMore(front: seq<string>, last: string)
    ensures Distinct(front + [last]) == Distinct(front) + {last}
  {
  }

  predicate NoneTwice(names: seq<string>) {
    forall i, j :: 0 <= i < j < |names| ==> names[i] != names[j]
  }

  lemma NoneTwiceOneMore(front: seq<string>, last: string)
    ensures NoneTwice(front + [last]) <==> NoneTwice(front) && last !in front
  {
    var names := front + [last];
    assert forall i :: 0 <= i < |front| ==> names[i] == front[i];
    assert names[|front|] == last;
  }

  /** As many distinct names as names exactly when no two are equal. */
  lemma {:induction false} DistinctCounts(names: seq<string>)
    ensures |Distinct(names)| <= |names|
    ensures |Distinct(names)| == |names| <==> NoneTwice(names)
  {
    if names == [] {
    } else {
      hide NoneTwice;
      var front, last := names[..|names| - 1], names[|names| - 1];
      assert names == front + [last];
      DistinctCounts(front);
      DistinctOneMore(front, last);
      NoneTwiceOneMore(front, last);
      if last in front {
        assert Distinct(names) == Distinct(front);
      } else {
        assert |Distinct(names)| == |Distinct(front)| + 1;
      }
    }
  }

  lemma {:induction false} WorkspacesCounted(mounts: seq<Json>, n: nat)
    requires n <= |mounts|
    ensures WorkspaceCount(mounts, n) == 0 <==> forall i :: 0 <= i < n ==> !IsWorkspace(mounts[i])
    ensures WorkspaceCount(mounts, n) <= 1 <==> OneWorkspace(mounts[..n])
  {
    hide KindOf;
    if n == 0 {
    } else {
      WorkspacesCounted(mounts, n - 1);
      var front, all := mounts[..n - 1], mounts[..n];
      assert forall i :: 0 <= i < n - 1 ==> front[i] == all[i] == mounts[i];
      if WorkspaceCount(mounts, n) <= 1 {
        assert OneWorkspace(all);
      } else if WorkspaceCount(mounts, n - 1) <= 1 {
        var i :| 0 <= i < n - 1 && IsWorkspace(mounts[i]);
        assert IsWorkspace(all[i]) && IsWorkspace(all[n - 1]);
      } else {
        var i, j :| 0 <= i < j < |front| && IsWorkspace(front[i]) && IsWorkspace(front[j]);
        assert IsWorkspace(all[i]) && IsWorkspace(all[j]);
      }
    }
  }

  lemma CleanRights(left: Placed, all: seq<Placed>)
    ensures RightFindings(left, all, |all|) == []
       <==> forall j :: 0 <= j < |all| ==> all[j].index <= left.index || !SubtreesMeet(left.target, all[j].target)
  {
    var parts := RightParts(left, all);
    forall j | 0 <= j < |all|
      ensures parts[j] == [] <==> all[j].index <= left.index || !SubtreesMeet(left.target, all[j].target)
    {
      OverlapIsSharedSubtree(left.target, all[j].target);
    }
    if Concat(parts, |all|) == [] { ConcatEmpty(parts, |all|); }
  }

  ghost predicate CleanLeft(left: Placed, all: seq<Placed>, workspace: Option<Path>) {
    && (forall j :: 0 <= j < |all| ==> all[j].index <= left.index || !SubtreesMeet(left.target, all[j].target))
    && (workspace.Some? ==>
          (if left.kind == "workspace" then left.target == workspace.value
           else !SubtreesMeet(left.target, workspace.value)))
  }

  lemma CleanOneLeft(left: Placed, all: seq<Placed>, workspace: Option<Path>)
    ensures OneLeft(left, all, workspace) == [] <==> CleanLeft(left, all, workspace)
  {
    CleanRights(left, all);
    if workspace.Some? { OverlapIsSharedSubtree(left.target, workspace.value); }
  }

  lemma CleanLefts(all: seq<Placed>, workspace: Option<Path>)
    ensures LeftFindings(all, |all|, workspace) == []
            <==> forall i :: 0 <= i < |all| ==> CleanLeft(all[i], all, workspace)
  {
    var parts := LeftParts(all, workspace);
    forall i | 0 <= i < |all|
      ensures parts[i] == [] <==> CleanLeft(all[i], all, workspace)
    {
      CleanOneLeft(all[i], all, workspace);
    }
    if Concat(parts, |all|) == [] { ConcatEmpty(parts, |all|); }
  }

  lemma PlacesLawful(mounts: seq<Json>, all: seq<Placed>, workspace: Option<Path>)
    requires |all| == |mounts|
    requires forall i :: 0 <= i < |mounts| ==> IsPlacedAs(all[i], mounts[i], i)
    ensures (forall i :: 0 <= i < |all| ==> CleanLeft(all[i], all, workspace))
       <==> DisjointTargets(mounts) && AllRespectWorkspace(mounts, workspace)
  {
    if forall i :: 0 <= i < |all| ==> CleanLeft(all[i], all, workspace) {
      forall i, j | 0 <= i < j < |mounts|
        ensures !SubtreesMeet(Target(mounts[i]), Target(mounts[j]))
      {
        assert CleanLeft(all[i], all, workspace) && all[j].index > all[i].index;
      }
      forall i | 0 <= i < |mounts|
        ensures RespectsWorkspace(mounts[i], workspace)
      {
        assert CleanLeft(all[i], all, workspace);
      }
    }
  }

  lemma CleanNames(mounts: seq<Json>, names: seq<string>)
    requires |names| == |mounts| && forall i :: 0 <= i < |mounts| ==> MountName(mounts[i]) == Some(names[i])
    ensures |names| == |Distinct(names)| <==> DistinctNames(mounts)
  {
    DistinctCounts(names);
    assert DistinctNames(mounts) <==> forall i, j :: 0 <= i < j < |names| ==> names[i] != names[j];
  }

  lemma CleanBetween(mounts: seq<Json>, workspace: Option<Path>)
    requires LawfulAll(mounts)
    ensures BetweenFindings(mounts, workspace) == []
       <==> DistinctNames(mounts) && OneWorkspace(mounts) && DisjointTargets(mounts)
            && AllRespectWorkspace(mounts, workspace)
  {
    hide DistinctNames, OneWorkspace, DisjointTargets, LawfulMount, CleanLeft;
    var names, placed := Names(mounts, |mounts|), PlacedAll(mounts, |mounts|);
    CollectedFromLawful(mounts);
    CleanNames(mounts, names);
    WorkspacesCounted(mounts, |mounts|);
    assert mounts[..|mounts|] == mounts;
    CleanLefts(placed, workspace);
    PlacesLawful(mounts, placed, workspace);
  }

  lemma CleanList(mounts: seq<Json>, workspace: Option<Path>)
    ensures ListFindings(mounts, workspace) == [] <==> LawfulList(mounts, workspace)
  {
    CleanEach(mounts);
    if LawfulAll(mounts) {
      CleanBetween(mounts, workspace);
    }
  }

  /** The checks find nothing exactly when the mounts are lawful. */
  lemma CleanMeansLawful(value: Option<Json>, workspace: Option<Path>)
    ensures Findings(value, workspace) == [] <==> Lawful(value, workspace)
  {
    if value.None? {
      CleanList([], workspace);
    } else if value.value.Arr? {
      CleanList(value.value.items, workspace);
    }
  }

  // ----- The verdict --------------------------------------------------------------------

  /** Errors behind a list of warnings are seen exactly while the list has room. */
  lemma CappedVerdict(prior: seq<Diagnostic>, found: seq<Diagnostic>)
    requires |prior| <= MAX_DIAGNOSTICS && !HasErrors(prior) && AllErrors(found)
    ensures HasErrors(Capped(prior + found)) <==> found != [] && |prior| < MAX_DIAGNOSTICS
  {
    var after := Capped(prior + found);
    if found == [] {
      assert prior + found == prior;
    } else if |prior| < MAX_DIAGNOSTICS {
      assert after[|prior|] == found[0];
    } else {
      assert after == prior;
    }
  }

  /** With no error before the mounts, the verdict on them is right exactly when
      the cap was not yet reached or the mounts are lawful anyway. */
  lemma VerdictIsRight(prior: seq<Diagnostic>, value: Option<Json>, workspace: Option<Path>)
    requires |prior| <= MAX_DIAGNOSTICS && !HasErrors(prior)
    ensures (HasErrors(Capped(prior + Findings(value, workspace))) <==> !Lawful(value, workspace))
       <==> |prior| < MAX_DIAGNOSTICS || Lawful(value, workspace)
  {
    CleanMeansLawful(value, workspace);
    CappedVerdict(prior, Findings(value, workspace));
  }

  lemma UncappedErrors(prior: seq<Diagnostic>, found: seq<Diagnostic>, later: seq<Diagnostic>)
    requires AllErrors(found) && found != [] && |Capped(prior + found + later)| < MAX_DIAGNOSTICS
    ensures HasErrors(Capped(prior + found + later))
  {
    var all := prior + found + later;
    assert Capped(all) == all && all[|prior|] == found[0];
  }

  /** A finished validation without an error and with fewer than a hundred
      diagnostics guarantees lawful mounts, whatever was found around them. */
  lemma FewDiagnosticsMeanLawful(prior: seq<Diagnostic>, value: Option<Json>, workspace: Option<Path>,
                                 later: seq<Diagnostic>)
    requires var final := Capped(prior + Findings(value, workspace) + later);
             |final| < MAX_DIAGNOSTICS && !HasErrors(final)
    ensures Lawful(value, workspace)
  {
    CleanMeansLawful(value, workspace);
    if Findings(value, workspace) != [] { UncappedErrors(prior, Findings(value, workspace), later); }
  }

  // ----- What a hundred warnings can hide ---------------------------------------------------

  /** The warnings for apt packages without a version. */
  function AptWarnings(packages: seq<string>): (found: seq<Diagnostic>)
    ensures !HasErrors(found) && |found| <= |packages|
  {
    if packages == [] then []
    else
      var last := |packages| - 1;
      AptWarnings(packages[..last])
      + (if '=' in packages[last] then []
         else [Diagnostic(false, "package_not_version_pinned", "/spec/build/apt/packages/" + Text.DigitsOf(last))])
  }

  ghost predicate WarnedAt(packages: seq<string>, i: nat, d: Diagnostic)
    requires i < |packages|
  {
    && '=' !in packages[i]
    && d == Diagnostic(false, "package_not_version_pinned", "/spec/build/apt/packages/" + Text.DigitsOf(i))
  }

  lemma LastPackageWarns(packages: seq<string>, d: Diagnostic)
    requires packages != []
    ensures var last := |packages| - 1;
            d in AptWarnings(packages) <==> d in AptWarnings(packages[..last]) || WarnedAt(packages, last, d)
  {
    hide Text.DigitsOf;
  }

  lemma WarnedInFront(packages: seq<string>, i: nat, d: Diagnostic)
    requires i < |packages| - 1
    ensures WarnedAt(packages[..|packages| - 1], i, d) <==> WarnedAt(packages, i, d)
  {
  }

  /** Exactly the packages without a version are warned about, each at its place. */
  lemma {:induction false} UnpinnedPackagesWarn(packages: seq<string>, d: Diagnostic)
    ensures d in AptWarnings(packages) <==> exists i :: 0 <= i < |packages| && WarnedAt(packages, i, d)
  {
    if packages == [] {
    } else {
      hide AptWarnings, WarnedAt;
      var last := |packages| - 1;
      var front := packages[..last];
      LastPackageWarns(packages, d);
      UnpinnedPackagesWarn(front, d);
      forall i | 0 <= i < last
        ensures WarnedAt(front, i, d) <==> WarnedAt(packages, i, d)
      {
        WarnedInFront(packages, i, d);
      }
    }
  }

  lemma {:induction false} EveryUnpinnedPackageWarns(packages: seq<string>)
    requires forall i :: 0 <= i < |packages| ==> '=' !in packages[i]
    ensures |AptWarnings(packages)| == |packages|
  {
    if packages == [] {
    } else {
      EveryUnpinnedPackageWarns(packages[..|packages| - 1]);
    }
  }

  /** Once a hundred warnings are listed, no mount is found at fault. */
  lemma WarningsHide(packages: seq<string>, value: Option<Json>, workspace: Option<Path>)
    requires |packages| == MAX_DIAGNOSTICS && forall i :: 0 <= i < |packages| ==> '=' !in packages[i]
    ensures !HasErrors(Capped(AptWarnings(packages) + Findings(value, workspace)))
  {
    hide AptWarnings, Findings;
    EveryUnpinnedPackageWarns(packages);
    assert Capped(AptWarnings(packages) + Findings(value, workspace)) == AptWarnings(packages);
  }

  function Packages(n: nat): (packages: seq<string>)
    ensures |packages| == n
    ensures forall i :: 0 <= i < n ==> packages[i] == "p" + Text.DigitsOf(i)
  {
    if n == 0 then [] else Packages(n - 1) + ["p" + Text.DigitsOf(n - 1)]
  }

  lemma PackageNamesDiffer(i: nat, j: nat)
    requires i != j
    ensures "p" + Text.DigitsOf(i) != "p" + Text.DigitsOf(j)
  {
    if Text.DigitsOf(i) == Text.DigitsOf(j) { Text.DigitsInjective(i, j); }
    assert ("p" + Text.DigitsOf(i))[1..] == Text.DigitsOf(i) && ("p" + Text.DigitsOf(j))[1..] == Text.DigitsOf(j);
  }

  lemma UnpinnedPackages(n: nat) returns (packages: seq<string>)
    ensures |packages| == n && forall i :: 0 <= i < n ==> '=' !in packages[i]
    ensures forall i, j :: 0 <= i < j < n ==> packages[i] != packages[j]
  {
    packages := Packages(n);
    forall i, j | 0 <= i < j < n
      ensures packages[i] != packages[j]
    {
      PackageNamesDiffer(i, j);
    }
    forall i | 0 <= i < n
      ensures '=' !in packages[i]
    {
      assert Text.AllDigits(Text.DigitsOf(i));
    }
  }

  function MountAt(target: string): Json {
    Obj(map["name" := Str("extra"), "type" := Str("cache"), "target" := Str(target), "readOnly" := Bool(false)])
  }

  lemma ProtectedTarget()
    ensures !LegalTarget("/etc")
  {
    hide Split, DoubleSlash;
    var p: Path := ["etc"];
    assert Spelling(p) == "/" + "etc" + Spelling(p[1..]) == "/etc";
    SpellingShape(p);
    SplitOfSpelling(p);
    SplitOfAbsolute("/etc");
    assert PROTECTED[3] == p;
    LegalTargetIsContainerPath("/etc");
  }

  /** One cache mount over /etc. */
  function ProtectedMounts(): Json { Arr([MountAt("/etc")]) }

  lemma MountAtProtected(workspace: Option<Path>)
    ensures !Lawful(Some(ProtectedMounts()), workspace)
  {
    hide LegalTarget, DistinctNames, OneWorkspace, DisjointTargets, AllRespectWorkspace;
    ProtectedTarget();
    assert !LawfulMount(ProtectedMounts().items[0]);
  }

  /** One hundred distinct unpinned packages hide a mount over /etc, wherever the
      workspace is. */
  lemma WarningsHideProtectedMount(workspace: Option<Path>) returns (packages: seq<string>)
    ensures |packages| == MAX_DIAGNOSTICS
    ensures forall i, j :: 0 <= i < j < |packages| ==> packages[i] != packages[j]
    ensures !HasErrors(Capped(AptWarnings(packages) + Findings(Some(ProtectedMounts()), workspace)))
    ensures !Lawful(Some(ProtectedMounts()), workspace)
  {
    hide Capped, Findings, Lawful, ProtectedMounts, HasErrors;
    packages := UnpinnedPackages(MAX_DIAGNOSTICS);
    WarningsHide(packages, Some(ProtectedMounts()), workspace);
    MountAtProtected(workspace);
  }
}
