/** One complete Hermesfile, written out: the field rules and the graph bounds
    accept it, and the defaults then carry it past the node limit. */
module CanonicalSample {
  import opened Wrappers
  import opened Json
  import opened JsonWalk
  import opened Normalizer
  import opened CanonicalForm
  import opened CanonicalTree
  import Text
  import Units

  // ----- The document ----------------------------------------------------------------------

  function Words(prefix: string, n: nat): (words: seq<string>)
    ensures |words| == n
  {
    seq(n, i requires 0 <= i < n => prefix + Text.DigitsOf(i))
  }

  /** The members of a command beside its timeout. */
  function Step(i: nat, arguments: nat): Json {
    Put(Put(EMPTY, "name", Str("step" + Text.DigitsOf(i))), "run", Strings(Words("a", arguments)))
  }

  function Check(i: nat, arguments: nat): Json { Put(Step(i, arguments), "expectExitCode", Int(0)) }

  function Steps(n: nat, arguments: nat): seq<Command> {
    seq(n, i requires 0 <= i < n => Command("1s", Step(i, arguments)))
  }

  function Checks(n: nat, arguments: nat): seq<Command> {
    seq(n, i requires 0 <= i < n => Command("1s", Check(i, arguments)))
  }

  const BASE := Put(Put(EMPTY, "image", Str("python")), "digest",
                    Str("sha256:aaaaaaaaaaaaaaaaaaaaaaaaaaaaaaaaaaaaaaaaaaaaaaaaaaaaaaaaaaaaaaaa"))

  const METADATA := Put(EMPTY, "name", Str("sample"))

  const ROOT := Put(Put(Put(EMPTY, "apiVersion", Str("hermesops.dev/v1")), "kind", Str("SandboxProfile")), "metadata",
                    METADATA)

  const PIDS := Put(EMPTY, "pids", Int(512))

  const WORKSPACE := Put(Put(Put(Put(EMPTY, "user", Str("hermes")), "group", Str("hermes")),
                             "directory", Str("/workspace")), "sourceMode", Str("worktree"))

  const POLICY := Put(Put(EMPTY, "mode", Str("none")), "allow", Strings([]))

  const NETWORK := Put(Put(EMPTY, "build", POLICY), "runtime", POLICY)

  const CAPABILITIES := Put(Put(EMPTY, "drop", Strings(["ALL"])), "add", Strings([]))

  const FLAGS := Put(Put(Put(Put(EMPTY, "privileged", Bool(false)), "noNewPrivileges", Bool(true)),
                         "readOnlyRoot", Bool(false)), "secrets", Bool(false))

  const SECURITY := Put(Put(Put(Put(FLAGS, "allowDockerSocket", Bool(false)), "allowDeviceAccess", Bool(false)),
                            "seccompProfile", Str("default")), "capabilities", CAPABILITIES)

  const SPEC := Put(Put(Put(EMPTY, "workspace", WORKSPACE), "network", NETWORK), "security", SECURITY)

  /** `checks` validation commands and `steps` build steps with so many arguments each. */
  function Sample(checks: nat, arguments: nat, steps: nat, words: nat): Document {
    Document(Base(None, BASE), Some(Build(None, None, None, None, Some(Steps(steps, words)))),
             Runtime(Whole(1), "1KiB", None, "1s", "1s", PIDS), None, Checks(checks, arguments), SPEC, ROOT)
  }

  // ----- Counting it --------------------------------------------------------------------------

  /** `n` nodes, none more than `height` below the top. */
  ghost predicate Sized(j: Json, n: nat, height: nat) {
    Nodes(j) == n && forall depth: nat, maximum: nat :: depth + height <= maximum ==> Within(j, depth, maximum)
  }

  lemma ScalarSized(j: Json, height: nat)
    requires Scalar(j)
    ensures Sized(j, 1, height)
  {
  }

  lemma EmptySized(height: nat)
    ensures Sized(EMPTY, 1, height)
  {
  }

  lemma AddMember(j: Json, key: string, value: Json, n: nat, m: nat, height: nat)
    requires Free(j, key) && Sized(j, n, height + 1) && Sized(value, m, height)
    ensures Sized(Put(j, key, value), n + m, height + 1)
  {
    PutNodes(j, key, value);
    forall depth: nat, maximum: nat | depth + height + 1 <= maximum
      ensures Within(Put(j, key, value), depth, maximum)
    {
      PutWithin(j, key, value, depth, maximum);
    }
  }

  lemma AddScalar(j: Json, key: string, value: Json, n: nat, height: nat)
    requires Free(j, key) && Sized(j, n, height + 1) && Scalar(value)
    ensures Sized(Put(j, key, value), n + 1, height + 1)
  {
    ScalarSized(value, height);
    AddMember(j, key, value, n, 1, height);
  }

  lemma {:induction false} EqualItems(j: Json, n: nat, k: nat)
    requires j.Arr? && n <= |j.items| && forall i :: 0 <= i < n ==> Nodes(j.items[i]) == k
    ensures ItemNodes(j, n) == n * k
  {
    if n == 0 {
    } else {
      EqualItems(j, n - 1, k);
      assert n * k == (n - 1) * k + k;
    }
  }

  lemma ArraySized(j: Json, n: nat, k: nat, height: nat)
    requires j.Arr? && |j.items| == n && forall i :: 0 <= i < n ==> Sized(j.items[i], k, height)
    ensures Sized(j, 1 + n * k, height + 1)
  {
    EqualItems(j, n, k);
  }

  lemma StringsSized(items: seq<string>, height: nat)
    ensures Sized(Strings(items), 1 + |items|, height + 1)
  {
    ArraySized(Strings(items), |items|, 1, height);
  }

  lemma StepSized(i: nat, arguments: nat, height: nat)
    ensures Sized(Step(i, arguments), 3 + arguments, height + 2)
  {
    EmptySized(height + 2);
    AddScalar(EMPTY, "name", Str("step" + Text.DigitsOf(i)), 1, height + 1);
    StringsSized(Words("a", arguments), height);
    AddMember(Put(EMPTY, "name", Str("step" + Text.DigitsOf(i))), "run", Strings(Words("a", arguments)),
              2, 1 + arguments, height + 1);
  }

  lemma StepsSized(n: nat, arguments: nat, height: nat)
    ensures Sized(CommandsTree(Steps(n, arguments)), 1 + n * (4 + arguments), height + 3)
    ensures TimeoutsFree(Steps(n, arguments))
  {
    forall i | 0 <= i < n
      ensures Sized(CommandTree(Steps(n, arguments)[i]), 4 + arguments, height + 2)
    {
      StepSized(i, arguments, height);
      AddScalar(Step(i, arguments), "timeout", Str("1s"), 3 + arguments, height + 1);
    }
    ArraySized(CommandsTree(Steps(n, arguments)), n, 4 + arguments, height + 2);
  }

  lemma ChecksSized(n: nat, arguments: nat, height: nat)
    ensures Sized(CommandsTree(Checks(n, arguments)), 1 + n * (5 + arguments), height + 3)
    ensures TimeoutsFree(Checks(n, arguments))
  {
    forall i | 0 <= i < n
      ensures Sized(CommandTree(Checks(n, arguments)[i]), 5 + arguments, height + 2)
    {
      StepSized(i, arguments, height);
      AddScalar(Step(i, arguments), "expectExitCode", Int(0), 3 + arguments, height + 1);
      AddScalar(Check(i, arguments), "timeout", Str("1s"), 4 + arguments, height + 1);
    }
    ArraySized(CommandsTree(Checks(n, arguments)), n, 5 + arguments, height + 2);
  }

  lemma BaseSized(height: nat)
    ensures Sized(BASE, 3, height + 1)
  {
    EmptySized(height + 1);
    AddScalar(EMPTY, "image", Str("python"), 1, height);
    AddScalar(Put(EMPTY, "image", Str("python")), "digest",
              Str("sha256:aaaaaaaaaaaaaaaaaaaaaaaaaaaaaaaaaaaaaaaaaaaaaaaaaaaaaaaaaaaaaaaa"), 2, height);
  }

  lemma RootSized(height: nat)
    ensures Sized(ROOT, 5, height + 2)
  {
    EmptySized(height + 1);
    AddScalar(EMPTY, "name", Str("sample"), 1, height);
    EmptySized(height + 2);
    AddScalar(EMPTY, "apiVersion", Str("hermesops.dev/v1"), 1, height + 1);
    var version := Put(EMPTY, "apiVersion", Str("hermesops.dev/v1"));
    AddScalar(version, "kind", Str("SandboxProfile"), 2, height + 1);
    AddMember(Put(version, "kind", Str("SandboxProfile")), "metadata", METADATA, 3, 2, height + 1);
  }

  lemma WorkspaceSized(height: nat)
    ensures Sized(WORKSPACE, 5, height + 1)
  {
    EmptySized(height + 1);
    AddScalar(EMPTY, "user", Str("hermes"), 1, height);
    var user := Put(EMPTY, "user", Str("hermes"));
    AddScalar(user, "group", Str("hermes"), 2, height);
    var group := Put(user, "group", Str("hermes"));
    AddScalar(group, "directory", Str("/workspace"), 3, height);
    AddScalar(Put(group, "directory", Str("/workspace")), "sourceMode", Str("worktree"), 4, height);
  }

  lemma NetworkSized(height: nat)
    ensures Sized(NETWORK, 7, height + 3)
  {
    EmptySized(height + 2);
    AddScalar(EMPTY, "mode", Str("none"), 1, height + 1);
    StringsSized([], height);
    AddMember(Put(EMPTY, "mode", Str("none")), "allow", Strings([]), 2, 1, height + 1);
    EmptySized(height + 3);
    AddMember(EMPTY, "build", POLICY, 1, 3, height + 2);
    AddMember(Put(EMPTY, "build", POLICY), "runtime", POLICY, 4, 3, height + 2);
  }

  lemma CapabilitiesSized(height: nat)
    ensures Sized(CAPABILITIES, 4, height + 2)
  {
    EmptySized(height + 2);
    StringsSized(["ALL"], height);
    AddMember(EMPTY, "drop", Strings(["ALL"]), 1, 2, height + 1);
    StringsSized([], height);
    AddMember(Put(EMPTY, "drop", Strings(["ALL"])), "add", Strings([]), 3, 1, height + 1);
  }

  lemma FlagsSized(height: nat)
    ensures Sized(FLAGS, 5, height + 1)
    ensures Free(FLAGS, "allowDockerSocket") && Free(FLAGS, "allowDeviceAccess") && Free(FLAGS, "seccompProfile")
    ensures Free(FLAGS, "capabilities")
  {
    EmptySized(height + 1);
    AddScalar(EMPTY, "privileged", Bool(false), 1, height);
    var one := Put(EMPTY, "privileged", Bool(false));
    AddScalar(one, "noNewPrivileges", Bool(true), 2, height);
    var two := Put(one, "noNewPrivileges", Bool(true));
    AddScalar(two, "readOnlyRoot", Bool(false), 3, height);
    AddScalar(Put(two, "readOnlyRoot", Bool(false)), "secrets", Bool(false), 4, height);
  }

  lemma SecuritySized(flags: Json, height: nat)
    requires flags == FLAGS
    ensures Sized(SECURITY, 12, height + 3)
  {
    FlagsSized(height + 2);
    AddScalar(flags, "allowDockerSocket", Bool(false), 5, height + 2);
    var one := Put(flags, "allowDockerSocket", Bool(false));
    AddScalar(one, "allowDeviceAccess", Bool(false), 6, height + 2);
    var two := Put(one, "allowDeviceAccess", Bool(false));
    AddScalar(two, "seccompProfile", Str("default"), 7, height + 2);
    CapabilitiesSized(height);
    AddMember(Put(two, "seccompProfile", Str("default")), "capabilities", CAPABILITIES, 8, 4, height + 2);
  }

  lemma SpecKeys(workspace: Json, network: Json, security: Json)
    ensures var one := Put(EMPTY, "workspace", workspace);
            var two := Put(one, "network", network);
            Free(EMPTY, "workspace") && Free(one, "network") && Free(two, "security")
            && SpecFree(Put(two, "security", security))
  {
  }

  lemma SpecSized(workspace: Json, network: Json, security: Json, height: nat)
    requires workspace == WORKSPACE && network == NETWORK && security == SECURITY
    ensures Sized(SPEC, 25, height + 4) && SpecFree(SPEC)
  {
    hide Sized, Put;
    SpecKeys(workspace, network, security);
    EmptySized(height + 4);
    WorkspaceSized(height + 2);
    AddMember(EMPTY, "workspace", workspace, 1, 5, height + 3);
    NetworkSized(height);
    AddMember(Put(EMPTY, "workspace", workspace), "network", network, 6, 7, height + 3);
    SecuritySized(FLAGS, height);
    AddMember(Put(Put(EMPTY, "workspace", workspace), "network", network), "security", security, 13, 12, height + 3);
  }

  function SampleRuntime(pids: Json): Runtime { Runtime(Whole(1), "1KiB", None, "1s", "1s", pids) }

  lemma RuntimeSized(pids: Json, height: nat)
    requires pids == PIDS
    ensures Sized(RuntimeTree(SampleRuntime(pids)), 6, height + 1) && RuntimeFree(pids)
  {
    EmptySized(height + 1);
    AddScalar(EMPTY, "pids", Int(512), 1, height);
    AddScalar(pids, "cpu", Int(1), 2, height);
    var cpu := Put(pids, "cpu", Int(1));
    AddScalar(cpu, "memory", Str("1KiB"), 3, height);
    var memory := Put(cpu, "memory", Str("1KiB"));
    AddScalar(memory, "timeout", Str("1s"), 4, height);
    AddScalar(Put(memory, "timeout", Str("1s")), "stopGracePeriod", Str("1s"), 5, height);
  }

  lemma BuildSized(n: nat, words: nat, height: nat)
    ensures Sized(BuildTree(Build(None, None, None, None, Some(Steps(n, words)))), 2 + n * (4 + words), height + 4)
  {
    EmptySized(height + 4);
    StepsSized(n, words, height);
    AddMember(EMPTY, "steps", CommandsTree(Steps(n, words)), 1, 1 + n * (4 + words), height + 3);
  }

  lemma ValidationSized(n: nat, arguments: nat, height: nat)
    ensures Sized(Put(EMPTY, "commands", CommandsTree(Checks(n, arguments))), 2 + n * (5 + arguments), height + 4)
  {
    EmptySized(height + 4);
    ChecksSized(n, arguments, height);
    AddMember(EMPTY, "commands", CommandsTree(Checks(n, arguments)), 1, 1 + n * (5 + arguments), height + 3);
  }

  lemma FourMembers(j: Json, validation: Json, runtime: Json, base: Json, build: Json,
                    n: nat, v: nat, r: nat, b: nat, u: nat, height: nat)
    requires SpecFree(j) && Sized(j, n, height + 1)
    requires Sized(validation, v, height) && Sized(runtime, r, height) && Sized(base, b, height)
             && Sized(build, u, height)
    ensures Sized(Put(RequiredMembers(j, validation, runtime, base), "build", build), n + v + r + b + u, height + 1)
  {
    AddMember(j, "validation", validation, n, v, height);
    var one := Put(j, "validation", validation);
    AddMember(one, "runtime", runtime, n + v, r, height);
    var two := Put(one, "runtime", runtime);
    AddMember(two, "base", base, n + v + r, b, height);
    AddMember(Put(two, "base", base), "build", build, n + v + r + b, u, height);
  }

  lemma SampleSpecSized(checks: nat, arguments: nat, steps: nat, words: nat)
    ensures Sized(SpecTree(Sample(checks, arguments, steps, words)),
                  38 + checks * (5 + arguments) + steps * (4 + words), 5)
  {
    hide Sized, Steps, Checks, CommandsTree, RequiredMembers, LimitsTree, SpecFree, RuntimeFree;
    var d := Sample(checks, arguments, steps, words);
    SpecSized(WORKSPACE, NETWORK, SECURITY, 1);
    ValidationSized(checks, arguments, 0);
    RuntimeSized(PIDS, 3);
    BaseSized(3);
    BuildSized(steps, words, 0);
    FourMembers(d.spec, Put(EMPTY, "commands", CommandsTree(d.commands)), RuntimeTree(d.runtime), BaseTree(d.base),
                BuildTree(d.build.value), 25, 2 + checks * (5 + arguments), 6, 3, 2 + steps * (4 + words), 4);
  }

  lemma SampleSized(checks: nat, arguments: nat, steps: nat, words: nat)
    ensures Sized(Tree(Sample(checks, arguments, steps, words)), 43 + checks * (5 + arguments) + steps * (4 + words), 6)
  {
    SampleSpecSized(checks, arguments, steps, words);
    RootSized(4);
    AddMember(ROOT, "spec", SpecTree(Sample(checks, arguments, steps, words)), 5,
              38 + checks * (5 + arguments) + steps * (4 + words), 5);
  }

  lemma SampleShaped(checks: nat, arguments: nat, steps: nat, words: nat)
    ensures Shaped(Sample(checks, arguments, steps, words))
  {
    hide Sized, Steps, Checks, TimeoutsFree, RuntimeFree, SpecFree;
    SpecSized(WORKSPACE, NETWORK, SECURITY, 0);
    RuntimeSized(PIDS, 0);
    ChecksSized(checks, arguments, 0);
    StepsSized(steps, words, 0);
  }

  // ----- Accepting it -----------------------------------------------------------------------------

  lemma OneSecond(s: string, ms: nat)
    requires s == "1s" && ms == 1000
    ensures DurationRule(s)
  {
    Units.ParseOfDurationText(ms);
    assert Units.DurationText(ms) == Text.DigitsOf(1) + "s";
  }

  lemma OneKibText(bytes: nat)
    requires bytes == 1024
    ensures Units.QuantityText(bytes) == Some("1KiB")
  {
    assert bytes / Units.KIB == 1 && Text.DigitsOf(1) == "1";
    assert Text.DigitsOf(1) + "KiB" == "1KiB";
  }

  lemma OneKib(s: string, bytes: nat)
    requires s == "1KiB" && bytes == 1024
    ensures SizeRule(s) && Bytes(s) == bytes
  {
    OneKibText(bytes);
    Units.ParseOfQuantityText(bytes);
  }

  lemma SampleRules(d: Document, memory: string, time: string)
    requires SizeRule(memory) && Bytes(memory) % 1024 == 0 && DurationRule(time)
    requires d.runtime == Runtime(Whole(1), memory, None, time, time, d.runtime.others)
    requires d.base.registry.None? && d.mounts.None? && BuildOf(d) == Build(None, None, None, None, Some(StepsOf(d)))
    requires 1 <= |d.commands| <= 128 && forall i :: 0 <= i < |d.commands| ==> d.commands[i].timeout == time
    requires |StepsOf(d)| <= 128 && forall i :: 0 <= i < |StepsOf(d)| ==> StepsOf(d)[i].timeout == time
    ensures FieldRules(d) && Canonical(d).Some?
  {
    CanonicalExists(d);
  }

  /** There are accepted documents, and they have canonical forms. */
  lemma SampleAccepted(checks: nat, arguments: nat, steps: nat, words: nat)
    requires 1 <= checks <= 128 && steps <= 128
    ensures FieldRules(Sample(checks, arguments, steps, words))
    ensures Canonical(Sample(checks, arguments, steps, words)).Some?
  {
    hide FieldRules, Canonical, SizeRule, DurationRule, Bytes;
    var d := Sample(checks, arguments, steps, words);
    OneSecond(d.runtime.timeout, 1000);
    OneKib(d.runtime.memory, 1024);
    SampleRules(d, d.runtime.memory, d.runtime.timeout);
  }

  /** And there are accepted documents that have none. */
  lemma AcceptedDocumentWithoutCanonicalForm() returns (d: Document)
    ensures FieldRules(d) && Canonical(d).None?
  {
    SampleAccepted(1, 1, 0, 0);
    d := Sample(1, 1, 0, 0);
    CanonicalForm.AcceptedWithoutCanonicalForm(d);
    d := d.(runtime := d.runtime.(memory := "1.5KiB"));
  }

  lemma SampleAdds(checks: nat, arguments: nat, steps: nat, words: nat)
    ensures AddedNodes(Sample(checks, arguments, steps, words)) == 3
  {
  }

  lemma FullIsInBounds(d: Document)
    requires Shaped(d) && Canonical(d).Some? && Sized(Tree(d), MAX_NODES, 6) && AddedNodes(d) > 0
    ensures InBounds(d) && !InBounds(Canonical(d).value)
  {
    BoundsKeptExactly(d);
  }

  /** How many commands of how many arguments, and how many steps of how many. */
  const CHECKS: nat := 128
  const ARGUMENTS: nat := 64
  const STEPS: nat := 25
  const WORDS: nat := 41

  function FullDocument(): Document { Sample(CHECKS, ARGUMENTS, STEPS, WORDS) }

  /** 128 commands of 64 arguments and 25 steps of 41 arguments make a document of
      exactly 10000 nodes. It is accepted; its canonical form, with a registry, an
      empty environment and an empty mount list filled in, has 10003. */
  lemma CanonicalFormPastTheLimit()
    ensures var d := FullDocument();
            && Shaped(d) && FieldRules(d) && InBounds(d) && Nodes(Tree(d)) == MAX_NODES
            && Canonical(d).Some? && AddedNodes(d) == 3 && !InBounds(Canonical(d).value)
  {
    hide Sample, Shaped, FieldRules, Canonical, Tree, AddedNodes, Within;
    SampleShaped(CHECKS, ARGUMENTS, STEPS, WORDS);
    SampleAccepted(CHECKS, ARGUMENTS, STEPS, WORDS);
    SampleSized(CHECKS, ARGUMENTS, STEPS, WORDS);
    SampleAdds(CHECKS, ARGUMENTS, STEPS, WORDS);
    FullIsInBounds(FullDocument());
  }
}
