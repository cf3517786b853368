/** The canonical form of a validated Hermesfile: defaults filled in, sizes and
    durations respelled, whole floats made integers. It is shown to be a complete
    normal form of what the document means. Members the source leaves alone are
    carried along as one value per node. */
module Normalizer {
  import opened Wrappers
  import opened Json
  import Units

  // ----- The document ------------------------------------------------------------------

  /** `cpu`: Python's int or float. */
  datatype Number = Whole(i: int) | Fraction(x: real)

  datatype Command = Command(timeout: string, others: Json)

  datatype Mount = Mount(size: Option<string>, others: Json)

  datatype Base = Base(registry: Option<string>, others: Json)

  datatype Apt = Apt(update: Option<bool>, packages: Option<seq<string>>)

  datatype Python = Python(interpreter: Option<string>, packages: Option<seq<string>>)

  datatype Node = Node(packageManager: Option<string>, packages: Option<seq<string>>)

  datatype Build = Build(apt: Option<Apt>, python: Option<Python>, node: Option<Node>,
                         environment: Option<map<string, string>>, steps: Option<seq<Command>>)

  datatype Runtime = Runtime(cpu: Number, memory: string, tmpfsSize: Option<string>, timeout: string,
                             stopGracePeriod: string, others: Json)

  /** `spec` holds the members of `spec` that are left alone, `others` those
      beside it; `commands` are the validation commands. */
  datatype Document = Document(base: Base, build: Option<Build>, runtime: Runtime, mounts: Option<seq<Mount>>,
                               commands: seq<Command>, spec: Json, others: Json)

  /** `setdefault`: the member's value from now on. */
  function Default<T>(member: Option<T>, value: T): T {
    if member.Some? then member.value else value
  }

  const EMPTY_BUILD := Build(None, None, None, None, None)

  // ----- The result, node by node ----------------------------------------------------------

  predicate IsDuration(s: string) { Units.CanonicalDuration(s).Some? }

  predicate IsSize(s: string) { Units.CanonicalQuantity(s).Some? }

  function Duration(s: string): string
    requires IsDuration(s)
  {
    Units.CanonicalDuration(s).value
  }

  function Size(s: string): string
    requires IsSize(s)
  {
    Units.CanonicalQuantity(s).value
  }

  function OptionalSize(s: Option<string>): Option<string>
    requires s.Some? ==> IsSize(s.value)
  {
    if s.None? then None else Some(Size(s.value))
  }

  predicate IsWhole(x: real) { x == x.Floor as real }

  function CanonicalCpu(cpu: Number): Number {
    if cpu.Fraction? && IsWhole(cpu.x) then Whole(cpu.x.Floor) else cpu
  }

  predicate CommandsConvert(commands: seq<Command>) {
    forall i :: 0 <= i < |commands| ==> IsDuration(commands[i].timeout)
  }

  function CanonicalCommands(commands: seq<Command>): (result: seq<Command>)
    requires CommandsConvert(commands)
    ensures |result| == |commands|
    ensures forall i :: 0 <= i < |commands| ==> result[i] == Command(Duration(commands[i].timeout), commands[i].others)
  {
    seq(|commands|, i requires 0 <= i < |commands| => Command(Duration(commands[i].timeout), commands[i].others))
  }

  predicate MountConverts(mount: Mount) { mount.size.Some? ==> IsSize(mount.size.value) }

  predicate MountsConvert(mounts: seq<Mount>) {
    forall i :: 0 <= i < |mounts| ==> MountConverts(mounts[i])
  }

  function CanonicalMounts(mounts: seq<Mount>): (result: seq<Mount>)
    requires MountsConvert(mounts)
    ensures |result| == |mounts|
    ensures forall i :: 0 <= i < |mounts| ==> result[i] == Mount(OptionalSize(mounts[i].size), mounts[i].others)
  {
    seq(|mounts|, i requires 0 <= i < |mounts| && MountConverts(mounts[i]) =>
      Mount(OptionalSize(mounts[i].size), mounts[i].others))
  }

  predicate RuntimeConverts(runtime: Runtime) {
    && IsSize(runtime.memory) && (runtime.tmpfsSize.Some? ==> IsSize(runtime.tmpfsSize.value))
    && IsDuration(runtime.timeout) && IsDuration(runtime.stopGracePeriod)
  }

  function CanonicalRuntime(runtime: Runtime): Runtime
    requires RuntimeConverts(runtime)
  {
    Runtime(CanonicalCpu(runtime.cpu), Size(runtime.memory), OptionalSize(runtime.tmpfsSize), Duration(runtime.timeout),
            Duration(runtime.stopGracePeriod), runtime.others)
  }

  function CanonicalApt(apt: Option<Apt>): Option<Apt> {
    if apt.None? then None else Some(Apt(Some(Default(apt.value.update, true)), Some(Default(apt.value.packages, []))))
  }

  function CanonicalPython(python: Option<Python>): Option<Python> {
    if python.None? then None
    else Some(Python(Some(Default(python.value.interpreter, "python3")), Some(Default(python.value.packages, []))))
  }

  function CanonicalNode(node: Option<Node>): Option<Node> {
    if node.None? then None
    else Some(Node(Some(Default(node.value.packageManager, "npm")), Some(Default(node.value.packages, []))))
  }

  function BuildOf(d: Document): Build { Default(d.build, EMPTY_BUILD) }

  function StepsOf(d: Document): seq<Command> { Default(BuildOf(d).steps, []) }

  function MountsOf(d: Document): seq<Mount> { Default(d.mounts, []) }

  predicate Converts(d: Document) {
    && CommandsConvert(StepsOf(d)) && RuntimeConverts(d.runtime)
    && MountsConvert(MountsOf(d)) && CommandsConvert(d.commands)
  }

  function CanonicalBuild(b: Build): Build
    requires CommandsConvert(Default(b.steps, []))
  {
    Build(CanonicalApt(b.apt), CanonicalPython(b.python), CanonicalNode(b.node),
          Some(Default(b.environment, map[])), Some(CanonicalCommands(Default(b.steps, []))))
  }

  /** The canonical document, or nothing where the source raises. */
  function Canonical(d: Document): Option<Document> {
    if !Converts(d) then None
    else Some(Document(Base(Some(Default(d.base.registry, "docker.io")), d.base.others),
                       Some(CanonicalBuild(BuildOf(d))),
                       CanonicalRuntime(d.runtime), Some(CanonicalMounts(MountsOf(d))), CanonicalCommands(d.commands),
                       d.spec, d.others))
  }

  // ----- The rewriting as the program runs it ---------------------------------------------------

  /** `for step in steps: step["timeout"] = ...`. */
  method RespellTimeouts(commands: seq<Command>) returns (result: Option<seq<Command>>)
    ensures result == if CommandsConvert(commands) then Some(CanonicalCommands(commands)) else None
  {
    var respelled := commands;
    var i := 0;
    while i < |commands|
      invariant 0 <= i <= |commands| == |respelled| && respelled[i..] == commands[i..]
      invariant forall k :: 0 <= k < i ==> IsDuration(commands[k].timeout)
      invariant forall k :: 0 <= k < i ==> respelled[k] == Command(Duration(commands[k].timeout), commands[k].others)
    {
      assert respelled[i] == respelled[i..][0] == commands[i];
      var text := Units.CanonicalDuration(respelled[i].timeout);
      if text.None? {
        assert !IsDuration(commands[i].timeout);
        return None;
      }
      respelled := respelled[i := respelled[i].(timeout := text.value)];
      i := i + 1;
    }
    assert respelled == CanonicalCommands(commands);
    result := Some(respelled);
  }

  method RespellSize(mount: Mount) returns (result: Option<Mount>)
    ensures result == if MountConverts(mount) then Some(Mount(OptionalSize(mount.size), mount.others)) else None
  {
    if mount.size.None? { return Some(mount); }
    var text := Units.CanonicalQuantity(mount.size.value);
    result := if text.None? then None else Some(mount.(size := text));
  }

  /** `for mount in mounts: if "size" in mount: mount["size"] = ...`. */
  method RespellSizes(mounts: seq<Mount>) returns (result: Option<seq<Mount>>)
    ensures result == if MountsConvert(mounts) then Some(CanonicalMounts(mounts)) else None
  {
    var respelled := mounts;
    var i := 0;
    while i < |mounts|
      invariant 0 <= i <= |mounts| == |respelled| && respelled[i..] == mounts[i..]
      invariant forall k :: 0 <= k < i ==> MountConverts(mounts[k])
      invariant forall k :: 0 <= k < i ==> respelled[k] == Mount(OptionalSize(mounts[k].size), mounts[k].others)
    {
      assert respelled[i] == respelled[i..][0] == mounts[i];
      var mount := RespellSize(respelled[i]);
      if mount.None? {
        return None;
      }
      respelled := respelled[i := mount.value];
      i := i + 1;
    }
    assert respelled == CanonicalMounts(mounts);
    result := Some(respelled);
  }

  method RewriteRuntime(original: Runtime) returns (result: Option<Runtime>)
    ensures result == if RuntimeConverts(original) then Some(CanonicalRuntime(original)) else None
  {
    var runtime := original;
    var memory := Units.CanonicalQuantity(runtime.memory);
    if memory.None? { return None; }
    runtime := runtime.(memory := memory.value);
    if runtime.tmpfsSize.Some? {
      var size := Units.CanonicalQuantity(runtime.tmpfsSize.value);
      if size.None? { return None; }
      runtime := runtime.(tmpfsSize := size);
    }
    var timeout := Units.CanonicalDuration(runtime.timeout);
    if timeout.None? { return None; }
    runtime := runtime.(timeout := timeout.value);
    var grace := Units.CanonicalDuration(runtime.stopGracePeriod);
    if grace.None? { return None; }
    runtime := runtime.(stopGracePeriod := grace.value);
    if runtime.cpu.Fraction? && IsWhole(runtime.cpu.x) {
      runtime := runtime.(cpu := Whole(runtime.cpu.x.Floor));
    }
    result := Some(runtime);
  }

  method FillBuild(original: Option<Build>) returns (build: Build)
    ensures build == Build(CanonicalApt(Default(original, EMPTY_BUILD).apt),
                           CanonicalPython(Default(original, EMPTY_BUILD).python),
                           CanonicalNode(Default(original, EMPTY_BUILD).node),
                           Some(Default(Default(original, EMPTY_BUILD).environment, map[])),
                           Some(Default(Default(original, EMPTY_BUILD).steps, [])))
  {
    build := Default(original, EMPTY_BUILD);
    build := build.(environment := Some(Default(build.environment, map[])));
    build := build.(steps := Some(Default(build.steps, [])));
    if build.apt.Some? {
      var apt := build.apt.value;
      apt := apt.(update := Some(Default(apt.update, true)));
      apt := apt.(packages := Some(Default(apt.packages, [])));
      build := build.(apt := Some(apt));
    }
    if build.python.Some? {
      var python := build.python.value;
      python := python.(interpreter := Some(Default(python.interpreter, "python3")));
      python := python.(packages := Some(Default(python.packages, [])));
      build := build.(python := Some(python));
    }
    if build.node.Some? {
      var node := build.node.value;
      node := node.(packageManager := Some(Default(node.packageManager, "npm")));
      node := node.(packages := Some(Default(node.packages, [])));
      build := build.(node := Some(node));
    }
  }

  method Canonicalize(document: Document) returns (result: Option<Document>)
    ensures result == Canonical(document)
  {
    var canonical := document;
    canonical := canonical.(base := canonical.base.(registry := Some(Default(canonical.base.registry, "docker.io"))));
    var build := FillBuild(canonical.build);
    canonical := canonical.(mounts := Some(Default(canonical.mounts, [])));
    var runtime := RewriteRuntime(canonical.runtime);
    if runtime.None? { return None; }
    canonical := canonical.(runtime := runtime.value);
    var steps := RespellTimeouts(build.steps.value);
    if steps.None? { return None; }
    canonical := canonical.(build := Some(build.(steps := steps)));
    var commands := RespellTimeouts(canonical.commands);
    if commands.None? { return None; }
    canonical := canonical.(commands := commands.value);
    var mounts := RespellSizes(canonical.mounts.value);
    if mounts.None? { return None; }
    canonical := canonical.(mounts := mounts);
    result := Some(canonical);
  }
}
