/** The Hermesfile as the tree the validator walks, and what filling in defaults
    does to its node count and its depth. */
module CanonicalTree {
  import opened Wrappers
  import opened Json
  import opened JsonWalk
  import opened Normalizer
  import opened CanonicalForm
  import Text

  const MAX_NODES: nat := 10_000
  const MAX_DEPTH: nat := 32

  // ----- The tree ------------------------------------------------------------------------

  /** An object that has no such member yet. */
  predicate Free(j: Json, key: string) { j.Obj? && key !in j.fields }

  predicate Scalar(j: Json) { !j.Arr? && !j.Obj? }

  function Put(j: Json, key: string, value: Json): Json {
    if j.Obj? then Obj(j.fields[key := value]) else j
  }

  function PutSome(j: Json, key: string, value: Option<Json>): Json {
    if value.None? then j else Put(j, key, value.value)
  }

  const EMPTY := Obj(map[])

  function CpuTree(cpu: Number): Json { if cpu.Whole? then Int(cpu.i) else Float(cpu.x) }

  function Strings(items: seq<string>): Json { Arr(seq(|items|, i requires 0 <= i < |items| => Str(items[i]))) }

  function OptionalStrings(items: Option<seq<string>>): Option<Json> {
    if items.None? then None else Some(Strings(items.value))
  }

  function OptionalStr(s: Option<string>): Option<Json> { if s.None? then None else Some(Str(s.value)) }

  function OptionalBool(b: Option<bool>): Option<Json> { if b.None? then None else Some(Bool(b.value)) }

  function EnvironmentTree(environment: map<string, string>): Json {
    Obj(map key | key in environment :: Str(environment[key]))
  }

  function CommandTree(c: Command): Json { Put(c.others, "timeout", Str(c.timeout)) }

  function CommandsTree(commands: seq<Command>): Json {
    Arr(seq(|commands|, i requires 0 <= i < |commands| => CommandTree(commands[i])))
  }

  function MountTree(m: Mount): Json { PutSome(m.others, "size", OptionalStr(m.size)) }

  function MountsTree(mounts: seq<Mount>): Json {
    Arr(seq(|mounts|, i requires 0 <= i < |mounts| => MountTree(mounts[i])))
  }

  function BaseTree(b: Base): Json { PutSome(b.others, "registry", OptionalStr(b.registry)) }

  function AptTree(a: Apt): Json {
    PutSome(PutSome(EMPTY, "update", OptionalBool(a.update)), "packages", OptionalStrings(a.packages))
  }

  function PythonTree(p: Python): Json {
    PutSome(PutSome(EMPTY, "interpreter", OptionalStr(p.interpreter)), "packages", OptionalStrings(p.packages))
  }

  function NodeTree(n: Node): Json {
    PutSome(PutSome(EMPTY, "packageManager", OptionalStr(n.packageManager)), "packages", OptionalStrings(n.packages))
  }

  function AptMember(apt: Option<Apt>): Option<Json> {
    if apt.None? then None else Some(AptTree(apt.value))
  }

  function PythonMember(python: Option<Python>): Option<Json> {
    if python.None? then None else Some(PythonTree(python.value))
  }

  function NodeMember(node: Option<Node>): Option<Json> {
    if node.None? then None else Some(NodeTree(node.value))
  }

  function ToolsTree(b: Build): Json {
    PutSome(PutSome(PutSome(EMPTY, "apt", AptMember(b.apt)), "python", PythonMember(b.python)),
            "node", NodeMember(b.node))
  }

  function EnvironmentMember(b: Build): Option<Json> {
    if b.environment.None? then None else Some(EnvironmentTree(b.environment.value))
  }

  function StepsMember(b: Build): Option<Json> {
    if b.steps.None? then None else Some(CommandsTree(b.steps.value))
  }

  function BuildTree(b: Build): Json {
    PutSome(PutSome(ToolsTree(b), "environment", EnvironmentMember(b)), "steps", StepsMember(b))
  }

  function LimitsTree(j: Json, cpu: Json, memory: Json, timeout: Json, grace: Json): Json {
    Put(Put(Put(Put(j, "cpu", cpu), "memory", memory), "timeout", timeout), "stopGracePeriod", grace)
  }

  function RuntimeTree(r: Runtime): Json {
    PutSome(LimitsTree(r.others, CpuTree(r.cpu), Str(r.memory), Str(r.timeout), Str(r.stopGracePeriod)),
            "tmpfsSize", OptionalStr(r.tmpfsSize))
  }

  function RequiredMembers(j: Json, validation: Json, runtime: Json, base: Json): Json {
    Put(Put(Put(j, "validation", validation), "runtime", runtime), "base", base)
  }

  function PlainMembers(d: Document): Json {
    RequiredMembers(d.spec, Put(EMPTY, "commands", CommandsTree(d.commands)), RuntimeTree(d.runtime), BaseTree(d.base))
  }

  function MountsMember(d: Document): Option<Json> {
    if d.mounts.None? then None else Some(MountsTree(d.mounts.value))
  }

  function BuildMember(d: Document): Option<Json> {
    if d.build.None? then None else Some(BuildTree(d.build.value))
  }

  function SpecTree(d: Document): Json {
    PutSome(PutSome(PlainMembers(d), "mounts", MountsMember(d)), "build", BuildMember(d))
  }

  /** The whole document. */
  function Tree(d: Document): Json { Put(d.others, "spec", SpecTree(d)) }

  predicate TimeoutsFree(commands: seq<Command>) {
    forall i :: 0 <= i < |commands| ==> Free(commands[i].others, "timeout")
  }

  predicate SizesFree(mounts: seq<Mount>) {
    forall i :: 0 <= i < |mounts| ==> Free(mounts[i].others, "size")
  }

  predicate RuntimeFree(j: Json) {
    Free(j, "cpu") && Free(j, "memory") && Free(j, "timeout") && Free(j, "stopGracePeriod") && Free(j, "tmpfsSize")
  }

  predicate SpecFree(j: Json) {
    Free(j, "validation") && Free(j, "runtime") && Free(j, "base") && Free(j, "mounts") && Free(j, "build")
  }

  /** The members carried along are objects without the members kept apart. */
  predicate Shaped(d: Document) {
    && Free(d.others, "spec") && SpecFree(d.spec) && Free(d.base.others, "registry") && RuntimeFree(d.runtime.others)
    && TimeoutsFree(d.commands) && TimeoutsFree(StepsOf(d)) && SizesFree(MountsOf(d))
  }

  /** `_validate_graph` finds neither too many nodes nor too much nesting. */
  ghost predicate InBounds(d: Document) {
    Nodes(Tree(d)) <= MAX_NODES && Within(Tree(d), 0, MAX_DEPTH)
  }

  // ----- Growing a tree by members ----------------------------------------------------------

  /** `b`, put where `a` was, has `n` nodes more and stays as far within the depth. */
  ghost predicate Grown(a: Json, b: Json, n: nat, depth: nat, maximum: nat) {
    Nodes(b) == Nodes(a) + n && (Within(a, depth, maximum) <==> Within(b, depth, maximum))
  }

  lemma {:induction false} SameMembers(j: Json, k: Json, keys: set<string>)
    requires j.Obj? && k.Obj? && keys <= j.fields.Keys && keys <= k.fields.Keys
    requires forall key :: key in keys ==> j.fields[key] == k.fields[key]
    ensures MemberNodes(j, keys) == MemberNodes(k, keys)
    decreases |keys|
  {
    if keys == {} {
    } else {
      SameMembers(j, k, keys - {Text.Least(keys)});
    }
  }

  lemma PutNodes(j: Json, key: string, value: Json)
    requires Free(j, key)
    ensures Nodes(Put(j, key, value)) == Nodes(j) + Nodes(value)
  {
    var k := Put(j, key, value);
    assert k.fields.Keys == j.fields.Keys + {key} && k.fields.Keys - {key} == j.fields.Keys;
    TakeMember(k, k.fields.Keys, key);
    SameMembers(k, j, j.fields.Keys);
  }

  lemma PutWithin(j: Json, key: string, value: Json, depth: nat, maximum: nat)
    requires Free(j, key)
    ensures Within(Put(j, key, value), depth, maximum)
       <==> Within(j, depth, maximum) && Within(value, depth + 1, maximum)
  {
    var k := Put(j, key, value);
    assert k.fields.Keys == j.fields.Keys + {key};
    assert forall other :: other in j.fields ==> k.fields[other] == j.fields[other];
    assert k.fields[key] == value;
  }

  /** The same member in both. */
  lemma PutBoth(a: Json, b: Json, key: string, v: Json, w: Json, n: nat, m: nat, depth: nat, maximum: nat)
    requires Free(a, key) && Free(b, key)
    requires Grown(a, b, n, depth, maximum) && Grown(v, w, m, depth + 1, maximum)
    ensures Grown(Put(a, key, v), Put(b, key, w), n + m, depth, maximum)
  {
    PutNodes(a, key, v);
    PutNodes(b, key, w);
    PutWithin(a, key, v, depth, maximum);
    PutWithin(b, key, w, depth, maximum);
  }

  /** A member that only the second has. */
  lemma PutNew(a: Json, b: Json, key: string, w: Json, n: nat, depth: nat, maximum: nat)
    requires Free(b, key) && Grown(a, b, n, depth, maximum) && Within(w, depth + 1, maximum)
    ensures Grown(a, Put(b, key, w), n + Nodes(w), depth, maximum)
  {
    PutNodes(b, key, w);
    PutWithin(b, key, w, depth, maximum);
  }

  /** A member the first may lack, which the second then has by default. */
  lemma PutDefault(a: Json, b: Json, key: string, v: Option<Json>, w: Json, n: nat, m: nat, depth: nat, maximum: nat)
    requires Free(a, key) && Free(b, key) && Grown(a, b, n, depth, maximum)
    requires v.Some? ==> Grown(v.value, w, m, depth + 1, maximum)
    requires v.None? ==> Within(w, depth + 1, maximum) && m == Nodes(w)
    ensures Grown(PutSome(a, key, v), Put(b, key, w), n + m, depth, maximum)
  {
    if v.Some? { PutBoth(a, b, key, v.value, w, n, m, depth, maximum); }
    else { PutNew(a, b, key, w, n, depth, maximum); }
  }

  /** An optional member that is in both or in neither. */
  lemma PutSame(a: Json, b: Json, key: string, v: Option<Json>, w: Option<Json>, n: nat, m: nat, depth: nat,
                maximum: nat)
    requires Free(a, key) && Free(b, key) && Grown(a, b, n, depth, maximum) && (v.Some? <==> w.Some?)
    requires v.Some? ==> Grown(v.value, w.value, m, depth + 1, maximum)
    requires v.None? ==> m == 0
    ensures Grown(PutSome(a, key, v), PutSome(b, key, w), n + m, depth, maximum)
  {
    if v.Some? { PutBoth(a, b, key, v.value, w.value, n, m, depth, maximum); }
  }

  lemma {:induction false} ItemsAlike(a: Json, b: Json, n: nat)
    requires a.Arr? && b.Arr? && |a.items| == |b.items| && n <= |a.items|
    requires forall i :: 0 <= i < n ==> Nodes(a.items[i]) == Nodes(b.items[i])
    ensures ItemNodes(a, n) == ItemNodes(b, n)
  {
    if n == 0 {
    } else {
      ItemsAlike(a, b, n - 1);
    }
  }

  lemma ArraysAlike(a: Json, b: Json, depth: nat, maximum: nat)
    requires a.Arr? && b.Arr? && |a.items| == |b.items|
    requires forall i :: 0 <= i < |a.items| ==> Grown(a.items[i], b.items[i], 0, depth + 1, maximum)
    ensures Grown(a, b, 0, depth, maximum)
  {
    ItemsAlike(a, b, |a.items|);
  }

  // ----- Node by node --------------------------------------------------------------------------

  /** The nodes a missing member adds. */
  function One<T>(member: Option<T>): nat { if member.None? then 1 else 0 }

  function AddedToApt(apt: Option<Apt>): nat {
    if apt.None? then 0 else One(apt.value.update) + One(apt.value.packages)
  }

  function AddedToPython(python: Option<Python>): nat {
    if python.None? then 0 else One(python.value.interpreter) + One(python.value.packages)
  }

  function AddedToNode(node: Option<Node>): nat {
    if node.None? then 0 else One(node.value.packageManager) + One(node.value.packages)
  }

  function AddedToTools(b: Build): nat { AddedToApt(b.apt) + AddedToPython(b.python) + AddedToNode(b.node) }

  /** The nodes of the defaults that are filled in: one for each missing member,
      an empty list or object among them. */
  function AddedNodes(d: Document): (n: nat)
    ensures n <= 10
  {
    One(d.base.registry) + One(d.build) + One(BuildOf(d).environment) + One(BuildOf(d).steps) + One(d.mounts)
    + AddedToTools(BuildOf(d))
  }

  lemma StringsGrow(member: Option<seq<string>>, depth: nat, maximum: nat)
    requires depth <= maximum
    ensures var w := Strings(Default(member, []));
            if member.None? then Nodes(w) == 1 && Within(w, depth, maximum)
            else Grown(OptionalStrings(member).value, w, 0, depth, maximum)
  {
  }

  lemma AptGrows(a: Apt, depth: nat, maximum: nat)
    requires depth + 1 <= maximum
    ensures Grown(AptTree(a), AptTree(CanonicalApt(Some(a)).value), One(a.update) + One(a.packages), depth, maximum)
  {
    var update := Bool(Default(a.update, true));
    PutDefault(EMPTY, EMPTY, "update", OptionalBool(a.update), update, 0, One(a.update), depth, maximum);
    StringsGrow(a.packages, depth + 1, maximum);
    PutDefault(PutSome(EMPTY, "update", OptionalBool(a.update)), Put(EMPTY, "update", update), "packages",
               OptionalStrings(a.packages), Strings(Default(a.packages, [])),
               One(a.update), One(a.packages), depth, maximum);
  }

  /** A tool choice and its packages, under any member name. */
  lemma ChoiceGrows(key: string, choice: Option<string>, otherwise: string, packages: Option<seq<string>>,
                    depth: nat, maximum: nat)
    requires depth + 1 <= maximum && key != "packages"
    ensures Grown(PutSome(PutSome(EMPTY, key, OptionalStr(choice)), "packages", OptionalStrings(packages)),
                  Put(Put(EMPTY, key, Str(Default(choice, otherwise))), "packages", Strings(Default(packages, []))),
                  One(choice) + One(packages), depth, maximum)
  {
    var chosen := Str(Default(choice, otherwise));
    PutDefault(EMPTY, EMPTY, key, OptionalStr(choice), chosen, 0, One(choice), depth, maximum);
    StringsGrow(packages, depth + 1, maximum);
    PutDefault(PutSome(EMPTY, key, OptionalStr(choice)), Put(EMPTY, key, chosen), "packages",
               OptionalStrings(packages), Strings(Default(packages, [])), One(choice), One(packages), depth, maximum);
  }

  lemma CommandsGrow(commands: seq<Command>, depth: nat, maximum: nat)
    requires CommandsConvert(commands) && TimeoutsFree(commands)
    ensures Grown(CommandsTree(commands), CommandsTree(CanonicalCommands(commands)), 0, depth, maximum)
  {
    var canonical := CanonicalCommands(commands);
    forall i | 0 <= i < |commands|
      ensures Grown(CommandTree(commands[i]), CommandTree(canonical[i]), 0, depth + 1, maximum)
    {
      PutBoth(commands[i].others, commands[i].others, "timeout", Str(commands[i].timeout), Str(canonical[i].timeout),
              0, 0, depth + 1, maximum);
    }
    ArraysAlike(CommandsTree(commands), CommandsTree(canonical), depth, maximum);
  }

  lemma MountsGrow(mounts: seq<Mount>, depth: nat, maximum: nat)
    requires MountsConvert(mounts) && SizesFree(mounts)
    ensures Grown(MountsTree(mounts), MountsTree(CanonicalMounts(mounts)), 0, depth, maximum)
  {
    var canonical := CanonicalMounts(mounts);
    MountsUntouched(mounts);
    forall i | 0 <= i < |mounts|
      ensures Grown(MountTree(mounts[i]), MountTree(canonical[i]), 0, depth + 1, maximum)
    {
      PutSame(mounts[i].others, mounts[i].others, "size", OptionalStr(mounts[i].size), OptionalStr(canonical[i].size),
              0, 0, depth + 1, maximum);
    }
    ArraysAlike(MountsTree(mounts), MountsTree(canonical), depth, maximum);
  }

  lemma BaseGrows(b: Base, depth: nat, maximum: nat)
    requires Free(b.others, "registry") && depth < maximum
    ensures Grown(BaseTree(b), BaseTree(Base(Some(Default(b.registry, "docker.io")), b.others)), One(b.registry),
                  depth, maximum)
  {
    PutDefault(b.others, b.others, "registry", OptionalStr(b.registry), Str(Default(b.registry, "docker.io")), 0,
               One(b.registry), depth, maximum);
  }

  lemma PutTwo(a: Json, b: Json, key: string, v: Json, w: Json, key': string, v': Json, w': Json, depth: nat,
               maximum: nat)
    requires Free(a, key) && Free(b, key) && Free(a, key') && Free(b, key') && key != key'
    requires Grown(a, b, 0, depth, maximum)
    requires Grown(v, w, 0, depth + 1, maximum) && Grown(v', w', 0, depth + 1, maximum)
    ensures Grown(Put(Put(a, key, v), key', v'), Put(Put(b, key, w), key', w'), 0, depth, maximum)
  {
    PutBoth(a, b, key, v, w, 0, 0, depth, maximum);
    PutBoth(Put(a, key, v), Put(b, key, w), key', v', w', 0, 0, depth, maximum);
  }

  lemma ScalarsGrow(v: Json, w: Json, depth: nat, maximum: nat)
    requires Scalar(v) && Scalar(w)
    ensures Grown(v, w, 0, depth, maximum)
  {
  }

  lemma LimitsGrow(j: Json, cpu: Json, memory: Json, timeout: Json, grace: Json,
                   cpu': Json, memory': Json, timeout': Json, grace': Json, depth: nat, maximum: nat)
    requires RuntimeFree(j) && Scalar(cpu) && Scalar(memory) && Scalar(timeout) && Scalar(grace)
    requires Scalar(cpu') && Scalar(memory') && Scalar(timeout') && Scalar(grace')
    ensures Grown(LimitsTree(j, cpu, memory, timeout, grace), LimitsTree(j, cpu', memory', timeout', grace'), 0,
                  depth, maximum)
  {
    ScalarsGrow(cpu, cpu', depth + 1, maximum);
    ScalarsGrow(memory, memory', depth + 1, maximum);
    ScalarsGrow(timeout, timeout', depth + 1, maximum);
    ScalarsGrow(grace, grace', depth + 1, maximum);
    PutTwo(j, j, "cpu", cpu, cpu', "memory", memory, memory', depth, maximum);
    PutTwo(Put(Put(j, "cpu", cpu), "memory", memory), Put(Put(j, "cpu", cpu'), "memory", memory'),
           "timeout", timeout, timeout', "stopGracePeriod", grace, grace', depth, maximum);
  }

  lemma LimitsFree(j: Json, cpu: Json, memory: Json, timeout: Json, grace: Json)
    requires RuntimeFree(j)
    ensures Free(LimitsTree(j, cpu, memory, timeout, grace), "tmpfsSize")
  {
  }

  lemma RuntimesGrow(r: Runtime, c: Runtime, depth: nat, maximum: nat)
    requires RuntimeFree(r.others) && c.others == r.others && (c.tmpfsSize.Some? <==> r.tmpfsSize.Some?)
    ensures Grown(RuntimeTree(r), RuntimeTree(c), 0, depth, maximum)
  {
    var cpu, memory, timeout, grace := CpuTree(r.cpu), Str(r.memory), Str(r.timeout), Str(r.stopGracePeriod);
    var cpu', memory', timeout', grace' := CpuTree(c.cpu), Str(c.memory), Str(c.timeout), Str(c.stopGracePeriod);
    LimitsGrow(r.others, cpu, memory, timeout, grace, cpu', memory', timeout', grace', depth, maximum);
    LimitsFree(r.others, cpu, memory, timeout, grace);
    LimitsFree(r.others, cpu', memory', timeout', grace');
    OptionalStrGrows(r.tmpfsSize, c.tmpfsSize, depth + 1, maximum);
    PutSame(LimitsTree(r.others, cpu, memory, timeout, grace), LimitsTree(r.others, cpu', memory', timeout', grace'),
            "tmpfsSize", OptionalStr(r.tmpfsSize), OptionalStr(c.tmpfsSize), 0, 0, depth, maximum);
  }

  lemma OptionalStrGrows(a: Option<string>, b: Option<string>, depth: nat, maximum: nat)
    ensures a.Some? && b.Some? ==> Grown(OptionalStr(a).value, OptionalStr(b).value, 0, depth, maximum)
  {
  }

  lemma AptMemberGrows(a: Json, b: Json, apt: Option<Apt>, n: nat, depth: nat, maximum: nat)
    requires depth + 2 <= maximum && Free(a, "apt") && Free(b, "apt") && Grown(a, b, n, depth, maximum)
    ensures Grown(PutSome(a, "apt", AptMember(apt)), PutSome(b, "apt", AptMember(CanonicalApt(apt))),
                  n + AddedToApt(apt), depth, maximum)
  {
    hide AptTree, Grown, Put;
    if apt.Some? { AptGrows(apt.value, depth + 1, maximum); }
    PutSame(a, b, "apt", AptMember(apt), AptMember(CanonicalApt(apt)), n, AddedToApt(apt), depth, maximum);
  }

  lemma PythonMemberGrows(a: Json, b: Json, python: Option<Python>, n: nat, depth: nat, maximum: nat)
    requires depth + 2 <= maximum && Free(a, "python") && Free(b, "python") && Grown(a, b, n, depth, maximum)
    ensures Grown(PutSome(a, "python", PythonMember(python)),
                  PutSome(b, "python", PythonMember(CanonicalPython(python))),
                  n + AddedToPython(python), depth, maximum)
  {
    hide PythonTree, Grown, Put;
    if python.Some? { PythonGrows(python.value, depth + 1, maximum); }
    PutSame(a, b, "python", PythonMember(python), PythonMember(CanonicalPython(python)), n, AddedToPython(python),
            depth, maximum);
  }

  lemma NodeMemberGrows(a: Json, b: Json, node: Option<Node>, n: nat, depth: nat, maximum: nat)
    requires depth + 2 <= maximum && Free(a, "node") && Free(b, "node") && Grown(a, b, n, depth, maximum)
    ensures Grown(PutSome(a, "node", NodeMember(node)), PutSome(b, "node", NodeMember(CanonicalNode(node))),
                  n + AddedToNode(node), depth, maximum)
  {
    hide NodeTree, Grown, Put;
    if node.Some? { NodeGrows(node.value, depth + 1, maximum); }
    PutSame(a, b, "node", NodeMember(node), NodeMember(CanonicalNode(node)), n, AddedToNode(node), depth, maximum);
  }

  lemma PythonGrows(p: Python, depth: nat, maximum: nat)
    requires depth + 1 <= maximum
    ensures Grown(PythonTree(p), PythonTree(CanonicalPython(Some(p)).value), One(p.interpreter) + One(p.packages),
                  depth, maximum)
  {
    hide Grown, Put, Strings;
    ChoiceGrows("interpreter", p.interpreter, "python3", p.packages, depth, maximum);
  }

  lemma NodeGrows(n: Node, depth: nat, maximum: nat)
    requires depth + 1 <= maximum
    ensures Grown(NodeTree(n), NodeTree(CanonicalNode(Some(n)).value), One(n.packageManager) + One(n.packages),
                  depth, maximum)
  {
    hide Grown, Put, Strings;
    ChoiceGrows("packageManager", n.packageManager, "npm", n.packages, depth, maximum);
  }

  lemma ToolsGrow(b: Build, depth: nat, maximum: nat)
    requires depth + 2 <= maximum && CommandsConvert(Default(b.steps, []))
    ensures Grown(ToolsTree(b), ToolsTree(CanonicalBuild(b)), AddedToTools(b), depth, maximum)
  {
    hide Grown, AptMember, PythonMember, NodeMember, CanonicalApt, CanonicalPython, CanonicalNode;
    var c := CanonicalBuild(b);
    SameGrown(EMPTY, depth, maximum);
    AptMemberGrows(EMPTY, EMPTY, b.apt, 0, depth, maximum);
    var one, one' := PutSome(EMPTY, "apt", AptMember(b.apt)), PutSome(EMPTY, "apt", AptMember(c.apt));
    PythonMemberGrows(one, one', b.python, AddedToApt(b.apt), depth, maximum);
    var two, two' := PutSome(one, "python", PythonMember(b.python)), PutSome(one', "python", PythonMember(c.python));
    NodeMemberGrows(two, two', b.node, AddedToApt(b.apt) + AddedToPython(b.python), depth, maximum);
  }

  lemma SameGrown(j: Json, depth: nat, maximum: nat)
    ensures Grown(j, j, 0, depth, maximum)
  {
  }

  lemma EnvironmentGrows(member: Option<map<string, string>>, depth: nat, maximum: nat)
    requires depth <= maximum
    ensures var w := EnvironmentTree(Default(member, map[]));
            if member.None? then Nodes(w) == 1 && Within(w, depth, maximum)
            else Grown(EnvironmentTree(member.value), w, 0, depth, maximum)
  {
    var none: map<string, string> := map[];
    assert EnvironmentTree(none).fields.Keys == {};
  }

  lemma StepsGrow(member: Option<seq<Command>>, depth: nat, maximum: nat)
    requires depth <= maximum && CommandsConvert(Default(member, [])) && TimeoutsFree(Default(member, []))
    ensures var w := CommandsTree(CanonicalCommands(Default(member, [])));
            if member.None? then Nodes(w) == 1 && Within(w, depth, maximum)
            else Grown(CommandsTree(member.value), w, 0, depth, maximum)
  {
    if member.Some? { CommandsGrow(member.value, depth, maximum); }
  }

  lemma BuildGrows(b: Build, depth: nat, maximum: nat)
    requires depth + 2 <= maximum && CommandsConvert(Default(b.steps, [])) && TimeoutsFree(Default(b.steps, []))
    ensures Grown(BuildTree(b), BuildTree(CanonicalBuild(b)), AddedToTools(b) + One(b.environment) + One(b.steps),
                  depth, maximum)
  {
    var c := CanonicalBuild(b);
    ToolsGrow(b, depth, maximum);
    ToolKeys(b);
    ToolKeys(c);
    EnvironmentGrows(b.environment, depth + 1, maximum);
    var environment := EnvironmentMember(b);
    PutDefault(ToolsTree(b), ToolsTree(c), "environment", environment, EnvironmentTree(c.environment.value),
               AddedToTools(b), One(b.environment), depth, maximum);
    StepsGrow(b.steps, depth + 1, maximum);
    PutDefault(PutSome(ToolsTree(b), "environment", environment),
               Put(ToolsTree(c), "environment", EnvironmentTree(c.environment.value)), "steps",
               StepsMember(b), CommandsTree(c.steps.value),
               AddedToTools(b) + One(b.environment), One(b.steps), depth, maximum);
  }

  lemma ToolKeys(b: Build)
    ensures Free(ToolsTree(b), "environment") && Free(ToolsTree(b), "steps")
  {
  }

  lemma BuildMemberGrows(d: Document, depth: nat, maximum: nat)
    requires depth + 2 <= maximum && CommandsConvert(StepsOf(d)) && TimeoutsFree(StepsOf(d))
    ensures var w := BuildTree(CanonicalBuild(BuildOf(d)));
            var n := AddedToTools(BuildOf(d)) + One(BuildOf(d).environment) + One(BuildOf(d).steps);
            if BuildMember(d).None? then Nodes(w) == One(d.build) + n && Within(w, depth, maximum)
            else Grown(BuildMember(d).value, w, One(d.build) + n, depth, maximum)
  {
    BuildGrows(BuildOf(d), depth, maximum);
    if d.build.None? {
      assert BuildTree(EMPTY_BUILD) == EMPTY && Nodes(EMPTY) == 1 && Within(EMPTY, depth, maximum);
    }
  }

  lemma MountsMemberGrows(d: Document, depth: nat, maximum: nat)
    requires depth <= maximum && MountsConvert(MountsOf(d)) && SizesFree(MountsOf(d))
    ensures var w := MountsTree(CanonicalMounts(MountsOf(d)));
            if MountsMember(d).None? then Nodes(w) == One(d.mounts) && Within(w, depth, maximum)
            else Grown(MountsMember(d).value, w, One(d.mounts), depth, maximum)
  {
    if d.mounts.Some? { MountsGrow(d.mounts.value, depth, maximum); }
  }

  // ----- The whole document ----------------------------------------------------------------------

  lemma ValidationGrows(commands: seq<Command>, depth: nat, maximum: nat)
    requires CommandsConvert(commands) && TimeoutsFree(commands)
    ensures Grown(Put(EMPTY, "commands", CommandsTree(commands)),
                  Put(EMPTY, "commands", CommandsTree(CanonicalCommands(commands))), 0, depth, maximum)
  {
    CommandsGrow(commands, depth + 1, maximum);
    PutBoth(EMPTY, EMPTY, "commands", CommandsTree(commands), CommandsTree(CanonicalCommands(commands)), 0, 0, depth,
            maximum);
  }

  lemma PlainMembersGrow(d: Document, c: Document, depth: nat, maximum: nat)
    requires SpecFree(d.spec) && RuntimeFree(d.runtime.others) && Free(d.base.others, "registry")
    requires TimeoutsFree(d.commands) && CommandsConvert(d.commands) && c.commands == CanonicalCommands(d.commands)
    requires c.spec == d.spec && c.base == Base(Some(Default(d.base.registry, "docker.io")), d.base.others)
    requires c.runtime.others == d.runtime.others && (c.runtime.tmpfsSize.Some? <==> d.runtime.tmpfsSize.Some?)
    requires depth + 2 <= maximum
    ensures var a, b := PlainMembers(d), PlainMembers(c);
            && Grown(a, b, One(d.base.registry), depth, maximum)
            && Free(a, "mounts") && Free(b, "mounts") && Free(a, "build") && Free(b, "build")
  {
    var commands, commands' := CommandsTree(d.commands), CommandsTree(c.commands);
    ValidationGrows(d.commands, depth + 1, maximum);
    RuntimesGrow(d.runtime, c.runtime, depth + 1, maximum);
    BaseGrows(d.base, depth + 1, maximum);
    MembersGrow(d.spec, Put(EMPTY, "commands", commands), RuntimeTree(d.runtime), BaseTree(d.base),
                Put(EMPTY, "commands", commands'), RuntimeTree(c.runtime), BaseTree(c.base), One(d.base.registry),
                depth, maximum);
  }

  lemma MembersGrow(j: Json, u: Json, v: Json, w: Json, u': Json, v': Json, w': Json, n: nat, depth: nat, maximum: nat)
    requires SpecFree(j) && Grown(u, u', 0, depth + 1, maximum)
    requires Grown(v, v', 0, depth + 1, maximum) && Grown(w, w', n, depth + 1, maximum)
    ensures var a, b := RequiredMembers(j, u, v, w), RequiredMembers(j, u', v', w');
            && Grown(a, b, n, depth, maximum)
            && Free(a, "mounts") && Free(b, "mounts") && Free(a, "build") && Free(b, "build")
  {
    PutTwo(j, j, "validation", u, u', "runtime", v, v', depth, maximum);
    PutBoth(Put(Put(j, "validation", u), "runtime", v), Put(Put(j, "validation", u'), "runtime", v'),
            "base", w, w', 0, n, depth, maximum);
  }

  lemma SpecGrows(d: Document, c: Document, depth: nat, maximum: nat)
    requires Grown(PlainMembers(d), PlainMembers(c), One(d.base.registry), depth, maximum)
    requires Free(PlainMembers(d), "mounts") && Free(PlainMembers(c), "mounts")
    requires Free(PlainMembers(d), "build") && Free(PlainMembers(c), "build")
    requires MountsConvert(MountsOf(d)) && SizesFree(MountsOf(d)) && c.mounts == Some(CanonicalMounts(MountsOf(d)))
    requires CommandsConvert(StepsOf(d)) && TimeoutsFree(StepsOf(d)) && c.build == Some(CanonicalBuild(BuildOf(d)))
    requires depth + 3 <= maximum
    ensures Grown(SpecTree(d), SpecTree(c), AddedNodes(d), depth, maximum)
  {
    MountsMemberGrows(d, depth + 1, maximum);
    BuildMemberGrows(d, depth + 1, maximum);
    DefaultsGrow(PlainMembers(d), PlainMembers(c), One(d.base.registry),
                 MountsMember(d), MountsTree(CanonicalMounts(MountsOf(d))), One(d.mounts),
                 BuildMember(d), BuildTree(CanonicalBuild(BuildOf(d))),
                 One(d.build) + (AddedToTools(BuildOf(d)) + One(BuildOf(d).environment) + One(BuildOf(d).steps)),
                 depth, maximum);
  }

  lemma DefaultsGrow(a: Json, b: Json, n: nat, mounts: Option<Json>, mounts': Json, m: nat,
                     build: Option<Json>, build': Json, k: nat, depth: nat, maximum: nat)
    requires Grown(a, b, n, depth, maximum)
    requires Free(a, "mounts") && Free(b, "mounts") && Free(a, "build") && Free(b, "build")
    requires if mounts.Some? then Grown(mounts.value, mounts', m, depth + 1, maximum)
             else Within(mounts', depth + 1, maximum) && m == Nodes(mounts')
    requires if build.Some? then Grown(build.value, build', k, depth + 1, maximum)
             else Within(build', depth + 1, maximum) && k == Nodes(build')
    ensures Grown(PutSome(PutSome(a, "mounts", mounts), "build", build),
                  Put(Put(b, "mounts", mounts'), "build", build'),
                  n + m + k, depth, maximum)
  {
    PutDefault(a, b, "mounts", mounts, mounts', n, m, depth, maximum);
    PutDefault(PutSome(a, "mounts", mounts), Put(b, "mounts", mounts'), "build", build, build', n + m, k, depth,
               maximum);
  }

  lemma TreesGrow(j: Json, v: Json, w: Json, n: nat, maximum: nat)
    requires Free(j, "spec") && Grown(v, w, n, 1, maximum)
    ensures Grown(Put(j, "spec", v), Put(j, "spec", w), n, 0, maximum)
  {
    PutBoth(j, j, "spec", v, w, 0, n, 0, maximum);
  }

  /** The canonical document has exactly the nodes of the document and one more
      for each default that was filled in, and it is as far within any depth of
      four or more. */
  lemma CanonicalNodes(d: Document, maximum: nat)
    requires Shaped(d) && Canonical(d).Some? && maximum >= 4
    ensures var c := Canonical(d).value;
            && Nodes(Tree(c)) == Nodes(Tree(d)) + AddedNodes(d)
            && (Within(Tree(c), 0, maximum) <==> Within(Tree(d), 0, maximum))
  {
    var c := Canonical(d).value;
    PlainMembersGrow(d, c, 1, maximum);
    SpecGrows(d, c, 1, maximum);
    TreesGrow(d.others, SpecTree(d), SpecTree(c), AddedNodes(d), maximum);
  }

  /** The canonical form of a document within bounds is within bounds exactly
      when the defaults leave room for it. */
  lemma BoundsKeptExactly(d: Document)
    requires Shaped(d) && Canonical(d).Some? && InBounds(d)
    ensures InBounds(Canonical(d).value) <==> Nodes(Tree(d)) + AddedNodes(d) <= MAX_NODES
  {
    CanonicalNodes(d, MAX_DEPTH);
  }

  // ----- The tree tells documents apart --------------------------------------------------------------

  lemma PutInjective(a: Json, b: Json, key: string, v: Json, w: Json)
    requires Free(a, key) && Free(b, key) && Put(a, key, v) == Put(b, key, w)
    ensures a == b && v == w
  {
    assert a.fields == Put(a, key, v).fields - {key};
    assert b.fields == Put(b, key, w).fields - {key};
    assert Put(a, key, v).fields[key] == v && Put(b, key, w).fields[key] == w;
  }

  lemma PutSomeInjective(a: Json, b: Json, key: string, v: Option<Json>, w: Option<Json>)
    requires Free(a, key) && Free(b, key) && PutSome(a, key, v) == PutSome(b, key, w)
    ensures a == b && v == w
  {
    assert v.Some? ==> key in PutSome(a, key, v).fields;
    assert w.Some? ==> key in PutSome(b, key, w).fields;
    if v.Some? { PutInjective(a, b, key, v.value, w.value); }
  }

  lemma StringsInjective(a: Option<seq<string>>, b: Option<seq<string>>)
    requires OptionalStrings(a) == OptionalStrings(b)
    ensures a == b
  {
    if a.Some? {
      var s, t := Strings(a.value), Strings(b.value);
      assert b.Some? && s == t && |s.items| == |t.items|;
      forall i | 0 <= i < |a.value|
        ensures a.value[i] == b.value[i]
      {
        assert s.items[i] == Str(a.value[i]) && t.items[i] == Str(b.value[i]);
      }
      assert a.value == b.value;
    }
  }

  lemma EnvironmentInjective(a: map<string, string>, b: map<string, string>)
    requires EnvironmentTree(a) == EnvironmentTree(b)
    ensures a == b
  {
    var s, t := EnvironmentTree(a), EnvironmentTree(b);
    assert s.fields.Keys == a.Keys && t.fields.Keys == b.Keys;
    assert forall k :: k in a ==> s.fields[k] == Str(a[k]) && t.fields[k] == Str(b[k]);
  }

  lemma CommandsInjective(a: seq<Command>, b: seq<Command>)
    requires TimeoutsFree(a) && TimeoutsFree(b) && CommandsTree(a) == CommandsTree(b)
    ensures a == b
  {
    var s, t := CommandsTree(a), CommandsTree(b);
    assert |s.items| == |t.items|;
    forall i | 0 <= i < |a|
      ensures a[i] == b[i]
    {
      assert s.items[i] == CommandTree(a[i]) && t.items[i] == CommandTree(b[i]);
      PutInjective(a[i].others, b[i].others, "timeout", Str(a[i].timeout), Str(b[i].timeout));
    }
  }

  lemma MountsInjective(a: seq<Mount>, b: seq<Mount>)
    requires SizesFree(a) && SizesFree(b) && MountsTree(a) == MountsTree(b)
    ensures a == b
  {
    var s, t := MountsTree(a), MountsTree(b);
    assert |s.items| == |t.items|;
    forall i | 0 <= i < |a|
      ensures a[i] == b[i]
    {
      assert s.items[i] == MountTree(a[i]) && t.items[i] == MountTree(b[i]);
      PutSomeInjective(a[i].others, b[i].others, "size", OptionalStr(a[i].size), OptionalStr(b[i].size));
    }
  }

  lemma ToolInjective(key: string, v: Option<Json>, w: Option<Json>, p: Option<seq<string>>, q: Option<seq<string>>)
    requires key != "packages"
    requires PutSome(PutSome(EMPTY, key, v), "packages", OptionalStrings(p))
          == PutSome(PutSome(EMPTY, key, w), "packages", OptionalStrings(q))
    ensures v == w && p == q
  {
    PutSomeInjective(PutSome(EMPTY, key, v), PutSome(EMPTY, key, w), "packages", OptionalStrings(p),
                     OptionalStrings(q));
    PutSomeInjective(EMPTY, EMPTY, key, v, w);
    StringsInjective(p, q);
  }

  lemma MembersInjective(b: Build, c: Build)
    requires AptMember(b.apt) == AptMember(c.apt) && PythonMember(b.python) == PythonMember(c.python)
    requires NodeMember(b.node) == NodeMember(c.node)
    ensures b.apt == c.apt && b.python == c.python && b.node == c.node
  {
    if b.apt.Some? {
      var x, y := b.apt.value, c.apt.value;
      ToolInjective("update", OptionalBool(x.update), OptionalBool(y.update), x.packages, y.packages);
    }
    if b.python.Some? {
      var x, y := b.python.value, c.python.value;
      ToolInjective("interpreter", OptionalStr(x.interpreter), OptionalStr(y.interpreter), x.packages, y.packages);
    }
    if b.node.Some? {
      var x, y := b.node.value, c.node.value;
      ToolInjective("packageManager", OptionalStr(x.packageManager), OptionalStr(y.packageManager), x.packages,
                    y.packages);
    }
  }

  lemma ToolsInjective(b: Build, c: Build)
    requires ToolsTree(b) == ToolsTree(c)
    ensures b.apt == c.apt && b.python == c.python && b.node == c.node
  {
    hide AptMember, PythonMember, NodeMember;
    var one, one' := PutSome(EMPTY, "apt", AptMember(b.apt)), PutSome(EMPTY, "apt", AptMember(c.apt));
    var two, two' := PutSome(one, "python", PythonMember(b.python)), PutSome(one', "python", PythonMember(c.python));
    PutSomeInjective(two, two', "node", NodeMember(b.node), NodeMember(c.node));
    PutSomeInjective(one, one', "python", PythonMember(b.python), PythonMember(c.python));
    PutSomeInjective(EMPTY, EMPTY, "apt", AptMember(b.apt), AptMember(c.apt));
    MembersInjective(b, c);
  }

  lemma BuildInjective(b: Build, c: Build)
    requires TimeoutsFree(Default(b.steps, [])) && TimeoutsFree(Default(c.steps, [])) && BuildTree(b) == BuildTree(c)
    ensures b == c
  {
    hide ToolsTree, EnvironmentTree, CommandsTree, TimeoutsFree;
    ToolKeys(b);
    ToolKeys(c);
    PutSomeInjective(PutSome(ToolsTree(b), "environment", EnvironmentMember(b)),
                     PutSome(ToolsTree(c), "environment", EnvironmentMember(c)), "steps",
                     StepsMember(b), StepsMember(c));
    PutSomeInjective(ToolsTree(b), ToolsTree(c), "environment", EnvironmentMember(b), EnvironmentMember(c));
    ToolsInjective(b, c);
    if b.environment.Some? { EnvironmentInjective(b.environment.value, c.environment.value); }
    if b.steps.Some? { CommandsInjective(b.steps.value, c.steps.value); }
  }

  lemma LimitsInjective(j: Json, k: Json, cpu: Json, memory: Json, timeout: Json, grace: Json,
                        cpu': Json, memory': Json, timeout': Json, grace': Json)
    requires RuntimeFree(j) && RuntimeFree(k)
    requires LimitsTree(j, cpu, memory, timeout, grace) == LimitsTree(k, cpu', memory', timeout', grace')
    ensures j == k && cpu == cpu' && memory == memory' && timeout == timeout' && grace == grace'
  {
    var one, one' := Put(j, "cpu", cpu), Put(k, "cpu", cpu');
    var two, two' := Put(one, "memory", memory), Put(one', "memory", memory');
    PutInjective(Put(two, "timeout", timeout), Put(two', "timeout", timeout'), "stopGracePeriod", grace, grace');
    PutInjective(two, two', "timeout", timeout, timeout');
    PutInjective(one, one', "memory", memory, memory');
    PutInjective(j, k, "cpu", cpu, cpu');
  }

  lemma RuntimeInjective(r: Runtime, q: Runtime)
    requires RuntimeFree(r.others) && RuntimeFree(q.others) && RuntimeTree(r) == RuntimeTree(q)
    ensures r == q
  {
    hide LimitsTree, RuntimeFree;
    var cpu, memory, timeout, grace := CpuTree(r.cpu), Str(r.memory), Str(r.timeout), Str(r.stopGracePeriod);
    var cpu', memory', timeout', grace' := CpuTree(q.cpu), Str(q.memory), Str(q.timeout), Str(q.stopGracePeriod);
    LimitsFree(r.others, cpu, memory, timeout, grace);
    LimitsFree(q.others, cpu', memory', timeout', grace');
    PutSomeInjective(LimitsTree(r.others, cpu, memory, timeout, grace),
                     LimitsTree(q.others, cpu', memory', timeout', grace'),
                     "tmpfsSize", OptionalStr(r.tmpfsSize), OptionalStr(q.tmpfsSize));
    LimitsInjective(r.others, q.others, cpu, memory, timeout, grace, cpu', memory', timeout', grace');
  }

  lemma RequiredInjective(j: Json, k: Json, u: Json, v: Json, w: Json, u': Json, v': Json, w': Json)
    requires SpecFree(j) && SpecFree(k) && RequiredMembers(j, u, v, w) == RequiredMembers(k, u', v', w')
    ensures j == k && u == u' && v == v' && w == w'
  {
    var one, one' := Put(j, "validation", u), Put(k, "validation", u');
    PutInjective(Put(one, "runtime", v), Put(one', "runtime", v'), "base", w, w');
    PutInjective(one, one', "runtime", v, v');
    PutInjective(j, k, "validation", u, u');
  }

  lemma RequiredKeys(j: Json, u: Json, v: Json, w: Json)
    requires SpecFree(j)
    ensures Free(RequiredMembers(j, u, v, w), "mounts") && Free(RequiredMembers(j, u, v, w), "build")
  {
  }

  lemma PlainInjective(d: Document, e: Document)
    requires Shaped(d) && Shaped(e) && PlainMembers(d) == PlainMembers(e)
    ensures d.spec == e.spec && d.commands == e.commands && d.runtime == e.runtime && d.base == e.base
  {
    hide RequiredMembers, CommandsTree, RuntimeTree, TimeoutsFree, RuntimeFree, SpecFree, SizesFree;
    RequiredInjective(d.spec, e.spec, Put(EMPTY, "commands", CommandsTree(d.commands)), RuntimeTree(d.runtime),
                      BaseTree(d.base), Put(EMPTY, "commands", CommandsTree(e.commands)), RuntimeTree(e.runtime),
                      BaseTree(e.base));
    PutInjective(EMPTY, EMPTY, "commands", CommandsTree(d.commands), CommandsTree(e.commands));
    CommandsInjective(d.commands, e.commands);
    RuntimeInjective(d.runtime, e.runtime);
    PutSomeInjective(d.base.others, e.base.others, "registry", OptionalStr(d.base.registry),
                     OptionalStr(e.base.registry));
  }

  lemma SpecInjective(d: Document, e: Document)
    requires Shaped(d) && Shaped(e) && SpecTree(d) == SpecTree(e)
    ensures PlainMembers(d) == PlainMembers(e) && d.mounts == e.mounts && d.build == e.build
  {
    hide RequiredMembers, CommandsTree, RuntimeTree, BaseTree, BuildTree, MountsTree;
    hide TimeoutsFree, SizesFree, RuntimeFree, SpecFree;
    RequiredKeys(d.spec, Put(EMPTY, "commands", CommandsTree(d.commands)), RuntimeTree(d.runtime), BaseTree(d.base));
    RequiredKeys(e.spec, Put(EMPTY, "commands", CommandsTree(e.commands)), RuntimeTree(e.runtime), BaseTree(e.base));
    OptionalInjective(PlainMembers(d), PlainMembers(e), MountsMember(d), MountsMember(e), BuildMember(d),
                      BuildMember(e));
    if d.mounts.Some? { MountsInjective(d.mounts.value, e.mounts.value); }
    if d.build.Some? { BuildInjective(d.build.value, e.build.value); }
  }

  lemma OptionalInjective(a: Json, b: Json, v: Option<Json>, w: Option<Json>, x: Option<Json>, y: Option<Json>)
    requires Free(a, "mounts") && Free(b, "mounts") && Free(a, "build") && Free(b, "build")
    requires PutSome(PutSome(a, "mounts", v), "build", x) == PutSome(PutSome(b, "mounts", w), "build", y)
    ensures a == b && v == w && x == y
  {
    PutSomeInjective(PutSome(a, "mounts", v), PutSome(b, "mounts", w), "build", x, y);
    PutSomeInjective(a, b, "mounts", v, w);
  }

  /** Different documents have different trees. */
  lemma TreeInjective(d: Document, e: Document)
    requires Shaped(d) && Shaped(e) && Tree(d) == Tree(e)
    ensures d == e
  {
    hide SpecTree, SpecFree, TimeoutsFree, SizesFree, RuntimeFree, PlainMembers;
    PutInjective(d.others, e.others, "spec", SpecTree(d), SpecTree(e));
    SpecInjective(d, e);
    PlainInjective(d, e);
  }

  lemma CanonicalShaped(d: Document)
    requires Shaped(d) && Canonical(d).Some?
    ensures Shaped(Canonical(d).value)
  {
    hide CommandsConvert, MountsConvert, RuntimeConverts, CanonicalRuntime, Free;
    RuntimeUntouched(d.runtime);
  }

  /** The canonical trees, which the program serialises and hashes, are equal
      exactly for documents that mean the same. */
  lemma TreesAgreeExactlyWhenSameMeaning(d: Document, e: Document)
    requires Shaped(d) && Shaped(e) && Canonical(d).Some? && Canonical(e).Some?
    ensures Parses(d) && Parses(e)
    ensures Tree(Canonical(d).value) == Tree(Canonical(e).value) <==> Resolve(d) == Resolve(e)
  {
    hide Canonical, Shaped, Tree, Parses, Resolve;
    EqualExactlyWhenSameMeaning(d, e);
    CanonicalShaped(d);
    CanonicalShaped(e);
    if Tree(Canonical(d).value) == Tree(Canonical(e).value) {
      TreeInjective(Canonical(d).value, Canonical(e).value);
    }
  }
}
