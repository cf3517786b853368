/** What the canonical form of a Hermesfile guarantees: it is a complete normal
    form of the document's meaning and stays within the field rules. */
module CanonicalForm {
  import opened Wrappers
  import opened Json
  import opened Normalizer
  import Units

  // ----- What a document means -----------------------------------------------------------

  /** A command with its timeout in milliseconds. */
  datatype CommandMeaning = CommandMeaning(timeout: nat, others: Json)

  /** A mount with its size in bytes. */
  datatype MountMeaning = MountMeaning(size: Option<nat>, others: Json)

  datatype RuntimeMeaning = RuntimeMeaning(cpu: real, memory: nat, tmpfsSize: Option<nat>, timeout: nat, grace: nat,
                                           others: Json)

  datatype Tools<T> = Tools(choice: T, packages: seq<string>)

  datatype BuildMeaning = BuildMeaning(apt: Option<Tools<bool>>, python: Option<Tools<string>>,
                                       node: Option<Tools<string>>,
                                       environment: map<string, string>, steps: seq<CommandMeaning>)

  datatype Meaning = Meaning(registry: string, base: Json, build: BuildMeaning, runtime: RuntimeMeaning,
                             mounts: seq<MountMeaning>, commands: seq<CommandMeaning>, spec: Json, others: Json)

  predicate ParsesDuration(s: string) { Units.ParseDuration(s).Some? }

  predicate ParsesSize(s: string) { Units.ParseQuantity(s).Some? }

  function Milliseconds(s: string): nat
    requires ParsesDuration(s)
  {
    Units.ParseDuration(s).value
  }

  function Bytes(s: string): nat
    requires ParsesSize(s)
  {
    Units.ParseQuantity(s).value
  }

  function OptionalBytes(s: Option<string>): Option<nat>
    requires s.Some? ==> ParsesSize(s.value)
  {
    if s.None? then None else Some(Bytes(s.value))
  }

  function Cpu(cpu: Number): real { if cpu.Whole? then cpu.i as real else cpu.x }

  predicate CommandsParse(commands: seq<Command>) {
    forall i :: 0 <= i < |commands| ==> ParsesDuration(commands[i].timeout)
  }

  predicate MountParses(mount: Mount) { mount.size.Some? ==> ParsesSize(mount.size.value) }

  predicate MountsParse(mounts: seq<Mount>) {
    forall i :: 0 <= i < |mounts| ==> MountParses(mounts[i])
  }

  predicate RuntimeParses(runtime: Runtime) {
    && ParsesSize(runtime.memory) && (runtime.tmpfsSize.Some? ==> ParsesSize(runtime.tmpfsSize.value))
    && ParsesDuration(runtime.timeout) && ParsesDuration(runtime.stopGracePeriod)
  }

  predicate Parses(d: Document) {
    CommandsParse(StepsOf(d)) && RuntimeParses(d.runtime) && MountsParse(MountsOf(d)) && CommandsParse(d.commands)
  }

  function CommandMeanings(commands: seq<Command>): (m: seq<CommandMeaning>)
    requires CommandsParse(commands)
    ensures |m| == |commands|
    ensures forall i :: 0 <= i < |m| ==> m[i] == CommandMeaning(Milliseconds(commands[i].timeout), commands[i].others)
  {
    seq(|commands|, i requires 0 <= i < |commands| =>
      CommandMeaning(Milliseconds(commands[i].timeout), commands[i].others))
  }

  function MountMeanings(mounts: seq<Mount>): (m: seq<MountMeaning>)
    requires MountsParse(mounts)
    ensures |m| == |mounts|
    ensures forall i :: 0 <= i < |m| ==> m[i] == MountMeaning(OptionalBytes(mounts[i].size), mounts[i].others)
  {
    seq(|mounts|, i requires 0 <= i < |mounts| && MountParses(mounts[i]) =>
      MountMeaning(OptionalBytes(mounts[i].size), mounts[i].others))
  }

  function RuntimeMeant(r: Runtime): RuntimeMeaning
    requires RuntimeParses(r)
  {
    RuntimeMeaning(Cpu(r.cpu), Bytes(r.memory), OptionalBytes(r.tmpfsSize), Milliseconds(r.timeout),
                   Milliseconds(r.stopGracePeriod), r.others)
  }

  function BuildMeant(b: Build): BuildMeaning
    requires CommandsParse(Default(b.steps, []))
  {
    BuildMeaning(
      if b.apt.None? then None else Some(Tools(Default(b.apt.value.update, true), Default(b.apt.value.packages, []))),
      if b.python.None? then None
      else Some(Tools(Default(b.python.value.interpreter, "python3"), Default(b.python.value.packages, []))),
      if b.node.None? then None
      else Some(Tools(Default(b.node.value.packageManager, "npm"), Default(b.node.value.packages, []))),
      Default(b.environment, map[]), CommandMeanings(Default(b.steps, [])))
  }

  /** The document with its defaults and units resolved. */
  function Resolve(d: Document): Meaning
    requires Parses(d)
  {
    Meaning(Default(d.base.registry, "docker.io"), d.base.others, BuildMeant(BuildOf(d)), RuntimeMeant(d.runtime),
            MountMeanings(MountsOf(d)), CommandMeanings(d.commands), d.spec, d.others)
  }

  // ----- The field rules on the members the canonical form touches -------------------------------

  predicate DurationRule(s: string) { 1 <= |s| <= 32 && ParsesDuration(s) }

  predicate SizeRule(s: string) { 1 <= |s| <= 32 && ParsesSize(s) }

  predicate CommandRules(commands: seq<Command>) {
    |commands| <= 128 && forall i :: 0 <= i < |commands| ==> DurationRule(commands[i].timeout)
  }

  predicate MountRule(mount: Mount) { mount.size.Some? ==> SizeRule(mount.size.value) }

  predicate MountRules(mounts: seq<Mount>) {
    |mounts| <= 64 && forall i :: 0 <= i < |mounts| ==> MountRule(mounts[i])
  }

  predicate RuntimeRules(r: Runtime) {
    && 0.0 < Cpu(r.cpu) <= 256.0
    && SizeRule(r.memory) && (r.tmpfsSize.Some? ==> SizeRule(r.tmpfsSize.value))
    && DurationRule(r.timeout) && DurationRule(r.stopGracePeriod)
  }

  predicate RegistryRule(s: string) { 1 <= |s| <= 253 && '/' !in s && '@' !in s }

  predicate PackagesRule(packages: Option<seq<string>>) { packages.Some? ==> |packages.value| <= 256 }

  predicate BuildRules(b: Build) {
    && (b.apt.Some? ==> PackagesRule(b.apt.value.packages))
    && (b.python.Some? ==> PackagesRule(b.python.value.packages)
                           && (b.python.value.interpreter.Some?
                               ==> b.python.value.interpreter.value in {"python3", "python"}))
    && (b.node.Some? ==> PackagesRule(b.node.value.packages)
                         && (b.node.value.packageManager.Some?
                             ==> b.node.value.packageManager.value in {"npm", "pnpm", "yarn"}))
    && (b.environment.Some? ==> |b.environment.value| <= 128)
    && CommandRules(Default(b.steps, []))
  }

  predicate FieldRules(d: Document) {
    && (d.base.registry.Some? ==> RegistryRule(d.base.registry.value))
    && BuildRules(BuildOf(d)) && RuntimeRules(d.runtime) && MountRules(MountsOf(d))
    && 1 <= |d.commands| && CommandRules(d.commands)
  }

  /** Every size in the document is a multiple of 1024 bytes. */
  predicate SizesAreWholeKib(d: Document)
    requires Parses(d)
  {
    && Bytes(d.runtime.memory) % 1024 == 0
    && (d.runtime.tmpfsSize.Some? ==> Bytes(d.runtime.tmpfsSize.value) % 1024 == 0)
    && forall i :: 0 <= i < |MountsOf(d)| ==> WholeKibMount(MountsOf(d)[i])
  }

  predicate WholeKibMount(mount: Mount) {
    mount.size.Some? && ParsesSize(mount.size.value) ==> Bytes(mount.size.value) % 1024 == 0
  }

  // ----- When the canonical form exists ------------------------------------------------------------

  lemma RulesParse(d: Document)
    requires FieldRules(d)
    ensures Parses(d)
  {
  }

  lemma DurationConverts(s: string)
    ensures IsDuration(s) <==> ParsesDuration(s)
  {
    Units.DurationNormalForm(s);
  }

  lemma SizeConverts(s: string)
    ensures IsSize(s) <==> ParsesSize(s) && Bytes(s) % 1024 == 0
  {
    Units.CanonicalQuantityDefined(s);
  }

  lemma CommandsConvertWhenParsed(commands: seq<Command>)
    ensures CommandsConvert(commands) <==> CommandsParse(commands)
  {
    forall i | 0 <= i < |commands|
      ensures IsDuration(commands[i].timeout) <==> ParsesDuration(commands[i].timeout)
    {
      DurationConverts(commands[i].timeout);
    }
  }

  lemma MountsConvertWhenWhole(mounts: seq<Mount>)
    requires MountsParse(mounts)
    ensures MountsConvert(mounts) <==> forall i :: 0 <= i < |mounts| ==> WholeKibMount(mounts[i])
  {
    forall i | 0 <= i < |mounts|
      ensures MountConverts(mounts[i]) <==> WholeKibMount(mounts[i])
    {
      assert MountParses(mounts[i]);
      if mounts[i].size.Some? { SizeConverts(mounts[i].size.value); }
    }
  }

  /** An accepted document has a canonical form exactly when every size in it is
      a multiple of 1024 bytes; otherwise the source raises. */
  lemma CanonicalExists(d: Document)
    requires FieldRules(d)
    ensures Parses(d) && (Canonical(d).Some? <==> SizesAreWholeKib(d))
  {
    RulesParse(d);
    CommandsConvertWhenParsed(StepsOf(d));
    CommandsConvertWhenParsed(d.commands);
    SizeConverts(d.runtime.memory);
    if d.runtime.tmpfsSize.Some? { SizeConverts(d.runtime.tmpfsSize.value); }
    DurationConverts(d.runtime.timeout);
    DurationConverts(d.runtime.stopGracePeriod);
    MountsConvertWhenWhole(MountsOf(d));
  }

  /** Any accepted document whose memory is respelled 1.5KiB stays accepted and
      has no canonical form. */
  lemma AcceptedWithoutCanonicalForm(d: Document)
    requires FieldRules(d)
    ensures var odd := d.(runtime := d.runtime.(memory := "1.5KiB")); FieldRules(odd) && Canonical(odd).None?
  {
    Units.AcceptedWithoutCanonicalForm();
    var odd := d.(runtime := d.runtime.(memory := "1.5KiB"));
    assert SizeRule("1.5KiB") && !IsSize("1.5KiB");
    assert BuildOf(odd) == BuildOf(d) && MountsOf(odd) == MountsOf(d);
  }

  // ----- The canonical form is a rendering of the meaning -------------------------------------------

  function SizeText(bytes: nat): string
    requires bytes % 1024 == 0
  {
    Units.TextDefined(bytes);
    Units.QuantityText(bytes).value
  }

  function OptionalText(bytes: Option<nat>): Option<string>
    requires bytes.Some? ==> bytes.value % 1024 == 0
  {
    if bytes.None? then None else Some(SizeText(bytes.value))
  }

  function CpuText(x: real): Number { if IsWhole(x) then Whole(x.Floor) else Fraction(x) }

  predicate InDuration(ms: nat) { 0 < ms <= Units.MAX_DURATION }

  predicate InSize(bytes: nat) { 0 < bytes <= Units.MAX_QUANTITY && bytes % 1024 == 0 }

  predicate CommandsInRange(m: seq<CommandMeaning>) { forall i :: 0 <= i < |m| ==> InDuration(m[i].timeout) }

  predicate MountInRange(m: MountMeaning) { m.size.Some? ==> InSize(m.size.value) }

  predicate MountsInRange(m: seq<MountMeaning>) { forall i :: 0 <= i < |m| ==> MountInRange(m[i]) }

  predicate RuntimeInRange(m: RuntimeMeaning) {
    && InSize(m.memory) && (m.tmpfsSize.Some? ==> InSize(m.tmpfsSize.value))
    && InDuration(m.timeout) && InDuration(m.grace)
  }

  predicate InRange(m: Meaning) {
    && CommandsInRange(m.build.steps) && RuntimeInRange(m.runtime)
    && MountsInRange(m.mounts) && CommandsInRange(m.commands)
  }

  function RenderCommands(m: seq<CommandMeaning>): (commands: seq<Command>)
    ensures |commands| == |m|
    ensures forall i :: 0 <= i < |m| ==> commands[i] == Command(Units.DurationText(m[i].timeout), m[i].others)
  {
    seq(|m|, i requires 0 <= i < |m| => Command(Units.DurationText(m[i].timeout), m[i].others))
  }

  function RenderMounts(m: seq<MountMeaning>): (mounts: seq<Mount>)
    requires MountsInRange(m)
    ensures |mounts| == |m|
    ensures forall i :: 0 <= i < |m| ==> MountInRange(m[i]) && mounts[i] == Mount(OptionalText(m[i].size), m[i].others)
  {
    seq(|m|, i requires 0 <= i < |m| && MountInRange(m[i]) => Mount(OptionalText(m[i].size), m[i].others))
  }

  function RenderRuntime(m: RuntimeMeaning): Runtime
    requires RuntimeInRange(m)
  {
    Runtime(CpuText(m.cpu), SizeText(m.memory), OptionalText(m.tmpfsSize), Units.DurationText(m.timeout),
            Units.DurationText(m.grace), m.others)
  }

  function RenderBuild(m: BuildMeaning): Build {
    Build(
      if m.apt.None? then None else Some(Apt(Some(m.apt.value.choice), Some(m.apt.value.packages))),
      if m.python.None? then None else Some(Python(Some(m.python.value.choice), Some(m.python.value.packages))),
      if m.node.None? then None else Some(Node(Some(m.node.value.choice), Some(m.node.value.packages))),
      Some(m.environment), Some(RenderCommands(m.steps)))
  }

  /** The one document that spells a meaning out in full. */
  function Render(m: Meaning): Document
    requires InRange(m)
  {
    Document(Base(Some(m.registry), m.base), Some(RenderBuild(m.build)), RenderRuntime(m.runtime),
             Some(RenderMounts(m.mounts)), RenderCommands(m.commands), m.spec, m.others)
  }

  // ----- Canonical documents are renderings -----------------------------------------------------------

  lemma DurationIsText(s: string)
    requires IsDuration(s)
    ensures ParsesDuration(s) && InDuration(Milliseconds(s)) && Duration(s) == Units.DurationText(Milliseconds(s))
  {
    Units.ParsedDurationIsPositive(s);
  }

  lemma SizeIsText(s: string)
    requires IsSize(s)
    ensures ParsesSize(s) && InSize(Bytes(s)) && Size(s) == SizeText(Bytes(s))
  {
    SizeConverts(s);
    Units.ParsedQuantityInRange(s);
  }

  lemma CommandsAreRendered(commands: seq<Command>)
    requires CommandsConvert(commands)
    ensures CommandsParse(commands) && CommandsInRange(CommandMeanings(commands))
    ensures CanonicalCommands(commands) == RenderCommands(CommandMeanings(commands))
  {
    CommandsConvertWhenParsed(commands);
    forall i | 0 <= i < |commands|
      ensures InDuration(Milliseconds(commands[i].timeout))
      ensures Duration(commands[i].timeout) == Units.DurationText(Milliseconds(commands[i].timeout))
    {
      DurationIsText(commands[i].timeout);
    }
  }

  lemma OptionalSizeIsText(size: Option<string>)
    requires size.Some? ==> IsSize(size.value)
    ensures size.Some? ==> ParsesSize(size.value) && InSize(OptionalBytes(size).value)
    ensures OptionalSize(size) == OptionalText(OptionalBytes(size))
  {
    if size.Some? { SizeIsText(size.value); }
  }

  lemma MountIsRendered(mount: Mount)
    requires MountConverts(mount)
    ensures MountParses(mount)
    ensures MountInRange(MountMeaning(OptionalBytes(mount.size), mount.others))
    ensures OptionalSize(mount.size) == OptionalText(OptionalBytes(mount.size))
  {
    OptionalSizeIsText(mount.size);
  }

  lemma MountsAreRendered(mounts: seq<Mount>)
    requires MountsConvert(mounts)
    ensures MountsParse(mounts) && MountsInRange(MountMeanings(mounts))
    ensures CanonicalMounts(mounts) == RenderMounts(MountMeanings(mounts))
  {
    forall i | 0 <= i < |mounts|
      ensures MountParses(mounts[i])
      ensures MountInRange(MountMeaning(OptionalBytes(mounts[i].size), mounts[i].others))
      ensures OptionalSize(mounts[i].size) == OptionalText(OptionalBytes(mounts[i].size))
    {
      MountIsRendered(mounts[i]);
    }
  }

  lemma CpuIsRendered(cpu: Number)
    ensures CanonicalCpu(cpu) == CpuText(Cpu(cpu))
  {
  }

  lemma RuntimeIsRendered(r: Runtime)
    requires RuntimeConverts(r)
    ensures RuntimeParses(r) && RuntimeInRange(RuntimeMeant(r))
    ensures CanonicalRuntime(r) == RenderRuntime(RuntimeMeant(r))
  {
    CpuIsRendered(r.cpu);
    SizeIsText(r.memory);
    OptionalSizeIsText(r.tmpfsSize);
    DurationIsText(r.timeout);
    DurationIsText(r.stopGracePeriod);
  }

  lemma CanonicalIsRendering(d: Document)
    requires Canonical(d).Some?
    ensures Parses(d) && InRange(Resolve(d)) && Canonical(d) == Some(Render(Resolve(d)))
  {
    CommandsAreRendered(StepsOf(d));
    CommandsAreRendered(d.commands);
    MountsAreRendered(MountsOf(d));
    RuntimeIsRendered(d.runtime);
  }

  // ----- Renderings resolve to what they render ----------------------------------------------------------

  lemma CommandsResolve(m: seq<CommandMeaning>)
    requires CommandsInRange(m)
    ensures CommandsParse(RenderCommands(m)) && CommandMeanings(RenderCommands(m)) == m
  {
    forall i | 0 <= i < |m|
      ensures Units.ParseDuration(Units.DurationText(m[i].timeout)) == Some(m[i].timeout)
    {
      Units.ParseOfDurationText(m[i].timeout);
    }
  }

  lemma SizeResolves(bytes: nat)
    requires InSize(bytes)
    ensures Units.ParseQuantity(SizeText(bytes)) == Some(bytes)
  {
    Units.TextDefined(bytes);
    Units.ParseOfQuantityText(bytes);
  }

  lemma OptionalSizeResolves(bytes: Option<nat>)
    requires bytes.Some? ==> InSize(bytes.value)
    ensures OptionalText(bytes).Some? ==> ParsesSize(OptionalText(bytes).value)
    ensures OptionalBytes(OptionalText(bytes)) == bytes
  {
    if bytes.Some? { SizeResolves(bytes.value); }
  }

  lemma MountsResolve(m: seq<MountMeaning>)
    requires MountsInRange(m)
    ensures MountsParse(RenderMounts(m)) && MountMeanings(RenderMounts(m)) == m
  {
    var mounts := RenderMounts(m);
    forall i | 0 <= i < |m|
      ensures MountParses(mounts[i]) && OptionalBytes(mounts[i].size) == m[i].size && mounts[i].others == m[i].others
    {
      OptionalSizeResolves(m[i].size);
    }
  }

  lemma RuntimeResolves(m: RuntimeMeaning)
    requires RuntimeInRange(m)
    ensures RuntimeParses(RenderRuntime(m)) && RuntimeMeant(RenderRuntime(m)) == m
  {
    SizeResolves(m.memory);
    OptionalSizeResolves(m.tmpfsSize);
    Units.ParseOfDurationText(m.timeout);
    Units.ParseOfDurationText(m.grace);
  }

  lemma BuildResolves(m: BuildMeaning)
    requires CommandsInRange(m.steps)
    ensures CommandsParse(Default(RenderBuild(m).steps, [])) && BuildMeant(RenderBuild(m)) == m
  {
    CommandsResolve(m.steps);
  }

  lemma RenderingResolves(m: Meaning)
    requires InRange(m)
    ensures Parses(Render(m)) && Resolve(Render(m)) == m
  {
    BuildResolves(m.build);
    CommandsResolve(m.commands);
    MountsResolve(m.mounts);
    RuntimeResolves(m.runtime);
  }

  // ----- A complete normal form ---------------------------------------------------------------------------

  /** The given value of a member, or its default where there is none. */
  ghost predicate FilledIn<T(!new)>(after: Option<T>, given: Option<T>, default_: T) {
    after == if given.Some? then given else Some(default_)
  }

  ghost predicate ToolsFilledIn(c: Build, b: Build) {
    && (c.apt.Some? <==> b.apt.Some?) && (c.python.Some? <==> b.python.Some?) && (c.node.Some? <==> b.node.Some?)
    && (b.apt.Some? ==>
          && FilledIn(c.apt.value.update, b.apt.value.update, true)
          && FilledIn(c.apt.value.packages, b.apt.value.packages, []))
    && (b.python.Some? ==>
          && FilledIn(c.python.value.interpreter, b.python.value.interpreter, "python3")
          && FilledIn(c.python.value.packages, b.python.value.packages, []))
    && (b.node.Some? ==>
          && FilledIn(c.node.value.packageManager, b.node.value.packageManager, "npm")
          && FilledIn(c.node.value.packages, b.node.value.packages, []))
  }

  /** Only missing members get a default, each its own; a document without a build
      gets an empty one, and no mount, step or command comes or goes. */
  lemma DefaultsFillGaps(d: Document)
    requires Canonical(d).Some?
    ensures var c := Canonical(d).value;
            && FilledIn(c.base.registry, d.base.registry, "docker.io") && c.base.others == d.base.others
            && c.build.Some? && c.build.value.environment.Some? && c.build.value.steps.Some? && c.mounts.Some?
            && (d.build.None? ==> c.build.value == Build(None, None, None, Some(map[]), Some([])))
            && (d.build.Some? ==>
                  && ToolsFilledIn(c.build.value, d.build.value)
                  && FilledIn(c.build.value.environment, d.build.value.environment, map[])
                  && |c.build.value.steps.value|
                     == (if d.build.value.steps.Some? then |d.build.value.steps.value| else 0))
            && |c.mounts.value| == (if d.mounts.Some? then |d.mounts.value| else 0)
            && |c.commands| == |d.commands|
            && c.spec == d.spec && c.others == d.others
  {
  }

  /** The canonical document means what the document means. */
  lemma KeepsMeaning(d: Document)
    requires Canonical(d).Some?
    ensures Parses(d) && Parses(Canonical(d).value) && Resolve(Canonical(d).value) == Resolve(d)
  {
    CanonicalIsRendering(d);
    RenderingResolves(Resolve(d));
  }

  lemma RenderingConverts(m: Meaning)
    requires InRange(m)
    ensures Canonical(Render(m)).Some?
  {
    RenderingResolves(m);
    var d := Render(m);
    CommandsConvertWhenParsed(StepsOf(d));
    CommandsConvertWhenParsed(d.commands);
    assert MountMeanings(MountsOf(d)) == m.mounts && RuntimeMeant(d.runtime) == m.runtime;
    forall i | 0 <= i < |MountsOf(d)|
      ensures WholeKibMount(MountsOf(d)[i])
    {
      assert MountInRange(m.mounts[i]) && MountMeanings(MountsOf(d))[i] == m.mounts[i];
    }
    MountsConvertWhenWhole(MountsOf(d));
    SizeConverts(d.runtime.memory);
    if d.runtime.tmpfsSize.Some? { SizeConverts(d.runtime.tmpfsSize.value); }
    DurationConverts(d.runtime.timeout);
    DurationConverts(d.runtime.stopGracePeriod);
  }

  /** Canonical documents are their own canonical form. */
  lemma Idempotent(d: Document)
    requires Canonical(d).Some?
    ensures Canonical(Canonical(d).value) == Canonical(d)
  {
    CanonicalIsRendering(d);
    RenderingConverts(Resolve(d));
    KeepsMeaning(d);
    CanonicalIsRendering(Canonical(d).value);
  }

  /** Two documents have one canonical form exactly when they mean the same. */
  lemma EqualExactlyWhenSameMeaning(d: Document, e: Document)
    requires Canonical(d).Some? && Canonical(e).Some?
    ensures Parses(d) && Parses(e) && (Canonical(d) == Canonical(e) <==> Resolve(d) == Resolve(e))
  {
    CanonicalIsRendering(d);
    CanonicalIsRendering(e);
    KeepsMeaning(d);
    KeepsMeaning(e);
  }

  // ----- The field rules are kept ------------------------------------------------------------------------

  lemma CommandRulesKept(commands: seq<Command>)
    requires CommandRules(commands) && CommandsConvert(commands)
    ensures CommandRules(CanonicalCommands(commands))
  {
    forall i | 0 <= i < |commands|
      ensures DurationRule(Duration(commands[i].timeout))
    {
      DurationRuleKept(commands[i].timeout);
    }
  }

  lemma DurationRuleKept(s: string)
    requires IsDuration(s)
    ensures DurationRule(Duration(s))
  {
    Units.DurationNormalForm(s);
    DurationIsText(s);
    Units.DurationTextIsShort(Milliseconds(s));
  }

  lemma SizeRuleKept(s: string)
    requires IsSize(s)
    ensures SizeRule(Size(s))
  {
    Units.QuantityNormalForm(s);
    SizeIsText(s);
    Units.QuantityTextIsShort(Bytes(s));
  }

  lemma MountRulesKept(mounts: seq<Mount>)
    requires MountRules(mounts) && MountsConvert(mounts)
    ensures MountRules(CanonicalMounts(mounts))
  {
    var result := CanonicalMounts(mounts);
    forall i | 0 <= i < |mounts|
      ensures MountRule(result[i])
    {
      assert MountConverts(mounts[i]);
      if mounts[i].size.Some? { SizeRuleKept(mounts[i].size.value); }
    }
  }

  lemma BuildRulesKept(b: Build)
    requires BuildRules(b) && CommandsConvert(Default(b.steps, []))
    ensures BuildRules(CanonicalBuild(b))
  {
    CommandRulesKept(Default(b.steps, []));
  }

  lemma RuntimeRulesKept(r: Runtime)
    requires RuntimeRules(r) && RuntimeConverts(r)
    ensures RuntimeRules(CanonicalRuntime(r))
  {
    SizeRuleKept(r.memory);
    if r.tmpfsSize.Some? { SizeRuleKept(r.tmpfsSize.value); }
    DurationRuleKept(r.timeout);
    DurationRuleKept(r.stopGracePeriod);
  }

  lemma RegistryRuleKept(registry: Option<string>)
    requires registry.Some? ==> RegistryRule(registry.value)
    ensures RegistryRule(Default(registry, "docker.io"))
  {
  }

  lemma RulesOfParts(c: Document, registry: string, b: Build, mounts: seq<Mount>)
    requires c.base.registry == Some(registry) && RegistryRule(registry)
    requires c.build == Some(b) && BuildRules(b) && RuntimeRules(c.runtime)
    requires c.mounts == Some(mounts) && MountRules(mounts) && 1 <= |c.commands| && CommandRules(c.commands)
    ensures FieldRules(c)
  {
  }

  /** `b` holds every value that `a` holds. */
  predicate Kept<T(==)>(a: Option<T>, b: Option<T>) { a.Some? ==> b == a }

  predicate BuildUntouched(a: Build, b: Build) {
    && (a.apt.Some? <==> b.apt.Some?) && (a.python.Some? <==> b.python.Some?) && (a.node.Some? <==> b.node.Some?)
    && (a.apt.Some? ==>
          Kept(a.apt.value.update, b.apt.value.update) && Kept(a.apt.value.packages, b.apt.value.packages))
    && (a.python.Some? ==>
          && Kept(a.python.value.interpreter, b.python.value.interpreter)
          && Kept(a.python.value.packages, b.python.value.packages))
    && (a.node.Some? ==>
          && Kept(a.node.value.packageManager, b.node.value.packageManager)
          && Kept(a.node.value.packages, b.node.value.packages))
    && Kept(a.environment, b.environment)
  }

  predicate SameOthers(a: seq<Command>, b: seq<Command>) {
    |a| == |b| && forall i :: 0 <= i < |a| ==> b[i].others == a[i].others
  }

  predicate SameMounts(a: seq<Mount>, b: seq<Mount>) {
    |a| == |b| && forall i :: 0 <= i < |a| ==> b[i].others == a[i].others && (b[i].size.Some? <==> a[i].size.Some?)
  }

  /** Everything but sizes, durations, a whole `cpu` and absent members is the
      same in both documents, in the same order. */
  predicate Untouched(d: Document, c: Document) {
    && Kept(d.base.registry, c.base.registry) && c.base.others == d.base.others
    && BuildUntouched(BuildOf(d), BuildOf(c)) && SameOthers(StepsOf(d), StepsOf(c))
    && Cpu(c.runtime.cpu) == Cpu(d.runtime.cpu) && c.runtime.others == d.runtime.others
    && (c.runtime.tmpfsSize.Some? <==> d.runtime.tmpfsSize.Some?)
    && SameMounts(MountsOf(d), MountsOf(c)) && SameOthers(d.commands, c.commands)
    && c.spec == d.spec && c.others == d.others
  }

  /** No registry and no environment value looks like a credential, for any test of that. */
  ghost predicate NoCredentials(d: Document, secretLike: string -> bool) {
    && (d.base.registry.Some? ==> !secretLike(d.base.registry.value))
    && NoSecretValues(BuildOf(d).environment, secretLike)
  }

  ghost predicate NoSecretValues(environment: Option<map<string, string>>, secretLike: string -> bool) {
    environment.Some? ==> forall k :: k in environment.value ==> !secretLike(environment.value[k])
  }

  lemma FieldRulesKept(d: Document)
    requires FieldRules(d) && Canonical(d).Some?
    ensures FieldRules(Canonical(d).value)
  {
    RegistryRuleKept(d.base.registry);
    BuildRulesKept(BuildOf(d));
    RuntimeRulesKept(d.runtime);
    MountRulesKept(MountsOf(d));
    CommandRulesKept(d.commands);
    RulesOfParts(Canonical(d).value, Default(d.base.registry, "docker.io"), CanonicalBuild(BuildOf(d)),
                 CanonicalMounts(MountsOf(d)));
  }

  lemma MountsUntouched(mounts: seq<Mount>)
    requires MountsConvert(mounts)
    ensures SameMounts(mounts, CanonicalMounts(mounts))
  {
    forall i | 0 <= i < |mounts|
      ensures CanonicalMounts(mounts)[i].size.Some? <==> mounts[i].size.Some?
    {
      assert MountConverts(mounts[i]);
    }
  }

  lemma CommandsUntouched(commands: seq<Command>)
    requires CommandsConvert(commands)
    ensures SameOthers(commands, CanonicalCommands(commands))
  {
    hide CommandsConvert;
  }

  lemma ToolsUntouched(b: Build)
    requires CommandsConvert(Default(b.steps, []))
    ensures BuildUntouched(b, CanonicalBuild(b))
  {
    hide CommandsConvert;
  }

  lemma RuntimeUntouched(r: Runtime)
    requires RuntimeConverts(r)
    ensures var c := CanonicalRuntime(r);
            Cpu(c.cpu) == Cpu(r.cpu) && c.others == r.others && (c.tmpfsSize.Some? <==> r.tmpfsSize.Some?)
  {
    hide IsSize, IsDuration, Size, Duration;
  }

  lemma OthersUntouched(d: Document)
    requires Canonical(d).Some?
    ensures Untouched(d, Canonical(d).value)
  {
    hide CommandsConvert, MountsConvert, RuntimeConverts, CanonicalRuntime, BuildUntouched, SameOthers, SameMounts;
    ToolsUntouched(BuildOf(d));
    CommandsUntouched(StepsOf(d));
    CommandsUntouched(d.commands);
    MountsUntouched(MountsOf(d));
    RuntimeUntouched(d.runtime);
  }

  /** The canonical form of an accepted document is accepted by the rules on the
      members it changes, it holds no credential if the document holds none, and
      every rule that reads only the other members sees the same values. */
  lemma KeepsFieldRules(d: Document, secretLike: string -> bool)
    requires FieldRules(d) && Canonical(d).Some? && !secretLike("docker.io")
    ensures FieldRules(Canonical(d).value) && Untouched(d, Canonical(d).value)
    ensures NoCredentials(Canonical(d).value, secretLike) <==> NoCredentials(d, secretLike)
  {
    FieldRulesKept(d);
    OthersUntouched(d);
  }
}
