/** Projects live in a database row, a configuration file, a data directory and a
    repository. Commands change files inside a write transaction and undo them by
    hand when something fails. Any step of a command may fail; undoing succeeds. */
module ProjectStorage {
  import opened Wrappers

  // ----- The stores --------------------------------------------------------------------

  /** The limits a project policy contributes to a configuration file. */
  type Policy = nat

  /** The content of a configuration file. */
  datatype Config = Config(id: string, name: string, enabled: bool, policyId: string, policy: Policy, branch: string)

  /** SHA-256 of a file's content, taken to be injective. */
  datatype Digest = Sha256(of: Config)

  /** The content of a directory tree. */
  datatype Tree = Empty | Tree(content: nat)

  datatype Project = Project(name: string, policyId: string, enabled: bool, archived: bool, digest: Digest,
                             branch: string, sandbox: Option<string>, revision: nat)

  datatype Row = OperationRow(kind: string, id: string, revision: nat) | AuditRow(kind: string, id: string)
               | EventRow(kind: string, id: string)

  datatype Command = Enable | Disable | Rescan | Archive

  /** What identifies a request under its idempotency key; `If-Match` is not part of it. */
  datatype Body =
    | CreateBody(id: string, name: string, existing: bool, url: Option<string>, branch: string, policyId: string,
                 sandbox: Option<string>)
    | UpdateBody(id: string, newName: Option<string>, newPolicy: Option<string>, newSandbox: Option<Option<string>>)
    | CommandBody(id: string, command: Command, reason: Option<string>)

  datatype Db = Db(projects: map<string, Project>, keys: map<string, Body>, rows: seq<Row>)

  datatype Store = Store(db: Db, configs: map<string, Config>, datas: map<string, Tree>, repos: map<string, Tree>)

  /** The steps that can fail. `SyncConfig` is the directory synchronisation after
      a new configuration file is in place. */
  datatype Step = Lookup | Stage | Begin | Reserve | ReadConfig | Render | MoveRepository | MoveData | WriteConfig
                | SyncConfig | WriteRow | RecordOperation | Audit | Emit | Complete | Commit

  datatype Outcome = Accepted | Replayed | Failed

  /** `policy` is the content found for the policy and `repository` the tree that
      cloning or initialising yields; None where the source raises. */
  datatype Create = Create(key: string, id: string, name: string, existing: bool, url: Option<string>, branch: string,
                           policyId: string, sandbox: Option<string>, policy: Option<Policy>,
                           repository: Option<Tree>)

  datatype Update = Update(key: string, id: string, name: Option<string>, policyId: Option<string>,
                           sandbox: Option<Option<string>>, expected: nat, policy: Option<Policy>)

  /** `valid` and `clean` are what Git reports, `busy` whether the project has active work. */
  datatype Order = Order(key: string, id: string, command: Command, reason: Option<string>, expected: nat,
                         policy: Option<Policy>, valid: bool, clean: bool, busy: bool)

  function CreateBodyOf(r: Create): Body {
    CreateBody(r.id, r.name, r.existing, r.url, r.branch, r.policyId, r.sandbox)
  }

  function UpdateBodyOf(r: Update): Body { UpdateBody(r.id, r.name, r.policyId, r.sandbox) }

  function CommandBodyOf(r: Order): Body { CommandBody(r.id, r.command, r.reason) }

  // ----- What each command amounts to --------------------------------------------------------

  function Rows(kind: string, id: string, revision: nat): seq<Row> {
    [OperationRow(kind, id, revision), AuditRow(kind, id), EventRow(kind, id)]
  }

  /** The rows a successful command writes, with its completed reservation. */
  function Recorded(db: Db, key: string, body: Body, kind: string, revision: nat): Db {
    db.(keys := db.keys[key := body], rows := db.rows + Rows(kind, body.id, revision))
  }

  function Replay(db: Db, key: string, body: Body): Outcome
    requires key in db.keys
  {
    if db.keys[key] == body then Replayed else Failed
  }

  predicate FailsAt(fault: Option<Step>, steps: set<Step>) { fault.Some? && fault.value in steps }

  const RECORDING: set<Step> := {RecordOperation, Audit, Emit, Complete}

  function NewConfig(r: Create): Config
    requires r.policy.Some?
  {
    Config(r.id, r.name, false, r.policyId, r.policy.value, r.branch)
  }

  function NewProject(r: Create): Project
    requires r.policy.Some?
  {
    Project(r.name, r.policyId, false, false, Sha256(NewConfig(r)), r.branch, r.sandbox, 1)
  }

  /** The files are as a create must find them. */
  predicate PlaceIsFree(s: Store, r: Create) {
    && r.id !in s.configs && r.id !in s.datas
    && (if r.existing then r.id in s.repos else r.id !in s.repos && r.repository.Some?)
  }

  predicate CanCreate(s: Store, r: Create) {
    r.policy.Some? && PlaceIsFree(s, r) && r.id !in s.db.projects
  }

  function Created(s: Store, r: Create): Store
    requires CanCreate(s, r)
  {
    Store(Recorded(s.db.(projects := s.db.projects[r.id := NewProject(r)]), r.key, CreateBodyOf(r), "project.create",
                   1),
          s.configs[r.id := NewConfig(r)], s.datas[r.id := Empty],
          if r.existing then s.repos else s.repos[r.id := r.repository.value])
  }

  /** The steps of a create inside its transaction. */
  function CreateSteps(r: Create): set<Step> {
    {Begin, Reserve, Render, MoveData, WriteConfig, SyncConfig, WriteRow, Commit} + RECORDING
    + (if r.existing then {} else {MoveRepository})
  }

  function AfterCreate(s: Store, r: Create, fault: Option<Step>): (Store, Outcome) {
    if r.policy.None? || fault == Some(Lookup) then (s, Failed)
    else if r.key in s.db.keys then (s, Replay(s.db, r.key, CreateBodyOf(r)))
    else if !CanCreate(s, r) || fault == Some(Stage) then (s, Failed)
    else if fault == Some(SyncConfig) then (s.(configs := s.configs[r.id := NewConfig(r)]), Failed)
    else if FailsAt(fault, CreateSteps(r)) then (s, Failed)
    else (Created(s, r), Accepted)
  }

  predicate CanUpdate(s: Store, r: Update) {
    && r.policy.Some? && r.id in s.db.projects && r.id in s.configs
    && s.db.projects[r.id].revision == r.expected && !s.db.projects[r.id].archived
  }

  function Or<T>(change: Option<T>, value: T): T { if change.Some? then change.value else value }

  function UpdatedProject(was: Project, r: Update): Project
    requires r.policy.Some?
  {
    var name, policyId := Or(r.name, was.name), Or(r.policyId, was.policyId);
    was.(name := name, policyId := policyId, sandbox := Or(r.sandbox, was.sandbox), revision := was.revision + 1,
         digest := Sha256(Config(r.id, name, was.enabled, policyId, r.policy.value, was.branch)))
  }

  function Rewritten(s: Store, id: string, row: Project, key: string, body: Body, kind: string): Store {
    s.(db := Recorded(s.db.(projects := s.db.projects[id := row]), key, body, kind, row.revision),
       configs := s.configs[id := row.digest.of])
  }

  function Updated(s: Store, r: Update): Store
    requires CanUpdate(s, r)
  {
    Rewritten(s, r.id, UpdatedProject(s.db.projects[r.id], r), r.key, UpdateBodyOf(r), "project.update")
  }

  const UPDATE_STEPS: set<Step> := {ReadConfig, Render, WriteConfig, SyncConfig, WriteRow, Commit} + RECORDING

  function AfterUpdate(s: Store, r: Update, fault: Option<Step>): (Store, Outcome) {
    if FailsAt(fault, {Begin, Reserve}) then (s, Failed)
    else if r.key in s.db.keys then (s, if fault == Some(Commit) then Failed else Replay(s.db, r.key, UpdateBodyOf(r)))
    else if !CanUpdate(s, r) || FailsAt(fault, UPDATE_STEPS) then (s, Failed)
    else (Updated(s, r), Accepted)
  }

  function KindOf(command: Command): string {
    match command
    case Enable => "project.enable"
    case Disable => "project.disable"
    case Rescan => "project.rescan"
    case Archive => "project.archive"
  }

  predicate CanOrder(s: Store, r: Order) {
    && r.policy.Some? && r.valid && r.id in s.db.projects && r.id in s.configs && r.id in s.repos
    && s.db.projects[r.id].revision == r.expected
    && (s.db.projects[r.id].archived ==> r.command == Rescan)
    && (r.command == Disable || r.command == Archive ==> !r.busy)
    && (r.command == Enable || r.command == Rescan ==> r.clean)
  }

  /** The row a command asks for; the revision rises only when something changes. */
  function OrderedProject(was: Project, r: Order): Project
    requires r.policy.Some?
  {
    var enabled := r.command == Enable || (r.command == Rescan && was.enabled);
    var row := was.(enabled := enabled, archived := was.archived || r.command == Archive,
                    digest := Sha256(Config(r.id, was.name, enabled, was.policyId, r.policy.value, was.branch)));
    if row == was then was else row.(revision := was.revision + 1)
  }

  function Ordered(s: Store, r: Order): Store
    requires CanOrder(s, r)
  {
    var row := OrderedProject(s.db.projects[r.id], r);
    if row == s.db.projects[r.id]
    then s.(db := Recorded(s.db, r.key, CommandBodyOf(r), KindOf(r.command), row.revision))
    else Rewritten(s, r.id, row, r.key, CommandBodyOf(r), KindOf(r.command))
  }

  /** An unchanged project has no file and no row to write. */
  function OrderSteps(s: Store, r: Order): set<Step>
    requires CanOrder(s, r)
  {
    {ReadConfig, Render, Commit} + RECORDING
    + (if OrderedProject(s.db.projects[r.id], r) == s.db.projects[r.id] then {}
       else {WriteConfig, SyncConfig, WriteRow})
  }

  function AfterOrder(s: Store, r: Order, fault: Option<Step>): (Store, Outcome) {
    if FailsAt(fault, {Begin, Reserve}) then (s, Failed)
    else if r.key in s.db.keys then (s, if fault == Some(Commit) then Failed else Replay(s.db, r.key, CommandBodyOf(r)))
    else if !CanOrder(s, r) || FailsAt(fault, OrderSteps(s, r)) then (s, Failed)
    else (Ordered(s, r), Accepted)
  }

  // ----- The commands as the program runs them -------------------------------------------------

  class ProjectCommandStore {
    var committed: Db
    /** What the open transaction sees. */
    var working: Db
    var configs: map<string, Config>
    var datas: map<string, Tree>
    var repos: map<string, Tree>

    ghost function Contents(): Store
      reads this
    {
      Store(committed, configs, datas, repos)
    }

    constructor (db: Db)
      ensures Contents() == Store(db, map[], map[], map[])
    {
      committed, working, configs, datas, repos := db, db, map[], map[], map[];
    }

    /** `_atomic_replace`: false when it raises, before or after the new file is in place. */
    method AtomicReplace(id: string, config: Config, fault: Option<Step>) returns (ok: bool)
      modifies this`configs
      ensures ok <==> !FailsAt(fault, {WriteConfig, SyncConfig})
      ensures configs == if fault == Some(WriteConfig) then old(configs) else old(configs)[id := config]
    {
      if fault == Some(WriteConfig) {
        return false;
      }
      configs := configs[id := config];
      ok := fault != Some(SyncConfig);
    }

    /** Operation, audit, event and completed reservation; false when one of them raises. */
    method RecordAll(key: string, body: Body, kind: string, revision: nat, fault: Option<Step>) returns (ok: bool)
      modifies this`working
      ensures ok <==> !FailsAt(fault, RECORDING)
      ensures ok ==> working == Recorded(old(working), key, body, kind, revision)
    {
      if fault == Some(RecordOperation) { return false; }
      working := working.(rows := working.rows + [OperationRow(kind, body.id, revision)]);
      if fault == Some(Audit) { return false; }
      working := working.(rows := working.rows + [AuditRow(kind, body.id)]);
      if fault == Some(Emit) { return false; }
      working := working.(rows := working.rows + [EventRow(kind, body.id)]);
      if fault == Some(Complete) { return false; }
      working := working.(keys := working.keys[key := body]);
      assert working.rows == old(working).rows + Rows(kind, body.id, revision);
      ok := true;
    }

    /** From the project row to the commit. */
    method InsertInTransaction(r: Create, fault: Option<Step>) returns (ok: bool)
      requires r.policy.Some? && working == committed
      modifies this`working, this`committed
      ensures ok <==> !FailsAt(fault, {WriteRow, Commit} + RECORDING)
      ensures committed ==
              if !ok then old(committed)
              else Recorded(old(committed).(projects := old(committed).projects[r.id := NewProject(r)]), r.key,
                            CreateBodyOf(r), "project.create", 1)
    {
      hide NewProject, Recorded, CreateBodyOf;
      if fault == Some(WriteRow) { return false; }
      working := working.(projects := working.projects[r.id := NewProject(r)]);
      ok := RecordAll(r.key, CreateBodyOf(r), "project.create", 1, fault);
      if !ok || fault == Some(Commit) { return false; }
      committed := working;
    }

    /** The transaction of a create; the flags say which files now exist because of it. */
    method CreateInTransaction(r: Create, fault: Option<Step>)
      returns (ok: bool, createdRepo: bool, createdData: bool, createdConfig: bool)
      requires r.policy.Some? && PlaceIsFree(Contents(), r) && r.key !in committed.keys
      modifies this
      ensures ok <==> r.id !in old(committed).projects && !FailsAt(fault, CreateSteps(r))
      ensures ok ==> Contents() == Created(old(Contents()), r)
      ensures !ok ==> committed == old(committed) && (createdRepo ==> !r.existing)
      ensures !ok ==> repos == if createdRepo then old(repos)[r.id := r.repository.value] else old(repos)
      ensures !ok ==> datas == if createdData then old(datas)[r.id := Empty] else old(datas)
      ensures !ok ==> (configs == if createdConfig || (r.id !in old(committed).projects && fault == Some(SyncConfig))
                                  then old(configs)[r.id := NewConfig(r)] else old(configs))
      ensures !ok && createdConfig ==> fault != Some(SyncConfig)
    {
      hide NewConfig, NewProject, Recorded, CreateBodyOf;
      ok, createdRepo, createdData, createdConfig := false, false, false, false;
      if FailsAt(fault, {Begin, Reserve}) { return; }
      working := committed;
      if r.id in working.projects || fault == Some(Render) { return; }
      if !r.existing {
        if fault == Some(MoveRepository) { return; }
        repos := repos[r.id := r.repository.value];
        createdRepo := true;
      }
      if fault == Some(MoveData) { return; }
      datas := datas[r.id := Empty];
      createdData := true;
      var config := NewConfig(r);
      var replaced := AtomicReplace(r.id, config, fault);
      if !replaced { return; }
      createdConfig := true;
      ok := InsertInTransaction(r, fault);
    }

    method CreateProject(r: Create, fault: Option<Step>) returns (outcome: Outcome)
      modifies this
      ensures (Contents(), outcome) == AfterCreate(old(Contents()), r, fault)
    {
      hide Created, NewConfig, CreateBodyOf;
      if r.policy.None? || fault == Some(Lookup) { return Failed; }
      if r.key in committed.keys { return Replay(committed, r.key, CreateBodyOf(r)); }
      if r.id in configs || r.id in datas || (r.existing && r.id !in repos) || (!r.existing && r.id in repos) {
        return Failed;
      }
      if fault == Some(Stage) || (!r.existing && r.repository.None?) { return Failed; }
      ghost var before := Contents();
      var ok, createdRepo, createdData, createdConfig := CreateInTransaction(r, fault);
      if ok { return Accepted; }
      if createdConfig { configs := configs - {r.id}; }
      if createdData { datas := datas - {r.id}; }
      if createdRepo { repos := repos - {r.id}; }
      assert datas == before.datas && repos == before.repos;
      assert createdConfig ==> configs == before.configs;
      assert CanCreate(before, r) <==> r.id !in before.db.projects;
      outcome := Failed;
    }

    /** From the replaced file to the commit; shared by update and command. */
    method RewriteInTransaction(id: string, row: Project, key: string, body: Body, kind: string, fault: Option<Step>)
      returns (ok: bool)
      requires working == committed && body.id == id
      modifies this`working, this`committed, this`configs
      ensures ok <==> !FailsAt(fault, {WriteConfig, SyncConfig, WriteRow, Commit} + RECORDING)
      ensures ok ==> Contents() == Rewritten(old(Contents()), id, row, key, body, kind)
      ensures !ok ==> committed == old(committed)
      ensures !ok ==> configs == old(configs) || configs == old(configs)[id := row.digest.of]
    {
      var replaced := AtomicReplace(id, row.digest.of, fault);
      if !replaced || fault == Some(WriteRow) { return false; }
      working := working.(projects := working.projects[id := row]);
      var recorded := RecordAll(key, body, kind, row.revision, fault);
      if !recorded || fault == Some(Commit) { return false; }
      committed := working;
      ok := true;
    }

    /** The writing part of an update. */
    method UpdateInTransaction(r: Update, fault: Option<Step>) returns (ok: bool)
      requires CanUpdate(Contents(), r) && working == committed && fault != Some(ReadConfig)
      modifies this`working, this`committed, this`configs
      ensures ok <==> !FailsAt(fault, UPDATE_STEPS)
      ensures ok ==> Contents() == Updated(old(Contents()), r)
      ensures !ok ==> committed == old(committed)
      ensures !ok ==> r.id in configs && configs == old(configs)[r.id := configs[r.id]]
    {
      hide Rewritten, UpdatedProject;
      if fault == Some(Render) { return false; }
      var row := UpdatedProject(working.projects[r.id], r);
      ok := RewriteInTransaction(r.id, row, r.key, UpdateBodyOf(r), "project.update", fault);
    }

    method UpdateProject(r: Update, fault: Option<Step>) returns (outcome: Outcome)
      modifies this
      ensures (Contents(), outcome) == AfterUpdate(old(Contents()), r, fault)
    {
      hide Updated;
      if FailsAt(fault, {Begin, Reserve}) { return Failed; }
      working := committed;
      if r.key in working.keys {
        return if fault == Some(Commit) then Failed else Replay(working, r.key, UpdateBodyOf(r));
      }
      if r.id !in working.projects { return Failed; }
      var was := working.projects[r.id];
      if was.revision != r.expected || was.archived || r.policy.None? { return Failed; }
      if r.id !in configs || fault == Some(ReadConfig) { return Failed; }
      var backup := configs[r.id];
      var ok := UpdateInTransaction(r, fault);
      if ok { return Accepted; }
      working := committed;
      configs := configs[r.id := backup];
      assert configs == old(configs);
      outcome := Failed;
    }

    /** The writing part of a command: the row with its file, or only the records
        when the project is unchanged. */
    method OrderInTransaction(r: Order, fault: Option<Step>) returns (ok: bool)
      requires CanOrder(Contents(), r) && working == committed && !FailsAt(fault, {ReadConfig, Render})
      modifies this`working, this`committed, this`configs
      ensures ok <==> !FailsAt(fault, OrderSteps(old(Contents()), r))
      ensures ok ==> Contents() == Ordered(old(Contents()), r)
      ensures !ok ==> committed == old(committed)
      ensures !ok ==> r.id in configs && configs == old(configs)[r.id := configs[r.id]]
    {
      hide Rewritten, OrderedProject, KindOf, Recorded;
      var was := working.projects[r.id];
      var row := OrderedProject(was, r);
      if row != was {
        ok := RewriteInTransaction(r.id, row, r.key, CommandBodyOf(r), KindOf(r.command), fault);
      } else {
        ok := RecordAll(r.key, CommandBodyOf(r), KindOf(r.command), row.revision, fault);
        if !ok || fault == Some(Commit) { return false; }
        committed := working;
      }
    }

    method CommandProject(r: Order, fault: Option<Step>) returns (outcome: Outcome)
      modifies this
      ensures (Contents(), outcome) == AfterOrder(old(Contents()), r, fault)
    {
      hide Rewritten, OrderedProject, KindOf, Recorded;
      if FailsAt(fault, {Begin, Reserve}) { return Failed; }
      working := committed;
      if r.key in working.keys {
        return if fault == Some(Commit) then Failed else Replay(working, r.key, CommandBodyOf(r));
      }
      if r.id !in working.projects { return Failed; }
      var was := working.projects[r.id];
      if was.revision != r.expected { return Failed; }
      if was.archived && r.command != Rescan { return Failed; }
      if (r.command == Disable || r.command == Archive) && r.busy { return Failed; }
      if r.id !in repos || !r.valid { return Failed; }
      if (r.command == Enable || r.command == Rescan) && !r.clean { return Failed; }
      if r.id !in configs || fault == Some(ReadConfig) { return Failed; }
      var backup := configs[r.id];
      var ok := false;
      if r.policy.Some? && fault != Some(Render) {
        ok := OrderInTransaction(r, fault);
      }
      if ok { return Accepted; }
      working := committed;
      configs := configs[r.id := backup];
      assert configs == old(configs);
      outcome := Failed;
    }
  }

  // ----- Any serial run of commands, each with a fault anywhere ---------------------------------

  datatype Call = Creating(create: Create) | Updating(update: Update) | Ordering(order: Order)

  function AfterCall(s: Store, call: Call, fault: Option<Step>): (Store, Outcome) {
    match call
    case Creating(r) => AfterCreate(s, r, fault)
    case Updating(r) => AfterUpdate(s, r, fault)
    case Ordering(r) => AfterOrder(s, r, fault)
  }

  datatype Attempt = Attempt(call: Call, fault: Option<Step>)

  function Run(s: Store, attempts: seq<Attempt>): Store {
    if attempts == [] then s
    else
      var last := attempts[|attempts| - 1];
      AfterCall(Run(s, attempts[..|attempts| - 1]), last.call, last.fault).0
  }

  /** The configuration file says what the row says, the row carries its digest,
      and the project has its directories. */
  predicate Faithful(s: Store, id: string)
    requires id in s.db.projects
  {
    var row := s.db.projects[id];
    && id in s.configs && id in s.datas && id in s.repos
    && row.digest == Sha256(s.configs[id])
    && var config := s.configs[id];
    && config.id == id && config.name == row.name && config.enabled == row.enabled
    && config.policyId == row.policyId && config.branch == row.branch
    && row.revision >= 1 && (row.archived ==> !row.enabled)
  }

  ghost predicate Agreement(s: Store) {
    forall id :: id in s.db.projects ==> Faithful(s, id)
  }

  /** Only `id` changes, and it ends up faithful. */
  lemma OneProjectChanges(s: Store, after: Store, id: string)
    requires Agreement(s) && (id in after.db.projects ==> Faithful(after, id))
    requires forall o ::
               o in after.db.projects && o != id ==> o in s.db.projects && after.db.projects[o] == s.db.projects[o]
    requires forall o :: o in s.configs && o != id ==> o in after.configs && after.configs[o] == s.configs[o]
    requires s.datas.Keys <= after.datas.Keys && s.repos.Keys <= after.repos.Keys
    ensures Agreement(after)
  {
    forall o | o in after.db.projects
      ensures Faithful(after, o)
    {
      if o != id { assert Faithful(s, o); }
    }
  }

  /** A new file without a row does not disturb the rows. */
  lemma SameRows(s: Store, after: Store)
    requires Agreement(s) && after == s.(configs := after.configs)
    requires forall id :: id in s.configs ==> id in after.configs && after.configs[id] == s.configs[id]
    ensures Agreement(after)
  {
    forall id | id in after.db.projects
      ensures Faithful(after, id)
    {
      assert Faithful(s, id);
    }
  }

  lemma CreateKeepsAgreement(s: Store, r: Create, fault: Option<Step>)
    requires Agreement(s)
    ensures Agreement(AfterCreate(s, r, fault).0)
  {
    hide Agreement, Rows;
    if AfterCreate(s, r, fault).1 == Accepted {
      OneProjectChanges(s, Created(s, r), r.id);
    } else {
      SameRows(s, AfterCreate(s, r, fault).0);
    }
  }

  lemma UpdateKeepsAgreement(s: Store, r: Update, fault: Option<Step>)
    requires Agreement(s)
    ensures Agreement(AfterUpdate(s, r, fault).0)
  {
    hide Rows;
    if AfterUpdate(s, r, fault).1 == Accepted {
      assert Faithful(s, r.id);
      OneProjectChanges(s, Updated(s, r), r.id);
    }
  }

  lemma OrderedIsFaithful(s: Store, r: Order)
    requires CanOrder(s, r) && Faithful(s, r.id)
    ensures Faithful(Ordered(s, r), r.id)
  {
    hide Rows, KindOf;
  }

  lemma OrderKeepsAgreement(s: Store, r: Order, fault: Option<Step>)
    requires Agreement(s)
    ensures Agreement(AfterOrder(s, r, fault).0)
  {
    hide OrderedProject, OrderSteps, Rows, KindOf, Faithful;
    if AfterOrder(s, r, fault).1 == Accepted {
      OrderedIsFaithful(s, r);
      OneProjectChanges(s, Ordered(s, r), r.id);
    }
  }

  lemma CallKeepsAgreement(s: Store, call: Call, fault: Option<Step>)
    requires Agreement(s)
    ensures Agreement(AfterCall(s, call, fault).0)
  {
    match call
    case Creating(r) => CreateKeepsAgreement(s, r, fault);
    case Updating(r) => UpdateKeepsAgreement(s, r, fault);
    case Ordering(r) => OrderKeepsAgreement(s, r, fault);
  }

  /** Files and database agree after any run of commands with any faults. */
  lemma {:induction false} AgreementAlways(s: Store, attempts: seq<Attempt>)
    requires Agreement(s)
    ensures Agreement(Run(s, attempts))
  {
    hide AfterCall;
    if attempts == [] {
    } else {
      AgreementAlways(s, attempts[..|attempts| - 1]);
      var last := attempts[|attempts| - 1];
      CallKeepsAgreement(Run(s, attempts[..|attempts| - 1]), last.call, last.fault);
    }
  }

  // ----- What a failure leaves behind -------------------------------------------------------------

  /** The call is a create that reaches its configuration file and fails right after it. */
  predicate LeavesOrphan(s: Store, call: Call, fault: Option<Step>) {
    call.Creating? && fault == Some(SyncConfig) && call.create.key !in s.db.keys && CanCreate(s, call.create)
  }

  /** Every command without success leaves database and files as they were,
      except exactly the create whose configuration file was in place when its
      directory synchronisation failed. */
  lemma FailureLeavesNothing(s: Store, call: Call, fault: Option<Step>)
    requires AfterCall(s, call, fault).1 != Accepted
    ensures AfterCall(s, call, fault).0 == s <==> !LeavesOrphan(s, call, fault)
  {
    if LeavesOrphan(s, call, fault) {
      assert call.create.id in AfterCall(s, call, fault).0.configs;
    }
  }

  /** It happens from the empty store on: the first create fails at its directory
      synchronisation, and "alpha" is orphaned. */
  lemma OrphanArises()
    ensures var s := Store(Db(map[], map[], []), map[], map[], map[]);
            var call := Creating(Create("k", "alpha", "Alpha", false, None, "main", "default", None, Some(1),
                                        Some(Empty)));
            && Agreement(s) && LeavesOrphan(s, call, Some(SyncConfig))
            && AfterCall(s, call, Some(SyncConfig)).0 != s
            && Orphaned(Run(s, [Attempt(call, Some(SyncConfig))]), "alpha")
  {
    var s := Store(Db(map[], map[], []), map[], map[], map[]);
    var call := Creating(Create("k", "alpha", "Alpha", false, None, "main", "default", None, Some(1), Some(Empty)));
    var attempts := [Attempt(call, Some(SyncConfig))];
    assert attempts[..0] == [];
    assert Run(s, attempts) == AfterCall(s, call, Some(SyncConfig)).0;
    assert "alpha" in AfterCall(s, call, Some(SyncConfig)).0.configs;
  }

  /** That create leaves a configuration file without a project, and nothing else. */
  lemma OrphanIsOneFile(s: Store, call: Call, fault: Option<Step>)
    requires LeavesOrphan(s, call, fault)
    ensures var (after, outcome) := AfterCall(s, call, fault);
            && outcome == Failed && after == s.(configs := after.configs)
            && after.configs.Keys == s.configs.Keys + {call.create.id}
            && call.create.id !in s.configs && call.create.id !in after.db.projects
  {
  }

  predicate Orphaned(s: Store, id: string) { id in s.configs && id !in s.db.projects }

  lemma CallKeepsOrphan(s: Store, call: Call, fault: Option<Step>, id: string)
    requires Orphaned(s, id)
    ensures Orphaned(AfterCall(s, call, fault).0, id)
  {
  }

  lemma {:induction false} OrphanStays(s: Store, id: string, attempts: seq<Attempt>)
    requires Orphaned(s, id)
    ensures Orphaned(Run(s, attempts), id)
  {
    hide AfterCall;
    if attempts == [] {
    } else {
      var front, last := attempts[..|attempts| - 1], attempts[|attempts| - 1];
      OrphanStays(s, id, front);
      CallKeepsOrphan(Run(s, front), last.call, last.fault, id);
    }
  }

  /** From then on, in every run, the project cannot be created. */
  lemma OrphanBlocksForever(s: Store, id: string, attempts: seq<Attempt>, r: Create, fault: Option<Step>)
    requires Orphaned(s, id) && r.id == id
    ensures AfterCreate(Run(s, attempts), r, fault).1 != Accepted
  {
    OrphanStays(s, id, attempts);
  }

  // ----- If-Match -----------------------------------------------------------------------------------

  predicate RevisionAtLeast(s: Store, id: string, revision: nat) {
    id in s.db.projects && s.db.projects[id].revision >= revision
  }

  lemma CallKeepsRevision(s: Store, call: Call, fault: Option<Step>, id: string, revision: nat)
    requires RevisionAtLeast(s, id, revision)
    ensures RevisionAtLeast(AfterCall(s, call, fault).0, id, revision)
  {
    hide PlaceIsFree, NewConfig, Rows;
  }

  lemma {:induction false} RevisionsNeverFall(s: Store, id: string, revision: nat, attempts: seq<Attempt>)
    requires RevisionAtLeast(s, id, revision)
    ensures RevisionAtLeast(Run(s, attempts), id, revision)
  {
    hide AfterCall;
    if attempts == [] {
    } else {
      var front, last := attempts[..|attempts| - 1], attempts[|attempts| - 1];
      RevisionsNeverFall(s, id, revision, front);
      CallKeepsRevision(Run(s, front), last.call, last.fault, id, revision);
    }
  }

  /** After an accepted update no update or command with the same `If-Match` on
      that project is ever accepted again. */
  lemma UpdatedOncePerRevision(s: Store, first: Update, fault: Option<Step>, attempts: seq<Attempt>, call: Call,
                               later: Option<Step>)
    requires AfterUpdate(s, first, fault).1 == Accepted
    requires (call.Updating? && call.update.id == first.id && call.update.expected == first.expected)
          || (call.Ordering? && call.order.id == first.id && call.order.expected == first.expected)
    ensures AfterCall(Run(AfterUpdate(s, first, fault).0, attempts), call, later).1 != Accepted
  {
    hide Run, Rows;
    RevisionsNeverFall(AfterUpdate(s, first, fault).0, first.id, first.expected + 1, attempts);
  }

  predicate ArchivedIn(s: Store, id: string) {
    id in s.db.projects && s.db.projects[id].archived && !s.db.projects[id].enabled
  }

  lemma OrderOfArchived(s: Store, r: Order, fault: Option<Step>, id: string)
    requires ArchivedIn(s, id)
    ensures var after := AfterOrder(s, r, fault).0;
            && ArchivedIn(after, id)
            && (after.db.projects[id] != s.db.projects[id] ==> r.id == id && r.command == Rescan)
  {
    hide Rows, KindOf, CommandBodyOf, OrderSteps;
  }

  /** Only a rescan changes the row of an archived project, and it leaves it archived. */
  lemma ArchivedChangesOnlyByRescan(s: Store, call: Call, fault: Option<Step>, id: string)
    requires ArchivedIn(s, id)
    ensures var after := AfterCall(s, call, fault).0;
            && ArchivedIn(after, id)
            && (after.db.projects[id] != s.db.projects[id] ==>
                  call.Ordering? && call.order.id == id && call.order.command == Rescan)
  {
    hide PlaceIsFree, NewConfig, Rows, AfterOrder;
    if call.Ordering? { OrderOfArchived(s, call.order, fault, id); }
  }

  /** In every run an archived project stays archived and disabled. */
  lemma {:induction false} ArchivedForever(s: Store, id: string, attempts: seq<Attempt>)
    requires ArchivedIn(s, id)
    ensures ArchivedIn(Run(s, attempts), id)
  {
    hide AfterCall;
    if attempts == [] {
    } else {
      var front, last := attempts[..|attempts| - 1], attempts[|attempts| - 1];
      ArchivedForever(s, id, front);
      ArchivedChangesOnlyByRescan(Run(s, front), last.call, last.fault, id);
    }
  }

  // ----- Idempotency keys ---------------------------------------------------------------------------

  function KeyOf(call: Call): string {
    match call
    case Creating(r) => r.key
    case Updating(r) => r.key
    case Ordering(r) => r.key
  }

  function BodyOf(call: Call): Body {
    match call
    case Creating(r) => CreateBodyOf(r)
    case Updating(r) => UpdateBodyOf(r)
    case Ordering(r) => CommandBodyOf(r)
  }

  /** The call gets as far as answering from its recorded key. */
  predicate GetsToReplay(call: Call, fault: Option<Step>) {
    if call.Creating? then call.create.policy.Some? && fault != Some(Lookup)
    else !FailsAt(fault, {Begin, Reserve, Commit})
  }

  /** A failed attempt does not use up its idempotency key; an accepted one
      found it free and records it. */
  lemma KeysRecordAcceptedCalls(s: Store, call: Call, fault: Option<Step>)
    ensures var (after, outcome) := AfterCall(s, call, fault);
            if outcome == Accepted then
              KeyOf(call) !in s.db.keys && after.db.keys == s.db.keys[KeyOf(call) := BodyOf(call)]
            else after.db == s.db
  {
    hide CanCreate, CanUpdate, CanOrder, NewConfig, NewProject, UpdatedProject, OrderedProject, Rows;
  }

  predicate Holds(s: Store, key: string, body: Body) { key in s.db.keys && s.db.keys[key] == body }

  lemma {:induction false} KeysStay(s: Store, attempts: seq<Attempt>, key: string, body: Body)
    requires Holds(s, key, body)
    ensures Holds(Run(s, attempts), key, body)
  {
    hide AfterCall;
    if attempts == [] {
    } else {
      var front, last := attempts[..|attempts| - 1], attempts[|attempts| - 1];
      KeysStay(s, front, key, body);
      KeysRecordAcceptedCalls(Run(s, front), last.call, last.fault);
    }
  }

  /** Once a call is accepted, then after any further run every call under its
      key leaves database and files alone: it is answered as a replay if it is
      the same request and gets that far, and fails otherwise. */
  lemma AcceptedOncePerKey(s: Store, first: Call, fault: Option<Step>, attempts: seq<Attempt>, call: Call,
                           later: Option<Step>)
    requires AfterCall(s, first, fault).1 == Accepted && KeyOf(call) == KeyOf(first)
    ensures var now := Run(AfterCall(s, first, fault).0, attempts);
            AfterCall(now, call, later)
            == (now, if BodyOf(call) == BodyOf(first) && GetsToReplay(call, later) then Replayed else Failed)
  {
    hide Run, CanCreate, CanUpdate, CanOrder, Created, Updated, Ordered, CreateBodyOf, UpdateBodyOf, CommandBodyOf;
    KeysRecordAcceptedCalls(s, first, fault);
    KeysStay(AfterCall(s, first, fault).0, attempts, KeyOf(first), BodyOf(first));
  }
}
