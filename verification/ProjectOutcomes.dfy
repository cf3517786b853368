/** What a project command with a new key answers and leaves behind: exactly when
    it goes through, which faults stop it, and every field of the row and of the
    file it writes. */
module ProjectOutcomes {
  import opened Wrappers
  import opened ProjectStorage

  /** The three records of a command and its completed key; the rest of the
      database is as `projects` says. */
  ghost predicate OnRecord(s: Store, after: Store, key: string, body: Body, kind: string, revision: nat) {
    && after.db.keys == s.db.keys[key := body]
    && after.db.rows == s.db.rows + [OperationRow(kind, body.id, revision), AuditRow(kind, body.id),
                                     EventRow(kind, body.id)]
  }

  /** The row and the file of one project say the same, and only they change. */
  ghost predicate OnlyProject(s: Store, after: Store, id: string) {
    && id in after.db.projects && id in after.configs
    && after.db.projects == s.db.projects[id := after.db.projects[id]]
    && after.configs == s.configs[id := after.configs[id]]
  }

  /** The file a row stands for, under the limits of a policy. */
  ghost predicate Renders(config: Config, id: string, row: Project, policy: Policy) {
    && config.id == id && config.name == row.name && config.enabled == row.enabled
    && config.policyId == row.policyId && config.policy == policy && config.branch == row.branch
    && row.digest == Sha256(config)
  }

  lemma EveryStep(step: Step)
    ensures step in {Lookup, Stage, Begin, Reserve, ReadConfig, Render, MoveRepository, MoveData, WriteConfig,
                     SyncConfig, WriteRow, RecordOperation, Audit, Emit, Complete, Commit}
  {
  }

  /** The steps a create does not take. */
  lemma CreateIsSpared(r: Create, fault: Option<Step>)
    ensures FailsAt(fault, CreateSteps(r) + {Lookup, Stage}) <==>
              !(fault.None? || fault == Some(ReadConfig) || (r.existing && fault == Some(MoveRepository)))
  {
    if fault.Some? { EveryStep(fault.value); }
  }

  lemma UpdateIsSpared(fault: Option<Step>)
    ensures FailsAt(fault, UPDATE_STEPS + {Begin, Reserve}) <==>
              !(fault.None? || fault.value in {Lookup, Stage, MoveRepository, MoveData})
  {
    if fault.Some? { EveryStep(fault.value); }
  }

  lemma OrderIsSpared(s: Store, r: Order, fault: Option<Step>)
    requires CanOrder(s, r)
    ensures FailsAt(fault, OrderSteps(s, r) + {Begin, Reserve}) <==>
              !(|| fault.None? || fault.value in {Lookup, Stage, MoveRepository, MoveData}
                || (OrderedProject(s.db.projects[r.id], r) == s.db.projects[r.id]
                    && fault.value in {WriteConfig, SyncConfig, WriteRow}))
  {
    hide OrderedProject;
    if fault.Some? { EveryStep(fault.value); }
  }

  // ----- Create --------------------------------------------------------------------------

  /** A create with a new key goes through exactly when its policy exists, nothing
      is in its place, its repository is there or can be made, and no step it takes
      fails. */
  lemma CreateGoesThrough(s: Store, r: Create, fault: Option<Step>)
    requires r.key !in s.db.keys
    ensures AfterCreate(s, r, fault).1 == Accepted <==>
              && r.policy.Some? && r.id !in s.db.projects && r.id !in s.configs && r.id !in s.datas
              && (r.existing <==> r.id in s.repos) && (!r.existing ==> r.repository.Some?)
              && (fault.None? || fault == Some(ReadConfig) || (r.existing && fault == Some(MoveRepository)))
    ensures AfterCreate(s, r, fault).1 != Replayed
  {
    hide Created, NewConfig, CreateBodyOf, CreateSteps;
    CreateIsSpared(r, fault);
  }

  /** It leaves the project disabled, unarchived and at revision 1, with its file,
      an empty data directory and the prepared repository. */
  lemma CreateLeaves(s: Store, r: Create, fault: Option<Step>)
    requires AfterCreate(s, r, fault).1 == Accepted
    ensures var after := AfterCreate(s, r, fault).0;
            && r.policy.Some? && OnlyProject(s, after, r.id)
            && var row := after.db.projects[r.id];
               && row.name == r.name && row.policyId == r.policyId && row.branch == r.branch
               && row.sandbox == r.sandbox && !row.enabled && !row.archived && row.revision == 1
               && Renders(after.configs[r.id], r.id, row, r.policy.value)
               && after.datas == s.datas[r.id := Empty]
               && (if r.existing then after.repos == s.repos
                   else r.repository.Some? && after.repos == s.repos[r.id := r.repository.value])
               && OnRecord(s, after, r.key,
                           CreateBody(r.id, r.name, r.existing, r.url, r.branch, r.policyId, r.sandbox),
                           "project.create", 1)
  {
    hide CreateSteps;
  }

  // ----- Update --------------------------------------------------------------------------

  /** An update with a new key goes through exactly on a project that is not
      archived, is at the expected revision and has its file, for a policy that
      exists, unless a step it takes fails. */
  lemma UpdateGoesThrough(s: Store, r: Update, fault: Option<Step>)
    requires r.key !in s.db.keys
    ensures AfterUpdate(s, r, fault).1 == Accepted <==>
              && r.policy.Some? && r.id in s.db.projects && r.id in s.configs
              && !s.db.projects[r.id].archived && s.db.projects[r.id].revision == r.expected
              && (fault.None? || fault.value in {Lookup, Stage, MoveRepository, MoveData})
    ensures AfterUpdate(s, r, fault).1 != Replayed
  {
    hide Updated;
    UpdateIsSpared(fault);
  }

  /** It sets just the members it was given, and raises the revision by one. */
  lemma UpdateLeaves(s: Store, r: Update, fault: Option<Step>)
    requires AfterUpdate(s, r, fault).1 == Accepted
    ensures var after := AfterUpdate(s, r, fault).0;
            && r.policy.Some? && r.id in s.db.projects && OnlyProject(s, after, r.id)
            && var was, row := s.db.projects[r.id], after.db.projects[r.id];
               && (if r.name.Some? then row.name == r.name.value else row.name == was.name)
               && (if r.policyId.Some? then row.policyId == r.policyId.value else row.policyId == was.policyId)
               && (if r.sandbox.Some? then row.sandbox == r.sandbox.value else row.sandbox == was.sandbox)
               && row.enabled == was.enabled && row.archived == was.archived && row.branch == was.branch
               && row.revision == was.revision + 1
               && Renders(after.configs[r.id], r.id, row, r.policy.value)
               && after.datas == s.datas && after.repos == s.repos
               && OnRecord(s, after, r.key, UpdateBody(r.id, r.name, r.policyId, r.sandbox), "project.update",
                           row.revision)
  {
  }

  // ----- Enable, disable, rescan and archive -----------------------------------------------

  /** The row differs from what the command asks for, so that there is something
      to write. */
  ghost predicate Differs(was: Project, r: Order)
    requires r.policy.Some?
  {
    || (r.command == Enable && !was.enabled)
    || (r.command == Disable && was.enabled)
    || (r.command == Archive && (was.enabled || !was.archived))
    || was.digest.of.policy != r.policy.value
  }

  /** The row is the one its file was rendered from, as in every store in which
      files and rows agree. */
  ghost predicate Rendered(s: Store, id: string) {
    && id in s.db.projects && id in s.configs
    && Renders(s.configs[id], id, s.db.projects[id], s.configs[id].policy)
  }

  lemma AgreementRenders(s: Store, id: string)
    requires Agreement(s) && id in s.db.projects
    ensures Rendered(s, id)
  {
    assert Faithful(s, id);
  }

  lemma WritesWhenItDiffers(s: Store, r: Order)
    requires CanOrder(s, r) && Rendered(s, r.id)
    ensures OrderedProject(s.db.projects[r.id], r) != s.db.projects[r.id] <==> Differs(s.db.projects[r.id], r)
  {
  }

  /** A command with a new key goes through exactly on a project at the expected
      revision whose files are there and whose repository is in order: an archived
      one takes only a rescan, disable and archive wait for active work, enable and
      rescan want a clean tree. Where nothing differs there is no write to fail. */
  lemma OrderGoesThrough(s: Store, r: Order, fault: Option<Step>)
    requires r.key !in s.db.keys && (r.id in s.db.projects ==> Rendered(s, r.id))
    ensures AfterOrder(s, r, fault).1 == Accepted <==>
              && r.policy.Some? && r.valid && r.id in s.db.projects && r.id in s.configs && r.id in s.repos
              && s.db.projects[r.id].revision == r.expected
              && (match r.command
                  case Enable => !s.db.projects[r.id].archived && r.clean
                  case Disable => !s.db.projects[r.id].archived && !r.busy
                  case Archive => !s.db.projects[r.id].archived && !r.busy
                  case Rescan => r.clean)
              && (|| fault.None? || fault.value in {Lookup, Stage, MoveRepository, MoveData}
                  || (!Differs(s.db.projects[r.id], r) && fault.value in {WriteConfig, SyncConfig, WriteRow}))
    ensures AfterOrder(s, r, fault).1 != Replayed
  {
    hide Ordered, OrderedProject, OrderSteps, Differs;
    if CanOrder(s, r) {
      WritesWhenItDiffers(s, r);
      OrderIsSpared(s, r, fault);
    }
  }

  /** Enable leaves the project enabled, disable and archive leave it disabled,
      archive leaves it archived, and a rescan keeps both flags. Nothing else of
      the row changes but its digest, and the revision rises by one exactly when
      something does. */
  lemma OrderLeaves(s: Store, r: Order, fault: Option<Step>)
    requires AfterOrder(s, r, fault).1 == Accepted && Rendered(s, r.id)
    ensures var after := AfterOrder(s, r, fault).0;
            && r.policy.Some? && OnlyProject(s, after, r.id)
            && var was, row := s.db.projects[r.id], after.db.projects[r.id];
               && row.enabled == (match r.command
                                  case Enable => true
                                  case Disable => false
                                  case Archive => false
                                  case Rescan => was.enabled)
               && row.archived == (if r.command == Archive then true else was.archived)
               && row.name == was.name && row.policyId == was.policyId && row.branch == was.branch
               && row.sandbox == was.sandbox
               && row.revision == (if Differs(was, r) then was.revision + 1 else was.revision)
               && Renders(after.configs[r.id], r.id, row, r.policy.value)
               && after.datas == s.datas && after.repos == s.repos
               && OnRecord(s, after, r.key, CommandBody(r.id, r.command, r.reason), OrderName(r.command),
                           row.revision)
  {
    hide OrderSteps, OrderedProject, Differs;
    WritesWhenItDiffers(s, r);
    OrderedRow(s.db.projects[r.id], r);
    var row := OrderedProject(s.db.projects[r.id], r);
    assert KindOf(r.command) == OrderName(r.command);
    if row == s.db.projects[r.id] {
      assert s.db.projects[r.id := s.db.projects[r.id]] == s.db.projects;
      assert s.configs[r.id := s.configs[r.id]] == s.configs;
    }
  }

  /** Where nothing differs, neither row nor file is written. */
  lemma UnchangedOrderWritesNothing(s: Store, r: Order, fault: Option<Step>)
    requires AfterOrder(s, r, fault).1 == Accepted && OrderedProject(s.db.projects[r.id], r) == s.db.projects[r.id]
    ensures var after := AfterOrder(s, r, fault).0;
            after == s.(db := s.db.(keys := after.db.keys, rows := after.db.rows))
  {
    hide OrderedProject, OrderSteps, Rows;
  }

  lemma OrderedRow(was: Project, r: Order)
    requires r.policy.Some? && (was.archived ==> r.command == Rescan)
    ensures var row := OrderedProject(was, r);
            && row.enabled == (match r.command
                               case Enable => true
                               case Disable => false
                               case Archive => false
                               case Rescan => was.enabled)
            && row.archived == (if r.command == Archive then true else was.archived)
            && row == was.(enabled := row.enabled, archived := row.archived, digest := row.digest,
                           revision := if row == was then was.revision else was.revision + 1)
            && row.digest
               == Sha256(Config(r.id, row.name, row.enabled, row.policyId, r.policy.value, row.branch))
  {
  }

  /** The name a command has in its records. */
  function OrderName(command: Command): string {
    "project." + (match command
                  case Enable => "enable"
                  case Disable => "disable"
                  case Rescan => "rescan"
                  case Archive => "archive")
  }
}
