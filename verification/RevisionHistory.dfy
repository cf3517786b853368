/** Sandbox profiles and their stored source revisions, written by three entry
    points - create, update and import - each one transaction that may fail at
    any statement, while other writers change a profile's state. */
module RevisionHistory {
  import opened Wrappers

  // ----- Tables --------------------------------------------------------------------------

  /** A validated source and the profile name it declares. SHA-256 is taken to be
      injective, so sources are compared where the program compares digests. */
  datatype Source = Source(name: string, text: string)

  datatype State = Draft | Ready | Active | Inactive | Archived

  datatype Profile = Profile(name: string, state: State, currentId: string, currentNumber: nat, resource: nat)

  datatype Revision = Revision(revisionId: string, sandboxId: string, number: nat, source: Source)

  /** What identifies a request under its idempotency key; `If-Match` is not part of it. */
  datatype Body = CreateBody(source: Source) | UpdateBody(sandboxId: string, source: Source)

  /** `names` is the unique index on the profile name. */
  datatype Db = Db(profiles: map<string, Profile>, names: map<string, string>, revisions: seq<Revision>,
                   keys: map<string, Body>)

  datatype Step = Begin | Reserve | InsertProfile | InsertRevision | PointProfile | Record | Commit

  datatype Outcome = Accepted | Replayed | Unchanged | Failed

  /** Primary key and uniqueness constraints of a new revision row. */
  predicate RevisionFits(revisions: seq<Revision>, r: Revision) {
    forall i :: 0 <= i < |revisions| ==>
      revisions[i].revisionId != r.revisionId
      && !(revisions[i].sandboxId == r.sandboxId && revisions[i].number == r.number)
  }

  /** The revision row of a profile, searched from the newest. */
  function Find(revisions: seq<Revision>, id: string, revisionId: string): Option<Revision> {
    if revisions == [] then None
    else
      var last := revisions[|revisions| - 1];
      if last.sandboxId == id && last.revisionId == revisionId then Some(last)
      else Find(revisions[..|revisions| - 1], id, revisionId)
  }

  /** The revision a profile points to: the join of the two tables. */
  function Current(db: Db, id: string): Option<Revision> {
    if id !in db.profiles then None else Find(db.revisions, id, db.profiles[id].currentId)
  }

  // ----- What each entry point amounts to -----------------------------------------------------

  predicate FailsAt(fault: Option<Step>, steps: set<Step>) { fault.Some? && fault.value in steps }

  predicate CanInsert(db: Db, id: string, revisionId: string, source: Source) {
    && source.name !in db.names && id !in db.profiles
    && RevisionFits(db.revisions, Revision(revisionId, id, 1, source))
  }

  function Inserted(db: Db, id: string, revisionId: string, source: Source): Db {
    db.(profiles := db.profiles[id := Profile(source.name, Draft, revisionId, 1, 1)],
        names := db.names[source.name := id],
        revisions := db.revisions + [Revision(revisionId, id, 1, source)])
  }

  predicate CanAppend(db: Db, id: string, revisionId: string, source: Source) {
    && id in db.profiles
    && RevisionFits(db.revisions, Revision(revisionId, id, db.profiles[id].currentNumber + 1, source))
    && revisionId != db.profiles[id].currentId
  }

  function Appended(db: Db, id: string, revisionId: string, source: Source): Db
    requires id in db.profiles
  {
    var p := db.profiles[id];
    db.(profiles := db.profiles[id := p.(currentId := revisionId, currentNumber := p.currentNumber + 1,
                                         resource := p.resource + 1)],
        revisions := db.revisions + [Revision(revisionId, id, p.currentNumber + 1, source)])
  }

  function Replay(db: Db, key: string, body: Body, fault: Option<Step>): Outcome
    requires key in db.keys
  {
    if fault == Some(Commit) || db.keys[key] != body then Failed else Replayed
  }

  /** `id` and `revisionId` are the identifiers drawn for the call. */
  function AfterCreate(db: Db, key: string, source: Source, id: string, revisionId: string, fault: Option<Step>)
    : (Db, Outcome)
  {
    if FailsAt(fault, {Begin, Reserve}) then (db, Failed)
    else if key in db.keys then (db, Replay(db, key, CreateBody(source), fault))
    else if !CanInsert(db, id, revisionId, source) || FailsAt(fault, {InsertProfile, InsertRevision, Record, Commit})
      then (db, Failed)
    else (Inserted(db, id, revisionId, source).(keys := db.keys[key := CreateBody(source)]), Accepted)
  }

  predicate CanUpdate(db: Db, id: string, expected: nat, source: Source) {
    && Current(db, id).Some? && db.profiles[id].resource == expected && db.profiles[id].state != Archived
    && source.name == db.profiles[id].name && source != Current(db, id).value.source
  }

  function AfterUpdate(db: Db, key: string, id: string, expected: nat, source: Source, revisionId: string,
                       fault: Option<Step>)
    : (Db, Outcome)
  {
    if FailsAt(fault, {Begin, Reserve}) then (db, Failed)
    else if key in db.keys then (db, Replay(db, key, UpdateBody(id, source), fault))
    else if !CanUpdate(db, id, expected, source) || !CanAppend(db, id, revisionId, source)
            || FailsAt(fault, {InsertRevision, PointProfile, Record, Commit}) then (db, Failed)
    else (Appended(db, id, revisionId, source).(keys := db.keys[key := UpdateBody(id, source)]), Accepted)
  }

  function AfterImport(db: Db, source: Source, id: string, revisionId: string, fault: Option<Step>): (Db, Outcome) {
    if fault == Some(Begin) then (db, Failed)
    else if source.name in db.names && Current(db, db.names[source.name]).Some? then
      var known := db.names[source.name];
      if Current(db, known).value.source == source then (db, Unchanged)
      else if !CanAppend(db, known, revisionId, source) || FailsAt(fault, {InsertRevision, PointProfile, Commit})
        then (db, Failed)
      else (Appended(db, known, revisionId, source), Accepted)
    else if !CanInsert(db, id, revisionId, source) || FailsAt(fault, {InsertProfile, InsertRevision, Commit})
      then (db, Failed)
    else (Inserted(db, id, revisionId, source), Accepted)
  }

  /** Another writer gives a profile a new state; the guard makes it advance the
      resource revision by one. */
  function AfterStateChange(db: Db, id: string, state: State): Db {
    if id !in db.profiles then db
    else db.(profiles := db.profiles[id := db.profiles[id].(state := state, resource := db.profiles[id].resource + 1)])
  }

  // ----- The entry points as the program runs them --------------------------------------------------

  class HermesfileStore {
    var committed: Db
    /** What the open transaction sees; a rollback returns to `committed`. */
    var working: Db

    constructor (db: Db)
      ensures committed == db
    {
      committed, working := db, db;
    }

    method InsertProfileRow(id: string, p: Profile, fault: Option<Step>) returns (ok: bool)
      modifies this`working
      ensures ok <==> p.name !in old(working).names && id !in old(working).profiles && fault != Some(InsertProfile)
      ensures ok ==> working == old(working).(profiles := old(working).profiles[id := p],
                                              names := old(working).names[p.name := id])
    {
      if p.name in working.names || id in working.profiles || fault == Some(InsertProfile) { return false; }
      working := working.(profiles := working.profiles[id := p], names := working.names[p.name := id]);
      ok := true;
    }

    method InsertRevisionRow(r: Revision, fault: Option<Step>) returns (ok: bool)
      modifies this`working
      ensures ok <==> RevisionFits(old(working).revisions, r) && fault != Some(InsertRevision)
      ensures ok ==> working == old(working).(revisions := old(working).revisions + [r])
    {
      if !RevisionFits(working.revisions, r) || fault == Some(InsertRevision) { return false; }
      working := working.(revisions := working.revisions + [r]);
      ok := true;
    }

    /** The update of a profile row, under the guards that both revisions advance by one. */
    method UpdateProfileRow(id: string, currentId: string, currentNumber: nat, resource: nat, fault: Option<Step>)
      returns (ok: bool)
      requires id in working.profiles
      modifies this`working
      ensures var was := old(working).profiles[id];
              && (ok <==>
                  && resource == was.resource + 1 && currentNumber == was.currentNumber + 1
                  && currentId != was.currentId && fault != Some(PointProfile))
              && (ok ==> working == old(working).(profiles := old(working).profiles[id :=
                           was.(currentId := currentId, currentNumber := currentNumber, resource := resource)]))
    {
      var was := working.profiles[id];
      if resource != was.resource + 1 || currentNumber != was.currentNumber + 1 || currentId == was.currentId {
        return false;
      }
      if fault == Some(PointProfile) { return false; }
      working := working.(profiles := working.profiles[id :=
        was.(currentId := currentId, currentNumber := currentNumber, resource := resource)]);
      ok := true;
    }

    method Create(key: string, source: Source, id: string, revisionId: string, fault: Option<Step>)
      returns (outcome: Outcome)
      modifies this
      ensures (committed, outcome) == AfterCreate(old(committed), key, source, id, revisionId, fault)
    {
      if FailsAt(fault, {Begin, Reserve}) { return Failed; }
      working := committed;
      if key in working.keys { return Replay(working, key, CreateBody(source), fault); }
      if source.name in working.names { return Failed; }
      var ok := InsertProfileRow(id, Profile(source.name, Draft, revisionId, 1, 1), fault);
      if !ok { return Failed; }
      ok := InsertRevisionRow(Revision(revisionId, id, 1, source), fault);
      if !ok || FailsAt(fault, {Record, Commit}) { return Failed; }
      working := working.(keys := working.keys[key := CreateBody(source)]);
      committed := working;
      outcome := Accepted;
    }

    method Update(key: string, id: string, expected: nat, source: Source, revisionId: string, fault: Option<Step>)
      returns (outcome: Outcome)
      modifies this
      ensures (committed, outcome) == AfterUpdate(old(committed), key, id, expected, source, revisionId, fault)
    {
      if FailsAt(fault, {Begin, Reserve}) { return Failed; }
      working := committed;
      if key in working.keys { return Replay(working, key, UpdateBody(id, source), fault); }
      var row := Current(working, id);
      if row.None? { return Failed; }
      var p := working.profiles[id];
      if p.resource != expected || p.state == Archived || source.name != p.name || source == row.value.source {
        return Failed;
      }
      var ok := InsertRevisionRow(Revision(revisionId, id, p.currentNumber + 1, source), fault);
      if !ok { return Failed; }
      ok := UpdateProfileRow(id, revisionId, p.currentNumber + 1, p.resource + 1, fault);
      if !ok || FailsAt(fault, {Record, Commit}) { return Failed; }
      working := working.(keys := working.keys[key := UpdateBody(id, source)]);
      committed := working;
      outcome := Accepted;
    }

    method ImportSource(source: Source, newId: string, revisionId: string, fault: Option<Step>)
      returns (outcome: Outcome)
      modifies this
      ensures (committed, outcome) == AfterImport(old(committed), source, newId, revisionId, fault)
    {
      if fault == Some(Begin) { return Failed; }
      working := committed;
      var row := if source.name in working.names then Current(working, working.names[source.name]) else None;
      var created := row.None?;
      var id, number, resource := newId, 1, 1;
      if !created {
        if row.value.source == source { return Unchanged; }
        id := working.names[source.name];
        number := working.profiles[id].currentNumber + 1;
        resource := working.profiles[id].resource + 1;
      }
      var ok := true;
      if created {
        ok := InsertProfileRow(id, Profile(source.name, Draft, revisionId, number, resource), fault);
        if !ok { return Failed; }
      }
      ok := InsertRevisionRow(Revision(revisionId, id, number, source), fault);
      if !ok { return Failed; }
      if !created {
        ok := UpdateProfileRow(id, revisionId, number, resource, fault);
        if !ok { return Failed; }
      }
      if fault == Some(Commit) { return Failed; }
      committed := working;
      outcome := Accepted;
    }
  }

  // ----- Any interleaving of transactions -------------------------------------------------------------

  datatype Call =
    | Creating(key: string, source: Source, id: string, revisionId: string)
    | Updating(key: string, id: string, expected: nat, source: Source, revisionId: string)
    | Importing(source: Source, id: string, revisionId: string)
    | Changing(id: string, state: State)

  datatype Attempt = Attempt(call: Call, fault: Option<Step>)

  function AfterCall(db: Db, call: Call, fault: Option<Step>): (Db, Outcome) {
    match call
    case Creating(key, source, id, revisionId) => AfterCreate(db, key, source, id, revisionId, fault)
    case Updating(key, id, expected, source, revisionId) =>
      AfterUpdate(db, key, id, expected, source, revisionId, fault)
    case Importing(source, id, revisionId) => AfterImport(db, source, id, revisionId, fault)
    case Changing(id, state) => (AfterStateChange(db, id, state), Accepted)
  }

  function Run(db: Db, attempts: seq<Attempt>): Db {
    if attempts == [] then db
    else
      var last := attempts[|attempts| - 1];
      AfterCall(Run(db, attempts[..|attempts| - 1]), last.call, last.fault).0
  }

  // ----- The history of a profile -----------------------------------------------------------------------

  /** The stored revisions of one profile, oldest first. */
  function History(revisions: seq<Revision>, id: string): seq<Revision> {
    if revisions == [] then []
    else
      var last := revisions[|revisions| - 1];
      History(revisions[..|revisions| - 1], id) + (if last.sandboxId == id then [last] else [])
  }

  /** Revisions 1, 2, ..., current; neighbours from different sources; the profile
      points to the last one. */
  ghost predicate Chained(h: seq<Revision>, p: Profile) {
    && |h| == p.currentNumber >= 1 && h[|h| - 1].revisionId == p.currentId
    && (forall k :: 0 <= k < |h| ==> h[k].number == k + 1 && h[k].source.name == p.name)
    && (forall k :: 0 < k < |h| ==> DifferAt(h, k))
    && p.resource >= p.currentNumber
  }

  predicate DifferAt(h: seq<Revision>, k: nat)
    requires 0 < k < |h|
  {
    h[k - 1].source != h[k].source
  }

  predicate Indexed(db: Db, id: string)
    requires id in db.profiles
  {
    db.profiles[id].name in db.names && db.names[db.profiles[id].name] == id
  }

  ghost predicate Tidy(db: Db, id: string)
    requires id in db.profiles
  {
    Indexed(db, id) && Chained(History(db.revisions, id), db.profiles[id])
  }

  ghost predicate ProfilesTidy(db: Db) {
    forall id :: id in db.profiles ==> Tidy(db, id)
  }

  ghost predicate NamesResolve(db: Db) {
    forall name :: name in db.names ==> db.names[name] in db.profiles && db.profiles[db.names[name]].name == name
  }

  ghost predicate RevisionsOwned(db: Db) {
    forall i :: 0 <= i < |db.revisions| ==> db.revisions[i].sandboxId in db.profiles
  }

  ghost predicate IdentifiersDistinct(revisions: seq<Revision>) {
    forall i, j :: 0 <= i < j < |revisions| ==> revisions[i].revisionId != revisions[j].revisionId
  }

  ghost predicate Sound(db: Db) {
    ProfilesTidy(db) && NamesResolve(db) && RevisionsOwned(db) && IdentifiersDistinct(db.revisions)
  }

  lemma HistoryOfAppended(revisions: seq<Revision>, r: Revision, id: string)
    ensures History(revisions + [r], id)
         == if r.sandboxId == id then History(revisions, id) + [r] else History(revisions, id)
  {
    assert (revisions + [r])[..|revisions|] == revisions;
  }

  lemma {:induction false} NoHistory(revisions: seq<Revision>, id: string)
    requires forall i :: 0 <= i < |revisions| ==> revisions[i].sandboxId != id
    ensures History(revisions, id) == []
  {
    if revisions == [] {
    } else {
      NoHistory(revisions[..|revisions| - 1], id);
    }
  }

  /** The newest row of a profile is the one its identifier finds. */
  lemma {:induction false} FindNewest(revisions: seq<Revision>, id: string)
    requires History(revisions, id) != []
    ensures var h := History(revisions, id); Find(revisions, id, h[|h| - 1].revisionId) == Some(h[|h| - 1])
  {
    if revisions[|revisions| - 1].sandboxId == id {
    } else {
      FindNewest(revisions[..|revisions| - 1], id);
    }
  }

  /** The other profiles do not notice a revision row of profile `id`. */
  lemma OthersStayTidy(db: Db, after: Db, id: string, r: Revision, o: string)
    requires o in db.profiles && o != id && Tidy(db, o)
    requires o in after.profiles && after.profiles[o] == db.profiles[o] && Indexed(after, o)
    requires r.sandboxId == id && after.revisions == db.revisions + [r]
    ensures Tidy(after, o)
  {
    HistoryOfAppended(db.revisions, r, o);
  }

  lemma FirstRevisionChained(db: Db, id: string, revisionId: string, source: Source)
    requires RevisionsOwned(db) && id !in db.profiles
    ensures Tidy(Inserted(db, id, revisionId, source), id)
  {
    hide History;
    var r := Revision(revisionId, id, 1, source);
    NoHistory(db.revisions, id);
    HistoryOfAppended(db.revisions, r, id);
    assert History(db.revisions + [r], id) == [r];
  }

  lemma DistinctAppended(revisions: seq<Revision>, r: Revision)
    requires IdentifiersDistinct(revisions) && RevisionFits(revisions, r)
    ensures IdentifiersDistinct(revisions + [r])
  {
  }

  lemma InsertKeepsTidy(db: Db, id: string, revisionId: string, source: Source)
    requires ProfilesTidy(db) && RevisionsOwned(db) && CanInsert(db, id, revisionId, source)
    ensures ProfilesTidy(Inserted(db, id, revisionId, source))
  {
    hide History, Chained;
    var after := Inserted(db, id, revisionId, source);
    forall o | o in after.profiles
      ensures Tidy(after, o)
    {
      if o == id {
        FirstRevisionChained(db, id, revisionId, source);
      } else {
        assert Tidy(db, o);
        OthersStayTidy(db, after, id, Revision(revisionId, id, 1, source), o);
      }
    }
  }

  lemma InsertKeepsIndexes(db: Db, id: string, revisionId: string, source: Source)
    requires CanInsert(db, id, revisionId, source) && NamesResolve(db) && RevisionsOwned(db)
    ensures NamesResolve(Inserted(db, id, revisionId, source)) && RevisionsOwned(Inserted(db, id, revisionId, source))
  {
  }

  lemma InsertKeepsSound(db: Db, id: string, revisionId: string, source: Source)
    requires Sound(db) && CanInsert(db, id, revisionId, source)
    ensures Sound(Inserted(db, id, revisionId, source))
  {
    hide ProfilesTidy;
    InsertKeepsTidy(db, id, revisionId, source);
    DistinctAppended(db.revisions, Revision(revisionId, id, 1, source));
    InsertKeepsIndexes(db, id, revisionId, source);
  }

  lemma AppendKeepsChain(h: seq<Revision>, p: Profile, r: Revision, q: Profile)
    requires Chained(h, p) && r.number == p.currentNumber + 1 && r.source.name == p.name
             && r.source != h[|h| - 1].source
    requires q == p.(currentId := r.revisionId, currentNumber := p.currentNumber + 1, resource := p.resource + 1)
    ensures Chained(h + [r], q)
  {
    forall k | 0 < k < |h + [r]|
      ensures DifferAt(h + [r], k)
    {
      if k < |h| { assert DifferAt(h, k); }
    }
  }

  lemma NextRevisionChained(db: Db, id: string, revisionId: string, source: Source)
    requires id in db.profiles && Tidy(db, id) && source.name == db.profiles[id].name
    requires Current(db, id).Some? && Current(db, id).value.source != source
    ensures Tidy(Appended(db, id, revisionId, source), id)
  {
    hide History, DifferAt;
    var p := db.profiles[id];
    var r := Revision(revisionId, id, p.currentNumber + 1, source);
    FindNewest(db.revisions, id);
    HistoryOfAppended(db.revisions, r, id);
    AppendKeepsChain(History(db.revisions, id), p, r, Appended(db, id, revisionId, source).profiles[id]);
  }

  lemma AppendKeepsTidy(db: Db, id: string, revisionId: string, source: Source)
    requires ProfilesTidy(db) && id in db.profiles && source.name == db.profiles[id].name
    requires Current(db, id).Some? && Current(db, id).value.source != source
    ensures ProfilesTidy(Appended(db, id, revisionId, source))
  {
    hide History, Chained, Current;
    var after := Appended(db, id, revisionId, source);
    forall o | o in after.profiles
      ensures Tidy(after, o)
    {
      assert Tidy(db, o);
      if o == id {
        NextRevisionChained(db, id, revisionId, source);
      } else {
        OthersStayTidy(db, after, id, Revision(revisionId, id, db.profiles[id].currentNumber + 1, source), o);
      }
    }
  }

  lemma AppendKeepsIndexes(db: Db, id: string, revisionId: string, source: Source)
    requires id in db.profiles && NamesResolve(db) && RevisionsOwned(db)
    ensures NamesResolve(Appended(db, id, revisionId, source)) && RevisionsOwned(Appended(db, id, revisionId, source))
  {
  }

  lemma AppendKeepsSound(db: Db, id: string, revisionId: string, source: Source)
    requires Sound(db) && CanAppend(db, id, revisionId, source)
    requires source.name == db.profiles[id].name && Current(db, id).Some? && Current(db, id).value.source != source
    ensures Sound(Appended(db, id, revisionId, source))
  {
    hide ProfilesTidy, IdentifiersDistinct, RevisionFits, Current, NamesResolve, RevisionsOwned;
    AppendKeepsTidy(db, id, revisionId, source);
    DistinctAppended(db.revisions, Revision(revisionId, id, db.profiles[id].currentNumber + 1, source));
    AppendKeepsIndexes(db, id, revisionId, source);
  }

  lemma StateChangeKeepsTidy(db: Db, id: string, state: State, o: string)
    requires o in db.profiles && Tidy(db, o)
    ensures Tidy(AfterStateChange(db, id, state), o)
  {
  }

  lemma StateChangeKeepsSound(db: Db, id: string, state: State)
    requires Sound(db)
    ensures Sound(AfterStateChange(db, id, state))
  {
    var after := AfterStateChange(db, id, state);
    forall o | o in after.profiles
      ensures Tidy(after, o)
    {
      assert Tidy(db, o);
      StateChangeKeepsTidy(db, id, state, o);
    }
  }

  lemma SoundIgnoresKeys(db: Db, keys: map<string, Body>)
    requires Sound(db)
    ensures Sound(db.(keys := keys))
  {
    var after := db.(keys := keys);
    forall o | o in after.profiles
      ensures Tidy(after, o)
    {
      assert Tidy(db, o);
    }
  }

  lemma CreateKeepsSound(db: Db, key: string, source: Source, id: string, revisionId: string, fault: Option<Step>)
    requires Sound(db)
    ensures Sound(AfterCreate(db, key, source, id, revisionId, fault).0)
  {
    hide Sound, CanInsert;
    if AfterCreate(db, key, source, id, revisionId, fault).1 == Accepted {
      InsertKeepsSound(db, id, revisionId, source);
      SoundIgnoresKeys(Inserted(db, id, revisionId, source), db.keys[key := CreateBody(source)]);
    }
  }

  lemma UpdateKeepsSound(db: Db, key: string, id: string, expected: nat, source: Source, revisionId: string,
                         fault: Option<Step>)
    requires Sound(db)
    ensures Sound(AfterUpdate(db, key, id, expected, source, revisionId, fault).0)
  {
    hide Sound, CanAppend;
    if AfterUpdate(db, key, id, expected, source, revisionId, fault).1 == Accepted {
      AppendKeepsSound(db, id, revisionId, source);
      SoundIgnoresKeys(Appended(db, id, revisionId, source), db.keys[key := UpdateBody(id, source)]);
    }
  }

  lemma ImportKeepsSound(db: Db, source: Source, id: string, revisionId: string, fault: Option<Step>)
    requires Sound(db)
    ensures Sound(AfterImport(db, source, id, revisionId, fault).0)
  {
    hide ProfilesTidy, IdentifiersDistinct, RevisionsOwned, CanInsert, CanAppend;
    var after, outcome := AfterImport(db, source, id, revisionId, fault).0,
      AfterImport(db, source, id, revisionId, fault).1;
    if outcome == Accepted {
      if source.name in db.names && Current(db, db.names[source.name]).Some? {
        var known := db.names[source.name];
        assert after == Appended(db, known, revisionId, source) && db.profiles[known].name == source.name;
        AppendKeepsSound(db, known, revisionId, source);
      } else {
        assert after == Inserted(db, id, revisionId, source);
        InsertKeepsSound(db, id, revisionId, source);
      }
    } else {
      assert after == db;
    }
  }

  lemma CallKeepsSound(db: Db, call: Call, fault: Option<Step>)
    requires Sound(db)
    ensures Sound(AfterCall(db, call, fault).0)
  {
    match call
    case Creating(key, source, id, revisionId) => CreateKeepsSound(db, key, source, id, revisionId, fault);
    case Updating(key, id, expected, source, revisionId) =>
      UpdateKeepsSound(db, key, id, expected, source, revisionId, fault);
    case Importing(source, id, revisionId) => ImportKeepsSound(db, source, id, revisionId, fault);
    case Changing(id, state) => StateChangeKeepsSound(db, id, state);
  }

  /** In every run, every profile's stored revisions are exactly 1 to current, with
      neighbours of different source, and the profile points to the last. */
  lemma {:induction false} HistoriesAlwaysSound(db: Db, attempts: seq<Attempt>)
    requires Sound(db)
    ensures Sound(Run(db, attempts))
  {
    hide Sound, AfterCall;
    if attempts == [] {
    } else {
      HistoriesAlwaysSound(db, attempts[..|attempts| - 1]);
      var last := attempts[|attempts| - 1];
      CallKeepsSound(Run(db, attempts[..|attempts| - 1]), last.call, last.fault);
    }
  }

  lemma {:induction false} HistoryGrows(before: seq<Revision>, after: seq<Revision>, id: string)
    requires before <= after
    ensures History(before, id) <= History(after, id)
    decreases |after|
  {
    if |before| < |after| {
      var front := after[..|after| - 1];
      assert before <= front;
      HistoryGrows(before, front, id);
    } else {
      assert before == after;
    }
  }

  lemma CallExtends(db: Db, call: Call, fault: Option<Step>)
    ensures db.revisions <= AfterCall(db, call, fault).0.revisions
  {
    hide CanInsert, CanAppend, CanUpdate, Current;
  }

  /** Stored revisions never change: a later history extends the earlier one. */
  lemma {:induction false} RevisionsAreImmutable(db: Db, attempts: seq<Attempt>, id: string)
    ensures db.revisions <= Run(db, attempts).revisions
    ensures History(db.revisions, id) <= History(Run(db, attempts).revisions, id)
  {
    hide AfterCall, History;
    if attempts == [] {
    } else {
      var front, last := attempts[..|attempts| - 1], attempts[|attempts| - 1];
      RevisionsAreImmutable(db, front, id);
      CallExtends(Run(db, front), last.call, last.fault);
    }
    HistoryGrows(db.revisions, Run(db, attempts).revisions, id);
  }

  // ----- If-Match -----------------------------------------------------------------------------------------

  predicate ResourceAtLeast(db: Db, id: string, n: nat) { id in db.profiles && db.profiles[id].resource >= n }

  lemma CallKeepsResource(db: Db, call: Call, fault: Option<Step>, id: string, n: nat)
    requires ResourceAtLeast(db, id, n)
    ensures ResourceAtLeast(AfterCall(db, call, fault).0, id, n)
  {
    hide CanAppend, CanUpdate, Current, RevisionFits;
  }

  lemma {:induction false} ResourcesNeverFall(db: Db, attempts: seq<Attempt>, id: string, n: nat)
    requires ResourceAtLeast(db, id, n)
    ensures ResourceAtLeast(Run(db, attempts), id, n)
  {
    hide AfterCall, ResourceAtLeast;
    if attempts == [] {
    } else {
      var front, last := attempts[..|attempts| - 1], attempts[|attempts| - 1];
      ResourcesNeverFall(db, front, id, n);
      CallKeepsResource(Run(db, front), last.call, last.fault, id, n);
    }
  }

  /** Of all updates sent with one `If-Match` value at most one is newly accepted. */
  lemma UpdatedOncePerIfMatch(db: Db, first: Call, fault: Option<Step>, attempts: seq<Attempt>, second: Call,
                              later: Option<Step>)
    requires first.Updating? && second.Updating? && first.id == second.id && first.expected == second.expected
    requires AfterCall(db, first, fault).1 == Accepted
    ensures AfterCall(Run(AfterCall(db, first, fault).0, attempts), second, later).1 != Accepted
  {
    hide Run, CanAppend, RevisionFits;
    ResourcesNeverFall(AfterCall(db, first, fault).0, attempts, first.id, first.expected + 1);
  }

  // ----- Idempotency keys --------------------------------------------------------------------------------------

  /** The call gets as far as answering from its recorded key. */
  predicate GetsToReplay(fault: Option<Step>) { !FailsAt(fault, {Begin, Reserve, Commit}) }

  predicate Keyed(call: Call) { call.Creating? || call.Updating? }

  function BodyOf(call: Call): Body
    requires Keyed(call)
  {
    if call.Creating? then CreateBody(call.source) else UpdateBody(call.id, call.source)
  }

  /** A call that is not accepted leaves its key free; an accepted one records it. */
  lemma KeysRecordAcceptedCalls(db: Db, call: Call, fault: Option<Step>)
    requires Keyed(call)
    ensures var (after, outcome) := AfterCall(db, call, fault);
            if outcome == Accepted then call.key !in db.keys && after.keys == db.keys[call.key := BodyOf(call)]
            else after == db
  {
    hide CanInsert, CanAppend, CanUpdate;
  }

  predicate Holds(db: Db, key: string, body: Body) { key in db.keys && db.keys[key] == body }

  lemma CallKeepsKey(db: Db, call: Call, fault: Option<Step>, key: string, body: Body)
    requires Holds(db, key, body)
    ensures Holds(AfterCall(db, call, fault).0, key, body)
  {
    if Keyed(call) {
      hide AfterCall;
      KeysRecordAcceptedCalls(db, call, fault);
    } else {
      hide CanInsert, CanAppend, Current;
    }
  }

  lemma {:induction false} KeysStay(db: Db, attempts: seq<Attempt>, key: string, body: Body)
    requires Holds(db, key, body)
    ensures Holds(Run(db, attempts), key, body)
  {
    hide AfterCall, Holds;
    if attempts == [] {
    } else {
      var front, last := attempts[..|attempts| - 1], attempts[|attempts| - 1];
      KeysStay(db, front, key, body);
      CallKeepsKey(Run(db, front), last.call, last.fault, key, body);
    }
  }

  /** Once a create or an update is accepted, then after any further run every
      call under its key leaves the tables alone: it is answered as a replay if
      it is the same request and its transaction gets through, and fails otherwise. */
  lemma AcceptedOncePerKey(db: Db, first: Call, fault: Option<Step>, attempts: seq<Attempt>, call: Call,
                           later: Option<Step>)
    requires Keyed(first) && Keyed(call) && call.key == first.key && AfterCall(db, first, fault).1 == Accepted
    ensures var now := Run(AfterCall(db, first, fault).0, attempts);
            AfterCall(now, call, later)
            == (now, if BodyOf(call) == BodyOf(first) && GetsToReplay(later) then Replayed else Failed)
  {
    hide Run, CanInsert, CanAppend, CanUpdate;
    KeysRecordAcceptedCalls(db, first, fault);
    KeysStay(AfterCall(db, first, fault).0, attempts, first.key, BodyOf(first));
  }

  // ----- Archived profiles ------------------------------------------------------------------------------------

  predicate HistoryKept(db: Db, after: Db, id: string) { History(after.revisions, id) == History(db.revisions, id) }

  lemma CurrentExists(db: Db, id: string)
    requires Sound(db) && id in db.profiles
    ensures Current(db, id).Some?
  {
    assert Tidy(db, id);
    FindNewest(db.revisions, id);
  }

  lemma InsertKeepsHistory(db: Db, id: string, revisionId: string, source: Source, other: string)
    requires other in db.profiles && CanInsert(db, id, revisionId, source)
    ensures HistoryKept(db, Inserted(db, id, revisionId, source), other)
  {
    HistoryOfAppended(db.revisions, Revision(revisionId, id, 1, source), other);
  }

  lemma AppendKeepsOtherHistories(db: Db, id: string, revisionId: string, source: Source, other: string)
    requires id in db.profiles
    ensures HistoryKept(db, Appended(db, id, revisionId, source), other) <==> other != id
  {
    HistoryOfAppended(db.revisions, Revision(revisionId, id, db.profiles[id].currentNumber + 1, source), other);
  }

  /** Creates and updates never extend the history of an archived profile. */
  lemma ArchivedRefusesUpdates(db: Db, id: string, call: Call, fault: Option<Step>)
    requires Sound(db) && id in db.profiles && db.profiles[id].state == Archived && !call.Importing?
    ensures HistoryKept(db, AfterCall(db, call, fault).0, id)
  {
    hide History, Sound, RevisionFits;
    if AfterCall(db, call, fault).1 == Accepted {
      match call
      case Creating(key, source, o, revisionId) => InsertKeepsHistory(db, o, revisionId, source, id);
      case Updating(key, o, expected, source, revisionId) => AppendKeepsOtherHistories(db, o, revisionId, source, id);
      case Changing(o, state) =>
    }
  }

  /** An import extends it exactly when it goes through with a different source
      under the profile's name: imports do not look at the state. */
  lemma ArchivedGrowsByImport(db: Db, id: string, source: Source, newId: string, revisionId: string,
                              fault: Option<Step>)
    requires Sound(db) && id in db.profiles && db.profiles[id].state == Archived
    ensures Current(db, id).Some?
    ensures !HistoryKept(db, AfterImport(db, source, newId, revisionId, fault).0, id)
       <==> source.name == db.profiles[id].name && source != Current(db, id).value.source
            && CanAppend(db, id, revisionId, source) && !FailsAt(fault, {Begin, InsertRevision, PointProfile, Commit})
  {
    hide History, Chained, RevisionFits;
    assert Tidy(db, id);
    CurrentExists(db, id);
    if AfterImport(db, source, newId, revisionId, fault).1 == Accepted {
      if source.name in db.names {
        CurrentExists(db, db.names[source.name]);
        AppendKeepsOtherHistories(db, db.names[source.name], revisionId, source, id);
      } else {
        InsertKeepsHistory(db, newId, revisionId, source, id);
      }
    }
  }

  function EmptyDb(): Db { Db(map[], map[], [], map[]) }

  /** The run that archives a freshly imported profile. */
  function ArchivingRun(): seq<Attempt> {
    [Attempt(Importing(Source("p", "a"), "sandbox", "first"), None), Attempt(Changing("sandbox", Archived), None)]
  }

  function ArchivedDb(): Db {
    Db(map["sandbox" := Profile("p", Archived, "first", 1, 2)], map["p" := "sandbox"],
       [Revision("first", "sandbox", 1, Source("p", "a"))], map[])
  }

  lemma ArchivedState()
    ensures Sound(EmptyDb())
    ensures Run(EmptyDb(), ArchivingRun()) == ArchivedDb()
  {
    var attempts := ArchivingRun();
    assert attempts[..1] == [attempts[0]] && [attempts[0]][..0] == [];
    assert Run(EmptyDb(), []) == EmptyDb();
    var one := Run(EmptyDb(), [attempts[0]]);
    assert one == Inserted(EmptyDb(), "sandbox", "first", Source("p", "a"));
    assert Run(EmptyDb(), attempts) == AfterStateChange(one, "sandbox", Archived);
  }

  lemma ImportOverArchived(db: Db)
    requires db == ArchivedDb()
    ensures AfterImport(db, Source("p", "b"), "unused", "second", None).1 == Accepted
    ensures !HistoryKept(db, AfterImport(db, Source("p", "b"), "unused", "second", None).0, "sandbox")
  {
    assert Current(db, "sandbox") == Some(db.revisions[0]);
    assert CanAppend(db, "sandbox", "second", Source("p", "b"));
    AppendKeepsOtherHistories(db, "sandbox", "second", Source("p", "b"), "sandbox");
  }

  /** It happens: after that run an import of another source extends the history
      of the archived profile. */
  lemma ArchivedHistoryGrows()
    ensures var db := Run(EmptyDb(), ArchivingRun());
            && Sound(db) && "sandbox" in db.profiles && db.profiles["sandbox"].state == Archived
            && AfterImport(db, Source("p", "b"), "unused", "second", None).1 == Accepted
            && !HistoryKept(db, AfterImport(db, Source("p", "b"), "unused", "second", None).0, "sandbox")
  {
    ArchivedState();
    HistoriesAlwaysSound(EmptyDb(), ArchivingRun());
    ImportOverArchived(Run(EmptyDb(), ArchivingRun()));
  }
}
