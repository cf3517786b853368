/** What creating, updating and importing a sandbox source answers and leaves
    behind, over tables in order: exactly when each goes through, which faults stop
    it, and every field of the rows it writes. */
module RevisionOutcomes {
  import opened Wrappers
  import opened RevisionHistory

  /** No stored revision has this identifier. */
  ghost predicate NewIdentifier(db: Db, revisionId: string) {
    forall i :: 0 <= i < |db.revisions| ==> db.revisions[i].revisionId != revisionId
  }

  /** Some profile goes by this name. */
  ghost predicate Known(db: Db, name: string) {
    exists id :: id in db.profiles && db.profiles[id].name == name
  }

  /** The newest stored revision of a profile. */
  ghost function Newest(db: Db, id: string): Revision
    requires Sound(db) && id in db.profiles
  {
    assert Tidy(db, id);
    var h := History(db.revisions, id);
    h[|h| - 1]
  }

  lemma CurrentIsNewest(db: Db, id: string)
    requires Sound(db) && id in db.profiles
    ensures Current(db, id) == Some(Newest(db, id))
  {
    assert Tidy(db, id);
    FindNewest(db.revisions, id);
  }

  /** What the join of the two tables finds belongs to both. */
  lemma {:induction false} FoundIsAsked(revisions: seq<Revision>, id: string, revisionId: string)
    ensures var r := Find(revisions, id, revisionId);
            r.Some? ==> r.value in revisions && r.value.sandboxId == id && r.value.revisionId == revisionId
  {
    if revisions == [] {
    } else {
      FoundIsAsked(revisions[..|revisions| - 1], id, revisionId);
    }
  }

  lemma KnownIsIndexed(db: Db, name: string)
    requires Sound(db)
    ensures Known(db, name) <==> name in db.names
  {
    if Known(db, name) {
      var id :| id in db.profiles && db.profiles[id].name == name;
      assert Tidy(db, id);
    }
  }

  lemma FirstFits(db: Db, id: string, revisionId: string, source: Source)
    requires Sound(db) && id !in db.profiles
    ensures RevisionFits(db.revisions, Revision(revisionId, id, 1, source)) <==> NewIdentifier(db, revisionId)
  {
  }

  lemma {:induction false} HistoryHolds(revisions: seq<Revision>, id: string, i: nat)
    requires i < |revisions| && revisions[i].sandboxId == id
    ensures revisions[i] in History(revisions, id)
  {
    if i == |revisions| - 1 {
    } else {
      HistoryHolds(revisions[..|revisions| - 1], id, i);
    }
  }

  /** The next revision of a profile meets every constraint but a used identifier. */
  lemma NextFits(db: Db, id: string, revisionId: string, source: Source)
    requires Sound(db) && id in db.profiles
    ensures CanAppend(db, id, revisionId, source) <==> NewIdentifier(db, revisionId)
  {
    hide History, IdentifiersDistinct, RevisionsOwned, NamesResolve;
    assert Tidy(db, id);
    CurrentIsNewest(db, id);
    NewestIsStored(db.revisions, id, db.profiles[id]);
    forall i | 0 <= i < |db.revisions| && db.revisions[i].sandboxId == id
      ensures db.revisions[i].number <= db.profiles[id].currentNumber
    {
      HistoryHolds(db.revisions, id, i);
    }
  }

  lemma {:induction false} HistoryStored(revisions: seq<Revision>, id: string, r: Revision)
    requires r in History(revisions, id)
    ensures r in revisions && r.sandboxId == id
  {
    if revisions[|revisions| - 1] == r && r.sandboxId == id {
    } else {
      HistoryStored(revisions[..|revisions| - 1], id, r);
    }
  }

  lemma NewestIsStored(revisions: seq<Revision>, id: string, p: Profile)
    requires Chained(History(revisions, id), p)
    ensures exists i :: 0 <= i < |revisions| && revisions[i].revisionId == p.currentId
  {
    var h := History(revisions, id);
    HistoryStored(revisions, id, h[|h| - 1]);
  }

  lemma EveryStep(step: Step)
    ensures step in {Begin, Reserve, InsertProfile, InsertRevision, PointProfile, Record, Commit}
  {
  }

  // ----- Create ---------------------------------------------------------------------------

  /** A create with a new key goes through exactly when no profile has its name,
      its identifiers are new, and no statement it makes fails. */
  lemma CreateGoesThrough(db: Db, key: string, source: Source, id: string, revisionId: string, fault: Option<Step>)
    requires Sound(db) && key !in db.keys
    ensures AfterCreate(db, key, source, id, revisionId, fault).1 == Accepted <==>
              && !Known(db, source.name) && id !in db.profiles && NewIdentifier(db, revisionId)
              && (fault.None? || fault == Some(PointProfile))
    ensures AfterCreate(db, key, source, id, revisionId, fault).1 in {Accepted, Failed}
  {
    hide Sound, RevisionFits, NewIdentifier, Known;
    KnownIsIndexed(db, source.name);
    if id !in db.profiles { FirstFits(db, id, revisionId, source); }
    if fault.Some? { EveryStep(fault.value); }
  }

  /** One new profile, a draft at its first revision; no other row changes. */
  ghost predicate NewProfile(db: Db, after: Db, source: Source, id: string, revisionId: string) {
    && id !in db.profiles && id in after.profiles
    && after.profiles == db.profiles[id := after.profiles[id]]
    && after.names == db.names[source.name := id]
    && after.revisions == db.revisions + [Revision(revisionId, id, 1, source)]
    && var p := after.profiles[id];
       && p.name == source.name && p.state == Draft && p.resource == 1
       && p.currentNumber == 1 && p.currentId == revisionId
  }

  lemma CreateLeaves(db: Db, key: string, source: Source, id: string, revisionId: string, fault: Option<Step>)
    requires AfterCreate(db, key, source, id, revisionId, fault).1 == Accepted
    ensures var after := AfterCreate(db, key, source, id, revisionId, fault).0;
            && NewProfile(db, after, source, id, revisionId)
            && after.keys == db.keys[key := CreateBody(source)]
  {
    hide RevisionFits;
  }

  // ----- Update ------------------------------------------------------------------------------

  /** An update with a new key goes through exactly on a profile that is not
      archived, at the expected resource revision, for a source under its own name
      that differs from its newest one, unless its identifier is used or a statement
      fails. */
  lemma UpdateGoesThrough(db: Db, key: string, id: string, expected: nat, source: Source, revisionId: string,
                          fault: Option<Step>)
    requires Sound(db) && key !in db.keys
    ensures AfterUpdate(db, key, id, expected, source, revisionId, fault).1 == Accepted <==>
              && id in db.profiles && db.profiles[id].state in {Draft, Ready, Active, Inactive}
              && db.profiles[id].resource == expected && db.profiles[id].name == source.name
              && Newest(db, id).source != source && NewIdentifier(db, revisionId)
              && (fault.None? || fault == Some(InsertProfile))
    ensures AfterUpdate(db, key, id, expected, source, revisionId, fault).1 in {Accepted, Failed}
  {
    hide Sound, CanAppend, NewIdentifier, Newest;
    if id in db.profiles {
      CurrentIsNewest(db, id);
      NextFits(db, id, revisionId, source);
    }
    if fault.Some? { EveryStep(fault.value); }
  }

  /** One revision more, to which the profile now points; its name and its state
      stay, and no other row changes. */
  ghost predicate NextRevision(db: Db, after: Db, source: Source, id: string, revisionId: string) {
    && id in db.profiles && id in after.profiles
    && after.profiles == db.profiles[id := after.profiles[id]] && after.names == db.names
    && var was, p := db.profiles[id], after.profiles[id];
       && p.name == was.name && p.state == was.state && p.resource == was.resource + 1
       && p.currentNumber == was.currentNumber + 1 && p.currentId == revisionId
       && after.revisions == db.revisions + [Revision(revisionId, id, p.currentNumber, source)]
  }

  lemma UpdateLeaves(db: Db, key: string, id: string, expected: nat, source: Source, revisionId: string,
                     fault: Option<Step>)
    requires AfterUpdate(db, key, id, expected, source, revisionId, fault).1 == Accepted
    ensures var after := AfterUpdate(db, key, id, expected, source, revisionId, fault).0;
            && NextRevision(db, after, source, id, revisionId)
            && after.keys == db.keys[key := UpdateBody(id, source)]
  {
    hide RevisionFits, Current;
  }

  // ----- Import ------------------------------------------------------------------------------------

  /** An import finds its profile by name. It is answered as unchanged exactly when
      the newest revision has its source; otherwise it adds a revision, or the
      profile if there is none, unless an identifier is used or a statement it
      makes fails. The state of the profile plays no part. */
  lemma ImportGoesThrough(db: Db, source: Source, id: string, revisionId: string, fault: Option<Step>)
    requires Sound(db)
    ensures var (after, outcome) := AfterImport(db, source, id, revisionId, fault);
            && (Known(db, source.name) ==>
                  && source.name in db.names && db.names[source.name] in db.profiles
                  && var known := db.names[source.name];
                     && db.profiles[known].name == source.name
                     && var same := Newest(db, known).source == source;
                        && (outcome == Unchanged <==> same && fault != Some(Begin))
                        && (outcome == Accepted <==>
                              && !same && NewIdentifier(db, revisionId)
                              && (fault.None? || fault.value in {Reserve, InsertProfile, Record}))
                        && (outcome == Accepted ==> NextRevision(db, after, source, known, revisionId)))
            && (!Known(db, source.name) ==>
                  && outcome != Unchanged
                  && (outcome == Accepted <==>
                        && id !in db.profiles && NewIdentifier(db, revisionId)
                        && (fault.None? || fault.value in {Reserve, PointProfile, Record}))
                  && (outcome == Accepted ==> NewProfile(db, after, source, id, revisionId)))
            && outcome in {Accepted, Unchanged, Failed}
            && (outcome != Accepted ==> after == db) && after.keys == db.keys
  {
    hide Sound, NewIdentifier, Known, RevisionFits, Newest, Current;
    KnownIsIndexed(db, source.name);
    if fault.Some? { EveryStep(fault.value); }
    if source.name in db.names {
      NamesMeanProfiles(db, source.name);
      CurrentIsNewest(db, db.names[source.name]);
      KnownImport(db, source, db.names[source.name], id, revisionId, fault);
    } else if id !in db.profiles {
      FirstFits(db, id, revisionId, source);
    }
  }

  lemma NamesMeanProfiles(db: Db, name: string)
    requires Sound(db) && name in db.names
    ensures db.names[name] in db.profiles && db.profiles[db.names[name]].name == name
  {
  }

  lemma KnownImport(db: Db, source: Source, known: string, id: string, revisionId: string, fault: Option<Step>)
    requires Sound(db) && source.name in db.names && known == db.names[source.name] && known in db.profiles
    requires Current(db, known).Some?
    ensures var (after, outcome) := AfterImport(db, source, id, revisionId, fault);
            && (outcome == Unchanged <==> Current(db, known).value.source == source && fault != Some(Begin))
            && (outcome == Accepted <==>
                  && Current(db, known).value.source != source && NewIdentifier(db, revisionId)
                  && (fault.None? || fault.value in {Reserve, InsertProfile, Record}))
            && (outcome == Accepted ==> NextRevision(db, after, source, known, revisionId))
  {
    hide Sound, NewIdentifier, CanAppend, Current;
    NextFits(db, known, revisionId, source);
    if fault.Some? { EveryStep(fault.value); }
  }

  // ----- Together --------------------------------------------------------------------------------------

  /** Another writer's change of state sets the state, advances the resource
      revision by one, and touches nothing else. */
  lemma StateChangeLeaves(db: Db, id: string, state: State)
    ensures var after := AfterStateChange(db, id, state);
            if id !in db.profiles then after == db
            else
              && after.profiles == db.profiles[id := db.profiles[id].(state := state,
                                                                     resource := db.profiles[id].resource + 1)]
              && after == db.(profiles := after.profiles)
  {
  }

  /** A profile just created can be updated with the resource revision of its
      first row, and then has exactly its two sources in its history. */
  lemma CreatedCanBeUpdated(db: Db, key: string, source: Source, id: string, revisionId: string, key': string,
                            source': Source, revisionId': string)
    requires Sound(db) && AfterCreate(db, key, source, id, revisionId, None).1 == Accepted
    requires key' !in db.keys && key' != key && source'.name == source.name && source' != source
    requires NewIdentifier(db, revisionId') && revisionId' != revisionId
    ensures var created := AfterCreate(db, key, source, id, revisionId, None).0;
            var (after, outcome) := AfterUpdate(created, key', id, 1, source', revisionId', None);
            && outcome == Accepted
            && History(after.revisions, id)
               == [Revision(revisionId, id, 1, source), Revision(revisionId', id, 2, source')]
  {
    hide Sound, History, Known;
    var first, second := Revision(revisionId, id, 1, source), Revision(revisionId', id, 2, source');
    var created := AfterCreate(db, key, source, id, revisionId, None).0;
    CreateKeepsSound(db, key, source, id, revisionId, None);
    CreateLeaves(db, key, source, id, revisionId, None);
    FreshHistory(db, id);
    HistoryOfAppended(db.revisions, first, id);
    UpdateGoesThrough(created, key', id, 1, source', revisionId', None);
    UpdateLeaves(created, key', id, 1, source', revisionId', None);
    HistoryOfAppended(created.revisions, second, id);
    assert [] + [first] == [first];
  }

  lemma FreshHistory(db: Db, id: string)
    requires Sound(db) && id !in db.profiles
    ensures History(db.revisions, id) == []
  {
    hide History;
    NoHistory(db.revisions, id);
  }
}
