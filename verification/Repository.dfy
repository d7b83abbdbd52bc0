/** `PgHubRepository` as its methods run when nobody interleaves. */
module Repository {
  import opened Wrappers
  import opened Model
  import opened Tables
  import opened Registry
  import opened History
  import opened Protocol
  import opened Invariants
  import opened Linearizability

  // ----- the registry that the tables hold

  ghost function RegistryOf(db: Tables): Registry {
    Registry(
      map key | key in (set id | id in db.skills :: KeyOf(db.skills[id])) && FindSkill(db, key).Some? ::
        InfoOf(db.skills[FindSkill(db, key).value]),
      map key | key in (set id | id in db.versions && db.versions[id].skillId in db.skills :: ReleaseKeyOf(db, db.versions[id]))
          && FindRelease(db, key).Some? ::
        ReleaseOf(db.versions[FindRelease(db, key).value]))
  }

  ghost function FindRelease(db: Tables, key: ReleaseKey): (r: Option<Uuid>)
    ensures r.Some? ==> ReleaseAt(db, key, r.value)
    ensures r.None? ==> forall id :: !ReleaseAt(db, key, id)
  {
    if id :| ReleaseAt(db, key, id) then Some(id) else None
  }

  lemma RegistrySkills(db: Tables)
    requires SkillsUnique(db)
    ensures RepresentsSkills(db, RegistryOf(db).skills)
  {
    forall id | id in db.skills
      ensures KeyOf(db.skills[id]) in RegistryOf(db).skills
        && RegistryOf(db).skills[KeyOf(db.skills[id])] == InfoOf(db.skills[id])
    {
      assert SkillAt(db, KeyOf(db.skills[id]), id);
    }
  }

  lemma ReleaseUnique(db: Tables, key: ReleaseKey, i: Uuid, j: Uuid)
    requires SkillsUnique(db) && VersionsUnique(db) && ReleaseAt(db, key, i) && ReleaseAt(db, key, j)
    ensures i == j
  {
  }

  lemma RegistryReleases(db: Tables)
    requires DbOk(db)
    ensures RepresentsReleases(db, RegistryOf(db).releases)
  {
    forall id, key | ReleaseAt(db, key, id)
      ensures key in RegistryOf(db).releases && RegistryOf(db).releases[key] == ReleaseOf(db.versions[id])
    {
      assert FindRelease(db, key).Some?;
      ReleaseUnique(db, key, id, FindRelease(db, key).value);
    }
  }

  lemma SkillsDetermined(db: Tables, a: map<SkillKey, SkillInfo>, b: map<SkillKey, SkillInfo>)
    requires RepresentsSkills(db, a) && RepresentsSkills(db, b)
    ensures a == b
  {
  }

  lemma ReleasesDetermined(db: Tables, a: map<ReleaseKey, Release>, b: map<ReleaseKey, Release>)
    requires RepresentsReleases(db, a) && RepresentsReleases(db, b)
    ensures a == b
  {
  }

  /** The tables hold one registry, and only one. */
  lemma OneRegistry(db: Tables, reg: Registry)
    requires DbOk(db)
    ensures Represents(db, reg) <==> reg == RegistryOf(db)
  {
    RegistrySkills(db);
    RegistryReleases(db);
    if Represents(db, reg) {
      SkillsDetermined(db, reg.skills, RegistryOf(db).skills);
      ReleasesDetermined(db, reg.releases, RegistryOf(db).releases);
    }
  }

  // ----- what the statements of one call amount to

  lemma RepeatPerforms(db: Tables, c: CallId, p: Proc, record: SkillVersionRecord)
    requires DbOk(db) && InTransaction(db, c, p) && p.pc.Read?
    requires SelectVersion(Visible(db, p.writes), p.skillId, p.call.VersionText()) == Some(record)
    ensures Perform(RegistryOf(db), c, p.call) ==
      (RegistryOf(db), if record.digest == p.call.request.artifact.digest then Recorded(record) else ConflictOf(p.call))
  {
    OneRegistry(db, RegistryOf(db));
    FoundSimulates(db, RegistryOf(db), c, p, record);
  }

  /** A transaction that found its version has written nothing new. */
  lemma FoundVisible(db: Tables, c: CallId, p: Proc)
    requires DbOk(db) && InTransaction(db, c, p) && p.pc.Read?
    requires FindVersion(Visible(db, p.writes), p.skillId, p.call.VersionText()).Some?
    ensures Visible(db, p.writes) == db
  {
    VisibleReads(db, c, p);
    var id := FindVersion(Visible(db, p.writes), p.skillId, p.call.VersionText()).value;
    assert VersionAt(db, p.skillId, p.call.VersionText(), id);
    assert p.writes.skills == map[p.skillId := db.skills[p.skillId]];
  }

  /** One that did not find it is ready to commit once it has inserted the version and updated the skill. */
  lemma MissingReady(db: Tables, c: CallId, p: Proc, q: Proc)
    requires DbOk(db) && InTransaction(db, c, p) && p.pc.Read? && SkillId(c) !in db.skills && VersionId(c) !in db.versions
    requires SelectVersion(Visible(db, p.writes), p.skillId, p.call.VersionText()).None?
    requires q == Proc(p.call, CommitNew, p.skillId, Tables(
      map[p.skillId := SetLatest(p.writes.skills[p.skillId], p.call)],
      map[VersionId(c) := NewVersionRow(c, p.call, p.skillId)]))
    ensures ReadyToCommit(db, c, q)
  {
    VisibleReads(db, c, p);
    assert FindVersion(db, p.skillId, p.call.VersionText()).None? by {
      assert forall id :: VersionAt(db, p.skillId, p.call.VersionText(), id) ==>
          VersionAt(Visible(db, p.writes), p.skillId, p.call.VersionText(), id);
    }
  }

  lemma CommitPerforms(db: Tables, c: CallId, p: Proc)
    requires ReadyToCommit(db, c, p)
    ensures DbOk(Visible(db, p.writes))
    ensures Perform(RegistryOf(db), c, p.call) == (RegistryOf(Visible(db, p.writes)), Recorded(NewRecord(c, p.call)))
  {
    OneRegistry(db, RegistryOf(db));
    CommitDbOk(db, c, p);
    CommitSimulates(db, RegistryOf(db), c, p);
    OneRegistry(Visible(db, p.writes), Perform(RegistryOf(db), c, p.call).0);
  }

  lemma StampPerforms(db: Tables, c: CallId, call: Call)
    requires DbOk(db) && !call.Publish?
    ensures DbOk(UpdateYank(db, call))
    ensures Perform(RegistryOf(db), c, call).0 == RegistryOf(UpdateYank(db, call))
    ensures Perform(RegistryOf(db), c, call).1 ==
      if exists id :: Targets(db, call, id) then Acked
      else Failed(SkillVersionNotFound(call.namespace, call.name, call.version))
  {
    OneRegistry(db, RegistryOf(db));
    YankRestamps(db, call);
    RestampedDbOk(db, UpdateYank(db, call));
    StampSimulates(db, RegistryOf(db), c, call);
    OneRegistry(UpdateYank(db, call), Perform(RegistryOf(db), c, call).0);
  }

  // ----- the repository

  class PgHubRepository {
    var db: Tables

    constructor ()
      ensures db == Empty
    {
      db := Empty;
    }

    /** The upsert: a new row, or the committed one written back; either way it is this transaction's. */
    method UpsertSkill(c: CallId, call: Call) returns (skillId: Uuid, writes: Tables)
      requires DbOk(db) && call.Publish? && SkillId(c) !in db.skills
      ensures InTransaction(db, c, Proc(call, Read, skillId, writes))
    {
      if id :| id in db.skills && SkillAt(db, CallKey(call), id) {
        return id, Tables(map[id := db.skills[id]], map[]);
      }
      return SkillId(c), Tables(map[SkillId(c) := NewSkillRow(c, call)], map[]);
    }

    /** `SELECT_SKILL_VERSION`. */
    method SelectRow(visible: Tables, skillId: Uuid, version: string) returns (r: Option<SkillVersionRecord>)
      requires VersionsUnique(visible)
      ensures r == SelectVersion(visible, skillId, version)
    {
      if id :| id in visible.versions && VersionAt(visible, skillId, version, id) && skillId in visible.skills {
        return Some(RecordOf(visible.skills[skillId], visible.versions[id]));
      }
      return None;
    }

    /** The version is there already: the same digest gets its record, another digest is refused. */
    method AnswerRepeat(c: CallId, call: Call, skillId: Uuid, writes: Tables, record: SkillVersionRecord, lostAt: nat)
      returns (reply: Reply)
      requires DbOk(db) && InTransaction(db, c, Proc(call, Read, skillId, writes))
      requires SelectVersion(Visible(db, writes), skillId, call.VersionText()) == Some(record)
      modifies this
      ensures db == old(db)
      ensures lostAt > 2 ==> reply != LostConnection
      ensures reply != LostConnection ==> (RegistryOf(db), reply) == Perform(RegistryOf(db), c, call)
    {
      RepeatPerforms(db, c, Proc(call, Read, skillId, writes), record);
      FoundVisible(db, c, Proc(call, Read, skillId, writes));
      if record.digest != call.request.artifact.digest {
        return Failed(VersionDigestConflict(call.namespace, call.request.manifest.name, call.request.manifest.version));
      }
      if lostAt == 2 { return Failed(Database); }
      db := Visible(db, writes);
      return Recorded(record);
    }

    /** The version is new: insert it, name it the latest, commit. */
    method InsertNew(c: CallId, call: Call, skillId: Uuid, written: Tables, lostAt: nat) returns (reply: Reply)
      requires DbOk(db) && InTransaction(db, c, Proc(call, Read, skillId, written))
      requires SkillId(c) !in db.skills && VersionId(c) !in db.versions
      requires SelectVersion(Visible(db, written), skillId, call.VersionText()).None?
      modifies this
      ensures DbOk(db)
      ensures lostAt > 4 ==> reply != LostConnection
      ensures reply == LostConnection ==> db == old(db)
      ensures reply != LostConnection ==> (RegistryOf(db), reply) == Perform(RegistryOf(old(db)), c, call)
    {
      if lostAt == 2 { return Failed(Database); }
      var writes := written.(versions := map[VersionId(c) := NewVersionRow(c, call, skillId)]);
      if lostAt == 3 { return Failed(Database); }
      writes := writes.(skills := map[skillId := SetLatest(writes.skills[skillId], call)]);
      if lostAt == 4 { return Failed(Database); }
      MissingReady(db, c, Proc(call, Read, skillId, written), Proc(call, CommitNew, skillId, writes));
      CommitPerforms(db, c, Proc(call, CommitNew, skillId, writes));
      db := Visible(db, writes);
      return Recorded(NewRecord(c, call));
    }

    /**
     * `insert_version`: upsert the skill, look for the version, insert it, name it the latest, commit.
     * The connection is lost at statement `lostAt`, if it gets that far; the dropped transaction rolls back.
     */
    method InsertVersion(c: CallId, call: Call, lostAt: nat) returns (reply: Reply)
      requires DbOk(db) && call.Publish? && SkillId(c) !in db.skills && VersionId(c) !in db.versions
      modifies this
      ensures DbOk(db)
      ensures lostAt >= 5 ==> reply != LostConnection
      ensures reply == LostConnection ==> db == old(db)
      ensures reply != LostConnection ==> (RegistryOf(db), reply) == Perform(RegistryOf(old(db)), c, call)
    {
      if lostAt == 0 { return Failed(Database); }
      var skillId, writes := UpsertSkill(c, call);
      if lostAt == 1 { return Failed(Database); }
      VisibleReads(db, c, Proc(call, Read, skillId, writes));
      var found := SelectRow(Visible(db, writes), skillId, call.request.manifest.version);
      if found.Some? {
        reply := AnswerRepeat(c, call, skillId, writes, found.value, lostAt);
      } else {
        reply := InsertNew(c, call, skillId, writes, lostAt);
      }
    }

    /** `yank_version` and `unyank_version`: one UPDATE; no row updated means no such version. */
    method Stamp(c: CallId, call: Call, lost: bool) returns (reply: Reply)
      requires DbOk(db) && !call.Publish?
      modifies this
      ensures DbOk(db)
      ensures reply == LostConnection <==> lost
      ensures lost ==> db == old(db)
      ensures !lost ==> (RegistryOf(db), reply) == Perform(RegistryOf(old(db)), c, call)
    {
      if lost { return Failed(Database); }
      var rows := set id | id in db.versions && Targets(db, call, id);
      StampPerforms(db, c, call);
      assert rows == {} <==> forall id :: !Targets(db, call, id) by {
        assert forall id :: Targets(db, call, id) <==> id in rows;
      }
      db := UpdateYank(db, call);
      if rows == {} {
        return Failed(SkillVersionNotFound(call.namespace, call.name, call.version));
      }
      return Acked;
    }
  }
}
