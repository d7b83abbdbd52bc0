/** The `skills` and `skill_versions` tables and the statements that `postgres.rs` runs on them. */
module Tables {
  import opened Wrappers
  import opened Model

  datatype SkillRow = SkillRow(
    id: Uuid,
    namespace: string,
    name: string,
    description: Option<string>,
    latestVersion: string,
    visibility: Visibility,
    createdAt: Time,
    updatedAt: Time)

  datatype VersionRow = VersionRow(
    id: Uuid,
    skillId: Uuid,
    version: string,
    digest: string,
    manifest: SkillManifest,
    artifactUrl: string,
    artifactMediaType: string,
    signature: Option<string>,
    publicKey: Option<string>,
    bundle: Option<Json>,
    yankedAt: Option<Time>,
    yankReason: Option<string>,
    publishedBy: string,
    createdAt: Time)

  /** Rows by primary key. */
  datatype Tables = Tables(skills: map<Uuid, SkillRow>, versions: map<Uuid, VersionRow>)

  const Empty := Tables(map[], map[])

  /** The unique key of `skills`. */
  datatype SkillKey = SkillKey(namespace: string, name: string)

  function KeyOf(row: SkillRow): SkillKey {
    SkillKey(row.namespace, row.name)
  }

  function CallKey(call: Call): SkillKey {
    SkillKey(call.namespace, call.Name())
  }

  /** What a transaction sees: the committed rows under its own writes. */
  function Visible(db: Tables, writes: Tables): Tables {
    Tables(db.skills + writes.skills, db.versions + writes.versions)
  }

  predicate SkillAt(db: Tables, key: SkillKey, id: Uuid) {
    id in db.skills && KeyOf(db.skills[id]) == key
  }

  /** `WHERE sv.skill_id = $1 AND sv.version = $2`. */
  predicate VersionAt(db: Tables, skillId: Uuid, version: string, id: Uuid) {
    id in db.versions && db.versions[id].skillId == skillId && db.versions[id].version == version
  }

  ghost function FindSkill(db: Tables, key: SkillKey): (r: Option<Uuid>)
    ensures r.Some? ==> SkillAt(db, key, r.value)
    ensures r.None? ==> forall id :: !SkillAt(db, key, id)
  {
    if id :| SkillAt(db, key, id) then Some(id) else None
  }

  ghost function FindVersion(db: Tables, skillId: Uuid, version: string): (r: Option<Uuid>)
    ensures r.Some? ==> VersionAt(db, skillId, version, r.value)
    ensures r.None? ==> forall id :: !VersionAt(db, skillId, version, id)
  {
    if id :| VersionAt(db, skillId, version, id) then Some(id) else None
  }

  /** `skill_version_record`: the description comes from the stored manifest. */
  function RecordOf(skill: SkillRow, row: VersionRow): SkillVersionRecord {
    SkillVersionRecord(
      row.id, skill.namespace, skill.name, row.version, row.manifest.description, row.digest,
      row.artifactUrl, row.artifactMediaType, row.signature, row.publicKey, row.yankedAt, row.yankReason,
      row.createdAt)
  }

  /** `SELECT_SKILL_VERSION`, a join of the two tables. */
  ghost function SelectVersion(db: Tables, skillId: Uuid, version: string): Option<SkillVersionRecord> {
    match FindVersion(db, skillId, version)
    case Some(id) => if skillId in db.skills then Some(RecordOf(db.skills[skillId], db.versions[id])) else None
    case None => None
  }

  function NewSkillRow(c: CallId, call: Call): SkillRow
    requires call.Publish?
  {
    var manifest := call.request.manifest;
    SkillRow(
      SkillId(c), call.namespace, manifest.name, manifest.description, manifest.version, call.visibility,
      call.now, call.now)
  }

  function NewVersionRow(c: CallId, call: Call, skillId: Uuid): VersionRow
    requires call.Publish?
  {
    var request := call.request;
    VersionRow(
      VersionId(c), skillId, request.manifest.version, request.artifact.digest, request.manifest,
      request.artifact.url, request.artifact.mediaType, request.signature, request.publicKey, request.bundle,
      None, None, call.publishedBy, call.now)
  }

  /** The record that a fresh publish returns, built from the request. */
  function NewRecord(c: CallId, call: Call): SkillVersionRecord
    requires call.Publish?
  {
    var request := call.request;
    SkillVersionRecord(
      VersionId(c), call.namespace, request.manifest.name, request.manifest.version, request.manifest.description,
      request.artifact.digest, request.artifact.url, request.artifact.mediaType, request.signature, request.publicKey,
      None, None, call.now)
  }

  /** `UPDATE skills SET latest_version = $1, updated_at = $2`, on one row. */
  function SetLatest(row: SkillRow, call: Call): SkillRow
    requires call.Publish?
  {
    row.(latestVersion := call.request.manifest.version, updatedAt := call.now)
  }

  /** The rows that the join of a yank or unyank selects. */
  predicate Targets(db: Tables, call: Call, id: Uuid) {
    && id in db.versions
    && var row := db.versions[id];
    && row.version == call.VersionText() && SkillAt(db, CallKey(call), row.skillId)
  }

  /** The yank columns after the statement. */
  function Restamp(row: VersionRow, call: Call): VersionRow
    requires !call.Publish?
  {
    if call.Yank? then row.(yankedAt := Some(call.now), yankReason := Some(call.reason))
    else row.(yankedAt := None, yankReason := None)
  }

  /** `UPDATE skill_versions ... FROM skills`, over every row. */
  function UpdateYank(db: Tables, call: Call): Tables
    requires !call.Publish?
  {
    db.(versions := map id | id in db.versions ::
      if Targets(db, call, id) then Restamp(db.versions[id], call) else db.versions[id])
  }

  /** The columns of a version row that no statement updates. */
  function Immutable(row: VersionRow): VersionRow {
    row.(yankedAt := None, yankReason := None)
  }

  /** Rows are stored under their primary keys, and the foreign key holds. */
  ghost predicate KeysOk(db: Tables) {
    && (forall id | id in db.skills :: db.skills[id].id == id)
    && (forall id | id in db.versions :: db.versions[id].id == id && db.versions[id].skillId in db.skills)
  }

  /** `UNIQUE (namespace, name)`. */
  ghost predicate SkillsUnique(db: Tables) {
    forall i, j | i in db.skills && j in db.skills :: KeyOf(db.skills[i]) == KeyOf(db.skills[j]) ==> i == j
  }

  /** `UNIQUE (skill_id, version)`. */
  ghost predicate VersionsUnique(db: Tables) {
    forall i, j | i in db.versions && j in db.versions ::
      db.versions[i].skillId == db.versions[j].skillId && db.versions[i].version == db.versions[j].version ==> i == j
  }

  /** `latest_version` of a skill is one of its versions, so every skill has one. */
  ghost predicate LatestExists(db: Tables) {
    forall id | id in db.skills :: exists v :: VersionAt(db, id, db.skills[id].latestVersion, v)
  }

  ghost predicate DbOk(db: Tables) {
    KeysOk(db) && SkillsUnique(db) && VersionsUnique(db) && LatestExists(db)
  }
}
