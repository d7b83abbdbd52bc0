/** The registry as one indivisible object: what clients are promised, call by call. */
module Registry {
  import opened Wrappers
  import opened Model
  import opened Tables

  datatype ReleaseKey = ReleaseKey(skill: SkillKey, version: string)

  datatype SkillInfo = SkillInfo(
    description: Option<string>,
    latestVersion: string,
    visibility: Visibility,
    createdAt: Time,
    updatedAt: Time)

  datatype Release = Release(
    id: Uuid,
    digest: string,
    manifest: SkillManifest,
    artifactUrl: string,
    artifactMediaType: string,
    signature: Option<string>,
    publicKey: Option<string>,
    bundle: Option<Json>,
    yankedAt: Option<Time>,
    yankReason: Option<string>,
    publishedBy: string,
    createdAt: Time)

  datatype Registry = Registry(skills: map<SkillKey, SkillInfo>, releases: map<ReleaseKey, Release>)

  const Initial := Registry(map[], map[])

  function CallRelease(call: Call): ReleaseKey {
    ReleaseKey(CallKey(call), call.VersionText())
  }

  function Record(key: ReleaseKey, r: Release): SkillVersionRecord {
    SkillVersionRecord(
      r.id, key.skill.namespace, key.skill.name, key.version, r.manifest.description, r.digest, r.artifactUrl,
      r.artifactMediaType, r.signature, r.publicKey, r.yankedAt, r.yankReason, r.createdAt)
  }

  function NewRelease(c: CallId, call: Call): Release
    requires call.Publish?
  {
    var r := call.request;
    Release(
      VersionId(c), r.artifact.digest, r.manifest, r.artifact.url, r.artifact.mediaType, r.signature, r.publicKey,
      r.bundle, None, None, call.publishedBy, call.now)
  }

  /** A release is written once; a repeat is answered from it; the first publish fixes the skill's own columns. */
  function Publish(reg: Registry, c: CallId, call: Call): (Registry, Reply)
    requires call.Publish?
  {
    var key := CallRelease(call);
    if key in reg.releases then
      if reg.releases[key].digest == call.request.artifact.digest
      then (reg, Recorded(Record(key, reg.releases[key])))
      else (reg, Failed(VersionDigestConflict(call.namespace, call.Name(), call.VersionText())))
    else
      var release := NewRelease(c, call);
      var info :=
        if key.skill in reg.skills
        then reg.skills[key.skill].(latestVersion := key.version, updatedAt := call.now)
        else SkillInfo(call.request.manifest.description, key.version, call.visibility, call.now, call.now);
      (Registry(reg.skills[key.skill := info], reg.releases[key := release]), Recorded(Record(key, release)))
  }

  function Stamp(reg: Registry, call: Call): (Registry, Reply)
    requires !call.Publish?
  {
    var key := CallRelease(call);
    if key in reg.releases then
      var at := if call.Yank? then Some(call.now) else None;
      var reason := if call.Yank? then Some(call.reason) else None;
      (reg.(releases := reg.releases[key := reg.releases[key].(yankedAt := at, yankReason := reason)]), Acked)
    else (reg, Failed(SkillVersionNotFound(call.namespace, call.name, call.version)))
  }

  /** One call, all at once. */
  function Perform(reg: Registry, c: CallId, call: Call): (Registry, Reply) {
    if call.Publish? then Publish(reg, c, call) else Stamp(reg, call)
  }

  // ----- the tables as a registry

  function InfoOf(row: SkillRow): SkillInfo {
    SkillInfo(row.description, row.latestVersion, row.visibility, row.createdAt, row.updatedAt)
  }

  function ReleaseOf(row: VersionRow): Release {
    Release(
      row.id, row.digest, row.manifest, row.artifactUrl, row.artifactMediaType, row.signature, row.publicKey,
      row.bundle, row.yankedAt, row.yankReason, row.publishedBy, row.createdAt)
  }

  function ReleaseKeyOf(db: Tables, row: VersionRow): ReleaseKey
    requires row.skillId in db.skills
  {
    ReleaseKey(KeyOf(db.skills[row.skillId]), row.version)
  }

  predicate ReleaseAt(db: Tables, key: ReleaseKey, id: Uuid) {
    && id in db.versions && db.versions[id].skillId in db.skills
    && ReleaseKeyOf(db, db.versions[id]) == key
  }

  ghost predicate RepresentsSkills(db: Tables, skills: map<SkillKey, SkillInfo>) {
    && (forall id | id in db.skills ::
          KeyOf(db.skills[id]) in skills && skills[KeyOf(db.skills[id])] == InfoOf(db.skills[id]))
    && (forall key | key in skills :: exists id :: SkillAt(db, key, id))
  }

  ghost predicate RepresentsReleases(db: Tables, releases: map<ReleaseKey, Release>) {
    && (forall id, key | ReleaseAt(db, key, id) :: key in releases && releases[key] == ReleaseOf(db.versions[id]))
    && (forall key | key in releases :: exists id :: ReleaseAt(db, key, id))
  }

  /** The tables hold exactly the entries of the registry. */
  ghost predicate Represents(db: Tables, reg: Registry) {
    RepresentsSkills(db, reg.skills) && RepresentsReleases(db, reg.releases)
  }
}
