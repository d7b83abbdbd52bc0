/** The entities the hub stores and exchanges, and its errors. */
module Model {
  import opened Wrappers

  /** Repository calls are numbered in the order they are made. */
  type CallId = nat

  type Time = int

  /** `Uuid::new_v4()` is globally fresh: each call mints one id for a skill and one for a version. */
  datatype Uuid = SkillId(call: CallId) | VersionId(call: CallId)

  datatype Visibility = Public | Private | Unlisted

  datatype Json =
    | Null
    | Bool(truth: bool)
    | Number(digits: string)
    | Text(text: string)
    | Array(items: seq<Json>)
    | Object(fields: map<string, Json>)

  datatype SkillManifest = SkillManifest(
    name: string,
    version: string,
    description: Option<string>,
    entry: string,
    files: seq<string>)

  datatype ArtifactPointer = ArtifactPointer(url: string, mediaType: string, digest: string)

  datatype PublishSkillRequest = PublishSkillRequest(
    manifest: SkillManifest,
    artifact: ArtifactPointer,
    signature: Option<string>,
    publicKey: Option<string>,
    bundle: Option<Json>)

  datatype SkillVersionRecord = SkillVersionRecord(
    id: Uuid,
    namespace: string,
    name: string,
    version: string,
    description: Option<string>,
    digest: string,
    artifactUrl: string,
    artifactMediaType: string,
    signature: Option<string>,
    publicKey: Option<string>,
    yankedAt: Option<Time>,
    yankReason: Option<string>,
    createdAt: Time)

  datatype CompatibilitySkillHit = CompatibilitySkillHit(
    name: string,
    version: string,
    description: Option<string>,
    registry: string,
    digest: Option<string>,
    signature: Option<string>,
    publicKey: Option<string>)

  datatype HubError =
    | InvalidNamespace(value: string)
    | InvalidSkillName(value: string)
    | InvalidVersion(value: string)
    | InvalidDigest(value: string)
    | UnsafeSkillPath(path: string)
    | InvalidArtifactUrl(value: string)
    | PermissionDenied(action: string, namespace: string)
    | UnsignedArtifactRejected
    | ArtifactVerification
    | TrustVerification
    | VersionDigestConflict(namespace: string, name: string, version: string)
    | SkillVersionNotFound(namespace: string, name: string, version: string)
    | Database

  /** The three repository operations with the values they bind. */
  datatype Call =
    | Publish(namespace: string, visibility: Visibility, publishedBy: string, request: PublishSkillRequest, now: Time)
    | Yank(namespace: string, name: string, version: string, reason: string, now: Time)
    | Unyank(namespace: string, name: string, version: string)
  {
    function Name(): string {
      if Publish? then request.manifest.name else name
    }

    function VersionText(): string {
      if Publish? then request.manifest.version else version
    }
  }

  datatype Reply = Recorded(record: SkillVersionRecord) | Acked | Failed(error: HubError)
}
