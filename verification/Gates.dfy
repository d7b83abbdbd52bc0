/** Everything a publish or a yank must pass before it reaches the repository. */
module Gates {
  import opened Wrappers
  import opened Model
  import opened Text
  import opened Auth
  import opened Trust
  import Digest
  import SemVer
  import SkillPath

  /** The deployment: the crypto it calls, the URL check (the url crate is not modelled), and one switch. */
  datatype Config = Config(
    check: Ed25519,
    hash: seq<Digest.byte> -> Digest.Hash,
    urlOk: string -> bool,
    allowUnsigned: bool)

  // ----- validators

  /** `validate_ascii_identifier`. */
  predicate IsNamespace(value: string) {
    value != "" && value[0] != '.' && forall c | c in value :: IsLower(c) || IsDigit(c) || c == '-' || c == '_'
  }

  predicate IsSkillName(value: string) {
    && value != "" && value[0] != '.'
    && forall c | c in value :: IsLower(c) || IsDigit(c) || c == '-' || c == '_' || c == '.'
  }

  predicate IsNameChar(c: char) {
    c in LOWER_LETTERS || c in DIGITS || c == '-' || c == '_'
  }

  lemma NameChars(c: char)
    ensures IsNameChar(c) <==> IsLower(c) || IsDigit(c) || c == '-' || c == '_'
  {
    CharacterClasses(c);
  }

  lemma LeadingDot(value: string)
    ensures (value != "" && value[0] == '.') <==> exists rest: string :: value == "." + rest
  {
    if value != "" && value[0] == '.' {
      assert value == "." + value[1..];
    }
  }

  /** A namespace is one or more of those characters. A skill name may have dots too, but not in front. */
  lemma NamesExactly(value: string)
    ensures IsNamespace(value) <==> value != "" && forall c | c in value :: IsNameChar(c)
    ensures IsSkillName(value) <==>
      && value != "" && (forall c | c in value :: IsNameChar(c) || c == '.') && !exists rest: string :: value == "." + rest
  {
    forall c: char ensures IsNameChar(c) <==> IsLower(c) || IsDigit(c) || c == '-' || c == '_' {
      NameChars(c);
    }
    LeadingDot(value);
    assert value != "" ==> value[0] in value;
  }

  function Check(ok: bool, error: HubError): Outcome<HubError> {
    if ok then Pass else Fail(error)
  }

  function CheckPath(path: string): Outcome<HubError> {
    match SkillPath.ValidatePath(path)
    case Ok(_) => Pass
    case Err(e) => Fail(e)
  }

  function CheckFiles(files: seq<string>): Outcome<HubError> {
    if files == [] then Pass
    else
      :- CheckPath(files[0]);
      CheckFiles(files[1..])
  }

  /** `validate_publish_request`: the first complaint wins. */
  function CheckRequest(cfg: Config, namespace: string, request: PublishSkillRequest): Outcome<HubError> {
    var m := request.manifest;
    :- Check(IsNamespace(namespace), InvalidNamespace(namespace));
    :- Check(IsSkillName(m.name), InvalidSkillName(m.name));
    :- Check(SemVer.Parse(m.version).Some?, InvalidVersion(m.version));
    :- Check(Digest.IsDigest(request.artifact.digest), HubError.InvalidDigest(request.artifact.digest));
    :- Check(cfg.urlOk(request.artifact.url), InvalidArtifactUrl(request.artifact.url));
    :- CheckPath(m.entry);
    CheckFiles(m.files)
  }

  /** The validator as it runs, with its loop over the files. */
  method ValidatePublishRequest(cfg: Config, namespace: string, request: PublishSkillRequest) returns (r: Outcome<HubError>)
    ensures r == CheckRequest(cfg, namespace, request)
  {
    var m := request.manifest;
    :- Check(IsNamespace(namespace), InvalidNamespace(namespace));
    :- Check(IsSkillName(m.name), InvalidSkillName(m.name));
    :- Check(SemVer.Parse(m.version).Some?, InvalidVersion(m.version));
    :- Check(Digest.IsDigest(request.artifact.digest), HubError.InvalidDigest(request.artifact.digest));
    :- Check(cfg.urlOk(request.artifact.url), InvalidArtifactUrl(request.artifact.url));
    var entry := SkillPath.ValidateSkillPath(m.entry);
    if entry.Err? {
      return Fail(entry.error);
    }
    for i := 0 to |m.files|
      invariant CheckFiles(m.files) == CheckFiles(m.files[i..])
    {
      var path := SkillPath.ValidateSkillPath(m.files[i]);
      assert m.files[i..][1..] == m.files[i + 1..];
      if path.Err? {
        return Fail(path.error);
      }
    }
    return Pass;
  }

  // ----- gates

  /** `fetch_verified`, given what the store yielded: bytes are handed on only if their digest is right. */
  function FetchVerified(cfg: Config, fetched: Option<seq<Digest.byte>>, digest: string): Result<seq<Digest.byte>, HubError> {
    match fetched
    case None => Err(ArtifactVerification)
    case Some(bytes) => if Digest.Verify(cfg.hash(bytes), digest).Pass? then Ok(bytes) else Err(ArtifactVerification)
  }

  function CheckArtifact(cfg: Config, fetched: Option<seq<Digest.byte>>, digest: string): Outcome<HubError> {
    match FetchVerified(cfg, fetched, digest)
    case Ok(_) => Pass
    case Err(e) => Fail(e)
  }

  /** Whatever is fetched for a digest hashes to it. */
  lemma FetchedBytesMatch(cfg: Config, fetched: Option<seq<Digest.byte>>, digest: string)
    ensures FetchVerified(cfg, fetched, digest).Ok? <==>
      fetched.Some? && Digest.IsDigest(digest) && Digest.HexDecode(digest[|Digest.PREFIX|..]) == cfg.hash(fetched.value)
    ensures FetchVerified(cfg, fetched, digest).Ok? ==> fetched == Some(FetchVerified(cfg, fetched, digest).value)
  {
    if fetched.Some? {
      Digest.VerifyMeansEqualBytes(cfg.hash(fetched.value), digest);
    }
  }

  /** `HubService::publish` up to the repository call. */
  function PublishGate(
      cfg: Config, auth: AuthContext, namespace: string, request: PublishSkillRequest, fetched: Option<seq<Digest.byte>>)
      : Outcome<HubError> {
    var allowed := CanPublish(auth, namespace);
    :- allowed;
    :- CheckRequest(cfg, namespace, request);
    :- Check(cfg.allowUnsigned || HasSignature(request), UnsignedArtifactRejected);
    :- CheckArtifact(cfg, fetched, request.artifact.digest);
    :- VerifyTrust(cfg.check, request);
    Check(auth.subject.Some?, PermissionDenied("publish", namespace))
  }

  /** `HubService::yank` up to the repository call. */
  function YankGate(auth: AuthContext, namespace: string, name: string, version: string): Outcome<HubError> {
    var allowed := CanYank(auth, namespace);
    :- allowed;
    :- Check(IsNamespace(namespace), InvalidNamespace(namespace));
    :- Check(IsSkillName(name), InvalidSkillName(name));
    Check(SemVer.Parse(version).Some?, InvalidVersion(version))
  }

  /** The scope, and a publisher or admin role on the namespace. */
  predicate MayAct(auth: AuthContext, scope: string, namespace: string) {
    && scope in auth.scopes && namespace in auth.roles
    && (Publisher in auth.roles[namespace] || Admin in auth.roles[namespace])
  }

  /** The caller may publish here, and can be named. */
  predicate MayPublish(auth: AuthContext, namespace: string) {
    auth.subject.Some? && MayAct(auth, "skills:publish", namespace)
  }

  predicate MayYank(auth: AuthContext, namespace: string) {
    MayAct(auth, "skills:yank", namespace)
  }

  predicate WellFormedRequest(cfg: Config, namespace: string, request: PublishSkillRequest) {
    var m := request.manifest;
    && IsNamespace(namespace) && IsSkillName(m.name) && SemVer.Parse(m.version).Some?
    && Digest.IsDigest(request.artifact.digest) && cfg.urlOk(request.artifact.url)
    && SkillPath.IsSafe(m.entry) && forall f | f in m.files :: SkillPath.IsSafe(f)
  }

  /** The bytes at the pointer were read and hash to the digest of the request. */
  predicate ArtifactMatches(cfg: Config, request: PublishSkillRequest, fetched: Option<seq<Digest.byte>>) {
    && fetched.Some? && Digest.IsDigest(request.artifact.digest)
    && Digest.HexDecode(request.artifact.digest[|Digest.PREFIX|..]) == cfg.hash(fetched.value)
  }

  /** Nothing it carries as a signature or bundle fails, and unless unsigned is allowed it carries one. */
  ghost predicate Trusted(cfg: Config, request: PublishSkillRequest) {
    && (Signed(cfg.check, request) || (request.signature.None? && request.publicKey.None?))
    && (Bundled(request) || request.bundle.None?)
    && (cfg.allowUnsigned || Signed(cfg.check, request) || Bundled(request))
  }

  lemma CheckFilesExactly(files: seq<string>)
    ensures CheckFiles(files) == Pass <==> forall f | f in files :: SkillPath.IsSafe(f)
  {
    if files != [] {
      SkillPath.AcceptsExactlySafe(files[0]);
      CheckFilesExactly(files[1..]);
    }
  }

  lemma CheckRequestExactly(cfg: Config, namespace: string, request: PublishSkillRequest)
    ensures CheckRequest(cfg, namespace, request) == Pass <==> WellFormedRequest(cfg, namespace, request)
  {
    SkillPath.AcceptsExactlySafe(request.manifest.entry);
    CheckFilesExactly(request.manifest.files);
  }

  lemma MayPublishExactly(auth: AuthContext, namespace: string)
    ensures CanPublish(auth, namespace) == Pass && auth.subject.Some? <==> MayPublish(auth, namespace)
  {
  }

  lemma TrustedExactly(cfg: Config, request: PublishSkillRequest)
    ensures (cfg.allowUnsigned || HasSignature(request)) && VerifyTrust(cfg.check, request) == Pass <==> Trusted(cfg, request)
  {
    TrustedRequests(cfg.check, request);
  }

  lemma PublishGatePasses(
      cfg: Config, auth: AuthContext, namespace: string, request: PublishSkillRequest, fetched: Option<seq<Digest.byte>>)
    ensures PublishGate(cfg, auth, namespace, request, fetched) == Pass <==>
      && CanPublish(auth, namespace) == Pass
      && CheckRequest(cfg, namespace, request) == Pass
      && (cfg.allowUnsigned || HasSignature(request))
      && FetchVerified(cfg, fetched, request.artifact.digest).Ok?
      && VerifyTrust(cfg.check, request) == Pass
      && auth.subject.Some?
  {
  }

  /** A request passes every gate exactly when all of this holds of it; no check is skipped. */
  lemma PublishAdmitsExactly(
      cfg: Config, auth: AuthContext, namespace: string, request: PublishSkillRequest, fetched: Option<seq<Digest.byte>>)
    ensures PublishGate(cfg, auth, namespace, request, fetched) == Pass <==>
      && MayPublish(auth, namespace) && WellFormedRequest(cfg, namespace, request)
      && ArtifactMatches(cfg, request, fetched) && Trusted(cfg, request)
  {
    PublishGatePasses(cfg, auth, namespace, request, fetched);
    MayPublishExactly(auth, namespace);
    CheckRequestExactly(cfg, namespace, request);
    FetchedBytesMatch(cfg, fetched, request.artifact.digest);
    TrustedExactly(cfg, request);
  }

  /** The first file of the list that is not safe is what the validator complains of. */
  lemma {:induction false} CheckFilesReports(files: seq<string>, i: nat)
    requires i < |files| && !SkillPath.IsSafe(files[i]) && forall j | 0 <= j < i :: SkillPath.IsSafe(files[j])
    ensures CheckFiles(files) == Fail(UnsafeSkillPath(files[i]))
  {
    SkillPath.AcceptsExactlySafe(files[0]);
    if i > 0 {
      CheckFilesReports(files[1..], i - 1);
    }
  }

  lemma CheckRequestReports(cfg: Config, namespace: string, request: PublishSkillRequest)
    ensures var (r, m) := (CheckRequest(cfg, namespace, request), request.manifest);
      if !IsNamespace(namespace) then r == Fail(InvalidNamespace(namespace))
      else if !IsSkillName(m.name) then r == Fail(InvalidSkillName(m.name))
      else if SemVer.Parse(m.version).None? then r == Fail(InvalidVersion(m.version))
      else if !Digest.IsDigest(request.artifact.digest) then r == Fail(HubError.InvalidDigest(request.artifact.digest))
      else if !cfg.urlOk(request.artifact.url) then r == Fail(InvalidArtifactUrl(request.artifact.url))
      else if !SkillPath.IsSafe(m.entry) then r == Fail(UnsafeSkillPath(m.entry))
      else forall i | 0 <= i < |m.files| && !SkillPath.IsSafe(m.files[i]) && (forall j | 0 <= j < i :: SkillPath.IsSafe(m.files[j])) ::
        r == Fail(UnsafeSkillPath(m.files[i]))
  {
    var m := request.manifest;
    SkillPath.AcceptsExactlySafe(m.entry);
    forall i | 0 <= i < |m.files| && !SkillPath.IsSafe(m.files[i]) && (forall j | 0 <= j < i :: SkillPath.IsSafe(m.files[j]))
      ensures CheckFiles(m.files) == Fail(UnsafeSkillPath(m.files[i]))
    {
      CheckFilesReports(m.files, i);
    }
  }

  /** A refused publish is told the first thing wrong with it: permission, fields, signature, artifact, trust, subject. */
  lemma PublishReports(
      cfg: Config, auth: AuthContext, namespace: string, request: PublishSkillRequest, fetched: Option<seq<Digest.byte>>)
    ensures PublishGate(cfg, auth, namespace, request, fetched) ==
      if !MayAct(auth, "skills:publish", namespace) then Fail(PermissionDenied("publish", namespace))
      else if !WellFormedRequest(cfg, namespace, request) then CheckRequest(cfg, namespace, request)
      else if !cfg.allowUnsigned && (request.signature.None? || request.publicKey.None?) && request.bundle.None?
      then Fail(UnsignedArtifactRejected)
      else if !ArtifactMatches(cfg, request, fetched) then Fail(ArtifactVerification)
      else if !Trusted(cfg, request) then Fail(TrustVerification)
      else if auth.subject.None? then Fail(PermissionDenied("publish", namespace))
      else Pass
  {
    CheckRequestExactly(cfg, namespace, request);
    FetchedBytesMatch(cfg, fetched, request.artifact.digest);
    TrustedRequests(cfg.check, request);
  }

  lemma YankReports(auth: AuthContext, namespace: string, name: string, version: string)
    ensures YankGate(auth, namespace, name, version) ==
      if !MayAct(auth, "skills:yank", namespace) then Fail(PermissionDenied("yank", namespace))
      else if !IsNamespace(namespace) then Fail(InvalidNamespace(namespace))
      else if !IsSkillName(name) then Fail(InvalidSkillName(name))
      else if SemVer.Parse(version).None? then Fail(InvalidVersion(version))
      else Pass
  {
  }

  /** Likewise a yank; an unyank is asked the first question only. */
  lemma YankAdmitsExactly(auth: AuthContext, namespace: string, name: string, version: string)
    ensures CanYank(auth, namespace) == Pass <==> MayYank(auth, namespace)
    ensures YankGate(auth, namespace, name, version) == Pass <==>
      MayYank(auth, namespace) && IsNamespace(namespace) && IsSkillName(name) && SemVer.Parse(version).Some?
  {
  }

  /** A valid namespace can be written into a role entry and is read back from it. */
  lemma NamespacesAreRoleNamespaces(namespace: string)
    requires IsNamespace(namespace)
    ensures IsRoleNamespace(namespace)
  {
    assert namespace[0] in namespace;
  }
}
