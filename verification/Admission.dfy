/** Where stored rows come from, when the service is the only way in. */
module Admission {
  import opened Wrappers
  import opened Model
  import opened Tables
  import opened Registry
  import opened Protocol
  import opened Linearizability
  import opened Runs
  import opened Gates
  import opened Service
  import Auth
  import SemVer
  import Trust
  import Utf8
  import Yanks

  function GateOutcome(cfg: Config, r: Request): Outcome<HubError> {
    match r
    case PublishRequest(auth, namespace, _, body, fetched, _) => PublishGate(cfg, auth, namespace, body, fetched)
    case YankRequest(auth, namespace, name, version, _, _) => YankGate(auth, namespace, name, version)
    case UnyankRequest(auth, namespace, _, _) => Auth.CanYank(auth, namespace)
  }

  /** Unyank goes from its handler straight to the repository; the other two go through the service. */
  function Process(cfg: Config, r: Request): (call: Result<Call, HubError>)
    ensures call.Ok? ==> CarriesOut(r, call.value)
  {
    match GateOutcome(cfg, r)
    case Fail(error) => Err(error)
    case Pass =>
      PassedHasSubject(cfg, r);
      Ok(match r
         case PublishRequest(auth, namespace, visibility, body, _, now) =>
           Publish(namespace, visibility, auth.subject.value, body, now)
         case YankRequest(_, namespace, name, version, reason, now) => Yank(namespace, name, version, reason, now)
         case UnyankRequest(_, namespace, name, version) => Unyank(namespace, name, version))
  }

  lemma PassedHasSubject(cfg: Config, r: Request)
    requires GateOutcome(cfg, r) == Pass
    ensures r.PublishRequest? ==> r.auth.subject.Some?
  {
  }

  /** What becomes of each kind of request: the call it asks for, or the first thing wrong with it. */
  lemma ProcessReports(cfg: Config, r: Request)
    ensures match r
      case PublishRequest(auth, namespace, visibility, body, fetched, now) =>
        (match PublishGate(cfg, auth, namespace, body, fetched)
         case Fail(error) => Process(cfg, r) == Err(error)
         case Pass =>
           auth.subject.Some? && Process(cfg, r) == Ok(Publish(namespace, visibility, auth.subject.value, body, now)))
      case YankRequest(auth, namespace, name, version, reason, now) =>
        (match YankGate(auth, namespace, name, version)
         case Fail(error) => Process(cfg, r) == Err(error)
         case Pass => Process(cfg, r) == Ok(Yank(namespace, name, version, reason, now)))
      case UnyankRequest(auth, namespace, name, version) =>
        Process(cfg, r) ==
          if MayYank(auth, namespace) then Ok(Unyank(namespace, name, version))
          else Err(PermissionDenied("yank", namespace))
  {
    if GateOutcome(cfg, r) == Pass {
      PassedHasSubject(cfg, r);
    }
    if r.UnyankRequest? {
      YankAdmitsExactly(r.auth, r.namespace, r.name, r.version);
    }
  }

  function HubGate(cfg: Config): Gate {
    r => Process(cfg, r)
  }

  /** All that a publish must be for its row to be stored. */
  ghost predicate Vetted(cfg: Config, r: Request) {
    && r.PublishRequest?
    && MayPublish(r.auth, r.namespace) && WellFormedRequest(cfg, r.namespace, r.body)
    && ArtifactMatches(cfg, r.body, r.fetched) && Trusted(cfg, r.body)
  }

  lemma AdmittedIsVetted(cfg: Config, r: Request)
    requires HubGate(cfg)(r).Ok? && r.PublishRequest?
    ensures Vetted(cfg, r)
  {
    PublishAdmitsExactly(cfg, r.auth, r.namespace, r.body, r.fetched);
  }

  lemma VettedIsAdmitted(cfg: Config, r: Request)
    requires Vetted(cfg, r)
    ensures HubGate(cfg)(r).Ok?
  {
    PublishAdmitsExactly(cfg, r.auth, r.namespace, r.body, r.fetched);
  }

  /** The row with the id that call `c` minted is the row this request asked for, yanks apart. */
  ghost predicate StoredFor(db: Tables, id: Uuid, c: CallId, r: Request)
    requires id in db.versions
  {
    && id == VersionId(c) && r.PublishRequest? && r.auth.subject.Some?
    && ReleaseAt(db, ReleaseKey(SkillKey(r.namespace, r.body.manifest.name), r.body.manifest.version), id)
    && var row := db.versions[id];
    && row.publishedBy == r.auth.subject.value
    && row.manifest == r.body.manifest && row.digest == r.body.artifact.digest
    && row.artifactUrl == r.body.artifact.url && row.artifactMediaType == r.body.artifact.mediaType
    && row.signature == r.body.signature && row.publicKey == r.body.publicKey && row.bundle == r.body.bundle
    && row.createdAt == r.now
  }

  lemma MintedRow(s: State, id: Uuid)
    requires Inv(s) && Lin(s) && id in s.db.versions
    ensures id.VersionId? && id.call in s.procs && s.procs[id.call].call.Publish?
    ensures Immutable(s.db.versions[id]) == NewVersionRow(id.call, s.procs[id.call].call, s.db.versions[id].skillId)
    ensures ReleaseAt(s.db, CallRelease(s.procs[id.call].call), id)
  {
    var record := NewRecord(id.call, s.procs[id.call].call);
    ReplyReturned(s, id.call, Recorded(record));
    AnswerStored(s, id.call, record);
  }

  lemma RowColumns(row: VersionRow, c: CallId, r: Request, call: Call)
    requires CarriesOut(r, call) && call.Publish? && Immutable(row) == NewVersionRow(c, call, row.skillId)
    ensures r.PublishRequest? && row.publishedBy == r.auth.subject.value
    ensures row.manifest == r.body.manifest && row.digest == r.body.artifact.digest
    ensures row.artifactUrl == r.body.artifact.url && row.artifactMediaType == r.body.artifact.mediaType
    ensures row.signature == r.body.signature && row.publicKey == r.body.publicKey && row.bundle == r.body.bundle
    ensures row.createdAt == r.now
  {
  }

  lemma RowHasRequest(gate: Gate, s: ServiceState, id: Uuid)
    requires Honest(gate) && ServiceInv(gate, s) && id in s.hub.db.versions
    ensures id.VersionId? && id.call in s.entries && gate(s.entries[id.call].request).Ok?
    ensures StoredFor(s.hub.db, id, id.call, s.entries[id.call].request)
  {
    MintedRow(s.hub, id);
    var r, call := s.entries[id.call].request, s.hub.procs[id.call].call;
    assert gate(r) == Ok(call);
    RowColumns(s.hub.db.versions[id], id.call, r, call);
  }

  /**
   * Every stored version came from a publish request that passed every gate: its caller held the scope and
   * a publisher or admin role and is the row's publisher, every field and file was valid, the artifact hashed
   * to the digest, and whatever it was signed with checked out.
   */
  lemma Provenance(cfg: Config, states: seq<ServiceState>, labels: seq<ServiceLabel>, n: nat, id: Uuid)
    requires IsServiceRun(HubGate(cfg), states, labels) && n < |states| && id in states[n].hub.db.versions
    ensures id.VersionId? && id.call in states[n].entries
    ensures Vetted(cfg, states[n].entries[id.call].request)
    ensures StoredFor(states[n].hub.db, id, id.call, states[n].entries[id.call].request)
  {
    ServiceRunInv(HubGate(cfg), states, labels, n);
    RowHasRequest(HubGate(cfg), states[n], id);
    AdmittedIsVetted(cfg, states[n].entries[id.call].request);
  }

  /** What a row says of its origin holds: its signature under its key, its bundle, and one of them where they are required. */
  ghost predicate SignedRow(cfg: Config, row: VersionRow) {
    && (row.signature.Some? || row.publicKey.Some? ==>
          && row.signature.Some? && row.publicKey.Some?
          && Trust.Verifies(
               cfg.check, row.publicKey.value, row.signature.value, Utf8.Encode(Trust.TrustText(row.manifest, row.digest))))
    && (row.bundle.Some? ==> Trust.IsBundle(row.bundle.value))
    && (!cfg.allowUnsigned ==> row.signature.Some? || row.bundle.Some?)
  }

  lemma TrustedRow(cfg: Config, row: VersionRow, r: Request)
    requires r.PublishRequest? && Trusted(cfg, r.body)
    requires row.manifest == r.body.manifest && row.digest == r.body.artifact.digest
    requires row.signature == r.body.signature && row.publicKey == r.body.publicKey && row.bundle == r.body.bundle
    ensures SignedRow(cfg, row)
  {
  }

  /**
   * Every stored signature verifies under the stored key, for the stored manifest and digest, every stored
   * bundle has the right shape, and if no key ever accepts, no row has a signature.
   */
  lemma SignedRowsVerify(cfg: Config, states: seq<ServiceState>, labels: seq<ServiceLabel>, n: nat, id: Uuid)
    requires IsServiceRun(HubGate(cfg), states, labels) && n < |states| && id in states[n].hub.db.versions
    ensures SignedRow(cfg, states[n].hub.db.versions[id])
    ensures (forall k, s, message :: !cfg.check(k, s, message)) ==> states[n].hub.db.versions[id].signature.None?
  {
    Provenance(cfg, states, labels, n, id);
    TrustedRow(cfg, states[n].hub.db.versions[id], states[n].entries[id.call].request);
  }

  /** Whoever makes a yank or unyank call may do so in its namespace; a yank's three names are valid. */
  lemma StampsAuthorized(cfg: Config, states: seq<ServiceState>, labels: seq<ServiceLabel>, n: nat, c: CallId)
    requires IsServiceRun(HubGate(cfg), states, labels) && n < |states|
    requires c in states[n].hub.procs && !states[n].hub.procs[c].call.Publish?
    ensures c in states[n].entries && !states[n].entries[c].request.PublishRequest?
    ensures var (r, call) := (states[n].entries[c].request, states[n].hub.procs[c].call);
      && MayYank(r.auth, call.namespace)
      && (call.Yank? ==> IsNamespace(call.namespace) && IsSkillName(call.name) && SemVer.Parse(call.version).Some?)
  {
    ServiceRunInv(HubGate(cfg), states, labels, n);
    StampVetted(cfg, states[n].entries[c].request, states[n].hub.procs[c].call);
  }

  lemma StampVetted(cfg: Config, r: Request, call: Call)
    requires HubGate(cfg)(r) == Ok(call) && !call.Publish?
    ensures !r.PublishRequest? && MayYank(r.auth, call.namespace)
    ensures call.Yank? ==> IsNamespace(call.namespace) && IsSkillName(call.name) && SemVer.Parse(call.version).Some?
  {
    YankAdmitsExactly(r.auth, call.namespace, call.name, call.version);
  }

  /** The request asks for this row by its columns, and the caller may yank in the row's namespace. */
  ghost predicate MayStamp(db: Tables, id: Uuid, r: Request)
    requires id in db.versions && db.versions[id].skillId in db.skills
  {
    var (skill, row) := (db.skills[db.versions[id].skillId], db.versions[id]);
    && !r.PublishRequest? && MayYank(r.auth, skill.namespace)
    && r.namespace == skill.namespace && r.name == skill.name && r.version == row.version
  }

  /** The row as the request leaves it. */
  function StampedBy(row: VersionRow, r: Request): VersionRow
    requires !r.PublishRequest?
  {
    if r.YankRequest? then row.(yankedAt := Some(r.now), yankReason := Some(r.reason))
    else row.(yankedAt := None, yankReason := None)
  }

  lemma UpdatedRow(db: Tables, call: Call, id: Uuid, r: Request)
    requires !call.Publish? && CarriesOut(r, call) && Targets(db, call, id)
    ensures Yanks.IsVersionOf(db, r.namespace, r.name, r.version, id)
    ensures UpdateYank(db, call).versions[id] == StampedBy(db.versions[id], r)
  {
    Yanks.TargetsColumns(db, call, id);
    Yanks.UpdateStamps(db, call);
  }

  lemma ChangedRowStamped(s: State, l: Label, id: Uuid)
    requires Inv(s) && CanTake(s, l) && id in s.db.versions
    requires id in Take(s, l).db.versions && Take(s, l).db.versions[id] != s.db.versions[id]
    ensures Stamps(s, l, id) && Take(s, l).db == UpdateYank(s.db, s.procs[l.id].call)
  {
    StepExtends(s, l);
  }

  /**
   * In every run, a version row once stored changes only when the UPDATE of a yank or unyank request runs that
   * names it by namespace, name and version; its caller has the scope and a publisher or admin role in the
   * namespace of that very row, and the row then holds the request's time and reason, or none.
   */
  lemma RestampsAuthorized(
      cfg: Config, states: seq<ServiceState>, labels: seq<ServiceLabel>, n: nat, id: Uuid) returns (c: CallId)
    requires IsServiceRun(HubGate(cfg), states, labels) && n < |labels| && id in states[n].hub.db.versions
    requires id !in states[n + 1].hub.db.versions || states[n + 1].hub.db.versions[id] != states[n].hub.db.versions[id]
    ensures labels[n] == Hub(Advance(c)) && c in states[n].entries
    ensures states[n].hub.db.versions[id].skillId in states[n].hub.db.skills
    ensures MayStamp(states[n].hub.db, id, states[n].entries[c].request)
    ensures id in states[n + 1].hub.db.versions
    ensures states[n + 1].hub.db.versions[id] == StampedBy(states[n].hub.db.versions[id], states[n].entries[c].request)
  {
    var s := states[n];
    ServiceRunInv(HubGate(cfg), states, labels, n);
    ServiceRunStepExtends(HubGate(cfg), states, labels, n);
    if !labels[n].Hub? {
      QuietOutside(HubGate(cfg), s, labels[n]);
    }
    var l := labels[n].step;
    ChangedRowStamped(s.hub, l, id);
    c := l.id;
    StampsAuthorized(cfg, states, labels, n, c);
    UpdatedRow(s.hub.db, s.hub.procs[c].call, id, s.entries[c].request);
  }

  /** Every version text in the table is a semantic version. */
  ghost predicate VersionsParse(db: Tables) {
    forall id | id in db.versions :: SemVer.Parse(db.versions[id].version).Some?
  }

  lemma VettedVersion(cfg: Config, r: Request)
    requires Vetted(cfg, r)
    ensures SemVer.Parse(r.body.manifest.version).Some?
  {
  }

  /** So in every run the comparator is used only where it is an order. */
  lemma StoredVersionsParse(cfg: Config, states: seq<ServiceState>, labels: seq<ServiceLabel>, n: nat)
    requires IsServiceRun(HubGate(cfg), states, labels) && n < |states|
    ensures DbOk(states[n].hub.db) && VersionsParse(states[n].hub.db)
  {
    var db := states[n].hub.db;
    ServiceRunInv(HubGate(cfg), states, labels, n);
    forall id | id in db.versions ensures SemVer.Parse(db.versions[id].version).Some? {
      Provenance(cfg, states, labels, n, id);
      VettedVersion(cfg, states[n].entries[id.call].request);
    }
  }
}
