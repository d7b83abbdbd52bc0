/** `HubService` as its two methods run, over the repository and the webhook queue. */
module HubService {
  import opened Wrappers
  import opened Model
  import opened Tables
  import opened Registry
  import opened History
  import opened Auth
  import opened Gates
  import opened Repository
  import opened Service
  import Digest
  import Trust

  class RuntimeWebhookQueue {
    var events: seq<WebhookEvent>
    var poisoned: bool

    constructor ()
      ensures events == [] && !poisoned
    {
      events, poisoned := [], false;
    }

    method Enqueue(event: WebhookEvent) returns (r: Outcome<HubError>)
      modifies this`events
      ensures poisoned ==> r == Fail(Database) && events == old(events)
      ensures !poisoned ==> r == Pass && events == old(events) + [event]
    {
      if poisoned {
        return Fail(Database);
      }
      events := events + [event];
      return Pass;
    }
  }

  /** What the caller hears once the repository has replied. */
  function Heard(reply: Reply, poisoned: bool): Result<Reply, HubError> {
    if reply.Failed? then Err(reply.error) else if poisoned then Err(Database) else Ok(reply)
  }

  predicate Tells(r: Result<SkillVersionRecord, HubError>, reply: Reply, poisoned: bool) {
    match Heard(reply, poisoned)
    case Err(error) => r == Err(error)
    case Ok(answer) => answer.Recorded? && r == Ok(answer.record)
  }

  function Published(call: Call): WebhookEvent
    requires call.Publish?
  {
    WebhookEvent("skill.published", call.namespace, call.Name(), call.VersionText(), Some(call.publishedBy))
  }

  lemma SubjectKnown(
      cfg: Config, auth: AuthContext, namespace: string, request: PublishSkillRequest, fetched: Option<seq<Digest.byte>>)
    requires PublishGate(cfg, auth, namespace, request, fetched) == Pass
    ensures auth.subject.Some?
  {
  }

  /** The repository did nothing, or did this one call and replied so. */
  ghost predicate Ran(before: Tables, after: Tables, c: CallId, call: Call, reply: Reply) {
    if reply == LostConnection then after == before
    else (RegistryOf(after), reply) == Perform(RegistryOf(before), c, call)
  }

  /** A reply to a publish: an error, or a record of what was published. */
  predicate Fits(call: Call, reply: Reply) {
    reply.Failed? || (reply.Recorded? && reply.record.name == call.Name() && reply.record.version == call.VersionText())
  }

  lemma PublishReplies(reg: Registry, c: CallId, call: Call)
    requires call.Publish?
    ensures Fits(call, Perform(reg, c, call).1)
  {
  }

  class HubService {
    const cfg: Config
    const repo: PgHubRepository
    const queue: RuntimeWebhookQueue

    constructor (cfg: Config, repo: PgHubRepository, queue: RuntimeWebhookQueue)
      ensures this.cfg == cfg && this.repo == repo && this.queue == queue
    {
      this.cfg, this.repo, this.queue := cfg, repo, queue;
    }

    /** The gates of `publish`, in the order the service asks them. */
    method PassGates(
        auth: AuthContext, namespace: string, request: PublishSkillRequest, fetched: Option<seq<Digest.byte>>)
      returns (r: Outcome<HubError>)
      ensures r == PublishGate(cfg, auth, namespace, request, fetched)
    {
      var allowed := CanPublish(auth, namespace);
      :- allowed;
      :- ValidatePublishRequest(cfg, namespace, request);
      if !cfg.allowUnsigned && !Trust.HasSignature(request) {
        return Fail(UnsignedArtifactRejected);
      }
      :- CheckArtifact(cfg, fetched, request.artifact.digest);
      :- Trust.VerifyTrust(cfg.check, request);
      if auth.subject.None? {
        return Fail(PermissionDenied("publish", namespace));
      }
      return Pass;
    }

    method RunInsert(call: Call, c: CallId, lostAt: nat) returns (reply: Reply)
      requires DbOk(repo.db) && call.Publish? && SkillId(c) !in repo.db.skills && VersionId(c) !in repo.db.versions
      modifies repo
      ensures DbOk(repo.db)
      ensures Ran(old(repo.db), repo.db, c, call, reply) && (lostAt >= 5 ==> reply != LostConnection)
      ensures Fits(call, reply)
    {
      PublishReplies(RegistryOf(repo.db), c, call);
      reply := repo.InsertVersion(c, call, lostAt);
    }

    /** What follows the insert: announce it. */
    method Announce(call: Call, reply: Reply) returns (r: Result<SkillVersionRecord, HubError>)
      requires call.Publish? && Fits(call, reply)
      modifies queue`events
      ensures Tells(r, reply, queue.poisoned)
      ensures queue.events == old(queue.events) + if r.Ok? then [Published(call)] else []
    {
      if reply.Failed? {
        return Err(reply.error);
      }
      var record := reply.record;
      var queued := queue.Enqueue(
        WebhookEvent("skill.published", call.namespace, record.name, record.version, Some(call.publishedBy)));
      return if queued.Fail? then Err(queued.error) else Ok(record);
    }

    /**
     * `publish`: a refused request changes nothing; an admitted one is performed whole or not at all, and its
     * event is queued exactly when the caller is told it succeeded.
     */
    method Publish(
        auth: AuthContext, namespace: string, visibility: Visibility, request: PublishSkillRequest,
        fetched: Option<seq<Digest.byte>>, c: CallId, now: Time, lostAt: nat)
      returns (r: Result<SkillVersionRecord, HubError>, ghost reply: Reply)
      requires DbOk(repo.db) && SkillId(c) !in repo.db.skills && VersionId(c) !in repo.db.versions
      modifies repo, queue`events
      ensures DbOk(repo.db)
      ensures match PublishGate(cfg, auth, namespace, request, fetched)
        case Fail(error) => r == Err(error) && repo.db == old(repo.db) && queue.events == old(queue.events)
        case Pass =>
          && auth.subject.Some?
          && var call := Call.Publish(namespace, visibility, auth.subject.value, request, now);
          && Ran(old(repo.db), repo.db, c, call, reply) && (lostAt >= 5 ==> reply != LostConnection)
          && Tells(r, reply, queue.poisoned)
          && queue.events == old(queue.events) + if r.Ok? then [Published(call)] else []
    {
      var gate := PassGates(auth, namespace, request, fetched);
      if gate.Fail? {
        return Err(gate.error), LostConnection;
      }
      SubjectKnown(cfg, auth, namespace, request, fetched);
      var call := Call.Publish(namespace, visibility, auth.subject.value, request, now);
      var answer := RunInsert(call, c, lostAt);
      reply := answer;
      r := Announce(call, answer);
    }

    /** `yank`, likewise. */
    method Yank(
        auth: AuthContext, namespace: string, name: string, version: string, reason: string,
        c: CallId, now: Time, lost: bool)
      returns (r: Outcome<HubError>, ghost reply: Reply)
      requires DbOk(repo.db)
      modifies repo, queue`events
      ensures DbOk(repo.db)
      ensures var gate := YankGate(auth, namespace, name, version);
        gate.Fail? ==> r == gate && repo.db == old(repo.db) && queue.events == old(queue.events)
      ensures YankGate(auth, namespace, name, version) == Pass ==>
        && Ran(old(repo.db), repo.db, c, Call.Yank(namespace, name, version, reason, now), reply)
        && (!lost ==> reply != LostConnection)
        && (match Heard(reply, queue.poisoned) case Ok(_) => r == Pass case Err(e) => r == Fail(e))
      ensures queue.events == old(queue.events) +
        if r == Pass then [WebhookEvent("skill.yanked", namespace, name, version, auth.subject)] else []
    {
      reply := LostConnection;
      var gate := YankGate(auth, namespace, name, version);
      if gate.Fail? {
        return gate, LostConnection;
      }
      var answer := repo.Stamp(c, Call.Yank(namespace, name, version, reason, now), lost);
      reply := answer;
      if answer.Failed? {
        return Fail(answer.error), reply;
      }
      r := queue.Enqueue(WebhookEvent("skill.yanked", namespace, name, version, auth.subject));
    }
  }
}
