/**
 * The hub service over the concurrent repository: requests arrive and are gated, admitted ones run as
 * repository calls, and a call that came back well puts an event on the webhook queue. The runs are stated
 * for any gate; `Admission` is about the gate there is.
 */
module Service {
  import opened Wrappers
  import opened Model
  import opened Tables
  import opened Registry
  import opened History
  import opened Protocol
  import opened Invariants
  import opened Linearizability
  import opened Runs
  import opened Sequences
  import opened Auth
  import Digest

  datatype WebhookEvent = WebhookEvent(
    eventType: string,
    namespace: string,
    name: string,
    version: string,
    subject: Option<string>)

  /** A request as it arrives; `fetched` is what the artifact store yields for it. */
  datatype Request =
    | PublishRequest(
        auth: AuthContext,
        namespace: string,
        visibility: Visibility,
        body: PublishSkillRequest,
        fetched: Option<seq<Digest.byte>>,
        now: Time)
    | YankRequest(auth: AuthContext, namespace: string, name: string, version: string, reason: string, now: Time)
    | UnyankRequest(auth: AuthContext, namespace: string, name: string, version: string)

  /** Refuses a request, or turns it into the repository call to make. */
  type Gate = Request -> Result<Call, HubError>

  /** The call asks the repository for what the request asked of the service. */
  predicate CarriesOut(r: Request, call: Call) {
    match r
    case PublishRequest(auth, namespace, visibility, body, _, now) =>
      auth.subject.Some? && call == Publish(namespace, visibility, auth.subject.value, body, now)
    case YankRequest(_, namespace, name, version, reason, now) => call == Yank(namespace, name, version, reason, now)
    case UnyankRequest(_, namespace, name, version) => call == Unyank(namespace, name, version)
  }

  ghost predicate Honest(gate: Gate) {
    forall r | gate(r).Ok? :: CarriesOut(r, gate(r).value)
  }

  datatype Status = Working | Succeeded | Errored(error: HubError)

  datatype Entry = Entry(request: Request, status: Status)

  /** `senders` only observes: it notes for each event the request that sent it. */
  datatype ServiceState = ServiceState(
    hub: State,
    entries: map<CallId, Entry>,
    events: seq<WebhookEvent>,
    senders: seq<CallId>,
    poisoned: bool)

  /** `Poison`: a holder of the queue's lock panics, and every later `enqueue` fails. */
  datatype ServiceLabel =
    | Arrive(id: CallId, request: Request)
    | Hub(step: Label)
    | Deliver(id: CallId)
    | Poison

  const Fresh := ServiceState(Boot, map[], [], [], false)

  /** The repository call has come back to the service with this reply. */
  function ReplyOf(hub: State, c: CallId): Option<Reply> {
    if c !in hub.procs then None
    else
      match hub.procs[c].pc
      case RollingBack(reply) => Some(reply)
      case Done(reply) => Some(reply)
      case _ => None
  }

  function EventOf(r: Request, reply: Reply): WebhookEvent
    requires !r.UnyankRequest? && (r.PublishRequest? ==> reply.Recorded?)
  {
    if r.PublishRequest?
    then WebhookEvent("skill.published", r.namespace, reply.record.name, reply.record.version, r.auth.subject)
    else WebhookEvent("skill.yanked", r.namespace, r.name, r.version, r.auth.subject)
  }

  ghost predicate CanDo(s: ServiceState, l: ServiceLabel) {
    match l
    case Arrive(c, _) => c !in s.entries && c !in s.hub.procs
    case Hub(step) => !step.Invoke? && CanTake(s.hub, step)
    case Deliver(c) =>
      && c in s.entries && s.entries[c].status.Working?
      && ReplyOf(s.hub, c).Some?
      && (s.entries[c].request.PublishRequest? ==> ReplyOf(s.hub, c).value.Failed? || ReplyOf(s.hub, c).value.Recorded?)
    case Poison => true
  }

  function Refuse(s: ServiceState, c: CallId, request: Request, error: HubError): ServiceState {
    s.(entries := s.entries[c := Entry(request, Errored(error))])
  }

  ghost function Admit(s: ServiceState, c: CallId, request: Request, call: Call): ServiceState
    requires c !in s.hub.procs
  {
    s.(entries := s.entries[c := Entry(request, Working)], hub := Take(s.hub, Invoke(c, call)))
  }

  function Settle(s: ServiceState, c: CallId, status: Status, events: seq<WebhookEvent>): ServiceState
    requires c in s.entries
  {
    s.(
      entries := s.entries[c := s.entries[c].(status := status)],
      events := s.events + events,
      senders := s.senders + seq(|events|, _ => c))
  }

  /** Unyank has no event; the other two report the queue's error if it cannot take theirs. */
  function Answer(s: ServiceState, c: CallId, reply: Reply): ServiceState
    requires c in s.entries && (s.entries[c].request.PublishRequest? ==> reply.Failed? || reply.Recorded?)
  {
    var request := s.entries[c].request;
    if reply.Failed? then Settle(s, c, Errored(reply.error), [])
    else if request.UnyankRequest? then Settle(s, c, Succeeded, [])
    else if s.poisoned then Settle(s, c, Errored(Database), [])
    else Settle(s, c, Succeeded, [EventOf(request, reply)])
  }

  ghost function Do(gate: Gate, s: ServiceState, l: ServiceLabel): ServiceState
    requires CanDo(s, l)
  {
    match l
    case Arrive(c, request) =>
      (match gate(request)
       case Err(e) => Refuse(s, c, request, e)
       case Ok(call) => Admit(s, c, request, call))
    case Hub(step) => s.(hub := Take(s.hub, step))
    case Deliver(c) => Answer(s, c, ReplyOf(s.hub, c).value)
    case Poison => s.(poisoned := true)
  }

  ghost predicate IsServiceRun(gate: Gate, states: seq<ServiceState>, labels: seq<ServiceLabel>) {
    && |states| == |labels| + 1 && states[0] == Fresh
    && forall i | 0 <= i < |labels| :: CanDo(states[i], labels[i]) && states[i + 1] == Do(gate, states[i], labels[i])
  }

  // ----- the invariant

  /** Every repository call was let in by the gate, for the request it stands for. */
  ghost predicate Admitted(gate: Gate, hub: State, entries: map<CallId, Entry>) {
    forall c | c in hub.procs :: c in entries && gate(entries[c].request) == Ok(hub.procs[c].call)
  }

  /** The requests that owe the queue an event. */
  function Announced(entries: map<CallId, Entry>): set<CallId> {
    set c | c in entries && entries[c].status.Succeeded? && !entries[c].request.UnyankRequest?
  }

  /** What the webhooks should be told of a request that succeeded. */
  function EventFor(r: Request): WebhookEvent
    requires !r.UnyankRequest?
  {
    match r
    case PublishRequest(auth, namespace, _, body, _, _) =>
      WebhookEvent("skill.published", namespace, body.manifest.name, body.manifest.version, auth.subject)
    case YankRequest(auth, namespace, name, version, _, _) =>
      WebhookEvent("skill.yanked", namespace, name, version, auth.subject)
  }

  /** The successful publishes and yanks have each sent one event, its own, and no other request has sent any. */
  ghost predicate OneEventEach(events: seq<WebhookEvent>, senders: seq<CallId>, entries: map<CallId, Entry>) {
    && |senders| == |events| && Distinct(senders)
    && (forall c :: c in senders <==> c in Announced(entries))
    && (forall i | 0 <= i < |events| ::
          senders[i] in Announced(entries) && events[i] == EventFor(entries[senders[i]].request))
  }

  ghost predicate NamesRow(db: Tables, e: WebhookEvent) {
    exists id :: ReleaseAt(db, ReleaseKey(SkillKey(e.namespace, e.name), e.version), id)
  }

  ghost predicate AllNameRows(db: Tables, events: seq<WebhookEvent>) {
    forall e | e in events :: NamesRow(db, e)
  }

  ghost predicate Accounted(gate: Gate, s: ServiceState) {
    && Admitted(gate, s.hub, s.entries)
    && OneEventEach(s.events, s.senders, s.entries)
    && AllNameRows(s.hub.db, s.events)
  }

  ghost predicate ServiceInv(gate: Gate, s: ServiceState) {
    Inv(s.hub) && Lin(s.hub) && Accounted(gate, s)
  }

  lemma ReplyReturned(s: State, c: CallId, reply: Reply)
    requires Lin(s) && c in s.procs && (s.procs[c].pc == RollingBack(reply) || s.procs[c].pc == Done(reply))
    ensures Returned(c, reply) in s.history
  {
  }

  /** The service hears exactly what the call was returned. */
  lemma ReplyIsReturned(s: State, c: CallId, reply: Reply)
    requires Lin(s)
    ensures Returned(c, reply) in s.history <==> ReplyOf(s, c) == Some(reply)
  {
    if c in s.procs {
      assert Chronicled(s.history, c, s.procs[c]);
    }
    if Returned(c, reply) in s.history && ReplyOf(s, c).Some? {
      OneReply(s.history, c, reply, ReplyOf(s, c).value);
    }
  }

  lemma RowsStay(db: Tables, after: Tables, key: ReleaseKey, id: Uuid)
    requires Extends(db, after) && ReleaseAt(db, key, id)
    ensures ReleaseAt(after, key, id)
  {
  }

  lemma NamesStay(db: Tables, after: Tables, events: seq<WebhookEvent>)
    requires Extends(db, after) && AllNameRows(db, events)
    ensures AllNameRows(after, events)
  {
    forall e | e in events ensures NamesRow(after, e) {
      var key := ReleaseKey(SkillKey(e.namespace, e.name), e.version);
      assert NamesRow(db, e);
      var id :| ReleaseAt(db, key, id);
      RowsStay(db, after, key, id);
    }
  }

  lemma StepAdmitted(gate: Gate, hub: State, entries: map<CallId, Entry>, l: Label)
    requires Admitted(gate, hub, entries) && CanTake(hub, l) && !l.Invoke?
    ensures Admitted(gate, Take(hub, l), entries)
  {
  }

  lemma StepKeeps(gate: Gate, s: ServiceState, l: Label)
    requires ServiceInv(gate, s) && CanTake(s.hub, l) && !l.Invoke?
    ensures ServiceInv(gate, s.(hub := Take(s.hub, l)))
  {
    StepKeepsInv(s.hub, l);
    StepLin(s.hub, l);
    StepExtends(s.hub, l);
    NamesStay(s.hub.db, Take(s.hub, l).db, s.events);
    StepAdmitted(gate, s.hub, s.entries, l);
  }

  /** A request on its way owes no event yet, nor does one that failed. */
  lemma NewEntry(events: seq<WebhookEvent>, senders: seq<CallId>, entries: map<CallId, Entry>, c: CallId, entry: Entry)
    requires OneEventEach(events, senders, entries)
    requires (c in entries ==> c !in Announced(entries) && entry.request == entries[c].request)
    requires entry.status.Succeeded? ==> entry.request.UnyankRequest?
    ensures OneEventEach(events, senders, entries[c := entry])
  {
    assert Announced(entries[c := entry]) == Announced(entries);
  }

  /** One that succeeded sends its own. */
  lemma NewEvent(events: seq<WebhookEvent>, senders: seq<CallId>, entries: map<CallId, Entry>, c: CallId)
    requires OneEventEach(events, senders, entries)
    requires c in entries && entries[c].status.Working? && !entries[c].request.UnyankRequest?
    ensures OneEventEach(
      events + [EventFor(entries[c].request)], senders + [c], entries[c := entries[c].(status := Succeeded)])
  {
    assert Announced(entries[c := entries[c].(status := Succeeded)]) == Announced(entries) + {c};
    assert c !in senders;
  }

  lemma AdmitAccounted(gate: Gate, s: ServiceState, c: CallId, request: Request, call: Call)
    requires Accounted(gate, s) && c !in s.entries && c !in s.hub.procs && gate(request) == Ok(call)
    ensures Accounted(gate, Admit(s, c, request, call))
  {
    NewEntry(s.events, s.senders, s.entries, c, Entry(request, Working));
  }

  lemma AdmitKeeps(gate: Gate, s: ServiceState, c: CallId, request: Request, call: Call)
    requires ServiceInv(gate, s) && CanDo(s, Arrive(c, request)) && gate(request) == Ok(call)
    ensures ServiceInv(gate, Admit(s, c, request, call))
  {
    StepKeepsInv(s.hub, Invoke(c, call));
    StepLin(s.hub, Invoke(c, call));
    AdmitAccounted(gate, s, c, request, call);
  }

  lemma ArriveKeeps(gate: Gate, s: ServiceState, c: CallId, request: Request)
    requires ServiceInv(gate, s) && CanDo(s, Arrive(c, request))
    ensures ServiceInv(gate, Do(gate, s, Arrive(c, request)))
  {
    match gate(request)
    case Err(error) => NewEntry(s.events, s.senders, s.entries, c, Entry(request, Errored(error)));
    case Ok(call) => AdmitKeeps(gate, s, c, request, call);
  }

  lemma EventNamesRow(hub: State, c: CallId, request: Request, reply: Reply)
    requires Inv(hub) && Lin(hub) && c in hub.procs && ReplyOf(hub, c) == Some(reply) && !reply.Failed?
    requires CarriesOut(request, hub.procs[c].call) && !request.UnyankRequest?
    ensures request.PublishRequest? ==> reply.Recorded?
    ensures EventOf(request, reply) == EventFor(request) && NamesRow(hub.db, EventFor(request))
  {
    ReplyReturned(hub, c, reply);
    SuccessStored(hub, c, reply);
    var id :| ReleaseAt(hub.db, CallRelease(hub.procs[c].call), id);
  }

  lemma QuietlySettled(gate: Gate, s: ServiceState, c: CallId, status: Status)
    requires Accounted(gate, s) && c in s.entries && s.entries[c].status.Working?
    requires status.Succeeded? ==> s.entries[c].request.UnyankRequest?
    ensures Accounted(gate, Settle(s, c, status, []))
  {
    NewEntry(s.events, s.senders, s.entries, c, s.entries[c].(status := status));
    assert s.events + [] == s.events && s.senders + [] == s.senders;
  }

  lemma SettledWithEvent(gate: Gate, s: ServiceState, c: CallId)
    requires Accounted(gate, s) && c in s.entries && s.entries[c].status.Working?
    requires !s.entries[c].request.UnyankRequest? && NamesRow(s.hub.db, EventFor(s.entries[c].request))
    ensures Accounted(gate, Settle(s, c, Succeeded, [EventFor(s.entries[c].request)]))
  {
    NewEvent(s.events, s.senders, s.entries, c);
    assert Settle(s, c, Succeeded, [EventFor(s.entries[c].request)]).senders == s.senders + [c];
  }

  lemma AnswerAccounted(gate: Gate, s: ServiceState, c: CallId, reply: Reply)
    requires Accounted(gate, s) && c in s.entries && s.entries[c].status.Working?
    requires s.entries[c].request.PublishRequest? ==> reply.Failed? || reply.Recorded?
    requires !reply.Failed? && !s.entries[c].request.UnyankRequest? ==>
      var request := s.entries[c].request;
      EventOf(request, reply) == EventFor(request) && NamesRow(s.hub.db, EventFor(request))
    ensures Accounted(gate, Answer(s, c, reply)) && Answer(s, c, reply).hub == s.hub
  {
    if reply.Failed? {
      QuietlySettled(gate, s, c, Errored(reply.error));
    } else if s.entries[c].request.UnyankRequest? {
      QuietlySettled(gate, s, c, Succeeded);
    } else if s.poisoned {
      QuietlySettled(gate, s, c, Errored(Database));
    } else {
      SettledWithEvent(gate, s, c);
    }
  }

  lemma AnswerKeeps(gate: Gate, s: ServiceState, c: CallId)
    requires Honest(gate) && ServiceInv(gate, s) && CanDo(s, Deliver(c))
    ensures ServiceInv(gate, Do(gate, s, Deliver(c)))
  {
    var request, reply := s.entries[c].request, ReplyOf(s.hub, c).value;
    if !reply.Failed? && !request.UnyankRequest? {
      EventNamesRow(s.hub, c, request, reply);
    }
    AnswerAccounted(gate, s, c, reply);
  }

  lemma {:induction false} ServiceRunInv(gate: Gate, states: seq<ServiceState>, labels: seq<ServiceLabel>, n: nat)
    requires Honest(gate) && IsServiceRun(gate, states, labels) && n < |states|
    ensures ServiceInv(gate, states[n])
  {
    if n == 0 {
      assert Announced(Fresh.entries) == {} && Fresh.senders == [];
    } else {
      var s := states[n - 1];
      ServiceRunInv(gate, states, labels, n - 1);
      match labels[n - 1] {
        case Arrive(c, request) => ArriveKeeps(gate, s, c, request);
        case Hub(step) => StepKeeps(gate, s, step);
        case Deliver(c) => AnswerKeeps(gate, s, c);
        case Poison =>
      }
    }
  }

  /** The service never lags: a reply, once there, can be delivered, whatever the reply is. */
  lemma RepliesDeliver(gate: Gate, s: ServiceState, c: CallId)
    requires Honest(gate) && ServiceInv(gate, s)
    requires c in s.entries && s.entries[c].status.Working? && ReplyOf(s.hub, c).Some?
    ensures CanDo(s, Deliver(c))
  {
    var reply := ReplyOf(s.hub, c).value;
    assert CarriesOut(s.entries[c].request, s.hub.procs[c].call);
    if s.entries[c].request.PublishRequest? && !reply.Failed? {
      EventNamesRow(s.hub, c, s.entries[c].request, reply);
    }
  }

  // ----- what holds over whole runs of the service

  /** Only a step of the repository touches the tables. */
  lemma QuietOutside(gate: Gate, s: ServiceState, l: ServiceLabel)
    requires CanDo(s, l) && !l.Hub?
    ensures Do(gate, s, l).hub.db == s.hub.db
  {
  }

  lemma EventsGrow(gate: Gate, s: ServiceState, l: ServiceLabel)
    requires CanDo(s, l)
    ensures s.events <= Do(gate, s, l).events
  {
  }

  lemma ServiceStepExtends(gate: Gate, s: ServiceState, l: ServiceLabel)
    requires ServiceInv(gate, s) && CanDo(s, l)
    ensures Extends(s.hub.db, Do(gate, s, l).hub.db)
  {
    if l.Hub? {
      StepExtends(s.hub, l.step);
    } else {
      QuietOutside(gate, s, l);
    }
  }

  lemma ServiceRunStepExtends(gate: Gate, states: seq<ServiceState>, labels: seq<ServiceLabel>, k: nat)
    requires Honest(gate) && IsServiceRun(gate, states, labels) && k < |labels|
    ensures Extends(states[k].hub.db, states[k + 1].hub.db)
  {
    ServiceRunInv(gate, states, labels, k);
    ServiceStepExtends(gate, states[k], labels[k]);
  }

  lemma ServiceRunExtends(gate: Gate, states: seq<ServiceState>, labels: seq<ServiceLabel>, i: nat, j: nat)
    requires Honest(gate) && IsServiceRun(gate, states, labels) && i <= j < |states|
    ensures Extends(states[i].hub.db, states[j].hub.db)
  {
    var dbs := seq(|states|, k requires 0 <= k < |states| => states[k].hub.db);
    forall k | 0 < k < |dbs| ensures Extends(dbs[k - 1], dbs[k]) {
      ServiceRunStepExtends(gate, states, labels, k - 1);
    }
    GrowingExtends(dbs, i, j);
  }

  /** Queued events stay queued. */
  lemma {:induction false} RunEventsGrow(
      gate: Gate, states: seq<ServiceState>, labels: seq<ServiceLabel>, i: nat, j: nat)
    requires IsServiceRun(gate, states, labels) && i <= j < |states|
    ensures states[i].events <= states[j].events
  {
    if i < j {
      RunEventsGrow(gate, states, labels, i, j - 1);
      EventsGrow(gate, states[j - 1], labels[j - 1]);
    }
  }

  /**
   * The queue holds the events of exactly the publishes and yanks that succeeded, one each; and each event
   * names a version row that was committed when the event was queued and is committed ever after.
   */
  lemma EventsMatchSuccesses(
      gate: Gate, states: seq<ServiceState>, labels: seq<ServiceLabel>, i: nat, j: nat, e: WebhookEvent)
    requires Honest(gate) && IsServiceRun(gate, states, labels) && i <= j < |states|
    ensures OneEventEach(states[i].events, states[i].senders, states[i].entries)
    ensures |states[i].events| == |Announced(states[i].entries)|
    ensures e in states[i].events ==>
      var key := ReleaseKey(SkillKey(e.namespace, e.name), e.version);
      e in states[j].events && exists id :: ReleaseAt(states[i].hub.db, key, id) && ReleaseAt(states[j].hub.db, key, id)
  {
    ServiceRunInv(gate, states, labels, i);
    DistinctSize(states[i].senders, Announced(states[i].entries));
    ServiceRunExtends(gate, states, labels, i, j);
    RunEventsGrow(gate, states, labels, i, j);
    if e in states[i].events {
      var key := ReleaseKey(SkillKey(e.namespace, e.name), e.version);
      assert NamesRow(states[i].hub.db, e);
      var id :| ReleaseAt(states[i].hub.db, key, id);
      RowsStay(states[i].hub.db, states[j].hub.db, key, id);
    }
  }

  lemma RecordIsTheRow(s: State, c: CallId, record: SkillVersionRecord)
    requires Inv(s) && Lin(s) && c in s.procs && s.procs[c].call.Publish? && ReplyOf(s, c) == Some(Recorded(record))
    ensures CallRelease(s.procs[c].call) == ReleaseKey(SkillKey(record.namespace, record.name), record.version)
    ensures ReleaseAt(s.db, CallRelease(s.procs[c].call), record.id)
    ensures s.db.versions[record.id].digest == record.digest
    ensures forall id | ReleaseAt(s.db, CallRelease(s.procs[c].call), id) :: id == record.id
  {
    ReplyReturned(s, c, Recorded(record));
    AnswerStored(s, c, record);
    AnswerReplayed(s, c, Recorded(record));
  }

  /** The two requests publish the same namespace, name and version. */
  predicate SameRelease(a: Request, b: Request) {
    && a.PublishRequest? && b.PublishRequest? && a.namespace == b.namespace
    && a.body.manifest.name == b.body.manifest.name && a.body.manifest.version == b.body.manifest.version
  }

  lemma Delivered(gate: Gate, s: ServiceState, c: CallId, record: SkillVersionRecord)
    requires CanDo(s, Deliver(c)) && s.entries[c].request.PublishRequest? && ReplyOf(s.hub, c) == Some(Recorded(record))
    ensures var after := Do(gate, s, Deliver(c));
      && after.hub == s.hub
      && c in after.entries && (after.entries[c].status.Succeeded? <==> !s.poisoned)
      && after.events == s.events + if s.poisoned then [] else [EventOf(s.entries[c].request, Recorded(record))]
  {
  }

  /**
   * A publish whose event the queue refused, retried: both calls were answered from the one row there is, and
   * when the retry is delivered no row changes, and its own event is queued exactly if it succeeds, which it
   * does exactly if the queue now works.
   */
  lemma RetryAddsNoRow(
      gate: Gate, states: seq<ServiceState>, labels: seq<ServiceLabel>, n: nat,
      first: CallId, retry: CallId, a: SkillVersionRecord, b: SkillVersionRecord, id: Uuid)
    requires Honest(gate) && IsServiceRun(gate, states, labels) && n < |states|
    requires first in states[n].entries && retry in states[n].entries
    requires SameRelease(states[n].entries[first].request, states[n].entries[retry].request)
    requires ReplyOf(states[n].hub, first) == Some(Recorded(a)) && ReplyOf(states[n].hub, retry) == Some(Recorded(b))
    ensures var key := ReleaseKey(SkillKey(a.namespace, a.name), a.version);
      ReleaseAt(states[n].hub.db, key, id) <==> id == a.id == b.id
    ensures a.digest == b.digest
    ensures n < |labels| && labels[n] == Deliver(retry) ==>
      && states[n + 1].hub == states[n].hub
      && retry in states[n + 1].entries && (states[n + 1].entries[retry].status.Succeeded? <==> !states[n].poisoned)
      && states[n + 1].events ==
          states[n].events + if states[n].poisoned then [] else [EventFor(states[n].entries[retry].request)]
  {
    var s := states[n];
    ServiceRunInv(gate, states, labels, n);
    assert CarriesOut(s.entries[first].request, s.hub.procs[first].call);
    assert CarriesOut(s.entries[retry].request, s.hub.procs[retry].call);
    RecordIsTheRow(s.hub, first, a);
    RecordIsTheRow(s.hub, retry, b);
    if n < |labels| && labels[n] == Deliver(retry) {
      EventNamesRow(s.hub, retry, s.entries[retry].request, Recorded(b));
      Delivered(gate, s, retry, b);
    }
  }
}
