/** What yanking and unyanking do to the columns of the tables, statement by statement and over runs. */
module Yanks {
  import opened Wrappers
  import opened Model
  import opened Tables
  import opened History
  import opened Protocol
  import opened Linearizability

  /** The version row `id` has this version text, and its skill row this namespace and name. */
  predicate IsVersionOf(db: Tables, namespace: string, name: string, version: string, id: Uuid) {
    && id in db.versions && db.versions[id].version == version
    && db.versions[id].skillId in db.skills
    && db.skills[db.versions[id].skillId].namespace == namespace && db.skills[db.versions[id].skillId].name == name
  }

  /** The rows of one version get these yank columns; nothing else changes. */
  ghost predicate Stamped(
      db: Tables, after: Tables, namespace: string, name: string, version: string, at: Option<Time>, reason: Option<string>) {
    && after.skills == db.skills && after.versions.Keys == db.versions.Keys
    && forall id | id in db.versions ::
         after.versions[id] ==
           if IsVersionOf(db, namespace, name, version, id)
           then db.versions[id].(yankedAt := at, yankReason := reason)
           else db.versions[id]
  }

  lemma YankStamps(db: Tables, namespace: string, name: string, version: string, reason: string, now: Time)
    ensures Stamped(db, UpdateYank(db, Yank(namespace, name, version, reason, now)),
      namespace, name, version, Some(now), Some(reason))
  {
  }

  lemma UnyankClears(db: Tables, namespace: string, name: string, version: string)
    ensures Stamped(db, UpdateYank(db, Unyank(namespace, name, version)), namespace, name, version, None, None)
  {
  }

  /** The step runs the UPDATE of call `c`. */
  ghost predicate RunsUpdate(s: State, l: Label, c: CallId) {
    l == Advance(c) && c in s.procs && !s.procs[c].call.Publish? && s.procs[c].pc.Start?
  }

  /** What that step does, and what its caller then hears, told on columns. */
  ghost predicate UpdateDone(s: State, after: State, c: CallId)
    requires c in s.procs && !s.procs[c].call.Publish?
  {
    var call := s.procs[c].call;
    && (match call
        case Yank(namespace, name, version, reason, now) =>
          Stamped(s.db, after.db, namespace, name, version, Some(now), Some(reason))
        case Unyank(namespace, name, version) => Stamped(s.db, after.db, namespace, name, version, None, None)
        case _ => false)
    && (Returned(c, Acked) in after.history <==>
          exists id :: IsVersionOf(s.db, call.namespace, call.name, call.version, id))
    && (Returned(c, Failed(SkillVersionNotFound(call.namespace, call.name, call.version))) in after.history <==>
          forall id :: !IsVersionOf(s.db, call.namespace, call.name, call.version, id))
  }

  lemma TargetsColumns(db: Tables, call: Call, id: Uuid)
    requires !call.Publish?
    ensures Targets(db, call, id) <==> IsVersionOf(db, call.namespace, call.name, call.version, id)
  {
  }

  lemma UpdateStamps(db: Tables, call: Call)
    requires !call.Publish?
    ensures match call
      case Yank(namespace, name, version, reason, now) =>
        Stamped(db, UpdateYank(db, call), namespace, name, version, Some(now), Some(reason))
      case Unyank(namespace, name, version) =>
        Stamped(db, UpdateYank(db, call), namespace, name, version, None, None)
      case _ => false
  {
    match call
    case Yank(namespace, name, version, reason, now) => YankStamps(db, namespace, name, version, reason, now);
    case Unyank(namespace, name, version) => UnyankClears(db, namespace, name, version);
  }

  function ReplyTo(call: Call, found: bool): Reply
    requires !call.Publish?
  {
    if found then Acked else Failed(SkillVersionNotFound(call.namespace, call.name, call.version))
  }

  lemma UpdateTake(s: State, c: CallId)
    requires CanTake(s, Advance(c)) && RunsUpdate(s, Advance(c), c)
    ensures var call := s.procs[c].call;
      var found := exists id :: IsVersionOf(s.db, call.namespace, call.name, call.version, id);
      && Take(s, Advance(c)).db == UpdateYank(s.db, call)
      && Take(s, Advance(c)).history ==
           s.history + [Took(c, call, ReplyTo(call, found)), Returned(c, ReplyTo(call, found))]
  {
    forall id ensures Targets(s.db, s.procs[c].call, id) <==>
      IsVersionOf(s.db, s.procs[c].call.namespace, s.procs[c].call.name, s.procs[c].call.version, id)
    {
      TargetsColumns(s.db, s.procs[c].call, id);
    }
  }

  lemma OneAnswer(h: seq<Event>, c: CallId, took: Event, reply: Reply, other: Reply)
    requires took.Took? && forall e | e in h && e.id == c :: e.Invoked?
    ensures Returned(c, other) in h + [took, Returned(c, reply)] <==> other == reply
  {
    assert (h + [took, Returned(c, reply)])[|h| + 1] == Returned(c, reply);
  }

  lemma UpdateAnswers(s: State, c: CallId)
    requires CanTake(s, Advance(c)) && RunsUpdate(s, Advance(c), c)
    requires forall e | e in s.history && e.id == c :: e.Invoked?
    ensures var call := s.procs[c].call;
      var h := Take(s, Advance(c)).history;
      && (Returned(c, Acked) in h <==> exists id :: IsVersionOf(s.db, call.namespace, call.name, call.version, id))
      && (Returned(c, Failed(SkillVersionNotFound(call.namespace, call.name, call.version))) in h <==>
            forall id :: !IsVersionOf(s.db, call.namespace, call.name, call.version, id))
  {
    var call := s.procs[c].call;
    var reply := ReplyTo(call, exists id :: IsVersionOf(s.db, call.namespace, call.name, call.version, id));
    UpdateTake(s, c);
    OneAnswer(s.history, c, Took(c, call, reply), reply, Acked);
    OneAnswer(s.history, c, Took(c, call, reply), reply, ReplyTo(call, false));
  }

  /** A yank or unyank that runs its UPDATE stamps or clears the rows of its version, and says whether there are any. */
  lemma UpdateStep(states: seq<State>, labels: seq<Label>, n: nat, c: CallId)
    requires IsRun(states, labels) && n < |labels| && RunsUpdate(states[n], labels[n], c)
    ensures UpdateDone(states[n], states[n + 1], c)
  {
    var s := states[n];
    RunLin(states, labels, n);
    assert Chronicled(s.history, c, s.procs[c]);
    UpdateStamps(s.db, s.procs[c].call);
    UpdateTake(s, c);
    UpdateAnswers(s, c);
  }

  // ----- acknowledged calls

  /** Only an UPDATE acknowledges. */
  lemma AckNeedsUpdate(s: State, l: Label, c: CallId)
    requires CanTake(s, l) && Returned(c, Acked) in Take(s, l).history && Returned(c, Acked) !in s.history
    ensures RunsUpdate(s, l, c)
  {
    if l.Advance? {
      AckOnlyFromStamp(s.db, l.id, s.procs[l.id]);
    }
  }

  lemma AckOnlyFromPublish(db: Tables, c: CallId, p: Proc)
    requires p.call.Publish?
    ensures forall e | e in PublishStep(db, c, p).events && e.Returned? :: e.reply != Acked
  {
    var found := SelectVersion(Visible(db, p.writes), p.skillId, p.call.VersionText());
    if found.Some? {
      assert forall e | e in Found(db, c, p, found.value).events && e.Returned? :: e.reply != Acked;
    }
  }

  lemma AckOnlyFromStamp(db: Tables, c: CallId, p: Proc)
    ensures forall e | e in Run(db, c, p).events && e.Returned? && e.reply == Acked ::
      e.id == c && !p.call.Publish? && p.pc.Start?
  {
    if p.call.Publish? {
      AckOnlyFromPublish(db, c, p);
    }
  }

  /** The UPDATE of this call ran at step `k`, found its version, and did its work. */
  ghost predicate UpdatedAt(states: seq<State>, labels: seq<Label>, k: nat, c: CallId)
    requires k + 1 < |states| && k < |labels|
  {
    && RunsUpdate(states[k], labels[k], c)
    && UpdateDone(states[k], states[k + 1], c)
    && exists id :: IsVersionOf(
         states[k].db, states[k].procs[c].call.namespace, states[k].procs[c].call.name, states[k].procs[c].call.version, id)
  }

  /**
   * A yank or unyank that was acknowledged did run: at some step before, rows of its namespace, name and version
   * were there, and got its time and reason, or had theirs cleared.
   */
  lemma {:induction false} AckedCallsHappened(states: seq<State>, labels: seq<Label>, n: nat, c: CallId) returns (k: nat)
    requires IsRun(states, labels) && n < |states| && Returned(c, Acked) in states[n].history
    ensures k < n && UpdatedAt(states, labels, k, c)
  {
    if n > 0 && Returned(c, Acked) !in states[n - 1].history {
      k := n - 1;
      AckNeedsUpdate(states[k], labels[k], c);
      UpdateStep(states, labels, k, c);
    } else {
      assert n > 0;
      k := AckedCallsHappened(states, labels, n - 1, c);
    }
  }
}
