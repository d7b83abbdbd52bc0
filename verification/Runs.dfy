/** What holds over whole runs of the protocol. */
module Runs {
  import opened Wrappers
  import opened Model
  import opened Tables
  import opened Registry
  import opened History
  import opened Protocol
  import opened Invariants
  import opened Linearizability
  import opened Sorting
  import Sequences

  // ----- no statement is wasted, nobody waits for ever

  /** Statements a call has left, at most. */
  function Rank(pc: Pc): nat {
    match pc
    case Start => 6
    case Read => 5
    case Insert => 4
    case ReRead => 3
    case UpdateLatest => 3
    case CommitNew => 2
    case CommitRepeat(_) => 2
    case RollingBack(_) => 1
    case Done(_) => 0
  }

  /** How often `c` has moved. */
  function Moves(labels: seq<Label>, c: CallId): nat {
    if labels == [] then 0
    else
      var l := labels[|labels| - 1];
      Moves(labels[..|labels| - 1], c) + if !l.Invoke? && l.id == c then 1 else 0
  }

  lemma StepLowersRank(s: State, l: Label)
    requires CanTake(s, l) && !l.Invoke? && ProcOk(s.db, l.id, s.procs[l.id])
    ensures Rank(Take(s, l).procs[l.id].pc) < Rank(s.procs[l.id].pc)
  {
  }

  /** No call ever moves more than six times, whoever else is running. */
  lemma {:induction false} EachCallEnds(states: seq<State>, labels: seq<Label>, n: nat, c: CallId)
    requires IsRun(states, labels) && n <= |labels|
    ensures c !in states[n].procs ==> Moves(labels[..n], c) == 0
    ensures c in states[n].procs ==> Moves(labels[..n], c) + Rank(states[n].procs[c].pc) <= 6
  {
    if n > 0 {
      EachCallEnds(states, labels, n - 1, c);
      assert labels[..n][..n - 1] == labels[..n - 1];
      if !labels[n - 1].Invoke? {
        RunKeepsInv(states, labels, n - 1);
        StepLowersRank(states[n - 1], labels[n - 1]);
      }
    }
  }

  /** The steps of a run other than new calls. */
  function TotalMoves(labels: seq<Label>): nat {
    if labels == [] then 0
    else TotalMoves(labels[..|labels| - 1]) + if labels[|labels| - 1].Invoke? then 0 else 1
  }

  /** The calls made, in order. */
  function Callers(labels: seq<Label>): seq<CallId> {
    if labels == [] then []
    else
      var l := labels[|labels| - 1];
      Callers(labels[..|labels| - 1]) + if l.Invoke? then [l.id] else []
  }

  /** Statements these calls have left, at most, all together. */
  function RankSum(callers: seq<CallId>, procs: map<CallId, Proc>): nat
    requires forall c | c in callers :: c in procs
  {
    if callers == [] then 0
    else
      var n := |callers| - 1;
      assert callers[n] in callers;
      RankSum(callers[..n], procs) + Rank(procs[callers[n]].pc)
  }

  /** A call that is none of these does not count. */
  lemma {:induction false} RankSumElsewhere(callers: seq<CallId>, procs: map<CallId, Proc>, c: CallId, p: Proc)
    requires (forall d | d in callers :: d in procs) && c !in callers
    ensures RankSum(callers, procs[c := p]) == RankSum(callers, procs)
  {
    if callers != [] {
      RankSumElsewhere(callers[..|callers| - 1], procs, c, p);
    }
  }

  lemma {:induction false} RankSumLowers(callers: seq<CallId>, procs: map<CallId, Proc>, c: CallId, p: Proc)
    requires (forall d | d in callers :: d in procs) && c in callers && Sequences.Distinct(callers)
    requires Rank(p.pc) < Rank(procs[c].pc)
    ensures RankSum(callers, procs[c := p]) < RankSum(callers, procs)
  {
    var n := |callers| - 1;
    if callers[n] == c {
      RankSumElsewhere(callers[..n], procs, c, p);
    } else {
      RankSumLowers(callers[..n], procs, c, p);
    }
  }

  /** What `TotalMovesBounded` carries from step to step. */
  ghost predicate Budget(labels: seq<Label>, procs: map<CallId, Proc>) {
    && Sequences.Distinct(Callers(labels)) && (forall c :: c in Callers(labels) <==> c in procs)
    && TotalMoves(labels) + RankSum(Callers(labels), procs) <= 6 * |Callers(labels)|
  }

  lemma MoveBudget(labels: seq<Label>, procs: map<CallId, Proc>, l: Label, p: Proc)
    requires Budget(labels, procs) && !l.Invoke? && l.id in procs && Rank(p.pc) < Rank(procs[l.id].pc)
    ensures Budget(labels + [l], procs[l.id := p])
  {
    SnocLabel(labels, l);
    assert Callers(labels) + [] == Callers(labels);
    RankSumLowers(Callers(labels), procs, l.id, p);
  }

  lemma RankSumSnoc(callers: seq<CallId>, procs: map<CallId, Proc>, c: CallId, p: Proc)
    requires (forall d | d in callers :: d in procs) && c !in callers
    ensures RankSum(callers + [c], procs[c := p]) == RankSum(callers, procs) + Rank(p.pc)
  {
    assert (callers + [c])[..|callers|] == callers;
    RankSumElsewhere(callers, procs, c, p);
  }

  lemma SnocLabel(labels: seq<Label>, l: Label)
    ensures TotalMoves(labels + [l]) == TotalMoves(labels) + if l.Invoke? then 0 else 1
    ensures Callers(labels + [l]) == Callers(labels) + if l.Invoke? then [l.id] else []
  {
    assert (labels + [l])[..|labels|] == labels;
  }

  lemma InvokeBudget(labels: seq<Label>, procs: map<CallId, Proc>, l: Label, p: Proc)
    requires Budget(labels, procs) && l.Invoke? && l.id !in procs && p.pc == Start
    ensures Budget(labels + [l], procs[l.id := p])
  {
    SnocLabel(labels, l);
    RankSumSnoc(Callers(labels), procs, l.id, p);
  }

  lemma StepBudget(s: State, labels: seq<Label>, l: Label)
    requires Inv(s) && CanTake(s, l) && Budget(labels, s.procs)
    ensures Budget(labels + [l], Take(s, l).procs)
  {
    if l.Invoke? {
      InvokeBudget(labels, s.procs, l, Proc(l.call, Start, SkillId(l.id), Empty));
    } else {
      StepLowersRank(s, l);
      MoveBudget(labels, s.procs, l, Take(s, l).procs[l.id]);
    }
  }

  /** A run of so many calls has at most six times as many other steps. */
  lemma {:induction false} TotalMovesBounded(states: seq<State>, labels: seq<Label>, n: nat)
    requires IsRun(states, labels) && n <= |labels|
    ensures Budget(labels[..n], states[n].procs)
    ensures TotalMoves(labels[..n]) <= 6 * |Callers(labels[..n])|
  {
    if n > 0 {
      TotalMovesBounded(states, labels, n - 1);
      RunKeepsInv(states, labels, n - 1);
      StepBudget(states[n - 1], labels[..n - 1], labels[n - 1]);
      assert labels[..n] == labels[..n - 1] + [labels[n - 1]];
    }
  }

  lemma LocalWrites(s: State, c: CallId)
    requires Inv(s) && c in s.procs
    ensures WritesLocal(s.db, c, s.procs[c])
  {
  }

  /** The INSERT of a version never waits: a rival row for that skill would need the same lock. */
  lemma InsertNeverWaits(s: State, c: CallId, d: CallId)
    requires Inv(s) && c in s.procs && !s.procs[c].pc.Start?
    ensures !WaitsFor(s, c, d)
  {
    assert ProcOk(s.db, c, s.procs[c]);
    if d in s.procs {
      LocalWrites(s, c);
      LocalWrites(s, d);
    }
  }

  /** A call waits exactly when it is about to upsert a skill that another open publish has upserted. */
  lemma WaitsExactly(s: State, c: CallId, d: CallId)
    requires Inv(s)
    ensures WaitsFor(s, c, d) <==>
      && c in s.procs && d in s.procs && c != d
      && s.procs[c].call.Publish? && s.procs[c].pc.Start?
      && Holding(s.procs[d]) && CallKey(s.procs[d].call) == CallKey(s.procs[c].call)
  {
    if d in s.procs {
      HoldsOwnKey(s, d, CallKey(s.procs[d].call));
      if c in s.procs {
        HoldsOwnKey(s, d, CallKey(s.procs[c].call));
        if !s.procs[c].pc.Start? {
          InsertNeverWaits(s, c, d);
        }
      }
    }
  }

  /** Any call may lose its connection before any of its statements: it hears of a database error, and the tables do not change. */
  lemma AnyStatementMayFail(s: State, c: CallId)
    requires Unfinished(s, c) && !s.procs[c].pc.RollingBack?
    ensures CanTake(s, Disconnect(c)) && Take(s, Disconnect(c)).db == s.db
    ensures Returned(c, Failed(Database)) in Take(s, Disconnect(c)).history
  {
    assert (s.history + [Returned(c, LostConnection)])[|s.history|] == Returned(c, LostConnection);
  }

  /** No deadlock: a call that cannot move waits for one that can. */
  lemma SomebodyMoves(s: State, c: CallId)
    requires Inv(s) && Unfinished(s, c) && !Enabled(s, c)
    ensures exists d :: WaitsFor(s, c, d) && Enabled(s, d)
  {
    var d :| WaitsFor(s, c, d);
    if !s.procs[c].pc.Start? {
      InsertNeverWaits(s, c, d);
    }
    LocalWrites(s, d);
    assert ProcOk(s.db, d, s.procs[d]);
    assert Holding(s.procs[d]);
    forall e ensures !WaitsFor(s, d, e) {
      InsertNeverWaits(s, d, e);
    }
  }

  /** In no run does an INSERT find a conflicting row, and whoever waits, waits for a call that can move. */
  lemma RunsNeverStall(states: seq<State>, labels: seq<Label>, n: nat)
    requires IsRun(states, labels) && n < |states|
    ensures forall c | c in states[n].procs :: !states[n].procs[c].pc.ReRead?
    ensures forall c | Unfinished(states[n], c) ::
      Enabled(states[n], c) || exists d :: WaitsFor(states[n], c, d) && Enabled(states[n], d)
  {
    var s := states[n];
    RunKeepsInv(states, labels, n);
    forall c | c in s.procs ensures !s.procs[c].pc.ReRead? {
      assert ProcOk(s.db, c, s.procs[c]);
    }
    forall c | Unfinished(s, c) && !Enabled(s, c) ensures exists d :: WaitsFor(s, c, d) && Enabled(s, d) {
      SomebodyMoves(s, c);
    }
  }

  /** So if no call can move, all have ended. */
  lemma StuckMeansDone(states: seq<State>, labels: seq<Label>, n: nat)
    requires IsRun(states, labels) && n < |states|
    requires forall c :: !Enabled(states[n], c)
    ensures forall c | c in states[n].procs :: states[n].procs[c].pc.Done?
  {
    var s := states[n];
    RunKeepsInv(states, labels, n);
    forall c | c in s.procs ensures s.procs[c].pc.Done? {
      if Unfinished(s, c) {
        SomebodyMoves(s, c);
      }
    }
  }

  // ----- what never changes

  /** The columns of a skill row that no statement updates. */
  function Fixed(row: SkillRow): SkillRow {
    row.(latestVersion := "", updatedAt := 0)
  }

  /** Every row stays, and only its mutable columns may differ. */
  ghost predicate Extends(db: Tables, after: Tables) {
    && (forall id | id in db.skills :: id in after.skills && Fixed(after.skills[id]) == Fixed(db.skills[id]))
    && (forall id | id in db.versions :: id in after.versions && Immutable(after.versions[id]) == Immutable(db.versions[id]))
  }

  /** The step is the UPDATE of a yank or unyank that selects this row. */
  ghost predicate Stamps(s: State, l: Label, id: Uuid) {
    && l.Advance? && l.id in s.procs && !s.procs[l.id].call.Publish? && s.procs[l.id].pc.Start?
    && Targets(s.db, s.procs[l.id].call, id)
  }

  lemma VisibleExtends(db: Tables, c: CallId, p: Proc)
    requires ReadyToCommit(db, c, p)
    ensures var after := Visible(db, p.writes);
      Extends(db, after) && forall id | id in db.versions :: after.versions[id] == db.versions[id]
  {
    CommitRows(db, c, p);
  }

  lemma CommitExtends(s: State, c: CallId)
    requires Inv(s) && Enabled(s, c) && s.procs[c].pc.CommitNew?
    ensures var after := Take(s, Advance(c)).db;
      Extends(s.db, after) && forall id | id in s.db.versions :: after.versions[id] == s.db.versions[id]
  {
    Unminted(s, c);
    CommitTake(s, c);
    VisibleExtends(s.db, c, s.procs[c]);
  }

  lemma AdvanceExtends(s: State, c: CallId)
    requires Inv(s) && Enabled(s, c) && s.procs[c].call.Publish? && !s.procs[c].pc.CommitNew?
    ensures Take(s, Advance(c)).db == s.db
  {
    if s.procs[c].pc.CommitRepeat? {
      assert ProcOk(s.db, c, s.procs[c]);
      RepeatTake(s, c);
    } else {
      QuietPublish(s, c);
    }
  }

  lemma StampExtends(s: State, c: CallId)
    requires Enabled(s, c) && !s.procs[c].call.Publish?
    ensures var after := Take(s, Advance(c)).db;
      && Extends(s.db, after)
      && forall id | id in s.db.versions && !Stamps(s, Advance(c), id) :: after.versions[id] == s.db.versions[id]
  {
  }

  lemma StepExtends(s: State, l: Label)
    requires Inv(s) && CanTake(s, l)
    ensures Extends(s.db, Take(s, l).db)
    ensures forall id | id in s.db.versions && !Stamps(s, l, id) :: Take(s, l).db.versions[id] == s.db.versions[id]
  {
    if l.Advance? {
      if !s.procs[l.id].call.Publish? {
        StampExtends(s, l.id);
      } else if s.procs[l.id].pc.CommitNew? {
        CommitExtends(s, l.id);
      } else {
        AdvanceExtends(s, l.id);
      }
    }
  }

  lemma ExtendsTransitive(a: Tables, b: Tables, c: Tables)
    requires Extends(a, b) && Extends(b, c)
    ensures Extends(a, c)
  {
  }

  ghost predicate Growing(dbs: seq<Tables>) {
    forall k | 0 < k < |dbs| :: Extends(dbs[k - 1], dbs[k])
  }

  lemma {:induction false} GrowingExtends(dbs: seq<Tables>, i: nat, j: nat)
    requires Growing(dbs) && i <= j < |dbs|
    ensures Extends(dbs[i], dbs[j])
  {
    if i < j {
      GrowingExtends(dbs, i, j - 1);
      ExtendsTransitive(dbs[i], dbs[j - 1], dbs[j]);
    }
  }

  lemma RunStepExtends(states: seq<State>, labels: seq<Label>, k: nat)
    requires IsRun(states, labels) && k < |labels|
    ensures Extends(states[k].db, states[k + 1].db)
  {
    RunKeepsInv(states, labels, k);
    StepExtends(states[k], labels[k]);
  }

  /** Over any stretch of any run rows are only added, and their fixed columns never change. */
  lemma RunExtends(states: seq<State>, labels: seq<Label>, i: nat, j: nat)
    requires IsRun(states, labels) && i <= j < |states|
    ensures Extends(states[i].db, states[j].db)
  {
    var dbs := seq(|states|, k requires 0 <= k < |states| => states[k].db);
    forall k | 0 < k < |dbs| ensures Extends(dbs[k - 1], dbs[k]) {
      RunStepExtends(states, labels, k - 1);
    }
    GrowingExtends(dbs, i, j);
  }

  lemma StepSpares(s: State, l: Label, id: Uuid)
    requires Inv(s) && CanTake(s, l) && id in s.db.versions && !Stamps(s, l, id)
    ensures id in Take(s, l).db.versions && Take(s, l).db.versions[id] == s.db.versions[id]
  {
    StepExtends(s, l);
  }

  /** Only a yank or unyank of that very version touches the yank columns. */
  lemma {:induction false} OnlyYanksStamp(states: seq<State>, labels: seq<Label>, i: nat, j: nat, id: Uuid)
    requires IsRun(states, labels) && i <= j < |states| && id in states[i].db.versions
    requires forall k | i <= k < j :: !Stamps(states[k], labels[k], id)
    ensures id in states[j].db.versions && states[j].db.versions[id] == states[i].db.versions[id]
  {
    if i < j {
      OnlyYanksStamp(states, labels, i, j - 1, id);
      RunKeepsInv(states, labels, j - 1);
      StepSpares(states[j - 1], labels[j - 1], id);
    }
  }

  /** The columns of a skill row that stay. */
  predicate SameSkill(x: SkillRow, y: SkillRow) {
    && x.id == y.id && x.namespace == y.namespace && x.name == y.name && x.description == y.description
    && x.visibility == y.visibility && x.createdAt == y.createdAt
  }

  /** The columns of a version row that stay. */
  predicate SameVersion(x: VersionRow, y: VersionRow) {
    && x.id == y.id && x.skillId == y.skillId && x.version == y.version && x.digest == y.digest
    && x.manifest == y.manifest && x.artifactUrl == y.artifactUrl && x.artifactMediaType == y.artifactMediaType
    && x.signature == y.signature && x.publicKey == y.publicKey && x.bundle == y.bundle
    && x.publishedBy == y.publishedBy && x.createdAt == y.createdAt
  }

  lemma FixedColumns(db: Tables, after: Tables, id: Uuid)
    requires Extends(db, after)
    ensures id in db.skills ==> SameSkill(db.skills[id], after.skills[id])
    ensures id in db.versions ==> SameVersion(db.versions[id], after.versions[id])
  {
    if id in db.skills {
      assert Fixed(after.skills[id]) == Fixed(db.skills[id]);
    }
    if id in db.versions {
      assert Immutable(after.versions[id]) == Immutable(db.versions[id]);
    }
  }

  /** Over any stretch of any run a row stays, with all of those columns as they were. */
  lemma RunKeepsColumns(states: seq<State>, labels: seq<Label>, i: nat, j: nat, id: Uuid)
    requires IsRun(states, labels) && i <= j < |states|
    ensures id in states[i].db.skills ==>
      id in states[j].db.skills && SameSkill(states[i].db.skills[id], states[j].db.skills[id])
    ensures id in states[i].db.versions ==>
      id in states[j].db.versions && SameVersion(states[i].db.versions[id], states[j].db.versions[id])
  {
    RunExtends(states, labels, i, j);
    FixedColumns(states[i].db, states[j].db, id);
  }

  // ----- when calls take effect

  lemma OnePoint(events: seq<Event>)
    requires |events| <= 2 && (|events| == 2 ==> !events[1].Took?)
    ensures Points(events) == if events != [] && events[0].Took? then [events[0]] else []
  {
    if events != [] {
      PointsSnoc([], events[0]);
      assert [] + [events[0]] == events[..1];
      if |events| == 2 {
        PointsSnoc(events[..1], events[1]);
        assert events[..1] + [events[1]] == events;
      } else {
        assert events[..1] == events;
      }
    }
  }

  /** At most a call taking effect and then returning. */
  predicate IsBrief(events: seq<Event>, c: CallId, call: Call) {
    && |events| <= 2 && (|events| == 2 ==> !events[1].Took?)
    && (events != [] && events[0].Took? ==> events[0].id == c && events[0].call == call)
  }

  lemma FoundEvents(db: Tables, c: CallId, p: Proc, record: SkillVersionRecord)
    requires p.call.Publish?
    ensures IsBrief(Found(db, c, p, record).events, c, p.call)
  {
  }

  lemma PublishEvents(db: Tables, c: CallId, p: Proc)
    requires p.call.Publish?
    ensures IsBrief(PublishStep(db, c, p).events, c, p.call)
  {
    var found := SelectVersion(Visible(db, p.writes), p.skillId, p.call.VersionText());
    if found.Some? {
      FoundEvents(db, c, p, found.value);
    }
  }

  lemma StampEvents(db: Tables, c: CallId, p: Proc)
    requires !p.call.Publish?
    ensures IsBrief(StampStep(db, c, p).events, c, p.call)
  {
  }

  lemma RunEvents(db: Tables, c: CallId, p: Proc)
    ensures IsBrief(Run(db, c, p).events, c, p.call)
  {
    if p.call.Publish? {
      PublishEvents(db, c, p);
    } else {
      StampEvents(db, c, p);
    }
  }

  /** The step is one at which this call takes effect. */
  ghost predicate TakesEffect(s: State, l: Label, e: Event) {
    && l.Advance? && l.id in s.procs && e.Took? && e.id == l.id && e.call == s.procs[l.id].call
  }

  /** At one step at most one call takes effect, and it is the one that moves. */
  lemma StepPoints(s: State, l: Label) returns (more: seq<Event>)
    requires CanTake(s, l)
    ensures Points(Take(s, l).history) == Points(s.history) + more
    ensures more == [] || (|more| == 1 && TakesEffect(s, l, more[0]))
  {
    var events :=
      match l
      case Invoke(c, call) => [Invoked(c, call)]
      case Advance(c) => Run(s.db, c, s.procs[c]).events
      case Disconnect(c) => [Returned(c, LostConnection)];
    if l.Advance? {
      RunEvents(s.db, l.id, s.procs[l.id]);
    }
    FilterConcat((e: Event) => e.Took?, s.history, events);
    OnePoint(events);
    more := Points(events);
  }

  // ----- what callers were told

  lemma StampIsReported(db: Tables, c: CallId, p: Proc)
    requires !p.call.Publish? && Run(db, c, p).db != db
    ensures Run(db, c, p).events == [Took(c, p.call, Acked), Returned(c, Acked)]
  {
  }

  /** What a step that changes the tables adds to the history. */
  lemma ChangeAdds(s: State, c: CallId)
    requires Inv(s) && Enabled(s, c) && Take(s, Advance(c)).db != s.db
    ensures var p := s.procs[c];
      var reply := if p.call.Publish? then Recorded(NewRecord(c, p.call)) else Acked;
      Take(s, Advance(c)).history == s.history + [Took(c, p.call, reply), Returned(c, reply)]
  {
    var p := s.procs[c];
    if !p.call.Publish? {
      StampIsReported(s.db, c, p);
    } else if p.pc.CommitNew? {
      CommitTake(s, c);
    } else {
      AdvanceExtends(s, c);
    }
  }

  lemma OnlyAdvanceChanges(s: State, l: Label)
    requires CanTake(s, l) && Take(s, l).db != s.db
    ensures l.Advance?
  {
  }

  lemma LastIn(h: seq<Event>, e: Event, last: Event)
    ensures last in h + [e, last]
  {
    assert (h + [e, last])[|h| + 1] == last;
  }

  /** A step that changes the tables tells its caller so at once, and does not report an error. */
  lemma ChangeIsReported(s: State, l: Label)
    requires Inv(s) && CanTake(s, l) && Take(s, l).db != s.db
    ensures l.Advance?
    ensures exists reply: Reply :: !reply.Failed? && Returned(l.id, reply) in Take(s, l).history
  {
    OnlyAdvanceChanges(s, l);
    ChangeAdds(s, l.id);
    var call := s.procs[l.id].call;
    var reply := if call.Publish? then Recorded(NewRecord(l.id, call)) else Acked;
    LastIn(s.history, Took(l.id, call, reply), Returned(l.id, reply));
  }

  lemma {:induction false} HistoryGrows(states: seq<State>, labels: seq<Label>, i: nat, j: nat)
    requires IsRun(states, labels) && i <= j < |states|
    ensures states[i].history <= states[j].history
  {
    if i < j {
      HistoryGrows(states, labels, i, j - 1);
    }
  }

  lemma OneReply(h: seq<Event>, c: CallId, a: Reply, b: Reply)
    requires Proper(h) && Returned(c, a) in h && Returned(c, b) in h
    ensures a == b
  {
  }

  /**
   * A call that reports an error (a digest conflict, a missing version, a database error) changes
   * neither table, at any of its steps.
   */
  lemma ErrorsChangeNothing(states: seq<State>, labels: seq<Label>, i: nat, c: CallId, error: HubError)
    requires IsRun(states, labels) && i < |labels| && labels[i].id == c
    requires Returned(c, Failed(error)) in states[|labels|].history
    ensures states[i + 1].db == states[i].db
  {
    RunLin(states, labels, i);
    RunLin(states, labels, |labels|);
    if states[i + 1].db != states[i].db {
      ChangeIsReported(states[i], labels[i]);
      var reply: Reply :| !reply.Failed? && Returned(c, reply) in states[i + 1].history;
      HistoryGrows(states, labels, i + 1, |labels|);
      OneReply(states[|labels|].history, c, reply, Failed(error));
    }
  }

  /** What the registry holds for a call that was told it succeeded. */
  ghost predicate Answers(reg: Registry, e: Event) {
    e.Took? && !e.reply.Failed? ==>
      && CallRelease(e.call) in reg.releases
      && (e.call.Publish? ==> e.reply.Recorded?)
      && (e.reply.Recorded? ==>
            var (release, record) := (reg.releases[CallRelease(e.call)], e.reply.record);
            && e.call.Publish?
            && release.id == record.id && release.digest == record.digest == e.call.request.artifact.digest
            && record.namespace == e.call.namespace && record.name == e.call.Name() && record.version == e.call.VersionText())
  }

  lemma AnswerGiven(reg: Registry, e: Event)
    requires e.Took? && Perform(reg, e.id, e.call).1 == e.reply
    ensures Answers(Perform(reg, e.id, e.call).0, e)
  {
  }

  lemma AnswerSurvives(reg: Registry, e: Event, c: CallId, call: Call)
    requires Answers(reg, e)
    ensures Answers(Perform(reg, c, call).0, e)
  {
  }

  /** Later calls leave that answer standing. */
  lemma {:induction false} AnswersStand(points: seq<Event>, i: nat)
    requires AllTook(points) && Legal(points) && i < |points|
    ensures Answers(Replay(points), points[i])
  {
    var n := |points| - 1;
    if i < n {
      AnswersStand(points[..n], i);
      AnswerSurvives(Replay(points[..n]), points[i], points[n].id, points[n].call);
    } else {
      AnswerGiven(Replay(points[..n]), points[n]);
    }
  }

  lemma PointsMembers(h: seq<Event>, e: Event)
    ensures e in Points(h) <==> e in h && e.Took?
  {
    FilterKeeps((x: Event) => x.Took?, h, e);
    assert e in Points(h) <==> e in multiset(Points(h));
    assert e in h <==> e in multiset(h);
  }

  lemma AnswerReplayed(s: State, c: CallId, reply: Reply)
    requires Lin(s) && Returned(c, reply) in s.history && c in s.procs && !reply.Failed?
    ensures Answers(Replay(Points(s.history)), Took(c, s.procs[c].call, reply))
  {
    ProperReturn(s.history, c, reply);
    var e := Took(c, s.procs[c].call, reply);
    assert e in s.history;
    PointsMembers(s.history, e);
    var i :| 0 <= i < |Points(s.history)| && Points(s.history)[i] == e;
    AnswersStand(Points(s.history), i);
  }

  lemma ReleaseStored(db: Tables, reg: Registry, key: ReleaseKey)
    requires KeysOk(db) && Represents(db, reg) && key in reg.releases
    ensures ReleaseAt(db, key, reg.releases[key].id)
    ensures db.versions[reg.releases[key].id].digest == reg.releases[key].digest
  {
  }

  /** Whoever was given a record can find it in the tables, under the key it asked for. */
  lemma AnswerStored(s: State, c: CallId, record: SkillVersionRecord)
    requires Inv(s) && Lin(s) && Returned(c, Recorded(record)) in s.history && c in s.procs
    requires s.procs[c].call.Publish?
    ensures ReleaseAt(s.db, CallRelease(s.procs[c].call), record.id)
    ensures s.db.versions[record.id].digest == record.digest == s.procs[c].call.request.artifact.digest
  {
    AnswerReplayed(s, c, Recorded(record));
    ReleaseStored(s.db, Replay(Points(s.history)), CallRelease(s.procs[c].call));
  }

  /** Whoever was told of success: the version row it asked about is in the tables. */
  lemma SuccessStored(s: State, c: CallId, reply: Reply)
    requires Inv(s) && Lin(s) && Returned(c, reply) in s.history && c in s.procs && !reply.Failed?
    ensures exists id :: ReleaseAt(s.db, CallRelease(s.procs[c].call), id)
    ensures s.procs[c].call.Publish? <==> reply.Recorded?
    ensures reply.Recorded? ==>
      && reply.record.name == s.procs[c].call.Name() && reply.record.version == s.procs[c].call.VersionText()
  {
    AnswerReplayed(s, c, reply);
    ReleaseStored(s.db, Replay(Points(s.history)), CallRelease(s.procs[c].call));
  }

  /**
   * At most one row per namespace, name and version; every publish of it that returned a record returned
   * that row's id, and the digest it asked for.
   */
  lemma PublishesAgree(states: seq<State>, labels: seq<Label>, n: nat, c: CallId, record: SkillVersionRecord, id: Uuid)
    requires IsRun(states, labels) && n < |states|
    requires Returned(c, Recorded(record)) in states[n].history
    requires c in states[n].procs && states[n].procs[c].call.Publish?
    requires ReleaseAt(states[n].db, CallRelease(states[n].procs[c].call), id)
    ensures record.id == id && record.digest == states[n].db.versions[id].digest
    ensures record.digest == states[n].procs[c].call.request.artifact.digest
  {
    RunLin(states, labels, n);
    AnswerStored(states[n], c, record);
  }

  // ----- the latest version

  /** The event records a publish that inserted a new version of this skill. */
  predicate Inserts(e: Event, key: SkillKey) {
    e.Took? && e.call.Publish? && CallKey(e.call) == key && e.reply.Recorded? && e.reply.record.id == VersionId(e.id)
  }

  /** The newest version that the calls so far inserted for this skill. */
  function LastInserted(points: seq<Event>, key: SkillKey): Option<string> {
    if points == [] then None
    else
      var n := |points| - 1;
      if Inserts(points[n], key) then Some(points[n].call.VersionText()) else LastInserted(points[..n], key)
  }

  ghost predicate IdsDiffer(points: seq<Event>) {
    forall i, j | 0 <= i < j < |points| :: points[i].id != points[j].id
  }

  /** A release carries the id minted by one of the calls so far. */
  lemma {:induction false} ReleasesMinted(points: seq<Event>, key: ReleaseKey)
    requires AllTook(points) && key in Replay(points).releases
    ensures exists e :: e in points && Replay(points).releases[key].id == VersionId(e.id)
  {
    var n := |points| - 1;
    if points != [] {
      if key in Replay(points[..n]).releases {
        ReleasesMinted(points[..n], key);
        var e :| e in points[..n] && Replay(points[..n]).releases[key].id == VersionId(e.id);
        assert e in points && Replay(points).releases[key].id == VersionId(e.id);
      } else {
        assert points[n] in points && Replay(points).releases[key].id == VersionId(points[n].id);
      }
    }
  }

  /** A publish of a release that is there inserts nothing. */
  lemma RepeatsInsertNothing(points: seq<Event>, key: SkillKey)
    requires points != [] && AllTook(points) && Legal(points) && IdsDiffer(points)
    ensures var (reg, e) := (Replay(points[..|points| - 1]), points[|points| - 1]);
      e.call.Publish? && CallRelease(e.call) in reg.releases ==> !Inserts(e, key)
  {
    var n := |points| - 1;
    var reg, e := Replay(points[..n]), points[n];
    if e.call.Publish? && CallRelease(e.call) in reg.releases {
      ReleasesMinted(points[..n], CallRelease(e.call));
      var x :| x in points[..n] && reg.releases[CallRelease(e.call)].id == VersionId(x.id);
    }
  }

  lemma {:induction false} LatestReplayed(points: seq<Event>, key: SkillKey)
    requires AllTook(points) && Legal(points) && IdsDiffer(points)
    ensures key in Replay(points).skills <==> LastInserted(points, key).Some?
    ensures key in Replay(points).skills ==> LastInserted(points, key) == Some(Replay(points).skills[key].latestVersion)
  {
    var n := |points| - 1;
    if points != [] {
      LatestReplayed(points[..n], key);
      RepeatsInsertNothing(points, key);
    }
  }

  lemma {:induction false} PointsDistinct(h: seq<Event>)
    requires Proper(h)
    ensures IdsDiffer(Points(h))
  {
    if h != [] {
      var n := |h| - 1;
      var front, e := h[..n], h[n];
      assert h == front + [e];
      PointsSnoc(front, e);
      PointsDistinct(front);
      if e.Took? {
        forall x | x in Points(front) ensures x.id != e.id {
          PointsMembers(front, x);
        }
      }
    }
  }

  /**
   * `latest_version` names the version inserted last for that skill; a skill row exists as soon as one has
   * been, and repeats and refusals do not move it.
   */
  lemma LatestIsLastInserted(states: seq<State>, labels: seq<Label>, n: nat, key: SkillKey)
    requires IsRun(states, labels) && n < |states|
    ensures var s := states[n];
      && (LastInserted(Points(s.history), key).Some? <==> exists id :: SkillAt(s.db, key, id))
      && forall id | SkillAt(s.db, key, id) :: LastInserted(Points(s.history), key) == Some(s.db.skills[id].latestVersion)
  {
    var s := states[n];
    RunLin(states, labels, n);
    PointsDistinct(s.history);
    LatestReplayed(Points(s.history), key);
    if key in Replay(Points(s.history)).skills {
      var id :| SkillAt(s.db, key, id);
    }
  }

  // ----- the first version

  /** The publish that inserted the first version of this skill. */
  function FirstInserted(points: seq<Event>, key: SkillKey): Option<Call> {
    if points == [] then None
    else
      var n := |points| - 1;
      var earlier := FirstInserted(points[..n], key);
      if earlier.None? && Inserts(points[n], key) then Some(points[n].call) else earlier
  }

  /** The skill's own columns are the ones that this call asked for. */
  predicate FixedBy(info: SkillInfo, call: Call) {
    && call.Publish? && info.visibility == call.visibility && info.description == call.request.manifest.description
    && info.createdAt == call.now
  }

  lemma {:induction false} FirstReplayed(points: seq<Event>, key: SkillKey)
    requires AllTook(points) && Legal(points) && IdsDiffer(points)
    ensures key in Replay(points).skills <==> FirstInserted(points, key).Some?
    ensures key in Replay(points).skills ==> FixedBy(Replay(points).skills[key], FirstInserted(points, key).value)
  {
    var n := |points| - 1;
    if points != [] {
      FirstReplayed(points[..n], key);
      RepeatsInsertNothing(points, key);
    }
  }

  /**
   * A skill's visibility, description and creation time are those that the publish of its first version
   * asked for.
   */
  lemma FirstPublishFixesSkill(states: seq<State>, labels: seq<Label>, n: nat, key: SkillKey, id: Uuid)
    requires IsRun(states, labels) && n < |states| && SkillAt(states[n].db, key, id)
    ensures FirstInserted(Points(states[n].history), key).Some?
    ensures FixedBy(InfoOf(states[n].db.skills[id]), FirstInserted(Points(states[n].history), key).value)
  {
    var s := states[n];
    RunLin(states, labels, n);
    PointsDistinct(s.history);
    FirstReplayed(Points(s.history), key);
  }
}
