/** The invariant of the protocol holds in every reachable state. */
module Invariants {
  import opened Wrappers
  import opened Model
  import opened Tables
  import opened Registry
  import opened History
  import opened Protocol

  lemma HoldsOwnKey(s: State, d: CallId, key: SkillKey)
    requires d in s.procs && ProcOk(s.db, d, s.procs[d])
    ensures HoldsSkill(s, d, key) <==> Holding(s.procs[d]) && CallKey(s.procs[d].call) == key
  {
    var p := s.procs[d];
    if id :| id in p.writes.skills {
      assert SkillAt(p.writes, CallKey(p.call), id);
    }
  }

  /** The ids a call mints are in no table until the call is done. */
  lemma Unminted(s: State, c: CallId)
    requires Minted(s.db, s.procs) && Unfinished(s, c)
    ensures SkillId(c) !in s.db.skills && VersionId(c) !in s.db.versions
  {
  }

  lemma MintedQuiet(db: Tables, procs: map<CallId, Proc>, c: CallId, p: Proc)
    requires Minted(db, procs) && (c in procs ==> !procs[c].pc.Done?)
    ensures Minted(db, procs[c := p])
  {
  }

  /** Only `c` moved, and no committed row changed. */
  lemma QuietStep(s: State, c: CallId, p: Proc, events: seq<Event>)
    requires Inv(s) && (c in s.procs ==> Unfinished(s, c))
    requires ProcOk(s.db, c, p)
    requires Holding(p) ==> (
      || (c in s.procs && Holding(s.procs[c]) && s.procs[c].call == p.call)
      || (forall d | d in s.procs && d != c :: !HoldsSkill(s, d, CallKey(p.call))))
    ensures Inv(State(s.db, s.procs[c := p], s.history + events))
  {
    MintedQuiet(s.db, s.procs, c, p);
    forall d | d in s.procs && d != c && Holding(p) && Holding(s.procs[d]) ensures CallKey(p.call) != CallKey(s.procs[d].call) {
      HoldsOwnKey(s, d, CallKey(p.call));
    }
  }

  lemma VisibleReads(db: Tables, c: CallId, p: Proc)
    requires DbOk(db) && InTransaction(db, c, p) && p.writes.versions == map[]
    requires p.pc.Read? || p.pc.Insert?
    ensures Visible(db, p.writes).versions == db.versions
    ensures p.skillId in Visible(db, p.writes).skills
    ensures FindVersion(db, p.skillId, p.call.VersionText()).Some? ==>
      p.skillId in db.skills && Visible(db, p.writes).skills[p.skillId] == db.skills[p.skillId]
  {
  }

  /** The re-read branch is dead: the lock keeps the row from appearing between SELECT and INSERT. */
  lemma InsertInserts(s: State, c: CallId)
    requires Inv(s) && c in s.procs && s.procs[c].pc.Insert?
    ensures FindVersion(Visible(s.db, s.procs[c].writes), s.procs[c].skillId, s.procs[c].call.VersionText()).None?
  {
    var p := s.procs[c];
    VisibleReads(s.db, c, p);
    var id := FindVersion(Visible(s.db, p.writes), p.skillId, p.call.VersionText());
    assert id.Some? ==> VersionAt(s.db, p.skillId, p.call.VersionText(), id.value);
  }

  lemma StartOk(db: Tables, c: CallId, p: Proc)
    requires p.call.Publish? && p.pc.Start? && SkillId(c) !in db.skills
    ensures InTransaction(db, c, PublishStep(db, c, p).proc)
    ensures PublishStep(db, c, p).db == db
  {
  }

  /** The SELECT of a version sees it exactly if it is committed. */
  lemma SelectSees(db: Tables, c: CallId, p: Proc)
    requires DbOk(db) && p.pc.Read? && InTransaction(db, c, p)
    ensures var text := p.call.VersionText();
      && (SelectVersion(Visible(db, p.writes), p.skillId, text).Some? <==> FindVersion(db, p.skillId, text).Some?)
      && (FindVersion(db, p.skillId, text).Some? ==> p.skillId in db.skills)
  {
    VisibleReads(db, c, p);
    var visible, text := Visible(db, p.writes), p.call.VersionText();
    assert forall v :: VersionAt(visible, p.skillId, text, v) <==> VersionAt(db, p.skillId, text, v);
  }

  /** A SELECT that found something goes on to a reply; one that did not, to the INSERT. */
  lemma ReadGoesOn(db: Tables, c: CallId, p: Proc)
    requires p.call.Publish? && p.pc.Read?
    ensures var (q, found) := (PublishStep(db, c, p).proc, SelectVersion(Visible(db, p.writes), p.skillId, p.call.VersionText()));
      && q == p.(pc := q.pc) && PublishStep(db, c, p).db == db
      && (found.None? ==> q.pc == Insert) && (found.Some? ==> q.pc.CommitRepeat? || q.pc.RollingBack?)
  {
  }

  lemma InsertNext(db: Tables, c: CallId, p: Proc)
    requires InTransaction(db, c, p) && p.pc.Read? && FindVersion(db, p.skillId, p.call.VersionText()).None?
    ensures ProcOk(db, c, p.(pc := Insert))
  {
  }

  lemma ReplyNext(db: Tables, c: CallId, p: Proc, pc: Pc)
    requires InTransaction(db, c, p) && p.pc.Read? && p.skillId in db.skills && (pc.CommitRepeat? || pc.RollingBack?)
    ensures ProcOk(db, c, p.(pc := pc))
  {
  }

  lemma ReadOk(db: Tables, c: CallId, p: Proc)
    requires DbOk(db) && p.pc.Read? && InTransaction(db, c, p)
    ensures ProcOk(db, c, PublishStep(db, c, p).proc)
    ensures PublishStep(db, c, p).db == db
  {
    SelectSees(db, c, p);
    ReadGoesOn(db, c, p);
    if FindVersion(db, p.skillId, p.call.VersionText()).None? {
      InsertNext(db, c, p);
    } else {
      ReplyNext(db, c, p, PublishStep(db, c, p).proc.pc);
    }
  }

  lemma InsertOk(db: Tables, c: CallId, p: Proc)
    requires p.pc.Insert? && InTransaction(db, c, p)
    requires FindVersion(Visible(db, p.writes), p.skillId, p.call.VersionText()).None?
    ensures InTransaction(db, c, PublishStep(db, c, p).proc)
    ensures PublishStep(db, c, p).db == db
  {
  }

  lemma UpdateLatestOk(db: Tables, c: CallId, p: Proc)
    requires p.pc.UpdateLatest? && InTransaction(db, c, p)
    ensures InTransaction(db, c, PublishStep(db, c, p).proc)
    ensures PublishStep(db, c, p).db == db
  {
  }

  /** The upsert goes ahead only when nobody else holds the skill. */
  lemma StartQuiet(s: State, c: CallId)
    requires Inv(s) && Enabled(s, c) && s.procs[c].call.Publish? && s.procs[c].pc.Start?
    ensures Take(s, Advance(c)).db == s.db
    ensures Inv(Take(s, Advance(c)))
  {
    var p := s.procs[c];
    var e := PublishStep(s.db, c, p);
    Unminted(s, c);
    assert forall d | d in s.procs && d != c :: !WaitsFor(s, c, d);
    StartOk(s.db, c, p);
    QuietStep(s, c, e.proc, e.events);
  }

  /** The statement leaves the tables alone and the call in order. */
  ghost predicate IsQuiet(db: Tables, c: CallId, p: Proc, e: Effect) {
    e.db == db && ProcOk(db, c, e.proc) && e.proc.call == p.call && (Holding(e.proc) ==> Holding(p))
  }

  lemma ReadQuiet(db: Tables, c: CallId, p: Proc)
    requires DbOk(db) && InTransaction(db, c, p) && p.pc.Read?
    ensures IsQuiet(db, c, p, PublishStep(db, c, p))
  {
    ReadOk(db, c, p);
    ReadGoesOn(db, c, p);
  }

  lemma InsertQuiet(db: Tables, c: CallId, p: Proc)
    requires InTransaction(db, c, p) && p.pc.Insert?
    requires FindVersion(Visible(db, p.writes), p.skillId, p.call.VersionText()).None?
    ensures IsQuiet(db, c, p, PublishStep(db, c, p))
  {
    InsertOk(db, c, p);
  }

  lemma UpdateQuiet(db: Tables, c: CallId, p: Proc)
    requires InTransaction(db, c, p) && p.pc.UpdateLatest?
    ensures IsQuiet(db, c, p, PublishStep(db, c, p))
  {
    UpdateLatestOk(db, c, p);
  }

  lemma RollbackQuiet(db: Tables, c: CallId, p: Proc)
    requires p.call.Publish? && p.pc.RollingBack?
    ensures IsQuiet(db, c, p, PublishStep(db, c, p))
  {
  }

  /** The statements between the upsert and the commit, and a rollback. */
  lemma MiddleQuiet(s: State, c: CallId)
    requires Inv(s) && Unfinished(s, c) && s.procs[c].call.Publish? && !s.procs[c].pc.Start?
    requires !s.procs[c].pc.CommitNew? && !s.procs[c].pc.CommitRepeat?
    ensures IsQuiet(s.db, c, s.procs[c], PublishStep(s.db, c, s.procs[c]))
  {
    var p := s.procs[c];
    assert ProcOk(s.db, c, p);
    match p.pc {
      case Read => ReadQuiet(s.db, c, p);
      case Insert => InsertInserts(s, c); InsertQuiet(s.db, c, p);
      case UpdateLatest => UpdateQuiet(s.db, c, p);
      case RollingBack(_) => RollbackQuiet(s.db, c, p);
    }
  }

  lemma QuietPublish(s: State, c: CallId)
    requires Inv(s) && Enabled(s, c) && s.procs[c].call.Publish?
    requires !s.procs[c].pc.CommitNew? && !s.procs[c].pc.CommitRepeat?
    ensures Take(s, Advance(c)).db == s.db
    ensures Inv(Take(s, Advance(c)))
  {
    if s.procs[c].pc.Start? {
      StartQuiet(s, c);
    } else {
      var e := PublishStep(s.db, c, s.procs[c]);
      MiddleQuiet(s, c);
      QuietStep(s, c, e.proc, e.events);
    }
  }

  // ----- commits

  ghost predicate ReadyToCommit(db: Tables, c: CallId, p: Proc) {
    && DbOk(db) && InTransaction(db, c, p) && p.pc.CommitNew?
    && SkillId(c) !in db.skills && VersionId(c) !in db.versions
  }

  /** What a new publish leaves behind. */
  lemma CommitRows(db: Tables, c: CallId, p: Proc)
    requires ReadyToCommit(db, c, p)
    ensures var after := Visible(db, p.writes);
      && after.skills == db.skills[p.skillId := p.writes.skills[p.skillId]]
      && after.versions == db.versions[VersionId(c) := NewVersionRow(c, p.call, p.skillId)]
  {
  }

  lemma CommitSkillsUnique(db: Tables, c: CallId, p: Proc)
    requires ReadyToCommit(db, c, p)
    ensures SkillsUnique(Visible(db, p.writes))
  {
    CommitRows(db, c, p);
    forall i | i in db.skills && KeyOf(db.skills[i]) == CallKey(p.call) ensures i == p.skillId {
      assert SkillAt(db, CallKey(p.call), i);
    }
  }

  lemma CommitVersionsUnique(db: Tables, c: CallId, p: Proc)
    requires ReadyToCommit(db, c, p)
    ensures VersionsUnique(Visible(db, p.writes))
  {
    CommitRows(db, c, p);
    forall i | i in db.versions && db.versions[i].skillId == p.skillId ensures db.versions[i].version != p.call.VersionText() {
      assert !VersionAt(db, p.skillId, p.call.VersionText(), i);
    }
  }

  lemma CommitKeysOk(db: Tables, c: CallId, p: Proc)
    requires ReadyToCommit(db, c, p)
    ensures KeysOk(Visible(db, p.writes))
  {
    CommitRows(db, c, p);
  }

  lemma CommitLatestExists(db: Tables, c: CallId, p: Proc)
    requires ReadyToCommit(db, c, p)
    ensures LatestExists(Visible(db, p.writes))
  {
    var after := Visible(db, p.writes);
    CommitRows(db, c, p);
    forall id | id in after.skills ensures exists v :: VersionAt(after, id, after.skills[id].latestVersion, v) {
      if id == p.skillId {
        assert VersionAt(after, id, p.call.VersionText(), VersionId(c));
      } else {
        var v :| VersionAt(db, id, db.skills[id].latestVersion, v);
        assert VersionAt(after, id, after.skills[id].latestVersion, v);
      }
    }
  }

  lemma OtherSkill(db: Tables, c: CallId, p: Proc, d: CallId, q: Proc)
    requires InTransaction(db, c, p) && InTransaction(db, d, q) && c != d && CallKey(q.call) != CallKey(p.call)
    ensures q.skillId != p.skillId
  {
  }

  /** A transaction that finds what it found and sees the skill it saw stands where it stood. */
  lemma StaysInTransaction(db: Tables, after: Tables, d: CallId, q: Proc)
    requires InTransaction(db, d, q)
    requires forall id :: SkillAt(after, CallKey(q.call), id) ==> SkillAt(db, CallKey(q.call), id)
    requires forall id :: VersionAt(after, q.skillId, q.call.VersionText(), id) ==>
      VersionAt(db, q.skillId, q.call.VersionText(), id)
    requires q.skillId in after.skills <==> q.skillId in db.skills
    requires q.skillId in db.skills ==> after.skills[q.skillId] == db.skills[q.skillId]
    ensures InTransaction(after, d, q)
  {
  }

  lemma CommitKeepsOther(db: Tables, c: CallId, p: Proc, d: CallId, q: Proc)
    requires ReadyToCommit(db, c, p) && InTransaction(db, d, q) && c != d
    requires CallKey(q.call) != CallKey(p.call)
    ensures InTransaction(Visible(db, p.writes), d, q)
  {
    CommitRows(db, c, p);
    OtherSkill(db, c, p, d, q);
    StaysInTransaction(db, Visible(db, p.writes), d, q);
  }

  lemma CommitKeepsLocal(db: Tables, c: CallId, p: Proc, d: CallId, q: Proc)
    requires ReadyToCommit(db, c, p) && WritesLocal(db, d, q)
    ensures WritesLocal(Visible(db, p.writes), d, q)
  {
  }

  lemma MintedGrows(db: Tables, procs: map<CallId, Proc>, c: CallId, call: Call, skillId: Uuid, row: SkillRow)
    requires Minted(db, procs) && c in procs && procs[c].call == call && call.Publish?
    requires procs[c].pc == Done(Recorded(NewRecord(c, call)))
    requires skillId in db.skills || skillId == SkillId(c)
    ensures Minted(
      Tables(db.skills[skillId := row], db.versions[VersionId(c) := NewVersionRow(c, call, skillId)]), procs)
  {
  }

  lemma CommitMinted(db: Tables, procs: map<CallId, Proc>, c: CallId)
    requires Minted(db, procs) && c in procs && ReadyToCommit(db, c, procs[c])
    ensures Minted(Visible(db, procs[c].writes), procs[c := Committed(c, procs[c])])
  {
    var p := procs[c];
    CommitRows(db, c, p);
    MintedQuiet(db, procs, c, Committed(c, p));
    MintedGrows(db, procs[c := Committed(c, p)], c, p.call, p.skillId, p.writes.skills[p.skillId]);
  }

  lemma CommitKeepsProc(db: Tables, c: CallId, p: Proc, d: CallId, q: Proc)
    requires ReadyToCommit(db, c, p) && ProcOk(db, d, q) && c != d
    requires Holding(q) ==> CallKey(q.call) != CallKey(p.call)
    ensures ProcOk(Visible(db, p.writes), d, q)
  {
    if q.pc.RollingBack? {
      CommitKeepsLocal(db, c, p, d, q);
    } else if InTransaction(db, d, q) {
      CommitKeepsOther(db, c, p, d, q);
    }
  }

  lemma CommitOthers(s: State, c: CallId)
    requires Inv(s) && c in s.procs && s.procs[c].pc.CommitNew?
    ensures forall d | d in s.procs && d != c :: ProcOk(Visible(s.db, s.procs[c].writes), d, s.procs[d])
  {
    Unminted(s, c);
    forall d | d in s.procs && d != c ensures ProcOk(Visible(s.db, s.procs[c].writes), d, s.procs[d]) {
      assert ProcOk(s.db, d, s.procs[d]);
      CommitKeepsProc(s.db, c, s.procs[c], d, s.procs[d]);
    }
  }

  lemma CommitDbOk(db: Tables, c: CallId, p: Proc)
    requires ReadyToCommit(db, c, p)
    ensures DbOk(Visible(db, p.writes))
  {
    CommitKeysOk(db, c, p);
    CommitSkillsUnique(db, c, p);
    CommitVersionsUnique(db, c, p);
    CommitLatestExists(db, c, p);
  }

  lemma Assemble(db: Tables, procs: map<CallId, Proc>, c: CallId, p: Proc, history: seq<Event>)
    requires DbOk(db) && Minted(db, procs[c := p]) && Exclusive(procs)
    requires !Holding(p) && ProcOk(db, c, p)
    requires forall d | d in procs && d != c :: ProcOk(db, d, procs[d])
    ensures Inv(State(db, procs[c := p], history))
  {
  }

  lemma CommitNewKeeps(s: State, c: CallId, h: seq<Event>)
    requires Inv(s) && c in s.procs && s.procs[c].pc.CommitNew?
    ensures Inv(State(Visible(s.db, s.procs[c].writes), s.procs[c := Committed(c, s.procs[c])], h))
  {
    Unminted(s, c);
    CommitDbOk(s.db, c, s.procs[c]);
    CommitMinted(s.db, s.procs, c);
    CommitOthers(s, c);
    Assemble(Visible(s.db, s.procs[c].writes), s.procs, c, Committed(c, s.procs[c]), h);
  }

  /** Committing a repeat writes the skill row back unchanged. */
  lemma RepeatChangesNothing(db: Tables, c: CallId, p: Proc)
    requires ProcOk(db, c, p) && p.pc.CommitRepeat? && p.skillId in db.skills
    ensures Visible(db, p.writes) == db
  {
  }

  lemma CommitRepeatKeeps(s: State, c: CallId)
    requires Inv(s) && c in s.procs && s.procs[c].pc.CommitRepeat?
    ensures var e := PublishStep(s.db, c, s.procs[c]);
      e.db == s.db && Inv(State(s.db, s.procs[c := e.proc], s.history + e.events))
  {
    var e := PublishStep(s.db, c, s.procs[c]);
    RepeatChangesNothing(s.db, c, s.procs[c]);
    QuietStep(s, c, e.proc, e.events);
  }

  // ----- yanks

  /** Only the yank columns of version rows differ. */
  ghost predicate OnlyRestamped(db: Tables, after: Tables) {
    && after.skills == db.skills
    && after.versions.Keys == db.versions.Keys
    && forall id | id in db.versions :: Immutable(after.versions[id]) == Immutable(db.versions[id])
  }

  lemma YankRestamps(db: Tables, call: Call)
    requires !call.Publish?
    ensures OnlyRestamped(db, UpdateYank(db, call))
  {
  }

  lemma RestampedFinds(db: Tables, after: Tables, skillId: Uuid, version: string)
    requires OnlyRestamped(db, after)
    ensures forall id :: VersionAt(after, skillId, version, id) <==> VersionAt(db, skillId, version, id)
  {
  }

  /** What the constraints speak of stays as it was. */
  lemma RestampedColumns(db: Tables, after: Tables)
    requires OnlyRestamped(db, after)
    ensures forall id | id in db.versions ::
      && after.versions[id].id == db.versions[id].id && after.versions[id].skillId == db.versions[id].skillId
      && after.versions[id].version == db.versions[id].version
  {
    forall id | id in db.versions
      ensures after.versions[id].id == db.versions[id].id && after.versions[id].skillId == db.versions[id].skillId
        && after.versions[id].version == db.versions[id].version
    {
      assert Immutable(after.versions[id]) == Immutable(db.versions[id]);
    }
  }

  lemma RestampedKeysOk(db: Tables, after: Tables)
    requires KeysOk(db) && VersionsUnique(db) && OnlyRestamped(db, after)
    ensures KeysOk(after) && VersionsUnique(after)
  {
    RestampedColumns(db, after);
  }

  lemma RestampedLatestExists(db: Tables, after: Tables)
    requires LatestExists(db) && OnlyRestamped(db, after)
    ensures LatestExists(after)
  {
    forall id | id in db.skills ensures exists v :: VersionAt(after, id, db.skills[id].latestVersion, v) {
      RestampedFinds(db, after, id, db.skills[id].latestVersion);
    }
  }

  lemma RestampedDbOk(db: Tables, after: Tables)
    requires DbOk(db) && OnlyRestamped(db, after)
    ensures DbOk(after)
  {
    RestampedKeysOk(db, after);
    RestampedLatestExists(db, after);
  }

  lemma RestampedProcOk(db: Tables, after: Tables, d: CallId, q: Proc)
    requires OnlyRestamped(db, after) && ProcOk(db, d, q)
    ensures ProcOk(after, d, q)
  {
    RestampedFinds(db, after, q.skillId, q.call.VersionText());
    assert forall id :: SkillAt(after, CallKey(q.call), id) <==> SkillAt(db, CallKey(q.call), id);
  }

  lemma RestampedMinted(db: Tables, after: Tables, procs: map<CallId, Proc>)
    requires OnlyRestamped(db, after) && Minted(db, procs)
    ensures Minted(after, procs)
  {
  }

  lemma StampKeeps(s: State, c: CallId)
    requires Inv(s) && Unfinished(s, c) && !s.procs[c].call.Publish?
    ensures var e := StampStep(s.db, c, s.procs[c]); Inv(State(e.db, s.procs[c := e.proc], s.history + e.events))
  {
    var p := s.procs[c];
    var e := StampStep(s.db, c, p);
    if p.pc.Start? {
      YankRestamps(s.db, p.call);
      RestampedDbOk(s.db, e.db);
      RestampedMinted(s.db, e.db, s.procs);
      forall d | d in s.procs ensures ProcOk(e.db, d, s.procs[d]) {
        RestampedProcOk(s.db, e.db, d, s.procs[d]);
      }
      QuietStep(State(e.db, s.procs, s.history), c, e.proc, e.events);
    } else {
      QuietStep(s, c, e.proc, e.events);
    }
  }

  // ----- every reachable state

  lemma CommitTake(s: State, c: CallId)
    requires Enabled(s, c) && s.procs[c].call.Publish? && s.procs[c].pc.CommitNew?
    ensures var p := s.procs[c];
      var reply := Recorded(NewRecord(c, p.call));
      Take(s, Advance(c)) ==
        State(Visible(s.db, p.writes), s.procs[c := Committed(c, p)], s.history + [Took(c, p.call, reply), Returned(c, reply)])
  {
  }

  lemma AdvanceCommitKeeps(s: State, c: CallId)
    requires Inv(s) && Enabled(s, c) && s.procs[c].pc.CommitNew?
    ensures Inv(Take(s, Advance(c)))
  {
    var reply := Recorded(NewRecord(c, s.procs[c].call));
    CommitTake(s, c);
    CommitNewKeeps(s, c, s.history + [Took(c, s.procs[c].call, reply), Returned(c, reply)]);
  }

  lemma AdvanceKeepsInv(s: State, c: CallId)
    requires Inv(s) && Enabled(s, c)
    ensures Inv(Take(s, Advance(c)))
  {
    var p := s.procs[c];
    assert ProcOk(s.db, c, p);
    if !p.call.Publish? {
      StampKeeps(s, c);
    } else if p.pc.CommitNew? {
      AdvanceCommitKeeps(s, c);
    } else if p.pc.CommitRepeat? {
      CommitRepeatKeeps(s, c);
    } else {
      QuietPublish(s, c);
    }
  }

  lemma InvokeKeepsInv(s: State, c: CallId, call: Call)
    requires Inv(s) && c !in s.procs
    ensures Inv(Take(s, Invoke(c, call)))
  {
    QuietStep(s, c, Proc(call, Start, SkillId(c), Empty), [Invoked(c, call)]);
  }

  lemma DisconnectKeepsInv(s: State, c: CallId)
    requires Inv(s) && CanTake(s, Disconnect(c))
    ensures Inv(Take(s, Disconnect(c)))
  {
    assert ProcOk(s.db, c, s.procs[c]);
    QuietStep(s, c, s.procs[c].(pc := RollingBack(LostConnection)), [Returned(c, LostConnection)]);
  }

  lemma StepKeepsInv(s: State, l: Label)
    requires Inv(s) && CanTake(s, l)
    ensures Inv(Take(s, l))
  {
    match l {
      case Invoke(c, call) => InvokeKeepsInv(s, c, call);
      case Disconnect(c) => DisconnectKeepsInv(s, c);
      case Advance(c) => AdvanceKeepsInv(s, c);
    }
  }

  /** Whatever the interleaving, every state of every run satisfies the invariant. */
  lemma {:induction false} RunKeepsInv(states: seq<State>, labels: seq<Label>, n: nat)
    requires IsRun(states, labels) && n < |states|
    ensures Inv(states[n])
  {
    if n > 0 {
      RunKeepsInv(states, labels, n - 1);
      StepKeepsInv(states[n - 1], labels[n - 1]);
    }
  }
}
