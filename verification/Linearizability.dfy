/** Each call takes effect at one moment of its run, as `Registry.Perform` says. */
module Linearizability {
  import opened Wrappers
  import opened Model
  import opened Tables
  import opened Registry
  import opened History
  import opened Protocol
  import opened Invariants

  // ----- single steps against the indivisible registry

  lemma ReleaseFound(db: Tables, reg: Registry, skillId: Uuid, version: string, id: Uuid)
    requires DbOk(db) && Represents(db, reg) && VersionAt(db, skillId, version, id)
    ensures skillId in db.skills
    ensures var key := ReleaseKey(KeyOf(db.skills[skillId]), version);
      key in reg.releases && reg.releases[key] == ReleaseOf(db.versions[id])
  {
    assert ReleaseAt(db, ReleaseKey(KeyOf(db.skills[skillId]), version), id);
  }

  lemma ReleaseMissing(db: Tables, reg: Registry, skillId: Uuid, version: string)
    requires DbOk(db) && Represents(db, reg) && skillId in db.skills && FindVersion(db, skillId, version).None?
    ensures ReleaseKey(KeyOf(db.skills[skillId]), version) !in reg.releases
  {
    var key := ReleaseKey(KeyOf(db.skills[skillId]), version);
    if key in reg.releases {
      var id :| ReleaseAt(db, key, id);
      assert VersionAt(db, skillId, version, id);
    }
  }

  lemma SkillMissing(db: Tables, reg: Registry, key: SkillKey, version: string)
    requires DbOk(db) && Represents(db, reg) && FindSkill(db, key).None?
    ensures key !in reg.skills && ReleaseKey(key, version) !in reg.releases
  {
  }

  /** The reply decided when a version row is found is the registry's, and nothing changes. */
  lemma FoundSimulates(db: Tables, reg: Registry, c: CallId, p: Proc, record: SkillVersionRecord)
    requires DbOk(db) && Represents(db, reg) && InTransaction(db, c, p) && p.pc.Read?
    requires SelectVersion(Visible(db, p.writes), p.skillId, p.call.VersionText()) == Some(record)
    ensures Perform(reg, c, p.call) ==
      (reg, if record.digest == p.call.request.artifact.digest then Recorded(record) else ConflictOf(p.call))
    ensures record.id in db.versions
  {
    var version := p.call.VersionText();
    VisibleReads(db, c, p);
    var id := FindVersion(Visible(db, p.writes), p.skillId, version).value;
    assert VersionAt(db, p.skillId, version, id);
    ReleaseFound(db, reg, p.skillId, version, id);
  }

  lemma SkillsGrow(db: Tables, skills: map<SkillKey, SkillInfo>, id: Uuid, row: SkillRow)
    requires RepresentsSkills(db, skills)
    requires id in db.skills ==> KeyOf(db.skills[id]) == KeyOf(row)
    requires forall i | SkillAt(db, KeyOf(row), i) :: i == id
    ensures RepresentsSkills(db.(skills := db.skills[id := row]), skills[KeyOf(row) := InfoOf(row)])
  {
    var after, next := db.(skills := db.skills[id := row]), skills[KeyOf(row) := InfoOf(row)];
    forall i | i in after.skills
      ensures KeyOf(after.skills[i]) in next && next[KeyOf(after.skills[i])] == InfoOf(after.skills[i])
    {
      assert i != id ==> SkillAt(db, KeyOf(db.skills[i]), i);
    }
    forall key | key in next ensures exists i :: SkillAt(after, key, i) {
      if key == KeyOf(row) {
        assert SkillAt(after, key, id);
      } else {
        var i :| SkillAt(db, key, i);
        assert SkillAt(after, key, i);
      }
    }
  }

  /** A skill row that keeps its key does not disturb the releases. */
  lemma ReleasesKeep(db: Tables, releases: map<ReleaseKey, Release>, id: Uuid, row: SkillRow)
    requires RepresentsReleases(db, releases) && KeysOk(db)
    requires id in db.skills ==> KeyOf(db.skills[id]) == KeyOf(row)
    ensures RepresentsReleases(db.(skills := db.skills[id := row]), releases)
  {
    var after := db.(skills := db.skills[id := row]);
    forall v, key ensures ReleaseAt(after, key, v) <==> ReleaseAt(db, key, v) {
    }
  }

  lemma ReleasesGrow(db: Tables, releases: map<ReleaseKey, Release>, key: ReleaseKey, id: Uuid, row: VersionRow)
    requires RepresentsReleases(db, releases) && key !in releases && id !in db.versions
    requires row.skillId in db.skills && ReleaseKeyOf(db, row) == key
    ensures RepresentsReleases(db.(versions := db.versions[id := row]), releases[key := ReleaseOf(row)])
  {
    var after := db.(versions := db.versions[id := row]);
    var next := releases[key := ReleaseOf(row)];
    forall v, k | ReleaseAt(after, k, v) ensures k in next && next[k] == ReleaseOf(after.versions[v]) {
      assert v == id || ReleaseAt(db, k, v);
    }
    forall k | k in next ensures exists v :: ReleaseAt(after, k, v) {
      if k == key {
        assert ReleaseAt(after, key, id);
      } else {
        var v :| ReleaseAt(db, k, v);
        assert ReleaseAt(after, k, v);
      }
    }
  }

  lemma PublishFresh(db: Tables, reg: Registry, c: CallId, p: Proc)
    requires ReadyToCommit(db, c, p) && Represents(db, reg)
    ensures CallRelease(p.call) !in reg.releases
    ensures Perform(reg, c, p.call).0 == Registry(
      reg.skills[CallKey(p.call) := InfoOf(p.writes.skills[p.skillId])],
      reg.releases[CallRelease(p.call) := ReleaseOf(NewVersionRow(c, p.call, p.skillId))])
    ensures Perform(reg, c, p.call).1 == Recorded(NewRecord(c, p.call))
  {
    if p.skillId in db.skills {
      ReleaseMissing(db, reg, p.skillId, p.call.VersionText());
    } else {
      SkillMissing(db, reg, CallKey(p.call), p.call.VersionText());
    }
  }

  /** Committing a new version is the registry's publish of a new release. */
  lemma CommitSimulates(db: Tables, reg: Registry, c: CallId, p: Proc)
    requires ReadyToCommit(db, c, p) && Represents(db, reg)
    ensures Perform(reg, c, p.call).1 == Recorded(NewRecord(c, p.call))
    ensures Represents(Visible(db, p.writes), Perform(reg, c, p.call).0)
  {
    var skill, row := p.writes.skills[p.skillId], NewVersionRow(c, p.call, p.skillId);
    PublishFresh(db, reg, c, p);
    CommitRows(db, c, p);
    SkillsGrow(db, reg.skills, p.skillId, skill);
    ReleasesKeep(db, reg.releases, p.skillId, skill);
    var mid := db.(skills := db.skills[p.skillId := skill]);
    ReleasesGrow(mid, reg.releases, CallRelease(p.call), VersionId(c), row);
    assert Visible(db, p.writes) == mid.(versions := mid.versions[VersionId(c) := row]);
    assert forall key, id :: SkillAt(Visible(db, p.writes), key, id) <==> SkillAt(mid, key, id);
  }

  lemma TargetsRelease(db: Tables, call: Call)
    requires DbOk(db) && !call.Publish?
    ensures forall id :: Targets(db, call, id) <==> ReleaseAt(db, CallRelease(call), id)
  {
  }

  lemma StampFinds(db: Tables, call: Call)
    requires !call.Publish?
    ensures forall key, id :: ReleaseAt(UpdateYank(db, call), key, id) <==> ReleaseAt(db, key, id)
    ensures forall key, id :: SkillAt(UpdateYank(db, call), key, id) <==> SkillAt(db, key, id)
  {
  }

  lemma StampReplies(db: Tables, reg: Registry, c: CallId, call: Call)
    requires DbOk(db) && Represents(db, reg) && !call.Publish?
    ensures CallRelease(call) in reg.releases <==> exists id :: Targets(db, call, id)
  {
    TargetsRelease(db, call);
    if CallRelease(call) in reg.releases {
      var id :| ReleaseAt(db, CallRelease(call), id);
      assert Targets(db, call, id);
    }
  }

  lemma StampedRow(db: Tables, reg: Registry, c: CallId, call: Call, key: ReleaseKey, id: Uuid)
    requires DbOk(db) && RepresentsReleases(db, reg.releases) && !call.Publish? && ReleaseAt(db, key, id)
    ensures var next := Perform(reg, c, call).0.releases;
      key in next && next[key] == ReleaseOf(UpdateYank(db, call).versions[id])
  {
    TargetsRelease(db, call);
    assert Targets(db, call, id) <==> ReleaseAt(db, CallRelease(call), id);
  }

  lemma StampRepresents(db: Tables, reg: Registry, c: CallId, call: Call)
    requires DbOk(db) && RepresentsReleases(db, reg.releases) && !call.Publish?
    ensures RepresentsReleases(UpdateYank(db, call), Perform(reg, c, call).0.releases)
  {
    var after, next := UpdateYank(db, call), Perform(reg, c, call).0.releases;
    StampFinds(db, call);
    forall id, k | ReleaseAt(after, k, id) ensures k in next && next[k] == ReleaseOf(after.versions[id]) {
      StampedRow(db, reg, c, call, k, id);
    }
    forall k | k in next ensures exists id :: ReleaseAt(after, k, id) {
      var id :| ReleaseAt(db, k, id);
    }
  }

  /** The UPDATE of a yank or unyank is the registry's stamp, reply included. */
  lemma StampSimulates(db: Tables, reg: Registry, c: CallId, call: Call)
    requires DbOk(db) && Represents(db, reg) && !call.Publish?
    ensures Perform(reg, c, call).1 ==
      if exists id :: Targets(db, call, id) then Acked
      else Failed(SkillVersionNotFound(call.namespace, call.name, call.version))
    ensures Represents(UpdateYank(db, call), Perform(reg, c, call).0)
  {
    StampReplies(db, reg, c, call);
    StampRepresents(db, reg, c, call);
    StampFinds(db, call);
  }

  // ----- histories

  /** The history so far replays, one call at a time, to the committed tables. */
  ghost predicate Explains(h: seq<Event>, db: Tables) {
    Proper(h) && Settled(h, h) && NoneLost(h) && Replays(Points(h), db)
  }

  /** Taking effect is never reported as a lost connection. */
  ghost predicate NoneLost(h: seq<Event>) {
    forall e | e in h && e.Took? :: e.reply != LostConnection
  }

  ghost predicate Replays(points: seq<Event>, db: Tables)
    requires AllTook(points)
  {
    Legal(points) && Represents(db, Replay(points))
  }

  /** What the history knows of a call, by how far the call has come. */
  ghost predicate Chronicled(h: seq<Event>, c: CallId, p: Proc) {
    && Invoked(c, p.call) in h
    && match p.pc
       case CommitRepeat(record) =>
         && Took(c, p.call, Recorded(record)) in h && record.id != VersionId(c)
         && (forall e | e in h && e.id == c :: !e.Returned? && (e.Took? ==> Passive(c, e.reply)))
       case RollingBack(reply) => Returned(c, reply) in h
       case Done(reply) => Returned(c, reply) in h
       case _ => forall e | e in h && e.id == c :: e.Invoked?
  }

  /** The events are about calls of the system, and each call is chronicled. */
  ghost predicate Known(h: seq<Event>, procs: map<CallId, Proc>) {
    && (forall e | e in h :: e.id in procs && (!e.Returned? ==> e.call == procs[e.id].call))
    && (forall c | c in procs :: Chronicled(h, c, procs[c]))
  }

  ghost predicate Lin(s: State) {
    Explains(s.history, s.db) && Known(s.history, s.procs)
  }

  lemma SettledGrows(h: seq<Event>, more: seq<Event>)
    requires Settled(h, h)
    requires forall e | e in more && e.Took? :: Passive(e.id, e.reply) || Returned(e.id, e.reply) in more
    ensures Settled(h + more, h + more)
  {
  }

  /** The replay goes on with one more call. */
  lemma ReplayGrows(h: seq<Event>, db: Tables, took: Event, after: Tables)
    requires Explains(h, db) && took.Took? && MayFollow(h, took)
    requires var (reg, answer) := Perform(Replay(Points(h)), took.id, took.call);
      answer == took.reply && Represents(after, reg)
    ensures Proper(h + [took]) && Replays(Points(h + [took]), after)
  {
    ProperSnoc(h, took);
    PointsSnoc(h, took);
    ReplaySnoc(Points(h), took);
  }

  lemma ReturnFollows(h: seq<Event>, took: Event)
    requires Proper(h + [took]) && took.Took? && MayFollow(h, took) && took.reply != LostConnection
    ensures Proper(h + [took, Returned(took.id, took.reply)])
    ensures Points(h + [took, Returned(took.id, took.reply)]) == Points(h + [took])
  {
    var returned := Returned(took.id, took.reply);
    assert took in h + [took];
    ProperSnoc(h + [took], returned);
    PointsSnoc(h + [took], returned);
    assert h + [took] + [returned] == h + [took, returned];
    assert Points(h + [took]) + [] == Points(h + [took]);
  }

  lemma TookSettled(h: seq<Event>, took: Event)
    requires Settled(h, h) && NoneLost(h) && took.Took? && took.reply != LostConnection
    ensures var all := h + [took, Returned(took.id, took.reply)]; Settled(all, all) && NoneLost(all)
    ensures Passive(took.id, took.reply) ==> Settled(h + [took], h + [took])
    ensures NoneLost(h + [took])
  {
  }

  /** A call takes effect, and its caller is told at once. */
  lemma TakeAndReturn(h: seq<Event>, db: Tables, took: Event, after: Tables)
    requires Explains(h, db) && took.Took? && MayFollow(h, took) && took.reply != LostConnection
    requires var (reg, answer) := Perform(Replay(Points(h)), took.id, took.call);
      answer == took.reply && Represents(after, reg)
    ensures Explains(h + [took, Returned(took.id, took.reply)], after)
  {
    TookSettled(h, took);
    ReplayGrows(h, db, took, after);
    ReturnFollows(h, took);
  }

  /** A call takes effect without changing anything; its caller is told later, or never. */
  lemma TakePassively(h: seq<Event>, db: Tables, took: Event)
    requires Explains(h, db) && took.Took? && MayFollow(h, took) && took.reply != LostConnection
    requires Perform(Replay(Points(h)), took.id, took.call).1 == took.reply && Passive(took.id, took.reply)
    ensures Explains(h + [took], db)
  {
    TookSettled(h, took);
    PassiveChangesNothing(Replay(Points(h)), took.id, took.call);
    ReplayGrows(h, db, took, db);
  }

  /** An event that is not a taking of effect. */
  lemma Note(h: seq<Event>, db: Tables, e: Event)
    requires Explains(h, db) && MayFollow(h, e) && !e.Took?
    ensures Explains(h + [e], db)
  {
    SettledGrows(h, [e]);
    ProperSnoc(h, e);
    PointsSnoc(h, e);
    assert Points(h) + [] == Points(h);
  }

  /** Growing the history by events of `c` leaves every other call's chronicle as it was. */
  lemma ChronicleOthers(h: seq<Event>, procs: map<CallId, Proc>, c: CallId, p: Proc, more: seq<Event>)
    requires Known(h, procs) && (c in procs ==> procs[c].call == p.call)
    requires forall e | e in more :: e.id == c && (!e.Returned? ==> e.call == p.call)
    requires Chronicled(h + more, c, p)
    ensures Known(h + more, procs[c := p])
  {
  }

  // ----- one step

  lemma InvokeLin(s: State, c: CallId, call: Call)
    requires Lin(s) && c !in s.procs
    ensures Lin(Take(s, Invoke(c, call)))
  {
    var p := Proc(call, Start, SkillId(c), Empty);
    Note(s.history, s.db, Invoked(c, call));
    ChronicleOthers(s.history, s.procs, c, p, [Invoked(c, call)]);
  }

  lemma DisconnectLin(s: State, c: CallId)
    requires Lin(s) && CanTake(s, Disconnect(c))
    ensures Lin(Take(s, Disconnect(c)))
  {
    var p := s.procs[c].(pc := RollingBack(LostConnection));
    assert Chronicled(s.history, c, s.procs[c]);
    Note(s.history, s.db, Returned(c, LostConnection));
    ChronicleOthers(s.history, s.procs, c, p, [Returned(c, LostConnection)]);
  }

  /** A step that leaves the tables and the history alone. */
  lemma SilentLin(s: State, c: CallId, p: Proc)
    requires Lin(s) && c in s.procs && s.procs[c].call == p.call
    requires Chronicled(s.history, c, p)
    ensures Lin(State(s.db, s.procs[c := p], s.history + []))
  {
    assert s.history + [] == s.history;
    ChronicleOthers(s.history, s.procs, c, p, []);
  }

  lemma DecideKnown(h: seq<Event>, procs: map<CallId, Proc>, c: CallId, p: Proc, reply: Reply)
    requires Known(h, procs) && c in procs && procs[c].call == p.call
    requires p.pc == RollingBack(reply) || p.pc == Done(reply)
    ensures Known(h + [Took(c, p.call, reply), Returned(c, reply)], procs[c := p])
  {
  }

  lemma DecideLin(s: State, c: CallId, p: Proc, reply: Reply, after: Tables)
    requires Lin(s) && c in s.procs && s.procs[c].call == p.call && reply != LostConnection
    requires forall e | e in s.history && e.id == c :: e.Invoked?
    requires p.pc == RollingBack(reply) || p.pc == Done(reply)
    requires var (reg, answer) := Perform(Replay(Points(s.history)), c, p.call);
      answer == reply && Represents(after, reg)
    ensures Lin(State(after, s.procs[c := p], s.history + [Took(c, p.call, reply), Returned(c, reply)]))
  {
    assert MayFollow(s.history, Took(c, p.call, reply)) by {
      assert Chronicled(s.history, c, s.procs[c]);
    }
    TakeAndReturn(s.history, s.db, Took(c, p.call, reply), after);
    DecideKnown(s.history, s.procs, c, p, reply);
  }

  lemma RepeatKnown(h: seq<Event>, procs: map<CallId, Proc>, c: CallId, record: SkillVersionRecord)
    requires Known(h, procs) && c in procs && record.id != VersionId(c)
    requires forall e | e in h && e.id == c :: e.Invoked?
    ensures Known(h + [Took(c, procs[c].call, Recorded(record))], procs[c := procs[c].(pc := CommitRepeat(record))])
  {
  }

  lemma RepeatLin(s: State, c: CallId, record: SkillVersionRecord)
    requires Lin(s) && c in s.procs && record.id != VersionId(c)
    requires forall e | e in s.history && e.id == c :: e.Invoked?
    requires Perform(Replay(Points(s.history)), c, s.procs[c].call).1 == Recorded(record)
    ensures var p := s.procs[c].(pc := CommitRepeat(record));
      Lin(State(s.db, s.procs[c := p], s.history + [Took(c, p.call, Recorded(record))]))
  {
    var took := Took(c, s.procs[c].call, Recorded(record));
    assert MayFollow(s.history, took) by {
      assert Chronicled(s.history, c, s.procs[c]);
    }
    TakePassively(s.history, s.db, took);
    RepeatKnown(s.history, s.procs, c, record);
  }

  lemma ReadLin(s: State, c: CallId)
    requires Inv(s) && Lin(s) && Enabled(s, c) && s.procs[c].pc.Read?
    ensures Lin(Take(s, Advance(c)))
  {
    var p := s.procs[c];
    var e := PublishStep(s.db, c, p);
    assert ProcOk(s.db, c, p) && Chronicled(s.history, c, p);
    match SelectVersion(Visible(s.db, p.writes), p.skillId, p.call.VersionText())
    case None => SilentLin(s, c, e.proc);
    case Some(record) =>
      FoundSimulates(s.db, Replay(Points(s.history)), c, p, record);
      Unminted(s, c);
      if record.digest == p.call.request.artifact.digest {
        RepeatLin(s, c, record);
      } else {
        DecideLin(s, c, e.proc, ConflictOf(p.call), s.db);
      }
  }

  lemma CommitNewLin(s: State, c: CallId)
    requires Inv(s) && Lin(s) && Enabled(s, c) && s.procs[c].pc.CommitNew?
    ensures Lin(Take(s, Advance(c)))
  {
    var p := s.procs[c];
    assert ProcOk(s.db, c, p) && Chronicled(s.history, c, p);
    Unminted(s, c);
    CommitTake(s, c);
    CommitSimulates(s.db, Replay(Points(s.history)), c, p);
    DecideLin(s, c, Committed(c, p), Recorded(NewRecord(c, p.call)), Visible(s.db, p.writes));
  }

  lemma AnswerLin(s: State, c: CallId, p: Proc, record: SkillVersionRecord)
    requires Lin(s) && c in s.procs && s.procs[c].pc == CommitRepeat(record)
    requires p.call == s.procs[c].call && p.pc == Done(Recorded(record))
    ensures Lin(State(s.db, s.procs[c := p], s.history + [Returned(c, Recorded(record))]))
  {
    assert Chronicled(s.history, c, s.procs[c]);
    Note(s.history, s.db, Returned(c, Recorded(record)));
    ChronicleOthers(s.history, s.procs, c, p, [Returned(c, Recorded(record))]);
  }

  lemma RepeatTake(s: State, c: CallId)
    requires Enabled(s, c) && ProcOk(s.db, c, s.procs[c]) && s.procs[c].pc.CommitRepeat?
    ensures var p := s.procs[c];
      var reply := Recorded(p.pc.record);
      Take(s, Advance(c)) == State(s.db, s.procs[c := p.(pc := Done(reply), writes := Empty)], s.history + [Returned(c, reply)])
  {
    RepeatChangesNothing(s.db, c, s.procs[c]);
  }

  lemma CommitRepeatLin(s: State, c: CallId)
    requires Inv(s) && Lin(s) && Enabled(s, c) && s.procs[c].pc.CommitRepeat?
    ensures Lin(Take(s, Advance(c)))
  {
    var p := s.procs[c];
    assert ProcOk(s.db, c, s.procs[c]);
    RepeatTake(s, c);
    AnswerLin(s, c, p.(pc := Done(Recorded(p.pc.record)), writes := Empty), p.pc.record);
  }

  lemma UpdateLin(s: State, c: CallId)
    requires Inv(s) && Lin(s) && Enabled(s, c) && !s.procs[c].call.Publish? && s.procs[c].pc.Start?
    ensures Lin(Take(s, Advance(c)))
  {
    var p := s.procs[c];
    var e := StampStep(s.db, c, p);
    assert Chronicled(s.history, c, p);
    StampSimulates(s.db, Replay(Points(s.history)), c, p.call);
    DecideLin(s, c, e.proc, e.proc.pc.reply, e.db);
  }

  lemma StampLin(s: State, c: CallId)
    requires Inv(s) && Lin(s) && Enabled(s, c) && !s.procs[c].call.Publish?
    ensures Lin(Take(s, Advance(c)))
  {
    var p := s.procs[c];
    if p.pc.Start? {
      UpdateLin(s, c);
    } else {
      assert ProcOk(s.db, c, p) && Chronicled(s.history, c, p);
      SilentLin(s, c, StampStep(s.db, c, p).proc);
    }
  }

  lemma QuietLin(s: State, c: CallId)
    requires Inv(s) && Lin(s) && Enabled(s, c) && s.procs[c].call.Publish?
    requires var pc := s.procs[c].pc; pc.Start? || pc.Insert? || pc.UpdateLatest? || pc.RollingBack?
    ensures Lin(Take(s, Advance(c)))
  {
    var p := s.procs[c];
    assert ProcOk(s.db, c, p) && Chronicled(s.history, c, p);
    if p.pc.Insert? {
      InsertInserts(s, c);
    }
    SilentLin(s, c, PublishStep(s.db, c, p).proc);
  }

  lemma StepLin(s: State, l: Label)
    requires Inv(s) && Lin(s) && CanTake(s, l)
    ensures Lin(Take(s, l))
  {
    match l {
      case Invoke(c, call) => InvokeLin(s, c, call);
      case Disconnect(c) => DisconnectLin(s, c);
      case Advance(c) =>
        var p := s.procs[c];
        assert ProcOk(s.db, c, p);
        if !p.call.Publish? { StampLin(s, c); }
        else if p.pc.Read? { ReadLin(s, c); }
        else if p.pc.CommitNew? { CommitNewLin(s, c); }
        else if p.pc.CommitRepeat? { CommitRepeatLin(s, c); }
        else { QuietLin(s, c); }
    }
  }

  lemma {:induction false} RunLin(states: seq<State>, labels: seq<Label>, n: nat)
    requires IsRun(states, labels) && n < |states|
    ensures Inv(states[n]) && Lin(states[n])
  {
    RunKeepsInv(states, labels, n);
    if n > 0 {
      RunLin(states, labels, n - 1);
      StepLin(states[n - 1], labels[n - 1]);
    }
  }

  /** Every state of every run is linearizable against the indivisible registry. */
  lemma Linearizable(states: seq<State>, labels: seq<Label>, n: nat)
    requires IsRun(states, labels) && n < |states|
    ensures exists order :: Linearizes(states[n].history, order, states[n].db)
  {
    RunLin(states, labels, n);
    OrderLinearizes(states[n].history, states[n].db);
  }
}
