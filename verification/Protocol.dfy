/**
 * Any number of repository calls at once, one statement at a time. Each statement sees the rows
 * committed when it runs plus its own transaction's writes (READ COMMITTED). A row that another open
 * transaction has written is locked, and so is the unique key it occupies.
 */
module Protocol {
  import opened Wrappers
  import opened Model
  import opened Tables
  import opened Registry
  import opened History

  /** The statement a call runs next. */
  datatype Pc =
    | Start
    | Read
    | Insert
    | ReRead
    | UpdateLatest
    | CommitNew
    | CommitRepeat(record: SkillVersionRecord)
    | RollingBack(reply: Reply)
    | Done(reply: Reply)

  datatype Proc = Proc(call: Call, pc: Pc, skillId: Uuid, writes: Tables)

  datatype State = State(db: Tables, procs: map<CallId, Proc>, history: seq<Event>)

  /** What one statement does: committed rows, the call itself, and what becomes known. */
  datatype Effect = Effect(db: Tables, proc: Proc, events: seq<Event>)

  /** The upsert of the skill row. Its update writes the row back as it is, which locks it. */
  ghost function Upsert(db: Tables, c: CallId, p: Proc): Proc
    requires p.call.Publish?
  {
    match FindSkill(db, CallKey(p.call))
    case Some(id) => p.(pc := Read, skillId := id, writes := Tables(map[id := db.skills[id]], map[]))
    case None => p.(pc := Read, skillId := SkillId(c), writes := Tables(map[SkillId(c) := NewSkillRow(c, p.call)], map[]))
  }

  function ConflictOf(call: Call): Reply {
    Failed(VersionDigestConflict(call.namespace, call.Name(), call.VersionText()))
  }

  /** A version row was found: answer from it, or refuse. */
  ghost function Found(db: Tables, c: CallId, p: Proc, record: SkillVersionRecord): Effect
    requires p.call.Publish?
  {
    if record.digest != p.call.request.artifact.digest then
      var reply := ConflictOf(p.call);
      Effect(db, p.(pc := RollingBack(reply)), [Took(c, p.call, reply), Returned(c, reply)])
    else
      Effect(db, p.(pc := CommitRepeat(record)), [Took(c, p.call, Recorded(record))])
  }

  /** A new publish after its commit. */
  function Committed(c: CallId, p: Proc): Proc
    requires p.call.Publish?
  {
    p.(pc := Done(Recorded(NewRecord(c, p.call))), writes := Empty)
  }

  ghost function PublishStep(db: Tables, c: CallId, p: Proc): Effect
    requires p.call.Publish?
  {
    var visible := Visible(db, p.writes);
    var version := p.call.VersionText();
    match p.pc
    case Start => Effect(db, Upsert(db, c, p), [])
    case Read =>
      (match SelectVersion(visible, p.skillId, version)
       case Some(record) => Found(db, c, p, record)
       case None => Effect(db, p.(pc := Insert), []))
    case Insert =>
      if FindVersion(visible, p.skillId, version).Some? then Effect(db, p.(pc := ReRead), [])
      else
        var row := NewVersionRow(c, p.call, p.skillId);
        Effect(db, p.(pc := UpdateLatest, writes := p.writes.(versions := p.writes.versions[row.id := row])), [])
    case ReRead =>
      (match SelectVersion(visible, p.skillId, version)
       case Some(record) => Found(db, c, p, record)
       case None => Effect(db, p.(pc := RollingBack(LostConnection)), [Returned(c, LostConnection)]))
    case UpdateLatest =>
      if p.skillId in visible.skills then
        var row := SetLatest(visible.skills[p.skillId], p.call);
        Effect(db, p.(pc := CommitNew, writes := p.writes.(skills := p.writes.skills[p.skillId := row])), [])
      else Effect(db, p.(pc := CommitNew), [])
    case CommitNew =>
      var reply := Recorded(NewRecord(c, p.call));
      Effect(visible, Committed(c, p), [Took(c, p.call, reply), Returned(c, reply)])
    case CommitRepeat(record) =>
      Effect(visible, p.(pc := Done(Recorded(record)), writes := Empty), [Returned(c, Recorded(record))])
    case RollingBack(reply) => Effect(db, p.(pc := Done(reply), writes := Empty), [])
    case Done(_) => Effect(db, p, [])
  }

  /** Yank and unyank are one statement outside any transaction. */
  ghost function StampStep(db: Tables, c: CallId, p: Proc): Effect
    requires !p.call.Publish?
  {
    match p.pc
    case Start =>
      var reply :=
        if exists id :: Targets(db, p.call, id) then Acked
        else Failed(SkillVersionNotFound(p.call.namespace, p.call.name, p.call.version));
      Effect(UpdateYank(db, p.call), p.(pc := Done(reply)), [Took(c, p.call, reply), Returned(c, reply)])
    case RollingBack(reply) => Effect(db, p.(pc := Done(reply), writes := Empty), [])
    case _ => Effect(db, p, [])
  }

  ghost function Run(db: Tables, c: CallId, p: Proc): Effect {
    if p.call.Publish? then PublishStep(db, c, p) else StampStep(db, c, p)
  }

  // ----- the whole system

  /** `d` has an uncommitted row in `skills` with this key: it is locked, or its key is taken. */
  ghost predicate HoldsSkill(s: State, d: CallId, key: SkillKey) {
    d in s.procs && exists id :: SkillAt(s.procs[d].writes, key, id)
  }

  ghost predicate HoldsVersion(s: State, d: CallId, skillId: Uuid, version: string) {
    d in s.procs && exists id :: VersionAt(s.procs[d].writes, skillId, version, id)
  }

  /** The statement of `c` waits until the transaction of `d` ends. */
  ghost predicate WaitsFor(s: State, c: CallId, d: CallId) {
    && c in s.procs && c != d
    && var p := s.procs[c];
    && p.call.Publish?
    && ((p.pc.Start? && HoldsSkill(s, d, CallKey(p.call)))
        || (p.pc.Insert? && HoldsVersion(s, d, p.skillId, p.call.VersionText())))
  }

  ghost predicate Unfinished(s: State, c: CallId) {
    c in s.procs && !s.procs[c].pc.Done?
  }

  ghost predicate Enabled(s: State, c: CallId) {
    Unfinished(s, c) && forall d :: !WaitsFor(s, c, d)
  }

  /** One step of the system: a call arrives, runs its next statement, or loses its connection. */
  datatype Label = Invoke(id: CallId, call: Call) | Advance(id: CallId) | Disconnect(id: CallId)

  ghost predicate CanTake(s: State, l: Label) {
    match l
    case Invoke(c, _) => c !in s.procs
    case Advance(c) => Enabled(s, c)
    case Disconnect(c) => Unfinished(s, c) && !s.procs[c].pc.RollingBack?
  }

  ghost function Take(s: State, l: Label): State
    requires CanTake(s, l)
  {
    match l
    case Invoke(c, call) => State(s.db, s.procs[c := Proc(call, Start, SkillId(c), Empty)], s.history + [Invoked(c, call)])
    case Advance(c) =>
      var e := Run(s.db, c, s.procs[c]);
      State(e.db, s.procs[c := e.proc], s.history + e.events)
    case Disconnect(c) =>
      State(
        s.db, s.procs[c := s.procs[c].(pc := RollingBack(LostConnection))], s.history + [Returned(c, LostConnection)])
  }

  const Boot := State(Empty, map[], [])

  /** A run: the states it goes through and the steps between them. */
  ghost predicate IsRun(states: seq<State>, labels: seq<Label>) {
    && |states| == |labels| + 1 && states[0] == Boot
    && forall i | 0 <= i < |labels| :: CanTake(states[i], labels[i]) && states[i + 1] == Take(states[i], labels[i])
  }

  // ----- the invariant

  /** The one `skills` row that a publish has written: the committed one, or a new one under a free key. */
  ghost predicate SkillWritten(db: Tables, c: CallId, p: Proc)
    requires p.call.Publish?
  {
    && p.writes.skills.Keys == {p.skillId}
    && var row := p.writes.skills[p.skillId];
    && KeyOf(row) == CallKey(p.call)
    && if p.skillId in db.skills
       then row == if p.pc.CommitNew? then SetLatest(db.skills[p.skillId], p.call) else db.skills[p.skillId]
       else p.skillId == SkillId(c) && row == NewSkillRow(c, p.call) && FindSkill(db, CallKey(p.call)).None?
  }

  predicate Inserting(pc: Pc) {
    pc.Insert? || pc.UpdateLatest? || pc.CommitNew?
  }

  function VersionsWritten(c: CallId, p: Proc): map<Uuid, VersionRow>
    requires p.call.Publish?
  {
    if p.pc.UpdateLatest? || p.pc.CommitNew? then map[VersionId(c) := NewVersionRow(c, p.call, p.skillId)] else map[]
  }

  /** Where a publish stands once it has its lock: what it wrote, and what it knows of the committed rows. */
  ghost predicate InTransaction(db: Tables, c: CallId, p: Proc) {
    && p.call.Publish? && !p.pc.ReRead?
    && SkillWritten(db, c, p)
    && p.writes.versions == VersionsWritten(c, p)
    && (Inserting(p.pc) ==> FindVersion(db, p.skillId, p.call.VersionText()).None?)
    && (p.pc.CommitRepeat? ==> p.skillId in db.skills)
  }

  /** The skill rows it wrote are its own or the committed one, and its version rows are for that skill. */
  ghost predicate WritesLocal(db: Tables, c: CallId, p: Proc) {
    && (forall id | id in p.writes.skills ::
          && KeyOf(p.writes.skills[id]) == CallKey(p.call)
          && (id == SkillId(c) || SkillAt(db, CallKey(p.call), id)))
    && (forall v | v in p.writes.versions :: p.writes.versions[v].skillId in p.writes.skills)
  }

  ghost predicate ProcOk(db: Tables, c: CallId, p: Proc) {
    match p.pc
    case Start => p.writes == Empty
    case Done(_) => p.writes == Empty
    case RollingBack(_) => WritesLocal(db, c, p)
    case _ => InTransaction(db, c, p)
  }

  /** Nothing but a finished publish has put a row with its ids into the tables. */
  ghost predicate Minted(db: Tables, procs: map<CallId, Proc>) {
    && (forall id | id in db.skills :: id.SkillId? && id.call in procs && procs[id.call].pc.Done?)
    && (forall id | id in db.versions ::
          && id.VersionId? && id.call in procs && procs[id.call].call.Publish?
          && procs[id.call].pc == Done(Recorded(NewRecord(id.call, procs[id.call].call)))
          && Immutable(db.versions[id]) == NewVersionRow(id.call, procs[id.call].call, db.versions[id].skillId))
  }

  predicate Holding(p: Proc) {
    p.writes.skills != map[]
  }

  /** At most one open transaction works on a given skill. */
  ghost predicate Exclusive(procs: map<CallId, Proc>) {
    forall c, d | c in procs && d in procs && Holding(procs[c]) && Holding(procs[d]) ::
      CallKey(procs[c].call) == CallKey(procs[d].call) ==> c == d
  }

  ghost predicate Inv(s: State) {
    && DbOk(s.db)
    && Minted(s.db, s.procs)
    && Exclusive(s.procs)
    && (forall c | c in s.procs :: ProcOk(s.db, c, s.procs[c]))
  }
}
