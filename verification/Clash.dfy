/**
 * Two namespaces with one name and version: a run of the service that gets there, and what the views then
 * show.
 */
module Clash {
  import opened Wrappers
  import opened Model
  import opened Tables
  import opened Registry
  import opened Protocol
  import opened Service
  import opened Sequences
  import opened Index
  import Admission
  import Artifacts
  import Auth
  import Digest
  import Gates
  import IndexSearch
  import Search
  import SemVer
  import SkillPath
  import Text

  // ----- a publish with nobody else about

  /** The tables after a publish of a skill that was not there. */
  function Added(db: Tables, c: CallId, call: Call): Tables
    requires call.Publish?
  {
    Tables(db.skills[SkillId(c) := NewSkillRow(c, call)], db.versions[VersionId(c) := NewVersionRow(c, call, SkillId(c))])
  }

  /** The ids of the call and the key of its skill are free. */
  ghost predicate Free(db: Tables, c: CallId, call: Call) {
    && KeysOk(db) && call.Publish? && SkillId(c) !in db.skills && VersionId(c) !in db.versions
    && forall id | id in db.skills :: KeyOf(db.skills[id]) != CallKey(call)
  }

  /** The call before each of its statements: what it has written by then. */
  function Progress(c: CallId, call: Call, step: nat): Proc
    requires call.Publish? && step <= 5
  {
    var skill := map[SkillId(c) := NewSkillRow(c, call)];
    var version := map[VersionId(c) := NewVersionRow(c, call, SkillId(c))];
    match step
    case 0 => Proc(call, Start, SkillId(c), Empty)
    case 1 => Proc(call, Read, SkillId(c), Tables(skill, map[]))
    case 2 => Proc(call, Insert, SkillId(c), Tables(skill, map[]))
    case 3 => Proc(call, UpdateLatest, SkillId(c), Tables(skill, version))
    case 4 => Proc(call, CommitNew, SkillId(c), Tables(skill, version))
    case _ => Proc(call, Done(Recorded(NewRecord(c, call))), SkillId(c), Empty)
  }

  lemma NoVersionYet(db: Tables, c: CallId, call: Call)
    requires Free(db, c, call)
    ensures FindVersion(Visible(db, Progress(c, call, 1).writes), SkillId(c), call.VersionText()).None?
  {
  }

  lemma EarlyStatements(db: Tables, c: CallId, call: Call, step: nat)
    requires Free(db, c, call) && step < 3
    ensures Run(db, c, Progress(c, call, step)).proc == Progress(c, call, step + 1)
    ensures Run(db, c, Progress(c, call, step)).db == db
  {
    NoVersionYet(db, c, call);
    if step == 0 {
      assert FindSkill(db, CallKey(call)).None?;
    }
  }

  lemma UpdateRuns(db: Tables, c: CallId, call: Call)
    requires Free(db, c, call)
    ensures Run(db, c, Progress(c, call, 3)).proc == Progress(c, call, 4) && Run(db, c, Progress(c, call, 3)).db == db
  {
  }

  lemma VisibleAdded(db: Tables, c: CallId, call: Call)
    requires Free(db, c, call)
    ensures Visible(db, Progress(c, call, 4).writes) == Added(db, c, call)
  {
  }

  lemma CommitRuns(db: Tables, c: CallId, call: Call)
    requires Free(db, c, call)
    ensures Run(db, c, Progress(c, call, 4)).proc == Progress(c, call, 5)
    ensures Run(db, c, Progress(c, call, 4)).db == Added(db, c, call)
  {
    VisibleAdded(db, c, call);
  }

  lemma StatementRuns(db: Tables, c: CallId, call: Call, step: nat)
    requires Free(db, c, call) && step < 5
    ensures Run(db, c, Progress(c, call, step)).proc == Progress(c, call, step + 1)
    ensures Run(db, c, Progress(c, call, step)).db == if step == 4 then Added(db, c, call) else db
  {
    if step < 3 {
      EarlyStatements(db, c, call, step);
    } else if step == 3 {
      UpdateRuns(db, c, call);
    } else {
      CommitRuns(db, c, call);
    }
  }

  // ----- runs of the service

  datatype Trace = Trace(states: seq<ServiceState>, labels: seq<ServiceLabel>)

  ghost predicate IsTrace(gate: Gate, t: Trace) {
    IsServiceRun(gate, t.states, t.labels)
  }

  function Last(t: Trace): ServiceState
    requires t.states != []
  {
    t.states[|t.states| - 1]
  }

  lemma Continue(gate: Gate, t: Trace, l: ServiceLabel) returns (next: Trace)
    requires IsTrace(gate, t) && CanDo(Last(t), l)
    ensures IsTrace(gate, next) && Last(next) == Do(gate, Last(t), l)
  {
    next := Trace(t.states + [Do(gate, Last(t), l)], t.labels + [l]);
  }

  /** No call other than this has anything open. */
  ghost predicate Alone(hub: State, c: CallId) {
    forall d | d in hub.procs && d != c :: hub.procs[d].writes == Empty
  }

  lemma AloneIsEnabled(hub: State, c: CallId)
    requires Alone(hub, c) && Unfinished(hub, c)
    ensures Enabled(hub, c)
  {
    forall d ensures !WaitsFor(hub, c, d) {
      if d in hub.procs && d != c {
        assert hub.procs[d].writes == Empty;
      }
    }
  }

  /** The state holds these tables and these calls. */
  predicate Holds(s: ServiceState, db: Tables, procs: map<CallId, Proc>, entries: map<CallId, Entry>) {
    s.hub.db == db && s.hub.procs == procs && s.entries == entries
  }

  lemma RunStatement(
      gate: Gate, t: Trace, db: Tables, procs: map<CallId, Proc>, entries: map<CallId, Entry>, c: CallId, call: Call,
      step: nat)
    returns (next: Trace)
    requires IsTrace(gate, t) && Free(db, c, call) && step < 5
    requires Holds(Last(t), db, procs[c := Progress(c, call, step)], entries) && Alone(Last(t).hub, c)
    ensures IsTrace(gate, next) && Alone(Last(next).hub, c)
    ensures Holds(
      Last(next), if step == 4 then Added(db, c, call) else db, procs[c := Progress(c, call, step + 1)], entries)
  {
    AloneIsEnabled(Last(t).hub, c);
    StatementRuns(db, c, call, step);
    next := Continue(gate, t, Hub(Advance(c)));
    assert procs[c := Progress(c, call, step)][c := Progress(c, call, step + 1)] == procs[c := Progress(c, call, step + 1)];
  }

  lemma {:induction false} RunStatements(
      gate: Gate, t: Trace, db: Tables, procs: map<CallId, Proc>, entries: map<CallId, Entry>, c: CallId, call: Call,
      step: nat)
    returns (next: Trace)
    requires IsTrace(gate, t) && Free(db, c, call) && step < 5
    requires Holds(Last(t), db, procs[c := Progress(c, call, step)], entries) && Alone(Last(t).hub, c)
    ensures IsTrace(gate, next)
    ensures Holds(Last(next), Added(db, c, call), procs[c := Progress(c, call, 5)], entries)
    decreases 5 - step
  {
    next := RunStatement(gate, t, db, procs, entries, c, call, step);
    if step < 4 {
      next := RunStatements(gate, next, db, procs, entries, c, call, step + 1);
    }
  }

  /** A run can go on with a whole publish of a new skill. */
  lemma PublishNext(gate: Gate, t: Trace, c: CallId, r: Request, call: Call) returns (next: Trace)
    requires IsTrace(gate, t) && gate(r) == Ok(call) && Free(Last(t).hub.db, c, call)
    requires c !in Last(t).entries && c !in Last(t).hub.procs && Alone(Last(t).hub, c)
    ensures IsTrace(gate, next)
    ensures Holds(
      Last(next), Added(Last(t).hub.db, c, call), Last(t).hub.procs[c := Progress(c, call, 5)],
      Last(t).entries[c := Entry(r, Working)])
  {
    var s := Last(t);
    next := Continue(gate, t, Arrive(c, r));
    next := RunStatements(gate, next, s.hub.db, s.hub.procs, s.entries[c := Entry(r, Working)], c, call, 0);
  }

  // ----- the two publishes

  /** Two requests for public versions of one name and version text in two namespaces. */
  predicate Rivals(a: Request, b: Request) {
    && a.PublishRequest? && b.PublishRequest? && a.visibility == Public && b.visibility == Public
    && a.namespace != b.namespace
    && a.body.manifest.name == b.body.manifest.name && a.body.manifest.version == b.body.manifest.version
  }

  /** A public row that this request put there. */
  ghost predicate HasRow(db: Tables, r: Request, row: JoinedRow)
    requires r.PublishRequest?
  {
    && IsPublic(db, row) && row.skill.namespace == r.namespace && row.skill.name == r.body.manifest.name
    && row.version.version == r.body.manifest.version && row.version.digest == r.body.artifact.digest
    && row.version.manifest == r.body.manifest
  }

  lemma AddedKeepsKeys(db: Tables, c: CallId, call: Call)
    requires Free(db, c, call)
    ensures KeysOk(Added(db, c, call))
  {
  }

  lemma AddedRow(db: Tables, c: CallId, call: Call, r: Request)
    requires Free(db, c, call) && CarriesOut(r, call) && r.visibility == Public
    ensures HasRow(Added(db, c, call), r, JoinedRow(NewSkillRow(c, call), NewVersionRow(c, call, SkillId(c))))
  {
  }

  lemma AddedKeepsRow(db: Tables, c: CallId, call: Call, r: Request, row: JoinedRow)
    requires Free(db, c, call) && r.PublishRequest? && HasRow(db, r, row)
    ensures HasRow(Added(db, c, call), r, row)
  {
  }

  /** Whatever the gate, if it lets rivals in, a run reaches a state in which both are public. */
  lemma RivalsMeet(gate: Gate, a: Request, b: Request) returns (t: Trace, x: JoinedRow, y: JoinedRow)
    requires Honest(gate) && gate(a).Ok? && gate(b).Ok? && Rivals(a, b)
    ensures IsTrace(gate, t) && KeysOk(Last(t).hub.db)
    ensures HasRow(Last(t).hub.db, a, x) && HasRow(Last(t).hub.db, b, y)
  {
    var first, second := gate(a).value, gate(b).value;
    assert CarriesOut(a, first) && CarriesOut(b, second);
    t := PublishNext(gate, Trace([Fresh], []), 0, a, first);
    var db := Added(Empty, 0, first);
    AddedRow(Empty, 0, first, a);
    AddedKeepsKeys(Empty, 0, first);
    t := PublishNext(gate, t, 1, b, second);
    x := JoinedRow(NewSkillRow(0, first), NewVersionRow(0, first, SkillId(0)));
    y := JoinedRow(NewSkillRow(1, second), NewVersionRow(1, second, SkillId(1)));
    AddedRow(db, 1, second, b);
    AddedKeepsRow(db, 1, second, a, x);
    AddedKeepsKeys(db, 1, second);
  }

  // ----- what the views then show

  /** The index lists a hit that the record served for its name and version contradicts. */
  ghost predicate Contradicts(
      registry: string, rows: seq<JoinedRow>, listing: seq<JoinedRow>, name: string, version: string) {
    && Artifacts.PublicVersionByName(rows, name, version).Ok?
    && exists h ::
        && h in IndexOf(registry, listing) && HitFor(h, name, version)
        && !Artifacts.Agrees(h, Artifacts.PublicVersionByName(rows, name, version).value)
  }

  /** So it is for every order of the rows. */
  ghost predicate LookupErrs(db: Tables, registry: string, name: string, version: string) {
    forall rows, listing | Lists(rows, PublicRows(db)) && Lists(listing, PublicRows(db)) ::
      Contradicts(registry, rows, listing, name, version)
  }

  lemma ContradictedHit(
      db: Tables, registry: string, rows: seq<JoinedRow>, listing: seq<JoinedRow>, name: string, version: string,
      x: JoinedRow)
    requires Lists(rows, PublicRows(db)) && Lists(listing, PublicRows(db))
    requires IsPublicNamed(db, name, version, x) && !Artifacts.NamespacesAgree(db, name, version)
    ensures Contradicts(registry, rows, listing, name, version)
  {
    Artifacts.LookupFindsSome(db, rows, name, version, x);
    Artifacts.RecordAgreesExactly(db, registry, rows, listing, name, version);
  }

  lemma RivalsDisagree(db: Tables, a: Request, b: Request, x: JoinedRow, y: JoinedRow)
    requires Rivals(a, b) && HasRow(db, a, x) && HasRow(db, b, y)
    requires a.body.artifact.digest != b.body.artifact.digest
    ensures IsPublicNamed(db, a.body.manifest.name, a.body.manifest.version, x)
    ensures !Artifacts.NamespacesAgree(db, a.body.manifest.name, a.body.manifest.version)
  {
    assert IsPublicNamed(db, a.body.manifest.name, a.body.manifest.version, y);
  }

  lemma RivalsMislead(db: Tables, registry: string, a: Request, b: Request, x: JoinedRow, y: JoinedRow)
    requires Rivals(a, b) && HasRow(db, a, x) && HasRow(db, b, y)
    requires a.body.artifact.digest != b.body.artifact.digest
    ensures LookupErrs(db, registry, a.body.manifest.name, a.body.manifest.version)
  {
    var name, version := a.body.manifest.name, a.body.manifest.version;
    RivalsDisagree(db, a, b, x, y);
    forall rows, listing | Lists(rows, PublicRows(db)) && Lists(listing, PublicRows(db))
      ensures Contradicts(registry, rows, listing, name, version)
    {
      ContradictedHit(db, registry, rows, listing, name, version, x);
    }
  }

  lemma RivalsMissed(
      db: Tables, registry: string, fold: Search.Fold, terms: string, a: Request, b: Request, x: JoinedRow, y: JoinedRow)
    requires KeysOk(db) && Rivals(a, b) && HasRow(db, a, x) && HasRow(db, b, y)
    requires a.body.artifact.digest != b.body.artifact.digest
    requires fold(Text.Trim(terms)) != "" && Text.Contains(fold(a.body.manifest.name), fold(Text.Trim(terms)))
    ensures !IndexSearch.AlwaysExact(db, registry, fold, terms)
  {
    assert IndexSearch.Scores(fold, fold(Text.Trim(terms)))(HitOf("", x));
    assert HitFor(HitOf("", y), x.skill.name, x.version.version) && HitOf("", x) != HitOf("", y);
    IndexSearch.GlobalSearchExactly(db, registry, fold, terms);
  }

  /** The two together, for any rivals with different digests that the gate lets in. */
  lemma RivalsClash(gate: Gate, registry: string, fold: Search.Fold, terms: string, a: Request, b: Request)
    returns (t: Trace)
    requires Honest(gate) && gate(a).Ok? && gate(b).Ok? && Rivals(a, b)
    requires a.body.artifact.digest != b.body.artifact.digest
    requires fold(Text.Trim(terms)) != "" && Text.Contains(fold(a.body.manifest.name), fold(Text.Trim(terms)))
    ensures IsTrace(gate, t)
    ensures LookupErrs(Last(t).hub.db, registry, a.body.manifest.name, a.body.manifest.version)
    ensures !IndexSearch.AlwaysExact(Last(t).hub.db, registry, fold, terms)
  {
    var x, y;
    t, x, y := RivalsMeet(gate, a, b);
    RivalsMislead(Last(t).hub.db, registry, a, b, x, y);
    RivalsMissed(Last(t).hub.db, registry, fold, terms, a, b, x, y);
  }

  // ----- such requests pass

  /** A request to publish `a` 1.0.0, unsigned, by a publisher of the namespace, for an artifact of these bytes. */
  function Sample(cfg: Gates.Config, namespace: string, url: string, bytes: seq<Digest.byte>): Request {
    PublishRequest(
      Auth.AuthContext(Some("dev"), {"skills:publish"}, map[namespace := {Auth.Publisher}]), namespace, Public,
      PublishSkillRequest(
        SkillManifest("a", "1.0.0", None, "a", []),
        ArtifactPointer(url, "application/zstd", Digest.PREFIX + Digest.HexEncode(cfg.hash(bytes))), None, None, None),
      Some(bytes), 0)
  }

  lemma SampleFields()
    ensures SemVer.Parse("1.0.0").Some? && SkillPath.IsSafe("a") && Gates.IsSkillName("a")
  {
    var v := SemVer.Version(1, 0, 0, "", "");
    assert SemVer.ToText(1) == "1" && SemVer.ToText(0) == "0";
    assert SemVer.PrintField(0, "0") == "0.0";
    assert SemVer.Print(v) == "1.0.0" by {
      assert SemVer.PrintTail("", "") == "";
    }
    SemVer.ParsePrint(v);
    Text.SplitAtom("a", '/');
    assert SkillPath.Named(["a"]) == ["a"];
  }

  lemma SampleArtifact(cfg: Gates.Config, namespace: string, url: string, bytes: seq<Digest.byte>)
    ensures var r := Sample(cfg, namespace, url, bytes);
      Digest.IsDigest(r.body.artifact.digest) && Gates.ArtifactMatches(cfg, r.body, r.fetched)
  {
    var digest := Digest.PREFIX + Digest.HexEncode(cfg.hash(bytes));
    Digest.ComputedDigestIsNormal(cfg.hash(bytes));
    Digest.DecodeInvertsEncode(cfg.hash(bytes));
    assert digest[|Digest.PREFIX|..] == Digest.HexEncode(cfg.hash(bytes));
  }

  lemma SampleWellFormed(cfg: Gates.Config, namespace: string, url: string, bytes: seq<Digest.byte>)
    requires cfg.urlOk(url) && Gates.IsNamespace(namespace)
    ensures Gates.WellFormedRequest(cfg, namespace, Sample(cfg, namespace, url, bytes).body)
  {
    SampleFields();
    SampleArtifact(cfg, namespace, url, bytes);
  }

  lemma SampleMayPublish(cfg: Gates.Config, namespace: string, url: string, bytes: seq<Digest.byte>)
    ensures Gates.MayPublish(Sample(cfg, namespace, url, bytes).auth, namespace)
  {
  }

  lemma SampleTrusted(cfg: Gates.Config, namespace: string, url: string, bytes: seq<Digest.byte>)
    requires cfg.allowUnsigned
    ensures Gates.Trusted(cfg, Sample(cfg, namespace, url, bytes).body)
  {
  }

  lemma SampleAdmitted(cfg: Gates.Config, namespace: string, url: string, bytes: seq<Digest.byte>)
    requires cfg.allowUnsigned && cfg.urlOk(url) && Gates.IsNamespace(namespace)
    ensures Admission.HubGate(cfg)(Sample(cfg, namespace, url, bytes)).Ok?
  {
    SampleMayPublish(cfg, namespace, url, bytes);
    SampleWellFormed(cfg, namespace, url, bytes);
    SampleArtifact(cfg, namespace, url, bytes);
    SampleTrusted(cfg, namespace, url, bytes);
    Admission.VettedIsAdmitted(cfg, Sample(cfg, namespace, url, bytes));
  }

  lemma SampleRivals(
      cfg: Gates.Config, namespaces: (string, string), url: string, p: seq<Digest.byte>, q: seq<Digest.byte>)
    requires cfg.hash(p) != cfg.hash(q) && namespaces.0 != namespaces.1
    ensures var (a, b) := (Sample(cfg, namespaces.0, url, p), Sample(cfg, namespaces.1, url, q));
      Rivals(a, b) && a.body.artifact.digest != b.body.artifact.digest
  {
    var x, y := Digest.HexEncode(cfg.hash(p)), Digest.HexEncode(cfg.hash(q));
    Digest.DecodeInvertsEncode(cfg.hash(p));
    Digest.DecodeInvertsEncode(cfg.hash(q));
    assert (Digest.PREFIX + x)[|Digest.PREFIX|..] == x && (Digest.PREFIX + y)[|Digest.PREFIX|..] == y;
  }

  lemma SampleText()
    ensures Text.Trim("a") == "a" && Text.Contains("a", "a")
  {
    assert Text.OccursAt("a", "a", 0);
  }

  /**
   * In a deployment that allows unsigned artifacts, two namespaces that publish two archives of different
   * hash as one name and version bring the service to a state in which the artifact served contradicts a hit
   * of the index, and in some order of the rows a search for the name does not find exactly the matching hits.
   */
  lemma ClashReached(
      cfg: Gates.Config, registry: string, fold: Search.Fold, namespaces: (string, string), url: string,
      p: seq<Digest.byte>, q: seq<Digest.byte>)
    returns (t: Trace)
    requires cfg.allowUnsigned && cfg.urlOk(url) && cfg.hash(p) != cfg.hash(q) && fold("a") == "a"
    requires Gates.IsNamespace(namespaces.0) && Gates.IsNamespace(namespaces.1) && namespaces.0 != namespaces.1
    ensures IsTrace(Admission.HubGate(cfg), t)
    ensures LookupErrs(Last(t).hub.db, registry, "a", "1.0.0")
    ensures !IndexSearch.AlwaysExact(Last(t).hub.db, registry, fold, "a")
  {
    SampleAdmitted(cfg, namespaces.0, url, p);
    SampleAdmitted(cfg, namespaces.1, url, q);
    SampleRivals(cfg, namespaces, url, p, q);
    SampleText();
    t := RivalsClash(
      Admission.HubGate(cfg), registry, fold, "a", Sample(cfg, namespaces.0, url, p), Sample(cfg, namespaces.1, url, q));
  }
}
