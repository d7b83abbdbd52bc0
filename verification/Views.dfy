/** The views in every state that the running service can reach, told in terms of the calls so far. */
module Views {
  import opened Wrappers
  import opened Sequences
  import opened Model
  import opened Tables
  import opened Registry
  import opened History
  import opened Protocol
  import opened Runs
  import opened Service
  import opened Admission
  import opened Index
  import opened Gates

  /** A registry entry that the index of this namespace should list. */
  predicate Listed(reg: Registry, namespace: string, key: ReleaseKey) {
    && key in reg.releases && key.skill in reg.skills && key.skill.namespace == namespace
    && reg.skills[key.skill].visibility == Public && reg.releases[key].yankedAt.None?
  }

  function ReleaseHit(registry: string, key: ReleaseKey, r: Release): CompatibilitySkillHit {
    CompatibilitySkillHit(
      key.skill.name, key.version, r.manifest.description, registry, Some(r.digest), r.signature, r.publicKey)
  }

  lemma RowIsListed(db: Tables, reg: Registry, namespace: string, row: JoinedRow)
    requires Represents(db, reg) && IsPublicIn(db, namespace, row)
    ensures var key := ReleaseKey(KeyOf(row.skill), row.version.version);
      Listed(reg, namespace, key) && ReleaseHit(namespace, key, reg.releases[key]) == HitOf(namespace, row)
  {
    var key := ReleaseKey(KeyOf(row.skill), row.version.version);
    assert ReleaseAt(db, key, row.version.id);
    assert reg.releases[key] == ReleaseOf(row.version);
    assert reg.skills[key.skill] == InfoOf(row.skill);
  }

  lemma ListedHasRow(db: Tables, reg: Registry, namespace: string, key: ReleaseKey) returns (row: JoinedRow)
    requires KeysOk(db) && Represents(db, reg) && Listed(reg, namespace, key)
    ensures IsPublicIn(db, namespace, row) && HitOf(namespace, row) == ReleaseHit(namespace, key, reg.releases[key])
  {
    var id :| ReleaseAt(db, key, id);
    row := JoinedRow(db.skills[db.versions[id].skillId], db.versions[id]);
    assert KeyOf(row.skill) == key.skill;
  }

  /** These hits are the registry's public, unyanked releases of the namespace, all of them and nothing else. */
  ghost predicate Shows(skills: seq<CompatibilitySkillHit>, reg: Registry, namespace: string) {
    forall h :: h in skills <==> exists key :: Listed(reg, namespace, key) && ReleaseHit(namespace, key, reg.releases[key]) == h
  }

  lemma IndexShowsRegistry(db: Tables, reg: Registry, namespace: string, rows: seq<JoinedRow>)
    requires DbOk(db) && Represents(db, reg) && Lists(rows, PublicRowsIn(db, namespace))
    ensures Shows(IndexOf(namespace, rows), reg, namespace)
  {
    ListedIn(db, namespace, rows);
    forall h ensures h in IndexOf(namespace, rows) <==>
      exists key :: Listed(reg, namespace, key) && ReleaseHit(namespace, key, reg.releases[key]) == h
    {
      IndexMembers(namespace, rows, h);
      if row :| row in rows && HitOf(namespace, row) == h {
        RowIsListed(db, reg, namespace, row);
      }
      if key :| Listed(reg, namespace, key) && ReleaseHit(namespace, key, reg.releases[key]) == h {
        var row := ListedHasRow(db, reg, namespace, key);
        assert row in rows;
      }
    }
  }

  /** Whether a call that took effect leaves this release listed. */
  predicate ListedAfter(reg: Registry, call: Call, namespace: string, key: ReleaseKey) {
    if key != CallRelease(call) then Listed(reg, namespace, key)
    else
      match call
      case Yank(_, _, _, _, _) => false
      case Unyank(_, _, _) =>
        key in reg.releases && key.skill in reg.skills && namespace == call.namespace
        && reg.skills[key.skill].visibility == Public
      case Publish(_, visibility, _, _, _) =>
        if key in reg.releases then Listed(reg, namespace, key)
        else
          namespace == call.namespace
          && (if key.skill in reg.skills then reg.skills[key.skill].visibility else visibility) == Public
  }

  /** Every release belongs to a skill. */
  ghost predicate Consistent(reg: Registry) {
    forall key | key in reg.releases :: key.skill in reg.skills
  }

  lemma {:induction false} ReplayConsistent(points: seq<Event>)
    requires AllTook(points)
    ensures Consistent(Replay(points))
  {
    if points != [] {
      ReplayConsistent(points[..|points| - 1]);
    }
  }

  /**
   * A yank takes its version off the index, an unyank puts it back if the skill is public, a new publish adds
   * it if the skill is (or, for a new skill, was asked to be) public; a repeat does not even undo a yank.
   * Everything else stays as it was.
   */
  lemma CallMovesListing(reg: Registry, c: CallId, call: Call, namespace: string, key: ReleaseKey)
    requires Consistent(reg)
    ensures Listed(Perform(reg, c, call).0, namespace, key) <==> ListedAfter(reg, call, namespace, key)
  {
  }

  /**
   * In every state of every run of the service, and for every order in which the database may return the
   * rows, the index of a namespace is strictly increasing and lists what the calls that have taken effect,
   * performed one after another, leave public and unyanked.
   */
  lemma ReachableIndex(
      cfg: Config, states: seq<ServiceState>, labels: seq<ServiceLabel>, n: nat, namespace: string,
      rows: seq<JoinedRow>)
    requires IsServiceRun(HubGate(cfg), states, labels) && n < |states|
    requires Lists(rows, PublicRowsIn(states[n].hub.db, namespace))
    ensures Increasing(IndexOf(namespace, rows))
    ensures Shows(IndexOf(namespace, rows), Replay(Points(states[n].hub.history)), namespace)
  {
    var (db, reg) := (states[n].hub.db, Replay(Points(states[n].hub.history)));
    StoredVersionsParse(cfg, states, labels, n);
    RunExplained(cfg, states, labels, n);
    NamespaceIndexStrict(db, namespace, rows);
    IndexShowsRegistry(db, reg, namespace, rows);
  }

  lemma RunExplained(cfg: Config, states: seq<ServiceState>, labels: seq<ServiceLabel>, n: nat)
    requires IsServiceRun(HubGate(cfg), states, labels) && n < |states|
    ensures Represents(states[n].hub.db, Replay(Points(states[n].hub.history)))
  {
    ServiceRunInv(HubGate(cfg), states, labels, n);
  }

  /** One step of the service takes the listing from `reg` to `next`: a call took effect, or nothing changed. */
  ghost predicate ListingMoves(s: ServiceState, l: ServiceLabel, reg: Registry, next: Registry, namespace: string) {
    || next == reg
    || (l.Hub? && exists e ::
          TakesEffect(s.hub, l.step, e)
          && forall key :: Listed(next, namespace, key) <==> ListedAfter(reg, e.call, namespace, key))
  }

  lemma PointsMove(s: ServiceState, l: Label, namespace: string)
    requires CanTake(s.hub, l)
    ensures ListingMoves(
      s, Hub(l), Replay(Points(s.hub.history)), Replay(Points(Take(s.hub, l).history)), namespace)
  {
    var points := Points(s.hub.history);
    var more := StepPoints(s.hub, l);
    if more == [] {
      assert points + more == points;
    } else {
      var e := more[0];
      assert points + more == points + [e];
      ReplaySnoc(points, e);
      ReplayConsistent(points);
      assert TakesEffect(s.hub, l, e);
      forall key ensures Listed(Replay(points + [e]), namespace, key) <==> ListedAfter(Replay(points), e.call, namespace, key) {
        CallMovesListing(Replay(points), e.id, e.call, namespace, key);
      }
    }
  }

  lemma StepMovesListing(gate: Gate, s: ServiceState, l: ServiceLabel, namespace: string)
    requires CanDo(s, l)
    ensures ListingMoves(
      s, l, Replay(Points(s.hub.history)), Replay(Points(Do(gate, s, l).hub.history)), namespace)
  {
    match l
    case Hub(step) => PointsMove(s, step, namespace);
    case Arrive(c, request) =>
      if gate(request).Ok? {
        var more := StepPoints(s.hub, Invoke(c, gate(request).value));
        assert Points(s.hub.history) + more == Points(s.hub.history);
      }
    case Deliver(_) =>
    case Poison =>
  }

  /**
   * From one state of a run of the service to the next, the index of a namespace changes as the one call
   * that took effect, if any, has it: its version comes off, comes back, is added, or nothing happens.
   */
  lemma ReachableIndexMoves(
      cfg: Config, states: seq<ServiceState>, labels: seq<ServiceLabel>, n: nat, namespace: string,
      rows: seq<JoinedRow>, after: seq<JoinedRow>)
    requires IsServiceRun(HubGate(cfg), states, labels) && n < |labels|
    requires Lists(rows, PublicRowsIn(states[n].hub.db, namespace))
    requires Lists(after, PublicRowsIn(states[n + 1].hub.db, namespace))
    ensures var (reg, next) := (Replay(Points(states[n].hub.history)), Replay(Points(states[n + 1].hub.history)));
      && Shows(IndexOf(namespace, rows), reg, namespace) && Shows(IndexOf(namespace, after), next, namespace)
      && ListingMoves(states[n], labels[n], reg, next, namespace)
  {
    ReachableIndex(cfg, states, labels, n, namespace, rows);
    ReachableIndex(cfg, states, labels, n + 1, namespace, after);
    StepMovesListing(HubGate(cfg), states[n], labels[n], namespace);
  }

  /** And two such orders give the same index; the global one is the namespaces' together, sorted. */
  lemma ReachableViewsAgree(
      cfg: Config, states: seq<ServiceState>, labels: seq<ServiceLabel>, n: nat, registry: string,
      rows: seq<JoinedRow>, namespaces: seq<string>, listings: seq<seq<JoinedRow>>, others: seq<seq<JoinedRow>>)
    requires IsServiceRun(HubGate(cfg), states, labels) && n < |states|
    requires Lists(rows, PublicRows(states[n].hub.db)) && Distinct(namespaces)
    requires ListsEach(states[n].hub.db, namespaces, listings) && ListsEach(states[n].hub.db, namespaces, others)
    requires forall id | id in states[n].hub.db.skills :: states[n].hub.db.skills[id].namespace in namespaces
    ensures forall i | 0 <= i < |namespaces| :: IndexOf(namespaces[i], listings[i]) == IndexOf(namespaces[i], others[i])
    ensures NonDecreasing(IndexOf(registry, rows))
    ensures multiset(Map(Unlabel, IndexOf(registry, rows))) == Together(IndexEach(namespaces, listings))
  {
    var db := states[n].hub.db;
    StoredVersionsParse(cfg, states, labels, n);
    forall i | 0 <= i < |namespaces| ensures IndexOf(namespaces[i], listings[i]) == IndexOf(namespaces[i], others[i]) {
      NamespaceIndexIgnoresOrder(db, namespaces[i], listings[i], others[i]);
    }
    GlobalIndexIsTheUnion(db, registry, rows, namespaces, listings);
  }
}
