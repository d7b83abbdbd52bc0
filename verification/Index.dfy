/** The compatibility index, the artifact lookup and what they must agree on. */
module Index {
  import opened Wrappers
  import opened Orders
  import opened Sorting
  import opened Sequences
  import opened Model
  import opened Tables
  import SemVer
  import Precedence
  import Admission

  /** A row of `skills s JOIN skill_versions sv ON sv.skill_id = s.id`. */
  datatype JoinedRow = JoinedRow(skill: SkillRow, version: VersionRow)

  predicate Joined(db: Tables, row: JoinedRow) {
    && row.version.id in db.versions && db.versions[row.version.id] == row.version
    && row.version.skillId in db.skills && db.skills[row.version.skillId] == row.skill
  }

  /** `s.visibility = 'public' AND sv.yanked_at IS NULL`. */
  predicate IsPublic(db: Tables, row: JoinedRow) {
    Joined(db, row) && row.skill.visibility == Public && row.version.yankedAt.None?
  }

  predicate IsPublicIn(db: Tables, namespace: string, row: JoinedRow) {
    IsPublic(db, row) && row.skill.namespace == namespace
  }

  predicate IsPublicNamed(db: Tables, name: string, version: string, row: JoinedRow) {
    IsPublic(db, row) && row.skill.name == name && row.version.version == version
  }

  function PublicRows(db: Tables): JoinedRow -> bool {
    row => IsPublic(db, row)
  }

  function PublicRowsIn(db: Tables, namespace: string): JoinedRow -> bool {
    row => IsPublicIn(db, namespace, row)
  }

  function HitOf(registry: string, row: JoinedRow): CompatibilitySkillHit {
    CompatibilitySkillHit(
      row.skill.name, row.version.version, row.version.manifest.description, registry, Some(row.version.digest),
      row.version.signature, row.version.publicKey)
  }

  predicate HitFor(h: CompatibilitySkillHit, name: string, version: string) {
    h.name == name && h.version == version
  }

  function Labelled(registry: string): JoinedRow -> CompatibilitySkillHit {
    row => HitOf(registry, row)
  }

  /** By name, then by version. */
  function CompareHits(a: CompatibilitySkillHit, b: CompatibilitySkillHit): Ordering {
    Compare(a.name, b.name).Then(SemVer.CompareVersions(a.version, b.version))
  }

  /** `compatibility_index` and `compatibility_index_for_namespace` on the rows the database returned, in its order. */
  function IndexOf(registry: string, rows: seq<JoinedRow>): seq<CompatibilitySkillHit> {
    SortBy(CompareHits, Map(Labelled(registry), rows))
  }

  /** The same, as the two methods do it: collect the hits, then sort them in place. */
  method CollectAndSort(registry: string, rows: seq<JoinedRow>) returns (skills: seq<CompatibilitySkillHit>)
    ensures skills == IndexOf(registry, rows)
  {
    var hits := new CompatibilitySkillHit[|rows|](i requires 0 <= i < |rows| => HitOf(registry, rows[i]));
    MapAt(Labelled(registry), rows);
    assert hits[..] == Map(Labelled(registry), rows);
    SortInPlace(CompareHits, hits);
    skills := hits[..];
  }

  // ----- the comparator

  predicate Parses(hit: CompatibilitySkillHit) {
    SemVer.Parse(hit.version).Some?
  }

  lemma HitsTie(a: CompatibilitySkillHit, b: CompatibilitySkillHit)
    ensures CompareHits(a, b) == Equal <==> a.name == b.name && a.version == b.version
    ensures CompareHits(b, a) == CompareHits(a, b).Flip()
  {
    CompareTotal();
    Precedence.ComparatorFlips(a.version, b.version);
    assert Compare(b.name, a.name) == Compare(a.name, b.name).Flip();
    assert Compare(a.name, b.name) == Equal <==> a.name == b.name;
  }

  lemma VersionsOrdered(a: string, b: string, c: string)
    requires SemVer.Parse(a).Some? && SemVer.Parse(b).Some? && SemVer.Parse(c).Some?
    requires SemVer.CompareVersions(a, b) != Greater && SemVer.CompareVersions(b, c) != Greater
    ensures SemVer.CompareVersions(a, c) != Greater
  {
    Precedence.ComparatorIsStrictTotal(a, b, c);
    Precedence.ComparatorFlips(b, c);
    Precedence.ComparatorFlips(a, c);
  }

  lemma NamesOrdered(a: string, b: string, c: string)
    ensures Compare(a, b) == Equal <==> a == b
    ensures Compare(a, b) != Greater && Compare(b, c) != Greater && (a != b || b != c) ==> Compare(a, c) == Less
  {
    CompareTotal();
    assert Compare(a, b) == Equal <==> a == b;
    assert Compare(b, c) == Equal <==> b == c;
  }

  lemma HitsOrdered(a: CompatibilitySkillHit, b: CompatibilitySkillHit, c: CompatibilitySkillHit)
    requires Parses(a) && Parses(b) && Parses(c)
    requires CompareHits(a, b) != Greater && CompareHits(b, c) != Greater
    ensures CompareHits(a, c) != Greater
  {
    NamesOrdered(a.name, b.name, c.name);
    NamesOrdered(b.name, c.name, a.name);
    NamesOrdered(a.name, c.name, b.name);
    if a.name == b.name && b.name == c.name {
      VersionsOrdered(a.version, b.version, c.version);
    }
  }

  lemma HitsLawful(hits: seq<CompatibilitySkillHit>)
    requires forall h | h in hits :: Parses(h)
    ensures Lawful(CompareHits, hits)
  {
    forall a, b | a in hits && b in hits ensures CompareHits(b, a) == CompareHits(a, b).Flip() {
      HitsTie(a, b);
    }
    forall a, b, c | a in hits && b in hits && c in hits && CompareHits(a, b) != Greater && CompareHits(b, c) != Greater
      ensures CompareHits(a, c) != Greater
    {
      HitsOrdered(a, b, c);
    }
  }

  // ----- rows and hits

  lemma MapHas<T, U>(f: T -> U, s: seq<T>, y: U)
    ensures y in Map(f, s) <==> exists x :: x in s && f(x) == y
  {
  }

  /** A public row's hit, wherever it is listed, has a version that parses. */
  lemma ListedParse(db: Tables, registry: string, rows: seq<JoinedRow>)
    requires Admission.VersionsParse(db) && forall row | row in rows :: Joined(db, row)
    ensures forall h | h in Map(Labelled(registry), rows) :: Parses(h)
    ensures Lawful(CompareHits, Map(Labelled(registry), rows))
  {
    var hits := Map(Labelled(registry), rows);
    forall h | h in hits ensures Parses(h) {
      MapHas(Labelled(registry), rows, h);
    }
    HitsLawful(hits);
  }

  /** In one namespace a name and a version determine the row. */
  lemma RowDetermined(db: Tables, a: JoinedRow, b: JoinedRow)
    requires DbOk(db) && Joined(db, a) && Joined(db, b) && a.skill.namespace == b.skill.namespace
    requires a.skill.name == b.skill.name && a.version.version == b.version.version
    ensures a == b
  {
  }

  ghost predicate NoTies<T>(cmp: Comparator<T>, s: seq<T>) {
    forall i, j | 0 <= i < |s| && 0 <= j < |s| :: cmp(s[i], s[j]) == Equal ==> i == j
  }

  lemma ListedIn(db: Tables, namespace: string, rows: seq<JoinedRow>)
    requires Lists(rows, PublicRowsIn(db, namespace))
    ensures forall row :: row in rows <==> IsPublicIn(db, namespace, row)
  {
  }

  /** So no two rows of a namespace make hits that tie. */
  lemma NamespaceHitsDistinct(db: Tables, namespace: string, rows: seq<JoinedRow>)
    requires DbOk(db) && Lists(rows, PublicRowsIn(db, namespace))
    ensures NoTies(CompareHits, Map(Labelled(namespace), rows))
  {
    var hits := Map(Labelled(namespace), rows);
    MapAt(Labelled(namespace), rows);
    forall i, j | 0 <= i < |hits| && 0 <= j < |hits| && CompareHits(hits[i], hits[j]) == Equal ensures i == j {
      HitsTie(hits[i], hits[j]);
      ListedIn(db, namespace, rows);
      assert rows[i] in rows && rows[j] in rows;
      RowDetermined(db, rows[i], rows[j]);
    }
  }

  lemma SortedDistinct<T>(cmp: Comparator<T>, s: seq<T>)
    requires Lawful(cmp, s)
    requires NoTies(cmp, s)
    ensures StrictlySorted(cmp, SortBy(cmp, s))
    ensures Distinct(s)
  {
    var r := SortBy(cmp, s);
    SortSorts(cmp, s);
    SortPermutes(cmp, s);
    assert Distinct(s) by {
      forall i, j | 0 <= i < j < |s| ensures s[i] != s[j] {
        assert s[i] in s;
      }
    }
    forall x | x in r ensures multiset(r)[x] == 1 && x in s {
      SamePermutation(r, s, x);
      DistinctCounts(s, x);
    }
    CountsDistinct(r);
    forall i, j | 0 <= i < j < |r| ensures cmp(r[i], r[j]) == Less {
      assert r[i] in r && r[j] in r;
      var k :| 0 <= k < |s| && s[k] == r[i];
      var l :| 0 <= l < |s| && s[l] == r[j];
    }
  }

  // ----- the namespace index

  lemma IndexMembers(registry: string, rows: seq<JoinedRow>, h: CompatibilitySkillHit)
    ensures h in IndexOf(registry, rows) <==> exists row :: row in rows && HitOf(registry, row) == h
  {
    var hits := Map(Labelled(registry), rows);
    SortPermutes(CompareHits, hits);
    SamePermutation(IndexOf(registry, rows), hits, h);
    MapHas(Labelled(registry), rows, h);
    forall row | row in rows && HitOf(registry, row) == h ensures h in hits {
      assert Labelled(registry)(row) == h;
    }
  }

  /** By name; for one name by semantic version. */
  ghost predicate HitPrecedes(a: CompatibilitySkillHit, b: CompatibilitySkillHit) {
    Compare(a.name, b.name) == Less || (a.name == b.name && Precedence.TextPrecedes(a.version, b.version))
  }

  ghost predicate Increasing(skills: seq<CompatibilitySkillHit>) {
    forall i, j | 0 <= i < j < |skills| :: HitPrecedes(skills[i], skills[j])
  }

  ghost predicate NonDecreasing(skills: seq<CompatibilitySkillHit>) {
    forall i, j | 0 <= i < j < |skills| ::
      HitPrecedes(skills[i], skills[j]) || (skills[i].name == skills[j].name && skills[i].version == skills[j].version)
  }

  lemma HitOrderMeaning(a: CompatibilitySkillHit, b: CompatibilitySkillHit)
    requires Parses(a) && Parses(b)
    ensures CompareHits(a, b) == Less <==> HitPrecedes(a, b)
  {
    NamesOrdered(a.name, b.name, b.name);
    Precedence.ComparatorRefinesPrecedence(a.version, b.version);
  }

  lemma IndexSorted(db: Tables, registry: string, rows: seq<JoinedRow>)
    requires Admission.VersionsParse(db) && forall row | row in rows :: Joined(db, row)
    ensures NonDecreasing(IndexOf(registry, rows))
  {
    var hits, skills := Map(Labelled(registry), rows), IndexOf(registry, rows);
    ListedParse(db, registry, rows);
    SortSorts(CompareHits, hits);
    SortPermutes(CompareHits, hits);
    forall i, j | 0 <= i < j < |skills|
      ensures HitPrecedes(skills[i], skills[j]) || (skills[i].name == skills[j].name && skills[i].version == skills[j].version)
    {
      SamePermutation(skills, hits, skills[i]);
      SamePermutation(skills, hits, skills[j]);
      HitOrderMeaning(skills[i], skills[j]);
      HitsTie(skills[i], skills[j]);
    }
  }

  lemma NamespaceIndexStrict(db: Tables, namespace: string, rows: seq<JoinedRow>)
    requires DbOk(db) && Admission.VersionsParse(db) && Lists(rows, PublicRowsIn(db, namespace))
    ensures Increasing(IndexOf(namespace, rows))
  {
    var skills := IndexOf(namespace, rows);
    ListedIn(db, namespace, rows);
    ListedParse(db, namespace, rows);
    IndexSorted(db, namespace, rows);
    NamespaceHitsDistinct(db, namespace, rows);
    SortedDistinct(CompareHits, Map(Labelled(namespace), rows));
    forall i, j | 0 <= i < j < |skills| ensures HitPrecedes(skills[i], skills[j]) {
      HitsTie(skills[i], skills[j]);
    }
  }

  /** Strictly increasing, and one hit for each public, unyanked version of the namespace; nothing else. */
  lemma NamespaceIndexExact(db: Tables, namespace: string, rows: seq<JoinedRow>)
    requires DbOk(db) && Admission.VersionsParse(db) && Lists(rows, PublicRowsIn(db, namespace))
    ensures Increasing(IndexOf(namespace, rows))
    ensures |IndexOf(namespace, rows)| == |rows|
    ensures forall h :: h in IndexOf(namespace, rows) <==>
      exists row :: IsPublicIn(db, namespace, row) && HitOf(namespace, row) == h
  {
    NamespaceIndexStrict(db, namespace, rows);
    forall h
      ensures h in IndexOf(namespace, rows) <==> exists row :: IsPublicIn(db, namespace, row) && HitOf(namespace, row) == h
    {
      IndexMembers(namespace, rows, h);
      ListedIn(db, namespace, rows);
    }
  }

  /** Whatever order the database returns the rows in, the index is the same sequence. */
  lemma NamespaceIndexIgnoresOrder(db: Tables, namespace: string, rows: seq<JoinedRow>, others: seq<JoinedRow>)
    requires DbOk(db) && Admission.VersionsParse(db)
    requires Lists(rows, PublicRowsIn(db, namespace)) && Lists(others, PublicRowsIn(db, namespace))
    ensures IndexOf(namespace, rows) == IndexOf(namespace, others)
  {
    var hits := Map(Labelled(namespace), rows);
    ListedParse(db, namespace, rows);
    ListingsPermute(rows, others, PublicRowsIn(db, namespace));
    MapPermutes(Labelled(namespace), rows, others);
    NamespaceHitsDistinct(db, namespace, rows);
    forall a, b | a in hits && b in hits && CompareHits(a, b) == Equal ensures a == b {
      var i :| 0 <= i < |hits| && hits[i] == a;
      var j :| 0 <= j < |hits| && hits[j] == b;
    }
    SortIgnoresOrder(CompareHits, hits, Map(Labelled(namespace), others));
  }

  /** The rows whose version has one of these ids. */
  lemma {:induction false} ListingOf(db: Tables, ids: set<Uuid>) returns (rows: seq<JoinedRow>)
    requires KeysOk(db) && ids <= db.versions.Keys
    ensures Lists(rows, row => IsPublic(db, row) && row.version.id in ids)
    decreases ids
  {
    if ids == {} {
      return [];
    }
    var id :| id in ids;
    rows := ListingOf(db, ids - {id});
    assert forall row :: row in rows <==> IsPublic(db, row) && row.version.id in ids - {id};
    var row := JoinedRow(db.skills[db.versions[id].skillId], db.versions[id]);
    if IsPublic(db, row) {
      rows := [row] + rows;
    }
  }

  /** The public rows can be listed. */
  lemma PublicListing(db: Tables) returns (rows: seq<JoinedRow>)
    requires KeysOk(db)
    ensures Lists(rows, PublicRows(db))
  {
    rows := ListingOf(db, db.versions.Keys);
    assert forall row :: row in rows <==> IsPublic(db, row) && row.version.id in db.versions.Keys;
  }

  // ----- the global index

  function Unlabel(h: CompatibilitySkillHit): CompatibilitySkillHit {
    h.(registry := "")
  }

  /** All hits of several indexes, with their labels taken off. */
  function Together(indexes: seq<seq<CompatibilitySkillHit>>): multiset<CompatibilitySkillHit> {
    if indexes == [] then multiset{} else multiset(Map(Unlabel, indexes[0])) + Together(indexes[1..])
  }

  lemma IndexUnlabelled(registry: string, rows: seq<JoinedRow>)
    ensures multiset(Map(Unlabel, IndexOf(registry, rows))) == multiset(Map(Labelled(""), rows))
  {
    var hits := Map(Labelled(registry), rows);
    SortPermutes(CompareHits, hits);
    MapPermutes(Unlabel, IndexOf(registry, rows), hits);
    MapMap(Labelled(registry), Unlabel, Labelled(""), rows);
  }

  ghost predicate ListsEach(db: Tables, namespaces: seq<string>, listings: seq<seq<JoinedRow>>) {
    && |listings| == |namespaces|
    && forall i | 0 <= i < |namespaces| :: Lists(listings[i], PublicRowsIn(db, namespaces[i]))
  }

  function IndexEach(namespaces: seq<string>, listings: seq<seq<JoinedRow>>): seq<seq<CompatibilitySkillHit>>
    requires |listings| == |namespaces|
  {
    if namespaces == [] then []
    else [IndexOf(namespaces[0], listings[0])] + IndexEach(namespaces[1..], listings[1..])
  }

  predicate IsPublicInAny(db: Tables, namespaces: seq<string>, row: JoinedRow) {
    IsPublic(db, row) && row.skill.namespace in namespaces
  }

  function Flatten(listings: seq<seq<JoinedRow>>): seq<JoinedRow> {
    if listings == [] then [] else listings[0] + Flatten(listings[1..])
  }

  lemma DistinctConcat<T>(a: seq<T>, b: seq<T>)
    requires Distinct(a) && Distinct(b) && forall x | x in a :: x !in b
    ensures Distinct(a + b)
  {
    forall i, j | 0 <= i < j < |a + b| ensures (a + b)[i] != (a + b)[j] {
      if i < |a| && |a| <= j {
        assert a[i] in a && b[j - |a|] in b;
      }
    }
  }

  /** Listings of different namespaces, one after the other, list their rows together. */
  lemma {:induction false} FlattenLists(db: Tables, namespaces: seq<string>, listings: seq<seq<JoinedRow>>)
    requires Distinct(namespaces) && ListsEach(db, namespaces, listings)
    ensures Lists(Flatten(listings), row => IsPublicInAny(db, namespaces, row))
  {
    if namespaces != [] {
      var n, rest := namespaces[0], namespaces[1..];
      FlattenLists(db, rest, listings[1..]);
      assert forall row :: row in Flatten(listings[1..]) <==> IsPublicInAny(db, rest, row);
      assert forall row :: row in listings[0] <==> IsPublicIn(db, n, row);
      assert n !in rest;
      DistinctConcat(listings[0], Flatten(listings[1..]));
      assert forall m :: m in namespaces <==> m == n || m in rest;
    }
  }

  lemma {:induction false} EachUnlabelled(namespaces: seq<string>, listings: seq<seq<JoinedRow>>)
    requires |listings| == |namespaces|
    ensures Together(IndexEach(namespaces, listings)) == multiset(Map(Labelled(""), Flatten(listings)))
  {
    if namespaces != [] {
      IndexUnlabelled(namespaces[0], listings[0]);
      EachUnlabelled(namespaces[1..], listings[1..]);
      MapConcat(Labelled(""), listings[0], Flatten(listings[1..]));
    }
  }

  /**
   * The global index is sorted, and holds what the indexes of all namespaces hold together, hit for hit,
   * however each query happened to return its rows.
   */
  lemma GlobalIndexIsTheUnion(
      db: Tables, registry: string, rows: seq<JoinedRow>, namespaces: seq<string>, listings: seq<seq<JoinedRow>>)
    requires DbOk(db) && Admission.VersionsParse(db) && Lists(rows, PublicRows(db))
    requires Distinct(namespaces) && ListsEach(db, namespaces, listings)
    requires forall id | id in db.skills :: db.skills[id].namespace in namespaces
    ensures NonDecreasing(IndexOf(registry, rows))
    ensures multiset(Map(Unlabel, IndexOf(registry, rows))) == Together(IndexEach(namespaces, listings))
  {
    var flat := Flatten(listings);
    assert forall row | row in rows :: PublicRows(db)(row);
    IndexSorted(db, registry, rows);
    FlattenLists(db, namespaces, listings);
    assert forall row :: IsPublic(db, row) <==> IsPublicInAny(db, namespaces, row);
    assert Lists(flat, PublicRows(db));
    ListingsPermute(rows, flat, PublicRows(db));
    MapPermutes(Labelled(""), rows, flat);
    IndexUnlabelled(registry, rows);
    EachUnlabelled(namespaces, listings);
  }
}
