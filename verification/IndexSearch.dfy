/** Searching an index: rank its documents, join them back to their hits, cut to the limit. */
module IndexSearch {
  import opened Wrappers
  import opened Orders
  import opened Sorting
  import opened Sequences
  import opened Text
  import opened Model
  import opened Tables
  import opened Index
  import opened Search

  type Hit = CompatibilitySkillHit

  function DocumentOf(h: Hit): SearchDocument {
    SearchDocument(h.registry, h.name, h.version, h.description)
  }

  /** The hit at `i` has this name and version, and none before it has. */
  predicate FirstAt(skills: seq<Hit>, name: string, version: string, i: nat)
    requires i < |skills|
  {
    HitFor(skills[i], name, version) && forall j | 0 <= j < i :: !HitFor(skills[j], name, version)
  }

  /** `find`: the first hit with this name and version. */
  function FindHit(skills: seq<Hit>, name: string, version: string): (r: Option<Hit>)
    ensures r.Some? ==> exists i | 0 <= i < |skills| :: r.value == skills[i] && FirstAt(skills, name, version, i)
    ensures r.None? ==> forall h | h in skills :: !HitFor(h, name, version)
  {
    if skills == [] then None
    else if HitFor(skills[0], name, version) then
      assert FirstAt(skills, name, version, 0);
      Some(skills[0])
    else
      var rest := FindHit(skills[1..], name, version);
      assert rest.Some? ==>
        forall i | 0 <= i < |skills| - 1 && FirstAt(skills[1..], name, version, i) :: FirstAt(skills, name, version, i + 1);
      rest
  }

  /** Each ranked document becomes the first hit with its name and version. */
  function JoinBack(skills: seq<Hit>, ranked: seq<SearchDocument>): seq<Hit> {
    if ranked == [] then []
    else
      (match FindHit(skills, ranked[0].name, ranked[0].version)
       case Some(h) => [h]
       case None => []) + JoinBack(skills, ranked[1..])
  }

  function Ranked(fold: Fold, terms: string, skills: seq<Hit>): seq<SearchDocument> {
    LexicalRank(fold, terms, Map(DocumentOf, skills))
  }

  function Cut<T>(s: seq<T>, limit: Option<nat>): seq<T> {
    if limit.Some? && limit.value < |s| then s[..limit.value] else s
  }

  function FilteredSearch(fold: Fold, skills: seq<Hit>, terms: Option<string>, limit: Option<nat>): seq<Hit> {
    match terms
    case None => Cut(skills, limit)
    case Some(text) => Cut(JoinBack(skills, Ranked(fold, text, skills)), limit)
  }

  // ----- as the handlers do it

  class CompatibilityIndex {
    var skills: seq<Hit>

    constructor (skills: seq<Hit>)
      ensures this.skills == skills
    {
      this.skills := skills;
    }

    /** `truncate_index`. */
    method Truncate(limit: Option<nat>)
      modifies this
      ensures skills <= old(skills)
      ensures |skills| == if limit.Some? && limit.value < |old(skills)| then limit.value else |old(skills)|
      ensures skills == Cut(old(skills), limit)
    {
      if limit.Some? && limit.value < |skills| {
        skills := skills[..limit.value];
      }
    }
  }

  lemma {:induction false} JoinBackConcat(skills: seq<Hit>, a: seq<SearchDocument>, b: seq<SearchDocument>)
    ensures JoinBack(skills, a + b) == JoinBack(skills, a) + JoinBack(skills, b)
  {
    if a == [] {
      assert a + b == b;
    } else {
      assert (a + b)[1..] == a[1..] + b;
      JoinBackConcat(skills, a[1..], b);
    }
  }

  /** `filtered_search_index`: `q` wins over `query`; without either, the index itself is cut. */
  method FilteredSearchIndex(fold: Fold, index: CompatibilityIndex, q: Option<string>, query: Option<string>, limit: Option<nat>)
    returns (r: CompatibilityIndex)
    modifies index
    ensures r.skills == FilteredSearch(fold, old(index.skills), if q.Some? then q else query, limit)
    ensures q.Some? || query.Some? ==> index.skills == old(index.skills)
  {
    var terms := if q.Some? then q else query;
    if terms.None? {
      index.Truncate(limit);
      return index;
    }
    var ranked := RankDocuments(fold, terms.value, Map(DocumentOf, index.skills));
    var skills: seq<Hit> := [];
    for i := 0 to |ranked|
      invariant skills == JoinBack(index.skills, ranked[..i])
      invariant index.skills == old(index.skills)
    {
      JoinBackConcat(index.skills, ranked[..i], [ranked[i]]);
      assert ranked[..i + 1] == ranked[..i] + [ranked[i]];
      var found := FindHit(index.skills, ranked[i].name, ranked[i].version);
      if found.Some? {
        skills := skills + [found.value];
      }
    }
    assert ranked[..|ranked|] == ranked;
    if limit.Some? && limit.value < |skills| {
      skills := skills[..limit.value];
    }
    r := new CompatibilityIndex(skills);
  }

  // ----- what a search finds

  /** The folded query occurs in the hit's folded name or description. */
  function Scores(fold: Fold, query: string): Hit -> bool {
    (h: Hit) =>
      Contains(fold(h.name), query) || (h.description.Some? && Contains(fold(h.description.value), query))
  }

  /** Every matching hit is the first in the index with its name and version. */
  ghost predicate MatchesComeFirst(fold: Fold, query: string, skills: seq<Hit>) {
    forall h | h in skills && Scores(fold, query)(h) :: FindHit(skills, h.name, h.version) == Some(h)
  }

  /** The hit that a document is joined back to. */
  function FirstLike(skills: seq<Hit>): SearchDocument -> Hit {
    (d: SearchDocument) =>
      var found := FindHit(skills, d.name, d.version);
      if found.Some? then found.value
      else CompatibilitySkillHit(d.name, d.version, d.description, d.namespace, None, None, None)
  }

  lemma {:induction false} JoinBackMaps(skills: seq<Hit>, ranked: seq<SearchDocument>)
    requires forall d | d in ranked :: FindHit(skills, d.name, d.version).Some?
    ensures JoinBack(skills, ranked) == Map(FirstLike(skills), ranked)
  {
    if ranked != [] {
      assert ranked[0] in ranked;
      JoinBackMaps(skills, ranked[1..]);
    }
  }

  lemma {:induction false} FilterMap<T, U>(f: T -> U, p: U -> bool, pf: T -> bool, s: seq<T>)
    requires forall x | x in s :: pf(x) == p(f(x))
    ensures Filter(p, Map(f, s)) == Map(f, Filter(pf, s))
  {
    if s != [] {
      FilterMap(f, p, pf, s[1..]);
      assert pf(s[0]) == p(f(s[0]));
      MapConcat(f, if pf(s[0]) then [s[0]] else [], Filter(pf, s[1..]));
      assert Map(f, s)[1..] == Map(f, s[1..]) && Map(f, s)[0] == f(s[0]);
    }
  }

  /** The ranked documents are those of the matching hits. */
  lemma RankedAreMatches(fold: Fold, terms: string, skills: seq<Hit>)
    requires fold(Trim(terms)) != ""
    ensures multiset(Ranked(fold, terms, skills)) ==
      multiset(Map(DocumentOf, Filter(Scores(fold, fold(Trim(terms))), skills)))
  {
    var query := fold(Trim(terms));
    RankPermutesMatches(fold, terms, Map(DocumentOf, skills));
    FilterMap(DocumentOf, Matching(fold, query), Scores(fold, query), skills);
  }

  lemma RankedFromHits(fold: Fold, terms: string, skills: seq<Hit>)
    requires fold(Trim(terms)) != ""
    ensures forall d | d in Ranked(fold, terms, skills) :: FindHit(skills, d.name, d.version).Some?
  {
    var hits := Filter(Scores(fold, fold(Trim(terms))), skills);
    RankedAreMatches(fold, terms, skills);
    forall d | d in Ranked(fold, terms, skills) ensures FindHit(skills, d.name, d.version).Some? {
      SamePermutation(Ranked(fold, terms, skills), Map(DocumentOf, hits), d);
      MapHas(DocumentOf, hits, d);
      var h :| h in hits && DocumentOf(h) == d;
      assert HitFor(h, d.name, d.version);
    }
  }

  /** What is joined back: the first hit like each matching hit, in some order. */
  lemma JoinedBack(fold: Fold, terms: string, skills: seq<Hit>)
    requires fold(Trim(terms)) != ""
    ensures var found := JoinBack(skills, Ranked(fold, terms, skills));
      multiset(found) ==
        multiset(Map(FirstLike(skills), Map(DocumentOf, Filter(Scores(fold, fold(Trim(terms))), skills))))
  {
    var hits := Filter(Scores(fold, fold(Trim(terms))), skills);
    RankedFromHits(fold, terms, skills);
    JoinBackMaps(skills, Ranked(fold, terms, skills));
    RankedAreMatches(fold, terms, skills);
    MapPermutes(FirstLike(skills), Ranked(fold, terms, skills), Map(DocumentOf, hits));
  }

  lemma {:induction false} MapIdentity<T>(f: T -> T, s: seq<T>)
    requires forall x | x in s :: f(x) == x
    ensures Map(f, s) == s
  {
    if s != [] {
      MapIdentity(f, s[1..]);
    }
  }

  lemma FirstsRecover(fold: Fold, query: string, skills: seq<Hit>)
    requires MatchesComeFirst(fold, query, skills)
    ensures var hits := Filter(Scores(fold, query), skills); Map(FirstLike(skills), Map(DocumentOf, hits)) == hits
  {
    var hits := Filter(Scores(fold, query), skills);
    var both := (h: Hit) => FirstLike(skills)(DocumentOf(h));
    MapMap(DocumentOf, FirstLike(skills), both, hits);
    MapIdentity(both, hits);
  }

  /** The joined-back hits are first hits, so a matching hit among them is one. */
  lemma JoinedBackAreFirst(skills: seq<Hit>, ranked: seq<SearchDocument>, h: Hit)
    requires h in JoinBack(skills, ranked)
    ensures FindHit(skills, h.name, h.version) == Some(h)
  {
  }

  /**
   * A search finds exactly the matching hits, each as often as the index lists it, if and only if every
   * matching hit is the first of its name and version.
   */
  lemma SearchFindsExactly(fold: Fold, terms: string, skills: seq<Hit>)
    requires fold(Trim(terms)) != ""
    ensures var query := fold(Trim(terms));
      multiset(FilteredSearch(fold, skills, Some(terms), None)) == multiset(Filter(Scores(fold, query), skills)) <==>
        MatchesComeFirst(fold, query, skills)
  {
    var query := fold(Trim(terms));
    var found := JoinBack(skills, Ranked(fold, terms, skills));
    var hits := Filter(Scores(fold, query), skills);
    JoinedBack(fold, terms, skills);
    if MatchesComeFirst(fold, query, skills) {
      FirstsRecover(fold, query, skills);
    }
    if multiset(found) == multiset(hits) {
      forall h | h in skills && Scores(fold, query)(h) ensures FindHit(skills, h.name, h.version) == Some(h) {
        KeptByFilter(Scores(fold, query), skills, h);
        SamePermutation(found, hits, h);
        JoinedBackAreFirst(skills, Ranked(fold, terms, skills), h);
      }
    }
  }

  lemma KeptByFilter<T>(p: T -> bool, s: seq<T>, x: T)
    requires x in s && p(x)
    ensures x in Filter(p, s)
  {
  }

  /** The found hits stand in the order of the ranked documents, one for one. */
  lemma SearchKeepsRankOrder(fold: Fold, terms: string, skills: seq<Hit>)
    requires fold(Trim(terms)) != "" && MatchesComeFirst(fold, fold(Trim(terms)), skills)
    ensures Map(DocumentOf, FilteredSearch(fold, skills, Some(terms), None)) == Ranked(fold, terms, skills)
  {
    var ranked := Ranked(fold, terms, skills);
    RankedFromHits(fold, terms, skills);
    JoinBackMaps(skills, ranked);
    forall d | d in ranked ensures DocumentOf(FirstLike(skills)(d)) == d {
      RankedHitIsFirst(fold, terms, skills, d);
    }
    MapMap(FirstLike(skills), DocumentOf, (d: SearchDocument) => DocumentOf(FirstLike(skills)(d)), ranked);
    MapIdentity((d: SearchDocument) => DocumentOf(FirstLike(skills)(d)), ranked);
  }

  lemma RankedHitIsFirst(fold: Fold, terms: string, skills: seq<Hit>, d: SearchDocument)
    requires fold(Trim(terms)) != "" && MatchesComeFirst(fold, fold(Trim(terms)), skills)
    requires d in Ranked(fold, terms, skills)
    ensures DocumentOf(FirstLike(skills)(d)) == d
  {
    var hits := Filter(Scores(fold, fold(Trim(terms))), skills);
    RankedAreMatches(fold, terms, skills);
    SamePermutation(Ranked(fold, terms, skills), Map(DocumentOf, hits), d);
    MapHas(DocumentOf, hits, d);
  }

  // ----- searches of the registry

  /** The matching hits, each as often as the index lists it, in rank order. */
  ghost predicate IsRankedMatches(fold: Fold, skills: seq<Hit>, terms: string, found: seq<Hit>) {
    var query := fold(Trim(terms));
    && multiset(found) == multiset(if query == "" then [] else Filter(Scores(fold, query), skills))
    && Map(DocumentOf, found) == Ranked(fold, terms, skills)
  }

  predicate IsCut<T(==)>(whole: seq<T>, limit: Option<nat>, part: seq<T>) {
    part <= whole && |part| == if limit.Some? && limit.value < |whole| then limit.value else |whole|
  }

  lemma WholeSearch(fold: Fold, skills: seq<Hit>, terms: string)
    requires MatchesComeFirst(fold, fold(Trim(terms)), skills)
    ensures IsRankedMatches(fold, skills, terms, FilteredSearch(fold, skills, Some(terms), None))
  {
    if fold(Trim(terms)) != "" {
      SearchFindsExactly(fold, terms, skills);
      SearchKeepsRankOrder(fold, terms, skills);
    }
  }

  /** Without search terms the handler returns the index itself, cut to the limit. */
  lemma ListingIsCut(fold: Fold, skills: seq<Hit>, limit: Option<nat>)
    ensures IsCut(skills, limit, FilteredSearch(fold, skills, None, limit))
  {
  }

  /** The search returns those hits, cut to the limit. */
  ghost predicate SearchesExactly(fold: Fold, skills: seq<Hit>, terms: string, limit: Option<nat>) {
    exists whole ::
      IsRankedMatches(fold, skills, terms, whole) && IsCut(whole, limit, FilteredSearch(fold, skills, Some(terms), limit))
  }

  lemma SearchIsExact(fold: Fold, skills: seq<Hit>, terms: string, limit: Option<nat>)
    requires MatchesComeFirst(fold, fold(Trim(terms)), skills)
    ensures SearchesExactly(fold, skills, terms, limit)
  {
    var whole := FilteredSearch(fold, skills, Some(terms), None);
    WholeSearch(fold, skills, terms);
    assert IsCut(whole, limit, Cut(whole, limit));
  }

  lemma FirstOfDistinct(skills: seq<Hit>, h: Hit)
    requires h in skills
    requires forall other | other in skills && HitFor(other, h.name, h.version) :: other == h
    ensures FindHit(skills, h.name, h.version) == Some(h)
  {
  }

  lemma NamespaceMatchesComeFirst(db: Tables, namespace: string, rows: seq<JoinedRow>, fold: Fold, query: string)
    requires DbOk(db) && Lists(rows, PublicRowsIn(db, namespace))
    ensures MatchesComeFirst(fold, query, IndexOf(namespace, rows))
  {
    var skills := IndexOf(namespace, rows);
    ListedIn(db, namespace, rows);
    forall h | h in skills ensures FindHit(skills, h.name, h.version) == Some(h) {
      forall other | other in skills && HitFor(other, h.name, h.version) ensures other == h {
        IndexMembers(namespace, rows, h);
        IndexMembers(namespace, rows, other);
        var x :| x in rows && HitOf(namespace, x) == h;
        var y :| y in rows && HitOf(namespace, y) == other;
        RowDetermined(db, x, y);
      }
      FirstOfDistinct(skills, h);
    }
  }

  /** `get_version`: the page of a version shows the one public row that has it. */
  lemma VersionPageExactly(db: Tables, namespace: string, rows: seq<JoinedRow>, name: string, version: string, row: JoinedRow)
    requires DbOk(db) && Lists(rows, PublicRowsIn(db, namespace))
    ensures var page := FindHit(IndexOf(namespace, rows), name, version);
      && (page.None? <==> forall any :: IsPublicIn(db, namespace, any) ==> !HitFor(HitOf(namespace, any), name, version))
      && (IsPublicIn(db, namespace, row) && HitFor(HitOf(namespace, row), name, version) ==> page == Some(HitOf(namespace, row)))
  {
    var skills := IndexOf(namespace, rows);
    ListedIn(db, namespace, rows);
    forall any | IsPublicIn(db, namespace, any) ensures HitOf(namespace, any) in skills {
      IndexMembers(namespace, rows, HitOf(namespace, any));
    }
    var page := FindHit(skills, name, version);
    if page.Some? {
      IndexMembers(namespace, rows, page.value);
      var found :| found in rows && HitOf(namespace, found) == page.value;
      if IsPublicIn(db, namespace, row) && HitFor(HitOf(namespace, row), name, version) {
        RowDetermined(db, row, found);
      }
    }
  }

  /** A search in one namespace returns exactly the matching hits of its index. */
  lemma NamespaceSearchExact(
      db: Tables, namespace: string, rows: seq<JoinedRow>, fold: Fold, terms: string, limit: Option<nat>)
    requires DbOk(db) && Lists(rows, PublicRowsIn(db, namespace))
    ensures SearchesExactly(fold, IndexOf(namespace, rows), terms, limit)
  {
    NamespaceMatchesComeFirst(db, namespace, rows, fold, fold(Trim(terms)));
    SearchIsExact(fold, IndexOf(namespace, rows), terms, limit);
  }

  // ----- searches of all namespaces

  /** Public rows that share name and version make the same hit, if one of them matches. */
  ghost predicate MatchesDetermined(db: Tables, fold: Fold, query: string) {
    forall a, b | IsPublic(db, a) && IsPublic(db, b) && HitFor(HitOf("", b), a.skill.name, a.version.version)
        && Scores(fold, query)(HitOf("", a)) ::
      HitOf("", a) == HitOf("", b)
  }

  lemma GlobalMatchesComeFirst(db: Tables, registry: string, rows: seq<JoinedRow>, fold: Fold, query: string)
    requires Lists(rows, PublicRows(db)) && MatchesDetermined(db, fold, query)
    ensures MatchesComeFirst(fold, query, IndexOf(registry, rows))
  {
    var skills := IndexOf(registry, rows);
    assert forall row :: row in rows <==> PublicRows(db)(row);
    forall h | h in skills && Scores(fold, query)(h) ensures FindHit(skills, h.name, h.version) == Some(h) {
      forall other | other in skills && HitFor(other, h.name, h.version) ensures other == h {
        IndexMembers(registry, rows, h);
        IndexMembers(registry, rows, other);
        var x :| x in rows && HitOf(registry, x) == h;
        var y :| y in rows && HitOf(registry, y) == other;
        assert IsPublic(db, x) && IsPublic(db, y) && Scores(fold, query)(HitOf("", x));
        assert HitOf("", x) == HitOf("", y);
      }
      FirstOfDistinct(skills, h);
    }
  }

  /** Under that condition a search of everything returns the matching hits too, cut to any limit. */
  lemma GlobalSearchExact(
      db: Tables, registry: string, rows: seq<JoinedRow>, fold: Fold, terms: string, limit: Option<nat>)
    requires Lists(rows, PublicRows(db)) && MatchesDetermined(db, fold, fold(Trim(terms)))
    ensures SearchesExactly(fold, IndexOf(registry, rows), terms, limit)
  {
    GlobalMatchesComeFirst(db, registry, rows, fold, fold(Trim(terms)));
    SearchIsExact(fold, IndexOf(registry, rows), terms, limit);
  }

  lemma {:induction false} FindHitFilters(skills: seq<Hit>, name: string, version: string)
    ensures var picked := Filter((h: Hit) => HitFor(h, name, version), skills);
      FindHit(skills, name, version) == if picked == [] then None else Some(picked[0])
  {
    if skills != [] {
      FindHitFilters(skills[1..], name, version);
    }
  }

  /** `ORDER BY s.name ASC`, the order in which the database returns the rows. */
  ghost predicate OrderedByName(rows: seq<JoinedRow>) {
    Sorted(CompareNames, rows)
  }

  function CompareNames(a: JoinedRow, b: JoinedRow): Ordering {
    Compare(a.skill.name, b.skill.name)
  }

  lemma NamesLawful(rows: seq<JoinedRow>)
    ensures Lawful(CompareNames, rows)
  {
    CompareTotal();
    forall a, b | a in rows && b in rows ensures CompareNames(b, a) == CompareNames(a, b).Flip() {
      assert Compare(b.skill.name, a.skill.name) == Compare(a.skill.name, b.skill.name).Flip();
    }
    forall a, b, c | a in rows && b in rows && c in rows && CompareNames(a, b) != Greater && CompareNames(b, c) != Greater
      ensures CompareNames(a, c) != Greater
    {
      NamesOrdered(a.skill.name, b.skill.name, c.skill.name);
    }
  }

  /** The rows with the name and version of this one. */
  function Alike(row: JoinedRow): JoinedRow -> bool {
    (other: JoinedRow) => other.skill.name == row.skill.name && other.version.version == row.version.version
  }

  predicate ComesFirst(rows: seq<JoinedRow>, row: JoinedRow) {
    var alike := Filter(Alike(row), rows);
    alike != [] && alike[0] == row
  }

  /** The sort is stable: of the rows of one name and version, the one the database returns first is found. */
  lemma FirstRowWins(registry: string, rows: seq<JoinedRow>, row: JoinedRow)
    requires ComesFirst(rows, row)
    ensures FindHit(IndexOf(registry, rows), row.skill.name, row.version.version) == Some(HitOf(registry, row))
  {
    var hits := Map(Labelled(registry), rows);
    var picks := (h: Hit) => HitFor(h, row.skill.name, row.version.version);
    forall a, b | a in hits && b in hits && picks(a) && picks(b) ensures CompareHits(a, b) != Greater {
      HitsTie(a, b);
    }
    SortKeepsOrder(CompareHits, hits, picks);
    FindHitFilters(IndexOf(registry, rows), row.skill.name, row.version.version);
    FilterMap(Labelled(registry), picks, Alike(row), rows);
  }

  /** Some listing by name returns this row before all that share its name and version. */
  lemma ListingWithFirst(db: Tables, row: JoinedRow) returns (rows: seq<JoinedRow>)
    requires KeysOk(db) && IsPublic(db, row)
    ensures Lists(rows, PublicRows(db)) && OrderedByName(rows) && ComesFirst(rows, row)
  {
    var any := PublicListing(db);
    assert PublicRows(db)(row);
    any := ListedFirst(any, PublicRows(db), row);
    rows := SortBy(CompareNames, any);
    NamesLawful(any);
    SortSorts(CompareNames, any);
    SortPermutes(CompareNames, any);
    ListingPermuted(any, rows, PublicRows(db));
    CompareTotal();
    SortKeepsOrder(CompareNames, any, Alike(row));
    assert Filter(Alike(row), any)[0] == row;
  }

  lemma SearchedThenFirst(fold: Fold, skills: seq<Hit>, terms: string)
    requires fold(Trim(terms)) != "" && SearchesExactly(fold, skills, terms, None)
    ensures MatchesComeFirst(fold, fold(Trim(terms)), skills)
  {
    var found := FilteredSearch(fold, skills, Some(terms), None);
    var whole :| IsRankedMatches(fold, skills, terms, whole) && IsCut(whole, None, found);
    assert whole == found;
    SearchFindsExactly(fold, terms, skills);
  }

  /** A search that is exact when `b` comes first shows that `a` makes the same hit. */
  lemma FirstRowDetermines(
      db: Tables, registry: string, rows: seq<JoinedRow>, fold: Fold, terms: string, a: JoinedRow, b: JoinedRow)
    requires Lists(rows, PublicRows(db)) && fold(Trim(terms)) != ""
    requires SearchesExactly(fold, IndexOf(registry, rows), terms, None)
    requires ComesFirst(rows, b) && IsPublic(db, a) && HitFor(HitOf("", b), a.skill.name, a.version.version)
    requires Scores(fold, fold(Trim(terms)))(HitOf("", a))
    ensures HitOf("", a) == HitOf("", b)
  {
    var skills, h := IndexOf(registry, rows), HitOf(registry, a);
    SearchedThenFirst(fold, skills, terms);
    assert PublicRows(db)(a);
    IndexMembers(registry, rows, h);
    assert h in skills && Scores(fold, fold(Trim(terms)))(h);
    FirstRowWins(registry, rows, b);
  }

  /** The search finds exactly the matches, in whatever order by name the database returns its rows. */
  ghost predicate AlwaysExact(db: Tables, registry: string, fold: Fold, terms: string) {
    forall rows | Lists(rows, PublicRows(db)) && OrderedByName(rows) ::
      SearchesExactly(fold, IndexOf(registry, rows), terms, None)
  }

  /**
   * A search of everything always is exact if and only if rows that share name and version make the same
   * hit wherever one of them matches.
   */
  lemma GlobalSearchExactly(db: Tables, registry: string, fold: Fold, terms: string)
    requires KeysOk(db) && fold(Trim(terms)) != ""
    ensures AlwaysExact(db, registry, fold, terms) <==> MatchesDetermined(db, fold, fold(Trim(terms)))
  {
    var query := fold(Trim(terms));
    if MatchesDetermined(db, fold, query) {
      forall rows | Lists(rows, PublicRows(db)) ensures SearchesExactly(fold, IndexOf(registry, rows), terms, None) {
        GlobalSearchExact(db, registry, rows, fold, terms, None);
      }
    }
    if AlwaysExact(db, registry, fold, terms) {
      forall a, b | IsPublic(db, a) && IsPublic(db, b) && HitFor(HitOf("", b), a.skill.name, a.version.version)
          && Scores(fold, query)(HitOf("", a))
        ensures HitOf("", a) == HitOf("", b)
      {
        var rows := ListingWithFirst(db, b);
        FirstRowDetermines(db, registry, rows, fold, terms, a, b);
      }
    }
  }
}
