/** Ranked text search over documents. `fold` is `str::to_lowercase`, whatever the Unicode tables say. */
module Search {
  import opened Wrappers
  import opened Orders
  import opened Sorting
  import opened Sequences
  import opened Text

  type Fold = string -> string

  datatype SearchDocument = SearchDocument(namespace: string, name: string, version: string, description: Option<string>)

  datatype Scored = Scored(score: nat, doc: SearchDocument)

  predicate Describes(fold: Fold, query: string, doc: SearchDocument) {
    doc.description.Some? && Contains(fold(doc.description.value), query)
  }

  /** `rank`: a whole name, the start of a name, a part of a name, a part of the description. */
  function Rank(fold: Fold, query: string, doc: SearchDocument): Option<nat> {
    var name := fold(doc.name);
    var score :=
      if name == query then 4
      else if StartsWith(name, query) then 3
      else if Contains(name, query) then 2
      else if Describes(fold, query, doc) then 1
      else 0;
    if score > 0 then Some(score) else None
  }

  function ScoreAll(fold: Fold, query: string, docs: seq<SearchDocument>): seq<Scored> {
    if docs == [] then []
    else
      (match Rank(fold, query, docs[0])
       case Some(score) => [Scored(score, docs[0])]
       case None => []) + ScoreAll(fold, query, docs[1..])
  }

  /** Best score first, then by name, namespace and version text. */
  function CompareScored(a: Scored, b: Scored): Ordering {
    CompareNat(b.score, a.score).Then(CompareDocs(a.doc, b.doc))
  }

  function CompareDocs(a: SearchDocument, b: SearchDocument): Ordering {
    Compare(a.name, b.name).Then(Compare(a.namespace, b.namespace).Then(Compare(a.version, b.version)))
  }

  function DocOf(s: Scored): SearchDocument {
    s.doc
  }

  function LexicalRank(fold: Fold, text: string, docs: seq<SearchDocument>): seq<SearchDocument> {
    var query := fold(Trim(text));
    if query == "" then [] else Map(DocOf, SortBy(CompareScored, ScoreAll(fold, query, docs)))
  }

  lemma {:induction false} ScoreAllConcat(fold: Fold, query: string, a: seq<SearchDocument>, b: seq<SearchDocument>)
    ensures ScoreAll(fold, query, a + b) == ScoreAll(fold, query, a) + ScoreAll(fold, query, b)
  {
    if a == [] {
      assert a + b == b;
    } else {
      assert (a + b)[1..] == a[1..] + b;
      ScoreAllConcat(fold, query, a[1..], b);
    }
  }

  /** `lexical_rank` as it runs: score what matches, sort in place, drop the scores. */
  method RankDocuments(fold: Fold, text: string, docs: seq<SearchDocument>) returns (r: seq<SearchDocument>)
    ensures r == LexicalRank(fold, text, docs)
  {
    var query := fold(Trim(text));
    if query == "" {
      return [];
    }
    var matching: seq<Scored> := [];
    for i := 0 to |docs|
      invariant matching == ScoreAll(fold, query, docs[..i])
    {
      ScoreAllConcat(fold, query, docs[..i], [docs[i]]);
      assert docs[..i + 1] == docs[..i] + [docs[i]];
      var score := Rank(fold, query, docs[i]);
      if score.Some? {
        matching := matching + [Scored(score.value, docs[i])];
      }
    }
    assert docs[..|docs|] == docs;
    var ranked := new Scored[|matching|](i requires 0 <= i < |matching| => matching[i]);
    assert ranked[..] == matching;
    SortInPlace(CompareScored, ranked);
    r := Map(DocOf, ranked[..]);
  }

  // ----- the order

  lemma DocsTie(a: SearchDocument, b: SearchDocument)
    ensures CompareDocs(a, b) == Equal <==> a.name == b.name && a.namespace == b.namespace && a.version == b.version
    ensures CompareDocs(b, a) == CompareDocs(a, b).Flip()
  {
    CompareTotal();
    assert Compare(b.name, a.name) == Compare(a.name, b.name).Flip();
    assert Compare(b.namespace, a.namespace) == Compare(a.namespace, b.namespace).Flip();
    assert Compare(b.version, a.version) == Compare(a.version, b.version).Flip();
    assert Compare(a.name, b.name) == Equal <==> a.name == b.name;
    assert Compare(a.namespace, b.namespace) == Equal <==> a.namespace == b.namespace;
    assert Compare(a.version, b.version) == Equal <==> a.version == b.version;
  }

  lemma TextsOrdered(a: string, b: string, c: string)
    ensures Compare(a, b) == Equal <==> a == b
    ensures Compare(b, c) == Equal <==> b == c
    ensures Compare(a, c) == Equal <==> a == c
    ensures Compare(a, b) != Greater && Compare(b, c) != Greater && (a != b || b != c) ==> Compare(a, c) == Less
  {
    CompareTotal();
  }

  lemma DocsOrdered(a: SearchDocument, b: SearchDocument, c: SearchDocument)
    requires CompareDocs(a, b) != Greater && CompareDocs(b, c) != Greater
    ensures CompareDocs(a, c) != Greater
  {
    TextsOrdered(a.name, b.name, c.name);
    TextsOrdered(a.namespace, b.namespace, c.namespace);
    TextsOrdered(a.version, b.version, c.version);
  }

  lemma ScoredLawful(xs: seq<Scored>)
    ensures Lawful(CompareScored, xs)
  {
    forall a, b | a in xs && b in xs ensures CompareScored(b, a) == CompareScored(a, b).Flip() {
      DocsTie(a.doc, b.doc);
    }
    forall a, b, c | a in xs && b in xs && c in xs && CompareScored(a, b) != Greater && CompareScored(b, c) != Greater
      ensures CompareScored(a, c) != Greater
    {
      if a.score == b.score == c.score {
        DocsOrdered(a.doc, b.doc, c.doc);
      }
    }
  }

  // ----- what matches

  /** The text of the query, folded, occurs in the folded name or the folded description. */
  predicate Matches(fold: Fold, query: string, doc: SearchDocument) {
    Contains(fold(doc.name), query) || Describes(fold, query, doc)
  }

  function Matching(fold: Fold, query: string): SearchDocument -> bool {
    doc => Matches(fold, query, doc)
  }

  lemma PrefixOccurs(s: string, part: string)
    requires StartsWith(s, part)
    ensures Contains(s, part)
  {
    assert OccursAt(s, part, 0);
  }

  /** A name that equals the query starts with it, and one that starts with it contains it. */
  lemma ScoreMeaning(fold: Fold, query: string, doc: SearchDocument)
    ensures Rank(fold, query, doc).Some? <==> Matches(fold, query, doc)
    ensures Rank(fold, query, doc).Some? ==>
      var (score, name) := (Rank(fold, query, doc).value, fold(doc.name));
      && (score >= 4 <==> name == query)
      && (score >= 3 <==> StartsWith(name, query))
      && (score >= 2 <==> Contains(name, query))
      && 1 <= score <= 4
  {
    var name := fold(doc.name);
    if StartsWith(name, query) {
      PrefixOccurs(name, query);
    }
  }

  lemma {:induction false} ScoreAllMatching(fold: Fold, query: string, docs: seq<SearchDocument>)
    ensures Map(DocOf, ScoreAll(fold, query, docs)) == Filter(Matching(fold, query), docs)
    ensures forall s | s in ScoreAll(fold, query, docs) :: Rank(fold, query, s.doc) == Some(s.score)
  {
    if docs != [] {
      ScoreAllMatching(fold, query, docs[1..]);
      ScoreMeaning(fold, query, docs[0]);
      var first := ScoreAll(fold, query, docs)[..|ScoreAll(fold, query, docs)| - |ScoreAll(fold, query, docs[1..])|];
      MapConcat(DocOf, first, ScoreAll(fold, query, docs[1..]));
    }
  }

  /** The result holds each matching document as often as the input does, and nothing else. */
  lemma RankPermutesMatches(fold: Fold, text: string, docs: seq<SearchDocument>)
    requires fold(Trim(text)) != ""
    ensures multiset(LexicalRank(fold, text, docs)) == multiset(Filter(Matching(fold, fold(Trim(text))), docs))
  {
    var query := fold(Trim(text));
    var scored := ScoreAll(fold, query, docs);
    ScoreAllMatching(fold, query, docs);
    SortPermutes(CompareScored, scored);
    MapPermutes(DocOf, SortBy(CompareScored, scored), scored);
  }

  /** No earlier by name; for one name, by namespace; for those too, by version text. */
  predicate KeysInOrder(a: SearchDocument, b: SearchDocument) {
    || Compare(a.name, b.name) == Less
    || (a.name == b.name && Compare(a.namespace, b.namespace) == Less)
    || (a.name == b.name && a.namespace == b.namespace && Compare(a.version, b.version) != Greater)
  }

  /** Where `a` may precede `b` in the results: a better tier, or the same tier and the keys in order. */
  predicate MayPrecede(fold: Fold, query: string, a: SearchDocument, b: SearchDocument) {
    var (x, y) := (fold(a.name), fold(b.name));
    && (y == query ==> x == query)
    && (StartsWith(y, query) ==> StartsWith(x, query))
    && (Contains(y, query) ==> Contains(x, query))
    && ((x == query <==> y == query) && (StartsWith(x, query) <==> StartsWith(y, query)) && (Contains(x, query) <==> Contains(y, query))
        ==> KeysInOrder(a, b))
  }

  lemma DocsInOrder(a: SearchDocument, b: SearchDocument)
    ensures CompareDocs(a, b) != Greater <==> KeysInOrder(a, b)
  {
    TextsOrdered(a.name, b.name, b.name);
    TextsOrdered(a.namespace, b.namespace, b.namespace);
  }

  lemma ScoredMayPrecede(fold: Fold, query: string, a: Scored, b: Scored)
    requires Rank(fold, query, a.doc) == Some(a.score) && Rank(fold, query, b.doc) == Some(b.score)
    requires CompareScored(a, b) != Greater
    ensures MayPrecede(fold, query, a.doc, b.doc)
  {
    ScoreMeaning(fold, query, a.doc);
    ScoreMeaning(fold, query, b.doc);
    DocsInOrder(a.doc, b.doc);
  }

  /**
   * All exact matches, then all other prefix matches, then all other names that contain the query, then the
   * documents only described by it; within a tier by name, namespace and version text.
   */
  lemma RankOrdersTiers(fold: Fold, text: string, docs: seq<SearchDocument>, i: nat, j: nat)
    requires i < j < |LexicalRank(fold, text, docs)|
    ensures MayPrecede(fold, fold(Trim(text)), LexicalRank(fold, text, docs)[i], LexicalRank(fold, text, docs)[j])
  {
    var query := fold(Trim(text));
    var scored := ScoreAll(fold, query, docs);
    var sorted := SortBy(CompareScored, scored);
    ScoredLawful(scored);
    SortSorts(CompareScored, scored);
    SortPermutes(CompareScored, scored);
    ScoreAllMatching(fold, query, docs);
    MapAt(DocOf, sorted);
    SamePermutation(sorted, scored, sorted[i]);
    SamePermutation(sorted, scored, sorted[j]);
    ScoredMayPrecede(fold, query, sorted[i], sorted[j]);
  }

  lemma {:induction false} ScoreAllPermutes(fold: Fold, query: string, a: seq<SearchDocument>, b: seq<SearchDocument>)
    requires multiset(a) == multiset(b)
    ensures multiset(ScoreAll(fold, query, a)) == multiset(ScoreAll(fold, query, b))
  {
    assert |a| == |multiset(a)| && |b| == |multiset(b)|;
    if a != [] {
      var front, back := HeadIn(a, b);
      ScoreAllPermutes(fold, query, a[1..], front + back);
      ScoreAllParts(fold, query, front, a[0], back);
      ScoreAllConcat(fold, query, [a[0]], a[1..]);
      assert a == [a[0]] + a[1..];
    }
  }

  lemma ScoreAllParts(
      fold: Fold, query: string, front: seq<SearchDocument>, doc: SearchDocument, back: seq<SearchDocument>)
    ensures multiset(ScoreAll(fold, query, front + [doc] + back)) ==
      multiset(ScoreAll(fold, query, [doc])) + multiset(ScoreAll(fold, query, front + back))
  {
    ScoreAllConcat(fold, query, front + [doc], back);
    ScoreAllConcat(fold, query, front, [doc]);
    ScoreAllConcat(fold, query, front, back);
  }

  /** No two documents have the same name, namespace and version. */
  ghost predicate KeysDiffer(docs: seq<SearchDocument>) {
    forall a, b | a in docs && b in docs :: a.name == b.name && a.namespace == b.namespace && a.version == b.version ==> a == b
  }

  lemma {:induction false} ScoredDocs(fold: Fold, query: string, docs: seq<SearchDocument>)
    ensures forall s | s in ScoreAll(fold, query, docs) :: s.doc in docs
  {
    if docs != [] {
      ScoredDocs(fold, query, docs[1..]);
    }
  }

  /** When the keys differ, the order in which the documents come in does not show. */
  lemma RankIgnoresOrder(fold: Fold, text: string, docs: seq<SearchDocument>, others: seq<SearchDocument>)
    requires multiset(docs) == multiset(others) && KeysDiffer(docs)
    ensures LexicalRank(fold, text, docs) == LexicalRank(fold, text, others)
  {
    var query := fold(Trim(text));
    var scored := ScoreAll(fold, query, docs);
    ScoredLawful(scored);
    ScoredDocs(fold, query, docs);
    ScoreAllMatching(fold, query, docs);
    ScoreAllPermutes(fold, query, docs, others);
    forall a, b | a in scored && b in scored && CompareScored(a, b) == Equal ensures a == b {
      DocsTie(a.doc, b.doc);
    }
    SortIgnoresOrder(CompareScored, scored, ScoreAll(fold, query, others));
  }
}
