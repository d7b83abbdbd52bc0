/**
 * `slice::sort_by`: sorted, a permutation, and stable. Rust does not say which algorithm does it;
 * `StableSortIsUnique` shows that those three facts leave one possible result.
 */
module Sorting {
  import opened Orders

  ghost predicate Sorted<T>(cmp: Comparator<T>, s: seq<T>) {
    forall i, j | 0 <= i < j < |s| :: cmp(s[i], s[j]) != Greater
  }

  /** Sorted with no ties. */
  ghost predicate StrictlySorted<T>(cmp: Comparator<T>, s: seq<T>) {
    forall i, j | 0 <= i < j < |s| :: cmp(s[i], s[j]) == Less
  }

  function Filter<T>(p: T -> bool, s: seq<T>): (r: seq<T>)
    ensures forall x | x in r :: x in s && p(x)
  {
    if s == [] then []
    else (if p(s[0]) then [s[0]] else []) + Filter(p, s[1..])
  }

  lemma {:induction false} FilterConcat<T>(p: T -> bool, a: seq<T>, b: seq<T>)
    ensures Filter(p, a + b) == Filter(p, a) + Filter(p, b)
  {
    if a == [] {
      assert a + b == b;
    } else {
      assert (a + b)[1..] == a[1..] + b;
      FilterConcat(p, a[1..], b);
    }
  }

  lemma {:induction false} FilterKeeps<T>(p: T -> bool, s: seq<T>, x: T)
    ensures multiset(Filter(p, s))[x] == if p(x) then multiset(s)[x] else 0
  {
    if s != [] {
      assert s == [s[0]] + s[1..];
      FilterKeeps(p, s[1..], x);
    }
  }

  /** The elements of `s` that tie with `x`, in their order. */
  function Ties<T>(cmp: Comparator<T>, x: T, s: seq<T>): seq<T> {
    Filter(TieWith(cmp, x), s)
  }

  function TieWith<T>(cmp: Comparator<T>, x: T): T -> bool {
    (y: T) => cmp(x, y) == Equal
  }

  /** Put `x` after everything that is not above it. */
  function Insert<T>(cmp: Comparator<T>, s: seq<T>, x: T): (r: seq<T>)
    ensures |r| == |s| + 1
  {
    var n := |s| - 1;
    if s == [] || cmp(s[n], x) != Greater then s + [x] else Insert(cmp, s[..n], x) + [s[n]]
  }

  function SortBy<T>(cmp: Comparator<T>, s: seq<T>): (r: seq<T>)
    ensures |r| == |s|
  {
    if s == [] then [] else Insert(cmp, SortBy(cmp, s[..|s| - 1]), s[|s| - 1])
  }

  lemma {:induction false} InsertPermutes<T>(cmp: Comparator<T>, s: seq<T>, x: T)
    ensures multiset(Insert(cmp, s, x)) == multiset(s) + multiset{x}
  {
    var n := |s| - 1;
    if s != [] && cmp(s[n], x) == Greater {
      InsertPermutes(cmp, s[..n], x);
      assert s == s[..n] + [s[n]];
    }
  }

  lemma {:induction false} SortPermutes<T>(cmp: Comparator<T>, s: seq<T>)
    ensures multiset(SortBy(cmp, s)) == multiset(s)
  {
    var n := |s| - 1;
    if s != [] {
      SortPermutes(cmp, s[..n]);
      InsertPermutes(cmp, SortBy(cmp, s[..n]), s[n]);
      assert s == s[..n] + [s[n]];
    }
  }

  lemma SamePermutation<T>(a: seq<T>, b: seq<T>, x: T)
    requires multiset(a) == multiset(b)
    ensures x in a <==> x in b
  {
    assert x in a <==> x in multiset(a);
    assert x in b <==> x in multiset(b);
  }

  lemma LawfulSubset<T>(cmp: Comparator<T>, xs: seq<T>, ys: seq<T>)
    requires Lawful(cmp, xs)
    requires forall y | y in ys :: y in xs
    ensures Lawful(cmp, ys)
  {
  }

  lemma SortedSnoc<T>(cmp: Comparator<T>, s: seq<T>, x: T)
    requires Sorted(cmp, s) && forall y | y in s :: cmp(y, x) != Greater
    ensures Sorted(cmp, s + [x])
  {
  }

  lemma {:induction false} InsertSorted<T>(cmp: Comparator<T>, s: seq<T>, x: T)
    requires Lawful(cmp, s + [x]) && Sorted(cmp, s)
    ensures Sorted(cmp, Insert(cmp, s, x))
  {
    var n := |s| - 1;
    if s != [] {
      var last := s[n];
      assert x in s + [x] && last in s + [x];
      if cmp(last, x) == Greater {
        var r := Insert(cmp, s[..n], x);
        LawfulSubset(cmp, s + [x], s[..n] + [x]);
        InsertSorted(cmp, s[..n], x);
        forall y | y in r ensures cmp(y, last) != Greater {
          InsertPermutes(cmp, s[..n], x);
          SamePermutation(r, s[..n] + [x], y);
        }
        SortedSnoc(cmp, r, last);
      } else {
        forall y | y in s ensures cmp(y, x) != Greater {
          assert y in s + [x];
          assert cmp(last, last) == Equal;
          assert cmp(y, last) != Greater;
        }
        SortedSnoc(cmp, s, x);
      }
    }
  }

  lemma {:induction false} SortSorts<T>(cmp: Comparator<T>, s: seq<T>)
    requires Lawful(cmp, s)
    ensures Sorted(cmp, SortBy(cmp, s))
  {
    var n := |s| - 1;
    if s != [] {
      var front := SortBy(cmp, s[..n]);
      SortSorts(cmp, s[..n]);
      SortPermutes(cmp, s[..n]);
      forall y | y in front + [s[n]] ensures y in s {
        if y in front {
          SamePermutation(front, s[..n], y);
        }
      }
      InsertSorted(cmp, front, s[n]);
    }
  }

  /** Two neighbours change places unseen unless `p` picks both. */
  lemma FilterSwaps<T>(p: T -> bool, s: seq<T>, x: T, y: T)
    requires !p(x) || !p(y)
    ensures Filter(p, s + [x] + [y]) == Filter(p, s + [y] + [x])
  {
    FilterConcat(p, s + [x], [y]);
    FilterConcat(p, s, [x]);
    FilterConcat(p, s + [y], [x]);
    FilterConcat(p, s, [y]);
  }

  lemma FilterSnocs<T>(p: T -> bool, a: seq<T>, b: seq<T>, x: T)
    requires Filter(p, a) == Filter(p, b)
    ensures Filter(p, a + [x]) == Filter(p, b + [x])
  {
    FilterConcat(p, a, [x]);
    FilterConcat(p, b, [x]);
  }

  /** Inserting keeps the order of the elements that `p` picks, when `x` belongs last among them. */
  lemma {:induction false} InsertKeepsOrder<T>(cmp: Comparator<T>, s: seq<T>, x: T, p: T -> bool)
    requires p(x) ==> forall z | z in s && p(z) :: cmp(z, x) != Greater
    ensures Filter(p, Insert(cmp, s, x)) == Filter(p, s + [x])
  {
    var n := |s| - 1;
    if s != [] && cmp(s[n], x) == Greater {
      assert s == s[..n] + [s[n]];
      InsertKeepsOrder(cmp, s[..n], x, p);
      FilterSnocs(p, Insert(cmp, s[..n], x), s[..n] + [x], s[n]);
      FilterSwaps(p, s[..n], x, s[n]);
    }
  }

  lemma {:induction false} SortKeepsOrder<T>(cmp: Comparator<T>, s: seq<T>, p: T -> bool)
    requires forall a, b | a in s && b in s :: p(a) && p(b) ==> cmp(a, b) != Greater
    ensures Filter(p, SortBy(cmp, s)) == Filter(p, s)
  {
    var n := |s| - 1;
    if s != [] {
      var front := s[..n];
      assert s == front + [s[n]];
      SortKeepsOrder(cmp, front, p);
      var sorted := SortBy(cmp, front);
      SortPermutes(cmp, front);
      forall z | z in sorted && p(z) && p(s[n]) ensures cmp(z, s[n]) != Greater {
        SamePermutation(sorted, front, z);
      }
      InsertKeepsOrder(cmp, sorted, s[n], p);
      FilterConcat(p, sorted, [s[n]]);
      FilterConcat(p, front, [s[n]]);
    }
  }

  /** What `sort_by` documents. */
  ghost predicate IsStableSort<T>(cmp: Comparator<T>, s: seq<T>, r: seq<T>) {
    && Sorted(cmp, r)
    && multiset(r) == multiset(s)
    && (forall x | x in s :: Ties(cmp, x, r) == Ties(cmp, x, s))
  }

  lemma SortIsStableSort<T>(cmp: Comparator<T>, s: seq<T>)
    requires Lawful(cmp, s)
    ensures IsStableSort(cmp, s, SortBy(cmp, s))
  {
    SortSorts(cmp, s);
    SortPermutes(cmp, s);
    forall x | x in s ensures Ties(cmp, x, SortBy(cmp, s)) == Ties(cmp, x, s) {
      SortKeepsOrder(cmp, s, TieWith(cmp, x));
    }
  }

  /** Two stable sorts of one sequence start with the same element. */
  lemma StableHeads<T>(cmp: Comparator<T>, a: seq<T>, b: seq<T>)
    requires Lawful(cmp, a) && a != [] && b != []
    requires Sorted(cmp, a) && Sorted(cmp, b) && multiset(a) == multiset(b)
    requires forall x | x in a :: Ties(cmp, x, a) == Ties(cmp, x, b)
    ensures a[0] == b[0]
  {
    SamePermutation(a, b, a[0]);
    SamePermutation(a, b, b[0]);
    assert cmp(a[0], b[0]) != Greater && cmp(b[0], a[0]) != Greater;
    assert Ties(cmp, a[0], a)[0] == a[0];
    assert Ties(cmp, a[0], b)[0] == b[0];
  }

  lemma SameHeadTails<T>(cmp: Comparator<T>, a: seq<T>, b: seq<T>)
    requires a != [] && b != [] && a[0] == b[0]
    requires multiset(a) == multiset(b)
    requires forall x | x in a :: Ties(cmp, x, a) == Ties(cmp, x, b)
    ensures multiset(a[1..]) == multiset(b[1..])
    ensures forall x | x in a[1..] :: Ties(cmp, x, a[1..]) == Ties(cmp, x, b[1..])
  {
    assert a == [a[0]] + a[1..] && b == [b[0]] + b[1..];
    assert multiset(a[1..]) == multiset(a) - multiset{a[0]};
    forall x | x in a[1..] ensures Ties(cmp, x, a[1..]) == Ties(cmp, x, b[1..]) {
      assert x in a;
      if cmp(x, a[0]) == Equal {
        assert Ties(cmp, x, a[1..]) == Ties(cmp, x, a)[1..];
        assert Ties(cmp, x, b[1..]) == Ties(cmp, x, b)[1..];
      } else {
        assert Ties(cmp, x, a[1..]) == Ties(cmp, x, a);
        assert Ties(cmp, x, b[1..]) == Ties(cmp, x, b);
      }
    }
  }

  lemma {:induction false} StableAgree<T>(cmp: Comparator<T>, a: seq<T>, b: seq<T>)
    requires Lawful(cmp, a)
    requires Sorted(cmp, a) && Sorted(cmp, b) && multiset(a) == multiset(b)
    requires forall x | x in a :: Ties(cmp, x, a) == Ties(cmp, x, b)
    ensures a == b
  {
    assert |a| == |multiset(a)| && |b| == |multiset(b)|;
    if a != [] {
      StableHeads(cmp, a, b);
      SameHeadTails(cmp, a, b);
      LawfulSubset(cmp, a, a[1..]);
      StableAgree(cmp, a[1..], b[1..]);
      assert a == [a[0]] + a[1..] && b == [b[0]] + b[1..];
    }
  }

  /** Sorted, permuted and stable: only one sequence is all three. */
  lemma StableSortIsUnique<T>(cmp: Comparator<T>, s: seq<T>, r: seq<T>)
    requires Lawful(cmp, s) && IsStableSort(cmp, s, r)
    ensures r == SortBy(cmp, s)
  {
    SortIsStableSort(cmp, s);
    forall x ensures x in r ==> x in s {
      SamePermutation(r, s, x);
    }
    LawfulSubset(cmp, s, r);
    StableAgree(cmp, r, SortBy(cmp, s));
  }

  /** If `p` picks nothing but copies of `x`, filtering leaves that many copies. */
  lemma {:induction false} Copies<T>(p: T -> bool, x: T, s: seq<T>)
    requires forall y | y in s :: p(y) ==> y == x
    ensures forall y | y in Filter(p, s) :: y == x
    ensures |Filter(p, s)| == multiset(Filter(p, s))[x]
  {
    if s != [] {
      Copies(p, x, s[1..]);
    }
  }

  lemma TiesAreCopies<T>(cmp: Comparator<T>, x: T, r: seq<T>, t: seq<T>)
    requires multiset(r) == multiset(t)
    requires forall y | y in r :: cmp(x, y) == Equal ==> y == x
    ensures Ties(cmp, x, r) == Ties(cmp, x, t)
  {
    var tie := TieWith(cmp, x);
    forall y | y in t ensures y in r {
      SamePermutation(r, t, y);
    }
    Copies(tie, x, r);
    Copies(tie, x, t);
    FilterKeeps(tie, r, x);
    FilterKeeps(tie, t, x);
    var fr, ft := Filter(tie, r), Filter(tie, t);
    forall i | 0 <= i < |fr| ensures fr[i] == x && ft[i] == x {
      assert fr[i] in fr && ft[i] in ft;
    }
  }

  /** When only identical elements tie, the input order does not matter. */
  lemma SortIgnoresOrder<T>(cmp: Comparator<T>, s: seq<T>, t: seq<T>)
    requires Lawful(cmp, s) && multiset(s) == multiset(t)
    requires forall a, b | a in s && b in s :: cmp(a, b) == Equal ==> a == b
    ensures SortBy(cmp, s) == SortBy(cmp, t)
  {
    var r := SortBy(cmp, s);
    SortSorts(cmp, s);
    SortPermutes(cmp, s);
    forall x | x in t ensures x in s {
      SamePermutation(s, t, x);
    }
    forall x | x in r ensures x in s {
      SamePermutation(s, r, x);
    }
    LawfulSubset(cmp, s, t);
    forall x | x in t ensures Ties(cmp, x, r) == Ties(cmp, x, t) {
      forall y | y in r ensures cmp(x, y) == Equal ==> y == x {
        assert x in s && y in s;
      }
      TiesAreCopies(cmp, x, r, t);
    }
    StableSortIsUnique(cmp, t, r);
  }

  /** The place of `x`: everything from `j` on is larger, and what stands before `j` is not. */
  lemma {:induction false} InsertPlaces<T>(cmp: Comparator<T>, s: seq<T>, j: nat, x: T)
    requires j <= |s| && (j > 0 ==> cmp(s[j - 1], x) != Greater)
    requires forall k | j <= k < |s| :: cmp(s[k], x) == Greater
    ensures Insert(cmp, s, x) == s[..j] + [x] + s[j..]
  {
    var n := |s| - 1;
    if j <= n {
      InsertPlaces(cmp, s[..n], j, x);
      assert s[..n][..j] == s[..j] && s[..n][j..] + [s[n]] == s[j..];
    } else {
      assert s[..j] == s && s[j..] == [];
    }
  }

  /** The items around the place of `x`, one by one. */
  lemma Placed<T>(s: seq<T>, j: nat, x: T, r: seq<T>)
    requires j <= |s| && |r| == |s| + 1 && r[j] == x
    requires forall k | 0 <= k < j :: r[k] == s[k]
    requires forall k | j < k <= |s| :: r[k] == s[k - 1]
    ensures r == s[..j] + [x] + s[j..]
  {
  }

  /** One round of insertion: move the element at `i` down to its place among the first `i`. */
  method InsertInPlace<T>(cmp: Comparator<T>, a: array<T>, i: nat)
    requires i < a.Length
    modifies a
    ensures a[..i + 1] == Insert(cmp, old(a[..i]), old(a[i]))
    ensures a[i + 1..] == old(a[i + 1..])
  {
    ghost var front := a[..i];
    var x := a[i];
    var j := i;
    while j > 0 && cmp(a[j - 1], x) == Greater
      invariant 0 <= j <= i
      invariant forall k | 0 <= k < j :: a[k] == front[k]
      invariant forall k | j < k <= i :: a[k] == front[k - 1]
      invariant forall k | i < k < a.Length :: a[k] == old(a[k])
      invariant forall k | j <= k < i :: cmp(front[k], x) == Greater
    {
      a[j] := a[j - 1];
      j := j - 1;
    }
    a[j] := x;
    assert a[i + 1..] == old(a[i + 1..]);
    ghost var placed := a[..i + 1];
    assert placed[j] == x && |placed| == |front| + 1;
    InsertPlaces(cmp, front, j, x);
    Placed(front, j, x, placed);
  }

  /** What one round does to the whole sequence. */
  lemma SortStep<T>(cmp: Comparator<T>, input: seq<T>, before: seq<T>, after: seq<T>, i: nat)
    requires i < |input| == |before| == |after|
    requires before[..i] == SortBy(cmp, input[..i]) && before[i..] == input[i..]
    requires after[..i + 1] == Insert(cmp, before[..i], before[i]) && after[i + 1..] == before[i + 1..]
    ensures after[..i + 1] == SortBy(cmp, input[..i + 1]) && after[i + 1..] == input[i + 1..]
  {
    assert input[..i + 1][..i] == input[..i] && before[i] == before[i..][0] == input[i];
    assert before[i + 1..] == before[i..][1..] == input[i..][1..];
  }

  /** The sort in place, as the index and search code calls `Vec::sort_by`. */
  method SortInPlace<T>(cmp: Comparator<T>, a: array<T>)
    modifies a
    ensures a[..] == SortBy(cmp, old(a[..]))
  {
    ghost var input := a[..];
    var i := 0;
    while i < a.Length
      invariant i <= a.Length
      invariant a[..i] == SortBy(cmp, input[..i])
      invariant a[i..] == input[i..]
    {
      ghost var before := a[..];
      assert before[..i] == a[..i] && before[i..] == a[i..];
      InsertInPlace(cmp, a, i);
      SortStep(cmp, input, before, a[..], i);
      i := i + 1;
    }
    assert a[..i] == a[..] && input[..i] == input;
  }
}
