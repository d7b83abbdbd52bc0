/** Mapping, counting and concatenating sequences. */
module Sequences {
  function Map<T, U>(f: T -> U, s: seq<T>): (r: seq<U>)
    ensures |r| == |s|
  {
    if s == [] then [] else [f(s[0])] + Map(f, s[1..])
  }

  lemma {:induction false} MapAt<T, U>(f: T -> U, s: seq<T>)
    ensures forall i | 0 <= i < |s| :: Map(f, s)[i] == f(s[i])
  {
    if s != [] {
      MapAt(f, s[1..]);
    }
  }

  lemma {:induction false} MapConcat<T, U>(f: T -> U, a: seq<T>, b: seq<T>)
    ensures Map(f, a + b) == Map(f, a) + Map(f, b)
  {
    if a == [] {
      assert a + b == b;
    } else {
      assert (a + b)[1..] == a[1..] + b;
      MapConcat(f, a[1..], b);
    }
  }

  lemma MapParts<T, U>(f: T -> U, front: seq<T>, x: T, back: seq<T>)
    ensures Map(f, front + [x] + back) == Map(f, front) + [f(x)] + Map(f, back)
  {
    MapConcat(f, front + [x], back);
    MapConcat(f, front, [x]);
  }

  lemma CountParts<T>(front: seq<T>, x: T, back: seq<T>)
    ensures multiset(front + [x] + back) == multiset(front + back) + multiset{x}
  {
  }

  lemma SplitAround<T>(s: seq<T>, x: T) returns (front: seq<T>, back: seq<T>)
    requires x in s
    ensures s == front + [x] + back
  {
    var k :| 0 <= k < |s| && s[k] == x;
    front, back := s[..k], s[k + 1..];
  }

  lemma Cancel<T>(a: multiset<T>, b: multiset<T>, x: T)
    requires a + multiset{x} == b + multiset{x}
    ensures a == b
  {
    assert a == a + multiset{x} - multiset{x};
    assert b == b + multiset{x} - multiset{x};
  }

  lemma HeadIn<T>(a: seq<T>, b: seq<T>) returns (front: seq<T>, back: seq<T>)
    requires multiset(a) == multiset(b) && a != []
    ensures b == front + [a[0]] + back && multiset(a[1..]) == multiset(front + back)
  {
    assert a[0] in multiset(a);
    front, back := SplitAround(b, a[0]);
    CountParts(front, a[0], back);
    assert multiset(a) == multiset(a[1..]) + multiset{a[0]} by {
      assert a == [a[0]] + a[1..];
    }
    Cancel(multiset(a[1..]), multiset(front + back), a[0]);
  }

  lemma {:induction false} MapPermutes<T, U>(f: T -> U, a: seq<T>, b: seq<T>)
    requires multiset(a) == multiset(b)
    ensures multiset(Map(f, a)) == multiset(Map(f, b))
  {
    assert |a| == |multiset(a)| && |b| == |multiset(b)|;
    if a != [] {
      var front, back := HeadIn(a, b);
      MapPermutes(f, a[1..], front + back);
      MapParts(f, front, a[0], back);
      MapConcat(f, front, back);
      CountParts(Map(f, front), f(a[0]), Map(f, back));
    }
  }

  lemma {:induction false} MapMap<T, U, V>(f: T -> U, g: U -> V, h: T -> V, s: seq<T>)
    requires forall x | x in s :: g(f(x)) == h(x)
    ensures Map(g, Map(f, s)) == Map(h, s)
  {
    if s != [] {
      MapMap(f, g, h, s[1..]);
    }
  }

  ghost predicate Distinct<T>(s: seq<T>) {
    forall i, j | 0 <= i < j < |s| :: s[i] != s[j]
  }

  lemma {:induction false} DistinctCounts<T>(s: seq<T>, x: T)
    requires Distinct(s)
    ensures multiset(s)[x] == if x in s then 1 else 0
  {
    if s != [] {
      assert s == [s[0]] + s[1..];
      DistinctCounts(s[1..], x);
    }
  }

  lemma CountsDistinct<T>(s: seq<T>)
    requires forall x | x in s :: multiset(s)[x] == 1
    ensures Distinct(s)
  {
    forall i, j | 0 <= i < j < |s| ensures s[i] != s[j] {
      assert s == s[..j] + s[j..];
      assert s[i] in multiset(s[..j]) && s[j] in multiset(s[j..]);
      assert s[i] in s;
    }
  }

  /** A sequence without repetitions is as long as the set of its items is large. */
  lemma {:induction false} DistinctSize<T>(s: seq<T>, items: set<T>)
    requires Distinct(s) && forall x :: x in s <==> x in items
    ensures |s| == |items|
  {
    if s == [] {
      assert items == {};
    } else {
      assert s == [s[0]] + s[1..];
      DistinctSize(s[1..], items - {s[0]});
    }
  }

  /** The items of `s` are exactly those that `wanted` picks, each once. */
  ghost predicate Lists<T(!new)>(s: seq<T>, wanted: T -> bool) {
    Distinct(s) && forall x :: x in s <==> wanted(x)
  }

  lemma ListingPermuted<T(!new)>(s: seq<T>, r: seq<T>, wanted: T -> bool)
    requires Lists(s, wanted) && multiset(r) == multiset(s)
    ensures Lists(r, wanted)
  {
    forall y ensures y in r <==> y in s {
      assert y in r <==> y in multiset(r);
      assert y in s <==> y in multiset(s);
    }
    forall y | y in r ensures multiset(r)[y] == 1 {
      DistinctCounts(s, y);
    }
    CountsDistinct(r);
  }

  /** A listing can start with any item it lists. */
  lemma ListedFirst<T(!new)>(s: seq<T>, wanted: T -> bool, x: T) returns (r: seq<T>)
    requires Lists(s, wanted) && wanted(x)
    ensures Lists(r, wanted) && r != [] && r[0] == x
  {
    var front, back := SplitAround(s, x);
    r := [x] + front + back;
    CountParts(front, x, back);
    CountParts([], x, front + back);
    assert r == [] + [x] + (front + back) && [] + (front + back) == front + back;
    ListingPermuted(s, r, wanted);
  }

  /** Two listings of the same items differ only in order. */
  lemma ListingsPermute<T(!new)>(a: seq<T>, b: seq<T>, wanted: T -> bool)
    requires Lists(a, wanted) && Lists(b, wanted)
    ensures multiset(a) == multiset(b)
  {
    forall x ensures multiset(a)[x] == multiset(b)[x] {
      DistinctCounts(a, x);
      DistinctCounts(b, x);
    }
  }
}
