/** Three-way comparison, and what makes a comparator lawful. */
module Orders {
  datatype Ordering = Less | Equal | Greater {
    function Flip(): Ordering {
      match this
      case Less => Greater
      case Equal => Equal
      case Greater => Less
    }

    /** `Ordering::then_with`: the next key decides ties. */
    function Then(next: Ordering): Ordering {
      if Equal? then next else this
    }
  }

  type Comparator<!T> = (T, T) -> Ordering

  /** The laws a sort needs of its comparator, on the elements it will be shown. */
  ghost predicate Lawful<T>(cmp: Comparator<T>, xs: seq<T>) {
    && (forall a, b | a in xs && b in xs :: cmp(b, a) == cmp(a, b).Flip())
    && (forall a, b, c | a in xs && b in xs && c in xs ::
          cmp(a, b) != Greater && cmp(b, c) != Greater ==> cmp(a, c) != Greater)
  }

  /** A strict total order on the whole type: only identical values tie. */
  ghost predicate TotalOrder<T(!new)>(cmp: Comparator<T>) {
    && (forall a, b :: cmp(a, b) == Equal <==> a == b)
    && (forall a, b :: cmp(b, a) == cmp(a, b).Flip())
    && (forall a, b, c :: cmp(a, b) == Less && cmp(b, c) == Less ==> cmp(a, c) == Less)
  }

  function CompareNat(a: nat, b: nat): Ordering {
    if a < b then Less else if a > b then Greater else Equal
  }

  /** Rust's order on slices: the first difference decides, and a proper prefix is smaller. */
  function CompareSeq<T>(cmp: Comparator<T>, a: seq<T>, b: seq<T>): Ordering {
    if a == [] then (if b == [] then Equal else Less)
    else if b == [] then Greater
    else cmp(a[0], b[0]).Then(CompareSeq(cmp, a[1..], b[1..]))
  }

  lemma {:induction false} CompareSeqEqual<T(!new)>(cmp: Comparator<T>, a: seq<T>, b: seq<T>)
    requires TotalOrder(cmp)
    ensures CompareSeq(cmp, a, b) == Equal <==> a == b
  {
    if a != [] && b != [] {
      CompareSeqEqual(cmp, a[1..], b[1..]);
      assert a == [a[0]] + a[1..] && b == [b[0]] + b[1..];
    }
  }

  lemma {:induction false} CompareSeqFlip<T(!new)>(cmp: Comparator<T>, a: seq<T>, b: seq<T>)
    requires TotalOrder(cmp)
    ensures CompareSeq(cmp, b, a) == CompareSeq(cmp, a, b).Flip()
  {
    if a != [] && b != [] {
      CompareSeqFlip(cmp, a[1..], b[1..]);
    }
  }

  lemma {:induction false} CompareSeqTrans<T(!new)>(cmp: Comparator<T>, a: seq<T>, b: seq<T>, c: seq<T>)
    requires TotalOrder(cmp)
    requires CompareSeq(cmp, a, b) == Less && CompareSeq(cmp, b, c) == Less
    ensures CompareSeq(cmp, a, c) == Less
  {
    if a != [] {
      assert cmp(a[0], b[0]) != Greater && cmp(b[0], c[0]) != Greater;
      if a[0] == b[0] && b[0] == c[0] {
        CompareSeqTrans(cmp, a[1..], b[1..], c[1..]);
      }
    }
  }

  /** Lexicographic extension keeps the laws. */
  lemma CompareSeqTotal<T(!new)>(cmp: Comparator<T>)
    requires TotalOrder(cmp)
    ensures TotalOrder((a: seq<T>, b: seq<T>) => CompareSeq(cmp, a, b))
  {
    forall a, b ensures CompareSeq(cmp, a, b) == Equal <==> a == b {
      CompareSeqEqual(cmp, a, b);
    }
    forall a, b ensures CompareSeq(cmp, b, a) == CompareSeq(cmp, a, b).Flip() {
      CompareSeqFlip(cmp, a, b);
    }
    forall a, b, c | CompareSeq(cmp, a, b) == Less && CompareSeq(cmp, b, c) == Less
      ensures CompareSeq(cmp, a, c) == Less
    {
      CompareSeqTrans(cmp, a, b, c);
    }
  }

  function CompareChar(a: char, b: char): Ordering {
    if a < b then Less else if a > b then Greater else Equal
  }

  /** `str::cmp`. UTF-8 keeps code point order, so comparing characters is comparing bytes. */
  function Compare(a: string, b: string): Ordering {
    CompareSeq(CompareChar, a, b)
  }

  lemma CompareTotal()
    ensures TotalOrder(Compare)
  {
    CompareSeqTotal(CompareChar);
    var lifted := (a: string, b: string) => CompareSeq(CompareChar, a, b);
    assert forall a, b :: Compare(a, b) == lifted(a, b);
  }

  /** `a` and `b` agree up to `k`, where `a` has run out or holds the lower item. */
  ghost predicate LowerAt<T>(below: (T, T) -> bool, a: seq<T>, b: seq<T>, k: nat) {
    k <= |a| && k < |b| && a[..k] == b[..k] && (k == |a| || below(a[k], b[k]))
  }

  /** What a lexicographic order means: the first place where the two differ decides. */
  ghost predicate ComesBefore<T>(below: (T, T) -> bool, a: seq<T>, b: seq<T>) {
    exists k: nat :: LowerAt(below, a, b, k)
  }

  /** One shared leading item moves the deciding place by one. */
  lemma LowerAtShift<T>(below: (T, T) -> bool, a: seq<T>, b: seq<T>, k: nat)
    requires a != [] && b != [] && a[0] == b[0]
    ensures LowerAt(below, a[1..], b[1..], k) <==> LowerAt(below, a, b, k + 1)
  {
  }

  lemma ComesBeforeTail<T>(below: (T, T) -> bool, a: seq<T>, b: seq<T>)
    requires a != [] && b != [] && a[0] == b[0] && !below(a[0], b[0])
    ensures ComesBefore(below, a[1..], b[1..]) <==> ComesBefore(below, a, b)
  {
    if k: nat :| LowerAt(below, a[1..], b[1..], k) {
      LowerAtShift(below, a, b, k);
    }
    if k: nat :| LowerAt(below, a, b, k) {
      assert k > 0;
      LowerAtShift(below, a, b, k - 1);
    }
  }

  lemma {:induction false} CompareSeqMeaning<T(!new)>(cmp: Comparator<T>, below: (T, T) -> bool, a: seq<T>, b: seq<T>)
    requires TotalOrder(cmp)
    requires forall x, y | x in a && y in b :: cmp(x, y) == Less <==> below(x, y)
    ensures CompareSeq(cmp, a, b) == Less <==> ComesBefore(below, a, b)
  {
    if b == [] {
      assert forall k: nat :: !LowerAt(below, a, b, k);
    } else if a == [] {
      assert LowerAt(below, a, b, 0);
    } else if a[0] != b[0] {
      assert forall k: nat :: LowerAt(below, a, b, k) ==> k == 0;
      if cmp(a[0], b[0]) == Less {
        assert LowerAt(below, a, b, 0);
      }
    } else {
      CompareSeqMeaning(cmp, below, a[1..], b[1..]);
      ComesBeforeTail(below, a, b);
    }
  }
}
