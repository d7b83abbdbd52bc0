/**
 * Precedence as section 11 of Semantic Versioning 2.0.0 words it, and what the comparator of the
 * compatibility index has to do with it.
 */
module Precedence {
  import opened Wrappers
  import opened Orders
  import opened Text
  import opened SemVer

  /** Sections 11.4.1 to 11.4.3: numbers by value, below all other identifiers, which go by ASCII. */
  ghost predicate IdentifierPrecedes(a: string, b: string) {
    if AllDigits(a) && AllDigits(b) then ToNat(a) < ToNat(b)
    else if AllDigits(a) || AllDigits(b) then AllDigits(a)
    else ComesBefore((x: char, y: char) => x < y, a, b)
  }

  /** Sections 11.3 and 11.4: a pre-release precedes the release; two compare field by field. */
  ghost predicate PrePrecedes(a: string, b: string) {
    a != "" && (b == "" || ComesBefore(IdentifierPrecedes, Split(a, '.'), Split(b, '.')))
  }

  /** Section 11: major, minor, patch, then pre-release. Build metadata has no say. */
  ghost predicate Precedes(a: Version, b: Version) {
    || a.major < b.major
    || (a.major == b.major && a.minor < b.minor)
    || (a.major == b.major && a.minor == b.minor && a.patch < b.patch)
    || (a.major == b.major && a.minor == b.minor && a.patch == b.patch && PrePrecedes(a.pre, b.pre))
  }

  lemma {:induction false} CompareSnoc(a: string, x: char, b: string, y: char)
    requires |a| == |b|
    ensures Compare(a + [x], b + [y]) == Compare(a, b).Then(CompareChar(x, y))
  {
    if a == "" {
      assert (a + [x])[1..] == "" && (b + [y])[1..] == "";
    } else {
      assert (a + [x])[1..] == a[1..] + [x] && (b + [y])[1..] == b[1..] + [y];
      CompareSnoc(a[1..], x, b[1..], y);
    }
  }

  /** Among runs of digits of one length, text order is numeric order. */
  lemma {:induction false} SameLengthOrder(a: string, b: string)
    requires AllDigits(a) && AllDigits(b) && |a| == |b|
    ensures Compare(a, b) == CompareNat(ToNat(a), ToNat(b))
  {
    if a != "" {
      var n := |a| - 1;
      SameLengthOrder(a[..n], b[..n]);
      CompareSnoc(a[..n], a[n], b[..n], b[n]);
      assert a == a[..n] + [a[n]] && b == b[..n] + [b[n]];
    }
  }

  lemma {:induction false} ShorterIsSmaller(a: string, b: string)
    requires IsNumeral(a) && IsNumeral(b) && |a| < |b|
    ensures ToNat(a) < ToNat(b)
  {
    var high := b[..|b| - 1];
    assert IsNumeral(high);
    if |a| == 1 {
      assert high != "0";
      ToNatPositive(high);
      assert a[..0] == "";
    } else {
      ShorterIsSmaller(a[..|a| - 1], high);
    }
  }

  /** Comparing numerals by length and then text is comparing their values. */
  lemma NumeralOrder(a: string, b: string)
    requires IsNumeral(a) && IsNumeral(b)
    ensures ComparePreIdentifier(a, b) == Less <==> ToNat(a) < ToNat(b)
  {
    if |a| < |b| {
      ShorterIsSmaller(a, b);
    } else if |b| < |a| {
      ShorterIsSmaller(b, a);
    } else {
      SameLengthOrder(a, b);
    }
  }

  lemma TextMeaning(a: string, b: string)
    ensures Compare(a, b) == Less <==> ComesBefore((x: char, y: char) => x < y, a, b)
  {
    CompareSeqMeaning(CompareChar, (x: char, y: char) => x < y, a, b);
  }

  lemma PreMeaning(a: string, b: string)
    requires (a == "" || IsPre(a)) && (b == "" || IsPre(b))
    ensures ComparePre(a, b) == Less <==> PrePrecedes(a, b)
  {
    if a != "" && b != "" {
      PreIdentifierTotal();
      forall x, y | x in Split(a, '.') && y in Split(b, '.')
        ensures ComparePreIdentifier(x, y) == Less <==> IdentifierPrecedes(x, y)
      {
        if AllDigits(x) && AllDigits(y) {
          NumeralOrder(x, y);
        } else {
          TextMeaning(x, y);
        }
      }
      CompareSeqMeaning(ComparePreIdentifier, IdentifierPrecedes, Split(a, '.'), Split(b, '.'));
    }
  }

  /** Build identifiers: numbers by value and then by length, below all others, which go by ASCII. */
  ghost predicate BuildIdentifierPrecedes(a: string, b: string) {
    if AllDigits(a) && AllDigits(b) then ToNat(a) < ToNat(b) || (ToNat(a) == ToNat(b) && |a| < |b|)
    else if AllDigits(a) || AllDigits(b) then AllDigits(a)
    else ComesBefore((x: char, y: char) => x < y, a, b)
  }

  ghost predicate BuildPrecedes(a: string, b: string) {
    ComesBefore(BuildIdentifierPrecedes, Split(a, '.'), Split(b, '.'))
  }

  lemma {:induction false} LeadingZero(s: string)
    requires AllDigits(s)
    ensures ToNat("0" + s) == ToNat(s)
  {
    var t := "0" + s;
    if s == "" {
      assert t[..0] == "" && ToNat(t) == 0;
    } else {
      assert t[..|t| - 1] == "0" + s[..|s| - 1] && t[|t| - 1] == s[|s| - 1];
      LeadingZero(s[..|s| - 1]);
    }
  }

  /** Leading zeros do not change the value. */
  lemma {:induction false} TrimZerosValue(s: string)
    requires AllDigits(s)
    ensures AllDigits(TrimZeros(s)) && ToNat(TrimZeros(s)) == ToNat(s)
    ensures TrimZeros(s) == "" || (IsNumeral(TrimZeros(s)) && ToNat(TrimZeros(s)) > 0)
  {
    if s != "" && s[0] == '0' {
      TrimZerosValue(s[1..]);
      LeadingZero(s[1..]);
      assert s == "0" + s[1..];
    } else if s != "" {
      ToNatPositive(s);
    }
  }

  lemma TrimmedOrder(a: string, b: string)
    requires AllDigits(a) && AllDigits(b)
    ensures CompareNat(|TrimZeros(a)|, |TrimZeros(b)|).Then(Compare(TrimZeros(a), TrimZeros(b))) == CompareNat(ToNat(a), ToNat(b))
  {
    var x, y := TrimZeros(a), TrimZeros(b);
    TrimZerosValue(a);
    TrimZerosValue(b);
    if |x| == |y| {
      SameLengthOrder(x, y);
    } else if x != "" && y != "" {
      if |x| < |y| {
        ShorterIsSmaller(x, y);
      } else {
        ShorterIsSmaller(y, x);
      }
    }
  }

  lemma BuildMeaning(a: string, b: string)
    ensures CompareBuild(a, b) == Less <==> BuildPrecedes(a, b)
  {
    BuildIdentifierTotal();
    forall x, y | x in Split(a, '.') && y in Split(b, '.')
      ensures CompareBuildIdentifier(x, y) == Less <==> BuildIdentifierPrecedes(x, y)
    {
      if AllDigits(x) && AllDigits(y) {
        TrimmedOrder(x, y);
      } else {
        TextMeaning(x, y);
      }
    }
    CompareSeqMeaning(CompareBuildIdentifier, BuildIdentifierPrecedes, Split(a, '.'), Split(b, '.'));
  }

  /** `a` precedes `b`, or differs from it only in lower build metadata. */
  ghost predicate Below(a: Version, b: Version) {
    Precedes(a, b) || (a == b.(build := a.build) && BuildPrecedes(a.build, b.build))
  }

  lemma ParsedMeaning(a: Version, b: Version)
    requires WellFormed(a) && WellFormed(b)
    ensures CompareParsed(a, b) == Less <==> Below(a, b)
  {
    ComparePreTotal();
    PreMeaning(a.pre, b.pre);
    BuildMeaning(a.build, b.build);
  }

  ghost predicate TextPrecedes(left: string, right: string) {
    Parse(left).Some? && Parse(right).Some? && Below(Parse(left).value, Parse(right).value)
  }

  /** On accepted text the comparator is section 11, with build metadata deciding only its ties. */
  lemma ComparatorRefinesPrecedence(left: string, right: string)
    requires Parse(left).Some? && Parse(right).Some?
    ensures CompareVersions(left, right) == Less <==> TextPrecedes(left, right)
  {
    PrintParse(left);
    PrintParse(right);
    ParsedMeaning(Parse(left).value, Parse(right).value);
  }

  /** On accepted text the comparator is a strict total order: distinct text never ties. */
  lemma ComparatorIsStrictTotal(a: string, b: string, c: string)
    requires Parse(a).Some? && Parse(b).Some? && Parse(c).Some?
    ensures CompareVersions(a, b) == Equal <==> a == b
    ensures CompareVersions(b, a) == CompareVersions(a, b).Flip()
    ensures CompareVersions(a, b) == Less && CompareVersions(b, c) == Less ==> CompareVersions(a, c) == Less
  {
    CompareParsedTotal();
    ParseAcceptsExactly(a);
  }

  lemma ComparatorFlips(a: string, b: string)
    ensures CompareVersions(a, b) == Equal <==> a == b
    ensures CompareVersions(b, a) == CompareVersions(a, b).Flip()
  {
    CompareParsedTotal();
    CompareTotal();
    ParseAcceptsExactly(a);
  }

  /** Text `x` does not parse and lies between two versions that SemVer orders the other way round. */
  predicate StraddlesAs(x: string, vx: Option<Version>, p: string, vp: Option<Version>, q: string, vq: Option<Version>) {
    && vx.None? && vp.Some? && vq.Some?
    && Compare(p, x) == Less && Compare(x, q) == Less
    && CompareParsed(vq.value, vp.value) == Less
  }

  predicate Straddles(x: string, p: string, q: string) {
    StraddlesAs(x, Parse(x), p, Parse(p), q, Parse(q))
  }

  lemma FallbackTransitiveAs(a: string, va: Option<Version>, b: string, vb: Option<Version>, c: string, vc: Option<Version>)
    requires TotalOrder(CompareParsed) && TotalOrder(Compare)
    requires (a == c ==> va == vc) && (va.Some? && va == vc ==> a == c)
    requires CompareAs(a, va, b, vb) == Less && CompareAs(b, vb, c, vc) == Less
    ensures CompareAs(a, va, c, vc) == Less <==>
      !StraddlesAs(a, va, c, vc, b, vb) && !StraddlesAs(b, vb, a, va, c, vc) && !StraddlesAs(c, vc, b, vb, a, va)
  {
  }

  /** Over arbitrary text, this is exactly when the fallback breaks transitivity. */
  lemma FallbackTransitiveExactly(a: string, b: string, c: string)
    requires CompareVersions(a, b) == Less && CompareVersions(b, c) == Less
    ensures CompareVersions(a, c) == Less <==>
      !Straddles(a, c, b) && !Straddles(b, a, c) && !Straddles(c, b, a)
  {
    CompareParsedTotal();
    CompareTotal();
    ParseAcceptsExactly(a);
    FallbackTransitiveAs(a, Parse(a), b, Parse(b), c, Parse(c));
  }

  lemma ExampleVersions()
    ensures Parse("1.2.0") == Some(Version(1, 2, 0, "", ""))
    ensures Parse("1.10.0") == Some(Version(1, 10, 0, "", ""))
  {
    assert ToText(1) == "1" && ToText(2) == "2" && ToText(0) == "0" && ToText(10) == "10";
    assert PrintTail("", "") == "";
    assert Print(Version(1, 2, 0, "", "")) == "1.2.0" by {
      assert PrintField(2, "0") == "2.0";
    }
    assert Print(Version(1, 10, 0, "", "")) == "1.10.0" by {
      assert PrintField(10, "0") == "10.0";
    }
    ParsePrint(Version(1, 2, 0, "", ""));
    ParsePrint(Version(1, 10, 0, "", ""));
  }

  lemma ExampleText()
    ensures Parse("1.10x") == None
  {
  }

  lemma ExampleOrder()
    ensures Compare("1.10.0", "1.10x") == Less && Compare("1.10x", "1.2.0") == Less
  {
    var below := (x: char, y: char) => x < y;
    assert LowerAt(below, "1.10.0", "1.10x", 4);
    assert LowerAt(below, "1.10x", "1.2.0", 2);
    TextMeaning("1.10.0", "1.10x");
    TextMeaning("1.10x", "1.2.0");
  }

  /** The fallback does break transitivity: these three go round in a circle. */
  lemma FallbackCycle()
    ensures CompareVersions("1.2.0", "1.10.0") == Less
    ensures CompareVersions("1.10.0", "1.10x") == Less
    ensures CompareVersions("1.10x", "1.2.0") == Less
  {
    ExampleVersions();
    ExampleText();
    ExampleOrder();
  }
}
