/**
 * Version text and precedence. `Version::parse` and `Version::cmp` come from the semver crate, which
 * is not part of this repository: the grammar follows sections 2, 9 and 10 of Semantic Versioning
 * 2.0.0, the numbers are 64-bit, and build metadata breaks ties so that the order is total.
 */
module SemVer {
  import opened Wrappers
  import opened Orders
  import opened Text

  const U64_MAX: nat := 0xFFFF_FFFF_FFFF_FFFF

  datatype Version = Version(major: nat, minor: nat, patch: nat, pre: string, build: string)

  // ----- numbers as text

  function DigitValue(c: char): (n: nat)
    requires IsDigit(c)
    ensures n < 10 && ('0' as int + n) as char == c
  {
    c as int - '0' as int
  }

  function DigitChar(n: nat): (c: char)
    requires n < 10
    ensures IsDigit(c) && DigitValue(c) == n
  {
    ('0' as int + n) as char
  }

  predicate AllDigits(s: string) {
    forall c | c in s :: IsDigit(c)
  }

  /** The number that a run of digits stands for. */
  function ToNat(s: string): nat
    requires AllDigits(s)
  {
    if s == "" then 0 else ToNat(s[..|s| - 1]) * 10 + DigitValue(s[|s| - 1])
  }

  function ToText(n: nat): (s: string)
    ensures s != "" && AllDigits(s)
  {
    if n < 10 then [DigitChar(n)] else ToText(n / 10) + [DigitChar(n % 10)]
  }

  /** A number as section 2 allows it: digits with no leading zero. */
  predicate IsNumeral(s: string) {
    s != "" && AllDigits(s) && (|s| > 1 ==> s[0] != '0')
  }

  lemma {:induction false} ToTextIsNumeral(n: nat)
    ensures IsNumeral(ToText(n)) && ToNat(ToText(n)) == n
    ensures n > 0 ==> ToText(n)[0] != '0'
  {
    if n >= 10 {
      ToTextIsNumeral(n / 10);
      assert ToText(n)[..|ToText(n)| - 1] == ToText(n / 10);
    } else {
      assert ToText(n)[..0] == "";
    }
  }

  lemma {:induction false} ToNatPositive(s: string)
    requires IsNumeral(s) && s != "0"
    ensures ToNat(s) > 0
  {
    if |s| > 1 {
      assert IsNumeral(s[..|s| - 1]) && s[..|s| - 1] != "0";
      ToNatPositive(s[..|s| - 1]);
    } else {
      assert s == [s[0]];
      assert s[0] != '0';
    }
  }

  lemma {:induction false} NumeralIsToText(s: string)
    requires IsNumeral(s)
    ensures ToText(ToNat(s)) == s
  {
    var n := |s| - 1;
    if n == 0 {
      assert s[..0] == "" && s == [s[0]];
    } else {
      var high := s[..n];
      assert IsNumeral(high) && high != "0";
      NumeralIsToText(high);
      ToNatPositive(high);
      assert ToNat(s) / 10 == ToNat(high) && DigitChar(ToNat(s) % 10) == s[n];
      assert s == high + [s[n]];
    }
  }

  // ----- the parser

  /** Length of the longest leading run of characters that satisfy `p`. */
  function RunLength(s: string, p: char -> bool): (n: nat)
    ensures n <= |s|
    ensures forall i | 0 <= i < n :: p(s[i])
    ensures n < |s| ==> !p(s[n])
  {
    if s == "" || !p(s[0]) then 0 else 1 + RunLength(s[1..], p)
  }

  lemma {:induction false} RunLengthAt(head: string, tail: string, p: char -> bool)
    requires forall c | c in head :: p(c)
    requires tail == "" || !p(tail[0])
    ensures RunLength(head + tail, p) == |head|
  {
    if head != "" {
      assert (head + tail)[1..] == head[1..] + tail;
      RunLengthAt(head[1..], tail, p);
    } else {
      assert head + tail == tail;
    }
  }

  function ParseNumeral(s: string): Option<(nat, string)> {
    var n := RunLength(s, IsDigit);
    var digits := s[..n];
    if IsNumeral(digits) && ToNat(digits) <= U64_MAX then Some((ToNat(digits), s[n..])) else None
  }

  predicate IsIdentifierChar(c: char) {
    IsDigit(c) || IsUpper(c) || IsLower(c) || c == '-'
  }

  predicate IsIdentifier(s: string) {
    s != "" && forall c | c in s :: IsIdentifierChar(c)
  }

  predicate IsDotted(c: char) {
    IsIdentifierChar(c) || c == '.'
  }

  /** Build metadata, section 10: non-empty identifiers separated by dots. */
  predicate IsBuild(s: string) {
    forall id | id in Split(s, '.') :: IsIdentifier(id)
  }

  /** A pre-release, section 9: numeric identifiers must not have leading zeros. */
  predicate IsPre(s: string) {
    forall id | id in Split(s, '.') :: IsIdentifier(id) && (AllDigits(id) ==> IsNumeral(id))
  }

  /** An optional part introduced by `mark`; absent means the empty text. */
  function ParseOptional(s: string, mark: char, valid: string -> bool): Option<(string, string)> {
    if s == "" || s[0] != mark then Some(("", s))
    else
      var n := RunLength(s[1..], IsDotted);
      var part := s[1..][..n];
      if valid(part) then Some((part, s[1..][n..])) else None
  }

  /** A number followed by a dot. */
  function ParseField(s: string): Option<(nat, string)> {
    var (n, rest) :- ParseNumeral(s);
    if rest != "" && rest[0] == '.' then Some((n, rest[1..])) else None
  }

  /** What follows the patch number, which must be the end of the text. */
  function ParseTail(s: string): Option<(string, string)> {
    var (pre, rest) :- ParseOptional(s, '-', IsPre);
    var (build, end) :- ParseOptional(rest, '+', IsBuild);
    if end == "" then Some((pre, build)) else None
  }

  /** `Version::parse`. */
  function Parse(s: string): Option<Version> {
    var (major, s1) :- ParseField(s);
    var (minor, s2) :- ParseField(s1);
    var (patch, s3) :- ParseNumeral(s2);
    var (pre, build) :- ParseTail(s3);
    Some(Version(major, minor, patch, pre, build))
  }

  // ----- the grammar as a printer

  predicate WellFormedTail(pre: string, build: string) {
    (pre == "" || IsPre(pre)) && (build == "" || IsBuild(build))
  }

  predicate WellFormed(v: Version) {
    v.major <= U64_MAX && v.minor <= U64_MAX && v.patch <= U64_MAX && WellFormedTail(v.pre, v.build)
  }

  function PrintOptional(mark: char, part: string): string {
    if part == "" then "" else [mark] + part
  }

  function Print(v: Version): string {
    PrintField(v.major, PrintField(v.minor, ToText(v.patch) + PrintTail(v.pre, v.build)))
  }

  function PrintField(n: nat, rest: string): string {
    ToText(n) + ("." + rest)
  }

  function PrintTail(pre: string, build: string): string {
    PrintOptional('-', pre) + PrintOptional('+', build)
  }

  lemma ParseNumeralPrints(s: string)
    requires ParseNumeral(s).Some?
    ensures var (n, rest) := ParseNumeral(s).value; n <= U64_MAX && s == ToText(n) + rest
  {
    var n := RunLength(s, IsDigit);
    NumeralIsToText(s[..n]);
    assert s == s[..n] + s[n..];
  }

  lemma ParseNumeralAt(n: nat, rest: string)
    requires n <= U64_MAX && (rest == "" || !IsDigit(rest[0]))
    ensures ParseNumeral(ToText(n) + rest) == Some((n, rest))
  {
    var s := ToText(n) + rest;
    ToTextIsNumeral(n);
    RunLengthAt(ToText(n), rest, IsDigit);
    assert s[..|ToText(n)|] == ToText(n) && s[|ToText(n)|..] == rest;
  }

  lemma ParseFieldPrints(s: string)
    requires ParseField(s).Some?
    ensures var (n, rest) := ParseField(s).value; n <= U64_MAX && s == PrintField(n, rest)
  {
    ParseNumeralPrints(s);
    var rest := ParseNumeral(s).value.1;
    assert rest == "." + rest[1..];
  }

  lemma ParseFieldAt(n: nat, rest: string)
    requires n <= U64_MAX
    ensures ParseField(PrintField(n, rest)) == Some((n, rest))
  {
    ParseNumeralAt(n, "." + rest);
    assert ("." + rest)[1..] == rest;
  }

  lemma ParseOptionalPrints(s: string, mark: char, valid: string -> bool)
    requires ParseOptional(s, mark, valid).Some?
    requires !valid("")
    ensures var (part, rest) := ParseOptional(s, mark, valid).value;
      (part == "" || valid(part)) && s == PrintOptional(mark, part) + rest
  {
  }

  lemma ParseOptionalAt(part: string, rest: string, mark: char, valid: string -> bool)
    requires part != "" ==> valid(part) && forall c | c in part :: IsDotted(c)
    requires rest == "" || (!IsDotted(rest[0]) && rest[0] != mark)
    ensures ParseOptional(PrintOptional(mark, part) + rest, mark, valid) == Some((part, rest))
  {
    var s := PrintOptional(mark, part) + rest;
    if part == "" {
      assert s == rest;
    } else {
      assert s[1..] == part + rest;
      RunLengthAt(part, rest, IsDotted);
      assert s[1..][..|part|] == part && s[1..][|part|..] == rest;
    }
  }

  lemma {:induction false} JoinedChars(parts: seq<string>)
    requires parts != [] && forall p | p in parts :: IsIdentifier(p)
    ensures forall c | c in Join(parts, '.') :: IsDotted(c)
  {
    assert IsIdentifier(parts[0]);
    if |parts| > 1 {
      JoinedChars(parts[1..]);
    }
  }

  lemma DottedChars(s: string)
    requires forall id | id in Split(s, '.') :: IsIdentifier(id)
    ensures forall c | c in s :: IsDotted(c)
  {
    JoinSplit(s, '.');
    JoinedChars(Split(s, '.'));
  }

  lemma ParseTailPrints(s: string)
    requires ParseTail(s).Some?
    ensures var (pre, build) := ParseTail(s).value; WellFormedTail(pre, build) && s == PrintTail(pre, build)
  {
    assert !IsPre("") && !IsBuild("") by {
      assert "" in Split("", '.');
    }
    ParseOptionalPrints(s, '-', IsPre);
    var (pre, rest) := ParseOptional(s, '-', IsPre).value;
    ParseOptionalPrints(rest, '+', IsBuild);
    assert rest == PrintOptional('+', ParseTail(s).value.1);
  }

  lemma ParseTailAt(pre: string, build: string)
    requires WellFormedTail(pre, build)
    ensures ParseTail(PrintTail(pre, build)) == Some((pre, build))
  {
    if pre != "" { DottedChars(pre); }
    if build != "" { DottedChars(build); }
    ParseOptionalAt(pre, PrintOptional('+', build), '-', IsPre);
    ParseOptionalAt(build, "", '+', IsBuild);
    assert PrintOptional('+', build) + "" == PrintOptional('+', build);
  }

  /** Everything the parser accepts is the printed form of the well-formed version it returns. */
  lemma PrintParse(s: string)
    requires Parse(s).Some?
    ensures WellFormed(Parse(s).value) && Print(Parse(s).value) == s
  {
    var (major, s1) := ParseField(s).value;
    var (minor, s2) := ParseField(s1).value;
    var (patch, s3) := ParseNumeral(s2).value;
    ParseFieldPrints(s);
    ParseFieldPrints(s1);
    ParseNumeralPrints(s2);
    ParseTailPrints(s3);
  }

  /** And every well-formed version is read back from its printed form. */
  lemma ParsePrint(v: Version)
    requires WellFormed(v)
    ensures Parse(Print(v)) == Some(v)
  {
    var tail := PrintTail(v.pre, v.build);
    var s2 := ToText(v.patch) + tail;
    ParseFieldAt(v.major, PrintField(v.minor, s2));
    ParseFieldAt(v.minor, s2);
    ParseNumeralAt(v.patch, tail);
    ParseTailAt(v.pre, v.build);
  }

  /** The accepted texts are exactly the printed well-formed versions, one text each. */
  lemma ParseAcceptsExactly(s: string)
    ensures Parse(s).Some? <==> exists v :: WellFormed(v) && Print(v) == s
    ensures forall t | Parse(s).Some? && Parse(t) == Parse(s) :: t == s
  {
    if Parse(s).Some? {
      PrintParse(s);
    }
    if v :| WellFormed(v) && Print(v) == s {
      ParsePrint(v);
    }
    forall t | Parse(s).Some? && Parse(t) == Parse(s) ensures t == s {
      PrintParse(t);
    }
  }

  /** Section 10: identifiers of letters, digits and hyphens, separated by dots, none of them empty. */
  predicate IsDottedText(s: string) {
    forall id | id in Split(s, '.') ::
      id != "" && forall c | c in id :: c in DIGITS || c in LOWER_LETTERS || c in UPPER_LETTERS || c == '-'
  }

  /** Section 9: no identifier of digits only has a leading zero. */
  predicate NoLeadingZeros(s: string) {
    forall id | id in Split(s, '.') && |id| > 1 && id[0] == '0' ::
      exists c :: c in id && c !in DIGITS
  }

  /** Sections 2, 9 and 10: `s` writes out the version `v`. */
  predicate IsVersionText(s: string, v: Version) {
    && s == ToText(v.major) + ("." + (ToText(v.minor) + ("." + (ToText(v.patch)
         + ((if v.pre == "" then "" else "-" + v.pre) + (if v.build == "" then "" else "+" + v.build))))))
    && v.major < 0x1_0000_0000_0000_0000 && v.minor < 0x1_0000_0000_0000_0000 && v.patch < 0x1_0000_0000_0000_0000
    && (v.pre == "" || (IsDottedText(v.pre) && NoLeadingZeros(v.pre)))
    && (v.build == "" || IsDottedText(v.build))
  }

  lemma DottedExactly(s: string)
    ensures IsBuild(s) <==> IsDottedText(s)
  {
    forall c: char
      ensures IsIdentifierChar(c) <==> c in DIGITS || c in LOWER_LETTERS || c in UPPER_LETTERS || c == '-'
    {
      CharacterClasses(c);
    }
  }

  lemma NumeralExactly(id: string)
    requires id != ""
    ensures (AllDigits(id) ==> IsNumeral(id)) <==>
      (|id| > 1 && id[0] == '0' ==> exists c :: c in id && c !in DIGITS)
  {
    forall c: char ensures IsDigit(c) <==> c in DIGITS {
      CharacterClasses(c);
    }
  }

  lemma PreExactly(s: string)
    ensures IsPre(s) <==> IsDottedText(s) && NoLeadingZeros(s)
  {
    DottedExactly(s);
    forall id | id in Split(s, '.') && id != "" ensures (AllDigits(id) ==> IsNumeral(id)) <==>
      (|id| > 1 && id[0] == '0' ==> exists c :: c in id && c !in DIGITS)
    {
      NumeralExactly(id);
    }
  }

  /** The parser accepts exactly the texts that the grammar writes for a version, and yields that version. */
  lemma ParsesExactly(s: string, v: Version)
    ensures Parse(s) == Some(v) <==> IsVersionText(s, v)
  {
    PreExactly(v.pre);
    DottedExactly(v.build);
    if Parse(s) == Some(v) {
      PrintParse(s);
    }
    if WellFormed(v) {
      ParsePrint(v);
    }
  }

  // ----- the comparator

  /** Pre-release identifiers: digits by length and then text, digits below the rest. */
  function ComparePreIdentifier(a: string, b: string): Ordering {
    if AllDigits(a) then
      if AllDigits(b) then CompareNat(|a|, |b|).Then(Compare(a, b)) else Less
    else
      if AllDigits(b) then Greater else Compare(a, b)
  }

  function TrimZeros(s: string): (t: string)
    ensures |t| <= |s|
  {
    if s != "" && s[0] == '0' then TrimZeros(s[1..]) else s
  }

  /** Build identifiers: leading zeros are allowed here and only break ties. */
  function CompareBuildIdentifier(a: string, b: string): Ordering {
    if AllDigits(a) then
      if AllDigits(b) then
        CompareNat(|TrimZeros(a)|, |TrimZeros(b)|)
          .Then(Compare(TrimZeros(a), TrimZeros(b)))
          .Then(CompareNat(|a|, |b|))
      else Less
    else
      if AllDigits(b) then Greater else Compare(a, b)
  }

  function ComparePre(a: string, b: string): Ordering {
    if a == "" then (if b == "" then Equal else Greater)
    else if b == "" then Less
    else CompareSeq(ComparePreIdentifier, Split(a, '.'), Split(b, '.'))
  }

  function CompareBuild(a: string, b: string): Ordering {
    CompareSeq(CompareBuildIdentifier, Split(a, '.'), Split(b, '.'))
  }

  /** `Version::cmp`: the fields in order. */
  function CompareParsed(a: Version, b: Version): Ordering {
    CompareNat(a.major, b.major)
      .Then(CompareNat(a.minor, b.minor))
      .Then(CompareNat(a.patch, b.patch))
      .Then(ComparePre(a.pre, b.pre))
      .Then(CompareBuild(a.build, b.build))
  }

  /** Two texts with what they parse to: text that does not parse falls back to string order. */
  function CompareAs(left: string, l: Option<Version>, right: string, r: Option<Version>): Ordering {
    if l.Some? && r.Some? then CompareParsed(l.value, r.value) else Compare(left, right)
  }

  /** `compare_versions`. */
  function CompareVersions(left: string, right: string): Ordering {
    CompareAs(left, Parse(left), right, Parse(right))
  }

  lemma PreIdentifierTotal()
    ensures TotalOrder(ComparePreIdentifier)
  {
    CompareTotal();
  }

  lemma {:induction false} TrimZerosInjective(a: string, b: string)
    requires TrimZeros(a) == TrimZeros(b) && |a| == |b|
    ensures a == b
  {
    if a != "" && a[0] == '0' && b[0] == '0' {
      assert a == "0" + a[1..] && b == "0" + b[1..];
      TrimZerosInjective(a[1..], b[1..]);
    }
  }

  lemma BuildIdentifierTotal()
    ensures TotalOrder(CompareBuildIdentifier)
  {
    CompareTotal();
    forall a, b ensures CompareBuildIdentifier(a, b) == Equal <==> a == b {
      if CompareBuildIdentifier(a, b) == Equal && AllDigits(a) {
        TrimZerosInjective(a, b);
      }
    }
  }

  lemma SplitInjective(a: string, b: string)
    requires Split(a, '.') == Split(b, '.')
    ensures a == b
  {
    JoinSplit(a, '.');
    JoinSplit(b, '.');
  }

  lemma ComparePreTotal()
    ensures TotalOrder(ComparePre)
  {
    PreIdentifierTotal();
    CompareSeqTotal(ComparePreIdentifier);
    var lists := (a: seq<string>, b: seq<string>) => CompareSeq(ComparePreIdentifier, a, b);
    assert forall a, b | a != "" && b != "" :: ComparePre(a, b) == lists(Split(a, '.'), Split(b, '.'));
    forall a, b ensures ComparePre(a, b) == Equal <==> a == b {
      if ComparePre(a, b) == Equal && a != "" {
        SplitInjective(a, b);
      }
    }
  }

  lemma CompareBuildTotal()
    ensures TotalOrder(CompareBuild)
  {
    BuildIdentifierTotal();
    CompareSeqTotal(CompareBuildIdentifier);
    var lists := (a: seq<string>, b: seq<string>) => CompareSeq(CompareBuildIdentifier, a, b);
    assert forall a, b :: CompareBuild(a, b) == lists(Split(a, '.'), Split(b, '.'));
    forall a, b ensures CompareBuild(a, b) == Equal <==> a == b {
      if CompareBuild(a, b) == Equal {
        SplitInjective(a, b);
      }
    }
  }

  lemma CompareParsedTotal()
    ensures TotalOrder(CompareParsed)
  {
    ComparePreTotal();
    CompareBuildTotal();
  }
}
