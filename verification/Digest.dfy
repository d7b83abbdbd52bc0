/** Artifact digests: `sha256:` and 64 hex digits. The hash itself is an input of 32 bytes. */
module Digest {
  import opened Wrappers
  import opened Text

  type byte = n: int | 0 <= n < 256

  /** The output of SHA-256. */
  type Hash = h: seq<byte> | |h| == 32 witness seq(32, _ => 0)

  const PREFIX := "sha256:"

  datatype StorageError =
    | InvalidDigest(value: string)
    | DigestMismatch(expected: string, actual: string)

  // ----- encoding

  /** `TABLE`. */
  function HexChar(n: nat): (c: char)
    requires n < 16
  {
    if n < 10 then ('0' as int + n) as char else ('a' as int + n - 10) as char
  }

  lemma HexDigits(n: nat)
    requires n < 16
    ensures HexChar(n) == "0123456789abcdef"[n]
  {
  }

  function HexByte(b: byte): string {
    [HexChar(b / 16), HexChar(b % 16)]
  }

  function HexEncode(bytes: seq<byte>): string {
    if bytes == [] then "" else HexEncode(bytes[..|bytes| - 1]) + HexByte(bytes[|bytes| - 1])
  }

  /** `push_hex_byte`: the buffer grows by the two digits of the byte. */
  method PushHexByte(hex: string, b: byte) returns (grown: string)
    ensures grown == hex + HexByte(b)
  {
    grown := hex + [HexChar(b / 16)];
    grown := grown + [HexChar(b % 16)];
  }

  /** `sha256_digest`, given the hash. */
  method DigestText(hash: seq<byte>) returns (text: string)
    ensures text == PREFIX + HexEncode(hash)
  {
    var hex := "";
    for i := 0 to |hash|
      invariant hex == HexEncode(hash[..i])
    {
      assert hash[..i + 1][..i] == hash[..i];
      hex := PushHexByte(hex, hash[i]);
    }
    assert hash[..|hash|] == hash;
    text := PREFIX + hex;
  }

  // ----- decoding

  function NibbleValue(c: char): (n: nat)
    requires IsHexDigit(c)
    ensures n < 16
  {
    if IsDigit(c) then c as int - '0' as int
    else if 'a' <= c then c as int - 'a' as int + 10
    else c as int - 'A' as int + 10
  }

  predicate IsHex(s: string) {
    |s| % 2 == 0 && forall c | c in s :: IsHexDigit(c)
  }

  function HexDecode(s: string): seq<byte>
    requires IsHex(s)
  {
    if s == "" then []
    else
      var n := |s| - 2;
      HexDecode(s[..n]) + [NibbleValue(s[n]) * 16 + NibbleValue(s[n + 1])]
  }

  function LowerChar(c: char): char {
    if IsUpper(c) then (c as int - 'A' as int + 'a' as int) as char else c
  }

  /** `to_ascii_lowercase`. */
  function Lower(s: string): (r: string)
    ensures |r| == |s|
  {
    seq(|s|, i requires 0 <= i < |s| => LowerChar(s[i]))
  }

  lemma LowerPair(s: string, x: char, y: char)
    ensures Lower(s + [x, y]) == Lower(s) + [LowerChar(x), LowerChar(y)]
  {
  }

  function PairValue(x: char, y: char): byte
    requires IsHexDigit(x) && IsHexDigit(y)
  {
    NibbleValue(x) * 16 + NibbleValue(y)
  }

  lemma DecodePair(s: string, x: char, y: char)
    requires IsHex(s) && IsHexDigit(x) && IsHexDigit(y)
    ensures IsHex(s + [x, y]) && HexDecode(s + [x, y]) == HexDecode(s) + [PairValue(x, y)]
  {
  }

  lemma EncodeByte(bytes: seq<byte>, b: byte)
    ensures HexEncode(bytes + [b]) == HexEncode(bytes) + HexByte(b)
  {
  }

  lemma PairRoundTrip(x: char, y: char)
    requires IsHexDigit(x) && IsHexDigit(y)
    ensures HexByte(PairValue(x, y)) == [LowerChar(x), LowerChar(y)]
  {
  }

  lemma ByteDecodes(s: string, b: byte)
    requires IsHex(s) && Lower(s) == s
    ensures IsHex(s + HexByte(b)) && Lower(s + HexByte(b)) == s + HexByte(b)
    ensures HexDecode(s + HexByte(b)) == HexDecode(s) + [b]
  {
  }

  /** The text is the lower-case hex of the bytes. */
  predicate Spells(s: string, bytes: seq<byte>) {
    |s| == 2 * |bytes| && IsHex(s) && Lower(s) == s && HexDecode(s) == bytes
  }

  lemma SpellsSnoc(s: string, bytes: seq<byte>, b: byte)
    requires Spells(s, bytes)
    ensures Spells(s + HexByte(b), bytes + [b])
  {
    ByteDecodes(s, b);
  }

  lemma SpellsNext(bytes: seq<byte>, b: byte)
    requires Spells(HexEncode(bytes), bytes)
    ensures Spells(HexEncode(bytes + [b]), bytes + [b])
  {
    EncodeByte(bytes, b);
    SpellsSnoc(HexEncode(bytes), bytes, b);
  }

  /** Decoding inverts encoding, so different hashes have different digests; the digits are lower case. */
  lemma {:induction false} DecodeInvertsEncode(bytes: seq<byte>)
    ensures Spells(HexEncode(bytes), bytes)
  {
    if bytes != [] {
      var front, b := bytes[..|bytes| - 1], bytes[|bytes| - 1];
      DecodeInvertsEncode(front);
      SpellsNext(front, b);
      assert bytes == front + [b];
    }
  }

  /** Encoding inverts decoding up to letter case. */
  lemma {:induction false} EncodeInvertsDecode(s: string)
    requires IsHex(s)
    ensures HexEncode(HexDecode(s)) == Lower(s) && |HexDecode(s)| * 2 == |s|
  {
    if s != "" {
      var n := |s| - 2;
      var front, x, y := s[..n], s[n], s[n + 1];
      assert s == front + [x, y];
      EncodeInvertsDecode(front);
      DecodePair(front, x, y);
      EncodeByte(HexDecode(front), PairValue(x, y));
      PairRoundTrip(x, y);
      LowerPair(front, x, y);
    }
  }

  // ----- the checks

  /** `validate_digest`. */
  predicate IsDigest(value: string) {
    StartsWith(value, PREFIX) && |value[|PREFIX|..]| == 64 && forall c | c in value[|PREFIX|..] :: IsHexDigit(c)
  }

  const HEX_DIGITS: set<char> := DIGITS + {'a', 'b', 'c', 'd', 'e', 'f', 'A', 'B', 'C', 'D', 'E', 'F'}

  lemma DigestExactly(value: string)
    ensures IsDigest(value) <==> exists hex: string ::
      value == "sha256:" + hex && |hex| == 64 && forall c | c in hex :: c in HEX_DIGITS
  {
    forall c: char ensures IsHexDigit(c) <==> c in HEX_DIGITS {
      CharacterClasses(c);
    }
    if IsDigest(value) {
      assert value == PREFIX + value[|PREFIX|..];
    }
    if hex: string :| value == "sha256:" + hex && |hex| == 64 && forall c | c in hex :: IsHexDigit(c) {
      assert value[|PREFIX|..] == hex;
    }
  }

  /** `normalize_sha256_digest`. */
  function Normalize(value: string): Result<string, StorageError> {
    if !StartsWith(value, PREFIX) then Err(InvalidDigest(value))
    else
      var hex := value[|PREFIX|..];
      if |hex| != 64 || exists c | c in hex :: !IsHexDigit(c) then Err(InvalidDigest(value))
      else Ok(PREFIX + Lower(hex))
  }

  /** `verify_sha256_digest`, given the hash of the bytes. */
  method VerifyDigest(hash: Hash, expectedDigest: string) returns (r: Outcome<StorageError>)
    ensures r == Verify(hash, expectedDigest)
  {
    var expected := Normalize(expectedDigest);
    if expected.Err? {
      return Fail(expected.error);
    }
    var actual := DigestText(hash);
    if actual != expected.value {
      return Fail(DigestMismatch(expected.value, actual));
    }
    return Pass;
  }

  function Verify(hash: Hash, expected: string): Outcome<StorageError> {
    match Normalize(expected)
    case Err(e) => Fail(e)
    case Ok(text) =>
      var actual := PREFIX + HexEncode(hash);
      if actual == text then Pass else Fail(DigestMismatch(text, actual))
  }

  lemma LowerAfterPrefix(hex: string)
    ensures Lower(PREFIX + hex) == PREFIX + Lower(hex)
  {
    assert forall i | 0 <= i < |PREFIX| :: LowerChar(PREFIX[i]) == PREFIX[i];
  }

  /** The normaliser accepts what publish validates and lowers its letters; the result is a digest that it leaves alone. */
  lemma NormalizeAcceptsDigests(value: string)
    ensures Normalize(value).Ok? <==> IsDigest(value)
    ensures Normalize(value).Ok? ==> Normalize(value).value == Lower(value)
    ensures Normalize(value).Ok? ==>
      IsDigest(Normalize(value).value) && Normalize(Normalize(value).value) == Normalize(value)
  {
    if IsDigest(value) {
      var hex := value[|PREFIX|..];
      var text := PREFIX + Lower(hex);
      assert text[|PREFIX|..] == Lower(hex);
      assert Lower(Lower(hex)) == Lower(hex);
      LowerAfterPrefix(hex);
      assert value == PREFIX + hex;
      forall c | c in Lower(hex) ensures IsHexDigit(c) {
        var i :| 0 <= i < |Lower(hex)| && Lower(hex)[i] == c;
        assert hex[i] in hex;
      }
    }
  }

  /** A digest that the hub computes is one that it accepts and does not change. */
  lemma ComputedDigestIsNormal(hash: Hash)
    ensures IsDigest(PREFIX + HexEncode(hash)) && Normalize(PREFIX + HexEncode(hash)) == Ok(PREFIX + HexEncode(hash))
  {
    DecodeInvertsEncode(hash);
    assert (PREFIX + HexEncode(hash))[|PREFIX|..] == HexEncode(hash);
  }

  /** Verification succeeds exactly when the expected hex digits, in either case, spell the hash. */
  lemma VerifyMeansEqualBytes(hash: Hash, expected: string)
    ensures Verify(hash, expected) == Pass <==> IsDigest(expected) && HexDecode(expected[|PREFIX|..]) == hash
  {
    NormalizeAcceptsDigests(expected);
    if IsDigest(expected) {
      var hex := expected[|PREFIX|..];
      EncodeInvertsDecode(hex);
      DecodeInvertsEncode(hash);
      assert (PREFIX + HexEncode(hash))[|PREFIX|..] == HexEncode(hash);
      assert (PREFIX + Lower(hex))[|PREFIX|..] == Lower(hex);
      if Lower(hex) == HexEncode(hash) {
        DecodeInvertsEncode(HexDecode(hex));
      }
    }
  }

  /** What a failed verification reports: a malformed digest as it is, a mismatch in normal form. */
  lemma VerifyReports(hash: Hash, expected: string)
    ensures Verify(hash, expected) ==
      if !IsDigest(expected) then Fail(InvalidDigest(expected))
      else if HexDecode(expected[|PREFIX|..]) != hash then Fail(DigestMismatch(Lower(expected), "sha256:" + HexEncode(hash)))
      else Pass
  {
    VerifyMeansEqualBytes(hash, expected);
    NormalizeAcceptsDigests(expected);
  }
}
