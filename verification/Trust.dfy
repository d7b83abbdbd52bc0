/** The signed trust message, and the trust check that publish requires. */
module Trust {
  import opened Wrappers
  import opened Model
  import opened Text
  import opened Digest
  import opened Utf8

  // ----- JSON text (section 7 of RFC 8259), in the compact form that serde_json prints

  /** The escapes of serde_json: two-character forms where there is one, `\u00xx` for other controls. */
  function EscapeChar(c: char): string {
    var n := c as int;
    if c == '"' then "\\\""
    else if c == '\\' then "\\\\"
    else if n == 0x08 then "\\b"
    else if n == 0x0C then "\\f"
    else if c == '\n' then "\\n"
    else if c == '\r' then "\\r"
    else if c == '\t' then "\\t"
    else if n < 0x20 then "\\u00" + [HexChar(n / 16), HexChar(n % 16)]
    else [c]
  }

  /** The escaped text followed by `rest`. Every printer takes what follows it. */
  function EscapeThen(s: string, rest: string): string {
    if s == "" then rest else EscapeChar(s[0]) + EscapeThen(s[1..], rest)
  }

  function PrintString(s: string, rest: string): string {
    "\"" + EscapeThen(s, "\"" + rest)
  }

  function PrintOption(s: Option<string>, rest: string): string {
    match s
    case None => "null" + rest
    case Some(text) => PrintString(text, rest)
  }

  function PrintItems(items: seq<string>, rest: string): string {
    if items == [] then "]" + rest else "," + PrintString(items[0], PrintItems(items[1..], rest))
  }

  function PrintArray(items: seq<string>, rest: string): string {
    "[" + if items == [] then "]" + rest else PrintString(items[0], PrintItems(items[1..], rest))
  }

  const NAME := "{\"name\":"
  const VERSION := ",\"version\":"
  const DESCRIPTION := ",\"description\":"
  const ENTRY := ",\"entry\":"
  const FILES := ",\"files\":"

  function FilesField(m: SkillManifest, rest: string): string {
    FILES + PrintArray(m.files, "}" + rest)
  }

  function EntryField(m: SkillManifest, rest: string): string {
    ENTRY + PrintString(m.entry, FilesField(m, rest))
  }

  function DescriptionField(m: SkillManifest, rest: string): string {
    DESCRIPTION + PrintOption(m.description, EntryField(m, rest))
  }

  function VersionField(m: SkillManifest, rest: string): string {
    VERSION + PrintString(m.version, DescriptionField(m, rest))
  }

  /** `serde_json::to_vec(&manifest)`: the fields in their declared order. */
  function PrintManifest(m: SkillManifest, rest: string): string {
    NAME + PrintString(m.name, VersionField(m, rest))
  }

  /** The text that is signed: the manifest, a bar, and the artifact digest. */
  function TrustText(m: SkillManifest, digest: string): string {
    PrintManifest(m, "|" + digest)
  }

  function TrustMessage(request: PublishSkillRequest): seq<byte> {
    Encode(TrustText(request.manifest, request.artifact.digest))
  }

  // ----- the text, said outright

  /** How a JSON string shows one character. */
  function Shown(c: char): string {
    if c == '"' then "\\\""
    else if c == '\\' then "\\\\"
    else if c as int < 0x20 then
      [
        "\\u0000", "\\u0001", "\\u0002", "\\u0003", "\\u0004", "\\u0005", "\\u0006", "\\u0007",
        "\\b", "\\t", "\\n", "\\u000b", "\\f", "\\r", "\\u000e", "\\u000f",
        "\\u0010", "\\u0011", "\\u0012", "\\u0013", "\\u0014", "\\u0015", "\\u0016", "\\u0017",
        "\\u0018", "\\u0019", "\\u001a", "\\u001b", "\\u001c", "\\u001d", "\\u001e", "\\u001f"
      ][c as int]
    else [c]
  }

  function ShownText(s: string): string {
    if s == "" then "" else Shown(s[0]) + ShownText(s[1..])
  }

  function Quoted(s: string): string {
    "\"" + ShownText(s) + "\""
  }

  /** Each item after a comma. */
  function CommaItems(items: seq<string>): string {
    if items == [] then "" else "," + Quoted(items[0]) + CommaItems(items[1..])
  }

  function QuotedItems(items: seq<string>): string {
    if items == [] then "" else Quoted(items[0]) + CommaItems(items[1..])
  }

  lemma Associate(a: string, b: string, c: string)
    ensures a + (b + c) == a + b + c
  {
  }

  lemma EscapesAreShown(c: char)
    ensures EscapeChar(c) == Shown(c)
  {
  }

  lemma {:induction false} EscapedText(s: string, rest: string)
    ensures EscapeThen(s, rest) == ShownText(s) + rest
  {
    if s == "" {
      assert "" + rest == rest;
    } else {
      EscapesAreShown(s[0]);
      EscapedText(s[1..], rest);
      Associate(Shown(s[0]), ShownText(s[1..]), rest);
    }
  }

  lemma Wrap(a: string, x: string, b: string, rest: string)
    ensures a + (x + (b + rest)) == a + x + b + rest
  {
  }

  lemma QuotedText(s: string, rest: string)
    ensures PrintString(s, rest) == Quoted(s) + rest
  {
    EscapedText(s, "\"" + rest);
    Wrap("\"", ShownText(s), "\"", rest);
  }

  lemma {:induction false} LaterItemsText(items: seq<string>, rest: string)
    ensures PrintItems(items, rest) == CommaItems(items) + ("]" + rest)
  {
    if items == [] {
      assert "" + ("]" + rest) == "]" + rest;
    } else {
      LaterItemsText(items[1..], rest);
      QuotedText(items[0], PrintItems(items[1..], rest));
      Wrap(",", Quoted(items[0]), CommaItems(items[1..]), "]" + rest);
    }
  }

  lemma ItemsText(items: seq<string>, rest: string)
    ensures PrintArray(items, rest) == "[" + QuotedItems(items) + "]" + rest
  {
    if items == [] {
      assert "" + ("]" + rest) == "]" + rest;
    } else {
      LaterItemsText(items[1..], rest);
      QuotedText(items[0], PrintItems(items[1..], rest));
      Associate(Quoted(items[0]), CommaItems(items[1..]), "]" + rest);
    }
    Wrap("[", QuotedItems(items), "]", rest);
  }

  function QuotedOption(s: Option<string>): string {
    match s
    case None => "null"
    case Some(text) => Quoted(text)
  }

  lemma FilesText(m: SkillManifest, rest: string)
    ensures FilesField(m, rest) == ",\"files\":" + ("[" + QuotedItems(m.files) + "]" + ("}" + rest))
  {
    ItemsText(m.files, "}" + rest);
  }

  lemma EntryText(m: SkillManifest, rest: string)
    ensures EntryField(m, rest) == ",\"entry\":" + Quoted(m.entry) + FilesField(m, rest)
  {
    QuotedText(m.entry, FilesField(m, rest));
    Associate(ENTRY, Quoted(m.entry), FilesField(m, rest));
  }

  lemma DescriptionText(m: SkillManifest, rest: string)
    ensures DescriptionField(m, rest) == ",\"description\":" + QuotedOption(m.description) + EntryField(m, rest)
  {
    if m.description.Some? {
      QuotedText(m.description.value, EntryField(m, rest));
    }
    Associate(DESCRIPTION, QuotedOption(m.description), EntryField(m, rest));
  }

  lemma VersionTextOf(m: SkillManifest, rest: string)
    ensures VersionField(m, rest) == ",\"version\":" + Quoted(m.version) + DescriptionField(m, rest)
  {
    QuotedText(m.version, DescriptionField(m, rest));
    Associate(VERSION, Quoted(m.version), DescriptionField(m, rest));
  }

  lemma NameText(m: SkillManifest, rest: string)
    ensures PrintManifest(m, rest) == "{\"name\":" + Quoted(m.name) + VersionField(m, rest)
  {
    QuotedText(m.name, VersionField(m, rest));
    Associate(NAME, Quoted(m.name), VersionField(m, rest));
  }

  /** The signed text, from its first brace to the digest after the bar. */
  lemma TrustTextIs(m: SkillManifest, digest: string)
    ensures TrustText(m, digest) ==
      "{\"name\":" + Quoted(m.name)
      + (",\"version\":" + Quoted(m.version)
         + (",\"description\":" + QuotedOption(m.description)
            + (",\"entry\":" + Quoted(m.entry)
               + (",\"files\":" + ("[" + QuotedItems(m.files) + "]" + ("}" + ("|" + digest)))))))
  {
    NameText(m, "|" + digest);
    VersionTextOf(m, "|" + digest);
    DescriptionText(m, "|" + digest);
    EntryText(m, "|" + digest);
    FilesText(m, "|" + digest);
  }

  /** Text without quotes, backslashes and control characters is shown as it is. */
  lemma {:induction false} PlainIsShown(s: string)
    requires forall c | c in s :: c != '"' && c != '\\' && c as int >= 0x20
    ensures ShownText(s) == s && Quoted(s) == "\"" + s + "\""
  {
    if s != "" {
      assert s == [s[0]] + s[1..];
      assert s[0] in s && forall c | c in s[1..] :: c in s;
      PlainIsShown(s[1..]);
      assert Shown(s[0]) == [s[0]];
    }
  }

  // ----- a parser for it

  function Expect(s: string, word: string): (r: Option<string>)
    ensures r.Some? ==> s == word + r.value
  {
    if StartsWith(s, word) then Some(s[|word|..]) else None
  }

  /** One character of a JSON string, escaped or not. Surrogate escapes are not needed here. */
  function ParseChar(s: string): (r: Option<(char, string)>)
    ensures r.Some? ==> |r.value.1| < |s|
  {
    if s == "" || s[0] == '"' || s[0] < ' ' then None
    else if s[0] != '\\' then Some((s[0], s[1..]))
    else if |s| < 2 then None
    else if s[1] == '"' || s[1] == '\\' || s[1] == '/' then Some((s[1], s[2..]))
    else if s[1] == 'b' then Some((8 as char, s[2..]))
    else if s[1] == 'f' then Some((12 as char, s[2..]))
    else if s[1] == 'n' then Some(('\n', s[2..]))
    else if s[1] == 'r' then Some(('\r', s[2..]))
    else if s[1] == 't' then Some(('\t', s[2..]))
    else if s[1] != 'u' || |s| < 6 || exists i | 2 <= i < 6 :: !IsHexDigit(s[i]) then None
    else
      var code := ((NibbleValue(s[2]) * 16 + NibbleValue(s[3])) * 16 + NibbleValue(s[4])) * 16 + NibbleValue(s[5]);
      if 0xD800 <= code < 0xE000 then None else Some((code as char, s[6..]))
  }

  function ParseBody(s: string): (r: Option<(string, string)>)
    ensures r.Some? ==> |r.value.1| < |s|
  {
    if s != "" && s[0] == '"' then Some(("", s[1..]))
    else
      var (c, more) :- ParseChar(s);
      var (text, rest) :- ParseBody(more);
      Some(([c] + text, rest))
  }

  function ParseString(s: string): (r: Option<(string, string)>)
    ensures r.Some? ==> |r.value.1| < |s|
  {
    var body :- Expect(s, "\"");
    ParseBody(body)
  }

  function ParseOption(s: string): Option<(Option<string>, string)> {
    match Expect(s, "null")
    case Some(rest) => Some((None, rest))
    case None =>
      var (text, rest) :- ParseString(s);
      Some((Some(text), rest))
  }

  function ParseItems(s: string): Option<(seq<string>, string)>
    decreases |s|
  {
    match Expect(s, "]")
    case Some(rest) => Some(([], rest))
    case None =>
      var after :- Expect(s, ",");
      var (item, more) :- ParseString(after);
      var (items, rest) :- ParseItems(more);
      Some(([item] + items, rest))
  }

  function ParseArray(s: string): Option<(seq<string>, string)> {
    var inside :- Expect(s, "[");
    match Expect(inside, "]")
    case Some(rest) => Some(([], rest))
    case None =>
      var (item, more) :- ParseString(inside);
      var (items, rest) :- ParseItems(more);
      Some(([item] + items, rest))
  }

  function ParseManifest(s: string): Option<(SkillManifest, string)> {
    var s1 :- Expect(s, NAME);
    var (name, s2) :- ParseString(s1);
    var s3 :- Expect(s2, VERSION);
    var (version, s4) :- ParseString(s3);
    var s5 :- Expect(s4, DESCRIPTION);
    var (description, s6) :- ParseOption(s5);
    var s7 :- Expect(s6, ENTRY);
    var (entry, s8) :- ParseString(s7);
    var s9 :- Expect(s8, FILES);
    var (files, s10) :- ParseArray(s9);
    var s11 :- Expect(s10, "}");
    Some((SkillManifest(name, version, description, entry, files), s11))
  }

  function ParseTrustText(s: string): Option<(SkillManifest, string)> {
    var (manifest, rest) :- ParseManifest(s);
    var digest :- Expect(rest, "|");
    Some((manifest, digest))
  }

  // ----- the parser inverts the printer

  lemma ExpectAt(word: string, rest: string)
    ensures Expect(word + rest, word) == Some(rest)
  {
  }

  lemma ParseCharAt(c: char, rest: string)
    ensures ParseChar(EscapeChar(c) + rest) == Some((c, rest))
    ensures (EscapeChar(c) + rest)[0] != '"'
  {
  }

  lemma {:induction false} ParseBodyAt(s: string, rest: string)
    ensures ParseBody(EscapeThen(s, "\"" + rest)) == Some((s, rest))
  {
    if s == "" {
      assert ("\"" + rest)[1..] == rest;
    } else {
      ParseCharAt(s[0], EscapeThen(s[1..], "\"" + rest));
      ParseBodyAt(s[1..], rest);
      assert s == [s[0]] + s[1..];
    }
  }

  lemma ParseStringAt(s: string, rest: string)
    ensures ParseString(PrintString(s, rest)) == Some((s, rest))
    ensures PrintString(s, rest)[0] == '"'
  {
    ExpectAt("\"", EscapeThen(s, "\"" + rest));
    ParseBodyAt(s, rest);
  }

  lemma ParseOptionAt(s: Option<string>, rest: string)
    ensures ParseOption(PrintOption(s, rest)) == Some((s, rest))
  {
    match s {
      case None => ExpectAt("null", rest);
      case Some(text) => ParseStringAt(text, rest);
    }
  }

  lemma {:induction false} ParseItemsAt(items: seq<string>, rest: string)
    ensures ParseItems(PrintItems(items, rest)) == Some((items, rest))
  {
    if items == [] {
      ExpectAt("]", rest);
    } else {
      var more := PrintItems(items[1..], rest);
      ExpectAt(",", PrintString(items[0], more));
      assert PrintItems(items, rest)[0] == ',';
      ParseStringAt(items[0], more);
      ParseItemsAt(items[1..], rest);
      assert items == [items[0]] + items[1..];
    }
  }

  lemma ParseArrayAt(items: seq<string>, rest: string)
    ensures ParseArray(PrintArray(items, rest)) == Some((items, rest))
  {
    if items == [] {
      ExpectAt("[", "]" + rest);
      ExpectAt("]", rest);
    } else {
      var more := PrintItems(items[1..], rest);
      ExpectAt("[", PrintString(items[0], more));
      ParseStringAt(items[0], more);
      ParseItemsAt(items[1..], rest);
      assert items == [items[0]] + items[1..];
    }
  }

  lemma ParseManifestAt(m: SkillManifest, rest: string)
    ensures ParseManifest(PrintManifest(m, rest)) == Some((m, rest))
  {
    ExpectAt(NAME, PrintString(m.name, VersionField(m, rest)));
    ParseStringAt(m.name, VersionField(m, rest));
    ExpectAt(VERSION, PrintString(m.version, DescriptionField(m, rest)));
    ParseStringAt(m.version, DescriptionField(m, rest));
    ExpectAt(DESCRIPTION, PrintOption(m.description, EntryField(m, rest)));
    ParseOptionAt(m.description, EntryField(m, rest));
    ExpectAt(ENTRY, PrintString(m.entry, FilesField(m, rest)));
    ParseStringAt(m.entry, FilesField(m, rest));
    ExpectAt(FILES, PrintArray(m.files, "}" + rest));
    ParseArrayAt(m.files, "}" + rest);
    ExpectAt("}", rest);
  }

  /** Whatever the strings hold, the signed text can be read back. */
  lemma ParseInvertsPrint(m: SkillManifest, digest: string)
    ensures ParseTrustText(TrustText(m, digest)) == Some((m, digest))
  {
    ParseManifestAt(m, "|" + digest);
    ExpectAt("|", digest);
  }

  lemma {:induction false} EscapeAppends(s: string, rest: string, more: string)
    ensures EscapeThen(s, rest + more) == EscapeThen(s, rest) + more
  {
    if s != "" {
      EscapeAppends(s[1..], rest, more);
    }
  }

  lemma StringAppends(s: string, rest: string, more: string)
    ensures PrintString(s, rest + more) == PrintString(s, rest) + more
  {
    assert "\"" + (rest + more) == "\"" + rest + more;
    EscapeAppends(s, "\"" + rest, more);
  }

  lemma {:induction false} ItemsAppend(items: seq<string>, rest: string, more: string)
    ensures PrintItems(items, rest + more) == PrintItems(items, rest) + more
  {
    if items != [] {
      ItemsAppend(items[1..], rest, more);
      StringAppends(items[0], PrintItems(items[1..], rest), more);
    }
  }

  lemma ArrayAppends(items: seq<string>, rest: string, more: string)
    ensures PrintArray(items, rest + more) == PrintArray(items, rest) + more
  {
    if items != [] {
      ItemsAppend(items[1..], rest, more);
      StringAppends(items[0], PrintItems(items[1..], rest), more);
    }
  }

  lemma FilesAppend(m: SkillManifest, more: string)
    ensures FilesField(m, more) == FilesField(m, "") + more
  {
    assert "}" + "" == "}";
    ArrayAppends(m.files, "}", more);
  }

  lemma EntryAppends(m: SkillManifest, more: string)
    ensures EntryField(m, more) == EntryField(m, "") + more
  {
    FilesAppend(m, more);
    StringAppends(m.entry, FilesField(m, ""), more);
  }

  lemma DescriptionAppends(m: SkillManifest, more: string)
    ensures DescriptionField(m, more) == DescriptionField(m, "") + more
  {
    EntryAppends(m, more);
    if m.description.Some? {
      StringAppends(m.description.value, EntryField(m, ""), more);
    }
  }

  lemma VersionAppends(m: SkillManifest, more: string)
    ensures VersionField(m, more) == VersionField(m, "") + more
  {
    DescriptionAppends(m, more);
    StringAppends(m.version, DescriptionField(m, ""), more);
    Associate(VERSION, PrintString(m.version, DescriptionField(m, "")), more);
  }

  /** Printing before a suffix is printing and then appending the suffix. */
  lemma ManifestAppends(m: SkillManifest, more: string)
    ensures PrintManifest(m, more) == PrintManifest(m, "") + more
  {
    VersionAppends(m, more);
    StringAppends(m.name, VersionField(m, ""), more);
    Associate(NAME, PrintString(m.name, VersionField(m, "")), more);
  }

  lemma TrustBytes(m: SkillManifest, digest: string)
    ensures Encode(TrustText(m, digest)) == Encode(PrintManifest(m, "")) + ['|' as int] + Encode(digest)
  {
    ManifestAppends(m, "|" + digest);
    EncodeConcat(PrintManifest(m, ""), "|" + digest);
    EncodeConcat("|", digest);
    assert Encode("|") == ['|' as int];
  }

  /** `trust_message`: serialize, push the bar, extend by the digest. */
  method BuildTrustMessage(request: PublishSkillRequest) returns (message: seq<byte>)
    ensures message == TrustMessage(request)
  {
    message := Encode(PrintManifest(request.manifest, ""));
    message := message + ['|' as int];
    message := message + Encode(request.artifact.digest);
    TrustBytes(request.manifest, request.artifact.digest);
  }

  /** A signature covers the manifest and the digest: messages are equal exactly when both are. */
  lemma TrustMessageInjective(a: PublishSkillRequest, b: PublishSkillRequest)
    ensures TrustMessage(a) == TrustMessage(b) <==>
      a.manifest == b.manifest && a.artifact.digest == b.artifact.digest
  {
    if TrustMessage(a) == TrustMessage(b) {
      EncodeInjective(TrustText(a.manifest, a.artifact.digest), TrustText(b.manifest, b.artifact.digest));
      ParseInvertsPrint(a.manifest, a.artifact.digest);
      ParseInvertsPrint(b.manifest, b.artifact.digest);
    }
  }

  // ----- the trust check

  /** Ed25519 verification of a message under a 32-byte key and a 64-byte signature. */
  type Ed25519 = (seq<byte>, seq<byte>, seq<byte>) -> bool

  const SIGSTORE_BUNDLE_MEDIA_TYPE := "application/vnd.dev.sigstore.bundle+json"

  /** `verify_ed25519`: both texts must be hex of the right length. */
  predicate VerifyEd25519(check: Ed25519, publicKey: string, signature: string, message: seq<byte>) {
    && IsHex(publicKey) && |HexDecode(publicKey)| == 32
    && IsHex(signature) && |HexDecode(signature)| == 64
    && check(HexDecode(publicKey), HexDecode(signature), message)
  }

  /** `verify_sigstore_bundle`: the shape of the bundle, nothing cryptographic. */
  predicate VerifyBundle(bundle: Json) {
    && bundle.Object?
    && "mediaType" in bundle.fields && bundle.fields["mediaType"].Text?
    && Contains(bundle.fields["mediaType"].text, SIGSTORE_BUNDLE_MEDIA_TYPE)
    && "verificationMaterial" in bundle.fields
    && ("messageSignature" in bundle.fields || "dsseEnvelope" in bundle.fields)
  }

  function CheckPair(check: Ed25519, request: PublishSkillRequest): Outcome<HubError> {
    if request.signature.Some? && request.publicKey.Some? then
      if VerifyEd25519(check, request.publicKey.value, request.signature.value, TrustMessage(request))
      then Pass else Fail(TrustVerification)
    else if request.signature.Some? || request.publicKey.Some? then Fail(TrustVerification)
    else Pass
  }

  /** `verify_trust`. */
  function VerifyTrust(check: Ed25519, request: PublishSkillRequest): Outcome<HubError> {
    var pair := CheckPair(check, request);
    :- pair;
    if request.bundle.Some? && !VerifyBundle(request.bundle.value) then Fail(TrustVerification) else Pass
  }

  /** `has_signature`. */
  predicate HasSignature(request: PublishSkillRequest) {
    (request.signature.Some? && request.publicKey.Some?) || request.bundle.Some?
  }

  /** The texts are the hex, in either case, of a 32-byte key and a 64-byte signature that accept the message. */
  ghost predicate Verifies(check: Ed25519, publicKey: string, signature: string, message: seq<byte>) {
    exists k: seq<byte>, s: seq<byte> ::
      |k| == 32 && |s| == 64 && Lower(publicKey) == HexEncode(k) && Lower(signature) == HexEncode(s) && check(k, s, message)
  }

  lemma {:induction false} LowerIsHex(s: string, bytes: seq<byte>)
    requires Lower(s) == HexEncode(bytes)
    ensures IsHex(s) && HexDecode(s) == bytes
  {
    DecodeInvertsEncode(bytes);
    forall c | c in s ensures IsHexDigit(c) {
      var i :| 0 <= i < |s| && s[i] == c;
      assert Lower(s)[i] in Lower(s);
    }
    EncodeInvertsDecode(s);
    DecodeInvertsEncode(HexDecode(s));
  }

  lemma VerifiesExactly(check: Ed25519, publicKey: string, signature: string, message: seq<byte>)
    ensures VerifyEd25519(check, publicKey, signature, message) <==> Verifies(check, publicKey, signature, message)
  {
    if VerifyEd25519(check, publicKey, signature, message) {
      EncodeInvertsDecode(publicKey);
      EncodeInvertsDecode(signature);
    }
    if k: seq<byte>, s: seq<byte> :|
      |k| == 32 && |s| == 64 && Lower(publicKey) == HexEncode(k) && Lower(signature) == HexEncode(s) && check(k, s, message)
    {
      LowerIsHex(publicKey, k);
      LowerIsHex(signature, s);
    }
  }

  /** The request carries a pair that verifies for its manifest and digest. */
  ghost predicate Signed(check: Ed25519, request: PublishSkillRequest) {
    && request.signature.Some? && request.publicKey.Some?
    && Verifies(check, request.publicKey.value, request.signature.value, Encode(TrustText(request.manifest, request.artifact.digest)))
  }

  /** It is a JSON object with a Sigstore media type, verification material, and a signature or an envelope. */
  ghost predicate IsBundle(bundle: Json) {
    exists fields, before: string, after: string ::
      && bundle == Object(fields)
      && "mediaType" in fields
      && fields["mediaType"] == Json.Text(before + "application/vnd.dev.sigstore.bundle+json" + after)
      && "verificationMaterial" in fields && ("messageSignature" in fields || "dsseEnvelope" in fields)
  }

  lemma BundleExactly(bundle: Json)
    ensures VerifyBundle(bundle) <==> IsBundle(bundle)
  {
    if VerifyBundle(bundle) {
      var media := bundle.fields["mediaType"].text;
      var before, after := ContainsAround(media, SIGSTORE_BUNDLE_MEDIA_TYPE);
      assert bundle == Object(bundle.fields);
      assert bundle.fields["mediaType"] == Json.Text(before + "application/vnd.dev.sigstore.bundle+json" + after);
    }
    if fields, before: string, after: string :|
      && bundle == Object(fields)
      && "mediaType" in fields
      && fields["mediaType"] == Json.Text(before + "application/vnd.dev.sigstore.bundle+json" + after)
      && "verificationMaterial" in fields && ("messageSignature" in fields || "dsseEnvelope" in fields)
    {
      AroundContains(before, SIGSTORE_BUNDLE_MEDIA_TYPE, after);
    }
  }

  ghost predicate Bundled(request: PublishSkillRequest) {
    request.bundle.Some? && IsBundle(request.bundle.value)
  }

  /**
   * The check passes exactly if there is a pair that verifies or no half of one, and a proper bundle or none;
   * otherwise it reports a trust failure. A request that claims a signature and passes has one that holds.
   */
  lemma TrustedRequests(check: Ed25519, request: PublishSkillRequest)
    ensures VerifyTrust(check, request) == Pass <==>
      && (Signed(check, request) || (request.signature.None? && request.publicKey.None?))
      && (Bundled(request) || request.bundle.None?)
    ensures VerifyTrust(check, request) != Pass ==> VerifyTrust(check, request) == Fail(TrustVerification)
    ensures VerifyTrust(check, request) == Pass && HasSignature(request) ==> Signed(check, request) || Bundled(request)
  {
    if request.signature.Some? && request.publicKey.Some? {
      VerifiesExactly(check, request.publicKey.value, request.signature.value, TrustMessage(request));
    }
    if request.bundle.Some? {
      BundleExactly(request.bundle.value);
    }
  }

  /** For a given key and signature without a bundle, Ed25519 alone decides. */
  lemma SignatureDecides(check: Ed25519, request: PublishSkillRequest, k: seq<byte>, s: seq<byte>)
    requires |k| == 32 && |s| == 64 && request.bundle.None?
    requires request.publicKey == Some(HexEncode(k)) && request.signature == Some(HexEncode(s))
    ensures VerifyTrust(check, request) ==
      if check(k, s, Encode(TrustText(request.manifest, request.artifact.digest))) then Pass else Fail(TrustVerification)
  {
    DecodeInvertsEncode(k);
    DecodeInvertsEncode(s);
  }
}
