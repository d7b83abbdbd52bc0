/** Text as bytes: UTF-8, by shifting six bits at a time. */
module Utf8 {
  import opened Digest

  function EncodeChar(c: char): seq<byte> {
    var n := c as int;
    var n1 := n / 64;
    var n2 := n1 / 64;
    var n3 := n2 / 64;
    if n < 0x80 then [n]
    else if n < 0x800 then [0xC0 + n1, 0x80 + n % 64]
    else if n < 0x1_0000 then [0xE0 + n2, 0x80 + n1 % 64, 0x80 + n % 64]
    else [0xF0 + n3, 0x80 + n2 % 64, 0x80 + n1 % 64, 0x80 + n % 64]
  }

  function Encode(s: string): seq<byte> {
    if s == "" then [] else EncodeChar(s[0]) + Encode(s[1..])
  }

  /** The code that starts here, and how many bytes it takes; the lead byte says which form it is. */
  function First(bytes: seq<byte>): (int, nat)
    requires bytes != []
    requires var b := bytes[0]; |bytes| >= if b < 0x80 then 1 else if b < 0xE0 then 2 else if b < 0xF0 then 3 else 4
  {
    var b := bytes[0];
    if b < 0x80 then (b, 1)
    else if b < 0xE0 then ((b - 0xC0) * 64 + (bytes[1] - 0x80), 2)
    else if b < 0xF0 then (((b - 0xE0) * 64 + (bytes[1] - 0x80)) * 64 + (bytes[2] - 0x80), 3)
    else ((((b - 0xF0) * 64 + (bytes[1] - 0x80)) * 64 + (bytes[2] - 0x80)) * 64 + (bytes[3] - 0x80), 4)
  }

  /** Section 3 of RFC 3629: the number range fixes the length, the length the lead byte, and six bits follow in each other byte. */
  lemma EncodeCharExactly(c: char)
    ensures var (n, bytes) := (c as int, EncodeChar(c));
      if n <= 0x7F then bytes == [n]
      else if n <= 0x7FF then
        |bytes| == 2 && 0xC0 <= bytes[0] < 0xE0 && 0x80 <= bytes[1] < 0xC0
        && n == (bytes[0] as int - 0xC0) * 0x40 + (bytes[1] as int - 0x80)
      else if n <= 0xFFFF then
        |bytes| == 3 && 0xE0 <= bytes[0] < 0xF0 && 0x80 <= bytes[1] < 0xC0 && 0x80 <= bytes[2] < 0xC0
        && n == (bytes[0] as int - 0xE0) * 0x1000 + (bytes[1] as int - 0x80) * 0x40 + (bytes[2] as int - 0x80)
      else
        |bytes| == 4 && 0xF0 <= bytes[0] < 0xF8 && 0x80 <= bytes[1] < 0xC0 && 0x80 <= bytes[2] < 0xC0 && 0x80 <= bytes[3] < 0xC0
        && n == (bytes[0] as int - 0xF0) * 0x40000 + (bytes[1] as int - 0x80) * 0x1000 + (bytes[2] as int - 0x80) * 0x40 + (bytes[3] as int - 0x80)
  {
  }

  lemma FirstDecodes(c: char, rest: seq<byte>)
    ensures var bytes := EncodeChar(c) + rest;
      var b := bytes[0];
      && |bytes| >= (if b < 0x80 then 1 else if b < 0xE0 then 2 else if b < 0xF0 then 3 else 4)
      && First(bytes) == (c as int, |EncodeChar(c)|)
  {
  }

  lemma {:induction false} EncodeConcat(a: string, b: string)
    ensures Encode(a + b) == Encode(a) + Encode(b)
  {
    if a == "" {
      assert a + b == b;
    } else {
      assert (a + b)[1..] == a[1..] + b;
      EncodeConcat(a[1..], b);
    }
  }

  /** Different texts have different bytes. */
  lemma {:induction false} EncodeInjective(a: string, b: string)
    requires Encode(a) == Encode(b)
    ensures a == b
  {
    if a != "" && b != "" {
      FirstDecodes(a[0], Encode(a[1..]));
      FirstDecodes(b[0], Encode(b[1..]));
      assert a[0] == b[0];
      assert Encode(a[1..]) == Encode(a)[|EncodeChar(a[0])|..];
      assert Encode(b[1..]) == Encode(b)[|EncodeChar(b[0])|..];
      EncodeInjective(a[1..], b[1..]);
      assert a == [a[0]] + a[1..] && b == [b[0]] + b[1..];
    } else if a != "" {
      FirstDecodes(a[0], Encode(a[1..]));
    } else if b != "" {
      FirstDecodes(b[0], Encode(b[1..]));
    }
  }
}
