/**
 * The two encodings of text the core depends on: UTF-16 code units, which
 * `charCodeAt` walks, and UTF-8 bytes (section 3 of RFC 3629), which
 * `TextEncoder` produces. A Dafny `char` is a Unicode scalar value, so a
 * string here never holds a lone surrogate.
 */
module Utf {

  type Byte = b: int | 0 <= b < 256

  /** Code point that one or two UTF-16 code units stand for. */
  function CodePointOfUnits(units: seq<int>): int
    requires |units| == 1 || |units| == 2
  {
    if |units| == 1 then units[0]
    else (units[0] - 0xD800) * 0x400 + (units[1] - 0xDC00) + 0x10000
  }

  /** UTF-16 code units of one scalar value: itself, or a surrogate pair above U+FFFF. */
  function Utf16Char(c: char): (units: seq<int>)
    ensures |units| == (if c as int < 0x10000 then 1 else 2)
    ensures forall i :: 0 <= i < |units| ==> 0 <= units[i] < 0x10000
    ensures |units| == 2 ==> 0xD800 <= units[0] < 0xDC00 <= units[1] < 0xE000
    ensures CodePointOfUnits(units) == c as int
  {
    var v := c as int;
    if v < 0x10000 then [v]
    else [0xD800 + (v - 0x10000) / 0x400, 0xDC00 + (v - 0x10000) % 0x400]
  }

  /** The UTF-16 code units of a string, `s.charCodeAt(0)`, `s.charCodeAt(1)`, ... */
  function Utf16(s: string): (units: seq<int>)
    ensures |units| >= |s|
    ensures forall i :: 0 <= i < |units| ==> 0 <= units[i] < 0x10000
  {
    if s == [] then [] else Utf16(s[..|s| - 1]) + Utf16Char(s[|s| - 1])
  }

  /** Code point that a 1- to 4-byte UTF-8 sequence stands for. */
  function CodePointOfBytes(bytes: seq<Byte>): int
    requires 1 <= |bytes| <= 4
  {
    var b: seq<int> := bytes;
    match |b|
    case 1 => b[0]
    case 2 => (b[0] - 0xC0) * 0x40 + (b[1] - 0x80)
    case 3 => (b[0] - 0xE0) * 0x1000 + (b[1] - 0x80) * 0x40 + (b[2] - 0x80)
    case 4 => (b[0] - 0xF0) * 0x40000 + (b[1] - 0x80) * 0x1000 + (b[2] - 0x80) * 0x40 + (b[3] - 0x80)
  }

  predicate IsContinuation(b: Byte) {
    0x80 <= b < 0xC0
  }

  /** Length of the UTF-8 encoding of a code point (RFC 3629, section 3). */
  function Utf8Length(v: int): nat {
    if v < 0x80 then 1 else if v < 0x800 then 2 else if v < 0x10000 then 3 else 4
  }

  /** UTF-8 bytes of one scalar value (RFC 3629, section 3). */
  function Utf8Char(c: char): (bytes: seq<Byte>)
    ensures |bytes| == Utf8Length(c as int)
    ensures |bytes| == 1 ==> bytes[0] < 0x80
    ensures |bytes| == 2 ==> 0xC2 <= bytes[0] < 0xE0
    ensures |bytes| == 3 ==> 0xE0 <= bytes[0] < 0xF0
    ensures |bytes| == 4 ==> 0xF0 <= bytes[0] < 0xF5
    ensures forall i :: 1 <= i < |bytes| ==> IsContinuation(bytes[i])
    ensures CodePointOfBytes(bytes) == c as int
  {
    var v := c as int;
    SixBitGroups(v);
    if v < 0x80 then [v]
    else if v < 0x800 then [0xC0 + v / 0x40, 0x80 + v % 0x40]
    else if v < 0x10000 then [0xE0 + v / 0x1000, 0x80 + (v / 0x40) % 0x40, 0x80 + v % 0x40]
    else [0xF0 + v / 0x40000, 0x80 + (v / 0x1000) % 0x40, 0x80 + (v / 0x40) % 0x40, 0x80 + v % 0x40]
  }

  /** The 6-bit groups of a code point, from the low end. */
  lemma SixBitGroups(v: int)
    requires 0 <= v < 0x110000
    ensures v == (v / 0x40) * 0x40 + v % 0x40
    ensures v / 0x40 == (v / 0x1000) * 0x40 + (v / 0x40) % 0x40
    ensures v / 0x1000 == (v / 0x40000) * 0x40 + (v / 0x1000) % 0x40
    ensures v < 0x800 ==> v / 0x40 < 0x20
    ensures v < 0x10000 ==> v / 0x1000 < 0x10
    ensures v / 0x40000 < 5
    ensures 0x80 <= v ==> 2 <= v / 0x40
  {
    var q1 := v / 0x40;
    var q2 := q1 / 0x40;
    assert v / 0x1000 == q2;
    assert v / 0x40000 == q2 / 0x40;
  }

  /** `new TextEncoder().encode(s)`. */
  function Utf8(s: string): (bytes: seq<Byte>)
    ensures |s| <= |bytes| <= 4 * |s|
  {
    if s == [] then [] else Utf8(s[..|s| - 1]) + Utf8Char(s[|s| - 1])
  }

  /** Encoding a concatenation encodes each part. */
  lemma {:induction false} Utf8Append(s: string, t: string)
    ensures Utf8(s + t) == Utf8(s) + Utf8(t)
    decreases |t|
  {
    if t != [] {
      var u := t[..|t| - 1];
      assert (s + t)[..|s + t| - 1] == s + u;
      assert (s + t)[|s + t| - 1] == t[|t| - 1];
      assert Utf8(s + t) == Utf8(s + u) + Utf8Char(t[|t| - 1]);
      Utf8Append(s, u);
    } else {
      assert s + t == s;
    }
  }

  /** An ASCII string encodes to its own code points, one byte each. */
  lemma {:induction false} Utf8Ascii(s: string)
    requires forall i :: 0 <= i < |s| ==> s[i] as int < 0x80
    ensures |Utf8(s)| == |s|
    ensures forall i :: 0 <= i < |s| ==> Utf8(s)[i] == s[i] as int
  {
    if s != [] {
      Utf8Ascii(s[..|s| - 1]);
    }
  }
}
