/**
 * Base64 with padding, as in section 4 of RFC 4648: what `btoa` produces from
 * a binary string whose characters are the bytes to encode.
 */
module Base64 {

  import opened Wrappers
  import opened Utf

  /** The 64 symbols of the base64 alphabet (RFC 4648, table 1). */
  predicate IsSymbol(c: char) {
    ('A' <= c <= 'Z') || ('a' <= c <= 'z') || ('0' <= c <= '9') || c == '+' || c == '/'
  }

  /** Symbol for a 6-bit value: A-Z, a-z, 0-9, '+', '/'. */
  function Symbol(i: nat): (c: char)
    requires i < 64
    ensures IsSymbol(c)
  {
    if i < 26 then ('A' as int + i) as char
    else if i < 52 then ('a' as int + (i - 26)) as char
    else if i < 62 then ('0' as int + (i - 52)) as char
    else if i == 62 then '+'
    else '/'
  }

  /** 6-bit value of a symbol; `None` for anything outside the alphabet, padding included. */
  function SymbolValue(c: char): (r: Option<nat>)
    ensures r.Some? <==> IsSymbol(c)
    ensures r.Some? ==> r.value < 64 && Symbol(r.value) == c
  {
    if 'A' <= c <= 'Z' then Some(c as int - 'A' as int)
    else if 'a' <= c <= 'z' then Some(c as int - 'a' as int + 26)
    else if '0' <= c <= '9' then Some(c as int - '0' as int + 52)
    else if c == '+' then Some(62)
    else if c == '/' then Some(63)
    else None
  }

  lemma SymbolValueOfSymbol(i: nat)
    requires i < 64
    ensures SymbolValue(Symbol(i)) == Some(i)
  {
  }

  /** Number of '=' characters that pad the encoding of `n` bytes. */
  function Padding(n: nat): nat {
    (3 - n % 3) % 3
  }

  /** Four symbols for three bytes. */
  function EncodeGroup(b0: Byte, b1: Byte, b2: Byte): (r: string)
    ensures |r| == 4 && IsSymbol(r[0]) && IsSymbol(r[1]) && IsSymbol(r[2]) && IsSymbol(r[3])
  {
    [Symbol(b0 / 4), Symbol((b0 % 4) * 16 + b1 / 16), Symbol((b1 % 16) * 4 + b2 / 64), Symbol(b2 % 64)]
  }

  /** `btoa` of the bytes: base64 with '=' padding (RFC 4648, section 4). */
  function Encode(bytes: seq<Byte>): (r: string)
    ensures |r| == 4 * ((|bytes| + 2) / 3)
    decreases |bytes|
  {
    if |bytes| == 0 then []
    else if |bytes| == 1 then
      [Symbol(bytes[0] / 4), Symbol((bytes[0] % 4) * 16), '=', '=']
    else if |bytes| == 2 then
      [Symbol(bytes[0] / 4), Symbol((bytes[0] % 4) * 16 + bytes[1] / 16), Symbol((bytes[1] % 16) * 4), '=']
    else
      EncodeGroup(bytes[0], bytes[1], bytes[2]) + Encode(bytes[3..])
  }

  /** `r` is alphabet symbols followed by exactly `p` padding characters. */
  predicate PaddedWith(r: string, p: nat) {
    && p <= |r|
    && (forall i :: 0 <= i < |r| - p ==> IsSymbol(r[i]))
    && (forall i :: |r| - p <= i < |r| ==> r[i] == '=')
  }

  lemma GroupThenPadded(g: string, t: string, p: nat)
    requires |g| == 4 && IsSymbol(g[0]) && IsSymbol(g[1]) && IsSymbol(g[2]) && IsSymbol(g[3])
    requires PaddedWith(t, p)
    ensures PaddedWith(g + t, p)
  {
    var r := g + t;
    forall i | 0 <= i < |r| - p
      ensures IsSymbol(r[i])
    {
      if i < 4 {
        assert r[i] == g[i];
        assert i == 0 || i == 1 || i == 2 || i == 3;
      } else {
        assert r[i] == t[i - 4];
      }
    }
    forall i | |r| - p <= i < |r|
      ensures r[i] == '='
    {
      assert r[i] == t[i - 4];
    }
  }

  /** The encoding uses only the alphabet, followed by the padding and nothing else. */
  lemma {:induction false} EncodeAlphabet(bytes: seq<Byte>)
    ensures PaddedWith(Encode(bytes), Padding(|bytes|))
    decreases |bytes|
  {
    if |bytes| > 2 {
      var tail := bytes[3..];
      EncodeAlphabet(tail);
      assert Padding(|tail|) == Padding(|bytes|);
      GroupThenPadded(EncodeGroup(bytes[0], bytes[1], bytes[2]), Encode(tail), Padding(|tail|));
    }
  }

  /** Three bytes from four 6-bit values; `None` unless all four are symbols. */
  function DecodeGroup(g: string): (r: Option<seq<Byte>>)
    requires |g| == 4
    ensures r.Some? ==> |r.value| == 3
  {
    match (SymbolValue(g[0]), SymbolValue(g[1]), SymbolValue(g[2]), SymbolValue(g[3]))
    case (Some(i0), Some(i1), Some(i2), Some(i3)) =>
      Some([i0 * 4 + i1 / 16, (i1 % 16) * 16 + i2 / 4, (i2 % 4) * 64 + i3])
    case _ => None
  }

  /** Decoding of a final group that ends in padding. */
  function DecodeLastGroup(g: string): (r: Option<seq<Byte>>)
    requires |g| == 4
    ensures r.Some? ==> 1 <= |r.value| <= 3
  {
    if g[2] == '=' && g[3] == '=' then
      match (SymbolValue(g[0]), SymbolValue(g[1]))
      case (Some(i0), Some(i1)) => Some([i0 * 4 + i1 / 16])
      case _ => None
    else if g[3] == '=' then
      match (SymbolValue(g[0]), SymbolValue(g[1]), SymbolValue(g[2]))
      case (Some(i0), Some(i1), Some(i2)) => Some([i0 * 4 + i1 / 16, (i1 % 16) * 16 + i2 / 4])
      case _ => None
    else DecodeGroup(g)
  }

  /** Base64 decoding (RFC 4648, section 4); padding is accepted only in the last group. */
  function Decode(s: string): (r: Option<seq<Byte>>)
    decreases |s|
  {
    if |s| == 0 then Some([])
    else if |s| < 4 then None
    else if |s| == 4 then DecodeLastGroup(s)
    else
      match (DecodeGroup(s[..4]), Decode(s[4..]))
      case (Some(g), Some(rest)) => Some(g + rest)
      case _ => None
  }

  lemma GroupRoundTrip(b0: Byte, b1: Byte, b2: Byte)
    ensures DecodeGroup(EncodeGroup(b0, b1, b2)) == Some([b0, b1, b2])
  {
    var i0, i1, i2, i3 := b0 / 4, (b0 % 4) * 16 + b1 / 16, (b1 % 16) * 4 + b2 / 64, b2 % 64;
    SymbolValueOfSymbol(i0);
    SymbolValueOfSymbol(i1);
    SymbolValueOfSymbol(i2);
    SymbolValueOfSymbol(i3);
    assert i1 / 16 == b0 % 4 && i1 % 16 == b1 / 16;
    assert i2 / 4 == b1 % 16 && i2 % 4 == b2 / 64;
  }

  lemma OneByteRoundTrip(b0: Byte)
    ensures Decode(Encode([b0])) == Some([b0])
  {
    SymbolValueOfSymbol(b0 / 4);
    SymbolValueOfSymbol((b0 % 4) * 16);
  }

  lemma TwoByteRoundTrip(b0: Byte, b1: Byte)
    ensures Decode(Encode([b0, b1])) == Some([b0, b1])
  {
    var r := Encode([b0, b1]);
    var i0, i1, i2 := b0 / 4, (b0 % 4) * 16 + b1 / 16, (b1 % 16) * 4;
    SymbolValueOfSymbol(i0);
    SymbolValueOfSymbol(i1);
    SymbolValueOfSymbol(i2);
    assert r[2] != '=' && r[3] == '=';
    assert i1 / 16 == b0 % 4 && i1 % 16 == b1 / 16 && i2 / 4 == b1 % 16;
    assert DecodeLastGroup(r) == Some([i0 * 4 + i1 / 16, (i1 % 16) * 16 + i2 / 4]);
  }

  /** A full group in front of a non-empty encoding decodes on its own. */
  lemma DecodeFullGroupFirst(g: string, t: string)
    requires |g| == 4 && |t| > 0
    ensures Decode(g + t) == match (DecodeGroup(g), Decode(t))
      case (Some(x), Some(y)) => Some(x + y)
      case _ => None
  {
    assert (g + t)[..4] == g && (g + t)[4..] == t;
  }

  lemma ThreeByteRoundTrip(b0: Byte, b1: Byte, b2: Byte)
    ensures Decode(Encode([b0, b1, b2])) == Some([b0, b1, b2])
  {
    var g := EncodeGroup(b0, b1, b2);
    GroupRoundTrip(b0, b1, b2);
    assert [b0, b1, b2][3..] == [];
    assert Encode([b0, b1, b2]) == g + [] == g;
    assert g[3] != '=' && g[2] != '=';
  }

  /** One more leading group keeps a round trip a round trip. */
  lemma EncodeFirstGroup(bytes: seq<Byte>)
    requires |bytes| >= 3
    ensures Encode(bytes) == EncodeGroup(bytes[0], bytes[1], bytes[2]) + Encode(bytes[3..])
  {
  }

  lemma ThreeThenRest<T>(s: seq<T>)
    requires |s| >= 3
    ensures s == [s[0], s[1], s[2]] + s[3..]
  {
  }

  lemma GroupThenRoundTrip(bytes: seq<Byte>)
    requires |bytes| > 3
    requires Decode(Encode(bytes[3..])) == Some(bytes[3..])
    ensures Decode(Encode(bytes)) == Some(bytes)
  {
    var b0, b1, b2, tail := bytes[0], bytes[1], bytes[2], bytes[3..];
    var g := EncodeGroup(b0, b1, b2);
    var t := Encode(tail);
    EncodeFirstGroup(bytes);
    GroupRoundTrip(b0, b1, b2);
    DecodeFullGroupFirst(g, t);
    calc {
      Decode(Encode(bytes));
      Decode(g + t);
      Some([b0, b1, b2] + tail);
      { ThreeThenRest(bytes); }
      Some(bytes);
    }
  }

  /** Decoding an encoding gives back the bytes. */
  lemma {:induction false} DecodeEncode(bytes: seq<Byte>)
    ensures Decode(Encode(bytes)) == Some(bytes)
    decreases |bytes|
  {
    if |bytes| == 1 {
      assert bytes == [bytes[0]];
      OneByteRoundTrip(bytes[0]);
    } else if |bytes| == 2 {
      assert bytes == [bytes[0], bytes[1]];
      TwoByteRoundTrip(bytes[0], bytes[1]);
    } else if |bytes| == 3 {
      assert bytes == [bytes[0], bytes[1], bytes[2]];
      ThreeByteRoundTrip(bytes[0], bytes[1], bytes[2]);
    } else if |bytes| > 3 {
      DecodeEncode(bytes[3..]);
      GroupThenRoundTrip(bytes);
    }
  }
}
