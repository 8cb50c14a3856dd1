/** The byte-level conversions the session token goes through: UTF-8
    encoding of a string (`Buffer.from(text)`), base64 encoding as in section
    4 of RFC 4648 (`toString('base64')`), the forgiving base64 decoder of
    Node's `Buffer.from(token, 'base64')`, and the decoding of bytes back to
    text (`toString('utf-8')`). */
module Base64 {

  type byte = x: int | 0 <= x < 256
  type sextet = x: int | 0 <= x < 64

  // ---------------------------------------------------------------- UTF-8

  /** The UTF-8 encoding of one Unicode scalar value: one byte below 0x80,
      otherwise a lead byte at or above 0xC0 and continuation bytes in
      0x80..0xBF. */
  function EncodeChar(c: char): (b: seq<byte>)
    ensures 1 <= |b| <= 4
    ensures (c as int < 0x80) <==> |b| == 1
    ensures |b| == 1 ==> b[0] == c as int
    ensures |b| > 1 ==> forall i :: 0 <= i < |b| ==> b[i] >= 0x80
  {
    var k := c as int;
    if k < 0x80 then [k]
    else if k < 0x800 then [0xC0 + k / 64, 0x80 + k % 64]
    else if k < 0x1_0000 then [0xE0 + k / 4096, 0x80 + (k / 64) % 64, 0x80 + k % 64]
    else [0xF0 + k / 262144, 0x80 + (k / 4096) % 64, 0x80 + (k / 64) % 64, 0x80 + k % 64]
  }

  /** `Buffer.from(s)`: the UTF-8 bytes of `s`. */
  function Utf8Encode(s: string): (b: seq<byte>)
    ensures |s| <= |b| <= 4 * |s|
  {
    if |s| == 0 then [] else EncodeChar(s[0]) + Utf8Encode(s[1..])
  }

  /** The length of the sequence a byte announces when it leads one: 1 for
      ASCII, 2, 3 or 4 for the lead bytes that can begin a well-formed
      sequence, and 0 for a byte that cannot begin one (a continuation
      byte, C0, C1 or F5 and above). */
  function SequenceLength(lead: byte): (n: nat)
    ensures n <= 4 && n != 1 <==> lead >= 0x80
  {
    if lead < 0x80 then 1
    else if 0xC2 <= lead <= 0xDF then 2
    else if 0xE0 <= lead <= 0xEF then 3
    else if 0xF0 <= lead <= 0xF4 then 4
    else 0
  }

  /** Whether `x` may stand at position `k` (1 to 3) of a sequence led by
      `lead`: a continuation byte, from a narrower range as the second byte
      after E0, ED, F0 and F4, which rules out overlong forms, surrogates
      and values above U+10FFFF. */
  predicate Follows(lead: byte, k: nat, x: byte) {
    if k == 1 && lead == 0xE0 then 0xA0 <= x <= 0xBF
    else if k == 1 && lead == 0xED then 0x80 <= x <= 0x9F
    else if k == 1 && lead == 0xF0 then 0x90 <= x <= 0xBF
    else if k == 1 && lead == 0xF4 then 0x80 <= x <= 0x8F
    else 0x80 <= x <= 0xBF
  }

  /** How far, counting from position `k`, the bytes after the lead fit a
      sequence of length `n`: the last position reached, `n - 1` when the
      sequence is complete. */
  function Matched(b: seq<byte>, n: nat, k: nat): (m: nat)
    requires 1 <= k <= n && k <= |b|
    ensures k - 1 <= m < n && m < |b|
    ensures forall j :: k <= j <= m ==> Follows(b[0], j, b[j])
    ensures n <= |b| && (forall j :: k <= j < n ==> Follows(b[0], j, b[j])) ==> m == n - 1
    decreases n - k
  {
    if k < n && k < |b| && Follows(b[0], k, b[k]) then Matched(b, n, k + 1)
    else k - 1
  }

  /** The scalar value a complete sequence of length 2 to 4 encodes. */
  function ScalarOf(b: seq<byte>, n: nat): (v: int)
    requires 2 <= n <= 4 && n <= |b| && SequenceLength(b[0]) == n
    requires forall j :: 1 <= j < n ==> Follows(b[0], j, b[j])
    ensures 0x80 <= v < 0xD800 || 0xE000 <= v < 0x11_0000
  {
    var b1: int := b[1];
    assert Follows(b[0], 1, b[1]);
    if n == 2 then (b[0] - 0xC0) * 64 + (b1 - 0x80)
    else
      var b2: int := b[2];
      assert Follows(b[0], 2, b[2]);
      if n == 3 then (b[0] - 0xE0) * 4096 + (b1 - 0x80) * 64 + (b2 - 0x80)
      else
        var b3: int := b[3];
        assert Follows(b[0], 3, b[3]);
        (b[0] - 0xF0) * 262144 + (b1 - 0x80) * 4096 + (b2 - 0x80) * 64 + (b3 - 0x80)
  }

  /** One step of the decoder on non-empty input: the character it produces
      and how many bytes it consumes. A complete sequence gives its scalar
      value; otherwise the lead byte and the bytes after it that still fit
      (at least one byte in all) become one U+FFFD. */
  function DecodeStep(b: seq<byte>): (r: (char, nat))
    requires |b| >= 1
    ensures 1 <= r.1 <= |b| && r.1 <= 4
    ensures b[0] < 0x80 ==> r == (b[0] as char, 1)
  {
    var n := SequenceLength(b[0]);
    if n == 1 then (b[0] as char, 1)
    else if n == 0 then ('\U{FFFD}', 1)
    else
      var m := Matched(b, n, 1);
      if m == n - 1 then (ScalarOf(b, n) as char, n) else ('\U{FFFD}', m + 1)
  }

  /** `buf.toString('utf-8')`: the decoder of the WHATWG Encoding Standard,
      which replaces every ill-formed part of the input with U+FFFD. */
  function Utf8Decode(b: seq<byte>): (s: string)
    ensures |s| <= |b|
    ensures |s| == 0 <==> |b| == 0
    decreases |b|
  {
    if |b| == 0 then ""
    else
      var r := DecodeStep(b);
      [r.0] + Utf8Decode(b[r.1..])
  }

  /** The encoding of a concatenation is the concatenation of the encodings. */
  lemma {:induction false} Utf8EncodeAppend(s: string, t: string)
    ensures Utf8Encode(s + t) == Utf8Encode(s) + Utf8Encode(t)
  {
    if |s| > 0 {
      assert (s + t)[1..] == s[1..] + t;
      Utf8EncodeAppend(s[1..], t);
    } else {
      assert s + t == t;
    }
  }

  /** The decoder reads the encoding of one character back as that
      character and consumes exactly its bytes, whatever follows. */
  lemma DecodeEncodedChar(c: char, rest: seq<byte>)
    ensures DecodeStep(EncodeChar(c) + rest) == (c, |EncodeChar(c)|)
  {
    var k := c as int;
    if k < 0x80 {
      assert (EncodeChar(c) + rest)[0] == k;
    } else if k < 0x800 {
      DecodeTwo(c, rest);
    } else if k < 0x1_0000 {
      DecodeThree(c, rest);
    } else {
      DecodeFour(c, rest);
    }
  }

  lemma DecodeTwo(c: char, rest: seq<byte>)
    requires 0x80 <= c as int < 0x800
    ensures DecodeStep(EncodeChar(c) + rest) == (c, 2)
  {
    var k := c as int;
    var b := EncodeChar(c) + rest;
    assert b[0] == 0xC0 + k / 64 && b[1] == 0x80 + k % 64;
    assert SequenceLength(b[0]) == 2;
    assert Follows(b[0], 1, b[1]);
    assert Matched(b, 2, 1) == 1;
    assert ScalarOf(b, 2) == k;
  }

  lemma DecodeThree(c: char, rest: seq<byte>)
    requires 0x800 <= c as int < 0x1_0000
    ensures DecodeStep(EncodeChar(c) + rest) == (c, 3)
  {
    var k := c as int;
    var b := EncodeChar(c) + rest;
    var hi, mid, lo := k / 4096, (k / 64) % 64, k % 64;
    assert k == hi * 4096 + mid * 64 + lo;
    assert b[0] == 0xE0 + hi && b[1] == 0x80 + mid && b[2] == 0x80 + lo;
    assert SequenceLength(b[0]) == 3;
    assert hi == 0 ==> mid >= 32;
    assert hi == 13 ==> mid < 32;
    assert Follows(b[0], 1, b[1]) && Follows(b[0], 2, b[2]);
    assert Matched(b, 3, 1) == 2;
    assert ScalarOf(b, 3) == k;
  }

  /** The 6-bit pieces of a value above U+FFFF and what they say about the
      second byte of its encoding. */
  lemma FourPieces(k: int)
    requires 0x1_0000 <= k < 0x11_0000
    ensures var top, hi, mid, lo := k / 262144, (k / 4096) % 64, (k / 64) % 64, k % 64;
      && k == top * 262144 + hi * 4096 + mid * 64 + lo
      && 0 <= top <= 4 && (top == 0 ==> hi >= 16) && (top == 4 ==> hi < 16)
  {
  }

  lemma DecodeFour(c: char, rest: seq<byte>)
    requires 0x1_0000 <= c as int
    ensures DecodeStep(EncodeChar(c) + rest) == (c, 4)
  {
    var k := c as int;
    var b := EncodeChar(c) + rest;
    var top, hi, mid, lo := k / 262144, (k / 4096) % 64, (k / 64) % 64, k % 64;
    FourPieces(k);
    assert b[0] == 0xF0 + top && b[1] == 0x80 + hi && b[2] == 0x80 + mid && b[3] == 0x80 + lo;
    assert SequenceLength(b[0]) == 4;
    assert Follows(b[0], 1, b[1]) && Follows(b[0], 2, b[2]) && Follows(b[0], 3, b[3]);
    assert Matched(b, 4, 1) == 3;
    assert ScalarOf(b, 4) == k;
  }

  /** Decoding the encoding of `s` followed by any bytes gives `s` followed
      by the decoding of those bytes. */
  lemma {:induction false} Utf8DecodePrefix(s: string, rest: seq<byte>)
    ensures Utf8Decode(Utf8Encode(s) + rest) == s + Utf8Decode(rest)
  {
    if |s| > 0 {
      Utf8DecodePrefix(s[1..], rest);
      DecodePrefixStep(s, rest);
    } else {
      assert Utf8Encode(s) + rest == rest;
    }
  }

  /** One character more in front of an encoding that decodes correctly. */
  lemma DecodePrefixStep(s: string, rest: seq<byte>)
    requires |s| > 0
    requires Utf8Decode(Utf8Encode(s[1..]) + rest) == s[1..] + Utf8Decode(rest)
    ensures Utf8Decode(Utf8Encode(s) + rest) == s + Utf8Decode(rest)
  {
    var tail := Utf8Encode(s[1..]) + rest;
    var b := Utf8Encode(s) + rest;
    var e := EncodeChar(s[0]);
    assert Utf8Encode(s) == e + Utf8Encode(s[1..]);
    Assoc(e, Utf8Encode(s[1..]), rest);
    assert b == EncodeChar(s[0]) + tail;
    DecodeAfterChar(s[0], tail, b);
    assert s == [s[0]] + s[1..];
    Assoc([s[0]], s[1..], Utf8Decode(rest));
  }

  lemma Assoc<T>(a: seq<T>, b: seq<T>, c: seq<T>)
    ensures (a + b) + c == a + (b + c)
  {
  }

  lemma DecodeAfterChar(c: char, tail: seq<byte>, b: seq<byte>)
    requires b == EncodeChar(c) + tail
    ensures Utf8Decode(b) == [c] + Utf8Decode(tail)
  {
    DecodeEncodedChar(c, tail);
    assert b[|EncodeChar(c)|..] == tail;
  }

  /** Every string survives encoding to UTF-8 and decoding back. */
  lemma Utf8RoundTrip(s: string)
    ensures Utf8Decode(Utf8Encode(s)) == s
  {
    Utf8DecodePrefix(s, []);
    assert Utf8Encode(s) + [] == Utf8Encode(s);
    assert s + Utf8Decode([]) == s;
  }

  // ---------------------------------------------------------------- base64

  /** The base64 alphabet of section 4 of RFC 4648. */
  function Digit(v: sextet): (c: char)
  {
    if v < 26 then ('A' as int + v) as char
    else if v < 52 then ('a' as int + v - 26) as char
    else if v < 62 then ('0' as int + v - 52) as char
    else if v == 62 then '+'
    else '/'
  }

  /** Characters Node's decoder accepts: the standard alphabet and, for
      positions 62 and 63, also the URL-safe `-` and `_`. */
  predicate IsDigit(c: char) {
    'A' <= c <= 'Z' || 'a' <= c <= 'z' || '0' <= c <= '9' || c == '+' || c == '/' || c == '-' || c == '_'
  }

  function DigitValue(c: char): (v: sextet)
    requires IsDigit(c)
  {
    if 'A' <= c <= 'Z' then c as int - 'A' as int
    else if 'a' <= c <= 'z' then c as int - 'a' as int + 26
    else if '0' <= c <= '9' then c as int - '0' as int + 52
    else if c == '+' || c == '-' then 62
    else 63
  }

  lemma DigitValueOfDigit(v: sextet)
    ensures IsDigit(Digit(v)) && DigitValue(Digit(v)) == v
  {
  }

  /** The four characters for three bytes. */
  function EncodeGroup(a: byte, b: byte, c: byte): (g: string)
    ensures |g| == 4
  {
    [Digit(a / 4), Digit((a % 4) * 16 + b / 16), Digit((b % 16) * 4 + c / 64), Digit(c % 64)]
  }

  /** `Buffer.from(b).toString('base64')`: groups of three bytes become four
      characters; a final group of one or two bytes is padded with `=`. */
  function Encode(b: seq<byte>): (s: string)
    ensures |s| % 4 == 0
  {
    if |b| == 0 then ""
    else if |b| == 1 then [Digit(b[0] / 4), Digit((b[0] % 4) * 16), '=', '=']
    else if |b| == 2 then [Digit(b[0] / 4), Digit((b[0] % 4) * 16 + b[1] / 16), Digit((b[1] % 16) * 4), '=']
    else EncodeGroup(b[0], b[1], b[2]) + Encode(b[3..])
  }

  /** The digits Node's decoder reads: those before the first `=`, skipping
      every character outside the alphabet. */
  function Sextets(s: string): (x: seq<sextet>)
    ensures |x| <= |s|
  {
    if |s| == 0 || s[0] == '=' then []
    else if IsDigit(s[0]) then [DigitValue(s[0])] + Sextets(s[1..])
    else Sextets(s[1..])
  }

  /** Four digits give three bytes; a final two or three digits give one or
      two bytes, and a lone final digit gives none. */
  function FromSextets(x: seq<sextet>): (b: seq<byte>)
    ensures |b| == (|x| / 4) * 3 + (if |x| % 4 == 3 then 2 else if |x| % 4 == 2 then 1 else 0)
  {
    if |x| < 2 then []
    else
      var x0, x1: int := x[0], x[1];
      var b0: byte := x0 * 4 + x1 / 16;
      if |x| == 2 then [b0]
      else
        var x2: int := x[2];
        var b1: byte := (x1 % 16) * 16 + x2 / 4;
        if |x| == 3 then [b0, b1]
        else
          var b2: byte := (x2 % 4) * 64 + x[3];
          [b0, b1, b2] + FromSextets(x[4..])
  }

  /** `Buffer.from(s, 'base64')`: it never fails; whatever it cannot read it skips. */
  function Decode(s: string): (b: seq<byte>)
    ensures 4 * |b| <= 3 * |s|
  {
    FromSextets(Sextets(s))
  }

  lemma OneDigit(v: sextet, s: string)
    requires |s| > 0 && s[0] == Digit(v)
    ensures Sextets(s) == [v] + Sextets(s[1..])
  {
    DigitValueOfDigit(v);
  }

  lemma GroupSextets(a: byte, b: byte, c: byte, rest: string)
    ensures Sextets(EncodeGroup(a, b, c) + rest) ==
      [a / 4, (a % 4) * 16 + b / 16, (b % 16) * 4 + c / 64, c % 64] + Sextets(rest)
  {
    var v0, v1, v2, v3: sextet := a / 4, (a % 4) * 16 + b / 16, (b % 16) * 4 + c / 64, c % 64;
    var s := EncodeGroup(a, b, c) + rest;
    OneDigit(v0, s);
    OneDigit(v1, s[1..]);
    OneDigit(v2, s[2..]);
    OneDigit(v3, s[3..]);
    assert s[1..][1..] == s[2..] && s[2..][1..] == s[3..] && s[3..][1..] == rest;
  }

  lemma GroupBytes(a: byte, b: byte, c: byte)
    ensures var s0, s1, s2, s3 := a / 4, (a % 4) * 16 + b / 16, (b % 16) * 4 + c / 64, c % 64;
      s0 * 4 + s1 / 16 == a && (s1 % 16) * 16 + s2 / 4 == b && (s2 % 4) * 64 + s3 == c
  {
    var s1 := (a % 4) * 16 + b / 16;
    var s2 := (b % 16) * 4 + c / 64;
    assert s1 / 16 == a % 4 && s1 % 16 == b / 16;
    assert s2 / 4 == b % 16 && s2 % 4 == c / 64;
  }

  /** The sextets of an encoding are the 6-bit pieces of its bytes. */
  function SextetsOf(b: seq<byte>): seq<sextet>
  {
    if |b| == 0 then []
    else if |b| == 1 then [b[0] / 4, (b[0] % 4) * 16]
    else if |b| == 2 then [b[0] / 4, (b[0] % 4) * 16 + b[1] / 16, (b[1] % 16) * 4]
    else [b[0] / 4, (b[0] % 4) * 16 + b[1] / 16, (b[1] % 16) * 4 + b[2] / 64, b[2] % 64] + SextetsOf(b[3..])
  }

  lemma {:induction false} EncodeSextets(b: seq<byte>)
    ensures Sextets(Encode(b)) == SextetsOf(b)
  {
    if |b| == 1 {
      OneByteSextets(b);
    } else if |b| == 2 {
      TwoByteSextets(b);
    } else if |b| >= 3 {
      GroupSextets(b[0], b[1], b[2], Encode(b[3..]));
      EncodeSextets(b[3..]);
    }
  }

  /** A final group of one byte: two digits, then `==`. */
  lemma OneByteSextets(b: seq<byte>)
    requires |b| == 1
    ensures Sextets(Encode(b)) == SextetsOf(b)
  {
    var v0, v1: sextet := b[0] / 4, (b[0] % 4) * 16;
    var s := Encode(b);
    assert s == [Digit(v0), Digit(v1), '=', '='];
    OneDigit(v0, s);
    OneDigit(v1, s[1..]);
    assert s[1..][1..] == "==";
  }

  /** A final group of two bytes: three digits, then `=`. */
  lemma TwoByteSextets(b: seq<byte>)
    requires |b| == 2
    ensures Sextets(Encode(b)) == SextetsOf(b)
  {
    var v0, v1, v2: sextet := b[0] / 4, (b[0] % 4) * 16 + b[1] / 16, (b[1] % 16) * 4;
    var s := Encode(b);
    assert s == [Digit(v0), Digit(v1), Digit(v2), '='];
    OneDigit(v0, s);
    OneDigit(v1, s[1..]);
    OneDigit(v2, s[2..]);
    assert s[1..][1..] == s[2..] && s[2..][1..] == "=";
  }

  lemma {:induction false} SextetBytes(b: seq<byte>)
    ensures FromSextets(SextetsOf(b)) == b
  {
    if |b| == 1 {
      GroupBytes(b[0], 0, 0);
    } else if |b| == 2 {
      GroupBytes(b[0], b[1], 0);
    } else if |b| >= 3 {
      GroupBytes(b[0], b[1], b[2]);
      var x := SextetsOf(b);
      assert x[4..] == SextetsOf(b[3..]);
      SextetBytes(b[3..]);
      assert b == b[..3] + b[3..];
    }
  }

  /** Decoding what was encoded gives back the bytes. */
  lemma DecodeEncode(b: seq<byte>)
    ensures Decode(Encode(b)) == b
  {
    EncodeSextets(b);
    SextetBytes(b);
  }
}
