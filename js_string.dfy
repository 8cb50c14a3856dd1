/** The JavaScript string built-ins the application relies on: `split` on one
    character, `join`, `trim`, ASCII `toLowerCase`, `includes`, `parseInt` and
    the decimal rendering of an integer (template literals and `toString`). */
module JsString {
  import opened Wrappers

  /** ECMAScript WhiteSpace and LineTerminator code points: what `trim`
      removes and what `parseInt` skips before the number. */
  predicate IsWhitespace(c: char) {
    var k := c as int;
    k == 0x09 || k == 0x0A || k == 0x0B || k == 0x0C || k == 0x0D || k == 0x20
    || k == 0xA0 || k == 0x1680 || (0x2000 <= k <= 0x200A) || k == 0x2028
    || k == 0x2029 || k == 0x202F || k == 0x205F || k == 0x3000 || k == 0xFEFF
  }

  predicate IsBlank(s: string) {
    forall i :: 0 <= i < |s| ==> IsWhitespace(s[i])
  }

  /** Neither end of `s` is whitespace. */
  predicate IsTrimmed(s: string) {
    s == [] || (!IsWhitespace(s[0]) && !IsWhitespace(s[|s| - 1]))
  }

  // ---------------------------------------------------------------- trim

  function TrimStart(s: string): (r: string)
    ensures |r| <= |s| && r == s[|s| - |r|..]
    ensures r == [] || !IsWhitespace(r[0])
    ensures forall k :: 0 <= k < |s| - |r| ==> IsWhitespace(s[k])
  {
    if |s| > 0 && IsWhitespace(s[0]) then TrimStart(s[1..]) else s
  }

  function TrimEnd(s: string): (r: string)
    ensures |r| <= |s| && r == s[..|r|]
    ensures r == [] || !IsWhitespace(r[|r| - 1])
    ensures forall k :: |r| <= k < |s| ==> IsWhitespace(s[k])
  {
    if |s| > 0 && IsWhitespace(s[|s| - 1]) then TrimEnd(s[..|s| - 1]) else s
  }

  /** `s.trim()`: `s` with the whitespace at both ends removed. */
  function Trim(s: string): (r: string)
    ensures IsTrimmed(r)
    ensures exists i, j :: 0 <= i <= j <= |s| && r == s[i..j] && IsBlank(s[..i]) && IsBlank(s[j..])
    ensures r == [] <==> IsBlank(s)
  {
    var t := TrimStart(s);
    var r := TrimEnd(t);
    var i := |s| - |t|;
    assert r == s[i..i + |r|];
    assert IsBlank(s[..i]) && IsBlank(s[i + |r|..]);
    r
  }

  lemma TrimmedIsFixed(s: string)
    requires IsTrimmed(s)
    ensures Trim(s) == s
  {
  }

  /** Leading whitespace never survives `trim`. */
  lemma {:induction false} TrimSkipsLeadingWhitespace(w: string, s: string)
    requires IsBlank(w)
    ensures Trim(w + s) == Trim(s)
  {
    if w != [] {
      assert (w + s)[1..] == w[1..] + s;
      TrimSkipsLeadingWhitespace(w[1..], s);
    } else {
      assert w + s == s;
    }
  }

  // ---------------------------------------------------------------- split and join

  /** `s.split(sep)` for a one-character separator: the maximal pieces of `s`
      between occurrences of `sep`; there is always at least one piece. */
  function Split(s: string, sep: char): (parts: seq<string>)
    ensures |parts| >= 1
    ensures forall i :: 0 <= i < |parts| ==> sep !in parts[i]
    ensures IsPrefix(parts[0], s)
  {
    if |s| == 0 then [""]
    else
      var rest := Split(s[1..], sep);
      if s[0] == sep then [""] + rest
      else [[s[0]] + rest[0]] + rest[1..]
  }

  /** `parts.join(sep)`. */
  function Join(parts: seq<string>, sep: string): (s: string)
    ensures |parts| == 0 ==> s == ""
    ensures |parts| == 1 ==> s == parts[0]
    ensures |parts| > 1 ==> IsPrefix(parts[0] + sep, s)
  {
    if |parts| == 0 then ""
    else if |parts| == 1 then parts[0]
    else parts[0] + sep + Join(parts[1..], sep)
  }

  lemma {:induction false} SplitWithout(s: string, sep: char)
    requires sep !in s
    ensures Split(s, sep) == [s]
  {
    if |s| > 0 {
      SplitWithout(s[1..], sep);
      assert [s[0]] + s[1..] == s;
    }
  }

  /** Splitting at the first separator gives the text before it, then the
      pieces of the text after it. */
  lemma {:induction false} SplitAtFirst(a: string, sep: char, b: string)
    requires sep !in a
    ensures Split(a + [sep] + b, sep) == [a] + Split(b, sep)
  {
    var s := a + [sep] + b;
    if |a| == 0 {
      assert s[1..] == b;
    } else {
      assert s[1..] == a[1..] + [sep] + b;
      SplitAtFirst(a[1..], sep, b);
      assert [a[0]] + a[1..] == a;
    }
  }

  /** The first piece of `a + [sep] + b` is `a`, whatever `b` is. */
  lemma FirstPiece(a: string, sep: char, b: string)
    requires sep !in a
    ensures Split(a + [sep] + b, sep)[0] == a
  {
    SplitAtFirst(a, sep, b);
  }

  /** Joining pieces free of the separator and splitting again gives them back. */
  lemma {:induction false} SplitJoin(parts: seq<string>, sep: char)
    requires |parts| >= 1
    requires forall i :: 0 <= i < |parts| ==> sep !in parts[i]
    ensures Split(Join(parts, [sep]), sep) == parts
  {
    if |parts| == 1 {
      SplitWithout(parts[0], sep);
    } else {
      SplitJoin(parts[1..], sep);
      SplitAtFirst(parts[0], sep, Join(parts[1..], [sep]));
      assert parts == [parts[0]] + parts[1..];
    }
  }

  /** Joining with a separator followed by padding is joining with the bare
      separator after padding every part but the first. */
  lemma {:induction false} JoinPadded(parts: seq<string>, sep: string, pad: string)
    requires |parts| >= 1
    ensures Join(parts, sep + pad) == Join([parts[0]] + Prefixed(parts[1..], pad), sep)
  {
    if |parts| > 1 {
      JoinPadded(parts[1..], sep, pad);
      var tail := [parts[1..][0]] + Prefixed(parts[2..], pad);
      assert parts[1..][1..] == parts[2..];
      assert Prefixed(parts[1..], pad) == [pad + parts[1]] + Prefixed(parts[2..], pad);
      assert ([parts[0]] + Prefixed(parts[1..], pad))[1..] == [pad + parts[1]] + Prefixed(parts[2..], pad);
      JoinPrefixedHead(parts[1], parts[2..], sep, pad);
    }
  }

  lemma {:induction false} JoinPrefixedHead(first: string, rest: seq<string>, sep: string, pad: string)
    ensures Join([pad + first] + Prefixed(rest, pad), sep) == pad + Join([first] + Prefixed(rest, pad), sep)
  {
    var l := [pad + first] + Prefixed(rest, pad);
    var k := [first] + Prefixed(rest, pad);
    if |rest| > 0 {
      assert l[1..] == k[1..] == Prefixed(rest, pad);
    }
  }

  /** Every string of `parts` with `pad` in front of it. */
  function Prefixed(parts: seq<string>, pad: string): (r: seq<string>)
    ensures |r| == |parts|
    ensures forall i :: 0 <= i < |parts| ==> r[i] == pad + parts[i]
  {
    seq(|parts|, i requires 0 <= i < |parts| => pad + parts[i])
  }

  // ---------------------------------------------------------------- case and search

  /** ASCII `toLowerCase` of one character. */
  function LowerChar(c: char): (d: char)
    ensures 'A' <= c <= 'Z' ==> d as int == c as int + 32
    ensures !('A' <= c <= 'Z') ==> d == c
  {
    if 'A' <= c <= 'Z' then (c as int + 32) as char else c
  }

  /** `s.toLowerCase()`, restricted to ASCII letters. */
  function ToLower(s: string): (r: string)
    ensures |r| == |s|
    ensures forall i :: 0 <= i < |s| ==> r[i] == LowerChar(s[i])
  {
    seq(|s|, i requires 0 <= i < |s| => LowerChar(s[i]))
  }

  predicate IsPrefix(p: string, s: string) {
    |p| <= |s| && s[..|p|] == p
  }

  /** `s.includes(t)`: `t` occurs somewhere in `s`. */
  predicate Includes(s: string, t: string)
    decreases |s|
  {
    IsPrefix(t, s) || (|s| > 0 && Includes(s[1..], t))
  }

  lemma {:induction false} IncludesAt(s: string, t: string, i: nat)
    requires i + |t| <= |s| && s[i..i + |t|] == t
    ensures Includes(s, t)
  {
    if i > 0 {
      assert s[1..][i - 1..i - 1 + |t|] == s[i..i + |t|];
      IncludesAt(s[1..], t, i - 1);
    }
  }

  lemma {:induction false} IncludesWitness(s: string, t: string) returns (i: nat)
    requires Includes(s, t)
    ensures i + |t| <= |s| && s[i..i + |t|] == t
  {
    if IsPrefix(t, s) {
      i := 0;
    } else {
      var j := IncludesWitness(s[1..], t);
      assert s[1..][j..j + |t|] == s[j + 1..j + 1 + |t|];
      i := j + 1;
    }
  }

  /** `t` occurs in `s` starting at position `i`. */
  predicate OccursAt(s: string, t: string, i: int) {
    0 <= i && i + |t| <= |s| && s[i..i + |t|] == t
  }

  /** `includes` means: occurs at some position. */
  lemma IncludesIff(s: string, t: string)
    ensures Includes(s, t) <==> exists i :: OccursAt(s, t, i)
  {
    if Includes(s, t) {
      var i := IncludesWitness(s, t);
      assert OccursAt(s, t, i);
    }
    if exists i :: OccursAt(s, t, i) {
      var i :| OccursAt(s, t, i);
      IncludesAt(s, t, i);
    }
  }

  // ---------------------------------------------------------------- numbers

  function DigitChar(d: nat): (c: char)
    requires d < 10
    ensures '0' <= c <= '9'
  {
    ('0' as int + d) as char
  }

  /** The decimal text of a non-negative integer, as a template literal or
      `toString` renders it (no sign, no leading zeros). */
  function DecimalText(n: nat): (s: string)
    ensures |s| >= 1
    ensures forall i :: 0 <= i < |s| ==> '0' <= s[i] <= '9'
    ensures s[0] == '0' ==> n == 0
  {
    if n < 10 then [DigitChar(n)] else DecimalText(n / 10) + [DigitChar(n % 10)]
  }

  /** `n.toString()` for an integer of either sign. */
  function IntText(n: int): (s: string)
    ensures |s| >= 1
    ensures s[0] == '-' <==> n < 0
  {
    if n < 0 then "-" + DecimalText(-n) else DecimalText(n)
  }

  /** The value of a digit character in radices up to 36, or 36 when it is none. */
  function DigitValue(c: char): (v: nat)
    ensures v <= 36
    ensures '0' <= c <= '9' ==> v == c as int - '0' as int
  {
    if '0' <= c <= '9' then c as int - '0' as int
    else if 'a' <= c <= 'z' then c as int - 'a' as int + 10
    else if 'A' <= c <= 'Z' then c as int - 'A' as int + 10
    else 36
  }

  /** The longest prefix of `s` made of digits of the given radix. */
  function LeadingDigits(s: string, radix: nat): (d: string)
    ensures IsPrefix(d, s)
    ensures forall i :: 0 <= i < |d| ==> DigitValue(d[i]) < radix
    ensures |d| < |s| ==> DigitValue(s[|d|]) >= radix
  {
    if |s| > 0 && DigitValue(s[0]) < radix then [s[0]] + LeadingDigits(s[1..], radix) else []
  }

  /** The number a digit string denotes in the given radix. */
  function DigitsValue(d: string, radix: nat): nat {
    if |d| == 0 then 0 else DigitsValue(d[..|d| - 1], radix) * radix + DigitValue(d[|d| - 1])
  }

  /** `parseInt(s)` with no radix: skip leading whitespace, take an optional
      sign, read hexadecimal after `0x`/`0X` and decimal otherwise, and stop at
      the first character that is not a digit. `None` stands for `NaN`, the
      result when no digit follows. */
  function ParseInt(s: string): (r: Option<int>)
    ensures r.None? <==> |NumeralDigits(s)| == 0
  {
    var t := TrimStart(s);
    var neg := |t| > 0 && t[0] == '-';
    var digits := NumeralDigits(s);
    if |digits| == 0 then None
    else
      var v: int := DigitsValue(digits, NumeralRadix(s));
      Some(if neg then -v else v)
  }

  /** The text after the whitespace and the sign that `parseInt` skips. */
  function Unsigned(s: string): string {
    var t := TrimStart(s);
    if |t| > 0 && (t[0] == '-' || t[0] == '+') then t[1..] else t
  }

  predicate IsHexNumeral(s: string) {
    var u := Unsigned(s);
    |u| >= 2 && u[0] == '0' && (u[1] == 'x' || u[1] == 'X')
  }

  function NumeralRadix(s: string): nat {
    if IsHexNumeral(s) then 16 else 10
  }

  /** The digits `parseInt` reads. */
  function NumeralDigits(s: string): string {
    var u := Unsigned(s);
    LeadingDigits(if IsHexNumeral(s) then u[2..] else u, NumeralRadix(s))
  }

  lemma {:induction false} DecimalValue(n: nat)
    ensures DigitsValue(DecimalText(n), 10) == n
  {
    if n >= 10 {
      var s := DecimalText(n);
      assert s[..|s| - 1] == DecimalText(n / 10);
      DecimalValue(n / 10);
    }
  }

  lemma {:induction false} AllDigitsLead(s: string)
    requires forall i :: 0 <= i < |s| ==> '0' <= s[i] <= '9'
    ensures LeadingDigits(s, 10) == s
  {
    if |s| > 0 {
      AllDigitsLead(s[1..]);
    }
  }

  predicate IsDigits(d: string) {
    |d| >= 1 && forall i :: 0 <= i < |d| ==> '0' <= d[i] <= '9'
  }

  /** Text that does not start with whitespace is left as it is. */
  lemma TrimStartNoLead(s: string)
    requires s == [] || !IsWhitespace(s[0])
    ensures TrimStart(s) == s
  {
  }

  lemma NumeralUnsigned(sign: string, d: string)
    requires sign == "" || sign == "-"
    requires IsDigits(d)
    ensures TrimStart(sign + d) == sign + d
    ensures Unsigned(sign + d) == d
  {
    var s := sign + d;
    assert s[0] == if sign == "" then d[0] else '-';
    TrimStartNoLead(s);
    assert sign == "-" ==> s[1..] == d;
  }

  /** A decimal numeral, signed or not, is read as written. */
  lemma SignedDecimalDigits(sign: string, d: string)
    requires sign == "" || sign == "-"
    requires IsDigits(d)
    ensures NumeralRadix(sign + d) == 10
    ensures NumeralDigits(sign + d) == d
  {
    NumeralUnsigned(sign, d);
    assert !IsHexNumeral(sign + d);
    AllDigitsLead(d);
  }

  /** `parseInt` reads back the decimal text of any non-negative integer. */
  lemma ParseDecimal(n: nat)
    ensures ParseInt(DecimalText(n)) == Some(n)
  {
    var s := DecimalText(n);
    SignedDecimalDigits("", s);
    assert "" + s == s;
    DecimalValue(n);
  }

  /** `parseInt` skips any leading whitespace character, including the
      non-ASCII ones such as U+00A0. */
  lemma ParseIntSkipsWhitespace(c: char, s: string)
    requires IsWhitespace(c)
    ensures ParseInt([c] + s) == ParseInt(s)
  {
    var w := [c] + s;
    assert w[1..] == s;
    assert TrimStart(w) == TrimStart(s);
    assert Unsigned(w) == Unsigned(s);
    assert NumeralDigits(w) == NumeralDigits(s) && NumeralRadix(w) == NumeralRadix(s);
  }

  /** `parseInt(n.toString())` is `n` for every integer. */
  lemma ParseIntText(n: int)
    ensures ParseInt(IntText(n)) == Some(n)
  {
    if n < 0 {
      var d := DecimalText(-n);
      var s := IntText(n);
      assert s == "-" + d;
      NumeralUnsigned("-", d);
      SignedDecimalDigits("-", d);
      DecimalValue(-n);
      assert TrimStart(s)[0] == '-';
      assert DigitsValue(NumeralDigits(s), NumeralRadix(s)) == -n;
    } else {
      ParseDecimal(n);
    }
  }
}
