/**
 * The few JavaScript string built-ins the pages rely on, written out over
 * Dafny strings (sequences of Unicode scalar values): `trim`, `toLowerCase`
 * (ASCII letters only), `split(sep)[0]`, `length` (UTF-16 code units),
 * `parseInt` with no radix, and the decimal rendering of a number inside
 * a template literal.
 */
module JsString {
  import opened Wrappers

  /** ECMAScript WhiteSpace and LineTerminator: what `trim` and `parseInt` skip. */
  predicate IsWhitespace(c: char) {
    || c == '\t' || c == '\n' || c == '\U{000B}' || c == '\U{000C}' || c == '\r' || c == ' '
    || c == '\U{00A0}' || c == '\U{1680}' || ('\U{2000}' <= c <= '\U{200A}')
    || c == '\U{2028}' || c == '\U{2029}' || c == '\U{202F}' || c == '\U{205F}'
    || c == '\U{3000}' || c == '\U{FEFF}'
  }

  /** Number of whitespace characters `s` starts with. */
  function LeadingWhitespace(s: string): (n: nat)
    ensures n <= |s|
    ensures forall k :: 0 <= k < n ==> IsWhitespace(s[k])
    ensures n < |s| ==> !IsWhitespace(s[n])
  {
    if s != [] && IsWhitespace(s[0]) then 1 + LeadingWhitespace(s[1..]) else 0
  }

  /** Number of whitespace characters `s` ends with. */
  function TrailingWhitespace(s: string): (n: nat)
    ensures n <= |s|
    ensures forall k :: |s| - n <= k < |s| ==> IsWhitespace(s[k])
    ensures n < |s| ==> !IsWhitespace(s[|s| - n - 1])
  {
    if s != [] && IsWhitespace(s[|s| - 1]) then 1 + TrailingWhitespace(s[..|s| - 1]) else 0
  }

  /** `String.prototype.trimStart`: drops the leading whitespace and nothing else. */
  function TrimStart(s: string): (r: string)
    ensures |r| <= |s| && r == s[|s| - |r|..]
    ensures forall k :: 0 <= k < |s| - |r| ==> IsWhitespace(s[k])
    ensures r != [] ==> !IsWhitespace(r[0])
  {
    s[LeadingWhitespace(s)..]
  }

  /** `String.prototype.trimEnd`: drops the trailing whitespace and nothing else. */
  function TrimEnd(s: string): (r: string)
    ensures |r| <= |s| && r == s[..|r|]
    ensures forall k :: |r| <= k < |s| ==> IsWhitespace(s[k])
    ensures r != [] ==> !IsWhitespace(r[|r| - 1])
  {
    s[..|s| - TrailingWhitespace(s)]
  }

  /** `r` is the slice of `s` starting at `i`, and everything around it is whitespace. */
  ghost predicate TrimmedAt(s: string, r: string, i: int) {
    && 0 <= i <= |s| - |r|
    && r == s[i..i + |r|]
    && (forall k :: 0 <= k < i ==> IsWhitespace(s[k]))
    && (forall k :: i + |r| <= k < |s| ==> IsWhitespace(s[k]))
  }

  /** A suffix of `s` after whitespace, cut before trailing whitespace, is a slice of `s` framed by whitespace. */
  lemma FramedSlice(s: string, t: string, r: string)
    requires |t| <= |s| && t == s[|s| - |t|..]
    requires forall k :: 0 <= k < |s| - |t| ==> IsWhitespace(s[k])
    requires |r| <= |t| && r == t[..|r|]
    requires forall k :: |r| <= k < |t| ==> IsWhitespace(t[k])
    ensures TrimmedAt(s, r, |s| - |t|)
  {
    var i := |s| - |t|;
    assert r == s[i..i + |r|];
    forall k | i + |r| <= k < |s|
      ensures IsWhitespace(s[k])
    {
      assert s[k] == t[k - i];
    }
  }

  /**
   * `String.prototype.trim`: the middle slice of `s` that neither begins nor
   * ends with whitespace, everything cut off being whitespace.
   */
  function Trim(s: string): (r: string)
    ensures r != [] ==> !IsWhitespace(r[0]) && !IsWhitespace(r[|r| - 1])
    ensures exists i :: TrimmedAt(s, r, i)
  {
    var t := TrimStart(s);
    FramedSlice(s, t, TrimEnd(t));
    TrimEnd(t)
  }

  /** A string with no whitespace at either end is its own trim. */
  lemma TrimUnchanged(s: string)
    requires s == [] || (!IsWhitespace(s[0]) && !IsWhitespace(s[|s| - 1]))
    ensures Trim(s) == s
  {
  }

  lemma TrimIdempotent(s: string)
    ensures Trim(Trim(s)) == Trim(s)
  {
    TrimUnchanged(Trim(s));
  }

  /** A slice never holds a character its string does not. */
  lemma SliceKeepsAbsent(s: string, r: string, i: int, c: char)
    requires TrimmedAt(s, r, i)
    requires c !in s
    ensures c !in r
  {
    assert forall k :: 0 <= k < |r| ==> r[k] == s[i + k];
  }

  /** Trimming never introduces a character. */
  lemma TrimKeepsAbsent(s: string, c: char)
    requires c !in s
    ensures c !in Trim(s)
  {
    var r := Trim(s);
    var i :| TrimmedAt(s, r, i);
    SliceKeepsAbsent(s, r, i, c);
  }

  /** `toLowerCase` on one character, for the ASCII letters. */
  function LowerChar(c: char): (r: char)
    ensures !('A' <= r <= 'Z')
    ensures 'A' <= c <= 'Z' ==> r as int == c as int + 32
    ensures !('A' <= c <= 'Z') ==> r == c
  {
    if 'A' <= c <= 'Z' then (c as int + 32) as char else c
  }

  /** `String.prototype.toLowerCase`, ASCII letters only. */
  function ToLower(s: string): (r: string)
    ensures |r| == |s|
    ensures forall k :: 0 <= k < |s| ==> r[k] == LowerChar(s[k])
  {
    seq(|s|, k requires 0 <= k < |s| => LowerChar(s[k]))
  }

  /** Lower-casing twice is lower-casing once. */
  lemma ToLowerIdempotent(s: string)
    ensures ToLower(ToLower(s)) == ToLower(s)
  {
  }

  /** `a.toLowerCase() === b.toLowerCase()`. */
  predicate SameIgnoringCase(a: string, b: string) {
    ToLower(a) == ToLower(b)
  }

  /** `s.split(sep)[0]`: the text before the first `sep`, all of `s` when `sep` does not occur. */
  function BeforeFirst(s: string, sep: char): (r: string)
    ensures |r| <= |s| && r == s[..|r|]
    ensures sep !in r
    ensures |r| < |s| ==> s[|r|] == sep
  {
    if s == [] || s[0] == sep then [] else [s[0]] + BeforeFirst(s[1..], sep)
  }

  /** Number of UTF-16 code units of one character: two for a character outside the BMP. */
  function Utf16Units(c: char): nat {
    if c as int > 0xFFFF then 2 else 1
  }

  /** `String.prototype.length`, which counts UTF-16 code units, not characters. */
  function Utf16Length(s: string): (n: nat)
    ensures |s| <= n <= 2 * |s|
    ensures (forall k :: 0 <= k < |s| ==> s[k] as int <= 0xFFFF) ==> n == |s|
  {
    if s == [] then 0 else Utf16Units(s[0]) + Utf16Length(s[1..])
  }

  /** One character counts its own code units: one in the BMP, two outside it. */
  lemma Utf16LengthOfChar(c: char)
    ensures Utf16Length([c]) == Utf16Units(c)
    ensures c as int > 0xFFFF ==> Utf16Length([c]) == 2
  {
    assert [c][1..] == [];
  }

  /** The code-unit length of a concatenation is the sum of the lengths. */
  lemma {:induction false} Utf16LengthAppend(a: string, b: string)
    ensures Utf16Length(a + b) == Utf16Length(a) + Utf16Length(b)
  {
    if a == [] {
      assert a + b == b;
    } else {
      assert (a + b)[0] == a[0] && (a + b)[1..] == a[1..] + b;
      Utf16LengthAppend(a[1..], b);
    }
  }

  /**
   * Value of a digit character in radix 36 notation ('0'-'9', then 'a'/'A'
   * = 10, ...); 36, a digit in no radix, for any other character.
   */
  function DigitValue(c: char): (v: nat)
    ensures v <= 36
  {
    if '0' <= c <= '9' then c as int - '0' as int
    else if 'a' <= c <= 'z' then c as int - 'a' as int + 10
    else if 'A' <= c <= 'Z' then c as int - 'A' as int + 10
    else 36
  }

  predicate IsDigit(c: char, radix: nat) {
    DigitValue(c) < radix
  }

  /** The longest prefix of `s` made of digits of the radix. */
  function DigitPrefix(s: string, radix: nat): (r: string)
    ensures |r| <= |s| && r == s[..|r|]
    ensures forall k :: 0 <= k < |r| ==> IsDigit(r[k], radix)
    ensures |r| < |s| ==> !IsDigit(s[|r|], radix)
  {
    if s == [] || !IsDigit(s[0], radix) then [] else [s[0]] + DigitPrefix(s[1..], radix)
  }

  /** Positional value of a digit string, most significant digit first. */
  function DigitsValue(d: string, radix: nat): nat {
    if d == [] then 0 else DigitsValue(d[..|d| - 1], radix) * radix + DigitValue(d[|d| - 1])
  }

  /**
   * The digits part of `parseInt` with no radix: a `0x`/`0X` prefix selects
   * base 16, then the longest run of digits is read; no digit at all gives
   * NaN (here `None`). Anything after the digits is ignored.
   */
  function ParseMagnitude(u: string): Option<nat> {
    var hex := |u| >= 2 && u[0] == '0' && (u[1] == 'x' || u[1] == 'X');
    var radix := if hex then 16 else 10;
    var digits := DigitPrefix(if hex then u[2..] else u, radix);
    if digits == [] then None else Some(DigitsValue(digits, radix))
  }

  /** What `parseInt` reads once leading whitespace is gone: an optional sign, then the digits. */
  function ParseSigned(t: string): Option<int> {
    var signed := t != [] && (t[0] == '-' || t[0] == '+');
    match ParseMagnitude(if signed then t[1..] else t)
    case Some(m) => Some(if signed && t[0] == '-' then -(m as int) else m as int)
    case None => None
  }

  /** `parseInt(s)` with no radix: skip leading whitespace, read an optional sign, then the digits. */
  function ParseInt(s: string): (r: Option<int>)
    ensures TrimStart(s) == [] ==> r.None?
    ensures TrimStart(s) != [] && !IsDigit(TrimStart(s)[0], 10) && TrimStart(s)[0] != '-' && TrimStart(s)[0] != '+' ==>
              r.None?
    ensures r.Some? && r.value < 0 ==> TrimStart(s) != [] && TrimStart(s)[0] == '-'
  {
    ParseSigned(TrimStart(s))
  }

  function DigitChar(d: nat): (c: char)
    requires d < 10
    ensures '0' <= c <= '9' && DigitValue(c) == d
  {
    "0123456789"[d]
  }

  /** Decimal rendering of a natural number, as a template literal prints it. */
  function NatToString(n: nat): (s: string)
    ensures s != []
    ensures forall k :: 0 <= k < |s| ==> '0' <= s[k] <= '9'
    ensures |s| > 1 ==> s[0] != '0'
  {
    if n < 10 then [DigitChar(n)] else NatToString(n / 10) + [DigitChar(n % 10)]
  }

  lemma {:induction false} DigitsValueOfNatToString(n: nat)
    ensures forall k :: 0 <= k < |NatToString(n)| ==> IsDigit(NatToString(n)[k], 10)
    ensures DigitsValue(NatToString(n), 10) == n
  {
    var s := NatToString(n);
    if n >= 10 {
      DigitsValueOfNatToString(n / 10);
      assert s[..|s| - 1] == NatToString(n / 10);
    }
  }

  lemma DigitPrefixOfDigits(s: string, radix: nat)
    requires forall k :: 0 <= k < |s| ==> IsDigit(s[k], radix)
    ensures DigitPrefix(s, radix) == s
  {
  }

  /** A non-empty run of decimal digits not starting with `0x` is read in base 10, whole. */
  lemma ParseMagnitudeOfDecimal(s: string)
    requires s != []
    requires forall k :: 0 <= k < |s| ==> IsDigit(s[k], 10)
    requires |s| > 1 ==> s[0] != '0'
    ensures ParseMagnitude(s) == Some(DigitsValue(s, 10))
  {
    DigitPrefixOfDigits(s, 10);
  }

  lemma DigitIsNotSpaceOrSign(c: char)
    requires IsDigit(c, 10)
    ensures !IsWhitespace(c) && c != '-' && c != '+'
  {
  }

  /** Without leading whitespace or a sign, `parseInt` is just the digits part. */
  lemma ParseIntUnsigned(s: string, m: nat)
    requires s != [] && !IsWhitespace(s[0]) && s[0] != '-' && s[0] != '+'
    requires ParseMagnitude(s) == Some(m)
    ensures ParseInt(s) == Some(m)
  {
    assert TrimStart(s) == s;
  }

  /** A non-empty run of decimal digits that does not start with `0x` parses as its decimal value. */
  lemma ParseIntOfDecimal(s: string)
    requires s != []
    requires forall k :: 0 <= k < |s| ==> IsDigit(s[k], 10)
    requires |s| > 1 ==> s[0] != '0'
    ensures ParseInt(s) == Some(DigitsValue(s, 10))
  {
    DigitIsNotSpaceOrSign(s[0]);
    ParseMagnitudeOfDecimal(s);
    ParseIntUnsigned(s, DigitsValue(s, 10));
  }

  /** `parseInt` reads back the decimal rendering of every natural number. */
  lemma ParseIntOfNatToString(n: nat)
    ensures ParseInt(NatToString(n)) == Some(n)
  {
    DigitsValueOfNatToString(n);
    ParseIntOfDecimal(NatToString(n));
  }

  /** Whitespace in front of `w + s` counts the whole of `w` first. */
  lemma {:induction false} LeadingWhitespaceAppend(w: string, s: string)
    requires forall k :: 0 <= k < |w| ==> IsWhitespace(w[k])
    ensures LeadingWhitespace(w + s) == |w| + LeadingWhitespace(s)
  {
    if w == [] {
      assert w + s == s;
    } else {
      assert (w + s)[0] == w[0] && (w + s)[1..] == w[1..] + s;
      LeadingWhitespaceAppend(w[1..], s);
    }
  }

  /** Leading whitespace does not change what `parseInt` reads. */
  lemma ParseIntSkipsWhitespace(w: string, s: string)
    requires forall k :: 0 <= k < |w| ==> IsWhitespace(w[k])
    ensures ParseInt(w + s) == ParseInt(s)
  {
    assert TrimStart(w + s) == TrimStart(s) by {
      LeadingWhitespaceAppend(w, s);
      assert (w + s)[|w| + LeadingWhitespace(s)..] == s[LeadingWhitespace(s)..];
    }
  }

  /** A minus sign in front of a number that `parseInt` reads negates it. */
  lemma ParseIntOfMinus(d: string, m: nat)
    requires d != [] && IsDigit(d[0], 10)
    requires ParseInt(d) == Some(m)
    ensures ParseInt("-" + d) == Some(-(m as int))
  {
    DigitIsNotSpaceOrSign(d[0]);
    assert TrimStart(d) == d;
    assert TrimStart("-" + d) == "-" + d;
    assert ("-" + d)[1..] == d;
  }
}
