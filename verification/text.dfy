/**
 * The JavaScript string and number built-ins the core relies on, as total
 * functions on `string` (a sequence of Unicode scalar values) and `int`:
 * `split`, `trim`, `startsWith`/`endsWith`, `padStart`, `toString` and
 * `parseInt`.
 */
module Text {
  import opened Wrappers

  // ---------------------------------------------------------------------
  // Whitespace: the `\s` class of regular expressions, which is also what
  // `trim()` and `parseInt` skip (white space and line terminators).
  // ---------------------------------------------------------------------

  predicate IsWhitespace(c: char) {
    || c == ' ' || c == '\t' || c == '\n' || c == '\r' || c == '\U{000B}' || c == '\U{000C}'
    || c == '\U{00A0}' || c == '\U{1680}' || ('\U{2000}' <= c <= '\U{200A}')
    || c == '\U{2028}' || c == '\U{2029}' || c == '\U{202F}' || c == '\U{205F}'
    || c == '\U{3000}' || c == '\U{FEFF}'
  }

  /** `s.trim().length == 0`: nothing but whitespace. */
  predicate IsBlank(s: string) {
    forall k | 0 <= k < |s| :: IsWhitespace(s[k])
  }

  /** Index of the first whitespace character of `s`, or `|s|` when there is none. */
  function FirstWhitespace(s: string): (i: nat)
    ensures i <= |s|
    ensures i < |s| ==> IsWhitespace(s[i])
    ensures forall k | 0 <= k < i :: !IsWhitespace(s[k])
  {
    if s == [] || IsWhitespace(s[0]) then 0 else 1 + FirstWhitespace(s[1..])
  }

  /** `s` without its leading run of whitespace (`trimStart`). */
  function TrimStart(s: string): (t: string)
    ensures |t| <= |s| && t == s[|s| - |t|..]
    ensures t == [] || !IsWhitespace(t[0])
    ensures s != [] && IsWhitespace(s[0]) ==> |t| < |s|
    ensures s != [] && !IsWhitespace(s[0]) ==> t == s
  {
    if s != [] && IsWhitespace(s[0]) then TrimStart(s[1..]) else s
  }

  /** `s.split(/\s+/)`: the pieces between maximal runs of whitespace. */
  function SplitWhitespace(s: string): (parts: seq<string>)
    ensures |parts| >= 1
    ensures parts[0] == s[..FirstWhitespace(s)]
    ensures |parts| >= 2 <==> FirstWhitespace(s) < |s|
    decreases |s|
  {
    var i := FirstWhitespace(s);
    if i == |s| then [s] else [s[..i]] + SplitWhitespace(TrimStart(s[i..]))
  }

  // ---------------------------------------------------------------------
  // Splitting on one character and joining back.
  // ---------------------------------------------------------------------

  /** Index of the first `c` in `s` (`indexOf`), or `|s|` when there is none. */
  function IndexOf(s: string, c: char): (i: nat)
    ensures i <= |s|
    ensures i < |s| ==> s[i] == c
    ensures forall k | 0 <= k < i :: s[k] != c
  {
    if s == [] || s[0] == c then 0 else 1 + IndexOf(s[1..], c)
  }

  /** `s.split(sep)` for a one-character separator: adjacent separators give empty pieces. */
  function Split(s: string, sep: char): (parts: seq<string>)
    ensures |parts| >= 1
    ensures parts[0] == s[..IndexOf(s, sep)]
    ensures forall k | 0 <= k < |parts| :: sep !in parts[k]
    decreases |s|
  {
    var i := IndexOf(s, sep);
    if i == |s| then [s] else [s[..i]] + Split(s[i + 1..], sep)
  }

  /** `parts.join(sep)`. */
  function Join(parts: seq<string>, sep: char): string {
    if parts == [] then ""
    else if |parts| == 1 then parts[0]
    else parts[0] + [sep] + Join(parts[1..], sep)
  }

  /** Splitting and joining with the same separator gives the string back. */
  lemma {:induction false} JoinSplit(s: string, sep: char)
    ensures Join(Split(s, sep), sep) == s
    decreases |s|
  {
    var i := IndexOf(s, sep);
    if i < |s| {
      var rest := Split(s[i + 1..], sep);
      SplitCons(s, sep);
      JoinCons(s[..i], rest, sep);
      JoinSplit(s[i + 1..], sep);
      assert s == s[..i] + [sep] + s[i + 1..];
    } else {
      assert Split(s, sep) == [s];
    }
  }

  lemma JoinCons(x: string, r: seq<string>, sep: char)
    requires r != []
    ensures Join([x] + r, sep) == x + [sep] + Join(r, sep)
  {
    assert ([x] + r)[0] == x && ([x] + r)[1..] == r;
  }

  /** There is more than one piece exactly when the separator occurs. */
  lemma SplitHasSeveralParts(s: string, sep: char)
    ensures |Split(s, sep)| > 1 <==> sep in s
  {
    var i := IndexOf(s, sep);
    if sep in s {
      var k :| 0 <= k < |s| && s[k] == sep;
      assert i <= k;
    }
  }

  /** The pieces after the first, joined back, are the text after the first separator. */
  lemma {:induction false} SplitRest(s: string, sep: char)
    requires sep in s
    ensures IndexOf(s, sep) < |s|
    ensures Join(Split(s, sep)[1..], sep) == s[IndexOf(s, sep) + 1..]
  {
    var i := IndexOf(s, sep);
    var k :| 0 <= k < |s| && s[k] == sep;
    assert i <= k;
    SplitCons(s, sep);
    assert Split(s, sep)[1..] == Split(s[i + 1..], sep);
    JoinSplit(s[i + 1..], sep);
  }

  /** With a separator present, the pieces are the text before it, then the pieces of the text after it. */
  lemma SplitCons(s: string, sep: char)
    requires IndexOf(s, sep) < |s|
    ensures Split(s, sep) == [s[..IndexOf(s, sep)]] + Split(s[IndexOf(s, sep) + 1..], sep)
  {
  }

  // ---------------------------------------------------------------------
  // Digits, `toString` and `parseInt`.
  // ---------------------------------------------------------------------

  predicate IsHexDigit(c: char) {
    '0' <= c <= '9' || 'a' <= c <= 'f' || 'A' <= c <= 'F'
  }

  function DigitValue(c: char): (d: nat)
    requires IsHexDigit(c)
    ensures d < 16
    ensures d < 10 <==> '0' <= c <= '9'
  {
    if '0' <= c <= '9' then c as int - '0' as int
    else if 'a' <= c <= 'f' then c as int - 'a' as int + 10
    else c as int - 'A' as int + 10
  }

  /** A digit of base `radix` (10 or 16). */
  predicate IsDigitIn(c: char, radix: nat) {
    IsHexDigit(c) && DigitValue(c) < radix
  }

  predicate AllDigitsIn(s: string, radix: nat) {
    forall k | 0 <= k < |s| :: IsDigitIn(s[k], radix)
  }

  /** The number that the digits `s` denote in base `radix`, most significant first. */
  function ValueIn(s: string, radix: nat): nat
    requires AllDigitsIn(s, radix)
  {
    if s == [] then 0 else radix * ValueIn(s[..|s| - 1], radix) + DigitValue(s[|s| - 1])
  }

  function DigitChar(d: nat): (c: char)
    requires d < 10
    ensures IsDigitIn(c, 10) && DigitValue(c) == d
  {
    ('0' as int + d) as char
  }

  /** `n.toString()` for a non-negative integer: its decimal digits, no leading zero. */
  function Decimal(n: nat): (s: string)
    ensures 1 <= |s|
    ensures AllDigitsIn(s, 10) && ValueIn(s, 10) == n
    ensures |s| > 1 ==> s[0] != '0'
  {
    if n < 10 then [DigitChar(n)]
    else
      var init := Decimal(n / 10);
      assert |init| == 1 ==> init[0] != '0' by {
        if |init| == 1 { assert ValueIn(init, 10) == DigitValue(init[0]); }
      }
      var s := init + [DigitChar(n % 10)];
      assert s[..|s| - 1] == init;
      s
  }

  /** `q.toString()` for any integer. */
  function IntToString(q: int): string {
    if q < 0 then "-" + Decimal(-q) else Decimal(q)
  }

  function Pow10(k: nat): (p: nat)
    ensures p >= 1
  {
    if k == 0 then 1 else 10 * Pow10(k - 1)
  }

  /** A number with k + 1 digits prints as k + 1 characters. */
  lemma {:induction false} DecimalLength(n: nat, k: nat)
    requires Pow10(k) <= n < Pow10(k + 1)
    ensures |Decimal(n)| == k + 1
  {
    if k > 0 {
      assert Pow10(k) == 10 * Pow10(k - 1);
      assert Pow10(k + 1) == 10 * Pow10(k);
      assert Pow10(k - 1) <= n / 10 < Pow10(k);
      DecimalLength(n / 10, k - 1);
    }
  }

  /** Leading zeros do not change the value of a digit string. */
  lemma {:induction false} LeadingZeros(z: nat, s: string, radix: nat)
    requires AllDigitsIn(s, radix) && 1 <= radix
    ensures AllDigitsIn(seq(z, _ => '0') + s, radix)
    ensures ValueIn(seq(z, _ => '0') + s, radix) == ValueIn(s, radix)
    decreases |s|
  {
    var t := seq(z, _ => '0') + s;
    assert forall k | 0 <= k < |t| :: IsDigitIn(t[k], radix) by {
      forall k | 0 <= k < |t| ensures IsDigitIn(t[k], radix) {
        if k >= z { assert t[k] == s[k - z]; }
      }
    }
    if s == [] {
      ZerosValue(z, radix);
      assert t == seq(z, _ => '0');
    } else {
      var s' := s[..|s| - 1];
      LeadingZeros(z, s', radix);
      assert t[..|t| - 1] == seq(z, _ => '0') + s';
    }
  }

  lemma {:induction false} ZerosValue(z: nat, radix: nat)
    requires 1 <= radix
    ensures AllDigitsIn(seq(z, _ => '0'), radix)
    ensures ValueIn(seq(z, _ => '0'), radix) == 0
  {
    if z > 0 {
      ZerosValue(z - 1, radix);
      assert seq(z, _ => '0')[..z - 1] == seq(z - 1, _ => '0');
    }
  }

  /** Length of the leading run of `radix` digits of `s`. */
  function DigitRun(s: string, radix: nat): (k: nat)
    ensures k <= |s|
    ensures AllDigitsIn(s[..k], radix)
    ensures k < |s| ==> !IsDigitIn(s[k], radix)
  {
    if s != [] && IsDigitIn(s[0], radix) then
      var k := 1 + DigitRun(s[1..], radix);
      assert forall j | 1 <= j < k :: s[..k][j] == s[1..][..k - 1][j - 1];
      k
    else 0
  }

  /** The value of the leading digits of `s`, or None when `s` does not start with one. */
  function LeadingValue(s: string, radix: nat): Option<nat> {
    var k := DigitRun(s, radix);
    if k == 0 then None else Some(ValueIn(s[..k], radix))
  }

  /**
   * `parseInt(s)` with no radix: leading whitespace is skipped, then an
   * optional sign, then a `0x`/`0X` prefix switches to base 16; the longest
   * run of digits that follows is read and the rest ignored. `None` is NaN.
   */
  function ParseInt(s: string): Option<int> {
    ParseSigned(TrimStart(s))
  }

  /** `parseInt` after the leading whitespace: an optional sign, then the magnitude. */
  function ParseSigned(t: string): Option<int> {
    if t != [] && (t[0] == '-' || t[0] == '+') then
      match ParseMagnitude(t[1..])
      case None => None
      case Some(m) => Some(if t[0] == '-' then -(m as int) else m)
    else
      match ParseMagnitude(t)
      case None => None
      case Some(m) => Some(m)
  }

  /** `parseInt` after the sign: hexadecimal behind `0x`/`0X`, decimal otherwise. */
  function ParseMagnitude(u: string): Option<nat> {
    if |u| >= 2 && u[0] == '0' && (u[1] == 'x' || u[1] == 'X') then LeadingValue(u[2..], 16)
    else LeadingValue(u, 10)
  }

  /** A plain run of decimal digits is read whole. */
  lemma ParseMagnitudeOfDigits(d: string)
    requires d != [] && AllDigitsIn(d, 10)
    ensures ParseMagnitude(d) == Some(ValueIn(d, 10))
  {
    DigitRunAll(d, 10);
    assert d[..|d|] == d;
    if |d| >= 2 { assert IsDigitIn(d[1], 10); }
  }

  /** A run of decimal digits is read whole. */
  lemma ParseIntOfDigits(d: string)
    requires d != [] && AllDigitsIn(d, 10)
    ensures ParseInt(d) == Some(ValueIn(d, 10))
  {
    assert ParseSigned(d) == Some(ValueIn(d, 10)) by {
      ParseMagnitudeOfDigits(d);
      assert IsDigitIn(d[0], 10);
    }
    assert TrimStart(d) == d by {
      assert IsDigitIn(d[0], 10);
      NotWhitespace(d);
    }
  }

  /** A leading minus sign negates the magnitude read after it. */
  lemma ParseIntMinus(u: string, m: nat)
    requires ParseMagnitude(u) == Some(m)
    ensures ParseInt(['-'] + u) == Some(-(m as int))
  {
    var s := ['-'] + u;
    assert s[1..] == u;
    NotWhitespace(s);
  }

  lemma NotWhitespace(s: string)
    requires s != [] && ('0' <= s[0] <= '9' || s[0] == '-')
    ensures TrimStart(s) == s
  {
    assert !IsWhitespace(s[0]);
  }

  /** `parseInt` reads back what `toString` prints. */
  lemma ParseIntOfToString(q: int)
    ensures ParseInt(IntToString(q)) == Some(q)
  {
    if q < 0 {
      ParseMagnitudeOfDigits(Decimal(-q));
      ParseIntMinus(Decimal(-q), -q);
    } else {
      ParseIntOfDigits(Decimal(q));
    }
  }

  lemma {:induction false} DigitRunAll(s: string, radix: nat)
    requires AllDigitsIn(s, radix)
    ensures DigitRun(s, radix) == |s|
  {
    if s != [] {
      DigitRunAll(s[1..], radix);
    }
  }

  /** `s.padStart(width, fill)` with a one-character fill. */
  function PadStart(s: string, width: nat, fill: char): (r: string)
    ensures |r| == if |s| >= width then |s| else width
    ensures r[|r| - |s|..] == s
    ensures forall k | 0 <= k < |r| - |s| :: r[k] == fill
  {
    if |s| >= width then s else seq(width - |s|, _ => fill) + s
  }

  /** JavaScript's `length`: UTF-16 code units, two for a character outside the Basic Multilingual Plane. */
  function Utf16Length(s: string): (n: nat)
    ensures |s| <= n <= 2 * |s|
    ensures (forall k | 0 <= k < |s| :: s[k] as int < 0x1_0000) ==> n == |s|
  {
    if s == [] then 0 else (if s[0] as int < 0x1_0000 then 1 else 2) + Utf16Length(s[1..])
  }

  /** Code units add up over a concatenation. */
  lemma {:induction false} Utf16LengthConcat(a: string, b: string)
    ensures Utf16Length(a + b) == Utf16Length(a) + Utf16Length(b)
  {
    if a == [] {
      assert a + b == b;
    } else {
      assert (a + b)[0] == a[0] && (a + b)[1..] == a[1..] + b;
      Utf16LengthConcat(a[1..], b);
    }
  }

  /** Appending one character adds one code unit, or two for a character outside the Basic Multilingual Plane. */
  lemma Utf16LengthAppend(s: string, c: char)
    ensures Utf16Length(s + [c]) == Utf16Length(s) + (if c as int < 0x1_0000 then 1 else 2)
  {
    Utf16LengthConcat(s, [c]);
  }

  /** JavaScript's `||` on a string that may be null: the value unless it is null or empty. */
  function Or(v: Option<string>, fallback: string): (r: string)
    ensures v.Some? && v.value != "" ==> r == v.value
    ensures v.None? || v.value == "" ==> r == fallback
  {
    if v.Some? && v.value != "" then v.value else fallback
  }

  predicate EndsWith(s: string, suffix: string) {
    |suffix| <= |s| && s[|s| - |suffix|..] == suffix
  }

  /** `toUpperCase()` on one character, for the ASCII letters. */
  function UpperAscii(c: char): (u: char)
    ensures 'a' <= c <= 'z' ==> u as int == c as int - 32
    ensures !('a' <= c <= 'z') ==> u == c
  {
    if 'a' <= c <= 'z' then (c as int - 32) as char else c
  }
}
