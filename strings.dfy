/**
 * The JavaScript string operations the scripts rely on (`includes`, `replace`
 * with a string pattern, `split` on one character, `trim`, `startsWith`,
 * `padStart`, `String(n)`, `parseInt` and `toUpperCase`), over Dafny strings.
 * A Dafny `char` is a Unicode scalar value.
 */
module Strings {
  import opened Wrappers

  // ---------------------------------------------------------------------------
  // Searching

  /** `pat` occurs in `s` starting at index `i`. */
  predicate OccursAt(s: string, pat: string, i: int) {
    0 <= i && i + |pat| <= |s| && s[i..i + |pat|] == pat
  }

  /** `s.indexOf(pat, from)`: the first occurrence at or after `from`, or -1. */
  function IndexFrom(s: string, pat: string, from: nat): (r: int)
    requires from <= |s| + 1
    ensures r == -1 || (from <= r && OccursAt(s, pat, r))
    ensures r == -1 ==> forall j :: from <= j <= |s| ==> !OccursAt(s, pat, j)
    ensures r != -1 ==> forall j :: from <= j < r ==> !OccursAt(s, pat, j)
    decreases |s| + 1 - from
  {
    if from + |pat| > |s| then -1
    else if s[from..from + |pat|] == pat then from
    else IndexFrom(s, pat, from + 1)
  }

  /** `s.indexOf(pat)`. */
  function IndexOf(s: string, pat: string): (r: int)
    ensures r == -1 || OccursAt(s, pat, r)
    ensures r == -1 <==> forall j :: 0 <= j <= |s| ==> !OccursAt(s, pat, j)
    ensures r != -1 ==> forall j :: 0 <= j < r ==> !OccursAt(s, pat, j)
  {
    IndexFrom(s, pat, 0)
  }

  /** `s.includes(pat)`: true exactly when `pat` occurs somewhere in `s`. */
  predicate Contains(s: string, pat: string): (b: bool)
    ensures b <==> exists i :: OccursAt(s, pat, i)
  {
    IndexOf(s, pat) != -1
  }

  lemma ContainsAt(s: string, pat: string, i: int)
    requires OccursAt(s, pat, i)
    ensures Contains(s, pat)
  {
  }

  lemma ContainsWitness(s: string, pat: string)
    requires Contains(s, pat)
    ensures OccursAt(s, pat, IndexOf(s, pat))
  {
  }

  /** `s.startsWith(p)`. */
  predicate StartsWith(s: string, p: string) {
    |p| <= |s| && s[..|p|] == p
  }

  /**
   * `s.replace(pat, rep)` with a string pattern: only the first occurrence is
   * replaced. (The `$`-patterns of the replacement string are not modelled:
   * every replacement in the model is made of digits and `-`.)
   */
  function ReplaceFirst(s: string, pat: string, rep: string): (r: string)
    ensures !Contains(s, pat) ==> r == s
    ensures Contains(s, pat) ==>
      var i := IndexOf(s, pat);
      0 <= i && i + |pat| <= |s| && r == s[..i] + rep + s[i + |pat|..]
  {
    var i := IndexOf(s, pat);
    if i == -1 then s else s[..i] + rep + s[i + |pat|..]
  }

  // ---------------------------------------------------------------------------
  // Splitting on one character

  /** Occurrences of `c` in `s`. */
  function Count(s: string, c: char): nat {
    if s == [] then 0 else (if s[0] == c then 1 else 0) + Count(s[1..], c)
  }

  /** `s.split(sep)` for a one-character separator; `"".split(",")` is `[""]`. */
  function Split(s: string, sep: char): (parts: seq<string>)
    ensures |parts| >= 1
  {
    if s == [] then [""]
    else
      var rest := Split(s[1..], sep);
      if s[0] == sep then [""] + rest
      else [[s[0]] + rest[0]] + rest[1..]
  }

  /** `parts.join(sep)`. */
  function Join(parts: seq<string>, sep: char): string
    requires |parts| >= 1
  {
    if |parts| == 1 then parts[0] else parts[0] + [sep] + Join(parts[1..], sep)
  }

  lemma {:induction false} SplitCount(s: string, sep: char)
    ensures |Split(s, sep)| == Count(s, sep) + 1
  {
    if s != [] {
      SplitCount(s[1..], sep);
    }
  }

  lemma {:induction false} SplitPiecesFree(s: string, sep: char)
    ensures forall k :: 0 <= k < |Split(s, sep)| ==> sep !in Split(s, sep)[k]
  {
    if s != [] {
      SplitPiecesFree(s[1..], sep);
      var rest := Split(s[1..], sep);
      if s[0] != sep {
        assert sep !in rest[0];
        forall k | 0 <= k < |Split(s, sep)| ensures sep !in Split(s, sep)[k] {
          if k == 0 {
            assert Split(s, sep)[0] == [s[0]] + rest[0];
          } else {
            assert Split(s, sep)[k] == rest[k];
          }
        }
      }
    }
  }

  lemma {:induction false} JoinConsHead(a: char, parts: seq<string>, sep: char)
    requires |parts| >= 1
    ensures Join([[a] + parts[0]] + parts[1..], sep) == [a] + Join(parts, sep)
  {
    var q := [[a] + parts[0]] + parts[1..];
    if |parts| > 1 {
      assert q[1..] == parts[1..];
    }
  }

  /** Splitting loses nothing: joining the pieces back gives the input. */
  lemma {:induction false} JoinSplit(s: string, sep: char)
    ensures Join(Split(s, sep), sep) == s
  {
    if s != [] {
      var rest := Split(s[1..], sep);
      JoinSplit(s[1..], sep);
      if s[0] == sep {
        assert ([""] + rest)[1..] == rest;
        assert s == [sep] + s[1..];
      } else {
        JoinConsHead(s[0], rest, sep);
        assert s == [s[0]] + s[1..];
      }
    }
  }

  // ---------------------------------------------------------------------------
  // Whitespace and trimming

  /** ECMAScript WhiteSpace and LineTerminator code points, which `trim` removes. */
  predicate IsJsWhitespace(c: char) {
    c == '\t' || c == '\n' || c == '\U{000B}' || c == '\U{000C}' || c == '\r' || c == ' '
    || c == '\U{00A0}' || c == '\U{1680}' || ('\U{2000}' <= c <= '\U{200A}')
    || c == '\U{2028}' || c == '\U{2029}' || c == '\U{202F}' || c == '\U{205F}'
    || c == '\U{3000}' || c == '\U{FEFF}'
  }

  /** The length of the whitespace run that starts `s`. */
  function LeadingSpace(s: string): (n: nat)
    ensures n <= |s|
    ensures forall k :: 0 <= k < n ==> IsJsWhitespace(s[k])
    ensures n < |s| ==> !IsJsWhitespace(s[n])
  {
    if s != [] && IsJsWhitespace(s[0]) then 1 + LeadingSpace(s[1..]) else 0
  }

  /** The length of the whitespace run that ends `s`. */
  function TrailingSpace(s: string): (n: nat)
    ensures n <= |s|
    ensures forall k :: |s| - n <= k < |s| ==> IsJsWhitespace(s[k])
    ensures n < |s| ==> !IsJsWhitespace(s[|s| - n - 1])
  {
    if s != [] && IsJsWhitespace(s[|s| - 1]) then 1 + TrailingSpace(s[..|s| - 1]) else 0
  }

  /** `s.trimStart()`. */
  function TrimStart(s: string): string {
    s[LeadingSpace(s)..]
  }

  /**
   * `s.trim()`: the piece `s[i..j]` left after the leading and the trailing
   * whitespace runs; all that was cut is whitespace and, unless nothing is
   * left, the piece has whitespace at neither end.
   */
  function Trim(s: string): (r: string)
    ensures exists i, j ::
              (&& 0 <= i <= j <= |s| && r == s[i..j]
               && (forall k :: 0 <= k < i ==> IsJsWhitespace(s[k]))
               && (forall k :: j <= k < |s| ==> IsJsWhitespace(s[k]))
               && (i < j ==> !IsJsWhitespace(s[i]) && !IsJsWhitespace(s[j - 1])))
  {
    var i := LeadingSpace(s);
    var j := |s| - TrailingSpace(s[i..]);
    assert forall k :: j <= k < |s| ==> s[k] == s[i..][k - i];
    s[i..j]
  }

  /** What `trim` leaves has whitespace at neither end. */
  lemma TrimEnds(s: string)
    ensures var r := Trim(s); r != [] ==> !IsJsWhitespace(r[0]) && !IsJsWhitespace(r[|r| - 1])
  {
    var r := Trim(s);
    var i, j :| && 0 <= i <= j <= |s| && r == s[i..j]
                && (i < j ==> !IsJsWhitespace(s[i]) && !IsJsWhitespace(s[j - 1]));
    if r != [] {
      assert r[0] == s[i] && r[|r| - 1] == s[j - 1];
    }
  }

  /** `s.length`: JavaScript counts UTF-16 code units, two for a character beyond U+FFFF. */
  function Utf16Length(s: string): (n: nat)
    ensures |s| <= n <= 2 * |s|
    ensures (forall k :: 0 <= k < |s| ==> s[k] < '\U{10000}') ==> n == |s|
  {
    if s == [] then 0 else (if s[0] < '\U{10000}' then 1 else 2) + Utf16Length(s[1..])
  }

  // ---------------------------------------------------------------------------
  // Padding

  /** `s.padStart(width, pad)` with a one-character pad string. */
  function PadStart(s: string, width: nat, pad: char): (r: string)
    ensures |r| == if |s| >= width then |s| else width
    ensures r[|r| - |s|..] == s
    ensures forall k :: 0 <= k < |r| - |s| ==> r[k] == pad
  {
    if |s| >= width then s else seq(width - |s|, _ => pad) + s
  }

  // ---------------------------------------------------------------------------
  // Decimal text of integers and parseInt

  predicate IsDecimalDigit(c: char) { '0' <= c <= '9' }

  function DigitChar(d: nat): (c: char)
    requires d < 10
    ensures IsDecimalDigit(c) && c as int - '0' as int == d
  {
    ('0' as int + d) as char
  }

  /** The value of `c` as a digit in base `radix` (2..36), or `radix` when it is not one. */
  function DigitValue(c: char, radix: nat): (v: nat)
    requires 2 <= radix <= 36
    ensures v <= radix
  {
    var d :=
      if '0' <= c <= '9' then c as int - '0' as int
      else if 'a' <= c <= 'z' then c as int - 'a' as int + 10
      else if 'A' <= c <= 'Z' then c as int - 'A' as int + 10
      else radix;
    if d < radix then d else radix
  }

  predicate IsRadixDigit(c: char, radix: nat)
    requires 2 <= radix <= 36
  {
    DigitValue(c, radix) < radix
  }

  /** The number whose base-`radix` digits are `s`, most significant first. */
  function RadixValue(s: string, radix: nat): int
    requires 2 <= radix <= 36
    requires forall k :: 0 <= k < |s| ==> IsRadixDigit(s[k], radix)
  {
    if s == [] then 0 else RadixValue(s[..|s| - 1], radix) * radix + DigitValue(s[|s| - 1], radix)
  }

  /** The longest prefix of `s` made of base-`radix` digits. */
  function DigitPrefix(s: string, radix: nat): (r: string)
    requires 2 <= radix <= 36
    ensures |r| <= |s| && r == s[..|r|]
    ensures forall k :: 0 <= k < |r| ==> IsRadixDigit(r[k], radix)
    ensures |r| < |s| ==> !IsRadixDigit(s[|r|], radix)
  {
    if s != [] && IsRadixDigit(s[0], radix) then [s[0]] + DigitPrefix(s[1..], radix) else []
  }

  /** `String(n)` for a natural number: decimal digits, no leading zero. */
  function NatToString(n: nat): (s: string)
    ensures |s| >= 1
    ensures forall k :: 0 <= k < |s| ==> IsDecimalDigit(s[k])
    ensures s[0] == '0' ==> s == "0"
  {
    if n < 10 then [DigitChar(n)] else NatToString(n / 10) + [DigitChar(n % 10)]
  }

  /** `String(i)` for an integer: a `-` before the digits of a negative one. */
  function IntToString(i: int): (s: string)
    ensures |s| >= 1 && (i < 0 <==> s[0] == '-')
  {
    if i < 0 then "-" + NatToString(-i) else NatToString(i)
  }

  lemma {:induction false} DecimalDigitsAreRadixDigits(s: string)
    requires forall k :: 0 <= k < |s| ==> IsDecimalDigit(s[k])
    ensures forall k :: 0 <= k < |s| ==> IsRadixDigit(s[k], 10) && DigitValue(s[k], 10) == s[k] as int - '0' as int
  {
  }

  /** Reading back the decimal text of `n` gives `n`. */
  lemma {:induction false} NatToStringValue(n: nat)
    ensures forall k :: 0 <= k < |NatToString(n)| ==> IsRadixDigit(NatToString(n)[k], 10)
    ensures RadixValue(NatToString(n), 10) == n
  {
    var s := NatToString(n);
    DecimalDigitsAreRadixDigits(s);
    if n >= 10 {
      NatToStringValue(n / 10);
      assert s[..|s| - 1] == NatToString(n / 10);
    }
  }

  /**
   * `parseInt(s)` without a radix: leading whitespace is skipped, then an
   * optional sign, then a `0x`/`0X` prefix selects base 16; the longest run of
   * digits that follows is read. `None` stands for `NaN` (no digits at all).
   */
  function ParseInt(s: string): Option<int>
  {
    ParseSigned(TrimStart(s))
  }

  /** `parseInt` once the leading whitespace is gone: an optional sign, then the magnitude. */
  function ParseSigned(t: string): Option<int>
  {
    if |t| > 0 && t[0] == '-' then
      match ParseMagnitude(t[1..])
      case None => None
      case Some(v) => Some(-v)
    else if |t| > 0 && t[0] == '+' then ParseMagnitude(t[1..])
    else ParseMagnitude(t)
  }

  /** The magnitude after the sign: hexadecimal after `0x`/`0X`, decimal otherwise. */
  function ParseMagnitude(u: string): Option<int>
  {
    var hex := |u| >= 2 && u[0] == '0' && (u[1] == 'x' || u[1] == 'X');
    var radix := if hex then 16 else 10;
    var digits := DigitPrefix(if hex then u[2..] else u, radix);
    if digits == [] then None else Some(RadixValue(digits, radix))
  }

  lemma {:induction false} DigitPrefixWhole(s: string)
    requires forall k :: 0 <= k < |s| ==> IsDecimalDigit(s[k])
    ensures DigitPrefix(s, 10) == s
  {
    if s != [] {
      DigitPrefixWhole(s[1..]);
    }
  }

  /** The decimal text of `n` is read back as `n`. */
  lemma ParseMagnitudeNat(n: nat)
    ensures ParseMagnitude(NatToString(n)) == Some(n)
  {
    var d := NatToString(n);
    NatToStringValue(n);
    DigitPrefixWhole(d);
    assert !(|d| >= 2 && d[0] == '0');
  }

  /** Text that starts with a sign or a digit loses nothing to `trimStart`. */
  lemma TrimStartNoSpace(s: string)
    requires |s| > 0 && !IsJsWhitespace(s[0])
    ensures TrimStart(s) == s
  {
    assert LeadingSpace(s) == 0;
  }

  /** `parseInt(String(i)) === i`: the decimal text and parseInt are inverse. */
  lemma ParseIntToString(i: int)
    ensures ParseInt(IntToString(i)) == Some(i)
  {
    var s := IntToString(i);
    if i < 0 {
      var d := NatToString(-i);
      assert s == "-" + d;
      TrimStartNoSpace(s);
      assert s[1..] == d;
      ParseMagnitudeNat(-i);
      assert ParseSigned(s) == Some(i);
    } else {
      var d := NatToString(i);
      assert s == d;
      assert IsDecimalDigit(d[0]);
      TrimStartNoSpace(s);
      ParseMagnitudeNat(i);
      assert ParseSigned(s) == ParseMagnitude(d);
    }
  }

  // ---------------------------------------------------------------------------
  // Upper case

  /**
   * The upper case of one character as `toUpperCase` gives it, for every
   * character whose upper case is made of ASCII letters only: `a`-`z`, dotless
   * i, long s, sharp s and the Latin ligatures U+FB00-U+FB06. Every other
   * character is kept as it is; its true upper case is never pure ASCII, so
   * comparing the result with an ASCII word decides the same way.
   */
  function UpperOf(c: char): (u: string)
    ensures 'a' <= c <= 'z' ==> u == [(c as int - 32) as char]
    ensures !('a' <= c <= 'z') && c < '\U{0080}' ==> u == [c]
  {
    if 'a' <= c <= 'z' then [(c as int - 32) as char]
    else if c == '\U{00DF}' then "SS"
    else if c == '\U{0131}' then "I"
    else if c == '\U{017F}' then "S"
    else if c == '\U{FB00}' then "FF"
    else if c == '\U{FB01}' then "FI"
    else if c == '\U{FB02}' then "FL"
    else if c == '\U{FB03}' then "FFI"
    else if c == '\U{FB04}' then "FFL"
    else if c == '\U{FB05}' || c == '\U{FB06}' then "ST"
    else [c]
  }

  /**
   * `s.toUpperCase()`. It never shortens the text, and on ASCII text it maps
   * each character on its own: a letter to its capital, anything else to
   * itself.
   */
  function ToUpperCase(s: string): (r: string)
    ensures |r| >= |s|
    ensures (forall k :: 0 <= k < |s| ==> s[k] < '\U{0080}') ==>
      |r| == |s| && forall k :: 0 <= k < |s| ==> r[k] == if 'a' <= s[k] <= 'z' then (s[k] as int - 32) as char else s[k]
  {
    if s == [] then [] else UpperOf(s[0]) + ToUpperCase(s[1..])
  }

  predicate IsAsciiUpper(c: char) { 'A' <= c <= 'Z' }

  /** `s` spells the upper-case word `w` with each letter in either case. */
  predicate CaseVariant(s: string, w: string) {
    |s| == |w| && forall k :: 0 <= k < |s| ==> s[k] == w[k] || s[k] as int == w[k] as int + 32
  }

  /** Any letter-case spelling of an upper-case ASCII word upper-cases to that word. */
  lemma {:induction false} ToUpperCaseVariant(s: string, w: string)
    requires forall k :: 0 <= k < |w| ==> IsAsciiUpper(w[k])
    requires CaseVariant(s, w)
    ensures ToUpperCase(s) == w
  {
    if s != [] {
      ToUpperCaseVariant(s[1..], w[1..]);
      assert UpperOf(s[0]) == [w[0]];
      assert w == [w[0]] + w[1..];
    }
  }
}
