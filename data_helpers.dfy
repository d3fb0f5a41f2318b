/**
 * `formatDate` (tests/support/helpers/data.helpers.ts): the tokens `YYYY`,
 * `MM` and `DD` of a format are replaced, each at its first occurrence only,
 * by the year, the two-digit month and the two-digit day. The date is given
 * by its calendar fields (the clock reading of the default `new Date()` is
 * not modelled).
 */
module DataHelpers {
  import opened Strings

  /** The fields `getFullYear()`, `getMonth()` (0-based) and `getDate()` of a date. */
  datatype Date = Date(year: int, monthIndex: int, day: int)

  /** The ranges a `Date` gives its fields. */
  predicate ValidDate(d: Date) {
    0 <= d.monthIndex <= 11 && 1 <= d.day <= 31
  }

  /** `YYYY-MM-DD`, written as its tokens and separators. */
  const DefaultFormat: string := "YYYY" + "-" + "MM" + "-" + "DD"

  /** `String(v).padStart(2, '0')`. */
  function TwoDigits(v: int): string {
    PadStart(IntToString(v), 2, '0')
  }

  /** `formatDate(date, format)`: the three chained `replace` calls. */
  function FormatDate(d: Date, format: string): string {
    var year := IntToString(d.year);
    var month := TwoDigits(d.monthIndex + 1);
    var day := TwoDigits(d.day);
    ReplaceFirst(ReplaceFirst(ReplaceFirst(format, "YYYY", year), "MM", month), "DD", day)
  }

  /** A value from 1 to 99 is written as exactly two decimal digits: its tens, then its units. */
  lemma TwoDigitsValue(v: int)
    requires 1 <= v <= 99
    ensures TwoDigits(v) == [DigitChar(v / 10), DigitChar(v % 10)]
  {
    if v < 10 {
      assert IntToString(v) == [DigitChar(v)];
      assert DigitChar(0) == '0';
    } else {
      assert NatToString(v / 10) == [DigitChar(v / 10)];
    }
  }

  /** Replacing a pattern that follows a prefix lacking its first character replaces that occurrence. */
  lemma ReplaceAfter(p: string, pat: string, rest: string, rep: string)
    requires pat != [] && pat[0] !in p
    ensures ReplaceFirst(p + pat + rest, pat, rep) == p + rep + rest
  {
    var s := p + pat + rest;
    assert s[|p|..|p| + |pat|] == pat;
    assert OccursAt(s, pat, |p|);
    forall j | 0 <= j < |p|
      ensures !OccursAt(s, pat, j)
    {
      assert s[j] == p[j] != pat[0];
      if j + |pat| <= |s| {
        assert s[j..j + |pat|][0] == s[j];
      }
    }
    assert s[..|p|] == p;
    assert s[|p| + |pat|..] == rest;
  }

  /** The text of an integer is digits after an optional minus sign: it holds no letter of a token. */
  lemma IntTextLetters(i: int)
    ensures 'Y' !in IntToString(i) && 'M' !in IntToString(i) && 'D' !in IntToString(i)
  {
    var n := NatToString(if i < 0 then -i else i);
    assert forall k :: 0 <= k < |n| ==> IsDecimalDigit(n[k]);
  }

  lemma TwoDigitsLetters(v: int)
    ensures 'M' !in TwoDigits(v) && 'D' !in TwoDigits(v)
  {
    IntTextLetters(v);
    var s := IntToString(v);
    var r := TwoDigits(v);
    forall k | 0 <= k < |r|
      ensures r[k] != 'M' && r[k] != 'D'
    {
      if k >= |r| - |s| {
        assert r[k] == r[|r| - |s|..][k - (|r| - |s|)];
      }
    }
  }

  /** A separator between tokens: it holds no letter of any token. */
  predicate Separator(sep: string) {
    'Y' !in sep && 'M' !in sep && 'D' !in sep
  }

  /** A string lacking the first character of a pattern does not contain it. */
  lemma LacksFirst(s: string, pat: string)
    requires pat != [] && pat[0] !in s
    ensures !Contains(s, pat)
  {
    forall j | 0 <= j <= |s|
      ensures !OccursAt(s, pat, j)
    {
      if j + |pat| <= |s| {
        assert s[j] in s;
        assert s[j..j + |pat|][0] == s[j];
      }
    }
  }

  /** Replacing a token that starts the text. */
  lemma ReplaceFront(x: string, t: string, a: string, b: string, c: string, e: string, v: string)
    requires t != [] && x == t + a + b + c + e
    ensures ReplaceFirst(x, t, v) == v + a + b + c + e
  {
    assert x == [] + t + (a + b + c + e);
    ReplaceAfter([], t, a + b + c + e, v);
  }

  /** Replacing a token that follows two pieces lacking its first character. */
  lemma ReplaceThird(x: string, a: string, b: string, t: string, c: string, e: string, v: string)
    requires t != [] && t[0] !in a + b && x == a + b + t + c + e
    ensures ReplaceFirst(x, t, v) == a + b + v + c + e
  {
    assert x == (a + b) + t + (c + e);
    ReplaceAfter(a + b, t, c + e, v);
  }

  /** Replacing a token that ends the text. */
  lemma ReplaceLast(x: string, a: string, b: string, c: string, e: string, t: string, v: string)
    requires t != [] && t[0] !in a + b + c + e && x == a + b + c + e + t
    ensures ReplaceFirst(x, t, v) == a + b + c + e + v
  {
    assert x == (a + b + c + e) + t + [];
    ReplaceAfter(a + b + c + e, t, [], v);
  }

  /** Year, month and day tokens in that order, each replaced in turn. */
  lemma FillThree(t1: string, t2: string, t3: string, s1: string, s2: string, v1: string, v2: string, v3: string)
    requires t1 != [] && t2 != [] && t3 != []
    requires t2[0] !in v1 + s1 && t3[0] !in v1 + s1 + v2 + s2
    ensures ReplaceFirst(ReplaceFirst(ReplaceFirst(t1 + s1 + t2 + s2 + t3, t1, v1), t2, v2), t3, v3)
         == v1 + s1 + v2 + s2 + v3
  {
    var x1 := ReplaceFirst(t1 + s1 + t2 + s2 + t3, t1, v1);
    ReplaceFront(t1 + s1 + t2 + s2 + t3, t1, s1, t2, s2, t3, v1);
    var x2 := ReplaceFirst(x1, t2, v2);
    ReplaceThird(x1, v1, s1, t2, s2, t3, v2);
    ReplaceLast(x2, v1, s1, v2, s2, t3, v3);
  }

  /** The same three tokens, the last one first in the text. */
  lemma FillReversed(t1: string, t2: string, t3: string, s1: string, s2: string, v1: string, v2: string, v3: string)
    requires t1 != [] && t2 != [] && t3 != []
    requires t1[0] !in t3 + s1 + t2 + s2 && t2[0] !in t3 + s1
    ensures ReplaceFirst(ReplaceFirst(ReplaceFirst(t3 + s1 + t2 + s2 + t1, t1, v1), t2, v2), t3, v3)
         == v3 + s1 + v2 + s2 + v1
  {
    var x1 := ReplaceFirst(t3 + s1 + t2 + s2 + t1, t1, v1);
    ReplaceLast(t3 + s1 + t2 + s2 + t1, t3, s1, t2, s2, t1, v1);
    var x2 := ReplaceFirst(x1, t2, v2);
    ReplaceThird(x1, t3, s1, t2, s2, v1, v2);
    ReplaceFront(x2, t3, s1, v2, s2, v1, v3);
  }

  /**
   * Year first: the year unpadded, then the month (0-based month plus one)
   * and the day, each padded to two digits, with the separators kept.
   */
  lemma YearFirstFormat(d: Date, sep1: string, sep2: string)
    requires Separator(sep1) && Separator(sep2)
    ensures FormatDate(d, "YYYY" + sep1 + "MM" + sep2 + "DD")
         == IntToString(d.year) + sep1 + TwoDigits(d.monthIndex + 1) + sep2 + TwoDigits(d.day)
  {
    IntTextLetters(d.year);
    TwoDigitsLetters(d.monthIndex + 1);
    FillThree("YYYY", "MM", "DD", sep1, sep2, IntToString(d.year), TwoDigits(d.monthIndex + 1), TwoDigits(d.day));
  }

  /**
   * The default format gives the year unpadded, a dash, the month (0-based
   * month plus one) as two digits, a dash and the day as two digits.
   */
  lemma DefaultFormatShape(d: Date)
    requires ValidDate(d)
    ensures FormatDate(d, DefaultFormat)
         == IntToString(d.year) + "-" + [DigitChar((d.monthIndex + 1) / 10), DigitChar((d.monthIndex + 1) % 10)]
            + "-" + [DigitChar(d.day / 10), DigitChar(d.day % 10)]
  {
    YearFirstFormat(d, "-", "-");
    TwoDigitsValue(d.monthIndex + 1);
    TwoDigitsValue(d.day);
  }

  /** Day first: the same three values land where their tokens are, whatever the order of the tokens. */
  lemma DayFirstFormat(d: Date, sep1: string, sep2: string)
    requires Separator(sep1) && Separator(sep2)
    ensures FormatDate(d, "DD" + sep1 + "MM" + sep2 + "YYYY")
         == TwoDigits(d.day) + sep1 + TwoDigits(d.monthIndex + 1) + sep2 + IntToString(d.year)
  {
    FillReversed("YYYY", "MM", "DD", sep1, sep2, IntToString(d.year), TwoDigits(d.monthIndex + 1), TwoDigits(d.day));
  }

  /** A token twice with no other token around it: the first copy is replaced, the second kept. */
  lemma FillTwice(t1: string, t2: string, t3: string, sep: string, v1: string, v2: string, v3: string)
    requires t1 != [] && t2 != [] && t3 != []
    requires t1[0] !in t3 + sep + t3 && t2[0] !in t3 + sep + t3
    ensures ReplaceFirst(ReplaceFirst(ReplaceFirst(t3 + sep + t3, t1, v1), t2, v2), t3, v3) == v3 + sep + t3
  {
    var x := t3 + sep + t3;
    LacksFirst(x, t1);
    LacksFirst(x, t2);
    assert x == [] + t3 + (sep + t3);
    ReplaceAfter([], t3, sep + t3, v3);
  }

  /** Only the first occurrence of a token is replaced: `DD/DD` keeps its second `DD`. */
  lemma FirstOccurrenceOnly(d: Date, sep: string)
    requires Separator(sep)
    ensures FormatDate(d, "DD" + sep + "DD") == TwoDigits(d.day) + sep + "DD"
  {
    FillTwice("YYYY", "MM", "DD", sep, IntToString(d.year), TwoDigits(d.monthIndex + 1), TwoDigits(d.day));
  }

  /** A format holding no token comes back unchanged. */
  lemma NoTokensUnchanged(d: Date, format: string)
    requires !Contains(format, "YYYY") && !Contains(format, "MM") && !Contains(format, "DD")
    ensures FormatDate(d, format) == format
  {
  }
}
