/**
 * `formatUnitsTruncate` of the KucoCoin frontend
 * (packages/frontend/src/ts/utils.ts): shortens the decimal string that
 * `formatUnits` produced to at most `showDecimals` fractional digits, and
 * drops the fraction altogether when what is left of it reads as zero.
 *
 * The formatted string is an input here; `formatUnits` itself is not part
 * of this model.
 */
module FormatUnits {

  /** The position of the first `c` in `s`, or `|s|` when there is none. */
  function IndexOf(s: string, c: char): (i: nat)
    ensures i <= |s|
    ensures forall j :: 0 <= j < i ==> s[j] != c
    ensures i < |s| <==> c in s
    ensures i < |s| ==> s[i] == c
  {
    if s == [] then 0
    else if s[0] == c then 0
    else 1 + IndexOf(s[1..], c)
  }

  /** `,` when the string holds one anywhere, `.` otherwise. */
  function Separator(formatted: string): (sep: char)
    ensures sep == ',' <==> ',' in formatted
    ensures sep == ',' || sep == '.'
  {
    if ',' in formatted then ',' else '.'
  }

  /** The first piece of `formatted.split(sep)`: everything before the first separator. */
  function Whole(formatted: string, sep: char): string
  {
    formatted[..IndexOf(formatted, sep)]
  }

  /** The second piece of `formatted.split(sep)`: from after the first separator up to the next one. */
  function Fraction(formatted: string, sep: char): string
    requires sep in formatted
  {
    var rest := formatted[IndexOf(formatted, sep) + 1..];
    rest[..IndexOf(rest, sep)]
  }

  /**
   * Where `s.slice(0, end)` stops in a string of length `len`: a negative
   * `end` counts back from the end, and the result is clamped to `[0, len]`.
   */
  function SliceEnd(len: nat, end: int): (k: nat)
    ensures k <= len
  {
    if end < 0 then (if len + end < 0 then 0 else len + end)
    else if end <= len then end
    else len
  }

  /**
   * `s.slice(0, end)` of JavaScript: the first `end` characters, all of `s`
   * when `end` is past its end, and `s` less its last `-end` characters
   * (nothing, if there are fewer) when `end` is negative.
   */
  function SlicePrefix(s: string, end: int): (p: string)
    ensures p <= s
    ensures 0 <= end <= |s| ==> p == s[..end]
    ensures |s| <= end ==> p == s
    ensures end < 0 && |s| + end < 0 ==> p == []
    ensures end < 0 && 0 <= |s| + end ==> p == s[..|s| + end]
  {
    s[..SliceEnd(|s|, end)]
  }

  /**
   * `Number(digits) == 0` for a string of decimal digits: it is empty or
   * every digit is a zero.
   */
  predicate ReadsAsZero(digits: string)
  {
    forall i :: 0 <= i < |digits| ==> digits[i] == '0'
  }

  /** `formatUnitsTruncate` applied to the output of `formatUnits`. */
  function FormatUnitsTruncate(formatted: string, showDecimals: int): string
  {
    var sep := Separator(formatted);
    if sep !in formatted then formatted
    else
      var whole := Whole(formatted, sep);
      var truncated := SlicePrefix(Fraction(formatted, sep), showDecimals);
      if ReadsAsZero(truncated) then whole
      else whole + [sep] + truncated
  }

  /** A string without a separator comes back unchanged. */
  lemma NoSeparatorUnchanged(formatted: string, showDecimals: int)
    requires ',' !in formatted && '.' !in formatted
    ensures FormatUnitsTruncate(formatted, showDecimals) == formatted
  {
    assert Separator(formatted) == '.';
  }

  /** A prefix that stops before the first `c` holds no `c`. */
  lemma PrefixBeforeIndex(s: string, c: char)
    ensures c !in s[..IndexOf(s, c)]
  {
    var k := IndexOf(s, c);
    assert forall j :: 0 <= j < k ==> s[..k][j] == s[j];
  }

  /** Facts about where the two pieces of the split sit in the string. */
  lemma SplitShape(formatted: string, sep: char)
    requires sep in formatted
    ensures formatted == Whole(formatted, sep) + [sep] + formatted[IndexOf(formatted, sep) + 1..]
    ensures sep !in Whole(formatted, sep) && sep !in Fraction(formatted, sep)
    ensures Fraction(formatted, sep) <= formatted[IndexOf(formatted, sep) + 1..]
  {
    var i := IndexOf(formatted, sep);
    assert formatted == formatted[..i] + [formatted[i]] + formatted[i + 1..];
    PrefixBeforeIndex(formatted, sep);
    PrefixBeforeIndex(formatted[i + 1..], sep);
  }

  /**
   * The result is always a prefix of the formatted string: either the
   * whole part alone, or the whole part, the separator, and at most
   * `showDecimals` leading digits of the fraction.
   */
  lemma ResultIsPrefix(formatted: string, showDecimals: int)
    ensures FormatUnitsTruncate(formatted, showDecimals) <= formatted
  {
    var sep := Separator(formatted);
    if sep in formatted {
      SplitShape(formatted, sep);
      var i := IndexOf(formatted, sep);
      var whole := Whole(formatted, sep);
      var truncated := SlicePrefix(Fraction(formatted, sep), showDecimals);
      var rest := formatted[i + 1..];
      assert truncated <= rest;
      assert whole + [sep] + truncated <= whole + [sep] + rest;
    }
  }

  /**
   * With a separator present, the fraction kept has at most `showDecimals`
   * digits (none for a non-positive count), and it is dropped with the
   * separator exactly when it reads as zero.
   */
  lemma FractionTruncated(formatted: string, showDecimals: int)
    requires ',' in formatted || '.' in formatted
    ensures var sep := Separator(formatted);
      var truncated := SlicePrefix(Fraction(formatted, sep), showDecimals);
      && truncated <= Fraction(formatted, sep)
      && |truncated| <= (if showDecimals < 0 then |Fraction(formatted, sep)| else showDecimals)
      && (FormatUnitsTruncate(formatted, showDecimals) == Whole(formatted, sep) <==> ReadsAsZero(truncated))
      && (!ReadsAsZero(truncated) ==> FormatUnitsTruncate(formatted, showDecimals) == Whole(formatted, sep) + [sep] + truncated)
  {
    var sep := Separator(formatted);
    assert sep in formatted;
  }

  /** The first separator of `whole + [sep] + rest` is the one after `whole` when `whole` has none. */
  lemma IndexOfJoined(whole: string, sep: char, rest: string)
    requires sep !in whole
    ensures IndexOf(whole + [sep] + rest, sep) == |whole|
    ensures (whole + [sep] + rest)[..|whole|] == whole && (whole + [sep] + rest)[|whole| + 1..] == rest
  {
    var s := whole + [sep] + rest;
    assert s[|whole|] == sep;
    assert forall j :: 0 <= j < |whole| ==> s[j] == whole[j];
  }

  /** What the truncation keeps of the fraction holds no separator. */
  lemma TruncatedHasNoSeparator(formatted: string, sep: char, showDecimals: int)
    requires sep in formatted
    ensures sep !in SlicePrefix(Fraction(formatted, sep), showDecimals)
  {
    SplitShape(formatted, sep);
    var fraction := Fraction(formatted, sep);
    var truncated := SlicePrefix(fraction, showDecimals);
    assert forall j :: 0 <= j < |truncated| ==> truncated[j] == fraction[j];
  }

  /** The pieces of `whole + [sep] + fraction` when neither part holds the separator. */
  lemma SplitJoined(whole: string, sep: char, fraction: string)
    requires sep !in whole && sep !in fraction
    ensures sep in whole + [sep] + fraction
    ensures Whole(whole + [sep] + fraction, sep) == whole
    ensures Fraction(whole + [sep] + fraction, sep) == fraction
  {
    IndexOfJoined(whole, sep, fraction);
    assert fraction[..|fraction|] == fraction;
  }

  /**
   * Truncating `whole`, a separator and `fraction`, when the separator is the
   * one `formatUnitsTruncate` picks and neither part holds it.
   */
  lemma TruncateJoined(whole: string, sep: char, fraction: string, showDecimals: int)
    requires sep !in whole && sep !in fraction
    requires sep == ',' || (sep == '.' && ',' !in whole && ',' !in fraction)
    ensures var truncated := SlicePrefix(fraction, showDecimals);
      FormatUnitsTruncate(whole + [sep] + fraction, showDecimals)
        == if ReadsAsZero(truncated) then whole else whole + [sep] + truncated
  {
    var s := whole + [sep] + fraction;
    SplitJoined(whole, sep, fraction);
    if sep == '.' {
      assert ',' !in s by {
        assert forall j :: 0 <= j < |s| ==> s[j] == if j < |whole| then whole[j] else if j == |whole| then sep else fraction[j - |whole| - 1];
      }
    }
  }

  /** A character missing from a string is missing from each of its prefixes. */
  lemma PrefixLacks(p: string, s: string, c: char)
    requires p <= s && c !in s
    ensures c !in p
  {
    assert forall j :: 0 <= j < |p| ==> p[j] == s[j];
  }

  /** Truncating a string with a single kind of separator a second time changes nothing. */
  lemma TruncateIdempotent(formatted: string, showDecimals: nat)
    requires ',' !in formatted || '.' !in formatted
    ensures FormatUnitsTruncate(FormatUnitsTruncate(formatted, showDecimals), showDecimals)
            == FormatUnitsTruncate(formatted, showDecimals)
  {
    var sep := Separator(formatted);
    if sep !in formatted {
      return;
    }
    var r := FormatUnitsTruncate(formatted, showDecimals);
    var other := if sep == ',' then '.' else ',';
    assert other !in formatted;
    ResultIsPrefix(formatted, showDecimals);
    PrefixLacks(r, formatted, other);
    SplitShape(formatted, sep);
    var whole := Whole(formatted, sep);
    var truncated := SlicePrefix(Fraction(formatted, sep), showDecimals);
    if ReadsAsZero(truncated) {
      NoSeparatorUnchanged(r, showDecimals);
    } else {
      TruncatedHasNoSeparator(formatted, sep, showDecimals);
      TruncateJoined(whole, sep, truncated, showDecimals);
      assert SlicePrefix(truncated, showDecimals) == truncated;
    }
  }

  /** The literal pieces of the examples below, joined. */
  lemma ExampleTexts()
    ensures "1234.5678" == "1234" + ['.'] + "5678" && "1234" + ['.'] + "56" == "1234.56"
    ensures "1.000123" == "1" + ['.'] + "000123"
    ensures "12,50" == "12" + [','] + "50" && "12" + [','] + "5" == "12,5"
    ensures "1.2345" == "1" + ['.'] + "2345" && "1" + ['.'] + "234" == "1.234"
  {
  }

  /** A fraction cut to two digits. */
  lemma ExampleCut()
    ensures FormatUnitsTruncate("1234.5678", 2) == "1234.56"
  {
    ExampleTexts();
    TruncateJoined("1234", '.', "5678", 2);
    assert SlicePrefix("5678", 2) == "56";
    assert "56"[0] != '0';
  }

  /** A fraction that is zero after the cut is dropped with its separator. */
  lemma ExampleZeroDropped()
    ensures FormatUnitsTruncate("1.000123", 3) == "1"
  {
    ExampleTexts();
    TruncateJoined("1", '.', "000123", 3);
    assert SlicePrefix("000123", 3) == "000";
    assert ReadsAsZero("000") by {
      assert "000"[0] == '0' && "000"[1] == '0' && "000"[2] == '0';
    }
  }

  /** A comma separator is kept as it is. */
  lemma ExampleComma()
    ensures FormatUnitsTruncate("12,50", 1) == "12,5"
  {
    ExampleTexts();
    TruncateJoined("12", ',', "50", 1);
    assert SlicePrefix("50", 1) == "5";
    assert "5"[0] != '0';
  }

  /** A negative count cuts digits off the end of the fraction. */
  lemma ExampleNegativeCount()
    ensures FormatUnitsTruncate("1.2345", -1) == "1.234"
  {
    ExampleTexts();
    TruncateJoined("1", '.', "2345", -1);
    assert SlicePrefix("2345", -1) == "234";
    assert "234"[0] != '0';
  }
}
