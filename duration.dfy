/** The duration formatter: turns a month count into an English phrase such
    as "1 year 7 months", and the grammar that reads such a phrase back. */
module Duration {

  datatype Option<T> = None | Some(value: T)

  // ---------------------------------------------------------------------
  // Decimal numerals, as Python's str() writes a non-negative int
  // ---------------------------------------------------------------------

  predicate IsDigit(c: char) {
    '0' <= c <= '9'
  }

  function DigitChar(d: nat): (c: char)
    requires d < 10
    ensures IsDigit(c) && (c as int) - ('0' as int) == d
  {
    "0123456789"[d]
  }

  /** The decimal representation of n, without sign or leading zeros. */
  function NatToString(n: nat): (s: string)
    ensures CanonicalNumeral(s)
    ensures ' ' !in s
    decreases n
  {
    if n < 10 then [DigitChar(n)] else NatToString(n / 10) + [DigitChar(n % 10)]
  }

  /** A non-empty run of digits with no superfluous leading zero. */
  predicate CanonicalNumeral(s: string) {
    && |s| > 0
    && (forall i :: 0 <= i < |s| ==> IsDigit(s[i]))
    && (|s| > 1 ==> s[0] != '0')
  }

  function DigitValue(c: char): (d: nat)
    requires IsDigit(c)
    ensures d < 10
  {
    (c as int) - ('0' as int)
  }

  /** The number a run of digits denotes. */
  function NumeralValue(s: string): nat
    requires forall i :: 0 <= i < |s| ==> IsDigit(s[i])
    decreases |s|
  {
    if s == [] then 0
    else NumeralValue(s[..|s| - 1]) * 10 + DigitValue(s[|s| - 1])
  }

  /** The decimal rendering of n reads back as n. */
  lemma {:induction false} NumeralValueOfNatToString(n: nat)
    ensures NumeralValue(NatToString(n)) == n
    decreases n
  {
    var s := NatToString(n);
    if n >= 10 {
      NumeralValueOfNatToString(n / 10);
      assert s[..|s| - 1] == NatToString(n / 10);
    }
  }

  lemma {:induction false} LeadingNonZeroIsPositive(s: string)
    requires |s| > 0 && forall i :: 0 <= i < |s| ==> IsDigit(s[i])
    requires s[0] != '0'
    ensures NumeralValue(s) >= 1
    decreases |s|
  {
    if |s| > 1 {
      LeadingNonZeroIsPositive(s[..|s| - 1]);
    }
  }

  /** Every canonical digit string is the rendering of its value. */
  lemma {:induction false} NatToStringOfNumeralValue(s: string)
    requires CanonicalNumeral(s)
    ensures NatToString(NumeralValue(s)) == s
    decreases |s|
  {
    if |s| > 1 {
      var p := s[..|s| - 1];
      LeadingNonZeroIsPositive(s);
      LeadingNonZeroIsPositive(p);
      NatToStringOfNumeralValue(p);
      var d := DigitValue(s[|s| - 1]);
      assert NumeralValue(s) / 10 == NumeralValue(p) && NumeralValue(s) % 10 == d;
      assert s == p + [s[|s| - 1]];
    }
  }

  // ---------------------------------------------------------------------
  // The formatter
  // ---------------------------------------------------------------------

  /** The plural suffix: a unit is singular exactly when its count is 1. */
  function Plural(n: nat): string {
    if n != 1 then "s" else ""
  }

  /** "<n> month(s)" under a year; otherwise "<y> year(s)" followed by
      " <r> month(s)" when the remainder r is not zero. */
  function FormatDuration(months: nat): string {
    if months < 12 then
      NatToString(months) + " month" + Plural(months)
    else
      var years := months / 12;
      var remainingMonths := months % 12;
      if remainingMonths == 0 then
        NatToString(years) + " year" + Plural(years)
      else
        NatToString(years) + " year" + Plural(years) + " " +
        NatToString(remainingMonths) + " month" + Plural(remainingMonths)
  }

  // ---------------------------------------------------------------------
  // Reading a phrase back
  // ---------------------------------------------------------------------

  /** The space-separated words of s (an empty word between two adjacent spaces). */
  function Words(s: string): (ws: seq<string>)
    ensures |ws| >= 1
    decreases |s|
  {
    if s == [] then [""]
    else
      var rest := Words(s[1..]);
      if s[0] == ' ' then [""] + rest else [[s[0]] + rest[0]] + rest[1..]
  }

  lemma {:induction false} WordsOfWord(w: string)
    requires ' ' !in w
    ensures Words(w) == [w]
    decreases |w|
  {
    if w != [] {
      WordsOfWord(w[1..]);
      assert [w[0]] + w[1..] == w;
    }
  }

  lemma {:induction false} WordsOfWordThenSpace(w: string, t: string)
    requires ' ' !in w
    ensures Words(w + " " + t) == [w] + Words(t)
    decreases |w|
  {
    if w == [] {
      assert w + " " + t == [' '] + t;
      assert (w + " " + t)[1..] == t;
    } else {
      WordsOfWordThenSpace(w[1..], t);
      assert (w + " " + t)[1..] == w[1..] + " " + t;
      assert [w[0]] + w[1..] == w;
    }
  }

  /** The counts a well-formed duration phrase prints. */
  datatype Shown = Shown(years: nat, months: nat)

  /** The unit word for a count: singular for exactly one, plural otherwise. */
  function UnitWord(unit: string, count: nat): string {
    if count == 1 then unit else unit + "s"
  }

  /** The grammar of duration phrases: "<m> month(s)" with m < 12, "<y> year(s)"
      with y >= 1, or "<y> year(s) <m> month(s)" with y >= 1 and 0 < m < 12, every
      number a canonical numeral and every unit word agreeing with its number. */
  function ParseDuration(s: string): Option<Shown> {
    var ws := Words(s);
    if |ws| == 2 then ParseOneUnit(ws[0], ws[1])
    else if |ws| == 4 then ParseTwoUnits(ws[0], ws[1], ws[2], ws[3])
    else None
  }

  /** "<m> month(s)" with m < 12, or "<y> year(s)" with y >= 1. */
  function ParseOneUnit(number: string, unit: string): Option<Shown> {
    if !CanonicalNumeral(number) then None
    else
      var n := NumeralValue(number);
      if unit == UnitWord("month", n) && n < 12 then Some(Shown(0, n))
      else if unit == UnitWord("year", n) && n >= 1 then Some(Shown(n, 0))
      else None
  }

  /** "<y> year(s) <m> month(s)" with y >= 1 and 0 < m < 12. */
  function ParseTwoUnits(years: string, yearUnit: string, months: string, monthUnit: string): Option<Shown> {
    if !CanonicalNumeral(years) || !CanonicalNumeral(months) then None
    else
      var y := NumeralValue(years);
      var m := NumeralValue(months);
      if yearUnit == UnitWord("year", y) && monthUnit == UnitWord("month", m) && y >= 1 && 0 < m < 12 then
        Some(Shown(y, m))
      else None
  }

  lemma UnitPhraseWords(n: nat, unit: string)
    requires unit == "month" || unit == "year"
    ensures Words(NatToString(n) + " " + unit + Plural(n)) == [NatToString(n), UnitWord(unit, n)]
    ensures unit + Plural(n) == UnitWord(unit, n)
  {
    var w := unit + Plural(n);
    assert ' ' !in w;
    assert NatToString(n) + " " + unit + Plural(n) == NatToString(n) + " " + w;
    WordsOfWordThenSpace(NatToString(n), w);
    WordsOfWord(w);
    assert unit + "" == unit;
  }

  lemma ParseUnitPhrase(n: nat, unit: string)
    requires unit == "month" || unit == "year"
    ensures unit == "month" && n < 12 ==>
      ParseDuration(NatToString(n) + " " + unit + Plural(n)) == Some(Shown(0, n))
    ensures unit == "year" && n >= 1 ==>
      ParseDuration(NatToString(n) + " " + unit + Plural(n)) == Some(Shown(n, 0))
  {
    var s := NatToString(n) + " " + unit + Plural(n);
    UnitPhraseWords(n, unit);
    NumeralValueOfNatToString(n);
    var ws := Words(s);
    assert ws[0] == NatToString(n) && ws[1] == UnitWord(unit, n);
    assert UnitWord("month", n) != UnitWord("year", n);
  }

  lemma WordsOfYearsAndMonths(y: nat, r: nat)
    ensures Words(NatToString(y) + " year" + Plural(y) + " " + NatToString(r) + " month" + Plural(r))
            == [NatToString(y), UnitWord("year", y), NatToString(r), UnitWord("month", r)]
  {
    var yw := "year" + Plural(y);
    var tail := NatToString(r) + " " + "month" + Plural(r);
    Regroup(NatToString(y), Plural(y), NatToString(r), Plural(r));
    assert ' ' !in yw;
    WordsOfWordThenSpace(NatToString(y), yw + " " + tail);
    WordsOfWordThenSpace(yw, tail);
    UnitPhraseWords(r, "month");
    UnitPhraseWords(y, "year");
  }

  lemma Regroup(a: string, py: string, nr: string, pr: string)
    ensures a + " year" + py + " " + nr + " month" + pr
         == a + " " + ("year" + py + " " + (nr + " " + "month" + pr))
  {
    assert " year" == " " + "year";
    assert " month" == " " + "month";
  }

  lemma ParseYearsAndMonths(s: string, y: nat, r: nat)
    requires y >= 1 && 0 < r < 12
    requires Words(s) == [NatToString(y), UnitWord("year", y), NatToString(r), UnitWord("month", r)]
    ensures ParseDuration(s) == Some(Shown(y, r))
  {
    NumeralValueOfNatToString(y);
    NumeralValueOfNatToString(r);
  }

  /** The phrase reads back as the number of whole years and the remaining
      months: years * 12 + months is the input and months < 12. */
  lemma FormatDurationRoundTrip(months: nat)
    ensures ParseDuration(FormatDuration(months)).Some?
    ensures ParseDuration(FormatDuration(months)).value.years * 12 +
            ParseDuration(FormatDuration(months)).value.months == months
    ensures ParseDuration(FormatDuration(months)).value.months < 12
    ensures ParseDuration(FormatDuration(months)) == Some(Shown(months / 12, months % 12))
  {
    var y, r := months / 12, months % 12;
    if months < 12 {
      assert FormatDuration(months) == NatToString(months) + " " + "month" + Plural(months);
      ParseUnitPhrase(months, "month");
    } else if r == 0 {
      assert FormatDuration(months) == NatToString(y) + " " + "year" + Plural(y);
      ParseUnitPhrase(y, "year");
    } else {
      WordsOfYearsAndMonths(y, r);
      ParseYearsAndMonths(FormatDuration(months), y, r);
    }
  }

  lemma UnwordsFour(ws: seq<string>)
    requires |ws| == 4
    ensures Unwords(ws) == ws[0] + " " + ws[1] + " " + ws[2] + " " + ws[3]
  {
    assert ws[1..][1..] == ws[2..] && ws[2..][1..] == ws[3..];
    assert Unwords(ws[3..]) == ws[3];
    assert Unwords(ws[2..]) == ws[2] + " " + ws[3];
  }

  lemma SoundOneUnit(s: string, n: nat, unit: string)
    requires unit == "month" || unit == "year"
    requires |Words(s)| == 2 && Words(s)[0] == NatToString(n) && Words(s)[1] == UnitWord(unit, n)
    ensures s == NatToString(n) + " " + unit + Plural(n)
  {
    WordsInverse(s);
    var ws := Words(s);
    assert ws[1..] == [ws[1]];
    assert unit + "" == unit;
  }

  lemma SoundTwoUnits(s: string, y: nat, r: nat)
    requires |Words(s)| == 4
    requires Words(s)[0] == NatToString(y) && Words(s)[1] == UnitWord("year", y)
    requires Words(s)[2] == NatToString(r) && Words(s)[3] == UnitWord("month", r)
    ensures s == NatToString(y) + " year" + Plural(y) + " " + NatToString(r) + " month" + Plural(r)
  {
    WordsInverse(s);
    UnwordsFour(Words(s));
    var yw, mw := "year" + Plural(y), "month" + Plural(r);
    assert UnitWord("year", y) == yw by { assert "year" + "" == "year"; }
    assert UnitWord("month", r) == mw by { assert "month" + "" == "month"; }
    SpacedConcat(NatToString(y), yw, NatToString(r), mw, " year", Plural(y), " month", Plural(r));
  }

  lemma SpacedConcat(a: string, b: string, c: string, d: string, b1: string, b2: string, d1: string, d2: string)
    requires |b1| > 0 && b1[0] == ' ' && |d1| > 0 && d1[0] == ' '
    requires b == b1[1..] + b2 && d == d1[1..] + d2
    ensures a + " " + b + " " + c + " " + d == a + b1 + b2 + " " + c + d1 + d2
  {
    assert b1 == " " + b1[1..];
    assert d1 == " " + d1[1..];
  }

  lemma SoundMonthPhrase(s: string, n: nat)
    requires |Words(s)| == 2 && Words(s)[0] == NatToString(n) && Words(s)[1] == UnitWord("month", n)
    requires n < 12
    ensures FormatDuration(n) == s
  {
    SoundOneUnit(s, n, "month");
  }

  lemma SoundYearPhrase(s: string, y: nat)
    requires |Words(s)| == 2 && Words(s)[0] == NatToString(y) && Words(s)[1] == UnitWord("year", y)
    requires y >= 1
    ensures FormatDuration(y * 12) == s
  {
    assert (y * 12) / 12 == y && (y * 12) % 12 == 0;
    SoundOneUnit(s, y, "year");
  }

  lemma SoundYearMonthPhrase(s: string, y: nat, r: nat)
    requires |Words(s)| == 4
    requires Words(s)[0] == NatToString(y) && Words(s)[1] == UnitWord("year", y)
    requires Words(s)[2] == NatToString(r) && Words(s)[3] == UnitWord("month", r)
    requires y >= 1 && 0 < r < 12
    ensures FormatDuration(y * 12 + r) == s
  {
    YearsAndMonthsPhrase(y, r);
    SoundTwoUnits(s, y, r);
  }

  lemma DivModTwelve(y: nat, r: nat)
    requires r < 12
    ensures (y * 12 + r) / 12 == y && (y * 12 + r) % 12 == r
  {
  }

  /** The phrase for y years and r months, 0 < r < 12, written out. */
  lemma YearsAndMonthsPhrase(y: nat, r: nat)
    requires y >= 1 && 0 < r < 12
    ensures FormatDuration(y * 12 + r)
         == NatToString(y) + " year" + Plural(y) + " " + NatToString(r) + " month" + Plural(r)
  {
    DivModTwelve(y, r);
  }

  /** A two-word phrase "<n> month(s)" with n < 12 is the phrase of n months. */
  lemma SoundMonthWords(s: string)
    requires |Words(s)| == 2 && CanonicalNumeral(Words(s)[0])
    requires Words(s)[1] == UnitWord("month", NumeralValue(Words(s)[0])) && NumeralValue(Words(s)[0]) < 12
    ensures FormatDuration(NumeralValue(Words(s)[0])) == s
  {
    NatToStringOfNumeralValue(Words(s)[0]);
    SoundMonthPhrase(s, NumeralValue(Words(s)[0]));
  }

  /** A two-word phrase "<y> year(s)" with y >= 1 is the phrase of y * 12 months. */
  lemma SoundYearWords(s: string)
    requires |Words(s)| == 2 && CanonicalNumeral(Words(s)[0])
    requires Words(s)[1] == UnitWord("year", NumeralValue(Words(s)[0])) && NumeralValue(Words(s)[0]) >= 1
    ensures FormatDuration(NumeralValue(Words(s)[0]) * 12) == s
  {
    NatToStringOfNumeralValue(Words(s)[0]);
    SoundYearPhrase(s, NumeralValue(Words(s)[0]));
  }

  lemma SoundOneUnitPhrase(s: string)
    requires |Words(s)| == 2 && ParseOneUnit(Words(s)[0], Words(s)[1]).Some?
    ensures var p := ParseOneUnit(Words(s)[0], Words(s)[1]).value;
      p.months < 12 && FormatDuration(p.years * 12 + p.months) == s
  {
    var ws := Words(s);
    var n := NumeralValue(ws[0]);
    if ws[1] == UnitWord("month", n) && n < 12 {
      assert ParseOneUnit(ws[0], ws[1]) == Some(Shown(0, n));
      SoundMonthWords(s);
      assert 0 * 12 + n == n;
    } else {
      assert ParseOneUnit(ws[0], ws[1]) == Some(Shown(n, 0));
      SoundYearWords(s);
      assert n * 12 + 0 == n * 12;
    }
  }

  lemma SoundTwoUnitPhrase(s: string)
    requires |Words(s)| == 4 && ParseTwoUnits(Words(s)[0], Words(s)[1], Words(s)[2], Words(s)[3]).Some?
    ensures var p := ParseTwoUnits(Words(s)[0], Words(s)[1], Words(s)[2], Words(s)[3]).value;
      p.months < 12 && FormatDuration(p.years * 12 + p.months) == s
  {
    var ws := Words(s);
    NatToStringOfNumeralValue(ws[0]);
    NatToStringOfNumeralValue(ws[2]);
    var p := ParseTwoUnits(ws[0], ws[1], ws[2], ws[3]).value;
    SoundYearMonthPhrase(s, p.years, p.months);
  }

  /** Every well-formed phrase is the formatting of exactly the month count it shows. */
  lemma ParseDurationSound(s: string)
    requires ParseDuration(s).Some?
    ensures ParseDuration(s).value.months < 12
    ensures FormatDuration(ParseDuration(s).value.years * 12 + ParseDuration(s).value.months) == s
  {
    if |Words(s)| == 2 {
      SoundOneUnitPhrase(s);
    } else {
      SoundTwoUnitPhrase(s);
    }
  }

  /** Joining the words of s with single spaces gives s back. */
  function Unwords(ws: seq<string>): string
    requires |ws| >= 1
  {
    if |ws| == 1 then ws[0] else ws[0] + " " + Unwords(ws[1..])
  }

  lemma {:induction false} WordsInverse(s: string)
    ensures Unwords(Words(s)) == s
    decreases |s|
  {
    if s != [] {
      var rest := Words(s[1..]);
      WordsInverse(s[1..]);
      if s[0] == ' ' {
        assert Words(s) == [""] + rest;
        assert ([""] + rest)[1..] == rest;
        assert Unwords(Words(s)) == "" + " " + Unwords(rest);
      } else if |rest| == 1 {
        assert Words(s) == [[s[0]] + rest[0]];
      } else {
        var ws := Words(s);
        assert ws == [[s[0]] + rest[0]] + rest[1..];
        assert ws[1..] == rest[1..];
        assert Unwords(ws) == [s[0]] + rest[0] + " " + Unwords(rest[1..]);
        assert Unwords(rest) == rest[0] + " " + Unwords(rest[1..]);
      }
    }
  }

  /** The phrases for a few month counts, written out. */
  lemma FormatDurationMonthExamples()
    ensures FormatDuration(0) == "0 months"
    ensures FormatDuration(1) == "1 month"
    ensures FormatDuration(11) == "11 months"
  {
    assert NatToString(11) == "11";
  }

  lemma FormatDurationYearExamples()
    ensures FormatDuration(12) == "1 year"
    ensures FormatDuration(24) == "2 years"
  {
  }

  lemma FormatDurationOneYearOneMonth()
    ensures FormatDuration(13) == "1 year 1 month"
  {
    YearsAndMonthsPhrase(1, 1);
    assert NatToString(1) == "1" && Plural(1) == "";
  }

  lemma FormatDurationOneYearSevenMonths()
    ensures FormatDuration(19) == "1 year 7 months"
  {
    YearsAndMonthsPhrase(1, 7);
    assert NatToString(1) == "1" && NatToString(7) == "7";
    assert Plural(1) == "" && Plural(7) == "s";
  }

  lemma FormatDurationTwoYearsOneMonth()
    ensures FormatDuration(25) == "2 years 1 month"
  {
    YearsAndMonthsPhrase(2, 1);
    assert NatToString(1) == "1" && NatToString(2) == "2";
    assert Plural(1) == "" && Plural(2) == "s";
  }


  /** Two month counts with the same phrase are equal. */
  lemma FormatDurationInjective(a: nat, b: nat)
    requires FormatDuration(a) == FormatDuration(b)
    ensures a == b
  {
    FormatDurationRoundTrip(a);
    FormatDurationRoundTrip(b);
  }
}
