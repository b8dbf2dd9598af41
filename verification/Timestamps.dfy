/** The fixed-width timestamps of the Kotlin backend: pattern yyyy-MM-dd'T'HH:mm:ss.SSSSSSSSS'Z' in UTC. */
module Timestamps {
  import opened Text
  import opened Calendar
  import opened Fields

  /** `yyyy` prints the year of era, so year 0 (1 BC) prints as year 1. */
  function YearOfEra(year: int): int { if year >= 1 then year else 1 - year }

  function YearWidth(yearOfEra: int): nat
    requires yearOfEra >= 0
  {
    if yearOfEra <= 9999 then 4 else Width(yearOfEra)
  }

  function FieldsOf(c: Civil): seq<Field> {
    var y := YearOfEra(c.year);
    [Field(y, YearWidth(y), '-'), Field(c.month, 2, '-'), Field(c.day, 2, 'T'), Field(c.hour, 2, ':'),
     Field(c.minute, 2, ':'), Field(c.second, 2, '.'), Field(c.nano, 9, 'Z')]
  }

  function Sign(year: int): string { if YearOfEra(year) > 9999 then "+" else "" }

  function Format(t: int): string { Sign(YearOf(t)) + Render(FieldsOf(CivilOf(t)), 0) }

  function LayoutFor(yearWidth: nat): seq<(nat, char)> {
    [(yearWidth, '-'), (2, '-'), (2, 'T'), (2, ':'), (2, ':'), (2, '.'), (9, 'Z')]
  }

  /** The smart resolver: the day is capped to its month, and 24:00 is the end of the day. */
  function Resolve(v: seq<int>): Option<int>
    requires |v| == 7
  {
    var time := 0 <= v[3] < 24 && 0 <= v[4] < 60 && 0 <= v[5] < 60;
    var endOfDay := v[3] == 24 && v[4] == 0 && v[5] == 0 && v[6] == 0;
    if v[0] < 1 || !(1 <= v[1] <= 12) || !(1 <= v[2] <= 31) || !(time || endOfDay) then None
    else
      var day := if v[2] <= MonthLength(v[0], v[1]) then v[2] else MonthLength(v[0], v[1]);
      Some(InstantOf(Civil(v[0], v[1], day, v[3], v[4], v[5], v[6])))
  }

  /** Reads a year of exactly four digits, or a signed one of more than four. */
  function Parse(s: string): Option<int> {
    var signed := s != "" && s[0] == '+';
    var text := if signed then s[1..] else s;
    var width := if signed then DigitRun(text, 0) else 4;
    if signed && width <= 4 then None
    else
      match Read(text, LayoutFor(width), 0)
      case None => None
      case Some(v) => Resolve(v)
  }

  // ---------------------------------------------------------------- what is read

  /** Fields that are read: a date with any day up to the 31st, and a time of day or 24:00:00.000000000. */
  lemma ResolveIs(v: seq<int>)
    requires |v| == 7 && forall i :: 0 <= i < 7 ==> v[i] >= 0
    ensures Resolve(v).Some? <==>
      && v[0] >= 1 && 1 <= v[1] <= 12 && 1 <= v[2] <= 31
      && ((v[3] <= 23 && v[4] <= 59 && v[5] <= 59) || (v[3] == 24 && v[4] == v[5] == v[6] == 0))
    ensures Resolve(v).Some? ==>
      var day := if v[2] <= MonthLength(v[0], v[1]) then v[2] else MonthLength(v[0], v[1]);
      Resolve(v).value == Resolve([v[0], v[1], 1, 0, 0, 0, 0]).value + ((((day - 1) * 24 + v[3]) * 60 + v[4]) * 60 + v[5]) * 1_000_000_000 + v[6]
  {
    hide DaysBeforeYear, DaysBeforeMonth, MonthLength;
    MonthLengths(v[0], v[1]);
  }

  /** A year is written with exactly four digits, or with a sign and more than four. */
  lemma YearsAreWritten(s: string)
    ensures Parse(s).Some? ==> s != "" && if s[0] == '+' then DigitRun(s[1..], 0) > 4 else DigitRun(s, 0) == 4
  {
    hide Resolve;
    if Parse(s).Some? && s[0] != '+' {
      assert DigitRun(s[..4], 0) == 4 && s[4] == '-';
      RunInPrefix(s, 4, 0);
    }
  }

  lemma {:induction false} RunInPrefix(s: string, n: nat, i: nat)
    requires i <= n < |s| && DigitRun(s[..n], i) == n && !IsDigit(s[n])
    ensures DigitRun(s, i) == n
    decreases n - i
  {
    if i < n { RunInPrefix(s, n, i + 1); }
  }

  // ---------------------------------------------------------------- round trip

  lemma FieldsFit(c: Civil)
    requires Valid(c)
    ensures Fit(FieldsOf(c)) && Layout(FieldsOf(c)) == LayoutFor(YearWidth(YearOfEra(c.year)))
    ensures Values(FieldsOf(c)) == [YearOfEra(c.year), c.month, c.day, c.hour, c.minute, c.second, c.nano]
  {
    hide IsLeap, Width;
    var fs, y := FieldsOf(c), YearOfEra(c.year);
    WidthFits(y);
    PowersOfTen();
  }

  lemma PowersOfTen()
    ensures Pow10(2) == 100 && Pow10(3) == 1000 && Pow10(4) == 10000 && Pow10(6) == 1000000 && Pow10(9) == NANOS
  {
    assert Pow10(6) == 1000 * Pow10(3) && Pow10(9) == 1000 * Pow10(6) by {
      assert Pow10(6) == 10 * Pow10(5) && Pow10(5) == 10 * Pow10(4) && Pow10(8) == 10 * Pow10(7) && Pow10(7) == 10 * Pow10(6);
    }
  }

  /** The text of an instant opens with the digits of its year of era. */
  lemma RenderOpens(c: Civil)
    requires Valid(c)
    ensures var s, w := Render(FieldsOf(c), 0), YearWidth(YearOfEra(c.year));
      |s| > w && s[..w] == Digits(YearOfEra(c.year), w) && s[w] == '-' && DigitRun(s, 0) == w > 0 && IsDigit(s[0])
  {
    var fs, y := FieldsOf(c), YearOfEra(c.year);
    var w := YearWidth(y);
    var s := Render(fs, 0);
    DigitsAreDigits(y, w);
    assert s == Digits(y, w) + (['-'] + Render(fs, 1));
    assert forall k :: 0 <= k < w ==> s[k] == Digits(y, w)[k];
    RunOfDigits(s, 0, w);
  }

  /** What the parser makes of a printed instant: the same fields, with the year of era for the year. */
  lemma ParseFormat(t: int)
    ensures var c := CivilOf(t);
      Parse(Format(t)) == Resolve([YearOfEra(c.year), c.month, c.day, c.hour, c.minute, c.second, c.nano])
  {
    hide CivilOf, Resolve, FieldsOf, LayoutFor, Valid, Render, Read;
    var c := CivilOf(t);
    CivilOfIsValid(t);
    FieldsFit(c);
    RenderOpens(c);
    ReadRender(FieldsOf(c), 0);
    WideYears(YearOfEra(c.year));
    var r := Render(FieldsOf(c), 0);
    assert "" + r == r && ("+" + r)[1..] == r;
    assert Values(FieldsOf(c))[0..] == Values(FieldsOf(c));
  }

  /** In years 1 to 9999: date and time in fixed columns, nine decimals after a point, and a Z for UTC. */
  lemma FormatIsSpelled(t: int)
    requires 1 <= YearOf(t) <= 9999
    ensures var s, c := Format(t), CivilOf(t);
      && |s| == 30 && OpensWithTime(s, c.year, c.month, c.day, c.hour, c.minute, c.second)
      && s[19] == '.' && Number(s[20..29]) == c.nano && s[29] == 'Z' && forall k :: 20 <= k < 29 ==> IsDigit(s[k])
  {
    hide CivilOf, Valid, Render, Number;
    var c := CivilOf(t);
    var fs := FieldsOf(c);
    var s := Render(fs, 0);
    CivilOfIsValid(t);
    FieldsFit(c);
    RenderOpensWithTime(fs);
    DropsTo(fs, s, 20, 6);
    RenderEnds(fs);
    assert "" + s == s;
  }

  lemma WideYears(y: int)
    requires y >= 0
    ensures y > 9999 ==> YearWidth(y) > 4
  {
    if y > 9999 { assert Width(y) == 2 + Width(y / 10 / 10) && Width(y / 10 / 10) == 2 + Width(y / 10 / 10 / 10 / 10); }
  }

  /** Parsing inverts printing exactly for the instants of year 1 and later. */
  lemma RoundTrip(t: int)
    ensures Parse(Format(t)) == Some(t) <==> YearOf(t) >= 1
  {
    var c := CivilOf(t);
    ParseFormat(t);
    CivilOfIsValid(t);
    if c.year >= 1 {
    } else {
      hide CivilOf, DayNumber;
      var v := [YearOfEra(c.year), c.month, c.day, c.hour, c.minute, c.second, c.nano];
      if Resolve(v).Some? {
        var day := if v[2] <= MonthLength(v[0], v[1]) then v[2] else MonthLength(v[0], v[1]);
        MonthLengths(v[0], v[1]);
        var d := Civil(v[0], v[1], day, v[3], v[4], v[5], v[6]);
        InstantOrder(c, d);
      }
    }
  }

  lemma MonthLengths(y: int, m: int)
    ensures 28 <= MonthLength(y, m) <= 31
  {}

  // ---------------------------------------------------------------- order

  /** The instants whose text has the fixed width. */
  predicate InRange(t: int) { 1 <= YearOf(t) <= 9999 }

  lemma ValuesOrder(v: seq<int>, w: seq<int>, c: Civil, d: Civil)
    requires v == [c.year, c.month, c.day, c.hour, c.minute, c.second, c.nano]
    requires w == [d.year, d.month, d.day, d.hour, d.minute, d.second, d.nano]
    ensures ValuesLess(v, w, 0) <==> Earlier(c, d)
  {
    assert ValuesLess(v, w, 6) <==> c.nano < d.nano;
    assert ValuesLess(v, w, 4) <==>
      (c.minute < d.minute || (c.minute == d.minute && (c.second < d.second || (c.second == d.second && ValuesLess(v, w, 6)))));
    assert ValuesLess(v, w, 2) <==>
      (c.day < d.day || (c.day == d.day && (c.hour < d.hour || (c.hour == d.hour && ValuesLess(v, w, 4)))));
  }

  /** In years 1 to 9999 the text order of stored timestamps is chronological order. */
  lemma OrderEmbedding(t: int, u: int)
    requires InRange(t) && InRange(u)
    ensures Less(Format(t), Format(u)) <==> t < u
    ensures Format(t) == Format(u) <==> t == u
    ensures |Format(t)| == |Format(u)|
  {
    hide CivilOf, FieldsOf, LayoutFor, Valid, Render, Earlier, ValuesLess;
    var c, d := CivilOf(t), CivilOf(u);
    CivilOfIsValid(t);
    CivilOfIsValid(u);
    FieldsFit(c);
    FieldsFit(d);
    RenderOrder(FieldsOf(c), FieldsOf(d), 0);
    ValuesOrder(Values(FieldsOf(c)), Values(FieldsOf(d)), c, d);
    ChronologicalOrder(t, u);
    SameFields(c, d);
    assert Format(t) == Render(FieldsOf(c), 0) && Format(u) == Render(FieldsOf(d), 0);
  }

  lemma SameFields(c: Civil, d: Civil)
    ensures YearOfEra(c.year) == c.year && YearOfEra(d.year) == d.year ==>
      (c == d <==> forall k :: 0 <= k < 7 ==> FieldsOf(c)[k].value == FieldsOf(d)[k].value)
  {
    var fs, gs := FieldsOf(c), FieldsOf(d);
    if forall k :: 0 <= k < 7 ==> fs[k].value == gs[k].value {
      assert fs[0].value == gs[0].value && fs[1].value == gs[1].value && fs[2].value == gs[2].value && fs[3].value == gs[3].value
          && fs[4].value == gs[4].value && fs[5].value == gs[5].value && fs[6].value == gs[6].value;
    }
  }

  lemma FormatAt(c: Civil)
    requires Valid(c)
    ensures Format(InstantOf(c)) == Sign(c.year) + Render(FieldsOf(c), 0) && YearOf(InstantOf(c)) == c.year
  {
    CivilOfInverts(c);
  }

  /** Year 0, which is 1 BC, prints as year 1. */
  lemma YearZeroCollides() returns (t: int, u: int)
    ensures t < u && YearOf(t) == 0 && YearOf(u) == 1 && Format(t) == Format(u)
  {
    var c, d := Civil(0, 1, 1, 0, 0, 0, 0), Civil(1, 1, 1, 0, 0, 0, 0);
    hide Format, Render, InstantOf, CivilOf, YearOf;
    t, u := InstantOf(c), InstantOf(d);
    FormatAt(c);
    FormatAt(d);
    InstantOrder(c, d);
    assert FieldsOf(c) == FieldsOf(d);
  }

  /** Year 10000, printed with a sign, sorts before year 9999. */
  lemma YearTenThousandSortsFirst() returns (t: int, u: int)
    ensures t < u && YearOf(t) == 9999 && YearOf(u) == 10000 && Less(Format(u), Format(t))
  {
    var c, d := Civil(9999, 1, 1, 0, 0, 0, 0), Civil(10000, 1, 1, 0, 0, 0, 0);
    hide Format, Render, InstantOf, FieldsOf, CivilOf, YearOf;
    t, u := InstantOf(c), InstantOf(d);
    FormatAt(c);
    FormatAt(d);
    InstantOrder(c, d);
    RenderOpens(c);
    var r, s := Render(FieldsOf(c), 0), Render(FieldsOf(d), 0);
    assert "" + r == r;
    assert ("+" + s)[0] < r[0];
  }

  predicate InYears(t: int, first: int, last: int) { first <= YearOf(t) <= last }

  /** Of the ranges of years that meet 1 to 9999, text order is chronological exactly on those inside it. */
  lemma OrderHoldsFromYear1To9999(first: int, last: int)
    requires first <= last && first <= 9999 && 1 <= last
    ensures (forall t, u :: InYears(t, first, last) && InYears(u, first, last) ==> (Less(Format(t), Format(u)) <==> t < u))
        <==> 1 <= first && last <= 9999
  {
    hide Format, Less, YearOf;
    if 1 <= first && last <= 9999 {
      forall t, u | InYears(t, first, last) && InYears(u, first, last) ensures Less(Format(t), Format(u)) <==> t < u {
        OrderEmbedding(t, u);
      }
    } else if first < 1 {
      var t, u := YearZeroCollides();
      LessTrichotomy(Format(t), Format(u));
      assert InYears(t, first, last) && InYears(u, first, last) && t < u && !Less(Format(t), Format(u));
    } else {
      var t, u := YearTenThousandSortsFirst();
      assert InYears(t, first, last) && InYears(u, first, last) && Less(Format(u), Format(t)) && !(u < t);
    }
  }
}
