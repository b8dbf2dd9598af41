/** The variable-width timestamps of the Rust backend: 0, 3, 6 or 9 fractional digits, as many as the instant needs. */
module TimeFmt {
  import opened Text
  import opened Calendar
  import opened Fields
  import opened Quotients
  import Timestamps

  /** The precision an instant is printed with: seconds, milliseconds, microseconds or nanoseconds. */
  function Unit(nano: int): (u: int)
    ensures u >= 1
  {
    if nano == 0 then NANOS else if nano % 1000000 == 0 then 1000000 else if nano % 1000 == 0 then 1000 else 1
  }

  function FractionWidth(nano: int): nat {
    if nano == 0 then 0 else if nano % 1000000 == 0 then 3 else if nano % 1000 == 0 then 6 else 9
  }

  /** The fields from the given year width on; a fraction follows only if it is not zero. */
  function FieldsOf(c: Civil, yearWidth: nat): seq<Field> {
    var y := if c.year < 0 then -c.year else c.year;
    var head := [Field(y, yearWidth, '-'), Field(c.month, 2, '-'), Field(c.day, 2, 'T'), Field(c.hour, 2, ':'), Field(c.minute, 2, ':')];
    if c.nano == 0 then head + [Field(c.second, 2, 'Z')]
    else head + [Field(c.second, 2, '.'), Field(c.nano / Unit(c.nano), FractionWidth(c.nano), 'Z')]
  }

  /** Years outside 0 to 9999 carry a sign. */
  function Format(t: int): string {
    var c := CivilOf(t);
    if 0 <= c.year <= 9999 then Render(FieldsOf(c, 4), 0)
    else if c.year < 0 then "-" + Render(FieldsOf(c, Timestamps.YearWidth(-c.year)), 0)
    else "+" + Render(FieldsOf(c, Timestamps.YearWidth(c.year)), 0)
  }

  /** k digits after the point, as nanoseconds; digits past the ninth are dropped. */
  function Nanoseconds(fraction: int, k: nat): int {
    if k <= 9 then fraction * Pow10(9 - k) else fraction / Pow10(k - 9)
  }

  function HeadLayout(end: char): seq<(nat, char)> {
    [(4, '-'), (2, '-'), (2, 'T'), (2, ':'), (2, ':'), (2, end)]
  }

  function ParseRfc3339(s: string): Option<int> {
    var k := if |s| > 20 && s[19] == '.' then DigitRun(s, 20) - 20 else 0;
    match Read(s, if k > 0 then HeadLayout('.') + [(k, 'Z')] else HeadLayout('Z'), 0)
    case None => None
    case Some(v) =>
      var nano := if k > 0 then Nanoseconds(v[6], k) else 0;
      var c := Civil(v[0], v[1], v[2], v[3], v[4], v[5], nano);
      if Valid(c) then Some(InstantOf(c)) else None
  }

  /** A text that does not parse stands for the epoch. */
  function ParseTime(s: string): int {
    match ParseRfc3339(s) case None => 0 case Some(t) => t
  }

  predicate InRange(t: int) { 0 <= YearOf(t) <= 9999 }

  // ---------------------------------------------------------------- reprinting

  lemma Units(nano: int)
    requires 0 <= nano < NANOS
    ensures nano > 0 ==> 0 <= nano / Unit(nano) < Pow10(FractionWidth(nano)) && FractionWidth(nano) > 0
    ensures nano > 0 ==> Nanoseconds(nano / Unit(nano), FractionWidth(nano)) == nano
  {
    Timestamps.PowersOfTen();
    assert Pow10(0) == 1;
  }

  lemma FieldsFit(c: Civil)
    requires Valid(c) && 0 <= c.year <= 9999
    ensures Fit(FieldsOf(c, 4))
    ensures Layout(FieldsOf(c, 4)) == if c.nano == 0 then HeadLayout('Z') else HeadLayout('.') + [(FractionWidth(c.nano), 'Z')]
    ensures var v := Values(FieldsOf(c, 4));
      v == [c.year, c.month, c.day, c.hour, c.minute, c.second] + (if c.nano == 0 then [] else [c.nano / Unit(c.nano)])
  {
    hide IsLeap, Unit, FractionWidth;
    Timestamps.PowersOfTen();
    Units(c.nano);
  }

  /** Date and time in fixed columns, then the point or the closing Z, and where the fraction ends. */
  lemma PointAt(c: Civil)
    requires Valid(c) && 0 <= c.year <= 9999
    ensures var s, w := Render(FieldsOf(c, 4), 0), FractionWidth(c.nano);
      && OpensWithTime(s, c.year, c.month, c.day, c.hour, c.minute, c.second)
      && if c.nano == 0 then |s| == 20 && s[19] == 'Z'
         else w > 0 && |s| == 21 + w && s[19] == '.' && DigitRun(s, 20) == 20 + w && s[20 + w] == 'Z' && Number(s[20..20 + w]) * Unit(c.nano) == c.nano
  {
    Ranges(c);
    Units(c.nano);
    UnitDivides(c.nano);
    FieldsFit(c);
    FieldShapes(c);
    hide IsLeap, Unit, FractionWidth, Valid, Render, DigitRun, OpensWithTime, Fit, FieldsOf, Number, Pow10;
    var fs := FieldsOf(c, 4);
    RenderOpensWithTime(fs);
    RenderEnds(fs);
    if c.nano != 0 { FractionAt(fs, Render(fs, 0)); }
  }

  lemma FieldShapes(c: Civil)
    requires 0 <= c.year
    ensures var fs := FieldsOf(c, 4);
      && |fs| == (if c.nano == 0 then 6 else 7) && fs[5] == Field(c.second, 2, if c.nano == 0 then 'Z' else '.')
      && fs[0] == Field(c.year, 4, '-') && fs[1] == Field(c.month, 2, '-') && fs[2] == Field(c.day, 2, 'T')
      && fs[3] == Field(c.hour, 2, ':') && fs[4] == Field(c.minute, 2, ':')
      && (c.nano != 0 ==> fs[6] == Field(c.nano / Unit(c.nano), FractionWidth(c.nano), 'Z'))
  {
    hide Unit, FractionWidth;
  }

  /** A last field from character 20 on. */
  lemma FractionAt(fs: seq<Field>, s: string)
    requires |fs| == 7 && |s| >= 20 && s[20..] == Render(fs, 6) && fs[6].end == 'Z' && 0 <= fs[6].value < Pow10(fs[6].width)
    ensures var w := fs[6].width;
      |s| == 21 + w && DigitRun(s, 20) == 20 + w && s[20 + w] == 'Z' && Number(s[20..20 + w]) == fs[6].value
  {
    hide Number, Pow10;
    DropsTo(fs, s, 20, 6);
    RenderEnds(fs);
    RunOfDigits(s, 20, 20 + fs[6].width);
  }

  lemma UnitDivides(nano: int)
    requires 0 <= nano < NANOS
    ensures nano > 0 ==> nano / Unit(nano) * Unit(nano) == nano
  {}

  /**
   * In years 0 to 9999: a whole second has no fraction, and any other instant the fewest decimals, three, six or nine, that
   * tell it.
   */
  lemma FormatIsSpelled(t: int)
    requires InRange(t)
    ensures var s, c := Format(t), CivilOf(t);
      && OpensWithTime(s, c.year, c.month, c.day, c.hour, c.minute, c.second) && s[|s| - 1] == 'Z'
      && (if c.nano == 0 then |s| == 20
          else s[19] == '.' && if c.nano % 1_000_000 == 0 then |s| == 24 && Number(s[20..23]) * 1_000_000 == c.nano
                               else if c.nano % 1_000 == 0 then |s| == 27 && Number(s[20..26]) * 1_000 == c.nano
                               else |s| == 30 && Number(s[20..29]) == c.nano)
  {
    hide CivilOf, Valid, FieldsOf, Render, DigitRun, Number, OpensWithTime;
    var c := CivilOf(t);
    CivilOfIsValid(t);
    Ranges(c);
    PointAt(c);
  }

  /** Years outside 0 to 9999 carry a sign, and at least four digits; the rest is printed as in any other year. */
  lemma WideYearIsSpelled(t: int, u: int)
    requires !InRange(t) && InRange(u) && CivilOf(u) == CivilOf(t).(year := YearOf(u))
    ensures var s, y := Format(t), YearOf(t);
      var w := Timestamps.YearWidth(if y < 0 then -y else y);
      && w >= 4 && |s| > 1 + w && s[0] == (if y < 0 then '-' else '+')
      && Number(s[1..1 + w]) == (if y < 0 then -y else y) && |Format(u)| > 4 && s[1 + w..] == Format(u)[4..]
  {
    hide CivilOf, Number, Width, FieldsOf, Render, Pow10;
    var c, d := CivilOf(t), CivilOf(u);
    var y := if c.year < 0 then -c.year else c.year;
    var w := Timestamps.YearWidth(y);
    YearFits(y);
    YearFits(d.year);
    SameAfterYear(c, d, w);
    YearsApart(FieldsOf(c, w), FieldsOf(d, 4));
    Signed(if y == c.year then '+' else '-', Render(FieldsOf(c, w), 0), w);
  }

  lemma Signed(sign: char, r: string, w: nat)
    requires w <= |r|
    ensures var s := [sign] + r; s[0] == sign && s[1..1 + w] == r[..w] && s[1 + w..] == r[w..]
  {}

  lemma YearFits(y: nat)
    ensures y < Pow10(Timestamps.YearWidth(y)) && Timestamps.YearWidth(y) >= 4
  {
    WidthFits(y);
    Timestamps.WideYears(y);
    Timestamps.PowersOfTen();
  }

  /** Two dates that differ in the year only have the same fields after the year. */
  lemma SameAfterYear(c: Civil, d: Civil, w: nat)
    requires d == c.(year := d.year) && d.year >= 0
    ensures var fs, gs, y := FieldsOf(c, w), FieldsOf(d, 4), if c.year < 0 then -c.year else c.year;
      |fs| == |gs| >= 6 && fs[1..] == gs[1..] && fs[0] == Field(y, w, '-') && gs[0] == Field(d.year, 4, '-')
  {
    hide Unit, FractionWidth;
  }

  lemma YearsApart(fs: seq<Field>, gs: seq<Field>)
    requires |fs| == |gs| >= 1 && fs[1..] == gs[1..] && fs[0].end == gs[0].end && 0 <= fs[0].value < Pow10(fs[0].width)
    ensures var r, q, v, w := Render(fs, 0), Render(gs, 0), fs[0].width, gs[0].width;
      |r| > v && |q| > w && Number(r[..v]) == fs[0].value && r[v..] == q[w..]
  {
    hide Number, Pow10, Render;
    FirstField(fs);
    FirstField(gs);
    SameRest(fs, gs, 1);
  }

  lemma FirstField(fs: seq<Field>)
    requires fs != []
    ensures var r, v := Render(fs, 0), fs[0].width;
      |r| > v && r[v..] == [fs[0].end] + Render(fs, 1) && (0 <= fs[0].value < Pow10(v) ==> Number(r[..v]) == fs[0].value)
  {
    hide Number, Pow10;
    var d, v := Digits(fs[0].value, fs[0].width), fs[0].width;
    DigitsAreDigits(fs[0].value, v);
    if 0 <= fs[0].value < Pow10(v) { NumberOfDigits(fs[0].value, v); }
    hide Digits;
    assert Render(fs, 0) == d + ([fs[0].end] + Render(fs, 1));
  }

  lemma {:induction false} SameRest(fs: seq<Field>, gs: seq<Field>, i: nat)
    requires |fs| == |gs| && 1 <= i <= |fs| && fs[1..] == gs[1..]
    ensures Render(fs, i) == Render(gs, i)
    decreases |fs| - i
  {
    if i < |fs| {
      assert fs[i] == fs[1..][i - 1] == gs[1..][i - 1] == gs[i];
      SameRest(fs, gs, i + 1);
    }
  }

  lemma {:induction false} PowersMultiply(a: nat, b: nat)
    ensures Pow10(a) * Pow10(b) == Pow10(a + b)
  {
    if a > 0 {
      PowersMultiply(a - 1, b);
      assert Pow10(a) * Pow10(b) == 10 * (Pow10(a - 1) * Pow10(b));
    }
  }

  /** A fraction of k digits counts its whole nanoseconds. */
  lemma NanosecondsRoundDown(fraction: nat, k: nat)
    ensures var n := Nanoseconds(fraction, k);
      n * Pow10(k) <= fraction * Pow10(9) < (n + 1) * Pow10(k)
  {
    hide Pow10;
    if k <= 9 {
      PowersMultiply(9 - k, k);
      FewDigits(fraction, Pow10(9 - k), Pow10(k));
    } else {
      PowersMultiply(k - 9, 9);
      ManyDigits(fraction, Pow10(k - 9), Pow10(9));
    }
  }

  lemma FewDigits(f: nat, a: nat, b: nat)
    requires b >= 1
    ensures f * a * b <= f * (a * b) < (f * a + 1) * b
  {
    assert f * a * b == f * (a * b);
    assert (f * a + 1) * b == f * a * b + b;
  }

  lemma ManyDigits(f: nat, p: nat, q: nat)
    requires p >= 1 && q >= 1
    ensures f / p * (p * q) <= f * q < (f / p + 1) * (p * q)
  {
    var n := f / p;
    Division(f, p);
    Scale(q, p * n, f);
    Scale(q, f + 1, p * n + p);
    assert q * (p * n) == n * (p * q);
    assert q * (p * n + p) == (n + 1) * (p * q) && q * (f + 1) == f * q + q;
  }

  lemma ParseFormat(t: int)
    requires InRange(t)
    ensures ParseRfc3339(Format(t)) == Some(t)
  {
    hide CivilOf, InstantOf, Valid, FieldsOf, Render, Read, Unit, FractionWidth, Nanoseconds, HeadLayout;
    var c := CivilOf(t);
    CivilOfIsValid(t);
    Ranges(c);
    FieldsFit(c);
    PointAt(c);
    Units(c.nano);
    ReadRender(FieldsOf(c, 4), 0);
    assert Values(FieldsOf(c, 4))[0..] == Values(FieldsOf(c, 4));
  }

  lemma Ranges(c: Civil)
    requires Valid(c)
    ensures 0 <= c.nano < NANOS
  {}

  lemma SignedTextIsNotRead(t: int)
    requires !InRange(t)
    ensures ParseRfc3339(Format(t)) == None
  {
    hide CivilOf, InstantOf, Valid, FieldsOf, Render;
    var s := Format(t);
    assert s != "" && !IsDigit(s[0]);
    assert |s| > 4 ==> s[..4][0] == s[0] && DigitRun(s[..4], 0) == 0;
  }

  /** Parsing inverts printing, and reprinting gives the same text, exactly for years 0 to 9999. */
  lemma Reprint(t: int)
    ensures InRange(t) ==> ParseTime(Format(t)) == t
    ensures Format(ParseTime(Format(t))) == Format(t) <==> InRange(t)
  {
    hide CivilOf, ParseRfc3339;
    if InRange(t) {
      ParseFormat(t);
    } else {
      SignedTextIsNotRead(t);
      EpochOpens(ParseTime(Format(t)));
      hide FieldsOf, Render;
      assert Format(t)[0] == '+' || Format(t)[0] == '-';
    }
  }

  lemma EpochOpens(t: int)
    requires t == 0
    ensures Format(t) != "" && Format(t)[0] != '+' && Format(t)[0] != '-'
  {
    hide CivilOf, Render;
    EpochYear(1970, t);
    var s, fs := Format(t), FieldsOf(CivilOf(t), 4);
    assert s == Render(fs, 0) && fs[0].width == 4;
    hide Format, FieldsOf;
    assert s[0..] == s;
    DropsTo(fs, s, 0, 0);
    assert IsDigit(s[0]);
  }

  lemma EpochYear(y: int, t: int)
    requires y == 1970 && t == 0
    ensures YearOf(t) == y
  {
    hide DayNumber, CivilOf, InstantOf;
    var c := Civil(y, 1, 1, 0, 0, 0, 0);
    EpochDay(y);
    Midnight(c);
    CivilOfInverts(c);
  }

  lemma EpochDay(y: int)
    requires y == 1970
    ensures DayNumber(y, 1, 1) == EPOCH_DAY
  {}

  lemma Midnight(c: Civil)
    requires DayNumber(c.year, c.month, c.day) == EPOCH_DAY && c.hour == c.minute == c.second == c.nano == 0
    ensures InstantOf(c) == 0
  {
    hide DayNumber;
  }

  // ---------------------------------------------------------------- order

  /** What follows the digits of the second. */
  function Tail(nano: int): string {
    if nano == 0 then "Z" else "." + Digits(nano / Unit(nano), FractionWidth(nano)) + "Z"
  }

  /** Year to second, closed by a blank. */
  function Head(c: Civil): seq<Field> {
    [Field(c.year, 4, '-'), Field(c.month, 2, '-'), Field(c.day, 2, 'T'), Field(c.hour, 2, ':'), Field(c.minute, 2, ':'),
     Field(c.second, 2, ' ')]
  }

  /** The leading v digits are those of the truncated number. */
  lemma {:induction false} DigitsSplit(n: int, v: nat, w: nat)
    requires n >= 0
    ensures Digits(n, v + w) == Digits(n / Pow10(w), v) + Digits(n, w)
    decreases w
  {
    if w > 0 {
      DigitsSplit(n / 10, v, w - 1);
      DivTwice(n, 10, Pow10(w - 1));
    }
  }

  /** A shorter fraction against a longer one: the digits decide, and on a tie the longer text comes first. */
  lemma TailsOfTwoWidths(a: int, v: nat, b: int, w: nat)
    requires 0 <= a < Pow10(v) && 0 <= b && b / Pow10(w) < Pow10(v) && w > 0
    ensures Less(Digits(a, v) + "Z", Digits(b, v + w) + "Z") <==> a < b / Pow10(w)
    ensures Less(Digits(b, v + w) + "Z", Digits(a, v) + "Z") <==> b / Pow10(w) <= a
  {
    hide Pow10, Digits, Less;
    DigitsSplit(b, v, w);
    var p, q, r := Digits(a, v), Digits(b / Pow10(w), v), Digits(b, w);
    DigitsAreDigits(a, v);
    DigitsAreDigits(b / Pow10(w), v);
    DigitsAreDigits(b, w);
    DigitsOrder(a, b / Pow10(w), v);
    DigitsOrder(b / Pow10(w), a, v);
    assert q + r + "Z" == q + (r + "Z");
    LessByField(p, q, "Z", r + "Z");
    LessByField(q, p, r + "Z", "Z");
    ZIsLast(r);
  }

  lemma ZIsLast(r: string)
    requires r != "" && IsDigit(r[0])
    ensures Less(r + "Z", "Z") && !Less("Z", r + "Z")
  {}

  lemma WidthsAndUnits(n: int, m: int)
    requires 0 < n < NANOS && 0 < m < NANOS
    ensures var v, w := FractionWidth(n), FractionWidth(m);
      && n % Unit(n) == 0 && Pow10(v) * Unit(n) == NANOS
      && (v == w ==> Unit(m) == Unit(n))
      && (v < w ==> Unit(m) * Pow10(w - v) == Unit(n) && n % Unit(m) == 0)
  {
    Timestamps.PowersOfTen();
    hide Pow10;
  }

  /** Fractions of two widths, compared at the precision of the first. */
  lemma UnitsCompare(n: int, m: int)
    requires 0 < n < m < NANOS
    ensures var v, w, a, b := FractionWidth(n), FractionWidth(m), n / Unit(n), m / Unit(m);
      && (v == w ==> (a < b <==> m >= n + Unit(n)))
      && (v < w ==> b / Pow10(w - v) < Pow10(v) && (a < b / Pow10(w - v) <==> m >= n + Unit(n)))
      && (w < v ==> a / Pow10(v - w) < Pow10(w) && (a / Pow10(v - w) <= b <==> m >= n + Unit(n)))
  {
    hide Pow10, Unit, FractionWidth;
    var v, w := FractionWidth(n), FractionWidth(m);
    WidthsAndUnits(n, m);
    WidthsAndUnits(m, n);
    QuotientGap(n, m, Unit(n));
    if v < w {
      DivTwice(m, Unit(m), Pow10(w - v));
      QuotientBelow(m, Unit(n), Pow10(v));
    } else if w < v {
      DivTwice(n, Unit(n), Pow10(v - w));
      QuotientBelow(n, Unit(m), Pow10(w));
      QuotientGap(m, n, Unit(m));
      MultiplesApart(n, m, Unit(n));
    }
  }

  lemma TailOpens(nano: int)
    ensures Tail(nano) != "" && Tail(nano)[0] == if nano == 0 then 'Z' else '.'
    ensures nano != 0 ==> !Less("Z", Tail(nano))
    ensures nano == 0 ==> Tail(nano) == "Z" && Unit(nano) == NANOS
    ensures Less("Z", "Z") == false
  {}

  /** Inside one second, the text order of two fractions is their order unless the first is printed too coarsely. */
  lemma TailOrder(n: int, m: int)
    requires 0 <= n < m < NANOS
    ensures Less(Tail(n), Tail(m)) <==> m >= n + Unit(n)
  {
    hide Pow10, Digits, Unit, FractionWidth;
    TailOpens(n);
    TailOpens(m);
    OneCharLess('.', '.');
    hide Less;
    var v, w := FractionWidth(n), FractionWidth(m);
    var a, b := n / Unit(n), m / Unit(m);
    Units(n);
    Units(m);
    if n > 0 {
      UnitsCompare(n, m);
      var x, y := Digits(a, v) + "Z", Digits(b, w) + "Z";
      assert Tail(n) == "." + x && Tail(m) == "." + y;
      LessByField(".", ".", x, y);
      if v == w {
        DigitsOrder(a, b, v);
        DigitsAreDigits(a, v);
        DigitsAreDigits(b, v);
        LessByField(Digits(a, v), Digits(b, v), "Z", "Z");
        OneCharLess('Z', 'Z');
      } else if v < w {
        TailsOfTwoWidths(a, v, b, w - v);
      } else {
        TailsOfTwoWidths(b, w, a, v - w);
      }
    }
  }

  /** The text of fields i to n. */
  function Upto(fs: seq<Field>, i: nat, n: nat): string
    requires i <= n <= |fs|
    decreases n - i
  {
    if i == n then "" else Digits(fs[i].value, fs[i].width) + [fs[i].end] + Upto(fs, i + 1, n)
  }

  lemma {:induction false} UptoThen(fs: seq<Field>, gs: seq<Field>, i: nat, n: nat)
    requires i <= n <= |fs| && n <= |gs|
    requires forall k :: i <= k < n ==> fs[k] == gs[k]
    ensures Render(fs, i) == Upto(gs, i, n) + Render(fs, n)
    decreases n - i
  {
    if i < n { UptoThen(fs, gs, i + 1, n); }
  }

  /** Year to second, as printed. */
  function Stem(c: Civil): string { Upto(Head(c), 0, 5) + Digits(c.second, 2) }

  lemma StemAndTail(c: Civil)
    ensures c.year >= 0 ==> Render(FieldsOf(c, 4), 0) == Stem(c) + Tail(c.nano)
    ensures Render(Head(c), 0) == Stem(c) + " "
  {
    hide Unit, FractionWidth, Digits;
    UptoThen(Head(c), Head(c), 0, 5);
    assert Render(Head(c), 6) == "";
    assert Render(Head(c), 5) == Digits(c.second, 2) + " ";
    if c.year >= 0 {
      UptoThen(FieldsOf(c, 4), Head(c), 0, 5);
      LastFields(FieldsOf(c, 4), c.second, c.nano);
      assert Upto(Head(c), 0, 5) + (Digits(c.second, 2) + Tail(c.nano)) == Stem(c) + Tail(c.nano);
    }
  }

  lemma LastFields(fs: seq<Field>, second: int, nano: int)
    requires |fs| == (if nano == 0 then 6 else 7) && fs[5] == Field(second, 2, if nano == 0 then 'Z' else '.')
    requires nano != 0 ==> fs[6] == Field(nano / Unit(nano), FractionWidth(nano), 'Z')
    ensures Render(fs, 5) == Digits(second, 2) + Tail(nano)
  {
    hide Unit, FractionWidth, Digits;
    assert Render(fs, |fs|) == "";
    if nano != 0 {
      assert Render(fs, 6) == Digits(nano / Unit(nano), FractionWidth(nano)) + "Z";
    } else {
      assert ['Z'] + "" == "Z";
    }
  }

  /** Stems sort as whole seconds. */
  lemma StemOrder(t: int, u: int)
    requires InRange(t) && InRange(u)
    ensures |Stem(CivilOf(t))| == |Stem(CivilOf(u))|
    ensures Less(Stem(CivilOf(t)), Stem(CivilOf(u))) <==> t / NANOS < u / NANOS
    ensures Stem(CivilOf(t)) == Stem(CivilOf(u)) <==> t / NANOS == u / NANOS
  {
    hide CivilOf, Stem, Render, Valid, Head;
    var c, d := CivilOf(t), CivilOf(u);
    CivilOfIsValid(t);
    CivilOfIsValid(u);
    HeadFits(c);
    HeadFits(d);
    RenderOrder(Head(c), Head(d), 0);
    StemAndTail(c);
    StemAndTail(d);
    LessByField(Stem(c), Stem(d), " ", " ");
    OneCharLess(' ', ' ');
    assert |Stem(c)| == |Stem(d)|;
    assert (Stem(c) + " ")[..|Stem(c)|] == Stem(c) && (Stem(d) + " ")[..|Stem(d)|] == Stem(d);
    WholeSeconds(t);
    WholeSeconds(u);
    HeadOrder(c, d);
    InstantOrder(c.(nano := 0), d.(nano := 0));
  }

  lemma HeadFits(c: Civil)
    requires Valid(c) && 0 <= c.year <= 9999
    ensures Fit(Head(c)) && Layout(Head(c)) == HeadLayout(' ') && |Head(c)| == 6
  {
    hide IsLeap;
    Timestamps.PowersOfTen();
  }

  lemma WholeSeconds(t: int)
    ensures var c := CivilOf(t).(nano := 0); Valid(c) && InstantOf(c) == t / NANOS * NANOS
  {
    hide CivilOf, DayNumber;
    CivilOfIsValid(t);
    assert CivilOf(t).nano == t % NANOS by { NanoOf(t); }
  }

  lemma HeadOrder(c: Civil, d: Civil)
    ensures ValuesLess(Values(Head(c)), Values(Head(d)), 0) <==> Earlier(c.(nano := 0), d.(nano := 0))
    ensures (forall k :: 0 <= k < 6 ==> Head(c)[k].value == Head(d)[k].value) <==> c.(nano := 0) == d.(nano := 0)
  {
    var v, w := Values(Head(c)), Values(Head(d));
    assert ValuesLess(v, w, 5) <==> c.second < d.second;
    assert ValuesLess(v, w, 4) <==> (c.minute < d.minute || (c.minute == d.minute && c.second < d.second));
    assert ValuesLess(v, w, 2) <==>
      (c.day < d.day || (c.day == d.day && (c.hour < d.hour || (c.hour == d.hour && ValuesLess(v, w, 4)))));
    if forall k :: 0 <= k < 6 ==> Head(c)[k].value == Head(d)[k].value {
      var f, g := Head(c), Head(d);
      assert f[0].value == g[0].value && f[1].value == g[1].value && f[2].value == g[2].value
          && f[3].value == g[3].value && f[4].value == g[4].value && f[5].value == g[5].value;
    }
  }

  /** The precision of an instant's text. */
  function Precision(t: int): int { Unit(t % NANOS) }

  /**
   * Text order of an earlier and a later instant is right exactly when the later one is at least one unit of the
   * earlier one's printed precision away; within that unit the earlier text sorts last.
   */
  lemma TextOrderIsChronological(t: int, u: int)
    requires InRange(t) && InRange(u) && t < u
    ensures Less(Format(t), Format(u)) <==> u >= t + Precision(t)
  {
    hide CivilOf, Stem, Tail, Render, FieldsOf, Unit;
    var c, d := CivilOf(t), CivilOf(u);
    StemAndTail(c);
    StemAndTail(d);
    StemOrder(t, u);
    NanoOf(t);
    NanoOf(u);
    LessByField(Stem(c), Stem(d), Tail(c.nano), Tail(d.nano));
    if t / NANOS == u / NANOS {
      TailOrder(t % NANOS, u % NANOS);
    } else {
      UnitsDivideSeconds(t);
    }
  }

  /** For any two instants: the later one's text comes first if it lies within a unit of the earlier one's precision. */
  lemma TextOrder(t: int, u: int)
    requires InRange(t) && InRange(u)
    ensures Less(Format(t), Format(u)) <==> if t < u then t + Precision(t) <= u else u < t < u + Precision(u)
  {
    hide Format, Less, Precision, InRange;
    if t < u {
      TextOrderIsChronological(t, u);
    } else {
      if u < t {
        TextOrderIsChronological(u, t);
        if Format(t) == Format(u) {
          Reprint(t);
          Reprint(u);
        }
      }
      LessTrichotomy(Format(t), Format(u));
    }
  }

  lemma UnitsDivideSeconds(t: int)
    ensures t + Precision(t) <= (t / NANOS + 1) * NANOS
  {}
}
