/** The timestamps of the Python backend: ISO 8601 in UTC with six decimals and a trailing 'Z', from a datetime. */
module PythonTime {
  import opened Text
  import opened Calendar
  import opened Fields
  import opened Quotients
  import Timestamps

  /** A datetime counts microseconds since the epoch; the calendar counts nanoseconds. */
  function Nanos(t: int): int { 1000 * t }

  /** datetime.min to datetime.max. */
  predicate IsDatetime(t: int) { Timestamps.InRange(Nanos(t)) }

  function FieldsOf(c: Civil): seq<Field> {
    [Field(c.year, 4, '-'), Field(c.month, 2, '-'), Field(c.day, 2, 'T'), Field(c.hour, 2, ':'),
     Field(c.minute, 2, ':'), Field(c.second, 2, '.'), Field(c.nano / 1000, 6, 'Z')]
  }

  function ToIso(t: int): string { Render(FieldsOf(CivilOf(Nanos(t))), 0) }

  const LAYOUT: seq<(nat, char)> := [(4, '-'), (2, '-'), (2, 'T'), (2, ':'), (2, ':'), (2, '.'), (6, 'Z')]

  /** Reads the texts `ToIso` writes. */
  function FromIso(s: string): Option<int> {
    match Read(s, LAYOUT, 0)
    case None => None
    case Some(v) =>
      var c := Civil(v[0], v[1], v[2], v[3], v[4], v[5], 1000 * v[6]);
      if Valid(c) && c.year >= 1 then Some(InstantOf(c) / 1000) else None
  }

  lemma FieldsFit(t: int)
    requires IsDatetime(t)
    ensures var fs, c := FieldsOf(CivilOf(Nanos(t))), CivilOf(Nanos(t));
      && Fit(fs) && Layout(fs) == LAYOUT && Valid(c) && c.nano % 1000 == 0 && InstantOf(c) == Nanos(t)
      && Values(fs) == [c.year, c.month, c.day, c.hour, c.minute, c.second, c.nano / 1000]
  {
    hide IsLeap, FindYear, FindMonth, DayNumber;
    CivilOfIsValid(Nanos(t));
    Timestamps.PowersOfTen();
    WholeMicros(t);
  }

  lemma WholeMicros(t: int)
    ensures CivilOf(Nanos(t)).nano % 1000 == 0
  {
    NanoOf(Nanos(t));
    hide CivilOf;
    var q := Nanos(t) / NANOS;
    Division(Nanos(t), NANOS);
    QuotientIs(Nanos(t) % NANOS, 1000, t - 1000000 * q, 0);
  }

  /** Date and time in fixed columns, six decimals after a point, and a Z for UTC. */
  lemma IsoIsSpelled(t: int)
    requires IsDatetime(t)
    ensures var s, c := ToIso(t), CivilOf(1000 * t);
      && |s| == 27 && OpensWithTime(s, c.year, c.month, c.day, c.hour, c.minute, c.second)
      && s[19] == '.' && 1000 * Number(s[20..26]) == c.nano && s[26] == 'Z' && forall k :: 20 <= k < 26 ==> IsDigit(s[k])
  {
    hide CivilOf, Valid, Render, Number;
    var fs := FieldsOf(CivilOf(Nanos(t)));
    var s := Render(fs, 0);
    FieldsFit(t);
    RenderOpensWithTime(fs);
    DropsTo(fs, s, 20, 6);
    RenderEnds(fs);
  }

  /** Reading gives back every datetime written. */
  lemma IsoRoundTrip(t: int)
    requires IsDatetime(t)
    ensures FromIso(ToIso(t)) == Some(t)
  {
    hide CivilOf, FieldsOf, Render, Read, Valid, InstantOf;
    FieldsFit(t);
    var fs := FieldsOf(CivilOf(Nanos(t)));
    ReadRender(fs, 0);
    assert Values(fs)[0..] == Values(fs);
  }

  /** The text order the sweep compares by is chronological order. */
  lemma IsoOrder(t: int, u: int)
    requires IsDatetime(t) && IsDatetime(u)
    ensures Less(ToIso(t), ToIso(u)) <==> t < u
  {
    hide CivilOf, FieldsOf, Render, Earlier, ValuesLess, InstantOf, Valid;
    var c, d := CivilOf(Nanos(t)), CivilOf(Nanos(u));
    FieldsFit(t);
    FieldsFit(u);
    RenderOrder(FieldsOf(c), FieldsOf(d), 0);
    MicrosOrder(Values(FieldsOf(c)), Values(FieldsOf(d)), c, d);
    ChronologicalOrder(Nanos(t), Nanos(u));
  }

  lemma MicrosOrder(v: seq<int>, w: seq<int>, c: Civil, d: Civil)
    requires v == [c.year, c.month, c.day, c.hour, c.minute, c.second, c.nano / 1000]
    requires w == [d.year, d.month, d.day, d.hour, d.minute, d.second, d.nano / 1000]
    requires c.nano % 1000 == 0 && d.nano % 1000 == 0
    ensures ValuesLess(v, w, 0) <==> Earlier(c, d)
  {
    assert ValuesLess(v, w, 6) <==> c.nano < d.nano;
    assert ValuesLess(v, w, 4) <==>
      (c.minute < d.minute || (c.minute == d.minute && (c.second < d.second || (c.second == d.second && ValuesLess(v, w, 6)))));
    assert ValuesLess(v, w, 2) <==>
      (c.day < d.day || (c.day == d.day && (c.hour < d.hour || (c.hour == d.hour && ValuesLess(v, w, 4)))));
  }
}
