/** Zero-padded decimal fields, each closed by one character: the shape of every stored timestamp. */
module Fields {
  import opened Text

  /** A number printed with `width` digits, then `end`. */
  datatype Field = Field(value: int, width: nat, end: char)

  function Pow10(w: nat): (p: nat)
    ensures p >= 1
  {
    if w == 0 then 1 else 10 * Pow10(w - 1)
  }

  function Digit(n: int): char { (('0' as int) + n % 10) as char }

  function Digits(n: int, w: nat): string
    decreases w
  {
    if w == 0 then "" else Digits(n / 10, w - 1) + [Digit(n)]
  }

  predicate IsDigit(c: char) { '0' <= c <= '9' }

  lemma DigitsAre(c: char)
    ensures IsDigit(c) <==> c in "0123456789"
  {}

  function DigitRun(s: string, i: nat): (end: nat)
    requires i <= |s|
    ensures i <= end <= |s|
    decreases |s| - i
  {
    if i < |s| && IsDigit(s[i]) then DigitRun(s, i + 1) else i
  }

  /** The number of digits of n. */
  function Width(n: int): (w: nat)
    requires n >= 0
  {
    if n < 10 then 1 else 1 + Width(n / 10)
  }

  function Number(s: string): int {
    if s == "" then 0 else 10 * Number(s[..|s| - 1]) + (s[|s| - 1] as int - '0' as int)
  }

  /** The text of the fields from the i-th on. */
  function Render(fs: seq<Field>, i: nat): string
    requires i <= |fs|
    decreases |fs| - i
  {
    if i == |fs| then "" else Digits(fs[i].value, fs[i].width) + [fs[i].end] + Render(fs, i + 1)
  }

  /** Reads fields of the given widths and closing characters, from the i-th on, consuming the whole text. */
  function Read(s: string, layout: seq<(nat, char)>, i: nat): (r: Option<seq<int>>)
    requires i <= |layout|
    ensures r.Some? ==> |r.value| == |layout| - i
    decreases |layout| - i
  {
    if i == |layout| then (if s == "" then Some([]) else None)
    else
      var (w, end) := layout[i];
      if |s| <= w || DigitRun(s[..w], 0) != w || s[w] != end then None
      else
        match Read(s[w + 1..], layout, i + 1)
        case None => None
        case Some(rest) => Some([Number(s[..w])] + rest)
  }

  function Layout(fs: seq<Field>): seq<(nat, char)> {
    seq(|fs|, i requires 0 <= i < |fs| => (fs[i].width, fs[i].end))
  }

  function Values(fs: seq<Field>): seq<int> {
    seq(|fs|, i requires 0 <= i < |fs| => fs[i].value)
  }

  /** Every value fits its width. */
  predicate Fit(fs: seq<Field>) { forall i :: 0 <= i < |fs| ==> 0 <= fs[i].value < Pow10(fs[i].width) }

  /** Lexicographic order on equally long number lists, from the i-th number on. */
  predicate ValuesLess(a: seq<int>, b: seq<int>, i: nat)
    requires i <= |a| == |b|
    decreases |a| - i
  {
    i < |a| && (a[i] < b[i] || (a[i] == b[i] && ValuesLess(a, b, i + 1)))
  }

  lemma {:induction false} DigitsAreDigits(n: int, w: nat)
    ensures |Digits(n, w)| == w
    ensures forall i :: 0 <= i < w ==> IsDigit(Digits(n, w)[i])
    decreases w
  {
    if w > 0 { DigitsAreDigits(n / 10, w - 1); }
  }

  lemma {:induction false} RunOfDigits(s: string, i: nat, end: nat)
    requires i <= end <= |s| && (end == |s| || !IsDigit(s[end]))
    requires forall k :: i <= k < end ==> IsDigit(s[k])
    ensures DigitRun(s, i) == end
    decreases end - i
  {
    if i < end { RunOfDigits(s, i + 1, end); }
  }

  lemma {:induction false} NumberOfDigits(n: int, w: nat)
    requires 0 <= n < Pow10(w)
    ensures Number(Digits(n, w)) == n
    decreases w
  {
    if w > 0 {
      NumberOfDigits(n / 10, w - 1);
      assert Digits(n, w)[..|Digits(n, w)| - 1] == Digits(n / 10, w - 1);
    }
  }

  /** Equally wide numbers sort as text exactly as they sort as numbers. */
  lemma {:induction false} DigitsOrder(a: int, b: int, w: nat)
    requires 0 <= a < Pow10(w) && 0 <= b < Pow10(w)
    ensures Less(Digits(a, w), Digits(b, w)) <==> a < b
    ensures Digits(a, w) == Digits(b, w) <==> a == b
    decreases w
  {
    if w > 0 {
      DigitsOrder(a / 10, b / 10, w - 1);
      DigitsAreDigits(a / 10, w - 1);
      DigitsAreDigits(b / 10, w - 1);
      LessByField(Digits(a / 10, w - 1), Digits(b / 10, w - 1), [Digit(a)], [Digit(b)]);
      OneCharLess(Digit(a), Digit(b));
    }
    NumberOfDigits(a, w);
    NumberOfDigits(b, w);
  }

  lemma OneCharLess(c: char, d: char)
    ensures Less([c], [d]) <==> c < d
  {}

  lemma {:induction false} WidthFits(n: int)
    requires n >= 0
    ensures n < Pow10(Width(n)) && (n >= 1 ==> Pow10(Width(n) - 1) <= n)
  {
    if n >= 10 { WidthFits(n / 10); }
  }

  lemma {:induction false} ReadRender(fs: seq<Field>, i: nat)
    requires Fit(fs) && i <= |fs|
    ensures Read(Render(fs, i), Layout(fs), i) == Some(Values(fs)[i..])
    decreases |fs| - i
  {
    hide Digits, Number, DigitRun, Pow10, IsDigit;
    if i < |fs| {
      var f, s := fs[i], Render(fs, i);
      var d := Digits(f.value, f.width);
      DigitsAreDigits(f.value, f.width);
      NumberOfDigits(f.value, f.width);
      assert s[..f.width] == d && s[f.width] == f.end && s[f.width + 1..] == Render(fs, i + 1);
      RunOfDigits(d, 0, f.width);
      ReadRender(fs, i + 1);
      assert Values(fs)[i..] == [f.value] + Values(fs)[i + 1..];
    }
  }

  /** If the text from n on is that of the fields from i on, field i is printed there and field i + 1 follows. */
  lemma DropsTo(fs: seq<Field>, s: string, n: nat, i: nat)
    requires i < |fs| && n <= |s| && s[n..] == Render(fs, i)
    ensures var m := n + fs[i].width;
      && m < |s| && s[m] == fs[i].end && s[m + 1..] == Render(fs, i + 1)
      && (forall k :: n <= k < m ==> IsDigit(s[k]))
      && (0 <= fs[i].value < Pow10(fs[i].width) ==> Number(s[n..m]) == fs[i].value)
  {
    hide Number;
    var d, w := Digits(fs[i].value, fs[i].width), fs[i].width;
    DigitsAreDigits(fs[i].value, w);
    if 0 <= fs[i].value < Pow10(w) { NumberOfDigits(fs[i].value, w); }
    var r := s[n..];
    assert r == d + [fs[i].end] + Render(fs, i + 1);
    assert s[n + w] == r[w] && s[n + w + 1..] == r[w + 1..];
    assert forall k :: n <= k < n + w ==> s[k] == r[k - n] == d[k - n];
    assert s[n..n + w] == d;
  }

  lemma RenderEnds(fs: seq<Field>)
    ensures Render(fs, |fs|) == ""
  {}

  /** The text is a date and a time to the second: yyyy-MM-ddTHH:mm:ss, with numbers in decimal. */
  predicate OpensWithTime(s: string, year: int, month: int, day: int, hour: int, minute: int, second: int) {
    && |s| > 19 && s[4] == '-' && s[7] == '-' && s[10] == 'T' && s[13] == ':' && s[16] == ':'
    && Number(s[..4]) == year && Number(s[5..7]) == month && Number(s[8..10]) == day
    && Number(s[11..13]) == hour && Number(s[14..16]) == minute && Number(s[17..19]) == second
    && forall k :: 0 <= k < 19 && k != 4 && k != 7 && k != 10 && k != 13 && k != 16 ==> IsDigit(s[k])
  }

  lemma RenderOpensWithTime(fs: seq<Field>)
    requires |fs| >= 6 && Fit(fs) && fs[0].width == 4 && forall i :: 1 <= i < 6 ==> fs[i].width == 2
    requires fs[0].end == fs[1].end == '-' && fs[2].end == 'T' && fs[3].end == fs[4].end == ':'
    ensures var s := Render(fs, 0);
      && OpensWithTime(s, fs[0].value, fs[1].value, fs[2].value, fs[3].value, fs[4].value, fs[5].value)
      && |s| >= 20 && s[19] == fs[5].end && s[20..] == Render(fs, 6)
  {
    hide Render, Number;
    var s := Render(fs, 0);
    assert s[0..] == s;
    DropsTo(fs, s, 0, 0);
    assert s[0..4] == s[..4];
    DropsTo(fs, s, 5, 1);
    DropsTo(fs, s, 8, 2);
    DropsTo(fs, s, 11, 3);
    DropsTo(fs, s, 14, 4);
    DropsTo(fs, s, 17, 5);
  }

  /** Texts of one layout sort as the lists of their numbers. */
  lemma {:induction false} RenderOrder(fs: seq<Field>, gs: seq<Field>, i: nat)
    requires Fit(fs) && Fit(gs) && Layout(fs) == Layout(gs) && i <= |fs| == |gs|
    ensures Less(Render(fs, i), Render(gs, i)) <==> ValuesLess(Values(fs), Values(gs), i)
    ensures |Render(fs, i)| == |Render(gs, i)|
    ensures Render(fs, i) == Render(gs, i) <==> (forall k :: i <= k < |fs| ==> fs[k].value == gs[k].value)
    decreases |fs| - i
  {
    if i < |fs| {
      var f, g, a, b := fs[i], gs[i], Render(fs, i + 1), Render(gs, i + 1);
      assert Layout(fs)[i] == Layout(gs)[i];
      RenderOrder(fs, gs, i + 1);
      DigitsOrder(f.value, g.value, f.width);
      DigitsAreDigits(f.value, f.width);
      DigitsAreDigits(g.value, f.width);
      FieldFirst(Digits(f.value, f.width), Digits(g.value, f.width), f.end, a, b);
    }
  }

  lemma FieldFirst(p: string, q: string, end: char, a: string, b: string)
    requires |p| == |q|
    ensures Less(p + [end] + a, q + [end] + b) <==> Less(p, q) || (p == q && Less(a, b))
    ensures p + [end] + a == q + [end] + b <==> p == q && a == b
  {
    var x, y := p + [end] + a, q + [end] + b;
    assert x == p + ([end] + a) && y == q + ([end] + b);
    LessByField(p, q, [end] + a, [end] + b);
    LessByField([end], [end], a, b);
    OneCharLess(end, end);
    if x == y {
      assert x[..|p|] == p && y[..|p|] == q && x[|p| + 1..] == a && y[|p| + 1..] == b;
    }
  }
}
