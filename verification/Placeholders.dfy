/** Rewriting SQL placeholders for PostgreSQL, numbered and unnumbered, and escaping a path for a SQLite file URI. */
module Placeholders {
  import Fields

  predicate StartsWithDigit(s: string) { s != "" && Fields.IsDigit(s[0]) }

  /** Whether an apostrophe before character n has opened a string literal. */
  predicate InString(s: string, n: nat)
    requires n <= |s|
  {
    n > 0 && InString(s, n - 1) != (s[n - 1] == '\'')
  }

  ghost function Apostrophes(s: string, n: nat): set<nat>
    requires n <= |s|
  {
    set k: nat | k < n && s[k] == '\''
  }

  /** A character is inside a literal when an odd number of apostrophes precede it. */
  lemma {:induction false} InStringIsOdd(s: string, n: nat)
    requires n <= |s|
    ensures InString(s, n) <==> |Apostrophes(s, n)| % 2 == 1
  {
    if n > 0 {
      InStringIsOdd(s, n - 1);
      var before := Apostrophes(s, n - 1);
      if s[n - 1] == '\'' {
        assert Apostrophes(s, n) == before + {n - 1};
        assert |before + {n - 1}| == |before| + 1;
      } else {
        assert Apostrophes(s, n) == before;
      }
    }
  }

  /** Character i is a placeholder mark: outside string literals and right before a digit. */
  predicate IsMark(s: string, mark: char, i: nat)
    requires i < |s|
  {
    s[i] == mark && !InString(s, i) && i + 1 < |s| && Fields.IsDigit(s[i + 1])
  }

  // ---------------------------------------------------------------- numbered placeholders

  /** The text with its marks replaced; `quoted` says whether it starts inside a string literal. */
  function Swap(s: string, quoted: bool, mark: char, into: char): (r: string)
    ensures |r| == |s|
  {
    if s == "" then ""
    else if s[0] == '\'' then "'" + Swap(s[1..], !quoted, mark, into)
    else if s[0] == mark && !quoted && StartsWithDigit(s[1..]) then [into] + Swap(s[1..], quoted, mark, into)
    else [s[0]] + Swap(s[1..], quoted, mark, into)
  }

  function ToDollar(sql: string): string { Swap(sql, false, '?', '$') }

  /** Position by position: the marks, and nothing else, are replaced. */
  lemma {:induction false} SwapAt(s: string, n: nat, i: nat, mark: char, into: char)
    requires n <= i < |s| && mark != '\''
    ensures Swap(s[n..], InString(s, n), mark, into)[i - n] == if IsMark(s, mark, i) then into else s[i]
    decreases i - n
  {
    assert s[n..][0] == s[n] && s[n..][1..] == s[n + 1..];
    if n < i { SwapAt(s, n + 1, i, mark, into); }
  }

  lemma SwapEverywhere(s: string, mark: char, into: char)
    requires mark != '\''
    ensures |Swap(s, false, mark, into)| == |s|
    ensures forall i :: 0 <= i < |s| ==> Swap(s, false, mark, into)[i] == if IsMark(s, mark, i) then into else s[i]
  {
    forall i | 0 <= i < |s| ensures Swap(s, false, mark, into)[i] == if IsMark(s, mark, i) then into else s[i] {
      SwapAt(s, 0, i, mark, into);
      assert s[0..] == s;
    }
  }

  lemma {:induction false} SameQuotes(s: string, t: string, n: nat)
    requires |s| == |t| && n <= |s| && forall i :: 0 <= i < |s| ==> (s[i] == '\'' <==> t[i] == '\'')
    ensures InString(s, n) == InString(t, n)
  {
    if n > 0 { SameQuotes(s, t, n - 1); }
  }

  /** Where the marks of a rewritten query are. */
  lemma SwappedMarks(s: string, i: nat)
    requires i < |s|
    ensures var t := ToDollar(s); |t| == |s| && !IsMark(t, '?', i) && (IsMark(t, '$', i) <==> IsMark(s, '?', i) || IsMark(s, '$', i))
  {
    var t := ToDollar(s);
    SwapEverywhere(s, '?', '$');
    SameQuotes(s, t, i);
    hide InString, Swap;
  }

  lemma SamePlaces(s: string, t: string)
    requires |s| == |t| && forall i :: 0 <= i < |s| ==> s[i] == t[i]
    ensures s == t
  {}

  /** A rewritten query is left alone by a second rewriting. */
  lemma RewritingIsIdempotent(s: string)
    ensures ToDollar(ToDollar(s)) == ToDollar(s)
  {
    var t := ToDollar(s);
    SwapEverywhere(t, '?', '$');
    forall i | 0 <= i < |t| ensures ToDollar(t)[i] == t[i] {
      SwapEverywhere(s, '?', '$');
      SwappedMarks(s, i);
    }
    hide ToDollar;
    SamePlaces(ToDollar(t), t);
  }

  /** The mirror rewriting gives the query back exactly when the query had no "$" placeholder of its own. */
  lemma MirrorInverts(s: string)
    ensures Swap(ToDollar(s), false, '$', '?') == s <==> forall i :: 0 <= i < |s| ==> !IsMark(s, '$', i)
  {
    var t := ToDollar(s);
    var back := Swap(t, false, '$', '?');
    SwapEverywhere(s, '?', '$');
    SwapEverywhere(t, '$', '?');
    forall i | 0 <= i < |s| ensures back[i] == s[i] <==> !IsMark(s, '$', i) { SwappedMarks(s, i); }
    hide Swap, ToDollar, IsMark;
    if forall i :: 0 <= i < |s| ==> !IsMark(s, '$', i) { SamePlaces(back, s); }
  }

  /** One character of the rewriting. */
  lemma SwapNext(s: string, i: nat, quoted: bool, out: string)
    requires i < |s|
    ensures var x := if s[i] == '?' && !quoted && i + 1 < |s| && Fields.IsDigit(s[i + 1]) then '$' else s[i];
      out + Swap(s[i..], quoted, '?', '$') == (out + [x]) + Swap(s[i + 1..], quoted != (s[i] == '\''), '?', '$')
  {
    assert s[i..][0] == s[i] && s[i..][1..] == s[i + 1..];
  }

  method ToDollarPlaceholders(sql: string) returns (out: string)
    ensures out == ToDollar(sql)
    ensures |out| == |sql| && forall i :: 0 <= i < |sql| ==> out[i] == if IsMark(sql, '?', i) then '$' else sql[i]
  {
    hide Swap;
    SwapEverywhere(sql, '?', '$');
    hide IsMark;
    var inString := false;
    var i := 0;
    out := "";
    assert sql[0..] == sql;
    while i < |sql|
      invariant 0 <= i <= |sql|
      invariant out + Swap(sql[i..], inString, '?', '$') == ToDollar(sql)
    {
      SwapNext(sql, i, inString, out);
      var c := sql[i];
      i := i + 1;
      if c == '\'' {
        inString := !inString;
        out := out + [c];
      } else if c == '?' && !inString && i < |sql| && Fields.IsDigit(sql[i]) {
        out := out + ['$'];
        while i < |sql| && Fields.IsDigit(sql[i])
          invariant 0 < i <= |sql|
          invariant out + Swap(sql[i..], inString, '?', '$') == ToDollar(sql)
        {
          SwapNext(sql, i, inString, out);
          out := out + [sql[i]];
          i := i + 1;
        }
      } else {
        out := out + [c];
      }
    }
    SwapNothing(inString);
    assert sql[i..] == "";
  }

  lemma SwapNothing(quoted: bool)
    ensures Swap("", quoted, '?', '$') == ""
  {}

  // ---------------------------------------------------------------- unnumbered placeholders

  function Itoa(n: nat): (s: string)
    ensures s != "" && forall k :: 0 <= k < |s| ==> Fields.IsDigit(s[k])
  {
    if n < 10 then [('0' as int + n) as char] else Itoa(n / 10) + [('0' as int + n % 10) as char]
  }

  /** The decimal numeral of n: digits that read back as n, without a leading zero. */
  predicate Denotes(d: string, n: int) {
    d != "" && (forall k :: 0 <= k < |d| ==> Fields.IsDigit(d[k])) && d[0] != '0' && Fields.Number(d) == n
  }

  lemma {:induction false} ItoaDenotes(n: nat)
    requires n >= 1
    ensures Denotes(Itoa(n), n)
  {
    if n >= 10 {
      ItoaDenotes(n / 10);
      var d := Itoa(n / 10);
      assert Itoa(n)[..|d|] == d && Itoa(n)[|d|] == ('0' as int + n % 10) as char;
    } else {
      assert Fields.Number(Itoa(n)[..0]) == 0;
    }
  }

  lemma {:induction false} NumeralsArePositive(d: string)
    requires d != "" && (forall k :: 0 <= k < |d| ==> Fields.IsDigit(d[k])) && d[0] != '0'
    ensures Fields.Number(d) >= 1
  {
    if |d| > 1 { NumeralsArePositive(d[..|d| - 1]); } else { assert Fields.Number(d[..0]) == 0; }
  }

  /** A number has one numeral. */
  lemma {:induction false} NumeralIsItoa(d: string, n: nat)
    requires Denotes(d, n)
    ensures n >= 1 && d == Itoa(n)
  {
    var front, last := d[..|d| - 1], d[|d| - 1];
    assert d == front + [last] && Fields.IsDigit(last);
    NumeralsArePositive(d);
    if |d| > 1 {
      NumeralIsItoa(front, Fields.Number(front));
      assert n / 10 == Fields.Number(front) && n % 10 == last as int - '0' as int;
    } else {
      assert Fields.Number(d[..0]) == 0;
    }
  }

  /** Each '?' outside string literals becomes "$" and its ordinal, counting on from n. */
  function Counted(s: string, quoted: bool, n: nat): string {
    if s == "" then ""
    else if s[0] == '\'' then "'" + Counted(s[1..], !quoted, n)
    else if s[0] == '?' && !quoted then "$" + Itoa(n + 1) + Counted(s[1..], quoted, n + 1)
    else [s[0]] + Counted(s[1..], quoted, n)
  }

  /** The placeholders before character n. */
  ghost function Questions(s: string, n: nat): set<nat>
    requires n <= |s|
  {
    set k: nat | k < n && s[k] == '?' && !InString(s, k)
  }

  lemma QuestionsNext(s: string, n: nat)
    requires n < |s|
    ensures |Questions(s, n + 1)| == |Questions(s, n)| + if s[n] == '?' && !InString(s, n) then 1 else 0
  {
    hide InString;
    var before := Questions(s, n);
    if s[n] == '?' && !InString(s, n) {
      assert Questions(s, n + 1) == before + {n};
      assert |before + {n}| == |before| + 1;
    } else {
      assert Questions(s, n + 1) == before;
    }
  }

  /** What character i becomes. */
  ghost function Rewritten(s: string, i: nat): string
    requires i < |s|
  {
    if s[i] == '?' && !InString(s, i) then "$" + Itoa(|Questions(s, i)| + 1) else [s[i]]
  }

  /** One more character of a stretch of the query adds what it becomes. */
  lemma {:induction false} CountedGrows(s: string, j: nat, i: nat)
    requires j <= i < |s|
    ensures Counted(s[j..i + 1], InString(s, j), |Questions(s, j)|) == Counted(s[j..i], InString(s, j), |Questions(s, j)|) + Rewritten(s, i)
    decreases i - j
  {
    hide Questions, Itoa;
    var more, less := s[j..i + 1], s[j..i];
    assert more[0] == s[j] && more[1..] == s[j + 1..i + 1];
    if j < i {
      QuestionsNext(s, j);
      assert less[0] == s[j] && less[1..] == s[j + 1..i];
      CountedGrows(s, j + 1, i);
    }
  }

  /** The k-th '?' outside string literals becomes "$" and the numeral of k; every other character is copied. */
  lemma PlaceholdersAreNumbered(s: string, i: nat)
    requires i < |s|
    ensures Counted(s[..0], false, 0) == ""
    ensures var before, through := Counted(s[..i], false, 0), Counted(s[..i + 1], false, 0);
      if s[i] == '?' && !InString(s, i) then exists d :: Denotes(d, |Questions(s, i)| + 1) && through == before + "$" + d
      else through == before + [s[i]]
  {
    CountedGrows(s, 0, i);
    hide Counted, InString, Denotes, Itoa;
    assert Questions(s, 0) == {} && s[0..i] == s[..i] && s[0..i + 1] == s[..i + 1];
    assert !InString(s, 0) && Counted("", false, 0) == "" by { StartOfCount(s); }
    var d := Itoa(|Questions(s, i)| + 1);
    ItoaDenotes(|Questions(s, i)| + 1);
    assert Counted(s[..i], false, 0) + ("$" + d) == Counted(s[..i], false, 0) + "$" + d;
  }

  lemma StartOfCount(s: string)
    ensures !InString(s, 0) && Counted("", false, 0) == ""
  {}

  method Rebind(query: string, postgres: bool) returns (out: string)
    ensures out == if postgres then Counted(query, false, 0) else query
  {
    if !postgres { return query; }
    var n := 0;
    var inString := false;
    out := "";
    for i := 0 to |query|
      invariant n >= 0 && out + Counted(query[i..], inString, n) == Counted(query, false, 0)
    {
      var c := query[i];
      assert query[i..][0] == c && query[i..][1..] == query[i + 1..];
      if c == '\'' {
        inString := !inString;
        out := out + [c];
      } else if c == '?' && !inString {
        n := n + 1;
        assert out + ("$" + Itoa(n) + Counted(query[i + 1..], inString, n)) == out + "$" + Itoa(n) + Counted(query[i + 1..], inString, n);
        out := out + "$" + Itoa(n);
      } else {
        out := out + [c];
      }
    }
  }

  function Digits(s: string): (r: string)
    ensures |r| <= |s|
  {
    if StartsWithDigit(s) then [s[0]] + Digits(s[1..]) else ""
  }

  /** The query written without the numbers of its placeholders. */
  function Unnumbered(s: string, quoted: bool): string {
    if s == "" then ""
    else if s[0] == '\'' then "'" + Unnumbered(s[1..], !quoted)
    else if s[0] == '?' && !quoted then "?" + Unnumbered(s[1..][|Digits(s[1..])|..], quoted)
    else [s[0]] + Unnumbered(s[1..], quoted)
  }

  /** Every '?' outside string literals is followed by its ordinal, counting on from n. */
  predicate InOrder(s: string, quoted: bool, n: nat) {
    if s == "" then true
    else if s[0] == '\'' then InOrder(s[1..], !quoted, n)
    else if s[0] == '?' && !quoted then Denotes(Digits(s[1..]), n + 1) && InOrder(s[1..][|Digits(s[1..])|..], quoted, n + 1)
    else InOrder(s[1..], quoted, n)
  }

  lemma {:induction false} DigitsSplit(s: string)
    ensures s == Digits(s) + s[|Digits(s)|..] && !StartsWithDigit(s[|Digits(s)|..])
    ensures forall k :: 0 <= k < |Digits(s)| ==> Fields.IsDigit(Digits(s)[k])
  {
    if StartsWithDigit(s) { DigitsSplit(s[1..]); }
  }

  /** A number and what follows it can be told apart. */
  lemma {:induction false} DigitsOf(d: string, rest: string)
    requires (forall k :: 0 <= k < |d| ==> Fields.IsDigit(d[k])) && !StartsWithDigit(rest)
    ensures Digits(d + rest) == d && (d + rest)[|d|..] == rest
  {
    if d == "" {
      assert d + rest == rest;
    } else {
      assert (d + rest)[1..] == d[1..] + rest;
      DigitsOf(d[1..], rest);
    }
  }

  /** Digits are copied. */
  lemma {:induction false} SwapDigits(d: string, rest: string, quoted: bool)
    requires forall k :: 0 <= k < |d| ==> Fields.IsDigit(d[k])
    ensures Swap(d + rest, quoted, '?', '$') == d + Swap(rest, quoted, '?', '$')
  {
    if d == "" {
      assert d + rest == rest;
    } else {
      assert (d + rest)[1..] == d[1..] + rest;
      SwapDigits(d[1..], rest, quoted);
    }
  }

  lemma SwapStart(s: string, quoted: bool)
    ensures StartsWithDigit(Swap(s, quoted, '?', '$')) == StartsWithDigit(s)
  {}

  lemma CountedStart(s: string, quoted: bool, n: nat)
    ensures StartsWithDigit(Counted(Unnumbered(s, quoted), quoted, n)) == StartsWithDigit(s)
  {}

  /** Counting the unnumbered query agrees with rewriting the numbered one exactly when its numbers run in order. */
  lemma {:induction false} CountingAgrees(s: string, quoted: bool, n: nat)
    ensures Counted(Unnumbered(s, quoted), quoted, n) == Swap(s, quoted, '?', '$') <==> InOrder(s, quoted, n)
    decreases |s|
  {
    if s != "" {
      if s[0] == '\'' {
        CountingAgrees(s[1..], !quoted, n);
        PrefixedCount('\'', Unnumbered(s[1..], !quoted), quoted, n);
        SameTail("'", Counted(Unnumbered(s[1..], !quoted), !quoted, n), Swap(s[1..], !quoted, '?', '$'));
      } else if s[0] == '?' && !quoted {
        var d, rest := Digits(s[1..]), s[1..][|Digits(s[1..])|..];
        CountingAgrees(rest, quoted, n + 1);
        MarkAgrees(s, n);
      } else {
        CountingAgrees(s[1..], quoted, n);
        PrefixedCount(s[0], Unnumbered(s[1..], quoted), quoted, n);
        SameTail([s[0]], Counted(Unnumbered(s[1..], quoted), quoted, n), Swap(s[1..], quoted, '?', '$'));
      }
    }
  }

  lemma SameTail(x: string, a: string, b: string)
    ensures x + a == x + b <==> a == b
  {
    assert (x + a)[|x|..] == a && (x + b)[|x|..] == b;
  }

  lemma PrefixedCount(c: char, u: string, quoted: bool, n: nat)
    requires c != '?' || quoted
    ensures Counted([c] + u, quoted, n) == [c] + Counted(u, quoted != (c == '\''), n)
  {
    assert ([c] + u)[1..] == u;
  }

  lemma MarkAgrees(s: string, n: nat)
    requires s != "" && s[0] == '?'
    ensures var d := Digits(s[1..]);
      var rest := s[1..][|d|..];
      (Counted(Unnumbered(s, false), false, n) == Swap(s, false, '?', '$'))
      == (Denotes(d, n + 1) && Counted(Unnumbered(rest, false), false, n + 1) == Swap(rest, false, '?', '$'))
  {
    var d := Digits(s[1..]);
    var rest := s[1..][|d|..];
    var left, right := Counted(Unnumbered(rest, false), false, n + 1), Swap(rest, false, '?', '$');
    DigitsSplit(s[1..]);
    SwapDigits(d, rest, false);
    CountedStart(rest, false, n + 1);
    SwapStart(rest, false);
    assert Unnumbered(s, false)[1..] == Unnumbered(rest, false);
    assert Counted(Unnumbered(s, false), false, n) == "$" + Itoa(n + 1) + left;
    assert Swap(s, false, '?', '$') == [if d == "" then '?' else '$'] + (d + right);
    ItoaDenotes(n + 1);
    if Denotes(d, n + 1) { NumeralIsItoa(d, n + 1); }
    hide Counted, Swap, Unnumbered, Digits, Itoa, Denotes;
    NumberedTexts(Itoa(n + 1), left, d, right);
  }

  lemma NumberedTexts(number: string, left: string, d: string, right: string)
    requires number != "" && !StartsWithDigit(left) && !StartsWithDigit(right)
    requires (forall k :: 0 <= k < |number| ==> Fields.IsDigit(number[k])) && (forall k :: 0 <= k < |d| ==> Fields.IsDigit(d[k]))
    ensures ("$" + number + left == [if d == "" then '?' else '$'] + (d + right)) == (d == number && left == right)
  {
    var a, b := "$" + number + left, [if d == "" then '?' else '$'] + (d + right);
    assert a[1..] == number + left && b[1..] == d + right;
    DigitsOf(number, left);
    DigitsOf(d, right);
  }

  /** A query whose placeholders run 1, 2, 3, … comes out alike from both rewriters, and no other query does. */
  lemma RewritersAgree(s: string)
    ensures Counted(Unnumbered(s, false), false, 0) == ToDollar(s) <==> InOrder(s, false, 0)
  {
    hide Counted, Swap, Unnumbered, InOrder;
    CountingAgrees(s, false, 0);
  }

  // ---------------------------------------------------------------- paths

  function Escape(path: string): string {
    if path == "" then ""
    else (if path[0] == '%' then "%25" else if path[0] == '#' then "%23" else if path[0] == '?' then "%3F" else [path[0]]) + Escape(path[1..])
  }

  /** strings.ReplaceAll with a one-character pattern. */
  function ReplaceAll(s: string, c: char, into: string): string {
    if s == "" then "" else (if s[0] == c then into else [s[0]]) + ReplaceAll(s[1..], c, into)
  }

  lemma {:induction false} ReplaceAppend(a: string, b: string, c: char, into: string)
    ensures ReplaceAll(a + b, c, into) == ReplaceAll(a, c, into) + ReplaceAll(b, c, into)
  {
    if a == "" {
      assert a + b == b;
    } else {
      assert (a + b)[1..] == a[1..] + b;
      ReplaceAppend(a[1..], b, c, into);
    }
  }

  lemma {:induction false} ReplaceNone(s: string, c: char, into: string)
    requires c !in s
    ensures ReplaceAll(s, c, into) == s
  {
    if s != "" { ReplaceNone(s[1..], c, into); }
  }

  /** One pass escapes as three successive replacements do, '%' first. */
  lemma {:induction false} EscapeIsThreeReplacements(path: string)
    ensures Escape(path) == ReplaceAll(ReplaceAll(ReplaceAll(path, '%', "%25"), '#', "%23"), '?', "%3F")
  {
    if path != "" {
      var head := if path[0] == '%' then "%25" else [path[0]];
      var rest := ReplaceAll(path[1..], '%', "%25");
      EscapeIsThreeReplacements(path[1..]);
      ReplaceAppend(head, rest, '#', "%23");
      ReplaceAppend(ReplaceAll(head, '#', "%23"), ReplaceAll(rest, '#', "%23"), '?', "%3F");
      HeadIsReplaced(path[0]);
    }
  }

  lemma HeadIsReplaced(c: char)
    ensures ReplaceAll(ReplaceAll(if c == '%' then "%25" else [c], '#', "%23"), '?', "%3F")
         == if c == '%' then "%25" else if c == '#' then "%23" else if c == '?' then "%3F" else [c]
  {
    if c == '%' {
      ReplaceNone("%25", '#', "%23");
      ReplaceNone("%25", '?', "%3F");
    } else if c == '#' {
      assert ReplaceAll([c], '#', "%23") == "%23" + ReplaceAll([c][1..], '#', "%23") == "%23";
      ReplaceNone("%23", '?', "%3F");
    } else {
      ReplaceNone([c], '#', "%23");
      if c != '?' { ReplaceNone([c], '?', "%3F"); }
    }
  }

  /** Nothing a URI parser would stop at is left. */
  lemma {:induction false} EscapedIsPlain(path: string)
    ensures '#' !in Escape(path) && '?' !in Escape(path)
  {
    if path != "" { EscapedIsPlain(path[1..]); }
  }

  function HexValue(c: char): int {
    if '0' <= c <= '9' then c as int - '0' as int
    else if 'A' <= c <= 'F' then c as int - 'A' as int + 10
    else if 'a' <= c <= 'f' then c as int - 'a' as int + 10
    else -1
  }

  /** Hexadecimal digits are read in either case, and nothing else is. */
  lemma HexDigitsAre(c: char)
    ensures HexValue(c) >= 0 ==> HexValue(c) < 16 && (c == "0123456789ABCDEF"[HexValue(c)] || c == "0123456789abcdef"[HexValue(c)])
    ensures c in "0123456789ABCDEF" || c in "0123456789abcdef" ==> HexValue(c) >= 0
  {}

  /** Percent-decoding, section 2.1 of RFC 3986; a '%' without two hexadecimal digits is kept. */
  function Decode(s: string): string {
    if s == "" then ""
    else if s[0] == '%' && |s| >= 3 && HexValue(s[1]) >= 0 && HexValue(s[2]) >= 0
    then [(16 * HexValue(s[1]) + HexValue(s[2])) as char] + Decode(s[3..])
    else [s[0]] + Decode(s[1..])
  }

  lemma DecodeEscape(x: string, rest: string, c: char)
    requires |x| == 3 && x[0] == '%' && HexValue(x[1]) >= 0 && HexValue(x[2]) >= 0 && 16 * HexValue(x[1]) + HexValue(x[2]) == c as int
    ensures Decode(x + rest) == [c] + Decode(rest)
  {
    assert (x + rest)[3..] == rest;
  }

  /** Decoding recovers every path, so distinct paths stay distinct. */
  lemma {:induction false} DecodeRecoversThePath(path: string)
    ensures Decode(Escape(path)) == path
  {
    hide Decode;
    if path == "" {
      assert Decode("") == "" by { DecodeNothing(); }
    } else {
      var c, rest := path[0], Escape(path[1..]);
      DecodeRecoversThePath(path[1..]);
      if c == '%' { DecodeEscape("%25", rest, c); }
      else if c == '#' { DecodeEscape("%23", rest, c); }
      else if c == '?' { DecodeEscape("%3F", rest, c); }
      else { DecodeOther(c, rest); }
    }
  }

  lemma DecodeNothing()
    ensures Decode("") == ""
  {}

  lemma DecodeOther(c: char, rest: string)
    requires c != '%'
    ensures Decode([c] + rest) == [c] + Decode(rest)
  {
    assert ([c] + rest)[1..] == rest;
  }

  lemma DistinctPathsStayDistinct(p: string, q: string)
    requires Escape(p) == Escape(q)
    ensures p == q
  {
    DecodeRecoversThePath(p);
    DecodeRecoversThePath(q);
  }

  /** With '%' escaped last, the other escapes would be escaped again: right only for paths that need none of them. */
  lemma {:induction false} PercentMustComeFirst(path: string)
    ensures var late := ReplaceAll(ReplaceAll(ReplaceAll(path, '#', "%23"), '?', "%3F"), '%', "%25");
      |late| >= |Escape(path)| && (late == Escape(path) <==> '#' !in path && '?' !in path)
  {
    if path != "" {
      var c, head := path[0], if path[0] == '#' then "%23" else [path[0]];
      var rest := ReplaceAll(path[1..], '#', "%23");
      var late := ReplaceAll(ReplaceAll(rest, '?', "%3F"), '%', "%25");
      PercentMustComeFirst(path[1..]);
      ReplaceAppend(head, rest, '?', "%3F");
      ReplaceAppend(ReplaceAll(head, '?', "%3F"), ReplaceAll(rest, '?', "%3F"), '%', "%25");
      LateHead(c);
      assert path == [c] + path[1..];
      if c != '#' && c != '?' {
        var x := if c == '%' then "%25" else [c];
        assert Escape(path) == x + Escape(path[1..]);
        assert (x + late)[|x|..] == late && (x + Escape(path[1..]))[|x|..] == Escape(path[1..]);
      }
    }
  }

  lemma LateHead(c: char)
    ensures ReplaceAll(ReplaceAll(if c == '#' then "%23" else [c], '?', "%3F"), '%', "%25")
         == if c == '#' then "%2523" else if c == '?' then "%253F" else if c == '%' then "%25" else [c]
  {
    if c == '#' {
      ReplaceNone("%23", '?', "%3F");
      LatePercent("%23");
    } else if c == '?' {
      assert ReplaceAll([c], '?', "%3F") == "%3F" + ReplaceAll([c][1..], '?', "%3F") == "%3F";
      LatePercent("%3F");
    } else {
      ReplaceNone([c], '?', "%3F");
      if c != '%' { ReplaceNone([c], '%', "%25"); }
    }
  }

  lemma LatePercent(s: string)
    requires s != "" && s[0] == '%' && '%' !in s[1..]
    ensures ReplaceAll(s, '%', "%25") == "%25" + s[1..]
  {
    ReplaceNone(s[1..], '%', "%25");
  }

  lemma EscapeNext(path: string, i: nat, out: string)
    requires i < |path|
    ensures var x := if path[i] == '%' then "%25" else if path[i] == '#' then "%23" else if path[i] == '?' then "%3F" else [path[i]];
      out + Escape(path[i..]) == (out + x) + Escape(path[i + 1..])
  {
    assert path[i..][0] == path[i] && path[i..][1..] == path[i + 1..];
  }

  method EscapeSqliteUriPath(path: string) returns (out: string)
    ensures out == Escape(path) && Decode(out) == path && '#' !in out && '?' !in out
  {
    hide Escape, Decode;
    out := "";
    assert path[0..] == path;
    for i := 0 to |path|
      invariant out + Escape(path[i..]) == Escape(path)
    {
      EscapeNext(path, i, out);
      match path[i] {
        case '%' => out := out + "%25";
        case '#' => out := out + "%23";
        case '?' => out := out + "%3F";
        case c => out := out + [c];
      }
    }
    EscapedIsPlain(path);
    DecodeRecoversThePath(path);
    assert path[|path|..] == "" && Escape("") == "" by { EscapeNothing(); }
  }

  lemma EscapeNothing()
    ensures Escape("") == ""
  {}
}
