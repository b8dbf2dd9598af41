/** Splitting a migration file into statements: one lexer for the comment-aware splitter and the one that knows no comments. */
module SqlText {
  import opened Text

  /** The two splitters differ in whether "--" opens a comment, and in what they trim. */
  datatype Splitter = Kotlin | Go

  datatype Mode = Code | Quoted | Comment

  /** The mode after character i. */
  function Turn(d: Splitter, m: Mode, s: string, i: nat): Mode
    requires i < |s|
  {
    match m
    case Code =>
      if s[i] == '\'' then Quoted
      else if d.Kotlin? && s[i] == '-' && i + 1 < |s| && s[i + 1] == '-' then Comment
      else Code
    case Quoted => if s[i] == '\'' then Code else Quoted
    case Comment => if s[i] == '\n' then Code else Comment
  }

  function ModeAt(d: Splitter, s: string, n: nat): Mode
    requires n <= |s|
  {
    if n == 0 then Code else Turn(d, ModeAt(d, s, n - 1), s, n - 1)
  }

  /** A top-level ';'. */
  predicate Ends(d: Splitter, s: string, i: nat)
    requires i < |s|
  {
    s[i] == ';' && ModeAt(d, s, i) == Code
  }

  /** What has been read: the pieces already ended by a ';', and the one being read. */
  datatype Cuts = Cuts(done: seq<string>, current: string)

  function CutUpTo(d: Splitter, s: string, n: nat): Cuts
    requires n <= |s|
  {
    if n == 0 then Cuts([], "")
    else
      var c := CutUpTo(d, s, n - 1);
      if Ends(d, s, n - 1) then Cuts(c.done + [c.current], "") else Cuts(c.done, c.current + [s[n - 1]])
  }

  /** The untrimmed pieces between top-level semicolons. */
  function Pieces(d: Splitter, s: string): (r: seq<string>)
    ensures |r| >= 1
  {
    var c := CutUpTo(d, s, |s|);
    c.done + [c.current]
  }

  // ---------------------------------------------------------------- trimming

  /** Kotlin's isWhitespace has the ASCII separators U+001C to U+001F, Go's IsSpace has U+0085; the rest is common. */
  predicate IsSpace(d: Splitter, c: char) {
    '\t' <= c <= '\r' || c == ' ' || (if d.Kotlin? then '\U{1C}' <= c <= '\U{1F}' else c == '\U{85}') || c == '\U{A0}' || c == '\U{1680}'
    || '\U{2000}' <= c <= '\U{200A}' || c == '\U{2028}' || c == '\U{2029}' || c == '\U{202F}' || c == '\U{205F}' || c == '\U{3000}'
  }

  lemma SpacesAre(d: Splitter, c: char)
    ensures IsSpace(d, c) <==>
      || c in " \t\n\r\U{000B}\U{000C}\U{00A0}\U{1680}\U{2000}\U{2001}\U{2002}\U{2003}\U{2004}\U{2005}\U{2006}\U{2007}\U{2008}\U{2009}\U{200A}"
      || c in "\U{2028}\U{2029}\U{202F}\U{205F}\U{3000}"
      || (d.Kotlin? && c in "\U{001C}\U{001D}\U{001E}\U{001F}") || (d.Go? && c in "\U{0085}")
  {}

  function TrimStart(d: Splitter, s: string): string {
    if s != "" && IsSpace(d, s[0]) then TrimStart(d, s[1..]) else s
  }

  function TrimEnd(d: Splitter, s: string): string {
    if s != "" && IsSpace(d, s[|s| - 1]) then TrimEnd(d, s[..|s| - 1]) else s
  }

  function Trim(d: Splitter, s: string): string { TrimEnd(d, TrimStart(d, s)) }

  function Add(d: Splitter, stmts: seq<string>, piece: string): seq<string> {
    if Trim(d, piece) == "" then stmts else stmts + [Trim(d, piece)]
  }

  /** The pieces trimmed, blank ones dropped. */
  function Kept(d: Splitter, pieces: seq<string>): seq<string> {
    if pieces == [] then [] else Add(d, Kept(d, pieces[..|pieces| - 1]), pieces[|pieces| - 1])
  }

  function Statements(d: Splitter, s: string): seq<string> { Kept(d, Pieces(d, s)) }

  // ---------------------------------------------------------------- the loops

  /** In a comment nothing is cut before the end of the line. */
  lemma {:induction false} CommentIsCopied(s: string, i: nat, e: nat)
    requires i < e <= |s| && ModeAt(Kotlin, s, i) == Code && i + 1 < |s| && s[i] == '-' && s[i + 1] == '-'
    requires forall j :: i <= j < e ==> s[j] != '\n'
    ensures ModeAt(Kotlin, s, e) == Comment
    ensures CutUpTo(Kotlin, s, e) == Cuts(CutUpTo(Kotlin, s, i).done, CutUpTo(Kotlin, s, i).current + s[i..e])
    decreases e
  {
    if i + 1 < e {
      CommentIsCopied(s, i, e - 1);
      assert s[i..e] == s[i..e - 1] + [s[e - 1]];
    } else {
      assert s[i..e] == [s[i]];
    }
  }

  method SplitStatementsKotlin(sqlText: string) returns (stmts: seq<string>)
    ensures stmts == Statements(Kotlin, sqlText)
  {
    hide Trim;
    var n := |sqlText|;
    var cur := "";
    var inString := false;
    var i := 0;
    stmts := [];
    while i < n
      invariant 0 <= i <= n
      invariant ModeAt(Kotlin, sqlText, i) == Quoted <==> inString
      invariant ModeAt(Kotlin, sqlText, i) == Comment ==> i == n || sqlText[i] == '\n'
      invariant cur == CutUpTo(Kotlin, sqlText, i).current && stmts == Kept(Kotlin, CutUpTo(Kotlin, sqlText, i).done)
    {
      var c := sqlText[i];
      if !inString && c == '-' && i + 1 < n && sqlText[i + 1] == '-' {
        var eol := IndexOf(sqlText, '\n', i);
        forall j | i <= j < eol ensures sqlText[j] != '\n' { IndexOfIsFirst(sqlText, '\n', i, j); }
        CommentIsCopied(sqlText, i, eol);
        cur := cur + sqlText[i..eol];
        i := eol;
        continue;
      }
      if c == '\'' {
        inString := !inString;
        cur := cur + [c];
      } else if c == ';' && !inString {
        KeptOneMore(Kotlin, CutUpTo(Kotlin, sqlText, i).done, cur);
        stmts := Add(Kotlin, stmts, cur);
        cur := "";
      } else {
        cur := cur + [c];
      }
      i := i + 1;
    }
    KeptOneMore(Kotlin, CutUpTo(Kotlin, sqlText, n).done, cur);
    stmts := Add(Kotlin, stmts, cur);
  }

  method SplitStatementsGo(sqlText: string) returns (stmts: seq<string>)
    ensures stmts == Statements(Go, sqlText)
  {
    hide Trim;
    var cur := "";
    var inString := false;
    stmts := [];
    for i := 0 to |sqlText|
      invariant ModeAt(Go, sqlText, i) == if inString then Quoted else Code
      invariant cur == CutUpTo(Go, sqlText, i).current && stmts == Kept(Go, CutUpTo(Go, sqlText, i).done)
    {
      var c := sqlText[i];
      if c == '\'' {
        inString := !inString;
        cur := cur + [c];
      } else if c == ';' && !inString {
        KeptOneMore(Go, CutUpTo(Go, sqlText, i).done, cur);
        stmts := Add(Go, stmts, cur);
        cur := "";
      } else {
        cur := cur + [c];
      }
    }
    KeptOneMore(Go, CutUpTo(Go, sqlText, |sqlText|).done, cur);
    stmts := Add(Go, stmts, cur);
  }

  lemma KeptOneMore(d: Splitter, pieces: seq<string>, piece: string)
    ensures Kept(d, pieces + [piece]) == Add(d, Kept(d, pieces), piece)
  {
    assert (pieces + [piece])[..|pieces|] == pieces;
  }

  // ---------------------------------------------------------------- nothing is lost

  lemma {:induction false} JoinOntoSnoc(text: string, p: seq<string>, x: string, sep: char, i: nat)
    requires i <= |p|
    ensures JoinOnto(text, p + [x], sep, i) == JoinOnto(text, p, sep, i) + [sep] + x
    decreases |p| - i
  {
    if i < |p| { JoinOntoSnoc(text + [sep] + p[i], p, x, sep, i + 1); }
  }

  lemma JoinGrows(p: seq<string>, x: string, y: string)
    ensures Join(p + [x + y], ';') == Join(p + [x], ';') + y
    ensures p != [] ==> Join(p + [x], ';') == Join(p, ';') + ";" + x
  {
    if p != [] {
      JoinOntoSnoc(p[0], p, x, ';', 1);
      JoinOntoSnoc(p[0], p, x + y, ';', 1);
      assert Join(p, ';') + ";" + (x + y) == Join(p, ';') + ";" + x + y;
    } else {
      assert p + [x] == [x] && p + [x + y] == [x + y];
    }
  }

  lemma {:induction false} CutsRebuild(d: Splitter, s: string, n: nat)
    requires n <= |s|
    ensures var c := CutUpTo(d, s, n); Join(c.done + [c.current], ';') == s[..n]
  {
    hide Join, ModeAt;
    if n == 0 {
      JoinOne("", ';');
      assert [] + [""] == [""];
    } else {
      CutsRebuild(d, s, n - 1);
      var c := CutUpTo(d, s, n - 1);
      assert s[..n] == s[..n - 1] + [s[n - 1]];
      if Ends(d, s, n - 1) {
        JoinGrows(c.done + [c.current], "", "");
        assert Join(c.done + [c.current] + [""], ';') == s[..n - 1] + ";" + "" == s[..n];
      } else {
        JoinGrows(c.done, c.current, [s[n - 1]]);
      }
    }
  }

  /** The untrimmed pieces with ';' between them are the input. */
  lemma PiecesRebuildTheText(d: Splitter, s: string)
    ensures Join(Pieces(d, s), ';') == s
  {
    CutsRebuild(d, s, |s|);
    assert s[..|s|] == s;
  }

  // ---------------------------------------------------------------- reading in parts

  /** What follows decides nothing about what was read, unless it completes a "--". */
  lemma {:induction false} ModeBefore(d: Splitter, x: string, y: string, n: nat)
    requires n <= |x| && (n == |x| ==> y == "" || y[0] != '-')
    ensures ModeAt(d, x + y, n) == ModeAt(d, x, n)
  {
    if n > 0 {
      ModeBefore0(d, x, y, n - 1);
    }
  }

  lemma {:induction false} ModeBefore0(d: Splitter, x: string, y: string, n: nat)
    requires n < |x|
    ensures ModeAt(d, x + y, n) == ModeAt(d, x, n)
  {
    if n > 0 { ModeBefore0(d, x, y, n - 1); }
  }

  /** A text read on from where the lexer is in code mode is read as from the start. */
  lemma {:induction false} ModeBehind(d: Splitter, x: string, y: string, n: nat)
    requires n <= |y| && ModeAt(d, x + y, |x|) == Code
    ensures ModeAt(d, x + y, |x| + n) == ModeAt(d, y, n)
  {
    if n > 0 { ModeBehind(d, x, y, n - 1); }
  }

  lemma {:induction false} CutsBefore(d: Splitter, x: string, y: string, n: nat)
    requires n <= |x|
    ensures CutUpTo(d, x + y, n) == CutUpTo(d, x, n)
  {
    if n > 0 {
      ModeBefore0(d, x, y, n - 1);
      CutsBefore(d, x, y, n - 1);
    }
  }

  lemma {:induction false} CutsBehind(d: Splitter, x: string, y: string, n: nat)
    requires n <= |y| && ModeAt(d, x + y, |x|) == Code && CutUpTo(d, x + y, |x|).current == ""
    ensures CutUpTo(d, x + y, |x| + n) == Cuts(CutUpTo(d, x + y, |x|).done + CutUpTo(d, y, n).done, CutUpTo(d, y, n).current)
  {
    if n > 0 {
      CutsBehind(d, x, y, n - 1);
      ModeBehind(d, x, y, n - 1);
    }
  }

  /** Two texts on either side of a top-level ';' are split apart. */
  lemma PiecesConcat(d: Splitter, x: string, y: string)
    requires ModeAt(d, x, |x|) == Code
    ensures Pieces(d, x + ";" + y) == Pieces(d, x) + Pieces(d, y)
  {
    var t := x + ";" + y;
    assert t == x + (";" + y);
    ModeBefore(d, x, ";" + y, |x|);
    CutsBefore(d, x, ";" + y, |x|);
    CutsBehind(d, x + ";", y, |y|);
    var a, b := CutUpTo(d, x, |x|), CutUpTo(d, y, |y|);
    assert CutUpTo(d, t, |t|) == Cuts((a.done + [a.current]) + b.done, b.current);
    hide CutUpTo, ModeAt;
  }

  // ---------------------------------------------------------------- pieces are whole statements

  /** No top-level ';' in the text read by itself. */
  ghost predicate Solid(d: Splitter, p: string) { forall k :: 0 <= k < |p| ==> !Ends(d, p, k) }

  lemma {:induction false} UncutPrefix(d: Splitter, s: string, n: nat)
    requires n <= |s| && forall i :: 0 <= i < n ==> !Ends(d, s, i)
    ensures CutUpTo(d, s, n) == Cuts([], s[..n])
  {
    if n > 0 {
      UncutPrefix(d, s, n - 1);
      assert s[..n] == s[..n - 1] + [s[n - 1]];
    }
  }

  lemma SolidIsOnePiece(d: Splitter, p: string)
    requires Solid(d, p)
    ensures Pieces(d, p) == [p]
  {
    UncutPrefix(d, p, |p|);
    assert p[..|p|] == p;
  }

  /** Where the current piece began. */
  function StartOf(d: Splitter, s: string, n: nat): (b: nat)
    requires n <= |s|
    ensures b <= n
  {
    if n == 0 then 0 else if Ends(d, s, n - 1) then n else StartOf(d, s, n - 1)
  }

  /** A stretch of text that starts in code mode and is followed by no '-' is read by itself as in its place. */
  lemma StretchMode(d: Splitter, s: string, b: nat, e: nat, n: nat)
    requires b <= e <= |s| && ModeAt(d, s, b) == Code && n <= e - b && (n == e - b && e < |s| ==> s[e] != '-')
    ensures ModeAt(d, s[b..e], n) == ModeAt(d, s, b + n)
  {
    var x, p, y := s[..b], s[b..e], s[e..];
    assert s == x + (p + y);
    ModeBehind(d, x, p + y, n);
    ModeBefore(d, p, y, n);
  }

  lemma StretchIsSolid(d: Splitter, s: string, b: nat, e: nat)
    requires b <= e <= |s| && ModeAt(d, s, b) == Code && forall j :: b <= j < e ==> !Ends(d, s, j)
    ensures Solid(d, s[b..e])
  {
    forall k | 0 <= k < e - b ensures !Ends(d, s[b..e], k) {
      StretchMode(d, s, b, e, k);
      assert !Ends(d, s, b + k);
    }
  }

  lemma {:induction false} CurrentIsAStretch(d: Splitter, s: string, n: nat)
    requires n <= |s|
    ensures CutUpTo(d, s, n).current == s[StartOf(d, s, n)..n]
  {
    hide Ends;
    if n > 0 {
      CurrentIsAStretch(d, s, n - 1);
      if !Ends(d, s, n - 1) { StretchGrows(s, StartOf(d, s, n), n); }
    }
  }

  lemma StretchGrows(s: string, b: nat, n: nat)
    requires b < n <= |s|
    ensures s[b..n] == s[b..n - 1] + [s[n - 1]]
  {}

  lemma {:induction false} StretchIsCode(d: Splitter, s: string, n: nat)
    requires n <= |s|
    ensures ModeAt(d, s, StartOf(d, s, n)) == Code
    ensures forall j :: StartOf(d, s, n) <= j < n ==> !Ends(d, s, j)
  {
    hide Turn;
    if n > 0 {
      StretchIsCode(d, s, n - 1);
      if Ends(d, s, n - 1) { EndsStayInCode(d, s, n - 1); }
    }
  }

  lemma EndsStayInCode(d: Splitter, s: string, i: nat)
    requires i < |s| && Ends(d, s, i)
    ensures ModeAt(d, s, i + 1) == Code
  {}

  lemma CurrentIsSolid(d: Splitter, s: string, n: nat)
    requires n <= |s|
    ensures Solid(d, CutUpTo(d, s, n).current)
    ensures n < |s| && Ends(d, s, n) ==> var p := CutUpTo(d, s, n).current; ModeAt(d, p, |p|) == Code
  {
    CurrentIsAStretch(d, s, n);
    StretchIsCode(d, s, n);
    hide CutUpTo, Turn, Solid, StartOf;
    var b := StartOf(d, s, n);
    StretchIsSolid(d, s, b, n);
    if n < |s| && Ends(d, s, n) { StretchMode(d, s, b, n, n - b); }
  }

  /** Every piece read by itself is one piece; all but the last end in code mode. */
  lemma {:induction false} DoneAreSolid(d: Splitter, s: string, n: nat)
    requires n <= |s|
    ensures forall p :: p in CutUpTo(d, s, n).done ==> Solid(d, p) && ModeAt(d, p, |p|) == Code
  {
    hide Solid, ModeAt;
    if n > 0 {
      DoneAreSolid(d, s, n - 1);
      CurrentIsSolid(d, s, n - 1);
    }
  }

  /** No piece holds a top-level ';'. */
  lemma PiecesAreWhole(d: Splitter, s: string)
    ensures forall p :: p in Pieces(d, s) ==> Pieces(d, p) == [p]
  {
    DoneAreSolid(d, s, |s|);
    CurrentIsSolid(d, s, |s|);
    forall p | p in Pieces(d, s) ensures Pieces(d, p) == [p] {
      SolidIsOnePiece(d, p);
    }
  }

  // ---------------------------------------------------------------- statements survive being joined again

  predicate AllSpace(d: Splitter, s: string) { forall k :: 0 <= k < |s| ==> IsSpace(d, s[k]) }

  predicate Tidy(d: Splitter, t: string) { t != "" && !IsSpace(d, t[0]) && !IsSpace(d, t[|t| - 1]) }

  lemma {:induction false} TrimStartParts(d: Splitter, s: string) returns (lead: string)
    ensures s == lead + TrimStart(d, s) && AllSpace(d, lead)
    ensures TrimStart(d, s) != "" ==> !IsSpace(d, TrimStart(d, s)[0])
  {
    if s != "" && IsSpace(d, s[0]) {
      lead := TrimStartParts(d, s[1..]);
      lead := [s[0]] + lead;
    } else {
      lead := "";
    }
  }

  lemma {:induction false} TrimEndParts(d: Splitter, s: string) returns (trail: string)
    ensures s == TrimEnd(d, s) + trail && AllSpace(d, trail)
    ensures TrimEnd(d, s) != "" ==> !IsSpace(d, TrimEnd(d, s)[|TrimEnd(d, s)| - 1])
  {
    if s != "" && IsSpace(d, s[|s| - 1]) {
      trail := TrimEndParts(d, s[..|s| - 1]);
      trail := trail + [s[|s| - 1]];
    } else {
      trail := "";
    }
  }

  /** What a trim takes away is white space, and it leaves none at the ends. */
  lemma TrimParts(d: Splitter, s: string) returns (lead: string, trail: string)
    ensures s == lead + Trim(d, s) + trail && AllSpace(d, lead) && AllSpace(d, trail)
    ensures Trim(d, s) != "" ==> Tidy(d, Trim(d, s))
  {
    lead := TrimStartParts(d, s);
    trail := TrimEndParts(d, TrimStart(d, s));
    var u, t := TrimStart(d, s), Trim(d, s);
    assert s == lead + (t + trail);
    if t != "" { assert u[0] == t[0]; }
  }

  lemma TrimTidy(d: Splitter, t: string)
    requires Tidy(d, t)
    ensures Trim(d, t) == t && Trim(d, t + "\n") == t
  {
    assert (t + "\n")[..|t|] == t;
    assert TrimEnd(d, t + "\n") == TrimEnd(d, t);
  }

  lemma {:induction false} SpacesStayInCode(d: Splitter, s: string, n: nat)
    requires n <= |s| && forall k :: 0 <= k < n ==> IsSpace(d, s[k])
    ensures ModeAt(d, s, n) == Code
  {
    if n > 0 { SpacesStayInCode(d, s, n - 1); }
  }

  lemma {:induction false} SpacesStayQuoted(d: Splitter, s: string, e: nat, n: nat)
    requires e <= n <= |s| && ModeAt(d, s, e) == Quoted && forall k :: e <= k < n ==> IsSpace(d, s[k])
    ensures ModeAt(d, s, n) == Quoted
  {
    if e < n { SpacesStayQuoted(d, s, e, n - 1); }
  }

  /** A statement that is not inside a string once a newline has ended its last comment. */
  ghost predicate Settled(d: Splitter, t: string) { ModeAt(d, t, |t|) != Quoted }

  lemma TrimmedPiece(d: Splitter, p: string)
    requires Solid(d, p) && Trim(d, p) != ""
    ensures Tidy(d, Trim(d, p)) && Solid(d, Trim(d, p))
    ensures ModeAt(d, p, |p|) == Code ==> Settled(d, Trim(d, p))
  {
    var t := Trim(d, p);
    var lead, trail := TrimParts(d, p);
    var b, e := |lead|, |lead| + |t|;
    assert p[b..e] == t;
    forall k | 0 <= k < b ensures IsSpace(d, p[k]) { assert p[k] == lead[k]; }
    forall k | e <= k < |p| ensures IsSpace(d, p[k]) { assert p[k] == trail[k - e]; }
    hide Trim, ModeAt;
    SpacesStayInCode(d, p, b);
    StretchIsSolid(d, p, b, e);
    StretchMode(d, p, b, e, |t|);
    if ModeAt(d, p, e) == Quoted { SpacesStayQuoted(d, p, e, |p|); }
  }

  /** The statements with a newline and a ';' between them. */
  function Rejoin(ts: seq<string>): string {
    if ts == [] then "" else if |ts| == 1 then ts[0] else ts[0] + "\n" + ";" + Rejoin(ts[1..])
  }

  /** Statements as a splitter leaves them: only the last may be inside a string at its end. */
  ghost predicate Separable(d: Splitter, ts: seq<string>) {
    forall i :: 0 <= i < |ts| ==> Tidy(d, ts[i]) && Solid(d, ts[i]) && (i < |ts| - 1 ==> Settled(d, ts[i]))
  }

  ghost predicate AllSettled(d: Splitter, ts: seq<string>) {
    forall i :: 0 <= i < |ts| ==> Tidy(d, ts[i]) && Solid(d, ts[i]) && Settled(d, ts[i])
  }

  lemma {:induction false} KeptAreSettled(d: Splitter, pieces: seq<string>)
    requires forall p :: p in pieces ==> Solid(d, p) && ModeAt(d, p, |p|) == Code
    ensures AllSettled(d, Kept(d, pieces))
  {
    hide Tidy, Solid, Settled, Trim, ModeAt;
    if pieces != [] {
      var n := |pieces| - 1;
      KeptAreSettled(d, pieces[..n]);
      if Trim(d, pieces[n]) != "" { TrimmedPiece(d, pieces[n]); }
    }
  }

  lemma LastNeedNotSettle(d: Splitter, ts: seq<string>, t: string)
    requires AllSettled(d, ts)
    ensures Separable(d, ts) && (Tidy(d, t) && Solid(d, t) ==> Separable(d, ts + [t]))
  {
    hide Tidy, Solid, Settled;
  }

  lemma StatementsAreSeparable(d: Splitter, s: string)
    ensures Separable(d, Statements(d, s))
  {
    var c := CutUpTo(d, s, |s|);
    DoneAreSolid(d, s, |s|);
    CurrentIsSolid(d, s, |s|);
    hide CutUpTo, Tidy, Solid, Settled, Trim, ModeAt, Kept, AllSettled, Separable;
    KeptAreSettled(d, c.done);
    KeptOneMore(d, c.done, c.current);
    LastNeedNotSettle(d, Kept(d, c.done), Trim(d, c.current));
    if Trim(d, c.current) != "" { TrimmedPiece(d, c.current); }
  }

  lemma {:induction false} KeptAppend(d: Splitter, a: seq<string>, b: seq<string>)
    ensures Kept(d, a + b) == Kept(d, a) + Kept(d, b)
    decreases |b|
  {
    hide Trim;
    if b == [] {
      assert a + b == a;
    } else {
      var n := |b| - 1;
      assert a + b == (a + b[..n]) + [b[n]];
      KeptOneMore(d, a + b[..n], b[n]);
      KeptAppend(d, a, b[..n]);
    }
  }

  lemma KeptOne(d: Splitter, p: string)
    ensures Kept(d, [p]) == Add(d, [], p)
  {
    KeptOneMore(d, [], p);
    assert [] + [p] == [p];
  }

  /** A newline settles a statement. */
  lemma NewlineEndsStatement(d: Splitter, t: string)
    requires Solid(d, t) && Settled(d, t)
    ensures Pieces(d, t + "\n") == [t + "\n"] && ModeAt(d, t + "\n", |t| + 1) == Code
  {
    var u := t + "\n";
    ModeBefore(d, t, "\n", |t|);
    forall k | 0 <= k < |u| ensures !Ends(d, u, k) {
      if k < |t| {
        ModeBefore0(d, t, "\n", k);
        assert !Ends(d, t, k);
      }
    }
    SolidIsOnePiece(d, u);
  }

  lemma {:induction false} RejoinedStatements(d: Splitter, ts: seq<string>)
    requires Separable(d, ts)
    ensures Statements(d, Rejoin(ts)) == ts
    decreases |ts|
  {
    hide Trim, Pieces, Solid, Settled, Tidy;
    if ts == [] {
      PiecesOfNothing(d);
      KeptOne(d, "");
    } else if |ts| == 1 {
      OnePiece(d, ts[0]);
      TrimTidy(d, ts[0]);
      KeptOne(d, ts[0]);
    } else {
      var t := ts[0];
      NewlineEndsStatement(d, t);
      PiecesConcat(d, t + "\n", Rejoin(ts[1..]));
      KeptAppend(d, [t + "\n"], Pieces(d, Rejoin(ts[1..])));
      KeptOne(d, t + "\n");
      TrimTidy(d, t);
      RejoinedStatements(d, ts[1..]);
      assert Tidy(d, t) && t != "" by { TidyIsNotEmpty(d, t); }
    }
  }

  lemma TidyIsNotEmpty(d: Splitter, t: string)
    requires Tidy(d, t)
    ensures t != ""
  {}

  lemma PiecesOfNothing(d: Splitter)
    ensures Pieces(d, "") == [""] && Trim(d, "") == ""
  {}

  lemma OnePiece(d: Splitter, p: string)
    requires Solid(d, p) && Tidy(d, p)
    ensures Pieces(d, p) == [p] && p != ""
  {
    SolidIsOnePiece(d, p);
  }

  /** Splitting, joining with newline and ';', and splitting again gives the same statements. */
  lemma SplitRejoinSplit(d: Splitter, s: string)
    ensures Statements(d, Rejoin(Statements(d, s))) == Statements(d, s)
  {
    hide Statements, Rejoin, Separable;
    StatementsAreSeparable(d, s);
    RejoinedStatements(d, Statements(d, s));
  }

  // ---------------------------------------------------------------- with and without comments

  /** The apostrophes among the first n characters, and those of them that stand in comments. */
  function Quotes(s: string, n: nat): nat
    requires n <= |s|
  {
    if n == 0 then 0 else Quotes(s, n - 1) + (if s[n - 1] == '\'' then 1 else 0)
  }

  function CommentedQuotes(s: string, n: nat): (q: nat)
    requires n <= |s|
    ensures q <= Quotes(s, n)
  {
    if n == 0 then 0
    else CommentedQuotes(s, n - 1) + (if s[n - 1] == '\'' && ModeAt(Kotlin, s, n - 1) == Comment then 1 else 0)
  }

  /** A comment opened at i reaches to n: two hyphens outside literals and comments, and no line end since. */
  ghost predicate Covers(s: string, i: nat, n: nat)
    requires n <= |s|
  {
    i < n && i + 1 < |s| && s[i] == s[i + 1] == '-' && ModeAt(Kotlin, s, i) == Code && forall j :: i <= j < n ==> s[j] != '\n'
  }

  /** What is a comment: from two hyphens in code to the end of the line. */
  lemma {:induction false} CommentsAre(s: string, n: nat)
    requires n <= |s|
    ensures ModeAt(Kotlin, s, n) == Comment <==> exists i: nat :: Covers(s, i, n)
  {
    if ModeAt(Kotlin, s, n) == Comment {
      var m := n - 1;
      CommentsAre(s, m);
      if i: nat :| Covers(s, i, m) { assert Covers(s, i, n); } else { assert Covers(s, m, n); }
    }
    if i: nat :| Covers(s, i, n) { CommentIsCopied(s, i, n); }
  }

  /** A ';' that follows an odd number of commented apostrophes, or stands in a comment after an even number of apostrophes. */
  predicate Misleads(s: string, i: nat)
    requires i < |s|
  {
    s[i] == ';' && if ModeAt(Kotlin, s, i) == Comment then Quotes(s, i) % 2 == 0 else CommentedQuotes(s, i) % 2 == 1
  }

  lemma {:induction false} GoCountsQuotes(s: string, n: nat)
    requires n <= |s|
    ensures ModeAt(Go, s, n) == if Quotes(s, n) % 2 == 1 then Quoted else Code
  {
    if n > 0 { GoCountsQuotes(s, n - 1); }
  }

  lemma {:induction false} KotlinCountsQuotes(s: string, n: nat)
    requires n <= |s|
    ensures ModeAt(Kotlin, s, n) == Quoted <==> (Quotes(s, n) - CommentedQuotes(s, n)) % 2 == 1
  {
    if n > 0 { KotlinCountsQuotes(s, n - 1); }
  }

  /** Exactly at these the splitter without comments goes wrong. */
  lemma CutsDifferWhereMisled(s: string, i: nat)
    requires i < |s|
    ensures Ends(Go, s, i) != Ends(Kotlin, s, i) <==> Misleads(s, i)
  {
    GoCountsQuotes(s, i);
    KotlinCountsQuotes(s, i);
    hide ModeAt, Quotes, CommentedQuotes;
  }

  lemma {:induction false} SameCuts(s: string, n: nat)
    requires n <= |s| && forall i :: 0 <= i < n ==> !Misleads(s, i)
    ensures CutUpTo(Go, s, n) == CutUpTo(Kotlin, s, n)
  {
    hide Misleads, Ends;
    if n > 0 {
      SameCuts(s, n - 1);
      CutsDifferWhereMisled(s, n - 1);
    }
  }

  /** Pieces once ended stay, and the piece being read only grows. */
  lemma {:induction false} CutsGrow(d: Splitter, s: string, i: nat, n: nat, k: nat)
    requires i <= n <= |s| && k <= |CutUpTo(d, s, i).done|
    ensures var c, c' := CutUpTo(d, s, i), CutUpTo(d, s, n);
      && |c.done| <= |c'.done|
      && (k < |c.done| ==> c'.done[k] == c.done[k])
      && (k == |c.done| ==> c.current <= (if k < |c'.done| then c'.done[k] else c'.current))
    decreases n - i
  {
    hide Ends;
    if i < n { CutsGrow(d, s, i, n - 1, k); }
  }

  /** Where one splitter cuts and the other does not, the piece of the second is longer. */
  lemma CutDecides(d: Splitter, e: Splitter, s: string, i: nat)
    requires i < |s| && CutUpTo(d, s, i) == CutUpTo(e, s, i) && Ends(d, s, i) && !Ends(e, s, i)
    ensures Pieces(d, s) != Pieces(e, s)
  {
    var c := CutUpTo(d, s, i);
    var k := |c.done|;
    assert CutUpTo(d, s, i + 1) == Cuts(c.done + [c.current], "");
    assert CutUpTo(e, s, i + 1) == Cuts(c.done, c.current + [s[i]]);
    CutsGrow(d, s, i + 1, |s|, k);
    CutsGrow(e, s, i + 1, |s|, k);
    hide CutUpTo, Ends;
    assert Pieces(d, s)[k] == c.current;
    assert |Pieces(e, s)[k]| > |c.current|;
  }

  lemma {:induction false} MisledSplitsOtherwise(s: string, i: nat)
    requires i < |s| && Misleads(s, i)
    ensures Pieces(Go, s) != Pieces(Kotlin, s)
    decreases i
  {
    hide Misleads, Ends, Pieces, CutUpTo;
    if k: nat :| k < i && Misleads(s, k) {
      MisledSplitsOtherwise(s, k);
    } else {
      SameCuts(s, i);
      CutsDifferWhereMisled(s, i);
      if Ends(Go, s, i) { CutDecides(Go, Kotlin, s, i); } else { CutDecides(Kotlin, Go, s, i); }
    }
  }

  /** The two splitters cut alike exactly when no ';' misleads the one without comments. */
  lemma SplittersCutAlike(s: string)
    ensures Pieces(Go, s) == Pieces(Kotlin, s) <==> forall i :: 0 <= i < |s| ==> !Misleads(s, i)
  {
    hide Misleads;
    if i :| 0 <= i < |s| && Misleads(s, i) {
      MisledSplitsOtherwise(s, i);
    } else {
      SameCuts(s, |s|);
    }
  }

  /** No comment holds an apostrophe or a ';': in particular, no comment at all. */
  predicate QuietComments(s: string) {
    forall i :: 0 <= i < |s| && ModeAt(Kotlin, s, i) == Comment ==> s[i] != '\'' && s[i] != ';'
  }

  lemma {:induction false} QuietCommentsHoldNoQuotes(s: string, n: nat)
    requires QuietComments(s) && n <= |s|
    ensures CommentedQuotes(s, n) == 0
  {
    if n > 0 { QuietCommentsHoldNoQuotes(s, n - 1); }
  }

  /** Quiet comments mislead nobody. */
  lemma QuietCommentsAreHarmless(s: string)
    requires QuietComments(s)
    ensures forall i :: 0 <= i < |s| ==> !Misleads(s, i)
  {
    hide CommentedQuotes;
    forall i | 0 <= i < |s| ensures !Misleads(s, i) { QuietCommentsHoldNoQuotes(s, i); }
  }

  // ---------------------------------------------------------------- what only one of them trims

  /** The characters only one of the two splitters trims, and those both trim. */
  predicate IsDisputed(c: char) { '\U{1C}' <= c <= '\U{1F}' || c == '\U{85}' }

  predicate IsCommon(c: char) { IsSpace(Kotlin, c) && IsSpace(Go, c) }

  /** The first character of p that is not common white space, or the last one, is disputed. */
  ghost predicate StartsDisputed(p: string) { exists k :: 0 <= k < |p| && IsDisputed(p[k]) && forall j :: 0 <= j < k ==> IsCommon(p[j]) }

  ghost predicate EndsDisputed(p: string) { exists k :: 0 <= k < |p| && IsDisputed(p[k]) && forall j :: k < j < |p| ==> IsCommon(p[j]) }

  lemma StartsBehindSpace(p: string)
    requires p != "" && IsCommon(p[0])
    ensures StartsDisputed(p[1..]) ==> StartsDisputed(p)
  {
    if StartsDisputed(p[1..]) {
      var k :| 0 <= k < |p[1..]| && IsDisputed(p[1..][k]) && forall j :: 0 <= j < k ==> IsCommon(p[1..][j]);
      forall j | 0 <= j < k + 1 ensures IsCommon(p[j]) { assert j > 0 ==> p[j] == p[1..][j - 1]; }
      assert IsDisputed(p[k + 1]);
    }
  }

  lemma EndsOfSuffix(lead: string, u: string)
    ensures EndsDisputed(u) ==> EndsDisputed(lead + u)
  {
    var p, n := lead + u, |lead|;
    if EndsDisputed(u) {
      var k :| 0 <= k < |u| && IsDisputed(u[k]) && forall j :: k < j < |u| ==> IsCommon(u[j]);
      forall j | n + k < j < |p| ensures IsCommon(p[j]) { assert p[j] == u[j - n]; }
      assert IsDisputed(p[n + k]);
    }
  }

  lemma {:induction false} SameTrimStarts(p: string)
    requires !StartsDisputed(p)
    ensures TrimStart(Go, p) == TrimStart(Kotlin, p)
  {
    if p != "" {
      if IsCommon(p[0]) {
        StartsBehindSpace(p);
        SameTrimStarts(p[1..]);
      } else {
        assert !IsDisputed(p[0]);
      }
    }
  }

  lemma {:induction false} SameTrimEnds(p: string)
    requires !EndsDisputed(p)
    ensures TrimEnd(Go, p) == TrimEnd(Kotlin, p)
  {
    if p != "" {
      var n := |p| - 1;
      if IsCommon(p[n]) {
        SameTrimEnds(p[..n]);
      } else {
        assert !IsDisputed(p[n]);
      }
    }
  }

  lemma {:induction false} KeepsFirst(d: Splitter, p: string, k: nat)
    requires k < |p| && !IsSpace(d, p[k]) && forall j :: 0 <= j < k ==> IsSpace(d, p[j])
    ensures TrimStart(d, p) == p[k..]
  {
    if k > 0 {
      assert p[1..][k - 1..] == p[k..];
      KeepsFirst(d, p[1..], k - 1);
    }
  }

  lemma {:induction false} KeepsLast(d: Splitter, p: string, k: nat)
    requires k < |p| && !IsSpace(d, p[k]) && forall j :: k < j < |p| ==> IsSpace(d, p[j])
    ensures TrimEnd(d, p) == p[..k + 1]
    decreases |p|
  {
    if k < |p| - 1 {
      assert p[..|p| - 1][..k + 1] == p[..k + 1];
      KeepsLast(d, p[..|p| - 1], k);
    }
  }

  lemma {:induction false} TrimEndKeepsFirst(d: Splitter, u: string)
    requires u != "" && !IsSpace(d, u[0])
    ensures TrimEnd(d, u) != "" && TrimEnd(d, u)[0] == u[0]
  {
    if IsSpace(d, u[|u| - 1]) { TrimEndKeepsFirst(d, u[..|u| - 1]); }
  }

  lemma {:induction false} TrimStartKeepsFrom(d: Splitter, p: string, k: nat)
    requires k < |p| && !IsSpace(d, p[k])
    ensures var n := |p| - |TrimStart(d, p)|; 0 <= n <= k && TrimStart(d, p) == p[n..]
  {
    if IsSpace(d, p[0]) { TrimStartKeepsFrom(d, p[1..], k - 1); }
  }

  lemma TrimKeepsFirst(d: Splitter, p: string, k: nat)
    requires k < |p| && !IsSpace(d, p[k]) && forall j :: 0 <= j < k ==> IsSpace(d, p[j])
    ensures Trim(d, p) != "" && Trim(d, p)[0] == p[k]
  {
    KeepsFirst(d, p, k);
    TrimEndKeepsFirst(d, p[k..]);
  }

  lemma TrimKeepsLast(d: Splitter, p: string, k: nat)
    requires k < |p| && !IsSpace(d, p[k]) && forall j :: k < j < |p| ==> IsSpace(d, p[j])
    ensures var t := Trim(d, p); t != "" && t[|t| - 1] == p[k]
  {
    hide IsSpace;
    TrimStartKeepsFrom(d, p, k);
    var u := TrimStart(d, p);
    var n := |p| - |u|;
    forall j | k - n < j < |u| ensures IsSpace(d, u[j]) { assert u[j] == p[n + j]; }
    assert u[k - n] == p[k];
    KeepsLast(d, u, k - n);
  }

  /** A disputed end stays on one splitter's statement, where the other's never has it. */
  lemma DisputedEndStays(p: string) returns (d: Splitter, e: Splitter)
    requires StartsDisputed(p) || EndsDisputed(p)
    ensures d != e && Trim(e, p) != "" && !Tidy(d, Trim(e, p))
  {
    if StartsDisputed(p) {
      var k :| 0 <= k < |p| && IsDisputed(p[k]) && forall j :: 0 <= j < k ==> IsCommon(p[j]);
      d, e := if IsSpace(Kotlin, p[k]) then Kotlin else Go, if IsSpace(Kotlin, p[k]) then Go else Kotlin;
      TrimKeepsFirst(e, p, k);
    } else {
      var k :| 0 <= k < |p| && IsDisputed(p[k]) && forall j :: k < j < |p| ==> IsCommon(p[j]);
      d, e := if IsSpace(Kotlin, p[k]) then Kotlin else Go, if IsSpace(Kotlin, p[k]) then Go else Kotlin;
      TrimKeepsLast(e, p, k);
    }
  }

  /** The two trims agree exactly on texts with undisputed ends. */
  lemma TrimsAgree(p: string)
    ensures Trim(Go, p) == Trim(Kotlin, p) <==> !StartsDisputed(p) && !EndsDisputed(p)
  {
    if StartsDisputed(p) || EndsDisputed(p) {
      var d, e := DisputedEndStays(p);
      var lead, trail := TrimParts(d, p);
    } else {
      SameTrimStarts(p);
      var lead := TrimStartParts(Kotlin, p);
      var u := TrimStart(Kotlin, p);
      EndsOfSuffix(lead, u);
      SameTrimEnds(u);
    }
  }

  lemma {:induction false} SameKept(pieces: seq<string>)
    requires forall p :: p in pieces ==> !StartsDisputed(p) && !EndsDisputed(p)
    ensures Kept(Go, pieces) == Kept(Kotlin, pieces)
  {
    hide Trim, StartsDisputed, EndsDisputed;
    if pieces != [] {
      SameKept(pieces[..|pieces| - 1]);
      TrimsAgree(pieces[|pieces| - 1]);
    }
  }

  lemma {:induction false} KeptAreTidy(d: Splitter, pieces: seq<string>)
    ensures forall t :: t in Kept(d, pieces) ==> Tidy(d, t)
  {
    hide Trim, Tidy;
    if pieces != [] {
      KeptAreTidy(d, pieces[..|pieces| - 1]);
      var lead, trail := TrimParts(d, pieces[|pieces| - 1]);
    }
  }

  lemma {:induction false} KeptHold(d: Splitter, pieces: seq<string>, p: string)
    requires p in pieces && Trim(d, p) != ""
    ensures Trim(d, p) in Kept(d, pieces)
  {
    hide Trim;
    if pieces[|pieces| - 1] != p { KeptHold(d, pieces[..|pieces| - 1], p); }
  }

  /**
   * Where they cut alike, the splitters keep the same statements exactly when no piece, its common white space trimmed,
   * begins or ends with a character only one of them trims.
   */
  lemma SplittersAgree(s: string)
    requires forall i :: 0 <= i < |s| ==> !Misleads(s, i)
    ensures Statements(Go, s) == Statements(Kotlin, s) <==> forall p :: p in Pieces(Kotlin, s) ==> !StartsDisputed(p) && !EndsDisputed(p)
  {
    hide Pieces, Kept, Trim, Tidy, StartsDisputed, EndsDisputed, Misleads;
    SplittersCutAlike(s);
    var pieces := Pieces(Kotlin, s);
    if p :| p in pieces && (StartsDisputed(p) || EndsDisputed(p)) {
      var d, e := DisputedEndStays(p);
      KeptHold(e, pieces, p);
      KeptAreTidy(d, pieces);
    } else {
      SameKept(pieces);
    }
  }

  /** A text without comments, strings or semicolons that only Kotlin trims. */
  lemma DisputedSeparator(s: string)
    requires |s| == 2 && s[0] == '\U{1C}' && s[1] == 'x'
    ensures QuietComments(s) && Pieces(Go, s) == Pieces(Kotlin, s) == [s] && Statements(Go, s) != Statements(Kotlin, s)
  {
    assert ModeAt(Kotlin, s, 1) == Code;
    QuietCommentsAreHarmless(s);
    forall d: Splitter ensures Pieces(d, s) == [s] {
      UncutPrefix(d, s, 2);
      assert s[..2] == s;
    }
    assert StartsDisputed(s);
    hide StartsDisputed, Pieces, Statements;
    assert s in Pieces(Kotlin, s);
    SplittersAgree(s);
  }

  /** An apostrophe in a comment hides the ';' behind it from the splitter that knows no comments. */
  lemma ApostropheInAComment(s: string)
    requires |s| == 5 && s[0] == s[1] == '-' && s[2] == '\'' && s[3] == '\n' && s[4] == ';'
    ensures Pieces(Kotlin, s) == [s[..4], ""] && Pieces(Go, s) == [s]
  {
    forall d: Splitter, n: nat | n < 4 ensures !Ends(d, s, n) {}
    ApostropheModes(s);
    hide ModeAt, Turn;
    forall d: Splitter ensures CutUpTo(d, s, 4) == Cuts([], s[..4]) { UncutPrefix(d, s, 4); }
    assert CutUpTo(Kotlin, s, |s|) == Cuts([] + [s[..4]], "");
    assert CutUpTo(Go, s, |s|) == Cuts([], s[..4] + [s[4]]);
    assert s[..4] + [s[4]] == s;
  }

  lemma ApostropheModes(s: string)
    requires |s| == 5 && s[0] == s[1] == '-' && s[2] == '\'' && s[3] == '\n' && s[4] == ';'
    ensures ModeAt(Kotlin, s, 4) == Code && ModeAt(Go, s, 4) == Quoted
  {
    assert ModeAt(Kotlin, s, 1) == Comment && ModeAt(Go, s, 1) == Code;
    assert ModeAt(Kotlin, s, 2) == Comment && ModeAt(Go, s, 2) == Code;
    assert ModeAt(Kotlin, s, 3) == Comment && ModeAt(Go, s, 3) == Quoted;
  }

}
