/** Task-list checkboxes of a markdown note: spelling normalisation for rendering, and toggling by rendered index. */
module TaskList {
  import opened Text

  // ---------------------------------------------------------------- character classes

  datatype CharClass = Blank | Digit | Space

  /** Blank is `[ \t]`, Digit is `\d`, Space is the ECMAScript `\s`. */
  predicate In(c: char, class_: CharClass) {
    var n := c as int;
    match class_
    case Blank => n == 0x20 || n == 0x09
    case Digit => 0x30 <= n <= 0x39
    case Space =>
      || 0x09 <= n <= 0x0d || n == 0x20 || n == 0xa0 || n == 0x1680
      || 0x2000 <= n <= 0x200a || n == 0x2028 || n == 0x2029
      || n == 0x202f || n == 0x205f || n == 0x3000 || n == 0xfeff
  }

  /** The classes by their characters: white space is Unicode's, with tab, line and page breaks and the byte-order mark. */
  lemma ClassesAre(c: char)
    ensures In(c, Digit) <==> c in "0123456789"
    ensures In(c, Blank) <==> c in " \t"
    ensures In(c, Space) <==>
      c in " \t\n\r\U{000B}\U{000C}\U{00A0}\U{1680}\U{2000}\U{2001}\U{2002}\U{2003}\U{2004}\U{2005}\U{2006}\U{2007}\U{2008}\U{2009}\U{200A}" ||
      c in "\U{2028}\U{2029}\U{202F}\U{205F}\U{3000}\U{FEFF}"
  {}

  predicate All(s: string, class_: CharClass) { forall i :: 0 <= i < |s| ==> In(s[i], class_) }

  /** Where the greedy run of a repeated class that starts at i ends. */
  function Run(s: string, class_: CharClass, i: nat): (end: nat)
    requires i <= |s|
    ensures i <= end <= |s|
    decreases |s| - i
  {
    if i < |s| && In(s[i], class_) then Run(s, class_, i + 1) else i
  }

  lemma {:induction false} RunStops(s: string, class_: CharClass, i: nat)
    requires i <= |s|
    ensures var end := Run(s, class_, i);
            All(s[i..end], class_) && (end < |s| ==> !In(s[end], class_))
    decreases |s| - i
  {
    hide In;
    if i < |s| && In(s[i], class_) {
      RunStops(s, class_, i + 1);
      var end := Run(s, class_, i + 1);
      assert s[i..end] == [s[i]] + s[i + 1..end];
    }
  }

  lemma {:induction false} RunIs(s: string, class_: CharClass, i: nat, end: nat)
    requires i <= end <= |s| && (end < |s| ==> !In(s[end], class_))
    requires forall k :: i <= k < end ==> In(s[k], class_)
    ensures Run(s, class_, i) == end
    decreases end - i
  {
    if i < end { RunIs(s, class_, i + 1, end); }
  }

  // ---------------------------------------------------------------- one line

  /** The groups of the task-line pattern, and the text after the match. */
  datatype TaskLine = TaskLine(indent: string, marker: string, mark: string, space: string, rest: string)

  function Piece(p: TaskLine, k: nat): string {
    match k
    case 0 => p.indent
    case 1 => p.marker
    case 2 => "["
    case 3 => p.mark
    case 4 => "]"
    case 5 => p.space
    case _ => p.rest
  }

  /** Appends the pieces of a task line from the k-th on. */
  function SpellOnto(text: string, p: TaskLine, k: nat): string
    requires k <= 7
    decreases 7 - k
  {
    if k == 7 then text else SpellOnto(text + Piece(p, k), p, k + 1)
  }

  function Spelling(p: TaskLine): string { SpellOnto("", p, 0) }

  lemma SpellingIs(p: TaskLine)
    ensures Spelling(p) == p.indent + p.marker + "[" + p.mark + "]" + p.space + p.rest
  {
    var t := p.indent + p.marker + "[";
    assert Spelling(p) == SpellOnto("" + p.indent, p, 1) == SpellOnto(p.indent, p, 1);
    assert SpellOnto(p.indent, p, 1) == SpellOnto(t, p, 3);
    assert SpellOnto(t, p, 3) == SpellOnto(t + p.mark + "]", p, 5);
  }

  predicate IsBullet(b: string) {
    || b == "-" || b == "*" || b == "+"
    || (|b| >= 2 && All(b[..|b| - 1], Digit) && (b[|b| - 1] == '.' || b[|b| - 1] == ')'))
  }

  /** The optional marker group with its trailing blanks; "" when the group is absent. */
  ghost predicate IsMarker(m: string) {
    m == "" || exists k :: 0 < k < |m| && IsBullet(m[..k]) && All(m[k..], Blank)
  }

  /** The pattern TASK_LINE as a grammar. */
  ghost predicate WellFormed(p: TaskLine) {
    && All(p.indent, Blank)
    && IsMarker(p.marker)
    && (p.mark == "" || p.mark == " " || p.mark == "x" || p.mark == "X")
    && p.space != "" && All(p.space, Blank)
    && p.rest != "" && !In(p.rest[0], Space)
  }

  /** Where a bullet that starts at i ends; i if there is none. */
  function BulletEnd(s: string, i: nat): (end: nat)
    requires i <= |s|
    ensures i <= end <= |s|
  {
    if i < |s| && (s[i] == '-' || s[i] == '*' || s[i] == '+') then i + 1
    else
      var d := Run(s, Digit, i);
      if i < d < |s| && (s[d] == '.' || s[d] == ')') then d + 1 else i
  }

  function MarkerEnd(s: string, i: nat): (end: nat)
    requires i <= |s|
    ensures i <= end <= |s|
  {
    var b := BulletEnd(s, i);
    var g := Run(s, Blank, b);
    if i < b < g then g else i
  }

  /** Where the groups of a match end: indent, marker, mark, space. */
  datatype Ends = Ends(indent: nat, marker: nat, mark: nat, space: nat)

  /** Matches TASK_LINE at the start of a line. */
  function Scan(line: string): (r: Option<Ends>)
    ensures r.Some? ==> r.value.indent <= r.value.marker < r.value.mark < r.value.space < |line|
  {
    var a := Run(line, Blank, 0);
    var b := MarkerEnd(line, a);
    if b == |line| || line[b] != '[' then None
    else
      var c := if b + 1 < |line| && (line[b + 1] == ' ' || line[b + 1] == 'x' || line[b + 1] == 'X') then b + 2 else b + 1;
      if c >= |line| || line[c] != ']' then None
      else
        var d := Run(line, Blank, c + 1);
        if c + 1 < d < |line| && !In(line[d], Space) then Some(Ends(a, b, c, d)) else None
  }

  predicate IsTaskLine(line: string) { Scan(line).Some? }

  predicate Fits(e: Ends, line: string) { e.indent <= e.marker < e.mark < e.space <= |line| }

  function Cut(line: string, e: Ends): TaskLine
    requires Fits(e, line)
  {
    TaskLine(line[..e.indent], line[e.indent..e.marker], line[e.marker + 1..e.mark], line[e.mark + 1..e.space], line[e.space..])
  }

  function Groups(line: string): TaskLine
    requires IsTaskLine(line)
  {
    Cut(line, Scan(line).value)
  }

  lemma BulletIsRead(s: string, i: nat, end: nat)
    requires i <= end <= |s| && IsBullet(s[i..end])
    ensures BulletEnd(s, i) == end > i && !In(s[i], Space) && !In(s[i], Blank) && s[i] != '`' && s[i] != '~'
  {
    var b := s[i..end];
    assert b[0] == s[i];
    if |b| >= 2 {
      var digits := b[..|b| - 1];
      assert b[|b| - 1] == s[end - 1] && digits[0] == s[i];
      assert forall k :: i <= k < end - 1 ==> s[k] == digits[k - i];
      RunIs(s, Digit, i, end - 1);
    }
  }

  lemma BracketIsInNoClass()
    ensures forall k: CharClass :: !In('[', k)
  {}

  lemma NoBulletAtBracket(s: string, i: nat)
    requires i < |s| && s[i] == '['
    ensures BulletEnd(s, i) == i && !In('[', Space)
  {}

  lemma SliceParts(s: string, i: nat, end: nat, k: nat)
    requires i <= end <= |s| && k <= end - i
    ensures s[i..end][..k] == s[i..i + k] && s[i..end][k..] == s[i + k..end]
  {}

  lemma MarkerIsRead(s: string, i: nat, end: nat)
    requires i <= end < |s| && IsMarker(s[i..end]) && s[end] == '['
    ensures MarkerEnd(s, i) == end && !In(s[i], Space) && s[i] != '`' && s[i] != '~'
  {
    hide In, Run, BulletEnd, IsBullet;
    var m := s[i..end];
    if m != "" {
      var k :| 0 < k < |m| && IsBullet(m[..k]) && All(m[k..], Blank);
      var gap := m[k..];
      SliceParts(s, i, end, k);
      BulletIsRead(s, i, i + k);
      forall j | i + k <= j < end ensures In(s[j], Blank) { assert s[j] == gap[j - i - k]; }
      BracketIsInNoClass();
      RunIs(s, Blank, i + k, end);
    } else {
      NoBulletAtBracket(s, i);
    }
  }

  lemma MarkerIsMarker(s: string, i: nat)
    requires i <= |s|
    ensures IsMarker(s[i..MarkerEnd(s, i)])
  {
    hide In, Run, All, IsBullet, BulletEnd;
    var b, g := BulletEnd(s, i), MarkerEnd(s, i);
    var m := s[i..g];
    if m != "" {
      BulletIsBullet(s, i);
      RunStops(s, Blank, b);
      assert m[..b - i] == s[i..b] && m[b - i..] == s[b..g];
    }
  }

  lemma BulletIsBullet(s: string, i: nat)
    requires i <= |s| && BulletEnd(s, i) > i
    ensures IsBullet(s[i..BulletEnd(s, i)])
  {
    hide In, Run, All;
    var b := BulletEnd(s, i);
    RunStops(s, Digit, i);
    assert s[i..b][..b - i - 1] == s[i..b - 1];
  }

  /** FENCE: optional white space, then three back quotes or three tildes. */
  predicate IsFence(line: string) {
    var i := Run(line, Space, 0);
    i + 3 <= |line| && (line[i..i + 3] == "```" || line[i..i + 3] == "~~~")
  }

  /** The scanner finds a decomposition exactly when it is one the pattern allows; so the match is unique. */
  lemma ScanIsTheMatch(line: string, p: TaskLine)
    ensures IsTaskLine(line) && Groups(line) == p <==> WellFormed(p) && Spelling(p) == line
  {
    if WellFormed(p) && Spelling(p) == line { ScanComplete(p); }
    if IsTaskLine(line) && Groups(line) == p { ScanSound(line); }
  }

  lemma Glue(s: string, i: nat, j: nat)
    requires i <= j <= |s|
    ensures s[..i] + s[i..j] == s[..j]
  {}

  lemma GlueTwo(s: string, i: nat, j: nat, k: nat)
    requires i <= j <= k <= |s|
    ensures s[..i] + s[i..j] + s[j..k] == s[..k]
  {
    Glue(s, i, j);
    Glue(s, j, k);
  }

  lemma CutSpells(line: string, e: Ends)
    requires Fits(e, line) && line[e.marker] == '[' && line[e.mark] == ']'
    ensures Spelling(Cut(line, e)) == line
  {
    hide Spelling;
    SpellingIs(Cut(line, e));
    GlueTwo(line, e.indent, e.marker, e.marker + 1);
    GlueTwo(line, e.marker + 1, e.mark, e.mark + 1);
    GlueTwo(line, e.mark + 1, e.space, |line|);
    CutParts(line, e);
    hide Cut;
  }

  lemma CutParts(line: string, e: Ends)
    requires Fits(e, line) && line[e.marker] == '[' && line[e.mark] == ']'
    ensures var p := Cut(line, e);
      && p.indent == line[..e.indent] && p.marker == line[e.indent..e.marker] && "[" == line[e.marker..e.marker + 1]
      && p.mark == line[e.marker + 1..e.mark] && "]" == line[e.mark..e.mark + 1]
      && p.space == line[e.mark + 1..e.space] && p.rest == line[e.space..|line|] && line[..|line|] == line
  {}

  lemma ScanSound(line: string)
    requires IsTaskLine(line)
    ensures WellFormed(Groups(line)) && Spelling(Groups(line)) == line
  {
    hide In, All, Run, IsMarker, MarkerEnd, Spelling;
    var e := Scan(line).value;
    RunStops(line, Blank, 0);
    MarkerIsMarker(line, e.indent);
    RunStops(line, Blank, e.mark + 1);
    CutSpells(line, e);
  }

  lemma BlankIsSpace()
    ensures forall c :: In(c, Blank) ==> In(c, Space)
  {}

  function Layout(p: TaskLine): Ends {
    var b := |p.indent| + |p.marker|;
    var c := b + 1 + |p.mark|;
    Ends(|p.indent|, b, c, c + 1 + |p.space|)
  }

  lemma SpellingLayout(p: TaskLine)
    ensures var line, e := Spelling(p), Layout(p);
      Fits(e, line) && Cut(line, e) == p && line[e.marker] == '[' && line[e.mark] == ']'
  {
    var line, e := Spelling(p), Layout(p);
    SpellingIs(p);
    var upToMark := p.indent + p.marker + "[" + p.mark + "]";
    assert line == upToMark + p.space + p.rest;
    assert line[..e.mark + 1] == upToMark;
  }

  /** The runs of a well-formed spelling end where its groups end. */
  lemma SpellingRuns(p: TaskLine)
    requires WellFormed(p) && Fits(Layout(p), Spelling(p))
    ensures var line, e := Spelling(p), Layout(p);
      && Run(line, Blank, 0) == Run(line, Space, 0) == e.indent && MarkerEnd(line, e.indent) == e.marker
      && Run(line, Blank, e.mark + 1) == e.space
      && e.space < |line| && !In(line[e.space], Space) && line[e.indent] != '`' && line[e.indent] != '~'
  {
    hide In, Run, IsMarker, MarkerEnd, Spelling, Layout;
    var line, e := Spelling(p), Layout(p);
    SpellingLayout(p);
    MarkerIsRead(line, e.indent, e.marker);
    BlankIsSpace();
    assert forall k :: 0 <= k < e.indent ==> line[k] == p.indent[k];
    RunIs(line, Blank, 0, e.indent);
    RunIs(line, Space, 0, e.indent);
    assert forall k :: e.mark + 1 <= k < e.space ==> line[k] == p.space[k - e.mark - 1];
    assert line[e.space] == p.rest[0];
    RunIs(line, Blank, e.mark + 1, e.space);
  }

  /** A scan of a line in which every run ends where the layout says. */
  lemma ScanFinds(line: string, e: Ends)
    requires Fits(e, line) && line[e.marker] == '[' && line[e.mark] == ']' && e.space < |line| && !In(line[e.space], Space)
    requires Run(line, Blank, 0) == e.indent && MarkerEnd(line, e.indent) == e.marker && Run(line, Blank, e.mark + 1) == e.space > e.mark + 1
    requires e.mark == e.marker + 1 || (e.mark == e.marker + 2 && (line[e.marker + 1] == ' ' || line[e.marker + 1] == 'x' || line[e.marker + 1] == 'X'))
    ensures Scan(line) == Some(e)
  {
    hide In, Run, MarkerEnd;
  }

  lemma NoFence(line: string, i: nat)
    requires Run(line, Space, 0) == i < |line| && line[i] != '`' && line[i] != '~'
    ensures !IsFence(line)
  {
    hide In, Run;
    if i + 3 <= |line| { assert line[i..i + 3][0] == line[i]; }
  }

  lemma ScanComplete(p: TaskLine)
    requires WellFormed(p)
    ensures IsTaskLine(Spelling(p)) && Groups(Spelling(p)) == p && !IsFence(Spelling(p))
  {
    hide In, Run, IsMarker, MarkerEnd, Spelling, All, Scan, Cut, IsFence;
    var line, e := Spelling(p), Layout(p);
    SpellingLayout(p);
    SpellingRuns(p);
    MarkIsSpelled(p);
    ScanFinds(line, e);
    NoFence(line, e.indent);
  }

  lemma MarkIsSpelled(p: TaskLine)
    ensures var line, b := Spelling(p), |p.indent| + |p.marker|;
      |line| >= b + 1 + |p.mark| && line[b + 1..b + 1 + |p.mark|] == p.mark && (p.mark != "" ==> line[b + 1] == p.mark[0])
  {
    hide Spelling;
    SpellingIs(p);
    var upToBox := p.indent + p.marker + "[";
    assert p.indent + p.marker + "[" + p.mark == upToBox + p.mark;
    assert Spelling(p) == upToBox + p.mark + ("]" + p.space + p.rest);
  }

  predicate IsChecked(mark: string) { mark == "x" || mark == "X" }

  function MarkFor(checked: bool): string { if checked then "x" else " " }

  function Normalized(p: TaskLine): TaskLine {
    p.(marker := if p.marker == "" then "- " else p.marker, mark := MarkFor(IsChecked(p.mark)))
  }

  function Toggled(p: TaskLine, checked: bool): TaskLine { p.(mark := MarkFor(checked)) }

  function NormalizeLine(line: string): string {
    if IsTaskLine(line) then Spelling(Normalized(Groups(line))) else line
  }

  function SetLine(line: string, checked: bool): string {
    if IsTaskLine(line) then Spelling(Toggled(Groups(line), checked)) else line
  }

  /** Both rewrites keep a task line a task line, with exactly the intended groups changed. */
  lemma RewritesScan(line: string, checked: bool)
    requires IsTaskLine(line)
    ensures !IsFence(line) && !IsFence(NormalizeLine(line)) && !IsFence(SetLine(line, checked))
    ensures IsTaskLine(NormalizeLine(line)) && Groups(NormalizeLine(line)) == Normalized(Groups(line))
    ensures IsTaskLine(SetLine(line, checked)) && Groups(SetLine(line, checked)) == Toggled(Groups(line), checked)
  {
    hide IsTaskLine, Groups, Spelling, IsFence, IsMarker, In;
    var p := Groups(line);
    ScanSound(line);
    ScanComplete(p);
    DashIsAMarker();
    ScanComplete(Normalized(p));
    ScanComplete(Toggled(p, checked));
  }

  lemma DashIsAMarker()
    ensures IsMarker("- ")
  {
    var m := "- ";
    assert m[..1] == "-" && m[1..] == " ";
  }

  lemma RewritesStayOnOneLine(line: string, checked: bool)
    requires '\n' !in line
    ensures '\n' !in NormalizeLine(line) && '\n' !in SetLine(line, checked)
  {
    if IsTaskLine(line) {
      ScanSound(line);
      SpellingIs(Groups(line));
      SpellingIs(Normalized(Groups(line)));
      SpellingIs(Toggled(Groups(line), checked));
    }
  }

  // ---------------------------------------------------------------- a document, line by line

  /** Whether line n of ls starts inside a fenced block: a parity of the fences before it. */
  predicate InFence(ls: seq<string>, n: nat)
    requires n <= |ls|
  {
    n > 0 && InFence(ls, n - 1) != IsFence(ls[n - 1])
  }

  predicate Live(ls: seq<string>, i: nat)
    requires i < |ls|
  {
    !IsFence(ls[i]) && !InFence(ls, i)
  }

  predicate IsTask(ls: seq<string>, i: nat)
    requires i < |ls|
  {
    Live(ls, i) && IsTaskLine(ls[i])
  }

  /** The number of check boxes rendered from the first n lines: the index the next one gets. */
  function Rank(ls: seq<string>, n: nat): nat
    requires n <= |ls|
  {
    if n == 0 then 0 else Rank(ls, n - 1) + (if IsTask(ls, n - 1) then 1 else 0)
  }

  /** The first n lines, rewritten for rendering. */
  function NormalizeUpTo(ls: seq<string>, n: nat): (r: seq<string>)
    requires n <= |ls|
    ensures |r| == n
  {
    if n == 0 then []
    else NormalizeUpTo(ls, n - 1) + [if Live(ls, n - 1) then NormalizeLine(ls[n - 1]) else ls[n - 1]]
  }

  /** The first n lines, with checkbox `index` set if it is among them. */
  function SetUpTo(ls: seq<string>, index: int, checked: bool, n: nat): (r: seq<string>)
    requires n <= |ls|
    ensures |r| == n
  {
    if n == 0 then []
    else
      SetUpTo(ls, index, checked, n - 1) +
      [if IsTask(ls, n - 1) && Rank(ls, n - 1) == index then SetLine(ls[n - 1], checked) else ls[n - 1]]
  }

  function NormalizeLines(ls: seq<string>): seq<string> { NormalizeUpTo(ls, |ls|) }

  function SetLines(ls: seq<string>, index: int, checked: bool): seq<string> { SetUpTo(ls, index, checked, |ls|) }

  lemma {:induction false} NormalizedAt(ls: seq<string>, n: nat)
    requires n <= |ls|
    ensures forall i | 0 <= i < n :: NormalizeUpTo(ls, n)[i] == if Live(ls, i) then NormalizeLine(ls[i]) else ls[i]
  {
    hide Live, NormalizeLine;
    if n > 0 { NormalizedAt(ls, n - 1); }
  }

  lemma {:induction false} SetAt(ls: seq<string>, index: int, checked: bool, n: nat)
    requires n <= |ls|
    ensures forall i | 0 <= i < n ::
      SetUpTo(ls, index, checked, n)[i] == if IsTask(ls, i) && Rank(ls, i) == index then SetLine(ls[i], checked) else ls[i]
  {
    hide IsTask, Rank, SetLine;
    if n > 0 { SetAt(ls, index, checked, n - 1); }
  }

  /** Both rewrites, line by line. */
  lemma RewritesAt(ls: seq<string>, index: int, checked: bool)
    ensures |NormalizeLines(ls)| == |ls| == |SetLines(ls, index, checked)|
    ensures forall i | 0 <= i < |ls| :: NormalizeLines(ls)[i] == if Live(ls, i) then NormalizeLine(ls[i]) else ls[i]
    ensures forall i | 0 <= i < |ls| ::
      SetLines(ls, index, checked)[i] == if IsTask(ls, i) && Rank(ls, i) == index then SetLine(ls[i], checked) else ls[i]
  {
    NormalizedAt(ls, |ls|);
    SetAt(ls, index, checked, |ls|);
  }

  lemma {:induction false} RankOrdersTasks(ls: seq<string>, i: nat, j: nat)
    requires i < j <= |ls| && IsTask(ls, i)
    ensures Rank(ls, i) < Rank(ls, j)
  {
    hide IsTask;
    if i + 1 < j { RankOrdersTasks(ls, i, j - 1); }
  }

  /** The line that renders as checkbox t. */
  function TaskLineOf(ls: seq<string>, t: nat, n: nat): (i: nat)
    requires n <= |ls| && t < Rank(ls, n)
    ensures i < n && IsTask(ls, i) && Rank(ls, i) == t
  {
    if IsTask(ls, n - 1) && Rank(ls, n - 1) == t then n - 1 else TaskLineOf(ls, t, n - 1)
  }

  /** What decides fences and indices: which lines are fences and which match the task pattern. */
  predicate SameSkeleton(a: seq<string>, b: seq<string>) {
    |a| == |b| && forall i :: 0 <= i < |a| ==> IsFence(a[i]) == IsFence(b[i]) && IsTaskLine(a[i]) == IsTaskLine(b[i])
  }

  lemma {:induction false} SkeletonFixesIndices(a: seq<string>, b: seq<string>, n: nat)
    requires SameSkeleton(a, b) && n <= |a|
    ensures InFence(a, n) == InFence(b, n) && Rank(a, n) == Rank(b, n)
  {
    hide IsFence, IsTaskLine, Groups;
    if n > 0 { SkeletonFixesIndices(a, b, n - 1); }
  }

  lemma RewritesKeepLineKind(line: string, checked: bool)
    ensures IsFence(NormalizeLine(line)) == IsFence(line) == IsFence(SetLine(line, checked))
    ensures IsTaskLine(NormalizeLine(line)) == IsTaskLine(line) == IsTaskLine(SetLine(line, checked))
  {
    hide IsTaskLine, IsFence;
    if IsTaskLine(line) { RewritesScan(line, checked); }
  }

  lemma RewritesKeepSkeleton(ls: seq<string>, index: int, checked: bool)
    ensures SameSkeleton(ls, NormalizeLines(ls)) && SameSkeleton(ls, SetLines(ls, index, checked))
    ensures forall n | 0 <= n <= |ls| :: InFence(NormalizeLines(ls), n) == InFence(ls, n) && Rank(NormalizeLines(ls), n) == Rank(ls, n)
    ensures forall n | 0 <= n <= |ls| ::
      InFence(SetLines(ls, index, checked), n) == InFence(ls, n) && Rank(SetLines(ls, index, checked), n) == Rank(ls, n)
  {
    RewritesAt(ls, index, checked);
    hide IsFence, IsTaskLine, NormalizeLine, SetLine, IsTask, Live, NormalizeLines, SetLines;
    forall i | 0 <= i < |ls|
      ensures IsFence(NormalizeLines(ls)[i]) == IsFence(ls[i]) == IsFence(SetLines(ls, index, checked)[i])
      ensures IsTaskLine(NormalizeLines(ls)[i]) == IsTaskLine(ls[i]) == IsTaskLine(SetLines(ls, index, checked)[i])
    {
      RewritesKeepLineKind(ls[i], checked);
    }
    assert SameSkeleton(ls, NormalizeLines(ls)) && SameSkeleton(ls, SetLines(ls, index, checked));
    forall n | 0 <= n <= |ls|
      ensures InFence(NormalizeLines(ls), n) == InFence(ls, n) && Rank(NormalizeLines(ls), n) == Rank(ls, n)
      ensures InFence(SetLines(ls, index, checked), n) == InFence(ls, n) && Rank(SetLines(ls, index, checked), n) == Rank(ls, n)
    {
      SkeletonFixesIndices(ls, NormalizeLines(ls), n);
      SkeletonFixesIndices(ls, SetLines(ls, index, checked), n);
    }
  }

  // ---------------------------------------------------------------- a document, as text

  function Lines(markdown: string): seq<string> { Split(markdown, '\n') }

  function Unlines(ls: seq<string>): string
    requires |ls| >= 1
  {
    Join(ls, '\n')
  }

  function Normalize(markdown: string): string { Unlines(NormalizeLines(Lines(markdown))) }

  function SetChecked(markdown: string, index: int, checked: bool): string {
    Unlines(SetLines(Lines(markdown), index, checked))
  }

  function TaskCount(markdown: string): nat { Rank(Lines(markdown), |Lines(markdown)|) }

  /** The state the reader sees in checkbox `index`, if there is one. */
  function Checkbox(markdown: string, index: int): Option<bool> {
    var ls := Lines(markdown);
    if 0 <= index < Rank(ls, |ls|)
    then Some(IsChecked(Groups(ls[TaskLineOf(ls, index, |ls|)]).mark))
    else None
  }

  /** Splitting a rewritten document gives back the rewritten lines. */
  lemma RewrittenLines(markdown: string, index: int, checked: bool)
    ensures Lines(Normalize(markdown)) == NormalizeLines(Lines(markdown))
    ensures Lines(SetChecked(markdown, index, checked)) == SetLines(Lines(markdown), index, checked)
  {
    hide NormalizeLine, SetLine, IsTaskLine, IsFence, Split, Join;
    var ls := Lines(markdown);
    RewritesAt(ls, index, checked);
    SplitSeparates(markdown, '\n');
    forall i | 0 <= i < |ls| ensures '\n' !in NormalizeLine(ls[i]) && '\n' !in SetLine(ls[i], checked) {
      RewritesStayOnOneLine(ls[i], checked);
    }
    SplitJoin(NormalizeLines(ls), '\n');
    SplitJoin(SetLines(ls, index, checked), '\n');
  }

  /** Documents with the same lines are the same text. */
  lemma LinesDetermine(a: string, b: string)
    requires Lines(a) == Lines(b)
    ensures a == b
  {
    JoinSplit(a, '\n');
    JoinSplit(b, '\n');
  }

  // ---------------------------------------------------------------- what is rewritten, spelled out

  /** A fence, as a decomposition: white space, then three back quotes or three tildes, then anything. */
  lemma FenceIs(line: string)
    ensures IsFence(line) <==> exists k :: 0 <= k <= |line| && All(line[..k], Space) && Opens(line[k..])
  {
    hide In;
    var i := Run(line, Space, 0);
    RunStops(line, Space, 0);
    assert line[0..i] == line[..i];
    if i + 3 <= |line| { assert line[i..i + 3] == line[i..][..3]; }
    if k :| 0 <= k <= |line| && All(line[..k], Space) && Opens(line[k..]) {
      assert line[k..][..3] == line[k..k + 3];
      assert line[k] == line[k..k + 3][0];
      assert !In('`', Space) && !In('~', Space) by { NotSpaces(); }
      assert forall j :: 0 <= j < k ==> line[j] == line[..k][j];
      RunIs(line, Space, 0, k);
    }
  }

  lemma NotSpaces()
    ensures !In('`', Space) && !In('~', Space)
  {}

  predicate Opens(text: string) { |text| >= 3 && (text[..3] == "```" || text[..3] == "~~~") }

  ghost function FencesBefore(ls: seq<string>, n: nat): set<nat>
    requires n <= |ls|
  {
    set i: nat | i < n && IsFence(ls[i])
  }

  ghost function TasksBefore(ls: seq<string>, n: nat): set<nat>
    requires n <= |ls|
  {
    set i: nat | i < n && IsTask(ls, i)
  }

  /** A line is inside a fenced block when an odd number of fences precede it. */
  lemma {:induction false} FencesAlternate(ls: seq<string>, n: nat)
    requires n <= |ls|
    ensures InFence(ls, n) <==> |FencesBefore(ls, n)| % 2 == 1
  {
    hide IsFence;
    if n > 0 {
      FencesAlternate(ls, n - 1);
      var before := FencesBefore(ls, n - 1);
      if IsFence(ls[n - 1]) {
        assert FencesBefore(ls, n) == before + {n - 1};
        assert |before + {n - 1}| == |before| + 1;
      } else {
        assert FencesBefore(ls, n) == before;
      }
    }
  }

  /** A check box is numbered by the task lines before its own. */
  lemma {:induction false} RanksCount(ls: seq<string>, n: nat)
    requires n <= |ls|
    ensures Rank(ls, n) == |TasksBefore(ls, n)|
  {
    hide IsTask;
    if n > 0 {
      RanksCount(ls, n - 1);
      var before := TasksBefore(ls, n - 1);
      assert TasksBefore(ls, n) == if IsTask(ls, n - 1) then before + {n - 1} else before;
    }
  }

  /** The lines with a check box: those that match the pattern after an even number of fences. */
  lemma TasksAreOutsideFences(ls: seq<string>, i: nat)
    requires i < |ls|
    ensures IsTask(ls, i) <==> IsTaskLine(ls[i]) && |FencesBefore(ls, i)| % 2 == 0
  {
    hide IsFence, IsTaskLine;
    FencesAlternate(ls, i);
    if IsTaskLine(ls[i]) { RewritesScan(ls[i], true); }
  }

  /**
   * Rendering gives each task line a "- " if it has no list marker and spells its box "[x]" or "[ ]"; nothing else of the
   * line changes, and no other line does.
   */
  lemma RenderedLineIs(markdown: string, i: nat)
    requires i < |Lines(markdown)| == |Lines(Normalize(markdown))|
    ensures var ls, line, out := Lines(markdown), Lines(markdown)[i], Lines(Normalize(markdown))[i];
      if IsTask(ls, i) then
        var g := Groups(line);
        && IsTaskLine(out) && Groups(out).indent == g.indent && Groups(out).space == g.space && Groups(out).rest == g.rest
        && Groups(out).marker == (if g.marker == "" then "- " else g.marker)
        && Groups(out).mark == (if g.mark == "x" || g.mark == "X" then "x" else " ")
      else out == line
  {
    hide IsFence, IsTaskLine, Groups, Split, Join, NormalizeLines, SetLines;
    RewrittenLines(markdown, 0, true);
    RewritesAt(Lines(markdown), 0, true);
    if IsTaskLine(Lines(markdown)[i]) { RewritesScan(Lines(markdown)[i], true); }
  }

  /** The same as text: whatever a task line is spelled as, this is what rendering makes of it. */
  lemma RenderedTextIs(markdown: string, i: nat, p: TaskLine)
    requires i < |Lines(markdown)| == |Lines(Normalize(markdown))| && |FencesBefore(Lines(markdown), i)| % 2 == 0
    requires WellFormed(p) && Lines(markdown)[i] == p.indent + p.marker + "[" + p.mark + "]" + p.space + p.rest
    ensures Lines(Normalize(markdown))[i] ==
      p.indent + (if p.marker == "" then "- " else p.marker) + (if p.mark == "x" || p.mark == "X" then "[x]" else "[ ]") + p.space + p.rest
  {
    hide IsTask, IsTaskLine, Groups, Lines, Normalize, Spelling, FencesBefore, IsMarker, All;
    var line, out := Lines(markdown)[i], Lines(Normalize(markdown))[i];
    SpellingIs(p);
    ScanIsTheMatch(line, p);
    TasksAreOutsideFences(Lines(markdown), i);
    RenderedLineIs(markdown, i);
    ScanIsTheMatch(out, Groups(out));
    SpellingIs(Groups(out));
    BoxText(Groups(out), p.mark == "x" || p.mark == "X");
  }

  lemma BoxText(q: TaskLine, checked: bool)
    requires q.mark == if checked then "x" else " "
    ensures q.indent + q.marker + "[" + q.mark + "]" + q.space + q.rest
         == q.indent + q.marker + (if checked then "[x]" else "[ ]") + q.space + q.rest
  {
    assert "[" + q.mark + "]" == if checked then "[x]" else "[ ]";
    assert q.indent + q.marker + "[" + q.mark + "]" == q.indent + q.marker + ("[" + q.mark + "]");
  }

  /** A toggle spells the one box it sets "[x]" or "[ ]" and changes nothing else of its line, not even a missing marker. */
  lemma ToggledLineIs(markdown: string, index: int, checked: bool, i: nat)
    requires i < |Lines(markdown)| == |Lines(SetChecked(markdown, index, checked))|
    ensures var ls, line, out := Lines(markdown), Lines(markdown)[i], Lines(SetChecked(markdown, index, checked))[i];
      if IsTask(ls, i) && |TasksBefore(ls, i)| == index then
        IsTaskLine(out) && Groups(out) == Groups(line).(mark := if checked then "x" else " ")
      else out == line
  {
    hide IsFence, IsTaskLine, Groups, Split, Join, NormalizeLines, SetLines;
    RanksCount(Lines(markdown), i);
    RewrittenLines(markdown, index, checked);
    RewritesAt(Lines(markdown), index, checked);
    if IsTaskLine(Lines(markdown)[i]) { RewritesScan(Lines(markdown)[i], checked); }
  }

  // ---------------------------------------------------------------- theorems

  /** Line by line, rendering commutes with toggling, and a second rendering changes nothing. */
  lemma LinewiseRewritesCommute(ls: seq<string>, index: int, checked: bool)
    ensures NormalizeLines(SetLines(ls, index, checked)) == SetLines(NormalizeLines(ls), index, checked)
    ensures NormalizeLines(NormalizeLines(ls)) == NormalizeLines(ls)
  {
    hide IsFence, IsTaskLine, Groups, NormalizeLines, SetLines;
    var n, s := NormalizeLines(ls), SetLines(ls, index, checked);
    RewritesKeepSkeleton(ls, index, checked);
    RewritesAt(ls, index, checked);
    RewritesAt(s, index, checked);
    RewritesAt(n, index, checked);
    forall i | 0 <= i < |ls| ensures NormalizeLines(s)[i] == SetLines(n, index, checked)[i] && NormalizeLines(n)[i] == n[i] {
      if IsTaskLine(ls[i]) { RewritesScan(ls[i], checked); }
    }
  }

  /** Toggling the source then rendering is rendering then toggling, for every document, index and state. */
  lemma RenderingCommutesWithToggling(markdown: string, index: int, checked: bool)
    ensures Normalize(SetChecked(markdown, index, checked)) == SetChecked(Normalize(markdown), index, checked)
  {
    hide Split, Join, NormalizeLines, SetLines;
    RewrittenLines(markdown, index, checked);
    LinewiseRewritesCommute(Lines(markdown), index, checked);
  }

  lemma NormalizingIsIdempotent(markdown: string)
    ensures Normalize(Normalize(markdown)) == Normalize(markdown)
  {
    hide Split, Join, NormalizeLines, SetLines;
    RewrittenLines(markdown, 0, true);
    LinewiseRewritesCommute(Lines(markdown), 0, true);
  }

  /** Neither rewrite adds or drops a checkbox, a line, or a fence; normalising keeps every checkbox's state. */
  lemma RewritesKeepStructure(markdown: string, index: int, checked: bool)
    ensures TaskCount(Normalize(markdown)) == TaskCount(markdown) == TaskCount(SetChecked(markdown, index, checked))
    ensures |Lines(Normalize(markdown))| == |Lines(markdown)| == |Lines(SetChecked(markdown, index, checked))|
    ensures forall n | 0 <= n <= |Lines(markdown)| ::
      InFence(Lines(Normalize(markdown)), n) == InFence(Lines(markdown), n) == InFence(Lines(SetChecked(markdown, index, checked)), n)
    ensures forall k: int :: Checkbox(Normalize(markdown), k) == Checkbox(markdown, k)
  {
    hide IsFence, IsTaskLine, Groups, Split, Join, NormalizeLines, SetLines;
    var ls := Lines(markdown);
    RewrittenLines(markdown, index, checked);
    RewritesKeepSkeleton(ls, index, checked);
    RewritesAt(ls, index, checked);
    forall k: int ensures Checkbox(Normalize(markdown), k) == Checkbox(markdown, k) {
      if 0 <= k < TaskCount(markdown) {
        var i := TaskLineOf(ls, k, |ls|);
        CheckboxIsAt(markdown, i);
        RewritesScan(ls[i], true);
        CheckboxIsAt(Normalize(markdown), i);
      }
    }
  }

  lemma RankIsInjective(ls: seq<string>, i: nat, j: nat)
    requires i < |ls| && j < |ls| && IsTask(ls, i) && IsTask(ls, j) && Rank(ls, i) == Rank(ls, j)
    ensures i == j
  {
    hide IsTask, Rank;
    if i < j { RankOrdersTasks(ls, i, j); }
    if j < i { RankOrdersTasks(ls, j, i); }
  }

  /** A task line carries the checkbox numbered by its rank. */
  lemma CheckboxIsAt(markdown: string, i: nat)
    requires i < |Lines(markdown)| && IsTask(Lines(markdown), i)
    ensures Checkbox(markdown, Rank(Lines(markdown), i))
         == Some(Groups(Lines(markdown)[i]).mark == "x" || Groups(Lines(markdown)[i]).mark == "X")
  {
    hide Lines, Rank, Live, IsTaskLine, Groups, TaskLineOf;
    var ls := Lines(markdown);
    RankOrdersTasks(ls, i, |ls|);
    RankIsInjective(ls, i, TaskLineOf(ls, Rank(ls, i), |ls|));
  }

  /** After a toggle, the checkbox reads as asked and every other one as before; at most its own line differs. */
  lemma ToggleIsRead(markdown: string, index: int, checked: bool)
    ensures forall k: int :: Checkbox(SetChecked(markdown, index, checked), k)
                 == if k == index && 0 <= index < TaskCount(markdown) then Some(checked) else Checkbox(markdown, k)
    ensures forall i | 0 <= i < |Lines(markdown)| && !(IsTask(Lines(markdown), i) && Rank(Lines(markdown), i) == index) ::
      |Lines(SetChecked(markdown, index, checked))| == |Lines(markdown)|
      && Lines(SetChecked(markdown, index, checked))[i] == Lines(markdown)[i]
  {
    hide IsFence, IsTaskLine, Groups, Split, Join, NormalizeLines, SetLines;
    var ls := Lines(markdown);
    var out := SetChecked(markdown, index, checked);
    RewrittenLines(markdown, index, checked);
    RewritesKeepSkeleton(ls, index, checked);
    RewritesAt(ls, index, checked);
    forall k: int
      ensures Checkbox(out, k) == if k == index && 0 <= index < TaskCount(markdown) then Some(checked) else Checkbox(markdown, k)
    {
      if 0 <= k < TaskCount(markdown) {
        var i := TaskLineOf(ls, k, |ls|);
        CheckboxIsAt(markdown, i);
        RewritesScan(ls[i], checked);
        CheckboxIsAt(out, i);
      }
    }
  }

  /** Toggles of different checkboxes commute; the later toggle of one checkbox wins. */
  lemma TogglesCompose(markdown: string, i: int, a: bool, j: int, b: bool)
    ensures SetChecked(SetChecked(markdown, i, a), j, b)
         == if i == j then SetChecked(markdown, j, b) else SetChecked(SetChecked(markdown, j, b), i, a)
  {
    hide IsFence, IsTaskLine, Groups, Split, Join, NormalizeLines, SetLines;
    var ls := Lines(markdown);
    var left := SetChecked(SetChecked(markdown, i, a), j, b);
    var right := if i == j then SetChecked(markdown, j, b) else SetChecked(SetChecked(markdown, j, b), i, a);
    RewrittenLines(markdown, i, a);
    RewrittenLines(markdown, j, b);
    RewrittenLines(SetChecked(markdown, i, a), j, b);
    RewrittenLines(SetChecked(markdown, j, b), i, a);
    RewritesKeepSkeleton(ls, i, a);
    RewritesKeepSkeleton(ls, j, b);
    RewritesAt(ls, i, a);
    RewritesAt(ls, j, b);
    RewritesAt(SetLines(ls, i, a), j, b);
    RewritesAt(SetLines(ls, j, b), i, a);
    forall n | 0 <= n < |ls| ensures Lines(left)[n] == Lines(right)[n] {
      if IsTaskLine(ls[n]) {
        RewritesScan(ls[n], a);
        RewritesScan(ls[n], b);
      }
    }
    assert Lines(left) == Lines(right);
    LinesDetermine(left, right);
  }

  lemma OutOfRangeToggleChangesNothing(markdown: string, index: int, checked: bool)
    requires !(0 <= index < TaskCount(markdown))
    ensures SetChecked(markdown, index, checked) == markdown
  {
    var ls := Lines(markdown);
    forall i | 0 <= i < |ls| && IsTask(ls, i) ensures Rank(ls, i) != index {
      RankOrdersTasks(ls, i, |ls|);
    }
    RewritesAt(ls, index, checked);
    assert SetLines(ls, index, checked) == ls;
    JoinSplit(markdown, '\n');
  }

  // ---------------------------------------------------------------- the loops

  method NormalizeTaskLines(markdown: string) returns (out: string)
    ensures out == Normalize(markdown)
  {
    hide IsFence, IsTaskLine, NormalizeLine, Split, Join;
    var ls := Lines(markdown);
    var lines := new string[|ls|](i requires 0 <= i < |ls| => ls[i]);
    var inFence := false;
    for i := 0 to lines.Length
      invariant inFence == InFence(ls, i)
      invariant lines[..i] == NormalizeUpTo(ls, i)
      invariant forall j :: i <= j < |ls| ==> lines[j] == ls[j]
    {
      assert lines[..i + 1] == lines[..i] + [ls[i]];
      if IsFence(lines[i]) {
        inFence := !inFence;
        continue;
      }
      if inFence { continue; }
      lines[i] := NormalizeLine(lines[i]);
      assert lines[..i + 1] == lines[..i] + [lines[i]];
    }
    assert lines[..] == lines[..|ls|];
    out := Unlines(lines[..]);
  }

  /** The task lines in document order: entry t is the line a callback sees with task index t. */
  method ForEachTaskLine(markdown: string) returns (visited: seq<nat>)
    ensures |visited| == TaskCount(markdown)
    ensures forall t :: 0 <= t < |visited| ==>
      visited[t] < |Lines(markdown)| && IsTask(Lines(markdown), visited[t]) && Rank(Lines(markdown), visited[t]) == t
  {
    hide IsFence, IsTaskLine, Groups, Split;
    var ls := Lines(markdown);
    var inFence := false;
    visited := [];
    for i := 0 to |ls|
      invariant inFence == InFence(ls, i) && |visited| == Rank(ls, i)
      invariant forall t :: 0 <= t < |visited| ==> visited[t] < i && IsTask(ls, visited[t]) && Rank(ls, visited[t]) == t
    {
      if IsFence(ls[i]) {
        inFence := !inFence;
        continue;
      }
      if inFence { continue; }
      if IsTaskLine(ls[i]) { visited := visited + [i]; }
    }
  }

  method CountTaskItems(markdown: string) returns (count: nat)
    ensures count == TaskCount(markdown)
  {
    var visited := ForEachTaskLine(markdown);
    count := 0;
    for t := 0 to |visited|
      invariant count == t
    {
      count := count + 1;
    }
  }

  method SetTaskItemChecked(markdown: string, index: int, checked: bool) returns (out: string)
    ensures out == SetChecked(markdown, index, checked)
  {
    hide IsFence, IsTaskLine, Groups, SetLine, Split, Join;
    var ls := Lines(markdown);
    var lines := new string[|ls|](i requires 0 <= i < |ls| => ls[i]);
    var visited := ForEachTaskLine(markdown);
    for t := 0 to |visited|
      invariant forall j | 0 <= j < |ls| ::
        lines[j] == if IsTask(ls, j) && Rank(ls, j) == index && index < t then SetLine(ls[j], checked) else ls[j]
    {
      var lineIndex := visited[t];
      if t == index {
        forall j | 0 <= j < |ls| && j != lineIndex && IsTask(ls, j) ensures Rank(ls, j) != t {
          if j < lineIndex { RankOrdersTasks(ls, j, lineIndex); } else { RankOrdersTasks(ls, lineIndex, j); }
        }
        lines[lineIndex] := SetLine(lines[lineIndex], checked);
      }
    }
    forall j | 0 <= j < |ls| && IsTask(ls, j) ensures Rank(ls, j) < |visited| {
      RankOrdersTasks(ls, j, |ls|);
    }
    RewritesAt(ls, index, checked);
    assert lines[..] == SetLines(ls, index, checked);
    out := Unlines(lines[..]);
  }
}
