/** Inline mentions: reading the mentioned users out of a note, and completing a half-typed one at the cursor. */
module Mentions {
  import opened Text
  import TaskList

  // ---------------------------------------------------------------- @[name](id), read left to right

  /** A match attempt at one position; the last two ran off the end of the text while still inside the name or the id. */
  datatype Attempt = Hit(id: string, end: nat) | Miss | OpenName | OpenId

  function AttemptAt(s: string, p: nat): (a: Attempt)
    requires p <= |s|
    ensures a.Hit? ==> p < a.end <= |s|
  {
    if p + 1 >= |s| || s[p] != '@' || s[p + 1] != '[' then Miss
    else
      var q := IndexOf(s, ']', p + 2);
      if q == |s| then OpenName
      else if q == p + 2 || q + 1 == |s| || s[q + 1] != '(' then Miss
      else
        var r := IndexOf(s, ')', q + 2);
        if r == |s| then OpenId
        else if r == q + 2 then Miss
        else Hit(s[q + 2..r], r + 1)
  }

  /** The ids of the non-overlapping matches from position p on. */
  function Ids(s: string, p: nat): seq<string>
    requires p <= |s|
    decreases |s| - p
  {
    if p == |s| then []
    else
      var a := AttemptAt(s, p);
      if a.Hit? then [a.id] + Ids(s, a.end) else Ids(s, p + 1)
  }

  /** Whether scanning from p comes to an id whose closing parenthesis is missing. */
  predicate LeavesIdOpen(s: string, p: nat)
    requires p <= |s|
    decreases |s| - p
  {
    p < |s| &&
    var a := AttemptAt(s, p);
    if a.Hit? then LeavesIdOpen(s, a.end) else a.OpenId? || LeavesIdOpen(s, p + 1)
  }

  function Add(ids: seq<string>, id: string): seq<string> { if id in ids then ids else ids + [id] }

  /** First occurrences, in order: what a Set keeps of the ids added to it. */
  function Dedup(ids: seq<string>): seq<string> {
    if ids == [] then [] else Add(Dedup(ids[..|ids| - 1]), ids[|ids| - 1])
  }

  function Extract(markdown: string): seq<string> { Dedup(Ids(markdown, 0)) }

  /** Each mentioned user is listed once, and nobody else is. */
  lemma {:induction false} DedupIsASet(ids: seq<string>)
    ensures forall u :: u in Dedup(ids) <==> u in ids
    ensures forall i, j :: 0 <= i < j < |Dedup(ids)| ==> Dedup(ids)[i] != Dedup(ids)[j]
  {
    if ids != [] {
      var n := |ids| - 1;
      DedupIsASet(ids[..n]);
      assert ids == ids[..n] + [ids[n]];
    }
  }

  /** The list follows the order of first appearance: whenever an entry appears in `all`, the entries listed before it have. */
  predicate InFirstOrder(list: seq<string>, all: seq<string>) {
    forall i, j, m :: 0 <= i < j < |list| && 0 <= m < |all| && all[m] == list[j] ==> list[i] in all[..m]
  }

  lemma {:induction false} DedupKeepsOrder(ids: seq<string>)
    ensures InFirstOrder(Dedup(ids), ids)
  {
    if ids != [] {
      var n := |ids| - 1;
      var less, list := Dedup(ids[..n]), Dedup(ids);
      DedupKeepsOrder(ids[..n]);
      DedupIsASet(ids[..n]);
      hide Dedup;
      forall i, j, m | 0 <= i < j < |list| && 0 <= m < |ids| && ids[m] == list[j] ensures list[i] in ids[..m] {
        assert list[i] == less[i] && less[i] in ids[..n];
        if m < n {
          assert ids[..n][m] == less[j];
          assert ids[..n][..m] == ids[..m];
        }
      }
    }
  }

  method ExtractMentionedUserIds(markdown: string) returns (ids: seq<string>)
    ensures ids == Extract(markdown)
    ensures forall i, j :: 0 <= i < j < |ids| ==> ids[i] != ids[j]
    ensures forall u :: u in ids <==> u in Ids(markdown, 0)
    ensures InFirstOrder(ids, Ids(markdown, 0))
  {
    hide AttemptAt;
    DedupKeepsOrder(Ids(markdown, 0));
    ghost var found := [];
    var p := 0;
    ids := [];
    while p < |markdown|
      invariant 0 <= p <= |markdown|
      invariant ids == Dedup(found) && found + Ids(markdown, p) == Ids(markdown, 0)
    {
      var a := AttemptAt(markdown, p);
      if a.Hit? {
        ghost var next := found + [a.id];
        assert next[..|next| - 1] == found;
        assert found + ([a.id] + Ids(markdown, a.end)) == next + Ids(markdown, a.end);
        if a.id !in ids { ids := ids + [a.id]; }
        found := next;
        p := a.end;
      } else {
        p := p + 1;
      }
    }
    assert found == Ids(markdown, 0);
    DedupIsASet(found);
  }

  // ---------------------------------------------------------------- the mention being typed

  predicate IsQueryChar(c: char) {
    'a' <= c <= 'z' || 'A' <= c <= 'Z' || '0' <= c <= '9' || c == '.' || c == '_' || c == '-'
  }

  lemma QueryCharsAre(c: char)
    ensures IsQueryChar(c) <==> c in "abcdefghijklmnopqrstuvwxyz" || c in "ABCDEFGHIJKLMNOPQRSTUVWXYZ" || c in "0123456789._-"
  {}

  /** The '@' at position i opens a query that runs to the end of the text. */
  predicate IsTrigger(text: string, i: nat) {
    && i < |text| && text[i] == '@' && (i == 0 || TaskList.In(text[i - 1], TaskList.Space))
    && |text| - i - 1 <= 32
    && forall k :: i < k < |text| ==> IsQueryChar(text[k])
  }

  /** The text ends in a half-typed mention: white space or nothing, then '@', then at most 32 characters of a user name. */
  predicate Typing(text: string, before: string, query: string) {
    && text == before + "@" + query && |query| <= 32
    && (before == "" || TaskList.In(before[|before| - 1], TaskList.Space))
    && forall k :: 0 <= k < |query| ==> IsQueryChar(query[k])
  }

  lemma TriggerIsTyping(text: string, i: nat)
    requires i < |text|
    ensures IsTrigger(text, i) <==> Typing(text, text[..i], text[i + 1..])
  {
    hide IsQueryChar, TaskList.In;
    if text[i] == '@' { assert text == text[..i] + "@" + text[i + 1..]; }
    if IsTrigger(text, i) {
      var query := text[i + 1..];
      forall k | 0 <= k < |query| ensures IsQueryChar(query[k]) { assert query[k] == text[i + 1 + k]; }
    }
    if Typing(text, text[..i], text[i + 1..]) {
      forall k | i < k < |text| ensures IsQueryChar(text[k]) { assert text[k] == text[i + 1..][k - i - 1]; }
    }
  }

  lemma AtIsNoQueryChar()
    ensures !IsQueryChar('@')
  {}

  /** A text ends in one half-typed mention at most. */
  lemma TypingOnce(text: string, before: string, query: string, i: nat)
    requires Typing(text, before, query) && IsTrigger(text, i)
    ensures i == |before| && query == text[i + 1..] && before == text[..i]
  {
    hide IsQueryChar, TaskList.In;
    AtIsNoQueryChar();
    assert text[|before|] == '@' && text[|before| + 1..] == query && text[..|before|] == before;
    TriggerIsTyping(text, |before|);
  }

  datatype Query = Query(query: string, start: nat, end: nat)

  /** Finds the half-typed mention before the cursor, exactly when there is one. */
  method FindMentionQuery(text: string, cursor: nat) returns (m: Option<Query>)
    ensures var up := if cursor <= |text| then text[..cursor] else text;
      && (m.Some? ==> m.value.end == cursor && m.value.start < |up| && Typing(up, up[..m.value.start], m.value.query))
      && (forall before, query :: Typing(up, before, query) ==> m == Some(Query(query, |before|, cursor)))
  {
    hide IsTrigger, Typing;
    var up := if cursor <= |text| then text[..cursor] else text;
    for i := 0 to |up|
      invariant forall k: nat :: k < i ==> !IsTrigger(up, k)
    {
      if IsTrigger(up, i) {
        TriggerIsTyping(up, i);
        forall before, query | Typing(up, before, query) ensures i == |before| && query == up[i + 1..] { TypingOnce(up, before, query, i); }
        return Some(Query(up[i + 1..], i, cursor));
      }
    }
    forall before, query ensures !Typing(up, before, query) {
      if Typing(up, before, query) { TypingHasTrigger(up, before, query); }
    }
    m := None;
  }

  lemma TypingHasTrigger(text: string, before: string, query: string)
    requires Typing(text, before, query)
    ensures |before| < |text| && IsTrigger(text, |before|)
  {
    assert text[|before| + 1..] == query && text[..|before|] == before;
    TriggerIsTyping(text, |before|);
  }

  // ---------------------------------------------------------------- completing it

  function Token(name: string, id: string): string { "@[" + name + "](" + id + ")" }

  function InsertMention(text: string, m: Query, name: string, id: string): string
    requires m.start <= |text| && m.end <= |text|
  {
    text[..m.start] + Token(name, id) + " " + text[m.end..]
  }

  // ---------------------------------------------------------------- what is read

  /** A mention is spelled at position p: a name without ']' and an id without ')', neither empty. */
  predicate Spelled(s: string, p: nat, name: string, id: string) {
    && name != "" && ']' !in name && id != "" && ')' !in id
    && p + |name| + |id| + 5 <= |s| && s[p..p + |name| + |id| + 5] == "@[" + name + "](" + id + ")"
  }

  ghost predicate SpelledAt(s: string, p: nat) { exists name, id :: Spelled(s, p, name, id) }

  /** An attempt hits exactly where a mention is spelled, with its id and to its end. */
  lemma HitsAreSpelled(s: string, p: nat, name: string, id: string)
    requires p <= |s|
    ensures Spelled(s, p, name, id) ==> AttemptAt(s, p) == Hit(id, p + |name| + |id| + 5)
    ensures AttemptAt(s, p).Hit? <==> SpelledAt(s, p)
  {
    hide AttemptAt, Spelled;
    if Spelled(s, p, name, id) { SpelledIsHit(s, p, name, id); }
    if AttemptAt(s, p).Hit? { HitIsSpelled(s, p); }
    if n, i :| Spelled(s, p, n, i) { SpelledIsHit(s, p, n, i); }
  }

  lemma SpelledIsHit(s: string, p: nat, name: string, id: string)
    requires p <= |s| && Spelled(s, p, name, id)
    ensures AttemptAt(s, p) == Hit(id, p + |name| + |id| + 5)
  {
    var end := p + |name| + |id| + 5;
    assert s == s[..p] + (Token(name, id) + s[end..]);
    TokenIsRead(s[..p], name, id, s[end..]);
  }

  lemma HitIsSpelled(s: string, p: nat)
    requires p <= |s| && AttemptAt(s, p).Hit?
    ensures SpelledAt(s, p)
  {
    var q := IndexOf(s, ']', p + 2);
    var r := IndexOf(s, ')', q + 2);
    forall j | p + 2 <= j < q ensures s[j] != ']' { IndexOfIsFirst(s, ']', p + 2, j); }
    forall j | q + 2 <= j < r ensures s[j] != ')' { IndexOfIsFirst(s, ')', q + 2, j); }
    hide IndexOf;
    Spelling(s, p, q, r);
    assert Spelled(s, p, s[p + 2..q], s[q + 2..r]);
  }

  lemma Spelling(s: string, p: nat, q: nat, r: nat)
    requires p + 2 <= q && q + 2 <= r < |s|
    requires s[p] == '@' && s[p + 1] == '[' && s[q] == ']' && s[q + 1] == '(' && s[r] == ')'
    ensures s[p..r + 1] == "@[" + s[p + 2..q] + "](" + s[q + 2..r] + ")"
  {
    TaskList.GlueTwo(s[p..], 2, q - p, q + 2 - p);
    TaskList.GlueTwo(s[p..], q + 2 - p, r - p, r + 1 - p);
  }

  /** Reading takes the first mention spelled from p on and goes on behind it. */
  lemma {:induction false} FirstMentionIsRead(s: string, p: nat, i: nat, name: string, id: string)
    requires p <= i && Spelled(s, i, name, id) && forall j :: p <= j < i ==> !SpelledAt(s, j)
    ensures Ids(s, p) == [id] + Ids(s, i + |name| + |id| + 5)
    decreases i - p
  {
    hide AttemptAt, Spelled;
    assert i + 5 <= |s| by { SpelledFits(s, i, name, id); }
    HitsAreSpelled(s, p, name, id);
    if p < i { FirstMentionIsRead(s, p + 1, i, name, id); }
  }

  lemma SpelledFits(s: string, i: nat, name: string, id: string)
    requires Spelled(s, i, name, id)
    ensures i + |name| + |id| + 5 <= |s|
  {}

  /** Where no mention is spelled nothing is read. */
  lemma {:induction false} NoMentionIsRead(s: string, p: nat)
    requires p <= |s| && forall j :: p <= j < |s| ==> !SpelledAt(s, j)
    ensures Ids(s, p) == []
    decreases |s| - p
  {
    hide AttemptAt, Spelled;
    if p < |s| {
      HitsAreSpelled(s, p, "", "");
      NoMentionIsRead(s, p + 1);
    }
  }

  /** Reading does not look back: a text read from p on is its suffix read from the start. */
  lemma {:induction false} IdsShift(x: string, y: string, p: nat)
    requires p <= |y|
    ensures Ids(x + y, |x| + p) == Ids(y, p)
    decreases |y| - p
  {
    if p < |y| {
      AttemptShift(x, y, p);
      var a := AttemptAt(y, p);
      if a.Hit? { IdsShift(x, y, a.end); } else { IdsShift(x, y, p + 1); }
    }
  }

  lemma {:induction false} IndexShift(x: string, y: string, c: char, i: nat)
    requires i <= |y|
    ensures IndexOf(x + y, c, |x| + i) == |x| + IndexOf(y, c, i)
    decreases |y| - i
  {
    if i < |y| { IndexShift(x, y, c, i + 1); }
  }

  lemma AttemptShift(x: string, y: string, p: nat)
    requires p <= |y|
    ensures AttemptAt(x + y, |x| + p) == match AttemptAt(y, p) case Hit(id, end) => Hit(id, |x| + end) case a => a
  {
    hide IndexOf;
    if p + 1 < |y| && y[p] == '@' && y[p + 1] == '[' {
      IndexShift(x, y, ']', p + 2);
      var q := IndexOf(y, ']', p + 2);
      if q + 2 <= |y| {
        IndexShift(x, y, ')', q + 2);
        var r := IndexOf(y, ')', q + 2);
        assert (x + y)[|x| + q + 2..|x| + r] == y[q + 2..r];
      }
    }
  }

  /** Nothing is read once the next ']' has no ')' behind it. */
  lemma {:induction false} NothingClosed(s: string, p: nat, q: nat)
    requires p <= |s|
    requires forall j :: p + 2 <= j < q && j < |s| ==> s[j] != ']'
    requires forall j :: q + 2 <= j < |s| ==> s[j] != ')'
    ensures Ids(s, p) == []
    decreases |s| - p
  {
    if p < |s| { NothingClosed(s, p + 1, q); }
  }

  /** The characters of a token, and of what stands around it. */
  lemma TokenChars(b: string, name: string, id: string, rest: string)
    ensures var t, n, e := b + (Token(name, id) + rest), |b| + 2 + |name|, |b| + 4 + |name| + |id|;
      && |b| + |Token(name, id)| == e + 1 <= |t|
      && t[|b|] == '@' && t[|b| + 1] == '[' && t[n] == ']' && t[n + 1] == '(' && t[e] == ')'
      && t[|b| + 2..n] == name && t[n + 2..e] == id
  {}

  /** Where the token's name and id end, for a reader that has come to them. */
  lemma TokenEnds(b: string, name: string, id: string, rest: string)
    requires ']' !in name && ')' !in id
    ensures var t, n := b + (Token(name, id) + rest), |b| + 2 + |name|;
      n + 2 <= |t| && IndexOf(t, ']', |b| + 2) == n && IndexOf(t, ')', n + 2) == n + 2 + |id|
  {
    var t := b + (Token(name, id) + rest);
    var n := |b| + 2 + |name|;
    TokenChars(b, name, id, rest);
    hide Token, IndexOf;
    forall j | |b| + 2 <= j < n ensures t[j] != ']' { assert t[j] == t[|b| + 2..n][j - |b| - 2]; }
    forall j | n + 2 <= j < n + 2 + |id| ensures t[j] != ')' { assert t[j] == t[n + 2..n + 2 + |id|][j - n - 2]; }
    IndexOfIs(t, ']', |b| + 2, n);
    IndexOfIs(t, ')', n + 2, n + 2 + |id|);
  }

  /** A token is read as the mention it spells. */
  lemma TokenIsRead(b: string, name: string, id: string, rest: string)
    requires name != "" && ']' !in name && id != "" && ')' !in id
    ensures AttemptAt(b + (Token(name, id) + rest), |b|) == Hit(id, |b| + |Token(name, id)|)
  {
    TokenChars(b, name, id, rest);
    TokenEnds(b, name, id, rest);
    hide Token, IndexOf;
  }

  lemma {:induction false} IndexBefore(b: string, x: string, c: char, i: nat)
    requires i <= |b| && IndexOf(b, c, i) < |b|
    ensures IndexOf(b + x, c, i) == IndexOf(b, c, i)
    decreases |b| - i
  {
    if b[i] != c { IndexBefore(b, x, c, i + 1); }
  }

  lemma {:induction false} IndexRunsOn(b: string, x: string, c: char, i: nat)
    requires i <= |b| && IndexOf(b, c, i) == |b|
    ensures IndexOf(b + x, c, i) == IndexOf(b + x, c, |b|)
    decreases |b| - i
  {
    if i < |b| { IndexRunsOn(b, x, c, i + 1); }
  }

  /** An open name takes in the token's start and ends with the token's name, so that the token's id is read. */
  lemma NameRunsOn(b: string, name: string, id: string, rest: string, i: nat)
    requires i <= |b| && ']' !in name && ')' !in id && IndexOf(b, ']', i) == |b|
    ensures var t := b + (Token(name, id) + rest);
      IndexOf(t, ']', i) == |b| + 2 + |name|
  {
    var t := b + (Token(name, id) + rest);
    IndexRunsOn(b, Token(name, id) + rest, ']', i);
    TokenEnds(b, name, id, rest);
    TokenChars(b, name, id, rest);
    hide Token;
  }

  /** An open id swallows the start of what follows. */
  lemma IdRunsOn(b: string, x: string, i: nat)
    requires i <= |b| && IndexOf(b, ')', i) == |b| && x != "" && x[0] == '@' && ')' in x
    ensures var r := IndexOf(b + x, ')', i); |b| < r < |b + x| && '@' in (b + x)[i..r]
  {
    IndexRunsOn(b, x, ')', i);
    hide IndexOf;
    var r := IndexOf(b + x, ')', |b|);
    var k :| 0 <= k < |x| && x[k] == ')';
    assert (b + x)[|b| + k] == ')' && (b + x)[|b|] == '@';
    if r == |b + x| { IndexOfIsFirst(b + x, ')', |b|, |b| + k); }
    assert (b + x)[i..r][|b| - i] == '@';
  }

  /** An open name takes the token in. */
  lemma OpenNameBefore(b: string, name: string, id: string, rest: string, p: nat)
    requires p < |b| && AttemptAt(b, p).OpenName? && name != "" && ']' !in name && id != "" && ')' !in id
    ensures AttemptAt(b + (Token(name, id) + rest), p) == Hit(id, |b| + |Token(name, id)|)
  {
    var t, q := b + (Token(name, id) + rest), |b| + 2 + |name|;
    NameRunsOn(b, name, id, rest, p + 2);
    TokenChars(b, name, id, rest);
    TokenEnds(b, name, id, rest);
    hide Token, IndexOf;
    HitBetween(t, p, q, q + 2 + |id|);
  }

  lemma HitBetween(t: string, p: nat, q: nat, r: nat)
    requires p + 2 < q && q + 2 < r < |t| && t[p] == '@' && t[p + 1] == '[' && t[q] == ']' && t[q + 1] == '('
    requires IndexOf(t, ']', p + 2) == q && IndexOf(t, ')', q + 2) == r
    ensures AttemptAt(t, p) == Hit(t[q + 2..r], r + 1)
  {
    hide IndexOf;
  }

  lemma MissWithoutParenthesis(t: string, p: nat)
    requires p + 2 <= |t| && var q := IndexOf(t, ']', p + 2); q + 1 < |t| && t[q + 1] != '('
    ensures AttemptAt(t, p).Miss?
  {
    hide IndexOf;
  }

  lemma IdBefore(b: string, x: string, i: nat)
    requires i <= |b| && x != "" && x[0] == '@' && ')' in x
    ensures var r, r' := IndexOf(b, ')', i), IndexOf(b + x, ')', i);
      if r < |b| then r' == r && (b + x)[i..r'] == b[i..r] else |b| < r' < |b + x| && '@' in (b + x)[i..r']
  {
    hide IndexOf;
    if IndexOf(b, ')', i) == |b| { IdRunsOn(b, x, i); } else { IndexBefore(b, x, ')', i); }
  }

  lemma ClosedNameBefore(b: string, x: string, p: nat, q: nat)
    requires p + 1 < |b| && b[p] == '@' && b[p + 1] == '[' && q == IndexOf(b, ']', p + 2) < |b|
    requires x != "" && x[0] == '@' && ')' in x
    ensures var a, a' := AttemptAt(b, p), AttemptAt(b + x, p);
      match a
      case OpenName => false
      case OpenId => a'.Hit? && '@' in a'.id
      case _ => a' == a
  {
    hide IndexOf;
    IndexBefore(b, x, ']', p + 2);
    if q + 1 < |b| && b[q + 1] == '(' { IdBefore(b, x, q + 2); }
  }

  /** An id left open before a text that starts with '@' and closes it takes the start of that text in. */
  lemma {:induction false} OpenIdSwallows(b: string, x: string, p: nat)
    requires p <= |b| && LeavesIdOpen(b, p) && x != "" && x[0] == '@' && ')' in x
    ensures var ids := Ids(b + x, p); |ids| > |Ids(b, p)| && '@' in ids[|Ids(b, p)|]
    decreases |b| - p
  {
    ReadOn(b, x, p);
    var a := AttemptAt(b, p);
    if a.OpenName? || a.OpenId? { OpenReadsNothing(b, p); }
    hide AttemptAt;
    if a.Hit? { OpenIdSwallows(b, x, a.end); } else if a.Miss? { OpenIdSwallows(b, x, p + 1); }
  }

  /** What follows changes no attempt that was over before. */
  lemma ReadOn(b: string, x: string, p: nat)
    requires p < |b| && x != "" && x[0] == '@' && ')' in x
    ensures var a, a' := AttemptAt(b, p), AttemptAt(b + x, p);
      match a
      case Hit(_, _) => a' == a
      case Miss => a'.Miss?
      case OpenName => true
      case OpenId => a'.Hit? && '@' in a'.id
  {
    if p + 1 < |b| && b[p] == '@' && b[p + 1] == '[' {
      var q := IndexOf(b, ']', p + 2);
      if q < |b| { ClosedNameBefore(b, x, p, q); }
    }
  }

  lemma TokenOpensAndCloses(name: string, id: string, rest: string)
    ensures var x := Token(name, id) + rest; x != "" && x[0] == '@' && ')' in x
  {
    assert (Token(name, id) + rest)[|Token(name, id)| - 1] == ')';
  }

  /** Reading a text with a token in it, from a position before the token that leaves no id open. */
  lemma {:induction false} IdsAround(b: string, name: string, id: string, rest: string, p: nat)
    requires p <= |b| && !LeavesIdOpen(b, p) && name != "" && ']' !in name && id != "" && ')' !in id
    ensures Ids(b + (Token(name, id) + rest), p) == Ids(b, p) + [id] + Ids(rest, 0)
    decreases |b| - p
  {
    hide AttemptAt, Token;
    var k := Token(name, id);
    IdsShift(b + k, rest, 0);
    assert b + (k + rest) == (b + k) + rest;
    TokenIsRead(b, name, id, rest);
    if p < |b| {
      TokenOpensAndCloses(name, id, rest);
      ReadOn(b, k + rest, p);
      match AttemptAt(b, p) {
        case Hit(_, end) => IdsAround(b, name, id, rest, end);
        case Miss => IdsAround(b, name, id, rest, p + 1);
        case OpenName =>
          OpenNameBefore(b, name, id, rest, p);
          OpenReadsNothing(b, p);
      }
    }
  }

  // ---------------------------------------------------------------- a display name with a ']'

  /** The ']' that ends the name is followed by no '('. */
  lemma BrokenTokenEnds(b: string, name: string, id: string, rest: string)
    requires ']' in name && '(' !in name
    ensures var t := b + (Token(name, id) + rest);
      |b| + 2 <= |t| && var q := IndexOf(t, ']', |b| + 2); q + 1 < |t| && t[q + 1] != '('
  {
    var t := b + (Token(name, id) + rest);
    TokenChars(b, name, id, rest);
    hide Token, IndexOf;
    var n, q := |b| + 2, IndexOf(t, ']', |b| + 2);
    var k :| 0 <= k < |name| && name[k] == ']';
    assert t[n + k] == t[n..n + |name|][k];
    if q > n + k { IndexOfIsFirst(t, ']', n, n + k); }
    if q + 1 < n + |name| { assert t[q + 1] == t[n..n + |name|][q + 1 - n]; }
  }

  /** So no attempt that comes to it reads anything. */
  lemma BrokenTokenMisses(b: string, name: string, id: string, rest: string, p: nat)
    requires ']' in name && '(' !in name && p < |b| && AttemptAt(b, p).OpenName?
    ensures AttemptAt(b + (Token(name, id) + rest), p).Miss?
  {
    var x := Token(name, id) + rest;
    IndexRunsOn(b, x, ']', p + 2);
    BrokenTokenEnds(b, name, id, rest);
    TokenChars(b, name, id, rest);
    hide Token;
    assert IndexOf(b + x, ']', |b|) == IndexOf(b + x, ']', |b| + 2);
    hide IndexOf, AttemptAt;
    MissWithoutParenthesis(b + x, p);
  }

  lemma Regroup(b: string, k: string, rest: string)
    requires k != ""
    ensures b + (k + rest) == (b + k[..1]) + (k[1..] + rest) && |b + k[..1]| == |b| + 1
  {}

  lemma NoAtBehindTokenStart(name: string, id: string)
    requires '@' !in name && '@' !in id
    ensures '@' !in Token(name, id)[1..]
  {
    assert Token(name, id)[1..] == "[" + name + "](" + id + ")";
  }

  lemma BrokenTokenIsMissed(b: string, name: string, id: string, rest: string)
    requires ']' in name && '(' !in name
    ensures var t := b + (Token(name, id) + rest); |b| < |t| && Ids(t, |b|) == Ids(t, |b| + 1)
  {
    BrokenTokenEnds(b, name, id, rest);
    hide Token, AttemptAt, IndexOf;
    MissWithoutParenthesis(b + (Token(name, id) + rest), |b|);
  }

  /** A broken token and the text behind it read as the text behind it. */
  lemma BrokenTokenIsSkipped(b: string, name: string, id: string, rest: string)
    requires ']' in name && '(' !in name && '@' !in name && '@' !in id
    ensures Ids(b + (Token(name, id) + rest), |b|) == Ids(rest, 0)
  {
    var k := Token(name, id);
    assert k != "";
    NoAtBehindTokenStart(name, id);
    BrokenTokenIsMissed(b, name, id, rest);
    hide Token, AttemptAt, Ids;
    Regroup(b, k, rest);
    IdsShift(b + k[..1], k[1..] + rest, 0);
    NoAtIsSkipped(k[1..], rest);
  }

  lemma {:induction false} IdsAroundBroken(b: string, name: string, id: string, rest: string, p: nat)
    requires p <= |b| && !LeavesIdOpen(b, p) && ']' in name && '(' !in name && '@' !in name && '@' !in id
    ensures Ids(b + (Token(name, id) + rest), p) == Ids(b, p) + Ids(rest, 0)
    decreases |b| - p
  {
    hide Token;
    var x := Token(name, id) + rest;
    if p == |b| {
      BrokenTokenIsSkipped(b, name, id, rest);
    } else {
      TokenOpensAndCloses(name, id, rest);
      ReadOn(b, x, p);
      if AttemptAt(b, p).OpenName? { BrokenTokenMisses(b, name, id, rest, p); }
      hide AttemptAt;
      if AttemptAt(b, p).Hit? {
        IdsAroundBroken(b, name, id, rest, AttemptAt(b, p).end);
      } else {
        IdsAroundBroken(b, name, id, rest, p + 1);
      }
    }
  }

  /** An attempt that runs off the end is the last: nothing is read after it. */
  lemma OpenReadsNothing(b: string, p: nat)
    requires p < |b| && (AttemptAt(b, p).OpenName? || AttemptAt(b, p).OpenId?)
    ensures Ids(b, p) == [] && (AttemptAt(b, p).OpenName? ==> !LeavesIdOpen(b, p))
  {
    var q := IndexOf(b, ']', p + 2);
    forall j | p + 2 <= j < q ensures b[j] != ']' { IndexOfIsFirst(b, ']', p + 2, j); }
    if q + 2 <= |b| {
      forall j | q + 2 <= j < |b| ensures b[j] != ')' { IndexOfIsFirst(b, ')', q + 2, j); }
    }
    NothingClosed(b, p, q);
    if q == |b| { NoIdLeftOpen(b, p); }
  }

  lemma {:induction false} NoIdLeftOpen(s: string, p: nat)
    requires p <= |s| && forall j :: p + 2 <= j < |s| ==> s[j] != ']'
    ensures !LeavesIdOpen(s, p)
    decreases |s| - p
  {
    if p < |s| { NoIdLeftOpen(s, p + 1); }
  }

  /** A nonempty name; one with a ']' has no '(' or '@', so that what stands behind the ']' starts no mention of its own. */
  predicate PlainName(name: string) { name != "" && (']' in name ==> '(' !in name && '@' !in name) }

  predicate PlainId(id: string) { id != "" && ')' !in id && '@' !in id }

  /**
   * Completing a mention adds exactly its user to the mentions read before and after it, if and only if the display name
   * has no ']' and no earlier mention has been left without its closing parenthesis. (An earlier "@[" left without its
   * "]" is harmless.) Names are inserted as they are: with a ']' the token mentions nobody.
   */
  lemma InsertedMentionIsRead(text: string, m: Query, name: string, id: string)
    requires m.start <= |text| && m.end <= |text| && PlainName(name) && PlainId(id)
    ensures var before, after, ids := text[..m.start], text[m.end..], Ids(InsertMention(text, m, name, id), 0);
      && (ids == Ids(before, 0) + [id] + Ids(after, 0) <==> ']' !in name && !LeavesIdOpen(before, 0))
      && (']' in name && !LeavesIdOpen(before, 0) ==> ids == Ids(before, 0) + Ids(after, 0))
  {
    hide Token, AttemptAt;
    var before, after := text[..m.start], text[m.end..];
    assert InsertMention(text, m, name, id) == before + (Token(name, id) + (" " + after));
    SpaceIsSkipped(after);
    if LeavesIdOpen(before, 0) {
      TokenOpensAndCloses(name, id, " " + after);
      OpenIdSwallows(before, Token(name, id) + (" " + after), 0);
    } else if ']' in name {
      IdsAroundBroken(before, name, id, " " + after, 0);
    } else {
      IdsAround(before, name, id, " " + after, 0);
    }
  }

  lemma SpaceIsSkipped(after: string)
    ensures Ids(" " + after, 0) == Ids(after, 0)
  {
    IdsShift(" ", after, 0);
  }

  /** The saved list is the earlier users, the new one if its name has no ']', then the later ones, each once. */
  lemma InsertedMentionIsExtracted(text: string, m: Query, name: string, id: string)
    requires m.start <= |text| && m.end <= |text| && !LeavesIdOpen(text[..m.start], 0) && PlainName(name) && PlainId(id)
    ensures var before, after, ids := text[..m.start], text[m.end..], Extract(InsertMention(text, m, name, id));
      && ids == Dedup(Ids(before, 0) + (if ']' in name then [] else [id]) + Ids(after, 0))
      && (forall u :: u in ids <==> u in Extract(before) || (u == id && ']' !in name) || u in Extract(after))
  {
    hide InsertMention, LeavesIdOpen, Ids, Dedup;
    var before, after := text[..m.start], text[m.end..];
    InsertedMentionIsRead(text, m, name, id);
    DedupIsASet(Ids(before, 0));
    DedupIsASet(Ids(after, 0));
    var all := Ids(before, 0) + (if ']' in name then [] else [id]) + Ids(after, 0);
    DedupIsASet(all);
    assert Ids(before, 0) + [] == Ids(before, 0);
    assert forall u :: u in all <==> u in Ids(before, 0) || (u == id && ']' !in name) || u in Ids(after, 0);
  }

  lemma {:induction false} NoAtIsSkipped(x: string, y: string)
    requires '@' !in x
    ensures Ids(x + y, 0) == Ids(y, 0)
  {
    if x == "" {
      assert x + y == y;
    } else {
      assert x + y == x[..1] + (x[1..] + y);
      IdsShift(x[..1], x[1..] + y, 0);
      NoAtIsSkipped(x[1..], y);
    }
  }
}
