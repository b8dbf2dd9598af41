/** Strings: the option type, newline splitting, and the lexicographic order SQLite uses on TEXT columns. */
module Text {

  datatype Option<+T> = None | Some(value: T)

  /** Lexicographic order on character codes: the BINARY collation of a TEXT column. */
  predicate Less(a: string, b: string) {
    if b == "" then false
    else if a == "" then true
    else if a[0] != b[0] then a[0] < b[0]
    else Less(a[1..], b[1..])
  }

  lemma {:induction false} LessTrichotomy(a: string, b: string)
    ensures a == b <==> !Less(a, b) && !Less(b, a)
    ensures !(Less(a, b) && Less(b, a))
  {
    if a != "" && b != "" {
      LessTrichotomy(a[1..], b[1..]);
      assert a == [a[0]] + a[1..] && b == [b[0]] + b[1..];
    }
  }

  lemma {:induction false} LessTransitive(a: string, b: string, c: string)
    requires Less(a, b) && Less(b, c)
    ensures Less(a, c)
  {
    if a != "" && a[0] == b[0] == c[0] {
      LessTransitive(a[1..], b[1..], c[1..]);
    }
  }

  /** Texts that open with fields of one width are ordered by that field first. */
  lemma {:induction false} LessByField(a: string, b: string, x: string, y: string)
    requires |a| == |b|
    ensures Less(a + x, b + y) <==> Less(a, b) || (a == b && Less(x, y))
  {
    if a == "" {
      assert a + x == x && b + y == y;
    } else {
      assert (a + x)[1..] == a[1..] + x && (b + y)[1..] == b[1..] + y;
      assert a == [a[0]] + a[1..] && b == [b[0]] + b[1..];
      LessByField(a[1..], b[1..], x, y);
    }
  }

  /** The pieces of s between separators; "" has the single piece "". */
  function Split(s: string, sep: char): (pieces: seq<string>)
    ensures |pieces| >= 1
  {
    if s == "" then [""]
    else
      var rest := Split(s[1..], sep);
      if s[0] == sep then [""] + rest
      else [[s[0]] + rest[0]] + rest[1..]
  }

  lemma {:induction false} SplitSeparates(s: string, sep: char)
    ensures forall i :: 0 <= i < |Split(s, sep)| ==> sep !in Split(s, sep)[i]
  {
    if s != "" { SplitSeparates(s[1..], sep); }
  }

  /** Appends the pieces from the i-th on to a text, each after a separator. */
  function JoinOnto(text: string, pieces: seq<string>, sep: char, i: nat): string
    requires i <= |pieces|
    decreases |pieces| - i
  {
    if i == |pieces| then text else JoinOnto(text + [sep] + pieces[i], pieces, sep, i + 1)
  }

  function Join(pieces: seq<string>, sep: char): string
    requires |pieces| >= 1
  {
    JoinOnto(pieces[0], pieces, sep, 1)
  }

  lemma {:induction false} JoinOntoPrefix(a: string, b: string, p: seq<string>, i: nat, q: seq<string>, j: nat, sep: char)
    requires i <= |p| && j <= |q| && p[i..] == q[j..]
    ensures JoinOnto(a + b, p, sep, i) == a + JoinOnto(b, q, sep, j)
    decreases |p| - i
  {
    if i < |p| {
      assert p[i] == p[i..][0] == q[j..][0] == q[j];
      assert p[i + 1..] == p[i..][1..] == q[j + 1..];
      assert a + b + [sep] + p[i] == a + (b + [sep] + q[j]);
      JoinOntoPrefix(a, b + [sep] + q[j], p, i + 1, q, j + 1, sep);
    } else {
      assert |q[j..]| == 0;
    }
  }

  lemma {:induction false} JoinSplit(s: string, sep: char)
    ensures Join(Split(s, sep), sep) == s
  {
    hide Join;
    if s == "" {
      JoinOne("", sep);
    } else {
      JoinSplit(s[1..], sep);
      JoinFront(s[0], Split(s[1..], sep), sep);
    }
  }

  lemma JoinOne(x: string, sep: char)
    ensures Join([x], sep) == x
  {}

  lemma JoinFront(c: char, rest: seq<string>, sep: char)
    requires rest != []
    ensures Join([""] + rest, sep) == [sep] + Join(rest, sep)
    ensures Join([[c] + rest[0]] + rest[1..], sep) == [c] + Join(rest, sep)
  {
    hide JoinOnto;
    JoinOntoStep([""] + rest, sep);
    JoinOntoPrefix([sep], rest[0], [""] + rest, 2, rest, 1, sep);
    JoinOntoPrefix([c], rest[0], [[c] + rest[0]] + rest[1..], 1, rest, 1, sep);
  }

  lemma JoinOntoStep(pieces: seq<string>, sep: char)
    requires |pieces| >= 2 && pieces[0] == ""
    ensures Join(pieces, sep) == JoinOnto([sep] + pieces[1], pieces, sep, 2)
  {
    assert "" + [sep] + pieces[1] == [sep] + pieces[1];
  }

  lemma {:induction false} SplitAppend(a: string, p: string, sep: char)
    requires sep !in p
    ensures Split(a + [sep] + p, sep) == Split(a, sep) + [p]
  {
    var s := a + [sep] + p;
    if a == "" {
      assert s[1..] == p;
      SplitWhole(p, sep);
    } else {
      assert s[1..] == a[1..] + [sep] + p;
      SplitAppend(a[1..], p, sep);
    }
  }

  lemma {:induction false} SplitWhole(p: string, sep: char)
    requires sep !in p
    ensures Split(p, sep) == [p]
  {
    if p != "" {
      SplitWhole(p[1..], sep);
      assert p == [p[0]] + p[1..];
    }
  }

  lemma {:induction false} SplitJoinOnto(text: string, pieces: seq<string>, sep: char, i: nat)
    requires i <= |pieces|
    requires forall k :: 0 <= k < |pieces| ==> sep !in pieces[k]
    ensures Split(JoinOnto(text, pieces, sep, i), sep) == Split(text, sep) + pieces[i..]
    decreases |pieces| - i
  {
    if i < |pieces| {
      SplitAppend(text, pieces[i], sep);
      SplitJoinOnto(text + [sep] + pieces[i], pieces, sep, i + 1);
    }
  }

  /** Lines survive being joined and split again, provided none holds the separator. */
  lemma SplitJoin(pieces: seq<string>, sep: char)
    requires |pieces| >= 1
    requires forall i :: 0 <= i < |pieces| ==> sep !in pieces[i]
    ensures Split(Join(pieces, sep), sep) == pieces
  {
    SplitJoinOnto(pieces[0], pieces, sep, 1);
    SplitWhole(pieces[0], sep);
  }

  /** The first index from i on that holds c; the length of s if there is none. */
  function IndexOf(s: string, c: char, i: nat): (r: nat)
    requires i <= |s|
    ensures i <= r <= |s| && (r < |s| ==> s[r] == c)
    decreases |s| - i
  {
    if i == |s| || s[i] == c then i else IndexOf(s, c, i + 1)
  }

  lemma {:induction false} IndexOfIsFirst(s: string, c: char, i: nat, j: nat)
    requires i <= |s| && i <= j < IndexOf(s, c, i)
    ensures s[j] != c
    decreases |s| - i
  {
    if i < j { IndexOfIsFirst(s, c, i + 1, j); }
  }

  lemma {:induction false} IndexOfIs(s: string, c: char, i: nat, r: nat)
    requires i <= r <= |s| && (r < |s| ==> s[r] == c)
    requires forall j :: i <= j < r ==> s[j] != c
    ensures IndexOf(s, c, i) == r
    decreases |s| - i
  {
    if i < r { IndexOfIs(s, c, i + 1, r); }
  }
}
