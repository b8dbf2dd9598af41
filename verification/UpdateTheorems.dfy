/** What optimistic concurrency promises, over every interleaving of saves, toggles, shares and deletes. */
module UpdateTheorems {
  import opened Text
  import opened Schema
  import opened UpdateProtocol
  import TaskList
  import Mentions

  lemma {:induction false} RunKeepsVersions(w: World, run: seq<Action>)
    requires VersionsOk(w) && ValidRun(w, run)
    ensures VersionsOk(After(w, run))
    decreases |run|
  {
    hide VersionsOk, Enabled, Next;
    if run != [] {
      StepKeepsVersions(w, run[0]);
      RunKeepsVersions(Next(w, run[0]), run[1..]);
    }
  }

  lemma EveryReachableWorld(users: set<string>, run: seq<Action>)
    requires ValidRun(Empty(users), run)
    ensures VersionsOk(After(Empty(users), run))
  {
    hide Enabled, Next;
    RunKeepsVersions(Empty(users), run);
  }

  /**
   * A stored note is at version one plus the number of its committed edits and holds what the last stored; the edit that
   * made version v + 1 expected version v.
   */
  lemma VersionCountsCommits(users: set<string>, run: seq<Action>, note: string)
    requires ValidRun(Empty(users), run)
    ensures var w := After(Empty(users), run);
      note in w.db.notes ==>
        (note in w.history && w.db.notes[note].version == 1 + |w.history[note].edits|
         && Draft(w.db.notes[note].title, w.db.notes[note].content) == Stored(w.history[note], w.db.notes[note].version))
    ensures var w := After(Empty(users), run);
      note in w.history ==> forall k :: 0 <= k < |w.history[note].edits| ==> w.history[note].edits[k].expected == k + 1
  {
    hide Stored, After, ValidRun, VersionsOk;
    EveryReachableWorld(users, run);
    var w := After(Empty(users), run);
    if note in w.db.notes { NoteIsOk(w, note); }
    if note in w.history {
      forall k | 0 <= k < |w.history[note].edits| ensures w.history[note].edits[k].expected == k + 1 { EditAt(w, note, k); }
    }
  }

  /** Of all updates of a note that expect one version, at most one commits. */
  lemma OneCommitPerVersion(users: set<string>, run: seq<Action>, i: nat, j: nat)
    requires ValidRun(Empty(users), run)
    ensures var w := After(Empty(users), run);
      i in w.calls && j in w.calls && i != j && !w.calls[i].origin.Fresh? && !w.calls[j].origin.Fresh?
      && Committed(w.calls[i]) && Committed(w.calls[j]) && w.calls[i].note == w.calls[j].note
      ==> w.calls[i].expected != w.calls[j].expected
  {
    hide After, ValidRun, VersionsOk, IsVersion, Committed;
    EveryReachableWorld(users, run);
    var w := After(Empty(users), run);
    if i in w.calls && !w.calls[i].origin.Fresh? && Committed(w.calls[i]) { CommittedIsLogged(w, i); }
    if j in w.calls && !w.calls[j].origin.Fresh? && Committed(w.calls[j]) { CommittedIsLogged(w, j); }
  }

  /** An update that succeeded has its revision in the history, and answers with a later or that version as it was stored. */
  lemma UpdatedIsAhead(users: set<string>, run: seq<Action>, id: nat)
    requires ValidRun(Empty(users), run)
    ensures var w := After(Empty(users), run);
      id in w.calls && !w.calls[id].origin.Fresh? && w.calls[id].stage.Done? && w.calls[id].stage.result.Saved? ==>
        var n := w.calls[id].stage.result.note;
        n.version >= w.calls[id].expected + 1 >= 2 && IsVersion(w, w.calls[id].note, n)
        && w.history[w.calls[id].note].edits[w.calls[id].expected - 1]
           == Revision(id, w.calls[id].origin, w.calls[id].expected, Draft(w.calls[id].title, w.calls[id].content))
  {
    hide After, ValidRun, Stored, VersionsOk, IsVersion;
    EveryReachableWorld(users, run);
    var w := After(Empty(users), run);
    if id in w.calls && !w.calls[id].origin.Fresh? && Committed(w.calls[id]) { CommittedIsLogged(w, id); }
  }

  lemma CommittedIsLogged(w: World, id: nat)
    requires VersionsOk(w) && id in w.calls && !w.calls[id].origin.Fresh? && Committed(w.calls[id])
    ensures var c := w.calls[id];
      && c.note in w.history && 1 <= c.expected <= |w.history[c.note].edits|
      && w.history[c.note].edits[c.expected - 1] == Revision(id, c.origin, c.expected, Draft(c.title, c.content))
      && (Row(c.stage).Some? ==> Row(c.stage).value.version > c.expected && IsVersion(w, c.note, Row(c.stage).value))
  {
    hide Stored, Ticked;
    CallIsOk(w, id);
    EditAt(w, w.calls[id].note, w.calls[id].expected - 1);
    hide VersionsOk;
  }

  /** A conflict shows the client a version newer than the one it sent, provided it sent one it had been given. */
  lemma ConflictIsAhead(users: set<string>, run: seq<Action>, id: nat)
    requires ValidRun(Empty(users), run)
    ensures var w := After(Empty(users), run);
      id in w.calls && w.calls[id].fair && w.calls[id].stage.Done? && w.calls[id].stage.result.Conflict? ==>
        var n := w.calls[id].stage.result.note;
        n.version > w.calls[id].expected && IsVersion(w, w.calls[id].note, n)
  {
    hide After, ValidRun, Stored, VersionsOk, IsVersion;
    EveryReachableWorld(users, run);
    var w := After(Empty(users), run);
    if id in w.calls { CallIsOk(w, id); }
  }

  // ---------------------------------------------------------------- nothing committed is lost

  lemma StepGrows(w: World, a: Action)
    requires VersionsOk(w) && Enabled(w, a)
    ensures Grows(w, Next(w, a))
  {
    hide Stored, TaskList.SetChecked, EditOk, NoteOk, Execute;
    match a {
      case Side(s) => SideOnlyRemoves(w.db, s);
      case Step(id, now) =>
        InsertingIsNew(w, id);
        hide VersionsOk;
        AdvanceGrows(w, id, now);
      case _ =>
    }
  }

  lemma AdvanceGrows(w: World, id: nat, now: string)
    requires id in w.calls && (w.calls[id].stage.Inserting? ==> w.calls[id].note !in w.history)
    ensures Grows(w, Advance(w, id, now))
  {
    if w.calls[id].stage.Writing? {
      WriteGrows(w, id, now);
    } else if w.calls[id].stage.Inserting? {
      CreateGrows(w, id, now);
    } else {
      hide Write, Create, TaskList.SetChecked, Mentions.Extract, MentionedIn, SharePermission;
      assert Advance(w, id, now).history == w.history && Advance(w, id, now).db.notes == w.db.notes;
    }
    hide Advance;
  }

  lemma WriteGrows(w: World, id: nat, now: string)
    requires id in w.calls
    ensures Grows(w, Write(w, id, now))
  {}

  /** A revision, once committed, stays in its place for the rest of the run, whatever the others do. */
  lemma {:induction false} RevisionsStay(w: World, run: seq<Action>, note: string, k: nat)
    requires VersionsOk(w) && ValidRun(w, run) && note in w.history && k < |w.history[note].edits|
    ensures var h := After(w, run).history; note in h && k < |h[note].edits| && h[note].edits[k] == w.history[note].edits[k]
    decreases |run|
  {
    hide VersionsOk, Enabled, Next;
    if run != [] {
      StepKeepsVersions(w, run[0]);
      StepGrows(w, run[0]);
      RevisionsStay(Next(w, run[0]), run[1..], note, k);
    }
  }

  // ---------------------------------------------------------------- toggles

  datatype Tick = Tick(index: int, checked: bool)

  /** The first n ticks applied to a body in order. */
  function Replay(body: string, ticks: seq<Tick>, n: nat): string
    requires n <= |ticks|
  {
    if n == 0 then body else TaskList.SetChecked(Replay(body, ticks, n - 1), ticks[n - 1].index, ticks[n - 1].checked)
  }

  predicate AllToggles(edits: seq<Revision>) { forall k :: 0 <= k < |edits| ==> edits[k].origin.Toggle? }

  function Ticks(edits: seq<Revision>): (t: seq<Tick>)
    requires AllToggles(edits)
  {
    seq(|edits|, k requires 0 <= k < |edits| => Tick(edits[k].origin.index, edits[k].origin.checked))
  }

  /** Every committed toggle stored exactly the version just before it with its box set. */
  lemma ToggleTransformsPredecessor(users: set<string>, run: seq<Action>, note: string, k: nat)
    requires ValidRun(Empty(users), run)
    ensures var w := After(Empty(users), run);
      note in w.history && k < |w.history[note].edits| && w.history[note].edits[k].origin.Toggle? ==>
        var e := w.history[note].edits[k];
        Stored(w.history[note], k + 2) == Ticked(Stored(w.history[note], k + 1), e.origin)
  {
    hide Ticked, After, ValidRun, VersionsOk;
    EveryReachableWorld(users, run);
    var w := After(Empty(users), run);
    if note in w.history && k < |w.history[note].edits| { EditAt(w, note, k); }
  }

  lemma {:induction false} TogglesReplay(w: World, note: string, version: int)
    requires VersionsOk(w) && note in w.history && AllToggles(w.history[note].edits) && 1 <= version <= 1 + |w.history[note].edits|
    ensures Stored(w.history[note], version)
         == Draft(w.history[note].first.title, Replay(w.history[note].first.body, Ticks(w.history[note].edits), version - 1))
    decreases version
  {
    hide VersionsOk, TaskList.SetChecked;
    if version > 1 {
      TogglesReplay(w, note, version - 1);
      EditAt(w, note, version - 2);
    }
  }

  lemma EditAt(w: World, note: string, k: nat)
    requires VersionsOk(w) && note in w.history && k < |w.history[note].edits|
    ensures EditOk(w, note, k)
  {}

  /** A note edited by toggles only keeps its title and holds its first body with the committed toggles applied in version order. */
  lemma ToggledNoteIsTheFold(users: set<string>, run: seq<Action>, note: string)
    requires ValidRun(Empty(users), run)
    ensures var w := After(Empty(users), run);
      note in w.db.notes && note in w.history && AllToggles(w.history[note].edits) ==>
        w.db.notes[note].title == w.history[note].first.title
        && w.db.notes[note].content == Replay(w.history[note].first.body, Ticks(w.history[note].edits), |w.history[note].edits|)
  {
    hide TaskList.SetChecked, Replay, Ticks, AllToggles, Stored, After, ValidRun, VersionsOk;
    EveryReachableWorld(users, run);
    var w := After(Empty(users), run);
    if note in w.db.notes {
      NoteIsOk(w, note);
      if AllToggles(w.history[note].edits) { TogglesReplay(w, note, w.db.notes[note].version); }
    }
  }

  predicate DistinctBoxes(ticks: seq<Tick>) {
    forall i, j :: 0 <= i < j < |ticks| ==> ticks[i].index != ticks[j].index
  }

  predicate NoneFor(ticks: seq<Tick>, index: int) { forall k :: 0 <= k < |ticks| ==> ticks[k].index != index }

  lemma {:induction false} ReplayPrefix(body: string, a: seq<Tick>, b: seq<Tick>, n: nat)
    requires n <= |a| && n <= |b| && a[..n] == b[..n]
    ensures Replay(body, a, n) == Replay(body, b, n)
  {
    hide TaskList.SetChecked;
    if n > 0 {
      assert a[n - 1] == a[..n][n - 1] == b[..n][n - 1] == b[n - 1];
      assert a[..n - 1] == a[..n][..n - 1] == b[..n][..n - 1] == b[..n - 1];
      ReplayPrefix(body, a, b, n - 1);
    }
  }

  /** A tick may be moved past the later ones if they are for other boxes. */
  lemma {:induction false} TickMovesLast(body: string, a: seq<Tick>, t: Tick, b: seq<Tick>)
    requires NoneFor(b, t.index)
    ensures Replay(body, a + [t] + b, |a| + 1 + |b|) == TaskList.SetChecked(Replay(body, a + b, |a| + |b|), t.index, t.checked)
    decreases |b|
  {
    hide TaskList.SetChecked;
    if b == [] {
      ReplayPrefix(body, a + [t] + b, a + b, |a|);
    } else {
      var n := |b| - 1;
      var x := b[n];
      ReplayPrefix(body, a + [t] + b, a + [t] + b[..n], |a| + 1 + n);
      ReplayPrefix(body, a + b, a + b[..n], |a| + n);
      TickMovesLast(body, a, t, b[..n]);
      TaskList.TogglesCompose(Replay(body, a + b[..n], |a| + n), t.index, t.checked, x.index, x.checked);
    }
  }

  /** Ticks on distinct boxes may be replayed in any order: the outcome does not depend on who won which race. */
  lemma {:induction false} OrderIsIrrelevant(body: string, ticks: seq<Tick>, other: seq<Tick>)
    requires DistinctBoxes(ticks) && multiset(ticks) == multiset(other)
    ensures |ticks| == |other| && Replay(body, ticks, |ticks|) == Replay(body, other, |other|)
    decreases |other|
  {
    hide TaskList.SetChecked, DistinctBoxes, NoneFor;
    assert |multiset(ticks)| == |multiset(other)|;
    if other != [] {
      var n := |other| - 1;
      var p := Whereabouts(ticks, other);
      var a, b := ticks[..p], ticks[p + 1..];
      assert ticks == a + [other[n]] + b;
      RemovalKeepsCounts(ticks, other, p);
      RemovalKeepsDistinct(ticks, p);
      TickMovesLast(body, a, other[n], b);
      OrderIsIrrelevant(body, a + b, other[..n]);
      ReplayPrefix(body, other, other[..n], n);
    }
  }

  lemma Whereabouts(ticks: seq<Tick>, other: seq<Tick>) returns (p: nat)
    requires multiset(ticks) == multiset(other) && other != []
    ensures p < |ticks| && ticks[p] == other[|other| - 1]
  {
    assert other[|other| - 1] in multiset(other) && other[|other| - 1] in multiset(ticks);
    p :| 0 <= p < |ticks| && ticks[p] == other[|other| - 1];
  }

  lemma RemovalKeepsCounts(ticks: seq<Tick>, other: seq<Tick>, p: nat)
    requires multiset(ticks) == multiset(other) && other != [] && p < |ticks| && ticks[p] == other[|other| - 1]
    ensures multiset(ticks[..p] + ticks[p + 1..]) == multiset(other[..|other| - 1])
  {
    var t := ticks[p];
    assert ticks == ticks[..p] + [t] + ticks[p + 1..];
    assert other == other[..|other| - 1] + [t];
    CountsWithout(ticks[..p], t, ticks[p + 1..]);
    assert multiset(other[..|other| - 1]) == multiset(other) - multiset{t};
  }

  lemma CountsWithout(a: seq<Tick>, t: Tick, b: seq<Tick>)
    ensures multiset(a + b) == multiset(a + [t] + b) - multiset{t}
  {}

  lemma RemovalKeepsDistinct(ticks: seq<Tick>, p: nat)
    requires DistinctBoxes(ticks) && p < |ticks|
    ensures DistinctBoxes(ticks[..p] + ticks[p + 1..]) && NoneFor(ticks[p + 1..], ticks[p].index)
  {}

  /** No toggle is lost: a box shows the state of the last tick on it. */
  lemma {:induction false} LastTickShows(body: string, ticks: seq<Tick>, k: nat, n: nat)
    requires k < n <= |ticks| && 0 <= ticks[k].index < TaskList.TaskCount(body)
    requires forall j :: k < j < n ==> ticks[j].index != ticks[k].index
    ensures TaskList.Checkbox(Replay(body, ticks, n), ticks[k].index) == Some(ticks[k].checked)
    decreases n
  {
    hide TaskList.SetChecked, TaskList.TaskCount, TaskList.Checkbox;
    var before, last := Replay(body, ticks, n - 1), ticks[n - 1];
    ReplayKeepsBoxes(body, ticks, n - 1);
    TaskList.ToggleIsRead(before, last.index, last.checked);
    if k < n - 1 { LastTickShows(body, ticks, k, n - 1); }
  }

  lemma {:induction false} ReplayKeepsBoxes(body: string, ticks: seq<Tick>, n: nat)
    requires n <= |ticks|
    ensures TaskList.TaskCount(Replay(body, ticks, n)) == TaskList.TaskCount(body)
  {
    hide TaskList.SetChecked, TaskList.TaskCount, TaskList.Checkbox;
    if n > 0 {
      ReplayKeepsBoxes(body, ticks, n - 1);
      TaskList.RewritesKeepStructure(Replay(body, ticks, n - 1), ticks[n - 1].index, ticks[n - 1].checked);
    }
  }
}
