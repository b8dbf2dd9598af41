/** The snapshot of mentions a save works with is exactly the record at the moment it was taken; so is who gets two mails. */
module Snapshots {
  import opened Schema
  import opened UpdateProtocol
  import opened MentionMail

  /** Stages of a call that has its snapshot; a new note's is taken, empty, at its insertion. */
  predicate HasSnapshot(s: Stage) {
    s.Writing? || s.Rereading? || s.Recording? || s.Naming? || s.Mailing? || (s.Done? && s.result.Saved?)
  }

  /** The snapshot holds the users recorded for the note before it was taken, and no others. */
  ghost predicate IsExact(w: World, c: Call) {
    c.since <= |w.recorded| && forall u :: u in c.known <==> (c.note, u) in w.recorded[..c.since]
  }

  /** A save that found its note deleted will write nothing. */
  predicate IsDoomed(w: World, c: Call) { (c.stage.Writing? || c.stage == Rereading(false)) && c.note in w.history && c.note !in w.db.notes }

  ghost predicate SnapshotOk(w: World, c: Call) {
    && (HasSnapshot(c.stage) ==> IsExact(w, c) || IsDoomed(w, c))
    && (c.stage.Inserting? ==> c.known == {})
  }

  /** Recorded mentions of stored notes are in the table, and whatever is in the table was recorded. */
  ghost predicate RecordOk(w: World) {
    && (forall m :: m in w.recorded && m.0 in w.db.notes ==> m in w.db.mentions)
    && (forall m :: m in w.db.mentions ==> m in w.recorded)
    && (forall id :: id in w.calls ==> SnapshotOk(w, w.calls[id]))
  }

  lemma TablesAreTheRecord(w: World)
    requires RecordOk(w)
    ensures forall m :: m in w.recorded && m.0 in w.db.notes ==> m in w.db.mentions
    ensures forall m :: m in w.db.mentions ==> m in w.recorded
  {}

  lemma SnapshotIsOk(w: World, id: nat)
    requires RecordOk(w) && id in w.calls
    ensures SnapshotOk(w, w.calls[id])
  {}

  lemma SnapshotStays(w: World, w': World, c: Call)
    requires SnapshotOk(w, c) && w.recorded <= w'.recorded && Grows(w, w')
    ensures SnapshotOk(w', c)
  {
    if c.since <= |w.recorded| { assert w'.recorded[..c.since] == w.recorded[..c.since]; }
  }

  /** Steps that move one call at most, and keep the table and the record together. */
  lemma StepWithRecord(w: World, w': World, id: nat)
    requires RecordOk(w) && w.recorded <= w'.recorded && Grows(w, w')
    requires forall m :: m in w'.recorded && m.0 in w'.db.notes ==> m in w'.db.mentions
    requires forall m :: m in w'.db.mentions ==> m in w'.recorded
    requires id in w.calls && id in w'.calls && w'.calls == w.calls[id := w'.calls[id]]
    requires SnapshotOk(w', w'.calls[id])
    ensures RecordOk(w')
  {
    hide SnapshotOk, Grows;
    forall i | i in w'.calls ensures SnapshotOk(w', w'.calls[i]) {
      if i != id { SnapshotStays(w, w', w.calls[i]); }
    }
  }

  /** A call keeps its snapshot from stage to stage. */
  lemma MoveKeepsRecord(w: World, id: nat, stage: Stage)
    requires RecordOk(w) && id in w.calls && !stage.Inserting?
    requires HasSnapshot(stage) ==> HasSnapshot(w.calls[id].stage)
    requires IsDoomed(w, w.calls[id]) ==> !HasSnapshot(stage) || stage == Rereading(false)
    ensures RecordOk(Move(w, id, stage))
  {
    hide RecordOk;
    TablesAreTheRecord(w);
    SnapshotIsOk(w, id);
    StepWithRecord(w, Move(w, id, stage), id);
  }

  lemma SameRecord(w: World, w': World)
    requires RecordOk(w) && w'.recorded == w.recorded && w'.db == w.db && w'.calls == w.calls && w'.history == w.history
    ensures RecordOk(w')
  {
    forall i | i in w'.calls ensures SnapshotOk(w', w'.calls[i]) { assert SnapshotOk(w, w.calls[i]); }
  }

  lemma OpeningKeepsRecord(w: World, id: nat)
    requires RecordOk(w) && id in w.calls && w.calls[id].origin.Toggle?
    ensures w.calls[id].stage.Opening? ==> RecordOk(Open(w, id))
    ensures w.calls[id].stage.Opened? ==> RecordOk(OpenShared(w, id, w.calls[id].stage.row))
  {
    hide RecordOk, Submission;
    var c := w.calls[id];
    if c.note in w.db.notes { SubmitKeepsRecord(w, id, w.db.notes[c.note]); }
    if c.stage.Opened? { SubmitKeepsRecord(w, id, c.stage.row); }
    if c.stage.Opening? || c.stage.Opened? { MoveKeepsRecord(w, id, Done(NotFound)); }
    if c.stage.Opening? && c.note in w.db.notes { MoveKeepsRecord(w, id, Opened(w.db.notes[c.note])); }
  }

  lemma SubmitKeepsRecord(w: World, id: nat, row: Note)
    requires RecordOk(w) && id in w.calls && w.calls[id].origin.Toggle?
    ensures RecordOk(Submit(w, id, row))
  {
    TablesAreTheRecord(w);
    hide RecordOk;
    assert Submission(w.calls[id], row).stage.Finding?;
    hide Submission;
    StepWithRecord(w, Submit(w, id, row), id);
  }

  lemma LookupsKeepRecord(w: World, id: nat)
    requires RecordOk(w) && id in w.calls
    ensures w.calls[id].stage.Finding? ==> RecordOk(Find(w, id))
    ensures w.calls[id].stage.Permitting? ==> RecordOk(Permit(w, id))
  {
    hide RecordOk;
    if w.calls[id].stage.Finding? { MoveKeepsRecord(w, id, Find(w, id).calls[id].stage); }
    if w.calls[id].stage.Permitting? { MoveKeepsRecord(w, id, Permit(w, id).calls[id].stage); }
  }

  /** What is read from the table of a stored note is what has been recorded for it. */
  lemma RecallIsExact(w: World, id: nat)
    requires RecordOk(w) && VersionsOk(w) && id in w.calls && w.calls[id].stage.Recalling?
    ensures RecordOk(Recall(w, id))
    ensures w.calls[id].note in w.db.notes ==> IsExact(Recall(w, id), Recall(w, id).calls[id])
  {
    hide RecordOk, VersionsOk;
    TablesAreTheRecord(w);
    CallIsOk(w, id);
    var w', c := Recall(w, id), w.calls[id];
    assert w'.recorded[..|w.recorded|] == w.recorded;
    if c.note in w.db.notes {
      forall u ensures u in MentionedIn(w.db, c.note) <==> (c.note, u) in w.recorded {
        assert (c.note, u) in w.db.mentions <==> (c.note, u) in w.recorded;
      }
    }
    StepWithRecord(w, w', id);
  }

  lemma WriteKeepsRecord(w: World, id: nat, now: string)
    requires RecordOk(w) && id in w.calls && w.calls[id].stage.Writing?
    ensures RecordOk(Write(w, id, now))
  {
    hide RecordOk;
    TablesAreTheRecord(w);
    SnapshotIsOk(w, id);
    StepWithRecord(w, Write(w, id, now), id);
  }

  lemma RereadKeepsRecord(w: World, id: nat, committed: bool)
    requires RecordOk(w) && id in w.calls && w.calls[id].stage == Rereading(committed)
    ensures RecordOk(Reread(w, id, committed))
  {
    hide RecordOk;
    var w' := Reread(w, id, committed);
    MoveKeepsRecord(w, id, w'.calls[id].stage);
    SameRecord(Move(w, id, w'.calls[id].stage), w');
  }

  lemma RecordKeepsRecord(w: World, id: nat, row: Note, next: nat)
    requires RecordOk(w) && id in w.calls && w.calls[id].stage == Recording(row, next)
    ensures RecordOk(Record(w, id, row, next))
  {
    hide RecordOk;
    TablesAreTheRecord(w);
    SnapshotIsOk(w, id);
    var w', c := Record(w, id, row, next), w.calls[id];
    SnapshotStays(w, w', c);
    assert SnapshotOk(w', w'.calls[id]);
    StepWithRecord(w, w', id);
  }

  lemma MailingKeepsRecord(w: World, id: nat, row: Note, next: nat)
    requires RecordOk(w) && id in w.calls
    ensures w.calls[id].stage == Naming(row) ==> RecordOk(Name(w, id, row))
    ensures w.calls[id].stage == Mailing(row, next) ==> RecordOk(Send(w, id, row, next))
  {
    hide RecordOk;
    if w.calls[id].stage == Naming(row) { MoveKeepsRecord(w, id, Name(w, id, row).calls[id].stage); }
    if w.calls[id].stage == Mailing(row, next) {
      var w' := Send(w, id, row, next);
      MoveKeepsRecord(w, id, w'.calls[id].stage);
      SameRecord(Move(w, id, w'.calls[id].stage), w');
    }
  }

  /** Nothing has been recorded for a note before its insertion. */
  lemma CreateIsExact(w: World, id: nat, now: string)
    requires RecordOk(w) && MailOk(w) && VersionsOk(w) && id in w.calls && w.calls[id].stage.Inserting?
    ensures RecordOk(Create(w, id, now))
  {
    hide RecordOk, VersionsOk, MailOk;
    TablesAreTheRecord(w);
    SnapshotIsOk(w, id);
    InsertingIsNew(w, id);
    RecordedNotesAreKnown(w);
    CreateGrows(w, id, now);
    var w' := Create(w, id, now);
    assert w'.recorded[..|w.recorded|] == w.recorded;
    hide Grows;
    StepWithRecord(w, w', id);
  }

  lemma OthersKeepRecord(w: World, a: Action)
    requires RecordOk(w) && Enabled(w, a) && !a.Step? && !a.Break?
    ensures RecordOk(Next(w, a))
  {
    hide Advance, Execute, SnapshotOk;
    var w' := Next(w, a);
    if a.Side? {
      SideKeepsUsers(w.db, a.statement);
      SideOnlyRemoves(w.db, a.statement);
    }
    assert Grows(w, w');
    forall i | i in w'.calls ensures SnapshotOk(w', w'.calls[i]) {
      if i in w.calls { SnapshotStays(w, w', w.calls[i]); } else { BegunSnapshot(w', a.call); }
    }
  }

  lemma BegunSnapshot(w: World, c: Call)
    requires c.stage == First(c.origin) && c.known == {}
    ensures SnapshotOk(w, c)
  {}

  /** Every step keeps table, record and snapshots together. */
  lemma StepKeepsRecord(w: World, a: Action)
    requires RecordOk(w) && MailOk(w) && VersionsOk(w) && Enabled(w, a)
    ensures RecordOk(Next(w, a))
  {
    hide RecordOk, MailOk, VersionsOk, Open, OpenShared, Find, Permit, Recall, Write, Reread, Create, Record, Name, Send, Move;
    match a {
      case Step(id, now) =>
        CallIsOk(w, id);
        match w.calls[id].stage {
          case Opening => OpeningKeepsRecord(w, id);
          case Opened(row) => OpeningKeepsRecord(w, id);
          case Finding => LookupsKeepRecord(w, id);
          case Permitting => LookupsKeepRecord(w, id);
          case Recalling => RecallIsExact(w, id);
          case Writing => WriteKeepsRecord(w, id, now);
          case Rereading(committed) => RereadKeepsRecord(w, id, committed);
          case Inserting => CreateIsExact(w, id, now);
          case Recording(row, next) => RecordKeepsRecord(w, id, row, next);
          case Naming(row) => MailingKeepsRecord(w, id, row, 0);
          case Mailing(row, next) => MailingKeepsRecord(w, id, row, next);
        }
      case Break(id) => MoveKeepsRecord(w, id, Done(Broken));
      case _ => OthersKeepRecord(w, a);
    }
  }

  lemma {:induction false} RunKeepsRecord(w: World, run: seq<Action>)
    requires RecordOk(w) && MailOk(w) && VersionsOk(w) && ValidRun(w, run)
    ensures RecordOk(After(w, run)) && MailOk(After(w, run))
    decreases |run|
  {
    hide RecordOk, MailOk, VersionsOk, Enabled, Next;
    if run != [] {
      StepKeepsVersions(w, run[0]);
      StepKeepsMail(w, run[0]);
      StepKeepsRecord(w, run[0]);
      RunKeepsRecord(Next(w, run[0]), run[1..]);
    }
  }

  lemma RecordInEveryReachableWorld(users: set<string>, run: seq<Action>)
    requires ValidRun(Empty(users), run)
    ensures RecordOk(After(Empty(users), run)) && MailOk(After(Empty(users), run))
  {
    hide Enabled, Next;
    RunKeepsRecord(Empty(users), run);
  }

  // ---------------------------------------------------------------- who is mailed, and who twice

  lemma {:induction false} RecipientsAre(mentioned: seq<string>, known: set<string>, actor: string, n: nat, u: string)
    requires n <= |mentioned|
    ensures u in Recipients(mentioned, known, actor, n) <==> u in mentioned[..n] && u !in known && u != actor
  {
    if n > 0 {
      assert mentioned[..n] == mentioned[..n - 1] + [mentioned[n - 1]];
      RecipientsAre(mentioned, known, actor, n - 1, u);
    }
  }

  /** The call names the user, is not by the user, and took its snapshot before the user was recorded for the note. */
  predicate IsNewTo(w: World, c: Call, u: string) {
    u in c.mentioned && u != c.actor && c.since <= |w.recorded| && (c.note, u) !in w.recorded[..c.since]
  }

  predicate IsSaved(w: World, id: nat) { id in w.calls && w.calls[id].stage.Done? && w.calls[id].stage.result.Saved? }

  lemma SavedMails(w: World, id: nat, u: string)
    requires RecordOk(w) && MailOk(w) && IsSaved(w, id)
    ensures u in MailsOf(w.mails, id) <==> IsNewTo(w, w.calls[id], u)
  {
    hide RecordOk, MailOk, MailsOf, Recipients;
    var c := w.calls[id];
    SnapshotIsOk(w, id);
    CallMailIsOk(w, id);
    RecipientsAre(c.mentioned, c.known, c.actor, |c.mentioned|, u);
    assert c.mentioned[..|c.mentioned|] == c.mentioned;
  }

  /** Over every interleaving: a save that went through has mailed exactly the users it was first to bring to the record. */
  lemma SavedMailsTheUnrecorded(users: set<string>, run: seq<Action>, id: nat, u: string)
    requires ValidRun(Empty(users), run)
    ensures var w := After(Empty(users), run);
      IsSaved(w, id) ==> (u in MailsOf(w.mails, id) <==> IsNewTo(w, w.calls[id], u))
  {
    hide After, ValidRun, RecordOk, MailOk, MailsOf, IsNewTo;
    RecordInEveryReachableWorld(users, run);
    var w := After(Empty(users), run);
    if IsSaved(w, id) { SavedMails(w, id, u); }
  }

  predicate Unique(ids: seq<string>) { forall i, j :: 0 <= i < j < |ids| ==> ids[i] != ids[j] }

  /** Nothing is on its way: whoever has mailed has finished, and mention lists hold nobody twice. */
  ghost predicate IsSettled(w: World) {
    forall id :: id in w.calls ==> Unique(w.calls[id].mentioned) && (IsSaved(w, id) || MailsOf(w.mails, id) == [])
  }

  ghost predicate MailedTwice(w: World, note: string, u: string) {
    exists k, l :: 0 <= k < l < |w.mails| && w.mails[k].note == w.mails[l].note == note && w.mails[k].user == w.mails[l].user == u
  }

  /** Two saves of the note to which the user is new: neither saw the other's record. */
  ghost predicate NewToTwo(w: World, note: string, u: string) {
    exists i, j :: i != j && IsSaved(w, i) && IsSaved(w, j) && w.calls[i].note == w.calls[j].note == note
                   && IsNewTo(w, w.calls[i], u) && IsNewTo(w, w.calls[j], u)
  }

  lemma {:induction false} MailsOfHas(mails: seq<Mail>, k: nat, n: nat)
    requires k < n <= |mails|
    ensures mails[k].user in MailsOf(mails[..n], mails[k].call)
  {
    assert mails[..n][..n - 1] == mails[..n - 1];
    if k < n - 1 { MailsOfHas(mails, k, n - 1); }
  }

  lemma {:induction false} MailsOfComesFrom(mails: seq<Mail>, id: nat, u: string) returns (k: nat)
    requires u in MailsOf(mails, id)
    ensures k < |mails| && mails[k].call == id && mails[k].user == u
  {
    var n := |mails| - 1;
    if mails[n].call == id && mails[n].user == u { return n; }
    k := MailsOfComesFrom(mails[..n], id, u);
  }

  /** Two mails of one call to one user are two places in its list. */
  lemma {:induction false} MailsOfTwo(mails: seq<Mail>, k: nat, l: nat, n: nat)
    requires k < l < n <= |mails| && mails[k].call == mails[l].call && mails[k].user == mails[l].user
    ensures !Unique(MailsOf(mails[..n], mails[k].call))
  {
    var m := MailsOf(mails[..n - 1], mails[k].call);
    assert mails[..n][..n - 1] == mails[..n - 1];
    if l < n - 1 {
      MailsOfTwo(mails, k, l, n - 1);
      var i, j :| 0 <= i < j < |m| && m[i] == m[j];
      assert MailsOf(mails[..n], mails[k].call)[i] == MailsOf(mails[..n], mails[k].call)[j];
    } else {
      MailsOfHas(mails, k, n - 1);
      var i :| 0 <= i < |m| && m[i] == mails[k].user;
      assert MailsOf(mails[..n], mails[k].call)[i] == MailsOf(mails[..n], mails[k].call)[|m|];
    }
  }

  lemma {:induction false} RecipientsAreUnique(mentioned: seq<string>, known: set<string>, actor: string, n: nat)
    requires Unique(mentioned) && n <= |mentioned|
    ensures Unique(Recipients(mentioned, known, actor, n))
  {
    if n > 0 {
      RecipientsAreUnique(mentioned, known, actor, n - 1);
      RecipientsAre(mentioned, known, actor, n - 1, mentioned[n - 1]);
    }
  }

  lemma OneCallMailsOnce(w: World, k: nat, l: nat)
    requires RecordOk(w) && MailOk(w) && IsSettled(w) && k < l < |w.mails| && w.mails[k].user == w.mails[l].user
    ensures w.mails[k].call != w.mails[l].call
  {
    hide RecordOk, MailOk, MailsOf, Recipients, Unique;
    var id := w.mails[k].call;
    MailIsPosted(w, k);
    CallMailIsOk(w, id);
    MailsOfHas(w.mails, k, |w.mails|);
    assert w.mails[..|w.mails|] == w.mails;
    RecipientsAreUnique(w.calls[id].mentioned, w.calls[id].known, w.calls[id].actor, |w.calls[id].mentioned|);
    if w.mails[l].call == id { MailsOfTwo(w.mails, k, l, |w.mails|); }
  }

  lemma MailIsFromNew(w: World, k: nat)
    requires RecordOk(w) && MailOk(w) && IsSettled(w) && k < |w.mails|
    ensures var m := w.mails[k]; IsSaved(w, m.call) && w.calls[m.call].note == m.note && IsNewTo(w, w.calls[m.call], m.user)
  {
    hide RecordOk, MailOk, MailsOf, IsNewTo, Unique;
    MailIsPosted(w, k);
    MailsOfHas(w.mails, k, |w.mails|);
    assert w.mails[..|w.mails|] == w.mails;
    SavedMails(w, w.mails[k].call, w.mails[k].user);
  }

  /**
   * Over every interleaving that has settled: a user has two mails about a note if and only if two saves of it name the
   * user, neither by the user, and both took their snapshot before the user was recorded.
   */
  lemma TwoMailsExactly(users: set<string>, run: seq<Action>, note: string, u: string)
    requires ValidRun(Empty(users), run) && IsSettled(After(Empty(users), run))
    ensures var w := After(Empty(users), run); MailedTwice(w, note, u) <==> NewToTwo(w, note, u)
  {
    hide After, ValidRun, RecordOk, MailOk, MailsOf, IsNewTo, IsSettled, IsSaved;
    RecordInEveryReachableWorld(users, run);
    var w := After(Empty(users), run);
    if MailedTwice(w, note, u) {
      var k, l :| 0 <= k < l < |w.mails| && w.mails[k].note == w.mails[l].note == note && w.mails[k].user == w.mails[l].user == u;
      MailIsFromNew(w, k);
      MailIsFromNew(w, l);
      OneCallMailsOnce(w, k, l);
    }
    if NewToTwo(w, note, u) { NewToTwoAreMailed(w, note, u); }
  }

  lemma NewToTwoAreMailed(w: World, note: string, u: string)
    requires RecordOk(w) && MailOk(w) && NewToTwo(w, note, u)
    ensures MailedTwice(w, note, u)
  {
    hide RecordOk, MailOk, MailsOf, IsNewTo;
    var i, j :| i != j && IsSaved(w, i) && IsSaved(w, j) && w.calls[i].note == w.calls[j].note == note
                && IsNewTo(w, w.calls[i], u) && IsNewTo(w, w.calls[j], u);
    SavedMails(w, i, u);
    SavedMails(w, j, u);
    var k := MailsOfComesFrom(w.mails, i, u);
    var l := MailsOfComesFrom(w.mails, j, u);
    MailIsPosted(w, k);
    MailIsPosted(w, l);
    if k < l { assert w.mails[k].user == w.mails[l].user; } else { assert w.mails[l].user == w.mails[k].user; }
  }
}
