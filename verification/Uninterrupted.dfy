/** Calls of the interleaved protocol that nobody interrupts do what the plain service does. */
module Uninterrupted {
  import opened Text
  import opened Schema
  import opened UpdateProtocol
  import MentionMail
  import Mentions
  import TaskList
  import Service

  // ---------------------------------------------------------------- a call run to its end

  predicate IsOver(c: Call) { c.stage.Done? || ((c.stage.Opening? || c.stage.Opened?) && !c.origin.Toggle?) }

  function Phase(c: Call): nat {
    match c.stage
    case Opening => 2
    case Opened(_) => 1
    case _ => 0
  }

  /** At most so many steps are left, once the update has been sent. */
  function Left(c: Call): nat {
    var n := |c.mentioned|;
    match c.stage
    case Finding => 2 * n + 9
    case Permitting => 2 * n + 8
    case Recalling => 2 * n + 7
    case Writing => 2 * n + 6
    case Rereading(_) => 2 * n + 5
    case Inserting => 2 * n + 5
    case Recording(_, next) => n + 3 + if next < n then n - next else 0
    case Naming(_) => n + 2
    case Mailing(_, next) => 1 + if next < n then n - next else 0
    case _ => 0
  }

  predicate Shortens(w: World, w': World, id: nat)
    requires id in w.calls
  {
    && id in w'.calls
    && (Phase(w'.calls[id]) < Phase(w.calls[id]) || (Phase(w'.calls[id]) == Phase(w.calls[id]) && Left(w'.calls[id]) < Left(w.calls[id])))
  }

  lemma OpeningLeavesFewer(w: World, id: nat, row: Note)
    requires id in w.calls && w.calls[id].origin.Toggle?
    ensures w.calls[id].stage.Opening? ==> Shortens(w, Open(w, id), id)
    ensures w.calls[id].stage.Opened? ==> Shortens(w, OpenShared(w, id, row), id)
  {
    hide SharePermission, TaskList.SetChecked, Mentions.Extract;
  }

  lemma LookupLeavesFewer(w: World, id: nat)
    requires id in w.calls
    ensures w.calls[id].stage.Finding? ==> Shortens(w, Find(w, id), id)
    ensures w.calls[id].stage.Permitting? ==> Shortens(w, Permit(w, id), id)
    ensures w.calls[id].stage.Recalling? ==> Shortens(w, Recall(w, id), id)
  {
    hide SharePermission, MentionedIn;
  }

  lemma WritingLeavesFewer(w: World, id: nat, now: string, committed: bool)
    requires id in w.calls
    ensures w.calls[id].stage.Writing? ==> Shortens(w, Write(w, id, now), id)
    ensures w.calls[id].stage.Rereading? ==> Shortens(w, Reread(w, id, committed), id)
  {
    hide UpdateNote, Logged;
  }

  lemma InsertingLeavesFewer(w: World, id: nat, now: string)
    requires id in w.calls && w.calls[id].stage.Inserting?
    ensures Shortens(w, Create(w, id, now), id)
  {}

  lemma RecordingLeavesFewer(w: World, id: nat, row: Note, next: nat)
    requires id in w.calls && w.calls[id].stage == Recording(row, next)
    ensures Shortens(w, Record(w, id, row, next), id)
  {
    hide InsertMention;
  }

  lemma MailingLeavesFewer(w: World, id: nat, row: Note, next: nat)
    requires id in w.calls
    ensures w.calls[id].stage == Naming(row) ==> Shortens(w, Name(w, id, row), id)
    ensures w.calls[id].stage == Mailing(row, next) ==> Shortens(w, Send(w, id, row, next), id)
  {}

  lemma StepLeavesFewer(w: World, id: nat, now: string)
    requires id in w.calls && !IsOver(w.calls[id])
    ensures Shortens(w, Advance(w, id, now), id)
  {
    hide Shortens, Open, OpenShared, Find, Permit, Recall, Write, Reread, Create, Record, Name, Send;
    match w.calls[id].stage {
      case Opening => OpeningLeavesFewer(w, id, Note("", "", "", 0, ""));
      case Opened(row) => OpeningLeavesFewer(w, id, row);
      case Writing => WritingLeavesFewer(w, id, now, false);
      case Rereading(committed) => WritingLeavesFewer(w, id, now, committed);
      case Inserting => InsertingLeavesFewer(w, id, now);
      case Recording(row, next) => RecordingLeavesFewer(w, id, row, next);
      case Naming(row) => MailingLeavesFewer(w, id, row, 0);
      case Mailing(row, next) => MailingLeavesFewer(w, id, row, next);
      case _ => LookupLeavesFewer(w, id);
    }
  }

  /** Steps of this call only, all at one clock reading, until it is over. */
  function Alone(w: World, id: nat, now: string): World
    requires id in w.calls
    decreases Phase(w.calls[id]), Left(w.calls[id])
  {
    if IsOver(w.calls[id]) then w
    else
      StepLeavesFewer(w, id, now);
      Alone(Advance(w, id, now), id, now)
  }

  /** Such a call is a run of the protocol in which only it takes steps. */
  lemma {:induction false} AloneIsARun(w: World, id: nat, now: string) returns (run: seq<Action>)
    requires id in w.calls
    ensures ValidRun(w, run) && After(w, run) == Alone(w, id, now) && forall k :: 0 <= k < |run| ==> run[k] == Step(id, now)
    decreases Phase(w.calls[id]), Left(w.calls[id])
  {
    hide Advance;
    run := [];
    if !IsOver(w.calls[id]) {
      StepLeavesFewer(w, id, now);
      var rest := AloneIsARun(Advance(w, id, now), id, now);
      run := [Step(id, now)] + rest;
      assert run[1..] == rest;
    }
  }

  /** The call has ended with an answer, leaving these tables and these mails; no other call has moved. */
  predicate Ends(w: World, w': World, id: nat, r: Result, db: Db, mails: seq<Mail>) {
    id in w'.calls && w'.calls == w.calls[id := w'.calls[id]] && w'.calls[id].stage == Done(r) && w'.db == db && w'.mails == mails
  }

  lemma EndsOver(w: World, w1: World, w': World, id: nat, r: Result, db: Db, mails: seq<Mail>)
    requires id in w1.calls && w1.calls == w.calls[id := w1.calls[id]] && Ends(w1, w', id, r, db, mails)
    ensures Ends(w, w', id, r, db, mails)
  {}

  function Posts(id: nat, note: string, users: seq<string>): seq<Mail> {
    seq(|users|, k requires 0 <= k < |users| => Mail(id, note, users[k]))
  }

  lemma PostsGrow(id: nat, note: string, users: seq<string>, u: string)
    ensures Posts(id, note, users + [u]) == Posts(id, note, users) + [Mail(id, note, u)] && users + [] == users
  {}

  // ---------------------------------------------------------------- from the last stage back

  lemma {:induction false} MailingAlone(w: World, id: nat, now: string, row: Note, next: nat, before: seq<Mail>)
    requires id in w.calls && w.calls[id].stage == Mailing(row, next) && next <= |w.calls[id].mentioned|
    requires forall u :: u in w.calls[id].mentioned ==> u in w.db.users
    requires w.mails == before + Posts(id, w.calls[id].note, MentionMail.Newly(w.calls[id], next))
    ensures var c := w.calls[id];
      Ends(w, Alone(w, id, now), id, Saved(row), w.db, before + Posts(id, c.note, MentionMail.Newly(c, |c.mentioned|)))
    decreases |w.calls[id].mentioned| - next
  {
    hide Posts;
    var c, w1 := w.calls[id], Advance(w, id, now);
    StepLeavesFewer(w, id, now);
    if next < |c.mentioned| {
      PostsGrow(id, c.note, MentionMail.Newly(c, next), c.mentioned[next]);
      var w' := Alone(w1, id, now);
      MailingAlone(w1, id, now, row, next + 1, before);
      EndsOver(w, w1, w', id, Saved(row), w.db, before + Posts(id, c.note, MentionMail.Newly(c, |c.mentioned|)));
    }
  }

  /** The answer of a call, the tables it leaves and the users it mails. */
  datatype Outcome = Outcome(result: Result, db: Db, mailed: seq<string>)

  predicate EndsIn(w: World, w': World, id: nat, o: Outcome)
    requires id in w.calls
  {
    Ends(w, w', id, o.result, o.db, w.mails + Posts(id, w.calls[id].note, o.mailed))
  }

  /** A stored note with its mentions still to record and mail. */
  function Mentioning(db: Db, c: Call, row: Note): Outcome {
    var (next, ok) := InsertMentions(db, c.note, c.mentioned);
    if c.mentioned == [] then Outcome(Saved(row), db, [])
    else if !ok then Outcome(Failed, next, [])
    else if c.actor !in db.users then Outcome(NotFound, next, [])
    else Outcome(Saved(row), next, MentionMail.Newly(c, |c.mentioned|))
  }

  lemma NamingAlone(w: World, id: nat, now: string, row: Note)
    requires id in w.calls && w.calls[id].stage == Naming(row) && forall u :: u in w.calls[id].mentioned ==> u in w.db.users
    ensures var c := w.calls[id];
      EndsIn(w, Alone(w, id, now), id,
             if c.actor in w.db.users then Outcome(Saved(row), w.db, MentionMail.Newly(c, |c.mentioned|)) else Outcome(NotFound, w.db, []))
  {
    var c, w1 := w.calls[id], Advance(w, id, now);
    StepLeavesFewer(w, id, now);
    assert w.mails + Posts(id, c.note, []) == w.mails;
    hide Posts;
    if c.actor in w.db.users { MailingAlone(w1, id, now, row, 0, w.mails); }
  }

  lemma {:induction false} RecordingAlone(w: World, id: nat, now: string, row: Note, next: nat)
    requires id in w.calls && w.calls[id].stage == Recording(row, next) && next <= |w.calls[id].mentioned|
    requires forall k :: 0 <= k < next ==> w.calls[id].mentioned[k] in w.db.users
    ensures var c := w.calls[id];
      var (db, ok) := InsertMentions(w.db, c.note, c.mentioned[next..]);
      EndsIn(w, Alone(w, id, now), id,
             if !ok then Outcome(Failed, db, [])
             else if c.actor in w.db.users then Outcome(Saved(row), db, MentionMail.Newly(c, |c.mentioned|))
             else Outcome(NotFound, db, []))
    decreases |w.calls[id].mentioned| - next
  {
    var c, w1 := w.calls[id], Advance(w, id, now);
    StepLeavesFewer(w, id, now);
    assert w.mails + Posts(id, c.note, []) == w.mails;
    hide Posts, MentionMail.Newly;
    if next < |c.mentioned| {
      assert c.mentioned[next..][0] == c.mentioned[next] && c.mentioned[next..][1..] == c.mentioned[next + 1..];
      if InsertMention(w.db, c.note, c.mentioned[next]).Some? { RecordingAlone(w1, id, now, row, next + 1); }
    } else {
      NamingAlone(w1, id, now, row);
    }
  }

  lemma RereadingAlone(w: World, id: nat, now: string, committed: bool)
    requires id in w.calls && w.calls[id].stage == Rereading(committed)
    ensures var c := w.calls[id];
      EndsIn(w, Alone(w, id, now), id,
             if c.note !in w.db.notes then Outcome(NotFound, w.db, [])
             else if committed then Mentioning(w.db, c, w.db.notes[c.note]) else Outcome(Conflict(w.db.notes[c.note]), w.db, []))
  {
    hide Posts, InsertMentions, MentionMail.Newly, Mentioning;
    var c, w1 := w.calls[id], Advance(w, id, now);
    StepLeavesFewer(w, id, now);
    NoPosts(w.mails, id, c.note);
    if c.note in w.db.notes && committed {
      NothingToMention(w.db, c, w.db.notes[c.note]);
      if c.mentioned != [] {
        StageIsIrrelevant(w.db, c, w.db.notes[c.note], w1.calls[id].stage);
        FirstMentionAlone(w1, id, now, w.db.notes[c.note]);
      }
    }
  }

  lemma NothingToMention(db: Db, c: Call, row: Note)
    ensures c.mentioned == [] ==> Mentioning(db, c, row) == Outcome(Saved(row), db, [])
  {}

  lemma FirstMentionAlone(w: World, id: nat, now: string, row: Note)
    requires id in w.calls && w.calls[id].stage == Recording(row, 0) && w.calls[id].mentioned != []
    ensures EndsIn(w, Alone(w, id, now), id, Mentioning(w.db, w.calls[id], row))
  {
    hide Posts, InsertMentions, MentionMail.Newly, Advance, Alone;
    RecordingAlone(w, id, now, row, 0);
    assert w.calls[id].mentioned[0..] == w.calls[id].mentioned;
  }

  /** The conditional UPDATE and all that follows it. */
  function Written(db: Db, c: Call, now: string): Outcome {
    var (next, affected) := UpdateNote(db, c.note, c.title, c.content, now, c.expected);
    if c.note !in next.notes then Outcome(NotFound, next, [])
    else if affected != 0 then Mentioning(next, c, next.notes[c.note]) else Outcome(Conflict(next.notes[c.note]), next, [])
  }

  lemma StageIsIrrelevant(db: Db, c: Call, row: Note, stage: Stage)
    ensures Mentioning(db, c.(stage := stage), row) == Mentioning(db, c, row)
  {}

  lemma WritingAlone(w: World, id: nat, now: string)
    requires id in w.calls && w.calls[id].stage == Writing
    ensures EndsIn(w, Alone(w, id, now), id, Written(w.db, w.calls[id], now))
  {
    hide Posts, Mentioning, UpdateNote, Logged;
    var c, w1 := w.calls[id], Advance(w, id, now);
    StepLeavesFewer(w, id, now);
    RereadingAlone(w1, id, now, w1.calls[id].stage.committed);
    if c.note in w1.db.notes { StageIsIrrelevant(w1.db, c, w1.db.notes[c.note], w1.calls[id].stage); }
  }

  /** An update of the tables as they are. */
  function Updated(db: Db, c: Call, now: string): Outcome {
    if c.title == "" then Outcome(Invalid, db, [])
    else
      match PermissionFor(db, c.note, c.actor)
      case None => Outcome(NotFound, db, [])
      case Some(p) => if p == Read then Outcome(Forbidden, db, []) else Written(db, c.(known := MentionedIn(db, c.note)), now)
  }

  lemma RecallingAlone(w: World, id: nat, now: string)
    requires id in w.calls && w.calls[id].stage == Recalling
    ensures EndsIn(w, Alone(w, id, now), id, Written(w.db, w.calls[id].(known := MentionedIn(w.db, w.calls[id].note)), now))
  {
    hide Posts, MentionedIn;
    var c, w1 := w.calls[id], Advance(w, id, now);
    StepLeavesFewer(w, id, now);
    WritingAlone(w1, id, now);
    hide Mentioning, UpdateNote;
    SameWriting(w.db, c, w1.calls[id], now);
  }

  lemma SameWriting(db: Db, c: Call, c1: Call, now: string)
    requires c1.note == c.note && c1.title == c.title && c1.content == c.content && c1.expected == c.expected
    requires c1.mentioned == c.mentioned && c1.actor == c.actor
    ensures Written(db, c1, now) == Written(db, c.(known := c1.known), now)
  {
    hide UpdateNote, InsertMentions;
  }

  lemma PermittingAlone(w: World, id: nat, now: string)
    requires id in w.calls && w.calls[id].stage == Permitting && w.calls[id].title != ""
    requires w.calls[id].note in w.db.notes && w.db.notes[w.calls[id].note].owner != w.calls[id].actor
    ensures EndsIn(w, Alone(w, id, now), id, Updated(w.db, w.calls[id], now))
  {
    hide Posts, MentionedIn, Written;
    var c, w1 := w.calls[id], Advance(w, id, now);
    StepLeavesFewer(w, id, now);
    NoPosts(w.mails, id, c.note);
    SameWriting(w.db, c, c.(known := MentionedIn(w.db, c.note), stage := Recalling), now);
    if w1.calls[id].stage.Recalling? { RecallingAlone(w1, id, now); }
  }

  lemma FindingAlone(w: World, id: nat, now: string)
    requires id in w.calls && w.calls[id].stage == Finding
    ensures EndsIn(w, Alone(w, id, now), id, Updated(w.db, w.calls[id], now))
  {
    hide Posts, MentionedIn, Written;
    var c, w1 := w.calls[id], Advance(w, id, now);
    StepLeavesFewer(w, id, now);
    NoPosts(w.mails, id, c.note);
    SameWriting(w.db, c, c.(known := MentionedIn(w.db, c.note), stage := Recalling), now);
    SameWriting(w.db, c, c.(known := MentionedIn(w.db, c.note), stage := Permitting), now);
    if w1.calls[id].stage.Recalling? {
      RecallingAlone(w1, id, now);
    } else if w1.calls[id].stage.Permitting? {
      PermittingAlone(w1, id, now);
    }
  }

  lemma NoPosts(mails: seq<Mail>, id: nat, note: string)
    ensures mails + Posts(id, note, []) == mails
  {}

  // ---------------------------------------------------------------- theorems

  /** What the plain service promises of an update, said of an outcome. */
  ghost predicate IsUpdate(db: Db, c: Call, now: string, o: Outcome) {
    && Service.Answers(db, c.note, c.actor, c.expected, c.title, c.mentioned, o.result)
    && (o.result.Saved? ==> c.note in db.notes && o.result.note == Note(db.notes[c.note].owner, c.title, c.content, c.expected + 1, now))
    && o.db == (if Service.Commits(db, c.note, c.actor, c.expected, c.title)
                then Service.AfterUpdate(db, c.note, c.expected, c.title, c.content, c.mentioned, now) else db)
    && o.mailed == if o.result.Saved? then MentionMail.Recipients(c.mentioned, MentionedIn(db, c.note), c.actor, |c.mentioned|) else []
  }

  lemma MentioningIs(db: Db, c: Call, row: Note)
    requires c.note in db.notes
    ensures var o := Mentioning(db, c, row);
      && o.db == InsertMentions(db, c.note, c.mentioned).0
      && (o.result == Saved(row) || o.result == Failed || o.result == NotFound)
      && (o.result == Saved(row) <==> Service.KnowsAll(db, c.actor, c.mentioned))
      && (o.result == Failed <==> exists u :: u in c.mentioned && u !in db.users)
      && o.mailed == if o.result == Saved(row) then MentionMail.Newly(c, |c.mentioned|) else []
  {
    InsertMentionsRecords(db, c.note, c.mentioned);
  }

  lemma UpdatedIs(db: Db, c: Call, now: string)
    ensures IsUpdate(db, c, now, Updated(db, c, now))
  {
    hide MentionedIn, InsertMentions, MentionMail.Recipients, Mentioning;
    var next := UpdateNote(db, c.note, c.title, c.content, now, c.expected).0;
    if c.note in next.notes { MentioningIs(next, c.(known := MentionedIn(db, c.note)), next.notes[c.note]); }
  }

  /** The same for a create. */
  predicate IsCreate(db: Db, c: Call, now: string, o: Outcome) {
    var stored := InsertNote(db, c.note, c.actor, c.title, c.content, now);
    if c.title != "" && stored.Some? then
      && o.db == InsertMentions(stored.value, c.note, c.mentioned).0
      && o.result == (if Service.KnowsAll(db, c.actor, c.mentioned) then Saved(Note(c.actor, c.title, c.content, 1, now)) else Failed)
      && o.mailed == if o.result.Saved? then MentionMail.Recipients(c.mentioned, {}, c.actor, |c.mentioned|) else []
    else o.db == db && o.result == (if c.title == "" then Invalid else Failed) && o.mailed == []
  }

  lemma InsertingAlone(w: World, id: nat, now: string)
    requires id in w.calls && w.calls[id].stage == Inserting && w.calls[id].known == {}
    ensures exists o :: IsCreate(w.db, w.calls[id], now, o) && EndsIn(w, Alone(w, id, now), id, o)
  {
    hide Posts, InsertMentions, MentionMail.Recipients, Mentioning;
    var c, w1 := w.calls[id], Advance(w, id, now);
    StepLeavesFewer(w, id, now);
    NoPosts(w.mails, id, c.note);
    var stored := InsertNote(w.db, c.note, c.actor, c.title, c.content, now);
    if c.title == "" || stored.None? {
      var o := Outcome(if c.title == "" then Invalid else Failed, w.db, []);
      assert IsCreate(w.db, c, now, o) && EndsIn(w, w1, id, o) && Alone(w, id, now) == w1;
    } else {
      var row, o := stored.value.notes[c.note], Mentioning(stored.value, c, stored.value.notes[c.note]);
      MentioningIs(stored.value, c, row);
      assert IsCreate(w.db, c, now, o);
      CreatedAlone(w, id, now);
    }
  }

  lemma CreatedAlone(w: World, id: nat, now: string)
    requires id in w.calls && w.calls[id].stage == Inserting && w.calls[id].title != ""
    requires InsertNote(w.db, w.calls[id].note, w.calls[id].actor, w.calls[id].title, w.calls[id].content, now).Some?
    ensures var c := w.calls[id];
      var db := InsertNote(w.db, c.note, c.actor, c.title, c.content, now).value;
      EndsIn(w, Alone(w, id, now), id, Mentioning(db, c, db.notes[c.note]))
  {
    hide Posts, InsertMentions, MentionMail.Newly;
    var c, w1 := w.calls[id], Advance(w, id, now);
    StepLeavesFewer(w, id, now);
    NoPosts(w.mails, id, c.note);
    if c.mentioned != [] {
      RecordingAlone(w1, id, now, w1.db.notes[c.note], 0);
      assert c.mentioned[0..] == c.mentioned;
      SameNewly(c, w1.calls[id]);
    }
  }

  lemma SameNewly(c: Call, c1: Call)
    requires c1.mentioned == c.mentioned && c1.known == c.known && c1.actor == c.actor
    ensures MentionMail.Newly(c1, |c1.mentioned|) == MentionMail.Newly(c, |c.mentioned|)
  {}

  lemma SubmittedAlone(w: World, w1: World, id: nat, row: Note, now: string)
    requires id in w.calls && w.calls[id].origin.Toggle? && w1.db == w.db && w1.mails == w.mails
    requires w1.calls == w.calls[id := Submission(w.calls[id], row)]
    ensures exists o :: IsUpdate(w.db, Submission(w.calls[id], row), now, o) && EndsIn(w, Alone(w1, id, now), id, o)
  {
    hide Posts, IsUpdate;
    var c := Submission(w.calls[id], row);
    FindingAlone(w1, id, now);
    UpdatedIs(w.db, c, now);
    hide Updated, Alone;
    var o := Updated(w.db, c, now);
    assert IsUpdate(w.db, c, now, o) && EndsIn(w, Alone(w1, id, now), id, o);
  }

  lemma OpeningAlone(w: World, id: nat, now: string)
    requires id in w.calls && w.calls[id].stage == Opening && w.calls[id].origin.Toggle?
    ensures var c := w.calls[id];
      if PermissionFor(w.db, c.note, c.actor).None? then EndsIn(w, Alone(w, id, now), id, Outcome(NotFound, w.db, []))
      else exists o :: IsUpdate(w.db, Submission(c, w.db.notes[c.note]), now, o) && EndsIn(w, Alone(w, id, now), id, o)
  {
    hide Posts, IsUpdate, Submission;
    var c, w1 := w.calls[id], Advance(w, id, now);
    StepLeavesFewer(w, id, now);
    NoPosts(w.mails, id, c.note);
    if c.note in w.db.notes && w.db.notes[c.note].owner == c.actor {
      SubmittedAlone(w, w1, id, w.db.notes[c.note], now);
    } else if c.note in w.db.notes {
      OpenedAlone(w, w1, id, now);
    } else {
      assert EndsIn(w, w1, id, Outcome(NotFound, w.db, []));
    }
  }

  lemma OpenedAlone(w: World, w1: World, id: nat, now: string)
    requires id in w.calls && w.calls[id].origin.Toggle? && w.calls[id].note in w.db.notes
    requires w.db.notes[w.calls[id].note].owner != w.calls[id].actor
    requires w1 == Move(w, id, Opened(w.db.notes[w.calls[id].note]))
    ensures var c := w.calls[id];
      if PermissionFor(w.db, c.note, c.actor).None? then EndsIn(w, Alone(w1, id, now), id, Outcome(NotFound, w.db, []))
      else exists o :: IsUpdate(w.db, Submission(c, w.db.notes[c.note]), now, o) && EndsIn(w, Alone(w1, id, now), id, o)
  {
    hide Posts, IsUpdate, Submission;
    var c, w2 := w.calls[id], Advance(w1, id, now);
    var row := w.db.notes[c.note];
    StepLeavesFewer(w1, id, now);
    NoPosts(w.mails, id, c.note);
    if SharePermission(w.db, c.note, c.actor).Some? {
      SubmissionForgetsStage(c, Opened(row), row);
      assert w2.calls == w.calls[id := Submission(c, row)];
      SubmittedAlone(w, w2, id, row, now);
    } else {
      assert EndsIn(w, w2, id, Outcome(NotFound, w.db, []));
    }
  }

  lemma SubmissionForgetsStage(c: Call, stage: Stage, row: Note)
    requires c.origin.Toggle?
    ensures Submission(c.(stage := stage), row) == Submission(c, row)
  {}

  /**
   * A typed update nobody interrupts is answered, and changes the tables and mails, as the plain service's is: readers are
   * refused, a commit makes one new version and records its mentions, and a save mails the newly mentioned.
   */
  lemma UpdateAlone(w: World, id: nat, c: Call, now: string)
    requires Enabled(w, Begin(id, c)) && c.origin.Typed?
    ensures var w1 := Next(w, Begin(id, c));
      exists o :: IsUpdate(w.db, c, now, o) && EndsIn(w1, Alone(w1, id, now), id, o)
  {
    hide IsUpdate, Updated, Posts;
    FindingAlone(Next(w, Begin(id, c)), id, now);
    UpdatedIs(w.db, c, now);
  }

  /** A create nobody interrupts stores its note at version 1, then its mentions. */
  lemma CreateAlone(w: World, id: nat, c: Call, now: string)
    requires Enabled(w, Begin(id, c)) && c.origin.Fresh?
    ensures var w1 := Next(w, Begin(id, c));
      exists o :: IsCreate(w.db, c, now, o) && EndsIn(w1, Alone(w1, id, now), id, o)
  {
    hide IsCreate, Posts;
    InsertingAlone(Next(w, Begin(id, c)), id, now);
  }

  /** A click nobody interrupts is an update that toggles the stored body, for anybody who may see the note. */
  lemma ToggleAlone(w: World, id: nat, c: Call, now: string)
    requires Enabled(w, Begin(id, c)) && c.origin.Toggle?
    ensures var w1 := Next(w, Begin(id, c));
      if PermissionFor(w.db, c.note, c.actor).None? then EndsIn(w1, Alone(w1, id, now), id, Outcome(NotFound, w.db, []))
      else
        var row := w.db.notes[c.note];
        var body := TaskList.SetChecked(row.content, c.origin.index, c.origin.checked);
        exists o, sent :: IsUpdate(w.db, sent, now, o) && EndsIn(w1, Alone(w1, id, now), id, o)
          && sent == c.(expected := row.version, title := row.title, content := body, mentioned := Mentions.Extract(body),
                        fair := true, stage := Finding)
  {
    hide IsUpdate, Posts;
    OpeningAlone(Next(w, Begin(id, c)), id, now);
  }
}
