/** The versions clients have been given, and may send: those in their answers and those their clicks were sent with. */
module GivenVersions {
  import opened Schema
  import opened UpdateProtocol
  import TaskList
  import Mentions

  /** A client has been given the version in its answer, and the one its click was sent with. */
  predicate CallGiven(given: set<(string, int)>, c: Call) {
    && (c.stage.Done? && (c.stage.result.Saved? || c.stage.result.Conflict?) ==> (c.note, c.stage.result.note.version) in given)
    && (c.origin.Toggle? && Submitted(c.stage) ==> (c.note, c.expected) in given)
  }

  ghost predicate GivenOk(w: World) { forall id :: id in w.calls ==> CallGiven(w.given, w.calls[id]) }

  /** One call moves, and versions are only added to those given. */
  predicate Gives(w: World, w': World, id: nat)
    requires id in w.calls
  {
    w.given <= w'.given && id in w'.calls && w'.calls == w.calls[id := w'.calls[id]] && CallGiven(w'.given, w'.calls[id])
  }

  lemma OpeningGives(w: World, id: nat, row: Note)
    requires id in w.calls && w.calls[id].origin.Toggle?
    ensures Gives(w, Open(w, id), id) && Gives(w, OpenShared(w, id, row), id)
  {
    hide SharePermission, TaskList.SetChecked, Mentions.Extract;
  }

  lemma UpdatingGives(w: World, id: nat, now: string)
    requires id in w.calls && CallGiven(w.given, w.calls[id])
    ensures w.calls[id].stage.Finding? ==> Gives(w, Find(w, id), id)
    ensures w.calls[id].stage.Permitting? ==> Gives(w, Permit(w, id), id)
    ensures w.calls[id].stage.Recalling? ==> Gives(w, Recall(w, id), id)
    ensures w.calls[id].stage.Writing? ==> Gives(w, Write(w, id, now), id)
  {
    hide SharePermission, MentionedIn, UpdateNote, Logged;
  }

  lemma RereadingGives(w: World, id: nat, committed: bool)
    requires id in w.calls
    ensures Gives(w, Reread(w, id, committed), id)
  {}

  lemma RecordingGives(w: World, id: nat, row: Note, next: nat)
    requires id in w.calls
    ensures Gives(w, Record(w, id, row, next), id)
  {
    hide InsertMention;
  }

  lemma MailingGives(w: World, id: nat, row: Note, next: nat)
    requires id in w.calls
    ensures Gives(w, Name(w, id, row), id) && Gives(w, Send(w, id, row, next), id)
  {}

  lemma CreatingGives(w: World, id: nat, now: string)
    requires id in w.calls
    ensures Gives(w, Create(w, id, now), id)
  {}

  lemma AdvanceGives(w: World, id: nat, now: string)
    requires id in w.calls && CallGiven(w.given, w.calls[id])
    ensures Gives(w, Advance(w, id, now), id)
  {
    hide CallGiven, Open, OpenShared, Find, Permit, Recall, Write, Reread, Create, Record, Name, Send;
    var none := Note("", "", "", 0, "");
    match w.calls[id].stage {
      case Opening => if w.calls[id].origin.Toggle? { OpeningGives(w, id, none); }
      case Opened(row) => if w.calls[id].origin.Toggle? { OpeningGives(w, id, row); }
      case Inserting => CreatingGives(w, id, now);
      case Rereading(committed) => RereadingGives(w, id, committed);
      case Recording(row, next) => RecordingGives(w, id, row, next);
      case Naming(row) => MailingGives(w, id, row, 0);
      case Mailing(row, next) => MailingGives(w, id, row, next);
      case _ => UpdatingGives(w, id, now);
    }
  }

  lemma StepGives(w: World, a: Action)
    requires GivenOk(w) && Enabled(w, a)
    ensures GivenOk(Next(w, a)) && w.given <= Next(w, a).given
    ensures a.Show? ==> (a.note, w.db.notes[a.note].version) in Next(w, a).given
  {
    hide Advance, Execute;
    if a.Step? { AdvanceGives(w, a.id, a.now); }
  }

  lemma {:induction false} RunGives(w: World, run: seq<Action>)
    requires GivenOk(w) && ValidRun(w, run)
    ensures GivenOk(After(w, run)) && w.given <= After(w, run).given
    decreases |run|
  {
    hide GivenOk, Enabled, Next;
    if run != [] {
      StepGives(w, run[0]);
      RunGives(Next(w, run[0]), run[1..]);
    }
  }

  /** Whoever is answered with a note may send its version in the next update as one it was given. */
  lemma AnsweredVersionsMayBeSent(users: set<string>, run: seq<Action>, id: nat, next: nat, c: Call)
    requires ValidRun(Empty(users), run)
    ensures var w := After(Empty(users), run);
      (id in w.calls && w.calls[id].stage.Done? && (w.calls[id].stage.result.Saved? || w.calls[id].stage.result.Conflict?)
       && next !in w.calls && c.origin == Typed && c.stage == Finding && c.known == {} && c.fair
       && c.note == w.calls[id].note && c.expected == w.calls[id].stage.result.note.version)
      ==> Enabled(w, Begin(next, c))
  {
    hide After, ValidRun;
    RunGives(Empty(users), run);
  }
}
