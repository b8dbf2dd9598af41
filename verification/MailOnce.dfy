/** One mail per user and note: true when the saves of a note take turns up to their last record, false when they overlap. */
module MailOnce {
  import opened Schema
  import opened UpdateProtocol
  import opened MentionMail
  import opened Snapshots
  import TaskList
  import Mentions

  /** From the snapshot (for a new note, from its insertion) to the last mention recorded; the mails may overlap. */
  predicate InTurn(c: Call) { c.stage.Writing? || c.stage.Rereading? || (c.stage.Recording? && c.stage.next < |c.mentioned|) }

  ghost predicate TakingTurns(w: World) {
    forall i, j :: i in w.calls && j in w.calls && i != j && InTurn(w.calls[i]) && InTurn(w.calls[j]) ==> w.calls[i].note != w.calls[j].note
  }

  /** In every state of the run the saves of a note take turns, and clients send mention lists without repetition. */
  ghost predicate OrderlyRun(w: World, run: seq<Action>)
    requires ValidRun(w, run)
    decreases |run|
  {
    TakingTurns(w) && (run == [] || ((run[0].Begin? ==> Unique(run[0].call.mentioned)) && OrderlyRun(Next(w, run[0]), run[1..])))
  }

  /** The call has its snapshot and may still come to mail the users it is going to. */
  predicate MayMail(w: World, c: Call) {
    (c.stage.Writing? && c.note in w.db.notes) || c.stage == Rereading(true) || c.stage.Recording? || c.stage.Naming? || c.stage.Mailing?
  }

  predicate Wants(c: Call, u: string) { u in c.mentioned && u !in c.known && u != c.actor }

  /** Nobody else has mailed, about this note, a user the call is going to mail; nor is anybody else going to. */
  ghost predicate IsAlone(w: World, id: nat, c: Call) {
    MayMail(w, c) ==>
      && (forall k :: 0 <= k < |w.mails| && w.mails[k].note == c.note && w.mails[k].call != id ==> !Wants(c, w.mails[k].user))
      && (forall j, u :: j in w.calls && j != id && MayMail(w, w.calls[j]) && w.calls[j].note == c.note && Wants(w.calls[j], u) ==> !Wants(c, u))
  }

  ghost predicate NoTwoMails(w: World) {
    forall i, j :: 0 <= i < j < |w.mails| ==> w.mails[i].note != w.mails[j].note || w.mails[i].user != w.mails[j].user
  }

  ghost predicate OnceOk(w: World) {
    && NoTwoMails(w)
    && (forall id :: id in w.calls ==> Unique(w.calls[id].mentioned) && IsAlone(w, id, w.calls[id]))
  }

  lemma CallIsAlone(w: World, id: nat)
    requires OnceOk(w) && id in w.calls
    ensures Unique(w.calls[id].mentioned) && IsAlone(w, id, w.calls[id])
  {}

  /** Steps that send nothing, and after which nobody may mail who could not, or whom they would not, before. */
  lemma QuietOnce(w: World, w': World, id: nat)
    requires OnceOk(w) && w'.mails == w.mails && w'.db.notes.Keys <= w.db.notes.Keys
    requires id in w.calls && id in w'.calls && w'.calls == w.calls[id := w'.calls[id]]
    requires Unique(w'.calls[id].mentioned) && w'.calls[id].note == w.calls[id].note
    requires MayMail(w', w'.calls[id]) ==>
      MayMail(w, w.calls[id]) && w'.calls[id] == w.calls[id].(stage := w'.calls[id].stage)
    ensures OnceOk(w')
  {
    hide Unique, Wants;
    forall i | i in w'.calls ensures Unique(w'.calls[i].mentioned) && IsAlone(w', i, w'.calls[i]) {
      assert IsAlone(w, i, w.calls[i]);
      MayMailShrinks(w, w', w'.calls[i]);
      forall j | j in w'.calls ensures MayMail(w', w'.calls[j]) ==> MayMail(w, w.calls[j]) { MayMailShrinks(w, w', w'.calls[j]); }
      SameWants(w.calls[id], w'.calls[id]);
    }
  }

  lemma MayMailShrinks(w: World, w': World, c: Call)
    requires w'.db.notes.Keys <= w.db.notes.Keys
    ensures MayMail(w', c) ==> MayMail(w, c)
  {}

  lemma SameWants(c: Call, c': Call)
    ensures c' == c.(stage := c'.stage) ==> forall u :: Wants(c', u) <==> Wants(c, u)
  {}

  lemma MoveOnce(w: World, id: nat, stage: Stage)
    requires OnceOk(w) && id in w.calls && (MayMail(w, w.calls[id].(stage := stage)) ==> MayMail(w, w.calls[id]))
    ensures OnceOk(Move(w, id, stage))
  {
    hide OnceOk, Unique;
    CallIsAlone(w, id);
    QuietOnce(w, Move(w, id, stage), id);
  }

  lemma SameTablesOnce(w: World, w': World)
    requires OnceOk(w) && w'.mails == w.mails && w'.db.notes == w.db.notes && w'.calls == w.calls
    ensures OnceOk(w')
  {
    hide Unique, Wants;
    forall i | i in w'.calls ensures IsAlone(w', i, w'.calls[i]) {
      assert IsAlone(w, i, w.calls[i]);
      assert forall c: Call :: MayMail(w', c) == MayMail(w, c);
    }
  }

  lemma SubmitOnce(w: World, id: nat, row: Note)
    requires OnceOk(w) && id in w.calls && w.calls[id].origin.Toggle?
    ensures OnceOk(Submit(w, id, row))
  {
    hide OnceOk, TaskList.SetChecked, Mentions.Extract;
    CallIsAlone(w, id);
    ExtractIsUnique(TaskList.SetChecked(row.content, w.calls[id].origin.index, w.calls[id].origin.checked));
    QuietOnce(w, Submit(w, id, row), id);
  }

  lemma ExtractIsUnique(body: string)
    ensures Unique(Mentions.Extract(body))
  {
    Mentions.DedupIsASet(Mentions.Ids(body, 0));
  }

  lemma OpeningOnce(w: World, id: nat)
    requires OnceOk(w) && id in w.calls && w.calls[id].origin.Toggle?
    ensures w.calls[id].stage.Opening? ==> OnceOk(Open(w, id))
    ensures w.calls[id].stage.Opened? ==> OnceOk(OpenShared(w, id, w.calls[id].stage.row))
  {
    hide OnceOk, Submit;
    var c := w.calls[id];
    if c.note in w.db.notes { SubmitOnce(w, id, w.db.notes[c.note]); }
    if c.stage.Opened? { SubmitOnce(w, id, c.stage.row); }
    MoveOnce(w, id, Done(NotFound));
    if c.stage.Opening? && c.note in w.db.notes { MoveOnce(w, id, Opened(w.db.notes[c.note])); }
  }

  lemma LookupsOnce(w: World, id: nat)
    requires OnceOk(w) && id in w.calls
    ensures w.calls[id].stage.Finding? ==> OnceOk(Find(w, id))
    ensures w.calls[id].stage.Permitting? ==> OnceOk(Permit(w, id))
  {
    hide OnceOk;
    if w.calls[id].stage.Finding? { MoveOnce(w, id, Find(w, id).calls[id].stage); }
    if w.calls[id].stage.Permitting? { MoveOnce(w, id, Permit(w, id).calls[id].stage); }
  }

  /** Whoever has mailed, or past its turn is going to, has its users on the record, and so in the new snapshot. */
  lemma RecallKnowsOthers(w: World, id: nat, c: Call)
    requires RecordOk(w) && MailOk(w) && id in w.calls && c == Recall(w, id).calls[id] && c.note in w.db.notes
    ensures forall k :: 0 <= k < |w.mails| && w.mails[k].note == c.note ==> w.mails[k].user in c.known
    ensures forall j, u :: j in w.calls && w.calls[j].note == c.note && MayMail(w, w.calls[j]) && !InTurn(w.calls[j]) && Wants(w.calls[j], u) ==> u in c.known
  {
    hide RecordOk, MailOk;
    TablesAreTheRecord(w);
    forall k | 0 <= k < |w.mails| && w.mails[k].note == c.note ensures w.mails[k].user in c.known {
      MailIsPosted(w, k);
      assert (c.note, w.mails[k].user) in w.db.mentions;
    }
    forall j, u | j in w.calls && w.calls[j].note == c.note && MayMail(w, w.calls[j]) && !InTurn(w.calls[j]) && Wants(w.calls[j], u)
      ensures u in c.known
    {
      CallMailIsOk(w, j);
      var k :| 0 <= k < |w.calls[j].mentioned| && w.calls[j].mentioned[k] == u;
      assert IsRecorded(w, c.note, w.calls[j].mentioned[k]);
      assert (c.note, u) in w.db.mentions;
    }
  }

  lemma RecallOnce(w: World, id: nat)
    requires OnceOk(w) && RecordOk(w) && MailOk(w) && id in w.calls && w.calls[id].stage.Recalling? && TakingTurns(Recall(w, id))
    ensures OnceOk(Recall(w, id))
  {
    var w', c := Recall(w, id), w.calls[id];
    if c.note in w.db.notes { RecallKnowsOthers(w, id, w'.calls[id]); }
    hide RecordOk, MailOk, Unique, MentionedIn;
    forall j | j in w'.calls && j != id && w'.calls[j].note == c.note ensures !InTurn(w'.calls[j]) {
      assert InTurn(w'.calls[id]);
    }
    JoinAlone(w, w', id);
  }

  /** A call that newly may mail, and whose snapshot holds everyone mailed or to be mailed by others. */
  lemma JoinAlone(w: World, w': World, id: nat)
    requires OnceOk(w) && w'.mails == w.mails && id in w'.calls && Unique(w'.calls[id].mentioned)
    requires forall j :: j in w.calls || j == id <==> j in w'.calls
    requires forall j :: j in w.calls && j != id ==> w'.calls[j] == w.calls[j] && (MayMail(w', w.calls[j]) ==> MayMail(w, w.calls[j]))
    requires MayMail(w', w'.calls[id]) ==>
      && (forall k :: 0 <= k < |w.mails| && w.mails[k].note == w'.calls[id].note ==> w.mails[k].user in w'.calls[id].known)
      && (forall j, u :: j in w.calls && j != id && MayMail(w', w.calls[j]) && w.calls[j].note == w'.calls[id].note && Wants(w.calls[j], u)
            ==> u in w'.calls[id].known)
    ensures OnceOk(w')
  {
    hide MayMail, Unique;
    forall i | i in w'.calls ensures Unique(w'.calls[i].mentioned) && IsAlone(w', i, w'.calls[i]) {
      if i != id { assert IsAlone(w, i, w.calls[i]); }
    }
  }

  lemma WriteOnce(w: World, id: nat, now: string)
    requires OnceOk(w) && id in w.calls && w.calls[id].stage.Writing?
    ensures OnceOk(Write(w, id, now))
  {
    hide OnceOk, Unique;
    CallIsAlone(w, id);
    QuietOnce(w, Write(w, id, now), id);
  }

  lemma RereadOnce(w: World, id: nat, committed: bool)
    requires OnceOk(w) && id in w.calls && w.calls[id].stage == Rereading(committed)
    ensures OnceOk(Reread(w, id, committed))
  {
    hide OnceOk;
    var w' := Reread(w, id, committed);
    MoveOnce(w, id, w'.calls[id].stage);
    SameTablesOnce(Move(w, id, w'.calls[id].stage), w');
  }

  lemma RecordOnce(w: World, id: nat, row: Note, next: nat)
    requires OnceOk(w) && id in w.calls && w.calls[id].stage == Recording(row, next)
    ensures OnceOk(Record(w, id, row, next))
  {
    hide OnceOk, Unique;
    CallIsAlone(w, id);
    QuietOnce(w, Record(w, id, row, next), id);
  }

  lemma NameOnce(w: World, id: nat, row: Note)
    requires OnceOk(w) && id in w.calls && w.calls[id].stage == Naming(row)
    ensures OnceOk(Name(w, id, row))
  {
    hide OnceOk;
    MoveOnce(w, id, Name(w, id, row).calls[id].stage);
  }

  /** Nobody has mailed about a note before its insertion, and no save of it has begun. */
  lemma NobodyElseAtCreation(w: World, id: nat)
    requires MailOk(w) && VersionsOk(w) && id in w.calls && w.calls[id].stage.Inserting?
    ensures forall k :: 0 <= k < |w.mails| ==> w.mails[k].note != w.calls[id].note
    ensures forall j :: j in w.calls && j != id && w.calls[j].note == w.calls[id].note ==>
      !w.calls[j].stage.Writing? && !MayMail(w, w.calls[j])
  {
    InsertingIsNew(w, id);
    hide MailOk;
    forall k | 0 <= k < |w.mails| ensures w.mails[k].note != w.calls[id].note { MailIsPosted(w, k); }
    forall j | j in w.calls && j != id && w.calls[j].note == w.calls[id].note
      ensures !w.calls[j].stage.Writing? && !MayMail(w, w.calls[j])
    {
      CallIsOk(w, j);
    }
  }

  lemma CreateOnce(w: World, id: nat, now: string)
    requires OnceOk(w) && MailOk(w) && VersionsOk(w) && id in w.calls && w.calls[id].stage.Inserting?
    ensures OnceOk(Create(w, id, now))
  {
    hide MailOk, VersionsOk, OnceOk, Unique, Wants, Create;
    NobodyElseAtCreation(w, id);
    CallIsAlone(w, id);
    CreateTouchesOne(w, id, now);
    JoinAlone(w, Create(w, id, now), id);
  }

  lemma CreateTouchesOne(w: World, id: nat, now: string)
    requires id in w.calls
    ensures var w', c := Create(w, id, now), w.calls[id];
      && w'.mails == w.mails && w'.calls == w.calls[id := w'.calls[id]]
      && w'.calls[id].mentioned == c.mentioned && w'.calls[id].note == c.note
      && w'.db.notes.Keys <= w.db.notes.Keys + {c.note}
  {}

  /** The next user to be mailed has not been mailed about this note, by this call or any other. */
  lemma NextIsNew(w: World, id: nat, next: nat, k: nat)
    requires OnceOk(w) && MailOk(w) && id in w.calls && w.calls[id].stage.Mailing? && w.calls[id].stage.next == next
    requires next < |w.calls[id].mentioned| && Wants(w.calls[id], w.calls[id].mentioned[next])
    requires k < |w.mails| && w.mails[k].note == w.calls[id].note
    ensures w.mails[k].user != w.calls[id].mentioned[next]
  {
    hide OnceOk, MailOk, MailsOf, Recipients;
    var c := w.calls[id];
    CallIsAlone(w, id);
    if w.mails[k].call == id {
      MailsOfHas(w.mails, k, |w.mails|);
      assert w.mails[..|w.mails|] == w.mails;
      CallMailIsOk(w, id);
      RecipientsAre(c.mentioned, c.known, c.actor, next, w.mails[k].user);
    }
  }

  lemma SendOnce(w: World, id: nat, row: Note, next: nat)
    requires OnceOk(w) && MailOk(w) && id in w.calls && w.calls[id].stage == Mailing(row, next)
    ensures OnceOk(Send(w, id, row, next))
  {
    hide MailOk, Unique, OnceOk;
    var w', c := Send(w, id, row, next), w.calls[id];
    MoveOnce(w, id, w'.calls[id].stage);
    var quiet := Move(w, id, w'.calls[id].stage);
    if w'.mails == w.mails {
      SameTablesOnce(quiet, w');
    } else {
      forall k | 0 <= k < |w.mails| && w.mails[k].note == c.note ensures w.mails[k].user != c.mentioned[next] { NextIsNew(w, id, next, k); }
      LoudOnce(quiet, w', id, Mail(id, c.note, c.mentioned[next]));
    }
  }

  /** One mail more, of a call that may send it, to a user not yet mailed about the note. */
  lemma LoudOnce(w: World, w': World, id: nat, m: Mail)
    requires OnceOk(w) && w' == w.(mails := w.mails + [m]) && m.call == id && id in w.calls && m.note == w.calls[id].note
    requires MayMail(w, w.calls[id]) && Wants(w.calls[id], m.user)
    requires forall k :: 0 <= k < |w.mails| && w.mails[k].note == m.note ==> w.mails[k].user != m.user
    ensures OnceOk(w')
  {
    hide Unique, MayMail, Wants;
    assert forall c: Call :: MayMail(w', c) == MayMail(w, c) by { SameMayMail(w, w'); }
    forall i | i in w'.calls ensures IsAlone(w', i, w'.calls[i]) {
      assert IsAlone(w, i, w.calls[i]);
      assert i != id && MayMail(w, w.calls[i]) && w.calls[i].note == m.note ==> !Wants(w.calls[i], m.user);
    }
  }

  lemma SameMayMail(w: World, w': World)
    requires w'.db.notes == w.db.notes
    ensures forall c: Call :: MayMail(w', c) == MayMail(w, c)
  {}

  lemma OthersOnce(w: World, a: Action)
    requires OnceOk(w) && Enabled(w, a) && !a.Step? && !a.Break? && (a.Begin? ==> Unique(a.call.mentioned))
    ensures OnceOk(Next(w, a))
  {
    hide Unique, Advance, Execute, Wants;
    var w' := Next(w, a);
    if a.Side? { SideOnlyRemoves(w.db, a.statement); }
    forall i | i in w'.calls ensures Unique(w'.calls[i].mentioned) && IsAlone(w', i, w'.calls[i]) {
      if i in w.calls { assert IsAlone(w, i, w.calls[i]); }
      forall j | j in w'.calls ensures MayMail(w', w'.calls[j]) ==> j in w.calls && MayMail(w, w.calls[j]) {}
    }
  }

  lemma StepOnce(w: World, a: Action)
    requires OnceOk(w) && RecordOk(w) && MailOk(w) && VersionsOk(w) && Enabled(w, a) && TakingTurns(Next(w, a))
    requires a.Begin? ==> Unique(a.call.mentioned)
    ensures OnceOk(Next(w, a))
  {
    hide OnceOk, RecordOk, MailOk, VersionsOk, TakingTurns, Open, OpenShared, Find, Permit, Recall, Write, Reread, Create, Record, Name, Send, Move;
    match a {
      case Step(id, now) =>
        CallIsOk(w, id);
        match w.calls[id].stage {
          case Opening => OpeningOnce(w, id);
          case Opened(row) => OpeningOnce(w, id);
          case Finding => LookupsOnce(w, id);
          case Permitting => LookupsOnce(w, id);
          case Recalling => RecallOnce(w, id);
          case Writing => WriteOnce(w, id, now);
          case Rereading(committed) => RereadOnce(w, id, committed);
          case Inserting => CreateOnce(w, id, now);
          case Recording(row, next) => RecordOnce(w, id, row, next);
          case Naming(row) => NameOnce(w, id, row);
          case Mailing(row, next) => SendOnce(w, id, row, next);
        }
      case Break(id) => MoveOnce(w, id, Done(Broken));
      case _ => OthersOnce(w, a);
    }
  }

  lemma {:induction false} RunOnce(w: World, run: seq<Action>)
    requires OnceOk(w) && RecordOk(w) && MailOk(w) && VersionsOk(w) && ValidRun(w, run) && OrderlyRun(w, run)
    ensures OnceOk(After(w, run))
    decreases |run|
  {
    hide OnceOk, RecordOk, MailOk, VersionsOk, TakingTurns, Enabled, Next, Unique;
    if run != [] {
      StepKeepsVersions(w, run[0]);
      StepKeepsMail(w, run[0]);
      StepKeepsRecord(w, run[0]);
      assert OrderlyRun(Next(w, run[0]), run[1..]) && TakingTurns(Next(w, run[0]));
      StepOnce(w, run[0]);
      RunOnce(Next(w, run[0]), run[1..]);
    }
  }

  /**
   * If the saves of each note take turns from snapshot to last record, and mention lists have no repetition, no user is
   * mailed twice about a note, broken and unfinished saves included.
   */
  lemma OneMailPerUserAndNote(users: set<string>, run: seq<Action>)
    requires ValidRun(Empty(users), run) && OrderlyRun(Empty(users), run)
    ensures var mails := After(Empty(users), run).mails;
      forall i, j :: 0 <= i < j < |mails| ==> mails[i].note != mails[j].note || mails[i].user != mails[j].user
  {
    hide Enabled, Next, OrderlyRun, TakingTurns;
    RunOnce(Empty(users), run);
  }

  // ---------------------------------------------------------------- without turns

  /** Appends an enabled action to a run. */
  lemma {:induction false} RunAppend(w: World, run: seq<Action>, more: seq<Action>)
    requires ValidRun(w, run) && ValidRun(After(w, run), more)
    ensures ValidRun(w, run + more) && After(w, run + more) == After(After(w, run), more)
    decreases |run|
  {
    hide Enabled, Next;
    if run == [] {
      assert run + more == more;
    } else {
      assert (run + more)[0] == run[0] && (run + more)[1..] == run[1..] + more;
      RunAppend(Next(w, run[0]), run[1..], more);
    }
  }

  lemma One(w: World, a: Action)
    requires Enabled(w, a)
    ensures ValidRun(w, [a]) && After(w, [a]) == Next(w, a)
  {
    hide Enabled, Next;
    assert [a][1..] == [];
  }

  /** Two saves of one note whose snapshots were both taken before either recorded its mention. */
  ghost predicate Racing(w: World, i: nat, j: nat, note: string, user: string) {
    && i in w.calls && j in w.calls && i != j && w.calls[i].stage == Rereading(true) && w.calls[j].stage.Writing?
    && (forall k :: k == i || k == j ==>
          w.calls[k].note == note && w.calls[k].mentioned == [user] && w.calls[k].known == {} && w.calls[k].actor != user
          && w.calls[k].actor in w.db.users)
    && user in w.db.users && note in w.db.notes && w.db.notes[note].version == w.calls[j].expected
  }

  /** A committed save runs on to its mail. */
  lemma SaveIsMailed(w: World, i: nat, note: string, user: string) returns (run: seq<Action>)
    requires i in w.calls && w.calls[i].stage == Rereading(true) && note in w.db.notes && user in w.db.users
    requires var c := w.calls[i]; c.note == note && c.mentioned == [user] && c.known == {} && c.actor != user && c.actor in w.db.users
    ensures ValidRun(w, run)
    ensures var w' := After(w, run);
      && w'.mails == w.mails + [Mail(i, note, user)] && w'.db.notes == w.db.notes && w'.db.users == w.db.users
      && forall k :: k in w.calls && k != i ==> k in w'.calls && w'.calls[k] == w.calls[k]
  {
    var s, c := Step(i, ""), w.calls[i];
    var w3 := SaveIsRecorded(w, i, note, user);
    var w5 := SaveIsSent(w3, i, note, user, w.db.notes[note]);
    hide Next, Enabled;
    RunAppend(w, [s] + [s] + [s], [s] + [s]);
    run := [s] + [s] + [s] + ([s] + [s]);
  }

  lemma SaveIsRecorded(w: World, i: nat, note: string, user: string) returns (w': World)
    requires i in w.calls && w.calls[i].stage == Rereading(true) && note in w.db.notes && user in w.db.users
    requires w.calls[i].note == note && w.calls[i].mentioned == [user]
    ensures var s := Step(i, ""); ValidRun(w, [s] + [s] + [s]) && After(w, [s] + [s] + [s]) == w'
    ensures w'.calls == w.calls[i := w.calls[i].(stage := Naming(w.db.notes[note]))] && w'.mails == w.mails
    ensures w'.db.notes == w.db.notes && w'.db.users == w.db.users
  {
    var s := Step(i, "");
    One(w, s);
    var w1 := Next(w, s);
    One(w1, s);
    var w2 := Next(w1, s);
    assert w2.calls[i].stage == Recording(w.db.notes[note], 1);
    One(w2, s);
    w' := Next(w2, s);
    assert w'.calls == w.calls[i := w.calls[i].(stage := Naming(w.db.notes[note]))];
    hide Next, Enabled;
    RunAppend(w, [s], [s]);
    RunAppend(w, [s] + [s], [s]);
  }

  lemma SaveIsSent(w: World, i: nat, note: string, user: string, row: Note) returns (w': World)
    requires i in w.calls && w.calls[i].stage == Naming(row) && user in w.db.users
    requires var c := w.calls[i]; c.note == note && c.mentioned == [user] && c.known == {} && c.actor != user && c.actor in w.db.users
    ensures var s := Step(i, ""); ValidRun(w, [s] + [s]) && After(w, [s] + [s]) == w'
    ensures w' == w.(calls := w.calls[i := w.calls[i].(stage := Mailing(row, 1))], mails := w.mails + [Mail(i, note, user)])
  {
    var s := Step(i, "");
    One(w, s);
    var w1 := Next(w, s);
    One(w1, s);
    w' := Next(w1, s);
    assert w'.calls == w.calls[i := w.calls[i].(stage := Mailing(row, 1))];
    hide Next, Enabled;
    RunAppend(w, [s], [s]);
  }

  lemma RaceMailsTwice(w: World, i: nat, j: nat, note: string, user: string) returns (run: seq<Action>)
    requires Racing(w, i, j, note, user)
    ensures ValidRun(w, run) && After(w, run).mails == w.mails + [Mail(i, note, user), Mail(j, note, user)]
  {
    assert w.calls[i].note == note && w.calls[j].note == note;
    var first := SaveIsMailed(w, i, note, user);
    var w1 := After(w, first);
    var s := Step(j, "");
    One(w1, s);
    var w2 := Next(w1, s);
    assert w2.mails == w1.mails && w2.calls[j].stage == Rereading(true);
    var second := SaveIsMailed(w2, j, note, user);
    hide Next, Enabled;
    RunAppend(w1, [s], second);
    RunAppend(w, first, [s] + second);
    run := first + ([s] + second);
  }

  function Save(actor: string, note: string, expected: int, user: string): Call {
    Call(Typed, actor, note, expected, "t", "", [user], {}, 0, true, Finding)
  }

  lemma NoteIsCreated(note: string, ann: string, bob: string) returns (run: seq<Action>, w: World)
    ensures ValidRun(Empty({ann, bob}), run) && After(Empty({ann, bob}), run) == w
    ensures note in w.db.notes && w.db.notes[note] == Note(ann, "t", "", 1, "") && (note, 1) in w.given
    ensures w.calls.Keys == {0} && w.mails == [] && w.db.mentions == {} && w.db.users == {ann, bob}
  {
    var start, a, s := Empty({ann, bob}), Begin(0, Call(Fresh, ann, note, 0, "t", "", [], {}, 0, false, Inserting)), Step(0, "");
    One(start, a);
    One(Next(start, a), s);
    w := Next(Next(start, a), s);
    hide Next, Enabled;
    RunAppend(start, [a], [s]);
    run := [a] + [s];
  }

  /** The owner saves version 1; while that save is on its way, version 2 is opened and saved as well. */
  lemma RaceIsReachable(note: string, ann: string, bob: string) returns (run: seq<Action>)
    requires ann != bob
    ensures ValidRun(Empty({ann, bob}), run) && Racing(After(Empty({ann, bob}), run), 1, 2, note, bob)
    ensures After(Empty({ann, bob}), run).mails == []
  {
    hide Next, Enabled, Empty;
    var w := Empty({ann, bob});
    var a, w1 := NoteIsCreated(note, ann, bob);
    var b, w2 := SaveIsWritten(w1, 1, note, ann, bob, 1);
    NoteIsShown(w2, note);
    var w3 := w2.(given := w2.given + {(note, 2)});
    var c, w4 := SaveIsRecalled(w3, 2, note, ann, bob, 2);
    RunAppend(w, a, b);
    RunAppend(w, a + b, [Show(note)]);
    RunAppend(w, a + b + [Show(note)], c);
    run := a + b + [Show(note)] + c;
  }

  lemma NoteIsShown(w: World, note: string)
    requires note in w.db.notes
    ensures ValidRun(w, [Show(note)]) && After(w, [Show(note)]) == w.(given := w.given + {(note, w.db.notes[note].version)})
  {
    One(w, Show(note));
  }

  lemma SaveIsRecalled(w: World, i: nat, note: string, ann: string, bob: string, v: int) returns (run: seq<Action>, w': World)
    requires i !in w.calls && note in w.db.notes && w.db.notes[note].owner == ann && (note, v) in w.given
    requires forall m :: m in w.db.mentions ==> m.0 != note
    ensures ValidRun(w, run) && After(w, run) == w'
    ensures w' == w.(calls := w.calls[i := Save(ann, note, v, bob).(since := |w.recorded|, stage := Writing)])
  {
    run := [Begin(i, Save(ann, note, v, bob)), Step(i, ""), Step(i, "")];
    var w1 := Next(w, run[0]);
    var w2 := Next(w1, run[1]);
    assert w2.calls[i].stage == Recalling;
    w' := Next(w2, run[2]);
    assert MentionedIn(w.db, note) == {};
    assert w' == w.(calls := w.calls[i := Save(ann, note, v, bob).(since := |w.recorded|, stage := Writing)]);
    One(w, run[0]);
    One(w1, run[1]);
    One(w2, run[2]);
    hide Next, Enabled;
    RunAppend(w, [run[0]], [run[1]]);
    RunAppend(w, [run[0]] + [run[1]], [run[2]]);
    assert [run[0]] + [run[1]] + [run[2]] == run;
  }

  lemma SaveIsWritten(w: World, i: nat, note: string, ann: string, bob: string, v: int) returns (run: seq<Action>, w': World)
    requires i !in w.calls && note in w.db.notes && w.db.notes[note].owner == ann && w.db.notes[note].version == v && (note, v) in w.given
    requires forall m :: m in w.db.mentions ==> m.0 != note
    ensures ValidRun(w, run) && After(w, run) == w'
    ensures w'.calls == w.calls[i := Save(ann, note, v, bob).(since := |w.recorded|, stage := Rereading(true))] && w'.mails == w.mails
    ensures w'.db == w.db.(notes := w'.db.notes)
    ensures note in w'.db.notes && w'.db.notes[note].owner == ann && w'.db.notes[note].version == v + 1
  {
    var start, w1 := SaveIsRecalled(w, i, note, ann, bob, v);
    var s := Step(i, "");
    One(w1, s);
    w' := Next(w1, s);
    assert w'.calls == w.calls[i := Save(ann, note, v, bob).(since := |w.recorded|, stage := Rereading(true))];
    hide Next, Enabled;
    RunAppend(w, start, [s]);
    run := start + [s];
  }

  /** Two overlapping saves by the owner do mail the same user twice about the same note. */
  lemma OverlappingSavesMailTwice(note: string, ann: string, bob: string) returns (run: seq<Action>)
    requires ann != bob
    ensures ValidRun(Empty({ann, bob}), run)
    ensures After(Empty({ann, bob}), run).mails == [Mail(1, note, bob), Mail(2, note, bob)]
  {
    hide Next, Enabled, Empty, Racing;
    var race := RaceIsReachable(note, ann, bob);
    var w := After(Empty({ann, bob}), race);
    var rest := RaceMailsTwice(w, 1, 2, note, bob);
    RunAppend(Empty({ann, bob}), race, rest);
    run := race + rest;
  }
}
