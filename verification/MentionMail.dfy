/** Who is mailed about a mention: recorded first, never by a failed save, and once a note if saves of it take turns. */
module MentionMail {
  import opened Schema
  import opened UpdateProtocol
  import TaskList
  import Mentions

  /** The users mailed by one call, in order. */
  function MailsOf(mails: seq<Mail>, id: nat): seq<string> {
    if mails == [] then []
    else
      var n := |mails| - 1;
      MailsOf(mails[..n], id) + (if mails[n].call == id then [mails[n].user] else [])
  }

  /** Of the first n mentioned users, those not known to have been mentioned before, the actor excepted. */
  function Recipients(mentioned: seq<string>, known: set<string>, actor: string, n: nat): seq<string>
    requires n <= |mentioned|
  {
    if n == 0 then []
    else
      var u := mentioned[n - 1];
      Recipients(mentioned, known, actor, n - 1) + (if u in known || u == actor then [] else [u])
  }

  function Newly(c: Call, n: nat): seq<string>
    requires n <= |c.mentioned|
  {
    Recipients(c.mentioned, c.known, c.actor, n)
  }

  // ---------------------------------------------------------------- the invariant on mail

  predicate IsRecorded(w: World, note: string, user: string) { (note, user) in w.recorded && user in w.db.users }

  /** How many of the call's mentions are known to be recorded. */
  function RecordedCount(c: Call): nat {
    match c.stage
    case Recording(_, next) => next
    case Naming(_) => |c.mentioned|
    case Mailing(_, _) => |c.mentioned|
    case Done(Saved(_)) => |c.mentioned|
    case _ => 0
  }

  /** How many of the call's mentions have had their turn in the mail loop. */
  function MailedCount(c: Call): nat {
    match c.stage
    case Mailing(_, next) => next
    case Done(Saved(_)) => |c.mentioned|
    case _ => 0
  }

  predicate CallMailOk(w: World, id: nat, c: Call) {
    && RecordedCount(c) <= |c.mentioned| && MailedCount(c) <= |c.mentioned|
    && (forall k :: 0 <= k < RecordedCount(c) ==> IsRecorded(w, c.note, c.mentioned[k]))
    && (c.stage != Done(Broken) ==> MailsOf(w.mails, id) == Newly(c, MailedCount(c)))
  }

  predicate PostOk(w: World, m: Mail) {
    && m.call in w.calls && (w.calls[m.call].stage.Mailing? || w.calls[m.call].stage.Done?) && w.calls[m.call].note == m.note
    && IsRecorded(w, m.note, m.user)
    && m.user in w.calls[m.call].mentioned && m.user !in w.calls[m.call].known && m.user != w.calls[m.call].actor
  }

  ghost predicate MailOk(w: World) {
    && (forall id :: id in w.calls ==> CallMailOk(w, id, w.calls[id]))
    && (forall k :: 0 <= k < |w.mails| ==> PostOk(w, w.mails[k]))
    && (forall m :: m in w.recorded ==> m.0 in w.history)
  }

  lemma {:induction false} NoMailsYet(w: World, id: nat, n: nat)
    requires n <= |w.mails| && id !in w.calls && forall k :: 0 <= k < |w.mails| ==> PostOk(w, w.mails[k])
    ensures MailsOf(w.mails[..n], id) == []
  {
    hide IsRecorded;
    if n > 0 {
      assert w.mails[..n][..n - 1] == w.mails[..n - 1] && PostOk(w, w.mails[n - 1]);
      NoMailsYet(w, id, n - 1);
    }
  }

  lemma MailIsPosted(w: World, k: nat)
    requires MailOk(w) && k < |w.mails|
    ensures PostOk(w, w.mails[k]) && (w.mails[k].note, w.mails[k].user) in w.recorded && w.mails[k].note in w.history
  {
    assert PostOk(w, w.mails[k]);
  }

  /** Steps that send nothing and move at most one call. */
  lemma QuietMail(w: World, w': World, id: nat)
    requires MailOk(w) && w'.mails == w.mails && w.recorded <= w'.recorded && w.db.users <= w'.db.users
    requires forall m :: m in w'.recorded ==> m.0 in w'.history
    requires id in w.calls && id in w'.calls && w'.calls == w.calls[id := w'.calls[id]]
    requires CallMailOk(w', id, w'.calls[id]) && w'.calls[id].note == w.calls[id].note
    requires w.calls[id].stage.Mailing? ==>
      w'.calls[id] == w.calls[id].(stage := w'.calls[id].stage) && (w'.calls[id].stage.Mailing? || w'.calls[id].stage.Done?)
    requires !w.calls[id].stage.Done? || w'.calls == w.calls
    ensures MailOk(w')
  {
    hide MailsOf, Newly;
    forall i | i in w'.calls ensures CallMailOk(w', i, w'.calls[i]) {
      if i != id { assert CallMailOk(w, i, w.calls[i]); }
    }
    forall k | 0 <= k < |w'.mails| ensures PostOk(w', w'.mails[k]) { assert PostOk(w, w.mails[k]); }
  }

  lemma RecordedNotesAreKnown(w: World)
    requires MailOk(w)
    ensures forall m :: m in w.recorded ==> m.0 in w.history
  {}

  lemma CallMailIsOk(w: World, id: nat)
    requires MailOk(w) && id in w.calls
    ensures CallMailOk(w, id, w.calls[id])
  {}

  /** Stages before any mention is recorded: the call has mailed nobody. */
  predicate Early(s: Stage) { Submitted(s) || s.Opening? || s.Opened? || s.Inserting? }

  /** The answers to a save that did not go through. */
  predicate Refused(r: Result) { r.Conflict? || r.NotFound? || r.Forbidden? || r.Invalid? || r.Failed? }

  lemma EarlyMailOk(w: World, id: nat, c: Call, c': Call)
    requires CallMailOk(w, id, c) && MailedCount(c) == 0 && c.stage != Done(Broken)
    requires RecordedCount(c') == 0 == MailedCount(c')
    ensures CallMailOk(w, id, c')
  {}

  /** A step that moves one call, not yet past its first mention, and leaves mail, mention log and users alone. */
  ghost predicate EarlyStep(w: World, w': World, id: nat)
    requires id in w.calls
  {
    && w'.mails == w.mails && w'.recorded == w.recorded && w'.db.users == w.db.users && w.history.Keys <= w'.history.Keys
    && id in w'.calls && w'.calls == w.calls[id := w'.calls[id]] && w'.calls[id].note == w.calls[id].note
    && RecordedCount(w'.calls[id]) == 0 == MailedCount(w'.calls[id])
  }

  lemma LookupsAreEarly(w: World, id: nat)
    requires id in w.calls
    ensures w.calls[id].origin.Toggle? ==> EarlyStep(w, Open(w, id), id) && forall row :: EarlyStep(w, OpenShared(w, id, row), id)
    ensures EarlyStep(w, Find(w, id), id) && EarlyStep(w, Permit(w, id), id) && EarlyStep(w, Recall(w, id), id)
  {
    hide TaskList.SetChecked, Mentions.Extract, MentionedIn, SharePermission;
  }

  lemma WritesAreEarly(w: World, id: nat, now: string)
    requires id in w.calls
    ensures EarlyStep(w, Write(w, id, now), id) && EarlyStep(w, Create(w, id, now), id)
    ensures forall committed :: EarlyStep(w, Reread(w, id, committed), id)
  {}

  lemma EarlyEffect(w: World, id: nat, now: string)
    requires id in w.calls && Early(w.calls[id].stage) && (w.calls[id].stage.Opening? || w.calls[id].stage.Opened? ==> w.calls[id].origin.Toggle?)
    ensures EarlyStep(w, Advance(w, id, now), id)
  {
    LookupsAreEarly(w, id);
    WritesAreEarly(w, id, now);
    hide EarlyStep, Open, OpenShared, Find, Permit, Recall, Write, Reread, Create, Record, Name, Send;
  }

  lemma EarlyKeepsMail(w: World, id: nat, now: string)
    requires MailOk(w) && VersionsOk(w) && id in w.calls && Early(w.calls[id].stage)
    ensures MailOk(Advance(w, id, now))
  {
    hide MailsOf, Newly, MailOk, CallMailOk, Advance, VersionsOk;
    var w', c := Advance(w, id, now), w.calls[id];
    CallIsOk(w, id);
    EarlyEffect(w, id, now);
    CallMailIsOk(w, id);
    RecordedNotesAreKnown(w);
    EarlyMailOk(w, id, c, w'.calls[id]);
    SameMail(w, w', id, w'.calls[id]);
    QuietMail(w, w', id);
  }

  lemma SameMail(w: World, w': World, id: nat, c: Call)
    requires CallMailOk(w, id, c) && w'.mails == w.mails && w.recorded <= w'.recorded && w.db.users <= w'.db.users
    ensures CallMailOk(w', id, c)
  {
    hide MailsOf, Newly;
  }

  lemma RecordKeepsMail(w: World, id: nat, row: Note, next: nat)
    requires MailOk(w) && VersionsOk(w) && id in w.calls && w.calls[id].stage == Recording(row, next)
    ensures MailOk(Record(w, id, row, next))
  {
    hide MailsOf, Newly, MailOk, VersionsOk, Stored;
    var w', c := Record(w, id, row, next), w.calls[id];
    CallMailIsOk(w, id);
    RecordedNotesAreKnown(w);
    if c.note in w.db.notes { NoteIsOk(w, c.note); }
    assert Newly(w'.calls[id], 0) == Newly(c, 0) by { NewlyNone(c); NewlyNone(w'.calls[id]); }
    QuietMail(w, w', id);
  }

  lemma NewlyNone(c: Call)
    ensures Newly(c, 0) == []
  {}

  lemma NameKeepsMail(w: World, id: nat, row: Note)
    requires MailOk(w) && id in w.calls && w.calls[id].stage == Naming(row)
    ensures MailOk(Name(w, id, row))
  {
    hide MailsOf, Newly, MailOk;
    var w', c := Name(w, id, row), w.calls[id];
    CallMailIsOk(w, id);
    RecordedNotesAreKnown(w);
    NewlyNone(c);
    NewlyNone(w'.calls[id]);
    QuietMail(w, w', id);
  }

  lemma BreakKeepsMail(w: World, id: nat)
    requires MailOk(w) && id in w.calls && !w.calls[id].stage.Done?
    ensures MailOk(Move(w, id, Done(Broken)))
  {
    hide MailsOf, Newly, MailOk;
    CallMailIsOk(w, id);
    RecordedNotesAreKnown(w);
    QuietMail(w, Move(w, id, Done(Broken)), id);
  }

  /** The recipients do not depend on how far the call has come. */
  lemma NewlyIsStable(c: Call, c': Call, n: nat)
    requires c'.mentioned == c.mentioned && c'.known == c.known && c'.actor == c.actor && n <= |c.mentioned|
    ensures Newly(c', n) == Newly(c, n)
  {}

  lemma MailsOfOne(mails: seq<Mail>, m: Mail, id: nat)
    ensures MailsOf(mails + [m], id) == MailsOf(mails, id) + if m.call == id then [m.user] else []
  {
    assert (mails + [m])[..|mails|] == mails;
  }

  lemma SendKeepsMail(w: World, id: nat, row: Note, next: nat)
    requires MailOk(w) && id in w.calls && w.calls[id].stage == Mailing(row, next)
    ensures MailOk(Send(w, id, row, next))
  {
    hide MailOk, MailsOf, Newly;
    var w', c := Send(w, id, row, next), w.calls[id];
    CallMailIsOk(w, id);
    RecordedNotesAreKnown(w);
    NewlyIsStable(c, w'.calls[id], next);
    if next < |c.mentioned| {
      assert IsRecorded(w, c.note, c.mentioned[next]);
      NewlyNext(w'.calls[id], next);
    }
    if w'.mails == w.mails {
      QuietMail(w, w', id);
    } else {
      MailsOfOne(w.mails, Mail(id, c.note, c.mentioned[next]), id);
      LoudMail(w, w', id, Mail(id, c.note, c.mentioned[next]));
    }
  }

  lemma NewlyNext(c: Call, n: nat)
    requires n < |c.mentioned|
    ensures Newly(c, n + 1) == if c.mentioned[n] in c.known || c.mentioned[n] == c.actor then Newly(c, n) else Newly(c, n) + [c.mentioned[n]]
  {}

  /** A step that sends one mail, for the call it moves along its mail loop. */
  lemma LoudMail(w: World, w': World, id: nat, m: Mail)
    requires MailOk(w) && w'.mails == w.mails + [m] && m.call == id
    requires w'.recorded == w.recorded && w'.db.users == w.db.users && w'.history == w.history
    requires id in w.calls && id in w'.calls && w'.calls == w.calls[id := w'.calls[id]]
    requires w.calls[id].stage.Mailing? && w'.calls[id].stage.Mailing? && w'.calls[id] == w.calls[id].(stage := w'.calls[id].stage)
    requires CallMailOk(w', id, w'.calls[id]) && PostOk(w', m)
    ensures MailOk(w')
  {
    hide MailsOf, Newly;
    forall i | i in w'.calls ensures CallMailOk(w', i, w'.calls[i]) {
      if i != id {
        assert CallMailOk(w, i, w.calls[i]);
        MailsOfOne(w.mails, m, i);
      }
    }
    forall k | 0 <= k < |w'.mails| ensures PostOk(w', w'.mails[k]) {
      if k < |w.mails| { assert PostOk(w, w.mails[k]); }
    }
  }

  lemma OthersKeepMail(w: World, a: Action)
    requires MailOk(w) && Enabled(w, a) && !a.Step? && !a.Break?
    ensures MailOk(Next(w, a))
  {
    hide MailsOf, Newly, Advance, Execute;
    var w' := Next(w, a);
    if a.Side? { SideKeepsUsers(w.db, a.statement); }
    forall i | i in w'.calls ensures CallMailOk(w', i, w'.calls[i]) {
      if i in w.calls {
        SameMail(w, w', i, w.calls[i]);
      } else {
        assert w.mails[..|w.mails|] == w.mails;
        NoMailsYet(w, i, |w.mails|);
        NewlyNone(a.call);
      }
    }
    forall k | 0 <= k < |w'.mails| ensures PostOk(w', w'.mails[k]) { assert PostOk(w, w.mails[k]); }
  }

  lemma SideKeepsUsers(db: Db, s: Statement)
    requires IsSide(s)
    ensures Execute(db, s).users == db.users
    ensures forall m :: m in db.mentions && m.0 in Execute(db, s).notes ==> m in Execute(db, s).mentions
    ensures Execute(db, s).mentions <= db.mentions
  {}

  lemma StepKeepsMail(w: World, a: Action)
    requires MailOk(w) && VersionsOk(w) && Enabled(w, a)
    ensures MailOk(Next(w, a))
  {
    hide MailOk, VersionsOk, Open, OpenShared, Find, Permit, Recall, Write, Reread, Create, Record, Name, Send, Move;
    match a {
      case Step(id, now) =>
        match w.calls[id].stage {
          case Recording(row, next) => RecordKeepsMail(w, id, row, next);
          case Naming(row) => NameKeepsMail(w, id, row);
          case Mailing(row, next) => SendKeepsMail(w, id, row, next);
          case _ => EarlyKeepsMail(w, id, now);
        }
      case Break(id) => BreakKeepsMail(w, id);
      case _ => OthersKeepMail(w, a);
    }
  }

  lemma {:induction false} RunKeepsMail(w: World, run: seq<Action>)
    requires MailOk(w) && VersionsOk(w) && ValidRun(w, run)
    ensures MailOk(After(w, run))
    decreases |run|
  {
    hide MailOk, VersionsOk, Enabled, Next;
    if run != [] {
      StepKeepsVersions(w, run[0]);
      StepKeepsMail(w, run[0]);
      RunKeepsMail(Next(w, run[0]), run[1..]);
    }
  }

  lemma MailInEveryReachableWorld(users: set<string>, run: seq<Action>)
    requires ValidRun(Empty(users), run)
    ensures MailOk(After(Empty(users), run))
  {
    hide Enabled, Next;
    RunKeepsMail(Empty(users), run);
  }

  // ---------------------------------------------------------------- theorems

  /**
   * A save that went through has recorded all its mentions and mailed exactly the users not recorded in its snapshot,
   * the actor excepted, in the order given.
   */
  lemma SavedMailsTheNewlyMentioned(users: set<string>, run: seq<Action>, id: nat)
    requires ValidRun(Empty(users), run)
    ensures var w := After(Empty(users), run);
      id in w.calls && w.calls[id].stage.Done? && w.calls[id].stage.result.Saved? ==>
        var c := w.calls[id];
        MailsOf(w.mails, id) == Newly(c, |c.mentioned|) && forall u :: u in c.mentioned ==> IsRecorded(w, c.note, u)
  {
    hide After, ValidRun, MailOk, MailsOf, Newly;
    MailInEveryReachableWorld(users, run);
    var w := After(Empty(users), run);
    if id in w.calls { CallMailIsOk(w, id); }
  }

  /** A conflict, a refusal or a failed mention insert has mailed nobody. */
  lemma RefusedMailsNobody(users: set<string>, run: seq<Action>, id: nat)
    requires ValidRun(Empty(users), run)
    ensures var w := After(Empty(users), run);
      id in w.calls && w.calls[id].stage.Done? && Refused(w.calls[id].stage.result) ==> MailsOf(w.mails, id) == []
  {
    hide After, ValidRun, MailOk, MailsOf;
    MailInEveryReachableWorld(users, run);
    var w := After(Empty(users), run);
    if id in w.calls { CallMailIsOk(w, id); }
  }

  /** At every moment, whoever has been mailed about a note had already been recorded as mentioned in it, and is a user. */
  lemma MailedWereRecorded(users: set<string>, run: seq<Action>, k: nat)
    requires ValidRun(Empty(users), run)
    ensures var w := After(Empty(users), run);
      k < |w.mails| ==>
        (IsRecorded(w, w.mails[k].note, w.mails[k].user) && w.mails[k].call in w.calls
         && w.mails[k].user in w.calls[w.mails[k].call].mentioned && w.mails[k].user != w.calls[w.mails[k].call].actor)
  {
    hide After, ValidRun, MailOk;
    MailInEveryReachableWorld(users, run);
    var w := After(Empty(users), run);
    if k < |w.mails| { MailIsPosted(w, k); }
  }

  /** The mail loop never meets an unknown user: the foreign key has already failed the save. */
  lemma NoUnknownUserIsSkipped(users: set<string>, run: seq<Action>, id: nat)
    requires ValidRun(Empty(users), run)
    ensures var w := After(Empty(users), run);
      id in w.calls && w.calls[id].stage.Mailing? ==> forall u :: u in w.calls[id].mentioned ==> u in w.db.users
  {
    hide After, ValidRun, MailOk, MailsOf, Newly;
    MailInEveryReachableWorld(users, run);
    var w := After(Empty(users), run);
    if id in w.calls {
      CallMailIsOk(w, id);
      forall u | w.calls[id].stage.Mailing? && u in w.calls[id].mentioned ensures u in w.db.users {
        var k :| 0 <= k < |w.calls[id].mentioned| && w.calls[id].mentioned[k] == u;
        assert IsRecorded(w, w.calls[id].note, w.calls[id].mentioned[k]);
      }
    }
  }
}
