/** The note service over its repository, each call run without interruption, and the card that toggles a checkbox. */
module Service {
  import opened Text
  import opened Schema
  import opened Repository
  import Paging
  import UpdateProtocol
  import MentionMail
  import Mentions
  import TaskList

  type Result = UpdateProtocol.Result

  /** A mail to somebody mentioned in a note, or to somebody it was shared with. */
  datatype Notice = Mentioned(note: string, user: string) | Shared(note: string, user: string, canEdit: bool)

  function Outbox(note: string, users: seq<string>): seq<Notice> {
    seq(|users|, k requires 0 <= k < |users| => Mentioned(note, users[k]))
  }

  lemma OutboxGrows(note: string, users: seq<string>, u: string)
    ensures Outbox(note, users + [u]) == Outbox(note, users) + [Mentioned(note, u)]
  {}

  const INITIAL_PAGE_SIZE := 12

  function PageSize(limit: int): nat { if limit <= 0 then INITIAL_PAGE_SIZE else limit }

  const SAMPLE_NOTE_ID := "00000000-0000-0000-0000-000000000000"

  const SAMPLE_TITLE := "Welcome to NA Notes"

  const SAMPLE_CONTENT := "Sign in to create your own notes, share them with teammates, and mention people to loop them in."

  predicate MayEdit(p: Option<Permission>) { p == Some(Permission.Owner) || p == Some(Permission.Edit) }

  datatype Notified = Sent | InsertFailed | NoActor

  /** The answers of the owner's calls. */
  datatype Outcome = Ok | Missing | NotOwner | SelfShare | UnknownUser | Refused

  /** The updates that reach the conditional UPDATE and change its row. */
  predicate Commits(db: Db, note: string, actor: string, expected: int, title: string) {
    title != "" && MayEdit(PermissionFor(db, note, actor)) && db.notes[note].version == expected
  }

  /** Everybody a save names is a user, and so is, if it names anybody, its actor. */
  predicate KnowsAll(db: Db, actor: string, mentioned: seq<string>) {
    mentioned == [] || (actor in db.users && forall u :: u in mentioned ==> u in db.users)
  }

  /** The tables after a committed update: the note's new version, and its mentions up to the first unknown one. */
  function AfterUpdate(db: Db, note: string, expected: int, title: string, content: string, mentioned: seq<string>, now: string): Db {
    InsertMentions(UpdateNote(db, note, title, content, now, expected).0, note, mentioned).0
  }

  /** The answer an update is given, by the tables it finds. */
  ghost predicate Answers(db: Db, note: string, actor: string, expected: int, title: string, mentioned: seq<string>, r: Result) {
    var p := PermissionFor(db, note, actor);
    && (r.Invalid? <==> title == "")
    && (r.Forbidden? <==> title != "" && p == Some(Permission.Read))
    && (r.Conflict? <==> title != "" && MayEdit(p) && db.notes[note].version != expected)
    && (r.Conflict? ==> r.note == db.notes[note])
    && (r.Saved? <==> Commits(db, note, actor, expected, title) && KnowsAll(db, actor, mentioned))
    && (r.Failed? <==> Commits(db, note, actor, expected, title) && exists u :: u in mentioned && u !in db.users)
    && (r.NotFound? <==>
          (title != "" && p.None?)
          || (Commits(db, note, actor, expected, title) && mentioned != [] && actor !in db.users && forall u :: u in mentioned ==> u in db.users))
    && !r.Broken?
  }

  lemma CommittedAnswers(db: Db, note: string, actor: string, expected: int, title: string, mentioned: seq<string>, r: Result)
    requires Commits(db, note, actor, expected, title)
    requires r.Saved? || r.Failed? || r.NotFound?
    requires r.Saved? <==> KnowsAll(db, actor, mentioned)
    requires r.Failed? <==> exists u :: u in mentioned && u !in db.users
    ensures Answers(db, note, actor, expected, title, mentioned, r)
  {}

  class NoteService {
    const repo: NoteRepository
    var mails: seq<Notice>

    constructor (repo: NoteRepository)
      ensures this.repo == repo && mails == []
    {
      this.repo := repo;
      mails := [];
    }

    /**
     * A signed-in viewer gets, for any limit and every known cursor, exactly its page, of twelve items if the limit is not
     * positive; anybody else gets the one public sample note.
     */
    method List(viewer: Option<string>, cursor: Option<string>, limit: int, now: int) returns (a: Paging.Answer)
      ensures viewer.None? || viewer == Some("") ==>
        a.Ok? && a.page.next == None && |a.page.items| == 1 && var sample := a.page.items[0];
        && sample.title == SAMPLE_TITLE && sample.content == SAMPLE_CONTENT && sample.id == sample.owner == SAMPLE_NOTE_ID
        && sample.permission == Permission.Read && sample.isPublic && sample.updatedAt == now
      ensures viewer.Some? && viewer != Some("") && Paging.GoodRows(repo.Tables()) && Paging.BoundOf(cursor).Some? ==>
        a.Ok? && Paging.IsPage(repo.Tables(), viewer.value, Paging.BoundOf(cursor).value, if limit >= 1 then limit else 12, a.page)
      ensures viewer.Some? && viewer != Some("") && Paging.BoundOf(cursor).None? ==> a == Paging.BadCursor
    {
      hide Paging.ListForViewer, Paging.GoodRows, Paging.BoundOf, Paging.IsPage, SAMPLE_TITLE, SAMPLE_CONTENT, SAMPLE_NOTE_ID;
      if viewer.None? || viewer.value == "" { 
        var sample := Paging.Summary(SAMPLE_NOTE_ID, SAMPLE_TITLE, SAMPLE_CONTENT, SAMPLE_NOTE_ID, Permission.Read, true, now);
        return Paging.Ok(Paging.Page([sample], None));
      }
      a := repo.ListPage(viewer.value, cursor, PageSize(limit));
      Paging.UnknownCursorIsRefused(repo.Tables(), viewer.value, cursor, PageSize(limit));
      if Paging.GoodRows(repo.Tables()) && Paging.BoundOf(cursor).Some? {
        Paging.QueryAnswersPages(repo.Tables(), viewer.value, cursor, PageSize(limit));
      }
    }

    /** A viewer without a share gets the same answer as for a note that does not exist. */
    method Get(note: string, viewer: string) returns (r: Option<(Note, Permission)>)
      ensures r.None? <==> PermissionFor(repo.Tables(), note, viewer).None?
      ensures r.Some? ==> note in repo.notes && r.value.0 == repo.notes[note]
      ensures r.Some? ==> PermissionFor(repo.Tables(), note, viewer) == Some(r.value.1)
    {
      var n := repo.GetById(note);
      if n.None? { return None; }
      if n.value.owner == viewer { return Some((n.value, Permission.Owner)); }
      var p := repo.GetSharePermission(note, viewer);
      if p.None? { return None; }
      r := Some((n.value, p.value));
    }

    /** Every mention is recorded before the first mail goes out; a failed insert sends none. */
    method NotifyMentions(note: string, actor: string, known: set<string>, mentioned: seq<string>) returns (r: Notified)
      modifies this`mails, repo
      ensures repo.Tables() == InsertMentions(old(repo.Tables()), note, mentioned).0
      ensures r.InsertFailed? <==> !InsertMentions(old(repo.Tables()), note, mentioned).1
      ensures r.Sent? <==> mentioned == [] || (!r.InsertFailed? && actor in old(repo.users))
      ensures mails == old(mails) + if r.Sent? then Outbox(note, MentionMail.Recipients(mentioned, known, actor, |mentioned|)) else []
    {
      InsertMentionsRecords(repo.Tables(), note, mentioned);
      if mentioned == [] { return Sent; }
      var ok := repo.AddMentions(note, mentioned);
      if !ok { return InsertFailed; }
      if actor !in repo.users { return NoActor; }
      r := Sent;
      hide InsertMentions, Integrity;
      for i := 0 to |mentioned|
        modifies this`mails
        invariant mails == old(mails) + Outbox(note, MentionMail.Recipients(mentioned, known, actor, i))
      {
        var u := mentioned[i];
        OutboxGrows(note, MentionMail.Recipients(mentioned, known, actor, i), u);
        if u in known || u == actor { continue; }
        if u !in repo.users { continue; }
        mails := mails + [Mentioned(note, u)];
      }
    }

    /** A new note is stored even if its mentions then fail; only a create that goes through mails. */
    method Create(note: string, actor: string, title: string, content: string, mentioned: seq<string>, now: string) returns (r: Result)
      modifies this`mails, repo
      ensures var db := old(repo.Tables());
        && (title != "" && InsertNote(db, note, actor, title, content, now).Some? ==>
              repo.Tables() == InsertMentions(InsertNote(db, note, actor, title, content, now).value, note, mentioned).0
              && note in repo.notes && repo.notes[note] == Note(actor, title, content, 1, now)
              && r == if KnowsAll(db, actor, mentioned) then UpdateProtocol.Saved(repo.notes[note]) else UpdateProtocol.Failed)
        && (!(title != "" && InsertNote(db, note, actor, title, content, now).Some?) ==>
              repo.Tables() == db && r == if title == "" then UpdateProtocol.Invalid else UpdateProtocol.Failed)
        && mails == old(mails) + if r.Saved? then Outbox(note, MentionMail.Recipients(mentioned, {}, actor, |mentioned|)) else []
    {
      if title == "" { return UpdateProtocol.Invalid; }
      var created := repo.Create(note, actor, title, content, now);
      if !created { return UpdateProtocol.Failed; }
      InsertMentionsRecords(repo.Tables(), note, mentioned);
      var n := repo.GetById(note);
      var notified := NotifyMentions(note, actor, {}, mentioned);
      r := if notified.Sent? then UpdateProtocol.Saved(n.value) else UpdateProtocol.Failed;
    }

    /**
     * Which answer is given when, and what is stored and mailed then: only a save that goes through mails, and a save that
     * names an unknown user has changed the note all the same.
     */
    method Update(note: string, actor: string, expected: int, title: string, content: string, mentioned: seq<string>, now: string)
      returns (r: Result)
      modifies this`mails, repo
      ensures Answers(old(repo.Tables()), note, actor, expected, title, mentioned, r)
      ensures r.Saved? ==> note in repo.notes && r.note == repo.notes[note] && r.note.content == content && r.note.version == expected + 1
      ensures repo.Tables() == if Commits(old(repo.Tables()), note, actor, expected, title)
                               then AfterUpdate(old(repo.Tables()), note, expected, title, content, mentioned, now) else old(repo.Tables())
      ensures mails == old(mails) + if r.Saved? then
                Outbox(note, MentionMail.Recipients(mentioned, MentionedIn(old(repo.Tables()), note), actor, |mentioned|)) else []
    {
      hide InsertMentions, MentionedIn, MentionMail.Recipients, Outbox;
      if title == "" { return UpdateProtocol.Invalid; }
      var current := Get(note, actor);
      if current.None? { return UpdateProtocol.NotFound; }
      if current.value.1 != Permission.Owner && current.value.1 != Permission.Edit { return UpdateProtocol.Forbidden; }
      var existing := MentionedIn(repo.Tables(), note);
      var outcome := repo.Update(note, title, content, expected, now);
      match outcome {
        case NotFound => r := UpdateProtocol.NotFound;
        case Conflict(n) => r := UpdateProtocol.Result.Conflict(n);
        case Updated(n) =>
          hide Answers;
          InsertMentionsRecords(repo.Tables(), note, mentioned);
          var notified := NotifyMentions(note, actor, existing, mentioned);
          match notified {
            case Sent => r := UpdateProtocol.Saved(n);
            case InsertFailed => r := UpdateProtocol.Failed;
            case NoActor => r := UpdateProtocol.NotFound;
          }
          CommittedAnswers(old(repo.Tables()), note, actor, expected, title, mentioned, r);
      }
    }

    method RequireOwner(note: string, actor: string) returns (r: Outcome)
      ensures r.Ok? <==> note in repo.notes && repo.notes[note].owner == actor
      ensures r.Missing? <==> note !in repo.notes
      ensures r.Ok? || r.Missing? || r.NotOwner?
    {
      var n := repo.GetById(note);
      r := if n.None? then Missing else if n.value.owner != actor then NotOwner else Ok;
    }

    /**
     * The owner gives another user access, and only that user's access changes. Owners cannot share with themselves, so no
     * owner ever has a share row. The user is mailed once the share is stored.
     */
    method ShareWithUser(note: string, actor: string, user: string, permission: Permission) returns (r: Outcome)
      requires Integrity(repo.Tables()) && OwnersUnshared(repo.Tables())
      modifies this`mails, repo
      ensures r.Missing? <==> note !in old(repo.notes)
      ensures r.NotOwner? <==> note in old(repo.notes) && old(repo.notes)[note].owner != actor
      ensures r.SelfShare? <==> note in old(repo.notes) && old(repo.notes)[note].owner == actor == user
      ensures r.UnknownUser? <==> note in old(repo.notes) && old(repo.notes)[note].owner == actor != user && user !in old(repo.users)
      ensures r.Refused? ==> permission == Permission.Owner
      ensures r.Ok? ==> PermissionFor(repo.Tables(), note, user) == Some(permission) && permission != Permission.Owner
      ensures forall n, v :: !(r.Ok? && n == note && v == user) ==> PermissionFor(repo.Tables(), n, v) == PermissionFor(old(repo.Tables()), n, v)
      ensures var db := old(repo.Tables()); repo.Tables() == if r.Ok? then db.(shares := db.shares[(note, user) := permission]) else db
      ensures Integrity(repo.Tables()) && OwnersUnshared(repo.Tables())
      ensures mails == old(mails) + if r.Ok? then [Shared(note, user, permission == Permission.Edit)] else []
    {
      r := RequireOwner(note, actor);
      if !r.Ok? { return; }
      if user == actor { return SelfShare; }
      if user !in repo.users { return UnknownUser; }
      ghost var before := repo.Tables();
      ghost var s := Share(note, user, permission);
      var ok := repo.InsertOrChangeShare(note, user, permission);
      assert repo.Tables() == Execute(before, s);
      StatementsKeepIntegrity(before, s);
      GuardKeepsOwnersUnshared(before, s);
      forall n, v ensures PermissionFor(repo.Tables(), n, v) == if ok && n == note && v == user then Some(permission) else PermissionFor(before, n, v) {
        StatementsDecideAccess(before, s, n, v);
      }
      hide Integrity, OwnersUnshared, Execute, PermissionFor;
      if !ok { return Refused; }
      mails := mails + [Shared(note, user, permission == Permission.Edit)];
    }

    /** The owner takes a share back: that user has no access left, and only that user's access changes. */
    method RevokeShare(note: string, actor: string, user: string) returns (r: Outcome)
      requires Integrity(repo.Tables()) && OwnersUnshared(repo.Tables())
      modifies repo
      ensures r.NotOwner? <==> note in old(repo.notes) && old(repo.notes)[note].owner != actor
      ensures r.Ok? <==> note in old(repo.notes) && old(repo.notes)[note].owner == actor && (note, user) in old(repo.shares)
      ensures r.Ok? || r.NotOwner? || r.Missing?
      ensures r.Ok? ==> PermissionFor(repo.Tables(), note, user) == None
      ensures forall n, v :: !(r.Ok? && n == note && v == user) ==> PermissionFor(repo.Tables(), n, v) == PermissionFor(old(repo.Tables()), n, v)
      ensures var db := old(repo.Tables()); repo.Tables() == if r.Ok? then db.(shares := db.shares - {(note, user)}) else db
    {
      r := RequireOwner(note, actor);
      if !r.Ok? { return; }
      ghost var before := repo.Tables();
      var found := repo.RemoveShare(note, user);
      forall n, v ensures PermissionFor(repo.Tables(), n, v) == if found && n == note && v == user then None else PermissionFor(before, n, v) {
        StatementsDecideAccess(before, Unshare(note, user), n, v);
      }
      if !found { r := Missing; }
    }

    /** Publishing again replaces the token: the old link is dead, and no two notes share one. */
    method CreatePublicShare(note: string, actor: string, token: string) returns (r: Outcome)
      requires Integrity(repo.Tables())
      modifies repo
      ensures r.Missing? <==> note !in old(repo.notes)
      ensures r.NotOwner? <==> note in old(repo.notes) && old(repo.notes)[note].owner != actor
      ensures r.Refused? <==> (note in old(repo.notes) && old(repo.notes)[note].owner == actor
                               && exists n :: n != note && n in old(repo.publicShares) && old(repo.publicShares)[n] == token)
      ensures r.Ok? || r.Missing? || r.NotOwner? || r.Refused?
      ensures var db := old(repo.Tables()); repo.Tables() == if r.Ok? then db.(publicShares := db.publicShares[note := token]) else db
      ensures r.Ok? && note in old(repo.publicShares) && old(repo.publicShares)[note] != token ==>
        forall n :: n in repo.publicShares ==> repo.publicShares[n] != old(repo.publicShares)[note]
      ensures Integrity(repo.Tables())
    {
      r := RequireOwner(note, actor);
      if !r.Ok? { return; }
      StatementsKeepIntegrity(repo.Tables(), Publish(note, token));
      ghost var before := repo.Tables();
      assert forall n :: n in before.publicShares && n != note && note in before.publicShares ==> before.publicShares[n] != before.publicShares[note];
      var ok := repo.CreatePublicShare(note, token);
      assert repo.Tables() == Execute(before, Publish(note, token));
      hide Integrity;
      if !ok { r := Refused; }
    }

    /** Only the link of this note goes. */
    method RevokePublicShare(note: string, actor: string) returns (r: Outcome)
      modifies repo
      ensures r.Ok? <==> note in old(repo.publicShares) && note in old(repo.notes) && old(repo.notes)[note].owner == actor
      ensures r.NotOwner? <==> note in old(repo.notes) && old(repo.notes)[note].owner != actor
      ensures r.Ok? || r.NotOwner? || r.Missing?
      ensures var db := old(repo.Tables()); repo.Tables() == if r.Ok? then db.(publicShares := db.publicShares - {note}) else db
    {
      r := RequireOwner(note, actor);
      if !r.Ok? { return; }
      var found := repo.RemovePublicShare(note);
      if !found { r := Missing; }
    }

    /**
     * Only the owner deletes. Then nothing about the note is stored and nobody has access to it; every other note keeps its
     * row, its link, its shares and its mentions, and everybody the access to it they had.
     */
    method Delete(note: string, actor: string) returns (r: Outcome)
      requires Integrity(repo.Tables())
      modifies repo
      ensures r.Missing? <==> note !in old(repo.notes)
      ensures r.NotOwner? <==> note in old(repo.notes) && old(repo.notes)[note].owner != actor
      ensures r.Ok? || r.Missing? || r.NotOwner?
      ensures Integrity(repo.Tables())
      ensures if r.Ok? then Nothing(repo.Tables(), note) else repo.Tables() == old(repo.Tables())
      ensures repo.users == old(repo.users) && forall n :: n != note ==> SameNote(old(repo.Tables()), repo.Tables(), n)
      ensures forall n, v :: PermissionFor(repo.Tables(), n, v) == if r.Ok? && n == note then None else PermissionFor(old(repo.Tables()), n, v)
    {
      r := RequireOwner(note, actor);
      if !r.Ok? { return; }
      ghost var before := repo.Tables();
      StatementsKeepIntegrity(before, Statement.Delete(note));
      var found := repo.Delete(note);
      forall n, v ensures PermissionFor(repo.Tables(), n, v) == if n == note then None else PermissionFor(before, n, v) {
        StatementsDecideAccess(before, Statement.Delete(note), n, v);
      }
    }
  }

  /** A card of the dashboard; the server is asked between a click and its outcome. */
  class NoteCard {
    var content: string

    constructor (content: string)
      ensures this.content == content
    {
      this.content := content;
    }

    /** The click shows at once; what was shown before is kept for a rollback. */
    method Click(index: int, checked: bool) returns (previous: string)
      modifies this
      ensures previous == old(content) && content == TaskList.SetChecked(old(content), index, checked)
      ensures 0 <= index < TaskList.TaskCount(previous) ==> TaskList.Checkbox(content, index) == Some(checked)
      ensures TaskList.TaskCount(content) == TaskList.TaskCount(previous)
    {
      hide TaskList.SetChecked, TaskList.TaskCount, TaskList.Checkbox;
      previous := content;
      content := TaskList.SetTaskItemChecked(previous, index, checked);
      TaskList.ToggleIsRead(previous, index, checked);
      TaskList.RewritesKeepStructure(previous, index, checked);
    }

    /**
     * Reads the note and saves the toggled body of what was read. The save goes through exactly if the actor may edit the
     * note, its title is not empty and everybody its toggled body mentions is a user; then the card shows what is stored.
     * Otherwise it shows what it showed before; the store is as it was, too, unless only the mentions failed.
     */
    method ToggleTask(service: NoteService, note: string, actor: string, index: int, checked: bool, now: string)
      modifies this, service`mails, service.repo
      ensures var db := old(service.repo.Tables());
        if note in db.notes && Commits(db, note, actor, db.notes[note].version, db.notes[note].title) then
          var body := TaskList.SetChecked(db.notes[note].content, index, checked);
          && content == (if KnowsAll(db, actor, Mentions.Extract(body)) then body else old(content))
          && service.repo.Tables() == AfterUpdate(db, note, db.notes[note].version, db.notes[note].title, body, Mentions.Extract(body), now)
          && note in service.repo.notes && service.repo.notes[note].content == body
          && service.repo.notes[note].version == db.notes[note].version + 1
        else content == old(content) && service.repo.Tables() == db
    {
      hide TaskList.SetChecked, TaskList.TaskCount, TaskList.Checkbox, Mentions.Extract, InsertMentions;
      var previous := Click(index, checked);
      var full := service.Get(note, actor);
      if full.None? {
        content := previous;
        return;
      }
      var row := full.value.0;
      var next := TaskList.SetTaskItemChecked(row.content, index, checked);
      var mentioned := Mentions.ExtractMentionedUserIds(next);
      InsertMentionsRecords(UpdateNote(service.repo.Tables(), note, row.title, next, now, row.version).0, note, mentioned);
      var saved := service.Update(note, actor, row.version, row.title, next, mentioned, now);
      content := if saved.Saved? then saved.note.content else previous;
    }
  }
}
