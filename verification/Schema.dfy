/** The notes tables and the effect of each SQL statement on them, with the schema's keys, foreign keys and cascades. */
module Schema {
  import opened Text

  datatype Permission = Owner | Edit | Read

  datatype Note = Note(owner: string, title: string, content: string, version: int, updatedAt: string)

  /** Primary keys are map keys; shares and mentions are keyed by (note, user). */
  datatype Db = Db(
    users: set<string>,
    notes: map<string, Note>,
    shares: map<(string, string), Permission>,
    publicShares: map<string, string>,
    mentions: set<(string, string)>)

  /** Foreign keys, the CHECK on note_shares.permission and the UNIQUE public token. */
  predicate Integrity(db: Db) {
    && (forall n | n in db.notes :: db.notes[n].owner in db.users)
    && (forall s | s in db.shares :: s.0 in db.notes && s.1 in db.users && db.shares[s] != Owner)
    && (forall n | n in db.publicShares :: n in db.notes)
    && (forall n, m | n in db.publicShares && m in db.publicShares && n != m :: db.publicShares[n] != db.publicShares[m])
    && (forall m | m in db.mentions :: m.0 in db.notes && m.1 in db.users)
  }

  /** The owner of a note is never among its share rows. */
  predicate OwnersUnshared(db: Db) {
    forall s | s in db.shares :: s.0 in db.notes ==> db.notes[s.0].owner != s.1
  }

  // A statement that violates a constraint changes nothing; None stands for its error.

  function InsertNote(db: Db, id: string, owner: string, title: string, content: string, now: string): Option<Db> {
    if id in db.notes || owner !in db.users then None
    else Some(db.(notes := db.notes[id := Note(owner, title, content, 1, now)]))
  }

  /** UPDATE … WHERE id = ? AND version = ?: the tables and the number of rows changed. */
  function UpdateNote(db: Db, id: string, title: string, content: string, now: string, expected: int): (Db, nat) {
    if id in db.notes && db.notes[id].version == expected
    then (db.(notes := db.notes[id := db.notes[id].(title := title, content := content, version := expected + 1, updatedAt := now)]), 1)
    else (db, 0)
  }

  function DeleteNote(db: Db, id: string): (Db, nat) {
    if id !in db.notes then (db, 0)
    else (db.(notes := db.notes - {id},
              shares := map s | s in db.shares && s.0 != id :: db.shares[s],
              publicShares := db.publicShares - {id},
              mentions := set m | m in db.mentions && m.0 != id), 1)
  }

  function UpsertShare(db: Db, note: string, user: string, permission: Permission): Option<Db> {
    if note !in db.notes || user !in db.users || permission == Owner then None
    else Some(db.(shares := db.shares[(note, user) := permission]))
  }

  function DeleteShare(db: Db, note: string, user: string): (Db, nat) {
    if (note, user) in db.shares then (db.(shares := db.shares - {(note, user)}), 1) else (db, 0)
  }

  function UpsertPublicShare(db: Db, note: string, token: string): Option<Db> {
    if note !in db.notes || (exists n | n in db.publicShares :: n != note && db.publicShares[n] == token) then None
    else Some(db.(publicShares := db.publicShares[note := token]))
  }

  function DeletePublicShare(db: Db, note: string): (Db, nat) {
    if note in db.publicShares then (db.(publicShares := db.publicShares - {note}), 1) else (db, 0)
  }

  /** ON CONFLICT DO NOTHING hides a repeated row, not a missing note or user. */
  function InsertMention(db: Db, note: string, user: string): Option<Db> {
    if note !in db.notes || user !in db.users then None
    else Some(db.(mentions := db.mentions + {(note, user)}))
  }

  function MentionedIn(db: Db, note: string): set<string> {
    set m | m in db.mentions && m.0 == note :: m.1
  }

  /** The statements of add_mentions in order: the tables after the last one run, and whether none failed. */
  function InsertMentions(db: Db, note: string, users: seq<string>): (Db, bool)
    decreases |users|
  {
    if users == [] then (db, true)
    else
      match InsertMention(db, note, users[0])
      case None => (db, false)
      case Some(next) => InsertMentions(next, note, users[1..])
  }

  /** All mentions are recorded and nothing else changes, exactly when the note and every user exist. */
  lemma {:induction false} InsertMentionsRecords(db: Db, note: string, users: seq<string>)
    ensures var (next, ok) := InsertMentions(db, note, users);
      && ok == (users == [] || (note in db.notes && forall u :: u in users ==> u in db.users))
      && next == db.(mentions := next.mentions)
      && db.mentions <= next.mentions
      && (forall m :: m in next.mentions ==> m in db.mentions || (m.0 == note && m.1 in users && m.1 in db.users))
      && (ok ==> forall u :: u in users ==> (note, u) in next.mentions)
    decreases |users|
  {
    if users != [] && InsertMention(db, note, users[0]).Some? {
      InsertMentionsRecords(InsertMention(db, note, users[0]).value, note, users[1..]);
      assert users == [users[0]] + users[1..];
    }
  }

  function SharePermission(db: Db, note: string, user: string): Option<Permission> {
    if (note, user) in db.shares then Some(db.shares[(note, user)]) else None
  }

  /** The permission `get` resolves for a viewer; None is its not-found answer. */
  function PermissionFor(db: Db, note: string, viewer: string): Option<Permission> {
    if note !in db.notes then None
    else if db.notes[note].owner == viewer then Some(Owner)
    else SharePermission(db, note, viewer)
  }

  datatype Statement =
    | Insert(id: string, owner: string, title: string, content: string, now: string)
    | Update(id: string, title: string, content: string, now: string, expected: int)
    | Delete(id: string)
    | Share(id: string, user: string, permission: Permission)
    | Unshare(id: string, user: string)
    | Publish(id: string, token: string)
    | Unpublish(id: string)
    | Mention(id: string, user: string)

  /** A statement run to its end, failed ones without effect. */
  function Execute(db: Db, s: Statement): Db {
    match s
    case Insert(id, owner, title, content, now) => Or(InsertNote(db, id, owner, title, content, now), db)
    case Update(id, title, content, now, expected) => UpdateNote(db, id, title, content, now, expected).0
    case Delete(id) => DeleteNote(db, id).0
    case Share(id, user, permission) => Or(UpsertShare(db, id, user, permission), db)
    case Unshare(id, user) => DeleteShare(db, id, user).0
    case Publish(id, token) => Or(UpsertPublicShare(db, id, token), db)
    case Unpublish(id) => DeletePublicShare(db, id).0
    case Mention(id, user) => Or(InsertMention(db, id, user), db)
  }

  function Or(r: Option<Db>, db: Db): Db {
    match r case None => db case Some(next) => next
  }

  /** Every statement keeps the constraints, never changes an owner and never lowers a version. */
  lemma StatementsKeepIntegrity(db: Db, s: Statement)
    requires Integrity(db)
    ensures Integrity(Execute(db, s))
    ensures forall n :: n in db.notes && n in Execute(db, s).notes ==>
      Execute(db, s).notes[n].owner == db.notes[n].owner && Execute(db, s).notes[n].version >= db.notes[n].version
  {
    if s.Delete? {
      DeleteKeepsIntegrity(db, s.id);
    } else if s.Publish? {
      PublishKeepsIntegrity(db, s.id, s.token);
    }
    hide DeleteNote, UpsertPublicShare;
  }

  lemma DeleteKeepsIntegrity(db: Db, id: string)
    requires Integrity(db)
    ensures Integrity(DeleteNote(db, id).0)
    ensures forall n :: n in DeleteNote(db, id).0.notes ==> n in db.notes && DeleteNote(db, id).0.notes[n] == db.notes[n]
  {}

  lemma PublishKeepsIntegrity(db: Db, id: string, token: string)
    requires Integrity(db)
    ensures Integrity(Or(UpsertPublicShare(db, id, token), db)) && Or(UpsertPublicShare(db, id, token), db).notes == db.notes
  {}

  /** The guard of share_with_user is what keeps owners out of their own share rows. */
  lemma GuardKeepsOwnersUnshared(db: Db, s: Statement)
    requires Integrity(db) && OwnersUnshared(db)
    requires s.Share? ==> s.id in db.notes && db.notes[s.id].owner != s.user
    ensures OwnersUnshared(Execute(db, s))
  {}

  /** The access a statement leaves a viewer with: it decides its own note and user, and changes nobody else's. */
  lemma StatementsDecideAccess(db: Db, s: Statement, note: string, viewer: string)
    requires Integrity(db)
    ensures PermissionFor(Execute(db, s), note, viewer) ==
      var before := PermissionFor(db, note, viewer);
      match s
      case Insert(id, owner, _, _, _) =>
        if id == note && id !in db.notes && owner in db.users then (if owner == viewer then Some(Owner) else None) else before
      case Delete(id) => if id == note then None else before
      case Share(id, user, permission) =>
        if id == note && user == viewer && id in db.notes && user in db.users && permission != Owner && before != Some(Owner)
        then Some(permission) else before
      case Unshare(id, user) => if id == note && user == viewer && before != Some(Owner) then None else before
      case _ => before
  {
    if (note, viewer) in db.shares { assert note in db.notes && db.shares[(note, viewer)] != Owner; }
    hide Integrity;
  }

  /** The row counts the callers decide by: one if the statement has changed its row, else none. */
  lemma RowsAreCounted(db: Db, id: string, title: string, content: string, now: string, expected: int, user: string)
    ensures UpdateNote(db, id, title, content, now, expected).1 == if id in db.notes && db.notes[id].version == expected then 1 else 0
    ensures DeleteNote(db, id).1 == if id in db.notes then 1 else 0
    ensures DeleteShare(db, id, user).1 == if (id, user) in db.shares then 1 else 0
    ensures DeletePublicShare(db, id).1 == if id in db.publicShares then 1 else 0
  {}

  // ---------------------------------------------------------------- what a statement leaves alone

  predicate SameRow(db: Db, next: Db, n: string) {
    (n in next.notes <==> n in db.notes) && (n in db.notes ==> next.notes[n] == db.notes[n])
  }

  predicate SameLink(db: Db, next: Db, n: string) {
    (n in next.publicShares <==> n in db.publicShares) && (n in db.publicShares ==> next.publicShares[n] == db.publicShares[n])
  }

  predicate SameShare(db: Db, next: Db, n: string, user: string) {
    ((n, user) in next.shares <==> (n, user) in db.shares) && ((n, user) in db.shares ==> next.shares[(n, user)] == db.shares[(n, user)])
  }

  predicate SameMention(db: Db, next: Db, n: string, user: string) { (n, user) in next.mentions <==> (n, user) in db.mentions }

  /** Everything stored about note n is the same: its row, its link, its shares, its mentions. */
  ghost predicate SameNote(db: Db, next: Db, n: string) {
    && SameRow(db, next, n) && SameLink(db, next, n)
    && forall user :: SameShare(db, next, n, user) && SameMention(db, next, n, user)
  }

  /** Nothing is stored about note n. */
  ghost predicate Nothing(db: Db, n: string) {
    n !in db.notes && n !in db.publicShares && forall user :: (n, user) !in db.shares && (n, user) !in db.mentions
  }

  /** A statement touches the note it names and no other, and never a user. */
  lemma StatementsStayOnTheirNote(db: Db, s: Statement)
    ensures Execute(db, s).users == db.users
    ensures forall n :: n != s.id ==> SameNote(db, Execute(db, s), n)
  {}

  /** What a statement leaves of the row and the link of its own note. */
  lemma StatementsWriteTheirRow(db: Db, s: Statement)
    ensures var next, n := Execute(db, s), s.id;
      match s
      case Insert(_, owner, title, content, now) =>
        && SameLink(db, next, n)
        && if n in db.notes || owner !in db.users then SameRow(db, next, n)
           else n in next.notes && next.notes[n] == Note(owner, title, content, 1, now)
      case Update(_, title, content, now, expected) =>
        && SameLink(db, next, n)
        && if n !in db.notes || db.notes[n].version != expected then SameRow(db, next, n)
           else n in next.notes && next.notes[n] == Note(db.notes[n].owner, title, content, db.notes[n].version + 1, now)
      case Delete(_) => n !in next.notes && (n in db.notes ==> n !in next.publicShares)
      case Publish(_, token) =>
        && SameRow(db, next, n)
        && if n !in db.notes || (exists m :: m in db.publicShares && m != n && db.publicShares[m] == token) then SameLink(db, next, n)
           else n in next.publicShares && next.publicShares[n] == token
      case Unpublish(_) => SameRow(db, next, n) && n !in next.publicShares
      case _ => SameRow(db, next, n) && SameLink(db, next, n)
  {}

  /** What a statement leaves of the shares and mentions of its own note, user by user. */
  lemma StatementsWriteTheirUser(db: Db, s: Statement, user: string)
    ensures var next, n := Execute(db, s), s.id;
      match s
      case Delete(_) => n in db.notes ==> (n, user) !in next.shares && (n, user) !in next.mentions
      case Share(_, sharee, permission) =>
        && SameMention(db, next, n, user)
        && if user != sharee || n !in db.notes || user !in db.users || permission == Owner then SameShare(db, next, n, user)
           else (n, user) in next.shares && next.shares[(n, user)] == permission
      case Unshare(_, sharee) =>
        SameMention(db, next, n, user) && if user != sharee then SameShare(db, next, n, user) else (n, user) !in next.shares
      case Mention(_, mentioned) =>
        && SameShare(db, next, n, user)
        && if user != mentioned || n !in db.notes || user !in db.users then SameMention(db, next, n, user) else (n, user) in next.mentions
      case _ => SameShare(db, next, n, user) && SameMention(db, next, n, user)
  {}

  /** Nothing about a deleted note is left in the tables, and about every other note everything. */
  lemma DeleteTakesOneNote(db: Db, id: string)
    requires Integrity(db)
    ensures Nothing(Execute(db, Delete(id)), id)
    ensures forall n :: n != id ==> SameNote(db, Execute(db, Delete(id)), n)
  {
    StatementsStayOnTheirNote(db, Delete(id));
    StatementsWriteTheirRow(db, Delete(id));
    forall user ensures (id, user) !in Execute(db, Delete(id)).shares && (id, user) !in Execute(db, Delete(id)).mentions {
      StatementsWriteTheirUser(db, Delete(id), user);
    }
  }

  /** The same, said of the DELETE itself; it needs no constraint if the note was stored. */
  lemma DeletedRowsAreGone(db: Db, id: string)
    ensures id in db.notes ==> Nothing(DeleteNote(db, id).0, id)
    ensures forall n :: n != id ==> SameNote(db, DeleteNote(db, id).0, n)
  {
    StatementsStayOnTheirNote(db, Delete(id));
    hide SameNote;
  }

  // ---------------------------------------------------------------- runs of statements

  /** The tables after the first n statements. */
  function TablesAt(db: Db, run: seq<Statement>, n: nat): Db
    requires n <= |run|
  {
    if n == 0 then db else Execute(TablesAt(db, run, n - 1), run[n - 1])
  }

  /** No id is handed out for a note that is or was stored. */
  ghost predicate FreshIds(db: Db, run: seq<Statement>) {
    forall j, k :: 0 <= j <= k < |run| && run[k].Insert? ==> run[k].id !in TablesAt(db, run, j).notes
  }

  /** The service read the note, and found another owner than the user to share with, before statement k or earlier still. */
  ghost predicate OwnerWasChecked(db: Db, run: seq<Statement>, k: nat)
    requires k < |run| && run[k].Share?
  {
    exists j :: 0 <= j <= k && run[k].id in TablesAt(db, run, j).notes && TablesAt(db, run, j).notes[run[k].id].owner != run[k].user
  }

  /** Owners do not change: a note stored at two moments has the same owner at both. */
  lemma {:induction false} OwnersStay(db: Db, run: seq<Statement>, j: nat, k: nat, id: string)
    requires Integrity(db) && FreshIds(db, run) && j <= k <= |run|
    requires id in TablesAt(db, run, j).notes && id in TablesAt(db, run, k).notes
    ensures TablesAt(db, run, j).notes[id].owner == TablesAt(db, run, k).notes[id].owner
    decreases k - j
  {
    hide Integrity, Execute;
    if j < k {
      var before := TablesAt(db, run, k - 1);
      TablesKeepIntegrity(db, run, k - 1);
      StatementsKeepIntegrity(before, run[k - 1]);
      NotesComeFromInserts(before, run[k - 1], id);
      OwnersStay(db, run, j, k - 1, id);
    }
  }

  lemma NotesComeFromInserts(db: Db, s: Statement, id: string)
    requires id in Execute(db, s).notes
    ensures id in db.notes || (s.Insert? && s.id == id)
  {}

  lemma {:induction false} TablesKeepIntegrity(db: Db, run: seq<Statement>, n: nat)
    requires Integrity(db) && n <= |run|
    ensures Integrity(TablesAt(db, run, n))
  {
    hide Integrity, Execute;
    if n > 0 {
      TablesKeepIntegrity(db, run, n - 1);
      StatementsKeepIntegrity(TablesAt(db, run, n - 1), run[n - 1]);
    }
  }

  /**
   * The constraints hold after any run of statements, and no owner gets a share row of their own note if every share was
   * preceded by the owner check, however long before: by then the note has the same owner or is gone.
   */
  lemma {:induction false} RunsKeepIntegrity(db: Db, run: seq<Statement>, n: nat)
    requires Integrity(db) && OwnersUnshared(db) && FreshIds(db, run) && n <= |run|
    requires forall k :: 0 <= k < n && run[k].Share? ==> OwnerWasChecked(db, run, k)
    ensures Integrity(TablesAt(db, run, n)) && OwnersUnshared(TablesAt(db, run, n))
  {
    hide Integrity, OwnersUnshared, Execute, FreshIds;
    TablesKeepIntegrity(db, run, n);
    if n > 0 {
      RunsKeepIntegrity(db, run, n - 1);
      var before, s := TablesAt(db, run, n - 1), run[n - 1];
      if s.Share? {
        if s.id in before.notes {
          assert OwnerWasChecked(db, run, n - 1);
          var j :| 0 <= j <= n - 1 && s.id in TablesAt(db, run, j).notes && TablesAt(db, run, j).notes[s.id].owner != s.user;
          OwnersStay(db, run, j, n - 1, s.id);
          GuardKeepsOwnersUnshared(before, s);
        } else {
          ShareOfMissingNote(before, s);
        }
      } else {
        GuardKeepsOwnersUnshared(before, s);
      }
    }
  }

  /** The foreign key refuses a share of a note that is gone. */
  lemma ShareOfMissingNote(db: Db, s: Statement)
    requires s.Share? && s.id !in db.notes
    ensures Execute(db, s) == db
  {}
}
