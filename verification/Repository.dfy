/** The note repository over its tables, one method a statement group. */
module Repository {
  import opened Text
  import opened Schema
  import opened Paging

  datatype UpdateOutcome = Updated(note: Note) | Conflict(note: Note) | NotFound

  class NoteRepository {
    var users: set<string>
    var notes: map<string, Note>
    var shares: map<(string, string), Permission>
    var publicShares: map<string, string>
    var mentions: set<(string, string)>

    function Tables(): Db
      reads this
    {
      Db(users, notes, shares, publicShares, mentions)
    }

    constructor (users: set<string>)
      ensures Tables() == Db(users, map[], map[], map[], {}) && Integrity(Tables()) && OwnersUnshared(Tables())
    {
      this.users := users;
      notes, shares, publicShares, mentions := map[], map[], map[], {};
    }

    method Create(id: string, owner: string, title: string, content: string, now: string) returns (created: bool)
      modifies this
      ensures Tables() == Or(InsertNote(old(Tables()), id, owner, title, content, now), old(Tables()))
      ensures created <==> id !in old(notes) && owner in users
      ensures created ==> notes[id].version == 1
    {
      created := id !in notes && owner in users;
      if created {
        notes := notes[id := Note(owner, title, content, 1, now)];
      }
    }

    method GetById(id: string) returns (r: Option<Note>)
      ensures r == if id in notes then Some(notes[id]) else None
    {
      if id in notes { r := Some(notes[id]); } else { r := None; }
    }

    /** An edit commits exactly when the stored version is the expected one; not-found takes precedence over conflict. */
    method Update(id: string, title: string, content: string, expected: int, now: string) returns (r: UpdateOutcome)
      modifies this
      ensures Tables() == UpdateNote(old(Tables()), id, title, content, now, expected).0
      ensures r.NotFound? <==> id !in old(notes)
      ensures r.Updated? <==> id in old(notes) && old(notes)[id].version == expected
      ensures r.Updated? ==> r.note == notes[id] && r.note.version == expected + 1 && r.note.content == content
      ensures r.Conflict? ==> r.note == old(notes)[id] && r.note.version != expected && Tables() == old(Tables())
    {
      var affected := 0;
      if id in notes && notes[id].version == expected {
        var n := notes[id];
        notes := notes[id := n.(title := title, content := content, version := n.version + 1, updatedAt := now)];
        affected := 1;
      }
      var current := GetById(id);
      match current {
        case None => r := NotFound;
        case Some(n) => r := if affected == 0 then Conflict(n) else Updated(n);
      }
    }

    /** Deleting a note takes its shares, public link and mentions with it, and nothing of any other note. */
    method Delete(id: string) returns (found: bool)
      modifies this
      ensures Tables() == DeleteNote(old(Tables()), id).0
      ensures found <==> id in old(notes)
      ensures found ==> Nothing(Tables(), id)
      ensures users == old(users) && forall n :: n != id ==> SameNote(old(Tables()), Tables(), n)
    {
      hide SameNote, Nothing;
      DeletedRowsAreGone(Tables(), id);
      found := id in notes;
      if found {
        notes := notes - {id};
        shares := map s | s in shares && s.0 != id :: shares[s];
        publicShares := publicShares - {id};
        mentions := set m | m in mentions && m.0 != id;
      }
    }

    method GetSharePermission(note: string, user: string) returns (r: Option<Permission>)
      ensures r == SharePermission(Tables(), note, user)
    {
      if (note, user) in shares { r := Some(shares[(note, user)]); } else { r := None; }
    }

    method InsertOrChangeShare(note: string, user: string, permission: Permission) returns (ok: bool)
      modifies this
      ensures Tables() == Or(UpsertShare(old(Tables()), note, user, permission), old(Tables()))
      ensures ok <==> UpsertShare(old(Tables()), note, user, permission).Some?
      ensures ok ==> SharePermission(Tables(), note, user) == Some(permission)
    {
      ok := note in notes && user in users && permission != Owner;
      if ok { shares := shares[(note, user) := permission]; }
    }

    method RemoveShare(note: string, user: string) returns (found: bool)
      modifies this
      ensures (Tables(), if found then 1 else 0) == DeleteShare(old(Tables()), note, user)
    {
      found := (note, user) in shares;
      if found { shares := shares - {(note, user)}; }
    }

    method CreatePublicShare(note: string, token: string) returns (ok: bool)
      modifies this
      ensures Tables() == Or(UpsertPublicShare(old(Tables()), note, token), old(Tables()))
      ensures ok <==> UpsertPublicShare(old(Tables()), note, token).Some?
      ensures ok ==> note in publicShares && publicShares[note] == token
    {
      ok := note in notes && !(exists n | n in publicShares :: n != note && publicShares[n] == token);
      if ok { publicShares := publicShares[note := token]; }
    }

    method RemovePublicShare(note: string) returns (found: bool)
      modifies this
      ensures (Tables(), if found then 1 else 0) == DeletePublicShare(old(Tables()), note)
    {
      found := note in publicShares;
      if found { publicShares := publicShares - {note}; }
    }

    /** Inserts stop at the first unknown user, keeping the rows already inserted. */
    method AddMentions(note: string, userIds: seq<string>) returns (ok: bool)
      modifies this
      ensures (Tables(), ok) == InsertMentions(old(Tables()), note, userIds)
    {
      for i := 0 to |userIds|
        invariant InsertMentions(old(Tables()), note, userIds) == InsertMentions(Tables(), note, userIds[i..])
      {
        ghost var before := Tables();
        assert userIds[i..][0] == userIds[i] && userIds[i..][1..] == userIds[i + 1..];
        if note !in notes || userIds[i] !in users { return false; }
        mentions := mentions + {(note, userIds[i])};
        assert InsertMention(before, note, userIds[i]) == Some(Tables());
        MentionsStep(before, note, userIds[i..], Tables());
      }
      ok := true;
    }

    /** A page is the query's answer: rows under the cursor, mapped in order, cut at the limit. */
    method ListPage(viewer: string, cursor: Option<string>, limit: nat) returns (a: Answer)
      requires limit >= 1
      ensures a == ListForViewer(Tables(), viewer, cursor, limit)
    {
      hide Newest, Selected, MapRow, BoundOf, Visible, Cut;
      var db := Tables();
      var bound := BoundOf(cursor);
      if bound.None? { return BadCursor; }
      RowsAreVisible(db, viewer, bound.value, limit + 1);
      var ks := Newest(Selected(db, viewer, bound.value), limit + 1);
      var rows := [];
      for i := 0 to |ks|
        invariant MapRows(db, viewer, ks[..i]) == Some(rows)
      {
        assert ks[..i + 1] == ks[..i] + [ks[i]];
        MapRowsAppend(db, viewer, ks[..i], [ks[i]]);
        MapRowsOne(db, viewer, ks[i]);
        var row := MapRow(db, viewer, ks[i]);
        if row.None? {
          MapRowsAppend(db, viewer, ks[..i + 1], ks[i + 1..]);
          assert ks == ks[..i + 1] + ks[i + 1..];
          return BadRow;
        }
        rows := rows + [row.value];
      }
      assert ks[..|ks|] == ks;
      a := Cut(rows, limit);
    }
  }

  lemma MentionsStep(db: Db, note: string, users: seq<string>, next: Db)
    requires users != [] && InsertMention(db, note, users[0]) == Some(next)
    ensures InsertMentions(db, note, users) == InsertMentions(next, note, users[1..])
  {}

  lemma MapRowsOne(db: Db, viewer: string, k: Key)
    requires k.id in db.notes && Visible(db, viewer, k.id)
    ensures MapRows(db, viewer, [k]) == if MapRow(db, viewer, k).Some? then Some([MapRow(db, viewer, k).value]) else None
  {
    hide MapRow, Visible;
    var rest: seq<Key> := [];
    assert [k][1..] == rest && MapRows(db, viewer, rest) == Some([]);
    if MapRow(db, viewer, k).Some? { assert [MapRow(db, viewer, k).value] + [] == [MapRow(db, viewer, k).value]; }
  }

  lemma {:induction false} MapRowsAppend(db: Db, viewer: string, a: seq<Key>, b: seq<Key>)
    requires forall k :: k in a + b ==> k.id in db.notes && Visible(db, viewer, k.id)
    requires forall k :: k in a || k in b ==> k.id in db.notes && Visible(db, viewer, k.id)
    ensures MapRows(db, viewer, a + b) ==
      if MapRows(db, viewer, a).Some? && MapRows(db, viewer, b).Some?
      then Some(MapRows(db, viewer, a).value + MapRows(db, viewer, b).value) else None
    decreases |a|
  {
    hide MapRow, Visible;
    if a == [] {
      assert a + b == b;
      if MapRows(db, viewer, b).Some? { assert [] + MapRows(db, viewer, b).value == MapRows(db, viewer, b).value; }
    } else {
      assert (a + b)[1..] == a[1..] + b && (a + b)[0] == a[0];
      MapRowsAppend(db, viewer, a[1..], b);
      var x, y, z := MapRow(db, viewer, a[0]), MapRows(db, viewer, a[1..]), MapRows(db, viewer, b);
      if x.Some? && y.Some? && z.Some? {
        assert [x.value] + (y.value + z.value) == ([x.value] + y.value) + z.value;
      }
    }
  }
}
