/** Who gets past the service's checks, over every interleaving: owners, sharees with the right permission, and real titles. */
module Guards {
  import opened Schema
  import opened UpdateProtocol
  import TaskList
  import Mentions

  // ---------------------------------------------------------------- one check at a time

  /** The end of a refused call: nothing but its own stage has changed. */
  predicate EndsWith(w: World, w': World, id: nat, r: Result)
    requires id in w.calls
  {
    w' == w.(calls := w.calls[id := w.calls[id].(stage := Done(r))])
  }

  /** Someone a note is shared with may go on if the share says edit; a read-only share is refused, no share not found. */
  lemma PermitRefusesReaders(w: World, id: nat)
    requires id in w.calls && w.calls[id].stage.Permitting?
    ensures var c, w' := w.calls[id], Advance(w, id, "");
      match SharePermission(w.db, c.note, c.actor)
      case None => EndsWith(w, w', id, NotFound)
      case Some(Read) => EndsWith(w, w', id, Forbidden)
      case Some(_) => w' == w.(calls := w.calls[id := c.(stage := Recalling)])
  {}

  // ---------------------------------------------------------------- over runs

  /** The statement gives the user of a note the right to edit it, or at least to see it. */
  function EditGrants(run: seq<Action>): set<(string, string)> {
    set k | 0 <= k < |run| && run[k].Side? && run[k].statement.Share? && run[k].statement.permission == Edit
      :: (run[k].statement.id, run[k].statement.user)
  }

  function Grants(run: seq<Action>): set<(string, string)> {
    set k | 0 <= k < |run| && run[k].Side? && run[k].statement.Share? :: (run[k].statement.id, run[k].statement.user)
  }

  /** A create of the note by the user is under way or done. */
  predicate Created(w: World, note: string, user: string) {
    exists k :: k in w.calls && w.calls[k].origin.Fresh? && w.calls[k].note == note && w.calls[k].actor == user
  }

  predicate Entitled(w: World, granted: set<(string, string)>, note: string, user: string) {
    Created(w, note, user) || (note, user) in granted
  }

  /** Stages of an update past its permission check, or in which it has changed its note. */
  predicate IsPermitted(c: Call) {
    !c.origin.Fresh? && (c.stage.Recalling? || c.stage.Writing? || c.stage.Rereading? || Committed(c))
  }

  predicate CallGuarded(w: World, edits: set<(string, string)>, views: set<(string, string)>, c: Call) {
    && (IsPermitted(c) ==> Entitled(w, edits, c.note, c.actor))
    && (Submitted(c.stage) && !c.stage.Finding? ==> c.title != "")
    && (c.origin.Toggle? && Submitted(c.stage) ==> Entitled(w, views, c.note, c.actor))
    && (c.stage.Mailing? ==> c.actor in w.db.users)
  }

  ghost predicate GuardsOk(w: World, edits: set<(string, string)>, views: set<(string, string)>) {
    && edits <= views
    && (forall s :: s in w.db.shares ==> s in views && (w.db.shares[s] != Read ==> s in edits))
    && (forall n :: n in w.db.notes ==> Created(w, n, w.db.notes[n].owner))
    && (forall n :: n in w.history ==> w.history[n].first.title != "")
    && (forall n, k :: n in w.history && 0 <= k < |w.history[n].edits| ==>
          w.history[n].edits[k].draft.title != ""
          && w.history[n].edits[k].call in w.calls && Entitled(w, edits, n, w.calls[w.history[n].edits[k].call].actor))
    && (forall id :: id in w.calls ==> CallGuarded(w, edits, views, w.calls[id]))
    && (forall k :: 0 <= k < |w.mails| ==> w.mails[k].call in w.calls && w.calls[w.mails[k].call].actor in w.db.users)
  }

  /** Calls keep who they are from and about, and nobody is deleted. */
  ghost predicate Keeps(w: World, w': World) {
    && w.db.users <= w'.db.users
    && forall k :: k in w.calls ==>
         k in w'.calls && w'.calls[k].origin == w.calls[k].origin && w'.calls[k].note == w.calls[k].note && w'.calls[k].actor == w.calls[k].actor
  }

  lemma EntitledStays(w: World, w': World, g: set<(string, string)>, g': set<(string, string)>, note: string, user: string)
    requires Keeps(w, w') && g <= g'
    ensures Created(w, note, user) ==> Created(w', note, user)
    ensures Entitled(w, g, note, user) ==> Entitled(w', g', note, user)
  {
    if Created(w, note, user) {
      var k :| k in w.calls && w.calls[k].origin.Fresh? && w.calls[k].note == note && w.calls[k].actor == user;
      assert k in w'.calls && w'.calls[k].origin.Fresh?;
    }
  }

  lemma GuardStays(w: World, w': World, e: set<(string, string)>, v: set<(string, string)>, e': set<(string, string)>, v': set<(string, string)>, c: Call)
    requires Keeps(w, w') && e <= e' && v <= v' && CallGuarded(w, e, v, c)
    ensures CallGuarded(w', e', v', c)
  {
    EntitledStays(w, w', e, e', c.note, c.actor);
    EntitledStays(w, w', v, v', c.note, c.actor);
  }

  /** Steps that write no note and send nothing. */
  lemma QuietGuard(w: World, w': World, e: set<(string, string)>, v: set<(string, string)>, id: nat)
    requires GuardsOk(w, e, v) && w'.history == w.history && w'.mails == w.mails && w'.db.shares == w.db.shares
    requires w'.db.notes == w.db.notes && w'.db.users == w.db.users
    requires id in w.calls && id in w'.calls && w'.calls == w.calls[id := w'.calls[id]]
    requires w'.calls[id].origin == w.calls[id].origin && w'.calls[id].note == w.calls[id].note && w'.calls[id].actor == w.calls[id].actor
    requires CallGuarded(w', e, v, w'.calls[id])
    ensures GuardsOk(w', e, v)
  {
    hide CallGuarded, Entitled, Created;
    assert Keeps(w, w');
    forall n | n in w'.db.notes ensures Created(w', n, w'.db.notes[n].owner) { EntitledStays(w, w', e, e, n, w.db.notes[n].owner); }
    forall n, k | n in w'.history && 0 <= k < |w'.history[n].edits|
      ensures w'.history[n].edits[k].call in w'.calls && Entitled(w', e, n, w'.calls[w'.history[n].edits[k].call].actor)
    {
      EntitledStays(w, w', e, e, n, w.calls[w.history[n].edits[k].call].actor);
    }
    forall i | i in w'.calls ensures CallGuarded(w', e, v, w'.calls[i]) {
      if i != id { GuardStays(w, w', e, v, e, v, w.calls[i]); }
    }
  }

  lemma CallIsGuarded(w: World, e: set<(string, string)>, v: set<(string, string)>, id: nat)
    requires GuardsOk(w, e, v) && id in w.calls
    ensures CallGuarded(w, e, v, w.calls[id]) && e <= v
  {}

  lemma OwnerIsCreator(w: World, e: set<(string, string)>, v: set<(string, string)>, note: string)
    requires GuardsOk(w, e, v) && note in w.db.notes
    ensures Created(w, note, w.db.notes[note].owner)
  {}

  lemma ShareIsGranted(w: World, e: set<(string, string)>, v: set<(string, string)>, note: string, user: string)
    requires GuardsOk(w, e, v) && (note, user) in w.db.shares
    ensures (note, user) in v && (w.db.shares[(note, user)] != Read ==> (note, user) in e)
  {}

  lemma SameTables(w: World, w': World, g: set<(string, string)>, note: string, user: string)
    requires Keeps(w, w')
    ensures Entitled(w, g, note, user) ==> Entitled(w', g, note, user)
  {
    EntitledStays(w, w', g, g, note, user);
  }

  /** A toggle goes on to its update if its actor may see the note. */
  lemma SubmitIsGuarded(w: World, e: set<(string, string)>, v: set<(string, string)>, id: nat, row: Note)
    requires GuardsOk(w, e, v) && id in w.calls && w.calls[id].origin.Toggle? && Entitled(w, v, w.calls[id].note, w.calls[id].actor)
    ensures GuardsOk(Submit(w, id, row), e, v)
  {
    hide GuardsOk, Entitled, TaskList.SetChecked, Mentions.Extract;
    var w' := Submit(w, id, row);
    assert Keeps(w, w');
    SameTables(w, w', v, w.calls[id].note, w.calls[id].actor);
    QuietGuard(w, w', e, v, id);
  }

  lemma OpeningIsGuarded(w: World, e: set<(string, string)>, v: set<(string, string)>, id: nat)
    requires GuardsOk(w, e, v) && id in w.calls && w.calls[id].origin.Toggle?
    ensures w.calls[id].stage.Opening? ==> GuardsOk(Open(w, id), e, v)
    ensures w.calls[id].stage.Opened? ==> GuardsOk(OpenShared(w, id, w.calls[id].stage.row), e, v)
  {
    hide GuardsOk, Created, Submit;
    var c := w.calls[id];
    if c.stage.Opening? {
      if c.note in w.db.notes && w.db.notes[c.note].owner == c.actor {
        OwnerIsCreator(w, e, v, c.note);
        SubmitIsGuarded(w, e, v, id, w.db.notes[c.note]);
      } else {
        LaterIsGuarded(w, e, v, id, Open(w, id));
      }
    }
    if c.stage.Opened? {
      if (c.note, c.actor) in w.db.shares {
        ShareIsGranted(w, e, v, c.note, c.actor);
        SubmitIsGuarded(w, e, v, id, c.stage.row);
      } else {
        LaterIsGuarded(w, e, v, id, OpenShared(w, id, c.stage.row));
      }
    }
  }

  lemma FindIsGuarded(w: World, e: set<(string, string)>, v: set<(string, string)>, id: nat)
    requires GuardsOk(w, e, v) && id in w.calls && w.calls[id].stage.Finding?
    ensures GuardsOk(Find(w, id), e, v)
  {
    hide GuardsOk, Created;
    var c := w.calls[id];
    CallIsGuarded(w, e, v, id);
    if c.note in w.db.notes { OwnerIsCreator(w, e, v, c.note); }
    SameTables(w, Find(w, id), e, c.note, c.actor);
    SameTables(w, Find(w, id), v, c.note, c.actor);
    QuietGuard(w, Find(w, id), e, v, id);
  }

  lemma PermitIsGuarded(w: World, e: set<(string, string)>, v: set<(string, string)>, id: nat)
    requires GuardsOk(w, e, v) && id in w.calls && w.calls[id].stage.Permitting?
    ensures GuardsOk(Permit(w, id), e, v)
  {
    hide GuardsOk, Created;
    var c := w.calls[id];
    CallIsGuarded(w, e, v, id);
    if (c.note, c.actor) in w.db.shares { ShareIsGranted(w, e, v, c.note, c.actor); }
    SameTables(w, Permit(w, id), v, c.note, c.actor);
    QuietGuard(w, Permit(w, id), e, v, id);
  }

  /** Later stages keep the permission the call came with. */
  lemma LaterIsGuarded(w: World, e: set<(string, string)>, v: set<(string, string)>, id: nat, w': World)
    requires GuardsOk(w, e, v) && id in w.calls && w'.history == w.history && w'.mails == w.mails && w'.db.shares == w.db.shares
    requires w'.db.notes == w.db.notes && w'.db.users == w.db.users
    requires id in w'.calls && w'.calls == w.calls[id := w'.calls[id]]
    requires var c, c' := w.calls[id], w'.calls[id];
      && c'.origin == c.origin && c'.note == c.note && c'.actor == c.actor && c'.title == c.title
      && (IsPermitted(c') ==> IsPermitted(c)) && (Submitted(c'.stage) ==> Submitted(c.stage) && !c.stage.Finding?)
      && (c'.stage.Mailing? ==> c.actor in w.db.users)
    ensures GuardsOk(w', e, v)
  {
    hide GuardsOk, Entitled;
    CallIsGuarded(w, e, v, id);
    assert Keeps(w, w');
    SameTables(w, w', e, w.calls[id].note, w.calls[id].actor);
    SameTables(w, w', v, w.calls[id].note, w.calls[id].actor);
    QuietGuard(w, w', e, v, id);
  }

  lemma WriteIsGuarded(w: World, e: set<(string, string)>, v: set<(string, string)>, id: nat, now: string)
    requires GuardsOk(w, e, v) && id in w.calls && w.calls[id].stage.Writing? && !w.calls[id].origin.Fresh?
    ensures GuardsOk(Write(w, id, now), e, v)
  {
    hide CallGuarded, Entitled, Created;
    var c, w' := w.calls[id], Write(w, id, now);
    assert Keeps(w, w');
    assert Entitled(w, e, c.note, c.actor) && c.title != "" && CallGuarded(w', e, v, w'.calls[id]) by {
      CallIsGuarded(w, e, v, id);
      WrittenIsGuarded(w, e, v, id, now);
    }
    forall n | n in w'.db.notes ensures Created(w', n, w'.db.notes[n].owner) { EntitledStays(w, w', e, e, n, w.db.notes[n].owner); }
    forall n, k | n in w'.history && 0 <= k < |w'.history[n].edits|
      ensures w'.history[n].edits[k].draft.title != "" && w'.history[n].edits[k].call in w'.calls
      ensures Entitled(w', e, n, w'.calls[w'.history[n].edits[k].call].actor)
    {
      if k < |w.history[n].edits| {
        assert w'.history[n].edits[k] == w.history[n].edits[k];
        EntitledStays(w, w', e, e, n, w.calls[w.history[n].edits[k].call].actor);
      } else {
        EntitledStays(w, w', e, e, c.note, c.actor);
      }
    }
    forall i | i in w'.calls ensures CallGuarded(w', e, v, w'.calls[i]) {
      if i != id { GuardStays(w, w', e, v, e, v, w.calls[i]); }
    }
  }

  lemma WrittenIsGuarded(w: World, e: set<(string, string)>, v: set<(string, string)>, id: nat, now: string)
    requires id in w.calls && w.calls[id].stage.Writing? && !w.calls[id].origin.Fresh? && CallGuarded(w, e, v, w.calls[id])
    ensures Entitled(w, e, w.calls[id].note, w.calls[id].actor) && w.calls[id].title != ""
    ensures CallGuarded(Write(w, id, now), e, v, Write(w, id, now).calls[id])
  {
    hide Entitled;
    var c, w' := w.calls[id], Write(w, id, now);
    assert Keeps(w, w');
    SameTables(w, w', e, c.note, c.actor);
    SameTables(w, w', v, c.note, c.actor);
  }

  lemma CreateIsGuarded(w: World, e: set<(string, string)>, v: set<(string, string)>, id: nat, now: string)
    requires GuardsOk(w, e, v) && id in w.calls && w.calls[id].stage.Inserting? && w.calls[id].origin.Fresh? && w.calls[id].note !in w.history
    ensures GuardsOk(Create(w, id, now), e, v)
  {
    hide GuardsOk;
    var c := w.calls[id];
    if c.title == "" || InsertNote(w.db, c.note, c.actor, c.title, c.content, now).None? {
      LaterIsGuarded(w, e, v, id, Create(w, id, now));
    } else {
      InsertionIsGuarded(w, e, v, id, now);
    }
  }

  /** The effect of an insertion on what the checks rest on. */
  ghost predicate Inserts(w: World, w': World, id: nat)
    requires id in w.calls
  {
    var c := w.calls[id];
    && id in w'.calls && w'.calls == w.calls[id := w'.calls[id]]
    && w'.calls[id].origin == c.origin && w'.calls[id].note == c.note && w'.calls[id].actor == c.actor
    && w'.mails == w.mails && w'.db.shares == w.db.shares && w'.db.users == w.db.users
    && w'.history == w.history[c.note := History(Draft(c.title, c.content), [])]
    && w'.db.notes.Keys <= w.db.notes.Keys + {c.note}
    && (forall n :: n in w'.db.notes && n != c.note ==> w'.db.notes[n] == w.db.notes[n])
    && (c.note in w'.db.notes ==> w'.db.notes[c.note].owner == c.actor)
  }

  lemma CreateInserts(w: World, id: nat, now: string)
    requires id in w.calls && w.calls[id].title != ""
    requires InsertNote(w.db, w.calls[id].note, w.calls[id].actor, w.calls[id].title, w.calls[id].content, now).Some?
    ensures Inserts(w, Create(w, id, now), id)
  {}

  lemma InsertionIsGuarded(w: World, e: set<(string, string)>, v: set<(string, string)>, id: nat, now: string)
    requires GuardsOk(w, e, v) && id in w.calls && w.calls[id].stage.Inserting? && w.calls[id].origin.Fresh? && w.calls[id].note !in w.history
    requires w.calls[id].title != ""
    requires InsertNote(w.db, w.calls[id].note, w.calls[id].actor, w.calls[id].title, w.calls[id].content, now).Some?
    ensures GuardsOk(Create(w, id, now), e, v)
  {
    hide GuardsOk, Create, CallGuarded, Created, Inserts;
    CreateInserts(w, id, now);
    CreatedIsGuarded(w, e, v, id, now);
    InsertedNoteIsGuarded(w, Create(w, id, now), e, v, id);
  }

  lemma InsertedNoteIsGuarded(w: World, w': World, e: set<(string, string)>, v: set<(string, string)>, id: nat)
    requires GuardsOk(w, e, v) && id in w.calls && w.calls[id].origin.Fresh? && w.calls[id].title != "" && w.calls[id].note !in w.history
    requires Inserts(w, w', id) && CallGuarded(w', e, v, w'.calls[id])
    ensures GuardsOk(w', e, v)
  {
    hide CallGuarded, Entitled, Created;
    assert Keeps(w, w');
    CreatorIsKnown(w', id);
    forall n | n in w'.db.notes ensures Created(w', n, w'.db.notes[n].owner) {
      if n != w.calls[id].note { EntitledStays(w, w', e, e, n, w.db.notes[n].owner); }
    }
    forall n, k | n in w'.history && 0 <= k < |w'.history[n].edits|
      ensures w'.history[n].edits[k].call in w'.calls && Entitled(w', e, n, w'.calls[w'.history[n].edits[k].call].actor)
    {
      EntitledStays(w, w', e, e, n, w.calls[w.history[n].edits[k].call].actor);
    }
    forall i | i in w'.calls ensures CallGuarded(w', e, v, w'.calls[i]) {
      if i != id { GuardStays(w, w', e, v, e, v, w.calls[i]); }
    }
  }

  lemma CreatorIsKnown(w: World, id: nat)
    requires id in w.calls && w.calls[id].origin.Fresh?
    ensures Created(w, w.calls[id].note, w.calls[id].actor)
  {}

  lemma CreatedIsGuarded(w: World, e: set<(string, string)>, v: set<(string, string)>, id: nat, now: string)
    requires id in w.calls && w.calls[id].stage.Inserting? && w.calls[id].origin.Fresh?
    ensures CallGuarded(Create(w, id, now), e, v, Create(w, id, now).calls[id])
  {}

  lemma SendIsGuarded(w: World, e: set<(string, string)>, v: set<(string, string)>, id: nat, row: Note, next: nat)
    requires GuardsOk(w, e, v) && id in w.calls && w.calls[id].stage == Mailing(row, next)
    ensures GuardsOk(Send(w, id, row, next), e, v)
  {
    hide GuardsOk;
    CallIsGuarded(w, e, v, id);
    var w' := Send(w, id, row, next);
    var quiet := w'.(mails := w.mails);
    LaterIsGuarded(w, e, v, id, quiet);
    OneMailMore(quiet, w', e, v, id);
  }

  lemma OneMailMore(w: World, w': World, e: set<(string, string)>, v: set<(string, string)>, id: nat)
    requires GuardsOk(w, e, v) && w' == w.(mails := w'.mails) && id in w.calls && w.calls[id].actor in w.db.users
    requires w'.mails == w.mails || (|w'.mails| == |w.mails| + 1 && w'.mails[..|w.mails|] == w.mails && w'.mails[|w.mails|].call == id)
    ensures GuardsOk(w', e, v)
  {
    hide CallGuarded, Entitled, Created;
    assert Keeps(w, w');
    forall n | n in w'.db.notes ensures Created(w', n, w'.db.notes[n].owner) { EntitledStays(w, w', e, e, n, w.db.notes[n].owner); }
    forall n, k | n in w'.history && 0 <= k < |w'.history[n].edits|
      ensures Entitled(w', e, n, w'.calls[w'.history[n].edits[k].call].actor)
    {
      EntitledStays(w, w', e, e, n, w.calls[w.history[n].edits[k].call].actor);
    }
    forall i | i in w'.calls ensures CallGuarded(w', e, v, w'.calls[i]) { GuardStays(w, w', e, v, e, v, w.calls[i]); }
    forall k | 0 <= k < |w'.mails| ensures w'.mails[k].call in w'.calls && w'.calls[w'.mails[k].call].actor in w'.db.users {
      if k < |w.mails| { assert w'.mails[k] == w'.mails[..|w.mails|][k]; }
    }
  }

  // ---------------------------------------------------------------- every step

  function EditGrant(a: Action): set<(string, string)> {
    if a.Side? && a.statement.Share? && a.statement.permission == Permission.Edit then {(a.statement.id, a.statement.user)} else {}
  }

  function Grant(a: Action): set<(string, string)> {
    if a.Side? && a.statement.Share? then {(a.statement.id, a.statement.user)} else {}
  }

  lemma SideIsGuarded(db: Db, s: Statement)
    requires IsSide(s)
    ensures var db' := Execute(db, s);
      && db'.users == db.users
      && (forall n :: n in db'.notes ==> n in db.notes && db'.notes[n] == db.notes[n])
      && (forall p :: p in db'.shares ==>
            (p in db.shares && db'.shares[p] == db.shares[p])
            || (s.Share? && p == (s.id, s.user) && db'.shares[p] == s.permission != Permission.Owner))
  {}

  lemma OthersAreGuarded(w: World, a: Action, e: set<(string, string)>, v: set<(string, string)>)
    requires GuardsOk(w, e, v) && Enabled(w, a) && !a.Step? && !a.Break?
    ensures GuardsOk(Next(w, a), e + EditGrant(a), v + Grant(a))
  {
    hide CallGuarded, Entitled, Created, Execute, Advance;
    var w', e', v' := Next(w, a), e + EditGrant(a), v + Grant(a);
    if a.Side? { SideIsGuarded(w.db, a.statement); }
    assert Keeps(w, w');
    forall n | n in w'.db.notes ensures Created(w', n, w'.db.notes[n].owner) { EntitledStays(w, w', e, e', n, w.db.notes[n].owner); }
    forall n, k | n in w'.history && 0 <= k < |w'.history[n].edits|
      ensures w'.history[n].edits[k].call in w'.calls && Entitled(w', e', n, w'.calls[w'.history[n].edits[k].call].actor)
    {
      EntitledStays(w, w', e, e', n, w.calls[w.history[n].edits[k].call].actor);
    }
    forall i | i in w'.calls ensures CallGuarded(w', e', v', w'.calls[i]) {
      if i in w.calls { GuardStays(w, w', e, v, e', v', w.calls[i]); } else { BegunIsGuarded(w', e', v', a.call); }
    }
  }

  lemma BegunIsGuarded(w: World, e: set<(string, string)>, v: set<(string, string)>, c: Call)
    requires c.stage == First(c.origin)
    ensures CallGuarded(w, e, v, c)
  {}

  /** Every step of any interleaving keeps the checks in force. */
  lemma StepIsGuarded(w: World, a: Action, e: set<(string, string)>, v: set<(string, string)>)
    requires GuardsOk(w, e, v) && VersionsOk(w) && Enabled(w, a)
    ensures GuardsOk(Next(w, a), e + EditGrant(a), v + Grant(a))
  {
    hide GuardsOk, VersionsOk;
    match a {
      case Step(id, now) =>
        CallIsOk(w, id);
        hide CallOk;
        assert e + EditGrant(a) == e && v + Grant(a) == v;
        AdvanceIsGuarded(w, id, now, e, v);
      case Break(id) =>
        assert e + EditGrant(a) == e && v + Grant(a) == v;
        LaterIsGuarded(w, e, v, id, Move(w, id, Done(Broken)));
      case _ => OthersAreGuarded(w, a, e, v);
    }
  }

  lemma AdvanceIsGuarded(w: World, id: nat, now: string, e: set<(string, string)>, v: set<(string, string)>)
    requires GuardsOk(w, e, v) && id in w.calls && CallOk(w, id, w.calls[id])
    ensures GuardsOk(Advance(w, id, now), e, v)
  {
    hide GuardsOk, Open, OpenShared, Find, Permit, Write, Create, Send;
    match w.calls[id].stage {
      case Opening => OpeningIsGuarded(w, e, v, id);
      case Opened(row) => OpeningIsGuarded(w, e, v, id);
      case Finding => FindIsGuarded(w, e, v, id);
      case Permitting => PermitIsGuarded(w, e, v, id);
      case Writing => WriteIsGuarded(w, e, v, id, now);
      case Inserting => CreateIsGuarded(w, e, v, id, now);
      case Mailing(row, next) => SendIsGuarded(w, e, v, id, row, next);
      case Done(_) =>
      case _ => QuietStagesAreGuarded(w, id, now, e, v);
    }
  }

  lemma RecalledIsGuarded(w: World, id: nat, e: set<(string, string)>, v: set<(string, string)>)
    requires GuardsOk(w, e, v) && id in w.calls && w.calls[id].stage.Recalling?
    ensures GuardsOk(Recall(w, id), e, v)
  {
    hide GuardsOk, MentionedIn;
    LaterIsGuarded(w, e, v, id, Recall(w, id));
  }

  lemma RereadIsGuarded(w: World, id: nat, committed: bool, e: set<(string, string)>, v: set<(string, string)>)
    requires GuardsOk(w, e, v) && id in w.calls && w.calls[id].stage == Rereading(committed)
    ensures GuardsOk(Reread(w, id, committed), e, v)
  {
    hide GuardsOk;
    LaterIsGuarded(w, e, v, id, Reread(w, id, committed));
  }

  lemma RecordedIsGuarded(w: World, id: nat, row: Note, next: nat, e: set<(string, string)>, v: set<(string, string)>)
    requires GuardsOk(w, e, v) && id in w.calls && w.calls[id].stage == Recording(row, next)
    ensures GuardsOk(Record(w, id, row, next), e, v)
  {
    hide GuardsOk;
    LaterIsGuarded(w, e, v, id, Record(w, id, row, next));
  }

  lemma QuietStagesAreGuarded(w: World, id: nat, now: string, e: set<(string, string)>, v: set<(string, string)>)
    requires GuardsOk(w, e, v) && id in w.calls
    requires var s := w.calls[id].stage; s.Recalling? || s.Rereading? || s.Recording? || s.Naming?
    ensures GuardsOk(Advance(w, id, now), e, v)
  {
    hide GuardsOk, Recall, Reread, Record;
    match w.calls[id].stage {
      case Recalling => RecalledIsGuarded(w, id, e, v);
      case Rereading(committed) => RereadIsGuarded(w, id, committed, e, v);
      case Recording(row, next) => RecordedIsGuarded(w, id, row, next, e, v);
      case Naming(row) => LaterIsGuarded(w, e, v, id, Name(w, id, row));
      case _ =>
    }
  }

  lemma GrantsOfFirst(run: seq<Action>)
    requires run != []
    ensures EditGrants(run) == EditGrant(run[0]) + EditGrants(run[1..]) && Grants(run) == Grant(run[0]) + Grants(run[1..])
  {
    assert forall k :: 0 < k < |run| ==> run[k] == run[1..][k - 1];
    forall g | g in EditGrants(run) ensures g in EditGrant(run[0]) + EditGrants(run[1..]) {
      var k :| 0 <= k < |run| && run[k].Side? && run[k].statement.Share? && run[k].statement.permission == Permission.Edit
               && g == (run[k].statement.id, run[k].statement.user);
      if k > 0 { assert run[1..][k - 1].Side?; }
    }
    forall g | g in Grants(run) ensures g in Grant(run[0]) + Grants(run[1..]) {
      var k :| 0 <= k < |run| && run[k].Side? && run[k].statement.Share? && g == (run[k].statement.id, run[k].statement.user);
      if k > 0 { assert run[1..][k - 1].Side?; }
    }
    assert run[0].Side? ==> run[0] == run[0];
    forall k | 0 <= k < |run[1..]| ensures run[1..][k] == run[k + 1] {}
  }

  lemma {:induction false} RunIsGuarded(w: World, run: seq<Action>, e: set<(string, string)>, v: set<(string, string)>)
    requires GuardsOk(w, e, v) && VersionsOk(w) && ValidRun(w, run)
    ensures GuardsOk(After(w, run), e + EditGrants(run), v + Grants(run))
    decreases |run|
  {
    hide GuardsOk, VersionsOk, Enabled, Next, EditGrants, Grants, EditGrant, Grant;
    if run == [] {
      NoGrants();
      assert e + EditGrants(run) == e && v + Grants(run) == v;
    } else {
      var e', v' := e + EditGrant(run[0]), v + Grant(run[0]);
      StepKeepsVersions(w, run[0]);
      StepIsGuarded(w, run[0], e, v);
      RunIsGuarded(Next(w, run[0]), run[1..], e', v');
      GrantsOfFirst(run);
      assert e' + EditGrants(run[1..]) == e + EditGrants(run) && v' + Grants(run[1..]) == v + Grants(run);
    }
  }

  lemma NoGrants()
    ensures EditGrants([]) == {} && Grants([]) == {}
  {}

  lemma GuardsInEveryReachableWorld(users: set<string>, run: seq<Action>)
    requires ValidRun(Empty(users), run)
    ensures GuardsOk(After(Empty(users), run), EditGrants(run), Grants(run))
  {
    hide Enabled, Next, EditGrants, Grants;
    RunIsGuarded(Empty(users), run, {}, {});
    assert {} + EditGrants(run) == EditGrants(run) && {} + Grants(run) == Grants(run);
  }

  // ---------------------------------------------------------------- theorems

  /** A note is edited only by users who created it or were given edit permission for it: by nobody with less, ever. */
  lemma OnlyEditorsEdit(users: set<string>, run: seq<Action>, note: string, user: string, k: nat)
    requires ValidRun(Empty(users), run)
    ensures var w := After(Empty(users), run);
      note in w.history && k < |w.history[note].edits| && w.history[note].edits[k].call in w.calls
      && w.calls[w.history[note].edits[k].call].actor == user ==>
        Created(w, note, user) || (note, user) in EditGrants(run)
  {
    hide After, ValidRun, GuardsOk, EditGrants, Grants, Created;
    GuardsInEveryReachableWorld(users, run);
    var w := After(Empty(users), run);
    if note in w.history && k < |w.history[note].edits| { EditIsGuarded(w, EditGrants(run), Grants(run), note, k); }
  }

  lemma EditIsGuarded(w: World, e: set<(string, string)>, v: set<(string, string)>, note: string, k: nat)
    requires GuardsOk(w, e, v) && note in w.history && k < |w.history[note].edits|
    ensures w.history[note].edits[k].draft.title != "" && w.history[note].edits[k].call in w.calls
    ensures Entitled(w, e, note, w.calls[w.history[note].edits[k].call].actor)
  {}

  /** A toggle gets as far as its update only for somebody who created the note or was given a share of it. */
  lemma OnlyViewersToggle(users: set<string>, run: seq<Action>, id: nat)
    requires ValidRun(Empty(users), run)
    ensures var w := After(Empty(users), run);
      id in w.calls && w.calls[id].origin.Toggle? && Submitted(w.calls[id].stage) ==>
        Created(w, w.calls[id].note, w.calls[id].actor) || (w.calls[id].note, w.calls[id].actor) in Grants(run)
  {
    hide After, ValidRun, GuardsOk, EditGrants, Grants, Created;
    GuardsInEveryReachableWorld(users, run);
    var w := After(Empty(users), run);
    if id in w.calls { CallIsGuarded(w, EditGrants(run), Grants(run), id); }
  }

  /** No version of any note ever has an empty title. */
  lemma TitlesAreNeverEmpty(users: set<string>, run: seq<Action>, note: string, version: int)
    requires ValidRun(Empty(users), run)
    ensures var w := After(Empty(users), run);
      note in w.history && 1 <= version <= 1 + |w.history[note].edits| ==> Stored(w.history[note], version).title != ""
  {
    hide After, ValidRun, GuardsOk, EditGrants, Grants;
    GuardsInEveryReachableWorld(users, run);
    var w := After(Empty(users), run);
    if note in w.history && 1 <= version <= 1 + |w.history[note].edits| {
      if version == 1 { FirstIsGuarded(w, EditGrants(run), Grants(run), note); }
      else { EditIsGuarded(w, EditGrants(run), Grants(run), note, version - 2); }
    }
  }

  lemma FirstIsGuarded(w: World, e: set<(string, string)>, v: set<(string, string)>, note: string)
    requires GuardsOk(w, e, v) && note in w.history
    ensures w.history[note].first.title != ""
  {}
}
