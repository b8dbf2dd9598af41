/** Saving notes while others save: every call of the note service is a program counter over single SQL statements. */
module UpdateProtocol {
  import opened Text
  import opened Schema
  import TaskList
  import Mentions

  // ---------------------------------------------------------------- one call

  /** What a client asked for: a new note, an edit with a body it typed, or a click on a checkbox of a card. */
  datatype Origin = Fresh | Typed | Toggle(index: int, checked: bool)

  /** Failed: a constraint was violated. Broken: the connection or the process died. */
  datatype Result = Saved(note: Note) | Conflict(note: Note) | NotFound | Forbidden | Invalid | Failed | Broken

  datatype Stage =
    | Opening                              // a toggle: fetch the note
    | Opened(row: Note)                    // and the viewer's permission on it
    | Finding                              // update: read the note
    | Permitting                           // read the actor's share
    | Recalling                            // read the recorded mentions
    | Writing                              // the conditional UPDATE
    | Rereading(committed: bool)           // read the note again
    | Inserting                            // create: INSERT the note
    | Recording(note: Note, next: nat)     // insert mention rows
    | Naming(note: Note)                   // read the actor's name
    | Mailing(note: Note, next: nat)       // mail the newly mentioned
    | Done(result: Result)

  /**
   * `known` is the snapshot of recorded mentions, and `since` how many had been recorded when it was taken; `fair` says the
   * client had been given the version it sends.
   */
  datatype Call = Call(origin: Origin, actor: string, note: string, expected: int, title: string, content: string,
                       mentioned: seq<string>, known: set<string>, since: nat, fair: bool, stage: Stage)

  function First(o: Origin): Stage { if o.Fresh? then Inserting else if o.Typed? then Finding else Opening }

  // ---------------------------------------------------------------- the world

  datatype Draft = Draft(title: string, body: string)

  /** A committed edit and what it stored. */
  datatype Revision = Revision(call: nat, origin: Origin, expected: int, draft: Draft)

  /** All that was ever stored as one note, kept when the note is deleted. */
  datatype History = History(first: Draft, edits: seq<Revision>)

  /** The note at a version. */
  function Stored(h: History, version: int): Draft
    requires 1 <= version <= 1 + |h.edits|
  {
    if version == 1 then h.first else h.edits[version - 2].draft
  }

  /** A toggle changes a box of the body and keeps the title. */
  function Ticked(d: Draft, o: Origin): Draft
    requires o.Toggle?
  {
    Draft(d.title, TaskList.SetChecked(d.body, o.index, o.checked))
  }

  datatype Mail = Mail(call: nat, note: string, user: string)

  datatype World = World(db: Db, calls: map<nat, Call>, history: map<string, History>,
                         given: set<(string, int)>, recorded: seq<(string, string)>, mails: seq<Mail>)

  function Empty(users: set<string>): World {
    World(Db(users, map[], map[], map[], {}), map[], map[], {}, [], [])
  }

  datatype Action =
    | Begin(id: nat, call: Call)
    | Step(id: nat, now: string)
    | Break(id: nat)
    | Side(statement: Statement)
    | Register(user: string)
    | Show(note: string)

  /** Deletes, shares and publications; note and mention rows are written by calls only. */
  predicate IsSide(s: Statement) { !s.Insert? && !s.Update? && !s.Mention? }

  predicate Enabled(w: World, a: Action) {
    match a
    case Begin(id, c) =>
      && id !in w.calls && c.stage == First(c.origin) && c.known == {}
      && (c.fair <==> c.origin.Typed? && (c.note, c.expected) in w.given)
      && (c.origin.Fresh? ==> c.note !in w.history && forall k :: k in w.calls && w.calls[k].origin.Fresh? ==> w.calls[k].note != c.note)
    case Step(id, _) => id in w.calls && !w.calls[id].stage.Done?
    case Break(id) => id in w.calls && !w.calls[id].stage.Done?
    case Side(s) => IsSide(s)
    case Register(_) => true
    case Show(note) => note in w.db.notes
  }

  function Put(w: World, id: nat, c: Call): World { w.(calls := w.calls[id := c]) }

  function Move(w: World, id: nat, stage: Stage): World
    requires id in w.calls
  {
    Put(w, id, w.calls[id].(stage := stage))
  }

  /** The call ends with a note in its answer, which tells the client its version. */
  function Answer(w: World, id: nat, result: Result): World
    requires id in w.calls && (result.Saved? || result.Conflict?)
  {
    Move(w, id, Done(result)).(given := w.given + {(w.calls[id].note, result.note.version)})
  }

  /** The update a toggle sends for the note it fetched. */
  function Submission(c: Call, row: Note): Call
    requires c.origin.Toggle?
  {
    var body := TaskList.SetChecked(row.content, c.origin.index, c.origin.checked);
    c.(expected := row.version, title := row.title, content := body, mentioned := Mentions.Extract(body), fair := true, stage := Finding)
  }

  function Submit(w: World, id: nat, row: Note): World
    requires id in w.calls && w.calls[id].origin.Toggle?
  {
    Put(w, id, Submission(w.calls[id], row)).(given := w.given + {(w.calls[id].note, row.version)})
  }

  function Logged(history: map<string, History>, note: string, e: Revision): map<string, History> {
    if note in history then history[note := history[note].(edits := history[note].edits + [e])] else history
  }

  // One function a stage: its statement and what the service does with the answer.

  function Open(w: World, id: nat): World
    requires id in w.calls && w.calls[id].origin.Toggle?
  {
    var c := w.calls[id];
    if c.note !in w.db.notes then Move(w, id, Done(NotFound))
    else if w.db.notes[c.note].owner == c.actor then Submit(w, id, w.db.notes[c.note])
    else Move(w, id, Opened(w.db.notes[c.note]))
  }

  function OpenShared(w: World, id: nat, row: Note): World
    requires id in w.calls && w.calls[id].origin.Toggle?
  {
    if SharePermission(w.db, w.calls[id].note, w.calls[id].actor).None? then Move(w, id, Done(NotFound)) else Submit(w, id, row)
  }

  function Find(w: World, id: nat): World
    requires id in w.calls
  {
    var c := w.calls[id];
    Move(w, id,
      if c.title == "" then Done(Invalid)
      else if c.note !in w.db.notes then Done(NotFound)
      else if w.db.notes[c.note].owner == c.actor then Recalling
      else Permitting)
  }

  function Permit(w: World, id: nat): World
    requires id in w.calls
  {
    Move(w, id,
      match SharePermission(w.db, w.calls[id].note, w.calls[id].actor)
      case None => Done(NotFound)
      case Some(p) => if p == Owner || p == Permission.Edit then Recalling else Done(Forbidden))
  }

  function Recall(w: World, id: nat): World
    requires id in w.calls
  {
    var c := w.calls[id];
    Put(w, id, c.(known := MentionedIn(w.db, c.note), since := |w.recorded|, stage := Writing))
  }

  function Write(w: World, id: nat, now: string): World
    requires id in w.calls
  {
    var c := w.calls[id];
    var (db, affected) := UpdateNote(w.db, c.note, c.title, c.content, now, c.expected);
    Move(w, id, Rereading(affected != 0)).(
      db := db,
      history := if affected == 0 then w.history else Logged(w.history, c.note, Revision(id, c.origin, c.expected, Draft(c.title, c.content))))
  }

  function Reread(w: World, id: nat, committed: bool): World
    requires id in w.calls
  {
    var c := w.calls[id];
    if c.note !in w.db.notes then Move(w, id, Done(NotFound))
    else if !committed then Answer(w, id, Conflict(w.db.notes[c.note]))
    else if c.mentioned == [] then Answer(w, id, Saved(w.db.notes[c.note]))
    else Move(w, id, Recording(w.db.notes[c.note], 0))
  }

  function Create(w: World, id: nat, now: string): World
    requires id in w.calls
  {
    var c := w.calls[id];
    if c.title == "" then Move(w, id, Done(Invalid))
    else
      match InsertNote(w.db, c.note, c.actor, c.title, c.content, now)
      case None => Move(w, id, Done(Failed))
      case Some(db) =>
        var next := w.(db := db, history := w.history[c.note := History(Draft(c.title, c.content), [])],
                       calls := w.calls[id := c.(since := |w.recorded|)]);
        if c.mentioned == [] then Answer(next, id, Saved(db.notes[c.note])) else Move(next, id, Recording(db.notes[c.note], 0))
  }

  function Record(w: World, id: nat, row: Note, next: nat): World
    requires id in w.calls
  {
    var c := w.calls[id];
    if next >= |c.mentioned| then Move(w, id, Naming(row))
    else
      match InsertMention(w.db, c.note, c.mentioned[next])
      case None => Move(w, id, Done(Failed))
      case Some(db) => Move(w, id, Recording(row, next + 1)).(db := db, recorded := w.recorded + [(c.note, c.mentioned[next])])
  }

  function Name(w: World, id: nat, row: Note): World
    requires id in w.calls
  {
    Move(w, id, if w.calls[id].actor in w.db.users then Mailing(row, 0) else Done(NotFound))
  }

  function Send(w: World, id: nat, row: Note, next: nat): World
    requires id in w.calls
  {
    var c := w.calls[id];
    if next >= |c.mentioned| then Answer(w, id, Saved(row))
    else
      var u := c.mentioned[next];
      var w' := Move(w, id, Mailing(row, next + 1));
      if u in c.known || u == c.actor || u !in w.db.users then w' else w'.(mails := w.mails + [Mail(id, c.note, u)])
  }

  function Advance(w: World, id: nat, now: string): World
    requires id in w.calls
  {
    match w.calls[id].stage
    case Opening => if w.calls[id].origin.Toggle? then Open(w, id) else w
    case Opened(row) => if w.calls[id].origin.Toggle? then OpenShared(w, id, row) else w
    case Finding => Find(w, id)
    case Permitting => Permit(w, id)
    case Recalling => Recall(w, id)
    case Writing => Write(w, id, now)
    case Rereading(committed) => Reread(w, id, committed)
    case Inserting => Create(w, id, now)
    case Recording(row, next) => Record(w, id, row, next)
    case Naming(row) => Name(w, id, row)
    case Mailing(row, next) => Send(w, id, row, next)
    case Done(_) => w
  }

  function Next(w: World, a: Action): World
    requires Enabled(w, a)
  {
    match a
    case Begin(id, c) => Put(w, id, c)
    case Step(id, now) => Advance(w, id, now)
    case Break(id) => Move(w, id, Done(Broken))
    case Side(s) => w.(db := Execute(w.db, s))
    case Register(u) => w.(db := w.db.(users := w.db.users + {u}))
    case Show(note) => w.(given := w.given + {(note, w.db.notes[note].version)})
  }

  predicate ValidRun(w: World, run: seq<Action>)
    decreases |run|
  {
    run == [] || (Enabled(w, run[0]) && ValidRun(Next(w, run[0]), run[1..]))
  }

  function After(w: World, run: seq<Action>): World
    requires ValidRun(w, run)
    decreases |run|
  {
    if run == [] then w else After(Next(w, run[0]), run[1..])
  }

  // ---------------------------------------------------------------- the invariant on versions

  predicate Committed(c: Call) {
    c.origin.Fresh? || c.stage == Rereading(true) || c.stage.Recording? || c.stage.Naming? || c.stage.Mailing?
    || (c.stage.Done? && c.stage.result.Saved?)
  }

  /** Stages an update reaches only without having changed its note. */
  predicate Uncommitted(c: Call) {
    c.stage.Opening? || c.stage.Opened? || c.stage.Finding? || c.stage.Permitting? || c.stage.Recalling? || c.stage.Writing?
    || c.stage.Inserting? || c.stage == Rereading(false) || (c.stage.Done? && (c.stage.result.Conflict? || c.stage.result.Forbidden? || c.stage.result.Invalid?))
  }

  predicate Submitted(s: Stage) { s.Finding? || s.Permitting? || s.Recalling? || s.Writing? || s.Rereading? }

  /** The row is a version the note has had. */
  predicate IsVersion(w: World, note: string, row: Note) {
    note in w.history && 1 <= row.version <= 1 + |w.history[note].edits| && Draft(row.title, row.content) == Stored(w.history[note], row.version)
  }

  /** The note is stored at its latest version, or was deleted for good. */
  predicate NoteOk(w: World, note: string) {
    note in w.db.notes ==> IsVersion(w, note, w.db.notes[note]) && w.db.notes[note].version == 1 + |w.history[note].edits|
  }

  predicate EditOk(w: World, note: string, k: nat)
    requires note in w.history && k < |w.history[note].edits|
  {
    var h := w.history[note];
    var e := h.edits[k];
    && e.expected == k + 1
    && (e.origin.Toggle? ==> e.draft == Ticked(Stored(h, k + 1), e.origin))
    && e.call in w.calls && w.calls[e.call].note == note && w.calls[e.call].expected == e.expected && w.calls[e.call].origin == e.origin
    && Draft(w.calls[e.call].title, w.calls[e.call].content) == e.draft
    && !Uncommitted(w.calls[e.call]) && !e.origin.Fresh?
  }

  /** The row a call's answer will hold or holds, if it has read one. */
  function Row(s: Stage): Option<Note> {
    match s
    case Opened(row) => Some(row)
    case Recording(row, _) => Some(row)
    case Naming(row) => Some(row)
    case Mailing(row, _) => Some(row)
    case Done(Saved(row)) => Some(row)
    case Done(Conflict(row)) => Some(row)
    case _ => None
  }

  /** A submitted toggle carries the toggled draft of the version it expects. */
  predicate ToggleOk(w: World, c: Call) {
    c.origin.Toggle? && Submitted(c.stage) ==>
      && c.note in w.history && 1 <= c.expected <= 1 + |w.history[c.note].edits|
      && Draft(c.title, c.content) == Ticked(Stored(w.history[c.note], c.expected), c.origin)
  }

  predicate CallOk(w: World, id: nat, c: Call) {
    && (c.stage.Opening? || c.stage.Opened? ==> c.origin.Toggle?)
    && (c.origin.Fresh? ==> !Submitted(c.stage) && !c.stage.Opening? && !c.stage.Opened?)
    && (c.stage.Inserting? ==> c.origin.Fresh? && !c.fair && c.note !in w.history)
    && ToggleOk(w, c)
    && (Submitted(c.stage) && !c.stage.Finding? ==> c.note in w.history)
    && (c.fair ==> c.note in w.history && c.expected <= 1 + |w.history[c.note].edits|)
    && (c.fair && c.stage == Rereading(false) ==> c.note in w.db.notes ==> c.expected < 1 + |w.history[c.note].edits|)
    && (Row(c.stage).Some? ==> IsVersion(w, c.note, Row(c.stage).value))
    && (c.origin.Fresh? && Row(c.stage).Some? ==> c.note in w.history && w.history[c.note].first == Draft(c.title, c.content))
    && (!c.origin.Fresh? && Committed(c) ==>
          && c.note in w.history && 1 <= c.expected <= |w.history[c.note].edits|
          && w.history[c.note].edits[c.expected - 1].call == id
          && (Row(c.stage).Some? ==> Row(c.stage).value.version > c.expected))
    && (c.fair && c.stage.Done? && c.stage.result.Conflict? ==> c.stage.result.note.version > c.expected)
  }

  ghost predicate VersionsOk(w: World) {
    && (forall note :: note in w.db.notes ==> NoteOk(w, note))
    && (forall note, k: nat :: note in w.history && k < |w.history[note].edits| ==> EditOk(w, note, k))
    && (forall g :: g in w.given ==> g.0 in w.history && g.1 <= 1 + |w.history[g.0].edits|)
    && (forall id :: id in w.calls ==> CallOk(w, id, w.calls[id]))
    && (forall i, j :: i in w.calls && j in w.calls && i != j && w.calls[i].origin.Fresh? && w.calls[j].origin.Fresh? ==> w.calls[i].note != w.calls[j].note)
  }

  // ---------------------------------------------------------------- every step keeps it

  /** Histories only get longer, and a note that is not stored now is stored later only if it never was. */
  ghost predicate Grows(w: World, w': World) {
    && (forall note :: note in w.history ==>
          note in w'.history && w'.history[note].first == w.history[note].first && w.history[note].edits <= w'.history[note].edits)
    && (forall note :: note in w.history && note in w'.db.notes ==> note in w.db.notes)
  }

  lemma BodiesStay(w: World, w': World, note: string, version: int)
    requires Grows(w, w') && note in w.history && 1 <= version <= 1 + |w.history[note].edits|
    ensures note in w'.history && version <= 1 + |w'.history[note].edits|
    ensures Stored(w'.history[note], version) == Stored(w.history[note], version)
  {}

  lemma CallStays(w: World, w': World, id: nat, c: Call)
    requires CallOk(w, id, c) && Grows(w, w') && (c.stage.Inserting? ==> c.note !in w'.history)
    ensures CallOk(w', id, c)
  {
    hide Stored, Ticked;
    if c.note in w.history {
      if ToggleOk(w, c) && c.origin.Toggle? && Submitted(c.stage) { BodiesStay(w, w', c.note, c.expected); }
      if Row(c.stage).Some? { BodiesStay(w, w', c.note, Row(c.stage).value.version); }
    }
  }

  /** A move of a call that may already have written its note. */
  predicate Moves(c: Call, c': Call) {
    && c'.note == c.note && c'.origin == c.origin
    && (!Uncommitted(c) ==> c'.expected == c.expected && c'.title == c.title && c'.content == c.content && !Uncommitted(c'))
  }

  lemma EditStays(w: World, w': World, note: string, k: nat)
    requires note in w.history && k < |w.history[note].edits| && EditOk(w, note, k) && Grows(w, w')
    requires forall id :: id in w.calls ==> id in w'.calls && Moves(w.calls[id], w'.calls[id])
    ensures note in w'.history && k < |w'.history[note].edits| && EditOk(w', note, k)
  {
    hide Uncommitted, Ticked;
    BodiesStay(w, w', note, k + 1);
  }

  /** Steps that write no note: they move one call, at most. */
  lemma QuietStep(w: World, w': World, id: nat)
    requires VersionsOk(w) && w'.history == w.history
    requires forall note :: note in w'.db.notes ==> note in w.db.notes && w'.db.notes[note] == w.db.notes[note]
    requires id in w.calls && id in w'.calls && w'.calls == w.calls[id := w'.calls[id]]
    requires Moves(w.calls[id], w'.calls[id]) && CallOk(w', id, w'.calls[id])
    requires forall g :: g in w'.given && g !in w.given ==> g.0 in w.history && g.1 <= 1 + |w.history[g.0].edits|
    ensures VersionsOk(w')
  {
    hide CallOk, EditOk, Moves, Stored;
    forall note | note in w'.db.notes ensures NoteOk(w', note) { assert NoteOk(w, note); }
    forall note, k: nat | note in w'.history && k < |w'.history[note].edits| ensures EditOk(w', note, k) {
      MovesItself(w);
      EditStays(w, w', note, k);
    }
    forall i | i in w'.calls ensures CallOk(w', i, w'.calls[i]) {
      if i != id {
        InsertingIsNew(w, i);
        CallStays(w, w', i, w.calls[i]);
      }
    }
    assert w'.calls[id].note == w.calls[id].note && w'.calls[id].origin == w.calls[id].origin by { MovesKeepName(w.calls[id], w'.calls[id]); }
  }

  lemma MovesKeepName(c: Call, c': Call)
    requires Moves(c, c')
    ensures c'.note == c.note && c'.origin == c.origin
  {}

  lemma MovesItself(w: World)
    ensures forall id :: id in w.calls ==> Moves(w.calls[id], w.calls[id])
  {}

  lemma InsertingIsNew(w: World, id: nat)
    requires VersionsOk(w) && id in w.calls
    ensures w.calls[id].stage.Inserting? ==> w.calls[id].note !in w.history && w.calls[id].origin.Fresh? && !w.calls[id].fair
  {
    assert CallOk(w, id, w.calls[id]);
  }

  lemma CallIsOk(w: World, id: nat)
    requires VersionsOk(w) && id in w.calls
    ensures CallOk(w, id, w.calls[id])
  {}

  lemma NoteIsOk(w: World, note: string)
    requires VersionsOk(w) && note in w.db.notes
    ensures note in w.history && IsVersion(w, note, w.db.notes[note]) && w.db.notes[note].version == 1 + |w.history[note].edits|
  {
    assert NoteOk(w, note);
  }

  lemma OpenKeeps(w: World, id: nat)
    requires VersionsOk(w) && id in w.calls && w.calls[id].stage.Opening?
    ensures w.calls[id].origin.Toggle? && VersionsOk(Open(w, id))
  {
    hide VersionsOk, Stored, TaskList.SetChecked, Mentions.Extract, EditOk;
    var c := w.calls[id];
    CallIsOk(w, id);
    if c.note in w.db.notes { NoteIsOk(w, c.note); }
    QuietStep(w, Open(w, id), id);
  }

  lemma OpenSharedKeeps(w: World, id: nat, row: Note)
    requires VersionsOk(w) && id in w.calls && w.calls[id].stage == Opened(row)
    ensures w.calls[id].origin.Toggle? && VersionsOk(OpenShared(w, id, row))
  {
    hide VersionsOk, Stored, TaskList.SetChecked, Mentions.Extract, EditOk, NoteOk;
    CallIsOk(w, id);
    QuietStep(w, OpenShared(w, id, row), id);
  }

  lemma LookupsKeep(w: World, id: nat)
    requires VersionsOk(w) && id in w.calls
    ensures w.calls[id].stage.Finding? ==> VersionsOk(Find(w, id))
    ensures w.calls[id].stage.Permitting? ==> VersionsOk(Permit(w, id))
    ensures w.calls[id].stage.Recalling? ==> VersionsOk(Recall(w, id))
  {
    hide VersionsOk, Stored, Ticked, EditOk, NoteOk, MentionedIn, SharePermission, IsVersion;
    CallIsOk(w, id);
    if w.calls[id].note in w.db.notes { NoteIsOk(w, w.calls[id].note); }
    match w.calls[id].stage {
      case Finding => QuietStep(w, Find(w, id), id);
      case Permitting => QuietStep(w, Permit(w, id), id);
      case Recalling => QuietStep(w, Recall(w, id), id);
      case _ =>
    }
  }

  /** The call's answer as a stage keeps the invariant if its row is a good one. */
  lemma MoveKeeps(w: World, id: nat, stage: Stage)
    requires VersionsOk(w) && id in w.calls
    requires CallOk(w, id, w.calls[id].(stage := stage)) && (Uncommitted(w.calls[id].(stage := stage)) ==> Uncommitted(w.calls[id]))
    ensures VersionsOk(Move(w, id, stage))
  {
    hide VersionsOk, Stored, Ticked, EditOk, NoteOk;
    QuietStep(w, Move(w, id, stage), id);
  }

  lemma AnswerKeeps(w: World, id: nat, result: Result)
    requires VersionsOk(w) && id in w.calls && (result.Saved? || result.Conflict?)
    requires CallOk(w, id, w.calls[id].(stage := Done(result)))
    requires Uncommitted(w.calls[id].(stage := Done(result))) ==> Uncommitted(w.calls[id])
    ensures VersionsOk(Answer(w, id, result))
  {
    hide VersionsOk, Stored, Ticked, EditOk, NoteOk;
    QuietStep(w, Answer(w, id, result), id);
  }

  /** Only notes and their histories matter. */
  lemma TablesKeep(w: World, w': World)
    requires VersionsOk(w) && w'.db.notes == w.db.notes && w'.history == w.history && w'.calls == w.calls && w'.given == w.given
    ensures VersionsOk(w')
  {
    hide Stored, Ticked, Uncommitted, Committed, Row;
    forall id | id in w'.calls ensures CallOk(w', id, w'.calls[id]) { assert CallOk(w, id, w.calls[id]); }
    forall note, k: nat | note in w'.history && k < |w'.history[note].edits| ensures EditOk(w', note, k) { assert EditOk(w, note, k); }
    forall note | note in w'.db.notes ensures NoteOk(w', note) { assert NoteOk(w, note); }
  }

  lemma RereadKeeps(w: World, id: nat, committed: bool)
    requires VersionsOk(w) && id in w.calls && w.calls[id].stage == Rereading(committed)
    ensures VersionsOk(Reread(w, id, committed))
  {
    hide VersionsOk, Stored, Ticked;
    var c := w.calls[id];
    CallIsOk(w, id);
    if c.note !in w.db.notes {
      MoveKeeps(w, id, Done(NotFound));
    } else {
      NoteIsOk(w, c.note);
      var row := w.db.notes[c.note];
      if !committed { AnswerKeeps(w, id, Conflict(row)); }
      else if c.mentioned == [] { AnswerKeeps(w, id, Saved(row)); }
      else { MoveKeeps(w, id, Recording(row, 0)); }
    }
  }

  lemma RecordKeeps(w: World, id: nat, row: Note, next: nat)
    requires VersionsOk(w) && id in w.calls && w.calls[id].stage == Recording(row, next)
    ensures VersionsOk(Record(w, id, row, next))
  {
    hide VersionsOk, Stored, Ticked, IsVersion;
    CallIsOk(w, id);
    var c := w.calls[id];
    if next >= |c.mentioned| { MoveKeeps(w, id, Naming(row)); }
    else if InsertMention(w.db, c.note, c.mentioned[next]).None? { MoveKeeps(w, id, Done(Failed)); }
    else {
      MoveKeeps(w, id, Recording(row, next + 1));
      TablesKeep(Move(w, id, Recording(row, next + 1)), Record(w, id, row, next));
    }
  }

  lemma NameKeeps(w: World, id: nat, row: Note)
    requires VersionsOk(w) && id in w.calls && w.calls[id].stage == Naming(row)
    ensures VersionsOk(Name(w, id, row))
  {
    hide VersionsOk, Stored, Ticked, IsVersion;
    CallIsOk(w, id);
    MoveKeeps(w, id, if w.calls[id].actor in w.db.users then Mailing(row, 0) else Done(NotFound));
  }

  lemma SendKeeps(w: World, id: nat, row: Note, next: nat)
    requires VersionsOk(w) && id in w.calls && w.calls[id].stage == Mailing(row, next)
    ensures VersionsOk(Send(w, id, row, next))
  {
    hide VersionsOk, Stored, Ticked, IsVersion;
    CallIsOk(w, id);
    if next >= |w.calls[id].mentioned| { AnswerKeeps(w, id, Saved(row)); }
    else {
      MoveKeeps(w, id, Mailing(row, next + 1));
      TablesKeep(Move(w, id, Mailing(row, next + 1)), Send(w, id, row, next));
    }
  }

  lemma BreakKeeps(w: World, id: nat)
    requires VersionsOk(w) && id in w.calls && !w.calls[id].stage.Done?
    ensures VersionsOk(Move(w, id, Done(Broken)))
  {
    hide VersionsOk, Stored, Ticked, EditOk, NoteOk, IsVersion;
    CallIsOk(w, id);
    QuietStep(w, Move(w, id, Done(Broken)), id);
  }

  /** The conditional UPDATE appends one revision, on top of the version the call expects. */
  lemma WriteKeeps(w: World, id: nat, now: string)
    requires VersionsOk(w) && id in w.calls && w.calls[id].stage.Writing?
    ensures VersionsOk(Write(w, id, now))
  {
    hide VersionsOk, Stored, Ticked, EditOk;
    var c := w.calls[id];
    CallIsOk(w, id);
    if c.note in w.db.notes { NoteIsOk(w, c.note); }
    if c.note in w.db.notes && w.db.notes[c.note].version == c.expected {
      CommitKeeps(w, id, now);
    } else {
      MoveKeeps(w, id, Rereading(false));
    }
  }

  lemma CommitKeeps(w: World, id: nat, now: string)
    requires VersionsOk(w) && id in w.calls && w.calls[id].stage.Writing?
    requires w.calls[id].note in w.db.notes && w.db.notes[w.calls[id].note].version == w.calls[id].expected
    ensures VersionsOk(Write(w, id, now))
  {
    hide Ticked, EditOk, CallOk, NoteOk, Moves;
    var c, w' := w.calls[id], Write(w, id, now);
    NoteIsOk(w, c.note);
    assert Grows(w, w');
    forall note | note in w'.db.notes ensures NoteOk(w', note) {
      if note != c.note { OtherNoteIsKept(w, w', note); } else { CommittedNoteIsOk(w, id, now); }
    }
    forall note, k: nat | note in w'.history && k < |w'.history[note].edits| ensures EditOk(w', note, k) {
      CommitMoves(w, id, now);
      if note in w.history && k < |w.history[note].edits| { EditStays(w, w', note, k); } else { CommittedEditIsOk(w, id, now); }
    }
    forall i | i in w'.calls ensures CallOk(w', i, w'.calls[i]) {
      if i != id {
        InsertingIsNew(w, i);
        CallStays(w, w', i, w.calls[i]);
      } else {
        CommittedCallIsOk(w, id, now);
      }
    }
  }

  lemma CreateGrows(w: World, id: nat, now: string)
    requires id in w.calls && w.calls[id].note !in w.history
    ensures Grows(w, Create(w, id, now))
  {}

  lemma CreateKeepsNotes(w: World, id: nat, now: string)
    requires VersionsOk(w) && id in w.calls && w.calls[id].stage.Inserting? && w.calls[id].title != ""
    requires InsertNote(w.db, w.calls[id].note, w.calls[id].actor, w.calls[id].title, w.calls[id].content, now).Some?
    ensures var w' := Create(w, id, now);
      && (forall note :: note in w'.db.notes ==> NoteOk(w', note))
      && (forall note, k: nat :: note in w'.history && k < |w'.history[note].edits| ==> EditOk(w', note, k))
  {
    hide Ticked, EditOk, CallOk, NoteOk, Moves;
    var c, w' := w.calls[id], Create(w, id, now);
    InsertingIsNew(w, id);
    CreateGrows(w, id, now);
    CreateMoves(w, id, now);
    hide Grows;
    forall note | note in w'.db.notes ensures NoteOk(w', note) {
      if note != c.note { OtherNoteIsKept(w, w', note); } else { CreatedNoteIsOk(w, id, now); }
    }
    forall note, k: nat | note in w'.history && k < |w'.history[note].edits| ensures EditOk(w', note, k) { EditStays(w, w', note, k); }
  }

  lemma CreateCallsAreOk(w: World, id: nat, now: string)
    requires VersionsOk(w) && id in w.calls && w.calls[id].stage.Inserting? && w.calls[id].title != ""
    requires InsertNote(w.db, w.calls[id].note, w.calls[id].actor, w.calls[id].title, w.calls[id].content, now).Some?
    requires Grows(w, Create(w, id, now))
    ensures var w' := Create(w, id, now); forall i :: i in w'.calls ==> CallOk(w', i, w'.calls[i])
  {
    hide Ticked, EditOk, CallOk, NoteOk, Grows;
    var w' := Create(w, id, now);
    InsertingIsNew(w, id);
    forall i | i in w'.calls ensures CallOk(w', i, w'.calls[i]) {
      if i != id {
        InsertingIsNew(w, i);
        CallIsOk(w, i);
        CallStays(w, w', i, w.calls[i]);
      } else {
        CreatedNoteIsOk(w, id, now);
      }
    }
  }

  lemma OtherNoteIsKept(w: World, w': World, note: string)
    requires VersionsOk(w) && note in w.db.notes && note in w'.db.notes && w'.db.notes[note] == w.db.notes[note] && Grows(w, w')
    requires note in w.history ==> note in w'.history && w'.history[note] == w.history[note]
    ensures NoteOk(w', note)
  {
    assert NoteOk(w, note);
  }

  lemma CommittedNoteIsOk(w: World, id: nat, now: string)
    requires VersionsOk(w) && id in w.calls && w.calls[id].stage.Writing?
    requires w.calls[id].note in w.db.notes && w.db.notes[w.calls[id].note].version == w.calls[id].expected
    ensures NoteOk(Write(w, id, now), w.calls[id].note)
  {
    NoteIsOk(w, w.calls[id].note);
    hide VersionsOk;
  }

  lemma CommitMoves(w: World, id: nat, now: string)
    requires id in w.calls && w.calls[id].stage.Writing?
    ensures forall i :: i in w.calls ==> i in Write(w, id, now).calls && Moves(w.calls[i], Write(w, id, now).calls[i])
  {}

  lemma CommittedEditIsOk(w: World, id: nat, now: string)
    requires VersionsOk(w) && id in w.calls && w.calls[id].stage.Writing?
    requires w.calls[id].note in w.db.notes && w.db.notes[w.calls[id].note].version == w.calls[id].expected
    ensures var w', note := Write(w, id, now), w.calls[id].note;
      note in w'.history && note in w.history && |w'.history[note].edits| == |w.history[note].edits| + 1
      && EditOk(w', note, |w.history[note].edits|)
  {
    hide Ticked;
    NoteIsOk(w, w.calls[id].note);
    CallIsOk(w, id);
    hide VersionsOk;
  }

  lemma CommittedCallIsOk(w: World, id: nat, now: string)
    requires VersionsOk(w) && id in w.calls && w.calls[id].stage.Writing?
    requires w.calls[id].note in w.db.notes && w.db.notes[w.calls[id].note].version == w.calls[id].expected
    ensures var w' := Write(w, id, now); CallOk(w', id, w'.calls[id])
  {
    hide Ticked;
    NoteIsOk(w, w.calls[id].note);
    CallIsOk(w, id);
    hide VersionsOk;
    var c, w' := w.calls[id], Write(w, id, now);
    assert Grows(w, w');
    BodiesStay(w, w', c.note, c.expected);
  }

  /** A create starts the history of a note nobody has seen. */
  lemma InsertKeeps(w: World, id: nat, now: string)
    requires VersionsOk(w) && id in w.calls && w.calls[id].stage.Inserting?
    ensures VersionsOk(Create(w, id, now))
  {
    hide Ticked, EditOk, CallOk, NoteOk, VersionsOk;
    var c := w.calls[id];
    CallIsOk(w, id);
    if c.title == "" { InsertingMoves(w, id, Done(Invalid)); }
    else if InsertNote(w.db, c.note, c.actor, c.title, c.content, now).None? { InsertingMoves(w, id, Done(Failed)); }
    else { CreateKeeps(w, id, now); }
  }

  lemma InsertingMoves(w: World, id: nat, stage: Stage)
    requires VersionsOk(w) && id in w.calls && w.calls[id].stage.Inserting? && stage.Done? && (stage.result.Invalid? || stage.result.Failed?)
    ensures VersionsOk(Move(w, id, stage))
  {
    hide VersionsOk, Stored, Ticked, EditOk;
    CallIsOk(w, id);
    MoveKeeps(w, id, stage);
  }

  lemma CreateKeeps(w: World, id: nat, now: string)
    requires VersionsOk(w) && id in w.calls && w.calls[id].stage.Inserting? && w.calls[id].title != ""
    requires InsertNote(w.db, w.calls[id].note, w.calls[id].actor, w.calls[id].title, w.calls[id].content, now).Some?
    ensures VersionsOk(Create(w, id, now))
  {
    hide Ticked, EditOk, CallOk, NoteOk;
    InsertingIsNew(w, id);
    CreateGrows(w, id, now);
    CreateKeepsNotes(w, id, now);
    CreateCallsAreOk(w, id, now);
  }

  lemma CreateMoves(w: World, id: nat, now: string)
    requires id in w.calls && w.calls[id].stage.Inserting?
    ensures forall i :: i in w.calls ==> i in Create(w, id, now).calls && Moves(w.calls[i], Create(w, id, now).calls[i])
  {}

  lemma CreatedNoteIsOk(w: World, id: nat, now: string)
    requires id in w.calls && w.calls[id].stage.Inserting? && w.calls[id].title != "" && w.calls[id].origin.Fresh? && !w.calls[id].fair
    requires InsertNote(w.db, w.calls[id].note, w.calls[id].actor, w.calls[id].title, w.calls[id].content, now).Some?
    ensures var w' := Create(w, id, now); NoteOk(w', w.calls[id].note) && CallOk(w', id, w'.calls[id])
  {
    hide Ticked;
  }

  lemma AdvanceKeeps(w: World, id: nat, now: string)
    requires VersionsOk(w) && id in w.calls && !w.calls[id].stage.Done?
    ensures VersionsOk(Advance(w, id, now))
  {
    hide VersionsOk, Open, OpenShared, Find, Permit, Recall, Write, Reread, Create, Record, Name, Send;
    match w.calls[id].stage {
      case Opening => OpenKeeps(w, id);
      case Opened(row) => OpenSharedKeeps(w, id, row);
      case Finding => LookupsKeep(w, id);
      case Permitting => LookupsKeep(w, id);
      case Recalling => LookupsKeep(w, id);
      case Writing => WriteKeeps(w, id, now);
      case Rereading(committed) => RereadKeeps(w, id, committed);
      case Inserting => InsertKeeps(w, id, now);
      case Recording(row, next) => RecordKeeps(w, id, row, next);
      case Naming(row) => NameKeeps(w, id, row);
      case Mailing(row, next) => SendKeeps(w, id, row, next);
    }
  }

  /** Other actors' statements, a call's start, and a look at a note. */
  lemma OthersKeep(w: World, a: Action)
    requires VersionsOk(w) && Enabled(w, a) && !a.Step? && !a.Break?
    ensures VersionsOk(Next(w, a))
  {
    hide Stored, Ticked, CallOk, EditOk, NoteOk, Execute, Moves, Advance;
    var w' := Next(w, a);
    if a.Side? { SideOnlyRemoves(w.db, a.statement); }
    assert Grows(w, w');
    forall note | note in w'.db.notes ensures NoteOk(w', note) { OtherNoteIsKept(w, w', note); }
    forall note, k: nat | note in w'.history && k < |w'.history[note].edits| ensures EditOk(w', note, k) {
      MovesItself(w);
      EditStays(w, w', note, k);
    }
    forall i | i in w'.calls ensures CallOk(w', i, w'.calls[i]) {
      if i in w.calls {
        InsertingIsNew(w, i);
        CallStays(w, w', i, w.calls[i]);
      } else {
        BegunCallIsOk(w, a);
      }
    }
    if a.Show? { NoteIsOk(w, a.note); }
  }

  lemma SideOnlyRemoves(db: Db, s: Statement)
    requires IsSide(s)
    ensures forall note :: note in Execute(db, s).notes ==> note in db.notes && Execute(db, s).notes[note] == db.notes[note]
  {}

  lemma BegunCallIsOk(w: World, a: Action)
    requires VersionsOk(w) && Enabled(w, a) && a.Begin?
    ensures CallOk(Next(w, a), a.id, a.call)
  {}

  /** Every step, of any call or of anybody else, keeps the invariant. */
  lemma StepKeepsVersions(w: World, a: Action)
    requires VersionsOk(w) && Enabled(w, a)
    ensures VersionsOk(Next(w, a))
  {
    hide VersionsOk, Advance, Move;
    match a {
      case Step(id, now) => AdvanceKeeps(w, id, now);
      case Break(id) => BreakKeeps(w, id);
      case _ => OthersKeep(w, a);
    }
  }
}
