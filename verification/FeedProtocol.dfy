/** The scrolling feed while other actors write: the client's load-more machine against the store, one SQL statement a step. */
module FeedProtocol {
  import opened Text
  import opened Schema
  import opened Paging
  import Timestamps
  import Cursor

  // ---------------------------------------------------------------- the client

  datatype Feed = Feed(items: seq<Summary>, hasMore: bool, loadingNow: bool, cursor: Option<string>, failed: bool)

  const FRESH := Feed([], true, false, None, false)

  /** loadMore up to its await: the new state, and whether a request goes out. */
  function StartLoad(f: Feed): (Feed, bool) {
    if f.loadingNow || !f.hasMore then (f, false) else (f.(loadingNow := true, failed := false), true)
  }

  function Receive(f: Feed, page: Page): Feed {
    Feed(f.items + page.items, page.next.Some?, false, page.next, false)
  }

  function Reject(f: Feed): Feed { f.(loadingNow := false, failed := true) }

  // ---------------------------------------------------------------- the world

  /** A write that has read the clock and not yet reached the database. */
  datatype Write =
    | NewNote(id: string, owner: string, title: string, content: string, stamp: string)
    | EditNote(id: string, expected: int, title: string, content: string, stamp: string)

  /** The request in flight, if any: sent, or answered and on its way back. */
  datatype Wire = Idle | Asked | Answered(page: Page)

  /**
   * `used` holds every id handed out so far. `delivered` counts the pages received; `budget` is the number of notes stored
   * or being created when the first page was last queried.
   */
  datatype World = World(db: Db, clock: int, used: set<string>, pending: map<nat, Write>,
                         feed: Feed, wire: Wire, delivered: nat, budget: nat)

  datatype Action =
    | BeginCreate(op: nat, id: string, owner: string, title: string, content: string, now: int)
    | BeginEdit(op: nat, id: string, expected: int, title: string, content: string, now: int)
    | Commit(op: nat)
    | Abandon(op: nat)
    | Run(statement: Statement)
    | LoadMore
    | Serve
    | Fail
    | Deliver

  datatype Viewer = Viewer(id: string, limit: nat)

  /** Deletes, shares and publications are single statements; inserts and updates of notes go through `pending`. */
  predicate IsSideStatement(s: Statement) { !s.Insert? && !s.Update? }

  predicate GoodClock(w: World, now: int) { w.clock <= now && Timestamps.InRange(now) }

  predicate Enabled(w: World, a: Action) {
    match a
    case BeginCreate(op, id, _, _, _, now) =>
      op !in w.pending && id !in w.used && id != "" && Cursor.IsAscii(id) && GoodClock(w, now)
    case BeginEdit(op, id, expected, _, _, now) =>
      // the permission check has found the note, and clients send only versions they were given
      op !in w.pending && id in w.db.notes && expected <= w.db.notes[id].version && GoodClock(w, now)
    case Commit(op) => op in w.pending
    case Abandon(op) => op in w.pending
    case Run(s) => IsSideStatement(s)
    case LoadMore => true
    case Serve => w.wire == Asked
    case Fail => w.wire != Idle
    case Deliver => w.wire.Answered?
  }

  function Apply(db: Db, p: Write): Db {
    match p
    case NewNote(id, owner, title, content, stamp) => Execute(db, Insert(id, owner, title, content, stamp))
    case EditNote(id, expected, title, content, stamp) => Execute(db, Update(id, title, content, stamp, expected))
  }

  function Next(w: World, v: Viewer, a: Action): World
    requires v.limit >= 1 && Enabled(w, a)
  {
    match a
    case BeginCreate(op, id, owner, title, content, now) =>
      w.(clock := now, used := w.used + {id}, pending := w.pending[op := NewNote(id, owner, title, content, Timestamps.Format(now))])
    case BeginEdit(op, id, expected, title, content, now) =>
      w.(clock := now, pending := w.pending[op := EditNote(id, expected, title, content, Timestamps.Format(now))])
    case Commit(op) => w.(db := Apply(w.db, w.pending[op]), pending := w.pending - {op})
    case Abandon(op) => w.(pending := w.pending - {op})
    case Run(s) => w.(db := Execute(w.db, s))
    case LoadMore =>
      var (feed, sent) := StartLoad(w.feed);
      w.(feed := feed, wire := if sent then Asked else w.wire)
    case Serve =>
      (match ListForViewer(w.db, v.id, w.feed.cursor, v.limit)
       case Ok(page) => w.(wire := Answered(page), budget := if w.feed.cursor.None? then |Remaining(w, None)| else w.budget)
       case _ => w.(wire := Idle, feed := Reject(w.feed)))
    case Fail => w.(wire := Idle, feed := Reject(w.feed))
    case Deliver => w.(wire := Idle, feed := Receive(w.feed, w.wire.page), delivered := w.delivered + 1)
  }

  /** The notes a scroll can still come across: stored or being created, with a key under the bound. */
  function Remaining(w: World, bound: Option<Key>): set<string> {
    (set id | id in w.db.notes && Under(KeyOf(w.db, id), bound))
    + (set op | op in w.pending && w.pending[op].NewNote? && Under(Key(w.pending[op].stamp, w.pending[op].id), bound) :: w.pending[op].id)
  }

  predicate ValidRun(w: World, v: Viewer, run: seq<Action>)
    requires v.limit >= 1
    decreases |run|
  {
    run == [] || (Enabled(w, run[0]) && ValidRun(Next(w, v, run[0]), v, run[1..]))
  }

  function After(w: World, v: Viewer, run: seq<Action>): World
    requires v.limit >= 1 && ValidRun(w, v, run)
    decreases |run|
  {
    if run == [] then w else After(Next(w, v, run[0]), v, run[1..])
  }

  // ---------------------------------------------------------------- the store invariant

  /** A stamp printed no later than the clock. */
  predicate Past(s: string, clock: int) {
    match Timestamps.Parse(s) case None => false case Some(t) => Timestamps.InRange(t) && t <= clock && Timestamps.Format(t) == s
  }

  predicate StoreOk(w: World) {
    && (forall id :: id in w.db.notes ==> id in w.used && id != "" && Cursor.IsAscii(id) && Past(w.db.notes[id].updatedAt, w.clock))
    && (forall op :: op in w.pending ==> PendingOk(w, w.pending[op]))
    && (forall op, op' :: op in w.pending && op' in w.pending && op != op' && w.pending[op].NewNote? ==>
          w.pending[op].id != w.pending[op'].id)
  }

  /** A pending create has a fresh id; a pending edit that can still commit will not lower its note's stamp. */
  predicate PendingOk(w: World, p: Write) {
    && p.id in w.used && p.id != "" && Cursor.IsAscii(p.id) && Past(p.stamp, w.clock)
    && match p
       case NewNote(id, _, _, _, _) => id !in w.db.notes
       case EditNote(id, expected, _, _, stamp) => id in w.db.notes ==>
         expected <= w.db.notes[id].version
         && (expected == w.db.notes[id].version ==> !Less(stamp, w.db.notes[id].updatedAt))
  }

  lemma PastIsGood(s: string, clock: int, later: int)
    requires Past(s, clock) && clock <= later
    ensures GoodStamp(s) && Past(s, later)
  {}

  /** A reading of the clock prints no earlier than any stamp already handed out. */
  lemma NowIsNotBelowThePast(s: string, clock: int, now: int)
    requires Past(s, clock) && clock <= now && Timestamps.InRange(now)
    ensures Past(Timestamps.Format(now), now) && !Less(Timestamps.Format(now), s)
    ensures clock < now ==> Less(s, Timestamps.Format(now))
  {
    hide Timestamps.Format, Timestamps.Parse;
    NowIsPast(now);
    var t := Timestamps.Parse(s).value;
    Timestamps.OrderEmbedding(now, t);
    Timestamps.OrderEmbedding(t, now);
  }

  lemma NowIsPast(now: int)
    requires Timestamps.InRange(now)
    ensures Past(Timestamps.Format(now), now)
  {
    hide Timestamps.Format, Timestamps.Parse;
    Timestamps.RoundTrip(now);
  }

  lemma BeginCreateKeepsStore(w: World, v: Viewer, a: Action)
    requires v.limit >= 1 && a.BeginCreate? && Enabled(w, a) && StoreOk(w)
    ensures StoreOk(Next(w, v, a))
  {
    hide Past, Less, Cursor.IsAscii;
    PastStays(w, a.now);
    NowIsPast(a.now);
  }

  lemma BeginEditKeepsStore(w: World, v: Viewer, a: Action)
    requires v.limit >= 1 && a.BeginEdit? && Enabled(w, a) && StoreOk(w)
    ensures StoreOk(Next(w, v, a))
  {
    hide Past, Less, Cursor.IsAscii;
    PastStays(w, a.now);
    NowIsNotBelowThePast(w.db.notes[a.id].updatedAt, w.clock, a.now);
  }

  /** Every step keeps the store invariant. */
  lemma StepKeepsStore(w: World, v: Viewer, a: Action)
    requires v.limit >= 1 && Enabled(w, a) && StoreOk(w)
    ensures StoreOk(Next(w, v, a)) && w.clock <= Next(w, v, a).clock && w.used <= Next(w, v, a).used
  {
    hide Past, Less, ListForViewer, Remaining, Cursor.IsAscii, Execute, Apply, PendingOk;
    match a {
      case BeginCreate(_, _, _, _, _, _) => BeginCreateKeepsStore(w, v, a);
      case BeginEdit(_, _, _, _, _, _) => BeginEditKeepsStore(w, v, a);
      case Commit(op) => CommitKeepsStore(w, v, op);
      case Run(s) => RunKeepsStore(w, v, s);
      case Abandon(op) => AbandonKeepsStore(w, v, op);
      case _ => assert forall p :: PendingOk(Next(w, v, a), p) == PendingOk(w, p) by { PendingReads(w, Next(w, v, a)); }
    }
  }

  lemma PendingReads(w: World, w': World)
    requires w.db == w'.db && w.used == w'.used && w.clock == w'.clock
    ensures forall p :: PendingOk(w', p) == PendingOk(w, p)
  {}

  lemma AbandonKeepsStore(w: World, v: Viewer, op: nat)
    requires v.limit >= 1 && Enabled(w, Abandon(op)) && StoreOk(w)
    ensures StoreOk(Next(w, v, Abandon(op)))
  {
    hide PendingOk;
    PendingReads(w, Next(w, v, Abandon(op)));
  }

  lemma RunKeepsStore(w: World, v: Viewer, s: Statement)
    requires v.limit >= 1 && Enabled(w, Run(s)) && StoreOk(w)
    ensures StoreOk(Next(w, v, Run(s)))
  {
    hide Past, Less, Cursor.IsAscii, Execute;
    SideStatementsOnlyRemove(w.db, s);
  }

  /** A note that survives a step never gets a lower key, and only a pending create adds a note. */
  lemma StepNeverLowersKeys(w: World, v: Viewer, a: Action)
    requires v.limit >= 1 && Enabled(w, a) && StoreOk(w)
    ensures forall id :: id in w.db.notes && id in Next(w, v, a).db.notes ==> !Below(KeyOf(Next(w, v, a).db, id), KeyOf(w.db, id))
    ensures forall id :: id in Next(w, v, a).db.notes && id !in w.db.notes ==>
      a.Commit? && w.pending[a.op].NewNote? && w.pending[a.op].id == id && KeyOf(Next(w, v, a).db, id) == Key(w.pending[a.op].stamp, id)
  {
    hide Past, Less, ListForViewer, Remaining, Cursor.IsAscii, Execute, Apply;
    LessIsIrreflexive();
    match a {
      case Commit(op) => CommitEffect(w, op);
      case Run(s) => SideStatementsOnlyRemove(w.db, s);
      case _ =>
    }
  }

  lemma LessIsIrreflexive()
    ensures forall s :: !Less(s, s)
  {
    forall s ensures !Less(s, s) { LessTrichotomy(s, s); }
  }

  lemma PastStays(w: World, now: int)
    requires StoreOk(w) && w.clock <= now
    ensures forall id :: id in w.db.notes ==> Past(w.db.notes[id].updatedAt, now)
    ensures forall op :: op in w.pending ==> Past(w.pending[op].stamp, now)
  {}

  lemma SideStatementsOnlyRemove(db: Db, s: Statement)
    requires IsSideStatement(s)
    ensures forall id :: id in Execute(db, s).notes ==> id in db.notes && Execute(db, s).notes[id] == db.notes[id]
  {}

  /** What a commit does to the notes: at most one row changes, and never to a lower key. */
  lemma CommitEffect(w: World, op: nat)
    requires op in w.pending && StoreOk(w)
    ensures var p, db' := w.pending[op], Apply(w.db, w.pending[op]);
      && (forall id :: id != p.id ==> (id in db'.notes <==> id in w.db.notes) && (id in w.db.notes ==> db'.notes[id] == w.db.notes[id]))
      && (p.id in db'.notes ==> db'.notes[p.id].updatedAt == p.stamp || (p.id in w.db.notes && db' == w.db))
      && (p.id in w.db.notes ==> p.id in db'.notes)
      && (p.id in w.db.notes && db' != w.db ==>
            p.EditNote? && db'.notes[p.id].version == w.db.notes[p.id].version + 1 && !Less(p.stamp, w.db.notes[p.id].updatedAt))
      && (p.id !in w.db.notes && p.id in db'.notes ==> p.NewNote?)
  {
    hide Past, Less, Cursor.IsAscii;
  }

  lemma CommitKeepsStore(w: World, v: Viewer, op: nat)
    requires v.limit >= 1 && op in w.pending && StoreOk(w)
    ensures StoreOk(Next(w, v, Commit(op)))
  {
    hide Past, Less, Cursor.IsAscii, Apply;
    CommitEffect(w, op);
    var w' := Next(w, v, Commit(op));
    forall k | k in w'.pending ensures PendingOk(w', w'.pending[k]) {
      assert PendingOk(w, w.pending[k]) && PendingOk(w, w.pending[op]);
    }
  }

  // ---------------------------------------------------------------- the feed invariant

  /** What the client holds or is about to receive. */
  function Loaded(w: World): seq<Summary> {
    w.feed.items + (if w.wire.Answered? then w.wire.page.items else [])
  }

  predicate Distinct(items: seq<Summary>) {
    forall i, j :: 0 <= i < j < |items| ==> items[i].id != items[j].id
  }

  /** A loaded note cannot come back under the key it was loaded with. */
  ghost predicate Tracked(w: World, s: Summary) {
    && s.id in w.used
    && (forall op :: op in w.pending && w.pending[op].NewNote? ==> w.pending[op].id != s.id)
    && (s.id in w.db.notes ==> !Below(KeyOf(w.db, s.id), ItemKey(s)))
  }

  /** A cursor names the last item before it. */
  predicate Names(cursor: Option<string>, items: seq<Summary>) {
    cursor.Some? ==> items != [] && BoundOf(cursor) == Some(Some(LastKey(items)))
  }

  ghost predicate FeedOk(w: World) {
    && Descending(ItemKeys(Loaded(w))) && Distinct(Loaded(w))
    && (forall i :: 0 <= i < |Loaded(w)| ==> Tracked(w, Loaded(w)[i]))
    && Names(w.feed.cursor, w.feed.items)
    && (w.feed.cursor.Some? ==> w.feed.hasMore)
    && (w.feed.cursor.None? && w.feed.hasMore ==> w.feed.items == [])
    && (w.wire.Idle? <==> !w.feed.loadingNow)
    && (!w.wire.Idle? ==> w.feed.hasMore)
    && (w.wire.Answered? ==> Names(w.wire.page.next, w.wire.page.items))
  }

  lemma StepKeepsTracking(w: World, v: Viewer, a: Action, s: Summary)
    requires v.limit >= 1 && Enabled(w, a) && StoreOk(w) && Tracked(w, s)
    ensures Tracked(Next(w, v, a), s)
  {
    StepKeepsStore(w, v, a);
    StepNeverLowersKeys(w, v, a);
    PendingAfter(w, v, a);
    hide Next, Below, Enabled, StoreOk, KeyOf, ItemKey;
    var w' := Next(w, v, a);
    if s.id in w'.db.notes {
      assert s.id in w.db.notes;
      BelowIsStrictTotal(KeyOf(w'.db, s.id), KeyOf(w.db, s.id), ItemKey(s));
      BelowIsStrictTotal(KeyOf(w.db, s.id), KeyOf(w'.db, s.id), ItemKey(s));
      BelowIsStrictTotal(KeyOf(w'.db, s.id), ItemKey(s), KeyOf(w.db, s.id));
    }
  }

  /** A step starts at most one write, with an id never used before. */
  lemma PendingAfter(w: World, v: Viewer, a: Action)
    requires v.limit >= 1 && Enabled(w, a)
    ensures var w' := Next(w, v, a);
      forall op :: op in w'.pending && w'.pending[op].NewNote? ==>
        (op in w.pending && w'.pending[op] == w.pending[op]) || (a.BeginCreate? && a.op == op && w'.pending[op].id !in w.used)
  {
    hide ListForViewer, Remaining, Execute, Apply;
  }

  /** The bound the next request will use. */
  function BoundNow(w: World): Option<Key>
    requires BoundOf(w.feed.cursor).Some?
  {
    BoundOf(w.feed.cursor).value
  }

  /** The server answers the outstanding request with a page, in every reachable state. */
  lemma ServeAnswers(w: World, v: Viewer)
    requires v.limit >= 1 && w.wire == Asked && StoreOk(w) && FeedOk(w)
    ensures BoundOf(w.feed.cursor).Some?
    ensures ListForViewer(w.db, v.id, w.feed.cursor, v.limit).Ok?
    ensures IsPage(w.db, v.id, BoundNow(w), v.limit, ListForViewer(w.db, v.id, w.feed.cursor, v.limit).page)
    ensures w.feed.cursor.None? ==> BoundNow(w) == None
  {
    hide ListForViewer, IsPage, Past, GoodStamp;
    GoodStampsAreGood(w);
    assert BoundOf(w.feed.cursor).Some?;
    QueryAnswersPages(w.db, v.id, w.feed.cursor, v.limit);
  }

  lemma GoodStampsAreGood(w: World)
    requires StoreOk(w)
    ensures GoodRows(w.db)
  {
    hide Timestamps.Parse, Timestamps.Format;
  }

  /** The page the server answers with. */
  function PageServed(w: World, v: Viewer): Page
    requires v.limit >= 1 && w.wire == Asked && ListForViewer(w.db, v.id, w.feed.cursor, v.limit).Ok?
  {
    ListForViewer(w.db, v.id, w.feed.cursor, v.limit).page
  }

  lemma ServeStep(w: World, v: Viewer, a: Action)
    requires v.limit >= 1 && a.Serve? && Enabled(w, a) && ListForViewer(w.db, v.id, w.feed.cursor, v.limit).Ok?
    ensures Next(w, v, a) ==
      w.(wire := Answered(PageServed(w, v)), budget := if w.feed.cursor.None? then |Remaining(w, None)| else w.budget)
  {
    hide ListForViewer, Remaining;
  }

  lemma ServeKeepsFeed(w: World, v: Viewer, a: Action)
    requires v.limit >= 1 && a.Serve? && Enabled(w, a) && StoreOk(w) && FeedOk(w)
    ensures FeedOk(Next(w, v, a))
  {
    hide Next, ListForViewer, IsPage, StoreOk, FeedOk;
    ServeAnswers(w, v);
    ServeStep(w, v, a);
    AnswerKeepsFeed(w, v, PageServed(w, v), Next(w, v, a).budget);
  }

  lemma AnswerKeepsFeed(w: World, v: Viewer, page: Page, budget: nat)
    requires StoreOk(w) && FeedOk(w) && w.wire == Asked && BoundOf(w.feed.cursor).Some?
    requires IsPage(w.db, v.id, BoundNow(w), v.limit, page)
    ensures FeedOk(w.(wire := Answered(page), budget := budget))
  {
    hide Below, Visible, BoundOf, KeyOf, ItemKey, Describes, StoreOk, Descending, Distinct, Holds;
    var w' := w.(wire := Answered(page), budget := budget);
    var n := |w.feed.items|;
    assert Loaded(w) == w.feed.items && Loaded(w') == w.feed.items + page.items;
    PageJoinsFeed(w, v, page);
    forall i | 0 <= i < |Loaded(w')| ensures Tracked(w', Loaded(w')[i]) {
      if i < n { assert Tracked(w, Loaded(w)[i]); } else { PageItemsAreTracked(w, v, page, i - n); }
    }
  }

  lemma PageItemsAreTracked(w: World, v: Viewer, page: Page, i: nat)
    requires StoreOk(w) && BoundOf(w.feed.cursor).Some? && IsPage(w.db, v.id, BoundNow(w), v.limit, page) && i < |page.items|
    ensures Tracked(w, page.items[i])
  {
    hide Below, Visible, BoundOf, Describes, Descending, ItemKey, Holds;
    var s := page.items[i];
    assert Due(w.db, v.id, s.id, BoundNow(w));
    BelowIsStrictTotal(ItemKey(s), ItemKey(s), ItemKey(s));
  }

  /** A page continues the feed: its keys are below every loaded key, and its notes are new. */
  lemma PageJoinsFeed(w: World, v: Viewer, page: Page)
    requires StoreOk(w) && FeedOk(w) && w.wire == Asked && BoundOf(w.feed.cursor).Some?
    requires IsPage(w.db, v.id, BoundNow(w), v.limit, page)
    ensures Descending(ItemKeys(w.feed.items + page.items)) && Distinct(w.feed.items + page.items)
  {
    hide Below, Visible, BoundOf, KeyOf, ItemKey, Describes, Holds, StoreOk;
    var before, added := w.feed.items, page.items;
    assert Loaded(w) == before;
    forall i, j | 0 <= i < |before| && 0 <= j < |added| ensures Below(ItemKey(added[j]), ItemKey(before[i])) && before[i].id != added[j].id {
      assert Due(w.db, v.id, added[j].id, BoundNow(w)) && Tracked(w, before[i]);
      var last := LastKey(before);
      assert Below(ItemKey(added[j]), last);
      assert i < |before| - 1 ==> Below(ItemKeys(before)[|before| - 1], ItemKeys(before)[i]);
      BelowIsStrictTotal(ItemKey(added[j]), last, ItemKey(before[i]));
    }
    PageIsDistinct(w.db, v, BoundNow(w), page);
    JoinDescends(before, added);
  }

  lemma PageIsDistinct(db: Db, v: Viewer, bound: Option<Key>, page: Page)
    requires IsPage(db, v.id, bound, v.limit, page)
    ensures Distinct(page.items)
  {
    hide Below, Visible, BoundOf, ItemKey, Describes, Holds, Under;
    var s := page.items;
    forall i, j | 0 <= i < j < |s| ensures s[i].id != s[j].id {
      assert Below(ItemKeys(s)[j], ItemKeys(s)[i]);
      assert ItemKey(s[i]) == KeyOf(db, s[i].id) && ItemKey(s[j]) == KeyOf(db, s[j].id);
      BelowIsStrictTotal(ItemKey(s[i]), ItemKey(s[j]), ItemKey(s[i]));
    }
  }

  lemma DeliverKeepsFeed(w: World, v: Viewer)
    requires v.limit >= 1 && w.wire.Answered? && FeedOk(w)
    ensures FeedOk(Next(w, v, Deliver)) && Loaded(Next(w, v, Deliver)) == Loaded(w)
  {
    hide Below, BoundOf, KeyOf, ItemKey;
    var w' := Next(w, v, Deliver);
    var page := w.wire.page;
    assert Loaded(w') == Loaded(w);
    assert w'.db == w.db && w'.used == w.used && w'.pending == w.pending;
    assert forall i :: 0 <= i < |Loaded(w)| ==> Tracked(w, Loaded(w)[i]) && Tracked(w', Loaded(w)[i]);
    if page.next.Some? { assert LastKey(w'.feed.items) == LastKey(page.items); }
  }

  lemma DropKeepsFeed(w: World, w': World)
    requires FeedOk(w) && w' == w.(wire := Idle, feed := Reject(w.feed))
    ensures FeedOk(w')
  {
    hide Below, BoundOf, KeyOf, ItemKey;
    var n := |w.feed.items|;
    assert forall i :: 0 <= i < n ==> Loaded(w')[i] == Loaded(w)[i] && Tracked(w, Loaded(w)[i]);
    assert forall i :: 0 <= i < n ==> ItemKeys(Loaded(w'))[i] == ItemKeys(Loaded(w))[i];
    assert Loaded(w') == w.feed.items;
  }

  /** Every step keeps the feed invariant. */
  lemma StepKeepsFeed(w: World, v: Viewer, a: Action)
    requires v.limit >= 1 && Enabled(w, a) && StoreOk(w) && FeedOk(w)
    ensures FeedOk(Next(w, v, a))
  {
    hide Below, BoundOf, KeyOf, ItemKey, ListForViewer, StoreOk, Tracked, Descending;
    var w' := Next(w, v, a);
    match a {
      case Serve => ServeKeepsFeed(w, v, a);
      case Deliver => DeliverKeepsFeed(w, v);
      case Fail => DropKeepsFeed(w, w');
      case _ =>
        assert w'.feed.items == w.feed.items && Loaded(w') == Loaded(w);
        forall i | 0 <= i < |Loaded(w)| ensures Tracked(w', Loaded(w')[i]) {
          StepKeepsTracking(w, v, a, Loaded(w)[i]);
        }
    }
  }

  lemma {:induction false} RunKeepsInvariants(w: World, v: Viewer, run: seq<Action>)
    requires v.limit >= 1 && ValidRun(w, v, run) && StoreOk(w) && FeedOk(w)
    ensures StoreOk(After(w, v, run)) && FeedOk(After(w, v, run))
    decreases |run|
  {
    hide Enabled, Next, StoreOk, FeedOk;
    if run != [] {
      StepKeepsStore(w, v, run[0]);
      StepKeepsFeed(w, v, run[0]);
      RunKeepsInvariants(Next(w, v, run[0]), v, run[1..]);
    }
  }

  /** A viewer opens the feed on any consistent store, with any writes already under way. */
  predicate Opening(w: World) { StoreOk(w) && w.feed == FRESH && w.wire == Idle && w.delivered == 0 }

  lemma OpeningIsOk(w: World)
    requires Opening(w)
    ensures FeedOk(w)
  {}

  /**
   * Over every interleaving of load-more calls, lost requests and other actors' writes, the feed never holds one note
   * twice, and its items stay in strictly descending order of the keys they were loaded with.
   */
  lemma FeedNeverRepeats(w: World, v: Viewer, run: seq<Action>)
    requires v.limit >= 1 && Opening(w) && ValidRun(w, v, run)
    ensures Distinct(After(w, v, run).feed.items) && Descending(ItemKeys(After(w, v, run).feed.items))
  {
    hide StoreOk;
    OpeningIsOk(w);
    RunKeepsInvariants(w, v, run);
    var end := After(w, v, run);
    hide After, Below, ItemKey;
    var items, all := end.feed.items, Loaded(end);
    assert forall i :: 0 <= i < |items| ==> items[i] == all[i] && ItemKeys(items)[i] == ItemKeys(all)[i];
  }
}
