/** What a whole scroll delivers: every note that stays put exactly once, in a bounded number of pages. */
module FeedTheorems {
  import opened Text
  import opened Schema
  import opened Paging
  import opened FeedProtocol
  import Cursor
  import Timestamps

  // ---------------------------------------------------------------- nothing is skipped

  ghost predicate Has(items: seq<Summary>, id: string, k: Key) {
    exists i :: 0 <= i < |items| && items[i].id == id && ItemKey(items[i]) == k
  }

  /** The note is visible to the viewer, unedited under key k. */
  predicate Shows(w: World, v: Viewer, id: string, k: Key) {
    id in w.db.notes && Visible(w.db, v.id, id) && KeyOf(w.db, id) == k
  }

  /** The note shows whenever the server answers a page request; in between it may come and go. */
  predicate ShowsAtRequests(w: World, v: Viewer, run: seq<Action>, id: string, k: Key)
    requires v.limit >= 1 && ValidRun(w, v, run)
    decreases |run|
  {
    run == [] || ((run[0].Serve? ==> Shows(w, v, id, k)) && ShowsAtRequests(Next(w, v, run[0]), v, run[1..], id, k))
  }

  /** Everything at or above the cursor has been loaded. */
  ghost predicate Covered(w: World, id: string, k: Key) {
    && (w.feed.cursor.Some? && w.feed.items != [] && !Below(k, LastKey(w.feed.items)) ==> Has(w.feed.items, id, k))
    && (!w.feed.hasMore ==> Has(w.feed.items, id, k))
    && (w.wire.Answered? && w.wire.page.next.None? ==> Has(Loaded(w), id, k))
    && (w.wire.Answered? && w.wire.page.items != [] && !Below(k, LastKey(w.wire.page.items)) ==> Has(Loaded(w), id, k))
  }

  lemma HasInPage(items: seq<Summary>, page: seq<Summary>, id: string, k: Key)
    requires k.id == id && Holds(page, k)
    ensures Has(items + page, id, k)
  {
    var i :| 0 <= i < |page| && ItemKey(page[i]) == k;
    assert (items + page)[|items| + i] == page[i];
  }

  lemma HasStays(items: seq<Summary>, page: seq<Summary>, id: string, k: Key)
    requires Has(items, id, k)
    ensures Has(items + page, id, k)
  {
    hide ItemKey;
    var i :| 0 <= i < |items| && items[i].id == id && ItemKey(items[i]) == k;
    assert (items + page)[i] == items[i];
  }

  lemma AnswerCovers(w: World, v: Viewer, page: Page, budget: nat, id: string, k: Key)
    requires FeedOk(w) && w.wire == Asked && Covered(w, id, k) && Shows(w, v, id, k)
    requires BoundOf(w.feed.cursor).Some? && IsPage(w.db, v.id, BoundNow(w), v.limit, page)
    requires w.feed.cursor.None? ==> BoundNow(w) == None
    ensures Covered(w.(wire := Answered(page), budget := budget), id, k)
  {
    hide Below, BoundOf, ItemKey, Visible, Describes, Descending, Distinct, Tracked, Has, Holds;
    if Under(k, BoundNow(w)) {
      assert Due(w.db, v.id, id, BoundNow(w)) && k.id == id;
      if Holds(page.items, k) { HasInPage(w.feed.items, page.items, id, k); }
    } else {
      HasStays(w.feed.items, page.items, id, k);
    }
  }

  lemma StepKeepsCovered(w: World, v: Viewer, a: Action, id: string, k: Key)
    requires v.limit >= 1 && Enabled(w, a) && StoreOk(w) && FeedOk(w) && Covered(w, id, k)
    requires a.Serve? ==> Shows(w, v, id, k)
    ensures Covered(Next(w, v, a), id, k)
  {
    hide ListForViewer, IsPage, StoreOk, Covered, Shows;
    if a.Serve? {
      hide Next, FeedOk;
      ServeAnswers(w, v);
      ServeStep(w, v, a);
      AnswerCovers(w, v, PageServed(w, v), Next(w, v, a).budget, id, k);
    } else if a.Deliver? {
      DeliverKeepsCovered(w, v, a, id, k);
    } else {
      OthersKeepCovered(w, v, a, id, k);
    }
  }

  lemma DeliverKeepsCovered(w: World, v: Viewer, a: Action, id: string, k: Key)
    requires v.limit >= 1 && a.Deliver? && Enabled(w, a) && FeedOk(w) && Covered(w, id, k)
    ensures Covered(Next(w, v, a), id, k)
  {
    hide Below, BoundOf, ItemKey, ListForViewer, Has, KeyOf, Tracked, Descending;
    var w' := Next(w, v, a);
    var page := w.wire.page;
    assert w'.feed.items == Loaded(w);
    if page.items != [] { assert LastKey(w'.feed.items) == LastKey(page.items); }
  }

  lemma OthersKeepCovered(w: World, v: Viewer, a: Action, id: string, k: Key)
    requires v.limit >= 1 && !a.Deliver? && !a.Serve? && Enabled(w, a) && Covered(w, id, k)
    ensures Covered(Next(w, v, a), id, k)
  {
    hide Below, BoundOf, ItemKey, ListForViewer, Has, Execute, Apply, Timestamps.Format;
    var w' := Next(w, v, a);
    assert w'.feed.items == w.feed.items && w'.feed.cursor == w.feed.cursor && w'.feed.hasMore == w.feed.hasMore;
    assert w'.wire.Answered? ==> w'.wire == w.wire && Loaded(w') == Loaded(w);
  }

  lemma {:induction false} RunKeepsCovered(w: World, v: Viewer, run: seq<Action>, id: string, k: Key)
    requires v.limit >= 1 && ValidRun(w, v, run) && StoreOk(w) && FeedOk(w) && Covered(w, id, k)
    requires ShowsAtRequests(w, v, run, id, k)
    ensures Covered(After(w, v, run), id, k)
    decreases |run|
  {
    hide Enabled, Next, StoreOk, FeedOk, Covered, Shows;
    if run != [] {
      StepKeepsStore(w, v, run[0]);
      StepKeepsFeed(w, v, run[0]);
      StepKeepsCovered(w, v, run[0], id, k);
      RunKeepsCovered(Next(w, v, run[0]), v, run[1..], id, k);
    }
  }

  /** A note that shows under one key at every page request is in the finished feed, exactly once. */
  lemma StayingNoteAppearsOnce(w: World, v: Viewer, run: seq<Action>, id: string, k: Key)
    requires v.limit >= 1 && Opening(w) && ValidRun(w, v, run) && ShowsAtRequests(w, v, run, id, k)
    requires !After(w, v, run).feed.hasMore
    ensures var items := After(w, v, run).feed.items;
      exists i :: 0 <= i < |items| && items[i].id == id && ItemKey(items[i]) == k
                  && forall j :: 0 <= j < |items| && j != i ==> items[j].id != id
  {
    hide StoreOk, Enabled, Next, After, ItemKey, Descending;
    OpeningIsOk(w);
    RunKeepsCovered(w, v, run, id, k);
    FeedNeverRepeats(w, v, run);
    hide FeedOk, Opening, ValidRun, ShowsAtRequests;
    HasOnce(After(w, v, run).feed.items, id, k);
  }

  lemma HasOnce(items: seq<Summary>, id: string, k: Key)
    requires Has(items, id, k) && Distinct(items)
    ensures exists i :: 0 <= i < |items| && items[i].id == id && ItemKey(items[i]) == k
                        && forall j :: 0 <= j < |items| && j != i ==> items[j].id != id
  {
    hide ItemKey;
    var i :| 0 <= i < |items| && items[i].id == id && ItemKey(items[i]) == k;
    assert forall j :: 0 <= j < |items| && j != i ==> items[j].id != items[i].id;
  }

  // ---------------------------------------------------------------- the scroll ends

  /** Creates read a clock that has moved on. */
  predicate StrictCreates(w: World, v: Viewer, run: seq<Action>)
    requires v.limit >= 1 && ValidRun(w, v, run)
    decreases |run|
  {
    run == [] || (Strict(w, run[0]) && StrictCreates(Next(w, v, run[0]), v, run[1..]))
  }

  predicate Strict(w: World, a: Action) { a.BeginCreate? ==> w.clock < a.now }

  lemma {:induction false} SubsetCard<T>(a: set<T>, b: set<T>)
    requires a <= b
    ensures |a| <= |b|
    decreases a
  {
    if a != {} {
      var x :| x in a;
      SubsetCard(a - {x}, b - {x});
    }
  }

  function IdsOf(items: seq<Summary>): set<string> { set i | 0 <= i < |items| :: items[i].id }

  lemma {:induction false} DistinctIds(items: seq<Summary>)
    requires Distinct(items)
    ensures |IdsOf(items)| == |items|
    decreases |items|
  {
    if items != [] {
      var n := |items| - 1;
      DistinctIds(items[..n]);
      assert IdsOf(items) == IdsOf(items[..n]) + {items[n].id};
    }
  }

  /** Loaded keys were printed in the past. */
  ghost predicate ItemsPast(w: World) {
    forall i :: 0 <= i < |Loaded(w)| ==> Past(ItemKey(Loaded(w)[i]).stamp, w.clock)
  }

  /** Under a bound from the past, steps only use up what remains. */
  lemma RemainingShrinks(w: World, v: Viewer, a: Action, b: Key)
    requires v.limit >= 1 && Enabled(w, a) && StoreOk(w) && Strict(w, a) && Past(b.stamp, w.clock)
    ensures Remaining(Next(w, v, a), Some(b)) <= Remaining(w, Some(b))
  {
    hide Next, Below, StoreOk, Past, KeyOf, Strict;
    StepNeverLowersKeys(w, v, a);
    NewWritesAreAbove(w, v, a, b);
    var w' := Next(w, v, a);
    forall id | id in Remaining(w', Some(b)) ensures id in Remaining(w, Some(b)) {
      if id in w'.db.notes && Below(KeyOf(w'.db, id), b) {
        if id in w.db.notes {
          BelowIsStrictTotal(KeyOf(w'.db, id), KeyOf(w.db, id), b);
          BelowIsStrictTotal(KeyOf(w.db, id), KeyOf(w'.db, id), b);
        } else {
          assert w.pending[a.op].NewNote? && w.pending[a.op].id == id;
        }
      } else {
        var op :| op in w'.pending && w'.pending[op].NewNote? && w'.pending[op].id == id
                  && Below(Key(w'.pending[op].stamp, w'.pending[op].id), b);
        assert op in w.pending && w.pending[op] == w'.pending[op];
      }
    }
  }

  /** A create begun now gets a key above every bound from the past. */
  lemma NewWritesAreAbove(w: World, v: Viewer, a: Action, b: Key)
    requires v.limit >= 1 && Enabled(w, a) && StoreOk(w) && Strict(w, a) && Past(b.stamp, w.clock)
    ensures var w' := Next(w, v, a);
      forall op :: op in w'.pending && w'.pending[op].NewNote? && Below(Key(w'.pending[op].stamp, w'.pending[op].id), b) ==>
        op in w.pending && w.pending[op] == w'.pending[op]
  {
    hide Less, StoreOk, Past;
    PendingAfter(w, v, a);
    if a.BeginCreate? {
      NowIsNotBelowThePast(b.stamp, w.clock, a.now);
      LessTrichotomy(Timestamps.Format(a.now), b.stamp);
      assert Next(w, v, a).pending[a.op].stamp == Timestamps.Format(a.now);
    }
  }

  /** A full page takes its notes out of what remains, and leaves at least one. */
  lemma PageUsesUp(w: World, v: Viewer, page: Page)
    requires StoreOk(w) && BoundOf(w.feed.cursor).Some? && page.next.Some?
    requires IsPage(w.db, v.id, BoundNow(w), v.limit, page)
    ensures page.items != [] && 1 <= |Remaining(w, Some(LastKey(page.items)))|
    ensures |Remaining(w, Some(LastKey(page.items)))| + v.limit <= |Remaining(w, BoundNow(w))|
  {
    PageIsDistinct(w.db, v, BoundNow(w), page);
    PageSplitsRemaining(w, v, page, BoundNow(w));
    hide BoundOf, Remaining, Below, IdsOf, Visible, Holds, ItemKey, StoreOk, Descending, Distinct;
    DistinctIds(page.items);
    SplitCards(IdsOf(page.items), Remaining(w, Some(LastKey(page.items))), Remaining(w, BoundNow(w)));
  }

  lemma SplitCards(ids: set<string>, rest: set<string>, all: set<string>)
    requires ids !! rest && ids <= all && rest <= all && rest != {}
    ensures |rest| >= 1 && |ids| + |rest| <= |all|
  {
    SubsetCard(ids + rest, all);
    var id :| id in rest;
    SubsetCard({id}, rest);
  }

  lemma PageSplitsRemaining(w: World, v: Viewer, page: Page, b: Option<Key>)
    requires StoreOk(w) && page.next.Some? && IsPage(w.db, v.id, b, v.limit, page)
    ensures var rest := Remaining(w, Some(LastKey(page.items)));
      rest != {} && IdsOf(page.items) !! rest && IdsOf(page.items) <= Remaining(w, b) && rest <= Remaining(w, b)
  {
    hide Visible, BoundOf, Describes, Holds, StoreOk, ItemKey, KeyOf, Below;
    var last := LastKey(page.items);
    PageKeysNotBelowLast(page.items);
    forall id | id in IdsOf(page.items) ensures id in Remaining(w, b) && id !in Remaining(w, Some(last)) {
      var i :| 0 <= i < |page.items| && page.items[i].id == id;
      assert Due(w.db, v.id, id, b) && ItemKey(page.items[i]) == KeyOf(w.db, id);
      PendingIdsAreNotStored(w, id);
    }
    assert Due(w.db, v.id, page.items[|page.items| - 1].id, b);
    RemainingGrowsWithBound(w, last, b);
    var id :| Due(w.db, v.id, id, b) && Below(KeyOf(w.db, id), last);
    assert id in Remaining(w, Some(last));
  }

  lemma PendingIdsAreNotStored(w: World, id: string)
    requires StoreOk(w) && id in w.db.notes
    ensures forall op :: op in w.pending && w.pending[op].NewNote? ==> w.pending[op].id != id
  {
    hide Past;
    forall op | op in w.pending && w.pending[op].NewNote? ensures w.pending[op].id != id {
      assert PendingOk(w, w.pending[op]);
    }
  }

  lemma PageKeysNotBelowLast(items: seq<Summary>)
    requires items != [] && Descending(ItemKeys(items))
    ensures forall i :: 0 <= i < |items| ==> !Below(ItemKey(items[i]), LastKey(items))
  {
    hide Below, ItemKey;
    forall i | 0 <= i < |items| ensures !Below(ItemKey(items[i]), LastKey(items)) {
      assert i < |items| - 1 ==> Below(ItemKeys(items)[|items| - 1], ItemKeys(items)[i]);
      BelowIsStrictTotal(ItemKey(items[i]), LastKey(items), LastKey(items));
    }
  }

  lemma RemainingGrowsWithBound(w: World, last: Key, b: Option<Key>)
    requires Under(last, b)
    ensures Remaining(w, Some(last)) <= Remaining(w, b)
  {
    hide Below, KeyOf;
    if b.Some? {
      forall k: Key | Below(k, last) ensures Below(k, b.value) { BelowIsStrictTotal(k, last, b.value); }
    }
  }

  /** Each delivered page with a successor has used up `limit` notes of the budget, and notes remain. */
  ghost predicate WithinBudget(w: World, v: Viewer) {
    && (w.feed.cursor.Some? ==>
          w.feed.items != [] && |Remaining(w, Some(LastKey(w.feed.items)))| + v.limit * w.delivered <= w.budget && v.limit * w.delivered < w.budget)
    && (w.wire.Answered? && w.wire.page.next.Some? ==>
          && w.wire.page.items != []
          && |Remaining(w, Some(LastKey(w.wire.page.items)))| + v.limit * (w.delivered + 1) <= w.budget
          && v.limit * (w.delivered + 1) < w.budget)
    && (w.feed.cursor.None? && w.feed.hasMore ==> w.delivered == 0)
    && (!w.feed.hasMore ==> w.delivered == 1 || (w.delivered > 1 && v.limit * (w.delivered - 1) < w.budget))
  }

  lemma ServeKeepsItemsPast(w: World, v: Viewer, a: Action)
    requires v.limit >= 1 && a.Serve? && Enabled(w, a) && StoreOk(w) && FeedOk(w) && ItemsPast(w)
    ensures ItemsPast(Next(w, v, a))
  {
    hide Next, ListForViewer, Past, IsPage, StoreOk, FeedOk, BoundOf, ItemKey;
    ServeAnswers(w, v);
    ServeStep(w, v, a);
    var w', page, n := Next(w, v, a), PageServed(w, v), |w.feed.items|;
    assert Loaded(w) == w.feed.items && Loaded(w') == w.feed.items + page.items;
    forall i | 0 <= i < |Loaded(w')| ensures Past(ItemKey(Loaded(w')[i]).stamp, w'.clock) {
      if i < n {
        assert Loaded(w')[i] == Loaded(w)[i];
      } else {
        PageItemIsPast(w, v.id, BoundNow(w), v.limit, page, i - n);
      }
    }
  }

  lemma PageItemIsPast(w: World, viewer: string, bound: Option<Key>, limit: nat, page: Page, i: nat)
    requires StoreOk(w) && IsPage(w.db, viewer, bound, limit, page) && i < |page.items|
    ensures Past(ItemKey(page.items[i]).stamp, w.clock)
  {
    hide Past, Below, BoundOf, Visible, ItemKey, Descending, Describes, Holds, PendingOk, Cursor.IsAscii;
    assert Due(w.db, viewer, page.items[i].id, bound) && ItemKey(page.items[i]) == KeyOf(w.db, page.items[i].id);
  }

  lemma StepKeepsItemsPast(w: World, v: Viewer, a: Action)
    requires v.limit >= 1 && Enabled(w, a) && StoreOk(w) && FeedOk(w) && ItemsPast(w)
    ensures ItemsPast(Next(w, v, a))
  {
    if a.Serve? {
      ServeKeepsItemsPast(w, v, a);
    } else {
      StepKeepsStore(w, v, a);
      var w' := Next(w, v, a);
      assert Loaded(w') <= Loaded(w) by { LoadedAfter(w, v, a); }
      hide Next, Enabled, StoreOk, FeedOk, ItemKey, Loaded;
      forall i | 0 <= i < |Loaded(w')| ensures Past(ItemKey(Loaded(w')[i]).stamp, w'.clock) {
        assert Loaded(w')[i] == Loaded(w)[i];
        PastIsGood(ItemKey(Loaded(w)[i]).stamp, w.clock, w'.clock);
      }
    }
  }

  /** Only an answer adds to what is loaded. */
  lemma LoadedAfter(w: World, v: Viewer, a: Action)
    requires v.limit >= 1 && Enabled(w, a) && !a.Serve? && FeedOk(w)
    ensures Loaded(Next(w, v, a)) <= Loaded(w)
  {
    hide Execute, Apply, Tracked, BoundOf, Descending, Distinct;
  }

  lemma ServeStaysWithinBudget(w: World, v: Viewer, a: Action)
    requires v.limit >= 1 && a.Serve? && Enabled(w, a) && StoreOk(w) && FeedOk(w) && WithinBudget(w, v)
    ensures WithinBudget(Next(w, v, a), v)
  {
    hide Next, ListForViewer, IsPage, StoreOk, FeedOk, WithinBudget, Remaining;
    ServeAnswers(w, v);
    ServeStep(w, v, a);
    FeedLinks(w);
    AnswerStaysWithinBudget(w, v, PageServed(w, v), Next(w, v, a));
  }

  lemma AnswerStaysWithinBudget(w: World, v: Viewer, page: Page, w': World)
    requires StoreOk(w) && WithinBudget(w, v) && w.wire == Asked && w.feed.hasMore
    requires w.feed.cursor.Some? ==> w.feed.items != [] && BoundOf(w.feed.cursor) == Some(Some(LastKey(w.feed.items)))
    requires w.feed.cursor.None? ==> BoundOf(w.feed.cursor) == Some(None)
    requires BoundOf(w.feed.cursor).Some? && IsPage(w.db, v.id, BoundNow(w), v.limit, page)
    requires w' == w.(wire := Answered(page), budget := if w.feed.cursor.None? then |Remaining(w, None)| else w.budget)
    ensures WithinBudget(w', v)
  {
    hide BoundOf, ItemKey, IsPage, StoreOk, Remaining;
    if page.next.Some? { PageUsesUp(w, v, page); }
    forall b: Option<Key> ensures Remaining(w', b) == Remaining(w, b) { RemainingReads(w, w', b); }
    assert v.limit * (w.delivered + 1) == v.limit * w.delivered + v.limit;
  }

  lemma RemainingReads(w: World, w': World, b: Option<Key>)
    requires w.db == w'.db && w.pending == w'.pending
    ensures Remaining(w', b) == Remaining(w, b)
  {}

  lemma FeedLinks(w: World)
    requires FeedOk(w)
    ensures w.feed.cursor.Some? ==> w.feed.items != [] && BoundOf(w.feed.cursor) == Some(Some(LastKey(w.feed.items)))
    ensures w.feed.cursor.Some? ==> w.feed.hasMore
    ensures !w.wire.Idle? ==> w.feed.hasMore && w.feed.loadingNow
    ensures w.wire.Answered? && w.wire.page.next.Some? ==> w.wire.page.items != []
  {
    hide Tracked, Descending, Distinct, BoundOf;
  }

  lemma StepStaysWithinBudget(w: World, v: Viewer, a: Action)
    requires v.limit >= 1 && Enabled(w, a) && StoreOk(w) && FeedOk(w) && ItemsPast(w) && Strict(w, a) && WithinBudget(w, v)
    ensures WithinBudget(Next(w, v, a), v)
  {
    if a.Serve? {
      ServeStaysWithinBudget(w, v, a);
    } else {
      FeedLinks(w);
      ShrinksUnderLoadedKeys(w, v, a);
      if a.Deliver? { DeliverStaysWithinBudget(w, v, a); } else { QuietStepStaysWithinBudget(w, v, a); }
    }
  }

  /** What remains under the two bounds in play only shrinks. */
  lemma ShrinksUnderLoadedKeys(w: World, v: Viewer, a: Action)
    requires v.limit >= 1 && Enabled(w, a) && StoreOk(w) && ItemsPast(w) && Strict(w, a)
    ensures w.feed.items != [] ==>
      |Remaining(Next(w, v, a), Some(LastKey(w.feed.items)))| <= |Remaining(w, Some(LastKey(w.feed.items)))|
    ensures w.wire.Answered? && w.wire.page.items != [] ==>
      |Remaining(Next(w, v, a), Some(LastKey(w.wire.page.items)))| <= |Remaining(w, Some(LastKey(w.wire.page.items)))|
  {
    hide Next, Enabled, StoreOk, Remaining, Below, ItemKey, Past;
    if w.feed.items != [] {
      var b := LastKey(w.feed.items);
      assert Loaded(w)[|w.feed.items| - 1] == w.feed.items[|w.feed.items| - 1];
      RemainingShrinks(w, v, a, b);
      SubsetCard(Remaining(Next(w, v, a), Some(b)), Remaining(w, Some(b)));
    }
    if w.wire.Answered? && w.wire.page.items != [] {
      var b := LastKey(w.wire.page.items);
      assert Loaded(w)[|Loaded(w)| - 1] == w.wire.page.items[|w.wire.page.items| - 1];
      RemainingShrinks(w, v, a, b);
      SubsetCard(Remaining(Next(w, v, a), Some(b)), Remaining(w, Some(b)));
    }
  }

  lemma DeliverStaysWithinBudget(w: World, v: Viewer, a: Action)
    requires v.limit >= 1 && a.Deliver? && Enabled(w, a) && WithinBudget(w, v)
    requires w.feed.hasMore && (w.feed.cursor.Some? ==> w.feed.items != [])
    ensures WithinBudget(Next(w, v, a), v)
  {
    hide Remaining, ItemKey;
    var w', page := Next(w, v, a), w.wire.page;
    forall b: Option<Key> ensures Remaining(w', b) == Remaining(w, b) { RemainingReads(w, w', b); }
    if page.next.Some? { assert LastKey(w'.feed.items) == LastKey(page.items); }
  }

  lemma QuietStepStaysWithinBudget(w: World, v: Viewer, a: Action)
    requires v.limit >= 1 && !a.Serve? && !a.Deliver? && Enabled(w, a) && WithinBudget(w, v)
    requires w.feed.items != [] ==>
      |Remaining(Next(w, v, a), Some(LastKey(w.feed.items)))| <= |Remaining(w, Some(LastKey(w.feed.items)))|
    requires w.wire.Answered? && w.wire.page.items != [] ==>
      |Remaining(Next(w, v, a), Some(LastKey(w.wire.page.items)))| <= |Remaining(w, Some(LastKey(w.wire.page.items)))|
    requires !w.wire.Idle? ==> w.feed.hasMore
    ensures WithinBudget(Next(w, v, a), v)
  {
    hide Remaining, ItemKey, Execute, Apply;
    QuietStep(w, v, a);
    hide Next, Enabled;
  }

  /** Steps other than an answer and its delivery leave the loaded part of the feed alone. */
  lemma QuietStep(w: World, v: Viewer, a: Action)
    requires v.limit >= 1 && !a.Serve? && !a.Deliver? && Enabled(w, a)
    ensures var w' := Next(w, v, a);
      && w'.feed.items == w.feed.items && w'.feed.cursor == w.feed.cursor && w'.feed.hasMore == w.feed.hasMore
      && w'.delivered == w.delivered && w'.budget == w.budget && (w'.wire.Answered? ==> w'.wire == w.wire)
  {
    hide Execute, Apply;
  }

  lemma {:induction false} RunStaysWithinBudget(w: World, v: Viewer, run: seq<Action>)
    requires v.limit >= 1 && ValidRun(w, v, run) && StrictCreates(w, v, run)
    requires StoreOk(w) && FeedOk(w) && ItemsPast(w) && WithinBudget(w, v)
    ensures WithinBudget(After(w, v, run), v)
    decreases |run|
  {
    hide Enabled, Next, StoreOk, FeedOk, ItemsPast, WithinBudget, Strict;
    if run != [] {
      StepKeepsStore(w, v, run[0]);
      StepKeepsFeed(w, v, run[0]);
      StepKeepsItemsPast(w, v, run[0]);
      StepStaysWithinBudget(w, v, run[0]);
      RunStaysWithinBudget(Next(w, v, run[0]), v, run[1..]);
    }
  }

  /**
   * A scroll takes at most ceil(n / limit) successful page loads, and one if n is zero, where n counts the notes stored or
   * being created when the delivered first page was queried: with d pages received, d <= 1 or (d - 1) * limit < n.
   */
  lemma ScrollEnds(w: World, v: Viewer, run: seq<Action>)
    requires v.limit >= 1 && Opening(w) && ValidRun(w, v, run) && StrictCreates(w, v, run)
    ensures var end := After(w, v, run);
      end.delivered <= 1 || v.limit * (end.delivered - 1) < end.budget
    ensures var end := After(w, v, run);
      end.feed.hasMore && end.delivered >= 1 ==> v.limit * end.delivered < end.budget
  {
    hide StoreOk, FeedOk, ItemsPast, WithinBudget, ValidRun, StrictCreates, After, Remaining, Opening;
    OpeningIsOk(w);
    OpeningBudget(w, v);
    RunStaysWithinBudget(w, v, run);
    RunKeepsInvariants(w, v, run);
    FeedLinks(After(w, v, run));
    BudgetAtEnd(After(w, v, run), v);
  }

  lemma OpeningBudget(w: World, v: Viewer)
    requires Opening(w)
    ensures StoreOk(w) && ItemsPast(w) && WithinBudget(w, v)
  {
    hide StoreOk, Remaining, ItemKey;
  }

  lemma BudgetAtEnd(w: World, v: Viewer)
    requires WithinBudget(w, v) && (w.feed.cursor.Some? ==> w.feed.hasMore)
    ensures w.delivered <= 1 || v.limit * (w.delivered - 1) < w.budget
    ensures w.feed.hasMore && w.delivered >= 1 ==> v.limit * w.delivered < w.budget
  {
    hide Remaining, ItemKey;
    assert v.limit * w.delivered == v.limit * (w.delivered - 1) + v.limit;
  }

  /** The numbers of notes stored or being created when a first page was queried. */
  ghost function FirstCounts(w: World, v: Viewer, run: seq<Action>): set<nat>
    requires v.limit >= 1 && ValidRun(w, v, run)
    decreases |run|
  {
    if run == [] then {}
    else
      (if run[0].Serve? && w.feed.cursor.None? then {|w.db.notes| + |Creating(w)|} else {}) + FirstCounts(Next(w, v, run[0]), v, run[1..])
  }

  /** The ids of the notes being created. */
  ghost function Creating(w: World): set<string> { set op | op in w.pending && w.pending[op].NewNote? :: w.pending[op].id }

  lemma RemainingAtFirst(w: World)
    requires StoreOk(w)
    ensures |Remaining(w, None)| == |w.db.notes| + |Creating(w)|
  {
    hide Past, Cursor.IsAscii, KeyOf, Below;
    assert Remaining(w, None) == w.db.notes.Keys + Creating(w) && w.db.notes.Keys !! Creating(w);
    assert |w.db.notes.Keys| == |w.db.notes|;
  }

  /** The number a scroll is measured by is such a count. */
  lemma {:induction false} BudgetIsCounted(w: World, v: Viewer, run: seq<Action>)
    requires v.limit >= 1 && ValidRun(w, v, run) && StoreOk(w) && FeedOk(w)
    ensures After(w, v, run).budget in FirstCounts(w, v, run) + {w.budget}
    decreases |run|
  {
    hide Enabled, StoreOk, FeedOk, ListForViewer, Remaining, Creating, Execute, Apply, Timestamps.Format;
    if run != [] {
      StepKeepsStore(w, v, run[0]);
      StepKeepsFeed(w, v, run[0]);
      RemainingAtFirst(w);
      BudgetIsCounted(Next(w, v, run[0]), v, run[1..]);
    }
  }

  // ---------------------------------------------------------------- what is shown has been true

  /** The item is the viewer's note as these tables have it: text, owner, permission, publicness, and time of the last edit. */
  predicate IsItem(db: Db, viewer: string, s: Summary) {
    Describes(db, viewer, s) && Visible(db, viewer, s.id) && ItemKey(s) == KeyOf(db, s.id)
  }

  ghost predicate WereTrue(seen: set<Db>, viewer: string, items: seq<Summary>) {
    forall i :: 0 <= i < |items| ==> exists db :: db in seen && IsItem(db, viewer, items[i])
  }

  /** The tables a run passes through. */
  ghost function TablesOf(w: World, v: Viewer, run: seq<Action>): set<Db>
    requires v.limit >= 1 && ValidRun(w, v, run)
    decreases |run|
  {
    {w.db} + if run == [] then {} else TablesOf(Next(w, v, run[0]), v, run[1..])
  }

  lemma PageItemsAreTrue(db: Db, viewer: string, bound: Option<Key>, limit: nat, page: Page)
    requires IsPage(db, viewer, bound, limit, page)
    ensures WereTrue({db}, viewer, page.items)
  {
    hide Below, BoundOf, Visible, Describes, ItemKey, KeyOf, Descending, Holds, Under;
    forall i | 0 <= i < |page.items| ensures IsItem(db, viewer, page.items[i]) {
      assert Due(db, viewer, page.items[i].id, bound);
    }
  }

  /** Only an answer brings new items. */
  lemma StepLoads(w: World, v: Viewer, a: Action, seen: set<Db>)
    requires v.limit >= 1 && Enabled(w, a) && StoreOk(w) && FeedOk(w) && w.db in seen && WereTrue(seen, v.id, Loaded(w))
    ensures WereTrue(seen, v.id, Loaded(Next(w, v, a)))
  {
    hide ListForViewer, IsPage, StoreOk, FeedOk, IsItem, Execute, Apply, Timestamps.Format;
    var loaded := Loaded(w);
    FeedLinks(w);
    if a.Serve? {
      ServeAnswers(w, v);
      PageItemsAreTrue(w.db, v.id, BoundNow(w), v.limit, PageServed(w, v));
      ServeStep(w, v, a);
      hide Next;
      assert Loaded(Next(w, v, a)) == loaded + PageServed(w, v).items;
    } else if a.Fail? {
      assert Loaded(Next(w, v, a)) == loaded[..|w.feed.items|];
    } else {
      assert Loaded(Next(w, v, a)) == loaded;
    }
  }

  lemma {:induction false} RunLoads(w: World, v: Viewer, run: seq<Action>, seen: set<Db>)
    requires v.limit >= 1 && ValidRun(w, v, run) && StoreOk(w) && FeedOk(w) && w.db in seen && WereTrue(seen, v.id, Loaded(w))
    ensures WereTrue(seen + TablesOf(w, v, run), v.id, Loaded(After(w, v, run)))
    decreases |run|
  {
    hide Enabled, Next, StoreOk, FeedOk, IsItem;
    if run != [] {
      StepKeepsStore(w, v, run[0]);
      StepKeepsFeed(w, v, run[0]);
      StepLoads(w, v, run[0], seen);
      var w1 := Next(w, v, run[0]);
      RunLoads(w1, v, run[1..], seen + {w1.db});
      assert w1.db in TablesOf(w1, v, run[1..]);
      assert seen + {w1.db} + TablesOf(w1, v, run[1..]) <= seen + TablesOf(w, v, run);
    }
  }

  /** Whatever the feed shows was, at some moment of the run, that note as its viewer was allowed to see it. */
  lemma ShownNotesWereTrue(w: World, v: Viewer, run: seq<Action>)
    requires v.limit >= 1 && Opening(w) && ValidRun(w, v, run)
    ensures WereTrue(TablesOf(w, v, run), v.id, After(w, v, run).feed.items)
  {
    hide StoreOk, IsItem, Next, Enabled;
    OpeningIsOk(w);
    RunLoads(w, v, run, {w.db});
    var end := After(w, v, run);
    hide After;
    assert {w.db} + TablesOf(w, v, run) == TablesOf(w, v, run);
    assert end.feed.items == Loaded(end)[..|end.feed.items|];
  }

  // ---------------------------------------------------------------- what is written is what was asked

  /** A create, whenever it commits, stores the note it was begun with, under the stamp it read then. */
  lemma CreateStoresItsNote(w: World, v: Viewer, a: Action, later: World)
    requires v.limit >= 1 && a.BeginCreate? && Enabled(w, a)
    requires a.op in later.pending && later.pending[a.op] == Next(w, v, a).pending[a.op]
    requires a.id !in later.db.notes && a.owner in later.db.users
    ensures var notes := Next(later, v, Commit(a.op)).db.notes;
      a.id in notes && notes[a.id] == Note(a.owner, a.title, a.content, 1, Timestamps.Format(a.now))
  {
    hide Timestamps.Format, ListForViewer;
  }

  /** An edit stores its texts exactly if the version is still the one it expects, and changes no other note. */
  lemma EditStoresItsTexts(w: World, v: Viewer, a: Action, later: World)
    requires v.limit >= 1 && a.BeginEdit? && Enabled(w, a)
    requires a.op in later.pending && later.pending[a.op] == Next(w, v, a).pending[a.op] && a.id in later.db.notes
    ensures var before, notes := later.db.notes[a.id], Next(later, v, Commit(a.op)).db.notes;
      && a.id in notes
      && notes[a.id] == (if before.version == a.expected
                         then Note(before.owner, a.title, a.content, a.expected + 1, Timestamps.Format(a.now)) else before)
      && notes - {a.id} == later.db.notes - {a.id}
  {
    hide Timestamps.Format, ListForViewer;
  }

  // ---------------------------------------------------------------- runs there are

  lemma RunOfTwo(w: World, v: Viewer, a: Action, b: Action)
    requires v.limit >= 1 && Enabled(w, a) && Enabled(Next(w, v, a), b)
    ensures ValidRun(w, v, [a, b]) && After(w, v, [a, b]) == Next(Next(w, v, a), v, b)
  {
    hide Enabled, Next;
    RunOfOne(Next(w, v, a), v, b);
    RunOfMore(w, v, a, [b]);
    assert [a] + [b] == [a, b];
  }

  lemma RunOfOne(w: World, v: Viewer, a: Action)
    requires v.limit >= 1 && Enabled(w, a)
    ensures ValidRun(w, v, [a]) && After(w, v, [a]) == Next(w, v, a)
  {
    hide Enabled, Next;
    assert [a][1..] == [];
  }

  lemma RunOfMore(w: World, v: Viewer, a: Action, rest: seq<Action>)
    requires v.limit >= 1 && Enabled(w, a) && ValidRun(Next(w, v, a), v, rest)
    ensures ValidRun(w, v, [a] + rest) && After(w, v, [a] + rest) == After(Next(w, v, a), v, rest)
  {
    assert ([a] + rest)[1..] == rest;
  }

  /** A feed with more to come can always load, and a load that nothing disturbs appends the page under its cursor. */
  lemma LoadAlone(w: World, v: Viewer) returns (page: Page)
    requires v.limit >= 1 && StoreOk(w) && FeedOk(w) && w.wire == Idle && w.feed.hasMore
    ensures ValidRun(w, v, [LoadMore] + [Serve, Deliver]) && BoundOf(w.feed.cursor).Some?
    ensures IsPage(w.db, v.id, BoundOf(w.feed.cursor).value, v.limit, page)
    ensures After(w, v, [LoadMore] + [Serve, Deliver]).feed == Feed(w.feed.items + page.items, page.next.Some?, false, page.next, false)
  {
    hide StoreOk, ListForViewer, IsPage, Remaining, ValidRun, After;
    var w1 := Next(w, v, LoadMore);
    LoadIsAsked(w, v);
    hide FeedOk;
    StepKeepsStore(w, v, LoadMore);
    StepKeepsFeed(w, v, LoadMore);
    ServeAnswers(w1, v);
    page := PageServed(w1, v);
    ServeStep(w1, v, Serve);
    RunOfTwo(w1, v, Serve, Deliver);
    RunOfMore(w, v, LoadMore, [Serve, Deliver]);
  }

  lemma LoadIsAsked(w: World, v: Viewer)
    requires v.limit >= 1 && FeedOk(w) && w.wire == Idle && w.feed.hasMore
    ensures Next(w, v, LoadMore) == w.(feed := w.feed.(loadingNow := true, failed := false), wire := Asked)
  {
    hide ListForViewer, Remaining;
  }

  /** Two creates can read one clock time, so that only their ids tell their keys apart. */
  lemma TwoNotesCanShareAStamp(w: World, v: Viewer, a: Action, b: Action)
    requires v.limit >= 1 && a.BeginCreate? && b.BeginCreate? && a.id != b.id && a.op != b.op && a.now == b.now
    requires Enabled(w, a) && Enabled(w, b) && a.owner in w.db.users && b.owner in w.db.users
    requires a.id !in w.db.notes && b.id !in w.db.notes
    ensures var run := [a] + ([b] + [Commit(a.op), Commit(b.op)]);
      && ValidRun(w, v, run)
      && var notes := After(w, v, run).db.notes;
      a.id in notes && b.id in notes && notes[a.id].updatedAt == notes[b.id].updatedAt == Timestamps.Format(a.now)
  {
    hide Timestamps.Format, ListForViewer, Remaining, ValidRun, After, Cursor.IsAscii;
    var w1 := Next(w, v, a);
    var w2 := Next(w1, v, b);
    RunOfTwo(w2, v, Commit(a.op), Commit(b.op));
    RunOfMore(w1, v, b, [Commit(a.op), Commit(b.op)]);
    RunOfMore(w, v, a, [b] + [Commit(a.op), Commit(b.op)]);
  }

  /** A write may break off before its statement, and then stores nothing. */
  lemma AbandonedWriteStoresNothing(w: World, v: Viewer, a: Action)
    requires v.limit >= 1 && (a.BeginCreate? || a.BeginEdit?) && Enabled(w, a)
    ensures ValidRun(w, v, [a, Abandon(a.op)]) && After(w, v, [a, Abandon(a.op)]).db == w.db
    ensures a.op !in After(w, v, [a, Abandon(a.op)]).pending
  {
    hide Timestamps.Format, ListForViewer, Remaining, ValidRun, After, Cursor.IsAscii;
    RunOfTwo(w, v, a, Abandon(a.op));
  }
}
