/** The client object behind the dashboard, and what it shows of a store that stands still while it scrolls. */
module DashboardFeed {
  import opened Text
  import opened Schema
  import opened Paging
  import opened Repository
  import CompleteFeed
  import FeedProtocol

  type Feed = FeedProtocol.Feed

  /** The items descend, the cursor names the last of them, and without a cursor the feed is at its start or its end. */
  ghost predicate FeedValid(f: Feed) {
    && Descending(ItemKeys(f.items)) && FeedProtocol.Names(f.cursor, f.items)
    && (f.cursor.Some? ==> f.hasMore)
    && (f.cursor.None? && f.hasMore ==> f.items == [])
  }

  /** Each item is a note the viewer may see, under its key and permission. */
  ghost predicate ShowsVisible(items: seq<Summary>, db: Db, viewer: string) {
    forall i :: 0 <= i < |items| ==>
      Due(db, viewer, items[i].id, None) && ItemKey(items[i]) == KeyOf(db, items[i].id)
      && Describes(db, viewer, items[i])
  }

  /** Every note the viewer may see is shown or still to come. */
  ghost predicate MissesNone(f: Feed, db: Db, viewer: string)
    requires FeedValid(f)
  {
    forall id :: Due(db, viewer, id, None) ==> Holds(f.items, KeyOf(db, id)) || (f.hasMore && Due(db, viewer, id, BoundOf(f.cursor).value))
  }

  lemma CursorIsABound(f: Feed)
    requires FeedValid(f)
    ensures BoundOf(f.cursor).Some? && BoundOf(f.cursor).value == if f.cursor.None? then None else Some(LastKey(f.items))
  {
    hide ItemKey;
  }

  /** Items and a page under the last of them. */
  predicate Follows(bound: Option<Key>, items: seq<Summary>) { if items == [] then bound.None? else bound == Some(LastKey(items)) }

  lemma PageDescends(items: seq<Summary>, db: Db, viewer: string, bound: Option<Key>, limit: nat, page: Page)
    requires Descending(ItemKeys(items)) && Follows(bound, items) && IsPage(db, viewer, bound, limit, page)
    ensures Descending(ItemKeys(items + page.items))
  {
    hide Below, BoundOf, KeyOf, ItemKey, Visible, Describes, Holds;
    var n := |items|;
    forall i, j | 0 <= i < n && 0 <= j < |page.items| ensures Below(ItemKey(page.items[j]), ItemKey(items[i])) {
      assert Due(db, viewer, page.items[j].id, bound);
      assert i < n - 1 ==> Below(ItemKeys(items)[n - 1], ItemKeys(items)[i]);
      BelowIsStrictTotal(ItemKey(page.items[j]), LastKey(items), ItemKey(items[i]));
    }
    JoinDescends(items, page.items);
  }

  lemma NextNamesLast(items: seq<Summary>, db: Db, viewer: string, bound: Option<Key>, limit: nat, page: Page)
    requires IsPage(db, viewer, bound, limit, page)
    ensures FeedProtocol.Names(page.next, items + page.items)
    ensures page.next.Some? ==> |page.items| == limit && items + page.items != [] && LastKey(items + page.items) == LastKey(page.items)
  {
    hide Below, BoundOf, KeyOf, ItemKey, Due, Describes, Holds, Descending;
  }

  /** A page under the cursor continues the feed in order, and the new cursor names the new last item. */
  lemma PageKeepsFeed(f: Feed, db: Db, viewer: string, limit: nat, page: Page)
    requires FeedValid(f) && f.hasMore && BoundOf(f.cursor).Some? && IsPage(db, viewer, BoundOf(f.cursor).value, limit, page)
    ensures FeedValid(FeedProtocol.Receive(f, page))
  {
    CursorIsABound(f);
    hide IsPage, BoundOf, LastKey, Descending, FeedProtocol.Names;
    NamesSomething(f);
    PageDescends(f.items, db, viewer, BoundOf(f.cursor).value, limit, page);
    NextNamesLast(f.items, db, viewer, BoundOf(f.cursor).value, limit, page);
  }

  lemma NamesSomething(f: Feed)
    requires FeedValid(f) && f.hasMore
    ensures f.cursor.None? <==> f.items == []
  {
    hide BoundOf, Descending, ItemKeys;
  }

  /** A page shows only visible notes. */
  lemma PageShowsVisible(items: seq<Summary>, db: Db, viewer: string, bound: Option<Key>, limit: nat, page: Page)
    requires ShowsVisible(items, db, viewer) && IsPage(db, viewer, bound, limit, page)
    ensures ShowsVisible(items + page.items, db, viewer)
  {
    hide Below, BoundOf, KeyOf, ItemKey, Visible, Describes, Holds, Descending;
    var all, n := items + page.items, |items|;
    forall i | n <= i < |all|
      ensures Due(db, viewer, all[i].id, None) && ItemKey(all[i]) == KeyOf(db, all[i].id)
      ensures Describes(db, viewer, all[i])
    {
      assert all[i] == page.items[i - n] && Due(db, viewer, page.items[i - n].id, bound);
    }
  }

  lemma HeldByBoth(a: seq<Summary>, b: seq<Summary>, k: Key)
    requires Holds(a, k) || Holds(b, k)
    ensures Holds(a + b, k)
  {
    hide ItemKey;
    if i :| 0 <= i < |a| && ItemKey(a[i]) == k {
      assert ItemKey((a + b)[i]) == k;
    } else {
      var i :| 0 <= i < |b| && ItemKey(b[i]) == k;
      assert ItemKey((a + b)[|a| + i]) == k;
    }
  }

  /** It misses none that was still to come. */
  lemma PageMissesNone(f: Feed, db: Db, viewer: string, limit: nat, page: Page)
    requires FeedValid(f) && f.hasMore && BoundOf(f.cursor).Some? && IsPage(db, viewer, BoundOf(f.cursor).value, limit, page)
    requires MissesNone(f, db, viewer) && FeedValid(FeedProtocol.Receive(f, page))
    ensures MissesNone(FeedProtocol.Receive(f, page), db, viewer)
  {
    var f', bound := FeedProtocol.Receive(f, page), BoundOf(f.cursor).value;
    CursorIsABound(f');
    hide FeedValid;
    NextNamesLast(f.items, db, viewer, bound, limit, page);
    hide Below, BoundOf, KeyOf, ItemKey, Visible, Describes, Holds, LastKey, Descending;
    forall id | Due(db, viewer, id, None) ensures Holds(f'.items, KeyOf(db, id)) || (f'.hasMore && Due(db, viewer, id, BoundOf(f'.cursor).value)) {
      if Holds(f.items, KeyOf(db, id)) || Holds(page.items, KeyOf(db, id)) {
        HeldByBoth(f.items, page.items, KeyOf(db, id));
      } else {
        assert Due(db, viewer, id, bound);
      }
    }
  }

  lemma PageKeepsShowing(f: Feed, db: Db, viewer: string, limit: nat, page: Page)
    requires FeedValid(f) && f.hasMore && BoundOf(f.cursor).Some? && IsPage(db, viewer, BoundOf(f.cursor).value, limit, page)
    requires ShowsVisible(f.items, db, viewer) && MissesNone(f, db, viewer) && FeedValid(FeedProtocol.Receive(f, page))
    ensures ShowsVisible(f.items + page.items, db, viewer) && MissesNone(FeedProtocol.Receive(f, page), db, viewer)
  {
    hide IsPage, FeedValid, ShowsVisible, MissesNone, BoundOf;
    PageShowsVisible(f.items, db, viewer, BoundOf(f.cursor).value, limit, page);
    PageMissesNone(f, db, viewer, limit, page);
  }

  /** A feed at its end that misses nothing is the complete feed: all visible notes, newest first, with their permissions. */
  lemma FinishedFeedIsComplete(f: Feed, db: Db, viewer: string)
    requires FeedValid(f) && !f.hasMore && ShowsVisible(f.items, db, viewer) && MissesNone(f, db, viewer)
    ensures CompleteFeed.IsScroll(db, viewer, None, f.items)
  {}

  lemma SameFeed(f: Feed, g: Feed, db: Db, viewer: string)
    requires FeedValid(f) && g.items == f.items && g.hasMore == f.hasMore && g.cursor == f.cursor
    ensures FeedValid(g) && (MissesNone(f, db, viewer) <==> MissesNone(g, db, viewer))
  {}

  /** The composable behind the dashboard; a request is awaited between StartLoadMore and one of the next two methods. */
  class NoteFeed {
    var items: seq<Summary>
    var hasMore: bool
    var loadingNow: bool
    var cursor: Option<string>
    var failed: bool

    function State(): Feed
      reads this
    {
      FeedProtocol.Feed(items, hasMore, loadingNow, cursor, failed)
    }

    ghost predicate Valid()
      reads this
    {
      FeedValid(State())
    }

    /** What the feed shows of the given tables, on its way and at its end. */
    ghost predicate Shows(db: Db, viewer: string)
      requires Valid()
      reads this
    {
      ShowsVisible(items, db, viewer) && MissesNone(State(), db, viewer)
    }

    constructor ()
      ensures State() == FeedProtocol.FRESH && Valid()
      ensures forall db, viewer :: Shows(db, viewer)
    {
      items, hasMore, loadingNow, cursor, failed := [], true, false, None, false;
      new;
      assert BoundOf(None) == Some(None);
    }

    /** A second call while one is in flight, or after the last page, sends nothing. */
    method StartLoadMore() returns (sent: bool, request: Option<string>)
      modifies this
      ensures (State(), sent) == FeedProtocol.StartLoad(old(State()))
      ensures sent ==> request == old(cursor) && !old(loadingNow) && loadingNow && !failed
      ensures sent <==> !old(loadingNow) && hasMore
      ensures !sent ==> State() == old(State())
      ensures items == old(items) && hasMore == old(hasMore) && cursor == old(cursor)
    {
      request := None;
      if loadingNow || !hasMore { return false, None; }
      loadingNow := true;
      failed := false;
      sent, request := true, cursor;
    }

    /**
     * A page that answers the cursor, whatever the tables are by then, keeps the feed in order with its cursor on the last
     * item. While the tables stand still it goes on to show every visible note, and at the end exactly those.
     */
    method PageArrived(page: Page, ghost db: Db, ghost viewer: string, ghost limit: nat)
      modifies this
      ensures State() == FeedProtocol.Receive(old(State()), page)
      ensures items == old(items) + page.items && cursor == page.next && (hasMore <==> page.next.Some?) && !loadingNow && !failed
      ensures old(Valid()) && old(hasMore) && BoundOf(old(cursor)).Some? && IsPage(db, viewer, BoundOf(old(cursor)).value, limit, page) ==>
        Valid() && (old(Shows(db, viewer)) ==>
          Shows(db, viewer) && (!hasMore ==> CompleteFeed.IsScroll(db, viewer, None, items)))
    {
      hide FeedValid, ShowsVisible, MissesNone, IsPage, BoundOf, CompleteFeed.IsScroll;
      ghost var f := State();
      cursor := page.next;
      items := items + page.items;
      hasMore := page.next.Some?;
      failed := false;
      loadingNow := false;
      if FeedValid(f) && f.hasMore && BoundOf(f.cursor).Some? && IsPage(db, viewer, BoundOf(f.cursor).value, limit, page) {
        PageKeepsFeed(f, db, viewer, limit, page);
        if ShowsVisible(f.items, db, viewer) && MissesNone(f, db, viewer) {
          PageKeepsShowing(f, db, viewer, limit, page);
          if !hasMore { FinishedFeedIsComplete(State(), db, viewer); }
        }
      }
    }

    /** A failed request moves neither the cursor nor the items. */
    method RequestFailed()
      modifies this
      ensures State() == FeedProtocol.Reject(old(State()))
      ensures cursor == old(cursor) && items == old(items) && hasMore == old(hasMore) && !loadingNow && failed
    {
      failed := true;
      loadingNow := false;
    }

    /** loadMore from end to end: a step towards the complete feed, or no step at all. */
    method LoadMore(repo: NoteRepository, viewer: string, limit: nat)
      requires limit >= 1 && Valid()
      modifies this
      ensures GoodRows(repo.Tables()) && old(Shows(repo.Tables(), viewer)) ==>
        Valid() && Shows(repo.Tables(), viewer) && (!hasMore ==> CompleteFeed.IsScroll(repo.Tables(), viewer, None, items))
      ensures GoodRows(repo.Tables()) && old(hasMore && !loadingNow) ==> !failed && (hasMore ==> |items| == |old(items)| + limit)
    {
      hide FeedValid, ShowsVisible, MissesNone, IsPage, ListForViewer, GoodRows, BoundOf, CompleteFeed.IsScroll;
      ghost var db, start := repo.Tables(), State();
      CursorIsABound(start);
      if !hasMore && ShowsVisible(items, db, viewer) && MissesNone(start, db, viewer) { FinishedFeedIsComplete(start, db, viewer); }
      if GoodRows(db) { QueryAnswersPages(db, viewer, cursor, limit); }
      var sent, request := StartLoadMore();
      SameFeed(start, State(), db, viewer);
      if !sent { return; }
      var answer := repo.ListPage(viewer, request, limit);
      if answer.Ok? {
        if GoodRows(db) { NextNamesLast(items, db, viewer, BoundOf(cursor).value, limit, answer.page); }
        PageArrived(answer.page, db, viewer, limit);
      } else {
        RequestFailed();
      }
    }
  }
}
