/** A scroll over a store nobody writes to: the pages together are the viewer's notes, each once, newest edit first. */
module CompleteFeed {
  import opened Text
  import opened Schema
  import opened Paging

  lemma {:induction false} CardLess<T>(a: set<T>, b: set<T>)
    requires a < b
    ensures |a| < |b|
    decreases a
  {
    var x :| x in b && x !in a;
    if a != {} {
      var y :| y in a;
      CardLess(a - {y}, b - {y});
    }
  }

  /** The next page starts below the last row, so fewer rows are left. */
  lemma NextBoundLeavesFewer(db: Db, viewer: string, bound: Option<Key>, limit: nat, page: Page)
    requires IsPage(db, viewer, bound, limit, page) && page.next.Some?
    ensures |Selected(db, viewer, Some(LastKey(page.items)))| < |Selected(db, viewer, bound)|
  {
    hide Below, BoundOf, ItemKey, Describes, Holds, Descending;
    var last := LastKey(page.items);
    var s := page.items[|page.items| - 1];
    assert Due(db, viewer, s.id, bound) && KeyOf(db, s.id) == last;
    SelectedAreVisible(db, viewer, bound);
    SelectedAreVisible(db, viewer, Some(last));
    hide Selected;
    forall k | k in Selected(db, viewer, Some(last)) ensures k in Selected(db, viewer, bound) && k != last {
      BelowIsStrictTotal(k, last, if bound.Some? then bound.value else last);
    }
    assert last in Selected(db, viewer, bound);
    CardLess(Selected(db, viewer, Some(last)), Selected(db, viewer, bound));
  }

  /** All pages from a cursor on, following next cursors to the end. */
  function Scroll(db: Db, viewer: string, cursor: Option<string>, limit: nat): seq<Summary>
    requires GoodRows(db) && limit >= 1 && BoundOf(cursor).Some?
    decreases |Selected(db, viewer, BoundOf(cursor).value)|
  {
    QueryAnswersPages(db, viewer, cursor, limit);
    var page := ListForViewer(db, viewer, cursor, limit).page;
    if page.next.None? then page.items
    else
      NextBoundLeavesFewer(db, viewer, BoundOf(cursor).value, limit, page);
      page.items + Scroll(db, viewer, page.next, limit)
  }

  ghost predicate Lists(items: seq<Summary>, id: string, p: Permission) {
    exists i :: 0 <= i < |items| && items[i].id == id && items[i].permission == p
  }

  /** Items in descending order are exactly the due rows, each with the permission the point lookup resolves. */
  ghost predicate IsScroll(db: Db, viewer: string, bound: Option<Key>, items: seq<Summary>) {
    && Descending(ItemKeys(items))
    && (forall i :: 0 <= i < |items| ==> Due(db, viewer, items[i].id, bound) && ItemKey(items[i]) == KeyOf(db, items[i].id)
                                         && Describes(db, viewer, items[i]))
    && (forall id :: Due(db, viewer, id, bound) ==> Holds(items, KeyOf(db, id)))
  }

  lemma PageThenScroll(db: Db, viewer: string, bound: Option<Key>, limit: nat, page: Page, rest: seq<Summary>)
    requires IsPage(db, viewer, bound, limit, page) && page.next.Some?
    requires IsScroll(db, viewer, Some(LastKey(page.items)), rest)
    ensures IsScroll(db, viewer, bound, page.items + rest)
  {
    hide Below, BoundOf, ItemKey, Describes, Visible, KeyOf, Due, Descending, ItemKeys;
    var items, n := page.items + rest, |page.items|;
    forall i | n <= i < |items| ensures Due(db, viewer, items[i].id, bound) {
      assert items[i] == rest[i - n];
      RestIsDue(db, viewer, bound, limit, page, rest, i - n);
    }
    forall i, j | 0 <= i < n && 0 <= j < |rest| ensures Below(ItemKey(rest[j]), ItemKey(page.items[i])) {
      RestIsBelow(db, viewer, bound, limit, page, rest, i, j);
    }
    JoinDescends(page.items, rest);
    PageThenScrollHolds(db, viewer, bound, limit, page, rest);
  }

  lemma RestIsDue(db: Db, viewer: string, bound: Option<Key>, limit: nat, page: Page, rest: seq<Summary>, j: nat)
    requires IsPage(db, viewer, bound, limit, page) && page.next.Some?
    requires IsScroll(db, viewer, Some(LastKey(page.items)), rest) && j < |rest|
    ensures Due(db, viewer, rest[j].id, bound)
  {
    hide Below, BoundOf, ItemKey, Describes, Visible, KeyOf, Descending, ItemKeys;
    var last := LastKey(page.items);
    assert Due(db, viewer, page.items[|page.items| - 1].id, bound) && Due(db, viewer, rest[j].id, Some(last));
    BelowIsStrictTotal(KeyOf(db, rest[j].id), last, if bound.Some? then bound.value else last);
  }

  lemma RestIsBelow(db: Db, viewer: string, bound: Option<Key>, limit: nat, page: Page, rest: seq<Summary>, i: nat, j: nat)
    requires IsPage(db, viewer, bound, limit, page) && page.next.Some?
    requires IsScroll(db, viewer, Some(LastKey(page.items)), rest) && i < |page.items| && j < |rest|
    ensures Below(ItemKey(rest[j]), ItemKey(page.items[i]))
  {
    hide Below, BoundOf, ItemKey, Describes, Visible, KeyOf;
    var n, last := |page.items|, LastKey(page.items);
    assert Due(db, viewer, rest[j].id, Some(last));
    assert i < n - 1 ==> Below(ItemKeys(page.items)[n - 1], ItemKeys(page.items)[i]);
    BelowIsStrictTotal(ItemKey(rest[j]), last, ItemKey(page.items[i]));
  }

  lemma PageThenScrollHolds(db: Db, viewer: string, bound: Option<Key>, limit: nat, page: Page, rest: seq<Summary>)
    requires IsPage(db, viewer, bound, limit, page) && page.next.Some?
    requires IsScroll(db, viewer, Some(LastKey(page.items)), rest)
    ensures forall id :: Due(db, viewer, id, bound) ==> Holds(page.items + rest, KeyOf(db, id))
  {
    hide Below, BoundOf, ItemKey, Describes, Visible, KeyOf, Descending;
    var items, n := page.items + rest, |page.items|;
    forall id | Due(db, viewer, id, bound) ensures Holds(items, KeyOf(db, id)) {
      if Holds(page.items, KeyOf(db, id)) {
        var i :| 0 <= i < n && ItemKey(page.items[i]) == KeyOf(db, id);
        assert ItemKey(items[i]) == KeyOf(db, id);
      } else {
        assert Due(db, viewer, id, Some(LastKey(page.items)));
        var i :| 0 <= i < |rest| && ItemKey(rest[i]) == KeyOf(db, id);
        assert ItemKey(items[n + i]) == KeyOf(db, id);
      }
    }
  }

  lemma {:induction false} ScrollIsScroll(db: Db, viewer: string, cursor: Option<string>, limit: nat)
    requires GoodRows(db) && limit >= 1 && BoundOf(cursor).Some?
    ensures IsScroll(db, viewer, BoundOf(cursor).value, Scroll(db, viewer, cursor, limit))
    decreases |Selected(db, viewer, BoundOf(cursor).value)|
  {
    hide GoodRows, BoundOf, ListForViewer, Selected, Descending, Due, ItemKey, KeyOf, Describes, Holds;
    QueryAnswersPages(db, viewer, cursor, limit);
    var page := ListForViewer(db, viewer, cursor, limit).page;
    if page.next.Some? {
      NextBoundLeavesFewer(db, viewer, BoundOf(cursor).value, limit, page);
      ScrollIsScroll(db, viewer, page.next, limit);
      PageThenScroll(db, viewer, BoundOf(cursor).value, limit, page, Scroll(db, viewer, page.next, limit));
    }
  }

  /** The complete feed lists a note with permission p exactly when the point lookup returns it with p, and once. */
  lemma CompleteFeedIsTheVisibleNotes(db: Db, viewer: string, limit: nat, id: string, p: Permission)
    requires GoodRows(db) && limit >= 1
    ensures var items := Scroll(db, viewer, None, limit);
      && (Lists(items, id, p) <==> PermissionFor(db, id, viewer) == Some(p))
      && (forall i, j :: 0 <= i < j < |items| ==> items[i].id != items[j].id)
      && Descending(ItemKeys(items))
  {
    hide GoodRows, Scroll, Below, ItemKey;
    ScrollIsScroll(db, viewer, None, limit);
    var items := Scroll(db, viewer, None, limit);
    forall i, j | 0 <= i < j < |items| ensures items[i].id != items[j].id {
      assert Below(ItemKeys(items)[j], ItemKeys(items)[i]);
      BelowIsStrictTotal(ItemKey(items[i]), ItemKey(items[j]), ItemKey(items[i]));
    }
    if PermissionFor(db, id, viewer) == Some(p) {
      assert Due(db, viewer, id, None);
      var i :| 0 <= i < |items| && ItemKey(items[i]) == KeyOf(db, id);
      ItemKeyId(items[i]);
    }
  }

  lemma ItemKeyId(s: Summary)
    ensures ItemKey(s).id == s.id
  {}
}
