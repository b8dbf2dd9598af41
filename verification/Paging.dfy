/** One page of the dashboard feed: rows below a cursor, newest edit first, cut at a limit. */
module Paging {
  import opened Text
  import opened Schema
  import Timestamps
  import Cursor

  /** The sort key (updated_at, id) of a row. */
  datatype Key = Key(stamp: string, id: string)

  /** The row-value comparison (a.updated_at, a.id) < (b.updated_at, b.id). */
  predicate Below(a: Key, b: Key) {
    Less(a.stamp, b.stamp) || (a.stamp == b.stamp && Less(a.id, b.id))
  }

  predicate Under(a: Key, bound: Option<Key>) { bound.None? || Below(a, bound.value) }

  lemma BelowIsStrictTotal(a: Key, b: Key, c: Key)
    ensures !(Below(a, b) && Below(b, a))
    ensures a == b <==> !Below(a, b) && !Below(b, a)
    ensures Below(a, b) && Below(b, c) ==> Below(a, c)
  {
    hide Less;
    LessTrichotomy(a.stamp, b.stamp);
    LessTrichotomy(a.id, b.id);
    if Less(a.stamp, b.stamp) && Less(b.stamp, c.stamp) { LessTransitive(a.stamp, b.stamp, c.stamp); }
    if Less(a.id, b.id) && Less(b.id, c.id) { LessTransitive(a.id, b.id, c.id); }
  }

  lemma BelowIsStrictTotalOrder()
    ensures forall a, b :: !(Below(a, b) && Below(b, a))
    ensures forall a, b :: a == b <==> !Below(a, b) && !Below(b, a)
    ensures forall a, b, c :: Below(a, b) && Below(b, c) ==> Below(a, c)
  {
    hide Below;
    forall a, b, c ensures !(Below(a, b) && Below(b, a)) && (a == b <==> !Below(a, b) && !Below(b, a))
                        && (Below(a, b) && Below(b, c) ==> Below(a, c)) {
      BelowIsStrictTotal(a, b, c);
    }
  }

  predicate IsTop(m: Key, keys: set<Key>) { m in keys && forall k :: k in keys ==> k == m || Below(k, m) }

  lemma TopExists(keys: set<Key>)
    requires keys != {}
    ensures exists m :: IsTop(m, keys)
    decreases |keys|
  {
    hide Below;
    BelowIsStrictTotalOrder();
    var k :| k in keys;
    var rest := keys - {k};
    assert keys == rest + {k};
    if rest == {} {
      assert IsTop(k, keys);
    } else {
      TopExists(rest);
      var m :| IsTop(m, rest);
      assert IsTop(if Below(m, k) then k else m, keys);
    }
  }

  function TopKey(keys: set<Key>): (m: Key)
    requires keys != {}
    ensures IsTop(m, keys)
  {
    TopExists(keys);
    BelowIsStrictTotalOrder();
    var m :| IsTop(m, keys);
    m
  }

  /** ORDER BY updated_at DESC, id DESC LIMIT n. */
  function Newest(keys: set<Key>, n: nat): seq<Key> {
    if n == 0 || keys == {} then [] else [TopKey(keys)] + Newest(keys - {TopKey(keys)}, n - 1)
  }

  predicate Descending(ks: seq<Key>) { forall i, j :: 0 <= i < j < |ks| ==> Below(ks[j], ks[i]) }

  /** The clause selects rows of the set, as many as there are up to the limit. */
  lemma {:induction false} NewestSelects(keys: set<Key>, n: nat)
    ensures forall k :: k in Newest(keys, n) ==> k in keys
    ensures |Newest(keys, n)| == if |keys| < n then |keys| else n
    ensures |keys| <= n ==> forall k :: k in keys ==> k in Newest(keys, n)
    decreases n
  {
    hide IsTop;
    if n > 0 && keys != {} {
      TopIsIn(keys);
      NewestSelects(keys - {TopKey(keys)}, n - 1);
    }
  }

  lemma TopIsIn(keys: set<Key>)
    requires keys != {}
    ensures TopKey(keys) in keys && forall k :: k in keys && k != TopKey(keys) ==> Below(k, TopKey(keys))
  {
    hide Below;
  }

  /** They come in descending order, and every row cut off is below them. */
  lemma {:induction false} NewestOrders(keys: set<Key>, n: nat)
    ensures Descending(Newest(keys, n))
    ensures forall k, c :: k in keys && k !in Newest(keys, n) && c in Newest(keys, n) ==> Below(k, c)
    decreases n
  {
    hide Below, IsTop;
    if n > 0 && keys != {} {
      var rest := keys - {TopKey(keys)};
      TopIsIn(keys);
      NewestSelects(rest, n - 1);
      NewestOrders(rest, n - 1);
      var ks, tail := Newest(keys, n), Newest(rest, n - 1);
      assert ks == [TopKey(keys)] + tail;
      forall i, j | 0 <= i < j < |ks| ensures Below(ks[j], ks[i]) {
        assert ks[j] == tail[j - 1] && tail[j - 1] in tail;
        if i > 0 { assert Below(tail[j - 1], tail[i - 1]); }
      }
    }
  }

  // ---------------------------------------------------------------- the query

  function KeyOf(db: Db, id: string): Key
    requires id in db.notes
  {
    Key(db.notes[id].updatedAt, id)
  }

  predicate Visible(db: Db, viewer: string, id: string) {
    id in db.notes && (db.notes[id].owner == viewer || (id, viewer) in db.shares)
  }

  /** The keys of the joined rows that pass the WHERE clause. */
  function Selected(db: Db, viewer: string, bound: Option<Key>): set<Key> {
    set id | id in db.notes && Visible(db, viewer, id) && Under(KeyOf(db, id), bound) :: KeyOf(db, id)
  }

  /** One feed entry; updatedAt is the parsed instant. */
  datatype Summary = Summary(id: string, title: string, content: string, owner: string,
                             permission: Permission, isPublic: bool, updatedAt: int)

  datatype Page = Page(items: seq<Summary>, next: Option<string>)

  datatype Answer = Ok(page: Page) | BadCursor | BadRow

  /** Maps a row; None when its timestamp does not parse. */
  function MapRow(db: Db, viewer: string, k: Key): Option<Summary>
    requires k.id in db.notes && Visible(db, viewer, k.id)
  {
    var n := db.notes[k.id];
    match Timestamps.Parse(n.updatedAt)
    case None => None
    case Some(t) =>
      var permission := if n.owner == viewer then Owner else db.shares[(k.id, viewer)];
      Some(Summary(k.id, n.title, n.content, n.owner, permission, k.id in db.publicShares, t))
  }

  function MapRows(db: Db, viewer: string, ks: seq<Key>): Option<seq<Summary>>
    requires forall k :: k in ks ==> k.id in db.notes && Visible(db, viewer, k.id)
  {
    if ks == [] then Some([])
    else
      match (MapRow(db, viewer, ks[0]), MapRows(db, viewer, ks[1..]))
      case (Some(s), Some(rest)) => Some([s] + rest)
      case _ => None
  }

  /** The cursor parameter: absent and empty both mean the first page. */
  function BoundOf(cursor: Option<string>): Option<Option<Key>> {
    if cursor.None? || cursor.value == "" then Some(None)
    else
      match Cursor.Decode(cursor.value)
      case None => None
      case Some((u, i)) => Some(Some(Key(u, i)))
  }

  function Cut(rows: seq<Summary>, limit: nat): Answer
    requires limit >= 1
  {
    if |rows| > limit then
      var last := rows[limit - 1];
      if Cursor.IsAscii(last.id) then Ok(Page(rows[..limit], Some(Cursor.Encode(last.updatedAt, last.id)))) else BadRow
    else Ok(Page(rows, None))
  }

  function ListForViewer(db: Db, viewer: string, cursor: Option<string>, limit: nat): Answer
    requires limit >= 1
  {
    match BoundOf(cursor)
    case None => BadCursor
    case Some(bound) =>
      RowsAreVisible(db, viewer, bound, limit + 1);
      match MapRows(db, viewer, Newest(Selected(db, viewer, bound), limit + 1))
      case None => BadRow
      case Some(rows) => Cut(rows, limit)
  }

  lemma SelectedAreVisible(db: Db, viewer: string, bound: Option<Key>)
    ensures forall k :: k in Selected(db, viewer, bound) <==>
      k.id in db.notes && Visible(db, viewer, k.id) && k == KeyOf(db, k.id) && Under(k, bound)
  {}

  lemma RowsAreVisible(db: Db, viewer: string, bound: Option<Key>, n: nat)
    ensures forall k :: k in Newest(Selected(db, viewer, bound), n) ==>
      k.id in db.notes && Visible(db, viewer, k.id) && k == KeyOf(db, k.id) && Under(k, bound)
  {
    SelectedAreVisible(db, viewer, bound);
    hide Selected, Visible, Under;
    NewestSelects(Selected(db, viewer, bound), n);
  }

  // ---------------------------------------------------------------- what a page is

  /** A timestamp column as the Kotlin backend writes it. */
  predicate GoodStamp(s: string) {
    match Timestamps.Parse(s) case None => false case Some(t) => Timestamps.InRange(t) && Timestamps.Format(t) == s
  }

  /** Ids are generated UUIDs; every timestamp was printed by the backend. */
  predicate GoodRows(db: Db) {
    forall id :: id in db.notes ==> id != "" && Cursor.IsAscii(id) && GoodStamp(db.notes[id].updatedAt)
  }

  function ItemKey(s: Summary): Key { Key(Timestamps.Format(s.updatedAt), s.id) }

  function ItemKeys(items: seq<Summary>): seq<Key> { seq(|items|, i requires 0 <= i < |items| => ItemKey(items[i])) }

  function LastKey(items: seq<Summary>): Key
    requires items != []
  {
    ItemKey(items[|items| - 1])
  }

  /** What an item tells of its note: the stored texts, the owner, the permission the point lookup gives, whether it is public. */
  predicate Describes(db: Db, viewer: string, s: Summary) {
    && s.id in db.notes
    && s.title == db.notes[s.id].title && s.content == db.notes[s.id].content && s.owner == db.notes[s.id].owner
    && PermissionFor(db, s.id, viewer) == Some(s.permission)
    && (s.isPublic <==> s.id in db.publicShares)
  }

  lemma RowKeepsItsKey(db: Db, viewer: string, k: Key)
    requires GoodRows(db) && Visible(db, viewer, k.id) && k == KeyOf(db, k.id)
    ensures MapRow(db, viewer, k).Some? && ItemKey(MapRow(db, viewer, k).value) == k
    ensures MapRow(db, viewer, k).value.id == k.id
    ensures Describes(db, viewer, MapRow(db, viewer, k).value)
  {
    hide Timestamps.Parse, Timestamps.Format;
  }

  lemma {:induction false} RowsKeepTheirKeys(db: Db, viewer: string, ks: seq<Key>)
    requires GoodRows(db)
    requires forall k :: k in ks ==> k.id in db.notes && Visible(db, viewer, k.id) && k == KeyOf(db, k.id)
    ensures MapRows(db, viewer, ks).Some? && |MapRows(db, viewer, ks).value| == |ks|
    ensures forall i :: 0 <= i < |ks| ==>
      var s := MapRows(db, viewer, ks).value[i];
      ItemKey(s) == ks[i] && s.id == ks[i].id && Describes(db, viewer, s)
    decreases |ks|
  {
    hide MapRow, GoodRows, ItemKey, Describes, Visible;
    if ks != [] {
      RowKeepsItsKey(db, viewer, ks[0]);
      RowsKeepTheirKeys(db, viewer, ks[1..]);
    }
  }

  predicate Holds(items: seq<Summary>, k: Key) { exists i :: 0 <= i < |items| && ItemKey(items[i]) == k }

  /** The visible rows under a bound, as ids. */
  predicate Due(db: Db, viewer: string, id: string, bound: Option<Key>) {
    id in db.notes && Visible(db, viewer, id) && Under(KeyOf(db, id), bound)
  }

  /**
   * The declarative meaning of a page: rows due under the bound, newest first, each describing its note; all of them if
   * there is no next cursor, else exactly `limit`, more to come, and the cursor names the last one.
   */
  ghost predicate IsPage(db: Db, viewer: string, bound: Option<Key>, limit: nat, page: Page) {
    && Descending(ItemKeys(page.items))
    && (forall i :: 0 <= i < |page.items| ==>
          var s := page.items[i];
          Due(db, viewer, s.id, bound) && ItemKey(s) == KeyOf(db, s.id) && Describes(db, viewer, s))
    && (page.next.None? ==> |page.items| <= limit && forall id :: Due(db, viewer, id, bound) ==> Holds(page.items, KeyOf(db, id)))
    && (page.next.Some? ==>
          && |page.items| == limit > 0
          && BoundOf(page.next) == Some(Some(LastKey(page.items)))
          && (forall id :: Due(db, viewer, id, bound) ==> Holds(page.items, KeyOf(db, id)) || Below(KeyOf(db, id), LastKey(page.items)))
          && (exists id :: Due(db, viewer, id, bound) && Below(KeyOf(db, id), LastKey(page.items))))
  }

  lemma EncodedCursorIsABound(s: Summary)
    requires Cursor.IsAscii(s.id) && s.id != ""
    ensures BoundOf(Some(Cursor.Encode(s.updatedAt, s.id))) == Some(Some(ItemKey(s)))
  {
    hide Timestamps.Format, Cursor.EncodeBytes, Cursor.Decode, Cursor.BytesOf;
    Cursor.CursorRoundTrip(s.updatedAt, s.id);
    var e := Cursor.Encode(s.updatedAt, s.id);
    assert |e| > 0;
  }

  /** The mapped rows of the selected keys, in order. */
  ghost predicate Rows(db: Db, viewer: string, bound: Option<Key>, ks: seq<Key>, rows: seq<Summary>) {
    && |rows| == |ks|
    && forall i :: 0 <= i < |ks| ==>
         && ItemKey(rows[i]) == ks[i] && rows[i].id == ks[i].id
         && Due(db, viewer, ks[i].id, bound) && ks[i] == KeyOf(db, ks[i].id)
         && Describes(db, viewer, rows[i])
  }

  lemma WholeIsPage(db: Db, viewer: string, bound: Option<Key>, limit: nat, ks: seq<Key>, rows: seq<Summary>)
    requires Rows(db, viewer, bound, ks, rows) && Descending(ks) && |rows| <= limit
    requires forall id :: Due(db, viewer, id, bound) ==> KeyOf(db, id) in ks
    ensures IsPage(db, viewer, bound, limit, Page(rows, None))
  {
    hide Visible, Under, ItemKey, KeyOf, Describes, BoundOf, Below;
    assert ItemKeys(rows) == ks;
    forall id | Due(db, viewer, id, bound) ensures Holds(rows, KeyOf(db, id)) {
      var i :| 0 <= i < |ks| && ks[i] == KeyOf(db, id);
      assert ItemKey(rows[i]) == KeyOf(db, id);
    }
  }

  lemma CutIsPage(db: Db, viewer: string, bound: Option<Key>, limit: nat, ks: seq<Key>, rows: seq<Summary>, next: string)
    requires Rows(db, viewer, bound, ks, rows) && Descending(ks) && |rows| == limit + 1 > 1
    requires forall id :: Due(db, viewer, id, bound) ==> KeyOf(db, id) in ks || Below(KeyOf(db, id), ks[limit - 1])
    requires BoundOf(Some(next)) == Some(Some(ItemKey(rows[limit - 1])))
    ensures IsPage(db, viewer, bound, limit, Page(rows[..limit], Some(next)))
  {
    hide Visible, Under, ItemKey, KeyOf, Describes, BoundOf, Below;
    var items := rows[..limit];
    assert ItemKeys(items) == ks[..limit];
    assert LastKey(items) == ks[limit - 1];
    forall id | Due(db, viewer, id, bound) ensures Holds(items, KeyOf(db, id)) || Below(KeyOf(db, id), LastKey(items)) {
      if KeyOf(db, id) in ks {
        var i :| 0 <= i < |ks| && ks[i] == KeyOf(db, id);
        if i < limit { assert ItemKey(items[i]) == KeyOf(db, id); }
      }
    }
    assert Due(db, viewer, ks[limit].id, bound) && Below(KeyOf(db, ks[limit].id), LastKey(items));
  }

  /** What the SELECT returns before the page is cut. */
  lemma SelectedRows(db: Db, viewer: string, bound: Option<Key>, n: nat)
    requires GoodRows(db)
    ensures var ks := Newest(Selected(db, viewer, bound), n);
      && (forall k :: k in ks ==> k.id in db.notes && Visible(db, viewer, k.id))
      && MapRows(db, viewer, ks).Some? && Rows(db, viewer, bound, ks, MapRows(db, viewer, ks).value)
      && Descending(ks) && |ks| <= n
      && (forall id, c :: Due(db, viewer, id, bound) && c in ks ==> KeyOf(db, id) in ks || Below(KeyOf(db, id), c))
      && (|ks| < n ==> forall id :: Due(db, viewer, id, bound) ==> KeyOf(db, id) in ks)
  {
    hide MapRow, GoodStamp, ItemKey, Describes, Visible, Below, Selected, Under, KeyOf;
    var keys := Selected(db, viewer, bound);
    SelectedAreVisible(db, viewer, bound);
    RowsAreVisible(db, viewer, bound, n);
    NewestSelects(keys, n);
    NewestOrders(keys, n);
    RowsKeepTheirKeys(db, viewer, Newest(keys, n));
    KeysKnowTheirIds(db);
  }

  lemma RowIdsAreGood(db: Db, viewer: string, bound: Option<Key>, ks: seq<Key>, rows: seq<Summary>)
    requires GoodRows(db) && Rows(db, viewer, bound, ks, rows)
    ensures forall i :: 0 <= i < |rows| ==> Cursor.IsAscii(rows[i].id) && rows[i].id != ""
  {
    hide GoodStamp, ItemKey, Describes, Visible, Under, Cursor.IsAscii;
    forall i | 0 <= i < |rows| ensures Cursor.IsAscii(rows[i].id) && rows[i].id != "" {
      assert Due(db, viewer, ks[i].id, bound);
    }
  }

  /** A cursor that cannot be read is refused as such, and no other is, whatever the tables hold. */
  lemma UnknownCursorIsRefused(db: Db, viewer: string, cursor: Option<string>, limit: nat)
    requires limit >= 1
    ensures ListForViewer(db, viewer, cursor, limit) == BadCursor <==> BoundOf(cursor).None?
    ensures BoundOf(cursor).None? <==> cursor.Some? && cursor.value != "" && Cursor.Decode(cursor.value).None?
  {
    hide MapRows, Selected, Newest, Cursor.Decode, Cursor.Encode;
  }

  /** The query answers every known cursor with exactly the page it should. */
  lemma QueryAnswersPages(db: Db, viewer: string, cursor: Option<string>, limit: nat)
    requires GoodRows(db) && limit >= 1 && BoundOf(cursor).Some?
    ensures var a := ListForViewer(db, viewer, cursor, limit);
      a.Ok? && IsPage(db, viewer, BoundOf(cursor).value, limit, a.page)
  {
    hide GoodRows, MapRows, ItemKey, Describes, Below, BoundOf, Selected, KeyOf, IsPage, Newest, Descending;
    var bound := BoundOf(cursor).value;
    SelectedRows(db, viewer, bound, limit + 1);
    var ks := Newest(Selected(db, viewer, bound), limit + 1);
    var rows := MapRows(db, viewer, ks).value;
    RowIdsAreGood(db, viewer, bound, ks, rows);
    if |rows| > limit {
      var last := rows[limit - 1];
      EncodedCursorIsABound(last);
      CutIsPage(db, viewer, bound, limit, ks, rows, Cursor.Encode(last.updatedAt, last.id));
    } else {
      WholeIsPage(db, viewer, bound, limit, ks, rows);
    }
  }

  lemma KeysKnowTheirIds(db: Db)
    ensures forall id :: id in db.notes ==> KeyOf(db, id).id == id
  {}

  lemma JoinDescends(a: seq<Summary>, b: seq<Summary>)
    requires Descending(ItemKeys(a)) && Descending(ItemKeys(b))
    requires forall i, j :: 0 <= i < |a| && 0 <= j < |b| ==> Below(ItemKey(b[j]), ItemKey(a[i]))
    ensures Descending(ItemKeys(a + b))
  {
    hide Below, ItemKey;
    var ks := ItemKeys(a + b);
    forall i, j | 0 <= i < j < |ks| ensures Below(ks[j], ks[i]) {
      if j < |a| {
        assert Below(ItemKeys(a)[j], ItemKeys(a)[i]);
      } else if i >= |a| {
        assert Below(ItemKeys(b)[j - |a|], ItemKeys(b)[i - |a|]);
      }
    }
  }
}
