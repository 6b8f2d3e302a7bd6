/** The three tables of the desktop store (linux/core/src/db) and the statements that change them.
    A table is a value here; DesktopStore.Store updates one in place, a statement at a time. */
module Tables {
  import opened Wrappers
  import opened SqlTime

  datatype Feed = Feed(
    url: string,
    title: string,
    etag: Option<string>,
    lastModified: Option<string>,
    lastError: Option<string>,
    errorCount: int,
    nextPollAt: Stamp)

  datatype NewArticle = NewArticle(
    guid: string,
    title: string,
    url: Option<string>,
    content: Option<string>,
    published: Option<Instant>)

  datatype Article = Article(
    id: nat,
    feedId: int,
    guid: string,
    title: string,
    url: Option<string>,
    content: Option<string>,
    published: Option<Stamp>,
    isRead: bool)

  /** Article rows are kept in row-id order, so the last one has the largest id. */
  datatype Db = Db(feeds: map<int, Feed>, articles: seq<Article>, tombs: set<(int, string)>)

  datatype DbError = UniqueUrl | ForeignKey

  // ----- What the schema promises -----------------------------------------

  predicate IdsAscend(rows: seq<Article>) {
    forall i, j :: 0 <= i < j < |rows| ==> rows[i].id < rows[j].id
  }

  ghost predicate KeysUnique(rows: seq<Article>) {
    forall x, y :: x in rows && y in rows && x.feedId == y.feedId && x.guid == y.guid ==> x == y
  }

  ghost predicate UrlsUnique(feeds: map<int, Feed>) {
    forall a, b :: a in feeds && b in feeds && feeds[a].url == feeds[b].url ==> a == b
  }

  /** UNIQUE(feed_id, guid), UNIQUE(url), both foreign keys, and that no guid is
      at once stored and deleted. */
  ghost predicate Integrity(db: Db) {
    && IdsAscend(db.articles)
    && KeysUnique(db.articles)
    && UrlsUnique(db.feeds)
    && (forall a :: a in db.articles ==> a.id >= 1 && a.feedId in db.feeds && (a.feedId, a.guid) !in db.tombs)
    && (forall t :: t in db.tombs ==> t.0 in db.feeds)
  }

  predicate IsStored(rows: seq<Article>, feedId: int, guid: string) {
    exists i :: 0 <= i < |rows| && rows[i].feedId == feedId && rows[i].guid == guid
  }

  /** The guids of a feed that a poll must not report again: stored or deleted by the user. */
  ghost function Known(db: Db, feedId: int): set<string> {
    ArticleGuids(db.articles, feedId) + TombGuids(db.tombs, feedId)
  }

  function ArticleGuids(rows: seq<Article>, feedId: int): set<string> {
    set a | a in rows && a.feedId == feedId :: a.guid
  }

  function TombGuids(tombs: set<(int, string)>, feedId: int): set<string> {
    set t | t in tombs && t.0 == feedId :: t.1
  }

  lemma KnownMeans(db: Db, feedId: int, guid: string)
    ensures guid in Known(db, feedId) <==> IsStored(db.articles, feedId, guid) || (feedId, guid) in db.tombs
  {
    if IsStored(db.articles, feedId, guid) {
      var i :| 0 <= i < |db.articles| && db.articles[i].feedId == feedId && db.articles[i].guid == guid;
      assert db.articles[i] in db.articles;
    }
    if (feedId, guid) in db.tombs {
      assert (feedId, guid).0 == feedId;
    }
  }

  // ----- Inserting --------------------------------------------------------

  function Guids(items: seq<NewArticle>): set<string> {
    set x | x in items :: x.guid
  }

  lemma GuidsSnoc(items: seq<NewArticle>)
    requires items != []
    ensures Guids(items) == Guids(items[..|items| - 1]) + {items[|items| - 1].guid}
  {
    assert items == items[..|items| - 1] + [items[|items| - 1]];
  }

  /** The items a poll adds: of each guid not in `known`, the first occurrence, in order. */
  function Fresh(known: set<string>, items: seq<NewArticle>): (r: seq<NewArticle>)
    ensures |r| <= |items|
  {
    if items == [] then [] else
      var init, last := items[..|items| - 1], items[|items| - 1];
      Fresh(known, init) + (if last.guid in known || last.guid in Guids(init) then [] else [last])
  }

  function NextRowId(rows: seq<Article>): nat {
    if rows == [] then 1 else rows[|rows| - 1].id + 1
  }

  function NewRow(id: nat, feedId: int, item: NewArticle): Article {
    Article(id, feedId, item.guid, item.title, item.url, item.content,
            if item.published.Some? then Some(Stamp(item.published.value)) else None, false)
  }

  function NewRows(next: nat, feedId: int, items: seq<NewArticle>): seq<Article> {
    seq(|items|, i requires 0 <= i < |items| => NewRow(next + i, feedId, items[i]))
  }

  function NewIds(next: nat, count: nat): seq<nat> {
    seq(count, i requires 0 <= i < count => next + i)
  }

  /** The store after a poll of `feedId` brought `items`. */
  ghost function Inserted(db: Db, feedId: int, items: seq<NewArticle>): Db {
    db.(articles := db.articles + NewRows(NextRowId(db.articles), feedId, Fresh(Known(db, feedId), items)))
  }

  /** The ids insert_new_articles returns. */
  ghost function InsertedIds(db: Db, feedId: int, items: seq<NewArticle>): seq<nat> {
    NewIds(NextRowId(db.articles), |Fresh(Known(db, feedId), items)|)
  }

  /** The transaction fails, on the foreign key, when the feed is gone and a row would be added. */
  ghost predicate InsertFails(db: Db, feedId: int, items: seq<NewArticle>) {
    feedId !in db.feeds && Fresh(Known(db, feedId), items) != []
  }

  lemma {:induction false} FreshSound(known: set<string>, items: seq<NewArticle>)
    ensures Guids(Fresh(known, items)) == Guids(items) - known
    ensures forall x :: x in Fresh(known, items) ==> x in items
    ensures forall i, j :: 0 <= i < j < |Fresh(known, items)| ==>
              Fresh(known, items)[i].guid != Fresh(known, items)[j].guid
  {
    if items != [] {
      var init, last := items[..|items| - 1], items[|items| - 1];
      FreshSound(known, init);
      assert items == init + [last];
      assert Guids(items) == Guids(init) + {last.guid};
      var kept := Fresh(known, init);
      if !(last.guid in known || last.guid in Guids(init)) {
        assert Guids(kept + [last]) == Guids(kept) + {last.guid};
        forall i | 0 <= i < |kept|
          ensures kept[i].guid != last.guid
        {
          assert kept[i] in kept;
          assert kept[i].guid in Guids(kept);
        }
      } else {
        assert Fresh(known, items) == kept;
      }
    }
  }

  /** Item `i` opens its guid: neither table has the guid and no earlier item of the batch carries it. */
  ghost predicate FirstAt(known: set<string>, items: seq<NewArticle>, i: nat)
    requires i < |items|
  {
    items[i].guid !in known && forall j :: 0 <= j < i ==> items[j].guid != items[i].guid
  }

  lemma FirstAtPrefix(known: set<string>, items: seq<NewArticle>, n: nat, i: nat)
    requires i < n <= |items|
    ensures FirstAt(known, items[..n], i) == FirstAt(known, items, i)
  {
    assert forall j :: 0 <= j < n ==> items[..n][j] == items[j];
  }

  lemma GuidAmong(items: seq<NewArticle>, guid: string)
    ensures guid in Guids(items) <==> exists j :: 0 <= j < |items| && items[j].guid == guid
  {
    if j :| 0 <= j < |items| && items[j].guid == guid {
      assert items[j] in items;
    }
  }

  lemma FirstAtMeans(known: set<string>, items: seq<NewArticle>, n: nat)
    requires n < |items|
    ensures FirstAt(known, items, n) <==> items[n].guid !in known && items[n].guid !in Guids(items[..n])
  {
    GuidAmong(items[..n], items[n].guid);
  }

  /** The positions of the first occurrences, in order. */
  ghost function Openers(known: set<string>, items: seq<NewArticle>): (r: seq<nat>)
    ensures forall k :: 0 <= k < |r| ==> r[k] < |items|
    ensures forall k, l :: 0 <= k < l < |r| ==> r[k] < r[l]
  {
    if items == [] then [] else
      var n := |items| - 1;
      Openers(known, items[..n]) + if FirstAt(known, items, n) then [n] else []
  }

  lemma {:induction false} OpenersAreFirst(known: set<string>, items: seq<NewArticle>, i: nat)
    requires i < |items|
    ensures i in Openers(known, items) <==> FirstAt(known, items, i)
  {
    var n := |items| - 1;
    if i < n {
      FirstAtPrefix(known, items, n, i);
      OpenersAreFirst(known, items[..n], i);
    }
  }

  /** Which items those are, position by position: the ones at `Openers`, in order, and these
      are exactly the positions that open their guid (OpenersAreFirst). */
  lemma {:induction false} FreshIsFirstOccurrences(known: set<string>, items: seq<NewArticle>)
    ensures |Fresh(known, items)| == |Openers(known, items)|
    ensures forall k :: 0 <= k < |Openers(known, items)| ==>
              Fresh(known, items)[k] == items[Openers(known, items)[k]]
  {
    if items != [] {
      var n := |items| - 1;
      FreshIsFirstOccurrences(known, items[..n]);
      FirstAtMeans(known, items, n);
    }
  }

  lemma {:induction false} FreshGrows(known: set<string>, items: seq<NewArticle>, i: nat)
    requires i <= |items|
    ensures |Fresh(known, items[..i])| <= |Fresh(known, items)|
    decreases |items|
  {
    if i < |items| {
      var n := |items| - 1;
      FreshGrows(known, items[..n], i);
      assert items[..n][..i] == items[..i];
    } else {
      assert items[..i] == items;
    }
  }

  lemma NoGuidsNoItems(items: seq<NewArticle>)
    requires Guids(items) == {}
    ensures items == []
  {
    assert |items| > 0 ==> items[0].guid in Guids(items);
  }

  /** Polling the same document again adds nothing. */
  lemma SecondInsertAddsNothing(db: Db, feedId: int, items: seq<NewArticle>)
    ensures Inserted(Inserted(db, feedId, items), feedId, items) == Inserted(db, feedId, items)
    ensures InsertedIds(Inserted(db, feedId, items), feedId, items) == []
  {
    var db1 := Inserted(db, feedId, items);
    InsertedIsKnown(db, feedId, items);
    FreshSound(Known(db1, feedId), items);
    var again := Fresh(Known(db1, feedId), items);
    NoGuidsNoItems(again);
    NothingFreshInserts(db1, feedId, items);
  }

  lemma ArticleGuidsConcat(a: seq<Article>, b: seq<Article>, feedId: int)
    ensures ArticleGuids(a + b, feedId) == ArticleGuids(a, feedId) + ArticleGuids(b, feedId)
  {
    assert forall x :: x in a + b <==> x in a || x in b;
  }

  lemma NewRowsGuids(next: nat, feedId: int, items: seq<NewArticle>, f: int)
    ensures ArticleGuids(NewRows(next, feedId, items), f) == if f == feedId then Guids(items) else {}
  {
    var rows := NewRows(next, feedId, items);
    forall g | g in Guids(items) && f == feedId
      ensures g in ArticleGuids(rows, f)
    {
      var i :| 0 <= i < |items| && items[i].guid == g;
      assert rows[i] in rows;
    }
    forall a | a in rows
      ensures a.feedId == feedId && a.guid in Guids(items)
    {
      var i :| 0 <= i < |items| && rows[i] == a;
      assert items[i] in items;
    }
  }

  /** After the insert every guid of the document is known, and nothing else became known. */
  lemma InsertedIsKnown(db: Db, feedId: int, items: seq<NewArticle>)
    ensures Known(Inserted(db, feedId, items), feedId) == Known(db, feedId) + Guids(items)
    ensures forall f :: f != feedId ==> Known(Inserted(db, feedId, items), f) == Known(db, f)
  {
    var added := Fresh(Known(db, feedId), items);
    var next := NextRowId(db.articles);
    FreshSound(Known(db, feedId), items);
    forall f
      ensures Known(Inserted(db, feedId, items), f) == Known(db, f) + if f == feedId then Guids(items) else {}
    {
      ArticleGuidsConcat(db.articles, NewRows(next, feedId, added), f);
      NewRowsGuids(next, feedId, added, f);
    }
  }

  /** A row added by the insert carries a guid that neither table had. */
  lemma AddedRowIsNew(db: Db, feedId: int, items: seq<NewArticle>, a: Article)
    requires a in NewRows(NextRowId(db.articles), feedId, Fresh(Known(db, feedId), items))
    ensures a.id >= NextRowId(db.articles) && a.feedId == feedId && a.guid !in Known(db, feedId) && !a.isRead
    ensures !IsStored(db.articles, feedId, a.guid) && (feedId, a.guid) !in db.tombs
  {
    var added := Fresh(Known(db, feedId), items);
    FreshSound(Known(db, feedId), items);
    var i :| 0 <= i < |added| && a == NewRow(NextRowId(db.articles) + i, feedId, added[i]);
    assert added[i] in added;
    assert added[i].guid in Guids(added);
    KnownMeans(db, feedId, a.guid);
  }

  lemma KeysUniqueConcat(a: seq<Article>, b: seq<Article>)
    requires KeysUnique(a) && KeysUnique(b)
    requires forall x, y :: x in a && y in b ==> x.feedId != y.feedId || x.guid != y.guid
    ensures KeysUnique(a + b)
  {
    assert forall x :: x in a + b <==> x in a || x in b;
  }

  lemma NewRowsKeysUnique(next: nat, feedId: int, items: seq<NewArticle>)
    requires forall i, j :: 0 <= i < j < |items| ==> items[i].guid != items[j].guid
    ensures KeysUnique(NewRows(next, feedId, items))
  {
    var rows := NewRows(next, feedId, items);
    forall x, y | x in rows && y in rows && x.guid == y.guid
      ensures x == y
    {
      var i :| 0 <= i < |rows| && rows[i] == x;
      var j :| 0 <= j < |rows| && rows[j] == y;
      assert items[i].guid == items[j].guid;
      assert i == j;
    }
  }

  lemma AddedKeysUnique(db: Db, feedId: int, items: seq<NewArticle>)
    requires KeysUnique(db.articles)
    ensures KeysUnique(Inserted(db, feedId, items).articles)
  {
    var added := Fresh(Known(db, feedId), items);
    var rows := NewRows(NextRowId(db.articles), feedId, added);
    FreshSound(Known(db, feedId), items);
    NewRowsKeysUnique(NextRowId(db.articles), feedId, added);
    forall x, y | x in db.articles && y in rows
      ensures x.feedId != y.feedId || x.guid != y.guid
    {
      AddedRowIsNew(db, feedId, items, y);
      assert x.feedId == feedId ==> x.guid in Known(db, feedId);
    }
    KeysUniqueConcat(db.articles, rows);
  }

  lemma AddedIdsAscend(rows: seq<Article>, feedId: int, items: seq<NewArticle>)
    requires IdsAscend(rows)
    ensures IdsAscend(rows + NewRows(NextRowId(rows), feedId, items))
  {
  }

  /** The insert keeps the schema's promises. */
  lemma InsertedIntegrity(db: Db, feedId: int, items: seq<NewArticle>)
    requires Integrity(db) && feedId in db.feeds
    ensures Integrity(Inserted(db, feedId, items))
  {
    var added := Fresh(Known(db, feedId), items);
    var rows := NewRows(NextRowId(db.articles), feedId, added);
    AddedKeysUnique(db, feedId, items);
    AddedIdsAscend(db.articles, feedId, added);
    forall a | a in db.articles + rows
      ensures a.id >= 1 && a.feedId in db.feeds && (a.feedId, a.guid) !in db.tombs
    {
      if a in rows {
        AddedRowIsNew(db, feedId, items, a);
        if db.articles != [] {
          assert db.articles[|db.articles| - 1] in db.articles;
        }
      }
    }
  }

  lemma NothingFreshInserts(db: Db, feedId: int, items: seq<NewArticle>)
    requires Fresh(Known(db, feedId), items) == []
    ensures Inserted(db, feedId, items) == db
  {
    assert db.articles + [] == db.articles;
  }

  // ----- Deleting and marking ---------------------------------------------

  function Filter<T(!new)>(s: seq<T>, p: T -> bool): (r: seq<T>)
    ensures forall x :: x in r <==> x in s && p(x)
  {
    if s == [] then [] else
      var n := |s| - 1;
      assert s == s[..n] + [s[n]];
      Filter(s[..n], p) + (if p(s[n]) then [s[n]] else [])
  }

  lemma {:induction false} FilterAscends(rows: seq<Article>, p: Article -> bool)
    requires IdsAscend(rows)
    ensures IdsAscend(Filter(rows, p))
  {
    if rows != [] {
      var n := |rows| - 1;
      FilterAscends(rows[..n], p);
      var kept := Filter(rows[..n], p);
      forall i | 0 <= i < |kept|
        ensures kept[i].id < rows[n].id
      {
        assert kept[i] in rows[..n];
      }
    }
  }

  function Keys(rows: seq<Article>): set<(int, string)> {
    set a | a in rows :: (a.feedId, a.guid)
  }

  /** The rows that satisfy `p` go, and their guids are remembered. */
  function Buried(db: Db, p: Article -> bool): Db {
    db.(articles := Filter(db.articles, (a: Article) => !p(a)), tombs := db.tombs + Keys(Filter(db.articles, p)))
  }

  function DeletedArticle(db: Db, id: nat): Db {
    Buried(db, (a: Article) => a.id == id)
  }

  function ClearedFeed(db: Db, feedId: int): Db {
    Buried(db, (a: Article) => a.feedId == feedId)
  }

  function Marked(rows: seq<Article>, p: Article -> bool, read: bool): seq<Article> {
    seq(|rows|, i requires 0 <= i < |rows| => if p(rows[i]) then rows[i].(isRead := read) else rows[i])
  }

  function MarkedDb(db: Db, p: Article -> bool, read: bool): Db {
    db.(articles := Marked(db.articles, p, read))
  }

  /** Deleting moves guids from one table to the other: what is known of every feed stays the same. */
  lemma BuriedKeepsKnown(db: Db, p: Article -> bool, feedId: int)
    ensures Known(Buried(db, p), feedId) == Known(db, feedId)
  {
    var db1 := Buried(db, p);
    forall g | g in Known(db, feedId)
      ensures g in Known(db1, feedId)
    {
      if a :| a in db.articles && a.feedId == feedId && a.guid == g {
        if p(a) {
          assert a in Filter(db.articles, p);
          assert (feedId, g) in db1.tombs;
        } else {
          assert a in db1.articles;
        }
      } else {
        var t :| t in db.tombs && t.0 == feedId && t.1 == g;
        assert t in db1.tombs;
      }
    }
    forall g | g in Known(db1, feedId)
      ensures g in Known(db, feedId)
    {
      if a :| a in db1.articles && a.feedId == feedId && a.guid == g {
        assert a in db.articles;
      } else {
        var t :| t in db1.tombs && t.0 == feedId && t.1 == g;
        if t !in db.tombs {
          var a :| a in Filter(db.articles, p) && (a.feedId, a.guid) == t;
          assert a in db.articles && a.feedId == feedId;
        }
      }
    }
  }

  /** A deleted article is gone from the one table and present in the other; every other row stays. */
  lemma BuriedMoves(db: Db, p: Article -> bool)
    ensures forall a :: a in Buried(db, p).articles <==> a in db.articles && !p(a)
    ensures forall a :: a in db.articles && p(a) ==> (a.feedId, a.guid) in Buried(db, p).tombs
    ensures forall t :: t in Buried(db, p).tombs ==>
              t in db.tombs || exists a :: a in db.articles && p(a) && t == (a.feedId, a.guid)
  {
    forall a | a in db.articles && p(a)
      ensures (a.feedId, a.guid) in Buried(db, p).tombs
    {
      assert a in Filter(db.articles, p);
    }
  }

  lemma BuriedIntegrity(db: Db, p: Article -> bool)
    requires Integrity(db)
    ensures Integrity(Buried(db, p))
  {
    FilterAscends(db.articles, (a: Article) => !p(a));
    var db1 := Buried(db, p);
    forall a | a in db1.articles
      ensures (a.feedId, a.guid) !in db1.tombs
    {
      assert forall b :: b in Filter(db.articles, p) ==> b in db.articles && b != a;
    }
  }

  lemma IdsDistinct(rows: seq<Article>, i: nat, j: nat)
    requires IdsAscend(rows) && i < |rows| && j < |rows| && rows[i].id == rows[j].id
    ensures i == j
  {
  }

  lemma MarkedFrom(rows: seq<Article>, p: Article -> bool, read: bool, a: Article) returns (i: nat)
    requires a in Marked(rows, p, read)
    ensures i < |rows| && a == Marked(rows, p, read)[i] && rows[i] in rows
    ensures a.id == rows[i].id && a.feedId == rows[i].feedId && a.guid == rows[i].guid
  {
    i :| 0 <= i < |rows| && a == Marked(rows, p, read)[i];
  }

  lemma MarkedKeepsGuids(rows: seq<Article>, p: Article -> bool, read: bool, feedId: int)
    ensures ArticleGuids(Marked(rows, p, read), feedId) == ArticleGuids(rows, feedId)
  {
    var rows1 := Marked(rows, p, read);
    forall g | g in ArticleGuids(rows, feedId)
      ensures g in ArticleGuids(rows1, feedId)
    {
      var i :| 0 <= i < |rows| && rows[i].feedId == feedId && rows[i].guid == g;
      assert rows1[i] in rows1;
    }
    forall a | a in rows1
      ensures a.feedId == feedId ==> a.guid in ArticleGuids(rows, feedId)
    {
      var i := MarkedFrom(rows, p, read, a);
    }
  }

  /** Marking read or unread changes no guid, no key and no id. */
  lemma MarkedIntegrity(db: Db, p: Article -> bool, read: bool)
    requires Integrity(db)
    ensures Integrity(MarkedDb(db, p, read))
    ensures forall f :: Known(MarkedDb(db, p, read), f) == Known(db, f)
  {
    var rows := Marked(db.articles, p, read);
    forall a | a in rows
      ensures a.id >= 1 && a.feedId in db.feeds && (a.feedId, a.guid) !in db.tombs
    {
      var i := MarkedFrom(db.articles, p, read, a);
    }
    forall x, y | x in rows && y in rows && x.feedId == y.feedId && x.guid == y.guid
      ensures x == y
    {
      var i := MarkedFrom(db.articles, p, read, x);
      var j := MarkedFrom(db.articles, p, read, y);
      IdsDistinct(db.articles, i, j);
    }
    forall f
      ensures Known(MarkedDb(db, p, read), f) == Known(db, f)
    {
      MarkedKeepsGuids(db.articles, p, read, f);
    }
  }

  // ----- Feeds ------------------------------------------------------------

  function BlankFeed(url: string, title: string, now: Instant): Feed {
    Feed(url, title, None, None, None, 0, Stamp(now))
  }

  function Subscribed(db: Db, id: int, url: string, title: string, now: Instant): Db {
    db.(feeds := db.feeds[id := BlankFeed(url, title, now)])
  }

  predicate UrlTaken(feeds: map<int, Feed>, url: string) {
    exists id :: id in feeds && feeds[id].url == url
  }

  /** DELETE FROM feeds with both ON DELETE CASCADE clauses. */
  function Unsubscribed(db: Db, id: int): Db {
    Db(db.feeds - {id}, Filter(db.articles, (a: Article) => a.feedId != id), set t | t in db.tombs && t.0 != id)
  }

  /** UPDATE feeds ... WHERE id = ?1: a missing id changes nothing. */
  function WithFeed(db: Db, id: int, f: Feed -> Feed): Db {
    if id in db.feeds then db.(feeds := db.feeds[id := f(db.feeds[id])]) else db
  }

  function Succeeded(f: Feed, etag: Option<string>, lastModified: Option<string>, next: Instant): Feed {
    f.(etag := etag, lastModified := lastModified, lastError := None, errorCount := 0, nextPollAt := Stamp(next))
  }

  function Rescheduled(f: Feed, next: Instant): Feed {
    f.(lastError := None, errorCount := 0, nextPollAt := Stamp(next))
  }

  function Failed(f: Feed, error: string, count: int, next: Instant): Feed {
    f.(lastError := Some(error), errorCount := count, nextPollAt := Stamp(next))
  }

  lemma SubscribedIntegrity(db: Db, id: int, url: string, title: string, now: Instant)
    requires Integrity(db) && id !in db.feeds && !UrlTaken(db.feeds, url)
    ensures Integrity(Subscribed(db, id, url, title, now))
    ensures Known(Subscribed(db, id, url, title, now), id) == {}
  {
    var db1 := Subscribed(db, id, url, title, now);
    forall a, b | a in db1.feeds && b in db1.feeds && db1.feeds[a].url == db1.feeds[b].url
      ensures a == b
    {
    }
  }

  lemma UnsubscribedIntegrity(db: Db, id: int)
    requires Integrity(db)
    ensures Integrity(Unsubscribed(db, id))
    ensures forall f :: f != id ==> Known(Unsubscribed(db, id), f) == Known(db, f)
    ensures Known(Unsubscribed(db, id), id) == {}
  {
    var db1 := Unsubscribed(db, id);
    FilterAscends(db.articles, (a: Article) => a.feedId != id);
    forall f | f != id
      ensures Known(db1, f) == Known(db, f)
    {
      assert forall a :: a in db.articles && a.feedId == f ==> a in db1.articles;
      assert forall t :: t in db.tombs && t.0 == f ==> t in db1.tombs;
    }
  }

  lemma WithFeedIntegrity(db: Db, id: int, f: Feed -> Feed)
    requires Integrity(db)
    requires id in db.feeds ==> f(db.feeds[id]).url == db.feeds[id].url
    ensures Integrity(WithFeed(db, id, f))
  {
    var db1 := WithFeed(db, id, f);
    forall a, b | a in db1.feeds && b in db1.feeds && db1.feeds[a].url == db1.feeds[b].url
      ensures a == b
    {
      assert a in db.feeds && b in db.feeds;
      assert db.feeds[a].url == db1.feeds[a].url && db.feeds[b].url == db1.feeds[b].url;
    }
  }
}
