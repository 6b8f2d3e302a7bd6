/** The desktop store as the daemon and the viewer use it: every public statement of
    linux/core/src/db/articles.rs and feeds.rs, changing the tables in place. */
module DesktopStore {
  import opened Wrappers
  import opened SqlTime
  import opened Tables

  // ----- Facts the insert loop needs --------------------------------------

  lemma NextAfterRows(rows: seq<Article>, feedId: int, items: seq<NewArticle>)
    ensures NextRowId(rows + NewRows(NextRowId(rows), feedId, items)) == NextRowId(rows) + |items|
  {
    var added := NewRows(NextRowId(rows), feedId, items);
    if items == [] {
      assert rows + added == rows;
    } else {
      assert (rows + added)[|rows + added| - 1] == added[|items| - 1];
    }
  }

  /** What the guard of the insert statement sees in the middle of the batch. */
  lemma GuardMeansFresh(db: Db, feedId: int, items: seq<NewArticle>, i: nat)
    requires i < |items|
    ensures var mid := Inserted(db, feedId, items[..i]);
            var blocked := (feedId, items[i].guid) in db.tombs || IsStored(mid.articles, feedId, items[i].guid);
            Fresh(Known(db, feedId), items[..i + 1]) ==
            Fresh(Known(db, feedId), items[..i]) + (if blocked then [] else [items[i]])
  {
    var mid := Inserted(db, feedId, items[..i]);
    InsertedIsKnown(db, feedId, items[..i]);
    KnownMeans(mid, feedId, items[i].guid);
    assert items[..i + 1][..i] == items[..i];
  }

  lemma NewRowsSnoc(rows: seq<Article>, next: nat, feedId: int, added: seq<NewArticle>, item: NewArticle)
    ensures rows + NewRows(next, feedId, added + [item]) ==
            rows + NewRows(next, feedId, added) + [NewRow(next + |added|, feedId, item)]
    ensures NewIds(next, |added + [item]|) == NewIds(next, |added|) + [next + |added|]
  {
    assert NewRows(next, feedId, added + [item]) ==
           NewRows(next, feedId, added) + [NewRow(next + |added|, feedId, item)];
  }

  /** One guarded insert extends the batch by one item: no row, or one row with the next id. */
  lemma OneMoreItem(db: Db, feedId: int, items: seq<NewArticle>, i: nat)
    requires i < |items|
    ensures var mid, then_ := Inserted(db, feedId, items[..i]), Inserted(db, feedId, items[..i + 1]);
            var ids, ids_ := InsertedIds(db, feedId, items[..i]), InsertedIds(db, feedId, items[..i + 1]);
            var next := NextRowId(mid.articles);
            if (feedId, items[i].guid) in db.tombs || IsStored(mid.articles, feedId, items[i].guid)
            then then_ == mid && ids_ == ids
            else then_ == mid.(articles := mid.articles + [NewRow(next, feedId, items[i])]) && ids_ == ids + [next]
  {
    GuardMeansFresh(db, feedId, items, i);
    var added := Fresh(Known(db, feedId), items[..i]);
    var next := NextRowId(db.articles);
    NextAfterRows(db.articles, feedId, added);
    NewRowsSnoc(db.articles, next, feedId, added, items[i]);
    assert added + [] == added;
  }

  /** The state of the insert loop before item `i`. */
  ghost predicate Halfway(db: Db, feedId: int, items: seq<NewArticle>, i: nat, tx: seq<Article>, ids: seq<nat>) {
    i <= |items| && tx == Inserted(db, feedId, items[..i]).articles && ids == InsertedIds(db, feedId, items[..i])
  }

  lemma LoopStep(db: Db, feedId: int, items: seq<NewArticle>, i: nat, tx: seq<Article>, ids: seq<nat>)
    requires i < |items| && Halfway(db, feedId, items, i, tx, ids)
    ensures if (feedId, items[i].guid) in db.tombs || IsStored(tx, feedId, items[i].guid)
            then Halfway(db, feedId, items, i + 1, tx, ids)
            else var id := NextRowId(tx);
                 Halfway(db, feedId, items, i + 1, tx + [NewRow(id, feedId, items[i])], ids + [id])
  {
    OneMoreItem(db, feedId, items, i);
  }

  /** A batch that has added a row adds rows in the end. */
  lemma AddedSoFar(db: Db, feedId: int, items: seq<NewArticle>, i: nat, tx: seq<Article>, ids: seq<nat>)
    requires Halfway(db, feedId, items, i, tx, ids) && ids != []
    ensures Fresh(Known(db, feedId), items) != []
  {
    FreshGrows(Known(db, feedId), items, i);
  }

  // ----- Counting unread rows ---------------------------------------------

  ghost function UnreadIn(rows: seq<Article>, ids: set<int>): nat {
    if rows == [] then 0 else
      var a := rows[|rows| - 1];
      UnreadIn(rows[..|rows| - 1], ids) + if !a.isRead && a.feedId in ids then 1 else 0
  }

  ghost function AllUnread(rows: seq<Article>): nat {
    if rows == [] then 0 else
      AllUnread(rows[..|rows| - 1]) + if rows[|rows| - 1].isRead then 0 else 1
  }

  ghost function SumValues(m: map<int, nat>): nat
    decreases |m|
  {
    if m == map[] then 0 else
      var k := Any(m.Keys);
      assert |(m - {k}).Keys| == |m.Keys - {k}| < |m.Keys| by { assert (m - {k}).Keys == m.Keys - {k}; }
      m[k] + SumValues(m - {k})
  }

  ghost predicate CountsUnread(rows: seq<Article>, m: map<int, nat>) {
    forall f :: f in m ==> m[f] == UnreadIn(rows, {f})
  }

  lemma {:induction false} UnreadSplits(rows: seq<Article>, ids: set<int>, k: int)
    requires k in ids
    ensures UnreadIn(rows, ids) == UnreadIn(rows, {k}) + UnreadIn(rows, ids - {k})
  {
    if rows != [] {
      UnreadSplits(rows[..|rows| - 1], ids, k);
    }
  }

  lemma {:induction false} UnreadInNone(rows: seq<Article>)
    ensures UnreadIn(rows, {}) == 0
  {
    if rows != [] {
      UnreadInNone(rows[..|rows| - 1]);
    }
  }

  lemma {:induction false} CountsSum(rows: seq<Article>, m: map<int, nat>)
    requires CountsUnread(rows, m)
    ensures SumValues(m) == UnreadIn(rows, m.Keys)
    decreases |m|
  {
    if m == map[] {
      UnreadInNone(rows);
    } else {
      var k := Any(m.Keys);
      assert (m - {k}).Keys == m.Keys - {k};
      CountsSum(rows, m - {k});
      UnreadSplits(rows, m.Keys, k);
    }
  }

  lemma {:induction false} CoveringIdsCountAll(rows: seq<Article>, ids: set<int>)
    requires forall a :: a in rows && !a.isRead ==> a.feedId in ids
    ensures UnreadIn(rows, ids) == AllUnread(rows)
  {
    if rows != [] {
      assert rows[|rows| - 1] in rows;
      CoveringIdsCountAll(rows[..|rows| - 1], ids);
    }
  }

  lemma {:induction false} PositiveMeansPresent(rows: seq<Article>, f: int)
    ensures UnreadIn(rows, {f}) > 0 <==> exists a :: a in rows && !a.isRead && a.feedId == f
  {
    if rows != [] {
      var n := |rows| - 1;
      PositiveMeansPresent(rows[..n], f);
      assert rows == rows[..n] + [rows[n]];
    }
  }

  /** total_unread is the sum of unread_counts, whose entries are positive and name stored feeds. */
  lemma TotalIsSumOfCounts(db: Db, m: map<int, nat>)
    requires Integrity(db)
    requires CountsUnread(db.articles, m)
    requires forall f :: f in m <==> UnreadIn(db.articles, {f}) > 0
    ensures SumValues(m) == AllUnread(db.articles)
    ensures forall f :: f in m ==> m[f] > 0 && f in db.feeds
  {
    CountsSum(db.articles, m);
    forall a | a in db.articles && !a.isRead
      ensures a.feedId in m.Keys
    {
      PositiveMeansPresent(db.articles, a.feedId);
    }
    CoveringIdsCountAll(db.articles, m.Keys);
    forall f | f in m
      ensures f in db.feeds
    {
      PositiveMeansPresent(db.articles, f);
    }
  }

  // ----- The store --------------------------------------------------------

  class Store {
    var feeds: map<int, Feed>
    var articles: seq<Article>
    var tombs: set<(int, string)>

    function State(): Db
      reads this
    {
      Db(feeds, articles, tombs)
    }

    constructor ()
      ensures State() == Db(map[], [], {})
    {
      feeds, articles, tombs := map[], [], {};
    }

    /** insert_feed: the new row id is one past the largest, or 1. */
    method InsertFeed(url: string, title: string, now: Instant) returns (r: Result<int, DbError>)
      modifies this
      ensures r.Err? <==> UrlTaken(old(feeds), url)
      ensures r.Err? ==> State() == old(State()) && r.error == UniqueUrl
      ensures r.Ok? ==> State() == Subscribed(old(State()), r.value, url, title, now)
      ensures r.Ok? ==> r.value >= 1 && forall k :: k in old(feeds) ==> k < r.value
      ensures r.Ok? && r.value > 1 ==> r.value - 1 in old(feeds)
    {
      if UrlTaken(feeds, url) {
        return Err(UniqueUrl);
      }
      var id, left := 1, feeds.Keys;
      while left != {}
        invariant left <= feeds.Keys && id >= 1
        invariant forall k :: k in feeds && k !in left ==> k < id
        invariant id > 1 ==> id - 1 in feeds
        decreases |left|
      {
        ghost var some := Any(left);
        assert some in left;
        var k :| k in left;
        if k >= id {
          id := k + 1;
        }
        left := left - {k};
      }
      feeds := feeds[id := BlankFeed(url, title, now)];
      return Ok(id);
    }

    /** delete_feed, with its cascades. */
    method DeleteFeed(id: int)
      modifies this
      ensures State() == Unsubscribed(old(State()), id)
      ensures feeds == old(feeds) - {id}
      ensures forall a :: a in articles <==> a in old(articles) && a.feedId != id
      ensures forall t :: t in tombs <==> t in old(tombs) && t.0 != id
    {
      feeds := feeds - {id};
      articles := Filter(articles, (a: Article) => a.feedId != id);
      tombs := set t | t in tombs && t.0 != id;
    }

    method UpdateFeedTitle(id: int, title: string)
      modifies this`feeds
      ensures State() == WithFeed(old(State()), id, (f: Feed) => f.(title := title))
    {
      if id in feeds {
        feeds := feeds[id := feeds[id].(title := title)];
      }
    }

    method UpdateFeedSuccess(id: int, etag: Option<string>, lastModified: Option<string>, next: Instant)
      modifies this`feeds
      ensures State() == WithFeed(old(State()), id, (f: Feed) => Succeeded(f, etag, lastModified, next))
    {
      if id in feeds {
        feeds := feeds[id := feeds[id].(etag := etag, lastModified := lastModified, lastError := None,
                                        errorCount := 0, nextPollAt := Stamp(next))];
      }
    }

    method Reschedule(id: int, next: Instant)
      modifies this`feeds
      ensures State() == WithFeed(old(State()), id, (f: Feed) => Rescheduled(f, next))
    {
      if id in feeds {
        feeds := feeds[id := feeds[id].(lastError := None, errorCount := 0, nextPollAt := Stamp(next))];
      }
    }

    method UpdateFeedError(id: int, error: string, count: int, next: Instant)
      modifies this`feeds
      ensures State() == WithFeed(old(State()), id, (f: Feed) => Failed(f, error, count, next))
    {
      if id in feeds {
        feeds := feeds[id := feeds[id].(lastError := Some(error), errorCount := count, nextPollAt := Stamp(next))];
      }
    }

    /** insert_new_articles: one guarded INSERT OR IGNORE per item, in one transaction. Returns the
        ids of the rows really added; an error leaves the store as it was. */
    method InsertNewArticles(feedId: int, items: seq<NewArticle>) returns (r: Result<seq<nat>, DbError>)
      modifies this`articles
      ensures r.Err? <==> InsertFails(old(State()), feedId, items)
      ensures r.Err? ==> State() == old(State()) && r.error == ForeignKey
      ensures r.Ok? ==> State() == Inserted(old(State()), feedId, items)
      ensures r.Ok? ==> r.value == InsertedIds(old(State()), feedId, items)
    {
      var tx := articles;
      var newIds: seq<nat> := [];
      ghost var db := State();
      assert items[..0] == [] && articles + NewRows(NextRowId(articles), feedId, []) == articles;
      for i := 0 to |items|
        invariant State() == db && Halfway(db, feedId, items, i, tx, newIds)
        invariant feedId !in feeds ==> newIds == []
      {
        LoopStep(db, feedId, items, i, tx, newIds);
        if (feedId, items[i].guid) !in tombs && !IsStored(tx, feedId, items[i].guid) {
          var id := NextRowId(tx);
          if feedId !in feeds {
            AddedSoFar(db, feedId, items, i + 1, tx + [NewRow(id, feedId, items[i])], newIds + [id]);
            return Err(ForeignKey);
          }
          tx := tx + [NewRow(id, feedId, items[i])];
          newIds := newIds + [id];
        }
      }
      assert items[..|items|] == items;
      articles := tx;
      return Ok(newIds);
    }

    /** delete_article: tombstone then delete, in one transaction. */
    method DeleteArticle(id: nat)
      modifies this
      ensures State() == DeletedArticle(old(State()), id) && feeds == old(feeds)
      ensures forall a :: a in articles <==> a in old(articles) && a.id != id
      ensures forall t :: t in tombs <==>
                t in old(tombs) || exists a :: a in old(articles) && a.id == id && t == (a.feedId, a.guid)
    {
      var p := (a: Article) => a.id == id;
      tombs := tombs + Keys(Filter(articles, p));
      articles := Filter(articles, (a: Article) => !p(a));
    }

    /** delete_articles_for: the same for every article of one feed. */
    method DeleteArticlesFor(feedId: int)
      modifies this
      ensures State() == ClearedFeed(old(State()), feedId) && feeds == old(feeds)
      ensures forall a :: a in articles <==> a in old(articles) && a.feedId != feedId
      ensures forall t :: t in tombs <==>
                t in old(tombs) || exists a :: a in old(articles) && a.feedId == feedId && t == (a.feedId, a.guid)
    {
      var p := (a: Article) => a.feedId == feedId;
      tombs := tombs + Keys(Filter(articles, p));
      articles := Filter(articles, (a: Article) => !p(a));
    }

    /** mark_read and mark_unread. */
    method SetRead(id: nat, read: bool)
      modifies this`articles
      ensures State() == MarkedDb(old(State()), (a: Article) => a.id == id, read)
      ensures |articles| == |old(articles)|
      ensures forall i :: 0 <= i < |articles| ==>
                articles[i] == if old(articles)[i].id == id then old(articles)[i].(isRead := read) else old(articles)[i]
    {
      articles := Marked(articles, (a: Article) => a.id == id, read);
    }

    /** mark_all_read, for one feed or for all. */
    method MarkAllRead(feedId: Option<int>)
      modifies this`articles
      ensures State() == MarkedDb(old(State()), (a: Article) => feedId == None || feedId == Some(a.feedId), true)
      ensures |articles| == |old(articles)|
      ensures forall i :: 0 <= i < |articles| ==>
                articles[i] == if feedId == None || feedId == Some(old(articles)[i].feedId)
                               then old(articles)[i].(isRead := true) else old(articles)[i]
    {
      articles := Marked(articles, (a: Article) => feedId == None || feedId == Some(a.feedId), true);
    }

    method GetArticle(id: nat) returns (r: Option<Article>)
      ensures r.Some? ==> r.value in articles && r.value.id == id
      ensures r.None? ==> forall a :: a in articles ==> a.id != id
    {
      for i := 0 to |articles|
        invariant forall j :: 0 <= j < i ==> articles[j].id != id
      {
        if articles[i].id == id {
          return Some(articles[i]);
        }
      }
      return None;
    }

    /** unread_counts: feeds with unread articles, each with its number of them. */
    method UnreadCounts() returns (m: map<int, nat>)
      ensures CountsUnread(articles, m)
      ensures forall f :: f in m <==> UnreadIn(articles, {f}) > 0
    {
      m := map[];
      for i := 0 to |articles|
        invariant CountsUnread(articles[..i], m)
        invariant forall f :: f in m <==> UnreadIn(articles[..i], {f}) > 0
      {
        assert articles[..i + 1][..i] == articles[..i];
        var a := articles[i];
        if !a.isRead {
          m := m[a.feedId := (if a.feedId in m then m[a.feedId] else 0) + 1];
        }
      }
      assert articles[..|articles|] == articles;
    }

    method TotalUnread() returns (n: nat)
      ensures n == AllUnread(articles)
    {
      n := 0;
      for i := 0 to |articles|
        invariant n == AllUnread(articles[..i])
      {
        assert articles[..i + 1][..i] == articles[..i];
        if !articles[i].isRead {
          n := n + 1;
        }
      }
      assert articles[..|articles|] == articles;
    }
  }
}
