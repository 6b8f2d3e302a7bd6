/** The second implementation of the store, android/.../data/db/Daos.kt: Room cannot guard an insert
    with the tombstones, so `insertNew` filters the batch first and `insertAll` ignores repeats. */
module AndroidStore {
  import opened Wrappers
  import opened SqlTime
  import opened Tables

  datatype FeedEntity = FeedEntity(
    url: string,
    title: string,
    etag: Option<string>,
    lastModified: Option<string>,
    lastError: Option<string>,
    errorCount: int,
    nextPollAt: Instant)

  datatype ArticleEntity = ArticleEntity(
    id: nat,
    feedId: int,
    guid: string,
    title: string,
    url: Option<string>,
    content: Option<string>,
    publishedAt: Option<Instant>,
    isRead: bool)

  function Entity(id: nat, feedId: int, item: NewArticle): ArticleEntity {
    ArticleEntity(id, feedId, item.guid, item.title, item.url, item.content, item.published, false)
  }

  predicate HasRow(rows: seq<ArticleEntity>, feedId: int, guid: string) {
    exists i :: 0 <= i < |rows| && rows[i].feedId == feedId && rows[i].guid == guid
  }

  ghost function RowGuids(rows: seq<ArticleEntity>, feedId: int): set<string> {
    set a | a in rows && a.feedId == feedId :: a.guid
  }

  function WithoutGuids(items: seq<NewArticle>, gone: set<string>): seq<NewArticle> {
    Filter(items, (x: NewArticle) => x.guid !in gone)
  }

  /** `inserted.filter { it != -1L }` of FeedRepository.pollFeed. */
  function Real(ids: seq<int>): seq<int> {
    Filter(ids, (i: int) => i != -1)
  }

  lemma HasRowMeans(rows: seq<ArticleEntity>, feedId: int, guid: string)
    ensures HasRow(rows, feedId, guid) <==> guid in RowGuids(rows, feedId)
  {
    if HasRow(rows, feedId, guid) {
      var i :| 0 <= i < |rows| && rows[i].feedId == feedId && rows[i].guid == guid;
      assert rows[i] in rows;
    }
  }

  /** The rows a batch adds. Each row of the batch uses up one id of the AUTOINCREMENT sequence, also a
      row that is ignored: item `i` gets id `next + i` or none. */
  ghost function NewEntities(next: nat, feedId: int, known: set<string>, items: seq<NewArticle>): seq<ArticleEntity> {
    if items == [] then [] else
      var n := |items| - 1;
      NewEntities(next, feedId, known, items[..n]) +
      if FirstAt(known, items, n) then [Entity(next + n, feedId, items[n])] else []
  }

  /** Row `k` holds item `k` under the id of position `at[k]`. */
  predicate Placed(rows: seq<ArticleEntity>, next: nat, feedId: int, at: seq<nat>, items: seq<NewArticle>) {
    && |rows| == |at| == |items|
    && forall k :: 0 <= k < |rows| ==> rows[k] == Entity(next + at[k], feedId, items[k])
  }

  lemma PlacedSnoc(rows: seq<ArticleEntity>, next: nat, feedId: int, at: seq<nat>, items: seq<NewArticle>, n: nat,
                   x: NewArticle)
    requires Placed(rows, next, feedId, at, items)
    ensures Placed(rows + [Entity(next + n, feedId, x)], next, feedId, at + [n], items + [x])
  {
  }

  /** These are the first occurrences of unknown guids, in order, each with the id of its position. */
  lemma {:induction false} NewEntitiesAre(next: nat, feedId: int, known: set<string>, items: seq<NewArticle>)
    ensures Placed(NewEntities(next, feedId, known, items), next, feedId, Openers(known, items), Fresh(known, items))
  {
    if items != [] {
      var n := |items| - 1;
      var rows, at := NewEntities(next, feedId, known, items[..n]), Openers(known, items[..n]);
      var added := Fresh(known, items[..n]);
      NewEntitiesAre(next, feedId, known, items[..n]);
      FirstAtMeans(known, items, n);
      PlacedSnoc(rows, next, feedId, at, added, n, items[n]);
      assert rows + [] == rows && at + [] == at && added + [] == added;
    }
  }

  lemma NewEntityIds(next: nat, feedId: int, known: set<string>, items: seq<NewArticle>)
    ensures var rows := NewEntities(next, feedId, known, items);
            && (forall k :: 0 <= k < |rows| ==> next <= rows[k].id < next + |items|)
            && (forall k, l :: 0 <= k < l < |rows| ==> rows[k].id < rows[l].id)
  {
    NewEntitiesAre(next, feedId, known, items);
  }

  lemma RowGuidsConcat(a: seq<ArticleEntity>, b: seq<ArticleEntity>, feedId: int)
    ensures RowGuids(a + b, feedId) == RowGuids(a, feedId) + RowGuids(b, feedId)
  {
    assert forall x :: x in a + b <==> x in a || x in b;
  }

  lemma RowGuidsOfOne(e: ArticleEntity)
    ensures RowGuids([e], e.feedId) == {e.guid}
  {
    assert [e][0] in [e];
  }

  lemma {:induction false} NewEntitiesGuids(next: nat, feedId: int, known: set<string>, items: seq<NewArticle>)
    ensures RowGuids(NewEntities(next, feedId, known, items), feedId) == Guids(items) - known
  {
    if items != [] {
      var n := |items| - 1;
      NewEntitiesGuids(next, feedId, known, items[..n]);
      FirstAtMeans(known, items, n);
      GuidsSnoc(items);
      if FirstAt(known, items, n) {
        var e := Entity(next + n, feedId, items[n]);
        RowGuidsConcat(NewEntities(next, feedId, known, items[..n]), [e], feedId);
        RowGuidsOfOne(e);
      } else {
        var before := NewEntities(next, feedId, known, items[..n]);
        assert before + [] == before;
      }
    }
  }

  ghost function AfterInsert(rows: seq<ArticleEntity>, next: nat, feedId: int,
                             items: seq<NewArticle>): seq<ArticleEntity> {
    rows + NewEntities(next, feedId, RowGuids(rows, feedId), items)
  }

  /** The unique index rejects an item exactly when its guid was stored or came earlier in the batch. */
  lemma IndexMeansFirst(rows: seq<ArticleEntity>, next: nat, feedId: int, items: seq<NewArticle>, i: nat)
    requires i < |items|
    ensures HasRow(AfterInsert(rows, next, feedId, items[..i]), feedId, items[i].guid) <==>
            !FirstAt(RowGuids(rows, feedId), items, i)
  {
    NewEntitiesGuids(next, feedId, RowGuids(rows, feedId), items[..i]);
    RowGuidsConcat(rows, NewEntities(next, feedId, RowGuids(rows, feedId), items[..i]), feedId);
    HasRowMeans(AfterInsert(rows, next, feedId, items[..i]), feedId, items[i].guid);
    FirstAtMeans(RowGuids(rows, feedId), items, i);
  }

  /** One more item of the batch: ignored as a repeat, or one row with the id of its position. */
  lemma OneMoreEntity(rows: seq<ArticleEntity>, next: nat, feedId: int, items: seq<NewArticle>, i: nat)
    requires i < |items|
    ensures var mid := AfterInsert(rows, next, feedId, items[..i]);
            AfterInsert(rows, next, feedId, items[..i + 1]) ==
            if HasRow(mid, feedId, items[i].guid) then mid else mid + [Entity(next + i, feedId, items[i])]
  {
    var known := RowGuids(rows, feedId);
    IndexMeansFirst(rows, next, feedId, items, i);
    var longer := items[..i + 1];
    assert longer[..i] == items[..i];
    assert FirstAt(known, longer, i) <==> FirstAt(known, items, i);
    var before := NewEntities(next, feedId, known, items[..i]);
    assert rows + (before + [Entity(next + i, feedId, items[i])]) ==
        rows + before + [Entity(next + i, feedId, items[i])];
    assert before + [] == before;
  }

  lemma RealAppends(ids: seq<int>, id: int)
    ensures Real(ids + [id]) == Real(ids) + if id == -1 then [] else [id]
  {
    assert (ids + [id])[..|ids|] == ids;
  }

  /** Filtering the batch by the tombstones first leaves the same first occurrences
      as guarding every insert with them. */
  lemma {:induction false} FilterThenInsert(stored: set<string>, gone: set<string>, items: seq<NewArticle>)
    ensures Fresh(stored, WithoutGuids(items, gone)) == Fresh(stored + gone, items)
  {
    if items != [] {
      var n := |items| - 1;
      var init, last := items[..n], items[n];
      FilterThenInsert(stored, gone, init);
      var kept := WithoutGuids(init, gone);
      assert Guids(kept) == Guids(init) - gone;
      if last.guid !in gone {
        assert WithoutGuids(items, gone) == kept + [last];
        assert (kept + [last])[..|kept|] == kept;
      } else {
        assert WithoutGuids(items, gone) == kept;
      }
    }
  }

  function RowIds(rows: seq<ArticleEntity>): (ids: seq<int>)
    ensures |ids| == |rows|
  {
    seq(|rows|, i requires 0 <= i < |rows| => rows[i].id)
  }

  /** What @Insert(IGNORE) returns for item `i`: its row's id, or -1 for a repeat. */
  ghost function IdAt(next: nat, known: set<string>, items: seq<NewArticle>, i: nat): int
    requires i < |items|
  {
    if FirstAt(known, items, i) then next + i else -1
  }

  /** The state of the insert loop before item `i`. */
  ghost predicate Halfway(stored: seq<ArticleEntity>, next: nat, feedId: int, items: seq<NewArticle>, i: nat,
                          rows: seq<ArticleEntity>, ids: seq<int>) {
    && i <= |items| && |ids| == i
    && rows == AfterInsert(stored, next, feedId, items[..i])
    && forall j :: 0 <= j < i ==> ids[j] == IdAt(next, RowGuids(stored, feedId), items, j)
  }

  lemma OneMoreRow(stored: seq<ArticleEntity>, next: nat, feedId: int, items: seq<NewArticle>, i: nat,
                   rows: seq<ArticleEntity>, ids: seq<int>)
    requires Halfway(stored, next, feedId, items, i, rows, ids) && i < |items|
    ensures HasRow(rows, feedId, items[i].guid) <==> !FirstAt(RowGuids(stored, feedId), items, i)
    ensures if HasRow(rows, feedId, items[i].guid)
            then Halfway(stored, next, feedId, items, i + 1, rows, ids + [-1])
            else Halfway(stored, next, feedId, items, i + 1, rows + [Entity(next + i, feedId, items[i])],
                         ids + [next + i])
  {
    OneMoreEntity(stored, next, feedId, items, i);
    IndexMeansFirst(stored, next, feedId, items, i);
  }

  /** Leaving out the -1 entries leaves the ids of the added rows, in order. */
  lemma {:induction false} RealAreRowIds(ids: seq<int>, next: nat, feedId: int, known: set<string>,
                                         items: seq<NewArticle>)
    requires |ids| == |items| && forall i :: 0 <= i < |ids| ==> ids[i] == IdAt(next, known, items, i)
    ensures Real(ids) == RowIds(NewEntities(next, feedId, known, items))
  {
    if items != [] {
      var n := |items| - 1;
      FirstAtMeans(known, items, n);
      RealAreRowIds(ids[..n], next, feedId, known, items[..n]);
      assert ids == ids[..n] + [ids[n]];
      RealAppends(ids[..n], ids[n]);
      var before := NewEntities(next, feedId, known, items[..n]);
      if FirstAt(known, items, n) {
        assert RowIds(before + [Entity(next + n, feedId, items[n])]) == RowIds(before) + [next + n];
      }
    }
  }

  lemma FreshOrNone(known: set<string>, items: seq<NewArticle>)
    ensures Fresh(known, items) != [] <==> exists i :: 0 <= i < |items| && FirstAt(known, items, i)
  {
    FreshIsFirstOccurrences(known, items);
    if Fresh(known, items) != [] {
      OpenersAreFirst(known, items, Openers(known, items)[0]);
    }
    if i :| 0 <= i < |items| && FirstAt(known, items, i) {
      OpenersAreFirst(known, items, i);
    }
  }

  // ----- The database file ------------------------------------------------

  /** `lastId` is AUTOINCREMENT's largest id ever given. */
  datatype Room = Room(feeds: map<int, FeedEntity>, articles: seq<ArticleEntity>, deleted: set<(int, string)>,
                       lastId: nat)

  /** The items insertNew adds: of each guid neither stored nor deleted, the first. */
  ghost function Added(d: Room, feedId: int, items: seq<NewArticle>): seq<NewArticle> {
    Fresh(RowGuids(d.articles, feedId) + TombGuids(d.deleted, feedId), items)
  }

  /** Items dropped by the tombstone filter use up no id, ignored rows do. */
  ghost function RoomInserted(d: Room, feedId: int, items: seq<NewArticle>): Room {
    var batch := WithoutGuids(items, TombGuids(d.deleted, feedId));
    d.(articles := AfterInsert(d.articles, d.lastId + 1, feedId, batch), lastId := d.lastId + |batch|)
  }

  /** IGNORE covers the unique index, not the foreign key. */
  ghost predicate RoomRefuses(d: Room, feedId: int, items: seq<NewArticle>) {
    feedId !in d.feeds && Added(d, feedId, items) != []
  }

  function WithEntity(d: Room, id: int, f: FeedEntity -> FeedEntity): Room {
    if id in d.feeds then d.(feeds := d.feeds[id := f(d.feeds[id])]) else d
  }

  function EntityKeys(rows: seq<ArticleEntity>): set<(int, string)> {
    set a | a in rows :: (a.feedId, a.guid)
  }

  function RoomBuried(d: Room, p: ArticleEntity -> bool): Room {
    d.(articles := Filter(d.articles, (a: ArticleEntity) => !p(a)),
       deleted := d.deleted + EntityKeys(Filter(d.articles, p)))
  }

  function MarkedEntities(rows: seq<ArticleEntity>, p: ArticleEntity -> bool, read: bool): seq<ArticleEntity> {
    seq(|rows|, i requires 0 <= i < |rows| => if p(rows[i]) then rows[i].(isRead := read) else rows[i])
  }

  /** FeedDao and ArticleDao over one database. */
  class RoomStore {
    var feeds: map<int, FeedEntity>
    var articles: seq<ArticleEntity>
    var deleted: set<(int, string)>
    var lastId: nat

    function State(): Room
      reads this
    {
      Room(feeds, articles, deleted, lastId)
    }

    function DeletedGuids(feedId: int): set<string>
      reads this`deleted
    {
      TombGuids(deleted, feedId)
    }

    /** Room's @Insert(IGNORE), one transaction: item by item the new row id, or -1 exactly at the repeats. */
    method InsertAll(feedId: int, items: seq<NewArticle>) returns (r: Result<seq<int>, DbError>)
      modifies this`articles, this`lastId
      ensures r.Err? <==> feedId !in feeds && Fresh(RowGuids(old(articles), feedId), items) != []
      ensures r.Err? ==> State() == old(State())
      ensures r.Ok? ==> articles == AfterInsert(old(articles), old(lastId) + 1, feedId, items)
      ensures r.Ok? ==> lastId == old(lastId) + |items|
      ensures r.Ok? ==> |r.value| == |items|
      ensures r.Ok? ==> forall i :: 0 <= i < |items| ==>
                          r.value[i] == IdAt(old(lastId) + 1, RowGuids(old(articles), feedId), items, i)
    {
      var ids: seq<int> := [];
      var rows, last := articles, lastId;
      assert items[..0] == [] && rows + [] == rows;
      for i := 0 to |items|
        invariant articles == old(articles) && lastId == old(lastId) && last == lastId + i
        invariant Halfway(articles, lastId + 1, feedId, items, i, rows, ids)
        invariant feedId !in feeds ==> forall j :: 0 <= j < i ==> !FirstAt(RowGuids(articles, feedId), items, j)
      {
        OneMoreRow(articles, lastId + 1, feedId, items, i, rows, ids);
        last := last + 1;
        if HasRow(rows, feedId, items[i].guid) {
          ids := ids + [-1];
        } else if feedId !in feeds {
          FreshOrNone(RowGuids(articles, feedId), items);
          return Err(ForeignKey);
        } else {
          ids := ids + [last];
          rows := rows + [Entity(last, feedId, items[i])];
        }
      }
      FreshOrNone(RowGuids(articles, feedId), items);
      assert items[..|items|] == items;
      articles, lastId := rows, last;
      return Ok(ids);
    }

    /** insertNew: the transaction that drops tombstoned items and inserts the rest. */
    method InsertNew(feedId: int, items: seq<NewArticle>) returns (r: Result<seq<int>, DbError>)
      modifies this`articles, this`lastId
      ensures r.Err? <==> RoomRefuses(old(State()), feedId, items)
      ensures r.Err? ==> State() == old(State())
      ensures r.Ok? ==> State() == RoomInserted(old(State()), feedId, items)
      ensures r.Ok? ==> old(articles) <= articles && Real(r.value) == RowIds(articles[|old(articles)|..])
    {
      ghost var known, next := RowGuids(articles, feedId), lastId + 1;
      var batch := WithoutGuids(items, DeletedGuids(feedId));
      FilterThenInsert(known, DeletedGuids(feedId), items);
      r := InsertAll(feedId, batch);
      if r.Ok? {
        RealAreRowIds(r.value, next, feedId, known, batch);
      }
    }

    /** deleteArticle: tombstone, then delete. */
    method DeleteArticle(id: nat)
      modifies this
      ensures State() == RoomBuried(old(State()), (a: ArticleEntity) => a.id == id)
      ensures forall a :: a in articles <==> a in old(articles) && a.id != id
      ensures forall t :: t in deleted <==>
                t in old(deleted) || exists a :: a in old(articles) && a.id == id && t == (a.feedId, a.guid)
    {
      var p := (a: ArticleEntity) => a.id == id;
      deleted := deleted + EntityKeys(Filter(articles, p));
      articles := Filter(articles, (a: ArticleEntity) => !p(a));
    }

    /** clearFeed: the same for every article of one feed. */
    method ClearFeed(feedId: int)
      modifies this
      ensures State() == RoomBuried(old(State()), (a: ArticleEntity) => a.feedId == feedId)
      ensures forall a :: a in articles <==> a in old(articles) && a.feedId != feedId
      ensures forall t :: t in deleted <==>
                t in old(deleted) || exists a :: a in old(articles) && a.feedId == feedId && t == (a.feedId, a.guid)
    {
      var p := (a: ArticleEntity) => a.feedId == feedId;
      deleted := deleted + EntityKeys(Filter(articles, p));
      articles := Filter(articles, (a: ArticleEntity) => !p(a));
    }

    method SetRead(id: nat, read: bool)
      modifies this`articles
      ensures State() == old(State()).(articles := articles) && |articles| == |old(articles)|
      ensures forall i :: 0 <= i < |articles| ==>
                articles[i] == if old(articles)[i].id == id then old(articles)[i].(isRead := read) else old(articles)[i]
    {
      articles := MarkedEntities(articles, (a: ArticleEntity) => a.id == id, read);
    }

    method MarkFeedRead(feedId: int)
      modifies this`articles
      ensures State() == old(State()).(articles := articles) && |articles| == |old(articles)|
      ensures forall i :: 0 <= i < |articles| ==>
                articles[i] == if old(articles)[i].feedId == feedId
                               then old(articles)[i].(isRead := true) else old(articles)[i]
    {
      articles := MarkedEntities(articles, (a: ArticleEntity) => a.feedId == feedId, true);
    }

    method Rename(id: int, title: string)
      modifies this`feeds
      ensures State() == WithEntity(old(State()), id, (e: FeedEntity) => e.(title := title))
    {
      if id in feeds {
        feeds := feeds[id := feeds[id].(title := title)];
      }
    }

    method RecordSuccess(id: int, etag: Option<string>, lastModified: Option<string>, next: Instant)
      modifies this`feeds
      ensures State() == WithEntity(old(State()), id, (e: FeedEntity) => Healthy(e, etag, lastModified, next))
    {
      if id in feeds {
        feeds := feeds[id := feeds[id].(etag := etag, lastModified := lastModified, lastError := None,
                                        errorCount := 0, nextPollAt := next)];
      }
    }

    method RecordError(id: int, error: string, next: Instant)
      modifies this`feeds
      ensures State() == WithEntity(old(State()), id, (e: FeedEntity) => Ailing(e, error, next))
    {
      if id in feeds {
        feeds := feeds[id := feeds[id].(lastError := Some(error), errorCount := feeds[id].errorCount + 1,
                                        nextPollAt := next)];
      }
    }

    method Reschedule(id: int, next: Instant)
      modifies this`feeds
      ensures State() == WithEntity(old(State()), id, (e: FeedEntity) => e.(nextPollAt := next))
    {
      if id in feeds {
        feeds := feeds[id := feeds[id].(nextPollAt := next)];
      }
    }
  }

  function Healthy(e: FeedEntity, etag: Option<string>, lastModified: Option<string>, next: Instant): FeedEntity {
    e.(etag := etag, lastModified := lastModified, lastError := None, errorCount := 0, nextPollAt := next)
  }

  function Ailing(e: FeedEntity, error: string, next: Instant): FeedEntity {
    e.(lastError := Some(error), errorCount := e.errorCount + 1, nextPollAt := next)
  }

  // ----- The desktop and the Android store side by side -------------------

  /** A desktop row and an Android row that hold the same article. */
  predicate SameArticle(a: Article, e: ArticleEntity) {
    && a.feedId == e.feedId && a.guid == e.guid && a.title == e.title && a.url == e.url
    && a.content == e.content && a.isRead == e.isRead
    && a.published == (if e.publishedAt.Some? then Some(Stamp(e.publishedAt.value)) else None)
  }

  predicate SameRows(rows: seq<Article>, entities: seq<ArticleEntity>) {
    |rows| == |entities| && forall i :: 0 <= i < |rows| ==> SameArticle(rows[i], entities[i])
  }

  lemma SameRowsSameGuids(rows: seq<Article>, entities: seq<ArticleEntity>, feedId: int)
    requires SameRows(rows, entities)
    ensures ArticleGuids(rows, feedId) == RowGuids(entities, feedId)
  {
    forall g | g in ArticleGuids(rows, feedId)
      ensures g in RowGuids(entities, feedId)
    {
      var i :| 0 <= i < |rows| && rows[i].feedId == feedId && rows[i].guid == g;
      assert entities[i] in entities;
    }
    forall g | g in RowGuids(entities, feedId)
      ensures g in ArticleGuids(rows, feedId)
    {
      var i :| 0 <= i < |entities| && entities[i].feedId == feedId && entities[i].guid == g;
      assert rows[i] in rows;
    }
  }

  /** Rows, keys, urls and validators agree; row ids and the bookkeeping of retries need not. */
  ghost predicate SameButTitles(db: Db, d: Room) {
    && db.feeds.Keys == d.feeds.Keys
    && (forall id :: id in db.feeds ==> SameSource(db.feeds[id], d.feeds[id]))
    && SameRows(db.articles, d.articles)
    && db.tombs == d.deleted
  }

  predicate SameSource(f: Feed, e: FeedEntity) {
    f.url == e.url && f.etag == e.etag && f.lastModified == e.lastModified
  }

  ghost predicate SameTitles(db: Db, d: Room) {
    forall id :: id in db.feeds && id in d.feeds ==> db.feeds[id].title == d.feeds[id].title
  }

  ghost predicate SameStore(db: Db, d: Room) {
    SameButTitles(db, d) && SameTitles(db, d)
  }

  lemma BothKnowTheSame(db: Db, d: Room, feedId: int)
    requires SameButTitles(db, d)
    ensures Known(db, feedId) == RowGuids(d.articles, feedId) + TombGuids(d.deleted, feedId)
  {
    SameRowsSameGuids(db.articles, d.articles, feedId);
  }

  /** `d1` has rows of `d` and then new ones, whose ids ascend and were not given before. */
  ghost predicate Appends(d: Room, d1: Room) {
    && d.articles <= d1.articles && d.lastId <= d1.lastId
    && (forall i :: |d.articles| <= i < |d1.articles| ==> d.lastId < d1.articles[i].id <= d1.lastId)
    && (forall i, j :: |d.articles| <= i < j < |d1.articles| ==> d1.articles[i].id < d1.articles[j].id)
  }

  /** Row `from + k` holds item `k`, under whatever id. */
  predicate HoldItems(rows: seq<ArticleEntity>, from: nat, feedId: int, items: seq<NewArticle>) {
    |rows| == from + |items| &&
    forall k :: from <= k < |rows| ==> rows[k] == Entity(rows[k].id, feedId, items[k - from])
  }

  lemma ConcatAppends(d: Room, rows: seq<ArticleEntity>, lastId: nat, feedId: int, items: seq<NewArticle>)
    requires d.lastId <= lastId && forall k :: 0 <= k < |rows| ==> d.lastId < rows[k].id <= lastId
    requires forall k, l :: 0 <= k < l < |rows| ==> rows[k].id < rows[l].id
    requires HoldItems(rows, 0, feedId, items)
    ensures Appends(d, d.(articles := d.articles + rows, lastId := lastId))
    ensures HoldItems(d.articles + rows, |d.articles|, feedId, items)
  {
  }

  /** The port's insert appends the first occurrences of guids neither stored nor deleted, under new ids. */
  lemma RoomInsertedAppends(d: Room, feedId: int, items: seq<NewArticle>)
    ensures Appends(d, RoomInserted(d, feedId, items))
    ensures HoldItems(RoomInserted(d, feedId, items).articles, |d.articles|, feedId, Added(d, feedId, items))
  {
    var known, gone := RowGuids(d.articles, feedId), TombGuids(d.deleted, feedId);
    var batch := WithoutGuids(items, gone);
    FilterThenInsert(known, gone, items);
    NewEntitiesAre(d.lastId + 1, feedId, known, batch);
    NewEntityIds(d.lastId + 1, feedId, known, batch);
    ConcatAppends(d, NewEntities(d.lastId + 1, feedId, known, batch), d.lastId + |batch|, feedId,
                  Added(d, feedId, items));
  }

  /** The same batch is refused by both stores or by neither, and otherwise adds the same articles to
      both and is reported with the same number: the guarded insert and filter-then-insert are one rule. */
  lemma BothInsertTheSame(db: Db, d: Room, feedId: int, items: seq<NewArticle>)
    requires SameButTitles(db, d)
    ensures InsertFails(db, feedId, items) <==> RoomRefuses(d, feedId, items)
    ensures SameButTitles(Inserted(db, feedId, items), RoomInserted(d, feedId, items))
    ensures SameTitles(db, d) <==> SameTitles(Inserted(db, feedId, items), RoomInserted(d, feedId, items))
    ensures |InsertedIds(db, feedId, items)| == |Added(d, feedId, items)|
  {
    BothKnowTheSame(db, d, feedId);
    RoomInsertedAppends(d, feedId, items);
  }

  lemma {:induction false} SameFiltered(rows: seq<Article>, entities: seq<ArticleEntity>, p: Article -> bool,
                                        q: ArticleEntity -> bool)
    requires SameRows(rows, entities) && forall i :: 0 <= i < |rows| ==> p(rows[i]) == q(entities[i])
    ensures SameRows(Filter(rows, p), Filter(entities, q))
    ensures Keys(Filter(rows, p)) == EntityKeys(Filter(entities, q))
  {
    if rows != [] {
      var n := |rows| - 1;
      SameFiltered(rows[..n], entities[..n], p, q);
      if p(rows[n]) {
        assert Keys(Filter(rows[..n], p) + [rows[n]]) == Keys(Filter(rows[..n], p)) + {(rows[n].feedId, rows[n].guid)};
        assert EntityKeys(Filter(entities[..n], q) + [entities[n]]) ==
               EntityKeys(Filter(entities[..n], q)) + {(entities[n].feedId, entities[n].guid)};
      }
    }
  }

  lemma BothBuryTheSame(db: Db, d: Room, p: Article -> bool, q: ArticleEntity -> bool)
    requires SameStore(db, d) && forall i :: 0 <= i < |db.articles| ==> p(db.articles[i]) == q(d.articles[i])
    ensures SameStore(Buried(db, p), RoomBuried(d, q))
  {
    SameFiltered(db.articles, d.articles, p, q);
    SameFiltered(db.articles, d.articles, (a: Article) => !p(a), (e: ArticleEntity) => !q(e));
  }

  predicate EntityIdsDistinct(entities: seq<ArticleEntity>) {
    forall i, j :: 0 <= i < j < |entities| ==> entities[i].id != entities[j].id
  }

  /** Deleting an article, or clearing a feed, keeps the two stores the same. */
  lemma BothDeleteTheSame(db: Db, d: Room, i: nat, feedId: int)
    requires SameStore(db, d) && IdsAscend(db.articles) && EntityIdsDistinct(d.articles)
    ensures i < |db.articles| ==>
              SameStore(DeletedArticle(db, db.articles[i].id),
                        RoomBuried(d, (e: ArticleEntity) => e.id == d.articles[i].id))
    ensures SameStore(ClearedFeed(db, feedId), RoomBuried(d, (e: ArticleEntity) => e.feedId == feedId))
  {
    if i < |db.articles| {
      var id, eid := db.articles[i].id, d.articles[i].id;
      BothBuryTheSame(db, d, (a: Article) => a.id == id, (e: ArticleEntity) => e.id == eid);
    }
    BothBuryTheSame(db, d, (a: Article) => a.feedId == feedId, (e: ArticleEntity) => e.feedId == feedId);
  }
}
