/** Polling on Android, FeedRepository.kt, beside the desktop's pass in Refresh. */
module AndroidRepository {
  import opened Wrappers
  import opened Chars
  import opened SqlTime
  import opened Tables
  import opened Poller
  import opened Scheduling
  import opened AndroidStore
  import opened PollProtocol
  import Annotated
  import Refresh

  datatype ParsedFeed = ParsedFeed(title: Option<string>, items: seq<NewArticle>)

  datatype FetchResponse =
    | NotModified
    | RateLimited(retryAfter: nat)
    | Error(message: string)
    | Modified(etag: Option<string>, lastModified: Option<string>, parsed: Option<ParsedFeed>)

  datatype Summary = Summary(newArticles: nat, errors: nat, newArticleIds: seq<int>)

  const ANDROID_BASE: nat := 300

  /** backoffNext of Backoff.kt; the factors are powers of two, which a double holds exactly. */
  function AndroidBackoff(errorCount: int): nat {
    var scaled := ANDROID_BASE * Shift(Clamp(errorCount, 0, 16));
    (if scaled > BACKOFF_CAP then BACKOFF_CAP else scaled) * SECOND
  }

  /** The port's backoff is the capped power of two times five minutes, for every count. */
  lemma AndroidBackoffIsCappedPower(errorCount: int)
    ensures AndroidBackoff(errorCount) ==
            Min(300 * Shift(if errorCount < 0 then 0 else errorCount), 21_600) * 1_000_000_000
  {
    if errorCount > 16 {
      ShiftAt16();
      ShiftAscends(16, errorCount);
    }
  }

  /** Fill in the document's title when the local one is blank. */
  predicate Fills(seen: FeedEntity, doc: ParsedFeed) {
    Annotated.IsKotlinBlank(seen.title) && doc.title.Some? && !Annotated.IsKotlinBlank(doc.title.value)
  }

  predicate Fails(response: FetchResponse) {
    response.Error? || (response.Modified? && response.parsed.None?)
  }

  function Message(response: FetchResponse): string {
    if response.Error? then response.message else "not a feed"
  }

  ghost predicate Refused(d: Room, id: int, response: FetchResponse) {
    response.Modified? && response.parsed.Some? && RoomRefuses(d, id, response.parsed.value.items)
  }

  ghost function Stored(d: Room, id: int, seen: FeedEntity, response: FetchResponse, next: Instant): Room
    requires response.Modified? && response.parsed.Some?
  {
    var doc := response.parsed.value;
    var d1 := RoomInserted(d, id, doc.items);
    var d2 := if Fills(seen, doc) then WithEntity(d1, id, (e: FeedEntity) => e.(title := doc.title.value)) else d1;
    WithEntity(d2, id, (e: FeedEntity) => Healthy(e, response.etag, response.lastModified, next))
  }

  /** The database after one feed's poll, when the store accepts it. */
  ghost function Polled(d: Room, id: int, seen: FeedEntity, response: FetchResponse, now: Instant, spacing: nat): Room {
    if Fails(response) then
      WithEntity(d, id, (e: FeedEntity) => Ailing(e, Message(response), now + AndroidBackoff(seen.errorCount)))
    else match response
      case NotModified => WithEntity(d, id, (e: FeedEntity) => e.(nextPollAt := now + spacing))
      case RateLimited(retryAfter) => WithEntity(d, id, (e: FeedEntity) => e.(nextPollAt := now + retryAfter))
      case Modified(_, _, _) => Stored(d, id, seen, response, now + spacing)
  }

  /** One feed of a pass: its row as read, and what its server answered. */
  datatype Visit = Visit(id: int, seen: FeedEntity, response: FetchResponse, now: Instant)

  ghost function PolledAll(d: Room, visits: seq<Visit>, spacing: nat): Room {
    if visits == [] then d else
      var v := visits[|visits| - 1];
      Polled(PolledAll(d, visits[..|visits| - 1], spacing), v.id, v.seen, v.response, v.now, spacing)
  }

  ghost predicate PassRefused(d: Room, visits: seq<Visit>, spacing: nat) {
    visits != [] &&
    (var n := |visits| - 1;
     || PassRefused(d, visits[..n], spacing)
     || Refused(PolledAll(d, visits[..n], spacing), visits[n].id, visits[n].response))
  }

  ghost predicate StopsAt(d: Room, visits: seq<Visit>, spacing: nat, k: nat) {
    && k < |visits| && !PassRefused(d, visits[..k], spacing)
    && Refused(PolledAll(d, visits[..k], spacing), visits[k].id, visits[k].response)
  }

  /** The database after a pass that was refused: that of the visits before the refused one. */
  ghost predicate AbortedAs(d: Room, visits: seq<Visit>, spacing: nat, d1: Room) {
    exists k: nat :: StopsAt(d, visits, spacing, k) && d1 == PolledAll(d, visits[..k], spacing)
  }

  function FailuresIn(visits: seq<Visit>): nat {
    if visits == [] then 0 else
      FailuresIn(visits[..|visits| - 1]) + if Fails(visits[|visits| - 1].response) then 1 else 0
  }

  lemma {:induction false} RefusedPrefix(d: Room, visits: seq<Visit>, spacing: nat, i: nat)
    requires i <= |visits| && PassRefused(d, visits[..i], spacing)
    ensures PassRefused(d, visits, spacing)
    decreases |visits|
  {
    if i < |visits| {
      assert visits[..|visits| - 1][..i] == visits[..i];
      RefusedPrefix(d, visits[..|visits| - 1], spacing, i);
    } else {
      assert visits[..i] == visits;
    }
  }

  /** The ids of the rows that `d1` has and `d` had not. */
  ghost function AddedIds(d: Room, d1: Room): seq<int>
    requires Appends(d, d1)
  {
    RowIds(d1.articles[|d.articles|..])
  }

  lemma AppendsOn(d: Room, d1: Room, d2: Room)
    requires Appends(d, d1) && Appends(d1, d2)
    ensures Appends(d, d2) && AddedIds(d, d2) == AddedIds(d, d1) + AddedIds(d1, d2)
  {
    assert d2.articles[..|d1.articles|] == d1.articles;
  }

  lemma FewerFailures(visits: seq<Visit>, i: nat)
    requires i < |visits|
    ensures FailuresIn(visits[..i + 1]) == FailuresIn(visits[..i]) + if Fails(visits[i].response) then 1 else 0
  {
    assert visits[..i + 1][..i] == visits[..i];
  }

  /** How far a pass has come: `d1` and the counts after the visits `done`. */
  ghost predicate Progress(d: Room, done: seq<Visit>, spacing: nat, d1: Room, sum: Summary) {
    && !PassRefused(d, done, spacing) && d1 == PolledAll(d, done, spacing)
    && Appends(d, d1)
    && sum.newArticles == |d1.articles| - |d.articles|
    && sum.newArticleIds == AddedIds(d, d1)
    && sum.errors == FailuresIn(done)
  }

  lemma OneVisitMore(d: Room, visits: seq<Visit>, i: nat, spacing: nat, d1: Room, sum: Summary, d2: Room, one: Summary)
    requires i < |visits| && Progress(d, visits[..i], spacing, d1, sum)
    requires var v := visits[i];
             && !Refused(d1, v.id, v.response) && d2 == Polled(d1, v.id, v.seen, v.response, v.now, spacing)
             && Appends(d1, d2)
             && one.newArticles == |d2.articles| - |d1.articles|
             && one.newArticleIds == AddedIds(d1, d2)
             && one.errors == if Fails(v.response) then 1 else 0
    ensures Progress(d, visits[..i + 1], spacing, d2,
                     Summary(sum.newArticles + one.newArticles, sum.errors + one.errors,
                             sum.newArticleIds + one.newArticleIds))
  {
    assert visits[..i + 1][..i] == visits[..i];
    FewerFailures(visits, i);
    AppendsOn(d, d1, d2);
  }

  class FeedRepository {
    const store: RoomStore
    const spacing: nat

    constructor (store: RoomStore, spacing: nat)
      ensures this.store == store && this.spacing == spacing
    {
      this.store := store;
      this.spacing := spacing;
    }

    /** The arms of pollFeed that bring no feed document. */
    method Settle(v: Visit)
      requires Fails(v.response) || !v.response.Modified?
      modifies store`feeds
      ensures store.State() == Polled(old(store.State()), v.id, v.seen, v.response, v.now, spacing)
    {
      match v.response
      case NotModified => store.Reschedule(v.id, v.now + spacing);
      case RateLimited(retryAfter) => store.Reschedule(v.id, v.now + retryAfter);
      case Error(message) => store.RecordError(v.id, message, v.now + AndroidBackoff(v.seen.errorCount));
      case Modified(_, _, _) => store.RecordError(v.id, "not a feed", v.now + AndroidBackoff(v.seen.errorCount));
    }

    /** The arm that stores a document: articles, then title, then validators. */
    method StoreDocument(v: Visit) returns (r: Result<seq<int>, DbError>)
      requires v.response.Modified? && v.response.parsed.Some?
      modifies store
      ensures r.Err? <==> Refused(old(store.State()), v.id, v.response)
      ensures r.Err? ==> store.State() == old(store.State())
      ensures r.Ok? ==> store.State() == Stored(old(store.State()), v.id, v.seen, v.response, v.now + spacing)
      ensures r.Ok? ==> Appends(old(store.State()), store.State())
      ensures r.Ok? ==> r.value == AddedIds(old(store.State()), store.State())
    {
      ghost var d := store.State();
      var doc := v.response.parsed.value;
      RoomInsertedAppends(d, v.id, doc.items);
      var inserted := store.InsertNew(v.id, doc.items);
      if inserted.Err? {
        return Err(inserted.error);
      }
      if Fills(v.seen, doc) {
        store.Rename(v.id, doc.title.value);
      }
      store.RecordSuccess(v.id, v.response.etag, v.response.lastModified, v.now + spacing);
      return Ok(Real(inserted.value));
    }

    /** pollFeed, from the response on. */
    method PollFeed(v: Visit) returns (r: Result<Summary, DbError>)
      modifies store
      ensures r.Err? <==> Refused(old(store.State()), v.id, v.response)
      ensures r.Err? ==> store.State() == old(store.State())
      ensures r.Ok? ==> store.State() == Polled(old(store.State()), v.id, v.seen, v.response, v.now, spacing)
      ensures r.Ok? ==> Appends(old(store.State()), store.State())
      ensures r.Ok? ==> r.value.newArticles == |store.articles| - |old(store.articles)|
      ensures r.Ok? ==> r.value.newArticleIds == AddedIds(old(store.State()), store.State())
      ensures r.Ok? ==> r.value.errors == if Fails(v.response) then 1 else 0
    {
      if v.response.Modified? && v.response.parsed.Some? {
        var stored := StoreDocument(v);
        if stored.Err? {
          return Err(stored.error);
        }
        return Ok(Summary(|stored.value|, 0, stored.value));
      }
      Settle(v);
      return Ok(Summary(0, if Fails(v.response) then 1 else 0, []));
    }

    /** poll: the summary counts exactly the rows added and the failures met, and its ids are those of
        the added rows, in order. */
    method Poll(visits: seq<Visit>) returns (r: Result<Summary, DbError>)
      modifies store
      ensures r.Err? <==> PassRefused(old(store.State()), visits, spacing)
      ensures r.Err? ==> AbortedAs(old(store.State()), visits, spacing, store.State())
      ensures r.Ok? ==> store.State() == PolledAll(old(store.State()), visits, spacing)
      ensures r.Ok? ==> r.value.newArticles == |store.articles| - |old(store.articles)|
      ensures r.Ok? ==> Appends(old(store.State()), store.State())
      ensures r.Ok? ==> r.value.newArticleIds == AddedIds(old(store.State()), store.State())
      ensures r.Ok? ==> r.value.errors == FailuresIn(visits)
    {
      var newArticles: nat, errors: nat, ids: seq<int> := 0, 0, [];
      ghost var d := store.State();
      for i := 0 to |visits|
        invariant Progress(d, visits[..i], spacing, store.State(), Summary(newArticles, errors, ids))
      {
        ghost var before, sum := store.State(), Summary(newArticles, errors, ids);
        var result := PollFeed(visits[i]);
        if result.Err? {
          assert visits[..i + 1][..i] == visits[..i];
          RefusedPrefix(d, visits, spacing, i + 1);
          assert StopsAt(d, visits, spacing, i);
          return Err(result.error);
        }
        OneVisitMore(d, visits, i, spacing, before, sum, store.State(), result.value);
        newArticles := newArticles + result.value.newArticles;
        errors := errors + result.value.errors;
        ids := ids + result.value.newArticleIds;
      }
      assert visits[..|visits|] == visits;
      return Ok(Summary(newArticles, errors, ids));
    }
  }

  // ----- The same pass on the desktop -------------------------------------

  /** The desktop's outcome of the same response. */
  function OutcomeOf(response: FetchResponse): PollOutcome {
    match response
    case NotModified => PollOutcome.NotModified
    case RateLimited(retryAfter) => PollOutcome.RateLimited(retryAfter)
    case Error(message) => PollOutcome.Error(message)
    case Modified(etag, lastModified, None) => PollOutcome.Error("not a feed")
    case Modified(etag, lastModified, Some(doc)) => Updated(doc.title, etag, lastModified, doc.items)
  }

  // ----- Titles -----------------------------------------------------------

  /** What store_updated asks before it writes the title. */
  predicate DesktopFills(seen: Feed, doc: ParsedFeed) {
    IsBlank(seen.title) && doc.title.Some? && !IsBlank(doc.title.value)
  }

  /** Both sides fill in the document's title, or neither does. */
  predicate FillAlike(v: Visit, seen: Feed) {
    v.response.Modified? && v.response.parsed.Some? ==>
      (DesktopFills(seen, v.response.parsed.value) <==> Fills(v.seen, v.response.parsed.value))
  }

  predicate BlankAlike(s: string) {
    IsBlank(s) <==> Annotated.IsKotlinBlank(s)
  }

  /** They do whenever they have read the same title and agree on which of the two titles are blank. */
  lemma BlankAlikeFillAlike(v: Visit, seen: Feed)
    requires seen.title == v.seen.title && BlankAlike(seen.title)
    requires v.response.Modified? && v.response.parsed.Some? && v.response.parsed.value.title.Some? ==>
               BlankAlike(v.response.parsed.value.title.value)
    ensures FillAlike(v, seen)
  {
  }

  /** Two titles on which they differ: Rust calls only the first blank, Kotlin only the second. */
  lemma BlankDiffers()
    ensures IsBlank("\U{85}") && !Annotated.IsKotlinBlank("\U{85}")
    ensures !IsBlank("\U{1C}") && Annotated.IsKotlinBlank("\U{1C}")
  {
    assert "\U{85}"[0] == '\U{85}' && "\U{1C}"[0] == '\U{1C}';
  }

  // ----- One feed ---------------------------------------------------------

  lemma TitlesUnchanged(db: Db, d: Room, db1: Db, d1: Room)
    requires db1.feeds.Keys == db.feeds.Keys && d1.feeds.Keys == d.feeds.Keys
    requires forall id :: id in db.feeds ==> db1.feeds[id].title == db.feeds[id].title
    requires forall id :: id in d.feeds ==> d1.feeds[id].title == d.feeds[id].title
    ensures SameTitles(db, d) <==> SameTitles(db1, d1)
  {
    if SameTitles(db1, d1) {
      forall id | id in db.feeds && id in d.feeds
        ensures db.feeds[id].title == d.feeds[id].title
      {
        assert db1.feeds[id].title == d1.feeds[id].title;
      }
    }
  }

  lemma BothSettleTheSame(db: Db, d: Room, v: Visit, seen: Feed, tick: Tick, spacing: nat)
    requires SameButTitles(db, d) && tick.outcome == OutcomeOf(v.response) && !tick.outcome.Updated?
    ensures var db1, d1 := Refresh.AppliedTo(db, v.id, seen, tick), Polled(d, v.id, v.seen, v.response, v.now, spacing);
            SameButTitles(db1, d1) && (SameTitles(db, d) <==> SameTitles(db1, d1))
  {
    TitlesUnchanged(db, d, Refresh.AppliedTo(db, v.id, seen, tick),
                    Polled(d, v.id, v.seen, v.response, v.now, spacing));
  }

  lemma BothRecordTheSame(db: Db, d: Room, id: int, etag: Option<string>, lastModified: Option<string>, next: Instant,
                          next': Instant)
    requires SameButTitles(db, d)
    ensures var db1 := WithFeed(db, id, (f: Feed) => Succeeded(f, etag, lastModified, next));
            var d1 := WithEntity(d, id, (e: FeedEntity) => Healthy(e, etag, lastModified, next'));
            SameButTitles(db1, d1) && (SameTitles(db, d) <==> SameTitles(db1, d1))
  {
    TitlesUnchanged(db, d, WithFeed(db, id, (f: Feed) => Succeeded(f, etag, lastModified, next)),
                    WithEntity(d, id, (e: FeedEntity) => Healthy(e, etag, lastModified, next')));
  }

  /** The port's store with the title filled in first. */
  function Retitled'(d: Room, id: int, seen: FeedEntity, doc: ParsedFeed): Room {
    if Fills(seen, doc) then WithEntity(d, id, (e: FeedEntity) => e.(title := doc.title.value)) else d
  }

  /** The desktop writes the title before the articles, the port after them: it makes no difference. */
  lemma TitleFirst(d: Room, id: int, seen: FeedEntity, response: FetchResponse, next: Instant)
    requires response.Modified? && response.parsed.Some?
    ensures var doc := response.parsed.value;
            Stored(d, id, seen, response, next) ==
            WithEntity(RoomInserted(Retitled'(d, id, seen, doc), id, doc.items), id,
                       (e: FeedEntity) => Healthy(e, response.etag, response.lastModified, next))
  {
  }

  lemma BothRetitle(db: Db, d: Room, v: Visit, seen: Feed, doc: ParsedFeed)
    requires SameButTitles(db, d)
    ensures SameButTitles(Retitled(db, v.id, seen, doc.title), Retitled'(d, v.id, v.seen, doc))
    ensures SameTitles(db, d) ==>
              (SameTitles(Retitled(db, v.id, seen, doc.title), Retitled'(d, v.id, v.seen, doc)) <==>
               (v.id in db.feeds && (DesktopFills(seen, doc) <==> !Fills(v.seen, doc)) ==>
                  doc.title == Some(db.feeds[v.id].title)))
  {
  }

  /** Storing a document keeps all but the titles the same, and the titles too exactly if both sides fill in the
      document's title, or neither does, or it is the title the feed has, or the feed is gone. */
  lemma BothStoreTheSame(db: Db, d: Room, v: Visit, seen: Feed, next: Instant, next': Instant)
    requires SameButTitles(db, d)
    requires v.response.Modified? && v.response.parsed.Some?
    ensures var db1 := Refresh.StoredUpdate(db, v.id, seen, OutcomeOf(v.response), next);
            var d1 := Stored(d, v.id, v.seen, v.response, next');
            && SameButTitles(db1, d1)
            && (SameTitles(db, d) ==>
                  (SameTitles(db1, d1) <==>
                   FillAlike(v, seen) || v.id !in db.feeds || v.response.parsed.value.title ==
                       Some(db.feeds[v.id].title)))
  {
    var doc, o := v.response.parsed.value, OutcomeOf(v.response);
    var db1, d1 := Retitled(db, v.id, seen, doc.title), Retitled'(d, v.id, v.seen, doc);
    BothRetitle(db, d, v, seen, doc);
    BothInsertTheSame(db1, d1, v.id, doc.items);
    var db2, d2 := Inserted(db1, v.id, doc.items), RoomInserted(d1, v.id, doc.items);
    BothRecordTheSame(db2, d2, v.id, o.etag, o.lastModified, next, next');
    TitleFirst(d, v.id, v.seen, v.response, next');
  }

  lemma BothRefuseTheSame(db: Db, d: Room, v: Visit, seen: Feed)
    requires SameButTitles(db, d)
    ensures Refresh.StoreFails(db, v.id, seen, OutcomeOf(v.response)) <==> Refused(d, v.id, v.response)
  {
    if v.response.Modified? && v.response.parsed.Some? {
      var doc := v.response.parsed.value;
      Refresh.RetitledKeepsRows(db, v.id, seen, OutcomeOf(v.response));
      BothInsertTheSame(db, d, v.id, doc.items);
    }
  }

  lemma BothVisitTheSame(db: Db, d: Room, v: Visit, seen: Feed, now: Instant, interval: nat, spacing: nat)
    requires SameButTitles(db, d)
    ensures var db1 := Refresh.AppliedTo(db, v.id, seen, Tick(now, interval, OutcomeOf(v.response)));
            var d1 := Polled(d, v.id, v.seen, v.response, v.now, spacing);
            SameButTitles(db1, d1) && (SameTitles(db, d) && FillAlike(v, seen) ==> SameTitles(db1, d1))
  {
    var tick := Tick(now, interval, OutcomeOf(v.response));
    if tick.outcome.Updated? {
      BothStoreTheSame(db, d, v, seen, NextAt(seen, tick), v.now + spacing);
    } else {
      BothSettleTheSame(db, d, v, seen, tick, spacing);
    }
  }

  // ----- Whole passes -----------------------------------------------------

  /** The desktop's pass for the same feeds and answers, in the same order. */
  function PassOf(visits: seq<Visit>): seq<(int, PollOutcome)> {
    seq(|visits|, i requires 0 <= i < |visits| => (visits[i].id, OutcomeOf(visits[i].response)))
  }

  predicate AllRead(byId: map<int, Feed>, visits: seq<Visit>) {
    forall i :: 0 <= i < |visits| ==> visits[i].id in byId
  }

  /** A pass over the same feeds with the same answers: it is refused on both sides or on neither, both
      summaries count the same failures, and it leaves the two stores with the same articles, validators and
      tombstones, and with the same titles too when each feed's title is filled in alike. */
  lemma {:induction false} BothPassesTheSame(db: Db, d: Room, byId: map<int, Feed>, visits: seq<Visit>, now: Instant,
                                             interval: nat, spacing: nat)
    requires SameButTitles(db, d) && AllRead(byId, visits)
    ensures Refresh.PassFails(db, byId, PassOf(visits), now, interval) <==> PassRefused(d, visits, spacing)
    ensures Refresh.ErrorsIn(byId, PassOf(visits)) == FailuresIn(visits)
    ensures var db1 := Refresh.AppliedAll(db, byId, PassOf(visits), now, interval);
            var d1 := PolledAll(d, visits, spacing);
            && SameButTitles(db1, d1)
            && (SameTitles(db, d) && (forall i :: 0 <= i < |visits| ==> FillAlike(visits[i], byId[visits[i].id]))
                ==> SameTitles(db1, d1))
  {
    if visits != [] {
      var n := |visits| - 1;
      var v := visits[n];
      BothPassesTheSame(db, d, byId, visits[..n], now, interval, spacing);
      assert PassOf(visits)[..n] == PassOf(visits[..n]);
      var dbN := Refresh.AppliedAll(db, byId, PassOf(visits[..n]), now, interval);
      var dN := PolledAll(d, visits[..n], spacing);
      BothRefuseTheSame(dbN, dN, v, byId[v.id]);
      BothVisitTheSame(dbN, dN, v, byId[v.id], now, interval, spacing);
    }
  }
}
