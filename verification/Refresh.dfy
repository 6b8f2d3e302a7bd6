/** One polling pass and the refresh messages around it: `poll_feeds`, `store_updated` and
    `refresh_reporting` of linux/fodderd/src/scheduler.rs, run without interference. */
module Refresh {
  import opened Wrappers
  import opened Chars
  import opened SqlTime
  import opened Tables
  import opened DesktopStore
  import opened Poller
  import opened Scheduling
  import opened PollProtocol

  datatype Message =
    | RefreshStarted(feedId: Option<int>, feedCount: nat)
    | RefreshFinished(feedId: Option<int>, newArticles: nat, errors: nat)
    | FeedsChanged

  datatype NotifyItem = NotifyItem(id: nat, title: string)

  datatype PollSummary = PollSummary(newArticles: nat, errors: nat)

  // ----- What one outcome does to the store -------------------------------

  ghost function StoredUpdate(db: Db, id: int, seen: Feed, o: PollOutcome, next: Instant): Db
    requires o.Updated?
  {
    WithFeed(Inserted(Retitled(db, id, seen, o.title), id, o.items), id,
             (f: Feed) => Succeeded(f, o.etag, o.lastModified, next))
  }

  ghost predicate StoreFails(db: Db, id: int, seen: Feed, o: PollOutcome) {
    o.Updated? && InsertFails(Retitled(db, id, seen, o.title), id, o.items)
  }

  ghost function AppliedTo(db: Db, id: int, seen: Feed, tick: Tick): Db {
    if tick.outcome.Updated? then StoredUpdate(db, id, seen, tick.outcome, NextAt(seen, tick))
    else WithFeed(db, id, (f: Feed) => AfterOutcome(f, seen, tick))
  }

  ghost function Applied(db: Db, byId: map<int, Feed>, id: int, tick: Tick): Db {
    if id in byId then AppliedTo(db, id, byId[id], tick) else db
  }

  ghost function AppliedAll(db: Db, byId: map<int, Feed>, pass: seq<(int, PollOutcome)>, now: Instant,
                            interval: nat): Db {
    if pass == [] then db else
      var (id, o) := pass[|pass| - 1];
      Applied(AppliedAll(db, byId, pass[..|pass| - 1], now, interval), byId, id, Tick(now, interval, o))
  }

  /** Some outcome of the pass meets a storage error. */
  ghost predicate PassFails(db: Db, byId: map<int, Feed>, pass: seq<(int, PollOutcome)>, now: Instant, interval: nat) {
    pass != [] &&
    (var n := |pass| - 1;
     || PassFails(db, byId, pass[..n], now, interval)
     || FailsNext(AppliedAll(db, byId, pass[..n], now, interval), byId, pass[n]))
  }

  ghost predicate FailsNext(db: Db, byId: map<int, Feed>, outcome: (int, PollOutcome)) {
    outcome.0 in byId && StoreFails(db, outcome.0, byId[outcome.0], outcome.1)
  }

  /** The outcomes before `k` are stored and the one at `k` meets the storage error. */
  ghost predicate StopsAt(db: Db, byId: map<int, Feed>, pass: seq<(int, PollOutcome)>, now: Instant, interval: nat,
                          k: nat) {
    && k < |pass| && !PassFails(db, byId, pass[..k], now, interval)
    && FailsNext(AppliedAll(db, byId, pass[..k], now, interval), byId, pass[k])
  }

  /** The store after a pass that was aborted: that of the outcomes before the failing one. */
  ghost predicate AbortedAs(db: Db, byId: map<int, Feed>, pass: seq<(int, PollOutcome)>, now: Instant, interval: nat,
                            db1: Db) {
    exists k: nat :: StopsAt(db, byId, pass, now, interval, k) && db1 == AppliedAll(db, byId, pass[..k], now, interval)
  }

  function ErrorsIn(byId: map<int, Feed>, pass: seq<(int, PollOutcome)>): nat {
    if pass == [] then 0 else
      ErrorsIn(byId, pass[..|pass| - 1]) +
      if pass[|pass| - 1].0 in byId && pass[|pass| - 1].1.Error? then 1 else 0
  }

  // ----- When a pass fails ------------------------------------------------

  lemma AppliedToKeeps(db: Db, id: int, seen: Feed, tick: Tick)
    requires Integrity(db) && !StoreFails(db, id, seen, tick.outcome)
    ensures Integrity(AppliedTo(db, id, seen, tick))
    ensures AppliedTo(db, id, seen, tick).feeds.Keys == db.feeds.Keys
  {
    if tick.outcome.Updated? {
      var o := tick.outcome;
      if o.title.Some? {
        WithFeedKeepsTables(db, id, (f: Feed) => f.(title := o.title.value));
      }
      var db1 := Retitled(db, id, seen, o.title);
      InsertStep(db1, id, o.items);
      WithFeedKeepsTables(Inserted(db1, id, o.items), id,
                          (f: Feed) => Succeeded(f, o.etag, o.lastModified, NextAt(seen, tick)));
    } else {
      WithFeedKeepsTables(db, id, (f: Feed) => AfterOutcome(f, seen, tick));
    }
  }

  lemma AppliedKeeps(db: Db, byId: map<int, Feed>, id: int, tick: Tick)
    requires Integrity(db)
    requires id in byId ==> !StoreFails(db, id, byId[id], tick.outcome)
    ensures Integrity(Applied(db, byId, id, tick))
    ensures Applied(db, byId, id, tick).feeds.Keys == db.feeds.Keys
  {
    if id in byId {
      AppliedToKeeps(db, id, byId[id], tick);
    }
  }

  lemma {:induction false} PassKeeps(db: Db, byId: map<int, Feed>, pass: seq<(int, PollOutcome)>, now: Instant,
                                     interval: nat)
    requires Integrity(db) && !PassFails(db, byId, pass, now, interval)
    ensures Integrity(AppliedAll(db, byId, pass, now, interval))
    ensures AppliedAll(db, byId, pass, now, interval).feeds.Keys == db.feeds.Keys
  {
    if pass != [] {
      var n := |pass| - 1;
      PassKeeps(db, byId, pass[..n], now, interval);
      AppliedKeeps(AppliedAll(db, byId, pass[..n], now, interval), byId, pass[n].0, Tick(now, interval, pass[n].1));
    }
  }

  lemma {:induction false} PrefixFails(db: Db, byId: map<int, Feed>, pass: seq<(int, PollOutcome)>, now: Instant,
                                       interval: nat, i: nat)
    requires i <= |pass| && PassFails(db, byId, pass[..i], now, interval)
    ensures PassFails(db, byId, pass, now, interval)
    decreases |pass|
  {
    if i < |pass| {
      assert pass[..|pass| - 1][..i] == pass[..i];
      PrefixFails(db, byId, pass[..|pass| - 1], now, interval, i);
    } else {
      assert pass[..i] == pass;
    }
  }

  /** An outcome the store cannot take: new items for a polled feed that is no longer there. */
  predicate Orphaned(db: Db, byId: map<int, Feed>, outcome: (int, PollOutcome)) {
    outcome.0 in byId && outcome.0 !in db.feeds && outcome.1.Updated? && outcome.1.items != []
  }

  lemma NothingKnownOfMissing(db: Db, id: int, items: seq<NewArticle>)
    requires Integrity(db) && id !in db.feeds
    ensures Known(db, id) == {}
    ensures Fresh(Known(db, id), items) == [] <==> items == []
  {
    FreshSound({}, items);
    if items != [] {
      assert items[0].guid in Guids(items);
    }
  }

  lemma FailsExactlyWhenOrphaned(db: Db, byId: map<int, Feed>, outcome: (int, PollOutcome))
    requires Integrity(db) && outcome.0 in byId
    ensures StoreFails(db, outcome.0, byId[outcome.0], outcome.1) <==> Orphaned(db, byId, outcome)
  {
    if outcome.0 !in db.feeds && outcome.1.Updated? {
      NothingKnownOfMissing(db, outcome.0, outcome.1.items);
    }
  }

  /** A pass aborts on a storage error exactly when it brings new items for a feed that was
      unsubscribed since its row was read. */
  lemma {:induction false} PassFailsExactlyWhen(db: Db, byId: map<int, Feed>, pass: seq<(int, PollOutcome)>,
                                                now: Instant, interval: nat)
    requires Integrity(db)
    ensures PassFails(db, byId, pass, now, interval) <==> exists k :: 0 <= k < |pass| && Orphaned(db, byId, pass[k])
  {
    if pass != [] {
      var n := |pass| - 1;
      var init := pass[..n];
      PassFailsExactlyWhen(db, byId, init, now, interval);
      assert forall k :: 0 <= k < n ==> init[k] == pass[k];
      if PassFails(db, byId, init, now, interval) {
        var k :| 0 <= k < n && Orphaned(db, byId, init[k]);
        assert Orphaned(db, byId, pass[k]);
      } else {
        PassKeeps(db, byId, init, now, interval);
        if pass[n].0 in byId {
          FailsExactlyWhenOrphaned(AppliedAll(db, byId, init, now, interval), byId, pass[n]);
        }
      }
    }
  }

  // ----- The scheduler's methods ------------------------------------------

  lemma InsertedRowsFound(db: Db, feedId: int, items: seq<NewArticle>, k: nat)
    requires IdsAscend(db.articles) && k < |InsertedIds(db, feedId, items)|
    ensures var rows := Inserted(db, feedId, items).articles;
            && |db.articles| + k < |rows| && rows[|db.articles| + k] in rows
            && rows[|db.articles| + k].id == InsertedIds(db, feedId, items)[k]
    ensures IdsAscend(Inserted(db, feedId, items).articles)
  {
    var rows := Inserted(db, feedId, items).articles;
    AddedIdsAscend(db.articles, feedId, Fresh(Known(db, feedId), items));
    assert rows[|db.articles| + k] in rows;
  }

  /** What is announced: the inserted rows, highest id first. */
  ghost predicate Announces(items: seq<NotifyItem>, rows: seq<Article>, ids: seq<nat>) {
    && |items| == |ids|
    && forall k :: 0 <= k < |ids| ==>
         items[k].id == ids[|ids| - 1 - k] &&
         exists a :: a in rows && a.id == items[k].id && a.title == items[k].title
  }

  lemma AnnounceOne(items: seq<NotifyItem>, rows: seq<Article>, ids: seq<nat>, a: Article)
    requires Announces(items, rows, ids) && a in rows
    ensures Announces([NotifyItem(a.id, a.title)] + items, rows, ids + [a.id])
  {
    var items1, ids1 := [NotifyItem(a.id, a.title)] + items, ids + [a.id];
    forall k | 0 <= k < |ids1|
      ensures items1[k].id == ids1[|ids1| - 1 - k]
      ensures exists x :: x in rows && x.id == items1[k].id && x.title == items1[k].title
    {
      if k > 0 {
        assert items1[k] == items[k - 1];
      }
    }
  }

  /** Only a missing feed makes storing fail, so no title is written then either. */
  lemma FailureWritesNothing(db: Db, id: int, seen: Feed, o: PollOutcome)
    requires StoreFails(db, id, seen, o)
    ensures Retitled(db, id, seen, o.title) == db
  {
  }

  lemma RetitledKeepsRows(db: Db, id: int, seen: Feed, o: PollOutcome)
    requires o.Updated?
    ensures var db1 := Retitled(db, id, seen, o.title);
            && db1.articles == db.articles && db1.tombs == db.tombs && db1.feeds.Keys == db.feeds.Keys
            && Inserted(db1, id, o.items).articles == Inserted(db, id, o.items).articles
            && InsertedIds(db1, id, o.items) == InsertedIds(db, id, o.items)
  {
  }

  lemma UpdateGrows(db: Db, id: int, seen: Feed, o: PollOutcome, next: Instant)
    requires o.Updated?
    ensures var rows := StoredUpdate(db, id, seen, o, next).articles;
            db.articles <= rows && |rows| == |db.articles| + |InsertedIds(db, id, o.items)|
  {
  }

  lemma OutcomeGrows(db: Db, id: int, seen: Feed, tick: Tick)
    requires Integrity(db) && !StoreFails(db, id, seen, tick.outcome)
    ensures var db1 := AppliedTo(db, id, seen, tick);
            && Integrity(db1) && db.articles <= db1.articles
            && |db1.articles| - |db.articles| ==
               if tick.outcome.Updated? then |InsertedIds(db, id, tick.outcome.items)| else 0
  {
    AppliedToKeeps(db, id, seen, tick);
    if tick.outcome.Updated? {
      UpdateGrows(db, id, seen, tick.outcome, NextAt(seen, tick));
    }
  }

  lemma SettledRow(db: Db, id: int, seen: Feed, tick: Tick, g: Feed -> Feed)
    requires !tick.outcome.Updated? && forall f :: g(f) == AfterOutcome(f, seen, tick)
    ensures AppliedTo(db, id, seen, tick) == WithFeed(db, id, g)
  {
  }

  class Scheduler {
    const store: DesktopStore.Store
    /** Everything handed to send_to_viewer, in order. */
    var outbox: seq<Message>

    constructor (store: DesktopStore.Store)
      ensures this.store == store && outbox == []
    {
      this.store := store;
      outbox := [];
    }

    /** The rows just inserted, highest id first. */
    method CollectNew(ghost db: Db, feedId: int, ghost items: seq<NewArticle>, ids: seq<nat>)
      returns (out: seq<NotifyItem>)
      requires IdsAscend(db.articles) && ids == InsertedIds(db, feedId, items)
      requires store.articles == Inserted(db, feedId, items).articles
      ensures Announces(out, store.articles, ids)
    {
      out := [];
      for i := 0 to |ids|
        invariant Announces(out, store.articles, ids[..i])
      {
        InsertedRowsFound(db, feedId, items, i);
        var found := store.GetArticle(ids[i]);
        AnnounceOne(out, store.articles, ids[..i], found.value);
        out := [NotifyItem(found.value.id, found.value.title)] + out;
        assert ids[..i + 1] == ids[..i] + [ids[i]];
      }
      assert ids[..|ids|] == ids;
    }

    /** store_updated: title, articles, then validators; then the new rows, newest first. */
    method StoreUpdated(feedId: int, seen: Feed, o: PollOutcome, next: Instant)
      returns (r: Result<seq<NotifyItem>, DbError>)
      requires o.Updated? && IdsAscend(store.articles)
      modifies store
      ensures r.Err? <==> StoreFails(old(store.State()), feedId, seen, o)
      ensures r.Err? ==> store.State() == old(store.State())
      ensures r.Ok? ==> store.State() == StoredUpdate(old(store.State()), feedId, seen, o, next)
      ensures r.Ok? ==> Announces(r.value, store.articles, InsertedIds(old(store.State()), feedId, o.items))
    {
      ghost var db := store.State();
      if IsBlank(seen.title) && o.title.Some? && !IsBlank(o.title.value) {
        store.UpdateFeedTitle(feedId, o.title.value);
      }
      ghost var db1 := store.State();
      assert db1 == Retitled(db, feedId, seen, o.title);
      RetitledKeepsRows(db, feedId, seen, o);
      var inserted := store.InsertNewArticles(feedId, o.items);
      if inserted.Err? {
        FailureWritesNothing(db, feedId, seen, o);
        return Err(inserted.error);
      }
      store.UpdateFeedSuccess(feedId, o.etag, o.lastModified, next);
      var out := CollectNew(db1, feedId, o.items, inserted.value);
      return Ok(out);
    }

    /** The arms of poll_feeds that bring no body: 304, rate limit and error. */
    method Settle(id: int, seen: Feed, tick: Tick)
      requires !tick.outcome.Updated?
      modifies store`feeds
      ensures store.State() == AppliedTo(old(store.State()), id, seen, tick)
    {
      ghost var db := store.State();
      var now, interval := tick.now, tick.interval;
      match tick.outcome
      case NotModified =>
        store.Reschedule(id, now + interval);
        SettledRow(db, id, seen, tick, (f: Feed) => Rescheduled(f, now + interval));
      case RateLimited(retryAfter) =>
        var wait := if retryAfter <= CHRONO_MAX then retryAfter else 5 * MINUTE;
        store.Reschedule(id, now + wait);
        SettledRow(db, id, seen, tick, (f: Feed) => Rescheduled(f, now + wait));
      case Error(message) =>
        var count := seen.errorCount + 1;
        var next := now + BackoffDelay(count);
        store.UpdateFeedError(id, message, count, next);
        SettledRow(db, id, seen, tick, (f: Feed) => Failed(f, message, count, next));
    }

    /** One outcome of a pass: the number of new articles it adds. */
    method ApplyOutcome(id: int, seen: Feed, tick: Tick) returns (r: Result<nat, DbError>)
      requires Integrity(store.State())
      modifies store
      ensures r.Err? <==> StoreFails(old(store.State()), id, seen, tick.outcome)
      ensures r.Err? ==> store.State() == old(store.State())
      ensures r.Ok? ==> store.State() == AppliedTo(old(store.State()), id, seen, tick)
      ensures r.Ok? ==> old(store.articles) <= store.articles
      ensures r.Ok? ==> r.value == |store.articles| - |old(store.articles)|
      ensures r.Ok? ==> Integrity(store.State())
    {
      ghost var db := store.State();
      if tick.outcome.Updated? {
        var stored := StoreUpdated(id, seen, tick.outcome, tick.now + tick.interval);
        if stored.Err? {
          return Err(stored.error);
        }
        OutcomeGrows(db, id, seen, tick);
        return Ok(|stored.value|);
      }
      Settle(id, seen, tick);
      OutcomeGrows(db, id, seen, tick);
      return Ok(0);
    }

    /** poll_feeds, from the fetched outcomes on. */
    method PollFeeds(byId: map<int, Feed>, pass: seq<(int, PollOutcome)>, now: Instant, interval: nat)
      returns (r: Result<PollSummary, DbError>)
      requires Integrity(store.State())
      modifies this`outbox, store
      ensures r.Err? <==> PassFails(old(store.State()), byId, pass, now, interval)
      ensures r.Err? ==> outbox == old(outbox)
      ensures r.Err? ==> AbortedAs(old(store.State()), byId, pass, now, interval, store.State())
      ensures r.Ok? ==> store.State() == AppliedAll(old(store.State()), byId, pass, now, interval)
      ensures r.Ok? ==> old(store.articles) <= store.articles
      ensures r.Ok? ==> r.value.newArticles == |store.articles| - |old(store.articles)|
      ensures r.Ok? ==> r.value.errors == ErrorsIn(byId, pass)
      ensures r.Ok? ==> outbox == old(outbox) + if r.value.newArticles > 0 then [FeedsChanged] else []
    {
      var newArticles, errors := 0, 0;
      ghost var db := store.State();
      for i := 0 to |pass|
        invariant store.State() == AppliedAll(db, byId, pass[..i], now, interval)
        invariant !PassFails(db, byId, pass[..i], now, interval)
        invariant Integrity(store.State())
        invariant db.articles <= store.articles
        invariant newArticles == |store.articles| - |db.articles|
        invariant errors == ErrorsIn(byId, pass[..i])
        invariant outbox == old(outbox)
      {
        assert pass[..i + 1][..i] == pass[..i];
        var (id, outcome) := pass[i];
        if id in byId {
          var added := ApplyOutcome(id, byId[id], Tick(now, interval, outcome));
          if added.Err? {
            PrefixFails(db, byId, pass, now, interval, i + 1);
            assert StopsAt(db, byId, pass, now, interval, i);
            return Err(added.error);
          }
          newArticles := newArticles + added.value;
          if outcome.Error? {
            errors := errors + 1;
          }
        }
      }
      assert pass[..|pass|] == pass;
      if newArticles > 0 {
        outbox := outbox + [FeedsChanged];
      }
      return Ok(PollSummary(newArticles, errors));
    }

    /** refresh_reporting: every start is followed by exactly one finish carrying the true counts,
        unless a storage error ends the pass, and then by none. */
    method RefreshReporting(feedId: Option<int>, byId: map<int, Feed>, pass: seq<(int, PollOutcome)>,
                            now: Instant, interval: nat)
      returns (r: Result<(), DbError>)
      requires Integrity(store.State())
      modifies this`outbox, store
      ensures r.Err? <==> byId != map[] && PassFails(old(store.State()), byId, pass, now, interval)
      ensures r.Err? ==> outbox == old(outbox) + [RefreshStarted(feedId, |byId|)]
      ensures r.Err? ==> AbortedAs(old(store.State()), byId, pass, now, interval, store.State())
      ensures r.Ok? ==>
                var grown := |store.articles| - |old(store.articles)|;
                && grown >= 0
                && outbox == old(outbox) + [RefreshStarted(feedId, |byId|)]
                             + (if grown > 0 then [FeedsChanged] else [])
                             + [RefreshFinished(feedId, grown, ErrorsIn(byId, pass))]
    {
      outbox := outbox + [RefreshStarted(feedId, |byId|)];
      var summary := PollSummary(0, 0);
      if byId != map[] {
        var polled := PollFeeds(byId, pass, now, interval);
        if polled.Err? {
          return Err(polled.error);
        }
        summary := polled.value;
      } else {
        NoFeedsNoErrors(byId, pass);
      }
      outbox := outbox + [RefreshFinished(feedId, summary.newArticles, summary.errors)];
      return Ok(());
    }
  }

  lemma {:induction false} NoFeedsNoErrors(byId: map<int, Feed>, pass: seq<(int, PollOutcome)>)
    requires byId == map[]
    ensures ErrorsIn(byId, pass) == 0
  {
    if pass != [] {
      NoFeedsNoErrors(byId, pass[..|pass| - 1]);
    }
  }

  // ----- The protocol's steps add up to the pass --------------------------

  lemma StoreStepsAddUp(w: World, id: int, next: Instant)
    requires id in w.polls && w.polls[id].Answered? && w.polls[id].outcome.Updated?
    requires !StoreFails(w.db, id, w.polls[id].feed, w.polls[id].outcome)
    ensures Next(Next(Next(w, BeginStore(id)), AddArticles), RecordSuccess(next)).db ==
            StoredUpdate(w.db, id, w.polls[id].feed, w.polls[id].outcome, next)
  {
    var p := w.polls[id];
    var w1 := Next(w, BeginStore(id));
    assert w1.db == Retitled(w.db, id, p.feed, p.outcome.title);
    assert w1.writing == Some(Writing(id, p.feed, p.outcome, p.seen, Titled));
    var w2 := Next(w1, AddArticles);
    assert w2.db == Inserted(w1.db, id, p.outcome.items);
  }

  /** The separately committed steps of PollProtocol, run without anything in between, leave the store
      as one outcome of a pass does. */
  lemma PollUninterrupted(w: World, id: int, tick: Tick)
    requires id in w.polls && w.polls[id].Answered? && w.polls[id].outcome == tick.outcome
    requires !StoreFails(w.db, id, w.polls[id].feed, tick.outcome)
    ensures var seen := w.polls[id].feed;
            var next := NextAt(seen, tick);
            AppliedTo(w.db, id, seen, tick) ==
            match tick.outcome
            case Updated(_, _, _, _) => Next(Next(Next(w, BeginStore(id)), AddArticles), RecordSuccess(next)).db
            case Error(_) => Next(w, RecordError(id, next)).db
            case _ => Next(w, Settle(id, next)).db
  {
    if tick.outcome.Updated? {
      StoreStepsAddUp(w, id, NextAt(w.polls[id].feed, tick));
    }
  }
}
