/** Exactly when a reissued feed id does harm. Row ids of feeds are reused, so a poll of an unsubscribed feed may
    still be under way when its id is given to a new one (ReissuedId has a run). FeedSafe, the invariant of
    PollProtocol, turns out to be the weakest there is: a feed can be harmed from a state iff it fails there. */
module ReissueConditions {
  import opened Wrappers
  import opened SqlTime
  import opened Tables
  import opened Poller
  import opened PollProtocol

  predicate NoSubscribe(steps: seq<Action>, id: int) {
    forall i :: 0 <= i < |steps| ==> !(steps[i].Subscribe? && steps[i].id == id)
  }

  /** The feed's validators vouch for something unknown, or something confirmed is missing. */
  ghost predicate Broken(t: Tags, w: World, id: int) {
    id in w.db.feeds && !(Vouched(t, w.db, id, w.db.feeds[id].url, SentBy(w.db.feeds[id])) && ConfirmedKept(w, id))
  }

  /** `steps` lead from `w0` to `w`, and the id is not given to another feed on the way. */
  ghost predicate Reaches(t: Tags, w0: World, id: int, steps: seq<Action>, w: World) {
    RunAnyId(t, w0, steps) && NoSubscribe(steps, id) && After(w0, steps) == w
  }

  /** Some continuation, whatever else happens in it, breaks the feed while it stays subscribed. */
  ghost predicate CanBreak(t: Tags, w: World, id: int) {
    exists steps :: RunAnyId(t, w, steps) && NoSubscribe(steps, id) && Broken(t, After(w, steps), id)
  }

  lemma Go(t: Tags, w0: World, id: int, steps: seq<Action>, w: World, a: Action) returns (steps1: seq<Action>)
    requires Reaches(t, w0, id, steps, w) && EnabledAnyId(t, w, a) && !(a.Subscribe? && a.id == id)
    ensures Reaches(t, w0, id, steps1, Next(w, a)) && steps1 == steps + [a]
  {
    steps1 := steps + [a];
    assert steps1[..|steps|] == steps;
  }

  /** The step records an outcome in the feed's row. */
  predicate RecordsFor(w: World, a: Action, id: int) {
    || ((a.Settle? || a.RecordError?) && a.id == id)
    || (a.RecordSuccess? && w.writing.Some? && w.writing.value.feedId == id)
  }

  predicate NoRename(steps: seq<Action>, id: int) {
    forall i :: 0 <= i < |steps| ==> !(steps[i].Rename? && steps[i].id == id)
  }

  /** The same with nothing recorded for the feed and no new title given to it on the way. */
  ghost predicate ReachesQuietly(t: Tags, w0: World, id: int, steps: seq<Action>, w: World) {
    && Reaches(t, w0, id, steps, w) && NoRename(steps, id)
    && forall i :: 0 <= i < |steps| ==> !RecordsFor(After(w0, steps[..i]), steps[i], id)
  }

  lemma GoQuietly(t: Tags, w0: World, id: int, steps: seq<Action>, w: World, a: Action) returns (steps1: seq<Action>)
    requires ReachesQuietly(t, w0, id, steps, w) && EnabledAnyId(t, w, a)
    requires !(a.Subscribe? && a.id == id) && !(a.Rename? && a.id == id) && !RecordsFor(w, a, id)
    ensures ReachesQuietly(t, w0, id, steps1, Next(w, a))
  {
    steps1 := steps + [a];
    assert steps1[..|steps|] == steps;
    forall i | 0 <= i < |steps1|
      ensures !RecordsFor(After(w0, steps1[..i]), steps1[i], id)
    {
      assert i < |steps| ==> steps1[..i] == steps[..i];
    }
  }

  // ----- Safe feeds stay unbroken -----------------------------------------

  lemma {:induction false} SafeStaysSafe(t: Tags, w: World, id: int, steps: seq<Action>)
    requires BaseInv(t, w) && FeedSafe(t, w, id) && RunAnyId(t, w, steps) && NoSubscribe(steps, id)
    ensures BaseInv(t, After(w, steps)) && FeedSafe(t, After(w, steps), id)
  {
    if steps != [] {
      var n := |steps| - 1;
      SafeStaysSafe(t, w, id, steps[..n]);
      StepKeepsBaseInv(t, After(w, steps[..n]), steps[n]);
      StepKeepsFeedSafe(t, After(w, steps[..n]), steps[n], id);
    }
  }

  lemma SafeCannotBreak(t: Tags, w: World, id: int)
    requires BaseInv(t, w) && FeedSafe(t, w, id)
    ensures !CanBreak(t, w, id)
  {
    if steps :| RunAnyId(t, w, steps) && NoSubscribe(steps, id) && Broken(t, After(w, steps), id) {
      SafeStaysSafe(t, w, id, steps);
    }
  }

  // ----- Getting other feeds' writes out of the way -----------------------

  lemma {:induction false} ItemsFor(guids: set<string>) returns (items: seq<NewArticle>)
    ensures Guids(items) == guids
    decreases |guids|
  {
    if guids == {} {
      items := [];
    } else {
      var g := Any(guids);
      var rest := ItemsFor(guids - {g});
      items := rest + [NewArticle(g, "", None, None, None)];
      GuidsSnoc(items);
      assert items[..|items| - 1] == rest;
    }
  }

  lemma {:induction false} LengthBound(texts: set<string>) returns (n: nat)
    ensures forall s :: s in texts ==> |s| <= n
    decreases |texts|
  {
    if texts == {} {
      n := 0;
    } else {
      var s := Any(texts);
      n := LengthBound(texts - {s});
      n := if |s| > n then |s| else n;
    }
  }

  lemma FreeUrl(feeds: map<int, Feed>) returns (url: string)
    ensures !UrlTaken(feeds, url)
  {
    var urls := set id | id in feeds :: feeds[id].url;
    var n := LengthBound(urls);
    url := seq(n + 1, _ => 'a');
    assert forall id :: id in feeds ==> feeds[id].url in urls;
  }

  /** Nothing about the feed, its polls or the servers has changed. */
  ghost predicate Untouched(w: World, w1: World, id: int) {
    && w1.polls == w.polls && w1.server == w.server
    && id in w.db.feeds && id in w1.db.feeds && w1.db.feeds[id] == w.db.feeds[id]
    && Known(w1.db, id) == Known(w.db, id)
    && id in w.confirmed && id in w1.confirmed && w1.confirmed[id] == w.confirmed[id]
  }

  predicate OtherWriting(w: World, id: int) {
    w.writing.Some? && w.writing.value.feedId != id && w.writing.value.outcome.Updated?
  }

  /** A write whose feed is gone would abort the pass; its id is given out again first. */
  lemma MakesRoom(t: Tags, w0: World, id: int, steps: seq<Action>, w: World) returns (steps1: seq<Action>, w1: World)
    requires ReachesQuietly(t, w0, id, steps, w) && id in w.db.feeds && id in w.confirmed && OtherWriting(w, id)
    ensures ReachesQuietly(t, w0, id, steps1, w1) && Untouched(w, w1, id) && w1.writing == w.writing
    ensures w.writing.value.feedId in w1.db.feeds
  {
    var j := w.writing.value.feedId;
    if j in w.db.feeds {
      steps1, w1 := steps, w;
    } else {
      var url := FreeUrl(w.db.feeds);
      var a := Subscribe(j, url, "", 0);
      steps1 := GoQuietly(t, w0, id, steps, w, a);
      w1 := Next(w, a);
      assert w1.db == Subscribed(w.db, j, url, "", 0);
    }
  }

  lemma OtherAdds(t: Tags, w0: World, id: int, steps: seq<Action>, w: World) returns (steps1: seq<Action>, w1: World)
    requires ReachesQuietly(t, w0, id, steps, w) && id in w.db.feeds && id in w.confirmed && OtherWriting(w, id)
    requires w.writing.value.stage.Titled?
    ensures ReachesQuietly(t, w0, id, steps1, w1) && Untouched(w, w1, id)
    ensures OtherWriting(w1, id) && w1.writing.value.stage.Added?
  {
    steps1, w1 := MakesRoom(t, w0, id, steps, w);
    var wr, w2 := w1.writing.value, w1;
    steps1 := GoQuietly(t, w0, id, steps1, w2, AddArticles);
    InsertedIsKnown(w2.db, wr.feedId, wr.outcome.items);
    w1 := Next(w2, AddArticles);
    assert w1.db == Inserted(w2.db, wr.feedId, wr.outcome.items);
  }

  lemma OtherRecords(t: Tags, w0: World, id: int, steps: seq<Action>, w: World) returns (steps1: seq<Action>, w1: World)
    requires ReachesQuietly(t, w0, id, steps, w) && id in w.db.feeds && id in w.confirmed && OtherWriting(w, id)
    requires w.writing.value.stage.Added?
    ensures ReachesQuietly(t, w0, id, steps1, w1) && Untouched(w, w1, id)
    ensures OtherWriting(w1, id) && w1.writing.value.stage.Recorded?
  {
    steps1 := GoQuietly(t, w0, id, steps, w, RecordSuccess(0));
    w1 := Next(w, RecordSuccess(0));
    assert w1.db.articles == w.db.articles && w1.db.tombs == w.db.tombs;
  }

  lemma OtherReports(t: Tags, w0: World, id: int, steps: seq<Action>, w: World) returns (steps1: seq<Action>, w1: World)
    requires ReachesQuietly(t, w0, id, steps, w) && id in w.db.feeds && id in w.confirmed && OtherWriting(w, id)
    requires w.writing.value.stage.Recorded?
    ensures ReachesQuietly(t, w0, id, steps1, w1) && Untouched(w, w1, id) && w1.writing.None?
  {
    steps1 := GoQuietly(t, w0, id, steps, w, Report);
    w1 := Next(w, Report);
  }

  /** Another feed's write runs to its end. */
  lemma Clears(t: Tags, w0: World, id: int, steps: seq<Action>, w: World) returns (steps1: seq<Action>, w1: World)
    requires ReachesQuietly(t, w0, id, steps, w) && id in w.db.feeds && id in w.confirmed
    requires w.writing.Some? ==> OtherWriting(w, id)
    ensures ReachesQuietly(t, w0, id, steps1, w1) && Untouched(w, w1, id) && w1.writing.None?
  {
    steps1, w1 := steps, w;
    if w1.writing.Some? && w1.writing.value.stage.Titled? {
      steps1, w1 := OtherAdds(t, w0, id, steps1, w1);
    }
    if w1.writing.Some? && w1.writing.value.stage.Added? {
      steps1, w1 := OtherRecords(t, w0, id, steps1, w1);
    }
    if w1.writing.Some? {
      steps1, w1 := OtherReports(t, w0, id, steps1, w1);
    }
  }

  // ----- How each kind of poll does its harm ------------------------------

  lemma BrokenNow(t: Tags, w0: World, id: int, steps: seq<Action>, w: World)
    requires Reaches(t, w0, id, steps, w) && Broken(t, w, id)
    ensures CanBreak(t, w0, id)
  {
  }

  ghost predicate IsSubscribed(w: World, id: int) {
    id in w.db.feeds && id in w.confirmed
  }

  /** The 304 confirms guids that are not known. */
  lemma NotModifiedHarms(t: Tags, w0: World, id: int, steps: seq<Action>, w: World)
    requires Reaches(t, w0, id, steps, w) && IsSubscribed(w, id) && w.writing.None?
    requires id in w.polls && w.polls[id].Answered? && w.polls[id].outcome.NotModified?
    requires !(Guids(w.polls[id].seen.items) <= Known(w.db, id))
    ensures CanBreak(t, w0, id)
  {
    var steps1 := Go(t, w0, id, steps, w, Settle(id, 0));
    var w1 := Next(w, Settle(id, 0));
    assert w1.db.articles == w.db.articles && w1.db.tombs == w.db.tombs;
    assert w1.confirmed[id] == w.confirmed[id] + Guids(w.polls[id].seen.items);
    assert Known(w1.db, id) == Known(w.db, id);
    BrokenNow(t, w0, id, steps1, w1);
  }

  ghost predicate OwnWriting(w: World, id: int) {
    w.writing.Some? && w.writing.value.feedId == id && w.writing.value.outcome.Updated?
    && w.writing.value.seen.items == w.writing.value.outcome.items
  }

  /** The recorded success confirms, or its validators vouch for, guids that are not known. */
  lemma RecordingHarms(t: Tags, w0: World, id: int, steps: seq<Action>, w: World)
    requires Reaches(t, w0, id, steps, w) && IsSubscribed(w, id) && OwnWriting(w, id) && w.writing.value.stage.Added?
    requires !WritingSafe(t, Known(w.db, id), w.db.feeds[id].url, w.writing.value)
    ensures CanBreak(t, w0, id)
  {
    var wr := w.writing.value;
    var steps1 := Go(t, w0, id, steps, w, RecordSuccess(0));
    var w1 := Next(w, RecordSuccess(0));
    assert w1.db.articles == w.db.articles && w1.db.tombs == w.db.tombs;
    assert Known(w1.db, id) == Known(w.db, id);
    assert w1.confirmed[id] == w.confirmed[id] + Guids(wr.seen.items);
    assert SentBy(w1.db.feeds[id]) == Validators(wr.outcome.etag, wr.outcome.lastModified);
    BrokenNow(t, w0, id, steps1, w1);
  }

  lemma AddingHarms(t: Tags, w0: World, id: int, steps: seq<Action>, w: World)
    requires Reaches(t, w0, id, steps, w) && IsSubscribed(w, id) && OwnWriting(w, id) && w.writing.value.stage.Titled?
    requires !UpdateSafe(t, Known(w.db, id), w.db.feeds[id].url, w.writing.value.outcome)
    ensures CanBreak(t, w0, id)
  {
    var wr := w.writing.value;
    var steps1 := Go(t, w0, id, steps, w, AddArticles);
    var w1 := Next(w, AddArticles);
    InsertedIsKnown(w.db, id, wr.outcome.items);
    assert w1.db == Inserted(w.db, id, wr.outcome.items);
    RecordingHarms(t, w0, id, steps1, w1);
  }

  lemma UpdatedHarms(t: Tags, w0: World, id: int, steps: seq<Action>, w: World)
    requires Reaches(t, w0, id, steps, w) && IsSubscribed(w, id) && w.writing.None?
    requires id in w.polls && w.polls[id].Answered? && w.polls[id].outcome.Updated?
    requires w.polls[id].seen.items == w.polls[id].outcome.items
    requires !UpdateSafe(t, Known(w.db, id), w.db.feeds[id].url, w.polls[id].outcome)
    ensures CanBreak(t, w0, id)
  {
    var p := w.polls[id];
    var steps1 := Go(t, w0, id, steps, w, BeginStore(id));
    var w1 := Next(w, BeginStore(id));
    assert w1.db == Retitled(w.db, id, p.feed, p.outcome.title);
    assert w1.db.articles == w.db.articles && w1.db.tombs == w.db.tombs;
    assert Known(w1.db, id) == Known(w.db, id);
    AddingHarms(t, w0, id, steps1, w1);
  }

  /** The server comes to serve a document with these validators. */
  lemma Serves(t: Tags, w0: World, id: int, steps: seq<Action>, w: World, v: Validators)
    returns (steps1: seq<Action>, w1: World, doc: Doc)
    requires Reaches(t, w0, id, steps, w) && id in w.polls
    ensures var url := w.polls[id].feed.url;
            && doc.validators == v && Guids(doc.items) == t(url, v)
            && Reaches(t, w0, id, steps1, w1) && w1 == w.(server := w.server[url := doc])
  {
    var url := w.polls[id].feed.url;
    var items := ItemsFor(t(url, v));
    doc := Doc(v, None, items);
    steps1 := Go(t, w0, id, steps, w, Publish(url, doc));
    w1 := Next(w, Publish(url, doc));
  }

  /** An unanswered poll may yet be answered with a 304 of what it asked for. */
  lemma AskedForHarms(t: Tags, w0: World, id: int, steps: seq<Action>, w: World)
    requires Reaches(t, w0, id, steps, w) && IsSubscribed(w, id) && w.writing.None? && id in w.polls &&
            w.polls[id].Asked?
    requires var v := SentBy(w.polls[id].feed); Conditional(v) && !(t(w.polls[id].feed.url, v) <= Known(w.db, id))
    ensures CanBreak(t, w0, id)
  {
    var feed := w.polls[id].feed;
    var steps1, w1, doc := Serves(t, w0, id, steps, w, SentBy(feed));
    var reply := Reply(304, None, None, None, Unreadable);
    var steps2 := Go(t, w0, id, steps1, w1, Fetch(id, reply));
    var w2 := Next(w1, Fetch(id, reply));
    assert w2.polls[id] == Answered(feed, NotModified, doc) && w2.db == w.db && w2.confirmed == w.confirmed;
    NotModifiedHarms(t, w0, id, steps2, w2);
  }

  /** Or with a document whose validators stand for something else at the new url. */
  lemma AnswerHarms(t: Tags, w0: World, id: int, steps: seq<Action>, w: World, v: Validators)
    requires Reaches(t, w0, id, steps, w) && IsSubscribed(w, id) && w.writing.None? && id in w.polls &&
            w.polls[id].Asked?
    requires Conditional(v) && !(t(w.db.feeds[id].url, v) <= Known(w.db, id) + t(w.polls[id].feed.url, v))
    ensures CanBreak(t, w0, id)
  {
    var feed := w.polls[id].feed;
    var steps1, w1, doc := Serves(t, w0, id, steps, w, v);
    var reply := Reply(200, v.etag, v.lastModified, None, Parsed(None, doc.items));
    var steps2 := Go(t, w0, id, steps1, w1, Fetch(id, reply));
    var w2 := Next(w1, Fetch(id, reply));
    assert w2.polls[id] == Answered(feed, Updated(None, v.etag, v.lastModified, doc.items), doc) && w2.db == w.db;
    UpdatedHarms(t, w0, id, steps2, w2);
  }

  /** A poll that is not safe can do its harm, once other feeds' writes are out of the way. */
  lemma PollHarms(t: Tags, w: World, id: int)
    requires BaseInv(t, w) && IsSubscribed(w, id) && id in w.polls
    requires !PollSafe(t, Known(w.db, id), w.db.feeds[id].url, w.polls[id])
    ensures CanBreak(t, w, id)
  {
    assert PollHonest(t, w.polls[id]);
    var steps, w1 := Clears(t, w, id, [], w);
    match w.polls[id]
    case Asked(feed) =>
      if Conditional(SentBy(feed)) && !(t(feed.url, SentBy(feed)) <= Known(w.db, id)) {
        AskedForHarms(t, w, id, steps, w1);
      } else {
        var v: Validators :| Conditional(v) && !(t(w.db.feeds[id].url, v) <= Known(w.db, id) + t(feed.url, v));
        AnswerHarms(t, w, id, steps, w1, v);
      }
    case Answered(feed, outcome, seen) =>
      if outcome.NotModified? {
        NotModifiedHarms(t, w, id, steps, w1);
      } else {
        UpdatedHarms(t, w, id, steps, w1);
      }
  }

  lemma WritingHarms(t: Tags, w: World, id: int)
    requires BaseInv(t, w) && IsSubscribed(w, id) && w.writing.Some? && w.writing.value.feedId == id
    requires !WritingSafe(t, Known(w.db, id), w.db.feeds[id].url, w.writing.value)
    ensures CanBreak(t, w, id)
  {
    assert Reaches(t, w, id, [], w);
    if w.writing.value.stage.Titled? {
      AddingHarms(t, w, id, [], w);
    } else {
      RecordingHarms(t, w, id, [], w);
    }
  }

  // ----- The exact conditions ---------------------------------------------

  /** In every state, reached with whatever reissued ids: some continuation breaks a feed, by validators that vouch for
      or a confirmation of something neither stored nor deleted, if and only if its part of the invariant fails. */
  lemma BreaksExactlyWhenUnsafe(t: Tags, w: World, id: int)
    requires BaseInv(t, w)
    ensures CanBreak(t, w, id) <==> !FeedSafe(t, w, id)
  {
    if FeedSafe(t, w, id) {
      SafeCannotBreak(t, w, id);
    } else if Broken(t, w, id) {
      BrokenNow(t, w, id, [], w);
    } else if id in w.polls && !PollSafe(t, Known(w.db, id), w.db.feeds[id].url, w.polls[id]) {
      PollHarms(t, w, id);
    } else {
      WritingHarms(t, w, id);
    }
  }

  /** When an id is given to a new feed: some continuation breaks that feed while it stays subscribed, if and only if
      what is under way for the id is harmful to a feed at the new url of which nothing is known. */
  lemma ReissueBreaksExactlyWhen(t: Tags, w: World, id: int, url: string, title: string, now: Instant)
    requires BaseInv(t, w) && EnabledAnyId(t, w, Subscribe(id, url, title, now))
    ensures CanBreak(t, Next(w, Subscribe(id, url, title, now)), id) <==> Harmful(t, w, id, url)
  {
    var a := Subscribe(id, url, title, now);
    StepKeepsBaseInv(t, w, a);
    SubscribedIntegrity(w.db, id, url, title, now);
    BreaksExactlyWhenUnsafe(t, Next(w, a), id);
  }

  ghost predicate PollHarmful(t: Tags, url: string, p: Poll) {
    match p
    case Asked(feed) =>
      || (Conditional(SentBy(feed)) && t(feed.url, SentBy(feed)) != {})
      || exists v: Validators :: Conditional(v) && !(t(url, v) <= t(feed.url, v))
    case Answered(_, NotModified, seen) => seen.items != []
    case Answered(_, Updated(_, etag, lastModified, items), _) => StandsForMore(t, url,
                                                                                Validators(etag, lastModified), items)
    case Answered(_, _, _) => false
  }

  ghost predicate StandsForMore(t: Tags, url: string, v: Validators, items: seq<NewArticle>) {
    Conditional(v) && !(t(url, v) <= Guids(items))
  }

  ghost predicate WritingHarmful(t: Tags, url: string, wr: Writing) {
    wr.outcome.Updated? &&
    var v := Validators(wr.outcome.etag, wr.outcome.lastModified);
    match wr.stage
    case Titled => StandsForMore(t, url, v, wr.outcome.items)
    case Added(_) => wr.seen.items != [] || (Conditional(v) && t(url, v) != {})
    case Recorded(_) => false
  }

  lemma GuidsOrNone(items: seq<NewArticle>)
    ensures Guids(items) <= {} <==> items == []
  {
    if Guids(items) <= {} {
      NoGuidsNoItems(items);
    }
  }

  lemma PollHarmfulMeans(t: Tags, url: string, p: Poll)
    ensures PollHarmful(t, url, p) <==> !PollSafe(t, {}, url, p)
  {
    match p
    case Asked(feed) =>
      assert forall v: Validators :: {} + t(feed.url, v) == t(feed.url, v);
    case Answered(_, outcome, seen) =>
      GuidsOrNone(seen.items);
      if outcome.Updated? {
        assert {} + Guids(outcome.items) == Guids(outcome.items);
      }
  }

  lemma WritingHarmfulMeans(t: Tags, url: string, wr: Writing)
    requires wr.outcome.Updated? && wr.seen.items == wr.outcome.items
    ensures WritingHarmful(t, url, wr) <==> !WritingSafe(t, {}, url, wr)
  {
    GuidsOrNone(wr.seen.items);
    assert {} + Guids(wr.outcome.items) == Guids(wr.outcome.items);
  }

  /** What harmful comes to: an unanswered poll that asked with validators of a non-empty document, or whose server may
      answer with validators that stand for more at the new url; a 304 of a non-empty document; a 200 whose validators
      stand for more at the new url than it brings; a write of a non-empty document, or of validators that stand for
      anything at the new url, that has its articles behind it. An error, a rate limit and a finished write never
      are. */
  lemma HarmfulMeans(t: Tags, w: World, id: int, url: string)
    requires BaseInv(t, w)
    ensures Harmful(t, w, id, url) <==>
            || (id in w.polls && PollHarmful(t, url, w.polls[id]))
            || (w.writing.Some? && w.writing.value.feedId == id && WritingHarmful(t, url, w.writing.value))
  {
    if id in w.polls {
      PollHarmfulMeans(t, url, w.polls[id]);
    }
    if w.writing.Some? {
      WritingHarmfulMeans(t, url, w.writing.value);
    }
  }

  /** The same url is no excuse: a 304 of a non-empty document confirms it for a feed that has none of it. */
  lemma SameUrlCanBreakToo(t: Tags, w: World, id: int, title: string, now: Instant)
    requires BaseInv(t, w) && id in w.polls && w.polls[id].Answered? && w.polls[id].outcome.NotModified?
    requires w.polls[id].seen.items != [] && EnabledAnyId(t, w, Subscribe(id, w.polls[id].feed.url, title, now))
    ensures CanBreak(t, Next(w, Subscribe(id, w.polls[id].feed.url, title, now)), id)
  {
    HarmfulMeans(t, w, id, w.polls[id].feed.url);
    ReissueBreaksExactlyWhen(t, w, id, w.polls[id].feed.url, title, now);
  }
}
