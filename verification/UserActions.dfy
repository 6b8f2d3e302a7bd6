/** What each action of the user does to the tables, row by row, and what a poll may do to a title the user gave. */
module UserActions {
  import opened Wrappers
  import opened Chars
  import opened SqlTime
  import opened Tables
  import opened Poller
  import opened PollProtocol
  import opened ReissueConditions

  // ----- Row by row -------------------------------------------------------

  /** Every row is where it was, as it was but for the flag, and the flag is `read` in scope and as before outside. */
  ghost predicate FlagsSet(rows: seq<Article>, rows1: seq<Article>, scope: Article -> bool, read: bool) {
    && |rows1| == |rows|
    && forall i :: 0 <= i < |rows| ==>
         rows1[i] == rows[i].(isRead := rows1[i].isRead) &&
         rows1[i].isRead == if scope(rows[i]) then read else rows[i].isRead
  }

  /** Exactly the rows in scope are gone, and exactly their guids were added to the tombstones. */
  ghost predicate Moved(db: Db, db1: Db, scope: Article -> bool) {
    && (forall a :: a in db1.articles <==> a in db.articles && !scope(a))
    && (forall id, g :: (id, g) in db1.tombs <==>
          (id, g) in db.tombs || exists a :: a in db.articles && scope(a) && a.feedId == id && a.guid == g)
  }

  lemma BuriedIsMoved(db: Db, scope: Article -> bool)
    ensures Moved(db, Buried(db, scope), scope)
  {
    BuriedMoves(db, scope);
    forall id, g | (id, g) in Buried(db, scope).tombs && (id, g) !in db.tombs
      ensures exists a :: a in db.articles && scope(a) && a.feedId == id && a.guid == g
    {
      var a :| a in db.articles && scope(a) && (id, g) == (a.feedId, a.guid);
    }
  }

  /** Deleting moves the one article, clearing the articles of the one feed. */
  lemma DeletingMoves(w: World, a: Action)
    requires a.DeleteArticle? || a.ClearFeed?
    ensures var w1 := Next(w, a);
            && w1 == w.(db := w1.db) && w1.db.feeds == w.db.feeds
            && (a.DeleteArticle? ==> Moved(w.db, w1.db, (x: Article) => x.id == a.rowId))
            && (a.ClearFeed? ==> Moved(w.db, w1.db, (x: Article) => x.feedId == a.id))
  {
    if a.DeleteArticle? {
      BuriedIsMoved(w.db, (x: Article) => x.id == a.rowId);
    } else {
      BuriedIsMoved(w.db, (x: Article) => x.feedId == a.id);
    }
  }

  /** Marking sets the flag of the one row, or of every row, or of the rows of the one feed. */
  lemma MarkingSetsFlags(w: World, a: Action)
    requires a.SetRead? || a.MarkAllRead?
    ensures var w1 := Next(w, a);
            && w1 == w.(db := w.db.(articles := w1.db.articles))
            && (a.SetRead? ==>
                  FlagsSet(w.db.articles, w1.db.articles, (x: Article) => x.id == a.rowId, a.read))
            && (a.MarkAllRead? && a.scope.None? ==>
                  FlagsSet(w.db.articles, w1.db.articles, (x: Article) => true, true))
            && (a.MarkAllRead? && a.scope.Some? ==>
                  FlagsSet(w.db.articles, w1.db.articles, (x: Article) => x.feedId == a.scope.value, true))
  {
  }

  /** Subscribing adds one row without validators, error or articles, due at once, under a name not used before. */
  lemma SubscribingAdds(t: Tags, w: World, a: Action)
    requires a.Subscribe? && BaseInv(t, w) && EnabledAnyId(t, w, a)
    ensures var w1 := Next(w, a);
            && w1.db == w.db.(feeds := w1.db.feeds) && w1.db.feeds.Keys == w.db.feeds.Keys + {a.id}
            && (forall k :: k in w.db.feeds ==> w1.db.feeds[k] == w.db.feeds[k])
            && w1.db.feeds[a.id] == Feed(a.newUrl, a.title, None, None, None, 0, Stamp(a.now))
            && Known(w1.db, a.id) == {} && w1.confirmed == w.confirmed[a.id := {}]
            && w1.epoch == w.epoch[a.id := w.clock] && w1.clock == w.clock + 1
            && w1.polls == w.polls && w1.writing == w.writing && w1.log == w.log && w1.server == w.server
  {
    SubscribedIntegrity(w.db, a.id, a.newUrl, a.title, a.now);
  }

  /** Unsubscribing takes the one row with its articles and tombstones. Polls under way do not notice. */
  lemma UnsubscribingTakes(w: World, a: Action)
    requires a.Unsubscribe?
    ensures var w1 := Next(w, a);
            && w1.db.feeds == w.db.feeds - {a.id} && w1.confirmed == w.confirmed - {a.id}
            && (forall x :: x in w1.db.articles <==> x in w.db.articles && x.feedId != a.id)
            && (forall x :: x in w1.db.tombs <==> x in w.db.tombs && x.0 != a.id)
            && w1.epoch == w.epoch - {a.id} && w1.clock == w.clock
            && w1.polls == w.polls && w1.writing == w.writing && w1.log == w.log && w1.server == w.server
  {
  }

  /** Renaming changes the title of the one row. */
  lemma RenamingChangesTheTitle(w: World, a: Action)
    requires a.Rename?
    ensures var w1 := Next(w, a);
            && w1 == w.(db := w.db.(feeds := w1.db.feeds)) && w1.db.feeds.Keys == w.db.feeds.Keys
            && (forall k :: k in w.db.feeds && k != a.id ==> w1.db.feeds[k] == w.db.feeds[k])
            && (a.id in w.db.feeds ==> w1.db.feeds[a.id] == w.db.feeds[a.id].(title := a.title))
  {
  }

  // ----- Titles -----------------------------------------------------------

  /** What `o` brings is written into the row as its title although that is `title` by now. */
  predicate Overwrites(o: PollOutcome, title: string) {
    o.Updated? && o.title.Some? && !IsBlank(o.title.value) && o.title.value != title
  }

  /** A poll under way that read a blank title, and whose answer is still to come or brings another title. */
  predicate MayOverwrite(p: Poll, title: string) {
    IsBlank(p.feed.title) && (p.Answered? ==> Overwrites(p.outcome, title))
  }

  /** The feed has the title `title`, and nothing under way will change it. */
  predicate TitleSafe(w: World, id: int, title: string) {
    id in w.db.feeds ==>
      w.db.feeds[id].title == title && (id in w.polls ==> !MayOverwrite(w.polls[id], title))
  }

  /** Some continuation without a rename of the feed gives it another title while it stays subscribed. */
  ghost predicate CanRetitle(t: Tags, w: World, id: int) {
    id in w.db.feeds &&
    exists steps ::
      && RunAnyId(t, w, steps) && NoSubscribe(steps, id) && NoRename(steps, id)
      && id in After(w, steps).db.feeds && After(w, steps).db.feeds[id].title != w.db.feeds[id].title
  }

  lemma RowStepKeepsTitle(t: Tags, w: World, a: Action, id: int)
    requires BaseInv(t, w) && EnabledAnyId(t, w, a) && !a.BeginStore? && id in w.db.feeds && id in Next(w, a).db.feeds
    requires !(a.Subscribe? && a.id == id) && !(a.Rename? && a.id == id)
    ensures Next(w, a).db.feeds[id].title == w.db.feeds[id].title
  {
  }

  lemma StepKeepsTitleSafe(t: Tags, w: World, a: Action, id: int, title: string)
    requires BaseInv(t, w) && TitleSafe(w, id, title) && EnabledAnyId(t, w, a) && !IsBlank(title)
    requires !(a.Subscribe? && a.id == id) && !(a.Rename? && a.id == id)
    ensures TitleSafe(Next(w, a), id, title)
  {
    StepKeepsTables(t, w, a);
    if !a.BeginStore? && id in Next(w, a).db.feeds {
      RowStepKeepsTitle(t, w, a, id);
    }
  }

  lemma {:induction false} TitleStaysSafe(t: Tags, w: World, steps: seq<Action>, id: int, title: string)
    requires BaseInv(t, w) && TitleSafe(w, id, title) && !IsBlank(title)
    requires RunAnyId(t, w, steps) && NoSubscribe(steps, id) && NoRename(steps, id)
    ensures TitleSafe(After(w, steps), id, title)
  {
    if steps != [] {
      var n := |steps| - 1;
      TitleStaysSafe(t, w, steps[..n], id, title);
      RunKeepsBaseInv(t, w, steps[..n]);
      StepKeepsTitleSafe(t, After(w, steps[..n]), steps[n], id, title);
    }
  }

  lemma StartsStoring(t: Tags, w0: World, id: int, steps: seq<Action>, w: World)
    requires ReachesQuietly(t, w0, id, steps, w) && id in w0.db.feeds && id in w.db.feeds && w.writing.None?
    requires w.db.feeds[id].title == w0.db.feeds[id].title
    requires id in w.polls && w.polls[id].Answered? && MayOverwrite(w.polls[id], w0.db.feeds[id].title)
    ensures CanRetitle(t, w0, id)
  {
    var steps1 := GoQuietly(t, w0, id, steps, w, BeginStore(id));
    assert After(w0, steps1) == Next(w, BeginStore(id));
  }

  lemma OtherTitle(title: string) returns (other: string)
    ensures !IsBlank(other) && other != title
  {
    other := seq(|title| + 1, _ => 'a');
    assert other[0] == 'a';
  }

  lemma AnswersWithATitle(t: Tags, w0: World, id: int, steps: seq<Action>, w: World, title: string)
    returns (steps1: seq<Action>, w1: World)
    requires ReachesQuietly(t, w0, id, steps, w) && id in w.polls && w.polls[id].Asked? && !IsBlank(title)
    ensures ReachesQuietly(t, w0, id, steps1, w1) && w1.db == w.db && w1.writing == w.writing && id in w1.polls
    ensures w1.polls[id].Answered? && w1.polls[id].feed == w.polls[id].feed
    ensures w1.polls[id].outcome.Updated? && w1.polls[id].outcome.title == Some(title)
  {
    var url := w.polls[id].feed.url;
    var doc := Doc(Validators(None, None), Some(title), []);
    steps1 := GoQuietly(t, w0, id, steps, w, Publish(url, doc));
    w1 := Next(w, Publish(url, doc));
    var reply := Reply(200, None, None, None, Parsed(Some(title), []));
    var w2 := w1;
    steps1 := GoQuietly(t, w0, id, steps1, w2, Fetch(id, reply));
    w1 := Next(w2, Fetch(id, reply));
  }

  lemma OverwriteHappens(t: Tags, w: World, id: int)
    requires BaseInv(t, w) && id in w.db.feeds && id in w.polls && MayOverwrite(w.polls[id], w.db.feeds[id].title)
    ensures CanRetitle(t, w, id)
  {
    var steps, w1 := Clears(t, w, id, [], w);
    if w1.polls[id].Asked? {
      var other := OtherTitle(w.db.feeds[id].title);
      steps, w1 := AnswersWithATitle(t, w, id, steps, w1, other);
    }
    StartsStoring(t, w, id, steps, w1);
  }

  /** A title that is not blank is the user's to keep, with one exception: some continuation in which the user does
      not rename the feed gives it another title, if and only if a poll is under way that read a blank title before
      the user gave this one, and its answer is still to come or brings another title. */
  lemma TitleIsOverwrittenExactlyWhen(t: Tags, w: World, id: int)
    requires BaseInv(t, w) && id in w.db.feeds && !IsBlank(w.db.feeds[id].title)
    ensures CanRetitle(t, w, id) <==> id in w.polls && MayOverwrite(w.polls[id], w.db.feeds[id].title)
  {
    if id in w.polls && MayOverwrite(w.polls[id], w.db.feeds[id].title) {
      OverwriteHappens(t, w, id);
    } else if CanRetitle(t, w, id) {
      var steps :| RunAnyId(t, w, steps) && NoSubscribe(steps, id) && NoRename(steps, id) &&
                   id in After(w, steps).db.feeds && After(w, steps).db.feeds[id].title != w.db.feeds[id].title;
      TitleStaysSafe(t, w, steps, id, w.db.feeds[id].title);
    }
  }
}
