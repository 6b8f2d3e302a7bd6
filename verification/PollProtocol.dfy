/** Polls interleaved with user actions, publications by the servers and crashes.

    A poll is a snapshot of the feed row, a fetch against whatever the server serves at that
    moment, and then the separately committed writes of linux/fodderd/src/scheduler.rs. Between any
    two of these steps the viewer process may write to the same file and the daemon may die. */
module PollProtocol {
  import opened Wrappers
  import opened Chars
  import opened SqlTime
  import opened Tables
  import opened Poller

  datatype Validators = Validators(etag: Option<string>, lastModified: Option<string>)

  /** A document as a server serves it. */
  datatype Doc = Doc(validators: Validators, title: Option<string>, items: seq<NewArticle>)

  datatype Poll =
    | Asked(feed: Feed)
    | Answered(feed: Feed, outcome: PollOutcome, seen: Doc)

  datatype Stage = Titled | Added(ids: seq<nat>) | Recorded(ids: seq<nat>)

  /** store_updated between two of its commits. */
  datatype Writing = Writing(feedId: int, feed: Feed, outcome: PollOutcome, seen: Doc, stage: Stage)

  /** `db` is what survives a crash. `epoch` names each subscription (row ids are reused), `clock` is
      the next unused name, `confirmed` collects the guids of every document a 200 stored or a 304
      vouched for in the current subscription, and `log` is everything ever reported as new. */
  datatype World = World(
    db: Db,
    server: map<string, Doc>,
    polls: map<int, Poll>,
    writing: Option<Writing>,
    epoch: map<int, nat>,
    clock: nat,
    confirmed: map<int, set<string>>,
    log: seq<(nat, string)>)

  datatype Action =
    | Publish(url: string, doc: Doc)
    | Subscribe(id: int, newUrl: string, title: string, now: Instant)
    | Unsubscribe(id: int)
    | DeleteArticle(rowId: nat)
    | ClearFeed(id: int)
    | SetRead(rowId: nat, read: bool)
    | MarkAllRead(scope: Option<int>)
    | Rename(id: int, title: string)
    | Snapshot(id: int)
    | Fetch(id: int, reply: Reply)
    | Settle(id: int, next: Instant)
    | RecordError(id: int, next: Instant)
    | BeginStore(id: int)
    | AddArticles
    | RecordSuccess(next: Instant)
    | Report
    | Crash

  /** What the validators of a URL stand for: the guids of the document that carried them. */
  type Tags = (string, Validators) -> set<string>

  // ----- Assumptions on servers -------------------------------------------

  predicate Conditional(v: Validators) {
    v.etag.Some? || v.lastModified.Some?
  }

  function SentBy(f: Feed): Validators {
    Validators(f.etag, f.lastModified)
  }

  /** Equal validators mean equal guid sets. */
  predicate Tagged(t: Tags, url: string, doc: Doc) {
    Conditional(doc.validators) ==> t(url, doc.validators) == Guids(doc.items)
  }

  /** A body is the served document; a 304 is sent only when the request named that document. */
  predicate Honest(t: Tags, feed: Feed, doc: Doc, outcome: PollOutcome) {
    && (outcome.NotModified? ==> Conditional(SentBy(feed)) && t(feed.url, SentBy(feed)) == Guids(doc.items))
    && (outcome.Updated? ==>
          Validators(outcome.etag, outcome.lastModified) == doc.validators && outcome.items == doc.items)
  }

  // ----- Steps ------------------------------------------------------------

  predicate InFlight(w: World, id: int) {
    id in w.polls || (w.writing.Some? && w.writing.value.feedId == id)
  }

  /** Storing the answer `o` for a feed at `url` of which `known` is known leaves validators that vouch for
      what is known by then. */
  ghost predicate UpdateSafe(t: Tags, known: set<string>, url: string, o: PollOutcome) {
    o.Updated? ==>
      var v := Validators(o.etag, o.lastModified);
      Conditional(v) ==> t(url, v) <= known + Guids(o.items)
  }

  /** However a poll ends, it does a feed at `url` of which `known` is known no harm: a 304 confirms what is known,
      and a 200 brings validators that vouch for no more than is known then. */
  ghost predicate PollSafe(t: Tags, known: set<string>, url: string, p: Poll) {
    match p
    case Asked(feed) =>
      && (Conditional(SentBy(feed)) ==> t(feed.url, SentBy(feed)) <= known)
      && forall v: Validators :: Conditional(v) ==> t(url, v) <= known + t(feed.url, v)
    case Answered(_, outcome, seen) =>
      && (outcome.NotModified? ==> Guids(seen.items) <= known)
      && UpdateSafe(t, known, url, outcome)
  }

  ghost predicate WritingSafe(t: Tags, known: set<string>, url: string, wr: Writing) {
    wr.outcome.Updated? ==>
      match wr.stage
      case Titled => UpdateSafe(t, known, url, wr.outcome)
      case Added(_) => Guids(wr.seen.items) <= known && UpdateSafe(t, known, url, wr.outcome)
      case Recorded(_) => true
  }

  /** What is under way for `id` does a feed at `url` of which `known` is known no harm. */
  ghost predicate Safe(t: Tags, w: World, id: int, known: set<string>, url: string) {
    && (id in w.polls ==> PollSafe(t, known, url, w.polls[id]))
    && (w.writing.Some? && w.writing.value.feedId == id ==> WritingSafe(t, known, url, w.writing.value))
  }

  /** A feed newly subscribed at `url` under this id can be harmed by a poll of the feed that had the id before.
      Subscribing is exactly then dangerous, see ReissueConditions. */
  ghost predicate Harmful(t: Tags, w: World, id: int, url: string) {
    !Safe(t, w, id, {}, url)
  }

  /** The one assumption on the user: a row id freed by an unsubscribe is not given to a new feed
      while a poll of the old feed that can harm it is still under way. */
  ghost predicate Enabled(t: Tags, w: World, a: Action) {
    EnabledAnyId(t, w, a) && (a.Subscribe? ==> !Harmful(t, w, a.id, a.newUrl))
  }

  predicate EnabledAnyId(t: Tags, w: World, a: Action) {
    match a
    case Publish(url, doc) => Tagged(t, url, doc)
    case Subscribe(id, url, _, _) => id !in w.db.feeds && !UrlTaken(w.db.feeds, url)
    case Snapshot(id) => id in w.db.feeds && !InFlight(w, id)
    case Fetch(id, reply) =>
      && id in w.polls && w.polls[id].Asked? && w.polls[id].feed.url in w.server
      && Honest(t, w.polls[id].feed, w.server[w.polls[id].feed.url], Classify(reply))
    case Settle(id, _) =>
      && id in w.polls && w.polls[id].Answered? && w.writing.None?
      && (w.polls[id].outcome.NotModified? || w.polls[id].outcome.RateLimited?)
    case RecordError(id, _) => id in w.polls && w.polls[id].Answered? && w.writing.None? && w.polls[id].outcome.Error?
    case BeginStore(id) => id in w.polls && w.polls[id].Answered? && w.writing.None? && w.polls[id].outcome.Updated?
    case AddArticles => w.writing.Some? && w.writing.value.stage.Titled?
    case RecordSuccess(_) => w.writing.Some? && w.writing.value.stage.Added?
    case Report => w.writing.Some? && w.writing.value.stage.Recorded?
    case _ => true
  }

  /** The title write of store_updated: only into a blank title, only from a non-blank one. */
  function Retitled(db: Db, id: int, seen: Feed, title: Option<string>): Db {
    if IsBlank(seen.title) && title.Some? && !IsBlank(title.value)
    then WithFeed(db, id, (f: Feed) => f.(title := title.value))
    else db
  }

  function RowGuid(rows: seq<Article>, id: nat): (r: Option<string>)
    ensures r.Some? ==> exists a :: a in rows && a.id == id && a.guid == r.value
    ensures r.None? ==> forall a :: a in rows ==> a.id != id
  {
    if rows == [] then None
    else if rows[0].id == id then Some(rows[0].guid)
    else RowGuid(rows[1..], id)
  }

  /** The freshly inserted rows that are still there, newest first, as store_updated collects them. */
  function Collected(rows: seq<Article>, ids: seq<nat>): seq<string> {
    if ids == [] then [] else
      var found := RowGuid(rows, ids[|ids| - 1]);
      (if found.Some? then [found.value] else []) + Collected(rows, ids[..|ids| - 1])
  }

  function Stamped(epoch: nat, guids: seq<string>): seq<(nat, string)> {
    seq(|guids|, i requires 0 <= i < |guids| => (epoch, guids[i]))
  }

  function Confirm(w: World, id: int, doc: Doc): map<int, set<string>> {
    if id in w.confirmed then w.confirmed[id := w.confirmed[id] + Guids(doc.items)] else w.confirmed
  }

  ghost function Next(w: World, a: Action): World {
    match a
    case Publish(url, doc) => w.(server := w.server[url := doc])
    case Subscribe(id, url, title, now) =>
      w.(db := Subscribed(w.db, id, url, title, now),
         epoch := w.epoch[id := w.clock], clock := w.clock + 1, confirmed := w.confirmed[id := {}])
    case Unsubscribe(id) =>
      w.(db := Unsubscribed(w.db, id), epoch := w.epoch - {id}, confirmed := w.confirmed - {id})
    case DeleteArticle(rowId) => w.(db := DeletedArticle(w.db, rowId))
    case ClearFeed(id) => w.(db := ClearedFeed(w.db, id))
    case SetRead(rowId, read) => w.(db := MarkedDb(w.db, (x: Article) => x.id == rowId, read))
    case MarkAllRead(scope) =>
      w.(db := MarkedDb(w.db, (x: Article) => scope == None || scope == Some(x.feedId), true))
    case Rename(id, title) => w.(db := WithFeed(w.db, id, (f: Feed) => f.(title := title)))
    case Snapshot(id) => if id in w.db.feeds then w.(polls := w.polls[id := Asked(w.db.feeds[id])]) else w
    case Fetch(id, reply) =>
      if id in w.polls && w.polls[id].feed.url in w.server then
        var f := w.polls[id].feed;
        w.(polls := w.polls[id := Answered(f, Classify(reply), w.server[f.url])])
      else w
    case Settle(id, next) =>
      if id in w.polls && w.polls[id].Answered? then
        w.(db := WithFeed(w.db, id, (f: Feed) => Rescheduled(f, next)),
           polls := w.polls - {id},
           confirmed := if w.polls[id].outcome.NotModified? then Confirm(w, id, w.polls[id].seen) else w.confirmed)
      else w
    case RecordError(id, next) =>
      if id in w.polls && w.polls[id].Answered? && w.polls[id].outcome.Error? then
        var p := w.polls[id];
        w.(db := WithFeed(w.db, id, (f: Feed) => Failed(f, p.outcome.message, p.feed.errorCount + 1, next)),
           polls := w.polls - {id})
      else w
    case BeginStore(id) =>
      if id in w.polls && w.polls[id].Answered? && w.polls[id].outcome.Updated? then
        var p := w.polls[id];
        w.(db := Retitled(w.db, id, p.feed, p.outcome.title), polls := w.polls - {id},
           writing := Some(Writing(id, p.feed, p.outcome, p.seen, Titled)))
      else w
    case AddArticles =>
      if w.writing.Some? && w.writing.value.outcome.Updated? then
        var wr := w.writing.value;
        if InsertFails(w.db, wr.feedId, wr.outcome.items)
        then w.(polls := map[], writing := None)  // the error aborts the whole pass
        else w.(db := Inserted(w.db, wr.feedId, wr.outcome.items),
                writing := Some(wr.(stage := Added(InsertedIds(w.db, wr.feedId, wr.outcome.items)))))
      else w
    case RecordSuccess(next) =>
      if w.writing.Some? && w.writing.value.stage.Added? && w.writing.value.outcome.Updated? then
        var wr := w.writing.value;
        w.(db := WithFeed(w.db, wr.feedId, (f: Feed) => Succeeded(f, wr.outcome.etag, wr.outcome.lastModified, next)),
           confirmed := Confirm(w, wr.feedId, wr.seen),
           writing := Some(wr.(stage := Recorded(wr.stage.ids))))
      else w
    case Report =>
      if w.writing.Some? && w.writing.value.stage.Recorded? then
        var wr := w.writing.value;
        w.(log := w.log + (if wr.feedId in w.epoch
                           then Stamped(w.epoch[wr.feedId], Collected(w.db.articles, wr.stage.ids)) else []),
           writing := None)
      else w
    case Crash => w.(polls := map[], writing := None)
  }

  const START: World := World(Db(map[], [], {}), map[], map[], None, map[], 0, map[], [])

  ghost function After(w: World, steps: seq<Action>): World {
    if steps == [] then w else Next(After(w, steps[..|steps| - 1]), steps[|steps| - 1])
  }

  ghost predicate Run(t: Tags, w: World, steps: seq<Action>) {
    steps == [] || (var n := |steps| - 1; Run(t, w, steps[..n]) && Enabled(t, After(w, steps[..n]), steps[n]))
  }

  /** The same without the assumption. */
  ghost predicate RunAnyId(t: Tags, w: World, steps: seq<Action>) {
    steps == [] ||
    (var n := |steps| - 1; RunAnyId(t, w, steps[..n]) && EnabledAnyId(t, After(w, steps[..n]), steps[n]))
  }

  // ----- The invariant: stored validators vouch for stored items -----------

  /** Every guid the validators `v` of `url` stand for is stored or was deleted by the user. */
  ghost predicate Vouched(t: Tags, db: Db, id: int, url: string, v: Validators) {
    Conditional(v) ==> t(url, v) <= Known(db, id)
  }

  ghost predicate RowsVouched(t: Tags, w: World) {
    forall id :: id in w.db.feeds ==> Vouched(t, w.db, id, w.db.feeds[id].url, SentBy(w.db.feeds[id]))
  }

  ghost predicate PollHonest(t: Tags, p: Poll) {
    p.Answered? ==> Tagged(t, p.feed.url, p.seen) && Honest(t, p.feed, p.seen, p.outcome)
  }

  ghost predicate WritingHonest(t: Tags, w: World) {
    w.writing.Some? ==>
      var wr := w.writing.value;
      && wr.feedId !in w.polls
      && wr.outcome.Updated? && Tagged(t, wr.feed.url, wr.seen) && Honest(t, wr.feed, wr.seen, wr.outcome)
  }

  /** What holds of every run, whichever ids are reissued when. */
  ghost predicate BaseInv(t: Tags, w: World) {
    && Integrity(w.db)
    && (forall url :: url in w.server ==> Tagged(t, url, w.server[url]))
    && (forall id :: id in w.polls ==> PollHonest(t, w.polls[id]))
    && WritingHonest(t, w)
    && w.confirmed.Keys == w.db.feeds.Keys
  }

  ghost predicate ConfirmedKept(w: World, id: int) {
    id in w.confirmed ==> w.confirmed[id] <= Known(w.db, id)
  }

  /** One feed's part of the invariant: its validators vouch for what is known, everything confirmed is known, and
      what is under way cannot change that. */
  ghost predicate FeedSafe(t: Tags, w: World, id: int) {
    id in w.db.feeds ==>
      var f := w.db.feeds[id];
      Vouched(t, w.db, id, f.url, SentBy(f)) && ConfirmedKept(w, id) && Safe(t, w, id, Known(w.db, id), f.url)
  }

  ghost predicate CacheInv(t: Tags, w: World) {
    BaseInv(t, w) && forall id :: FeedSafe(t, w, id)
  }

  /** The tables stay sound, and a feed that stays subscribed keeps its url and all its known guids. */
  ghost predicate TablesKept(db: Db, db1: Db) {
    && Integrity(db1)
    && forall id :: id in db.feeds && id in db1.feeds ==>
         Known(db, id) <= Known(db1, id) && db1.feeds[id].url == db.feeds[id].url
  }

  lemma WithFeedKeepsTables(db: Db, id: int, g: Feed -> Feed)
    requires Integrity(db) && forall f :: g(f).url == f.url
    ensures TablesKept(db, WithFeed(db, id, g))
    ensures WithFeed(db, id, g).feeds.Keys == db.feeds.Keys
    ensures forall k :: Known(WithFeed(db, id, g), k) == Known(db, k)
  {
    WithFeedIntegrity(db, id, g);
  }

  predicate ByUser(a: Action) {
    || a.Publish? || a.Subscribe? || a.Unsubscribe? || a.Rename?
    || a.DeleteArticle? || a.ClearFeed? || a.SetRead? || a.MarkAllRead?
  }

  lemma UserStepKeepsTables(t: Tags, w: World, a: Action)
    requires Integrity(w.db) && EnabledAnyId(t, w, a) && ByUser(a)
    ensures TablesKept(w.db, Next(w, a).db)
  {
    match a
    case Subscribe(id, url, title, now) =>
      SubscribedIntegrity(w.db, id, url, title, now);
    case Unsubscribe(id) =>
      UnsubscribedIntegrity(w.db, id);
    case DeleteArticle(rowId) =>
      BuryStep(w.db, (x: Article) => x.id == rowId);
    case ClearFeed(id) =>
      BuryStep(w.db, (x: Article) => x.feedId == id);
    case SetRead(rowId, read) =>
      MarkedIntegrity(w.db, (x: Article) => x.id == rowId, read);
    case MarkAllRead(scope) =>
      MarkedIntegrity(w.db, (x: Article) => scope == None || scope == Some(x.feedId), true);
    case Rename(id, title) =>
      WithFeedKeepsTables(w.db, id, (f: Feed) => f.(title := title));
    case _ =>
  }

  lemma SettleKeepsTables(w: World, a: Action)
    requires Integrity(w.db) && (a.Settle? || a.RecordError?)
    ensures TablesKept(w.db, Next(w, a).db) && Next(w, a).db.feeds.Keys == w.db.feeds.Keys
  {
    if a.id in w.polls && w.polls[a.id].Answered? {
      var p := w.polls[a.id];
      if a.Settle? {
        WithFeedKeepsTables(w.db, a.id, (f: Feed) => Rescheduled(f, a.next));
      } else if p.outcome.Error? {
        WithFeedKeepsTables(w.db, a.id, (f: Feed) => Failed(f, p.outcome.message, p.feed.errorCount + 1, a.next));
      }
    }
  }

  lemma TitleStepKeepsTables(w: World, a: Action)
    requires Integrity(w.db) && a.BeginStore?
    ensures TablesKept(w.db, Next(w, a).db) && Next(w, a).db.feeds.Keys == w.db.feeds.Keys
  {
    if a.id in w.polls && w.polls[a.id].Answered? {
      var o := w.polls[a.id].outcome;
      if o.Updated? && o.title.Some? {
        WithFeedKeepsTables(w.db, a.id, (f: Feed) => f.(title := o.title.value));
      }
    }
  }

  lemma StoreStepKeepsTables(w: World, a: Action)
    requires Integrity(w.db) && (a.BeginStore? || a.AddArticles? || a.RecordSuccess?)
    ensures TablesKept(w.db, Next(w, a).db) && Next(w, a).db.feeds.Keys == w.db.feeds.Keys
  {
    if a.BeginStore? {
      TitleStepKeepsTables(w, a);
    } else if w.writing.Some? && w.writing.value.outcome.Updated? {
      var wr := w.writing.value;
      if a.RecordSuccess? {
        WithFeedKeepsTables(w.db, wr.feedId,
                            (f: Feed) => Succeeded(f, wr.outcome.etag, wr.outcome.lastModified, a.next));
      } else if !InsertFails(w.db, wr.feedId, wr.outcome.items) {
        InsertStep(w.db, wr.feedId, wr.outcome.items);
      }
    }
  }

  lemma StepKeepsTables(t: Tags, w: World, a: Action)
    requires Integrity(w.db) && EnabledAnyId(t, w, a)
    ensures TablesKept(w.db, Next(w, a).db)
    ensures forall id :: id in Next(w, a).db.feeds ==> id in w.db.feeds || (a.Subscribe? && a.id == id)
  {
    if ByUser(a) {
      UserStepKeepsTables(t, w, a);
    } else if a.Settle? || a.RecordError? {
      SettleKeepsTables(w, a);
    } else if a.BeginStore? || a.AddArticles? || a.RecordSuccess? {
      StoreStepKeepsTables(w, a);
    }
  }

  lemma BuryStep(db: Db, p: Article -> bool)
    requires Integrity(db)
    ensures Integrity(Buried(db, p))
    ensures forall id :: Known(Buried(db, p), id) == Known(db, id)
  {
    BuriedIntegrity(db, p);
    forall id
      ensures Known(Buried(db, p), id) == Known(db, id)
    {
      BuriedKeepsKnown(db, p, id);
    }
  }

  lemma InsertStep(db: Db, id: int, items: seq<NewArticle>)
    requires Integrity(db) && !InsertFails(db, id, items)
    ensures Integrity(Inserted(db, id, items))
    ensures Known(Inserted(db, id, items), id) == Known(db, id) + Guids(items)
    ensures forall f :: Known(db, f) <= Known(Inserted(db, id, items), f)
  {
    InsertedIsKnown(db, id, items);
    if id in db.feeds {
      InsertedIntegrity(db, id, items);
    } else {
      NothingFreshInserts(db, id, items);
    }
  }

  // ----- What every step keeps, whatever ids are reissued -----------------

  lemma StepKeepsServers(t: Tags, w: World, a: Action, url: string)
    requires BaseInv(t, w) && EnabledAnyId(t, w, a) && url in Next(w, a).server
    ensures Tagged(t, url, Next(w, a).server[url])
  {
  }

  lemma StepKeepsPollsHonest(t: Tags, w: World, a: Action, id: int)
    requires BaseInv(t, w) && EnabledAnyId(t, w, a) && id in Next(w, a).polls
    ensures PollHonest(t, Next(w, a).polls[id])
  {
    assert id in w.polls ==> PollHonest(t, w.polls[id]);
  }

  lemma StepKeepsWritingHonest(t: Tags, w: World, a: Action)
    requires BaseInv(t, w) && EnabledAnyId(t, w, a)
    ensures WritingHonest(t, Next(w, a))
  {
    if a.BeginStore? {
      assert PollHonest(t, w.polls[a.id]);
    }
  }

  lemma FeedsStep(t: Tags, w: World, a: Action)
    requires BaseInv(t, w) && EnabledAnyId(t, w, a)
    ensures Next(w, a).confirmed.Keys == Next(w, a).db.feeds.Keys
  {
    if a.Settle? || a.RecordError? {
      SettleKeepsTables(w, a);
    } else if a.BeginStore? || a.AddArticles? || a.RecordSuccess? {
      StoreStepKeepsTables(w, a);
    }
  }

  lemma StepKeepsBaseInv(t: Tags, w: World, a: Action)
    requires BaseInv(t, w) && EnabledAnyId(t, w, a)
    ensures BaseInv(t, Next(w, a))
  {
    StepKeepsTables(t, w, a);
    StepKeepsWritingHonest(t, w, a);
    FeedsStep(t, w, a);
    var w1 := Next(w, a);
    forall url | url in w1.server
      ensures Tagged(t, url, w1.server[url])
    {
      StepKeepsServers(t, w, a, url);
    }
    forall id | id in w1.polls
      ensures PollHonest(t, w1.polls[id])
    {
      StepKeepsPollsHonest(t, w, a, id);
    }
  }

  // ----- What every step keeps of one feed --------------------------------

  /** A step changes a row's validators only to those of a document whose guids are all known. */
  lemma ValidatorsStep(t: Tags, w: World, a: Action, id: int)
    requires BaseInv(t, w) && FeedSafe(t, w, id) && EnabledAnyId(t, w, a)
    requires id in w.db.feeds && id in Next(w, a).db.feeds
    ensures var v := SentBy(Next(w, a).db.feeds[id]);
            v == SentBy(w.db.feeds[id]) || Vouched(t, w.db, id, w.db.feeds[id].url, v)
  {
  }

  lemma StepKeepsRowVouched(t: Tags, w: World, a: Action, id: int)
    requires BaseInv(t, w) && FeedSafe(t, w, id) && EnabledAnyId(t, w, a) && id in Next(w, a).db.feeds
    ensures var w1 := Next(w, a); Vouched(t, w1.db, id, w1.db.feeds[id].url, SentBy(w1.db.feeds[id]))
  {
    StepKeepsTables(t, w, a);
    if id in w.db.feeds {
      ValidatorsStep(t, w, a, id);
    }
  }

  /** A confirmation adds only guids that are known by then. */
  lemma ConfirmedAdds(t: Tags, w: World, a: Action, id: int)
    requires BaseInv(t, w) && FeedSafe(t, w, id) && EnabledAnyId(t, w, a) && id in Next(w, a).confirmed
    ensures || (a.Subscribe? && a.id == id && Next(w, a).confirmed[id] == {})
            || (id in w.confirmed && Next(w, a).confirmed[id] <= Known(w.db, id))
  {
  }

  lemma StepKeepsConfirmed(t: Tags, w: World, a: Action, id: int)
    requires BaseInv(t, w) && FeedSafe(t, w, id) && EnabledAnyId(t, w, a)
    ensures ConfirmedKept(Next(w, a), id)
  {
    StepKeepsTables(t, w, a);
    FeedsStep(t, w, a);
    if id in Next(w, a).confirmed {
      ConfirmedAdds(t, w, a, id);
    }
  }

  /** What is harmless stays so as more becomes known. */
  lemma SafeGrows(t: Tags, w: World, id: int, known: set<string>, more: set<string>, url: string)
    requires Safe(t, w, id, known, url) && known <= more
    ensures Safe(t, w, id, more, url)
  {
  }

  lemma StepKeepsPollSafe(t: Tags, w: World, a: Action, id: int)
    requires BaseInv(t, w) && FeedSafe(t, w, id) && EnabledAnyId(t, w, a) && id in w.db.feeds && id in Next(w, a).polls
    ensures PollSafe(t, Known(w.db, id), w.db.feeds[id].url, Next(w, a).polls[id])
  {
    if a.Fetch? && a.id == id {
      StepKeepsPollsHonest(t, w, a, id);
    }
  }

  /** Between the two commits every guid of the document is known already. */
  lemma AddedIsSafe(t: Tags, w: World, id: int)
    requires BaseInv(t, w) && FeedSafe(t, w, id) && EnabledAnyId(t, w, AddArticles) && id in w.db.feeds
    requires w.writing.value.feedId == id
    ensures var w1 := Next(w, AddArticles);
            && w1.writing.Some? && w1.writing.value.stage.Added?
            && Guids(w1.writing.value.seen.items) <= Known(w1.db, id)
            && WritingSafe(t, Known(w1.db, id), w.db.feeds[id].url, w1.writing.value)
  {
    InsertStep(w.db, id, w.writing.value.outcome.items);
  }

  lemma StepKeepsWritingSafe(t: Tags, w: World, a: Action, id: int)
    requires BaseInv(t, w) && FeedSafe(t, w, id) && EnabledAnyId(t, w, a) && id in w.db.feeds
    requires !a.AddArticles? && Next(w, a).writing.Some? && Next(w, a).writing.value.feedId == id
    ensures WritingSafe(t, Known(w.db, id), w.db.feeds[id].url, Next(w, a).writing.value)
  {
  }

  lemma StepKeepsSafe(t: Tags, w: World, a: Action, id: int)
    requires BaseInv(t, w) && FeedSafe(t, w, id) && EnabledAnyId(t, w, a)
    requires id in w.db.feeds && id in Next(w, a).db.feeds
    ensures var w1 := Next(w, a); Safe(t, w1, id, Known(w1.db, id), w1.db.feeds[id].url)
  {
    var w1 := Next(w, a);
    StepKeepsTables(t, w, a);
    var known, more, url := Known(w.db, id), Known(w1.db, id), w.db.feeds[id].url;
    if id in w1.polls {
      StepKeepsPollSafe(t, w, a, id);
    }
    if w1.writing.Some? && w1.writing.value.feedId == id {
      if a.AddArticles? {
        AddedIsSafe(t, w, id);
      } else {
        StepKeepsWritingSafe(t, w, a, id);
      }
    }
  }

  /** The feed's part holds of a new subscription exactly because it is harmless. */
  lemma SubscribeIsSafe(t: Tags, w: World, a: Action)
    requires BaseInv(t, w) && EnabledAnyId(t, w, a) && a.Subscribe? && !Harmful(t, w, a.id, a.newUrl)
    ensures FeedSafe(t, Next(w, a), a.id)
  {
    SubscribedIntegrity(w.db, a.id, a.newUrl, a.title, a.now);
  }

  /** Every step that does not reissue the id harmfully keeps a feed's part, whatever is done to other ids. */
  lemma StepKeepsFeedSafe(t: Tags, w: World, a: Action, id: int)
    requires BaseInv(t, w) && FeedSafe(t, w, id) && EnabledAnyId(t, w, a)
    requires a.Subscribe? && a.id == id ==> !Harmful(t, w, id, a.newUrl)
    ensures FeedSafe(t, Next(w, a), id)
  {
    StepKeepsTables(t, w, a);
    if id in Next(w, a).db.feeds {
      if id in w.db.feeds {
        StepKeepsRowVouched(t, w, a, id);
        StepKeepsConfirmed(t, w, a, id);
        StepKeepsSafe(t, w, a, id);
      } else {
        SubscribeIsSafe(t, w, a);
      }
    }
  }

  lemma StepKeepsCacheInv(t: Tags, w: World, a: Action)
    requires CacheInv(t, w) && Enabled(t, w, a)
    ensures CacheInv(t, Next(w, a))
  {
    StepKeepsBaseInv(t, w, a);
    forall id
      ensures FeedSafe(t, Next(w, a), id)
    {
      StepKeepsFeedSafe(t, w, a, id);
    }
  }

  lemma {:induction false} RunKeepsBaseInv(t: Tags, w: World, steps: seq<Action>)
    requires BaseInv(t, w) && RunAnyId(t, w, steps)
    ensures BaseInv(t, After(w, steps))
  {
    if steps != [] {
      var n := |steps| - 1;
      RunKeepsBaseInv(t, w, steps[..n]);
      StepKeepsBaseInv(t, After(w, steps[..n]), steps[n]);
    }
  }

  lemma {:induction false} RunKeepsCacheInv(t: Tags, w: World, steps: seq<Action>)
    requires CacheInv(t, w) && Run(t, w, steps)
    ensures CacheInv(t, After(w, steps))
  {
    if steps != [] {
      var n := |steps| - 1;
      RunKeepsCacheInv(t, w, steps[..n]);
      StepKeepsCacheInv(t, After(w, steps[..n]), steps[n]);
    }
  }

  /** Conditional polling loses nothing, whatever the interleaving and wherever the daemon dies:
      validators in a feed row stand only for guids that are stored or were deleted by the user,
      and so does every document a 200 stored or a 304 vouched for. */
  lemma {:induction false} ConditionalPollingLosesNothing(t: Tags, steps: seq<Action>, id: int)
    requires Run(t, START, steps)
    requires id in After(START, steps).db.feeds
    ensures var w := After(START, steps);
            var f := w.db.feeds[id];
            && (Conditional(SentBy(f)) ==> t(f.url, SentBy(f)) <= Known(w.db, id))
            && w.confirmed.Keys == w.db.feeds.Keys && w.confirmed[id] <= Known(w.db, id)
  {
    RunKeepsCacheInv(t, START, steps);
    var w := After(START, steps);
    assert FeedSafe(t, w, id);
  }

  /** Already when the 304 arrives, before it is recorded, no item of the document is missing. */
  lemma {:induction false} NotModifiedMissesNothing(t: Tags, steps: seq<Action>, id: int)
    requires Run(t, START, steps)
    requires id in After(START, steps).polls && id in After(START, steps).db.feeds
    requires After(START, steps).polls[id].Answered? && After(START, steps).polls[id].outcome.NotModified?
    ensures Guids(After(START, steps).polls[id].seen.items) <= Known(After(START, steps).db, id)
  {
    RunKeepsCacheInv(t, START, steps);
    var w := After(START, steps);
    assert FeedSafe(t, w, id);
  }

  /** An id with nothing under way can always be reissued. */
  lemma NothingUnderWayIsHarmless(t: Tags, w: World, id: int, url: string)
    requires !InFlight(w, id)
    ensures !Harmful(t, w, id, url)
  {
  }
}
