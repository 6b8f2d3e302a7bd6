/** What one poll does from end to end: a new document is stored, reported and can be revalidated, an unchanged one is
    confirmed, a failure costs nothing but the error state; and what each user action does. */
module PollCycle {
  import opened Wrappers
  import opened Chars
  import opened SqlTime
  import opened Tables
  import opened Poller
  import opened PollProtocol
  import ReportOnce
  import Refresh

  // ----- What a report says -----------------------------------------------

  function Reversed(s: seq<string>): (r: seq<string>)
    ensures |r| == |s|
  {
    seq(|s|, i requires 0 <= i < |s| => s[|s| - 1 - i])
  }

  function GuidsInOrder(rows: seq<Article>): (r: seq<string>)
    ensures |r| == |rows|
  {
    seq(|rows|, i requires 0 <= i < |rows| => rows[i].guid)
  }

  function RowsWith(rows: seq<Article>, ids: seq<nat>): seq<Article> {
    Filter(rows, (a: Article) => a.id in ids)
  }

  /** A larger id selects rows that come after those of the smaller ones. */
  lemma {:induction false} LargestComesLast(rows: seq<Article>, ids: seq<nat>, top: nat)
    requires IdsAscend(rows) && forall i :: i in ids ==> i < top
    ensures RowsWith(rows, ids + [top]) == RowsWith(rows, ids) + RowsWith(rows, [top])
  {
    if rows != [] {
      var n := |rows| - 1;
      LargestComesLast(rows[..n], ids, top);
      if rows[n].id in ids {
        NoneWith(rows[..n], top);
        assert RowsWith(rows[..n], ids) + [] + [rows[n]] == RowsWith(rows[..n], ids) + [rows[n]] + [];
      }
    }
  }

  lemma {:induction false} NoneWith(rows: seq<Article>, id: nat)
    requires forall a :: a in rows ==> a.id != id
    ensures RowsWith(rows, [id]) == []
  {
    if rows != [] {
      assert rows[|rows| - 1] in rows;
      NoneWith(rows[..|rows| - 1], id);
    }
  }

  function Listed(guid: Option<string>): seq<string> {
    if guid.Some? then [guid.value] else []
  }

  lemma {:induction false} OneWith(rows: seq<Article>, id: nat)
    requires IdsAscend(rows)
    ensures GuidsInOrder(RowsWith(rows, [id])) == Listed(RowGuid(rows, id))
  {
    if rows != [] {
      var n := |rows| - 1;
      if rows[n].id == id {
        OneAtTheEnd(rows, id);
      } else {
        OneWith(rows[..n], id);
        NotAtTheEnd(rows, id);
      }
    }
  }

  lemma OneAtTheEnd(rows: seq<Article>, id: nat)
    requires IdsAscend(rows) && rows != [] && rows[|rows| - 1].id == id
    ensures RowsWith(rows, [id]) == [rows[|rows| - 1]]
    ensures RowGuid(rows, id) == Some(rows[|rows| - 1].guid)
  {
    NoneWith(rows[..|rows| - 1], id);
    RowGuidOfLast(rows, id);
  }

  lemma NotAtTheEnd(rows: seq<Article>, id: nat)
    requires rows != [] && rows[|rows| - 1].id != id
    ensures RowsWith(rows, [id]) == RowsWith(rows[..|rows| - 1], [id])
    ensures RowGuid(rows, id) == RowGuid(rows[..|rows| - 1], id)
  {
    RowGuidOfLast(rows, id);
    assert RowsWith(rows[..|rows| - 1], [id]) + [] == RowsWith(rows[..|rows| - 1], [id]);
  }

  lemma {:induction false} RowGuidOfLast(rows: seq<Article>, id: nat)
    requires rows != []
    ensures var last, before := rows[|rows| - 1], RowGuid(rows[..|rows| - 1], id);
            RowGuid(rows, id) == if before.Some? then before else if last.id == id then Some(last.guid) else None
  {
    var n := |rows| - 1;
    if n > 0 && rows[0].id != id {
      assert rows[1..][..n - 1] == rows[..n][1..];
      RowGuidOfLast(rows[1..], id);
    }
  }

  lemma ReversedConcat(a: seq<string>, b: seq<string>)
    ensures Reversed(a + b) == Reversed(b) + Reversed(a)
  {
  }

  lemma GuidsInOrderConcat(a: seq<Article>, b: seq<Article>)
    ensures GuidsInOrder(a + b) == GuidsInOrder(a) + GuidsInOrder(b)
  {
  }

  /** What store_updated collects: the guids of exactly the inserted rows that are still there, highest id first. */
  lemma {:induction false} CollectedIsRowsReversed(rows: seq<Article>, ids: seq<nat>)
    requires IdsAscend(rows) && ReportOnce.Ascending(ids)
    ensures Collected(rows, ids) == Reversed(GuidsInOrder(RowsWith(rows, ids)))
  {
    if ids == [] {
      NothingSelected(rows);
    } else {
      var n := |ids| - 1;
      CollectedIsRowsReversed(rows, ids[..n]);
      assert ids == ids[..n] + [ids[n]];
      LargestComesLast(rows, ids[..n], ids[n]);
      OneWith(rows, ids[n]);
      GuidsInOrderConcat(RowsWith(rows, ids[..n]), RowsWith(rows, [ids[n]]));
      ReversedConcat(GuidsInOrder(RowsWith(rows, ids[..n])), GuidsInOrder(RowsWith(rows, [ids[n]])));
      assert Reversed(GuidsInOrder(RowsWith(rows, [ids[n]]))) == GuidsInOrder(RowsWith(rows, [ids[n]]));
    }
  }

  lemma {:induction false} NothingSelected(rows: seq<Article>)
    ensures RowsWith(rows, []) == []
  {
    if rows != [] {
      NothingSelected(rows[..|rows| - 1]);
    }
  }

  /** A report adds exactly these to the log, under the subscription's name; with the subscription gone it adds
      nothing. */
  lemma ReportLogsExactly(t: Tags, w: World)
    requires BaseInv(t, w) && ReportOnce.LogInv(w) && EnabledAnyId(t, w, Report)
    ensures var wr := w.writing.value;
            var news := Reversed(GuidsInOrder(RowsWith(w.db.articles, wr.stage.ids)));
            && (wr.feedId in w.epoch ==> Next(w, Report).log == w.log + Stamped(w.epoch[wr.feedId], news))
            && (wr.feedId !in w.epoch ==> Next(w, Report).log == w.log)
  {
    CollectedIsRowsReversed(w.db.articles, w.writing.value.stage.ids);
  }

  // ----- Steps one after the other ----------------------------------------

  ghost predicate Leads(t: Tags, w0: World, steps: seq<Action>, w: World) {
    RunAnyId(t, w0, steps) && After(w0, steps) == w
  }

  lemma Then(t: Tags, w0: World, steps: seq<Action>, w: World, a: Action)
    requires Leads(t, w0, steps, w) && EnabledAnyId(t, w, a)
    ensures Leads(t, w0, steps + [a], Next(w, a))
  {
    assert (steps + [a])[..|steps|] == steps;
  }

  /** The feed is subscribed with nothing under way, and the server at its url serves `doc`. */
  ghost predicate Serves(w: World, id: int, doc: Doc) {
    && id in w.db.feeds && !InFlight(w, id) && w.writing.None?
    && w.db.feeds[id].url in w.server && w.server[w.db.feeds[id].url] == doc
  }

  function Asking(id: int, reply: Reply): seq<Action> {
    [Snapshot(id), Fetch(id, reply)]
  }

  /** Asking changes nothing but the polls. */
  lemma AskSteps(t: Tags, w: World, id: int, doc: Doc, reply: Reply)
    requires Serves(w, id, doc) && Honest(t, w.db.feeds[id], doc, Classify(reply))
    ensures Leads(t, w, Asking(id, reply),
                  w.(polls := w.polls[id := Answered(w.db.feeds[id], Classify(reply), doc)]))
  {
    var w1 := Next(w, Snapshot(id));
    assert w1 == w.(polls := w.polls[id := Asked(w.db.feeds[id])]);
    Then(t, w, [], w, Snapshot(id));
    assert [] + [Snapshot(id)] == [Snapshot(id)];
    Then(t, w, [Snapshot(id)], w1, Fetch(id, reply));
    assert w1.polls[id := Answered(w.db.feeds[id], Classify(reply), doc)] ==
           w.polls[id := Answered(w.db.feeds[id], Classify(reply), doc)];
  }

  lemma BackToNoPoll(polls: map<int, Poll>, id: int, p: Poll)
    requires id !in polls
    ensures polls[id := p] - {id} == polls
  {
  }

  // ----- A new document ---------------------------------------------------

  /** A successful reply with the served document in its body. */
  predicate Brings(reply: Reply, doc: Doc) {
    && reply.Reply? && 200 <= reply.status <= 299
    && Validators(reply.etag, reply.lastModified) == doc.validators
    && reply.body == Parsed(doc.title, doc.items)
  }

  function Storing(id: int, reply: Reply, next: Instant): seq<Action> {
    Asking(id, reply) + [BeginStore(id)] + [AddArticles] + [RecordSuccess(next)] + [Report]
  }

  function OutcomeOf(doc: Doc): PollOutcome {
    Updated(doc.title, doc.validators.etag, doc.validators.lastModified, doc.items)
  }

  lemma TitleStep(t: Tags, w0: World, steps: seq<Action>, w: World, id: int, feed: Feed, doc: Doc)
    requires Leads(t, w0, steps, w.(polls := w.polls[id := Answered(feed, OutcomeOf(doc), doc)]))
    requires id !in w.polls && w.writing.None?
    ensures Leads(t, w0, steps + [BeginStore(id)],
                  w.(db := Retitled(w.db, id, feed, doc.title),
                     writing := Some(Writing(id, feed, OutcomeOf(doc), doc, Titled))))
  {
    Then(t, w0, steps, w.(polls := w.polls[id := Answered(feed, OutcomeOf(doc), doc)]), BeginStore(id));
    BackToNoPoll(w.polls, id, Answered(feed, OutcomeOf(doc), doc));
  }

  lemma AddStep(t: Tags, w0: World, steps: seq<Action>, w: World, wr: Writing)
    requires Leads(t, w0, steps, w) && w.writing == Some(wr) && wr.stage.Titled? && wr.outcome.Updated?
    requires wr.feedId in w.db.feeds
    ensures Leads(t, w0, steps + [AddArticles],
                  w.(db := Inserted(w.db, wr.feedId, wr.outcome.items),
                     writing := Some(wr.(stage := Added(InsertedIds(w.db, wr.feedId, wr.outcome.items))))))
  {
    Then(t, w0, steps, w, AddArticles);
  }

  lemma RecordStep(t: Tags, w0: World, steps: seq<Action>, w: World, wr: Writing, next: Instant)
    requires Leads(t, w0, steps, w) && w.writing == Some(wr) && wr.stage.Added? && wr.outcome.Updated?
    requires wr.feedId in w.db.feeds && wr.feedId in w.confirmed
    ensures var o := wr.outcome;
            var row := Succeeded(w.db.feeds[wr.feedId], o.etag, o.lastModified, next);
            Leads(t, w0, steps + [RecordSuccess(next)],
                  w.(db := w.db.(feeds := w.db.feeds[wr.feedId := row]),
                     confirmed := w.confirmed[wr.feedId := w.confirmed[wr.feedId] + Guids(wr.seen.items)],
                     writing := Some(wr.(stage := Recorded(wr.stage.ids)))))
  {
    Then(t, w0, steps, w, RecordSuccess(next));
  }

  lemma ReportStep(t: Tags, w0: World, steps: seq<Action>, w: World, wr: Writing)
    requires Leads(t, w0, steps, w) && w.writing == Some(wr) && wr.stage.Recorded? && wr.feedId in w.epoch
    ensures Leads(t, w0, steps + [Report],
                  w.(log := w.log + Stamped(w.epoch[wr.feedId], Collected(w.db.articles, wr.stage.ids)),
                     writing := None))
  {
    Then(t, w0, steps, w, Report);
  }

  // ----- What it comes to -------------------------------------------------

  /** The row after a new document: the title only where there was none, the document's validators, no error. */
  function RowAfter(f: Feed, doc: Doc, next: Instant): Feed {
    var title := if IsBlank(f.title) && doc.title.Some? && !IsBlank(doc.title.value) then doc.title.value else f.title;
    Feed(f.url, title, doc.validators.etag, doc.validators.lastModified, None, 0, Stamp(next))
  }

  lemma RetitledFeed(db: Db, id: int, doc: Doc)
    requires id in db.feeds
    ensures var f := db.feeds[id];
            Retitled(db, id, f, doc.title) == db.(feeds := db.feeds[id := f.(title := RowAfter(f, doc, 0).title)])
  {
    assert db.feeds[id := db.feeds[id]] == db.feeds;
  }

  /** The rows a new document adds. */
  ghost function RowsAdded(db: Db, id: int, doc: Doc): seq<Article> {
    NewRows(NextRowId(db.articles), id, Fresh(Known(db, id), doc.items))
  }

  ghost function Stored(w: World, id: int, doc: Doc, next: Instant): World
    requires id in w.db.feeds && id in w.confirmed && id in w.epoch
  {
    var rows := w.db.articles + RowsAdded(w.db, id, doc);
    w.(db := w.db.(feeds := w.db.feeds[id := RowAfter(w.db.feeds[id], doc, next)], articles := rows),
       confirmed := w.confirmed[id := w.confirmed[id] + Guids(doc.items)],
       log := w.log + Stamped(w.epoch[id], Collected(rows, InsertedIds(w.db, id, doc.items))))
  }

  lemma TitleAndAddSteps(t: Tags, w: World, id: int, doc: Doc, reply: Reply)
    requires Serves(w, id, doc) && Brings(reply, doc)
    ensures var f := w.db.feeds[id];
            var db := w.db.(feeds := w.db.feeds[id := f.(title := RowAfter(f, doc, 0).title)],
                            articles := w.db.articles + RowsAdded(w.db, id, doc));
            Leads(t, w, Asking(id, reply) + [BeginStore(id)] + [AddArticles],
                  w.(db := db, writing := Some(Writing(id, f, OutcomeOf(doc), doc,
                                                       Added(InsertedIds(w.db, id, doc.items))))))
  {
    var f := w.db.feeds[id];
    AskSteps(t, w, id, doc, reply);
    TitleStep(t, w, Asking(id, reply), w, id, f, doc);
    RetitledFeed(w.db, id, doc);
    var wr := Writing(id, f, OutcomeOf(doc), doc, Titled);
    var w1 := w.(db := Retitled(w.db, id, f, doc.title), writing := Some(wr));
    AddStep(t, w, Asking(id, reply) + [BeginStore(id)], w1, wr);
    assert Known(w1.db, id) == Known(w.db, id);
  }

  /** The six steps of a poll that brings a new document. */
  lemma StoringSteps(t: Tags, w: World, id: int, doc: Doc, reply: Reply, next: Instant)
    requires Serves(w, id, doc) && Brings(reply, doc) && id in w.confirmed && id in w.epoch
    ensures Leads(t, w, Storing(id, reply, next), Stored(w, id, doc, next))
  {
    var f := w.db.feeds[id];
    TitleAndAddSteps(t, w, id, doc, reply);
    var wr := Writing(id, f, OutcomeOf(doc), doc, Added(InsertedIds(w.db, id, doc.items)));
    var titled := w.db.feeds[id := f.(title := RowAfter(f, doc, 0).title)];
    var db := w.db.(feeds := titled, articles := w.db.articles + RowsAdded(w.db, id, doc));
    var steps := Asking(id, reply) + [BeginStore(id)] + [AddArticles];
    var w2 := w.(db := db, writing := Some(wr));
    RecordStep(t, w, steps, w2, wr, next);
    var w3 := w2.(db := db.(feeds := titled[id := RowAfter(f, doc, next)]),
                  confirmed := w.confirmed[id := w.confirmed[id] + Guids(doc.items)],
                  writing := Some(wr.(stage := Recorded(wr.stage.ids))));
    ReportStep(t, w, steps + [RecordSuccess(next)], w3, wr.(stage := Recorded(wr.stage.ids)));
    assert titled[id := RowAfter(f, doc, next)] == w.db.feeds[id := RowAfter(f, doc, next)];
  }

  /** The row is unread and says what the item says. */
  ghost predicate Holds(a: Article, rowId: nat, feedId: int, item: NewArticle) {
    && a.id == rowId && a.feedId == feedId && !a.isRead
    && a.guid == item.guid && a.title == item.title && a.url == item.url && a.content == item.content
    && (item.published.Some? ==> a.published == Some(Stamp(item.published.value)))
    && (item.published.None? ==> a.published == None)
  }

  ghost predicate GrowsBy(rows: seq<Article>, rows1: seq<Article>, feedId: int, items: seq<NewArticle>) {
    && rows <= rows1 && |rows1| == |rows| + |items|
    && forall k :: 0 <= k < |items| ==> Holds(rows1[|rows| + k], NextRowId(rows) + k, feedId, items[k])
  }

  lemma NewRowsHold(rows: seq<Article>, id: int, items: seq<NewArticle>)
    ensures GrowsBy(rows, rows + NewRows(NextRowId(rows), id, items), id, items)
  {
  }

  lemma StoredIsKnown(w: World, id: int, doc: Doc, next: Instant)
    requires id in w.db.feeds && id in w.confirmed && id in w.epoch
    ensures Known(Stored(w, id, doc, next).db, id) == Known(w.db, id) + Guids(doc.items)
  {
    var w1 := Stored(w, id, doc, next);
    InsertedIsKnown(w.db, id, doc.items);
    assert Known(w1.db, id) == Known(Inserted(w.db, id, doc.items), id);
  }

  /** A new document is stored: every item of an unknown guid becomes an unread row at the end, the feed's row takes
      the validators and the schedule and its title only where it had none, and every other row is as it was. */
  lemma NewDocumentIsStored(t: Tags, w: World, id: int, doc: Doc, reply: Reply, next: Instant) returns (w1: World)
    requires BaseInv(t, w) && ReportOnce.LogInv(w) && Serves(w, id, doc) && Brings(reply, doc)
    ensures Leads(t, w, Storing(id, reply, next), w1)
    ensures w1.db.feeds == w.db.feeds[id := RowAfter(w.db.feeds[id], doc, next)]
    ensures w1.db.tombs == w.db.tombs && w1.confirmed == w.confirmed[id := w.confirmed[id] + Guids(doc.items)]
    ensures w1.polls == w.polls && w1.writing == None && w1.server == w.server && w1.epoch == w.epoch
    ensures GrowsBy(w.db.articles, w1.db.articles, id, Fresh(Known(w.db, id), doc.items))
    ensures Known(w1.db, id) == Known(w.db, id) + Guids(doc.items)
  {
    StoringSteps(t, w, id, doc, reply, next);
    StoredIsKnown(w, id, doc, next);
    NewRowsHold(w.db.articles, id, Fresh(Known(w.db, id), doc.items));
    w1 := Stored(w, id, doc, next);
  }

  lemma {:induction false} NewRowsSelected(rows: seq<Article>, more: seq<Article>, ids: seq<nat>)
    requires forall a :: a in rows ==> a.id !in ids
    requires forall a :: a in more ==> a.id in ids
    ensures RowsWith(rows + more, ids) == more
  {
    if more == [] {
      assert rows + more == rows;
      NoneSelected(rows, ids);
    } else {
      var n := |more| - 1;
      assert (rows + more)[..|rows + more| - 1] == rows + more[..n];
      NewRowsSelected(rows, more[..n], ids);
    }
  }

  lemma {:induction false} NoneSelected(rows: seq<Article>, ids: seq<nat>)
    requires forall a :: a in rows ==> a.id !in ids
    ensures RowsWith(rows, ids) == []
  {
    if rows != [] {
      assert rows[|rows| - 1] in rows;
      NoneSelected(rows[..|rows| - 1], ids);
    }
  }

  lemma OldRowsNotSelected(db: Db, id: int, items: seq<NewArticle>)
    requires IdsAscend(db.articles)
    ensures forall a :: a in db.articles ==> a.id !in InsertedIds(db, id, items)
  {
    forall a | a in db.articles
      ensures a.id !in InsertedIds(db, id, items)
    {
      ReportOnce.OldRowsAreSmaller(db.articles, a);
    }
  }

  lemma NewRowsAreTheSelected(next: nat, id: int, items: seq<NewArticle>)
    ensures forall a :: a in NewRows(next, id, items) ==> a.id in NewIds(next, |items|)
  {
    var rows := NewRows(next, id, items);
    forall a | a in rows
      ensures a.id in NewIds(next, |items|)
    {
      var k :| 0 <= k < |rows| && rows[k] == a;
      assert NewIds(next, |items|)[k] == a.id;
    }
  }

  lemma NewRowsCollected(db: Db, id: int, items: seq<NewArticle>)
    requires IdsAscend(db.articles)
    ensures var added := NewRows(NextRowId(db.articles), id, Fresh(Known(db, id), items));
            Collected(db.articles + added, InsertedIds(db, id, items)) == Reversed(GuidsInOrder(added))
  {
    var items1 := Fresh(Known(db, id), items);
    var added := NewRows(NextRowId(db.articles), id, items1);
    AddedIdsAscend(db.articles, id, items1);
    OldRowsNotSelected(db, id, items);
    NewRowsAreTheSelected(NextRowId(db.articles), id, items1);
    NewRowsSelected(db.articles, added, InsertedIds(db, id, items));
    CollectedIsRowsReversed(db.articles + added, InsertedIds(db, id, items));
  }

  /** These entries name the items under the subscription's name, the last one first. */
  ghost predicate Reports(entries: seq<(nat, string)>, epoch: nat, items: seq<NewArticle>) {
    && |entries| == |items|
    && forall k :: 0 <= k < |entries| ==> entries[k] == (epoch, items[|items| - 1 - k].guid)
  }

  lemma NewRowsReport(epoch: nat, next: nat, id: int, items: seq<NewArticle>)
    ensures Reports(Stamped(epoch, Reversed(GuidsInOrder(NewRows(next, id, items)))), epoch, items)
  {
  }

  /** And reported: every added item, and nothing else. */
  lemma NewItemsAreReported(t: Tags, w: World, id: int, doc: Doc, reply: Reply, next: Instant) returns (w1: World)
    requires BaseInv(t, w) && ReportOnce.LogInv(w) && Serves(w, id, doc) && Brings(reply, doc)
    ensures Leads(t, w, Storing(id, reply, next), w1)
    ensures w.log <= w1.log && Reports(w1.log[|w.log|..], w.epoch[id], Fresh(Known(w.db, id), doc.items))
  {
    StoringSteps(t, w, id, doc, reply, next);
    w1 := Stored(w, id, doc, next);
    NewRowsCollected(w.db, id, doc.items);
    NewRowsReport(w.epoch[id], NextRowId(w.db.articles), id, Fresh(Known(w.db, id), doc.items));
    assert w1.log[|w.log|..] ==
           Stamped(w.epoch[id], Collected(w1.db.articles, InsertedIds(w.db, id, doc.items)));
  }

  // ----- The document unchanged -------------------------------------------

  function Confirming(id: int, reply: Reply, next: Instant): seq<Action> {
    Asking(id, reply) + [Settle(id, next)]
  }

  lemma SettleStep(t: Tags, w0: World, steps: seq<Action>, w: World, id: int, p: Poll, next: Instant)
    requires Leads(t, w0, steps, w.(polls := w.polls[id := p])) && id !in w.polls && w.writing.None?
    requires p.Answered? && (p.outcome.NotModified? || p.outcome.RateLimited?)
    requires id in w.db.feeds && id in w.confirmed
    ensures Leads(t, w0, steps + [Settle(id, next)],
                  w.(db := w.db.(feeds := w.db.feeds[id := Rescheduled(w.db.feeds[id], next)]),
                     confirmed := if p.outcome.NotModified?
                                  then w.confirmed[id := w.confirmed[id] + Guids(p.seen.items)] else w.confirmed))
  {
    Then(t, w0, steps, w.(polls := w.polls[id := p]), Settle(id, next));
    BackToNoPoll(w.polls, id, p);
  }

  /** While the row's validators are those of the document the server still serves, a poll can be answered with a 304,
      and that confirms exactly this document: nothing else is touched but the schedule and the error state. */
  lemma UnchangedDocumentIsConfirmed(t: Tags, w: World, id: int, doc: Doc, reply: Reply, next: Instant)
    returns (w1: World)
    requires BaseInv(t, w) && Serves(w, id, doc) && (doc.validators.etag.Some? || doc.validators.lastModified.Some?)
    requires w.db.feeds[id].etag == doc.validators.etag && w.db.feeds[id].lastModified == doc.validators.lastModified
    requires reply.Reply? && reply.status == 304
    ensures Leads(t, w, Confirming(id, reply, next), w1)
    ensures w1 == w.(db := w.db.(feeds := w1.db.feeds), confirmed := w1.confirmed)
    ensures w1.confirmed == w.confirmed[id := w.confirmed[id] + Guids(doc.items)]
    ensures w1.db.feeds == w.db.feeds[id := w.db.feeds[id].(lastError := None, errorCount := 0,
                                                            nextPollAt := Stamp(next))]
  {
    var p := Answered(w.db.feeds[id], NotModified, doc);
    AskSteps(t, w, id, doc, reply);
    SettleStep(t, w, Asking(id, reply), w, id, p, next);
    w1 := w.(db := w.db.(feeds := w.db.feeds[id := Rescheduled(w.db.feeds[id], next)]),
             confirmed := w.confirmed[id := w.confirmed[id] + Guids(doc.items)]);
  }

  ghost predicate Revalidates(t: Tags, w: World, id: int, doc: Doc, reply: Reply, next: Instant) {
    && id in w.confirmed && RunAnyId(t, w, Confirming(id, reply, next))
    && var w1 := After(w, Confirming(id, reply, next));
       && w1.confirmed == w.confirmed[id := w.confirmed[id] + Guids(doc.items)]
       && w1.db.articles == w.db.articles && w1.db.tombs == w.db.tombs && w1.log == w.log
       && w1.polls == w.polls
  }

  /** What was there after the store is there after `between`: the row's url and validators,
      and the server's document. */
  ghost predicate StillServes(w: World, id: int, doc: Doc, f: Feed) {
    && Serves(w, id, doc)
    && w.db.feeds[id].url == f.url && w.db.feeds[id].etag == f.etag && w.db.feeds[id].lastModified == f.lastModified
  }

  lemma StillServesRevalidates(t: Tags, w: World, between: seq<Action>, id: int, doc: Doc, f: Feed, reply: Reply,
                               next: Instant)
    requires BaseInv(t, w) && RunAnyId(t, w, between) && StillServes(After(w, between), id, doc, f)
    requires doc.validators.etag.Some? || doc.validators.lastModified.Some?
    requires f.etag == doc.validators.etag && f.lastModified == doc.validators.lastModified
    requires reply.Reply? && reply.status == 304
    ensures Revalidates(t, After(w, between), id, doc, reply, next)
  {
    RunKeepsBaseInv(t, w, between);
    var w1 := UnchangedDocumentIsConfirmed(t, After(w, between), id, doc, reply, next);
  }

  /** So it goes once a document with validators was stored, however long the server and the row's url and validators
      stay as they are: whatever happens in between, the next poll can be answered with a 304 and confirms it. */
  lemma StoredDocumentIsRevalidated(t: Tags, w: World, id: int, doc: Doc, first: Reply, next: Instant,
                                    second: Reply, later: Instant) returns (w1: World)
    requires BaseInv(t, w) && ReportOnce.LogInv(w) && Serves(w, id, doc)
    requires doc.validators.etag.Some? || doc.validators.lastModified.Some?
    requires Brings(first, doc) && second.Reply? && second.status == 304
    ensures Leads(t, w, Storing(id, first, next), w1) && Guids(doc.items) <= Known(w1.db, id)
    ensures id in w1.db.feeds && StillServes(w1, id, doc, w1.db.feeds[id])
    ensures forall between ::
              RunAnyId(t, w1, between) && StillServes(After(w1, between), id, doc, w1.db.feeds[id]) ==>
                Revalidates(t, After(w1, between), id, doc, second, later)
  {
    w1 := NewDocumentIsStored(t, w, id, doc, first, next);
    RunKeepsBaseInv(t, w, Storing(id, first, next));
    forall between | RunAnyId(t, w1, between) && StillServes(After(w1, between), id, doc, w1.db.feeds[id])
      ensures Revalidates(t, After(w1, between), id, doc, second, later)
    {
      StillServesRevalidates(t, w1, between, id, doc, w1.db.feeds[id], second, later);
    }
  }

  // ----- No document ------------------------------------------------------

  lemma FailStep(t: Tags, w0: World, steps: seq<Action>, w: World, id: int, p: Poll, next: Instant)
    requires Leads(t, w0, steps, w.(polls := w.polls[id := p])) && id !in w.polls && w.writing.None?
    requires p.Answered? && p.outcome.Error? && id in w.db.feeds
    ensures var f := w.db.feeds[id];
            Leads(t, w0, steps + [RecordError(id, next)],
                  w.(db := w.db.(feeds := w.db.feeds[id := Failed(f, p.outcome.message, p.feed.errorCount + 1, next)])))
  {
    Then(t, w0, steps, w.(polls := w.polls[id := p]), RecordError(id, next));
    BackToNoPoll(w.polls, id, p);
  }

  /** A failed poll raises the row's count by one and sets its error; its validators, its title and all else stay. */
  lemma FailureCostsOnlyTheErrorState(t: Tags, w: World, id: int, doc: Doc, reply: Reply, next: Instant)
    returns (w1: World)
    requires BaseInv(t, w) && Serves(w, id, doc) && Classify(reply).Error?
    ensures Leads(t, w, Asking(id, reply) + [RecordError(id, next)], w1)
    ensures w1 == w.(db := w.db.(feeds := w1.db.feeds))
    ensures var f := w.db.feeds[id];
            w1.db.feeds == w.db.feeds[id := f.(lastError := Some(Classify(reply).message),
                                               errorCount := f.errorCount + 1, nextPollAt := Stamp(next))]
  {
    var f, o := w.db.feeds[id], Classify(reply);
    AskSteps(t, w, id, doc, reply);
    FailStep(t, w, Asking(id, reply), w, id, Answered(f, o, doc), next);
    w1 := w.(db := w.db.(feeds := w.db.feeds[id := Failed(f, o.message, f.errorCount + 1, next)]));
  }

  /** A rate limit confirms nothing and moves the schedule alone, clearing the error state. */
  lemma RateLimitMovesTheSchedule(t: Tags, w: World, id: int, doc: Doc, reply: Reply, next: Instant)
    returns (w1: World)
    requires BaseInv(t, w) && Serves(w, id, doc) && Classify(reply).RateLimited?
    ensures Leads(t, w, Confirming(id, reply, next), w1)
    ensures w1 == w.(db := w.db.(feeds := w1.db.feeds))
    ensures w1.db.feeds == w.db.feeds[id := w.db.feeds[id].(lastError := None, errorCount := 0,
                                                            nextPollAt := Stamp(next))]
  {
    AskSteps(t, w, id, doc, reply);
    SettleStep(t, w, Asking(id, reply), w, id, Answered(w.db.feeds[id], Classify(reply), doc), next);
    w1 := w.(db := w.db.(feeds := w.db.feeds[id := Rescheduled(w.db.feeds[id], next)]));
  }

  // ----- No poll gets stuck -----------------------------------------------

  predicate ExactlyOne(a: bool, b: bool, c: bool) {
    (a || b || c) && !(a && b) && !(a && c) && !(b && c)
  }

  /** Whatever the answer, exactly one of the three arms takes it, as soon as no write is under way; and a write always
      has exactly one next commit, which nothing can keep from it. */
  lemma EveryPollGoesOn(t: Tags, w: World, id: int, next: Instant)
    ensures id in w.polls && w.polls[id].Answered? && w.writing.None? ==>
              ExactlyOne(EnabledAnyId(t, w, Settle(id, next)), EnabledAnyId(t, w, RecordError(id, next)),
                         EnabledAnyId(t, w, BeginStore(id)))
    ensures w.writing.Some? <==>
              ExactlyOne(EnabledAnyId(t, w, AddArticles), EnabledAnyId(t, w, RecordSuccess(next)),
                         EnabledAnyId(t, w, Report))
    ensures id in w.polls && w.polls[id].Asked? && w.polls[id].feed.url in w.server ==>
              EnabledAnyId(t, w, Fetch(id, Unreachable))
  {
  }

  // ----- Crashes and aborted passes ---------------------------------------

  /** All polls and writes are over, what was stored, confirmed and reported is as it was, every feed can be polled
      again, and no id can be reissued harmfully any more. */
  ghost predicate OnlyPollsEnded(t: Tags, w: World, w1: World) {
    && w1 == w.(polls := w1.polls, writing := w1.writing)
    && (forall id :: !InFlight(w1, id))
    && (forall id :: id in w.db.feeds ==> EnabledAnyId(t, w1, Snapshot(id)))
    && forall id, url :: !Harmful(t, w1, id, url)
  }

  /** Wherever the daemon dies, it can start over from what it had stored. */
  lemma CrashEndsThePolls(t: Tags, w: World)
    ensures EnabledAnyId(t, w, Crash) && OnlyPollsEnded(t, w, Next(w, Crash))
  {
    forall id, url
      ensures !Harmful(t, Next(w, Crash), id, url)
    {
      NothingUnderWayIsHarmless(t, Next(w, Crash), id, url);
    }
  }

  /** Bringing items for a feed that was unsubscribed meanwhile ends the whole pass as a crash would; a document
      without items has nothing to fail on. */
  lemma AbortIsLikeACrash(t: Tags, w: World)
    requires BaseInv(t, w) && EnabledAnyId(t, w, AddArticles) && w.writing.value.feedId !in w.db.feeds
    ensures var items := w.writing.value.outcome.items;
            && (items != [] ==> Next(w, AddArticles) == Next(w, Crash))
            && (items == [] ==> Next(w, AddArticles) == w.(writing := Some(w.writing.value.(stage := Added([])))))
  {
    var wr := w.writing.value;
    Refresh.NothingKnownOfMissing(w.db, wr.feedId, wr.outcome.items);
    if wr.outcome.items == [] {
      NothingFreshInserts(w.db, wr.feedId, []);
      assert InsertedIds(w.db, wr.feedId, []) == [];
    }
  }
}
