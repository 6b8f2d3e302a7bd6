/** What is reported as new, over every interleaving: each guid at most once per subscription, and
    never after the user deleted it. None of this depends on which row ids are reissued when. */
module ReportOnce {
  import opened Wrappers
  import opened Tables
  import opened PollProtocol

  predicate NoRepeats(log: seq<(nat, string)>) {
    forall i, j :: 0 <= i < j < |log| ==> log[i] != log[j]
  }

  predicate Ascending(ids: seq<nat>) {
    forall i, j :: 0 <= i < j < |ids| ==> ids[i] < ids[j]
  }

  predicate Pending(w: World) {
    w.writing.Some? && !w.writing.value.stage.Titled?
  }

  /** The rows a poll inserted and has not reported yet belong to its feed and are unreported. */
  ghost predicate Owed(w: World, feedId: int, ids: seq<nat>) {
    && Ascending(ids)
    && forall a :: a in w.db.articles && a.id in ids ==>
         a.feedId == feedId && feedId in w.epoch && (w.epoch[feedId], a.guid) !in w.log
  }

  ghost predicate LogInv(w: World) {
    && NoRepeats(w.log)
    && (forall e :: e in w.log ==> e.0 < w.clock)
    && w.epoch.Keys == w.db.feeds.Keys
    && (forall id :: id in w.epoch ==> w.epoch[id] < w.clock)
    && (forall a, b :: a in w.epoch && b in w.epoch && w.epoch[a] == w.epoch[b] ==> a == b)
    && (forall id, g :: id in w.epoch && (w.epoch[id], g) in w.log ==> g in Known(w.db, id))
    && (Pending(w) ==> Owed(w, w.writing.value.feedId, w.writing.value.stage.ids))
  }

  lemma {:induction false} CollectedAreRows(rows: seq<Article>, ids: seq<nat>, g: string) returns (a: Article)
    requires g in Collected(rows, ids)
    ensures a in rows && a.id in ids && a.guid == g
  {
    var n := |ids| - 1;
    var found := RowGuid(rows, ids[n]);
    if found.Some? && found.value == g {
      a :| a in rows && a.id == ids[n] && a.guid == g;
    } else {
      a := CollectedAreRows(rows, ids[..n], g);
    }
  }

  /** Distinct rows of one feed have distinct guids, so no guid is collected twice. */
  lemma {:induction false} CollectedDistinct(rows: seq<Article>, ids: seq<nat>, feedId: int)
    requires KeysUnique(rows) && Ascending(ids)
    requires forall a :: a in rows && a.id in ids ==> a.feedId == feedId
    ensures forall i, j :: 0 <= i < j < |Collected(rows, ids)| ==> Collected(rows, ids)[i] != Collected(rows, ids)[j]
  {
    if ids != [] {
      var n := |ids| - 1;
      CollectedDistinct(rows, ids[..n], feedId);
      var found := RowGuid(rows, ids[n]);
      var rest := Collected(rows, ids[..n]);
      if found.Some? && found.value in rest {
        var b := CollectedAreRows(rows, ids[..n], found.value);
      }
    }
  }

  lemma LogExtends(log: seq<(nat, string)>, e: nat, news: seq<string>)
    requires NoRepeats(log)
    requires forall i, j :: 0 <= i < j < |news| ==> news[i] != news[j]
    requires forall g :: g in news ==> (e, g) !in log
    ensures NoRepeats(log + Stamped(e, news))
    ensures forall x :: x in log + Stamped(e, news) <==> x in log || (x.0 == e && x.1 in news)
  {
    var more := Stamped(e, news);
    forall x: (nat, string) | x.0 == e && x.1 in news
      ensures x in more
    {
      var i :| 0 <= i < |news| && news[i] == x.1;
      assert more[i] == x;
    }
    forall i, j | 0 <= i < j < |log + more|
      ensures (log + more)[i] != (log + more)[j]
    {
      if i < |log| <= j {
        assert log[i] in log && news[j - |log|] in news;
      }
    }
  }

  lemma ReportKeepsLog(t: Tags, w: World)
    requires BaseInv(t, w) && LogInv(w) && EnabledAnyId(t, w, Report)
    ensures LogInv(Next(w, Report))
  {
    var wr := w.writing.value;
    if wr.feedId in w.epoch {
      var e := w.epoch[wr.feedId];
      var news := Collected(w.db.articles, wr.stage.ids);
      CollectedDistinct(w.db.articles, wr.stage.ids, wr.feedId);
      forall g | g in news
        ensures (e, g) !in w.log && g in Known(w.db, wr.feedId)
      {
        var a := CollectedAreRows(w.db.articles, wr.stage.ids, g);
      }
      LogExtends(w.log, e, news);
    } else {
      assert w.log + [] == w.log;
    }
  }

  /** The rows a poll just inserted were unknown, so they cannot have been reported. */
  lemma AddedAreOwed(w: World, feedId: int, items: seq<NewArticle>, a: Article)
    requires LogInv(w) && Integrity(w.db) && !InsertFails(w.db, feedId, items)
    requires a in Inserted(w.db, feedId, items).articles && a.id in InsertedIds(w.db, feedId, items)
    ensures a.feedId == feedId && feedId in w.epoch && (w.epoch[feedId], a.guid) !in w.log
  {
    var next := NextRowId(w.db.articles);
    assert a.id >= next;
    if a in w.db.articles {
      OldRowsAreSmaller(w.db.articles, a);
      assert false;
    }
    AddedRowIsNew(w.db, feedId, items, a);
  }

  lemma AddKeepsLog(t: Tags, w: World)
    requires BaseInv(t, w) && LogInv(w) && EnabledAnyId(t, w, AddArticles)
    ensures LogInv(Next(w, AddArticles))
  {
    var wr := w.writing.value;
    var items := wr.outcome.items;
    if !InsertFails(w.db, wr.feedId, items) {
      InsertStep(w.db, wr.feedId, items);
      forall a | a in Inserted(w.db, wr.feedId, items).articles && a.id in InsertedIds(w.db, wr.feedId, items)
        ensures a.feedId == wr.feedId && wr.feedId in w.epoch && (w.epoch[wr.feedId], a.guid) !in w.log
      {
        AddedAreOwed(w, wr.feedId, items, a);
      }
      AddStepIs(w);
    }
  }

  lemma AddStepIs(w: World)
    requires w.writing.Some? && w.writing.value.outcome.Updated?
    ensures var wr, w1 := w.writing.value, Next(w, AddArticles);
            !InsertFails(w.db, wr.feedId, wr.outcome.items) ==>
              && w1.db == Inserted(w.db, wr.feedId, wr.outcome.items)
              && w1.log == w.log && w1.epoch == w.epoch && w1.clock == w.clock
              && Pending(w1) && w1.writing.value.feedId == wr.feedId
              && w1.writing.value.stage.ids == InsertedIds(w.db, wr.feedId, wr.outcome.items)
  {
  }

  lemma OldRowsAreSmaller(rows: seq<Article>, a: Article)
    requires IdsAscend(rows) && a in rows
    ensures a.id < NextRowId(rows)
  {
    var i :| 0 <= i < |rows| && rows[i] == a;
  }

  /** Steps that only remove, mark or relabel rows: no row takes a new id, feed or guid. */
  ghost predicate RowsShrink(db: Db, db1: Db) {
    forall a :: a in db1.articles ==>
      exists b :: b in db.articles && a.id == b.id && a.feedId == b.feedId && a.guid == b.guid
  }

  lemma MarkShrinks(db: Db, p: Article -> bool, read: bool)
    ensures RowsShrink(db, MarkedDb(db, p, read))
  {
    forall a | a in Marked(db.articles, p, read)
      ensures exists b :: b in db.articles && a.id == b.id && a.feedId == b.feedId && a.guid == b.guid
    {
      var i := MarkedFrom(db.articles, p, read, a);
    }
  }

  lemma SameRowsShrink(db: Db, db1: Db)
    requires forall a :: a in db1.articles ==> a in db.articles
    ensures RowsShrink(db, db1)
  {
  }

  lemma OtherStepsShrink(w: World, a: Action)
    requires !a.AddArticles?
    ensures RowsShrink(w.db, Next(w, a).db)
  {
    match a
    case SetRead(rowId, read) =>
      MarkShrinks(w.db, (x: Article) => x.id == rowId, read);
    case MarkAllRead(scope) =>
      MarkShrinks(w.db, (x: Article) => scope == None || scope == Some(x.feedId), true);
    case _ =>
      SameRowsShrink(w.db, Next(w, a).db);
  }

  lemma OtherStepWriting(t: Tags, w: World, a: Action)
    requires EnabledAnyId(t, w, a) && !a.AddArticles? && !a.Report?
    ensures Next(w, a).log == w.log
    ensures Pending(Next(w, a)) ==>
              && Pending(w)
              && Next(w, a).writing.value.feedId == w.writing.value.feedId
              && Next(w, a).writing.value.stage.ids == w.writing.value.stage.ids
  {
  }

  lemma OtherStepKeepsOwed(t: Tags, w: World, a: Action)
    requires BaseInv(t, w) && LogInv(w) && EnabledAnyId(t, w, a) && !a.AddArticles? && !a.Report?
    requires Integrity(Next(w, a).db)
    ensures Pending(Next(w, a)) ==> Owed(Next(w, a), Next(w, a).writing.value.feedId,
                                         Next(w, a).writing.value.stage.ids)
  {
    var w1 := Next(w, a);
    OtherStepWriting(t, w, a);
    if Pending(w1) {
      OtherStepsShrink(w, a);
      EpochStep(t, w, a);
      var feedId, ids := w.writing.value.feedId, w.writing.value.stage.ids;
      forall x | x in w1.db.articles && x.id in ids
        ensures x.feedId == feedId && feedId in w1.epoch && (w1.epoch[feedId], x.guid) !in w1.log
      {
        StillOwed(w, w1, feedId, ids, x);
      }
    }
  }

  lemma StillOwed(w: World, w1: World, feedId: int, ids: seq<nat>, x: Article)
    requires Owed(w, feedId, ids) && RowsShrink(w.db, w1.db) && Integrity(w1.db)
    requires w1.log == w.log && w1.epoch.Keys == w1.db.feeds.Keys
    requires forall e :: e in w.log ==> e.0 < w.clock
    requires forall id :: id in w1.epoch ==> (id in w.epoch && w1.epoch[id] == w.epoch[id]) || w1.epoch[id] == w.clock
    requires x in w1.db.articles && x.id in ids
    ensures x.feedId == feedId && feedId in w1.epoch && (w1.epoch[feedId], x.guid) !in w1.log
  {
    var b :| b in w.db.articles && x.id == b.id && x.feedId == b.feedId && x.guid == b.guid;
    assert x.feedId in w1.db.feeds;
  }

  lemma OtherEpochs(t: Tags, w: World, a: Action)
    requires BaseInv(t, w) && EnabledAnyId(t, w, a) && !a.Subscribe? && !a.Unsubscribe?
    ensures Next(w, a).epoch == w.epoch && Next(w, a).clock == w.clock
    ensures Next(w, a).db.feeds.Keys == w.db.feeds.Keys
  {
    FeedsStay(t, w, a);
  }

  lemma EpochStep(t: Tags, w: World, a: Action)
    requires BaseInv(t, w) && LogInv(w) && EnabledAnyId(t, w, a)
    ensures Next(w, a).epoch.Keys == Next(w, a).db.feeds.Keys
    ensures w.clock <= Next(w, a).clock
    ensures forall id :: id in Next(w, a).epoch ==>
              Next(w, a).epoch[id] < Next(w, a).clock &&
              ((id in w.epoch && Next(w, a).epoch[id] == w.epoch[id]) || Next(w, a).epoch[id] == w.clock)
    ensures forall i, j :: i in Next(w, a).epoch && j in Next(w, a).epoch && Next(w, a).epoch[i] == Next(w, a).epoch[j]
              ==> i == j
  {
    var w1 := Next(w, a);
    if a.Subscribe? {
      assert w1.epoch == w.epoch[a.id := w.clock];
    } else if a.Unsubscribe? {
      assert w1.epoch == w.epoch - {a.id};
    } else {
      OtherEpochs(t, w, a);
    }
  }

  lemma FeedsStay(t: Tags, w: World, a: Action)
    requires BaseInv(t, w) && EnabledAnyId(t, w, a) && !a.Subscribe? && !a.Unsubscribe?
    ensures Next(w, a).db.feeds.Keys == w.db.feeds.Keys
  {
    if a.Settle? || a.RecordError? {
      SettleKeepsTables(w, a);
    } else if a.BeginStore? || a.AddArticles? || a.RecordSuccess? {
      StoreStepKeepsTables(w, a);
    }
  }

  lemma OtherStepKeepsLog(t: Tags, w: World, a: Action)
    requires BaseInv(t, w) && LogInv(w) && EnabledAnyId(t, w, a) && !a.AddArticles? && !a.Report?
    ensures LogInv(Next(w, a))
  {
    StepKeepsTables(t, w, a);
    StepKeepsBaseInv(t, w, a);
    EpochStep(t, w, a);
    OtherStepKeepsOwed(t, w, a);
    var w1 := Next(w, a);
    assert w1.log == w.log;
    forall id, g | id in w1.epoch && (w1.epoch[id], g) in w1.log
      ensures g in Known(w1.db, id)
    {
      assert w1.epoch[id] != w.clock;
      assert id in w.db.feeds && id in w1.db.feeds;
    }
  }

  lemma StepKeepsLogInv(t: Tags, w: World, a: Action)
    requires BaseInv(t, w) && LogInv(w) && EnabledAnyId(t, w, a)
    ensures LogInv(Next(w, a))
  {
    if a.Report? {
      ReportKeepsLog(t, w);
    } else if a.AddArticles? {
      AddKeepsLog(t, w);
    } else {
      OtherStepKeepsLog(t, w, a);
    }
  }

  lemma {:induction false} RunKeepsLogInv(t: Tags, w: World, steps: seq<Action>)
    requires BaseInv(t, w) && LogInv(w) && RunAnyId(t, w, steps)
    ensures BaseInv(t, After(w, steps)) && LogInv(After(w, steps))
  {
    if steps != [] {
      var n := |steps| - 1;
      RunKeepsLogInv(t, w, steps[..n]);
      StepKeepsBaseInv(t, After(w, steps[..n]), steps[n]);
      StepKeepsLogInv(t, After(w, steps[..n]), steps[n]);
    }
  }

  /** What was reported is stored or deleted, and no guid is both. */
  ghost predicate ReportsAccounted(w: World) {
    && (forall id, g :: id in w.epoch && (w.epoch[id], g) in w.log ==>
          IsStored(w.db.articles, id, g) || (id, g) in w.db.tombs)
    && (forall id, g :: !(IsStored(w.db.articles, id, g) && (id, g) in w.db.tombs))
  }

  lemma InvariantsAccount(t: Tags, w: World)
    requires BaseInv(t, w) && LogInv(w)
    ensures ReportsAccounted(w)
  {
    forall id, g | id in w.epoch && (w.epoch[id], g) in w.log
      ensures IsStored(w.db.articles, id, g) || (id, g) in w.db.tombs
    {
      KnownMeans(w.db, id, g);
    }
    forall id, g | (id, g) in w.db.tombs
      ensures !IsStored(w.db.articles, id, g)
    {
      NotBoth(w.db, id, g);
    }
  }

  /** Over every run no guid is reported twice within one subscription, what was reported is stored
      or deleted, and no guid is both. */
  lemma {:induction false} ReportedAtMostOnce(t: Tags, steps: seq<Action>)
    requires RunAnyId(t, START, steps)
    ensures NoRepeats(After(START, steps).log)
    ensures ReportsAccounted(After(START, steps))
  {
    RunKeepsLogInv(t, START, steps);
    InvariantsAccount(t, After(START, steps));
  }

  // ----- Deleted stays deleted --------------------------------------------

  lemma TombSurvives(t: Tags, w: World, a: Action, id: int, g: string)
    requires EnabledAnyId(t, w, a) && (id, g) in w.db.tombs && (a.Unsubscribe? ==> a.id != id)
    ensures (id, g) in Next(w, a).db.tombs
  {
  }

  lemma OnlyReportsLog(t: Tags, w: World, a: Action)
    requires EnabledAnyId(t, w, a) && !a.Report?
    ensures Next(w, a).log == w.log
  {
  }

  lemma ReportSkipsTomb(t: Tags, w: World, id: int, g: string)
    requires BaseInv(t, w) && LogInv(w) && EnabledAnyId(t, w, Report)
    requires (id, g) in w.db.tombs && id in w.epoch
    ensures w.log <= Next(w, Report).log
    ensures forall i :: |w.log| <= i < |Next(w, Report).log| ==> Next(w, Report).log[i] != (w.epoch[id], g)
  {
    var wr := w.writing.value;
    if wr.feedId in w.epoch {
      var news := Collected(w.db.articles, wr.stage.ids);
      if w.epoch[wr.feedId] == w.epoch[id] && g in news {
        var x := CollectedAreRows(w.db.articles, wr.stage.ids, g);
      }
      assert forall i :: 0 <= i < |news| ==> news[i] in news;
    }
  }

  /** A tombstone of a feed that stays subscribed is kept by every step, and its guid is not reported. */
  lemma StepKeepsTomb(t: Tags, w: World, a: Action, id: int, g: string)
    requires BaseInv(t, w) && LogInv(w) && EnabledAnyId(t, w, a)
    requires (id, g) in w.db.tombs && id in w.epoch && id in Next(w, a).epoch
    ensures (id, g) in Next(w, a).db.tombs
    ensures w.log <= Next(w, a).log
    ensures forall i :: |w.log| <= i < |Next(w, a).log| ==> Next(w, a).log[i] != (w.epoch[id], g)
  {
    TombSurvives(t, w, a, id, g);
    if a.Report? {
      ReportSkipsTomb(t, w, id, g);
    } else {
      OnlyReportsLog(t, w, a);
    }
  }

  /** Once deleted, for as long as the subscription lasts: the guid stays deleted, is never stored
      again, and is never reported again, however the run goes on. */
  lemma {:induction false} DeletedStaysDeleted(t: Tags, w: World, steps: seq<Action>, id: int, g: string)
    requires BaseInv(t, w) && LogInv(w) && RunAnyId(t, w, steps)
    requires (id, g) in w.db.tombs
    requires id in w.epoch && id in After(w, steps).epoch && After(w, steps).epoch[id] == w.epoch[id]
    ensures var w1 := After(w, steps);
            && (id, g) in w1.db.tombs && !IsStored(w1.db.articles, id, g)
            && w.log <= w1.log
            && (forall i :: |w.log| <= i < |w1.log| ==> w1.log[i] != (w.epoch[id], g))
            && w.clock <= w1.clock
  {
    RunKeepsLogInv(t, w, steps);
    if steps != [] {
      var n := |steps| - 1;
      var mid := After(w, steps[..n]);
      RunKeepsLogInv(t, w, steps[..n]);
      ClockGrows(t, w, steps[..n]);
      EpochStep(t, mid, steps[n]);
      DeletedStaysDeleted(t, w, steps[..n], id, g);
      StepKeepsTomb(t, mid, steps[n], id, g);
    }
    NotBoth(After(w, steps).db, id, g);
  }

  lemma NotBoth(db: Db, id: int, g: string)
    requires Integrity(db) && (id, g) in db.tombs
    ensures !IsStored(db.articles, id, g)
  {
    forall i | 0 <= i < |db.articles|
      ensures !(db.articles[i].feedId == id && db.articles[i].guid == g)
    {
      assert db.articles[i] in db.articles;
    }
  }

  lemma {:induction false} ClockGrows(t: Tags, w: World, steps: seq<Action>)
    requires BaseInv(t, w) && LogInv(w) && RunAnyId(t, w, steps)
    ensures w.clock <= After(w, steps).clock
  {
    if steps != [] {
      var n := |steps| - 1;
      ClockGrows(t, w, steps[..n]);
      RunKeepsLogInv(t, w, steps[..n]);
      EpochStep(t, After(w, steps[..n]), steps[n]);
    }
  }

  // ----- Read state -------------------------------------------------------

  /** No step of a poll, and no crash, changes an existing row: its read flag, like everything else
      in it, is as the user left it. */
  lemma PollingLeavesRowsAlone(w: World, a: Action)
    requires !ByUser(a)
    ensures w.db.articles <= Next(w, a).db.articles
    ensures Next(w, a).db.tombs == w.db.tombs
  {
  }
}
