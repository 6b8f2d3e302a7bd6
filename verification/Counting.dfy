/** The stored error count over every run of the protocol: crashes, user actions and resubscriptions may fall between
    the snapshot that a failed poll counts from and the write that stores its count. */
module Counting {
  import opened Wrappers
  import opened SqlTime
  import opened Poller
  import opened Scheduling
  import opened PollProtocol
  import opened ReissueConditions

  /** The outcome a step records in the row of `id`, if it does. */
  function Records(w: World, a: Action, id: int): seq<Tick> {
    match a
    case Settle(i, next) => if i == id && id in w.polls && w.polls[id].Answered? then [Tick(next, 0,
            w.polls[id].outcome)] else []
    case RecordError(i, next) =>
      if i == id && id in w.polls && w.polls[id].Answered? then [Tick(next, 0, w.polls[id].outcome)] else []
    case RecordSuccess(next) =>
      if w.writing.Some? && w.writing.value.feedId == id then [Tick(next, 0, w.writing.value.outcome)] else []
    case _ => []
  }

  /** The outcomes recorded for the present subscription of `id`, on top of `before`. */
  ghost function Recorded(w: World, steps: seq<Action>, id: int, before: seq<Tick>): seq<Tick> {
    if steps == [] then before else
      var n := |steps| - 1;
      Heard(After(w, steps[..n]), steps[n], id, Recorded(w, steps[..n], id, before))
  }

  function Heard(w: World, a: Action, id: int, run: seq<Tick>): seq<Tick> {
    if a.Subscribe? && a.id == id then [] else run + Records(w, a, id)
  }

  /** The row counts the trailing failures of `run`, and shows an error text exactly when there are any. */
  predicate RowCounts(w: World, id: int, run: seq<Tick>) {
    id in w.db.feeds ==>
      && w.db.feeds[id].errorCount == TrailingErrors(run)
      && (w.db.feeds[id].lastError.Some? <==> TrailingErrors(run) > 0)
  }

  /** A poll that may still fail counts from `count`. */
  predicate PollCounts(p: Poll, count: int) {
    p.Asked? || p.outcome.Error? ==> p.feed.errorCount == count
  }

  predicate SnapshotCounts(w: World, id: int, count: int) {
    id in w.polls ==> PollCounts(w.polls[id], count)
  }

  /** The row is right, and a failing poll under way will leave it right. */
  predicate CountSafe(w: World, id: int, run: seq<Tick>) {
    RowCounts(w, id, run) && (id in w.db.feeds ==> SnapshotCounts(w, id, w.db.feeds[id].errorCount))
  }

  lemma TrailingSnoc(run: seq<Tick>, tick: Tick)
    ensures TrailingErrors(run + [tick]) == if tick.outcome.Error? then TrailingErrors(run) + 1 else 0
  {
    assert (run + [tick])[..|run|] == run;
  }

  /** Only recording an outcome, subscribing and unsubscribing touch the bookkeeping of a row. */
  lemma OtherRowsStep(t: Tags, w: World, a: Action, id: int)
    requires EnabledAnyId(t, w, a) && id in w.db.feeds && id in Next(w, a).db.feeds && Records(w, a, id) == []
    ensures Next(w, a).db.feeds[id].errorCount == w.db.feeds[id].errorCount
    ensures Next(w, a).db.feeds[id].lastError == w.db.feeds[id].lastError
  {
  }

  lemma RecordingStep(t: Tags, w: World, a: Action, id: int)
    requires BaseInv(t, w) && EnabledAnyId(t, w, a) && id in w.db.feeds && Records(w, a, id) != []
    requires SnapshotCounts(w, id, w.db.feeds[id].errorCount)
    ensures id in Next(w, a).db.feeds && |Records(w, a, id)| == 1
    ensures var tick, f1 := Records(w, a, id)[0], Next(w, a).db.feeds[id];
            && f1.errorCount == (if tick.outcome.Error? then w.db.feeds[id].errorCount + 1 else 0)
            && (f1.lastError.Some? <==> tick.outcome.Error?)
    ensures id !in Next(w, a).polls
  {
  }

  lemma SnapshotStep(t: Tags, w: World, a: Action, id: int)
    requires BaseInv(t, w) && EnabledAnyId(t, w, a) && id in w.db.feeds && id in Next(w, a).polls
    requires SnapshotCounts(w, id, w.db.feeds[id].errorCount)
    ensures PollCounts(Next(w, a).polls[id], w.db.feeds[id].errorCount)
  {
  }

  lemma StepKeepsCountSafe(t: Tags, w: World, a: Action, id: int, run: seq<Tick>)
    requires BaseInv(t, w) && EnabledAnyId(t, w, a) && CountSafe(w, id, run)
    requires a.Subscribe? && a.id == id ==> SnapshotCounts(w, id, 0)
    ensures CountSafe(Next(w, a), id, Heard(w, a, id, run))
  {
    var w1 := Next(w, a);
    StepKeepsTables(t, w, a);
    if id in w1.db.feeds && id in w.db.feeds {
      if Records(w, a, id) == [] {
        assert run + [] == run;
        OtherRowsStep(t, w, a, id);
        if id in w1.polls {
          SnapshotStep(t, w, a, id);
        }
      } else {
        RecordingStep(t, w, a, id);
        TrailingSnoc(run, Records(w, a, id)[0]);
      }
    }
  }

  // ----- Over runs --------------------------------------------------------

  /** Whenever the id is given to a feed, no poll that may still fail counts from more than zero failures. */
  ghost predicate CountsAfresh(w: World, steps: seq<Action>, id: int) {
    forall i :: 0 <= i < |steps| && steps[i].Subscribe? && steps[i].id == id ==>
        SnapshotCounts(After(w, steps[..i]), id, 0)
  }

  lemma {:induction false} RunKeepsCountSafe(t: Tags, w: World, steps: seq<Action>, id: int, run: seq<Tick>)
    requires BaseInv(t, w) && RunAnyId(t, w, steps) && CountSafe(w, id, run) && CountsAfresh(w, steps, id)
    ensures BaseInv(t, After(w, steps)) && CountSafe(After(w, steps), id, Recorded(w, steps, id, run))
  {
    RunKeepsBaseInv(t, w, steps);
    if steps != [] {
      var n := |steps| - 1;
      var init := steps[..n];
      assert forall i :: 0 <= i < n ==> init[i] == steps[i] && init[..i] == steps[..i];
      RunKeepsCountSafe(t, w, init, id, run);
      StepKeepsCountSafe(t, After(w, init), steps[n], id, Recorded(w, init, id, run));
    }
  }

  /** Over every run, whatever is interleaved and wherever the daemon dies: the stored error count of a feed is the
      length of the trailing block of failures recorded for its subscription, and its error text is set exactly when
      that is positive, as long as its id was not reissued under a failing poll of a feed with failures. */
  lemma {:induction false} CountIsTrailingBlockOnEveryRun(t: Tags, steps: seq<Action>, id: int)
    requires RunAnyId(t, START, steps) && CountsAfresh(START, steps, id)
    ensures RowCounts(After(START, steps), id, Recorded(START, steps, id, []))
  {
    RunKeepsCountSafe(t, START, steps, id, []);
  }

  // ----- The exact condition ----------------------------------------------

  /** Some continuation in which the id is not given out again miscounts. */
  ghost predicate CanMiscount(t: Tags, w: World, id: int, run: seq<Tick>) {
    exists steps :: RunAnyId(t, w, steps) && NoSubscribe(steps, id) &&
                    !RowCounts(After(w, steps), id, Recorded(w, steps, id, run))
  }

  lemma CountSafeCannotMiscount(t: Tags, w: World, id: int, run: seq<Tick>)
    requires BaseInv(t, w) && CountSafe(w, id, run)
    ensures !CanMiscount(t, w, id, run)
  {
    forall steps | RunAnyId(t, w, steps) && NoSubscribe(steps, id)
      ensures RowCounts(After(w, steps), id, Recorded(w, steps, id, run))
    {
      RunKeepsCountSafe(t, w, steps, id, run);
    }
  }

  lemma {:induction false} QuietRecordsNothing(t: Tags, w0: World, id: int, steps: seq<Action>, w: World,
                                               run: seq<Tick>)
    requires ReachesQuietly(t, w0, id, steps, w)
    ensures Recorded(w0, steps, id, run) == run
  {
    if steps != [] {
      var n := |steps| - 1;
      var init := steps[..n];
      assert forall i :: 0 <= i < n ==> init[i] == steps[i] && init[..i] == steps[..i];
      QuietRecordsNothing(t, w0, id, init, After(w0, init), run);
      assert run + [] == run;
    }
  }

  lemma RecordedSnoc(w0: World, steps: seq<Action>, a: Action, id: int, before: seq<Tick>)
    ensures Recorded(w0, steps + [a], id, before) == Heard(After(w0, steps), a, id, Recorded(w0, steps, id, before))
  {
    assert (steps + [a])[..|steps|] == steps;
  }

  /** A failed poll that counts from the wrong number stores one more than that. */
  lemma FailureStep(w: World, id: int, run: seq<Tick>)
    requires id in w.db.feeds && id in w.polls && w.polls[id].Answered? && w.polls[id].outcome.Error?
    requires w.polls[id].feed.errorCount != TrailingErrors(run)
    ensures !RowCounts(Next(w, RecordError(id, 0)), id, Heard(w, RecordError(id, 0), id, run))
  {
    TrailingSnoc(run, Tick(0, 0, w.polls[id].outcome));
    assert Next(w, RecordError(id, 0)).db.feeds[id].errorCount == w.polls[id].feed.errorCount + 1;
  }

  lemma {:induction false} FailureMiscounts(t: Tags, w0: World, id: int, steps: seq<Action>, w: World, run: seq<Tick>)
    requires ReachesQuietly(t, w0, id, steps, w) && id in w.db.feeds && w.writing.None?
    requires id in w.polls && w.polls[id].Answered? && w.polls[id].outcome.Error?
    requires w.polls[id].feed.errorCount != TrailingErrors(run)
    ensures CanMiscount(t, w0, id, run)
  {
    var steps1 := Go(t, w0, id, steps, w, RecordError(id, 0));
    QuietRecordsNothing(t, w0, id, steps, w, run);
    RecordedSnoc(w0, steps, RecordError(id, 0), id, run);
    FailureStep(w, id, run);
  }

  /** An unanswered poll may yet find its server unreachable. */
  lemma Unanswered(t: Tags, w0: World, id: int, steps: seq<Action>, w: World) returns (steps1: seq<Action>, w1: World)
    requires ReachesQuietly(t, w0, id, steps, w) && id in w.polls && w.polls[id].Asked?
    ensures ReachesQuietly(t, w0, id, steps1, w1) && w1.db == w.db && w1.writing == w.writing
    ensures id in w1.polls && w1.polls[id].Answered? && w1.polls[id].outcome.Error? && w1.polls[id].feed ==
            w.polls[id].feed
  {
    var url, doc := w.polls[id].feed.url, Doc(Validators(None, None), None, []);
    var w2 := Next(w, Publish(url, doc));
    steps1 := GoQuietly(t, w0, id, steps, w, Publish(url, doc));
    steps1 := GoQuietly(t, w0, id, steps1, w2, Fetch(id, Unreachable));
    w1 := Next(w2, Fetch(id, Unreachable));
  }

  lemma StaleSnapshotMiscounts(t: Tags, w: World, id: int, run: seq<Tick>)
    requires BaseInv(t, w) && id in w.db.feeds && id in w.polls && RowCounts(w, id, run)
    requires !PollCounts(w.polls[id], w.db.feeds[id].errorCount)
    ensures CanMiscount(t, w, id, run)
  {
    var steps, w1 := Clears(t, w, id, [], w);
    if w1.polls[id].Asked? {
      steps, w1 := Unanswered(t, w, id, steps, w1);
    }
    FailureMiscounts(t, w, id, steps, w1, run);
  }

  /** In every state whose row is right: some continuation miscounts while the feed stays subscribed, if and only if a
      poll under way that may still fail counts from another number than the row's. */
  lemma MiscountsExactlyWhenStale(t: Tags, w: World, id: int, run: seq<Tick>)
    requires BaseInv(t, w) && id in w.db.feeds && RowCounts(w, id, run)
    ensures CanMiscount(t, w, id, run) <==> !SnapshotCounts(w, id, w.db.feeds[id].errorCount)
  {
    if SnapshotCounts(w, id, w.db.feeds[id].errorCount) {
      CountSafeCannotMiscount(t, w, id, run);
    } else {
      StaleSnapshotMiscounts(t, w, id, run);
    }
  }

  /** When an id is given to a new feed: its count can go wrong while it stays subscribed, if and only if a poll of the
      old feed is under way that may still fail and counts from more, or less, than zero failures. */
  lemma ReissueMiscountsExactlyWhen(t: Tags, w: World, id: int, url: string, title: string, now: Instant)
    requires BaseInv(t, w) && EnabledAnyId(t, w, Subscribe(id, url, title, now))
    ensures CanMiscount(t, Next(w, Subscribe(id, url, title, now)), id, []) <==> !SnapshotCounts(w, id, 0)
  {
    var a := Subscribe(id, url, title, now);
    StepKeepsBaseInv(t, w, a);
    MiscountsExactlyWhenStale(t, Next(w, a), id, []);
  }
}
