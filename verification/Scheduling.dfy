/** When a feed is polled next: the outcome arithmetic of linux/fodderd/src/scheduler.rs over the
    bookkeeping columns of linux/core/src/db/feeds.rs. */
module Scheduling {
  import opened Wrappers
  import opened SqlTime
  import opened Tables
  import opened Poller

  const MINUTE: nat := 60 * SECOND
  const IDLE_SLEEP: nat := 60 * SECOND
  const LONGEST_SLEEP: nat := 3600 * SECOND

  // ----- Due now, and how long to sleep -----------------------------------

  /** The WHERE clause of feeds_due, a comparison of texts. */
  predicate Due(f: Feed, now: Instant) {
    TextAtMost(f.nextPollAt.Text(), ToSqlTime(now))
  }

  /** next_poll_at as row_to_feed reads it back. */
  function PollTime(f: Feed): Instant {
    ParseSqlTime(f.nextPollAt.Text())
  }

  function FeedsDue(feeds: seq<Feed>, now: Instant): seq<Feed> {
    Filter(feeds, (f: Feed) => Due(f, now))
  }

  function PollTimes(feeds: seq<Feed>): seq<Instant> {
    seq(|feeds|, i requires 0 <= i < |feeds| => PollTime(feeds[i]))
  }

  function Soonest(times: seq<Instant>): (r: Option<Instant>)
    ensures r.None? <==> times == []
    ensures r.Some? ==> r.value in times && forall t :: t in times ==> r.value <= t
  {
    if times == [] then None else
      assert times == [times[0]] + times[1..];
      match Soonest(times[1..])
      case None => Some(times[0])
      case Some(u) => Some(if times[0] < u then times[0] else u)
  }

  function WaitFor(times: seq<Instant>, now: Instant): (wait: nat)
    ensures times != [] ==> (wait == 0 <==> exists t :: t in times && t <= now)
    ensures wait > 0 ==> forall t :: t in times ==> now + wait <= t
  {
    match Soonest(times)
    case None => IDLE_SLEEP
    case Some(t) => if t > now then Min(t - now, LONGEST_SLEEP) else 0
  }

  /** next_wait. */
  function NextWait(feeds: seq<Feed>, now: Instant): nat {
    WaitFor(PollTimes(feeds), now)
  }

  predicate PresentDay(now: Instant) {
    UNIX_EPOCH <= now && YearOf(now) <= 9999
  }

  /** A feed scheduled for `t` is due from t's second on, exactly while t's year has four digits;
      a later schedule is due at once. */
  lemma DueMeans(f: Feed, t: Instant, now: Instant)
    requires f.nextPollAt == Stamp(t) && YearOf(now) <= 9999
    ensures Due(f, now) <==> t / SECOND <= now / SECOND || YearOf(t) > 9999
  {
    TextOrderIsTimeOrder(now, t);
  }

  /** SQLite's comparison of the texts and the scheduler's comparison of the parsed times agree on
      every stored schedule. */
  lemma DueMeansParsedDue(f: Feed, now: Instant)
    requires PresentDay(now)
    ensures Due(f, now) <==> PollTime(f) <= now
  {
    var t := f.nextPollAt.written;
    DueMeans(f, t, now);
    RoundTrip(t);
    assert t / SECOND <= now / SECOND <==> t / SECOND * SECOND <= now;
  }

  lemma SomeTimePassed(times: seq<Instant>, due: seq<bool>, now: Instant)
    requires |times| == |due| && forall i :: 0 <= i < |due| ==> (due[i] <==> times[i] <= now)
    ensures (exists t :: t in times && t <= now) <==> true in due
  {
    if true in due {
      var i :| 0 <= i < |due| && due[i];
      assert times[i] in times;
    }
  }

  function DueFlags(feeds: seq<Feed>, now: Instant): seq<bool> {
    seq(|feeds|, i requires 0 <= i < |feeds| => Due(feeds[i], now))
  }

  lemma FilterFinds<T(!new)>(s: seq<T>, p: T -> bool, flags: seq<bool>)
    requires |flags| == |s| && forall i :: 0 <= i < |s| ==> flags[i] == p(s[i])
    ensures true in flags <==> Filter(s, p) != []
  {
    var found := Filter(s, p);
    if true in flags {
      var i :| 0 <= i < |flags| && flags[i];
      assert s[i] in found;
    }
    if found != [] {
      assert found[0] in found;
      var i :| 0 <= i < |s| && s[i] == found[0];
      assert flags[i];
    }
  }

  lemma FlagsAreParsed(feeds: seq<Feed>, now: Instant)
    requires PresentDay(now)
    ensures forall i :: 0 <= i < |feeds| ==> (DueFlags(feeds, now)[i] <==> PollTimes(feeds)[i] <= now)
  {
    forall i | 0 <= i < |feeds|
      ensures DueFlags(feeds, now)[i] <==> PollTimes(feeds)[i] <= now
    {
      DueMeansParsedDue(feeds[i], now);
    }
  }

  /** With feeds present the wait is zero exactly when some feed is due, so the loop neither spins
      without work nor sleeps over it; and a positive wait ends no later than the earliest schedule. */
  lemma WaitMatchesDue(feeds: seq<Feed>, now: Instant)
    requires feeds != [] && PresentDay(now)
    ensures NextWait(feeds, now) == 0 <==> FeedsDue(feeds, now) != []
    ensures FeedsDue(feeds, now) == [] ==> forall t :: t in PollTimes(feeds) ==> now + NextWait(feeds, now) <= t
  {
    FilterFinds(feeds, (f: Feed) => Due(f, now), DueFlags(feeds, now));
    FlagsAreParsed(feeds, now);
    SomeTimePassed(PollTimes(feeds), DueFlags(feeds, now), now);
  }

  /** The loop's next wake-up with nothing due: at the earliest schedule when that is within the hour, and after an hour
      when every schedule lies later than that. */
  ghost predicate WakesInTime(times: seq<Instant>, now: Instant, wait: nat) {
    || (wait <= 3600 * 1_000_000_000 && now + wait in times && forall t :: t in times ==> now + wait <= t)
    || (wait == 3600 * 1_000_000_000 && forall t :: t in times ==> now + wait < t)
  }

  lemma WaitIsExact(times: seq<Instant>, now: Instant)
    requires times != [] && WaitFor(times, now) != 0
    ensures WakesInTime(times, now, WaitFor(times, now))
  {
    var t := Soonest(times).value;
    assert t in times;
  }

  /** With feeds present and none due the loop sleeps to the earliest schedule or for 3600 seconds, whichever comes
      first; without feeds it sleeps for 60 seconds. */
  lemma SleepsToTheEarliest(feeds: seq<Feed>, now: Instant)
    requires PresentDay(now) && FeedsDue(feeds, now) == []
    ensures feeds != [] ==> WakesInTime(PollTimes(feeds), now, NextWait(feeds, now)) && NextWait(feeds, now) > 0
    ensures feeds == [] ==> NextWait(feeds, now) == 60 * 1_000_000_000
  {
    if feeds != [] {
      WaitMatchesDue(feeds, now);
      WaitIsExact(PollTimes(feeds), now);
    }
  }

  // ----- One outcome, and a run of them -----------------------------------

  datatype Tick = Tick(now: Instant, interval: nat, outcome: PollOutcome)

  /** chrono's Duration::from_std refuses what does not fit its milliseconds. */
  const CHRONO_MAX: nat := 9_223_372_036_854_775_807 * 1_000_000

  /** How long after `now` the next poll is planned, for a row that recorded `errorCount` failures
      before this outcome. */
  function Delay(errorCount: int, interval: nat, outcome: PollOutcome): nat {
    match outcome
    case Updated(_, _, _, _) => interval
    case NotModified => interval
    case RateLimited(retryAfter) => if retryAfter <= CHRONO_MAX then retryAfter else 5 * MINUTE
    case Error(_) => BackoffDelay(errorCount + 1)
  }

  function BackoffDelay(errorCount: int): nat {
    BackoffNext(errorCount, BACKOFF_BASE) * SECOND
  }

  /** 60 * 2^n seconds, at most six hours. */
  function CappedPower(n: nat): nat {
    Min(60 * Shift(n), 21_600) * SECOND
  }

  lemma BackoffDelayIsCappedPower(n: nat)
    ensures BackoffDelay(n) == CappedPower(n)
  {
    BackoffIsCappedPower(n);
  }

  function NextAt(seen: Feed, tick: Tick): Instant {
    tick.now + Delay(seen.errorCount, tick.interval, tick.outcome)
  }

  /** The row after one outcome, `seen` being the row as the poll read it. */
  function AfterOutcome(f: Feed, seen: Feed, tick: Tick): Feed {
    var next := NextAt(seen, tick);
    match tick.outcome
    case Updated(_, etag, lastModified, _) => Succeeded(f, etag, lastModified, next)
    case NotModified => Rescheduled(f, next)
    case RateLimited(_) => Rescheduled(f, next)
    case Error(message) => Failed(f, message, seen.errorCount + 1, next)
  }

  function AfterRun(f: Feed, run: seq<Tick>): Feed {
    if run == [] then f else
      var before := AfterRun(f, run[..|run| - 1]);
      AfterOutcome(before, before, run[|run| - 1])
  }

  /** The length of the trailing block of failures. */
  function TrailingErrors(run: seq<Tick>): nat {
    if run == [] || !run[|run| - 1].outcome.Error? then 0 else TrailingErrors(run[..|run| - 1]) + 1
  }

  /** Over every run of outcomes the stored error count is the number of failures since the last
      outcome that was none, and the error text is set exactly when that number is positive. */
  lemma {:induction false} ErrorCountIsTrailingBlock(f: Feed, run: seq<Tick>)
    requires f.errorCount == 0 && f.lastError == None
    ensures AfterRun(f, run).errorCount == TrailingErrors(run)
    ensures AfterRun(f, run).lastError ==
            if TrailingErrors(run) > 0 then Some(run[|run| - 1].outcome.message) else None
    ensures AfterRun(f, run).url == f.url && AfterRun(f, run).title == f.title
  {
    if run != [] {
      ErrorCountIsTrailingBlock(f, run[..|run| - 1]);
    }
  }

  /** The planned delay after the last outcome of a run. */
  function PlannedDelay(run: seq<Tick>): nat
    requires run != []
  {
    var last := run[|run| - 1];
    match last.outcome
    case Error(_) => CappedPower(TrailingErrors(run))
    case RateLimited(retryAfter) => 
      if retryAfter <= 9_223_372_036_854_775_807 * 1_000_000 then retryAfter else 300 * 1_000_000_000
    case _ => last.interval
  }

  lemma DelayIsPlanned(f: Feed, run: seq<Tick>)
    requires f.errorCount == 0 && f.lastError == None && run != []
    ensures var last := run[|run| - 1];
            Delay(AfterRun(f, run[..|run| - 1]).errorCount, last.interval, last.outcome) == PlannedDelay(run)
  {
    var init := run[..|run| - 1];
    ErrorCountIsTrailingBlock(f, init);
    BackoffDelayIsCappedPower(TrailingErrors(init) + 1);
  }

  /** The next poll is planned one interval after a 200 or a 304 and 60 * 2^n seconds (at most six
      hours) after the n-th failure in a row, and what is stored is that instant to the second. */
  lemma NextPollFollowsThePlan(f: Feed, run: seq<Tick>)
    requires f.errorCount == 0 && f.lastError == None && run != []
    ensures var planned := run[|run| - 1].now + PlannedDelay(run);
            && AfterRun(f, run).nextPollAt == Stamp(planned)
            && (YearOf(planned) <= 9999 ==> planned - SECOND < PollTime(AfterRun(f, run)) <= planned)
  {
    DelayIsPlanned(f, run);
    RoundTrip(run[|run| - 1].now + PlannedDelay(run));
  }

  /** The row's validators after a run: those of its last 200, and without one those it had. */
  function LastValidators(f: Feed, run: seq<Tick>): (Option<string>, Option<string>) {
    if run == [] then (f.etag, f.lastModified)
    else match run[|run| - 1].outcome
      case Updated(_, etag, lastModified, _) => (etag, lastModified)
      case _ => LastValidators(f, run[..|run| - 1])
  }

  /** No failure, no rate limit and no 304 ever touches the validators. */
  lemma {:induction false} ValidatorsAreOfLastUpdate(f: Feed, run: seq<Tick>)
    ensures (AfterRun(f, run).etag, AfterRun(f, run).lastModified) == LastValidators(f, run)
  {
    if run != [] {
      ValidatorsAreOfLastUpdate(f, run[..|run| - 1]);
    }
  }

  // ----- The Android port's count -----------------------------------------

  /** recordSuccess zeroes, recordError adds one in SQL, reschedule leaves the count alone. */
  function AndroidCount(run: seq<Tick>): nat {
    if run == [] then 0 else
      var before := AndroidCount(run[..|run| - 1]);
      match run[|run| - 1].outcome
      case Updated(_, _, _, _) => 0
      case Error(_) => before + 1
      case _ => before
  }

  predicate Reschedules(tick: Tick) {
    tick.outcome.NotModified? || tick.outcome.RateLimited?
  }

  /** Outcome `i` is a failure and no 200 came after it. */
  predicate OpenError(run: seq<Tick>, i: nat)
    requires i < |run|
  {
    run[i].outcome.Error? && forall k :: i <= k < |run| ==> !run[k].outcome.Updated?
  }

  /** Since the last 200 some failure was followed by a 304 or a rate limit. */
  ghost predicate ErrorThenReschedule(run: seq<Tick>) {
    exists i, j :: 0 <= i < j < |run| && OpenError(run, i) && Reschedules(run[j])
  }

  lemma OpenErrorPrefix(run: seq<Tick>, i: nat)
    requires i < |run| - 1
    ensures OpenError(run, i) <==> OpenError(run[..|run| - 1], i) && !run[|run| - 1].outcome.Updated?
  {
    var init := run[..|run| - 1];
    assert forall k :: 0 <= k < |init| ==> init[k] == run[k];
    if OpenError(init, i) && !run[|run| - 1].outcome.Updated? {
      forall k | i <= k < |run|
        ensures !run[k].outcome.Updated?
      {
        if k < |init| {
          assert !init[k].outcome.Updated?;
        }
      }
    }
  }

  lemma {:induction false} AndroidCountsAtLeast(run: seq<Tick>)
    ensures AndroidCount(run) >= TrailingErrors(run)
    ensures AndroidCount(run) > 0 <==> exists i :: 0 <= i < |run| && OpenError(run, i)
  {
    if run != [] {
      var n := |run| - 1;
      AndroidCountsAtLeast(run[..n]);
      forall i | 0 <= i < n
        ensures OpenError(run, i) <==> OpenError(run[..n], i) && !run[n].outcome.Updated?
      {
        OpenErrorPrefix(run, i);
      }
      if run[n].outcome.Error? {
        assert OpenError(run, n);
      }
    }
  }

  lemma PrefixReschedule(run: seq<Tick>)
    requires run != []
    ensures var n := |run| - 1;
            ErrorThenReschedule(run) <==>
              !run[n].outcome.Updated? &&
              (ErrorThenReschedule(run[..n]) || (Reschedules(run[n]) && AndroidCount(run[..n]) > 0))
  {
    var n := |run| - 1;
    var init := run[..n];
    AndroidCountsAtLeast(init);
    forall i | 0 <= i < n
      ensures init[i] == run[i]
      ensures OpenError(run, i) <==> OpenError(init, i) && !run[n].outcome.Updated?
    {
      OpenErrorPrefix(run, i);
    }
    if ErrorThenReschedule(run) {
      var i, j :| 0 <= i < j < |run| && OpenError(run, i) && Reschedules(run[j]);
      assert j < n ==> Reschedules(init[j]);
    }
    if ErrorThenReschedule(init) {
      var i, j :| 0 <= i < j < n && OpenError(init, i) && Reschedules(init[j]);
      assert Reschedules(run[j]);
    }
  }

  /** The port's reschedule does not mirror the desktop's: the two error counts agree on a run exactly
      when, since the last 200, no failure was followed by a 304 or a rate limit. */
  lemma {:induction false} CountsAgreeExactlyWhen(run: seq<Tick>)
    ensures AndroidCount(run) == TrailingErrors(run) <==> !ErrorThenReschedule(run)
  {
    if run != [] {
      var n := |run| - 1;
      CountsAgreeExactlyWhen(run[..n]);
      PrefixReschedule(run);
      AndroidCountsAtLeast(run[..n]);
    }
  }
}
