/** The two stores' bookkeeping over whole histories of polling passes: what a feed's row holds afterwards is what
    its own outcomes say. */
module History {
  import opened Wrappers
  import opened SqlTime
  import opened Tables
  import opened Poller
  import opened Scheduling
  import opened AndroidStore
  import opened AndroidRepository
  import Refresh

  // ----- The desktop ------------------------------------------------------

  /** The feeds one pass of poll_feeds asked for and the outcomes it stored, in order of arrival; of a pass that
      was aborted, those it came to. */
  datatype Pass = Pass(asked: set<int>, outcomes: seq<(int, PollOutcome)>, now: Instant, interval: nat)

  /** poll_all gives one outcome per feed. */
  predicate OnceEach(outcomes: seq<(int, PollOutcome)>) {
    forall i, j :: 0 <= i < j < |outcomes| ==> outcomes[i].0 != outcomes[j].0
  }

  /** The rows as the pass reads them at its start. */
  function Read(feeds: map<int, Feed>, asked: set<int>): map<int, Feed> {
    map id | id in asked && id in feeds :: feeds[id]
  }

  ghost function AfterPass(db: Db, p: Pass): Db {
    Refresh.AppliedAll(db, Read(db.feeds, p.asked), p.outcomes, p.now, p.interval)
  }

  ghost function AfterPasses(db: Db, passes: seq<Pass>): Db {
    if passes == [] then db else AfterPass(AfterPasses(db, passes[..|passes| - 1]), passes[|passes| - 1])
  }

  function TicksOf(outcomes: seq<(int, PollOutcome)>, id: int, now: Instant, interval: nat): seq<Tick> {
    if outcomes == [] then [] else
      var n := |outcomes| - 1;
      TicksOf(outcomes[..n], id, now, interval) +
      if outcomes[n].0 == id then [Tick(now, interval, outcomes[n].1)] else []
  }

  function TicksIn(p: Pass, id: int): seq<Tick> {
    if id in p.asked then TicksOf(p.outcomes, id, p.now, p.interval) else []
  }

  /** A feed's own outcomes over all passes. */
  function TicksOver(passes: seq<Pass>, id: int): seq<Tick> {
    if passes == [] then [] else TicksOver(passes[..|passes| - 1], id) + TicksIn(passes[|passes| - 1], id)
  }

  /** Equal but for the title, which is no bookkeeping. */
  predicate SameBooks(f: Feed, g: Feed) {
    f.(title := g.title) == g
  }

  lemma {:induction false} RunKeepsSameBooks(f: Feed, g: Feed, run: seq<Tick>)
    requires SameBooks(f, g)
    ensures SameBooks(AfterRun(f, run), AfterRun(g, run))
  {
    if run != [] {
      RunKeepsSameBooks(f, g, run[..|run| - 1]);
    }
  }

  lemma {:induction false} AfterRunAppend(f: Feed, a: seq<Tick>, b: seq<Tick>)
    ensures AfterRun(f, a + b) == AfterRun(AfterRun(f, a), b)
    decreases |b|
  {
    if b == [] {
      assert a + b == a;
    } else {
      AfterRunAppend(f, a, b[..|b| - 1]);
      assert (a + b)[..|a + b| - 1] == a + b[..|b| - 1];
    }
  }

  lemma OutcomeOnRow(db: Db, id: int, seen: Feed, tick: Tick, other: int)
    requires id in db.feeds
    ensures var feeds := Refresh.AppliedTo(db, other, seen, tick).feeds;
            && id in feeds
            && (other == id ==> SameBooks(feeds[id], AfterOutcome(db.feeds[id], seen, tick)))
            && (other != id ==> feeds[id] == db.feeds[id])
  {
  }

  lemma {:induction false} NoTicks(outcomes: seq<(int, PollOutcome)>, id: int, now: Instant, interval: nat)
    requires forall i :: 0 <= i < |outcomes| ==> outcomes[i].0 != id
    ensures TicksOf(outcomes, id, now, interval) == []
  {
    if outcomes != [] {
      NoTicks(outcomes[..|outcomes| - 1], id, now, interval);
    }
  }

  lemma {:induction false} PassOnRow(db: Db, byId: map<int, Feed>, outcomes: seq<(int, PollOutcome)>, now: Instant,
                                     interval: nat, id: int)
    requires id in db.feeds && OnceEach(outcomes) && (id in byId ==> byId[id] == db.feeds[id])
    ensures var feeds := Refresh.AppliedAll(db, byId, outcomes, now, interval).feeds;
            && id in feeds
            && SameBooks(feeds[id], if id !in byId then db.feeds[id]
                                    else AfterRun(db.feeds[id], TicksOf(outcomes, id, now, interval)))
  {
    if outcomes != [] {
      var n := |outcomes| - 1;
      var init, last := outcomes[..n], outcomes[n];
      PassOnRow(db, byId, init, now, interval, id);
      assert TicksOf(init, id, now, interval) + [] == TicksOf(init, id, now, interval);
      if last.0 in byId {
        var tick := Tick(now, interval, last.1);
        OutcomeOnRow(Refresh.AppliedAll(db, byId, init, now, interval), id, byId[last.0], tick, last.0);
        if last.0 == id {
          NoTicks(init, id, now, interval);
          assert AfterRun(db.feeds[id], []) == db.feeds[id];
          OneTick(db.feeds[id], tick);
        }
      }
    }
  }

  lemma OneTick(f: Feed, tick: Tick)
    ensures AfterRun(f, [] + [tick]) == AfterOutcome(f, f, tick)
  {
    assert ([] + [tick])[..0] == [];
    assert AfterRun(f, []) == f;
  }

  /** After any history of passes a feed's row is what its own outcomes make of it, whatever else was polled. */
  lemma {:induction false} RowFollowsItsOutcomes(db: Db, passes: seq<Pass>, id: int)
    requires id in db.feeds && forall i :: 0 <= i < |passes| ==> OnceEach(passes[i].outcomes)
    ensures id in AfterPasses(db, passes).feeds
    ensures SameBooks(AfterPasses(db, passes).feeds[id], AfterRun(db.feeds[id], TicksOver(passes, id)))
  {
    if passes != [] {
      var n := |passes| - 1;
      var init, p := passes[..n], passes[n];
      RowFollowsItsOutcomes(db, init, id);
      var mid := AfterPasses(db, init);
      PassOnRow(mid, Read(mid.feeds, p.asked), p.outcomes, p.now, p.interval, id);
      RunKeepsSameBooks(mid.feeds[id], AfterRun(db.feeds[id], TicksOver(init, id)), TicksIn(p, id));
      AfterRunAppend(db.feeds[id], TicksOver(init, id), TicksIn(p, id));
      assert AfterRun(mid.feeds[id], []) == mid.feeds[id];
    }
  }

  /** Over every history of passes the stored error count of a feed is the length of the trailing block of its own
      failures, and its error text is set exactly when that is positive. */
  lemma {:induction false} StoredCountIsTrailingBlock(db: Db, passes: seq<Pass>, id: int)
    requires id in db.feeds && forall i :: 0 <= i < |passes| ==> OnceEach(passes[i].outcomes)
    requires db.feeds[id].errorCount == 0 && db.feeds[id].lastError == None
    ensures id in AfterPasses(db, passes).feeds
    ensures var f := AfterPasses(db, passes).feeds[id];
            f.errorCount == TrailingErrors(TicksOver(passes, id)) && (f.lastError.Some? <==> f.errorCount > 0)
  {
    RowFollowsItsOutcomes(db, passes, id);
    ErrorCountIsTrailingBlock(db.feeds[id], TicksOver(passes, id));
  }

  // ----- The port ---------------------------------------------------------

  function VisitTicks(visits: seq<Visit>, spacing: nat, id: int): seq<Tick> {
    if visits == [] then [] else
      var v := visits[|visits| - 1];
      VisitTicks(visits[..|visits| - 1], spacing, id) +
      if v.id == id then [Tick(v.now, spacing, OutcomeOf(v.response))] else []
  }

  lemma AndroidCountSnoc(run: seq<Tick>, tick: Tick)
    ensures AndroidCount(run + [tick]) ==
            match tick.outcome
            case Updated(_, _, _, _) => 0
            case Error(_) => AndroidCount(run) + 1
            case _ => AndroidCount(run)
  {
    assert (run + [tick])[..|run|] == run;
  }

  lemma VisitOnCount(d: Room, v: Visit, spacing: nat, id: int)
    requires id in d.feeds
    ensures var feeds := Polled(d, v.id, v.seen, v.response, v.now, spacing).feeds;
            && id in feeds
            && feeds[id].errorCount ==
               if v.id != id then d.feeds[id].errorCount
               else match OutcomeOf(v.response)
                 case Updated(_, _, _, _) => 0
                 case Error(_) => d.feeds[id].errorCount + 1
                 case _ => d.feeds[id].errorCount
  {
  }

  /** Over every pass of the port, of any feeds in any order and however stale the rows it read, the stored error
      count of a feed is the count of its own outcomes. */
  lemma {:induction false} PortCountFollowsItsOutcomes(d: Room, visits: seq<Visit>, spacing: nat, id: int)
    requires id in d.feeds && d.feeds[id].errorCount == 0
    ensures id in PolledAll(d, visits, spacing).feeds
    ensures PolledAll(d, visits, spacing).feeds[id].errorCount == AndroidCount(VisitTicks(visits, spacing, id))
  {
    if visits != [] {
      var n := |visits| - 1;
      var v := visits[n];
      PortCountFollowsItsOutcomes(d, visits[..n], spacing, id);
      VisitOnCount(PolledAll(d, visits[..n], spacing), v, spacing, id);
      if v.id == id {
        AndroidCountSnoc(VisitTicks(visits[..n], spacing, id), Tick(v.now, spacing, OutcomeOf(v.response)));
      } else {
        assert VisitTicks(visits, spacing, id) == VisitTicks(visits[..n], spacing, id);
      }
    }
  }

  /** The error on record after a run: that of the last failure since the last 200. */
  function PortError(run: seq<Tick>): Option<string> {
    if run == [] then None
    else match run[|run| - 1].outcome
      case Updated(_, _, _, _) => None
      case Error(message) => Some(message)
      case _ => PortError(run[..|run| - 1])
  }

  lemma PortErrorSnoc(run: seq<Tick>, tick: Tick)
    ensures PortError(run + [tick]) ==
            match tick.outcome
            case Updated(_, _, _, _) => None
            case Error(message) => Some(message)
            case _ => PortError(run)
  {
    assert (run + [tick])[..|run|] == run;
  }

  lemma VisitOnError(d: Room, v: Visit, spacing: nat, id: int)
    requires id in d.feeds
    ensures var feeds := Polled(d, v.id, v.seen, v.response, v.now, spacing).feeds;
            && id in feeds
            && feeds[id].lastError ==
               if v.id != id then d.feeds[id].lastError
               else match OutcomeOf(v.response)
                 case Updated(_, _, _, _) => None
                 case Error(message) => Some(message)
                 case _ => d.feeds[id].lastError
  {
  }

  /** The stored error text goes with the count: it is the last failure's until the next 200, 304s and rate limits
      in between leaving it alone. */
  lemma {:induction false} PortErrorFollowsItsOutcomes(d: Room, visits: seq<Visit>, spacing: nat, id: int)
    requires id in d.feeds && d.feeds[id].lastError == None
    ensures id in PolledAll(d, visits, spacing).feeds
    ensures PolledAll(d, visits, spacing).feeds[id].lastError == PortError(VisitTicks(visits, spacing, id))
  {
    if visits != [] {
      var n := |visits| - 1;
      var v := visits[n];
      PortErrorFollowsItsOutcomes(d, visits[..n], spacing, id);
      VisitOnError(PolledAll(d, visits[..n], spacing), v, spacing, id);
      if v.id == id {
        PortErrorSnoc(VisitTicks(visits[..n], spacing, id), Tick(v.now, spacing, OutcomeOf(v.response)));
      } else {
        assert VisitTicks(visits, spacing, id) == VisitTicks(visits[..n], spacing, id);
      }
    }
  }

  lemma {:induction false} ErrorTextGoesWithTheCount(run: seq<Tick>)
    ensures PortError(run).Some? <==> AndroidCount(run) > 0
  {
    if run != [] {
      ErrorTextGoesWithTheCount(run[..|run| - 1]);
    }
  }

  /** Visit `i` is the feed's last one. */
  predicate LastVisit(visits: seq<Visit>, id: int, i: nat) {
    i < |visits| && visits[i].id == id && forall k :: i < k < |visits| ==> visits[k].id != id
  }

  /** How long the port waits after an answer, `failures` failures in a row being on record before it. */
  function PortDelay(failures: int, spacing: nat, o: PollOutcome): nat {
    match o
    case Updated(_, _, _, _) => spacing
    case NotModified => spacing
    case RateLimited(retryAfter) => retryAfter
    case Error(_) => Min(300 * Shift(if failures < 0 then 0 else failures), 21_600) * SECOND
  }

  lemma VisitOnSchedule(d: Room, v: Visit, spacing: nat, id: int)
    requires id in d.feeds
    ensures var feeds := Polled(d, v.id, v.seen, v.response, v.now, spacing).feeds;
            && id in feeds
            && (v.id != id ==> feeds[id].nextPollAt == d.feeds[id].nextPollAt)
            && (v.id == id ==>
                  feeds[id].nextPollAt == v.now + PortDelay(v.seen.errorCount, spacing, OutcomeOf(v.response)))
  {
    AndroidBackoffIsCappedPower(v.seen.errorCount);
  }

  /** The port's next poll is planned from its last visit: a spacing after a 200 or a 304, as long as a rate limit
      asks, and after a failure 300 * 2^n seconds, at most six hours, n being the count the visit read. */
  lemma {:induction false} PortFollowsThePlan(d: Room, visits: seq<Visit>, spacing: nat, id: int, i: nat)
    requires id in d.feeds && LastVisit(visits, id, i)
    ensures id in PolledAll(d, visits, spacing).feeds
    ensures var v := visits[i];
            PolledAll(d, visits, spacing).feeds[id].nextPollAt ==
            v.now + PortDelay(v.seen.errorCount, spacing, OutcomeOf(v.response))
  {
    var n := |visits| - 1;
    if i < n {
      assert LastVisit(visits[..n], id, i);
      PortFollowsThePlan(d, visits[..n], spacing, id, i);
    } else {
      FeedStays(d, visits[..n], spacing, id);
    }
    VisitOnSchedule(PolledAll(d, visits[..n], spacing), visits[n], spacing, id);
  }

  lemma {:induction false} FeedStays(d: Room, visits: seq<Visit>, spacing: nat, id: int)
    requires id in d.feeds
    ensures id in PolledAll(d, visits, spacing).feeds
  {
    if visits != [] {
      FeedStays(d, visits[..|visits| - 1], spacing, id);
    }
  }

  /** When the last visit read the row as the earlier visits left it, n is the count of the feed's own outcomes before
      it, so the first failure costs five minutes and each one after it twice as long. */
  lemma PortPlanOfItsOwnOutcomes(d: Room, visits: seq<Visit>, spacing: nat, id: int, i: nat)
    requires id in d.feeds && d.feeds[id].errorCount == 0 && LastVisit(visits, id, i)
    requires id in PolledAll(d, visits[..i], spacing).feeds
    requires visits[i].seen.errorCount == PolledAll(d, visits[..i], spacing).feeds[id].errorCount
    ensures id in PolledAll(d, visits, spacing).feeds
    ensures var n := AndroidCount(VisitTicks(visits[..i], spacing, id));
            PolledAll(d, visits, spacing).feeds[id].nextPollAt ==
            visits[i].now + PortDelay(n, spacing, OutcomeOf(visits[i].response))
  {
    PortFollowsThePlan(d, visits, spacing, id, i);
    PortCountFollowsItsOutcomes(d, visits[..i], spacing, id);
  }

  // ----- Both -------------------------------------------------------------

  predicate SameOutcomes(a: seq<Tick>, b: seq<Tick>) {
    |a| == |b| && forall i :: 0 <= i < |a| ==> a[i].outcome == b[i].outcome
  }

  lemma {:induction false} CountsByOutcome(a: seq<Tick>, b: seq<Tick>)
    requires SameOutcomes(a, b)
    ensures AndroidCount(a) == AndroidCount(b)
  {
    if a != [] {
      CountsByOutcome(a[..|a| - 1], b[..|b| - 1]);
    }
  }

  /** Whatever passes brought a feed the same outcomes on both sides: the two stored error counts are equal exactly
      when, since the last 200, no failure was followed by a 304 or a rate limit. */
  lemma {:induction false} StoredCountsAgreeExactlyWhen(db: Db, passes: seq<Pass>, d: Room, visits: seq<Visit>,
                                                        spacing: nat, id: int)
    requires id in db.feeds && forall i :: 0 <= i < |passes| ==> OnceEach(passes[i].outcomes)
    requires db.feeds[id].errorCount == 0 && db.feeds[id].lastError == None
    requires id in d.feeds && d.feeds[id].errorCount == 0
    requires SameOutcomes(VisitTicks(visits, spacing, id), TicksOver(passes, id))
    ensures id in AfterPasses(db, passes).feeds && id in PolledAll(d, visits, spacing).feeds
    ensures PolledAll(d, visits, spacing).feeds[id].errorCount == AfterPasses(db, passes).feeds[id].errorCount
            <==> !ErrorThenReschedule(TicksOver(passes, id))
  {
    StoredCountIsTrailingBlock(db, passes, id);
    PortCountFollowsItsOutcomes(d, visits, spacing, id);
    CountsByOutcome(VisitTicks(visits, spacing, id), TicksOver(passes, id));
    CountsAgreeExactlyWhen(TicksOver(passes, id));
  }
}
