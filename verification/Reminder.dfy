/** The daily reminder of linux/fodderd/src/reminder.rs, in a zone of fixed offset: instants are nanoseconds of
    local time, counted from some local midnight. */
module Reminder {
  import opened Wrappers

  const SECOND: nat := 1_000_000_000
  const DAY: nat := 86_400 * SECOND
  const PAUSE: nat := 61 * SECOND

  type Hour = h: nat | h < 24
  type Minute = m: nat | m < 60

  /** `None` when reminders or notifications are off, or the configured time does not parse. */
  type Setting = Option<(Hour, Minute)>

  function TimeOfDay(hour: Hour, minute: Minute): (t: nat)
    ensures t < DAY
  {
    (hour * 60 + minute) * 60 * SECOND
  }

  /** So many whole hours and minutes after midnight. */
  lemma TimeOfDayMeans(hour: Hour, minute: Minute)
    ensures TimeOfDay(hour, minute) == hour * 3600 * 1_000_000_000 + minute * 60 * 1_000_000_000
    ensures TimeOfDay(9, 30) == 34_200 * 1_000_000_000
  {
  }

  function DayOf(t: nat): nat {
    t / DAY
  }

  function LocalAt(day: nat, hour: Hour, minute: Minute): nat {
    day * DAY + TimeOfDay(hour, minute)
  }

  predicate ShowsTime(t: nat, hour: Hour, minute: Minute) {
    t % DAY == TimeOfDay(hour, minute)
  }

  lemma LocalAtShows(day: nat, hour: Hour, minute: Minute)
    ensures ShowsTime(LocalAt(day, hour, minute), hour, minute) && DayOf(LocalAt(day, hour, minute)) == day
  {
    OffsetInDay(day, TimeOfDay(hour, minute));
  }

  lemma OffsetInDay(day: nat, offset: nat)
    requires offset < DAY
    ensures (day * DAY + offset) % DAY == offset && (day * DAY + offset) / DAY == day
  {
  }

  function DurationUntilNext(hour: Hour, minute: Minute, now: nat): nat {
    var today := LocalAt(DayOf(now), hour, minute);
    var target := if today > now then today else LocalAt(DayOf(now) + 1, hour, minute);
    target - now
  }

  /** The wait is never zero, at most a day, and ends at the first later instant that shows the time. */
  lemma WaitEndsAtNextOccurrence(hour: Hour, minute: Minute, now: nat)
    ensures 0 < DurationUntilNext(hour, minute, now) <= DAY
    ensures ShowsTime(now + DurationUntilNext(hour, minute, now), hour, minute)
    ensures forall t: nat :: now < t && ShowsTime(t, hour, minute) ==> now + DurationUntilNext(hour, minute, now) <= t
  {
    var target := now + DurationUntilNext(hour, minute, now);
    LocalAtShows(DayOf(now), hour, minute);
    LocalAtShows(DayOf(now) + 1, hour, minute);
    forall t: nat | now < t && ShowsTime(t, hour, minute) ensures target <= t {
      assert t == LocalAt(DayOf(t), hour, minute);
      if t < target {
        NoneBetween(target, t, hour, minute);
      }
    }
  }

  /** Instants that show the same time are whole days apart. */
  lemma NoneBetween(later: nat, earlier: nat, hour: Hour, minute: Minute)
    requires ShowsTime(later, hour, minute) && ShowsTime(earlier, hour, minute) && earlier < later
    ensures DayOf(earlier) < DayOf(later) && earlier + DAY <= later
  {
    var a, b := DayOf(earlier), DayOf(later);
    assert earlier == a * DAY + TimeOfDay(hour, minute) && later == b * DAY + TimeOfDay(hour, minute);
  }

  /** What the loop waits for next: the timer, which may wake late, or a changed configuration. Without a setting
      it waits for the configuration only. */
  datatype Event =
    | Elapsed(late: nat, pauseLate: nat)
    | Reloaded(after: nat, setting: Setting)

  /** A reminder that became due: the instant it was set for, and when the timer woke. */
  datatype Firing = Firing(hour: Hour, minute: Minute, target: nat, at: nat)

  predicate Proper(f: Firing) {
    ShowsTime(f.target, f.hour, f.minute) && f.target <= f.at
  }

  /** Later firings are for later instants, more than 61 seconds after the timer last woke. */
  predicate Increasing(firings: seq<Firing>) {
    forall i, j :: 0 <= i < j < |firings| ==> firings[i].at + 61 * 1_000_000_000 < firings[j].target
  }

  /** The loop when it comes to compute the next wait: the time, the setting in force, the firings so far. */
  datatype Loop = Loop(now: nat, setting: Setting, firings: seq<Firing>)

  function After(start: nat, initial: Setting, events: seq<Event>): Loop {
    if events == [] then Loop(start, initial, []) else
      var before := After(start, initial, events[..|events| - 1]);
      match events[|events| - 1]
      case Reloaded(after, changed) => Loop(before.now + after, changed, before.firings)
      case Elapsed(late, pauseLate) =>
        if before.setting.None? then before else
          var f := NextFiring(before.now, before.setting.value.0, before.setting.value.1, late);
          Loop(f.at + PAUSE + pauseLate, before.setting, before.firings + [f])
  }

  function NextFiring(now: nat, hour: Hour, minute: Minute, late: nat): Firing {
    var wait := DurationUntilNext(hour, minute, now);
    Firing(hour, minute, now + wait, now + wait + late)
  }

  /** The last configuration loaded. */
  function SettingAfter(initial: Setting, events: seq<Event>): Setting {
    if events == [] then initial
    else match events[|events| - 1]
      case Reloaded(_, changed) => changed
      case Elapsed(_, _) => SettingAfter(initial, events[..|events| - 1])
  }

  /** `f` is for the first instant after `now` that shows the time of `setting`. */
  ghost predicate ForNextOccurrence(f: Firing, setting: (Hour, Minute), now: nat) {
    && f.hour == setting.0 && f.minute == setting.1
    && now < f.target && ShowsTime(f.target, f.hour, f.minute)
    && forall t: nat :: now < t && ShowsTime(t, f.hour, f.minute) ==> f.target <= t
  }

  lemma {:induction false} SettingIsLastLoaded(start: nat, initial: Setting, events: seq<Event>)
    ensures After(start, initial, events).setting == SettingAfter(initial, events)
  {
    if events != [] {
      SettingIsLastLoaded(start, initial, events[..|events| - 1]);
    }
  }

  /** One more event: a timer that elapses with a setting in force adds exactly one firing, with that setting's time,
      for its first occurrence after the loop resumed, and the loop resumes after the pause. Nothing else fires. */
  lemma EachElapsedFiresOnce(start: nat, initial: Setting, events: seq<Event>, e: Event)
    ensures var before, next := After(start, initial, events), After(start, initial, events + [e]);
            var setting := SettingAfter(initial, events);
            if e.Elapsed? && setting.Some? then
              && |next.firings| == |before.firings| + 1
              && next.firings[..|before.firings|] == before.firings
              && var f := next.firings[|before.firings|];
                 ForNextOccurrence(f, setting.value, before.now) && f.at == f.target + e.late
                 && next.now == f.at + PAUSE + e.pauseLate
            else next.firings == before.firings && next.now == before.now + if e.Reloaded? then e.after else 0
  {
    SettingIsLastLoaded(start, initial, events);
    assert (events + [e])[..|events|] == events;
    var setting := SettingAfter(initial, events);
    if e.Elapsed? && setting.Some? {
      WaitEndsAtNextOccurrence(setting.value.0, setting.value.1, After(start, initial, events).now);
    }
  }

  /** Every reminder wakes at or after its target, and later ones are for later instants. */
  lemma {:induction false} FiringsIncrease(start: nat, initial: Setting, events: seq<Event>)
    ensures var l := After(start, initial, events);
            && (forall k :: 0 <= k < |l.firings| ==> Proper(l.firings[k]) && l.firings[k].at + PAUSE <= l.now)
            && Increasing(l.firings)
  {
    if events != [] {
      var n := |events| - 1;
      FiringsIncrease(start, initial, events[..n]);
      EachElapsedFiresOnce(start, initial, events[..n], events[n]);
      assert events == events[..n] + [events[n]];
    }
  }

  /** The reminder loop over any run of timer wake-ups and reloads. */
  method Run(start: nat, initial: Setting, events: seq<Event>) returns (firings: seq<Firing>)
    ensures firings == After(start, initial, events).firings
    ensures forall i :: 0 <= i < |firings| ==> Proper(firings[i])
    ensures Increasing(firings)
  {
    firings := [];
    var now, setting := start, initial;
    for i := 0 to |events|
      invariant After(start, initial, events[..i]) == Loop(now, setting, firings)
    {
      assert events[..i + 1][..i] == events[..i];
      match events[i]
      case Reloaded(after, changed) =>
        now, setting := now + after, changed;
      case Elapsed(late, pauseLate) =>
        if setting.Some? {
          var (hour, minute) := setting.value;
          var wait := DurationUntilNext(hour, minute, now);
          WaitEndsAtNextOccurrence(hour, minute, now);
          firings := firings + [Firing(hour, minute, now + wait, now + wait + late)];
          now := now + wait + late + PAUSE + pauseLate;
        }
    }
    assert events[..|events|] == events;
    FiringsIncrease(start, initial, events);
  }

  /** While the time is not changed, no two reminders are for the same local day. */
  lemma OncePerTargetDay(firings: seq<Firing>, i: nat, j: nat)
    requires i < j < |firings| && Increasing(firings)
    requires forall k :: 0 <= k < |firings| ==> Proper(firings[k])
    requires firings[i].hour == firings[j].hour && firings[i].minute == firings[j].minute
    ensures DayOf(firings[i].target) < DayOf(firings[j].target)
  {
    assert firings[i].target < firings[j].target;
    NoneBetween(firings[j].target, firings[i].target, firings[i].hour, firings[i].minute);
  }

  /** Two reminders can wake on the same local day only if the first one overslept its own day: set for an
      earlier day, it woke that day before the time of day came round again. */
  lemma SameDayOnlyAfterOversleeping(firings: seq<Firing>, i: nat, j: nat)
    requires i < j < |firings| && Increasing(firings)
    requires forall k :: 0 <= k < |firings| ==> Proper(firings[k])
    requires firings[i].hour == firings[j].hour && firings[i].minute == firings[j].minute
    requires DayOf(firings[i].at) == DayOf(firings[j].at)
    ensures DayOf(firings[i].target) < DayOf(firings[i].at)
  {
    OncePerTargetDay(firings, i, j);
    assert firings[j].target <= firings[j].at;
    DaysAreOrdered(firings[j].target, firings[j].at);
  }

  /** After the timer woke at `at`, the next reminder falls on the same local day exactly if the pause ends
      before the time of day: a wake-up that slipped past midnight is followed by that day's own reminder. */
  lemma SameDayExactlyWhen(hour: Hour, minute: Minute, at: nat, pauseLate: nat)
    ensures var resumed := at + PAUSE + pauseLate;
            DayOf(resumed + DurationUntilNext(hour, minute, resumed)) == DayOf(at) <==>
            at % DAY + PAUSE + pauseLate < TimeOfDay(hour, minute)
  {
    var resumed := at + PAUSE + pauseLate;
    LocalAtShows(DayOf(resumed), hour, minute);
    LocalAtShows(DayOf(resumed) + 1, hour, minute);
    DaysAreOrdered(at, resumed);
    if at % DAY + PAUSE + pauseLate < DAY {
      OffsetInDay(DayOf(at), at % DAY + PAUSE + pauseLate);
    }
  }

  lemma DaysAreOrdered(a: nat, b: nat)
    requires a <= b
    ensures DayOf(a) <= DayOf(b)
  {
  }
}
