# Fodder: a verified model of its core

Fodder is a feed reader with two desktop processes, the daemon `fodderd` and the viewer `fodder`, that share
one SQLite file and an IPC socket, and an Android port of the same rules. This project models the parts of it
where something can go wrong between steps, and proves what those parts are for.

**Poll and store.** `Tables` holds the three tables (feeds, articles, tombstones) and what each SQL statement
does to them. `DesktopStore.Store` changes them in place, statement by statement. `PollProtocol` is the state
machine in which a poll is a snapshot of the feed row, a fetch, and the separately committed writes of
`store_updated`; user actions, publications by the servers and crashes may fall between any two of them.
`PollCycle` says what one poll comes to from end to end: a new document is stored and every added item reported, after
that and for as long as the server and the row stay as they are it is revalidated by a 304 that confirms exactly it,
and a failure costs nothing but the error state. `UserActions` has each action of the user row by row, and when a poll
can overwrite a title: `store_updated` decides by the title it read before the fetch, so a title the user gives to an
untitled feed while a poll of it is under way is lost, and no other is (`TitleIsOverwrittenExactlyWhen`).
The main results are that conditional polling loses nothing (a feed's validators are a cache key and the article
table is the cache), that every guid is reported at most once per subscription, and that what was deleted stays
deleted. The first of these depends on one thing: feed ids have no AUTOINCREMENT, and an id that is given to a new feed
while a poll of the old one is under way can break the cache. `ReissuedId` has a run in which it does.
`ReissueConditions` says exactly when: the invariant of `PollProtocol` is the weakest there is, and reissuing an id is
dangerous iff what is under way for it is `Harmful`, which is the one thing `PollProtocol.Enabled` rules out. The other
two hold whatever ids are reissued. `Counting` has the same for the stored error count. `Scheduling` relates the
timestamp text that SQLite compares to the time that the scheduler sleeps for, and a feed's bookkeeping columns
to its history of outcomes. `Refresh` has the polling pass itself and the messages around it. `Unread` relates
the two unread counters over every run.

**The Android port.** `AndroidStore` and `AndroidRepository` are the second implementation, related to the
desktop's by simulation: the same pass over the same answers leaves both stores with the same articles, validators and
tombstones, and with the same titles unless the two languages disagree on what is blank. The retry counts are not part of that relation, since the port's `reschedule` keeps the
error state although its comment says it mirrors the desktop's, which clears it;
`History.StoredCountsAgreeExactlyWhen` says on which histories the two stored counts agree. `History` also ties the
single-feed arithmetic of `Scheduling` to the rows that whole passes leave in either store.

**The viewer.** `ViewerProtocol` has one step per lock, atomic access or process event of the open handler, the
hello handlers, the reapers and shutdown. `ViewerRaces` holds runs that show what the protocol does *not* promise:
`viewer_alive` can stay set for good, a request can be deferred just after the viewer looked for it, and the reaper of
an old child can switch off the next one. `ViewerConditions` says exactly when. The flag is never left behind iff every
hello comes while a spawned child is in hand or has a reaper that has not cleared the flag; a child can be switched off
iff some earlier reaper has not finished when its kill switch is installed; and a hello can miss a request iff it
registers while the open handler stands between its look for a viewer and its deferral. Shutdown reaches a running
child iff its kill switch is installed. `ViewerProc.AppCtx` is the shared state with one method per handler, and its
lemmas show that each handler is what its own lock-by-lock steps add up to, and that a message takes a running viewer
where the command line takes a new one. `ViewerRequests` follows each request: it keeps its target, is taken up in
order, and is lost in four known ways only.

**The readers.** `Reader` and `ReaderMarkup` are the desktop's DOM-to-Pango printer, checked against a
character-by-character scanner of the markup: the result is well-formed for every tree and shows the tree's plain
text, each character under the styles and links of the elements around it. `Annotated` is the Android port's walk, and
also proves that both readers show the same document with the same breaks, styles and links.

**Framing and migrations.** `Framing` is the IPC wire format on a stream that is chunked, cut or reset anywhere.
The comment on `read_msg` says it returns `None` at a frame boundary only; the code also does so when the stream
ends after one to three bytes of a length, and the model follows the code (`CleanEndExactlyWhen`,
`CutLengthLooksClean`). `Migrations` is the schema runner, on its own and with any number of runners that
crash. `Reminder` is the daily reminder loop.

The assumptions the theorems rest on are written where they are used: a server sends a 304 only when the request
named the current document, and equal validators mean equal guid sets (`PollProtocol.Honest`, `PollProtocol.Tagged`;
sections 13.1.2, 13.1.3 and 15.4.5 of RFC 9110); a body codec decodes what it encoded (`Framing.RoundTrips`); the
migration scripts create disjoint things (`Migrations.Lawful`, shown of the present list).

## Model

| member | source | states |
|---|---|---|
| `SqlTime.CivilOrderIsTimeOrder` | linux/core/src/db/mod.rs:80-82 | broken-down times are ordered as the instants they name |
| `SqlTime.TextOrderIsTimeOrder` | linux/core/src/db/mod.rs:78-82 | SQLite's order of two stored timestamps is time order to the second, exactly while the compared schedule's year is at most 9999 |
| `SqlTime.RoundTrip` | linux/core/src/db/mod.rs:84-96 | a written timestamp is read back rounded down to the second through year 9999, and as the Unix epoch beyond |
| `SqlTime.DaysBeforeYearClosed` | linux/core/src/db/mod.rs:80-82 | the calendar used agrees with the closed form of the Gregorian leap rule |
| `SqlTime.EpochIsNewYear1970` | linux/core/src/db/mod.rs:95 | the fallback instant of an unreadable timestamp is 1970-01-01T00:00:00Z |
| `SqlTime.MonthLengths` | linux/core/src/db/mod.rs:80-82 | the lengths of the twelve months |
| `SqlTime.CanonicalTextAt` | linux/core/src/db/mod.rs:80-82 | where each field and separator of a written timestamp stands |
| `Tables.FreshSound` | linux/core/src/db/articles.rs:46-66 | the added items carry exactly the guids in neither table, each once |
| `Tables.OpenersAreFirst` | linux/core/src/db/articles.rs:46-66 | a position is chosen iff its guid is in neither table and no earlier item of the batch has it |
| `Tables.FreshIsFirstOccurrences` | linux/core/src/db/articles.rs:46-66 | the added items are the items at the chosen positions, in order, also with repeats inside one batch |
| `Tables.SecondInsertAddsNothing` | linux/core/src/db/articles.rs:31-68 | inserting the same document again changes nothing and reports no id |
| `Tables.InsertedIsKnown` | linux/core/src/db/articles.rs:36-68 | after an insert every guid of the document is stored or deleted, and no other feed is affected |
| `Tables.AddedRowIsNew` | linux/core/src/db/articles.rs:46-62 | an added row is unread, has a new id, and a guid that was neither stored nor deleted |
| `Tables.InsertedIntegrity` | linux/core/src/db/migrations.rs:28-54 | an insert keeps both uniqueness constraints, both foreign keys and the disjointness of articles and tombstones |
| `Tables.BuriedKeepsKnown` | linux/core/src/db/articles.rs:70-101 | deleting or clearing leaves the set of known guids of every feed as it was |
| `Tables.BuriedMoves` | linux/core/src/db/articles.rs:73-101 | exactly the chosen rows leave, exactly their guids become tombstones, every other row stays |
| `Tables.BuriedIntegrity` | linux/core/src/db/articles.rs:73-101 | deleting keeps all constraints |
| `Tables.MarkedIntegrity` | linux/core/src/db/articles.rs:103-131 | marking read or unread keeps all constraints and every known guid |
| `Tables.SubscribedIntegrity` | linux/core/src/db/feeds.rs:29-35 | a new feed with a free id and url keeps all constraints and starts with no known guid |
| `Tables.UnsubscribedIntegrity` | linux/core/src/db/feeds.rs:114-118 | the cascades take a feed's articles and tombstones with it and touch no other feed |
| `Tables.WithFeedIntegrity` | linux/core/src/db/feeds.rs:60-112 | updates that leave the url alone keep all constraints |
| `DesktopStore.GuardMeansFresh` | linux/core/src/db/articles.rs:46-59 | in mid-batch the guard and the unique index let an item through exactly if it is the first of an unknown guid |
| `DesktopStore.OneMoreItem` | linux/core/src/db/articles.rs:46-63 | one guarded insert adds nothing and no id, or one row with the next id |
| `DesktopStore.TotalIsSumOfCounts` | linux/core/src/db/articles.rs:133-153 | the total is the sum of the counts, which are positive and of stored feeds |
| `DesktopStore.Store.InsertFeed` | linux/core/src/db/feeds.rs:29-35 | fails exactly on a taken url, changing nothing; else adds a blank row under an id past every present one |
| `DesktopStore.Store.DeleteFeed` | linux/core/src/db/feeds.rs:114-118 | removes the feed with its articles and tombstones |
| `DesktopStore.Store.UpdateFeedTitle` | linux/core/src/db/feeds.rs:89-97 | changes one title; a missing id changes nothing |
| `DesktopStore.Store.UpdateFeedSuccess` | linux/core/src/db/feeds.rs:60-76 | stores validators and schedule and clears the error state of one row |
| `DesktopStore.Store.Reschedule` | linux/core/src/db/feeds.rs:78-87 | sets the schedule, clears the error state, keeps the validators |
| `DesktopStore.Store.UpdateFeedError` | linux/core/src/db/feeds.rs:99-112 | stores error text, count and schedule, keeps the validators |
| `DesktopStore.Store.InsertNewArticles` | linux/core/src/db/articles.rs:31-68 | the guarded loop adds exactly the first occurrences of unknown guids and returns their ids, or fails on the foreign key leaving the store as it was |
| `DesktopStore.Store.DeleteArticle` | linux/core/src/db/articles.rs:70-86 | tombstone and delete move one article |
| `DesktopStore.Store.DeleteArticlesFor` | linux/core/src/db/articles.rs:88-101 | the same for every article of a feed |
| `DesktopStore.Store.SetRead` | linux/core/src/db/articles.rs:103-119 | sets one row's read flag and nothing else |
| `DesktopStore.Store.MarkAllRead` | linux/core/src/db/articles.rs:121-131 | marks every row in scope read and nothing else |
| `DesktopStore.Store.GetArticle` | linux/core/src/db/articles.rs:179-186 | returns a row with the id, or nothing when there is none |
| `DesktopStore.Store.UnreadCounts` | linux/core/src/db/articles.rs:133-144 | has an entry for exactly the feeds with unread rows, with their number |
| `DesktopStore.Store.TotalUnread` | linux/core/src/db/articles.rs:146-153 | counts the unread rows |
| `Unread.UnreadAgreesOnEveryRun` | linux/core/src/db/articles.rs:103-153 | after every run the total is the sum of the counts, all positive and of subscribed feeds |
| `Poller.BackoffIsCappedPower` | linux/core/src/poller/mod.rs:145-154 | for every count the delay is 60 * 2^n seconds capped at 21600: no clamp, cast or overflow changes it |
| `Poller.BackoffIsMonotone` | linux/core/src/poller/mod.rs:145-154 | more failures never shorten the delay, and it never exceeds the cap |
| `Poller.ClassifyMeans` | linux/core/src/poller/http.rs:51-94 | 304 alone means unchanged, 429 and 503 alone a rate limit for the given time or 300 s, a readable 2xx brings its feed and validators whole, everything else fails |
| `Chars.WhitespaceIs` | linux/fodderd/src/scheduler.rs:230 | what a blank title consists of: the 25 characters of the Unicode property White_Space |
| `PollProtocol.UserStepKeepsTables` | linux/core/src/db/articles.rs:70-131 | no user action forgets a known guid of a feed that stays, or breaks a constraint |
| `PollProtocol.StepKeepsRowVouched` | linux/fodderd/src/scheduler.rs:223-246 | every step keeps: validators in a row stand only for guids that are stored or deleted |
| `PollProtocol.AddedIsSafe` | linux/fodderd/src/scheduler.rs:238-246 | between the article commit and the validator commit every guid of the document is already known |
| `PollProtocol.StepKeepsSafe` | linux/fodderd/src/scheduler.rs:149-261 | every step keeps: however what is under way for a feed ends, it confirms and vouches for nothing unknown |
| `PollProtocol.StepKeepsFeedSafe` | linux/fodderd/src/scheduler.rs:149-261 | one feed's part of the invariant is kept by every step but a harmful reissue of its own id, whatever is done to other ids |
| `PollProtocol.StepKeepsBaseInv` | linux/core/src/db/migrations.rs:16-54 | every step, whatever ids are reissued, keeps the constraints and what is known of answers under way |
| `PollProtocol.StepKeepsCacheInv` | linux/fodderd/src/scheduler.rs:149-261 | every poll step, user action, publication and crash keeps the cache invariant, a harmful reissue of an id apart |
| `PollProtocol.ConditionalPollingLosesNothing` | linux/fodderd/src/scheduler.rs:223-261 | on every run without a harmful reissue, crashes included, stored validators and every document a 200 stored or a 304 vouched for name only guids that are stored or deleted |
| `PollProtocol.NotModifiedMissesNothing` | linux/core/src/poller/http.rs:33-94 | when a 304 arrives no item of the served document is missing |
| `PollCycle.NewDocumentIsStored` | linux/fodderd/src/scheduler.rs:211-246 | a poll that gets a new document leaves exactly: an unread row for each first occurrence of an unknown guid with what the item says, the validators and schedule in the feed row, and its title only where there was none |
| `PollCycle.NewItemsAreReported` | linux/fodderd/src/scheduler.rs:248-261 | and reports exactly the added items, the last one first |
| `PollCycle.CollectedIsRowsReversed` | linux/fodderd/src/scheduler.rs:248-258 | what is collected for a report are the rows with one of the ids that are still there, all of them, highest id first |
| `PollCycle.ReportLogsExactly` | linux/fodderd/src/scheduler.rs:248-261 | in every state a report adds exactly these under the name of the subscription, and nothing once that is gone |
| `PollCycle.UnchangedDocumentIsConfirmed` | linux/core/src/poller/mod.rs:66-73 | while a row holds the validators of the document served, a poll of it can be answered with a 304, which confirms exactly this document and touches the schedule and error state only |
| `PollCycle.StoredDocumentIsRevalidated` | linux/core/src/poller/http.rs:40-60 | so it is after a document with validators was stored, whatever happens in between, as long as the server and the row's url and validators stay as they are |
| `PollCycle.FailureCostsOnlyTheErrorState` | linux/fodderd/src/scheduler.rs:189-200 | a failed poll adds one to the count and sets error and schedule; nothing else changes |
| `PollCycle.RateLimitMovesTheSchedule` | linux/fodderd/src/scheduler.rs:183-188 | a rate limit moves the schedule, clears the error state and confirms nothing |
| `PollCycle.EveryPollGoesOn` | linux/fodderd/src/scheduler.rs:157-200 | every answer is taken by exactly one arm, and every write has exactly one next commit |
| `PollCycle.CrashEndsThePolls` | linux/fodderd/src/main.rs:77-98 | a crash costs nothing that was stored, confirmed or reported; every feed can be polled again and every id reissued |
| `PollCycle.AbortIsLikeACrash` | linux/fodderd/src/scheduler.rs:157-176 | bringing items for a feed that is gone ends the pass as a crash would; a document without items has nothing to fail on |
| `UserActions.DeletingMoves` | linux/core/src/db/articles.rs:70-101 | deleting moves the one article, clearing those of the one feed, from the articles to the tombstones, and no other |
| `UserActions.MarkingSetsFlags` | linux/core/src/db/articles.rs:103-131 | marking sets the flag of exactly the rows in scope and changes nothing else |
| `UserActions.SubscribingAdds` | linux/core/src/db/feeds.rs:29-35 | subscribing adds one row, without validators and due at once, with nothing known or confirmed |
| `UserActions.UnsubscribingTakes` | linux/core/src/db/feeds.rs:114-118 | unsubscribing takes the one row with its articles and tombstones; what is under way does not notice |
| `UserActions.RenamingChangesTheTitle` | linux/core/src/db/feeds.rs:89-97 | renaming changes one title and nothing else |
| `UserActions.TitleIsOverwrittenExactlyWhen` | linux/fodderd/src/scheduler.rs:221-237 | without a rename a poll can replace a title that is not blank iff one under way read a blank title before and may still bring another |
| `ReportOnce.StepKeepsLogInv` | linux/fodderd/src/scheduler.rs:238-261 | every step keeps: what was reported is known, and rows not yet reported are new to the log |
| `ReportOnce.ReportedAtMostOnce` | linux/core/src/db/articles.rs:31-101 | on every run, whatever ids are reissued, no guid is reported twice in one subscription, what was reported is stored or deleted, and never both |
| `ReportOnce.StepKeepsTomb` | linux/core/src/db/migrations.rs:41-54 | a tombstone outlives every step that keeps its subscription and its guid is not reported |
| `ReportOnce.DeletedStaysDeleted` | linux/core/src/db/migrations.rs:41-54 | from the moment of deletion on, a guid is never stored or reported again while the subscription lasts |
| `ReportOnce.PollingLeavesRowsAlone` | linux/core/src/db/articles.rs:36-68 | no step of a poll and no crash changes an existing article row, its read flag included |
| `ReissuedId.ReissueBreaksTheCache` | linux/core/src/db/migrations.rs:16-26 | a run in which a freed feed id is reissued under a running poll leaves validators that vouch for an article nobody stored |
| `ReissueConditions.BreaksExactlyWhenUnsafe` | linux/fodderd/src/scheduler.rs:149-261 | from every state, some continuation breaks a feed that stays subscribed iff its part of the invariant fails: no weaker invariant would do |
| `ReissueConditions.ReissueBreaksExactlyWhen` | linux/core/src/db/migrations.rs:16-17 | when an id is given to a new feed, some continuation breaks that feed iff what is under way for the id is harmful |
| `ReissueConditions.HarmfulMeans` | linux/fodderd/src/scheduler.rs:149-261 | what harmful comes to for an unanswered poll, a 304, a 200, and a write before and after its articles; errors, rate limits and finished writes never are |
| `ReissueConditions.SameUrlCanBreakToo` | linux/fodderd/src/scheduler.rs:178-182 | reissuing the id to the same url is no excuse: a 304 of a non-empty document still breaks it |
| `Scheduling.DueMeans` | linux/core/src/db/feeds.rs:51-58 | a feed is due from its scheduled second on, and at once if the schedule's year has five digits |
| `Scheduling.DueMeansParsedDue` | linux/core/src/db/feeds.rs:51-58 | SQLite's text comparison and the scheduler's time comparison agree on every stored schedule |
| `Scheduling.WaitMatchesDue` | linux/fodderd/src/scheduler.rs:66-79 | with feeds present the wait is zero iff some feed is due, and a positive wait never passes the earliest schedule |
| `Scheduling.SleepsToTheEarliest` | linux/fodderd/src/scheduler.rs:66-79 | with none due the loop wakes at the earliest schedule or after 3600 s, whichever is first; without feeds after 60 s |
| `Scheduling.ErrorCountIsTrailingBlock` | linux/fodderd/src/scheduler.rs:161-200 | on every run of outcomes the stored error count is the length of the trailing block of failures and the error text is set iff it is positive |
| `Scheduling.NextPollFollowsThePlan` | linux/fodderd/src/scheduler.rs:161-200 | the next poll is an interval after a 200 or 304 and min(60 * 2^n, 21600) seconds after the n-th failure in a row, stored to the second |
| `Scheduling.ValidatorsAreOfLastUpdate` | linux/fodderd/src/scheduler.rs:178-200 | after any run of outcomes the validators are those of the last 200: no 304, rate limit or failure touches them |
| `Scheduling.CountsAgreeExactlyWhen` | android/app/src/main/java/io/github/dipakmdhrm/fodder/data/db/Daos.kt:60-83 | on a run of outcomes the port's rule counts as the desktop's iff no failure since the last 200 was followed by a 304 or a rate limit |
| `History.RowFollowsItsOutcomes` | linux/fodderd/src/scheduler.rs:149-206 | after any history of passes a feed's stored bookkeeping is what its own outcomes make of it, whatever else was polled |
| `History.StoredCountIsTrailingBlock` | linux/fodderd/src/scheduler.rs:189-200 | after any history of passes the stored error count is the trailing block of the feed's own failures, and the error text is set iff it is positive |
| `History.PortCountFollowsItsOutcomes` | android/app/src/main/java/io/github/dipakmdhrm/fodder/data/db/Daos.kt:34-83 | after any passes of the port the stored error count is the port's count of the feed's own outcomes, however stale the rows it read |
| `History.PortErrorFollowsItsOutcomes` | android/app/src/main/java/io/github/dipakmdhrm/fodder/data/db/Daos.kt:34-83 | after any passes of the port the stored error text is that of the feed's last failure since its last 200 |
| `History.ErrorTextGoesWithTheCount` | android/app/src/main/java/io/github/dipakmdhrm/fodder/data/db/Daos.kt:34-83 | and it is set iff the port's count is positive |
| `History.PortFollowsThePlan` | android/app/src/main/java/io/github/dipakmdhrm/fodder/data/FeedRepository.kt:112-177 | after any passes the port's next poll is planned from the feed's last visit: the spacing after a 200 or 304, the time asked for after a rate limit, min(300 * 2^n, 21600) seconds after a failure, n being the count that visit read |
| `History.PortPlanOfItsOwnOutcomes` | android/app/src/main/java/io/github/dipakmdhrm/fodder/data/FeedRepository.kt:128-140 | if that visit read the row as the earlier ones left it, n is the count of the feed's own outcomes before it |
| `History.StoredCountsAgreeExactlyWhen` | android/app/src/main/java/io/github/dipakmdhrm/fodder/data/db/Daos.kt:75-83 | given the same outcomes for a feed, the counts stored on both sides are equal iff no failure since the last 200 was followed by a 304 or a rate limit |
| `Counting.CountIsTrailingBlockOnEveryRun` | linux/fodderd/src/scheduler.rs:189-200 | on every run with crashes and user actions in between, the stored count is the trailing block of failures recorded for the subscription, unless its id was reissued under a poll that may fail and counts from something else than zero |
| `Counting.MiscountsExactlyWhenStale` | linux/fodderd/src/scheduler.rs:189-200 | from every state with a right row, some continuation miscounts iff a poll under way that may still fail counts from another number than the row's |
| `Counting.ReissueMiscountsExactlyWhen` | linux/core/src/db/migrations.rs:16-17 | when an id is given to a new feed its count can go wrong iff such a poll of the old feed counts from something else than zero |
| `Refresh.PassFailsExactlyWhen` | linux/fodderd/src/scheduler.rs:157-176 | a pass aborts iff it brings items for a feed that was unsubscribed since its row was read |
| `Refresh.PassKeeps` | linux/fodderd/src/scheduler.rs:149-206 | a pass that does not abort keeps all constraints and the set of feeds |
| `Refresh.Scheduler.CollectNew` | linux/fodderd/src/scheduler.rs:248-258 | the announcement lists exactly the inserted rows, highest id first |
| `Refresh.Scheduler.StoreUpdated` | linux/fodderd/src/scheduler.rs:211-261 | title, articles, validators in that order; a failure leaves the store as it was, since only a missing feed makes it fail |
| `Refresh.Scheduler.Settle` | linux/fodderd/src/scheduler.rs:178-200 | the three outcomes without a body |
| `Refresh.Scheduler.ApplyOutcome` | linux/fodderd/src/scheduler.rs:157-200 | one outcome: its new-article count is the growth of the article table, and existing rows stay |
| `Refresh.Scheduler.PollFeeds` | linux/fodderd/src/scheduler.rs:149-206 | the pass counts exactly the rows added and the failures met, and FeedsChanged is sent iff rows were added; an aborted pass leaves the store of the outcomes before the failing one |
| `Refresh.Scheduler.RefreshReporting` | linux/fodderd/src/scheduler.rs:122-145 | a start is followed by exactly one finish with the true counts, or, iff the pass aborts, by none, with the store of the outcomes before the failing one |
| `Refresh.PollUninterrupted` | linux/fodderd/src/scheduler.rs:157-261 | the protocol's separately committed steps, run in a row, do to the store what the pass does |
| `AndroidStore.FilterThenInsert` | android/app/src/main/java/io/github/dipakmdhrm/fodder/data/db/Daos.kt:138-155 | filtering by tombstones first leaves the same first occurrences as guarding each insert |
| `AndroidStore.OneMoreEntity` | android/app/src/main/java/io/github/dipakmdhrm/fodder/data/db/Daos.kt:99-108 | the unique index ignores a row exactly if its guid was stored or came earlier in the batch, and a row that is added gets the id of its position: ignored rows use up ids |
| `AndroidStore.NewEntitiesAre` | android/app/src/main/java/io/github/dipakmdhrm/fodder/data/db/Daos.kt:99-108 | the added rows are the first occurrences of unknown guids in order, each with the id of its position in the batch |
| `AndroidStore.RoomStore.InsertAll` | android/app/src/main/java/io/github/dipakmdhrm/fodder/data/db/Daos.kt:99-108 | adds the first occurrences and returns each one's id, and -1 exactly at the repeats; every row of the batch uses up one AUTOINCREMENT id; a missing feed refuses the batch and changes nothing |
| `AndroidStore.RoomStore.InsertNew` | android/app/src/main/java/io/github/dipakmdhrm/fodder/data/db/Daos.kt:138-155 | adds exactly the first occurrences of guids neither stored nor deleted; the real ids it returns are those of the added rows, in order; items dropped by the tombstones use up no id |
| `AndroidStore.RealAreRowIds` | android/app/src/main/java/io/github/dipakmdhrm/fodder/data/FeedRepository.kt:158 | leaving out the -1 entries leaves exactly the ids of the added rows, in order |
| `AndroidStore.RoomInsertedAppends` | android/app/src/main/java/io/github/dipakmdhrm/fodder/data/db/Daos.kt:138-155 | an insert appends rows whose ids ascend and were never given before, and leaves the stored rows alone |
| `AndroidStore.RoomStore.DeleteArticle` | android/app/src/main/java/io/github/dipakmdhrm/fodder/data/db/Daos.kt:157-183 | tombstone and delete move one article |
| `AndroidStore.RoomStore.ClearFeed` | android/app/src/main/java/io/github/dipakmdhrm/fodder/data/db/Daos.kt:185-211 | the same for every article of a feed |
| `AndroidStore.RoomStore.RecordSuccess` | android/app/src/main/java/io/github/dipakmdhrm/fodder/data/db/Daos.kt:34-54 | stores validators and schedule and clears the error state |
| `AndroidStore.RoomStore.RecordError` | android/app/src/main/java/io/github/dipakmdhrm/fodder/data/db/Daos.kt:56-73 | adds one to the stored count and keeps the validators |
| `AndroidStore.RoomStore.Reschedule` | android/app/src/main/java/io/github/dipakmdhrm/fodder/data/db/Daos.kt:75-83 | moves the schedule and keeps validators and error state |
| `AndroidStore.BothInsertTheSame` | android/app/src/main/java/io/github/dipakmdhrm/fodder/data/db/Daos.kt:138-155 | on equal stores and any batch both inserts refuse alike, add the same articles up to row ids, and report the same number |
| `AndroidStore.BothDeleteTheSame` | android/app/src/main/java/io/github/dipakmdhrm/fodder/data/db/Daos.kt:157-211 | deleting an article and clearing a feed keep the two stores equal |
| `AndroidRepository.AndroidBackoffIsCappedPower` | android/app/src/main/java/io/github/dipakmdhrm/fodder/data/http/Backoff.kt:17-25 | the port's delay is 300 * 2^n seconds capped at six hours, for every count |
| `AndroidRepository.FeedRepository.StoreDocument` | android/app/src/main/java/io/github/dipakmdhrm/fodder/data/FeedRepository.kt:142-175 | articles, title, validators; the ids are those of the added rows, ascending and new; a refusal changes nothing |
| `AndroidRepository.FeedRepository.Settle` | android/app/src/main/java/io/github/dipakmdhrm/fodder/data/FeedRepository.kt:118-140 | the arms that store no document |
| `AndroidRepository.FeedRepository.PollFeed` | android/app/src/main/java/io/github/dipakmdhrm/fodder/data/FeedRepository.kt:112-177 | one feed's summary counts exactly the growth of the article table and whether the poll failed, and lists the ids of the added rows |
| `AndroidRepository.FeedRepository.Poll` | android/app/src/main/java/io/github/dipakmdhrm/fodder/data/FeedRepository.kt:99-110 | the totals are the growth of the table and the number of failures, and the ids those of all added rows in order, ascending and new; a refused pass leaves the database of the visits before the refused one |
| `AndroidRepository.BothStoreTheSame` | android/app/src/main/java/io/github/dipakmdhrm/fodder/data/FeedRepository.kt:142-175 | storing a document keeps articles, validators and tombstones equal whatever the titles, and the titles equal iff both sides fill in the document's title, or neither, or it is the title the feed has, or the feed is gone; the order of title and articles makes no difference |
| `AndroidRepository.BlankAlikeFillAlike` | android/app/src/main/java/io/github/dipakmdhrm/fodder/data/FeedRepository.kt:160-164 | both sides fill in alike whenever they read the same title and agree on which of the two titles are blank |
| `AndroidRepository.BlankDiffers` | android/app/src/main/java/io/github/dipakmdhrm/fodder/data/FeedRepository.kt:160-164 | two titles on which they do not: U+0085 is blank to Rust only, U+001C to Kotlin only |
| `AndroidRepository.BothPassesTheSame` | android/app/src/main/java/io/github/dipakmdhrm/fodder/data/FeedRepository.kt:31-39 | a pass over the same feeds and answers is refused by both or neither, counts the same failures, and keeps the stores equal, the titles included when each is filled in alike |
| `ViewerProtocol.StepKeepsChildInv` | linux/fodderd/src/viewer_proc.rs:17-131 | every lock-level step keeps the one-child invariant |
| `ViewerProtocol.OneViewerChild` | linux/fodderd/src/viewer_proc.rs:69-131 | in every interleaving at most one child runs and at most one reaper has still to clear `viewer_alive` |
| `ViewerProtocol.StepKeepsAccounted` | linux/fodderd/src/viewer_proc.rs:17-44 | every lock-level step keeps each request in exactly one place |
| `ViewerProtocol.HandedOnAtMostOnce` | linux/fodderd/src/viewer_proc.rs:17-44 | in every interleaving no request is handed on twice over the three routes, nor handed on and still waiting |
| `ViewerRaces.StuckForGood` | linux/fodderd/src/viewer_proc.rs:24-28 | once the flag is set with nobody left to clear it and no viewer registered, no request is handed on and no viewer spawned until another hello |
| `ViewerRaces.ByHandViewerLeavesDaemonStuck` | linux/fodderd/src/server.rs:62-66 | a viewer without a child, opened and closed again, leads there, since deregistering leaves `viewer_alive` set |
| `ViewerRaces.LateHelloLeavesDaemonStuck` | linux/fodderd/src/server.rs:82-99 | so does the daemon's own child, when its hello is read after its reaper finished |
| `ViewerConditions.FlagIsTrueExactlyWhen` | linux/fodderd/src/server.rs:93-94 | over every run `viewer_alive` is never set with nobody to clear it, iff every hello sets it while a child is in hand or has a reaper that has not cleared it |
| `ViewerConditions.FlagCanBeClearedExactlyWhen` | linux/fodderd/src/viewer_proc.rs:125-126 | with the flag set, some continuation clears it iff such a child or reaper exists or the open handler is about to spawn |
| `ViewerConditions.UnguardedForGood` | linux/fodderd/src/viewer_proc.rs:100-108 | otherwise the flag stays set for good as long as no spawn succeeds |
| `ViewerConditions.MaroonedForGood` | linux/fodderd/src/viewer_proc.rs:24-30 | and, the open handler not having decided to spawn, no viewer is ever spawned again, whoever says hello |
| `ViewerRaces.DeferralCanMissTheHello` | linux/fodderd/src/viewer_proc.rs:19-28 | with overlapping handlers a request can end up deferred while a listening viewer is registered |
| `ViewerConditions.NoRegistrationInBetweenMissesNothing` | linux/fodderd/src/viewer_proc.rs:17-44 | over every run in which no viewer registers between the open handler's look and its deferral, a deferred request meets a listening viewer only while that viewer has still to look into the slot |
| `ViewerConditions.HelloCanMissExactlyWhen` | linux/fodderd/src/server.rs:93-98 | whenever a viewer registers, its hello can miss a request before another registers, iff the open handler stands in between and the viewer's queue is open |
| `ViewerRaces.OldReaperSwitchesOffNewViewer` | linux/fodderd/src/viewer_proc.rs:115-130 | an old reaper's last clearing can drop the next child's kill sender, which ends that child |
| `ViewerConditions.CleanInstallsSpareChildren` | linux/fodderd/src/viewer_proc.rs:110-130 | over every run without shutdown in which each kill switch is installed after all earlier reapers finished, no running child is switched off |
| `ViewerConditions.SwitchOffPossibleExactlyWhen` | linux/fodderd/src/viewer_proc.rs:110-130 | a running child whose kill switch is about to be installed can be switched off without shutdown iff some earlier reaper has not finished |
| `ViewerConditions.ShutdownReachesChildExactlyWhen` | linux/fodderd/src/viewer_proc.rs:46-51 | in every reachable state shutdown switches a running child off iff its kill switch is installed: between the spawn and the installation it misses the child |
| `ViewerConditions.SwitchedOffExactlyByShutdown` | linux/fodderd/src/viewer_proc.rs:46-51 | over every run with clean installs a running child is switched off iff a shutdown came after its own switch was installed |
| `ViewerProc.SpawnOpensTheTarget` | linux/fodderd/src/viewer_proc.rs:72-96 | the viewer reads from its command line the target of the request, and a plain open restores the reading state iff an article was open |
| `ViewerProc.LastArgumentCounts` | linux/fodder/src/main.rs:49-65 | of several arguments of a kind the last one counts |
| `ViewerProc.MessageOpensTheTarget` | linux/fodderd/src/viewer_proc.rs:54-65 | the message takes a running viewer to the request's feed and article, which is where the command line takes a new one; a plain open only raises it; read by the daemon the message is the request |
| `ViewerProc.LastDeferredReachesTheNextViewer` | linux/fodderd/src/viewer_proc.rs:17-44 | of the requests made while a viewer starts up the last one reaches the first viewer that says hello |
| `ViewerProc.AppCtx.SendToViewer` | linux/fodderd/src/state.rs:86-94 | delivers exactly if a viewer is registered and its queue is open |
| `ViewerProc.AppCtx.Open` | linux/fodderd/src/viewer_proc.rs:17-31 | send, else defer, else spawn, with exactly the message or command line that goes out; a listening viewer is taken to the request's target; afterwards a request is deferred only while no registered viewer listens |
| `ViewerProc.AppCtx.Spawn` | linux/fodderd/src/viewer_proc.rs:69-131 | a started child is marked alive and gets the kill slot; a failed start changes nothing |
| `ViewerProc.AppCtx.DeliverPending` | linux/fodderd/src/viewer_proc.rs:35-44 | empties the slot and, if a viewer listens, takes it to the target of the request that was in it |
| `ViewerProc.AppCtx.ViewerHello` | linux/fodderd/src/server.rs:82-99 | refuses a duplicate and raises the first; else registers, acknowledges, then delivers, and leaves the slot empty, with exactly the messages sent |
| `ViewerProc.AppCtx.RememberReading` | linux/fodderd/src/server.rs:122-134 | keeps what the viewer shows, and a plain open then restores it if an article was open |
| `ViewerProc.AppCtx.Deregister` | linux/fodderd/src/server.rs:61-66 | a connection that registered clears the registration when it ends, whichever viewer holds it by then; any other connection leaves it |
| `ViewerProc.AppCtx.Reap` | linux/fodderd/src/viewer_proc.rs:125-129 | clears all four cells |
| `ViewerProc.AppCtx.Kill` | linux/fodderd/src/viewer_proc.rs:47-51 | empties the kill slot and names the child to end |
| `ViewerProc.OpenUninterrupted` | linux/fodderd/src/viewer_proc.rs:17-31 | the open handler's own lock-level steps, one after the other and nothing else, change the cells as `Open` does and hand on what `Open` sends or launches |
| `ViewerProc.HelloUninterrupted` | linux/fodderd/src/server.rs:82-99 | the same for the hello handler's own steps |
| `ViewerProc.ReapUninterrupted` | linux/fodderd/src/viewer_proc.rs:125-129 | the same for the reaper's four clearings, which hand on nothing |
| `ViewerRequests.RequestsKeepTheirTargets` | linux/fodderd/src/state.rs:64-68 | over every run each request, wherever it is, asks for what it asked for when it arrived, and the queue holds the last of them in order |
| `ViewerRequests.LostExactlyWhen` | linux/fodderd/src/viewer_proc.rs:17-130 | in every interleaving a request is lost iff a later one takes its place in the slot, its viewer cannot be started, the reaper empties the slot, or its viewer has stopped listening |
| `ViewerRequests.ViewersAreThoseThatRegistered` | linux/fodderd/src/server.rs:44-66 | over every run the connections taken for viewers are exactly those that registered |
| `ViewerRequests.DeregisteringMeans` | linux/fodderd/src/server.rs:61-66 | the end of a connection clears the registration iff the connection ever registered, whoever holds it by then |
| `ViewerRequests.NothingGoesToADeadWriter` | linux/fodderd/src/state.rs:86-94 | once a connection's queue has lost its receiver no request is handed to it, however the run goes on |
| `ViewerRequests.StoppedForGood` | linux/fodderd/src/main.rs:189-194 | the open handler can stop between two requests, and then no viewer is started any more |
| `ViewerRequests.OpenerWaitsExactlyWhen` | linux/fodderd/src/viewer_proc.rs:17-31 | the open handler waits for a request and for nothing else |
| `ViewerRequests.ReaperWaitsExactlyWhen` | linux/fodderd/src/viewer_proc.rs:114-130 | a reaper waits only while its child runs and its kill channel stands |
| `ViewerRequests.ConnectionWaitsExactlyWhen` | linux/fodderd/src/server.rs:29-68 | a connection always has a next step until it is gone |
| `Reader.EscapePasses` | linux/fodder/src/reader.rs:105-108 | escaped text is shown as the text it was and cannot leave a text or attribute position |
| `Reader.EscapeIsClean` | linux/fodder/src/reader.rs:105-108 | escaped text holds no bare angle bracket or quote and no control character |
| `Reader.ControlsAre` | linux/fodder/src/reader.rs:105-108 | the characters written by number are the two control blocks but for tab, line feed, carriage return and next line |
| `Reader.ImagesShowTheirAlt` | linux/fodder/src/reader.rs:78-84 | an image is shown by its alternative text in brackets, and not at all without one |
| `ReaderMarkup.UnderlinedAndStruck` | linux/fodder/src/reader.rs:43-44 | which elements are underlined and which struck through |
| `ReaderMarkup.ElementPasses` | linux/fodder/src/reader.rs:33-87 | the tags around an element's content balance, put its style or link around it, and show only its bullet and line ends |
| `ReaderMarkup.RenderedPasses` | linux/fodder/src/reader.rs:29-108 | for every tree, in any position, the markup is balanced and shows exactly the tree's text, each character under the styles and links of the elements around it |
| `ReaderMarkup.StyledAllIsPlain` | linux/fodder/src/reader.rs:29-108 | without its styles and links this is the tree's plain text |
| `ReaderMarkup.SqueezeMeans` | linux/fodder/src/reader.rs:110-126 | a maximal run of k newlines becomes min(k, 2) newlines |
| `ReaderMarkup.SqueezeKeeps` | linux/fodder/src/reader.rs:110-126 | every other character stays, whatever follows it, and the count starts anew after it |
| `ReaderMarkup.SqueezeSettles` | linux/fodder/src/reader.rs:110-126 | no three newlines in a row remain, and collapsing again changes nothing |
| `ReaderMarkup.SqueezePasses` | linux/fodder/src/reader.rs:110-126 | collapsing keeps markup well-formed, drops only newlines from what it shows, and changes no style and no link but for newlines in a target |
| `ReaderMarkup.PangoIsFaithful` | linux/fodder/src/reader.rs:16-27 | for every document the final string is well-formed and shows its text in its styles and links but for trimmed ends and dropped newlines |
| `ReaderMarkup.PangoKeepsLinks` | linux/fodder/src/reader.rs:69-73 | for every document the targets of the links in the final string are the document's hrefs, in order, each with runs of newlines in it collapsed |
| `ReaderMarkup.Render` | linux/fodder/src/reader.rs:29-91 | appends the markup of the node to the buffer and leaves what is there |
| `ReaderMarkup.RenderElement` | linux/fodder/src/reader.rs:33-88 | the same, element by element |
| `ReaderMarkup.Wrap` | linux/fodder/src/reader.rs:99-103 | appends opening, children and closing |
| `ReaderMarkup.RenderChildren` | linux/fodder/src/reader.rs:93-97 | appends the children's markup in order |
| `ReaderMarkup.CollapseBlankLines` | linux/fodder/src/reader.rs:110-126 | the counter loop computes the collapsed text |
| `ReaderMarkup.HtmlToPango` | linux/fodder/src/reader.rs:16-27 | the whole conversion, with a well-formed result |
| `Annotated.NearestAnchorLinks` | android/app/src/main/java/io/github/dipakmdhrm/fodder/reader/HtmlToAnnotated.kt:78 | a run's link is the non-blank target of the nearest enclosing anchor, whatever stands farther out |
| `Annotated.NoAnchorNoLink` | android/app/src/main/java/io/github/dipakmdhrm/fodder/reader/HtmlToAnnotated.kt:45-51 | without an enclosing anchor a run has no link |
| `Annotated.ChildStyleIsStyleBelow` | android/app/src/main/java/io/github/dipakmdhrm/fodder/reader/HtmlToAnnotated.kt:72-80 | copying the style on the way down gives the style declared for the path: bold, italic, monospace and heading stick |
| `Annotated.SquashMeans` | android/app/src/main/java/io/github/dipakmdhrm/fodder/reader/HtmlToAnnotated.kt:64 | whatever class the engine takes `\s` for: after squashing its only members left are spaces, no two in a row |
| `Annotated.RunBecomesOneSpace` | android/app/src/main/java/io/github/dipakmdhrm/fodder/reader/HtmlToAnnotated.kt:64 | every maximal run of the class becomes exactly one space, wherever it stands |
| `Annotated.NothingToSquash` | android/app/src/main/java/io/github/dipakmdhrm/fodder/reader/HtmlToAnnotated.kt:64 | text without it stays as it is |
| `Annotated.SquashKeepsInk` | android/app/src/main/java/io/github/dipakmdhrm/fodder/reader/HtmlToAnnotated.kt:64 | squashing keeps every character that is not white space, in order |
| `Annotated.BothEnginesTakeOnlySpace` | android/app/src/main/java/io/github/dipakmdhrm/fodder/reader/HtmlToAnnotated.kt:64 | the JVM's and the Unicode reading of `\s` both take white space only, as the comparison of the readers asks |
| `Annotated.KotlinSpaceIs` | android/app/src/main/java/io/github/dipakmdhrm/fodder/data/FeedRepository.kt:160-164 | what is blank to Kotlin and to Rust differs in five characters |
| `Annotated.Walk` | android/app/src/main/java/io/github/dipakmdhrm/fodder/reader/HtmlToAnnotated.kt:56-96 | appends the runs of all texts and breaks in document order, each text in the style of its path, blank text skipped while the list is empty |
| `Annotated.WalkChild` | android/app/src/main/java/io/github/dipakmdhrm/fodder/reader/HtmlToAnnotated.kt:61-94 | the same for one node; breaks carry the default style |
| `Annotated.HtmlToSpans` | android/app/src/main/java/io/github/dipakmdhrm/fodder/reader/HtmlToAnnotated.kt:33-40 | the walk from the body in the default style, without empty runs |
| `Annotated.OnlyLeadingBlanksAreSkipped` | android/app/src/main/java/io/github/dipakmdhrm/fodder/reader/HtmlToAnnotated.kt:63-67 | what the walk leaves out are exactly the blank texts before anything else: every later text and every break has its run, in order |
| `Annotated.BothReadersShowTheSame` | android/app/src/main/java/io/github/dipakmdhrm/fodder/reader/HtmlToAnnotated.kt:22-27 | for every tree without images, and with the JVM's or Android's reading of `\s`, the runs show the desktop's plain text, but for white space and bullets |
| `Annotated.BothReadersBreakTheSame` | android/app/src/main/java/io/github/dipakmdhrm/fodder/reader/HtmlToAnnotated.kt:81-94 | before squashing both readers have the same text with the same breaks in the same places, for every tree without images, lists, sections and articles |
| `Annotated.BlocksOfBothReaders` | android/app/src/main/java/io/github/dipakmdhrm/fodder/reader/HtmlToAnnotated.kt:90-92 | after which elements the port breaks and the desktop does not, and the other way round |
| `Annotated.BothReadersStyleTheSame` | android/app/src/main/java/io/github/dipakmdhrm/fodder/reader/HtmlToAnnotated.kt:72-80 | wherever a text stands both readers make it bold, italic and a heading alike, and monospace alike but below tt, kbd and samp |
| `Annotated.BothReadersLinkTheSame` | android/app/src/main/java/io/github/dipakmdhrm/fodder/reader/HtmlToAnnotated.kt:78 | below an anchor with a non-blank target both readers link to that target |
| `Framing.BigEndianRoundTrip` | linux/core/src/ipc.rs:103 | a 32-bit length survives its four bytes |
| `Framing.FirstByteIsMostSignificant` | linux/core/src/ipc.rs:119 | the first byte is the most significant one |
| `Framing.FitsMeans` | linux/core/src/ipc.rs:98-102 | a message is written iff its body has at most 8 MiB |
| `Framing.TooLongExactlyWhen` | linux/core/src/ipc.rs:119-122 | a length is refused iff it is beyond 8 MiB, before any of the body is read |
| `Framing.Stream.ReadExact` | linux/core/src/ipc.rs:112-117 | takes exactly n bytes however they are chunked, or everything and an end |
| `Framing.ReadMsg` | linux/core/src/ipc.rs:109-130 | one read: message, end, or error, and what it leaves on the stream |
| `Framing.ReadLoop` | linux/fodderd/src/server.rs:46-59 | the connection loop handles what the bytes spell until a close, the end or an error |
| `Framing.FrameReadsBack` | linux/core/src/ipc.rs:93-130 | a whole frame is read back as its message and exactly it is consumed |
| `Framing.PrefixYieldsWholeFrames` | linux/fodderd/src/server.rs:46-59 | for every message list and every prefix of its bytes: exactly the messages wholly inside, up to the first that asks to close, then end or error by the bytes left |
| `Framing.CleanEndExactlyWhen` | linux/core/src/ipc.rs:109-117 | the stream counts as cleanly ended iff fewer than four bytes of a frame are left |
| `Framing.CutLengthLooksClean` | linux/core/src/ipc.rs:109-117 | a stream that ends inside a length is taken for a clean end |
| `Framing.WriteMsg` | linux/core/src/ipc.rs:93-107 | writes a whole frame, or what there is room for; a message that is too long or cannot be encoded writes nothing |
| `Framing.WriterTask` | linux/fodderd/src/server.rs:35-42 | writes the frames of the queue in order up to the first failure |
| `Framing.DeliveredInOrder` | linux/fodderd/src/server.rs:32-59 | wherever the connection breaks, what is handled is a prefix of what was queued |
| `Framing.UnbrokenDeliversAll` | linux/fodderd/src/server.rs:32-59 | and if it does not break, everything queued is handled, up to the first message that asks to close |
| `Framing.UpToCloseIsPrefix` | linux/fodderd/src/server.rs:46-59 | no handled message but the last asks to close, and unless it does all are handled |
| `Migrations.MigrationsAreLawful` | linux/core/src/db/migrations.rs:13-58 | the present scripts create something each and nothing twice |
| `Migrations.MigrationsMakeTheSchema` | linux/core/src/db/migrations.rs:13-58 | what the two scripts create |
| `Migrations.ClashesIffApplied` | linux/core/src/db/migrations.rs:67-73 | a script fails on the schema of a version exactly if it is one of that version's scripts |
| `Migrations.Database.Run` | linux/core/src/db/migrations.rs:61-80 | applies the scripts beyond the version in order and returns the number of the first that fails, rolled back |
| `Migrations.Database.ExecuteBatch` | linux/core/src/db/migrations.rs:68 | succeeds iff nothing it creates exists, and then all of it does |
| `Migrations.LoneRunnerCompletes` | linux/core/src/db/migrations.rs:61-80 | from the schema of any version a lone runner succeeds and ends with all scripts |
| `Migrations.SecondRunChangesNothing` | linux/core/src/db/migrations.rs:61-80 | whatever the file held, a second run after a success changes nothing |
| `Migrations.SchemaStaysWhole` | linux/fodderd/src/main.rs:77-78 | after any interleaving of any number of runners with crashes the schema is the first `user_version` scripts, each applied once; a success has all; a clash was lost to another runner |
| `Migrations.RunUninterrupted` | linux/core/src/db/migrations.rs:61-80 | from any state a runner's own steps, with no other runner's in between, do what the runner does alone |
| `Migrations.AnotherRunnerCompletes` | linux/fodder/src/app.rs:131-135 | wherever crashed or beaten runners stopped, one more runner completes the schema |
| `Migrations.LosersLeaveItFinished` | linux/core/src/db/migrations.rs:66-78 | when runners only succeed or lose a script to one another, some runner succeeds and the schema is complete |
| `Migrations.CompleteStaysPut` | linux/core/src/db/migrations.rs:66-78 | once complete no runner touches the schema |
| `Reminder.WaitEndsAtNextOccurrence` | linux/fodderd/src/reminder.rs:72-88 | every wait is in (0, 24h] and ends at the first later instant that shows the configured time |
| `Reminder.TimeOfDayMeans` | linux/fodderd/src/reminder.rs:72-88 | the configured hour and minute are that many whole hours and minutes after midnight |
| `Reminder.EachElapsedFiresOnce` | linux/fodderd/src/reminder.rs:16-45 | a timer that elapses with a setting in force adds exactly one firing, with that setting's time, for its first occurrence after the loop resumed; nothing else fires |
| `Reminder.FiringsIncrease` | linux/fodderd/src/reminder.rs:16-45 | each reminder wakes at or after its target, and later targets are more than 61 seconds after the last wake-up |
| `Reminder.Run` | linux/fodderd/src/reminder.rs:16-45 | over any run of wake-ups and reloads the loop makes exactly these firings |
| `Reminder.OncePerTargetDay` | linux/fodderd/src/reminder.rs:16-45 | while the time is unchanged no two reminders are for the same local day |
| `Reminder.SameDayOnlyAfterOversleeping` | linux/fodderd/src/reminder.rs:16-45 | two reminders wake on one local day only if the first was set for an earlier day |
| `Reminder.SameDayExactlyWhen` | linux/fodderd/src/reminder.rs:37-41 | the next reminder falls on the day the timer woke iff the pause ends before the time of day, so one that slipped past midnight is followed by another that day |

## Left out

- GTK, tray, notifications, portal, Compose screens: user interface. `duration_ms` of a finished refresh is a clock reading and is dropped.
- HTTP transport, feed parsing, sanitizers, HTML parsing, the JSON codec and guid hashing: their results are inputs here. `parse_retry_after` is an input too. Nothing assumes that hashing is injective.
- SQLite locking: a transaction or a single statement is one atomic, durable step. Row-id and 32-bit counter overflow, `seen_at`, `created_at` and `deleted_at` are not modelled, nor is the ORDER BY of queries.
- Timestamps before year 0, leap seconds and chrono's overflow panics. `ParseSqlTime` covers the canonical form and the space-separated form; other RFC 3339 spellings never occur in the store. A timestamp column is named by the instant it was written for, and its text is derived from it.
- NextPollFollowsThePlan: a `Retry-After` that leads past year 9999 is stored as a text that sorts before every date, so the feed is due at once (`Scheduling.DueMeans`); the gap to the stored schedule is therefore stated through year 9999 only. The planned delay of a rate limit may be zero.
- The polls of one pass are run to completion in `Refresh`; their interleaving with the user is in `PollProtocol`. `PollProtocol` assumes that a feed id freed by an unsubscribe is not reissued while something harmful to the new feed is under way for it; `ReissueConditions` shows that exactly this has to be assumed.
- TitleIsOverwrittenExactlyWhen: stated of the desktop. The port also decides by the title it read before the fetch, but its user actions are not interleaved with its passes here.
- A feed whose server has never served anything cannot be fetched in `PollProtocol`: an answer is recorded with the document served at that moment, also when the request fails.
- StoredCountsAgreeExactlyWhen: covers the error counts of the two sides; their schedules differ by design (one minute against five, and the port's spacing setting) and are not compared.
- Android row ids and times: the simulation ignores row ids and retry bookkeeping, takes both `published` fields as the same instants (milliseconds there, seconds here), and compares passes that visit feeds in the same order. Subscribing is not compared, since the port never reuses a feed id.
- `run` of the scheduler with its channel, `is_viewer` bookkeeping of other messages, `reload_config`, autostart, single instance, discovery, subscribing over IPC: easy or library-bound.
- The viewer's own IPC reader, which may cancel a half-done read: no framing claim is made for it. A writer that fails is modelled by the number of bytes its peer still takes.
- That one viewer is registered holds only for viewers the daemon spawned; `ViewerRaces` shows what a viewer started by hand can do.
- Element names are the constructors of `Reader.Tag` and attributes are reduced to `href` and `alt`; the newline counter of `collapse_blank_lines` is unbounded here and 32 bits wide there. What `\s` matches is a parameter of `Annotated`, since the JVM and Android's engine differ.
- The reminder is modelled in a zone of fixed offset with a clock that moves forward; daylight saving and the decision whether a due reminder is shown (unread count, open viewer) are not.
