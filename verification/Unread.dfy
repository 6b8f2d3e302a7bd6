/** Unread counts over whole runs of the store. */
module Unread {
  import opened PollProtocol
  import DesktopStore

  /** After every run total_unread is the sum of unread_counts, which holds only positive counts of
      subscribed feeds: the two statements that compute them cannot disagree. */
  lemma UnreadAgreesOnEveryRun(t: Tags, steps: seq<Action>, counts: map<int, nat>)
    requires RunAnyId(t, START, steps)
    requires DesktopStore.CountsUnread(After(START, steps).db.articles, counts)
    requires forall f :: f in counts <==> DesktopStore.UnreadIn(After(START, steps).db.articles, {f}) > 0
    ensures DesktopStore.SumValues(counts) == DesktopStore.AllUnread(After(START, steps).db.articles)
    ensures forall f :: f in counts ==> counts[f] > 0 && f in After(START, steps).db.feeds
  {
    RunKeepsBaseInv(t, START, steps);
    DesktopStore.TotalIsSumOfCounts(After(START, steps).db, counts);
  }
}
