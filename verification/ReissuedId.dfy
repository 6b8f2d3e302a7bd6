/** A run that PollProtocol.Enabled has to forbid. Feed ids are INTEGER PRIMARY KEY without AUTOINCREMENT, so the
    largest id is free again as soon as its feed is deleted; a poll of the old feed still under way then stores its
    validators in the new feed's row. ReissueConditions says exactly when that does harm. */
module ReissuedId {
  import opened Wrappers
  import opened SqlTime
  import opened Tables
  import opened Poller
  import opened PollProtocol

  lemma Snoc(t: Tags, w: World, steps: seq<Action>, a: Action)
    requires RunAnyId(t, w, steps) && EnabledAnyId(t, After(w, steps), a)
    ensures RunAnyId(t, w, steps + [a]) && After(w, steps + [a]) == Next(After(w, steps), a)
  {
    assert (steps + [a])[..|steps|] == steps;
  }

  const X: NewArticle := NewArticle("x", "", None, None, None)
  const TAG: Option<string> := Some("1")
  const DOC: Doc := Doc(Validators(TAG, None), None, [X])

  /** The tag "1" stands for item x at url "a" and for item y at url "b". */
  function Meaning(url: string, v: Validators): set<string> {
    if url == "a" then {"x"} else {"y"}
  }

  lemma GuidsOfX()
    ensures Guids([X]) == {"x"}
    ensures forall known: set<string> :: "x" !in known ==> Fresh(known, [X]) == [X]
  {
    assert [X][0] == X;
    assert [X][..0] == [];
  }

  /** Feed 1 is subscribed at url "a", whose server has document DOC. */
  lemma Subscribed1(now: Instant) returns (steps: seq<Action>)
    ensures RunAnyId(Meaning, START, steps)
    ensures var w := After(START, steps);
            && w.server == map["a" := DOC] && w.polls == map[] && w.writing.None?
            && w.db == Db(map[1 := BlankFeed("a", "A", now)], [], {})
  {
    GuidsOfX();
    steps := [];
    Snoc(Meaning, START, steps, Publish("a", DOC));
    steps := steps + [Publish("a", DOC)];
    Snoc(Meaning, START, steps, Subscribe(1, "a", "A", now));
    steps := steps + [Subscribe(1, "a", "A", now)];
  }

  predicate UnderWay(w: World) {
    && 1 in w.polls && w.writing.None?
    && w.polls[1].Answered? && w.polls[1].outcome == Updated(None, TAG, None, [X])
  }

  /** Its poll was answered with DOC; x is about to be stored. */
  lemma PollUnderWay(now: Instant) returns (steps: seq<Action>)
    ensures RunAnyId(Meaning, START, steps)
    ensures var w := After(START, steps);
            UnderWay(w) && w.db == Db(map[1 := BlankFeed("a", "A", now)], [], {})
  {
    steps := Subscribed1(now);
    Snoc(Meaning, START, steps, Snapshot(1));
    steps := steps + [Snapshot(1)];
    var w := After(START, steps);
    assert w.polls[1] == Asked(BlankFeed("a", "A", now)) && w.server["a"] == DOC;
    var reply := Reply(200, TAG, None, None, Parsed(None, [X]));
    Snoc(Meaning, START, steps, Fetch(1, reply));
    steps := steps + [Fetch(1, reply)];
  }

  /** Meanwhile feed 1 is deleted and its id given to a feed at url "b". */
  lemma IdReissued(now: Instant) returns (steps: seq<Action>)
    ensures RunAnyId(Meaning, START, steps)
    ensures var w := After(START, steps);
            UnderWay(w) && w.db == Db(map[1 := BlankFeed("b", "B", now)], [], {})
  {
    steps := PollUnderWay(now);
    Snoc(Meaning, START, steps, Unsubscribe(1));
    steps := steps + [Unsubscribe(1)];
    assert After(START, steps).db == Db(map[], [], {});
    Snoc(Meaning, START, steps, Subscribe(1, "b", "B", now));
    steps := steps + [Subscribe(1, "b", "B", now)];
  }

  predicate StoringX(w: World) {
    w.writing.Some? && w.writing.value.feedId == 1 && w.writing.value.outcome == Updated(None, TAG, None, [X])
  }

  /** The old poll begins to store its document. */
  lemma StoreBegun(now: Instant) returns (steps: seq<Action>)
    ensures RunAnyId(Meaning, START, steps)
    ensures var w := After(START, steps);
            StoringX(w) && w.writing.value.stage.Titled? && w.db == Db(map[1 := BlankFeed("b", "B", now)], [], {})
  {
    steps := IdReissued(now);
    Snoc(Meaning, START, steps, BeginStore(1));
    steps := steps + [BeginStore(1)];
  }

  /** It stores x under the new feed. */
  lemma StoredUnderNewFeed(now: Instant) returns (steps: seq<Action>)
    ensures RunAnyId(Meaning, START, steps)
    ensures var w := After(START, steps);
            && StoringX(w) && w.writing.value.stage.Added?
            && w.db.feeds == map[1 := BlankFeed("b", "B", now)] && Known(w.db, 1) == {"x"}
  {
    steps := StoreBegun(now);
    var w := After(START, steps);
    assert Known(w.db, 1) == {};
    GuidsOfX();
    InsertedIsKnown(w.db, 1, [X]);
    Snoc(Meaning, START, steps, AddArticles);
    steps := steps + [AddArticles];
  }

  /** Without the guard the cache property fails: this run ends with feed 1 at url "b" holding a
      validator that stands for y, and y neither stored nor deleted. */
  lemma {:induction false} ReissueBreaksTheCache(now: Instant, next: Instant) returns (steps: seq<Action>)
    ensures RunAnyId(Meaning, START, steps)
    ensures !RowsVouched(Meaning, After(START, steps))
  {
    steps := StoredUnderNewFeed(now);
    ghost var before := After(START, steps).db;
    Snoc(Meaning, START, steps, RecordSuccess(next));
    steps := steps + [RecordSuccess(next)];
    var w := After(START, steps);
    assert w.db.articles == before.articles && w.db.tombs == before.tombs;
    assert Known(w.db, 1) == {"x"};
    assert w.db.feeds[1].url == "b" && SentBy(w.db.feeds[1]) == Validators(TAG, None);
    assert !Vouched(Meaning, w.db, 1, "b", SentBy(w.db.feeds[1]));
  }
}
