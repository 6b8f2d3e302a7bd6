/** What becomes of each request to open the viewer: it keeps its target wherever it goes, is taken up in order of
    arrival, and is lost in four known ways only. */
module ViewerRequests {
  import opened Wrappers
  import opened ViewerProtocol
  import ViewerConditions

  /** The requests that arrived, in order; a request's number is its index here. */
  function Asked(steps: seq<Action>): seq<OpenRequest> {
    if steps == [] then [] else
      var last := steps[|steps| - 1];
      Asked(steps[..|steps| - 1]) + if last.Arrive? then [last.req] else []
  }

  predicate Genuine(t: Ticket, asked: seq<OpenRequest>) {
    t.no < |asked| && asked[t.no] == t.req
  }

  /** The queue is the last requests that arrived, in order. */
  predicate QueueIsLatest(queue: seq<Ticket>, asked: seq<OpenRequest>) {
    && |queue| <= |asked|
    && forall i :: 0 <= i < |queue| ==> queue[i] == Ticket(|asked| - |queue| + i, asked[|asked| - |queue| + i])
  }

  predicate HandlerHolds(s: State) {
    s.opener.Sending? || s.opener.Checking? || s.opener.Deferring? || s.opener.Spawning?
  }

  ghost predicate AllGenuine(s: State, asked: seq<OpenRequest>) {
    && s.nextNo == |asked| && QueueIsLatest(s.queue, asked)
    && (HandlerHolds(s) ==> Genuine(s.opener.t, asked))
    && (s.pending.Some? ==> Genuine(s.pending.value, asked))
    && (forall k :: k in s.conns && s.conns[k].step.Delivering? ==> Genuine(s.conns[k].step.t, asked))
  }

  lemma OthersLeaveConnections(s: State, a: Action)
    requires Enabled(s, a)
    ensures ViewerConditions.ByConnection(a) || Next(s, a).conns == s.conns
  {
    if !ViewerConditions.ByConnection(a) {
      ViewerConditions.OthersLeaveConnections(s, a);
    }
  }

  lemma OnlyTakingDelivers(s: State, a: Action, k: nat)
    requires Enabled(s, a) && !a.HelloTake? && k in Next(s, a).conns && Next(s, a).conns[k].step.Delivering?
    ensures k in s.conns && s.conns[k].step == Next(s, a).conns[k].step
  {
    OthersLeaveConnections(s, a);
  }

  lemma StepKeepsConnsGenuine(s: State, a: Action, asked: seq<OpenRequest>, k: nat)
    requires AllGenuine(s, asked) && Enabled(s, a)
    requires k in Next(s, a).conns && Next(s, a).conns[k].step.Delivering?
    ensures Genuine(Next(s, a).conns[k].step.t, asked)
  {
    if !a.HelloTake? {
      OnlyTakingDelivers(s, a, k);
    }
  }

  lemma StepKeepsPendingGenuine(s: State, a: Action, asked: seq<OpenRequest>)
    requires AllGenuine(s, asked) && Enabled(s, a)
    ensures Next(s, a).pending.Some? ==> Genuine(Next(s, a).pending.value, asked)
  {
  }

  lemma StepKeepsHandlerGenuine(s: State, a: Action, asked: seq<OpenRequest>)
    requires AllGenuine(s, asked) && Enabled(s, a)
    ensures HandlerHolds(Next(s, a)) ==> Genuine(Next(s, a).opener.t, asked)
  {
  }

  lemma OthersKeepQueue(s: State, a: Action)
    requires Enabled(s, a) && !a.Arrive?
    ensures Next(s, a).nextNo == s.nextNo
    ensures Next(s, a).queue == if a.TakeRequest? then s.queue[1..] else s.queue
  {
  }

  lemma StepKeepsGenuine(s: State, a: Action, asked: seq<OpenRequest>)
    requires AllGenuine(s, asked) && Enabled(s, a)
    ensures AllGenuine(Next(s, a), asked + if a.Arrive? then [a.req] else [])
  {
    StepKeepsPendingGenuine(s, a, asked);
    StepKeepsHandlerGenuine(s, a, asked);
    forall k | k in Next(s, a).conns && Next(s, a).conns[k].step.Delivering?
      ensures Genuine(Next(s, a).conns[k].step.t, asked)
    {
      StepKeepsConnsGenuine(s, a, asked, k);
    }
    if !a.Arrive? {
      assert asked + [] == asked;
      OthersKeepQueue(s, a);
    }
  }

  /** Over every run: wherever a request is, it asks for what it asked for when it arrived, and the queue holds the
      last requests in the order they came, so that the handler takes them up in that order. */
  lemma {:induction false} RequestsKeepTheirTargets(steps: seq<Action>, end: State)
    requires Run(START, steps, end)
    ensures AllGenuine(end, Asked(steps))
  {
    if steps != [] {
      var n := |steps| - 1;
      var mid :| Run(START, steps[..n], mid) && Enabled(mid, steps[n]) && end == Next(mid, steps[n]);
      RequestsKeepTheirTargets(steps[..n], mid);
      StepKeepsGenuine(mid, steps[n], Asked(steps[..n]));
    }
  }

  // ----- Lost requests ----------------------------------------------------

  predicate IsPending(s: State, n: nat) {
    s.pending.Some? && s.pending.value.no == n
  }

  /** The step loses request `n`: a later one takes its place in the slot, its viewer cannot be started, the reaper
      empties the slot, or the viewer that should get it does not listen any more. */
  predicate Loses(s: State, a: Action, n: nat)
    requires Enabled(s, a)
  {
    match a
    case Defer => IsPending(s, n)
    case Spawn(ok) => !ok && s.opener.t.no == n
    case ClearPending(_) => IsPending(s, n)
    case HelloDeliver(k) => s.conns[k].step.t.no == n && !ViewerListens(s)
    case _ => false
  }

  lemma OpenerLoses(s: State, a: Action, n: nat)
    requires Accounted(s) && Enabled(s, a) && ByOpener(a)
    ensures Marked(Next(s, a), n, Lost) <==> Marked(s, n, Lost) || Loses(s, a, n)
  {
    assert Holds(s, n) <==> Marked(s, n, Opening);
    assert IsPending(s, n) <==> Marked(s, n, Deferred);
  }

  lemma OthersLose(s: State, a: Action, n: nat)
    requires Accounted(s) && Enabled(s, a) && !ByOpener(a) && !a.Arrive?
    ensures Marked(Next(s, a), n, Lost) <==> Marked(s, n, Lost) || Loses(s, a, n)
  {
    assert IsPending(s, n) <==> Marked(s, n, Deferred);
    if a.HelloDeliver? {
      assert Carries(s, a.conn, n) <==> Marked(s, n, Taken(a.conn));
    }
  }

  /** In every interleaving a request gets lost by exactly these steps, and what is lost stays lost. */
  lemma LostExactlyWhen(s: State, a: Action, n: nat)
    requires Accounted(s) && Enabled(s, a)
    ensures Marked(Next(s, a), n, Lost) <==> Marked(s, n, Lost) || Loses(s, a, n)
  {
    if ByOpener(a) {
      OpenerLoses(s, a, n);
    } else if !a.Arrive? {
      OthersLose(s, a, n);
    }
  }

  // ----- Who holds the registration ---------------------------------------

  lemma RegistrationStep(s: State, a: Action, k: nat)
    requires Enabled(s, a) && k in Next(s, a).conns
    ensures k in s.conns || (a == Connect(k) && !Next(s, a).conns[k].isViewer)
    ensures k in s.conns ==> (Next(s, a).conns[k].isViewer <==> s.conns[k].isViewer || a == HelloRegister(k))
  {
    OthersLeaveConnections(s, a);
  }

  lemma ConnectionsStay(s: State, a: Action, k: nat)
    requires Enabled(s, a) && (k in s.conns || a == HelloRegister(k))
    ensures k in Next(s, a).conns
  {
    OthersLeaveConnections(s, a);
  }

  /** Over every run the connections taken for viewers are exactly those that registered. */
  lemma {:induction false} ViewersAreThoseThatRegistered(steps: seq<Action>, end: State, k: nat)
    requires Run(START, steps, end)
    ensures HelloRegister(k) in steps <==> k in end.conns && end.conns[k].isViewer
  {
    if steps != [] {
      var n := |steps| - 1;
      var mid :| Run(START, steps[..n], mid) && Enabled(mid, steps[n]) && end == Next(mid, steps[n]);
      assert steps == steps[..n] + [steps[n]];
      ViewersAreThoseThatRegistered(steps[..n], mid, k);
      if k in end.conns {
        RegistrationStep(mid, steps[n], k);
      }
      if k in mid.conns || steps[n] == HelloRegister(k) {
        ConnectionsStay(mid, steps[n], k);
      }
    }
  }

  /** The end of a connection clears the registration exactly if the connection ever registered, whoever holds it by
      then. */
  lemma DeregisteringMeans(steps: seq<Action>, end: State, k: nat)
    requires Run(START, steps, end) && Enabled(end, Deregister(k))
    ensures Next(end, Deregister(k)).viewer == if HelloRegister(k) in steps then None else end.viewer
  {
    ViewersAreThoseThatRegistered(steps, end, k);
  }

  // ----- A closed queue and a stopped handler -----------------------------

  predicate QueueClosed(s: State, k: nat) {
    k in s.conns && !s.conns[k].open
  }

  lemma ClosedStep(s: State, a: Action, k: nat)
    requires Enabled(s, a) && QueueClosed(s, k)
    ensures QueueClosed(Next(s, a), k)
  {
    OthersLeaveConnections(s, a);
  }

  /** What the step hands on does not go to connection `k`. */
  predicate HandsNothingTo(s: State, s1: State, k: nat) {
    && |s.handed| <= |s1.handed| && s1.handed[..|s.handed|] == s.handed
    && forall i :: |s.handed| <= i < |s1.handed| ==> s1.handed[i].1 != Ipc(k)
  }

  lemma OthersHandNothing(s: State, a: Action)
    requires Enabled(s, a) && !a.TrySend? && !a.Spawn? && !a.HelloDeliver?
    ensures Next(s, a).handed == s.handed
  {
  }

  lemma ClosedGetsNothing(s: State, a: Action, k: nat)
    requires Enabled(s, a) && QueueClosed(s, k)
    ensures HandsNothingTo(s, Next(s, a), k)
  {
    if !a.TrySend? && !a.Spawn? && !a.HelloDeliver? {
      OthersHandNothing(s, a);
    }
  }

  /** Once a connection's writer is gone, however the run goes on, no request is handed to it any more. */
  lemma {:induction false} NothingGoesToADeadWriter(s: State, k: nat, steps: seq<Action>, end: State)
    requires Enabled(s, WriterDies(k)) && Run(Next(s, WriterDies(k)), steps, end)
    ensures QueueClosed(end, k) && HandsNothingTo(s, end, k)
  {
    if steps != [] {
      var s0, n := Next(s, WriterDies(k)), |steps| - 1;
      var mid :| Run(s0, steps[..n], mid) && Enabled(mid, steps[n]) && end == Next(mid, steps[n]);
      NothingGoesToADeadWriter(s, k, steps[..n], mid);
      ClosedStep(mid, steps[n], k);
      ClosedGetsNothing(mid, steps[n], k);
    }
  }

  lemma StoppedStep(s: State, a: Action)
    requires Enabled(s, a) && s.opener.Stopped?
    ensures Next(s, a).opener.Stopped? && Next(s, a).nextChild == s.nextChild
  {
  }

  /** The open handler can stop between two requests, and once it has, no viewer is started any more. */
  lemma {:induction false} StoppedForGood(s: State, steps: seq<Action>, end: State)
    requires s.opener.Idle?
    ensures Enabled(s, StopOpener)
    ensures Run(Next(s, StopOpener), steps, end) ==> end.opener.Stopped? && end.nextChild == s.nextChild
  {
    if steps != [] && Run(Next(s, StopOpener), steps, end) {
      var s0, n := Next(s, StopOpener), |steps| - 1;
      var mid :| Run(s0, steps[..n], mid) && Enabled(mid, steps[n]) && end == Next(mid, steps[n]);
      StoppedForGood(s, steps[..n], mid);
      StoppedStep(mid, steps[n]);
    }
  }

  // ----- No actor gets stuck ----------------------------------------------

  predicate OfOpener(a: Action) {
    || a.TakeRequest? || a.TrySend? || a.CheckAlive? || a.Defer? || a.Spawn?
    || a.MarkAlive? || a.InstallKill? || a.StartReaper?
  }

  predicate OfReaper(a: Action, c: nat) {
    (a.ReaperWakes? || a.ClearAlive? || a.ClearViewer? || a.ClearPending? || a.ClearKill?) && a.child == c
  }

  predicate OfConnection(a: Action, k: nat) {
    && (a.HelloCheck? || a.HelloRefuse? || a.HelloRegister? || a.HelloAlive? || a.HelloTake? || a.HelloDeliver?
        || a.Disconnect? || a.Deregister?)
    && a.conn == k
  }

  /** The open handler waits only for a request, unless it was stopped. */
  lemma OpenerWaitsExactlyWhen(s: State)
    ensures (exists a :: OfOpener(a) && Enabled(s, a)) <==>
            !(s.opener.Stopped? || (s.opener.Idle? && s.queue == []))
  {
    assert OfOpener(TakeRequest) && OfOpener(TrySend) && OfOpener(CheckAlive) && OfOpener(Defer);
    assert OfOpener(Spawn(true)) && OfOpener(MarkAlive) && OfOpener(InstallKill) && OfOpener(StartReaper);
    match s.opener
    case Idle => assert s.queue != [] ==> Enabled(s, TakeRequest);
    case Sending(_) => assert Enabled(s, TrySend);
    case Checking(_) => assert Enabled(s, CheckAlive);
    case Deferring(_) => assert Enabled(s, Defer);
    case Spawning(_) => assert Enabled(s, Spawn(true));
    case MarkingAlive(_) => assert Enabled(s, MarkAlive);
    case InstallingKill(_) => assert Enabled(s, InstallKill);
    case StartingReaper(_) => assert Enabled(s, StartReaper);
    case Stopped =>
  }

  /** A reaper waits only for its child, until that ends or its kill channel goes. */
  lemma ReaperWaitsExactlyWhen(s: State, c: nat)
    requires c in s.reapers
    ensures (exists a :: OfReaper(a, c) && Enabled(s, a)) <==>
            !(s.reapers[c].Finished? || (s.reapers[c].Waiting? && c in s.live && c !in s.switched))
  {
    assert OfReaper(ReaperWakes(c), c) && OfReaper(ClearAlive(c), c) && OfReaper(ClearViewer(c), c);
    assert OfReaper(ClearPending(c), c) && OfReaper(ClearKill(c), c);
    match s.reapers[c]
    case Waiting => assert c !in s.live || c in s.switched ==> Enabled(s, ReaperWakes(c));
    case ClearingAlive => assert Enabled(s, ClearAlive(c));
    case ClearingViewer => assert Enabled(s, ClearViewer(c));
    case ClearingPending => assert Enabled(s, ClearPending(c));
    case ClearingKill => assert Enabled(s, ClearKill(c));
    case Finished =>
  }

  /** A connection always has a next step until it is gone, and its viewer may say hello or leave whenever it listens
      for messages. */
  lemma ConnectionWaitsExactlyWhen(s: State, k: nat)
    requires k in s.conns
    ensures (exists a :: OfConnection(a, k) && Enabled(s, a)) <==> !s.conns[k].step.Gone?
    ensures s.conns[k].step.Reading? ==> Enabled(s, HelloCheck(k)) && Enabled(s, Disconnect(k))
  {
    assert OfConnection(HelloCheck(k), k) && OfConnection(HelloRefuse(k), k) && OfConnection(HelloRegister(k), k);
    assert OfConnection(HelloAlive(k), k) && OfConnection(HelloTake(k), k) && OfConnection(HelloDeliver(k), k);
    assert OfConnection(Deregister(k), k);
    match s.conns[k].step
    case Reading => assert Enabled(s, HelloCheck(k));
    case Refusing => assert Enabled(s, HelloRefuse(k));
    case Registering => assert Enabled(s, HelloRegister(k));
    case Raising => assert Enabled(s, HelloAlive(k));
    case Taking => assert Enabled(s, HelloTake(k));
    case Delivering(_) => assert Enabled(s, HelloDeliver(k));
    case Leaving => assert Enabled(s, Deregister(k));
    case Gone =>
  }
}
