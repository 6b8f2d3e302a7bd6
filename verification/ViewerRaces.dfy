/** What the viewer protocol does not promise, each with a run that shows it. ViewerConditions says exactly when
    each of these can happen. */
module ViewerRaces {
  import opened Wrappers
  import opened ViewerProtocol
  import opened ViewerConditions

  /** `s` is reached by `steps`, and the daemon is not shutting down on the way. */
  ghost predicate Reached(steps: seq<Action>, s: State) {
    Run(START, steps, s) && NoShutdown(steps)
  }

  lemma Go(steps: seq<Action>, s: State, a: Action) returns (steps1: seq<Action>)
    requires Reached(steps, s) && Enabled(s, a) && !a.KillOnShutdown?
    ensures Reached(steps1, Next(s, a))
  {
    steps1 := steps + [a];
    assert steps1[..|steps|] == steps;
  }

  lemma Begin() returns (steps: seq<Action>)
    ensures Reached(steps, START)
  {
    steps := [];
  }

  // ----- A hello with no reaper to come leaves viewer_alive behind --------

  predicate AtRest(c: Conn) {
    c.step.Reading? || c.step.Refusing? || c.step.Leaving? || c.step.Gone?
  }

  /** The daemon believes in a viewer that nobody will ever declare gone. */
  ghost predicate Stuck(s: State) {
    Marooned(s) && s.viewer == None && forall k :: k in s.conns ==> AtRest(s.conns[k])
  }

  lemma StuckStep(s: State, a: Action)
    requires Stuck(s) && Enabled(s, a) && !a.HelloCheck?
    ensures Stuck(Next(s, a)) && Next(s, a).handed == s.handed && Next(s, a).live <= s.live
  {
    MaroonedStep(s, a);
  }

  /** From such a state on, and for as long as no viewer says hello of its own accord, no open request
      is ever handed on and no viewer is ever spawned: every request is deferred, over the last one. */
  lemma {:induction false} StuckForGood(s: State, steps: seq<Action>, end: State)
    requires Stuck(s) && Run(s, steps, end)
    requires forall i :: 0 <= i < |steps| ==> !steps[i].HelloCheck?
    ensures Stuck(end) && end.handed == s.handed && end.live <= s.live
    decreases |steps|
  {
    if steps != [] {
      var n := |steps| - 1;
      var mid :| Run(s, steps[..n], mid) && Enabled(mid, steps[n]) && end == Next(mid, steps[n]);
      StuckForGood(s, steps[..n], mid);
      StuckStep(mid, steps[n]);
    }
  }

  predicate OneConn(s: State, k: nat, c: Conn) {
    s.conns == map[k := c]
  }

  lemma ChecksHello(s: State, k: nat)
    requires OneConn(s, k, Conn(Reading, false, true)) && s.viewer == None
    ensures Enabled(s, HelloCheck(k)) && Next(s, HelloCheck(k)) == s.(conns := map[k := Conn(Registering, false, true)])
  {
    assert s.conns[k := Conn(Registering, false, true)] == map[k := Conn(Registering, false, true)];
  }

  lemma Registers(s: State, k: nat)
    requires OneConn(s, k, Conn(Registering, false, true))
    ensures Enabled(s, HelloRegister(k))
    ensures Next(s, HelloRegister(k)) == s.(viewer := Some(k), conns := map[k := Conn(Raising, true, true)])
  {
    assert s.conns[k := Conn(Raising, true, true)] == map[k := Conn(Raising, true, true)];
  }

  lemma RaisesAlive(s: State, k: nat)
    requires OneConn(s, k, Conn(Raising, true, true))
    ensures Enabled(s, HelloAlive(k))
    ensures Next(s, HelloAlive(k)) == s.(alive := true, conns := map[k := Conn(Taking, true, true)])
  {
    assert s.conns[k := Conn(Taking, true, true)] == map[k := Conn(Taking, true, true)];
  }

  lemma TakesNothing(s: State, k: nat)
    requires OneConn(s, k, Conn(Taking, true, true)) && s.pending == None
    ensures Enabled(s, HelloTake(k)) && Next(s, HelloTake(k)) == s.(conns := map[k := Conn(Reading, true, true)])
  {
    assert s.conns[k := Conn(Reading, true, true)] == map[k := Conn(Reading, true, true)];
  }

  lemma Closes(s: State, k: nat)
    requires OneConn(s, k, Conn(Reading, true, true))
    ensures Enabled(s, Disconnect(k)) && Next(s, Disconnect(k)) == s.(conns := map[k := Conn(Leaving, true, true)])
  {
    assert s.conns[k := Conn(Leaving, true, true)] == map[k := Conn(Leaving, true, true)];
  }

  lemma Deregisters(s: State, k: nat)
    requires OneConn(s, k, Conn(Leaving, true, true))
    ensures Enabled(s, Deregister(k))
    ensures Next(s, Deregister(k)) == s.(viewer := None, conns := map[k := Conn(Gone, true, true)])
  {
    assert s.conns[k := Conn(Gone, true, true)] == map[k := Conn(Gone, true, true)];
  }

  /** A connection to a daemon without a viewer says hello and is registered. */
  lemma SaysHello(steps: seq<Action>, s: State, k: nat) returns (steps1: seq<Action>, s1: State)
    requires Reached(steps, s) && OneConn(s, k, Conn(Reading, false, true)) && s.viewer == None
    ensures Reached(steps1, s1)
    ensures s1 == s.(viewer := Some(k), alive := true, conns := map[k := Conn(Taking, true, true)])
  {
    ChecksHello(s, k);
    steps1 := Go(steps, s, HelloCheck(k));
    s1 := Next(s, HelloCheck(k));
    Registers(s1, k);
    steps1 := Go(steps1, s1, HelloRegister(k));
    s1 := Next(s1, HelloRegister(k));
    RaisesAlive(s1, k);
    steps1 := Go(steps1, s1, HelloAlive(k));
    s1 := Next(s1, HelloAlive(k));
  }

  /** A registered viewer finds nothing deferred, and later closes. */
  lemma SaysGoodbye(steps: seq<Action>, s: State, k: nat) returns (steps1: seq<Action>, s1: State)
    requires Reached(steps, s) && OneConn(s, k, Conn(Taking, true, true)) && s.pending == None
    ensures Reached(steps1, s1)
    ensures s1 == s.(viewer := None, conns := map[k := Conn(Gone, true, true)])
  {
    TakesNothing(s, k);
    steps1 := Go(steps, s, HelloTake(k));
    s1 := Next(s, HelloTake(k));
    Closes(s1, k);
    steps1 := Go(steps1, s1, Disconnect(k));
    s1 := Next(s1, Disconnect(k));
    Deregisters(s1, k);
    steps1 := Go(steps1, s1, Deregister(k));
    s1 := Next(s1, Deregister(k));
  }

  /** It takes one viewer, started by hand, that is opened and closed again: no child, so no reaper. */
  lemma ByHandViewerLeavesDaemonStuck() returns (steps: seq<Action>, s: State)
    ensures Reached(steps, s) && Stuck(s)
    ensures s.live == {} && s.reapers == map[]
  {
    steps := Begin();
    var s0 := Next(START, Connect(1));
    steps := Go(steps, START, Connect(1));
    var s1;
    steps, s1 := SaysHello(steps, s0, 1);
    steps, s := SaysGoodbye(steps, s1, 1);
  }

  // ----- A spawned child --------------------------------------------------

  predicate Calm(s: State) {
    s.opener.Idle? && s.queue == [] && s.viewer == None
  }

  /** A request finds no viewer and comes as far as the look at viewer_alive. */
  lemma Asks(steps: seq<Action>, s: State) returns (steps1: seq<Action>, s1: State)
    requires Reached(steps, s) && Calm(s)
    ensures Reached(steps1, s1)
    ensures s1 == s.(opener := Checking(Ticket(s.nextNo, Show)), nextNo := s.nextNo + 1,
                     place := s.place[s.nextNo := Opening])
  {
    s1 := Next(s, Arrive(Show));
    steps1 := Go(steps, s, Arrive(Show));
    var t := Ticket(s.nextNo, Show);
    assert s1.queue == [t];
    var s2 := Next(s1, TakeRequest);
    steps1 := Go(steps1, s1, TakeRequest);
    assert s2 == s.(opener := Sending(t), nextNo := s.nextNo + 1, place := s.place[s.nextNo := Opening]);
    s1 := Next(s2, TrySend);
    steps1 := Go(steps1, s2, TrySend);
  }

  /** With viewer_alive clear it spawns a child and starts its reaper. */
  lemma Launches(steps: seq<Action>, s: State) returns (steps1: seq<Action>, s1: State)
    requires Reached(steps, s) && s.opener.Checking? && !s.alive
    ensures Reached(steps1, s1)
    ensures s1.opener.Idle? && s1.queue == s.queue && s1.viewer == s.viewer
    ensures s1.pending == s.pending && s1.conns == s.conns
    ensures s1.alive && s1.live == s.live + {s.nextChild} && s1.reapers == s.reapers[s.nextChild := Waiting]
    ensures s1.kill == Some(s.nextChild) && s1.switched == SwitchedOff(s) && s1.nextChild == s.nextChild + 1
  {
    var c := s.nextChild;
    var s2 := Next(s, CheckAlive);
    steps1 := Go(steps, s, CheckAlive);
    var s3 := Next(s2, Spawn(true));
    steps1 := Go(steps1, s2, Spawn(true));
    assert s3 == s.(opener := MarkingAlive(c), live := s.live + {c}, nextChild := c + 1, handed := s3.handed,
                    place := s3.place);
    var s4 := Next(s3, MarkAlive);
    steps1 := Go(steps1, s3, MarkAlive);
    var s5 := Next(s4, InstallKill);
    steps1 := Go(steps1, s4, InstallKill);
    s1 := Next(s5, StartReaper);
    steps1 := Go(steps1, s5, StartReaper);
  }

  /** One request, one child, its reaper waiting. */
  lemma FirstViewer() returns (steps: seq<Action>, s: State)
    ensures Reached(steps, s) && Calm(s) && s.live == {0} && s.reapers == map[0 := Waiting] && s.alive
    ensures s.kill == Some(0) && s.switched == {} && s.nextChild == 1 && s.conns == map[] && s.pending == None
  {
    steps := Begin();
    var s1;
    steps, s1 := Asks(steps, START);
    steps, s := Launches(steps, s1);
  }

  // ----- A deferred request can miss its viewer ---------------------------

  /** With viewer_alive set the request goes into the deferred slot. */
  lemma Defers(steps: seq<Action>, s: State) returns (steps1: seq<Action>, s1: State)
    requires Reached(steps, s) && s.opener.Checking? && s.alive
    ensures Reached(steps1, s1)
    ensures s1.pending == Some(s.opener.t) && s1.opener.Idle? && s1.viewer == s.viewer && s1.conns == s.conns
  {
    var s2 := Next(s, CheckAlive);
    steps1 := Go(steps, s, CheckAlive);
    s1 := Next(s2, Defer);
    steps1 := Go(steps1, s2, Defer);
  }

  /** At lock granularity a request can end up deferred although a listening viewer is registered: the open handler
      looks for the viewer before it registers and stores the request after the hello looked into the slot. */
  lemma DeferralCanMissTheHello() returns (steps: seq<Action>, s: State)
    ensures Reached(steps, s)
    ensures s.pending.Some? && ViewerListens(s) && s.opener.Idle? && AtRest(s.conns[s.viewer.value])
  {
    var s0, s1, s2;
    steps, s0 := FirstViewer();
    s1 := Next(s0, Connect(7));
    steps := Go(steps, s0, Connect(7));
    steps, s2 := Asks(steps, s1);
    steps, s1 := SaysHello(steps, s2, 7);
    TakesNothing(s1, 7);
    steps := Go(steps, s1, HelloTake(7));
    steps, s := Defers(steps, Next(s1, HelloTake(7)));
  }

  // ----- A reaper can cut off the next viewer -----------------------------

  /** The child exits; its reaper has cleared viewer_alive and nothing else yet. */
  lemma HalfReaped() returns (steps: seq<Action>, s: State)
    ensures Reached(steps, s) && Calm(s) && s.live == {} && s.reapers == map[0 := ClearingViewer] && !s.alive
    ensures s.switched == {} && s.nextChild == 1 && s.conns == map[]
  {
    var s0, s1;
    steps, s0 := FirstViewer();
    s1 := Next(s0, ChildExits(0));
    steps := Go(steps, s0, ChildExits(0));
    s0 := Next(s1, ReaperWakes(0));
    steps := Go(steps, s1, ReaperWakes(0));
    s := Next(s0, ClearAlive(0));
    steps := Go(steps, s0, ClearAlive(0));
  }

  /** The reaper goes on clearing what is by now the next viewer's. */
  lemma ClearsTheRest(steps: seq<Action>, s: State) returns (steps1: seq<Action>, s1: State)
    requires Reached(steps, s) && 0 in s.reapers && s.reapers[0].ClearingViewer?
    ensures Reached(steps1, s1)
    ensures s1.live == s.live && s1.switched == SwitchedOff(s) && s1.reapers == s.reapers[0 := Finished]
    ensures s1.viewer == None && s1.pending == None && s1.conns == s.conns && s1.opener == s.opener
  {
    var s2 := Next(s, ClearViewer(0));
    steps1 := Go(steps, s, ClearViewer(0));
    var s3 := Next(s2, ClearPending(0));
    steps1 := Go(steps1, s2, ClearPending(0));
    assert s3.kill == s.kill && s3.switched == s.switched;
    s1 := Next(s3, ClearKill(0));
    steps1 := Go(steps1, s3, ClearKill(0));
  }

  /** Nor does it take a viewer started by hand: the daemon's own child that ends right after its hello, which is
      read only when the reaper has finished, does the same. */
  lemma LateHelloLeavesDaemonStuck() returns (steps: seq<Action>, s: State)
    ensures Reached(steps, s) && Stuck(s) && s.reapers == map[0 := Finished]
  {
    var s0, s1;
    steps, s0 := HalfReaped();
    steps, s1 := ClearsTheRest(steps, s0);
    s0 := Next(s1, Connect(7));
    steps := Go(steps, s1, Connect(7));
    steps, s1 := SaysHello(steps, s0, 7);
    steps, s := SaysGoodbye(steps, s1, 7);
  }

  /** Between two clearings of the old reaper the open handler may spawn again; the reaper then drops
      the new child's kill sender, which the new reaper takes for the order to terminate it: a live
      viewer is switched off though the daemon is not shutting down. */
  lemma OldReaperSwitchesOffNewViewer() returns (steps: seq<Action>, s: State)
    ensures Reached(steps, s)
    ensures 1 in s.live && 1 in s.switched && Enabled(s, ReaperWakes(1))
    ensures 1 !in Next(s, ReaperWakes(1)).live
  {
    var s0, s1;
    steps, s0 := HalfReaped();
    steps, s1 := Asks(steps, s0);
    steps, s0 := Launches(steps, s1);
    steps, s := ClearsTheRest(steps, s0);
  }
}
