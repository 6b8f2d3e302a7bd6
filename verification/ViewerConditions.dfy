/** When the viewer protocol keeps what it does not always keep: for each promise that ViewerRaces breaks, the
    step that decides, and over which runs the promise holds. */
module ViewerConditions {
  import opened Wrappers
  import opened ViewerProtocol

  /** A run with the states it goes through. */
  ghost predicate Trace(states: seq<State>, steps: seq<Action>) {
    && |states| == |steps| + 1 && states[0] == START
    && forall i :: 0 <= i < |steps| ==> Enabled(states[i], steps[i]) && states[i + 1] == Next(states[i], steps[i])
  }

  lemma {:induction false} TraceIsRun(states: seq<State>, steps: seq<Action>, i: nat)
    requires Trace(states, steps) && i <= |steps|
    ensures Run(START, steps[..i], states[i])
  {
    if i > 0 {
      TraceIsRun(states, steps, i - 1);
      var before := OneMore(START, steps[..i - 1], states[i - 1], steps[i - 1]);
      assert before == steps[..i];
    }
  }

  // ----- viewer_alive -----------------------------------------------------

  predicate HandFull(s: State) {
    s.opener.MarkingAlive? || s.opener.InstallingKill? || s.opener.StartingReaper?
  }

  /** Somebody is there to clear viewer_alive: a reaper that has not done so, or a child about to get one. */
  predicate Guarded(s: State) {
    HandFull(s) || !NoUncleared(s)
  }

  lemma StepKeepsGuarded(s: State, a: Action)
    requires Enabled(s, a) && (s.alive ==> Guarded(s)) && (a.HelloAlive? ==> Guarded(s))
    ensures Next(s, a).alive ==> Guarded(Next(s, a))
  {
    var s1 := Next(s, a);
    if a.StartReaper? {
      assert Uncleared(s1, s.opener.child);
    } else if !HandFull(s) && !NoUncleared(s) && !a.ClearAlive? {
      var c :| c in s.reapers && Uncleared(s, c);
      assert Uncleared(s1, c);
    }
  }

  lemma {:induction false} GuardedUpTo(states: seq<State>, steps: seq<Action>, i: nat)
    requires Trace(states, steps) && i <= |steps|
    requires forall j :: 0 <= j < |steps| && steps[j].HelloAlive? ==> Guarded(states[j])
    ensures states[i].alive ==> Guarded(states[i])
  {
    if i > 0 {
      GuardedUpTo(states, steps, i - 1);
      StepKeepsGuarded(states[i - 1], steps[i - 1]);
    }
  }

  /** Over every run: viewer_alive is never set with nobody left to clear it, if and only if every hello sets it
      while a spawned child is in hand or has a reaper that has not cleared it yet. */
  lemma FlagIsTrueExactlyWhen(states: seq<State>, steps: seq<Action>)
    requires Trace(states, steps)
    ensures (forall i :: 0 <= i < |states| ==> (states[i].alive ==> Guarded(states[i]))) <==>
            (forall i :: 0 <= i < |steps| && steps[i].HelloAlive? ==> Guarded(states[i]))
  {
    if forall i :: 0 <= i < |steps| && steps[i].HelloAlive? ==> Guarded(states[i]) {
      forall i | 0 <= i < |states|
        ensures states[i].alive ==> Guarded(states[i])
      {
        GuardedUpTo(states, steps, i);
      }
    } else {
      var i :| 0 <= i < |steps| && steps[i].HelloAlive? && !Guarded(states[i]);
      assert states[i + 1].reapers == states[i].reapers && states[i + 1].opener == states[i].opener;
      assert forall c: nat :: Uncleared(states[i + 1], c) == Uncleared(states[i], c);
      assert states[i + 1].alive && !Guarded(states[i + 1]);
    }
  }

  /** The flag is set, nobody is there to clear it, and the open handler has not decided to spawn. */
  predicate Marooned(s: State) {
    s.alive && !Guarded(s) && !s.opener.Spawning?
  }

  lemma UnguardedStep(s: State, a: Action)
    requires s.alive && !Guarded(s) && Enabled(s, a) && a != Spawn(true)
    ensures Next(s, a).alive && !Guarded(Next(s, a)) && Next(s, a).nextChild == s.nextChild
  {
    assert forall c: nat :: !Uncleared(s, c);
    assert forall c: nat :: !Uncleared(Next(s, a), c);
  }

  lemma MaroonedStep(s: State, a: Action)
    requires Marooned(s) && Enabled(s, a)
    ensures Marooned(Next(s, a)) && Next(s, a).nextChild == s.nextChild
  {
    UnguardedStep(s, a);
  }

  /** From there the flag is never cleared and no viewer is ever spawned again, whoever says hello. */
  lemma {:induction false} MaroonedForGood(s: State, steps: seq<Action>, end: State)
    requires Marooned(s) && Run(s, steps, end)
    ensures Marooned(end) && end.nextChild == s.nextChild
    decreases |steps|
  {
    if steps != [] {
      var n := |steps| - 1;
      var mid :| Run(s, steps[..n], mid) && Enabled(mid, steps[n]) && end == Next(mid, steps[n]);
      MaroonedForGood(s, steps[..n], mid);
      MaroonedStep(mid, steps[n]);
    }
  }

  /** Even with a spawn under way, only one that succeeds brings somebody to clear the flag. */
  lemma {:induction false} UnguardedForGood(s: State, steps: seq<Action>, end: State)
    requires s.alive && !Guarded(s) && Run(s, steps, end)
    requires forall i :: 0 <= i < |steps| ==> steps[i] != Spawn(true)
    ensures end.alive && !Guarded(end)
    decreases |steps|
  {
    if steps != [] {
      var n := |steps| - 1;
      var mid :| Run(s, steps[..n], mid) && Enabled(mid, steps[n]) && end == Next(mid, steps[n]);
      UnguardedForGood(s, steps[..n], mid);
      UnguardedStep(mid, steps[n]);
    }
  }

  lemma ReaperComesToClear(s0: State, steps: seq<Action>, s: State, c: nat) returns (steps1: seq<Action>, s1: State)
    requires Run(s0, steps, s) && Uncleared(s, c)
    ensures Run(s0, steps1, s1) && c in s1.reapers && s1.reapers[c].ClearingAlive?
  {
    steps1, s1 := steps, s;
    if s1.reapers[c].Waiting? && c in s1.live {
      steps1 := OneMore(s0, steps1, s1, ChildExits(c));
      s1 := Next(s1, ChildExits(c));
    }
    if s1.reapers[c].Waiting? {
      steps1 := OneMore(s0, steps1, s1, ReaperWakes(c));
      s1 := Next(s1, ReaperWakes(c));
    }
  }

  /** A waiting or clearing reaper can always come to clear the flag. */
  lemma ReaperClears(s0: State, steps: seq<Action>, s: State, c: nat) returns (steps1: seq<Action>, s1: State)
    requires Run(s0, steps, s) && Uncleared(s, c)
    ensures Run(s0, steps1, s1) && !s1.alive
  {
    steps1, s1 := ReaperComesToClear(s0, steps, s, c);
    steps1 := OneMore(s0, steps1, s1, ClearAlive(c));
    s1 := Next(s1, ClearAlive(c));
  }

  /** A child in hand gets its reaper. */
  lemma HandEmpties(s0: State, steps: seq<Action>, s: State) returns (steps1: seq<Action>, s1: State)
    requires Run(s0, steps, s) && HandFull(s)
    ensures Run(s0, steps1, s1) && Uncleared(s1, s.opener.child)
  {
    var c := s.opener.child;
    steps1, s1 := steps, s;
    if s1.opener.MarkingAlive? {
      steps1 := OneMore(s0, steps1, s1, MarkAlive);
      s1 := Next(s1, MarkAlive);
    }
    if s1.opener.InstallingKill? {
      steps1 := OneMore(s0, steps1, s1, InstallKill);
      s1 := Next(s1, InstallKill);
    }
    steps1 := OneMore(s0, steps1, s1, StartReaper);
    s1 := Next(s1, StartReaper);
  }

  ghost predicate CanBeCleared(s: State) {
    exists steps, end :: Run(s, steps, end) && !end.alive
  }

  lemma SomeRunClears(s: State)
    requires s.alive && (Guarded(s) || s.opener.Spawning?)
    ensures CanBeCleared(s)
  {
    var steps, end := [], s;
    if NoUncleared(s) {
      if s.opener.Spawning? {
        steps := OneMore(s, steps, end, Spawn(true));
        end := Next(end, Spawn(true));
      }
      var c := end.opener.child;
      steps, end := HandEmpties(s, steps, end);
      steps, end := ReaperClears(s, steps, end, c);
    } else {
      var c :| c in s.reapers && Uncleared(s, c);
      steps, end := ReaperClears(s, steps, end, c);
    }
  }

  lemma MaroonedCannotClear(s: State)
    requires Marooned(s)
    ensures !CanBeCleared(s)
  {
    if steps, end :| Run(s, steps, end) && !end.alive {
      MaroonedForGood(s, steps, end);
    }
  }

  /** In any state with the flag set, some continuation clears it if and only if a reaper or a child in hand is
      there to do it, or the open handler is about to spawn one. */
  lemma FlagCanBeClearedExactlyWhen(s: State)
    requires s.alive
    ensures CanBeCleared(s) <==> Guarded(s) || s.opener.Spawning?
  {
    if Guarded(s) || s.opener.Spawning? {
      SomeRunClears(s);
    } else {
      MaroonedCannotClear(s);
    }
  }

  // ----- Live children and the kill switch --------------------------------

  predicate NoShutdown(steps: seq<Action>) {
    forall i :: 0 <= i < |steps| ==> !steps[i].KillOnShutdown?
  }

  predicate AllFinished(s: State) {
    forall c :: c in s.reapers ==> s.reapers[c].Finished?
  }

  predicate Alone(s: State, d: nat) {
    forall c :: c in s.reapers && c != d ==> s.reapers[c].Finished?
  }

  /** Child `d` is spawned and its kill switch not yet installed. */
  predicate Unarmed(s: State, d: nat) {
    (s.opener.MarkingAlive? || s.opener.InstallingKill?) && s.opener.child == d
  }

  ghost predicate KillFresh(s: State) {
    && (forall c :: c in s.switched ==> c < s.nextChild)
    && (s.kill.Some? ==> s.kill.value < s.nextChild)
    && (forall c: nat :: Unarmed(s, c) ==> c !in s.switched && s.kill != Some(c))
  }

  lemma UnarmedIsFresh(s: State, a: Action, c: nat)
    requires ChildInv(s) && KillFresh(s) && Enabled(s, a) && Unarmed(Next(s, a), c)
    ensures c !in Next(s, a).switched && Next(s, a).kill != Some(c)
  {
    assert Unarmed(s, c) || (a.Spawn? && c == s.nextChild);
  }

  lemma StepKeepsKillFresh(s: State, a: Action)
    requires ChildInv(s) && KillFresh(s) && Enabled(s, a)
    ensures KillFresh(Next(s, a))
  {
    assert HandFull(s) ==> InHand(s, s.opener.child);
    forall c: nat | Unarmed(Next(s, a), c)
      ensures c !in Next(s, a).switched && Next(s, a).kill != Some(c)
    {
      UnarmedIsFresh(s, a, c);
    }
  }

  /** As long as `d` runs its switch has not fired, and once armed no other reaper is at work. */
  predicate Own(s: State, d: nat) {
    d in s.live ==> d !in s.switched && (Unarmed(s, d) || Alone(s, d))
  }

  lemma LiveChildOwnsHand(s: State, d: nat)
    requires ChildInv(s) && d in s.live
    ensures HandFull(s) ==> s.opener.child == d
    ensures d in s.reapers ==> s.reapers[d].Waiting?
  {
    if HandFull(s) {
      assert InHand(s, s.opener.child);
    }
    assert InHand(s, d) ==> d !in s.reapers;
  }

  /** With `d` alone, or not armed yet, no step drops its kill sender. */
  lemma SwitchStaysOn(s: State, a: Action, d: nat)
    requires ChildInv(s) && KillFresh(s) && Own(s, d) && Enabled(s, a) && !a.KillOnShutdown?
    requires d in s.live
    ensures d !in Next(s, a).switched
  {
    LiveChildOwnsHand(s, d);
    if a.InstallKill? {
      assert Unarmed(s, d);
    } else if a.ClearKill? {
      assert Alone(s, d) ==> a.child == d;
    }
  }

  lemma StepKeepsOwn(s: State, a: Action, d: nat)
    requires ChildInv(s) && KillFresh(s) && Own(s, d) && Enabled(s, a) && !a.KillOnShutdown?
    requires a.InstallKill? && s.opener.child == d ==> AllFinished(s)
    ensures Own(Next(s, a), d)
  {
    var s1 := Next(s, a);
    if d in s1.live {
      if d in s.live {
        SwitchStaysOn(s, a, d);
        LiveChildOwnsHand(s, d);
        assert Unarmed(s, d) ==> Unarmed(s1, d) || a.InstallKill?;
      } else {
        assert a.Spawn? && d == s.nextChild && d !in s.switched;
      }
    }
  }

  /** Every kill switch is installed when all reapers of earlier children have finished. */
  predicate InstallsClean(states: seq<State>, steps: seq<Action>) {
    forall i :: 0 <= i < |steps| && i < |states| && steps[i].InstallKill? ==> AllFinished(states[i])
  }

  lemma {:induction false} OwnUpTo(states: seq<State>, steps: seq<Action>, i: nat, d: nat)
    requires Trace(states, steps) && NoShutdown(steps) && InstallsClean(states, steps) && i <= |steps|
    ensures KillFresh(states[i]) && Own(states[i], d)
  {
    if i > 0 {
      OwnUpTo(states, steps, i - 1, d);
      TraceIsRun(states, steps, i - 1);
      RunKeepsChildInv(START, steps[..i - 1], states[i - 1]);
      StepKeepsKillFresh(states[i - 1], steps[i - 1]);
      StepKeepsOwn(states[i - 1], steps[i - 1], d);
    }
  }

  /** Over every run without shutdown in which each kill switch is installed after all earlier reapers have
      finished, no running child is ever switched off. */
  lemma CleanInstallsSpareChildren(states: seq<State>, steps: seq<Action>)
    requires Trace(states, steps) && NoShutdown(steps) && InstallsClean(states, steps)
    ensures forall i, c :: 0 <= i < |states| && c in states[i].live ==> c !in states[i].switched
  {
    forall i, c | 0 <= i < |states| && c in states[i].live
      ensures c !in states[i].switched
    {
      OwnUpTo(states, steps, i, c);
    }
  }

  /** Child `d` was installed, or is about to be, with all earlier reapers finished. */
  ghost predicate Safe(s: State, d: nat) {
    ChildInv(s) && KillFresh(s) && Own(s, d) && d < s.nextChild && (Unarmed(s, d) ==> AllFinished(s))
  }

  lemma {:induction false} RunKeepsSafe(s: State, steps: seq<Action>, end: State, d: nat)
    requires Safe(s, d) && Run(s, steps, end) && NoShutdown(steps)
    ensures Safe(end, d)
    decreases |steps|
  {
    if steps != [] {
      var n := |steps| - 1;
      var mid :| Run(s, steps[..n], mid) && Enabled(mid, steps[n]) && end == Next(mid, steps[n]);
      RunKeepsSafe(s, steps[..n], mid, d);
      StepKeepsChildInv(mid, steps[n]);
      StepKeepsKillFresh(mid, steps[n]);
      StepKeepsOwn(mid, steps[n], d);
      UnarmedStep(mid, steps[n], d);
    }
  }

  lemma UnarmedStep(s: State, a: Action, d: nat)
    requires Enabled(s, a) && d < s.nextChild && (Unarmed(s, d) ==> AllFinished(s))
    ensures d < Next(s, a).nextChild && (Unarmed(Next(s, a), d) ==> AllFinished(Next(s, a)))
  {
    if Unarmed(Next(s, a), d) {
      assert Unarmed(s, d);
    }
  }

  lemma {:induction false} RunKeepsKillFresh(steps: seq<Action>, end: State)
    requires Run(START, steps, end)
    ensures ChildInv(end) && KillFresh(end)
    decreases |steps|
  {
    RunKeepsChildInv(START, steps, end);
    if steps != [] {
      var n := |steps| - 1;
      var mid :| Run(START, steps[..n], mid) && Enabled(mid, steps[n]) && end == Next(mid, steps[n]);
      RunKeepsKillFresh(steps[..n], mid);
      StepKeepsKillFresh(mid, steps[n]);
    }
  }

  lemma ClearsViewer(s0: State, steps: seq<Action>, s: State, c: nat) returns (steps1: seq<Action>, s1: State)
    requires Run(s0, steps, s) && NoShutdown(steps) && c in s.reapers && s.reapers[c].ClearingViewer?
    ensures Run(s0, steps1, s1) && NoShutdown(steps1) && c in s1.reapers && s1.reapers[c].ClearingPending?
    ensures s1.live == s.live && s1.kill == s.kill && s1.switched == s.switched
  {
    steps1 := OneMore(s0, steps, s, ClearViewer(c));
    s1 := Next(s, ClearViewer(c));
  }

  /** A reaper still at its clearings goes on to clear the kill slot. */
  lemma ReaperReachesKill(s0: State, steps: seq<Action>, s: State, c: nat) returns (steps1: seq<Action>, s1: State)
    requires Run(s0, steps, s) && NoShutdown(steps)
    requires c in s.reapers && !s.reapers[c].Finished? && !Uncleared(s, c)
    ensures Run(s0, steps1, s1) && NoShutdown(steps1) && c in s1.reapers && s1.reapers[c].ClearingKill?
    ensures s1.live == s.live && s1.kill == s.kill && s1.switched == s.switched
  {
    steps1, s1 := steps, s;
    if s1.reapers[c].ClearingViewer? {
      steps1, s1 := ClearsViewer(s0, steps1, s1, c);
    }
    if s1.reapers[c].ClearingPending? {
      var s2 := s1;
      steps1 := OneMore(s0, steps1, s2, ClearPending(c));
      s1 := Next(s2, ClearPending(c));
    }
  }

  /** Some continuation without shutdown switches `d` off while it runs. */
  ghost predicate CanBeSwitchedOff(s: State, d: nat) {
    exists steps, end :: Run(s, steps, end) && NoShutdown(steps) && d in end.live && d in end.switched
  }

  lemma InstallArms(s: State, d: nat)
    requires ChildInv(s) && s.opener == InstallingKill(d) && d in s.live
    ensures var s1 := Next(s, InstallKill); s1.kill == Some(d) && s1.live == s.live && s1.reapers == s.reapers
    ensures NoUncleared(s)
  {
    assert InHand(s, d);
  }

  lemma SomeRunSwitchesOff(s: State, d: nat, c: nat)
    requires ChildInv(s) && s.opener == InstallingKill(d) && d in s.live
    requires c in s.reapers && !s.reapers[c].Finished?
    ensures CanBeSwitchedOff(s, d)
  {
    InstallArms(s, d);
    var steps := OneMore(s, [], s, InstallKill);
    var end := Next(s, InstallKill);
    assert !Uncleared(s, c) && !Uncleared(end, c);
    steps, end := ReaperReachesKill(s, steps, end, c);
    steps := OneMore(s, steps, end, ClearKill(c));
    end := Next(end, ClearKill(c));
  }

  lemma SafeIsNotSwitchedOff(s: State, d: nat)
    requires Safe(s, d)
    ensures !CanBeSwitchedOff(s, d)
  {
    if steps, end :| Run(s, steps, end) && NoShutdown(steps) && d in end.live && d in end.switched {
      RunKeepsSafe(s, steps, end, d);
    }
  }

  /** In every reachable state in which a running child's kill switch is about to be installed: the child can be
      switched off while the daemon is not shutting down, if and only if some earlier reaper has not finished. */
  lemma SwitchOffPossibleExactlyWhen(before: seq<Action>, s: State, d: nat)
    requires Run(START, before, s) && s.opener == InstallingKill(d) && d in s.live
    ensures CanBeSwitchedOff(s, d) <==> !AllFinished(s)
  {
    RunKeepsKillFresh(before, s);
    if AllFinished(s) {
      assert InHand(s, d) && Unarmed(s, d);
      SafeIsNotSwitchedOff(s, d);
    } else {
      var c :| c in s.reapers && !s.reapers[c].Finished?;
      SomeRunSwitchesOff(s, d, c);
    }
  }

  // ----- Shutdown ---------------------------------------------------------

  /** An armed child's switch is in the kill slot unless it has fired. */
  predicate Tracked(s: State, d: nat) {
    d in s.live && !Unarmed(s, d) ==> d in s.switched || s.kill == Some(d)
  }

  lemma KillSlotStep(s: State, a: Action, d: nat)
    requires Enabled(s, a) && s.kill == Some(d)
    ensures d in Next(s, a).switched || Next(s, a).kill == Some(d)
  {
  }

  lemma StepKeepsTracked(s: State, a: Action, d: nat)
    requires ChildInv(s) && Tracked(s, d) && Enabled(s, a)
    ensures Tracked(Next(s, a), d)
  {
    if d in s.live {
      LiveChildOwnsHand(s, d);
      if s.kill == Some(d) {
        KillSlotStep(s, a, d);
      }
    }
  }

  lemma {:induction false} RunKeepsTracked(steps: seq<Action>, end: State, d: nat)
    requires Run(START, steps, end)
    ensures Tracked(end, d)
    decreases |steps|
  {
    if steps != [] {
      var n := |steps| - 1;
      var mid :| Run(START, steps[..n], mid) && Enabled(mid, steps[n]) && end == Next(mid, steps[n]);
      RunKeepsTracked(steps[..n], mid, d);
      RunKeepsChildInv(START, steps[..n], mid);
      StepKeepsTracked(mid, steps[n], d);
    }
  }

  /** In every reachable state: shutdown switches a running child off, or finds it switched off, if and only if its
      kill switch is installed; between the spawn and the installation it misses the child. */
  lemma ShutdownReachesChildExactlyWhen(before: seq<Action>, s: State, d: nat)
    requires Run(START, before, s) && d in s.live
    ensures d in Next(s, KillOnShutdown).switched <==> !Unarmed(s, d)
  {
    RunKeepsKillFresh(before, s);
    RunKeepsTracked(before, s, d);
  }

  predicate InstallsAt(states: seq<State>, steps: seq<Action>, a: nat, d: nat) {
    a < |steps| < |states| && steps[a].InstallKill? && states[a].opener == InstallingKill(d)
  }

  predicate Installed(states: seq<State>, steps: seq<Action>, n: nat, d: nat) {
    exists a :: 0 <= a < n && InstallsAt(states, steps, a, d)
  }

  /** A shutdown came after the child's kill switch was installed. */
  predicate ShutAfter(states: seq<State>, steps: seq<Action>, n: nat, d: nat) {
    exists a, b :: 0 <= a < b < n && b < |steps| && InstallsAt(states, steps, a, d) && steps[b].KillOnShutdown?
  }

  lemma InstalledMore(states: seq<State>, steps: seq<Action>, n: nat, d: nat)
    requires n < |steps| < |states|
    ensures Installed(states, steps, n + 1, d) <==> Installed(states, steps, n, d) || InstallsAt(states, steps, n, d)
    ensures ShutAfter(states, steps, n + 1, d) <==>
            ShutAfter(states, steps, n, d) || (Installed(states, steps, n, d) && steps[n].KillOnShutdown?)
  {
    if ShutAfter(states, steps, n + 1, d) {
      var a, b :| 0 <= a < b < n + 1 && b < |steps| && InstallsAt(states, steps, a, d) && steps[b].KillOnShutdown?;
      assert b < n || b == n;
    }
    if Installed(states, steps, n, d) && steps[n].KillOnShutdown? {
      var a :| 0 <= a < n && InstallsAt(states, steps, a, d);
      assert InstallsAt(states, steps, a, d);
    }
  }

  /** What is so of a child after `n` steps. */
  ghost predicate Recorded(states: seq<State>, steps: seq<Action>, n: nat, d: nat) {
    n <= |steps| < |states| &&
    var s := states[n];
    && ChildInv(s) && KillFresh(s) && Tracked(s, d)
    && (Installed(states, steps, n, d) ==> d < s.nextChild)
    && (d in s.live ==>
          && (Installed(states, steps, n, d) <==> !Unarmed(s, d))
          && (Unarmed(s, d) || Alone(s, d))
          && (d in s.switched <==> ShutAfter(states, steps, n, d)))
  }

  lemma SwitchedStep(s: State, a: Action, d: nat)
    requires ChildInv(s) && KillFresh(s) && Tracked(s, d) && Enabled(s, a)
    requires d in s.live && d in Next(s, a).live && (Unarmed(s, d) || Alone(s, d))
    ensures d in Next(s, a).switched <==> d in s.switched || (a.KillOnShutdown? && !Unarmed(s, d))
  {
    if d !in s.switched && !a.KillOnShutdown? {
      SwitchStaysOn(s, a, d);
    }
  }

  lemma ArmedStep(s: State, a: Action, d: nat)
    requires ChildInv(s) && Enabled(s, a) && d in s.live && d in Next(s, a).live
    ensures Unarmed(Next(s, a), d) <==> Unarmed(s, d) && !a.InstallKill?
  {
    LiveChildOwnsHand(s, d);
  }

  lemma AloneStep(s: State, a: Action, d: nat)
    requires ChildInv(s) && Enabled(s, a) && d in s.live && d in Next(s, a).live && (Unarmed(s, d) || Alone(s, d))
    requires a.InstallKill? ==> AllFinished(s)
    ensures Unarmed(Next(s, a), d) || Alone(Next(s, a), d)
  {
    LiveChildOwnsHand(s, d);
    ArmedStep(s, a, d);
  }

  lemma RecordedStep(states: seq<State>, steps: seq<Action>, n: nat, d: nat)
    requires Trace(states, steps) && InstallsClean(states, steps) && n < |steps| && Recorded(states, steps, n, d)
    ensures Recorded(states, steps, n + 1, d)
  {
    var s, a, s1 := states[n], steps[n], states[n + 1];
    StepKeepsChildInv(s, a);
    StepKeepsKillFresh(s, a);
    StepKeepsTracked(s, a, d);
    InstalledMore(states, steps, n, d);
    assert InstallsAt(states, steps, n, d) ==> InHand(s, d);
    if d in s1.live && d in s.live {
      LiveChildOwnsHand(s, d);
      SwitchedStep(s, a, d);
      ArmedStep(s, a, d);
      AloneStep(s, a, d);
    } else if d in s1.live {
      NewChild(states, steps, n, d);
    }
  }

  lemma SpawnStep(s: State, a: Action, d: nat)
    requires KillFresh(s) && Enabled(s, a) && d !in s.live && d in Next(s, a).live
    ensures a.Spawn? && d == s.nextChild && Unarmed(Next(s, a), d) && d !in Next(s, a).switched
  {
  }

  lemma NewChild(states: seq<State>, steps: seq<Action>, n: nat, d: nat)
    requires Trace(states, steps) && n < |steps| && Recorded(states, steps, n, d)
    requires d !in states[n].live && d in states[n + 1].live
    ensures steps[n].Spawn? && Unarmed(states[n + 1], d) && d !in states[n + 1].switched
    ensures !Installed(states, steps, n, d) && !ShutAfter(states, steps, n, d)
  {
    SpawnStep(states[n], steps[n], d);
    assert ShutAfter(states, steps, n, d) ==> Installed(states, steps, n, d);
  }

  lemma {:induction false} RecordedUpTo(states: seq<State>, steps: seq<Action>, n: nat, d: nat)
    requires Trace(states, steps) && InstallsClean(states, steps) && n <= |steps|
    ensures Recorded(states, steps, n, d)
  {
    if n > 0 {
      RecordedUpTo(states, steps, n - 1, d);
      RecordedStep(states, steps, n - 1, d);
    }
  }

  /** Over every run in which each kill switch is installed after all earlier reapers finished: a running child is
      switched off if and only if the daemon shut down after the child's own switch was installed. */
  lemma SwitchedOffExactlyByShutdown(states: seq<State>, steps: seq<Action>, n: nat, d: nat)
    requires Trace(states, steps) && InstallsClean(states, steps) && n <= |steps| && d in states[n].live
    ensures d in states[n].switched <==> ShutAfter(states, steps, n, d)
  {
    RecordedUpTo(states, steps, n, d);
  }

  // ----- Deferred requests and the hello ----------------------------------

  /** The open handler has found no listening viewer and may still defer its request. */
  predicate Looking(s: State) {
    s.opener.Checking? || s.opener.Deferring?
  }

  /** A request waits although a listening viewer is registered and has already looked for it. */
  predicate Missed(s: State) {
    && s.pending.Some? && ViewerListens(s)
    && !s.conns[s.viewer.value].step.Raising? && !s.conns[s.viewer.value].step.Taking?
  }

  predicate Attentive(s: State) {
    !Missed(s) && (Looking(s) ==> !ViewerListens(s)) && (s.viewer.Some? ==> s.viewer.value in s.conns)
  }

  lemma ViewerStep(s: State, a: Action)
    requires Enabled(s, a) && !a.HelloRegister? && Next(s, a).viewer.Some?
    ensures s.viewer == Next(s, a).viewer
  {
  }

  predicate ByConnection(a: Action) {
    || a.Connect? || a.HelloCheck? || a.HelloRefuse? || a.HelloRegister? || a.HelloAlive? || a.HelloTake?
    || a.HelloDeliver? || a.Disconnect? || a.Deregister? || a.WriterDies?
  }

  lemma OthersLeaveConnections(s: State, a: Action)
    requires Enabled(s, a) && !ByConnection(a)
    ensures Next(s, a).conns == s.conns
  {
  }

  lemma QueueStep(s: State, a: Action, k: nat)
    requires Enabled(s, a) && k in s.conns && k in Next(s, a).conns && Next(s, a).conns[k].open
    ensures s.conns[k].open
  {
    if !ByConnection(a) {
      OthersLeaveConnections(s, a);
    }
  }

  /** A registered viewer comes to listen only by registering. */
  lemma ListeningStep(s: State, a: Action)
    requires Attentive(s) && Enabled(s, a) && ViewerListens(Next(s, a)) && !a.HelloRegister?
    ensures ViewerListens(s) && s.viewer == Next(s, a).viewer
  {
    ViewerStep(s, a);
    QueueStep(s, a, s.viewer.value);
  }

  lemma LookingStep(s: State, a: Action)
    requires Attentive(s) && Enabled(s, a) && Looking(Next(s, a))
    requires a.HelloRegister? ==> !Looking(s) || !s.conns[a.conn].open
    ensures !ViewerListens(Next(s, a))
  {
    if !a.HelloRegister? && ViewerListens(Next(s, a)) {
      ListeningStep(s, a);
    }
  }

  lemma MissedStep(s: State, a: Action)
    requires Attentive(s) && Enabled(s, a)
    requires a.HelloRegister? ==> !Looking(s) || !s.conns[a.conn].open
    ensures !Missed(Next(s, a))
  {
    if ViewerListens(Next(s, a)) && !a.HelloRegister? {
      ListeningStep(s, a);
    }
  }

  lemma StepKeepsAttentive(s: State, a: Action)
    requires Attentive(s) && Enabled(s, a)
    requires a.HelloRegister? ==> !Looking(s) || !s.conns[a.conn].open
    ensures Attentive(Next(s, a))
  {
    MissedStep(s, a);
    if Looking(Next(s, a)) {
      LookingStep(s, a);
    }
  }

  lemma {:induction false} AttentiveUpTo(states: seq<State>, steps: seq<Action>, i: nat)
    requires Trace(states, steps) && i <= |steps|
    requires forall j :: 0 <= j < |steps| && steps[j].HelloRegister? ==> !Looking(states[j])
    ensures Attentive(states[i])
  {
    if i > 0 {
      AttentiveUpTo(states, steps, i - 1);
      StepKeepsAttentive(states[i - 1], steps[i - 1]);
    }
  }

  /** Over every run in which no viewer registers between the open handler's look for one and its deferral, a
      request and a listening viewer meet only while that viewer has still to look into the slot. */
  lemma NoRegistrationInBetweenMissesNothing(states: seq<State>, steps: seq<Action>)
    requires Trace(states, steps)
    requires forall i :: 0 <= i < |steps| && steps[i].HelloRegister? ==> !Looking(states[i])
    ensures forall i :: 0 <= i < |states| ==> !Missed(states[i])
  {
    forall i | 0 <= i < |states|
      ensures !Missed(states[i])
    {
      AttentiveUpTo(states, steps, i);
    }
  }

  predicate NoRegistration(steps: seq<Action>) {
    forall i :: 0 <= i < |steps| ==> !steps[i].HelloRegister?
  }

  lemma {:induction false} RunKeepsAttentive(s: State, steps: seq<Action>, end: State)
    requires Attentive(s) && Run(s, steps, end) && NoRegistration(steps)
    ensures Attentive(end)
    decreases |steps|
  {
    if steps != [] {
      var n := |steps| - 1;
      var mid :| Run(s, steps[..n], mid) && Enabled(mid, steps[n]) && end == Next(mid, steps[n]);
      RunKeepsAttentive(s, steps[..n], mid);
      StepKeepsAttentive(mid, steps[n]);
    }
  }

  /** Some continuation misses a request before another viewer registers. */
  ghost predicate CanMiss(s: State) {
    exists steps, end :: Run(s, steps, end) && NoRegistration(steps) && Missed(end)
  }

  predicate HasLooked(s: State, k: nat) {
    && s.alive && s.viewer == Some(k) && k in s.conns && s.conns[k].open
    && !s.conns[k].step.Raising? && !s.conns[k].step.Taking?
  }

  lemma Raises(s: State, k: nat) returns (steps: seq<Action>, s1: State)
    requires StandsAt(s, k, Raising) && s.viewer == Some(k) && s.conns[k].open
    ensures Run(s, steps, s1) && NoRegistration(steps) && s1.opener == s.opener
    ensures StandsAt(s1, k, Taking) && s1.conns[k].open && s1.viewer == Some(k) && s1.alive
  {
    steps := OneMore(s, [], s, HelloAlive(k));
    s1 := Next(s, HelloAlive(k));
  }

  lemma Takes(s0: State, steps: seq<Action>, s: State, k: nat) returns (steps1: seq<Action>, s1: State)
    requires Run(s0, steps, s) && NoRegistration(steps)
    requires StandsAt(s, k, Taking) && s.conns[k].open && s.viewer == Some(k) && s.alive
    ensures Run(s0, steps1, s1) && NoRegistration(steps1) && s1.opener == s.opener && HasLooked(s1, k)
  {
    steps1 := OneMore(s0, steps, s, HelloTake(k));
    s1 := Next(s, HelloTake(k));
  }

  /** The registered viewer finishes its hello while the open handler stands still. */
  lemma HelloLooks(s: State, k: nat) returns (steps: seq<Action>, s1: State)
    requires StandsAt(s, k, Raising) && s.viewer == Some(k) && s.conns[k].open
    ensures Run(s, steps, s1) && NoRegistration(steps) && s1.opener == s.opener && HasLooked(s1, k)
  {
    steps, s1 := Raises(s, k);
    steps, s1 := Takes(s, steps, s1, k);
  }

  /** The open handler then defers its request. */
  lemma LateDeferral(s0: State, steps: seq<Action>, s: State, k: nat)
    requires Run(s0, steps, s) && NoRegistration(steps) && Looking(s) && HasLooked(s, k)
    ensures CanMiss(s0)
  {
    var steps1, end := steps, s;
    if end.opener.Checking? {
      steps1 := OneMore(s0, steps1, end, CheckAlive);
      end := Next(end, CheckAlive);
    }
    assert end.opener.Deferring? && HasLooked(end, k);
    steps1 := OneMore(s0, steps1, end, Defer);
    end := Next(end, Defer);
    assert Missed(end);
  }

  lemma AttentiveCannotMiss(s: State)
    requires Attentive(s)
    ensures !CanMiss(s)
  {
    if steps, end :| Run(s, steps, end) && NoRegistration(steps) && Missed(end) {
      RunKeepsAttentive(s, steps, end);
    }
  }

  lemma RegisteredIsAttentive(s: State, k: nat)
    requires Enabled(s, HelloRegister(k)) && !(Looking(s) && s.conns[k].open)
    ensures Attentive(Next(s, HelloRegister(k)))
  {
  }

  /** Whenever a viewer registers, its hello can miss a request, before any other viewer registers, if and only if the
      open handler stands between its look for a viewer and its deferral and the viewer's queue is open. */
  lemma HelloCanMissExactlyWhen(s: State, k: nat)
    requires Enabled(s, HelloRegister(k))
    ensures CanMiss(Next(s, HelloRegister(k))) <==> Looking(s) && s.conns[k].open
  {
    var s1 := Next(s, HelloRegister(k));
    if Looking(s) && s.conns[k].open {
      var steps, s2 := HelloLooks(s1, k);
      LateDeferral(s1, steps, s2, k);
    } else {
      RegisteredIsAttentive(s, k);
      AttentiveCannotMiss(s1);
    }
  }
}
