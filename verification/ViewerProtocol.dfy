/** The viewer's life as the daemon sees it: linux/fodderd/src/viewer_proc.rs, the ViewerHello arm of
    server.rs and the shared state of state.rs, one step per lock, atomic access or process event.

    The actors are the open handler (one task, so requests are served one after the other), a reaper
    per spawned child, a handler per connection, and shutdown. */
module ViewerProtocol {
  import opened Wrappers

  datatype OpenRequest = Show | At(feedId: int, articleId: Option<int>)

  /** A request and its arrival number. */
  datatype Ticket = Ticket(no: nat, req: OpenRequest)

  /** Between which two of its steps the open handler stands. */
  datatype Opener =
    | Idle
    | Sending(t: Ticket)
    | Checking(t: Ticket)
    | Deferring(t: Ticket)
    | Spawning(t: Ticket)
    | MarkingAlive(child: nat)
    | InstallingKill(child: nat)
    | StartingReaper(child: nat)
    | Stopped

  datatype Reaper = Waiting | ClearingAlive | ClearingViewer | ClearingPending | ClearingKill | Finished

  datatype ConnStep =
    | Reading
    | Refusing
    | Registering
    | Raising
    | Taking
    | Delivering(t: Ticket)
    | Leaving
    | Gone

  datatype Conn = Conn(step: ConnStep, isViewer: bool, open: bool)

  datatype Route = Ipc(conn: nat) | Arguments(child: nat)

  /** Where a request is: ghost bookkeeping, one place per arrival number. */
  datatype Place = Queued | Opening | Deferred | Taken(conn: nat) | Handed | Lost

  /** `viewer`, `alive`, `pending` and `kill` are the four shared cells. `live` are the running
      children, `switched` the children whose kill channel has fired or lost its sender. */
  datatype State = State(
    viewer: Option<nat>,
    alive: bool,
    pending: Option<Ticket>,
    kill: Option<nat>,
    queue: seq<Ticket>,
    opener: Opener,
    live: set<nat>,
    reapers: map<nat, Reaper>,
    switched: set<nat>,
    conns: map<nat, Conn>,
    nextNo: nat,
    nextChild: nat,
    handed: seq<(nat, Route)>,
    place: map<nat, Place>)

  datatype Action =
    | Arrive(req: OpenRequest)
    | TakeRequest
    | TrySend
    | CheckAlive
    | Defer
    | Spawn(ok: bool)
    | MarkAlive
    | InstallKill
    | StartReaper
    | ChildExits(child: nat)
    | ReaperWakes(child: nat)
    | ClearAlive(child: nat)
    | ClearViewer(child: nat)
    | ClearPending(child: nat)
    | ClearKill(child: nat)
    | Connect(conn: nat)
    | HelloCheck(conn: nat)
    | HelloRefuse(conn: nat)
    | HelloRegister(conn: nat)
    | HelloAlive(conn: nat)
    | HelloTake(conn: nat)
    | HelloDeliver(conn: nat)
    | Disconnect(conn: nat)
    | Deregister(conn: nat)
    | WriterDies(conn: nat)
    | KillOnShutdown
    | StopOpener

  const START: State := State(None, false, None, None, [], Idle, {}, map[], {}, map[], 0, 0, [], map[])

  predicate StandsAt(s: State, conn: nat, step: ConnStep) {
    conn in s.conns && s.conns[conn].step == step
  }

  predicate Enabled(s: State, a: Action) {
    match a
    case Arrive(_) => true
    case TakeRequest => s.opener.Idle? && s.queue != []
    case TrySend => s.opener.Sending?
    case CheckAlive => s.opener.Checking?
    case Defer => s.opener.Deferring?
    case Spawn(_) => s.opener.Spawning?
    case MarkAlive => s.opener.MarkingAlive?
    case InstallKill => s.opener.InstallingKill?
    case StartReaper => s.opener.StartingReaper?
    case ChildExits(c) => c in s.live
    case ReaperWakes(c) => c in s.reapers && s.reapers[c].Waiting? && (c !in s.live || c in s.switched)
    case ClearAlive(c) => c in s.reapers && s.reapers[c].ClearingAlive?
    case ClearViewer(c) => c in s.reapers && s.reapers[c].ClearingViewer?
    case ClearPending(c) => c in s.reapers && s.reapers[c].ClearingPending?
    case ClearKill(c) => c in s.reapers && s.reapers[c].ClearingKill?
    case Connect(k) => k !in s.conns
    case HelloCheck(k) => StandsAt(s, k, Reading)
    case HelloRefuse(k) => StandsAt(s, k, Refusing)
    case HelloRegister(k) => StandsAt(s, k, Registering)
    case HelloAlive(k) => StandsAt(s, k, Raising)
    case HelloTake(k) => StandsAt(s, k, Taking)
    case HelloDeliver(k) => k in s.conns && s.conns[k].step.Delivering?
    case Disconnect(k) => StandsAt(s, k, Reading)
    case Deregister(k) => StandsAt(s, k, Leaving)
    case WriterDies(k) => k in s.conns
    case KillOnShutdown => true
    case StopOpener => s.opener.Idle?
  }

  predicate ViewerListens(s: State) {
    s.viewer.Some? && s.viewer.value in s.conns && s.conns[s.viewer.value].open
  }

  function Moved(s: State, conn: nat, step: ConnStep): map<nat, Conn>
    requires conn in s.conns
  {
    s.conns[conn := s.conns[conn].(step := step)]
  }

  /** Dropping or firing the sender in the kill slot. */
  function SwitchedOff(s: State): set<nat> {
    if s.kill.Some? then s.switched + {s.kill.value} else s.switched
  }

  function Drop(s: State): map<nat, Place> {
    if s.pending.Some? then s.place[s.pending.value.no := Lost] else s.place
  }

  /** send_to_viewer with a request's message. */
  function HandOver(s: State, t: Ticket): State
    requires ViewerListens(s)
  {
    s.(handed := s.handed + [(t.no, Ipc(s.viewer.value))], place := s.place[t.no := Handed])
  }

  function Next(s: State, a: Action): State
    requires Enabled(s, a)
  {
    match a
    case Arrive(req) =>
      s.(queue := s.queue + [Ticket(s.nextNo, req)], nextNo := s.nextNo + 1, place := s.place[s.nextNo := Queued])
    case TakeRequest =>
      s.(queue := s.queue[1..], opener := Sending(s.queue[0]), place := s.place[s.queue[0].no := Opening])
    case TrySend =>
      if ViewerListens(s) then HandOver(s, s.opener.t).(opener := Idle) else s.(opener := Checking(s.opener.t))
    case CheckAlive => s.(opener := if s.alive then Deferring(s.opener.t) else Spawning(s.opener.t))
    case Defer =>
      s.(pending := Some(s.opener.t), opener := Idle, place := Drop(s)[s.opener.t.no := Deferred])
    case Spawn(ok) =>
      if ok then
        s.(opener := MarkingAlive(s.nextChild), live := s.live + {s.nextChild}, nextChild := s.nextChild + 1,
           handed := s.handed + [(s.opener.t.no, Arguments(s.nextChild))], place := s.place[s.opener.t.no := Handed])
      else s.(opener := Idle, place := s.place[s.opener.t.no := Lost])
    case MarkAlive => s.(alive := true, opener := InstallingKill(s.opener.child))
    case InstallKill =>
      s.(switched := SwitchedOff(s), kill := Some(s.opener.child), opener := StartingReaper(s.opener.child))
    case StartReaper => s.(reapers := s.reapers[s.opener.child := Waiting], opener := Idle)
    case ChildExits(c) => s.(live := s.live - {c})
    case ReaperWakes(c) => s.(live := s.live - {c}, reapers := s.reapers[c := ClearingAlive])
    case ClearAlive(c) => s.(alive := false, reapers := s.reapers[c := ClearingViewer])
    case ClearViewer(c) => s.(viewer := None, reapers := s.reapers[c := ClearingPending])
    case ClearPending(c) => s.(pending := None, place := Drop(s), reapers := s.reapers[c := ClearingKill])
    case ClearKill(c) => s.(switched := SwitchedOff(s), kill := None, reapers := s.reapers[c := Finished])
    case Connect(k) => s.(conns := s.conns[k := Conn(Reading, false, true)])
    case HelloCheck(k) => s.(conns := Moved(s, k, if s.viewer.Some? then Refusing else Registering))
    case HelloRefuse(k) => s.(conns := Moved(s, k, Leaving))
    case HelloRegister(k) =>
      s.(viewer := Some(k), conns := s.conns[k := s.conns[k].(step := Raising, isViewer := true)])
    case HelloAlive(k) => s.(alive := true, conns := Moved(s, k, Taking))
    case HelloTake(k) =>
      if s.pending.Some? then
        s.(pending := None, conns := Moved(s, k, Delivering(s.pending.value)),
           place := s.place[s.pending.value.no := Taken(k)])
      else s.(conns := Moved(s, k, Reading))
    case HelloDeliver(k) =>
      var t := s.conns[k].step.t;
      if ViewerListens(s) then HandOver(s, t).(conns := Moved(s, k, Reading))
      else s.(conns := Moved(s, k, Reading), place := s.place[t.no := Lost])
    case Disconnect(k) => s.(conns := Moved(s, k, Leaving))
    case Deregister(k) =>
      s.(viewer := if s.conns[k].isViewer then None else s.viewer, conns := Moved(s, k, Gone))
    case WriterDies(k) => s.(conns := s.conns[k := s.conns[k].(open := false)])
    case KillOnShutdown => s.(switched := SwitchedOff(s), kill := None)
    case StopOpener => s.(opener := Stopped)
  }

  ghost predicate Run(s: State, steps: seq<Action>, end: State)
    decreases |steps|
  {
    if steps == [] then s == end
    else
      var n := |steps| - 1;
      exists mid :: Run(s, steps[..n], mid) && Enabled(mid, steps[n]) && end == Next(mid, steps[n])
  }

  lemma OneMore(s0: State, steps: seq<Action>, s: State, a: Action) returns (steps1: seq<Action>)
    requires Run(s0, steps, s) && Enabled(s, a)
    ensures Run(s0, steps1, Next(s, a)) && steps1 == steps + [a]
  {
    steps1 := steps + [a];
    assert steps1[..|steps|] == steps;
  }

  // ----- One viewer child, one unfinished reaper --------------------------

  /** Reaper `c` has not cleared viewer_alive yet. */
  predicate Uncleared(s: State, c: nat) {
    c in s.reapers && (s.reapers[c].Waiting? || s.reapers[c].ClearingAlive?)
  }

  predicate NoUncleared(s: State) {
    forall c :: c in s.reapers ==> !Uncleared(s, c)
  }

  /** The child the open handler has spawned and not yet given a reaper. */
  predicate InHand(s: State, c: nat) {
    (s.opener.MarkingAlive? || s.opener.InstallingKill? || s.opener.StartingReaper?) && s.opener.child == c
  }

  ghost predicate ChildInv(s: State) {
    && (forall c :: c in s.reapers ==> c < s.nextChild)
    && (forall c :: c in s.live ==> (c in s.reapers && s.reapers[c].Waiting?) || InHand(s, c))
    && (forall c: nat, d: nat :: Uncleared(s, c) && Uncleared(s, d) ==> c == d)
    && (forall c: nat :: Uncleared(s, c) ==> s.alive)
    && (s.opener.Spawning? ==> NoUncleared(s))
    && (forall c: nat :: InHand(s, c) ==> NoUncleared(s) && c !in s.reapers && c < s.nextChild)
    && (s.opener.InstallingKill? || s.opener.StartingReaper? ==> s.alive)
  }

  lemma StepKeepsAlive(s: State, a: Action)
    requires ChildInv(s) && Enabled(s, a)
    ensures forall c: nat :: Uncleared(Next(s, a), c) ==> Next(s, a).alive
  {
    var s1 := Next(s, a);
    forall c: nat | Uncleared(s1, c)
      ensures s1.alive
    {
      if a.ClearAlive? {
        assert Uncleared(s, c) && Uncleared(s, a.child);
        assert false;
      } else if a.StartReaper? && c == s.opener.child {
        assert s.alive;
      } else {
        assert Uncleared(s, c);
      }
    }
  }

  lemma HandBefore(s: State, a: Action, c: nat)
    requires Enabled(s, a) && InHand(Next(s, a), c)
    ensures if a.Spawn? then c == s.nextChild && s.opener.Spawning? else InHand(s, c) && !a.StartReaper?
  {
  }

  lemma HandStep(s: State, a: Action, c: nat)
    requires ChildInv(s) && Enabled(s, a) && InHand(Next(s, a), c)
    ensures InHand(s, c) || (a.Spawn? && c == s.nextChild && s.opener.Spawning?)
    ensures c !in Next(s, a).reapers && c < Next(s, a).nextChild
  {
    HandBefore(s, a, c);
    if a.Spawn? {
      assert c !in s.reapers;
    } else {
      ReapersStay(s, a);
    }
  }

  lemma ReapersStay(s: State, a: Action)
    requires Enabled(s, a) && !a.StartReaper?
    ensures Next(s, a).reapers.Keys == s.reapers.Keys && Next(s, a).nextChild >= s.nextChild
  {
  }

  lemma StepKeepsHand(s: State, a: Action, c: nat, d: nat)
    requires ChildInv(s) && Enabled(s, a) && InHand(Next(s, a), c)
    ensures !Uncleared(Next(s, a), d)
  {
    HandStep(s, a, c);
    assert NoUncleared(s) && !Uncleared(s, d);
  }

  lemma StepKeepsSpawning(s: State, a: Action)
    requires ChildInv(s) && Enabled(s, a) && Next(s, a).opener.Spawning?
    ensures NoUncleared(Next(s, a))
  {
    var s1 := Next(s, a);
    forall c | c in s1.reapers
      ensures !Uncleared(s1, c)
    {
      assert c in s.reapers && !Uncleared(s, c);
    }
  }

  lemma StepKeepsLive(s: State, a: Action)
    requires ChildInv(s) && Enabled(s, a)
    ensures forall c :: c in Next(s, a).live ==>
              (c in Next(s, a).reapers && Next(s, a).reapers[c].Waiting?) || InHand(Next(s, a), c)
  {
  }

  lemma UnclearedBefore(s: State, a: Action, c: nat)
    requires Enabled(s, a) && Uncleared(Next(s, a), c)
    ensures Uncleared(s, c) || (a.StartReaper? && InHand(s, c))
  {
  }

  lemma StepKeepsOneReaper(s: State, a: Action, c: nat, d: nat)
    requires ChildInv(s) && Enabled(s, a)
    requires Uncleared(Next(s, a), c) && Uncleared(Next(s, a), d)
    ensures c == d
  {
    UnclearedBefore(s, a, c);
    UnclearedBefore(s, a, d);
  }

  lemma StepKeepsChildInv(s: State, a: Action)
    requires ChildInv(s) && Enabled(s, a)
    ensures ChildInv(Next(s, a))
  {
    StepKeepsAlive(s, a);
    forall c: nat | InHand(Next(s, a), c)
      ensures NoUncleared(Next(s, a)) && c !in Next(s, a).reapers && c < Next(s, a).nextChild
    {
      HandStep(s, a, c);
      forall d | d in Next(s, a).reapers
        ensures !Uncleared(Next(s, a), d)
      {
        StepKeepsHand(s, a, c, d);
      }
    }
    if Next(s, a).opener.Spawning? {
      StepKeepsSpawning(s, a);
    }
    StepKeepsLive(s, a);
    forall c: nat, d: nat | Uncleared(Next(s, a), c) && Uncleared(Next(s, a), d)
      ensures c == d
    {
      StepKeepsOneReaper(s, a, c, d);
    }
    if s.opener.MarkingAlive? || s.opener.InstallingKill? || s.opener.StartingReaper? {
      assert InHand(s, s.opener.child);
      assert a.ClearAlive? ==> Uncleared(s, a.child);
    }
  }

  lemma {:induction false} RunKeepsChildInv(s: State, steps: seq<Action>, end: State)
    requires ChildInv(s) && Run(s, steps, end)
    ensures ChildInv(end)
    decreases |steps|
  {
    if steps != [] {
      var n := |steps| - 1;
      var mid :| Run(s, steps[..n], mid) && Enabled(mid, steps[n]) && end == Next(mid, steps[n]);
      RunKeepsChildInv(s, steps[..n], mid);
      StepKeepsChildInv(mid, steps[n]);
    }
  }

  /** At lock granularity, whatever the interleaving: at most one child runs, and at most one reaper
      has still to clear viewer_alive. */
  lemma {:induction false} OneViewerChild(steps: seq<Action>, end: State)
    requires Run(START, steps, end)
    ensures forall c, d :: c in end.live && d in end.live ==> c == d
    ensures forall c: nat, d: nat :: Uncleared(end, c) && Uncleared(end, d) ==> c == d
    ensures forall c :: c in end.live && c in end.reapers ==> end.alive
  {
    RunKeepsChildInv(START, steps, end);
    forall c, d | c in end.live && d in end.live
      ensures c == d
    {
      assert Uncleared(end, c) || InHand(end, c);
      assert Uncleared(end, d) || InHand(end, d);
    }
    forall c | c in end.live && c in end.reapers
      ensures end.alive
    {
      assert InHand(end, c) ==> c !in end.reapers;
      assert Uncleared(end, c);
    }
  }

  // ----- Each request is handed on at most once ---------------------------

  predicate Holds(s: State, no: nat) {
    (s.opener.Sending? || s.opener.Checking? || s.opener.Deferring? || s.opener.Spawning?) && s.opener.t.no == no
  }

  predicate WasHanded(handed: seq<(nat, Route)>, no: nat) {
    exists i :: 0 <= i < |handed| && handed[i].0 == no
  }

  predicate Marked(s: State, no: nat, p: Place) {
    no in s.place && s.place[no] == p
  }

  ghost predicate QueueAccounted(s: State) {
    && (forall n: nat :: n in s.place <==> n < s.nextNo)
    && (forall i, j :: 0 <= i < j < |s.queue| ==> s.queue[i].no < s.queue[j].no)
    && (forall i :: 0 <= i < |s.queue| ==> Marked(s, s.queue[i].no, Queued))
    && (forall n: nat :: Marked(s, n, Queued) ==> exists i :: 0 <= i < |s.queue| && s.queue[i].no == n)
  }

  ghost predicate CellsAccounted(s: State) {
    && (forall n: nat :: Holds(s, n) <==> Marked(s, n, Opening))
    && (forall n: nat :: (s.pending.Some? && s.pending.value.no == n) <==> Marked(s, n, Deferred))
  }

  predicate Carries(s: State, conn: nat, no: nat) {
    conn in s.conns && s.conns[conn].step.Delivering? && s.conns[conn].step.t.no == no
  }

  ghost predicate ConnsAccounted(s: State) {
    forall n: nat, k: nat :: Carries(s, k, n) <==> Marked(s, n, Taken(k))
  }

  ghost predicate HandedAccounted(s: State) {
    && (forall n: nat :: WasHanded(s.handed, n) <==> Marked(s, n, Handed))
    && (forall i, j :: 0 <= i < j < |s.handed| ==> s.handed[i].0 != s.handed[j].0)
  }

  /** Every request that ever arrived is in exactly one place, and the places are what the cells,
      the queue and the handlers really hold. */
  ghost predicate Accounted(s: State) {
    QueueAccounted(s) && CellsAccounted(s) && ConnsAccounted(s) && HandedAccounted(s)
  }

  /** The request a step moves, if any, and the mark it had. */
  function Mover(s: State, a: Action): Option<Ticket>
    requires Enabled(s, a)
  {
    match a
    case TakeRequest => Some(s.queue[0])
    case TrySend => if ViewerListens(s) then Some(s.opener.t) else None
    case Defer => Some(s.opener.t)
    case Spawn(_) => Some(s.opener.t)
    case HelloTake(_) => s.pending
    case HelloDeliver(k) => Some(s.conns[k].step.t)
    case _ => None
  }

  lemma MoverMark(s: State, a: Action)
    requires Accounted(s) && Enabled(s, a) && Mover(s, a).Some?
    ensures var no := Mover(s, a).value.no;
            if a.TakeRequest? then Marked(s, no, Queued)
            else if a.HelloTake? then Marked(s, no, Deferred)
            else if a.HelloDeliver? then Marked(s, no, Taken(a.conn))
            else Marked(s, no, Opening)
  {
    var no := Mover(s, a).value.no;
    if a.HelloDeliver? {
      assert Carries(s, a.conn, no);
    } else if !a.TakeRequest? && !a.HelloTake? {
      assert Holds(s, no);
    }
  }

  /** The steps of the open handler. */
  predicate ByOpener(a: Action) {
    a.TakeRequest? || a.TrySend? || a.CheckAlive? || a.Defer? || a.Spawn?
  }

  lemma StepKeepsQueued(s: State, a: Action, n: nat)
    requires Accounted(s) && Enabled(s, a) && !a.Arrive? && !a.TakeRequest?
    ensures Marked(Next(s, a), n, Queued) <==> Marked(s, n, Queued)
    ensures n in Next(s, a).place <==> n in s.place
  {
    assert s.pending.Some? ==> Marked(s, s.pending.value.no, Deferred);
    if Mover(s, a).Some? {
      MoverMark(s, a);
    }
  }

  lemma StepKeepsQueue(s: State, a: Action)
    requires Accounted(s) && Enabled(s, a) && !a.Arrive? && !a.TakeRequest?
    ensures QueueAccounted(Next(s, a))
  {
    var s1 := Next(s, a);
    assert s1.queue == s.queue && s1.nextNo == s.nextNo;
    forall n: nat
      ensures Marked(s1, n, Queued) <==> Marked(s, n, Queued)
      ensures n in s1.place <==> n in s.place
    {
      StepKeepsQueued(s, a, n);
    }
  }

  lemma ArriveKeepsQueue(s: State, a: Action)
    requires Accounted(s) && Enabled(s, a) && a.Arrive?
    ensures QueueAccounted(Next(s, a))
  {
    var s1 := Next(s, a);
    assert forall i :: 0 <= i < |s.queue| ==> Marked(s, s.queue[i].no, Queued);
    forall n: nat | Marked(s1, n, Queued)
      ensures exists i :: 0 <= i < |s1.queue| && s1.queue[i].no == n
    {
      if n == s.nextNo {
        assert s1.queue[|s.queue|].no == n;
      } else {
        assert Marked(s, n, Queued);
        var i :| 0 <= i < |s.queue| && s.queue[i].no == n;
        assert s1.queue[i].no == n;
      }
    }
  }

  lemma TakeKeepsQueue(s: State, a: Action)
    requires Accounted(s) && Enabled(s, a) && a.TakeRequest?
    ensures QueueAccounted(Next(s, a))
  {
    var s1 := Next(s, a);
    assert Marked(s, s.queue[0].no, Queued);
    forall n: nat | Marked(s1, n, Queued)
      ensures exists i :: 0 <= i < |s1.queue| && s1.queue[i].no == n
    {
      assert Marked(s, n, Queued);
      var i :| 0 <= i < |s.queue| && s.queue[i].no == n;
      assert s1.queue[i - 1].no == n;
    }
    forall i | 0 <= i < |s1.queue|
      ensures Marked(s1, s1.queue[i].no, Queued)
    {
      assert s1.queue[i] == s.queue[i + 1] && s.queue[0].no < s.queue[i + 1].no;
      assert Marked(s, s.queue[i + 1].no, Queued);
    }
  }

  lemma OpenerKeepsHolder(s: State, a: Action, n: nat)
    requires Accounted(s) && Enabled(s, a) && ByOpener(a)
    ensures Holds(Next(s, a), n) <==> Marked(Next(s, a), n, Opening)
  {
    assert Holds(s, n) <==> Marked(s, n, Opening);
    assert s.pending.Some? ==> Marked(s, s.pending.value.no, Deferred);
    if Mover(s, a).Some? {
      MoverMark(s, a);
    }
  }

  lemma OthersKeepHolder(s: State, a: Action, n: nat)
    requires Accounted(s) && Enabled(s, a) && !ByOpener(a)
    ensures Holds(Next(s, a), n) <==> Marked(Next(s, a), n, Opening)
  {
    assert Holds(s, n) <==> Marked(s, n, Opening);
    assert s.pending.Some? ==> Marked(s, s.pending.value.no, Deferred);
    if Mover(s, a).Some? {
      MoverMark(s, a);
    }
  }

  lemma StepKeepsHolder(s: State, a: Action, n: nat)
    requires Accounted(s) && Enabled(s, a)
    ensures Holds(Next(s, a), n) <==> Marked(Next(s, a), n, Opening)
  {
    if ByOpener(a) {
      OpenerKeepsHolder(s, a, n);
    } else {
      OthersKeepHolder(s, a, n);
    }
  }

  lemma OpenerKeepsPending(s: State, a: Action, n: nat)
    requires Accounted(s) && Enabled(s, a) && ByOpener(a)
    ensures (Next(s, a).pending.Some? && Next(s, a).pending.value.no == n) <==> Marked(Next(s, a), n, Deferred)
  {
    assert (s.pending.Some? && s.pending.value.no == n) <==> Marked(s, n, Deferred);
    assert s.pending.Some? ==> Marked(s, s.pending.value.no, Deferred);
    if Mover(s, a).Some? {
      MoverMark(s, a);
    }
  }

  lemma OthersKeepPending(s: State, a: Action, n: nat)
    requires Accounted(s) && Enabled(s, a) && !ByOpener(a)
    ensures (Next(s, a).pending.Some? && Next(s, a).pending.value.no == n) <==> Marked(Next(s, a), n, Deferred)
  {
    assert (s.pending.Some? && s.pending.value.no == n) <==> Marked(s, n, Deferred);
    assert s.pending.Some? ==> Marked(s, s.pending.value.no, Deferred);
    if Mover(s, a).Some? {
      MoverMark(s, a);
    }
  }

  lemma StepKeepsPending(s: State, a: Action, n: nat)
    requires Accounted(s) && Enabled(s, a)
    ensures (Next(s, a).pending.Some? && Next(s, a).pending.value.no == n) <==> Marked(Next(s, a), n, Deferred)
  {
    if ByOpener(a) {
      OpenerKeepsPending(s, a, n);
    } else {
      OthersKeepPending(s, a, n);
    }
  }

  lemma OpenerKeepsCarried(s: State, a: Action, n: nat, k: nat)
    requires Accounted(s) && Enabled(s, a) && ByOpener(a)
    ensures Carries(Next(s, a), k, n) <==> Marked(Next(s, a), n, Taken(k))
  {
    assert Carries(s, k, n) <==> Marked(s, n, Taken(k));
    assert s.pending.Some? ==> Marked(s, s.pending.value.no, Deferred);
    if Mover(s, a).Some? {
      MoverMark(s, a);
    }
  }

  lemma OthersKeepCarried(s: State, a: Action, n: nat, k: nat)
    requires Accounted(s) && Enabled(s, a) && !ByOpener(a)
    ensures Carries(Next(s, a), k, n) <==> Marked(Next(s, a), n, Taken(k))
  {
    assert Carries(s, k, n) <==> Marked(s, n, Taken(k));
    assert s.pending.Some? ==> Marked(s, s.pending.value.no, Deferred);
    if Mover(s, a).Some? {
      MoverMark(s, a);
    }
  }

  lemma StepKeepsCarried(s: State, a: Action, n: nat, k: nat)
    requires Accounted(s) && Enabled(s, a)
    ensures Carries(Next(s, a), k, n) <==> Marked(Next(s, a), n, Taken(k))
  {
    if ByOpener(a) {
      OpenerKeepsCarried(s, a, n, k);
    } else {
      OthersKeepCarried(s, a, n, k);
    }
  }

  lemma StepExtendsHanded(s: State, a: Action)
    requires Enabled(s, a)
    ensures Next(s, a).handed == s.handed
            || (Mover(s, a).Some? && exists r :: Next(s, a).handed == s.handed + [(Mover(s, a).value.no, r)])
    ensures Next(s, a).handed != s.handed ==> a.TrySend? || a.Spawn? || a.HelloDeliver?
    ensures Mover(s, a).Some? ==> (Marked(Next(s, a), Mover(s, a).value.no, Handed) <==> Next(s, a).handed != s.handed)
  {
    if a.TrySend? && ViewerListens(s) {
      assert Next(s, a).handed == s.handed + [(Mover(s, a).value.no, Ipc(s.viewer.value))];
    } else if a.Spawn? && a.ok {
      assert Next(s, a).handed == s.handed + [(Mover(s, a).value.no, Arguments(s.nextChild))];
    } else if a.HelloDeliver? && ViewerListens(s) {
      assert Next(s, a).handed == s.handed + [(Mover(s, a).value.no, Ipc(s.viewer.value))];
    }
  }

  lemma HandedGrows(handed: seq<(nat, Route)>, no: nat, r: Route, n: nat)
    ensures WasHanded(handed + [(no, r)], n) <==> WasHanded(handed, n) || n == no
  {
    var longer := handed + [(no, r)];
    assert longer[|handed|] == (no, r);
    if WasHanded(handed, n) {
      var i :| 0 <= i < |handed| && handed[i].0 == n;
      assert longer[i].0 == n;
    }
  }

  lemma StepKeepsHanded(s: State, a: Action, n: nat)
    requires Accounted(s) && Enabled(s, a)
    ensures WasHanded(Next(s, a).handed, n) <==> Marked(Next(s, a), n, Handed)
  {
    StepExtendsHanded(s, a);
    assert WasHanded(s.handed, n) <==> Marked(s, n, Handed);
    assert s.pending.Some? ==> Marked(s, s.pending.value.no, Deferred);
    if Mover(s, a).Some? {
      MoverMark(s, a);
      if Next(s, a).handed != s.handed {
        var r :| Next(s, a).handed == s.handed + [(Mover(s, a).value.no, r)];
        HandedGrows(s.handed, Mover(s, a).value.no, r, n);
      }
    }
  }

  lemma StepHandsOnce(s: State, a: Action)
    requires Accounted(s) && Enabled(s, a)
    ensures forall i, j :: 0 <= i < j < |Next(s, a).handed| ==> Next(s, a).handed[i].0 != Next(s, a).handed[j].0
  {
    StepExtendsHanded(s, a);
    if Mover(s, a).Some? && Next(s, a).handed != s.handed {
      MoverMark(s, a);
      assert !WasHanded(s.handed, Mover(s, a).value.no);
    }
  }

  lemma StepKeepsAccounted(s: State, a: Action)
    requires Accounted(s) && Enabled(s, a)
    ensures Accounted(Next(s, a))
  {
    if a.Arrive? {
      ArriveKeepsQueue(s, a);
    } else if a.TakeRequest? {
      TakeKeepsQueue(s, a);
    } else {
      StepKeepsQueue(s, a);
    }
    forall n: nat {
      StepKeepsHolder(s, a, n);
    }
    forall n: nat {
      StepKeepsPending(s, a, n);
    }
    forall n: nat, k: nat {
      StepKeepsCarried(s, a, n, k);
    }
    forall n: nat {
      StepKeepsHanded(s, a, n);
    }
    StepHandsOnce(s, a);
  }

  lemma {:induction false} RunKeepsAccounted(s: State, steps: seq<Action>, end: State)
    requires Accounted(s) && Run(s, steps, end)
    ensures Accounted(end)
    decreases |steps|
  {
    if steps != [] {
      var n := |steps| - 1;
      var mid :| Run(s, steps[..n], mid) && Enabled(mid, steps[n]) && end == Next(mid, steps[n]);
      RunKeepsAccounted(s, steps[..n], mid);
      StepKeepsAccounted(mid, steps[n]);
    }
  }

  lemma HandedIsNowhereElse(s: State, n: nat)
    requires Accounted(s) && WasHanded(s.handed, n)
    ensures n < s.nextNo && !(s.pending.Some? && s.pending.value.no == n) && !Holds(s, n)
    ensures forall k: nat :: !Carries(s, k, n)
    ensures forall i :: 0 <= i < |s.queue| ==> s.queue[i].no != n
  {
    assert Marked(s, n, Handed);
    assert s.pending.Some? ==> Marked(s, s.pending.value.no, Deferred);
    assert forall i :: 0 <= i < |s.queue| ==> Marked(s, s.queue[i].no, Queued);
  }

  /** At lock granularity, whatever the interleaving: no request is handed on twice over the three
      routes, and none is both handed on and still waiting in the queue, in the deferred slot or in
      a handler. */
  lemma {:induction false} HandedOnAtMostOnce(steps: seq<Action>, end: State, n: nat)
    requires Run(START, steps, end)
    ensures forall i, j :: 0 <= i < j < |end.handed| ==> end.handed[i].0 != end.handed[j].0
    ensures WasHanded(end.handed, n) ==>
              && n < end.nextNo
              && !(end.pending.Some? && end.pending.value.no == n)
              && !Holds(end, n)
              && (forall k: nat :: !Carries(end, k, n))
              && (forall i :: 0 <= i < |end.queue| ==> end.queue[i].no != n)
  {
    RunKeepsAccounted(START, steps, end);
    if WasHanded(end.handed, n) {
      HandedIsNowhereElse(end, n);
    }
  }
}
