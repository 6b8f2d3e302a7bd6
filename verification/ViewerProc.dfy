/** The daemon's shared viewer state as its handlers change it when none of them is interrupted:
    `open`, `deliver_pending`, `kill` and the reaper of linux/fodderd/src/viewer_proc.rs, and the
    ViewerHello and deregistration code of linux/fodderd/src/server.rs. */
module ViewerProc {
  import opened Wrappers
  import opened ViewerProtocol

  datatype IpcMessage = OpenViewer | OpenAt(feedId: int, articleId: Option<int>) | Ack | AlreadyRunning

  datatype ReadingState = ReadingState(feedId: Option<int>, articleId: Option<int>, webkit: bool)

  datatype Argument = Feed(id: int) | Article(id: int) | Webkit

  function MessageFor(req: OpenRequest): IpcMessage {
    match req
    case Show => OpenViewer
    case At(feedId, articleId) => OpenAt(feedId, articleId)
  }

  /** The command line `spawn` builds. */
  function ArgumentsFor(req: OpenRequest, last: ReadingState): seq<Argument> {
    match req
    case At(feedId, articleId) => [Feed(feedId)] + (if articleId.Some? then [Article(articleId.value)] else [])
    case Show =>
      if last.articleId.None? then [] else
        (if last.feedId.Some? then [Feed(last.feedId.value)] else []) + [Article(last.articleId.value)] +
        (if last.webkit then [Webkit] else [])
  }

  /** What the viewer makes of it (`parse_args` of linux/fodder/src/main.rs): a later argument wins. */
  function Target(arguments: seq<Argument>): ReadingState {
    if arguments == [] then ReadingState(None, None, false) else
      Takes(Target(arguments[..|arguments| - 1]), arguments[|arguments| - 1])
  }

  function Takes(before: ReadingState, a: Argument): ReadingState {
    match a
    case Feed(id) => before.(feedId := Some(id))
    case Article(id) => before.(articleId := Some(id))
    case Webkit => before.(webkit := true)
  }

  lemma TargetSnoc(arguments: seq<Argument>, a: Argument)
    ensures Target(arguments + [a]) == Takes(Target(arguments), a)
  {
    assert (arguments + [a])[..|arguments|] == arguments;
  }

  /** Of several arguments of a kind the last one counts, whatever the others are. */
  lemma {:induction false} LastArgumentCounts(arguments: seq<Argument>, i: nat)
    requires i < |arguments|
    ensures arguments[i].Feed? && (forall j :: i < j < |arguments| ==> !arguments[j].Feed?) ==>
              Target(arguments).feedId == Some(arguments[i].id)
    ensures arguments[i].Article? && (forall j :: i < j < |arguments| ==> !arguments[j].Article?) ==>
              Target(arguments).articleId == Some(arguments[i].id)
    ensures arguments[i].Webkit? ==> Target(arguments).webkit
  {
    var n := |arguments| - 1;
    if i < n {
      LastArgumentCounts(arguments[..n], i);
    }
  }

  /** A spawned viewer opens where a message would have taken a running one, and a plain open restores
      the last reading state exactly when an article was open. */
  lemma SpawnOpensTheTarget(req: OpenRequest, last: ReadingState)
    ensures Target(ArgumentsFor(req, last)) ==
            match req
            case At(feedId, articleId) => ReadingState(Some(feedId), articleId, false)
            case Show => if last.articleId.Some? then last else ReadingState(None, None, false)
  {
    match req
    case At(feedId, articleId) =>
      TargetSnoc([], Feed(feedId));
      if articleId.Some? {
        TargetSnoc([] + [Feed(feedId)], Article(articleId.value));
        assert ArgumentsFor(req, last) == [] + [Feed(feedId)] + [Article(articleId.value)];
      } else {
        assert ArgumentsFor(req, last) == [] + [Feed(feedId)];
      }
    case Show =>
      if last.articleId.Some? {
        var feed := if last.feedId.Some? then [Feed(last.feedId.value)] else [];
        if last.feedId.Some? {
          TargetSnoc([], Feed(last.feedId.value));
          assert feed == [] + [Feed(last.feedId.value)];
        }
        TargetSnoc(feed, Article(last.articleId.value));
        TargetSnoc(feed + [Article(last.articleId.value)], Webkit);
        assert !last.webkit ==> ArgumentsFor(req, last) == feed + [Article(last.articleId.value)];
      }
  }

  // ----- What a message does at the other end -----------------------------

  /** What the viewer makes of a message (`classify` of linux/fodder/src/ipc_client.rs, `handle_daemon` of
      linux/fodder/src/app.rs): a refusal ends it, the other two bring its window to the front. */
  datatype Reaction = Ignores | Raises | Navigates(target: ReadingState) | Quits

  function Reacts(msg: IpcMessage): Reaction {
    match msg
    case OpenViewer => Raises
    case OpenAt(feedId, articleId) => Navigates(ReadingState(Some(feedId), articleId, false))
    case AlreadyRunning => Quits
    case Ack => Ignores
  }

  /** What the daemon makes of the same messages when a client sends them (linux/fodderd/src/server.rs:135-148). */
  function RequestIn(msg: IpcMessage): Option<OpenRequest> {
    match msg
    case OpenViewer => Some(Show)
    case OpenAt(feedId, articleId) => Some(At(feedId, articleId))
    case _ => None
  }

  /** Opens for `req`: at the request's own feed and article, or only to the front. */
  predicate ReactsTo(r: Reaction, req: OpenRequest) {
    match req
    case At(feedId, articleId) =>
      r.Navigates? && r.target.feedId == Some(feedId) && r.target.articleId == articleId && !r.target.webkit
    case Show => r.Raises?
  }

  /** A running viewer is taken by the message where a spawned one is taken by its command line, which is the
      request's feed and article; a plain open only raises the running one. The message names the request. */
  lemma MessageOpensTheTarget(req: OpenRequest, last: ReadingState)
    ensures ReactsTo(Reacts(MessageFor(req)), req)
    ensures req.At? ==> Reacts(MessageFor(req)) == Navigates(Target(ArgumentsFor(req, last)))
    ensures RequestIn(MessageFor(req)) == Some(req)
  {
    SpawnOpensTheTarget(req, last);
  }

  // ----- The shared cells -------------------------------------------------

  datatype Cells = Cells(viewer: Option<nat>, alive: bool, pending: Option<Ticket>, kill: Option<nat>)

  predicate Listens(c: Cells, listening: set<nat>) {
    c.viewer.Some? && c.viewer.value in listening
  }

  /** `open`: send, else defer behind a viewer believed alive, else spawn. */
  function Opened(c: Cells, listening: set<nat>, t: Ticket, spawned: bool, child: nat): Cells {
    if Listens(c, listening) then c
    else if c.alive then c.(pending := Some(t))
    else if spawned then c.(alive := true, kill := Some(child))
    else c
  }

  /** ViewerHello on connection `conn`. */
  function Greeted(c: Cells, conn: nat): Cells {
    if c.viewer.Some? then c else c.(viewer := Some(conn), alive := true, pending := None)
  }

  /** How `open` hands a request on, if it does. */
  function OpenRoute(c: Cells, listening: set<nat>, spawned: bool, child: nat): Option<Route> {
    if Listens(c, listening) then Some(Ipc(c.viewer.value))
    else if !c.alive && spawned then Some(Arguments(child))
    else None
  }

  /** How ViewerHello hands the deferred request on, if it does. */
  function HelloRoute(c: Cells, listening: set<nat>, conn: nat): Option<Route> {
    if c.viewer.None? && c.pending.Some? && conn in listening then Some(Ipc(conn)) else None
  }

  /** What goes out for a request on this route: a message, a command line, an entry in the protocol's record. */
  function SentFor(route: Option<Route>, req: OpenRequest): seq<(nat, IpcMessage)> {
    match route
    case Some(Ipc(conn)) => [(conn, MessageFor(req))]
    case _ => []
  }

  function LaunchedFor(route: Option<Route>, req: OpenRequest, last: ReadingState): seq<seq<Argument>> {
    match route
    case Some(Arguments(_)) => [ArgumentsFor(req, last)]
    case _ => []
  }

  function HandedFor(route: Option<Route>, no: nat): seq<(nat, Route)> {
    if route.Some? then [(no, route.value)] else []
  }

  /** One connection's queue takes a message while its receiver is there. */
  function Pushed(conn: nat, msg: IpcMessage, listening: set<nat>): seq<(nat, IpcMessage)> {
    if conn in listening then [(conn, msg)] else []
  }

  const CLEARED: Cells := Cells(None, false, None, None)

  class AppCtx {
    var viewer: Option<nat>
    var alive: bool
    var pending: Option<Ticket>
    var kill: Option<nat>
    var reading: ReadingState
    /** Connections whose outbound queue still has its receiver. */
    var listening: set<nat>
    /** Messages accepted by outbound queues, and the command lines of spawned viewers. */
    var sent: seq<(nat, IpcMessage)>
    var launched: seq<seq<Argument>>
    var nextChild: nat

    function State(): Cells
      reads this
    {
      Cells(viewer, alive, pending, kill)
    }

    /** A request waits in the slot only while no viewer with an open queue is registered. */
    ghost predicate Valid()
      reads this
    {
      pending.Some? ==> !Listens(State(), listening)
    }

    constructor ()
      ensures Valid() && State() == CLEARED && listening == {} && sent == [] && launched == []
    {
      viewer, alive, pending, kill := None, false, None, None;
      reading := ReadingState(None, None, false);
      listening, sent, launched, nextChild := {}, [], [], 0;
    }

    /** Sending on one connection's queue. */
    method Push(conn: nat, msg: IpcMessage) returns (ok: bool)
      modifies this`sent
      ensures ok == (conn in listening)
      ensures sent == if ok then old(sent) + [(conn, msg)] else old(sent)
    {
      ok := conn in listening;
      if ok {
        sent := sent + [(conn, msg)];
      }
    }

    method SendToViewer(msg: IpcMessage) returns (ok: bool)
      modifies this`sent
      ensures ok == Listens(State(), listening)
      ensures sent == if ok then old(sent) + [(viewer.value, msg)] else old(sent)
    {
      if viewer.Some? {
        ok := Push(viewer.value, msg);
      } else {
        ok := false;
      }
    }

    /** `spawned` says whether the process could be started. */
    method Open(t: Ticket, spawned: bool)
      requires Valid()
      modifies this`sent, this`pending, this`alive, this`kill, this`launched, this`nextChild
      ensures Valid()
      ensures State() == Opened(old(State()), listening, t, spawned, old(nextChild))
      ensures var route := OpenRoute(old(State()), listening, spawned, old(nextChild));
              sent == old(sent) + SentFor(route, t.req) && launched ==
                  old(launched) + LaunchedFor(route, t.req, reading)
      ensures Listens(old(State()), listening) ==>
                && launched == old(launched) && |sent| == |old(sent)| + 1 && sent[|old(sent)|].0 == viewer.value
                && ReactsTo(Reacts(sent[|old(sent)|].1), t.req)
    {
      MessageOpensTheTarget(t.req, reading);
      var delivered := SendToViewer(MessageFor(t.req));
      if delivered {
        return;
      }
      if alive {
        pending := Some(t);
        return;
      }
      Spawn(t.req, spawned);
    }

    method Spawn(req: OpenRequest, spawned: bool)
      modifies this`alive, this`kill, this`launched, this`nextChild
      ensures spawned ==> alive && kill == Some(old(nextChild)) && nextChild == old(nextChild) + 1
      ensures spawned ==> launched == old(launched) + [ArgumentsFor(req, reading)]
      ensures !spawned ==> alive == old(alive) && kill == old(kill)
      ensures !spawned ==> launched == old(launched) && nextChild == old(nextChild)
    {
      if !spawned {
        return;
      }
      launched := launched + [ArgumentsFor(req, reading)];
      alive := true;
      kill := Some(nextChild);
      nextChild := nextChild + 1;
    }

    method DeliverPending()
      modifies this`sent, this`pending
      ensures pending == None
      ensures sent == old(sent) + if old(pending).Some? && Listens(old(State()), listening)
                                  then [(viewer.value, MessageFor(old(pending).value.req))] else []
      ensures old(pending).Some? && Listens(old(State()), listening) ==>
                |sent| == |old(sent)| + 1 && ReactsTo(Reacts(sent[|old(sent)|].1), old(pending).value.req)
    {
      if pending.Some? {
        MessageOpensTheTarget(pending.value.req, reading);
      }
      var waiting := pending;
      pending := None;
      if waiting.Some? {
        var _ := SendToViewer(MessageFor(waiting.value.req));
      }
    }

    /** The ViewerHello arm of handle_msg; `close` asks the connection to end. A refused duplicate
        raises the registered viewer; an accepted one gets its Ack first, then what was deferred. */
    method ViewerHello(conn: nat) returns (close: bool, isViewer: bool)
      requires Valid()
      modifies this`sent, this`pending, this`alive, this`viewer
      ensures Valid()
      ensures State() == Greeted(old(State()), conn)
      ensures close == old(viewer).Some? && isViewer == !close
      ensures isViewer ==> pending == None
      ensures isViewer && old(pending).Some? ==>
                sent == old(sent) + Pushed(conn, Ack, listening) +
                        SentFor(HelloRoute(old(State()), listening, conn), old(pending).value.req)
      ensures isViewer && old(pending).None? ==> sent == old(sent) + Pushed(conn, Ack, listening)
      ensures close ==> sent == old(sent) + Pushed(old(viewer).value, OpenViewer, listening)
                                          + Pushed(conn, AlreadyRunning, listening)
    {
      if viewer.Some? {
        var _ := SendToViewer(OpenViewer);
        var _ := Push(conn, AlreadyRunning);
        return true, false;
      }
      viewer := Some(conn);
      alive := true;
      var _ := Push(conn, Ack);
      DeliverPending();
      return false, true;
    }

    /** What the viewer shows, remembered for the next plain open. */
    method RememberReading(feedId: Option<int>, articleId: Option<int>, webkit: bool)
      requires Valid()
      modifies this`reading
      ensures Valid() && reading.feedId == feedId && reading.articleId == articleId && reading.webkit == webkit
      ensures articleId.Some? ==> Target(ArgumentsFor(Show, reading)) == reading
    {
      reading := ReadingState(feedId, articleId, webkit);
      SpawnOpensTheTarget(Show, reading);
    }

    /** The end of handle_conn: a connection that registered clears the registration, whichever viewer holds it. */
    method Deregister(isViewer: bool)
      requires Valid()
      modifies this`viewer
      ensures Valid()
      ensures viewer == if isViewer then None else old(viewer)
    {
      if isViewer {
        viewer := None;
      }
    }

    /** The reaper's last four statements. */
    method Reap()
      modifies this`viewer, this`alive, this`pending, this`kill
      ensures Valid() && State() == CLEARED
    {
      alive := false;
      viewer := None;
      pending := None;
      kill := None;
    }

    /** kill: the child to terminate, if one is tracked. */
    method Kill() returns (child: Option<nat>)
      requires Valid()
      modifies this`kill
      ensures Valid() && kill == None && child == old(kill)
    {
      child := kill;
      kill := None;
    }

    method WriterDies(conn: nat)
      requires Valid()
      modifies this`listening
      ensures Valid() && listening == old(listening) - {conn}
    {
      listening := listening - {conn};
    }

    /** A connection is accepted under a number not used before. */
    method Accept(conn: nat)
      requires Valid() && viewer != Some(conn)
      modifies this`listening
      ensures Valid() && listening == old(listening) + {conn}
    {
      listening := listening + {conn};
    }
  }

  // ----- Deferred and delivered -------------------------------------------

  /** One request after the other, none of which needs a new viewer. */
  function OpenedAll(c: Cells, listening: set<nat>, ts: seq<Ticket>): Cells {
    if ts == [] then c else Opened(OpenedAll(c, listening, ts[..|ts| - 1]), listening, ts[|ts| - 1], false, 0)
  }

  lemma {:induction false} OpensAreDeferred(c: Cells, listening: set<nat>, ts: seq<Ticket>)
    requires c.alive && !Listens(c, listening)
    ensures OpenedAll(c, listening, ts) ==
            c.(pending := if ts == [] then c.pending else Some(ts[|ts| - 1]))
  {
    if ts != [] {
      OpensAreDeferred(c, listening, ts[..|ts| - 1]);
    }
  }

  /** Requests made while a spawned viewer is still starting up: the first viewer to say hello opens at the last of
      them, and the earlier ones are dropped. */
  lemma LastDeferredReachesTheNextViewer(c: Cells, listening: set<nat>, ts: seq<Ticket>, conn: nat)
    requires c.viewer.None? && c.alive && ts != [] && conn in listening
    ensures var c1 := OpenedAll(c, listening, ts);
            var out := SentFor(HelloRoute(c1, listening, conn), ts[|ts| - 1].req);
            && c1.pending == Some(ts[|ts| - 1])
            && |out| == 1 && out[0].0 == conn && ReactsTo(Reacts(out[0].1), ts[|ts| - 1].req)
            && Greeted(c1, conn) == c1.(viewer := Some(conn), pending := None)
  {
    OpensAreDeferred(c, listening, ts);
    MessageOpensTheTarget(ts[|ts| - 1].req, ReadingState(None, None, false));
  }

  // ----- The handlers are what their steps add up to ----------------------

  function CellsOf(s: State): Cells {
    Cells(s.viewer, s.alive, s.pending, s.kill)
  }

  function ListeningIn(s: State): set<nat> {
    set k | k in s.conns && s.conns[k].open
  }

  function SpawnList(ok: bool): seq<Action> {
    if ok then [Spawn(ok), MarkAlive, InstallKill, StartReaper] else [Spawn(ok)]
  }

  lemma ArmSteps(s0: State, steps: seq<Action>, s: State, c: nat) returns (steps1: seq<Action>, s1: State)
    requires Run(s0, steps, s) && s.opener == MarkingAlive(c)
    ensures Run(s0, steps1, s1) && s1.opener.Idle? && steps1 == steps + [MarkAlive, InstallKill, StartReaper]
    ensures CellsOf(s1) == CellsOf(s).(alive := true, kill := Some(c)) && s1.handed == s.handed
  {
    steps1 := OneMore(s0, steps, s, MarkAlive);
    s1 := Next(s, MarkAlive);
    steps1 := OneMore(s0, steps1, s1, InstallKill);
    s1 := Next(s1, InstallKill);
    steps1 := OneMore(s0, steps1, s1, StartReaper);
    s1 := Next(s1, StartReaper);
  }

  lemma SpawnSteps(s0: State, steps: seq<Action>, s: State, ok: bool) returns (steps1: seq<Action>, s1: State)
    requires Run(s0, steps, s) && s.opener.Spawning?
    ensures Run(s0, steps1, s1) && s1.opener.Idle? && steps1 == steps + SpawnList(ok)
    ensures CellsOf(s1) == if ok then CellsOf(s).(alive := true, kill := Some(s.nextChild)) else CellsOf(s)
    ensures s1.handed == s.handed + if ok then [(s.opener.t.no, Arguments(s.nextChild))] else []
  {
    steps1 := OneMore(s0, steps, s, Spawn(ok));
    s1 := Next(s, Spawn(ok));
    if ok {
      steps1, s1 := ArmSteps(s0, steps1, s1, s.nextChild);
    }
  }

  function CheckList(alive: bool, ok: bool): seq<Action> {
    [CheckAlive] + if alive then [Defer] else SpawnList(ok)
  }

  /** From the look at viewer_alive on. */
  lemma CheckSteps(s0: State, steps: seq<Action>, s: State, ok: bool) returns (steps1: seq<Action>, s1: State)
    requires Run(s0, steps, s) && s.opener.Checking?
    ensures Run(s0, steps1, s1) && s1.opener.Idle? && steps1 == steps + CheckList(s.alive, ok)
    ensures CellsOf(s1) == if s.alive then CellsOf(s).(pending := Some(s.opener.t))
                           else if ok then CellsOf(s).(alive := true, kill := Some(s.nextChild)) else CellsOf(s)
    ensures s1.handed == s.handed + if !s.alive && ok then [(s.opener.t.no, Arguments(s.nextChild))] else []
  {
    steps1 := OneMore(s0, steps, s, CheckAlive);
    s1 := Next(s, CheckAlive);
    if s.alive {
      steps1 := OneMore(s0, steps1, s1, Defer);
      s1 := Next(s1, Defer);
    } else {
      steps1, s1 := SpawnSteps(s0, steps1, s1, ok);
    }
  }

  /** The open handler's own steps for the next request. */
  function OpenList(listens: bool, alive: bool, ok: bool): seq<Action> {
    [TakeRequest, TrySend] + if listens then [] else CheckList(alive, ok)
  }

  lemma SendSteps(s: State) returns (s1: State)
    requires s.opener.Idle? && s.queue != []
    ensures Run(s, [TakeRequest, TrySend], s1) && CellsOf(s1) == CellsOf(s) && s1.nextChild == s.nextChild
    ensures if ViewerListens(s)
            then s1.opener.Idle? && s1.handed == s.handed + [(s.queue[0].no, Ipc(s.viewer.value))]
            else s1.opener == Checking(s.queue[0]) && s1.handed == s.handed
  {
    var steps := OneMore(s, [], s, TakeRequest);
    s1 := Next(s, TakeRequest);
    steps := OneMore(s, steps, s1, TrySend);
    s1 := Next(s1, TrySend);
    assert steps == [TakeRequest, TrySend];
  }

  /** The open handler's lock-by-lock steps, run with no other actor's in between, do what AppCtx.Open does: to the
      cells, and in what is handed on by message or by command line. */
  lemma OpenUninterrupted(s: State, ok: bool) returns (s1: State)
    requires s.opener.Idle? && s.queue != []
    ensures Run(s, OpenList(ViewerListens(s), s.alive, ok), s1) && s1.opener.Idle?
    ensures CellsOf(s1) == Opened(CellsOf(s), ListeningIn(s), s.queue[0], ok, s.nextChild)
    ensures s1.handed ==
            s.handed + HandedFor(OpenRoute(CellsOf(s), ListeningIn(s), ok, s.nextChild), s.queue[0].no)
  {
    s1 := SendSteps(s);
    if ViewerListens(s) {
      assert OpenList(true, s.alive, ok) == [TakeRequest, TrySend];
    } else {
      var steps;
      steps, s1 := CheckSteps(s, [TakeRequest, TrySend], s1, ok);
    }
  }

  /** The hello handler's own steps. */
  function HelloList(k: nat, refused: bool, waiting: bool): seq<Action> {
    if refused then [HelloCheck(k), HelloRefuse(k)]
    else [HelloCheck(k), HelloRegister(k), HelloAlive(k)] + DeliverList(k, waiting)
  }

  function DeliverList(k: nat, waiting: bool): seq<Action> {
    if waiting then [HelloTake(k), HelloDeliver(k)] else [HelloTake(k)]
  }

  lemma RegisterSteps(s0: State, steps: seq<Action>, s: State, k: nat) returns (steps1: seq<Action>, s1: State)
    requires Run(s0, steps, s) && StandsAt(s, k, Registering)
    ensures Run(s0, steps1, s1) && steps1 == steps + [HelloRegister(k), HelloAlive(k)]
    ensures StandsAt(s1, k, Taking) && s1.conns[k].open == s.conns[k].open && s1.handed == s.handed
    ensures CellsOf(s1) == CellsOf(s).(viewer := Some(k), alive := true)
  {
    steps1 := OneMore(s0, steps, s, HelloRegister(k));
    s1 := Next(s, HelloRegister(k));
    steps1 := OneMore(s0, steps1, s1, HelloAlive(k));
    s1 := Next(s1, HelloAlive(k));
  }

  lemma TakeStep(s0: State, steps: seq<Action>, s: State, k: nat) returns (steps1: seq<Action>, s1: State)
    requires Run(s0, steps, s) && StandsAt(s, k, Taking) && s.viewer == Some(k)
    ensures Run(s0, steps1, s1) && steps1 == steps + [HelloTake(k)]
    ensures CellsOf(s1) == CellsOf(s).(pending := None) && s1.handed == s.handed
    ensures StandsAt(s1, k, if s.pending.Some? then Delivering(s.pending.value) else Reading)
    ensures s1.conns[k].open == s.conns[k].open
  {
    steps1 := OneMore(s0, steps, s, HelloTake(k));
    s1 := Next(s, HelloTake(k));
  }

  lemma DeliverStep(s0: State, steps: seq<Action>, s: State, k: nat, t: Ticket) returns (steps1: seq<Action>, s1: State)
    requires Run(s0, steps, s) && StandsAt(s, k, Delivering(t)) && s.viewer == Some(k)
    ensures Run(s0, steps1, s1) && steps1 == steps + [HelloDeliver(k)]
    ensures CellsOf(s1) == CellsOf(s) && StandsAt(s1, k, Reading)
    ensures s1.handed == s.handed + if s.conns[k].open then [(t.no, Ipc(k))] else []
  {
    steps1 := OneMore(s0, steps, s, HelloDeliver(k));
    s1 := Next(s, HelloDeliver(k));
  }

  lemma DeliverSteps(s0: State, steps: seq<Action>, s: State, k: nat) returns (steps1: seq<Action>, s1: State)
    requires Run(s0, steps, s) && StandsAt(s, k, Taking) && s.viewer == Some(k)
    ensures Run(s0, steps1, s1) && StandsAt(s1, k, Reading) && steps1 == steps + DeliverList(k, s.pending.Some?)
    ensures CellsOf(s1) == CellsOf(s).(pending := None)
    ensures s1.handed == s.handed + if s.pending.Some? && s.conns[k].open then [(s.pending.value.no, Ipc(k))] else []
  {
    steps1, s1 := TakeStep(s0, steps, s, k);
    if s.pending.Some? {
      steps1, s1 := DeliverStep(s0, steps1, s1, k, s.pending.value);
    }
  }

  lemma CheckStep(s: State, k: nat) returns (s1: State)
    requires StandsAt(s, k, Reading)
    ensures Run(s, [HelloCheck(k)], s1) && StandsAt(s1, k, if s.viewer.Some? then Refusing else Registering)
    ensures CellsOf(s1) == CellsOf(s) && s1.handed == s.handed && s1.conns[k].open == s.conns[k].open
  {
    var steps := OneMore(s, [], s, HelloCheck(k));
    s1 := Next(s, HelloCheck(k));
    assert steps == [HelloCheck(k)];
  }

  lemma RefuseStep(s0: State, steps: seq<Action>, s: State, k: nat) returns (steps1: seq<Action>, s1: State)
    requires Run(s0, steps, s) && StandsAt(s, k, Refusing)
    ensures Run(s0, steps1, s1) && steps1 == steps + [HelloRefuse(k)] && StandsAt(s1, k, Leaving)
    ensures CellsOf(s1) == CellsOf(s) && s1.handed == s.handed
  {
    steps1 := OneMore(s0, steps, s, HelloRefuse(k));
    s1 := Next(s, HelloRefuse(k));
  }

  /** The same for ViewerHello. */
  lemma HelloUninterrupted(s: State, k: nat) returns (s1: State)
    requires StandsAt(s, k, Reading)
    ensures Run(s, HelloList(k, s.viewer.Some?, s.pending.Some?), s1)
    ensures CellsOf(s1) == Greeted(CellsOf(s), k)
    ensures StandsAt(s1, k, if s.viewer.Some? then Leaving else Reading)
    ensures s1.handed == s.handed + if s.pending.None? then []
                                    else HandedFor(HelloRoute(CellsOf(s), ListeningIn(s), k), s.pending.value.no)
  {
    var steps;
    s1 := CheckStep(s, k);
    if s.viewer.Some? {
      steps, s1 := RefuseStep(s, [HelloCheck(k)], s1, k);
      assert steps == HelloList(k, true, s.pending.Some?);
    } else {
      steps, s1 := RegisterSteps(s, [HelloCheck(k)], s1, k);
      steps, s1 := DeliverSteps(s, steps, s1, k);
      assert steps == HelloList(k, false, s.pending.Some?);
    }
  }

  lemma ClearFirstTwo(s: State, c: nat) returns (s1: State)
    requires c in s.reapers && s.reapers[c].ClearingAlive?
    ensures Run(s, [ClearAlive(c), ClearViewer(c)], s1) && c in s1.reapers && s1.reapers[c].ClearingPending?
    ensures CellsOf(s1) == CellsOf(s).(alive := false, viewer := None) && s1.handed == s.handed
  {
    var steps := OneMore(s, [], s, ClearAlive(c));
    s1 := Next(s, ClearAlive(c));
    steps := OneMore(s, steps, s1, ClearViewer(c));
    s1 := Next(s1, ClearViewer(c));
    assert steps == [ClearAlive(c), ClearViewer(c)];
  }

  lemma ClearLastTwo(s0: State, steps: seq<Action>, s: State, c: nat) returns (steps1: seq<Action>, s1: State)
    requires Run(s0, steps, s) && c in s.reapers && s.reapers[c].ClearingPending?
    ensures Run(s0, steps1, s1) && steps1 == steps + [ClearPending(c), ClearKill(c)]
    ensures c in s1.reapers && s1.reapers[c].Finished?
    ensures CellsOf(s1) == CellsOf(s).(pending := None, kill := None) && s1.handed == s.handed
  {
    steps1 := OneMore(s0, steps, s, ClearPending(c));
    s1 := Next(s, ClearPending(c));
    steps1 := OneMore(s0, steps1, s1, ClearKill(c));
    s1 := Next(s1, ClearKill(c));
  }

  /** And for the reaper's clean-up. */
  lemma ReapUninterrupted(s: State, c: nat) returns (s1: State)
    requires c in s.reapers && s.reapers[c].ClearingAlive?
    ensures Run(s, [ClearAlive(c), ClearViewer(c), ClearPending(c), ClearKill(c)], s1)
    ensures CellsOf(s1) == CLEARED && c in s1.reapers && s1.reapers[c].Finished? && s1.handed == s.handed
  {
    var steps;
    s1 := ClearFirstTwo(s, c);
    steps, s1 := ClearLastTwo(s, [ClearAlive(c), ClearViewer(c)], s1, c);
    assert steps == [ClearAlive(c), ClearViewer(c), ClearPending(c), ClearKill(c)];
  }
}
