/**
  One plugin as three threads see it: the network thread that delivers messages,
  the plugin's own worker thread, and the control thread that starts, stops,
  restarts and reloads it.  Each atomic step is an action; a run is any sequence
  of enabled actions.
 */
module PluginWorker {
  import opened IRCMessages
  import opened Options

  /** Where the worker thread is; it holds the queue's mutex while `Locked` or `Handling`. */
  datatype Worker =
    | NoThread                   // default-constructed or joined
    | Spawned                    // created, has not executed its own store to the flag
    | InOnInit
    | AtCheck                    // about to read the flag
    | AtLock                     // about to lock the mutex
    | Waiting                    // in the timed wait, mutex released
    | Locked                     // the wait returned true, about to take the front
    | Handling(msg: IRCMessage)
    | Exited                     // finished, still joinable

  /** What the control call does once its stop has returned. */
  datatype After = Return | Respawn | Destroy

  /** Where the control thread is; control calls are serialised. */
  datatype Control =
    | Idle
    | StopCheck(next: After)     // if not running: return
    | ClearRunning(next: After)  // running = false
    | Join(next: After)
    | Shutdown(next: After)      // the shutdown hook
    | StopDone(next: After)
    | SetRunning                 // spawn: running = true
    | MakeThread                 // spawn: assign the new thread
    | Destroyed

  /** What would be undefined or would terminate the program. */
  datatype Fault = NoFault | FrontOfEmptyQueue | JoinableOverwritten | JoinableDestroyed

  datatype Plugin = Plugin(
    parser: Option<char>,          // the installed command parser's prefix
    running: bool,
    worker: Worker,
    control: Control,
    spawned: bool,
    incoming: seq<IRCMessage>,
    dequeued: seq<IRCMessage>,     // history: everything the worker has taken, in order
    fault: Fault)

  function Fresh(parser: Option<char>): Plugin {
    Plugin(parser, true, NoThread, Idle, false, [], [], NoFault)
  }

  datatype Action =
    | Receive(msg: IRCMessage)
    | StoreRunning | InitReturns | InitThrows | CheckRunning | Acquire | Wake(timedOut: bool)
    | TakeFront | HandlerReturns | HandlerThrows
    | CallStart | CallStop | CallRestart | CallReload | Advance

  predicate HoldsMutex(w: Worker) {
    w == Locked || w.Handling?
  }

  predicate Enabled(p: Plugin, a: Action) {
    match a
    case Receive(_) => p.control != Destroyed && !HoldsMutex(p.worker)
    case StoreRunning => p.worker == Spawned
    case InitReturns => p.worker == InOnInit
    case InitThrows => p.worker == InOnInit
    case CheckRunning => p.worker == AtCheck
    case Acquire => p.worker == AtLock
    case Wake(_) => p.worker == Waiting
    case TakeFront => p.worker == Locked
    case HandlerReturns => p.worker.Handling?
    case HandlerThrows => p.worker.Handling?
    case CallStart => p.control == Idle && !p.spawned
    case CallStop => p.control == Idle
    case CallRestart => p.control == Idle
    case CallReload => p.control == Idle
    case Advance =>
      && p.control != Idle && p.control != Destroyed
      && (p.control.Join? ==> p.worker in {NoThread, Exited})
  }

  function ApplyAdvance(p: Plugin): Plugin {
    match p.control
    case StopCheck(next) => p.(control := if p.running then ClearRunning(next) else StopDone(next))
    case ClearRunning(next) => p.(running := false, control := Join(next))
    case Join(next) => p.(worker := NoThread, control := Shutdown(next))
    case Shutdown(next) => p.(control := StopDone(next))
    case StopDone(next) =>
      (match next
       case Return => p.(control := Idle)
       case Respawn => p.(control := SetRunning)
       case Destroy =>
         if p.worker == NoThread then p.(control := Destroyed)
         else p.(control := Destroyed, fault := JoinableDestroyed))
    case SetRunning => p.(running := true, control := MakeThread)
    case MakeThread =>
      if p.worker == NoThread then p.(worker := Spawned, spawned := true, control := Idle)
      else p.(control := Idle, fault := JoinableOverwritten)
    case _ => p
  }

  function Apply(p: Plugin, a: Action): Plugin {
    match a
    case Receive(msg) => p.(incoming := p.incoming + [msg])
    case StoreRunning => p.(running := true, worker := InOnInit)
    case InitReturns => p.(worker := AtCheck)
    case InitThrows => p.(worker := Exited)
    case CheckRunning => p.(worker := if p.running then AtLock else Exited)
    case Acquire => p.(worker := if p.incoming != [] then Locked else Waiting)
    case Wake(timedOut) =>
      p.(worker := if p.incoming != [] then Locked else if timedOut then AtCheck else Waiting)
    case TakeFront =>
      if p.incoming == [] then p.(fault := FrontOfEmptyQueue)
      else p.(worker := Handling(p.incoming[0]),
              incoming := p.incoming[1..],
              dequeued := p.dequeued + [p.incoming[0]])
    case HandlerReturns => p.(worker := AtCheck)
    // with a command parser the loop catches the exception; without one it ends the thread
    case HandlerThrows => p.(worker := if p.parser.Some? then AtCheck else Exited)
    case CallStart => p.(control := SetRunning)
    case CallStop => p.(control := StopCheck(Return))
    case CallRestart => p.(control := StopCheck(Respawn))
    case CallReload => p.(control := StopCheck(Destroy))
    case Advance => ApplyAdvance(p)
  }

  // --- Runs ---------------------------------------------------------------------------

  predicate Possible(p: Plugin, actions: seq<Action>)
    decreases |actions|
  {
    actions == [] || (Enabled(p, actions[0]) && Possible(Apply(p, actions[0]), actions[1..]))
  }

  function Exec(p: Plugin, actions: seq<Action>): Plugin
    decreases |actions|
  {
    if actions == [] then p else Exec(Apply(p, actions[0]), actions[1..])
  }

  /** The messages delivered by a run, in order. */
  function Received(actions: seq<Action>): seq<IRCMessage> {
    if actions == [] then []
    else (if actions[0].Receive? then [actions[0].msg] else []) + Received(actions[1..])
  }

  // --- The invariant --------------------------------------------------------------------

  predicate Inv(p: Plugin) {
    && p.fault == NoFault
    && (p.worker == Locked ==> p.incoming != [])
    && (p.worker.Handling? ==> p.dequeued != [] && p.dequeued[|p.dequeued| - 1] == p.worker.msg)
    && (!p.spawned ==> p.worker == NoThread)
    && (p.control in {SetRunning, MakeThread, Destroyed} || p.control.Shutdown? || p.control.StopDone? ==>
          p.worker == NoThread)
    && (p.control == MakeThread ==> p.running)
    && ((p.control == Idle || p.control.StopCheck?) && !p.running ==> p.worker == NoThread)
  }

  lemma InvStep(p: Plugin, a: Action)
    requires Inv(p) && Enabled(p, a)
    ensures Inv(Apply(p, a))
    ensures Apply(p, a).dequeued + Apply(p, a).incoming
         == p.dequeued + p.incoming + (if a.Receive? then [a.msg] else [])
  {
    if a == Advance {
      AdvanceKeepsInv(p);
    }
    NothingLost(p, a);
  }

  lemma AdvanceKeepsInv(p: Plugin)
    requires Inv(p) && Enabled(p, Advance)
    ensures Inv(ApplyAdvance(p))
  {
  }

  /** Each message is in the queue or taken, in the order of arrival. */
  lemma NothingLost(p: Plugin, a: Action)
    ensures Apply(p, a).dequeued + Apply(p, a).incoming
         == p.dequeued + p.incoming + (if a.Receive? then [a.msg] else [])
  {
    match a
    case Receive(msg) => assert p.dequeued + (p.incoming + [msg]) == p.dequeued + p.incoming + [msg];
    case TakeFront =>
      assert p.incoming == [] || p.incoming == [p.incoming[0]] + p.incoming[1..];
      assert p.dequeued + p.incoming + [] == p.dequeued + p.incoming;
    case _ => assert p.dequeued + p.incoming + [] == p.dequeued + p.incoming;
  }

  lemma {:induction false} RunKeepsInv(p: Plugin, actions: seq<Action>)
    requires Inv(p) && Possible(p, actions)
    ensures Inv(Exec(p, actions))
    ensures Exec(p, actions).dequeued + Exec(p, actions).incoming
         == p.dequeued + p.incoming + Received(actions)
    decreases |actions|
  {
    hide Inv, Apply, Enabled;
    if actions == [] {
      assert p.dequeued + p.incoming + [] == p.dequeued + p.incoming;
    } else {
      var a, more := actions[0], Received(actions[1..]);
      var got := if a.Receive? then [a.msg] else [];
      InvStep(p, a);
      RunKeepsInv(Apply(p, a), actions[1..]);
      assert (p.dequeued + p.incoming + got) + more == p.dequeued + p.incoming + (got + more);
    }
  }

  /**
    In every run, with exceptions, stops and restarts anywhere: the messages
    received are the messages taken followed by the queue, nothing lost,
    duplicated or reordered, and no fault ever happens: the front of an empty
    queue is never read, a live thread is never overwritten or destroyed.
   */
  lemma FifoConservation(parser: Option<char>, actions: seq<Action>)
    requires Possible(Fresh(parser), actions)
    ensures var p := Exec(Fresh(parser), actions);
            p.dequeued + p.incoming == Received(actions) && p.fault == NoFault
  {
    RunKeepsInv(Fresh(parser), actions);
    assert [] + [] + Received(actions) == Received(actions);
  }

  /** After every stop that has returned no thread is left to join. */
  lemma StopLeavesNoThread(parser: Option<char>, actions: seq<Action>)
    requires Possible(Fresh(parser), actions)
    requires Exec(Fresh(parser), actions).control.StopDone?
    ensures Exec(Fresh(parser), actions).worker == NoThread
  {
    RunKeepsInv(Fresh(parser), actions);
  }

  // --- What a stop lets through -------------------------------------------------------------

  /** The worker may still take one message without reading the flag again. */
  predicate PastCheck(w: Worker) {
    w in {AtLock, Waiting, Locked}
  }

  /** Between the clearing of the flag and the end of the join, the worker being past its own store. */
  predicate Stopping(p: Plugin, taken: nat) {
    && p.control.Join? && !p.running && p.worker != Spawned
    && taken <= |p.dequeued|
    && |p.dequeued| + (if PastCheck(p.worker) then 1 else 0) <= taken + 1
  }

  lemma StoppingStep(p: Plugin, a: Action, taken: nat)
    requires Inv(p) && Stopping(p, taken) && Enabled(p, a) && a != Advance
    ensures Stopping(Apply(p, a), taken)
  {
  }

  lemma {:induction false} StoppingRun(p: Plugin, actions: seq<Action>, taken: nat)
    requires Inv(p) && Stopping(p, taken) && Possible(p, actions) && Advance !in actions
    ensures Stopping(Exec(p, actions), taken)
    decreases |actions|
  {
    hide Inv, Apply, Enabled, Stopping;
    if actions != [] {
      InvStep(p, actions[0]);
      StoppingStep(p, actions[0], taken);
      StoppingRun(Apply(p, actions[0]), actions[1..], taken);
    }
  }

  /** A stop that is about to clear the flag, and what happens until its join is over. */
  predicate Joining(p: Plugin, actions: seq<Action>) {
    Possible(Apply(p, Advance), actions) && Advance !in actions
  }

  predicate AtMostOneMore(p: Plugin, actions: seq<Action>) {
    |Exec(Apply(p, Advance), actions).dequeued| <= |p.dequeued| + 1
  }

  /** Messages that arrive, are taken and handled, one after another. */
  function Service(msgs: seq<IRCMessage>): seq<Action> {
    if msgs == [] then []
    else OneService(msgs[0]) + Service(msgs[1..])
  }

  lemma {:induction false} ServiceRuns(p: Plugin, msgs: seq<IRCMessage>)
    requires p.running && p.worker == AtCheck && p.control != Destroyed
    ensures Possible(p, Service(msgs)) && Advance !in Service(msgs)
    ensures |Exec(p, Service(msgs)).dequeued| == |p.dequeued| + |msgs|
    decreases |msgs|
  {
    if msgs != [] {
      var next := ServeOne(p, msgs[0], Service(msgs[1..]));
      ServiceRuns(next, msgs[1..]);
    }
  }

  function OneService(m: IRCMessage): seq<Action> {
    [Receive(m), CheckRunning, Acquire, TakeFront, HandlerReturns]
  }

  lemma ServeOne(p: Plugin, m: IRCMessage, rest: seq<Action>) returns (next: Plugin)
    requires p.running && p.worker == AtCheck && p.control != Destroyed
    ensures Possible(p, OneService(m) + rest) <==> Possible(next, rest)
    ensures Exec(p, OneService(m) + rest) == Exec(next, rest)
    ensures next.running && next.worker == AtCheck && next.control == p.control
    ensures |next.dequeued| == |p.dequeued| + 1
  {
    hide Possible, Exec;
    var p1 := Apply(p, Receive(m));
    var p2 := Apply(p1, CheckRunning);
    var p3 := Apply(p2, Acquire);
    var p4 := Apply(p3, TakeFront);
    next := Apply(p4, HandlerReturns);
    var r4 := [HandlerReturns] + rest;
    var r3 := [TakeFront] + r4;
    var r2 := [Acquire] + r3;
    var r1 := [CheckRunning] + r2;
    OneStep(p4, HandlerReturns, rest);
    OneStep(p3, TakeFront, r4);
    OneStep(p2, Acquire, r3);
    OneStep(p1, CheckRunning, r2);
    OneStep(p, Receive(m), r1);
    assert OneService(m) + rest == [Receive(m)] + r1;
  }

  lemma OneStep(p: Plugin, a: Action, rest: seq<Action>)
    ensures Possible(p, [a] + rest) <==> Enabled(p, a) && Possible(Apply(p, a), rest)
    ensures Exec(p, [a] + rest) == Exec(Apply(p, a), rest)
  {
    hide Enabled, Apply;
    assert ([a] + rest)[1..] == rest;
  }

  /** A stop that the worker's own store overtakes lets any number of messages through. */
  lemma LateStoreUndoesStop(p: Plugin, msgs: seq<IRCMessage>)
    requires p.control.ClearRunning? && p.worker == Spawned
    ensures var actions := [StoreRunning, InitReturns] + Service(msgs);
            && Joining(p, actions)
            && |Exec(Apply(p, Advance), actions).dequeued| == |p.dequeued| + |msgs|
  {
    var p0 := Apply(p, Advance);
    var p1 := Apply(p0, StoreRunning);
    ServiceRuns(Apply(p1, InitReturns), msgs);
    OneStep(p1, InitReturns, Service(msgs));
    OneStep(p0, StoreRunning, [InitReturns] + Service(msgs));
    assert [StoreRunning, InitReturns] + Service(msgs) == [StoreRunning] + ([InitReturns] + Service(msgs));
  }

  /** A stop called right after a start, before the new thread has run. */
  const QUICK_STOP: seq<Action> := [CallStart, Advance, Advance, CallStop, Advance]

  /** The state in which a stop can be undone is reached by a start and an immediate stop. */
  lemma QuickStopIsPossible(parser: Option<char>)
    ensures Possible(Fresh(parser), QUICK_STOP)
    ensures var p := Exec(Fresh(parser), QUICK_STOP);
            p.control == ClearRunning(Return) && p.worker == Spawned
  {
  }

  /** So the bound fails: any number of messages can be taken during such a stop. */
  lemma StopBoundFails(parser: Option<char>, msgs: seq<IRCMessage>)
    ensures var p := Exec(Fresh(parser), QUICK_STOP);
            exists actions :: && Joining(p, actions)
                              && |Exec(Apply(p, Advance), actions).dequeued| == |p.dequeued| + |msgs|
  {
    QuickStopIsPossible(parser);
    LateStoreUndoesStop(Exec(Fresh(parser), QUICK_STOP), msgs);
  }

  /**
    In every reachable state in which a stop is about to clear the flag: whatever
    happens until its join is over, the worker takes at most one more message, if
    and only if the worker has already executed its own store to the flag.
   */
  lemma StopBoundIff(parser: Option<char>, before: seq<Action>)
    requires Possible(Fresh(parser), before)
    requires Exec(Fresh(parser), before).control.ClearRunning?
    ensures var p := Exec(Fresh(parser), before);
            (forall actions :: Joining(p, actions) ==> AtMostOneMore(p, actions)) <==> p.worker != Spawned
  {
    var p := Exec(Fresh(parser), before);
    RunKeepsInv(Fresh(parser), before);
    InvStep(p, Advance);
    if p.worker == Spawned {
      var actions := [StoreRunning, InitReturns] + Service([BLANK, BLANK]);
      LateStoreUndoesStop(p, [BLANK, BLANK]);
      assert !AtMostOneMore(p, actions);
    } else {
      forall actions | Joining(p, actions) ensures AtMostOneMore(p, actions) {
        StoppingRun(Apply(p, Advance), actions, |p.dequeued|);
      }
    }
  }

  // --- Every stop comes to its end --------------------------------------------------------------

  /** An upper bound on the steps the worker has left once the flag is down. */
  function StepsLeft(w: Worker): nat {
    match w
    case NoThread => 0
    case Exited => 0
    case AtCheck => 1
    case Handling(_) => 2
    case Locked => 3
    case Waiting => 4
    case AtLock => 5
    case InOnInit => 2
    case Spawned => 3
  }

  predicate WorkerAction(a: Action) {
    !a.Receive? && a !in {CallStart, CallStop, CallRestart, CallReload, Advance}
  }

  /** The worker's steps that do something: all but waking up to an empty queue. */
  function WorkerSteps(p: Plugin, actions: seq<Action>): nat
    decreases |actions|
  {
    if actions == [] then 0
    else
      var next := Apply(p, actions[0]);
      (if WorkerAction(actions[0]) && next != p then 1 else 0) + WorkerSteps(next, actions[1..])
  }

  lemma StoppingStepCounts(p: Plugin, a: Action, taken: nat)
    requires Inv(p) && Stopping(p, taken) && Enabled(p, a) && a != Advance
    ensures StepsLeft(Apply(p, a).worker) + (if WorkerAction(a) && Apply(p, a) != p then 1 else 0)
         <= StepsLeft(p.worker)
  {
  }

  lemma {:induction false} StoppingIsShort(p: Plugin, actions: seq<Action>, taken: nat)
    requires Inv(p) && Stopping(p, taken) && Possible(p, actions) && Advance !in actions
    ensures StepsLeft(Exec(p, actions).worker) + WorkerSteps(p, actions) <= StepsLeft(p.worker)
    decreases |actions|
  {
    hide Inv, Apply, Enabled, Stopping, WorkerAction, StepsLeft;
    if actions != [] {
      InvStep(p, actions[0]);
      StoppingStep(p, actions[0], taken);
      StoppingStepCounts(p, actions[0], taken);
      StoppingIsShort(Apply(p, actions[0]), actions[1..], taken);
    }
  }

  /** A step of the worker that does something. */
  predicate CanStep(p: Plugin, a: Action) {
    WorkerAction(a) && Enabled(p, a) && Apply(p, a) != p
  }

  /**
    A stop in time always ends: after the flag is cleared the worker takes at
    most five steps that do something, and until it has exited one more such
    step is always possible.
   */
  lemma StopInTimeEnds(parser: Option<char>, before: seq<Action>, actions: seq<Action>)
    requires Possible(Fresh(parser), before)
    requires var p := Exec(Fresh(parser), before);
             p.control.ClearRunning? && p.worker != Spawned && Joining(p, actions)
    ensures var p := Apply(Exec(Fresh(parser), before), Advance);
            && WorkerSteps(p, actions) <= 5
            && var q := Exec(p, actions);
               q.worker !in {NoThread, Exited} ==> exists a :: CanStep(q, a)
  {
    var p := Exec(Fresh(parser), before);
    RunKeepsInv(Fresh(parser), before);
    InvStep(p, Advance);
    StoppingIsShort(Apply(p, Advance), actions, |p.dequeued|);
    StoppingRun(Apply(p, Advance), actions, |p.dequeued|);
    RunKeepsInv(Apply(p, Advance), actions);
    SomeStepRemains(Exec(Apply(p, Advance), actions), |p.dequeued|);
  }

  lemma SomeStepRemains(q: Plugin, taken: nat)
    requires Inv(q) && Stopping(q, taken)
    ensures q.worker !in {NoThread, Exited} ==> exists a :: CanStep(q, a)
  {
    match q.worker
    case NoThread =>
    case Exited =>
    case Spawned =>
    case InOnInit => assert CanStep(q, InitReturns);
    case AtCheck => assert CanStep(q, CheckRunning);
    case AtLock => assert CanStep(q, Acquire);
    case Waiting => assert CanStep(q, Wake(true));
    case Locked => assert CanStep(q, TakeFront);
    case Handling(_) => assert CanStep(q, HandlerReturns);
  }
}
