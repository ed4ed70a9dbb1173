/**
  What the control calls of a plugin come to: every run of a start, stop, restart
  or reload up to its return, in every interleaving with the worker; and what an
  exception does to the worker.
 */
module PluginControl {
  import opened IRCMessages
  import opened Options
  import opened PluginWorker

  // --- Runs of one call ---------------------------------------------------------------

  predicate Resting(c: Control) {
    c == Idle || c == Destroyed
  }

  /** The steps up to and including the one with which the call returns. */
  predicate UntilReturn(p: Plugin, actions: seq<Action>)
    decreases |actions|
  {
    if Resting(p.control) then actions == []
    else actions != [] && Enabled(p, actions[0]) && UntilReturn(Apply(p, actions[0]), actions[1..])
  }

  /** A call that goes on like this. */
  predicate OnItsWay(c: Control, next: After) {
    || c in {StopCheck(next), ClearRunning(next), Join(next), Shutdown(next), StopDone(next)}
    || (next == Respawn && c in {SetRunning, MakeThread})
  }

  /** A stop ends without a thread, a start with one that is about to run, a reload in destruction. */
  predicate EndsAs(p: Plugin, next: After) {
    match next
    case Return => p.control == Idle && p.worker == NoThread
    case Respawn => p.control == Idle && p.worker == Spawned && p.running
    case Destroy => p.control == Destroyed && p.worker == NoThread && p.fault == NoFault
  }

  lemma WayGoesOn(p: Plugin, a: Action, next: After)
    requires Inv(p) && OnItsWay(p.control, next) && Enabled(p, a)
    ensures OnItsWay(Apply(p, a).control, next) || EndsAs(Apply(p, a), next)
    ensures Resting(Apply(p, a).control) ==> EndsAs(Apply(p, a), next)
  {
    if a == Advance {
      AdvanceGoesOn(p, next);
    }
  }

  lemma AdvanceGoesOn(p: Plugin, next: After)
    requires Inv(p) && OnItsWay(p.control, next) && Enabled(p, Advance)
    ensures OnItsWay(ApplyAdvance(p).control, next) || EndsAs(ApplyAdvance(p), next)
    ensures Resting(ApplyAdvance(p).control) ==> EndsAs(ApplyAdvance(p), next)
  {
  }

  lemma {:induction false} CallEnds(p: Plugin, next: After, actions: seq<Action>)
    requires Inv(p) && UntilReturn(p, actions)
    requires OnItsWay(p.control, next) || EndsAs(p, next)
    requires Resting(p.control) ==> EndsAs(p, next)
    ensures EndsAs(Exec(p, actions), next)
    decreases |actions|
  {
    hide Inv, Apply, Enabled, EndsAs;
    if Resting(p.control) {
      assert Exec(p, actions) == p;
    } else {
      assert OnItsWay(p.control, next) by { NotYetEnded(p, next); }
      InvStep(p, actions[0]);
      WayGoesOn(p, actions[0], next);
      CallEnds(Apply(p, actions[0]), next, actions[1..]);
    }
  }

  lemma NotYetEnded(p: Plugin, next: After)
    requires !Resting(p.control)
    ensures !EndsAs(p, next)
  {
  }

  // --- The shutdown hook and the flag ---------------------------------------------------------

  /** How often the shutdown hook runs. */
  function HooksRun(p: Plugin, actions: seq<Action>): nat
    decreases |actions|
  {
    if actions == [] then 0
    else (if actions[0] == Advance && p.control.Shutdown? then 1 else 0) + HooksRun(Apply(p, actions[0]), actions[1..])
  }

  /** How often it is still going to run before the call returns. */
  function HooksLeft(p: Plugin): nat {
    match p.control
    case StopCheck(_) => if p.running then 1 else 0
    case ClearRunning(_) => 1
    case Join(_) => 1
    case Shutdown(_) => 1
    case _ => 0
  }

  lemma HookStep(p: Plugin, a: Action)
    requires Inv(p) && Enabled(p, a) && !Resting(p.control)
    ensures HooksLeft(p) == (if a == Advance && p.control.Shutdown? then 1 else 0) + HooksLeft(Apply(p, a))
  {
  }

  lemma {:induction false} HooksAreCounted(p: Plugin, actions: seq<Action>)
    requires Inv(p) && UntilReturn(p, actions)
    ensures HooksRun(p, actions) == HooksLeft(p)
    decreases |actions|
  {
    hide Inv, Apply, Enabled;
    if Resting(p.control) {
      assert HooksRun(p, actions) == 0;
    } else {
      InvStep(p, actions[0]);
      HookStep(p, actions[0]);
      HooksAreCounted(Apply(p, actions[0]), actions[1..]);
    }
  }

  /** The worker executes its own store while the stop is waiting for it. */
  predicate StoresLate(p: Plugin, actions: seq<Action>)
    decreases |actions|
  {
    actions != []
    && ((actions[0] == StoreRunning && p.control.Join?) || StoresLate(Apply(p, actions[0]), actions[1..]))
  }

  /** Behind the clearing the flag is up only if a late store has raised it again. */
  predicate FlagKnown(p: Plugin, late: bool) {
    && (late ==> p.running && !p.control.StopCheck? && !p.control.ClearRunning?)
    && (!p.control.StopCheck? && !p.control.ClearRunning? && p.running ==> late)
  }

  lemma FlagStep(p: Plugin, a: Action, next: After, late: bool)
    requires Inv(p) && Enabled(p, a) && OnItsWay(p.control, next) && next != Respawn && FlagKnown(p, late)
    ensures FlagKnown(Apply(p, a), late || (a == StoreRunning && p.control.Join?))
  {
  }

  lemma {:induction false} FlagAtReturn(p: Plugin, actions: seq<Action>, next: After, late: bool)
    requires Inv(p) && UntilReturn(p, actions) && next != Respawn && FlagKnown(p, late)
    requires OnItsWay(p.control, next) || EndsAs(p, next)
    ensures Exec(p, actions).running <==> late || StoresLate(p, actions)
    decreases |actions|
  {
    hide Inv, Apply, Enabled, EndsAs, FlagKnown;
    if Resting(p.control) {
      assert Exec(p, actions) == p && !StoresLate(p, actions);
      assert p.running <==> late by { FlagAtRest(p, late); }
    } else {
      var a := actions[0];
      assert OnItsWay(p.control, next) by { NotYetEnded(p, next); }
      InvStep(p, a);
      WayGoesOn(p, a, next);
      FlagStep(p, a, next, late);
      FlagAtReturn(Apply(p, a), actions[1..], next, late || (a == StoreRunning && p.control.Join?));
    }
  }

  lemma FlagAtRest(p: Plugin, late: bool)
    requires FlagKnown(p, late) && Resting(p.control)
    ensures p.running <==> late
  {
  }

  lemma StaysStored(p: Plugin, a: Action, next: After)
    requires Inv(p) && Enabled(p, a) && OnItsWay(p.control, next) && next != Respawn && p.worker != Spawned
    ensures Apply(p, a).worker != Spawned && a != StoreRunning
  {
  }

  lemma {:induction false} NoLateStore(p: Plugin, actions: seq<Action>, next: After)
    requires Inv(p) && UntilReturn(p, actions) && next != Respawn && p.worker != Spawned
    requires OnItsWay(p.control, next) || EndsAs(p, next)
    ensures !StoresLate(p, actions)
    decreases |actions|
  {
    hide Inv, Apply, Enabled, EndsAs;
    if !Resting(p.control) {
      assert OnItsWay(p.control, next) by { NotYetEnded(p, next); }
      InvStep(p, actions[0]);
      WayGoesOn(p, actions[0], next);
      StaysStored(p, actions[0], next);
      NoLateStore(Apply(p, actions[0]), actions[1..], next);
    }
  }

  // --- Every call can return --------------------------------------------------------------------

  function StepsOfControl(c: Control): nat {
    match c
    case StopCheck(_) => 7
    case ClearRunning(_) => 6
    case Join(_) => 5
    case Shutdown(_) => 4
    case StopDone(_) => 3
    case SetRunning => 2
    case MakeThread => 1
    case _ => 0
  }

  /** A step that brings a waiting stop closer to its return. */
  function Onward(p: Plugin): Action {
    if !p.control.Join? then Advance
    else match p.worker
      case NoThread => Advance
      case Exited => Advance
      case Spawned => StoreRunning
      case InOnInit => InitThrows
      case AtCheck => CheckRunning
      case AtLock => Acquire
      case Waiting => Wake(true)
      case Locked => TakeFront
      case Handling(_) => HandlerReturns
  }

  /** A store that comes late has not got further than the start-up hook. */
  predicate LateIsEarly(p: Plugin) {
    p.control.Join? && p.running ==> p.worker in {InOnInit, Exited, NoThread}
  }

  lemma OnwardStep(p: Plugin)
    requires Inv(p) && !Resting(p.control) && LateIsEarly(p)
    ensures Enabled(p, Onward(p)) && LateIsEarly(Apply(p, Onward(p)))
    ensures var q := Apply(p, Onward(p));
            || StepsOfControl(q.control) < StepsOfControl(p.control)
            || (q.control == p.control && StepsLeft(q.worker) < StepsLeft(p.worker))
  {
  }

  lemma {:induction false} CallCanReturn(p: Plugin) returns (actions: seq<Action>)
    requires Inv(p) && LateIsEarly(p)
    ensures UntilReturn(p, actions)
    decreases StepsOfControl(p.control), StepsLeft(p.worker)
  {
    hide Inv, Apply, Enabled, LateIsEarly, Onward, StepsOfControl;
    if Resting(p.control) {
      actions := [];
    } else {
      var a := Onward(p);
      OnwardStep(p);
      InvStep(p, a);
      var rest := CallCanReturn(Apply(p, a));
      actions := [a] + rest;
      assert actions[1..] == rest;
    }
  }

  // --- The four calls -----------------------------------------------------------------------------

  lemma Idling(parser: Option<char>, before: seq<Action>, call: Action) returns (p: Plugin, q: Plugin)
    requires Possible(Fresh(parser), before) && Exec(Fresh(parser), before).control == Idle
    requires call in {CallStart, CallStop, CallRestart, CallReload} && Enabled(Exec(Fresh(parser), before), call)
    ensures p == Exec(Fresh(parser), before) && q == Apply(p, call) && Inv(p) && Inv(q)
  {
    p := Exec(Fresh(parser), before);
    RunKeepsInv(Fresh(parser), before);
    InvStep(p, call);
    q := Apply(p, call);
  }

  /** A start that has returned leaves a new thread about to run and the flag up. */
  lemma StartStarts(parser: Option<char>, before: seq<Action>, actions: seq<Action>)
    requires Possible(Fresh(parser), before) && Exec(Fresh(parser), before).control == Idle
    requires !Exec(Fresh(parser), before).spawned
    requires UntilReturn(Apply(Exec(Fresh(parser), before), CallStart), actions)
    ensures var q := Exec(Apply(Exec(Fresh(parser), before), CallStart), actions);
            q.control == Idle && q.worker == Spawned && q.running
  {
    hide Possible, Exec, UntilReturn, Inv;
    var p, q := Idling(parser, before, CallStart);
    CallEnds(q, Respawn, actions);
  }

  /**
    A restart that has returned leaves a new thread about to run and the flag up,
    whether or not the plugin was running; its shutdown hook has run once if it was.
   */
  lemma RestartRestarts(parser: Option<char>, before: seq<Action>, actions: seq<Action>)
    requires Possible(Fresh(parser), before) && Exec(Fresh(parser), before).control == Idle
    requires UntilReturn(Apply(Exec(Fresh(parser), before), CallRestart), actions)
    ensures var p := Exec(Fresh(parser), before);
            var q := Exec(Apply(p, CallRestart), actions);
            && q.control == Idle && q.worker == Spawned && q.running
            && HooksRun(Apply(p, CallRestart), actions) == if p.running then 1 else 0
  {
    hide Possible, Exec, UntilReturn, Inv, HooksRun;
    var p, q := Idling(parser, before, CallRestart);
    CallEnds(q, Respawn, actions);
    HooksAreCounted(q, actions);
  }

  /**
    A stop that has returned leaves no thread, and the flag down unless the worker
    stored to it after it was cleared, which only a thread that had not yet run can do.
   */
  lemma StopStops(parser: Option<char>, before: seq<Action>, actions: seq<Action>)
    requires Possible(Fresh(parser), before) && Exec(Fresh(parser), before).control == Idle
    requires UntilReturn(Apply(Exec(Fresh(parser), before), CallStop), actions)
    ensures var p := Exec(Fresh(parser), before);
            var q := Exec(Apply(p, CallStop), actions);
            && q.control == Idle && q.worker == NoThread
            && (q.running <==> StoresLate(Apply(p, CallStop), actions))
            && (p.worker != Spawned ==> !q.running)
            && HooksRun(Apply(p, CallStop), actions) == if p.running then 1 else 0
  {
    hide Possible, Exec, UntilReturn, Inv, HooksRun, StoresLate;
    var p, q := Idling(parser, before, CallStop);
    CallEnds(q, Return, actions);
    HooksAreCounted(q, actions);
    FlagAtReturn(q, actions, Return, false);
    if p.worker != Spawned {
      NoLateStore(q, actions, Return);
    }
  }

  lemma OneStepOn(p: Plugin, a: Action, rest: seq<Action>)
    requires !Resting(p.control) && Enabled(p, a) && UntilReturn(Apply(p, a), rest)
    ensures UntilReturn(p, [a] + rest) && Exec(p, [a] + rest) == Exec(Apply(p, a), rest)
  {
    hide Enabled, Apply;
    assert ([a] + rest)[1..] == rest;
  }

  /** A thread that had not yet run undoes the stop by storing between the clearing and the join. */
  lemma UndoneStop(p: Plugin) returns (actions: seq<Action>)
    requires Inv(p) && p.control == Idle && p.worker == Spawned
    ensures UntilReturn(Apply(p, CallStop), actions) && Exec(Apply(p, CallStop), actions).running
  {
    hide UntilReturn, Exec;
    var p0 := Apply(p, CallStop);
    var p1 := Apply(p0, Advance);
    var p2 := Apply(p1, Advance);
    var p3 := Apply(p2, StoreRunning);
    var rest := CallCanReturn(p3);
    FlagAtReturn(p3, rest, Return, true);
    OneStepOn(p2, StoreRunning, rest);
    OneStepOn(p1, Advance, [StoreRunning] + rest);
    actions := [Advance] + ([Advance] + ([StoreRunning] + rest));
    OneStepOn(p0, Advance, [Advance] + ([StoreRunning] + rest));
  }

  /** Every run of a stop leaves the flag down if and only if the thread had already run. */
  lemma StopIsKeptIff(parser: Option<char>, before: seq<Action>)
    requires Possible(Fresh(parser), before) && Exec(Fresh(parser), before).control == Idle
    ensures var p := Exec(Fresh(parser), before);
            (forall actions | UntilReturn(Apply(p, CallStop), actions) :: !Exec(Apply(p, CallStop), actions).running)
            <==> p.worker != Spawned
  {
    hide Possible, Exec, UntilReturn;
    var p, q := Idling(parser, before, CallStop);
    if p.worker == Spawned {
      var actions := UndoneStop(p);
    } else {
      forall actions | UntilReturn(q, actions) ensures !Exec(q, actions).running {
        StopStops(parser, before, actions);
      }
    }
  }

  /** A reload destroys the plugin without a thread left, after its hook if it was running. */
  lemma ReloadDestroys(parser: Option<char>, before: seq<Action>, actions: seq<Action>)
    requires Possible(Fresh(parser), before) && Exec(Fresh(parser), before).control == Idle
    requires UntilReturn(Apply(Exec(Fresh(parser), before), CallReload), actions)
    ensures var p := Exec(Fresh(parser), before);
            var q := Exec(Apply(p, CallReload), actions);
            && q.control == Destroyed && q.worker == NoThread && q.fault == NoFault
            && HooksRun(Apply(p, CallReload), actions) == if p.running then 1 else 0
  {
    hide Possible, Exec, UntilReturn, Inv, HooksRun;
    var p, q := Idling(parser, before, CallReload);
    CallEnds(q, Destroy, actions);
    HooksAreCounted(q, actions);
  }

  /** In every idle state every call can be made, a start only once, and has a run in which it returns. */
  lemma EveryCallCanReturn(parser: Option<char>, before: seq<Action>, call: Action) returns (actions: seq<Action>)
    requires Possible(Fresh(parser), before) && Exec(Fresh(parser), before).control == Idle
    requires call in {CallStop, CallRestart, CallReload}
             || (call == CallStart && !Exec(Fresh(parser), before).spawned)
    ensures Enabled(Exec(Fresh(parser), before), call)
    ensures UntilReturn(Apply(Exec(Fresh(parser), before), call), actions)
  {
    hide Possible, Exec, UntilReturn;
    var p, q := Idling(parser, before, call);
    actions := CallCanReturn(q);
  }

  // --- Waiting ---------------------------------------------------------------------------------------

  /** Without a message and without a timeout the wait goes on, however often it is woken. */
  lemma {:induction false} WaitGoesOn(p: Plugin, actions: seq<Action>)
    requires p.worker == Waiting && p.incoming == [] && Possible(p, actions)
    requires forall a | a in actions :: !a.Receive? && a != Wake(true) && a != Advance
    ensures Exec(p, actions).worker == Waiting && Exec(p, actions).dequeued == p.dequeued
    decreases |actions|
  {
    if actions != [] {
      assert actions[0] in actions;
      WaitGoesOn(Apply(p, actions[0]), actions[1..]);
    }
  }

  /** Once there is a message, being woken for whatever reason leads to handling the oldest one. */
  lemma WakeTakesFront(p: Plugin, timedOut: bool)
    requires p.worker == Waiting && p.incoming != []
    ensures Possible(p, [Wake(timedOut), TakeFront])
    ensures var q := Exec(p, [Wake(timedOut), TakeFront]);
            q.worker == Handling(p.incoming[0]) && q.incoming == p.incoming[1..]
  {
    hide Possible, Exec;
    var p1 := Apply(p, Wake(timedOut));
    var p2 := Apply(p1, TakeFront);
    assert [Wake(timedOut), TakeFront] == [Wake(timedOut)] + ([TakeFront] + []);
    OneStep(p1, TakeFront, []);
    OneStep(p, Wake(timedOut), [TakeFront] + []);
    assert Possible(p2, []) && Exec(p2, []) == p2 by { NothingRuns(p2); }
  }

  lemma NothingRuns(p: Plugin)
    ensures Possible(p, []) && Exec(p, []) == p
  {
  }

  // --- Exceptions -------------------------------------------------------------------------------------

  /** Messages that arrive, are taken and end in an exception, one after another. */
  function Failing(msgs: seq<IRCMessage>): seq<Action> {
    if msgs == [] then []
    else FailOne(msgs[0]) + Failing(msgs[1..])
  }

  function FailOne(m: IRCMessage): seq<Action> {
    [Receive(m), CheckRunning, Acquire, TakeFront, HandlerThrows]
  }

  lemma OneFailure(p: Plugin, m: IRCMessage, rest: seq<Action>) returns (next: Plugin)
    requires p.parser.Some? && p.running && p.worker == AtCheck && p.control != Destroyed
    ensures Possible(p, FailOne(m) + rest) <==> Possible(next, rest)
    ensures Exec(p, FailOne(m) + rest) == Exec(next, rest)
    ensures next.parser == p.parser && next.running && next.worker == AtCheck && next.control == p.control
    ensures |next.dequeued| == |p.dequeued| + 1
  {
    hide Possible, Exec;
    var p1 := Apply(p, Receive(m));
    var p2 := Apply(p1, CheckRunning);
    var p3 := Apply(p2, Acquire);
    var p4 := Apply(p3, TakeFront);
    next := Apply(p4, HandlerThrows);
    var r4 := [HandlerThrows] + rest;
    var r3 := [TakeFront] + r4;
    var r2 := [Acquire] + r3;
    var r1 := [CheckRunning] + r2;
    OneStep(p4, HandlerThrows, rest);
    OneStep(p3, TakeFront, r4);
    OneStep(p2, Acquire, r3);
    OneStep(p1, CheckRunning, r2);
    OneStep(p, Receive(m), r1);
    assert FailOne(m) + rest == [Receive(m)] + r1;
  }

  /** With a command parser the worker survives any number of exceptions. */
  lemma {:induction false} ExceptionsAreCaught(p: Plugin, msgs: seq<IRCMessage>)
    requires p.parser.Some? && p.running && p.worker == AtCheck && p.control != Destroyed
    ensures Possible(p, Failing(msgs))
    ensures Exec(p, Failing(msgs)).worker == AtCheck
    ensures |Exec(p, Failing(msgs)).dequeued| == |p.dequeued| + |msgs|
    decreases |msgs|
  {
    if msgs != [] {
      var next := OneFailure(p, msgs[0], Failing(msgs[1..]));
      ExceptionsAreCaught(next, msgs[1..]);
    }
  }

  /** A thread that has ended takes no message, until control joins it and makes another. */
  lemma {:induction false} EndedTakesNothing(p: Plugin, actions: seq<Action>)
    requires p.worker == Exited && Possible(p, actions) && Advance !in actions
    ensures Exec(p, actions).worker == Exited && Exec(p, actions).dequeued == p.dequeued
    decreases |actions|
  {
    if actions != [] {
      EndedTakesNothing(Apply(p, actions[0]), actions[1..]);
    }
  }

  /** Without a command parser, and in the start-up hook, an exception ends the thread for good. */
  lemma UncaughtExceptionEndsThread(p: Plugin, a: Action, actions: seq<Action>)
    requires (p.parser.None? && a == HandlerThrows) || a == InitThrows
    requires Enabled(p, a) && Possible(Apply(p, a), actions) && Advance !in actions
    ensures Exec(Apply(p, a), actions).worker == Exited && Exec(Apply(p, a), actions).dequeued == p.dequeued
  {
    hide Possible, Exec;
    EndedTakesNothing(Apply(p, a), actions);
  }
}
