/**
  The receive handler and the queues as they run in place, and the same as steps
  of the whole system: what the code does in one go is a run of the model.
 */
module HandlerRefinement {
  import opened IRCMessages
  import opened IRCParsing
  import opened Dispatch
  import S = WholeSystem
  import W = PluginWorker

  /** The objects in memory are in the state of the model. */
  ghost predicate Coupled(parser: IRCParser, queues: seq<PluginQueue>, s: S.System)
    reads parser, queues
  {
    && parser.View() == s.machine
    && |queues| == |s.slots|
    && forall i | 0 <= i < |queues| ::
         queues[i].seat == s.slots[i].seat && queues[i].incoming == s.slots[i].plugin.incoming
  }

  /** The handler can lock the queue of every plugin. */
  predicate AllUnlocked(slots: seq<S.Slot>) {
    forall i | 0 <= i < |slots| ::
      slots[i].plugin.control != W.Destroyed && !W.HoldsMutex(slots[i].plugin.worker)
  }

  function Received(slot: S.Slot, ms: seq<IRCMessage>): S.Slot {
    slot.(plugin := slot.plugin.(incoming := slot.plugin.incoming + Admitted(slot.seat, ms)))
  }

  ghost predicate EachReceived(before: seq<S.Slot>, after: seq<S.Slot>, ms: seq<IRCMessage>) {
    |after| == |before| && forall i | 0 <= i < |before| :: after[i] == Received(before[i], ms)
  }

  lemma EventsJoin(s: S.System, e: S.Event, rest: seq<S.Event>)
    requires S.Enabled(s, e) && S.Possible(S.Apply(s, e), rest)
    ensures S.Possible(s, [e] + rest) && S.Exec(s, [e] + rest) == S.Exec(S.Apply(s, e), rest)
  {
    hide S.Enabled, S.Apply;
    assert ([e] + rest)[1..] == rest;
  }

  lemma {:induction false} EventsAppend(s: S.System, a: seq<S.Event>, b: seq<S.Event>)
    requires S.Possible(s, a) && S.Possible(S.Exec(s, a), b)
    ensures S.Possible(s, a + b) && S.Exec(s, a + b) == S.Exec(S.Exec(s, a), b)
    decreases |a|
  {
    hide S.Enabled, S.Apply;
    if |a| == 0 {
      assert a + b == b;
    } else {
      EventsAppend(S.Apply(s, a[0]), a[1..], b);
      assert (a + b)[1..] == a[1..] + b;
    }
  }

  /** The slots before `n` have been offered the message, the others not yet. */
  ghost predicate Halfway(before: seq<S.Slot>, now: seq<S.Slot>, n: nat, msg: IRCMessage) {
    && |now| == |before| && n <= |before|
    && (forall i | 0 <= i < n :: now[i] == Received(before[i], [msg]))
    && (forall i | n <= i < |before| :: now[i] == before[i])
  }

  lemma OfferedIsReceived(slot: S.Slot, msg: IRCMessage)
    requires slot.plugin.control != W.Destroyed && !W.HoldsMutex(slot.plugin.worker)
    ensures S.OfferTo(slot, msg) == Received(slot, [msg])
    ensures W.Enabled(slot.plugin, W.Receive(msg))
  {
    hide Admits;
    AdmittedAppend(slot.seat, [], msg);
    assert [] + [msg] == [msg] && [] + IfAdmitted(slot.seat, msg) == IfAdmitted(slot.seat, msg);
    assert slot.plugin.incoming + [] == slot.plugin.incoming;
  }

  /** The rest of the inner loop, from any point of it. */
  lemma {:induction false} OfferRound(s: S.System, before: seq<S.Slot>) returns (events: seq<S.Event>)
    requires s.pending != [] && AllUnlocked(before)
    requires Halfway(before, s.slots, s.next, s.pending[0])
    ensures S.Possible(s, events)
    ensures var after := S.Exec(s, events);
            && EachReceived(before, after.slots, [s.pending[0]])
            && after == s.(slots := after.slots, done := s.done + [s.pending[0]],
                           pending := s.pending[1..], next := 0)
    decreases |s.slots| - s.next
  {
    hide W.Apply, W.Enabled, Admits, Admitted, Received, S.OfferTo;
    var n, msg := s.next, s.pending[0];
    if n < |before| {
      OfferedIsReceived(before[n], msg);
      var next := S.Apply(s, S.Offer);
      var rest := OfferRound(next, before);
      EventsJoin(s, S.Offer, rest);
      events := [S.Offer] + rest;
    } else {
      events := [S.Offer];
      assert S.Possible(S.Apply(s, S.Offer), []) && S.Exec(S.Apply(s, S.Offer), []) == S.Apply(s, S.Offer);
      EventsJoin(s, S.Offer, []);
      assert [S.Offer] + [] == [S.Offer];
    }
  }

  lemma ReceivedTwice(slot: S.Slot, msg: IRCMessage, ms: seq<IRCMessage>)
    ensures Received(Received(slot, [msg]), ms) == Received(slot, [msg] + ms)
  {
    hide Admitted;
    AdmittedConcat(slot.seat, [msg], ms);
    var q := slot.plugin.incoming;
    assert (q + Admitted(slot.seat, [msg])) + Admitted(slot.seat, ms)
        == q + (Admitted(slot.seat, [msg]) + Admitted(slot.seat, ms));
  }

  /** The outer loop: every pending message is offered to every plugin. */
  lemma {:induction false} OfferAll(s: S.System) returns (events: seq<S.Event>)
    requires s.next == 0 && AllUnlocked(s.slots)
    ensures S.Possible(s, events)
    ensures var after := S.Exec(s, events);
            && EachReceived(s.slots, after.slots, s.pending)
            && after == s.(slots := after.slots, done := s.done + s.pending, pending := [])
    decreases |s.pending|
  {
    hide S.Apply, S.Enabled, Admitted;
    if s.pending == [] {
      events := [];
      assert s.done + [] == s.done;
      forall i | 0 <= i < |s.slots| ensures s.slots[i] == Received(s.slots[i], []) {
        NothingReceived(s.slots[i]);
      }
    } else {
      var msg, more := s.pending[0], s.pending[1..];
      var round := OfferRound(s, s.slots);
      var middle := S.Exec(s, round);
      var rest := OfferAll(middle);
      EventsAppend(s, round, rest);
      events := round + rest;
      assert s.pending == [msg] + more;
      assert (s.done + [msg]) + more == s.done + ([msg] + more);
      var after := S.Exec(s, events);
      forall i | 0 <= i < |s.slots| ensures after.slots[i] == Received(s.slots[i], s.pending) {
        ReceivedTwice(s.slots[i], msg, more);
      }
    }
  }

  lemma NothingReceived(slot: S.Slot)
    ensures slot == Received(slot, [])
  {
    assert slot.plugin.incoming + [] == slot.plugin.incoming;
  }

  /** One call of the handler, as events. */
  lemma HandlerRun(s: S.System, bytes: string) returns (events: seq<S.Event>)
    requires s.pending == [] && AllUnlocked(s.slots)
    ensures S.Possible(s, events)
    ensures var m := ParseChunk(s.machine, bytes);
            var after := S.Exec(s, events);
            && EachReceived(s.slots, after.slots, m.sink.messages)
            && after == s.(machine := Requeue(m, []), slots := after.slots, chunks := s.chunks + [bytes],
                           done := s.done + m.sink.messages, next := 0)
  {
    hide ParseChunk, EachReceived, AllUnlocked;
    var next := S.Apply(s, S.Network(bytes));
    var rest := OfferAll(next);
    EventsJoin(s, S.Network(bytes), rest);
    events := [S.Network(bytes)] + rest;
  }

  /**
    The handler in place refines the model: coupled before, there is a run of
    network and offer events that keeps it coupled.
   */
  method Handle(parser: IRCParser, queues: seq<PluginQueue>, bytes: string, ghost s: S.System)
    returns (ghost events: seq<S.Event>)
    requires Distinct(queues) && Coupled(parser, queues, s)
    requires s.pending == [] && AllUnlocked(s.slots)
    modifies parser, set q | q in queues :: q`incoming
    ensures S.Possible(s, events)
    ensures Coupled(parser, queues, S.Exec(s, events))
    ensures S.Exec(s, events).pending == [] && S.Exec(s, events).chunks == s.chunks + [bytes]
  {
    hide ParseChunk, S.Possible, S.Exec, Admitted, AllUnlocked;
    events := HandlerRun(s, bytes);
    HandleReceive(parser, queues, bytes);
  }

  /** The worker's removal of the front is the model's, on the same queue. */
  method Take(queue: PluginQueue, ghost p: W.Plugin) returns (m: IRCMessage, ghost after: W.Plugin)
    requires W.Inv(p) && W.Enabled(p, W.TakeFront) && queue.incoming == p.incoming
    modifies queue`incoming
    ensures after == W.Apply(p, W.TakeFront) && queue.incoming == after.incoming
    ensures after.worker == W.Handling(m) && after.fault == W.NoFault
  {
    m := queue.GetCommand();
    after := W.Apply(p, W.TakeFront);
  }
}
