/**
  Every plugin of the whole system runs as a plugin alone: the events that concern
  it are a run of its own worker model, whatever the others do, come or go.
 */
module WorkerHistories {
  import opened IRCMessages
  import opened Dispatch
  import opened WholeSystem
  import W = PluginWorker

  /** What an event adds to the histories of the plugins in the vector. */
  function Recorded(s: System, h: seq<seq<W.Action>>, e: Event): seq<seq<W.Action>>
    requires Enabled(s, e) && |h| == |s.slots|
  {
    match e
    case Network(_) => h
    case Offer =>
      if s.next < |h| && PreFilter(s.slots[s.next].seat.parser, s.pending[0]) && s.slots[s.next].seat.filter(s.pending[0])
      then h[s.next := h[s.next] + [W.Receive(s.pending[0])]] else h
    case Join(_) => h + [[]]
    case Leave(i) => h[..i] + h[i + 1..]
    case Local(i, a) => h[i := h[i] + [a]]
  }

  function Histories(s: System, h: seq<seq<W.Action>>, events: seq<Event>): seq<seq<W.Action>>
    requires Possible(s, events) && |h| == |s.slots|
    decreases |events|
  {
    if |events| == 0 then h
    else
      SlotCount(s, h, events[0]);
      Histories(Apply(s, events[0]), Recorded(s, h, events[0]), events[1..])
  }

  lemma SlotCount(s: System, h: seq<seq<W.Action>>, e: Event)
    requires Enabled(s, e) && |h| == |s.slots|
    ensures |Recorded(s, h, e)| == |Apply(s, e).slots|
  {
    hide W.Apply, W.Enabled, PreFilter;
  }

  /** The plugin is where its own history takes it. */
  predicate RunsAlone(slot: Slot, actions: seq<W.Action>) {
    W.Possible(W.Fresh(slot.seat.parser), actions) && W.Exec(W.Fresh(slot.seat.parser), actions) == slot.plugin
  }

  predicate AllRunAlone(slots: seq<Slot>, h: seq<seq<W.Action>>) {
    |h| == |slots| && forall i | 0 <= i < |slots| :: RunsAlone(slots[i], h[i])
  }

  lemma {:induction false} OneMore(p: W.Plugin, actions: seq<W.Action>, a: W.Action)
    requires W.Possible(p, actions) && W.Enabled(W.Exec(p, actions), a)
    ensures W.Possible(p, actions + [a]) && W.Exec(p, actions + [a]) == W.Apply(W.Exec(p, actions), a)
    decreases |actions|
  {
    hide W.Apply, W.Enabled;
    if actions == [] {
      assert actions + [a] == [a] && [a][1..] == [];
      assert W.Possible(W.Apply(p, a), []) && W.Exec(W.Apply(p, a), []) == W.Apply(p, a);
    } else {
      OneMore(W.Apply(p, actions[0]), actions[1..], a);
      assert (actions + [a])[1..] == actions[1..] + [a];
    }
  }

  lemma OneMoreAlone(slot: Slot, actions: seq<W.Action>, a: W.Action)
    requires RunsAlone(slot, actions) && W.Enabled(slot.plugin, a)
    ensures RunsAlone(slot.(plugin := W.Apply(slot.plugin, a)), actions + [a])
  {
    hide W.Apply, W.Enabled;
    OneMore(W.Fresh(slot.seat.parser), actions, a);
  }

  lemma NewAlone(seat: Seat, joined: nat, since: nat)
    ensures RunsAlone(Slot(seat, W.Fresh(seat.parser), joined, since), [])
  {
  }

  lemma OfferedAlone(slot: Slot, actions: seq<W.Action>, msg: IRCMessage)
    requires RunsAlone(slot, actions)
    requires Admits(slot.seat, msg) ==> W.Enabled(slot.plugin, W.Receive(msg))
    ensures RunsAlone(OfferTo(slot, msg),
                      if PreFilter(slot.seat.parser, msg) && slot.seat.filter(msg)
                      then actions + [W.Receive(msg)] else actions)
  {
    hide W.Enabled, W.Apply, PreFilter, RunsAlone;
    if Admits(slot.seat, msg) {
      OneMoreAlone(slot, actions, W.Receive(msg));
    }
  }

  lemma EventKeepsAlone(s: System, h: seq<seq<W.Action>>, e: Event)
    requires AllRunAlone(s.slots, h) && Enabled(s, e)
    ensures AllRunAlone(Apply(s, e).slots, Recorded(s, h, e))
  {
    hide RunsAlone, W.Apply, W.Enabled, PreFilter;
    match e
    case Network(_) =>
    case Offer =>
      if s.next < |s.slots| {
        OfferedAlone(s.slots[s.next], h[s.next], s.pending[0]);
      }
    case Join(seat) => NewAlone(seat, |s.chunks|, |s.done|);
    case Leave(i) =>
      var slots, rest := Apply(s, e).slots, Recorded(s, h, e);
      assert forall k | 0 <= k < |slots| :: slots[k] == s.slots[if k < i then k else k + 1];
      assert forall k | 0 <= k < |rest| :: rest[k] == h[if k < i then k else k + 1];
    case Local(i, a) => OneMoreAlone(s.slots[i], h[i], a);
  }

  lemma {:induction false} RunKeepsAlone(s: System, h: seq<seq<W.Action>>, events: seq<Event>)
    requires AllRunAlone(s.slots, h) && Possible(s, events)
    ensures AllRunAlone(Exec(s, events).slots, Histories(s, h, events))
    decreases |events|
  {
    hide Apply, Enabled, Recorded, RunsAlone;
    if |events| > 0 {
      EventKeepsAlone(s, h, events[0]);
      RunKeepsAlone(Apply(s, events[0]), Recorded(s, h, events[0]), events[1..]);
    }
  }

  /**
    In every run of the whole system each plugin's history is a possible run of
    that plugin alone, takes it exactly where it is, and has received what its
    share of the messages is; so all that holds of every run of one plugin holds here.
   */
  lemma PluginsRunAlone(events: seq<Event>)
    requires Possible(INITIAL, events)
    ensures var s, h := Exec(INITIAL, events), Histories(INITIAL, [], events);
            && AllRunAlone(s.slots, h)
            && forall i | 0 <= i < |s.slots| ::
                 && s.slots[i].since <= |s.done|
                 && W.Received(h[i]) == Admitted(s.slots[i].seat, Offered(s, i)[s.slots[i].since..])
  {
    hide Possible, Exec, Histories, Admitted, W.Received, W.Exec, W.Possible;
    var s, h := Exec(INITIAL, events), Histories(INITIAL, [], events);
    RunKeepsAlone(INITIAL, [], events);
    EndToEnd(events);
    forall i | 0 <= i < |s.slots|
      ensures W.Received(h[i]) == Admitted(s.slots[i].seat, Offered(s, i)[s.slots[i].since..])
    {
      W.FifoConservation(s.slots[i].seat.parser, h[i]);
    }
  }

  /** What one event changes: everything else is as before. */
  lemma EventsAreLocal(s: System, e: Event)
    requires Enabled(s, e)
    ensures var after := Apply(s, e);
            match e
            case Network(_) => after.slots == s.slots && after.done == s.done
            case Offer =>
              && |after.slots| == |s.slots| && after.machine == s.machine && after.chunks == s.chunks
              && after.done + after.pending == s.done + s.pending
              && forall k | 0 <= k < |s.slots| ::
                   after.slots[k].seat == s.slots[k].seat && (k != s.next ==> after.slots[k] == s.slots[k])
            case Join(seat) =>
              && after == s.(slots := after.slots)
              && |after.slots| == |s.slots| + 1 && s.slots <= after.slots
              && after.slots[|s.slots|] == Slot(seat, W.Fresh(seat.parser), |s.chunks|, |s.done|)
            case Leave(i) =>
              && after == s.(slots := after.slots)
              && |after.slots| == |s.slots| - 1
              && (forall k | 0 <= k < i :: after.slots[k] == s.slots[k])
              && (forall k | i <= k < |after.slots| :: after.slots[k] == s.slots[k + 1])
            case Local(i, a) =>
              && after == s.(slots := after.slots)
              && |after.slots| == |s.slots|
              && after.slots[i] == s.slots[i].(plugin := W.Apply(s.slots[i].plugin, a))
              && (forall k | 0 <= k < |s.slots| && k != i :: after.slots[k] == s.slots[k])
  {
    hide W.Apply, W.Enabled, Admits;
    if e == Offer && s.next >= |s.slots| {
      assert s.pending == [s.pending[0]] + s.pending[1..];
      assert (s.done + [s.pending[0]]) + s.pending[1..] == s.done + ([s.pending[0]] + s.pending[1..]);
    }
  }
}
