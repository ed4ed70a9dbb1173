/**
  The whole path of a message: bytes arrive in chunks, the network thread parses
  them and offers each message to each plugin in turn; plugins are loaded, join
  over TCP, are reloaded or removed at any time between two receive handlers; and
  their workers and the control thread run in between, interleaved in any way.
 */
module WholeSystem {
  import opened IRCMessages
  import opened IRCParsing
  import opened IRCChunking
  import opened IRCRoundTrip
  import opened Dispatch
  import opened IRCStream
  import W = PluginWorker

  /**
    A plugin in the vector; as history, how many calls had been received and how
    many messages had been offered to everyone when it joined.
   */
  datatype Slot = Slot(seat: Seat, plugin: W.Plugin, joined: nat, since: nat)

  /** `pending[0]` has been offered to the first `next` plugins. */
  datatype System = System(
    machine: Machine,
    slots: seq<Slot>,
    chunks: seq<string>,             // history: the bytes received
    done: seq<IRCMessage>,           // history: messages offered to every plugin
    pending: seq<IRCMessage>,
    next: nat)

  datatype Event =
    | Network(bytes: string)
    | Offer
    | Join(seat: Seat)
    | Leave(index: nat)
    | Local(index: nat, action: W.Action)

  /** The first receive is armed before any plugin is loaded. */
  const INITIAL: System := System(FRESH, [], [], [], [], 0)

  /** A step of one plugin's worker or of the control thread; what destroys the plugin is `Leave`. */
  predicate LocalStep(p: W.Plugin, a: W.Action) {
    !a.Receive? && !(a == W.Advance && p.control == W.StopDone(W.Destroy)) && W.Enabled(p, a)
  }

  predicate Enabled(s: System, e: Event) {
    match e
    case Network(_) => s.pending == []
    case Offer =>
      && s.pending != []
      && (s.next < |s.slots| && Admits(s.slots[s.next].seat, s.pending[0]) ==>
            W.Enabled(s.slots[s.next].plugin, W.Receive(s.pending[0])))
    case Join(_) => s.pending == []
    case Leave(i) => s.pending == [] && i < |s.slots|
    case Local(i, a) => i < |s.slots| && LocalStep(s.slots[i].plugin, a)
  }

  function OfferTo(slot: Slot, msg: IRCMessage): Slot {
    if Admits(slot.seat, msg) then slot.(plugin := W.Apply(slot.plugin, W.Receive(msg))) else slot
  }

  function Apply(s: System, e: Event): System
    requires Enabled(s, e)
  {
    match e
    case Network(bytes) =>
      var m := ParseChunk(s.machine, bytes);
      s.(machine := Requeue(m, []), chunks := s.chunks + [bytes], pending := m.sink.messages, next := 0)
    case Offer =>
      if s.next < |s.slots| then
        s.(slots := s.slots[s.next := OfferTo(s.slots[s.next], s.pending[0])], next := s.next + 1)
      else
        s.(done := s.done + [s.pending[0]], pending := s.pending[1..], next := 0)
    case Join(seat) => s.(slots := s.slots + [Slot(seat, W.Fresh(seat.parser), |s.chunks|, |s.done|)])
    case Leave(i) => s.(slots := s.slots[..i] + s.slots[i + 1..])
    case Local(i, a) => s.(slots := s.slots[i := s.slots[i].(plugin := W.Apply(s.slots[i].plugin, a))])
  }

  predicate Possible(s: System, events: seq<Event>)
    decreases |events|
  {
    |events| == 0 || (Enabled(s, events[0]) && Possible(Apply(s, events[0]), events[1..]))
  }

  function Exec(s: System, events: seq<Event>): System
    requires Possible(s, events)
    decreases |events|
  {
    if |events| == 0 then s else Exec(Apply(s, events[0]), events[1..])
  }

  // --- Extracting messages does not disturb the parser ------------------------------------

  function PutBefore(s: Sink, q: seq<IRCMessage>): Sink {
    s.(messages := q + s.messages)
  }

  lemma {:induction false} DrainBefore(s: Sink, q: seq<IRCMessage>, tokens: seq<Token>)
    ensures Drain(PutBefore(s, q), tokens) == PutBefore(Drain(s, tokens), q)
    decreases |tokens|
  {
    if tokens != [] {
      var t := tokens[0];
      assert q + (s.messages + [s.message]) == q + s.messages + [s.message];
      assert Absorb(PutBefore(s, q), t) == PutBefore(Absorb(s, t), q);
      DrainBefore(Absorb(s, t), q, tokens[1..]);
    }
  }

  function RunBefore(r: Run, q: seq<IRCMessage>): Run {
    r.(machine := r.machine.(sink := PutBefore(r.machine.sink, q)))
  }

  lemma StepBefore(r: Run, q: seq<IRCMessage>, x: char)
    ensures Step(RunBefore(r, q), x) == RunBefore(Step(r, x), q)
  {
    hide LexChar;
    DrainBefore(r.machine.sink, q, r.machine.tokens + LexChar(r.machine.state, r.token, x).out);
  }

  lemma {:induction false} FeedBefore(r: Run, q: seq<IRCMessage>, s: string)
    ensures Feed(RunBefore(r, q), s) == RunBefore(Feed(r, s), q)
    decreases |s|
  {
    hide Step;
    if s != "" {
      StepBefore(r, q, s[0]);
      FeedBefore(Step(r, s[0]), q, s[1..]);
    }
  }

  /** Messages that are extracted before a call would only have stood in front of the new ones. */
  lemma ExtractionIsHarmless(m: Machine, chunk: string)
    ensures ParseChunk(m, chunk)
         == Requeue(ParseChunk(Requeue(m, []), chunk),
                    m.sink.messages + ParseChunk(Requeue(m, []), chunk).sink.messages)
  {
    hide Feed;
    var r := Run(Requeue(m, []), "");
    FeedBefore(r, m.sink.messages, chunk);
    assert m.sink.messages + [] == m.sink.messages;
    assert RunBefore(r, m.sink.messages) == Run(m, "");
  }

  // --- The invariant ------------------------------------------------------------------------

  /** What plugin `i` would have been offered so far, had it been there from the beginning. */
  function Offered(s: System, i: nat): seq<IRCMessage> {
    s.done + (if i < s.next && s.pending != [] then [s.pending[0]] else [])
  }

  /** What a plugin has taken, in order, followed by what waits in its queue. */
  function Share(slot: Slot): seq<IRCMessage> {
    slot.plugin.dequeued + slot.plugin.incoming
  }

  /** The messages that a run of calls yields from the start. */
  function Yield(chunks: seq<string>): seq<IRCMessage> {
    ParseChunks(FRESH, chunks).sink.messages
  }

  predicate SlotInv(slot: Slot, offered: seq<IRCMessage>) {
    && W.Inv(slot.plugin)
    && slot.plugin.parser == slot.seat.parser
    && slot.since <= |offered|
    && Share(slot) == Admitted(slot.seat, offered[slot.since..])
  }

  /** The plugin joined when exactly the messages of the first calls had been offered. */
  predicate JoinedAt(slot: Slot, chunks: seq<string>) {
    slot.joined <= |chunks| && slot.since == |Yield(chunks[..slot.joined])|
  }

  predicate SystemInv(s: System) {
    && s.next <= |s.slots|
    && (s.pending == [] ==> s.next == 0)
    && (forall i | 0 <= i < |s.slots| ::
          SlotInv(s.slots[i], Offered(s, i)) && s.slots[i].since <= |s.done| && JoinedAt(s.slots[i], s.chunks))
    && s.machine == Requeue(ParseChunks(FRESH, s.chunks), [])
    && s.done + s.pending == Yield(s.chunks)
  }

  lemma InitialInv()
    ensures SystemInv(INITIAL)
  {
    assert ParseChunks(FRESH, []) == FRESH;
  }

  lemma StillJoined(slot: Slot, chunks: seq<string>, bytes: string)
    requires JoinedAt(slot, chunks)
    ensures JoinedAt(slot, chunks + [bytes])
  {
    assert (chunks + [bytes])[..slot.joined] == chunks[..slot.joined];
  }

  lemma NetworkKeepsInv(s: System, bytes: string)
    requires SystemInv(s) && Enabled(s, Network(bytes))
    ensures SystemInv(Apply(s, Network(bytes)))
  {
    hide ParseChunk, W.Inv, Admitted, JoinedAt;
    var before, after := ParseChunks(FRESH, s.chunks), Apply(s, Network(bytes));
    ChunksAppend(FRESH, s.chunks, bytes);
    ExtractionIsHarmless(before, bytes);
    assert s.done + [] == s.done;
    forall i | 0 <= i < |s.slots|
      ensures SlotInv(after.slots[i], Offered(after, i)) && JoinedAt(after.slots[i], after.chunks)
    {
      StillJoined(s.slots[i], s.chunks, bytes);
      assert Offered(after, i) == Offered(s, i);
    }
  }

  lemma OfferKeepsInv(s: System)
    requires SystemInv(s) && Enabled(s, Offer)
    ensures SystemInv(Apply(s, Offer))
  {
    if s.next == |s.slots| {
      LastOfferKeepsInv(s);
    } else {
      OneOfferKeepsInv(s);
    }
  }

  /** The front message is offered to the next plugin. */
  lemma OneOfferKeepsInv(s: System)
    requires SystemInv(s) && Enabled(s, Offer) && s.next < |s.slots|
    ensures SystemInv(Apply(s, Offer))
  {
    hide ParseChunks, SlotInv, JoinedAt, W.Enabled, Admits, W.Apply;
    var msg, after := s.pending[0], Apply(s, Offer);
    forall i | 0 <= i < |s.slots|
      ensures SlotInv(after.slots[i], Offered(after, i))
      ensures after.slots[i].since <= |after.done| && JoinedAt(after.slots[i], after.chunks)
    {
      assert s.done + [] == s.done;
      if i == s.next {
        OfferToSlot(s.slots[i], Offered(s, i), msg);
        OfferIsLocal(s.slots[i], msg, s.chunks);
        assert Offered(after, i) == Offered(s, i) + [msg];
      } else {
        assert Offered(after, i) == Offered(s, i);
      }
    }
  }

  lemma OfferIsLocal(slot: Slot, msg: IRCMessage, chunks: seq<string>)
    ensures OfferTo(slot, msg).since == slot.since
    ensures JoinedAt(OfferTo(slot, msg), chunks) <==> JoinedAt(slot, chunks)
  {
  }

  /** The front message has been offered to every plugin. */
  lemma LastOfferKeepsInv(s: System)
    requires SystemInv(s) && Enabled(s, Offer) && s.next == |s.slots|
    ensures SystemInv(Apply(s, Offer))
  {
    hide ParseChunks, SlotInv, JoinedAt;
    var msg, after := s.pending[0], Apply(s, Offer);
    forall i | 0 <= i < |s.slots| ensures SlotInv(after.slots[i], Offered(after, i)) {
      assert Offered(after, i) == Offered(s, i);
    }
    assert s.done + s.pending == (s.done + [msg]) + s.pending[1..];
  }

  lemma OfferToSlot(slot: Slot, offered: seq<IRCMessage>, msg: IRCMessage)
    requires SlotInv(slot, offered)
    requires Admits(slot.seat, msg) ==> W.Enabled(slot.plugin, W.Receive(msg))
    ensures SlotInv(OfferTo(slot, msg), offered + [msg])
  {
    hide W.Inv, Admits, Admitted;
    var heard := offered[slot.since..];
    assert (offered + [msg])[slot.since..] == heard + [msg];
    AdmittedAppend(slot.seat, heard, msg);
    if Admits(slot.seat, msg) {
      W.InvStep(slot.plugin, W.Receive(msg));
    } else {
      assert Admitted(slot.seat, heard) + [] == Admitted(slot.seat, heard);
    }
  }

  lemma JoinKeepsInv(s: System, seat: Seat)
    requires SystemInv(s) && Enabled(s, Join(seat))
    ensures SystemInv(Apply(s, Join(seat)))
  {
    hide ParseChunks, SlotInv, JoinedAt;
    var after := Apply(s, Join(seat));
    var n := |s.slots|;
    FreshSlot(seat, |s.chunks|, s.done);
    NowJoined(after.slots[n], s.chunks, s.done);
    assert s.done + [] == s.done;
    forall i | 0 <= i < |after.slots|
      ensures SlotInv(after.slots[i], Offered(after, i))
      ensures after.slots[i].since <= |after.done| && JoinedAt(after.slots[i], after.chunks)
    {
      assert Offered(after, i) == s.done;
      assert i < n ==> Offered(s, i) == s.done;
    }
  }

  lemma FreshSlot(seat: Seat, joined: nat, done: seq<IRCMessage>)
    ensures SlotInv(Slot(seat, W.Fresh(seat.parser), joined, |done|), done)
  {
    assert done[|done|..] == [];
  }

  lemma NowJoined(slot: Slot, chunks: seq<string>, done: seq<IRCMessage>)
    requires done == Yield(chunks) && slot.joined == |chunks| && slot.since == |done|
    ensures JoinedAt(slot, chunks)
  {
    assert chunks[..|chunks|] == chunks;
  }

  lemma LeaveKeepsInv(s: System, index: nat)
    requires SystemInv(s) && Enabled(s, Leave(index))
    ensures SystemInv(Apply(s, Leave(index)))
  {
    hide ParseChunks, SlotInv, JoinedAt;
    var after := Apply(s, Leave(index));
    forall i | 0 <= i < |after.slots|
      ensures SlotInv(after.slots[i], Offered(after, i))
      ensures after.slots[i].since <= |after.done| && JoinedAt(after.slots[i], after.chunks)
    {
      var k := if i < index then i else i + 1;
      assert after.slots[i] == s.slots[k] && Offered(after, i) == Offered(s, k);
    }
  }

  lemma LocalKeepsSlot(slot: Slot, offered: seq<IRCMessage>, a: W.Action)
    requires SlotInv(slot, offered) && LocalStep(slot.plugin, a)
    ensures SlotInv(slot.(plugin := W.Apply(slot.plugin, a)), offered)
  {
    hide W.Inv, W.Enabled, Admitted;
    var p := slot.plugin;
    W.InvStep(p, a);
    assert p.dequeued + p.incoming + [] == p.dequeued + p.incoming;
  }

  lemma LocalKeepsInv(s: System, index: nat, a: W.Action)
    requires SystemInv(s) && Enabled(s, Local(index, a))
    ensures SystemInv(Apply(s, Local(index, a)))
  {
    hide ParseChunks, SlotInv, W.Apply, LocalStep;
    var after := Apply(s, Local(index, a));
    LocalKeepsSlot(s.slots[index], Offered(s, index), a);
    forall i | 0 <= i < |s.slots|
      ensures SlotInv(after.slots[i], Offered(after, i)) && JoinedAt(after.slots[i], after.chunks)
    {
      assert Offered(after, i) == Offered(s, i);
    }
  }

  lemma StepKeepsInv(s: System, e: Event)
    requires SystemInv(s) && Enabled(s, e)
    ensures SystemInv(Apply(s, e))
  {
    hide SystemInv, Apply, Enabled;
    match e
    case Network(bytes) => NetworkKeepsInv(s, bytes);
    case Offer => OfferKeepsInv(s);
    case Join(seat) => JoinKeepsInv(s, seat);
    case Leave(i) => LeaveKeepsInv(s, i);
    case Local(i, a) => LocalKeepsInv(s, i, a);
  }

  lemma {:induction false} ExecKeepsInv(s: System, events: seq<Event>)
    requires SystemInv(s) && Possible(s, events)
    ensures SystemInv(Exec(s, events))
    decreases |events|
  {
    hide SystemInv, Apply, Enabled;
    if |events| > 0 {
      StepKeepsInv(s, events[0]);
      ExecKeepsInv(Apply(s, events[0]), events[1..]);
    }
  }

  lemma Reachable(events: seq<Event>) returns (s: System)
    requires Possible(INITIAL, events)
    ensures s == Exec(INITIAL, events) && SystemInv(s) && s.chunks == Bytes(events)
  {
    hide SystemInv, Possible, Exec;
    s := Exec(INITIAL, events);
    InitialInv();
    ExecKeepsInv(INITIAL, events);
    ChunksAreBytes(INITIAL, events);
    assert [] + Bytes(events) == Bytes(events);
  }

  // --- End to end ---------------------------------------------------------------------------------

  /**
    In every interleaving of all threads, with plugins coming and going: what a
    plugin has taken, followed by what waits in its queue, is the admitted
    subsequence of what was offered since it joined, in order and without a fault;
    it joined after exactly the messages of the calls before it; and the messages
    offered, followed by those still to be offered, are those of the bytes received.
   */
  lemma EndToEnd(events: seq<Event>)
    requires Possible(INITIAL, events)
    ensures var s := Exec(INITIAL, events);
            && s.chunks == Bytes(events)
            && s.done + s.pending == Yield(s.chunks)
            && forall i | 0 <= i < |s.slots| ::
                 && s.slots[i].plugin.fault == W.NoFault
                 && JoinedAt(s.slots[i], s.chunks)
                 && s.slots[i].since <= |s.done|
                 && Share(s.slots[i]) == Admitted(s.slots[i].seat, Offered(s, i)[s.slots[i].since..])
  {
    hide ParseChunks, Possible, Exec;
    var s := Reachable(events);
  }

  /** A share since joining is the share of everything exactly when nothing admitted came before. */
  lemma LateShareIff(slot: Slot, ms: seq<IRCMessage>)
    requires slot.since <= |ms| && Share(slot) == Admitted(slot.seat, ms[slot.since..])
    ensures Share(slot) == Admitted(slot.seat, ms) <==> Admitted(slot.seat, ms[..slot.since]) == []
  {
    hide Admitted;
    assert ms == ms[..slot.since] + ms[slot.since..];
    AdmittedConcat(slot.seat, ms[..slot.since], ms[slot.since..]);
    var early, late := Admitted(slot.seat, ms[..slot.since]), Admitted(slot.seat, ms[slot.since..]);
    if early == [] {
      assert early + late == late;
    } else {
      assert |early + late| != |late|;
    }
  }

  /**
    In every run, exactly: a plugin has its part of all messages ever offered if
    and only if it admits none of those of the calls before it joined.
   */
  lemma WholeShareIff(events: seq<Event>, i: nat)
    requires Possible(INITIAL, events) && i < |Exec(INITIAL, events).slots|
    ensures var s := Exec(INITIAL, events);
            var slot := s.slots[i];
            slot.joined <= |Bytes(events)|
            && (Share(slot) == Admitted(slot.seat, Offered(s, i))
                <==> Admitted(slot.seat, Yield(Bytes(events)[..slot.joined])) == [])
  {
    hide ParseChunks, Possible, Exec, Admitted;
    var s := Reachable(events);
    var slot := s.slots[i];
    assert SlotInv(slot, Offered(s, i)) && slot.since <= |s.done| && JoinedAt(slot, s.chunks);
    LateShareIff(slot, Offered(s, i));
    EarlierYield(slot, s.chunks);
    assert Offered(s, i)[..slot.since] == s.done[..slot.since] == Yield(s.chunks)[..slot.since];
  }

  /** The messages before a plugin joined are those of the calls before it joined. */
  lemma EarlierYield(slot: Slot, chunks: seq<string>)
    requires JoinedAt(slot, chunks)
    ensures slot.since <= |Yield(chunks)| && Yield(chunks)[..slot.since] == Yield(chunks[..slot.joined])
  {
    hide Yield;
    assert chunks == chunks[..slot.joined] + chunks[slot.joined..];
    YieldGrows(chunks[..slot.joined], chunks[slot.joined..]);
  }

  /** Later calls only add messages. */
  lemma {:induction false} YieldGrows(a: seq<string>, b: seq<string>)
    ensures Yield(a) <= Yield(a + b)
    decreases |b|
  {
    hide ParseChunks, ParseChunk;
    if b == [] {
      assert a + b == a;
    } else {
      var n := |b| - 1;
      YieldGrows(a, b[..n]);
      assert a + b == (a + b[..n]) + [b[n]];
      ChunksAppend(FRESH, a + b[..n], b[n]);
      ExtractionIsHarmless(ParseChunks(FRESH, a + b[..n]), b[n]);
    }
  }

  /** The chunks that the network delivers in a run. */
  function Bytes(events: seq<Event>): seq<string> {
    if |events| == 0 then []
    else (if events[0].Network? then [events[0].bytes] else []) + Bytes(events[1..])
  }

  lemma {:induction false} ChunksAreBytes(s: System, events: seq<Event>)
    requires Possible(s, events)
    ensures Exec(s, events).chunks == s.chunks + Bytes(events)
    decreases |events|
  {
    hide Apply, Enabled;
    if |events| == 0 {
      assert s.chunks + [] == s.chunks;
    } else {
      var next := Apply(s, events[0]);
      var got := if events[0].Network? then [events[0].bytes] else [];
      ChunkArrives(s, events[0]);
      ChunksAreBytes(next, events[1..]);
      assert (s.chunks + got) + Bytes(events[1..]) == s.chunks + (got + Bytes(events[1..]));
    }
  }

  lemma ChunkArrives(s: System, e: Event)
    requires Enabled(s, e)
    ensures Apply(s, e).chunks == s.chunks + (if e.Network? then [e.bytes] else [])
  {
    hide ParseChunk, W.Apply, W.Enabled, Admits;
    assert s.chunks + [] == s.chunks;
  }

  // --- What arrives -----------------------------------------------------------------------------

  /** The plugin's share is what it admits of `ms`, from where it joined, in order. */
  predicate HasItsPart(slot: Slot, ms: seq<IRCMessage>) {
    slot.since <= |ms| && Share(slot) == Admitted(slot.seat, ms[slot.since..])
  }

  /** Every plugin has its part, and its part of everything if nothing it admits came before it. */
  predicate EveryoneHas(slots: seq<Slot>, ms: seq<IRCMessage>) {
    forall i | 0 <= i < |slots| ::
      && HasItsPart(slots[i], ms)
      && (Share(slots[i]) == Admitted(slots[i].seat, ms)
          <==> Admitted(slots[i].seat, ms[..slots[i].since]) == [])
  }

  lemma QuiescentIsDone(s: System)
    requires SystemInv(s) && s.pending == []
    ensures EveryoneHas(s.slots, Yield(s.chunks))
  {
    hide ParseChunks, W.Inv, Admitted;
    assert s.done + [] == s.done;
    forall i | 0 <= i < |s.slots|
      ensures HasItsPart(s.slots[i], s.done)
      ensures Share(s.slots[i]) == Admitted(s.slots[i].seat, s.done)
              <==> Admitted(s.slots[i].seat, s.done[..s.slots[i].since]) == []
    {
      assert Offered(s, i) == s.done;
      LateShareIff(s.slots[i], s.done);
    }
  }

  /**
    Once everything received has been offered and no call cut a token: every
    plugin's share is the admitted part of the uncut parse of the whole stream
    from where it joined.
   */
  lemma QuiescentShare(events: seq<Event>)
    requires Possible(INITIAL, events)
    requires Exec(INITIAL, events).pending == [] && HarmlessCuts(FRESH, Bytes(events))
    ensures EveryoneHas(Exec(INITIAL, events).slots, ParseChunk(FRESH, Flatten(Bytes(events))).sink.messages)
  {
    hide ParseChunks, ParseChunk, Possible, Exec, HarmlessCuts, EveryoneHas;
    var s := Reachable(events);
    QuiescentIsDone(s);
    HarmlessCutsJoin(FRESH, Bytes(events));
  }

  /** In particular when every call delivers whole lines. */
  lemma WholeLinesShare(events: seq<Event>)
    requires Possible(INITIAL, events)
    requires Exec(INITIAL, events).pending == [] && WholeLines(Bytes(events))
    ensures EveryoneHas(Exec(INITIAL, events).slots, ParseChunk(FRESH, Flatten(Bytes(events))).sink.messages)
  {
    hide ParseChunks, ParseChunk, Possible, Exec, HarmlessCuts, EveryoneHas;
    WholeLinesAreHarmless(Bytes(events));
    QuiescentShare(events);
  }

  /**
    From the grammar to the plugins: lines that are understood, cut anywhere but
    inside a token, reach each plugin as the grammar means them, filtered, in order
    and from where it joined.
   */
  lemma UnderstoodStreamArrives(events: seq<Event>, items: seq<Item>)
    requires Possible(INITIAL, events)
    requires Exec(INITIAL, events).pending == [] && HarmlessCuts(FRESH, Bytes(events))
    requires Flatten(Bytes(events)) == StreamText(items)
    requires StreamDerivable(items) && StreamUnderstood(items)
    ensures EveryoneHas(Exec(INITIAL, events).slots, Meanings(items))
  {
    hide ParseChunks, ParseChunk, Possible, Exec, HarmlessCuts, StreamText, Meanings, EveryoneHas;
    QuiescentShare(events);
    StreamIff(items, []);
    assert [] + Meanings(items) == Meanings(items);
  }

  /** Printed messages, received one a call, reach each plugin normalised, filtered and in order. */
  lemma PrintedMessagesArrive(events: seq<Event>, ms: seq<IRCMessage>)
    requires Possible(INITIAL, events)
    requires forall i | 0 <= i < |ms| :: Printable(ms[i])
    requires Exec(INITIAL, events).pending == [] && Bytes(events) == Texts(ms)
    ensures EveryoneHas(Exec(INITIAL, events).slots, Normalised(ms))
  {
    hide ParseChunks, ParseChunk, Possible, Exec, Printable, EveryoneHas;
    var s := Reachable(events);
    QuiescentIsDone(s);
    StreamRoundTrip(ms, []);
    assert [] + Normalised(ms) == Normalised(ms);
  }

  lemma {:induction false} AdmittedAreAdmitted(seat: Seat, ms: seq<IRCMessage>, m: IRCMessage)
    requires m in Admitted(seat, ms)
    ensures Admits(seat, m) && m in ms
    decreases |ms|
  {
    if m in Admitted(seat, ms[..|ms| - 1]) {
      AdmittedAreAdmitted(seat, ms[..|ms| - 1], m);
    }
  }

  /** No worker ever meets a message that it has no branch for or whose prefix is missing. */
  lemma HandledMessagesAreAdmitted(events: seq<Event>, i: nat)
    requires Possible(INITIAL, events) && i < |Exec(INITIAL, events).slots|
    requires Exec(INITIAL, events).slots[i].plugin.worker.Handling?
    ensures var slot := Exec(INITIAL, events).slots[i];
            var msg := slot.plugin.worker.msg;
            && Admits(slot.seat, msg)
            && BranchOf(slot.seat.parser, msg) != Neither
            && (BranchOf(slot.seat.parser, msg).NotParsed? ==>
                  BranchOf(slot.seat.parser, msg).error.BadCharacter?)
  {
    hide ParseChunks, Possible, Exec, Admitted;
    var s := Reachable(events);
    var slot := s.slots[i];
    assert SlotInv(slot, Offered(s, i));
    assert slot.plugin.worker.msg in Share(slot);
    AdmittedAreAdmitted(slot.seat, Offered(s, i)[slot.since..], slot.plugin.worker.msg);
    SafeAdmission(slot.seat.parser, slot.plugin.worker.msg);
  }

  /** What was received before the plugins were loaded reaches none of them. */
  lemma GreetingIsMissed(seat: Seat, greeting: IRCMessage)
    requires Printable(greeting) && Admits(seat, Normalise(greeting))
    ensures var events := [Network(Text(greeting)), Offer, Join(seat)];
            && Possible(INITIAL, events)
            && Yield(Bytes(events)) == [Normalise(greeting)]
            && Exec(INITIAL, events).pending == []
            && |Exec(INITIAL, events).slots| == 1
            && Share(Exec(INITIAL, events).slots[0]) == []
            && Admitted(seat, Yield(Bytes(events))) == [Normalise(greeting)]
  {
    hide ParseChunk, Printable, Admits, Text, Normalise;
    var text, msg := Text(greeting), Normalise(greeting);
    var events := [Network(text), Offer, Join(seat)];
    RoundTripIff(greeting);
    assert ParseChunk(FRESH, text).sink.messages == [msg];
    var s1 := Apply(INITIAL, Network(text));
    var s2 := Apply(s1, Offer);
    var s3 := Apply(s2, Join(seat));
    assert s1.pending == [msg] && s1.slots == [];
    assert s2.pending == [] && s2.slots == [];
    assert s3.slots == [Slot(seat, W.Fresh(seat.parser), 1, 1)];
    ThreeEvents(INITIAL, Network(text), Offer, Join(seat));
    OneCall(text, events);
    AdmittedAppend(seat, [], msg);
    assert [] + [msg] == [msg];
  }

  lemma ThreeEvents(s: System, a: Event, b: Event, c: Event)
    requires Enabled(s, a) && Enabled(Apply(s, a), b) && Enabled(Apply(Apply(s, a), b), c)
    ensures Possible(s, [a, b, c]) && Exec(s, [a, b, c]) == Apply(Apply(Apply(s, a), b), c)
  {
    hide Apply, Enabled;
    assert [a, b, c][1..] == [b, c] && [b, c][1..] == [c] && |[c][1..]| == 0;
    var s2 := Apply(Apply(s, a), b);
    assert Possible(s2, [c]) && Exec(s2, [c]) == Apply(s2, c);
  }

  lemma OneCall(text: string, events: seq<Event>)
    requires |events| == 3 && events[0] == Network(text) && !events[1].Network? && !events[2].Network?
    ensures Bytes(events) == [text] && Yield([text]) == ParseChunk(FRESH, text).sink.messages
  {
    hide ParseChunk;
    assert Bytes(events[1..][1..][1..]) == [];
    assert Bytes(events[1..][1..]) == [] && Bytes(events[1..]) == [];
    assert [text][1..] == [];
    NoChunks(ParseChunk(FRESH, text));
  }

  /** A plugin whose stop has returned leaves no live thread behind, in every run. */
  lemma StoppedPluginsLeaveNoThread(events: seq<Event>, i: nat)
    requires Possible(INITIAL, events) && i < |Exec(INITIAL, events).slots|
    requires var c := Exec(INITIAL, events).slots[i].plugin.control; c.Shutdown? || c.StopDone?
    ensures Exec(INITIAL, events).slots[i].plugin.worker == W.NoThread
  {
    hide ParseChunks, Possible, Exec, Admitted;
    var s := Reachable(events);
    assert SlotInv(s.slots[i], Offered(s, i));
  }
}
