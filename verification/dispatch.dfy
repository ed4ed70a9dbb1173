/** Which messages a plugin is offered, and what its worker does with each. */
module Dispatch {
  import opened Options
  import opened IRCMessages
  import opened IRCParsing
  import opened IRCShape
  import CommandParsing
  import CommandQuoting
  import CommandGrammar

  /** The first character of a string; the terminating NUL of an empty one. */
  function FirstChar(s: string): char {
    if s == "" then '\0' else s[0]
  }

  predicate IsCommand(parser: Option<char>, m: IRCMessage) {
    && parser.Some?
    && |m.params| >= 1
    && m.command == "PRIVMSG"
    && FirstChar(m.params[|m.params| - 1]) == parser.value
  }

  predicate PreFilter(parser: Option<char>, m: IRCMessage) {
    parser.None? || IsCommand(parser, m)
  }

  /** The four ways through the body of the worker's loop. */
  datatype Branch =
    | OnMessage
    | OnCommand(cmd: CommandParsing.Command)
    | NotParsed(error: CommandParsing.Result)
    | Neither

  function BranchOf(parser: Option<char>, m: IRCMessage): Branch {
    if parser.None? then OnMessage
    else if IsCommand(parser, m) then
      var r := CommandParsing.Meaning(parser.value, m.params[|m.params| - 1]);
      if r.Parsed? then OnCommand(r.cmd) else NotParsed(r)
    else Neither
  }

  /** The text that a command parser reads is the last parameter. */
  function LastParam(m: IRCMessage): string {
    if m.params == [] then "" else m.params[|m.params| - 1]
  }

  /** The command parser finds a wrong character in the command word. */
  ghost predicate BadWord(parser: Option<char>, m: IRCMessage) {
    parser.Some? && exists i: nat :: CommandParsing.Offends(parser.value, LastParam(m), i)
  }

  /**
    Safe admission, exactly: a message is admitted if and only if the worker has a
    branch for it; an admitted one fails to parse if and only if its command word
    holds a wrong character, and the error names the first one, never the prefix.
   */
  lemma SafeAdmission(parser: Option<char>, m: IRCMessage)
    ensures PreFilter(parser, m) <==> BranchOf(parser, m) != Neither
    ensures BranchOf(parser, m).NotParsed? <==> PreFilter(parser, m) && BadWord(parser, m)
    ensures PreFilter(parser, m) && parser.Some? ==>
              forall i: nat | CommandParsing.Offends(parser.value, LastParam(m), i) ::
                BranchOf(parser, m) == NotParsed(CommandParsing.BadCharacter(LastParam(m)[i]))
    ensures BranchOf(parser, m).NotParsed? ==> BranchOf(parser, m).error.BadCharacter?
  {
    hide CommandParsing.Meaning, CommandParsing.Offends;
    if parser.Some? {
      CommandParsing.ThrowsIff(parser.value, LastParam(m));
    }
  }

  /**
    The optional prefix does not work through dispatch: with a parser that has no
    prefix, only messages with an empty text are admitted, whatever is received,
    and they are all the empty command.
   */
  lemma NoPrefixAdmitsOnlyEmptyTexts(chunks: seq<string>, m: IRCMessage)
    requires m in ParseChunks(FRESH, chunks).sink.messages
    ensures PreFilter(Some(CommandParsing.NO_PREFIX), m)
            <==> m.params != [] && m.command == "PRIVMSG" && LastParam(m) == ""
    ensures PreFilter(Some(CommandParsing.NO_PREFIX), m) ==>
              BranchOf(Some(CommandParsing.NO_PREFIX), m) == OnCommand(CommandParsing.Command("", []))
  {
    hide ParseChunks;
    OutputsAreClean(chunks);
    assert Clean(m);
    CommandParsing.NothingMeans(CommandParsing.NO_PREFIX, "");
  }

  /** What makes a message a command for a plugin with this prefix. */
  predicate Addressed(prefix: char, m: IRCMessage) {
    && m.command == "PRIVMSG"
    && m.params != []
    && if LastParam(m) == "" then prefix == CommandParsing.NO_PREFIX else LastParam(m)[0] == prefix
  }

  /** A plugin without a command parser is offered everything, one with a parser what is addressed to it. */
  lemma PreFilterIff(parser: Option<char>, m: IRCMessage)
    ensures PreFilter(parser, m) <==> parser.None? || Addressed(parser.value, m)
  {
  }

  lemma PhraseIsAddressed(prefix: char, p: CommandGrammar.Phrase, m: IRCMessage)
    requires prefix != CommandParsing.NO_PREFIX
    requires m.command == "PRIVMSG" && m.params != [] && LastParam(m) == CommandGrammar.PhraseText(prefix, p)
    ensures Addressed(prefix, m)
  {
    CommandGrammar.PhraseParts(prefix, p);
  }

  /**
    A private message whose text is a phrase of the command grammar, behind any
    prefix, reaches the handler as the command that the phrase means.
   */
  lemma PhraseReachesHandler(prefix: char, p: CommandGrammar.Phrase, m: IRCMessage)
    requires prefix != CommandParsing.NO_PREFIX && CommandGrammar.PhraseOk(p)
    requires m.command == "PRIVMSG" && m.params != [] && LastParam(m) == CommandGrammar.PhraseText(prefix, p)
    ensures PreFilter(Some(prefix), m)
    ensures BranchOf(Some(prefix), m) == OnCommand(CommandGrammar.PhraseMeans(p))
  {
    hide CommandParsing.Meaning, CommandGrammar.PhraseText, CommandGrammar.PhraseMeans, CommandGrammar.PhraseOk;
    PhraseIsAddressed(prefix, p, m);
    PreFilterIff(Some(prefix), m);
    CommandGrammar.PhraseIsRead(prefix, p);
  }

  predicate IsName(name: string) {
    forall i | 0 <= i < |name| :: CommandParsing.IsCommandCharacter(name[i])
  }

  /** The same for any argument list in any of the three ways to write it down. */
  lemma ArgumentsReachHandler(prefix: char, name: string, args: seq<CommandQuoting.Styled>, m: IRCMessage)
    requires prefix != CommandParsing.NO_PREFIX && IsName(name)
    requires m.command == "PRIVMSG" && m.params != []
    requires LastParam(m) == CommandQuoting.CommandLine(prefix, name, args)
    ensures PreFilter(Some(prefix), m)
    ensures BranchOf(Some(prefix), m)
         == OnCommand(CommandParsing.Command(name, CommandQuoting.PlainTexts(args)))
  {
    hide CommandParsing.Meaning, CommandQuoting.EncodeAll;
    CommandQuoting.EveryArgumentListIsExpressible(prefix, name, args);
    assert LastParam(m)[0] == prefix;
    PreFilterIff(Some(prefix), m);
  }

  /** The message is a private one that writes this command down. */
  predicate Commands(prefix: char, name: string, args: seq<CommandQuoting.Styled>, m: IRCMessage) {
    && prefix != CommandParsing.NO_PREFIX
    && m.command == "PRIVMSG" && m.params != []
    && LastParam(m) == CommandQuoting.CommandLine(prefix, name, args)
  }

  function PrefixOf(parser: CommandParsing.CommandParser?): Option<char> {
    if parser == null then None else Some(parser.prefix)
  }

  /** What the worker does with a message it has taken. */
  method Process(parser: CommandParsing.CommandParser?, m: IRCMessage) returns (branch: Branch)
    requires IsCommand(PrefixOf(parser), m) ==> CommandParsing.CounterFits(parser.prefix, LastParam(m))
    ensures branch == BranchOf(PrefixOf(parser), m)
    ensures branch != Neither <==> PreFilter(PrefixOf(parser), m)
    ensures branch.NotParsed? <==> PreFilter(PrefixOf(parser), m) && BadWord(PrefixOf(parser), m)
    ensures branch.NotParsed? ==> branch.error.BadCharacter?
    ensures branch == OnMessage <==> parser == null
    ensures branch == Neither <==> parser != null && !Addressed(parser.prefix, m)
    ensures forall cmd :: branch == OnCommand(cmd) <==>
              && parser != null && Addressed(parser.prefix, m)
              && CommandParsing.Meaning(parser.prefix, LastParam(m)) == CommandParsing.Parsed(cmd)
    ensures forall name, args | IsName(name) && parser != null && Commands(parser.prefix, name, args, m) ::
              branch == OnCommand(CommandParsing.Command(name, CommandQuoting.PlainTexts(args)))
  {
    SafeAdmission(PrefixOf(parser), m);
    PreFilterIff(PrefixOf(parser), m);
    forall name, args | IsName(name) && parser != null && Commands(parser.prefix, name, args, m)
      ensures BranchOf(PrefixOf(parser), m)
           == OnCommand(CommandParsing.Command(name, CommandQuoting.PlainTexts(args)))
    {
      ArgumentsReachHandler(parser.prefix, name, args, m);
    }
    hide CommandParsing.Meaning, CommandParsing.Offends, BadWord, Addressed, Commands, IsName;
    if parser == null {
      return OnMessage;
    }
    if IsCommand(Some(parser.prefix), m) {
      var r := parser.Parse(m.params[|m.params| - 1]);
      if r.Parsed? {
        return OnCommand(r.cmd);
      }
      return NotParsed(r);
    }
    return Neither;
  }

  // --- The receive handler ----------------------------------------------------------------

  /** A plugin as the dispatcher knows it. */
  datatype Seat = Seat(parser: Option<char>, filter: IRCMessage -> bool)

  predicate Admits(seat: Seat, m: IRCMessage) {
    PreFilter(seat.parser, m) && seat.filter(m)
  }

  function IfAdmitted(seat: Seat, m: IRCMessage): seq<IRCMessage> {
    if Admits(seat, m) then [m] else []
  }

  /** The messages that pass both filters, in order. */
  function Admitted(seat: Seat, ms: seq<IRCMessage>): seq<IRCMessage> {
    if ms == [] then []
    else
      var m := ms[|ms| - 1];
      Admitted(seat, ms[..|ms| - 1]) + IfAdmitted(seat, m)
  }

  lemma AdmittedAppend(seat: Seat, ms: seq<IRCMessage>, m: IRCMessage)
    ensures Admitted(seat, ms + [m]) == Admitted(seat, ms) + IfAdmitted(seat, m)
  {
    assert (ms + [m])[..|ms|] == ms;
  }

  lemma {:induction false} AdmittedConcat(seat: Seat, a: seq<IRCMessage>, b: seq<IRCMessage>)
    ensures Admitted(seat, a + b) == Admitted(seat, a) + Admitted(seat, b)
    decreases |b|
  {
    hide IfAdmitted;
    if b == [] {
      assert a + b == a;
    } else {
      hide Admitted;
      var before, m := b[..|b| - 1], b[|b| - 1];
      assert b == before + [m] && a + b == (a + before) + [m];
      AdmittedConcat(seat, a, before);
      AdmittedAppend(seat, before, m);
      AdmittedAppend(seat, a + before, m);
      ConcatAssoc(Admitted(seat, a), Admitted(seat, before), IfAdmitted(seat, m));
    }
  }

  lemma ConcatAssoc(a: seq<IRCMessage>, b: seq<IRCMessage>, c: seq<IRCMessage>)
    ensures (a + b) + c == a + (b + c)
  {
  }

  /** Exactly the places of `ms` whose message passes both filters, from front to back. */
  predicate Picks(seat: Seat, ms: seq<IRCMessage>, places: seq<nat>) {
    && (forall j | 0 <= j < |places| :: places[j] < |ms|)
    && (forall j, k | 0 <= j < k < |places| :: places[j] < places[k])
    && (forall i: nat | i < |ms| :: i in places <==> PreFilter(seat.parser, ms[i]) && seat.filter(ms[i]))
  }

  predicate TakenFrom(ms: seq<IRCMessage>, places: seq<nat>, taken: seq<IRCMessage>) {
    |taken| == |places| && forall j | 0 <= j < |places| :: places[j] < |ms| && taken[j] == ms[places[j]]
  }

  /** The messages that pass the pre-filter and the plugin's own filter: all of them, once, in order. */
  ghost predicate Selection(seat: Seat, ms: seq<IRCMessage>, taken: seq<IRCMessage>) {
    exists places :: Picks(seat, ms, places) && TakenFrom(ms, places, taken)
  }

  lemma PlacesGrow(seat: Seat, ms: seq<IRCMessage>, m: IRCMessage, places: seq<nat>) returns (more: seq<nat>)
    requires Picks(seat, ms, places)
    ensures Picks(seat, ms + [m], more)
    ensures more == if PreFilter(seat.parser, m) && seat.filter(m) then places + [|ms|] else places
  {
    hide PreFilter;
    more := places;
    if PreFilter(seat.parser, m) && seat.filter(m) {
      more := places + [|ms|];
    }
    forall i: nat | i < |ms + [m]|
      ensures i in more <==> PreFilter(seat.parser, (ms + [m])[i]) && seat.filter((ms + [m])[i])
    {
      assert i in more <==> i in places || (i == |ms| && |more| > |places|);
    }
  }

  lemma TakenGrows(ms: seq<IRCMessage>, m: IRCMessage, places: seq<nat>, taken: seq<IRCMessage>)
    requires TakenFrom(ms, places, taken)
    ensures TakenFrom(ms + [m], places, taken) && TakenFrom(ms + [m], places + [|ms|], taken + [m])
  {
  }

  lemma {:induction false} AdmittedPlaces(seat: Seat, ms: seq<IRCMessage>) returns (places: seq<nat>)
    ensures Picks(seat, ms, places) && TakenFrom(ms, places, Admitted(seat, ms))
    decreases |ms|
  {
    if ms == [] {
      places := [];
    } else {
      hide Picks, PreFilter, TakenFrom, Admitted;
      var before, m := ms[..|ms| - 1], ms[|ms| - 1];
      assert ms == before + [m];
      var earlier := AdmittedPlaces(seat, before);
      places := PlacesGrow(seat, before, m, earlier);
      AdmittedAppend(seat, before, m);
      TakenGrows(before, m, earlier, Admitted(seat, before));
      assert Admitted(seat, before) + [] == Admitted(seat, before);
    }
  }

  lemma AdmittedIsSelection(seat: Seat, ms: seq<IRCMessage>)
    ensures Selection(seat, ms, Admitted(seat, ms))
  {
    hide Picks, TakenFrom;
    var places := AdmittedPlaces(seat, ms);
  }

  /** A message is admitted as often as it was parsed if it passes both filters, and else never. */
  lemma {:induction false} AdmittedCount(seat: Seat, ms: seq<IRCMessage>, m: IRCMessage)
    ensures multiset(Admitted(seat, ms))[m]
         == if PreFilter(seat.parser, m) && seat.filter(m) then multiset(ms)[m] else 0
    ensures m in Admitted(seat, ms) <==> m in ms && PreFilter(seat.parser, m) && seat.filter(m)
    decreases |ms|
  {
    hide PreFilter;
    if ms != [] {
      hide Admitted;
      var before, last := ms[..|ms| - 1], ms[|ms| - 1];
      assert ms == before + [last];
      AdmittedCount(seat, before, m);
      AdmittedAppend(seat, before, last);
      CountLast(before, last, m);
      CountLast(Admitted(seat, before), last, m);
      assert Admitted(seat, before) + [] == Admitted(seat, before);
    }
  }

  lemma CountLast(ms: seq<IRCMessage>, last: IRCMessage, m: IRCMessage)
    ensures multiset(ms + [last])[m] == multiset(ms)[m] + (if last == m then 1 else 0)
    ensures m in ms + [last] <==> m in ms || m == last
  {
  }

  class PluginQueue {
    const seat: Seat
    var incoming: seq<IRCMessage>

    constructor (seat: Seat)
      ensures this.seat == seat && incoming == []
    {
      this.seat := seat;
      incoming := [];
    }

    method Receive(m: IRCMessage)
      modifies this`incoming
      ensures incoming == old(incoming) + [m]
    {
      incoming := incoming + [m];
    }

    method GetCommand() returns (m: IRCMessage)
      requires incoming != []
      modifies this`incoming
      ensures old(incoming) == [m] + incoming
    {
      m := incoming[0];
      incoming := incoming[1..];
    }
  }

  predicate Distinct(plugins: seq<PluginQueue>) {
    forall i, j | 0 <= i < j < |plugins| :: plugins[i] != plugins[j]
  }

  /** The inner loop: one message is offered to every plugin. */
  method Offer(plugins: seq<PluginQueue>, m: IRCMessage)
    requires Distinct(plugins)
    modifies set p | p in plugins :: p`incoming
    ensures forall i | 0 <= i < |plugins| ::
              plugins[i].incoming == old(plugins[i].incoming) + IfAdmitted(plugins[i].seat, m)
  {
    for n := 0 to |plugins|
      invariant forall i | 0 <= i < n ::
                  plugins[i].incoming == old(plugins[i].incoming) + IfAdmitted(plugins[i].seat, m)
      invariant forall i | n <= i < |plugins| :: plugins[i].incoming == old(plugins[i].incoming)
    {
      var plugin := plugins[n];
      if PreFilter(plugin.seat.parser, m) {
        if plugin.seat.filter(m) {
          assert plugin in plugins;
          plugin.Receive(m);
        }
      }
    }
  }

  /**
    The handler of received bytes: parse, then offer every message to every
    plugin.  Each queue grows by exactly the admitted subsequence of what was
    parsed, whatever the other plugins do, and the parser is left drained.
   */
  method HandleReceive(parser: IRCParser, plugins: seq<PluginQueue>, bytes: string)
    requires Distinct(plugins)
    modifies parser, set p | p in plugins :: p`incoming
    ensures var after := ParseChunk(old(parser.View()), bytes);
            && parser.View() == after.(sink := after.sink.(messages := []))
            && forall i | 0 <= i < |plugins| ::
                 && plugins[i].incoming == old(plugins[i].incoming) + Admitted(plugins[i].seat, after.sink.messages)
                 && Selection(plugins[i].seat, after.sink.messages, plugins[i].incoming[|old(plugins[i].incoming)|..])
  {
    hide ParseChunk, PreFilter, Selection;
    parser.Parse(bytes);
    ghost var after := parser.View();
    ghost var offered: seq<IRCMessage> := [];
    while parser.MessagesCount() > 0
      invariant offered + parser.messages == after.sink.messages
      invariant parser.View() == after.(sink := after.sink.(messages := parser.messages))
      invariant forall i | 0 <= i < |plugins| ::
                  plugins[i].incoming == old(plugins[i].incoming) + Admitted(plugins[i].seat, offered)
      decreases |parser.messages|
    {
      var msg := parser.GetMessage();
      Offer(plugins, msg);
      forall i | 0 <= i < |plugins|
        ensures plugins[i].incoming == old(plugins[i].incoming) + Admitted(plugins[i].seat, offered + [msg])
      {
        AdmittedAppend(plugins[i].seat, offered, msg);
      }
      offered := offered + [msg];
    }
    assert offered == after.sink.messages;
    forall i | 0 <= i < |plugins|
      ensures Selection(plugins[i].seat, offered, plugins[i].incoming[|old(plugins[i].incoming)|..])
    {
      AdmittedIsSelection(plugins[i].seat, offered);
      assert plugins[i].incoming[|old(plugins[i].incoming)|..] == Admitted(plugins[i].seat, offered);
    }
  }
}
