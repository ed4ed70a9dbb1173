/** Printing and parsing are inverse to each other, exactly where they can be. */
module IRCRoundTrip {
  import opened IRCMessages
  import opened Options
  import opened IRCParsing
  import opened IRCEager
  import opened IRCShape
  import opened IRCGrammar
  import opened IRCRfc
  import opened IRCStream

  /** What printing keeps: unprinted prefix parts go, and a nick alone reads as a server name. */
  function Normalise(m: IRCMessage): IRCMessage {
    if m.servername != "" then m.(nick := "", user := "", host := "")
    else if m.nick == "" then m.(user := "", host := "")
    else if m.user == "" && m.host == "" then m.(servername := m.nick, nick := "")
    else m
  }

  function Filled(s: string): Option<string> {
    if s == "" then None else Some(s)
  }

  function PrefixOf(m: IRCMessage): Prefix {
    if m.servername != "" then ServerPrefix(m.servername)
    else if m.nick == "" then NoPrefix
    else if m.user == "" && m.host == "" then ServerPrefix(m.nick)
    else NickPrefix(m.nick, Filled(m.user), Filled(m.host))
  }

  function Ungapped(ps: seq<string>): seq<Gapped> {
    if ps == [] then [] else [Gapped(0, ps[0])] + Ungapped(ps[1..])
  }

  /** The line of the grammar that the printer writes. */
  function LineOf(m: IRCMessage): Line
    requires m.params != []
  {
    var n := |m.params| - 1;
    Line(PrefixOf(m), 0, m.command, Ungapped(m.params[..n]), Closing(0, m.params[n]), true)
  }

  /** The messages that survive being printed. */
  predicate Printable(m: IRCMessage) {
    && m.params != []
    && CleanParams(m.params)
    && PrefixOk(PrefixOf(m))
    && CommandOk(m.command, Prefixed(m))
  }

  predicate RoundTrips(m: IRCMessage) {
    ParseChunk(FRESH, Text(m)).sink.messages == [Normalise(m)]
  }

  lemma {:induction false} UngappedText(ps: seq<string>)
    ensures MiddlesRender(Ungapped(ps)) == MiddlesText(ps)
    ensures |Ungapped(ps)| == |ps| && forall i | 0 <= i < |ps| :: Ungapped(ps)[i].text == ps[i]
  {
    if ps != [] {
      UngappedText(ps[1..]);
      assert Ungapped(ps)[1..] == Ungapped(ps[1..]);
      assert " " + Spaces(0) + ps[0] == " " + ps[0];
    }
  }

  lemma {:induction false} UngappedMeaning(ps: seq<string>, last: string)
    ensures ParamsMeaning(Ungapped(ps), Closing(0, last)) == ps + [last]
  {
    if ps != [] {
      UngappedMeaning(ps[1..], last);
      assert Ungapped(ps)[1..] == Ungapped(ps[1..]);
    }
  }

  lemma PrefixOfText(m: IRCMessage)
    ensures PrefixRender(PrefixOf(m), 0) == PrefixText(m)
  {
    assert Spaces(0) == "" && " " + "" == " ";
    var p := PrefixOf(m);
    if p.ServerPrefix? {
      Assoc(":", p.name, " ");
    } else if p.NickPrefix? {
      var user := if m.user != "" then "!" + m.user else "";
      var host := if m.host != "" then "@" + m.host else "";
      Assoc(":" + m.nick + user, host, " ");
      Assoc(":" + m.nick, user, host + " ");
      Assoc(":", m.nick, user + (host + " "));
      assert host + " " == HostRender(p.host, 0);
      assert user + (host + " ") == UserRender(p.user, p.host, 0);
    }
  }

  lemma LineOfText(m: IRCMessage)
    requires m.params != []
    ensures Render(LineOf(m)) == Text(m)
  {
    var n := |m.params| - 1;
    var ps, last := m.params[..n], m.params[n];
    UngappedText(ps);
    PrefixOfText(m);
    assert TailRender(Closing(0, last)) == " :" + last;
    Assoc(MiddlesText(ps), " :", last);
    var a, b, c := PrefixText(m), m.command, ParamsText(m.params);
    Assoc(a, b, c + "\r\n");
    Assoc(a + b, c, "\r\n");
  }

  lemma LineOfMeaning(m: IRCMessage)
    requires m.params != []
    ensures Meaning(LineOf(m)) == Normalise(m)
  {
    var n := |m.params| - 1;
    UngappedMeaning(m.params[..n], m.params[n]);
    assert m.params[..n] + [m.params[n]] == m.params;
  }

  lemma PrintableYields(m: IRCMessage, q: seq<IRCMessage>)
    requires Printable(m)
    ensures EagerFeed(AtStart(q), Text(m)) == AtStart(q + [Normalise(m)])
  {
    hide EagerFeed, EagerStep;
    var l := LineOf(m);
    var n := |m.params| - 1;
    LineOfText(m);
    LineOfMeaning(m);
    UngappedText(m.params[..n]);
    forall i | 0 <= i < |l.middles|
      ensures GrammarMiddle(l.middles[i].text) && ':' !in l.middles[i].text
    {
      assert Middle(m.params[..n][i]);
    }
    LineYieldsFound(l, q);
    PlainMiddlesAreFound(l.middles, l.tail);
  }

  /** A clean message prints its prefix as the grammar has it, and the other way round. */
  lemma CleanPrefixPrints(m: IRCMessage)
    ensures CleanPrefix(Normalise(m)) <==> PrefixOk(PrefixOf(m))
  {
  }

  lemma PrintableIfRoundTrips(m: IRCMessage)
    requires RoundTrips(m)
    ensures Printable(m)
  {
    hide EagerFeed, EagerStep, Feed;
    var s := Text(m);
    ParseAtStart([], s);
    assert EagerFeed(AtStart([]), s).sink.messages == [Normalise(m)];
    OneCallIsClean(s);
    assert Clean(Normalise(m));
    CleanPrefixPrints(m);
    FirstCommand([], s);
    CommandOfText(m);
    if m.params == [] {
      PrefixOfText(m);
      assert s == PrefixRender(PrefixOf(m), 0) + m.command + Eol(true);
      EndlessCommand(PrefixOf(m), 0, m.command, true, []);
    }
  }

  lemma OneCallIsClean(s: string)
    ensures forall msg | msg in ParseChunk(FRESH, s).sink.messages :: Clean(msg)
  {
    hide Feed;
    OutputsAreClean([s]);
    assert ParseChunks(FRESH, [s]) == ParseChunk(FRESH, s) by {
      assert [s][1..] == [];
    }
  }

  /** The first character tells a prefixed line from an unprefixed one. */
  lemma CommandOfText(m: IRCMessage)
    requires var s := Text(m);
             s != "" && if s[0] == ':' then Word(m.command)
                        else |m.command| >= 2 && m.command[0] == s[0] && Word(m.command[1..])
    ensures CommandOk(m.command, Prefixed(m))
  {
    if Prefixed(m) {
      assert PrefixText(m)[0] == ':';
    } else if m.command != "" {
      assert Text(m)[0] == m.command[0];
    }
  }

  /** Parsing undoes printing if and only if the message is printable. */
  lemma RoundTripIff(m: IRCMessage)
    ensures RoundTrips(m) <==> Printable(m)
  {
    if Printable(m) {
      hide EagerFeed, EagerStep, Feed;
      PrintableYields(m, []);
      ParseAtStart([], Text(m));
    } else if RoundTrips(m) {
      PrintableIfRoundTrips(m);
    }
  }

  // --- Without parameters, and without the line end ---------------------------------------

  /** Without its line end the text is the same otherwise. */
  lemma StripOnlyCutsTheEnd(m: IRCMessage)
    ensures Text(m, true) + "\r\n" == Text(m)
  {
  }

  /** The line that the printer begins for a message without parameters, ended by a space. */
  function BareLineOf(m: IRCMessage): Line {
    Line(PrefixOf(m), 0, m.command, [], Bare(1), true)
  }

  lemma BareLineText(m: IRCMessage)
    requires m.params == []
    ensures Render(BareLineOf(m)) == Text(m, true) + " \r\n"
  {
    PrefixOfText(m);
    var a, b := PrefixText(m), m.command;
    assert Spaces(1) == " " + Spaces(0);
    assert Text(m, true) == a + b;
    Assoc(a, b, " \r\n");
  }

  /**
    What is printed for a message without parameters names its prefix and command:
    with the line end cut off and a space behind it, it is parsed back if and only
    if both can be read.
   */
  lemma BareTextIff(m: IRCMessage)
    requires m.params == []
    ensures ParseChunk(FRESH, Text(m, true) + " \r\n").sink.messages == [Normalise(m)]
       <==> PrefixOk(PrefixOf(m)) && CommandOk(m.command, Prefixed(m))
  {
    hide EagerFeed, EagerStep, Feed;
    var s := Text(m, true) + " \r\n";
    assert FRESH == StartMachine([]);
    ParseAtStart([], s);
    if PrefixOk(PrefixOf(m)) && CommandOk(m.command, Prefixed(m)) {
      BareLineText(m);
      LineYieldsFound(BareLineOf(m), []);
    } else if EagerFeed(AtStart([]), s).sink.messages == [Normalise(m)] {
      OneCallIsClean(s);
      assert Clean(Normalise(m));
      CleanPrefixPrints(m);
      FirstCommand([], s);
      StripOnlyCutsTheEnd(m);
      assert m.command != "";
      assert Text(m, true) != "" && Text(m)[0] == s[0];
      CommandOfText(m);
    }
  }

  // --- Streams ---------------------------------------------------------------------------

  function Texts(ms: seq<IRCMessage>): seq<string> {
    if ms == [] then [] else [Text(ms[0])] + Texts(ms[1..])
  }

  function Normalised(ms: seq<IRCMessage>): seq<IRCMessage> {
    if ms == [] then [] else [Normalise(ms[0])] + Normalised(ms[1..])
  }

  lemma {:induction false} StreamYields(ms: seq<IRCMessage>, q: seq<IRCMessage>)
    requires forall i | 0 <= i < |ms| :: Printable(ms[i])
    ensures EagerFeed(AtStart(q), Flatten(Texts(ms))) == AtStart(q + Normalised(ms))
    decreases |ms|
  {
    hide EagerStep, Text, Normalise, Printable;
    if ms == [] {
      assert q + [] == q;
    } else {
      hide EagerFeed;
      var text, later, msg := Text(ms[0]), Flatten(Texts(ms[1..])), Normalise(ms[0]);
      FirstOfStream(ms);
      PrintableYields(ms[0], q);
      EagerFeedAppend(AtStart(q), text, later);
      StreamYields(ms[1..], q + [msg]);
      assert (q + [msg]) + Normalised(ms[1..]) == q + ([msg] + Normalised(ms[1..]));
    }
  }

  lemma FirstOfStream(ms: seq<IRCMessage>)
    requires ms != []
    ensures Texts(ms)[0] == Text(ms[0]) && Texts(ms)[1..] == Texts(ms[1..])
    ensures Flatten(Texts(ms)) == Text(ms[0]) + Flatten(Texts(ms[1..]))
    ensures Normalised(ms) == [Normalise(ms[0])] + Normalised(ms[1..])
  {
    hide Text, Normalise;
    assert Texts(ms)[1..] == Texts(ms[1..]);
  }

  /**
    A stream of printed messages is parsed back in order, from any parser that is
    between two lines, delivered in one call or one message a call.
   */
  lemma {:induction false} StreamRoundTrip(ms: seq<IRCMessage>, q: seq<IRCMessage>)
    requires forall i | 0 <= i < |ms| :: Printable(ms[i])
    ensures ParseChunk(StartMachine(q), Flatten(Texts(ms))) == StartMachine(q + Normalised(ms))
    ensures ParseChunks(StartMachine(q), Texts(ms)) == StartMachine(q + Normalised(ms))
    decreases |ms|
  {
    hide EagerFeed, EagerStep, Feed, Text, Normalise, Printable;
    StreamYields(ms, q);
    ParseAtStart(q, Flatten(Texts(ms)));
    if ms == [] {
      assert q + [] == q;
    } else {
      var msg := Normalise(ms[0]);
      FirstOfStream(ms);
      PrintableYields(ms[0], q);
      ParseAtStart(q, Text(ms[0]));
      StreamRoundTrip(ms[1..], q + [msg]);
      assert (q + [msg]) + Normalised(ms[1..]) == q + ([msg] + Normalised(ms[1..]));
    }
  }

  // --- Streams, exactly ------------------------------------------------------------------

  /** Up to its first space a text completes no message, wherever a line can begin. */
  lemma {:induction false} QuietUntilSpace(e: Eager, u: string)
    requires ' ' !in u && (Boundary(e) || InPrefix(e))
    ensures var after := EagerFeed(e, u);
            && after.sink.messages == e.sink.messages
            && (u == "" ==> after == e)
            && (u != "" ==> after.state in {Command, CommandNum, CommandLetter} || InPrefix(after))
            && (InPrefix(after) ==> InPrefix(e) || (e.state == Start && u != "" && u[0] == ':'))
    decreases |u|
  {
    hide EagerStep;
    if u != "" {
      EagerStepMeans(e, u[0]);
      var next := EagerStep(e, u[0]);
      assert u[0] in u && forall x | x in u[1..] :: x in u;
      QuietUntilSpace(next, u[1..]);
    }
  }

  /** A text whose only line end behind its first space is its last character: at most one message. */
  lemma OneLineEndAtMost(e: Eager, u: string, v: string)
    requires Boundary(e) && ' ' !in u && '\n' !in v
    requires v != "" && (u == "" ==> v[0] != ':') && (u != "" && u[0] == ':' ==> ' ' in v)
    ensures Boundary(EagerFeed(e, (u + v) + ['\n']))
    ensures |EagerFeed(e, (u + v) + ['\n']).sink.messages| <= |e.sink.messages| + 1
  {
    hide EagerFeed, EagerStep;
    var e1 := EagerFeed(e, u);
    QuietUntilSpace(e, u);
    EagerFeedAppend(e, u, v);
    if e1.state == Start {
      var next := EagerStep(e1, v[0]);
      assert v == [v[0]] + v[1..] && v[0] in v && forall x | x in v[1..] :: x in v;
      FeedFirst(e1, v[0], v[1..]);
      QuietStep(e1, v[0]);
      EagerStepMeans(e1, v[0]);
      QuietFeed(next, v[1..]);
    } else {
      QuietFeed(e1, v);
    }
    var e2 := EagerFeed(e, u + v);
    EagerFeedAppend(e, u + v, ['\n']);
    FeedOne(e2, '\n');
    LineFeedStep(e2);
  }

  lemma {:induction false} NoLfInMiddles(ps: seq<string>)
    requires Middles(ps)
    ensures '\n' !in MiddlesText(ps)
  {
    if ps != [] {
      assert Middle(ps[0]);
      NoLfInMiddles(ps[1..]);
    }
  }

  lemma NoLfInParams(ps: seq<string>)
    requires CleanParams(ps)
    ensures '\n' !in ParamsText(ps)
  {
    if ps != [] {
      NoLfInMiddles(ps[..|ps| - 1]);
    }
  }

  /** The printed prefix without its last space. */
  lemma PrefixParts(m: IRCMessage) returns (u: string)
    requires Prefixed(m) && CleanPrefix(Normalise(m))
    ensures PrefixText(m) == u + " " && u != "" && u[0] == ':' && ' ' !in u
  {
    if m.servername != "" {
      u := ":" + m.servername;
    } else {
      u := ":" + m.nick + (if m.user != "" then "!" + m.user else "") + (if m.host != "" then "@" + m.host else "");
    }
  }

  lemma TextBeforeLineEnd(m: IRCMessage)
    ensures Text(m) == (PrefixText(m) + (m.command + (ParamsText(m.params) + "\r"))) + ['\n']
  {
    hide PrefixText, ParamsText;
    var a, b, c := PrefixText(m), m.command, ParamsText(m.params);
    assert "\r\n" == "\r" + ['\n'];
    Assoc(a, b, c + "\r\n");
    Assoc(a + b, c, "\r\n");
    Assoc(c, "\r", ['\n']);
    Assoc(b, c + "\r", ['\n']);
    Assoc(a, b + (c + "\r"), ['\n']);
  }

  /** Every message as the parser emits it prints to a text with one effective line end. */
  lemma TextParts(m: IRCMessage) returns (u: string, v: string)
    requires Clean(Normalise(m)) && Formed(Normalise(m))
    ensures Text(m) == (u + v) + ['\n']
    ensures ' ' !in u && '\n' !in v && v != "" && (u == "" ==> v[0] != ':')
    ensures u != "" && u[0] == ':' ==> ' ' in v
  {
    var tail := ParamsText(m.params) + "\r";
    TextBeforeLineEnd(m);
    NoLfInParams(m.params);
    FormedCommand(m);
    hide Text, Formed, ParamsText;
    if Prefixed(m) {
      u := PrefixParts(m);
      v := " " + (m.command + tail);
      assert v[0] == ' ';
      Assoc(u, " ", m.command + tail);
    } else if m.command[0] == ' ' {
      u, v := "", m.command + tail;
    } else {
      u, v := m.command[..1], m.command[1..] + tail;
      assert m.command == m.command[..1] + m.command[1..];
      Assoc(u, m.command[1..], tail);
    }
  }

  lemma FormedCommand(m: IRCMessage)
    requires Formed(Normalise(m))
    ensures m.command != "" && m.command[0] != ':' && '\n' !in m.command[1..]
    ensures Prefixed(m) || m.command[0] == ' ' ==> '\n' !in m.command
  {
    assert m.command != "" ==> forall x | x in m.command :: x == m.command[0] || x in m.command[1..];
  }

  lemma TextYieldsAtMostOne(e: Eager, m: IRCMessage)
    requires Boundary(e) && Clean(Normalise(m)) && Formed(Normalise(m))
    ensures Boundary(EagerFeed(e, Text(m)))
    ensures |EagerFeed(e, Text(m)).sink.messages| <= |e.sink.messages| + 1
  {
    hide EagerFeed, Text, Clean, Formed, Boundary;
    var u, v := TextParts(m);
    OneLineEndAtMost(e, u, v);
  }

  /** Every message of the list looks as if the parser had emitted it. */
  predicate LikeEmitted(ms: seq<IRCMessage>) {
    forall i | 0 <= i < |ms| :: Clean(Normalise(ms[i])) && Formed(Normalise(ms[i]))
  }

  lemma {:induction false} TextsYieldAtMost(e: Eager, ms: seq<IRCMessage>)
    requires Boundary(e) && LikeEmitted(ms)
    ensures |EagerFeed(e, Flatten(Texts(ms))).sink.messages| <= |e.sink.messages| + |ms|
    decreases |ms|
  {
    hide EagerStep, Text, Normalise, Clean, Formed, Boundary;
    if ms != [] {
      hide EagerFeed;
      FirstOfStream(ms);
      EagerFeedAppend(e, Text(ms[0]), Flatten(Texts(ms[1..])));
      TextYieldsAtMostOne(e, ms[0]);
      TextsYieldAtMost(EagerFeed(e, Text(ms[0])), ms[1..]);
    }
  }

  /** The first message that is not printable can only lack a parameter, and then yields nothing. */
  lemma UnprintableIsUnended(m: IRCMessage, q: seq<IRCMessage>, more: string)
    requires Clean(Normalise(m)) && !Printable(m)
    requires var ms := EagerFeed(AtStart(q), Text(m) + more).sink.messages;
             |ms| > |q| && ms[|q|] == Normalise(m)
    ensures EagerFeed(AtStart(q), Text(m)).sink.messages == q
    ensures Boundary(EagerFeed(AtStart(q), Text(m)))
  {
    hide EagerFeed, EagerStep;
    FirstCommand(q, Text(m) + more);
    CommandOfText(m);
    CleanPrefixPrints(m);
    PrefixOfText(m);
    assert m.params == [];
    assert Text(m) == PrefixRender(PrefixOf(m), 0) + m.command + Eol(true);
    EndlessCommand(PrefixOf(m), 0, m.command, true, q);
  }

  lemma {:induction false} UnprintableStream(ms: seq<IRCMessage>, q: seq<IRCMessage>, k: nat)
    requires LikeEmitted(ms) && k < |ms| && !Printable(ms[k])
    ensures EagerFeed(AtStart(q), Flatten(Texts(ms))).sink.messages != q + Normalised(ms)
    decreases |ms|
  {
    hide EagerFeed, EagerStep, Text, Normalise, Printable, Clean, Formed, Boundary;
    var msg, more := Normalise(ms[0]), Flatten(Texts(ms[1..]));
    FirstOfStream(ms);
    EagerFeedAppend(AtStart(q), Text(ms[0]), more);
    NormalisedLength(ms);
    if Printable(ms[0]) {
      PrintableYields(ms[0], q);
      UnprintableStream(ms[1..], q + [msg], k - 1);
      assert (q + [msg]) + Normalised(ms[1..]) == q + ([msg] + Normalised(ms[1..]));
    } else if EagerFeed(AtStart(q), Flatten(Texts(ms))).sink.messages == q + Normalised(ms) {
      assert (q + Normalised(ms))[|q|] == msg;
      UnprintableIsUnended(ms[0], q, more);
      TextsYieldAtMost(EagerFeed(AtStart(q), Text(ms[0])), ms[1..]);
    }
  }

  lemma {:induction false} NormalisedLength(ms: seq<IRCMessage>)
    ensures |Normalised(ms)| == |ms| && forall i | 0 <= i < |ms| :: Normalised(ms)[i] == Normalise(ms[i])
  {
    hide Normalise;
    if ms != [] {
      NormalisedLength(ms[1..]);
    }
  }

  lemma RoundTrippedIsLikeEmitted(ms: seq<IRCMessage>)
    requires ParseChunk(FRESH, Flatten(Texts(ms))).sink.messages == Normalised(ms)
    ensures LikeEmitted(ms)
  {
    hide ParseChunk, Normalise, Texts, Clean, Formed;
    var s := Flatten(Texts(ms));
    OneCallIsClean(s);
    EveryCommand(s);
    NormalisedLength(ms);
    forall i | 0 <= i < |ms| ensures Clean(Normalise(ms[i])) && Formed(Normalise(ms[i])) {
      assert Normalised(ms)[i] in ParseChunk(FRESH, s).sink.messages;
    }
  }

  /**
    Streams, exactly: the joined texts of any list of messages come back as the
    list normalised if and only if every one of them is printable.
   */
  lemma StreamRoundTripIff(ms: seq<IRCMessage>)
    ensures ParseChunk(FRESH, Flatten(Texts(ms))).sink.messages == Normalised(ms)
            <==> forall i | 0 <= i < |ms| :: Printable(ms[i])
  {
    hide ParseChunk, EagerFeed, Texts, Flatten, Normalised, Printable, LikeEmitted;
    assert FRESH == StartMachine([]);
    assert [] + Normalised(ms) == Normalised(ms);
    if forall i | 0 <= i < |ms| :: Printable(ms[i]) {
      StreamRoundTrip(ms, []);
    } else if ParseChunk(FRESH, Flatten(Texts(ms))).sink.messages == Normalised(ms) {
      var k :| 0 <= k < |ms| && !Printable(ms[k]);
      RoundTrippedIsLikeEmitted(ms);
      ParseAtStart([], Flatten(Texts(ms)));
      UnprintableStream(ms, [], k);
    }
  }

  // --- What the parser emits, printed again ------------------------------------------------

  /** Printing does not see the difference that normalising makes. */
  lemma NormaliseKeepsText(m: IRCMessage)
    ensures Text(Normalise(m)) == Text(m)
  {
  }

  /**
    Print/parse fixpoint, exactly: whatever the parser emits, on any input cut in
    any way, comes back from its printed form as one message that prints the same
    if and only if it has a parameter and a command that can be read again.
   */
  lemma EmittedFixpoint(chunks: seq<string>, msg: IRCMessage)
    requires msg in ParseChunks(FRESH, chunks).sink.messages
    ensures RoundTrips(msg) <==> msg.params != [] && CommandOk(msg.command, Prefixed(msg))
    ensures RoundTrips(msg) ==>
              var again := ParseChunk(FRESH, Text(msg)).sink.messages;
              |again| == 1 && Text(again[0]) == Text(msg)
  {
    hide Feed;
    OutputsAreClean(chunks);
    assert Clean(msg);
    CleanPrefixPrints(msg);
    RoundTripIff(msg);
    NormaliseKeepsText(msg);
  }

  /**
    The same for a text parsed in one call, from the outside: an emitted message
    comes back if and only if it has a parameter, and a prefix or a command of two
    characters.
   */
  lemma UncutFixpoint(s: string, msg: IRCMessage)
    requires msg in ParseChunk(FRESH, s).sink.messages
    ensures RoundTrips(msg) <==> msg.params != [] && (Prefixed(msg) || |msg.command| >= 2)
  {
    hide Feed, RoundTrips;
    EveryCommand(s);
    assert Formed(msg);
    assert ParseChunks(FRESH, [s]) == ParseChunk(FRESH, s) by {
      assert [s][1..] == [];
    }
    EmittedFixpoint([s], msg);
  }
}
