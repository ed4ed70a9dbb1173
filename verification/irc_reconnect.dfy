/**
  After a connection error the program runs the same core again, and its parser
  with it: what a broken connection leaves behind.
 */
module IRCReconnect {
  import opened IRCMessages
  import opened IRCParsing
  import opened IRCEager
  import opened IRCAgreement
  import opened IRCGrammar
  import opened IRCChunking
  import opened IRCRfc

  /** The parser at the start of a new connection: all messages have been taken out. */
  function Reconnected(earlier: seq<string>): Machine {
    Requeue(ParseChunks(FRESH, earlier), [])
  }

  /** Nothing of the new connection is read differently. */
  ghost predicate LikeFresh(m: Machine) {
    forall chunks :: ParseChunks(m, chunks).sink.messages == ParseChunks(FRESH, chunks).sink.messages
  }

  /** Between two lines there is nothing left over. */
  lemma StartIsFresh(earlier: seq<string>)
    requires Reconnected(earlier).state == Start
    ensures Reconnected(earlier) == FRESH
  {
    hide ParseChunks;
    var m := ParseChunks(FRESH, earlier);
    AgreesChunks(FRESH, earlier);
    StartHasNoTokens(m.tokens);
  }

  lemma {:induction false} StartHasNoTokens(tokens: seq<Token>)
    requires NoLf(tokens) && Path(Start, LastKind(LfTok, tokens))
    ensures tokens == []
  {
    if tokens != [] {
      LastKindIsThere(LfTok, tokens);
    }
  }

  lemma {:induction false} LastKindIsThere(last: TokenType, tokens: seq<Token>)
    requires tokens != []
    ensures exists i | 0 <= i < |tokens| :: tokens[i].kind == LastKind(last, tokens)
    decreases |tokens|
  {
    if tokens[1..] == [] {
      assert tokens[0].kind == LastKind(last, tokens);
    } else {
      LastKindIsThere(tokens[0].kind, tokens[1..]);
      var i :| 0 <= i < |tokens[1..]| && tokens[1..][i].kind == LastKind(tokens[0].kind, tokens[1..]);
      assert tokens[i + 1].kind == LastKind(last, tokens);
    }
  }

  // --- A text that tells the parsers apart --------------------------------------------------

  lemma OneChunk(m: Machine, s: string)
    ensures ParseChunks(m, [s]) == ParseChunk(m, s)
  {
    hide ParseChunk;
    assert [s][1..] == [];
    assert ParseChunks(ParseChunk(m, s), []) == ParseChunk(m, s);
  }

  /** Inside the parameters a line end completes a message, and alone it does not. */
  lemma LineEndTells(e: Eager, q: seq<IRCMessage>)
    requires e.state in {Params, Trailing, Cr} && Path(e.state, e.sink.last)
    ensures |EagerFeed(e, ['\n']).sink.messages| == |e.sink.messages| + 1
    ensures EagerFeed(AtStart(q), ['\n']).sink.messages == q
  {
    hide EagerFeed, EagerStep;
    FeedOne(e, '\n');
    FeedOne(AtStart(q), '\n');
    EagerStepMeans(e, '\n');
    EagerStepMeans(AtStart(q), '\n');
  }

  /** Inside the prefix or the command a probe completes a command shorter than any first one. */
  lemma ProbeTells(e: Eager)
    requires e.state in {ServerOrNick, User, Host, Command, CommandNum, CommandLetter}
    requires Path(e.state, e.sink.last) && e.token == "" && e.sink.messages == []
    ensures EagerFeed(e, Probe(e.state)).sink.messages
         != EagerFeed(AtStart([]), Probe(e.state)).sink.messages
  {
    hide EagerFeed, EagerStep;
    var s := Probe(e.state);
    var alone := EagerFeed(AtStart([]), s).sink.messages;
    ProbeCompletes(e);
    if |alone| > 0 {
      FirstCommand([], s);
      assert s[0] != ':';
      assert |Probed(e).command| < 2;
    }
  }

  /** A connection that breaks inside a line shows in the messages of the next one. */
  lemma HalfLineLeaks(earlier: seq<string>) returns (chunks: seq<string>)
    requires Reconnected(earlier).state != Start
    ensures ParseChunks(Reconnected(earlier), chunks).sink.messages
         != ParseChunks(FRESH, chunks).sink.messages
  {
    hide EagerFeed, EagerStep, Feed, ParseChunks;
    var m := Reconnected(earlier);
    AgreesChunks(FRESH, earlier);
    assert Agrees(m);
    var r := Run(m, "");
    AbstractMessages(r);
    var e := Abstract(r);
    var s := if e.state in {Params, Trailing, Cr} then ['\n'] else Probe(e.state);
    if e.state in {Params, Trailing, Cr} {
      LineEndTells(e, []);
    } else {
      ProbeTells(e);
    }
    MessagesOfFeed(r, s);
    assert FRESH == StartMachine([]);
    ParseAtStart([], s);
    chunks := [s];
    OneChunk(m, s);
    OneChunk(FRESH, s);
  }

  /**
    Every delivery of a new connection is read as a fresh parser reads it, if and
    only if all that was received before ends between two lines.
   */
  lemma ReconnectIff(earlier: seq<string>)
    ensures LikeFresh(Reconnected(earlier)) <==> StateAfter(Start, Flatten(earlier)) == Start
  {
    hide ParseChunks, StateAfter;
    ChunksState(FRESH, earlier);
    if Reconnected(earlier).state == Start {
      StartIsFresh(earlier);
    } else {
      var chunks := HalfLineLeaks(earlier);
    }
  }
}
