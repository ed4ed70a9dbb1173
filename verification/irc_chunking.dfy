/**
  What cutting the input into several calls does.  The partial token is local to
  one call, so a cut can only lose text; it never changes the framing, and it is
  harmless exactly when the token buffer is empty at the cut.
 */
module IRCChunking {
  import opened IRCMessages
  import opened IRCParsing
  import opened IRCEager
  import opened IRCAgreement
  import opened IRCShape

  predicate Suffix(c: string, u: string) {
    |c| <= |u| && c == u[|u| - |c|..]
  }

  /** `c` comes from `u` by deleting some strings and cutting the front of others. */
  predicate Thinned(c: seq<string>, u: seq<string>)
    decreases |u|
  {
    if u == [] then
      c == []
    else
      || Thinned(c, u[..|u| - 1])
      || (&& c != []
          && Suffix(c[|c| - 1], u[|u| - 1])
          && Thinned(c[..|c| - 1], u[..|u| - 1]))
  }

  predicate MessageLoss(c: IRCMessage, u: IRCMessage) {
    && Suffix(c.servername, u.servername)
    && Suffix(c.nick, u.nick)
    && Suffix(c.user, u.user)
    && Suffix(c.host, u.host)
    && Suffix(c.command, u.command)
    && Thinned(c.params, u.params)
  }

  predicate MessagesLoss(c: seq<IRCMessage>, u: seq<IRCMessage>) {
    |c| == |u| && forall i | 0 <= i < |c| :: MessageLoss(c[i], u[i])
  }

  // --- The simulation: a cut run beside the uncut run ---------------------------

  /** The cut run may have skipped a parameter that the uncut run has put. */
  predicate KindLoss(c: TokenType, u: TokenType) {
    c == u || (c == CommandTok && u == ParamTok)
  }

  predicate SinkLoss(c: Sink, u: Sink) {
    KindLoss(c.last, u.last) && MessageLoss(c.message, u.message) && MessagesLoss(c.messages, u.messages)
  }

  predicate Loss(c: Eager, u: Eager) {
    && c.state == u.state
    && Path(u.state, u.sink.last)
    && Suffix(c.token, u.token)
    && SinkLoss(c.sink, u.sink)
  }

  lemma SuffixAppend(c: string, u: string, x: char)
    requires Suffix(c, u)
    ensures Suffix(c + [x], u + [x])
  {
  }

  lemma ThinnedAppend(c: seq<string>, u: seq<string>, p: string, q: string)
    requires Thinned(c, u)
    ensures Thinned(c, u + [q])
    ensures Suffix(p, q) ==> Thinned(c + [p], u + [q])
  {
    assert (u + [q])[..|u|] == u;
    assert (c + [p])[..|c|] == c;
  }

  lemma BlankLoss()
    ensures MessageLoss(BLANK, BLANK)
  {
  }

  lemma AbsorbLoss(c: Sink, u: Sink, tc: Token, tu: Token)
    requires SinkLoss(c, u) && tc.kind == tu.kind && Suffix(tc.value, tu.value)
    ensures SinkLoss(Absorb(c, tc), Absorb(u, tu))
  {
    hide Suffix, Thinned;
    BlankLoss();
    if tc.kind == ParamTok {
      ThinnedAppend(c.message.params, u.message.params, tc.value, tu.value);
    }
  }

  /** Both runs put the token; the cut one may have no parameter left to put. */
  lemma PutLoss(c: Sink, u: Sink, put: Put, tc: string, tu: string)
    requires SinkLoss(c, u) && Suffix(tc, tu)
    requires put == ParamIfAny ==> u.last in {CommandTok, ParamTok}
    ensures SinkLoss(PutInto(c, put, tc), PutInto(u, put, tu))
  {
    match put
    case NoPut =>
    case Always(kind) => AbsorbLoss(c, u, Token(kind, tc), Token(kind, tu));
    case ParamIfAny =>
      if tc != "" {
        AbsorbLoss(c, u, Token(ParamTok, tc), Token(ParamTok, tu));
      } else if tu != "" {
        ThinnedAppend(c.message.params, u.message.params, "", tu);
      }
  }

  lemma StampLoss(c: Sink, u: Sink, mark: Mark)
    requires SinkLoss(c, u)
    ensures SinkLoss(Stamp(c, mark), Stamp(u, mark))
  {
    if mark.Mark? {
      AbsorbLoss(c, u, Token(mark.kind, ""), Token(mark.kind, ""));
    }
  }

  lemma LossMove(c: Eager, u: Eager, m: Move, x: char)
    requires Loss(c, u) && Follows(u.sink.last, m, u.token)
    ensures Loss(ApplyMove(c, m, x), ApplyMove(u, m, x))
  {
    MoveKeepsPath(u, m, x);
    SuffixAppend(c.token, u.token, x);
    PutLoss(c.sink, u.sink, m.put, c.token, u.token);
    StampLoss(PutInto(c.sink, m.put, c.token), PutInto(u.sink, m.put, u.token), m.mark);
  }

  lemma LossStep(c: Eager, u: Eager, x: char)
    requires Loss(c, u)
    ensures Loss(EagerStep(c, x), EagerStep(u, x))
  {
    hide EagerFeed, EagerStep;
    EagerStepMeans(c, x);
    EagerStepMeans(u, x);
    MoveFollowsPath(u.state, u.sink.last, u.token, x);
    LossMove(c, u, MoveOf(u.state, x), x);
  }

  lemma {:induction false} LossFeed(c: Eager, u: Eager, s: string)
    requires Loss(c, u)
    ensures Loss(EagerFeed(c, s), EagerFeed(u, s))
    decreases |s|
  {
    if s != "" {
      LossStep(c, u, s[0]);
      LossFeed(EagerStep(c, s[0]), EagerStep(u, s[0]), s[1..]);
    }
  }

  lemma {:induction false} LossChunks(c: Eager, u: Eager, chunks: seq<string>)
    requires Loss(c, u)
    ensures Loss(EagerChunks(c, chunks), EagerFeed(u, Flatten(chunks)))
    decreases |chunks|
  {
    if chunks != [] {
      var c', u' := EagerFeed(c, chunks[0]), EagerFeed(u, chunks[0]);
      LossFeed(c, u, chunks[0]);
      LossChunks(c'.(token := ""), u', chunks[1..]);
      EagerFeedAppend(u, chunks[0], Flatten(chunks[1..]));
    }
  }

  /** Chunking only loses text, for every stream and every way of cutting it. */
  lemma ChunkingOnlyLosesText(chunks: seq<string>)
    ensures var cut, whole := ParseChunks(FRESH, chunks), ParseChunk(FRESH, Flatten(chunks));
            && cut.state == whole.state
            && MessagesLoss(cut.sink.messages, whole.sink.messages)
  {
    ChunksRefine(FRESH, chunks);
    AgreesChunks(FRESH, chunks);
    AbstractMessages(Run(ParseChunks(FRESH, chunks), ""));
    FeedRefines(Run(FRESH, ""), Flatten(chunks));
    AgreesFeed(Run(FRESH, ""), Flatten(chunks));
    AbstractMessages(Feed(Run(FRESH, ""), Flatten(chunks)));
    LossChunks(EAGER_FRESH, EAGER_FRESH, chunks);
  }

  /** The framing of a stream does not depend on how it is cut. */
  lemma FramingIgnoresCuts(cs: seq<string>, ds: seq<string>)
    requires Flatten(cs) == Flatten(ds)
    ensures var c, d := ParseChunks(FRESH, cs), ParseChunks(FRESH, ds);
            c.state == d.state && |c.sink.messages| == |d.sink.messages|
  {
    ChunkingOnlyLosesText(cs);
    ChunkingOnlyLosesText(ds);
  }

  // --- Exactly which cuts are harmless ----------------------------------------

  /** The shortest text that completes a line from the given state. */
  function Probe(state: State): string {
    match state
    case ServerOrNick => " A \n"
    case User => " A \n"
    case Host => " A \n"
    case Command => "A \n"
    case CommandNum => " \n"
    case CommandLetter => " \n"
    case _ => "\n"
  }

  /** The message that `Probe` completes. */
  function Probed(e: Eager): IRCMessage {
    var m := e.sink.message;
    match e.state
    case ServerOrNick => m.(servername := e.token, command := "A")
    case User => m.(user := e.token, command := "A")
    case Host => m.(host := e.token, command := "A")
    case Command => m.(command := e.token + "A")
    case CommandNum => m.(command := e.token)
    case CommandLetter => m.(command := e.token)
    case Params => if e.token == "" then m else m.(params := m.params + [e.token])
    case _ => m.(params := m.params + [e.token])
  }

  lemma ProbeCompletes(e: Eager)
    requires Path(e.state, e.sink.last) && e.state != Start && e.state != Cr
    ensures EagerFeed(e, Probe(e.state)).sink.messages == e.sink.messages + [Probed(e)]
    decreases |Probe(e.state)|
  {
    hide EagerFeed, EagerStep;
    match e.state
    case Params => ProbeParams(e);
    case Trailing => ProbeParams(e);
    case CommandNum => ProbeCommandEnd(e);
    case CommandLetter => ProbeCommandEnd(e);
    case Command => ProbeCommand(e);
    case _ => ProbePrefix(e);
  }

  lemma ProbeParams(e: Eager)
    requires e.state in {Params, Trailing} && Path(e.state, e.sink.last)
    ensures EagerFeed(e, Probe(e.state)).sink.messages == e.sink.messages + [Probed(e)]
  {
    hide EagerFeed, EagerStep;
    assert MoveOf(e.state, '\n').mark == Mark(LfTok);
    FeedOne(e, '\n');
    EagerStepMeans(e, '\n');
    assert Probe(e.state) == ['\n'];
  }

  lemma ProbeCommandEnd(e: Eager)
    requires e.state in {CommandNum, CommandLetter} && Path(e.state, e.sink.last)
    ensures EagerFeed(e, Probe(e.state)).sink.messages == e.sink.messages + [Probed(e)]
  {
    hide EagerFeed, EagerStep;
    assert MoveOf(e.state, ' ') == Move(Params, false, Always(CommandTok), NoMark);
    EagerStepMeans(e, ' ');
    FeedFirst(e, ' ', Probe(Params));
    assert Probe(e.state) == [' '] + Probe(Params);
    ProbeParams(EagerStep(e, ' '));
  }

  lemma ProbeCommand(e: Eager)
    requires e.state == Command && Path(e.state, e.sink.last)
    ensures EagerFeed(e, Probe(e.state)).sink.messages == e.sink.messages + [Probed(e)]
  {
    hide EagerFeed, EagerStep;
    assert MoveOf(e.state, 'A') == Keep(CommandLetter);
    FeedFirst(e, 'A', Probe(CommandLetter));
    assert Probe(e.state) == ['A'] + Probe(CommandLetter);
    EagerStepMeans(e, 'A');
    ProbeCommandEnd(EagerStep(e, 'A'));
  }

  lemma ProbePrefix(e: Eager)
    requires e.state in {ServerOrNick, User, Host} && Path(e.state, e.sink.last)
    ensures EagerFeed(e, Probe(e.state)).sink.messages == e.sink.messages + [Probed(e)]
  {
    hide EagerFeed, EagerStep;
    var next := PrefixEnd(e);
    SpaceEndsPrefix(e);
    FeedFirst(e, ' ', Probe(Command));
    assert Probe(e.state) == [' '] + Probe(Command);
    ProbeCommand(next);
    assert "" + "A" == "A";
  }

  lemma ProbeTellsTokens(e: Eager)
    requires Path(e.state, e.sink.last) && e.state != Start && e.state != Cr && e.token != ""
    ensures Probed(e) != Probed(e.(token := ""))
  {
    var ps := e.sink.message.params;
    assert |e.token + "A"| != |"" + "A"|;
    assert (ps + [e.token])[|ps|] != (ps + [""])[|ps|];
    assert |ps + [e.token]| != |ps|;
  }

  /** After a call, the next call continues with the buffer dropped. */
  lemma CutDropsToken(m: Machine, a: string, b: string)
    ensures ParseChunk(m, a + b) == Feed(Feed(Run(m, ""), a), b).machine
    ensures ParseChunk(ParseChunk(m, a), b) == Feed(Feed(Run(m, ""), a).(token := ""), b).machine
  {
    FeedAppend(Run(m, ""), a, b);
  }

  predicate HarmlessCut(m: Machine, a: string, b: string) {
    ParseChunk(ParseChunk(m, a), b) == ParseChunk(m, a + b)
  }

  /** A text after which cutting at the end of `a` shows in the messages. */
  lemma HarmfulCut(earlier: seq<string>, a: string) returns (b: string)
    requires Feed(Run(ParseChunks(FRESH, earlier), ""), a).token != ""
    ensures var m := ParseChunks(FRESH, earlier);
            ParseChunk(ParseChunk(m, a), b).sink.messages != ParseChunk(m, a + b).sink.messages
  {
    hide EagerFeed, EagerStep;
    var m := ParseChunks(FRESH, earlier);
    var r := Feed(Run(m, ""), a);
    var dropped := r.(token := "");
    AgreesChunks(FRESH, earlier);
    AgreesFeed(Run(m, ""), a);
    ShapedAt(earlier, a);
    var e := Abstract(r);
    AbstractMessages(r);
    b := Probe(e.state);
    CutDropsToken(m, a, b);
    ProbeCompletes(e);
    ProbeCompletes(e.(token := ""));
    ProbeTellsTokens(e);
    MessagesOfFeed(r, b);
    MessagesOfFeed(dropped, b);
    var n := |e.sink.messages|;
    assert (e.sink.messages + [Probed(e)])[n] != (e.sink.messages + [Probed(e.(token := ""))])[n];
  }

  lemma MessagesOfFeed(r: Run, s: string)
    requires Agrees(r.machine)
    ensures Feed(r, s).machine.sink.messages == EagerFeed(Abstract(r), s).sink.messages
  {
    hide EagerFeed, EagerStep;
    FeedRefines(r, s);
    AgreesFeed(r, s);
    AbstractMessages(Feed(r, s));
  }

  lemma ShapedAt(earlier: seq<string>, part: string)
    ensures Shaped(Abstract(Feed(Run(ParseChunks(FRESH, earlier), ""), part)))
  {
    var m := ParseChunks(FRESH, earlier);
    ChunksRefine(FRESH, earlier);
    ShapedChunks(EAGER_FRESH, earlier);
    FeedRefines(Run(m, ""), part);
    ShapedFeed(Abstract(Run(m, "")), part);
  }

  /** No continuation shows that there was a cut. */
  ghost predicate AlwaysHarmless(m: Machine, a: string) {
    forall b :: HarmlessCut(m, a, b)
  }

  /**
    In every reachable state, cutting after `a` is harmless for every
    continuation if and only if the token buffer is empty there.
   */
  lemma CutIsHarmlessIffBufferEmpty(earlier: seq<string>, a: string)
    ensures AlwaysHarmless(ParseChunks(FRESH, earlier), a) <==> At(earlier, a).token == ""
  {
    var m := ParseChunks(FRESH, earlier);
    if At(earlier, a).token == "" {
      forall b ensures HarmlessCut(m, a, b) {
        CutDropsToken(m, a, b);
      }
    } else {
      var b := HarmfulCut(earlier, a);
      assert !HarmlessCut(m, a, b);
    }
  }

  // --- The same condition on the text -------------------------------------------------

  /** The lexer's state after a text; it depends on the characters only. */
  function StateAfter(state: State, s: string): State {
    if s == "" then state
    else
      var next := MoveOf(StateAfter(state, s[..|s| - 1]), s[|s| - 1]).next;
      if next == Lf then Start else next
  }

  /** In a call that starts in `state`, no character of `s` is kept for a token that is still open. */
  predicate KeepsNothing(state: State, s: string) {
    s == ""
    || var m := MoveOf(StateAfter(state, s[..|s| - 1]), s[|s| - 1]);
       m.put != NoPut || (!m.keep && KeepsNothing(state, s[..|s| - 1]))
  }

  lemma FeedLast(r: Run, s: string)
    requires s != ""
    ensures Feed(r, s) == Step(Feed(r, s[..|s| - 1]), s[|s| - 1])
  {
    hide Step;
    var x := s[|s| - 1];
    assert s == s[..|s| - 1] + [x];
    FeedAppend(r, s[..|s| - 1], [x]);
    assert Feed(Step(Feed(r, s[..|s| - 1]), x), [x][1..]) == Step(Feed(r, s[..|s| - 1]), x);
  }

  lemma StepState(r: Run, x: char)
    ensures var m := MoveOf(r.machine.state, x);
            && Step(r, x).machine.state == (if m.next == Lf then Start else m.next)
            && (Step(r, x).token == "" <==> m.put != NoPut || (!m.keep && r.token == ""))
  {
    hide MoveOf, Drain;
  }

  lemma {:induction false} FeedState(r: Run, s: string)
    ensures Feed(r, s).machine.state == StateAfter(r.machine.state, s)
    ensures r.token == "" ==> (Feed(r, s).token == "" <==> KeepsNothing(r.machine.state, s))
    decreases |s|
  {
    if s == "" {
      assert Feed(r, s) == r;
    } else {
      hide Feed, Step, MoveOf;
      FeedLast(r, s);
      FeedState(r, s[..|s| - 1]);
      StepState(Feed(r, s[..|s| - 1]), s[|s| - 1]);
    }
  }

  lemma {:induction false} StateAfterAppend(state: State, a: string, b: string)
    ensures StateAfter(state, a + b) == StateAfter(StateAfter(state, a), b)
    decreases |b|
  {
    hide MoveOf;
    if b == "" {
      assert a + b == a;
    } else {
      assert (a + b)[..|a + b| - 1] == a + b[..|b| - 1];
      StateAfterAppend(state, a, b[..|b| - 1]);
    }
  }

  lemma {:induction false} ChunksState(m: Machine, chunks: seq<string>)
    ensures ParseChunks(m, chunks).state == StateAfter(m.state, Flatten(chunks))
    decreases |chunks|
  {
    hide Feed;
    if chunks != [] {
      FeedState(Run(m, ""), chunks[0]);
      ChunksState(ParseChunk(m, chunks[0]), chunks[1..]);
      StateAfterAppend(m.state, chunks[0], Flatten(chunks[1..]));
    }
  }

  /**
    Harmless cuts, seen from outside: cutting after `a` is harmless for every
    continuation if and only if no character of this call is kept for an open token.
   */
  lemma CutIsHarmlessIffNothingKept(earlier: seq<string>, a: string)
    ensures AlwaysHarmless(ParseChunks(FRESH, earlier), a)
       <==> KeepsNothing(StateAfter(Start, Flatten(earlier)), a)
  {
    CutIsHarmlessIffBufferEmpty(earlier, a);
    ChunksState(FRESH, earlier);
    FeedState(Run(ParseChunks(FRESH, earlier), ""), a);
  }

  /** In particular just after every line end: the parser is back at the start. */
  lemma LineEndIsHarmless(earlier: seq<string>, a: string, b: string)
    requires ParseChunk(ParseChunks(FRESH, earlier), a).state == Start
    ensures HarmlessCut(ParseChunks(FRESH, earlier), a, b)
  {
    ShapedAt(earlier, a);
    CutDropsToken(ParseChunks(FRESH, earlier), a, b);
  }

  /** Every call ends with an empty token buffer. */
  predicate HarmlessCuts(m: Machine, chunks: seq<string>)
    decreases |chunks|
  {
    chunks != [] ==>
      && Feed(Run(m, ""), chunks[0]).token == ""
      && HarmlessCuts(ParseChunk(m, chunks[0]), chunks[1..])
  }

  lemma {:induction false} HarmlessCutsJoin(m: Machine, chunks: seq<string>)
    requires HarmlessCuts(m, chunks)
    ensures ParseChunks(m, chunks) == ParseChunk(m, Flatten(chunks))
    decreases |chunks|
  {
    if chunks != [] {
      CutDropsToken(m, chunks[0], Flatten(chunks[1..]));
      HarmlessCutsJoin(ParseChunk(m, chunks[0]), chunks[1..]);
    }
  }

  lemma {:induction false} ChunksAppend(m: Machine, chunks: seq<string>, chunk: string)
    ensures ParseChunks(m, chunks + [chunk]) == ParseChunk(ParseChunks(m, chunks), chunk)
    decreases |chunks|
  {
    hide ParseChunk;
    if chunks == [] {
      assert [chunk][1..] == [];
    } else {
      ChunksAppend(ParseChunk(m, chunks[0]), chunks[1..], chunk);
      assert (chunks + [chunk])[1..] == chunks[1..] + [chunk];
    }
  }

  lemma NoChunks(m: Machine)
    ensures ParseChunks(m, []) == m
  {
  }

  /** Every call starts and ends between two lines. */
  predicate WholeLines(chunks: seq<string>) {
    forall i | 0 <= i < |chunks| :: StateAfter(Start, chunks[i]) == Start
  }

  lemma {:induction false} WholeLinesFrom(earlier: seq<string>, chunks: seq<string>)
    requires WholeLines(earlier) && WholeLines(chunks)
    ensures HarmlessCuts(ParseChunks(FRESH, earlier), chunks)
    decreases |chunks|
  {
    if chunks != [] {
      hide Feed, StateAfter, ParseChunks;
      WholeLinesEndAtStart(earlier);
      var m := ParseChunks(FRESH, earlier);
      FeedState(Run(m, ""), chunks[0]);
      ShapedAt(earlier, chunks[0]);
      ChunksAppend(FRESH, earlier, chunks[0]);
      WholeLinesFrom(earlier + [chunks[0]], chunks[1..]);
    }
  }

  /** Calls that deliver whole lines cut no token. */
  lemma WholeLinesAreHarmless(chunks: seq<string>)
    requires WholeLines(chunks)
    ensures HarmlessCuts(FRESH, chunks)
  {
    NoChunks(FRESH);
    WholeLinesFrom([], chunks);
  }

  lemma {:induction false} WholeLinesEndAtStart(chunks: seq<string>)
    requires WholeLines(chunks)
    ensures ParseChunks(FRESH, chunks).state == Start
  {
    hide Feed, StateAfter;
    if chunks == [] {
      NoChunks(FRESH);
    } else {
      var before, last := chunks[..|chunks| - 1], chunks[|chunks| - 1];
      assert chunks == before + [last];
      WholeLinesEndAtStart(before);
      ChunksAppend(FRESH, before, last);
      FeedState(Run(ParseChunks(FRESH, before), ""), last);
    }
  }

  /**
    The promise that messages may come in parts fails for a whole family of
    inputs: of a command cut after two or more letters only the rest survives.
   */
  lemma PartsLoseText(head: string, rest: string)
    requires |head| >= 2 && AllLetters(head) && AllLetters(rest)
    ensures ParseChunk(FRESH, head + (rest + " \n")).sink.messages == [BLANK.(command := head + rest)]
    ensures ParseChunks(FRESH, [head, rest + " \n"]).sink.messages == [BLANK.(command := rest)]
  {
    hide EagerFeed, EagerStep, Feed;
    var tail := rest + " \n";
    var e := Eager(CommandLetter, head, EAGER_FRESH.sink);
    StartCommand(head);
    FinishCommand(e, rest);
    FinishCommand(e.(token := ""), rest);
    assert "" + rest == rest;
    EagerFeedAppend(EAGER_FRESH, head, tail);
    MessagesOfFeed(Run(FRESH, ""), head + tail);
    var chunks := [head, tail];
    ChunksRefine(FRESH, chunks);
    AgreesChunks(FRESH, chunks);
    AbstractMessages(Run(ParseChunks(FRESH, chunks), ""));
    assert chunks[1..] == [tail];
    assert EagerChunks(e.(token := ""), [tail]) == EagerFeed(e.(token := ""), tail).(token := "");
  }

  lemma StartCommand(head: string)
    requires |head| >= 2 && AllLetters(head)
    ensures EagerFeed(EAGER_FRESH, head) == Eager(CommandLetter, head, EAGER_FRESH.sink)
  {
    hide EagerFeed, EagerStep;
    var e := Eager(Command, [head[0]], EAGER_FRESH.sink);
    assert MoveOf(Start, head[0]) == Keep(Command);
    EagerStepMeans(EAGER_FRESH, head[0]);
    assert "" + [head[0]] == [head[0]];
    assert head == [head[0]] + head[1..];
    FeedFirst(EAGER_FRESH, head[0], head[1..]);
    FeedWord(e, head[1..]);
    assert [head[0]] + head[1..] == head;
  }

  lemma FinishCommand(e: Eager, rest: string)
    requires e.state == CommandLetter && Path(e.state, e.sink.last) && AllLetters(rest)
    ensures EagerFeed(e, rest + " \n").sink.messages
         == e.sink.messages + [e.sink.message.(command := e.token + rest)]
  {
    hide EagerFeed, EagerStep;
    FeedPlain(e, rest);
    EagerFeedAppend(e, rest, " \n");
    ProbeCommandEnd(e.(token := e.token + rest));
  }
}
