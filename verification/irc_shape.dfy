/** What every message looks like that the parser ever emits. */
module IRCShape {
  import opened IRCMessages
  import opened IRCParsing
  import opened IRCEager
  import opened IRCAgreement

  /** No character of `s` is one of `bad`. */
  predicate Free(s: string, bad: set<char>) {
    forall i | 0 <= i < |s| :: s[i] !in bad
  }

  const MIDDLE_STOPS := {':', ' ', '\0', '\r', '\n'}
  const TRAILING_STOPS := {'\0', '\r', '\n'}

  predicate Middle(p: string) {
    p != "" && Free(p, MIDDLE_STOPS)
  }

  predicate Middles(ps: seq<string>) {
    forall i | 0 <= i < |ps| :: Middle(ps[i])
  }

  /** Never a server name together with a nick, and no part holds its delimiters. */
  predicate CleanPrefix(m: IRCMessage) {
    && (m.servername == "" || m.nick == m.user == m.host == "")
    && Free(m.servername, {' ', '!', '@'})
    && Free(m.nick, {' ', '!', '@'})
    && Free(m.user, {' ', '@'})
    && Free(m.host, {' '})
  }

  predicate CleanParams(ps: seq<string>) {
    ps == [] || (Middles(ps[..|ps| - 1]) && Free(ps[|ps| - 1], TRAILING_STOPS))
  }

  predicate Clean(m: IRCMessage) {
    CleanPrefix(m) && CleanParams(m.params)
  }

  predicate AllClean(ms: seq<IRCMessage>) {
    forall i | 0 <= i < |ms| :: Clean(ms[i])
  }

  /** The text and the message in progress, state by state. */
  predicate Shaped(e: Eager) {
    var m := e.sink.message;
    && AllClean(e.sink.messages)
    && Path(e.state, e.sink.last)
    && CleanPrefix(m)
    && match e.state
       case Start => m == BLANK && e.token == ""
       case ServerOrNick => m == BLANK && Free(e.token, {' ', '!', '@'})
       case User => m == BLANK.(nick := m.nick) && Free(e.token, {' ', '@'})
       case Host => m == BLANK.(nick := m.nick, user := m.user) && Free(e.token, {' '})
       case Command => m.params == []
       case CommandNum => m.params == []
       case CommandLetter => m.params == []
       case Params => Middles(m.params) && (e.token == "" || Middle(e.token))
       case Trailing => Middles(m.params) && Free(e.token, TRAILING_STOPS)
       case Cr => CleanParams(m.params) && e.token == ""
       case Lf => false
  }

  lemma CleanParamsAppend(ps: seq<string>, p: string)
    requires Middles(ps) && Free(p, TRAILING_STOPS)
    ensures CleanParams(ps + [p])
  {
    assert (ps + [p])[..|ps|] == ps;
  }

  lemma MiddleIsClean(p: string)
    requires Middle(p)
    ensures Free(p, TRAILING_STOPS)
  {
  }

  lemma MiddlesAreClean(ps: seq<string>)
    requires Middles(ps)
    ensures CleanParams(ps)
  {
    if ps != [] {
      MiddleIsClean(ps[|ps| - 1]);
    }
  }

  lemma ShapedStep(e: Eager, x: char)
    requires Shaped(e)
    ensures Shaped(EagerStep(e, x))
  {
    hide EagerStep;
    match e.state
    case Params => ShapedStepParams(e, x);
    case Trailing => ShapedStepTrailing(e, x);
    case ServerOrNick => ShapedStepPrefix(e, x);
    case User => ShapedStepPrefix(e, x);
    case Host => ShapedStepPrefix(e, x);
    case _ => ShapedStepHead(e, x);
  }

  /** Up to the end of the prefix. */
  lemma ShapedStepPrefix(e: Eager, x: char)
    requires Shaped(e) && e.state in {ServerOrNick, User, Host}
    ensures Shaped(EagerStep(e, x))
  {
    hide EagerStep;
    EagerStepMeans(e, x);
  }

  /** The command, and what comes before and after a line. */
  lemma ShapedStepHead(e: Eager, x: char)
    requires Shaped(e) && e.state in {Start, Command, CommandNum, CommandLetter, Cr}
    ensures Shaped(EagerStep(e, x))
  {
    hide EagerStep;
    EagerStepMeans(e, x);
  }

  /** A parameter that ends, and the line with it when `mark` is a line end. */
  lemma ParamEnds(e: Eager, mark: TokenType)
    requires Shaped(e) && e.state in {Params, Trailing} && mark in {CrTok, LfTok}
    requires CleanParams(e.sink.message.params)
    ensures var s := Absorb(e.sink, Token(mark, ""));
            Shaped(Eager(if mark == CrTok then Cr else Start, "", s))
  {
  }

  /** The pending parameter is put, if there is one. */
  function Flushed(e: Eager): Eager {
    Eager(e.state, "", if e.token == "" then e.sink else Absorb(e.sink, Token(ParamTok, e.token)))
  }

  lemma ShapedFlush(e: Eager)
    requires Shaped(e) && e.state == Params
    ensures Shaped(Flushed(e)) && CleanParams(Flushed(e).sink.message.params)
  {
    var flushed := Flushed(e).sink.message;
    assert flushed == e.sink.message.(params := flushed.params);
    MiddlesAreClean(flushed.params);
  }

  lemma ShapedStepParams(e: Eager, x: char)
    requires Shaped(e) && e.state == Params
    ensures Shaped(EagerStep(e, x))
  {
    hide EagerStep;
    EagerStepMeans(e, x);
    var e' := Flushed(e);
    ShapedFlush(e);
    if x == '\r' {
      ParamEnds(e', CrTok);
    } else if x == '\n' {
      ParamEnds(e', LfTok);
    }
  }

  lemma ShapedStepTrailing(e: Eager, x: char)
    requires Shaped(e) && e.state == Trailing
    ensures Shaped(EagerStep(e, x))
  {
    hide EagerStep;
    EagerStepMeans(e, x);
    CleanParamsAppend(e.sink.message.params, e.token);
  }

  lemma {:induction false} ShapedFeed(e: Eager, s: string)
    requires Shaped(e)
    ensures Shaped(EagerFeed(e, s))
    decreases |s|
  {
    if s != "" {
      ShapedStep(e, s[0]);
      ShapedFeed(EagerStep(e, s[0]), s[1..]);
    }
  }

  lemma {:induction false} ShapedChunks(e: Eager, chunks: seq<string>)
    requires Shaped(e)
    ensures Shaped(EagerChunks(e, chunks))
    decreases |chunks|
  {
    if chunks != [] {
      ShapedFeed(e, chunks[0]);
      ShapedChunks(EagerFeed(e, chunks[0]).(token := ""), chunks[1..]);
    }
  }

  /** Every message emitted, for every input and every way of cutting it, is clean. */
  lemma OutputsAreClean(chunks: seq<string>)
    ensures forall msg | msg in ParseChunks(FRESH, chunks).sink.messages :: Clean(msg)
  {
    ChunksRefine(FRESH, chunks);
    AgreesChunks(FRESH, chunks);
    AbstractMessages(Run(ParseChunks(FRESH, chunks), ""));
    ShapedChunks(EAGER_FRESH, chunks);
  }
}
