/** The two automata agree: what the lexer queues is what the token machine expects. */
module IRCAgreement {
  import opened IRCMessages
  import opened IRCParsing
  import opened IRCEager

  /** Read one after another, none of the tokens is misplaced. */
  predicate Orderly(last: TokenType, tokens: seq<Token>)
    decreases |tokens|
  {
    tokens == [] || (!Misplaced(last, tokens[0].kind) && Orderly(tokens[0].kind, tokens[1..]))
  }

  function LastKind(last: TokenType, tokens: seq<Token>): TokenType {
    if tokens == [] then last else tokens[|tokens| - 1].kind
  }

  predicate NoLf(tokens: seq<Token>) {
    forall t | t in tokens :: t.kind != LfTok
  }

  /** The kinds of token that may have been queued last in a lexer state. */
  predicate Path(state: State, last: TokenType) {
    match state
    case Start => last == LfTok
    case ServerOrNick => last == LfTok
    case User => last == NickTok
    case Host => last in {NickTok, UserTok}
    case Command => last in {LfTok, ServerTok, UserTok, HostTok}
    case CommandNum => last in {LfTok, ServerTok, UserTok, HostTok}
    case CommandLetter => last in {LfTok, ServerTok, UserTok, HostTok}
    case Params => last in {CommandTok, ParamTok}
    case Trailing => last in {CommandTok, ParamTok}
    case Cr => last == CrTok
    case Lf => false
  }

  /** The invariant of the parser between any two characters. */
  predicate Agrees(m: Machine) {
    && m.sink.last == LfTok
    && m.sink.message == BLANK
    && NoLf(m.tokens)
    && Orderly(LfTok, m.tokens)
    && Path(m.state, LastKind(LfTok, m.tokens))
  }

  lemma {:induction false} OrderlyAppend(last: TokenType, a: seq<Token>, b: seq<Token>)
    requires Orderly(last, a) && Orderly(LastKind(last, a), b)
    ensures Orderly(last, a + b)
    decreases |a|
  {
    if a == [] {
      assert a + b == b;
    } else {
      OrderlyAppend(a[0].kind, a[1..], b);
      assert (a + b)[1..] == a[1..] + b;
    }
  }

  lemma {:induction false} DrainWithoutLf(s: Sink, tokens: seq<Token>)
    requires NoLf(tokens)
    ensures Drain(s, tokens).messages == s.messages
    ensures Drain(s, tokens).last == LastKind(s.last, tokens)
    decreases |tokens|
  {
    if tokens != [] {
      DrainWithoutLf(Absorb(s, tokens[0]), tokens[1..]);
    }
  }

  /** The kind of the last token once a move has put its token. */
  function KindAfterPut(last: TokenType, put: Put, token: string): TokenType {
    match put
    case NoPut => last
    case Always(kind) => kind
    case ParamIfAny => if token == "" then last else ParamTok
  }

  /** The token and the mark of a move may follow `last`, and lead into its next state. */
  predicate Follows(last: TokenType, m: Move, token: string) {
    var mid := KindAfterPut(last, m.put, token);
    && (m.put.Always? ==> !Misplaced(last, m.put.kind) && m.put.kind != LfTok)
    && (m.put == ParamIfAny ==> last in {CommandTok, ParamTok})
    && (m.next == Lf ==> m.mark == Mark(LfTok))
    && (m.mark.Mark? ==> !Misplaced(mid, m.mark.kind))
    && (m.next != Lf ==>
          && m.mark in {NoMark, Mark(CrTok)}
          && Path(m.next, if m.mark.NoMark? then mid else CrTok))
  }

  /** Every transition of the lexer continues the path of its state. */
  lemma MoveFollowsPath(state: State, last: TokenType, token: string, x: char)
    requires Path(state, last)
    ensures Follows(last, MoveOf(state, x), token)
  {
  }

  /** A move that follows the path stays on it. */
  lemma MoveKeepsPath(e: Eager, m: Move, x: char)
    requires Follows(e.sink.last, m, e.token)
    ensures Path(ApplyMove(e, m, x).state, ApplyMove(e, m, x).sink.last)
  {
    assert PutInto(e.sink, m.put, e.token).last == KindAfterPut(e.sink.last, m.put, e.token);
  }

  lemma PutIsOrderly(last: TokenType, put: Put, token: string)
    requires put.Always? ==> !Misplaced(last, put.kind)
    requires put == ParamIfAny ==> last in {CommandTok, ParamTok}
    ensures Orderly(last, PutTokens(put, token))
    ensures LastKind(last, PutTokens(put, token)) == KindAfterPut(last, put, token)
  {
    var tokens := PutTokens(put, token);
    if tokens != [] {
      assert tokens[1..] == [];
    }
  }

  lemma MarkIsOrderly(last: TokenType, mark: Mark)
    requires mark.Mark? ==> !Misplaced(last, mark.kind)
    ensures Orderly(last, MarkTokens(mark))
  {
    if mark.Mark? {
      assert MarkTokens(mark)[1..] == [];
    }
  }

  lemma MoveIsOrderly(last: TokenType, m: Move, token: string)
    requires Follows(last, m, token)
    ensures var out := PutTokens(m.put, token) + MarkTokens(m.mark);
            && Orderly(last, out)
            && (m.next == Lf ==>
                  |out| > 0 && out[|out| - 1].kind == LfTok && NoLf(out[..|out| - 1]))
            && (m.next != Lf ==> NoLf(out) && Path(m.next, LastKind(last, out)))
  {
    var put, mark := PutTokens(m.put, token), MarkTokens(m.mark);
    hide Misplaced, Orderly, Path;
    PutIsOrderly(last, m.put, token);
    MarkIsOrderly(KindAfterPut(last, m.put, token), m.mark);
    OrderlyAppend(last, put, mark);
    if m.mark.Mark? {
      assert (put + mark)[..|put + mark| - 1] == put;
    } else {
      assert put + mark == put;
    }
  }

  /** One character: what it queues continues the path of the state. */
  lemma LexCharFollowsPath(state: State, last: TokenType, token: string, x: char)
    requires Path(state, last)
    ensures var l := LexChar(state, token, x);
            && Orderly(last, l.out)
            && (l.state == Lf ==>
                  |l.out| > 0 && l.out[|l.out| - 1].kind == LfTok && NoLf(l.out[..|l.out| - 1]))
            && (l.state != Lf ==> NoLf(l.out) && Path(l.state, LastKind(last, l.out)))
  {
    MoveFollowsPath(state, last, token, x);
    MoveIsOrderly(last, MoveOf(state, x), token);
  }

  /**
    One call of the token machine, from any agreeing state: no token is
    misplaced, exactly one message is pushed, and the machine is blank again.
   */
  lemma ParserCallIsClean(r: Run, x: char)
    requires Agrees(r.machine)
    requires LexChar(r.machine.state, r.token, x).state == Lf
    ensures Orderly(LfTok, r.machine.tokens + LexChar(r.machine.state, r.token, x).out)
    ensures var after := Step(r, x).machine;
            && after.tokens == []
            && after.state == Start
            && after.sink.last == LfTok
            && after.sink.message == BLANK
            && |after.sink.messages| == |r.machine.sink.messages| + 1
            && r.machine.sink.messages <= after.sink.messages
  {
    var m := r.machine;
    var out := LexChar(m.state, r.token, x).out;
    hide LexChar, Path, Misplaced, Absorb;
    LexCharFollowsPath(m.state, LastKind(LfTok, m.tokens), r.token, x);
    OrderlyAppend(LfTok, m.tokens, out);
    hide Orderly, Drain;
    var head, lf := m.tokens + out[..|out| - 1], out[|out| - 1];
    assert m.tokens + out == head + [lf];
    LastDrain(m.sink, head, lf);
  }

  /** Tokens that end in the only line feed: one message more, and a blank one begun. */
  lemma LastDrain(s: Sink, head: seq<Token>, lf: Token)
    requires NoLf(head) && lf.kind == LfTok && Orderly(s.last, head + [lf])
    ensures var after := Drain(s, head + [lf]);
            && after.last == LfTok
            && after.message == BLANK
            && |after.messages| == |s.messages| + 1
            && s.messages <= after.messages
  {
    DrainWithoutLf(s, head);
    DrainAppend(s, head, [lf]);
    DrainShort(Drain(s, head), [lf]);
    OrderlyLast(s.last, head, lf);
  }

  lemma {:induction false} OrderlyLast(last: TokenType, a: seq<Token>, t: Token)
    requires Orderly(last, a + [t])
    ensures !Misplaced(LastKind(last, a), t.kind)
    decreases |a|
  {
    if a == [] {
    } else {
      assert (a + [t])[1..] == a[1..] + [t];
      OrderlyLast(a[0].kind, a[1..], t);
    }
  }

  lemma AgreesStep(r: Run, x: char)
    requires Agrees(r.machine)
    ensures Agrees(Step(r, x).machine)
  {
    var m := r.machine;
    var l := LexChar(m.state, r.token, x);
    LexCharFollowsPath(m.state, LastKind(LfTok, m.tokens), r.token, x);
    if l.state == Lf {
      ParserCallIsClean(r, x);
    } else {
      OrderlyAppend(LfTok, m.tokens, l.out);
      assert LastKind(LfTok, m.tokens + l.out) == LastKind(LastKind(LfTok, m.tokens), l.out);
    }
  }

  lemma {:induction false} AgreesFeed(r: Run, s: string)
    requires Agrees(r.machine)
    ensures Agrees(Feed(r, s).machine)
    decreases |s|
  {
    if s != "" {
      AgreesStep(r, s[0]);
      AgreesFeed(Step(r, s[0]), s[1..]);
    }
  }

  lemma {:induction false} AgreesChunks(m: Machine, chunks: seq<string>)
    requires Agrees(m)
    ensures Agrees(ParseChunks(m, chunks))
    decreases |chunks|
  {
    if chunks != [] {
      AgreesFeed(Run(m, ""), chunks[0]);
      AgreesChunks(ParseChunk(m, chunks[0]), chunks[1..]);
    }
  }

  /** In an agreeing machine the queue hides no finished message. */
  lemma AbstractMessages(r: Run)
    requires Agrees(r.machine)
    ensures Abstract(r).sink.messages == r.machine.sink.messages
    ensures Abstract(r).sink.last == LastKind(LfTok, r.machine.tokens)
  {
    DrainWithoutLf(r.machine.sink, r.machine.tokens);
  }

  /** The parser after the calls `earlier`, in a call that has read `part` so far. */
  function At(earlier: seq<string>, part: string): Run {
    Feed(Run(ParseChunks(FRESH, earlier), ""), part)
  }

  /** The next character ends the line, so the token machine is called. */
  predicate EndsLine(r: Run, x: char) {
    LexChar(r.machine.state, r.token, x).state == Lf
  }

  /** That call reports no error, pushes exactly one message and leaves everything blank. */
  predicate CleanCall(r: Run, x: char) {
    && Orderly(LfTok, r.machine.tokens + LexChar(r.machine.state, r.token, x).out)
    && var after := Step(r, x).machine;
       && after.tokens == []
       && after.sink.last == LfTok
       && after.sink.message == BLANK
       && |after.sink.messages| == |r.machine.sink.messages| + 1
       && r.machine.sink.messages <= after.sink.messages
  }

  /** Lexer and token machine agree in every reachable state, under any chunking. */
  lemma LexerParserAgreement(earlier: seq<string>, part: string, x: char)
    ensures Agrees(At(earlier, part).machine)
    ensures EndsLine(At(earlier, part), x) ==> CleanCall(At(earlier, part), x)
  {
    AgreesChunks(FRESH, earlier);
    AgreesFeed(Run(ParseChunks(FRESH, earlier), ""), part);
    hide Feed;
    if EndsLine(At(earlier, part), x) {
      ParserCallIsClean(At(earlier, part), x);
    }
  }
}
