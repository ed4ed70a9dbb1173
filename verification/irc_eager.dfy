/**
  The same parser with the queue taken out: each token is absorbed as soon as it
  is put.  The queued machine refines this one at every character, so whole-run
  properties can be proved here, one character at a time.
 */
module IRCEager {
  import opened IRCMessages
  import opened IRCParsing

  datatype Eager = Eager(state: State, token: string, sink: Sink)

  const EAGER_FRESH: Eager := Eager(Start, "", Sink(LfTok, BLANK, []))

  function EagerStep(e: Eager, x: char): Eager {
    var l := LexChar(e.state, e.token, x);
    Eager(if l.state == Lf then Start else l.state, l.token, Drain(e.sink, l.out))
  }

  function EagerFeed(e: Eager, s: string): Eager
    decreases |s|
  {
    if s == "" then e else EagerFeed(EagerStep(e, s[0]), s[1..])
  }

  /** A run of calls: the token buffer is lost at the end of each. */
  function EagerChunks(e: Eager, chunks: seq<string>): Eager
    decreases |chunks|
  {
    if chunks == [] then e
    else EagerChunks(EagerFeed(e, chunks[0]).(token := ""), chunks[1..])
  }

  function Abstract(r: Run): Eager {
    Eager(r.machine.state, r.token, Drain(r.machine.sink, r.machine.tokens))
  }

  lemma {:induction false} DrainAppend(s: Sink, a: seq<Token>, b: seq<Token>)
    ensures Drain(s, a + b) == Drain(Drain(s, a), b)
    decreases |a|
  {
    if a == [] {
      assert a + b == b;
    } else {
      DrainAppend(Absorb(s, a[0]), a[1..], b);
      assert (a + b)[1..] == a[1..] + b;
    }
  }

  // --- One character, absorbed ----------------------------------------------------

  function PutInto(s: Sink, put: Put, token: string): Sink {
    match put
    case NoPut => s
    case Always(kind) => Absorb(s, Token(kind, token))
    case ParamIfAny => if token == "" then s else Absorb(s, Token(ParamTok, token))
  }

  function Stamp(s: Sink, mark: Mark): Sink {
    match mark
    case NoMark => s
    case Mark(kind) => Absorb(s, Token(kind, ""))
  }

  /** One character puts at most one token and one line mark. */
  function ApplyMove(e: Eager, m: Move, x: char): Eager {
    Eager(if m.next == Lf then Start else m.next,
          if m.put != NoPut then "" else if m.keep then e.token + [x] else e.token,
          Stamp(PutInto(e.sink, m.put, e.token), m.mark))
  }

  lemma EagerStepMeans(e: Eager, x: char)
    ensures EagerStep(e, x) == ApplyMove(e, MoveOf(e.state, x), x)
  {
    var m := MoveOf(e.state, x);
    DrainAppend(e.sink, PutTokens(m.put, e.token), MarkTokens(m.mark));
    DrainShort(e.sink, PutTokens(m.put, e.token));
    DrainShort(PutInto(e.sink, m.put, e.token), MarkTokens(m.mark));
  }

  lemma DrainShort(s: Sink, tokens: seq<Token>)
    requires |tokens| <= 1
    ensures Drain(s, tokens) == if tokens == [] then s else Absorb(s, tokens[0])
  {
  }

  lemma {:induction false} FeedAppend(r: Run, a: string, b: string)
    ensures Feed(r, a + b) == Feed(Feed(r, a), b)
    decreases |a|
  {
    if a == "" {
      assert a + b == b;
    } else {
      var next := Step(r, a[0]);
      assert (a + b)[0] == a[0] && (a + b)[1..] == a[1..] + b;
      FeedAppend(next, a[1..], b);
    }
  }

  lemma {:induction false} EagerFeedAppend(e: Eager, a: string, b: string)
    ensures EagerFeed(e, a + b) == EagerFeed(EagerFeed(e, a), b)
    decreases |a|
  {
    if a == "" {
      assert a + b == b;
    } else {
      var next := EagerStep(e, a[0]);
      assert (a + b)[0] == a[0] && (a + b)[1..] == a[1..] + b;
      EagerFeedAppend(next, a[1..], b);
    }
  }

  // --- Refinement -------------------------------------------------------------

  lemma StepRefines(r: Run, x: char)
    ensures Abstract(Step(r, x)) == EagerStep(Abstract(r), x)
  {
    DrainAppend(r.machine.sink, r.machine.tokens, LexChar(r.machine.state, r.token, x).out);
  }

  lemma {:induction false} FeedRefines(r: Run, s: string)
    ensures Abstract(Feed(r, s)) == EagerFeed(Abstract(r), s)
    decreases |s|
  {
    if s != "" {
      StepRefines(r, s[0]);
      FeedRefines(Step(r, s[0]), s[1..]);
    }
  }

  lemma {:induction false} ChunksRefine(m: Machine, chunks: seq<string>)
    ensures Abstract(Run(ParseChunks(m, chunks), "")) == EagerChunks(Abstract(Run(m, "")), chunks)
    decreases |chunks|
  {
    if chunks != [] {
      FeedRefines(Run(m, ""), chunks[0]);
      ChunksRefine(ParseChunk(m, chunks[0]), chunks[1..]);
    }
  }

  // --- Feeding text that only fills the token buffer ----------------------------

  /** The character is appended to the token buffer and nothing else happens. */
  predicate Plain(state: State, x: char) {
    match state
    case ServerOrNick => x !in {' ', '!', '@'}
    case User => x !in {' ', '@'}
    case Host => x != ' '
    case CommandNum => IsDigit(x)
    case CommandLetter => IsLetter(x)
    case Params => x !in {':', ' ', '\0', '\r', '\n'}
    case Trailing => x !in {'\0', '\r', '\n'}
    case _ => false
  }

  lemma StepPlain(e: Eager, x: char)
    requires Plain(e.state, x)
    ensures EagerStep(e, x) == e.(token := e.token + [x])
  {
    assert MoveOf(e.state, x) == Keep(e.state);
    EagerStepMeans(e, x);
  }

  lemma {:induction false} FeedPlain(e: Eager, s: string)
    requires forall i | 0 <= i < |s| :: Plain(e.state, s[i])
    ensures EagerFeed(e, s) == e.(token := e.token + s)
    decreases |s|
  {
    hide EagerStep;
    if s == "" {
      assert e.token + s == e.token;
    } else {
      var next := e.(token := e.token + [s[0]]);
      StepPlain(e, s[0]);
      FeedPlain(next, s[1..]);
      assert next.token + s[1..] == e.token + s;
    }
  }

  lemma FeedOne(e: Eager, x: char)
    ensures EagerFeed(e, [x]) == EagerStep(e, x)
  {
    hide EagerStep;
    assert EagerFeed(EagerStep(e, x), [x][1..]) == EagerStep(e, x);
  }

  lemma FeedFirst(e: Eager, x: char, s: string)
    ensures EagerFeed(e, [x] + s) == EagerFeed(EagerStep(e, x), s)
  {
    hide EagerStep;
    assert ([x] + s)[0] == x && ([x] + s)[1..] == s;
  }

  predicate AllDigits(s: string) {
    forall i | 0 <= i < |s| :: IsDigit(s[i])
  }

  predicate AllLetters(s: string) {
    forall i | 0 <= i < |s| :: IsLetter(s[i])
  }

  /** A command as the lexer reads it: digits only or letters only. */
  predicate Word(w: string) {
    w != "" && (AllDigits(w) || AllLetters(w))
  }

  function WordState(w: string): State
    requires w != ""
  {
    if IsDigit(w[0]) then CommandNum else CommandLetter
  }

  lemma FeedWord(e: Eager, w: string)
    requires e.state == Command && Word(w)
    ensures EagerFeed(e, w) == Eager(WordState(w), e.token + w, e.sink)
  {
    hide EagerStep, EagerFeed;
    var next := Eager(WordState(w), e.token + [w[0]], e.sink);
    assert MoveOf(Command, w[0]) == Keep(WordState(w));
    EagerStepMeans(e, w[0]);
    assert w == [w[0]] + w[1..];
    FeedFirst(e, w[0], w[1..]);
    FeedPlain(next, w[1..]);
    assert next.token + w[1..] == e.token + w;
  }

  /** A space ends the prefix, whichever part of it was being read. */
  function PrefixEnd(e: Eager): Eager {
    var kind := match e.state case User => UserTok case Host => HostTok case _ => ServerTok;
    Eager(Command, "", Absorb(e.sink, Token(kind, e.token)))
  }

  lemma SpaceEndsPrefix(e: Eager)
    requires e.state in {ServerOrNick, User, Host}
    ensures EagerStep(e, ' ') == PrefixEnd(e)
  {
    hide EagerStep;
    EagerStepMeans(e, ' ');
  }
}
