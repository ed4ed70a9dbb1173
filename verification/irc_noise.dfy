/** Characters that have no place where they stand: the lexer reports them and reads on. */
module IRCNoise {
  import opened IRCMessages
  import opened IRCParsing
  import opened IRCEager
  import opened IRCChunking

  /** A character that is skipped in this state. */
  predicate Ignored(state: State, x: char) {
    match state
    case Command => !IsDigit(x) && !IsLetter(x)
    case CommandNum => !IsDigit(x) && x != ' '
    case CommandLetter => !IsLetter(x) && x != ' '
    case Params => x == '\0'
    case Trailing => x == '\0'
    case Cr => x != '\n'
    case _ => false
  }

  lemma IgnoredStep(r: Run, x: char)
    requires Ignored(r.machine.state, x)
    ensures Step(r, x) == r
  {
    hide Drain;
    assert r.machine.tokens + [] == r.machine.tokens;
  }

  /** Wherever it stands, an ignored character might as well not be there. */
  lemma NoiseIsIgnored(earlier: seq<string>, a: string, x: char, b: string)
    requires Ignored(StateAfter(Start, Flatten(earlier) + a), x)
    ensures var m := ParseChunks(FRESH, earlier);
            ParseChunk(m, a + ([x] + b)) == ParseChunk(m, a + b)
  {
    hide Step, Ignored;
    var r := Run(ParseChunks(FRESH, earlier), "");
    ChunksState(FRESH, earlier);
    StateAfterAppend(Start, Flatten(earlier), a);
    FeedState(r, a);
    FeedAppend(r, a, [x] + b);
    FeedAppend(r, a, b);
    IgnoredStep(Feed(r, a), x);
    assert ([x] + b)[1..] == b;
  }

  /** The text without its ignored characters. */
  function Cleaned(state: State, s: string): string {
    if s == "" then ""
    else
      var before, x := s[..|s| - 1], s[|s| - 1];
      Cleaned(state, before) + (if Ignored(StateAfter(state, before), x) then "" else [x])
  }

  lemma {:induction false} CleanedFeeds(r: Run, s: string)
    ensures Feed(r, Cleaned(r.machine.state, s)) == Feed(r, s)
    decreases |s|
  {
    hide Step, Ignored, StateAfter;
    if s != "" {
      hide Feed;
      var before, x := s[..|s| - 1], s[|s| - 1];
      CleanedFeeds(r, before);
      FeedState(r, before);
      FeedLast(r, s);
      if Ignored(StateAfter(r.machine.state, before), x) {
        IgnoredStep(Feed(r, before), x);
        assert Cleaned(r.machine.state, before) + "" == Cleaned(r.machine.state, before);
      } else {
        var t := Cleaned(r.machine.state, s);
        FeedLast(r, t);
        assert t[..|t| - 1] == Cleaned(r.machine.state, before) && t[|t| - 1] == x;
      }
    }
  }

  /** All of them can be left out together, in every call of every run. */
  lemma NoiseCanBeLeftOut(earlier: seq<string>, s: string)
    ensures var m := ParseChunks(FRESH, earlier);
            ParseChunk(m, Cleaned(StateAfter(Start, Flatten(earlier)), s)) == ParseChunk(m, s)
  {
    hide Feed, Cleaned;
    ChunksState(FRESH, earlier);
    CleanedFeeds(Run(ParseChunks(FRESH, earlier), ""), s);
  }

  /** A malformed command: whatever stands between its letters, but a space, is left out. */
  lemma NoiseInCommand(head: string, noise: string, rest: string)
    requires |head| >= 2 && AllLetters(head) && AllLetters(rest)
    requires forall i | 0 <= i < |noise| :: !IsLetter(noise[i]) && noise[i] != ' '
    ensures ParseChunk(FRESH, head + (noise + (rest + " \n"))).sink.messages == [BLANK.(command := head + rest)]
  {
    hide EagerFeed, EagerStep, Feed;
    var e := Eager(CommandLetter, head, EAGER_FRESH.sink);
    var more := rest + " \n";
    StartCommand(head);
    EagerFeedAppend(EAGER_FRESH, head, noise + more);
    EagerFeedAppend(e, noise, more);
    NoiseIdles(e, noise);
    FinishCommand(e, rest);
    MessagesOfFeed(Run(FRESH, ""), head + (noise + more));
  }

  lemma {:induction false} NoiseIdles(e: Eager, noise: string)
    requires e.state == CommandLetter
    requires forall i | 0 <= i < |noise| :: !IsLetter(noise[i]) && noise[i] != ' '
    ensures EagerFeed(e, noise) == e
    decreases |noise|
  {
    hide EagerStep;
    if noise != "" {
      EagerStepMeans(e, noise[0]);
      NoiseIdles(e, noise[1..]);
    }
  }
}
