/** Exactly which lines of the grammar the parser understands. */
module IRCRfc {
  import opened IRCMessages
  import opened Options
  import opened IRCParsing
  import opened IRCEager
  import opened IRCAgreement
  import opened IRCShape
  import opened IRCGrammar

  /** A parser between two lines, with `q` waiting to be extracted. */
  function StartMachine(q: seq<IRCMessage>): Machine {
    Machine(Start, Sink(LfTok, BLANK, q), [])
  }

  lemma ParseAtStart(q: seq<IRCMessage>, s: string)
    ensures ParseChunk(StartMachine(q), s).sink.messages == EagerFeed(AtStart(q), s).sink.messages
    ensures EagerFeed(AtStart(q), s).state == Start ==>
              ParseChunk(StartMachine(q), s) == StartMachine(EagerFeed(AtStart(q), s).sink.messages)
  {
    hide EagerFeed, EagerStep;
    var r := Run(StartMachine(q), "");
    FeedRefines(r, s);
    AgreesFeed(r, s);
    AbstractMessages(Feed(r, s));
  }

  // --- The first command of a text ----------------------------------------------------

  /** `pre` is the character taken unseen at the start of an unprefixed line. */
  predicate HasForm(command: string, pre: string) {
    pre <= command && Word(command[|pre|..])
  }

  predicate PartialWord(token: string, pre: string, digits: bool) {
    && pre <= token && token != pre
    && (if digits then AllDigits(token[|pre|..]) else AllLetters(token[|pre|..]))
  }

  /** The `n`-th message, or its command in progress, has the form. */
  predicate Forming(e: Eager, pre: string, n: nat) {
    || (|e.sink.messages| > n && HasForm(e.sink.messages[n].command, pre))
    || (&& |e.sink.messages| == n
        && Path(e.state, e.sink.last)
        && match e.state
           case Start => false
           case ServerOrNick => pre == ""
           case User => pre == ""
           case Host => pre == ""
           case Command => e.token == pre
           case CommandNum => PartialWord(e.token, pre, true)
           case CommandLetter => PartialWord(e.token, pre, false)
           case _ => HasForm(e.sink.message.command, pre))
  }

  lemma PartialWordGrows(token: string, pre: string, x: char, digits: bool)
    requires token == pre || PartialWord(token, pre, digits)
    requires if digits then IsDigit(x) else IsLetter(x)
    ensures PartialWord(token + [x], pre, digits)
  {
    assert (token + [x])[|pre|..] == token[|pre|..] + [x];
  }

  /** Once the message is out, later characters leave it alone. */
  lemma MessagesGrow(e: Eager, x: char)
    ensures e.sink.messages <= EagerStep(e, x).sink.messages
  {
    hide EagerStep;
    EagerStepMeans(e, x);
  }

  lemma FormingStep(e: Eager, x: char, pre: string, n: nat)
    requires Forming(e, pre, n)
    ensures Forming(EagerStep(e, x), pre, n)
  {
    hide EagerStep;
    MessagesGrow(e, x);
    if |e.sink.messages| == n {
      EagerStepMeans(e, x);
      MoveFollowsPath(e.state, e.sink.last, e.token, x);
      MoveKeepsPath(e, MoveOf(e.state, x), x);
      match e.state
      case ServerOrNick => FormingPrefix(e, x, pre, n);
      case User => FormingPrefix(e, x, pre, n);
      case Host => FormingPrefix(e, x, pre, n);
      case Command => FormingCommand(e, x, pre, n);
      case CommandNum => FormingWord(e, x, pre, n);
      case CommandLetter => FormingWord(e, x, pre, n);
      case _ => FormingParams(e, x, pre, n);
    }
  }

  lemma FormingPrefix(e: Eager, x: char, pre: string, n: nat)
    requires Forming(e, pre, n) && |e.sink.messages| == n && e.state in {ServerOrNick, User, Host}
    requires Path(EagerStep(e, x).state, EagerStep(e, x).sink.last)
    ensures Forming(EagerStep(e, x), pre, n)
  {
    hide EagerStep;
    EagerStepMeans(e, x);
  }

  lemma FormingCommand(e: Eager, x: char, pre: string, n: nat)
    requires Forming(e, pre, n) && |e.sink.messages| == n && e.state == Command
    requires Path(EagerStep(e, x).state, EagerStep(e, x).sink.last)
    ensures Forming(EagerStep(e, x), pre, n)
  {
    hide EagerStep;
    EagerStepMeans(e, x);
    if IsDigit(x) {
      PartialWordGrows(e.token, pre, x, true);
    } else if IsLetter(x) {
      PartialWordGrows(e.token, pre, x, false);
    }
  }

  lemma FormingWord(e: Eager, x: char, pre: string, n: nat)
    requires Forming(e, pre, n) && |e.sink.messages| == n && e.state in {CommandNum, CommandLetter}
    requires Path(EagerStep(e, x).state, EagerStep(e, x).sink.last)
    ensures Forming(EagerStep(e, x), pre, n)
  {
    hide EagerStep;
    EagerStepMeans(e, x);
    var digits := e.state == CommandNum;
    if if digits then IsDigit(x) else IsLetter(x) {
      PartialWordGrows(e.token, pre, x, digits);
    }
  }

  lemma FormingParams(e: Eager, x: char, pre: string, n: nat)
    requires Forming(e, pre, n) && |e.sink.messages| == n && e.state in {Params, Trailing, Cr}
    requires Path(EagerStep(e, x).state, EagerStep(e, x).sink.last)
    ensures Forming(EagerStep(e, x), pre, n)
  {
    hide EagerStep;
    EagerStepMeans(e, x);
    var m := MoveOf(e.state, x);
    var put := PutInto(e.sink, m.put, e.token);
    assert put.message.command == e.sink.message.command && put.messages == e.sink.messages;
  }

  lemma {:induction false} FormingFeed(e: Eager, s: string, pre: string, n: nat)
    requires Forming(e, pre, n)
    ensures Forming(EagerFeed(e, s), pre, n)
    decreases |s|
  {
    hide EagerStep;
    if s != "" {
      FormingStep(e, s[0], pre, n);
      FormingFeed(EagerStep(e, s[0]), s[1..], pre, n);
    }
  }

  /**
    The command of the first message of any text: after a prefix a word, and
    without one at least two characters, of which the first is not looked at.
   */
  lemma FirstCommand(q: seq<IRCMessage>, s: string)
    requires |EagerFeed(AtStart(q), s).sink.messages| > |q|
    ensures s != ""
    ensures var command := EagerFeed(AtStart(q), s).sink.messages[|q|].command;
            if s[0] == ':' then Word(command)
            else |command| >= 2 && command[0] == s[0] && Word(command[1..])
  {
    assert s == "" ==> EagerFeed(AtStart(q), s) == AtStart(q);
    hide EagerStep;
    var e := EagerStep(AtStart(q), s[0]);
    EagerStepMeans(AtStart(q), s[0]);
    var pre := if s[0] == ':' then "" else [s[0]];
    assert "" + [s[0]] == [s[0]];
    FormingFeed(e, s[1..], pre, |q|);
  }

  // --- Every command of an uncut text -------------------------------------------------

  predicate Unprefixed(m: IRCMessage) {
    m.servername == m.nick == m.user == m.host == ""
  }

  /** The command is a word or, only without a prefix, one more character and a word. */
  predicate Formed(m: IRCMessage) {
    || Word(m.command)
    || (Unprefixed(m) && |m.command| >= 2 && m.command[0] != ':' && Word(m.command[1..]))
  }

  predicate AllFormed(ms: seq<IRCMessage>) {
    forall i | 0 <= i < |ms| :: Formed(ms[i])
  }

  /** What may have been taken unseen in front of the command that is being read. */
  predicate Front(e: Eager, pre: string) {
    pre == ""
    || (|pre| == 1 && pre[0] != ':' && Unprefixed(e.sink.message) && e.state !in {ServerOrNick, User, Host})
  }

  predicate FormingAll(e: Eager, pre: string) {
    && Shaped(e)
    && AllFormed(e.sink.messages)
    && (e.state != Start ==> Forming(e, pre, |e.sink.messages|) && Front(e, pre))
  }

  /** Past the prefix, a step leaves its parts alone; at most the message is finished. */
  lemma StepKeepsPrefix(e: Eager, x: char)
    requires e.state !in {Start, ServerOrNick, User, Host} && Path(e.state, e.sink.last)
    ensures var after := EagerStep(e, x);
            && after.state !in {ServerOrNick, User, Host}
            && if after.sink.messages == e.sink.messages then
                 Unprefixed(e.sink.message) ==> Unprefixed(after.sink.message)
               else
                 && after.state == Start
                 && |after.sink.messages| == |e.sink.messages| + 1
                 && (Unprefixed(e.sink.message) ==> Unprefixed(after.sink.messages[|e.sink.messages|]))
  {
    hide EagerStep;
    EagerStepMeans(e, x);
  }

  lemma StepInPrefix(e: Eager, x: char)
    requires e.state in {ServerOrNick, User, Host}
    ensures EagerStep(e, x).sink.messages == e.sink.messages && EagerStep(e, x).state != Start
  {
    hide EagerStep;
    EagerStepMeans(e, x);
  }

  lemma StartForms(e: Eager, x: char) returns (pre: string)
    requires FormingAll(e, "") && e.state == Start
    ensures FormingAll(EagerStep(e, x), pre)
  {
    hide EagerStep;
    ShapedStep(e, x);
    EagerStepMeans(e, x);
    pre := if x == ':' then "" else [x];
    assert "" + [x] == [x];
  }

  lemma NewIsFormed(e: Eager, after: Eager, pre: string)
    requires FormingAll(e, pre) && e.state != Start && Front(e, pre)
    requires e.sink.messages <= after.sink.messages && |after.sink.messages| == |e.sink.messages| + 1
    requires HasForm(after.sink.messages[|e.sink.messages|].command, pre)
    requires pre != "" ==> Unprefixed(after.sink.messages[|e.sink.messages|])
    ensures AllFormed(after.sink.messages)
  {
    hide Shaped, Forming;
  }

  lemma FormingAllStep(e: Eager, pre: string, x: char) returns (after: string)
    requires FormingAll(e, pre)
    ensures FormingAll(EagerStep(e, x), after)
  {
    hide EagerStep, Shaped, Word, Unprefixed;
    if e.state == Start {
      after := StartForms(e, x);
    } else {
      after := pre;
      var next := EagerStep(e, x);
      ShapedStep(e, x);
      FormingStep(e, x, pre, |e.sink.messages|);
      MessagesGrow(e, x);
      ShapedHasPath(e);
      if e.state in {ServerOrNick, User, Host} {
        StepInPrefix(e, x);
      } else {
        StepKeepsPrefix(e, x);
      }
      if |next.sink.messages| > |e.sink.messages| {
        NewIsFormed(e, next, pre);
      }
    }
  }

  lemma ShapedHasPath(e: Eager)
    requires Shaped(e)
    ensures Path(e.state, e.sink.last)
  {
  }

  lemma {:induction false} FormingAllFeed(e: Eager, pre: string, s: string)
    requires FormingAll(e, pre)
    ensures AllFormed(EagerFeed(e, s).sink.messages)
    decreases |s|
  {
    hide EagerStep;
    if s != "" {
      var after := FormingAllStep(e, pre, s[0]);
      FormingAllFeed(EagerStep(e, s[0]), after, s[1..]);
    }
  }

  /** Every command of a text parsed in one call is formed, not only the first. */
  lemma EveryCommand(s: string)
    ensures AllFormed(ParseChunk(FRESH, s).sink.messages)
  {
    hide EagerFeed, EagerStep, Feed;
    assert FRESH == StartMachine([]);
    ParseAtStart([], s);
    FormingAllFeed(AtStart([]), "", s);
  }

  // --- The grammar, exactly -------------------------------------------------------------

  /** A prefix that the lexer splits as the grammar does. */
  predicate PrefixUnderstood(p: Prefix) {
    p.NickPrefix? ==>
      && (p.user.Some? ==> '@' !in p.user.value)
      && (p.user.Some? || p.host.Some? || p.nick == "")
  }

  /** What a sender has to observe beyond the grammar. */
  predicate Understood(l: Line) {
    && PrefixUnderstood(l.prefix)
    && (l.prefix != NoPrefix || |l.command| >= 2)
    && CommandEnds(l.middles, l.tail)
    && forall i | 0 <= i < |l.middles| :: ':' !in l.middles[i].text
  }

  /** The prefix that the lexer sees: a nick alone is a server name, the first '@' ends the user. */
  function ReadAs(p: Prefix): Prefix {
    if p.NickPrefix? && p.user.None? && p.host.None? then
      ServerPrefix(p.nick)
    else if p.NickPrefix? && p.user.Some? && '@' in p.user.value then
      var i := IndexOf(p.user.value, '@');
      var rest := p.user.value[i + 1..];
      NickPrefix(p.nick, Some(p.user.value[..i]),
                 Some(if p.host.Some? then rest + ("@" + p.host.value) else rest))
    else
      p
  }

  lemma ReadAsIsOk(p: Prefix)
    requires GrammarPrefix(p)
    ensures PrefixOk(ReadAs(p)) && (ReadAs(p) == NoPrefix <==> p == NoPrefix)
  {
    if p.NickPrefix? && p.user.Some? && '@' in p.user.value {
      var u := p.user.value;
      var i := IndexOf(u, '@');
      forall k | 0 <= k < i ensures u[k] != '@' {
        assert u[..i][k] in u[..i];
      }
    }
  }

  lemma ReadAsRenders(p: Prefix, gap: nat)
    ensures PrefixRender(ReadAs(p), gap) == PrefixRender(p, gap)
  {
    if p.NickPrefix? && p.user.Some? && '@' in p.user.value {
      var u, space := p.user.value, " " + Spaces(gap);
      var i := IndexOf(u, '@');
      var head, rest := u[..i], u[i + 1..];
      assert u == head + ("@" + rest);
      if p.host.Some? {
        var h := p.host.value;
        Assoc(head, "@" + rest, "@" + (h + space));
        Assoc("@", rest, "@" + (h + space));
        Assoc(rest, "@" + h, space);
        Assoc("@", h, space);
      } else {
        Assoc(head, "@" + rest, space);
        Assoc("@", rest, space);
      }
    }
  }

  lemma ReadAsMeans(p: Prefix)
    ensures PrefixMeaning(ReadAs(p)) == PrefixMeaning(p) <==> PrefixUnderstood(p)
  {
    if p.NickPrefix? && p.user.Some? && '@' in p.user.value {
      assert |PrefixMeaning(ReadAs(p)).user| < |PrefixMeaning(p).user|;
    }
  }

  /** The line as the lexer splits its prefix; the text is the same. */
  function LineRead(l: Line): Line {
    l.(prefix := ReadAs(l.prefix))
  }

  lemma {:induction false} PlainMiddlesAreFound(ms: seq<Gapped>, t: Tail)
    requires forall i | 0 <= i < |ms| :: ':' !in ms[i].text
    ensures ParamsFound(ms, t) == ParamsMeaning(ms, t)
  {
    if ms != [] {
      assert IndexOf(ms[0].text, ':') == |ms[0].text|;
      PlainMiddlesAreFound(ms[1..], t);
    }
  }

  lemma {:induction false} BrokenMiddlesAreLost(ms: seq<Gapped>, t: Tail, k: nat)
    requires ParamsOk(ms, t) && k < |ms| && ':' in ms[k].text
    ensures ParamsFound(ms, t) != ParamsMeaning(ms, t)
  {
    var text := ms[0].text;
    var i := IndexOf(text, ':');
    if i == |text| {
      BrokenMiddlesAreLost(ms[1..], t, k - 1);
      assert ParamsFound(ms, t)[1..] == ParamsFound(ms[1..], t);
      assert ParamsMeaning(ms, t)[1..] == ParamsMeaning(ms[1..], t);
    } else if ms[1..] == [] && t.Bare? {
      assert GrammarMiddle(text);
      assert Rest(ms[1..], t) == Spaces(t.spaces);
      assert ParamsMeaning(ms, t) == [text];
      GluedSpacesDiffer(text, i, t.spaces);
    } else {
      assert |ParamsMeaning(ms[1..], t)| > 0;
    }
  }

  lemma GluedSpacesDiffer(text: string, i: nat, n: nat)
    requires i < |text| && Free(text, {' ', '\0', '\r', '\n'})
    ensures [text[..i] + (text[i + 1..] + Spaces(n))] != [text]
  {
    var glued := text[..i] + (text[i + 1..] + Spaces(n));
    SpacesLength(n);
    if |glued| == |text| {
      assert glued[|text| - 1] == Spaces(n)[n - 1];
    }
  }

  lemma {:induction false} SpacesLength(n: nat)
    ensures |Spaces(n)| == n && forall i | 0 <= i < n :: Spaces(n)[i] == ' '
  {
    if n > 0 {
      SpacesLength(n - 1);
    }
  }

  /** A line of the grammar that is understood yields exactly the message of the grammar. */
  lemma UnderstoodLine(l: Line, q: seq<IRCMessage>)
    requires Derivable(l) && Understood(l)
    ensures EagerFeed(AtStart(q), Render(l)) == AtStart(q + [Meaning(l)])
  {
    hide EagerFeed, EagerStep, PrefixRender, ReadAs;
    ReadAsIsOk(l.prefix);
    ReadAsRenders(l.prefix, l.gap);
    ReadAsMeans(l.prefix);
    LineYieldsFound(LineRead(l), q);
    PlainMiddlesAreFound(l.middles, l.tail);
  }

  /** A line whose command ends yields a message; unless it is understood, not the right one. */
  lemma MisreadLine(l: Line, q: seq<IRCMessage>)
    requires Derivable(l) && !Understood(l) && CommandEnds(l.middles, l.tail)
    requires l.prefix != NoPrefix || |l.command| >= 2
    ensures EagerFeed(AtStart(q), Render(l)) == AtStart(q + [Found(LineRead(l))])
    ensures Found(LineRead(l)) != Meaning(l)
  {
    hide EagerFeed, EagerStep, PrefixRender, ReadAs;
    ReadAsIsOk(l.prefix);
    ReadAsRenders(l.prefix, l.gap);
    ReadAsMeans(l.prefix);
    LineYieldsFound(LineRead(l), q);
    if PrefixUnderstood(l.prefix) {
      var k :| 0 <= k < |l.middles| && ':' in l.middles[k].text;
      BrokenMiddlesAreLost(l.middles, l.tail, k);
    }
  }

  /** A line whose command does not end yields nothing. */
  lemma UnendedLine(l: Line, q: seq<IRCMessage>)
    requires Derivable(l) && !CommandEnds(l.middles, l.tail)
    requires l.prefix != NoPrefix || |l.command| >= 2
    ensures EagerFeed(AtStart(q), Render(l)) == AfterUnended(l, q)
  {
    hide EagerFeed, EagerStep, PrefixRender, ReadAs;
    ReadAsIsOk(l.prefix);
    ReadAsRenders(l.prefix, l.gap);
    assert Rest(l.middles, l.tail) == "";
    assert Rest(l.middles, l.tail) + Eol(l.crlf) == Eol(l.crlf);
    Assoc(PrefixRender(l.prefix, l.gap), l.command, Eol(l.crlf));
    EndlessCommand(ReadAs(l.prefix), l.gap, l.command, l.crlf, q);
  }

  function AfterUnended(l: Line, q: seq<IRCMessage>): Eager
    requires Derivable(l) && (l.prefix != NoPrefix || |l.command| >= 2)
  {
    ReadAsIsOk(l.prefix);
    AfterCommand(ReadAs(l.prefix), l.command, q)
  }

  /** The first message behind a one-letter command without prefix has a longer one. */
  lemma ShortCommand(l: Line, q: seq<IRCMessage>, more: string)
    requires Derivable(l) && l.prefix == NoPrefix && |l.command| < 2
    ensures var ms := EagerFeed(AtStart(q), Render(l) + more).sink.messages;
            |ms| > |q| ==> ms[|q|] != Meaning(l)
  {
    hide EagerFeed, EagerStep;
    var s := Render(l) + more;
    if |EagerFeed(AtStart(q), s).sink.messages| > |q| {
      assert Render(l)[0] == l.command[0] && s[0] == l.command[0];
      FirstCommand(q, s);
    }
  }

  lemma MisunderstoodLine(l: Line, q: seq<IRCMessage>)
    requires Derivable(l) && !Understood(l)
    ensures EagerFeed(AtStart(q), Render(l)).sink.messages != q + [Meaning(l)]
  {
    hide EagerFeed, EagerStep, Render, ReadAs;
    var ms := q + [Meaning(l)];
    if l.prefix == NoPrefix && |l.command| < 2 {
      ShortCommand(l, q, "");
      assert Render(l) + "" == Render(l);
      assert ms[|q|] == Meaning(l);
    } else if !CommandEnds(l.middles, l.tail) {
      UnendedLine(l, q);
      assert |ms| != |q|;
    } else {
      MisreadLine(l, q);
      assert ms[|q|] != (q + [Found(LineRead(l))])[|q|];
    }
  }

  /**
    Compliance with the grammar, exactly: the message the grammar assigns is
    queued if and only if the line is `Understood`, and then the parser is back
    where it started.
   */
  lemma RfcLineIff(l: Line, q: seq<IRCMessage>)
    requires Derivable(l)
    ensures ParseChunk(StartMachine(q), Render(l)).sink.messages == q + [Meaning(l)] <==> Understood(l)
    ensures Understood(l) ==> ParseChunk(StartMachine(q), Render(l)) == StartMachine(q + [Meaning(l)])
  {
    hide EagerFeed, EagerStep, Feed, Render;
    ParseAtStart(q, Render(l));
    if Understood(l) {
      UnderstoodLine(l, q);
    } else {
      MisunderstoodLine(l, q);
    }
  }
}
