/**
  Lines of section 2.3.1 of RFC 1459 as syntax trees, the message the grammar
  assigns to each, and what the parser makes of them.
 */
module IRCGrammar {
  import opened IRCMessages
  import opened Options
  import opened IRCParsing
  import opened IRCEager
  import opened IRCAgreement
  import opened IRCShape

  datatype Prefix =
    | NoPrefix
    | ServerPrefix(name: string)
    | NickPrefix(nick: string, user: Option<string>, host: Option<string>)

  /** A middle parameter after one space and `gap` further ones. */
  datatype Gapped = Gapped(gap: nat, text: string)

  /** The end of the parameters: spaces only, or a trailing parameter. */
  datatype Tail = Bare(spaces: nat) | Closing(gap: nat, text: string)

  datatype Line = Line(
    prefix: Prefix, gap: nat, command: string, middles: seq<Gapped>, tail: Tail, crlf: bool)

  // --- Rendering ------------------------------------------------------------------

  function Spaces(n: nat): string {
    if n == 0 then "" else " " + Spaces(n - 1)
  }

  function HostRender(host: Option<string>, gap: nat): string {
    match host
    case None => " " + Spaces(gap)
    case Some(h) => "@" + (h + (" " + Spaces(gap)))
  }

  function UserRender(user: Option<string>, host: Option<string>, gap: nat): string {
    match user
    case None => HostRender(host, gap)
    case Some(u) => "!" + (u + HostRender(host, gap))
  }

  function PrefixRender(p: Prefix, gap: nat): string {
    match p
    case NoPrefix => ""
    case ServerPrefix(name) => ":" + (name + (" " + Spaces(gap)))
    case NickPrefix(nick, user, host) => ":" + (nick + UserRender(user, host, gap))
  }

  function MiddlesRender(ms: seq<Gapped>): string {
    if ms == [] then "" else " " + Spaces(ms[0].gap) + ms[0].text + MiddlesRender(ms[1..])
  }

  function TailRender(t: Tail): string {
    match t
    case Bare(n) => Spaces(n)
    case Closing(gap, text) => " " + Spaces(gap) + ":" + text
  }

  function Eol(crlf: bool): string {
    if crlf then "\r\n" else "\n"
  }

  function Rest(ms: seq<Gapped>, t: Tail): string {
    MiddlesRender(ms) + TailRender(t)
  }

  function Render(l: Line): string {
    PrefixRender(l.prefix, l.gap) + (l.command + (Rest(l.middles, l.tail) + Eol(l.crlf)))
  }

  // --- Meaning --------------------------------------------------------------------

  function OptionOr(o: Option<string>): string {
    match o case None => "" case Some(s) => s
  }

  function PrefixMeaning(p: Prefix): IRCMessage {
    match p
    case NoPrefix => BLANK
    case ServerPrefix(name) => BLANK.(servername := name)
    case NickPrefix(nick, user, host) =>
      BLANK.(nick := nick, user := OptionOr(user), host := OptionOr(host))
  }

  function TailParams(t: Tail): seq<string> {
    match t case Bare(_) => [] case Closing(_, text) => [text]
  }

  function ParamsMeaning(ms: seq<Gapped>, t: Tail): seq<string> {
    if ms == [] then TailParams(t) else [ms[0].text] + ParamsMeaning(ms[1..], t)
  }

  /** The message the grammar assigns to a line. */
  function Meaning(l: Line): IRCMessage {
    PrefixMeaning(l.prefix).(command := l.command, params := ParamsMeaning(l.middles, l.tail))
  }

  function IndexOf(s: string, x: char): (i: nat)
    ensures i <= |s| && (i < |s| <==> x in s)
    ensures i < |s| ==> s[i] == x
    ensures x !in s[..i]
  {
    if s == "" || s[0] == x then 0 else 1 + IndexOf(s[1..], x)
  }

  /**
    The parameters the parser finds: a ':' inside a middle parameter is dropped,
    and the rest of the line is glued to what precedes it.
   */
  function ParamsFound(ms: seq<Gapped>, t: Tail): seq<string> {
    if ms == [] then
      TailParams(t)
    else
      var text := ms[0].text;
      var i := IndexOf(text, ':');
      if i == |text| then [text] + ParamsFound(ms[1..], t)
      else [text[..i] + (text[i + 1..] + Rest(ms[1..], t))]
  }

  function Found(l: Line): IRCMessage {
    Meaning(l).(params := ParamsFound(l.middles, l.tail))
  }

  // --- Well-formed lines ------------------------------------------------------------

  /** The prefix parts as the lexer delimits them. */
  predicate PrefixOk(p: Prefix) {
    match p
    case NoPrefix => true
    case ServerPrefix(name) => Free(name, {' ', '!', '@'})
    case NickPrefix(nick, user, host) =>
      && Free(nick, {' ', '!', '@'})
      && (user.Some? || host.Some?)
      && (user.Some? ==> Free(user.value, {' ', '@'}))
      && (host.Some? ==> Free(host.value, {' '}))
  }

  /** A middle parameter of the grammar: not empty, and ':' only after the first character. */
  predicate GrammarMiddle(s: string) {
    s != "" && s[0] != ':' && Free(s, {' ', '\0', '\r', '\n'})
  }

  predicate ParamsOk(ms: seq<Gapped>, t: Tail) {
    && (forall i | 0 <= i < |ms| :: GrammarMiddle(ms[i].text))
    && (t.Closing? ==> Free(t.text, TRAILING_STOPS))
  }

  /** The prefix parts as the grammar delimits them: a user may hold '@', a host may not. */
  predicate GrammarPrefix(p: Prefix) {
    match p
    case NoPrefix => true
    case ServerPrefix(name) => Free(name, {' ', '!', '@', '\0', '\r', '\n'})
    case NickPrefix(nick, user, host) =>
      && Free(nick, {' ', '!', '@', '\0', '\r', '\n'})
      && (user.Some? ==> Free(user.value, {' ', '\0', '\r', '\n'}))
      && (host.Some? ==> Free(host.value, {' ', '@', '\0', '\r', '\n'}))
  }

  /**
    The lines of the grammar, and some more: the prefix parts may be empty and of
    any other characters, a command may have any number of digits, and the spaces
    after the last parameter are optional, also when there is none.
   */
  predicate Derivable(l: Line) {
    GrammarPrefix(l.prefix) && Word(l.command) && ParamsOk(l.middles, l.tail)
  }

  /** The commands the lexer can read: without a prefix the first character is not looked at. */
  predicate CommandOk(command: string, prefixed: bool) {
    if prefixed then Word(command)
    else |command| >= 2 && command[0] != ':' && Word(command[1..])
  }

  // --- What the parser does with each part -----------------------------------------

  function AtStart(q: seq<IRCMessage>): Eager {
    Eager(Start, "", Sink(LfTok, BLANK, q))
  }

  function Pending(token: string): seq<string> {
    if token == "" then [] else [token]
  }

  /** The line is finished with `ps` added to the parameters read so far. */
  function Done(e: Eager, ps: seq<string>): Eager {
    AtStart(e.sink.messages + [e.sink.message.(params := e.sink.message.params + ps)])
  }

  lemma {:induction false} FeedSpaces(e: Eager, n: nat)
    requires e.state == Command || (e.state == Params && e.token == "")
    ensures EagerFeed(e, Spaces(n)) == e
  {
    if n > 0 {
      SpaceIdles(e);
      assert Spaces(n)[1..] == Spaces(n - 1);
      FeedSpaces(e, n - 1);
    }
  }

  lemma SpaceIdles(e: Eager)
    requires e.state == Command || (e.state == Params && e.token == "")
    ensures EagerStep(e, ' ') == e
  {
    EagerStepMeans(e, ' ');
  }

  lemma SpaceEndsParam(e: Eager)
    requires e.state == Params
    ensures EagerStep(e, ' ') == Eager(Params, "", PutInto(e.sink, ParamIfAny, e.token))
  {
    EagerStepMeans(e, ' ');
  }

  /** The pending text goes before what follows. */
  lemma DoneAfterPut(e: Eager, ps: seq<string>)
    requires Path(e.state, e.sink.last) && e.state == Params
    ensures Done(Eager(Params, "", PutInto(e.sink, ParamIfAny, e.token)), ps)
         == Done(e, Pending(e.token) + ps)
  {
    var qs := e.sink.message.params;
    assert (qs + [e.token]) + ps == qs + ([e.token] + ps);
    assert qs + ps == qs + ([] + ps);
  }

  lemma FinishLine(e: Eager, crlf: bool)
    requires Path(e.state, e.sink.last) && e.state in {Params, Trailing}
    ensures EagerFeed(e, Eol(crlf))
         == Done(e, if e.state == Params then Pending(e.token) else [e.token])
  {
    hide EagerFeed, EagerStep;
    var ps := e.sink.message.params;
    assert ps + [] == ps;
    EagerStepMeans(e, '\n');
    if crlf {
      FinishCrLf(e);
    } else {
      FeedOne(e, '\n');
    }
  }

  lemma FinishCrLf(e: Eager)
    requires Path(e.state, e.sink.last) && e.state in {Params, Trailing}
    ensures EagerFeed(e, Eol(true)) == EagerStep(e, '\n')
  {
    hide EagerFeed, EagerStep;
    var put := PutInto(e.sink, if e.state == Params then ParamIfAny else Always(ParamTok), e.token);
    var cr := Eager(Cr, "", Absorb(put, Token(CrTok, "")));
    EagerStepMeans(e, '\r');
    EagerStepMeans(e, '\n');
    EagerStepMeans(cr, '\n');
    assert Eol(true) == ['\r'] + ['\n'];
    FeedFirst(e, '\r', ['\n']);
    FeedOne(cr, '\n');
  }

  /** In the trailing parameter everything up to the line end is text. */
  lemma FeedTrailing(e: Eager, text: string, crlf: bool)
    requires e.state == Trailing && Path(e.state, e.sink.last)
    requires Free(text, TRAILING_STOPS)
    ensures EagerFeed(e, text + Eol(crlf)) == Done(e, [e.token + text])
  {
    hide EagerFeed, EagerStep;
    FeedPlain(e, text);
    EagerFeedAppend(e, text, Eol(crlf));
    FinishLine(e.(token := e.token + text), crlf);
  }

  lemma ColonStartsTrailing(e: Eager)
    requires e.state == Params
    ensures EagerStep(e, ':') == e.(state := Trailing)
  {
    EagerStepMeans(e, ':');
  }

  lemma FeedBareTail(e: Eager, n: nat, crlf: bool)
    requires e.state == Params && Path(e.state, e.sink.last)
    ensures EagerFeed(e, Spaces(n) + Eol(crlf)) == Done(e, Pending(e.token))
  {
    hide EagerFeed, EagerStep;
    if n == 0 {
      assert Spaces(0) + Eol(crlf) == Eol(crlf);
      FinishLine(e, crlf);
    } else {
      var put := EagerStep(e, ' ');
      SpaceEndsParam(e);
      assert Spaces(n) + Eol(crlf) == [' '] + (Spaces(n - 1) + Eol(crlf));
      FeedFirst(e, ' ', Spaces(n - 1) + Eol(crlf));
      EagerFeedAppend(put, Spaces(n - 1), Eol(crlf));
      FeedSpaces(put, n - 1);
      FinishLine(put, crlf);
      DoneAfterPut(e, []);
      assert Pending(e.token) + [] == Pending(e.token);
    }
  }

  /** After the space that ends a parameter and the further spaces. */
  lemma FeedGap(e: Eager, gap: nat, more: string)
    requires e.state == Params && Path(e.state, e.sink.last)
    ensures EagerFeed(e, " " + Spaces(gap) + more)
         == EagerFeed(Eager(Params, "", PutInto(e.sink, ParamIfAny, e.token)), more)
  {
    hide EagerFeed, EagerStep;
    var put := EagerStep(e, ' ');
    SpaceEndsParam(e);
    assert " " + Spaces(gap) + more == [' '] + (Spaces(gap) + more);
    FeedFirst(e, ' ', Spaces(gap) + more);
    EagerFeedAppend(put, Spaces(gap), more);
    FeedSpaces(put, gap);
  }

  lemma FeedColonText(e: Eager, text: string, crlf: bool)
    requires e.state == Params && Path(e.state, e.sink.last)
    requires Free(text, TRAILING_STOPS)
    ensures EagerFeed(e, [':'] + (text + Eol(crlf))) == Done(e, [e.token + text])
  {
    hide EagerFeed, EagerStep;
    FeedFirst(e, ':', text + Eol(crlf));
    ColonStartsTrailing(e);
    FeedTrailing(e.(state := Trailing), text, crlf);
  }

  lemma FeedClosingTail(e: Eager, gap: nat, text: string, crlf: bool)
    requires e.state == Params && Path(e.state, e.sink.last)
    requires Free(text, TRAILING_STOPS)
    ensures EagerFeed(e, TailRender(Closing(gap, text)) + Eol(crlf))
         == Done(e, Pending(e.token) + [text])
  {
    hide EagerFeed, EagerStep;
    var put := Eager(Params, "", PutInto(e.sink, ParamIfAny, e.token));
    var end := text + Eol(crlf);
    var more := [':'] + end;
    assert TailRender(Closing(gap, text)) + Eol(crlf) == " " + Spaces(gap) + more;
    FeedGap(e, gap, more);
    FeedColonText(put, text, crlf);
    assert "" + text == text;
    DoneAfterPut(e, [text]);
  }

  lemma {:induction false} SpacesAreFree(n: nat)
    ensures Free(Spaces(n), TRAILING_STOPS)
  {
    if n > 0 {
      SpacesAreFree(n - 1);
    }
  }

  lemma {:induction false} RestIsFree(ms: seq<Gapped>, t: Tail)
    requires ParamsOk(ms, t)
    ensures Free(Rest(ms, t), TRAILING_STOPS)
    decreases |ms|
  {
    if ms == [] {
      SpacesAreFree(if t.Bare? then t.spaces else t.gap);
    } else {
      SpacesAreFree(ms[0].gap);
      RestIsFree(ms[1..], t);
      assert GrammarMiddle(ms[0].text);
      assert Rest(ms, t) == " " + Spaces(ms[0].gap) + ms[0].text + Rest(ms[1..], t);
    }
  }

  lemma GlueAtColon(head: string, tail: string, more: string, end: string)
    ensures (head + ([':'] + tail)) + (more + end) == head + ([':'] + ((tail + more) + end))
  {
    Assoc(head, [':'] + tail, more + end);
    Assoc([':'], tail, more + end);
    Assoc(tail, more, end);
  }

  lemma SplitAt(text: string, i: nat)
    requires i < |text|
    ensures text == text[..i] + ([text[i]] + text[i + 1..])
  {
  }

  /** Up to its first ':' a middle parameter is plain text, and no line ends in it. */
  lemma BrokenMiddleParts(text: string, i: nat, more: string)
    requires GrammarMiddle(text) && i < |text| && ':' !in text[..i] && Free(more, TRAILING_STOPS)
    ensures forall k | 0 <= k < i :: Plain(Params, text[..i][k])
    ensures Free(text[i + 1..] + more, TRAILING_STOPS)
  {
    assert Free(text, TRAILING_STOPS);
    forall k | 0 <= k < i ensures text[..i][k] != ':' {
      assert text[..i][k] in text[..i];
    }
  }

  /** A middle parameter with a ':' swallows the rest of the line. */
  lemma FeedBrokenMiddle(e: Eager, text: string, more: string, crlf: bool)
    requires e.state == Params && Path(e.state, e.sink.last) && e.token == ""
    requires GrammarMiddle(text) && ':' in text && Free(more, TRAILING_STOPS)
    ensures var i := IndexOf(text, ':');
            EagerFeed(e, text + (more + Eol(crlf))) == Done(e, [text[..i] + (text[i + 1..] + more)])
  {
    hide EagerFeed, EagerStep, GrammarMiddle, Free, Plain, IndexOf, Eol;
    var i := IndexOf(text, ':');
    var head, tail, end := text[..i], text[i + 1..], Eol(crlf);
    var read, rest := e.(token := head), tail + more;
    BrokenMiddleParts(text, i, more);
    SplitAt(text, i);
    GlueAtColon(head, tail, more, end);
    assert "" + head == head;
    FeedPlain(e, head);
    EagerFeedAppend(e, head, [':'] + (rest + end));
    FeedColonText(read, rest, crlf);
  }

  lemma FeedGoodMiddle(e: Eager, text: string, more: string)
    requires e.state == Params && e.token == ""
    requires GrammarMiddle(text) && ':' !in text
    ensures EagerFeed(e, text + more) == EagerFeed(e.(token := text), more)
  {
    hide EagerFeed, EagerStep;
    FeedPlain(e, text);
    assert "" + text == text;
    EagerFeedAppend(e, text, more);
  }

  lemma RestOfLine(ms: seq<Gapped>, t: Tail, crlf: bool)
    requires ms != []
    ensures Rest(ms, t) + Eol(crlf)
         == " " + Spaces(ms[0].gap) + (ms[0].text + (Rest(ms[1..], t) + Eol(crlf)))
  {
  }

  lemma FeedTail(e: Eager, t: Tail, crlf: bool)
    requires e.state == Params && Path(e.state, e.sink.last)
    requires ParamsOk([], t)
    ensures EagerFeed(e, Rest([], t) + Eol(crlf)) == Done(e, Pending(e.token) + ParamsFound([], t))
  {
    hide EagerFeed, EagerStep, Path, Eol;
    assert Rest([], t) == TailRender(t);
    match t
    case Bare(n) =>
      FeedBareTail(e, n, crlf);
      assert Pending(e.token) + [] == Pending(e.token);
    case Closing(gap, text) =>
      FeedClosingTail(e, gap, text, crlf);
  }

  lemma ParamsOkRest(ms: seq<Gapped>, t: Tail)
    requires ms != [] && ParamsOk(ms, t)
    ensures GrammarMiddle(ms[0].text) && ParamsOk(ms[1..], t)
  {
  }

  /** The parameters of a line, from any point where one parameter may be pending. */
  lemma {:induction false} FeedRest(e: Eager, ms: seq<Gapped>, t: Tail, crlf: bool)
    requires e.state == Params && Path(e.state, e.sink.last)
    requires ParamsOk(ms, t)
    ensures EagerFeed(e, Rest(ms, t) + Eol(crlf)) == Done(e, Pending(e.token) + ParamsFound(ms, t))
    decreases |ms|, 1
  {
    hide EagerFeed, EagerStep, Eol, ParamsOk, GrammarMiddle, Done, Rest;
    if ms == [] {
      FeedTail(e, t, crlf);
    } else {
      var text, more := ms[0].text, Rest(ms[1..], t);
      var put := Eager(Params, "", PutInto(e.sink, ParamIfAny, e.token));
      ParamsOkRest(ms, t);
      RestOfLine(ms, t, crlf);
      FeedGap(e, ms[0].gap, text + (more + Eol(crlf)));
      DoneAfterPut(e, ParamsFound(ms, t));
      FeedMiddle(put, ms, t, crlf);
    }
  }

  /** The first middle parameter, with nothing pending, and what follows it. */
  lemma {:induction false} FeedMiddle(e: Eager, ms: seq<Gapped>, t: Tail, crlf: bool)
    requires e.state == Params && Path(e.state, e.sink.last) && e.token == ""
    requires ms != [] && GrammarMiddle(ms[0].text) && ParamsOk(ms[1..], t)
    ensures EagerFeed(e, ms[0].text + (Rest(ms[1..], t) + Eol(crlf))) == Done(e, ParamsFound(ms, t))
    decreases |ms|, 0
  {
    hide EagerFeed, EagerStep, Eol, ParamsOk, Rest, Path;
    var text, more := ms[0].text, Rest(ms[1..], t);
    if IndexOf(text, ':') == |text| {
      FeedGoodMiddle(e, text, more + Eol(crlf));
      FeedRest(e.(token := text), ms[1..], t, crlf);
      assert text != "";
    } else {
      RestIsFree(ms[1..], t);
      FeedBrokenMiddle(e, text, more, crlf);
    }
  }

  // --- The prefix and the command ----------------------------------------------------

  function PrefixKind(p: Prefix): TokenType {
    match p
    case NoPrefix => LfTok
    case ServerPrefix(_) => ServerTok
    case NickPrefix(_, _, host) => if host.Some? then HostTok else UserTok
  }

  /** The start of the command, after a prefix. */
  function AtCommand(p: Prefix, q: seq<IRCMessage>): Eager {
    Eager(Command, "", Sink(PrefixKind(p), PrefixMeaning(p), q))
  }

  lemma FeedPart(e: Eager, text: string, x: char, more: string)
    requires forall i | 0 <= i < |text| :: Plain(e.state, text[i])
    ensures EagerFeed(e, text + ([x] + more)) == EagerFeed(EagerStep(e.(token := e.token + text), x), more)
  {
    hide EagerFeed, EagerStep;
    FeedPlain(e, text);
    EagerFeedAppend(e, text, [x] + more);
    FeedFirst(e.(token := e.token + text), x, more);
  }

  lemma FeedColon(q: seq<IRCMessage>, more: string)
    ensures EagerFeed(AtStart(q), [':'] + more)
         == EagerFeed(Eager(ServerOrNick, "", Sink(LfTok, BLANK, q)), more)
  {
    hide EagerFeed, EagerStep;
    FeedFirst(AtStart(q), ':', more);
    EagerStepMeans(AtStart(q), ':');
  }

  lemma FeedServerPrefix(p: Prefix, gap: nat, q: seq<IRCMessage>)
    requires p.ServerPrefix? && PrefixOk(p)
    ensures EagerFeed(AtStart(q), PrefixRender(p, gap)) == AtCommand(p, q)
  {
    hide EagerFeed, EagerStep;
    var e := Eager(ServerOrNick, "", Sink(LfTok, BLANK, q));
    FeedColon(q, p.name + (" " + Spaces(gap)));
    FeedPart(e, p.name, ' ', Spaces(gap));
    assert "" + p.name == p.name;
    SpaceEndsPrefix(e.(token := p.name));
    FeedSpaces(AtCommand(p, q), gap);
  }

  lemma NickMark(q: seq<IRCMessage>, nick: string, x: char)
    requires x in {'!', '@'}
    ensures EagerStep(Eager(ServerOrNick, nick, Sink(LfTok, BLANK, q)), x)
         == Eager(if x == '!' then User else Host, "", Sink(NickTok, BLANK.(nick := nick), q))
  {
    EagerStepMeans(Eager(ServerOrNick, nick, Sink(LfTok, BLANK, q)), x);
  }

  lemma FeedUserHost(e: Eager, user: string, host: Option<string>, gap: nat)
    requires e.state == User && e.token == "" && e.sink.last == NickTok
    requires Free(user, {' ', '@'}) && (host.Some? ==> Free(host.value, {' '}))
    ensures EagerFeed(e, user + HostRender(host, gap))
         == Eager(Command, "",
                  Sink(if host.Some? then HostTok else UserTok,
                       if host.Some? then e.sink.message.(user := user, host := host.value)
                       else e.sink.message.(user := user),
                       e.sink.messages))
  {
    hide EagerFeed, EagerStep, Spaces;
    var read := e.(token := user);
    assert "" + user == user;
    match host
    case None =>
      FeedPart(e, user, ' ', Spaces(gap));
      SpaceEndsPrefix(read);
      FeedSpaces(PrefixEnd(read), gap);
    case Some(h) =>
      FeedPart(e, user, '@', h + (" " + Spaces(gap)));
      AtEndsUser(read);
      FeedHost(Eager(Host, "", Absorb(e.sink, Token(UserTok, user))), h, gap);
  }

  lemma AtEndsUser(e: Eager)
    requires e.state == User
    ensures EagerStep(e, '@') == Eager(Host, "", Absorb(e.sink, Token(UserTok, e.token)))
  {
    EagerStepMeans(e, '@');
  }

  lemma FeedHost(e: Eager, host: string, gap: nat)
    requires e.state == Host && e.token == "" && e.sink.last in {NickTok, UserTok}
    requires Free(host, {' '})
    ensures EagerFeed(e, host + (" " + Spaces(gap)))
         == Eager(Command, "", Sink(HostTok, e.sink.message.(host := host), e.sink.messages))
  {
    hide EagerFeed, EagerStep, Spaces;
    assert "" + host == host;
    FeedPart(e, host, ' ', Spaces(gap));
    SpaceEndsPrefix(e.(token := host));
    FeedSpaces(PrefixEnd(e.(token := host)), gap);
  }

  lemma FeedNickPrefix(p: Prefix, gap: nat, q: seq<IRCMessage>)
    requires p.NickPrefix? && PrefixOk(p)
    ensures EagerFeed(AtStart(q), PrefixRender(p, gap)) == AtCommand(p, q)
  {
    hide EagerFeed, EagerStep, Spaces;
    var e := Eager(ServerOrNick, "", Sink(LfTok, BLANK, q));
    var named := BLANK.(nick := p.nick);
    assert "" + p.nick == p.nick;
    FeedColon(q, p.nick + UserRender(p.user, p.host, gap));
    if p.user.Some? {
      FeedPart(e, p.nick, '!', p.user.value + HostRender(p.host, gap));
      NickMark(q, p.nick, '!');
      FeedUserHost(Eager(User, "", Sink(NickTok, named, q)), p.user.value, p.host, gap);
    } else {
      FeedPart(e, p.nick, '@', p.host.value + (" " + Spaces(gap)));
      NickMark(q, p.nick, '@');
      FeedHost(Eager(Host, "", Sink(NickTok, named, q)), p.host.value, gap);
    }
  }

  /** Where the parser is once prefix and command have been read. */
  function AfterCommand(p: Prefix, command: string, q: seq<IRCMessage>): Eager
    requires CommandOk(command, p != NoPrefix)
  {
    Eager(WordState(if p != NoPrefix then command else command[1..]), command,
          Sink(PrefixKind(p), PrefixMeaning(p), q))
  }

  lemma FeedHead(p: Prefix, gap: nat, command: string, q: seq<IRCMessage>)
    requires PrefixOk(p) && CommandOk(command, p != NoPrefix)
    ensures EagerFeed(AtStart(q), PrefixRender(p, gap) + command) == AfterCommand(p, command, q)
  {
    hide EagerFeed, EagerStep;
    if p == NoPrefix {
      var e := Eager(Command, [command[0]], AtStart(q).sink);
      assert PrefixRender(p, gap) + command == [command[0]] + command[1..];
      FeedFirst(AtStart(q), command[0], command[1..]);
      EagerStepMeans(AtStart(q), command[0]);
      assert "" + [command[0]] == [command[0]];
      FeedWord(e, command[1..]);
      assert [command[0]] + command[1..] == command;
    } else {
      if p.ServerPrefix? { FeedServerPrefix(p, gap, q); } else { FeedNickPrefix(p, gap, q); }
      EagerFeedAppend(AtStart(q), PrefixRender(p, gap), command);
      FeedWord(AtCommand(p, q), command);
      assert "" + command == command;
    }
  }

  lemma SpaceEndsCommand(e: Eager)
    requires e.state in {CommandNum, CommandLetter}
    ensures EagerStep(e, ' ') == Eager(Params, "", Absorb(e.sink, Token(CommandTok, e.token)))
  {
    EagerStepMeans(e, ' ');
  }

  /** The parser can tell where the command ends. */
  predicate CommandEnds(ms: seq<Gapped>, t: Tail) {
    ms != [] || t != Bare(0)
  }

  lemma RestStartsWithSpace(ms: seq<Gapped>, t: Tail)
    requires CommandEnds(ms, t)
    ensures Rest(ms, t) != "" && Rest(ms, t)[0] == ' '
  {
    if ms != [] {
      assert MiddlesRender(ms)[0] == ' ';
    }
  }

  lemma CommandThenRest(e: Eager, ms: seq<Gapped>, t: Tail, crlf: bool)
    requires e.state in {CommandNum, CommandLetter} && CommandEnds(ms, t)
    ensures EagerFeed(e, Rest(ms, t) + Eol(crlf))
         == EagerFeed(Eager(Params, "", Absorb(e.sink, Token(CommandTok, e.token))), Rest(ms, t) + Eol(crlf))
  {
    hide EagerFeed, EagerStep;
    var p := Eager(Params, "", Absorb(e.sink, Token(CommandTok, e.token)));
    var rest := Rest(ms, t) + Eol(crlf);
    RestStartsWithSpace(ms, t);
    assert rest == [' '] + rest[1..];
    SpaceEndsCommand(e);
    SpaceIdles(p);
    FeedFirst(e, ' ', rest[1..]);
    FeedFirst(p, ' ', rest[1..]);
  }

  /** What the parser makes of every readable line, with one message queued at its end. */
  lemma LineYieldsFound(l: Line, q: seq<IRCMessage>)
    requires PrefixOk(l.prefix) && CommandOk(l.command, l.prefix != NoPrefix)
    requires ParamsOk(l.middles, l.tail) && CommandEnds(l.middles, l.tail)
    ensures EagerFeed(AtStart(q), Render(l)) == AtStart(q + [Found(l)])
  {
    hide EagerFeed, EagerStep;
    var head := PrefixRender(l.prefix, l.gap) + l.command;
    var rest := Rest(l.middles, l.tail) + Eol(l.crlf);
    var e := AfterCommand(l.prefix, l.command, q);
    FeedHead(l.prefix, l.gap, l.command, q);
    Assoc(PrefixRender(l.prefix, l.gap), l.command, rest);
    EagerFeedAppend(AtStart(q), head, rest);
    hide PrefixOk, CommandOk, ParamsOk, PrefixRender, MiddlesRender, TailRender, Eol;
    CommandThenRest(e, l.middles, l.tail, l.crlf);
    var p := Eager(Params, "", Absorb(e.sink, Token(CommandTok, e.token)));
    FeedRest(p, l.middles, l.tail, l.crlf);
    assert [] + ParamsFound(l.middles, l.tail) == ParamsFound(l.middles, l.tail);
  }

  /** Without a space after the command the line yields nothing. */
  lemma EndlessCommand(p: Prefix, gap: nat, command: string, crlf: bool, q: seq<IRCMessage>)
    requires PrefixOk(p) && CommandOk(command, p != NoPrefix)
    ensures EagerFeed(AtStart(q), PrefixRender(p, gap) + command + Eol(crlf)) == AfterCommand(p, command, q)
  {
    hide EagerFeed, EagerStep;
    var e := AfterCommand(p, command, q);
    FeedHead(p, gap, command, q);
    EagerFeedAppend(AtStart(q), PrefixRender(p, gap) + command, Eol(crlf));
    EagerStepMeans(e, '\r');
    EagerStepMeans(e, '\n');
    FeedOne(e, '\n');
    assert Eol(true) == ['\r'] + ['\n'] && Eol(false) == ['\n'];
    FeedFirst(e, '\r', ['\n']);
  }
}
