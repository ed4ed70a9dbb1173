/**
  Streams: lines of the grammar one after another, with the empty lines between
  them that section 2.3.1 of RFC 1459 wants ignored.
 */
module IRCStream {
  import opened IRCMessages
  import opened IRCParsing
  import opened IRCEager
  import opened IRCShape
  import opened IRCGrammar
  import opened IRCRfc

  datatype Item = LineItem(line: Line) | EmptyItem(crlf: bool)

  function ItemText(item: Item): string {
    match item case LineItem(l) => Render(l) case EmptyItem(crlf) => Eol(crlf)
  }

  function StreamText(items: seq<Item>): string {
    if items == [] then "" else ItemText(items[0]) + StreamText(items[1..])
  }

  /** The messages that the grammar assigns to the stream; empty lines have none. */
  function Meanings(items: seq<Item>): seq<IRCMessage> {
    if items == [] then []
    else (if items[0].LineItem? then [Meaning(items[0].line)] else []) + Meanings(items[1..])
  }

  predicate StreamDerivable(items: seq<Item>) {
    forall i | 0 <= i < |items| && items[i].LineItem? :: Derivable(items[i].line)
  }

  /** Every line is understood, and no line comes after an empty one. */
  predicate StreamUnderstood(items: seq<Item>) {
    items == []
    || (match items[0]
        case EmptyItem(_) => Meanings(items[1..]) == []
        case LineItem(l) => Understood(l) && StreamUnderstood(items[1..]))
  }

  // --- An empty line is not ignored ------------------------------------------------------

  /** Its first character becomes the first character of the next command, whatever follows. */
  lemma EmptyLineTaints(crlf: bool, more: string, q: seq<IRCMessage>)
    ensures var ms := ParseChunk(StartMachine(q), Eol(crlf) + more).sink.messages;
            |ms| > |q| ==> |ms[|q|].command| >= 2 && ms[|q|].command[0] == Eol(crlf)[0]
  {
    hide Feed, EagerFeed, EagerStep;
    var s := Eol(crlf) + more;
    ParseAtStart(q, s);
    if |EagerFeed(AtStart(q), s).sink.messages| > |q| {
      assert s[0] == Eol(crlf)[0];
      FirstCommand(q, s);
    }
  }

  // --- How many messages a stream can yield --------------------------------------------------

  /** Where the parser can be when an item ends. */
  predicate Boundary(e: Eager) {
    e.state in {Start, Command, CommandNum, CommandLetter}
  }

  /** Past the prefix, inside a line. */
  predicate Beyond(e: Eager) {
    e.state in {Command, CommandNum, CommandLetter, Params, Trailing, Cr}
  }

  predicate InPrefix(e: Eager) {
    e.state in {ServerOrNick, User, Host}
  }

  lemma QuietStep(e: Eager, x: char)
    requires x != '\n'
    ensures EagerStep(e, x).sink.messages == e.sink.messages
    ensures Beyond(e) ==> Beyond(EagerStep(e, x))
    ensures InPrefix(e) ==> InPrefix(EagerStep(e, x)) || Beyond(EagerStep(e, x))
    ensures InPrefix(e) && x == ' ' ==> Beyond(EagerStep(e, x))
  {
    hide EagerStep;
    EagerStepMeans(e, x);
  }

  lemma {:induction false} QuietFeed(e: Eager, s: string)
    requires '\n' !in s
    requires Beyond(e) || (InPrefix(e) && ' ' in s)
    ensures EagerFeed(e, s).sink.messages == e.sink.messages && Beyond(EagerFeed(e, s))
    decreases |s|
  {
    hide EagerStep;
    if s != "" {
      QuietStep(e, s[0]);
      assert forall x | x in s[1..] :: x in s;
      QuietFeed(EagerStep(e, s[0]), s[1..]);
    }
  }

  lemma LineFeedStep(e: Eager)
    requires Beyond(e)
    ensures Boundary(EagerStep(e, '\n'))
    ensures |EagerStep(e, '\n').sink.messages| <= |e.sink.messages| + 1
  {
    hide EagerStep;
    EagerStepMeans(e, '\n');
  }

  lemma EmptyStep(e: Eager, x: char)
    requires Boundary(e) && x in {'\r', '\n'}
    ensures Boundary(EagerStep(e, x)) && EagerStep(e, x).sink.messages == e.sink.messages
  {
    hide EagerStep;
    EagerStepMeans(e, x);
  }

  lemma EmptyYieldsNothing(e: Eager, crlf: bool)
    requires Boundary(e)
    ensures Boundary(EagerFeed(e, Eol(crlf))) && EagerFeed(e, Eol(crlf)).sink.messages == e.sink.messages
  {
    hide EagerFeed, EagerStep;
    var x := Eol(crlf)[0];
    EmptyStep(e, x);
    if crlf {
      assert Eol(crlf) == ['\r'] + ['\n'];
      FeedFirst(e, '\r', ['\n']);
      EmptyStep(EagerStep(e, '\r'), '\n');
      FeedOne(EagerStep(e, '\r'), '\n');
    } else {
      assert Eol(crlf) == ['\n'];
      FeedOne(e, '\n');
    }
  }

  /** The line up to its line feed. */
  function LineBody(l: Line): string {
    PrefixRender(l.prefix, l.gap) + (l.command + (Rest(l.middles, l.tail) + (if l.crlf then "\r" else "")))
  }

  lemma RenderEndsInLf(l: Line)
    ensures Render(l) == LineBody(l) + ['\n']
  {
    var p, c, r := PrefixRender(l.prefix, l.gap), l.command, Rest(l.middles, l.tail);
    var end := if l.crlf then "\r" else "";
    assert Eol(l.crlf) == end + ['\n'];
    Assoc(r, end, ['\n']);
    Assoc(c, r + end, ['\n']);
    Assoc(p, c + (r + end), ['\n']);
  }

  lemma {:induction false} NoLfInSpaces(n: nat)
    ensures '\n' !in Spaces(n)
  {
    if n > 0 {
      NoLfInSpaces(n - 1);
    }
  }

  lemma FreeHasNoLf(s: string, bad: set<char>)
    requires Free(s, bad) && '\n' in bad
    ensures '\n' !in s
  {
  }

  lemma NoLfInPrefix(p: Prefix, gap: nat)
    requires GrammarPrefix(p)
    ensures '\n' !in PrefixRender(p, gap)
  {
    NoLfInSpaces(gap);
  }

  lemma PrefixHasSpace(p: Prefix, gap: nat)
    requires p != NoPrefix
    ensures PrefixRender(p, gap) != "" && PrefixRender(p, gap)[0] == ':'
    ensures ' ' in PrefixRender(p, gap)[1..]
  {
    hide Spaces;
    assert (" " + Spaces(gap))[0] == ' ';
    match p
    case ServerPrefix(name) => assert PrefixRender(p, gap)[1..] == name + (" " + Spaces(gap));
    case NickPrefix(nick, user, host) =>
      assert ' ' in HostRender(host, gap);
      assert ' ' in UserRender(user, host, gap);
      assert PrefixRender(p, gap)[1..] == nick + UserRender(user, host, gap);
  }

  lemma WordIsPlain(w: string)
    requires Word(w)
    ensures w != "" && w[0] !in {':', '\r', '\n'} && '\n' !in w
  {
  }

  lemma NoLfInBody(l: Line)
    requires Derivable(l)
    ensures '\n' !in LineBody(l) && LineBody(l) != ""
    ensures LineBody(l)[0] == ':' ==> ' ' in LineBody(l)[1..]
  {
    hide PrefixRender, Rest, Word;
    NoLfInPrefix(l.prefix, l.gap);
    WordIsPlain(l.command);
    RestIsFree(l.middles, l.tail);
    FreeHasNoLf(Rest(l.middles, l.tail), TRAILING_STOPS);
    var more := l.command + (Rest(l.middles, l.tail) + (if l.crlf then "\r" else ""));
    assert more[0] == l.command[0];
    if l.prefix == NoPrefix {
      NothingRendered(l.gap);
      assert LineBody(l) == more;
    } else {
      PrefixHasSpace(l.prefix, l.gap);
      assert LineBody(l)[1..] == PrefixRender(l.prefix, l.gap)[1..] + more;
    }
  }

  lemma NothingRendered(gap: nat)
    ensures PrefixRender(NoPrefix, gap) == ""
  {
  }

  /** From wherever an item can start, a line yields at most one message. */
  lemma LineYieldsAtMostOne(e: Eager, l: Line)
    requires Boundary(e) && Derivable(l)
    ensures Boundary(EagerFeed(e, Render(l)))
    ensures |EagerFeed(e, Render(l)).sink.messages| <= |e.sink.messages| + 1
  {
    hide EagerFeed, EagerStep, Render, LineBody, Derivable;
    var body := LineBody(l);
    RenderEndsInLf(l);
    NoLfInBody(l);
    if e.state == Start {
      var next := EagerStep(e, body[0]);
      assert body == [body[0]] + body[1..];
      FeedFirst(e, body[0], body[1..]);
      QuietStep(e, body[0]);
      EagerStepMeans(e, body[0]);
      assert forall x | x in body[1..] :: x in body;
      QuietFeed(next, body[1..]);
    } else {
      QuietFeed(e, body);
    }
    EagerFeedAppend(e, body, ['\n']);
    FeedOne(EagerFeed(e, body), '\n');
    LineFeedStep(EagerFeed(e, body));
  }

  lemma {:induction false} StreamYieldsAtMost(e: Eager, items: seq<Item>)
    requires Boundary(e) && StreamDerivable(items)
    ensures |EagerFeed(e, StreamText(items)).sink.messages| <= |e.sink.messages| + |Meanings(items)|
    decreases |items|
  {
    hide EagerStep, Render, Derivable;
    if items != [] {
      hide EagerFeed;
      EagerFeedAppend(e, ItemText(items[0]), StreamText(items[1..]));
      match items[0] {
        case LineItem(l) => LineYieldsAtMostOne(e, l);
        case EmptyItem(crlf) => EmptyYieldsNothing(e, crlf);
      }
      StreamYieldsAtMost(EagerFeed(e, ItemText(items[0])), items[1..]);
    }
  }

  // --- The stream, exactly ----------------------------------------------------------------------

  lemma {:induction false} MessagesOnlyGrow(e: Eager, s: string)
    ensures e.sink.messages <= EagerFeed(e, s).sink.messages
    decreases |s|
  {
    hide EagerStep;
    if s != "" {
      MessagesGrow(e, s[0]);
      MessagesOnlyGrow(EagerStep(e, s[0]), s[1..]);
    }
  }

  lemma {:induction false} UnderstoodStream(items: seq<Item>, q: seq<IRCMessage>)
    requires StreamDerivable(items) && StreamUnderstood(items)
    ensures EagerFeed(AtStart(q), StreamText(items)).sink.messages == q + Meanings(items)
    decreases |items|
  {
    hide EagerStep, Render, Derivable, Understood;
    if items == [] {
      assert q + [] == q;
    } else {
      hide EagerFeed;
      match items[0] {
        case LineItem(l) =>
          EagerFeedAppend(AtStart(q), Render(l), StreamText(items[1..]));
          UnderstoodLine(l, q);
          UnderstoodStream(items[1..], q + [Meaning(l)]);
          assert (q + [Meaning(l)]) + Meanings(items[1..]) == q + ([Meaning(l)] + Meanings(items[1..]));
        case EmptyItem(crlf) =>
          assert Meanings(items) == [] by { assert [] + Meanings(items[1..]) == Meanings(items[1..]); }
          StreamYieldsAtMost(AtStart(q), items);
          MessagesOnlyGrow(AtStart(q), StreamText(items));
          assert q + [] == q;
      }
    }
  }

  lemma MeaningsAreWords(items: seq<Item>)
    requires StreamDerivable(items) && Meanings(items) != []
    ensures Word(Meanings(items)[0].command)
  {
    hide Word;
    if items[0].EmptyItem? {
      MeaningsAreWords(items[1..]);
    }
  }

  lemma EmptyStart(items: seq<Item>)
    requires items != [] && items[0].EmptyItem?
    ensures StreamText(items) != "" && StreamText(items)[0] in {'\r', '\n'}
    ensures Meanings(items) == Meanings(items[1..])
  {
    assert StreamText(items)[0] == Eol(items[0].crlf)[0];
    assert [] + Meanings(items[1..]) == Meanings(items[1..]);
  }

  lemma FirstAfter(q: seq<IRCMessage>, ms: seq<IRCMessage>)
    requires ms != []
    ensures |q + ms| > |q| && (q + ms)[|q|] == ms[0]
  {
  }

  /** An empty line before a line: the first message after it is a wrong one, if there is any. */
  lemma EmptyBeforeLine(items: seq<Item>, q: seq<IRCMessage>)
    requires StreamDerivable(items) && items != [] && items[0].EmptyItem? && Meanings(items[1..]) != []
    ensures EagerFeed(AtStart(q), StreamText(items)).sink.messages != q + Meanings(items)
  {
    hide EagerFeed, EagerStep, Derivable;
    var s, ms := StreamText(items), Meanings(items);
    EmptyStart(items);
    FirstAfter(q, ms);
    MeaningsAreWords(items);
    if |EagerFeed(AtStart(q), s).sink.messages| > |q| {
      FirstCommand(q, s);
      WordIsPlain(ms[0].command);
      assert EagerFeed(AtStart(q), s).sink.messages[|q|] != ms[0];
    }
  }

  /** A line that is not understood: its message is wrong or missing, whatever follows. */
  lemma MisunderstoodFirst(l: Line, items: seq<Item>, q: seq<IRCMessage>)
    requires Derivable(l) && !Understood(l) && StreamDerivable(items)
    ensures EagerFeed(AtStart(q), Render(l) + StreamText(items)).sink.messages
         != q + ([Meaning(l)] + Meanings(items))
  {
    hide EagerFeed, EagerStep, Render, Derivable, ReadAs;
    var more := StreamText(items);
    var right := q + ([Meaning(l)] + Meanings(items));
    assert right[|q|] == Meaning(l);
    if l.prefix == NoPrefix && |l.command| < 2 {
      ShortCommand(l, q, more);
    } else {
      var e := EagerFeed(AtStart(q), Render(l));
      EagerFeedAppend(AtStart(q), Render(l), more);
      if CommandEnds(l.middles, l.tail) {
        MisreadLine(l, q);
        MessagesOnlyGrow(e, more);
        assert EagerFeed(e, more).sink.messages[|q|] == e.sink.messages[|q|];
      } else {
        UnendedLine(l, q);
        StreamYieldsAtMost(e, items);
      }
    }
  }

  lemma {:induction false} MisunderstoodStream(items: seq<Item>, q: seq<IRCMessage>)
    requires StreamDerivable(items) && !StreamUnderstood(items)
    ensures EagerFeed(AtStart(q), StreamText(items)).sink.messages != q + Meanings(items)
    decreases |items|
  {
    hide EagerFeed, EagerStep, Render, Derivable, Understood;
    match items[0] {
      case EmptyItem(_) => EmptyBeforeLine(items, q);
      case LineItem(l) =>
        if Understood(l) {
          EagerFeedAppend(AtStart(q), Render(l), StreamText(items[1..]));
          UnderstoodLine(l, q);
          MisunderstoodStream(items[1..], q + [Meaning(l)]);
          assert (q + [Meaning(l)]) + Meanings(items[1..]) == q + ([Meaning(l)] + Meanings(items[1..]));
        } else {
          MisunderstoodFirst(l, items[1..], q);
        }
    }
  }

  /**
    Compliance of whole streams, exactly: the messages the grammar assigns to the
    joined lines are queued if and only if every line is understood and no line
    comes after an empty one.
   */
  lemma StreamIff(items: seq<Item>, q: seq<IRCMessage>)
    requires StreamDerivable(items)
    ensures ParseChunk(StartMachine(q), StreamText(items)).sink.messages == q + Meanings(items)
            <==> StreamUnderstood(items)
  {
    hide EagerFeed, EagerStep, Feed, Render, Derivable, Understood;
    ParseAtStart(q, StreamText(items));
    if StreamUnderstood(items) {
      UnderstoodStream(items, q);
    } else {
      MisunderstoodStream(items, q);
    }
  }
}
