/**
  The line parser: a character lexer that fills a token queue, and a token
  machine that drains it when a line feed has been seen.  The functions give the
  meaning of one character and of one token; the class runs them in place.
 */
module IRCParsing {
  import opened IRCMessages

  datatype TokenType =
    | ServerTok | NickTok | UserTok | HostTok | CommandTok | ParamTok | CrTok | LfTok

  datatype Token = Token(kind: TokenType, value: string)

  datatype State =
    | Start | ServerOrNick | User | Host | Command | CommandNum | CommandLetter
    | Params | Trailing | Cr | Lf

  predicate IsDigit(x: char) { '0' <= x <= '9' }

  predicate IsLetter(x: char) { 'a' <= x <= 'z' || 'A' <= x <= 'Z' }

  // --- The lexer: one character ---------------------------------------------

  /** What happens to the token buffer: left alone, put as a token, or put if not empty. */
  datatype Put = NoPut | Always(kind: TokenType) | ParamIfAny

  /** A transition: it depends on the state and the character, never on the token text. */
  datatype Move = Move(next: State, keep: bool, put: Put, mark: Mark)

  /** A line mark that follows the token. */
  datatype Mark = NoMark | Mark(kind: TokenType)

  function Skip(next: State): Move { Move(next, false, NoPut, NoMark) }

  function Keep(next: State): Move { Move(next, true, NoPut, NoMark) }

  function MoveOf(state: State, x: char): Move {
    match state
    case Start => if x == ':' then Skip(ServerOrNick) else Keep(Command)
    case ServerOrNick =>
      if x == ' ' then Move(Command, false, Always(ServerTok), NoMark)
      else if x == '!' then Move(User, false, Always(NickTok), NoMark)
      else if x == '@' then Move(Host, false, Always(NickTok), NoMark)
      else Keep(ServerOrNick)
    case User =>
      if x == ' ' then Move(Command, false, Always(UserTok), NoMark)
      else if x == '@' then Move(Host, false, Always(UserTok), NoMark)
      else Keep(User)
    case Host =>
      if x == ' ' then Move(Command, false, Always(HostTok), NoMark) else Keep(Host)
    case Command =>
      if IsDigit(x) then Keep(CommandNum)
      else if IsLetter(x) then Keep(CommandLetter)
      else Skip(Command)
    case CommandNum =>
      if IsDigit(x) then Keep(CommandNum)
      else if x == ' ' then Move(Params, false, Always(CommandTok), NoMark)
      else Skip(CommandNum)
    case CommandLetter =>
      if IsLetter(x) then Keep(CommandLetter)
      else if x == ' ' then Move(Params, false, Always(CommandTok), NoMark)
      else Skip(CommandLetter)
    case Params =>
      if x == ':' then Skip(Trailing)
      else if x == ' ' then Move(Params, false, ParamIfAny, NoMark)
      else if x == '\r' then Move(Cr, false, ParamIfAny, Mark(CrTok))
      else if x == '\n' then Move(Lf, false, ParamIfAny, Mark(LfTok))
      else if x == '\0' then Skip(Params)
      else Keep(Params)
    case Trailing =>
      if x == '\r' then Move(Cr, false, Always(ParamTok), Mark(CrTok))
      else if x == '\n' then Move(Lf, false, Always(ParamTok), Mark(LfTok))
      else if x == '\0' then Skip(Trailing)
      else Keep(Trailing)
    case Cr =>
      if x == '\n' then Move(Lf, false, NoPut, Mark(LfTok)) else Skip(Cr)
    case Lf => Skip(Lf)
  }

  /** New state, tokens put into the queue, and what is left in the token buffer. */
  datatype Lexed = Lexed(state: State, out: seq<Token>, token: string)

  function PutTokens(put: Put, token: string): seq<Token> {
    match put
    case NoPut => []
    case Always(kind) => [Token(kind, token)]
    case ParamIfAny => if token == "" then [] else [Token(ParamTok, token)]
  }

  function MarkTokens(mark: Mark): seq<Token> {
    match mark
    case NoMark => []
    case Mark(kind) => [Token(kind, "")]
  }

  function LexChar(state: State, token: string, x: char): Lexed {
    var m := MoveOf(state, x);
    Lexed(m.next,
          PutTokens(m.put, token) + MarkTokens(m.mark),
          if m.put != NoPut then "" else if m.keep then token + [x] else token)
  }

  // --- The token machine: one token -------------------------------------------

  /** The last token seen, the message being built, and the finished messages. */
  datatype Sink = Sink(last: TokenType, message: IRCMessage, messages: seq<IRCMessage>)

  /** The token kinds for which the program has no action and would report an error. */
  predicate Misplaced(last: TokenType, kind: TokenType) {
    match last
    case LfTok => kind !in {ServerTok, NickTok, CommandTok}
    case ServerTok => kind != CommandTok
    case NickTok => kind !in {UserTok, HostTok, CommandTok}
    case UserTok => kind !in {HostTok, CommandTok}
    case HostTok => kind != CommandTok
    case CommandTok => kind !in {ParamTok, CrTok, LfTok}
    case ParamTok => kind !in {ParamTok, CrTok, LfTok}
    case CrTok => kind != LfTok
  }

  function Absorb(s: Sink, t: Token): Sink {
    var kept := s.(last := t.kind);
    if Misplaced(s.last, t.kind) then kept
    else match t.kind
      case ServerTok => kept.(message := s.message.(servername := t.value))
      case NickTok => kept.(message := s.message.(nick := t.value))
      case UserTok => kept.(message := s.message.(user := t.value))
      case HostTok => kept.(message := s.message.(host := t.value))
      case CommandTok => kept.(message := s.message.(command := t.value))
      case ParamTok => kept.(message := s.message.(params := s.message.params + [t.value]))
      case CrTok => kept
      case LfTok => Sink(LfTok, BLANK, s.messages + [s.message])
  }

  function Drain(s: Sink, tokens: seq<Token>): Sink
    decreases |tokens|
  {
    if tokens == [] then s else Drain(Absorb(s, tokens[0]), tokens[1..])
  }

  // --- The whole parser -------------------------------------------------------

  /** Everything that survives between two calls of the parser. */
  datatype Machine = Machine(state: State, sink: Sink, tokens: seq<Token>)

  /** A call in progress: the parser and its local token buffer. */
  datatype Run = Run(machine: Machine, token: string)

  const FRESH: Machine := Machine(Start, Sink(LfTok, BLANK, []), [])

  function Step(r: Run, x: char): Run {
    var l := LexChar(r.machine.state, r.token, x);
    var tokens := r.machine.tokens + l.out;
    if l.state == Lf then
      Run(Machine(Start, Drain(r.machine.sink, tokens), []), l.token)
    else
      Run(Machine(l.state, r.machine.sink, tokens), l.token)
  }

  function Feed(r: Run, s: string): Run
    decreases |s|
  {
    if s == "" then r else Feed(Step(r, s[0]), s[1..])
  }

  /** One call: the token buffer starts empty and is dropped at the end. */
  function ParseChunk(m: Machine, chunk: string): Machine {
    Feed(Run(m, ""), chunk).machine
  }

  function ParseChunks(m: Machine, chunks: seq<string>): Machine
    decreases |chunks|
  {
    if chunks == [] then m else ParseChunks(ParseChunk(m, chunks[0]), chunks[1..])
  }

  function Flatten(chunks: seq<string>): string {
    if chunks == [] then "" else chunks[0] + Flatten(chunks[1..])
  }

  /** The same parser with another queue of finished messages. */
  function Requeue(m: Machine, q: seq<IRCMessage>): Machine {
    m.(sink := m.sink.(messages := q))
  }

  class IRCParser {
    var state: State
    var lastToken: TokenType
    var tokens: seq<Token>
    var message: IRCMessage
    var messages: seq<IRCMessage>

    function View(): Machine
      reads this
    {
      Machine(state, Sink(lastToken, message, messages), tokens)
    }

    constructor ()
      ensures View() == FRESH
    {
      state, lastToken, tokens, message, messages := Start, LfTok, [], BLANK, [];
    }

    method Parse(text: string)
      modifies this
      ensures View() == ParseChunk(old(View()), text)
    {
      Lexer(text);
    }

    function MessagesCount(): nat
      reads this
    {
      |messages|
    }

    method GetMessage() returns (msg: IRCMessage)
      requires MessagesCount() > 0
      modifies this`messages
      ensures old(messages) == [msg] + messages
    {
      msg := messages[0];
      messages := messages[1..];
    }

    method Lexer(text: string)
      modifies this
      ensures View() == ParseChunk(old(View()), text)
    {
      hide LexChar, Drain;
      var token := "";
      var index := 0;
      while index < |text|
        invariant index <= |text|
        invariant Feed(Run(View(), token), text[index..]) == Feed(Run(old(View()), ""), text)
      {
        ghost var before := Run(View(), token);
        token := LexOne(token, text[index]);
        if state == Lf {
          Parser();
          state := Start;
        }
        assert Run(View(), token) == Step(before, text[index]);
        assert text[index..][1..] == text[index + 1..];
        index := index + 1;
      }
    }

    /** The body of the lexer's loop, up to the call of the token machine. */
    method LexOne(token: string, x: char) returns (rest: string)
      modifies this`state, this`tokens
      ensures var l := LexChar(old(state), token, x);
              state == l.state && rest == l.token && tokens == old(tokens) + l.out
    {
      if state in {Start, ServerOrNick, User, Host} {
        rest := LexPrefix(token, x);
      } else if state in {Command, CommandNum, CommandLetter} {
        rest := LexCommand(token, x);
      } else if state in {Params, Trailing, Cr} {
        rest := LexParams(token, x);
      } else {
        rest := token;
      }
    }

    method LexPrefix(token: string, x: char) returns (rest: string)
      requires state in {Start, ServerOrNick, User, Host}
      modifies this`state, this`tokens
      ensures var l := LexChar(old(state), token, x);
              state == l.state && rest == l.token && tokens == old(tokens) + l.out
    {
      rest := token;
      if state == Start {
        if x == ':' {
          state := ServerOrNick;
        } else {
          rest := rest + [x];
          state := Command;
        }
      } else if state == ServerOrNick {
        if x != ' ' && x != '!' && x != '@' {
          rest := rest + [x];
        } else if x == ' ' {
          rest := PutToken(ServerTok, rest);
          state := Command;
        } else {
          rest := PutToken(NickTok, rest);
          state := if x == '!' then User else Host;
        }
      } else if state == User {
        if x != ' ' && x != '@' {
          rest := rest + [x];
        } else {
          rest := PutToken(UserTok, rest);
          state := if x == ' ' then Command else Host;
        }
      } else if state == Host {
        if x != ' ' {
          rest := rest + [x];
        } else {
          rest := PutToken(HostTok, rest);
          state := Command;
        }
      }
    }

    method LexCommand(token: string, x: char) returns (rest: string)
      requires state in {Command, CommandNum, CommandLetter}
      modifies this`state, this`tokens
      ensures var l := LexChar(old(state), token, x);
              state == l.state && rest == l.token && tokens == old(tokens) + l.out
    {
      rest := token;
      if state == Command {
        if IsDigit(x) {
          rest := rest + [x];
          state := CommandNum;
        } else if IsLetter(x) {
          rest := rest + [x];
          state := CommandLetter;
        }
      } else if state == CommandNum {
        if IsDigit(x) {
          rest := rest + [x];
        } else if x == ' ' {
          rest := PutToken(CommandTok, rest);
          state := Params;
        }
      } else if state == CommandLetter {
        if IsLetter(x) {
          rest := rest + [x];
        } else if x == ' ' {
          rest := PutToken(CommandTok, rest);
          state := Params;
        }
      }
    }

    method LexParams(token: string, x: char) returns (rest: string)
      requires state in {Params, Trailing, Cr}
      modifies this`state, this`tokens
      ensures var l := LexChar(old(state), token, x);
              state == l.state && rest == l.token && tokens == old(tokens) + l.out
    {
      rest := token;
      if state == Params {
        if x != ':' && x != ' ' && x != '\0' && x != '\r' && x != '\n' {
          rest := rest + [x];
        } else if x == ':' {
          state := Trailing;
        } else if x == ' ' {
          if rest != "" { rest := PutToken(ParamTok, rest); }
        } else if x == '\r' {
          if rest != "" { rest := PutToken(ParamTok, rest); }
          PutMark(CrTok);
          state := Cr;
        } else if x == '\n' {
          if rest != "" { rest := PutToken(ParamTok, rest); }
          PutMark(LfTok);
          state := Lf;
        }
      } else if state == Trailing {
        if x != '\0' && x != '\r' && x != '\n' {
          rest := rest + [x];
        } else if x == '\r' || x == '\n' {
          rest := PutToken(ParamTok, rest);
          if x == '\r' {
            PutMark(CrTok);
            state := Cr;
          } else {
            PutMark(LfTok);
            state := Lf;
          }
        }
      } else if state == Cr {
        if x == '\n' {
          PutMark(LfTok);
          state := Lf;
        }
      }
    }

    /** The token machine: empties the queue in order. */
    method Parser()
      modifies this`tokens, this`lastToken, this`message, this`messages
      ensures tokens == []
      ensures Sink(lastToken, message, messages)
           == Drain(old(Sink(lastToken, message, messages)), old(tokens))
    {
      while tokens != []
        invariant Drain(Sink(lastToken, message, messages), tokens)
               == Drain(old(Sink(lastToken, message, messages)), old(tokens))
        decreases |tokens|
      {
        var t := tokens[0];
        tokens := tokens[1..];
        if lastToken == LfTok {
          if t.kind == ServerTok { message := message.(servername := t.value); }
          else if t.kind == NickTok { message := message.(nick := t.value); }
          else if t.kind == CommandTok { message := message.(command := t.value); }
        } else if lastToken == ServerTok {
          if t.kind == CommandTok { message := message.(command := t.value); }
        } else if lastToken == NickTok {
          if t.kind == UserTok { message := message.(user := t.value); }
          else if t.kind == HostTok { message := message.(host := t.value); }
          else if t.kind == CommandTok { message := message.(command := t.value); }
        } else if lastToken == UserTok {
          if t.kind == HostTok { message := message.(host := t.value); }
          else if t.kind == CommandTok { message := message.(command := t.value); }
        } else if lastToken == HostTok {
          if t.kind == CommandTok { message := message.(command := t.value); }
        } else if lastToken == CommandTok || lastToken == ParamTok {
          if t.kind == ParamTok {
            message := message.(params := message.params + [t.value]);
          } else if t.kind == LfTok {
            messages, message := messages + [message], BLANK;
          }
        } else if lastToken == CrTok {
          if t.kind == LfTok {
            messages, message := messages + [message], BLANK;
          }
        }
        lastToken := t.kind;
      }
    }

    /** Queues the buffered text and returns the emptied buffer. */
    method PutToken(kind: TokenType, token: string) returns (cleared: string)
      modifies this`tokens
      ensures tokens == old(tokens) + [Token(kind, token)]
      ensures cleared == ""
    {
      tokens := tokens + [Token(kind, token)];
      cleared := "";
    }

    method PutMark(kind: TokenType)
      modifies this`tokens
      ensures tokens == old(tokens) + [Token(kind, "")]
    {
      tokens := tokens + [Token(kind, "")];
    }
  }
}
