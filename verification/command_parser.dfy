/** The parser of user commands: a prefix, a command word and quoted or escaped arguments. */
module CommandParsing {

  /** The program's `int`: the compiler's 32 bits, without wrap-around. */
  newtype int32 = x: int | -0x8000_0000 <= x < 0x8000_0000

  datatype Command = Command(command: string, arguments: seq<string>)

  /** The two ways to throw, each with the character found. */
  datatype Result = Parsed(cmd: Command) | MissingPrefix(found: char) | BadCharacter(found: char)

  const NO_PREFIX: char := '\0'

  predicate IsCommandCharacter(x: char) {
    'a' <= x <= 'z' || 'A' <= x <= 'Z' || '0' <= x <= '9' || x == '-'
  }

  /** A character that may stand before the first space. */
  predicate Allowed(x: char) {
    IsCommandCharacter(x) || x == '\r' || x == '\n'
  }

  // --- The arguments, position by position --------------------------------------------

  datatype Quote = Unquoted | Single | Double

  datatype Effect = Turn(next: Quote) | Literal | Break | Nothing

  /** What an unescaped character other than the backslash does inside `quote`. */
  function EffectOf(quote: Quote, x: char): Effect {
    if x == '\'' then
      match quote case Single => Turn(Unquoted) case Unquoted => Turn(Single) case Double => Literal
    else if x == '"' then
      match quote case Double => Turn(Unquoted) case Unquoted => Turn(Double) case Single => Literal
    else if quote != Unquoted then Literal
    else if x == '\r' then Nothing
    else if x == ' ' || x == '\n' then Break
    else Literal
  }

  /** The length of the run of backslashes that ends just before position `i`. */
  function Backslashes(t: string, i: nat): nat
    requires i <= |t|
  {
    if i == 0 || t[i - 1] != '\\' then 0 else 1 + Backslashes(t, i - 1)
  }

  predicate Escaped(t: string, i: nat)
    requires i <= |t|
  {
    Backslashes(t, i) % 2 == 1
  }

  /** The quotation that is open at position `i`. */
  function QuoteAt(t: string, i: nat): Quote
    requires i <= |t|
  {
    if i == 0 then Unquoted
    else
      var q := QuoteAt(t, i - 1);
      if Escaped(t, i - 1) || t[i - 1] == '\\' then q
      else match EffectOf(q, t[i - 1]) case Turn(next) => next case _ => q
  }

  predicate IsBreak(t: string, i: nat)
    requires i < |t|
  {
    !Escaped(t, i) && t[i] != '\\' && EffectOf(QuoteAt(t, i), t[i]) == Break
  }

  predicate IsText(t: string, i: nat)
    requires i < |t|
  {
    Escaped(t, i) || (t[i] != '\\' && EffectOf(QuoteAt(t, i), t[i]) == Literal)
  }

  /** The text characters of positions `lo` to `hi`. */
  function TextOf(t: string, lo: nat, hi: nat): string
    requires lo <= hi <= |t|
  {
    if lo == hi then ""
    else TextOf(t, lo, hi - 1) + (if IsText(t, hi - 1) then [t[hi - 1]] else "")
  }

  /** The position after the last break before `i`, or the beginning. */
  function AfterBreak(t: string, i: nat): (lo: nat)
    requires i <= |t|
    ensures lo <= i
  {
    if i == 0 then 0 else if IsBreak(t, i - 1) then i else AfterBreak(t, i - 1)
  }

  /** Every break before `i` closes one piece. */
  function Pieces(t: string, i: nat): seq<string>
    requires i <= |t|
  {
    if i == 0 then []
    else if IsBreak(t, i - 1) then Pieces(t, i - 1) + [TextOf(t, AfterBreak(t, i - 1), i - 1)]
    else Pieces(t, i - 1)
  }

  /** The text is split at its breaks; a last piece counts when it is not empty. */
  function Arguments(t: string): seq<string> {
    var last := TextOf(t, AfterBreak(t, |t|), |t|);
    Pieces(t, |t|) + (if last == "" then [] else [last])
  }

  // --- The whole command ------------------------------------------------------------------

  function FirstSpace(s: string): (k: nat)
    ensures k <= |s|
    ensures forall i | 0 <= i < k :: s[i] != ' '
    ensures k < |s| ==> s[k] == ' '
  {
    if s == "" || s[0] == ' ' then 0 else 1 + FirstSpace(s[1..])
  }

  function FirstBad(s: string): (k: nat)
    ensures k <= |s|
    ensures forall i | 0 <= i < k :: Allowed(s[i])
    ensures k < |s| ==> !Allowed(s[k])
  {
    if s == "" || !Allowed(s[0]) then 0 else 1 + FirstBad(s[1..])
  }

  function WithoutLineEnds(s: string): string {
    if s == "" then ""
    else
      var x := s[|s| - 1];
      WithoutLineEnds(s[..|s| - 1]) + (if x == '\r' || x == '\n' then "" else [x])
  }

  predicate PrefixMissing(prefix: char, s: string) {
    prefix != NO_PREFIX && s != "" && s[0] != prefix
  }

  /** What follows the prefix. */
  function Body(prefix: char, s: string): string {
    if prefix != NO_PREFIX && s != "" then s[1..] else s
  }

  /** The meaning of a command line, without any automaton. */
  function Meaning(prefix: char, s: string): Result {
    if PrefixMissing(prefix, s) then MissingPrefix(s[0])
    else
      var body := Body(prefix, s);
      var k := FirstSpace(body);
      var bad := FirstBad(body[..k]);
      if bad < k then BadCharacter(body[bad])
      else Parsed(Command(WithoutLineEnds(body[..k]),
                          if k < |body| then Arguments(body[k + 1..]) else []))
  }

  /** Position `i` holds the first character behind the prefix that is not allowed, and it is no space. */
  predicate Offends(prefix: char, s: string, i: nat) {
    var off := if prefix == NO_PREFIX then 0 else 1;
    && off <= i < |s|
    && !Allowed(s[i]) && s[i] != ' '
    && forall j | off <= j < i :: Allowed(s[j])
  }

  /** Exactly when parsing throws, which of the two errors it is, and the character it names. */
  lemma ThrowsIff(prefix: char, s: string)
    ensures Meaning(prefix, s).MissingPrefix? <==> PrefixMissing(prefix, s)
    ensures PrefixMissing(prefix, s) ==> Meaning(prefix, s) == MissingPrefix(s[0])
    ensures Meaning(prefix, s).BadCharacter? <==>
              !PrefixMissing(prefix, s) && exists i: nat :: Offends(prefix, s, i)
    ensures forall i: nat | Offends(prefix, s, i) && !PrefixMissing(prefix, s) ::
              Meaning(prefix, s) == BadCharacter(s[i])
  {
    if !PrefixMissing(prefix, s) {
      var off := if prefix != NO_PREFIX && s != "" then 1 else 0;
      var body := Body(prefix, s);
      assert body == s[off..];
      var k := FirstSpace(body);
      var bad := FirstBad(body[..k]);
      if bad < k {
        FoundOffends(prefix, s, off, k, bad);
      }
      forall i: nat | Offends(prefix, s, i) ensures Meaning(prefix, s) == BadCharacter(s[i]) {
        BadAt(prefix, s, off, i);
      }
    }
  }

  lemma FoundOffends(prefix: char, s: string, off: nat, k: nat, bad: nat)
    requires off == (if prefix != NO_PREFIX && s != "" then 1 else 0)
    requires k <= |s[off..]| && (forall i | 0 <= i < k :: s[off..][i] != ' ')
    requires bad < k && !Allowed(s[off..][..k][bad])
    requires forall i | 0 <= i < bad :: Allowed(s[off..][..k][i])
    ensures Offends(prefix, s, off + bad)
  {
    assert s[off..][bad] == s[off + bad];
    forall j | off <= j < off + bad ensures Allowed(s[j]) {
      assert s[off..][..k][j - off] == s[j];
    }
  }

  // --- How far the escape counter goes ---------------------------------------------------

  predicate InArguments(prefix: char, s: string, i: nat)
    requires i <= |s|
  {
    var off := if prefix == NO_PREFIX then 0 else 1;
    off <= i && ' ' in s[off..i]
  }

  /** The escape counter before character `i`, in unbounded numbers. */
  function Counter(prefix: char, s: string, i: nat): int
    requires i <= |s|
  {
    if i == 0 then 0
    else
      var c := Counter(prefix, s, i - 1);
      if InArguments(prefix, s, i - 1) && s[i - 1] == '\\' && c <= 0 then 1 else c - 1
  }

  /** The first `n` characters are read without an error. */
  predicate Runs(prefix: char, s: string, n: nat)
    requires n <= |s|
  {
    (n > 0 ==> !PrefixMissing(prefix, s)) && forall j | 0 <= j < n :: !Offends(prefix, s, j)
  }

  /** As far as the text is read, the counter stays an `int`; beyond that C++ defines nothing. */
  predicate CounterFits(prefix: char, s: string) {
    forall i | 0 <= i <= |s| && Runs(prefix, s, i) :: Counter(prefix, s, i) >= -0x8000_0000
  }

  lemma {:induction false} CounterRange(prefix: char, s: string, i: nat)
    requires i <= |s|
    ensures -(i as int) <= Counter(prefix, s, i) <= 1
    ensures '\\' !in s ==> Counter(prefix, s, i) == -(i as int)
  {
    if i > 0 {
      CounterRange(prefix, s, i - 1);
    }
  }

  /** Up to 2^31 characters it always fits; without a backslash and an error, only up to there. */
  lemma CounterFitsIff(prefix: char, s: string)
    ensures |s| <= 0x8000_0000 ==> CounterFits(prefix, s)
    ensures '\\' !in s && Runs(prefix, s, |s|) ==> (CounterFits(prefix, s) <==> |s| <= 0x8000_0000)
  {
    hide Runs;
    forall i | 0 <= i <= |s| ensures Counter(prefix, s, i) >= -(i as int) {
      CounterRange(prefix, s, i);
    }
    CounterRange(prefix, s, |s|);
  }

  // --- The automaton that splits arguments ---------------------------------------------------

  /** The state of the splitter with its escape counter read as a flag. */
  datatype Scan = Scan(escaped: bool, quote: Quote, arguments: seq<string>, token: string)

  const SCAN_START: Scan := Scan(false, Unquoted, [], "")

  function ScanChar(s: Scan, x: char): Scan {
    if s.escaped then s.(escaped := false, token := s.token + [x])
    else if x == '\\' then s.(escaped := true)
    else match EffectOf(s.quote, x)
      case Turn(next) => s.(quote := next)
      case Literal => s.(token := s.token + [x])
      case Break => s.(arguments := s.arguments + [s.token], token := "")
      case Nothing => s
  }

  function ScanAll(s: Scan, t: string): Scan
    decreases |t|
  {
    if t == "" then s else ScanAll(ScanChar(s, t[0]), t[1..])
  }

  lemma ScanFirst(s: Scan, t: string)
    requires t != ""
    ensures ScanAll(s, t) == ScanAll(ScanChar(s, t[0]), t[1..])
  {
  }

  lemma ScanNothing(s: Scan, t: string)
    requires t == ""
    ensures ScanAll(s, t) == s
  {
  }

  lemma {:induction false} ScanAppend(s: Scan, t: string, u: string)
    ensures ScanAll(s, t + u) == ScanAll(ScanAll(s, t), u)
    decreases |t|
  {
    hide ScanChar;
    if t == "" {
      assert t + u == u;
    } else {
      assert (t + u)[0] == t[0] && (t + u)[1..] == t[1..] + u;
      ScanAppend(ScanChar(s, t[0]), t[1..], u);
    }
  }

  /** After any number of characters the automaton knows what the positions say. */
  lemma {:induction false} ScanIsPositional(t: string, i: nat)
    requires i <= |t|
    ensures ScanAll(SCAN_START, t[..i])
         == Scan(Escaped(t, i), QuoteAt(t, i), Pieces(t, i), TextOf(t, AfterBreak(t, i), i))
  {
    if i > 0 {
      ScanIsPositional(t, i - 1);
      assert t[..i] == t[..i - 1] + [t[i - 1]];
      ScanAppend(SCAN_START, t[..i - 1], [t[i - 1]]);
      ScanLast(ScanAll(SCAN_START, t[..i - 1]), t[i - 1]);
    }
  }

  lemma ScanLast(s: Scan, x: char)
    ensures ScanAll(s, [x]) == ScanChar(s, x)
  {
    assert ScanAll(ScanChar(s, x), [x][1..]) == ScanChar(s, x);
  }

  function Finished(s: Scan): seq<string> {
    s.arguments + (if s.token == "" then [] else [s.token])
  }

  lemma ScanFindsArguments(t: string)
    ensures Finished(ScanAll(SCAN_START, t)) == Arguments(t)
  {
    ScanIsPositional(t, |t|);
    assert t[..|t|] == t;
  }

  // --- The program -----------------------------------------------------------------------------

  datatype State = Start | CommandWord | Argument

  function QuoteOf(isQuoted: bool, isDquote: bool): Quote {
    if !isQuoted then Unquoted else if isDquote then Double else Single
  }

  predicate AllAllowed(s: string) {
    forall i | 0 <= i < |s| :: Allowed(s[i])
  }

  class CommandParser {
    const prefix: char

    constructor (prefix: char)
      ensures this.prefix == prefix
    {
      this.prefix := prefix;
    }

    /** One character of the arguments; the counter is still to go down by one. */
    method ReadArgument(x: char, escape: int32, quoted: bool, dquote: bool, before: seq<string>, text: string)
      returns (doEscape: int32, isQuoted: bool, isDquote: bool, arguments: seq<string>, token: string)
      requires escape <= 1
      ensures doEscape == if escape <= 0 && x == '\\' then 2 else escape
      ensures Scan(doEscape > 1, QuoteOf(isQuoted, isDquote), arguments, token)
           == ScanChar(Scan(escape > 0, QuoteOf(quoted, dquote), before, text), x)
    {
      doEscape, isQuoted, isDquote, arguments, token := escape, quoted, dquote, before, text;
      if doEscape > 0 {
        token := token + [x];
      } else if x == '\\' {
        doEscape := 2;
      } else if x == '\'' {
        if isQuoted && !isDquote {
          isQuoted := false;
        } else if !isQuoted {
          isQuoted := true;
          isDquote := false;
        } else {
          token := token + [x];
        }
      } else if x == '"' {
        if isQuoted && isDquote {
          isQuoted := false;
        } else if !isQuoted {
          isQuoted := true;
          isDquote := true;
        } else {
          token := token + [x];
        }
      } else if isQuoted {
        token := token + [x];
      } else if x == '\r' {
      } else if x == ' ' || x == '\n' {
        arguments := arguments + [token];
        token := "";
      } else {
        token := token + [x];
      }
    }

    /**
      One pass over the text.  The escape counter goes down with every character,
      also before the arguments, and only a backslash among them brings it back up.
     */
    method Parse(command: string) returns (r: Result)
      requires CounterFits(prefix, command)
      ensures r == Meaning(prefix, command)
      ensures r.MissingPrefix? <==> PrefixMissing(prefix, command)
      ensures r.MissingPrefix? ==> r.found == command[0]
      ensures r.BadCharacter? <==> !PrefixMissing(prefix, command) && exists i: nat :: Offends(prefix, command, i)
      ensures r.BadCharacter? ==> forall i: nat | Offends(prefix, command, i) :: r.found == command[i]
    {
      ThrowsIff(prefix, command);
      NothingRead(prefix, command);
      hide ScanChar, ScanAll, Meaning, WordRead, Upto, ArgumentsLeft, Offends, Counter, CounterFits;
      var doEscape: int32 := 0;
      var isQuoted, isDquote := false, false;
      var state := if prefix == NO_PREFIX then CommandWord else Start;
      var token, name := "", "";
      var arguments: seq<string> := [];
      ghost var off := if prefix == NO_PREFIX then 0 else 1;
      ghost var k := 0;

      for i := 0 to |command|
        invariant doEscape as int == Counter(prefix, command, i) && doEscape <= 1
        invariant state == Start ==> i == 0 && off == 1 && token == ""
        invariant state != Start ==> off <= k <= i && Upto(prefix, command, off, k, i)
        invariant state == CommandWord ==> k == i && token == WordRead(command, off, k)
        invariant state != Argument ==> doEscape <= 0 && !isQuoted && name == "" && arguments == []
        invariant state == Argument ==> k < i && name == WordRead(command, off, k)
        invariant state == Argument ==>
                    ArgumentsLeft(command, k, i, Scan(doEscape > 0, QuoteOf(isQuoted, isDquote), arguments, token))
      {
        var x := command[i];
        CounterNext(prefix, command, off, if state == Argument then k else i, i);
        if state == Start {
          if x == prefix {
            PrefixRead(prefix, command);
            state := CommandWord;
            k := 1;
          } else {
            MissingAt(prefix, command);
            return MissingPrefix(x);
          }
        } else if state == CommandWord {
          WordGoesOn(prefix, command, off, i);
          if IsCommandCharacter(x) {
            token := token + [x];
            k := i + 1;
          } else if x == ' ' {
            name := token;
            token := "";
            state := Argument;
          } else if x == '\r' || x == '\n' {
            k := i + 1;
          } else {
            return BadCharacter(x);
          }
        } else {
          ArgumentsGoOn(prefix, command, off, k, i,
                        Scan(doEscape > 0, QuoteOf(isQuoted, isDquote), arguments, token));
          doEscape, isQuoted, isDquote, arguments, token :=
            ReadArgument(x, doEscape, isQuoted, isDquote, arguments, token);
        }
        doEscape := doEscape - 1;
      }

      if state == Start {
        NothingMeans(prefix, command);
      } else {
        ReadToTheEnd(prefix, command, off, k, Scan(doEscape > 0, QuoteOf(isQuoted, isDquote), arguments, token));
      }
      if token != "" {
        if state == CommandWord {
          name := token;
        } else if state == Argument {
          arguments := arguments + [token];
        }
      }
      r := Parsed(Command(name, arguments));
    }
  }

  // --- What the loop needs to know about the meaning --------------------------------------------

  predicate Offset(prefix: char, s: string, off: nat) {
    off == (if prefix == NO_PREFIX then 0 else 1) && off <= |s| && !PrefixMissing(prefix, s)
  }

  /** Without an error, `i` characters have been read; the command word ends at `k`. */
  predicate Upto(prefix: char, s: string, off: nat, k: nat, i: nat) {
    && Offset(prefix, s, off)
    && off <= k <= i <= |s|
    && AllAllowed(s[off..k])
    && (k < i ==> s[k] == ' ')
  }

  function WordRead(s: string, off: nat, k: nat): string
    requires off <= k <= |s|
  {
    WithoutLineEnds(s[off..k])
  }

  /** The splitter in the middle of the arguments. */
  predicate ArgumentsLeft(s: string, k: nat, i: nat, scan: Scan)
    requires k < i <= |s|
  {
    ScanAll(scan, s[i..]) == ScanAll(SCAN_START, s[k + 1..])
  }

  lemma NothingRead(prefix: char, s: string)
    ensures Counter(prefix, s, 0) == 0
    ensures prefix == NO_PREFIX ==> Upto(prefix, s, 0, 0, 0)
    ensures WordRead(s, 0, 0) == ""
  {
  }

  lemma PrefixRead(prefix: char, s: string)
    requires prefix != NO_PREFIX && s != "" && s[0] == prefix
    ensures Upto(prefix, s, 1, 1, 1) && WordRead(s, 1, 1) == ""
  {
  }

  /** One more character behind the prefix and before the first space. */
  lemma WordGoesOn(prefix: char, s: string, off: nat, i: nat)
    requires i < |s| && Upto(prefix, s, off, i, i)
    ensures s[i] == ' ' ==> Upto(prefix, s, off, i, i + 1) && ArgumentsLeft(s, i, i + 1, SCAN_START)
    ensures Allowed(s[i]) ==>
              && Upto(prefix, s, off, i + 1, i + 1)
              && WordRead(s, off, i + 1)
                 == WordRead(s, off, i) + (if IsCommandCharacter(s[i]) then [s[i]] else "")
    ensures s[i] != ' ' && !Allowed(s[i]) ==> Meaning(prefix, s) == BadCharacter(s[i])
  {
    hide Meaning;
    assert s[off..i + 1] == s[off..i] + [s[i]];
    if s[i] != ' ' && !Allowed(s[i]) {
      BadAt(prefix, s, off, i);
    }
  }

  lemma ArgumentsGoOn(prefix: char, s: string, off: nat, k: nat, i: nat, scan: Scan)
    requires k < i < |s| && Upto(prefix, s, off, k, i) && ArgumentsLeft(s, k, i, scan)
    ensures Upto(prefix, s, off, k, i + 1) && ArgumentsLeft(s, k, i + 1, ScanChar(scan, s[i]))
  {
    hide ScanChar;
    ScanFirst(scan, s[i..]);
    assert s[i..][1..] == s[i + 1..];
  }

  lemma ReadToTheEnd(prefix: char, s: string, off: nat, k: nat, scan: Scan)
    requires Upto(prefix, s, off, k, |s|)
    requires k < |s| ==> ArgumentsLeft(s, k, |s|, scan)
    ensures Meaning(prefix, s)
         == Parsed(Command(WordRead(s, off, k), if k < |s| then Finished(scan) else []))
  {
    hide Meaning, ScanAll, WithoutLineEnds;
    if k < |s| {
      EndsInArguments(prefix, s, off, k);
      ScanNothing(scan, s[|s|..]);
    } else {
      assert s[off..|s|] == s[off..];
      EndsInWord(prefix, s, off);
    }
  }

  /** So far no character was wrong, and the arguments have begun if the word has ended. */
  lemma ReadSoFar(prefix: char, s: string, off: nat, k: nat, n: nat)
    requires Upto(prefix, s, off, k, n)
    ensures Runs(prefix, s, n)
    ensures InArguments(prefix, s, n) <==> k < n
  {
    assert forall j | off <= j < k :: s[j] == s[off..k][j - off];
    assert forall j | off <= j < k :: Allowed(s[j]);
    assert k < n ==> s[off..n][k - off] == ' ';
    assert forall j | off <= j < n :: s[off..n][j - off] == s[j];
  }

  /** How the counter takes one more character, and that it fits unless that character is wrong. */
  lemma CounterNext(prefix: char, s: string, off: nat, k: nat, i: nat)
    requires off == (if prefix == NO_PREFIX then 0 else 1) && k <= i < |s|
    requires i < off || Upto(prefix, s, off, k, i)
    ensures Counter(prefix, s, i + 1)
         == if k < i && s[i] == '\\' && Counter(prefix, s, i) <= 0 && off <= i then 1 else Counter(prefix, s, i) - 1
    ensures CounterFits(prefix, s) && (if i < off then s[0] == prefix else k < i || s[i] == ' ' || Allowed(s[i])) ==>
              Counter(prefix, s, i + 1) >= -0x8000_0000
  {
    hide Counter, InArguments, Runs, Meaning;
    CounterUnfolds(prefix, s, i);
    if off <= i {
      ReadSoFar(prefix, s, off, k, i);
      if k == i {
        WordGoesOn(prefix, s, off, i);
        if s[i] == ' ' {
          ReadSoFar(prefix, s, off, k, i + 1);
        } else if Allowed(s[i]) {
          ReadSoFar(prefix, s, off, i + 1, i + 1);
        }
      } else {
        ReadSoFar(prefix, s, off, k, i + 1);
      }
    } else {
      assert !InArguments(prefix, s, 0) by { NoArgumentsYet(prefix, s); }
      if s[0] == prefix {
        PrefixRead(prefix, s);
        ReadSoFar(prefix, s, 1, 1, 1);
      }
    }
  }

  lemma NoArgumentsYet(prefix: char, s: string)
    ensures !InArguments(prefix, s, 0)
  {
  }

  lemma CounterUnfolds(prefix: char, s: string, i: nat)
    requires i < |s|
    ensures Counter(prefix, s, i + 1)
         == if InArguments(prefix, s, i) && s[i] == '\\' && Counter(prefix, s, i) <= 0
            then 1 else Counter(prefix, s, i) - 1
  {
  }

  lemma SpaceAt(body: string, k: nat)
    requires k <= |body| && AllAllowed(body[..k]) && (k < |body| ==> body[k] == ' ')
    ensures FirstSpace(body) == k && FirstBad(body[..k]) == k
  {
    forall j | 0 <= j < k ensures body[j] != ' ' {
      assert Allowed(body[..k][j]);
    }
  }

  lemma MissingAt(prefix: char, s: string)
    requires PrefixMissing(prefix, s)
    ensures Meaning(prefix, s) == MissingPrefix(s[0])
  {
  }

  lemma NothingMeans(prefix: char, s: string)
    requires s == ""
    ensures Meaning(prefix, s) == Parsed(Command("", []))
  {
    assert Pieces("", 0) == [] && TextOf("", 0, 0) == "";
  }

  lemma BadAt(prefix: char, s: string, off: nat, i: nat)
    requires Offset(prefix, s, off) && off <= i < |s|
    requires AllAllowed(s[off..i]) && !Allowed(s[i]) && s[i] != ' '
    ensures Meaning(prefix, s) == BadCharacter(s[i])
  {
    var body := Body(prefix, s);
    assert body == s[off..];
    var k, n := FirstSpace(body), i - off;
    assert forall j | 0 <= j < n :: Allowed(body[j]) by {
      forall j | 0 <= j < n ensures Allowed(body[j]) { assert body[j] == s[off..i][j]; }
    }
    assert k > n;
    assert !Allowed(body[..k][n]);
    assert FirstBad(body[..k]) == n;
  }

  lemma EndsInWord(prefix: char, s: string, off: nat)
    requires Offset(prefix, s, off) && AllAllowed(s[off..])
    ensures Meaning(prefix, s) == Parsed(Command(WithoutLineEnds(s[off..]), []))
  {
    var body := Body(prefix, s);
    assert body == s[off..] && body[..|body|] == body;
    SpaceAt(body, |body|);
  }

  lemma EndsInArguments(prefix: char, s: string, off: nat, k: nat)
    requires Offset(prefix, s, off) && off <= k < |s|
    requires s[k] == ' ' && AllAllowed(s[off..k])
    ensures Meaning(prefix, s)
         == Parsed(Command(WithoutLineEnds(s[off..k]), Finished(ScanAll(SCAN_START, s[k + 1..]))))
  {
    var body := Body(prefix, s);
    assert body == s[off..] && body[..k - off] == s[off..k] && body[k - off + 1..] == s[k + 1..];
    SpaceAt(body, k - off);
    ScanFindsArguments(s[k + 1..]);
  }
}
