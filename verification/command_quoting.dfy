/** Every argument list can be written down, in three ways, and is read back. */
module CommandQuoting {
  import opened CommandParsing

  datatype Style = Escapes | SingleQuotes | DoubleQuotes

  datatype Styled = Styled(style: Style, text: string)

  /** A backslash before every character. */
  function Backslashed(a: string): string {
    if a == "" then "" else ['\\', a[0]] + Backslashed(a[1..])
  }

  function GuardOne(x: char, mark: char): string {
    if x == mark || x == '\\' then ['\\', x] else [x]
  }

  /** A backslash before every `mark` and every backslash. */
  function Guarded(a: string, mark: char): string {
    if a == "" then ""
    else GuardOne(a[0], mark) + Guarded(a[1..], mark)
  }

  function Encode(style: Style, a: string): string {
    match style
    case Escapes => Backslashed(a)
    case SingleQuotes => ['\''] + (Guarded(a, '\'') + ['\''])
    case DoubleQuotes => ['"'] + (Guarded(a, '"') + ['"'])
  }

  function EncodeAll(args: seq<Styled>): string {
    if args == [] then "" else Encode(args[0].style, args[0].text) + ([' '] + EncodeAll(args[1..]))
  }

  function PlainTexts(args: seq<Styled>): seq<string> {
    if args == [] then [] else [args[0].text] + PlainTexts(args[1..])
  }

  function CommandLine(prefix: char, name: string, args: seq<Styled>): string {
    (if prefix == NO_PREFIX then "" else [prefix]) + (name + ([' '] + EncodeAll(args)))
  }

  // --- Reading the encodings back -----------------------------------------------------

  lemma ScanTwo(s: Scan, x: char, y: char, more: string)
    ensures ScanAll(s, [x, y] + more) == ScanAll(ScanChar(ScanChar(s, x), y), more)
  {
    hide ScanChar;
    assert [x, y] + more == [x] + ([y] + more);
    ScanOne(s, x, [y] + more);
    ScanOne(ScanChar(s, x), y, more);
  }

  lemma ScanOne(s: Scan, x: char, more: string)
    ensures ScanAll(s, [x] + more) == ScanAll(ScanChar(s, x), more)
  {
    hide ScanChar;
    assert ([x] + more)[1..] == more;
  }

  lemma {:induction false} ReadBackslashed(s: Scan, a: string)
    requires !s.escaped
    ensures ScanAll(s, Backslashed(a)) == s.(token := s.token + a)
    decreases |a|
  {
    if a == "" {
      assert s.token + a == s.token;
    } else {
      var next := s.(token := s.token + [a[0]]);
      ScanTwo(s, '\\', a[0], Backslashed(a[1..]));
      ReadBackslashed(next, a[1..]);
      assert next.token + a[1..] == s.token + a;
    }
  }

  predicate Inside(s: Scan, mark: char) {
    !s.escaped && ((mark == '\'' && s.quote == Single) || (mark == '"' && s.quote == Double))
  }

  /** Inside a quotation a guarded character is read as that character. */
  lemma ReadGuardedOne(s: Scan, x: char, mark: char, more: string)
    requires Inside(s, mark)
    ensures ScanAll(s, GuardOne(x, mark) + more) == ScanAll(s.(token := s.token + [x]), more)
  {
    hide ScanAll;
    if x == mark || x == '\\' {
      ScanTwo(s, '\\', x, more);
    } else {
      ScanOne(s, x, more);
    }
  }

  lemma {:induction false} ReadGuarded(s: Scan, a: string, mark: char, more: string)
    requires Inside(s, mark)
    ensures ScanAll(s, Guarded(a, mark) + more) == ScanAll(s.(token := s.token + a), more)
    decreases |a|
  {
    hide ScanAll, GuardOne;
    if a == "" {
      assert s.token + a == s.token && Guarded(a, mark) + more == more;
    } else {
      var next := s.(token := s.token + [a[0]]);
      var rest := Guarded(a[1..], mark) + more;
      assert Guarded(a, mark) + more == GuardOne(a[0], mark) + rest;
      ReadGuardedOne(s, a[0], mark, rest);
      ReadGuarded(next, a[1..], mark, more);
      assert next.token + a[1..] == s.token + a;
    }
  }

  /** Whatever the style, the text of the argument is appended and no quotation stays open. */
  lemma ReadEncoded(s: Scan, style: Style, a: string)
    requires !s.escaped && s.quote == Unquoted
    ensures ScanAll(s, Encode(style, a)) == s.(token := s.token + a)
  {
    if style == Escapes {
      ReadBackslashed(s, a);
    } else {
      var mark, inner := if style == SingleQuotes then '\'' else '"', if style == SingleQuotes then Single else Double;
      ScanOne(s, mark, Guarded(a, mark) + [mark]);
      ReadGuarded(s.(quote := inner), a, mark, [mark]);
      ScanLast(s.(quote := inner, token := s.token + a), mark);
    }
  }

  /** An encoded argument and its space make one argument. */
  lemma ReadArgument(s: Scan, style: Style, a: string, more: string)
    requires !s.escaped && s.quote == Unquoted && s.token == ""
    ensures ScanAll(s, Encode(style, a) + ([' '] + more))
         == ScanAll(s.(arguments := s.arguments + [a]), more)
  {
    hide ScanAll, Encode;
    ScanAppend(s, Encode(style, a), [' '] + more);
    ReadEncoded(s, style, a);
    assert "" + a == a;
    ScanOne(s.(token := a), ' ', more);
  }

  lemma {:induction false} ReadEncodedAll(s: Scan, args: seq<Styled>)
    requires !s.escaped && s.quote == Unquoted && s.token == ""
    ensures ScanAll(s, EncodeAll(args)) == s.(arguments := s.arguments + PlainTexts(args))
    decreases |args|
  {
    hide ScanAll, ScanChar, Encode;
    if args == [] {
      ScanNothing(s, EncodeAll(args));
      assert s.arguments + [] == s.arguments;
    } else {
      var text, rest := args[0].text, PlainTexts(args[1..]);
      ReadArgument(s, args[0].style, text, EncodeAll(args[1..]));
      ReadEncodedAll(s.(arguments := s.arguments + [text]), args[1..]);
      assert (s.arguments + [text]) + rest == s.arguments + ([text] + rest);
    }
  }

  lemma {:induction false} NoLineEnds(name: string)
    requires forall i | 0 <= i < |name| :: IsCommandCharacter(name[i])
    ensures WithoutLineEnds(name) == name
  {
    if name != "" {
      NoLineEnds(name[..|name| - 1]);
      assert name == name[..|name| - 1] + [name[|name| - 1]];
    }
  }

  lemma CommandLineParts(prefix: char, name: string, args: seq<Styled>)
    ensures var s := CommandLine(prefix, name, args);
            var off := if prefix == NO_PREFIX then 0 else 1;
            var k := off + |name|;
            && k < |s| && !PrefixMissing(prefix, s)
            && s[off..k] == name && s[k] == ' ' && s[k + 1..] == EncodeAll(args)
  {
    hide EncodeAll;
  }

  /**
    Every argument vector is expressible: any texts, empty ones included, each in
    any of the three styles, come back exactly, behind any command word.
   */
  lemma EveryArgumentListIsExpressible(prefix: char, name: string, args: seq<Styled>)
    requires forall i | 0 <= i < |name| :: IsCommandCharacter(name[i])
    ensures Meaning(prefix, CommandLine(prefix, name, args)) == Parsed(Command(name, PlainTexts(args)))
  {
    hide Meaning, EncodeAll, ScanAll, WithoutLineEnds;
    var s := CommandLine(prefix, name, args);
    var off := if prefix == NO_PREFIX then 0 else 1;
    var k := off + |name|;
    CommandLineParts(prefix, name, args);
    EndsInArguments(prefix, s, off, k);
    NoLineEnds(name);
    ReadEncodedAll(SCAN_START, args);
    assert [] + PlainTexts(args) == PlainTexts(args);
    assert PlainTexts(args) + [] == PlainTexts(args);
  }

  /** The same with one more argument at the end of the line and no space behind it. */
  lemma LastArgumentIsRead(prefix: char, name: string, args: seq<Styled>, style: Style, a: string)
    requires forall i | 0 <= i < |name| :: IsCommandCharacter(name[i])
    ensures Meaning(prefix, CommandLine(prefix, name, args) + Encode(style, a))
         == Parsed(Command(name, PlainTexts(args) + (if a == "" then [] else [a])))
  {
    hide Meaning, EncodeAll, Encode, ScanAll, WithoutLineEnds;
    var line, last := CommandLine(prefix, name, args), Encode(style, a);
    var off := if prefix == NO_PREFIX then 0 else 1;
    var k := off + |name|;
    CommandLineParts(prefix, name, args);
    assert (line + last)[off..k] == name && (line + last)[k] == ' ';
    assert (line + last)[k + 1..] == EncodeAll(args) + last;
    EndsInArguments(prefix, line + last, off, k);
    NoLineEnds(name);
    ScanAppend(SCAN_START, EncodeAll(args), last);
    ReadEncodedAll(SCAN_START, args);
    assert [] + PlainTexts(args) == PlainTexts(args);
    ReadEncoded(SCAN_START.(arguments := PlainTexts(args)), style, a);
    assert "" + a == a;
  }

  /** A command word with nothing behind it has no arguments. */
  lemma WordAloneIsRead(prefix: char, name: string)
    requires forall i | 0 <= i < |name| :: IsCommandCharacter(name[i])
    ensures Meaning(prefix, (if prefix == NO_PREFIX then "" else [prefix]) + name) == Parsed(Command(name, []))
  {
    hide Meaning, WithoutLineEnds;
    var s := (if prefix == NO_PREFIX then "" else [prefix]) + name;
    var off := if prefix == NO_PREFIX then 0 else 1;
    assert s[off..] == name;
    NoLineEnds(name);
    EndsInWord(prefix, s, off);
  }

  function Quoted(args: seq<string>): seq<Styled> {
    if args == [] then [] else [Styled(DoubleQuotes, args[0])] + Quoted(args[1..])
  }

  lemma {:induction false} QuotedTexts(args: seq<string>)
    ensures PlainTexts(Quoted(args)) == args
  {
    if args != [] {
      QuotedTexts(args[1..]);
      assert Quoted(args)[1..] == Quoted(args[1..]);
    }
  }

  lemma {:induction false} WordOfAllowed(s: string)
    requires AllAllowed(s)
    ensures forall i | 0 <= i < |WithoutLineEnds(s)| :: IsCommandCharacter(WithoutLineEnds(s)[i])
  {
    if s != "" {
      WordOfAllowed(s[..|s| - 1]);
    }
  }

  /** Whatever is parsed can be written in one canonical form that parses to the same. */
  lemma CanonicalForm(prefix: char, s: string)
    requires Meaning(prefix, s).Parsed?
    ensures var cmd := Meaning(prefix, s).cmd;
            Meaning(prefix, CommandLine(prefix, cmd.command, Quoted(cmd.arguments))) == Parsed(cmd)
  {
    var body := Body(prefix, s);
    var word := body[..FirstSpace(body)];
    assert forall i | 0 <= i < |word| :: Allowed(word[i]);
    WordOfAllowed(word);
    var cmd := Meaning(prefix, s).cmd;
    EveryArgumentListIsExpressible(prefix, cmd.command, Quoted(cmd.arguments));
    QuotedTexts(cmd.arguments);
  }

  // --- Words that need no encoding, exactly ----------------------------------------------

  predicate Special(x: char) {
    x in {'\\', '\'', '"', '\r', ' ', '\n'}
  }

  predicate Bare(a: string) {
    forall i | 0 <= i < |a| :: !Special(a[i])
  }

  lemma {:induction false} ReadBare(s: Scan, a: string)
    requires !s.escaped && s.quote == Unquoted && Bare(a)
    ensures ScanAll(s, a) == s.(token := s.token + a)
    decreases |a|
  {
    if a == "" {
      assert s.token + a == s.token;
    } else {
      var next := s.(token := s.token + [a[0]]);
      ReadBare(next, a[1..]);
      assert next.token + a[1..] == s.token + a;
    }
  }

  /** Without arguments finished, each character adds at most itself to the token. */
  lemma {:induction false} TokenGrowth(s: Scan, t: string)
    ensures var r := ScanAll(s, t);
            && s.arguments <= r.arguments
            && (r.arguments == s.arguments ==>
                  && |r.token| <= |s.token| + |t|
                  && (|r.token| == |s.token| + |t| ==> r.token == s.token + t))
            && (|r.arguments| > |s.arguments| ==> s.token <= r.arguments[|s.arguments|])
            && (|r.arguments| == |s.arguments| + 1 ==>
                  |r.arguments[|s.arguments|]| + |r.token| < |s.token| + |t|)
            && (r.arguments == s.arguments ==> s.token <= r.token)
    decreases |t|
  {
    if t == "" {
      assert s.token + t == s.token;
    } else {
      var next := ScanChar(s, t[0]);
      TokenGrowth(next, t[1..]);
      assert [t[0]] + t[1..] == t;
      assert (s.token + [t[0]]) + t[1..] == s.token + t;
      if next.arguments != s.arguments {
        TokenLength(next, t[1..]);
      }
    }
  }

  lemma {:induction false} TokenLength(s: Scan, t: string)
    ensures ScanAll(s, t).arguments == s.arguments ==> |ScanAll(s, t).token| <= |s.token| + |t|
    decreases |t|
  {
    if t != "" {
      TokenLength(ScanChar(s, t[0]), t[1..]);
      ArgumentsGrow(ScanChar(s, t[0]), t[1..]);
    }
  }

  lemma {:induction false} ArgumentsGrow(s: Scan, t: string)
    ensures s.arguments <= ScanAll(s, t).arguments
    decreases |t|
  {
    if t != "" {
      ArgumentsGrow(ScanChar(s, t[0]), t[1..]);
    }
  }

  lemma {:induction false} ShiftedSpaces(x: char, v: string)
    requires v + [' '] == [x] + v
    ensures x == ' '
  {
    if v != "" {
      assert (v + [' '])[0] == ([x] + v)[0];
      assert (v + [' '])[1..] == v[1..] + [' '] && ([x] + v)[1..] == v;
      assert v == [x] + v[1..];
      ShiftedSpaces(x, v[1..]);
    } else {
      assert (v + [' '])[0] == ' ' && ([x] + v)[0] == x;
    }
  }

  lemma OneArgument(s: Scan, a: string)
    requires s.arguments != [] && Finished(s) == [a]
    ensures s.arguments == [a] && s.token == ""
  {
    assert s.arguments[0] == Finished(s)[0];
  }

  /** The first special character of a word shows in what is read. */
  lemma SpecialShows(w: string, x: char, v: string)
    requires Bare(w) && Special(x)
    ensures Finished(ScanAll(SCAN_START, w + ([x] + (v + [' '])))) != [w + ([x] + v)]
  {
    var a, t := w + ([x] + v), v + [' '];
    var s1 := SCAN_START.(token := w);
    var s2 := ScanChar(s1, x);
    ScanAppend(SCAN_START, w, [x] + t);
    ReadBare(SCAN_START, w);
    assert "" + w == w;
    ScanOne(s1, x, t);
    TokenGrowth(s2, t);
    var r := ScanAll(s2, t);
    if x == ' ' || x == '\n' {
      assert r.arguments[0] == w && Finished(r)[0] == w;
    } else if Finished(r) == [a] {
      assert s2.arguments == [] && s2.token == w;
      if r.arguments == [] {
        assert r.token == [a][0];
        assert (w + t)[|w|..] == t && a[|w|..] == [x] + v;
        ShiftedSpaces(x, v);
      } else {
        OneArgument(r, a);
      }
    }
  }

  lemma BareIsRead(a: string)
    requires Bare(a)
    ensures Finished(ScanAll(SCAN_START, a + [' '])) == [a]
  {
    hide ScanAll;
    ScanAppend(SCAN_START, a, [' ']);
    ReadBare(SCAN_START, a);
    assert "" + a == a;
    ScanLast(SCAN_START.(token := a), ' ');
  }

  lemma SplitAt(a: string, p: nat)
    requires p < |a|
    ensures a == a[..p] + ([a[p]] + a[p + 1..])
    ensures a + [' '] == a[..p] + ([a[p]] + (a[p + 1..] + [' ']))
  {
  }

  /** A word followed by a space reads as itself if and only if nothing in it is special. */
  lemma BareWordIff(a: string)
    ensures Arguments(a + [' ']) == [a] <==> Bare(a)
  {
    hide ScanAll, Arguments, Special, Finished;
    ScanFindsArguments(a + [' ']);
    if Bare(a) {
      BareIsRead(a);
    } else {
      FirstSpecial(a);
      var p :| 0 <= p < |a| && Special(a[p]) && Bare(a[..p]);
      SplitAt(a, p);
      SpecialShows(a[..p], a[p], a[p + 1..]);
    }
  }

  lemma {:induction false} FirstSpecial(a: string)
    requires !Bare(a)
    ensures exists p :: 0 <= p < |a| && Special(a[p]) && Bare(a[..p])
  {
    if Special(a[0]) {
      assert Bare(a[..0]);
    } else {
      FirstSpecial(a[1..]);
      var p :| 0 <= p < |a[1..]| && Special(a[1..][p]) && Bare(a[1..][..p]);
      assert a[..p + 1] == [a[0]] + a[1..][..p];
      assert Special(a[p + 1]);
    }
  }
}
