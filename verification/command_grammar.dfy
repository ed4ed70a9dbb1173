/**
  The texts that the command parser accepts as syntax trees, and what each means:
  a reference for the automaton that shares no definition with it.
 */
module CommandGrammar {
  import opened CommandParsing
  import opened CommandQuoting

  /** A character, with or without a backslash before it. */
  datatype Glyph = Glyph(escaped: bool, x: char)

  datatype Piece =
    | Plain(glyph: Glyph)
    | Quotation(mark: char, inside: seq<Glyph>)
    | CarriageReturn

  /** A word and the space or line feed that ends it. */
  datatype Ended = Ended(word: seq<Piece>, separator: char)

  /** Whether a quotation is still open at the end. */
  datatype Tail = Closed | Unclosed(mark: char, inside: seq<Glyph>)

  /** The arguments; `dangling` is a last backslash with nothing behind it. */
  datatype Line = Line(ended: seq<Ended>, last: seq<Piece>, tail: Tail, dangling: bool)

  datatype WordChar = Letter(x: char) | LineEnd(x: char)

  /** A command word alone, or with a space and arguments behind it. */
  datatype Phrase = Alone(word: seq<WordChar>) | WithArguments(word: seq<WordChar>, line: Line)

  // --- Texts --------------------------------------------------------------------------

  function GlyphText(g: Glyph): string {
    if g.escaped then ['\\', g.x] else [g.x]
  }

  function GlyphsText(gs: seq<Glyph>): string {
    if gs == [] then "" else GlyphsText(gs[..|gs| - 1]) + GlyphText(gs[|gs| - 1])
  }

  function PieceText(p: Piece): string {
    match p
    case Plain(g) => GlyphText(g)
    case Quotation(mark, inside) => ([mark] + GlyphsText(inside)) + [mark]
    case CarriageReturn => ['\r']
  }

  function WordText(ps: seq<Piece>): string {
    if ps == [] then "" else WordText(ps[..|ps| - 1]) + PieceText(ps[|ps| - 1])
  }

  function EndedText(es: seq<Ended>): string {
    if es == [] then ""
    else
      var e := es[|es| - 1];
      EndedText(es[..|es| - 1]) + (WordText(e.word) + [e.separator])
  }

  function TailText(t: Tail): string {
    match t case Closed => "" case Unclosed(mark, inside) => [mark] + GlyphsText(inside)
  }

  function LineText(l: Line): string {
    ((EndedText(l.ended) + WordText(l.last)) + TailText(l.tail)) + (if l.dangling then ['\\'] else [])
  }

  function LettersText(w: seq<WordChar>): string {
    if w == [] then "" else LettersText(w[..|w| - 1]) + [w[|w| - 1].x]
  }

  function PhraseText(prefix: char, p: Phrase): string {
    (if prefix == NO_PREFIX then "" else [prefix])
    + (LettersText(p.word) + (if p.Alone? then "" else [' '] + LineText(p.line)))
  }

  // --- Meanings -----------------------------------------------------------------------

  function GlyphsMean(gs: seq<Glyph>): string {
    if gs == [] then "" else GlyphsMean(gs[..|gs| - 1]) + [gs[|gs| - 1].x]
  }

  function PieceMeans(p: Piece): string {
    match p
    case Plain(g) => [g.x]
    case Quotation(_, inside) => GlyphsMean(inside)
    case CarriageReturn => ""
  }

  function WordMeans(ps: seq<Piece>): string {
    if ps == [] then "" else WordMeans(ps[..|ps| - 1]) + PieceMeans(ps[|ps| - 1])
  }

  function EndedMean(es: seq<Ended>): seq<string> {
    if es == [] then [] else EndedMean(es[..|es| - 1]) + [WordMeans(es[|es| - 1].word)]
  }

  /** The word that the end of the text cuts off. */
  function LastMeans(l: Line): string {
    WordMeans(l.last) + (match l.tail case Closed => "" case Unclosed(_, inside) => GlyphsMean(inside))
  }

  /** Every ended word is an argument, and the last one is if it is not empty. */
  function LineMeans(l: Line): seq<string> {
    EndedMean(l.ended) + (if LastMeans(l) == "" then [] else [LastMeans(l)])
  }

  function LettersMean(w: seq<WordChar>): string {
    if w == [] then ""
    else
      var x := w[|w| - 1];
      LettersMean(w[..|w| - 1]) + (if x.Letter? then [x.x] else "")
  }

  function PhraseMeans(p: Phrase): Command {
    Command(LettersMean(p.word), if p.Alone? then [] else LineMeans(p.line))
  }

  // --- Well-formed trees --------------------------------------------------------------------

  predicate InsideOk(mark: char, gs: seq<Glyph>) {
    && mark in {'\'', '"'}
    && forall i | 0 <= i < |gs| :: gs[i].escaped || gs[i].x !in {mark, '\\'}
  }

  predicate PieceOk(p: Piece) {
    match p
    case Plain(g) => g.escaped || g.x !in {'\\', '\'', '"', '\r', ' ', '\n'}
    case Quotation(mark, inside) => InsideOk(mark, inside)
    case CarriageReturn => true
  }

  predicate WordOk(ps: seq<Piece>) {
    forall i | 0 <= i < |ps| :: PieceOk(ps[i])
  }

  predicate LineOk(l: Line) {
    && (forall i | 0 <= i < |l.ended| :: WordOk(l.ended[i].word) && l.ended[i].separator in {' ', '\n'})
    && WordOk(l.last)
    && (l.tail.Unclosed? ==> InsideOk(l.tail.mark, l.tail.inside))
  }

  predicate LettersOk(w: seq<WordChar>) {
    forall i | 0 <= i < |w| ::
      match w[i]
      case Letter(x) => 'a' <= x <= 'z' || 'A' <= x <= 'Z' || '0' <= x <= '9' || x == '-'
      case LineEnd(x) => x in {'\r', '\n'}
  }

  predicate PhraseOk(p: Phrase) {
    LettersOk(p.word) && (p.WithArguments? ==> LineOk(p.line))
  }

  // --- The automaton reads them ------------------------------------------------------------

  function QuoteFor(mark: char): Quote {
    if mark == '\'' then Single else Double
  }

  lemma ReadGlyphInside(s: Scan, mark: char, g: Glyph)
    requires !s.escaped && mark in {'\'', '"'} && s.quote == QuoteFor(mark)
    requires g.escaped || g.x !in {mark, '\\'}
    ensures ScanAll(s, GlyphText(g)) == s.(token := s.token + [g.x])
  {
    ReadGlyph(s, g);
  }

  lemma ReadGlyph(s: Scan, g: Glyph)
    requires !s.escaped
    requires g.escaped || (g.x != '\\' && EffectOf(s.quote, g.x) == Literal)
    ensures ScanAll(s, GlyphText(g)) == s.(token := s.token + [g.x])
  {
    hide ScanAll;
    if g.escaped {
      assert ['\\', g.x] == ['\\', g.x] + "";
      ScanTwo(s, '\\', g.x, "");
      ScanNothing(s.(token := s.token + [g.x]), "");
    } else {
      ScanLast(s, g.x);
    }
  }

  lemma TextAssoc(a: string, b: string, c: string)
    ensures (a + b) + c == a + (b + c)
  {
  }

  lemma {:induction false} ReadGlyphs(s: Scan, mark: char, gs: seq<Glyph>)
    requires !s.escaped && s.quote == QuoteFor(mark) && InsideOk(mark, gs)
    ensures ScanAll(s, GlyphsText(gs)) == s.(token := s.token + GlyphsMean(gs))
    decreases |gs|
  {
    hide ScanAll, GlyphText;
    if gs == [] {
      ScanNothing(s, "");
      assert s.token + "" == s.token;
    } else {
      var before, g := gs[..|gs| - 1], gs[|gs| - 1];
      ReadGlyphs(s, mark, before);
      ScanAppend(s, GlyphsText(before), GlyphText(g));
      ReadGlyphInside(s.(token := s.token + GlyphsMean(before)), mark, g);
      TextAssoc(s.token, GlyphsMean(before), [g.x]);
    }
  }

  lemma ReadMark(s: Scan, mark: char)
    requires !s.escaped && mark in {'\'', '"'} && s.quote in {Unquoted, QuoteFor(mark)}
    ensures ScanAll(s, [mark]) == s.(quote := if s.quote == Unquoted then QuoteFor(mark) else Unquoted)
  {
    hide ScanAll;
    ScanLast(s, mark);
  }

  lemma ReadUnclosed(s: Scan, mark: char, inside: seq<Glyph>)
    requires !s.escaped && s.quote == Unquoted && InsideOk(mark, inside)
    ensures ScanAll(s, [mark] + GlyphsText(inside))
         == s.(quote := QuoteFor(mark), token := s.token + GlyphsMean(inside))
  {
    hide ScanAll;
    ReadMark(s, mark);
    ScanAppend(s, [mark], GlyphsText(inside));
    ReadGlyphs(s.(quote := QuoteFor(mark)), mark, inside);
  }

  lemma ReadPiece(s: Scan, p: Piece)
    requires !s.escaped && s.quote == Unquoted && PieceOk(p)
    ensures ScanAll(s, PieceText(p)) == s.(token := s.token + PieceMeans(p))
  {
    hide ScanAll;
    match p
    case Plain(g) => ReadGlyph(s, g);
    case Quotation(mark, inside) =>
      ReadUnclosed(s, mark, inside);
      ScanAppend(s, [mark] + GlyphsText(inside), [mark]);
      ReadMark(s.(quote := QuoteFor(mark), token := s.token + GlyphsMean(inside)), mark);
    case CarriageReturn =>
      ScanLast(s, '\r');
      assert s.token + "" == s.token;
  }

  lemma {:induction false} ReadWord(s: Scan, ps: seq<Piece>)
    requires !s.escaped && s.quote == Unquoted && WordOk(ps)
    ensures ScanAll(s, WordText(ps)) == s.(token := s.token + WordMeans(ps))
    decreases |ps|
  {
    hide ScanAll, PieceText, PieceMeans, PieceOk;
    if ps == [] {
      ScanNothing(s, "");
      assert s.token + "" == s.token;
    } else {
      var before, p := ps[..|ps| - 1], ps[|ps| - 1];
      ReadWord(s, before);
      ScanAppend(s, WordText(before), PieceText(p));
      ReadPiece(s.(token := s.token + WordMeans(before)), p);
      TextAssoc(s.token, WordMeans(before), PieceMeans(p));
    }
  }

  lemma ReadSeparator(s: Scan, x: char)
    requires !s.escaped && s.quote == Unquoted && x in {' ', '\n'}
    ensures ScanAll(s, [x]) == s.(arguments := s.arguments + [s.token], token := "")
  {
    hide ScanAll;
    ScanLast(s, x);
  }

  lemma {:induction false} ReadEnded(es: seq<Ended>)
    requires forall i | 0 <= i < |es| :: WordOk(es[i].word) && es[i].separator in {' ', '\n'}
    ensures ScanAll(SCAN_START, EndedText(es)) == SCAN_START.(arguments := EndedMean(es))
    decreases |es|
  {
    hide ScanAll, WordText, WordMeans, WordOk;
    if es == [] {
      ScanNothing(SCAN_START, "");
    } else {
      var before, e := es[..|es| - 1], es[|es| - 1];
      var s := SCAN_START.(arguments := EndedMean(before));
      ReadEnded(before);
      ScanAppend(SCAN_START, EndedText(before), WordText(e.word) + [e.separator]);
      ReadWord(s, e.word);
      ScanAppend(s, WordText(e.word), [e.separator]);
      assert "" + WordMeans(e.word) == WordMeans(e.word);
      ReadSeparator(s.(token := WordMeans(e.word)), e.separator);
    }
  }

  lemma ReadLastWord(l: Line)
    requires LineOk(l)
    ensures ScanAll(SCAN_START, EndedText(l.ended) + WordText(l.last))
         == SCAN_START.(arguments := EndedMean(l.ended), token := WordMeans(l.last))
  {
    hide ScanAll, WordText, WordMeans, WordOk;
    var s := SCAN_START.(arguments := EndedMean(l.ended));
    ReadEnded(l.ended);
    ScanAppend(SCAN_START, EndedText(l.ended), WordText(l.last));
    ReadWord(s, l.last);
    assert "" + WordMeans(l.last) == WordMeans(l.last);
  }

  lemma ReadTail(s: Scan, t: Tail)
    requires !s.escaped && s.quote == Unquoted && (t.Unclosed? ==> InsideOk(t.mark, t.inside))
    ensures var r := ScanAll(s, TailText(t));
            && r.arguments == s.arguments && !r.escaped
            && r.token == s.token + (match t case Closed => "" case Unclosed(_, inside) => GlyphsMean(inside))
  {
    hide ScanAll;
    match t
    case Closed =>
      ScanNothing(s, "");
      assert s.token + "" == s.token;
    case Unclosed(mark, inside) => ReadUnclosed(s, mark, inside);
  }

  lemma ReadLine(l: Line)
    requires LineOk(l)
    ensures ScanAll(SCAN_START, LineText(l)).arguments == EndedMean(l.ended)
    ensures ScanAll(SCAN_START, LineText(l)).token == LastMeans(l)
  {
    hide ScanAll, LineOk, EndedText, WordText, TailText;
    assert l.tail.Unclosed? ==> InsideOk(l.tail.mark, l.tail.inside) by { TailIsOk(l); }
    var most := EndedText(l.ended) + WordText(l.last);
    var s := SCAN_START.(arguments := EndedMean(l.ended), token := WordMeans(l.last));
    ReadLastWord(l);
    ReadTail(s, l.tail);
    ScanAppend(SCAN_START, most, TailText(l.tail));
    var r := ScanAll(s, TailText(l.tail));
    if l.dangling {
      ScanAppend(SCAN_START, most + TailText(l.tail), ['\\']);
      ScanLast(r, '\\');
    } else {
      assert (most + TailText(l.tail)) + [] == most + TailText(l.tail);
    }
  }

  lemma TailIsOk(l: Line)
    requires LineOk(l)
    ensures l.tail.Unclosed? ==> InsideOk(l.tail.mark, l.tail.inside)
  {
  }

  lemma {:induction false} LettersAreRead(w: seq<WordChar>)
    requires LettersOk(w)
    ensures AllAllowed(LettersText(w)) && WithoutLineEnds(LettersText(w)) == LettersMean(w)
    decreases |w|
  {
    if w != [] {
      var before, x := w[..|w| - 1], w[|w| - 1];
      LettersAreRead(before);
      var text := LettersText(w);
      assert text[..|text| - 1] == LettersText(before) && text[|text| - 1] == x.x;
    }
  }

  lemma PhraseParts(prefix: char, p: Phrase)
    ensures var s, w := PhraseText(prefix, p), LettersText(p.word);
            var off := if prefix == NO_PREFIX then 0 else 1;
            && off + |w| <= |s| && !PrefixMissing(prefix, s) && s[off..off + |w|] == w
            && (p.Alone? ==> s[off..] == w)
            && (p.WithArguments? ==>
                  off + |w| < |s| && s[off + |w|] == ' ' && s[off + |w| + 1..] == LineText(p.line))
  {
    hide LettersText, LineText;
  }

  /** Every phrase, with any mixture of quotations, escapes and ends, means what the grammar says. */
  lemma PhraseIsRead(prefix: char, p: Phrase)
    requires PhraseOk(p)
    ensures Meaning(prefix, PhraseText(prefix, p)) == Parsed(PhraseMeans(p))
  {
    hide Meaning, ScanAll, LineText, LineOk, LettersText, PhraseText, WithoutLineEnds;
    var s, w := PhraseText(prefix, p), LettersText(p.word);
    var off := if prefix == NO_PREFIX then 0 else 1;
    LettersAreRead(p.word);
    PhraseParts(prefix, p);
    match p
    case Alone(_) => EndsInWord(prefix, s, off);
    case WithArguments(_, line) =>
      EndsInArguments(prefix, s, off, off + |w|);
      ReadLine(line);
  }

  // --- Every text is one of them ---------------------------------------------------------------

  const NOTHING: Line := Line([], [], Closed, false)

  /** One more character makes a longer line. */
  function Extended(l: Line, x: char): Line {
    if l.dangling then
      if l.tail.Unclosed? then
        l.(tail := Unclosed(l.tail.mark, l.tail.inside + [Glyph(true, x)]), dangling := false)
      else
        l.(last := l.last + [Plain(Glyph(true, x))], dangling := false)
    else if x == '\\' then
      l.(dangling := true)
    else if l.tail.Unclosed? then
      if x == l.tail.mark then
        l.(last := l.last + [Quotation(l.tail.mark, l.tail.inside)], tail := Closed)
      else
        l.(tail := Unclosed(l.tail.mark, l.tail.inside + [Glyph(false, x)]))
    else if x in {'\'', '"'} then
      l.(tail := Unclosed(x, []))
    else if x in {' ', '\n'} then
      l.(ended := l.ended + [Ended(l.last, x)], last := [])
    else
      l.(last := l.last + [if x == '\r' then CarriageReturn else Plain(Glyph(false, x))])
  }

  lemma ExtendedIsOk(l: Line, x: char)
    requires LineOk(l)
    ensures LineOk(Extended(l, x))
  {
  }

  lemma GlyphsGrow(gs: seq<Glyph>, g: Glyph)
    ensures GlyphsText(gs + [g]) == GlyphsText(gs) + GlyphText(g)
  {
    assert (gs + [g])[..|gs|] == gs;
  }

  lemma WordGrows(ps: seq<Piece>, p: Piece)
    ensures WordText(ps + [p]) == WordText(ps) + PieceText(p)
  {
    assert (ps + [p])[..|ps|] == ps;
  }

  lemma EndedGrow(es: seq<Ended>, e: Ended)
    ensures EndedText(es + [e]) == EndedText(es) + (WordText(e.word) + [e.separator])
  {
    assert (es + [e])[..|es|] == es;
  }

  lemma TailGrows(mark: char, inside: seq<Glyph>, g: Glyph)
    ensures TailText(Unclosed(mark, inside + [g])) == TailText(Unclosed(mark, inside)) + GlyphText(g)
  {
    hide GlyphText, GlyphsText;
    GlyphsGrow(inside, g);
    TextAssoc([mark], GlyphsText(inside), GlyphText(g));
  }

  lemma ExtendedInside(l: Line, x: char)
    requires l.tail.Unclosed? && (l.dangling || x != '\\')
    ensures LineText(Extended(l, x)) == LineText(l) + [x]
  {
    hide GlyphsText, WordText, EndedText;
    var most := EndedText(l.ended) + WordText(l.last);
    if l.dangling || x != l.tail.mark {
      var g := Glyph(l.dangling, x);
      TailGrows(l.tail.mark, l.tail.inside, g);
      hide TailText;
      TextAssoc(most, TailText(l.tail), GlyphText(g));
      TextAssoc(most + TailText(l.tail), ['\\'], [x]);
      assert GlyphText(g) == (if l.dangling then ['\\'] else []) + [x];
    } else {
      QuotationEnds(l, x);
    }
  }

  lemma QuotationEnds(l: Line, x: char)
    requires l.tail.Unclosed? && !l.dangling && x == l.tail.mark && x != '\\'
    ensures LineText(Extended(l, x)) == LineText(l) + [x]
  {
    var mark, inside := l.tail.mark, l.tail.inside;
    var p := Quotation(mark, inside);
    WordGrows(l.last, p);
    hide GlyphsText, WordText, EndedText;
    assert PieceText(p) == TailText(l.tail) + [mark];
    hide PieceText, TailText;
    var most := EndedText(l.ended) + WordText(l.last);
    TextAssoc(EndedText(l.ended), WordText(l.last), PieceText(p));
    TextAssoc(most, TailText(l.tail), [mark]);
    assert TailText(Closed) == "" by { NoTail(); }
  }

  lemma NoTail()
    ensures TailText(Closed) == ""
  {
  }

  lemma ExtendedOutside(l: Line, x: char)
    requires l.tail.Closed? && (l.dangling || x != '\\')
    ensures LineText(Extended(l, x)) == LineText(l) + [x]
  {
    hide GlyphsText, WordText, EndedText;
    var most := EndedText(l.ended) + WordText(l.last);
    if !l.dangling && x in {'\'', '"'} {
      assert TailText(Unclosed(x, [])) == [x] by { JustOpened(x); }
    } else if !l.dangling && x in {' ', '\n'} {
      EndedGrow(l.ended, Ended(l.last, x));
      TextAssoc(EndedText(l.ended), WordText(l.last), [x]);
      assert WordText([]) == "" by { NothingIsALine(); }
    } else {
      var p := if !l.dangling && x == '\r' then CarriageReturn else Plain(Glyph(l.dangling, x));
      WordGrows(l.last, p);
      TextAssoc(EndedText(l.ended), WordText(l.last), PieceText(p));
      TextAssoc(most, ['\\'], [x]);
      assert PieceText(p) == (if l.dangling then ['\\'] else []) + [x];
    }
  }

  lemma JustOpened(mark: char)
    ensures TailText(Unclosed(mark, [])) == [mark]
  {
  }

  lemma ExtendedText(l: Line, x: char)
    ensures LineText(Extended(l, x)) == LineText(l) + [x]
  {
    if !l.dangling && x == '\\' {
      assert LineText(l) == (EndedText(l.ended) + WordText(l.last)) + TailText(l.tail);
    } else if l.tail.Unclosed? {
      ExtendedInside(l, x);
    } else {
      ExtendedOutside(l, x);
    }
  }

  /** Every text is a line of the grammar. */
  lemma {:induction false} EveryTextIsALine(t: string) returns (l: Line)
    ensures LineOk(l) && LineText(l) == t
    decreases |t|
  {
    hide LineOk, LineText, Extended;
    if t == "" {
      l := NOTHING;
      assert LineOk(l) && LineText(l) == t by { NothingIsALine(); }
    } else {
      var n := |t| - 1;
      var before := EveryTextIsALine(t[..n]);
      l := Extended(before, t[n]);
      ExtendedIsOk(before, t[n]);
      ExtendedText(before, t[n]);
      assert t == t[..n] + [t[n]];
    }
  }

  lemma NothingIsALine()
    ensures LineOk(NOTHING) && LineText(NOTHING) == "" && WordText([]) == ""
  {
  }

  lemma {:induction false} EveryWordIsLetters(s: string) returns (w: seq<WordChar>)
    requires forall i | 0 <= i < |s| :: Allowed(s[i])
    ensures LettersOk(w) && LettersText(w) == s
    decreases |s|
  {
    if s == "" {
      w := [];
    } else {
      var n := |s| - 1;
      var before := EveryWordIsLetters(s[..n]);
      w := before + [if s[n] in {'\r', '\n'} then LineEnd(s[n]) else Letter(s[n])];
      assert w[..|before|] == before && s == s[..n] + [s[n]];
    }
  }

  lemma ParsedHasAWord(prefix: char, s: string)
    requires Meaning(prefix, s).Parsed?
    ensures var body := Body(prefix, s);
            forall i | 0 <= i < FirstSpace(body) :: Allowed(body[..FirstSpace(body)][i])
  {
    var body := Body(prefix, s);
    var k := FirstSpace(body);
    assert FirstBad(body[..k]) == k;
  }

  lemma BodyText(prefix: char, s: string)
    requires s != "" && !PrefixMissing(prefix, s)
    ensures s == (if prefix == NO_PREFIX then "" else [prefix]) + Body(prefix, s)
  {
  }

  lemma SplitAtSpace(body: string, k: nat)
    requires k < |body| && body[k] == ' '
    ensures body == body[..k] + ([' '] + body[k + 1..])
  {
  }

  lemma EveryParsedTextIsAPhrase(prefix: char, s: string) returns (p: Phrase)
    requires Meaning(prefix, s).Parsed? && s != ""
    ensures PhraseOk(p) && PhraseText(prefix, p) == s
  {
    ParsedHasAWord(prefix, s);
    BodyText(prefix, s);
    hide Meaning, Body, LettersText, LineText, LineOk, LettersOk, Allowed;
    var body := Body(prefix, s);
    var k := FirstSpace(body);
    var w := EveryWordIsLetters(body[..k]);
    if k == |body| {
      p := Alone(w);
      assert body[..k] == body;
      assert LettersText(w) + "" == LettersText(w);
    } else {
      var l := EveryTextIsALine(body[k + 1..]);
      p := WithArguments(w, l);
      SplitAtSpace(body, k);
    }
  }

  /**
    The command parser, exactly: a text is parsed to a command if and only if it
    is a phrase of the grammar that means this command; only the empty text, which
    lacks the prefix, is let through besides.
   */
  lemma PhraseIff(prefix: char, s: string, cmd: Command)
    ensures Meaning(prefix, s) == Parsed(cmd)
       <==> (s == "" && cmd == Command("", []))
            || exists p :: PhraseOk(p) && PhraseText(prefix, p) == s && PhraseMeans(p) == cmd
  {
    NothingMeans(prefix, "");
    hide Meaning, PhraseText, PhraseOk, PhraseMeans;
    if s != "" && Meaning(prefix, s) == Parsed(cmd) {
      var p := EveryParsedTextIsAPhrase(prefix, s);
      PhraseIsRead(prefix, p);
    }
    forall p | PhraseOk(p) && PhraseText(prefix, p) == s ensures Meaning(prefix, s) == Parsed(PhraseMeans(p)) {
      PhraseIsRead(prefix, p);
    }
  }
}
