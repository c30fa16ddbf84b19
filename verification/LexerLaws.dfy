/** Sources written out token by token, in characters, and read back: when a `-` is a sign and when the operator,
    which words are keywords, literals or names, and what each bracket and mark is. */
module LexerLaws {
  import opened Lexer

  /** What stands between two tokens: white space and comments. */
  datatype Filler = White(c: char) | Comment(text: string)

  datatype Piece =
    | Name(word: string)
    | Keyword(word: string)
    | Numeral(negative: bool, digits: string)
    | Fraction(negative: bool, digits: string, part: string)
    | Quotation(text: string)
    | Character(c: char)
    | Sharp(word: string)
    | SharpKeys(words: seq<string>)
    | SharpOp(op: string)
    | Mark(c: char)
    | Operator(op: string)
    | Minus
    | Arrow
    | Becomes
    | OpenArray

  datatype Spaced = Spaced(gap: seq<Filler>, piece: Piece)

  /** A token as the parser first looks at it. */
  datatype Shown = Shown(kind: TokenKind, text: string)

  predicate Letter(c: char) { 'a' <= c <= 'z' || 'A' <= c <= 'Z' || c == '_' }

  predicate Digit(c: char) { '0' <= c <= '9' }

  predicate Digits(s: string) { s != "" && forall i :: 0 <= i < |s| ==> Digit(s[i]) }

  predicate IsName(s: string) { s != "" && Letter(s[0]) && forall i :: 0 <= i < |s| ==> Letter(s[i]) || Digit(s[i]) }

  predicate IsOp(c: char) { c in "+*/\\&,@=~<>%?!" }

  function Quoting(s: string): string {
    if s == "" then "" else if s[0] == QUOTE then "''" + Quoting(s[1..]) else [s[0]] + Quoting(s[1..])
  }

  function Minused(negative: bool, s: string): string { if negative then "-" + s else s }

  /** at:put: */
  function Keyed(words: seq<string>): string { if words == [] then "" else words[0] + ":" + Keyed(words[1..]) }

  predicate InSharpOp(c: char) { c in "+-*/=~<>&|@," }

  function Spelled(x: Piece): string {
    match x
    case Name(w) => w
    case Keyword(w) => w + ":"
    case Numeral(negative, d) => Minused(negative, d)
    case Fraction(negative, d, part) => Minused(negative, d + "." + part)
    case Quotation(s) => "'" + Quoting(s) + "'"
    case Character(c) => ['$', c]
    case Sharp(w) => "#" + w
    case SharpKeys(ws) => "#" + Keyed(ws)
    case SharpOp(op) => "#" + op
    case Mark(c) => [c]
    case Operator(op) => op
    case Minus => "-"
    case Arrow => "->"
    case Becomes => ":="
    case OpenArray => "#("
  }

  predicate AllOps(s: string) { forall i :: 0 <= i < |s| ==> IsOp(s[i]) }

  predicate IsMark(c: char) {
    c == '(' || c == ')' || c == '[' || c == ']' || c == '{' || c == '}' || c == '.' || c == ';' || c == '^' || c == '|' || c == ':'
  }

  predicate IsPiece(x: Piece, fits: string -> bool) {
    match x
    case Name(w) => IsName(w)
    case Keyword(w) => IsName(w)
    case Numeral(_, d) => Digits(d)
    case Fraction(negative, d, part) => Digits(d) && Digits(part) && fits(Spelled(x))
    case Sharp(w) => IsName(w)
    case SharpKeys(ws) => ws != [] && forall i :: 0 <= i < |ws| ==> IsName(ws[i])
    case SharpOp(op) => 1 <= |op| <= 2 && InSharpOp(op[0]) && (|op| == 2 ==> InSharpOp(op[1]))
    case Mark(c) => IsMark(c)
    case Operator(op) => op !in ["", "\\", "~"] && AllOps(op)
    case _ => true
  }

  /** The token that is meant. */
  function Meant(x: Piece): Shown
  {
    match x
    case Name(w) => Shown(if w == "true" then TRUE else if w == "false" then FALSE else if w == "nil" then NIL else IDENTIFIER, w)
    case Keyword(w) => Shown(KEYWORD, w + ":")
    case Numeral(_, _) => Shown(INTEGER, Spelled(x))
    case Fraction(_, _, _) => Shown(FLOAT, Spelled(x))
    case Quotation(s) => Shown(STRING, s)
    case Character(c) => Shown(CHAR, [c])
    case Sharp(w) => Shown(SYMBOL, w)
    case SharpKeys(ws) => Shown(SYMBOL, Keyed(ws))
    case SharpOp(op) => Shown(SYMBOL, op)
    case Mark(c) => Shown(if c == '(' then L_PAREN else if c == ')' then R_PAREN
                          else if c == '[' then L_BRACKET else if c == ']' then R_BRACKET
                          else if c == '{' then L_BRACE else if c == '}' then R_BRACE
                          else if c == '.' then PERIOD else if c == ';' then SEMICOLON
                          else if c == '^' then CARET else if c == '|' then PIPE else COLON, [c])
    case Operator(op) => Shown(if op == ">>" then GT_GT else BINARY_OP, op)
    case Minus => Shown(BINARY_OP, "-")
    case Arrow => Shown(BINARY_OP, "->")
    case Becomes => Shown(ASSIGN, ":=")
    case OpenArray => Shown(HASH_L_PAREN, "#(")
  }

  /** What ends an operand, so that a `-` right behind it subtracts. */
  predicate Operand(x: Piece) {
    x.Name? || x.Numeral? || x.Fraction? || x.Quotation? || x.Character? || x.Sharp? || x.SharpKeys? || x.SharpOp?
    || (x.Mark? && (x.c == ')' || x.c == ']' || x.c == '}'))
  }

  predicate Negative(x: Piece) { (x.Numeral? || x.Fraction?) && x.negative }

  /** The source behind a token does not go on with it. */
  predicate Apart(x: Piece, rest: string) {
    if rest == "" then true
    else if x.Name? || x.Sharp? then
      !Letter(rest[0]) && !Digit(rest[0]) && (rest[0] == ':' ==> |rest| > 1 && rest[1] == '=')
    else if x.SharpKeys? then
      !Letter(rest[0]) && !Digit(rest[0]) && rest[0] != '=' && (rest[0] == ':' ==> |rest| > 1 && rest[1] == '=')
    else if x.SharpOp? then |x.op| == 2 || !InSharpOp(rest[0])
    else if x.Numeral? then !Letter(rest[0]) && !Digit(rest[0]) && (rest[0] == '.' ==> |rest| < 2 || !Digit(rest[1]))
    else if x.Fraction? then !Letter(rest[0]) && !Digit(rest[0])
    else if x.Keyword? || x == Mark(':') then rest[0] != '='
    else if x.Quotation? then rest[0] != QUOTE
    else if x.Operator? then !IsOp(rest[0])
    else if x.Minus? then rest[0] != '>'
    else true
  }

  /** A number has a sign only where a `-` is one, and a `-` right before a digit subtracts only where it is none. */
  predicate SignsAgree(x: Piece, rest: string, glued: bool) {
    && (Negative(x) ==> !glued)
    && (x.Minus? && rest != "" && Digit(rest[0]) ==> glued)
  }

  function FillerText(f: Filler): string {
    match f
    case White(c) => [c]
    case Comment(s) => [DOUBLE_QUOTE] + s + [DOUBLE_QUOTE]
  }

  function GapText(gap: seq<Filler>): string { if gap == [] then "" else FillerText(gap[0]) + GapText(gap[1..]) }

  predicate IsFiller(f: Filler) { if f.White? then f.c in " \t\n\r" else DOUBLE_QUOTE !in f.text }

  predicate IsGap(gap: seq<Filler>) {
    forall i :: 0 <= i < |gap| ==> IsFiller(gap[i])
  }

  /** The source, with what follows the last token. */
  function Written(pieces: seq<Spaced>, tail: seq<Filler>): string {
    if pieces == [] then GapText(tail)
    else GapText(pieces[0].gap) + (Spelled(pieces[0].piece) + Written(pieces[1..], tail))
  }

  /** The pieces can be told apart as they are written; `operand` says that one stands before the first. */
  predicate Readable(pieces: seq<Spaced>, tail: seq<Filler>, operand: bool, fits: string -> bool) {
    if pieces == [] then IsGap(tail)
    else
      var Spaced(gap, x) := pieces[0];
      var rest := Written(pieces[1..], tail);
      && IsGap(gap) && IsPiece(x, fits) && Apart(x, rest) && SignsAgree(x, rest, operand && gap == [])
      && Readable(pieces[1..], tail, Operand(x), fits)
  }

  // ----- A source read token by token -----

  /** The lexer has read `n` tokens up to here, the last of them of this kind. */
  predicate Stands(t: Text, n: nat, pos: nat, last: TokenKind) { t.start <= |t.src| && PlaceAfter(t, n) == Place(pos, last) }

  ghost predicate Shows(t: Text, n: nat, s: Shown)
    requires t.start <= |t.src|
  {
    NthToken(t, n).kind == s.kind && NthToken(t, n).text == s.text
  }

  lemma Next(t: Text, n: nat, pos: nat, last: TokenKind, at: nat, x: Lexeme)
    requires Stands(t, n, pos, last) && pos <= at < |t.src| && Skip(t.src, pos) == Gap(at, None)
    requires LexemeAt(t.src, at, at != pos, last, t.fits) == x
    ensures Shows(t, n, Shown(x.kind, x.text)) && Stands(t, n + 1, x.end, x.kind)
  {
    hide LexemeAt, Skip;
    assert Lex(t, Place(pos, last)) == (x, at);
    assert NextPlace(t, Place(pos, last)) == Place(x.end, x.kind);
    assert PlaceAfter(t, n + 1) == NextPlace(t, PlaceAfter(t, n));
  }

  lemma Ends(t: Text, n: nat, last: TokenKind)
    requires Stands(t, n, |t.src|, last)
    ensures NthToken(t, n).kind == END_OF_FILE
  {
    AtTheEnd(t, PlaceAfter(t, n));
  }

  // ----- Gaps -----

  lemma Pieced(src: string, p: nat, w: string, rest: string)
    requires p <= |src| && src[p..] == w + rest
    ensures |src| == p + |w| + |rest| && src[p..p + |w|] == w && src[p + |w|..] == rest
    ensures forall i {:trigger w[i]} :: 0 <= i < |w| ==> src[p + i] == w[i]
    ensures rest != "" ==> src[p + |w|] == rest[0]
    ensures |rest| > 1 ==> src[p + |w| + 1] == rest[1]
  {
    var all := src[p..];
    assert forall i :: 0 <= i < |all| ==> all[i] == src[p + i];
    assert all[..|w|] == w && all[|w|..] == rest;
  }

  /** What begins here is no gap. */
  predicate Solid(rest: string) { rest == "" || (!IsSpace(rest[0]) && rest[0] != DOUBLE_QUOTE) }

  /** The source from here on. */
  predicate From(src: string, p: nat, s: string) { p <= |src| && src[p..] == s }

  lemma {:induction false} SkipsGap(src: string, p: nat, gap: seq<Filler>, rest: string)
    requires IsGap(gap) && From(src, p, GapText(gap) + rest) && Solid(rest)
    ensures p + |GapText(gap)| <= |src| && Skip(src, p) == Gap(p + |GapText(gap)|, None)
    decreases |gap|
  {
    hide *;
    if gap == [] {
      NoGap(rest);
      SkipsNone(src, p, rest);
    } else {
      GapSplit(gap, rest);
      GapParts(gap);
      FirstPieced(src, p, FillerText(gap[0]), GapText(gap[1..]) + rest);
      SkipsFirst(src, p, gap[0]);
      SkipsGap(src, p + |FillerText(gap[0])|, gap[1..], rest);
    }
  }

  lemma NoGap(s: string)
    ensures GapText([]) + s == s && GapText([]) == ""
  {
  }

  lemma FirstPieced(src: string, p: nat, w: string, rest: string)
    requires From(src, p, w + rest)
    ensures p + |w| <= |src| && From(src, p + |w|, rest) && forall i {:trigger w[i]} :: 0 <= i < |w| ==> src[p + i] == w[i]
  {
    Pieced(src, p, w, rest);
  }

  lemma GapParts(gap: seq<Filler>)
    requires gap != [] && IsGap(gap)
    ensures IsFiller(gap[0]) && IsGap(gap[1..])
  {
  }

  lemma GapSplit(gap: seq<Filler>, rest: string)
    requires gap != []
    ensures GapText(gap) + rest == FillerText(gap[0]) + (GapText(gap[1..]) + rest)
    ensures |GapText(gap)| == |FillerText(gap[0])| + |GapText(gap[1..])| && FillerText(gap[0]) != ""
  {
  }

  lemma SkipsNone(src: string, p: nat, rest: string)
    requires From(src, p, rest) && Solid(rest)
    ensures Skip(src, p) == Gap(p, None)
  {
    if rest != "" { assert src[p] == rest[0]; }
  }

  lemma SkipsFirst(src: string, p: nat, f: Filler)
    requires IsFiller(f) && p + |FillerText(f)| <= |src|
    requires var w := FillerText(f); forall i {:trigger w[i]} :: 0 <= i < |w| ==> src[p + i] == w[i]
    ensures Skip(src, p) == Skip(src, p + |FillerText(f)|)
  {
    var w := FillerText(f);
    assert src[p] == w[0];
    if f.White? {
      assert IsSpace(src[p]);
    } else {
      var end := p + |w| - 1;
      assert src[p] == DOUBLE_QUOTE && w[|f.text| + 1] == DOUBLE_QUOTE && src[end] == DOUBLE_QUOTE;
      forall i | p + 1 <= i < end ensures InComment(src[i]) { assert w[i - p] == f.text[i - p - 1]; }
      SpanOver(src, p + 1, InComment, end);
      hide Span;
    }
  }

  // ----- One piece -----

  /** A piece at a place of a source, with what was before it and what comes after. */
  predicate Here(src: string, p: nat, x: Piece, rest: string, fits: string -> bool) {
    p <= |src| && src[p..] == Spelled(x) + rest && IsPiece(x, fits) && Apart(x, rest)
  }

  predicate Reads(x: Lexeme, s: Shown, end: nat) { x.kind == s.kind && x.text == s.text && x.end == end }

  lemma WordEnds(src: string, p: nat, w: string, rest: string)
    requires p <= |src| && src[p..] == w + rest && IsName(w) && (rest == "" || !(Letter(rest[0]) || Digit(rest[0])))
    ensures p + |w| <= |src| && Letter(src[p]) && Span(src, p, IsWord) == p + |w| && src[p..p + |w|] == w
  {
    Pieced(src, p, w, rest);
    forall i | p <= i < p + |w| ensures IsWord(src[i]) { assert src[i] == w[i - p]; }
    SpanOver(src, p, IsWord, p + |w|);
  }

  lemma WordIs(src: string, p: nat, e: nat)
    requires p < e <= |src| && IsWord(src[p]) && Span(src, p, IsWord) == e
    ensures Word(src, p) ==
      if e < |src| && src[e] == ':' && CharAt(src, e + 1) != '=' then Plain(KEYWORD, src[p..e + 1], e + 1)
      else Plain(Meant(Name(src[p..e])).kind, src[p..e], e)
  {
    hide Span;
  }

  lemma NameReads(src: string, p: nat, w: string, rest: string)
    requires p <= |src| && src[p..] == w + rest && IsName(w) && Apart(Name(w), rest)
    ensures p < |src| && Letter(src[p]) && Word(src, p) == Plain(Meant(Name(w)).kind, w, p + |w|)
  {
    Pieced(src, p, w, rest);
    WordEnds(src, p, w, rest);
    WordIs(src, p, p + |w|);
    hide Span, Word, IsName, Meant;
  }

  lemma KeywordReads(src: string, p: nat, w: string, rest: string)
    requires p <= |src| && src[p..] == w + (":" + rest) && IsName(w) && (rest == "" || rest[0] != '=')
    ensures p < |src| && Letter(src[p]) && Word(src, p) == Plain(KEYWORD, w + ":", p + |w| + 1)
  {
    hide Span, Word, Meant;
    WordEnds(src, p, w, ":" + rest);
    WordIs(src, p, p + |w|);
    Cut(src, p, w, ":" + rest);
    hide IsName;
    var e := p + |w|;
    assert src[e] == src[e..][0] == ':';
    Cut(src, e, ":", rest);
    assert rest != "" ==> src[e + 1] == src[e + 1..][0] == rest[0];
    assert src[p..e + 1] == src[p..e] + [src[e]];
  }

  lemma DigitsEnd(src: string, p: nat, d: string, rest: string)
    requires p <= |src| && src[p..] == d + rest && Digits(d) && (rest == "" || !Digit(rest[0]))
    ensures p + |d| <= |src| && IsDigit(src[p]) && Span(src, p, IsDigit) == p + |d| && src[p..p + |d|] == d
  {
    Pieced(src, p, d, rest);
    forall i | p <= i < p + |d| ensures IsDigit(src[i]) { assert src[i] == d[i - p]; }
    SpanOver(src, p, IsDigit, p + |d|);
  }

  lemma NumeralReads(src: string, p: nat, negative: bool, d: string, rest: string, fits: string -> bool)
    requires p <= |src| && src[p..] == d + rest && Digits(d) && Apart(Numeral(negative, d), rest)
    ensures p < |src| && IsDigit(src[p]) && Reads(Number(src, p, negative, fits), Meant(Numeral(negative, d)), p + |d|)
  {
    var e := p + |d|;
    DigitsEnd(src, p, d, rest);
    Pieced(src, p, d, rest);
    hide Span, Decimal;
    assert !IsRadix(src, p, e) && FractionEnd(src, e) == e && ExponentAt(src, e) == None;
    assert src[e..e] == "";
    hide IsRadix, FractionEnd, ExponentAt, Digits, Apart;
    assert Number(src, p, negative, fits) == Decimal(negative, d, e);
    DecimalReads(negative, d, e);
  }

  lemma DecimalReads(negative: bool, d: string, end: nat)
    ensures Reads(Decimal(negative, d, end), Meant(Numeral(negative, d)), end)
  {
    hide ValueIn;
  }

  lemma FractionReads(src: string, p: nat, negative: bool, d: string, part: string, rest: string, fits: string -> bool)
    requires p <= |src| && src[p..] == d + ("." + (part + rest)) && Digits(d) && Digits(part)
    requires fits(Minused(negative, d + "." + part)) && (rest == "" || (!Letter(rest[0]) && !Digit(rest[0])))
    ensures p < |src| && IsDigit(src[p])
    ensures Number(src, p, negative, fits) == Plain(FLOAT, Minused(negative, d + "." + part), p + |d| + 1 + |part|)
  {
    hide *;
    FractionEnds(src, p, d, part, rest);
    var e, f := p + |d|, p + |d| + 1 + |part|;
    BehindFraction(src, f, rest);
    DotIsNoLetter();
    NotRadix(src, p, e);
    NoExponent(src, f);
    PartEnds(src, e, f);
    UnradixedFraction(negative, d, part, f, fits);
    NumberIs(src, p, negative, fits, e, f);
  }

  lemma DotIsNoLetter()
    ensures !Letter('.')
  {
  }

  lemma NumberIs(src: string, p: nat, negative: bool, fits: string -> bool, e: nat, f: nat)
    requires p < |src| && IsDigit(src[p]) && Span(src, p, IsDigit) == e && e <= f <= |src|
    requires !IsRadix(src, p, e) && FractionEnd(src, e) == f && ExponentAt(src, f) == None
    ensures Number(src, p, negative, fits) == Unradixed(negative, src[p..e], src[e..f], "", f, fits)
  {
    hide Span, IsRadix, FractionEnd, ExponentAt, Unradixed;
  }

  lemma BehindFraction(src: string, f: nat, rest: string)
    requires f <= |src| && src[f..] == rest && (rest == "" || (!Letter(rest[0]) && !Digit(rest[0])))
    ensures f < |src| ==> !Letter(src[f])
  {
    assert f < |src| ==> src[f] == src[f..][0];
  }

  lemma PartEnds(src: string, e: nat, f: nat)
    requires e + 1 < |src| && src[e] == '.' && IsDigit(src[e + 1]) && Span(src, e + 1, IsDigit) == f
    ensures FractionEnd(src, e) == f
  {
    hide Span;
  }

  lemma NotRadix(src: string, p: nat, e: nat)
    requires p <= e <= |src| && (e < |src| ==> !Letter(src[e]))
    ensures !IsRadix(src, p, e)
  {
  }

  lemma NoExponent(src: string, f: nat)
    requires f <= |src| && (f < |src| ==> !Letter(src[f]))
    ensures ExponentAt(src, f) == None
  {
  }

  lemma UnradixedFraction(negative: bool, d: string, part: string, end: nat, fits: string -> bool)
    requires fits(Minused(negative, d + "." + part))
    ensures Unradixed(negative, d, "." + part, "", end, fits) == Plain(FLOAT, Minused(negative, d + "." + part), end)
  {
    assert Sign(negative) + d + ("." + part) + "" == Minused(negative, d + "." + part);
  }

  lemma FractionEnds(src: string, p: nat, d: string, part: string, rest: string)
    requires p <= |src| && src[p..] == d + ("." + (part + rest)) && Digits(d) && Digits(part) && (rest == "" || !Digit(rest[0]))
    ensures var e, f := p + |d|, p + |d| + 1 + |part|;
      && e + 1 < f <= |src| && IsDigit(src[p]) && Span(src, p, IsDigit) == e && Span(src, e + 1, IsDigit) == f
      && src[p..e] == d && src[e] == '.' && IsDigit(src[e + 1]) && src[e..f] == "." + part && src[f..] == rest
  {
    var e := p + |d|;
    hide Span;
    DigitsEnd(src, p, d, "." + (part + rest));
    hide Digits;
    Cut(src, p, d, "." + (part + rest));
    Cut(src, e, ".", part + rest);
    DigitsEnd(src, e + 1, part, rest);
    Cut(src, e + 1, part, rest);
    assert src[e] == src[e..][0] == '.';
    assert src[e..e + 1 + |part|] == [src[e]] + src[e + 1..e + 1 + |part|];
  }

  lemma Cut(src: string, p: nat, w: string, rest: string)
    requires p <= |src| && src[p..] == w + rest
    ensures p + |w| <= |src| && src[p + |w|..] == rest
  {
    Pieced(src, p, w, rest);
  }

  lemma {:induction false} QuotingIsDoubled(s: string)
    ensures Quoting(s) == Doubled(s)
  {
    if s != "" { QuotingIsDoubled(s[1..]); }
  }

  lemma QuotationReads(src: string, p: nat, s: string, rest: string)
    requires p <= |src| && src[p..] == "'" + Quoting(s) + "'" + rest && (rest == "" || rest[0] != QUOTE)
    ensures p < |src| && src[p] == QUOTE && Quoted(src, p + 1, "") == Some((s, p + |Quoting(s)| + 2))
  {
    hide Quoting, Doubled, Quoted;
    QuotingIsDoubled(s);
    var before := src[..p] + "'";
    assert src == src[..p] + src[p..];
    assert src == before + Doubled(s) + "'" + rest;
    QuotedText(before, s, rest, "");
    assert "" + s == s;
    assert src[p] == src[p..][0];
  }

  lemma SharpReads(src: string, p: nat, w: string, rest: string)
    requires p <= |src| && src[p..] == "#" + (w + rest) && IsName(w) && Apart(Sharp(w), rest)
    ensures p < |src| && src[p] == '#' && CharAt(src, p + 1) != '(' && Symbol(src, p) == Plain(SYMBOL, w, p + 1 + |w|)
  {
    hide Span;
    Cut(src, p, "#", w + rest);
    assert src[p] == src[p..][0];
    WordEnds(src, p + 1, w, rest);
    Cut(src, p + 1, w, rest);
    var e := p + 1 + |w|;
    assert src[p + 1] == w[0] && Letter(w[0]) by { assert src[p + 1..e][0] == src[p + 1]; }
    hide IsName;
    ChainEnds(src, e, rest);
    hide Chain, Apart;
  }

  lemma ChainEnds(src: string, e: nat, rest: string)
    requires e <= |src| && src[e..] == rest && (rest != "" && rest[0] == ':' ==> |rest| > 1 && rest[1] == '=')
    ensures Chain(src, e) == e
  {
    assert forall i :: 0 <= i < |rest| ==> src[e..][i] == src[e + i];
    if rest != "" {
      assert src[e] == rest[0];
      if rest[0] == ':' { assert src[e + 1] == rest[1]; }
    }
  }

  lemma {:induction false} ChainKeys(src: string, p: nat, ws: seq<string>, rest: string)
    requires p <= |src| && src[p..] == ":" + (Keyed(ws) + rest) && forall i :: 0 <= i < |ws| ==> IsName(ws[i])
    requires Apart(SharpKeys(ws), rest)
    ensures Chain(src, p) == p + 1 + |Keyed(ws)|
    decreases |ws|
  {
    hide Span, IsName, Chain, Apart;
    if ws == [] {
      assert Keyed(ws) + rest == rest;
      KeyLast(src, p, rest);
    } else {
      KeyedIs(ws, rest);
      hide Keyed;
      KeyStep(src, p, ws[0], ":" + (Keyed(ws[1..]) + rest));
      SharpKeysApart(ws, ws[1..], rest);
      ChainKeys(src, p + 1 + |ws[0]|, ws[1..], rest);
    }
  }

  lemma KeyLast(src: string, p: nat, rest: string)
    requires p <= |src| && src[p..] == ":" + rest && Apart(SharpKeys([]), rest)
    ensures Chain(src, p) == p + 1
  {
    hide Span;
    Cut(src, p, ":", rest);
    assert src[p] == src[p..][0] == ':';
    assert rest != "" ==> src[p + 1] == src[p + 1..][0];
    assert Span(src, p + 1, IsWord) == p + 1 by { SpanOver(src, p + 1, IsWord, p + 1); }
    ChainEnds(src, p + 1, rest);
    hide Apart;
    ChainOnce(src, p, p + 1);
  }

  lemma KeyStep(src: string, p: nat, w: string, more: string)
    requires p <= |src| && src[p..] == ":" + (w + more) && IsName(w) && more != "" && more[0] == ':'
    ensures p + 1 + |w| <= |src| && src[p + 1 + |w|..] == more && Chain(src, p) == Chain(src, p + 1 + |w|)
  {
    hide Span, IsName, Chain;
    Cut(src, p, ":", w + more);
    assert src[p] == src[p..][0] == ':';
    WordEnds(src, p + 1, w, more);
    Cut(src, p + 1, w, more);
    FirstOfName(w);
    assert src[p + 1] == src[p + 1..p + 1 + |w|][0];
    ChainOnce(src, p, p + 1 + |w|);
  }

  lemma ChainOnce(src: string, p: nat, q: nat)
    requires p < |src| && src[p] == ':' && CharAt(src, p + 1) != '=' && Span(src, p + 1, IsWord) == q
    ensures Chain(src, p) == Chain(src, q)
  {
    hide Span;
  }

  lemma FirstOfName(w: string)
    requires IsName(w)
    ensures w != "" && Letter(w[0])
  {
  }

  lemma SharpKeysReads(src: string, p: nat, ws: seq<string>, rest: string)
    requires p <= |src| && src[p..] == "#" + (Keyed(ws) + rest) && ws != [] && forall i :: 0 <= i < |ws| ==> IsName(ws[i])
    requires Apart(SharpKeys(ws), rest)
    ensures p < |src| && src[p] == '#' && CharAt(src, p + 1) != '(' && Symbol(src, p) == Plain(SYMBOL, Keyed(ws), p + 1 + |Keyed(ws)|)
  {
    hide *;
    var w := ws[0];
    KeyedIs(ws, rest);
    NameBehindSharp(src, p, w, ":" + (Keyed(ws[1..]) + rest));
    var e, f := p + 1 + |w|, p + 1 + |Keyed(ws)|;
    SharpKeysApart(ws, ws[1..], rest);
    ChainKeys(src, e, ws[1..], rest);
    SymbolOfWord(src, p, e, f);
    Cut(src, p, "#", Keyed(ws) + rest);
    Whole(src, p + 1, Keyed(ws), rest);
    assert src[p + 1..f] == Keyed(ws);
    CharThere(src, p + 1);
  }

  lemma CharThere(src: string, p: nat)
    requires p < |src|
    ensures CharAt(src, p) == src[p]
  {
  }

  lemma NameBehindSharp(src: string, p: nat, w: string, more: string)
    requires p <= |src| && src[p..] == "#" + (w + more) && IsName(w) && more != "" && more[0] == ':'
    ensures var e := p + 1 + |w|;
      && p + 1 < e <= |src| && src[p] == '#' && Letter(src[p + 1]) && src[p + 1] != '('
      && Span(src, p + 1, IsWord) == e && src[e..] == more
  {
    hide Span, IsName;
    Cut(src, p, "#", w + more);
    assert src[p] == src[p..][0];
    WordEnds(src, p + 1, w, more);
    Cut(src, p + 1, w, more);
    FirstOfName(w);
    assert src[p + 1] == src[p + 1..p + 1 + |w|][0];
  }

  lemma KeyedIs(ws: seq<string>, rest: string)
    requires ws != []
    ensures Keyed(ws) + rest == ws[0] + (":" + (Keyed(ws[1..]) + rest)) && |Keyed(ws)| == |ws[0]| + 1 + |Keyed(ws[1..])|
  {
    var k := Keyed(ws[1..]);
    assert Keyed(ws) == (ws[0] + ":") + k;
    hide Keyed;
    Joins(ws[0] + ":", k, rest);
    Joins(ws[0], ":", k + rest);
  }

  lemma SymbolOfWord(src: string, p: nat, e: nat, f: nat)
    requires p + 1 < e <= |src| && src[p] == '#' && Letter(src[p + 1]) && Span(src, p + 1, IsWord) == e && Chain(src, e) == f
    ensures f <= |src| && Symbol(src, p) == Plain(SYMBOL, src[p + 1..f], f)
  {
    hide Span, Chain;
  }

  lemma SharpKeysApart(ws: seq<string>, vs: seq<string>, rest: string)
    requires Apart(SharpKeys(ws), rest)
    ensures Apart(SharpKeys(vs), rest)
  {
  }

  lemma Whole(src: string, p: nat, w: string, rest: string)
    requires p <= |src| && src[p..] == w + rest
    ensures p + |w| <= |src| && src[p..p + |w|] == w
  {
    Pieced(src, p, w, rest);
  }

  lemma SharpOpReads(src: string, p: nat, op: string, rest: string)
    requires p <= |src| && src[p..] == "#" + (op + rest) && 1 <= |op| <= 2 && InSharpOp(op[0]) && (|op| == 2 ==> InSharpOp(op[1]))
    requires Apart(SharpOp(op), rest)
    ensures p < |src| && src[p] == '#' && CharAt(src, p + 1) != '(' && Symbol(src, p) == Plain(SYMBOL, op, p + 1 + |op|)
  {
    Cut(src, p, "#", op + rest);
    assert src[p] == src[p..][0];
    Pieced(src, p + 1, op, rest);
    assert src[p + 1] == op[0];
    SharpOpIs(op[0]);
    if |op| == 2 { assert src[p + 2] == op[1]; SharpOpIs(op[1]); }
    if rest != "" { SharpOpIs(rest[0]); }
    hide InSharpOp, InSymbol, Chain, Span;
  }

  lemma SharpOpIs(c: char)
    ensures InSharpOp(c) == InSymbol(c) && (InSharpOp(c) ==> c != '(' && !Letter(c))
  {
  }

  lemma OperatorReads(src: string, p: nat, op: string, rest: string)
    requires p <= |src| && src[p..] == op + rest && op !in ["", "\\", "~"] && AllOps(op) && (rest == "" || !IsOp(rest[0]))
    ensures p < |src| && IsOp(src[p]) && InRun(src[p]) && Run(src, p) == Plain(if op == ">>" then GT_GT else BINARY_OP, op, p + |op|)
  {
    Pieced(src, p, op, rest);
    forall i | p <= i < p + |op| ensures InRun(src[i]) { assert src[i] == op[i - p]; OpsRun(op[i - p]); }
    if rest != "" { OpsRun(rest[0]); }
    hide InRun;
    SpanOver(src, p, InRun, p + |op|);
    assert src[p] == op[0] && IsOp(op[0]);
    hide Span, IsOp;
  }

  lemma OpsRun(c: char)
    ensures IsOp(c) == InRun(c)
  {
  }

  // ----- The first character says which -----

  lemma ByWord(src: string, p: nat, spaced: bool, last: TokenKind, fits: string -> bool)
    requires p < |src| && Letter(src[p])
    ensures LexemeAt(src, p, spaced, last, fits) == Word(src, p)
  {
    hide Word;
  }

  lemma ByDigit(src: string, p: nat, spaced: bool, last: TokenKind, fits: string -> bool)
    requires p < |src| && Digit(src[p])
    ensures LexemeAt(src, p, spaced, last, fits) == Number(src, p, false, fits)
  {
    hide Number;
  }

  lemma BySharp(src: string, p: nat, spaced: bool, last: TokenKind, fits: string -> bool)
    requires p < |src| && src[p] == '#'
    ensures LexemeAt(src, p, spaced, last, fits) == if CharAt(src, p + 1) == '(' then Plain(HASH_L_PAREN, "#(", p + 2) else Symbol(src, p)
  {
    hide Symbol;
  }

  lemma ByQuote(src: string, p: nat, s: string, end: nat, spaced: bool, last: TokenKind, fits: string -> bool)
    requires p < |src| && src[p] == QUOTE && Quoted(src, p + 1, "") == Some((s, end))
    ensures LexemeAt(src, p, spaced, last, fits) == Plain(STRING, s, end)
  {
    hide Quoted;
  }

  lemma ByDollar(src: string, p: nat, spaced: bool, last: TokenKind, fits: string -> bool)
    requires p + 1 < |src| && src[p] == '$'
    ensures LexemeAt(src, p, spaced, last, fits) == Plain(CHAR, [src[p + 1]], p + 2)
  {
  }

  lemma MarkIs(c: char)
    requires IsMark(c) && c != ':'
    ensures Single(c) == Some(Meant(Mark(c)).kind) && Meant(Mark(c)).text == [c]
    ensures !Letter(c) && !Digit(c) && c != '#' && c != QUOTE && c != '$'
  {
  }

  lemma ByMark(src: string, p: nat, spaced: bool, last: TokenKind, fits: string -> bool)
    requires p < |src| && IsMark(src[p]) && src[p] != ':'
    ensures LexemeAt(src, p, spaced, last, fits) == Plain(Meant(Mark(src[p])).kind, [src[p]], p + 1)
  {
    MarkIs(src[p]);
    hide Single, IsMark, Meant, Run, Word, Number, Symbol, Quoted;
  }

  lemma ByColon(src: string, p: nat, spaced: bool, last: TokenKind, fits: string -> bool)
    requires p < |src| && src[p] == ':'
    ensures LexemeAt(src, p, spaced, last, fits) == if CharAt(src, p + 1) == '=' then Plain(ASSIGN, ":=", p + 2) else Plain(COLON, ":", p + 1)
  {
  }

  lemma ByRun(src: string, p: nat, spaced: bool, last: TokenKind, fits: string -> bool)
    requires p < |src| && IsOp(src[p])
    ensures InRun(src[p]) && LexemeAt(src, p, spaced, last, fits) == Run(src, p)
  {
    hide Run;
  }

  /** After these kinds a `-` glued to the token subtracts. */
  predicate After(last: TokenKind) {
    last in {INTEGER, FLOAT, STRING, CHAR, SYMBOL, TRUE, FALSE, NIL, IDENTIFIER, R_PAREN, R_BRACKET, R_BRACE}
  }

  lemma ByMinus(src: string, p: nat, spaced: bool, last: TokenKind, fits: string -> bool)
    requires p < |src| && src[p] == '-'
    ensures LexemeAt(src, p, spaced, last, fits) ==
      if CharAt(src, p + 1) == '>' then Plain(BINARY_OP, "->", p + 2)
      else if p + 1 < |src| && Digit(src[p + 1]) && (spaced || !After(last)) then Number(src, p + 1, true, fits)
      else Plain(BINARY_OP, "-", p + 1)
  {
    hide Number;
  }

  // ----- Any piece is read as the token meant -----

  predicate ReadAt(src: string, p: nat, x: Piece, spaced: bool, last: TokenKind, fits: string -> bool) {
    && p < |src| && IsPiece(x, fits)
    && Reads(LexemeAt(src, p, spaced, last, fits), Meant(x), p + |Spelled(x)|)
  }

  lemma NamePiece(src: string, p: nat, w: string, rest: string, spaced: bool, last: TokenKind, fits: string -> bool)
    requires Here(src, p, Name(w), rest, fits)
    ensures ReadAt(src, p, Name(w), spaced, last, fits)
  {
    NameReads(src, p, w, rest);
    ByWord(src, p, spaced, last, fits);
    hide LexemeAt, Word, IsName, Apart;
  }

  lemma KeywordPiece(src: string, p: nat, w: string, rest: string, spaced: bool, last: TokenKind, fits: string -> bool)
    requires Here(src, p, Keyword(w), rest, fits)
    ensures ReadAt(src, p, Keyword(w), spaced, last, fits)
  {
    assert (w + ":") + rest == w + (":" + rest);
    KeywordReads(src, p, w, rest);
    ByWord(src, p, spaced, last, fits);
    hide LexemeAt, Word, IsName, Apart;
  }

  lemma SharpPiece(src: string, p: nat, w: string, rest: string, spaced: bool, last: TokenKind, fits: string -> bool)
    requires Here(src, p, Sharp(w), rest, fits)
    ensures ReadAt(src, p, Sharp(w), spaced, last, fits)
  {
    assert ("#" + w) + rest == "#" + (w + rest);
    SharpReads(src, p, w, rest);
    BySharp(src, p, spaced, last, fits);
    hide LexemeAt, Symbol, IsName, Apart;
  }

  lemma SharpKeysPiece(src: string, p: nat, ws: seq<string>, rest: string, spaced: bool, last: TokenKind, fits: string -> bool)
    requires Here(src, p, SharpKeys(ws), rest, fits)
    ensures ReadAt(src, p, SharpKeys(ws), spaced, last, fits)
  {
    hide LexemeAt, Symbol, IsName, Apart, Keyed;
    Joins("#", Keyed(ws), rest);
    SharpKeysReads(src, p, ws, rest);
    BySharp(src, p, spaced, last, fits);
  }

  lemma Joins(a: string, b: string, c: string)
    ensures (a + b) + c == a + (b + c)
  {
  }

  lemma SharpOpPiece(src: string, p: nat, op: string, rest: string, spaced: bool, last: TokenKind, fits: string -> bool)
    requires Here(src, p, SharpOp(op), rest, fits)
    ensures ReadAt(src, p, SharpOp(op), spaced, last, fits)
  {
    assert ("#" + op) + rest == "#" + (op + rest);
    hide LexemeAt, Symbol, Apart, InSharpOp;
    SharpOpReads(src, p, op, rest);
    BySharp(src, p, spaced, last, fits);
  }

  lemma QuotationPiece(src: string, p: nat, s: string, rest: string, spaced: bool, last: TokenKind, fits: string -> bool)
    requires Here(src, p, Quotation(s), rest, fits)
    ensures ReadAt(src, p, Quotation(s), spaced, last, fits)
  {
    QuotationReads(src, p, s, rest);
    ByQuote(src, p, s, p + |Quoting(s)| + 2, spaced, last, fits);
    hide LexemeAt, Quoted, Quoting;
  }

  lemma OperatorPiece(src: string, p: nat, op: string, rest: string, spaced: bool, last: TokenKind, fits: string -> bool)
    requires Here(src, p, Operator(op), rest, fits)
    ensures ReadAt(src, p, Operator(op), spaced, last, fits)
  {
    OperatorReads(src, p, op, rest);
    ByRun(src, p, spaced, last, fits);
    hide LexemeAt, Run, IsOp, AllOps;
  }

  /** The pieces of one or two characters. */
  lemma ShortPiece(src: string, p: nat, x: Piece, rest: string, spaced: bool, last: TokenKind, fits: string -> bool)
    requires Here(src, p, x, rest, fits) && SignsAgree(x, rest, !spaced && After(last))
    requires x.Character? || x.Mark? || x.Minus? || x.Arrow? || x.Becomes? || x.OpenArray?
    ensures ReadAt(src, p, x, spaced, last, fits)
  {
    FirstTwo(src, p, Spelled(x), rest);
    hide LexemeAt, After, IsName, IsOp, InSharpOp, Quoting, Keyed;
    if x.Character? {
      ByDollar(src, p, spaced, last, fits);
    } else if x.Mark? {
      if x.c == ':' { ByColon(src, p, spaced, last, fits); } else { ByMark(src, p, spaced, last, fits); }
    } else if x.Minus? || x.Arrow? {
      ByMinus(src, p, spaced, last, fits);
    } else if x.Becomes? {
      ByColon(src, p, spaced, last, fits);
    } else {
      BySharp(src, p, spaced, last, fits);
    }
  }

  lemma FirstTwo(src: string, p: nat, w: string, rest: string)
    requires p <= |src| && src[p..] == w + rest && 1 <= |w| <= 2
    ensures p + |w| <= |src| && src[p] == w[0] && (|w| == 2 ==> src[p + 1] == w[1])
    ensures |w| == 1 ==> if rest == "" then p + 1 == |src| else p + 1 < |src| && src[p + 1] == rest[0]
  {
    Pieced(src, p, w, rest);
    assert src[p + 0] == w[0];
    if |w| == 2 { assert src[p + 1] == w[1]; }
  }

  /** Behind the sign. */
  lemma Unsigned(src: string, p: nat, negative: bool, d: string, rest: string)
    requires p <= |src| && src[p..] == Minused(negative, d) + rest
    ensures if negative then p < |src| && src[p] == '-' && src[p + 1..] == d + rest else src[p..] == d + rest
  {
    if negative {
      assert "-" + d + rest == "-" + (d + rest);
      Cut(src, p, "-", d + rest);
      assert src[p] == src[p..][0];
    }
  }

  lemma NumeralPiece(src: string, p: nat, negative: bool, d: string, rest: string, spaced: bool, last: TokenKind, fits: string -> bool)
    requires Here(src, p, Numeral(negative, d), rest, fits) && SignsAgree(Numeral(negative, d), rest, !spaced && After(last))
    ensures ReadAt(src, p, Numeral(negative, d), spaced, last, fits)
  {
    var q := if negative then p + 1 else p;
    hide LexemeAt, After, Number, Digits;
    Unsigned(src, p, negative, d, rest);
    NumeralReads(src, q, negative, d, rest, fits);
    hide Apart;
    if negative { ByMinus(src, p, spaced, last, fits); } else { ByDigit(src, p, spaced, last, fits); }
  }

  lemma FractionText(d: string, part: string, rest: string)
    ensures d + "." + part + rest == d + ("." + (part + rest)) && |d + "." + part| == |d| + 1 + |part|
  {
  }

  lemma FractionPiece(src: string, p: nat, negative: bool, d: string, part: string, rest: string, spaced: bool, last: TokenKind, fits: string -> bool)
    requires Here(src, p, Fraction(negative, d, part), rest, fits) && SignsAgree(Fraction(negative, d, part), rest, !spaced && After(last))
    ensures ReadAt(src, p, Fraction(negative, d, part), spaced, last, fits)
  {
    var q := if negative then p + 1 else p;
    hide LexemeAt, After, Number, Digits;
    Unsigned(src, p, negative, d + "." + part, rest);
    FractionText(d, part, rest);
    hide IsPiece;
    FractionReads(src, q, negative, d, part, rest, fits);
    hide Apart;
    if negative { ByMinus(src, p, spaced, last, fits); } else { ByDigit(src, p, spaced, last, fits); }
  }

  lemma PieceReads(src: string, p: nat, x: Piece, rest: string, spaced: bool, last: TokenKind, fits: string -> bool)
    requires Here(src, p, x, rest, fits) && SignsAgree(x, rest, !spaced && After(last))
    ensures ReadAt(src, p, x, spaced, last, fits)
  {
    hide *;
    if x.Name? {
      NamePiece(src, p, x.word, rest, spaced, last, fits);
    } else if x.Keyword? {
      KeywordPiece(src, p, x.word, rest, spaced, last, fits);
    } else if x.Sharp? {
      SharpPiece(src, p, x.word, rest, spaced, last, fits);
    } else if x.SharpKeys? {
      SharpKeysPiece(src, p, x.words, rest, spaced, last, fits);
    } else if x.SharpOp? {
      SharpOpPiece(src, p, x.op, rest, spaced, last, fits);
    } else if x.Quotation? {
      QuotationPiece(src, p, x.text, rest, spaced, last, fits);
    } else if x.Operator? {
      OperatorPiece(src, p, x.op, rest, spaced, last, fits);
    } else if x.Numeral? {
      NumeralPiece(src, p, x.negative, x.digits, rest, spaced, last, fits);
    } else if x.Fraction? {
      FractionPiece(src, p, x.negative, x.digits, x.part, rest, spaced, last, fits);
    } else {
      ShortPiece(src, p, x, rest, spaced, last, fits);
    }
  }

  // ----- The whole source -----

  lemma PieceSolid(x: Piece, rest: string, fits: string -> bool)
    requires IsPiece(x, fits)
    ensures Spelled(x) != "" && Solid(Spelled(x) + rest)
  {
    hide Quoting;
    if x.Operator? { OpsRun(x.op[0]); OpIsSolid(x.op[0]); hide IsOp; }
  }

  lemma OpIsSolid(c: char)
    requires IsOp(c)
    ensures !IsSpace(c) && c != DOUBLE_QUOTE
  {
  }

  lemma MeantAfter(x: Piece, fits: string -> bool)
    requires IsPiece(x, fits)
    ensures After(Meant(x).kind) == Operand(x)
  {
    hide IsOp, Spelled, IsName;
  }

  lemma {:induction false} ReadsOn(t: Text, n: nat, pos: nat, last: TokenKind, pieces: seq<Spaced>, tail: seq<Filler>)
    requires Stands(t, n, pos, last) && pos <= |t.src| && t.src[pos..] == Written(pieces, tail)
    requires Readable(pieces, tail, After(last), t.fits)
    ensures forall i {:trigger pieces[i]} :: 0 <= i < |pieces| ==> Shows(t, n + i, Meant(pieces[i].piece))
    ensures NthToken(t, n + |pieces|).kind == END_OF_FILE
    decreases |pieces|
  {
    hide LexemeAt, Meant, IsPiece, Apart, Skip, After, Operand, GapText, Spelled, PlaceAfter, Shows, NthToken, IsGap;
    if pieces == [] {
      TailEnds(t, n, pos, last, tail);
    } else {
      var Spaced(gap, x) := pieces[0];
      var rest := Written(pieces[1..], tail);
      var at := ReadsOne(t, n, pos, last, gap, x, rest);
      MeantAfter(x, t.fits);
      ReadsOn(t, n + 1, at, Meant(x).kind, pieces[1..], tail);
      forall i {:trigger pieces[i]} | 0 <= i < |pieces| ensures Shows(t, n + i, Meant(pieces[i].piece)) {
        if i != 0 { assert pieces[i] == pieces[1..][i - 1] && n + 1 + (i - 1) == n + i; }
      }
    }
  }

  lemma TailEnds(t: Text, n: nat, pos: nat, last: TokenKind, tail: seq<Filler>)
    requires Stands(t, n, pos, last) && pos <= |t.src| && t.src[pos..] == GapText(tail) && IsGap(tail)
    ensures NthToken(t, n).kind == END_OF_FILE
  {
    assert GapText(tail) == GapText(tail) + "";
    SkipsGap(t.src, pos, tail, "");
    hide Skip, GapText;
    Cut(t.src, pos, GapText(tail), "");
    assert Lex(t, Place(pos, last)).0.kind == END_OF_FILE;
  }

  lemma ReadsOne(t: Text, n: nat, pos: nat, last: TokenKind, gap: seq<Filler>, x: Piece, rest: string) returns (end: nat)
    requires Stands(t, n, pos, last) && pos <= |t.src| && t.src[pos..] == GapText(gap) + (Spelled(x) + rest)
    requires IsGap(gap) && IsPiece(x, t.fits) && Apart(x, rest) && SignsAgree(x, rest, After(last) && gap == [])
    ensures Shows(t, n, Meant(x)) && end <= |t.src| && Stands(t, n + 1, end, Meant(x).kind) && t.src[end..] == rest
  {
    hide Skip, LexemeAt, Meant, IsPiece, Apart, GapText, Spelled, Solid, IsGap, After, SignsAgree, Shows, Stands;
    GapReads(t.src, pos, gap, x, rest, t.fits);
    end := ReadsHere(t, n, pos, last, pos + |GapText(gap)|, x, rest, After(last) && gap == []);
  }

  lemma GapReads(src: string, pos: nat, gap: seq<Filler>, x: Piece, rest: string, fits: string -> bool)
    requires pos <= |src| && src[pos..] == GapText(gap) + (Spelled(x) + rest) && IsGap(gap) && IsPiece(x, fits)
    ensures var at := pos + |GapText(gap)|;
      at < |src| && Skip(src, pos) == Gap(at, None) && src[at..] == Spelled(x) + rest && (gap == [] <==> at == pos)
  {
    PieceSolid(x, rest, fits);
    SkipsGap(src, pos, gap, Spelled(x) + rest);
    assert gap == [] ==> GapText(gap) == "";
    if gap != [] { GapSplit(gap, ""); }
    hide Skip, IsPiece, GapText, Spelled, Solid, IsGap;
    Cut(src, pos, GapText(gap), Spelled(x) + rest);
  }

  lemma ReadsHere(t: Text, n: nat, pos: nat, last: TokenKind, at: nat, x: Piece, rest: string, glued: bool) returns (end: nat)
    requires Stands(t, n, pos, last) && pos <= at < |t.src| && Skip(t.src, pos) == Gap(at, None) && t.src[at..] == Spelled(x) + rest
    requires IsPiece(x, t.fits) && Apart(x, rest) && glued == (After(last) && at == pos) && SignsAgree(x, rest, glued)
    ensures Shows(t, n, Meant(x)) && end <= |t.src| && Stands(t, n + 1, end, Meant(x).kind) && t.src[end..] == rest
  {
    hide Skip, LexemeAt, Meant, IsPiece, Apart, Spelled, After, SignsAgree, Shows, Stands;
    Cut(t.src, at, Spelled(x), rest);
    PieceReads(t.src, at, x, rest, at != pos, last, t.fits);
    Next(t, n, pos, last, at, LexemeAt(t.src, at, at != pos, last, t.fits));
    end := at + |Spelled(x)|;
    assert Meant(x) == Shown(Meant(x).kind, Meant(x).text);
  }

  function Source(src: string, fits: string -> bool): Text { Text(src, StartOf(src), fits) }

  /** The tokens of a source are these, in this order, and then it ends. */
  ghost predicate Gives(src: string, fits: string -> bool, shown: seq<Shown>) {
    && (forall i {:trigger shown[i]} :: 0 <= i < |shown| ==> Shows(Source(src, fits), i, shown[i]))
    && NthToken(Source(src, fits), |shown|).kind == END_OF_FILE
  }

  function Meanings(pieces: seq<Spaced>): seq<Shown> { seq(|pieces|, i requires 0 <= i < |pieces| => Meant(pieces[i].piece)) }

  /** Whatever is written so that its pieces can be told apart is read back piece by piece. */
  lemma WrittenReadsBack(pieces: seq<Spaced>, tail: seq<Filler>, fits: string -> bool)
    requires Readable(pieces, tail, false, fits)
    ensures Gives(Written(pieces, tail), fits, Meanings(pieces))
  {
    var src := Written(pieces, tail);
    var t := Source(src, fits);
    hide *;
    NoInterpreterLine(pieces, tail, fits);
    Starting(src, fits);
    ReadsOn(t, 0, 0, END_OF_FILE, pieces, tail);
    MeaningsGiven(src, fits, pieces);
  }

  lemma Starting(src: string, fits: string -> bool)
    requires StartOf(src) == 0
    ensures var t := Source(src, fits); Stands(t, 0, 0, END_OF_FILE) && t.src == src && t.src[0..] == src && t.fits == fits
    ensures !After(END_OF_FILE)
  {
  }

  lemma MeaningsGiven(src: string, fits: string -> bool, pieces: seq<Spaced>)
    requires forall i {:trigger pieces[i]} :: 0 <= i < |pieces| ==> Shows(Source(src, fits), 0 + i, Meant(pieces[i].piece))
    requires NthToken(Source(src, fits), 0 + |pieces|).kind == END_OF_FILE
    ensures Gives(src, fits, Meanings(pieces))
  {
    hide Shows, Meant, NthToken, StartOf;
    forall i {:trigger Meanings(pieces)[i]} | 0 <= i < |pieces| ensures Shows(Source(src, fits), i, Meanings(pieces)[i]) {
      var x := pieces[i];
      assert 0 + i == i;
    }
  }

  lemma NoInterpreterLine(pieces: seq<Spaced>, tail: seq<Filler>, fits: string -> bool)
    requires Readable(pieces, tail, false, fits)
    ensures StartOf(Written(pieces, tail)) == 0
  {
    if pieces == [] {
      GapStarts(tail);
    } else {
      var Spaced(gap, x) := pieces[0];
      var rest := Written(pieces[1..], tail);
      assert Written(pieces, tail) == GapText(gap) + (Spelled(x) + rest) && IsPiece(x, fits) && IsGap(gap);
      hide Written, Readable, IsPiece, Spelled, IsGap, GapText;
      GapStarts(gap);
      PieceStarts(x, rest, fits);
      StartBehind(GapText(gap), Spelled(x) + rest);
    }
  }

  lemma StartBehind(gap: string, s: string)
    requires |s| < 2 || s[..2] != "#!"
    requires gap != "" ==> gap[0] != '#'
    ensures StartOf(gap + s) == 0
  {
    if gap == "" { assert gap + s == s; } else { assert (gap + s)[0] == gap[0]; }
  }

  lemma GapStarts(gap: seq<Filler>)
    requires IsGap(gap)
    ensures if gap == [] then GapText(gap) == "" else GapText(gap) != "" && GapText(gap)[0] != '#'
  {
    if gap != [] { assert GapText(gap)[0] == FillerText(gap[0])[0]; }
  }

  lemma PieceStarts(x: Piece, rest: string, fits: string -> bool)
    requires IsPiece(x, fits)
    ensures var s := Spelled(x) + rest; |s| < 2 || s[..2] != "#!"
  {
    SharpFirst(x, fits);
    var w := Spelled(x);
    var s := w + rest;
    hide Spelled, IsPiece;
    assert s[0] == w[0] && (|w| > 1 ==> s[1] == w[1]);
    assert |s| >= 2 ==> s[..2][0] == s[0] && s[..2][1] == s[1];
  }

  lemma SharpFirst(x: Piece, fits: string -> bool)
    requires IsPiece(x, fits)
    ensures var w := Spelled(x); w != "" && (w[0] == '#' ==> |w| > 1 && w[1] != '!')
  {
    hide Quoting, IsOp;
    if x.Operator? {
      OpStarts(x.op[0]);
    } else if x.Sharp? {
      assert Spelled(x)[1] == x.word[0];
    } else if x.SharpKeys? {
      FirstOfName(x.words[0]);
      assert Spelled(x)[1] == x.words[0][0];
    } else if x.SharpOp? {
      assert Spelled(x)[1] == x.op[0];
    } else if x.Name? || x.Keyword? {
      assert Spelled(x)[0] == x.word[0];
    }
  }

  lemma OpStarts(c: char)
    requires IsOp(c)
    ensures c != '#'
  {
  }

  /** What tokenize answers for a source whose tokens are known. */
  method TokensOf(src: string, fits: string -> bool, ghost shown: seq<Shown>) returns (all: seq<Token>)
    requires Gives(src, fits, shown) && forall i :: 0 <= i < |shown| ==> shown[i].kind != END_OF_FILE
    ensures |all| == |shown| + 1 && all[|shown|].kind == END_OF_FILE
    ensures forall i :: 0 <= i < |shown| ==> all[i].kind == shown[i].kind && all[i].text == shown[i].text
  {
    hide NthToken;
    var lexer := new Lexer(src, fits);
    all := lexer.Tokenize();
    ghost var t := Source(src, fits);
    forall i | 0 <= i < |all| ensures all[i] == NthToken(t, i) { TokensAt(t, 0, |all|, i); }
    assert forall i :: 0 <= i < |shown| ==> NthToken(t, i).kind == shown[i].kind;
    assert forall i :: 0 <= i < |all| ==> all[i].kind == NthToken(t, i).kind;
    assert |all| - 1 == |shown|;
  }

  // ----- The two readings of `-` -----

  /** Only a symbol of one operator character takes the `-` for its own: `#+-5`. */
  lemma OnlyShortSymbolsGoOn(x: Piece, d: string)
    ensures Apart(x, "-" + d) <==> !(x.SharpOp? && |x.op| != 2)
  {
    hide IsOp;
    assert ("-" + d)[0] == '-';
    OpsRun('-');
    SharpOpIs('-');
  }

  /** Glued to what ends an operand a `-` subtracts; a gap makes it the sign of a literal. */
  lemma MinusAfterOperand(x: Piece, d: string, gap: seq<Filler>, fits: string -> bool)
    requires IsPiece(x, fits) && Operand(x) && Digits(d) && IsGap(gap) && gap != []
    ensures Apart(x, "-" + d) ==> Gives(Spelled(x) + ("-" + d), fits, [Meant(x), Shown(BINARY_OP, "-"), Shown(INTEGER, d)])
    ensures Gives(Spelled(x) + (GapText(gap) + ("-" + d)), fits, [Meant(x), Shown(INTEGER, "-" + d)])
  {
    if Apart(x, "-" + d) { MinusGlued(x, d, fits); }
    MinusSpaced(x, gap, d, fits);
  }

  lemma Before(gap: seq<Filler>, x: Piece, pieces: seq<Spaced>, operand: bool, fits: string -> bool)
    requires Readable(pieces, [], Operand(x), fits)
    requires IsGap(gap) && IsPiece(x, fits) && Apart(x, Written(pieces, [])) && SignsAgree(x, Written(pieces, []), operand && gap == [])
    ensures Readable([Spaced(gap, x)] + pieces, [], operand, fits)
    ensures Written([Spaced(gap, x)] + pieces, []) == GapText(gap) + (Spelled(x) + Written(pieces, []))
  {
    assert ([Spaced(gap, x)] + pieces)[1..] == pieces;
    hide IsPiece, Apart, SignsAgree, GapText, Spelled, Operand, IsGap;
  }

  lemma ApartFromMinus(x: Piece, gap: seq<Filler>, s: string, operand: bool)
    requires IsGap(gap) && (gap == [] ==> s != "" && s[0] == '-' && Apart(x, s)) && (Negative(x) ==> !operand)
    ensures Apart(x, GapText(gap) + s) && SignsAgree(x, GapText(gap) + s, operand)
  {
    if gap == [] {
      assert GapText(gap) + s == s;
    } else {
      GapStarts(gap);
      var rest := GapText(gap) + s;
      assert rest[0] == GapText(gap)[0] == FillerText(gap[0])[0];
      assert rest[0] in " \t\n\r" || rest[0] == DOUBLE_QUOTE;
      hide GapText;
    }
  }

  lemma LastNumeral(gap: seq<Filler>, negative: bool, d: string, operand: bool, fits: string -> bool)
    requires IsGap(gap) && Digits(d) && (negative ==> !(operand && gap == []))
    ensures Readable([Spaced(gap, Numeral(negative, d))], [], operand, fits)
    ensures Written([Spaced(gap, Numeral(negative, d))], []) == GapText(gap) + Minused(negative, d)
  {
    var x := Numeral(negative, d);
    Before(gap, x, [], operand, fits);
    assert [Spaced(gap, x)] + [] == [Spaced(gap, x)];
    assert Spelled(x) + "" == Minused(negative, d);
  }

  lemma MinusGlued(x: Piece, d: string, fits: string -> bool)
    requires IsPiece(x, fits) && Operand(x) && Digits(d) && Apart(x, "-" + d)
    ensures Gives(Spelled(x) + ("-" + d), fits, [Meant(x), Shown(BINARY_OP, "-"), Shown(INTEGER, d)])
  {
    var m, n := Spaced([], Minus), Spaced([], Numeral(false, d));
    MinusThenDigits(d, fits);
    NoGap("-" + d);
    hide Written, Readable, IsPiece, Spelled, Operand, Digits, Gives, Meant, Apart, SignsAgree;
    ApartFromMinus(x, [], "-" + d, false);
    Before([], x, [m] + [n], false, fits);
    var pieces := [Spaced([], x)] + ([m] + [n]);
    WrittenReadsBack(pieces, [], fits);
    ThreeMeanings(x, d);
    assert Written(pieces, []) == GapText([]) + (Spelled(x) + ("-" + d));
    NoGap(Spelled(x) + ("-" + d));
  }

  lemma MinusThenDigits(d: string, fits: string -> bool)
    requires Digits(d)
    ensures var two := [Spaced([], Minus)] + [Spaced([], Numeral(false, d))];
      Readable(two, [], true, fits) && Written(two, []) == "-" + d
  {
    LastNumeral([], false, d, false, fits);
    assert GapText([]) + d == d;
    Before([], Minus, [Spaced([], Numeral(false, d))], true, fits);
  }

  lemma ThreeMeanings(x: Piece, d: string)
    ensures Meanings([Spaced([], x)] + ([Spaced([], Minus)] + [Spaced([], Numeral(false, d))]))
         == [Meant(x), Shown(BINARY_OP, "-"), Shown(INTEGER, d)]
  {
    var pieces := [Spaced([], x)] + ([Spaced([], Minus)] + [Spaced([], Numeral(false, d))]);
    assert pieces[0].piece == x && pieces[1].piece == Minus && pieces[2].piece == Numeral(false, d);
    assert Meant(Minus) == Shown(BINARY_OP, "-") && Meant(Numeral(false, d)) == Shown(INTEGER, d);
    hide Meant;
  }

  lemma MinusSpaced(x: Piece, gap: seq<Filler>, d: string, fits: string -> bool)
    requires IsPiece(x, fits) && Digits(d) && IsGap(gap) && (gap == [] ==> !Operand(x))
    ensures Gives(Spelled(x) + (GapText(gap) + ("-" + d)), fits, [Meant(x), Shown(INTEGER, "-" + d)])
  {
    var pieces := [Spaced([], x)] + [Spaced(gap, Numeral(true, d))];
    TwoWritten(x, gap, d, fits);
    hide Written, Readable, IsPiece, Spelled, Operand, Digits, Gives, Meant, Meanings, GapText, IsGap;
    WrittenReadsBack(pieces, [], fits);
    TwoMeanings([], x, gap, d);
  }

  lemma NotOperandApart(x: Piece, d: string)
    requires !Operand(x)
    ensures Apart(x, "-" + d)
  {
    OnlyShortSymbolsGoOn(x, d);
    hide Apart;
  }

  lemma TwoWritten(x: Piece, gap: seq<Filler>, d: string, fits: string -> bool)
    requires IsPiece(x, fits) && Digits(d) && IsGap(gap) && (gap == [] ==> !Operand(x))
    ensures var pieces := [Spaced([], x)] + [Spaced(gap, Numeral(true, d))];
      Readable(pieces, [], false, fits) && Written(pieces, []) == Spelled(x) + (GapText(gap) + ("-" + d))
  {
    LastNumeral(gap, true, d, Operand(x), fits);
    hide Written, Readable, IsPiece, Spelled, Digits, Apart, SignsAgree, Operand;
    if gap == [] { NotOperandApart(x, d); }
    ApartFromMinus(x, gap, "-" + d, false);
    Before([], x, [Spaced(gap, Numeral(true, d))], false, fits);
    assert GapText([]) + (Spelled(x) + (GapText(gap) + ("-" + d))) == Spelled(x) + (GapText(gap) + ("-" + d));
  }

  lemma TwoMeanings(before: seq<Filler>, x: Piece, gap: seq<Filler>, d: string)
    ensures Meanings([Spaced(before, x)] + [Spaced(gap, Numeral(true, d))]) == [Meant(x), Shown(INTEGER, "-" + d)]
  {
    var pieces := [Spaced(before, x)] + [Spaced(gap, Numeral(true, d))];
    assert pieces[0].piece == x && pieces[1].piece == Numeral(true, d);
    assert Meant(Numeral(true, d)) == Shown(INTEGER, "-" + d);
    hide Meant;
  }

  /** After anything else, and at the start, it is a sign, glued or not. */
  lemma SignElsewhere(x: Piece, d: string, gap: seq<Filler>, fits: string -> bool)
    requires IsPiece(x, fits) && !Operand(x) && Digits(d) && IsGap(gap)
    ensures Gives(Spelled(x) + (GapText(gap) + ("-" + d)), fits, [Meant(x), Shown(INTEGER, "-" + d)])
    ensures Gives(GapText(gap) + ("-" + d), fits, [Shown(INTEGER, "-" + d)])
  {
    MinusSpaced(x, gap, d, fits);
    LastNumeral(gap, true, d, false, fits);
    var pieces := [Spaced(gap, Numeral(true, d))];
    WrittenReadsBack(pieces, [], fits);
    assert Meanings(pieces) == [Shown(INTEGER, "-" + d)];
  }

  // ----- What digits are worth, and where a place is -----

  function Worth(d: string): nat {
    if d == "" then 0 else Worth(d[..|d| - 1]) * 10 + match d[|d| - 1]
      case '1' => 1 case '2' => 2 case '3' => 3 case '4' => 4 case '5' => 5
      case '6' => 6 case '7' => 7 case '8' => 8 case '9' => 9 case _ => 0
  }

  lemma {:induction false} DigitsAreWorth(d: string)
    requires forall i :: 0 <= i < |d| ==> Digit(d[i])
    ensures ValueIn(d, 10) == Worth(d)
  {
    if d != "" { DigitsAreWorth(d[..|d| - 1]); }
  }

  /** The digit worth `v`, in either case. */
  function DigitFor(v: nat, small: bool): char
    requires v < 36
  {
    if v < 10 then ('0' as int + v) as char else ((if small then 'a' else 'A') as int + (v - 10)) as char
  }

  lemma DigitsWorth(v: nat, small: bool, base: nat)
    requires v < 36
    ensures DigitOf(DigitFor(v, small)) == v && (InBase(DigitFor(v, small), base) <==> v < base)
  {
  }

  lemma {:induction false} LinesCounted(src: string, p: nat)
    requires p <= |src|
    ensures LineAt(src, p) == 1 + multiset(src[..p])['\n']
  {
    if p > 0 {
      LinesCounted(src, p - 1);
      assert src[..p] == src[..p - 1] + [src[p - 1]];
    }
  }

  /** The column is the place's distance from the start or the last line end, whichever is nearer. */
  lemma {:induction false} ColumnsCounted(src: string, start: nat, p: nat, from: nat)
    requires start <= from <= p <= |src| && (from == start || src[from - 1] == '\n')
    requires forall i :: from <= i < p ==> src[i] != '\n'
    ensures ColumnAt(src, start, p) == p - from + 1
  {
    if from < p { ColumnsCounted(src, start, p - 1, from); }
  }
}
