/** The lexer: character loops over a source, a queue of tokens lexed ahead, and the negative literals that
    depend on the token before. A source is a string of bytes, one `char` each. */
module Lexer {

  datatype Option<T> = None | Some(value: T)

  datatype TokenKind =
    | INTEGER | FLOAT | STRING | CHAR | SYMBOL | TRUE | FALSE | NIL
    | IDENTIFIER | KEYWORD | BINARY_OP
    | L_PAREN | R_PAREN | L_BRACKET | R_BRACKET | L_BRACE | R_BRACE | HASH_L_PAREN
    | PIPE | PERIOD | SEMICOLON | CARET | ASSIGN | COLON | GT_GT
    | END_OF_FILE | ERROR

  /** `value` is an integer literal's value unless it is `large`: then `text` is its digits in base `radix`. */
  datatype Token = Token(kind: TokenKind, text: string, value: int, large: bool, radix: nat,
                         line: nat, column: int, blankLineBefore: bool)

  // ----- Characters -----

  const QUOTE := 39 as char
  const DOUBLE_QUOTE := 34 as char

  predicate IsSpace(c: char) { c in " \t\n\r" || c as int == 11 || c as int == 12 }

  predicate IsDigit(c: char) { '0' <= c <= '9' }

  predicate IsAlpha(c: char) { 'a' <= c <= 'z' || 'A' <= c <= 'Z' }

  predicate IsWord(c: char) { IsAlpha(c) || IsDigit(c) || c == '_' }

  predicate IsOperator(c: char) { c in "+*/\\&,@=~<>%?!-" }

  predicate InRun(c: char) { IsOperator(c) && c != '-' }

  predicate InSymbol(c: char) { c in "+-*/=~<>&|@," }

  predicate InComment(c: char) { c != DOUBLE_QUOTE }

  function Upper(c: char): char { if 'a' <= c <= 'z' then (c as int - 32) as char else c }

  function DigitOf(c: char): nat {
    if IsDigit(c) then c as int - '0' as int
    else if IsAlpha(c) then Upper(c) as int - 'A' as int + 10
    else 99
  }

  predicate InBase(c: char, base: nat) { DigitOf(c) < base }

  function InDigits(base: nat): char -> bool { c => InBase(c, base) }

  /** The first place from `p` on whose character is none of those. */
  function Span(src: string, p: nat, f: char -> bool): (e: nat)
    requires p <= |src|
    ensures p <= e <= |src| && (e < |src| ==> !f(src[e])) && forall i | p <= i < e :: f(src[i])
    decreases |src| - p
  {
    if p < |src| && f(src[p]) then Span(src, p + 1, f) else p
  }

  /** The character at a place, or NUL behind the end. */
  function CharAt(src: string, p: nat): char { if p < |src| then src[p] else '\0' }

  // ----- Lines and columns -----

  function LineAt(src: string, p: nat): (n: nat)
    requires p <= |src|
    ensures n >= 1
  {
    if p == 0 then 1 else LineAt(src, p - 1) + if src[p - 1] == '\n' then 1 else 0
  }

  /** Counted from `start`, which is column 1. */
  function ColumnAt(src: string, start: nat, p: nat): (n: nat)
    requires p <= |src|
  {
    if p <= start || src[p - 1] == '\n' then 1 else ColumnAt(src, start, p - 1) + 1
  }

  // ----- What stands between tokens -----

  /** Where the next token starts, or the comment that never ends. */
  datatype Gap = Gap(end: nat, open: Option<nat>)

  function Skip(src: string, p: nat): (g: Gap)
    requires p <= |src|
    ensures p <= g.end <= |src|
    ensures g.open.Some? ==> p <= g.open.value < g.end == |src|
    ensures g.open == None && g.end < |src| ==> !IsSpace(src[g.end]) && src[g.end] != DOUBLE_QUOTE
    decreases |src| - p
  {
    if p == |src| then Gap(p, None)
    else if IsSpace(src[p]) then Skip(src, p + 1)
    else if src[p] != DOUBLE_QUOTE then Gap(p, None)
    else
      var q := Span(src, p + 1, InComment);
      if q < |src| then Skip(src, q + 1) else Gap(|src|, Some(p))
  }

  /** Whether place `i` is inside a comment, when `from` is not. */
  function Commented(src: string, from: nat, i: nat): bool
    requires i <= |src|
  {
    if i <= from then false else Commented(src, from, i - 1) != (src[i - 1] == DOUBLE_QUOTE)
  }

  /** Two line ends with nothing but white space between them, the first outside any comment. */
  ghost predicate HasBlankLine(src: string, from: nat, to: nat)
    requires to <= |src|
  {
    exists a, b | from <= a < b < to :: IsBlankLine(src, from, a, b)
  }

  ghost predicate IsBlankLine(src: string, from: nat, a: nat, b: nat)
    requires a < b < |src|
  {
    src[a] == '\n' && src[b] == '\n' && !Commented(src, from, a) && forall i | a < i < b :: IsSpace(src[i])
  }

  // ----- One token -----

  /** A token without its place, and where it ends. */
  datatype Lexeme = Lexeme(kind: TokenKind, text: string, value: int, large: bool, radix: nat, end: nat)

  function Plain(kind: TokenKind, text: string, end: nat): Lexeme { Lexeme(kind, text, 0, false, 10, end) }

  function Word(src: string, p: nat): (x: Lexeme)
    requires p < |src| && IsWord(src[p])
    ensures p < x.end <= |src| && x.kind !in {END_OF_FILE, ERROR}
  {
    var e := Span(src, p, IsWord);
    var text := src[p..e];
    if CharAt(src, e) == ':' && e < |src| && CharAt(src, e + 1) != '=' then Plain(KEYWORD, src[p..e + 1], e + 1)
    else Plain(if text == "true" then TRUE else if text == "false" then FALSE else if text == "nil" then NIL else IDENTIFIER, text, e)
  }

  const MAX_INT := 2147483647
  const MAX_LONG := 9223372036854775807
  const MAX_EXPONENT := 400

  function ValueIn(digits: string, base: nat): nat {
    if digits == "" then 0 else ValueIn(digits[..|digits| - 1], base) * base + DigitOf(digits[|digits| - 1])
  }

  function Signed(negative: bool, n: nat): int { if negative then 0 - n else n }

  function Sign(negative: bool): string { if negative then "-" else "" }

  function Uppers(s: string): string { seq(|s|, i requires 0 <= i < |s| => Upper(s[i])) }

  function Zeros(n: nat): string { seq(n, i => '0') }

  /** A radix literal with digits `rd`: too large ones keep their digits. */
  function Radix(negative: bool, digits: string, base: nat, rd: string, end: nat): (x: Lexeme)
    ensures x.end == end && x.kind == INTEGER
  {
    if ValueIn(rd, base) <= MAX_LONG
    then Lexeme(INTEGER, Sign(negative) + digits + "r" + rd, Signed(negative, ValueIn(rd, base)), false, 10, end)
    else Lexeme(INTEGER, Sign(negative) + rd, 0, true, base, end)
  }

  function Decimal(negative: bool, digits: string, end: nat): Lexeme {
    var v := Signed(negative, ValueIn(digits, 10));
    if -MAX_LONG - 1 <= v <= MAX_LONG then Lexeme(INTEGER, Sign(negative) + digits, v, false, 10, end)
    else Lexeme(INTEGER, Sign(negative) + digits, 0, true, 10, end)
  }

  /** An exponent that no int holds counts as the largest one allowed. */
  function ExponentOf(text: string): nat {
    if ValueIn(text, 10) <= MAX_INT then ValueIn(text, 10) else MAX_EXPONENT
  }

  function BaseAt(src: string, p: nat, d: nat): nat
    requires p <= d <= |src|
  {
    if ValueIn(src[p..d], 10) <= MAX_INT then ValueIn(src[p..d], 10) else 0
  }

  predicate IsRadix(src: string, p: nat, d: nat)
    requires p <= d <= |src|
  {
    d + 1 < |src| && src[d] == 'r' && 2 <= BaseAt(src, p, d) <= 36 && InBase(src[d + 1], BaseAt(src, p, d))
  }

  /** Where the digits of a fraction at `d` end, or `d`. */
  function FractionEnd(src: string, d: nat): (f: nat)
    requires d <= |src|
    ensures d <= f <= |src| && (f > d ==> d + 1 < f)
  {
    if d + 1 < |src| && src[d] == '.' && IsDigit(src[d + 1]) then Span(src, d + 1, IsDigit) else d
  }

  /** The first digit of an exponent at `f`, if there is one. */
  function ExponentAt(src: string, f: nat): (x: Option<nat>)
    requires f <= |src|
    ensures x.Some? ==> f < x.value < |src|
  {
    if f + 1 < |src| && src[f] == 'e' then
      var first := if src[f + 1] == '-' then f + 2 else f + 1;
      if first < |src| && IsDigit(src[first]) then Some(first) else None
    else None
  }

  /** An integer mantissa with an exponent that is not negative is an Integer; `frac` begins with its point. */
  function Unradixed(negative: bool, digits: string, frac: string, exponent: string, end: nat, fits: string -> bool): (x: Lexeme)
    ensures x.end == end && x.kind in {INTEGER, FLOAT, ERROR}
  {
    if frac == "" && exponent != "" && exponent[0] != '-' then
      var e := ExponentOf(exponent);
      if e > MAX_EXPONENT then Plain(ERROR, "integer literal exponent too large", end)
      else Decimal(negative, digits + Zeros(e), end)
    else if frac != "" || exponent != "" then
      var text := Sign(negative) + digits + frac + if exponent == "" then "" else "e" + exponent;
      if fits(text) then Plain(FLOAT, text, end) else Plain(ERROR, "float literal out of range", end)
    else Decimal(negative, digits, end)
  }

  /** The radix literal whose base ends at `d`. */
  function RadixAt(src: string, p: nat, d: nat, negative: bool): (x: Lexeme)
    requires p <= d <= |src| && IsRadix(src, p, d)
    ensures d < x.end <= |src| && x.kind == INTEGER
  {
    var base := BaseAt(src, p, d);
    var e := Span(src, d + 1, InDigits(base));
    Radix(negative, src[p..d], base, Uppers(src[d + 1..e]), e)
  }

  /** Any other literal whose integer digits end at `d`. */
  function UnradixedAt(src: string, p: nat, d: nat, negative: bool, fits: string -> bool): (x: Lexeme)
    requires p <= d <= |src|
    ensures d <= x.end <= |src| && x.kind in {INTEGER, FLOAT, ERROR}
  {
    var f := FractionEnd(src, d);
    var at := ExponentAt(src, f);
    var e := if at.Some? then Span(src, at.value, IsDigit) else f;
    Unradixed(negative, src[p..d], src[d..f], if at.Some? then src[f + 1..e] else "", e, fits)
  }

  /** `fits` says which texts of a Float are in the machine's range. */
  function Number(src: string, p: nat, negative: bool, fits: string -> bool): (x: Lexeme)
    requires p < |src| && IsDigit(src[p])
    ensures p < x.end <= |src| && x.kind in {INTEGER, FLOAT, ERROR}
  {
    var d := Span(src, p, IsDigit);
    if IsRadix(src, p, d) then RadixAt(src, p, d, negative) else UnradixedAt(src, p, d, negative, fits)
  }

  /** The text of a string from behind its opening quote on, and where it ends. */
  function Quoted(src: string, p: nat, out: string): (r: Option<(string, nat)>)
    requires p <= |src|
    ensures r.Some? ==> p < r.value.1 <= |src|
    decreases |src| - p
  {
    if p == |src| then None
    else if src[p] != QUOTE then Quoted(src, p + 1, out + [src[p]])
    else if CharAt(src, p + 1) == QUOTE && p + 1 < |src| then Quoted(src, p + 2, out + "'")
    else Some((out, p + 1))
  }

  /** Where the `name:` segments from `p` on end. */
  function Chain(src: string, p: nat): (e: nat)
    requires p <= |src|
    ensures p <= e <= |src|
    decreases |src| - p
  {
    if p < |src| && src[p] == ':' && CharAt(src, p + 1) != '=' then Chain(src, Span(src, p + 1, IsWord)) else p
  }

  function Symbol(src: string, p: nat): (x: Lexeme)
    requires p < |src| && src[p] == '#'
    ensures p < x.end <= |src| && x.kind in {SYMBOL, ERROR}
  {
    var q := p + 1;
    if q == |src| then Plain(ERROR, "incomplete symbol", q)
    else if IsAlpha(src[q]) || src[q] == '_' then
      var e := Chain(src, Span(src, q, IsWord));
      Plain(SYMBOL, src[q..e], e)
    else if InSymbol(src[q]) then
      var e := if q + 1 < |src| && InSymbol(src[q + 1]) then q + 2 else q + 1;
      Plain(SYMBOL, src[q..e], e)
    else Plain(ERROR, "malformed symbol literal", q)
  }

  function Run(src: string, p: nat): (x: Lexeme)
    requires p < |src| && InRun(src[p])
    ensures p < x.end <= |src| && x.kind in {BINARY_OP, GT_GT, ERROR}
  {
    var e := Span(src, p, InRun);
    var op := src[p..e];
    if op == ">>" then Plain(GT_GT, op, e)
    else if op == "\\" || op == "~" then Plain(ERROR, "unexpected '" + op + "'", e)
    else Plain(BINARY_OP, op, e)
  }

  function Single(c: char): Option<TokenKind> {
    match c
    case '(' => Some(L_PAREN)
    case ')' => Some(R_PAREN)
    case '[' => Some(L_BRACKET)
    case ']' => Some(R_BRACKET)
    case '{' => Some(L_BRACE)
    case '}' => Some(R_BRACE)
    case '.' => Some(PERIOD)
    case ';' => Some(SEMICOLON)
    case '^' => Some(CARET)
    case '|' => Some(PIPE)
    case _ => None
  }

  /** The tokens after which a `-` glued to them is the operator. */
  predicate EndsOperand(k: TokenKind) {
    k in {INTEGER, FLOAT, STRING, CHAR, SYMBOL, TRUE, FALSE, NIL, IDENTIFIER, R_PAREN, R_BRACKET, R_BRACE}
  }

  /** The token at `p`, given whether something stands before it and what token came last. */
  function LexemeAt(src: string, p: nat, spaceBefore: bool, last: TokenKind, fits: string -> bool): (x: Lexeme)
    requires p < |src|
    ensures p < x.end <= |src| && x.kind != END_OF_FILE
  {
    var c := src[p];
    if IsAlpha(c) || c == '_' then Word(src, p)
    else if IsDigit(c) then Number(src, p, false, fits)
    else if c == '#' then
      if CharAt(src, p + 1) == '(' then Plain(HASH_L_PAREN, "#(", p + 2) else Symbol(src, p)
    else if c == QUOTE then
      var r := Quoted(src, p + 1, "");
      if r.Some? then Plain(STRING, r.value.0, r.value.1) else Plain(ERROR, "unterminated string literal", |src|)
    else if c == '$' then
      if p + 1 < |src| then Plain(CHAR, [src[p + 1]], p + 2) else Plain(ERROR, "unterminated char literal", p + 1)
    else if Single(c).Some? then Plain(Single(c).value, [c], p + 1)
    else if c == '-' then
      if CharAt(src, p + 1) == '>' then Plain(BINARY_OP, "->", p + 2)
      else if IsDigit(CharAt(src, p + 1)) && (!EndsOperand(last) || spaceBefore) then Number(src, p + 1, true, fits)
      else Plain(BINARY_OP, "-", p + 1)
    else if c == ':' then
      if CharAt(src, p + 1) == '=' then Plain(ASSIGN, ":=", p + 2) else Plain(COLON, ":", p + 1)
    else if InRun(c) then Run(src, p)
    else Plain(ERROR, "unexpected character '" + [c] + "'", p + 1)
  }

  /** What the lexer remembers from one token to the next. */
  datatype Place = Place(pos: nat, last: TokenKind)

  datatype Text = Text(src: string, start: nat, fits: string -> bool)

  ghost function TokenFrom(x: Lexeme, t: Text, at: nat, blank: bool): Token
    requires at <= |t.src|
  {
    Token(x.kind, x.text, x.value, x.large, x.radix, LineAt(t.src, at), ColumnAt(t.src, t.start, at), blank)
  }

  /** The lexeme from a place on, and where it starts. */
  function Lex(t: Text, p: Place): (r: (Lexeme, nat))
    requires p.pos <= |t.src|
    ensures p.pos <= r.1 <= |t.src| && r.0.end <= |t.src|
    ensures if r.0.kind == END_OF_FILE then r.0.end == |t.src| else p.pos < r.0.end
  {
    var g := Skip(t.src, p.pos);
    if g.open.Some? then (Plain(ERROR, "unterminated comment (opened here)", |t.src|), g.open.value)
    else if g.end == |t.src| then (Plain(END_OF_FILE, "", g.end), g.end)
    else (LexemeAt(t.src, g.end, g.end != p.pos, p.last, t.fits), g.end)
  }

  ghost function TokenAt(t: Text, p: Place): Token
    requires p.pos <= |t.src|
  {
    var (x, at) := Lex(t, p);
    TokenFrom(x, t, at, HasBlankLine(t.src, p.pos, Skip(t.src, p.pos).end))
  }

  function NextPlace(t: Text, p: Place): (q: Place)
    requires p.pos <= |t.src|
    ensures p.pos <= q.pos <= |t.src|
  {
    var (x, _) := Lex(t, p);
    Place(x.end, x.kind)
  }

  // ----- The stream of tokens -----

  /** Where the lexer is after `n` tokens of a source. */
  function PlaceAfter(t: Text, n: nat): (p: Place)
    requires t.start <= |t.src|
    ensures t.start <= p.pos <= |t.src|
  {
    if n == 0 then Place(t.start, END_OF_FILE) else NextPlace(t, PlaceAfter(t, n - 1))
  }

  ghost function NthToken(t: Text, n: nat): Token
    requires t.start <= |t.src|
  {
    TokenAt(t, PlaceAfter(t, n))
  }

  ghost function Tokens(t: Text, from: nat, n: nat): seq<Token>
    requires t.start <= |t.src|
  {
    if n == 0 then [] else Tokens(t, from, n - 1) + [NthToken(t, from + n - 1)]
  }

  // ----- The lexer -----

  /** Where an interpreter line ends, at its line end. */
  function StartOf(src: string): (p: nat)
    ensures p <= |src|
  {
    if 2 <= |src| && src[..2] == "#!" then Span(src, 0, c => c != '\n') else 0
  }

  lemma {:induction false} OneLine(src: string, p: nat)
    requires p <= |src| && forall i | 0 <= i < p :: src[i] != '\n'
    ensures LineAt(src, p) == 1
  {
    if p != 0 { OneLine(src, p - 1); }
  }

  class Lexer {
    const source: string
    const start: nat
    const fits: string -> bool
    var pos: nat
    var line: nat
    var col: nat
    var queue: seq<Token>
    var blankBefore: bool
    var openComment: Option<(nat, nat)>
    var last: TokenKind

    /** How many tokens the consumer has had. */
    ghost var consumed: nat

    function Input(): Text { Text(source, start, fits) }

    /** The line is one more than the line ends before the place, and the column counts from the last of them. */
    ghost predicate Placed()
      reads this
    {
      && start <= pos <= |source|
      && line == LineAt(source, pos)
      && col == ColumnAt(source, start, pos)
    }

    /** The queue holds the tokens right after those consumed, and the place is behind it. */
    ghost predicate Valid()
      reads this
    {
      && Placed() && openComment == None
      && Place(pos, last) == PlaceAfter(Input(), consumed + |queue|)
      && queue == Tokens(Input(), consumed, |queue|)
    }

    constructor (source: string, fits: string -> bool)
      ensures Valid() && consumed == 0 && Input() == Text(source, StartOf(source), fits)
    {
      this.source, this.fits := source, fits;
      start, pos := StartOf(source), StartOf(source);
      line, col, queue, blankBefore, openComment, last, consumed := 1, 1, [], false, None, END_OF_FILE, 0;
      new;
      OneLine(source, start);
    }

    function Current(): char
      reads this
    {
      CharAt(source, pos)
    }

    function Lookahead(): char
      reads this
    {
      CharAt(source, pos + 1)
    }

    method Advance()
      requires Placed()
      modifies `pos, `line, `col
      ensures Placed() && pos == if old(pos) < |source| then old(pos) + 1 else old(pos)
    {
      if pos >= |source| { return; }
      if source[pos] == '\n' { line, col := line + 1, 1; } else { col := col + 1; }
      pos := pos + 1;
    }

    /** The characters from here on that are among those. */
    method TakeWhile(f: char -> bool) returns (text: string)
      requires Placed()
      modifies `pos, `line, `col
      ensures Placed() && pos == Span(source, old(pos), f) && text == source[old(pos)..pos]
    {
      text := "";
      while pos < |source| && f(source[pos])
        invariant Placed() && old(pos) <= pos && text == source[old(pos)..pos]
        invariant Span(source, pos, f) == Span(source, old(pos), f)
      {
        text := text + [source[pos]];
        Advance();
      }
    }

    function Noted(g: Gap): Option<(nat, nat)>
      requires g.open.Some? ==> g.open.value <= |source|
    {
      if g.open == None then None else Some((LineAt(source, g.open.value), ColumnAt(source, start, g.open.value)))
    }

    method SkipWhitespace()
      requires Placed() && openComment == None
      modifies `pos, `line, `col, `openComment
      ensures Placed() && pos == Skip(source, old(pos)).end && openComment == Noted(Skip(source, old(pos)))
    {
      hide LineAt, ColumnAt;
      ghost var gap := Skip(source, pos);
      while pos < |source|
        invariant Placed() && old(pos) <= pos
        invariant if openComment == None then Skip(source, pos) == gap else pos == gap.end == |source| && openComment == Noted(gap)
        decreases |source| - pos
      {
        if IsSpace(source[pos]) { Advance(); continue; }
        if source[pos] != DOUBLE_QUOTE { break; }
        ghost var quote := pos;
        var commentLine, commentCol := line, col;
        Advance();
        var comment := TakeWhile(InComment);
        assert Skip(source, quote) == if pos < |source| then Skip(source, pos + 1) else Gap(|source|, Some(quote));
        if pos < |source| { Advance(); continue; }
        openComment := Some((commentLine, commentCol));
      }
    }

    method ContainsBlankLine(from: nat, to: nat) returns (found: bool)
      requires from <= to <= |source|
      ensures found == HasBlankLine(source, from, to)
    {
      var sawNewline, lineHasContent, inComment := false, true, false;
      var i: nat := from;
      ghost var a: nat := from;
      while i < to
        invariant from <= i <= to && inComment == Commented(source, from, i)
        invariant !HasBlankLine(source, from, i)
        invariant if sawNewline then LineSoFar(source, from, a, i, lineHasContent) else lineHasContent && NoLineEnd(source, from, i)
      {
        var c := source[i];
        BlankStep(source, from, a, i, sawNewline, lineHasContent);
        if c == DOUBLE_QUOTE {
          inComment, lineHasContent := !inComment, true;
        } else if c == '\n' {
          if sawNewline && !lineHasContent { return true; }
          sawNewline, lineHasContent, a := true, inComment, i;
        } else if inComment || !IsSpace(c) {
          lineHasContent := true;
        }
        i := i + 1;
      }
      found := false;
    }

    ghost predicate IsLexed(x: Lexeme, t: Token, l: nat, c: nat)
      reads this
    {
      t == Token(x.kind, x.text, x.value, x.large, x.radix, l, c, false) && pos == x.end
    }

    static function MakeToken(kind: TokenKind, text: string, line: nat, column: nat): Token {
      Token(kind, text, 0, false, 10, line, column, false)
    }

    method LexIdentifier() returns (t: Token)
      requires Placed() && pos < |source| && IsWord(source[pos])
      modifies `pos, `line, `col
      ensures Placed() && IsLexed(Word(source, old(pos)), t, old(line), old(col))
    {
      var startLine, startCol, startPos := line, col, pos;
      var text := TakeWhile(IsWord);
      if pos < |source| && source[pos] == ':' && (pos + 1 >= |source| || source[pos + 1] != '=') {
        Advance();
        return MakeToken(KEYWORD, source[startPos..pos], startLine, startCol);
      }
      var kind := IDENTIFIER;
      if text == "true" { kind := TRUE; } else if text == "false" { kind := FALSE; } else if text == "nil" { kind := NIL; }
      t := MakeToken(kind, text, startLine, startCol);
    }

    /** The sign, if any, has been consumed. */
    method LexNumber(negative: bool) returns (t: Token)
      requires Placed() && pos < |source| && IsDigit(source[pos]) && (negative ==> col > 1)
      modifies `pos, `line, `col
      ensures Placed() && IsLexed(Number(source, old(pos), negative, fits), t, old(line), if negative then old(col) - 1 else old(col))
    {
      hide LineAt, ColumnAt, IsRadix, RadixAt, UnradixedAt;
      var startLine, startCol := line, if negative then col - 1 else col;
      ghost var p := pos;
      var digits := TakeWhile(IsDigit);
      var radix := LexRadix(negative, digits, p);
      var x: Lexeme;
      if radix.Some? { x := radix.value; } else { x := LexUnradixed(negative, digits, p); }
      t := Token(x.kind, x.text, x.value, x.large, x.radix, startLine, startCol, false);
    }

    method LexRadix(negative: bool, digits: string, ghost p: nat) returns (x: Option<Lexeme>)
      requires Placed() && p <= pos && digits == source[p..pos]
      modifies `pos, `line, `col
      ensures Placed() && if IsRadix(source, p, old(pos)) then x == Some(RadixAt(source, p, old(pos), negative)) && pos == x.value.end
                          else x == None && pos == old(pos)
    {
      hide LineAt, ColumnAt, ValueIn, Uppers, InBase, Radix;
      x := None;
      if pos + 1 < |source| && source[pos] == 'r' {
        var base := if ValueIn(digits, 10) <= MAX_INT then ValueIn(digits, 10) else 0;
        if 2 <= base <= 36 && InBase(source[pos + 1], base) {
          Advance();
          var rd := TakeWhile(InDigits(base));
          x := Some(Radix(negative, digits, base, Uppers(rd), pos));
        }
      }
    }

    method LexUnradixed(negative: bool, digits: string, ghost p: nat) returns (x: Lexeme)
      requires Placed() && p <= pos && digits == source[p..pos]
      modifies `pos, `line, `col
      ensures Placed() && x == UnradixedAt(source, p, old(pos), negative, fits) && pos == x.end
    {
      hide LineAt, ColumnAt, Unradixed, FractionEnd, ExponentAt;
      var frac := LexFraction();
      var exponent := LexExponent();
      x := Unradixed(negative, digits, frac, exponent, pos, fits);
    }

    method LexFraction() returns (frac: string)
      requires Placed()
      modifies `pos, `line, `col
      ensures Placed() && pos == FractionEnd(source, old(pos)) && frac == source[old(pos)..pos]
    {
      frac := "";
      if pos + 1 < |source| && source[pos] == '.' && IsDigit(source[pos + 1]) {
        Advance();
        frac := TakeWhile(IsDigit);
        frac := "." + frac;
      }
    }

    method LexExponent() returns (exponent: string)
      requires Placed()
      modifies `pos, `line, `col
      ensures Placed()
      ensures var at := ExponentAt(source, old(pos));
        && pos == (if at.Some? then Span(source, at.value, IsDigit) else old(pos))
        && exponent == if at.Some? then source[old(pos) + 1..pos] else ""
    {
      hide LineAt, ColumnAt;
      ghost var p := pos;
      exponent := "";
      if pos + 1 < |source| && source[pos] == 'e' {
        var neg := source[pos + 1] == '-';
        var firstDigit := if neg then pos + 2 else pos + 1;
        if firstDigit < |source| && IsDigit(source[firstDigit]) {
          Advance();
          if neg { Advance(); }
          exponent := TakeWhile(IsDigit);
          assert neg ==> source[p + 1..pos] == "-" + source[p + 2..pos];
          exponent := Sign(neg) + exponent;
          assert exponent == source[p + 1..pos];
        }
      }
    }

    method LexString() returns (t: Token)
      requires Placed() && pos < |source|
      modifies `pos, `line, `col
      ensures Placed()
      ensures var r := Quoted(source, old(pos) + 1, "");
        IsLexed(if r.Some? then Plain(STRING, r.value.0, r.value.1) else Plain(ERROR, "unterminated string literal", |source|),
                t, old(line), old(col))
    {
      var startLine, startCol := line, col;
      Advance();
      var out := "";
      while pos < |source|
        invariant Placed() && old(pos) < pos && Quoted(source, pos, out) == Quoted(source, old(pos) + 1, "")
        decreases |source| - pos
      {
        var c := source[pos];
        if c == QUOTE {
          if pos + 1 < |source| && source[pos + 1] == QUOTE {
            out := out + "'";
            Advance();
            Advance();
            continue;
          }
          Advance();
          return MakeToken(STRING, out, startLine, startCol);
        }
        out := out + [c];
        Advance();
      }
      t := MakeToken(ERROR, "unterminated string literal", startLine, startCol);
    }

    method LexChar() returns (t: Token)
      requires Placed() && pos < |source|
      modifies `pos, `line, `col
      ensures Placed()
      ensures var p := old(pos) + 1;
        IsLexed(if p < |source| then Plain(CHAR, [source[p]], p + 1) else Plain(ERROR, "unterminated char literal", p),
                t, old(line), old(col))
    {
      var startLine, startCol := line, col;
      Advance();
      if pos >= |source| { return MakeToken(ERROR, "unterminated char literal", startLine, startCol); }
      t := MakeToken(CHAR, [source[pos]], startLine, startCol);
      Advance();
    }

    method LexChain() returns (out: string)
      requires Placed()
      modifies `pos, `line, `col
      ensures Placed() && pos == Chain(source, Span(source, old(pos), IsWord)) && out == source[old(pos)..pos]
    {
      hide LineAt, ColumnAt;
      ghost var q := pos;
      out := TakeWhile(IsWord);
      while pos < |source| && source[pos] == ':' && (pos + 1 >= |source| || source[pos + 1] != '=')
        invariant Placed() && q <= pos && out == source[q..pos]
        invariant Chain(source, pos) == Chain(source, Span(source, q, IsWord))
        decreases |source| - pos
      {
        ghost var p := pos;
        Advance();
        var word := TakeWhile(IsWord);
        out := out + ":" + word;
        JoinedAt(source, q, p, pos);
      }
    }

    method LexSymbol() returns (t: Token)
      requires Placed() && pos < |source| && source[pos] == '#'
      modifies `pos, `line, `col
      ensures Placed() && IsLexed(Symbol(source, old(pos)), t, old(line), old(col))
    {
      var startLine, startCol := line, col;
      Advance();
      if pos >= |source| { return MakeToken(ERROR, "incomplete symbol", startLine, startCol); }
      var c := source[pos];
      if IsAlpha(c) || c == '_' {
        var out := LexChain();
        return MakeToken(SYMBOL, out, startLine, startCol);
      }
      if InSymbol(c) {
        var out := [c];
        Advance();
        if pos < |source| && InSymbol(source[pos]) {
          out := out + [source[pos]];
          Advance();
        }
        return MakeToken(SYMBOL, out, startLine, startCol);
      }
      t := MakeToken(ERROR, "malformed symbol literal", startLine, startCol);
    }

    method LexRun() returns (t: Token)
      requires Placed() && pos < |source| && InRun(source[pos])
      modifies `pos, `line, `col
      ensures Placed() && IsLexed(Run(source, old(pos)), t, old(line), old(col))
    {
      var startLine, startCol := line, col;
      var op := TakeWhile(InRun);
      if op == ">>" { return MakeToken(GT_GT, op, startLine, startCol); }
      if op == "\\" || op == "~" { return MakeToken(ERROR, "unexpected '" + op + "'", startLine, startCol); }
      t := MakeToken(BINARY_OP, op, startLine, startCol);
    }

    method Take(kind: TokenKind, n: nat) returns (t: Token)
      requires Placed() && pos + n <= |source| && n <= 2
      modifies `pos, `line, `col
      ensures Placed() && IsLexed(Plain(kind, source[old(pos)..old(pos) + n], old(pos) + n), t, old(line), old(col))
    {
      t := MakeToken(kind, source[pos..pos + n], line, col);
      for i := 0 to n
        invariant Placed() && pos == old(pos) + i
      {
        Advance();
      }
    }

    method LexAt(spaceBefore: bool) returns (t: Token)
      requires Placed() && pos < |source|
      modifies `pos, `line, `col
      ensures Placed() && IsLexed(LexemeAt(source, old(pos), spaceBefore, last, fits), t, old(line), old(col))
    {
      hide LineAt, ColumnAt, Word, Number, Symbol, Quoted, Run;
      var c := Current();
      if IsAlpha(c) || c == '_' { t := LexIdentifier(); return; }
      if IsDigit(c) { t := LexNumber(false); return; }
      if c == '#' {
        if Lookahead() == '(' { t := Take(HASH_L_PAREN, 2); } else { t := LexSymbol(); }
        return;
      }
      if c == QUOTE { t := LexString(); return; }
      if c == '$' { t := LexChar(); return; }
      if Single(c).Some? { t := Take(Single(c).value, 1); return; }
      if c == '-' { t := LexMinus(spaceBefore); return; }
      if c == ':' {
        if Lookahead() == '=' { t := Take(ASSIGN, 2); } else { t := Take(COLON, 1); }
        return;
      }
      if InRun(c) { t := LexRun(); return; }
      t := MakeToken(ERROR, "unexpected character '" + [c] + "'", line, col);
      Advance();
    }

    method LexMinus(spaceBefore: bool) returns (t: Token)
      requires Placed() && pos < |source| && source[pos] == '-'
      modifies `pos, `line, `col
      ensures Placed() && IsLexed(LexemeAt(source, old(pos), spaceBefore, last, fits), t, old(line), old(col))
    {
      hide Word, Number, Symbol, Quoted, Run;
      if Lookahead() == '>' { t := Take(BINARY_OP, 2); return; }
      if IsDigit(Lookahead()) && (!EndsOperand(last) || spaceBefore) {
        Advance();
        t := LexNumber(true);
        return;
      }
      t := Take(BINARY_OP, 1);
    }

    method NextImpl() returns (t: Token)
      requires Placed() && openComment == None
      modifies `pos, `line, `col, `openComment, `blankBefore
      ensures Placed() && openComment == None && pos == NextPlace(Input(), Place(old(pos), last)).pos
      ensures t.(blankLineBefore := blankBefore) == TokenAt(Input(), Place(old(pos), last))
    {
      var beforeWs := pos;
      SkipWhitespace();
      var spaceBefore := pos != beforeWs;
      blankBefore := ContainsBlankLine(beforeWs, pos);
      if openComment.Some? {
        t := MakeToken(ERROR, "unterminated comment (opened here)", openComment.value.0, openComment.value.1);
        openComment := None;
        return;
      }
      if pos >= |source| { return MakeToken(END_OF_FILE, "", line, col); }
      t := LexAt(spaceBefore);
    }

    /** Lexes one token and records what later ones depend on. */
    method LexOne() returns (t: Token)
      requires Placed() && openComment == None
      modifies `pos, `line, `col, `openComment, `blankBefore, `last
      ensures Placed() && openComment == None
      ensures Place(pos, last) == NextPlace(Input(), Place(old(pos), old(last)))
      ensures t == TokenAt(Input(), Place(old(pos), old(last)))
    {
      t := NextImpl();
      t := t.(blankLineBefore := blankBefore);
      last := t.kind;
    }

    method Next() returns (t: Token)
      requires Valid()
      modifies this
      ensures Valid() && consumed == old(consumed) + 1 && t == NthToken(Input(), old(consumed))
    {
      hide TokenAt, NextPlace, LineAt, ColumnAt;
      if queue != [] {
        TokensFirst(Input(), consumed, |queue|);
        t := queue[0];
        queue := queue[1..];
      } else {
        t := LexOne();
      }
      consumed := consumed + 1;
    }

    method PushOne()
      requires Valid()
      modifies this
      ensures Valid() && consumed == old(consumed) && |queue| == old(|queue|) + 1
    {
      hide TokenAt, NextPlace, LineAt, ColumnAt;
      var t := LexOne();
      queue := queue + [t];
    }

    method Peek() returns (t: Token)
      requires Valid()
      modifies this
      ensures Valid() && consumed == old(consumed) && t == NthToken(Input(), consumed)
    {
      hide NthToken, PlaceAfter, LineAt, ColumnAt;
      if queue == [] { PushOne(); }
      TokensAt(Input(), consumed, |queue|, 0);
      t := queue[0];
    }

    method PeekSecond() returns (t: Token)
      requires Valid()
      modifies this
      ensures Valid() && consumed == old(consumed) && t == NthToken(Input(), consumed + 1)
    {
      hide NthToken, PlaceAfter, LineAt, ColumnAt;
      while |queue| < 2
        invariant Valid() && consumed == old(consumed)
      {
        PushOne();
      }
      TokensAt(Input(), consumed, |queue|, 1);
      t := queue[1];
    }

    /** The tokens to the first end of file. */
    method Tokenize() returns (all: seq<Token>)
      requires Valid()
      modifies this
      ensures Valid() && all == Tokens(Input(), old(consumed), |all|) && all != []
      ensures forall i | 0 <= i < |all| :: all[i].kind == END_OF_FILE <==> i == |all| - 1
    {
      hide NthToken, PlaceAfter, LineAt, ColumnAt;
      all := [];
      var eof := false;
      while !eof
        invariant Valid() && consumed == old(consumed) + |all| && all == Tokens(Input(), old(consumed), |all|)
        invariant eof ==> all != []
        invariant forall i | 0 <= i < |all| :: all[i].kind == END_OF_FILE <==> eof && i == |all| - 1
        decreases !eof, |source| - PlaceAfter(Input(), consumed).pos
      {
        TokensAdvance(Input(), consumed);
        var t := Next();
        eof := t.kind == END_OF_FILE;
        all := all + [t];
      }
    }

    /** Whatever a parser does with peek, peekSecond and next, next answers the tokens in their order. */
    method Drive(calls: seq<Call>) returns (got: seq<Token>)
      requires Valid()
      modifies this
      ensures Valid() && consumed == old(consumed) + Nexts(calls)
      ensures got == Tokens(Input(), old(consumed), Nexts(calls))
    {
      hide NthToken, PlaceAfter, LineAt, ColumnAt;
      got := [];
      for i := 0 to |calls|
        invariant Valid() && consumed == old(consumed) + Nexts(calls[..i])
        invariant got == Tokens(Input(), old(consumed), Nexts(calls[..i]))
      {
        assert calls[..i + 1][..i] == calls[..i];
        match calls[i] {
          case CallNext =>
            var t := Next();
            got := got + [t];
          case CallPeek => var _ := Peek();
          case CallPeekSecond => var _ := PeekSecond();
        }
      }
      assert calls[..|calls|] == calls;
    }
  }

  datatype Call = CallNext | CallPeek | CallPeekSecond

  function Nexts(calls: seq<Call>): nat {
    if calls == [] then 0 else Nexts(calls[..|calls| - 1]) + if calls[|calls| - 1] == CallNext then 1 else 0
  }

  lemma {:induction false} TokensAt(t: Text, from: nat, n: nat, i: nat)
    requires t.start <= |t.src| && i < n
    ensures |Tokens(t, from, n)| == n && Tokens(t, from, n)[i] == NthToken(t, from + i)
  {
    hide NthToken, PlaceAfter;
    TokensLength(t, from, n - 1);
    if i < n - 1 { TokensAt(t, from, n - 1, i); }
  }

  lemma {:induction false} TokensLength(t: Text, from: nat, n: nat)
    requires t.start <= |t.src|
    ensures |Tokens(t, from, n)| == n
  {
    hide NthToken, PlaceAfter;
    if n != 0 { TokensLength(t, from, n - 1); }
  }

  lemma {:induction false} TokensFirst(t: Text, from: nat, n: nat)
    requires t.start <= |t.src| && 0 < n
    ensures Tokens(t, from, n) == [NthToken(t, from)] + Tokens(t, from + 1, n - 1)
  {
    hide NthToken, PlaceAfter;
    if n > 1 {
      TokensFirst(t, from, n - 1);
    }
  }

  /** Every token but the end of file is further on in the source than the one before. */
  lemma TokensAdvance(t: Text, n: nat)
    requires t.start <= |t.src|
    ensures if NthToken(t, n).kind == END_OF_FILE then PlaceAfter(t, n + 1).pos == |t.src|
            else PlaceAfter(t, n).pos < PlaceAfter(t, n + 1).pos
  {
  }

  /** So lexing ends, within as many tokens as the source has characters, and then stays at the end. */
  lemma LexingEnds(t: Text, n: nat)
    requires t.start <= |t.src| && n >= |t.src| - t.start
    ensures NthToken(t, n).kind == END_OF_FILE && PlaceAfter(t, n).pos == |t.src|
  {
    StillReading(t, n);
    AtTheEnd(t, PlaceAfter(t, n));
  }

  lemma {:induction false} StillReading(t: Text, n: nat)
    requires t.start <= |t.src|
    ensures PlaceAfter(t, n).pos >= t.start + n || PlaceAfter(t, n).pos == |t.src|
  {
    hide *;
    if n != 0 {
      StillReading(t, n - 1);
      PlaceAdvances(t, n - 1);
    }
  }

  lemma PlaceAdvances(t: Text, n: nat)
    requires t.start <= |t.src|
    ensures PlaceAfter(t, n).pos < PlaceAfter(t, n + 1).pos || PlaceAfter(t, n + 1).pos == |t.src|
  {
    TokensAdvance(t, n);
  }

  lemma AtTheEnd(t: Text, p: Place)
    requires p.pos == |t.src|
    ensures TokenAt(t, p).kind == END_OF_FILE
  {
  }

  lemma JoinedAt(s: string, a: nat, i: nat, b: nat)
    requires a <= i < b <= |s|
    ensures s[a..i] + [s[i]] + s[i + 1..b] == s[a..b]
  {
  }

  predicate NoLineEnd(src: string, from: nat, i: nat)
    requires i <= |src|
  {
    forall k | from <= k < i :: src[k] != '\n'
  }

  /** The last line end before `i` is at `a`, and the line since then has content or not. */
  ghost predicate LineSoFar(src: string, from: nat, a: nat, i: nat, content: bool)
    requires i <= |src|
  {
    && from <= a < i && src[a] == '\n' && NoLineEnd(src, a + 1, i)
    && (content <==> Commented(src, from, a) || exists k | a < k < i :: !IsSpace(src[k]))
  }

  lemma {:induction false} NoQuoteNoChange(src: string, from: nat, a: nat, i: nat)
    requires from <= a <= i <= |src| && forall k | a <= k < i :: src[k] != DOUBLE_QUOTE
    ensures Commented(src, from, i) == Commented(src, from, a)
  {
    if a < i { NoQuoteNoChange(src, from, a, i - 1); }
  }

  lemma BlankEarlier(src: string, from: nat, b: nat, a: nat, e: nat)
    requires b < a < e < |src| && IsBlankLine(src, from, b, e) && src[a] == '\n'
    ensures IsBlankLine(src, from, b, a)
  {
  }

  lemma BlankStep(src: string, from: nat, a: nat, i: nat, saw: bool, content: bool)
    requires from <= i < |src| && !HasBlankLine(src, from, i)
    requires if saw then LineSoFar(src, from, a, i, content) else content && NoLineEnd(src, from, i)
    ensures HasBlankLine(src, from, i + 1) <==> src[i] == '\n' && saw && !content
    ensures src[i] == '\n' ==> LineSoFar(src, from, i, i + 1, Commented(src, from, i))
    ensures saw && src[i] != '\n' ==> LineSoFar(src, from, a, i + 1, content || !IsSpace(src[i]))
    ensures Commented(src, from, i) && saw && !content ==> false
  {
    if saw && !content {
      NoQuoteNoChange(src, from, a, i);
      if src[i] == '\n' { assert IsBlankLine(src, from, a, i); }
    }
    forall b, e | from <= b < e < i + 1 && IsBlankLine(src, from, b, e) ensures e == i && saw && !content {
      assert e == i;
      assert saw;
      if b < a { BlankEarlier(src, from, b, a, e); }
      assert b == a;
    }
  }

  // ----- What literals stand for -----

  predicate AllDigits(s: string) { forall i | 0 <= i < |s| :: IsDigit(s[i]) }

  /** The number that an Integer's token stands for. */
  function ValueOf(x: Lexeme): int {
    if !x.large then x.value
    else if x.text != "" && x.text[0] == '-' then 0 - ValueIn(x.text[1..], x.radix)
    else ValueIn(x.text, x.radix)
  }

  function Pow10(n: nat): (r: nat)
    ensures r >= 1
  {
    if n == 0 then 1 else 10 * Pow10(n - 1)
  }

  lemma {:induction false} Pow10Grows(a: nat, b: nat)
    requires a < b
    ensures Pow10(a) < Pow10(b)
  {
    if a + 1 < b { Pow10Grows(a, b - 1); }
  }

  lemma {:induction false} ZerosShift(digits: string, n: nat)
    ensures ValueIn(digits + Zeros(n), 10) == ValueIn(digits, 10) * Pow10(n)
  {
    var all := digits + Zeros(n);
    if n == 0 {
      assert all == digits;
    } else {
      ZerosShift(digits, n - 1);
      assert all[..|all| - 1] == digits + Zeros(n - 1) && all[|all| - 1] == '0';
      OneMoreZero(all);
      assert Pow10(n) == 10 * Pow10(n - 1);
      hide ValueIn, Pow10, Zeros;
      TenTimes(ValueIn(digits, 10), Pow10(n - 1));
    }
  }

  lemma OneMoreZero(s: string)
    requires s != "" && s[|s| - 1] == '0'
    ensures ValueIn(s, 10) == ValueIn(s[..|s| - 1], 10) * 10
  {
  }

  lemma TenTimes(v: nat, p: nat)
    ensures v * p * 10 == v * (10 * p)
  {
  }

  lemma DecimalValue(negative: bool, digits: string, end: nat)
    requires digits != "" && AllDigits(digits)
    ensures ValueOf(Decimal(negative, digits, end)) == Signed(negative, ValueIn(digits, 10)) && Decimal(negative, digits, end).kind == INTEGER
  {
    var text := Sign(negative) + digits;
    if negative { assert text[1..] == digits; } else { assert text == digits; }
  }

  /** A radix literal stands for its digits in its base, whatever their number. */
  lemma RadixValue(negative: bool, digits: string, base: nat, rd: string, end: nat)
    requires rd != "" && rd[0] != '-'
    ensures ValueOf(Radix(negative, digits, base, rd, end)) == Signed(negative, ValueIn(rd, base))
  {
    var text := Sign(negative) + rd;
    if negative { assert text[1..] == rd; } else { assert text == rd; }
  }

  lemma SpanOver(src: string, p: nat, f: char -> bool, e: nat)
    requires p <= e <= |src| && (forall i | p <= i < e :: f(src[i])) && (e < |src| ==> !f(src[e]))
    ensures Span(src, p, f) == e
  {
  }

  /** The literal `digits e exponent` in a source. */
  lemma ExponentLexed(digits: string, exponent: string, fits: string -> bool)
    requires digits != "" && AllDigits(digits) && exponent != "" && AllDigits(exponent)
    ensures var src := digits + "e" + exponent;
      LexemeAt(src, 0, false, END_OF_FILE, fits) == Unradixed(false, digits, "", exponent, |src|, fits)
  {
    var src := digits + "e" + exponent;
    var d := |digits|;
    ExponentPlaces(digits, exponent);
    assert !IsAlpha(src[0]) && src[0] != '_';
    assert LexemeAt(src, 0, false, END_OF_FILE, fits) == Number(src, 0, false, fits);
    hide Span, Unradixed, LexemeAt;
    assert !IsRadix(src, 0, d);
    assert FractionEnd(src, d) == d && ExponentAt(src, d) == Some(d + 1);
  }

  lemma ExponentPlaces(digits: string, exponent: string)
    requires digits != "" && AllDigits(digits) && exponent != "" && AllDigits(exponent)
    ensures var src := digits + "e" + exponent; var d := |digits|;
      && IsDigit(src[0]) && src[d] == 'e' && IsDigit(src[d + 1])
      && Span(src, 0, IsDigit) == d && Span(src, d + 1, IsDigit) == |src|
      && src[0..d] == digits && src[d..d] == "" && src[d + 1..|src|] == exponent
  {
    var src := digits + "e" + exponent;
    var d := |digits|;
    assert src[0] == digits[0] && src[d] == 'e' && src[d + 1] == exponent[0];
    forall i | 0 <= i < d ensures IsDigit(src[i]) { assert src[i] == digits[i]; }
    forall i | d + 1 <= i < |src| ensures IsDigit(src[i]) { assert src[i] == exponent[i - d - 1]; }
    SpanOver(src, 0, IsDigit, d);
    SpanOver(src, d + 1, IsDigit, |src|);
  }

  /** An integer literal with an exponent is refused just for exponents from 401 to the largest int. Any other
      stands for its mantissa with that many zeros if and only if the exponent is at most 400 or the mantissa 0. */
  lemma ExponentExactly(digits: string, exponent: string, fits: string -> bool)
    requires digits != "" && AllDigits(digits) && exponent != "" && AllDigits(exponent)
    ensures var x := LexemeAt(digits + "e" + exponent, 0, false, END_OF_FILE, fits);
      var m, n := ValueIn(digits, 10), ValueIn(exponent, 10);
      && x.kind == (if MAX_EXPONENT < n <= MAX_INT then ERROR else INTEGER)
      && (x.kind == INTEGER ==> (ValueOf(x) == m * Pow10(n) <==> n <= MAX_EXPONENT || m == 0))
  {
    ExponentLexed(digits, exponent, fits);
    var src := digits + "e" + exponent;
    UnradixedExponent(digits, exponent, |src|, fits);
    hide LexemeAt, Unradixed, ValueIn, Pow10, ValueOf;
  }

  lemma UnradixedExponent(digits: string, exponent: string, end: nat, fits: string -> bool)
    requires digits != "" && AllDigits(digits) && exponent != "" && AllDigits(exponent)
    ensures var x := Unradixed(false, digits, "", exponent, end, fits);
      var m, n := ValueIn(digits, 10), ValueIn(exponent, 10);
      && x.kind == (if MAX_EXPONENT < n <= MAX_INT then ERROR else INTEGER)
      && (x.kind == INTEGER ==> ValueOf(x) == m * Pow10(ExponentOf(exponent)))
      && (x.kind == INTEGER ==> (ValueOf(x) == m * Pow10(n) <==> n <= MAX_EXPONENT || m == 0))
  {
    var e := ExponentOf(exponent);
    UnradixedShape(digits, exponent, end, fits);
    DigitsThenZeros(digits, e);
    DecimalValue(false, digits + Zeros(e), end);
    ZerosShift(digits, e);
    hide ValueIn, Decimal, ValueOf, Unradixed, Pow10, Zeros, AllDigits;
    CappedExponent(ValueIn(digits, 10), ValueIn(exponent, 10));
  }

  lemma UnradixedShape(digits: string, exponent: string, end: nat, fits: string -> bool)
    requires exponent != "" && AllDigits(exponent)
    ensures var x, e, n := Unradixed(false, digits, "", exponent, end, fits), ExponentOf(exponent), ValueIn(exponent, 10);
      && e == (if n <= MAX_INT then n else MAX_EXPONENT)
      && if MAX_EXPONENT < n <= MAX_INT then x.kind == ERROR else x == Decimal(false, digits + Zeros(e), end)
  {
    assert exponent[0] != '-';
  }

  lemma CappedExponent(m: nat, n: nat)
    ensures var e := if n <= MAX_INT then n else MAX_EXPONENT;
      !(MAX_EXPONENT < n <= MAX_INT) ==> (m * Pow10(e) == m * Pow10(n) <==> n <= MAX_EXPONENT || m == 0)
  {
    hide Pow10;
    if n > MAX_INT {
      Pow10Grows(MAX_EXPONENT, n);
      if m != 0 { MulGrows(m, Pow10(MAX_EXPONENT), Pow10(n)); }
    }
  }

  lemma DigitsThenZeros(digits: string, n: nat)
    requires AllDigits(digits)
    ensures AllDigits(digits + Zeros(n))
  {
  }

  lemma MulGrows(m: nat, a: nat, b: nat)
    requires m != 0 && a < b
    ensures m * a < m * b
  {
    assert m * (b - a) >= 1;
  }

  /** The input that fails: `1e2147483648` is read as `1e400`. */
  lemma HugeExponentIsCapped(fits: string -> bool)
    ensures var x, y := LexemeAt("1e2147483648", 0, false, END_OF_FILE, fits), LexemeAt("1e400", 0, false, END_OF_FILE, fits);
      x.kind == INTEGER && ValueOf(x) == ValueOf(y)
  {
    var huge, most := "2147483648", "400";
    TenDigits();
    assert ValueIn(most, 10) == 400 by { ThreeDigits(); }
    hide LexemeAt, Unradixed, Decimal, Pow10, ValueIn, ValueOf;
    assert AllDigits("1") && AllDigits(huge) && AllDigits(most);
    hide AllDigits;
    assert "1" + "e" + huge == "1e2147483648" && "1" + "e" + most == "1e400";
    ExponentLexed("1", huge, fits);
    ExponentLexed("1", most, fits);
    UnradixedExponent("1", huge, 12, fits);
    UnradixedExponent("1", most, 5, fits);
  }

  lemma ThreeDigits()
    ensures ValueIn("400", 10) == 400
  {
    var d := "400";
    assert d[..1][..0] == "" && d[..2][..1] == d[..1] && d[..3][..2] == d[..2] && d[..3] == d;
    assert ValueIn(d[..1], 10) == 4;
    assert ValueIn(d[..2], 10) == 40;
  }

  lemma TenDigits()
    ensures ValueIn("2147483648", 10) == 2147483648
  {
    var d := "2147483648";
    assert ValueIn(d[..0], 10) == 0;
    for i := 0 to 10
      invariant ValueIn(d[..i], 10) == [0, 2, 21, 214, 2147, 21474, 214748, 2147483, 21474836, 214748364, 2147483648][i]
    {
      assert d[..i + 1][..i] == d[..i];
    }
    assert d[..10] == d;
  }

  function Doubled(s: string): string {
    if s == "" then "" else (if s[0] == QUOTE then "''" else [s[0]]) + Doubled(s[1..])
  }

  /** A string literal with its quotes doubled stands for the string, if no third quote follows. */
  lemma {:induction false} QuotedText(before: string, s: string, rest: string, out: string)
    requires rest == "" || rest[0] != QUOTE
    ensures Quoted(before + Doubled(s) + "'" + rest, |before|, out) == Some((out + s, |before| + |Doubled(s)| + 1))
    decreases s
  {
    var src := before + Doubled(s) + "'" + rest;
    if s == "" {
      assert src[|before|] == QUOTE && (rest != "" ==> src[|before| + 1] == rest[0]);
      assert out + s == out;
    } else {
      var c := if s[0] == QUOTE then "''" else [s[0]];
      QuotedText(before + c, s[1..], rest, out + [s[0]]);
      assert src == before + c + Doubled(s[1..]) + "'" + rest;
      assert src[|before|] == c[0] && (s[0] == QUOTE ==> src[|before| + 1] == QUOTE);
      assert out + [s[0]] + s[1..] == out + s;
    }
  }

  lemma StringRoundTrip(s: string, rest: string, fits: string -> bool)
    requires rest == "" || rest[0] != QUOTE
    ensures LexemeAt("'" + Doubled(s) + "'" + rest, 0, false, END_OF_FILE, fits) == Plain(STRING, s, |Doubled(s)| + 2)
  {
    QuotedText("'", s, rest, "");
    assert "" + s == s;
  }
}
