/**
 * The lexical analyser of PINS'24: a character-at-a-time scanner over the
 * source text with a replay buffer (the characters read so far and an
 * offset into them that can step back), a one-token lookahead, and
 * line/column tracking with tab stops at every eighth column.
 *
 * The reader is the input as a sequence of UTF-16 code units ending in one
 * end-of-file mark (-1).  The characters the lexer can look at are that
 * sequence after a start-of-file mark (-2): offset `i` of the replay buffer
 * always holds `Text()[i]`.
 *
 * The pure part below defines what the next token is for every position in
 * the text (`Lex`); the class `LexAn` is the scanner itself, and its
 * methods are proved to produce exactly that.
 */
module Lexer {
  import opened Ast
  import opened Numbers

  /** What the reader returns at the end of the input. */
  const EndOfFile: int := -1
  /** The mark in front of the first character, before anything is read. */
  const StartOfFile: int := -2

  /** A UTF-16 code unit that is not a surrogate (so it is a Dafny `char`). */
  predicate CodeUnit(c: int) {
    0 <= c < 0xD800 || 0xE000 <= c <= 0xFFFF
  }

  /** The reader's characters, then one end-of-file mark. */
  predicate InputOk(input: seq<int>) {
    |input| >= 1 && input[|input| - 1] == EndOfFile &&
    forall i | 0 <= i < |input| - 1 :: CodeUnit(input[i])
  }

  /** The characters the lexer looks at: start mark, code units, end mark. */
  predicate WellFormedText(text: seq<int>) {
    |text| >= 2 && text[0] == StartOfFile && text[|text| - 1] == EndOfFile &&
    forall i | 0 < i < |text| - 1 :: CodeUnit(text[i])
  }

  lemma TextOfInput(input: seq<int>)
    requires InputOk(input)
    ensures WellFormedText([StartOfFile] + input)
  {
    var text := [StartOfFile] + input;
    forall i | 0 < i < |text| - 1
      ensures CodeUnit(text[i])
    {
      assert text[i] == input[i - 1];
    }
  }

  /**
   * Java's `(char) c` on the values the text holds: a code unit is itself,
   * and the two marks wrap around to U+FFFF and U+FFFE.
   */
  function JavaChar(c: int): (ch: char)
    ensures CodeUnit(c) ==> ch as int == c
  {
    if CodeUnit(c) then c as char
    else if c == EndOfFile then '\U{FFFF}'
    else if c == StartOfFile then '\U{FFFE}'
    else '\U{FFFD}'
  }

  /** The characters at offsets `a` up to `b` of the text, as a string. */
  function Chars(text: seq<int>, a: nat, b: nat): (s: string)
    requires a <= b <= |text|
    ensures |s| == b - a
    decreases b - a
  {
    if a == b then "" else Chars(text, a, b - 1) + [JavaChar(text[b - 1])]
  }

  // ---------------------------------------------------------------------
  // Character classes (the case-insensitive patterns of the scanner)
  // ---------------------------------------------------------------------

  predicate IsDigit(c: int) {
    '0' as int <= c <= '9' as int
  }

  predicate IsLetter(c: int) {
    'a' as int <= c <= 'z' as int || 'A' as int <= c <= 'Z' as int
  }

  /** `[_a-z]`, matched case-insensitively. */
  predicate IsWordStart(c: int) {
    c == '_' as int || IsLetter(c)
  }

  /** `[_0-9a-z]`, matched case-insensitively. */
  predicate IsWordChar(c: int) {
    IsWordStart(c) || IsDigit(c)
  }

  /** `([0-9]|[A-F])`, matched case-insensitively. */
  predicate IsHexDigit(c: int) {
    IsDigit(c) || 'A' as int <= c <= 'F' as int || 'a' as int <= c <= 'f' as int
  }

  /** `[\x20-\x7E]`: a printable ASCII character. */
  predicate IsPrintable(c: int) {
    0x20 <= c <= 0x7E
  }

  /** Characters that separate tokens and produce none. */
  predicate IsBlank(c: int) {
    c == '\n' as int || c == ' ' as int || c == '\t' as int || c == '\r' as int
  }

  function HexValue(c: int): (v: nat)
    requires IsHexDigit(c)
    ensures v < 16
  {
    if IsDigit(c) then c - '0' as int
    else if 'A' as int <= c <= 'F' as int then c - 'A' as int + 10
    else c - 'a' as int + 10
  }

  /** `Integer.parseInt` of two hexadecimal digits, as the scanner builds them. */
  lemma ParseTwoHexDigits(a: int, b: int)
    requires IsHexDigit(a) && IsHexDigit(b)
    ensures ParseDigits([JavaChar(a), JavaChar(b)], 16) == Some(HexValue(a) * 16 + HexValue(b))
  {
    var s := [JavaChar(a), JavaChar(b)];
    assert s[..1] == [JavaChar(a)];
  }

  // ---------------------------------------------------------------------
  // Positions
  // ---------------------------------------------------------------------

  datatype Pos = Pos(line: int, col: int)

  /** Line 1, column 1: the position before the first character. */
  const Origin: Pos := Pos(1, 1)

  /** The column after a tab at `col`: the tab reaches the next multiple of 8, then one more. */
  function TabStop(col: int): int
    decreases (8 - col % 8) % 8
  {
    if col % 8 == 0 then col + 1 else TabStop(col + 1)
  }

  /** A tab lands one past the first multiple of eight at or after the column. */
  lemma {:induction false} TabStopSpec(col: int)
    ensures (TabStop(col) - 1) % 8 == 0
    ensures col <= TabStop(col) - 1 < col + 8
    decreases (8 - col % 8) % 8
  {
    if col % 8 != 0 {
      TabStopSpec(col + 1);
      var t := TabStop(col + 1) - 1;
      assert (col + 8) % 8 == col % 8;
      assert t != col + 8;
    }
  }

  /** Off a multiple of eight, one column further has the same tab stop and is nearer to it. */
  lemma TabMove(col: int)
    requires col % 8 != 0
    ensures TabStop(col + 1) == TabStop(col)
    ensures (8 - (col + 1) % 8) % 8 < (8 - col % 8) % 8
  {
    var k := col % 8;
    assert col == 8 * (col / 8) + k;
    if k < 7 {
      assert col + 1 == 8 * (col / 8) + (k + 1);
    } else {
      assert col + 1 == 8 * (col / 8 + 1);
    }
  }

  /** The position after one more character (the body of getEndPosition's loop). */
  function Step(p: Pos, c: int): Pos {
    if c == '\n' as int then Pos(p.line + 1, 1)
    else if c == '\t' as int then Pos(p.line, TabStop(p.col))
    else if c == StartOfFile || c == EndOfFile then p
    else Pos(p.line, p.col + 1)
  }

  /** The position after the characters at offsets `a` up to `b`, starting from `p`. */
  function Advance(p: Pos, text: seq<int>, a: nat, b: nat): Pos
    requires a <= b <= |text|
    decreases b - a
  {
    if a == b then p else Step(Advance(p, text, a, b - 1), text[b - 1])
  }

  /** The position after the first `i` characters of the text. */
  function PosAt(text: seq<int>, i: nat): Pos
    requires i <= |text|
  {
    Advance(Origin, text, 0, i)
  }

  /** Advancing over two adjacent stretches is advancing over the first, then the second. */
  lemma {:induction false} AdvanceSplit(p: Pos, text: seq<int>, a: nat, m: nat, b: nat)
    requires a <= m <= b <= |text|
    ensures Advance(p, text, a, b) == Advance(Advance(p, text, a, m), text, m, b)
    decreases b - m
  {
    if m < b {
      AdvanceSplit(p, text, a, m, b - 1);
    }
  }

  /** Positions only move forward: the line never decreases, nor the column on the same line. */
  lemma {:induction false} AdvanceForward(p: Pos, text: seq<int>, a: nat, b: nat)
    requires a <= b <= |text| && p.col >= 1
    ensures Advance(p, text, a, b).col >= 1
    ensures Advance(p, text, a, b).line >= p.line
    ensures Advance(p, text, a, b).line == p.line ==> Advance(p, text, a, b).col >= p.col
    decreases b - a
  {
    if a < b {
      AdvanceForward(p, text, a, b - 1);
      TabStopSpec(Advance(p, text, a, b - 1).col);
    }
  }

  /** The position after the first `j` characters, from the one after the first `i`. */
  lemma PosAtFrom(text: seq<int>, i: nat, j: nat)
    requires i <= j <= |text|
    ensures PosAt(text, j) == Advance(PosAt(text, i), text, i, j)
  {
    AdvanceSplit(Origin, text, 0, i, j);
  }

  // ---------------------------------------------------------------------
  // Tokens
  // ---------------------------------------------------------------------

  datatype Symbol =
    | FUN | VAR | IF | THEN | ELSE | WHILE | DO | LET | IN | END
    | IDENTIFIER | INTCONST | CHARCONST | STRINGCONST
    | COMMA | LPAREN | RPAREN | PTR | MOD | DIV | MUL | SUB | ADD
    | AND | OR | ASSIGN | EQU | NEQ | NOT | GTH | GEQ | LTH | LEQ
    | EOF

  /** Where a token begins and ends (positions after the characters before/through it). */
  datatype Location = Location(begLine: int, begColumn: int, endLine: int, endColumn: int)

  datatype Token = Token(location: Location, symbol: Symbol, lexeme: string)

  function LocationOf(beg: Pos, end: Pos): Location {
    Location(beg.line, beg.col, end.line, end.col)
  }

  /** The keyword a word spells, or IDENTIFIER (the switch of consumeKeywordOrIdentifier). */
  function KeywordOf(word: string): Symbol {
    match word
    case "fun" => FUN
    case "var" => VAR
    case "if" => IF
    case "then" => THEN
    case "else" => ELSE
    case "while" => WHILE
    case "do" => DO
    case "let" => LET
    case "in" => IN
    case "end" => END
    case _ => IDENTIFIER
  }

  predicate IsKeyword(s: Symbol) {
    s in {FUN, VAR, IF, THEN, ELSE, WHILE, DO, LET, IN, END}
  }

  /** The spelling of a keyword. */
  function Spelling(s: Symbol): string
    requires IsKeyword(s)
  {
    match s
    case FUN => "fun"
    case VAR => "var"
    case IF => "if"
    case THEN => "then"
    case ELSE => "else"
    case WHILE => "while"
    case DO => "do"
    case LET => "let"
    case IN => "in"
    case END => "end"
  }

  /** Keywords are recognised by their exact spelling, and by nothing else. */
  lemma KeywordSpelling(word: string, s: Symbol)
    ensures IsKeyword(s) ==> KeywordOf(Spelling(s)) == s
    ensures KeywordOf(word) == IDENTIFIER || (IsKeyword(KeywordOf(word)) && Spelling(KeywordOf(word)) == word)
  {
  }

  /** A word with a capital letter is an identifier, although the word patterns ignore case. */
  lemma CapitalsMakeIdentifiers(word: string, i: nat)
    requires i < |word| && 'A' <= word[i] <= 'Z'
    ensures KeywordOf(word) == IDENTIFIER
  {
  }

  /** The tokens made of one character. */
  function OneCharSymbol(c: int): Option<Symbol> {
    if c == ',' as int then Some(COMMA)
    else if c == '(' as int then Some(LPAREN)
    else if c == ')' as int then Some(RPAREN)
    else if c == '^' as int then Some(PTR)
    else if c == '%' as int then Some(MOD)
    else if c == '/' as int then Some(DIV)
    else if c == '*' as int then Some(MUL)
    else if c == '-' as int then Some(SUB)
    else if c == '+' as int then Some(ADD)
    else None
  }

  /** The operators that may be followed by `=`: the symbol with `=`, and the one without. */
  function PairSymbols(c: int): Option<(Symbol, Symbol)> {
    if c == '=' as int then Some((EQU, ASSIGN))
    else if c == '!' as int then Some((NEQ, NOT))
    else if c == '>' as int then Some((GEQ, GTH))
    else if c == '<' as int then Some((LEQ, LTH))
    else None
  }

  // ---------------------------------------------------------------------
  // What the next token is
  // ---------------------------------------------------------------------

  /**
   * A scanned token: its symbol, its lexeme, the offset of its first
   * character and the offset the scanner stands on when it makes the token.
   */
  datatype Lexed = Lexed(symbol: Symbol, lexeme: string, first: nat, last: nat)

  /** The lexeme read for one (possibly escaped) character and the offset of its last character. */
  datatype Read = Read(lexeme: string, last: nat)

  /** The offset after `e` (the end mark is never passed). */
  function NextOffset(text: seq<int>, e: nat): nat
    requires e < |text|
  {
    if text[e] == EndOfFile then e else e + 1
  }

  /** The token a lexer error names: the character and its code, at the position after it. */
  function Unexpected(text: seq<int>, i: nat): Report
    requires i < |text|
  {
    var at := PosAt(text, i + 1);
    UnexpectedChar(at.line, at.col, text[i])
  }

  /** The message of an unexpected-character report: the character, with
      the three control characters written as escapes, and its code. */
  function UnexpectedMessage(c: int): (m: string)
    ensures |m| >= 22 && m[..18] == "Unexpected token: " && m[|m| - 1] == ')'
    ensures c !in {'\n' as int, '\t' as int, '\r' as int} ==> m[18] == JavaChar(c)
  {
    var shown :=
      if c == '\n' as int then "\\n"
      else if c == '\t' as int then "\\t"
      else if c == '\r' as int then "\\r"
      else [JavaChar(c)];
    "Unexpected token: " + shown + " (" + IntToString(c) + ")"
  }


  /** The first newline or end mark at or after `p`: where a comment ends. */
  function CommentEnd(text: seq<int>, p: nat): (q: nat)
    requires WellFormedText(text) && p < |text|
    ensures p <= q < |text| && (text[q] == '\n' as int || text[q] == EndOfFile)
    ensures forall k | p <= k < q :: text[k] != '\n' as int && text[k] != EndOfFile
    decreases |text| - p
  {
    if text[p] == '\n' as int || text[p] == EndOfFile then p else CommentEnd(text, p + 1)
  }

  /** The first offset at or after `p` that is not a digit. */
  function NumberEnd(text: seq<int>, p: nat): (q: nat)
    requires WellFormedText(text) && p < |text|
    ensures p <= q < |text| && !IsDigit(text[q])
    ensures forall k | p <= k < q :: IsDigit(text[k])
    decreases |text| - p
  {
    if !IsDigit(text[p]) then p else NumberEnd(text, p + 1)
  }

  /** The first offset at or after `p` that is not a word character. */
  function WordEnd(text: seq<int>, p: nat): (q: nat)
    requires WellFormedText(text) && p < |text|
    ensures p <= q < |text| && !IsWordChar(text[q])
    ensures forall k | p <= k < q :: IsWordChar(text[k])
    decreases |text| - p
  {
    if !IsWordChar(text[p]) then p else WordEnd(text, p + 1)
  }

  /**
   * readCharLexeme: one character of a character or string constant at
   * `p`: `\n`, the escaped quote, `\\`, `\` and two hexadecimal digits, or
   * one printable character; anything else is an error at the offending
   * character.
   */
  function ReadChar(text: seq<int>, p: nat, quote: int): (r: Result<Read>)
    requires WellFormedText(text) && 1 <= p < |text| && CodeUnit(quote)
    ensures r.Ok? ==> p <= r.value.last < |text| - 1 && |r.value.lexeme| == 1
  {
    var c := text[p];
    if c == '\\' as int then
      var d := text[p + 1];
      if d == 'n' as int then Ok(Read("\n", p + 1))
      else if d == quote then Ok(Read([JavaChar(quote)], p + 1))
      else if d == '\\' as int then Ok(Read("\\", p + 1))
      else if !IsHexDigit(d) then Fail(Unexpected(text, p + 1))
      else if !IsHexDigit(text[p + 2]) then Fail(Unexpected(text, p + 2))
      else Ok(Read([(HexValue(d) * 16 + HexValue(text[p + 2])) as char], p + 2))
    else if IsPrintable(c) then Ok(Read([JavaChar(c)], p))
    else Fail(Unexpected(text, p))
  }

  /** The characters of a string constant from `q` up to its closing quote. */
  function StringBody(text: seq<int>, q: nat): (r: Result<Read>)
    requires WellFormedText(text) && 1 <= q < |text|
    ensures r.Ok? ==> q <= r.value.last < |text| - 1 && text[r.value.last] == '"' as int
    decreases |text| - q
  {
    if text[q] == '"' as int then Ok(Read("", q))
    else
      var rd :- ReadChar(text, q, '"' as int);
      var rest :- StringBody(text, rd.last + 1);
      Ok(Read(rd.lexeme + rest.lexeme, rest.last))
  }

  /** A string constant at `p`: the lexeme without the quotes, ending on the closing quote. */
  function StringLexed(text: seq<int>, p: nat): (r: Result<Lexed>)
    requires WellFormedText(text) && 1 <= p < |text| - 1
    ensures r.Ok? ==> r.value.first == p < r.value.last < |text| - 1
  {
    var body :- StringBody(text, p + 1);
    Ok(Lexed(STRINGCONST, body.lexeme, p, body.last))
  }

  /**
   * A character constant at `p`: the character is read while the scanner
   * still stands on the opening quote, and the next character must be a
   * quote.
   */
  function CharLexed(text: seq<int>, p: nat): (r: Result<Lexed>)
    requires WellFormedText(text) && 1 <= p < |text|
    ensures r.Ok? ==> r.value.first == p < r.value.last < |text| - 1
  {
    var rd :- ReadChar(text, p, '\'' as int);
    if text[rd.last + 1] != '\'' as int then Fail(Unexpected(text, rd.last + 1))
    else Ok(Lexed(CHARCONST, rd.lexeme, p, rd.last + 1))
  }

  /** `&&` and `||`: the first character must be followed by itself. */
  function DoubledLexed(text: seq<int>, p: nat, symbol: Symbol): Result<Lexed>
    requires WellFormedText(text) && 1 <= p < |text| - 1
  {
    if text[p + 1] != text[p] then Fail(Unexpected(text, p + 1))
    else Ok(Lexed(symbol, [JavaChar(text[p + 1])], p, p + 1))
  }

  /** `=`, `!`, `>`, `<` with a following `=` (the lexeme is that `=`), or alone. */
  function PairLexed(text: seq<int>, p: nat, double: Symbol, single: Symbol): Lexed
    requires WellFormedText(text) && 1 <= p < |text| - 1
  {
    if text[p + 1] == '=' as int then Lexed(double, "=", p, p + 1)
    else Lexed(single, [JavaChar(text[p])], p, p)
  }

  /** An integer constant: the digits, with the scanner left on the character after them. */
  function NumberLexed(text: seq<int>, p: nat): Lexed
    requires WellFormedText(text) && 1 <= p < |text|
  {
    var q := NumberEnd(text, p);
    Lexed(INTCONST, Chars(text, p, q), p, q)
  }

  /** A keyword or identifier: the word characters, with the scanner on the last of them. */
  function WordLexed(text: seq<int>, p: nat): Lexed
    requires WellFormedText(text) && 1 <= p < |text| && IsWordStart(text[p])
  {
    var q := WordEnd(text, p);
    var word := Chars(text, p, q);
    Lexed(KeywordOf(word), word, p, q - 1)
  }

  /**
   * The token nextToken produces when the scanner stands on offset `p`:
   * blanks and comments are skipped, then the character at hand selects
   * the kind of token.
   */
  function Lex(text: seq<int>, p: nat): (r: Result<Lexed>)
    requires WellFormedText(text) && 1 <= p < |text|
    ensures r.Ok? ==> p <= r.value.first <= r.value.last < |text|
    decreases |text| - p
  {
    var c := text[p];
    if c == '#' as int then Lex(text, CommentEnd(text, p))
    else if IsBlank(c) then Lex(text, p + 1)
    else if c == '"' as int then StringLexed(text, p)
    else if c == '\'' as int then CharLexed(text, p)
    else if OneCharSymbol(c).Some? then Ok(Lexed(OneCharSymbol(c).value, [JavaChar(c)], p, p))
    else if c == '&' as int then DoubledLexed(text, p, AND)
    else if c == '|' as int then DoubledLexed(text, p, OR)
    else if PairSymbols(c).Some? then Ok(PairLexed(text, p, PairSymbols(c).value.0, PairSymbols(c).value.1))
    else if IsDigit(c) then Ok(NumberLexed(text, p))
    else if c == EndOfFile then Ok(Lexed(EOF, [JavaChar(EndOfFile)], p, p))
    else if IsWordStart(c) then Ok(WordLexed(text, p))
    else Fail(Unexpected(text, p))
  }

  /** The token itself: it begins after the characters before it and ends after its last one. */
  function TokenOf(text: seq<int>, lx: Lexed): Token
    requires lx.first <= lx.last < |text|
  {
    Token(LocationOf(PosAt(text, lx.first), PosAt(text, lx.last + 1)), lx.symbol, lx.lexeme)
  }

  /** The token nextToken makes after the scanner stood on `e`, with its location. */
  function NextTokenOf(text: seq<int>, e: nat): Result<Token>
    requires WellFormedText(text) && e < |text|
  {
    var lx :- Lex(text, NextOffset(text, e));
    Ok(TokenOf(text, lx))
  }

  // ---------------------------------------------------------------------
  // Properties of the token definition
  // ---------------------------------------------------------------------

  /** A blank is skipped: the token after it is the token at it. */
  lemma LexAtBlank(text: seq<int>, p: nat)
    requires WellFormedText(text) && 1 <= p < |text| - 1 && IsBlank(text[p])
    ensures Lex(text, p) == Lex(text, p + 1)
  {
  }

  /** Blanks produce no token: the token after them is the token at the first non-blank. */
  lemma {:induction false} BlanksSkipped(text: seq<int>, p: nat, q: nat)
    requires WellFormedText(text) && 1 <= p <= q < |text|
    requires forall k | p <= k < q :: IsBlank(text[k])
    ensures Lex(text, p) == Lex(text, q)
    decreases q - p
  {
    if p < q {
      LexAtBlank(text, p);
      BlanksSkipped(text, p + 1, q);
    }
  }

  /** Offset `q` is reached from `p` by skipping blanks and comments (each up to its newline or end mark). */
  ghost predicate SkipsTo(text: seq<int>, p: nat, q: nat)
    requires WellFormedText(text) && p <= q < |text|
    decreases q - p
  {
    p == q ||
    (text[p] == '#' as int && CommentEnd(text, p) <= q && SkipsTo(text, CommentEnd(text, p), q)) ||
    (IsBlank(text[p]) && SkipsTo(text, p + 1, q))
  }

  /** What is skipped produces no token. */
  lemma {:induction false} SkippedLex(text: seq<int>, p: nat, q: nat)
    requires WellFormedText(text) && 1 <= p <= q < |text| && SkipsTo(text, p, q)
    ensures Lex(text, p) == Lex(text, q)
    decreases q - p
  {
    if p == q {
    } else if text[p] == '#' as int && CommentEnd(text, p) <= q && SkipsTo(text, CommentEnd(text, p), q) {
      SkippedLex(text, CommentEnd(text, p), q);
    } else {
      SkippedLex(text, p + 1, q);
    }
  }

  /** One more comment or blank extends what is skipped. */
  lemma {:induction false} SkipsFurther(text: seq<int>, p: nat, q: nat, r: nat)
    requires WellFormedText(text) && p <= q < r < |text| && SkipsTo(text, p, q)
    requires (text[q] == '#' as int && r == CommentEnd(text, q)) || (IsBlank(text[q]) && r == q + 1)
    ensures SkipsTo(text, p, r)
    decreases q - p
  {
    if p == q {
      assert SkipsTo(text, r, r);
    } else if text[p] == '#' as int && CommentEnd(text, p) <= q && SkipsTo(text, CommentEnd(text, p), q) {
      SkipsFurther(text, CommentEnd(text, p), q, r);
    } else {
      SkipsFurther(text, p + 1, q, r);
    }
  }

  /** A comment runs to the end of its line (the newline is then skipped as a blank) or of the input. */
  lemma CommentSkipped(text: seq<int>, p: nat)
    requires WellFormedText(text) && 1 <= p < |text| && text[p] == '#' as int
    ensures var q := CommentEnd(text, p);
      (text[q] == '\n' as int ==> Lex(text, p) == Lex(text, q + 1)) &&
      (text[q] == EndOfFile ==> Lex(text, p) == Ok(Lexed(EOF, [JavaChar(EndOfFile)], q, q)))
  {
  }

  /**
   * `=`, `!`, `>` and `<` followed by `=` make EQU, NEQ, GEQ and LEQ from
   * both characters; otherwise ASSIGN, NOT, GTH or LTH from the one, and
   * the next token starts at the character after it.
   */
  lemma TwoCharOperators(text: seq<int>, p: nat)
    requires WellFormedText(text) && 1 <= p < |text| && PairSymbols(text[p]).Some?
    ensures Lex(text, p).Ok?
    ensures var lx := Lex(text, p).value;
      var (double, single) := PairSymbols(text[p]).value;
      (text[p + 1] == '=' as int ==> lx.symbol == double && NextOffset(text, lx.last) == p + 2) &&
      (text[p + 1] != '=' as int ==> lx.symbol == single && NextOffset(text, lx.last) == p + 1)
  {
  }

  /** `&` must be followed by `&` and `|` by `|`; otherwise the second character is reported. */
  lemma DoubledOperators(text: seq<int>, p: nat)
    requires WellFormedText(text) && 1 <= p < |text| && (text[p] == '&' as int || text[p] == '|' as int)
    ensures Lex(text, p).Ok? <==> text[p + 1] == text[p]
    ensures Lex(text, p).Ok? ==> Lex(text, p).value.symbol == (if text[p] == '&' as int then AND else OR)
    ensures Lex(text, p).Fail? ==> Lex(text, p).report == Unexpected(text, p + 1)
  {
  }

  /** At the end mark the scanner stays put, so the end-of-file token repeats. */
  lemma EndOfFileRepeats(text: seq<int>)
    requires WellFormedText(text)
    ensures var e := |text| - 1;
      NextOffset(text, e) == e && Lex(text, e) == Ok(Lexed(EOF, [JavaChar(EndOfFile)], e, e)) &&
      NextTokenOf(text, e).Ok? && NextTokenOf(text, e).value.symbol == EOF
  {
  }

  /** No other kind of token begins with a word character. */
  lemma LexAtWordStart(text: seq<int>, p: nat)
    requires WellFormedText(text) && 1 <= p < |text| && IsWordStart(text[p])
    ensures Lex(text, p) == Ok(WordLexed(text, p))
  {
  }

  /**
   * A word is the longest run of word characters from a word start; it is
   * the keyword it spells exactly, and an identifier otherwise.
   */
  lemma WordTokens(text: seq<int>, p: nat)
    requires WellFormedText(text) && 1 <= p < |text| && IsWordStart(text[p])
    ensures Lex(text, p).Ok?
    ensures var lx := Lex(text, p).value;
      lx.first == p && lx.lexeme == Chars(text, p, lx.last + 1) &&
      (forall k | p <= k <= lx.last :: IsWordChar(text[k])) && !IsWordChar(text[lx.last + 1]) &&
      (lx.symbol == IDENTIFIER || Spelling(lx.symbol) == lx.lexeme) &&
      (forall k: Symbol | IsKeyword(k) && Spelling(k) == lx.lexeme :: lx.symbol == k)
  {
    LexAtWordStart(text, p);
    var lx := WordLexed(text, p);
    KeywordSpelling(lx.lexeme, lx.symbol);
    forall k: Symbol | IsKeyword(k) && Spelling(k) == lx.lexeme
      ensures lx.symbol == k
    {
      KeywordSpelling(lx.lexeme, k);
    }
  }

  /**
   * An integer constant is the longest run of digits, and the scanner is
   * left on the character after it, so that character never begins a
   * token of its own.
   */
  lemma NumberTokens(text: seq<int>, p: nat)
    requires WellFormedText(text) && 1 <= p < |text| && IsDigit(text[p])
    ensures Lex(text, p).Ok?
    ensures var lx := Lex(text, p).value;
      lx.symbol == INTCONST && lx.first == p && lx.lexeme == Chars(text, p, lx.last) &&
      (forall k | p <= k < lx.last :: IsDigit(text[k])) && !IsDigit(text[lx.last]) &&
      (text[lx.last] != EndOfFile ==> NextOffset(text, lx.last) == lx.last + 1)
  {
  }

  /**
   * A character constant is read while the scanner stands on its opening
   * quote: the lexeme is that quote, and the constant is accepted only when
   * a second quote follows at once.
   */
  lemma CharConstants(text: seq<int>, p: nat)
    requires WellFormedText(text) && 1 <= p < |text| && text[p] == '\'' as int
    ensures Lex(text, p).Ok? <==> text[p + 1] == '\'' as int
    ensures Lex(text, p).Ok? ==> Lex(text, p).value == Lexed(CHARCONST, "'", p, p + 1)
    ensures Lex(text, p).Fail? ==> Lex(text, p).report == Unexpected(text, p + 1)
  {
  }

  // --- the written form of a character, and reading it back

  /** The characters a string constant can hold: those with a code below 256. */
  type Latin1 = c: char | c as int < 256

  function HexDigitChar(v: nat): (c: int)
    requires v < 16
    ensures IsHexDigit(c) && HexValue(c) == v && CodeUnit(c)
  {
    if v < 10 then '0' as int + v else 'A' as int + v - 10
  }

  /**
   * How a character with a code below 256 is written between `quote`s:
   * newline, the quote and the backslash escaped, other printable
   * characters as themselves, the rest as `\` and two hexadecimal digits.
   */
  function Quoted(c: Latin1, quote: int): (w: seq<int>)
    ensures 1 <= |w| <= 3
  {
    if c == '\n' then ['\\' as int, 'n' as int]
    else if c as int == quote then ['\\' as int, quote]
    else if c == '\\' then ['\\' as int, '\\' as int]
    else if IsPrintable(c as int) then [c as int]
    else ['\\' as int, HexDigitChar(c as int / 16), HexDigitChar(c as int % 16)]
  }

  /** The written form of `c` stands at offset `p` of the text. */
  predicate WrittenAt(text: seq<int>, p: nat, c: Latin1, quote: int) {
    var w := Quoted(c, quote);
    p + |w| <= |text| && text[p] == w[0] &&
    (|w| >= 2 ==> text[p + 1] == w[1]) && (|w| == 3 ==> text[p + 2] == w[2])
  }

  /** readCharLexeme reads back every written character. */
  lemma ReadQuoted(text: seq<int>, p: nat, c: Latin1, quote: int)
    requires quote == '"' as int || quote == '\'' as int
    requires WellFormedText(text) && 1 <= p && p + |Quoted(c, quote)| < |text| && WrittenAt(text, p, c, quote)
    ensures ReadChar(text, p, quote) == Ok(Read([c], p + |Quoted(c, quote)| - 1)) && text[p] != quote
  {
    if |Quoted(c, quote)| == 3 {
      assert (c as int / 16) * 16 + c as int % 16 == c as int;
    }
  }

  /** The written form of a string's characters, one after another. */
  function QuotedString(s: seq<Latin1>): (w: seq<int>)
    decreases |s|
  {
    if |s| == 0 then [] else Quoted(s[0], '"' as int) + QuotedString(s[1..])
  }

  /** The written form of `s` stands at offset `p`, character by character. */
  predicate StringWrittenAt(text: seq<int>, p: nat, s: seq<Latin1>)
    decreases |s|
  {
    |s| == 0 ||
    (WrittenAt(text, p, s[0], '"' as int) && StringWrittenAt(text, p + |Quoted(s[0], '"' as int)|, s[1..]))
  }

  /** A short word and what follows it, in the text: the word's characters, then the rest. */
  lemma SliceParts(text: seq<int>, p: nat, w: seq<int>, tail: seq<int>)
    requires 1 <= |w| <= 3 && p + |w| + |tail| <= |text| && text[p..p + |w| + |tail|] == w + tail
    ensures text[p] == w[0] && (|w| >= 2 ==> text[p + 1] == w[1]) && (|w| == 3 ==> text[p + 2] == w[2])
    ensures text[p + |w|..p + |w| + |tail|] == tail
  {
    var t := text[p..p + |w| + |tail|];
    assert text[p] == t[0];
    assert |w| >= 2 ==> text[p + 1] == t[1];
    assert |w| == 3 ==> text[p + 2] == t[2];
    assert text[p + |w|..p + |w| + |tail|] == t[|w|..];
  }

  /** QuotedString(s) in the text is s written there character by character. */
  lemma {:induction false} StringWrittenFromSlice(text: seq<int>, p: nat, s: seq<Latin1>)
    requires p + |QuotedString(s)| <= |text| && text[p..p + |QuotedString(s)|] == QuotedString(s)
    ensures StringWrittenAt(text, p, s)
    decreases |s|
  {
    if |s| > 0 {
      var w := Quoted(s[0], '"' as int);
      var tail := QuotedString(s[1..]);
      assert QuotedString(s) == w + tail;
      SliceParts(text, p, w, tail);
      StringWrittenFromSlice(text, p + |w|, s[1..]);
    }
  }

  /** The lexeme `s` in front of what is read after it. */
  function Prefixed(s: string, r: Result<Read>): Result<Read> {
    match r
    case Ok(rd) => Ok(Read(s + rd.lexeme, rd.last))
    case Fail(_) => r
  }

  /** Nothing in front changes nothing. */
  lemma PrefixedNothing(r: Result<Read>)
    ensures Prefixed("", r) == r
  {
    if r.Ok? {
      assert "" + r.value.lexeme == r.value.lexeme;
    }
  }

  /** Two lexemes in front, one after the other, are their concatenation in front. */
  lemma PrefixedTwice(a: string, b: string, r: Result<Read>)
    ensures Prefixed(a, Prefixed(b, r)) == Prefixed(a + b, r)
  {
    if r.Ok? {
      assert a + (b + r.value.lexeme) == (a + b) + r.value.lexeme;
    }
  }

  /** One step of the string loop: a character other than the closing quote, then the rest. */
  lemma StringBodyStep(text: seq<int>, q: nat, rd: Result<Read>)
    requires WellFormedText(text) && 1 <= q < |text| && text[q] != '"' as int
    requires rd == ReadChar(text, q, '"' as int)
    ensures rd.Fail? ==> StringBody(text, q) == Fail(rd.report)
    ensures rd.Ok? ==> StringBody(text, q) == Prefixed(rd.value.lexeme, StringBody(text, rd.value.last + 1))
  {
  }

  /** The string loop, one character further: what is read so far grows by that character. */
  lemma StringBodyFurther(text: seq<int>, q0: nat, q: nat, s: string, rd: Result<Read>)
    requires WellFormedText(text) && 1 <= q0 <= q < |text| && text[q] != '"' as int
    requires StringBody(text, q0) == Prefixed(s, StringBody(text, q))
    requires rd == ReadChar(text, q, '"' as int)
    ensures rd.Fail? ==> StringBody(text, q0) == Fail(rd.report)
    ensures rd.Ok? ==> StringBody(text, q0) == Prefixed(s + rd.value.lexeme, StringBody(text, rd.value.last + 1))
  {
    StringBodyStep(text, q, rd);
    if rd.Ok? {
      PrefixedTwice(s, rd.value.lexeme, StringBody(text, rd.value.last + 1));
    }
  }

  /** A character read at `q`, then the rest of the string read after it. */
  lemma StringBodyCons(text: seq<int>, q: nat, c: char, q1: nat, rest: string, e: nat, s: string)
    requires WellFormedText(text) && 1 <= q < q1 < |text| && text[q] != '"' as int
    requires ReadChar(text, q, '"' as int) == Ok(Read([c], q1 - 1))
    requires StringBody(text, q1) == Ok(Read(rest, e)) && s == [c] + rest
    ensures StringBody(text, q) == Ok(Read(s, e))
  {
  }

  /** A written string is read back up to the quote after it. */
  lemma {:induction false} QuotedStringBody(text: seq<int>, q: nat, s: seq<Latin1>)
    requires WellFormedText(text) && 1 <= q && q + |QuotedString(s)| < |text|
    requires StringWrittenAt(text, q, s) && text[q + |QuotedString(s)|] == '"' as int
    ensures StringBody(text, q) == Ok(Read(s, q + |QuotedString(s)|))
    decreases |s|
  {
    if |s| == 0 {
      assert QuotedString(s) == [];
      StringBodyAtQuote(text, q);
    } else {
      var w := Quoted(s[0], '"' as int);
      assert QuotedString(s) == w + QuotedString(s[1..]);
      assert StringWrittenAt(text, q + |w|, s[1..]);
      QuotedStringBody(text, q + |w|, s[1..]);
      QuotedStringCons(text, q, s);
    }
  }

  /** The first written character of a string read back, in front of the rest read back. */
  lemma QuotedStringCons(text: seq<int>, q: nat, s: seq<Latin1>)
    requires WellFormedText(text) && 1 <= q && |s| > 0 && q + |QuotedString(s)| < |text|
    requires StringWrittenAt(text, q, s)
    requires var k := q + |Quoted(s[0], '"' as int)|;
      k < |text| && StringBody(text, k) == Ok(Read(s[1..], q + |QuotedString(s)|))
    ensures StringBody(text, q) == Ok(Read(s, q + |QuotedString(s)|))
  {
    var c: Latin1 := s[0];
    var k := q + |Quoted(c, '"' as int)|;
    var tail: string := s[1..];
    assert WrittenAt(text, q, c, '"' as int);
    ReadQuoted(text, q, c, '"' as int);
    assert [c] + tail == s;
    StringBodyCons(text, q, c, k, tail, q + |QuotedString(s)|, s);
  }

  /** At the closing quote the string loop reads nothing. */
  lemma StringBodyAtQuote(text: seq<int>, q: nat)
    requires WellFormedText(text) && 1 <= q < |text| && text[q] == '"' as int
    ensures StringBody(text, q) == Ok(Read("", q))
  {
  }

  /** A string constant written with QuotedString is read back as the string. */
  lemma StringConstants(text: seq<int>, p: nat, s: seq<Latin1>)
    requires WellFormedText(text) && 1 <= p && p + 1 + |QuotedString(s)| < |text|
    requires text[p] == '"' as int && text[p + 1..p + 1 + |QuotedString(s)|] == QuotedString(s)
    requires text[p + 1 + |QuotedString(s)|] == '"' as int
    ensures Lex(text, p) == Ok(Lexed(STRINGCONST, s, p, p + 1 + |QuotedString(s)|))
  {
    var e := p + 1 + |QuotedString(s)|;
    StringWrittenFromSlice(text, p + 1, s);
    QuotedStringBody(text, p + 1, s);
    assert StringBody(text, p + 1) == Ok(Read(s, e));
    assert StringLexed(text, p) == Ok(Lexed(STRINGCONST, s, p, e));
    assert Lex(text, p) == StringLexed(text, p);
  }

  // ---------------------------------------------------------------------
  // matchOrThrow as written
  // ---------------------------------------------------------------------

  /**
   * Whether `Pattern.compile(regex, CASE_INSENSITIVE).matcher(s).find()`
   * holds for the one-character string of `c`, for the two patterns the
   * scanner passes: `&` is that character, while `|` is an alternation of
   * two empty patterns, which the empty match at offset 0 satisfies.
   */
  function FindsAsWritten(regex: string, c: int): bool
    requires regex == "&" || regex == "|"
  {
    if regex == "|" then true else c == '&' as int
  }

  /** The `&` and `|` arms of nextToken as written: matchOrThrow(regex), then the token. */
  function DoubledAsWritten(text: seq<int>, p: nat, regex: string, symbol: Symbol): Result<Lexed>
    requires WellFormedText(text) && 1 <= p < |text| - 1 && (regex == "&" || regex == "|")
  {
    if !FindsAsWritten(regex, text[p + 1]) then Fail(Unexpected(text, p + 1))
    else Ok(Lexed(symbol, [JavaChar(text[p + 1])], p, p + 1))
  }

  /** For `&` the pattern does what is meant. */
  lemma AmpersandAsWritten(text: seq<int>, p: nat)
    requires WellFormedText(text) && 1 <= p < |text| && text[p] == '&' as int
    ensures DoubledAsWritten(text, p, "&", AND) == Lex(text, p)
  {
  }

  /**
   * For `|`, as written, every following character makes OR with that
   * character as its lexeme, while the scanner that checks for a second
   * `|` reports any other character.
   */
  lemma BarAsWrittenAcceptsAnything(text: seq<int>, p: nat)
    requires WellFormedText(text) && 1 <= p < |text| - 1 && text[p] == '|' as int
    ensures DoubledAsWritten(text, p, "|", OR) == Ok(Lexed(OR, [JavaChar(text[p + 1])], p, p + 1))
    ensures text[p + 1] != '|' as int ==>
      DoubledAsWritten(text, p, "|", OR) != Lex(text, p) && Lex(text, p) == Fail(Unexpected(text, p + 1))
  {
    assert Lex(text, p) == DoubledLexed(text, p, OR);
  }

  /** The input `|x`: as written it makes OR with lexeme `x`. */
  lemma BarAsWrittenOnBarX()
    ensures var text := [StartOfFile, '|' as int, 'x' as int, EndOfFile];
      WellFormedText(text) &&
      DoubledAsWritten(text, 1, "|", OR) == Ok(Lexed(OR, "x", 1, 2)) &&
      Lex(text, 1) == Fail(Unexpected(text, 2))
  {
    var text := [StartOfFile, '|' as int, 'x' as int, EndOfFile];
    BarAsWrittenAcceptsAnything(text, 1);
    assert JavaChar(text[2]) == 'x';
  }

  // ---------------------------------------------------------------------
  // The scanner
  // ---------------------------------------------------------------------

  class LexAn {
    /** The reader's characters, then the end mark. */
    const input: seq<int>
    /** The characters read so far, after the start mark: the replay buffer. */
    var consumedChars: seq<int>
    /** Offset of the first character of the token being scanned. */
    var startOffset: int
    /** Offset of the current character. */
    var endOffset: int
    /** The position before the character at `startOffset`. */
    var startPosition: Pos
    /** The token read ahead and not yet taken. */
    var buffToken: Option<Token>

    /** Everything the scanner can look at: the start mark, then the input. */
    ghost const text: seq<int>

    /** The replay buffer is the part of the text read so far, and the offset lies within it. */
    ghost predicate Buffered()
      reads this
    {
      text == [StartOfFile] + input && WellFormedText(text) &&
      1 <= |consumedChars| <= |text| && consumedChars == text[..|consumedChars|] &&
      0 <= endOffset < |consumedChars|
    }

    /** The start position is the position before the start offset. */
    ghost predicate Positioned()
      reads this
    {
      Buffered() && 0 <= startOffset <= endOffset + 1 && startPosition == PosAt(text, startOffset)
    }

    /** Between tokens: the next token begins after the current character (or before anything is read). */
    ghost predicate Valid()
      reads this
    {
      Positioned() && (startOffset == endOffset + 1 || (startOffset == 0 && endOffset == 0))
    }

    /** Nothing consumed since the start position: it is the position before the current character. */
    ghost predicate AtStart()
      reads this
    {
      Positioned() && 1 <= endOffset && startPosition == PosAt(text, endOffset)
    }

    /** The scanned token is in the buffer, and the scanner stands where making it left it. */
    ghost predicate Made(lx: Lexed)
      reads this
    {
      Valid() && lx.first <= lx.last < |text| && buffToken == Some(TokenOf(text, lx)) && endOffset == lx.last
    }

    /** The token was made, or the report raised. */
    ghost predicate Scanned(o: Outcome, r: Result<Lexed>)
      reads this
    {
      match r
      case Ok(lx) => o == Pass && Made(lx)
      case Fail(rep) => o == Raise(rep)
    }

    /** A character was read, leaving the scanner on its last character, or the report raised. */
    ghost predicate ReadAs(r: Result<string>, rd: Result<Read>)
      reads this
    {
      match rd
      case Ok(x) => r == Ok(x.lexeme) && endOffset == x.last
      case Fail(rep) => r == Fail(rep)
    }

    constructor (input: seq<int>)
      requires InputOk(input)
      ensures this.input == input && Valid() && endOffset == 0 && buffToken == None
    {
      this.input := input;
      text := [StartOfFile] + input;
      consumedChars := [StartOfFile];
      startPosition := Origin;
      endOffset := 0;
      startOffset := 0;
      buffToken := None;
      TextOfInput(input);
    }

    /** currentChar: what the replay buffer holds at the offset is the text there. */
    function CurrentChar(): (c: int)
      reads this
      requires Buffered()
      ensures c == text[endOffset]
    {
      consumedChars[endOffset]
    }

    /**
     * nextChar: at the end mark nothing moves; otherwise the offset moves
     * on, replaying a character already read, or reading one more.
     */
    method NextChar()
      requires Buffered()
      modifies this
      ensures Buffered() && endOffset == NextOffset(text, old(endOffset))
      ensures old(endOffset < |consumedChars| - 1 || CurrentChar() == EndOfFile) ==> consumedChars == old(consumedChars)
      ensures startOffset == old(startOffset) && startPosition == old(startPosition) && buffToken == old(buffToken)
    {
      if CurrentChar() == EndOfFile {
        return;
      }
      if endOffset < |consumedChars| - 1 {
        endOffset := endOffset + 1;
        return;
      }
      // the reader has handed out |consumedChars| - 1 characters so far
      consumedChars := consumedChars + [input[|consumedChars| - 1]];
      endOffset := endOffset + 1;
    }

    /** stepBack: the previous character becomes current again. */
    method StepBack()
      requires Buffered() && endOffset >= 1
      modifies this
      ensures Buffered() && endOffset == old(endOffset) - 1
      ensures consumedChars == old(consumedChars) && startOffset == old(startOffset)
      ensures startPosition == old(startPosition) && buffToken == old(buffToken)
    {
      endOffset := endOffset - 1;
    }

    /** getEndPosition: the position after the current character. */
    method GetEndPosition() returns (pos: Pos)
      requires Positioned()
      ensures pos == Advance(startPosition, text, startOffset, endOffset + 1)
      ensures pos == PosAt(text, endOffset + 1)
    {
      var line := startPosition.line;
      var col := startPosition.col;
      var i := startOffset;
      while i <= endOffset
        invariant startOffset <= i <= endOffset + 1
        invariant Pos(line, col) == Advance(startPosition, text, startOffset, i)
      {
        var ch := consumedChars[i];
        if ch == '\n' as int {
          line := line + 1;
          col := 1;
        } else if ch == '\t' as int {
          col := TabColumn(col);
        } else if ch == StartOfFile || ch == EndOfFile {
        } else {
          col := col + 1;
        }
        i := i + 1;
      }
      pos := Pos(line, col);
      PosAtFrom(text, startOffset, endOffset + 1);
    }

    /** The tab arm of getEndPosition: up to a multiple of eight, then one more. */
    static method TabColumn(col0: int) returns (col: int)
      ensures col == TabStop(col0)
    {
      col := col0;
      while col % 8 != 0
        invariant TabStop(col) == TabStop(col0)
        decreases (8 - col % 8) % 8
      {
        TabMove(col);
        col := col + 1;
      }
      col := col + 1;
    }

    /** makeToken(symbol, lexeme): the token from the start position to the one after the current character. */
    method MakeLexemeToken(symbol: Symbol, lexeme: string)
      requires Positioned()
      modifies this
      ensures Valid() && endOffset == old(endOffset) && consumedChars == old(consumedChars)
      ensures buffToken == Some(Token(LocationOf(old(startPosition), PosAt(text, endOffset + 1)), symbol, lexeme))
    {
      var endPosition := GetEndPosition();
      buffToken := Some(Token(LocationOf(startPosition, endPosition), symbol, lexeme));
      startPosition := endPosition;
      startOffset := endOffset + 1;
    }

    /** makeToken(symbol): the lexeme is the current character. */
    method MakeToken(symbol: Symbol)
      requires Positioned()
      modifies this
      ensures Valid() && endOffset == old(endOffset) && consumedChars == old(consumedChars)
      ensures buffToken == Some(Token(LocationOf(old(startPosition), PosAt(text, endOffset + 1)), symbol, [JavaChar(old(CurrentChar()))]))
    {
      MakeLexemeToken(symbol, [JavaChar(CurrentChar())]);
    }

    /** skipToken: the next token starts after the current character, which is passed. */
    method SkipToken()
      requires Positioned()
      modifies this
      ensures Positioned() && startOffset == old(endOffset) + 1 && endOffset == NextOffset(text, old(endOffset))
      ensures buffToken == old(buffToken)
    {
      startPosition := GetEndPosition();
      startOffset := endOffset + 1;
      NextChar();
    }

    /** skipLineComment: every character up to the newline or the end mark is skipped. */
    method SkipLineComment()
      requires AtStart()
      modifies this
      ensures AtStart() && endOffset == CommentEnd(text, old(endOffset)) && buffToken == old(buffToken)
    {
      while CurrentChar() != '\n' as int && CurrentChar() != EndOfFile
        invariant AtStart() && old(endOffset) <= endOffset <= CommentEnd(text, old(endOffset))
        invariant buffToken == old(buffToken)
        decreases |text| - endOffset
      {
        SkipToken();
      }
    }

    /** unexpectedTokenError: the current character and the position after it; the message text is `UnexpectedMessage` of its code. */
    method UnexpectedTokenError() returns (r: Report)
      requires Positioned()
      ensures r == Unexpected(text, endOffset)
    {
      var c := CurrentChar();
      var at := GetEndPosition();
      r := UnexpectedChar(at.line, at.col, c);
    }

    /** readCharLexeme: one character of a constant enclosed in `quote`s. */
    method ReadCharLexeme(quote: int) returns (r: Result<string>)
      requires Positioned() && 1 <= endOffset && CodeUnit(quote)
      modifies this
      ensures Positioned() && ReadAs(r, ReadChar(text, old(endOffset), quote))
      ensures startOffset == old(startOffset) && startPosition == old(startPosition) && buffToken == old(buffToken)
    {
      var lexeme: string;
      if CurrentChar() == '\\' as int {
        NextChar();
        if CurrentChar() == 'n' as int {
          lexeme := "\n";
        } else if CurrentChar() == quote {
          lexeme := [JavaChar(quote)];
        } else if CurrentChar() == '\\' as int {
          lexeme := "\\";
        } else {
          var asciiCode: string;
          if IsHexDigit(CurrentChar()) {
            asciiCode := [JavaChar(CurrentChar())];
          } else {
            var e := UnexpectedTokenError();
            return Fail(e);
          }
          ghost var high := CurrentChar();
          NextChar();
          if IsHexDigit(CurrentChar()) {
            asciiCode := asciiCode + [JavaChar(CurrentChar())];
          } else {
            var e := UnexpectedTokenError();
            return Fail(e);
          }
          assert asciiCode == [JavaChar(high), JavaChar(CurrentChar())];
          ParseTwoHexDigits(high, CurrentChar());
          assert ParseDigits(asciiCode, 16).value == HexValue(high) * 16 + HexValue(CurrentChar());
          var decAsciiCode := ParseDigits(asciiCode, 16).value;
          assert decAsciiCode < 256;
          lexeme := [decAsciiCode as char];
        }
      } else if IsPrintable(CurrentChar()) {
        lexeme := [JavaChar(CurrentChar())];
      } else {
        var e := UnexpectedTokenError();
        return Fail(e);
      }
      return Ok(lexeme);
    }

    /** consumeNumber: the digits, with the scanner left on the character after them. */
    method ConsumeNumber()
      requires AtStart() && IsDigit(CurrentChar())
      modifies this
      ensures Made(NumberLexed(text, old(endOffset)))
    {
      ghost var p := endOffset;
      ghost var q := NumberEnd(text, p);
      var lexeme := "";
      while IsDigit(CurrentChar())
        invariant Positioned() && p <= endOffset <= q
        invariant startOffset == old(startOffset) && startPosition == old(startPosition)
        invariant lexeme == Chars(text, p, endOffset)
        decreases |text| - endOffset
      {
        ghost var e := endOffset;
        assert CurrentChar() == text[e] && e < q;
        lexeme := lexeme + [JavaChar(CurrentChar())];
        NextChar();
        assert endOffset == e + 1;
      }
      assert endOffset == q;
      MakeLexemeToken(INTCONST, lexeme);
    }

    /** consumeKeywordOrIdentifier: the word characters, then one step back onto the last of them. */
    method ConsumeKeywordOrIdentifier()
      requires AtStart() && IsWordStart(CurrentChar())
      modifies this
      ensures Made(WordLexed(text, old(endOffset)))
    {
      ghost var p := endOffset;
      ghost var q := WordEnd(text, p);
      var lexeme := "";
      while IsWordChar(CurrentChar())
        invariant Positioned() && p <= endOffset <= q
        invariant startOffset == old(startOffset) && startPosition == old(startPosition)
        invariant lexeme == Chars(text, p, endOffset)
        decreases |text| - endOffset
      {
        ghost var e := endOffset;
        assert CurrentChar() == text[e] && e < q;
        lexeme := lexeme + [JavaChar(CurrentChar())];
        NextChar();
        assert endOffset == e + 1;
      }
      assert endOffset == q;
      StepBack();
      var symbol := KeywordOf(lexeme);
      MakeLexemeToken(symbol, lexeme);
    }

    /** The `"` arm of nextToken: characters up to the closing quote. */
    method ScanString() returns (o: Outcome)
      requires AtStart() && CurrentChar() == '"' as int
      modifies this
      ensures Scanned(o, StringLexed(text, old(endOffset)))
    {
      NextChar();
      var stringLexeme := ReadStringBody();
      if stringLexeme.Fail? {
        return Raise(stringLexeme.report);
      }
      MakeLexemeToken(STRINGCONST, stringLexeme.value);
      o := Pass;
    }

    /** The loop of the `"` arm: the characters before the closing quote, on which the scanner stops. */
    method ReadStringBody() returns (r: Result<string>)
      requires Positioned() && 1 <= endOffset
      modifies this
      ensures Positioned() && ReadAs(r, StringBody(text, old(endOffset)))
      ensures startOffset == old(startOffset) && startPosition == old(startPosition) && buffToken == old(buffToken)
    {
      ghost var q0 := endOffset;
      var stringLexeme := "";
      PrefixedNothing(StringBody(text, endOffset));
      while CurrentChar() != '"' as int
        invariant Positioned() && q0 <= endOffset
        invariant startOffset == old(startOffset) && startPosition == old(startPosition) && buffToken == old(buffToken)
        invariant StringBody(text, q0) == Prefixed(stringLexeme, StringBody(text, endOffset))
        decreases |text| - endOffset
      {
        ghost var q := endOffset;
        ghost var rd := ReadChar(text, q, '"' as int);
        StringBodyFurther(text, q0, q, stringLexeme, rd);
        var r := ReadCharLexeme('"' as int);
        if r.Fail? {
          return Fail(r.report);
        }
        stringLexeme := stringLexeme + r.value;
        NextChar();
      }
      assert StringBody(text, endOffset) == Ok(Read("", endOffset));
      assert stringLexeme + "" == stringLexeme;
      r := Ok(stringLexeme);
    }

    /** The `'` arm of nextToken: one character read on the opening quote, then a quote. */
    method ScanCharConst() returns (o: Outcome)
      requires AtStart() && CurrentChar() == '\'' as int
      modifies this
      ensures Scanned(o, CharLexed(text, old(endOffset)))
    {
      var charLexeme := ReadCharLexeme('\'' as int);
      if charLexeme.Fail? {
        return Raise(charLexeme.report);
      }
      NextChar();
      if CurrentChar() != '\'' as int {
        var e := UnexpectedTokenError();
        return Raise(e);
      }
      MakeLexemeToken(CHARCONST, charLexeme.value);
      o := Pass;
    }

    /** matchOrThrow (with the intended pattern): the current character must be `expected`. */
    method MatchOrThrow(expected: int) returns (o: Outcome)
      requires Positioned()
      ensures o == if CurrentChar() == expected then Pass else Raise(Unexpected(text, endOffset))
    {
      if CurrentChar() != expected {
        var e := UnexpectedTokenError();
        return Raise(e);
      }
      o := Pass;
    }

    /** The `&` and `|` arms of nextToken: the character must come twice. */
    method ScanDoubled(c: int, symbol: Symbol) returns (o: Outcome)
      requires AtStart() && CurrentChar() == c && (c == '&' as int || c == '|' as int)
      modifies this
      ensures Scanned(o, DoubledLexed(text, old(endOffset), symbol))
    {
      NextChar();
      o := MatchOrThrow(c);
      if o.Raise? {
        return;
      }
      MakeToken(symbol);
    }

    /** The `=`, `!`, `>` and `<` arms of nextToken: with a following `=`, or a step back. */
    method ScanPair(double: Symbol, single: Symbol)
      requires AtStart() && CurrentChar() != EndOfFile
      modifies this
      ensures Made(PairLexed(text, old(endOffset), double, single))
    {
      NextChar();
      if CurrentChar() == '=' as int {
        MakeToken(double);
      } else {
        StepBack();
        MakeToken(single);
      }
    }

    /**
     * nextToken: blanks and comments are skipped until a token is made, or
     * an error is raised.
     */
    method NextToken() returns (o: Outcome)
      requires Valid()
      modifies this
      ensures Scanned(o, Lex(text, NextOffset(text, old(endOffset))))
    {
      ghost var p0 := NextOffset(text, endOffset);
      assert CurrentChar() == EndOfFile || endOffset == 0 ==> PosAt(text, endOffset + 1) == PosAt(text, endOffset);
      NextChar();
      buffToken := None;
      o := Pass;
      while buffToken == None
        invariant o == Pass
        invariant buffToken.None? ==> AtStart() && p0 <= endOffset && SkipsTo(text, p0, endOffset)
        invariant buffToken.Some? ==> Scanned(Pass, Lex(text, p0))
        decreases if buffToken.None? then 1 else 0, |text| - endOffset
      {
        var c := CurrentChar();
        if c == '#' as int || IsBlank(c) {
          SkipBlankOrComment(p0);
        } else {
          SkippedLex(text, p0, endOffset);
          o := ScanToken();
          if o.Raise? {
            return;
          }
        }
      }
    }

    /** The arms of nextToken that make no token: a comment, or a blank. */
    method SkipBlankOrComment(ghost p0: nat)
      requires AtStart() && p0 <= endOffset && SkipsTo(text, p0, endOffset)
      requires CurrentChar() == '#' as int || IsBlank(CurrentChar())
      modifies this
      ensures AtStart() && old(endOffset) < endOffset && SkipsTo(text, p0, endOffset)
      ensures buffToken == old(buffToken)
    {
      ghost var e := endOffset;
      if CurrentChar() == '#' as int {
        SkipLineComment();
      } else {
        SkipToken();
      }
      SkipsFurther(text, p0, e, endOffset);
    }

    /** One arm of nextToken that makes a token: the character at hand selects it. */
    method ScanToken() returns (o: Outcome)
      requires AtStart() && CurrentChar() != '#' as int && !IsBlank(CurrentChar())
      modifies this
      ensures Scanned(o, Lex(text, old(endOffset)))
    {
      var c := CurrentChar();
      o := Pass;
      if c == '"' as int {
        o := ScanString();
      } else if c == '\'' as int {
        o := ScanCharConst();
      } else if OneCharSymbol(c).Some? {
        MakeToken(OneCharSymbol(c).value);
      } else if c == '&' as int {
        o := ScanDoubled(c, AND);
      } else if c == '|' as int {
        o := ScanDoubled(c, OR);
      } else if PairSymbols(c).Some? {
        ScanPair(PairSymbols(c).value.0, PairSymbols(c).value.1);
      } else if IsDigit(c) {
        ConsumeNumber();
      } else if c == EndOfFile {
        MakeToken(EOF);
      } else if IsWordStart(c) {
        ConsumeKeywordOrIdentifier();
      } else {
        var e := UnexpectedTokenError();
        o := Raise(e);
      }
    }

    /**
     * peekToken: the buffered token, or the next one read into the buffer;
     * peeking again returns the same token and changes nothing.
     */
    method PeekToken() returns (r: Result<Token>)
      requires Valid()
      modifies this
      ensures old(buffToken).Some? ==> r == Ok(old(buffToken).value) && unchanged(this)
      ensures old(buffToken).None? ==> r == NextTokenOf(text, old(endOffset))
      ensures r.Ok? ==> Valid() && buffToken == Some(r.value)
      ensures old(buffToken).None? && r.Ok? ==>
        Lex(text, NextOffset(text, old(endOffset))).Ok? &&
        endOffset == Lex(text, NextOffset(text, old(endOffset))).value.last
    {
      if buffToken == None {
        var o := NextToken();
        if o.Raise? {
          return Fail(o.report);
        }
      }
      r := Ok(buffToken.value);
    }

    /** takeToken: the token peekToken would return; the buffer is emptied. */
    method TakeToken() returns (r: Result<Token>)
      requires Valid()
      modifies this
      ensures old(buffToken).Some? ==> r == Ok(old(buffToken).value) && endOffset == old(endOffset)
      ensures old(buffToken).None? ==> r == NextTokenOf(text, old(endOffset))
      ensures r.Ok? ==> Valid() && buffToken == None
      ensures old(buffToken).None? && r.Ok? ==>
        Lex(text, NextOffset(text, old(endOffset))).Ok? &&
        endOffset == Lex(text, NextOffset(text, old(endOffset))).value.last
    {
      if buffToken == None {
        var o := NextToken();
        if o.Raise? {
          return Fail(o.report);
        }
      }
      var thisToken := buffToken.value;
      buffToken := None;
      r := Ok(thisToken);
    }
  }
}
