/**
 * The lexer: a cursor over the source text that skips blanks and comments
 * and yields one token per call. The pure functions describe one call on a
 * cursor; the class `Lexer` is the stateful scanner of the original,
 * proved to follow them.
 */
module Lexing {
  import opened Common
  import opened Tokens
  import opened Failures
  import Decimal

  /** The class `\s` of a JavaScript regular expression. */
  predicate IsWhitespace(c: char)
  {
    c == ' ' || c == '\t' || c == '\n' || c == '\r' || c == '\U{000B}' || c == '\U{000C}'
    || c == '\U{00A0}' || c == '\U{1680}' || ('\U{2000}' <= c <= '\U{200A}')
    || c == '\U{2028}' || c == '\U{2029}' || c == '\U{202F}' || c == '\U{205F}'
    || c == '\U{3000}' || c == '\U{FEFF}'
  }

  /** The class `[a-zA-Z]`. */
  predicate IsLetter(c: char)
  {
    ('a' <= c <= 'z') || ('A' <= c <= 'Z')
  }

  /** The class `[a-zA-Z0-9]`. */
  predicate IsAlphaNumeric(c: char)
  {
    IsLetter(c) || Decimal.IsDigit(c)
  }

  /** A lexeme the identifier rule can produce: a letter followed by letters and digits. */
  predicate IsWord(s: string)
  {
    |s| > 0 && IsLetter(s[0]) && forall i :: 0 <= i < |s| ==> IsAlphaNumeric(s[i])
  }

  /** `input[position]`, or `null` past the end. */
  function CharAt(input: string, pos: int): (r: Option<char>)
    ensures r.Some? <==> 0 <= pos < |input|
    ensures r.Some? ==> r.value == input[pos]
  {
    if 0 <= pos < |input| then Some(input[pos]) else None
  }

  /** The number of line feeds in `input[p..q]`. */
  function Newlines(input: string, p: nat, q: nat): nat
    requires p <= q <= |input|
    decreases q - p
  {
    if p == q then 0 else (if input[p] == '\n' then 1 else 0) + Newlines(input, p + 1, q)
  }

  /** The lexer's position and line counter. */
  datatype Cursor = Cursor(pos: nat, line: int)

  /** What one call of `advance` does to the cursor (see `StepCountsLines`). */
  function Step(input: string, c: Cursor): Cursor
  {
    Cursor(c.pos + 1, if CharAt(input, c.pos) == Some('\n') then c.line + 1 else c.line)
  }

  /**
   * `advance` moves one position on, and adds to the line the line feeds
   * of the one character it leaves behind; past the end the line stays.
   */
  lemma StepCountsLines(input: string, c: Cursor)
    ensures Step(input, c).pos == c.pos + 1
    ensures c.pos < |input| ==> Step(input, c).line == c.line + Newlines(input, c.pos, c.pos + 1)
    ensures c.pos >= |input| ==> Step(input, c).line == c.line
  {
  }

  /** The line feeds of `input[p..q+1]`, split off the last character. */
  lemma {:induction false} NewlinesLast(input: string, p: nat, q: nat)
    requires p <= q < |input|
    ensures Newlines(input, p, q + 1) == Newlines(input, p, q) + (if input[q] == '\n' then 1 else 0)
    decreases q - p
  {
    if p < q {
      NewlinesLast(input, p + 1, q);
    }
  }

  /** A stretch without line feeds counts none. */
  lemma {:induction false} NoNewlines(input: string, p: nat, q: nat)
    requires p <= q <= |input|
    requires forall i :: p <= i < q ==> input[i] != '\n'
    ensures Newlines(input, p, q) == 0
    decreases q - p
  {
    if p < q {
      NoNewlines(input, p + 1, q);
    }
  }

  /** `skipWhitespace`: advance over the maximal run of blanks (see `SkipBlanksIs`). */
  function SkipBlanks(input: string, c: Cursor): (r: Cursor)
    requires c.pos <= |input|
    ensures c.pos <= r.pos <= |input| && c.line <= r.line
    ensures c.pos < |input| && IsWhitespace(input[c.pos]) ==> c.pos < r.pos
    decreases |input| - c.pos
  {
    if c.pos < |input| && IsWhitespace(input[c.pos]) then SkipBlanks(input, Step(input, c)) else c
  }

  /** `SkipBlanks` stops at the first character that is not a blank, counting the line feeds it passes. */
  lemma {:induction false} SkipBlanksIs(input: string, c: Cursor, q: nat)
    requires c.pos <= q <= |input|
    requires forall i :: c.pos <= i < q ==> IsWhitespace(input[i])
    requires q == |input| || !IsWhitespace(input[q])
    ensures SkipBlanks(input, c) == Cursor(q, c.line + Newlines(input, c.pos, q))
    decreases q - c.pos
  {
    if c.pos < q {
      SkipBlanksIs(input, Step(input, c), q);
    }
  }

  /**
   * `skipComment(stop)`: advance up to the first `stop` character and then
   * once more, past it (or past the end when there is none); see
   * `SkipPastIs` and `SkipPastEnd`.
   */
  function SkipPast(input: string, c: Cursor, stop: char): (r: Cursor)
    requires c.pos <= |input|
    ensures c.pos < r.pos <= |input| + 1 && c.line <= r.line
    decreases |input| - c.pos
  {
    if c.pos < |input| && input[c.pos] != stop then SkipPast(input, Step(input, c), stop) else Step(input, c)
  }

  /** `SkipPast` stops just after the first `stop` character, counting the line feeds it passes. */
  lemma {:induction false} SkipPastIs(input: string, c: Cursor, stop: char, q: nat)
    requires c.pos <= q < |input| && input[q] == stop
    requires forall i :: c.pos <= i < q ==> input[i] != stop
    ensures SkipPast(input, c, stop) == Cursor(q + 1, c.line + Newlines(input, c.pos, q + 1))
    decreases q - c.pos
  {
    if c.pos < q {
      SkipPastIs(input, Step(input, c), stop, q);
    }
  }

  /** With no `stop` character left, `SkipPast` runs one past the end. */
  lemma {:induction false} SkipPastEnd(input: string, c: Cursor, stop: char)
    requires c.pos <= |input|
    requires forall i :: c.pos <= i < |input| ==> input[i] != stop
    ensures SkipPast(input, c, stop) == Cursor(|input| + 1, c.line + Newlines(input, c.pos, |input|))
    decreases |input| - c.pos
  {
    if c.pos < |input| {
      SkipPastEnd(input, Step(input, c), stop);
    }
  }

  /** The end of the maximal run of digits starting at `p`. */
  function DigitRunEnd(input: string, p: nat): (q: nat)
    requires p <= |input|
    ensures p <= q <= |input|
    ensures Decimal.AllDigits(input[p..q])
    ensures q == |input| || !Decimal.IsDigit(input[q])
    decreases |input| - p
  {
    if p < |input| && Decimal.IsDigit(input[p]) then DigitRunEnd(input, p + 1) else p
  }

  /** The end of the maximal run of letters and digits starting at `p`. */
  function WordRunEnd(input: string, p: nat): (q: nat)
    requires p <= |input|
    ensures p <= q <= |input|
    ensures forall i :: p <= i < q ==> IsAlphaNumeric(input[i])
    ensures q == |input| || !IsAlphaNumeric(input[q])
    decreases |input| - p
  {
    if p < |input| && IsAlphaNumeric(input[p]) then WordRunEnd(input, p + 1) else p
  }

  /** A token together with the cursor just after it. */
  datatype Lexed = Lexed(tok: Token, after: Cursor)

  /** `number()`, at a digit. */
  function ScanNumber(input: string, c: Cursor): (r: Result<Lexed>)
    requires c.pos < |input| && Decimal.IsDigit(input[c.pos])
    ensures r.Ok? ==> c.pos < r.value.after.pos <= |input| && r.value.after.line == c.line
    ensures r.Ok? ==> r.value.tok.kind == IntegerLiteral && Lexable(r.value.tok)
  {
    var q := DigitRunEnd(input, c.pos);
    if CharAt(input, q) == Some('.') then Err(UnexpectedCharacter('.', c.line))
    else Ok(Lexed(Token(IntegerLiteral, Int(Decimal.Value(input[c.pos..q]))), Cursor(q, c.line)))
  }

  /** The reserved-word lookup of `identifier()`. */
  function WordToken(w: string): Token
  {
    if w in ReservedWords then ReservedWords[w] else Token(Identifier, Str(w))
  }

  /** `identifier()`, at a letter. */
  function ScanWord(input: string, c: Cursor): (r: Lexed)
    requires c.pos < |input| && IsLetter(input[c.pos])
    ensures c.pos < r.after.pos <= |input| && r.after.line == c.line
    ensures r.tok.kind != Eof && Lexable(r.tok)
  {
    var q := WordRunEnd(input, c.pos);
    WordTokenLexable(input[c.pos..q]);
    Lexed(WordToken(input[c.pos..q]), Cursor(q, c.line))
  }

  /**
   * The operator and punctuation rules, tried in the original's order:
   * `:=`, `=`, `>=` and `<=` here, the rest in `ScanOperator` and
   * `ScanPunctuation`.
   */
  function ScanSymbol(input: string, c: Cursor): (r: Result<Lexed>)
    requires c.pos < |input|
    ensures r.Ok? ==> c.pos < r.value.after.pos <= |input| && r.value.after.line == c.line
    ensures r.Ok? ==> r.value.tok.kind != Eof && Lexable(r.value.tok)
  {
    var ch := input[c.pos];
    var next := CharAt(input, c.pos + 1);
    var one := Cursor(c.pos + 1, c.line);
    var two := Cursor(c.pos + 2, c.line);
    if ch == ':' && next == Some('=') then Ok(Lexed(Token(Assign, Str(":=")), two))
    else if ch == '=' then Ok(Lexed(Token(Eq, Str("=")), one))
    else if ch == '>' && next == Some('=') then Ok(Lexed(Token(Gte, Str(">=")), two))
    else if ch == '<' && next == Some('=') then Ok(Lexed(Token(Lte, Str("<=")), two))
    else ScanOperator(input, c)
  }

  /** The rules after `<=`: `<>`, then the single `>`, `<` and `:`, then the punctuation. */
  function ScanOperator(input: string, c: Cursor): (r: Result<Lexed>)
    requires c.pos < |input|
    ensures r.Ok? ==> c.pos < r.value.after.pos <= |input| && r.value.after.line == c.line
    ensures r.Ok? ==> r.value.tok.kind != Eof && Lexable(r.value.tok)
  {
    var ch := input[c.pos];
    var one := Cursor(c.pos + 1, c.line);
    if ch == '<' && CharAt(input, c.pos + 1) == Some('>') then Ok(Lexed(Token(Diff, Str("<>")), Cursor(c.pos + 2, c.line)))
    else if ch == '>' then Ok(Lexed(Token(Gt, Str(">")), one))
    else if ch == '<' then Ok(Lexed(Token(Lt, Str("<")), one))
    else if ch == ':' then Ok(Lexed(Token(Colon, Str(":")), one))
    else ScanPunctuation(input, c)
  }

  /** The single-character rules that follow the operators in `getNextToken`, and its final error. */
  function ScanPunctuation(input: string, c: Cursor): (r: Result<Lexed>)
    requires c.pos < |input|
    ensures r.Ok? ==> r.value.after == Cursor(c.pos + 1, c.line)
    ensures r.Ok? ==> r.value.tok.kind != Eof && Lexable(r.value.tok)
    ensures r.Err? <==> input[c.pos] !in ",;.+-*/()"
  {
    var ch := input[c.pos];
    var one := Cursor(c.pos + 1, c.line);
    if ch == ',' then Ok(Lexed(Token(Comma, Str(",")), one))
    else if ch == ';' then Ok(Lexed(Token(Semicolon, Str(";")), one))
    else if ch == '.' then Ok(Lexed(Token(Dot, Str(".")), one))
    else if ch == '+' then Ok(Lexed(Token(Plus, Str("+")), one))
    else if ch == '-' then Ok(Lexed(Token(Minus, Str("-")), one))
    else if ch == '*' then Ok(Lexed(Token(Asterisk, Str("*")), one))
    else if ch == '/' then Ok(Lexed(Token(Slash, Str("/")), one))
    else if ch == '(' then Ok(Lexed(Token(LeftParenthesis, Str("(")), one))
    else if ch == ')' then Ok(Lexed(Token(RightParenthesis, Str(")")), one))
    else Err(UnexpectedCharacter(ch, c.line))
  }

  /** The shapes of token the lexer produces. */
  predicate Lexable(t: Token)
  {
    && (t.kind == Identifier ==> t.value.Str? && IsWord(t.value.s))
    && (t.kind == IntegerLiteral ==> t.value.Int? && t.value.n >= 0)
    && (t.kind == BooleanLiteral ==> t.value == Str("verdadeiro") || t.value == Str("falso"))
    && (t.kind == Eof <==> t.value == Null)
    && (t.kind != IntegerLiteral && t.kind != Eof ==> t.value.Str?)
  }

  lemma WordTokenLexable(w: string)
    requires IsWord(w)
    ensures Lexable(WordToken(w))
  {
    if w in ReservedWords {
      ReservedWordsEntry(w);
    }
  }

  /** `getNextToken`: skip blanks and comments, then scan one token. */
  function NextToken(input: string, c: Cursor): (r: Result<Lexed>)
    requires c.pos <= |input| + 1
    ensures r.Ok? ==> c.pos <= r.value.after.pos <= |input| + 1
    ensures r.Ok? ==> c.line <= r.value.after.line
    ensures r.Ok? && r.value.tok.kind != Eof ==> c.pos < r.value.after.pos
    ensures r.Ok? && r.value.tok.kind == Eof ==> r.value.tok == Token(Eof, Null) && r.value.after.pos >= |input|
    ensures r.Ok? ==> Lexable(r.value.tok)
    decreases |input| + 1 - c.pos, 1
  {
    if c.pos >= |input| then Ok(Lexed(Token(Eof, Null), c)) else ScanToken(input, c)
  }

  /** One pass of `getNextToken`'s loop, at a character of the text. */
  function ScanToken(input: string, c: Cursor): (r: Result<Lexed>)
    requires c.pos < |input|
    ensures r.Ok? ==> c.pos < r.value.after.pos <= |input| + 1
    ensures r.Ok? ==> c.line <= r.value.after.line
    ensures r.Ok? && r.value.tok.kind == Eof ==> r.value.tok == Token(Eof, Null) && r.value.after.pos >= |input|
    ensures r.Ok? ==> Lexable(r.value.tok)
    decreases |input| + 1 - c.pos, 0
  {
    var ch := input[c.pos];
    if IsWhitespace(ch) then NextToken(input, SkipBlanks(input, c))
    else if ch == '{' then NextToken(input, SkipPast(input, Step(input, c), '}'))
    else if ch == '/' && CharAt(input, c.pos + 1) == Some('/') then
      NextToken(input, SkipPast(input, Step(input, c), '\n'))
    else if Decimal.IsDigit(ch) then ScanNumber(input, c)
    else if IsLetter(ch) then Ok(ScanWord(input, c))
    else ScanSymbol(input, c)
  }

  /** The characters that can begin a token, a blank or a comment. */
  predicate Recognised(ch: char)
  {
    IsWhitespace(ch) || Decimal.IsDigit(ch) || IsLetter(ch) || ch in "{:=<>,;.+-*/()"
  }

  /** The maximal digit run from `p` is the one the scanner finds. */
  lemma {:induction false} DigitRunEndIs(input: string, p: nat, q: nat)
    requires p <= q <= |input|
    requires forall i :: p <= i < q ==> Decimal.IsDigit(input[i])
    requires q == |input| || !Decimal.IsDigit(input[q])
    ensures DigitRunEnd(input, p) == q
    decreases q - p
  {
    if p < q {
      DigitRunEndIs(input, p + 1, q);
    }
  }

  /** The maximal alphanumeric run from `p` is the one the scanner finds. */
  lemma {:induction false} WordRunEndIs(input: string, p: nat, q: nat)
    requires p <= q <= |input|
    requires forall i :: p <= i < q ==> IsAlphaNumeric(input[i])
    requires q == |input| || !IsAlphaNumeric(input[q])
    ensures WordRunEnd(input, p) == q
    decreases q - p
  {
    if p < q {
      WordRunEndIs(input, p + 1, q);
    }
  }

  /**
   * A maximal run of digits immediately followed by `.` is a lexical error;
   * otherwise it is an integer literal carrying the run's decimal value.
   */
  lemma NumberRule(input: string, c: Cursor, q: nat)
    requires c.pos < q <= |input|
    requires forall i :: c.pos <= i < q ==> Decimal.IsDigit(input[i])
    requires q == |input| || !Decimal.IsDigit(input[q])
    ensures q < |input| && input[q] == '.' ==>
      NextToken(input, c) == Err(UnexpectedCharacter('.', c.line))
    ensures !(q < |input| && input[q] == '.') ==>
      NextToken(input, c) == Ok(Lexed(Token(IntegerLiteral, Int(Decimal.Value(input[c.pos..q]))), Cursor(q, c.line)))
  {
    NumberDispatch(input, c);
    DigitRunEndIs(input, c.pos, q);
  }

  /**
   * An identifier is the maximal alphanumeric run starting at a letter; a
   * reserved spelling gives the table's token, anything else an identifier
   * token carrying the raw text.
   */
  lemma IdentifierRule(input: string, c: Cursor, q: nat)
    requires c.pos < q <= |input| && IsLetter(input[c.pos])
    requires forall i :: c.pos <= i < q ==> IsAlphaNumeric(input[i])
    requires q == |input| || !IsAlphaNumeric(input[q])
    ensures input[c.pos..q] in ReservedWords ==>
      NextToken(input, c) == Ok(Lexed(ReservedWords[input[c.pos..q]], Cursor(q, c.line)))
    ensures input[c.pos..q] !in ReservedWords ==>
      NextToken(input, c) == Ok(Lexed(Token(Identifier, Str(input[c.pos..q])), Cursor(q, c.line)))
  {
    WordDispatch(input, c);
    WordRunEndIs(input, c.pos, q);
  }

  /** At a digit, the number rule decides. */
  lemma NumberDispatch(input: string, c: Cursor)
    requires c.pos < |input| && Decimal.IsDigit(input[c.pos])
    ensures NextToken(input, c) == ScanNumber(input, c)
  {
    assert !IsWhitespace(input[c.pos]) && input[c.pos] != '{' && input[c.pos] != '/';
    assert NextToken(input, c) == ScanToken(input, c);
  }

  /** At a letter, the identifier rule decides. */
  lemma WordDispatch(input: string, c: Cursor)
    requires c.pos < |input| && IsLetter(input[c.pos])
    ensures NextToken(input, c) == Ok(ScanWord(input, c))
  {
    assert !IsWhitespace(input[c.pos]) && input[c.pos] != '{' && input[c.pos] != '/' && !Decimal.IsDigit(input[c.pos]);
    assert NextToken(input, c) == ScanToken(input, c);
  }

  /** At a character that begins no blank, comment, number or word, the operator rules decide. */
  lemma SymbolDispatch(input: string, c: Cursor)
    requires c.pos < |input|
    requires !IsWhitespace(input[c.pos]) && input[c.pos] != '{' && !Decimal.IsDigit(input[c.pos]) && !IsLetter(input[c.pos])
    requires !(input[c.pos] == '/' && CharAt(input, c.pos + 1) == Some('/'))
    ensures NextToken(input, c) == ScanSymbol(input, c)
  {
    assert NextToken(input, c) == ScanToken(input, c);
  }

  /** `:=` is tried before `:`. */
  lemma AssignBeforeColon(input: string, c: Cursor)
    requires c.pos < |input| && input[c.pos] == ':'
    ensures NextToken(input, c) ==
      if CharAt(input, c.pos + 1) == Some('=') then Ok(Lexed(Token(Assign, Str(":=")), Cursor(c.pos + 2, c.line)))
      else Ok(Lexed(Token(Colon, Str(":")), Cursor(c.pos + 1, c.line)))
  {
    SymbolDispatch(input, c);
  }

  /** `>=` is tried before `>`. */
  lemma GreaterOrEqualBeforeGreater(input: string, c: Cursor)
    requires c.pos < |input| && input[c.pos] == '>'
    ensures NextToken(input, c) ==
      if CharAt(input, c.pos + 1) == Some('=') then Ok(Lexed(Token(Gte, Str(">=")), Cursor(c.pos + 2, c.line)))
      else Ok(Lexed(Token(Gt, Str(">")), Cursor(c.pos + 1, c.line)))
  {
    SymbolDispatch(input, c);
  }

  /** `<=` and `<>` are tried before `<`. */
  lemma LessOrDifferentBeforeLess(input: string, c: Cursor)
    requires c.pos < |input| && input[c.pos] == '<'
    ensures NextToken(input, c) ==
      if CharAt(input, c.pos + 1) == Some('=') then Ok(Lexed(Token(Lte, Str("<=")), Cursor(c.pos + 2, c.line)))
      else if CharAt(input, c.pos + 1) == Some('>') then Ok(Lexed(Token(Diff, Str("<>")), Cursor(c.pos + 2, c.line)))
      else Ok(Lexed(Token(Lt, Str("<")), Cursor(c.pos + 1, c.line)))
  {
    SymbolDispatch(input, c);
  }

  /** A single `/` not followed by another is the SLASH token. */
  lemma LoneSlash(input: string, c: Cursor)
    requires c.pos < |input| && input[c.pos] == '/' && CharAt(input, c.pos + 1) != Some('/')
    ensures NextToken(input, c) == Ok(Lexed(Token(Slash, Str("/")), Cursor(c.pos + 1, c.line)))
  {
    SymbolDispatch(input, c);
  }

  /** Any character that begins neither a token, a blank nor a comment is a lexical error. */
  lemma UnknownCharacterRejected(input: string, c: Cursor)
    requires c.pos < |input| && !Recognised(input[c.pos])
    ensures NextToken(input, c) == Err(UnexpectedCharacter(input[c.pos], c.line))
  {
    SymbolDispatch(input, c);
  }

  /** At a blank, scanning resumes wherever skipping the run of blanks leads. */
  lemma BlankDispatch(input: string, c: Cursor)
    requires c.pos < |input| && IsWhitespace(input[c.pos])
    ensures NextToken(input, c) == NextToken(input, SkipBlanks(input, c))
  {
    assert NextToken(input, c) == ScanToken(input, c);
  }

  /** At `{`, scanning resumes wherever skipping past the next `}` leads. */
  lemma BraceDispatch(input: string, c: Cursor)
    requires c.pos < |input| && input[c.pos] == '{'
    ensures NextToken(input, c) == NextToken(input, SkipPast(input, Cursor(c.pos + 1, c.line), '}'))
  {
    assert !IsWhitespace(input[c.pos]);
    assert Step(input, c) == Cursor(c.pos + 1, c.line);
    assert NextToken(input, c) == ScanToken(input, c);
  }

  /** At `//`, scanning resumes wherever skipping past the next line feed leads. */
  lemma LineDispatch(input: string, c: Cursor)
    requires c.pos + 1 < |input| && input[c.pos] == '/' && input[c.pos + 1] == '/'
    ensures NextToken(input, c) == NextToken(input, SkipPast(input, Cursor(c.pos + 1, c.line), '\n'))
  {
    assert !IsWhitespace(input[c.pos]) && input[c.pos] != '{' && CharAt(input, c.pos + 1) == Some('/');
    assert Step(input, c) == Cursor(c.pos + 1, c.line);
    assert ScanToken(input, c) == NextToken(input, SkipPast(input, Step(input, c), '\n'));
    assert NextToken(input, c) == ScanToken(input, c);
  }

  /**
   * Skipping a `{` comment, from the character after the `{`, stops just
   * after the next `}`; the line counter gains the line feeds inside.
   */
  lemma BraceCommentEnds(input: string, c: Cursor, q: nat)
    requires c.pos < q < |input| && input[q] == '}'
    requires forall i :: c.pos < i < q ==> input[i] != '}'
    ensures SkipPast(input, Cursor(c.pos + 1, c.line), '}') == Cursor(q + 1, c.line + Newlines(input, c.pos + 1, q))
  {
    SkipPastIs(input, Cursor(c.pos + 1, c.line), '}', q);
    NewlinesLast(input, c.pos + 1, q);
  }

  /** An unclosed `{` comment swallows the rest of the input, which then ends. */
  lemma UnclosedBraceComment(input: string, c: Cursor)
    requires c.pos < |input| && input[c.pos] == '{'
    requires forall i :: c.pos < i < |input| ==> input[i] != '}'
    ensures NextToken(input, c) ==
      Ok(Lexed(Token(Eof, Null), Cursor(|input| + 1, c.line + Newlines(input, c.pos + 1, |input|))))
  {
    BraceDispatch(input, c);
    SkipPastEnd(input, Cursor(c.pos + 1, c.line), '}');
  }

  /**
   * Skipping a `//` comment, from the second `/`, stops just after the next
   * line feed, which the line counter counts.
   */
  lemma LineCommentEnds(input: string, c: Cursor, q: nat)
    requires c.pos < q < |input| && input[q] == '\n'
    requires forall i :: c.pos < i < q ==> input[i] != '\n'
    ensures SkipPast(input, Cursor(c.pos + 1, c.line), '\n') == Cursor(q + 1, c.line + 1)
  {
    SkipPastIs(input, Cursor(c.pos + 1, c.line), '\n', q);
    NoNewlines(input, c.pos + 1, q);
    NewlinesLast(input, c.pos + 1, q);
  }

  /** Once a call has returned EOF, every later call returns EOF and leaves the cursor as it is. */
  lemma EofIsSticky(input: string, c: Cursor)
    requires c.pos <= |input| + 1
    requires NextToken(input, c).Ok? && NextToken(input, c).value.tok.kind == Eof
    ensures var after := NextToken(input, c).value.after;
      NextToken(input, after) == Ok(Lexed(Token(Eof, Null), after))
  {
  }

  /** Relates a call of the scanner to the outcome its specification gives. */
  ghost predicate Scanned(spec: Result<Lexed>, r: Result<Token>, now: Cursor)
  {
    match spec
    case Ok(lx) => r == Ok(lx.tok) && now == lx.after
    case Err(e) => r == Err(e)
  }

  /** The scanner: the source text, the cursor and the character under it. */
  class Lexer {
    const input: string
    var position: nat
    var line: int
    var currentChar: Option<char>

    /** `currentChar` is always the character under the cursor. */
    ghost predicate Valid()
      reads this
    {
      currentChar == CharAt(input, position)
    }

    function At(): Cursor
      reads this
    {
      Cursor(position, line)
    }

    constructor (input: string)
      ensures this.input == input && position == 0 && line == 1
      ensures Valid()
    {
      this.input := input;
      position := 0;
      line := 1;
      currentChar := CharAt(input, 0);
    }

    /** `advance`: count a line when leaving a line feed, then move one character on. */
    method Advance()
      modifies this
      ensures position == old(position) + 1
      ensures line == if old(currentChar) == Some('\n') then old(line) + 1 else old(line)
      ensures currentChar == (if position > |input| - 1 then None else Some(input[position]))
      ensures Valid()
      ensures old(Valid()) ==> At() == Step(input, old(At()))
    {
      if currentChar == Some('\n') {
        line := line + 1;
      }
      position := position + 1;
      if position > |input| - 1 {
        currentChar := None;
      } else {
        currentChar := Some(input[position]);
      }
    }

    /** `peek`: the character one past the cursor, without moving. */
    method Peek() returns (r: Option<char>)
      ensures r.None? <==> position + 1 > |input| - 1
      ensures r.Some? ==> r.value == input[position + 1]
    {
      var p := position + 1;
      if p > |input| - 1 {
        return None;
      }
      return Some(input[p]);
    }

    method SkipWhitespace()
      requires Valid() && position <= |input|
      modifies this
      ensures Valid() && At() == SkipBlanks(input, old(At()))
    {
      while currentChar.Some? && IsWhitespace(currentChar.value)
        invariant Valid() && position <= |input|
        invariant SkipBlanks(input, old(At())) == SkipBlanks(input, At())
        decreases |input| - position
      {
        Advance();
      }
    }

    method SkipComment(stop: char)
      requires Valid() && position <= |input|
      modifies this
      ensures Valid() && At() == SkipPast(input, old(At()), stop)
    {
      while currentChar.Some? && currentChar.value != stop
        invariant Valid() && position <= |input|
        invariant SkipPast(input, old(At()), stop) == SkipPast(input, At(), stop)
        decreases |input| - position
      {
        Advance();
      }
      Advance();
    }

    method Number() returns (r: Result<Token>)
      requires Valid() && currentChar.Some? && Decimal.IsDigit(currentChar.value)
      modifies this
      ensures Valid() && position <= |input|
      ensures Scanned(ScanNumber(input, old(At())), r, At())
    {
      ghost var start := position;
      var number := "";
      while currentChar.Some? && Decimal.IsDigit(currentChar.value)
        invariant Valid() && start <= position <= |input|
        invariant number == input[start..position]
        invariant line == old(line)
        invariant DigitRunEnd(input, start) == DigitRunEnd(input, position)
        decreases |input| - position
      {
        number := number + [currentChar.value];
        Advance();
      }
      if currentChar == Some('.') {
        return Err(UnexpectedCharacter('.', line));
      }
      return Ok(Token(IntegerLiteral, Int(Decimal.Value(number))));
    }

    method Identifier() returns (t: Token)
      requires Valid() && currentChar.Some? && IsLetter(currentChar.value)
      modifies this
      ensures Valid()
      ensures Lexed(t, At()) == ScanWord(input, old(At()))
    {
      ghost var start := position;
      var identifier := "";
      while currentChar.Some? && IsAlphaNumeric(currentChar.value)
        invariant Valid() && start <= position <= |input|
        invariant identifier == input[start..position]
        invariant line == old(line)
        invariant WordRunEnd(input, start) == WordRunEnd(input, position)
        decreases |input| - position
      {
        identifier := identifier + [currentChar.value];
        Advance();
      }
      if identifier in ReservedWords {
        return ReservedWords[identifier];
      }
      return Token(Kind.Identifier, Str(identifier));
    }

    /** `getNextToken`. */
    method GetNextToken() returns (r: Result<Token>)
      requires Valid() && position <= |input| + 1
      modifies this
      ensures Valid() && position <= |input| + 1
      ensures Scanned(NextToken(input, old(At())), r, At())
    {
      while currentChar.Some?
        invariant Valid() && old(position) <= position <= |input| + 1
        invariant NextToken(input, old(At())) == NextToken(input, At())
        decreases |input| + 1 - position
      {
        var ch := currentChar.value;
        if IsWhitespace(ch) {
          BlankDispatch(input, At());
          SkipWhitespace();
          continue;
        }
        if ch == '{' {
          BraceDispatch(input, At());
          Advance();
          SkipComment('}');
          continue;
        }
        var next := Peek();
        if ch == '/' && next == Some('/') {
          LineDispatch(input, At());
          Advance();
          SkipComment('\n');
          continue;
        }
        r := Lexeme(ch, next);
        return;
      }
      return Ok(Token(Eof, Null));
    }

    /** The arms of `getNextToken` that return a token: a number, a word or an operator. */
    method Lexeme(ch: char, next: Option<char>) returns (r: Result<Token>)
      requires Valid() && position < |input| && currentChar == Some(ch)
      requires next == CharAt(input, position + 1)
      requires !IsWhitespace(ch) && ch != '{' && !(ch == '/' && next == Some('/'))
      modifies this
      ensures Valid() && position <= |input|
      ensures Scanned(NextToken(input, old(At())), r, At())
    {
      if Decimal.IsDigit(ch) {
        NumberDispatch(input, At());
        r := Number();
        return;
      }
      if IsLetter(ch) {
        WordDispatch(input, At());
        var t := Identifier();
        return Ok(t);
      }
      SymbolDispatch(input, At());
      r := Symbol(ch, next);
    }

    /** The operator and punctuation arms of `getNextToken`, tried in its order. */
    method Symbol(ch: char, next: Option<char>) returns (r: Result<Token>)
      requires Valid() && position < |input| && currentChar == Some(ch)
      requires next == CharAt(input, position + 1)
      modifies this
      ensures Valid() && position <= |input|
      ensures Scanned(ScanSymbol(input, old(At())), r, At())
    {
      if ch == ':' && next == Some('=') {
        Advance();
        Advance();
        return Ok(Token(Assign, Str(":=")));
      }
      if ch == '=' {
        Advance();
        return Ok(Token(Eq, Str("=")));
      }
      if ch == '>' && next == Some('=') {
        Advance();
        Advance();
        return Ok(Token(Gte, Str(">=")));
      }
      if ch == '<' && next == Some('=') {
        Advance();
        Advance();
        return Ok(Token(Lte, Str("<=")));
      }
      r := Operator(ch, next);
    }

    /** The arms of `getNextToken` from `<>` to `:`, then the punctuation. */
    method Operator(ch: char, next: Option<char>) returns (r: Result<Token>)
      requires Valid() && position < |input| && currentChar == Some(ch)
      requires next == CharAt(input, position + 1)
      modifies this
      ensures Valid() && position <= |input|
      ensures Scanned(ScanOperator(input, old(At())), r, At())
    {
      if ch == '<' && next == Some('>') {
        Advance();
        Advance();
        return Ok(Token(Diff, Str("<>")));
      }
      if ch == '>' {
        Advance();
        return Ok(Token(Gt, Str(">")));
      }
      if ch == '<' {
        Advance();
        return Ok(Token(Lt, Str("<")));
      }
      if ch == ':' {
        Advance();
        return Ok(Token(Colon, Str(":")));
      }
      r := Punctuation(ch);
    }

    /** The single-character arms of `getNextToken` and its final error. */
    method Punctuation(ch: char) returns (r: Result<Token>)
      requires Valid() && position < |input| && currentChar == Some(ch)
      modifies this
      ensures Valid() && position <= |input|
      ensures Scanned(ScanPunctuation(input, old(At())), r, At())
    {
      if ch == ',' {
        Advance();
        return Ok(Token(Comma, Str(",")));
      }
      if ch == ';' {
        Advance();
        return Ok(Token(Semicolon, Str(";")));
      }
      if ch == '.' {
        Advance();
        return Ok(Token(Dot, Str(".")));
      }
      if ch == '+' {
        Advance();
        return Ok(Token(Plus, Str("+")));
      }
      if ch == '-' {
        Advance();
        return Ok(Token(Minus, Str("-")));
      }
      if ch == '*' {
        Advance();
        return Ok(Token(Asterisk, Str("*")));
      }
      if ch == '/' {
        Advance();
        return Ok(Token(Slash, Str("/")));
      }
      if ch == '(' {
        Advance();
        return Ok(Token(LeftParenthesis, Str("(")));
      }
      if ch == ')' {
        Advance();
        return Ok(Token(RightParenthesis, Str(")")));
      }
      return Err(UnexpectedCharacter(ch, line));
    }
  }
}
