/**
 * The token model of the language: the closed set of token kinds (each with
 * the string constant the original uses as its type), the (type, value)
 * token record with its getters, and the table of reserved words.
 */
module Tokens {
  import opened Common
  import Decimal

  /** The token kinds, one per static getter of the token class. */
  datatype Kind =
    | Plus | Minus | Asterisk | Gt | Lt | Eq | Diff | Gte | Lte | Slash
    | Comma | Dot | Colon | Semicolon | LeftParenthesis | RightParenthesis
    | Assign | Eof | Begin | End | Identifier | Program | Var | IntegerType
    | Boolean | IntegerLiteral | IntegerDiv | If | Then | Else | While | Do
    | And | Or | Not | Procedure | BooleanLiteral

  /** The string each kind getter returns; this string is the token's type. */
  function KindName(k: Kind): (r: string)
    ensures |r| > 0 && ',' !in r
  {
    match k
    case Plus => "MAIS"
    case Minus => "MENOS"
    case Asterisk => "MULTIPLICAÇÃO"
    case Gt => "MAIOR"
    case Lt => "MENOR"
    case Eq => "IGUAL"
    case Diff => "DIFERENTE"
    case Gte => "MAIOR_OU_IGUAL"
    case Lte => "MENOR_OU_IGUAL"
    case Slash => "BARRA"
    case Comma => "VIRGULA"
    case Dot => "PONTO"
    case Colon => "DOIS_PONTOS"
    case Semicolon => "PONTO_E_VIRGULA"
    case LeftParenthesis => "ABRIR_PARENTESIS"
    case RightParenthesis => "FECHAR_PARENTESIS"
    case Assign => "ATRIBUIÇÃO"
    case Eof => "EOF"
    case Begin => "INICIO"
    case End => "FIM"
    case Identifier => "IDENTIFICADOR"
    case Program => "PROGRAM"
    case Var => "VAR"
    case IntegerType => "INTEIRO"
    case Boolean => "LÓGICO"
    case IntegerLiteral => "INTEIRO_LITERAL"
    case IntegerDiv => "DIVISAO_INTEIRA"
    case If => "SE"
    case Then => "ENTÃO"
    case Else => "SENÃO"
    case While => "ENQUANTO"
    case Do => "FAÇA"
    case And => "E"
    case Or => "OU"
    case Not => "NÃO"
    case Procedure => "PROCEDIMENTO"
    case BooleanLiteral => "LÓGICO_LITERAL"
  }

  /**
   * The only kind whose type string `s` could be: the length and the first
   * character tell the names apart, except among `MAIOR`, `MENOR`, `MENOS`
   * and the two `..._OU_IGUAL`, which a further character separates.
   */
  function NameCandidate(s: string): Option<Kind>
  {
    if |s| < 2 then (if s == "E" then Some(And) else None)
    else if |s| == 2 then (if s[0] == 'S' then Some(If) else if s[0] == 'O' then Some(Or) else None)
    else if |s| == 3 then
      (if s[0] == 'E' then Some(Eof) else if s[0] == 'F' then Some(End)
       else if s[0] == 'V' then Some(Var) else if s[0] == 'N' then Some(Not) else None)
    else if |s| == 4 then (if s[0] == 'M' then Some(Plus) else if s[0] == 'F' then Some(Do) else None)
    else if |s| == 5 then
      (if s[0] == 'M' then (if s[1] == 'A' then Some(Gt) else if s[4] == 'S' then Some(Minus) else Some(Lt))
       else if s[0] == 'I' then Some(Eq) else if s[0] == 'B' then Some(Slash)
       else if s[0] == 'P' then Some(Dot) else if s[0] == 'E' then Some(Then)
       else if s[0] == 'S' then Some(Else) else None)
    else if |s| == 6 then (if s[0] == 'I' then Some(Begin) else if s[0] == 'L' then Some(Boolean) else None)
    else if |s| == 7 then
      (if s[0] == 'V' then Some(Comma) else if s[0] == 'P' then Some(Program)
       else if s[0] == 'I' then Some(IntegerType) else None)
    else if |s| == 8 then (if s[0] == 'E' then Some(While) else None)
    else if |s| == 9 then (if s[0] == 'D' then Some(Diff) else None)
    else if |s| == 10 then (if s[0] == 'A' then Some(Assign) else None)
    else if |s| == 11 then (if s[0] == 'D' then Some(Colon) else None)
    else if |s| == 12 then (if s[0] == 'P' then Some(Procedure) else None)
    else if |s| == 13 then (if s[0] == 'M' then Some(Asterisk) else if s[0] == 'I' then Some(Identifier) else None)
    else if |s| == 14 then
      (if s[0] == 'M' then (if s[1] == 'A' then Some(Gte) else Some(Lte))
       else if s[0] == 'L' then Some(BooleanLiteral) else None)
    else if |s| == 15 then
      (if s[0] == 'P' then Some(Semicolon) else if s[0] == 'I' then Some(IntegerLiteral)
       else if s[0] == 'D' then Some(IntegerDiv) else None)
    else if |s| == 16 then (if s[0] == 'A' then Some(LeftParenthesis) else None)
    else if |s| == 17 then (if s[0] == 'F' then Some(RightParenthesis) else None)
    else None
  }

  /** Reads a type string back into its kind, if it is one. */
  function KindOfName(s: string): (r: Option<Kind>)
    ensures r.Some? ==> KindName(r.value) == s
  {
    var k := NameCandidate(s);
    if k.Some? && KindName(k.value) == s then k else None
  }

  /** The kinds in four groups, so that facts about all 37 names are proved a group at a time. */
  predicate IsOperatorKind(k: Kind)
  {
    k.Plus? || k.Minus? || k.Asterisk? || k.Gt? || k.Lt? || k.Eq? || k.Diff? || k.Gte? || k.Lte? || k.Slash?
  }

  predicate IsPunctuationKind(k: Kind)
  {
    k.Comma? || k.Dot? || k.Colon? || k.Semicolon? || k.LeftParenthesis? || k.RightParenthesis? || k.Assign? || k.Eof?
  }

  predicate IsDeclarationKind(k: Kind)
  {
    k.Begin? || k.End? || k.Identifier? || k.Program? || k.Var? || k.IntegerType? || k.Boolean? || k.IntegerLiteral? || k.IntegerDiv?
  }

  lemma OperatorNamesRead(k: Kind)
    requires IsOperatorKind(k)
    ensures NameCandidate(KindName(k)) == Some(k)
  {
  }

  lemma PunctuationNamesRead(k: Kind)
    requires IsPunctuationKind(k)
    ensures NameCandidate(KindName(k)) == Some(k)
  {
  }

  lemma DeclarationNamesRead(k: Kind)
    requires IsDeclarationKind(k)
    ensures NameCandidate(KindName(k)) == Some(k)
  {
  }

  /** The keywords of statements and expressions, and the procedure and literal kinds. */
  lemma OtherNamesRead(k: Kind)
    requires !IsOperatorKind(k) && !IsPunctuationKind(k) && !IsDeclarationKind(k)
    ensures NameCandidate(KindName(k)) == Some(k)
  {
  }

  /** Reading a kind's type string back gives the kind. */
  lemma KindNameInverse(k: Kind)
    ensures KindOfName(KindName(k)) == Some(k)
  {
    if IsOperatorKind(k) {
      OperatorNamesRead(k);
    } else if IsPunctuationKind(k) {
      PunctuationNamesRead(k);
    } else if IsDeclarationKind(k) {
      DeclarationNamesRead(k);
    } else {
      OtherNamesRead(k);
    }
  }

  /** The kind constants are pairwise distinct strings. */
  lemma KindNamesDistinct(a: Kind, b: Kind)
    ensures KindName(a) == KindName(b) <==> a == b
  {
    KindNameInverse(a);
    KindNameInverse(b);
  }

  /** A token's value: a string, a number, or `null`. */
  datatype Value = Str(s: string) | Int(n: int) | Null

  /** The JavaScript falsy values a token value can take. */
  predicate Falsy(v: Value)
  {
    v == Null || v == Int(0) || v == Str("")
  }

  /** An immutable (type, value) pair; `Token(k, v)` is also `Token.create(k, v)`. */
  datatype Token = Token(kind: Kind, value: Value)

  /** `is`: compares the type strings, which holds exactly when the kinds agree. */
  function Is(t: Token, k: Kind): (r: bool)
    ensures r <==> t.kind == k
  {
    KindNamesDistinct(t.kind, k);
    KindName(t.kind) == KindName(k)
  }

  /** `getValue`: `value || null`. */
  function GetValue(t: Token): (r: Value)
    ensures r == Null <==> Falsy(t.value)
    ensures r != Null ==> r == t.value
  {
    if Falsy(t.value) then Null else t.value
  }

  /** How a value is interpolated into a template string. */
  function Render(v: Value): string
  {
    match v
    case Str(s) => s
    case Int(n) => Decimal.IntToString(n)
    case Null => "null"
  }

  /** `toString`: `Token<type, value>`, the value as `getValue` gives it. */
  function ToString(t: Token): (r: string)
    ensures |r| > 8 && r[..6] == "Token<" && r[|r| - 1] == '>'
  {
    "Token<" + KindName(t.kind) + ", " + Render(GetValue(t)) + ">"
  }

  /** The index of the first comma of `s` at or after `i`, or `|s|`. */
  function FirstComma(s: string, i: nat): (j: nat)
    requires i <= |s|
    ensures i <= j <= |s|
    ensures forall m :: i <= m < j ==> s[m] != ','
    ensures j < |s| ==> s[j] == ','
    decreases |s| - i
  {
    if i == |s| || s[i] == ',' then i else FirstComma(s, i + 1)
  }

  /** Reads the kind back out of a rendering: the text between `Token<` and the first comma. */
  function KindOfRendering(r: string): Option<Kind>
  {
    if |r| < 6 || r[..6] != "Token<" then None
    else KindOfName(r[6..FirstComma(r, 6)])
  }

  /** The rendering of a token determines its kind. */
  lemma RenderingDeterminesKind(t: Token)
    ensures KindOfRendering(ToString(t)) == Some(t.kind)
  {
    var r := ToString(t);
    var name := KindName(t.kind);
    KindNameInverse(t.kind);
    assert r == "Token<" + name + ", " + Render(GetValue(t)) + ">";
    var i := 6 + |name|;
    assert r[i] == ',';
    assert forall m :: 6 <= m < i ==> r[m] == name[m - 6];
    assert FirstComma(r, 6) == i;
    assert r[6..i] == name;
  }

  /** A zero integer and the EOF token's `null` both read back as `null`. */
  lemma FalsyValuesReadAsNull()
    ensures GetValue(Token(IntegerLiteral, Int(0))) == Null
    ensures GetValue(Token(Eof, Null)) == Null
    ensures forall n :: n != 0 ==> GetValue(Token(IntegerLiteral, Int(n))) == Int(n)
  {
  }

  /** So the literal `0` prints as `null`. */
  lemma ZeroRendersAsNull()
    ensures ToString(Token(IntegerLiteral, Int(0))) == "Token<INTEIRO_LITERAL, null>"
  {
    FalsyValuesReadAsNull();
  }

  /** The reserved-word dictionary: lexeme to the token the lexer returns for it. */
  const ReservedWords: map<string, Token> := map[
    "program" := Token(Program, Str("program")),
    "var" := Token(Var, Str("var")),
    "div" := Token(IntegerDiv, Str("div")),
    "inteiro" := Token(IntegerType, Str("inteiro")),
    "logico" := Token(Boolean, Str("logico")),
    "e" := Token(And, Str("e")),
    "ou" := Token(Or, Str("ou")),
    "nao" := Token(Not, Str("nao")),
    "se" := Token(If, Str("se")),
    "entao" := Token(Then, Str("entao")),
    "senao" := Token(Else, Str("senao")),
    "enquanto" := Token(While, Str("enquanto")),
    "faca" := Token(Do, Str("faca")),
    "leia" := Token(Identifier, Str("leia")),
    "escreva" := Token(Identifier, Str("escreva")),
    "inicio" := Token(Begin, Str("inicio")),
    "fim" := Token(End, Str("fim")),
    "procedimento" := Token(Procedure, Str("procedimento")),
    "verdadeiro" := Token(BooleanLiteral, Str("verdadeiro")),
    "falso" := Token(BooleanLiteral, Str("falso"))
  ]

  /** The dictionary's keys are exactly the twenty reserved spellings. */
  lemma ReservedWordsKeys()
    ensures ReservedWords.Keys == {
      "program", "var", "div", "inteiro", "logico", "e", "ou", "nao", "se", "entao", "senao",
      "enquanto", "faca", "leia", "escreva", "inicio", "fim", "procedimento", "verdadeiro", "falso"}
  {
  }

  /** Each entry of the dictionary, read off by its key. */
  lemma ReservedWordsEntry(w: string)
    requires w in ReservedWords
    ensures ReservedWords[w].value == Str(w)
    ensures var k := ReservedWords[w].kind;
      || (w == "program" && k == Program)
      || (w == "var" && k == Var)
      || (w == "div" && k == IntegerDiv)
      || (w == "inteiro" && k == IntegerType)
      || (w == "logico" && k == Boolean)
      || (w == "e" && k == And)
      || (w == "ou" && k == Or)
      || (w == "nao" && k == Not)
      || (w == "se" && k == If)
      || (w == "entao" && k == Then)
      || (w == "senao" && k == Else)
      || (w == "enquanto" && k == While)
      || (w == "faca" && k == Do)
      || (w == "leia" && k == Identifier)
      || (w == "escreva" && k == Identifier)
      || (w == "inicio" && k == Begin)
      || (w == "fim" && k == End)
      || (w == "procedimento" && k == Procedure)
      || (w == "verdadeiro" && k == BooleanLiteral)
      || (w == "falso" && k == BooleanLiteral)
  {
  }

  /** Every entry's lexeme is its own key. */
  lemma ReservedWordsSpelledAsKeys()
    ensures forall w :: w in ReservedWords ==> ReservedWords[w].value == Str(w)
  {
    forall w | w in ReservedWords
      ensures ReservedWords[w].value == Str(w)
    {
      ReservedWordsEntry(w);
    }
  }

  lemma ExpressionWordsLowercase()
    ensures IsLowercaseWord("program") && IsLowercaseWord("var") && IsLowercaseWord("div")
    ensures IsLowercaseWord("inteiro") && IsLowercaseWord("logico") && IsLowercaseWord("e")
    ensures IsLowercaseWord("ou") && IsLowercaseWord("nao") && IsLowercaseWord("se")
    ensures IsLowercaseWord("entao")
  {
  }

  lemma StatementWordsLowercase()
    ensures IsLowercaseWord("senao") && IsLowercaseWord("enquanto") && IsLowercaseWord("faca")
    ensures IsLowercaseWord("leia") && IsLowercaseWord("escreva") && IsLowercaseWord("inicio")
    ensures IsLowercaseWord("fim") && IsLowercaseWord("procedimento") && IsLowercaseWord("verdadeiro")
    ensures IsLowercaseWord("falso")
  {
  }

  /** Every key is a non-empty lowercase word, so matching is case-sensitive and lowercase only. */
  lemma ReservedWordsLowercase()
    ensures forall w :: w in ReservedWords ==> IsLowercaseWord(w) && |w| > 0
  {
    ExpressionWordsLowercase();
    StatementWordsLowercase();
    forall w | w in ReservedWords
      ensures IsLowercaseWord(w) && |w| > 0
    {
      ReservedWordsEntry(w);
    }
  }

  /** `leia` and `escreva` are entered as plain identifiers, not as keywords. */
  lemma ReservedWordsIdentifiers()
    ensures forall w :: w in ReservedWords ==>
      (ReservedWords[w].kind == Identifier <==> w == "leia" || w == "escreva")
  {
    forall w | w in ReservedWords
      ensures ReservedWords[w].kind == Identifier <==> w == "leia" || w == "escreva"
    {
      ReservedWordsEntry(w);
    }
  }

  /** Exactly `verdadeiro` and `falso` are boolean literals, carrying their spelling. */
  lemma ReservedWordsBooleanLiterals()
    ensures forall w :: w in ReservedWords ==>
      (ReservedWords[w].kind == BooleanLiteral <==> w == "verdadeiro" || w == "falso")
  {
    forall w | w in ReservedWords
      ensures ReservedWords[w].kind == BooleanLiteral <==> w == "verdadeiro" || w == "falso"
    {
      ReservedWordsEntry(w);
    }
  }

  /** No reserved word yields an end-of-file or integer-literal token. */
  lemma ReservedWordsOtherKinds()
    ensures forall w :: w in ReservedWords ==>
      ReservedWords[w].kind != Eof && ReservedWords[w].kind != IntegerLiteral
  {
    forall w | w in ReservedWords
      ensures ReservedWords[w].kind != Eof && ReservedWords[w].kind != IntegerLiteral
    {
      ReservedWordsEntry(w);
    }
  }
}
