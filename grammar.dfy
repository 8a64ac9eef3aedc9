/**
 * The grammar of the parser as pure functions: each production takes the
 * parser's state (the lexer's cursor and the current token) and gives the
 * node it builds and the state after it, or the first error raised.  The
 * `Parser` class is proved to compute exactly these.
 *
 * Every production is given the source text so that it can call the
 * lexer's specification (`NextToken`) and the raw `peek` the statement
 * production uses.  Termination: consuming any token but end-of-file
 * lowers `Measure`; a production that calls another one without consuming
 * first has the higher rank.
 */
module Grammar {
  import opened Common
  import opened Tokens
  import opened Failures
  import opened Lexing
  import opened Ast

  /** The lexer's cursor together with `currentToken`. */
  datatype PState = PState(cur: Cursor, tok: Token)

  /** What a production built, and the state after it. */
  datatype Parsed<T> = Parsed(value: T, st: PState)

  /**
   * States the parser can be in: the cursor within reach of the text, and
   * a token that carries a string unless it is a number or end-of-file
   * (the part of `Lexable` the productions rely on).
   */
  predicate Valid(input: string, st: PState)
  {
    st.cur.pos <= |input| + 1 && Shaped(st.tok)
  }

  predicate Shaped(t: Token)
  {
    t.kind != IntegerLiteral && t.kind != Eof ==> t.value.Str?
  }

  function Measure(input: string, st: PState): nat
    requires st.cur.pos <= |input| + 1
  {
    2 * (|input| + 2 - st.cur.pos) + (if st.tok.kind == Eof then 0 else 1)
  }

  /** `st'` is a state reachable from `st`. */
  predicate Within(input: string, st: PState, st': PState)
    requires Valid(input, st)
  {
    Valid(input, st') && Measure(input, st') <= Measure(input, st)
  }

  /** `st'` is reachable from `st` and at least one token was consumed on the way. */
  predicate Beyond(input: string, st: PState, st': PState)
    requires Valid(input, st)
  {
    Valid(input, st') && Measure(input, st') < Measure(input, st)
  }

  /** The state after the lexer's next call. */
  function Next(input: string, st: PState): (r: Result<PState>)
    requires Valid(input, st)
    ensures r.Ok? ==> Within(input, st, r.value) && st.cur.pos <= r.value.cur.pos
    ensures r.Ok? && st.tok.kind != Eof ==> Beyond(input, st, r.value)
  {
    match NextToken(input, st.cur)
    case Ok(lx) => Ok(PState(lx.after, lx.tok))
    case Err(e) => Err(e)
  }

  /** The parser's first state: the constructor reads one token. */
  function Start(input: string): (r: Result<PState>)
    ensures r.Ok? ==> Valid(input, r.value)
  {
    match NextToken(input, Cursor(0, 1))
    case Ok(lx) => Ok(PState(lx.after, lx.tok))
    case Err(e) => Err(e)
  }

  /** `eat(k)`: see `EatRule`. */
  function Eat(input: string, st: PState, k: Kind): (r: Result<PState>)
    requires Valid(input, st)
    ensures r.Ok? ==> st.tok.kind == k && Within(input, st, r.value)
    ensures r.Ok? && k != Eof ==> Beyond(input, st, r.value)
  {
    if st.tok.kind == k then Next(input, st) else Err(UnexpectedToken(k, st.tok, st.cur.line))
  }

  /**
   * `eat(k)` moves on to the lexer's next token exactly when the current
   * one `is(k)`; otherwise it fails, naming `k`, the token found and the
   * line, and the state stays as it was.
   */
  lemma EatRule(input: string, st: PState, k: Kind)
    requires Valid(input, st)
    ensures Is(st.tok, k) ==> Eat(input, st, k) == Next(input, st)
    ensures !Is(st.tok, k) ==> Eat(input, st, k) == Err(UnexpectedToken(k, st.tok, st.cur.line))
  {
  }

  predicate IsTermOp(k: Kind)
  {
    k == Asterisk || k == IntegerDiv || k == And
  }

  predicate IsAddOp(k: Kind)
  {
    k == Plus || k == Minus || k == Or
  }

  predicate IsRelOp(k: Kind)
  {
    k == Eq || k == Diff || k == Gt || k == Gte || k == Lt || k == Lte
  }

  /** The trees expressions parse to. */
  predicate IsExpr(n: Node)
  {
    match n
    case Number(t) => t.kind == IntegerLiteral
    case Variable(_) => true
    case UnaryOperator(op, e) => op.kind == Not && IsExpr(e)
    case BinaryOperator(l, op, r) =>
      (IsTermOp(op.kind) || IsAddOp(op.kind) || IsRelOp(op.kind)) && IsExpr(l) && IsExpr(r)
    case _ => false
  }

  /** The trees statements parse to. */
  predicate IsStatement(n: Node)
  {
    match n
    case Compound(cs) => forall i :: 0 <= i < |cs| ==> IsStatement(cs[i])
    case Assign(v, tok, e) =>
      v.Variable? && (if tok.kind == BooleanLiteral then e == BooleanCreate(tok) else IsExpr(e))
    case IfNode(c, t, e) => IsExpr(c) && IsStatement(t) && (e.Some? ==> IsStatement(e.value))
    case WhileNode(c, b) => IsExpr(c) && IsStatement(b)
    case ProcedureCall(_, _) => true
    case NoOperation => true
    case _ => false
  }

  predicate IsTypeNode(n: Node)
  {
    n.Type? && (n.typeToken.kind == IntegerType || n.typeToken.kind == Kind.Boolean) && n.typeToken.value.Str?
  }

  predicate IsParamNode(n: Node)
  {
    n.Param? && n.paramVariable.Variable? && IsTypeNode(n.paramType)
  }

  /** The trees declarations parse to. */
  predicate IsDeclaration(n: Node)
  {
    match n
    case VarDecl(v, t) => v.Variable? && IsTypeNode(t)
    case ProcedureDecl(_, ps, b) =>
      (forall i :: 0 <= i < |ps| ==> IsParamNode(ps[i])) && IsBlock(b)
    case _ => false
  }

  /**
   * Declarations, no variable declaration right after a procedure: see
   * `VariablesFirst` for what that means for the whole list.
   */
  predicate Ordered(ds: seq<Node>)
  {
    && (forall i :: 0 <= i < |ds| ==> IsDeclaration(ds[i]))
    && (forall i :: 0 < i < |ds| && ds[i].VarDecl? ==> ds[i - 1].VarDecl?)
  }

  /** In an ordered list every variable declaration comes before every procedure declaration. */
  lemma {:induction false} VariablesFirst(ds: seq<Node>, i: int, j: int)
    requires Ordered(ds) && 0 <= i < j < |ds| && ds[j].VarDecl?
    ensures ds[i].VarDecl?
    decreases j - i
  {
    if i < j - 1 {
      VariablesFirst(ds, i, j - 1);
    }
  }

  /** A procedure declaration may follow any ordered list of declarations. */
  lemma OrderedAppend(ds: seq<Node>, d: Node)
    requires Ordered(ds) && d.ProcedureDecl? && IsDeclaration(d)
    ensures Ordered(ds + [d])
  {
    var ds' := ds + [d];
    assert forall i :: 0 <= i < |ds| ==> ds'[i] == ds[i];
  }

  /** A block: declarations, all variables before all procedures, then a compound statement. */
  predicate IsBlock(n: Node)
  {
    match n
    case Block(ds, c) => Ordered(ds) && c.Compound? && IsStatement(c)
    case _ => false
  }

  predicate IsProgram(n: Node)
  {
    n.Program? && IsBlock(n.block)
  }

  // ---------------------------------------------------------------- expressions

  /** `variable`: an identifier, kept by its name. */
  function ParseVariable(input: string, st: PState): (r: Result<Parsed<Node>>)
    requires Valid(input, st)
    ensures r.Ok? <==> Eat(input, st, Identifier).Ok?
    ensures r.Ok? ==> r.value.value.Variable? && Beyond(input, st, r.value.st)
    ensures r.Ok? ==> st.tok == Token(Identifier, Str(r.value.value.varName))
  {
    var st1 :- Eat(input, st, Identifier);
    Ok(Parsed(Variable(st.tok.value.s), st1))
  }

  /** The `(` arm of `factor`: the parenthesised expression itself, with no node for the parentheses. */
  function ParseParenthesised(input: string, st: PState): (r: Result<Parsed<Node>>)
    requires Valid(input, st)
    ensures r.Ok? ==> IsExpr(r.value.value) && Beyond(input, st, r.value.st)
    decreases Measure(input, st), 0
  {
    var st1 :- Eat(input, st, LeftParenthesis);
    var e :- ParseExpr(input, st1);
    var st2 :- Eat(input, e.st, RightParenthesis);
    Ok(Parsed(e.value, st2))
  }

  /** The `nao` arm of `factor`: the operator token over the factor after it. */
  function ParseNegation(input: string, st: PState): (r: Result<Parsed<Node>>)
    requires Valid(input, st)
    ensures r.Ok? ==> IsExpr(r.value.value) && Beyond(input, st, r.value.st)
    decreases Measure(input, st), 0
  {
    var st1 :- Eat(input, st, Not);
    var f :- ParseFactor(input, st1);
    Ok(Parsed(UnaryOperator(st.tok, f.value), f.st))
  }

  /** `factor`: a number, a parenthesised expression, `nao` and a factor, or a variable. */
  function ParseFactor(input: string, st: PState): (r: Result<Parsed<Node>>)
    requires Valid(input, st)
    ensures r.Ok? ==> IsExpr(r.value.value) && Beyond(input, st, r.value.st)
    decreases Measure(input, st), 1
  {
    if st.tok.kind == IntegerLiteral then
      var st1 :- Eat(input, st, IntegerLiteral);
      Ok(Parsed(Number(st.tok), st1))
    else if st.tok.kind == LeftParenthesis then
      ParseParenthesised(input, st)
    else if st.tok.kind == Not then
      ParseNegation(input, st)
    else
      ParseVariable(input, st)
  }

  /** One pass of `term`'s loop: the operator, then a factor folded in on the right. */
  function TermStep(input: string, st: PState, acc: Node): (r: Result<Parsed<Node>>)
    requires Valid(input, st) && IsExpr(acc) && IsTermOp(st.tok.kind)
    ensures r.Ok? ==> IsExpr(r.value.value) && Beyond(input, st, r.value.st)
    decreases Measure(input, st), 1
  {
    match Eat(input, st, st.tok.kind)
    case Err(e) => Err(e)
    case Ok(st1) =>
      match ParseFactor(input, st1)
      case Err(e) => Err(e)
      case Ok(f) => Ok(Parsed(BinaryOperator(acc, st.tok, f.value), f.st))
  }

  /** The loop of `term`: while the token is `*`, `div` or `e`, one more pass. */
  function TermTail(input: string, st: PState, acc: Node): (r: Result<Parsed<Node>>)
    requires Valid(input, st) && IsExpr(acc)
    ensures r.Ok? ==> IsExpr(r.value.value) && Within(input, st, r.value.st)
    ensures r.Ok? ==> !IsTermOp(r.value.st.tok.kind)
    decreases Measure(input, st), 2
  {
    if IsTermOp(st.tok.kind) then
      var s :- TermStep(input, st, acc);
      TermTail(input, s.st, s.value)
    else
      Ok(Parsed(acc, st))
  }

  function ParseTerm(input: string, st: PState): (r: Result<Parsed<Node>>)
    requires Valid(input, st)
    ensures r.Ok? ==> IsExpr(r.value.value) && Beyond(input, st, r.value.st)
    ensures r.Ok? ==> !IsTermOp(r.value.st.tok.kind)
    decreases Measure(input, st), 3
  {
    var f :- ParseFactor(input, st);
    TermTail(input, f.st, f.value)
  }

  /** One pass of `simpleExpr`'s loop: the operator, then a term folded in on the right. */
  function SimpleExprStep(input: string, st: PState, acc: Node): (r: Result<Parsed<Node>>)
    requires Valid(input, st) && IsExpr(acc) && IsAddOp(st.tok.kind)
    ensures r.Ok? ==> IsExpr(r.value.value) && Beyond(input, st, r.value.st)
    decreases Measure(input, st), 3
  {
    match Eat(input, st, st.tok.kind)
    case Err(e) => Err(e)
    case Ok(st1) =>
      match ParseTerm(input, st1)
      case Err(e) => Err(e)
      case Ok(t) => Ok(Parsed(BinaryOperator(acc, st.tok, t.value), t.st))
  }

  /** The loop of `simpleExpr` over `+`, `-` and `ou`. */
  function SimpleExprTail(input: string, st: PState, acc: Node): (r: Result<Parsed<Node>>)
    requires Valid(input, st) && IsExpr(acc)
    ensures r.Ok? ==> IsExpr(r.value.value) && Within(input, st, r.value.st)
    ensures r.Ok? ==> !IsAddOp(r.value.st.tok.kind)
    decreases Measure(input, st), 4
  {
    if IsAddOp(st.tok.kind) then
      var s :- SimpleExprStep(input, st, acc);
      SimpleExprTail(input, s.st, s.value)
    else
      Ok(Parsed(acc, st))
  }

  /** An optional sign token: when the current token has kind `k` it is consumed. */
  function OptionalSign(input: string, st: PState, k: Kind): (r: Result<PState>)
    requires Valid(input, st) && k != Eof
    ensures r.Ok? ==> Within(input, st, r.value)
    ensures r.Ok? && st.tok.kind != k ==> r.value == st
  {
    if st.tok.kind == k then Eat(input, st, k) else Ok(st)
  }

  /** `simpleExpr`: a leading `+` and then a leading `-` are consumed and not recorded. */
  function ParseSimpleExpr(input: string, st: PState): (r: Result<Parsed<Node>>)
    requires Valid(input, st)
    ensures r.Ok? ==> IsExpr(r.value.value) && Beyond(input, st, r.value.st)
    decreases Measure(input, st), 5
  {
    var st1 :- OptionalSign(input, st, Plus);
    var st2 :- OptionalSign(input, st1, Minus);
    var t :- ParseTerm(input, st2);
    SimpleExprTail(input, t.st, t.value)
  }

  /** One pass of `expr`'s loop: the relational operator, then a simple expression folded in on the right. */
  function ExprStep(input: string, st: PState, acc: Node): (r: Result<Parsed<Node>>)
    requires Valid(input, st) && IsExpr(acc) && IsRelOp(st.tok.kind)
    ensures r.Ok? ==> IsExpr(r.value.value) && Beyond(input, st, r.value.st)
    decreases Measure(input, st), 5
  {
    match Eat(input, st, st.tok.kind)
    case Err(e) => Err(e)
    case Ok(st1) =>
      match ParseSimpleExpr(input, st1)
      case Err(e) => Err(e)
      case Ok(s) => Ok(Parsed(BinaryOperator(acc, st.tok, s.value), s.st))
  }

  /** The loop of `expr` over the relational operators: they chain to the left. */
  function ExprTail(input: string, st: PState, acc: Node): (r: Result<Parsed<Node>>)
    requires Valid(input, st) && IsExpr(acc)
    ensures r.Ok? ==> IsExpr(r.value.value) && Within(input, st, r.value.st)
    ensures r.Ok? ==> !IsRelOp(r.value.st.tok.kind)
    decreases Measure(input, st), 6
  {
    if IsRelOp(st.tok.kind) then
      var s :- ExprStep(input, st, acc);
      ExprTail(input, s.st, s.value)
    else
      Ok(Parsed(acc, st))
  }

  function ParseExpr(input: string, st: PState): (r: Result<Parsed<Node>>)
    requires Valid(input, st)
    ensures r.Ok? ==> IsExpr(r.value.value) && Beyond(input, st, r.value.st)
    ensures r.Ok? ==> !IsRelOp(r.value.st.tok.kind)
    decreases Measure(input, st), 7
  {
    var s :- ParseSimpleExpr(input, st);
    ExprTail(input, s.st, s.value)
  }

  // ---------------------------------------------------------------- statements

  /** `lexer.peek()`: the raw character one past the lexer's position. */
  function Peek(input: string, st: PState): (r: Option<char>)
    ensures r.Some? <==> st.cur.pos + 1 < |input|
    ensures r.Some? ==> r.value == input[st.cur.pos + 1]
  {
    CharAt(input, st.cur.pos + 1)
  }

  /** The `, <identificador>` loop shared by call arguments and formal parameters. */
  function IdentifierListTail(input: string, st: PState, acc: seq<string>): (r: Result<Parsed<seq<string>>>)
    requires Valid(input, st)
    ensures r.Ok? ==> Within(input, st, r.value.st) && r.value.st.tok.kind != Comma
    ensures r.Ok? ==> |acc| <= |r.value.value| && r.value.value[..|acc|] == acc
    decreases Measure(input, st)
  {
    if st.tok.kind == Comma then
      var st1 :- Eat(input, st, Comma);
      var st2 :- Eat(input, st1, Identifier);
      var r := IdentifierListTail(input, st2, acc + [st1.tok.value.s]);
      assert r.Ok? ==> r.value.value[..|acc|] == r.value.value[..|acc| + 1][..|acc|];
      r
    else
      Ok(Parsed(acc, st))
  }

  /** `procedureCall`: the callee, then optionally a parenthesised, comma-separated list of identifiers. */
  function ParseProcedureCall(input: string, st: PState): (r: Result<Parsed<Node>>)
    requires Valid(input, st)
    ensures r.Ok? ==> Beyond(input, st, r.value.st)
    ensures r.Ok? ==> r.value.value.ProcedureCall? && st.tok == Token(Identifier, Str(r.value.value.nodeToCall))
  {
    var st1 :- Eat(input, st, Identifier);
    var name := st.tok.value.s;
    if st1.tok.kind == LeftParenthesis then
      var st2 :- Eat(input, st1, LeftParenthesis);
      var args :- if st2.tok.kind == Identifier then
          (var st3 :- Eat(input, st2, Identifier); IdentifierListTail(input, st3, [st2.tok.value.s]))
        else Ok(Parsed([], st2));
      var st4 :- Eat(input, args.st, RightParenthesis);
      Ok(Parsed(ProcedureCall(name, args.value), st4))
    else
      Ok(Parsed(ProcedureCall(name, []), st1))
  }

  /**
   * `assignmentStatement`: the node's token is the first token after `:=`;
   * a right-hand side starting with a boolean literal is that literal alone.
   */
  function ParseAssignment(input: string, st: PState): (r: Result<Parsed<Node>>)
    requires Valid(input, st)
    ensures r.Ok? ==> Beyond(input, st, r.value.st)
    ensures r.Ok? ==> r.value.value.Assign? && IsStatement(r.value.value)
  {
    var v :- ParseVariable(input, st);
    var st1 :- Eat(input, v.st, Kind.Assign);
    var token := st1.tok;
    if token.kind == BooleanLiteral then
      var st2 :- Eat(input, st1, BooleanLiteral);
      Ok(Parsed(Node.Assign(v.value, token, BooleanCreate(token)), st2))
    else
      var e :- ParseExpr(input, st1);
      Ok(Parsed(Node.Assign(v.value, token, e.value), e.st))
  }

  /** `compoundStatement`: `inicio`, a statement list, `fim`. */
  function ParseCompound(input: string, st: PState): (r: Result<Parsed<Node>>)
    requires Valid(input, st)
    ensures r.Ok? ==> Beyond(input, st, r.value.st)
    ensures r.Ok? ==> r.value.value.Compound? && IsStatement(r.value.value)
    decreases Measure(input, st), 0
  {
    var st1 :- Eat(input, st, Begin);
    var l :- ParseStatementList(input, st1);
    var st2 :- Eat(input, l.st, End);
    Ok(Parsed(Compound(l.value), st2))
  }

  /** `conditionalStatement`: `se` condition `entao` statement, and a `senao` statement if one follows. */
  function ParseConditional(input: string, st: PState): (r: Result<Parsed<Node>>)
    requires Valid(input, st)
    ensures r.Ok? ==> Beyond(input, st, r.value.st)
    ensures r.Ok? ==> r.value.value.IfNode? && IsStatement(r.value.value)
    decreases Measure(input, st), 0
  {
    var st1 :- Eat(input, st, If);
    var c :- ParseExpr(input, st1);
    var st2 :- Eat(input, c.st, Then);
    var t :- ParseStatement(input, st2);
    if t.st.tok.kind == Else then
      var st3 :- Eat(input, t.st, Else);
      var e :- ParseStatement(input, st3);
      Ok(Parsed(IfNode(c.value, t.value, Some(e.value)), e.st))
    else
      Ok(Parsed(IfNode(c.value, t.value, None), t.st))
  }

  /** `repeatStatement`: `enquanto` condition `faca` statement. */
  function ParseRepeat(input: string, st: PState): (r: Result<Parsed<Node>>)
    requires Valid(input, st)
    ensures r.Ok? ==> Beyond(input, st, r.value.st)
    ensures r.Ok? ==> r.value.value.WhileNode? && IsStatement(r.value.value)
    decreases Measure(input, st), 0
  {
    var st1 :- Eat(input, st, While);
    var c :- ParseExpr(input, st1);
    var st2 :- Eat(input, c.st, Do);
    var b :- ParseStatement(input, st2);
    Ok(Parsed(WhileNode(c.value, b.value), b.st))
  }

  /**
   * `statement`: chosen by the current token; an identifier starts an
   * assignment when the raw character `peek` gives is `:` or `=`, and a
   * procedure call otherwise.  Anything else is the empty statement.
   */
  function ParseStatement(input: string, st: PState): (r: Result<Parsed<Node>>)
    requires Valid(input, st)
    ensures r.Ok? ==> Within(input, st, r.value.st) && IsStatement(r.value.value)
    decreases Measure(input, st), 1
  {
    if st.tok.kind == Begin then
      ParseCompound(input, st)
    else if st.tok.kind == Identifier then
      if Peek(input, st) == Some(':') || Peek(input, st) == Some('=') then
        ParseAssignment(input, st)
      else
        ParseProcedureCall(input, st)
    else if st.tok.kind == If then
      ParseConditional(input, st)
    else if st.tok.kind == While then
      ParseRepeat(input, st)
    else
      Ok(Parsed(NoOperation, st))
  }

  /** The loop of `statementList`: while the token is `;`, one more statement. */
  function StatementListTail(input: string, st: PState, acc: seq<Node>): (r: Result<Parsed<seq<Node>>>)
    requires Valid(input, st)
    ensures r.Ok? ==> Within(input, st, r.value.st) && r.value.st.tok.kind != Semicolon
    ensures r.Ok? && (forall i :: 0 <= i < |acc| ==> IsStatement(acc[i])) ==>
      forall i :: 0 <= i < |r.value.value| ==> IsStatement(r.value.value[i])
    ensures r.Ok? ==> |acc| <= |r.value.value|
    decreases Measure(input, st), 1
  {
    if st.tok.kind == Semicolon then
      var st1 :- Eat(input, st, Semicolon);
      var s :- ParseStatement(input, st1);
      StatementListTail(input, s.st, acc + [s.value])
    else
      Ok(Parsed(acc, st))
  }

  /**
   * `statementList`: statements separated by `;`; an identifier right
   * after the list is rejected.
   */
  function ParseStatementList(input: string, st: PState): (r: Result<Parsed<seq<Node>>>)
    requires Valid(input, st)
    ensures r.Ok? ==> Within(input, st, r.value.st)
    ensures r.Ok? ==> r.value.st.tok.kind != Semicolon && r.value.st.tok.kind != Identifier
    ensures r.Ok? ==> |r.value.value| > 0 && forall i :: 0 <= i < |r.value.value| ==> IsStatement(r.value.value[i])
    decreases Measure(input, st), 2
  {
    var s :- ParseStatement(input, st);
    var l :- StatementListTail(input, s.st, [s.value]);
    if l.st.tok.kind == Identifier then Err(UnexpectedIdentifier(l.st.tok, l.st.cur.line))
    else Ok(l)
  }

  // ---------------------------------------------------------------- declarations

  /** `typeSpec`: `inteiro`, or else `logico` is required. */
  function ParseTypeSpec(input: string, st: PState): (r: Result<Parsed<Node>>)
    requires Valid(input, st)
    ensures r.Ok? ==> Beyond(input, st, r.value.st) && IsTypeNode(r.value.value)
    ensures r.Ok? ==> r.value.value == Type(st.tok)
  {
    var st1 :- if st.tok.kind == IntegerType then Eat(input, st, IntegerType) else Eat(input, st, Kind.Boolean);
    Ok(Parsed(Type(st.tok), st1))
  }

  /** An optional `:= <expressao>` after a declared name: parsed, then dropped. */
  function Initialiser(input: string, st: PState): (r: Result<PState>)
    requires Valid(input, st)
    ensures r.Ok? ==> Within(input, st, r.value)
  {
    if st.tok.kind == Kind.Assign then
      var st1 :- Eat(input, st, Kind.Assign);
      var e :- ParseExpr(input, st1);
      Ok(e.st)
    else
      Ok(st)
  }

  /** One pass of the `,` loop of `variableDeclaration`: a name and its optional initialiser. */
  function DeclaratorStep(input: string, st: PState): (r: Result<Parsed<Node>>)
    requires Valid(input, st) && st.tok.kind == Comma
    ensures r.Ok? ==> Beyond(input, st, r.value.st) && r.value.value.Variable?
  {
    match Eat(input, st, Comma)
    case Err(e) => Err(e)
    case Ok(st1) =>
      match Eat(input, st1, Identifier)
      case Err(e) => Err(e)
      case Ok(st2) =>
        match Initialiser(input, st2)
        case Err(e) => Err(e)
        case Ok(st3) => Ok(Parsed(Variable(st1.tok.value.s), st3))
  }

  /** The `, <identificador> [:= <expressao>]` loop of `variableDeclaration`. */
  function DeclaratorTail(input: string, st: PState, acc: seq<Node>): (r: Result<Parsed<seq<Node>>>)
    requires Valid(input, st)
    ensures r.Ok? ==> Within(input, st, r.value.st) && r.value.st.tok.kind != Comma
    decreases Measure(input, st)
  {
    if st.tok.kind == Comma then
      var s :- DeclaratorStep(input, st);
      DeclaratorTail(input, s.st, acc + [s.value])
    else
      Ok(Parsed(acc, st))
  }

  /** The `,` loop keeps the variables already declared in front, and adds only `Variable` nodes after them. */
  lemma {:induction false} DeclaratorTailVariables(input: string, st: PState, acc: seq<Node>)
    requires Valid(input, st) && DeclaratorTail(input, st, acc).Ok?
    requires forall i :: 0 <= i < |acc| ==> acc[i].Variable?
    ensures var vs := DeclaratorTail(input, st, acc).value.value;
      |acc| <= |vs| && vs[..|acc|] == acc && forall i :: 0 <= i < |vs| ==> vs[i].Variable?
    decreases Measure(input, st)
  {
    if st.tok.kind == Comma {
      var s := DeclaratorStep(input, st).value;
      var acc' := acc + [s.value];
      assert DeclaratorTail(input, st, acc) == DeclaratorTail(input, s.st, acc');
      DeclaratorTailVariables(input, s.st, acc');
      var vs := DeclaratorTail(input, s.st, acc').value.value;
      assert vs[..|acc|] == vs[..|acc'|][..|acc|];
    }
  }

  /** One `VarDecl` per declared variable, all holding the same type node. */
  function VarDecls(vs: seq<Node>, typeNode: Node): (r: seq<Node>)
    ensures |r| == |vs|
    ensures forall i :: 0 <= i < |r| ==> r[i] == VarDecl(vs[i], typeNode)
    ensures IsTypeNode(typeNode) && (forall i :: 0 <= i < |vs| ==> vs[i].Variable?) ==>
      forall i :: 0 <= i < |r| ==> r[i].VarDecl? && IsDeclaration(r[i])
  {
    seq(|vs|, i requires 0 <= i < |vs| => VarDecl(vs[i], typeNode))
  }

  /**
   * `variableDeclaration`: a type, then one or more names, each with an
   * optional initialiser that is parsed and discarded.
   */
  function ParseVariableDeclaration(input: string, st: PState): (r: Result<Parsed<seq<Node>>>)
    requires Valid(input, st)
    ensures r.Ok? ==> Beyond(input, st, r.value.st) && |r.value.value| > 0
    ensures r.Ok? ==> forall i :: 0 <= i < |r.value.value| ==>
      r.value.value[i].VarDecl? && IsDeclaration(r.value.value[i]) && r.value.value[i].typeNode == Type(st.tok)
  {
    var t :- ParseTypeSpec(input, st);
    var st1 :- Eat(input, t.st, Identifier);
    var st2 :- Initialiser(input, st1);
    var vs :- DeclaratorTail(input, st2, [Variable(t.st.tok.value.s)]);
    DeclaratorTailVariables(input, st2, [Variable(t.st.tok.value.s)]);
    Ok(Parsed(VarDecls(vs.value, t.value), vs.st))
  }

  /** One `Param` per name, all holding the same type node. */
  function Params(names: seq<string>, typeNode: Node): (r: seq<Node>)
    ensures |r| == |names|
    ensures forall i :: 0 <= i < |r| ==> r[i] == Param(Variable(names[i]), typeNode)
    ensures IsTypeNode(typeNode) ==> forall i :: 0 <= i < |r| ==> IsParamNode(r[i])
  {
    seq(|names|, i requires 0 <= i < |names| => Param(Variable(names[i]), typeNode))
  }

  /** The names of one parameter section: an optional `var`, then identifiers separated by `,`. */
  function ParseParameterNames(input: string, st: PState): (r: Result<Parsed<seq<string>>>)
    requires Valid(input, st)
    ensures r.Ok? ==> Beyond(input, st, r.value.st) && |r.value.value| > 0
  {
    var st1 :- if st.tok.kind == Var then Eat(input, st, Var) else Ok(st);
    var st2 :- Eat(input, st1, Identifier);
    IdentifierListTail(input, st2, [st1.tok.value.s])
  }

  /** The `: <tipo>` that closes a parameter section. */
  function ParseParameterType(input: string, st: PState): (r: Result<Parsed<Node>>)
    requires Valid(input, st)
    ensures r.Ok? ==> Beyond(input, st, r.value.st) && IsTypeNode(r.value.value)
  {
    var st1 :- Eat(input, st, Colon);
    ParseTypeSpec(input, st1)
  }

  /** `formalParameters`: parameter names, `:` and a type shared by all of them. */
  function ParseFormalParameters(input: string, st: PState): (r: Result<Parsed<seq<Node>>>)
    requires Valid(input, st)
    ensures r.Ok? ==> Beyond(input, st, r.value.st) && |r.value.value| > 0
    ensures r.Ok? ==> forall i :: 0 <= i < |r.value.value| ==> IsParamNode(r.value.value[i])
  {
    var names :- ParseParameterNames(input, st);
    var t :- ParseParameterType(input, names.st);
    Ok(Parsed(Params(names.value, t.value), t.st))
  }

  /** The parameters of one section all hold the one type node parsed after the `:`. */
  lemma ParametersShareType(input: string, st: PState)
    requires Valid(input, st) && ParseFormalParameters(input, st).Ok?
    ensures var ps := ParseFormalParameters(input, st).value.value;
      forall i :: 0 <= i < |ps| ==> ps[i].Param? && ps[i].paramType == ps[0].paramType
  {
  }

  /** One pass of the loop of `formalParameterList`: `;` and one more section. */
  function FormalParametersStep(input: string, st: PState): (r: Result<Parsed<seq<Node>>>)
    requires Valid(input, st) && st.tok.kind == Semicolon
    ensures r.Ok? ==> Beyond(input, st, r.value.st) && |r.value.value| > 0
    ensures r.Ok? ==> forall i :: 0 <= i < |r.value.value| ==> IsParamNode(r.value.value[i])
  {
    match Eat(input, st, Semicolon)
    case Err(e) => Err(e)
    case Ok(st1) => ParseFormalParameters(input, st1)
  }

  /** The loop of `formalParameterList`: sections separated by `;`, concatenated in order. */
  function FormalParametersTail(input: string, st: PState, acc: seq<Node>): (r: Result<Parsed<seq<Node>>>)
    requires Valid(input, st)
    ensures r.Ok? ==> Within(input, st, r.value.st) && r.value.st.tok.kind != Semicolon
    decreases Measure(input, st)
  {
    if st.tok.kind == Semicolon then
      var s :- FormalParametersStep(input, st);
      FormalParametersTail(input, s.st, acc + s.value)
    else
      Ok(Parsed(acc, st))
  }

  /** The section loop keeps the parameters already parsed in front, and adds only parameter nodes after them. */
  lemma {:induction false} FormalParametersTailParams(input: string, st: PState, acc: seq<Node>)
    requires Valid(input, st) && FormalParametersTail(input, st, acc).Ok?
    requires forall i :: 0 <= i < |acc| ==> IsParamNode(acc[i])
    ensures var ps := FormalParametersTail(input, st, acc).value.value;
      |acc| <= |ps| && ps[..|acc|] == acc && forall i :: 0 <= i < |ps| ==> IsParamNode(ps[i])
    decreases Measure(input, st)
  {
    if st.tok.kind == Semicolon {
      var s := FormalParametersStep(input, st).value;
      var acc' := acc + s.value;
      assert FormalParametersTail(input, st, acc) == FormalParametersTail(input, s.st, acc');
      FormalParametersTailParams(input, s.st, acc');
      var ps := FormalParametersTail(input, s.st, acc').value.value;
      assert ps[..|acc|] == ps[..|acc'|][..|acc|];
    }
  }

  function ParseFormalParameterList(input: string, st: PState): (r: Result<Parsed<seq<Node>>>)
    requires Valid(input, st)
    ensures r.Ok? ==> Beyond(input, st, r.value.st) && |r.value.value| > 0
    ensures r.Ok? ==> forall i :: 0 <= i < |r.value.value| ==> IsParamNode(r.value.value[i])
  {
    var p :- ParseFormalParameters(input, st);
    var l :- FormalParametersTail(input, p.st, p.value);
    FormalParametersTailParams(input, p.st, p.value);
    Ok(l)
  }

  /** The parenthesised parameter list a procedure may have; none without `(`. */
  function ParseOptionalParameters(input: string, st: PState): (r: Result<Parsed<seq<Node>>>)
    requires Valid(input, st)
    ensures r.Ok? ==> Within(input, st, r.value.st)
    ensures r.Ok? ==> forall i :: 0 <= i < |r.value.value| ==> IsParamNode(r.value.value[i])
    ensures r.Ok? && st.tok.kind != LeftParenthesis ==> r.value == Parsed([], st)
  {
    if st.tok.kind == LeftParenthesis then
      var st1 :- Eat(input, st, LeftParenthesis);
      var l :- ParseFormalParameterList(input, st1);
      var st2 :- Eat(input, l.st, RightParenthesis);
      Ok(Parsed(l.value, st2))
    else
      Ok(Parsed([], st))
  }

  /** `procedureDeclaration`: `procedimento` name [`(` parameters `)`] `;` block `;`. */
  function ParseProcedureDeclaration(input: string, st: PState): (r: Result<Parsed<Node>>)
    requires Valid(input, st)
    ensures r.Ok? ==> Beyond(input, st, r.value.st)
    ensures r.Ok? ==> r.value.value.ProcedureDecl? && IsDeclaration(r.value.value)
    decreases Measure(input, st), 0
  {
    var st1 :- Eat(input, st, Procedure);
    var st2 :- Eat(input, st1, Identifier);
    var ps :- ParseOptionalParameters(input, st2);
    var st5 :- Eat(input, ps.st, Semicolon);
    var b :- ParseBlock(input, st5);
    var st6 :- Eat(input, b.st, Semicolon);
    Ok(Parsed(ProcedureDecl(st1.tok.value.s, ps.value, b.value), st6))
  }

  /** One pass of the first loop of `declarations`: a variable declaration and its `;`. */
  function VarDeclarationStep(input: string, st: PState): (r: Result<Parsed<seq<Node>>>)
    requires Valid(input, st)
    ensures r.Ok? ==> Beyond(input, st, r.value.st)
    ensures r.Ok? ==> forall i :: 0 <= i < |r.value.value| ==> r.value.value[i].VarDecl? && IsDeclaration(r.value.value[i])
  {
    match ParseVariableDeclaration(input, st)
    case Err(e) => Err(e)
    case Ok(d) =>
      match Eat(input, d.st, Semicolon)
      case Err(e) => Err(e)
      case Ok(st1) => Ok(Parsed(d.value, st1))
  }

  /** The first loop of `declarations`: variable declarations, each closed by `;`. */
  function VarDeclarationsLoop(input: string, st: PState, acc: seq<Node>): (r: Result<Parsed<seq<Node>>>)
    requires Valid(input, st)
    ensures r.Ok? ==> Within(input, st, r.value.st)
    ensures r.Ok? ==> r.value.st.tok.kind != IntegerType && r.value.st.tok.kind != Kind.Boolean
    decreases Measure(input, st)
  {
    if st.tok.kind == IntegerType || st.tok.kind == Kind.Boolean then
      var s :- VarDeclarationStep(input, st);
      VarDeclarationsLoop(input, s.st, acc + s.value)
    else
      Ok(Parsed(acc, st))
  }

  /** The variable loop keeps the declarations already made in front, and adds only well-formed `VarDecl`s after them. */
  lemma {:induction false} VarDeclarationsLoopDecls(input: string, st: PState, acc: seq<Node>)
    requires Valid(input, st) && VarDeclarationsLoop(input, st, acc).Ok?
    requires forall i :: 0 <= i < |acc| ==> acc[i].VarDecl? && IsDeclaration(acc[i])
    ensures var ds := VarDeclarationsLoop(input, st, acc).value.value;
      |acc| <= |ds| && ds[..|acc|] == acc && forall i :: 0 <= i < |ds| ==> ds[i].VarDecl? && IsDeclaration(ds[i])
    decreases Measure(input, st)
  {
    if st.tok.kind == IntegerType || st.tok.kind == Kind.Boolean {
      var s := VarDeclarationStep(input, st).value;
      var acc' := acc + s.value;
      assert VarDeclarationsLoop(input, st, acc) == VarDeclarationsLoop(input, s.st, acc');
      VarDeclarationsLoopDecls(input, s.st, acc');
      var ds := VarDeclarationsLoop(input, s.st, acc').value.value;
      assert ds[..|acc|] == ds[..|acc'|][..|acc|];
    }
  }

  /** The second loop of `declarations`: procedure declarations. */
  function ProcedureDeclarationsLoop(input: string, st: PState, acc: seq<Node>): (r: Result<Parsed<seq<Node>>>)
    requires Valid(input, st) && Ordered(acc)
    ensures r.Ok? ==> Within(input, st, r.value.st) && r.value.st.tok.kind != Procedure
    ensures r.Ok? ==> Ordered(r.value.value)
    decreases Measure(input, st), 1
  {
    if st.tok.kind == Procedure then
      var p :- ParseProcedureDeclaration(input, st);
      OrderedAppend(acc, p.value);
      ProcedureDeclarationsLoop(input, p.st, acc + [p.value])
    else
      Ok(Parsed(acc, st))
  }

  /** `declarations`: all variable declarations, then all procedure declarations. */
  function ParseDeclarations(input: string, st: PState): (r: Result<Parsed<seq<Node>>>)
    requires Valid(input, st)
    ensures r.Ok? ==> Within(input, st, r.value.st) && Ordered(r.value.value)
    decreases Measure(input, st), 2
  {
    var vs :- VarDeclarationsLoop(input, st, []);
    VarDeclarationsLoopDecls(input, st, []);
    ProcedureDeclarationsLoop(input, vs.st, vs.value)
  }

  /** `block`: declarations, then a compound statement. */
  function ParseBlock(input: string, st: PState): (r: Result<Parsed<Node>>)
    requires Valid(input, st)
    ensures r.Ok? ==> Beyond(input, st, r.value.st) && IsBlock(r.value.value)
    decreases Measure(input, st), 3
  {
    var d :- ParseDeclarations(input, st);
    var c :- ParseCompound(input, d.st);
    Ok(Parsed(Block(d.value, c.value), c.st))
  }

  /** `program`: `program` name `;` block `.`; the token after the `.` is read but never looked at. */
  function ParseProgram(input: string, st: PState): (r: Result<Parsed<Node>>)
    requires Valid(input, st)
    ensures r.Ok? ==> Beyond(input, st, r.value.st) && IsProgram(r.value.value)
  {
    var st1 :- Eat(input, st, Kind.Program);
    var v :- ParseVariable(input, st1);
    var st2 :- Eat(input, v.st, Semicolon);
    var b :- ParseBlock(input, st2);
    var st3 :- Eat(input, b.st, Dot);
    Ok(Parsed(Node.Program(v.value.varName, b.value), st3))
  }

  /** `new Parser(input).parse()`. */
  function Parse(input: string): (r: Result<Node>)
    ensures r.Ok? ==> IsProgram(r.value)
  {
    var st :- Start(input);
    var p :- ParseProgram(input, st);
    Ok(p.value)
  }
}
