/**
 * The recursive-descent parser: it owns a `Lexer`, holds one token of
 * lookahead in `currentToken`, and replaces it through `Eat`.  Each
 * production is a method proved to compute the `Grammar` function of the
 * same name from the state it starts in: the node it returns and the
 * state it leaves, or the error it raises.
 */
module Parsing {
  import opened Common
  import opened Tokens
  import opened Failures
  import opened Lexing
  import opened Ast
  import Grammar

  /** A production returned what `spec` gives and left the parser in the state `spec` gives. */
  ghost predicate Agrees<T>(spec: Result<Grammar.Parsed<T>>, r: Result<T>, now: Grammar.PState)
  {
    match spec
    case Ok(p) => r == Ok(p.value) && now == p.st
    case Err(e) => r == Err(e)
  }

  /** `eat` did what `spec` gives. */
  ghost predicate Moved(spec: Result<Grammar.PState>, r: Outcome, now: Grammar.PState)
  {
    match spec
    case Ok(st) => r == Pass && now == st
    case Err(e) => r == Fail(e)
  }

  class Parser {
    const lexer: Lexer
    var currentToken: Token

    ghost predicate Valid()
      reads this, lexer
    {
      lexer.Valid() && Grammar.Valid(lexer.input, State())
    }

    /** The parser's state as the grammar sees it. */
    function State(): Grammar.PState
      reads this, lexer
    {
      Grammar.PState(lexer.At(), currentToken)
    }

    constructor (lexer: Lexer, first: Token)
      ensures this.lexer == lexer && currentToken == first
    {
      this.lexer := lexer;
      currentToken := first;
    }

    /** `new Parser(input)`: a lexer over the text, and its first token (which may be a lexical error). */
    static method Create(input: string) returns (r: Result<Parser>)
      ensures r.Err? ==> Grammar.Start(input) == Err(r.error)
      ensures r.Ok? ==> fresh(r.value) && fresh(r.value.lexer) && r.value.Valid()
      ensures r.Ok? ==> r.value.lexer.input == input && Grammar.Start(input) == Ok(r.value.State())
    {
      var lexer := new Lexer(input);
      var first :- lexer.GetNextToken();
      var parser := new Parser(lexer, first);
      return Ok(parser);
    }

    /** `eat(k)`. */
    method Eat(k: Kind) returns (r: Outcome)
      requires Valid()
      modifies this, lexer
      ensures Valid() && Moved(Grammar.Eat(lexer.input, old(State()), k), r, State())
    {
      if Is(currentToken, k) {
        var next := lexer.GetNextToken();
        match next
        case Ok(t) =>
          currentToken := t;
          return Pass;
        case Err(e) =>
          return Fail(e);
      }
      return Fail(UnexpectedToken(k, currentToken, lexer.line));
    }

    method Variable() returns (r: Result<Node>)
      requires Valid()
      modifies this, lexer
      ensures Valid() && Agrees(Grammar.ParseVariable(lexer.input, old(State())), r, State())
    {
      var token := currentToken;
      :- Eat(Identifier);
      return Ok(Node.Variable(token.value.s));
    }

    /** The `(` arm of `factor`. */
    method Parenthesised() returns (r: Result<Node>)
      requires Valid()
      modifies this, lexer
      ensures Valid() && Agrees(Grammar.ParseParenthesised(lexer.input, old(State())), r, State())
      decreases Grammar.Measure(lexer.input, State()), 0
    {
      var eaten := Eat(LeftParenthesis);
      if eaten.Fail? {
        return Err(eaten.error);
      }
      var node :- Expr();
      :- Eat(RightParenthesis);
      return Ok(node);
    }

    /** The `nao` arm of `factor`. */
    method Negation() returns (r: Result<Node>)
      requires Valid()
      modifies this, lexer
      ensures Valid() && Agrees(Grammar.ParseNegation(lexer.input, old(State())), r, State())
      decreases Grammar.Measure(lexer.input, State()), 0
    {
      var token := currentToken;
      :- Eat(Not);
      var operand :- Factor();
      return Ok(UnaryOperator(token, operand));
    }

    method Factor() returns (r: Result<Node>)
      requires Valid()
      modifies this, lexer
      ensures Valid() && Agrees(Grammar.ParseFactor(lexer.input, old(State())), r, State())
      decreases Grammar.Measure(lexer.input, State()), 1
    {
      var token := currentToken;
      if Is(token, IntegerLiteral) {
        var eaten := Eat(IntegerLiteral);
        if eaten.Fail? {
          return Err(eaten.error);
        }
        return Ok(Number(token));
      } else if Is(token, LeftParenthesis) {
        r := Parenthesised();
      } else if Is(token, Not) {
        r := Negation();
      } else {
        r := Variable();
      }
    }

    /** One pass of the loop of `term`. */
    method TermStep(left: Node) returns (r: Result<Node>)
      requires Valid() && Grammar.IsExpr(left) && Grammar.IsTermOp(currentToken.kind)
      modifies this, lexer
      ensures Valid() && Agrees(Grammar.TermStep(lexer.input, old(State()), left), r, State())
      decreases Grammar.Measure(lexer.input, State()), 2
    {
      var token := currentToken;
      ghost var before := State();
      var eaten: Outcome;
      if Is(token, Asterisk) {
        eaten := Eat(Asterisk);
      } else if Is(token, IntegerDiv) {
        eaten := Eat(IntegerDiv);
      } else {
        eaten := Eat(And);
      }
      assert Moved(Grammar.Eat(lexer.input, before, token.kind), eaten, State());
      :- eaten;
      var right :- Factor();
      return Ok(BinaryOperator(left, token, right));
    }

    /** The loop of `term`. */
    method TermTail(first: Node) returns (r: Result<Node>)
      requires Valid() && Grammar.IsExpr(first)
      modifies this, lexer
      ensures Valid() && Agrees(Grammar.TermTail(lexer.input, old(State()), first), r, State())
      decreases Grammar.Measure(lexer.input, State()), 3
    {
      ghost var start := State();
      var node := first;
      while Is(currentToken, Asterisk) || Is(currentToken, IntegerDiv) || Is(currentToken, And)
        invariant Valid() && Grammar.Within(lexer.input, start, State()) && Grammar.IsExpr(node)
        invariant Grammar.TermTail(lexer.input, start, first) == Grammar.TermTail(lexer.input, State(), node)
        decreases Grammar.Measure(lexer.input, State())
      {
        node :- TermStep(node);
      }
      return Ok(node);
    }

    method Term() returns (r: Result<Node>)
      requires Valid()
      modifies this, lexer
      ensures Valid() && Agrees(Grammar.ParseTerm(lexer.input, old(State())), r, State())
      decreases Grammar.Measure(lexer.input, State()), 4
    {
      var node :- Factor();
      r := TermTail(node);
    }

    /** Consumes the current token when it has kind `k`, and does nothing otherwise. */
    method OptionalSign(k: Kind) returns (r: Outcome)
      requires Valid() && k != Eof
      modifies this, lexer
      ensures Valid() && Moved(Grammar.OptionalSign(lexer.input, old(State()), k), r, State())
    {
      r := Pass;
      if Is(currentToken, k) {
        r := Eat(k);
      }
    }

    /** One pass of the loop of `simpleExpr`. */
    method SimpleExprStep(left: Node) returns (r: Result<Node>)
      requires Valid() && Grammar.IsExpr(left) && Grammar.IsAddOp(currentToken.kind)
      modifies this, lexer
      ensures Valid() && Agrees(Grammar.SimpleExprStep(lexer.input, old(State()), left), r, State())
      decreases Grammar.Measure(lexer.input, State()), 5
    {
      var token := currentToken;
      ghost var before := State();
      var eaten: Outcome;
      if Is(token, Plus) {
        eaten := Eat(Plus);
      } else if Is(token, Minus) {
        eaten := Eat(Minus);
      } else {
        eaten := Eat(Or);
      }
      assert Moved(Grammar.Eat(lexer.input, before, token.kind), eaten, State());
      :- eaten;
      var right :- Term();
      return Ok(BinaryOperator(left, token, right));
    }

    /** The loop of `simpleExpr`. */
    method SimpleExprTail(first: Node) returns (r: Result<Node>)
      requires Valid() && Grammar.IsExpr(first)
      modifies this, lexer
      ensures Valid() && Agrees(Grammar.SimpleExprTail(lexer.input, old(State()), first), r, State())
      decreases Grammar.Measure(lexer.input, State()), 6
    {
      ghost var start := State();
      var node := first;
      while Is(currentToken, Plus) || Is(currentToken, Minus) || Is(currentToken, Or)
        invariant Valid() && Grammar.Within(lexer.input, start, State()) && Grammar.IsExpr(node)
        invariant Grammar.SimpleExprTail(lexer.input, start, first) == Grammar.SimpleExprTail(lexer.input, State(), node)
        decreases Grammar.Measure(lexer.input, State())
      {
        node :- SimpleExprStep(node);
      }
      return Ok(node);
    }

    method SimpleExpr() returns (r: Result<Node>)
      requires Valid()
      modifies this, lexer
      ensures Valid() && Agrees(Grammar.ParseSimpleExpr(lexer.input, old(State())), r, State())
      decreases Grammar.Measure(lexer.input, State()), 7
    {
      var eaten := OptionalSign(Plus);
      if eaten.Fail? {
        return Err(eaten.error);
      }
      :- OptionalSign(Minus);
      var node :- Term();
      r := SimpleExprTail(node);
    }

    /** One pass of the loop of `expr`. */
    method ExprStep(left: Node) returns (r: Result<Node>)
      requires Valid() && Grammar.IsExpr(left) && Grammar.IsRelOp(currentToken.kind)
      modifies this, lexer
      ensures Valid() && Agrees(Grammar.ExprStep(lexer.input, old(State()), left), r, State())
      decreases Grammar.Measure(lexer.input, State()), 8
    {
      var token := currentToken;
      ghost var before := State();
      var eaten: Outcome;
      if Is(token, Eq) {
        eaten := Eat(Eq);
      } else if Is(token, Diff) {
        eaten := Eat(Diff);
      } else if Is(token, Gt) {
        eaten := Eat(Gt);
      } else if Is(token, Gte) {
        eaten := Eat(Gte);
      } else if Is(token, Lt) {
        eaten := Eat(Lt);
      } else {
        eaten := Eat(Lte);
      }
      assert Moved(Grammar.Eat(lexer.input, before, token.kind), eaten, State());
      :- eaten;
      var right :- SimpleExpr();
      return Ok(BinaryOperator(left, token, right));
    }

    /** The loop of `expr`. */
    method ExprTail(first: Node) returns (r: Result<Node>)
      requires Valid() && Grammar.IsExpr(first)
      modifies this, lexer
      ensures Valid() && Agrees(Grammar.ExprTail(lexer.input, old(State()), first), r, State())
      decreases Grammar.Measure(lexer.input, State()), 9
    {
      ghost var start := State();
      var node := first;
      while Grammar.IsRelOp(currentToken.kind)
        invariant Valid() && Grammar.Within(lexer.input, start, State()) && Grammar.IsExpr(node)
        invariant Grammar.ExprTail(lexer.input, start, first) == Grammar.ExprTail(lexer.input, State(), node)
        decreases Grammar.Measure(lexer.input, State())
      {
        node :- ExprStep(node);
      }
      return Ok(node);
    }

    method Expr() returns (r: Result<Node>)
      requires Valid()
      modifies this, lexer
      ensures Valid() && Agrees(Grammar.ParseExpr(lexer.input, old(State())), r, State())
      decreases Grammar.Measure(lexer.input, State()), 10
    {
      var node :- SimpleExpr();
      r := ExprTail(node);
    }

    /**
     * The `, <identificador>` loop of `procedureCall` and of
     * `formalParameters`: each name is appended once its identifier has
     * been eaten.
     */
    method IdentifierListTail(first: seq<string>) returns (r: Result<seq<string>>)
      requires Valid()
      modifies this, lexer
      ensures Valid() && Agrees(Grammar.IdentifierListTail(lexer.input, old(State()), first), r, State())
    {
      ghost var start := State();
      var names := first;
      while Is(currentToken, Comma)
        invariant Valid() && Grammar.Within(lexer.input, start, State())
        invariant Grammar.IdentifierListTail(lexer.input, start, first) == Grammar.IdentifierListTail(lexer.input, State(), names)
        decreases Grammar.Measure(lexer.input, State())
      {
        var eaten := Eat(Comma);
        if eaten.Fail? {
          return Err(eaten.error);
        }
        var token := currentToken;
        :- Eat(Identifier);
        names := names + [token.value.s];
      }
      return Ok(names);
    }

    method ProcedureCall() returns (r: Result<Node>)
      requires Valid()
      modifies this, lexer
      ensures Valid() && Agrees(Grammar.ParseProcedureCall(lexer.input, old(State())), r, State())
    {
      var procedure := currentToken;
      :- Eat(Identifier);
      var args: seq<string> := [];
      if Is(currentToken, LeftParenthesis) {
        var eaten := Eat(LeftParenthesis);
        if eaten.Fail? {
          return Err(eaten.error);
        }
        if Is(currentToken, Identifier) {
          var token := currentToken;
          :- Eat(Identifier);
          args :- IdentifierListTail([token.value.s]);
        }
        :- Eat(RightParenthesis);
      }
      return Ok(Node.ProcedureCall(procedure.value.s, args));
    }

    method AssignmentStatement() returns (r: Result<Node>)
      requires Valid()
      modifies this, lexer
      ensures Valid() && Agrees(Grammar.ParseAssignment(lexer.input, old(State())), r, State())
    {
      var variable :- Variable();
      :- Eat(Kind.Assign);
      var token := currentToken;
      var expression: Node;
      if Is(token, BooleanLiteral) {
        expression := BooleanCreate(token);
        :- Eat(BooleanLiteral);
      } else {
        expression :- Expr();
      }
      return Ok(Node.Assign(variable, token, expression));
    }

    method CompoundStatement() returns (r: Result<Node>)
      requires Valid()
      modifies this, lexer
      ensures Valid() && Agrees(Grammar.ParseCompound(lexer.input, old(State())), r, State())
      decreases Grammar.Measure(lexer.input, State()), 0
    {
      var eaten := Eat(Begin);
      if eaten.Fail? {
        return Err(eaten.error);
      }
      var nodes :- StatementList();
      :- Eat(End);
      return Ok(Compound(nodes));
    }

    method ConditionalStatement() returns (r: Result<Node>)
      requires Valid()
      modifies this, lexer
      ensures Valid() && Agrees(Grammar.ParseConditional(lexer.input, old(State())), r, State())
      decreases Grammar.Measure(lexer.input, State()), 0
    {
      var elseCases: Option<Node> := None;
      :- Eat(If);
      var condition :- Expr();
      :- Eat(Then);
      var cases :- Statement();
      if Is(currentToken, Else) {
        var eaten := Eat(Else);
        if eaten.Fail? {
          return Err(eaten.error);
        }
        var e :- Statement();
        elseCases := Some(e);
      }
      return Ok(IfNode(condition, cases, elseCases));
    }

    method RepeatStatement() returns (r: Result<Node>)
      requires Valid()
      modifies this, lexer
      ensures Valid() && Agrees(Grammar.ParseRepeat(lexer.input, old(State())), r, State())
      decreases Grammar.Measure(lexer.input, State()), 0
    {
      var eaten := Eat(While);
      if eaten.Fail? {
        return Err(eaten.error);
      }
      var condition :- Expr();
      :- Eat(Do);
      var body :- Statement();
      return Ok(WhileNode(condition, body));
    }

    /** `statement`: the identifier case looks at the raw character `lexer.peek()` gives. */
    method Statement() returns (r: Result<Node>)
      requires Valid()
      modifies this, lexer
      ensures Valid() && Agrees(Grammar.ParseStatement(lexer.input, old(State())), r, State())
      decreases Grammar.Measure(lexer.input, State()), 1
    {
      if Is(currentToken, Begin) {
        r := CompoundStatement();
      } else if Is(currentToken, Identifier) {
        var next := lexer.Peek();
        if next == Some(':') || next == Some('=') {
          r := AssignmentStatement();
        } else {
          r := ProcedureCall();
        }
      } else if Is(currentToken, If) {
        r := ConditionalStatement();
      } else if Is(currentToken, While) {
        r := RepeatStatement();
      } else {
        r := Ok(NoOperation);
      }
    }

    method StatementList() returns (r: Result<seq<Node>>)
      requires Valid()
      modifies this, lexer
      ensures Valid() && Agrees(Grammar.ParseStatementList(lexer.input, old(State())), r, State())
      decreases Grammar.Measure(lexer.input, State()), 2
    {
      var node :- Statement();
      ghost var start := State();
      var nodes := [node];
      while Is(currentToken, Semicolon)
        invariant Valid() && Grammar.Within(lexer.input, start, State())
        invariant Grammar.StatementListTail(lexer.input, start, [node]) == Grammar.StatementListTail(lexer.input, State(), nodes)
        decreases Grammar.Measure(lexer.input, State())
      {
        var eaten := Eat(Semicolon);
        if eaten.Fail? {
          return Err(eaten.error);
        }
        var next :- Statement();
        nodes := nodes + [next];
      }
      if Is(currentToken, Identifier) {
        return Err(UnexpectedIdentifier(currentToken, lexer.line));
      }
      return Ok(nodes);
    }

    method TypeSpec() returns (r: Result<Node>)
      requires Valid()
      modifies this, lexer
      ensures Valid() && Agrees(Grammar.ParseTypeSpec(lexer.input, old(State())), r, State())
    {
      var token := currentToken;
      if Is(token, IntegerType) {
        var eaten := Eat(IntegerType);
        if eaten.Fail? {
          return Err(eaten.error);
        }
      } else {
        var eaten := Eat(Kind.Boolean);
        if eaten.Fail? {
          return Err(eaten.error);
        }
      }
      return Ok(Type(token));
    }

    /** The optional `:=` initialiser of a declaration: the expression is parsed and dropped. */
    method Initialiser() returns (r: Outcome)
      requires Valid()
      modifies this, lexer
      ensures Valid() && Moved(Grammar.Initialiser(lexer.input, old(State())), r, State())
    {
      r := Pass;
      if Is(currentToken, Kind.Assign) {
        r := Eat(Kind.Assign);
        if r.Pass? {
          var e := Expr();
          if e.Err? {
            r := Fail(e.error);
          }
        }
      }
    }

    /** One pass of the `,` loop of `variableDeclaration`: the name is taken once its identifier has been eaten. */
    method DeclaratorStep() returns (r: Result<Node>)
      requires Valid() && currentToken.kind == Comma
      modifies this, lexer
      ensures Valid() && Agrees(Grammar.DeclaratorStep(lexer.input, old(State())), r, State())
    {
      var eaten := Eat(Comma);
      if eaten.Fail? {
        return Err(eaten.error);
      }
      var token := currentToken;
      :- Eat(Identifier);
      :- Initialiser();
      return Ok(Node.Variable(token.value.s));
    }

    /** The `,` loop of `variableDeclaration`. */
    method DeclaratorTail(first: seq<Node>) returns (r: Result<seq<Node>>)
      requires Valid()
      modifies this, lexer
      ensures Valid() && Agrees(Grammar.DeclaratorTail(lexer.input, old(State()), first), r, State())
    {
      ghost var start := State();
      var varNodes := first;
      while Is(currentToken, Comma)
        invariant Valid() && Grammar.Within(lexer.input, start, State())
        invariant Grammar.DeclaratorTail(lexer.input, start, first) == Grammar.DeclaratorTail(lexer.input, State(), varNodes)
        decreases Grammar.Measure(lexer.input, State())
      {
        var next :- DeclaratorStep();
        varNodes := varNodes + [next];
      }
      return Ok(varNodes);
    }

    method VariableDeclaration() returns (r: Result<seq<Node>>)
      requires Valid()
      modifies this, lexer
      ensures Valid() && Agrees(Grammar.ParseVariableDeclaration(lexer.input, old(State())), r, State())
    {
      var typeNode :- TypeSpec();
      var token := currentToken;
      :- Eat(Identifier);
      :- Initialiser();
      var varNodes :- DeclaratorTail([Node.Variable(token.value.s)]);
      return Ok(Grammar.VarDecls(varNodes, typeNode));
    }

    /** The names of a parameter section, after an optional `var`. */
    method ParameterNames() returns (r: Result<seq<string>>)
      requires Valid()
      modifies this, lexer
      ensures Valid() && Agrees(Grammar.ParseParameterNames(lexer.input, old(State())), r, State())
    {
      if Is(currentToken, Var) {
        var eaten := Eat(Var);
        if eaten.Fail? {
          return Err(eaten.error);
        }
      }
      var token := currentToken;
      :- Eat(Identifier);
      r := IdentifierListTail([token.value.s]);
    }

    /** `formalParameters`: names, `:` and the type they all share. */
    method FormalParameters() returns (r: Result<seq<Node>>)
      requires Valid()
      modifies this, lexer
      ensures Valid() && Agrees(Grammar.ParseFormalParameters(lexer.input, old(State())), r, State())
    {
      var names :- ParameterNames();
      :- Eat(Colon);
      var typeNode :- TypeSpec();
      return Ok(Grammar.Params(names, typeNode));
    }

    /** One pass of the loop of `formalParameterList`. */
    method FormalParametersStep() returns (r: Result<seq<Node>>)
      requires Valid() && currentToken.kind == Semicolon
      modifies this, lexer
      ensures Valid() && Agrees(Grammar.FormalParametersStep(lexer.input, old(State())), r, State())
    {
      var eaten := Eat(Semicolon);
      if eaten.Fail? {
        return Err(eaten.error);
      }
      r := FormalParameters();
    }

    method FormalParameterList() returns (r: Result<seq<Node>>)
      requires Valid()
      modifies this, lexer
      ensures Valid() && Agrees(Grammar.ParseFormalParameterList(lexer.input, old(State())), r, State())
    {
      var first :- FormalParameters();
      ghost var start := State();
      var params := first;
      while Is(currentToken, Semicolon)
        invariant Valid() && Grammar.Within(lexer.input, start, State())
        invariant Grammar.FormalParametersTail(lexer.input, start, first) == Grammar.FormalParametersTail(lexer.input, State(), params)
        decreases Grammar.Measure(lexer.input, State())
      {
        var more :- FormalParametersStep();
        params := params + more;
      }
      return Ok(params);
    }

    /** The optional parenthesised parameter list of `procedureDeclaration`. */
    method OptionalParameters() returns (r: Result<seq<Node>>)
      requires Valid()
      modifies this, lexer
      ensures Valid() && Agrees(Grammar.ParseOptionalParameters(lexer.input, old(State())), r, State())
    {
      var params: seq<Node> := [];
      if Is(currentToken, LeftParenthesis) {
        var eaten := Eat(LeftParenthesis);
        if eaten.Fail? {
          return Err(eaten.error);
        }
        params :- FormalParameterList();
        :- Eat(RightParenthesis);
      }
      return Ok(params);
    }

    method ProcedureDeclaration() returns (r: Result<Node>)
      requires Valid()
      modifies this, lexer
      ensures Valid() && Agrees(Grammar.ParseProcedureDeclaration(lexer.input, old(State())), r, State())
      decreases Grammar.Measure(lexer.input, State()), 0
    {
      var eaten := Eat(Procedure);
      if eaten.Fail? {
        return Err(eaten.error);
      }
      var token := currentToken;
      :- Eat(Identifier);
      var params :- OptionalParameters();
      :- Eat(Semicolon);
      var blockNode :- Block();
      :- Eat(Semicolon);
      return Ok(ProcedureDecl(token.value.s, params, blockNode));
    }

    /** One pass of the first loop of `declarations`. */
    method VarDeclarationStep() returns (r: Result<seq<Node>>)
      requires Valid()
      modifies this, lexer
      ensures Valid() && Agrees(Grammar.VarDeclarationStep(lexer.input, old(State())), r, State())
    {
      var varDecl :- VariableDeclaration();
      :- Eat(Semicolon);
      return Ok(varDecl);
    }

    /** The first loop of `declarations`: variable declarations, each closed by `;`. */
    method VariableDeclarations() returns (r: Result<seq<Node>>)
      requires Valid()
      modifies this, lexer
      ensures Valid() && Agrees(Grammar.VarDeclarationsLoop(lexer.input, old(State()), []), r, State())
    {
      ghost var start := State();
      var declarations: seq<Node> := [];
      while Is(currentToken, IntegerType) || Is(currentToken, Kind.Boolean)
        invariant Valid() && Grammar.Within(lexer.input, start, State())
        invariant Grammar.VarDeclarationsLoop(lexer.input, start, []) == Grammar.VarDeclarationsLoop(lexer.input, State(), declarations)
        decreases Grammar.Measure(lexer.input, State())
      {
        var varDecl :- VarDeclarationStep();
        declarations := declarations + varDecl;
      }
      return Ok(declarations);
    }

    /** The second loop of `declarations`: procedure declarations, appended to `first`. */
    method ProcedureDeclarations(first: seq<Node>) returns (r: Result<seq<Node>>)
      requires Valid() && Grammar.Ordered(first)
      modifies this, lexer
      ensures Valid() && Agrees(Grammar.ProcedureDeclarationsLoop(lexer.input, old(State()), first), r, State())
      decreases Grammar.Measure(lexer.input, State()), 1
    {
      ghost var start := State();
      var declarations := first;
      while Is(currentToken, Procedure)
        invariant Valid() && Grammar.Within(lexer.input, start, State()) && Grammar.Ordered(declarations)
        invariant Grammar.ProcedureDeclarationsLoop(lexer.input, start, first) == Grammar.ProcedureDeclarationsLoop(lexer.input, State(), declarations)
        decreases Grammar.Measure(lexer.input, State())
      {
        var procedureDecl :- ProcedureDeclaration();
        Grammar.OrderedAppend(declarations, procedureDecl);
        declarations := declarations + [procedureDecl];
      }
      return Ok(declarations);
    }

    method Declarations() returns (r: Result<seq<Node>>)
      requires Valid()
      modifies this, lexer
      ensures Valid() && Agrees(Grammar.ParseDeclarations(lexer.input, old(State())), r, State())
      decreases Grammar.Measure(lexer.input, State()), 2
    {
      ghost var start := State();
      var variables :- VariableDeclarations();
      Grammar.VarDeclarationsLoopDecls(lexer.input, start, []);
      r := ProcedureDeclarations(variables);
    }

    method Block() returns (r: Result<Node>)
      requires Valid()
      modifies this, lexer
      ensures Valid() && Agrees(Grammar.ParseBlock(lexer.input, old(State())), r, State())
      decreases Grammar.Measure(lexer.input, State()), 3
    {
      var declarations :- Declarations();
      var compound :- CompoundStatement();
      return Ok(Node.Block(declarations, compound));
    }

    /** `program`: the node is built before the closing `.` is eaten. */
    method Program() returns (r: Result<Node>)
      requires Valid()
      modifies this, lexer
      ensures Valid() && Agrees(Grammar.ParseProgram(lexer.input, old(State())), r, State())
    {
      var eaten := Eat(Kind.Program);
      if eaten.Fail? {
        return Err(eaten.error);
      }
      var variableNode :- Variable();
      var programName := variableNode.varName;
      :- Eat(Semicolon);
      var blockNode :- Block();
      var programNode := Node.Program(programName, blockNode);
      :- Eat(Dot);
      return Ok(programNode);
    }

    /** `parse`. */
    method Parse() returns (r: Result<Node>)
      requires Valid()
      modifies this, lexer
      ensures Valid() && Agrees(Grammar.ParseProgram(lexer.input, old(State())), r, State())
    {
      r := Program();
    }
  }

  /** `new Parser(input).parse()`: the tree the grammar gives for the whole text, or its first error. */
  method ParseSource(input: string) returns (r: Result<Node>)
    ensures r == Grammar.Parse(input)
    ensures r.Ok? ==> Grammar.IsProgram(r.value)
  {
    var parser :- Parser.Create(input);
    r := parser.Parse();
  }
}
