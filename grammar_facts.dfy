/**
 * Properties of the grammar that relate several productions or several
 * inputs: how the binary-operator loops fold, the arms of `factor`, the
 * signs `simpleExpr` drops, how `statement` chooses between an assignment
 * and a call, what a call's argument list and a variable declaration
 * hold, and where a program ends.
 */
module GrammarFacts {
  import opened Common
  import opened Tokens
  import opened Failures
  import opened Lexing
  import opened Ast
  import opened Grammar

  // ---------------------------------------------------------------- operator chains

  /** The three binary-operator levels, tightest first. */
  datatype Level = Multiplicative | Additive | Relational

  predicate OperatorOf(l: Level, k: Kind)
  {
    match l
    case Multiplicative => IsTermOp(k)
    case Additive => IsAddOp(k)
    case Relational => IsRelOp(k)
  }

  /** An operator token and the operand the parser read after it. */
  datatype Link = Link(op: Token, operand: Node)

  /**
   * `acc` with the links applied one after the other, each operator
   * taking the tree built so far as its left operand.
   */
  function FoldLeft(acc: Node, links: seq<Link>): Node
    decreases |links|
  {
    if links == [] then acc
    else FoldLeft(BinaryOperator(acc, links[0].op, links[0].operand), links[1..])
  }

  /**
   * The last operator of a fold is its root: the last operand is on the
   * right, and the fold of all the others on the left.
   */
  lemma {:induction false} FoldLeftRoot(acc: Node, links: seq<Link>)
    requires links != []
    ensures var n := |links| - 1;
      FoldLeft(acc, links) == BinaryOperator(FoldLeft(acc, links[..n]), links[n].op, links[n].operand)
    decreases |links|
  {
    var n := |links| - 1;
    if n > 0 {
      FoldLeftRoot(BinaryOperator(acc, links[0].op, links[0].operand), links[1..]);
      assert links[1..][..n - 1] == links[..n][1..];
    }
  }

  /** The production that reads the right operand of an operator of level `l`. */
  function Operand(input: string, st: PState, l: Level): (r: Result<Parsed<Node>>)
    requires Valid(input, st)
    ensures r.Ok? ==> IsExpr(r.value.value) && Beyond(input, st, r.value.st)
  {
    match l
    case Multiplicative => ParseFactor(input, st)
    case Additive => ParseTerm(input, st)
    case Relational => ParseSimpleExpr(input, st)
  }

  /** The operator loop of level `l`: that of `term`, `simpleExpr` or `expr`. */
  function Loop(input: string, st: PState, acc: Node, l: Level): (r: Result<Parsed<Node>>)
    requires Valid(input, st) && IsExpr(acc)
  {
    match l
    case Multiplicative => TermTail(input, st, acc)
    case Additive => SimpleExprTail(input, st, acc)
    case Relational => ExprTail(input, st, acc)
  }

  /**
   * From `st` on, the tokens are the operators of `links`, all of level
   * `l`, each followed by text that the operand production of that level
   * parses to the link's operand; after the last operand the parser is at
   * `end`, on a token that is no operator of level `l`.
   */
  predicate Chain(input: string, st: PState, links: seq<Link>, end: PState, l: Level)
    requires Valid(input, st)
    decreases |links|
  {
    if links == [] then end == st && !OperatorOf(l, st.tok.kind)
    else
      && OperatorOf(l, st.tok.kind)
      && links[0].op == st.tok
      && Next(input, st).Ok?
      && Operand(input, Next(input, st).value, l).Ok?
      && Operand(input, Next(input, st).value, l).value.value == links[0].operand
      && Chain(input, Operand(input, Next(input, st).value, l).value.st, links[1..], end, l)
  }

  /**
   * One pass of a loop: on an operator of its level the loop reads the
   * operator, then an operand, and goes on with the operator node built
   * over the tree so far; it succeeds only if both reads do.
   */
  lemma LoopUnfolds(input: string, st: PState, acc: Node, l: Level)
    requires Valid(input, st) && IsExpr(acc) && OperatorOf(l, st.tok.kind)
    ensures Loop(input, st, acc, l).Ok? ==> Next(input, st).Ok? && Operand(input, Next(input, st).value, l).Ok?
    ensures Next(input, st).Ok? && Operand(input, Next(input, st).value, l).Ok? ==>
      var o := Operand(input, Next(input, st).value, l).value;
      Loop(input, st, acc, l) == Loop(input, o.st, BinaryOperator(acc, st.tok, o.value), l)
  {
    assert Eat(input, st, st.tok.kind) == Next(input, st);
    if Next(input, st).Ok? {
      var s1 := Next(input, st).value;
      if Operand(input, s1, l).Ok? {
        var o := Operand(input, s1, l).value;
        var acc' := BinaryOperator(acc, st.tok, o.value);
        match l
        case Multiplicative => assert TermStep(input, st, acc) == Ok(Parsed(acc', o.st));
        case Additive => assert SimpleExprStep(input, st, acc) == Ok(Parsed(acc', o.st));
        case Relational => assert ExprStep(input, st, acc) == Ok(Parsed(acc', o.st));
      } else {
        match l
        case Multiplicative => assert TermStep(input, st, acc).Err?;
        case Additive => assert SimpleExprStep(input, st, acc).Err?;
        case Relational => assert ExprStep(input, st, acc).Err?;
      }
    } else {
      match l
      case Multiplicative => assert TermStep(input, st, acc).Err?;
      case Additive => assert SimpleExprStep(input, st, acc).Err?;
      case Relational => assert ExprStep(input, st, acc).Err?;
    }
  }

  /**
   * The loops of `term`, `simpleExpr` and `expr` fold to the left: over a
   * chain of operators of their level, the loop builds exactly the left
   * fold of the chain on the tree it was given, and stops where the chain
   * ends.
   */
  lemma {:induction false} LoopFoldsLeft(input: string, st: PState, acc: Node, links: seq<Link>, end: PState, l: Level)
    requires Valid(input, st) && IsExpr(acc) && Chain(input, st, links, end, l)
    ensures Loop(input, st, acc, l) == Ok(Parsed(FoldLeft(acc, links), end))
    decreases |links|
  {
    if links != [] {
      var o := Operand(input, Next(input, st).value, l).value;
      LoopUnfolds(input, st, acc, l);
      LoopFoldsLeft(input, o.st, BinaryOperator(acc, st.tok, o.value), links[1..], end, l);
    }
  }

  /** A loop on a token that is no operator of its level stops at once. */
  lemma LoopStops(input: string, st: PState, acc: Node, l: Level)
    requires Valid(input, st) && IsExpr(acc) && !OperatorOf(l, st.tok.kind)
    ensures Loop(input, st, acc, l) == Ok(Parsed(acc, st)) && Chain(input, st, [], st, l)
  {
  }

  /** An operator of level `l` and its operand, in front of a chain, make a longer chain. */
  lemma ChainCons(input: string, st: PState, rest: seq<Link>, end: PState, l: Level)
    requires Valid(input, st) && OperatorOf(l, st.tok.kind)
    requires Next(input, st).Ok? && Operand(input, Next(input, st).value, l).Ok?
    requires Chain(input, Operand(input, Next(input, st).value, l).value.st, rest, end, l)
    ensures Chain(input, st, [Link(st.tok, Operand(input, Next(input, st).value, l).value.value)] + rest, end, l)
  {
    var links := [Link(st.tok, Operand(input, Next(input, st).value, l).value.value)] + rest;
    assert links[1..] == rest;
  }

  /**
   * And nothing else: whatever a loop parses is such a left fold over a
   * chain, so the right operand of each of its operators is what the
   * production below parsed.
   */
  lemma {:induction false} LoopIsChain(input: string, st: PState, acc: Node, l: Level)
    requires Valid(input, st) && IsExpr(acc) && Loop(input, st, acc, l).Ok?
    ensures var r := Loop(input, st, acc, l).value;
      exists links :: Chain(input, st, links, r.st, l) && r.value == FoldLeft(acc, links)
    decreases Measure(input, st)
  {
    var r := Loop(input, st, acc, l).value;
    if OperatorOf(l, st.tok.kind) {
      LoopUnfolds(input, st, acc, l);
      var o := Operand(input, Next(input, st).value, l).value;
      var acc' := BinaryOperator(acc, st.tok, o.value);
      assert Loop(input, o.st, acc', l) == Ok(r);
      LoopIsChain(input, o.st, acc', l);
      var rest :| Chain(input, o.st, rest, r.st, l) && r.value == FoldLeft(acc', rest);
      ChainCons(input, st, rest, r.st, l);
      var links := [Link(st.tok, o.value)] + rest;
      assert links[1..] == rest;
      assert r.value == FoldLeft(acc, links);
    } else {
      LoopStops(input, st, acc, l);
      assert r.value == FoldLeft(acc, []);
    }
  }

  /**
   * Precedence: a simple expression without a leading sign is its first
   * factor folded with a chain of multiplicative operators, whose operands
   * are factors, and the result folded with a chain of additive operators,
   * whose operands are whole terms.  So `*`, `div` and `e` bind tighter
   * than `+`, `-` and `ou`.
   */
  lemma Precedence(input: string, st: PState, f: Parsed<Node>, mul: seq<Link>, mid: PState, add: seq<Link>, end: PState)
    requires Valid(input, st) && st.tok.kind != Plus && st.tok.kind != Minus
    requires ParseFactor(input, st) == Ok(f) && Chain(input, f.st, mul, mid, Multiplicative)
    requires Valid(input, mid) && Chain(input, mid, add, end, Additive)
    ensures ParseSimpleExpr(input, st) == Ok(Parsed(FoldLeft(FoldLeft(f.value, mul), add), end))
  {
    var term := FoldLeft(f.value, mul);
    LoopFoldsLeft(input, f.st, f.value, mul, mid, Multiplicative);
    assert ParseTerm(input, st) == Ok(Parsed(term, mid));
    LoopFoldsLeft(input, mid, term, add, end, Additive);
    assert OptionalSign(input, st, Plus) == Ok(st) && OptionalSign(input, st, Minus) == Ok(st);
  }

  // ---------------------------------------------------------------- factors

  /**
   * The arms of `factor`, chosen by the current token: a number is kept
   * as its token; a parenthesised expression is the tree of the
   * expression itself, with no node for the parentheses; `nao` is a unary
   * node over the factor after it; anything else must be a variable, and
   * a token that is none of these is reported as a missing identifier.
   */
  lemma FactorArms(input: string, st: PState)
    requires Valid(input, st)
    ensures st.tok.kind == IntegerLiteral && Next(input, st).Ok? ==>
      ParseFactor(input, st) == Ok(Parsed(Number(st.tok), Next(input, st).value))
    ensures st.tok.kind == LeftParenthesis && Next(input, st).Ok? && ParseExpr(input, Next(input, st).value).Ok? ==>
      var e := ParseExpr(input, Next(input, st).value).value;
      e.st.tok.kind == RightParenthesis && Next(input, e.st).Ok? ==>
        ParseFactor(input, st) == Ok(Parsed(e.value, Next(input, e.st).value))
    ensures st.tok.kind == Not && Next(input, st).Ok? && ParseFactor(input, Next(input, st).value).Ok? ==>
      var f := ParseFactor(input, Next(input, st).value).value;
      ParseFactor(input, st) == Ok(Parsed(UnaryOperator(st.tok, f.value), f.st))
    ensures st.tok.kind != IntegerLiteral && st.tok.kind != LeftParenthesis && st.tok.kind != Not ==>
      ParseFactor(input, st) == ParseVariable(input, st)
    ensures st.tok.kind !in {IntegerLiteral, LeftParenthesis, Not, Identifier} ==>
      ParseFactor(input, st) == Err(UnexpectedToken(Identifier, st.tok, st.cur.line))
  {
  }

  // ---------------------------------------------------------------- dropped signs

  /**
   * A leading `-` is consumed and leaves no trace: `-x` parses to the same
   * tree as `x`, unless another sign follows it.
   */
  lemma MinusDropped(input: string, st: PState)
    requires Valid(input, st) && st.tok.kind == Minus && Next(input, st).Ok?
    requires Next(input, st).value.tok.kind != Plus && Next(input, st).value.tok.kind != Minus
    ensures ParseSimpleExpr(input, st) == ParseSimpleExpr(input, Next(input, st).value)
  {
  }

  /** A leading `+` is consumed too, and may be followed by a `-` that is dropped as well. */
  lemma PlusDropped(input: string, st: PState)
    requires Valid(input, st) && st.tok.kind == Plus && Next(input, st).Ok?
    requires Next(input, st).value.tok.kind != Plus
    ensures ParseSimpleExpr(input, st) == ParseSimpleExpr(input, Next(input, st).value)
  {
  }

  // ---------------------------------------------------------------- statements

  /**
   * A statement starting with an identifier is an assignment exactly when
   * the raw character `peek` gives is `:` or `=`, and a call otherwise.
   */
  lemma StatementChoice(input: string, st: PState)
    requires Valid(input, st) && st.tok.kind == Identifier && ParseStatement(input, st).Ok?
    ensures var n := ParseStatement(input, st).value.value;
      && (n.Assign? <==> Peek(input, st) == Some(':') || Peek(input, st) == Some('='))
      && (!n.Assign? ==> n.ProcedureCall?)
  {
  }

  /**
   * Right after an identifier the lexer stands on the character that ends
   * it, and `peek` reads the one after that.
   */
  lemma PeekLooksTwoAhead(input: string, c: Cursor, q: nat, next: Token)
    requires c.pos < q <= |input| && IsLetter(input[c.pos])
    requires forall i :: c.pos <= i < q ==> IsAlphaNumeric(input[i])
    requires q == |input| || !IsAlphaNumeric(input[q])
    requires input[c.pos..q] !in ReservedWords
    ensures NextToken(input, c) == Ok(Lexed(Token(Identifier, Str(input[c.pos..q])), Cursor(q, c.line)))
    ensures Peek(input, PState(Cursor(q, c.line), next)) == CharAt(input, q + 1)
  {
    assert Peek(input, PState(Cursor(q, c.line), next)) == CharAt(input, q + 1);
    IdentifierRule(input, c, q);
  }

  /** With a blank where `peek` looks, the statement is a call, even when `:=` follows further on. */
  lemma BlankMeansCall(input: string, st: PState)
    requires Valid(input, st) && st.tok.kind == Identifier && Peek(input, st) == Some(' ')
    ensures ParseStatement(input, st) == ParseProcedureCall(input, st)
  {
  }

  /**
   * From `st` on, the tokens are `, n0 , n1 … , nk` for the strings of
   * `names`, and then a token that is not a comma, at `end`.
   */
  predicate CommaNames(input: string, st: PState, names: seq<string>, end: PState)
    requires Valid(input, st)
    decreases |names|
  {
    if names == [] then end == st && st.tok.kind != Comma
    else
      && st.tok.kind == Comma
      && Next(input, st).Ok?
      && Next(input, st).value.tok == Token(Identifier, Str(names[0]))
      && Next(input, Next(input, st).value).Ok?
      && CommaNames(input, Next(input, Next(input, st).value).value, names[1..], end)
  }

  /** Appending a non-empty list is appending its first element, then the rest. */
  lemma AppendFirst<T>(acc: seq<T>, xs: seq<T>)
    requires xs != []
    ensures acc + [xs[0]] + xs[1..] == acc + xs
  {
    assert [xs[0]] + xs[1..] == xs;
  }

  /** One pass of the `,` loop: a comma, then an identifier whose name is appended. */
  lemma IdentifierListUnfolds(input: string, st: PState, acc: seq<string>)
    requires Valid(input, st) && st.tok.kind == Comma
    ensures IdentifierListTail(input, st, acc).Ok? ==>
      Next(input, st).Ok? && Next(input, st).value.tok.kind == Identifier && Next(input, Next(input, st).value).Ok?
    ensures Next(input, st).Ok? && Next(input, st).value.tok.kind == Identifier && Next(input, Next(input, st).value).Ok? ==>
      IdentifierListTail(input, st, acc) ==
        IdentifierListTail(input, Next(input, Next(input, st).value).value, acc + [Next(input, st).value.tok.value.s])
  {
    assert Eat(input, st, Comma) == Next(input, st);
    if Next(input, st).Ok? {
      var st1 := Next(input, st).value;
      assert st1.tok.kind == Identifier ==> Eat(input, st1, Identifier) == Next(input, st1);
    }
  }

  /** The first pass of the `,` loop over a comma list reads its first name. */
  lemma CommaNamesStep(input: string, st: PState, acc: seq<string>, names: seq<string>, end: PState)
    requires Valid(input, st) && CommaNames(input, st, names, end) && names != []
    ensures var st2 := Next(input, Next(input, st).value).value;
      && CommaNames(input, st2, names[1..], end)
      && IdentifierListTail(input, st, acc) == IdentifierListTail(input, st2, acc + [names[0]])
  {
    IdentifierListUnfolds(input, st, acc);
  }

  /** The `,` loop appends the identifiers after each comma to the names it was given, in source order. */
  lemma {:induction false} IdentifierListKeepsOrder(input: string, st: PState, acc: seq<string>, names: seq<string>, end: PState)
    requires Valid(input, st) && CommaNames(input, st, names, end)
    ensures IdentifierListTail(input, st, acc) == Ok(Parsed(acc + names, end))
    decreases |names|
  {
    if names != [] {
      CommaNamesStep(input, st, acc, names, end);
      var st2 := Next(input, Next(input, st).value).value;
      IdentifierListKeepsOrder(input, st2, acc + [names[0]], names[1..], end);
      AppendFirst(acc, names);
    } else {
      assert acc + names == acc;
    }
  }

  /** A comma and an identifier in front of a comma list make a longer one. */
  lemma CommaNamesCons(input: string, st: PState, rest: seq<string>, end: PState)
    requires Valid(input, st) && st.tok.kind == Comma && Next(input, st).Ok?
    requires Next(input, st).value.tok.kind == Identifier && Next(input, Next(input, st).value).Ok?
    requires CommaNames(input, Next(input, Next(input, st).value).value, rest, end)
    ensures CommaNames(input, st, [Next(input, st).value.tok.value.s] + rest, end)
  {
    var names := [Next(input, st).value.tok.value.s] + rest;
    assert names[1..] == rest;
  }

  /** And the loop reads nothing else: what it adds is the identifiers of a comma list. */
  lemma {:induction false} IdentifierListIsCommaNames(input: string, st: PState, acc: seq<string>)
    requires Valid(input, st) && IdentifierListTail(input, st, acc).Ok?
    ensures var r := IdentifierListTail(input, st, acc).value;
      exists names :: CommaNames(input, st, names, r.st) && r.value == acc + names
    decreases Measure(input, st)
  {
    var r := IdentifierListTail(input, st, acc).value;
    if st.tok.kind == Comma {
      IdentifierListUnfolds(input, st, acc);
      var st1 := Next(input, st).value;
      var st2 := Next(input, st1).value;
      var n := st1.tok.value.s;
      IdentifierListIsCommaNames(input, st2, acc + [n]);
      var rest :| CommaNames(input, st2, rest, r.st) && r.value == acc + [n] + rest;
      CommaNamesCons(input, st, rest, r.st);
      AppendFirst(acc, [n] + rest);
      assert ([n] + rest)[1..] == rest;
    } else {
      assert CommaNames(input, st, [], r.st);
      assert r.value == acc + [];
    }
  }

  /** A call without parentheses has no arguments. */
  lemma CallWithoutParentheses(input: string, st: PState)
    requires Valid(input, st) && st.tok.kind == Identifier && Next(input, st).Ok?
    requires Next(input, st).value.tok.kind != LeftParenthesis
    ensures ParseProcedureCall(input, st) == Ok(Parsed(ProcedureCall(st.tok.value.s, []), Next(input, st).value))
  {
  }

  /** A call with an empty `()` has no arguments either. */
  lemma CallWithEmptyParentheses(input: string, st: PState, st1: PState, st2: PState)
    requires Valid(input, st) && st.tok.kind == Identifier && Next(input, st) == Ok(st1)
    requires st1.tok.kind == LeftParenthesis && Next(input, st1) == Ok(st2)
    requires st2.tok.kind == RightParenthesis && Next(input, st2).Ok?
    ensures ParseProcedureCall(input, st) == Ok(Parsed(ProcedureCall(st.tok.value.s, []), Next(input, st2).value))
  {
  }

  /**
   * The arguments of a call are the identifiers inside its parentheses:
   * the first one, then the one after each comma, in source order.
   */
  lemma CallArgumentsInOrder(input: string, st: PState, st1: PState, st2: PState, st3: PState, names: seq<string>, end: PState)
    requires Valid(input, st) && st.tok.kind == Identifier && Next(input, st) == Ok(st1)
    requires st1.tok.kind == LeftParenthesis && Next(input, st1) == Ok(st2)
    requires st2.tok.kind == Identifier && Next(input, st2) == Ok(st3)
    requires CommaNames(input, st3, names, end)
    requires Valid(input, end) && end.tok.kind == RightParenthesis && Next(input, end).Ok?
    ensures ParseProcedureCall(input, st) ==
      Ok(Parsed(ProcedureCall(st.tok.value.s, [st2.tok.value.s] + names), Next(input, end).value))
  {
    IdentifierListKeepsOrder(input, st3, [st2.tok.value.s], names, end);
  }

  /**
   * An assignment's node holds the first token after `:=`, and a right-hand
   * side starting with `verdadeiro` or `falso` is that literal alone.
   */
  lemma AssignmentRightHandSide(input: string, st: PState)
    requires Valid(input, st) && ParseAssignment(input, st).Ok?
    ensures var v := ParseVariable(input, st).value;
      var rhs := Eat(input, v.st, Kind.Assign).value.tok;
      var a := ParseAssignment(input, st).value.value;
      && a.token == rhs
      && (rhs.kind == BooleanLiteral ==> a.expression == BooleanCreate(rhs) && a.expression.value == rhs.value)
  {
  }

  /** An identifier right after a list of statements is rejected. */
  lemma IdentifierAfterStatementsRejected(input: string, st: PState)
    requires Valid(input, st) && ParseStatement(input, st).Ok?
    requires var s := ParseStatement(input, st).value;
      && StatementListTail(input, s.st, [s.value]).Ok?
      && StatementListTail(input, s.st, [s.value]).value.st.tok.kind == Identifier
    ensures ParseStatementList(input, st).Err? && ParseStatementList(input, st).error.UnexpectedIdentifier?
  {
  }

  // ---------------------------------------------------------------- declarations

  /** The `Variable` nodes of the given names, in order. */
  function Variables(names: seq<string>): (r: seq<Node>)
    ensures |r| == |names| && forall i :: 0 <= i < |r| ==> r[i] == Variable(names[i])
  {
    seq(|names|, i requires 0 <= i < |names| => Variable(names[i]))
  }

  /** The variables of one more name in front. */
  lemma VariablesCons(n: string, rest: seq<string>)
    ensures Variables([n] + rest) == [Variable(n)] + Variables(rest)
  {
    assert forall i :: 0 < i < |[n] + rest| ==> ([n] + rest)[i] == rest[i - 1];
  }

  /** The variables of a non-empty list of names: that of the first name, then the others. */
  lemma VariablesAppendFirst(acc: seq<Node>, names: seq<string>)
    requires names != []
    ensures acc + [Variable(names[0])] + Variables(names[1..]) == acc + Variables(names)
  {
    var l := acc + [Variable(names[0])] + Variables(names[1..]);
    var r := acc + Variables(names);
    assert |l| == |r|;
    forall i | 0 <= i < |l|
      ensures l[i] == r[i]
    {
      if i > |acc| {
        assert l[i] == Variables(names[1..])[i - |acc| - 1];
      }
    }
  }

  /**
   * From `st` on, the tokens are `, n0 [:= e0] , n1 [:= e1] …` for the
   * strings of `names`, each optional initialiser an expression, and then
   * a token that is not a comma, at `end`.
   */
  predicate Declarators(input: string, st: PState, names: seq<string>, end: PState)
    requires Valid(input, st)
    decreases |names|
  {
    if names == [] then end == st && st.tok.kind != Comma
    else
      && st.tok.kind == Comma
      && Next(input, st).Ok?
      && Next(input, st).value.tok == Token(Identifier, Str(names[0]))
      && Next(input, Next(input, st).value).Ok?
      && Initialiser(input, Next(input, Next(input, st).value).value).Ok?
      && Declarators(input, Initialiser(input, Next(input, Next(input, st).value).value).value, names[1..], end)
  }

  /** One pass of the `,` loop of `variableDeclaration`: a comma, a name, its optional initialiser. */
  lemma DeclaratorTailUnfolds(input: string, st: PState, acc: seq<Node>)
    requires Valid(input, st) && st.tok.kind == Comma
    ensures DeclaratorTail(input, st, acc).Ok? ==>
      && Next(input, st).Ok? && Next(input, st).value.tok.kind == Identifier
      && Next(input, Next(input, st).value).Ok?
      && Initialiser(input, Next(input, Next(input, st).value).value).Ok?
    ensures
      && Next(input, st).Ok? && Next(input, st).value.tok.kind == Identifier
      && Next(input, Next(input, st).value).Ok?
      && Initialiser(input, Next(input, Next(input, st).value).value).Ok?
      ==>
      DeclaratorTail(input, st, acc) ==
        DeclaratorTail(input, Initialiser(input, Next(input, Next(input, st).value).value).value,
          acc + [Variable(Next(input, st).value.tok.value.s)])
  {
    assert Eat(input, st, Comma) == Next(input, st);
    if Next(input, st).Ok? {
      var st1 := Next(input, st).value;
      assert st1.tok.kind == Identifier ==> Eat(input, st1, Identifier) == Next(input, st1);
    }
  }

  /** The first pass of the `,` loop over a list of declarators declares its first name. */
  lemma DeclaratorsStep(input: string, st: PState, acc: seq<Node>, names: seq<string>, end: PState)
    requires Valid(input, st) && Declarators(input, st, names, end) && names != []
    ensures var st3 := Initialiser(input, Next(input, Next(input, st).value).value).value;
      && Declarators(input, st3, names[1..], end)
      && DeclaratorTail(input, st, acc) == DeclaratorTail(input, st3, acc + [Variable(names[0])])
  {
    DeclaratorTailUnfolds(input, st, acc);
  }

  /**
   * The `,` loop of `variableDeclaration` appends a variable for the name
   * after each comma to those it was given, in source order.
   */
  lemma {:induction false} DeclaratorsInOrder(input: string, st: PState, acc: seq<Node>, names: seq<string>, end: PState)
    requires Valid(input, st) && Declarators(input, st, names, end)
    ensures DeclaratorTail(input, st, acc) == Ok(Parsed(acc + Variables(names), end))
    decreases |names|
  {
    if names != [] {
      DeclaratorsStep(input, st, acc, names, end);
      var st3 := Initialiser(input, Next(input, Next(input, st).value).value).value;
      DeclaratorsInOrder(input, st3, acc + [Variable(names[0])], names[1..], end);
      VariablesAppendFirst(acc, names);
    } else {
      assert acc + Variables(names) == acc;
    }
  }

  /** A declarator in front of a list of declarators makes a longer one. */
  lemma DeclaratorsCons(input: string, st: PState, rest: seq<string>, end: PState)
    requires Valid(input, st) && st.tok.kind == Comma && Next(input, st).Ok?
    requires Next(input, st).value.tok.kind == Identifier && Next(input, Next(input, st).value).Ok?
    requires Initialiser(input, Next(input, Next(input, st).value).value).Ok?
    requires Declarators(input, Initialiser(input, Next(input, Next(input, st).value).value).value, rest, end)
    ensures Declarators(input, st, [Next(input, st).value.tok.value.s] + rest, end)
  {
    var names := [Next(input, st).value.tok.value.s] + rest;
    assert names[1..] == rest;
  }

  /** And the loop reads nothing else: what it appends are the variables of a list of declarators. */
  lemma {:induction false} DeclaratorTailIsDeclarators(input: string, st: PState, acc: seq<Node>)
    requires Valid(input, st) && DeclaratorTail(input, st, acc).Ok?
    ensures var r := DeclaratorTail(input, st, acc).value;
      exists names :: Declarators(input, st, names, r.st) && r.value == acc + Variables(names)
    decreases Measure(input, st)
  {
    var r := DeclaratorTail(input, st, acc).value;
    if st.tok.kind == Comma {
      DeclaratorTailUnfolds(input, st, acc);
      var st1 := Next(input, st).value;
      var st3 := Initialiser(input, Next(input, st1).value).value;
      var n := st1.tok.value.s;
      DeclaratorTailIsDeclarators(input, st3, acc + [Variable(n)]);
      var rest :| Declarators(input, st3, rest, r.st) && r.value == acc + [Variable(n)] + Variables(rest);
      DeclaratorsCons(input, st, rest, r.st);
      VariablesAppendFirst(acc, [n] + rest);
      assert ([n] + rest)[1..] == rest;
    } else {
      assert Declarators(input, st, [], r.st);
      assert r.value == acc + Variables([]);
    }
  }

  /**
   * `variableDeclaration` declares the name after the type and then the
   * name after each comma, in source order: one `VarDecl` each, of a
   * variable of that name, all holding the type node.
   */
  lemma DeclarationInOrder(input: string, st: PState, t: Parsed<Node>, s1: PState, s2: PState, names: seq<string>, end: PState)
    requires Valid(input, st) && ParseTypeSpec(input, st) == Ok(t)
    requires t.st.tok.kind == Identifier && Next(input, t.st) == Ok(s1)
    requires Initialiser(input, s1) == Ok(s2) && Declarators(input, s2, names, end)
    ensures var all := [t.st.tok.value.s] + names;
      var ds := VarDecls(Variables(all), Type(st.tok));
      && ParseVariableDeclaration(input, st) == Ok(Parsed(ds, end))
      && |ds| == |all| && forall i :: 0 <= i < |all| ==> ds[i] == VarDecl(Variable(all[i]), Type(st.tok))
  {
    var first := t.st.tok.value.s;
    DeclaratorsInOrder(input, s2, [Variable(first)], names, end);
    VariablesCons(first, names);
    assert Eat(input, t.st, Identifier) == Ok(s1);
  }

  // ---------------------------------------------------------------- programs

  /**
   * A program ends at its `.`: the parse succeeds with the lexer's next
   * token after it, whatever that token is.
   */
  lemma ProgramEndsAtDot(input: string, st: PState)
    requires Valid(input, st) && ParseProgram(input, st).Ok?
    ensures exists s :: Valid(input, s) && s.tok.kind == Dot && Next(input, s) == Ok(ParseProgram(input, st).value.st)
  {
    var st1 := Eat(input, st, Kind.Program).value;
    var v := ParseVariable(input, st1).value;
    var st2 := Eat(input, v.st, Semicolon).value;
    var b := ParseBlock(input, st2).value;
    assert Next(input, b.st) == Ok(ParseProgram(input, st).value.st);
  }

  /**
   * Once the block stops at a `.`, `program` eats it and returns: it
   * succeeds exactly when the lexer can read one more token, whatever that
   * token's kind (no end-of-file is demanded), fails with that token's
   * lexical error otherwise, and ends in the state just after it.
   */
  lemma ProgramStopsAfterDot(input: string, st: PState, st1: PState, v: Parsed<Node>, st2: PState, b: Parsed<Node>)
    requires Valid(input, st)
    requires Eat(input, st, Kind.Program) == Ok(st1) && ParseVariable(input, st1) == Ok(v)
    requires Eat(input, v.st, Semicolon) == Ok(st2) && ParseBlock(input, st2) == Ok(b)
    requires b.st.tok.kind == Dot
    ensures ParseProgram(input, st).Ok? <==> Next(input, b.st).Ok?
    ensures Next(input, b.st).Err? ==> ParseProgram(input, st) == Err(Next(input, b.st).error)
    ensures Next(input, b.st).Ok? ==>
      ParseProgram(input, st) == Ok(Parsed(Node.Program(v.value.varName, b.value), Next(input, b.st).value))
  {
    assert Eat(input, b.st, Dot) == Next(input, b.st);
  }
}
