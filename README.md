# A verified model of the emergency-language front end

The emergency language is a small Pascal-like language with Portuguese
keywords: `program`, `var`, `inteiro`, `logico`, `procedimento`, `inicio`,
`fim`, `se`/`entao`/`senao`, `enquanto`/`faca`, `e`, `ou`, `nao`, `div`,
`verdadeiro` and `falso`. Its front end has three stages:

- a lexer turns the text into tokens;
- a recursive-descent parser builds an abstract syntax tree from them;
- a semantic analyzer walks the tree with a chain of symbol tables.

It reports undeclared and doubly declared names. The first error in any
stage stops the compiler.

This project models those three stages, the token table and the AST nodes
that carry behaviour of their own (`IfNode`, `WhileNode`, `ProcedureCall`,
`Boolean`). Each stateful stage is written twice:

- once as pure functions that define what it computes;
- once as a class with the original's fields, whose methods are proved to
  compute exactly those functions, state included.

Lemmas about the functions then state what the front end promises.

| file | module | what it holds |
|---|---|---|
| `common.dfy` | `Common` | `Option` and a lower-case-word predicate |
| `decimal.dfy` | `Decimal` | decimal digits, the value of a digit string, integer rendering |
| `tokens.dfy` | `Tokens` | token kinds and their names, `Token`, `is`, `getValue`, `toString`, the reserved-word table |
| `failures.dfy` | `Failures` | the errors each stage raises, their phase, `Result` and `Outcome` |
| `lexing.dfy` | `Lexing` | the lexer as a function `NextToken` on a cursor, its rules as lemmas, and the `Lexer` class |
| `ast.dfy` | `Ast` | the node datatype and the accessors of the four node classes |
| `grammar.dfy` | `Grammar` | the parser as functions on a parse state (a cursor plus the current token), one per grammar rule |
| `parser.dfy` | `Parsing` | the `Parser` class, which owns a `Lexer`, with one method per rule |
| `grammar_facts.dfy` | `GrammarFacts` | properties of the grammar: how the operator loops fold, precedence, the arms of `factor`, the statement choice, call arguments, declared names |
| `scopes.dfy` | `Scopes` | the scoped symbol tables as a sequence of scopes, innermost last |
| `semantics.dfy` | `Semantics` | the analysis as a function `Analyze` on a node and a scope chain, and its rules |
| `analyzer.dfy` | `Analysis` | the `SemanticAnalyzer` class and the compiler's entry point |

The original reports an error by throwing an exception. Here each stage
returns `Err(e)` or `Fail(e)` instead. The error names what the message
reports: the kind expected, the token found, the line, or the name.

## Model

| member | source | states |
|---|---|---|
| Decimal.ValueOfNatToString | src/lexico/Token.js:65-67 | Rendering a non-negative integer in decimal, as a token's text shows it, and reading the digits back gives the same number. |
| Decimal.NatToString | src/lexico/Token.js:65-67 | The decimal rendering of a natural number is a non-empty run of digits, with a leading zero only for zero itself. |
| Decimal.IntToString | src/lexico/Token.js:65-67 | A negative number renders as `-` followed by digits; any other number renders as digits only. |
| Tokens.KindName | src/lexico/Token.js:91-431 | Every token kind's name, as its static getter gives it, is non-empty and holds no comma. |
| Tokens.KindOfName | src/lexico/Token.js:91-431 | Reading a name back finds only a kind whose name it is. |
| Tokens.KindNameInverse | src/lexico/Token.js:91-431 | Reading back any kind's name gives that kind. |
| Tokens.KindNamesDistinct | src/lexico/Token.js:91-431 | Two kinds have the same name exactly when they are the same kind. |
| Tokens.Is | src/lexico/Token.js:52-54 | `is(k)` holds exactly when the token's kind is `k`. |
| Tokens.GetValue | src/lexico/Token.js:37-39 | `getValue` gives null exactly for a JavaScript-falsy value: null, 0 or the empty string. Otherwise it gives the stored value. |
| Tokens.FalsyValuesReadAsNull | src/lexico/Token.js:37-39 | The integer literal 0 and the EOF token read as null. Every other integer reads as itself. |
| Tokens.ToString | src/lexico/Token.js:65-67 | `toString` renders a token as `Token<…>`. |
| Tokens.RenderingDeterminesKind | src/lexico/Token.js:65-67 | The kind of any token can be read back from its `toString` rendering. |
| Tokens.ZeroRendersAsNull | src/lexico/Token.js:65-67 | The literal 0 renders as `Token<INTEIRO_LITERAL, null>`, because `toString` goes through `getValue`. |
| Tokens.ReservedWordsKeys | src/lexico/Token.js:439-461 | The reserved-word table holds exactly the twenty spellings of the language. |
| Tokens.ReservedWordsEntry | src/lexico/Token.js:439-461 | Each entry's token carries its own spelling as its value, and has the kind listed for that word. |
| Tokens.ReservedWordsSpelledAsKeys | src/lexico/Token.js:439-461 | Every token in the table carries exactly the word it is stored under. |
| Tokens.ReservedWordsLowercase | src/lexico/Token.js:439-461 | Every reserved word is a non-empty run of lower-case letters. It is therefore matched only when written in lower case. |
| Tokens.ReservedWordsIdentifiers | src/lexico/Token.js:454-455 | An entry has the identifier kind exactly for `leia` and `escreva`. They are built-in procedure names, not keywords. |
| Tokens.ReservedWordsBooleanLiterals | src/lexico/Token.js:459-460 | An entry is a boolean literal exactly for `verdadeiro` and `falso`. |
| Tokens.ReservedWordsOtherKinds | src/lexico/Token.js:439-461 | No entry is an EOF or an integer literal. |
| Lexing.CharAt | src/lexico/Lexer.js:38-50 | The current character is present exactly when the position is inside the text, and is then the text's character there. |
| Lexing.StepCountsLines | src/lexico/Lexer.js:38-50 | Advancing moves one position. The line grows by the line feeds in the one character left behind, and does not change past the end. |
| Lexing.NewlinesLast | src/lexico/Lexer.js:38-50 | The line count over a stretch grows by one for each line feed stepped over. |
| Lexing.SkipBlanks | src/lexico/Lexer.js:76-82 | Skipping blanks never moves backwards or loses lines. At a blank it moves forward. |
| Lexing.SkipBlanksIs | src/lexico/Lexer.js:76-82 | Skipping blanks stops at the first non-blank, with the line advanced by the line feeds passed. |
| Lexing.SkipPast | src/lexico/Lexer.js:89-95 | Skipping a comment always moves forward and never loses lines. |
| Lexing.SkipPastIs | src/lexico/Lexer.js:89-95 | Skipping a comment stops just past the first closing character, with the line advanced by the line feeds passed. |
| Lexing.SkipPastEnd | src/lexico/Lexer.js:89-95 | With no closing character, the skip runs one past the end of the text. |
| Lexing.DigitRunEnd | src/lexico/Lexer.js:102-108 | The digit run ends at the first non-digit or at the end. Everything before it is a digit. |
| Lexing.WordRunEnd | src/lexico/Lexer.js:128-133 | The word run ends at the first character that is neither a letter nor a digit. |
| Lexing.ScanNumber | src/lexico/Lexer.js:102-115 | A number gives a non-negative integer-literal token and moves forward on the same line. A `.` right after the digits is an error. |
| Lexing.NumberRule | src/lexico/Lexer.js:102-115 | At a digit, the token is the value of the maximal digit run, unless a `.` follows it. The `.` is then rejected as an unexpected character. |
| Lexing.ScanWord | src/lexico/Lexer.js:128-137 | A word gives a non-EOF token of the shapes the lexer produces and moves forward on the same line. |
| Lexing.WordTokenLexable | src/lexico/Lexer.js:128-137 | Any word, reserved or not, gives a token of the shapes the lexer produces: identifiers carry a word and boolean literals their spelling. |
| Lexing.IdentifierRule | src/lexico/Lexer.js:128-137 | At a letter, the token is the table's entry for the maximal word when the word is reserved. Otherwise it is an identifier carrying the word. |
| Lexing.ScanSymbol | src/lexico/Lexer.js:182-199 | An operator or punctuation token moves forward on the same line and is never EOF. |
| Lexing.ScanOperator | src/lexico/Lexer.js:201-217 | The same holds for `<>`, `>`, `<`, `:` and the punctuation after them. |
| Lexing.ScanPunctuation | src/lexico/Lexer.js:219-264 | A punctuation token is one character long. The scan fails exactly for a character outside `,;.+-*/()`. |
| Lexing.NextToken | src/lexico/Lexer.js:152-268 | The next token never moves the lexer backwards and never lowers the line. Every token but EOF consumes text. EOF carries null and comes only at the end. Every token has the shape the lexer produces. |
| Lexing.ScanToken | src/lexico/Lexer.js:153-265 | One pass of the loop, at a character, moves forward and keeps the same guarantees. |
| Lexing.NumberDispatch | src/lexico/Lexer.js:174-176 | At a digit, the next token is the number scanned there. |
| Lexing.WordDispatch | src/lexico/Lexer.js:178-180 | At a letter, the next token is the word scanned there. |
| Lexing.SymbolDispatch | src/lexico/Lexer.js:182-264 | At any other non-blank character outside a comment, the next token is the operator rule's result. |
| Lexing.AssignBeforeColon | src/lexico/Lexer.js:182-217 | `:` followed by `=` is one assignment token. A lone `:` is a colon. |
| Lexing.GreaterOrEqualBeforeGreater | src/lexico/Lexer.js:191-208 | `>=` is one token. A lone `>` is greater-than. |
| Lexing.LessOrDifferentBeforeLess | src/lexico/Lexer.js:196-212 | `<=` and `<>` are single tokens. A lone `<` is less-than. |
| Lexing.LoneSlash | src/lexico/Lexer.js:249-252 | A `/` not followed by another `/` is the slash token. |
| Lexing.UnknownCharacterRejected | src/lexico/Lexer.js:264 | A character no rule accepts is rejected with that character and the current line. |
| Lexing.BlankDispatch | src/lexico/Lexer.js:154-157 | At a blank, the next token is the one after the blanks. |
| Lexing.BraceDispatch | src/lexico/Lexer.js:163-167 | At `{`, the next token is the one after the comment. |
| Lexing.LineDispatch | src/lexico/Lexer.js:168-172 | At `//`, the next token is the one after the rest of the line. |
| Lexing.BraceCommentEnds | src/lexico/Lexer.js:89-95 | A `{` comment ends just after its first `}`, counting the lines inside it. |
| Lexing.UnclosedBraceComment | src/lexico/Lexer.js:163-167 | An unclosed `{` comment swallows the rest of the text. The lexer then gives EOF, not an error. |
| Lexing.LineCommentEnds | src/lexico/Lexer.js:89-95 | A `//` comment ends just after the next line feed, which advances the line by one. |
| Lexing.EofIsSticky | src/lexico/Lexer.js:152-268 | Once the lexer has returned EOF, every later call returns EOF again and leaves the cursor where it is. |
| Lexing.Lexer.constructor | src/lexico/Lexer.js:17-22 | A new lexer stands at position 0, line 1, on the text's first character. |
| Lexing.Lexer.Advance | src/lexico/Lexer.js:38-50 | Advancing moves one position. It counts a line when it leaves a line feed and loads the character under the new position. |
| Lexing.Lexer.Peek | src/lexico/Lexer.js:63-69 | `peek` gives the character one past the position, or none when that is beyond the last character. |
| Lexing.Lexer.SkipWhitespace | src/lexico/Lexer.js:76-82 | The loop leaves the lexer where `SkipBlanks` says. |
| Lexing.Lexer.SkipComment | src/lexico/Lexer.js:89-95 | The loop leaves the lexer where `SkipPast` says. |
| Lexing.Lexer.Number | src/lexico/Lexer.js:102-115 | The method returns the token or error `ScanNumber` gives and stops where it says. |
| Lexing.Lexer.Identifier | src/lexico/Lexer.js:128-137 | The method returns the token `ScanWord` gives and stops where it says. |
| Lexing.Lexer.GetNextToken | src/lexico/Lexer.js:152-268 | The method returns the token or error `NextToken` gives, and leaves the lexer at the cursor `NextToken` gives. |
| Lexing.Lexer.Lexeme | src/lexico/Lexer.js:174-264 | The token-producing arms of `getNextToken` return what `NextToken` gives. |
| Lexing.Lexer.Symbol | src/lexico/Lexer.js:182-199 | The first operator arms agree with `ScanSymbol`. |
| Lexing.Lexer.Operator | src/lexico/Lexer.js:201-217 | The later operator arms agree with `ScanOperator`. |
| Lexing.Lexer.Punctuation | src/lexico/Lexer.js:219-264 | The punctuation arms and the final error agree with `ScanPunctuation`. |
| Ast.NameField | src/ast/IfNode.js:10-16 | Only `IfNode`, `WhileNode` and `ProcedureCall` are given a `name` field. |
| Ast.IfNodeGetName | src/ast/IfNode.js:17-19 | `IfNode.getName` gives the node's `name` field. |
| Ast.GetElseCases | src/ast/IfNode.js:26-28 | `getElseCases` never gives back a stored `senao` branch. |
| Ast.ElseCasesNeverRead | src/ast/IfNode.js:26-28 | A stored `senao` branch is kept in the node, yet `getElseCases` never gives it back. |
| Ast.CallNameIsNotTheField | src/ast/ProcedureCall.js:8-21 | A call's `name` field is its class name, while `getName` is the callee. The two agree only for a procedure named `ProcedureCall`. |
| Ast.BooleanCreate | src/ast/Boolean.js:39-41 | `Boolean.create` keeps the token's `getValue()`. |
| Ast.BooleanLiteralsKeepTheirSpelling | src/ast/Boolean.js:39-41 | `verdadeiro` and `falso` give nodes holding their spelling, a string, not a truth value. |
| Grammar.Next | src/sintatico/Parser.js:41-51 | Taking the lexer's next token never moves backwards. Past any token but EOF, it moves forward. |
| Grammar.Start | src/sintatico/Parser.js:21-24 | A new parser holds the lexer's first token. |
| Grammar.Eat | src/sintatico/Parser.js:41-51 | `eat(k)` succeeds only on a token of kind `k`, and then moves forward. |
| Grammar.EatRule | src/sintatico/Parser.js:41-51 | `eat(k)` moves to the next token exactly when the current one `is(k)`. Otherwise it fails, naming `k`, the token found and its line. |
| Grammar.ParseVariable | src/sintatico/Parser.js:68-72 | A variable is parsed exactly when the token is an identifier. It carries that identifier's text. |
| Grammar.ParseParenthesised | src/sintatico/Parser.js:88-92 | A parenthesised factor gives an expression and moves forward. |
| Grammar.ParseNegation | src/sintatico/Parser.js:93-95 | A `nao` factor gives an expression and moves forward. |
| Grammar.ParseFactor | src/sintatico/Parser.js:82-99 | A factor gives an expression tree and moves forward. |
| Grammar.TermTail | src/sintatico/Parser.js:112-124 | The term loop stops exactly at a token that is not `*`, `div` or `e`. |
| Grammar.ParseTerm | src/sintatico/Parser.js:109-127 | A term gives an expression and ends before any multiplicative operator. |
| Grammar.OptionalSign | src/sintatico/Parser.js:135-138 | A missing sign leaves the parser where it was. |
| Grammar.SimpleExprTail | src/sintatico/Parser.js:141-153 | The additive loop stops exactly at a token that is not `+`, `-` or `ou`. |
| Grammar.ParseSimpleExpr | src/sintatico/Parser.js:134-156 | A simple expression gives an expression tree and moves forward. |
| Grammar.ExprTail | src/sintatico/Parser.js:165-183 | The relational loop stops exactly at a token that is not a comparison. |
| Grammar.ParseExpr | src/sintatico/Parser.js:162-186 | An expression ends before any comparison. |
| Grammar.Peek | src/lexico/Lexer.js:63-69 | What `statement` peeks at is the raw character after the lexer's position. |
| Grammar.IdentifierListTail | src/sintatico/Parser.js:229-233 | The argument loop stops at a token that is not a comma, keeps the names it was given in front and only adds names after them (their exact list is in `GrammarFacts.IdentifierListKeepsOrder`). |
| Grammar.ParseProcedureCall | src/sintatico/Parser.js:219-238 | A call node names the identifier it starts with. |
| Grammar.ParseAssignment | src/sintatico/Parser.js:245-259 | An assignment gives a well-formed assignment statement. |
| Grammar.ParseCompound | src/sintatico/Parser.js:266-275 | `inicio … fim` gives a compound statement. |
| Grammar.ParseConditional | src/sintatico/Parser.js:192-204 | `se … entao … [senao …]` gives an `IfNode`. |
| Grammar.ParseRepeat | src/sintatico/Parser.js:210-218 | `enquanto … faca …` gives a `WhileNode`. |
| Grammar.ParseStatement | src/sintatico/Parser.js:286-310 | A statement gives a well-formed statement node and never moves backwards. |
| Grammar.StatementListTail | src/sintatico/Parser.js:322-325 | The `;` loop stops at a token that is not `;` and keeps every statement well-formed. |
| Grammar.ParseStatementList | src/sintatico/Parser.js:318-332 | A statement list is non-empty and well-formed. It stops at a token that is neither `;` nor an identifier. |
| Grammar.ParseTypeSpec | src/sintatico/Parser.js:340-349 | A type is `inteiro` or `logico`, kept as the type node's token. |
| Grammar.Initialiser | src/sintatico/Parser.js:360-363 | An optional initialiser never moves backwards. |
| Grammar.DeclaratorStep | src/sintatico/Parser.js:364-372 | One `, name [:= expr]` step gives a variable. |
| Grammar.DeclaratorTail | src/sintatico/Parser.js:364-372 | The declarator loop stops at a token that is not a comma. |
| Grammar.DeclaratorTailVariables | src/sintatico/Parser.js:364-372 | The loop keeps the variables it was given in front and adds only variables after them. |
| Grammar.VarDecls | src/sintatico/Parser.js:373 | One declaration is made per name, in order, each with the shared type. |
| Grammar.ParseVariableDeclaration | src/sintatico/Parser.js:356-374 | A declaration gives one or more variable declarations, all well-formed. |
| Grammar.Params | src/sintatico/Parser.js:422 | One parameter is made per name, in order, each with the shared type. |
| Grammar.ParseParameterNames | src/sintatico/Parser.js:407-416 | A parameter section names at least one identifier. |
| Grammar.ParseParameterType | src/sintatico/Parser.js:418-420 | A parameter section ends in `:` and a type. |
| Grammar.ParseFormalParameters | src/sintatico/Parser.js:406-423 | A parameter section gives one or more well-formed parameters. |
| Grammar.ParametersShareType | src/sintatico/Parser.js:420-422 | All parameters of one section share that section's type node. |
| Grammar.FormalParametersStep | src/sintatico/Parser.js:434-437 | One `; section` step gives one or more well-formed parameters. |
| Grammar.FormalParametersTail | src/sintatico/Parser.js:434-437 | The section loop stops at a token that is not `;`. |
| Grammar.FormalParametersTailParams | src/sintatico/Parser.js:434-437 | The section loop keeps the parameters it was given in front and appends only parameter nodes after them. |
| Grammar.ParseFormalParameterList | src/sintatico/Parser.js:431-440 | A parameter list is non-empty and well-formed. |
| Grammar.ParseOptionalParameters | src/sintatico/Parser.js:388-392 | Without `(` a procedure has no parameters and nothing is consumed. |
| Grammar.ParseProcedureDeclaration | src/sintatico/Parser.js:381-399 | A procedure declaration gives a well-formed declaration node. |
| Grammar.VarDeclarationStep | src/sintatico/Parser.js:451-455 | One declaration line gives well-formed variable declarations. |
| Grammar.VarDeclarationsLoop | src/sintatico/Parser.js:451-455 | The variable loop stops at a token that is not a type. |
| Grammar.VarDeclarationsLoopDecls | src/sintatico/Parser.js:451-455 | The loop keeps the declarations it was given in front and appends after them only well-formed variable declarations. |
| Grammar.VariablesFirst | src/sintatico/Parser.js:448-463 | In the declarations of a block, no variable declaration follows a procedure. |
| Grammar.OrderedAppend | src/sintatico/Parser.js:457-460 | Appending a procedure keeps the variables-then-procedures order. |
| Grammar.ProcedureDeclarationsLoop | src/sintatico/Parser.js:457-460 | The procedure loop stops at a token that is not `procedimento` and keeps the order. |
| Grammar.ParseDeclarations | src/sintatico/Parser.js:448-463 | The declarations are variables first, then procedures. |
| Grammar.ParseBlock | src/sintatico/Parser.js:470-475 | A block gives a well-formed block node. |
| Grammar.ParseProgram | src/sintatico/Parser.js:482-495 | A program gives a well-formed program node. |
| Grammar.Parse | src/sintatico/Parser.js:507-509 | A successful parse gives a well-formed program tree. |
| Parsing.Parser.constructor | src/sintatico/Parser.js:21-24 | A parser holds its lexer and the first token. |
| Parsing.Parser.Create | src/sintatico/Parser.js:21-24 | A parser is built on a fresh lexer over the text. It holds the token `Start` gives, or fails with the lexer's error. |
| Parsing.Parser.Eat | src/sintatico/Parser.js:41-51 | `eat` fails or moves exactly as `Grammar.Eat` says. |
| Parsing.Parser.Variable | src/sintatico/Parser.js:68-72 | `variable` returns what `ParseVariable` gives and stops where it says. |
| Parsing.Parser.Parenthesised | src/sintatico/Parser.js:88-92 | The `(` arm of `factor` agrees with `ParseParenthesised`. |
| Parsing.Parser.Negation | src/sintatico/Parser.js:93-95 | The `nao` arm of `factor` agrees with `ParseNegation`. |
| Parsing.Parser.Factor | src/sintatico/Parser.js:82-99 | `factor` agrees with `ParseFactor`. |
| Parsing.Parser.TermStep | src/sintatico/Parser.js:113-123 | One pass of the term loop agrees with `Grammar.TermStep`. |
| Parsing.Parser.TermTail | src/sintatico/Parser.js:112-124 | The term loop agrees with `Grammar.TermTail`. |
| Parsing.Parser.Term | src/sintatico/Parser.js:109-127 | `term` agrees with `ParseTerm`. |
| Parsing.Parser.OptionalSign | src/sintatico/Parser.js:135-138 | Sign handling agrees with `Grammar.OptionalSign`. |
| Parsing.Parser.SimpleExprStep | src/sintatico/Parser.js:142-152 | One pass of the additive loop agrees with `Grammar.SimpleExprStep`. |
| Parsing.Parser.SimpleExprTail | src/sintatico/Parser.js:141-153 | The additive loop agrees with `Grammar.SimpleExprTail`. |
| Parsing.Parser.SimpleExpr | src/sintatico/Parser.js:134-156 | `simpleExpr` agrees with `ParseSimpleExpr`. |
| Parsing.Parser.ExprStep | src/sintatico/Parser.js:166-182 | One pass of the relational loop agrees with `Grammar.ExprStep`. |
| Parsing.Parser.ExprTail | src/sintatico/Parser.js:165-183 | The relational loop agrees with `Grammar.ExprTail`. |
| Parsing.Parser.Expr | src/sintatico/Parser.js:162-186 | `expr` agrees with `ParseExpr`. |
| Parsing.Parser.IdentifierListTail | src/sintatico/Parser.js:229-233 | The argument loop agrees with `Grammar.IdentifierListTail`. |
| Parsing.Parser.ProcedureCall | src/sintatico/Parser.js:219-238 | `procedureCall` agrees with `ParseProcedureCall`. |
| Parsing.Parser.AssignmentStatement | src/sintatico/Parser.js:245-259 | `assignmentStatement` agrees with `ParseAssignment`. |
| Parsing.Parser.CompoundStatement | src/sintatico/Parser.js:266-275 | `compoundStatement` agrees with `ParseCompound`. |
| Parsing.Parser.ConditionalStatement | src/sintatico/Parser.js:192-204 | `conditionalStatement` agrees with `ParseConditional`. |
| Parsing.Parser.RepeatStatement | src/sintatico/Parser.js:210-218 | `repeatStatement` agrees with `ParseRepeat`. |
| Parsing.Parser.Statement | src/sintatico/Parser.js:286-310 | `statement` agrees with `ParseStatement`, including its use of the lexer's `peek`. |
| Parsing.Parser.StatementList | src/sintatico/Parser.js:318-332 | `statementList` agrees with `ParseStatementList`. |
| Parsing.Parser.TypeSpec | src/sintatico/Parser.js:340-349 | `typeSpec` agrees with `ParseTypeSpec`. |
| Parsing.Parser.Initialiser | src/sintatico/Parser.js:360-363 | The initialiser agrees with `Grammar.Initialiser`. |
| Parsing.Parser.DeclaratorStep | src/sintatico/Parser.js:365-371 | One pass of the declarator loop agrees with `Grammar.DeclaratorStep`. |
| Parsing.Parser.DeclaratorTail | src/sintatico/Parser.js:364-372 | The declarator loop agrees with `Grammar.DeclaratorTail`. |
| Parsing.Parser.VariableDeclaration | src/sintatico/Parser.js:356-374 | `variableDeclaration` agrees with `ParseVariableDeclaration`. |
| Parsing.Parser.ParameterNames | src/sintatico/Parser.js:407-416 | The name loop of `formalParameters` agrees with `ParseParameterNames`. |
| Parsing.Parser.FormalParameters | src/sintatico/Parser.js:406-423 | `formalParameters` agrees with `ParseFormalParameters`. |
| Parsing.Parser.FormalParametersStep | src/sintatico/Parser.js:435-436 | One pass of the section loop agrees with `Grammar.FormalParametersStep`. |
| Parsing.Parser.FormalParameterList | src/sintatico/Parser.js:431-440 | `formalParameterList` agrees with `ParseFormalParameterList`. |
| Parsing.Parser.OptionalParameters | src/sintatico/Parser.js:388-392 | The optional parameter list agrees with `ParseOptionalParameters`. |
| Parsing.Parser.ProcedureDeclaration | src/sintatico/Parser.js:381-399 | `procedureDeclaration` agrees with `ParseProcedureDeclaration`. |
| Parsing.Parser.VarDeclarationStep | src/sintatico/Parser.js:452-454 | One pass of the variable loop agrees with `Grammar.VarDeclarationStep`. |
| Parsing.Parser.VariableDeclarations | src/sintatico/Parser.js:451-455 | The variable loop agrees with `VarDeclarationsLoop`. |
| Parsing.Parser.ProcedureDeclarations | src/sintatico/Parser.js:457-460 | The procedure loop agrees with `ProcedureDeclarationsLoop`. |
| Parsing.Parser.Declarations | src/sintatico/Parser.js:448-463 | `declarations` agrees with `ParseDeclarations`. |
| Parsing.Parser.Block | src/sintatico/Parser.js:470-475 | `block` agrees with `ParseBlock`. |
| Parsing.Parser.Program | src/sintatico/Parser.js:482-495 | `program` agrees with `ParseProgram`. |
| Parsing.Parser.Parse | src/sintatico/Parser.js:507-509 | `parse` agrees with `ParseProgram`. |
| Parsing.ParseSource | src/index.js:5 | Building a parser on a text and parsing gives `Grammar.Parse` of that text. On success the result is a well-formed program. |
| GrammarFacts.FoldLeftRoot | src/sintatico/Parser.js:112-124 | In a left fold the last operator is the root, with the last operand on its right and the fold of all earlier links on its left. So `a * b * c` is `(a * b) * c`. |
| GrammarFacts.LoopUnfolds | src/sintatico/Parser.js:109-186 | On an operator of its level, one pass of a loop reads the operator and one operand, then goes on with the operator node built over the tree so far. The pass succeeds only if both reads do. |
| GrammarFacts.LoopFoldsLeft | src/sintatico/Parser.js:109-186 | Over a chain of operators of its level, each followed by text its operand production parses, the loop of `term`, `simpleExpr` or `expr` builds exactly the left fold of the chain and stops where the chain ends. The relational loop does not stop after one comparison, so `a < b = c` is `(a < b) = c`. |
| GrammarFacts.LoopIsChain | src/sintatico/Parser.js:109-186 | Conversely, whatever a loop parses is the left fold of such a chain: each right operand is what the production below parsed (a factor, a term or a simple expression). |
| GrammarFacts.Precedence | src/sintatico/Parser.js:134-156 | A simple expression without a sign is its first factor folded with a chain of multiplicative operators over factors, then folded with a chain of additive operators over whole terms. So `*`, `div` and `e` bind tighter than `+`, `-` and `ou`. |
| GrammarFacts.FactorArms | src/sintatico/Parser.js:82-99 | A number keeps its token. A parenthesised expression is the inner expression's tree, with no node for the parentheses. `nao` is a unary node over the next factor. Anything else is parsed as a variable, and a token that is no identifier is reported as one missing. |
| GrammarFacts.MinusDropped | src/sintatico/Parser.js:135-138 | A leading `-` is consumed and leaves no trace in the tree. |
| GrammarFacts.PlusDropped | src/sintatico/Parser.js:135-138 | A leading `+` is consumed too, and so is a `-` after it. |
| GrammarFacts.StatementChoice | src/sintatico/Parser.js:291-297 | An identifier starts an assignment exactly when the peeked raw character is `:` or `=`. Otherwise it starts a call. |
| GrammarFacts.PeekLooksTwoAhead | src/sintatico/Parser.js:292 | After an identifier, `peek` reads the character after the one that ended the identifier, not the next token. |
| GrammarFacts.BlankMeansCall | src/sintatico/Parser.js:291-297 | With a blank where `peek` looks, the statement is parsed as a call even when `:=` follows. |
| GrammarFacts.IdentifierListUnfolds | src/sintatico/Parser.js:229-233 | One pass of the argument loop reads a comma and an identifier and appends the identifier's name. |
| GrammarFacts.IdentifierListKeepsOrder | src/sintatico/Parser.js:229-233 | Over the tokens `, n0 , n1 …`, the argument loop gives the names it was given followed by exactly `n0, n1, …`, in source order, and stops after the last one. |
| GrammarFacts.IdentifierListIsCommaNames | src/sintatico/Parser.js:229-233 | Conversely, what the loop appends is always the names of such a comma list. |
| GrammarFacts.CallWithoutParentheses | src/sintatico/Parser.js:219-238 | A call without parentheses has no arguments. |
| GrammarFacts.CallWithEmptyParentheses | src/sintatico/Parser.js:222-236 | A call with empty `()` has no arguments. |
| GrammarFacts.CallArgumentsInOrder | src/sintatico/Parser.js:222-236 | For `p(a, n0, n1 …)`, the call node names `p` and its arguments are exactly `a, n0, n1, …`, in source order. |
| GrammarFacts.AssignmentRightHandSide | src/sintatico/Parser.js:245-259 | An assignment keeps the first token after `:=`. A right-hand side starting with a boolean literal is that literal alone. |
| GrammarFacts.IdentifierAfterStatementsRejected | src/sintatico/Parser.js:327-329 | An identifier right after a statement list is a syntax error. |
| GrammarFacts.DeclaratorTailUnfolds | src/sintatico/Parser.js:364-372 | One pass of the declarator loop reads a comma, an identifier and its optional initialiser, and appends a variable of that name. |
| GrammarFacts.DeclaratorsInOrder | src/sintatico/Parser.js:364-372 | Over the tokens `, n0 [:= e0] , n1 [:= e1] …`, the declarator loop gives the variables it was given followed by variables named `n0, n1, …`, in source order. |
| GrammarFacts.DeclaratorTailIsDeclarators | src/sintatico/Parser.js:364-372 | Conversely, what the loop appends is always the variables of such a list of declarators. |
| GrammarFacts.DeclarationInOrder | src/sintatico/Parser.js:356-374 | `t a [:= e], n0 [:= e0] …` declares `a, n0, …` in source order, one `VarDecl` each, of a variable of that name holding the type node of `t`. |
| GrammarFacts.ProgramEndsAtDot | src/sintatico/Parser.js:482-495 | A successful program parse ends exactly one token after a `.` token. |
| GrammarFacts.ProgramStopsAfterDot | src/sintatico/Parser.js:482-495 | Once the block stops at a `.`, the parse succeeds exactly when the lexer can read one more token, of any kind (EOF is not demanded). It then gives the program node and the state just after that token. Otherwise it fails with that token's lexical error. |
| Scopes.GlobalScope | src/semantico/SemanticAnalyzer.js:41 | The `global` scope has level 1 and holds the built-in types `inteiro` and `logico`. |
| Scopes.Lookup | src/semantico/SemanticAnalyzer.js:109-121 | A lookup restricted to the current scope succeeds exactly when that scope holds the name. |
| Scopes.LookupFindsInnermost | src/semantico/SemanticAnalyzer.js:128-133 | A chain lookup succeeds exactly when some scope holds the name. It gives the innermost such symbol. |
| Scopes.Define | src/semantico/SemanticAnalyzer.js:120 | Defining a symbol changes only the current scope, whose names gain the new one. |
| Scopes.DefineThenLookup | src/semantico/SemanticAnalyzer.js:117-120 | A defined symbol is found at once. Every other name looks up as before. |
| Scopes.Push | src/semantico/SemanticAnalyzer.js:57 | Entering a scope keeps the chain below it and adds an empty scope with the given name and level. |
| Scopes.Pop | src/semantico/SemanticAnalyzer.js:40-44 | Leaving a scope keeps every scope below it. |
| Scopes.PopPush | src/semantico/SemanticAnalyzer.js:57-69 | Leaving a scope just entered restores the chain. |
| Scopes.ShadowingAllowed | src/semantico/SemanticAnalyzer.js:57-69 | An inner scope may redefine an outer name. The inner symbol wins inside, and the outer one is seen again after leaving. |
| Semantics.ClassName | src/semantico/SemanticAnalyzer.js:19-23 | The class name `visit` dispatches on agrees with the `name` field of the nodes that set one. |
| Semantics.TypeOfInnermost | src/semantico/SemanticAnalyzer.js:110-111 | A type name resolves exactly when its value is a string held by some scope of the chain, and then to the entry of the innermost such scope. |
| Semantics.AddParam | src/semantico/SemanticAnalyzer.js:65 | Recording a parameter appends it to the procedure's symbol in the enclosing scope. Every other entry of that scope, its names and its level stay as they were, and so do all other scopes. |
| Semantics.DefineParams | src/semantico/SemanticAnalyzer.js:59-66 | The parameter loop only adds names to the procedure's scope. In the enclosing scope only the procedure's symbol may change: every other entry, the names and the level are kept. Outer scopes are untouched. |
| Semantics.ProcedureScope | src/semantico/SemanticAnalyzer.js:56-66 | A procedure declaration adds its name to the current scope and enters a scope one level down, named after the procedure. |
| Semantics.Analyze | src/semantico/SemanticAnalyzer.js:19-196 | A successful visit leaves a chain exactly as deep as the one it started from. |
| Semantics.AnalyzeAll | src/semantico/SemanticAnalyzer.js:91-93 | A successful walk over a node list leaves the depth unchanged. |
| Semantics.GrowsTrans | src/semantico/SemanticAnalyzer.js:30-33 | Only-adding-names is transitive. |
| Semantics.AnalyzeGrows | src/semantico/SemanticAnalyzer.js:19-196 | A successful visit only adds names to the current scope and changes no enclosing one. |
| Semantics.DefineGrows | src/semantico/SemanticAnalyzer.js:120 | A definition only adds a name. |
| Semantics.ProgramGrows | src/semantico/SemanticAnalyzer.js:40-44 | A program visit changes no scope of the chain it starts from beyond adding names. |
| Semantics.BlockGrows | src/semantico/SemanticAnalyzer.js:30-33 | A block visit only adds names. |
| Semantics.ProcedureGrows | src/semantico/SemanticAnalyzer.js:51-70 | A procedure declaration leaves every outer scope as it was. The current scope's names afterwards are exactly the names before plus the procedure's own name. |
| Semantics.PairGrows | src/semantico/SemanticAnalyzer.js:140-196 | Visiting two children one after the other only adds names. |
| Semantics.AnalyzeAllGrows | src/semantico/SemanticAnalyzer.js:91-93 | A node-list visit only adds names. |
| Semantics.ProgramRestores | src/semantico/SemanticAnalyzer.js:40-44 | A program succeeds exactly when its block does in a fresh `global` scope. The chain afterwards is the one before. |
| Semantics.ProcedureDeclRule | src/semantico/SemanticAnalyzer.js:51-70 | A procedure name already in the current scope is a duplicate-procedure error. Otherwise any error is the body's. On success the procedure is in the current scope. |
| Semantics.RecursionResolves | src/semantico/SemanticAnalyzer.js:56-57 | Inside its own body a procedure's name resolves. The body's scope is one level below the declaring one. |
| Semantics.SymbolNamesAppend | src/semantico/SemanticAnalyzer.js:65 | Appending a symbol appends its name. |
| Semantics.DefineParamsStep | src/semantico/SemanticAnalyzer.js:59-66 | One pass of the parameter loop defines the first parameter in the procedure's scope and appends it to the procedure's symbol, then goes on with the rest. |
| Semantics.ParamsRecorded | src/semantico/SemanticAnalyzer.js:59-66 | The procedure's symbol records its parameters' names in declaration order, after any it had. |
| Semantics.ParamsDefined | src/semantico/SemanticAnalyzer.js:59-66 | Every parameter name is defined in the procedure's scope. |
| Semantics.VarDeclRule | src/semantico/SemanticAnalyzer.js:109-121 | A declaration fails exactly when the name is already in the current scope, and the error is a duplicate variable. Otherwise the name is bound to a variable whose type is what the type name looks up to. Other names are unchanged. |
| Semantics.ReferenceRule | src/semantico/SemanticAnalyzer.js:128-133 | A variable, or a call (lines 76-84), passes exactly when some scope in the chain holds the name. Otherwise it fails naming it, and nothing changes. |
| Semantics.IfRule | src/semantico/SemanticAnalyzer.js:157-162 | An `IfNode` fails with its condition's error, or else gives what its `entao` branch gives in the chain the condition leaves. |
| Semantics.ElseNeverAnalysed | src/semantico/SemanticAnalyzer.js:157-162 | The analysis of an `IfNode` does not depend on its `senao` branch. |
| Semantics.UnaryOperandIgnored | src/semantico/SemanticAnalyzer.js:149-151 | A unary operator passes without its operand being looked at. |
| Semantics.DeclarationsVisible | src/semantico/SemanticAnalyzer.js:30-33 | After a block's declarations, each declared name is in the current scope. |
| Semantics.BlockSeesDeclarations | src/semantico/SemanticAnalyzer.js:30-33 | A block's outcome is that of its compound statement, analysed in the chain its declarations leave. There every declared name resolves both as a variable and as a procedure. |
| Semantics.ParsedAnalysable | src/semantico/SemanticAnalyzer.js:19-23 | In a tree the parser builds, the handlers find a variable and a type where they read them. Every node `visit` is called on, the root included, is of a class with a handler; `Param` and `Type` nodes only appear where no handler visits them. |
| Semantics.HandlersCover | src/semantico/SemanticAnalyzer.js:19-23 | On a parsed tree, the analysis never fails for want of a handler. Every failure is a semantic error. |
| Semantics.HandlersCoverAll | src/semantico/SemanticAnalyzer.js:91-93 | The same holds for a list of parsed nodes. |
| Semantics.Check | src/index.js:5-7 | The compiler fails with the parser's error when parsing fails. Otherwise any failure is a semantic error. |
| Analysis.SemanticAnalyzer.constructor | src/semantico/SemanticAnalyzer.js:10-12 | A new analyzer has no scope. |
| Analysis.SemanticAnalyzer.Visit | src/semantico/SemanticAnalyzer.js:19-23 | `visit` raises the error `Analyze` gives. On success it leaves the analyzer's chain where `Analyze` says. |
| Analysis.SemanticAnalyzer.VisitAll | src/semantico/SemanticAnalyzer.js:91-93 | The node-list loop agrees with `AnalyzeAll`. |
| Analysis.SemanticAnalyzer.VisitBoth | src/semantico/SemanticAnalyzer.js:140-196 | The two-child handlers agree with `Analyze`. |
| Analysis.SemanticAnalyzer.OnProgram | src/semantico/SemanticAnalyzer.js:40-44 | `onProgram` agrees with `Analyze`. |
| Analysis.SemanticAnalyzer.OnBlock | src/semantico/SemanticAnalyzer.js:30-33 | `onBlock` agrees with `Analyze`. |
| Analysis.SemanticAnalyzer.OnVarDecl | src/semantico/SemanticAnalyzer.js:109-121 | `onVarDecl` agrees with `Analyze`. |
| Analysis.SemanticAnalyzer.OnProcedureDecl | src/semantico/SemanticAnalyzer.js:51-70 | `onProcedureDecl` agrees with `Analyze`. |
| Analysis.SemanticAnalyzer.EnterProcedure | src/semantico/SemanticAnalyzer.js:56-66 | Entering a procedure leaves the chain `ProcedureScope` gives. |
| Analysis.SemanticAnalyzer.DefineParameters | src/semantico/SemanticAnalyzer.js:59-66 | The parameter loop leaves the chain `DefineParams` gives. |
| Analysis.SemanticAnalyzer.OnReference | src/semantico/SemanticAnalyzer.js:76-84 | `onProcedureCall`, and `onVariable` (lines 128-133), pass exactly when a chain lookup finds the name. They change nothing. |
| Analysis.Run | src/index.js:1-7 | Parsing a text and visiting the tree with a fresh analyzer gives `Check` of the text. |

## Left out

- Reading the program file named on the command line is left out. `Analysis.Run` takes the text as a parameter.
- The messages' wording and their console output are not modelled. Each error is a value that names what the message reports, with one exception: the `.` error of `number` (src/lexico/Lexer.js:110-112) keeps the line but not the position that its message also prints.
- The `console.log` inside `eat` is not modelled.
- Only the twenty listed spellings are in `ReservedWords`. The JavaScript object also answers for inherited keys such as `constructor`; that lookup quirk is not modelled.
- The `\n` branch of `getNextToken` (src/lexico/Lexer.js:158-161) can never run, because the whitespace branch before it takes every line feed. It is not modelled.
- `SymbolTable`, `VariableSymbol` and `ProcedureSymbol` are not part of this model. `Scopes` stands in for them.
  - It assumes the global scope comes seeded with the types `inteiro` and `logico`.
  - It assumes `lookup(name, true)` searches only the current scope and `lookup(name)` searches the whole chain.
- `ConstantSymbol` is not used by the core and is not modelled.
- The `Parser` and `SemanticAnalyzer` methods describe their state only when they succeed. After a thrown error the original's object is abandoned, so the model leaves its state unspecified.
- Semantics.Check: does not state which phase a parse error belongs to, only that the error is passed on unchanged.
- Semantics.VarDeclRule: a type name that looks up to nothing is not an error, as in the code. The variable is recorded with no type.
- Semantics.AddParam: the original pushes each parameter onto the same `procedureSymbol` object that it defined in the enclosing scope. The model rewrites that entry of the enclosing scope, which has the same effect without aliasing.
- `IfNode`'s `senao` branch is stored by the parser but never visited by the analyzer. This matches the code.
- `Boolean` nodes hold their spelling as a string value. No truth value is computed, as in the code.
- No concrete sample programs are verified end to end. The properties are stated for all inputs.
- Several source functions are each split into a method and one or more loop-step helpers, such as `TermStep`, `TermTail`, `Lexeme`, `Symbol`, `EnterProcedure` and `DefineParameters`. Together they do what the one function does.
- Character positions: JavaScript indexes strings by UTF-16 code unit, while the model indexes `string` by Unicode scalar value. For characters outside the Basic Multilingual Plane (emoji, for instance), positions and `peek` can differ from the original's. The `UnexpectedCharacter` error then carries the whole character, where the original would report a lone surrogate. Everything else the lexer accepts or rejects is the same, because such characters are never letters, digits, blanks or symbols of the language: they are skipped inside comments and rejected elsewhere.
- Lexing.NumberRule: the value of a digit run is the exact integer. The original's `parseInt` gives a JavaScript double, so a run above 2^53 is rounded.
- Tokens.ToString: an integer value is printed with all its digits. The original's template interpolation prints a double of 10^21 or more in exponent form (`1e+21`).
