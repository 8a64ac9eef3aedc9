/**
 * The abstract syntax tree the parser builds: one variant per node class
 * the AST package exports (the abstract base `Node` aside).  Nodes are
 * immutable once built, so every class becomes a constructor and every
 * getter a field (or the function below when the getter does more).
 */
module Ast {
  import opened Common
  import opened Tokens

  datatype Node =
    | Program(name: string, block: Node)
    | Block(declarations: seq<Node>, compound: Node)
    | VarDecl(variable: Node, typeNode: Node)
    | ProcedureDecl(procName: string, params: seq<Node>, body: Node)
    | Param(paramVariable: Node, paramType: Node)
    | Type(typeToken: Token)
    | Compound(children: seq<Node>)
    | Assign(target: Node, token: Token, expression: Node)
      /** `elseCases` is `None` where the parser passes `null`. */
    | IfNode(condition: Node, cases: Node, elseCases: Option<Node>)
    | WhileNode(whileCondition: Node, bodyNode: Node)
      /** The callee's name and the argument identifiers, as plain strings. */
    | ProcedureCall(nodeToCall: string, argNodes: seq<string>)
    | BinaryOperator(left: Node, op: Token, right: Node)
    | UnaryOperator(unaryOp: Token, operand: Node)
    | Number(numberToken: Token)
    | Boolean(value: Value)
    | Variable(varName: string)
    | NoOperation

  /**
   * The `name` field the constructors of `IfNode`, `WhileNode` and
   * `ProcedureCall` set to their own class name; the other nodes are
   * not given one here.
   */
  function NameField(n: Node): (r: Option<string>)
    ensures r.Some? <==> n.IfNode? || n.WhileNode? || n.ProcedureCall?
  {
    match n
    case IfNode(_, _, _) => Some("IfNode")
    case WhileNode(_, _) => Some("WhileNode")
    case ProcedureCall(_, _) => Some("ProcedureCall")
    case _ => None
  }

  /** `IfNode.getName`: the `name` field, whatever the node holds. */
  function IfNodeGetName(n: Node): (r: string)
    requires n.IfNode?
    ensures Some(r) == NameField(n)
  {
    "IfNode"
  }

  /**
   * `IfNode.getElseCases` reads the field `elseCase`, which no constructor
   * assigns, so it yields nothing whatever `senao` branch was stored.
   */
  function GetElseCases(n: Node): (r: Option<Node>)
    requires n.IfNode?
    ensures n.elseCases.Some? ==> r != n.elseCases
  {
    None
  }

  /** `ProcedureCall.getName`: the callee, not the `name` field (see `CallNameIsNotTheField`). */
  function ProcedureCallGetName(n: Node): (r: string)
    requires n.ProcedureCall?
  {
    n.nodeToCall
  }

  /** `Boolean.create(token)`: the node keeps `token.getValue()`. */
  function BooleanCreate(tok: Token): (r: Node)
    ensures r.Boolean? && r.value == GetValue(tok)
  {
    Node.Boolean(GetValue(tok))
  }

  /** A `senao` branch stored in the node is never given back. */
  lemma ElseCasesNeverRead(c: Node, t: Node, e: Node)
    ensures IfNode(c, t, Some(e)).elseCases == Some(e)
    ensures GetElseCases(IfNode(c, t, Some(e))) == None
  {
  }

  /**
   * The call node's `name` field is its class name and `getName` is the
   * callee: the two agree only for a procedure called `ProcedureCall`.
   */
  lemma CallNameIsNotTheField(n: Node)
    requires n.ProcedureCall?
    ensures NameField(n) == Some("ProcedureCall")
    ensures Some(ProcedureCallGetName(n)) == NameField(n) <==> n.nodeToCall == "ProcedureCall"
  {
  }

  /**
   * The two reserved literals give nodes holding their spelling, a string,
   * not a truth value.
   */
  lemma BooleanLiteralsKeepTheirSpelling()
    ensures BooleanCreate(ReservedWords["verdadeiro"]) == Node.Boolean(Str("verdadeiro"))
    ensures BooleanCreate(ReservedWords["falso"]) == Node.Boolean(Str("falso"))
  {
    ReservedWordsBooleanLiterals();
  }
}
