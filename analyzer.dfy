/**
 * The semantic analyzer as an object: its `scope` field, with the chain
 * it reaches through `enclosingScope`, is the sequence `scopes`, and each
 * `on…` handler is a method that updates it.  Every handler is proved to
 * compute `Semantics.Analyze` on the chain it starts from: the error it
 * raises, or, when it passes, the chain it leaves.
 */
module Analysis {
  import opened Common
  import opened Failures
  import opened Ast
  import opened Scopes
  import opened Semantics
  import Parsing

  /** A handler did what `spec` gives: the same error, or the chain `spec` ends in. */
  ghost predicate Visited(spec: Result<seq<Scope>>, r: Outcome, now: seq<Scope>)
  {
    match spec
    case Ok(after) => r == Pass && now == after
    case Err(e) => r == Fail(e)
  }

  class SemanticAnalyzer {
    /** The current scope last, then its enclosing scopes, outermost first. */
    var scopes: seq<Scope>

    /** A new analyzer has no scope yet. */
    constructor ()
      ensures scopes == []
    {
      scopes := [];
    }

    /** `visit(node)`: the handler named after the node's class, or a failure when there is none. */
    method Visit(n: Node) returns (r: Outcome)
      requires Analysable(n) && (|scopes| > 0 || n.Program?)
      modifies this
      ensures Visited(Analyze(n, old(scopes)), r, scopes)
      decreases n, 2
    {
      match n
      case Program(_, _) => r := OnProgram(n);
      case Block(_, _) => r := OnBlock(n);
      case VarDecl(_, _) => r := OnVarDecl(n);
      case ProcedureDecl(_, _, _) => r := OnProcedureDecl(n);
      case Compound(cs) => r := VisitAll(cs);
      case Assign(_, _, _) => r := VisitBoth(n);
      case IfNode(_, _, _) => r := VisitBoth(n);
      case WhileNode(_, _) => r := VisitBoth(n);
      case BinaryOperator(_, _, _) => r := VisitBoth(n);
      case ProcedureCall(name, _) => r := OnReference(name, UndeclaredProcedure(name));
      case Variable(name) => r := OnReference(name, UndeclaredVariable(name));
      case UnaryOperator(_, _) => r := Pass;
      case Number(_) => r := Pass;
      case Boolean(_) => r := Pass;
      case NoOperation => r := Pass;
      case Param(_, _) => r := Fail(NoVisitor(ClassName(n)));
      case Type(_) => r := Fail(NoVisitor(ClassName(n)));
    }

    /**
     * Each node visited in turn, stopping at the first failure, as `onBlock` does with its
     * declarations and `onCompound` with its children.
     */
    method VisitAll(ns: seq<Node>) returns (r: Outcome)
      requires (forall i :: 0 <= i < |ns| ==> Analysable(ns[i])) && |scopes| > 0
      modifies this
      ensures Visited(AnalyzeAll(ns, old(scopes)), r, scopes)
      decreases ns, 1
    {
      var i := 0;
      while i < |ns|
        invariant 0 <= i <= |ns| && |scopes| > 0
        invariant AnalyzeAll(ns, old(scopes)) == AnalyzeAll(ns[i..], scopes)
      {
        assert ns[i..][1..] == ns[i + 1..];
        var ri := Visit(ns[i]);
        if ri.Fail? {
          return ri;
        }
        i := i + 1;
      }
      return Pass;
    }

    /** The handlers that visit two children one after the other: `onAssign`, `onIfNode`, `onWhileNode`, `onBinaryOperator`. */
    method VisitBoth(n: Node) returns (r: Outcome)
      requires Sequential(n) && Analysable(n) && |scopes| > 0
      modifies this
      ensures Visited(Analyze(n, old(scopes)), r, scopes)
      decreases n, 1
    {
      r := Visit(First(n));
      if r.Fail? {
        return;
      }
      r := Visit(Second(n));
    }

    /** `onProgram`: the block in a new `global` scope of level 1, which is left afterwards. */
    method OnProgram(n: Node) returns (r: Outcome)
      requires n.Program? && Analysable(n)
      modifies this
      ensures Visited(Analyze(n, old(scopes)), r, scopes)
      decreases n, 1
    {
      scopes := scopes + [GlobalScope()];
      r := Visit(n.block);
      if r.Fail? {
        return;
      }
      scopes := Pop(scopes);
    }

    /** `onBlock`: the declarations in order, then the compound statement. */
    method OnBlock(n: Node) returns (r: Outcome)
      requires n.Block? && Analysable(n) && |scopes| > 0
      modifies this
      ensures Visited(Analyze(n, old(scopes)), r, scopes)
      decreases n, 1
    {
      r := VisitAll(n.declarations);
      if r.Fail? {
        return;
      }
      r := Visit(n.compound);
    }

    /** `onVarDecl`: the type is looked up along the chain, the name only in the current scope. */
    method OnVarDecl(n: Node) returns (r: Outcome)
      requires n.VarDecl? && Analysable(n) && |scopes| > 0
      modifies this
      ensures Visited(Analyze(n, old(scopes)), r, scopes)
      decreases n, 1
    {
      var typeSymbol := TypeOf(scopes, n.typeNode);
      var varName := n.variable.varName;
      var varSymbol := VariableSymbol(varName, typeSymbol);
      if Lookup(scopes, varName, true).Some? {
        return Fail(DuplicateVariable(varName));
      }
      scopes := Define(scopes, varSymbol);
      return Pass;
    }

    /**
     * `onProcedureDecl`: the procedure is defined in the current scope, a
     * scope one level down is entered, the parameters are defined there and
     * recorded on the procedure, the body is visited and the scope left.
     */
    method OnProcedureDecl(n: Node) returns (r: Outcome)
      requires n.ProcedureDecl? && Analysable(n) && |scopes| > 0
      modifies this
      ensures Visited(Analyze(n, old(scopes)), r, scopes)
      decreases n, 1
    {
      var procedureName := n.procName;
      if Lookup(scopes, procedureName, true).Some? {
        return Fail(DuplicateProcedure(procedureName));
      }
      EnterProcedure(procedureName, n.params);
      r := Visit(n.body);
      if r.Fail? {
        return;
      }
      scopes := Pop(scopes);
    }

    /** The procedure defined in the current scope, a scope one level down entered, the parameters defined there. */
    method EnterProcedure(procedureName: string, ps: seq<Node>)
      requires |scopes| > 0 && forall i :: 0 <= i < |ps| ==> ParamShaped(ps[i])
      modifies this
      ensures scopes == ProcedureScope(procedureName, ps, old(scopes))
    {
      scopes := Define(scopes, ProcedureSymbol(procedureName, []));
      scopes := Push(scopes, procedureName, Current(scopes).level + 1);
      DefineParameters(ps, procedureName);
    }

    /**
     * The parameter loop of `onProcedureDecl`, in the procedure's new scope:
     * each parameter's type is looked up along the chain, the parameter is
     * defined, with no duplicate check, and appended to the procedure's
     * symbol, which the enclosing scope holds.
     */
    method DefineParameters(ps: seq<Node>, procedureName: string)
      requires forall i :: 0 <= i < |ps| ==> ParamShaped(ps[i])
      requires |scopes| >= 2 && procedureName in scopes[|scopes| - 2].symbols
      requires scopes[|scopes| - 2].symbols[procedureName].ProcedureSymbol?
      modifies this
      ensures scopes == DefineParams(ps, old(scopes), procedureName)
    {
      var i := 0;
      while i < |ps|
        invariant 0 <= i <= |ps|
        invariant |scopes| >= 2 && procedureName in scopes[|scopes| - 2].symbols
        invariant scopes[|scopes| - 2].symbols[procedureName].ProcedureSymbol?
        invariant DefineParams(ps[i..], scopes, procedureName) == DefineParams(ps, old(scopes), procedureName)
      {
        var param := ps[i];
        assert ParamShaped(param) && ps[i..][1..] == ps[i + 1..];
        var paramType := TypeOf(scopes, param.paramType);
        var varSymbol := VariableSymbol(ParamName(param), paramType);
        scopes := Define(scopes, varSymbol);
        scopes := AddParam(scopes, procedureName, varSymbol);
        i := i + 1;
      }
    }

    /** `onVariable` and `onProcedureCall`: the name is looked up along the whole chain; nothing changes. */
    method OnReference(name: string, missing: Error) returns (r: Outcome)
      requires |scopes| > 0
      ensures r == (if Lookup(scopes, name, false).Some? then Pass else Fail(missing))
    {
      if Lookup(scopes, name, false).None? {
        return Fail(missing);
      }
      return Pass;
    }
  }

  /** The compiler's entry point, as the driver runs it: a parser builds the tree, then a fresh analyzer visits it. */
  method Run(input: string) returns (r: Outcome)
    ensures r == Check(input)
  {
    var parsed := Parsing.ParseSource(input);
    match parsed
    case Err(e) => return Fail(e);
    case Ok(ast) =>
      HandlersCover(ast, []);
      var analyzer := new SemanticAnalyzer();
      r := analyzer.Visit(ast);
  }
}
