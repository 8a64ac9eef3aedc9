/**
 * What the semantic analyzer does to a tree, as functions from a node and
 * the chain of scopes to the chain after the visit, or the first error.
 * `visit` picks the handler by the node's class; the classes without one
 * fail.  The `SemanticAnalyzer` class is proved to compute these.
 */
module Semantics {
  import opened Common
  import opened Tokens
  import opened Failures
  import opened Ast
  import opened Scopes
  import Grammar

  /**
   * The class name `visit` builds the handler's name from; for the nodes
   * that also set a `name` field, the field holds the same name.
   */
  function ClassName(n: Node): (r: string)
    ensures NameField(n).Some? ==> NameField(n) == Some(r)
  {
    match n
    case Program(_, _) => "Program"
    case Block(_, _) => "Block"
    case VarDecl(_, _) => "VarDecl"
    case ProcedureDecl(_, _, _) => "ProcedureDecl"
    case Param(_, _) => "Param"
    case Type(_) => "Type"
    case Compound(_) => "Compound"
    case Assign(_, _, _) => "Assign"
    case IfNode(_, _, _) => "IfNode"
    case WhileNode(_, _) => "WhileNode"
    case ProcedureCall(_, _) => "ProcedureCall"
    case BinaryOperator(_, _, _) => "BinaryOperator"
    case UnaryOperator(_, _) => "UnaryOperator"
    case Number(_) => "Number"
    case Boolean(_) => "Boolean"
    case Variable(_) => "Variable"
    case NoOperation => "NoOperation"
  }

  /** The classes the analyzer has an `on…` handler for. */
  predicate Handled(n: Node)
  {
    !n.Param? && !n.Type?
  }

  /** A parameter node as the handler of procedure declarations reads it. */
  predicate ParamShaped(p: Node)
  {
    p.Param? && p.paramVariable.Variable? && p.paramType.Type?
  }

  /** The name a parameter node declares: its variable's name. */
  function ParamName(p: Node): string
    requires ParamShaped(p)
  {
    p.paramVariable.varName
  }

  /**
   * The parts the handlers read through getters have the classes those
   * getters belong to: a declaration's variable and type, a parameter's.
   */
  predicate Analysable(n: Node)
  {
    match n
    case Program(_, b) => Analysable(b)
    case Block(ds, c) => (forall i :: 0 <= i < |ds| ==> Analysable(ds[i])) && Analysable(c)
    case VarDecl(v, t) => v.Variable? && t.Type?
    case ProcedureDecl(_, ps, b) => (forall i :: 0 <= i < |ps| ==> ParamShaped(ps[i])) && Analysable(b)
    case Compound(cs) => forall i :: 0 <= i < |cs| ==> Analysable(cs[i])
    case Assign(v, _, e) => Analysable(v) && Analysable(e)
    case IfNode(c, t, _) => Analysable(c) && Analysable(t)
    case WhileNode(c, b) => Analysable(c) && Analysable(b)
    case BinaryOperator(l, _, r) => Analysable(l) && Analysable(r)
    case _ => true
  }

  /**
   * `after` differs from `before` at most in the current scope, which keeps
   * its name and level and only gains names.
   */
  predicate Grows(before: seq<Scope>, after: seq<Scope>)
  {
    && |after| == |before|
    && (forall i :: 0 <= i < |before| - 1 ==> after[i] == before[i])
    && (|before| > 0 ==>
      && Current(after).scopeName == Current(before).scopeName
      && Current(after).level == Current(before).level
      && Current(before).symbols.Keys <= Current(after).symbols.Keys)
  }

  /** The symbol `lookup(typeNode.getValue())` gives (see `TypeOfInnermost`). */
  function TypeOf(chain: seq<Scope>, t: Node): Option<Symbol>
    requires t.Type?
  {
    match GetValue(t.typeToken)
    case Str(s) => Lookup(chain, s, false)
    case _ => None
  }

  /**
   * A type name resolves exactly when its value is a string that some
   * scope of the chain holds, and then to the entry of the innermost such
   * scope; a value that is not a string names nothing.
   */
  lemma TypeOfInnermost(chain: seq<Scope>, t: Node)
    requires t.Type?
    ensures TypeOf(chain, t).Some? <==>
      GetValue(t.typeToken).Str? && exists i :: 0 <= i < |chain| && GetValue(t.typeToken).s in chain[i].symbols
    ensures TypeOf(chain, t).Some? ==> var s := GetValue(t.typeToken).s;
      exists i :: && 0 <= i < |chain| && s in chain[i].symbols && TypeOf(chain, t).value == chain[i].symbols[s]
        && forall j :: i < j < |chain| ==> s !in chain[j].symbols
  {
    if GetValue(t.typeToken).Str? {
      LookupFindsInnermost(chain, GetValue(t.typeToken).s, false);
    }
  }

  /** `procedureSymbol.params.push(v)`: the procedure's entry in the enclosing scope records one more parameter. */
  function AddParam(chain: seq<Scope>, proc: string, v: Symbol): (r: seq<Scope>)
    requires |chain| >= 2 && proc in chain[|chain| - 2].symbols && chain[|chain| - 2].symbols[proc].ProcedureSymbol?
    ensures |r| == |chain| && Current(r) == Current(chain)
    ensures forall i :: 0 <= i < |chain| - 2 ==> r[i] == chain[i]
    ensures var s, s' := chain[|chain| - 2], r[|chain| - 2];
      && s'.scopeName == s.scopeName && s'.level == s.level && s'.symbols.Keys == s.symbols.Keys
      && s'.symbols[proc] == ProcedureSymbol(proc, s.symbols[proc].params + [v])
      && forall k :: k in s.symbols && k != proc ==> s'.symbols[k] == s.symbols[k]
  {
    var s := chain[|chain| - 2];
    chain[|chain| - 2 := s.(symbols := s.symbols[proc := ProcedureSymbol(proc, s.symbols[proc].params + [v])])]
  }

  /**
   * The loop over a procedure's parameters, in the procedure's new scope:
   * each is defined there, with no duplicate check, and appended to the
   * procedure's parameter list.
   */
  function DefineParams(ps: seq<Node>, chain: seq<Scope>, proc: string): (r: seq<Scope>)
    requires forall i :: 0 <= i < |ps| ==> ParamShaped(ps[i])
    requires |chain| >= 2 && proc in chain[|chain| - 2].symbols && chain[|chain| - 2].symbols[proc].ProcedureSymbol?
    ensures |r| == |chain| && forall i :: 0 <= i < |chain| - 2 ==> r[i] == chain[i]
    ensures var s, s' := chain[|chain| - 2], r[|chain| - 2];
      && s'.scopeName == s.scopeName && s'.level == s.level && s'.symbols.Keys == s.symbols.Keys
      && s'.symbols[proc].ProcedureSymbol?
      && forall k :: k in s.symbols && k != proc ==> s'.symbols[k] == s.symbols[k]
    ensures Current(r).scopeName == Current(chain).scopeName && Current(r).level == Current(chain).level
    ensures Current(chain).symbols.Keys <= Current(r).symbols.Keys
    decreases |ps|
  {
    if |ps| == 0 then chain
    else
      assert ParamShaped(ps[0]);
      var v := VariableSymbol(ParamName(ps[0]), TypeOf(chain, ps[0].paramType));
      DefineParams(ps[1..], AddParam(Define(chain, v), proc, v), proc)
  }

  /** The chain a procedure's body is visited in: the procedure defined, a scope one level down, its parameters. */
  function ProcedureScope(name: string, ps: seq<Node>, chain: seq<Scope>): (r: seq<Scope>)
    requires |chain| > 0 && forall i :: 0 <= i < |ps| ==> ParamShaped(ps[i])
    ensures |r| == |chain| + 1
    ensures Current(r).scopeName == name && Current(r).level == Current(chain).level + 1
    ensures forall i :: 0 <= i < |chain| - 1 ==> r[i] == chain[i]
    ensures var s, s' := Current(chain), r[|chain| - 1];
      && s'.scopeName == s.scopeName && s'.level == s.level
      && s'.symbols.Keys == s.symbols.Keys + {name}
  {
    var defined := Define(chain, ProcedureSymbol(name, []));
    DefineParams(ps, Push(defined, name, Current(chain).level + 1), name)
  }

  /** `visit(n)`: the chain after the node's handler ran, or the first error. */
  function Analyze(n: Node, chain: seq<Scope>): (r: Result<seq<Scope>>)
    requires Analysable(n) && (|chain| > 0 || n.Program?)
    ensures r.Ok? ==> |r.value| == |chain|
    decreases n
  {
    match n
    case Program(_, b) =>
      var after :- Analyze(b, chain + [GlobalScope()]);
      Ok(Pop(after))
    case Block(ds, c) =>
      var after :- AnalyzeAll(ds, chain);
      Analyze(c, after)
    case VarDecl(v, t) =>
      var ty := TypeOf(chain, t);
      if Lookup(chain, v.varName, true).Some? then Err(DuplicateVariable(v.varName))
      else Ok(Define(chain, VariableSymbol(v.varName, ty)))
    case ProcedureDecl(name, ps, b) =>
      if Lookup(chain, name, true).Some? then Err(DuplicateProcedure(name))
      else
        var after :- Analyze(b, ProcedureScope(name, ps, chain));
        Ok(Pop(after))
    case ProcedureCall(name, _) =>
      if Lookup(chain, name, false).None? then Err(UndeclaredProcedure(name)) else Ok(chain)
    case Variable(name) =>
      if Lookup(chain, name, false).None? then Err(UndeclaredVariable(name)) else Ok(chain)
    case Compound(cs) => AnalyzeAll(cs, chain)
    case Assign(v, _, e) =>
      var after :- Analyze(v, chain);
      Analyze(e, after)
    case IfNode(c, t, _) =>
      var after :- Analyze(c, chain);
      Analyze(t, after)
    case WhileNode(c, b) =>
      var after :- Analyze(c, chain);
      Analyze(b, after)
    case BinaryOperator(l, _, r) =>
      var after :- Analyze(l, chain);
      Analyze(r, after)
    case UnaryOperator(_, _) => Ok(chain)
    case Number(_) => Ok(chain)
    case Boolean(_) => Ok(chain)
    case NoOperation => Ok(chain)
    case Param(_, _) => Err(NoVisitor(ClassName(n)))
    case Type(_) => Err(NoVisitor(ClassName(n)))
  }

  /** The nodes visited in order, stopping at the first error. */
  function AnalyzeAll(ns: seq<Node>, chain: seq<Scope>): (r: Result<seq<Scope>>)
    requires (forall i :: 0 <= i < |ns| ==> Analysable(ns[i])) && |chain| > 0
    ensures r.Ok? ==> |r.value| == |chain|
    decreases ns
  {
    if |ns| == 0 then Ok(chain)
    else
      var after :- Analyze(ns[0], chain);
      AnalyzeAll(ns[1..], after)
  }

  lemma GrowsTrans(a: seq<Scope>, b: seq<Scope>, c: seq<Scope>)
    requires Grows(a, b) && Grows(b, c)
    ensures Grows(a, c)
  {
  }

  /**
   * A visit changes only the current scope, keeps its name and level and
   * only adds names to it: every scope a handler enters it leaves again.
   */
  lemma {:induction false} AnalyzeGrows(n: Node, chain: seq<Scope>)
    requires Analysable(n) && (|chain| > 0 || n.Program?) && Analyze(n, chain).Ok?
    ensures Grows(chain, Analyze(n, chain).value)
    decreases n, 1
  {
    match n
    case Program(_, _) => ProgramGrows(n, chain);
    case Block(_, _) => BlockGrows(n, chain);
    case VarDecl(v, t) => DefineGrows(chain, VariableSymbol(v.varName, TypeOf(chain, t)));
    case ProcedureDecl(_, _, _) => ProcedureGrows(n, chain);
    case Compound(cs) => AnalyzeAllGrows(cs, chain);
    case Assign(_, _, _) => PairGrows(n, chain);
    case IfNode(_, _, _) => PairGrows(n, chain);
    case WhileNode(_, _) => PairGrows(n, chain);
    case BinaryOperator(_, _, _) => PairGrows(n, chain);
    case _ =>
  }

  lemma DefineGrows(chain: seq<Scope>, sym: Symbol)
    requires |chain| > 0
    ensures Grows(chain, Define(chain, sym))
  {
    var r := Define(chain, sym);
    assert forall i :: 0 <= i < |chain| - 1 ==> r[i] == r[..|r| - 1][i] == chain[..|chain| - 1][i];
  }

  lemma {:induction false} ProgramGrows(n: Node, chain: seq<Scope>)
    requires n.Program? && Analysable(n) && Analyze(n, chain).Ok?
    ensures Grows(chain, Analyze(n, chain).value)
    decreases n, 0
  {
    var inner := chain + [GlobalScope()];
    AnalyzeGrows(n.block, inner);
    var after := Analyze(n.block, inner).value;
    assert forall i :: 0 <= i < |chain| ==> Pop(after)[i] == inner[i] == chain[i];
  }

  lemma {:induction false} BlockGrows(n: Node, chain: seq<Scope>)
    requires n.Block? && Analysable(n) && |chain| > 0 && Analyze(n, chain).Ok?
    ensures Grows(chain, Analyze(n, chain).value)
    decreases n, 0
  {
    AnalyzeAllGrows(n.declarations, chain);
    var after := AnalyzeAll(n.declarations, chain).value;
    AnalyzeGrows(n.compound, after);
    GrowsTrans(chain, after, Analyze(n.compound, after).value);
  }

  lemma {:induction false} ProcedureGrows(n: Node, chain: seq<Scope>)
    requires n.ProcedureDecl? && Analysable(n) && |chain| > 0 && Analyze(n, chain).Ok?
    ensures Grows(chain, Analyze(n, chain).value)
    ensures Current(Analyze(n, chain).value).symbols.Keys == Current(chain).symbols.Keys + {n.procName}
    decreases n, 0
  {
    var inner := ProcedureScope(n.procName, n.params, chain);
    AnalyzeGrows(n.body, inner);
    var after := Analyze(n.body, inner).value;
    assert forall i :: 0 <= i < |chain| ==> Pop(after)[i] == inner[i];
  }

  /** The nodes whose handler visits two children one after the other. */
  predicate Sequential(n: Node)
  {
    n.Assign? || n.IfNode? || n.WhileNode? || n.BinaryOperator?
  }

  function First(n: Node): Node
    requires Sequential(n)
  {
    match n
    case Assign(v, _, _) => v
    case IfNode(c, _, _) => c
    case WhileNode(c, _) => c
    case BinaryOperator(l, _, _) => l
  }

  function Second(n: Node): Node
    requires Sequential(n)
  {
    match n
    case Assign(_, _, e) => e
    case IfNode(_, t, _) => t
    case WhileNode(_, b) => b
    case BinaryOperator(_, _, r) => r
  }

  lemma {:induction false} PairGrows(n: Node, chain: seq<Scope>)
    requires Sequential(n) && Analysable(n) && |chain| > 0 && Analyze(n, chain).Ok?
    ensures Grows(chain, Analyze(n, chain).value)
    decreases n, 0
  {
    var a, b := First(n), Second(n);
    AnalyzeGrows(a, chain);
    var after := Analyze(a, chain).value;
    AnalyzeGrows(b, after);
    GrowsTrans(chain, after, Analyze(b, after).value);
  }

  /** `nodes.forEach`: the scopes grow across the whole list. */
  lemma {:induction false} AnalyzeAllGrows(ns: seq<Node>, chain: seq<Scope>)
    requires (forall i :: 0 <= i < |ns| ==> Analysable(ns[i])) && |chain| > 0 && AnalyzeAll(ns, chain).Ok?
    ensures Grows(chain, AnalyzeAll(ns, chain).value)
    decreases ns
  {
    if |ns| > 0 {
      AnalyzeGrows(ns[0], chain);
      var after := Analyze(ns[0], chain).value;
      AnalyzeAllGrows(ns[1..], after);
      GrowsTrans(chain, after, AnalyzeAll(ns[1..], after).value);
    }
  }

  // ---------------------------------------------------------------- the handlers' rules

  /**
   * `onProgram`: the block is visited in a new `global` scope of level 1,
   * which is left afterwards, so a program that passes leaves the chain it
   * started from.
   */
  lemma ProgramRestores(name: string, b: Node, chain: seq<Scope>)
    requires Analysable(b)
    ensures var r := Analyze(Node.Program(name, b), chain);
      && (r.Ok? <==> Analyze(b, chain + [GlobalScope()]).Ok?)
      && (r.Ok? ==> r.value == chain)
  {
    var inner := chain + [GlobalScope()];
    if Analyze(b, inner).Ok? {
      var after := Analyze(b, inner).value;
      AnalyzeGrows(b, inner);
      assert Pop(after) == chain by {
        assert forall i :: 0 <= i < |chain| ==> Pop(after)[i] == inner[i] == chain[i];
      }
    }
  }

  /**
   * `onProcedureDecl`: a name already in the current scope is a duplicate,
   * whatever the enclosing scopes hold; otherwise only the body can fail,
   * and a procedure that passes is left defined in the current scope.
   */
  lemma ProcedureDeclRule(name: string, ps: seq<Node>, b: Node, chain: seq<Scope>)
    requires |chain| > 0 && (forall i :: 0 <= i < |ps| ==> ParamShaped(ps[i])) && Analysable(b)
    ensures var r := Analyze(ProcedureDecl(name, ps, b), chain);
      && (name in Current(chain).symbols ==> r == Err(DuplicateProcedure(name)))
      && (name !in Current(chain).symbols && r.Err? ==> r == Analyze(b, ProcedureScope(name, ps, chain)))
      && (r.Ok? ==> Lookup(r.value, name, true).Some? && Lookup(r.value, name, true).value.ProcedureSymbol?)
  {
    var r := Analyze(ProcedureDecl(name, ps, b), chain);
    if r.Ok? {
      var inner := ProcedureScope(name, ps, chain);
      var after := Analyze(b, inner).value;
      AnalyzeGrows(b, inner);
      assert Current(r.value) == after[|chain| - 1] == inner[|chain| - 1];
    }
  }

  /**
   * A procedure's own name is visible from its body, so a procedure may
   * call itself; the body's scope is one level below the declaring one.
   */
  lemma RecursionResolves(name: string, ps: seq<Node>, chain: seq<Scope>)
    requires |chain| > 0 && forall i :: 0 <= i < |ps| ==> ParamShaped(ps[i])
    ensures var inner := ProcedureScope(name, ps, chain);
      && Lookup(inner, name, false).Some?
      && Current(inner).level == Current(chain).level + 1
  {
    var inner := ProcedureScope(name, ps, chain);
    LookupFindsInnermost(inner, name, false);
    assert Searched(inner, |chain| - 1, false) && name in inner[|chain| - 1].symbols;
  }

  /** The names of a procedure's parameters, in source order. */
  function ParamNames(ps: seq<Node>): (r: seq<string>)
    requires forall i :: 0 <= i < |ps| ==> ParamShaped(ps[i])
    ensures |r| == |ps|
  {
    if |ps| == 0 then [] else assert ParamShaped(ps[0]); [ParamName(ps[0])] + ParamNames(ps[1..])
  }

  function SymbolNames(ss: seq<Symbol>): (r: seq<string>)
    ensures |r| == |ss|
  {
    if |ss| == 0 then [] else [ss[0].name] + SymbolNames(ss[1..])
  }

  lemma {:induction false} SymbolNamesAppend(ss: seq<Symbol>, v: Symbol)
    ensures SymbolNames(ss + [v]) == SymbolNames(ss) + [v.name]
    decreases |ss|
  {
    if |ss| > 0 {
      assert (ss + [v])[1..] == ss[1..] + [v];
      SymbolNamesAppend(ss[1..], v);
    }
  }

  /** One pass of the parameter loop: the first parameter is defined, then recorded on the procedure's symbol. */
  lemma DefineParamsStep(ps: seq<Node>, chain: seq<Scope>, proc: string)
    requires forall i :: 0 <= i < |ps| ==> ParamShaped(ps[i])
    requires |chain| >= 2 && proc in chain[|chain| - 2].symbols && chain[|chain| - 2].symbols[proc].ProcedureSymbol?
    requires |ps| > 0
    ensures ParamShaped(ps[0])
    ensures var v := VariableSymbol(ParamName(ps[0]), TypeOf(chain, ps[0].paramType));
      var next := AddParam(Define(chain, v), proc, v);
      && |next| == |chain| && proc in next[|chain| - 2].symbols && next[|chain| - 2].symbols[proc].ProcedureSymbol?
      && next[|chain| - 2].symbols[proc].params == chain[|chain| - 2].symbols[proc].params + [v]
      && DefineParams(ps, chain, proc) == DefineParams(ps[1..], next, proc)
  {
  }

  /**
   * The parameter loop appends the parameters to the procedure's symbol in
   * the enclosing scope, in source order, a repeated name included.
   */
  lemma {:induction false} ParamsRecorded(ps: seq<Node>, chain: seq<Scope>, proc: string)
    requires forall i :: 0 <= i < |ps| ==> ParamShaped(ps[i])
    requires |chain| >= 2 && proc in chain[|chain| - 2].symbols && chain[|chain| - 2].symbols[proc].ProcedureSymbol?
    ensures SymbolNames(DefineParams(ps, chain, proc)[|chain| - 2].symbols[proc].params)
      == SymbolNames(chain[|chain| - 2].symbols[proc].params) + ParamNames(ps)
    decreases |ps|
  {
    if |ps| > 0 {
      DefineParamsStep(ps, chain, proc);
      var v := VariableSymbol(ParamName(ps[0]), TypeOf(chain, ps[0].paramType));
      var next := AddParam(Define(chain, v), proc, v);
      ParamsRecorded(ps[1..], next, proc);
      var before := chain[|chain| - 2].symbols[proc].params;
      var after := DefineParams(ps, chain, proc)[|chain| - 2].symbols[proc].params;
      calc {
        SymbolNames(after);
        SymbolNames(before + [v]) + ParamNames(ps[1..]);
        { SymbolNamesAppend(before, v); }
        SymbolNames(before) + ([ParamName(ps[0])] + ParamNames(ps[1..]));
      }
    }
  }

  /** The parameter loop defines every parameter in the procedure's own scope. */
  lemma {:induction false} ParamsDefined(ps: seq<Node>, chain: seq<Scope>, proc: string)
    requires forall i :: 0 <= i < |ps| ==> ParamShaped(ps[i])
    requires |chain| >= 2 && proc in chain[|chain| - 2].symbols && chain[|chain| - 2].symbols[proc].ProcedureSymbol?
    ensures forall i :: 0 <= i < |ps| ==> ParamName(ps[i]) in Current(DefineParams(ps, chain, proc)).symbols
    decreases |ps|
  {
    if |ps| > 0 {
      assert ParamShaped(ps[0]);
      var v := VariableSymbol(ParamName(ps[0]), TypeOf(chain, ps[0].paramType));
      var next := AddParam(Define(chain, v), proc, v);
      ParamsDefined(ps[1..], next, proc);
      assert forall i :: 1 <= i < |ps| ==> ps[i] == ps[1..][i - 1];
    }
  }

  /**
   * `onVarDecl`: a name already in the current scope, of whatever kind, is
   * a duplicate; otherwise the variable is defined there with the type its
   * type name resolves to, and a type name that resolves to nothing is no
   * error.
   */
  lemma VarDeclRule(v: string, t: Node, chain: seq<Scope>, other: string)
    requires t.Type? && |chain| > 0
    ensures var r := Analyze(VarDecl(Variable(v), t), chain);
      && (r.Err? <==> v in Current(chain).symbols)
      && (r.Err? ==> r.error == DuplicateVariable(v))
      && (r.Ok? ==> Lookup(r.value, v, true) == Some(VariableSymbol(v, TypeOf(chain, t))))
      && (r.Ok? && other != v ==> Lookup(r.value, other, false) == Lookup(chain, other, false))
  {
    var sym := VariableSymbol(v, TypeOf(chain, t));
    DefineThenLookup(chain, sym, other, false);
    DefineThenLookup(chain, sym, v, true);
  }

  /**
   * `onVariable` and `onProcedureCall`: a name fails exactly when no scope
   * along the chain holds it, whatever kind of symbol it is; a call's
   * arguments are not looked at.
   */
  lemma ReferenceRule(name: string, args: seq<string>, chain: seq<Scope>)
    requires |chain| > 0
    ensures var found := Lookup(chain, name, false).Some?;
      && Analyze(Variable(name), chain) == (if found then Ok(chain) else Err(UndeclaredVariable(name)))
      && Analyze(ProcedureCall(name, args), chain) == (if found then Ok(chain) else Err(UndeclaredProcedure(name)))
      && (found <==> exists i :: 0 <= i < |chain| && name in chain[i].symbols)
  {
    LookupFindsInnermost(chain, name, false);
  }

  /** `onIfNode`: the condition, then the `entao` branch in the chain the condition leaves. */
  lemma IfRule(c: Node, t: Node, e: Option<Node>, chain: seq<Scope>)
    requires Analysable(c) && Analysable(t) && |chain| > 0
    ensures Analyze(c, chain).Err? ==> Analyze(IfNode(c, t, e), chain) == Err(Analyze(c, chain).error)
    ensures Analyze(c, chain).Ok? ==> Analyze(IfNode(c, t, e), chain) == Analyze(t, Analyze(c, chain).value)
  {
  }

  /** `onIfNode` never visits the `senao` branch: it does not change the outcome. */
  lemma ElseNeverAnalysed(c: Node, t: Node, e1: Option<Node>, e2: Option<Node>, chain: seq<Scope>)
    requires Analysable(c) && Analysable(t) && |chain| > 0
    ensures Analyze(IfNode(c, t, e1), chain) == Analyze(IfNode(c, t, e2), chain)
  {
    IfRule(c, t, e1, chain);
    IfRule(c, t, e2, chain);
  }

  /** `onUnaryOperator` does nothing: the operand of `nao` is not visited, not even an undeclared name. */
  lemma UnaryOperandIgnored(op: Token, e: Node, chain: seq<Scope>)
    requires |chain| > 0
    ensures Analyze(UnaryOperator(op, e), chain) == Ok(chain)
  {
  }

  // ---------------------------------------------------------------- blocks

  /** The name a declaration defines. */
  function DeclaredName(d: Node): string
    requires d.VarDecl? ==> d.variable.Variable?
  {
    match d
    case VarDecl(v, _) => v.varName
    case ProcedureDecl(name, _, _) => name
    case _ => ""
  }

  /**
   * The declarations of a block are visited in order and each one's name
   * stays in the current scope, so the statements after them see all of
   * them.
   */
  lemma {:induction false} DeclarationsVisible(ds: seq<Node>, chain: seq<Scope>)
    requires (forall i :: 0 <= i < |ds| ==> Analysable(ds[i])) && |chain| > 0 && AnalyzeAll(ds, chain).Ok?
    ensures forall i :: 0 <= i < |ds| && (ds[i].VarDecl? || ds[i].ProcedureDecl?) ==>
      DeclaredName(ds[i]) in Current(AnalyzeAll(ds, chain).value).symbols
    decreases ds
  {
    if |ds| > 0 {
      var d := ds[0];
      var after := Analyze(d, chain).value;
      var final := AnalyzeAll(ds[1..], after).value;
      DeclarationsVisible(ds[1..], after);
      AnalyzeAllGrows(ds[1..], after);
      if d.VarDecl? {
        DefineThenLookup(chain, VariableSymbol(d.variable.varName, TypeOf(chain, d.typeNode)), "", true);
      } else if d.ProcedureDecl? {
        ProcedureDeclRule(d.procName, d.params, d.body, chain);
      }
      assert forall i :: 1 <= i < |ds| ==> ds[i] == ds[1..][i - 1];
    }
  }

  /**
   * A name a block declares may be used in its statements: the compound
   * statement is visited in a chain whose current scope holds every
   * declared name.
   */
  lemma BlockSeesDeclarations(ds: seq<Node>, c: Node, chain: seq<Scope>, name: string)
    requires (forall i :: 0 <= i < |ds| ==> Analysable(ds[i])) && Analysable(c) && |chain| > 0
    requires AnalyzeAll(ds, chain).Ok?
    requires exists i :: 0 <= i < |ds| && (ds[i].VarDecl? || ds[i].ProcedureDecl?) && DeclaredName(ds[i]) == name
    ensures var after := AnalyzeAll(ds, chain).value;
      && Analyze(Block(ds, c), chain) == Analyze(c, after)
      && Analyze(Variable(name), after) == Ok(after) && Analyze(ProcedureCall(name, []), after) == Ok(after)
  {
    DeclarationsVisible(ds, chain);
    var after := AnalyzeAll(ds, chain).value;
    ReferenceRule(name, [], after);
  }

  // ---------------------------------------------------------------- parsed programs

  /** The trees the parser builds, at any depth. */
  predicate FromParser(n: Node)
  {
    Grammar.IsExpr(n) || Grammar.IsStatement(n) || Grammar.IsDeclaration(n)
    || Grammar.IsBlock(n) || Grammar.IsProgram(n) || n.Boolean?
  }

  /** An error the analyzer's handlers raise, not a missing handler. */
  predicate NoDispatchError(r: Result<seq<Scope>>)
  {
    r.Err? ==> r.error.PhaseOf() == Semantic
  }

  /**
   * Every node `visit` is called on below `n` is of a class with a handler:
   * the handlers never visit a parameter or a type node.
   */
  predicate VisitsHandled(n: Node)
  {
    match n
    case Program(_, b) => Handled(b) && VisitsHandled(b)
    case Block(ds, c) =>
      && (forall i :: 0 <= i < |ds| ==> Handled(ds[i]) && VisitsHandled(ds[i]))
      && Handled(c) && VisitsHandled(c)
    case ProcedureDecl(_, _, b) => Handled(b) && VisitsHandled(b)
    case Compound(cs) => forall i :: 0 <= i < |cs| ==> Handled(cs[i]) && VisitsHandled(cs[i])
    case Assign(v, _, e) => Handled(v) && VisitsHandled(v) && Handled(e) && VisitsHandled(e)
    case IfNode(c, t, _) => Handled(c) && VisitsHandled(c) && Handled(t) && VisitsHandled(t)
    case WhileNode(c, b) => Handled(c) && VisitsHandled(c) && Handled(b) && VisitsHandled(b)
    case BinaryOperator(l, _, r) => Handled(l) && VisitsHandled(l) && Handled(r) && VisitsHandled(r)
    case _ => true
  }

  /**
   * The parser puts a variable and a type where the handlers read them, and
   * builds a node of a class with a handler wherever `visit` is called.
   */
  lemma {:induction false} ParsedAnalysable(n: Node)
    requires FromParser(n)
    ensures Analysable(n) && Handled(n) && VisitsHandled(n)
    decreases n
  {
    match n
    case Program(_, b) => ParsedAnalysable(b);
    case Block(ds, c) =>
      assert Grammar.Ordered(ds);
      forall i | 0 <= i < |ds| ensures Analysable(ds[i]) && Handled(ds[i]) && VisitsHandled(ds[i]) {
        assert Grammar.IsDeclaration(ds[i]);
        ParsedAnalysable(ds[i]);
      }
      ParsedAnalysable(c);
    case ProcedureDecl(_, _, b) => ParsedAnalysable(b);
    case Compound(cs) =>
      forall i | 0 <= i < |cs| ensures Analysable(cs[i]) && Handled(cs[i]) && VisitsHandled(cs[i]) {
        ParsedAnalysable(cs[i]);
      }
    case Assign(v, _, e) => ParsedAnalysable(e);
    case IfNode(c, t, _) => ParsedAnalysable(c); ParsedAnalysable(t);
    case WhileNode(c, b) => ParsedAnalysable(c); ParsedAnalysable(b);
    case BinaryOperator(l, _, r) => ParsedAnalysable(l); ParsedAnalysable(r);
    case _ =>
  }

  /**
   * The parser builds no `Param` or `Type` node where `visit` is called on
   * one, so the analysis of a parsed tree fails, if it does, with one of the
   * analyzer's own errors.
   */
  lemma {:induction false} HandlersCover(n: Node, chain: seq<Scope>)
    requires FromParser(n) && (|chain| > 0 || n.Program?)
    ensures Analysable(n) && NoDispatchError(Analyze(n, chain))
    decreases n, 1
  {
    ParsedAnalysable(n);
    match n
    case Program(_, b) => HandlersCover(b, chain + [GlobalScope()]);
    case Block(_, _) => HandlersCoverBlock(n, chain);
    case ProcedureDecl(name, ps, b) =>
      if name !in Current(chain).symbols {
        HandlersCover(b, ProcedureScope(name, ps, chain));
      }
    case Compound(cs) => HandlersCoverAll(cs, chain);
    case Assign(_, _, _) => HandlersCoverPair(n, chain);
    case IfNode(_, _, _) => HandlersCoverPair(n, chain);
    case WhileNode(_, _) => HandlersCoverPair(n, chain);
    case BinaryOperator(_, _, _) => HandlersCoverPair(n, chain);
    case _ =>
  }

  lemma {:induction false} HandlersCoverBlock(n: Node, chain: seq<Scope>)
    requires n.Block? && FromParser(n) && |chain| > 0
    ensures Analysable(n) && NoDispatchError(Analyze(n, chain))
    decreases n, 0
  {
    ParsedAnalysable(n);
    var ds := n.declarations;
    assert Grammar.Ordered(ds);
    assert forall i :: 0 <= i < |ds| ==> Grammar.IsDeclaration(ds[i]) && FromParser(ds[i]);
    HandlersCoverAll(ds, chain);
    if AnalyzeAll(ds, chain).Ok? {
      HandlersCover(n.compound, AnalyzeAll(ds, chain).value);
    }
  }

  lemma {:induction false} HandlersCoverPair(n: Node, chain: seq<Scope>)
    requires Sequential(n) && FromParser(n) && |chain| > 0
    ensures Analysable(n) && NoDispatchError(Analyze(n, chain))
    decreases n, 0
  {
    ParsedAnalysable(n);
    var a, b := First(n), Second(n);
    HandlersCover(a, chain);
    if Analyze(a, chain).Ok? {
      HandlersCover(b, Analyze(a, chain).value);
    }
  }

  lemma {:induction false} HandlersCoverAll(ns: seq<Node>, chain: seq<Scope>)
    requires (forall i :: 0 <= i < |ns| ==> FromParser(ns[i])) && |chain| > 0
    ensures (forall i :: 0 <= i < |ns| ==> Analysable(ns[i])) && NoDispatchError(AnalyzeAll(ns, chain))
    decreases ns
  {
    forall i | 0 <= i < |ns| ensures Analysable(ns[i]) { ParsedAnalysable(ns[i]); }
    if |ns| > 0 {
      HandlersCover(ns[0], chain);
      if Analyze(ns[0], chain).Ok? {
        HandlersCoverAll(ns[1..], Analyze(ns[0], chain).value);
      }
    }
  }

  /**
   * The compiler's entry point: parse the text, then visit the tree with a
   * fresh analyzer.  A syntax or lexical error stops before the analysis,
   * and the analysis of what the parser built never meets a missing handler.
   */
  function Check(input: string): (r: Outcome)
    ensures Grammar.Parse(input).Err? ==> r == Fail(Grammar.Parse(input).error)
    ensures Grammar.Parse(input).Ok? && r.Fail? ==> r.error.PhaseOf() == Semantic
  {
    match Grammar.Parse(input)
    case Err(e) => Fail(e)
    case Ok(ast) =>
      HandlersCover(ast, []);
      match Analyze(ast, [])
      case Ok(_) => Pass
      case Err(e) => Fail(e)
  }
}
