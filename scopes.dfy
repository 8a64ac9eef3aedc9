/**
 * The symbol tables the semantic analyzer works with.  A scope is a name,
 * a nesting level and a dictionary of symbols; the chain of scopes the
 * analyzer's `scope` field reaches through `enclosingScope` is a sequence,
 * outermost first, whose last element is the current scope.
 */
module Scopes {
  import opened Common

  datatype Symbol =
    | VariableSymbol(name: string, symbolType: Option<Symbol>)
    | ProcedureSymbol(name: string, params: seq<Symbol>)
    | TypeSymbol(name: string)

  datatype Scope = Scope(scopeName: string, level: int, symbols: map<string, Symbol>)

  /** The two built-in types the outermost scope holds before any declaration is seen. */
  const BuiltinTypes: map<string, Symbol> := map["inteiro" := TypeSymbol("inteiro"), "logico" := TypeSymbol("logico")]

  /** The scope a program's analysis starts in: `global`, level 1, holding the built-in types. */
  function GlobalScope(): (s: Scope)
    ensures s.level == 1 && s.symbols.Keys == {"inteiro", "logico"}
  {
    Scope("global", 1, BuiltinTypes)
  }

  function Current(chain: seq<Scope>): Scope
    requires |chain| > 0
  {
    chain[|chain| - 1]
  }

  /** The scopes `lookup` may search: only the current one, or the whole chain. */
  predicate Searched(chain: seq<Scope>, i: int, currentOnly: bool)
  {
    0 <= i < |chain| && (currentOnly ==> i == |chain| - 1)
  }

  /**
   * `lookup(name, currentOnly)`: the symbol in the current scope, or, when
   * not restricted to it, in the nearest enclosing scope that has one.
   */
  function Lookup(chain: seq<Scope>, name: string, currentOnly: bool): (r: Option<Symbol>)
    ensures r.Some? ==> |chain| > 0
    ensures currentOnly ==> (r.Some? <==> |chain| > 0 && name in Current(chain).symbols)
    decreases |chain|
  {
    if |chain| == 0 then None
    else if name in Current(chain).symbols then Some(Current(chain).symbols[name])
    else if currentOnly then None
    else Lookup(chain[..|chain| - 1], name, false)
  }

  /**
   * `lookup` finds a symbol exactly when a scope it searches holds the
   * name, and then it is the one of the innermost such scope.
   */
  lemma {:induction false} LookupFindsInnermost(chain: seq<Scope>, name: string, currentOnly: bool)
    ensures Lookup(chain, name, currentOnly).Some? <==>
      exists i :: Searched(chain, i, currentOnly) && name in chain[i].symbols
    ensures Lookup(chain, name, currentOnly).Some? ==>
      exists i :: && Searched(chain, i, currentOnly) && name in chain[i].symbols
        && Lookup(chain, name, currentOnly).value == chain[i].symbols[name]
        && forall j :: i < j < |chain| ==> name !in chain[j].symbols
    decreases |chain|
  {
    if |chain| > 0 && name !in Current(chain).symbols && !currentOnly {
      var outer := chain[..|chain| - 1];
      LookupFindsInnermost(outer, name, false);
      assert forall i :: 0 <= i < |outer| ==> outer[i] == chain[i];
    }
  }

  /** `define(symbol)`: the current scope maps the symbol's name to it, with no duplicate check. */
  function Define(chain: seq<Scope>, sym: Symbol): (r: seq<Scope>)
    requires |chain| > 0
    ensures |r| == |chain| && r[..|r| - 1] == chain[..|chain| - 1]
    ensures Current(r).scopeName == Current(chain).scopeName && Current(r).level == Current(chain).level
    ensures Current(r).symbols.Keys == Current(chain).symbols.Keys + {sym.name}
  {
    var s := Current(chain);
    chain[..|chain| - 1] + [s.(symbols := s.symbols[sym.name := sym])]
  }

  /** A defined symbol is found at once, and no other name's lookup changes. */
  lemma DefineThenLookup(chain: seq<Scope>, sym: Symbol, name: string, currentOnly: bool)
    requires |chain| > 0
    ensures Lookup(Define(chain, sym), sym.name, currentOnly) == Some(sym)
    ensures name != sym.name ==> Lookup(Define(chain, sym), name, currentOnly) == Lookup(chain, name, currentOnly)
  {
    var r := Define(chain, sym);
    assert r[..|r| - 1] == chain[..|chain| - 1];
  }

  /** `SymbolTable.create(name, level, scope)`: a new, empty current scope. */
  function Push(chain: seq<Scope>, name: string, level: int): (r: seq<Scope>)
    ensures |r| == |chain| + 1 && r[..|chain|] == chain
    ensures Current(r) == Scope(name, level, map[])
  {
    chain + [Scope(name, level, map[])]
  }

  /** `scope = scope.enclosingScope`. */
  function Pop(chain: seq<Scope>): (r: seq<Scope>)
    requires |chain| > 0
    ensures |r| == |chain| - 1 && forall i :: 0 <= i < |r| ==> r[i] == chain[i]
  {
    chain[..|chain| - 1]
  }

  /** Leaving a scope gives back the chain it was entered from. */
  lemma PopPush(chain: seq<Scope>, name: string, level: int)
    ensures Pop(Push(chain, name, level)) == chain
  {
  }

  /** A name defined in a new scope shadows the enclosing ones until that scope is left. */
  lemma ShadowingAllowed(chain: seq<Scope>, name: string, level: int, sym: Symbol)
    ensures Lookup(Define(Push(chain, name, level), sym), sym.name, false) == Some(sym)
    ensures Lookup(Pop(Define(Push(chain, name, level), sym)), sym.name, false) == Lookup(chain, sym.name, false)
  {
    DefineThenLookup(Push(chain, name, level), sym, sym.name, false);
    assert Pop(Define(Push(chain, name, level), sym)) == chain;
  }
}
