/**
 * The compiler's symbol table (src/symbolTable.ts): a chain of scopes,
 * each with its own bindings, definition counter and list of the free
 * variables it captured from the scopes around it.
 */
module Symbols {
  import opened Wrappers

  datatype SymbolScope = GLOBAL | LOCAL | BUILTIN | FREE | FUNCTION

  /** `SymbolItem`: its scope is assigned before it is stored and never changes afterwards. */
  datatype SymbolItem = SymbolItem(name: string, scope: SymbolScope, index: int)

  class SymbolTable {
    var store: map<string, SymbolItem>
    var numDefinitions: nat
    var freeSymbols: seq<SymbolItem>
    const outer: SymbolTable?
    /** The tables enclosing this one, and how deep this one is nested. */
    ghost const ancestors: set<SymbolTable>
    ghost const depth: nat

    /**
     * Enclosing tables are shallower and valid themselves, their own
     * enclosing tables are among this one's, and every binding is stored
     * under its own name.
     */
    ghost predicate Valid()
      reads this, ancestors
      decreases depth
    {
      (forall t :: t in ancestors ==> t.depth < depth)
      && (forall t :: t in ancestors ==> t.ancestors <= ancestors)
      && (forall t :: t in ancestors ==> t.Valid())
      && (forall n :: n in store ==> store[n].name == n)
      && if outer == null then ancestors == {}
         else outer in ancestors && ancestors == {outer} + outer.ancestors
    }

    constructor(outer: SymbolTable?)
      requires outer != null ==> outer.Valid()
      ensures Valid() && this.outer == outer
      ensures store == map[] && numDefinitions == 0 && freeSymbols == []
      ensures ancestors == if outer == null then {} else {outer} + outer.ancestors
    {
      store := map[];
      numDefinitions := 0;
      freeSymbols := [];
      this.outer := outer;
      if outer == null {
        ancestors := {};
        depth := 0;
      } else {
        ancestors := {outer} + outer.ancestors;
        depth := outer.depth + 1;
      }
    }

    /**
     * The binding `resolve` finds for `name`: this table's own, else what
     * the enclosing table resolves to, where an enclosing local, free or
     * function-name binding becomes the next free variable of this table.
     */
    ghost function ResolvedItem(name: string): Option<SymbolItem>
      requires Valid()
      reads this, ancestors
      decreases depth
    {
      if name in store then Some(store[name])
      else if outer == null then None
      else match outer.ResolvedItem(name)
        case None => None
        case Some(o) =>
          if o.scope == GLOBAL || o.scope == BUILTIN then Some(o)
          else Some(SymbolItem(name, FREE, |freeSymbols|))
    }

    /** No table from this one out to t, both included, binds name; false when t is not on the chain. */
    ghost predicate MissesUpTo(t: SymbolTable, name: string)
      requires Valid()
      reads this, ancestors
      ensures MissesUpTo(t, name) ==> name !in t.store && (t == this || t in ancestors)
      decreases depth
    {
      name !in store && (this == t || (outer != null && outer.MissesUpTo(t, name)))
    }

    /** `define`: the next index of this table, GLOBAL at the top and LOCAL inside a function. */
    method Define(name: string) returns (sym: SymbolItem)
      requires Valid()
      modifies this
      ensures Valid()
      ensures sym == SymbolItem(name, if outer == null then GLOBAL else LOCAL, old(numDefinitions))
      ensures store == old(store)[name := sym]
      ensures numDefinitions == old(numDefinitions) + 1 && freeSymbols == old(freeSymbols)
    {
      var scope := GLOBAL;
      if outer != null {
        scope := LOCAL;
      }
      sym := SymbolItem(name, scope, numDefinitions);
      store := store[name := sym];
      numDefinitions := numDefinitions + 1;
    }

    /** `defineBuiltin`: binds a BUILTIN with the given index; builtins do not count as definitions. */
    method DefineBuiltin(index: int, name: string) returns (sym: SymbolItem)
      requires Valid()
      modifies this
      ensures Valid()
      ensures sym == SymbolItem(name, BUILTIN, index)
      ensures store == old(store)[name := sym]
      ensures numDefinitions == old(numDefinitions) && freeSymbols == old(freeSymbols)
    {
      sym := SymbolItem(name, BUILTIN, index);
      store := store[name := sym];
    }

    /** `defineFree`: records the enclosing binding and binds its name as FREE, indexed by its place in `freeSymbols`. */
    method DefineFree(original: SymbolItem) returns (sym: SymbolItem)
      requires Valid()
      modifies this
      ensures Valid()
      ensures freeSymbols == old(freeSymbols) + [original]
      ensures sym == SymbolItem(original.name, FREE, |freeSymbols| - 1) && freeSymbols[sym.index] == original
      ensures store == old(store)[original.name := sym]
      ensures numDefinitions == old(numDefinitions)
    {
      freeSymbols := freeSymbols + [original];
      sym := SymbolItem(original.name, FREE, |freeSymbols| - 1);
      store := store[original.name := sym];
    }

    /** `defineFunctionName`: binds FUNCTION with index 0; a later `Define` of the name replaces it. */
    method DefineFunctionName(name: string) returns (sym: SymbolItem)
      requires Valid()
      modifies this
      ensures Valid()
      ensures sym == SymbolItem(name, FUNCTION, 0)
      ensures store == old(store)[name := sym]
      ensures numDefinitions == old(numDefinitions) && freeSymbols == old(freeSymbols)
    {
      sym := SymbolItem(name, FUNCTION, 0);
      store := store[name := sym];
    }

    /**
     * `resolve`: the own binding first; otherwise the enclosing table's
     * answer, unchanged for GLOBAL and BUILTIN and captured as a new free
     * variable otherwise. Resolving again afterwards gives the same symbol.
     * The enclosing tables are resolved the same way, so every table between
     * this one and the one holding the name captures it as a free variable
     * when it is neither GLOBAL nor BUILTIN; all other tables stay as they were.
     */
    method Resolve(name: string) returns (r: Option<SymbolItem>)
      requires Valid()
      modifies this, ancestors
      ensures Valid()
      ensures r == old(ResolvedItem(name)) && ResolvedItem(name) == r
      ensures name in old(store) ==> r == Some(old(store)[name]) && unchanged(this) && unchanged(ancestors)
      ensures r.None? ==> unchanged(this) && unchanged(ancestors)
      ensures r.Some? && (r.value.scope == GLOBAL || r.value.scope == BUILTIN) ==> unchanged(this) && unchanged(ancestors)
      ensures outer != null && name in old(outer.store) ==> unchanged(ancestors)
      ensures forall t :: t in ancestors ==>
                if old(MissesUpTo(t, name)) && old(t.ResolvedItem(name)).Some? && old(t.ResolvedItem(name)).value.scope == FREE
                then t.outer != null && t.freeSymbols == old(t.freeSymbols) + [old(t.outer.ResolvedItem(name)).value]
                     && t.store == old(t.store)[name := old(t.ResolvedItem(name)).value]
                     && t.numDefinitions == old(t.numDefinitions)
                else t.store == old(t.store) && t.freeSymbols == old(t.freeSymbols) && t.numDefinitions == old(t.numDefinitions)
      ensures name !in old(store) && r.Some? && r.value.scope != GLOBAL && r.value.scope != BUILTIN ==>
                outer != null && r.value == SymbolItem(name, FREE, |old(freeSymbols)|)
                && freeSymbols == old(freeSymbols) + [old(outer.ResolvedItem(name)).value]
                && store == old(store)[name := r.value] && numDefinitions == old(numDefinitions)
      decreases depth
    {
      if name in store {
        return Some(store[name]);
      }
      if outer == null {
        return None;
      }
      var outerObj := outer.Resolve(name);
      if outerObj.None? {
        return None;
      }
      if outerObj.value.scope == GLOBAL || outerObj.value.scope == BUILTIN {
        return outerObj;
      }
      var free := DefineFree(outerObj.value);
      return Some(free);
    }
  }

  /** A global scope defining "a", a function scope inside it defining "c", and one inside that defining "e". */
  method ThreeScopes() returns (global: SymbolTable, firstLocal: SymbolTable, secondLocal: SymbolTable)
    ensures fresh(global) && fresh(firstLocal) && fresh(secondLocal)
    ensures global.Valid() && firstLocal.Valid() && secondLocal.Valid()
    ensures global.outer == null && firstLocal.outer == global && secondLocal.outer == firstLocal
    ensures secondLocal.ancestors == {firstLocal, global}
    ensures global.store == map["a" := SymbolItem("a", GLOBAL, 0)]
    ensures firstLocal.store == map["c" := SymbolItem("c", LOCAL, 0)]
    ensures secondLocal.store == map["e" := SymbolItem("e", LOCAL, 0)]
    ensures secondLocal.freeSymbols == []
  {
    global := new SymbolTable(null);
    var _ := global.Define("a");
    firstLocal := new SymbolTable(global);
    var _ := firstLocal.Define("c");
    secondLocal := new SymbolTable(firstLocal);
    var _ := secondLocal.Define("e");
  }

  /**
   * `resolve` of a name that captures nothing: one bound in the table itself,
   * unbound everywhere, or bound GLOBAL or BUILTIN further out. It answers
   * the resolved binding and changes no table.
   */
  method ResolveWithoutCapture(t: SymbolTable, name: string) returns (r: Option<SymbolItem>)
    requires t.Valid()
    requires name in t.store || t.ResolvedItem(name).None?
             || t.ResolvedItem(name).value.scope == GLOBAL || t.ResolvedItem(name).value.scope == BUILTIN
    modifies t, t.ancestors
    ensures r == old(t.ResolvedItem(name))
    ensures unchanged(t) && unchanged(t.ancestors)
  {
    r := t.Resolve(name);
  }

  /**
   * The capture step of `NestedFreeVariables`: resolving "c", a local of the
   * enclosing function scope, makes it free variable 0 of the inner scope and
   * leaves the enclosing scopes as they were.
   */
  method CaptureEnclosingLocal(global: SymbolTable, firstLocal: SymbolTable, secondLocal: SymbolTable) returns (c: Option<SymbolItem>)
    requires global.Valid() && firstLocal.Valid() && secondLocal.Valid()
    requires global.outer == null && firstLocal.outer == global && secondLocal.outer == firstLocal
    requires secondLocal.ancestors == {firstLocal, global}
    requires firstLocal.store == map["c" := SymbolItem("c", LOCAL, 0)]
    requires "c" !in secondLocal.store && secondLocal.freeSymbols == []
    modifies global, firstLocal, secondLocal
    ensures c == Some(SymbolItem("c", FREE, 0))
    ensures secondLocal.Valid()
    ensures secondLocal.store == old(secondLocal.store)["c" := SymbolItem("c", FREE, 0)]
    ensures secondLocal.freeSymbols == [SymbolItem("c", LOCAL, 0)]
    ensures unchanged(global, firstLocal)
  {
    assert firstLocal.ResolvedItem("c") == Some(SymbolItem("c", LOCAL, 0));
    c := secondLocal.Resolve("c");
  }

  /** `ThreeScopes` after resolving "a" and then "c" from the innermost scope. */
  method ScopesAfterCapture() returns (global: SymbolTable, firstLocal: SymbolTable, secondLocal: SymbolTable,
                                       a: Option<SymbolItem>, c: Option<SymbolItem>)
    ensures fresh(global) && fresh(firstLocal) && fresh(secondLocal)
    ensures global.Valid() && firstLocal.Valid() && secondLocal.Valid()
    ensures global.outer == null && firstLocal.outer == global && secondLocal.outer == firstLocal
    ensures secondLocal.ancestors == {firstLocal, global}
    ensures global.store == map["a" := SymbolItem("a", GLOBAL, 0)]
    ensures firstLocal.store == map["c" := SymbolItem("c", LOCAL, 0)]
    ensures secondLocal.store == map["e" := SymbolItem("e", LOCAL, 0), "c" := SymbolItem("c", FREE, 0)]
    ensures secondLocal.freeSymbols == [SymbolItem("c", LOCAL, 0)]
    ensures a == Some(SymbolItem("a", GLOBAL, 0)) && c == Some(SymbolItem("c", FREE, 0))
  {
    global, firstLocal, secondLocal := ThreeScopes();
    assert global.ResolvedItem("a") == Some(SymbolItem("a", GLOBAL, 0));
    assert firstLocal.ResolvedItem("a") == Some(SymbolItem("a", GLOBAL, 0));
    a := ResolveWithoutCapture(secondLocal, "a");
    c := CaptureEnclosingLocal(global, firstLocal, secondLocal);
  }

  /**
   * Three nested scopes, one definition each. From the innermost: the
   * global passes through unchanged; the middle scope's local becomes free
   * variable 0, recorded once even when resolved twice; the own local
   * keeps its index; an unbound name stays unbound.
   */
  method NestedFreeVariables() returns (results: seq<Option<SymbolItem>>, captured: seq<SymbolItem>)
    ensures results == [Some(SymbolItem("a", GLOBAL, 0)), Some(SymbolItem("c", FREE, 0)),
                        Some(SymbolItem("c", FREE, 0)), Some(SymbolItem("e", LOCAL, 0)), None]
    ensures captured == [SymbolItem("c", LOCAL, 0)]
  {
    var global, firstLocal, secondLocal, a, c := ScopesAfterCapture();
    var c2 := ResolveWithoutCapture(secondLocal, "c");
    var e := ResolveWithoutCapture(secondLocal, "e");
    assert global.ResolvedItem("g") == None;
    assert firstLocal.ResolvedItem("g") == None;
    var g := ResolveWithoutCapture(secondLocal, "g");
    results := [a, c, c2, e, g];
    captured := secondLocal.freeSymbols;
  }

  /**
   * A local of the outermost function scope resolved two scopes further
   * in: the middle scope captures it first, as its free variable 0, and
   * the innermost scope captures the middle scope's free binding in turn.
   * The scope that defines it keeps its own binding and captures nothing.
   */
  method CaptureThroughMiddle() returns (r: Option<SymbolItem>, middleFree: seq<SymbolItem>, middleItem: Option<SymbolItem>,
                                         innerFree: seq<SymbolItem>, outerFree: seq<SymbolItem>)
    ensures r == Some(SymbolItem("c", FREE, 0))
    ensures middleFree == [SymbolItem("c", LOCAL, 0)] && middleItem == Some(SymbolItem("c", FREE, 0))
    ensures innerFree == [SymbolItem("c", FREE, 0)]
    ensures outerFree == []
  {
    var global := new SymbolTable(null);
    var _ := global.Define("a");
    var firstLocal := new SymbolTable(global);
    var _ := firstLocal.Define("c");
    var secondLocal := new SymbolTable(firstLocal);
    var thirdLocal := new SymbolTable(secondLocal);
    assert firstLocal.ResolvedItem("c") == Some(SymbolItem("c", LOCAL, 0));
    assert secondLocal.ResolvedItem("c") == Some(SymbolItem("c", FREE, 0));
    r := thirdLocal.Resolve("c");
    middleFree := secondLocal.freeSymbols;
    middleItem := if "c" in secondLocal.store then Some(secondLocal.store["c"]) else None;
    innerFree := thirdLocal.freeSymbols;
    outerFree := firstLocal.freeSymbols;
  }
}
