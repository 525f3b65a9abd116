/**
  Client call sequences on the navigator, each on a fresh instance and
  verified against the contracts, that show what callers can rely on (and
  what they cannot) from the contracts alone.
 */
module Scenarios {
  import opened Wrappers
  import opened Symbols
  import opened Resolution
  import opened Guards
  import opened Navigator

  /** Two calls for one class name give the same answer and query the index once. */
  method RepeatedClassLookup(index: SymbolIndex, hash: string -> nat, name: string)
    returns (first: Option<ClassSymbol>, second: Option<ClassSymbol>, ghost queries: seq<string>)
    ensures first == second == ResolveClass(index, name)
    ensures queries == [name]
  {
    var nav := new EditorNavigator(index, hash);
    first := nav.GetClassSymbol(name);
    second := nav.GetClassSymbol(name);
    queries := nav.classCache.computed;
  }

  /** A name with no class symbol: the miss is cached as well, and a second call does not query again. */
  method AbsenceIsCached(index: SymbolIndex, hash: string -> nat, name: string)
    returns (first: Option<ClassSymbol>, second: Option<ClassSymbol>, ghost queries: seq<string>)
    requires forall j :: 0 <= j < |index.symbolsByShortName(name)| ==> !index.symbolsByShortName(name)[j].Class?
    ensures first == None && second == None
    ensures queries == [name]
  {
    ClassAbsent(index, name);
    first, second, queries := RepeatedClassLookup(index, hash, name);
  }

  /**
    The method cache is keyed by the method name alone: after a lookup of
    `name` under class `a`, a lookup of `name` under class `b` returns the
    entry computed for `a`, even when `b`'s own children say otherwise.
   */
  method MethodCacheIgnoresOwner(index: SymbolIndex, hash: string -> nat,
                                 a: ClassSymbol, b: ClassSymbol, name: string)
    returns (underA: Option<DeclaratorSymbol>, underB: Option<DeclaratorSymbol>)
    requires ResolveMethod(index, a, name) != ResolveMethod(index, b, name)
    ensures underA == ResolveMethod(index, a, name)
    ensures underB == underA && underB != ResolveMethod(index, b, name)
  {
    var nav := new EditorNavigator(index, hash);
    underA := nav.GetMethodSymbol(a, name);
    underB := nav.GetMethodSymbol(b, name);
  }

  /** A class that resolves makes a method reference valid even when the method does not resolve. */
  method ReferenceValidWithoutMethod(index: SymbolIndex, hash: string -> nat, ref: MethodReference)
    returns (valid: bool, navigated: bool, ghost visits: seq<DeclaredElement>)
    requires ResolveClass(index, ref.uClass).Some?
    requires ResolveMethod(index, ResolveClass(index, ref.uClass).value, ref.methodName) == None
    ensures valid && navigated
    ensures visits == [MethodElement(None)]
  {
    var nav := new EditorNavigator(index, hash);
    navigated := nav.NavigateToMethod(ref);
    valid := nav.IsMethodReference(ref);
    NavigatesOnce([], MethodElement(None));
    visits := Navigations(nav.log);
  }

  /** An owner that does not resolve fails closed: no method lookup and no navigation. */
  method UnknownOwnerFailsClosed(index: SymbolIndex, hash: string -> nat, ref: MethodReference)
    returns (valid: bool, navigated: bool, ghost methodQueries: seq<string>, ghost events: seq<Event<DeclaredElement>>)
    requires ResolveClass(index, ref.uClass) == None
    ensures !valid && !navigated
    ensures methodQueries == [] && events == []
  {
    var nav := new EditorNavigator(index, hash);
    valid := nav.IsMethodReference(ref);
    navigated := nav.NavigateToMethod(ref);
    methodQueries := nav.methodCache.computed;
    events := nav.log;
  }

  /** A class name that resolves uniquely: navigation succeeds, once, and the name is now cached. */
  method NavigateToUniqueClass(index: SymbolIndex, hash: string -> nat, name: string, c: ClassSymbol)
    returns (ok: bool, ghost visits: seq<DeclaredElement>, ghost cached: set<string>)
    requires index.symbolsByShortName(name) == [Class(c)]
    ensures ok
    ensures visits == [ClassElement(c)]
    ensures cached == {name}
  {
    assert index.symbolsByShortName(name)[0] == Class(c);
    var nav := new EditorNavigator(index, hash);
    ok := nav.NavigateToClass(name);
    NavigatesOnce([], ClassElement(c));
    visits := Navigations(nav.log);
    cached := nav.classCache.Keys();
    forall k | k in cached ensures k == name {
      nav.classCache.KeysAreCached(k);
    }
    nav.classCache.KeysAreCached(name);
  }

  /** Navigating twice to one class queries the index once and navigates twice. */
  method RepeatedClassNavigation(index: SymbolIndex, hash: string -> nat, name: string)
    returns (first: bool, second: bool, ghost queries: seq<string>, ghost visits: seq<DeclaredElement>)
    requires ResolveClass(index, name).Some?
    ensures first && second
    ensures queries == [name]
    ensures visits == [ClassElement(ResolveClass(index, name).value), ClassElement(ResolveClass(index, name).value)]
  {
    var nav := new EditorNavigator(index, hash);
    first := nav.NavigateToClass(name);
    ghost var afterFirst := nav.log;
    second := nav.NavigateToClass(name);
    queries := nav.classCache.computed;
    var target := ClassElement(ResolveClass(index, name).value);
    NavigatesOnce([], target);
    NavigatesOnce(afterFirst, target);
    visits := Navigations(nav.log);
  }

  /** Checking a reference twice queries the class index once. */
  method RepeatedReferenceCheck(index: SymbolIndex, hash: string -> nat, ref: MethodReference)
    returns (first: bool, second: bool, ghost classQueries: seq<string>)
    ensures first == second == ResolveClass(index, ref.uClass).Some?
    ensures classQueries == [ref.uClass]
  {
    var nav := new EditorNavigator(index, hash);
    first := nav.IsMethodReference(ref);
    second := nav.IsMethodReference(ref);
    classQueries := nav.classCache.computed;
  }

  /**
    A reference check for `name` under class `a` fills the method cache, and a
    later navigation for `name` under class `b` goes to `a`'s method.
   */
  method MethodEntryCrossesReferences(index: SymbolIndex, hash: string -> nat, a: string, b: string, name: string)
    returns (valid: bool, navigated: bool, ghost visits: seq<DeclaredElement>, ghost methodQueries: seq<string>)
    requires ResolveClass(index, a).Some? && ResolveClass(index, b).Some?
    ensures valid && navigated
    ensures visits == [MethodElement(ResolveMethod(index, ResolveClass(index, a).value, name))]
    ensures methodQueries == [name]
  {
    var nav := new EditorNavigator(index, hash);
    valid := nav.IsMethodReference(MethodReference(a, name));
    navigated := nav.NavigateToMethod(MethodReference(b, name));
    NavigatesOnce([], MethodElement(ResolveMethod(index, ResolveClass(index, a).value, name)));
    visits := Navigations(nav.log);
    methodQueries := nav.methodCache.computed;
  }

  /** Method names in different slots keep their own entries. */
  method DistinctSlotsKept(index: SymbolIndex, hash: string -> nat, cls: ClassSymbol, n1: string, n2: string)
    returns (d1: Option<DeclaratorSymbol>, d2: Option<DeclaratorSymbol>, ghost again: Option<Option<DeclaratorSymbol>>)
    requires hash(n1) % MaxSizeOfCache != hash(n2) % MaxSizeOfCache
    ensures d1 == ResolveMethod(index, cls, n1) && d2 == ResolveMethod(index, cls, n2)
    ensures again == Some(d1)
  {
    var nav := new EditorNavigator(index, hash);
    d1 := nav.GetMethodSymbol(cls, n1);
    d2 := nav.GetMethodSymbol(cls, n2);
    again := nav.methodCache.Lookup(n1);
  }
}
