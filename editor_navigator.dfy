/**
  `EditorNavigator`: turns engine-side names into C++ symbols through two
  direct-mapped caches in front of the symbol index, and navigates to them.
 */
module Navigator {
  import opened Wrappers
  import opened Symbols
  import opened Resolution
  import opened Caching
  import opened Guards

  /** `MaxSizeOfCache = 1 << 6`: the slot count of each cache. */
  const MaxSizeOfCache: Capacity := 64

  /** An engine method reference: the engine class name and the method name. */
  datatype MethodReference = MethodReference(uClass: string, methodName: string)

  /**
    `CppParserSymbolDeclaredElement`: what the IDE navigates to. A method
    element is built even when no method symbol was found, so it may wrap `None`.
   */
  datatype DeclaredElement =
    | ClassElement(cls: ClassSymbol)
    | MethodElement(symbol: Option<DeclaratorSymbol>)

  class EditorNavigator {
    const index: SymbolIndex
    const classCache: DirectMappedCache<Option<ClassSymbol>>
    /** Keyed by the method name alone, as in the code. */
    const methodCache: DirectMappedCache<Option<DeclaratorSymbol>>
    /** For each entry of the method cache, the class it was computed under. */
    ghost var methodOwner: map<string, ClassSymbol>
    /** Guard and navigation events, oldest first. */
    ghost var log: seq<Event<DeclaredElement>>
    /** The guards currently held, outermost first. */
    ghost var held: seq<Guard>

    ghost predicate Valid()
      reads this, classCache.entries, methodCache.entries
    {
      && classCache as object != methodCache as object
      && classCache.entries as object != methodCache.entries as object
      && classCache.capacity == MaxSizeOfCache && methodCache.capacity == MaxSizeOfCache
      && classCache.Valid() && methodCache.Valid()
      // every cached class answer is what the index yields for that name
      && (forall k :: classCache.Lookup(k).Some? ==> classCache.Lookup(k).value == ResolveClass(index, k))
      // every cached method answer is what the index yields under the class that filled the entry
      && (forall m :: methodCache.Lookup(m).Some? ==>
            m in methodOwner && methodCache.Lookup(m).value == ResolveMethod(index, methodOwner[m], m))
      && held == []
      && Replay([], log) == Some([])
    }

    /** The guard log is consistent with the guards held right now. */
    ghost predicate LogMatchesHeld()
      reads this
    {
      Replay([], log) == Some(held)
    }

    /**
      Since the previous state, the method cache has answered `name` for a
      lookup under `cls`: on a miss the entry was computed under `cls` and
      `cls` is recorded as its owner; on a hit the entry and its owner stay
      as they were, whatever `cls` is.
     */
    twostate predicate MethodCacheAnswered(cls: ClassSymbol, name: string)
      reads this, methodCache, methodCache.entries
      requires old(methodCache.Valid()) && methodCache.Valid()
    {
      && name in methodOwner
      && methodOwner == (if old(methodCache.Lookup(name)).Some? then old(methodOwner)
                         else old(methodOwner)[name := cls])
      && methodCache.Answered(name, ResolveMethod(index, methodOwner[name], name))
    }

    constructor (index: SymbolIndex, hash: string -> nat)
      ensures Valid()
      ensures this.index == index
      ensures fresh(classCache) && fresh(classCache.entries) && fresh(methodCache) && fresh(methodCache.entries)
      ensures classCache.hash == hash && methodCache.hash == hash
      ensures forall k :: classCache.Lookup(k) == None && methodCache.Lookup(k) == None
      ensures classCache.computed == [] && methodCache.computed == []
      ensures log == []
    {
      this.index := index;
      classCache := new DirectMappedCache<Option<ClassSymbol>>(MaxSizeOfCache, hash);
      methodCache := new DirectMappedCache<Option<DeclaratorSymbol>>(MaxSizeOfCache, hash);
      methodOwner := map[];
      log := [];
      held := [];
    }

    /** Neither cache ever holds more than `MaxSizeOfCache` keys. */
    lemma CachesBounded()
      requires Valid()
      ensures |classCache.Keys()| <= MaxSizeOfCache && |methodCache.Keys()| <= MaxSizeOfCache
    {
      classCache.CapacityBound();
      methodCache.CapacityBound();
    }

    /** `GetClassSymbol`: the class cache's answer, computing and storing it on a miss. */
    method GetClassSymbol(name: string) returns (c: Option<ClassSymbol>)
      requires Valid()
      modifies classCache, classCache.entries
      ensures Valid()
      ensures c == ResolveClass(index, name)
      ensures classCache.Answered(name, c)
    {
      var idx := index;
      c := classCache.GetOrCreate(name, (s: string) => ResolveClass(idx, s));
    }

    /**
      `GetMethodSymbol`: the method cache's answer for `name`. On a hit the
      entry is returned whatever class it was computed under; on a miss it is
      computed among the children of `cls` and stored under `name` alone.
     */
    method GetMethodSymbol(cls: ClassSymbol, name: string) returns (d: Option<DeclaratorSymbol>)
      requires Valid()
      modifies this`methodOwner, methodCache, methodCache.entries
      ensures Valid()
      ensures MethodCacheAnswered(cls, name)
      ensures d == ResolveMethod(index, methodOwner[name], name)
      ensures old(methodCache.Lookup(name)).Some? ==> d == old(methodCache.Lookup(name)).value
    {
      var idx := index;
      ghost var wasCached := methodCache.Lookup(name).Some?;
      d := methodCache.GetOrCreate(name, (s: string) => ResolveMethod(idx, cls, s));
      if !wasCached {
        methodOwner := methodOwner[name := cls];
      }
    }

    /** `ReadLockCookie.Create` or `CompilationContextCookie.GetOrCreate`: enter a guard. */
    method AcquireGuard(g: Guard)
      requires LogMatchesHeld()
      modifies this`log, this`held
      ensures LogMatchesHeld()
      ensures held == old(held) + [g] && log == old(log) + [Acquire(g)]
    {
      ReplayAppend([], log, [Acquire(g)]);
      log := log + [Acquire(g)];
      held := held + [g];
    }

    /** Disposing a cookie: leave the innermost guard. */
    method ReleaseGuard(g: Guard)
      requires LogMatchesHeld()
      requires |held| > 0 && held[|held| - 1] == g
      modifies this`log, this`held
      ensures LogMatchesHeld()
      ensures held == old(held)[..|old(held)| - 1] && log == old(log) + [Release(g)]
    {
      ReplayAppend([], log, [Release(g)]);
      log := log + [Release(g)];
      held := held[..|held| - 1];
    }

    /** `declaredElement.Navigate(true)`: the navigation side effect, which needs both guards. */
    method NavigateTo(element: DeclaredElement)
      requires LogMatchesHeld()
      requires NavigationAllowed(held)
      modifies this`log
      ensures LogMatchesHeld()
      ensures log == old(log) + [Navigate(element)]
    {
      ReplayAppend([], log, [Navigate(element)]);
      log := log + [Navigate(element)];
    }

    /** The two nested `using` blocks around a navigation. */
    method NavigateGuarded(element: DeclaredElement)
      requires Valid()
      modifies this`log, this`held
      ensures Valid()
      ensures log == old(log) + GuardedNavigation(element)
    {
      AcquireGuard(ReadLock);
      AcquireGuard(CompilationContext);
      NavigateTo(element);
      ReleaseGuard(CompilationContext);
      ReleaseGuard(ReadLock);
      assert log == old(log) + GuardedNavigation(element);
    }

    /** `NavigateToClass`: navigate to the class only when its name resolves. */
    method NavigateToClass(uClass: string) returns (ok: bool)
      requires Valid()
      modifies this`log, this`held, classCache, classCache.entries
      ensures Valid()
      ensures ok == ResolveClass(index, uClass).Some?
      ensures classCache.Answered(uClass, ResolveClass(index, uClass))
      ensures !ok ==> log == old(log)
      ensures ok ==> log == old(log) + GuardedNavigation(ClassElement(ResolveClass(index, uClass).value))
    {
      var classSymbol := GetClassSymbol(uClass);
      if classSymbol == None {
        return false;
      }
      NavigateGuarded(ClassElement(classSymbol.value));
      ok := true;
    }

    /**
      `MethodDeclaredElement`: `None` when the class does not resolve, and then
      the method cache is not touched; otherwise a method element, wrapping
      whatever the method cache answers, even `None`.
     */
    method MethodDeclaredElement(ref: MethodReference) returns (e: Option<DeclaredElement>)
      requires Valid()
      modifies this`methodOwner, classCache, classCache.entries, methodCache, methodCache.entries
      ensures Valid()
      ensures e.Some? <==> ResolveClass(index, ref.uClass).Some?
      ensures classCache.Answered(ref.uClass, ResolveClass(index, ref.uClass))
      ensures e.None? ==> methodCache.Untouched() && methodOwner == old(methodOwner)
      ensures e.Some? ==>
        && MethodCacheAnswered(ResolveClass(index, ref.uClass).value, ref.methodName)
        && e.value == MethodElement(ResolveMethod(index, methodOwner[ref.methodName], ref.methodName))
    {
      var classSymbol := GetClassSymbol(ref.uClass);
      if classSymbol == None {
        return None;
      }
      var methodSymbol := GetMethodSymbol(classSymbol.value, ref.methodName);
      e := Some(MethodElement(methodSymbol));
    }

    /** `IsMethodReference`: whether a method element can be built; it depends on the class only. */
    method IsMethodReference(ref: MethodReference) returns (b: bool)
      requires Valid()
      modifies this`methodOwner, classCache, classCache.entries, methodCache, methodCache.entries
      ensures Valid()
      ensures b == ResolveClass(index, ref.uClass).Some?
      ensures classCache.Answered(ref.uClass, ResolveClass(index, ref.uClass))
      ensures !b ==> methodCache.Untouched() && methodOwner == old(methodOwner)
      ensures b ==> MethodCacheAnswered(ResolveClass(index, ref.uClass).value, ref.methodName)
    {
      var e := MethodDeclaredElement(ref);
      b := e != None;
    }

    /** `NavigateToMethod`: navigate to the method element whenever the class resolves. */
    method NavigateToMethod(ref: MethodReference) returns (ok: bool)
      requires Valid()
      modifies this`log, this`held, this`methodOwner, classCache, classCache.entries, methodCache, methodCache.entries
      ensures Valid()
      ensures ok == ResolveClass(index, ref.uClass).Some?
      ensures classCache.Answered(ref.uClass, ResolveClass(index, ref.uClass))
      ensures !ok ==> methodCache.Untouched() && methodOwner == old(methodOwner) && log == old(log)
      ensures ok ==>
        && MethodCacheAnswered(ResolveClass(index, ref.uClass).value, ref.methodName)
        && log == old(log) + GuardedNavigation(MethodElement(ResolveMethod(index, methodOwner[ref.methodName], ref.methodName)))
    {
      var element := MethodDeclaredElement(ref);
      if element == None {
        return false;
      }
      NavigateGuarded(element.value);
      ok := true;
    }
  }
}
