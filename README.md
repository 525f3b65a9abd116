# EditorNavigator, modelled in Dafny

This project models the symbol-resolution navigator of the Unreal Engine
plugin for Rider (`EditorNavigator`). The navigator turns names that come from
the running engine editor into C++ symbols and moves the IDE's view to them:

- an engine class name is looked up in a bounded direct-mapped class cache;
  on a miss, the symbol index is asked for every symbol with that short name,
  and the name resolves only when exactly one of them is a class symbol;
- a (class, method) reference resolves the class first and then looks the
  method name up in a second direct-mapped cache; on a miss, the method is the
  one declarator child of that class with that name;
- navigation happens only when resolution succeeds, inside a read-lock guard
  that wraps a compilation-context guard.

Modules, one per concern of the source file:

- `Wrappers`: `Option`, standing for C#'s `null`.
- `Symbols`: class, declarator and other symbols, and the symbol index as two
  total functions (symbols by short name, children of a class).
- `Resolution`: the pure candidate selection (`OfType`, `Where`,
  `SingleOrNull`), written once generically and then instantiated for classes
  and for methods.
- `Caching`: `DirectMappedCache`, a class over an array of slots with an
  arbitrary hash function; `GetOrCreate` fills a slot in place.
- `Guards`: the guards and the navigation side effect as a ghost event log,
  with a replay function that checks nesting and release order.
- `Navigator`: the `EditorNavigator` class with its two caches, each of
  `MaxSizeOfCache = 1 << 6 = 64` slots.
- `Scenarios`: client call sequences on a fresh navigator, verified against
  the contracts, that show what callers can rely on, including the method-cache quirk below.

The code's behaviour is kept as written, including two points where it
differs from what a reader of the component's purpose would expect:

- The method cache is keyed by the method name alone
  (`src/dotnet/RiderPlugin.UnrealLink/EditorNavigator.cs:42`). An entry
  computed under one class is returned for any other class, where a key per
  owning class would keep classes apart. The model follows the code: a ghost map
  `methodOwner` records which class each entry was computed under, and
  `GetMethodSymbol` promises the answer for that class, not for its argument.
- `MethodDeclaredElement` wraps even a missing method symbol in a new element
  (`EditorNavigator.cs:86-87`). So `IsMethodReference` and the result of
  `NavigateToMethod` depend only on whether the class resolves, not on whether
  the member does; the model follows the code.

`DirectMappedCache` itself is library code that is not part of this model.
The model assumes that a key's slot is its hash modulo the slot count, and
that a miss overwrites the slot. Under that assumption a stored value can be
lost: a miss evicts any other key that shares its slot. A key is never
recomputed while it stays in its slot.

## Model

| member | source | states |
|---|---|---|
| `Resolution.Candidates` | src/dotnet/RiderPlugin.UnrealLink/EditorNavigator.cs:37 | the filtered candidates are never more than the symbols; each candidate comes from some accepted symbol, and every accepted symbol gives a candidate |
| `Resolution.SelectExactlyOne` | src/dotnet/RiderPlugin.UnrealLink/EditorNavigator.cs:37 | `SingleOrNull` over the filtered symbols gives `x` if and only if exactly one position is accepted and it maps to `x` |
| `Resolution.SelectedIsUnique` | src/dotnet/RiderPlugin.UnrealLink/EditorNavigator.cs:37 | when the selection yields `x`, exactly one position is accepted and it maps to `x` |
| `Resolution.UniqueMatchSelected` | src/dotnet/RiderPlugin.UnrealLink/EditorNavigator.cs:37 | when exactly one position is accepted, the selection yields that position's candidate |
| `Resolution.SelectAmbiguous` | src/dotnet/RiderPlugin.UnrealLink/EditorNavigator.cs:37 | two accepted positions make the selection yield nothing |
| `Resolution.SingleOrNull` | src/dotnet/RiderPlugin.UnrealLink/EditorNavigator.cs:37 | a result is given if and only if the sequence has exactly one element, and it is that element; any other length gives `None` |
| `Resolution.Select` | src/dotnet/RiderPlugin.UnrealLink/EditorNavigator.cs:37 | the `OfType` filter (and the `Where` at lines 44-45) followed by `SingleOrNull`: a result comes from some accepted symbol, and with no accepted symbol there is none; `Resolution.SelectExactlyOne` states its full meaning by positions |
| `Resolution.AsClass` | src/dotnet/RiderPlugin.UnrealLink/EditorNavigator.cs:37 | a symbol is accepted exactly when it is a class symbol, and it is mapped to that class symbol |
| `Resolution.DeclaratorNamed` | src/dotnet/RiderPlugin.UnrealLink/EditorNavigator.cs:44-45 | a symbol is accepted exactly when it is a declarator with the given name, and it is mapped to that declarator |
| `Resolution.UniqueMatchesSelected` | src/dotnet/RiderPlugin.UnrealLink/EditorNavigator.cs:37 | every position that alone is accepted gives the selection's result |
| `Resolution.ResolveClass` | src/dotnet/RiderPlugin.UnrealLink/EditorNavigator.cs:34-38 | the class-cache factory: a result `c` means `c` is the only class symbol among the index's symbols for the name; a single class symbol among them is always the result |
| `Resolution.ClassAmbiguous` | src/dotnet/RiderPlugin.UnrealLink/EditorNavigator.cs:36-38 | two class symbols under one short name: the name does not resolve |
| `Resolution.ClassAbsent` | src/dotnet/RiderPlugin.UnrealLink/EditorNavigator.cs:36-38 | no class symbol under a short name: the name does not resolve |
| `Resolution.ResolveMethod` | src/dotnet/RiderPlugin.UnrealLink/EditorNavigator.cs:42-45 | the method-cache factory: a result `d` means `d` has the name and is the only declarator child of the class with it; a single such child is always the result |
| `Resolution.MethodAmbiguous` | src/dotnet/RiderPlugin.UnrealLink/EditorNavigator.cs:44-45 | two declarator children with the same name: the method does not resolve |
| `Resolution.MethodAbsent` | src/dotnet/RiderPlugin.UnrealLink/EditorNavigator.cs:44-45 | no declarator child with the name: the method does not resolve |
| `Caching.DirectMappedCache.constructor` | src/dotnet/RiderPlugin.UnrealLink/EditorNavigator.cs:23-24 | a new cache has the given number of slots, all empty, and has run no factory |
| `Caching.DirectMappedCache.GetOrCreate` | src/dotnet/RiderPlugin.UnrealLink/EditorNavigator.cs:34 | a key held in its slot is answered from the slot without running the factory; otherwise the factory runs once for the key and its result, even `None`, replaces the slot; afterwards the key is held with the returned value, and every other key keeps its answer unless it shared the slot and was evicted |
| `Caching.DirectMappedCache.KeysAreCached` | src/dotnet/RiderPlugin.UnrealLink/EditorNavigator.cs:23-24 | a key is among the held keys exactly when the cache answers it |
| `Caching.DirectMappedCache.CapacityBound` | src/dotnet/RiderPlugin.UnrealLink/EditorNavigator.cs:22-24 | a cache never holds more keys than it has slots, since each slot holds at most one key and every key sits in its own slot |
| `Guards.GuardedNavigationBalanced` | src/dotnet/RiderPlugin.UnrealLink/EditorNavigator.cs:54-60 | the nested guard blocks take the read lock, then the compilation context, and release them in reverse order, leaving the held guards as they were |
| `Guards.NavigationOnlyUnderGuards` | src/dotnet/RiderPlugin.UnrealLink/EditorNavigator.cs:54-60 | in any log that obeys the guard discipline, every navigation happens while the compilation context is held inside the read lock |
| `Guards.GuardedNavigation` | src/dotnet/RiderPlugin.UnrealLink/EditorNavigator.cs:54-60 | the nested `using` blocks as a sequence of guard events that navigates exactly once, to its target; `Guards.GuardedNavigationBalanced` states that the guards are balanced |
| `Guards.NavigatesOnce` | src/dotnet/RiderPlugin.UnrealLink/EditorNavigator.cs:58 | one guarded navigation adds exactly one navigation, to its target |
| `Navigator.EditorNavigator.constructor` | src/dotnet/RiderPlugin.UnrealLink/EditorNavigator.cs:22-31 | the navigator starts with two fresh, empty caches of `MaxSizeOfCache` slots, no guards held and no navigation |
| `Navigator.EditorNavigator.CachesBounded` | src/dotnet/RiderPlugin.UnrealLink/EditorNavigator.cs:22-24 | neither cache holds more than 64 keys |
| `Navigator.EditorNavigator.GetClassSymbol` | src/dotnet/RiderPlugin.UnrealLink/EditorNavigator.cs:33-39 | the result is what the index yields for the name, on a hit and on a miss; afterwards the name is held with that result; the index is queried only on a miss, and nothing changes on a hit; any other name that lost its entry shared the name's slot |
| `Navigator.EditorNavigator.GetMethodSymbol` | src/dotnet/RiderPlugin.UnrealLink/EditorNavigator.cs:41-46 | on a hit, the cached entry and its recorded owner are kept whatever the class argument; on a miss, the method is computed among the children of the given class, that class is recorded as owner, and the entry is stored under the name alone; the result is what the index yields under the recorded owner; the method index is queried only on a miss; any other name that lost its entry shared the name's slot |
| `Navigator.EditorNavigator.AcquireGuard` | src/dotnet/RiderPlugin.UnrealLink/EditorNavigator.cs:54-56 | entering a guard pushes it on the held guards and logs it |
| `Navigator.EditorNavigator.ReleaseGuard` | src/dotnet/RiderPlugin.UnrealLink/EditorNavigator.cs:59-60 | only the innermost guard can be released; releasing pops it and logs it |
| `Navigator.EditorNavigator.NavigateTo` | src/dotnet/RiderPlugin.UnrealLink/EditorNavigator.cs:58 | navigation needs the compilation context held inside the read lock, and logs its target |
| `Navigator.EditorNavigator.NavigateGuarded` | src/dotnet/RiderPlugin.UnrealLink/EditorNavigator.cs:54-60 | the nested guard blocks add exactly the guarded navigation to the log and leave no guard held |
| `Navigator.EditorNavigator.NavigateToClass` | src/dotnet/RiderPlugin.UnrealLink/EditorNavigator.cs:48-63 | returns true exactly when the class resolves; the class cache then holds the name as `GetClassSymbol` leaves it, with one index query only on a miss; on false nothing is logged; on true exactly one guarded navigation to the class element is logged |
| `Navigator.EditorNavigator.MethodDeclaredElement` | src/dotnet/RiderPlugin.UnrealLink/EditorNavigator.cs:80-88 | the class cache is left as `GetClassSymbol` leaves it; when the class does not resolve there is no element and the method cache and owners are untouched; otherwise the method cache is left as `GetMethodSymbol` leaves it under the resolved class, and the element wraps its answer, even `None` |
| `Navigator.EditorNavigator.IsMethodReference` | src/dotnet/RiderPlugin.UnrealLink/EditorNavigator.cs:90-93 | true exactly when the class resolves, whatever the method; both caches are left as `MethodDeclaredElement` leaves them, so the method entry it fills is reused by later calls for the same name under any class |
| `Navigator.EditorNavigator.NavigateToMethod` | src/dotnet/RiderPlugin.UnrealLink/EditorNavigator.cs:65-78 | returns true exactly when the class resolves; both caches are left as `MethodDeclaredElement` leaves them; on false nothing is logged and the method cache is untouched; on true exactly one guarded navigation to the method element is logged |
| `Scenarios.RepeatedClassLookup` | src/dotnet/RiderPlugin.UnrealLink/EditorNavigator.cs:33-39 | two calls with one name return the same, correct answer and query the index once |
| `Scenarios.AbsenceIsCached` | src/dotnet/RiderPlugin.UnrealLink/EditorNavigator.cs:34-38 | a name with no class symbol yields `None` twice, with one index query |
| `Scenarios.MethodCacheIgnoresOwner` | src/dotnet/RiderPlugin.UnrealLink/EditorNavigator.cs:41-46 | a method looked up under class `a` and then under class `b` returns `a`'s answer both times, even where `b`'s own answer differs |
| `Scenarios.ReferenceValidWithoutMethod` | src/dotnet/RiderPlugin.UnrealLink/EditorNavigator.cs:80-93 | with a resolving class and a method that does not resolve, the reference is still valid and navigation still happens, to an element wrapping `None` |
| `Scenarios.UnknownOwnerFailsClosed` | src/dotnet/RiderPlugin.UnrealLink/EditorNavigator.cs:82-85 | an owner that does not resolve gives an invalid reference, no navigation, and no method lookup |
| `Scenarios.NavigateToUniqueClass` | src/dotnet/RiderPlugin.UnrealLink/EditorNavigator.cs:48-63 | a name whose only symbol is class `c` navigates once, to `c`, and leaves exactly that name in the class cache |
| `Scenarios.RepeatedClassNavigation` | src/dotnet/RiderPlugin.UnrealLink/EditorNavigator.cs:48-63 | navigating twice to a resolving class navigates twice, to that class, with one index query |
| `Scenarios.RepeatedReferenceCheck` | src/dotnet/RiderPlugin.UnrealLink/EditorNavigator.cs:90-93 | checking one reference twice gives the same answer, whether the class resolves, with one class-index query |
| `Scenarios.MethodEntryCrossesReferences` | src/dotnet/RiderPlugin.UnrealLink/EditorNavigator.cs:42 | after a reference check of a method under class `a`, navigating to the same method name under class `b` goes to `a`'s method, with one method-index query |
| `Scenarios.DistinctSlotsKept` | src/dotnet/RiderPlugin.UnrealLink/EditorNavigator.cs:41-46 | two method names in different slots are both resolved correctly, and the first is still cached after the second |

## Left out

- The symbol index (`CppGlobalSymbolCache`, `SymbolNameCache`) is foreign code. It is given to the navigator as two total functions that do not change while the navigator runs. In the IDE the index changes as code is edited, and `EditorNavigator` never invalidates its caches. So a cache hit there can return a stale symbol, or a stale `None`, that the current index would no longer give. The model's promise that a hit returns what the index yields holds only for a fixed index.
- `IPsiServices` and the construction of `CppParserSymbolDeclaredElement` are foreign. An element is modelled as the symbol it wraps.
- `Navigate(true)` is logged as an event. What the IDE does with it, including with a method element that wraps no symbol, is not modelled.
- `ReadLockCookie` and `CompilationContextCookie` are foreign lock services. Only their nesting order and release are modelled, as a ghost stack of held guards. Exceptions thrown inside the `using` blocks are not modelled.
- `DirectMappedCache` is an unseen library. The model assumes its slot is the key's hash modulo the slot count and that a miss replaces the slot. The hash function is an arbitrary parameter; its thread safety and any concurrent access are not modelled, and calls are sequential.
- Engine names (`UClassName.Name.Data`, the method's `Data`) are modelled as plain strings.
- No cache invalidation, for example after a recompilation, appears in `EditorNavigator.cs`, so none is modelled.
- src/rider/main/kotlin/com/jetbrains/rider/plugins/unreal/UnrealHost.kt is not part of this model. It marshals actions onto the protocol library's scheduler, which is not visible here.
- The integration tests under src/rider/test/ (rename refactoring, debugger breakpoints, Natvis, plugin installation) and src/cpp/RiderLink/Source/RDCmdlets/RDCmdlets.Build.cs are not part of this model. They drive the IDE and the build; they hold no navigator logic.
