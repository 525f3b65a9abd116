/**
  The scoped guards around a navigation and the navigation side effect itself,
  as a ghost event log. `ReadLockCookie` and `CompilationContextCookie` are
  foreign lock services: only the order in which they are taken and released,
  and whether a navigation happens while both are held, are modelled.
 */
module Guards {
  import opened Wrappers

  datatype Guard = ReadLock | CompilationContext

  datatype Event<T> =
    | Acquire(guard: Guard)
    | Release(guard: Guard)
    | Navigate(target: T)

  /** A navigation may happen only with the context guard held inside the read-lock guard. */
  predicate NavigationAllowed(held: seq<Guard>) {
    |held| >= 2 && held[|held| - 2] == ReadLock && held[|held| - 1] == CompilationContext
  }

  /** One event applied to the stack of held guards; `None` when the event breaks the discipline. */
  function Step<T>(held: seq<Guard>, e: Event<T>): Option<seq<Guard>> {
    match e
    case Acquire(g) => Some(held + [g])
    case Release(g) =>
      if |held| > 0 && held[|held| - 1] == g then Some(held[..|held| - 1]) else None
    case Navigate(_) => if NavigationAllowed(held) then Some(held) else None
  }

  /** The guards held after `log`, starting from `held`, or `None` if some event broke the discipline. */
  function Replay<T>(held: seq<Guard>, log: seq<Event<T>>): Option<seq<Guard>>
    decreases |log|
  {
    if log == [] then Some(held)
    else match Step(held, log[0])
      case None => None
      case Some(h) => Replay(h, log[1..])
  }

  /** The targets navigated to in `log`, in order. */
  function Navigations<T>(log: seq<Event<T>>): seq<T> {
    if log == [] then []
    else (if log[0].Navigate? then [log[0].target] else []) + Navigations(log[1..])
  }

  /** The nested `using` blocks of `NavigateToClass` and `NavigateToMethod`. */
  function GuardedNavigation<T>(target: T): (r: seq<Event<T>>)
    ensures Navigations(r) == [target]
  {
    var g := [Acquire(ReadLock), Acquire(CompilationContext), Navigate(target),
              Release(CompilationContext), Release(ReadLock)];
    assert g[4..][1..] == [] && g[3..][1..] == g[4..] && g[2..][1..] == g[3..] && g[1..][1..] == g[2..];
    assert Navigations(g[4..]) == [];
    assert Navigations(g[3..]) == [];
    assert Navigations(g[2..]) == [target];
    assert Navigations(g[1..]) == [target];
    g
  }

  lemma {:induction false} ReplayAppend<T>(held: seq<Guard>, a: seq<Event<T>>, b: seq<Event<T>>)
    ensures Replay(held, a + b) ==
            match Replay(held, a)
            case None => None
            case Some(h) => Replay(h, b)
    decreases |a|
  {
    if a == [] {
      assert a + b == b;
    } else {
      assert (a + b)[0] == a[0];
      assert (a + b)[1..] == a[1..] + b;
      match Step(held, a[0])
      case None =>
      case Some(h) => ReplayAppend(h, a[1..], b);
    }
  }

  /** One guarded navigation takes both guards in order and gives them back in reverse order. */
  lemma GuardedNavigationBalanced<T>(held: seq<Guard>, target: T)
    ensures Replay(held, GuardedNavigation(target)) == Some(held)
  {
    var g := GuardedNavigation(target);
    var h1 := held + [ReadLock];
    var h2 := h1 + [CompilationContext];
    assert Step(held, g[0]) == Some(h1);
    assert Step(h1, g[1]) == Some(h2);
    assert Step(h2, g[2]) == Some(h2);
    assert h2[..|h2| - 1] == h1 && h1[..|h1| - 1] == held;
    assert g[4..][1..] == [] && g[3..][1..] == g[4..] && g[2..][1..] == g[3..];
    assert g[1..][1..] == g[2..];
    assert Replay(h1, g[4..]) == Some(held);
    assert Replay(h2, g[3..]) == Some(held);
    assert Replay(h2, g[2..]) == Some(held);
    assert Replay(h1, g[1..]) == Some(held);
  }

  /** A log that obeys the discipline navigates only while the read lock wraps the compilation context. */
  lemma NavigationOnlyUnderGuards<T>(log: seq<Event<T>>, i: int)
    requires Replay([], log).Some?
    requires 0 <= i < |log| && log[i].Navigate?
    ensures Replay([], log[..i]).Some? && NavigationAllowed(Replay([], log[..i]).value)
  {
    assert log == log[..i] + log[i..];
    ReplayAppend([], log[..i], log[i..]);
    assert log[i..][0] == log[i];
  }

  lemma {:induction false} NavigationsAppend<T>(a: seq<Event<T>>, b: seq<Event<T>>)
    ensures Navigations(a + b) == Navigations(a) + Navigations(b)
  {
    if a == [] {
      assert a + b == b;
    } else {
      assert (a + b)[0] == a[0];
      assert (a + b)[1..] == a[1..] + b;
      NavigationsAppend(a[1..], b);
    }
  }

  /** A guarded navigation adds exactly one navigation, to its target. */
  lemma NavigatesOnce<T>(log: seq<Event<T>>, target: T)
    ensures Navigations(log + GuardedNavigation(target)) == Navigations(log) + [target]
  {
    NavigationsAppend(log, GuardedNavigation(target));
  }
}
