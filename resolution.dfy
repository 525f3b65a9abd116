/**
  Candidate selection, as `GetClassSymbol` and `GetMethodSymbol` compute it
  when their cache misses: filter the index's symbols (LINQ `OfType` and
  `Where`), then keep the result only when exactly one candidate is left
  (`SingleOrNull`).
 */
module Resolution {
  import opened Wrappers
  import opened Symbols

  /** The symbols of `syms` that `pick` accepts, mapped through it, in order. */
  function Candidates<T>(syms: seq<Symbol>, pick: Symbol -> Option<T>): (r: seq<T>)
    ensures |r| <= |syms|
    ensures forall x :: x in r ==> exists i :: 0 <= i < |syms| && pick(syms[i]) == Some(x)
    ensures forall i :: 0 <= i < |syms| && pick(syms[i]).Some? ==> pick(syms[i]).value in r
  {
    if syms == [] then []
    else
      var rest := Candidates(syms[1..], pick);
      assert forall x :: x in rest ==> exists i :: 0 <= i < |syms| && pick(syms[i]) == Some(x) by {
        forall x | x in rest ensures exists i :: 0 <= i < |syms| && pick(syms[i]) == Some(x) {
          var k :| 0 <= k < |syms[1..]| && pick(syms[1..][k]) == Some(x);
          assert pick(syms[k + 1]) == Some(x);
        }
      }
      assert forall i :: 1 <= i < |syms| ==> syms[i] == syms[1..][i - 1];
      match pick(syms[0])
      case Some(x) => [x] + rest
      case None => rest
  }

  /** LINQ `SingleOrNull`: the one element of `s`, or nothing when it has none or several. */
  function SingleOrNull<T>(s: seq<T>): (r: Option<T>)
    ensures r.Some? ==> s == [r.value]
    ensures |s| == 1 ==> r == Some(s[0])
    ensures |s| != 1 ==> r == None
  {
    if |s| == 1 then Some(s[0]) else None
  }

  /**
    The single candidate of `syms` under `pick`, if there is exactly one;
    `SelectExactlyOne` characterises it by positions.
   */
  function Select<T>(syms: seq<Symbol>, pick: Symbol -> Option<T>): (r: Option<T>)
    ensures r.Some? ==> exists i :: 0 <= i < |syms| && pick(syms[i]) == r
    ensures (forall i :: 0 <= i < |syms| ==> pick(syms[i]).None?) ==> r == None
  {
    SingleOrNull(Candidates(syms, pick))
  }

  /** Position `i` is the one and only symbol of `syms` that `pick` accepts. */
  ghost predicate UniqueMatch<T>(syms: seq<Symbol>, pick: Symbol -> Option<T>, i: int) {
    && 0 <= i < |syms|
    && pick(syms[i]).Some?
    && forall j :: 0 <= j < |syms| && j != i ==> pick(syms[j]).None?
  }

  lemma {:induction false} CandidatesAppend<T>(a: seq<Symbol>, b: seq<Symbol>, pick: Symbol -> Option<T>)
    ensures Candidates(a + b, pick) == Candidates(a, pick) + Candidates(b, pick)
  {
    if a != [] {
      assert (a + b)[1..] == a[1..] + b;
      CandidatesAppend(a[1..], b, pick);
    } else {
      assert a + b == b;
    }
  }

  /** With exactly one acceptable symbol, selection yields it; only then does it yield anything. */
  lemma SelectExactlyOne<T>(syms: seq<Symbol>, pick: Symbol -> Option<T>, x: T)
    ensures Select(syms, pick) == Some(x) <==>
            exists i :: UniqueMatch(syms, pick, i) && pick(syms[i]) == Some(x)
  {
    if Select(syms, pick) == Some(x) {
      SelectedIsUnique(syms, pick, x);
    }
    if exists i :: UniqueMatch(syms, pick, i) && pick(syms[i]) == Some(x) {
      var i :| UniqueMatch(syms, pick, i) && pick(syms[i]) == Some(x);
      UniqueMatchSelected(syms, pick, i);
    }
  }

  lemma SelectedIsUnique<T>(syms: seq<Symbol>, pick: Symbol -> Option<T>, x: T)
    requires Select(syms, pick) == Some(x)
    ensures exists i :: UniqueMatch(syms, pick, i) && pick(syms[i]) == Some(x)
  {
    assert Candidates(syms, pick) == [x];
    assert x in Candidates(syms, pick);
    var i :| 0 <= i < |syms| && pick(syms[i]) == Some(x);
    forall j | 0 <= j < |syms| && j != i ensures pick(syms[j]).None? {
      if pick(syms[j]).Some? {
        if i < j { SelectAmbiguous(syms, pick, i, j); } else { SelectAmbiguous(syms, pick, j, i); }
      }
    }
    assert UniqueMatch(syms, pick, i);
  }

  lemma UniqueMatchSelected<T>(syms: seq<Symbol>, pick: Symbol -> Option<T>, i: int)
    requires UniqueMatch(syms, pick, i)
    ensures Select(syms, pick) == pick(syms[i])
  {
    var pre, post := syms[..i], syms[i + 1..];
    assert syms == (pre + [syms[i]]) + post;
    assert forall j :: 0 <= j < |pre| ==> pre[j] == syms[j];
    assert forall j :: 0 <= j < |post| ==> post[j] == syms[i + 1 + j];
    NoMatchNoCandidates(pre, pick);
    NoMatchNoCandidates(post, pick);
    CandidatesAppend(pre + [syms[i]], post, pick);
    CandidatesAppend(pre, [syms[i]], pick);
    assert [syms[i]][1..] == [];
    assert Candidates([syms[i]], pick) == [pick(syms[i]).value];
  }

  /** Two acceptable symbols make the selection ambiguous, and it yields nothing. */
  lemma {:induction false} SelectAmbiguous<T>(syms: seq<Symbol>, pick: Symbol -> Option<T>, i: int, j: int)
    requires 0 <= i < j < |syms|
    requires pick(syms[i]).Some? && pick(syms[j]).Some?
    ensures Select(syms, pick) == None
  {
    assert syms == syms[..j] + syms[j..];
    CandidatesAppend(syms[..j], syms[j..], pick);
    assert pick(syms[..j][i]).Some?;
    assert pick(syms[j..][0]).Some?;
    assert |Candidates(syms[..j], pick)| >= 1;
    assert |Candidates(syms[j..], pick)| >= 1;
  }

  lemma {:induction false} NoMatchNoCandidates<T>(syms: seq<Symbol>, pick: Symbol -> Option<T>)
    requires forall j :: 0 <= j < |syms| ==> pick(syms[j]).None?
    ensures Candidates(syms, pick) == []
  {
    if syms != [] {
      NoMatchNoCandidates(syms[1..], pick);
    }
  }

  /** Every position that `pick` alone accepts is the one selected. */
  lemma UniqueMatchesSelected<T>(syms: seq<Symbol>, pick: Symbol -> Option<T>)
    ensures forall i :: UniqueMatch(syms, pick, i) ==> Select(syms, pick) == pick(syms[i])
  {
    forall i | UniqueMatch(syms, pick, i) ensures Select(syms, pick) == pick(syms[i]) {
      UniqueMatchSelected(syms, pick, i);
    }
  }

  /** `OfType<CppClassSymbol>()` on one symbol. */
  function AsClass(s: Symbol): (r: Option<ClassSymbol>)
    ensures r.Some? <==> s.Class?
    ensures r.Some? ==> s == Class(r.value)
  {
    if s.Class? then Some(s.cls) else None
  }

  /** `OfType<CppDeclaratorSymbol>().Where(symbol => name == symbol.Name)` on one symbol. */
  function DeclaratorNamed(name: string): (pick: Symbol -> Option<DeclaratorSymbol>)
    ensures forall s :: pick(s).Some? <==> s.Declarator? && s.decl.name == name
    ensures forall s :: pick(s).Some? ==> s == Declarator(pick(s).value) && pick(s).value.name == name
  {
    (s: Symbol) => if s.Declarator? && s.decl.name == name then Some(s.decl) else None
  }

  /**
    The class symbol that `GetClassSymbol` computes on a miss: the class
    symbol among the index's symbols for `name`, when it is the only one.
   */
  function ResolveClass(index: SymbolIndex, name: string): (r: Option<ClassSymbol>)
    ensures var syms := index.symbolsByShortName(name);
      r.Some? ==> exists i :: 0 <= i < |syms| && syms[i] == Class(r.value) &&
                              forall j :: 0 <= j < |syms| && j != i ==> !syms[j].Class?
    ensures var syms := index.symbolsByShortName(name);
      forall i :: 0 <= i < |syms| && syms[i].Class? &&
                  (forall j :: 0 <= j < |syms| && j != i ==> !syms[j].Class?) ==>
        r == Some(syms[i].cls)
  {
    var syms := index.symbolsByShortName(name);
    UniqueMatchesSelected(syms, AsClass);
    var r := Select(syms, AsClass);
    if r.Some? then SelectedIsUnique(syms, AsClass, r.value); r else r
  }

  /**
    The method symbol that `GetMethodSymbol` computes on a miss: the
    declarator child of `cls` named `name`, when it is the only one.
   */
  function ResolveMethod(index: SymbolIndex, cls: ClassSymbol, name: string): (r: Option<DeclaratorSymbol>)
    ensures var children := index.children(cls);
      r.Some? ==> (
        && r.value.name == name
        && exists i :: 0 <= i < |children| && children[i] == Declarator(r.value) &&
                       forall j :: 0 <= j < |children| && j != i ==>
                         !(children[j].Declarator? && children[j].decl.name == name))
    ensures var children := index.children(cls);
      forall i :: 0 <= i < |children| && children[i].Declarator? && children[i].decl.name == name &&
                  (forall j :: 0 <= j < |children| && j != i ==>
                     !(children[j].Declarator? && children[j].decl.name == name)) ==>
        r == Some(children[i].decl)
  {
    var children := index.children(cls);
    var pick := DeclaratorNamed(name);
    UniqueMatchesSelected(children, pick);
    var r := Select(children, pick);
    if r.Some? then SelectedIsUnique(children, pick, r.value); r else r
  }

  /** Two class symbols under one short name: the name does not resolve. */
  lemma ClassAmbiguous(index: SymbolIndex, name: string, i: int, j: int)
    requires var syms := index.symbolsByShortName(name);
      0 <= i < j < |syms| && syms[i].Class? && syms[j].Class?
    ensures ResolveClass(index, name) == None
  {
  }

  /** No class symbol under a short name: the name does not resolve. */
  lemma ClassAbsent(index: SymbolIndex, name: string)
    requires var syms := index.symbolsByShortName(name);
      forall j :: 0 <= j < |syms| ==> !syms[j].Class?
    ensures ResolveClass(index, name) == None
  {
  }

  /** Two declarator children with the same name: the method does not resolve. */
  lemma MethodAmbiguous(index: SymbolIndex, cls: ClassSymbol, name: string, i: int, j: int)
    requires var children := index.children(cls);
      && 0 <= i < j < |children|
      && children[i].Declarator? && children[i].decl.name == name
      && children[j].Declarator? && children[j].decl.name == name
    ensures ResolveMethod(index, cls, name) == None
  {
  }

  /** No declarator child with the name: the method does not resolve. */
  lemma MethodAbsent(index: SymbolIndex, cls: ClassSymbol, name: string)
    requires var children := index.children(cls);
      forall j :: 0 <= j < |children| ==> !(children[j].Declarator? && children[j].decl.name == name)
    ensures ResolveMethod(index, cls, name) == None
  {
  }
}
