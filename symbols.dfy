/**
  The C++ symbols the navigator deals with, and the symbol index it queries.
  The index itself (the IDE's global C++ symbol cache) is foreign code: it is
  modelled as two total functions that the navigator is given.
 */
module Symbols {

  /** A C++ class declaration found by the index (`CppClassSymbol`). */
  datatype ClassSymbol = ClassSymbol(shortName: string, uid: nat)

  /** A C++ declarator, such as a member function (`CppDeclaratorSymbol`). */
  datatype DeclaratorSymbol = DeclaratorSymbol(name: string, uid: nat)

  /** Any symbol the index may return; `Other` covers every kind the navigator filters out. */
  datatype Symbol =
    | Class(cls: ClassSymbol)
    | Declarator(decl: DeclaratorSymbol)
    | Other(uid: nat)

  /**
    The symbol index: all symbols with a given short name
    (`SymbolNameCache.GetSymbolsByShortName`), and the children of a class
    symbol (`CppClassSymbol.Children`), both in the order the index yields them.
   */
  datatype SymbolIndex = SymbolIndex(
    symbolsByShortName: string -> seq<Symbol>,
    children: ClassSymbol -> seq<Symbol>)
}
