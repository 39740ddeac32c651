/**
  Programs whose first procedure declares the name of a variable of the program again, and whose
  second does not: how lexical scope and the compiler's table read them.
 */
module Siblings {
  import opened Common
  import opened Syntax
  import opened Symbols
  import opened Semantics
  import opened Programs
  import opened Scope
  import opened SmallTables

  /** var a; procedure p; var a; `inner`; procedure q; `other`; `main`. */
  function SiblingBlock(inner: Stmt, other: Stmt, main: Stmt): Block {
    Block(VarDecl("a", ProcDecl("p", Block(VarDecl("a", NoDecls), inner),
                                ProcDecl("q", Block(NoDecls, other), NoDecls))), main)
  }

  // ---------- lexical scope ----------

  function MainScope(): Scoping {
    map["a" := Binding(VAR, 0, 4, 0), "p" := Binding(PROC, 0, 1, 0), "q" := Binding(PROC, 0, 2, 0)]
  }

  function FirstScope(): Scoping {
    map["a" := Binding(VAR, 0, 4, 0), "p" := Binding(PROC, 1, 1, 0)]
  }

  function SecondScope(): Scoping {
    map["a" := Binding(VAR, 1, 4, 0), "p" := Binding(PROC, 1, 1, 0), "q" := Binding(PROC, 1, 2, 0)]
  }

  function SiblingProgram(inner: Stmt, other: Stmt, main: Stmt): Prog {
    [Proc(0, 0, 1, Lexical(MainScope()), main),
     Proc(1, 0, 1, Lexical(FirstScope()), inner),
     Proc(1, 0, 0, Lexical(SecondScope()), other)]
  }

  lemma SiblingMeaning(inner: Stmt, other: Stmt, main: Stmt)
    ensures LexProgram(SiblingBlock(inner, other, main)) == SiblingProgram(inner, other, main)
  {
    var d := SiblingBlock(inner, other, main).decls;
    var a0 := Binding(VAR, 0, 4, 0);
    var s1: Scoping := map["a" := a0];
    var s2: Scoping := map["a" := a0, "p" := Binding(PROC, 0, 1, 0)];
    var deep: Scoping := map["a" := Binding(VAR, 1, 4, 0), "p" := Binding(PROC, 1, 1, 0)];
    assert s1["p" := Binding(PROC, 0, 1, 0)] == s2 && s2["q" := Binding(PROC, 0, 2, 0)] == MainScope();
    assert Deepen(s2) == deep && deep["a" := a0] == FirstScope() && Deepen(MainScope()) == SecondScope();
    var p, q := SiblingProgram(inner, other, main)[1], SiblingProgram(inner, other, main)[2];
    assert LexDecls(NoDecls, 1, 1, 1, FirstScope(), 1) == (Lex(FirstScope(), 1), []);
    assert LexDecls(d.next.block.decls, 1, 1, 0, deep, 1) == (Lex(FirstScope(), 1), []);
    assert LexDecls(NoDecls, 1, 2, 0, SecondScope(), 2) == (Lex(SecondScope(), 2), []);
    assert LexDecls(NoDecls, 0, 0, 1, MainScope(), 2) == (Lex(MainScope(), 2), []);
    assert LexDecls(d.next.next, 0, 0, 1, s2, 1) == (Lex(MainScope(), 2), [q] + [] + []);
    assert LexDecls(d.next, 0, 0, 1, s1, 0) == (Lex(MainScope(), 2), [p] + [] + ([q] + [] + []));
    assert LexDecls(d, 0, 0, 0, map[], 0) == LexDecls(d.next, 0, 0, 1, s1, 0);
    assert VarCount(d.next.next) == 0 && VarCount(d.next) == 0 && VarCount(d) == 1;
    assert [p] + [] + ([q] + [] + []) == [p, q];
    assert [SiblingProgram(inner, other, main)[0]] + [p, q] == SiblingProgram(inner, other, main);
  }

  // ---------- the table ----------

  const SYM_A := Symbol("a", VAR, 0, 0, 4)
  const SYM_INNER_A := Symbol("a", VAR, 0, 1, 4)
  const SYM_P := Symbol("p", PROC, 0, 0, 1)
  const SYM_Q := Symbol("q", PROC, 0, 0, 2)

  function FirstTable(): Table {
    map[70 := [SYM_A, SYM_INNER_A], 85 := [SYM_P]]
  }

  function SecondTable(): Table {
    map[70 := [SYM_A, SYM_INNER_A], 85 := [SYM_P], 86 := [SYM_Q]]
  }

  lemma SiblingHashes()
    ensures Hash("a") == 70 && Hash("p") == 85 && Hash("q") == 86
  {
    HashOf("a", 97);
    HashOf("p", 112);
    HashOf("q", 113);
  }

  lemma SiblingPuts()
    ensures PutSymbol(map[], SYM_A) == map[70 := [SYM_A]]
    ensures PutSymbol(map[70 := [SYM_A]], SYM_P) == map[70 := [SYM_A], 85 := [SYM_P]]
    ensures PutSymbol(map[70 := [SYM_A], 85 := [SYM_P]], SYM_INNER_A) == FirstTable()
    ensures PutSymbol(FirstTable(), SYM_Q) == SecondTable()
  {
    SiblingHashes();
    hide Hash, PutSymbol;
    FreePut(map[], SYM_A);
    FreePut(map[70 := [SYM_A]], SYM_P);
    SecondPut(map[70 := [SYM_A], 85 := [SYM_P]], SYM_INNER_A, SYM_A);
    FreePut(FirstTable(), SYM_Q);
  }

  function SiblingRead(inner: Stmt, other: Stmt, main: Stmt): Prog {
    [Proc(0, 0, 1, FromTable(SecondTable(), 0), main),
     Proc(1, 0, 1, FromTable(FirstTable(), 1), inner),
     Proc(1, 0, 0, FromTable(SecondTable(), 1), other)]
  }

  lemma SiblingElab(inner: Stmt, other: Stmt, main: Stmt)
    ensures Elaborate(SiblingBlock(inner, other, main)) == SiblingRead(inner, other, main)
  {
    SiblingPuts();
    hide Hash, PutSymbol, FirstTable, SecondTable;
    var d := SiblingBlock(inner, other, main).decls;
    var t1, t2 := map[70 := [SYM_A]], map[70 := [SYM_A], 85 := [SYM_P]];
    var o1 := FRESH_OFFSETS[0 := 5];
    var o2 := o1[1 := 5];
    var c2, c3, c4 := Counters(t2, o1, 1), Counters(FirstTable(), o2, 1), Counters(SecondTable(), o2, 2);
    var p, q := SiblingRead(inner, other, main)[1], SiblingRead(inner, other, main)[2];
    assert ElabDecls(NoDecls, 1, 1, c3) == (c3, []) && ElabDecls(NoDecls, 1, 2, c4) == (c4, []);
    assert ElabDecls(d.next.block.decls, 1, 1, c2) == (c3, []);
    assert ElabDecls(NoDecls, 0, 0, c4) == (c4, []);
    assert ElabDecls(d.next.next, 0, 0, c3) == (c4, [q] + [] + []);
    assert ElabDecls(d.next, 0, 0, Counters(t1, o1, 0)) == (c4, [p] + [] + ([q] + [] + []));
    assert ElabDecls(d, 0, 0, InitCounters()) == ElabDecls(d.next, 0, 0, Counters(t1, o1, 0));
    assert VarCount(d.next.next) == 0 && VarCount(d.next) == 0 && VarCount(d) == 1;
    assert [p] + [] + ([q] + [] + []) == [p, q];
    assert [SiblingRead(inner, other, main)[0]] + [p, q] == SiblingRead(inner, other, main);
  }

  lemma SiblingBuckets()
    ensures 70 in FirstTable() && FirstTable()[70] == [SYM_A, SYM_INNER_A]
    ensures 70 in SecondTable() && SecondTable()[70] == [SYM_A, SYM_INNER_A]
    ensures 85 in SecondTable() && SecondTable()[85] == [SYM_P]
    ensures 86 in SecondTable() && SecondTable()[86] == [SYM_Q]
    ensures SYM_A.level == 0 && SYM_INNER_A.level == 1
  {
  }

  lemma SiblingMeanings()
    ensures Meaning(SYM_A, 0) == Binding(VAR, 0, 4, 0) && Meaning(SYM_INNER_A, 1) == Binding(VAR, 0, 4, 0)
    ensures Meaning(SYM_P, 0) == Binding(PROC, 0, 1, 0) && Meaning(SYM_Q, 0) == Binding(PROC, 0, 2, 0)
  {
  }

  /** What the table answers: in q, `a` is the variable of p, which is closed. */
  lemma SiblingFinds()
    ensures FromTable(SecondTable(), 0).Find("a") == Some(Binding(VAR, 0, 4, 0))
    ensures FromTable(SecondTable(), 0).Find("p") == Some(Binding(PROC, 0, 1, 0))
    ensures FromTable(SecondTable(), 0).Find("q") == Some(Binding(PROC, 0, 2, 0))
    ensures FromTable(FirstTable(), 1).Find("a") == Some(Binding(VAR, 0, 4, 0))
    ensures FromTable(SecondTable(), 1).Find("a") == Some(Binding(VAR, 0, 4, 0))
  {
    hide Hash, GetSymbol, FirstTable, SecondTable, Meaning, SYM_A, SYM_INNER_A, SYM_P, SYM_Q;
    SiblingHashes();
    SiblingBuckets();
    SiblingMeanings();
    PairFound(SecondTable(), "a", 70, 0, SYM_A, SYM_INNER_A);
    PairFound(FirstTable(), "a", 70, 1, SYM_A, SYM_INNER_A);
    PairFound(SecondTable(), "a", 70, 1, SYM_A, SYM_INNER_A);
    LoneFound(SecondTable(), "p", 85, 0, SYM_P);
    LoneFound(SecondTable(), "q", 86, 0, SYM_Q);
  }

  /** What lexical scope answers: in q, `a` is the program's. */
  lemma SiblingMeans()
    ensures Lexical(MainScope()).Find("a") == Some(Binding(VAR, 0, 4, 0))
    ensures Lexical(MainScope()).Find("p") == Some(Binding(PROC, 0, 1, 0))
    ensures Lexical(MainScope()).Find("q") == Some(Binding(PROC, 0, 2, 0))
    ensures Lexical(FirstScope()).Find("a") == Some(Binding(VAR, 0, 4, 0))
    ensures Lexical(SecondScope()).Find("a") == Some(Binding(VAR, 1, 4, 0))
  {
  }
}
