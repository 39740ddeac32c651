/**
  Programs of two procedures at one level, each with a variable: the second finds the level's
  offset used up by the first, and its variable one cell behind its record.
 */
module Neighbours {
  import opened Common
  import opened Syntax
  import opened Symbols
  import opened Semantics
  import opened Programs
  import opened Scope
  import opened SmallTables

  /** procedure p; var a; `first`; procedure q; var b; `second`; `main`. */
  function PairBlock(first: Stmt, second: Stmt, main: Stmt): Block {
    Block(ProcDecl("p", Block(VarDecl("a", NoDecls), first),
                   ProcDecl("q", Block(VarDecl("b", NoDecls), second), NoDecls)), main)
  }

  // ---------- lexical scope ----------

  function MainScope(): Scoping {
    map["p" := Binding(PROC, 0, 1, 0), "q" := Binding(PROC, 0, 2, 0)]
  }

  function FirstScope(): Scoping {
    map["p" := Binding(PROC, 1, 1, 0), "a" := Binding(VAR, 0, 4, 0)]
  }

  function SecondScope(): Scoping {
    map["p" := Binding(PROC, 1, 1, 0), "q" := Binding(PROC, 1, 2, 0), "b" := Binding(VAR, 0, 4, 0)]
  }

  function PairProgram(first: Stmt, second: Stmt, main: Stmt): Prog {
    [Proc(0, 0, 0, Lexical(MainScope()), main),
     Proc(1, 0, 1, Lexical(FirstScope()), first),
     Proc(1, 0, 1, Lexical(SecondScope()), second)]
  }

  lemma PairMeaning(first: Stmt, second: Stmt, main: Stmt)
    ensures LexProgram(PairBlock(first, second, main)) == PairProgram(first, second, main)
  {
    var d := PairBlock(first, second, main).decls;
    var s1: Scoping := map["p" := Binding(PROC, 0, 1, 0)];
    var in1: Scoping := map["p" := Binding(PROC, 1, 1, 0)];
    var in2: Scoping := map["p" := Binding(PROC, 1, 1, 0), "q" := Binding(PROC, 1, 2, 0)];
    assert Deepen(s1) == in1 && Deepen(MainScope()) == in2;
    assert LexDecls(NoDecls, 1, 1, 1, FirstScope(), 1) == (Lex(FirstScope(), 1), []);
    assert LexDecls(d.block.decls, 1, 1, 0, in1, 1) == (Lex(FirstScope(), 1), []);
    assert LexDecls(NoDecls, 1, 2, 1, SecondScope(), 2) == (Lex(SecondScope(), 2), []);
    assert LexDecls(d.next.block.decls, 1, 2, 0, in2, 2) == (Lex(SecondScope(), 2), []);
    var p, q := PairProgram(first, second, main)[1], PairProgram(first, second, main)[2];
    assert LexDecls(NoDecls, 0, 0, 0, MainScope(), 2) == (Lex(MainScope(), 2), []);
    assert LexDecls(d.next, 0, 0, 0, s1, 1) == (Lex(MainScope(), 2), [q] + [] + []);
    assert LexDecls(d, 0, 0, 0, map[], 0) == (Lex(MainScope(), 2), [p] + [] + ([q] + [] + []));
    assert VarCount(d.next) == 0 && VarCount(d) == 0;
    assert [p] + [] + ([q] + [] + []) == [p, q];
    assert [PairProgram(first, second, main)[0]] + [p, q] == PairProgram(first, second, main);
  }

  // ---------- the table ----------

  const SYM_P := Symbol("p", PROC, 0, 0, 1)
  const SYM_A := Symbol("a", VAR, 0, 1, 4)
  const SYM_Q := Symbol("q", PROC, 0, 0, 2)
  const SYM_B := Symbol("b", VAR, 0, 1, 5)

  function FirstTable(): Table {
    map[85 := [SYM_P], 70 := [SYM_A]]
  }

  function SecondTable(): Table {
    map[85 := [SYM_P], 70 := [SYM_A], 86 := [SYM_Q], 71 := [SYM_B]]
  }

  lemma PairHashes()
    ensures Hash("p") == 85 && Hash("a") == 70 && Hash("q") == 86 && Hash("b") == 71
  {
    HashOf("p", 112);
    HashOf("a", 97);
    HashOf("q", 113);
    HashOf("b", 98);
  }

  lemma PairPuts()
    ensures PutSymbol(map[], SYM_P) == map[85 := [SYM_P]]
    ensures PutSymbol(map[85 := [SYM_P]], SYM_A) == FirstTable()
    ensures PutSymbol(FirstTable(), SYM_Q) == map[85 := [SYM_P], 70 := [SYM_A], 86 := [SYM_Q]]
    ensures PutSymbol(map[85 := [SYM_P], 70 := [SYM_A], 86 := [SYM_Q]], SYM_B) == SecondTable()
  {
    PairHashes();
    hide Hash, PutSymbol;
    FreePut(map[], SYM_P);
    FreePut(map[85 := [SYM_P]], SYM_A);
    FreePut(FirstTable(), SYM_Q);
    FreePut(map[85 := [SYM_P], 70 := [SYM_A], 86 := [SYM_Q]], SYM_B);
  }

  function PairRead(first: Stmt, second: Stmt, main: Stmt): Prog {
    [Proc(0, 0, 0, FromTable(SecondTable(), 0), main),
     Proc(1, 0, 1, FromTable(FirstTable(), 1), first),
     Proc(1, 0, 1, FromTable(SecondTable(), 1), second)]
  }

  lemma PairElab(first: Stmt, second: Stmt, main: Stmt)
    ensures Elaborate(PairBlock(first, second, main)) == PairRead(first, second, main)
  {
    PairPuts();
    hide Hash, PutSymbol, FirstTable, SecondTable;
    var d := PairBlock(first, second, main).decls;
    var t1, t3 := map[85 := [SYM_P]], map[85 := [SYM_P], 70 := [SYM_A], 86 := [SYM_Q]];
    var o1, o2 := FRESH_OFFSETS[1 := 5], FRESH_OFFSETS[1 := 6];
    assert o1[1 := 6] == o2;
    var c1, c2 := Counters(t1, FRESH_OFFSETS, 1), Counters(FirstTable(), o1, 1);
    var c3, c4 := Counters(t3, o1, 2), Counters(SecondTable(), o2, 2);
    assert ElabDecls(NoDecls, 1, 1, c2) == (c2, []) && ElabDecls(NoDecls, 1, 2, c4) == (c4, []);
    assert ElabDecls(d.block.decls, 1, 1, c1) == (c2, []);
    assert ElabDecls(d.next.block.decls, 1, 2, c3) == (c4, []);
    var p, q := PairRead(first, second, main)[1], PairRead(first, second, main)[2];
    assert ElabDecls(NoDecls, 0, 0, c4) == (c4, []);
    assert ElabDecls(d.next, 0, 0, c2) == (c4, [q] + [] + []);
    assert ElabDecls(d, 0, 0, InitCounters()) == (c4, [p] + [] + ([q] + [] + []));
    assert VarCount(d.next) == 0 && VarCount(d) == 0;
    assert [p] + [] + ([q] + [] + []) == [p, q];
    assert [PairRead(first, second, main)[0]] + [p, q] == PairRead(first, second, main);
  }

  lemma PairBuckets()
    ensures 70 in FirstTable() && FirstTable()[70] == [SYM_A]
    ensures 71 in SecondTable() && SecondTable()[71] == [SYM_B]
    ensures 85 in SecondTable() && SecondTable()[85] == [SYM_P]
    ensures 86 in SecondTable() && SecondTable()[86] == [SYM_Q]
  {
  }

  lemma PairMeanings()
    ensures Meaning(SYM_A, 1) == Binding(VAR, 0, 4, 0) && Meaning(SYM_B, 1) == Binding(VAR, 0, 5, 0)
    ensures Meaning(SYM_P, 1) == Binding(PROC, 1, 1, 0) && Meaning(SYM_Q, 0) == Binding(PROC, 0, 2, 0)
  {
  }

  /** What the table answers: b is at 5, behind the one variable of q's record. */
  lemma PairFinds()
    ensures FromTable(FirstTable(), 1).Find("a") == Some(Binding(VAR, 0, 4, 0))
    ensures FromTable(SecondTable(), 1).Find("b") == Some(Binding(VAR, 0, 5, 0))
    ensures FromTable(SecondTable(), 1).Find("p") == Some(Binding(PROC, 1, 1, 0))
    ensures FromTable(SecondTable(), 0).Find("q") == Some(Binding(PROC, 0, 2, 0))
  {
    hide Hash, FirstTable, SecondTable, GetSymbol, Meaning, SYM_A, SYM_B, SYM_P, SYM_Q;
    PairHashes();
    PairBuckets();
    PairMeanings();
    LoneFound(FirstTable(), "a", 70, 1, SYM_A);
    LoneFound(SecondTable(), "b", 71, 1, SYM_B);
    LoneFound(SecondTable(), "p", 85, 1, SYM_P);
    LoneFound(SecondTable(), "q", 86, 0, SYM_Q);
  }

  /** What lexical scope answers. */
  lemma PairMeans()
    ensures Lexical(MainScope()).Find("q") == Some(Binding(PROC, 0, 2, 0))
    ensures Lexical(FirstScope()).Find("a") == Some(Binding(VAR, 0, 4, 0))
    ensures Lexical(SecondScope()).Find("b") == Some(Binding(VAR, 0, 4, 0))
    ensures Lexical(SecondScope()).Find("p") == Some(Binding(PROC, 1, 1, 0))
  {
  }
}
