/**
  A supported program in which a procedure declares a name of the program again, and a later one
  would find the wrong declaration, but does not use the name.
 */
module Shadow {
  import opened Common
  import opened Machine
  import opened Syntax
  import opened Symbols
  import opened Compile
  import opened Semantics
  import opened Registers
  import opened Emission
  import opened StmtCorrect
  import opened Parsing
  import opened Programs
  import opened RoundTrip
  import opened RoundTripProgram
  import opened Standard
  import opened Scope
  import opened Naming
  import opened Uses
  import opened Overhang
  import opened Compiler
  import opened Readings
  import opened Pl0
  import opened Pl0Safety
  import opened OneProc
  import opened Siblings

  function ShadowInner(): Stmt {
    Begin(Assign("a", ConstExpr(1)), NoStmts)
  }

  function ShadowOther(): Stmt {
    Begin(Empty, NoStmts)
  }

  function ShadowMain(): Stmt {
    Begin(Assign("a", ConstExpr(2)),
          MoreStmts(Stmt.Call("p"), MoreStmts(Stmt.Call("q"), MoreStmts(Write("a"), NoStmts))))
  }

  /**
    var a;
    procedure p; var a; begin a := 1 end;
    procedure q; begin end;
    begin a := 2; call p; call q; write a end.
   */
  function ShadowBlock(): Block {
    SiblingBlock(ShadowInner(), ShadowOther(), ShadowMain())
  }

  function ShadowMeant(): Prog {
    SiblingProgram(ShadowInner(), ShadowOther(), ShadowMain())
  }

  lemma ShadowNames()
    ensures StmtNames(ShadowMain()) == {"a", "p", "q"} && StmtNames(ShadowInner()) == {"a"}
            && StmtNames(ShadowOther()) == {}
  {
    ConstNames(1);
    ConstNames(2);
    hide ConstExpr, ExprNames;
    var rest := ShadowMain().rest;
    assert StmtsNames(rest.next.next) == {"a"};
    assert StmtsNames(rest.next) == {"q", "a"};
    assert StmtsNames(rest) == {"p", "q", "a"};
  }

  lemma ShadowIs()
    ensures LexProgram(ShadowBlock()) == ShadowMeant() && |ShadowMeant()| == 3
    ensures Elaborate(ShadowBlock()) == SiblingRead(ShadowInner(), ShadowOther(), ShadowMain())
  {
    SiblingMeaning(ShadowInner(), ShadowOther(), ShadowMain());
    SiblingElab(ShadowInner(), ShadowOther(), ShadowMain());
  }

  lemma ShadowLevels()
    ensures LevelsFit(ShadowBlock().decls, 0)
  {
    var d := ShadowBlock().decls;
    assert LevelsFit(d.next.next, 0) && LevelsFit(d.next, 0);
  }

  lemma ShadowUses(i: nat, x: string)
    requires i < 3
    ensures ReadsUsed(SiblingRead(ShadowInner(), ShadowOther(), ShadowMain())[i], ShadowMeant()[i], 0, x)
  {
    ShadowNames();
    hide FirstTable, SecondTable, MainScope, FirstScope, SecondScope, StmtNames, GetSymbol, Hash, HashFrom,
         ShadowInner, ShadowOther, ShadowMain, Env.Find, ShiftBinding;
    SiblingFinds();
    SiblingMeans();
    ScopeFinds(MainScope(), x);
    ScopeFinds(FirstScope(), x);
    ShiftNone();
    assert x in StmtNames(ShadowMain()) ==> x == "a" || x == "p" || x == "q";
  }

  lemma ScopeFinds(scope: Scoping, x: string)
    ensures x in scope ==> Lexical(scope).Find(x) == Some(scope[x])
  {
  }

  lemma ShiftNone()
    ensures forall b :: ShiftBinding(b, 0) == b
  {
  }

  /** Each name is resolved where it is used. */
  lemma ShadowClear()
    ensures Clear(ShadowBlock(), NoPads(3))
  {
    hide Elaborate, LexProgram, ReadsUsed, ShadowInner, ShadowOther, ShadowMain, Clear, ShadowBlock, LevelsFit;
    ShadowIs();
    ShadowLevels();
    var prog, lex, pads := SiblingRead(ShadowInner(), ShadowOther(), ShadowMain()), ShadowMeant(), NoPads(3);
    forall i, x | 0 <= i < 3
      ensures ReadsUsed(prog[i], lex[i], pads[i], x)
    {
      ShadowUses(i, x);
    }
    ClearRead(ShadowBlock(), pads, prog, lex);
  }

  /** But not all are where they are in scope: in q, the table answers with the variable of p. */
  lemma ShadowHidden()
    ensures !ClearScopes(ShadowBlock())
  {
    hide Elaborate, LexProgram, ShadowInner, ShadowOther, ShadowMain, ClearScopes, ShadowBlock, LevelsFit, Refines,
         SameProcs;
    ShadowIs();
    ShadowLevels();
    ShadowMissed();
    ScopesResolve(ShadowBlock());
    if ClearScopes(ShadowBlock()) {
      SameAt(Elaborate(ShadowBlock()), LexProgram(ShadowBlock()), 2);
      assert false;
    }
  }

  lemma SameAt(a: Prog, b: Prog, i: nat)
    requires SameProcs(a, b) && i < |b|
    ensures i < |a| && Refines(a[i].env, b[i].env)
  {
  }

  lemma ShadowMissed()
    ensures !Refines(FromTable(SecondTable(), 1), Lexical(SecondScope()))
  {
    SiblingFinds();
    SiblingMeans();
    hide FirstTable, SecondTable, MainScope, FirstScope, SecondScope, GetSymbol, Hash, HashFrom, Env.Find;
  }

  lemma ShadowTyped(out: Env)
    requires out == Lexical(MainScope())
    ensures GoodStmt(ShadowMain(), out) && NeedStmt(ShadowMain()) == 1 && Writable(ShadowMain())
    ensures NoConstWrite(ShadowMain(), out)
  {
    ConstShape(2, 0, out);
    SiblingMeans();
    hide ConstExpr, MainScope, Env.Find;
    var rest := ShadowMain().rest;
    assert GoodStmts(rest.next.next, out) && GoodStmts(rest.next, out) && GoodStmts(rest, out);
    assert NeedStmts(rest.next.next) == 1 && NeedStmts(rest.next) == 1 && NeedStmts(rest) == 1;
    assert WritableAll(rest.next.next) && WritableAll(rest.next) && WritableAll(rest);
    assert NoConstWriteAll(rest.next.next, out) && NoConstWriteAll(rest.next, out) && NoConstWriteAll(rest, out);
  }

  lemma ShadowGood()
    ensures WellFormedBlock(ShadowBlock(), 0)
    ensures WellTyped(ShadowMeant()) && RegistersFit(ShadowMeant()) && TailProgram(ShadowMeant())
  {
    var inner, other := Lexical(FirstScope()), Lexical(SecondScope());
    ConstShape(1, 0, inner);
    SiblingMeans();
    ShadowTyped(Lexical(MainScope()));
    ShadowOrdered();
    hide ConstExpr, ShadowMain, MainScope, FirstScope, SecondScope, Env.Find;
    assert GoodStmt(ShadowInner(), inner) && NeedStmt(ShadowInner()) == 1 && NoConstWrite(ShadowInner(), inner);
    assert GoodStmt(ShadowOther(), other) && NeedStmt(ShadowOther()) == 0 && NoConstWrite(ShadowOther(), other);
    assert Tail(ShadowInner()) && Tail(ShadowOther());
  }

  lemma ShadowOrdered()
    ensures Writable(ShadowMain()) ==> WellFormedBlock(ShadowBlock(), 0)
  {
    hide ShadowMain;
    var d := ShadowBlock().decls;
    assert Ordered(NoDecls, 2) && Ordered(d.next.next, 2) && Ordered(d.next, 1) && Ordered(d, 0);
    assert WellFormedBlock(d.next.block, 1) && WellFormedBlock(d.next.next.block, 1);
    assert WellFormed(d.next.next, 0) && WellFormed(d.next, 0);
  }

  /** Names are declared again, and one is out of reach of its scope, and yet the program is supported. */
  lemma ShadowSupported()
    ensures Supported(ShadowBlock(), NoPads(3))
    ensures !ClearScopes(ShadowBlock())
  {
    hide Clear, ClearScopes, WellFormedBlock, WellTyped, RegistersFit, TailProgram, LexProgram, ShadowMeant;
    ShadowClear();
    ShadowHidden();
    ShadowGood();
    ShadowIs();
    UnpaddedProgram(ShadowBlock());
    ShadowRecords();
  }

  lemma ShadowRecords()
    ensures RecordsFit(ShadowMeant())
  {
  }

  // ---------- its run ----------

  function ShadowStore(a: int, output: seq<int>, peak: nat): Store {
    Store([Frame(0, 0, [Some(a)])], [], output, peak, false)
  }

  lemma ShadowFirst(a: int)
    ensures Exec(ShadowMeant(), STANDARD, Stmt.Call("p"), 0, ShadowStore(a, [], 1), 1) == Done(ShadowStore(a, [], 2))
  {
    hide ShadowMain, ShadowOther;
    var prog, st := ShadowMeant(), ShadowStore(a, [], 1);
    var st1 := Store([Frame(0, 0, [Some(a)]), Frame(1, 0, [None])], [], [], 2, false);
    var st2 := Store([Frame(0, 0, [Some(a)]), Frame(1, 0, [Some(1)])], [], [], 2, false);
    assert NewFrame(1, 0, 1).vars == [None];
    assert Enter(prog, STANDARD, "p", prog[0].env, st) == Done(st1);
    ConstValue(1, prog[1].env, st1.frames);
    assert SetVar(st1.frames, 1, 0, 1)[1].vars == [Some(1)];
    assert Exec(prog, STANDARD, ShadowInner().first, 1, st1, 0) == Done(st2);
    assert ExecAll(prog, STANDARD, NoStmts, 1, st2, 0) == Done(st2);
    assert st2.frames[..1] == ShadowStore(a, [], 2).frames;
  }

  lemma ShadowSecond(a: int)
    ensures Exec(ShadowMeant(), STANDARD, Stmt.Call("q"), 0, ShadowStore(a, [], 2), 1) == Done(ShadowStore(a, [], 2))
  {
    hide ShadowMain, ShadowInner;
    var prog, st := ShadowMeant(), ShadowStore(a, [], 2);
    var st1 := Store([Frame(0, 0, [Some(a)]), Frame(2, 0, [])], [], [], 2, false);
    assert NewFrame(2, 0, 0).vars == [];
    assert Enter(prog, STANDARD, "q", prog[0].env, st) == Done(st1);
    assert Exec(prog, STANDARD, Empty, 2, st1, 0) == Done(st1);
    assert ExecAll(prog, STANDARD, NoStmts, 2, st1, 0) == Done(st1);
    assert st1.frames[..1] == st.frames;
  }

  lemma ShadowEnds()
    ensures Exec(ShadowMeant(), STANDARD, ShadowMain().first, 0, ShadowStore(0, [], 1), 1)
            == Done(ShadowStore(2, [], 1))
    ensures Exec(ShadowMeant(), STANDARD, Write("a"), 0, ShadowStore(2, [], 2), 1) == Done(ShadowStore(2, [2], 2))
    ensures InitStore(ShadowMeant(), []) == ShadowStore(0, [], 1)
  {
    var prog, st := ShadowMeant(), ShadowStore(0, [], 1);
    assert InitStore(prog, []).frames[0].vars == [Some(0)];
    ConstValue(2, prog[0].env, st.frames);
    assert SetVar(st.frames, 0, 0, 2)[0].vars == [Some(2)];
    assert [] + [2] == [2];
  }

  lemma ShadowExec()
    ensures ExecProgram(ShadowMeant(), STANDARD, [], 1) == Done(ShadowStore(2, [2], 2))
  {
    ShadowEnds();
    ShadowFirst(2);
    ShadowSecond(2);
    ShadowIs();
    assert ShadowMeant()[0].body == ShadowMain();
    hide ShadowMeant, Enter, Leave, ConstExpr, EvalExpr, WriteValue, ShadowStore, Store1;
    var prog, rest, last := ShadowMeant(), ShadowMain().rest, ShadowStore(2, [2], 2);
    assert ExecAll(prog, STANDARD, NoStmts, 0, last, 1) == Done(last);
    assert ExecAll(prog, STANDARD, rest.next.next, 0, ShadowStore(2, [], 2), 1) == Done(last);
    assert ExecAll(prog, STANDARD, rest.next, 0, ShadowStore(2, [], 2), 1) == Done(last);
    assert ExecAll(prog, STANDARD, rest, 0, ShadowStore(2, [], 1), 1) == Done(last);
  }

  lemma ShadowLength()
    ensures |CompiledCode(RenderProgram(ShadowBlock()))| == 17
  {
    hide LexProgram, RenderProgram, ParseProgram, CompiledCode, Compilable, ShadowBlock, ShadowMeant, ProcCode,
         TailProgram, RecordsFit;
    ShadowSupported();
    ShadowIs();
    CompilableParses(ShadowBlock(), NoPads(3));
    CompactLength(RenderProgram(ShadowBlock()), ShadowBlock());
    ShadowSize();
  }

  lemma ShadowSize()
    ensures |ShadowMeant()| == 3 && CodeSize(ShadowMeant(), 0) == 14
  {
    var out, inner, other, prog := Lexical(MainScope()), Lexical(FirstScope()), Lexical(SecondScope()), ShadowMeant();
    ConstShape(2, 0, out);
    ConstShape(1, 0, inner);
    hide ConstExpr;
    var rest := ShadowMain().rest;
    assert |CompileStmts(rest.next.next, 4, 0, out, false)| == 2;
    assert |CompileStmts(rest.next, 3, 0, out, false)| == 3;
    assert |CompileStmts(rest, 2, 0, out, false)| == 4;
    assert |CompileStmt(ShadowMain(), 0, 0, out, false)| == 6;
    assert |CompileStmt(ShadowInner(), 0, 0, inner, true)| == 3;
    assert |CompileStmt(ShadowOther(), 0, 0, other, true)| == 1;
    assert CodeSize(prog, 3) == 0 && CodeSize(prog, 2) == 2 && CodeSize(prog, 1) == 6;
  }

  /** What p does to its own a leaves the program's alone: PL/0 writes 2, and so does the machine. */
  lemma ShadowRuns() returns (s': State)
    ensures Reaches(CompiledCode(RenderProgram(ShadowBlock())), InitState([]), s') && s'.status == IDLE
            && s'.output == [2]
  {
    hide LexProgram, RenderProgram, Supported, CompiledCode, ExecProgram, ShadowBlock, ShadowMeant;
    ShadowSupported();
    ShadowIs();
    ShadowExec();
    ShadowLength();
    s' := CompilesPl0(ShadowBlock(), NoPads(3), [], 1);
  }
}
