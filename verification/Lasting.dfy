/**
  A supported program with a variable behind its record: its procedure calls nothing, so nothing
  is written over the variable while it is in use.
 */
module Lasting {
  import opened Common
  import opened Machine
  import opened Syntax
  import opened Symbols
  import opened Compile
  import opened Semantics
  import opened Registers
  import opened Emission
  import opened StmtCorrect
  import opened Parsing
  import opened Programs
  import opened RoundTrip
  import opened RoundTripProgram
  import opened Standard
  import opened Scope
  import opened Naming
  import opened Uses
  import opened Overhang
  import opened Compiler
  import opened Readings
  import opened Pl0
  import opened OneProc
  import opened Neighbours
  import opened Clobber

  function LastingSecond(): Stmt {
    Begin(Assign("b", ConstExpr(7)), MoreStmts(Write("b"), NoStmts))
  }

  /**
    procedure p; var a; begin a := 1 end;
    procedure q; var b; begin b := 7; write b end;
    begin call q end.
   */
  function LastingBlock(): Block {
    PairBlock(ClobberFirst(), LastingSecond(), ClobberMain())
  }

  /** b is one cell behind the record of q. */
  const LASTING_PADS: Pads := [0, 0, 1]

  function LastingMeant(): Prog {
    PairProgram(ClobberFirst(), LastingSecond(), ClobberMain())
  }

  lemma LastingIs()
    ensures LexProgram(LastingBlock()) == LastingMeant() && |LastingMeant()| == 3
    ensures Elaborate(LastingBlock()) == PairRead(ClobberFirst(), LastingSecond(), ClobberMain())
  {
    PairMeaning(ClobberFirst(), LastingSecond(), ClobberMain());
    PairElab(ClobberFirst(), LastingSecond(), ClobberMain());
  }

  // ---------- what the theorem asks for ----------

  lemma LastingNames()
    ensures StmtNames(ClobberMain()) == {"q"} && StmtNames(ClobberFirst()) == {"a"}
            && StmtNames(LastingSecond()) == {"b"}
  {
    ConstNames(1);
    ConstNames(7);
    hide ConstExpr, ExprNames;
    assert StmtsNames(LastingSecond().rest) == {"b"};
  }

  lemma ScopeFinds(scope: Scoping, x: string)
    ensures x in scope ==> Lexical(scope).Find(x) == Some(scope[x])
  {
  }

  lemma LastingUses(i: nat, x: string)
    requires i < 3
    ensures ReadsUsed(PairRead(ClobberFirst(), LastingSecond(), ClobberMain())[i], LastingMeant()[i],
                      LASTING_PADS[i], x)
  {
    LastingNames();
    hide FirstTable, SecondTable, MainScope, FirstScope, SecondScope, StmtNames, GetSymbol, Hash, HashFrom,
         ClobberFirst, LastingSecond, ClobberMain, Env.Find;
    PairFinds();
    PairMeans();
    ScopeFinds(MainScope(), x);
    ScopeFinds(FirstScope(), x);
    ScopeFinds(SecondScope(), x);
  }

  lemma LastingLevels()
    ensures LevelsFit(LastingBlock().decls, 0)
  {
    hide ClobberFirst, LastingSecond, ClobberMain;
    var d := LastingBlock().decls;
    assert LevelsFit(d.block.decls, 1) && LevelsFit(d.next.block.decls, 1);
    assert LevelsFit(d.next, 0);
  }

  lemma LastingClear()
    ensures Clear(LastingBlock(), LASTING_PADS) && LevelsFit(LastingBlock().decls, 0)
  {
    LastingLevels();
    LastingIs();
    hide Elaborate, LexProgram, ReadsUsed, ClobberFirst, LastingSecond, ClobberMain, Clear, LastingBlock, LevelsFit;
    var prog, lex := PairRead(ClobberFirst(), LastingSecond(), ClobberMain()), LastingMeant();
    forall i, x | 0 <= i < 3
      ensures ReadsUsed(prog[i], lex[i], LASTING_PADS[i], x)
    {
      LastingUses(i, x);
    }
    ClearRead(LastingBlock(), LASTING_PADS, prog, lex);
  }

  lemma SecondGood(env: Env, addr: int)
    requires env.Find("b") == Some(Binding(VAR, 0, addr, 0))
    ensures GoodStmt(LastingSecond(), env) && Writable(LastingSecond()) && NeedStmt(LastingSecond()) == 1
    ensures NoCall(LastingSecond()) && NoConstWrite(LastingSecond(), env) && Tail(LastingSecond())
    ensures |CompileStmt(LastingSecond(), 0, 0, env, true)| == 5
  {
    ConstShape(7, 0, env);
    hide ConstExpr;
    var rest := LastingSecond().rest;
    assert WritableAll(NoStmts) && NeedStmts(NoStmts) == 0 && NoConstWriteAll(NoStmts, env) && NoCallAll(NoStmts);
    assert GoodStmts(rest, env) && WritableAll(rest) && NeedStmts(rest) == 1;
    assert NoCall(rest.stmt) && NoCallAll(rest.next);
    assert NoConstWriteAll(rest, env) && NoCallAll(rest);
    assert |CompileStmts(rest, 2, 0, env, true)| == 2;
  }

  lemma OthersGood()
    ensures NoConstWrite(ClobberMain(), Lexical(MainScope())) && NoConstWrite(ClobberFirst(), Lexical(FirstScope()))
    ensures Tail(ClobberFirst())
  {
  }

  lemma LastingGood()
    ensures WellTyped(LastingMeant()) && RegistersFit(LastingMeant()) && TailProgram(LastingMeant())
    ensures WellFormedBlock(LastingBlock(), 0)
  {
    hide MainScope, FirstScope, SecondScope, Env.Find, GoodStmt, NeedStmt, Writable, ClobberFirst, LastingSecond,
         ClobberMain, NoCall, NoConstWrite, Tail;
    PairMeans();
    GoodFirst(Lexical(FirstScope()));
    SecondGood(Lexical(SecondScope()), 4);
    GoodMain(Lexical(MainScope()));
    OthersGood();
    LastingOrdered();
  }

  lemma LastingLeafy()
    ensures Leafy(LastingMeant(), LASTING_PADS)
  {
    SecondGood(Lexical(SecondScope()), 4) by { PairMeans(); }
    hide ClobberFirst, LastingSecond, ClobberMain, NoCall;
  }

  lemma LastingOrdered()
    requires Writable(ClobberFirst()) && Writable(LastingSecond()) && Writable(ClobberMain())
    ensures WellFormedBlock(LastingBlock(), 0)
  {
    var d := LastingBlock().decls;
    assert ClobberFirst() != Empty && LastingSecond() != Empty;
    hide ClobberFirst, LastingSecond, ClobberMain;
    assert Ordered(NoDecls, 2) && Ordered(d.next, 2) && Ordered(d, 0);
    assert WellFormedBlock(d.block, 1) && WellFormedBlock(d.next.block, 1);
    assert WellFormed(d.next, 0);
  }

  lemma LastingSupported()
    ensures Supported(LastingBlock(), LASTING_PADS)
  {
    hide Clear, WellFormedBlock, WellTyped, RegistersFit, Leafy, TailProgram, LexProgram, Elaborate;
    LastingIs();
    LastingGood();
    LastingLeafy();
    LastingClear();
    LexLexical(LastingBlock());
  }

  // ---------- its code ----------

  function LastingRead(): Prog {
    [Proc(0, 0, 0, Lexical(ReadMain()), ClobberMain()),
     Proc(1, 0, 1, Lexical(ReadFirst()), ClobberFirst()),
     Proc(1, 0, 2, Lexical(ReadSecond()), LastingSecond())]
  }

  lemma LastingReads()
    ensures TableReads(LastingBlock(), LASTING_PADS, LastingRead())
    ensures |LastingRead()| == 3 && CodeSize(LastingRead(), 0) == 13
  {
    hide FirstTable, SecondTable, ReadMain, ReadFirst, ReadSecond, Refines, GoodStmt, NeedStmt, NoCall, ClobberFirst,
         LastingSecond, ClobberMain, WellFormedBlock, LastingBlock, Elaborate, Env.Find, CompileStmt, ClobberCode;
    LastingIs();
    ClobberRefines();
    LastingGood();
    ReadFinds();
    GoodFirst(Lexical(ReadFirst()));
    SecondGood(Lexical(ReadSecond()), 5);
    GoodMain(Lexical(ReadMain()));
    CodeMain(Lexical(ReadMain()), 0);
    CodeFirst(Lexical(ReadFirst()), 0);
    CodeFacts();
    var prog := LastingRead();
    assert CodeSize(prog, 3) == 0 && CodeSize(prog, 2) == 6 && CodeSize(prog, 1) == 10;
  }

  lemma LastingLength()
    ensures |CompiledCode(RenderProgram(LastingBlock()))| == 16
  {
    hide TableReads, LastingBlock, LastingRead, RenderProgram, ParseProgram, CompiledCode, CodeSize;
    LastingReads();
    ReadingParses(LastingBlock(), LASTING_PADS, LastingRead());
    ReadingLength(RenderProgram(LastingBlock()), LastingBlock(), LASTING_PADS, LastingRead());
  }

  // ---------- its run ----------

  lemma LastingBody()
    ensures Exec(LastingMeant(), STANDARD, LastingSecond(), 2, QStore(None, [], 2), 0) == Done(QStore(Some(7), [7], 2))
  {
    hide ClobberFirst, ClobberMain;
    var prog, st, body := LastingMeant(), QStore(None, [], 2), LastingSecond();
    var st1, last := QStore(Some(7), [], 2), QStore(Some(7), [7], 2);
    ConstValue(7, prog[2].env, st.frames);
    hide ConstExpr;
    assert SetVar(st.frames, 1, 0, 7)[1].vars == [Some(7)];
    assert [] + [7] == [7];
    assert Exec(prog, STANDARD, body.first, 2, st, 0) == Done(st1);
    assert Exec(prog, STANDARD, Write("b"), 2, st1, 0) == Done(last);
    assert ExecAll(prog, STANDARD, NoStmts, 2, last, 0) == Done(last);
    assert ExecAll(prog, STANDARD, body.rest, 2, st1, 0) == Done(last);
  }

  lemma LastingCall()
    ensures Exec(LastingMeant(), STANDARD, Stmt.Call("q"), 0, MainStore([], 1), 1) == Done(MainStore([7], 2))
  {
    LastingBody();
    var prog, st := LastingMeant(), MainStore([], 1);
    assert Returning(LastingSecond(), prog[2].env, QStore(None, [], 2).frames);
    hide ClobberFirst, LastingSecond, ClobberMain, Returning;
    assert NewFrame(2, 0, 1).vars == [None];
    assert Enter(prog, STANDARD, "q", prog[0].env, st) == Done(QStore(None, [], 2));
    assert QStore(Some(7), [7], 2).frames[..1] == MainStore([7], 2).frames;
  }

  lemma LastingExec()
    ensures ExecProgram(LastingMeant(), STANDARD, [], 1) == Done(MainStore([7], 2))
  {
    LastingCall();
    var prog := LastingMeant();
    assert InitStore(prog, []).frames[0].vars == [];
    assert InitStore(prog, []) == MainStore([], 1);
    assert prog[0].body == ClobberMain();
    hide LastingMeant, Enter, Leave, MainStore, InitStore;
    assert ExecAll(prog, STANDARD, NoStmts, 0, MainStore([7], 2), 1) == Done(MainStore([7], 2));
  }

  /** PL/0 writes 7, and so does the machine. */
  lemma LastingRuns() returns (s': State)
    ensures var code := CompiledCode(RenderProgram(LastingBlock()));
            Reaches(code, InitState([]), s') && s'.status == IDLE && s'.output == [7]
  {
    hide LexProgram, RenderProgram, Supported, CompiledCode, ExecProgram, LastingBlock, LastingMeant;
    LastingSupported();
    LastingIs();
    LastingExec();
    LastingLength();
    s' := CompilesPl0(LastingBlock(), LASTING_PADS, [], 1);
  }
}
