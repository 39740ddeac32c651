/**
  A program that uses a name of its own behind a procedure that has declared it again: the table
  still holds the declaration of the closed procedure, and answers with that.
 */
module Leak {
  import opened Common
  import opened Machine
  import opened Syntax
  import opened Symbols
  import opened Compile
  import opened Semantics
  import opened Registers
  import opened Emission
  import opened StmtCorrect
  import opened Parsing
  import opened Programs
  import opened RoundTrip
  import opened RoundTripProgram
  import opened Standard
  import opened Scope
  import opened Naming
  import opened Overhang
  import opened Compiler
  import opened Readings
  import opened OneProc
  import opened Siblings

  function LeakInner(): Stmt {
    Begin(Empty, NoStmts)
  }

  function LeakOther(): Stmt {
    Begin(Assign("a", ConstExpr(1)), NoStmts)
  }

  function LeakMain(): Stmt {
    Begin(Stmt.Call("q"), MoreStmts(Write("a"), NoStmts))
  }

  /** var a; procedure p; var a; begin end; procedure q; begin a := 1 end; begin call q; write a end. */
  function LeakBlock(): Block {
    SiblingBlock(LeakInner(), LeakOther(), LeakMain())
  }

  /** In PL/0. */
  function LeakMeant(): Prog {
    SiblingProgram(LeakInner(), LeakOther(), LeakMain())
  }

  function TakenScope(): Scoping {
    map["a" := Binding(VAR, 0, 4, 0)]
  }

  /** As the table has it: q has a variable of its own, behind its record. */
  function LeakRead(): Prog {
    [Proc(0, 0, 1, Lexical(MainScope()), LeakMain()),
     Proc(1, 0, 1, Lexical(map[]), LeakInner()),
     Proc(1, 0, 1, Lexical(TakenScope()), LeakOther())]
  }

  const LEAK_PADS: Pads := [0, 0, 1]

  lemma LeakIs()
    ensures LexProgram(LeakBlock()) == LeakMeant() && |LeakMeant()| == 3
    ensures Elaborate(LeakBlock()) == SiblingRead(LeakInner(), LeakOther(), LeakMain())
  {
    SiblingMeaning(LeakInner(), LeakOther(), LeakMain());
    SiblingElab(LeakInner(), LeakOther(), LeakMain());
  }

  lemma MainKeys(x: string)
    ensures x in MainScope() <==> x == "a" || x == "p" || x == "q"
    ensures x in TakenScope() <==> x == "a"
    ensures Lexical(MainScope()).Find(x) == if x in MainScope() then Some(MainScope()[x]) else None
    ensures Lexical(TakenScope()).Find(x) == if x in TakenScope() then Some(TakenScope()[x]) else None
    ensures Lexical(map[]).Find(x) == None
    ensures TakenScope()["a"] == Binding(VAR, 0, 4, 0)
  {
  }

  lemma LeakRefines()
    ensures Refines(FromTable(SecondTable(), 0), Lexical(MainScope()))
    ensures Refines(FromTable(FirstTable(), 1), Lexical(map[]))
    ensures Refines(FromTable(SecondTable(), 1), Lexical(TakenScope()))
  {
    hide FirstTable, SecondTable, MainScope, TakenScope, GetSymbol, Hash, HashFrom, Env.Find;
    SiblingFinds();
    SiblingMeans();
    forall x {
      MainKeys(x);
    }
  }

  lemma LeakGood()
    ensures WellTyped(LeakRead()) && RegistersFit(LeakRead()) && Leafy(LeakRead(), LEAK_PADS)
    ensures Writable(LeakMain())
  {
    var out, taken := Lexical(MainScope()), Lexical(TakenScope());
    ConstShape(1, 0, taken);
    hide ConstExpr;
    var rest := LeakMain().rest;
    assert GoodStmts(rest, out) && NeedStmts(rest) == 1 && WritableAll(rest);
    assert GoodStmt(LeakMain(), out) && NeedStmt(LeakMain()) == 1;
    assert GoodStmt(LeakInner(), Lexical(map[])) && NeedStmt(LeakInner()) == 0;
    assert GoodStmt(LeakOther(), taken) && NeedStmt(LeakOther()) == 1 && NoCall(LeakOther());
  }

  lemma LeakOrdered()
    requires Writable(LeakMain())
    ensures WellFormedBlock(LeakBlock(), 0)
  {
    hide LeakMain;
    var d := LeakBlock().decls;
    assert Ordered(NoDecls, 2) && Ordered(d.next.next, 2) && Ordered(d.next, 1) && Ordered(d, 0);
    assert WellFormedBlock(d.next.block, 1) && WellFormedBlock(d.next.next.block, 1);
    assert WellFormed(d.next.next, 0) && WellFormed(d.next, 0);
  }

  lemma LeakReads()
    ensures TableReads(LeakBlock(), LEAK_PADS, LeakRead())
  {
    hide FirstTable, SecondTable, MainScope, TakenScope, Refines, WellTyped, RegistersFit, Leafy, LeakInner,
         LeakOther, LeakMain, WellFormedBlock, LeakBlock, Elaborate, Writable;
    LeakIs();
    LeakRefines();
    LeakGood();
    LeakOrdered();
  }

  // ---------- its two runs ----------

  function LeakStore(a: int, output: seq<int>, peak: nat): Store {
    Store([Frame(0, 0, [Some(a)])], [], output, peak, false)
  }

  lemma MeantCall()
    ensures Exec(LeakMeant(), STANDARD, Stmt.Call("q"), 0, LeakStore(0, [], 1), 1) == Done(LeakStore(1, [], 2))
  {
    hide LeakMain, LeakInner;
    var prog, st := LeakMeant(), LeakStore(0, [], 1);
    var st1 := Store([Frame(0, 0, [Some(0)]), Frame(2, 0, [])], [], [], 2, false);
    var st2 := Store([Frame(0, 0, [Some(1)]), Frame(2, 0, [])], [], [], 2, false);
    assert NewFrame(2, 0, 0).vars == [];
    assert Enter(prog, STANDARD, "q", prog[0].env, st) == Done(st1);
    ConstValue(1, prog[2].env, st1.frames);
    assert Hop(st1.frames, 1, 1) == Some(0);
    assert SetVar(st1.frames, 0, 0, 1)[0].vars == [Some(1)];
    assert Exec(prog, STANDARD, LeakOther().first, 2, st1, 0) == Done(st2);
    assert ExecAll(prog, STANDARD, NoStmts, 2, st2, 0) == Done(st2);
    assert st2.frames[..1] == LeakStore(1, [], 2).frames;
  }

  lemma ReadCall()
    ensures Exec(LeakRead(), IMPLEMENTED, Stmt.Call("q"), 0, LeakStore(0, [], 1), 1) == Done(LeakStore(0, [], 2))
  {
    hide LeakMain, LeakInner;
    var prog, st := LeakRead(), LeakStore(0, [], 1);
    var st1 := Store([Frame(0, 0, [Some(0)]), Frame(2, 0, [None])], [], [], 2, false);
    var st2 := Store([Frame(0, 0, [Some(0)]), Frame(2, 0, [Some(1)])], [], [], 2, false);
    assert NewFrame(2, 0, 1).vars == [None];
    assert st.frames[..0] == [] && Height(st.frames) == 5;
    assert Enter(prog, IMPLEMENTED, "q", prog[0].env, st) == Done(st1);
    ConstValue(1, prog[2].env, st1.frames);
    assert SetVar(st1.frames, 1, 0, 1)[1].vars == [Some(1)];
    assert Exec(prog, IMPLEMENTED, LeakOther().first, 2, st1, 0) == Done(st2);
    assert ExecAll(prog, IMPLEMENTED, NoStmts, 2, st2, 0) == Done(st2);
    assert st2.frames[..1] == LeakStore(0, [], 2).frames;
  }

  lemma LeakWrite(prog: Prog, m: Mode, a: int)
    requires prog != [] && prog[0].env == Lexical(MainScope())
    ensures Exec(prog, m, Write("a"), 0, LeakStore(a, [], 2), 1) == Done(LeakStore(a, [a], 2))
  {
    assert [] + [a] == [a];
  }

  lemma LeakFirst(prog: Prog)
    requires prog != [] && prog[0].vars == 1
    ensures InitStore(prog, []) == LeakStore(0, [], 1)
  {
    assert InitStore(prog, []).frames[0].vars == [Some(0)];
  }

  lemma LeakRuns(prog: Prog, m: Mode, a: int)
    requires prog != [] && prog[0].env == Lexical(MainScope()) && prog[0].vars == 1 && prog[0].body == LeakMain()
    requires Exec(prog, m, Stmt.Call("q"), 0, LeakStore(0, [], 1), 1) == Done(LeakStore(a, [], 2))
    ensures ExecProgram(prog, m, [], 1) == Done(LeakStore(a, [a], 2))
  {
    hide Enter, Leave, MainScope;
    LeakFirst(prog);
    LeakWrite(prog, m, a);
    var last := LeakStore(a, [a], 2);
    assert ExecAll(prog, m, NoStmts, 0, last, 1) == Done(last);
    assert ExecAll(prog, m, LeakMain().rest, 0, LeakStore(a, [], 2), 1) == Done(last);
  }

  lemma LeakSize()
    ensures |LeakRead()| == 3 && CodeSize(LeakRead(), 0) == 11
  {
    var out, taken, prog := Lexical(MainScope()), Lexical(TakenScope()), LeakRead();
    ConstShape(1, 0, taken);
    hide ConstExpr;
    assert |CompileStmts(LeakMain().rest, 1, 0, out, false)| == 2;
    assert |CompileStmt(LeakMain(), 0, 0, out, false)| == 3;
    assert |CompileStmt(LeakInner(), 0, 0, Lexical(map[]), true)| == 1;
    assert |CompileStmt(LeakOther(), 0, 0, taken, true)| == 3;
    assert CodeSize(prog, 3) == 0 && CodeSize(prog, 2) == 4 && CodeSize(prog, 1) == 6;
  }

  /** PL/0 writes 1; parsed, compiled and run, the program assigns elsewhere and writes 0. */
  lemma LeakDeviates() returns (s': State)
    ensures var o := ExecProgram(LexProgram(LeakBlock()), STANDARD, [], 1); o.Done? && o.st.output == [1]
    ensures TextOf(RenderProgram(LeakBlock()), LeakBlock())
    ensures var code := CompiledCode(RenderProgram(LeakBlock()));
            Reaches(code, InitState([]), s') && s'.status == IDLE && s'.output == [0]
  {
    hide ParseProgram, RenderProgram, CompiledCode, ExecProgram, LexProgram, LeakBlock, TableReads, MainScope,
         TakenScope;
    LeakIs();
    MeantCall();
    ReadCall();
    LeakRuns(LeakMeant(), STANDARD, 1);
    LeakRuns(LeakRead(), IMPLEMENTED, 0);
    LeakReads();
    ReadingParses(LeakBlock(), LEAK_PADS, LeakRead());
    ReadingLength(RenderProgram(LeakBlock()), LeakBlock(), LEAK_PADS, LeakRead());
    LeakSize();
    s' := ReadingRun(RenderProgram(LeakBlock()), LeakBlock(), LEAK_PADS, LeakRead(), [], 1);
  }
}
