/**
  A program whose second procedure finds its level's offset used up by the first: its variable
  lies where the next call writes the header of a record.
 */
module Clobber {
  import opened Common
  import opened Machine
  import opened Syntax
  import opened Symbols
  import opened Compile
  import opened Semantics
  import opened Registers
  import opened Emission
  import opened StmtCorrect
  import opened Parsing
  import opened Programs
  import opened RoundTrip
  import opened RoundTripProgram
  import opened Standard
  import opened Scope
  import opened Naming
  import opened Overhang
  import opened Compiler
  import opened ExprCorrect
  import opened Linked
  import opened Readings
  import opened OneProc
  import opened Neighbours

  function ClobberFirst(): Stmt {
    Begin(Assign("a", ConstExpr(1)), NoStmts)
  }

  function ClobberSecond(): Stmt {
    Begin(Assign("b", ConstExpr(7)), MoreStmts(Stmt.Call("p"), MoreStmts(Write("b"), NoStmts)))
  }

  function ClobberMain(): Stmt {
    Begin(Stmt.Call("q"), NoStmts)
  }

  /**
    procedure p; var a; begin a := 1 end;
    procedure q; var b; begin b := 7; call p; write b end;
    begin call q end.
   */
  function ClobberBlock(): Block {
    PairBlock(ClobberFirst(), ClobberSecond(), ClobberMain())
  }

  /** In PL/0. */
  function ClobberMeant(): Prog {
    PairProgram(ClobberFirst(), ClobberSecond(), ClobberMain())
  }

  function ReadFirst(): Scoping {
    map["a" := Binding(VAR, 0, 4, 0)]
  }

  function ReadSecond(): Scoping {
    map["b" := Binding(VAR, 0, 5, 0), "p" := Binding(PROC, 1, 1, 0)]
  }

  function ReadMain(): Scoping {
    map["q" := Binding(PROC, 0, 2, 0)]
  }

  /** As the table has it, with the names the bodies use. */
  function ClobberProgram(): Prog {
    [Proc(0, 0, 0, Lexical(ReadMain()), ClobberMain()),
     Proc(1, 0, 1, Lexical(ReadFirst()), ClobberFirst()),
     Proc(1, 0, 1, Lexical(ReadSecond()), ClobberSecond())]
  }

  lemma ClobberIs()
    ensures LexProgram(ClobberBlock()) == ClobberMeant() && |ClobberMeant()| == 3 && |ClobberProgram()| == 3
    ensures Elaborate(ClobberBlock()) == PairRead(ClobberFirst(), ClobberSecond(), ClobberMain())
  {
    PairMeaning(ClobberFirst(), ClobberSecond(), ClobberMain());
    PairElab(ClobberFirst(), ClobberSecond(), ClobberMain());
  }

  lemma ReadKeys(x: string)
    ensures x in ReadMain() <==> x == "q"
    ensures x in ReadFirst() <==> x == "a"
    ensures x in ReadSecond() <==> x == "b" || x == "p"
    ensures x in ReadMain() ==> Lexical(ReadMain()).Find(x) == Some(Binding(PROC, 0, 2, 0))
    ensures x in ReadFirst() ==> Lexical(ReadFirst()).Find(x) == Some(Binding(VAR, 0, 4, 0))
    ensures x == "b" ==> Lexical(ReadSecond()).Find(x) == Some(Binding(VAR, 0, 5, 0))
    ensures x == "p" ==> Lexical(ReadSecond()).Find(x) == Some(Binding(PROC, 1, 1, 0))
    ensures x !in ReadMain() ==> Lexical(ReadMain()).Find(x) == None
    ensures x !in ReadFirst() ==> Lexical(ReadFirst()).Find(x) == None
    ensures x !in ReadSecond() ==> Lexical(ReadSecond()).Find(x) == None
  {
  }

  lemma ClobberRefines()
    ensures Refines(FromTable(SecondTable(), 0), Lexical(ReadMain()))
    ensures Refines(FromTable(FirstTable(), 1), Lexical(ReadFirst()))
    ensures Refines(FromTable(SecondTable(), 1), Lexical(ReadSecond()))
  {
    hide FirstTable, SecondTable, ReadMain, ReadFirst, ReadSecond, GetSymbol, Hash, HashFrom, Env.Find;
    PairFinds();
    forall x {
      ReadKeys(x);
    }
  }

  // ---------- its code ----------

  lemma GoodFirst(env: Env)
    requires env.Find("a") == Some(Binding(VAR, 0, 4, 0))
    ensures GoodStmt(ClobberFirst(), env) && Writable(ClobberFirst()) && NeedStmt(ClobberFirst()) == 1
  {
    ConstShape(1, 0, env);
    hide ConstExpr;
    assert GoodStmts(NoStmts, env) && WritableAll(NoStmts) && NeedStmts(NoStmts) == 0;
  }

  lemma GoodSecond(env: Env)
    requires env.Find("b") == Some(Binding(VAR, 0, 5, 0)) && env.Find("p") == Some(Binding(PROC, 1, 1, 0))
    ensures GoodStmt(ClobberSecond(), env) && Writable(ClobberSecond()) && NeedStmt(ClobberSecond()) == 1
  {
    ConstShape(7, 0, env);
    hide ConstExpr;
    var rest := ClobberSecond().rest;
    assert GoodStmts(rest.next, env) && GoodStmts(rest, env);
    assert WritableAll(rest.next) && WritableAll(rest);
    assert NeedStmts(rest.next) == 1 && NeedStmts(rest) == 1;
  }

  lemma GoodMain(env: Env)
    requires env.Find("q") == Some(Binding(PROC, 0, 2, 0))
    ensures GoodStmt(ClobberMain(), env) && Writable(ClobberMain()) && NeedStmt(ClobberMain()) == 0
  {
    assert GoodStmts(NoStmts, env) && WritableAll(NoStmts) && NeedStmts(NoStmts) == 0;
  }

  lemma ReadFinds()
    ensures Lexical(ReadMain()).Find("q") == Some(Binding(PROC, 0, 2, 0))
    ensures Lexical(ReadFirst()).Find("a") == Some(Binding(VAR, 0, 4, 0))
    ensures Lexical(ReadSecond()).Find("b") == Some(Binding(VAR, 0, 5, 0))
    ensures Lexical(ReadSecond()).Find("p") == Some(Binding(PROC, 1, 1, 0))
  {
  }

  lemma ClobberGood()
    ensures WellTyped(ClobberProgram()) && RegistersFit(ClobberProgram())
    ensures Writable(ClobberFirst()) && Writable(ClobberSecond()) && Writable(ClobberMain())
  {
    hide ReadMain, ReadFirst, ReadSecond, Env.Find, GoodStmt, NeedStmt, Writable, ClobberFirst, ClobberSecond,
         ClobberMain;
    ReadFinds();
    GoodFirst(Lexical(ReadFirst()));
    GoodSecond(Lexical(ReadSecond()));
    GoodMain(Lexical(ReadMain()));
  }

  lemma ClobberOrdered()
    requires Writable(ClobberFirst()) && Writable(ClobberSecond()) && Writable(ClobberMain())
    ensures WellFormedBlock(ClobberBlock(), 0)
  {
    var d := ClobberBlock().decls;
    assert ClobberFirst() != Empty && ClobberSecond() != Empty;
    hide ClobberFirst, ClobberSecond, ClobberMain;
    assert Ordered(NoDecls, 2) && Ordered(d.next, 2) && Ordered(d, 0);
    assert WellFormedBlock(d.block, 1) && WellFormedBlock(d.next.block, 1);
    assert WellFormed(d.next, 0);
  }

  lemma ClobberReads()
    ensures TableReads(ClobberBlock(), NoPads(3), ClobberProgram())
  {
    hide FirstTable, SecondTable, ReadMain, ReadFirst, ReadSecond, Refines, WellTyped, RegistersFit, NoCall,
         ClobberFirst, ClobberSecond, ClobberMain, WellFormedBlock, ClobberBlock, Elaborate, Writable;
    ClobberIs();
    ClobberRefines();
    ClobberGood();
    ClobberOrdered();
  }

  /** The code of the three procedures, wherever it starts. */
  function ClobberCode(i: nat): seq<Instruction>
    requires i < 3
  {
    if i == 0 then
      [Instruction(INC, 0, 0, 4), Instruction(CAL, 0, 0, 2), Instruction(SIO, 0, 0, 3)]
    else if i == 1 then
      [Instruction(INC, 0, 0, 5), Instruction(LIT, 0, 0, 1), Instruction(STO, 0, 0, 4), Instruction(RTN, 0, 0, 0)]
    else
      [Instruction(INC, 0, 0, 5), Instruction(LIT, 0, 0, 7), Instruction(STO, 0, 0, 5), Instruction(CAL, 0, 1, 1),
       Instruction(LOD, 0, 0, 5), Instruction(SIO, 0, 0, 1), Instruction(RTN, 0, 0, 0)]
  }

  lemma CodeFirst(env: Env, at: int)
    requires env.Find("a") == Some(Binding(VAR, 0, 4, 0))
    ensures CompileStmt(ClobberFirst(), at, 0, env, true) == ClobberCode(1)[1..]
  {
    ConstShape(1, 0, env);
    hide ConstExpr;
    assert CompileStmt(ClobberFirst().first, at, 0, env, true)
           == [Instruction(LIT, 0, 0, 1), Instruction(STO, 0, 0, 4)];
    assert CompileStmts(NoStmts, at + 2, 0, env, true) == [];
  }

  lemma CodeSecond(env: Env, at: int)
    requires env.Find("b") == Some(Binding(VAR, 0, 5, 0)) && env.Find("p") == Some(Binding(PROC, 1, 1, 0))
    ensures CompileStmt(ClobberSecond(), at, 0, env, true) == ClobberCode(2)[1..]
  {
    ConstShape(7, 0, env);
    hide ConstExpr;
    var body := ClobberSecond();
    var load, write, call := Instruction(LOD, 0, 0, 5), Instruction(SIO, 0, 0, 1), Instruction(CAL, 0, 1, 1);
    assert CompileStmt(body.first, at, 0, env, true) == [Instruction(LIT, 0, 0, 7), Instruction(STO, 0, 0, 5)];
    assert CompileStmt(body.rest.next.stmt, at + 3, 0, env, true) == [load, write];
    assert CompileStmts(NoStmts, at + 5, 0, env, true) == [];
    assert CompileStmts(body.rest.next, at + 3, 0, env, true) == [load, write];
    assert CompileStmt(body.rest.stmt, at + 2, 0, env, true) == [call];
    assert CompileStmts(body.rest, at + 2, 0, env, true) == [call] + [load, write];
  }

  lemma CodeMain(env: Env, at: int)
    requires env.Find("q") == Some(Binding(PROC, 0, 2, 0))
    ensures CompileStmt(ClobberMain(), at, 0, env, false) == [Instruction(CAL, 0, 0, 2)]
  {
    assert CompileStmts(NoStmts, at + 1, 0, env, false) == [];
  }

  lemma ClobberCompiled(i: nat, e: int)
    requires i < 3
    ensures |ClobberProgram()| == 3 && ProcCode(ClobberProgram(), i, e) == ClobberCode(i)
  {
    hide CompileStmt, ReadMain, ReadFirst, ReadSecond, Env.Find, ClobberFirst, ClobberSecond, ClobberMain;
    ReadFinds();
    CodeMain(Lexical(ReadMain()), e + 1);
    CodeFirst(Lexical(ReadFirst()), e + 1);
    CodeSecond(Lexical(ReadSecond()), e + 1);
  }

  /** The program parsed and linked: each procedure's code is at its entry. */
  lemma ClobberLoaded() returns (entry: seq<int>)
    ensures TextOf(RenderProgram(ClobberBlock()), ClobberBlock())
    ensures Loaded(CompiledCode(RenderProgram(ClobberBlock())), ClobberProgram(), entry)
  {
    hide ParseProgram, RenderProgram, ClobberProgram, ProcCode, TableReads, ClobberBlock;
    var toks, prog := RenderProgram(ClobberBlock()), ClobberProgram();
    ClobberReads();
    ClobberSize();
    ReadingParses(ClobberBlock(), NoPads(3), prog);
    ReadingLength(toks, ClobberBlock(), NoPads(3), prog);
    ReadingHolds(toks, ClobberBlock(), prog);
    entry := LinkLoads(ParseProgram(toks).st.code, prog);
  }

  lemma ClobberSize()
    ensures |ClobberProgram()| == 3 && CodeSize(ClobberProgram(), 0) == 14
  {
    hide ProcCode;
    ClobberCompiled(0, -1);
    ClobberCompiled(1, -1);
    ClobberCompiled(2, -1);
    var prog := ClobberProgram();
    assert CodeSize(prog, 3) == 0 && CodeSize(prog, 2) == 7 && CodeSize(prog, 1) == 11;
  }

  // ---------- its run ----------

  lemma ThreeProcs()
    ensures |ClobberProgram()| == 3
  {
  }

  lemma LoadedThree(code: seq<Instruction>, entry: seq<int>)
    requires Loaded(code, ClobberProgram(), entry)
    ensures |entry| == 3
  {
  }

  lemma AtIndex(code: seq<Instruction>, e: int, seg: seq<Instruction>, k: nat)
    requires At(code, e, seg) && k < |seg|
    ensures 0 <= e + k < |code| < MAX_CODE_LENGTH && code[e + k] == seg[k]
  {
    assert code[e + k] == code[e..e + |seg|][k];
  }

  /** Instruction `k` of procedure `i`, with the machine in front of it. */
  lemma StepIn(code: seq<Instruction>, entry: seq<int>, s: State, i: nat, k: nat) returns (s': State)
    requires Loaded(code, ClobberProgram(), entry) && i < 3 && k < |ClobberCode(i)|
    requires |entry| == 3 && s.status == RUNNING && s.pc == entry[i] + k
    ensures s' == Step(code, s) == Execute(ClobberCode(i)[k], s.(pc := s.pc + 1)) && Reaches(code, s, s')
  {
    hide ProcCode, ClobberCode, ClobberProgram, Execute, At;
    ClobberCompiled(i, entry[i]);
    AtIndex(code, entry[i], ClobberCode(i), k);
    ReachStep(code, s);
    s' := Step(code, s);
  }

  /** Two steps, from the jump-table entry over INC. */
  lemma IntoBody(code: seq<Instruction>, entry: seq<int>, s: State, i: nat) returns (s': State)
    requires Loaded(code, ClobberProgram(), entry) && i < 3 && |entry| == 3
    requires s.status == RUNNING && s.pc == i
    ensures s' == s.(pc := entry[i] + 1, sp := s.sp + if i == 0 then 4 else 5) && Reaches(code, s, s')
  {
    hide ProcCode, Placed, ClobberProgram, ClobberCode, At;
    LoadedPlaced(code, ClobberProgram(), entry);
    ThreeProcs();
    s' := TrampolineRun(code, ClobberProgram(), entry, s, i);
    ClobberCompiled(i, entry[i]);
    CodeFacts();
    AtIndex(code, entry[i], ClobberCode(i), 0);
  }

  lemma RunsOn(code: seq<Instruction>, a: State, b: State, c: State)
    requires Reaches(code, a, b) && Reaches(code, b, c)
    ensures Reaches(code, a, c)
  {
    ReachTrans(code, a, b, c);
  }

  /** From the start to q's first statement: q's record is in cells 5 to 9. */
  lemma RunToQ(code: seq<Instruction>, entry: seq<int>) returns (s': State)
    requires Loaded(code, ClobberProgram(), entry)
    ensures Reaches(code, InitState([]), s') && s'.status == RUNNING && s'.output == []
    ensures s'.pc == entry[2] + 1 && s'.bp == 5 && s'.sp == 9 && s'.frameLevel == 1
    ensures |s'.regs| == COMMON_REGISTER_NUMBER && |s'.stack| == MAX_STACK_HEIGHT
    ensures s'.stack[6] == 1 && s'.stack[7] == 1 && s'.stack[8] == entry[0] + 2
  {
    hide Loaded, ClobberProgram, Step, ClobberCode;
    LoadedThree(code, entry);
    var s := InitState([]);
    var s1 := IntoBody(code, entry, s, 0);
    CodeFacts();
    var s2 := StepIn(code, entry, s1, 0, 1);
    s' := IntoBody(code, entry, s2, 2);
    RunsOn(code, s, s1, s2);
    RunsOn(code, s, s2, s');
  }

  lemma CodeFacts()
    ensures |ClobberCode(0)| == 3 && |ClobberCode(1)| == 4 && |ClobberCode(2)| == 7
    ensures ClobberCode(0)[0].m == 4 && ClobberCode(1)[0].m == 5 && ClobberCode(2)[0].m == 5
    ensures ClobberCode(0)[1] == Instruction(CAL, 0, 0, 2) && ClobberCode(0)[2] == Instruction(SIO, 0, 0, 3)
    ensures ClobberCode(1)[1] == Instruction(LIT, 0, 0, 1) && ClobberCode(1)[2] == Instruction(STO, 0, 0, 4)
    ensures ClobberCode(1)[3] == Instruction(RTN, 0, 0, 0)
    ensures ClobberCode(2)[1] == Instruction(LIT, 0, 0, 7) && ClobberCode(2)[2] == Instruction(STO, 0, 0, 5)
    ensures ClobberCode(2)[3] == Instruction(CAL, 0, 1, 1) && ClobberCode(2)[4] == Instruction(LOD, 0, 0, 5)
    ensures ClobberCode(2)[5] == Instruction(SIO, 0, 0, 1) && ClobberCode(2)[6] == Instruction(RTN, 0, 0, 0)
  {
  }

  /** b := 7 puts 7 in cell 10, which is sp + 1; call p makes it 0 again. */
  lemma RunToP(code: seq<Instruction>, entry: seq<int>, s: State) returns (s': State)
    requires Loaded(code, ClobberProgram(), entry) && s.status == RUNNING && s.output == []
    requires |entry| == 3 && s.pc == entry[2] + 1 && s.bp == 5 && s.sp == 9 && s.frameLevel == 1
    requires |s.regs| == COMMON_REGISTER_NUMBER && |s.stack| == MAX_STACK_HEIGHT && s.stack[6] == 1
    ensures Reaches(code, s, s') && s'.status == RUNNING && s'.output == []
    ensures s'.pc == entry[1] + 1 && s'.bp == 10 && s'.sp == 14 && s'.frameLevel == 2
    ensures |s'.regs| == COMMON_REGISTER_NUMBER && |s'.stack| == MAX_STACK_HEIGHT
    ensures s'.stack[..10] == s.stack[..10]
    ensures s'.stack[10] == 0 && s'.stack[12] == 5 && s'.stack[13] == entry[2] + 4
  {
    hide Loaded, ClobberProgram, Step, ClobberCode;
    CodeFacts();
    var s1 := StepIn(code, entry, s, 2, 1);
    var s2 := StepIn(code, entry, s1, 2, 2);
    assert Address(s1.stack, 0, 5, 5) == Some(10);
    assert s2.stack == s.stack[10 := 7];
    var zeroed := s2.stack[10 := 0];
    assert Base(zeroed, 1, 5) == Base(zeroed, 0, zeroed[6]) == Some(1);
    var s3 := StepIn(code, entry, s2, 2, 3);
    assert s3.stack == zeroed[11 := 1][12 := 5][13 := entry[2] + 4];
    s' := IntoBody(code, entry, s3, 1);
    RunsOn(code, s, s1, s2);
    RunsOn(code, s, s2, s3);
    RunsOn(code, s, s3, s');
  }

  /** p does its work above and returns. */
  lemma RunBack(code: seq<Instruction>, entry: seq<int>, s: State) returns (s': State)
    requires Loaded(code, ClobberProgram(), entry) && s.status == RUNNING && s.output == []
    requires |entry| == 3 && s.pc == entry[1] + 1 && s.bp == 10 && s.sp == 14 && s.frameLevel == 2
    requires |s.regs| == COMMON_REGISTER_NUMBER && |s.stack| == MAX_STACK_HEIGHT
    requires s.stack[10] == 0 && s.stack[12] == 5 && s.stack[13] == entry[2] + 4
    ensures Reaches(code, s, s') && s'.status == RUNNING && s'.output == []
    ensures s'.pc == entry[2] + 4 && s'.bp == 5 && s'.sp == 9 && s'.frameLevel == 1
    ensures |s'.regs| == COMMON_REGISTER_NUMBER && |s'.stack| == MAX_STACK_HEIGHT
    ensures s'.stack[..11] == s.stack[..11]
  {
    hide Loaded, ClobberProgram, Step, ClobberCode;
    CodeFacts();
    var s1 := StepIn(code, entry, s, 1, 1);
    var s2 := StepIn(code, entry, s1, 1, 2);
    assert Address(s1.stack, 0, 10, 4) == Some(14);
    assert s2.stack == s.stack[14 := 1];
    s' := StepIn(code, entry, s2, 1, 3);
    RunsOn(code, s, s1, s2);
    RunsOn(code, s, s2, s');
  }

  /** write b writes cell 10; then q returns and the program halts. */
  lemma RunToEnd(code: seq<Instruction>, entry: seq<int>, s: State) returns (s': State)
    requires Loaded(code, ClobberProgram(), entry) && s.status == RUNNING && s.output == []
    requires |entry| == 3 && s.pc == entry[2] + 4 && s.bp == 5 && s.frameLevel == 1
    requires |s.regs| == COMMON_REGISTER_NUMBER && |s.stack| == MAX_STACK_HEIGHT
    requires s.stack[7] == 1 && s.stack[8] == entry[0] + 2
    ensures Reaches(code, s, s') && s'.status == IDLE && s'.output == [s.stack[10]]
  {
    hide Loaded, ClobberProgram, Step, ClobberCode;
    CodeFacts();
    assert Address(s.stack, 0, 5, 5) == Some(10);
    var s1 := StepIn(code, entry, s, 2, 4);
    var s2 := StepIn(code, entry, s1, 2, 5);
    assert [] + [s.stack[10]] == [s.stack[10]];
    var s3 := StepIn(code, entry, s2, 2, 6);
    s' := StepIn(code, entry, s3, 0, 2);
    RunsOn(code, s, s1, s2);
    RunsOn(code, s, s2, s3);
    RunsOn(code, s, s3, s');
  }

  // ---------- its meaning ----------

  /** The stores of the run: q's variable, and p's while it is open. */
  function QStore(b: Option<int>, output: seq<int>, peak: nat): Store {
    Store([Frame(0, 0, []), Frame(2, 0, [b])], [], output, peak, false)
  }

  function PStore(b: Option<int>, a: Option<int>): Store {
    Store([Frame(0, 0, []), Frame(2, 0, [b]), Frame(1, 0, [a])], [], [], 3, false)
  }

  lemma MeantP(b: Option<int>)
    ensures Exec(ClobberMeant(), STANDARD, Stmt.Call("p"), 2, QStore(b, [], 2), 1) == Done(QStore(b, [], 3))
  {
    var prog, st := ClobberMeant(), QStore(b, [], 2);
    assert Hop(st.frames, 1, 1) == Some(0);
    assert NewFrame(1, 0, 1).vars == [None];
    assert Enter(prog, STANDARD, "p", prog[2].env, st) == Done(PStore(b, None));
    ConstValue(1, prog[1].env, PStore(b, None).frames);
    assert SetVar(PStore(b, None).frames, 2, 0, 1)[2].vars == [Some(1)];
    var last := PStore(b, Some(1));
    assert Exec(prog, STANDARD, ClobberFirst().first, 1, PStore(b, None), 0) == Done(last);
    assert ExecAll(prog, STANDARD, NoStmts, 1, last, 0) == Done(last);
    assert last.frames[..2] == QStore(b, [], 3).frames;
  }

  lemma MeantSteps()
    ensures Exec(ClobberMeant(), STANDARD, ClobberSecond().first, 2, QStore(None, [], 2), 1)
            == Done(QStore(Some(7), [], 2))
    ensures Exec(ClobberMeant(), STANDARD, Write("b"), 2, QStore(Some(7), [], 3), 1) == Done(QStore(Some(7), [7], 3))
  {
    hide Enter, Leave;
    var prog, st := ClobberMeant(), QStore(None, [], 2);
    ConstValue(7, prog[2].env, st.frames);
    hide ConstExpr;
    assert SetVar(st.frames, 1, 0, 7)[1].vars == [Some(7)];
    assert [] + [7] == [7];
  }

  lemma MeantQ()
    ensures Exec(ClobberMeant(), STANDARD, ClobberSecond(), 2, QStore(None, [], 2), 1) == Done(QStore(Some(7), [7], 3))
  {
    hide Enter, Leave, QStore, Store1, WriteValue, EvalExpr, ClobberMeant, ConstExpr;
    MeantSize();
    var prog := ClobberMeant();
    MeantSteps();
    MeantP(Some(7));
    var last, rest := QStore(Some(7), [7], 3), ClobberSecond().rest;
    assert ExecAll(prog, STANDARD, NoStmts, 2, last, 1) == Done(last);
    assert ExecAll(prog, STANDARD, rest.next, 2, QStore(Some(7), [], 3), 1) == Done(last);
    assert ExecAll(prog, STANDARD, rest, 2, QStore(Some(7), [], 2), 1) == Done(last);
  }

  lemma MeantSize()
    ensures |ClobberMeant()| == 3
  {
  }

  lemma MeantCall()
    ensures Exec(ClobberMeant(), STANDARD, Stmt.Call("q"), 0, MainStore([], 1), 2) == Done(MainStore([7], 3))
  {
    MeantQ();
    var prog, st := ClobberMeant(), MainStore([], 1);
    assert Returning(ClobberSecond(), prog[2].env, QStore(None, [], 2).frames);
    hide ClobberFirst, ClobberSecond, ClobberMain, Returning;
    assert NewFrame(2, 0, 1).vars == [None];
    assert Enter(prog, STANDARD, "q", prog[0].env, st) == Done(QStore(None, [], 2));
    assert QStore(Some(7), [7], 3).frames[..1] == MainStore([7], 3).frames;
  }

  function MainStore(output: seq<int>, peak: nat): Store {
    Store([Frame(0, 0, [])], [], output, peak, false)
  }

  lemma MeantMain()
    ensures var o := ExecProgram(ClobberMeant(), STANDARD, [], 2); o.Done? && o.st.output == [7]
  {
    MeantCall();
    var prog := ClobberMeant();
    assert InitStore(prog, []).frames[0].vars == [];
    assert InitStore(prog, []) == MainStore([], 1);
    assert prog[0].body == ClobberMain();
    hide ClobberMeant, Enter, Leave, MainStore, InitStore;
    assert ExecAll(prog, STANDARD, NoStmts, 0, MainStore([7], 3), 2) == Done(MainStore([7], 3));
    assert MainStore([7], 3).output == [7] by { MainWrote(); }
  }

  lemma MainWrote()
    ensures MainStore([7], 3).output == [7]
  {
  }

  /** PL/0 writes 7; parsed, compiled and run, the program halts having written 0. */
  lemma ClobberDeviates() returns (s': State)
    ensures var o := ExecProgram(LexProgram(ClobberBlock()), STANDARD, [], 2); o.Done? && o.st.output == [7]
    ensures TextOf(RenderProgram(ClobberBlock()), ClobberBlock())
    ensures Reaches(CompiledCode(RenderProgram(ClobberBlock())), InitState([]), s') && s'.status == IDLE
            && s'.output == [0]
  {
    hide ParseProgram, RenderProgram, CompiledCode, ClobberProgram, ExecProgram, LexProgram, ClobberBlock,
         ClobberMeant, Loaded, InitState;
    ClobberIs();
    MeantMain();
    var entry := ClobberLoaded();
    var code := CompiledCode(RenderProgram(ClobberBlock()));
    LoadedThree(code, entry);
    var s1 := RunToQ(code, entry);
    var s2 := RunToP(code, entry, s1);
    var s3 := RunBack(code, entry, s2);
    assert s3.stack[7] == s3.stack[..11][7] == s2.stack[..11][7] == s2.stack[..10][7] == s1.stack[..10][7];
    assert s3.stack[8] == s3.stack[..11][8] == s2.stack[..11][8] == s2.stack[..10][8] == s1.stack[..10][8];
    assert s3.stack[10] == s3.stack[..11][10] == s2.stack[..11][10];
    s' := RunToEnd(code, entry, s3);
    RunsOn(code, InitState([]), s1, s2);
    RunsOn(code, InitState([]), s2, s3);
    RunsOn(code, InitState([]), s3, s');
  }
}
