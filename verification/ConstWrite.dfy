/** A program that writes a constant, on the machine. */
module ConstWrite {
  import opened Common
  import opened Machine
  import opened Syntax
  import opened Symbols
  import opened Compile
  import opened Semantics
  import opened Registers
  import opened Emission
  import opened ExprCorrect
  import opened StmtCorrect
  import opened Linked
  import opened Parsing
  import opened Programs
  import opened RoundTrip
  import opened RoundTripProgram
  import opened Scope
  import opened Naming
  import opened Overhang
  import opened Compiler
  import opened Readings
  import opened SmallTables

  function WriteC(): Stmt {
    Begin(Write("c"), NoStmts)
  }

  /** const c = 3; begin write c end. */
  function ConstBlock(): Block {
    Block(ConstDecl("c", 3, NoDecls), WriteC())
  }

  function ConstScope(): Scoping {
    map["c" := Binding(CONST, 0, 0, 3)]
  }

  function ConstProgram(): Prog {
    [Proc(0, 0, 0, Lexical(ConstScope()), WriteC())]
  }

  const SYM_C := Symbol("c", CONST, 3, 0, 0)

  function ConstTable(): Table {
    map[72 := [SYM_C]]
  }

  lemma ConstMeaning()
    ensures LexProgram(ConstBlock()) == ConstProgram()
  {
    assert LexDecls(NoDecls, 0, 0, 0, ConstScope(), 0) == (Lex(ConstScope(), 0), []);
    assert LexDecls(ConstBlock().decls, 0, 0, 0, map[], 0) == (Lex(ConstScope(), 0), []);
  }

  lemma ConstPut()
    ensures Hash("c") == 72 && PutSymbol(map[], SYM_C) == ConstTable()
  {
    HashOf("c", 99);
    FreePut(map[], SYM_C);
  }

  lemma ConstElab()
    ensures Elaborate(ConstBlock()) == [Proc(0, 0, 0, FromTable(ConstTable(), 0), WriteC())]
  {
    ConstPut();
    hide Hash, PutSymbol;
    var c := Counters(ConstTable(), FRESH_OFFSETS, 0);
    assert ElabDecls(NoDecls, 0, 0, c) == (c, []);
    assert ElabDecls(ConstBlock().decls, 0, 0, InitCounters()) == (c, []);
  }

  lemma ConstBucket()
    ensures 72 in ConstTable() && ConstTable()[72] == [SYM_C] && Meaning(SYM_C, 0) == Binding(CONST, 0, 0, 3)
  {
  }

  lemma ConstKeys(x: string)
    ensures x in ConstScope() <==> x == "c"
    ensures Lexical(ConstScope()).Find(x) == if x in ConstScope() then Some(Binding(CONST, 0, 0, 3)) else None
  {
  }

  lemma ConstFinds()
    ensures Refines(FromTable(ConstTable(), 0), Lexical(ConstScope()))
  {
    ConstPut();
    ConstBucket();
    hide Hash, GetSymbol, PutSymbol, ConstTable, ConstScope, SYM_C, Meaning, Env.Find;
    LoneFound(ConstTable(), "c", 72, 0, SYM_C);
    forall x {
      ConstKeys(x);
    }
  }

  lemma ConstGood()
    ensures WellTyped(ConstProgram()) && RegistersFit(ConstProgram()) && WellFormedBlock(ConstBlock(), 0)
    ensures CodeSize(ConstProgram(), 0) == 4
  {
    var env := Lexical(ConstScope());
    assert GoodStmts(NoStmts, env) && WritableAll(NoStmts) && NeedStmts(NoStmts) == 0;
    assert GoodStmt(WriteC(), env) && NeedStmt(WriteC()) == 1 && Writable(WriteC());
    assert CompileStmts(NoStmts, 2, 0, env, false) == [];
    assert |CompileStmt(WriteC(), 0, 0, env, false)| == 2;
    assert CodeSize(ConstProgram(), 1) == 0;
    assert Ordered(NoDecls, 0) && WellFormed(ConstBlock().decls, 0);
  }

  lemma ConstReads()
    ensures TableReads(ConstBlock(), NoPads(1), ConstProgram())
  {
    hide Elaborate, ConstTable, ConstScope, Refines, WellTyped, RegistersFit, WellFormedBlock, NoCall, WriteC,
         ConstBlock;
    ConstElab();
    ConstFinds();
    ConstGood();
  }

  /** The code of the program's own body. */
  lemma ConstCode(at: int)
    ensures CompileStmt(WriteC(), at, 0, Lexical(ConstScope()), false)
            == [Instruction(LOD, 0, 0, 3), Instruction(SIO, 0, 0, 1)]
  {
    assert CompileStmts(NoStmts, at + 2, 0, Lexical(ConstScope()), false) == [];
  }

  lemma ConstMeant()
    ensures var o := ExecProgram(ConstProgram(), STANDARD, [], 0); o.Done? && o.st.output == [3]
  {
    var prog := ConstProgram();
    var st := InitStore(prog, []);
    assert [] + [3] == [3];
    var last := st.(output := [3]);
    assert Exec(prog, STANDARD, Write("c"), 0, st, 0) == Done(last);
    assert ExecAll(prog, STANDARD, NoStmts, 0, last, 0) == Done(last);
  }

  /** Over the load, from cell 1 + 3, the write and the halt. */
  lemma ConstSteps(code: seq<Instruction>, s: State) returns (s': State)
    requires s.status == RUNNING && s.bp == 1 && s.output == [] && |s.regs| == COMMON_REGISTER_NUMBER
    requires |s.stack| == MAX_STACK_HEIGHT && s.stack[4] == 0
    requires At(code, s.pc, [Instruction(LOD, 0, 0, 3), Instruction(SIO, 0, 0, 1)])
    requires At(code, s.pc + 2, [Instruction(SIO, 0, 0, 3)])
    ensures Reaches(code, s, s') && s'.status == IDLE && s'.output == [0]
  {
    var load, write, halt := Instruction(LOD, 0, 0, 3), Instruction(SIO, 0, 0, 1), Instruction(SIO, 0, 0, 3);
    assert [load] + [write] == [load, write];
    AtSplit(code, s.pc, [load], [write]);
    StepAt(code, s, load);
    var s1 := Step(code, s);
    StepAt(code, s1, write);
    var s2 := Step(code, s1);
    assert [] + [s.stack[4]] == [0];
    StepAt(code, s2, halt);
    s' := Step(code, s2);
    ReachTrans(code, s, s1, s2);
    ReachTrans(code, s, s2, s');
  }

  /** PL/0 writes 3; parsed, compiled and run, the program writes the cell at 3, which is 0. */
  lemma ConstDeviates() returns (s': State)
    ensures var o := ExecProgram(LexProgram(ConstBlock()), STANDARD, [], 0); o.Done? && o.st.output == [3]
    ensures TextOf(RenderProgram(ConstBlock()), ConstBlock())
    ensures var code := CompiledCode(RenderProgram(ConstBlock()));
            Reaches(code, InitState([]), s') && s'.status == IDLE && s'.output == [0]
  {
    hide ParseProgram, RenderProgram, LexProgram, ConstBlock, TableReads, ExecProgram, At, Placed, Loaded, ConstScope,
         WriteC, CompileStmt, CodeSize;
    var toks, prog, code := RenderProgram(ConstBlock()), ConstProgram(), CompiledCode(RenderProgram(ConstBlock()));
    ConstMeaning();
    ConstMeant();
    ConstReads();
    ConstGood();
    ReadingParses(ConstBlock(), NoPads(1), prog);
    ReadingLength(toks, ConstBlock(), NoPads(1), prog);
    ReadingHolds(toks, ConstBlock(), prog);
    var entry := LinkLoads(ParseProgram(toks).st.code, prog);
    LoadedPlaced(code, prog, entry);
    var s1 := TrampolineRun(code, prog, entry, InitState([]), 0);
    AtBody(code, prog, entry, 0);
    ConstCode(s1.pc);
    s' := ConstSteps(code, s1);
    ReachTrans(code, InitState([]), s1, s');
  }
}
