/** A procedure without begin..end, on the machine: it falls into the program, which calls it again. */
module Falling {
  import opened Common
  import opened Machine
  import opened Syntax
  import opened Symbols
  import opened Compile
  import opened CodeSets
  import opened Semantics
  import opened Registers
  import opened Emission
  import opened StmtCorrect
  import opened Parsing
  import opened Programs
  import opened RoundTrip
  import opened Standard
  import opened Scope
  import opened Overhang
  import opened Compiler
  import opened Pl0
  import opened Pl0Safety
  import opened ExprCorrect
  import opened Linked
  import opened Safety
  import opened Faults
  import opened OneProc
  import opened BeginEnd

  /** x := 1 */
  function FallInner(): Stmt {
    Assign("x", ConstExpr(1))
  }

  /** var x; procedure p; x := 1; begin call p; write x end. */
  function FallBlock(): Block {
    OneBlock(FallInner(), NestedMain())
  }

  function FallProgram(): Prog {
    OneProgram(FallInner(), NestedMain())
  }

  lemma FallCompilable()
    ensures Compilable(FallBlock(), NoPads(2))
  {
    hide LexProgram, Compilable;
    ConstShape(1, 0, Lexical(Locals()));
    assert GoodStmts(NestedMain().rest, Lexical(Globals())) && NeedStmts(NestedMain().rest) == 1;
    assert WritableAll(NestedMain().rest);
    OneCompilable(FallInner(), NestedMain());
  }

  /** The code of the program and of p. */
  function FallCode(i: nat): seq<Instruction>
    requires i < 2
  {
    if i == 0 then
      [Instruction(INC, 0, 0, 5), Instruction(CAL, 0, 0, 1), Instruction(LOD, 0, 0, 4), Instruction(SIO, 0, 0, 1),
       Instruction(SIO, 0, 0, 3)]
    else
      [Instruction(INC, 0, 0, 4), Instruction(LIT, 0, 0, 1), Instruction(STO, 0, 1, 4)]
  }

  lemma FallCompiled(i: nat, e: int)
    requires i < 2
    ensures ProcCode(FallProgram(), i, e) == FallCode(i)
  {
    var out, env := Lexical(Globals()), Lexical(Locals());
    ConstShape(1, 0, env);
    hide ConstExpr;
    var load, write := Instruction(LOD, 0, 0, 4), Instruction(SIO, 0, 0, 1);
    assert CompileStmts(NoStmts, e + 4, 0, out, false) == [];
    assert CompileStmts(NestedMain().rest, e + 2, 0, out, false) == [load, write];
    assert CompileStmt(NestedMain(), e + 1, 0, out, false) == [Instruction(CAL, 0, 0, 1), load, write];
    assert CompileStmt(FallInner(), e + 1, 0, env, true) == [Instruction(LIT, 0, 0, 1), Instruction(STO, 0, 1, 4)];
  }

  /** Loaded, with the program's code right behind that of p. */
  ghost predicate FallLoaded(code: seq<Instruction>, entry: seq<int>) {
    Loaded(code, FallProgram(), entry) && |entry| == 2 && entry[0] == entry[1] + 3
  }

  lemma FallLoads() returns (entry: seq<int>)
    ensures FallLoaded(CompiledCode(RenderProgram(FallBlock())), entry)
  {
    hide ParseProgram, RenderProgram, LexProgram, Compilable, ProcCode, FallBlock, FallProgram, FallCode;
    var toks := RenderProgram(FallBlock());
    FallCompilable();
    CompilableParses(FallBlock(), NoPads(2));
    FallMeans();
    CompactHolds(toks, FallBlock());
    var c, prog := ParseProgram(toks).st.code, FallProgram();
    CountHeld(c, prog, 0);
    LinkLength(c, 2);
    EntrySize(c, prog, 0);
    FallSize();
    entry := LinkLoads(c, prog);
    LinkedAdjacent(c, prog, entry, 1);
    FallCompiled(1, entry[1]);
  }

  lemma FallMeans()
    ensures LexProgram(FallBlock()) == FallProgram() && |FallProgram()| == 2
  {
    OneMeaning(FallInner(), NestedMain());
  }

  lemma FallSize()
    ensures CodeSize(FallProgram(), 0) == 8 && |FallCode(1)| == 3
  {
    hide ProcCode;
    FallCompiled(0, -1);
    FallCompiled(1, -1);
    var prog := FallProgram();
    assert CodeSize(prog, 2) == 0 && CodeSize(prog, 1) == 3;
  }

  // ---------- its run ----------

  /** Instruction `k` of procedure `i`, with the machine in front of it. */
  lemma FallStep(code: seq<Instruction>, entry: seq<int>, s: State, i: nat, k: nat) returns (s': State)
    requires FallLoaded(code, entry) && i < 2 && k < |FallCode(i)|
    requires s.status == RUNNING && s.pc == entry[i] + k
    ensures s' == Step(code, s) == Execute(FallCode(i)[k], s.(pc := s.pc + 1)) && Reaches(code, s, s')
    ensures 0 <= s.pc < |code| && code[s.pc] == FallCode(i)[k]
  {
    hide ProcCode, FallCode, FallProgram, Execute;
    FallCompiled(i, entry[i]);
    assert code[s.pc] == code[entry[i]..entry[i] + |FallCode(i)|][k];
    ReachStep(code, s);
    s' := Step(code, s);
  }

  lemma FallFacts()
    ensures |FallCode(0)| == 5 && FallCode(0)[0] == Instruction(INC, 0, 0, 5)
            && FallCode(0)[1] == Instruction(CAL, 0, 0, 1)
    ensures |FallCode(1)| == 3 && FallCode(1)[0] == Instruction(INC, 0, 0, 4)
    ensures FallCode(1)[1] == Instruction(LIT, 0, 0, 1) && FallCode(1)[2] == Instruction(STO, 0, 1, 4)
  {
  }

  /** CAL has been done with `k - 1` calls open; each has left nine cells. */
  ghost predicate Called(s: State, k: nat) {
    && 0 < k <= MAX_LEXI_LEVELS
    && s.status == RUNNING && s.pc == 1 && s.frameLevel == k && s.bp == s.sp + 1 == 9 * k - 3
    && |s.regs| == COMMON_REGISTER_NUMBER && |s.stack| == MAX_STACK_HEIGHT && s.output == []
    && 0 <= s.stack[s.bp + 1] < s.bp
  }

  /** From the jump-table slot of p through its body into the program's, up to the CAL there. */
  lemma FallRound(code: seq<Instruction>, entry: seq<int>, s: State, k: nat) returns (s': State)
    requires FallLoaded(code, entry) && 0 < k <= MAX_LEXI_LEVELS && Called(s, k)
    ensures Reaches(code, s, s')
    ensures s'.status == RUNNING && s'.pc == entry[0] + 1 && s'.frameLevel == k && s'.bp == 9 * k - 3
            && s'.sp == 9 * k + 5
    ensures |s'.regs| == COMMON_REGISTER_NUMBER && |s'.stack| == MAX_STACK_HEIGHT && s'.output == []
  {
    hide FallCode, Execute, Step;
    FallFacts();
    var s0 := SlotStep(code, entry, s);
    var s1 := FallStep(code, entry, s0, 1, 0);
    assert s1 == s0.(pc := s0.pc + 1, sp := s0.sp + 4) by { Executed(code, s0, s1); }
    var s2 := FallStep(code, entry, s1, 1, 1);
    assert s2 == s1.(pc := s1.pc + 1, regs := s1.regs[0 := 1]) by { Executed(code, s1, s2); }
    var s3 := FallStep(code, entry, s2, 1, 2);
    var a := s.stack[s.bp + 1] + 4;
    assert s3 == s2.(pc := s2.pc + 1, stack := s2.stack[a := 1]) by {
      assert Base(s2.stack, 1, s2.bp) == Base(s2.stack, 0, s2.stack[s2.bp + 1]);
      Executed(code, s2, s3);
    }
    s' := FallStep(code, entry, s3, 0, 0);
    assert s' == s3.(pc := s3.pc + 1, sp := s3.sp + 5) by { Executed(code, s3, s'); }
    ReachTrans(code, s, s0, s1);
    ReachTrans(code, s, s1, s2);
    ReachTrans(code, s, s2, s3);
    ReachTrans(code, s, s3, s');
  }

  lemma Executed(code: seq<Instruction>, s: State, s': State)
    requires 0 <= s.pc < |code| && s' == Execute(code[s.pc], s.(pc := s.pc + 1))
    ensures code[s.pc].op == INC ==> s' == s.(pc := s.pc + 1, sp := s.sp + code[s.pc].m)
    ensures code[s.pc].op == LIT && 0 <= code[s.pc].r < |s.regs| ==>
      s' == s.(pc := s.pc + 1, regs := s.regs[code[s.pc].r := code[s.pc].m])
    ensures var i := code[s.pc];
            var a := Address(s.stack, i.l, s.bp, i.m);
            i.op == STO && 0 <= i.r < |s.regs| && a.Some? ==>
              s' == s.(pc := s.pc + 1, stack := s.stack[a.value := s.regs[i.r]])
    ensures code[s.pc].op == CAL ==> s' == Machine.Call(code[s.pc], s.(pc := s.pc + 1))
  {
    hide Machine.Call, Base;
  }

  lemma SlotStep(code: seq<Instruction>, entry: seq<int>, s: State) returns (s': State)
    requires FallLoaded(code, entry) && s.status == RUNNING && s.pc == 1
    ensures Reaches(code, s, s') && s' == s.(pc := entry[1])
  {
    hide ProcCode, At;
    assert code[1] == Instruction(JMP, 0, 0, entry[1]);
    ReachStep(code, s);
    s' := Step(code, s);
  }

  /** Every fall into the program calls p again, until a call is one too many. */
  lemma {:induction false} FallRun(code: seq<Instruction>, entry: seq<int>, s: State, k: nat) returns (s': State)
    requires FallLoaded(code, entry) && 0 < k <= MAX_LEXI_LEVELS && Called(s, k)
    ensures Reaches(code, s, s') && Stuck(code, s', TooDeep, [])
    decreases MAX_LEXI_LEVELS - k
  {
    hide FallCode, Execute, Step, FallLoaded;
    FallFacts();
    var s1 := FallRound(code, entry, s, k);
    var s2 := FallStep(code, entry, s1, 0, 1);
    Executed(code, s1, s2);
    if k == MAX_LEXI_LEVELS {
      s' := s1;
    } else {
      assert Base(s1.stack[s1.sp + 1 := 0], 0, s1.bp) == Some(s1.bp);
      assert Called(s2, k + 1);
      s' := FallRun(code, entry, s2, k + 1);
      ReachTrans(code, s, s1, s2);
      ReachTrans(code, s, s2, s');
    }
  }

  lemma FallRoom(code: seq<Instruction>, entry: seq<int>)
    requires FallLoaded(code, entry)
    ensures 0 <= entry[0] < |code| && code[entry[0]].m == 5
  {
    hide ProcCode, FallCode, FallProgram;
    FallFacts();
    FallCompiled(0, entry[0]);
    assert code[entry[0]] == code[entry[0]..entry[0] + |FallCode(0)|][0];
  }

  lemma FallStart(code: seq<Instruction>, entry: seq<int>) returns (s: State)
    requires FallLoaded(code, entry)
    ensures Reaches(code, InitState([]), s) && Called(s, 1)
  {
    hide FallCode, Execute, Step, ProcCode, CompileStmt, Placed;
    FallFacts();
    LoadedPlaced(code, FallProgram(), entry);
    var s1 := TrampolineRun(code, FallProgram(), entry, InitState([]), 0);
    FallRoom(code, entry);
    s := FallStep(code, entry, s1, 0, 1);
    Executed(code, s1, s);
    assert Base(s1.stack[s1.sp + 1 := 0], 0, s1.bp) == Some(s1.bp);
    ReachTrans(code, InitState([]), s1, s);
  }

  /** The stores of the PL/0 run once p has come to its end without a return. */
  function FellStore(output: seq<int>): Store {
    OneStore(1, 0, output, 2).(fell := true)
  }

  lemma FallCall()
    ensures Exec(FallProgram(), STANDARD, Stmt.Call("p"), 0, OneStore(0, 0, [], 1), 1) == Done(FellStore([]))
  {
    hide Globals, Locals, Enter, Leave;
    var prog := FallProgram();
    OneEnter(FallInner(), NestedMain(), STANDARD, 0, 0, [], 1);
    ConstValue(1, OneEnv(1), OneStore(0, 1, [], 2).frames);
    OneAssign(0, 1, [], 2, 1);
    assert Exec(prog, STANDARD, FallInner(), 1, OneStore(0, 1, [], 2), 0) == Done(OneStore(1, 1, [], 2));
    assert !Returning(FallInner(), prog[1].env, OneStore(0, 1, [], 2).frames);
    OneLeave(STANDARD, Done(OneStore(1, 1, [], 2)), 1, 0, [], 2, false);
  }

  lemma FallWrite()
    ensures Exec(FallProgram(), STANDARD, Write("x"), 0, FellStore([]), 1) == Done(FellStore([1]))
  {
    OneVar(1, 0, [], 2);
    assert [] + [1] == [1];
  }

  lemma FallExec()
    ensures ExecProgram(FallProgram(), STANDARD, [], 1) == Done(FellStore([1]))
  {
    FallCall();
    FallWrite();
    hide Globals, Locals, Enter, Leave, FellStore, OneStore;
    var prog := FallProgram();
    OneStart(FallInner(), NestedMain());
    assert ExecAll(prog, STANDARD, NoStmts, 0, FellStore([1]), 1) == Done(FellStore([1]));
    assert ExecAll(prog, STANDARD, NestedMain().rest, 0, FellStore([]), 1) == Done(FellStore([1]));
  }

  /** PL/0 writes 1, p not returning; parsed, compiled and run, the program writes nothing and stops undefined. */
  lemma FallDeviates() returns (s: State, s': State)
    ensures var o := ExecProgram(LexProgram(FallBlock()), STANDARD, [], 1); o.Done? && o.st.fell && o.st.output == [1]
    ensures var code := CompiledCode(RenderProgram(FallBlock()));
            && Reaches(code, InitState([]), s) && Stuck(code, s, TooDeep, [])
            && s' == Step(code, s) && s'.status == UNDEFINED
  {
    hide RenderProgram, LexProgram, CompiledCode, FallBlock, FallProgram, FallLoaded, Called, InitState, ExecProgram;
    FallMeans();
    FallExec();
    var entry := FallLoads();
    var code := CompiledCode(RenderProgram(FallBlock()));
    var s1 := FallStart(code, entry);
    s := FallRun(code, entry, s1, 1);
    ReachTrans(code, InitState([]), s1, s);
    s' := Step(code, s);
  }
}
