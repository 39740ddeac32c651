/** Procedure bodies the code generator gets wrong, on the machine: a begin..end inside, and none at all. */
module BeginEnd {
  import opened Common
  import opened Machine
  import opened Syntax
  import opened Symbols
  import opened Compile
  import opened CodeSets
  import opened Semantics
  import opened Registers
  import opened Emission
  import opened StmtCorrect
  import opened Parsing
  import opened Programs
  import opened RoundTrip
  import opened Standard
  import opened Scope
  import opened Overhang
  import opened Compiler
  import opened Pl0
  import opened Records
  import opened ExprCorrect
  import opened Linked
  import opened Safety
  import opened OneProc

  // ---------- a begin..end inside ----------

  /** begin begin x := 1 end; x := 2 end */
  function NestedInner(): Stmt {
    Begin(Begin(Assign("x", ConstExpr(1)), NoStmts), MoreStmts(Assign("x", ConstExpr(2)), NoStmts))
  }

  /** begin call p; write x end */
  function NestedMain(): Stmt {
    Begin(Stmt.Call("p"), MoreStmts(Write("x"), NoStmts))
  }

  lemma NestedCompilable()
    ensures Compilable(OneBlock(NestedInner(), NestedMain()), NoPads(2))
  {
    hide LexProgram, Compilable;
    var env := Lexical(Locals());
    ConstShape(1, 0, env);
    ConstShape(2, 0, env);
    assert GoodStmt(NestedInner().first, env) && NeedStmt(NestedInner().first) == 1;
    assert GoodStmts(NestedInner().rest, env) && NeedStmts(NestedInner().rest) == 1;
    assert GoodStmts(NestedMain().rest, Lexical(Globals())) && NeedStmts(NestedMain().rest) == 1;
    assert Writable(NestedInner().first) && WritableAll(NestedInner().rest) && WritableAll(NestedMain().rest);
    OneCompilable(NestedInner(), NestedMain());
  }

  lemma NestedLength()
    ensures |CompiledCode(RenderProgram(OneBlock(NestedInner(), NestedMain())))| == 14
  {
    hide LexProgram, RenderProgram, CompiledCode, Compilable;
    NestedCompilable();
    OneLength(NestedInner(), NestedMain());
    var out, env := Lexical(Globals()), Lexical(Locals());
    ConstShape(1, 0, env);
    ConstShape(2, 0, env);
    hide ConstExpr;
    assert |CompileStmt(NestedInner().first, 0, 0, env, true)| == 3;
    assert |CompileStmts(NestedInner().rest, 3, 0, env, true)| == 2;
    assert |CompileStmts(NestedMain().rest, 1, 0, out, false)| == 2;
  }

  lemma NestedAssign(m: Mode, x: int, v: int)
    ensures Exec(OneProgram(NestedInner(), NestedMain()), m, Assign("x", ConstExpr(v)), 1, OneStore(x, 1, [], 2), 0)
         == Done(OneStore(v, 1, [], 2))
  {
    hide Locals, Globals, Store1;
    ConstValue(v, OneEnv(1), OneStore(x, 1, [], 2).frames);
    OneAssign(x, 1, [], 2, v);
  }

  lemma NestedBody(m: Mode)
    ensures Exec(OneProgram(NestedInner(), NestedMain()), m, NestedInner(), 1, OneStore(0, 1, [], 2), 0)
         == if m == STANDARD then Done(OneStore(2, 1, [], 2)) else Returned(OneStore(1, 1, [], 2))
  {
    hide ConstExpr;
    var prog := OneProgram(NestedInner(), NestedMain());
    var st, st1, st2 := OneStore(0, 1, [], 2), OneStore(1, 1, [], 2), OneStore(2, 1, [], 2);
    NestedAssign(m, 0, 1);
    NestedAssign(m, 1, 2);
    assert ExecAll(prog, m, NoStmts, 1, st1, 0) == Done(st1) && ExecAll(prog, m, NoStmts, 1, st2, 0) == Done(st2);
    assert Exec(prog, m, NestedInner().first, 1, st, 0) == if m == STANDARD then Done(st1) else Returned(st1);
    assert ExecAll(prog, m, NestedInner().rest, 1, st1, 0) == Done(st2);
  }

  lemma NestedExec(m: Mode, v: int)
    requires v == if m == STANDARD then 2 else 1
    ensures ExecProgram(OneProgram(NestedInner(), NestedMain()), m, [], 1) == Done(OneStore(v, 0, [v], 2))
  {
    hide Globals, Locals, Enter, Leave;
    var prog, last := OneProgram(NestedInner(), NestedMain()), OneStore(v, 0, [v], 2);
    OneStart(NestedInner(), NestedMain());
    OneEnter(NestedInner(), NestedMain(), m, 0, 0, [], 1);
    NestedBody(m);
    OneLeave(m, Exec(prog, m, NestedInner(), 1, OneStore(0, 1, [], 2), 0), v, 0, [], 2, true);
    assert Exec(prog, m, NestedMain().first, 0, OneStore(0, 0, [], 1), 1) == Done(OneStore(v, 0, [], 2));
    OneWrite(m, v, [], 2, NestedInner(), NestedMain(), 1);
    assert [] + [v] == [v];
    assert ExecAll(prog, m, NoStmts, 0, last, 1) == Done(last);
    assert ExecAll(prog, m, NestedMain().rest, 0, OneStore(v, 0, [], 2), 1) == Done(last);
  }

  /**
    var x; procedure p; begin begin x := 1 end; x := 2 end; begin call p; write x end. PL/0
    writes 2; parsed, compiled and run, the program halts having written 1.
   */
  lemma NestedDeviates() returns (s': State)
    ensures var b := OneBlock(NestedInner(), NestedMain());
            var o := ExecProgram(LexProgram(b), STANDARD, [], 1);
            && o.Done? && o.st.output == [2]
            && ParseProgram(RenderProgram(b)).Ok? && ParseProgram(RenderProgram(b)).value == b
            && Reaches(CompiledCode(RenderProgram(b)), InitState([]), s') && s'.status == IDLE && s'.output == [1]
  {
    hide LexProgram, RenderProgram, ParseProgram, CompiledCode, ExecProgram, Compilable;
    var b := OneBlock(NestedInner(), NestedMain());
    NestedCompilable();
    NestedLength();
    CompilableParses(b, NoPads(2));
    OneMeaning(NestedInner(), NestedMain());
    assert |OneProgram(NestedInner(), NestedMain())| == 2;
    UnpaddedProgram(b);
    NestedExec(STANDARD, 2);
    NestedExec(IMPLEMENTED, 1);
    s' := CompilesLex(RenderProgram(b), b, NoPads(2), [], 1);
  }

  // ---------- none at all ----------

  /** In linked code the first instruction behind a procedure's is that of the procedure declared before it. */
  lemma LinkedAdjacent(c: Code, prog: Prog, entry: seq<int>, i: nat)
    requires Holds(c, prog) && |Link(c)| < MAX_CODE_LENGTH && 0 < i < |prog| == |entry|
    requires forall k :: 0 <= k < |prog| ==> entry[k] == Entry(c, |prog|, k)
    ensures EndOf(prog, entry, i) == entry[i - 1]
  {
    hide ProcCode;
    assert Get(c, i) == ProcCode(prog, i, -1);
    MoveProc(prog, i, entry[i]);
  }

  /**
    A body that ends without a return: the machine does what the body says, and then goes on,
    in the same record, over the INC and into the body of the procedure declared before; no call
    has taken it there, and sp has moved on as if one had.
   */
  lemma FallsThrough(
      code: seq<Instruction>, prog: Prog, entry: seq<int>, s: State, x: string,
      id: nat, st: Store, ras: seq<int>, fuel: nat)
    returns (s': State)
    requires id < |prog| && Begins(code, prog, entry, s, Access(CAL, 0, x, prog[id].env), 0, id, st, ras)
    requires Topped(st, s) && fuel > 0 && Enter(prog, IMPLEMENTED, x, prog[id].env, st).Done?
    requires var st1 := Enter(prog, IMPLEMENTED, x, prog[id].env, st).st;
             var callee := Running(st1.frames);
             && 0 < callee < |prog|
             && Exec(prog, IMPLEMENTED, prog[callee].body, callee, st1, fuel - 1).Done?
             && EndOf(prog, entry, callee) == entry[callee - 1]
    ensures Reaches(code, s, s')
    ensures Exec(prog, IMPLEMENTED, Stmt.Call(x), id, st, fuel) == Faulted(FallThrough, s'.output)
    ensures var st1 := Enter(prog, IMPLEMENTED, x, prog[id].env, st).st;
            var callee := Running(st1.frames);
            && Sync(Exec(prog, IMPLEMENTED, prog[callee].body, callee, st1, fuel - 1).st, ras + [s.pc + 1], s')
            && s'.pc == entry[callee - 1]
            && 0 <= s'.pc < |code| && code[s'.pc].op == INC
            && Step(code, s') == s'.(pc := s'.pc + 1, sp := s'.sp + code[s'.pc].m)
            && At(code, s'.pc + 1, CompileStmt(prog[callee - 1].body, s'.pc + 1, 0, prog[callee - 1].env, callee > 1))
  {
    hide CompileStmt, At, RegistersFit, InBody, Access;
    var env := prog[id].env;
    var st1 := Enter(prog, IMPLEMENTED, x, env, st).st;
    var callee := Running(st1.frames);
    var s1 := EnterRun(code, prog, entry, s, x, env, st, ras);
    AtBody(code, prog, entry, callee);
    AtBody(code, prog, entry, callee - 1);
    CalleeFits(prog, callee);
    s' := StmtRun(code, prog, entry, s1, prog[callee].body, 0, callee, st1, ras + [s.pc + 1], fuel - 1);
    ReachTrans(code, s, s1, s');
    IncStep(code, prog, entry, s', callee - 1);
  }

  lemma IncStep(code: seq<Instruction>, prog: Prog, entry: seq<int>, s: State, i: nat)
    requires Placed(code, prog, entry) && i < |prog| && s.status == RUNNING && s.pc == entry[i]
    ensures 0 <= s.pc < |code| && code[s.pc].op == INC
    ensures Step(code, s) == s.(pc := s.pc + 1, sp := s.sp + code[s.pc].m)
  {
    assert PlacedAt(code, prog, i, entry[i]);
    hide CompileStmt, NoCall, Placed, At;
    var e := entry[i];
    var inc := Instruction(INC, 0, 0, code[e].m);
    var body := CompileStmt(prog[i].body, e + 1, 0, prog[i].env, i > 0);
    var halt := if i == 0 then [Instruction(SIO, 0, 0, 3)] else [];
    AtSplit(code, e, [inc] + body, halt);
    AtSplit(code, e, [inc], body);
    StepAt(code, s, inc);
  }
}
