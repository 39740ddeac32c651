/** A program the theorems apply to, with a procedure that changes a variable of the program. */
module Example {
  import opened Machine
  import opened Syntax
  import opened Symbols
  import opened Compile
  import opened Semantics
  import opened Registers
  import opened Emission
  import opened Parsing
  import opened Programs
  import opened Standard
  import opened Scope
  import opened Overhang
  import opened Compiler
  import opened Pl0
  import opened Pl0Safety
  import opened OneProc

  /** x + 1 */
  function Plus1(): Expr {
    Expr(NoSign, Term(Ident("x"), NoFactors), MoreTerms(Plus, Term(Number(1), NoFactors), NoTerms))
  }

  function Inner(): Stmt {
    Begin(Assign("x", Plus1()), NoStmts)
  }

  function Main(): Stmt {
    Begin(Assign("x", ConstExpr(41)), MoreStmts(Stmt.Call("p"), MoreStmts(Write("x"), NoStmts)))
  }

  /** var x; procedure p; begin x := x + 1 end; begin x := 41; call p; write x end. */
  function Sample(): Block {
    OneBlock(Inner(), Main())
  }

  /** The hypotheses of CompilesPl0 and SafePl0 can be met. */
  lemma SampleSupported()
    ensures Supported(Sample(), NoPads(2)) && Assigning(Sample())
  {
    hide LexProgram, Compilable;
    assert GoodExpr(Plus1(), Lexical(Locals())) && GoodExpr(ConstExpr(41), Lexical(Globals()));
    assert NeedExpr(Plus1()) == 2 && NeedExpr(ConstExpr(41)) == 1;
    assert GoodStmts(Main().rest, Lexical(Globals())) && NeedStmts(Main().rest) == 1;
    OneCompilable(Inner(), Main());
    OneSupported(Inner(), Main());
    OneMeaning(Inner(), Main());
  }

  lemma PlusValue(x: int, calls: nat, output: seq<int>, peak: nat)
    ensures EvalExpr(Plus1(), OneEnv(calls), OneStore(x, calls, output, peak).frames) == Val(x + 1)
  {
    var env, frames := OneEnv(calls), OneStore(x, calls, output, peak).frames;
    OneVar(x, calls, output, peak);
    assert EvalTerm(Plus1().term, env, frames) == Val(x);
    assert EvalTerm(Plus1().terms.term, env, frames) == Val(1);
  }

  lemma SampleCall(x: int)
    ensures Exec(OneProgram(Inner(), Main()), STANDARD, Stmt.Call("p"), 0, OneStore(x, 0, [], 1), 1)
         == Done(OneStore(x + 1, 0, [], 2))
  {
    hide Globals, Locals, Leave, Enter;
    var prog := OneProgram(Inner(), Main());
    OneEnter(Inner(), Main(), STANDARD, x, 0, [], 1);
    var st, last := OneStore(x, 1, [], 2), OneStore(x + 1, 1, [], 2);
    PlusValue(x, 1, [], 2);
    OneAssign(x, 1, [], 2, x + 1);
    assert Exec(prog, STANDARD, Assign("x", Plus1()), 1, st, 0) == Done(last);
    assert ExecAll(prog, STANDARD, NoStmts, 1, last, 0) == Done(last);
    assert Exec(prog, STANDARD, Inner(), 1, st, 0) == Done(last);
    OneLeave(STANDARD, Done(last), x + 1, 0, [], 2, true);
  }

  lemma SampleExec()
    ensures ExecProgram(OneProgram(Inner(), Main()), STANDARD, [], 1) == Done(OneStore(42, 0, [42], 2))
  {
    hide Globals, Locals;
    var prog := OneProgram(Inner(), Main());
    var st, st1 := OneStore(0, 0, [], 1), OneStore(41, 0, [], 1);
    OneStart(Inner(), Main());
    ConstValue(41, OneEnv(0), st.frames);
    OneAssign(0, 0, [], 1, 41);
    assert Exec(prog, STANDARD, Main().first, 0, st, 1) == Done(st1);
    SampleCall(41);
    OneWrite(STANDARD, 42, [], 2, Inner(), Main(), 1);
    var last := OneStore(42, 0, [42], 2);
    assert [] + [42] == [42];
    assert ExecAll(prog, STANDARD, NoStmts, 0, last, 1) == Done(last);
    assert ExecAll(prog, STANDARD, Main().rest.next, 0, OneStore(42, 0, [], 2), 1) == Done(last);
    assert ExecAll(prog, STANDARD, Main().rest, 0, st1, 1) == Done(last);
  }

  lemma SampleLength()
    ensures |CompiledCode(RenderProgram(Sample()))| == 15
  {
    hide LexProgram, RenderProgram, CompiledCode, Compilable;
    SampleSupported();
    OneLength(Inner(), Main());
    var out, inner := Lexical(Globals()), Lexical(Locals());
    assert |CompileExpr(Plus1(), 0, inner)| == 3;
    assert |CompileExpr(ConstExpr(41), 0, out)| == 1;
    assert CompileStmts(NoStmts, 4, 0, inner, true) == [];
    assert |CompileStmts(Main().rest.next, 3, 0, out, false)| == 2;
    assert |CompileStmts(Main().rest, 2, 0, out, false)| == 3;
  }

  /** The theorem at work: the compiled sample has 15 instructions and halts with output 42. */
  lemma SampleRuns() returns (s': State)
    ensures |CompiledCode(RenderProgram(Sample()))| == 15
    ensures Reaches(CompiledCode(RenderProgram(Sample())), InitState([]), s') && s'.status == IDLE && s'.output == [42]
  {
    hide LexProgram, RenderProgram, Supported, CompiledCode, ExecProgram;
    SampleSupported();
    OneMeaning(Inner(), Main());
    SampleExec();
    SampleLength();
    s' := CompilesPl0(Sample(), NoPads(2), [], 1);
  }
}
