/** A program that calls itself k deep: right up to four open calls, undefined from the fifth on. */
module Deep {
  import opened Machine
  import opened Syntax
  import opened Symbols
  import opened Compile
  import opened Semantics
  import opened Registers
  import opened Emission
  import opened Parsing
  import opened Programs
  import opened RoundTrip
  import opened Standard
  import opened Scope
  import opened Overhang
  import opened Compiler
  import opened Pl0
  import opened OneProc
  import opened Example

  /** if x < k then call p */
  function Again(k: int): Stmt {
    If(Compare(Less, Expr(NoSign, Term(Ident("x"), NoFactors), NoTerms), ConstExpr(k)), Stmt.Call("p"))
  }

  function DeepInner(k: int): Stmt {
    Begin(Assign("x", Plus1()), MoreStmts(Again(k), NoStmts))
  }

  function DeepMain(): Stmt {
    Begin(Stmt.Call("p"), MoreStmts(Write("x"), NoStmts))
  }

  /** var x; procedure p; begin x := x + 1; if x < k then call p end; begin call p; write x end. */
  function DeepBlock(k: int): Block {
    OneBlock(DeepInner(k), DeepMain())
  }

  lemma DeepWritable(k: int)
    ensures Writable(DeepInner(k)) && Writable(DeepMain())
  {
    assert Writable(Again(k));
    assert WritableAll(DeepInner(k).rest) && WritableAll(DeepMain().rest);
  }

  lemma DeepSupported(k: int)
    requires k <= MAX_NUMBER
    ensures Supported(DeepBlock(k), NoPads(2))
  {
    hide LexProgram, Compilable;
    var env := Lexical(Locals());
    ConstShape(k, 1, env);
    hide ConstExpr;
    var left := Again(k).cond.left;
    assert GoodExpr(Plus1(), env) && GoodTerm(left.term, env) && GoodExpr(left, env);
    assert NeedExpr(Plus1()) == 2 && NeedTerm(left.term) == 1 && NeedExpr(left) == 1;
    assert NeedStmt(Again(k)) == 2 && GoodStmt(Again(k), env);
    assert GoodStmts(DeepInner(k).rest, env) && NeedStmts(DeepInner(k).rest) == 2;
    assert GoodStmts(DeepMain().rest, Lexical(Globals())) && NeedStmts(DeepMain().rest) == 1;
    DeepWritable(k);
    OneCompilable(DeepInner(k), DeepMain());
    assert Tail(Again(k)) && NoConstWrite(Again(k), env) && NoConstWriteAll(NoStmts, env);
    assert TailAll(DeepInner(k).rest) && NoConstWriteAll(DeepInner(k).rest, env);
    OneSupported(DeepInner(k), DeepMain());
  }

  lemma DeepLength(k: int)
    requires k <= MAX_NUMBER
    ensures |CompiledCode(RenderProgram(DeepBlock(k)))| == 19
  {
    hide LexProgram, RenderProgram, CompiledCode, Compilable;
    DeepSupported(k);
    OneLength(DeepInner(k), DeepMain());
    var out, inner := Lexical(Globals()), Lexical(Locals());
    hide ConstExpr;
    assert |CompileExpr(Plus1(), 0, inner)| == 3;
    assert |CompileExpr(Again(k).cond.left, 0, inner)| == 1;
    ConstShape(k, 1, inner);
    assert |CompileCond(Again(k).cond, 0, inner)| == 3;
    assert |CompileStmt(Again(k), 4, 0, inner, true)| == 6;
    assert CompileStmts(NoStmts, 10, 0, inner, true) == [] == CompileStmts(NoStmts, 3, 0, out, false);
    assert |CompileStmts(DeepInner(k).rest, 4, 0, inner, true)| == 6;
    assert |CompileStmt(DeepInner(k), 0, 0, inner, true)| == 11;
    assert |CompileStmt(DeepMain(), 0, 0, out, false)| == 3;
    assert |CompileStmts(DeepMain().rest, 1, 0, out, false)| == 2;
  }

  lemma AgainValue(k: int, x: int, calls: nat, output: seq<int>, peak: nat)
    ensures EvalCond(Again(k).cond, OneEnv(calls), OneStore(x, calls, output, peak).frames) == Val(BoolToInt(x < k))
  {
    var env, frames := OneEnv(calls), OneStore(x, calls, output, peak).frames;
    OneVar(x, calls, output, peak);
    ConstValue(k, env, frames);
    assert EvalTerm(Again(k).cond.left.term, env, frames) == Val(x);
  }

  /** With `j` calls open and x at j, another call comes back with x at k, having had k calls open. */
  lemma {:induction false} DeepCall(k: nat, j: nat, id: nat, fuel: nat)
    requires j < k <= MAX_NUMBER && fuel >= k - j && id == if j == 0 then 0 else 1
    ensures Exec(OneProgram(DeepInner(k), DeepMain()), STANDARD, Stmt.Call("p"), id, OneStore(j, j, [], j + 1), fuel)
         == Done(OneStore(k, j, [], k + 1))
    decreases k - j
  {
    hide Leave, Enter, Globals, Locals, EvalExpr, EvalCond, Store1;
    var prog := OneProgram(DeepInner(k), DeepMain());
    OneEnter(DeepInner(k), DeepMain(), STANDARD, j, j, [], j + 1);
    var st := OneStore(j, j + 1, [], j + 2);
    DeepBody(k, j, fuel - 1);
    OneLeave(STANDARD, Done(OneStore(k, j + 1, [], k + 1)), k, j, [], k + 1, true);
    assert Running(st.frames) == 1;
  }

  lemma {:induction false} DeepBody(k: nat, j: nat, fuel: nat)
    requires j < k <= MAX_NUMBER && fuel >= k - j - 1
    ensures Exec(OneProgram(DeepInner(k), DeepMain()), STANDARD, DeepInner(k), 1, OneStore(j, j + 1, [], j + 2), fuel)
         == Done(OneStore(k, j + 1, [], k + 1))
    decreases k - j, 0
  {
    hide Leave, Enter, Globals, Locals, EvalExpr, EvalCond, Store1;
    var prog := OneProgram(DeepInner(k), DeepMain());
    var st, st1 := OneStore(j, j + 1, [], j + 2), OneStore(j + 1, j + 1, [], j + 2);
    PlusValue(j, j + 1, [], j + 2);
    OneAssign(j, j + 1, [], j + 2, j + 1);
    assert Exec(prog, STANDARD, DeepInner(k).first, 1, st, fuel) == Done(st1);
    AgainValue(k, j + 1, j + 1, [], j + 2);
    if j + 1 < k {
      DeepCall(k, j + 1, 1, fuel);
    }
    var last := OneStore(k, j + 1, [], k + 1);
    assert Exec(prog, STANDARD, Again(k), 1, st1, fuel) == Done(last);
    assert ExecAll(prog, STANDARD, NoStmts, 1, last, fuel) == Done(last);
    assert ExecAll(prog, STANDARD, DeepInner(k).rest, 1, st1, fuel) == Done(last);
  }

  /** In PL/0 the program writes k, with k + 1 records live at the deepest. */
  lemma DeepExec(k: nat)
    requires 0 < k <= MAX_NUMBER
    ensures ExecProgram(OneProgram(DeepInner(k), DeepMain()), STANDARD, [], k) == Done(OneStore(k, 0, [k], k + 1))
  {
    hide Globals, Locals, Enter, Leave;
    var prog := OneProgram(DeepInner(k), DeepMain());
    OneStart(DeepInner(k), DeepMain());
    DeepCall(k, 0, 0, k);
    OneWrite(STANDARD, k, [], k + 1, DeepInner(k), DeepMain(), k);
    var last := OneStore(k, 0, [k], k + 1);
    assert [] + [k] == [k];
    assert ExecAll(prog, STANDARD, NoStmts, 0, last, k) == Done(last);
    assert ExecAll(prog, STANDARD, DeepMain().rest, 0, OneStore(k, 0, [], k + 1), k) == Done(last);
  }

  /**
    A program PL/0 runs to its end, writing k: compiled, it halts with that output when at most
    four calls of p are open at once, and stops undefined, never halting, from five on.
   */
  lemma DeepRuns(k: nat) returns (s': State)
    requires 0 < k <= 90000
    ensures var o := ExecProgram(LexProgram(DeepBlock(k)), STANDARD, [], k); o.Done? && o.st.output == [k]
    ensures Reaches(CompiledCode(RenderProgram(DeepBlock(k))), InitState([]), s')
    ensures k < 5 ==> s'.status == IDLE && s'.output == [k]
    ensures k >= 5 ==> s'.status == UNDEFINED
  {
    hide LexProgram, RenderProgram, Supported, CompiledCode, ExecProgram;
    DeepSupported(k);
    OneMeaning(DeepInner(k), DeepMain());
    DeepExec(k);
    DeepLength(k);
    s' := CompilesPl0(DeepBlock(k), NoPads(2), [], k);
  }
}
