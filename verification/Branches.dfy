/** A supported program whose procedure is no begin..end, but returns at one on either way. */
module Branches {
  import opened Common
  import opened Machine
  import opened Syntax
  import opened Symbols
  import opened Compile
  import opened Semantics
  import opened Registers
  import opened Emission
  import opened StmtCorrect
  import opened Parsing
  import opened Programs
  import opened RoundTrip
  import opened Standard
  import opened Scope
  import opened Overhang
  import opened Compiler
  import opened Pl0
  import opened OneProc
  import opened BeginEnd

  function Either(v: int): Stmt {
    Begin(Assign("x", ConstExpr(v)), NoStmts)
  }

  /** odd x */
  function OddX(): Cond {
    Odd(Expr(NoSign, Term(Ident("x"), NoFactors), NoTerms))
  }

  function BranchInner(): Stmt {
    IfElse(OddX(), Either(1), Either(2))
  }

  /** var x; procedure p; if odd x then begin x := 1 end else begin x := 2 end; begin call p; write x end. */
  function BranchBlock(): Block {
    OneBlock(BranchInner(), NestedMain())
  }

  lemma EitherGood(v: int)
    requires 0 <= v <= MAX_NUMBER
    ensures GoodStmt(Either(v), Lexical(Locals())) && NeedStmt(Either(v)) == 1 && Writable(Either(v))
    ensures NoConstWrite(Either(v), Lexical(Locals())) && Tail(Either(v)) && Returns(Either(v)) && !EndsOpen(Either(v))
    ensures forall at, p :: |CompileStmt(Either(v), at, p, Lexical(Locals()), true)| == 3
  {
    forall at, p
      ensures |CompileStmt(Either(v), at, p, Lexical(Locals()), true)| == 3
    {
      ConstShape(v, p, Lexical(Locals()));
    }
    ConstShape(v, 0, Lexical(Locals()));
    hide ConstExpr;
    assert GoodStmts(NoStmts, Lexical(Locals())) && NeedStmts(NoStmts) == 0 && WritableAll(NoStmts);
  }

  lemma CondGood()
    ensures GoodCond(OddX(), Lexical(Locals())) && NeedCond(OddX()) == 1
    ensures |CompileCond(OddX(), 0, Lexical(Locals()))| == 2
  {
    var env, e := Lexical(Locals()), OddX().expr;
    assert GoodFactor(e.term.factor, env) && GoodTerm(e.term, env) && GoodExpr(e, env);
    assert NeedTerm(e.term) == 1 && NeedExpr(e) == 1;
    assert |CompileExpr(e, 0, env)| == 1;
  }

  /** An if-else is in order as its parts are. */
  lemma IfElseGood(c: Cond, t: Stmt, e: Stmt, env: Env)
    requires GoodCond(c, env) && NeedCond(c) == 1
    requires GoodStmt(t, env) && NeedStmt(t) == 1 && Writable(t) && NoConstWrite(t, env) && Tail(t) && Returns(t)
    requires GoodStmt(e, env) && NeedStmt(e) == 1 && Writable(e) && NoConstWrite(e, env) && Tail(e) && Returns(e)
    requires !EndsOpen(t) && t != Empty
    ensures var s := IfElse(c, t, e);
            GoodStmt(s, env) && NeedStmt(s) == 2 && Writable(s) && NoConstWrite(s, env) && Tail(s) && Returns(s)
  {
    hide GoodCond, NeedCond;
  }

  lemma BranchGood()
    ensures GoodStmt(BranchInner(), Lexical(Locals())) && NeedStmt(BranchInner()) == 2 && Writable(BranchInner())
    ensures NoConstWrite(BranchInner(), Lexical(Locals())) && Tail(BranchInner()) && Returns(BranchInner())
  {
    hide OddX, Locals, GoodStmt, NeedStmt, Writable, NoConstWrite, Tail, Returns, GoodCond, NeedCond, EndsOpen;
    EitherGood(1);
    EitherGood(2);
    CondGood();
    IfElseGood(OddX(), Either(1), Either(2), Lexical(Locals()));
  }

  lemma MainGood()
    ensures GoodStmt(NestedMain(), Lexical(Globals())) && NeedStmt(NestedMain()) == 1 && Writable(NestedMain())
    ensures NoConstWrite(NestedMain(), Lexical(Globals()))
    ensures |CompileStmt(NestedMain(), 0, 0, Lexical(Globals()), false)| == 3
  {
    var rest, env := NestedMain().rest, Lexical(Globals());
    assert GoodStmts(rest, env) && NeedStmts(rest) == 1 && WritableAll(rest) && NoConstWriteAll(rest, env);
    assert |CompileStmts(rest, 1, 0, env, false)| == 2;
  }

  lemma BranchSupported()
    ensures Supported(BranchBlock(), NoPads(2)) && AllReturn(LexProgram(BranchBlock()))
  {
    hide GoodStmt, NeedStmt, Writable, NoConstWrite, Tail, Returns, BranchInner, NestedMain, LexProgram, Compilable;
    BranchGood();
    MainGood();
    assert BranchInner() != Empty by { BranchFull(); }
    OneCompilable(BranchInner(), NestedMain());
    OneSupported(BranchInner(), NestedMain());
    OneMeaning(BranchInner(), NestedMain());
  }

  lemma BranchFull()
    ensures BranchInner() != Empty
  {
  }

  lemma BranchLength()
    ensures |CompiledCode(RenderProgram(BranchBlock()))| == 18
  {
    hide LexProgram, RenderProgram, CompiledCode, Compilable, Supported, Either, OddX, NestedMain, CompileCond, Branch;
    assert Compilable(BranchBlock(), NoPads(2)) by { BranchSupported(); SupportedFacts(); }
    OneLength(BranchInner(), NestedMain());
    MainGood();
    EitherGood(1);
    EitherGood(2);
    CondGood();
    IfShape(OddX(), Either(1), Either(2), 0, 0, Lexical(Locals()), true);
  }

  lemma SupportedFacts()
    requires Supported(BranchBlock(), NoPads(2))
    ensures Compilable(BranchBlock(), NoPads(2))
  {
    hide Compilable;
  }

  // ---------- its run ----------

  lemma OddValue()
    ensures EvalCond(OddX(), OneEnv(1), OneStore(0, 1, [], 2).frames) == Val(0)
  {
    var e, frames := OddX().expr, OneStore(0, 1, [], 2).frames;
    OneVar(0, 1, [], 2);
    hide OneStore, Globals, Locals, ReadVar;
    assert OneEnv(1).Find("x") == Some(Binding(VAR, 1, 4, 0)) by { XFound(); }
    assert EvalTerm(e.term, OneEnv(1), frames) == Val(0);
    assert EvalExpr(e, OneEnv(1), frames) == Val(0);
  }

  lemma XFound()
    ensures OneEnv(1).Find("x") == Some(Binding(VAR, 1, 4, 0))
  {
  }

  lemma EitherRun(prog: Prog, st: Store, last: Store)
    requires |prog| == 2 && prog[1].env == OneEnv(1) && st == OneStore(0, 1, [], 2) && last == OneStore(2, 1, [], 2)
    ensures Exec(prog, STANDARD, Either(2), 1, st, 0) == Done(last)
  {
    ConstValue(2, OneEnv(1), st.frames);
    OneAssign(0, 1, [], 2, 2);
    hide ConstExpr, EvalExpr, Store1, OneStore, OneEnv;
    assert Exec(prog, STANDARD, Either(2).first, 1, st, 0) == Done(last);
    assert ExecAll(prog, STANDARD, NoStmts, 1, last, 0) == Done(last);
  }

  lemma ElseTaken(prog: Prog, c: Cond, t: Stmt, e: Stmt, st: Store)
    requires |prog| == 2 && EvalCond(c, prog[1].env, st.frames) == Val(0)
    ensures Exec(prog, STANDARD, IfElse(c, t, e), 1, st, 0) == Exec(prog, STANDARD, e, 1, st, 0)
    ensures Returning(IfElse(c, t, e), prog[1].env, st.frames) == Returning(e, prog[1].env, st.frames)
  {
    hide EvalCond;
  }

  lemma BranchBody()
    ensures Exec(OneProgram(BranchInner(), NestedMain()), STANDARD, BranchInner(), 1, OneStore(0, 1, [], 2), 0)
         == Done(OneStore(2, 1, [], 2))
    ensures Returning(BranchInner(), Lexical(Locals()), OneStore(0, 1, [], 2).frames)
  {
    var prog, st, last := OneProgram(BranchInner(), NestedMain()), OneStore(0, 1, [], 2), OneStore(2, 1, [], 2);
    assert |prog| == 2 && prog[1].env == OneEnv(1) == Lexical(Locals());
    assert Returning(Either(2), prog[1].env, st.frames);
    hide OddX, EvalCond, OneStore, OneEnv, OneProgram, Globals, Locals, NestedMain, Either, Exec, Returning;
    OddValue();
    EitherRun(prog, st, last);
    ElseTaken(prog, OddX(), Either(1), Either(2), st);
  }

  lemma BranchExec()
    ensures ExecProgram(OneProgram(BranchInner(), NestedMain()), STANDARD, [], 1) == Done(OneStore(2, 0, [2], 2))
  {
    hide Globals, Locals, Enter, Leave, BranchInner, Returning;
    var prog, last := OneProgram(BranchInner(), NestedMain()), OneStore(2, 0, [2], 2);
    OneStart(BranchInner(), NestedMain());
    OneEnter(BranchInner(), NestedMain(), STANDARD, 0, 0, [], 1);
    BranchBody();
    OneLeave(STANDARD, Done(OneStore(2, 1, [], 2)), 2, 0, [], 2, true);
    assert Exec(prog, STANDARD, NestedMain().first, 0, OneStore(0, 0, [], 1), 1) == Done(OneStore(2, 0, [], 2));
    OneWrite(STANDARD, 2, [], 2, BranchInner(), NestedMain(), 1);
    assert [] + [2] == [2];
    assert ExecAll(prog, STANDARD, NoStmts, 0, last, 1) == Done(last);
    assert ExecAll(prog, STANDARD, NestedMain().rest, 0, OneStore(2, 0, [], 2), 1) == Done(last);
  }

  /** 0 is not odd: PL/0 writes 2, and so does the machine. */
  lemma BranchRuns() returns (s': State)
    ensures var code := CompiledCode(RenderProgram(BranchBlock()));
            Reaches(code, InitState([]), s') && s'.status == IDLE && s'.output == [2]
  {
    hide LexProgram, RenderProgram, Supported, CompiledCode, ExecProgram, AllReturn;
    BranchSupported();
    OneMeaning(BranchInner(), NestedMain());
    BranchExec();
    BranchLength();
    s' := CompilesPl0(BranchBlock(), NoPads(2), [], 1);
  }
}
