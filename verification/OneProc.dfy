/** Programs with one variable and one procedure: what the theorems ask of them, and their stores. */
module OneProc {
  import opened Common
  import opened Machine
  import opened Syntax
  import opened Symbols
  import opened Compile
  import opened Semantics
  import opened Registers
  import opened Emission
  import opened StmtCorrect
  import opened Parsing
  import opened Programs
  import opened RoundTrip
  import opened RoundTripProgram
  import opened Standard
  import opened Scope
  import opened DistinctNames
  import opened Naming
  import opened Uses
  import opened Overhang
  import opened SmallTables
  import opened Room
  import opened Compiler
  import opened Readings
  import opened Pl0
  import opened Pl0Safety

  /** var x; procedure p; `inner`; `main`. */
  function OneBlock(inner: Stmt, main: Stmt): Block {
    Block(VarDecl("x", ProcDecl("p", Block(NoDecls, inner), NoDecls)), main)
  }

  function Globals(): Scoping {
    map["x" := Binding(VAR, 0, 4, 0), "p" := Binding(PROC, 0, 1, 0)]
  }

  function Locals(): Scoping {
    map["x" := Binding(VAR, 1, 4, 0), "p" := Binding(PROC, 1, 1, 0)]
  }

  function OneProgram(inner: Stmt, main: Stmt): Prog {
    [Proc(0, 0, 1, Lexical(Globals()), main), Proc(1, 0, 0, Lexical(Locals()), inner)]
  }

  lemma OneMeaning(inner: Stmt, main: Stmt)
    ensures LexProgram(OneBlock(inner, main)) == OneProgram(inner, main)
  {
    var d := OneBlock(inner, main).decls;
    var s1: Scoping := map["x" := Binding(VAR, 0, 4, 0)];
    assert Deepen(Globals()) == Locals();
    assert LexDecls(NoDecls, 1, 1, 0, Locals(), 1) == (Lex(Locals(), 1), []);
    assert LexDecls(NoDecls, 0, 0, 1, Globals(), 1) == (Lex(Globals(), 1), []);
    assert s1["p" := Binding(PROC, 0, 1, 0)] == Globals();
    var p := Proc(1, 0, 0, Lexical(Locals()), inner);
    assert LexDecls(d.next, 0, 0, 1, s1, 0) == (Lex(Globals(), 1), [p] + [] + []);
    assert LexDecls(d, 0, 0, 0, map[], 0) == LexDecls(d.next, 0, 0, 1, s1, 0);
    assert VarCount(d.next) == 0 && VarCount(d) == 1;
    assert [p] + [] + [] == [p];
    assert LexDecls(d, 0, 0, 0, map[], 0) == (Lex(Globals(), 1), [p]);
    assert [Proc(0, 0, 1, Lexical(Globals()), main)] + [p] == OneProgram(inner, main);
  }

  lemma OneDistinct(inner: Stmt, main: Stmt)
    ensures var b := OneBlock(inner, main); Distinct(b.decls, {}) && FreshLevels(b.decls, 0, InitCounters())
  {
    HashOf("x", 120);
    HashOf("p", 112);
    hide Hash, PutSymbol;
    var d := OneBlock(inner, main).decls;
    assert Distinct(NoDecls, {} + {93} + {85}) && Distinct(NoDecls, {} + {93} + {85} + DeclHashes(NoDecls));
    assert Distinct(d.next, {} + {93});
    assert Distinct(d, {});
    var s1 := Counters(PutSymbol(map[], Symbol("x", VAR, 0, 0, 4)), [4, 4, 4, 4, 4][0 := 5], 0);
    assert FreshLevels(d.next, 0, s1);
    assert FreshLevels(d, 0, InitCounters());
  }

  lemma OneClear(inner: Stmt, main: Stmt)
    ensures var b := OneBlock(inner, main);
            LevelsFit(b.decls, 0) && Clear(b, NoPads(|LexProgram(b)|)) && ClearScopes(b) && Once(b.decls)
  {
    hide Clear, ClearScopes, Distinct, FreshLevels, LexProgram;
    OneDistinct(inner, main);
    assert LevelsFit(OneBlock(inner, main).decls.next, 0);
    assert "x"[0] != "p"[0] && Once(OneBlock(inner, main).decls.next);
    DistinctClear(OneBlock(inner, main));
    ScopesClear(OneBlock(inner, main));
  }

  /** What is left to ask of the two bodies. */
  lemma OneCompilable(inner: Stmt, main: Stmt)
    requires GoodStmt(inner, Lexical(Locals())) && GoodStmt(main, Lexical(Globals()))
    requires Writable(inner) && Writable(main) && inner != Empty
    requires NeedStmt(inner) <= COMMON_REGISTER_NUMBER && NeedStmt(main) <= COMMON_REGISTER_NUMBER
    ensures Compilable(OneBlock(inner, main), NoPads(2)) && Compact(OneBlock(inner, main))
  {
    hide LexProgram, GoodStmt, Writable, NeedStmt, Clear, Globals, Locals;
    OneMeaning(inner, main);
    OneClear(inner, main);
    assert WellFormedBlock(Block(NoDecls, inner), 1);
    assert WellFormed(OneBlock(inner, main).decls.next, 0);
    assert Ordered(NoDecls, 2);
    assert Ordered(OneBlock(inner, main).decls.next, 1);
    var b := OneBlock(inner, main);
    assert WellFormed(b.decls, 0);
    assert WellFormedBlock(b, 0);
    assert WellTyped(OneProgram(inner, main));
    assert RegistersFit(OneProgram(inner, main));
    assert |OneProgram(inner, main)| == 2;
  }

  lemma OneSupported(inner: Stmt, main: Stmt)
    requires Compilable(OneBlock(inner, main), NoPads(2))
    requires NoConstWrite(inner, Lexical(Locals())) && NoConstWrite(main, Lexical(Globals()))
    requires Tail(inner)
    ensures Supported(OneBlock(inner, main), NoPads(2))
  {
    hide LexProgram, Compilable, NoConstWrite, Tail, Globals, Locals;
    var b := OneBlock(inner, main);
    OneMeaning(inner, main);
    OneClear(inner, main);
    UnpaddedProgram(b);
    ClearSmall(b);
    assert |OneProgram(inner, main)| == 2;
  }

  lemma OneLength(inner: Stmt, main: Stmt)
    requires Compilable(OneBlock(inner, main), NoPads(2))
    ensures var prog := OneProgram(inner, main);
            |CompiledCode(RenderProgram(OneBlock(inner, main)))|
            == 5 + |CompileStmt(main, 0, 0, prog[0].env, false)| + |CompileStmt(inner, 0, 0, prog[1].env, true)|
  {
    hide LexProgram, RenderProgram, ParseProgram, CompiledCode, Compilable, CompileStmt, Globals, Locals;
    OneMeaning(inner, main);
    assert |OneProgram(inner, main)| == 2;
    CompilableParses(OneBlock(inner, main), NoPads(2));
    CompactLength(RenderProgram(OneBlock(inner, main)), OneBlock(inner, main));
    var prog := OneProgram(inner, main);
    assert CodeSize(prog, 1) == |ProcCode(prog, 1, -1)| + CodeSize(prog, 2);
  }

  lemma ConstShape(v: int, p: int, env: Env)
    requires v <= MAX_NUMBER
    ensures GoodExpr(ConstExpr(v), env) && NeedExpr(ConstExpr(v)) == 1
    ensures CompileExpr(ConstExpr(v), p, env) == [Instruction(LIT, p, 0, v)]
  {
    var t := Term(Number(v), NoFactors);
    assert GoodFactor(t.factor, env) && GoodTerm(t, env);
    assert NeedFactor(t.factor) == 1 && NeedTerm(t) == 1;
    assert CompileFactor(t.factor, p, env) == [Instruction(LIT, p, 0, v)];
    assert CompileTerm(t, NoSign, p, env) == [Instruction(LIT, p, 0, v)];
  }

  lemma ConstNames(v: int)
    ensures ExprNames(ConstExpr(v)) == {}
  {
    assert TermNames(Term(Number(v), NoFactors)) == {};
  }

  // ---------- stores ----------

  /** `calls` records of p above that of the program, the first `done` outputs written. */
  function OneStore(x: int, calls: nat, output: seq<int>, peak: nat): Store {
    Store([Frame(0, 0, [Some(x)])] + seq(calls, _ => Frame(1, 0, [])), [], output, peak, false)
  }

  lemma OneStart(inner: Stmt, main: Stmt)
    ensures InitStore(OneProgram(inner, main), []) == OneStore(0, 0, [], 1)
  {
    assert InitStore(OneProgram(inner, main), []).frames[0].vars == [Some(0)];
  }

  /** The variable, from the program as from any call of p. */
  lemma OneVar(x: int, calls: nat, output: seq<int>, peak: nat)
    ensures var frames := OneStore(x, calls, output, peak).frames;
            && Locate(frames, if calls == 0 then 0 else 1, 4) == Some((0, 0))
            && ReadVar(frames, if calls == 0 then 0 else 1, 4) == Val(x)
            && forall v :: SetVar(frames, 0, 0, v) == OneStore(v, calls, output, peak).frames
  {
    var frames := OneStore(x, calls, output, peak).frames;
    if calls > 0 {
      assert frames[calls] == Frame(1, 0, []);
      assert Hop(frames, calls, 1) == Hop(frames, 0, 0) == Some(0);
    }
    forall v ensures SetVar(frames, 0, 0, v) == OneStore(v, calls, output, peak).frames {
      assert SetVar(frames, 0, 0, v)[0].vars == [Some(v)];
    }
  }

  /** The names of the bodies, as the run looks them up. */
  function OneEnv(calls: nat): Env {
    Lexical(if calls == 0 then Globals() else Locals())
  }

  lemma OneAssign(x: int, calls: nat, output: seq<int>, peak: nat, v: int)
    ensures Store1("x", v, OneEnv(calls), OneStore(x, calls, output, peak)) == Done(OneStore(v, calls, output, peak))
  {
    OneVar(x, calls, output, peak);
  }

  lemma OneEnter(inner: Stmt, main: Stmt, m: Mode, x: int, calls: nat, output: seq<int>, peak: nat)
    requires m == IMPLEMENTED ==> calls < MAX_LEXI_LEVELS
    ensures Enter(OneProgram(inner, main), m, "p", OneEnv(calls), OneStore(x, calls, output, peak))
         == Done(OneStore(x, calls + 1, output, if calls + 1 < peak then peak else calls + 2))
  {
    var st := OneStore(x, calls, output, peak);
    OneVar(x, calls, output, peak);
    assert Hop(st.frames, calls, if calls == 0 then 0 else 1) == Some(0);
    assert NewFrame(1, 0, 0).vars == [];
    assert st.frames + [Frame(1, 0, [])] == OneStore(x, calls + 1, output, peak).frames;
    if m == IMPLEMENTED {
      OneHeight(x, calls, output, peak);
    }
  }

  lemma {:induction false} OneHeight(x: int, calls: nat, output: seq<int>, peak: nat)
    ensures Height(OneStore(x, calls, output, peak).frames) == 5 + 4 * calls
    decreases calls
  {
    var frames := OneStore(x, calls, output, peak).frames;
    if calls == 0 {
      assert frames[..0] == [];
    } else {
      OneHeight(x, calls - 1, output, peak);
      assert frames[..calls] == OneStore(x, calls - 1, output, peak).frames;
    }
  }

  lemma OneLeave(m: Mode, o: Outcome, x: int, calls: nat, output: seq<int>, peak: nat, returning: bool)
    requires var st := OneStore(x, calls + 1, output, peak); o == if m == STANDARD then Done(st) else Returned(st)
    requires m == IMPLEMENTED ==> calls + 2 <= MAX_LEXI_LEVELS
    ensures returning ==> Leave(m, o, returning) == Done(OneStore(x, calls, output, peak))
    ensures m == STANDARD && !returning ==>
      Leave(m, o, returning) == Done(OneStore(x, calls, output, peak).(fell := true))
  {
    assert OneStore(x, calls + 1, output, peak).frames[..calls + 1] == OneStore(x, calls, output, peak).frames;
  }

  lemma OneWrite(m: Mode, x: int, output: seq<int>, peak: nat, inner: Stmt, main: Stmt, fuel: nat)
    ensures Exec(OneProgram(inner, main), m, Write("x"), 0, OneStore(x, 0, output, peak), fuel)
         == Done(OneStore(x, 0, output + [x], peak))
  {
    OneVar(x, 0, output, peak);
  }
}
