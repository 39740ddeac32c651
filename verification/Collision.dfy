/** A program with two names of one bucket: the table does not tell its variables apart. */
module Collision {
  import opened Common
  import opened Machine
  import opened Syntax
  import opened Symbols
  import opened Compile
  import opened Semantics
  import opened Registers
  import opened Emission
  import opened StmtCorrect
  import opened Parsing
  import opened Programs
  import opened RoundTrip
  import opened RoundTripProgram
  import opened Standard
  import opened Scope
  import opened Naming
  import opened Overhang
  import opened Compiler
  import opened Readings
  import opened SmallTables
  import opened OneProc

  function TwinBody(): Stmt {
    Begin(Assign("ab", ConstExpr(1)), MoreStmts(Assign("bA", ConstExpr(2)), MoreStmts(Write("ab"), NoStmts)))
  }

  /** var ab, bA; begin ab := 1; bA := 2; write ab end. */
  function TwinBlock(): Block {
    Block(VarDecl("ab", VarDecl("bA", NoDecls)), TwinBody())
  }

  function TwinScope(): Scoping {
    map["ab" := Binding(VAR, 0, 4, 0), "bA" := Binding(VAR, 0, 5, 0)]
  }

  /** In PL/0. */
  function TwinMeant(): Prog {
    [Proc(0, 0, 2, Lexical(TwinScope()), TwinBody())]
  }

  function MixedScope(): Scoping {
    map["ab" := Binding(VAR, 0, 4, 0), "bA" := Binding(VAR, 0, 4, 0)]
  }

  /** As the table has it. */
  function TwinRead(): Prog {
    [Proc(0, 0, 2, Lexical(MixedScope()), TwinBody())]
  }

  lemma TwinMeaning()
    ensures LexProgram(TwinBlock()) == TwinMeant()
  {
    var s1: Scoping := map["ab" := Binding(VAR, 0, 4, 0)];
    assert "ab"[0] != "bA"[0] && s1["bA" := Binding(VAR, 0, 5, 0)] == TwinScope();
    assert LexDecls(NoDecls, 0, 0, 2, TwinScope(), 0) == (Lex(TwinScope(), 0), []);
    assert LexDecls(TwinBlock().decls.next, 0, 0, 1, s1, 0) == (Lex(TwinScope(), 0), []);
    assert LexDecls(TwinBlock().decls, 0, 0, 0, map[], 0) == (Lex(TwinScope(), 0), []);
    assert VarCount(TwinBlock().decls.next) == 1;
  }

  // ---------- the table ----------

  const SYM_AB := Symbol("ab", VAR, 0, 0, 4)
  const SYM_BA := Symbol("bA", VAR, 0, 0, 5)

  function TwinTable(): Table {
    map[8 := [SYM_AB, SYM_BA]]
  }

  /** 33 * 97 + 98 is 33 * 98 + 65. */
  lemma TwinHashes()
    ensures Hash("ab") == Hash("bA") == 8
  {
    var x, y := "ab", "bA";
    assert x[1..] == "b" && y[1..] == "A" && "b"[1..] == "" && "A"[1..] == "";
    assert HashFrom(5381, x) == HashFrom(177670, "b") == HashFrom(5863208, "") == 5863208;
    assert HashFrom(5381, y) == HashFrom(177671, "A") == HashFrom(5863208, "") == 5863208;
  }

  lemma TwinPuts()
    ensures PutSymbol(map[], SYM_AB) == map[8 := [SYM_AB]]
    ensures PutSymbol(map[8 := [SYM_AB]], SYM_BA) == TwinTable()
  {
    TwinHashes();
    hide Hash, PutSymbol;
    FreePut(map[], SYM_AB);
    SecondPut(map[8 := [SYM_AB]], SYM_BA, SYM_AB);
  }

  lemma TwinElab()
    ensures Elaborate(TwinBlock()) == [Proc(0, 0, 2, FromTable(TwinTable(), 0), TwinBody())]
  {
    TwinPuts();
    hide Hash, PutSymbol;
    var c1 := Counters(map[8 := [SYM_AB]], FRESH_OFFSETS[0 := 5], 0);
    var c2 := Counters(TwinTable(), FRESH_OFFSETS[0 := 5][0 := 6], 0);
    assert ElabDecls(NoDecls, 0, 0, c2) == (c2, []);
    assert ElabDecls(TwinBlock().decls.next, 0, 0, c1) == (c2, []);
    assert ElabDecls(TwinBlock().decls, 0, 0, InitCounters()) == (c2, []);
    assert VarCount(TwinBlock().decls.next) == 1;
  }

  lemma TwinBucket()
    ensures 8 in TwinTable() && TwinTable()[8] == [SYM_AB, SYM_BA]
    ensures SYM_AB.level == SYM_BA.level == 0 && Meaning(SYM_AB, 0) == Binding(VAR, 0, 4, 0)
  {
  }

  lemma MixedKeys(x: string)
    ensures x in MixedScope() <==> x == "ab" || x == "bA"
    ensures Lexical(MixedScope()).Find(x) == if x in MixedScope() then Some(Binding(VAR, 0, 4, 0)) else None
  {
  }

  lemma TwinFinds()
    ensures Refines(FromTable(TwinTable(), 0), Lexical(MixedScope()))
  {
    TwinHashes();
    TwinBucket();
    hide Hash, HashFrom, GetSymbol, TwinTable, MixedScope, SYM_AB, SYM_BA, Meaning, Env.Find;
    PairFound(TwinTable(), "ab", 8, 0, SYM_AB, SYM_BA);
    PairFound(TwinTable(), "bA", 8, 0, SYM_AB, SYM_BA);
    forall x {
      MixedKeys(x);
    }
  }

  lemma TwinTyped(env: Env)
    requires env.Find("ab") == env.Find("bA") == Some(Binding(VAR, 0, 4, 0))
    ensures GoodStmt(TwinBody(), env) && NeedStmt(TwinBody()) == 1 && Writable(TwinBody())
  {
    var rest := TwinBody().rest;
    ConstShape(1, 0, env);
    ConstShape(2, 0, env);
    hide ConstExpr;
    assert GoodStmts(rest.next, env) && GoodStmts(rest, env);
    assert NeedStmts(rest.next) == 1 && NeedStmts(rest) == 1;
    assert WritableAll(rest.next) && WritableAll(rest);
  }

  lemma TwinLength(env: Env)
    requires env.Find("ab") == env.Find("bA") == Some(Binding(VAR, 0, 4, 0))
    ensures |CompileStmt(TwinBody(), 0, 0, env, false)| == 6
  {
    var rest := TwinBody().rest;
    ConstShape(1, 0, env);
    ConstShape(2, 0, env);
    hide ConstExpr;
    assert |CompileStmts(rest.next, 4, 0, env, false)| == 2;
    assert |CompileStmts(rest, 2, 0, env, false)| == 4;
  }

  lemma TwinGood()
    ensures WellTyped(TwinRead()) && RegistersFit(TwinRead()) && WellFormedBlock(TwinBlock(), 0)
    ensures CodeSize(TwinRead(), 0) == 8
  {
    hide TwinBody, MixedScope, CompileStmt, GoodStmt, NeedStmt, Writable, Env.Find;
    MixedKeys("ab");
    MixedKeys("bA");
    TwinTyped(Lexical(MixedScope()));
    TwinLength(Lexical(MixedScope()));
    assert CodeSize(TwinRead(), 1) == 0;
    var d := TwinBlock().decls;
    assert Ordered(d.next, 0) && WellFormed(d.next, 0);
  }

  lemma TwinReads()
    ensures TableReads(TwinBlock(), NoPads(1), TwinRead())
  {
    hide Elaborate, TwinTable, MixedScope, Refines, WellTyped, RegistersFit, WellFormedBlock, NoCall, TwinBody,
         TwinBlock;
    TwinElab();
    TwinFinds();
    TwinGood();
  }

  // ---------- its two runs ----------

  function TwinStore(x: int, y: int, output: seq<int>): Store {
    Store([Frame(0, 0, [Some(x), Some(y)])], [], output, 1, false)
  }

  lemma TwinSet(x: int, y: int, v: int)
    ensures Store1("ab", v, Lexical(MixedScope()), TwinStore(x, y, [])) == Done(TwinStore(v, y, []))
    ensures Store1("bA", v, Lexical(MixedScope()), TwinStore(x, y, [])) == Done(TwinStore(v, y, []))
    ensures Store1("ab", v, Lexical(TwinScope()), TwinStore(x, y, [])) == Done(TwinStore(v, y, []))
    ensures Store1("bA", v, Lexical(TwinScope()), TwinStore(x, y, [])) == Done(TwinStore(x, v, []))
  {
    var frames := TwinStore(x, y, []).frames;
    assert SetVar(frames, 0, 0, v)[0].vars == [Some(v), Some(y)];
    assert SetVar(frames, 0, 1, v)[0].vars == [Some(x), Some(v)];
  }

  lemma TwinShown(prog: Prog, m: Mode, x: int, y: int)
    requires prog != [] && (prog[0].env == Lexical(MixedScope()) || prog[0].env == Lexical(TwinScope()))
    ensures Exec(prog, m, Write("ab"), 0, TwinStore(x, y, []), 0) == Done(TwinStore(x, y, [x]))
  {
    assert [] + [x] == [x];
  }

  lemma TwinRuns(prog: Prog, m: Mode, x: int, y: int)
    requires prog != [] && prog[0].vars == 2 && prog[0].body == TwinBody()
    requires || (prog[0].env == Lexical(MixedScope()) && x == 2 && y == 0)
             || (prog[0].env == Lexical(TwinScope()) && x == 1 && y == 2)
    ensures ExecProgram(prog, m, [], 0) == Done(TwinStore(x, y, [x]))
  {
    var env, rest := prog[0].env, TwinBody().rest;
    var st, st1, st2, last := TwinStore(0, 0, []), TwinStore(1, 0, []), TwinStore(x, y, []), TwinStore(x, y, [x]);
    assert InitStore(prog, []).frames[0].vars == [Some(0), Some(0)];
    ConstValue(1, env, st.frames);
    ConstValue(2, env, st1.frames);
    TwinSet(0, 0, 1);
    TwinSet(1, 0, 2);
    TwinShown(prog, m, x, y);
    hide ConstExpr, MixedScope, TwinScope, Store1, WriteValue, EvalExpr;
    assert Exec(prog, m, TwinBody().first, 0, st, 0) == Done(st1);
    assert Exec(prog, m, rest.stmt, 0, st1, 0) == Done(st2);
    assert ExecAll(prog, m, NoStmts, 0, last, 0) == Done(last);
    assert ExecAll(prog, m, rest.next, 0, st2, 0) == Done(last);
    assert ExecAll(prog, m, rest, 0, st1, 0) == Done(last);
  }

  /** PL/0 writes 1; parsed, compiled and run, the program has one variable for both names and writes 2. */
  lemma TwinDeviates() returns (s': State)
    ensures var o := ExecProgram(LexProgram(TwinBlock()), STANDARD, [], 0); o.Done? && o.st.output == [1]
    ensures TextOf(RenderProgram(TwinBlock()), TwinBlock())
    ensures var code := CompiledCode(RenderProgram(TwinBlock()));
            Reaches(code, InitState([]), s') && s'.status == IDLE && s'.output == [2]
  {
    hide ParseProgram, RenderProgram, CompiledCode, ExecProgram, LexProgram, TwinBlock, TableReads, MixedScope,
         TwinScope, CodeSize;
    TwinMeaning();
    TwinRuns(TwinMeant(), STANDARD, 1, 2);
    TwinRuns(TwinRead(), IMPLEMENTED, 2, 0);
    TwinReads();
    TwinGood();
    ReadingParses(TwinBlock(), NoPads(1), TwinRead());
    ReadingLength(RenderProgram(TwinBlock()), TwinBlock(), NoPads(1), TwinRead());
    s' := ReadingRun(RenderProgram(TwinBlock()), TwinBlock(), NoPads(1), TwinRead(), [], 0);
  }
}
