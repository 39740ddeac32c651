/**
  Runs that do not end well. Where the source semantics divides by zero or runs out of the
  machine's trace entries, the machine comes to that very instruction with the same output so
  far and is undefined there; and a run that takes more fuel than there is keeps the machine busy.
 */
module Faults {
  import opened Machine
  import opened Syntax
  import opened Symbols
  import opened Compile
  import opened Semantics
  import opened Records
  import opened Registers
  import opened ExprCorrect
  import opened StmtCorrect

  /** The machine is in front of an instruction that the fault makes undefined, `output` written so far. */
  predicate Stuck(code: seq<Instruction>, s: State, fault: Fault, output: seq<int>) {
    && s.status == RUNNING && s.output == output && 0 <= s.pc < |code|
    && Step(code, s).status == UNDEFINED && Step(code, s).output == output
    && var i := code[s.pc];
       match fault
       case DivByZero => i.op == DIV && 0 <= i.m < |s.regs| && s.regs[i.m] == 0
       case TooDeep => (i.op == CAL || i.op == RTN) && s.frameLevel == MAX_LEXI_LEVELS
       case _ => false
  }

  /** The outcomes that say what the machine comes to although the statement does not end. */
  predicate Telling(o: Outcome) {
    o.Timeout? || (o.Faulted? && (o.fault == DivByZero || o.fault == TooDeep))
  }

  /** After `n` turns from `s` the machine is stuck as `o` says, or still running after at least `fuel` turns. */
  predicate Ends(code: seq<Instruction>, s: State, o: Outcome, fuel: nat, n: nat) {
    match o
    case Timeout => fuel <= n && Run(code, s, n).status == RUNNING
    case Faulted(fault, output) => Stuck(code, Run(code, s, n), fault, output)
    case _ => false
  }

  lemma EndsAfter(code: seq<Instruction>, s: State, s1: State, o: Outcome, fuel: nat, n: nat) returns (n': nat)
    requires Reaches(code, s, s1) && Ends(code, s1, o, fuel, n)
    ensures Ends(code, s, o, fuel, n')
    ensures s1 != s ==> Ends(code, s, o, fuel + 1, n')
  {
    hide Stuck;
    var k: nat :| Run(code, s, k) == s1;
    RunAdd(code, s, k, n);
    n' := k + n;
  }

  lemma EndsHere(code: seq<Instruction>, s: State, s': State, fault: Fault, output: seq<int>) returns (n: nat)
    requires Reaches(code, s, s') && Stuck(code, s', fault, output)
    ensures Ends(code, s, Faulted(fault, output), 0, n)
    ensures forall fuel: nat :: Ends(code, s, Faulted(fault, output), fuel, n)
  {
    hide Stuck;
    n :| Run(code, s, n) == s';
  }

  // ---------- expressions ----------

  predicate Halting(v: Value) {
    v.Bad? && (v.fault == DivByZero || v.fault == TooDeep)
  }

  lemma StuckAfter(code: seq<Instruction>, s: State, s1: State, s': State, output: seq<int>)
    requires Reaches(code, s, s1) && Reaches(code, s1, s') && s1.output == s.output
    requires Stuck(code, s', DivByZero, s1.output)
    ensures Reaches(code, s, s') && Stuck(code, s', DivByZero, s.output)
  {
    hide Stuck;
    ReachTrans(code, s, s1, s');
  }

  lemma {:induction false} FactorStuck(
      code: seq<Instruction>, s: State, f: Factor, p: nat, env: Env, frames: seq<Frame>)
    returns (s': State)
    requires Ready(frames, s)
    requires At(code, s.pc, CompileFactor(f, p, env))
    requires p + NeedFactor(f) <= COMMON_REGISTER_NUMBER
    requires Halting(EvalFactor(f, env, frames))
    ensures EvalFactor(f, env, frames).fault == DivByZero
    ensures Reaches(code, s, s') && Stuck(code, s', DivByZero, s.output)
    decreases f, 1
  {
    s' := ExprStuck(code, s, f.expr, p, env, frames);
  }

  /** DIV in front of a zero divisor just computed. */
  lemma DivideStuck(code: seq<Instruction>, s: State, s1: State, p: nat, len: nat)
    requires s.status == RUNNING && p + 1 < COMMON_REGISTER_NUMBER
    requires Computed(s, s1, p + 1, 0, len)
    requires At(code, s.pc + len, [Instruction(DIV, p, p, p + 1)])
    ensures Stuck(code, s1, DivByZero, s.output)
  {
    StepAt(code, s1, Instruction(DIV, p, p, p + 1));
    assert code[s1.pc] == code[s1.pc..s1.pc + 1][0];
  }

  lemma {:induction false} FactorsStuck(
      code: seq<Instruction>, s: State, fs: Factors, p: nat, env: Env, frames: seq<Frame>)
    returns (s': State)
    requires Ready(frames, s)
    requires At(code, s.pc, CompileFactors(fs, p, env))
    requires p + NeedFactors(fs) <= COMMON_REGISTER_NUMBER && p < COMMON_REGISTER_NUMBER
    requires Halting(EvalFactors(Val(s.regs[p]), fs, env, frames))
    ensures EvalFactors(Val(s.regs[p]), fs, env, frames).fault == DivByZero
    ensures Reaches(code, s, s') && Stuck(code, s', DivByZero, s.output)
    decreases fs, 0
  {
    hide Stuck, At, EvalFactor, CompileFactor;
    var a := CompileFactor(fs.factor, p + 1, env);
    AtSplit3(code, s.pc, a, Instruction(MulOpcode(fs.op), p, p, p + 1), CompileFactors(fs.next, p, env));
    var w := EvalFactor(fs.factor, env, frames);
    var v := MulValue(fs.op, Val(s.regs[p]), w);
    if w.Bad? {
      BadFactors(w.fault, fs.next, env, frames);
      s' := FactorStuck(code, s, fs.factor, p + 1, env, frames);
    } else {
      var s1 := FactorRun(code, s, fs.factor, p + 1, env, frames);
      if v.Bad? {
        BadFactors(v.fault, fs.next, env, frames);
        DivideStuck(code, s, s1, p, |a|);
        s' := s1;
      } else {
        MulMatches(fs.op, s.regs[p], w.v);
        var s2 := OperateRun(code, s, s1, MulOpcode(fs.op), p, |a|, w.v);
        s' := FactorsStuck(code, s2, fs.next, p, env, frames);
        StuckAfter(code, s, s2, s', s.output);
      }
    }
  }

  lemma {:induction false} TermStuck(
      code: seq<Instruction>, s: State, t: Term, sign: Sign, p: nat, env: Env, frames: seq<Frame>)
    returns (s': State)
    requires Ready(frames, s)
    requires At(code, s.pc, CompileTerm(t, sign, p, env))
    requires p + NeedTerm(t) <= COMMON_REGISTER_NUMBER
    requires Halting(EvalTerm(t, env, frames))
    ensures EvalTerm(t, env, frames).fault == DivByZero
    ensures Reaches(code, s, s') && Stuck(code, s', DivByZero, s.output)
    decreases t
  {
    hide Stuck, At, EvalFactor, CompileFactor;
    var a := CompileFactor(t.factor, p, env);
    var neg := if sign == MinusSign then [Instruction(NEG, p, p, 0)] else [];
    var c := CompileFactors(t.factors, p, env);
    AtSplit(code, s.pc, a + neg, c);
    AtSplit(code, s.pc, a, neg);
    var v := EvalFactor(t.factor, env, frames);
    if v.Bad? {
      BadFactors(v.fault, t.factors, env, frames);
      s' := FactorStuck(code, s, t.factor, p, env, frames);
    } else {
      var s1 := FactorRun(code, s, t.factor, p, env, frames);
      if sign == MinusSign {
        NegateFactors(v.v, t.factors, env, frames);
        s1 := NegateRun(code, s, s1, p, |a|, v.v);
      }
      s' := FactorsStuck(code, s1, t.factors, p, env, frames);
      StuckAfter(code, s, s1, s', s.output);
    }
  }

  lemma {:induction false} TermsStuck(
      code: seq<Instruction>, s: State, ts: Terms, p: nat, env: Env, frames: seq<Frame>)
    returns (s': State)
    requires Ready(frames, s)
    requires At(code, s.pc, CompileTerms(ts, p, env))
    requires p + NeedTerms(ts) <= COMMON_REGISTER_NUMBER && p < COMMON_REGISTER_NUMBER
    requires Halting(EvalTerms(Val(s.regs[p]), ts, env, frames))
    ensures EvalTerms(Val(s.regs[p]), ts, env, frames).fault == DivByZero
    ensures Reaches(code, s, s') && Stuck(code, s', DivByZero, s.output)
    decreases ts
  {
    hide Stuck, At, EvalTerm, CompileTerm;
    var a := CompileTerm(ts.term, NoSign, p + 1, env);
    AtSplit3(code, s.pc, a, Instruction(AddOpcode(ts.op), p, p, p + 1), CompileTerms(ts.next, p, env));
    var w := EvalTerm(ts.term, env, frames);
    if w.Bad? {
      BadTerms(w.fault, ts.next, env, frames);
      s' := TermStuck(code, s, ts.term, NoSign, p + 1, env, frames);
    } else {
      var s1 := TermRun(code, s, ts.term, NoSign, p + 1, env, frames);
      var s2 := OperateRun(code, s, s1, AddOpcode(ts.op), p, |a|, w.v);
      s' := TermsStuck(code, s2, ts.next, p, env, frames);
      StuckAfter(code, s, s2, s', s.output);
    }
  }

  /** The code of an expression that divides by zero gets to that division, with nothing written. */
  lemma {:induction false} ExprStuck(
      code: seq<Instruction>, s: State, e: Expr, p: nat, env: Env, frames: seq<Frame>)
    returns (s': State)
    requires Ready(frames, s)
    requires At(code, s.pc, CompileExpr(e, p, env))
    requires p + NeedExpr(e) <= COMMON_REGISTER_NUMBER
    requires Halting(EvalExpr(e, env, frames))
    ensures EvalExpr(e, env, frames).fault == DivByZero
    ensures Reaches(code, s, s') && Stuck(code, s', DivByZero, s.output)
    decreases e
  {
    hide Stuck, At, EvalTerm, CompileTerm;
    var a := CompileTerm(e.term, e.sign, p, env);
    AtSplit(code, s.pc, a, CompileTerms(e.terms, p, env));
    var v := EvalTerm(e.term, env, frames);
    if v.Bad? {
      BadTerms(v.fault, e.terms, env, frames);
      s' := TermStuck(code, s, e.term, e.sign, p, env, frames);
    } else {
      var s1 := TermRun(code, s, e.term, e.sign, p, env, frames);
      s' := TermsStuck(code, s1, e.terms, p, env, frames);
      StuckAfter(code, s, s1, s', s.output);
    }
  }

  lemma CondStuck(code: seq<Instruction>, s: State, c: Cond, p: nat, env: Env, frames: seq<Frame>)
    returns (s': State)
    requires Ready(frames, s)
    requires At(code, s.pc, CompileCond(c, p, env))
    requires p + NeedCond(c) <= COMMON_REGISTER_NUMBER
    requires Halting(EvalCond(c, env, frames))
    ensures EvalCond(c, env, frames).fault == DivByZero
    ensures Reaches(code, s, s') && Stuck(code, s', DivByZero, s.output)
  {
    hide Stuck, At, EvalExpr, CompileExpr;
    match c
    case Odd(e) =>
      AtSplit(code, s.pc, CompileExpr(e, p, env), [Instruction(ODD, p, p, 0)]);
      s' := ExprStuck(code, s, e, p, env, frames);
    case Compare(op, l, r) =>
      var a, b := CompileExpr(l, p, env), CompileExpr(r, p + 1, env);
      AtSplit(code, s.pc, a + b, [Instruction(RelOpcode(op), p, p, p + 1)]);
      AtSplit(code, s.pc, a, b);
      if EvalExpr(l, env, frames).Bad? {
        s' := ExprStuck(code, s, l, p, env, frames);
      } else {
        var s1 := ExprRun(code, s, l, p, env, frames);
        s' := ExprStuck(code, s1, r, p + 1, env, frames);
        StuckAfter(code, s, s1, s', s.output);
      }
  }

  // ---------- statements ----------

  /** Everything `StmtEnds` asks for. */
  ghost predicate StartBad(
      code: seq<Instruction>, prog: Prog, entry: seq<int>, s: State, seg: seq<Instruction>, need: nat,
      id: nat, st: Store, ras: seq<int>, o: Outcome)
  {
    Begins(code, prog, entry, s, seg, need, id, st, ras) && Telling(o)
  }

  lemma SyncReady(st: Store, ras: seq<int>, s: State)
    requires Sync(st, ras, s)
    ensures Ready(st.frames, s)
  {
    LaidReadable(st.frames, ras, s.stack);
  }

  lemma {:induction false} CallEnds(
      code: seq<Instruction>, prog: Prog, entry: seq<int>, s: State, x: string, p: nat,
      id: nat, st: Store, ras: seq<int>, fuel: nat)
    returns (n: nat)
    requires id < |prog|
    requires var o := Exec(prog, IMPLEMENTED, Call(x), id, st, fuel);
             StartBad(code, prog, entry, s, Access(CAL, 0, x, prog[id].env), p, id, st, ras, o)
    requires Topped(st, s)
    ensures Ends(code, s, Exec(prog, IMPLEMENTED, Call(x), id, st, fuel), fuel, n)
    decreases fuel, Call(x), 0
  {
    hide Stuck, Placed, RegistersFit, Laid, CompileStmt, Access, At;
    var env := prog[id].env;
    var o := Enter(prog, IMPLEMENTED, x, env, st);
    if !o.Done? {
      CallStuck(code, prog, s, x, env, st, ras);
      ReachSelf(code, s);
      n := EndsHere(code, s, s, TooDeep, st.output);
    } else if fuel == 0 {
      n := 0;
    } else {
      var s1 := EnterRun(code, prog, entry, s, x, env, st, ras);
      var callee, ras1 := Running(o.st.frames), ras + [s.pc + 1];
      var body := prog[callee].body;
      AtBody(code, prog, entry, callee);
      CalleeFits(prog, callee);
      var ob := Exec(prog, IMPLEMENTED, body, callee, o.st, fuel - 1);
      if ob.Returned? {
        var s2 := StmtRun(code, prog, entry, s1, body, 0, callee, o.st, ras1, fuel - 1);
        ReturnStuck(code, s2, ob.st, ras1);
        ReachTrans(code, s, s1, s2);
        n := EndsHere(code, s, s2, TooDeep, ob.st.output);
      } else {
        n := StmtEnds(code, prog, entry, s1, body, 0, callee, o.st, ras1, fuel - 1);
        n := EndsAfter(code, s, s1, ob, fuel - 1, n);
      }
    }
  }

  /** With one record more than there are trace entries, CAL is undefined. */
  lemma CallStuck(code: seq<Instruction>, prog: Prog, s: State, x: string, env: Env, st: Store, ras: seq<int>)
    requires Sync(st, ras, s) && At(code, s.pc, Access(CAL, 0, x, env))
    requires IsDeep(Enter(prog, IMPLEMENTED, x, env, st))
    ensures Stuck(code, s, TooDeep, st.output)
  {
    StepAt(code, s, Access(CAL, 0, x, env)[0]);
    assert code[s.pc] == code[s.pc..s.pc + 1][0];
  }

  predicate IsDeep(o: Outcome) {
    o.Faulted? && o.fault == TooDeep
  }

  /** And so is RTN. */
  lemma ReturnStuck(code: seq<Instruction>, s: State, st: Store, ras: seq<int>)
    requires Sync(st, ras, s) && |st.frames| > MAX_LEXI_LEVELS
    requires At(code, s.pc, [Instruction(RTN, 0, 0, 0)])
    ensures Stuck(code, s, TooDeep, st.output)
  {
    StepAt(code, s, Instruction(RTN, 0, 0, 0));
    assert code[s.pc] == code[s.pc..s.pc + 1][0];
  }

  lemma {:induction false} BeginEnds(
      code: seq<Instruction>, prog: Prog, entry: seq<int>, s: State, stmt: Stmt, p: nat,
      id: nat, st: Store, ras: seq<int>, fuel: nat)
    returns (n: nat)
    requires id < |prog| && stmt.Begin?
    requires var o := Exec(prog, IMPLEMENTED, stmt, id, st, fuel);
             StartBad(code, prog, entry, s, CompileStmt(stmt, s.pc, p, prog[id].env, id > 0), p + NeedStmt(stmt), id,
                      st, ras, o)
    requires Topped(st, s) || NoCall(stmt)
    ensures Ends(code, s, Exec(prog, IMPLEMENTED, stmt, id, st, fuel), fuel, n)
    decreases fuel, stmt, 0
  {
    hide CompileStmts, ExecAll, Sync, SameShape, Placed, RegistersFit, At, Ends;
    var env := prog[id].env;
    var a := CompileStmt(stmt.first, s.pc, p, env, id > 0);
    var b := CompileStmts(stmt.rest, s.pc + |a|, p, env, id > 0);
    var rtn := if id > 0 then [Instruction(RTN, 0, 0, 0)] else [];
    AtSplit(code, s.pc, a + b, rtn);
    AtSplit(code, s.pc, a, b);
    var o := Exec(prog, IMPLEMENTED, stmt.first, id, st, fuel);
    if !o.Done? {
      n := StmtEnds(code, prog, entry, s, stmt.first, p, id, st, ras, fuel);
    } else {
      var s1 := StmtRun(code, prog, entry, s, stmt.first, p, id, st, ras, fuel);
      n := StmtsEnds(code, prog, entry, s1, stmt.rest, p, id, o.st, ras, fuel);
      n := EndsAfter(code, s, s1, ExecAll(prog, IMPLEMENTED, stmt.rest, id, o.st, fuel), fuel, n);
    }
  }

  /** A condition that divides by zero, in front of its jump. */
  lemma BranchStuck(
      code: seq<Instruction>, s: State, c: Cond, p: nat, env: Env, target: int, st: Store, ras: seq<int>)
    returns (n: nat)
    requires Sync(st, ras, s)
    requires At(code, s.pc, CompileCond(c, p, env) + [Instruction(JPC, p, 0, target)])
    requires p + NeedCond(c) <= COMMON_REGISTER_NUMBER
    requires Halting(EvalCond(c, env, st.frames))
    ensures EvalCond(c, env, st.frames).fault == DivByZero
    ensures forall fuel: nat :: Ends(code, s, Faulted(DivByZero, st.output), fuel, n)
  {
    hide Stuck, At, EvalCond, CompileCond;
    AtSplit(code, s.pc, CompileCond(c, p, env), [Instruction(JPC, p, 0, target)]);
    SyncReady(st, ras, s);
    var s' := CondStuck(code, s, c, p, env, st.frames);
    n := EndsHere(code, s, s', DivByZero, st.output);
  }

  lemma {:induction false} IfEnds(
      code: seq<Instruction>, prog: Prog, entry: seq<int>, s: State, stmt: Stmt, p: nat,
      id: nat, st: Store, ras: seq<int>, fuel: nat)
    returns (n: nat)
    requires id < |prog| && stmt.If?
    requires var o := Exec(prog, IMPLEMENTED, stmt, id, st, fuel);
             StartBad(code, prog, entry, s, CompileStmt(stmt, s.pc, p, prog[id].env, id > 0), p + NeedStmt(stmt), id,
                      st, ras, o)
    requires Topped(st, s) || NoCall(stmt)
    ensures Ends(code, s, Exec(prog, IMPLEMENTED, stmt, id, st, fuel), fuel, n)
    decreases fuel, stmt, 0
  {
    hide CompileCond, EvalCond, Sync, Branch, Placed, RegistersFit, At, Ends;
    var env := prog[id].env;
    var cc := CompileCond(stmt.cond, p, env);
    var tt := CompileStmt(stmt.thn, s.pc + |cc| + 1, p + 1, env, id > 0);
    var after := s.pc + |cc| + |tt| + 2;
    BranchParts(code, s.pc, cc, p, after, tt, after, []);
    if EvalCond(stmt.cond, env, st.frames).Bad? {
      n := BranchStuck(code, s, stmt.cond, p, env, after, st, ras);
    } else {
      var s1 := BranchRun(code, s, stmt.cond, p, env, after, st, ras);
      n := StmtEnds(code, prog, entry, s1, stmt.thn, p + 1, id, st, ras, fuel);
      n := EndsAfter(code, s, s1, Exec(prog, IMPLEMENTED, stmt.thn, id, st, fuel), fuel, n);
    }
  }

  lemma {:induction false} IfElseEnds(
      code: seq<Instruction>, prog: Prog, entry: seq<int>, s: State, stmt: Stmt, p: nat,
      id: nat, st: Store, ras: seq<int>, fuel: nat)
    returns (n: nat)
    requires id < |prog| && stmt.IfElse?
    requires var o := Exec(prog, IMPLEMENTED, stmt, id, st, fuel);
             StartBad(code, prog, entry, s, CompileStmt(stmt, s.pc, p, prog[id].env, id > 0), p + NeedStmt(stmt), id,
                      st, ras, o)
    requires Topped(st, s) || NoCall(stmt)
    ensures Ends(code, s, Exec(prog, IMPLEMENTED, stmt, id, st, fuel), fuel, n)
    decreases fuel, stmt, 0
  {
    hide CompileCond, EvalCond, CompileStmt, Exec, NeedStmt, NoCall, Sync, Branch, Placed, RegistersFit, At, Ends;
    IfElseShape(stmt.cond, stmt.thn, stmt.els, s.pc, p, prog[id].env, id > 0);
    IfElseParts(prog, stmt, id, st, fuel);
    var env := prog[id].env;
    var cc := CompileCond(stmt.cond, p, env);
    var tt := CompileStmt(stmt.thn, s.pc + |cc| + 1, p + 1, env, id > 0);
    var otherwise := s.pc + |cc| + |tt| + 2;
    var ee := CompileStmt(stmt.els, otherwise, p + 1, env, id > 0);
    BranchParts(code, s.pc, cc, p, otherwise, tt, otherwise + |ee|, ee);
    var c := EvalCond(stmt.cond, env, st.frames);
    if c.Bad? {
      n := BranchStuck(code, s, stmt.cond, p, env, otherwise, st, ras);
    } else {
      var s1 := BranchRun(code, s, stmt.cond, p, env, otherwise, st, ras);
      var next := if c.v != 0 then stmt.thn else stmt.els;
      n := StmtEnds(code, prog, entry, s1, next, p + 1, id, st, ras, fuel);
      n := EndsAfter(code, s, s1, Exec(prog, IMPLEMENTED, next, id, st, fuel), fuel, n);
    }
  }

  /** Every turn of a loop costs the machine turns too, so fuel used up is turns taken. */
  lemma {:induction false} WhileEnds(
      code: seq<Instruction>, prog: Prog, entry: seq<int>, s: State, stmt: Stmt, p: nat,
      id: nat, st: Store, ras: seq<int>, fuel: nat)
    returns (n: nat)
    requires id < |prog| && stmt.While?
    requires var o := Exec(prog, IMPLEMENTED, stmt, id, st, fuel);
             StartBad(code, prog, entry, s, CompileStmt(stmt, s.pc, p, prog[id].env, id > 0), p + NeedStmt(stmt), id,
                      st, ras, o)
    requires Topped(st, s) || NoCall(stmt)
    ensures Ends(code, s, Exec(prog, IMPLEMENTED, stmt, id, st, fuel), fuel, n)
    decreases fuel, stmt, 0
  {
    hide CompileCond, EvalCond, Sync, Branch, Placed, RegistersFit, At, Ends, SameShape;
    var env := prog[id].env;
    var cc := CompileCond(stmt.cond, p, env);
    var bb := CompileStmt(stmt.body, s.pc + |cc| + 1, p + 1, env, id > 0);
    var after := s.pc + |cc| + |bb| + 2;
    BranchParts(code, s.pc, cc, p, after, bb, s.pc, []);
    if EvalCond(stmt.cond, env, st.frames).Bad? {
      n := BranchStuck(code, s, stmt.cond, p, env, after, st, ras);
    } else {
      var s1 := BranchRun(code, s, stmt.cond, p, env, after, st, ras);
      assert s1.pc > s.pc;
      var o := Exec(prog, IMPLEMENTED, stmt.body, id, st, fuel);
      if !o.Done? {
        n := StmtEnds(code, prog, entry, s1, stmt.body, p + 1, id, st, ras, fuel);
        n := EndsAfter(code, s, s1, o, fuel, n);
      } else if fuel == 0 {
        RunningNow(code, st, ras, s);
        n := 0;
      } else {
        var s2 := BodyRun(code, prog, entry, s1, stmt.body, p, id, st, ras, fuel, s.pc);
        n := WhileEnds(code, prog, entry, s2, stmt, p, id, o.st, ras, fuel - 1);
        var o' := Exec(prog, IMPLEMENTED, stmt, id, o.st, fuel - 1);
        n := EndsAfter(code, s1, s2, o', fuel - 1, n);
        n := EndsAfter(code, s, s1, o', fuel - 1, n);
      }
    }
  }

  lemma RunningNow(code: seq<Instruction>, st: Store, ras: seq<int>, s: State)
    requires Sync(st, ras, s)
    ensures Ends(code, s, Timeout, 0, 0)
  {
  }

  /** The code of a statement that faults, or does not end, faults where the statement does, or keeps running. */
  lemma {:induction false} StmtEnds(
      code: seq<Instruction>, prog: Prog, entry: seq<int>, s: State, stmt: Stmt, p: nat,
      id: nat, st: Store, ras: seq<int>, fuel: nat)
    returns (n: nat)
    requires id < |prog|
    requires var o := Exec(prog, IMPLEMENTED, stmt, id, st, fuel);
             StartBad(code, prog, entry, s, CompileStmt(stmt, s.pc, p, prog[id].env, id > 0), p + NeedStmt(stmt), id,
                      st, ras, o)
    requires Topped(st, s) || NoCall(stmt)
    ensures Ends(code, s, Exec(prog, IMPLEMENTED, stmt, id, st, fuel), fuel, n)
    decreases fuel, stmt, 1
  {
    hide Ends, Sync, Placed, RegistersFit, At, EvalExpr, CompileExpr;
    match stmt
    case Empty =>
    case Assign(x, e) => n := AssignStuck(code, s, x, e, p, prog[id].env, st, ras);
    case Call(x) => n := CallEnds(code, prog, entry, s, x, p, id, st, ras, fuel);
    case Begin(_, _) => n := BeginEnds(code, prog, entry, s, stmt, p, id, st, ras, fuel);
    case If(_, _) => n := IfEnds(code, prog, entry, s, stmt, p, id, st, ras, fuel);
    case IfElse(_, _, _) => n := IfElseEnds(code, prog, entry, s, stmt, p, id, st, ras, fuel);
    case While(_, _) => n := WhileEnds(code, prog, entry, s, stmt, p, id, st, ras, fuel);
    case Read(_) =>
    case Write(_) =>
  }

  lemma AssignStuck(
      code: seq<Instruction>, s: State, x: string, e: Expr, p: nat, env: Env, st: Store, ras: seq<int>)
    returns (n: nat)
    requires Sync(st, ras, s)
    requires At(code, s.pc, CompileExpr(e, p, env) + Access(STO, p, x, env))
    requires p + NeedExpr(e) <= COMMON_REGISTER_NUMBER
    requires Halting(EvalExpr(e, env, st.frames))
    ensures EvalExpr(e, env, st.frames).fault == DivByZero
    ensures forall fuel: nat :: Ends(code, s, Faulted(DivByZero, st.output), fuel, n)
  {
    hide Stuck, At, EvalExpr, CompileExpr;
    AtSplit(code, s.pc, CompileExpr(e, p, env), Access(STO, p, x, env));
    SyncReady(st, ras, s);
    var s' := ExprStuck(code, s, e, p, env, st.frames);
    n := EndsHere(code, s, s', DivByZero, st.output);
  }

  lemma {:induction false} StmtsEnds(
      code: seq<Instruction>, prog: Prog, entry: seq<int>, s: State, ss: Stmts, p: nat,
      id: nat, st: Store, ras: seq<int>, fuel: nat)
    returns (n: nat)
    requires id < |prog|
    requires var o := ExecAll(prog, IMPLEMENTED, ss, id, st, fuel);
             StartBad(code, prog, entry, s, CompileStmts(ss, s.pc, p, prog[id].env, id > 0), p + NeedStmts(ss), id,
                      st, ras, o)
    requires Topped(st, s) || NoCallAll(ss)
    ensures Ends(code, s, ExecAll(prog, IMPLEMENTED, ss, id, st, fuel), fuel, n)
    decreases fuel, ss, 0
  {
    hide CompileStmt, Exec, Sync, SameShape, Placed, RegistersFit, At, Ends;
    match ss
    case NoStmts =>
    case MoreStmts(stmt, next) =>
      var a := CompileStmt(stmt, s.pc, p, prog[id].env, id > 0);
      var b := CompileStmts(next, s.pc + |a|, p, prog[id].env, id > 0);
      AtSplit(code, s.pc, a, b);
      var o := Exec(prog, IMPLEMENTED, stmt, id, st, fuel);
      if !o.Done? {
        n := StmtEnds(code, prog, entry, s, stmt, p, id, st, ras, fuel);
      } else {
        var s1 := StmtRun(code, prog, entry, s, stmt, p, id, st, ras, fuel);
        n := StmtsEnds(code, prog, entry, s1, next, p, id, o.st, ras, fuel);
        n := EndsAfter(code, s, s1, ExecAll(prog, IMPLEMENTED, next, id, o.st, fuel), fuel, n);
      }
  }

  /** A loaded program that faults, or does not end, does the same on the machine from its initial state. */
  lemma ProgramEnds(code: seq<Instruction>, prog: Prog, entry: seq<int>, input: seq<int>, fuel: nat)
    returns (n: nat)
    requires Placed(code, prog, entry) && RegistersFit(prog)
    requires Telling(ExecProgram(prog, IMPLEMENTED, input, fuel))
    ensures Ends(code, InitState(input), ExecProgram(prog, IMPLEMENTED, input, fuel), fuel, n)
  {
    hide CompileStmt, NeedStmt, Ends;
    var s := InitState(input);
    var st := InitStore(prog, input);
    var s1 := TrampolineRun(code, prog, entry, s, 0);
    AtBody(code, prog, entry, 0);
    InitSync(prog, input, s1);
    assert NeedStmt(prog[0].body) <= COMMON_REGISTER_NUMBER;
    n := StmtEnds(code, prog, entry, s1, prog[0].body, 0, 0, st, [0], fuel);
    n := EndsAfter(code, s, s1, ExecProgram(prog, IMPLEMENTED, input, fuel), fuel, n);
  }
}
