/**
  One-pass emission refines tree compilation: whenever a parse succeeds, recovered errors
  included, the code it has emitted is the compiled code of the tree it has built, every jump
  patched to its final target, and the register pointer is where the grammar symbol leaves it.
 */
module Emission {
  import opened Common
  import opened Machine
  import opened Syntax
  import opened Symbols
  import opened Compile
  import opened CodeSets
  import opened Parsing

  /** From `st` to `st'`: tokens consumed, `code` emitted, `regs` more registers in use; nothing else. */
  ghost predicate Emitted(st: PState, st': PState, code: seq<Instruction>, regs: int) {
    st' == st.(rest := st'.rest, code := AppendAll(st.code, st.cur, code), reg := st.reg + regs)
  }

  /** What the parser accepts as operands: declared constants and variables, and small numbers. */
  predicate GoodFactor(f: Factor, env: Env) {
    match f
    case Ident(x) => env.Find(x).Some? && env.Find(x).value.kind != PROC
    case Number(v) => v <= MAX_NUMBER
    case Paren(e) => GoodExpr(e, env)
  }

  predicate GoodFactors(fs: Factors, env: Env) {
    match fs
    case NoFactors => true
    case MoreFactors(_, f, next) => GoodFactor(f, env) && GoodFactors(next, env)
  }

  predicate GoodTerm(t: Term, env: Env) {
    GoodFactor(t.factor, env) && GoodFactors(t.factors, env)
  }

  predicate GoodTerms(ts: Terms, env: Env) {
    match ts
    case NoTerms => true
    case MoreTerms(_, t, next) => GoodTerm(t, env) && GoodTerms(next, env)
  }

  predicate GoodExpr(e: Expr, env: Env) {
    GoodTerm(e.term, env) && GoodTerms(e.terms, env)
  }

  predicate GoodCond(c: Cond, env: Env) {
    match c
    case Odd(e) => GoodExpr(e, env)
    case Compare(_, l, r) => GoodExpr(l, env) && GoodExpr(r, env)
  }

  predicate IsKind(x: string, env: Env, kinds: set<SymbolKind>) {
    env.Find(x).Some? && env.Find(x).value.kind in kinds
  }

  /** What the parser accepts as a statement; assigning to any declared name is only reported. */
  predicate GoodStmt(s: Stmt, env: Env) {
    match s
    case Empty => true
    case Assign(x, e) => env.Find(x).Some? && GoodExpr(e, env)
    case Call(x) => IsKind(x, env, {PROC})
    case Begin(first, rest) => GoodStmt(first, env) && GoodStmts(rest, env)
    case If(c, t) => GoodCond(c, env) && GoodStmt(t, env)
    case IfElse(c, t, e) => GoodCond(c, env) && GoodStmt(t, env) && GoodStmt(e, env)
    case While(c, b) => GoodCond(c, env) && GoodStmt(b, env)
    case Read(x) => IsKind(x, env, {VAR})
    case Write(x) => IsKind(x, env, {VAR, CONST})
  }

  predicate GoodStmts(ss: Stmts, env: Env) {
    match ss
    case NoStmts => true
    case MoreStmts(s, next) => GoodStmt(s, env) && GoodStmts(next, env)
  }

  // ---------- emission bookkeeping ----------

  lemma EmittedNone(st: PState, st': PState)
    requires st' == st.(rest := st'.rest)
    ensures Emitted(st, st', [], 0)
  {
  }

  lemma EmittedTwice(st: PState, st1: PState, st2: PState, a: seq<Instruction>, b: seq<Instruction>, m: int, n: int)
    requires Emitted(st, st1, a, m) && Emitted(st1, st2, b, n)
    ensures Emitted(st, st2, a + b, m + n)
    ensures st1.Length() == st.Length() + |a|
    ensures st1.Env() == st.Env() && st1.cur == st.cur
  {
    AppendTwice(st.code, st.cur, a, b);
    AppendGet(st.code, st.cur, a);
  }

  lemma EmittedKeeps(st: PState, st': PState, code: seq<Instruction>, regs: int)
    requires Emitted(st, st', code, regs)
    ensures st'.reg == st.reg + regs && st'.cur == st.cur && st'.Env() == st.Env()
    ensures st'.Length() == st.Length() + |code|
    ensures Emitted(st, st'.Next(), code, regs)
  {
    AppendGet(st.code, st.cur, code);
  }

  /** Patching a jump among the emitted instructions changes its target and nothing else. */
  lemma EmittedPatch(st: PState, st1: PState, a: seq<Instruction>, i: Instruction, b: seq<Instruction>, m: int,
                     regs: int)
    requires Emitted(st, st1, a + [i] + b, regs)
    ensures Emitted(st, st1.Patch(st.Length() + |a|, m), a + [i.(m := m)] + b, regs)
  {
    var c, k := Get(st.code, st.cur), st.Length() + |a|;
    var before, after := a + [i] + b, a + [i.(m := m)] + b;
    AppendGet(st.code, st.cur, before);
    assert (c + before)[k] == before[|a|] == i;
    assert SetM(c + before, k, m) == c + after;
  }

  /** A test, its jump, a body and the jump behind it, with the first jump patched to `m`. */
  lemma FirstJump(st: PState, st1: PState, st2: PState, cc: seq<Instruction>, tt: seq<Instruction>, p: int, m: int)
    requires Emitted(st, st1, cc, 1) && Emitted(st1.Next().Emit(JPC, p, 0, 0), st2, tt, 0)
    ensures var st3 := st2.Emit(JMP, 0, 0, 0);
            && st1.Length() == st.Length() + |cc|
            && st2.Length() == st.Length() + |cc| + |tt| + 1
            && st3.Length() == st.Length() + |cc| + |tt| + 2
            && Emitted(st, st3.Patch(st1.Length(), m),
                       cc + [Instruction(JPC, p, 0, m)] + tt + [Instruction(JMP, 0, 0, 0)], 1)
  {
    hide NextToken, ChangeM;
    var jpc, jmp := Instruction(JPC, p, 0, 0), Instruction(JMP, 0, 0, 0);
    var stj, st3 := st1.Next().Emit(JPC, p, 0, 0), st2.Emit(JMP, 0, 0, 0);
    EmittedTwice(st, st1, stj, cc, [jpc], 1, 0);
    EmittedTwice(st, stj, st2, cc + [jpc], tt, 1, 0);
    EmittedTwice(st, st2, st3, cc + [jpc] + tt, [jmp], 1, 0);
    AppendGet(st.code, st.cur, cc + [jpc] + tt + [jmp]);
    assert cc + [jpc] + tt + [jmp] == cc + [jpc] + (tt + [jmp]);
    EmittedPatch(st, st3, cc, jpc, tt + [jmp], m, 1);
    assert cc + [jpc.(m := m)] + (tt + [jmp]) == cc + [jpc.(m := m)] + tt + [jmp];
  }

  /** The second jump patched to `m`, after what follows it; the test's register is given back. */
  lemma SecondJump(st: PState, st4: PState, st5: PState, cc: seq<Instruction>, tt: seq<Instruction>,
                   ee: seq<Instruction>, p: int, onFalse: int, m: int)
    requires Emitted(st, st4, cc + [Instruction(JPC, p, 0, onFalse)] + tt + [Instruction(JMP, 0, 0, 0)], 1)
    requires Emitted(st4, st5, ee, 0)
    ensures st5.Length() == st.Length() + |cc| + |tt| + |ee| + 2
    ensures var j := st.Length() + |cc| + |tt| + 1;
            Emitted(st, st5.(reg := st5.reg - 1).Patch(j, m), Branch(cc, p, onFalse, tt, m, ee), 0)
  {
    var head := cc + [Instruction(JPC, p, 0, onFalse)] + tt;
    var jmp := Instruction(JMP, 0, 0, 0);
    EmittedTwice(st, st4, st5, head + [jmp], ee, 1, 0);
    AppendGet(st.code, st.cur, head + [jmp] + ee);
    EmittedPatch(st, st5, head, jmp, ee, m, 1);
  }

  // ---------- expressions ----------

  lemma {:induction false} FactorEmits(st: PState, fsys: set<Kind>)
    ensures var r := ParseFactor(st, fsys);
            r.Ok? ==> && Emitted(st, r.st, CompileFactor(r.value, st.reg, st.Env()), 1)
                      && GoodFactor(r.value, st.Env())
    decreases |st.rest|, 0
  {
    hide ParseExpr, CompileExpr, GoodExpr, AppendAll, NextToken, GetSymbol, SkipTo;
    var st1 := Test(st, FACBEGSYS, fsys);
    if st1.Kind() == lparentsym {
      ExprEmits(st1.Next(), {rparentsym} + fsys);
    }
  }

  lemma {:induction false} FactorsEmits(st: PState, fsys: set<Kind>)
    ensures var r := ParseFactors(st, fsys);
            r.Ok? ==> && Emitted(st, r.st, CompileFactors(r.value, st.reg - 1, st.Env()), 0)
                      && GoodFactors(r.value, st.Env())
    decreases |st.rest|, 1
  {
    hide ParseFactor, CompileFactor, GoodFactor, NextToken, AppendAll;
    var r := ParseFactors(st, fsys);
    EmittedNone(st, st);
    if r.Ok? && (st.Kind() == multsym || st.Kind() == slashsym) {
      var op := if st.Kind() == multsym then Times else Divide;
      FactorEmits(st.Next(), fsys);
      var (f, st1) := ParseFactor(st.Next(), fsys).Extract();
      var p := st.reg - 1;
      var st2 := st1.Emit(MulOpcode(op), p, p, p + 1).(reg := st1.reg - 1);
      FactorsEmits(st2, fsys);
      var a, i := CompileFactor(f, p + 1, st.Env()), Instruction(MulOpcode(op), p, p, p + 1);
      assert Emitted(st1, st2, [i], -1);
      EmittedTwice(st, st1, st2, a, [i], 1, -1);
      EmittedTwice(st, st2, r.st, a + [i], CompileFactors(r.value.next, p, st.Env()), 0, 0);
    }
  }

  lemma {:induction false} TermEmits(st: PState, sign: Sign, fsys: set<Kind>)
    ensures var r := ParseTerm(st, sign, fsys);
            r.Ok? ==> && Emitted(st, r.st, CompileTerm(r.value, sign, st.reg, st.Env()), 1)
                      && GoodTerm(r.value, st.Env())
    decreases |st.rest|, 2
  {
    hide ParseFactor, ParseFactors, CompileFactor, CompileFactors;
    var r := ParseTerm(st, sign, fsys);
    if r.Ok? {
      var follow := fsys + {multsym, slashsym};
      FactorEmits(st, follow);
      var (f, st1) := ParseFactor(st, follow).Extract();
      var st2 := if sign == MinusSign then st1.Emit(NEG, st1.reg - 1, st1.reg - 1, 0) else st1;
      var neg := if sign == MinusSign then [Instruction(NEG, st.reg, st.reg, 0)] else [];
      assert Emitted(st1, st2, neg, 0);
      FactorsEmits(st2, follow);
      var a := CompileFactor(f, st.reg, st.Env());
      EmittedTwice(st, st1, st2, a, neg, 1, 0);
      EmittedTwice(st, st2, r.st, a + neg, CompileFactors(r.value.factors, st.reg, st.Env()), 1, 0);
    }
  }

  lemma {:induction false} TermsEmits(st: PState, fsys: set<Kind>)
    ensures var r := ParseTerms(st, fsys);
            r.Ok? ==> && Emitted(st, r.st, CompileTerms(r.value, st.reg - 1, st.Env()), 0)
                      && GoodTerms(r.value, st.Env())
    decreases |st.rest|, 3
  {
    hide ParseTerm, CompileTerm, GoodTerm, NextToken, AppendAll;
    var r := ParseTerms(st, fsys);
    EmittedNone(st, st);
    if r.Ok? && (st.Kind() == plussym || st.Kind() == minussym) {
      var op := if st.Kind() == plussym then Plus else Minus;
      TermEmits(st.Next(), NoSign, fsys);
      var (t, st1) := ParseTerm(st.Next(), NoSign, fsys).Extract();
      var p := st.reg - 1;
      var st2 := st1.Emit(AddOpcode(op), p, p, p + 1).(reg := st1.reg - 1);
      TermsEmits(st2, fsys);
      var a, i := CompileTerm(t, NoSign, p + 1, st.Env()), Instruction(AddOpcode(op), p, p, p + 1);
      assert Emitted(st1, st2, [i], -1);
      EmittedTwice(st, st1, st2, a, [i], 1, -1);
      EmittedTwice(st, st2, r.st, a + [i], CompileTerms(r.value.next, p, st.Env()), 0, 0);
    }
  }

  lemma {:induction false} ExprEmits(st: PState, fsys: set<Kind>)
    ensures var r := ParseExpr(st, fsys);
            r.Ok? ==> && Emitted(st, r.st, CompileExpr(r.value, st.reg, st.Env()), 1)
                      && GoodExpr(r.value, st.Env())
    decreases |st.rest|, 4
  {
    hide ParseTerm, ParseTerms, CompileTerm, CompileTerms;
    var r := ParseExpr(st, fsys);
    if r.Ok? {
      var follow := fsys + {multsym, slashsym};
      var sign := r.value.sign;
      var st0 := if sign == NoSign then st else st.Next();
      TermEmits(st0, sign, follow);
      var (t, st1) := ParseTerm(st0, sign, follow).Extract();
      TermsEmits(st1, follow);
      EmittedTwice(st, st1, r.st, CompileTerm(t, sign, st.reg, st.Env()),
                   CompileTerms(r.value.terms, st.reg, st.Env()), 1, 0);
    }
  }

  lemma CondEmits(st: PState, fsys: set<Kind>)
    ensures var r := ParseCond(st, fsys);
            r.Ok? ==> && Emitted(st, r.st, CompileCond(r.value, st.reg, st.Env()), 1)
                      && GoodCond(r.value, st.Env())
  {
    hide ParseExpr, CompileExpr;
    var r := ParseCond(st, fsys);
    if r.Ok? {
      var p := st.reg;
      if st.Kind() == oddsym {
        ExprEmits(st.Next(), fsys);
        var (e, st1) := ParseExpr(st.Next(), fsys).Extract();
        EmittedTwice(st, st1, r.st, CompileExpr(e, p, st.Env()), [Instruction(ODD, p, p, 0)], 1, 0);
      } else {
        ExprEmits(st, RELSET + fsys);
        var (l, st1) := ParseExpr(st, RELSET + fsys).Extract();
        ExprEmits(st1.Next(), fsys);
        var (e, st2) := ParseExpr(st1.Next(), fsys).Extract();
        var a, b := CompileExpr(l, p, st.Env()), CompileExpr(e, p + 1, st.Env());
        EmittedTwice(st, st1, st2, a, b, 1, 1);
        EmittedTwice(st, st2, r.st, a + b, [Instruction(RelOpcode(r.value.op), p, p, p + 1)], 2, -1);
      }
    }
  }

  // ---------- statements ----------

  lemma AssignEmits(st: PState, fsys: set<Kind>)
    requires st.Kind() == identsym
    ensures var r := ParseAssign(st, fsys);
            r.Ok? ==> && Emitted(st, r.st, CompileStmt(r.value, st.Length(), st.reg, st.Env(), st.cur > 0), 0)
                      && GoodStmt(r.value, st.Env())
  {
    hide ParseExpr, CompileExpr, GoodExpr, NextToken;
    var r := ParseAssign(st, fsys);
    if r.Ok? {
      var st1 := st.Next().Next();
      ExprEmits(st1, fsys);
      var (e, st2) := ParseExpr(st1, fsys).Extract();
      var s := st.Lookup(st.Name()).value;
      EmittedTwice(st, st2, r.st, CompileExpr(e, st.reg, st.Env()),
                   [Instruction(STO, st.reg, st.level - s.level, s.addr)], 1, -1);
    }
  }

  lemma ReadEmits(st: PState)
    requires st.Kind() == readsym
    ensures var r := ParseRead(st);
            r.Ok? ==> && Emitted(st, r.st, CompileStmt(r.value, st.Length(), st.reg, st.Env(), st.cur > 0), 0)
                      && GoodStmt(r.value, st.Env())
  {
    var r := ParseRead(st);
    if r.Ok? {
      var st1 := st.Next();
      var s := st.Lookup(st1.Name()).value;
      var sio, sto := Instruction(SIO, st.reg, 0, 2), Instruction(STO, st.reg, st.level - s.level, s.addr);
      EmittedTwice(st, st1.Emit(SIO, st.reg, 0, 2), r.st, [sio], [sto], 0, 0);
    }
  }

  lemma WriteEmits(st: PState)
    requires st.Kind() == writesym
    ensures var r := ParseWrite(st);
            r.Ok? ==> && Emitted(st, r.st, CompileStmt(r.value, st.Length(), st.reg, st.Env(), st.cur > 0), 0)
                      && GoodStmt(r.value, st.Env())
  {
    var r := ParseWrite(st);
    if r.Ok? {
      var st1 := st.Next();
      var lod := CompileWrite(st1.Name(), st.reg, st.Env());
      var st2 := st1.(code := AppendAll(st1.code, st1.cur, lod));
      EmittedTwice(st, st2, r.st, lod, [Instruction(SIO, st.reg, 0, 1)], 0, 0);
    }
  }

  lemma {:induction false} BeginEmits(st: PState, fsys: set<Kind>)
    requires st.Kind() == beginsym
    ensures var r := ParseBegin(st, fsys);
            r.Ok? ==> && Emitted(st, r.st, CompileStmt(r.value, st.Length(), st.reg, st.Env(), st.cur > 0), 0)
                      && GoodStmt(r.value, st.Env())
    decreases |st.rest|, 5
  {
    hide ParseStmt, ParseStmts, CompileStmts, NextToken, Get, PutSymbol, GetSymbol;
    var r := ParseBegin(st, fsys);
    if r.Ok? {
      var follow := {semicolonsym, endsym} + fsys;
      StmtEmits(st.Next(), follow);
      var (first, st1) := ParseStmt(st.Next(), follow).Extract();
      StmtsEmits(st1, follow);
      var (rest, st2) := ParseStmts(st1, follow).Extract();
      var a := CompileStmt(first, st.Length(), st.reg, st.Env(), st.cur > 0);
      var b := CompileStmts(rest, st1.Length(), st.reg, st.Env(), st.cur > 0);
      var rtn := if st.cur > 0 then [Instruction(RTN, 0, 0, 0)] else [];
      EmittedTwice(st, st1, st2, a, b, 0, 0);
      EmittedTwice(st, st2, r.st, a + b, rtn, 0, 0);
    }
  }

  lemma {:induction false} IfEmits(st: PState, fsys: set<Kind>)
    requires st.Kind() == ifsym
    ensures var r := ParseIf(st, fsys);
            r.Ok? ==> && Emitted(st, r.st, CompileStmt(r.value, st.Length(), st.reg, st.Env(), st.cur > 0), 0)
                      && GoodStmt(r.value, st.Env())
    decreases |st.rest|, 5
  {
    hide ParseStmt, ParseElse, ParseCond, CompileCond, CompileStmt, GoodStmt, Branch, Emitted, NextToken;
    var r := ParseIf(st, fsys);
    if r.Ok? {
      var p, at, env := st.reg, st.Length(), st.Env();
      CondEmits(st.Next(), {thensym, dosym} + fsys);
      var (c, st1) := ParseCond(st.Next(), {thensym, dosym} + fsys).Extract();
      var cc := CompileCond(c, p, env);
      EmittedFrom(st, st1, cc, 1);
      var stj := st1.Next().Emit(JPC, st1.reg - 1, 0, 0);
      StmtEmits(stj, fsys);
      var (t, st2) := ParseStmt(stj, fsys).Extract();
      var tt := CompileStmt(t, at + |cc| + 1, p + 1, env, st.cur > 0);
      var after := at + |cc| + |tt| + 2;
      JumpKeeps(st, st1, cc, p);
      FirstJump(st, st1, st2, cc, tt, p, after);
      ElseEmits(st, c, t, st2.Emit(JMP, 0, 0, 0).Patch(at + |cc|, after), fsys);
    }
  }

  lemma {:induction false} ElseEmits(st: PState, c: Cond, t: Stmt, st4: PState, fsys: set<Kind>)
    requires |st4.rest| < |st.rest|
    requires GoodCond(c, st.Env()) && GoodStmt(t, st.Env())
    requires var cc := CompileCond(c, st.reg, st.Env());
             var tt := CompileStmt(t, st.Length() + |cc| + 1, st.reg + 1, st.Env(), st.cur > 0);
             var jpc := Instruction(JPC, st.reg, 0, st.Length() + |cc| + |tt| + 2);
             Emitted(st, st4, cc + [jpc] + tt + [Instruction(JMP, 0, 0, 0)], 1)
    ensures var cc := CompileCond(c, st.reg, st.Env());
            var tt := CompileStmt(t, st.Length() + |cc| + 1, st.reg + 1, st.Env(), st.cur > 0);
            var r := ParseElse(c, t, st4, st.Length() + |cc| + |tt| + 1, fsys);
            r.Ok? ==> && Emitted(st, r.st, CompileStmt(r.value, st.Length(), st.reg, st.Env(), st.cur > 0), 0)
                      && GoodStmt(r.value, st.Env())
    decreases |st4.rest|, 7
  {
    hide ParseStmt, CompileStmt, CompileCond, Branch, Emitted, GoodCond, GoodStmt, NextToken, ChangeM;
    var p, at, env := st.reg, st.Length(), st.Env();
    var cc := CompileCond(c, p, env);
    var tt := CompileStmt(t, at + |cc| + 1, p + 1, env, st.cur > 0);
    var after := at + |cc| + |tt| + 2;
    EmittedKeeps(st, st4, cc + [Instruction(JPC, p, 0, after)] + tt + [Instruction(JMP, 0, 0, 0)], 1);
    if st4.Kind() == elsesym {
      StmtEmits(st4.Next(), fsys);
      var r := ParseStmt(st4.Next(), fsys);
      if r.Ok? {
        var ee := CompileStmt(r.value, after, p + 1, env, st.cur > 0);
        EmittedFrom(st4, r.st, ee, 0);
        SecondJump(st, st4, r.st, cc, tt, ee, p, after, after + |ee|);
        IfShape(c, t, r.value, at, p, env, st.cur > 0);
      }
    } else {
      EmittedNone(st4, st4);
      SecondJump(st, st4, st4, cc, tt, [], p, after, after);
      IfShape(c, t, Empty, at, p, env, st.cur > 0);
    }
  }

  /** Whether the current token has been read already makes no difference to what was emitted. */
  lemma EmittedFrom(st: PState, st': PState, code: seq<Instruction>, regs: int)
    ensures Emitted(st.Next(), st', code, regs) <==> Emitted(st, st', code, regs)
    ensures st.Next().Length() == st.Length() && st.Next().Env() == st.Env()
  {
  }

  lemma JumpKeeps(st: PState, st1: PState, cc: seq<Instruction>, p: int)
    requires Emitted(st, st1, cc, 1) && p == st.reg
    ensures var stj := st1.Next().Emit(JPC, st1.reg - 1, 0, 0);
            && stj == st1.Next().Emit(JPC, p, 0, 0)
            && stj.reg == p + 1 && stj.cur == st.cur && stj.Env() == st.Env()
            && stj.Length() == st.Length() + |cc| + 1
  {
    var stj := st1.Next().Emit(JPC, p, 0, 0);
    EmittedTwice(st, st1, stj, cc, [Instruction(JPC, p, 0, 0)], 1, 0);
    AppendGet(st.code, st.cur, cc + [Instruction(JPC, p, 0, 0)]);
  }

  lemma WhileShape(c: Cond, b: Stmt, at: int, p: int, env: Env, inProc: bool)
    ensures var cc := CompileCond(c, p, env);
            var bb := CompileStmt(b, at + |cc| + 1, p + 1, env, inProc);
            CompileStmt(While(c, b), at, p, env, inProc) == Branch(cc, p, at + |cc| + |bb| + 2, bb, at, [])
    ensures GoodStmt(While(c, b), env) == (GoodCond(c, env) && GoodStmt(b, env))
  {
    hide CompileCond, Branch, GoodCond;
    PlainWhileShape(c, b, at, p, env, inProc);
  }

  lemma IfShape(c: Cond, t: Stmt, e: Stmt, at: int, p: int, env: Env, inProc: bool)
    ensures var cc := CompileCond(c, p, env);
            var tt := CompileStmt(t, at + |cc| + 1, p + 1, env, inProc);
            var after := at + |cc| + |tt| + 2;
            var ee := CompileStmt(e, after, p + 1, env, inProc);
            && CompileStmt(If(c, t), at, p, env, inProc) == Branch(cc, p, after, tt, after, [])
            && CompileStmt(IfElse(c, t, e), at, p, env, inProc) == Branch(cc, p, after, tt, after + |ee|, ee)
    ensures GoodStmt(If(c, t), env) == (GoodCond(c, env) && GoodStmt(t, env))
    ensures GoodStmt(IfElse(c, t, e), env) == (GoodCond(c, env) && GoodStmt(t, env) && GoodStmt(e, env))
  {
    hide CompileCond, CompileStmt, GoodStmt, GoodCond, Branch;
    PlainIfShape(c, t, at, p, env, inProc);
    IfElseShape(c, t, e, at, p, env, inProc);
    IfGood(c, t, e, env);
  }

  lemma IfGood(c: Cond, t: Stmt, e: Stmt, env: Env)
    ensures GoodStmt(If(c, t), env) == (GoodCond(c, env) && GoodStmt(t, env))
    ensures GoodStmt(IfElse(c, t, e), env) == (GoodCond(c, env) && GoodStmt(t, env) && GoodStmt(e, env))
  {
    hide GoodCond;
  }

  lemma {:induction false} WhileEmits(st: PState, fsys: set<Kind>)
    requires st.Kind() == whilesym
    ensures var r := ParseWhile(st, fsys);
            r.Ok? ==> && Emitted(st, r.st, CompileStmt(r.value, st.Length(), st.reg, st.Env(), st.cur > 0), 0)
                      && GoodStmt(r.value, st.Env())
    decreases |st.rest|, 5
  {
    hide ParseStmt, ParseCond, CompileCond, CompileStmt, Branch, Emitted, GoodStmt, GoodCond, NextToken;
    var r := ParseWhile(st, fsys);
    if r.Ok? {
      var p, at, env := st.reg, st.Length(), st.Env();
      CondEmits(st.Next(), {dosym} + fsys);
      var (c, st1) := ParseCond(st.Next(), {dosym} + fsys).Extract();
      var cc := CompileCond(c, p, env);
      EmittedFrom(st, st1, cc, 1);
      var stj := st1.Next().Emit(JPC, st1.reg - 1, 0, 0);
      StmtEmits(stj, fsys);
      var (b, st2) := ParseStmt(stj, fsys).Extract();
      var bb := CompileStmt(b, at + |cc| + 1, p + 1, env, st.cur > 0);
      var after := at + |cc| + |bb| + 2;
      JumpKeeps(st, st1, cc, p);
      FirstJump(st, st1, st2, cc, bb, p, after);
      var st4 := st2.Emit(JMP, 0, 0, 0).Patch(at + |cc|, after);
      EmittedNone(st4, st4);
      SecondJump(st, st4, st4, cc, bb, [], p, after, at);
      WhileShape(c, b, at, p, env, st.cur > 0);
    }
  }

  /** Every accepted statement leaves the compiled code of its tree and the register pointer it found. */
  lemma {:induction false} StmtEmits(st: PState, fsys: set<Kind>)
    ensures var r := ParseStmt(st, fsys);
            r.Ok? ==> && Emitted(st, r.st, CompileStmt(r.value, st.Length(), st.reg, st.Env(), st.cur > 0), 0)
                      && GoodStmt(r.value, st.Env())
    decreases |st.rest|, 6
  {
    hide ParseAssign, ParseBegin, ParseIf, ParseWhile, ParseRead, ParseWrite, NextToken;
    match st.Kind()
    case identsym => AssignEmits(st, fsys);
    case callsym =>
    case beginsym => BeginEmits(st, fsys);
    case ifsym => IfEmits(st, fsys);
    case whilesym => WhileEmits(st, fsys);
    case readsym => ReadEmits(st);
    case writesym => WriteEmits(st);
    case _ =>
  }

  lemma {:induction false} StmtsEmits(st: PState, follow: set<Kind>)
    ensures var r := ParseStmts(st, follow);
            r.Ok? ==> && Emitted(st, r.st, CompileStmts(r.value, st.Length(), st.reg, st.Env(), st.cur > 0), 0)
                      && GoodStmts(r.value, st.Env())
    decreases |st.rest|, 7
  {
    hide ParseStmt, CompileStmt, NextToken;
    var r := ParseStmts(st, follow);
    if r.Ok? && (st.Kind() == semicolonsym || st.Kind() in STATBEGSYS) {
      var st0 := if st.Kind() == semicolonsym then st.Next() else st;
      StmtEmits(st0, follow);
      var (s, st1) := ParseStmt(st0, follow).Extract();
      StmtsEmits(st1, follow);
      var a := CompileStmt(s, st.Length(), st.reg, st.Env(), st.cur > 0);
      EmittedTwice(st, st1, r.st, a, CompileStmts(r.value.next, st1.Length(), st.reg, st.Env(), st.cur > 0), 0, 0);
    }
  }

  // ---------- names keep their meaning while a phrase is parsed ----------

  lemma FactorKeeps(st: PState, fsys: set<Kind>)
    ensures ParseFactor(st, fsys).Ok? ==> ParseFactor(st, fsys).st.Env() == st.Env()
  {
    hide ParseFactor;
    FactorEmits(st, fsys);
  }

  lemma TermKeeps(st: PState, sign: Sign, fsys: set<Kind>)
    ensures ParseTerm(st, sign, fsys).Ok? ==> ParseTerm(st, sign, fsys).st.Env() == st.Env()
  {
    hide ParseTerm;
    TermEmits(st, sign, fsys);
  }

  lemma ExprKeeps(st: PState, fsys: set<Kind>)
    ensures ParseExpr(st, fsys).Ok? ==> ParseExpr(st, fsys).st.Env() == st.Env()
  {
    hide ParseExpr;
    ExprEmits(st, fsys);
  }

  lemma CondKeeps(st: PState, fsys: set<Kind>)
    ensures ParseCond(st, fsys).Ok? ==> ParseCond(st, fsys).st.Env() == st.Env()
  {
    hide ParseCond;
    CondEmits(st, fsys);
  }

  lemma StmtKeeps(st: PState, fsys: set<Kind>)
    ensures ParseStmt(st, fsys).Ok? ==> ParseStmt(st, fsys).st.Env() == st.Env()
  {
    hide ParseStmt;
    StmtEmits(st, fsys);
  }
}
