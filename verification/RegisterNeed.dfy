/** The registers a tree is said to need are not one too many: the last of them is used. */
module RegisterNeed {
  import opened Machine
  import opened Syntax
  import opened Symbols
  import opened Compile
  import opened Registers
  import opened RegisterUse
  import opened Emission

  /** Some instruction has register `q` for an operand. */
  predicate Touches(code: seq<Instruction>, q: int) {
    exists k :: 0 <= k < |code| && q in Operands(code[k])
  }

  lemma Inside(a: seq<Instruction>, b: seq<Instruction>, c: seq<Instruction>, q: int)
    ensures Touches(a, q) || Touches(b, q) || Touches(c, q) ==> Touches(a + b + c, q)
  {
    hide Operands;
    var all := a + b + c;
    if Touches(a, q) {
      var k :| 0 <= k < |a| && q in Operands(a[k]);
      assert all[k] == a[k];
    } else if Touches(b, q) {
      var k :| 0 <= k < |b| && q in Operands(b[k]);
      assert all[|a| + k] == b[k];
    } else if Touches(c, q) {
      var k :| 0 <= k < |c| && q in Operands(c[k]);
      assert all[|a| + |b| + k] == c[k];
    }
  }

  lemma {:induction false} FactorTouches(f: Factor, p: int, env: Env)
    requires GoodFactor(f, env)
    ensures NeedFactor(f) > 0 && Touches(CompileFactor(f, p, env), p + NeedFactor(f) - 1)
    decreases f
  {
    hide Touches, Operands, NeedExpr, CompileExpr, GoodExpr;
    match f
    case Paren(e) => ExprTouches(e, p, env);
    case _ =>
      var code := CompileFactor(f, p, env);
      assert Touches(code, p) by {
        First(code, p);
      }
  }

  lemma First(code: seq<Instruction>, p: int)
    requires code != [] && code[0].op in {LIT, LOD, ODD, STO, JPC} && code[0].r == p
    ensures Touches(code, p)
  {
    assert p in Operands(code[0]);
  }

  lemma {:induction false} FactorsTouches(fs: Factors, p: int, env: Env)
    requires GoodFactors(fs, env)
    ensures NeedFactors(fs) > 0 ==> Touches(CompileFactors(fs, p, env), p + NeedFactors(fs) - 1)
    decreases fs
  {
    hide Touches, Operands, NeedFactor, CompileFactor, GoodFactor;
    match fs
    case NoFactors =>
    case MoreFactors(op, f, next) =>
      FactorTouches(f, p + 1, env);
      FactorsTouches(next, p, env);
      Inside(CompileFactor(f, p + 1, env), [Instruction(MulOpcode(op), p, p, p + 1)], CompileFactors(next, p, env),
             p + NeedFactors(fs) - 1);
  }

  lemma {:induction false} TermTouches(t: Term, sign: Sign, p: int, env: Env)
    requires GoodTerm(t, env)
    ensures NeedTerm(t) > 0 && Touches(CompileTerm(t, sign, p, env), p + NeedTerm(t) - 1)
    decreases t
  {
    hide Touches, Operands, NeedFactor, CompileFactor, GoodFactor, NeedFactors, CompileFactors, GoodFactors;
    FactorTouches(t.factor, p, env);
    FactorsTouches(t.factors, p, env);
    Inside(CompileFactor(t.factor, p, env), if sign == MinusSign then [Instruction(NEG, p, p, 0)] else [],
           CompileFactors(t.factors, p, env), p + NeedTerm(t) - 1);
  }

  lemma {:induction false} TermsTouches(ts: Terms, p: int, env: Env)
    requires GoodTerms(ts, env)
    ensures NeedTerms(ts) > 0 ==> Touches(CompileTerms(ts, p, env), p + NeedTerms(ts) - 1)
    decreases ts
  {
    hide Touches, Operands, NeedTerm, CompileTerm, GoodTerm;
    match ts
    case NoTerms =>
    case MoreTerms(op, t, next) =>
      TermTouches(t, NoSign, p + 1, env);
      TermsTouches(next, p, env);
      Inside(CompileTerm(t, NoSign, p + 1, env), [Instruction(AddOpcode(op), p, p, p + 1)], CompileTerms(next, p, env),
             p + NeedTerms(ts) - 1);
  }

  lemma {:induction false} ExprTouches(e: Expr, p: int, env: Env)
    requires GoodExpr(e, env)
    ensures NeedExpr(e) > 0 && Touches(CompileExpr(e, p, env), p + NeedExpr(e) - 1)
    decreases e
  {
    hide Touches, Operands, NeedTerm, CompileTerm, GoodTerm, NeedTerms, CompileTerms, GoodTerms;
    TermTouches(e.term, e.sign, p, env);
    TermsTouches(e.terms, p, env);
    Inside([], CompileTerm(e.term, e.sign, p, env), CompileTerms(e.terms, p, env), p + NeedExpr(e) - 1);
    assert [] + CompileTerm(e.term, e.sign, p, env) + CompileTerms(e.terms, p, env) == CompileExpr(e, p, env);
  }

  lemma CondTouches(c: Cond, p: int, env: Env)
    requires GoodCond(c, env)
    ensures NeedCond(c) > 0 && Touches(CompileCond(c, p, env), p + NeedCond(c) - 1)
  {
    hide Touches, Operands, NeedExpr, CompileExpr, GoodExpr;
    match c
    case Odd(e) =>
      ExprTouches(e, p, env);
      Inside([], CompileExpr(e, p, env), [Instruction(ODD, p, p, 0)], p + NeedCond(c) - 1);
      assert [] + CompileExpr(e, p, env) + [Instruction(ODD, p, p, 0)] == CompileCond(c, p, env);
    case Compare(op, l, r) =>
      ExprTouches(l, p, env);
      ExprTouches(r, p + 1, env);
      Inside(CompileExpr(l, p, env), CompileExpr(r, p + 1, env), [Instruction(RelOpcode(op), p, p, p + 1)],
             p + NeedCond(c) - 1);
  }

  /** A conditional uses the register of its condition, and what its condition and branches use. */
  lemma BranchTouches(cc: seq<Instruction>, p: int, f: int, tt: seq<Instruction>, n: int, ee: seq<Instruction>, q: int)
    requires q == p || Touches(cc, q) || Touches(tt, q) || Touches(ee, q)
    ensures Touches(Branch(cc, p, f, tt, n, ee), q)
  {
    hide Touches, Operands;
    var test := [Instruction(JPC, p, 0, f)];
    First(test, p);
    Inside(cc, test, tt, q);
    Inside(cc + test + tt, [Instruction(JMP, 0, 0, n)], ee, q);
  }

  /**
    Of the registers a statement needs the last is an operand of some instruction of its code, so
    with one fewer the code does not fit.
   */
  lemma {:induction false} StmtTouches(s: Stmt, at: int, p: int, env: Env, inProc: bool)
    requires GoodStmt(s, env)
    ensures NeedStmt(s) > 0 ==> Touches(CompileStmt(s, at, p, env, inProc), p + NeedStmt(s) - 1)
    decreases s, 1
  {
    hide Touches, Operands, NeedStmt, CompileStmt, GoodStmt;
    match s
    case Begin(_, _) => BeginTouches(s, at, p, env, inProc);
    case If(_, _) => IfTouches(s, at, p, env, inProc);
    case IfElse(_, _, _) => IfElseTouches(s, at, p, env, inProc);
    case While(_, _) => WhileTouches(s, at, p, env, inProc);
    case _ => SimpleTouches(s, at, p, env, inProc);
  }

  lemma {:induction false} BeginTouches(s: Stmt, at: int, p: int, env: Env, inProc: bool)
    requires s.Begin? && GoodStmt(s, env)
    ensures NeedStmt(s) > 0 ==> Touches(CompileStmt(s, at, p, env, inProc), p + NeedStmt(s) - 1)
    decreases s, 0
  {
    hide Touches, Operands, CompileStmts, NeedStmts, GoodStmts;
    var a := CompileStmt(s.first, at, p, env, inProc);
    StmtTouches(s.first, at, p, env, inProc);
    StmtsTouches(s.rest, at + |a|, p, env, inProc);
    Inside(a, CompileStmts(s.rest, at + |a|, p, env, inProc), if inProc then [Instruction(RTN, 0, 0, 0)] else [],
           p + NeedStmt(s) - 1);
  }

  lemma {:induction false} IfTouches(s: Stmt, at: int, p: int, env: Env, inProc: bool)
    requires s.If? && GoodStmt(s, env)
    ensures NeedStmt(s) > 0 ==> Touches(CompileStmt(s, at, p, env, inProc), p + NeedStmt(s) - 1)
    decreases s, 0
  {
    hide Touches, Operands, NeedCond, CompileCond, GoodCond, Branch, CompileStmt;
    PlainIfShape(s.cond, s.thn, at, p, env, inProc);
    var cc := CompileCond(s.cond, p, env);
    var tt := CompileStmt(s.thn, at + |cc| + 1, p + 1, env, inProc);
    var after := at + |cc| + |tt| + 2;
    CondTouches(s.cond, p, env);
    StmtTouches(s.thn, at + |cc| + 1, p + 1, env, inProc);
    BranchTouches(cc, p, after, tt, after, [], p + NeedStmt(s) - 1);
  }

  lemma {:induction false} IfElseTouches(s: Stmt, at: int, p: int, env: Env, inProc: bool)
    requires s.IfElse? && GoodStmt(s, env)
    ensures NeedStmt(s) > 0 ==> Touches(CompileStmt(s, at, p, env, inProc), p + NeedStmt(s) - 1)
    decreases s, 0
  {
    hide Touches, Operands, NeedCond, CompileCond, GoodCond, Branch, CompileStmt;
    IfElseShape(s.cond, s.thn, s.els, at, p, env, inProc);
    var cc := CompileCond(s.cond, p, env);
    var tt := CompileStmt(s.thn, at + |cc| + 1, p + 1, env, inProc);
    var after := at + |cc| + |tt| + 2;
    var ee := CompileStmt(s.els, after, p + 1, env, inProc);
    CondTouches(s.cond, p, env);
    StmtTouches(s.thn, at + |cc| + 1, p + 1, env, inProc);
    StmtTouches(s.els, after, p + 1, env, inProc);
    BranchTouches(cc, p, after, tt, after + |ee|, ee, p + NeedStmt(s) - 1);
  }

  lemma {:induction false} WhileTouches(s: Stmt, at: int, p: int, env: Env, inProc: bool)
    requires s.While? && GoodStmt(s, env)
    ensures NeedStmt(s) > 0 ==> Touches(CompileStmt(s, at, p, env, inProc), p + NeedStmt(s) - 1)
    decreases s, 0
  {
    hide Touches, Operands, NeedCond, CompileCond, GoodCond, Branch, CompileStmt;
    PlainWhileShape(s.cond, s.body, at, p, env, inProc);
    var cc := CompileCond(s.cond, p, env);
    var bb := CompileStmt(s.body, at + |cc| + 1, p + 1, env, inProc);
    CondTouches(s.cond, p, env);
    StmtTouches(s.body, at + |cc| + 1, p + 1, env, inProc);
    BranchTouches(cc, p, at + |cc| + |bb| + 2, bb, at, [], p + NeedStmt(s) - 1);
  }

  lemma SimpleTouches(s: Stmt, at: int, p: int, env: Env, inProc: bool)
    requires GoodStmt(s, env) && (s.Empty? || s.Assign? || s.Call? || s.Read? || s.Write?)
    ensures NeedStmt(s) > 0 ==> Touches(CompileStmt(s, at, p, env, inProc), p + NeedStmt(s) - 1)
  {
    hide Touches, Operands, NeedExpr, CompileExpr, GoodExpr;
    match s
    case Assign(x, e) =>
      ExprTouches(e, p, env);
      Inside([], CompileExpr(e, p, env), Access(STO, p, x, env), p + NeedStmt(s) - 1);
      assert [] + CompileExpr(e, p, env) + Access(STO, p, x, env) == CompileStmt(s, at, p, env, inProc);
    case Read(x) =>
      First(Access(STO, p, x, env), p);
      Inside([Instruction(SIO, p, 0, 2)], Access(STO, p, x, env), [], p);
      assert [Instruction(SIO, p, 0, 2)] + Access(STO, p, x, env) + [] == CompileStmt(s, at, p, env, inProc);
    case Write(x) =>
      First(CompileWrite(x, p, env), p);
      Inside(CompileWrite(x, p, env), [Instruction(SIO, p, 0, 1)], [], p);
      assert CompileWrite(x, p, env) + [Instruction(SIO, p, 0, 1)] + [] == CompileStmt(s, at, p, env, inProc);
    case _ =>
  }

  lemma {:induction false} StmtsTouches(ss: Stmts, at: int, p: int, env: Env, inProc: bool)
    requires GoodStmts(ss, env)
    ensures NeedStmts(ss) > 0 ==> Touches(CompileStmts(ss, at, p, env, inProc), p + NeedStmts(ss) - 1)
    decreases ss, 0
  {
    hide Touches, Operands, NeedStmt, CompileStmt, GoodStmt;
    match ss
    case NoStmts =>
    case MoreStmts(s, next) =>
      var a := CompileStmt(s, at, p, env, inProc);
      StmtTouches(s, at, p, env, inProc);
      StmtsTouches(next, at + |a|, p, env, inProc);
      Inside([], a, CompileStmts(next, at + |a|, p, env, inProc), p + NeedStmts(ss) - 1);
      assert [] + a + CompileStmts(next, at + |a|, p, env, inProc) == CompileStmts(ss, at, p, env, inProc);
  }
}
