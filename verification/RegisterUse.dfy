/** The register operands of compiled code: from the first free register up to what the tree needs. */
module RegisterUse {
  import opened Common
  import opened Machine
  import opened Syntax
  import opened Symbols
  import opened Compile
  import opened Registers
  import opened CodeShape
  import opened Parsing
  import opened Emission

  /** The registers an instruction reads or writes. */
  function Operands(i: Instruction): set<int> {
    match i.op
    case LIT => {i.r}
    case LOD => {i.r}
    case STO => {i.r}
    case JPC => {i.r}
    case SIO => if i.m == 3 then {} else {i.r}
    case ODD => {i.r}
    case NEG => {i.r, i.l}
    case NUL => {}
    case RTN => {}
    case CAL => {}
    case INC => {}
    case JMP => {}
    case _ => {i.r, i.l, i.m}
  }

  /** Every register operand of `code` is one of the `n` from `p` on. */
  predicate Within(code: seq<Instruction>, p: int, n: nat) {
    forall k, r :: 0 <= k < |code| && r in Operands(code[k]) ==> p <= r < p + n
  }

  lemma WithinConcat(a: seq<Instruction>, b: seq<Instruction>, p: int, n: nat)
    requires Within(a, p, n) && Within(b, p, n)
    ensures Within(a + b, p, n)
  {
    hide Operands;
  }

  lemma WithinWiden(a: seq<Instruction>, p: int, n: nat, p': int, n': nat)
    requires Within(a, p, n) && p' <= p && p + n <= p' + n'
    ensures Within(a, p', n')
  {
    hide Operands;
  }

  lemma OneWithin(i: Instruction, p: int, n: nat)
    requires forall r :: r in Operands(i) ==> p <= r < p + n
    ensures Within([i], p, n)
  {
    hide Operands;
  }

  lemma NoneWithin(p: int, n: nat)
    ensures Within([], p, n)
  {
  }

  lemma {:induction false} FactorWithin(f: Factor, p: int, env: Env)
    ensures Within(CompileFactor(f, p, env), p, NeedFactor(f))
    decreases f
  {
    if f.Paren? {
      ExprWithin(f.expr, p, env);
    }
  }

  lemma {:induction false} FactorsWithin(fs: Factors, p: int, env: Env, n: nat)
    requires n >= NeedFactors(fs) && n >= 1
    ensures Within(CompileFactors(fs, p, env), p, n)
    decreases fs
  {
    hide Within, CompileFactor, NeedFactor;
    match fs
    case NoFactors => NoneWithin(p, n);
    case MoreFactors(op, f, next) =>
      var a, i := CompileFactor(f, p + 1, env), Instruction(MulOpcode(op), p, p, p + 1);
      FactorWithin(f, p + 1, env);
      WithinWiden(a, p + 1, NeedFactor(f), p, n);
      NeedOne(f);
      OneWithin(i, p, n);
      FactorsWithin(next, p, env, n);
      WithinConcat(a, [i], p, n);
      WithinConcat(a + [i], CompileFactors(next, p, env), p, n);
  }

  lemma {:induction false} TermWithin(t: Term, sign: Sign, p: int, env: Env, n: nat)
    requires n >= NeedTerm(t)
    ensures Within(CompileTerm(t, sign, p, env), p, n)
    decreases t
  {
    hide Within, CompileFactor, CompileFactors, NeedFactor;
    NeedOne(t.factor);
    var a := CompileFactor(t.factor, p, env);
    var neg := if sign == MinusSign then [Instruction(NEG, p, p, 0)] else [];
    FactorWithin(t.factor, p, env);
    WithinWiden(a, p, NeedFactor(t.factor), p, n);
    if sign == MinusSign {
      OneWithin(Instruction(NEG, p, p, 0), p, n);
    } else {
      NoneWithin(p, n);
    }
    FactorsWithin(t.factors, p, env, n);
    WithinConcat(a, neg, p, n);
    WithinConcat(a + neg, CompileFactors(t.factors, p, env), p, n);
  }

  lemma {:induction false} TermsWithin(ts: Terms, p: int, env: Env, n: nat)
    requires n >= NeedTerms(ts)
    ensures Within(CompileTerms(ts, p, env), p, n)
    decreases ts
  {
    hide Within, CompileTerm, NeedTerm;
    match ts
    case NoTerms => NoneWithin(p, n);
    case MoreTerms(op, t, next) =>
      var a, i := CompileTerm(t, NoSign, p + 1, env), Instruction(AddOpcode(op), p, p, p + 1);
      TermWithin(t, NoSign, p + 1, env, NeedTerm(t));
      WithinWiden(a, p + 1, NeedTerm(t), p, n);
      TermNeedsOne(t);
      OneWithin(i, p, n);
      TermsWithin(next, p, env, n);
      WithinConcat(a, [i], p, n);
      WithinConcat(a + [i], CompileTerms(next, p, env), p, n);
  }

  lemma TermNeedsOne(t: Term)
    ensures NeedTerm(t) >= 1
  {
    NeedOne(t.factor);
  }

  /** Code of an expression at register p stays between p and p + NeedExpr. */
  lemma {:induction false} ExprWithin(e: Expr, p: int, env: Env)
    ensures Within(CompileExpr(e, p, env), p, NeedExpr(e))
    decreases e
  {
    hide Within, CompileTerm, CompileTerms, NeedTerm, NeedTerms;
    TermWithin(e.term, e.sign, p, env, NeedExpr(e));
    TermsWithin(e.terms, p, env, NeedExpr(e));
    WithinConcat(CompileTerm(e.term, e.sign, p, env), CompileTerms(e.terms, p, env), p, NeedExpr(e));
  }

  lemma CondWithin(c: Cond, p: int, env: Env)
    ensures NeedCond(c) >= 1 && Within(CompileCond(c, p, env), p, NeedCond(c))
  {
    hide Within, CompileExpr, NeedExpr;
    var n := NeedCond(c);
    match c
    case Odd(e) =>
      ExprNeedsOne(e);
      ExprWithin(e, p, env);
      OneWithin(Instruction(ODD, p, p, 0), p, n);
      WithinConcat(CompileExpr(e, p, env), [Instruction(ODD, p, p, 0)], p, n);
    case Compare(op, l, r) =>
      ExprNeedsOne(r);
      ExprWithin(l, p, env);
      ExprWithin(r, p + 1, env);
      var a, b, i := CompileExpr(l, p, env), CompileExpr(r, p + 1, env), Instruction(RelOpcode(op), p, p, p + 1);
      WithinWiden(a, p, NeedExpr(l), p, n);
      WithinWiden(b, p + 1, NeedExpr(r), p, n);
      OneWithin(i, p, n);
      WithinConcat(a, b, p, n);
      WithinConcat(a + b, [i], p, n);
  }

  lemma ExprNeedsOne(e: Expr)
    ensures NeedExpr(e) >= 1
  {
    TermNeedsOne(e.term);
  }

  lemma BranchNeeds(cc: seq<Instruction>, c: nat, tt: seq<Instruction>, t: nat, ee: seq<Instruction>, e: nat,
                    p: int, onFalse: int, next: int, n: nat)
    requires Within(cc, p, c) && Within(tt, p + 1, t) && Within(ee, p + 1, e)
    requires 1 <= c <= n && t < n && e < n
    ensures Within(Branch(cc, p, onFalse, tt, next, ee), p, n)
  {
    hide Within;
    WithinWiden(cc, p, c, p, n);
    WithinWiden(tt, p + 1, t, p, n);
    WithinWiden(ee, p + 1, e, p, n);
    var jpc, jmp := Instruction(JPC, p, 0, onFalse), Instruction(JMP, 0, 0, next);
    OneWithin(jpc, p, n);
    OneWithin(jmp, p, n);
    WithinConcat(cc, [jpc], p, n);
    WithinConcat(cc + [jpc], tt, p, n);
    WithinConcat(cc + [jpc] + tt, [jmp], p, n);
    WithinConcat(cc + [jpc] + tt + [jmp], ee, p, n);
  }

  lemma SimpleWithin(s: Stmt, at: int, p: int, env: Env, inProc: bool)
    requires s.Empty? || s.Assign? || s.Call? || s.Read? || s.Write?
    ensures Within(CompileStmt(s, at, p, env, inProc), p, NeedStmt(s))
  {
    hide CompileExpr, NeedExpr;
    if s.Assign? {
      ExprNeedsOne(s.expr);
      ExprWithin(s.expr, p, env);
      WithinConcat(CompileExpr(s.expr, p, env), Access(STO, p, s.name, env), p, NeedExpr(s.expr));
    }
  }

  lemma {:induction false} IfWithin(s: Stmt, at: int, p: int, env: Env, inProc: bool)
    requires s.If?
    ensures Within(CompileStmt(s, at, p, env, inProc), p, NeedStmt(s))
    decreases s, 0
  {
    hide Within, Branch, CompileCond, CompileStmt, NeedCond, GoodStmt;
    IfShape(s.cond, s.thn, Empty, at, p, env, inProc);
    var cc := CompileCond(s.cond, p, env);
    var tt := CompileStmt(s.thn, at + |cc| + 1, p + 1, env, inProc);
    CondWithin(s.cond, p, env);
    StmtWithin(s.thn, at + |cc| + 1, p + 1, env, inProc);
    NoneWithin(p + 1, 0);
    var after := at + |cc| + |tt| + 2;
    BranchNeeds(cc, NeedCond(s.cond), tt, NeedStmt(s.thn), [], 0, p, after, after, NeedStmt(s));
  }

  lemma {:induction false} IfElseWithin(s: Stmt, at: int, p: int, env: Env, inProc: bool)
    requires s.IfElse?
    ensures Within(CompileStmt(s, at, p, env, inProc), p, NeedStmt(s))
    decreases s, 0
  {
    hide Within, Branch, CompileCond, CompileStmt, NeedCond, GoodStmt;
    IfShape(s.cond, s.thn, s.els, at, p, env, inProc);
    var cc := CompileCond(s.cond, p, env);
    var tt := CompileStmt(s.thn, at + |cc| + 1, p + 1, env, inProc);
    var otherwise := at + |cc| + |tt| + 2;
    var ee := CompileStmt(s.els, otherwise, p + 1, env, inProc);
    CondWithin(s.cond, p, env);
    StmtWithin(s.thn, at + |cc| + 1, p + 1, env, inProc);
    StmtWithin(s.els, otherwise, p + 1, env, inProc);
    BranchNeeds(cc, NeedCond(s.cond), tt, NeedStmt(s.thn), ee, NeedStmt(s.els), p, otherwise, otherwise + |ee|,
                NeedStmt(s));
  }

  lemma {:induction false} WhileWithin(s: Stmt, at: int, p: int, env: Env, inProc: bool)
    requires s.While?
    ensures Within(CompileStmt(s, at, p, env, inProc), p, NeedStmt(s))
    decreases s, 0
  {
    hide Within, Branch, CompileCond, CompileStmt, NeedCond, GoodStmt;
    WhileShape(s.cond, s.body, at, p, env, inProc);
    var cc := CompileCond(s.cond, p, env);
    var bb := CompileStmt(s.body, at + |cc| + 1, p + 1, env, inProc);
    CondWithin(s.cond, p, env);
    StmtWithin(s.body, at + |cc| + 1, p + 1, env, inProc);
    NoneWithin(p + 1, 0);
    BranchNeeds(cc, NeedCond(s.cond), bb, NeedStmt(s.body), [], 0, p, at + |cc| + |bb| + 2, at, NeedStmt(s));
  }

  /**
    Code of a statement at register p stays between p and p + NeedStmt, and so, by StmtBound,
    within a number of registers that depends on nesting alone, however long the program.
   */
  lemma {:induction false} StmtWithin(s: Stmt, at: int, p: int, env: Env, inProc: bool)
    ensures Within(CompileStmt(s, at, p, env, inProc), p, NeedStmt(s))
    decreases s, 1
  {
    hide Within, Branch, CompileCond, NeedCond, Operands, Access;
    match s
    case Begin(first, rest) =>
      var a := CompileStmt(first, at, p, env, inProc);
      var rtn := if inProc then [Instruction(RTN, 0, 0, 0)] else [];
      StmtWithin(first, at, p, env, inProc);
      StmtsWithin(rest, at + |a|, p, env, inProc);
      BeginWithin(a, CompileStmts(rest, at + |a|, p, env, inProc), rtn, p, NeedStmt(first), NeedStmts(rest));
    case If(_, _) => IfWithin(s, at, p, env, inProc);
    case IfElse(_, _, _) => IfElseWithin(s, at, p, env, inProc);
    case While(_, _) => WhileWithin(s, at, p, env, inProc);
    case _ => SimpleWithin(s, at, p, env, inProc);
  }

  lemma BeginWithin(a: seq<Instruction>, b: seq<Instruction>, rtn: seq<Instruction>, p: int, m: nat, n: nat)
    requires Within(a, p, m) && Within(b, p, n) && (rtn == [] || rtn == [Instruction(RTN, 0, 0, 0)])
    ensures Within(a + b + rtn, p, Max(m, n))
  {
    WithinWiden(a, p, m, p, Max(m, n));
    WithinWiden(b, p, n, p, Max(m, n));
    assert Within(rtn, p, Max(m, n));
    WithinConcat(a, b, p, Max(m, n));
    WithinConcat(a + b, rtn, p, Max(m, n));
  }

  lemma {:induction false} StmtsWithin(ss: Stmts, at: int, p: int, env: Env, inProc: bool)
    ensures Within(CompileStmts(ss, at, p, env, inProc), p, NeedStmts(ss))
    decreases ss, 0
  {
    hide Within, CompileStmt, NeedStmt;
    match ss
    case NoStmts => NoneWithin(p, 0);
    case MoreStmts(s, next) =>
      var a := CompileStmt(s, at, p, env, inProc);
      var b := CompileStmts(next, at + |a|, p, env, inProc);
      var n := NeedStmts(ss);
      StmtWithin(s, at, p, env, inProc);
      StmtsWithin(next, at + |a|, p, env, inProc);
      WithinWiden(a, p, NeedStmt(s), p, n);
      WithinWiden(b, p, NeedStmts(next), p, n);
      WithinConcat(a, b, p, n);
  }

  /**
    Whatever expression the parser accepts, with parentheses nested d deep: what it emits uses
    at most 2d + 3 registers, from its register pointer on.
   */
  lemma ExprRegisters(st: PState, fsys: set<Kind>)
    ensures var r := ParseExpr(st, fsys);
            r.Ok? ==>
              var code := CompileExpr(r.value, st.reg, st.Env());
              Emitted(st, r.st, code, 1) && Within(code, st.reg, 2 * DepthExpr(r.value) + 3)
  {
    hide ParseExpr, CompileExpr, NeedExpr, DepthExpr, Within, GoodExpr;
    var r := ParseExpr(st, fsys);
    if r.Ok? {
      ExprEmits(st, fsys);
      ExprWithin(r.value, st.reg, st.Env());
      ExprBound(r.value);
      WithinWiden(CompileExpr(r.value, st.reg, st.Env()), st.reg, NeedExpr(r.value), st.reg,
                  2 * DepthExpr(r.value) + 3);
    }
  }

  /**
    Whatever statement the parser accepts, nested k deep in if and while: what it emits uses at
    most k + 2d + 4 registers, from its register pointer on, however long the statement is.
   */
  lemma StmtRegisters(st: PState, fsys: set<Kind>)
    ensures var r := ParseStmt(st, fsys);
            r.Ok? ==>
              var code := CompileStmt(r.value, st.Length(), st.reg, st.Env(), st.cur > 0);
              Emitted(st, r.st, code, 0) && Within(code, st.reg, Nesting(r.value) + 2 * DepthStmt(r.value) + 4)
  {
    hide ParseStmt, CompileStmt, NeedStmt, DepthStmt, Nesting, Within, GoodStmt;
    var r := ParseStmt(st, fsys);
    if r.Ok? {
      StmtEmits(st, fsys);
      var code := CompileStmt(r.value, st.Length(), st.reg, st.Env(), st.cur > 0);
      StmtWithin(r.value, st.Length(), st.reg, st.Env(), st.cur > 0);
      StmtBound(r.value);
      WithinWiden(code, st.reg, NeedStmt(r.value), st.reg, Nesting(r.value) + 2 * DepthStmt(r.value) + 4);
    }
  }
}
