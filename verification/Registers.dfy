/** How many registers, from the first free one on, the code of a tree uses. */
module Registers {
  import opened Syntax

  function Max(a: nat, b: nat): nat {
    if a >= b then a else b
  }

  function NeedFactor(f: Factor): nat {
    match f
    case Ident(_) => 1
    case Number(_) => 1
    case Paren(e) => NeedExpr(e)
  }

  function NeedFactors(fs: Factors): nat {
    match fs
    case NoFactors => 0
    case MoreFactors(_, f, next) => Max(1 + NeedFactor(f), NeedFactors(next))
  }

  function NeedTerm(t: Term): nat {
    Max(NeedFactor(t.factor), NeedFactors(t.factors))
  }

  function NeedTerms(ts: Terms): nat {
    match ts
    case NoTerms => 0
    case MoreTerms(_, t, next) => Max(1 + NeedTerm(t), NeedTerms(next))
  }

  function NeedExpr(e: Expr): nat {
    Max(NeedTerm(e.term), NeedTerms(e.terms))
  }

  function NeedCond(c: Cond): nat {
    match c
    case Odd(e) => NeedExpr(e)
    case Compare(_, l, r) => Max(NeedExpr(l), 1 + NeedExpr(r))
  }

  function NeedStmt(s: Stmt): nat {
    match s
    case Empty => 0
    case Call(_) => 0
    case Read(_) => 1
    case Write(_) => 1
    case Assign(_, e) => NeedExpr(e)
    case Begin(first, rest) => Max(NeedStmt(first), NeedStmts(rest))
    case If(c, t) => Max(NeedCond(c), 1 + NeedStmt(t))
    case IfElse(c, t, e) => Max(NeedCond(c), 1 + Max(NeedStmt(t), NeedStmt(e)))
    case While(c, b) => Max(NeedCond(c), 1 + NeedStmt(b))
  }

  function NeedStmts(ss: Stmts): nat {
    match ss
    case NoStmts => 0
    case MoreStmts(s, next) => Max(NeedStmt(s), NeedStmts(next))
  }

  // ---------- nesting depths ----------

  function DepthFactor(f: Factor): nat {
    match f
    case Paren(e) => 1 + DepthExpr(e)
    case _ => 0
  }

  function DepthFactors(fs: Factors): nat {
    match fs
    case NoFactors => 0
    case MoreFactors(_, f, next) => Max(DepthFactor(f), DepthFactors(next))
  }

  function DepthTerm(t: Term): nat {
    Max(DepthFactor(t.factor), DepthFactors(t.factors))
  }

  function DepthTerms(ts: Terms): nat {
    match ts
    case NoTerms => 0
    case MoreTerms(_, t, next) => Max(DepthTerm(t), DepthTerms(next))
  }

  /** Greatest number of parentheses open at once. */
  function DepthExpr(e: Expr): nat {
    Max(DepthTerm(e.term), DepthTerms(e.terms))
  }

  function DepthCond(c: Cond): nat {
    match c
    case Odd(e) => DepthExpr(e)
    case Compare(_, l, r) => Max(DepthExpr(l), DepthExpr(r))
  }

  /** Greatest parenthesis depth of the expressions of a statement. */
  function DepthStmt(s: Stmt): nat {
    match s
    case Assign(_, e) => DepthExpr(e)
    case Begin(first, rest) => Max(DepthStmt(first), DepthStmts(rest))
    case If(c, t) => Max(DepthCond(c), DepthStmt(t))
    case IfElse(c, t, e) => Max(DepthCond(c), Max(DepthStmt(t), DepthStmt(e)))
    case While(c, b) => Max(DepthCond(c), DepthStmt(b))
    case _ => 0
  }

  function DepthStmts(ss: Stmts): nat {
    match ss
    case NoStmts => 0
    case MoreStmts(s, next) => Max(DepthStmt(s), DepthStmts(next))
  }

  /** Greatest number of if and while statements around a statement. */
  function Nesting(s: Stmt): nat {
    match s
    case Begin(first, rest) => Max(Nesting(first), NestingAll(rest))
    case If(_, t) => 1 + Nesting(t)
    case IfElse(_, t, e) => 1 + Max(Nesting(t), Nesting(e))
    case While(_, b) => 1 + Nesting(b)
    case _ => 0
  }

  function NestingAll(ss: Stmts): nat {
    match ss
    case NoStmts => 0
    case MoreStmts(s, next) => Max(Nesting(s), NestingAll(next))
  }

  // ---------- bounds ----------

  lemma {:induction false} FactorBound(f: Factor)
    ensures NeedFactor(f) <= 2 * DepthFactor(f) + 1
    decreases f
  {
    if f.Paren? {
      ExprBound(f.expr);
    }
  }

  lemma {:induction false} FactorsBound(fs: Factors)
    ensures NeedFactors(fs) <= 2 * DepthFactors(fs) + 2
    decreases fs
  {
    if fs.MoreFactors? {
      FactorBound(fs.factor);
      FactorsBound(fs.next);
    }
  }

  lemma {:induction false} TermsBound(ts: Terms)
    ensures NeedTerms(ts) <= 2 * DepthTerms(ts) + 3
    decreases ts
  {
    if ts.MoreTerms? {
      FactorBound(ts.term.factor);
      FactorsBound(ts.term.factors);
      TermsBound(ts.next);
    }
  }

  /** An expression with parentheses nested d deep needs at most 2d + 3 registers. */
  lemma {:induction false} ExprBound(e: Expr)
    ensures NeedExpr(e) <= 2 * DepthExpr(e) + 3
    decreases e
  {
    FactorBound(e.term.factor);
    FactorsBound(e.term.factors);
    TermsBound(e.terms);
  }

  lemma CondBound(c: Cond)
    ensures NeedCond(c) <= 2 * DepthCond(c) + 4
  {
    match c
    case Odd(e) => ExprBound(e);
    case Compare(_, l, r) => ExprBound(l); ExprBound(r);
  }

  /** A statement nested k deep in if and while needs at most k + 2d + 4 registers. */
  lemma {:induction false} StmtBound(s: Stmt)
    ensures NeedStmt(s) <= Nesting(s) + 2 * DepthStmt(s) + 4
    decreases s
  {
    match s
    case Assign(_, e) => ExprBound(e);
    case Begin(first, rest) => StmtBound(first); StmtsBound(rest);
    case If(c, t) => CondBound(c); StmtBound(t);
    case IfElse(c, t, e) => CondBound(c); StmtBound(t); StmtBound(e);
    case While(c, b) => CondBound(c); StmtBound(b);
    case _ =>
  }

  lemma {:induction false} StmtsBound(ss: Stmts)
    ensures NeedStmts(ss) <= NestingAll(ss) + 2 * DepthStmts(ss) + 4
    decreases ss
  {
    if ss.MoreStmts? {
      StmtBound(ss.stmt);
      StmtsBound(ss.next);
    }
  }
}
