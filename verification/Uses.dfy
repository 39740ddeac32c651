/**
  What matters of a program's scopes are the names its bodies use: there, and nowhere else, does
  the parser look anything up.
 */
module Uses {
  import opened Machine
  import opened Syntax
  import opened Symbols
  import opened Semantics
  import opened Emission
  import opened Scope
  import opened Naming

  // ---------- the names a statement uses ----------

  function FactorNames(f: Factor): set<string> {
    match f
    case Ident(x) => {x}
    case Number(_) => {}
    case Paren(e) => ExprNames(e)
  }

  function FactorsNames(fs: Factors): set<string> {
    match fs
    case NoFactors => {}
    case MoreFactors(_, f, next) => FactorNames(f) + FactorsNames(next)
  }

  function TermNames(t: Term): set<string> {
    FactorNames(t.factor) + FactorsNames(t.factors)
  }

  function TermsNames(ts: Terms): set<string> {
    match ts
    case NoTerms => {}
    case MoreTerms(_, t, next) => TermNames(t) + TermsNames(next)
  }

  function ExprNames(e: Expr): set<string> {
    TermNames(e.term) + TermsNames(e.terms)
  }

  function CondNames(c: Cond): set<string> {
    match c
    case Odd(e) => ExprNames(e)
    case Compare(_, l, r) => ExprNames(l) + ExprNames(r)
  }

  function StmtNames(s: Stmt): set<string> {
    match s
    case Empty => {}
    case Assign(x, e) => {x} + ExprNames(e)
    case Call(x) => {x}
    case Begin(first, rest) => StmtNames(first) + StmtsNames(rest)
    case If(c, t) => CondNames(c) + StmtNames(t)
    case IfElse(c, t, e) => CondNames(c) + StmtNames(t) + StmtNames(e)
    case While(c, b) => CondNames(c) + StmtNames(b)
    case Read(x) => {x}
    case Write(x) => {x}
  }

  function StmtsNames(ss: Stmts): set<string> {
    match ss
    case NoStmts => {}
    case MoreStmts(s, next) => StmtNames(s) + StmtsNames(next)
  }

  // ---------- scopes cut down to them ----------

  function Narrow(scope: Scoping, names: set<string>): Scoping {
    map x | x in scope && x in names :: scope[x]
  }

  /** Two environments with the same meanings for `names`. */
  ghost predicate SameOn(a: Env, b: Env, names: set<string>) {
    forall x :: x in names ==> a.Find(x) == b.Find(x)
  }

  lemma NarrowSame(scope: Scoping, names: set<string>)
    ensures SameOn(Lexical(Narrow(scope, names)), Lexical(scope), names)
    ensures Refines(Lexical(scope), Lexical(Narrow(scope, names)))
  {
  }

  lemma {:induction false} FactorNamed(f: Factor, a: Env, b: Env)
    requires SameOn(a, b, FactorNames(f))
    ensures GoodFactor(f, a) == GoodFactor(f, b)
    decreases f
  {
    if f.Paren? {
      ExprNamed(f.expr, a, b);
    }
  }

  lemma {:induction false} FactorsNamed(fs: Factors, a: Env, b: Env)
    requires SameOn(a, b, FactorsNames(fs))
    ensures GoodFactors(fs, a) == GoodFactors(fs, b)
    decreases fs
  {
    if fs.MoreFactors? {
      FactorNamed(fs.factor, a, b);
      FactorsNamed(fs.next, a, b);
    }
  }

  lemma {:induction false} TermNamed(t: Term, a: Env, b: Env)
    requires SameOn(a, b, TermNames(t))
    ensures GoodTerm(t, a) == GoodTerm(t, b)
    decreases t
  {
    FactorNamed(t.factor, a, b);
    FactorsNamed(t.factors, a, b);
  }

  lemma {:induction false} TermsNamed(ts: Terms, a: Env, b: Env)
    requires SameOn(a, b, TermsNames(ts))
    ensures GoodTerms(ts, a) == GoodTerms(ts, b)
    decreases ts
  {
    if ts.MoreTerms? {
      TermNamed(ts.term, a, b);
      TermsNamed(ts.next, a, b);
    }
  }

  lemma {:induction false} ExprNamed(e: Expr, a: Env, b: Env)
    requires SameOn(a, b, ExprNames(e))
    ensures GoodExpr(e, a) == GoodExpr(e, b)
    decreases e
  {
    TermNamed(e.term, a, b);
    TermsNamed(e.terms, a, b);
  }

  lemma CondNamed(c: Cond, a: Env, b: Env)
    requires SameOn(a, b, CondNames(c))
    ensures GoodCond(c, a) == GoodCond(c, b)
  {
    match c
    case Odd(e) => ExprNamed(e, a, b);
    case Compare(_, l, r) => ExprNamed(l, a, b); ExprNamed(r, a, b);
  }

  /** Whether a statement is well typed depends on the names it uses alone. */
  lemma {:induction false} StmtNamed(s: Stmt, a: Env, b: Env)
    requires SameOn(a, b, StmtNames(s))
    ensures GoodStmt(s, a) == GoodStmt(s, b)
    decreases s
  {
    hide ExprNames, CondNames, GoodExpr, GoodCond;
    match s
    case Assign(_, e) => ExprNamed(e, a, b);
    case Begin(first, rest) => StmtNamed(first, a, b); StmtsNamed(rest, a, b);
    case If(c, t) => CondNamed(c, a, b); StmtNamed(t, a, b);
    case IfElse(c, t, e) => CondNamed(c, a, b); StmtNamed(t, a, b); StmtNamed(e, a, b);
    case While(c, d) => CondNamed(c, a, b); StmtNamed(d, a, b);
    case _ =>
  }

  lemma {:induction false} StmtsNamed(ss: Stmts, a: Env, b: Env)
    requires SameOn(a, b, StmtsNames(ss))
    ensures GoodStmts(ss, a) == GoodStmts(ss, b)
    decreases ss
  {
    if ss.MoreStmts? {
      StmtNamed(ss.stmt, a, b);
      StmtsNamed(ss.next, a, b);
    }
  }

  // ---------- programs cut down to them ----------

  ghost predicate AllLexical(prog: Prog) {
    forall i :: 0 <= i < |prog| ==> prog[i].env.Lexical?
  }

  function UsedProc(p: Proc): Proc
    requires p.env.Lexical?
  {
    p.(env := Lexical(Narrow(p.env.scope, StmtNames(p.body))))
  }

  /** The program, its scopes holding nothing but the names each body uses. */
  function Used(prog: Prog): (r: Prog)
    requires AllLexical(prog)
    ensures |r| == |prog|
  {
    seq(|prog|, i requires 0 <= i < |prog| => UsedProc(prog[i]))
  }

  lemma UsedSame(prog: Prog)
    requires AllLexical(prog)
    ensures AllLexical(Used(prog)) && SameProcs(prog, Used(prog))
    ensures WellTyped(prog) ==> WellTyped(Used(prog))
  {
    hide Refines, GoodStmt;
    forall i | 0 <= i < |prog|
      ensures Refines(prog[i].env, Used(prog)[i].env)
      ensures GoodStmt(prog[i].body, prog[i].env) == GoodStmt(prog[i].body, Used(prog)[i].env)
    {
      NarrowSame(prog[i].env.scope, StmtNames(prog[i].body));
      StmtNamed(prog[i].body, Used(prog)[i].env, prog[i].env);
    }
  }

  /** Programs that both refine what a well-typed one uses mean the same. */
  lemma BothMean(a: Prog, b: Prog, u: Prog, m: Mode, input: seq<int>, fuel: nat)
    requires SameProcs(a, u) && SameProcs(b, u) && WellTyped(u) && u != []
    ensures |a| == |b| == |u| && ExecProgram(a, m, input, fuel) == ExecProgram(b, m, input, fuel)
  {
    hide Refines, GoodStmt;
    FirstSame(a, u);
    FirstSame(b, u);
    assert GoodStmt(u[0].body, u[0].env);
    hide WellTyped, SameProcs;
    ExecSame(a, u, m, u[0].body, 0, InitStore(u, input), fuel);
    ExecSame(b, u, m, u[0].body, 0, InitStore(u, input), fuel);
  }

  lemma FirstSame(a: Prog, u: Prog)
    requires SameProcs(a, u) && u != []
    ensures |a| == |u| && a[0].body == u[0].body && a[0].vars == u[0].vars
    ensures forall input :: InitStore(a, input) == InitStore(u, input)
  {
    hide Refines;
  }
}
