/** Programs mean the same under any lookup that finds the same variables, constants and procedures. */
module Naming {
  import opened Common
  import opened Machine
  import opened Syntax
  import opened Symbols
  import opened Semantics
  import opened Emission
  import opened Scope

  /** Every body uses declared names only, each as what it is. */
  ghost predicate WellTyped(prog: Prog) {
    forall i :: 0 <= i < |prog| ==> GoodStmt(prog[i].body, prog[i].env)
  }

  // ---------- meaning does not depend on how names are looked up ----------

  /** Wherever `b` gives a name a meaning, `a` gives it one of the same kind, with the same value in its records. */
  ghost predicate Reads(a: Env, fa: seq<Frame>, b: Env, fb: seq<Frame>) {
    forall x :: b.Find(x).Some? ==> a.Find(x).Some? && ReadsAs(a.Find(x).value, fa, b.Find(x).value, fb)
  }

  predicate ReadsAs(p: Binding, fa: seq<Frame>, q: Binding, fb: seq<Frame>) {
    && p.kind == q.kind && p.val == q.val
    && (q.kind == VAR ==> ReadVar(fa, p.hops, p.addr) == ReadVar(fb, q.hops, q.addr))
  }

  lemma RefinesReads(a: Env, b: Env, frames: seq<Frame>)
    requires Refines(a, b)
    ensures Reads(a, frames, b, frames)
  {
  }

  lemma {:induction false} FactorSame(f: Factor, a: Env, fa: seq<Frame>, b: Env, fb: seq<Frame>)
    requires Reads(a, fa, b, fb) && GoodFactor(f, b)
    ensures GoodFactor(f, a) && EvalFactor(f, a, fa) == EvalFactor(f, b, fb)
    decreases f
  {
    if f.Paren? {
      ExprSame(f.expr, a, fa, b, fb);
    }
  }

  lemma {:induction false} FactorsSame(acc: Value, fs: Factors, a: Env, fa: seq<Frame>, b: Env, fb: seq<Frame>)
    requires Reads(a, fa, b, fb) && GoodFactors(fs, b)
    ensures GoodFactors(fs, a) && EvalFactors(acc, fs, a, fa) == EvalFactors(acc, fs, b, fb)
    decreases fs
  {
    if fs.MoreFactors? {
      FactorSame(fs.factor, a, fa, b, fb);
      FactorsSame(MulValue(fs.op, acc, EvalFactor(fs.factor, b, fb)), fs.next, a, fa, b, fb);
    }
  }

  lemma {:induction false} TermSame(t: Term, a: Env, fa: seq<Frame>, b: Env, fb: seq<Frame>)
    requires Reads(a, fa, b, fb) && GoodTerm(t, b)
    ensures GoodTerm(t, a) && EvalTerm(t, a, fa) == EvalTerm(t, b, fb)
    decreases t
  {
    FactorSame(t.factor, a, fa, b, fb);
    FactorsSame(EvalFactor(t.factor, b, fb), t.factors, a, fa, b, fb);
  }

  lemma {:induction false} TermsSame(acc: Value, ts: Terms, a: Env, fa: seq<Frame>, b: Env, fb: seq<Frame>)
    requires Reads(a, fa, b, fb) && GoodTerms(ts, b)
    ensures GoodTerms(ts, a) && EvalTerms(acc, ts, a, fa) == EvalTerms(acc, ts, b, fb)
    decreases ts
  {
    if ts.MoreTerms? {
      TermSame(ts.term, a, fa, b, fb);
      TermsSame(AddValue(ts.op, acc, EvalTerm(ts.term, b, fb)), ts.next, a, fa, b, fb);
    }
  }

  lemma {:induction false} ExprSame(e: Expr, a: Env, fa: seq<Frame>, b: Env, fb: seq<Frame>)
    requires Reads(a, fa, b, fb) && GoodExpr(e, b)
    ensures GoodExpr(e, a) && EvalExpr(e, a, fa) == EvalExpr(e, b, fb)
    decreases e
  {
    TermSame(e.term, a, fa, b, fb);
    TermsSame(Signed(e.sign, EvalTerm(e.term, b, fb)), e.terms, a, fa, b, fb);
  }

  lemma CondSame(c: Cond, a: Env, fa: seq<Frame>, b: Env, fb: seq<Frame>)
    requires Reads(a, fa, b, fb) && GoodCond(c, b)
    ensures GoodCond(c, a) && EvalCond(c, a, fa) == EvalCond(c, b, fb)
  {
    match c
    case Odd(e) => ExprSame(e, a, fa, b, fb);
    case Compare(_, l, r) => ExprSame(l, a, fa, b, fb); ExprSame(r, a, fa, b, fb);
  }

  lemma {:induction false} StmtGood(s: Stmt, a: Env, b: Env)
    requires Reads(a, [], b, []) && GoodStmt(s, b)
    ensures GoodStmt(s, a)
    decreases s
  {
    match s
    case Assign(_, e) => ExprSame(e, a, [], b, []);
    case Begin(first, rest) => StmtGood(first, a, b); StmtsGood(rest, a, b);
    case If(c, t) => CondSame(c, a, [], b, []); StmtGood(t, a, b);
    case IfElse(c, t, e) => CondSame(c, a, [], b, []); StmtGood(t, a, b); StmtGood(e, a, b);
    case While(c, d) => CondSame(c, a, [], b, []); StmtGood(d, a, b);
    case _ =>
  }

  lemma {:induction false} StmtsGood(ss: Stmts, a: Env, b: Env)
    requires Reads(a, [], b, []) && GoodStmts(ss, b)
    ensures GoodStmts(ss, a)
    decreases ss
  {
    if ss.MoreStmts? {
      StmtGood(ss.stmt, a, b);
      StmtsGood(ss.next, a, b);
    }
  }

  lemma {:induction false} ReturningSame(s: Stmt, a: Env, fa: seq<Frame>, b: Env, fb: seq<Frame>)
    requires Reads(a, fa, b, fb) && GoodStmt(s, b)
    ensures Returning(s, a, fa) == Returning(s, b, fb)
    decreases s
  {
    hide Reads;
    match s
    case If(c, t) => CondSame(c, a, fa, b, fb); ReturningSame(t, a, fa, b, fb);
    case IfElse(c, t, e) => CondSame(c, a, fa, b, fb); ReturningSame(t, a, fa, b, fb); ReturningSame(e, a, fa, b, fb);
    case While(c, d) => CondSame(c, a, fa, b, fb); ReturningSame(d, a, fa, b, fb);
    case _ =>
  }

  lemma StepsSame(a: Env, b: Env, x: string)
    requires Refines(a, b) && b.Find(x).Some?
    ensures a.Find(x) == b.Find(x)
    ensures forall v, st :: Store1(x, v, a, st) == Store1(x, v, b, st)
    ensures forall m, st :: WriteValue(m, x, a, st) == WriteValue(m, x, b, st)
  {
  }

  lemma EnterAlike(a: Prog, b: Prog, m: Mode, x: string, ea: Env, eb: Env, st: Store)
    requires SameProcs(a, b) && Refines(ea, eb) && eb.Find(x).Some?
    ensures |a| == |b| && Enter(a, m, x, ea, st) == Enter(b, m, x, eb, st)
  {
    hide Height, Hop;
  }

  lemma {:induction false} ExecSame(a: Prog, b: Prog, m: Mode, s: Stmt, id: nat, st: Store, fuel: nat)
    requires SameProcs(a, b) && WellTyped(b) && id < |b| && GoodStmt(s, b[id].env)
    ensures Exec(a, m, s, id, st, fuel) == Exec(b, m, s, id, st, fuel)
    decreases fuel, s
  {
    var ea, eb := a[id].env, b[id].env;
    RefinesReads(ea, eb, st.frames);
    hide Refines, Reads, Enter, Leave, Store1, WriteValue, EvalExpr, EvalCond, Returning;
    match s
    case Empty =>
    case Assign(x, e) =>
      ExprSame(e, ea, st.frames, eb, st.frames);
      StepsSame(ea, eb, x);
    case Call(x) =>
      EnterAlike(a, b, m, x, ea, eb, st);
      var o := Enter(b, m, x, eb, st);
      if o.Done? && fuel > 0 {
        var callee := Running(o.st.frames);
        if callee < |b| {
          ExecSame(a, b, m, b[callee].body, callee, o.st, fuel - 1);
          RefinesReads(a[callee].env, b[callee].env, o.st.frames);
          ReturningSame(b[callee].body, a[callee].env, o.st.frames, b[callee].env, o.st.frames);
        }
      }
    case Begin(first, rest) =>
      ExecSame(a, b, m, first, id, st, fuel);
      var o := Exec(b, m, first, id, st, fuel);
      if o.Done? {
        ExecAllSame(a, b, m, rest, id, o.st, fuel);
      }
    case If(c, t) =>
      CondSame(c, ea, st.frames, eb, st.frames);
      ExecSame(a, b, m, t, id, st, fuel);
    case IfElse(c, t, e) =>
      CondSame(c, ea, st.frames, eb, st.frames);
      ExecSame(a, b, m, t, id, st, fuel);
      ExecSame(a, b, m, e, id, st, fuel);
    case While(c, d) =>
      CondSame(c, ea, st.frames, eb, st.frames);
      ExecSame(a, b, m, d, id, st, fuel);
      var o := Exec(b, m, d, id, st, fuel);
      if o.Done? && fuel > 0 {
        ExecSame(a, b, m, s, id, o.st, fuel - 1);
      }
    case Read(x) => StepsSame(ea, eb, x);
    case Write(x) => StepsSame(ea, eb, x);
  }

  lemma {:induction false} ExecAllSame(a: Prog, b: Prog, m: Mode, ss: Stmts, id: nat, st: Store, fuel: nat)
    requires SameProcs(a, b) && WellTyped(b) && id < |b| && GoodStmts(ss, b[id].env)
    ensures ExecAll(a, m, ss, id, st, fuel) == ExecAll(b, m, ss, id, st, fuel)
    decreases fuel, ss
  {
    if ss.MoreStmts? {
      ExecSame(a, b, m, ss.stmt, id, st, fuel);
      var o := Exec(b, m, ss.stmt, id, st, fuel);
      if o.Done? {
        ExecAllSame(a, b, m, ss.next, id, o.st, fuel);
      }
    }
  }
}
