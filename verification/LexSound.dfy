/** Lexical scope is sound: every name in scope is where the static chain leads. */
module LexSound {
  import opened Common
  import opened Machine
  import opened Syntax
  import opened Symbols
  import opened Compile
  import opened Semantics
  import opened Emission
  import opened Scope
  import opened CodeShape

  /** Every name of `scope`, used in procedure `i`, is sound. */
  predicate ScopeSound(prog: Prog, i: nat, scope: Scoping)
    requires i < |prog|
  {
    forall x :: x in scope ==> SoundName(prog, i, scope[x])
  }

  lemma DeepenSound(prog: Prog, i: nat, child: nat, scope: Scoping)
    requires i < |prog| && child < |prog| && prog[child].parent == i && prog[child].level == prog[i].level + 1
    requires ScopeSound(prog, i, scope)
    ensures ScopeSound(prog, child, Deepen(scope))
  {
    forall x | x in Deepen(scope)
      ensures SoundName(prog, child, Deepen(scope)[x])
    {
      var b := scope[x];
      assert SoundName(prog, i, b);
      assert Ancestor(prog, child, b.hops + 1) == Ancestor(prog, i, b.hops);
    }
  }

  /** Procedures `n + 1` on of `prog` are `procs`. */
  predicate StandAt(prog: Prog, n: nat, procs: seq<Proc>) {
    n + |procs| < |prog| && prog[n + 1..n + 1 + |procs|] == procs
  }

  lemma PlacedParts(prog: Prog, n: nat, p: Proc, inner: seq<Proc>, others: seq<Proc>)
    requires StandAt(prog, n, [p] + inner + others)
    ensures n + 1 < |prog| && prog[n + 1] == p
    ensures StandAt(prog, n + 1, inner) && StandAt(prog, n + 1 + |inner|, others)
  {
    var all := [p] + inner + others;
    assert prog[n + 1] == prog[n + 1..n + 1 + |all|][0];
    assert prog[n + 2..n + 2 + |inner|] == all[1..1 + |inner|] == inner;
    assert prog[n + 2 + |inner|..n + 1 + |all|] == all[1 + |inner|..] == others;
  }

  /** Procedure `k` sits in the tree below an earlier one, and its names are sound. */
  ghost predicate SoundProc(prog: Prog, k: nat)
    requires k < |prog|
  {
    && 0 <= prog[k].parent < k && prog[k].level == prog[prog[k].parent].level + 1
    && SoundEnv(prog, k)
  }

  /** The declarations of procedure `id` extend its sound scope soundly, and so do those nested in them. */
  lemma {:induction false} DeclsSound(
      prog: Prog, d: Decls, level: int, id: nat, slot: nat, scope: Scoping, n: nat)
    requires id < |prog| && prog[id].level == level >= 0 && id <= n
    requires slot + VarCount(d) <= prog[id].vars
    requires StandAt(prog, n, LexDecls(d, level, id, slot, scope, n).1)
    requires ScopeSound(prog, id, scope)
    ensures var (lex, procs) := LexDecls(d, level, id, slot, scope, n);
            && lex.procs == n + |procs|
            && ScopeSound(prog, id, lex.scope)
            && forall k :: n < k <= n + |procs| ==> SoundProc(prog, k)
    decreases d
  {
    hide ScopeSound, StandAt, SoundEnv;
    match d
    case NoDecls =>
    case ConstDecl(x, v, next) =>
      OneSound(prog, id, scope, x, Binding(CONST, 0, 0, v));
      DeclsSound(prog, next, level, id, slot, scope[x := Binding(CONST, 0, 0, v)], n);
    case VarDecl(x, next) =>
      OneSound(prog, id, scope, x, Binding(VAR, 0, HEADER + slot, 0));
      DeclsSound(prog, next, level, id, slot + 1, scope[x := Binding(VAR, 0, HEADER + slot, 0)], n);
    case ProcDecl(x, blk, next) =>
      var scope1 := scope[x := Binding(PROC, 0, n + 1, 0)];
      var (inner, procs) := LexDecls(blk.decls, level + 1, n + 1, 0, Deepen(scope1), n + 1);
      var (lex, others) := LexDecls(next, level, id, slot, scope1, inner.procs);
      var p := Proc(level + 1, id, VarCount(blk.decls), Lexical(inner.scope), blk.body);
      LexCount(blk.decls, level + 1, n + 1, 0, Deepen(scope1), n + 1);
      PlacedParts(prog, n, p, procs, others);
      OneSound(prog, id, scope, x, Binding(PROC, 0, n + 1, 0));
      DeepenSound(prog, id, n + 1, scope1);
      DeclsSound(prog, blk.decls, level + 1, n + 1, 0, Deepen(scope1), n + 1);
      DeclsSound(prog, next, level, id, slot, scope1, inner.procs);
      ScopeEnv(prog, n + 1, inner.scope);
  }

  lemma OneSound(prog: Prog, id: nat, scope: Scoping, x: string, b: Binding)
    requires id < |prog| && ScopeSound(prog, id, scope) && SoundName(prog, id, b)
    ensures ScopeSound(prog, id, scope[x := b])
  {
  }

  lemma ScopeEnv(prog: Prog, i: nat, scope: Scoping)
    requires i < |prog| && prog[i].env == Lexical(scope) && ScopeSound(prog, i, scope)
    ensures SoundEnv(prog, i)
  {
  }

  lemma {:induction false} LexCount(d: Decls, level: int, id: nat, slot: nat, scope: Scoping, n: nat)
    ensures LexDecls(d, level, id, slot, scope, n).0.procs == n + |LexDecls(d, level, id, slot, scope, n).1|
    decreases d
  {
    match d
    case NoDecls =>
    case ConstDecl(x, v, next) => LexCount(next, level, id, slot, scope[x := Binding(CONST, 0, 0, v)], n);
    case VarDecl(x, next) => LexCount(next, level, id, slot + 1, scope[x := Binding(VAR, 0, HEADER + slot, 0)], n);
    case ProcDecl(x, blk, next) =>
      var scope1 := scope[x := Binding(PROC, 0, n + 1, 0)];
      LexCount(blk.decls, level + 1, n + 1, 0, Deepen(scope1), n + 1);
      LexCount(next, level, id, slot, scope1, LexDecls(blk.decls, level + 1, n + 1, 0, Deepen(scope1), n + 1).0.procs);
  }

  /** In every PL/0 program names are sound: lexical scope and the static chain agree. */
  lemma LexicalSound(b: Block)
    ensures var prog := LexProgram(b);
            Tree(prog) && forall i :: 0 <= i < |prog| ==> SoundEnv(prog, i)
  {
    hide LexDecls, LexProgram, SoundEnv, SoundProc, ScopeSound;
    var prog := LexProgram(b);
    LexParts(b);
    NoneSound(prog, 0);
    DeclsSound(prog, b.decls, 0, 0, 0, map[], 0);
    ScopeEnv(prog, 0, LexDecls(b.decls, 0, 0, 0, map[], 0).0.scope);
    AllSound(prog);
  }

  lemma LexParts(b: Block)
    ensures var prog := LexProgram(b);
            var (lex, procs) := LexDecls(b.decls, 0, 0, 0, map[], 0);
            && |prog| == 1 + |procs| && prog[0] == Proc(0, 0, VarCount(b.decls), Lexical(lex.scope), b.body)
            && StandAt(prog, 0, procs)
  {
    hide LexDecls;
    assert LexProgram(b)[1..] == LexDecls(b.decls, 0, 0, 0, map[], 0).1;
  }

  lemma AllSound(prog: Prog)
    requires prog != [] && prog[0].level == 0 && SoundEnv(prog, 0) && forall k :: 0 < k < |prog| ==> SoundProc(prog, k)
    ensures Tree(prog) && forall i :: 0 <= i < |prog| ==> SoundEnv(prog, i)
  {
    hide SoundEnv;
    forall k | 0 < k < |prog|
      ensures 0 <= prog[k].parent < k && prog[k].level == prog[prog[k].parent].level + 1 && SoundEnv(prog, k)
    {
      assert SoundProc(prog, k);
    }
  }

  lemma NoneSound(prog: Prog, i: nat)
    requires i < |prog|
    ensures ScopeSound(prog, i, map[])
  {
  }

  // ---------- the code does not depend on how names are looked up ----------

  lemma {:induction false} FactorCode(f: Factor, p: int, a: Env, b: Env)
    requires Refines(a, b) && GoodFactor(f, b)
    ensures CompileFactor(f, p, a) == CompileFactor(f, p, b)
    decreases f
  {
    if f.Paren? {
      ExprCode(f.expr, p, a, b);
    }
  }

  lemma {:induction false} FactorsCode(fs: Factors, p: int, a: Env, b: Env)
    requires Refines(a, b) && GoodFactors(fs, b)
    ensures CompileFactors(fs, p, a) == CompileFactors(fs, p, b)
    decreases fs
  {
    if fs.MoreFactors? {
      FactorCode(fs.factor, p + 1, a, b);
      FactorsCode(fs.next, p, a, b);
    }
  }

  lemma {:induction false} TermCode(t: Term, sign: Sign, p: int, a: Env, b: Env)
    requires Refines(a, b) && GoodTerm(t, b)
    ensures CompileTerm(t, sign, p, a) == CompileTerm(t, sign, p, b)
    decreases t
  {
    FactorCode(t.factor, p, a, b);
    FactorsCode(t.factors, p, a, b);
  }

  lemma {:induction false} TermsCode(ts: Terms, p: int, a: Env, b: Env)
    requires Refines(a, b) && GoodTerms(ts, b)
    ensures CompileTerms(ts, p, a) == CompileTerms(ts, p, b)
    decreases ts
  {
    if ts.MoreTerms? {
      TermCode(ts.term, NoSign, p + 1, a, b);
      TermsCode(ts.next, p, a, b);
    }
  }

  lemma {:induction false} ExprCode(e: Expr, p: int, a: Env, b: Env)
    requires Refines(a, b) && GoodExpr(e, b)
    ensures CompileExpr(e, p, a) == CompileExpr(e, p, b)
    decreases e
  {
    TermCode(e.term, e.sign, p, a, b);
    TermsCode(e.terms, p, a, b);
  }

  lemma CondCode(c: Cond, p: int, a: Env, b: Env)
    requires Refines(a, b) && GoodCond(c, b)
    ensures CompileCond(c, p, a) == CompileCond(c, p, b)
  {
    match c
    case Odd(e) => ExprCode(e, p, a, b);
    case Compare(_, l, r) => ExprCode(l, p, a, b); ExprCode(r, p + 1, a, b);
  }

  lemma SimpleCode(s: Stmt, at: int, p: int, a: Env, b: Env, inProc: bool)
    requires Refines(a, b) && GoodStmt(s, b)
    requires s.Empty? || s.Assign? || s.Call? || s.Read? || s.Write?
    ensures CompileStmt(s, at, p, a, inProc) == CompileStmt(s, at, p, b, inProc)
  {
    hide Refines, Branch, CompileExpr, CompileCond, Access, CompileWrite, CompileStmts;
    match s
    case Assign(x, e) => ExprCode(e, p, a, b); AccessCode(STO, p, x, a, b);
    case Call(x) => AccessCode(CAL, 0, x, a, b);
    case Read(x) => AccessCode(STO, p, x, a, b);
    case Write(x) => AccessCode(LOD, p, x, a, b);
    case Empty =>
  }

  /** A statement's code is the same under any lookup that gives its names the same meanings. */
  lemma {:induction false} StmtCode(s: Stmt, at: int, p: int, a: Env, b: Env, inProc: bool)
    requires Refines(a, b) && GoodStmt(s, b)
    ensures CompileStmt(s, at, p, a, inProc) == CompileStmt(s, at, p, b, inProc)
    decreases s, 1
  {
    hide Refines, Branch, CompileExpr, CompileCond, Access, CompileWrite, CompileStmts, GoodExpr, GoodCond, GoodStmts;
    match s
    case Begin(first, rest) =>
      StmtCode(first, at, p, a, b, inProc);
      StmtsCode(rest, at + |CompileStmt(first, at, p, b, inProc)|, p, a, b, inProc);
    case If(_, _) => IfCode(s, at, p, a, b, inProc);
    case IfElse(_, _, _) => IfElseCode(s, at, p, a, b, inProc);
    case While(_, _) => WhileCode(s, at, p, a, b, inProc);
    case _ => SimpleCode(s, at, p, a, b, inProc);
  }

  lemma {:induction false} IfCode(s: Stmt, at: int, p: int, a: Env, b: Env, inProc: bool)
    requires Refines(a, b) && GoodStmt(s, b) && s.If?
    ensures CompileStmt(s, at, p, a, inProc) == CompileStmt(s, at, p, b, inProc)
    decreases s, 0
  {
    hide CompileStmt, CompileCond, Branch, GoodCond, GoodStmt, Refines;
    IfShape(s.cond, s.thn, Empty, at, p, a, inProc);
    IfShape(s.cond, s.thn, Empty, at, p, b, inProc);
    CondCode(s.cond, p, a, b);
    StmtCode(s.thn, at + |CompileCond(s.cond, p, a)| + 1, p + 1, a, b, inProc);
  }

  lemma {:induction false} WhileCode(s: Stmt, at: int, p: int, a: Env, b: Env, inProc: bool)
    requires Refines(a, b) && GoodStmt(s, b) && s.While?
    ensures CompileStmt(s, at, p, a, inProc) == CompileStmt(s, at, p, b, inProc)
    decreases s, 0
  {
    hide CompileStmt, CompileCond, Branch, GoodCond, GoodStmt, Refines;
    WhileShape(s.cond, s.body, at, p, a, inProc);
    WhileShape(s.cond, s.body, at, p, b, inProc);
    CondCode(s.cond, p, a, b);
    StmtCode(s.body, at + |CompileCond(s.cond, p, a)| + 1, p + 1, a, b, inProc);
  }

  lemma {:induction false} IfElseCode(s: Stmt, at: int, p: int, a: Env, b: Env, inProc: bool)
    requires Refines(a, b) && GoodStmt(s, b) && s.IfElse?
    ensures CompileStmt(s, at, p, a, inProc) == CompileStmt(s, at, p, b, inProc)
    decreases s, 0
  {
    hide CompileStmt, CompileCond, Branch, GoodCond, GoodStmt, Refines;
    IfShape(s.cond, s.thn, s.els, at, p, a, inProc);
    IfShape(s.cond, s.thn, s.els, at, p, b, inProc);
    CondCode(s.cond, p, a, b);
    var cc := CompileCond(s.cond, p, a);
    StmtCode(s.thn, at + |cc| + 1, p + 1, a, b, inProc);
    var after := at + |cc| + |CompileStmt(s.thn, at + |cc| + 1, p + 1, a, inProc)| + 2;
    StmtCode(s.els, after, p + 1, a, b, inProc);
  }

  lemma AccessCode(op: Opcode, p: int, x: string, a: Env, b: Env)
    requires Refines(a, b) && b.Find(x).Some?
    ensures Access(op, p, x, a) == Access(op, p, x, b) && CompileWrite(x, p, a) == CompileWrite(x, p, b)
  {
  }

  lemma {:induction false} StmtsCode(ss: Stmts, at: int, p: int, a: Env, b: Env, inProc: bool)
    requires Refines(a, b) && GoodStmts(ss, b)
    ensures CompileStmts(ss, at, p, a, inProc) == CompileStmts(ss, at, p, b, inProc)
    decreases ss
  {
    hide CompileStmt, Refines;
    if ss.MoreStmts? {
      StmtCode(ss.stmt, at, p, a, b, inProc);
      StmtsCode(ss.next, at + |CompileStmt(ss.stmt, at, p, b, inProc)|, p, a, b, inProc);
    }
  }
}
