/**
  Lexical scope, built from the tree alone, against what the compiler's table answers.

  The table keeps the symbols of finished procedures, never compares names, and does not give
  back a level's addresses; so the two agree only under conditions on the declarations.
 */
module Scope {
  import opened Common
  import opened Machine
  import opened Syntax
  import opened Symbols
  import opened Semantics
  import opened Programs

  type Scoping = map<string, Binding>

  /** A scope seen from one procedure further in. */
  function Deepen(scope: Scoping): Scoping {
    map x | x in scope :: scope[x].(hops := scope[x].hops + 1)
  }

  datatype Lex = Lex(scope: Scoping, procs: nat)

  /**
    The scope after the declarations `d` and the procedures they declare. `slot` variables of
    the block came before; `n` procedures of the program did.
   */
  function LexDecls(d: Decls, level: int, id: nat, slot: nat, scope: Scoping, n: nat): (Lex, seq<Proc>) {
    match d
    case NoDecls => (Lex(scope, n), [])
    case ConstDecl(x, v, next) => LexDecls(next, level, id, slot, scope[x := Binding(CONST, 0, 0, v)], n)
    case VarDecl(x, next) => LexDecls(next, level, id, slot + 1, scope[x := Binding(VAR, 0, HEADER + slot, 0)], n)
    case ProcDecl(x, blk, next) =>
      var scope1 := scope[x := Binding(PROC, 0, n + 1, 0)];
      var (inner, procs) := LexDecls(blk.decls, level + 1, n + 1, 0, Deepen(scope1), n + 1);
      var (lex, others) := LexDecls(next, level, id, slot, scope1, inner.procs);
      (lex, [Proc(level + 1, id, VarCount(blk.decls), Lexical(inner.scope), blk.body)] + procs + others)
  }

  /** The program a tree denotes in PL/0: names mean their innermost declaration. */
  function LexProgram(b: Block): (p: Prog)
    ensures p != []
  {
    var (lex, procs) := LexDecls(b.decls, 0, 0, 0, map[], 0);
    [Proc(0, 0, VarCount(b.decls), Lexical(lex.scope), b.body)] + procs
  }

  // ---------- agreement ----------

  /** Wherever `b` gives a name a meaning, `a` gives it the same. */
  ghost predicate Refines(a: Env, b: Env) {
    forall x :: b.Find(x).Some? ==> a.Find(x) == b.Find(x)
  }

  /** Procedure by procedure the same, except that `a` may give meaning to more names. */
  ghost predicate SameProcs(a: seq<Proc>, b: seq<Proc>) {
    && |a| == |b|
    && forall i :: 0 <= i < |a| ==>
         && a[i].level == b[i].level && a[i].parent == b[i].parent && a[i].vars == b[i].vars && a[i].body == b[i].body
         && Refines(a[i].env, b[i].env)
  }

  // ---------- agreement, exactly ----------

  /** Every name in scope in `q` is resolved, by the table `p` has, to its lexical declaration. */
  ghost predicate ClearProc(p: Proc, q: Proc) {
    && p.env.FromTable? && q.env.Lexical?
    && forall x :: x in q.env.scope ==> Resolves(p.env.table, x, p.env.level, q.env.scope[x])
  }

  /**
    At every procedure, for every name in lexical scope there: among the entries of the name's
    bucket that are no deeper, the deepest, and of these the first, is one that means what the
    name means, and the first entry of the bucket is no deeper. Names may be declared again
    further in, and other names may share the bucket, as long as they stay out of the way.
   */
  ghost predicate ClearScopes(b: Block) {
    var prog, lex := Elaborate(b), LexProgram(b);
    |prog| == |lex| && forall i :: 0 <= i < |lex| ==> ClearProc(prog[i], lex[i])
  }

  /** Variables are declared at levels that have an offset. */
  predicate LevelsFit(d: Decls, level: int) {
    match d
    case NoDecls => true
    case ConstDecl(_, _, next) => LevelsFit(next, level)
    case VarDecl(_, next) => 0 <= level < MAX_LEXI_LEVELS && LevelsFit(next, level)
    case ProcDecl(_, blk, next) => LevelsFit(blk.decls, level + 1) && LevelsFit(next, level)
  }

  /** Names of a scope are declared here or further out. */
  predicate Outward(scope: Scoping) {
    forall x :: x in scope ==> scope[x].hops >= 0
  }

  /** The same procedure but for what its names mean. */
  predicate AlikeProc(p: Proc, q: Proc) {
    && p.level == q.level && p.parent == q.parent && p.vars == q.vars && p.body == q.body
    && p.env.FromTable? && p.env.level == p.level
    && q.env.Lexical? && Outward(q.env.scope)
  }

  predicate Alike(a: seq<Proc>, b: seq<Proc>) {
    |a| == |b| && forall i :: 0 <= i < |a| ==> AlikeProc(a[i], b[i])
  }

  lemma AlikeConcat(p: Proc, q: Proc, a: seq<Proc>, a': seq<Proc>, b: seq<Proc>, b': seq<Proc>)
    requires AlikeProc(p, q) && Alike(a, a') && Alike(b, b')
    ensures Alike([p] + a + b, [q] + a' + b')
  {
    hide AlikeProc;
  }

  /** Whatever the names mean, both readings of a tree have the same procedures. */
  lemma {:induction false} DeclsAlike(d: Decls, level: int, id: nat, slot: nat, scope: Scoping, s: Counters)
    requires LevelsFit(d, level) && |s.offsets| == MAX_LEXI_LEVELS && Outward(scope)
    ensures var (s', procs) := ElabDecls(d, level, id, s);
            var (lex, lexProcs) := LexDecls(d, level, id, slot, scope, s.procs);
            && s'.procs == lex.procs && |s'.offsets| == MAX_LEXI_LEVELS && Outward(lex.scope)
            && Alike(procs, lexProcs)
    decreases d
  {
    hide PutSymbol, Alike, AlikeProc;
    match d
    case NoDecls => NoneAlike();
    case ConstDecl(x, v, next) =>
      DeclsAlike(next, level, id, slot, scope[x := Binding(CONST, 0, 0, v)],
                 s.(table := PutSymbol(s.table, Symbol(x, CONST, v, level, 0))));
    case VarDecl(x, next) =>
      DeclsAlike(next, level, id, slot + 1, scope[x := Binding(VAR, 0, HEADER + slot, 0)],
                 s.(table := PutSymbol(s.table, Symbol(x, VAR, 0, level, s.offsets[level])),
                    offsets := s.offsets[level := s.offsets[level] + 1]));
    case ProcDecl(x, blk, next) =>
      var scope1 := scope[x := Binding(PROC, 0, s.procs + 1, 0)];
      var s1 := Counters(PutSymbol(s.table, Symbol(x, PROC, 0, level, s.procs + 1)), s.offsets, s.procs + 1);
      DeclsAlike(blk.decls, level + 1, s1.procs, 0, Deepen(scope1), s1);
      var (s2, procs) := ElabDecls(blk.decls, level + 1, s1.procs, s1);
      var (inner, lexProcs) := LexDecls(blk.decls, level + 1, s1.procs, 0, Deepen(scope1), s1.procs);
      DeclsAlike(next, level, id, slot, scope1, s2);
      var p := Proc(level + 1, id, VarCount(blk.decls), FromTable(s2.table, level + 1), blk.body);
      var q := Proc(level + 1, id, VarCount(blk.decls), Lexical(inner.scope), blk.body);
      AlikeSame(p, q);
      AlikeConcat(p, q, procs, lexProcs, ElabDecls(next, level, id, s2).1,
                  LexDecls(next, level, id, slot, scope1, inner.procs).1);
  }

  lemma AlikeSame(p: Proc, q: Proc)
    requires p.env.FromTable? && p.env.level == p.level && q.env.Lexical? && Outward(q.env.scope)
    requires q == p.(env := q.env)
    ensures AlikeProc(p, q)
  {
  }

  lemma NoneAlike()
    ensures Alike([], [])
  {
  }

  /** The two readings of a tree have the same procedures, each but for its names. */
  lemma ProgramsAlike(b: Block)
    requires LevelsFit(b.decls, 0)
    ensures Alike(Elaborate(b), LexProgram(b))
  {
    hide ElabDecls, LexDecls, Alike, AlikeProc;
    DeclsAlike(b.decls, 0, 0, 0, map[], InitCounters());
    var (s, procs) := ElabDecls(b.decls, 0, 0, InitCounters());
    var (lex, lexProcs) := LexDecls(b.decls, 0, 0, 0, map[], 0);
    var p := Proc(0, 0, VarCount(b.decls), FromTable(s.table, 0), b.body);
    var q := Proc(0, 0, VarCount(b.decls), Lexical(lex.scope), b.body);
    AlikeSame(p, q);
    NoneAlike();
    AlikeConcat(p, q, procs, lexProcs, [], []);
    assert [p] + procs + [] == [p] + procs && [q] + lexProcs + [] == [q] + lexProcs;
  }

  lemma ClearExact(p: Proc, q: Proc)
    requires AlikeProc(p, q)
    ensures Refines(p.env, q.env) <==> ClearProc(p, q)
  {
    hide Resolves;
    var scope := q.env.scope;
    forall x | x in scope
      ensures p.env.Find(x) == Some(scope[x]) <==> Resolves(p.env.table, x, p.env.level, scope[x])
    {
      ResolvesExact(p.env.table, x, p.env.level, scope[x]);
    }
    if Refines(p.env, q.env) {
      forall x | x in scope ensures Resolves(p.env.table, x, p.env.level, scope[x]) {
        assert q.env.Find(x) == Some(scope[x]);
      }
    }
  }

  /** Of two readings with the same procedures, one resolves the names of the other exactly when it refines it. */
  lemma AlikeResolve(a: Prog, b: Prog)
    requires Alike(a, b)
    ensures |a| == |b| && (SameProcs(a, b) <==> forall i :: 0 <= i < |b| ==> ClearProc(a[i], b[i]))
  {
    hide AlikeProc, ClearProc, Refines;
    forall i | 0 <= i < |a|
      ensures Refines(a[i].env, b[i].env) <==> ClearProc(a[i], b[i])
    {
      ClearExact(a[i], b[i]);
    }
    AlikeFields(a, b);
  }

  /** The compiler's table reads every name in scope as lexical scope does, exactly when all are clear. */
  lemma ScopesResolve(b: Block)
    requires LevelsFit(b.decls, 0)
    ensures SameProcs(Elaborate(b), LexProgram(b)) <==> ClearScopes(b)
  {
    hide Elaborate, LexProgram, SameProcs, Alike, ClearProc;
    ProgramsAlike(b);
    AlikeResolve(Elaborate(b), LexProgram(b));
  }

  lemma AlikeFields(a: seq<Proc>, b: seq<Proc>)
    requires Alike(a, b)
    ensures |a| == |b|
    ensures forall i :: 0 <= i < |a| ==>
      a[i].level == b[i].level && a[i].parent == b[i].parent && a[i].vars == b[i].vars && a[i].body == b[i].body
  {
    forall i | 0 <= i < |a|
      ensures a[i].level == b[i].level && a[i].parent == b[i].parent && a[i].vars == b[i].vars && a[i].body == b[i].body
    {
      assert AlikeProc(a[i], b[i]);
    }
  }
}
