/** Why records are small where all names resolve: each variable of a block needs a bucket of its own. */
module Room {
  import opened Common
  import opened Machine
  import opened Syntax
  import opened Symbols
  import opened Semantics
  import opened Programs
  import opened Scope
  import opened Standard

  /** The names a block declares, those of nested blocks left out. */
  function Names(d: Decls): set<string> {
    match d
    case NoDecls => {}
    case ConstDecl(x, _, next) => {x} + Names(next)
    case VarDecl(x, next) => {x} + Names(next)
    case ProcDecl(x, _, next) => {x} + Names(next)
  }

  /** No block declares a name twice. */
  predicate Once(d: Decls) {
    match d
    case NoDecls => true
    case ConstDecl(x, _, next) => x !in Names(next) && Once(next)
    case VarDecl(x, next) => x !in Names(next) && Once(next)
    case ProcDecl(x, blk, next) => x !in Names(next) && Once(blk.decls) && Once(next)
  }

  /** The variables of a block in the order of their declarations. */
  function VarNames(d: Decls): (xs: seq<string>)
    ensures |xs| == VarCount(d)
  {
    match d
    case NoDecls => []
    case ConstDecl(_, _, next) => VarNames(next)
    case VarDecl(x, next) => [x] + VarNames(next)
    case ProcDecl(_, _, next) => VarNames(next)
  }

  /** A name keeps its meaning over declarations of other names. */
  lemma {:induction false} ScopeKeeps(d: Decls, level: int, id: nat, slot: nat, scope: Scoping, n: nat, x: string)
    requires x !in Names(d) && x in scope
    ensures var lex := LexDecls(d, level, id, slot, scope, n).0; x in lex.scope && lex.scope[x] == scope[x]
    decreases d
  {
    match d
    case NoDecls =>
    case ConstDecl(y, v, next) => ScopeKeeps(next, level, id, slot, scope[y := Binding(CONST, 0, 0, v)], n, x);
    case VarDecl(y, next) => ScopeKeeps(next, level, id, slot + 1, scope[y := Binding(VAR, 0, HEADER + slot, 0)], n, x);
    case ProcDecl(y, blk, next) =>
      var scope1 := scope[y := Binding(PROC, 0, n + 1, 0)];
      var inner := LexDecls(blk.decls, level + 1, n + 1, 0, Deepen(scope1), n + 1).0;
      ScopeKeeps(next, level, id, slot, scope1, inner.procs, x);
  }

  /** Variable `k` of a block is in scope behind its declarations, in the block's slot `k`. */
  lemma {:induction false} VarInScope(d: Decls, level: int, id: nat, slot: nat, scope: Scoping, n: nat, k: nat)
    requires Once(d) && k < VarCount(d)
    ensures var lex := LexDecls(d, level, id, slot, scope, n).0;
            var x := VarNames(d)[k];
            x in lex.scope && lex.scope[x] == Binding(VAR, 0, HEADER + slot + k, 0)
    decreases d
  {
    match d
    case NoDecls =>
    case ConstDecl(y, v, next) => VarInScope(next, level, id, slot, scope[y := Binding(CONST, 0, 0, v)], n, k);
    case VarDecl(y, next) =>
      var scope1 := scope[y := Binding(VAR, 0, HEADER + slot, 0)];
      if k == 0 {
        ScopeKeeps(next, level, id, slot + 1, scope1, n, y);
      } else {
        VarInScope(next, level, id, slot + 1, scope1, n, k - 1);
      }
    case ProcDecl(y, blk, next) =>
      var scope1 := scope[y := Binding(PROC, 0, n + 1, 0)];
      var inner := LexDecls(blk.decls, level + 1, n + 1, 0, Deepen(scope1), n + 1).0;
      VarInScope(next, level, id, slot, scope1, inner.procs, k);
  }

  /** A table that finds every variable of a block has a bucket for each. */
  lemma FewVars(d: Decls, level: int, id: nat, scope: Scoping, n: nat, env: Env)
    requires Once(d) && env.FromTable?
    requires Refines(env, Lexical(LexDecls(d, level, id, 0, scope, n).0.scope))
    ensures VarCount(d) <= NUMS_BUCKET
  {
    hide LexDecls, Hash, VarNames, Once;
    var xs := VarNames(d);
    var lex := LexDecls(d, level, id, 0, scope, n).0.scope;
    var holes := seq(|xs|, k requires 0 <= k < |xs| => Hash(xs[k]));
    forall k | 0 <= k < |xs|
      ensures env.Find(xs[k]) == Some(Binding(VAR, 0, HEADER + k, 0))
    {
      VarInScope(d, level, id, 0, scope, n, k);
      assert Lexical(lex).Find(xs[k]) == Some(lex[xs[k]]);
    }
    forall j, k | 0 <= j < k < |xs|
      ensures holes[j] != holes[k]
    {
      SameBucket(env, xs[j], xs[k]);
    }
    Pigeons(holes, NUMS_BUCKET);
  }

  /** The table does not tell names of one bucket apart. */
  lemma SameBucket(env: Env, x: string, y: string)
    requires env.FromTable?
    ensures Hash(x) == Hash(y) ==> env.Find(x) == env.Find(y)
  {
  }

  lemma {:induction false} ProcsFew(d: Decls, level: int, id: nat, slot: nat, scope: Scoping, s: Counters)
    requires LevelsFit(d, level) && |s.offsets| == MAX_LEXI_LEVELS && Once(d) && Outward(scope)
    requires SameProcs(ElabDecls(d, level, id, s).1, LexDecls(d, level, id, slot, scope, s.procs).1)
    ensures forall i :: 0 <= i < |LexDecls(d, level, id, slot, scope, s.procs).1| ==>
              LexDecls(d, level, id, slot, scope, s.procs).1[i].vars <= NUMS_BUCKET
    decreases d
  {
    hide PutSymbol, SameProcs, Refines;
    match d
    case NoDecls =>
    case ConstDecl(x, v, next) =>
      ProcsFew(next, level, id, slot, scope[x := Binding(CONST, 0, 0, v)],
               s.(table := PutSymbol(s.table, Symbol(x, CONST, v, level, 0))));
    case VarDecl(x, next) =>
      ProcsFew(next, level, id, slot + 1, scope[x := Binding(VAR, 0, HEADER + slot, 0)],
               s.(table := PutSymbol(s.table, Symbol(x, VAR, 0, level, s.offsets[level])),
                  offsets := s.offsets[level := s.offsets[level] + 1]));
    case ProcDecl(x, blk, next) =>
      var scope1 := scope[x := Binding(PROC, 0, s.procs + 1, 0)];
      var s1 := Counters(PutSymbol(s.table, Symbol(x, PROC, 0, level, s.procs + 1)), s.offsets, s.procs + 1);
      var (s2, procs) := ElabDecls(blk.decls, level + 1, s1.procs, s1);
      var (inner, lexProcs) := LexDecls(blk.decls, level + 1, s1.procs, 0, Deepen(scope1), s1.procs);
      DeclsAlike(blk.decls, level + 1, s1.procs, 0, Deepen(scope1), s1);
      var p := Proc(level + 1, id, VarCount(blk.decls), FromTable(s2.table, level + 1), blk.body);
      var q := Proc(level + 1, id, VarCount(blk.decls), Lexical(inner.scope), blk.body);
      AlikeLength(procs, lexProcs);
      SameParts(p, q, procs, lexProcs, ElabDecls(next, level, id, s2).1,
                LexDecls(next, level, id, slot, scope1, inner.procs).1);
      FewVars(blk.decls, level + 1, s1.procs, Deepen(scope1), s1.procs, p.env);
      ProcsFew(blk.decls, level + 1, s1.procs, 0, Deepen(scope1), s1);
      ProcsFew(next, level, id, slot, scope1, s2);
  }

  lemma AlikeLength(a: seq<Proc>, b: seq<Proc>)
    requires Alike(a, b)
    ensures |a| == |b|
  {
  }

  lemma SameSlice(a: seq<Proc>, b: seq<Proc>, i: nat, j: nat)
    requires SameProcs(a, b) && i <= j <= |a|
    ensures |a| == |b| && SameProcs(a[i..j], b[i..j])
  {
    hide Refines;
  }

  lemma SameParts(p: Proc, q: Proc, a: seq<Proc>, a': seq<Proc>, b: seq<Proc>, b': seq<Proc>)
    requires |a| == |a'| && SameProcs([p] + a + b, [q] + a' + b')
    ensures Refines(p.env, q.env) && SameProcs(a, a') && SameProcs(b, b')
  {
    var all, all' := [p] + a + b, [q] + a' + b';
    FirstSame(all, all');
    hide SameProcs;
    var n := 1 + |a|;
    SameSlice(all, all', 1, n);
    SameSlice(all, all', n, |all|);
    assert all[1..n] == a && all'[1..n] == a';
    assert all[n..|all|] == b && all'[n..|all'|] == b';
  }

  lemma FirstSame(a: seq<Proc>, b: seq<Proc>)
    requires SameProcs(a, b) && a != []
    ensures |a| == |b| && Refines(a[0].env, b[0].env)
  {
    hide Refines;
  }

  /** The records of a program all of whose names resolve, and whose blocks declare no name twice, fit the stack. */
  lemma ClearSmall(b: Block)
    requires LevelsFit(b.decls, 0) && Once(b.decls) && ClearScopes(b)
    ensures RecordsFit(LexProgram(b))
  {
    hide ElabDecls, LexDecls, ClearScopes, SameProcs, Refines, Once;
    ScopesResolve(b);
    DeclsAlike(b.decls, 0, 0, 0, map[], InitCounters());
    var (s, procs) := ElabDecls(b.decls, 0, 0, InitCounters());
    var (lex, lexProcs) := LexDecls(b.decls, 0, 0, 0, map[], 0);
    var p := Proc(0, 0, VarCount(b.decls), FromTable(s.table, 0), b.body);
    var q := Proc(0, 0, VarCount(b.decls), Lexical(lex.scope), b.body);
    AlikeLength(procs, lexProcs);
    assert [p] + procs + [] == Elaborate(b) && [q] + lexProcs + [] == LexProgram(b);
    SameParts(p, q, procs, lexProcs, [], []);
    FewVars(b.decls, 0, 0, map[], 0, p.env);
    ProcsFew(b.decls, 0, 0, 0, map[], InitCounters());
  }
}
