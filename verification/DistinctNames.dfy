/**
  A condition on the declarations alone that makes all names resolve: every declared name has a
  bucket of its own, and every procedure with variables finds its level's offset at the start.
 */
module DistinctNames {
  import opened Common
  import opened Machine
  import opened Syntax
  import opened Symbols
  import opened Semantics
  import opened Programs
  import opened Scope

  // ---------- conditions ----------

  function DeclHashes(d: Decls): set<int> {
    match d
    case NoDecls => {}
    case ConstDecl(x, _, next) => {Hash(x)} + DeclHashes(next)
    case VarDecl(x, next) => {Hash(x)} + DeclHashes(next)
    case ProcDecl(x, blk, next) => {Hash(x)} + DeclHashes(blk.decls) + DeclHashes(next)
  }

  /** No two declared names of the program share a bucket; `used` holds the buckets so far. */
  predicate Distinct(d: Decls, used: set<int>) {
    match d
    case NoDecls => true
    case ConstDecl(x, _, next) => Hash(x) !in used && Distinct(next, used + {Hash(x)})
    case VarDecl(x, next) => Hash(x) !in used && Distinct(next, used + {Hash(x)})
    case ProcDecl(x, blk, next) =>
      && Hash(x) !in used
      && Distinct(blk.decls, used + {Hash(x)})
      && Distinct(next, used + {Hash(x)} + DeclHashes(blk.decls))
  }

  /** A procedure that declares variables finds the offset of its level where a record's variables start. */
  predicate FreshLevels(d: Decls, level: int, s: Counters) {
    match d
    case NoDecls => true
    case ConstDecl(x, v, next) => FreshLevels(next, level,
                                              s.(table := PutSymbol(s.table, Symbol(x, CONST, v, level, 0))))
    case VarDecl(x, next) =>
      0 <= level < |s.offsets| ==>
        FreshLevels(next, level,
          s.(table := PutSymbol(s.table, Symbol(x, VAR, 0, level, s.offsets[level])),
             offsets := s.offsets[level := s.offsets[level] + 1]))
    case ProcDecl(x, blk, next) =>
      var s1 := Counters(PutSymbol(s.table, Symbol(x, PROC, 0, level, s.procs + 1)), s.offsets, s.procs + 1);
      && (HasVars(blk.decls) ==> 0 <= level + 1 < |s1.offsets| && s1.offsets[level + 1] == HEADER)
      && FreshLevels(blk.decls, level + 1, s1)
      && FreshLevels(next, level, ElabDecls(blk.decls, level + 1, s1.procs, s1).0)
  }

  // ---------- agreement ----------

  /** For every name in scope, its bucket holds its symbol alone. */
  ghost predicate TableHas(t: Table, level: int, scope: Scoping) {
    forall x :: x in scope ==>
      var b := Bucket(t, Hash(x));
      |b| == 1 && scope[x] == Binding(b[0].kind, level - b[0].level, b[0].addr, b[0].val)
  }

  lemma TableRefines(t: Table, level: int, scope: Scoping)
    requires TableHas(t, level, scope)
    ensures Refines(FromTable(t, level), Lexical(scope))
  {
    forall x | x in scope
      ensures FromTable(t, level).Find(x) == Some(scope[x])
    {
      var b := Bucket(t, Hash(x));
      assert b == [b[0]];
      assert Search(b, None, level) == Search(b[1..], Some(b[0]), level) == Some(b[0]);
    }
  }

  lemma TableDeepen(t: Table, level: int, scope: Scoping)
    requires TableHas(t, level, scope)
    ensures TableHas(t, level + 1, Deepen(scope))
  {
  }

  /** Fewer than all buckets are in use while one is free. */
  lemma RoomLeft(used: set<int>, h: int)
    requires 0 <= h < NUMS_BUCKET && h !in used && forall k :: k in used ==> 0 <= k < NUMS_BUCKET
    ensures |used| < NUMS_BUCKET
  {
    hide Below;
    CardLess(used + {h}, Below(NUMS_BUCKET));
  }

  /** Table and scope after the same declarations: every bucket of the table is that of one name. */
  ghost predicate InStep(t: Table, level: int, scope: Scoping, used: set<int>) {
    && t.Keys == used
    && TableHas(t, level, scope)
    && (forall k :: k in used ==> 0 <= k < NUMS_BUCKET)
    && (forall x :: x in scope ==> Hash(x) in used)
  }

  lemma FreshPut(t: Table, s: Symbol)
    requires Hash(s.name) !in t && forall k :: k in t ==> 0 <= k < NUMS_BUCKET
    ensures PutSymbol(t, s) == t[Hash(s.name) := [s]]
  {
    hide HashFrom;
    RoomLeft(t.Keys, Hash(s.name));
    assert |t| == |t.Keys|;
    assert [] + [s] == [s];
  }

  /** Entering a name whose bucket is free adds its symbol and disturbs no other name. */
  lemma StepIn(t: Table, s: Symbol, scope: Scoping, used: set<int>)
    requires InStep(t, s.level, scope, used) && Hash(s.name) !in used
    ensures PutSymbol(t, s) == t[Hash(s.name) := [s]]
    ensures InStep(PutSymbol(t, s), s.level, scope[s.name := Binding(s.kind, 0, s.addr, s.val)], used + {Hash(s.name)})
  {
    FreshPut(t, s);
    HashRange(s.name);
    hide Hash, PutSymbol;
    var t' := t[Hash(s.name) := [s]];
    var scope' := scope[s.name := Binding(s.kind, 0, s.addr, s.val)];
    forall x | x in scope'
      ensures Bucket(t', Hash(x)) == if x == s.name then [s] else Bucket(t, Hash(x))
    {
    }
  }

  lemma HashRange(x: string)
    ensures 0 <= Hash(x) < NUMS_BUCKET
  {
  }

  /** The buckets in `used` are the same in both tables. */
  ghost predicate Kept(t: Table, t': Table, used: set<int>) {
    forall h :: h in used ==> Bucket(t', h) == Bucket(t, h)
  }

  lemma KeptStep(t: Table, t': Table, level: int, scope: Scoping, used: set<int>, used': set<int>)
    requires InStep(t, level, scope, used) && Kept(t, t', used)
    requires t'.Keys == used' && used <= used' && forall k :: k in used' ==> 0 <= k < NUMS_BUCKET
    ensures InStep(t', level, scope, used')
  {
  }

  /** What the induction over declarations carries: who is in step, and whose addresses fit. */
  ghost predicate Stage(d: Decls, level: int, slot: nat, scope: Scoping, used: set<int>, s: Counters) {
    && InStep(s.table, level, scope, used)
    && Distinct(d, used)
    && FreshLevels(d, level, s)
    && level >= 0
    && (HasVars(d) ==> level < |s.offsets| && s.offsets[level] == HEADER + slot)
  }

  /** After the declarations `d`: table and scope still in step, procedures the same, the outside untouched. */
  ghost predicate Agreed(d: Decls, level: int, id: nat, slot: nat, scope: Scoping, used: set<int>, s: Counters) {
    var (s', procs) := ElabDecls(d, level, id, s);
    var (lex, lexProcs) := LexDecls(d, level, id, slot, scope, s.procs);
    && InStep(s'.table, level, lex.scope, used + DeclHashes(d))
    && Kept(s.table, s'.table, used)
    && s'.procs == lex.procs
    && SameProcs(procs, lexProcs)
    && |s'.offsets| == |s.offsets|
    && (forall l :: 0 <= l < level && l < |s.offsets| ==> s'.offsets[l] == s.offsets[l])
  }

  lemma {:induction false} ScopesAgree(
      d: Decls, level: int, id: nat, slot: nat, scope: Scoping, used: set<int>, s: Counters)
    requires Stage(d, level, slot, scope, used, s)
    ensures Agreed(d, level, id, slot, scope, used, s)
    decreases d, 1
  {
    hide SameProcs, Agreed;
    match d
    case NoDecls => NoneAgreed(level, id, slot, scope, used, s);
    case ConstDecl(x, v, next) =>
      var sym := Symbol(x, CONST, v, level, 0);
      StepIn(s.table, sym, scope, used);
      var s1 := s.(table := PutSymbol(s.table, sym));
      var scope1 := scope[x := Binding(CONST, 0, 0, v)];
      ScopesAgree(next, level, id, slot, scope1, used + {Hash(x)}, s1);
      OneAgreed(d, next, level, id, slot, slot, scope, scope1, used, Hash(x), s, s1);
    case VarDecl(x, next) =>
      var sym := Symbol(x, VAR, 0, level, s.offsets[level]);
      StepIn(s.table, sym, scope, used);
      var s1 := s.(table := PutSymbol(s.table, sym), offsets := s.offsets[level := s.offsets[level] + 1]);
      var scope1 := scope[x := Binding(VAR, 0, HEADER + slot, 0)];
      ScopesAgree(next, level, id, slot + 1, scope1, used + {Hash(x)}, s1);
      OneAgreed(d, next, level, id, slot, slot + 1, scope, scope1, used, Hash(x), s, s1);
    case ProcDecl(_, _, _) => ProcScopesAgree(d, level, id, slot, scope, used, s);
  }

  lemma NoneAgreed(level: int, id: nat, slot: nat, scope: Scoping, used: set<int>, s: Counters)
    requires InStep(s.table, level, scope, used)
    ensures Agreed(NoDecls, level, id, slot, scope, used, s)
  {
    assert used + {} == used;
  }

  /** One constant or variable in front of declarations that agree. */
  lemma OneAgreed(d: Decls, next: Decls, level: int, id: nat, slot: nat, slot1: nat, scope: Scoping, scope1: Scoping,
                  used: set<int>, h: int, s: Counters, s1: Counters)
    requires ElabDecls(d, level, id, s) == ElabDecls(next, level, id, s1)
    requires LexDecls(d, level, id, slot, scope, s.procs) == LexDecls(next, level, id, slot1, scope1, s1.procs)
    requires DeclHashes(d) == {h} + DeclHashes(next)
    requires Kept(s.table, s1.table, used) && |s1.offsets| == |s.offsets|
    requires forall l :: 0 <= l < level && l < |s.offsets| ==> s1.offsets[l] == s.offsets[l]
    requires Agreed(next, level, id, slot1, scope1, used + {h}, s1)
    ensures Agreed(d, level, id, slot, scope, used, s)
  {
    hide InStep, SameProcs, ElabDecls, LexDecls, DeclHashes;
    assert used + {h} + DeclHashes(next) == used + DeclHashes(d);
  }

  lemma {:induction false} ProcScopesAgree(
      d: Decls, level: int, id: nat, slot: nat, scope: Scoping, used: set<int>, s: Counters)
    requires d.ProcDecl? && Stage(d, level, slot, scope, used, s)
    ensures Agreed(d, level, id, slot, scope, used, s)
    decreases d, 0
  {
    hide Agreed, Stage, Refines;
    var blk := d.block;
    var scope1 := scope[d.name := Binding(PROC, 0, s.procs + 1, 0)];
    var used1 := used + {Hash(d.name)};
    var s1 := InnerStage(d, level, slot, scope, used, s);
    ScopesAgree(blk.decls, level + 1, s1.procs, 0, Deepen(scope1), used1, s1);
    var s2 := ElabDecls(blk.decls, level + 1, s1.procs, s1).0;
    NextStage(d, level, slot, scope, used, s, s1);
    ScopesAgree(d.next, level, id, slot, scope1, used1 + DeclHashes(blk.decls), s2);
    ProcAgreed(d, level, id, slot, scope, used, s, s1, s2);
  }

  /** The block of a procedure starts in step, one level further in. */
  lemma InnerStage(d: Decls, level: int, slot: nat, scope: Scoping, used: set<int>, s: Counters) returns (s1: Counters)
    requires d.ProcDecl? && Stage(d, level, slot, scope, used, s)
    ensures s1 == Counters(PutSymbol(s.table, Symbol(d.name, PROC, 0, level, s.procs + 1)), s.offsets, s.procs + 1)
    ensures level >= 0 && Kept(s.table, s1.table, used)
    ensures var scope1 := scope[d.name := Binding(PROC, 0, s.procs + 1, 0)];
            && InStep(s1.table, level, scope1, used + {Hash(d.name)})
            && Stage(d.block.decls, level + 1, 0, Deepen(scope1), used + {Hash(d.name)}, s1)
  {
    var sym := Symbol(d.name, PROC, 0, level, s.procs + 1);
    s1 := Counters(PutSymbol(s.table, sym), s.offsets, s.procs + 1);
    StepIn(s.table, sym, scope, used);
    TableDeepen(s1.table, level, scope[d.name := Binding(PROC, 0, s.procs + 1, 0)]);
  }

  /** What follows a procedure starts in step again, back at the level of the block. */
  lemma NextStage(d: Decls, level: int, slot: nat, scope: Scoping, used: set<int>, s: Counters, s1: Counters)
    requires d.ProcDecl? && Stage(d, level, slot, scope, used, s)
    requires s1 == Counters(PutSymbol(s.table, Symbol(d.name, PROC, 0, level, s.procs + 1)), s.offsets, s.procs + 1)
    requires var scope1 := scope[d.name := Binding(PROC, 0, s.procs + 1, 0)];
             var used1 := used + {Hash(d.name)};
             && InStep(s1.table, level, scope1, used1)
             && Agreed(d.block.decls, level + 1, s1.procs, 0, Deepen(scope1), used1, s1)
    ensures var scope1 := scope[d.name := Binding(PROC, 0, s.procs + 1, 0)];
            var used1 := used + {Hash(d.name)};
            var s2 := ElabDecls(d.block.decls, level + 1, s1.procs, s1).0;
            && Stage(d.next, level, slot, scope1, used1 + DeclHashes(d.block.decls), s2)
            && Refines(FromTable(s2.table, level + 1),
                       Lexical(LexDecls(d.block.decls, level + 1, s1.procs, 0, Deepen(scope1), s1.procs).0.scope))
  {
    hide SameProcs, Refines, InStep, Kept, PutSymbol;
    var scope1 := scope[d.name := Binding(PROC, 0, s.procs + 1, 0)];
    var used1 := used + {Hash(d.name)};
    var s2 := ElabDecls(d.block.decls, level + 1, s1.procs, s1).0;
    var lex2 := LexDecls(d.block.decls, level + 1, s1.procs, 0, Deepen(scope1), s1.procs).0;
    InStepRefines(s2.table, level + 1, lex2.scope, used1 + DeclHashes(d.block.decls));
    InStepKept(s1.table, s2.table, level, scope1, used1, level + 1, lex2.scope, used1 + DeclHashes(d.block.decls));
  }

  lemma InStepRefines(t: Table, level: int, scope: Scoping, used: set<int>)
    requires InStep(t, level, scope, used)
    ensures Refines(FromTable(t, level), Lexical(scope))
  {
    TableRefines(t, level, scope);
  }

  /** A scope in step stays so while others are entered. */
  lemma InStepKept(t: Table, t': Table, level: int, scope: Scoping, used: set<int>,
                   level': int, scope': Scoping, used': set<int>)
    requires InStep(t, level, scope, used) && Kept(t, t', used) && InStep(t', level', scope', used') && used <= used'
    ensures InStep(t', level, scope, used')
  {
    hide TableHas;
    KeptStep(t, t', level, scope, used, used');
  }

  lemma SameConcat(p: Proc, q: Proc, a: seq<Proc>, a': seq<Proc>, b: seq<Proc>, b': seq<Proc>)
    requires p.level == q.level && p.parent == q.parent && p.vars == q.vars && p.body == q.body && Refines(p.env, q.env)
    requires SameProcs(a, a') && SameProcs(b, b')
    ensures SameProcs([p] + a + b, [q] + a' + b')
  {
    hide Refines;
  }

  /** Putting together the procedure, its inner ones and the ones behind it. */
  lemma ProcAgreed(d: Decls, level: int, id: nat, slot: nat, scope: Scoping, used: set<int>,
                   s: Counters, s1: Counters, s2: Counters)
    requires d.ProcDecl? && level >= 0
    requires s1 == Counters(PutSymbol(s.table, Symbol(d.name, PROC, 0, level, s.procs + 1)), s.offsets, s.procs + 1)
    requires Kept(s.table, s1.table, used)
    requires var scope1 := scope[d.name := Binding(PROC, 0, s.procs + 1, 0)];
             var used1 := used + {Hash(d.name)};
             && Agreed(d.block.decls, level + 1, s1.procs, 0, Deepen(scope1), used1, s1)
             && s2 == ElabDecls(d.block.decls, level + 1, s1.procs, s1).0
             && Refines(FromTable(s2.table, level + 1),
                        Lexical(LexDecls(d.block.decls, level + 1, s1.procs, 0, Deepen(scope1), s1.procs).0.scope))
             && Agreed(d.next, level, id, slot, scope1, used1 + DeclHashes(d.block.decls), s2)
    ensures Agreed(d, level, id, slot, scope, used, s)
  {
    hide Refines, InStep, PutSymbol, SameProcs, Hash;
    var used1 := used + {Hash(d.name)};
    var scope1 := scope[d.name := Binding(PROC, 0, s.procs + 1, 0)];
    var blk := d.block;
    var inner := LexDecls(blk.decls, level + 1, s1.procs, 0, Deepen(scope1), s1.procs);
    SameConcat(Proc(level + 1, id, VarCount(blk.decls), FromTable(s2.table, level + 1), blk.body),
               Proc(level + 1, id, VarCount(blk.decls), Lexical(inner.0.scope), blk.body),
               ElabDecls(blk.decls, level + 1, s1.procs, s1).1, inner.1,
               ElabDecls(d.next, level, id, s2).1, LexDecls(d.next, level, id, slot, scope1, inner.0.procs).1);
    assert used1 + DeclHashes(d.block.decls) + DeclHashes(d.next) == used + DeclHashes(d);
  }

  /** In a tree whose declarations are distinct, at fresh levels, every name in scope resolves. */
  lemma DistinctClear(b: Block)
    requires LevelsFit(b.decls, 0)
    requires Distinct(b.decls, {}) && FreshLevels(b.decls, 0, InitCounters())
    ensures ClearScopes(b)
  {
    hide ElabDecls, LexDecls, Refines, ClearScopes;
    ScopesAgree(b.decls, 0, 0, 0, map[], {}, InitCounters());
    TableRefines(ElabDecls(b.decls, 0, 0, InitCounters()).0.table, 0, LexDecls(b.decls, 0, 0, 0, map[], 0).0.scope);
    ScopesResolve(b);
  }
}
