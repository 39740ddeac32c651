/**
  From the tree of a whole program to its procedures, numbered in the order they are declared,
  and the code sets the parser leaves for them.
 */
module Programs {
  import opened Common
  import opened Machine
  import opened Syntax
  import opened Symbols
  import opened Compile
  import opened CodeSets
  import opened Semantics
  import opened Parsing
  import opened Emission

  /** What declarations change: the symbol table, the next address of each level, the procedure count. */
  datatype Counters = Counters(table: Table, offsets: seq<int>, procs: nat)

  function CountersOf(st: PState): Counters {
    Counters(st.table, st.offsets, st.procCount)
  }

  /** The procedures that `d`, in procedure `id` at `level`, declares, nested ones included. */
  function ElabDecls(d: Decls, level: int, id: nat, s: Counters): (Counters, seq<Proc>) {
    match d
    case NoDecls => (s, [])
    case ConstDecl(x, v, next) =>
      ElabDecls(next, level, id, s.(table := PutSymbol(s.table, Symbol(x, CONST, v, level, 0))))
    case VarDecl(x, next) =>
      if !(0 <= level < |s.offsets|) then (s, [])
      else
        var addr := s.offsets[level];
        var s1 := s.(table := PutSymbol(s.table, Symbol(x, VAR, 0, level, addr)),
                     offsets := s.offsets[level := addr + 1]);
        ElabDecls(next, level, id, s1)
    case ProcDecl(x, blk, next) =>
      var s1 := Counters(PutSymbol(s.table, Symbol(x, PROC, 0, level, s.procs + 1)), s.offsets, s.procs + 1);
      var (s2, inner) := ElabDecls(blk.decls, level + 1, s1.procs, s1);
      var (s3, others) := ElabDecls(next, level, id, s2);
      (s3, [Proc(level + 1, id, VarCount(blk.decls), FromTable(s2.table, level + 1), blk.body)] + inner + others)
  }

  function InitCounters(): Counters {
    Counters(map[], [4, 4, 4, 4, 4], 0)
  }

  /** The program a tree denotes when names mean what the compiler's table says. */
  function Elaborate(b: Block): Prog {
    var (s, procs) := ElabDecls(b.decls, 0, 0, InitCounters());
    [Proc(0, 0, VarCount(b.decls), FromTable(s.table, 0), b.body)] + procs
  }

  /** The finished code set of a procedure other than the program itself. */
  function ProcSet(p: Proc): seq<Instruction> {
    [Instruction(INC, 0, 0, p.vars + HEADER)] + CompileStmt(p.body, 0, 0, p.env, true)
  }

  /** The sets in use are those of the procedures so far, and no other has code. */
  ghost predicate Fresh(st: PState) {
    && |st.inUse| == MAX_CODE_SETS
    && st.procCount < MAX_CODE_SETS
    && (forall k :: 0 <= k < MAX_CODE_SETS ==> (st.inUse[k] <==> k <= st.procCount))
    && (forall k :: k > st.procCount ==> Get(st.code, k) == [])
  }

  /** `st'` is `st` with the sets of `procs` finished and every body accepted. */
  ghost predicate Finished(st: PState, st': PState, procs: seq<Proc>) {
    && Fresh(st')
    && st'.procCount == st.procCount + |procs|
    && (forall k :: st.procCount < k <= st'.procCount ==> Get(st'.code, k) == ProcSet(procs[k - st.procCount - 1]))
    && (forall k :: k <= st.procCount ==> Get(st'.code, k) == Get(st.code, k))
    && (forall i :: 0 <= i < |procs| ==> GoodStmt(procs[i].body, procs[i].env))
  }

  /** Register pointer and level are as they were; the declarations `d` have been entered. */
  ghost predicate Declared(st: PState, st': PState, id: nat, d: Decls) {
    var e := ElabDecls(d, st.level, id, CountersOf(st));
    && st'.level == st.level && st'.reg == st.reg
    && CountersOf(st') == e.0
    && st'.procCount == st.procCount + |e.1|
    && (Fresh(st) && st.reg == 0 && st'.procCount < MAX_CODE_SETS ==> Finished(st, st', e.1))
  }

  /** A block: its declarations entered, and its body compiled into the set that was current. */
  ghost predicate BlockDone(st: PState, st': PState, id: nat, b: Block) {
    var e := ElabDecls(b.decls, st.level, id, CountersOf(st));
    && st'.level == st.level && st'.reg == st.reg && st'.cur == st.cur
    && CountersOf(st') == e.0
    && st'.procCount == st.procCount + |e.1|
    && (Fresh(st) && st.reg == 0 && 0 <= st.cur <= st.procCount && Get(st.code, st.cur) == []
        && st'.procCount < MAX_CODE_SETS ==>
          && Finished(st.(code := AppendAll(st.code, st.cur, BodyCode(st, b, id))), st', e.1)
          && GoodStmt(b.body, FromTable(e.0.table, st.level)))
  }

  /** The code of the body of a block, by the names its declarations give. */
  function BodyCode(st: PState, b: Block, id: nat): seq<Instruction> {
    CompileStmt(b.body, 0, 0, FromTable(ElabDecls(b.decls, st.level, id, CountersOf(st)).0.table, st.level), st.cur > 0)
  }

  // ---------- composition ----------

  lemma {:induction false} ElabAppend(a: Decls, b: Decls, level: int, id: nat, s: Counters)
    requires GoodLevel(a, level, s)
    ensures var e := ElabDecls(a, level, id, s);
            ElabDecls(AppendDecls(a, b), level, id, s)
            == (ElabDecls(b, level, id, e.0).0, e.1 + ElabDecls(b, level, id, e.0).1)
    decreases a
  {
    hide PutSymbol;
    match a
    case NoDecls =>
      assert [] + ElabDecls(b, level, id, s).1 == ElabDecls(b, level, id, s).1;
    case ConstDecl(x, v, next) =>
      ElabAppend(next, b, level, id, s.(table := PutSymbol(s.table, Symbol(x, CONST, v, level, 0))));
    case VarDecl(x, next) =>
      var addr := s.offsets[level];
      ElabAppend(next, b, level, id,
        s.(table := PutSymbol(s.table, Symbol(x, VAR, 0, level, addr)), offsets := s.offsets[level := addr + 1]));
    case ProcDecl(x, blk, next) =>
      var s1 := Counters(PutSymbol(s.table, Symbol(x, PROC, 0, level, s.procs + 1)), s.offsets, s.procs + 1);
      var (s2, inner) := ElabDecls(blk.decls, level + 1, s1.procs, s1);
      OffsetsKept(blk.decls, level + 1, s1.procs, s1);
      ElabAppend(next, b, level, id, s2);
      var (s3, others) := ElabDecls(next, level, id, s2);
      var p := [Proc(level + 1, id, VarCount(blk.decls), FromTable(s2.table, level + 1), blk.body)];
      var more := ElabDecls(b, level, id, s3).1;
      assert p + inner + others + more == p + inner + (others + more);
  }

  predicate HasVars(d: Decls) {
    VarCount(d) > 0
  }

  /** Where a block has variables its level is one the offsets cover. */
  predicate GoodLevel(d: Decls, level: int, s: Counters) {
    HasVars(d) ==> 0 <= level < |s.offsets|
  }

  lemma {:induction false} OffsetsKept(d: Decls, level: int, id: nat, s: Counters)
    ensures |ElabDecls(d, level, id, s).0.offsets| == |s.offsets|
    decreases d
  {
    hide PutSymbol;
    match d
    case NoDecls =>
    case ConstDecl(x, v, next) =>
      OffsetsKept(next, level, id, s.(table := PutSymbol(s.table, Symbol(x, CONST, v, level, 0))));
    case VarDecl(x, next) =>
      if 0 <= level < |s.offsets| {
        var addr := s.offsets[level];
        OffsetsKept(next, level, id,
          s.(table := PutSymbol(s.table, Symbol(x, VAR, 0, level, addr)), offsets := s.offsets[level := addr + 1]));
      }
    case ProcDecl(x, blk, next) =>
      var s1 := Counters(PutSymbol(s.table, Symbol(x, PROC, 0, level, s.procs + 1)), s.offsets, s.procs + 1);
      OffsetsKept(blk.decls, level + 1, s1.procs, s1);
      OffsetsKept(next, level, id, ElabDecls(blk.decls, level + 1, s1.procs, s1).0);
  }

  lemma FinishedTwice(st: PState, st1: PState, st2: PState, a: seq<Proc>, b: seq<Proc>)
    requires Finished(st, st1, a) && Finished(st1, st2, b)
    ensures Finished(st, st2, a + b)
  {
  }

  lemma DeclaredTwice(st: PState, st1: PState, st2: PState, id: nat, d1: Decls, d2: Decls)
    requires Declared(st, st1, id, d1) && Declared(st1, st2, id, d2)
    requires GoodLevel(d1, st.level, CountersOf(st))
    ensures Declared(st, st2, id, AppendDecls(d1, d2))
  {
    ElabAppend(d1, d2, st.level, id, CountersOf(st));
    if Fresh(st) && st.reg == 0 && st2.procCount < MAX_CODE_SETS {
      FinishedTwice(st, st1, st2, ElabDecls(d1, st.level, id, CountersOf(st)).1,
                    ElabDecls(d2, st1.level, id, CountersOf(st1)).1);
    }
  }

  lemma {:induction false} AppendVars(a: Decls, b: Decls)
    ensures VarCount(AppendDecls(a, b)) == VarCount(a) + VarCount(b)
    decreases a
  {
    match a
    case NoDecls =>
    case ConstDecl(_, _, next) => AppendVars(next, b);
    case VarDecl(_, next) => AppendVars(next, b);
    case ProcDecl(_, _, next) => AppendVars(next, b);
  }

  lemma {:induction false} FirstFree(inUse: seq<bool>, n: nat, i: nat)
    requires i <= n + 1 <= |inUse|
    requires forall k :: 0 <= k < |inUse| ==> (inUse[k] <==> k <= n)
    ensures FreeSet(inUse, i) == if n + 1 < |inUse| then n + 1 else -1
    decreases n + 1 - i
  {
    if i <= n {
      FirstFree(inUse, n, i + 1);
    } else {
      assert i == n + 1;
      if i == |inUse| {
      } else {
        assert !inUse[i];
      }
    }
  }

  // ---------- declarations ----------

  lemma ConstDeclared(st: PState, st': PState, id: nat, x: string, v: int)
    requires st' == MakeConst(st, x, v).(rest := st'.rest)
    ensures Declared(st, st', id, ConstDecl(x, v, NoDecls))
  {
    assert ElabDecls(ConstDecl(x, v, NoDecls), st.level, id, CountersOf(st)) == (CountersOf(st'), []);
  }

  lemma VarDeclared(st: PState, st': PState, id: nat, x: string)
    requires 0 <= st.level < |st.offsets|
    requires st' == MakeVar(st, x).(rest := st'.rest)
    ensures Declared(st, st', id, VarDecl(x, NoDecls))
  {
    assert ElabDecls(VarDecl(x, NoDecls), st.level, id, CountersOf(st)) == (CountersOf(st'), []);
  }

  lemma {:induction false} ConstsDeclare(st: PState, id: nat)
    requires st.rest != []
    ensures var r := ParseConsts(st);
            r.Ok? ==> && Declared(st, r.st, id, r.value) && r.st.cur == st.cur && VarCount(r.value) == 0
    decreases |st.rest|
  {
    hide Declared, PutSymbol, NextToken;
    var r := ParseConsts(st);
    if r.Ok? {
      var x, v := st.Next().Name(), st.Next().Next().Next().Value();
      var st4 := MakeConst(st.Next().Next().Next(), x, v).Next();
      ConstDeclared(st, st4, id, x, v);
      if st4.Kind() == commasym {
        ConstsDeclare(st4, id);
        DeclaredTwice(st, st4, r.st, id, ConstDecl(x, v, NoDecls), r.value.next);
        assert AppendDecls(ConstDecl(x, v, NoDecls), r.value.next) == r.value;
      } else {
        ConstDeclared(st, r.st, id, x, v);
      }
    }
  }

  lemma {:induction false} VarsDeclare(st: PState, id: nat)
    requires st.rest != []
    ensures var r := ParseVars(st);
            r.Ok? ==> && Declared(st, r.st, id, r.value) && r.st.cur == st.cur && 0 <= st.level < |st.offsets|
    decreases |st.rest|
  {
    hide Declared, PutSymbol, NextToken;
    var r := ParseVars(st);
    if r.Ok? {
      var x := st.Next().Name();
      var st2 := MakeVar(st.Next(), x).Next();
      VarDeclared(st, st2, id, x);
      if st2.Kind() == commasym {
        VarsDeclare(st2, id);
        DeclaredTwice(st, st2, r.st, id, VarDecl(x, NoDecls), r.value.next);
        assert AppendDecls(VarDecl(x, NoDecls), r.value.next) == r.value;
      } else {
        VarDeclared(st, r.st, id, x);
      }
    }
  }

  /** What the parser does between `procedure` and the semicolon that ends the definition. */
  lemma ProcDeclared(st: PState, st1: PState, st2: PState, st': PState, id: nat, x: string, b: Block)
    requires st1 == MakeProc(st, x).(rest := st1.rest, level := st.level + 1)
    requires BlockDone(st1, st2, st1.procCount, b)
    requires st' == st2.(rest := st'.rest, level := st.level,
                         code := Prepend(st2.code, st2.cur, Instruction(INC, 0, 0, VarCount(b.decls) + 4)))
    ensures Declared(st, st', id, ProcDecl(x, b, NoDecls))
  {
    hide GoodStmt, CompileStmt;
    var s1 := CountersOf(st1);
    var (s2, inner) := ElabDecls(b.decls, st.level + 1, s1.procs, s1);
    var p := Proc(st.level + 1, id, VarCount(b.decls), FromTable(s2.table, st.level + 1), b.body);
    assert ElabDecls(NoDecls, st.level, id, s2) == (s2, []);
    assert [p] + inner + [] == [p] + inner;
    assert ElabDecls(ProcDecl(x, b, NoDecls), st.level, id, CountersOf(st)) == (s2, [p] + inner);
    if Fresh(st) && st.reg == 0 && st'.procCount < MAX_CODE_SETS {
      TakenSet(st, st1, x);
      ProcFinished(st, st1, st2, st', p, inner);
    }
  }

  lemma TakenSet(st: PState, st1: PState, x: string)
    requires Fresh(st) && st.procCount + 1 < MAX_CODE_SETS
    requires st1 == MakeProc(st, x).(rest := st1.rest, level := st.level + 1)
    ensures st1.cur == st1.procCount == st.procCount + 1
    ensures Fresh(st1) && Get(st1.code, st1.cur) == []
  {
    FirstFree(st.inUse, st.procCount, 0);
  }

  lemma ProcFinished(st: PState, st1: PState, st2: PState, st': PState, p: Proc, inner: seq<Proc>)
    requires Fresh(st) && st.code == st1.code && st1.cur == st1.procCount == st.procCount + 1
    requires Get(st1.code, st1.cur) == []
    requires var body := CompileStmt(p.body, 0, 0, p.env, true);
             Finished(st1.(code := AppendAll(st1.code, st1.cur, body)), st2, inner)
    requires st2.cur == st1.cur && GoodStmt(p.body, p.env)
    requires st' == st2.(rest := st'.rest, level := st.level,
                         code := Prepend(st2.code, st2.cur, Instruction(INC, 0, 0, p.vars + HEADER)))
    ensures Finished(st, st', [p] + inner)
  {
    var body := CompileStmt(p.body, 0, 0, p.env, true);
    var stb := st1.(code := AppendAll(st1.code, st1.cur, body));
    AppendGet(st1.code, st1.cur, body);
    var procs := [p] + inner;
    forall k | st.procCount < k <= st'.procCount
      ensures Get(st'.code, k) == ProcSet(procs[k - st.procCount - 1])
    {
      if k == st1.cur {
        assert Get(st2.code, k) == Get(stb.code, k) == [] + body == body;
      } else {
        var j := k - st1.procCount - 1;
        assert procs[k - st.procCount - 1] == inner[j];
        assert Get(st2.code, k) == ProcSet(inner[k - stb.procCount - 1]);
      }
    }
    forall k | k <= st.procCount
      ensures Get(st'.code, k) == Get(st.code, k)
    {
      assert Get(st2.code, k) == Get(stb.code, k);
    }
    forall k | k > st'.procCount
      ensures Get(st'.code, k) == []
    {
      assert Get(st2.code, k) == [];
    }
    assert st'.procCount == st.procCount + |procs|;
    assert Fresh(st');
  }

  lemma {:induction false} ProcDeclares(st: PState, fsys: set<Kind>, id: nat)
    requires st.Kind() == procsym
    ensures var r := ParseProc(st, fsys);
            r.Ok? ==> Declared(st, r.st, id, ProcDecl(r.value.0, r.value.1, NoDecls))
    decreases |st.rest|, 7
  {
    hide Declared, BlockDone, ParseBlock, PutSymbol, FreeSet, NextToken, Prepend;
    var r := ParseProc(st, fsys);
    if r.Ok? {
      var x := st.Next().Name();
      var st2 := MakeProc(st.Next(), x).Next();
      var st1 := st2.Next().(level := st2.level + 1);
      BlockDeclares(st1, {semicolonsym} + fsys, st1.procCount);
      var (b, st3) := ParseBlock(st1, {semicolonsym} + fsys).Extract();
      BlockKeeps(st1, st3, st1.procCount, b);
      ProcDeclared(st, st1, st3, r.st, id, x, b);
    }
  }

  lemma {:induction false} ProcsDeclare(st: PState, fsys: set<Kind>, id: nat)
    ensures var r := ParseProcs(st, fsys);
            r.Ok? ==> Declared(st, r.st, id, r.value) && VarCount(r.value) == 0
    decreases |st.rest|, 8
  {
    hide Declared, ParseProc;
    var r := ParseProcs(st, fsys);
    if st.Kind() != procsym {
      NothingDeclared(st, st, id);
    } else if r.Ok? {
      ProcDeclares(st, fsys, id);
      var (p, st1) := ParseProc(st, fsys).Extract();
      ProcsDeclare(st1, fsys, id);
      assert VarCount(ProcDecl(p.0, p.1, NoDecls)) == VarCount(NoDecls) == 0;
      DeclaredTwice(st, st1, r.st, id, ProcDecl(p.0, p.1, NoDecls), r.value.next);
      assert AppendDecls(ProcDecl(p.0, p.1, NoDecls), r.value.next) == r.value;
    }
  }

  lemma NothingDeclared(st: PState, st': PState, id: nat)
    requires st' == st.(rest := st'.rest, cur := st'.cur)
    ensures Declared(st, st', id, NoDecls)
  {
  }

  lemma BlockKeeps(st: PState, st': PState, id: nat, b: Block)
    requires BlockDone(st, st', id, b)
    ensures st'.level == st.level && st'.cur == st.cur
  {
  }

  /** Whichever set is current afterwards, the declarations are the same. */
  lemma DeclaredCur(st: PState, st': PState, id: nat, d: Decls, rest: seq<Token>, cur: int)
    requires Declared(st, st', id, d)
    ensures Declared(st, st'.(rest := rest, cur := cur), id, d)
    ensures Declared(st.(rest := rest, cur := cur), st', id, d)
  {
    hide ElabDecls, ProcSet, GoodStmt;
  }

  lemma {:induction false} SectionsDeclare(st: PState, fsys: set<Kind>, had: Sections, id: nat)
    ensures var r := ParseSections(st, fsys, had);
            r.Ok? ==> Declared(st, r.st, id, r.value.0) && GoodLevel(r.value.0, st.level, CountersOf(st))
    decreases |st.rest|, 9
  {
    hide Declared, ParseProcs, ParseConsts, ParseVars;
    var r := ParseSections(st, fsys, had);
    if r.Ok? {
      var (d1, st1) := ConstSection(st, had.consts).Extract();
      var (d2, st2) := VarSection(st1, had.vars).Extract();
      var (d3, st3) := ParseProcs(st2, fsys).Extract();
      if st.Kind() == constsym { ConstsDeclare(st, id); } else { NothingDeclared(st, st1, id); }
      if st1.Kind() == varsym { VarsDeclare(st1, id); } else { NothingDeclared(st1, st2, id); }
      ProcsDeclare(st2, fsys, id);
      SectionLevels(st, st1, st2, id, d1, d2);
      DeclaredTwice(st1, st2, st3, id, d2, d3);
      DeclaredTwice(st, st1, st3, id, d1, AppendDecls(d2, d3));
      AppendVars(d1, AppendDecls(d2, d3));
      AppendVars(d2, d3);
    }
  }

  lemma SectionLevels(st: PState, st1: PState, st2: PState, id: nat, d1: Decls, d2: Decls)
    requires Declared(st, st1, id, d1) && VarCount(d1) == 0
    requires HasVars(d2) ==> 0 <= st1.level < |st1.offsets|
    ensures st1.level == st.level && |st1.offsets| == |st.offsets|
    ensures GoodLevel(d1, st.level, CountersOf(st)) && GoodLevel(d2, st1.level, CountersOf(st1))
  {
    OffsetsKept(d1, st.level, id, CountersOf(st));
  }

  lemma {:induction false} DeclsDeclare(st: PState, fsys: set<Kind>, had: Sections, id: nat)
    ensures var r := ParseDecls(st, fsys, had);
            r.Ok? ==> && Declared(st, r.st, id, r.value) && r.st.cur == st.cur
                      && GoodLevel(r.value, st.level, CountersOf(st))
    decreases |st.rest|, 10
  {
    hide Declared, ParseSections;
    var r := ParseDecls(st, fsys, had);
    if r.Ok? {
      SectionsDeclare(st, fsys, had, id);
      var (d, st1) := ParseSections(st, fsys, had).Extract();
      var st2 := Test(st1.(cur := st.cur), STATBEGSYS + {identsym}, DECLBEGSYS);
      DeclaredCur(st, st1, id, d.0, st2.rest, st2.cur);
      if st2.Kind() in DECLBEGSYS {
        DeclsDeclare(st2, fsys, d.1, id);
        var (ds, st3) := ParseDecls(st2, fsys, d.1).Extract();
        DeclaredTwice(st, st2, st3, id, d.0, ds);
        AppendVars(d.0, ds);
        DeclaredLevel(st, st2, id, d.0);
      }
    }
  }

  lemma DeclaredLevel(st: PState, st': PState, id: nat, d: Decls)
    requires Declared(st, st', id, d)
    ensures st'.level == st.level && |st'.offsets| == |st.offsets|
  {
    OffsetsKept(d, st.level, id, CountersOf(st));
  }

  lemma {:induction false} BlockDeclares(st: PState, fsys: set<Kind>, id: nat)
    ensures var r := ParseBlock(st, fsys);
            r.Ok? ==> BlockDone(st, r.st, id, r.value)
    decreases |st.rest|, 11
  {
    hide ParseDecls, ParseStmt;
    var r := ParseBlock(st, fsys);
    if r.Ok? {
      var had := Sections(false, false, false);
      DeclsDeclare(st, fsys, had, id);
      var (d, st1) := ParseDecls(st, fsys, had).Extract();
      StmtEmits(st1, {semicolonsym, endsym} + fsys);
      var (s, st2) := ParseStmt(st1, {semicolonsym, endsym} + fsys).Extract();
      BodyDone(st, st1, st2, r.st, id, Block(d, s));
    }
  }

  lemma BodyDone(st: PState, st1: PState, st2: PState, st': PState, id: nat, b: Block)
    requires Declared(st, st1, id, b.decls) && st1.cur == st.cur
    requires Emitted(st1, st2, CompileStmt(b.body, st1.Length(), st1.reg, st1.Env(), st1.cur > 0), 0)
    requires GoodStmt(b.body, st1.Env())
    requires st' == st2.(rest := st'.rest)
    ensures BlockDone(st, st', id, b)
  {
    hide GoodStmt, CompileStmt, ElabDecls, ProcSet;
    var procs := ElabDecls(b.decls, st.level, id, CountersOf(st)).1;
    if Fresh(st) && st.reg == 0 && 0 <= st.cur <= st.procCount && Get(st.code, st.cur) == []
      && st'.procCount < MAX_CODE_SETS
    {
      assert Get(st1.code, st.cur) == [];
      var code := BodyCode(st, b, id);
      AppendGet(st1.code, st.cur, code);
      AppendGet(st.code, st.cur, code);
      assert Finished(st.(code := AppendAll(st.code, st.cur, code)), st', procs);
    }
  }

  // ---------- the whole program ----------

  lemma InitFresh(toks: seq<Token>)
    ensures var st := InitParse(toks);
            Fresh(st) && st.cur == 0 && st.reg == 0 && st.procCount == 0 && st.level == 0
            && CountersOf(st) == InitCounters() && st.code == map[]
  {
    var none := seq(MAX_CODE_SETS, _ => false);
    assert FreeSet(none) == 0 by {
      assert !none[0];
    }
  }

  /**
    A successful parse leaves, in set i, the finished code of procedure i of the program its
    tree denotes, for every i, and no other code; every body is one the parser accepts.
   */
  lemma ProgramEmits(toks: seq<Token>)
    requires ParseProgram(toks).Ok? && ParseProgram(toks).st.procCount < MAX_CODE_SETS
    ensures var r := ParseProgram(toks);
            var prog := Elaborate(r.value);
            && |prog| == r.st.procCount + 1
            && (forall i :: 0 < i < |prog| ==> Get(r.st.code, i) == ProcSet(prog[i]))
            && Get(r.st.code, 0) ==
                 [Instruction(INC, 0, 0, prog[0].vars + HEADER)]
                 + CompileStmt(prog[0].body, 0, 0, prog[0].env, false) + [Instruction(SIO, 0, 0, 3)]
            && (forall k :: k >= |prog| ==> Get(r.st.code, k) == []) && Get(r.st.code, FINAL_CODE) == []
            && forall i :: 0 <= i < |prog| ==> GoodStmt(prog[i].body, prog[i].env)
  {
    hide ParseBlock, GoodStmt, CompileStmt, InitParse, ProcSet, ElabDecls;
    var st := InitParse(toks);
    InitFresh(toks);
    BlockDeclares(st, PROGSYS, 0);
    var (b, st1) := ParseBlock(st, PROGSYS).Extract();
    var (s, procs) := ElabDecls(b.decls, 0, 0, InitCounters());
    var body := CompileStmt(b.body, 0, 0, FromTable(s.table, 0), false);
    MainFinished(st, st1, ParseProgram(toks).st, body, procs, VarCount(b.decls));
    var prog := Elaborate(b);
    assert forall i :: 0 < i < |prog| ==> prog[i] == procs[i - 1];
  }

  /** The procedures of the tree are those the parser has counted. */
  lemma CountOfProcs(toks: seq<Token>)
    requires ParseProgram(toks).Ok?
    ensures |Elaborate(ParseProgram(toks).value)| == ParseProgram(toks).st.procCount + 1
  {
    hide ParseBlock, InitParse;
    InitFresh(toks);
    BlockDeclares(InitParse(toks), PROGSYS, 0);
  }

  lemma MainFinished(st: PState, st1: PState, st': PState, body: seq<Instruction>, procs: seq<Proc>, vars: nat)
    requires st.code == map[] && st.procCount == 0 && st1.cur == 0
    requires Finished(st.(code := AppendAll(st.code, 0, body)), st1, procs)
    requires st' == st1.(code := Prepend(st1.code, 0, Instruction(INC, 0, 0, vars + HEADER))).Emit(SIO, 0, 0, 3)
    ensures st'.procCount == |procs|
    ensures forall i :: 0 < i <= |procs| ==> Get(st'.code, i) == ProcSet(procs[i - 1])
    ensures Get(st'.code, 0) == [Instruction(INC, 0, 0, vars + HEADER)] + body + [Instruction(SIO, 0, 0, 3)]
    ensures forall k :: k > |procs| ==> Get(st'.code, k) == []
    ensures Get(st'.code, FINAL_CODE) == []
  {
    hide GoodStmt, ProcSet;
    var sta := st.(code := AppendAll(st.code, 0, body));
    var inc := Instruction(INC, 0, 0, vars + HEADER);
    AppendGet(st.code, 0, body);
    AppendGet(Prepend(st1.code, 0, inc), 0, [Instruction(SIO, 0, 0, 3)]);
    assert Get(st1.code, 0) == Get(sta.code, 0) == [] + body == body;
    assert Get(sta.code, FINAL_CODE) == Get(st.code, FINAL_CODE) == [];
    assert Get(st1.code, FINAL_CODE) == Get(sta.code, FINAL_CODE);
    forall k | k > |procs|
      ensures Get(st'.code, k) == []
    {
      assert Get(st1.code, k) == [];
    }
    forall i | 0 < i <= |procs|
      ensures Get(st'.code, i) == ProcSet(procs[i - 1])
    {
      assert Get(st1.code, i) == ProcSet(procs[i - sta.procCount - 1]);
    }
  }
}
