/** Parsing the concrete syntax of a whole program gives its tree back. */
module RoundTripProgram {
  import opened Common
  import opened Machine
  import opened Syntax
  import opened Symbols
  import opened CodeSets
  import opened Semantics
  import opened Parsing
  import opened Emission
  import opened Programs
  import opened RoundTrip

  /** Constants before variables before procedures, as the grammar has them. */
  predicate Ordered(d: Decls, phase: nat) {
    match d
    case NoDecls => true
    case ConstDecl(_, _, next) => phase == 0 && Ordered(next, 0)
    case VarDecl(_, next) => phase <= 1 && Ordered(next, 1)
    case ProcDecl(_, _, next) => Ordered(next, 2)
  }

  function TakeConsts(d: Decls): Decls {
    match d
    case ConstDecl(x, v, next) => ConstDecl(x, v, TakeConsts(next))
    case _ => NoDecls
  }

  function SkipConsts(d: Decls): (r: Decls)
    ensures r == d || r < d
  {
    match d
    case ConstDecl(_, _, next) => SkipConsts(next)
    case _ => d
  }

  function TakeVars(d: Decls): Decls {
    match d
    case VarDecl(x, next) => VarDecl(x, TakeVars(next))
    case _ => NoDecls
  }

  function SkipVars(d: Decls): (r: Decls)
    ensures r == d || r < d
  {
    match d
    case VarDecl(_, next) => SkipVars(next)
    case _ => d
  }

  /** What the parser accepts: small constants, levels it has room for, and good bodies. */
  predicate GoodDecls(d: Decls, level: int, id: nat, s: Counters) {
    match d
    case NoDecls => true
    case ConstDecl(x, v, next) =>
      && v <= MAX_NUMBER && 0 <= level < |s.offsets|
      && GoodDecls(next, level, id, s.(table := PutSymbol(s.table, Symbol(x, CONST, v, level, 0))))
    case VarDecl(x, next) =>
      && 0 <= level < |s.offsets|
      && GoodDecls(next, level, id,
           s.(table := PutSymbol(s.table, Symbol(x, VAR, 0, level, s.offsets[level])),
              offsets := s.offsets[level := s.offsets[level] + 1]))
    case ProcDecl(x, blk, next) =>
      var s1 := Counters(PutSymbol(s.table, Symbol(x, PROC, 0, level, s.procs + 1)), s.offsets, s.procs + 1);
      && GoodBlock(blk, level + 1, s1.procs, s1)
      && GoodDecls(next, level, id, ElabDecls(blk.decls, level + 1, s1.procs, s1).0)
  }

  /** A block the grammar can write, with names declared and numbers small. */
  predicate GoodBlock(b: Block, level: int, id: nat, s: Counters) {
    && Ordered(b.decls, 0)
    && GoodDecls(b.decls, level, id, s)
    && GoodStmt(b.body, FromTable(ElabDecls(b.decls, level, id, s).0.table, level))
  }

  /**
    Every body, that of the block and those of the procedures in it, can be written down for the
    parser to find it: nothing open in front of an `else`, and no procedure's body empty.
   */
  predicate BodiesWritable(b: Block) {
    Writable(b.body) && ProcsWritable(b.decls)
  }

  predicate ProcsWritable(d: Decls) {
    match d
    case NoDecls => true
    case ConstDecl(_, _, next) => ProcsWritable(next)
    case VarDecl(_, next) => ProcsWritable(next)
    case ProcDecl(_, blk, next) => blk.body != Empty && BodiesWritable(blk) && ProcsWritable(next)
  }

  lemma {:induction false} WritableSkip(d: Decls)
    requires ProcsWritable(d)
    ensures ProcsWritable(SkipConsts(d)) && ProcsWritable(SkipVars(d))
    decreases d
  {
    match d
    case ConstDecl(_, _, next) => WritableSkip(next);
    case VarDecl(_, next) => WritableSkip(next);
    case _ =>
  }

  /** What may follow declarations: a statement, or the end of a program without one. */
  const BODYSYS: set<Kind> := STATBEGSYS + {periodsym}

  predicate StartsBody(rest: seq<Token>, fsys: set<Kind>) {
    KindOf(rest) in BODYSYS && (KindOf(rest) == periodsym ==> periodsym in fsys)
  }

  // ---------- order ----------

  lemma {:induction false} SplitDecls(d: Decls)
    ensures AppendDecls(TakeConsts(d), SkipConsts(d)) == d
    ensures AppendDecls(TakeVars(d), SkipVars(d)) == d
    decreases d
  {
    match d
    case ConstDecl(_, _, next) => SplitDecls(next);
    case VarDecl(_, next) => SplitDecls(next);
    case _ =>
  }

  lemma {:induction false} OrderedSkip(d: Decls)
    ensures Ordered(d, 0) ==> Ordered(SkipConsts(d), 1)
    ensures Ordered(d, 1) ==> Ordered(SkipVars(d), 2)
    decreases d
  {
    match d
    case ConstDecl(_, _, next) => OrderedSkip(next);
    case VarDecl(_, next) => OrderedSkip(next);
    case _ =>
  }

  lemma {:induction false} NoMore(d: Decls, first: bool)
    ensures Ordered(d, 1) ==> RenderConsts(d, first) == if first then [] else [Sym(semicolonsym)]
    ensures Ordered(d, 2) ==> RenderVars(d, first) == if first then [] else [Sym(semicolonsym)]
    ensures Ordered(d, 2) ==> Ordered(d, 1)
    decreases d
  {
    match d
    case NoDecls =>
    case ConstDecl(_, _, next) =>
    case VarDecl(_, next) => NoMore(next, first);
    case ProcDecl(_, _, next) => NoMore(next, first);
  }

  /** Variables and procedures are written the same without the constants in front. */
  lemma {:induction false} RenderSkip(d: Decls, first: bool)
    ensures RenderVars(SkipConsts(d), first) == RenderVars(d, first)
    ensures RenderProcs(SkipConsts(d)) == RenderProcs(d)
    ensures RenderProcs(SkipVars(d)) == RenderProcs(d)
    decreases d
  {
    match d
    case ConstDecl(_, _, next) => RenderSkip(next, first);
    case VarDecl(_, next) => RenderSkip(next, first);
    case _ =>
  }

  lemma {:induction false} GoodSkip(d: Decls, level: int, id: nat, s: Counters)
    requires GoodDecls(d, level, id, s)
    ensures GoodDecls(SkipConsts(d), level, id, ElabDecls(TakeConsts(d), level, id, s).0)
    ensures GoodDecls(SkipVars(d), level, id, ElabDecls(TakeVars(d), level, id, s).0)
    decreases d
  {
    match d
    case ConstDecl(x, v, next) => GoodSkip(next, level, id,
                                           s.(table := PutSymbol(s.table, Symbol(x, CONST, v, level, 0))));
    case VarDecl(x, next) =>
      GoodSkip(next, level, id,
        s.(table := PutSymbol(s.table, Symbol(x, VAR, 0, level, s.offsets[level])),
           offsets := s.offsets[level := s.offsets[level] + 1]));
    case _ =>
  }

  // ---------- sections ----------

  lemma ConstUnfold(st: PState, x: string, v: int)
    requires st.rest != []
    requires var st3 := st.Next().Next().Next();
             && st.Next().Kind() == identsym && st.Next().Name() == x && st.Next().Next().Kind() == eqlsym
             && st3.Kind() == numbersym && st3.Value() == v <= MAX_NUMBER && 0 <= st.level < |st.offsets|
    ensures ParseConst(st) == Ok((x, v), MakeConst(st.Next().Next().Next(), x, v).Next())
  {
    hide NextToken, PutSymbol;
  }

  /** One constant parsed; what is left of the section comes behind it. */
  lemma ConstsUnfold(st: PState, c: (string, int), st1: PState)
    requires st.rest != [] && ParseConst(st) == Ok(c, st1)
    ensures st1.Kind() == commasym ==>
      st1.rest != [] && var d := ParseConsts(st1); d.Ok? ==> ParseConsts(st) == Ok(ConstDecl(c.0, c.1, d.value), d.st)
    ensures st1.Kind() == semicolonsym ==> ParseConsts(st) == Ok(ConstDecl(c.0, c.1, NoDecls), st1.Next())
  {
    hide NextToken, ParseConst;
  }

  /** One variable parsed; what is left of the section comes behind it. */
  lemma VarsUnfold(st: PState, x: string)
    requires st.rest != [] && st.Next().Kind() == identsym && st.Next().Name() == x && 0 <= st.level < |st.offsets|
    ensures var st2 := MakeVar(st.Next(), x).Next();
            && (st2.Kind() == commasym ==>
                  st2.rest != [] && var d := ParseVars(st2); d.Ok? ==> ParseVars(st) == Ok(VarDecl(x, d.value), d.st))
            && (st2.Kind() == semicolonsym ==> ParseVars(st) == Ok(VarDecl(x, NoDecls), st2.Next()))
  {
    hide NextToken, PutSymbol;
  }

  lemma {:induction false} ConstsRound(d: Decls, st: PState, first: bool, rest: seq<Token>, id: nat)
    requires d.ConstDecl? && Ordered(d, 0) && GoodDecls(d, st.level, id, CountersOf(st))
    requires st.rest == RenderConsts(d, first) + rest && Clean(rest)
    ensures Gives(ParseConsts(st), TakeConsts(d), rest)
    decreases d
  {
    hide NextToken, PutSymbol, ParseConsts, KindOf, Clean;
    var tail := RenderConsts(d.next, false) + rest;
    var st3 := ItemRound(st, first, d.name, d.value, tail, d.next, rest);
    var st4 := MakeConst(st3, d.name, d.value).Next();
    ConstUnfold(st, d.name, d.value);
    ConstsUnfold(st, (d.name, d.value), st4);
    KindThere(st4);
    if d.next.ConstDecl? {
      ConstsRound(d.next, st4, false, rest, id);
    } else {
      assert Ordered(d.next, 1);
      NoMore(d.next, false);
      NextOf(st4, Sym(semicolonsym), rest);
    }
  }

  lemma IdClean(x: string, rest: seq<Token>)
    ensures Clean([Id(x)] + rest)
  {
  }

  lemma KindThere(st: PState)
    ensures st.Kind() == KindOf(st.rest)
  {
  }

  /** The tokens of one constant, up to the comma or semicolon behind it. */
  lemma ItemRound(st: PState, first: bool, x: string, v: int, tail: seq<Token>, next: Decls, rest: seq<Token>)
    returns (st3: PState)
    requires tail == RenderConsts(next, false) + rest && Ordered(next, 0)
    requires st.rest == [Sym(if first then constsym else commasym), Id(x), Sym(eqlsym), Num(v)] +
             RenderConsts(next, false) + rest
    ensures st3 == st.Next().Next().Next()
    ensures st.Next().Kind() == identsym && st.Next().Name() == x
    ensures st.Next().Next().Kind() == eqlsym
    ensures st3.Kind() == numbersym && st3.Value() == v
    ensures st3.Next().rest == tail
    ensures KindOf(tail) == if next.ConstDecl? then commasym else semicolonsym
  {
    if !next.ConstDecl? {
      assert Ordered(next, 1);
      NoMore(next, false);
    }
    var t3 := [Num(v)] + tail;
    var t2 := [Sym(eqlsym)] + t3;
    var t1 := [Id(x)] + t2;
    assert st.rest == [Sym(if first then constsym else commasym)] + t1;
    NextOf(st, Sym(if first then constsym else commasym), t1);
    NextOf(st.Next(), Id(x), t2);
    NextOf(st.Next().Next(), Sym(eqlsym), t3);
    st3 := st.Next().Next().Next();
    NextOf(st3, Num(v), tail);
  }

  /** Behind a variable comes a comma with the next one, or the semicolon. */
  lemma VarsTail(d: Decls, rest: seq<Token>)
    requires Ordered(d, 1)
    ensures var tail := RenderVars(d, false) + rest;
            KindOf(tail) == (if d.VarDecl? then commasym else semicolonsym) && Clean(tail)
  {
    if !d.VarDecl? {
      assert Ordered(d, 2);
      NoMore(d, false);
    }
  }

  lemma {:induction false} VarsRound(d: Decls, st: PState, first: bool, rest: seq<Token>, id: nat)
    requires d.VarDecl? && Ordered(d, 1) && GoodDecls(d, st.level, id, CountersOf(st))
    requires st.rest == RenderVars(d, first) + rest && Clean(rest)
    ensures Gives(ParseVars(st), TakeVars(d), rest)
    decreases d
  {
    hide PutSymbol, NextToken, ParseVars, KindOf, Clean;
    var tail := RenderVars(d.next, false) + rest;
    var k := Sym(if first then varsym else commasym);
    assert st.rest == [k] + ([Id(d.name)] + tail);
    VarsTail(d.next, rest);
    IdClean(d.name, tail);
    NextOf(st, k, [Id(d.name)] + tail);
    NextOf(st.Next(), Id(d.name), tail);
    var st2 := MakeVar(st.Next(), d.name).Next();
    VarsUnfold(st, d.name);
    KindThere(st2);
    if d.next.VarDecl? {
      VarsRound(d.next, st2, false, rest, id);
    } else {
      assert Ordered(d.next, 2);
      NoMore(d.next, false);
      NextOf(st2, Sym(semicolonsym), rest);
    }
  }

  /** What may follow the constants, and the variables, of a block. */
  lemma {:induction false} ProcsStart(d: Decls, rest: seq<Token>)
    requires KindOf(rest) in BODYSYS
    ensures KindOf(RenderProcs(d) + rest) in BODYSYS + {procsym}
    ensures d == NoDecls ==> RenderProcs(d) + rest == rest
    ensures d.ProcDecl? ==> KindOf(RenderProcs(d) + rest) == procsym
    decreases d
  {
    match d
    case ConstDecl(_, _, next) => ProcsStart(next, rest);
    case VarDecl(_, next) => ProcsStart(next, rest);
    case _ => assert d == NoDecls ==> RenderProcs(d) + rest == rest;
  }

  lemma VarsStart(d: Decls, rest: seq<Token>)
    requires Ordered(d, 1) && KindOf(rest) in BODYSYS + {procsym}
    ensures KindOf(RenderVars(d, true) + rest) in BODYSYS + {procsym, varsym}
    ensures (KindOf(RenderVars(d, true) + rest) == varsym) == d.VarDecl?
    ensures !d.VarDecl? ==> RenderVars(d, true) + rest == rest
  {
    if !d.VarDecl? {
      NoMore(d, true);
    }
  }

  lemma ConstsStart(d: Decls, rest: seq<Token>)
    requires Ordered(d, 0) && KindOf(rest) in BODYSYS + {procsym, varsym}
    ensures (KindOf(RenderConsts(d, true) + rest) == constsym) == d.ConstDecl?
    ensures !d.ConstDecl? ==> RenderConsts(d, true) + rest == rest
    ensures Clean(RenderConsts(d, true) + rest)
  {
    if !d.ConstDecl? {
      assert Ordered(d, 1);
      NoMore(d, true);
    }
  }

  // ---------- procedures and blocks ----------

  lemma {:induction false} ProcsRound(d: Decls, st: PState, rest: seq<Token>, fsys: set<Kind>, id: nat)
    requires Ordered(d, 2) && GoodDecls(d, st.level, id, CountersOf(st)) && ProcsWritable(d)
    requires st.rest == RenderProcs(d) + rest && StartsBody(rest, fsys)
    ensures Gives(ParseProcs(st, fsys), d, rest)
    decreases d, 1
  {
    hide ParseProc, GoodBlock;
    ProcsStart(d, rest);
    if d.ProcDecl? {
      ProcRound(d, st, rest, fsys, id);
      ProcDeclares(st, fsys, id);
      ProcCounters(d, st, ParseProc(st, fsys).st, id);
      ProcsRound(d.next, ParseProc(st, fsys).st, rest, fsys, id);
    }
  }

  lemma ProcCounters(d: Decls, st: PState, st1: PState, id: nat)
    requires d.ProcDecl? && Declared(st, st1, id, ProcDecl(d.name, d.block, NoDecls))
    requires GoodDecls(d, st.level, id, CountersOf(st))
    ensures GoodDecls(d.next, st1.level, id, CountersOf(st1))
  {
    hide GoodBlock;
    var s := CountersOf(st);
    var s1 := Counters(PutSymbol(s.table, Symbol(d.name, PROC, 0, st.level, s.procs + 1)), s.offsets, s.procs + 1);
    var s2 := ElabDecls(d.block.decls, st.level + 1, s1.procs, s1).0;
    assert ElabDecls(NoDecls, st.level, id, s2).0 == s2;
    assert ElabDecls(ProcDecl(d.name, d.block, NoDecls), st.level, id, s).0 == s2;
  }

  lemma ProcTokens(d: Decls, rest: seq<Token>)
    requires d.ProcDecl?
    ensures RenderProcs(d) + rest
         == [Sym(procsym), Id(d.name)]
            + ([Sym(semicolonsym)] + (RenderBlock(d.block) + ([Sym(semicolonsym)] + (RenderProcs(d.next) + rest))))
  {
    hide RenderBlock;
  }

  lemma ProcGood(d: Decls, st: PState, id: nat)
    requires d.ProcDecl? && GoodDecls(d, st.level, id, CountersOf(st))
    ensures var st1 := MakeProc(st.Next(), d.name).Next();
            && st1.level == st.level && st1.procCount == st.procCount + 1
            && GoodBlock(d.block, st.level + 1, st1.procCount, CountersOf(st1))
  {
    hide GoodBlock;
  }

  lemma {:induction false} ProcRound(d: Decls, st: PState, rest: seq<Token>, fsys: set<Kind>, id: nat)
    requires d.ProcDecl? && Ordered(d, 2) && GoodDecls(d, st.level, id, CountersOf(st)) && ProcsWritable(d)
    requires st.rest == RenderProcs(d) + rest && StartsBody(rest, fsys)
    ensures st.Kind() == procsym
    ensures Gives(ParseProc(st, fsys), (d.name, d.block), RenderProcs(d.next) + rest)
    decreases d, 0
  {
    hide ParseProc, ParseBlock, RenderBlock, RenderProcs, GoodBlock, GoodDecls, PutSymbol, FreeSet, NextToken, Prepend;
    var tail := RenderProcs(d.next) + rest;
    var t4 := [Sym(semicolonsym)] + tail;
    var t3 := RenderBlock(d.block) + t4;
    var t2 := [Sym(semicolonsym)] + t3;
    ProcTokens(d, rest);
    ProcGood(d, st, id);
    PairRound(st, procsym, d.name, t2);
    var st2 := MakeProc(st.Next(), d.name).Next();
    GoodParts(d.block, st.level + 1, st.procCount + 1, CountersOf(st2));
    BlockStart(d.block, t4);
    NextOf(st2, Sym(semicolonsym), t3);
    var st3 := st2.Next().(level := st2.level + 1);
    var follow := {semicolonsym} + fsys;
    BlockRound(d.block, st3, t4, follow, st3.procCount);
    ProcsStart(d.next, rest);
    ProcUnfold(st, d.name, d.block, fsys, tail);
  }

  /** A procedure is parsed when its name and its block are, and a semicolon is behind it. */
  lemma ProcUnfold(st: PState, x: string, blk: Block, fsys: set<Kind>, tail: seq<Token>)
    requires st.Kind() == procsym && st.Next().Kind() == identsym && st.Next().Name() == x
    requires var st2 := MakeProc(st.Next(), x).Next();
             && st2.Kind() == semicolonsym
             && Gives(ParseBlock(st2.Next().(level := st2.level + 1), {semicolonsym} + fsys), blk,
                      [Sym(semicolonsym)] + tail)
    requires Clean(tail) && KindOf(tail) in STATBEGSYS + {identsym, procsym} + fsys
    ensures Gives(ParseProc(st, fsys), (x, blk), tail)
  {
    hide ParseBlock, PutSymbol, FreeSet, NextToken, Prepend, Clean, STATBEGSYS, MakeProc;
    var st2 := MakeProc(st.Next(), x).Next();
    var st3 := ParseBlock(st2.Next().(level := st2.level + 1), {semicolonsym} + fsys).st;
    var st4 := st3.(level := st3.level - 1);
    NextOf(st4, Sym(semicolonsym), tail);
    Stopped(st4.Next(), STATBEGSYS + {identsym, procsym}, fsys);
  }

  lemma Stopped(st: PState, s1: set<Kind>, s2: set<Kind>)
    requires st.Kind() in s1 + s2
    ensures Test(st, s1, s2) == st
  {
  }

  lemma GoodParts(b: Block, level: int, id: nat, s: Counters)
    requires GoodBlock(b, level, id, s)
    ensures Ordered(b.decls, 0)
  {
  }

  /** What stands in front of a block's statement begins like a declaration or like the statement. */
  lemma DeclsStart(d: Decls, rest: seq<Token>)
    requires Ordered(d, 0) && KindOf(rest) in BODYSYS
    ensures Clean(RenderConsts(d, true) + (RenderVars(d, true) + (RenderProcs(d) + rest)))
  {
    hide RenderConsts, RenderVars, RenderProcs, KindOf, Clean, BODYSYS, Ordered;
    ProcsStart(d, rest);
    OrderedSkip(d);
    RenderSkip(d, true);
    VarsStart(SkipConsts(d), RenderProcs(d) + rest);
    ConstsStart(d, RenderVars(d, true) + (RenderProcs(d) + rest));
  }

  lemma BodyStart(s: Stmt, rest: seq<Token>)
    requires Clean(rest) && (s == Empty ==> KindOf(rest) == periodsym)
    ensures KindOf(RenderStmt(s) + rest) in BODYSYS
  {
    hide RenderStmt;
    StmtStart(s, rest);
  }

  lemma BlockStart(b: Block, rest: seq<Token>)
    requires Ordered(b.decls, 0) && (b.body == Empty ==> KindOf(rest) == periodsym) && Clean(rest)
    ensures Clean(RenderBlock(b) + rest)
  {
    hide RenderConsts, RenderVars, RenderProcs, RenderStmt, KindOf, Clean, Ordered;
    var body := RenderStmt(b.body) + rest;
    StmtStart(b.body, rest);
    BodyStart(b.body, rest);
    DeclsStart(b.decls, body);
    assert RenderBlock(b) + rest == RenderConsts(b.decls, true) +
           (RenderVars(b.decls, true) + (RenderProcs(b.decls) + body));
  }

  lemma ConstPart(d: Decls, st: PState, vars: seq<Token>, id: nat) returns (st1: PState)
    requires Ordered(d, 0) && GoodDecls(d, st.level, id, CountersOf(st))
    requires st.rest == RenderConsts(d, true) + vars && KindOf(vars) in BODYSYS + {procsym, varsym}
    ensures Gives(ConstSection(st, false), TakeConsts(d), vars) && st1 == ConstSection(st, false).st
    ensures st1.level == st.level && CountersOf(st1) == ElabDecls(TakeConsts(d), st.level, id, CountersOf(st)).0
  {
    hide NextToken, Declared, ParseConsts, GoodDecls, RenderConsts, ElabDecls, Ordered;
    ConstsStart(d, vars);
    if d.ConstDecl? {
      ConstsRound(d, st, true, vars, id);
      ConstsDeclare(st, id);
    } else {
      NothingDeclared(st, st, id);
    }
    st1 := ConstSection(st, false).st;
    DeclaredCounters(st, st1, id, TakeConsts(d));
  }

  lemma VarPart(d: Decls, st: PState, procs: seq<Token>, id: nat) returns (st1: PState)
    requires Ordered(d, 1) && GoodDecls(d, st.level, id, CountersOf(st))
    requires st.rest == RenderVars(d, true) + procs && KindOf(procs) in BODYSYS + {procsym}
    ensures Gives(VarSection(st, false), TakeVars(d), procs) && st1 == VarSection(st, false).st
    ensures st1.level == st.level && CountersOf(st1) == ElabDecls(TakeVars(d), st.level, id, CountersOf(st)).0
  {
    hide NextToken, Declared, ParseVars, GoodDecls, RenderVars, ElabDecls, Ordered;
    VarsStart(d, procs);
    if d.VarDecl? {
      VarsRound(d, st, true, procs, id);
      VarsDeclare(st, id);
    } else {
      NothingDeclared(st, st, id);
    }
    st1 := VarSection(st, false).st;
    DeclaredCounters(st, st1, id, TakeVars(d));
  }

  lemma {:induction false} SectionsGive(d: Decls, st: PState, rest: seq<Token>, fsys: set<Kind>, id: nat)
    requires Ordered(d, 0) && GoodDecls(d, st.level, id, CountersOf(st)) && ProcsWritable(d)
    requires st.rest == RenderConsts(d, true) + (RenderVars(d, true) + (RenderProcs(d) + rest))
             && StartsBody(rest, fsys)
    ensures var s := ParseSections(st, fsys, Sections(false, false, false));
            s.Ok? && s.value.0 == d && s.st.rest == rest
    decreases d, 2
  {
    hide NextToken, AppendDecls, ParseProcs, ConstSection, VarSection, GoodDecls, ProcsWritable, Ordered,
         RenderConsts, RenderVars, RenderProcs, ElabDecls;
    var v := SkipConsts(d);
    var p := SkipVars(v);
    var procs := RenderProcs(d) + rest;
    var vars := RenderVars(d, true) + procs;
    SplitDecls(d);
    SplitDecls(v);
    WritableSkip(d);
    WritableSkip(v);
    OrderedSkip(d);
    OrderedSkip(v);
    RenderSkip(d, true);
    RenderSkip(v, true);
    ProcsStart(d, rest);
    VarsStart(v, procs);
    GoodSkip(d, st.level, id, CountersOf(st));
    var st1 := ConstPart(d, st, vars, id);
    GoodSkip(v, st1.level, id, CountersOf(st1));
    var st2 := VarPart(v, st1, procs, id);
    ProcsRound(p, st2, rest, fsys, id);
  }

  /** Declarations with a statement behind them. */
  lemma DeclsRound(d: Decls, st: PState, rest: seq<Token>, fsys: set<Kind>, id: nat)
    requires Ordered(d, 0) && GoodDecls(d, st.level, id, CountersOf(st)) && ProcsWritable(d)
    requires st.rest == RenderConsts(d, true) + (RenderVars(d, true) + (RenderProcs(d) + rest))
    requires KindOf(rest) in STATBEGSYS
    ensures Gives(ParseDecls(st, fsys, Sections(false, false, false)), d, rest)
    decreases d, 3
  {
    hide RenderConsts, RenderVars, RenderProcs, GoodDecls, ProcsWritable, Ordered, ParseSections, ParseDecls;
    SectionsGive(d, st, rest, fsys, id);
    SectionsRound(st, fsys);
  }

  /** Declarations at the end of a program without a statement: the period is skipped in search of one. */
  lemma DeclsEnd(d: Decls, st: PState, fsys: set<Kind>, id: nat)
    requires Ordered(d, 0) && GoodDecls(d, st.level, id, CountersOf(st)) && ProcsWritable(d) && periodsym in fsys
    requires st.rest == RenderConsts(d, true) + (RenderVars(d, true) + (RenderProcs(d) + [Sym(periodsym)]))
    ensures Gives(ParseDecls(st, fsys, Sections(false, false, false)), d, [])
  {
    hide RenderConsts, RenderVars, RenderProcs, GoodDecls, ProcsWritable, Ordered, ParseSections;
    SectionsGive(d, st, [Sym(periodsym)], fsys, id);
    assert NextToken([Sym(periodsym)]) == [];
  }

  /** When no declaration follows the sections, they are all there are. */
  lemma SectionsRound(st: PState, fsys: set<Kind>)
    requires var s := ParseSections(st, fsys, Sections(false, false, false)); s.Ok? && s.st.Kind() in STATBEGSYS
    ensures var s := ParseSections(st, fsys, Sections(false, false, false));
            ParseDecls(st, fsys, Sections(false, false, false)) == Ok(s.value.0, s.st.(cur := st.cur))
  {
    hide ParseSections;
  }

  lemma DeclaredCounters(st: PState, st': PState, id: nat, d: Decls)
    requires Declared(st, st', id, d)
    ensures st'.level == st.level && CountersOf(st') == ElabDecls(d, st.level, id, CountersOf(st)).0
  {
  }

  /** Blocks: printing and then parsing is the identity. */
  lemma {:induction false} BlockRound(b: Block, st: PState, rest: seq<Token>, fsys: set<Kind>, id: nat)
    requires st.rest == RenderBlock(b) + rest
    requires rest == [] || (KindOf(rest) in {semicolonsym, periodsym} && KindOf(rest) in fsys)
    requires GoodBlock(b, st.level, id, CountersOf(st)) && BodiesWritable(b) && b.body != Empty
    ensures Gives(ParseBlock(st, fsys), b, rest)
    decreases b
  {
    hide ParseDecls, ParseStmt, RenderConsts, RenderVars, RenderProcs, RenderStmt, GoodStmt, ElabDecls, GoodDecls;
    var had := Sections(false, false, false);
    var follow := {semicolonsym, endsym} + fsys;
    var body := RenderStmt(b.body) + rest;
    StmtStart(b.body, rest);
    assert st.rest == RenderConsts(b.decls, true) + (RenderVars(b.decls, true) + (RenderProcs(b.decls) + body));
    DeclsRound(b.decls, st, body, fsys, id);
    DeclsDeclare(st, fsys, had, id);
    var st1 := ParseDecls(st, fsys, had).st;
    DeclaredCounters(st, st1, id, b.decls);
    StmtRound(b.body, st1, rest, follow);
  }

  /** A program without a statement: the parser finds the end of the text in its place. */
  lemma EmptyRoundBlock(b: Block, st: PState, fsys: set<Kind>, id: nat)
    requires st.rest == RenderBlock(b) + [Sym(periodsym)] && b.body == Empty && periodsym in fsys
    requires GoodBlock(b, st.level, id, CountersOf(st)) && BodiesWritable(b)
    ensures Gives(ParseBlock(st, fsys), b, [])
  {
    hide ParseDecls, RenderConsts, RenderVars, RenderProcs, ElabDecls, GoodDecls;
    assert st.rest == RenderConsts(b.decls, true) + (RenderVars(b.decls, true) +
                                                     (RenderProcs(b.decls) + [Sym(periodsym)]));
    DeclsEnd(b.decls, st, fsys, id);
  }

  /** A tree the parser would accept if it came to see it: in order, names declared, numbers small. */
  predicate Checked(b: Block) {
    GoodBlock(b, 0, 0, InitCounters())
  }

  /** What the compiler must find in a tree to accept its concrete syntax. */
  predicate Acceptable(b: Block) {
    Checked(b) && BodiesWritable(b)
  }

  /**
    A program that has a statement: what is behind the period, or a missing period, makes no
    difference to its tree.
   */
  lemma EndedRound(b: Block, rest: seq<Token>)
    requires Acceptable(b) && b.body != Empty && (rest == [] || rest[0].kind == periodsym)
    ensures var r := ParseProgram(RenderBlock(b) + rest); r.Ok? && r.value == b
  {
    hide ParseBlock, RenderBlock, GoodBlock, BodiesWritable;
    var toks := RenderBlock(b) + rest;
    var st := InitParse(toks);
    InitFresh(toks);
    GoodParts(b, 0, 0, InitCounters());
    BlockStart(b, rest);
    assert st.rest == toks;
    BlockRound(b, st, rest, PROGSYS, 0);
  }

  /** Programs: the parser rebuilds, from the concrete syntax of a tree, that tree. */
  lemma ProgramRound(b: Block)
    requires Acceptable(b)
    ensures ParseProgram(RenderProgram(b)).Ok? && ParseProgram(RenderProgram(b)).value == b
  {
    hide ParseBlock, RenderBlock, GoodBlock, BodiesWritable;
    if b.body == Empty {
      var toks := RenderProgram(b);
      var st := InitParse(toks);
      InitFresh(toks);
      GoodParts(b, 0, 0, InitCounters());
      BlockStart(b, [Sym(periodsym)]);
      assert st.rest == toks;
      EmptyRoundBlock(b, st, PROGSYS, 0);
    } else {
      EndedRound(b, [Sym(periodsym)]);
    }
  }
}
