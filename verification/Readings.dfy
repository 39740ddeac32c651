/**
  Trees as the compiler's table reads them, rightly or wrongly: what the parser makes of their
  concrete syntax, and what the machine makes of that.
 */
module Readings {
  import opened Common
  import opened Machine
  import opened Syntax
  import opened Symbols
  import opened Compile
  import opened CodeSets
  import opened Semantics
  import opened Emission
  import opened StmtCorrect
  import opened Linked
  import opened Parsing
  import opened Programs
  import opened RoundTrip
  import opened RoundTripProgram
  import opened Registers
  import opened Scope
  import opened Naming
  import opened Uses
  import opened Overhang
  import opened LexSound
  import opened Compiler

  /** `toks` is a text for `b`: parsed, with errors recovered from or without, it gives `b`. */
  predicate TextOf(toks: seq<Token>, b: Block) {
    ParseProgram(toks).Ok? && ParseProgram(toks).value == b
  }

  /** Constants, sections, levels and bodies as the parser wants them, apart from names. */
  predicate WellFormed(d: Decls, level: int) {
    match d
    case NoDecls => true
    case ConstDecl(_, v, next) => v <= MAX_NUMBER && 0 <= level < MAX_LEXI_LEVELS && WellFormed(next, level)
    case VarDecl(_, next) => 0 <= level < MAX_LEXI_LEVELS && WellFormed(next, level)
    case ProcDecl(_, blk, next) => blk.body != Empty && WellFormedBlock(blk, level + 1) && WellFormed(next, level)
  }

  predicate WellFormedBlock(b: Block, level: int) {
    Ordered(b.decls, 0) && WellFormed(b.decls, level) && Writable(b.body)
  }

  lemma {:induction false} WellFormedLevels(d: Decls, level: int)
    requires WellFormed(d, level)
    ensures LevelsFit(d, level)
    decreases d
  {
    match d
    case NoDecls =>
    case ConstDecl(_, _, next) => WellFormedLevels(next, level);
    case VarDecl(_, next) => WellFormedLevels(next, level);
    case ProcDecl(_, blk, next) =>
      WellFormedLevels(blk.decls, level + 1);
      WellFormedLevels(next, level);
  }

  lemma {:induction false} WellFormedWritable(d: Decls, level: int)
    requires WellFormed(d, level)
    ensures ProcsWritable(d)
    decreases d
  {
    match d
    case NoDecls =>
    case ConstDecl(_, _, next) => WellFormedWritable(next, level);
    case VarDecl(_, next) => WellFormedWritable(next, level);
    case ProcDecl(_, blk, next) =>
      WellFormedWritable(blk.decls, level + 1);
      WellFormedWritable(next, level);
  }

  /** Well-typed procedures make the declarations they come from acceptable to the parser. */
  lemma {:induction false} GoodFromTyped(d: Decls, level: int, id: nat, s: Counters)
    requires WellFormed(d, level) && |s.offsets| == MAX_LEXI_LEVELS
    requires WellTyped(ElabDecls(d, level, id, s).1)
    ensures GoodDecls(d, level, id, s)
    decreases d
  {
    match d
    case NoDecls =>
    case ConstDecl(x, v, next) =>
      GoodFromTyped(next, level, id, s.(table := PutSymbol(s.table, Symbol(x, CONST, v, level, 0))));
    case VarDecl(x, next) =>
      GoodFromTyped(next, level, id,
        s.(table := PutSymbol(s.table, Symbol(x, VAR, 0, level, s.offsets[level])),
           offsets := s.offsets[level := s.offsets[level] + 1]));
    case ProcDecl(x, blk, next) =>
      var s1 := Counters(PutSymbol(s.table, Symbol(x, PROC, 0, level, s.procs + 1)), s.offsets, s.procs + 1);
      var (s2, inner) := ElabDecls(blk.decls, level + 1, s1.procs, s1);
      var others := ElabDecls(next, level, id, s2).1;
      var p := Proc(level + 1, id, VarCount(blk.decls), FromTable(s2.table, level + 1), blk.body);
      OffsetsKept(blk.decls, level + 1, s1.procs, s1);
      TypedParts(p, inner, others);
      GoodFromTyped(blk.decls, level + 1, s1.procs, s1);
      GoodFromTyped(next, level, id, s2);
  }

  lemma TypedParts(p: Proc, inner: seq<Proc>, others: seq<Proc>)
    requires WellTyped([p] + inner + others)
    ensures GoodStmt(p.body, p.env) && WellTyped(inner) && WellTyped(others)
  {
    var all := [p] + inner + others;
    assert all[0] == p;
    forall i | 0 <= i < |inner| ensures GoodStmt(inner[i].body, inner[i].env) {
      assert all[i + 1] == inner[i];
    }
    forall i | 0 <= i < |others| ensures GoodStmt(others[i].body, others[i].env) {
      assert all[i + 1 + |inner|] == others[i];
    }
  }

  lemma WellFormedDecls(b: Block)
    requires WellFormedBlock(b, 0)
    ensures LevelsFit(b.decls, 0) && ProcsWritable(b.decls)
  {
    WellFormedLevels(b.decls, 0);
    WellFormedWritable(b.decls, 0);
  }

  lemma WidenTyped(prog: Prog, pads: Pads, u: Prog)
    requires |pads| == |prog| && SameProcs(Widen(prog, pads), u) && WellTyped(u)
    ensures WellTyped(prog)
  {
    hide GoodStmt, Refines, Reads;
    forall i | 0 <= i < |prog| ensures GoodStmt(prog[i].body, prog[i].env) {
      assert Widen(prog, pads)[i].body == u[i].body && Widen(prog, pads)[i].env == prog[i].env;
      RefinesReads(prog[i].env, u[i].env, []);
      StmtGood(u[i].body, prog[i].env, u[i].env);
    }
  }

  /**
    Every body of `b` uses names that the table gives, where it is asked for them, the meanings
    they have in `u`: a well-typed program whose records are longer than those of `b` by `pads`,
    which leaves the parser enough sets and registers.
   */
  ghost predicate TableReads(b: Block, pads: Pads, u: Prog) {
    && WellFormedBlock(b, 0)
    && u != [] && |Elaborate(b)| == |pads| && SameProcs(Widen(Elaborate(b), pads), u) && WellTyped(u)
    && Leafy(u, pads) && |u| < MAX_CODE_SETS && RegistersFit(u)
  }

  /** The parser accepts such a tree. */
  lemma ReadingAcceptable(b: Block, pads: Pads, u: Prog)
    requires TableReads(b, pads, u)
    ensures Acceptable(b)
  {
    hide GoodStmt, RegistersFit, Refines, Leafy;
    WellFormedDecls(b);
    var prog := Elaborate(b);
    WidenTyped(prog, pads, u);
    var e := ElabDecls(b.decls, 0, 0, InitCounters());
    assert prog == [prog[0]] + e.1 + [];
    TypedParts(prog[0], e.1, []);
    GoodFromTyped(b.decls, 0, 0, InitCounters());
  }

  lemma ReadingParses(b: Block, pads: Pads, u: Prog)
    requires TableReads(b, pads, u)
    ensures TextOf(RenderProgram(b), b)
  {
    hide ParseProgram, RenderProgram, TableReads, Acceptable;
    ReadingAcceptable(b, pads, u);
    ProgramRound(b);
  }

  /** For any text of such a tree there is room for what it elaborates to. */
  lemma ReadingAccepted(toks: seq<Token>, b: Block, pads: Pads, u: Prog)
    requires TableReads(b, pads, u) && TextOf(toks, b) && |CompiledCode(toks)| < MAX_CODE_LENGTH
    ensures Accepted(toks, pads) && CompiledProgram(toks, pads) == Widen(Elaborate(b), pads)
  {
    hide ParseProgram, CompiledCode, Elaborate, Refines, WellTyped, WellFormedBlock, NoCall, NeedStmt;
    var prog := Elaborate(b);
    forall i | 0 <= i < |prog| ensures prog[i].body == u[i].body {
      assert Widen(prog, pads)[i].body == u[i].body;
    }
  }

  /** Compiled and run, the program does what `u` does. */
  lemma ReadingRun(toks: seq<Token>, b: Block, pads: Pads, u: Prog, input: seq<int>, fuel: nat) returns (s': State)
    requires TableReads(b, pads, u) && TextOf(toks, b) && |CompiledCode(toks)| < MAX_CODE_LENGTH
    requires ExecProgram(u, IMPLEMENTED, input, fuel).Done?
    ensures var o := ExecProgram(u, IMPLEMENTED, input, fuel);
            && Reaches(CompiledCode(toks), InitState(input), s')
            && s'.status == IDLE && s'.output == o.st.output && s'.input == o.st.input
  {
    hide ParseProgram, CompiledCode, Elaborate, SameProcs, WellTyped, WellFormedBlock, RegistersFit, Leafy,
         ExecProgram, TextOf, Accepted, CompiledProgram;
    ReadingAccepted(toks, b, pads, u);
    var wide := Widen(Elaborate(b), pads);
    SameSelf(u);
    BothMean(wide, u, u, IMPLEMENTED, input, fuel);
    s' := CompiledRun(toks, pads, input, fuel);
  }

  lemma SameSelf(u: Prog)
    ensures SameProcs(u, u)
  {
  }

  /** Code does not depend on how names are looked up. */
  lemma SameProcCode(a: Prog, b: Prog, i: nat, entry: int)
    requires SameProcs(a, b) && WellTyped(b) && i < |b|
    ensures ProcCode(a, i, entry) == ProcCode(b, i, entry)
  {
    hide GoodStmt, Refines;
    StmtCode(b[i].body, entry + 1, 0, a[i].env, b[i].env, i > 0);
  }

  /** The parser has emitted the code of `u`, if no record is longer there. */
  lemma ReadingHolds(toks: seq<Token>, b: Block, u: Prog)
    requires TableReads(b, NoPads(|u|), u) && TextOf(toks, b)
    ensures Holds(ParseProgram(toks).st.code, u)
  {
    hide ParseProgram, Elaborate, ProcCode, RegistersFit, WellFormedBlock, Refines, WellTyped, Leafy;
    WidenNone(Elaborate(b));
    ParseHolds(toks);
    var prog, c := Elaborate(b), ParseProgram(toks).st.code;
    forall i | 0 <= i < |u|
      ensures Get(c, i) == ProcCode(u, i, -1)
    {
      SameProcCode(prog, u, i, -1);
    }
  }

  /** Longer records make no longer code. */
  lemma {:induction false} SizeRead(prog: Prog, pads: Pads, u: Prog, i: nat)
    requires |pads| == |prog| && SameProcs(Widen(prog, pads), u) && WellTyped(u) && i <= |prog|
    ensures |prog| == |u| && CodeSize(prog, i) == CodeSize(u, i)
    decreases |prog| - i
  {
    hide SameProcs, WellTyped, ProcCode, Widen;
    SameLength(Widen(prog, pads), u);
    if i < |prog| {
      SizeRead(prog, pads, u, i + 1);
      SameProcCode(Widen(prog, pads), u, i, -1);
      WideLength(prog, pads, i);
    }
  }

  lemma SameLength(a: Prog, b: Prog)
    requires SameProcs(a, b)
    ensures |a| == |b|
  {
  }

  lemma WideLength(prog: Prog, pads: Pads, i: nat)
    requires |pads| == |prog| && i < |prog|
    ensures |ProcCode(Widen(prog, pads), i, -1)| == |ProcCode(prog, i, -1)|
  {
    hide CompileStmt;
  }

  /** How long the code of such a tree is. */
  lemma ReadingLength(toks: seq<Token>, b: Block, pads: Pads, u: Prog)
    requires TableReads(b, pads, u) && TextOf(toks, b)
    ensures |CompiledCode(toks)| == |u| + CodeSize(u, 0)
  {
    hide ParseProgram, CompiledCode, Elaborate, SameProcs, WellTyped, WellFormedBlock, RegistersFit, Leafy, CodeSize,
         Widen;
    SizeRead(Elaborate(b), pads, u, 0);
    CodeLength(toks);
  }
}
