/** From PL/0 source, as tokens, to what the machine writes: the compiler meets the language. */
module Pl0 {
  import opened Common
  import opened Machine
  import opened Syntax
  import opened Symbols
  import opened CodeSets
  import opened Semantics
  import opened Emission
  import opened StmtCorrect
  import opened Parsing
  import opened Programs
  import opened Faults
  import opened Registers
  import opened Standard
  import opened Sinking
  import opened Scope
  import opened Naming
  import opened Uses
  import opened Overhang
  import opened LexSound
  import opened CodeShape
  import opened Compiler
  import opened Readings

  // ---------- the theorem ----------

  /**
    The trees the compiler reads as PL/0 does: written as the grammar has it, well typed under
    lexical scope, every name a body uses resolved to its declaration, and no more procedures and
    registers than there is room for. Of procedures that make no call the variables may lie
    behind the record, by as much as `pads` says.
   */
  ghost predicate Compilable(b: Block, pads: Pads) {
    var prog := LexProgram(b);
    && WellFormedBlock(b, 0)
    && WellTyped(prog)
    && Leafy(prog, pads) && Clear(b, pads)
    && |prog| < MAX_CODE_SETS
    && RegistersFit(prog)
  }

  /** Compilable, with all variables inside their records. */
  ghost predicate Compact(b: Block) {
    Compilable(b, NoPads(|LexProgram(b)|))
  }

  /** The program a tree denotes in PL/0, its records as long as `pads` says. */
  ghost function PaddedProgram(b: Block, pads: Pads): (p: Prog)
    ensures p != []
  {
    var prog := LexProgram(b);
    if AllLexical(prog) && |pads| == |prog| then Padded(prog, pads) else prog
  }

  /**
    The PL/0 programs the compiler is right about: besides, a begin..end stands in procedures
    only where nothing but empty statements follows, no constant is written, and the records that
    can be live fit the stack.
   */
  ghost predicate Supported(b: Block, pads: Pads) {
    Compilable(b, pads) && TailProgram(LexProgram(b)) && RecordsFit(PaddedProgram(b, pads))
  }

  /** Everything known of a compilable tree under both readings. */
  lemma CompilableAgree(b: Block, pads: Pads)
    requires Compilable(b, pads)
    ensures |Elaborate(b)| == |LexProgram(b)| == |pads| > 0 && AllLexical(LexProgram(b))
    ensures PaddedProgram(b, pads) == Padded(LexProgram(b), pads) && AllLexical(PaddedProgram(b, pads))
    ensures var u := Used(PaddedProgram(b, pads));
            && SameProcs(Widen(Elaborate(b), pads), u) && SameProcs(PaddedProgram(b, pads), u) && WellTyped(u)
  {
    hide Clear, GoodStmt, RegistersFit, Elaborate, LexProgram, WellFormedBlock, WellTyped, SameProcs, Padded, Used;
    WellFormedDecls(b);
    LexLexical(b);
    ProgramsAgree(b, pads);
    TypedPadded(LexProgram(b), pads);
    UsedSame(PaddedProgram(b, pads));
  }

  lemma CompilableReads(b: Block, pads: Pads)
    requires Compilable(b, pads)
    ensures AllLexical(PaddedProgram(b, pads)) && TableReads(b, pads, Used(PaddedProgram(b, pads)))
  {
    hide Clear, Elaborate, LexProgram, WellFormedBlock, WellTyped, SameProcs, NoCall, NeedStmt, GoodStmt, PaddedProc;
    CompilableAgree(b, pads);
    var lex, u := LexProgram(b), Used(PaddedProgram(b, pads));
    forall i | 0 <= i < |lex| ensures u[i].body == lex[i].body {
      PaddedBody(lex, pads, i);
    }
  }

  /** What the compiler makes of a compilable program means the same as the program in lexical scope. */
  lemma LexMeaning(b: Block, pads: Pads, m: Mode, input: seq<int>, fuel: nat)
    requires Compilable(b, pads)
    ensures |pads| == |Elaborate(b)| > 0
    ensures ExecProgram(Widen(Elaborate(b), pads), m, input, fuel)
            == ExecProgram(PaddedProgram(b, pads), m, input, fuel)
  {
    hide Clear, RegistersFit, Elaborate, LexProgram, SameProcs, WellTyped, PaddedProgram, Used;
    CompilableAgree(b, pads);
    BothMean(Widen(Elaborate(b), pads), PaddedProgram(b, pads), Used(PaddedProgram(b, pads)), m, input, fuel);
  }

  /** The parser accepts the concrete syntax of a compilable program, which is a text for it. */
  lemma CompilableParses(b: Block, pads: Pads)
    requires Compilable(b, pads)
    ensures TextOf(RenderProgram(b), b)
  {
    hide Compilable, TableReads, TextOf, Used, PaddedProgram;
    CompilableReads(b, pads);
    ReadingParses(b, pads, Used(PaddedProgram(b, pads)));
  }

  /**
    Compilable programs, plain or not, and any text for them: what the emitted code does in
    lexical scope is what the machine does, to its halt.
   */
  lemma CompilesLex(toks: seq<Token>, b: Block, pads: Pads, input: seq<int>, fuel: nat) returns (s': State)
    requires Compilable(b, pads) && TextOf(toks, b) && |CompiledCode(toks)| < MAX_CODE_LENGTH
    requires ExecProgram(PaddedProgram(b, pads), IMPLEMENTED, input, fuel).Done?
    ensures var o := ExecProgram(PaddedProgram(b, pads), IMPLEMENTED, input, fuel);
            && Reaches(CompiledCode(toks), InitState(input), s')
            && s'.status == IDLE && s'.output == o.st.output && s'.input == o.st.input
  {
    hide ParseProgram, PaddedProgram, Elaborate, Compilable, CompiledCode, ExecProgram, Accepted, TextOf, TableReads,
         Used;
    CompilableReads(b, pads);
    ReadingAccepted(toks, b, pads, Used(PaddedProgram(b, pads)));
    LexMeaning(b, pads, IMPLEMENTED, input, fuel);
    s' := CompiledRun(toks, pads, input, fuel);
  }

  /** The same for runs that fault or do not end. */
  lemma CompilesLexEnds(toks: seq<Token>, b: Block, pads: Pads, input: seq<int>, fuel: nat) returns (n: nat)
    requires Compilable(b, pads) && TextOf(toks, b) && |CompiledCode(toks)| < MAX_CODE_LENGTH
    requires Telling(ExecProgram(PaddedProgram(b, pads), IMPLEMENTED, input, fuel))
    ensures Ends(CompiledCode(toks), InitState(input), ExecProgram(PaddedProgram(b, pads), IMPLEMENTED, input, fuel),
                 fuel, n)
  {
    hide ParseProgram, PaddedProgram, Elaborate, Compilable, CompiledCode, ExecProgram, Ends, Accepted, TextOf,
         TableReads, Used;
    CompilableReads(b, pads);
    ReadingAccepted(toks, b, pads, Used(PaddedProgram(b, pads)));
    LexMeaning(b, pads, IMPLEMENTED, input, fuel);
    n := CompiledEnds(toks, pads, input, fuel);
  }

  /** The machine stops as a run that ends without a fall, or else is too deep, says. */
  lemma Stops(b: Block, pads: Pads, input: seq<int>, fuel: nat, a: Outcome) returns (s': State)
    requires Compilable(b, pads) && |CompiledCode(RenderProgram(b))| < MAX_CODE_LENGTH && a.Done?
    requires var o := ExecProgram(PaddedProgram(b, pads), IMPLEMENTED, input, fuel);
             && (o == a || IsTooDeep(o))
             && (o == a <==> a.st.peak <= MAX_LEXI_LEVELS)
    ensures Reaches(CompiledCode(RenderProgram(b)), InitState(input), s')
    ensures s'.status == (if a.st.peak <= MAX_LEXI_LEVELS then IDLE else UNDEFINED)
    ensures s'.status == IDLE ==> s'.output == a.st.output && s'.input == a.st.input
  {
    hide ParseProgram, RenderProgram, PaddedProgram, Compilable, CompiledCode, ExecProgram, Run, Step, TextOf;
    CompilableParses(b, pads);
    if a.st.peak <= MAX_LEXI_LEVELS {
      s' := CompilesLex(RenderProgram(b), b, pads, input, fuel);
    } else {
      var n := CompilesLexEnds(RenderProgram(b), b, pads, input, fuel);
      s' := NextState(CompiledCode(RenderProgram(b)), InitState(input), n);
    }
  }

  // ---------- PL/0 ----------

  /** PL/0 does not see where variables lie. */
  lemma LexPadded(b: Block, pads: Pads, input: seq<int>, fuel: nat)
    requires Compilable(b, pads)
    ensures ExecProgram(PaddedProgram(b, pads), STANDARD, input, fuel)
            == ExecProgram(LexProgram(b), STANDARD, input, fuel)
  {
    hide LexProgram, Elaborate, Clear, WellTyped, WellFormedBlock, Leafy, ExecProgram, Nice;
    CompilableAgree(b, pads);
    LexNice(b);
    PaddedMeaning(LexProgram(b), pads, input, fuel);
  }

  lemma LexNice(b: Block)
    requires AllLexical(LexProgram(b))
    ensures Nice(LexProgram(b))
  {
    hide LexProgram, NiceScope;
    LexicalSound(b);
    forall i | 0 <= i < |LexProgram(b)| ensures NiceScope(LexProgram(b)[i].env.scope) {
      SoundNice(LexProgram(b), i);
    }
  }

  lemma SoundNice(prog: Prog, i: nat)
    requires i < |prog| && SoundEnv(prog, i) && prog[i].env.Lexical?
    ensures NiceScope(prog[i].env.scope)
  {
    var scope := prog[i].env.scope;
    forall x | x in scope
      ensures scope[x].hops >= 0 && (scope[x].kind == VAR && scope[x].hops == 0 ==> scope[x].addr >= HEADER)
    {
      assert prog[i].env.Find(x) == Some(scope[x]);
    }
  }

  /**
    PL/0 programs compiled and run. For every supported program, given as the tokens its
    concrete syntax has, that PL/0 runs to its end on some input, recursion as deep and stack as
    large as it takes, and every call's body coming to its end at a begin..end: the parser accepts
    it, and the machine stops on that input. It halts, with PL/0's output and the same input left
    over, exactly when the run never has more than five records live at once; otherwise
    it is undefined.
   */
  lemma CompilesPl0(b: Block, pads: Pads, input: seq<int>, fuel: nat) returns (s': State)
    requires Supported(b, pads) && |CompiledCode(RenderProgram(b))| < MAX_CODE_LENGTH
    requires EndsPl0(b, input, fuel)
    ensures TextOf(RenderProgram(b), b)
    ensures Reaches(CompiledCode(RenderProgram(b)), InitState(input), s')
    ensures var st := ExecProgram(LexProgram(b), STANDARD, input, fuel).st;
            && s'.status == (if st.peak <= 5 then IDLE else UNDEFINED)
            && (s'.status == IDLE ==> s'.output == st.output && s'.input == st.input)
  {
    hide ParseProgram, RenderProgram, LexProgram, Compilable, CompiledCode, ExecProgram, TailProgram, RecordsFit;
    CompilableParses(b, pads);
    LexPadded(b, pads, input, fuel);
    SupportedTail(b, pads);
    TailMeaning(PaddedProgram(b, pads), input, fuel);
    s' := Stops(b, pads, input, fuel, ExecProgram(LexProgram(b), STANDARD, input, fuel));
  }

  /** PL/0 runs the program to its end, and every call's body comes to its end at a begin..end. */
  ghost predicate EndsPl0(b: Block, input: seq<int>, fuel: nat) {
    var o := ExecProgram(LexProgram(b), STANDARD, input, fuel);
    o.Done? && !o.st.fell
  }

  lemma SupportedTail(b: Block, pads: Pads)
    requires Supported(b, pads)
    ensures TailProgram(PaddedProgram(b, pads))
  {
    hide LexProgram, Compilable, RecordsFit, TailProgram;
    CompilableAgree(b, pads);
    TailPadded(LexProgram(b), pads);
  }

  /** No call falls through in a program all of whose procedures end, on every way, at a begin..end. */
  lemma ReturningProgram(b: Block, input: seq<int>, fuel: nat)
    requires AllReturn(LexProgram(b))
    ensures var o := ExecProgram(LexProgram(b), STANDARD, input, fuel); o.Done? ==> !o.st.fell
  {
    hide LexProgram, AllReturn;
    NeverFalls(LexProgram(b), LexProgram(b)[0].body, 0, InitStore(LexProgram(b), input), fuel);
  }

  /**
    The same for begin..end anywhere in procedures: the machine does what PL/0 does with the
    program in which everything behind a begin..end of a procedure has been sunk.
   */
  lemma CompilesSunk(b: Block, input: seq<int>, fuel: nat) returns (s': State)
    requires Compact(b) && RecordsFit(LexProgram(b)) && SinkableProgram(LexProgram(b))
    requires forall i :: 0 <= i < |LexProgram(b)| ==> NoConstWrite(LexProgram(b)[i].body, LexProgram(b)[i].env)
    requires |CompiledCode(RenderProgram(b))| < MAX_CODE_LENGTH
    requires var o := ExecProgram(Sunk(LexProgram(b)), STANDARD, input, fuel); o.Done? && !o.st.fell
    ensures Reaches(CompiledCode(RenderProgram(b)), InitState(input), s')
    ensures var st := ExecProgram(Sunk(LexProgram(b)), STANDARD, input, fuel).st;
            && s'.status == (if st.peak <= 5 then IDLE else UNDEFINED)
            && (s'.status == IDLE ==> s'.output == st.output && s'.input == st.input)
  {
    hide ParseProgram, RenderProgram, LexProgram, Compilable, CompiledCode, ExecProgram, Sunk, RecordsFit;
    var pads := NoPads(|LexProgram(b)|);
    SunkMeaning(LexProgram(b), input, fuel);
    UnpaddedProgram(b);
    s' := Stops(b, pads, input, fuel, ExecProgram(Sunk(LexProgram(b)), STANDARD, input, fuel));
  }

  lemma UnpaddedProgram(b: Block)
    requires LevelsFit(b.decls, 0) || Compact(b)
    ensures PaddedProgram(b, NoPads(|LexProgram(b)|)) == LexProgram(b)
    ensures AllLexical(LexProgram(b)) && Leafy(LexProgram(b), NoPads(|LexProgram(b)|))
  {
    hide LexProgram, WellTyped, Clear, RegistersFit;
    if !LevelsFit(b.decls, 0) {
      WellFormedDecls(b);
    }
    LexLexical(b);
    PaddedNone(LexProgram(b));
  }

  /** The names that the bodies of a compact program use, as the compiler's table answers and as lexical scope does. */
  lemma CompactAgree(b: Block)
    requires Compact(b)
    ensures |Elaborate(b)| == |LexProgram(b)| > 0 && AllLexical(LexProgram(b))
    ensures var u := Used(LexProgram(b));
            SameProcs(Elaborate(b), u) && SameProcs(LexProgram(b), u) && WellTyped(u)
  {
    hide LexProgram, Elaborate, Compilable, SameProcs, WellTyped, Used;
    CompilableAgree(b, NoPads(|LexProgram(b)|));
    UnpaddedProgram(b);
    WidenNone(Elaborate(b));
  }

  lemma NextState(code: seq<Instruction>, s: State, n: nat) returns (s': State)
    ensures s' == Step(code, Run(code, s, n)) && Reaches(code, s, s')
  {
    hide Step;
    RunAdd(code, s, n, 1);
    s' := Run(code, s, n + 1);
    assert Run(code, Run(code, s, n), 1) == Run(code, Step(code, Run(code, s, n)), 0);
  }
}
