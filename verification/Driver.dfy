/** The parts put together: parse, link, load and run, each in its in-place form. */
module Driver {
  import opened Common
  import opened Machine
  import opened Syntax
  import opened Symbols
  import opened CodeSets
  import opened Semantics
  import opened StmtCorrect
  import opened Linked
  import opened CodeStore
  import opened VirtualMachine
  import opened Parsing
  import opened Programs
  import opened Compiler
  import opened Scope
  import opened Overhang
  import opened Readings
  import opened Pl0
  import opened ParserState
  import opened BlockParser
  import opened Lexing
  import opened Scanner
  import opened Comments
  import opened SourceText

  /** No set overflows its row, and there was a set for every procedure. */
  ghost predicate RowsFit(c: Code) {
    && Get(c, FINAL_CODE) == []
    && forall k :: 0 <= k < MAX_CODE_SETS ==> |Get(c, k)| <= MAX_CODE_LENGTH
  }

  /** Code short enough for the machine has come from sets short enough for their rows. */
  lemma ShortCodeFits(toks: seq<Token>)
    requires ParseProgram(toks).Ok? && |Elaborate(ParseProgram(toks).value)| < MAX_CODE_SETS
    requires |CompiledCode(toks)| < MAX_CODE_LENGTH
    ensures RowsFit(ParseProgram(toks).st.code) && CompiledCode(toks) != []
  {
    hide ParseProgram, Elaborate, ProcCode;
    var c, prog := ParseProgram(toks).st.code, Elaborate(ParseProgram(toks).value);
    CountOfProcs(toks);
    ProgramEmits(toks);
    ParseHolds(toks);
    CountHeld(c, prog, 0);
    forall k | 0 <= k < MAX_CODE_SETS
      ensures |Get(c, k)| <= MAX_CODE_LENGTH
    {
      if k < |prog| {
        LinkLayout(c, |prog|, k);
      }
    }
    LinkLayout(c, |prog|, 0);
  }

  /** Parsing, linking and writing the machine code come to what CompiledCode says. */
  method CompileTokens(toks: seq<Token>) returns (tree: Parsed<Block>, file: seq<Instruction>)
    requires ParseProgram(toks).Ok? ==> RowsFit(ParseProgram(toks).st.code)
    ensures tree.Good? <==> ParseProgram(toks).Ok?
    ensures tree.Good? ==> tree.value == ParseProgram(toks).value && file == CompiledCode(toks)
  {
    hide ParseProgram;
    var p, r := ProgramParse(toks);
    tree, file := r, [];
    if r.Good? {
      p.store.PrepareMcode();
      file := p.store.PrintMcode();
    }
  }

  /** A compiled program loaded into a fresh machine and run for at most `limit` turns. */
  method CompileAndRun(toks: seq<Token>, input: seq<int>, limit: nat) returns (vm: VM)
    requires ParseProgram(toks).Ok? && |Elaborate(ParseProgram(toks).value)| < MAX_CODE_SETS
    requires |CompiledCode(toks)| < MAX_CODE_LENGTH
    ensures fresh(vm) && vm.Valid() && vm.View() == Run(CompiledCode(toks), InitState(input), limit)
  {
    hide ParseProgram, CompiledCode, Elaborate;
    ShortCodeFits(toks);
    var tree, file := CompileTokens(toks);
    vm := new VM(input);
    vm.RunCode(file, limit);
  }

  /**
    A supported program that PL/0 runs to its end, no call falling through, stops the machine after
    some number of turns, for good: at its halt, or undefined when the run has more records than
    the machine has room for.
   */
  lemma EnoughTurns(b: Block, pads: Pads, input: seq<int>, fuel: nat) returns (enough: nat)
    requires Supported(b, pads) && |CompiledCode(RenderProgram(b))| < MAX_CODE_LENGTH
    requires EndsPl0(b, input, fuel)
    ensures forall n: nat :: n >= enough ==>
      var s := Run(CompiledCode(RenderProgram(b)), InitState(input), n);
      var st := ExecProgram(LexProgram(b), STANDARD, input, fuel).st;
      && s.status == (if st.peak <= 5 then IDLE else UNDEFINED)
      && (s.status == IDLE ==> s.output == st.output)
  {
    hide ParseProgram, CompiledCode, RenderProgram, ExecProgram, LexProgram, Step;
    var code := CompiledCode(RenderProgram(b));
    var end := CompilesPl0(b, pads, input, fuel);
    enough :| Run(code, InitState(input), enough) == end;
    forall n: nat | n >= enough
      ensures Run(code, InitState(input), n) == end
    {
      RunAdd(code, InitState(input), enough, n - enough);
      RunStopped(code, end, n - enough);
    }
  }

  /** The token file, entry by entry, as the parser reads it. */
  method ReadTokens(entries: seq<Entry>) returns (toks: seq<Token>)
    ensures toks == TokensOf(entries)
  {
    toks := [];
    var i := 0;
    assert entries[0..] == entries;
    while i < |entries|
      invariant 0 <= i <= |entries| && TokensOf(entries) == toks + TokensOf(entries[i..])
    {
      assert entries[i..][0] == entries[i] && entries[i..][1..] == entries[i + 1..];
      toks := toks + [TokenOf(entries[i])];
      i := i + 1;
    }
  }

  /** Every name and number of the program can be written down. */
  predicate Spellable(b: Block) {
    forall t :: t in RenderProgram(b) ==> LegalToken(t)
  }

  lemma RunRoom(b: Block, pads: Pads)
    requires Compilable(b, pads)
    ensures TextOf(RenderProgram(b), b) && |Elaborate(b)| < MAX_CODE_SETS
  {
    hide ParseProgram, Elaborate, RenderProgram, LexProgram;
    CompilableParses(b, pads);
    CompilableAgree(b, pads);
  }

  /** Among the texts of a program that can be spelled is its spelling, every token with a space behind it. */
  lemma SpelledText(b: Block)
    requires Spellable(b)
    ensures NoComments(TokensOf(ScanAll(Spell(RenderProgram(b))))) == RenderProgram(b)
  {
    hide RenderProgram;
    SpellRound(RenderProgram(b));
    NoneThere(RenderProgram(b));
  }

  /**
    The whole chain, from characters to output. For a text, comments and layout included, whose
    tokens are those of a supported PL/0 program which PL/0 runs to its end, no call falling
    through: once the machine has stopped,
    which EnoughTurns says it does, it has halted exactly when the run never had more records
    than the machine has room for, and then it has written what PL/0 writes.
   */
  method RunPl0(text: string, ghost b: Block, ghost pads: Pads, input: seq<int>, ghost fuel: nat, limit: nat)
    returns (status: Status, output: seq<int>)
    requires Supported(b, pads) && NoComments(TokensOf(ScanAll(text))) == RenderProgram(b)
    requires |CompiledCode(RenderProgram(b))| < MAX_CODE_LENGTH
    requires EndsPl0(b, input, fuel)
    ensures status == Run(CompiledCode(RenderProgram(b)), InitState(input), limit).status
    ensures var st := ExecProgram(LexProgram(b), STANDARD, input, fuel).st;
            && (status != RUNNING ==> (status == IDLE <==> st.peak <= 5))
            && (status == IDLE ==> output == st.output)
  {
    hide ParseProgram, CompiledCode, Elaborate, RenderProgram, ExecProgram, LexProgram, Step, Compilable, NoComments;
    var dfa := ScanFile(text);
    var toks := ReadTokens(dfa.tokens);
    ghost var enough := EnoughTurns(b, pads, input, fuel);
    RunRoom(b, pads);
    CommentsSkipped(toks);
    CommentsLeaveCode(toks);
    var vm := CompileAndRun(toks, input, limit);
    status, output := vm.status, vm.output;
    if status != RUNNING {
      RunFinalUnique(CompiledCode(toks), InitState(input), enough, limit);
    }
  }
}
