/** The compiler as a whole: tokens in, machine behaviour out. */
module Compiler {
  import opened Common
  import opened Machine
  import opened Syntax
  import opened Symbols
  import opened Compile
  import opened CodeSets
  import opened Semantics
  import opened ExprCorrect
  import opened StmtCorrect
  import opened Faults
  import opened Linked
  import opened Parsing
  import opened Programs
  import opened Registers
  import opened Overhang

  /** The code the compiler makes of a token list; none when the parser rejects it. */
  function CompiledCode(toks: seq<Token>): seq<Instruction> {
    var r := ParseProgram(toks);
    if r.Ok? then Link(r.st.code) else []
  }

  lemma ParseHolds(toks: seq<Token>)
    requires ParseProgram(toks).Ok? && |Elaborate(ParseProgram(toks).value)| < MAX_CODE_SETS
    ensures Holds(ParseProgram(toks).st.code, Elaborate(ParseProgram(toks).value))
  {
    hide ParseProgram;
    CountOfProcs(toks);
    ProgramEmits(toks);
    var c, prog := ParseProgram(toks).st.code, Elaborate(ParseProgram(toks).value);
    forall i | 0 <= i < |prog|
      ensures Get(c, i) == ProcCode(prog, i, -1)
    {
      if i > 0 {
        assert Get(c, i) == ProcSet(prog[i]);
        assert ProcCode(prog, i, -1) == ProcSet(prog[i]) + [];
      }
    }
  }

  /** The program a token list denotes by the compiler's table, its records as long as `pads` says. */
  function CompiledProgram(toks: seq<Token>, pads: Pads): Prog
    requires ParseProgram(toks).Ok? && |pads| == |Elaborate(ParseProgram(toks).value)|
  {
    Widen(Elaborate(ParseProgram(toks).value), pads)
  }

  /** What the theorems about accepted token lists ask for: room for procedures, registers and code. */
  ghost predicate Accepted(toks: seq<Token>, pads: Pads) {
    && ParseProgram(toks).Ok? && |CompiledCode(toks)| < MAX_CODE_LENGTH
    && var prog := Elaborate(ParseProgram(toks).value);
       Leafy(prog, pads) && |prog| < MAX_CODE_SETS && RegistersFit(prog)
  }

  /** Linked code does as well for longer records of procedures that make no call. */
  lemma LoadedWide(code: seq<Instruction>, prog: Prog, pads: Pads, entry: seq<int>)
    requires Loaded(code, prog, entry) && Leafy(prog, pads) && RegistersFit(prog)
    ensures Placed(code, Widen(prog, pads), entry) && RegistersFit(Widen(prog, pads))
  {
    LoadedPlaced(code, prog, entry);
    hide Loaded, CompileStmt, At, NoCall;
    forall i | 0 <= i < |prog|
      ensures PlacedAt(code, Widen(prog, pads), i, entry[i])
      ensures NeedStmt(Widen(prog, pads)[i].body) <= COMMON_REGISTER_NUMBER
    {
      assert PlacedAt(code, prog, i, entry[i]);
      assert NeedStmt(prog[i].body) <= COMMON_REGISTER_NUMBER;
    }
  }

  lemma AcceptedPlaced(toks: seq<Token>, pads: Pads) returns (entry: seq<int>)
    requires Accepted(toks, pads)
    ensures |pads| == |Elaborate(ParseProgram(toks).value)|
    ensures Placed(CompiledCode(toks), CompiledProgram(toks, pads), entry) && RegistersFit(CompiledProgram(toks, pads))
  {
    hide ParseProgram, Elaborate, RegistersFit, Loaded, Placed;
    ParseHolds(toks);
    var prog := Elaborate(ParseProgram(toks).value);
    entry := LinkLoads(ParseProgram(toks).st.code, prog);
    LoadedWide(CompiledCode(toks), prog, pads, entry);
  }

  /**
    Compiler correctness. Whatever tokens the parser accepts, and whatever errors it recovered
    from on the way: if the program they denote runs to its end without a fault, the linked code
    drives the machine from its initial state to a halt, with the same output and the same
    input left. Procedures that make no call may use some cells behind their record.
   */
  lemma CompiledRun(toks: seq<Token>, pads: Pads, input: seq<int>, fuel: nat) returns (s': State)
    requires Accepted(toks, pads) && ExecProgram(CompiledProgram(toks, pads), IMPLEMENTED, input, fuel).Done?
    ensures Reaches(CompiledCode(toks), InitState(input), s')
    ensures var o := ExecProgram(CompiledProgram(toks, pads), IMPLEMENTED, input, fuel);
            s'.status == IDLE && s'.output == o.st.output && s'.input == o.st.input
  {
    hide ParseProgram, Elaborate, RegistersFit, Placed, CompiledCode, CompiledProgram;
    var entry := AcceptedPlaced(toks, pads);
    s' := ProgramRun(CompiledCode(toks), CompiledProgram(toks, pads), entry, input, fuel);
  }

  /**
    The runs that do not end well. If the program divides by zero, or calls deeper than the
    machine's trace entries go, the machine comes to that instruction, with the output the
    program has written, and is undefined there; if the program takes more than `fuel` loop
    turns and nested calls, the machine is still running after `fuel` turns.
   */
  lemma CompiledEnds(toks: seq<Token>, pads: Pads, input: seq<int>, fuel: nat) returns (n: nat)
    requires Accepted(toks, pads) && Telling(ExecProgram(CompiledProgram(toks, pads), IMPLEMENTED, input, fuel))
    ensures Ends(CompiledCode(toks), InitState(input),
                 ExecProgram(CompiledProgram(toks, pads), IMPLEMENTED, input, fuel), fuel, n)
  {
    hide ParseProgram, Elaborate, RegistersFit, Placed, CompiledCode, CompiledProgram, Ends;
    var entry := AcceptedPlaced(toks, pads);
    n := ProgramEnds(CompiledCode(toks), CompiledProgram(toks, pads), entry, input, fuel);
  }

  /** A program that never ends never stops the machine. */
  lemma CompiledForever(toks: seq<Token>, pads: Pads, input: seq<int>, n: nat)
    requires Accepted(toks, pads) && ExecProgram(CompiledProgram(toks, pads), IMPLEMENTED, input, n) == Timeout
    ensures Run(CompiledCode(toks), InitState(input), n).status == RUNNING
  {
    hide ParseProgram, Elaborate, CompiledCode, CompiledProgram, RegistersFit;
    var later := CompiledEnds(toks, pads, input, n);
    var code, s := CompiledCode(toks), InitState(input);
    RunAdd(code, s, n, later - n);
    if Run(code, s, n).status != RUNNING {
      RunStopped(code, Run(code, s, n), later - n);
    }
  }

  // ---------- how long the code is ----------

  /** Instructions of procedures `i` on. */
  function CodeSize(prog: Prog, i: nat): nat
    requires i <= |prog|
    decreases |prog| - i
  {
    if i == |prog| then 0 else |ProcCode(prog, i, -1)| + CodeSize(prog, i + 1)
  }

  lemma {:induction false} EntrySize(c: Code, prog: Prog, i: nat)
    requires Holds(c, prog) && i < |prog|
    ensures Entry(c, |prog|, i) + |Get(c, i)| == |prog| + CodeSize(prog, i)
    decreases |prog| - i
  {
    hide ProcCode;
    assert Get(c, i) == ProcCode(prog, i, -1);
    if i + 1 < |prog| {
      EntrySize(c, prog, i + 1);
    } else {
      assert CodeSize(prog, i + 1) == 0;
    }
  }

  lemma HeldLength(c: Code, prog: Prog)
    requires Holds(c, prog)
    ensures |Link(c)| == |prog| + CodeSize(prog, 0)
  {
    hide ProcCode, CodeSize;
    CountHeld(c, prog, 0);
    LinkLength(c, |prog|);
    EntrySize(c, prog, 0);
  }

  /** The code of whatever the parser accepts is a jump for each procedure, and their code. */
  lemma CodeLength(toks: seq<Token>)
    requires ParseProgram(toks).Ok? && |Elaborate(ParseProgram(toks).value)| < MAX_CODE_SETS
    ensures var prog := Elaborate(ParseProgram(toks).value);
            |CompiledCode(toks)| == |prog| + CodeSize(prog, 0)
  {
    hide ParseProgram, Elaborate, CodeSize;
    ParseHolds(toks);
    HeldLength(ParseProgram(toks).st.code, Elaborate(ParseProgram(toks).value));
  }
}
