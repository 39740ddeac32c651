/** Linking the code sets of a program gives code in which every procedure is where it is called. */
module Linked {
  import opened Machine
  import opened Syntax
  import opened Symbols
  import opened Compile
  import opened Semantics
  import opened ExprCorrect
  import opened StmtCorrect
  import opened CodeSets

  /** The code sets hold the procedures of `prog`, each compiled for its own set, and no more. */
  ghost predicate Holds(c: Code, prog: Prog) {
    && 0 < |prog| < MAX_CODE_SETS
    && (forall i :: 0 <= i < |prog| ==> Get(c, i) == ProcCode(prog, i, -1))
    && Get(c, |prog|) == []
  }

  lemma {:induction false} CountHeld(c: Code, prog: Prog, i: nat)
    requires Holds(c, prog) && i <= |prog|
    ensures SetCount(c, i) == |prog|
    decreases |prog| - i
  {
    if i < |prog| {
      assert Get(c, i) == ProcCode(prog, i, -1);
      CountHeld(c, prog, i + 1);
    }
  }

  lemma {:induction false} MoveProc(prog: Prog, i: nat, e: int)
    requires i < |prog|
    ensures Relocate(ProcCode(prog, i, -1), e + 1) == ProcCode(prog, i, e)
  {
    var inc := [Instruction(INC, 0, 0, prog[i].vars + HEADER)];
    var body := CompileStmt(prog[i].body, 0, 0, prog[i].env, i > 0);
    var halt := if i == 0 then [Instruction(SIO, 0, 0, 3)] else [];
    RelocateConcat(inc + body, halt, e + 1);
    RelocateConcat(inc, body, e + 1);
    RelocateNoJumps(inc, e + 1);
    RelocateNoJumps(halt, e + 1);
    RelocateStmt(prog[i].body, 0, 0, prog[i].env, i > 0, e + 1);
  }

  lemma {:induction false} LinkedProc(c: Code, prog: Prog, i: nat)
    requires Holds(c, prog) && |LinkSets(c, |prog|)| < MAX_CODE_LENGTH && i < |prog|
    ensures var e := Entry(c, |prog|, i);
            && i < |LinkSets(c, |prog|)|
            && LinkSets(c, |prog|)[i] == Instruction(JMP, 0, 0, e)
            && At(LinkSets(c, |prog|), e, ProcCode(prog, i, e))
  {
    hide LinkSets, Entry, Relocate, ProcCode;
    LinkLayout(c, |prog|, i);
    MoveProc(prog, i, Entry(c, |prog|, i));
    assert Get(c, i) == ProcCode(prog, i, -1);
  }

  /** Every jump, moved by the linker, lands where it would have landed in its own set. */
  lemma LinkLoads(c: Code, prog: Prog) returns (entry: seq<int>)
    requires Holds(c, prog) && |Link(c)| < MAX_CODE_LENGTH
    ensures Loaded(Link(c), prog, entry)
    ensures |entry| == |prog| && forall i :: 0 <= i < |prog| ==> entry[i] == Entry(c, |prog|, i)
  {
    var n := |prog|;
    CountHeld(c, prog, 0);
    entry := seq(n, i requires 0 <= i < n => Entry(c, n, i));
    forall i | 0 <= i < n
      ensures Link(c)[i] == Instruction(JMP, 0, 0, entry[i])
      ensures At(Link(c), entry[i], ProcCode(prog, i, entry[i]))
    {
      LinkedProc(c, prog, i);
    }
    LinkLayout(c, n, 0);
  }

  /** Linked code runs to the output the source semantics gives. */
  lemma LinkedRun(c: Code, prog: Prog, input: seq<int>, fuel: nat) returns (s': State)
    requires Holds(c, prog) && |Link(c)| < MAX_CODE_LENGTH && RegistersFit(prog)
    requires ExecProgram(prog, IMPLEMENTED, input, fuel).Done?
    ensures Reaches(Link(c), InitState(input), s')
    ensures s'.status == IDLE
    ensures s'.output == ExecProgram(prog, IMPLEMENTED, input, fuel).st.output
    ensures s'.input == ExecProgram(prog, IMPLEMENTED, input, fuel).st.input
  {
    var entry := LinkLoads(c, prog);
    LoadedPlaced(Link(c), prog, entry);
    s' := ProgramRun(Link(c), prog, entry, input, fuel);
  }
}
