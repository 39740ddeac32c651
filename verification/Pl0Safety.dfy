/** Compiled PL/0 programs run safely, whether or not they run to an end. */
module Pl0Safety {
  import opened Common
  import opened Machine
  import opened Syntax
  import opened Symbols
  import opened Compile
  import opened CodeSets
  import opened Semantics
  import opened Emission
  import opened Registers
  import opened StmtCorrect
  import opened Linked
  import opened Parsing
  import opened Programs
  import opened Standard
  import opened Scope
  import opened Naming
  import opened Uses
  import opened Overhang
  import opened LexSound
  import opened CodeShape
  import opened Safety
  import opened SafeRuns
  import opened Compiler
  import opened Readings
  import opened Pl0

  /**
    Statements do what the code generator can express: they assign to variables only, which the
    parser merely reports, and write no constants; and procedure bodies return on all their ways,
    whatever is in them.
   */
  ghost predicate Assigning(b: Block) {
    var prog := LexProgram(b);
    && (forall i :: 0 <= i < |prog| ==> Strict(prog[i].body, prog[i].env) && NoConstWrite(prog[i].body, prog[i].env))
    && (forall i :: 0 < i < |prog| ==> Returns(prog[i].body))
  }

  // ---------- longer records are as sound ----------

  lemma {:induction false} AncestorPadded(prog: Prog, pads: Pads, i: nat, k: int)
    requires AllLexical(prog) && |pads| == |prog|
    ensures Ancestor(Padded(prog, pads), i, k) == Ancestor(prog, i, k)
    decreases k
  {
    if k > 0 && i < |prog| && prog[i].parent >= 0 {
      AncestorPadded(prog, pads, prog[i].parent, k - 1);
    }
  }

  lemma NamePadded(prog: Prog, pads: Pads, i: nat, b: Binding)
    requires AllLexical(prog) && |pads| == |prog| && i < |prog| && SoundName(prog, i, b)
    ensures SoundName(Padded(prog, pads), i, ShiftBinding(b, pads[i]))
  {
    AncestorPadded(prog, pads, i, b.hops);
  }

  lemma EnvPadded(prog: Prog, pads: Pads, i: nat)
    requires AllLexical(prog) && |pads| == |prog| && i < |prog| && SoundEnv(prog, i)
    ensures SoundEnv(Padded(prog, pads), i)
  {
    hide SoundName, ShiftBinding;
    var scope, env := prog[i].env.scope, Padded(prog, pads)[i].env;
    forall x | env.Find(x).Some?
      ensures SoundName(Padded(prog, pads), i, env.Find(x).value)
    {
      assert prog[i].env.Find(x) == Some(scope[x]);
      NamePadded(prog, pads, i, scope[x]);
    }
  }

  lemma {:induction false} StrictShift(s: Stmt, scope: Scoping, pad: nat)
    requires Strict(s, Lexical(scope))
    ensures Strict(s, Lexical(ShiftScope(scope, pad)))
    decreases s
  {
    match s
    case Begin(first, rest) => StrictShift(first, scope, pad); StrictShiftAll(rest, scope, pad);
    case If(_, t) => StrictShift(t, scope, pad);
    case IfElse(_, t, e) => StrictShift(t, scope, pad); StrictShift(e, scope, pad);
    case While(_, b) => StrictShift(b, scope, pad);
    case _ =>
  }

  lemma {:induction false} StrictShiftAll(ss: Stmts, scope: Scoping, pad: nat)
    requires StrictAll(ss, Lexical(scope))
    ensures StrictAll(ss, Lexical(ShiftScope(scope, pad)))
    decreases ss
  {
    if ss.MoreStmts? {
      StrictShift(ss.stmt, scope, pad);
      StrictShiftAll(ss.next, scope, pad);
    }
  }

  lemma PaddedSound(prog: Prog, pads: Pads)
    requires AllLexical(prog) && |pads| == |prog| && WellTyped(prog) && RegistersFit(prog)
    requires Tree(prog) && forall i :: 0 <= i < |prog| ==> SoundEnv(prog, i)
    requires forall i :: 0 <= i < |prog| ==>
               Strict(prog[i].body, prog[i].env) && NoConstWrite(prog[i].body, prog[i].env)
    requires forall i :: 0 < i < |prog| ==> Returns(prog[i].body)
    ensures SoundProgram(Padded(prog, pads))
  {
    hide SoundEnv, GoodStmt, Strict, NoConstWrite, NeedStmt, NoCall, Returns, ShiftScope;
    TypedPadded(prog, pads);
    forall i | 0 <= i < |prog|
      ensures Sound(Padded(prog, pads), i, prog[i].body, 0)
    {
      EnvPadded(prog, pads, i);
      StrictShift(prog[i].body, prog[i].env.scope, pads[i]);
      NoConstShift(prog[i].body, prog[i].env.scope, pads[i]);
      assert GoodStmt(Padded(prog, pads)[i].body, Padded(prog, pads)[i].env);
    }
    TreePadded(prog, pads);
  }

  lemma TreePadded(prog: Prog, pads: Pads)
    requires AllLexical(prog) && |pads| == |prog| && Tree(prog)
    ensures Tree(Padded(prog, pads))
  {
  }

  lemma AssigningSound(b: Block, pads: Pads)
    requires Compilable(b, pads) && Assigning(b)
    ensures SoundProgram(PaddedProgram(b, pads))
  {
    hide LexProgram, SoundEnv, GoodStmt, Strict, NoConstWrite, WellFormedBlock, Clear, Padded, Tree;
    CompilableAgree(b, pads);
    LexicalSound(b);
    PaddedSound(LexProgram(b), pads);
  }

  /** In procedure `i` the compiler's table gives the name `x` its lexical meaning. */
  ghost predicate Resolved(b: Block, i: nat, x: string) {
    && i < |Elaborate(b)| == |LexProgram(b)|
    && var env, lex := Elaborate(b)[i].env, LexProgram(b)[i].env;
       env.FromTable? && lex.Lexical? && x in lex.scope && Resolves(env.table, x, env.level, lex.scope[x])
  }

  /**
    Lexical addressing by the compiler's own table, name by name: where the table resolves a name
    in scope, and there only, the level difference and the address it gives are the name's own;
    and then they are those of a variable in the owner's record, or of a procedure whose parent is
    where its static link will go.
   */
  lemma TableSound(b: Block, i: nat, x: string)
    requires LevelsFit(b.decls, 0) && i < |LexProgram(b)| && LexProgram(b)[i].env.Find(x).Some?
    ensures |Elaborate(b)| == |LexProgram(b)| && Elaborate(b)[i].env.FromTable?
    ensures Elaborate(b)[i].env.Find(x) == LexProgram(b)[i].env.Find(x) <==> Resolved(b, i, x)
    ensures Resolved(b, i, x) ==>
      var s := GetSymbol(Elaborate(b)[i].env.table, x, LexProgram(b)[i].level);
      s.Some? && SoundName(LexProgram(b), i, Meaning(s.value, LexProgram(b)[i].level))
  {
    hide LexProgram, Elaborate, SoundEnv, SoundName, GetSymbol, Resolves;
    LexicalSound(b);
    ProgramsAlike(b);
    var p, q := Elaborate(b)[i], LexProgram(b)[i];
    assert AlikeProc(p, q);
    ResolvesExact(p.env.table, x, p.env.level, q.env.scope[x]);
    SoundFind(LexProgram(b), i, x);
  }

  lemma SoundFind(prog: Prog, i: nat, x: string)
    requires i < |prog| && SoundEnv(prog, i) && prog[i].env.Find(x).Some?
    ensures SoundName(prog, i, prog[i].env.Find(x).value)
  {
  }

  /** The code sets of a compact program are those of its PL/0 meaning, procedure by procedure. */
  lemma CompactHolds(toks: seq<Token>, b: Block)
    requires Compact(b) && TextOf(toks, b)
    ensures Holds(ParseProgram(toks).st.code, LexProgram(b))
  {
    hide ParseProgram, LexProgram, Elaborate, ProcCode, RegistersFit, WellFormedBlock, Clear, SameProcs, WellTyped,
         Used;
    CompactAgree(b);
    ParseHolds(toks);
    var prog, lex, u := Elaborate(b), LexProgram(b), Used(LexProgram(b));
    var c := ParseProgram(toks).st.code;
    forall i | 0 <= i < |lex|
      ensures Get(c, i) == ProcCode(lex, i, -1)
    {
      SameProcCode(prog, u, i, -1);
      SameProcCode(lex, u, i, -1);
    }
  }

  /** How long the code of a compact program is, by its PL/0 meaning. */
  lemma CompactLength(toks: seq<Token>, b: Block)
    requires Compact(b) && TextOf(toks, b)
    ensures LexProgram(b) != [] && |CompiledCode(toks)| == |LexProgram(b)| + CodeSize(LexProgram(b), 0)
  {
    hide ParseProgram, LexProgram, Compilable, ProcCode, CodeSize;
    CompactHolds(toks, b);
    HeldLength(ParseProgram(toks).st.code, LexProgram(b));
  }

  /** The code of a compilable program, where its PL/0 meaning wants it. */
  lemma CompilableLoads(toks: seq<Token>, b: Block, pads: Pads) returns (entry: seq<int>)
    requires Compilable(b, pads) && TextOf(toks, b) && |CompiledCode(toks)| < MAX_CODE_LENGTH
    ensures Spaced(CompiledCode(toks), PaddedProgram(b, pads), entry)
  {
    hide ParseProgram, LexProgram, Elaborate, Compilable, Holds, PaddedProgram, Used, Widen, SameProcs, WellTyped,
         Leafy, RegistersFit, Spaced, WellFormedBlock;
    CompilableAgree(b, pads);
    CompilableReads(b, pads);
    var u := Used(PaddedProgram(b, pads));
    ReadingAccepted(toks, b, pads, u);
    ParseHolds(toks);
    entry := LinkLoads(ParseProgram(toks).st.code, Elaborate(b));
    SpacedWide(CompiledCode(toks), Elaborate(b), pads, entry);
    SpacedSame(CompiledCode(toks), Widen(Elaborate(b), pads), u, PaddedProgram(b, pads), entry);
  }

  /** Linked code does as well for longer records of procedures that make no call. */
  lemma SpacedWide(code: seq<Instruction>, prog: Prog, pads: Pads, entry: seq<int>)
    requires Loaded(code, prog, entry) && Leafy(prog, pads) && RegistersFit(prog)
    ensures Spaced(code, Widen(prog, pads), entry)
  {
    LoadedWide(code, prog, pads, entry);
    LoadedSpaced(code, prog, entry);
    hide Loaded, Placed, Leafy;
  }

  /** Linked code does as well under another lookup that gives the names used the same meanings. */
  lemma SpacedSame(code: seq<Instruction>, a: Prog, u: Prog, b: Prog, entry: seq<int>)
    requires Spaced(code, a, entry) && SameProcs(a, u) && SameProcs(b, u) && WellTyped(u)
    ensures Spaced(code, b, entry)
  {
    hide Refines, GoodStmt, NoCall, CompileStmt;
    forall i | 0 <= i < |b|
      ensures PlacedAt(code, b, i, entry[i]) && code[entry[i]].m <= b[i].vars + HEADER
    {
      assert PlacedAt(code, a, i, entry[i]);
      SameProcCode(a, u, i, entry[i]);
      SameProcCode(b, u, i, entry[i]);
      SameRoom(a, b, i, entry[i], code[entry[i]].m);
    }
  }

  lemma SameRoom(a: Prog, b: Prog, i: nat, entry: int, room: int)
    requires i < |a| == |b| && a[i].vars == b[i].vars && ProcCode(a, i, entry) == ProcCode(b, i, entry)
    ensures RoomCode(a, i, entry, room) == RoomCode(b, i, entry, room)
  {
    hide CompileStmt;
    assert RoomCode(a, i, entry, room) == [Instruction(INC, 0, 0, room)] + ProcCode(a, i, entry)[1..];
    assert RoomCode(b, i, entry, room) == [Instruction(INC, 0, 0, room)] + ProcCode(b, i, entry)[1..];
  }

  /**
    Safety of compiled PL/0. For every compilable program that assigns to variables only, and any
    input, after any number of turns: either the INC of a procedure has been reached whose record
    does not fit the stack, which none is when all that can be live fit, or: the machine has not
    run out of its code; if it is still running its stack is a list of activation records linked
    along the program's nesting; and if it has stopped, it did so at the program's own halt, at a
    zero divisor, at a call without room, or at too many nested calls.
   */
  lemma SafePl0(b: Block, pads: Pads, input: seq<int>, n: nat) returns (entry: seq<int>, r: Calls)
    requires Compilable(b, pads) && Assigning(b)
    requires |CompiledCode(RenderProgram(b))| < MAX_CODE_LENGTH
    ensures var code, prog := CompiledCode(RenderProgram(b)), PaddedProgram(b, pads);
            && Spaced(code, prog, entry)
            && 0 < |prog| == |entry|
            && (Overran(code, prog, entry, InitState(input), n) || SafeAt(code, prog, entry, InitState(input), r, n))
            && (RecordsFit(prog) ==> !Overran(code, prog, entry, InitState(input), n))
  {
    hide Compilable, PaddedProgram, RenderProgram, CompiledCode, Inv, InitState, Run, RecordsFit, SafeAt, Overran,
         Spaced, SoundProgram, TextOf, Assigning;
    AssigningSound(b, pads);
    CompilableParses(b, pads);
    entry := CompilableLoads(RenderProgram(b), b, pads);
    SpacedSize(CompiledCode(RenderProgram(b)), PaddedProgram(b, pads), entry);
    r := RunSafe(CompiledCode(RenderProgram(b)), PaddedProgram(b, pads), entry, input, n);
    if RecordsFit(PaddedProgram(b, pads)) {
      SmallRoom(CompiledCode(RenderProgram(b)), PaddedProgram(b, pads), entry, input, n);
    }
  }
}
