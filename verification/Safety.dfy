/**
  What holds in every state a linked program can reach, whether or not its run ends well: the
  stack is a list of activation records, and control is in the code of the top one.
 */
module Safety {
  import opened Common
  import opened Machine
  import opened Syntax
  import opened Symbols
  import opened Compile
  import opened Semantics
  import opened Records
  import opened ExprCorrect
  import opened StmtCorrect
  import opened Standard
  import opened CodeShape

  /** A program whose every name is sound, and whose procedures all return. */
  ghost predicate SoundProgram(prog: Prog) {
    && Tree(prog)
    && (forall i :: 0 <= i < |prog| ==> Sound(prog, i, prog[i].body, 0))
    && (forall i :: 0 < i < |prog| ==> Returns(prog[i].body))
  }

  /** Linked code in which no INC makes room for more than the record, and less only where no call is made. */
  ghost predicate Spaced(code: seq<Instruction>, prog: Prog, entry: seq<int>) {
    && Placed(code, prog, entry)
    && forall i :: 0 <= i < |prog| ==> 0 <= entry[i] < |code| && code[entry[i]].m <= prog[i].vars + HEADER
  }

  lemma LoadedSpaced(code: seq<Instruction>, prog: Prog, entry: seq<int>)
    requires Loaded(code, prog, entry)
    ensures Spaced(code, prog, entry)
  {
    LoadedPlaced(code, prog, entry);
    hide CompileStmt, NoCall, Placed;
    forall i | 0 <= i < |prog|
      ensures 0 <= entry[i] < |code| && code[entry[i]].m <= prog[i].vars + HEADER
    {
      var c := ProcCode(prog, i, entry[i]);
      assert code[entry[i]] == code[entry[i]..entry[i] + |c|][0] == c[0];
    }
  }

  /** The live records, newest last, and the return address each was entered with. */
  datatype Calls = Calls(frames: seq<Frame>, ras: seq<int>)

  /** First index behind the code of procedure `i`. */
  function EndOf(prog: Prog, entry: seq<int>, i: nat): int
    requires i < |prog| == |entry|
  {
    entry[i] + |ProcCode(prog, i, entry[i])|
  }

  /** Places in the code of procedure `i` that nothing leads to. */
  function Dead(prog: Prog, entry: seq<int>, i: nat): set<int>
    requires i < |prog| == |entry|
  {
    if i == 0 then {} else Joins(prog[i].body, entry[i] + 1, 0, prog[i].env)
  }

  /** Between two instructions of procedure `i`, past its INC, where control can be. */
  predicate Inside(prog: Prog, entry: seq<int>, i: nat, pc: int)
    requires i < |prog| == |entry|
  {
    entry[i] < pc < EndOf(prog, entry, i) && pc !in Dead(prog, entry, i)
  }

  /**
    Record `i` is one of a procedure's, with no variable's value noted. The first is the
    program's; any other was called from code of the one below, and its static link goes to a
    record of the procedure's parent.
   */
  ghost predicate ChainedAt(prog: Prog, entry: seq<int>, code: seq<Instruction>, r: Calls, i: nat)
    requires |prog| == |entry| && i < |r.frames| == |r.ras|
  {
    var f := r.frames[i];
    && f.proc < |prog| && f == NewFrame(f.proc, f.link, prog[f.proc].vars)
    && (if i == 0 then f.proc == 0
        else
          && f.proc > 0 && f.link < i && r.frames[f.link].proc == prog[f.proc].parent
          && r.frames[i - 1].proc < |prog| && Inside(prog, entry, r.frames[i - 1].proc, r.ras[i])
          && 0 < r.ras[i] <= |code| && code[r.ras[i] - 1].op == CAL)
  }

  /** The live records, from the program's on, each called from the one below. */
  ghost predicate Chained(prog: Prog, entry: seq<int>, code: seq<Instruction>, r: Calls)
    requires |prog| == |entry|
  {
    && 0 < |r.frames| == |r.ras|
    && LinksDown(r.frames)
    && (forall i :: 0 <= i < |r.frames| ==> r.frames[i].proc < |prog|)
    && (forall i :: 0 <= i < |r.frames| ==> ChainedAt(prog, entry, code, r, i))
  }

  /** CAL has written the header of the top record; INC has not yet moved sp over it. */
  ghost predicate Entering(r: Calls, s: State)
    requires 0 < |r.frames| == |r.ras|
  {
    var n := |r.frames| - 1;
    var f, below := r.frames[n], r.frames[..n];
    && s.bp == s.sp + 1
    && s.sp == Height(below)
    && (n > 0 ==>
          && Laid(below, r.ras[..n], s.stack)
          && f.link < n
          && s.sp + 4 < |s.stack|
          && s.stack[s.sp + 2] == BaseOf(below, f.link)
          && s.stack[s.sp + 3] == BaseOf(below, n - 1)
          && s.stack[s.sp + 4] == r.ras[n])
  }

  /** bp and sp are at the two ends of the top record. */
  predicate Settled(r: Calls, s: State) {
    0 < |r.frames| && s.bp == BaseOf(r.frames, |r.frames| - 1) && s.sp == Height(r.frames)
  }

  /** The same, but that where no call is made some of the record may be above sp. */
  predicate Resting(prog: Prog, r: Calls, s: State) {
    && 0 < |r.frames| && s.bp == BaseOf(r.frames, |r.frames| - 1) && s.sp <= Height(r.frames)
    && var top := r.frames[|r.frames| - 1].proc;
       s.sp == Height(r.frames) || (top < |prog| && NoCall(prog[top].body))
  }

  /** The invariant of a running machine. */
  ghost predicate Inv(code: seq<Instruction>, prog: Prog, entry: seq<int>, r: Calls, s: State)
    requires |prog| == |entry|
  {
    && s.status == RUNNING
    && |s.regs| == COMMON_REGISTER_NUMBER && |s.stack| == MAX_STACK_HEIGHT
    && Chained(prog, entry, code, r)
    && s.frameLevel == |r.frames| - 1 <= MAX_LEXI_LEVELS
    && var top := r.frames[|r.frames| - 1].proc;
       || (Laid(r.frames, r.ras, s.stack) && Resting(prog, r, s) && Inside(prog, entry, top, s.pc))
       || (Entering(r, s) && (s.pc == top || s.pc == entry[top]))
  }

  /** In front of the INC of a procedure whose record does not fit the stack; the machine does not notice. */
  ghost predicate Overruns(entry: seq<int>, r: Calls, s: State) {
    && 0 < |r.frames| == |r.ras| && Height(r.frames) >= MAX_STACK_HEIGHT
    && var top := r.frames[|r.frames| - 1].proc;
       top < |entry| && s.pc == entry[top] && Entering(r, s)
  }

  /** What one step does to the records: nothing, push one, or pop one. */
  ghost predicate Moves(a: Calls, b: Calls) {
    || b == a
    || (|b.frames| == |a.frames| + 1 && |b.ras| == |a.ras| + 1
        && b.frames[..|a.frames|] == a.frames && b.ras[..|a.ras|] == a.ras)
    || (|a.frames| == |b.frames| + 1 && |a.ras| == |b.ras| + 1
        && a.frames[..|b.frames|] == b.frames && a.ras[..|b.ras|] == b.ras)
  }

  /** The only reasons for which a sound program's step can be undefined. */
  predicate Excusable(ins: Instruction, s: State) {
    || (ins.op == DIV && InRegs(ins.m) && |s.regs| == COMMON_REGISTER_NUMBER && s.regs[ins.m] == 0)
    || (ins.op == CAL && (s.sp + 4 >= MAX_STACK_HEIGHT || s.frameLevel >= MAX_LEXI_LEVELS))
    || (ins.op == RTN && s.frameLevel >= MAX_LEXI_LEVELS)
  }

  // ---------- where an instruction stands ----------

  /** The instruction at a place inside procedure `i`: allowed there, and control stays inside. */
  lemma Fetch(code: seq<Instruction>, prog: Prog, entry: seq<int>, i: nat, pc: int)
    requires Spaced(code, prog, entry) && SoundProgram(prog) && i < |prog| && Inside(prog, entry, i, pc)
    ensures 0 <= pc < |code|
    ensures var ins := code[pc];
            || (i == 0 && pc == EndOf(prog, entry, 0) - 1 && ins == Instruction(SIO, 0, 0, 3))
            || (&& Allowed(prog, i, ins)
                && (ins.op != RTN ==> Inside(prog, entry, i, pc + 1))
                && (ins.op == JMP || ins.op == JPC ==> Inside(prog, entry, i, ins.m)))
  {
    if i > 0 {
      FetchBody(code, prog, entry, i, pc);
    } else {
      FetchMain(code, prog, entry, pc);
    }
  }

  /** Instruction `k` behind the INC of a procedure. */
  lemma BodyIndex(code: seq<Instruction>, prog: Prog, entry: seq<int>, i: nat, k: nat)
    requires Placed(code, prog, entry) && i < |prog|
    requires k < |CompileStmt(prog[i].body, entry[i] + 1, 0, prog[i].env, i > 0)|
    ensures 0 <= entry[i] && entry[i] + 1 + k < |code|
    ensures code[entry[i] + 1 + k] == CompileStmt(prog[i].body, entry[i] + 1, 0, prog[i].env, i > 0)[k]
  {
    PlacedCode(code, prog, entry, i);
    hide CompileStmt, Placed;
    var e := entry[i];
    var all := RoomCode(prog, i, e, code[e].m);
    assert code[e + 1 + k] == code[e..e + |all|][1 + k] == all[1 + k];
  }

  lemma HaltIndex(code: seq<Instruction>, prog: Prog, entry: seq<int>)
    requires Placed(code, prog, entry)
    ensures 0 < |prog| == |entry| && 0 < EndOf(prog, entry, 0) <= |code|
    ensures code[EndOf(prog, entry, 0) - 1] == Instruction(SIO, 0, 0, 3)
  {
    PlacedCode(code, prog, entry, 0);
    hide CompileStmt, Placed;
    var e := entry[0];
    var all := RoomCode(prog, 0, e, code[e].m);
    assert code[e + |all| - 1] == code[e..e + |all|][|all| - 1] == all[|all| - 1];
  }

  lemma EndBehind(prog: Prog, entry: seq<int>, i: nat)
    requires i < |prog| == |entry|
    ensures EndOf(prog, entry, i)
         == entry[i] + 1 + |CompileStmt(prog[i].body, entry[i] + 1, 0, prog[i].env, i > 0)| + if i == 0 then 1 else 0
  {
    hide CompileStmt;
  }

  lemma PlacedSize(code: seq<Instruction>, prog: Prog, entry: seq<int>)
    requires Placed(code, prog, entry)
    ensures 0 < |prog| == |entry| && |code| < MAX_CODE_LENGTH
  {
    hide PlacedAt;
  }

  lemma BodySound(prog: Prog, i: nat)
    requires SoundProgram(prog) && i < |prog|
    ensures Sound(prog, i, prog[i].body, 0) && (i > 0 ==> Returns(prog[i].body))
  {
    hide Sound, Tree;
  }

  lemma FetchBody(code: seq<Instruction>, prog: Prog, entry: seq<int>, i: nat, pc: int)
    requires Placed(code, prog, entry) && SoundProgram(prog) && 0 < i < |prog| && Inside(prog, entry, i, pc)
    ensures 0 <= pc < |code| && Allowed(prog, i, code[pc])
    ensures code[pc].op != RTN ==> Inside(prog, entry, i, pc + 1)
    ensures code[pc].op == JMP || code[pc].op == JPC ==> Inside(prog, entry, i, code[pc].m)
  {
    hide CompileStmt, SoundProgram, Sound, Placed, Joins, Allowed, EndOf, Returns;
    PlacedSize(code, prog, entry);
    BodySound(prog, i);
    BodyFlows(prog, i, prog[i].body, entry[i] + 1, 0);
    EndBehind(prog, entry, i);
    BodyIndex(code, prog, entry, i, pc - entry[i] - 1);
  }

  lemma FetchMain(code: seq<Instruction>, prog: Prog, entry: seq<int>, pc: int)
    requires Placed(code, prog, entry) && SoundProgram(prog) && Inside(prog, entry, 0, pc)
    ensures 0 <= pc < |code|
    ensures var ins := code[pc];
            || (pc == EndOf(prog, entry, 0) - 1 && ins == Instruction(SIO, 0, 0, 3))
            || (Allowed(prog, 0, ins) && Inside(prog, entry, 0, pc + 1)
                && (ins.op == JMP || ins.op == JPC ==> Inside(prog, entry, 0, ins.m)))
  {
    hide CompileStmt, SoundProgram, Sound, Placed, Joins, Allowed, EndOf;
    PlacedSize(code, prog, entry);
    BodySound(prog, 0);
    StmtShaped(prog, 0, prog[0].body, entry[0] + 1, 0);
    EndBehind(prog, entry, 0);
    HaltIndex(code, prog, entry);
    if pc != EndOf(prog, entry, 0) - 1 {
      BodyIndex(code, prog, entry, 0, pc - entry[0] - 1);
    }
  }

  // ---------- lexical addressing ----------

  /** Following k static links from a record reaches a record of the procedure k levels out. */
  lemma {:induction false} ChainHop(code: seq<Instruction>, prog: Prog, entry: seq<int>, r: Calls, i: nat, k: int)
    requires |prog| == |entry| && Tree(prog) && Chained(prog, entry, code, r)
    requires i < |r.frames| && 0 <= k <= prog[r.frames[i].proc].level
    ensures var h := Hop(r.frames, i, k);
            h.Some? && h.value <= i && r.frames[h.value].proc == Ancestor(prog, r.frames[i].proc, k)
    decreases k
  {
    hide Inside, NewFrame;
    assert ChainedAt(prog, entry, code, r, i);
    if k > 0 {
      assert i > 0;
      ChainHop(code, prog, entry, r, r.frames[i].link, k - 1);
    }
  }

  /** A sound variable of the top record's procedure has a place in a live record. */
  lemma SoundLocated(code: seq<Instruction>, prog: Prog, entry: seq<int>, r: Calls, hops: int, addr: int)
    requires |prog| == |entry| && Tree(prog) && Chained(prog, entry, code, r)
    requires SoundName(prog, r.frames[|r.frames| - 1].proc, Binding(VAR, hops, addr, 0))
    ensures Locate(r.frames, hops, addr).Some?
  {
    hide Inside, Tree, LinksDown;
    ChainHop(code, prog, entry, r, |r.frames| - 1, hops);
    var h := Hop(r.frames, |r.frames| - 1, hops).value;
    assert ChainedAt(prog, entry, code, r, h);
  }

  // ---------- steps ----------

  lemma {:induction false} Forget(frames: seq<Frame>, frames': seq<Frame>, ras: seq<int>, stack: seq<int>)
    requires Laid(frames', ras, stack) && SameShape(frames, frames')
    requires forall i, k :: 0 <= i < |frames| && 0 <= k < |frames[i].vars| ==> frames[i].vars[k] == None
    ensures Laid(frames, ras, stack)
  {
    SameHeight(frames, frames');
    assert LinksDown(frames);
    forall i | 0 <= i < |frames|
      ensures FrameAt(frames, ras, stack, i)
    {
      assert FrameAt(frames', ras, stack, i);
      SameBase(frames, frames', i);
      if i > 0 {
        SameBase(frames, frames', i - 1);
        SameBase(frames, frames', frames[i].link);
      }
    }
  }

  /** A store to a sound variable leaves every header as it is. */
  lemma StoreKeeps(code: seq<Instruction>, prog: Prog, entry: seq<int>, r: Calls, s: State, hops: int, addr: int,
                   v: int)
    requires |prog| == |entry| && Tree(prog) && Chained(prog, entry, code, r)
    requires Laid(r.frames, r.ras, s.stack) && s.bp == BaseOf(r.frames, |r.frames| - 1)
    requires SoundName(prog, r.frames[|r.frames| - 1].proc, Binding(VAR, hops, addr, 0))
    ensures var a := Address(s.stack, hops, s.bp, addr);
            a.Some? && Laid(r.frames, r.ras, s.stack[a.value := v])
  {
    hide Inside;
    SoundLocated(code, prog, entry, r, hops, addr);
    var (j, k) := Locate(r.frames, hops, addr).value;
    LocateAddress(r.frames, r.ras, s.stack, hops, addr);
    WriteLaid(r.frames, r.ras, s.stack, j, k, v);
    var a := Address(s.stack, hops, s.bp, addr).value;
    forall i, l | 0 <= i < |r.frames| && 0 <= l < |r.frames[i].vars|
      ensures r.frames[i].vars[l] == None
    {
      assert ChainedAt(prog, entry, code, r, i);
    }
    Forget(r.frames, SetVar(r.frames, j, k, v), r.ras, s.stack[a := v]);
  }

  /** The step over a jump-table entry or an INC. */
  lemma EnterStep(code: seq<Instruction>, prog: Prog, entry: seq<int>, r: Calls, s: State)
    requires Spaced(code, prog, entry) && SoundProgram(prog) && Inv(code, prog, entry, r, s)
    requires var top := r.frames[|r.frames| - 1].proc;
             Entering(r, s) && (s.pc == top || s.pc == entry[top])
    requires !Overruns(entry, r, s)
    ensures Inv(code, prog, entry, r, Step(code, s))
  {
    PlacedSize(code, prog, entry);
    InvParts(code, prog, entry, r, s);
    hide EndOf, SoundProgram, Chained, Entering, Laid, Inside, NoCall, Spaced, Step, Resting, Inv, Overruns;
    var top := r.frames[|r.frames| - 1].proc;
    EntryStep(code, prog, entry, top);
    var s' := Step(code, s);
    if s.pc == top {
      JumpStep(code, s, entry[top]);
      EnteringMoved(r, s, entry[top]);
      EnteredInv(code, prog, entry, r, s');
    } else {
      RoomStep(code, s);
      RoomResting(code, prog, entry, r, s, s', code[entry[top]].m);
      RestingInv(code, prog, entry, r, s');
    }
  }

  lemma InvParts(code: seq<Instruction>, prog: Prog, entry: seq<int>, r: Calls, s: State)
    requires |prog| == |entry| && Inv(code, prog, entry, r, s)
    ensures Chained(prog, entry, code, r) && 0 < |r.frames| == |r.ras| && r.frames[|r.frames| - 1].proc < |prog|
    ensures s.status == RUNNING && |s.regs| == COMMON_REGISTER_NUMBER && |s.stack| == MAX_STACK_HEIGHT
    ensures s.frameLevel == |r.frames| - 1 <= MAX_LEXI_LEVELS
  {
    hide Laid, Entering, ChainedAt;
  }

  lemma JumpStep(code: seq<Instruction>, s: State, target: int)
    requires s.status == RUNNING && 0 <= s.pc < |code| < MAX_CODE_LENGTH
    requires code[s.pc] == Instruction(JMP, 0, 0, target)
    ensures Step(code, s) == s.(pc := target)
  {
  }

  lemma RoomStep(code: seq<Instruction>, s: State)
    requires s.status == RUNNING && 0 <= s.pc < |code| < MAX_CODE_LENGTH && code[s.pc].op == INC
    ensures Step(code, s) == s.(pc := s.pc + 1, sp := s.sp + code[s.pc].m)
  {
  }

  /** Behind the INC the record is there, and sp no further than its end. */
  lemma RoomResting(code: seq<Instruction>, prog: Prog, entry: seq<int>, r: Calls, s: State, s': State, room: int)
    requires |prog| == |entry| && Chained(prog, entry, code, r) && |s.stack| == MAX_STACK_HEIGHT
    requires 0 < |r.frames| == |r.ras| && Entering(r, s)
    requires r.frames[|r.frames| - 1].proc < |prog| && s.pc == entry[r.frames[|r.frames| - 1].proc]
    requires !Overruns(entry, r, s) && s'.stack == s.stack && s'.bp == s.bp && s'.sp == s.sp + room
    requires var p := prog[r.frames[|r.frames| - 1].proc];
             room <= p.vars + HEADER && (room == p.vars + HEADER || NoCall(p.body))
    ensures Laid(r.frames, r.ras, s'.stack) && Resting(prog, r, s')
  {
    hide Chained, Entering, Laid, NoCall, Height;
    RecordMade(code, prog, entry, r, s);
  }

  lemma RestingInv(code: seq<Instruction>, prog: Prog, entry: seq<int>, r: Calls, s: State)
    requires |prog| == |entry| && Chained(prog, entry, code, r) && 0 < |r.frames| == |r.ras|
    requires s.status == RUNNING && |s.regs| == COMMON_REGISTER_NUMBER && |s.stack| == MAX_STACK_HEIGHT
    requires s.frameLevel == |r.frames| - 1 <= MAX_LEXI_LEVELS && r.frames[|r.frames| - 1].proc < |prog|
    requires Laid(r.frames, r.ras, s.stack) && Resting(prog, r, s)
    requires Inside(prog, entry, r.frames[|r.frames| - 1].proc, s.pc)
    ensures Inv(code, prog, entry, r, s)
  {
    hide Chained, Laid, Resting, Inside, Entering;
  }

  lemma EnteringMoved(r: Calls, s: State, pc: int)
    requires 0 < |r.frames| == |r.ras| && Entering(r, s)
    ensures Entering(r, s.(pc := pc))
  {
  }

  lemma TopProc(code: seq<Instruction>, prog: Prog, entry: seq<int>, r: Calls) returns (top: nat)
    requires |prog| == |entry| && Chained(prog, entry, code, r)
    ensures 0 < |r.frames| == |r.ras|
    ensures top == r.frames[|r.frames| - 1].proc < |prog|
    ensures r.frames[|r.frames| - 1] == NewFrame(top, r.frames[|r.frames| - 1].link, prog[top].vars)
    ensures LinksDown(r.frames)
  {
    hide Inside;
    top := r.frames[|r.frames| - 1].proc;
    assert ChainedAt(prog, entry, code, r, |r.frames| - 1);
  }

  /** Once INC has moved sp over it, the header CAL wrote is that of a record like the others. */
  lemma RecordMade(code: seq<Instruction>, prog: Prog, entry: seq<int>, r: Calls, s: State)
    requires |prog| == |entry| && Chained(prog, entry, code, r) && Entering(r, s)
    requires |s.stack| == MAX_STACK_HEIGHT && Height(r.frames) < MAX_STACK_HEIGHT
    ensures Laid(r.frames, r.ras, s.stack)
    ensures s.bp == BaseOf(r.frames, |r.frames| - 1)
    ensures s.sp + prog[r.frames[|r.frames| - 1].proc].vars + HEADER == Height(r.frames)
  {
    hide Inside, Chained, Laid;
    var n := |r.frames| - 1;
    var top := TopProc(code, prog, entry, r);
    var f, below := r.frames[n], r.frames[..n];
    assert r.frames == below + [f] && r.ras == r.ras[..n] + [r.ras[n]];
    if n > 0 {
      PushLaid(below, r.ras[..n], s.stack, f, r.ras[n]);
    } else {
      FirstLaid(r.frames, r.ras, s.stack);
    }
  }

  lemma FirstLaid(frames: seq<Frame>, ras: seq<int>, stack: seq<int>)
    requires |frames| == |ras| == 1 && |stack| == MAX_STACK_HEIGHT
    requires forall k :: 0 <= k < |frames[0].vars| ==> frames[0].vars[k] == None
    requires HEADER + |frames[0].vars| < MAX_STACK_HEIGHT
    ensures Laid(frames, ras, stack) && BaseOf(frames, 0) == 1 && Height(frames) == HEADER + |frames[0].vars|
  {
    assert frames[..0] == [];
    assert Height(frames) == HEADER + |frames[0].vars|;
    assert FrameAt(frames, ras, stack, 0);
  }

  lemma EntryStep(code: seq<Instruction>, prog: Prog, entry: seq<int>, i: nat)
    requires Spaced(code, prog, entry) && SoundProgram(prog) && i < |prog|
    ensures i < |code| && code[i] == Instruction(JMP, 0, 0, entry[i])
    ensures 0 <= entry[i] < |code| && code[entry[i]].op == INC && code[entry[i]].m <= prog[i].vars + HEADER
    ensures code[entry[i]].m == prog[i].vars + HEADER || NoCall(prog[i].body)
    ensures Inside(prog, entry, i, entry[i] + 1)
  {
    PlacedCode(code, prog, entry, i);
    var e := entry[i];
    var c := RoomCode(prog, i, e, code[e].m);
    assert code[e] == code[e..e + |c|][0] == c[0];
    if i > 0 {
      BodyFlows(prog, i, prog[i].body, e + 1, 0);
    }
    hide CompileStmt, Sound, NoCall, Joins;
    assert PlacedAt(code, prog, i, e);
  }

  lemma CallStep(code: seq<Instruction>, prog: Prog, entry: seq<int>, r: Calls, s: State, ins: Instruction)
    returns (r': Calls)
    requires Spaced(code, prog, entry) && SoundProgram(prog) && Inv(code, prog, entry, r, s)
    requires Laid(r.frames, r.ras, s.stack) && Settled(r, s)
    requires var top := r.frames[|r.frames| - 1].proc;
             Inside(prog, entry, top, s.pc) && Inside(prog, entry, top, s.pc + 1)
    requires 0 <= s.pc < |code| && ins == code[s.pc] && ins.op == CAL
    requires Allowed(prog, r.frames[|r.frames| - 1].proc, ins)
    ensures Step(code, s).status == RUNNING ==> Inv(code, prog, entry, r', Step(code, s)) && Moves(r, r')
    ensures Step(code, s).status == RUNNING || (Step(code, s).status == UNDEFINED && Excusable(ins, s))
    ensures Step(code, s).status == RUNNING ==>
      |r.frames| < |r'.ras| && |r'.frames| == |r.frames| + 1 && r'.ras[|r.frames|] == s.pc + 1
  {
    SpacedSize(code, prog, entry);
    CallTarget(code, prog, entry, r, ins);
    var link := Hop(r.frames, |r.frames| - 1, ins.l).value;
    r' := WithCall(prog, r, ins.m, link, s.pc + 1);
    hide EndOf, ProcCode, Chained, SoundProgram, Spaced, Inside, Laid, Allowed, Step, Entering, Settled, WithCall,
         Moves;
    CallRoom(code, s);
    if s.sp + 4 < MAX_STACK_HEIGHT && s.frameLevel < MAX_LEXI_LEVELS {
      CallPushes(code, prog, entry, r, s, link);
      CallMoves(prog, r, ins.m, link, s.pc + 1);
    }
  }

  /** The records with one more for procedure `i`, returning to `ra`. */
  function WithCall(prog: Prog, r: Calls, i: nat, link: nat, ra: int): Calls
    requires i < |prog|
  {
    Calls(r.frames + [NewFrame(i, link, prog[i].vars)], r.ras + [ra])
  }

  lemma CallMoves(prog: Prog, r: Calls, i: nat, link: nat, ra: int)
    requires i < |prog| && |r.frames| == |r.ras|
    ensures var r' := WithCall(prog, r, i, link, ra);
            Moves(r, r') && |r'.frames| == |r.frames| + 1 && |r'.ras| == |r'.frames| && r'.ras[|r.frames|] == ra
  {
    var r' := WithCall(prog, r, i, link, ra);
    assert r'.frames[..|r.frames|] == r.frames && r'.ras[..|r.ras|] == r.ras;
  }

  /** A call with room for its header, and not too many open, leads to the jump-table slot of the callee. */
  lemma CallPushes(code: seq<Instruction>, prog: Prog, entry: seq<int>, r: Calls, s: State, link: nat)
    requires |prog| == |entry| && |code| < MAX_CODE_LENGTH && Inv(code, prog, entry, r, s)
    requires 0 < |r.frames| == |r.ras| && Laid(r.frames, r.ras, s.stack) && Settled(r, s)
    requires 0 <= s.pc < |code| && code[s.pc].op == CAL && 0 < code[s.pc].m < |prog|
    requires r.frames[|r.frames| - 1].proc < |prog| && Inside(prog, entry, r.frames[|r.frames| - 1].proc, s.pc + 1)
    requires Hop(r.frames, |r.frames| - 1, code[s.pc].l) == Some(link) && link < |r.frames|
    requires r.frames[link].proc == prog[code[s.pc].m].parent
    requires s.sp + 4 < MAX_STACK_HEIGHT && s.frameLevel < MAX_LEXI_LEVELS
    ensures Inv(code, prog, entry, WithCall(prog, r, code[s.pc].m, link, s.pc + 1), Step(code, s))
  {
    hide EndOf, Chained, Inside, Laid, Step, Entering, Base, CallStack, Resting;
    var f := NewFrame(code[s.pc].m, link, prog[code[s.pc].m].vars);
    HeaderWritten(r.frames, r.ras, s, code[s.pc].l, s.pc + 1, link);
    CallMade(code, s, BaseOf(r.frames, link));
    ChainedPush(code, prog, entry, r, f, s.pc + 1);
    PushEnters(r, s, link, f, Step(code, s));
    hide Inv;
    EnteredInv(code, prog, entry, Calls(r.frames + [f], r.ras + [s.pc + 1]), Step(code, s));
  }

  lemma EnteredInv(code: seq<Instruction>, prog: Prog, entry: seq<int>, r: Calls, s: State)
    requires |prog| == |entry| && Chained(prog, entry, code, r) && 0 < |r.frames| == |r.ras| && Entering(r, s)
    requires s.status == RUNNING && |s.regs| == COMMON_REGISTER_NUMBER && |s.stack| == MAX_STACK_HEIGHT
    requires s.frameLevel == |r.frames| - 1 <= MAX_LEXI_LEVELS && r.frames[|r.frames| - 1].proc < |prog|
    requires var top := r.frames[|r.frames| - 1].proc; s.pc == top || s.pc == entry[top]
    ensures Inv(code, prog, entry, r, s)
  {
    hide Chained, Entering, Laid, Inside;
  }

  lemma SpacedSize(code: seq<Instruction>, prog: Prog, entry: seq<int>)
    requires Spaced(code, prog, entry)
    ensures 0 < |prog| == |entry| && |code| < MAX_CODE_LENGTH
  {
    PlacedSize(code, prog, entry);
  }

  /** The procedure a CAL names, and where its static link will go. */
  lemma CallTarget(code: seq<Instruction>, prog: Prog, entry: seq<int>, r: Calls, ins: Instruction)
    requires |prog| == |entry| && SoundProgram(prog) && Chained(prog, entry, code, r) && ins.op == CAL
    requires Allowed(prog, r.frames[|r.frames| - 1].proc, ins)
    ensures 0 < |r.frames| == |r.ras| && 0 < ins.m < |prog|
    ensures var link := Hop(r.frames, |r.frames| - 1, ins.l);
            link.Some? && link.value < |r.frames| && r.frames[link.value].proc == prog[ins.m].parent
  {
    hide Inside, ChainedAt, NoCall, Sound;
    ChainHop(code, prog, entry, r, |r.frames| - 1, ins.l);
  }

  lemma CallRoom(code: seq<Instruction>, s: State)
    requires s.status == RUNNING && 0 <= s.pc < |code| < MAX_CODE_LENGTH && code[s.pc].op == CAL
    ensures s.sp + 4 >= |s.stack| || s.frameLevel >= MAX_LEXI_LEVELS ==> Step(code, s).status == UNDEFINED
  {
    hide Base;
  }

  lemma CallMade(code: seq<Instruction>, s: State, link: int)
    requires s.status == RUNNING && 0 <= s.pc < |code| < MAX_CODE_LENGTH && code[s.pc].op == CAL
    requires 0 <= s.sp && s.sp + 4 < |s.stack| && 0 <= s.frameLevel < MAX_LEXI_LEVELS
    requires Base(s.stack[s.sp + 1 := 0], code[s.pc].l, s.bp) == Some(link)
    ensures Step(code, s) == s.(stack := CallStack(s.stack, s.sp, link, s.bp, s.pc + 1), bp := s.sp + 1,
                                pc := code[s.pc].m, frameLevel := s.frameLevel + 1)
  {
    hide Base;
  }

  lemma PushEnters(r: Calls, s: State, link: nat, f: Frame, s': State)
    requires 0 < |r.frames| == |r.ras| && Settled(r, s) && link < |r.frames| && f.link == link
    requires s.sp + 4 < |s.stack|
    requires s'.stack == CallStack(s.stack, s.sp, BaseOf(r.frames, link), s.bp, s.pc + 1)
    requires s'.sp == s.sp && s'.bp == s.sp + 1 && Laid(r.frames, r.ras, s'.stack)
    ensures Entering(Calls(r.frames + [f], r.ras + [s.pc + 1]), s')
  {
    hide Laid, BaseOf, Height;
    assert (r.frames + [f])[..|r.frames|] == r.frames && (r.ras + [s.pc + 1])[..|r.ras|] == r.ras;
  }

  /** CAL finds the static link and leaves the live records as they were. */
  lemma HeaderWritten(frames: seq<Frame>, ras: seq<int>, s: State, hops: int, ra: int, link: nat)
    requires Laid(frames, ras, s.stack) && s.bp == BaseOf(frames, |frames| - 1) && s.sp == Height(frames)
    requires s.sp + 4 < |s.stack| && Hop(frames, |frames| - 1, hops) == Some(link)
    ensures link < |frames|
    ensures Base(s.stack[s.sp + 1 := 0], hops, s.bp) == Some(BaseOf(frames, link))
    ensures Laid(frames, ras, CallStack(s.stack, s.sp, BaseOf(frames, link), s.bp, ra))
  {
    hide FrameAt;
    var zeroed := s.stack[s.sp + 1 := 0];
    LaidAbove(frames, ras, s.stack, zeroed);
    BaseHop(frames, ras, zeroed, |frames| - 1, hops);
    LaidAbove(frames, ras, s.stack, CallStack(s.stack, s.sp, BaseOf(frames, link), s.bp, ra));
  }

  lemma ChainedPush(code: seq<Instruction>, prog: Prog, entry: seq<int>, r: Calls, f: Frame, ra: int)
    requires |prog| == |entry| && Chained(prog, entry, code, r)
    requires 0 < f.proc < |prog| && f.link < |r.frames| && f == NewFrame(f.proc, f.link, prog[f.proc].vars)
    requires r.frames[f.link].proc == prog[f.proc].parent
    requires Inside(prog, entry, r.frames[|r.frames| - 1].proc, ra)
    requires 0 < ra <= |code| && code[ra - 1].op == CAL
    ensures Chained(prog, entry, code, Calls(r.frames + [f], r.ras + [ra]))
  {
    hide NewFrame, Inside;
    var n := |r.frames|;
    var r' := Calls(r.frames + [f], r.ras + [ra]);
    forall i | 0 <= i < n + 1
      ensures ChainedAt(prog, entry, code, r', i)
    {
      if i < n {
        ChainedMore(code, prog, entry, r, r', i);
      }
    }
  }

  /** What holds of a record does not depend on those above it. */
  lemma ChainedMore(code: seq<Instruction>, prog: Prog, entry: seq<int>, r: Calls, r': Calls, i: nat)
    requires |prog| == |entry| && i < |r.frames| == |r.ras| && |r'.frames| == |r'.ras|
    requires r.frames <= r'.frames && r.ras <= r'.ras
    ensures ChainedAt(prog, entry, code, r, i) <==> ChainedAt(prog, entry, code, r', i)
  {
    hide NewFrame, Inside;
    assert r'.frames[i] == r.frames[i] && r'.ras[i] == r.ras[i];
    if i > 0 {
      assert r'.frames[i - 1] == r.frames[i - 1];
      assert r.frames[i].link < i ==> r'.frames[r.frames[i].link] == r.frames[r.frames[i].link];
    }
  }

  lemma ChainedPop(code: seq<Instruction>, prog: Prog, entry: seq<int>, r: Calls)
    requires |prog| == |entry| && Chained(prog, entry, code, r) && |r.frames| > 1
    ensures var n := |r.frames| - 1; Chained(prog, entry, code, Calls(r.frames[..n], r.ras[..n]))
  {
    hide NewFrame, Inside;
    var n := |r.frames| - 1;
    var r' := Calls(r.frames[..n], r.ras[..n]);
    forall i | 0 <= i < n
      ensures ChainedAt(prog, entry, code, r', i)
    {
      ChainedMore(code, prog, entry, r', r, i);
    }
  }

  lemma TopCalled(code: seq<Instruction>, prog: Prog, entry: seq<int>, r: Calls)
    requires |prog| == |entry| && Chained(prog, entry, code, r) && r.frames[|r.frames| - 1].proc > 0
    ensures var n := |r.frames| - 1;
            n > 0 && r.frames[n - 1].proc < |prog| && Inside(prog, entry, r.frames[n - 1].proc, r.ras[n])
  {
    hide Inside;
    assert ChainedAt(prog, entry, code, r, |r.frames| - 1);
  }

  /** What RTN finds in the header of the top record. */
  lemma ReturnHeader(frames: seq<Frame>, ras: seq<int>, stack: seq<int>)
    requires Laid(frames, ras, stack) && |frames| > 1
    ensures var n := |frames| - 1;
            var b := BaseOf(frames, n);
            && 1 < b && b + 3 < |stack|
            && stack[b + 2] == BaseOf(frames, n - 1) && stack[b + 3] == ras[n]
  {
    var n := |frames| - 1;
    assert FrameAt(frames, ras, stack, n);
    BaseBound(frames, n);
    BaseApart(frames, 0, n);
  }

  lemma ReturnStep(code: seq<Instruction>, prog: Prog, entry: seq<int>, r: Calls, s: State, ins: Instruction)
    returns (r': Calls)
    requires Spaced(code, prog, entry) && SoundProgram(prog) && Inv(code, prog, entry, r, s)
    requires Laid(r.frames, r.ras, s.stack) && s.bp == BaseOf(r.frames, |r.frames| - 1)
    requires r.frames[|r.frames| - 1].proc > 0
    requires 0 <= s.pc < |code| && ins == code[s.pc] && ins.op == RTN
    ensures Step(code, s).status == RUNNING ==> Inv(code, prog, entry, r', Step(code, s)) && Moves(r, r')
    ensures Step(code, s).status == RUNNING || (Step(code, s).status == UNDEFINED && Excusable(ins, s))
    ensures Step(code, s).status == RUNNING ==>
      && |r'.frames| < |r.ras| && |r.frames| == |r'.frames| + 1
      && Settled(r', Step(code, s)) && Step(code, s).pc == r.ras[|r'.frames|]
  {
    hide EndOf, ProcCode, Sound, Chained, Inside, LinksDown;
    var n := |r.frames| - 1;
    TopCalled(code, prog, entry, r);
    r' := Calls(r.frames[..n], r.ras[..n]);
    ReturnHeader(r.frames, r.ras, s.stack);
    PopLaid(r.frames, r.ras, s.stack);
    ChainedPop(code, prog, entry, r);
  }

  lemma MemoryStep(prog: Prog, i: nat, ins: Instruction, s: State)
    requires i < |prog| && Allowed(prog, i, ins) && (ins.op == LOD || ins.op == STO)
    requires |s.regs| == COMMON_REGISTER_NUMBER && Address(s.stack, ins.l, s.bp, ins.m).Some?
    ensures 0 <= ins.r < |s.regs| && Address(s.stack, ins.l, s.bp, ins.m).value < |s.stack|
    ensures var a := Address(s.stack, ins.l, s.bp, ins.m).value;
            Execute(ins, s.(pc := s.pc + 1))
            == if ins.op == LOD then s.(pc := s.pc + 1, regs := s.regs[ins.r := s.stack[a]])
               else s.(pc := s.pc + 1, stack := s.stack[a := s.regs[ins.r]])
  {
    hide SoundName;
  }

  /** An instruction that touches neither stack nor records: on to the next one or to the target. */
  lemma LocalStep(prog: Prog, i: nat, ins: Instruction, s: State)
    requires i < |prog| && Allowed(prog, i, ins) && ins.op !in {CAL, RTN, LOD, STO}
    requires s.status == RUNNING && |s.regs| == COMMON_REGISTER_NUMBER
    ensures var s' := Execute(ins, s);
            || (s'.status == RUNNING && |s'.regs| == COMMON_REGISTER_NUMBER
                && s' == s.(pc := s'.pc, regs := s'.regs, input := s'.input, output := s'.output)
                && (s'.pc == s.pc || ((ins.op == JMP || ins.op == JPC) && s'.pc == ins.m)))
            || (s'.status == UNDEFINED && ins.op == DIV && InRegs(ins.m) && s.regs[ins.m] == 0)
  {
    hide SoundName, CMod;
  }

  /** Any other instruction of the body stays in the body and touches no header. */
  lemma PlainStep(code: seq<Instruction>, prog: Prog, entry: seq<int>, r: Calls, s: State, ins: Instruction)
    requires Spaced(code, prog, entry) && SoundProgram(prog) && Inv(code, prog, entry, r, s)
    requires Laid(r.frames, r.ras, s.stack) && Resting(prog, r, s)
    requires var top := r.frames[|r.frames| - 1].proc;
             && Inside(prog, entry, top, s.pc) && Inside(prog, entry, top, s.pc + 1)
             && Allowed(prog, top, ins)
             && (ins.op == JMP || ins.op == JPC ==> Inside(prog, entry, top, ins.m))
    requires 0 <= s.pc < |code| && ins == code[s.pc] && ins.op != CAL && ins.op != RTN
    ensures Step(code, s).status == RUNNING ==> Inv(code, prog, entry, r, Step(code, s))
    ensures Step(code, s).status == RUNNING || (Step(code, s).status == UNDEFINED && Excusable(ins, s))
  {
    hide EndOf, ProcCode, Sound, Laid, Chained, SoundName, Inside, Entering, At, BinaryOp, CMod, Execute, Address;
    var top := TopProc(code, prog, entry, r);
    if ins.op == LOD {
      SoundLocated(code, prog, entry, r, ins.l, ins.m);
      LocateAddress(r.frames, r.ras, s.stack, ins.l, ins.m);
      MemoryStep(prog, top, ins, s);
    } else if ins.op == STO {
      StoreKeeps(code, prog, entry, r, s, ins.l, ins.m, s.regs[ins.r]);
      MemoryStep(prog, top, ins, s);
    } else {
      LocalStep(prog, top, ins, s.(pc := s.pc + 1));
    }
  }

  /** What becomes of records and control in a step of a sound program, and why it can stop. */
  ghost predicate Advances(code: seq<Instruction>, prog: Prog, entry: seq<int>, r: Calls, s: State, r': Calls)
    requires 0 < |prog| == |entry|
  {
    var s' := Step(code, s);
    && (s'.status == RUNNING ==>
          && Inv(code, prog, entry, r', s') && Moves(r, r')
          && (|r'.frames| > |r.frames| ==> |r.frames| < |r'.ras| && Settled(r, s) && r'.ras[|r.frames|] == s.pc + 1)
          && (|r'.frames| < |r.frames| ==> |r'.frames| < |r.ras| && Settled(r', s') && s'.pc == r.ras[|r'.frames|]))
    && (s'.status == IDLE ==> |r.frames| == 1 && s.pc == EndOf(prog, entry, 0) - 1)
    && (s'.status == UNDEFINED ==> 0 <= s.pc < |code| && Excusable(code[s.pc], s))
    && s'.status != ERROR
  }

  /**
    One step of a running sound program: it keeps the invariant, stops at the program's own
    halt, or is undefined for one of three reasons (a zero divisor, no room for a record's
    header, too many calls). It never runs out of the code.
   */
  lemma SafeStep(code: seq<Instruction>, prog: Prog, entry: seq<int>, r: Calls, s: State) returns (r': Calls)
    requires Spaced(code, prog, entry) && SoundProgram(prog) && Inv(code, prog, entry, r, s)
    requires !Overruns(entry, r, s)
    ensures |prog| == |entry| && Advances(code, prog, entry, r, s, r')
  {
    SpacedSize(code, prog, entry);
    InvParts(code, prog, entry, r, s);
    hide SoundProgram, Spaced, Chained, Laid, Inside, Entering, Step, Settled, Resting, Advances;
    var top := r.frames[|r.frames| - 1].proc;
    if Entering(r, s) && (s.pc == top || s.pc == entry[top]) {
      r' := r;
      EnterStep(code, prog, entry, r, s);
      StayAdvances(code, prog, entry, r, s);
    } else {
      r' := BodyStep(code, prog, entry, r, s);
    }
  }

  lemma StayAdvances(code: seq<Instruction>, prog: Prog, entry: seq<int>, r: Calls, s: State)
    requires 0 < |prog| == |entry|
    requires Step(code, s).status == RUNNING ==> Inv(code, prog, entry, r, Step(code, s))
    requires Step(code, s).status == RUNNING
             || (Step(code, s).status == UNDEFINED && 0 <= s.pc < |code| && Excusable(code[s.pc], s))
    ensures Advances(code, prog, entry, r, s, r)
  {
    hide Inv, Step, Excusable;
  }

  /** What SafeStep says, behind the INC of a procedure. */
  lemma BodyStep(code: seq<Instruction>, prog: Prog, entry: seq<int>, r: Calls, s: State) returns (r': Calls)
    requires Spaced(code, prog, entry) && SoundProgram(prog) && Inv(code, prog, entry, r, s)
    requires Laid(r.frames, r.ras, s.stack) && Resting(prog, r, s)
    requires Inside(prog, entry, r.frames[|r.frames| - 1].proc, s.pc)
    ensures |prog| == |entry| && Advances(code, prog, entry, r, s, r')
  {
    SpacedSize(code, prog, entry);
    InvParts(code, prog, entry, r, s);
    hide SoundProgram, Spaced, Chained, Laid, Inside, Entering, Step, Allowed, Resting, Settled, Advances, Excusable,
         EndOf, Inv;
    var top := r.frames[|r.frames| - 1].proc;
    Fetch(code, prog, entry, top, s.pc);
    var ins := code[s.pc];
    AllowedCalls(prog, r, s, ins);
    r' := r;
    if top == 0 && ins == Instruction(SIO, 0, 0, 3) {
      HaltAdvances(code, prog, entry, r, s);
    } else if ins.op == CAL {
      r' := CallStep(code, prog, entry, r, s, ins);
      CallAdvances(code, prog, entry, r, s, r');
    } else if ins.op == RTN {
      r' := ReturnStep(code, prog, entry, r, s, ins);
      ReturnAdvances(code, prog, entry, r, s, r');
    } else {
      PlainStep(code, prog, entry, r, s, ins);
      StayAdvances(code, prog, entry, r, s);
    }
  }

  lemma HaltAdvances(code: seq<Instruction>, prog: Prog, entry: seq<int>, r: Calls, s: State)
    requires 0 < |prog| == |entry| && |code| < MAX_CODE_LENGTH && Inv(code, prog, entry, r, s)
    requires 0 < |r.frames| && r.frames[|r.frames| - 1].proc == 0
    requires 0 <= s.pc < |code| && code[s.pc] == Instruction(SIO, 0, 0, 3) && s.pc == EndOf(prog, entry, 0) - 1
    ensures Advances(code, prog, entry, r, s, r)
  {
    hide Chained, Laid, Entering, Inside, EndOf;
    OnlyMain(code, prog, entry, r);
  }

  lemma CallAdvances(code: seq<Instruction>, prog: Prog, entry: seq<int>, r: Calls, s: State, r': Calls)
    requires 0 < |prog| == |entry| && Settled(r, s)
    requires Step(code, s).status == RUNNING ==> Inv(code, prog, entry, r', Step(code, s)) && Moves(r, r')
    requires Step(code, s).status == RUNNING
             || (Step(code, s).status == UNDEFINED && 0 <= s.pc < |code| && Excusable(code[s.pc], s))
    requires Step(code, s).status == RUNNING ==>
      |r.frames| < |r'.ras| && |r'.frames| == |r.frames| + 1 && r'.ras[|r.frames|] == s.pc + 1
    ensures Advances(code, prog, entry, r, s, r')
  {
    hide Inv, Step, Excusable, Moves, Settled;
  }

  lemma ReturnAdvances(code: seq<Instruction>, prog: Prog, entry: seq<int>, r: Calls, s: State, r': Calls)
    requires 0 < |prog| == |entry|
    requires Step(code, s).status == RUNNING ==> Inv(code, prog, entry, r', Step(code, s)) && Moves(r, r')
    requires Step(code, s).status == RUNNING
             || (Step(code, s).status == UNDEFINED && 0 <= s.pc < |code| && Excusable(code[s.pc], s))
    requires Step(code, s).status == RUNNING ==>
      && |r'.frames| < |r.ras| && |r.frames| == |r'.frames| + 1
      && Settled(r', Step(code, s)) && Step(code, s).pc == r.ras[|r'.frames|]
    ensures Advances(code, prog, entry, r, s, r')
  {
    hide Inv, Step, Excusable, Moves, Settled;
  }

  /** Only where calls are made is a CAL allowed, and then sp is at the end of the record. */
  lemma AllowedCalls(prog: Prog, r: Calls, s: State, ins: Instruction)
    requires Resting(prog, r, s) && r.frames[|r.frames| - 1].proc < |prog|
    ensures Allowed(prog, r.frames[|r.frames| - 1].proc, ins) && ins.op == CAL ==> Settled(r, s)
    ensures Allowed(prog, r.frames[|r.frames| - 1].proc, ins) && ins.op == RTN ==> r.frames[|r.frames| - 1].proc > 0
    ensures s.bp == BaseOf(r.frames, |r.frames| - 1)
  {
    hide SoundName, NoCall, Height;
  }

  /** The program itself is only ever the first record. */
  lemma OnlyMain(code: seq<Instruction>, prog: Prog, entry: seq<int>, r: Calls)
    requires |prog| == |entry| && Chained(prog, entry, code, r) && r.frames[|r.frames| - 1].proc == 0
    ensures |r.frames| == 1
  {
    assert ChainedAt(prog, entry, code, r, |r.frames| - 1);
  }
}
