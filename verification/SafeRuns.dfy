/** Whole runs of a sound program: control never leaves the code, and every return undoes its call. */
module SafeRuns {
  import opened Common
  import opened Machine
  import opened Syntax
  import opened Symbols
  import opened Semantics
  import opened Records
  import opened ExprCorrect
  import opened StmtCorrect
  import opened Standard
  import opened CodeShape
  import opened Safety

  /** The record of the program itself. */
  function FirstCalls(prog: Prog): Calls
    requires prog != []
  {
    Calls([NewFrame(0, 0, prog[0].vars)], [0])
  }

  lemma StartInv(code: seq<Instruction>, prog: Prog, entry: seq<int>, input: seq<int>)
    requires Spaced(code, prog, entry) && SoundProgram(prog)
    ensures Inv(code, prog, entry, FirstCalls(prog), InitState(input))
  {
    var r := FirstCalls(prog);
    assert r.frames[..0] == [];
  }

  // ---------- room ----------

  lemma ChainedLimit(code: seq<Instruction>, prog: Prog, entry: seq<int>, r: Calls)
    requires |prog| == |entry| && Chained(prog, entry, code, r) && RecordsFit(prog)
    ensures FramesFit(prog, r.frames) && (|r.frames| > 1 ==> |prog| > 1)
  {
    hide Inside;
    forall i | 0 <= i < |r.frames|
      ensures if i == 0 then |r.frames[0].vars| == prog[0].vars
              else r.frames[i].proc > 0 && HEADER + |r.frames[i].vars| <= RecordLimit(prog)
    {
      assert ChainedAt(prog, entry, code, r, i);
    }
    assert |r.frames| > 1 ==> r.frames[1].proc < |prog|;
  }

  /** As many records as can be live fit the stack, and with fewer of them one more does. */
  lemma ChainedRoom(code: seq<Instruction>, prog: Prog, entry: seq<int>, r: Calls)
    requires |prog| == |entry| && Chained(prog, entry, code, r) && RecordsFit(prog)
    requires |r.frames| <= MAX_LEXI_LEVELS + 1
    ensures Height(r.frames) < MAX_STACK_HEIGHT
    ensures |r.frames| <= MAX_LEXI_LEVELS && |prog| > 1 ==> Height(r.frames) + HEADER < MAX_STACK_HEIGHT
  {
    hide Chained, RecordsFit, FramesFit, HeightBound;
    RasMatch(code, prog, entry, r);
    ChainedLimit(code, prog, entry, r);
    HeightLimit(prog, r.frames);
    BoundFits(prog, |r.frames|);
    if |prog| > 1 && |r.frames| <= MAX_LEXI_LEVELS {
      assert HeightBound(prog, |r.frames|) + HEADER + prog[1].vars < MAX_STACK_HEIGHT;
    }
  }

  /** The instructions that move sp. */
  lemma StepPointer(code: seq<Instruction>, s: State)
    ensures Step(code, s).sp == s.sp
            || (s.status == RUNNING && 0 <= s.pc < |code| && code[s.pc].op == INC
                && Step(code, s).sp == s.sp + code[s.pc].m)
            || (s.status == RUNNING && 0 <= s.pc < |code| && code[s.pc].op == RTN && Step(code, s).sp == s.bp - 1)
  {
    hide Base, BinaryOp, CMod;
  }

  /** If the records fit, the stack pointer stays inside the stack, and a call finds room for its header. */
  lemma StepRoom(code: seq<Instruction>, prog: Prog, entry: seq<int>, r: Calls, s: State)
    requires Spaced(code, prog, entry) && SoundProgram(prog) && RecordsFit(prog) && Inv(code, prog, entry, r, s)
    ensures s.sp <= Height(r.frames) < MAX_STACK_HEIGHT
    ensures Step(code, s).sp <= Height(r.frames)
    ensures 0 <= s.pc < |code| && code[s.pc].op == CAL && s.frameLevel < MAX_LEXI_LEVELS ==>
      s.sp + 4 < MAX_STACK_HEIGHT
  {
    SpacedSize(code, prog, entry);
    hide EndOf, ProcCode, SoundProgram, Sound, Chained, Laid, Inside, At, RecordsFit, Placed, NoCall, Step, Spaced;
    ChainedRoom(code, prog, entry, r);
    var top := TopProc(code, prog, entry, r);
    var n := |r.frames| - 1;
    assert Height(r.frames) == Height(r.frames[..n]) + HEADER + prog[top].vars;
    StepPointer(code, s);
    if Entering(r, s) && (s.pc == entry[top] || s.pc == top) {
      EntryStep(code, prog, entry, top);
    } else {
      Fetch(code, prog, entry, top, s.pc);
    }
  }

  // ---------- what a run can come to ----------

  /** A division by zero, a call without room for a header, or a call or return beyond the trace entries. */
  predicate Excused(code: seq<Instruction>, s: State) {
    s.status == RUNNING && 0 <= s.pc < |code| && Excusable(code[s.pc], s)
  }

  /** SafeStep, with what calls and returns do to bp, sp and pc. */
  lemma FollowStep(code: seq<Instruction>, prog: Prog, entry: seq<int>, r: Calls, s: State) returns (r': Calls)
    requires Spaced(code, prog, entry) && SoundProgram(prog) && Inv(code, prog, entry, r, s)
    requires !Overruns(entry, r, s)
    ensures Step(code, s).status == RUNNING ==>
      Inv(code, prog, entry, r', Step(code, s)) && Follows(r, s, r', Step(code, s))
    ensures Step(code, s).status == IDLE ==> |r.frames| == 1 && s.pc == EndOf(prog, entry, 0) - 1
    ensures Step(code, s).status == UNDEFINED ==> Excused(code, s)
    ensures Step(code, s).status != ERROR
  {
    hide EndOf, ProcCode, Sound, Chained, Laid, Inside, At, Entering;
    r' := SafeStep(code, prog, entry, r, s);
    RasMatch(code, prog, entry, r);
    if Step(code, s).status == RUNNING {
      RasMatch(code, prog, entry, r');
    }
  }

  lemma RasMatch(code: seq<Instruction>, prog: Prog, entry: seq<int>, r: Calls)
    requires |prog| == |entry| && Chained(prog, entry, code, r)
    ensures 0 < |r.frames| == |r.ras|
  {
  }

  /** What one step does to the records, and to bp, sp and pc when it calls or returns. */
  ghost predicate Follows(a: Calls, s: State, b: Calls, s': State) {
    && Moves(a, b)
    && (|b.frames| > |a.frames| ==> |a.frames| < |b.ras| && Settled(a, s) && b.ras[|a.frames|] == s.pc + 1)
    && (|b.frames| < |a.frames| ==> |b.frames| < |a.ras| && Settled(b, s') && s'.pc == a.ras[|b.frames|])
  }

  /** How a run that has stopped can have stopped: at turn `k`. */
  ghost predicate StoppedAt(code: seq<Instruction>, prog: Prog, entry: seq<int>, s: State, k: nat, s': State)
    requires 0 < |prog| == |entry|
  {
    var last := Run(code, s, k);
    && s' == Step(code, last)
    && last.status == RUNNING
    && (s'.status == IDLE ==> last.frameLevel == 0 && last.pc == EndOf(prog, entry, 0) - 1)
    && (s'.status == UNDEFINED ==> Excused(code, last))
  }

  /** Before turn `n` the INC of a procedure has been reached whose record does not fit the stack. */
  ghost predicate Overran(code: seq<Instruction>, prog: Prog, entry: seq<int>, s: State, n: nat)
    requires |prog| == |entry|
  {
    exists k: nat, r: Calls ::
      k < n && Inv(code, prog, entry, r, Run(code, s, k)) && Overruns(entry, r, Run(code, s, k))
  }

  /** What holds after `n` turns of a sound program. */
  ghost predicate SafeAt(code: seq<Instruction>, prog: Prog, entry: seq<int>, s: State, r: Calls, n: nat)
    requires 0 < |prog| == |entry|
  {
    var s' := Run(code, s, n);
    && s'.status != ERROR
    && (s'.status == RUNNING ==> Inv(code, prog, entry, r, s'))
    && (s'.status != RUNNING ==> exists k: nat :: k < n && StoppedAt(code, prog, entry, s, k, s'))
  }

  /**
    Progress. Whatever the input and however long it runs, as long as its records fit the stack a
    linked sound program never fetches outside the code; while it runs, its stack is a list of
    activation records; it halts only at the program's own halt, and only a zero divisor, a call
    without room, or too many nested calls leave it undefined.
   */
  lemma {:induction false} RunSafe(code: seq<Instruction>, prog: Prog, entry: seq<int>, input: seq<int>, n: nat)
    returns (r: Calls)
    requires Spaced(code, prog, entry) && SoundProgram(prog)
    ensures Overran(code, prog, entry, InitState(input), n) || SafeAt(code, prog, entry, InitState(input), r, n)
    decreases n
  {
    hide EndOf, Chained, Entering, Spaced, SoundProgram, InitState, Step, Excused, Follows, ProcCode;
    SpacedSize(code, prog, entry);
    if n == 0 {
      r := FirstCalls(prog);
      StartInv(code, prog, entry, input);
      Running0(code, input);
    } else {
      var r0 := RunSafe(code, prog, entry, input, n - 1);
      var s0 := Run(code, InitState(input), n - 1);
      RunNext(code, InitState(input), n - 1);
      r := r0;
      if s0.status != RUNNING {
        RunStopped(code, s0, 1);
      } else if !Overran(code, prog, entry, InitState(input), n) {
        assert !Overran(code, prog, entry, InitState(input), n - 1);
        assert !Overruns(entry, r0, s0);
        r := FollowStep(code, prog, entry, r0, s0);
        assert Step(code, s0).status != RUNNING ==>
          StoppedAt(code, prog, entry, InitState(input), n - 1, Step(code, s0));
      }
    }
  }

  lemma RunNext(code: seq<Instruction>, s: State, n: nat)
    ensures Run(code, s, n + 1) == Step(code, Run(code, s, n))
    ensures Run(code, Run(code, s, n), 1) == Step(code, Run(code, s, n))
  {
    hide Step;
    var s1 := Run(code, s, n);
    RunAdd(code, s, n, 1);
    assert Run(code, s1, 1) == Run(code, Step(code, s1), 0);
  }

  /** A program whose records fit the stack never takes sp past it, nor calls without room for a header. */
  lemma SmallRoom(code: seq<Instruction>, prog: Prog, entry: seq<int>, input: seq<int>, n: nat)
    requires Spaced(code, prog, entry) && SoundProgram(prog) && RecordsFit(prog)
    ensures |prog| == |entry| && !Overran(code, prog, entry, InitState(input), n)
    ensures var s := Run(code, InitState(input), n);
            s.status == RUNNING ==>
              && s.sp < MAX_STACK_HEIGHT
              && (0 <= s.pc < |code| && code[s.pc].op == CAL && s.sp + 4 >= MAX_STACK_HEIGHT ==>
                    s.frameLevel >= MAX_LEXI_LEVELS)
  {
    hide Inv, Spaced, SoundProgram, RecordsFit, Run, Overruns;
    SpacedSize(code, prog, entry);
    var first := InitState(input);
    if Overran(code, prog, entry, first, n) {
      var k: nat, r: Calls :| k < n && Inv(code, prog, entry, r, Run(code, first, k))
                              && Overruns(entry, r, Run(code, first, k));
      NoOverrun(code, prog, entry, r, Run(code, first, k));
      assert false;
    }
    if Run(code, InitState(input), n).status == RUNNING {
      var r := RunSafe(code, prog, entry, input, n);
      StepRoom(code, prog, entry, r, Run(code, InitState(input), n));
    }
  }

  lemma NoOverrun(code: seq<Instruction>, prog: Prog, entry: seq<int>, r: Calls, s: State)
    requires |prog| == |entry| && RecordsFit(prog) && Inv(code, prog, entry, r, s)
    ensures !Overruns(entry, r, s)
  {
    hide RecordsFit, Chained, Laid, Entering;
    RasMatch(code, prog, entry, r);
    ChainedRoom(code, prog, entry, r);
  }

  lemma Running0(code: seq<Instruction>, input: seq<int>)
    ensures Run(code, InitState(input), 0) == InitState(input) && InitState(input).status == RUNNING
  {
  }

  // ---------- calls and their returns ----------

  /** The records at every turn of a run up to turn `|t| - 1`. */
  ghost predicate Trace(code: seq<Instruction>, prog: Prog, entry: seq<int>, s: State, t: seq<Calls>)
    requires |prog| == |entry|
  {
    && (forall k :: 0 <= k < |t| ==> Inv(code, prog, entry, t[k], Run(code, s, k)))
    && (forall k, k' :: 0 <= k && k' == k + 1 < |t| ==> Follows(t[k], Run(code, s, k), t[k'], Run(code, s, k')))
  }

  /** Every run that is still going, its records inside the stack, has a trace of records. */
  lemma {:induction false} RunTraced(code: seq<Instruction>, prog: Prog, entry: seq<int>, input: seq<int>, n: nat)
    returns (t: seq<Calls>)
    requires Spaced(code, prog, entry) && SoundProgram(prog)
    requires |prog| == |entry| && Run(code, InitState(input), n).status == RUNNING
    requires !Overran(code, prog, entry, InitState(input), n)
    ensures |t| == n + 1 && Trace(code, prog, entry, InitState(input), t)
    decreases n
  {
    hide Inv, Spaced, SoundProgram, InitState, Step, Follows;
    SpacedSize(code, prog, entry);
    if n == 0 {
      t := [FirstCalls(prog)];
      StartInv(code, prog, entry, input);
      Running0(code, input);
    } else {
      var s0 := Run(code, InitState(input), n - 1);
      RunNext(code, InitState(input), n - 1);
      if s0.status != RUNNING {
        RunStopped(code, s0, 1);
      }
      assert !Overran(code, prog, entry, InitState(input), n - 1);
      var t0 := RunTraced(code, prog, entry, input, n - 1);
      assert !Overruns(entry, t0[n - 1], s0);
      var r := FollowStep(code, prog, entry, t0[n - 1], s0);
      t := t0 + [r];
    }
  }

  /** Turn `i` is a call, and `j` the first turn after it with as few records again. */
  predicate Brackets(t: seq<Calls>, i: nat, j: nat) {
    && i + 1 < j < |t|
    && |t[i + 1].frames| == |t[i].frames| + 1
    && |t[j].frames| == |t[i].frames|
    && forall k :: i < k < j ==> |t[k].frames| > |t[i].frames|
  }

  /** While the callee runs, the caller's records and return addresses stay. */
  ghost predicate Under(a: Calls, b: Calls, ra: int) {
    && |a.frames| == |a.ras| && |b.frames| == |b.ras| && |b.frames| > |a.frames|
    && b.frames[..|a.frames|] == a.frames && b.ras[..|a.ras|] == a.ras && b.ras[|a.frames|] == ra
  }

  lemma UnderStep(a: Calls, b: Calls, c: Calls, ra: int)
    requires Under(a, b, ra) && Moves(b, c) && |c.frames| > |a.frames|
    ensures Under(a, c, ra)
  {
    assert c.frames[..|a.frames|] == b.frames[..|a.frames|];
    assert c.ras[..|a.ras|] == b.ras[..|a.ras|];
  }

  lemma {:induction false} CalleeUnder(code: seq<Instruction>, prog: Prog, entry: seq<int>, s: State, t: seq<Calls>,
                                       i: nat, j: nat, k: nat)
    requires |prog| == |entry| && Trace(code, prog, entry, s, t) && Brackets(t, i, j) && i < k < j
    ensures Under(t[i], t[k], Run(code, s, i).pc + 1)
    decreases k
  {
    hide Run, Chained, Laid, Entering, Inside;
    assert Inv(code, prog, entry, t[i], Run(code, s, i));
    assert Inv(code, prog, entry, t[i + 1], Run(code, s, i + 1));
    if k == i + 1 {
      assert Follows(t[i], Run(code, s, i), t[k], Run(code, s, k));
      RasMatch(code, prog, entry, t[i]);
      RasMatch(code, prog, entry, t[k]);
    } else {
      CalleeUnder(code, prog, entry, s, t, i, j, k - 1);
      assert Follows(t[k - 1], Run(code, s, k - 1), t[k], Run(code, s, k));
      UnderStep(t[i], t[k - 1], t[k], Run(code, s, i).pc + 1);
    }
  }

  /**
    Bracketing. From any call to the return that matches it, over any nested and recursive
    calls: bp and sp are back, control is behind the CAL, and the live records are the same.
   */
  lemma CallReturns(code: seq<Instruction>, prog: Prog, entry: seq<int>, s: State, t: seq<Calls>, i: nat, j: nat)
    requires |prog| == |entry| && Trace(code, prog, entry, s, t) && Brackets(t, i, j)
    ensures t[j] == t[i]
    ensures var a, b := Run(code, s, i), Run(code, s, j);
            b.bp == a.bp && b.sp == a.sp && b.pc == a.pc + 1 && b.frameLevel == a.frameLevel
  {
    hide Run, Chained, Laid, Entering, Inside;
    CalleeUnder(code, prog, entry, s, t, i, j, j - 1);
    assert Follows(t[i], Run(code, s, i), t[i + 1], Run(code, s, i + 1));
    assert Follows(t[j - 1], Run(code, s, j - 1), t[j], Run(code, s, j));
    assert Inv(code, prog, entry, t[i], Run(code, s, i)) && Inv(code, prog, entry, t[j], Run(code, s, j));
    RasMatch(code, prog, entry, t[i]);
    RasMatch(code, prog, entry, t[j]);
    assert t[j].frames == t[j - 1].frames[..|t[i].frames|] && t[j].ras == t[j - 1].ras[..|t[i].ras|];
  }

  /** The only instruction that changes a cell at or below sp is STO. */
  lemma OnlyStores(code: seq<Instruction>, s: State, a: nat)
    requires s.status == RUNNING && Step(code, s).status == RUNNING
    requires a <= s.sp && a < |s.stack| && |Step(code, s).stack| == |s.stack| && Step(code, s).stack[a] != s.stack[a]
    ensures 0 <= s.pc < |code|
    ensures var i := code[s.pc]; i.op == STO && Address(s.stack, i.l, s.bp, i.m) == Some(a)
  {
  }

  /** STO stands behind the INC of a procedure. */
  lemma StoreInside(code: seq<Instruction>, prog: Prog, entry: seq<int>, r: Calls, s: State)
    requires Spaced(code, prog, entry) && SoundProgram(prog) && Inv(code, prog, entry, r, s)
    requires 0 <= s.pc < |code| && code[s.pc].op == STO
    ensures |prog| == |entry| && 0 < |r.frames| && r.frames[|r.frames| - 1].proc < |prog|
    ensures Inside(prog, entry, r.frames[|r.frames| - 1].proc, s.pc) && Laid(r.frames, r.ras, s.stack)
    ensures s.bp == BaseOf(r.frames, |r.frames| - 1)
  {
    SpacedSize(code, prog, entry);
    hide Inside, Chained, Laid, BaseOf, SoundProgram, Spaced, Entering;
    var top := TopProc(code, prog, entry, r);
    EntryStep(code, prog, entry, top);
  }

  /** A step changes a cell of a live record only by STO, and then a variable's cell on the static chain. */
  lemma LiveCells(code: seq<Instruction>, prog: Prog, entry: seq<int>, r: Calls, s: State, a: nat)
    requires Spaced(code, prog, entry) && SoundProgram(prog) && Inv(code, prog, entry, r, s)
    requires Step(code, s).status == RUNNING
    requires a <= s.sp && a < |s.stack| && |Step(code, s).stack| == |s.stack| && Step(code, s).stack[a] != s.stack[a]
    ensures 0 <= s.pc < |code| && code[s.pc].op == STO
    ensures var i := code[s.pc];
            var h := Hop(r.frames, |r.frames| - 1, i.l);
            && h.Some? && h.value < |r.frames|
            && HEADER <= i.m < HEADER + |r.frames[h.value].vars|
            && a == BaseOf(r.frames, h.value) + i.m
  {
    OnlyStores(code, s, a);
    SpacedSize(code, prog, entry);
    hide Inside, Chained, Laid, SoundProgram, Spaced, Entering, ProcCode, EndOf, Step, At;
    StoreInside(code, prog, entry, r, s);
    var top := TopProc(code, prog, entry, r);
    Fetch(code, prog, entry, top, s.pc);
    var i := code[s.pc];
    ProgramTree(prog);
    SoundLocated(code, prog, entry, r, i.l, i.m);
    LocateAddress(r.frames, r.ras, s.stack, i.l, i.m);
  }

  lemma ProgramTree(prog: Prog)
    requires SoundProgram(prog)
    ensures Tree(prog)
  {
  }
}
