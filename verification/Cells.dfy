/**
  What becomes of a cell of the stack over a run, wherever it lies. A variable behind the end of
  its record is such a cell: it lasts as long as nothing is called from there, and is lost to the
  header of the record that the next call makes.
 */
module Cells {
  import opened Common
  import opened Machine
  import opened Semantics
  import opened Records
  import opened Safety
  import opened SafeRuns

  /** The machine is about to store to cell `a`. */
  predicate StoresTo(code: seq<Instruction>, s: State, a: nat) {
    && 0 <= s.pc < |code| && code[s.pc].op == STO
    && Address(s.stack, code[s.pc].l, s.bp, code[s.pc].m) == Some(a)
  }

  /** The machine is about to call, and cell `a` is one of the four that the header takes. */
  predicate CallsOver(code: seq<Instruction>, s: State, a: nat) {
    0 <= s.pc < |code| && code[s.pc].op == CAL && s.sp < a <= s.sp + HEADER
  }

  lemma StepCell(code: seq<Instruction>, s: State, a: nat)
    requires s.status == RUNNING && Step(code, s).status == RUNNING && a < |s.stack|
    requires !StoresTo(code, s, a) && !CallsOver(code, s, a)
    ensures |Step(code, s).stack| == |s.stack| && Step(code, s).stack[a] == s.stack[a]
  {
    hide Base, BinaryOp, CMod;
  }

  /** Any cell keeps its value while nothing is stored to it and no header is written over it. */
  lemma {:induction false} CellKept(code: seq<Instruction>, s: State, a: nat, i: nat, j: nat)
    requires i <= j && a < |Run(code, s, i).stack|
    requires forall k :: i <= k <= j ==> Run(code, s, k).status == RUNNING
    requires forall k :: i <= k < j ==> !StoresTo(code, Run(code, s, k), a) && !CallsOver(code, Run(code, s, k), a)
    ensures |Run(code, s, j).stack| == |Run(code, s, i).stack| && Run(code, s, j).stack[a] == Run(code, s, i).stack[a]
    decreases j
  {
    hide Step, StoresTo, CallsOver;
    if i < j {
      CellKept(code, s, a, i, j - 1);
      RunNext(code, s, j - 1);
      StepCell(code, Run(code, s, j - 1), a);
    }
  }

  lemma TraceAt(code: seq<Instruction>, prog: Prog, entry: seq<int>, s: State, t: seq<Calls>, k: nat)
    requires |prog| == |entry| && Trace(code, prog, entry, s, t) && k < |t|
    ensures Inv(code, prog, entry, t[k], Run(code, s, k)) && Run(code, s, k).status == RUNNING
    ensures 0 < |t[k].frames| == |t[k].ras| && Run(code, s, k).frameLevel == |t[k].frames| - 1
    ensures |Run(code, s, k).stack| == MAX_STACK_HEIGHT
    ensures k + 1 < |t| ==> Follows(t[k], Run(code, s, k), t[k + 1], Run(code, s, k + 1))
    ensures k + 1 < |t| ==> Run(code, s, k + 1) == Step(code, Run(code, s, k))
  {
    hide Step, Chained, Laid, Entering, Inside, Follows;
    assert Inv(code, prog, entry, t[k], Run(code, s, k));
    RasMatch(code, prog, entry, t[k]);
    RunNext(code, s, k);
    if k + 1 < |t| {
      assert Follows(t[k], Run(code, s, k), t[k + 1], Run(code, s, k + 1));
    }
  }

  /** Which instruction it is that adds a record, or drops one. */
  lemma LevelStep(code: seq<Instruction>, s: State)
    requires s.status == RUNNING && Step(code, s).status == RUNNING
    ensures 0 <= s.pc < |code|
    ensures Step(code, s).frameLevel > s.frameLevel <==> code[s.pc].op == CAL
    ensures Step(code, s).frameLevel < s.frameLevel ==> Step(code, s).stack == s.stack
    ensures code[s.pc].op == CAL ==>
      var link := Base(s.stack[s.sp + 1 := 0], code[s.pc].l, s.bp);
      && 0 <= s.sp + 1 && s.sp + HEADER < |s.stack| && link.Some?
      && Step(code, s).stack == s.stack[s.sp + 1 := 0][s.sp + 2 := link.value][s.sp + 3 := s.bp][s.sp + 4 := s.pc + 1]
  {
    hide Base, BinaryOp, CMod;
  }

  /** A header is written where a record is added, over the four cells above sp. */
  lemma CallsOverPush(code: seq<Instruction>, s: State, a: nat)
    requires s.status == RUNNING && Step(code, s).status == RUNNING && CallsOver(code, s, a)
    ensures Step(code, s).frameLevel > s.frameLevel && s.sp < a
  {
    hide Step;
    LevelStep(code, s);
  }

  /**
    A variable behind its record lasts. Between two turns with no new record in between, no cell
    changes but by a store to it, inside a record or behind the last.
   */
  lemma OverhangKept(code: seq<Instruction>, prog: Prog, entry: seq<int>, s: State, t: seq<Calls>, a: nat, i: nat,
                     j: nat)
    requires |prog| == |entry| && Trace(code, prog, entry, s, t) && i <= j < |t| && a < MAX_STACK_HEIGHT
    requires forall k, k' :: i <= k && k' == k + 1 <= j ==> |t[k'].frames| <= |t[k].frames|
    requires forall k :: i <= k < j ==> !StoresTo(code, Run(code, s, k), a)
    ensures |Run(code, s, j).stack| == |Run(code, s, i).stack| == MAX_STACK_HEIGHT
    ensures Run(code, s, j).stack[a] == Run(code, s, i).stack[a]
  {
    hide Inv, Follows, StoresTo, Step, Trace, CallsOver, Run;
    forall k | i <= k <= j
      ensures Run(code, s, k).status == RUNNING && (k < j ==> !CallsOver(code, Run(code, s, k), a))
    {
      TraceAt(code, prog, entry, s, t, k);
      if k < j && CallsOver(code, Run(code, s, k), a) {
        TraceAt(code, prog, entry, s, t, k + 1);
        CallsOverPush(code, Run(code, s, k), a);
        assert false;
      }
    }
    TraceAt(code, prog, entry, s, t, i);
    CellKept(code, s, a, i, j);
  }

  /** The header of a live record, also before its INC. */
  lemma HeaderAt(code: seq<Instruction>, prog: Prog, entry: seq<int>, r: Calls, s: State, n: nat)
    requires |prog| == |entry| && Inv(code, prog, entry, r, s) && 0 < n < |r.frames| == |r.ras|
    ensures r.frames[n].link < n
    ensures var b := BaseOf(r.frames, n);
            && b + 3 < |s.stack|
            && s.stack[b + 1] == BaseOf(r.frames, r.frames[n].link)
            && s.stack[b + 2] == BaseOf(r.frames, n - 1)
            && s.stack[b + 3] == r.ras[n]
  {
    hide Inside, ChainedAt;
    var top := |r.frames| - 1;
    var below := r.frames[..top];
    if Laid(r.frames, r.ras, s.stack) {
      assert FrameAt(r.frames, r.ras, s.stack, n);
      BaseBound(r.frames, n);
    } else if n < top {
      assert FrameAt(below, r.ras[..top], s.stack, n);
      BaseBound(below, n);
      BasePrefix(r.frames, top, n);
      BasePrefix(r.frames, top, n - 1);
      BasePrefix(r.frames, top, r.frames[n].link);
    } else {
      BasePrefix(r.frames, top, r.frames[n].link);
      BasePrefix(r.frames, top, n - 1);
    }
  }

  /** While a callee runs, the caller's records and its own stay where they are. */
  ghost predicate Over(b: Calls, c: Calls) {
    && 0 < |b.frames| == |b.ras| && |c.frames| == |c.ras|
    && b.frames <= c.frames && b.ras <= c.ras
  }

  lemma OverStep(b: Calls, c: Calls, d: Calls)
    requires Over(b, c) && Moves(c, d) && |d.frames| >= |b.frames|
    ensures Over(b, d)
  {
    assert d.frames[..|b.frames|] == c.frames[..|b.frames|];
    assert d.ras[..|b.ras|] == c.ras[..|b.ras|];
  }

  lemma {:induction false} CalleeOver(code: seq<Instruction>, prog: Prog, entry: seq<int>, s: State, t: seq<Calls>,
                                      i: nat, j: nat, k: nat)
    requires |prog| == |entry| && Trace(code, prog, entry, s, t) && Brackets(t, i, j) && i < k < j
    ensures Over(t[i + 1], t[k])
    decreases k
  {
    hide Run, Inv, Trace, Moves, Over;
    TraceAt(code, prog, entry, s, t, k);
    if k == i + 1 {
      OverSelf(t[k]);
    } else {
      CalleeOver(code, prog, entry, s, t, i, j, k - 1);
      TraceAt(code, prog, entry, s, t, k - 1);
      OverStep(t[i + 1], t[k - 1], t[k]);
    }
  }

  lemma OverSelf(b: Calls)
    requires 0 < |b.frames| == |b.ras|
    ensures Over(b, b)
  {
  }

  lemma OverBase(b: Calls, c: Calls, i: nat)
    requires Over(b, c) && i <= |b.frames|
    ensures |b.frames| <= |c.frames| && BaseOf(b.frames, i) == BaseOf(c.frames, i)
    ensures i < |b.frames| ==> b.frames[i] == c.frames[i] && b.ras[i] == c.ras[i]
  {
    assert b.frames[..i] == c.frames[..i];
  }

  lemma BelowNew(a: Calls, b: Calls)
    requires Moves(a, b) && |b.frames| == |a.frames| + 1
    ensures BaseOf(b.frames, |a.frames|) == Height(a.frames) + 1
  {
  }

  /** Where a push puts the new record. */
  lemma PushAt(r: Calls, s: State, r': Calls, s': State)
    requires Follows(r, s, r', s') && |r'.frames| > |r.frames|
    ensures |r'.frames| == |r.frames| + 1
    ensures s.sp == Height(r.frames) && BaseOf(r'.frames, |r.frames|) == s.sp + 1
  {
    BelowNew(r, r');
  }

  /** The cell above the caller's sp is out of reach of the headers of deeper calls. */
  lemma DeeperCalls(code: seq<Instruction>, prog: Prog, entry: seq<int>, s: State, t: seq<Calls>, i: nat, j: nat,
                    k: nat)
    requires |prog| == |entry| && Trace(code, prog, entry, s, t) && Brackets(t, i, j) && i < k < j
    ensures !CallsOver(code, Run(code, s, k), Height(t[i].frames) + 1)
  {
    hide Run, Step, Inv, Trace, Follows, Over, Height, CallsOver;
    CalleeOver(code, prog, entry, s, t, i, j, k);
    TraceAt(code, prog, entry, s, t, i);
    TraceAt(code, prog, entry, s, t, k);
    TraceAt(code, prog, entry, s, t, k + 1);
    var n := |t[i].frames|;
    if CallsOver(code, Run(code, s, k), Height(t[i].frames) + 1) {
      CallsOverPush(code, Run(code, s, k), Height(t[i].frames) + 1);
      PushAt(t[i], Run(code, s, i), t[i + 1], Run(code, s, i + 1));
      PushAt(t[k], Run(code, s, k), t[k + 1], Run(code, s, k + 1));
      OverBase(t[i + 1], t[k], n);
      BaseBound(t[k].frames, n);
      assert false;
    }
  }

  /**
    A variable behind its record is lost to a call. From a call to the return that matches it,
    whatever runs in between, the three cells that lie two to four above the caller's sp come to
    hold the static link that CAL found, the caller's bp and the return address; and the one
    above sp holds 0, unless something has been stored to it in between.
   */
  lemma CallLoses(code: seq<Instruction>, prog: Prog, entry: seq<int>, s: State, t: seq<Calls>, i: nat, j: nat)
    requires |prog| == |entry| && Trace(code, prog, entry, s, t) && Brackets(t, i, j)
    ensures var a, b := Run(code, s, i), Run(code, s, j);
            && 0 <= a.pc < |code| && code[a.pc].op == CAL
            && 0 <= a.sp && a.sp + HEADER < |a.stack| == |b.stack|
            && Base(a.stack[a.sp + 1 := 0], code[a.pc].l, a.bp) == Some(b.stack[a.sp + 2])
            && b.stack[a.sp + 3] == a.bp
            && b.stack[a.sp + 4] == a.pc + 1
            && ((forall k :: i < k < j ==> !StoresTo(code, Run(code, s, k), a.sp + 1)) ==> b.stack[a.sp + 1] == 0)
  {
    hide Run, Step, Inv, Trace, Moves, Over, StoresTo, CallsOver, Follows, Base, Height;
    var n := |t[i].frames|;
    var a, a', last, b := Run(code, s, i), Run(code, s, i + 1), Run(code, s, j - 1), Run(code, s, j);
    TraceAt(code, prog, entry, s, t, i);
    TraceAt(code, prog, entry, s, t, i + 1);
    TraceAt(code, prog, entry, s, t, j - 1);
    TraceAt(code, prog, entry, s, t, j);
    LevelStep(code, a);
    LevelStep(code, last);
    PushAt(t[i], a, t[i + 1], a');
    CalleeOver(code, prog, entry, s, t, i, j, j - 1);
    HeaderSame(code, prog, entry, t[i + 1], a', t[j - 1], last, n);
    assert b.stack == last.stack;
    if forall k :: i < k < j ==> !StoresTo(code, Run(code, s, k), a.sp + 1) {
      forall k | i + 1 <= k <= j - 1
        ensures Run(code, s, k).status == RUNNING && !CallsOver(code, Run(code, s, k), a.sp + 1)
      {
        TraceAt(code, prog, entry, s, t, k);
        DeeperCalls(code, prog, entry, s, t, i, j, k);
      }
      CellKept(code, s, a.sp + 1, i + 1, j - 1);
    }
  }

  /** The header of a record is the same at two turns between which it lives. */
  lemma HeaderSame(code: seq<Instruction>, prog: Prog, entry: seq<int>, r: Calls, s: State, r': Calls, s': State,
                   n: nat)
    requires |prog| == |entry| && Inv(code, prog, entry, r, s) && Inv(code, prog, entry, r', s')
    requires Over(r, r') && 0 < n < |r.frames|
    ensures var b := BaseOf(r.frames, n);
            && b + 3 < |s.stack| && b + 3 < |s'.stack|
            && s'.stack[b + 1] == s.stack[b + 1]
            && s'.stack[b + 2] == s.stack[b + 2]
            && s'.stack[b + 3] == s.stack[b + 3]
  {
    hide Inv, Over, Height;
    OverBase(r, r', n);
    OverBase(r, r', n - 1);
    OverLengths(r, r');
    HeaderAt(code, prog, entry, r, s, n);
    HeaderAt(code, prog, entry, r', s', n);
    OverBase(r, r', r.frames[n].link);
  }

  lemma OverLengths(r: Calls, r': Calls)
    requires Over(r, r')
    ensures |r.frames| == |r.ras| && |r'.frames| == |r'.ras|
  {
  }
}
