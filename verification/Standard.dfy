/**
  Where the implemented language is PL/0, and where it is not.

  The parser closes every begin..end of a procedure with a return and gives a body that is not
  a begin..end no return at all; `write` of a constant loads from the constant's value as an address.
 */
module Standard {
  import opened Common
  import opened Machine
  import opened Syntax
  import opened Symbols
  import opened Semantics
  import opened Records

  predicate NoBegin(s: Stmt) {
    match s
    case Begin(_, _) => false
    case If(_, t) => NoBegin(t)
    case IfElse(_, t, e) => NoBegin(t) && NoBegin(e)
    case While(_, b) => NoBegin(b)
    case _ => true
  }

  predicate NoBeginAll(ss: Stmts) {
    match ss
    case NoStmts => true
    case MoreStmts(s, next) => NoBegin(s) && NoBeginAll(next)
  }

  /** No `write` names a constant. */
  predicate NoConstWrite(s: Stmt, env: Env) {
    match s
    case Write(x) => env.Find(x).Some? ==> env.Find(x).value.kind != CONST
    case Begin(first, rest) => NoConstWrite(first, env) && NoConstWriteAll(rest, env)
    case If(_, t) => NoConstWrite(t, env)
    case IfElse(_, t, e) => NoConstWrite(t, env) && NoConstWrite(e, env)
    case While(_, b) => NoConstWrite(b, env)
    case _ => true
  }

  predicate NoConstWriteAll(ss: Stmts, env: Env) {
    match ss
    case NoStmts => true
    case MoreStmts(s, next) => NoConstWrite(s, env) && NoConstWriteAll(next, env)
  }

  /** Nothing but empty statements. */
  predicate AllEmpty(ss: Stmts) {
    match ss
    case NoStmts => true
    case MoreStmts(s, next) => s == Empty && AllEmpty(next)
  }

  /** A begin..end stands in `s` only where nothing but empty statements comes behind it. */
  predicate Tail(s: Stmt) {
    match s
    case Begin(first, rest) => if AllEmpty(rest) then Tail(first) else NoBegin(first) && TailAll(rest)
    case If(_, t) => Tail(t)
    case IfElse(_, t, e) => Tail(t) && Tail(e)
    case While(_, b) => NoBegin(b)
    case _ => true
  }

  predicate TailAll(ss: Stmts) {
    match ss
    case NoStmts => true
    case MoreStmts(s, next) => if AllEmpty(next) then Tail(s) else NoBegin(s) && TailAll(next)
  }

  /** The programs the compiler translates as PL/0, as long as their calls return and find room. */
  ghost predicate TailProgram(prog: Prog) {
    && prog != []
    && (forall i :: 0 <= i < |prog| ==> NoConstWrite(prog[i].body, prog[i].env))
    && (forall i :: 0 < i < |prog| ==> Tail(prog[i].body))
  }

  /** The code of `s`, in a procedure, never runs on behind it. */
  predicate Returns(s: Stmt) {
    match s
    case Begin(_, _) => true
    case IfElse(_, t, e) => Returns(t) && Returns(e)
    case _ => false
  }

  // ---------- room for records ----------

  /** How large the records above that of the program can be for all that can be live to fit the stack. */
  function RecordLimit(prog: Prog): int
    requires prog != []
  {
    (MAX_STACK_HEIGHT - 1 - HEADER - prog[0].vars) / MAX_LEXI_LEVELS
  }

  /** The record of the program and as many others as can be live fit the stack. */
  predicate RecordsFit(prog: Prog) {
    && prog != [] && HEADER + prog[0].vars < MAX_STACK_HEIGHT
    && forall i :: 0 < i < |prog| ==> HEADER + prog[i].vars <= RecordLimit(prog)
  }

  predicate FramesFit(prog: Prog, frames: seq<Frame>) {
    && prog != [] && frames != [] && |frames[0].vars| == prog[0].vars
    && forall i :: 0 < i < |frames| ==> HEADER + |frames[i].vars| <= RecordLimit(prog)
  }

  /** What `n` records can come to. */
  function HeightBound(prog: Prog, n: int): int
    requires prog != []
  {
    HEADER + prog[0].vars + (n - 1) * RecordLimit(prog)
  }

  lemma {:induction false} HeightLimit(prog: Prog, frames: seq<Frame>)
    requires FramesFit(prog, frames)
    ensures Height(frames) <= HeightBound(prog, |frames|)
    decreases |frames|
  {
    var n := |frames| - 1;
    if n == 0 {
      assert frames[..0] == [];
    } else {
      HeightLimit(prog, frames[..n]);
      assert n * RecordLimit(prog) == (n - 1) * RecordLimit(prog) + RecordLimit(prog);
    }
  }

  lemma BoundFits(prog: Prog, n: int)
    requires RecordsFit(prog) && 1 <= n <= MAX_LEXI_LEVELS + 1 && (n > 1 ==> |prog| > 1)
    ensures HeightBound(prog, n) < MAX_STACK_HEIGHT
    ensures n <= MAX_LEXI_LEVELS ==>
      forall i :: 0 < i < |prog| ==> HeightBound(prog, n) + HEADER + prog[i].vars < MAX_STACK_HEIGHT
  {
    var l := RecordLimit(prog);
    assert MAX_LEXI_LEVELS * l <= MAX_STACK_HEIGHT - 1 - HEADER - prog[0].vars;
    if |prog| > 1 {
      assert l >= HEADER + prog[1].vars > 0;
      assert (n - 1) * l <= MAX_LEXI_LEVELS * l;
      assert n <= MAX_LEXI_LEVELS ==> (n - 1) * l + l <= MAX_LEXI_LEVELS * l;
    }
  }

  /** What a statement leaves alone: the records but for their variables. What is noted stays noted. */
  ghost predicate Carried(st: Store, o: Outcome) {
    o.Done? || o.Returned? ==>
      SameShape(st.frames, o.st.frames) && st.peak <= o.st.peak && (st.fell ==> o.st.fell)
  }

  lemma EnterPushes(prog: Prog, m: Mode, x: string, env: Env, st: Store)
    ensures var o := Enter(prog, m, x, env, st);
            && !o.Returned?
            && (o.Done? ==>
                  && |o.st.frames| == |st.frames| + 1
                  && o.st == Pushed(st, o.st.frames[|st.frames|])
                  && 0 < Running(o.st.frames) < |prog|
                  && |o.st.frames[|st.frames|].vars| == prog[Running(o.st.frames)].vars)
  {
  }

  lemma CalleeCarried(m: Mode, st: Store, f: Frame, o: Outcome, returning: bool)
    requires Carried(Pushed(st, f), o)
    ensures Carried(st, Leave(m, o, returning))
  {
    if o.Done? || o.Returned? {
      var n := |st.frames|;
      assert forall i :: 0 <= i < n ==> Pushed(st, f).frames[i] == st.frames[i];
    }
  }

  lemma {:induction false} ExecCarries(prog: Prog, m: Mode, s: Stmt, id: nat, st: Store, fuel: nat)
    requires id < |prog|
    ensures Carried(st, Exec(prog, m, s, id, st, fuel))
    decreases fuel, s
  {
    hide Leave, Pushed, Enter;
    match s
    case Call(x) =>
      EnterPushes(prog, m, x, prog[id].env, st);
      var o := Enter(prog, m, x, prog[id].env, st);
      if o.Done? && fuel > 0 {
        var callee := Running(o.st.frames);
        if callee < |prog| {
          ExecCarries(prog, m, prog[callee].body, callee, o.st, fuel - 1);
          CalleeCarried(m, st, o.st.frames[|st.frames|], Exec(prog, m, prog[callee].body, callee, o.st, fuel - 1),
                        Returning(prog[callee].body, prog[callee].env, o.st.frames));
        }
      }
    case Begin(first, rest) =>
      ExecCarries(prog, m, first, id, st, fuel);
      var o := Exec(prog, m, first, id, st, fuel);
      if o.Done? {
        ExecAllCarries(prog, m, rest, id, o.st, fuel);
      }
    case If(_, t) => ExecCarries(prog, m, t, id, st, fuel);
    case IfElse(_, t, e) =>
      ExecCarries(prog, m, t, id, st, fuel);
      ExecCarries(prog, m, e, id, st, fuel);
    case While(_, b) =>
      ExecCarries(prog, m, b, id, st, fuel);
      var o := Exec(prog, m, b, id, st, fuel);
      if o.Done? && fuel > 0 {
        ExecCarries(prog, m, s, id, o.st, fuel - 1);
      }
    case _ =>
  }

  lemma {:induction false} ExecAllCarries(prog: Prog, m: Mode, ss: Stmts, id: nat, st: Store, fuel: nat)
    requires id < |prog|
    ensures Carried(st, ExecAll(prog, m, ss, id, st, fuel))
    decreases fuel, ss
  {
    if ss.MoreStmts? {
      ExecCarries(prog, m, ss.stmt, id, st, fuel);
      var o := Exec(prog, m, ss.stmt, id, st, fuel);
      if o.Done? {
        ExecAllCarries(prog, m, ss.next, id, o.st, fuel);
      }
    }
  }

  // ---------- the two meanings ----------

  predicate IsTooDeep(o: Outcome) {
    o.Faulted? && o.fault == TooDeep
  }

  predicate IsFall(o: Outcome) {
    o.Faulted? && o.fault == FallThrough
  }

  /**
    `a` is what PL/0 comes to and `b` what the emitted code does, from the store `st`: the same,
    a `tail` statement perhaps returning, or else too deep, or a fall through the end of a body.
    If PL/0 ends the statement, `b` is the same exactly when the peak stays within what the
    machine has room for and no call has come to the end of its body without a return.
   */
  predicate Agrees(a: Outcome, b: Outcome, st: Store, tail: bool) {
    && !a.Returned? && (a.Done? ==> st.peak <= a.st.peak && (st.fell ==> a.st.fell))
    && (b == a || (tail && a.Done? && b == Returned(a.st)) || IsTooDeep(b) || IsFall(b))
    && (a.Done? && IsTooDeep(b) ==> a.st.peak > MAX_LEXI_LEVELS)
    && (a.Done? && IsFall(b) ==> a.st.fell)
    && (a.Done? && st.peak <= MAX_LEXI_LEVELS && !st.fell ==>
          (a.st.peak > MAX_LEXI_LEVELS || a.st.fell ==> IsTooDeep(b) || IsFall(b)))
  }

  /** Records small enough, and counted by the peak. */
  predicate Roomy(prog: Prog, st: Store) {
    FramesFit(prog, st.frames) && |st.frames| <= st.peak
  }

  /** A statement of the program, or one of a procedure with a begin..end in it only at its tail. */
  predicate Fits(s: Stmt, id: nat, env: Env, tail: bool) {
    NoConstWrite(s, env) && (id > 0 ==> if tail then Tail(s) else NoBegin(s))
  }

  predicate FitsAll(ss: Stmts, id: nat, env: Env, tail: bool) {
    NoConstWriteAll(ss, env) && (id > 0 ==> if tail then TailAll(ss) else NoBeginAll(ss))
  }

  lemma {:induction false} EmptyRun(prog: Prog, m: Mode, ss: Stmts, id: nat, st: Store, fuel: nat)
    requires id < |prog| && AllEmpty(ss)
    ensures ExecAll(prog, m, ss, id, st, fuel) == Done(st)
    decreases ss
  {
    if ss.MoreStmts? {
      EmptyRun(prog, m, ss.next, id, st, fuel);
    }
  }

  lemma CarriedRoomy(prog: Prog, st: Store, o: Outcome)
    requires Roomy(prog, st) && Carried(st, o) && (o.Done? || o.Returned?)
    ensures Roomy(prog, o.st)
  {
  }

  // ---------- where a body returns ----------

  /** Without a begin..end, code in a procedure does not return from it. */
  lemma {:induction false} NoReturn(prog: Prog, s: Stmt, id: nat, st: Store, fuel: nat)
    requires id < |prog| && NoBegin(s)
    ensures !Exec(prog, IMPLEMENTED, s, id, st, fuel).Returned?
    decreases fuel, s
  {
    match s
    case If(_, t) => NoReturn(prog, t, id, st, fuel);
    case IfElse(_, t, e) =>
      NoReturn(prog, t, id, st, fuel);
      NoReturn(prog, e, id, st, fuel);
    case While(_, b) =>
      NoReturn(prog, b, id, st, fuel);
      var o := Exec(prog, IMPLEMENTED, b, id, st, fuel);
      if o.Done? && fuel > 0 {
        NoReturn(prog, s, id, o.st, fuel - 1);
      }
    case _ =>
  }

  /** The code of a body with begin..end at its tail returns exactly when the conditions on the way say so. */
  lemma {:induction false} TailReturns(prog: Prog, s: Stmt, id: nat, st: Store, fuel: nat)
    requires 0 < id < |prog| && Tail(s)
    ensures var b := Exec(prog, IMPLEMENTED, s, id, st, fuel);
            && (b.Returned? ==> Returning(s, prog[id].env, st.frames))
            && (b.Done? ==> !Returning(s, prog[id].env, st.frames))
    decreases s
  {
    match s
    case If(_, t) => TailReturns(prog, t, id, st, fuel);
    case IfElse(_, t, e) =>
      TailReturns(prog, t, id, st, fuel);
      TailReturns(prog, e, id, st, fuel);
    case While(_, b) =>
      NoReturn(prog, s, id, st, fuel);
      NoneReturning(b, prog[id].env, st.frames);
    case _ =>
  }

  lemma {:induction false} NoneReturning(s: Stmt, env: Env, frames: seq<Frame>)
    requires NoBegin(s)
    ensures !Returning(s, env, frames)
    decreases s
  {
    match s
    case If(_, t) => NoneReturning(t, env, frames);
    case IfElse(_, t, e) => NoneReturning(t, env, frames); NoneReturning(e, env, frames);
    case While(_, b) => NoneReturning(b, env, frames);
    case _ =>
  }

  // ---------- the two meanings, statement by statement ----------

  lemma {:induction false} SameExec(prog: Prog, s: Stmt, id: nat, st: Store, fuel: nat, tail: bool)
    requires TailProgram(prog) && RecordsFit(prog) && Roomy(prog, st)
    requires id < |prog| && Fits(s, id, prog[id].env, tail)
    ensures Agrees(Exec(prog, STANDARD, s, id, st, fuel), Exec(prog, IMPLEMENTED, s, id, st, fuel), st, tail && id > 0)
    decreases fuel, s, 1
  {
    hide TailProgram, RecordsFit, Roomy;
    match s
    case Call(x) => SameCall(prog, x, id, st, fuel);
    case Begin(first, rest) => SameBegin(prog, s, id, st, fuel, tail);
    case If(_, t) => SameExec(prog, t, id, st, fuel, tail);
    case IfElse(_, t, e) =>
      SameExec(prog, t, id, st, fuel, tail);
      SameExec(prog, e, id, st, fuel, tail);
    case While(_, b) =>
      SameExec(prog, b, id, st, fuel, false);
      var o := Exec(prog, STANDARD, b, id, st, fuel);
      if o.Done? && fuel > 0 {
        ExecCarries(prog, STANDARD, b, id, st, fuel);
        CarriedRoomy(prog, st, o);
        SameExec(prog, s, id, o.st, fuel - 1, tail);
      }
    case _ =>
  }

  lemma {:induction false} SameBegin(prog: Prog, s: Stmt, id: nat, st: Store, fuel: nat, tail: bool)
    requires TailProgram(prog) && RecordsFit(prog) && Roomy(prog, st)
    requires s.Begin? && id < |prog| && Fits(s, id, prog[id].env, tail)
    ensures Agrees(Exec(prog, STANDARD, s, id, st, fuel), Exec(prog, IMPLEMENTED, s, id, st, fuel), st, tail && id > 0)
    decreases fuel, s, 0
  {
    hide TailProgram, RecordsFit, Roomy;
    var last := id > 0 && AllEmpty(s.rest);
    SameExec(prog, s.first, id, st, fuel, last);
    var o := Exec(prog, STANDARD, s.first, id, st, fuel);
    if o.Done? {
      ExecCarries(prog, STANDARD, s.first, id, st, fuel);
      CarriedRoomy(prog, st, o);
      if last {
        EmptyRun(prog, STANDARD, s.rest, id, o.st, fuel);
        EmptyRun(prog, IMPLEMENTED, s.rest, id, o.st, fuel);
      } else {
        SameExecAll(prog, s.rest, id, o.st, fuel, id > 0);
      }
    }
  }

  lemma {:induction false} SameExecAll(prog: Prog, ss: Stmts, id: nat, st: Store, fuel: nat, tail: bool)
    requires TailProgram(prog) && RecordsFit(prog) && Roomy(prog, st)
    requires id < |prog| && FitsAll(ss, id, prog[id].env, tail)
    ensures Agrees(ExecAll(prog, STANDARD, ss, id, st, fuel), ExecAll(prog, IMPLEMENTED, ss, id, st, fuel),
                   st, tail && id > 0)
    decreases fuel, ss
  {
    hide TailProgram, RecordsFit, Roomy;
    if ss.MoreStmts? {
      var last := tail && id > 0 && AllEmpty(ss.next);
      SameExec(prog, ss.stmt, id, st, fuel, last);
      var o := Exec(prog, STANDARD, ss.stmt, id, st, fuel);
      if o.Done? {
        ExecCarries(prog, STANDARD, ss.stmt, id, st, fuel);
        CarriedRoomy(prog, st, o);
        if last {
          EmptyRun(prog, STANDARD, ss.next, id, o.st, fuel);
          EmptyRun(prog, IMPLEMENTED, ss.next, id, o.st, fuel);
        } else {
          SameExecAll(prog, ss.next, id, o.st, fuel, tail);
        }
      }
    }
  }

  /** Up to the machine's limit a call enters the record PL/0 enters. */
  lemma EnterSame(prog: Prog, x: string, env: Env, st: Store)
    requires RecordsFit(prog) && Roomy(prog, st)
    ensures var o := Enter(prog, STANDARD, x, env, st);
            && (Enter(prog, IMPLEMENTED, x, env, st) == o
                || (o.Done? && st.peak > MAX_LEXI_LEVELS && IsTooDeep(Enter(prog, IMPLEMENTED, x, env, st))))
            && (o.Done? ==> Roomy(prog, o.st))
  {
    hide Height, RecordLimit, HeightBound, Hop;
    EnterPushes(prog, STANDARD, x, env, st);
    if Enter(prog, STANDARD, x, env, st).Done? && |st.frames| <= MAX_LEXI_LEVELS {
      HeightLimit(prog, st.frames);
      BoundFits(prog, |st.frames|);
    }
  }

  lemma {:induction false} SameCall(prog: Prog, x: string, id: nat, st: Store, fuel: nat)
    requires TailProgram(prog) && RecordsFit(prog) && Roomy(prog, st) && id < |prog|
    ensures Agrees(Exec(prog, STANDARD, Call(x), id, st, fuel), Exec(prog, IMPLEMENTED, Call(x), id, st, fuel), st,
                   false)
    decreases fuel, Call(x), 0
  {
    hide Enter, Roomy, RecordsFit, NoConstWrite, Tail, Returning;
    EnterSame(prog, x, prog[id].env, st);
    EnterPushes(prog, STANDARD, x, prog[id].env, st);
    var o := Enter(prog, STANDARD, x, prog[id].env, st);
    if o.Done? && fuel > 0 {
      var callee := Running(o.st.frames);
      var body := prog[callee].body;
      SameExec(prog, body, callee, o.st, fuel - 1, true);
      ExecCarries(prog, STANDARD, body, callee, o.st, fuel - 1);
      TailReturns(prog, body, callee, o.st, fuel - 1);
      LeaveSame(prog, st, o.st, Exec(prog, STANDARD, body, callee, o.st, fuel - 1),
                Exec(prog, IMPLEMENTED, body, callee, o.st, fuel - 1), Returning(body, prog[callee].env, o.st.frames));
    }
  }

  lemma LeaveSame(prog: Prog, st: Store, st1: Store, a: Outcome, b: Outcome, returning: bool)
    requires |st1.frames| == |st.frames| + 1 && st1 == Pushed(st, st1.frames[|st.frames|]) && Roomy(prog, st)
    requires Agrees(a, b, st1, true) && Carried(st1, a)
    requires (b.Returned? ==> returning) && (b.Done? ==> !returning)
    ensures Agrees(Leave(STANDARD, a, returning), Leave(IMPLEMENTED, b, returning), st, false)
  {
    hide FramesFit;
  }

  /**
    On programs whose procedures have begin..end at their tail only, and write no constants, the
    emitted code means PL/0, faults and time-outs included, unless it comes to a call or return
    beyond the machine's trace entries or to the end of a body that does not return. If PL/0 ends
    the run, it does neither exactly when never more records are live at once than there are
    entries and every call's body ends at a begin..end; and then which of the two is in the store.
   */
  lemma TailMeaning(prog: Prog, input: seq<int>, fuel: nat)
    requires TailProgram(prog) && RecordsFit(prog)
    ensures var a, b := ExecProgram(prog, STANDARD, input, fuel), ExecProgram(prog, IMPLEMENTED, input, fuel);
            && (b == a || IsTooDeep(b) || IsFall(b))
            && (a.Done? ==>
                  && (b == a <==> a.st.peak <= MAX_LEXI_LEVELS && !a.st.fell)
                  && (IsTooDeep(b) ==> a.st.peak > MAX_LEXI_LEVELS)
                  && (IsFall(b) ==> a.st.fell))
  {
    SameExec(prog, prog[0].body, 0, InitStore(prog, input), fuel, false);
  }

  // ---------- bodies that always return ----------

  /** A body all of whose ways end at a begin..end ends there if it ends. */
  lemma {:induction false} ReturnsReturning(prog: Prog, s: Stmt, id: nat, st: Store, fuel: nat)
    requires id < |prog| && Returns(s) && Exec(prog, STANDARD, s, id, st, fuel).Done?
    ensures Returning(s, prog[id].env, st.frames)
    decreases s
  {
    if s.IfElse? {
      var v := EvalCond(s.cond, prog[id].env, st.frames);
      ReturnsReturning(prog, if v.v != 0 then s.thn else s.els, id, st, fuel);
    }
  }

  /** In a program of such bodies no call falls through. */
  ghost predicate AllReturn(prog: Prog) {
    forall i :: 0 < i < |prog| ==> Returns(prog[i].body)
  }

  lemma {:induction false} NeverFalls(prog: Prog, s: Stmt, id: nat, st: Store, fuel: nat)
    requires AllReturn(prog) && id < |prog|
    ensures var o := Exec(prog, STANDARD, s, id, st, fuel); o.Done? || o.Returned? ==> o.st.fell == st.fell
    decreases fuel, s
  {
    hide Returning, Returns;
    match s
    case Call(x) =>
      EnterPushes(prog, STANDARD, x, prog[id].env, st);
      var o := Enter(prog, STANDARD, x, prog[id].env, st);
      if o.Done? && fuel > 0 {
        var callee := Running(o.st.frames);
        NeverFalls(prog, prog[callee].body, callee, o.st, fuel - 1);
        if Exec(prog, STANDARD, prog[callee].body, callee, o.st, fuel - 1).Done? {
          ReturnsReturning(prog, prog[callee].body, callee, o.st, fuel - 1);
        }
      }
    case Begin(first, rest) =>
      NeverFalls(prog, first, id, st, fuel);
      var o := Exec(prog, STANDARD, first, id, st, fuel);
      if o.Done? {
        NeverFallsAll(prog, rest, id, o.st, fuel);
      }
    case If(_, t) => NeverFalls(prog, t, id, st, fuel);
    case IfElse(_, t, e) =>
      NeverFalls(prog, t, id, st, fuel);
      NeverFalls(prog, e, id, st, fuel);
    case While(_, b) =>
      NeverFalls(prog, b, id, st, fuel);
      var o := Exec(prog, STANDARD, b, id, st, fuel);
      if o.Done? && fuel > 0 {
        NeverFalls(prog, s, id, o.st, fuel - 1);
      }
    case _ =>
  }

  lemma {:induction false} NeverFallsAll(prog: Prog, ss: Stmts, id: nat, st: Store, fuel: nat)
    requires AllReturn(prog) && id < |prog|
    ensures var o := ExecAll(prog, STANDARD, ss, id, st, fuel); o.Done? || o.Returned? ==> o.st.fell == st.fell
    decreases fuel, ss
  {
    hide AllReturn;
    if ss.MoreStmts? {
      NeverFalls(prog, ss.stmt, id, st, fuel);
      var o := Exec(prog, STANDARD, ss.stmt, id, st, fuel);
      if o.Done? {
        NeverFallsAll(prog, ss.next, id, o.st, fuel);
      }
    }
  }

  /** A number as an expression. */
  function ConstExpr(v: int): Expr {
    Expr(NoSign, Term(Number(v), NoFactors), NoTerms)
  }

  lemma ConstValue(v: int, env: Env, frames: seq<Frame>)
    ensures EvalExpr(ConstExpr(v), env, frames) == Val(v)
  {
    assert EvalTerm(Term(Number(v), NoFactors), env, frames) == Val(v);
  }
}
