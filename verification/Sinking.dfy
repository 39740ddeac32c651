/**
  What "every begin..end of a procedure returns" means for a whole program: the emitted code
  does what PL/0 does with the program in which whatever comes behind a begin..end of a
  procedure has been sunk into the branches that do not go through it, and dropped elsewhere.
 */
module Sinking {
  import opened Machine
  import opened Syntax
  import opened Symbols
  import opened Semantics
  import opened Standard

  /** The body of a loop returns either never or always. */
  predicate Sinkable(s: Stmt) {
    match s
    case Begin(first, rest) => Sinkable(first) && SinkableAll(rest)
    case If(_, t) => Sinkable(t)
    case IfElse(_, t, e) => Sinkable(t) && Sinkable(e)
    case While(_, b) => NoBegin(b) || (Returns(b) && Sinkable(b))
    case _ => true
  }

  predicate SinkableAll(ss: Stmts) {
    match ss
    case NoStmts => true
    case MoreStmts(s, next) => Sinkable(s) && SinkableAll(next)
  }

  function Wrap(ss: Stmts): Stmt {
    Begin(Empty, ss)
  }

  /** `s` and then `k`, where a begin..end in `s` is the end of it all. */
  function Sink(s: Stmt, k: Stmts): Stmts {
    if NoBegin(s) then MoreStmts(s, k)
    else
      match s
      case Begin(first, rest) => Sink(first, SinkAll(rest, NoStmts))
      case If(c, t) => MoreStmts(IfElse(c, Wrap(Sink(t, k)), Wrap(k)), NoStmts)
      case IfElse(c, t, e) => MoreStmts(IfElse(c, Wrap(Sink(t, k)), Wrap(Sink(e, k))), NoStmts)
      case While(c, b) => MoreStmts(IfElse(c, Wrap(Sink(b, NoStmts)), Wrap(k)), NoStmts)
      case _ => k
  }

  function SinkAll(ss: Stmts, k: Stmts): Stmts {
    match ss
    case NoStmts => k
    case MoreStmts(s, next) => Sink(s, SinkAll(next, k))
  }

  /** The body `s` of a procedure, with everything behind its begin..ends sunk; it returns where `s` does. */
  function SinkBody(s: Stmt): Stmt {
    if NoBegin(s) then s
    else
      match s
      case Begin(_, _) => Wrap(Sink(s, NoStmts))
      case If(c, t) => If(c, SinkBody(t))
      case IfElse(c, t, e) => IfElse(c, SinkBody(t), SinkBody(e))
      case While(c, b) => If(c, SinkBody(b))
      case _ => s
  }

  /** The program with the bodies of its procedures sunk. */
  function Sunk(prog: Prog): (r: Prog)
    ensures |r| == |prog|
  {
    seq(|prog|, i requires 0 <= i < |prog| =>
      if i == 0 then prog[i] else prog[i].(body := SinkBody(prog[i].body)))
  }

  /** Every procedure's body can be sunk. */
  ghost predicate SinkableProgram(prog: Prog) {
    prog != [] && forall i :: 0 < i < |prog| ==> Sinkable(prog[i].body)
  }

  // ---------- the sunk program does the same ----------

  /** An outcome, a return taken for an end. */
  function End(o: Outcome): Outcome {
    if o.Returned? then Done(o.st) else o
  }

  /** What `s` and `k` come to when `s` has come to `o`. */
  function Then(prog: Prog, o: Outcome, k: Stmts, id: nat, fuel: nat): Outcome
    requires id < |prog|
  {
    if o.Done? then End(ExecAll(prog, IMPLEMENTED, k, id, o.st, fuel)) else End(o)
  }

  /** In a procedure, code that returns never runs on. */
  lemma {:induction false} ReturnsRun(prog: Prog, s: Stmt, id: nat, st: Store, fuel: nat)
    requires 0 < id < |prog| && Returns(s)
    ensures !Exec(prog, IMPLEMENTED, s, id, st, fuel).Done?
    decreases s
  {
    if s.IfElse? {
      ReturnsRun(prog, s.thn, id, st, fuel);
      ReturnsRun(prog, s.els, id, st, fuel);
    }
  }

  lemma WrapRun(prog: Prog, ss: Stmts, id: nat, st: Store, fuel: nat)
    requires id < |prog|
    ensures End(Exec(prog, IMPLEMENTED, Wrap(ss), id, st, fuel)) == End(ExecAll(prog, IMPLEMENTED, ss, id, st, fuel))
    ensures id > 0 ==> !Exec(prog, IMPLEMENTED, Wrap(ss), id, st, fuel).Done?
  {
    assert Exec(prog, IMPLEMENTED, Empty, id, st, fuel) == Done(st);
  }

  /** A statement alone in its list. */
  lemma LoneRun(prog: Prog, s: Stmt, id: nat, st: Store, fuel: nat)
    requires id < |prog|
    ensures ExecAll(prog, IMPLEMENTED, MoreStmts(s, NoStmts), id, st, fuel) == Exec(prog, IMPLEMENTED, s, id, st, fuel)
  {
    var o := Exec(prog, IMPLEMENTED, s, id, st, fuel);
    assert o.Done? ==> ExecAll(prog, IMPLEMENTED, NoStmts, id, o.st, fuel) == o;
  }

  /** A sunk body does what the body does, and returns where it returns. */
  lemma {:induction false} BodySunk(prog: Prog, s: Stmt, id: nat, st: Store, fuel: nat)
    requires SinkableProgram(prog) && 0 < id < |prog| && Sinkable(s)
    ensures Exec(Sunk(prog), IMPLEMENTED, SinkBody(s), id, st, fuel) == Exec(prog, IMPLEMENTED, s, id, st, fuel)
    decreases fuel, s, 2
  {
    hide Sink, SinkableProgram, NoBegin, Sunk;
    SunkEnv(prog, id);
    if NoBegin(s) {
      ExecSunk(prog, s, id, st, fuel);
    } else {
      match s
      case Begin(_, _) =>
        SinkRun(prog, s, NoStmts, id, st, fuel);
        WrapRun(Sunk(prog), Sink(s, NoStmts), id, st, fuel);
        ReturnsRun(prog, s, id, st, fuel);
      case If(_, t) => BodySunk(prog, t, id, st, fuel);
      case IfElse(_, t, e) =>
        BodySunk(prog, t, id, st, fuel);
        BodySunk(prog, e, id, st, fuel);
      case While(c, b) =>
        LoopNoBegin(c, b);
        BodySunk(prog, b, id, st, fuel);
        ReturnsRun(prog, b, id, st, fuel);
      case _ => SimpleNoBegin(s);
    }
  }

  lemma CalleeSinkable(prog: Prog, i: nat)
    requires SinkableProgram(prog) && 0 < i < |prog|
    ensures Sinkable(prog[i].body)
  {
  }

  lemma SunkEnter(prog: Prog, x: string, env: Env, st: Store)
    requires prog != []
    ensures Enter(Sunk(prog), IMPLEMENTED, x, env, st) == Enter(prog, IMPLEMENTED, x, env, st)
  {
    hide Sink;
  }

  /** Where no begin..end returns, only the called procedures differ, and they do the same. */
  lemma {:induction false} ExecSunk(prog: Prog, s: Stmt, id: nat, st: Store, fuel: nat)
    requires SinkableProgram(prog) && id < |prog| && (id > 0 ==> NoBegin(s))
    ensures Exec(Sunk(prog), IMPLEMENTED, s, id, st, fuel) == Exec(prog, IMPLEMENTED, s, id, st, fuel)
    decreases fuel, s, 0
  {
    hide Sink, SinkableProgram, Enter, EvalExpr, EvalCond, Store1, WriteValue;
    var sunk, env := Sunk(prog), prog[id].env;
    match s
    case Call(x) =>
      var o := Enter(prog, IMPLEMENTED, x, env, st);
      SunkEnter(prog, x, env, st);
      if o.Done? && fuel > 0 {
        EnterPushes(prog, IMPLEMENTED, x, env, st);
        var callee := Running(o.st.frames);
        CalleeSinkable(prog, callee);
        BodySunk(prog, prog[callee].body, callee, o.st, fuel - 1);
      }
    case Begin(first, rest) =>
      ExecSunk(prog, first, id, st, fuel);
      var o := Exec(prog, IMPLEMENTED, first, id, st, fuel);
      if o.Done? {
        ExecAllSunk(prog, rest, id, o.st, fuel);
      }
    case If(_, t) => ExecSunk(prog, t, id, st, fuel);
    case IfElse(_, t, e) =>
      ExecSunk(prog, t, id, st, fuel);
      ExecSunk(prog, e, id, st, fuel);
    case While(_, b) =>
      ExecSunk(prog, b, id, st, fuel);
      var o := Exec(prog, IMPLEMENTED, b, id, st, fuel);
      if o.Done? && fuel > 0 {
        ExecSunk(prog, s, id, o.st, fuel - 1);
      }
    case _ =>
  }

  lemma {:induction false} ExecAllSunk(prog: Prog, ss: Stmts, id: nat, st: Store, fuel: nat)
    requires SinkableProgram(prog) && id < |prog| && (id > 0 ==> NoBeginAll(ss))
    ensures ExecAll(Sunk(prog), IMPLEMENTED, ss, id, st, fuel) == ExecAll(prog, IMPLEMENTED, ss, id, st, fuel)
    decreases fuel, ss, 0
  {
    hide SinkableProgram, Sunk;
    if ss.MoreStmts? {
      ExecSunk(prog, ss.stmt, id, st, fuel);
      var o := Exec(prog, IMPLEMENTED, ss.stmt, id, st, fuel);
      if o.Done? {
        ExecAllSunk(prog, ss.next, id, o.st, fuel);
      }
    }
  }

  /** What has been sunk into a procedure's statement is done exactly when the statement does not return. */
  lemma {:induction false} SinkRun(prog: Prog, s: Stmt, k: Stmts, id: nat, st: Store, fuel: nat)
    requires SinkableProgram(prog) && 0 < id < |prog| && Sinkable(s)
    ensures End(ExecAll(Sunk(prog), IMPLEMENTED, Sink(s, k), id, st, fuel))
         == Then(Sunk(prog), Exec(prog, IMPLEMENTED, s, id, st, fuel), k, id, fuel)
    decreases fuel, s, 1
  {
    hide SinkableProgram, Sunk, SinkAll, NoBegin;
    var sunk := Sunk(prog);
    SunkEnv(prog, id);
    if NoBegin(s) {
      ExecSunk(prog, s, id, st, fuel);
    } else {
      match s
      case Begin(first, rest) =>
        SinkRun(prog, first, SinkAll(rest, NoStmts), id, st, fuel);
        var o := Exec(prog, IMPLEMENTED, first, id, st, fuel);
        if o.Done? {
          SinkAllRun(prog, rest, NoStmts, id, o.st, fuel);
        }
      case If(c, t) =>
        SinkRun(prog, t, k, id, st, fuel);
        WrapRun(sunk, Sink(t, k), id, st, fuel);
        WrapRun(sunk, k, id, st, fuel);
        LoneRun(sunk, IfElse(c, Wrap(Sink(t, k)), Wrap(k)), id, st, fuel);
      case IfElse(c, t, e) =>
        SinkRun(prog, t, k, id, st, fuel);
        SinkRun(prog, e, k, id, st, fuel);
        WrapRun(sunk, Sink(t, k), id, st, fuel);
        WrapRun(sunk, Sink(e, k), id, st, fuel);
        LoneRun(sunk, IfElse(c, Wrap(Sink(t, k)), Wrap(Sink(e, k))), id, st, fuel);
      case While(c, b) =>
        LoopNoBegin(c, b);
        SinkRun(prog, b, NoStmts, id, st, fuel);
        ReturnsRun(prog, b, id, st, fuel);
        WrapRun(sunk, Sink(b, NoStmts), id, st, fuel);
        WrapRun(sunk, k, id, st, fuel);
        LoneRun(sunk, IfElse(c, Wrap(Sink(b, NoStmts)), Wrap(k)), id, st, fuel);
      case _ => SimpleNoBegin(s);
    }
  }

  lemma SunkEnv(prog: Prog, id: nat)
    requires id < |prog|
    ensures Sunk(prog)[id].env == prog[id].env
  {
  }

  lemma LoopNoBegin(c: Cond, b: Stmt)
    ensures NoBegin(While(c, b)) == NoBegin(b)
  {
  }

  lemma SimpleNoBegin(s: Stmt)
    requires s.Empty? || s.Assign? || s.Call? || s.Read? || s.Write?
    ensures NoBegin(s)
  {
  }

  lemma {:induction false} SinkAllRun(prog: Prog, ss: Stmts, k: Stmts, id: nat, st: Store, fuel: nat)
    requires SinkableProgram(prog) && 0 < id < |prog| && SinkableAll(ss)
    ensures End(ExecAll(Sunk(prog), IMPLEMENTED, SinkAll(ss, k), id, st, fuel))
         == Then(Sunk(prog), ExecAll(prog, IMPLEMENTED, ss, id, st, fuel), k, id, fuel)
    decreases fuel, ss, 1
  {
    hide SinkableProgram, Sunk, Sink, Exec;
    if ss.MoreStmts? {
      SinkRun(prog, ss.stmt, SinkAll(ss.next, k), id, st, fuel);
      var o := Exec(prog, IMPLEMENTED, ss.stmt, id, st, fuel);
      if o.Done? {
        SinkAllRun(prog, ss.next, k, id, o.st, fuel);
      }
    }
  }

  // ---------- the sunk program is one the compiler translates as PL/0 ----------

  lemma {:induction false} NoBeginTail(s: Stmt)
    requires NoBegin(s)
    ensures Tail(s)
    decreases s
  {
    match s
    case If(_, t) => NoBeginTail(t);
    case IfElse(_, t, e) => NoBeginTail(t); NoBeginTail(e);
    case _ =>
  }

  lemma {:induction false} SinkPlain(s: Stmt, k: Stmts, env: Env)
    requires Sinkable(s) && TailAll(k) && NoConstWrite(s, env) && NoConstWriteAll(k, env)
    ensures TailAll(Sink(s, k)) && NoConstWriteAll(Sink(s, k), env)
    decreases s
  {
    hide SinkAll;
    if NoBegin(s) {
      NoBeginTail(s);
    } else {
      match s
      case Begin(first, rest) =>
        SinkAllPlain(rest, NoStmts, env);
        SinkPlain(first, SinkAll(rest, NoStmts), env);
      case If(c, t) =>
        SinkPlain(t, k, env);
        BranchesPlain(c, Sink(t, k), k, env);
      case IfElse(c, t, e) =>
        SinkPlain(t, k, env);
        SinkPlain(e, k, env);
        BranchesPlain(c, Sink(t, k), Sink(e, k), env);
      case While(c, b) =>
        SinkPlain(b, NoStmts, env);
        BranchesPlain(c, Sink(b, NoStmts), k, env);
      case _ =>
    }
  }

  lemma BranchesPlain(c: Cond, a: Stmts, b: Stmts, env: Env)
    requires TailAll(a) && NoConstWriteAll(a, env) && TailAll(b) && NoConstWriteAll(b, env)
    ensures var both := MoreStmts(IfElse(c, Wrap(a), Wrap(b)), NoStmts); TailAll(both) && NoConstWriteAll(both, env)
  {
    assert Tail(Wrap(a)) && Tail(Wrap(b));
    assert NoConstWrite(Wrap(a), env) && NoConstWrite(Wrap(b), env);
    assert Tail(IfElse(c, Wrap(a), Wrap(b))) && NoConstWrite(IfElse(c, Wrap(a), Wrap(b)), env);
  }

  lemma {:induction false} SinkAllPlain(ss: Stmts, k: Stmts, env: Env)
    requires SinkableAll(ss) && TailAll(k) && NoConstWriteAll(ss, env) && NoConstWriteAll(k, env)
    ensures TailAll(SinkAll(ss, k)) && NoConstWriteAll(SinkAll(ss, k), env)
    decreases ss
  {
    if ss.MoreStmts? {
      SinkAllPlain(ss.next, k, env);
      SinkPlain(ss.stmt, SinkAll(ss.next, k), env);
    }
  }

  lemma {:induction false} BodyPlain(s: Stmt, env: Env)
    requires Sinkable(s) && NoConstWrite(s, env)
    ensures Tail(SinkBody(s)) && NoConstWrite(SinkBody(s), env)
    decreases s
  {
    hide Sink;
    if NoBegin(s) {
      NoBeginTail(s);
    } else {
      match s
      case Begin(_, _) =>
        SinkPlain(s, NoStmts, env);
        var body := Sink(s, NoStmts);
        assert Tail(Wrap(body)) && NoConstWrite(Wrap(body), env);
      case If(_, t) => BodyPlain(t, env);
      case IfElse(_, t, e) => BodyPlain(t, env); BodyPlain(e, env);
      case While(_, b) => BodyPlain(b, env);
      case _ =>
    }
  }

  lemma SunkTail(prog: Prog)
    requires SinkableProgram(prog)
    requires forall i :: 0 <= i < |prog| ==> NoConstWrite(prog[i].body, prog[i].env)
    ensures TailProgram(Sunk(prog))
    ensures RecordsFit(prog) ==> RecordsFit(Sunk(prog))
  {
    hide SinkBody, Sinkable;
    forall i | 0 < i < |prog|
      ensures Tail(Sunk(prog)[i].body) && NoConstWrite(Sunk(prog)[i].body, prog[i].env)
    {
      BodyPlain(prog[i].body, prog[i].env);
    }
  }

  /**
    The emitted code means PL/0 of the sunk program, whatever stands behind a begin..end of a
    procedure: same outcome unless too deep, or a fall through the end of a body. Of a run that
    PL/0 ends, it is the same exactly when never more records are live at once than the machine
    has room for and every call's body ends at a begin..end.
   */
  lemma SunkMeaning(prog: Prog, input: seq<int>, fuel: nat)
    requires SinkableProgram(prog) && RecordsFit(prog)
    requires forall i :: 0 <= i < |prog| ==> NoConstWrite(prog[i].body, prog[i].env)
    ensures var a, b := ExecProgram(Sunk(prog), STANDARD, input, fuel), ExecProgram(prog, IMPLEMENTED, input, fuel);
            && (b == a || IsTooDeep(b) || IsFall(b))
            && (a.Done? ==>
                  && (b == a <==> a.st.peak <= MAX_LEXI_LEVELS && !a.st.fell)
                  && (IsTooDeep(b) ==> a.st.peak > MAX_LEXI_LEVELS)
                  && (IsFall(b) ==> a.st.fell))
  {
    hide Sink, Sinkable, TailProgram, RecordsFit;
    SunkTail(prog);
    TailMeaning(Sunk(prog), input, fuel);
    ExecSunk(prog, prog[0].body, 0, InitStore(prog, input), fuel);
  }

  /**
    So, of a program PL/0 runs to its end, the code does what PL/0 does exactly when sinking
    changes nothing about the run, its records find room and its calls return.
   */
  lemma BeginEndExact(prog: Prog, input: seq<int>, fuel: nat)
    requires SinkableProgram(prog) && RecordsFit(prog)
    requires forall i :: 0 <= i < |prog| ==> NoConstWrite(prog[i].body, prog[i].env)
    requires ExecProgram(prog, STANDARD, input, fuel).Done?
    ensures var a := ExecProgram(prog, STANDARD, input, fuel);
            ExecProgram(prog, IMPLEMENTED, input, fuel) == a
            <==> ExecProgram(Sunk(prog), STANDARD, input, fuel) == a && a.st.peak <= MAX_LEXI_LEVELS && !a.st.fell
  {
    hide ExecProgram, SinkableProgram, RecordsFit;
    SunkMeaning(prog, input, fuel);
  }

  /**
    One begin..end among the statements of a procedure, which itself runs as in PL/0: the
    statements do as in PL/0 exactly when those behind it would have done nothing.
   */
  lemma NestedBeginExact(prog: Prog, b: Stmt, next: Stmts, id: nat, st: Store, st1: Store, fuel: nat)
    requires 0 < id < |prog| && b.Begin?
    requires Exec(prog, STANDARD, b, id, st, fuel) == Done(st1)
    requires End(Exec(prog, IMPLEMENTED, b, id, st, fuel)) == Done(st1)
    ensures End(ExecAll(prog, IMPLEMENTED, MoreStmts(b, next), id, st, fuel))
            == ExecAll(prog, STANDARD, MoreStmts(b, next), id, st, fuel)
       <==> ExecAll(prog, STANDARD, next, id, st1, fuel) == Done(st1)
  {
    hide Exec;
    ReturnsRun(prog, b, id, st, fuel);
  }
}
