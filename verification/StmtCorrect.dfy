/** Statement code, calls included, does to the machine what the statement does to the store. */
module StmtCorrect {
  import opened Common
  import opened Machine
  import opened Syntax
  import opened Symbols
  import opened Compile
  import opened Semantics
  import opened Records
  import opened Registers
  import opened ExprCorrect

  /** The code of a procedure with its first instruction, which moves sp by `room`, at `entry`. */
  function RoomCode(prog: Prog, id: nat, entry: int, room: int): seq<Instruction>
    requires id < |prog|
  {
    [Instruction(INC, 0, 0, room)]
    + CompileStmt(prog[id].body, entry + 1, 0, prog[id].env, id > 0)
    + (if id == 0 then [Instruction(SIO, 0, 0, 3)] else [])
  }

  /** What the finished code set of a procedure holds, its first instruction at `entry`. */
  function ProcCode(prog: Prog, id: nat, entry: int): seq<Instruction>
    requires id < |prog|
  {
    RoomCode(prog, id, entry, prog[id].vars + HEADER)
  }

  /** A jump table with one entry a procedure, and each procedure's code at its entry. */
  ghost predicate Loaded(code: seq<Instruction>, prog: Prog, entry: seq<int>) {
    && 0 < |prog| == |entry| <= |code| < MAX_CODE_LENGTH
    && forall i :: 0 <= i < |prog| ==>
         && code[i] == Instruction(JMP, 0, 0, entry[i])
         && At(code, entry[i], ProcCode(prog, i, entry[i]))
  }

  /**
    The same, but that a procedure which calls none need not have its variables inside its record:
    how far its INC moves sp is of no consequence.
   */
  ghost predicate Placed(code: seq<Instruction>, prog: Prog, entry: seq<int>) {
    && 0 < |prog| == |entry| <= |code| < MAX_CODE_LENGTH
    && forall i :: 0 <= i < |prog| ==> PlacedAt(code, prog, i, entry[i])
  }

  ghost predicate PlacedAt(code: seq<Instruction>, prog: Prog, i: nat, e: int)
    requires i < |prog|
  {
    && i < |code| && code[i] == Instruction(JMP, 0, 0, e)
    && 0 <= e < |code| && At(code, e, RoomCode(prog, i, e, code[e].m))
    && (code[e].m == prog[i].vars + HEADER || NoCall(prog[i].body))
  }

  lemma LoadedPlaced(code: seq<Instruction>, prog: Prog, entry: seq<int>)
    requires Loaded(code, prog, entry)
    ensures Placed(code, prog, entry)
  {
    hide CompileStmt;
    forall i | 0 <= i < |prog|
      ensures PlacedAt(code, prog, i, entry[i])
    {
      var c := ProcCode(prog, i, entry[i]);
      assert code[entry[i]] == code[entry[i]..entry[i] + |c|][0] == c[0];
    }
  }

  /** sp is at the end of the records. */
  predicate Topped(st: Store, s: State) {
    s.sp == Height(st.frames)
  }

  /** No procedure needs more registers than the machine has. */
  ghost predicate RegistersFit(prog: Prog) {
    forall i :: 0 <= i < |prog| ==> NeedStmt(prog[i].body) <= COMMON_REGISTER_NUMBER
  }

  /** Machine and store agree, but for sp: records, input left and output so far. */
  ghost predicate Sync(st: Store, ras: seq<int>, s: State) {
    && InBody(st.frames, ras, s)
    && s.status == RUNNING
    && s.input == st.input
    && s.output == st.output
  }

  /**
    The machine has done what the outcome says: gone past the code, sp at the end of the records
    again if it was (`top`), or stopped short of an RTN.
   */
  ghost predicate Matches(code: seq<Instruction>, o: Outcome, st: Store, ras: seq<int>, s': State, pc: int, top: bool) {
    match o
    case Done(st') =>
      Sync(st', ras, s') && s'.pc == pc && SameShape(st.frames, st'.frames) && (top ==> Topped(st', s'))
    case Returned(st') =>
      Sync(st', ras, s') && At(code, s'.pc, [Instruction(RTN, 0, 0, 0)]) && SameShape(st.frames, st'.frames)
    case _ => false
  }

  predicate NoCall(s: Stmt) {
    match s
    case Call(_) => false
    case Begin(first, rest) => NoCall(first) && NoCallAll(rest)
    case If(_, t) => NoCall(t)
    case IfElse(_, t, e) => NoCall(t) && NoCall(e)
    case While(_, b) => NoCall(b)
    case _ => true
  }

  predicate NoCallAll(ss: Stmts) {
    match ss
    case NoStmts => true
    case MoreStmts(s, next) => NoCall(s) && NoCallAll(next)
  }

  lemma LaidReadable(frames: seq<Frame>, ras: seq<int>, stack: seq<int>)
    requires Laid(frames, ras, stack)
    ensures Readable(frames, stack, BaseOf(frames, |frames| - 1))
  {
    forall hops, addr | ReadVar(frames, hops, addr).Val?
      ensures var a := Address(stack, hops, BaseOf(frames, |frames| - 1), addr);
              a.Some? && stack[a.value] == ReadVar(frames, hops, addr).v
    {
      ReadLaid(frames, ras, stack, hops, addr);
    }
  }

  /** Computing into a register leaves machine and store in agreement. */
  lemma SyncComputed(st: Store, ras: seq<int>, s: State, s': State, p: nat, v: int, len: nat)
    requires Sync(st, ras, s) && Computed(s, s', p, v, len)
    ensures Sync(st, ras, s')
  {
  }

  /** STO of a computed value. */
  lemma StoreRun(code: seq<Instruction>, s: State, x: string, p: nat, v: int, env: Env, st: Store, ras: seq<int>)
    returns (s': State)
    requires Sync(st, ras, s)
    requires At(code, s.pc, Access(STO, p, x, env))
    requires p < COMMON_REGISTER_NUMBER && s.regs[p] == v
    requires Store1(x, v, env, st).Done?
    ensures Reaches(code, s, s')
    ensures Sync(Store1(x, v, env, st).st, ras, s') && s'.pc == s.pc + |Access(STO, p, x, env)|
    ensures SameShape(st.frames, Store1(x, v, env, st).st.frames)
    ensures s'.regs == s.regs && s'.sp == s.sp
    ensures Height(Store1(x, v, env, st).st.frames) == Height(st.frames)
  {
    var b := env.Find(x).value;
    StepAt(code, s, Instruction(STO, p, b.hops, b.addr));
    WriteInBody(st.frames, ras, s, b.hops, b.addr, v);
    SameHeight(st.frames, Store1(x, v, env, st).st.frames);
    s' := Step(code, s);
  }

  // ---------- calls ----------

  /** The header CAL writes, and INC over it, make the record the called body starts with. */
  lemma EnterRun(
      code: seq<Instruction>, prog: Prog, entry: seq<int>, s: State, x: string, env: Env, st: Store, ras: seq<int>)
    returns (s': State)
    requires Placed(code, prog, entry)
    requires Sync(st, ras, s) && Topped(st, s)
    requires At(code, s.pc, Access(CAL, 0, x, env))
    requires Enter(prog, IMPLEMENTED, x, env, st).Done?
    ensures Reaches(code, s, s')
    ensures var st' := Enter(prog, IMPLEMENTED, x, env, st).st;
            && 0 < Running(st'.frames) < |prog|
            && |st'.frames| == |st.frames| + 1
            && st'.frames[..|st.frames|] == st.frames
            && Sync(st', ras + [s.pc + 1], s')
            && s'.pc == entry[Running(st'.frames)] + 1
            && (Topped(st', s') || NoCall(prog[Running(st'.frames)].body))
  {
    hide FrameAt, Placed;
    var b := env.Find(x).value;
    var link := Hop(st.frames, Top(st.frames), b.hops).value;
    var f := NewFrame(b.addr, link, prog[b.addr].vars);
    CallHeader(st.frames, ras, s, b.hops, s.pc + 1, f);
    StepAt(code, s, Instruction(CAL, 0, b.hops, b.addr));
    var s1 := Step(code, s);
    assert s1.stack == CallStack(s.stack, s.sp, BaseOf(st.frames, link), s.bp, s.pc + 1);
    PushLaid(st.frames, ras, s1.stack, f, s.pc + 1);
    s' := TrampolineRun(code, prog, entry, s1, b.addr);
    ReachTrans(code, s, s1, s');
  }

  /** From the jump-table entry of a procedure over its INC to its first statement. */
  lemma TrampolineRun(code: seq<Instruction>, prog: Prog, entry: seq<int>, s: State, id: nat) returns (s': State)
    requires Placed(code, prog, entry) && id < |prog|
    requires s.status == RUNNING && s.pc == id
    ensures Reaches(code, s, s') && 0 <= entry[id] < |code|
    ensures s' == s.(pc := entry[id] + 1, sp := s.sp + code[entry[id]].m)
    ensures code[entry[id]].m == prog[id].vars + HEADER || NoCall(prog[id].body)
  {
    assert PlacedAt(code, prog, id, entry[id]);
    hide CompileStmt, NoCall, Placed;
    var e := entry[id];
    var i := Instruction(INC, 0, 0, code[e].m);
    var body := CompileStmt(prog[id].body, e + 1, 0, prog[id].env, id > 0);
    AtSplit(code, e, [i] + body, if id == 0 then [Instruction(SIO, 0, 0, 3)] else []);
    AtSplit(code, e, [i], body);
    ReachStep(code, s);
    var s1 := Step(code, s);
    assert s1 == s.(pc := e);
    StepAt(code, s1, i);
    s' := Step(code, s1);
    ReachTrans(code, s, s1, s');
  }

  /** RTN restores the caller's record and goes on after the call. */
  lemma ReturnRun(code: seq<Instruction>, s: State, st: Store, ras: seq<int>) returns (s': State)
    requires Sync(st, ras, s) && 1 < |st.frames| <= MAX_LEXI_LEVELS
    requires At(code, s.pc, [Instruction(RTN, 0, 0, 0)])
    ensures Reaches(code, s, s')
    ensures var n := |st.frames| - 1;
            && Sync(st.(frames := st.frames[..n]), ras[..n], s')
            && s'.pc == ras[n] && Topped(st.(frames := st.frames[..n]), s')
  {
    var n := |st.frames| - 1;
    StepAt(code, s, Instruction(RTN, 0, 0, 0));
    s' := Step(code, s);
    assert FrameAt(st.frames, ras, s.stack, n);
    BaseBound(st.frames, n);
    BaseApart(st.frames, 0, n);
    PopLaid(st.frames, ras, s.stack);
  }

  // ---------- statements ----------

  /** Machine and store agree, and the machine is in front of the code `seg`, for which it has the registers. */
  ghost predicate Begins(
      code: seq<Instruction>, prog: Prog, entry: seq<int>, s: State, seg: seq<Instruction>, need: nat,
      id: nat, st: Store, ras: seq<int>)
  {
    && Placed(code, prog, entry)
    && RegistersFit(prog)
    && id < |prog|
    && Sync(st, ras, s)
    && At(code, s.pc, seg)
    && need <= COMMON_REGISTER_NUMBER
  }

  /** Everything `StmtRun` asks for: the statement is loaded at pc, and its run ends well. */
  ghost predicate Start(
      code: seq<Instruction>, prog: Prog, entry: seq<int>, s: State, seg: seq<Instruction>, need: nat,
      id: nat, st: Store, ras: seq<int>, o: Outcome)
  {
    Begins(code, prog, entry, s, seg, need, id, st, ras) && (o.Done? || o.Returned?)
  }

  /** The machine carries on from `s1` exactly as from `s`, which had come to `s1`. */
  lemma MatchAfter(code: seq<Instruction>, o: Outcome, s: State, s1: State, s': State,
                   st: Store, st1: Store, ras: seq<int>, pc: int)
    requires Reaches(code, s, s1) && SameShape(st.frames, st1.frames) && (Topped(st, s) ==> Topped(st1, s1))
    requires Reaches(code, s1, s') && Matches(code, o, st1, ras, s', pc, Topped(st1, s1))
    ensures Reaches(code, s, s') && Matches(code, o, st, ras, s', pc, Topped(st, s))
  {
    ReachTrans(code, s, s1, s');
  }

  /** A computed condition and its JPC: on to the next instruction, or to the target when it is 0. */
  lemma BranchRun(
      code: seq<Instruction>, s: State, c: Cond, p: nat, env: Env, target: int, st: Store, ras: seq<int>)
    returns (s': State)
    requires Sync(st, ras, s)
    requires At(code, s.pc, CompileCond(c, p, env) + [Instruction(JPC, p, 0, target)])
    requires p + NeedCond(c) <= COMMON_REGISTER_NUMBER
    requires EvalCond(c, env, st.frames).Val?
    ensures Reaches(code, s, s') && Sync(st, ras, s')
    ensures s'.pc == if EvalCond(c, env, st.frames).v == 0 then target else s.pc + |CompileCond(c, p, env)| + 1
    ensures s'.sp == s.sp
    ensures s'.regs[..p] == s.regs[..p]
  {
    var cc := CompileCond(c, p, env);
    var jpc := Instruction(JPC, p, 0, target);
    AtSplit(code, s.pc, cc, [jpc]);
    LaidReadable(st.frames, ras, s.stack);
    var v := EvalCond(c, env, st.frames).v;
    var s1 := CondRun(code, s, c, p, env, st.frames);
    SyncComputed(st, ras, s, s1, p, v, |cc|);
    StepAt(code, s1, jpc);
    s' := Step(code, s1);
    ReachTrans(code, s, s1, s');
  }

  lemma JumpRun(code: seq<Instruction>, s: State, target: int, st: Store, ras: seq<int>) returns (s': State)
    requires Sync(st, ras, s) && At(code, s.pc, [Instruction(JMP, 0, 0, target)])
    ensures Reaches(code, s, s') && s' == s.(pc := target) && Sync(st, ras, s')
  {
    StepAt(code, s, Instruction(JMP, 0, 0, target));
    s' := Step(code, s);
  }

  lemma AssignRun(
      code: seq<Instruction>, s: State, x: string, e: Expr, p: nat, env: Env, st: Store, ras: seq<int>)
    returns (s': State)
    requires Sync(st, ras, s)
    requires At(code, s.pc, CompileExpr(e, p, env) + Access(STO, p, x, env))
    requires p + NeedExpr(e) <= COMMON_REGISTER_NUMBER
    requires EvalExpr(e, env, st.frames).Val? && Store1(x, EvalExpr(e, env, st.frames).v, env, st).Done?
    ensures Reaches(code, s, s')
    ensures Matches(code, Store1(x, EvalExpr(e, env, st.frames).v, env, st), st, ras, s',
                    s.pc + |CompileExpr(e, p, env) + Access(STO, p, x, env)|, Topped(st, s))
    ensures s'.regs[..p] == s.regs[..p]
  {
    var a := CompileExpr(e, p, env);
    var v := EvalExpr(e, env, st.frames).v;
    AtSplit(code, s.pc, a, Access(STO, p, x, env));
    LaidReadable(st.frames, ras, s.stack);
    var s1 := ExprRun(code, s, e, p, env, st.frames);
    SyncComputed(st, ras, s, s1, p, v, |a|);
    s' := StoreRun(code, s1, x, p, v, env, st, ras);
    ReachTrans(code, s, s1, s');
  }

  lemma ReadRun(code: seq<Instruction>, s: State, x: string, p: nat, env: Env, st: Store, ras: seq<int>)
    returns (s': State)
    requires Sync(st, ras, s) && st.input != []
    requires At(code, s.pc, [Instruction(SIO, p, 0, 2)] + Access(STO, p, x, env))
    requires p < COMMON_REGISTER_NUMBER
    requires Store1(x, st.input[0], env, st.(input := st.input[1..])).Done?
    ensures Reaches(code, s, s')
    ensures Matches(code, Store1(x, st.input[0], env, st.(input := st.input[1..])), st, ras, s',
                    s.pc + |[Instruction(SIO, p, 0, 2)] + Access(STO, p, x, env)|, Topped(st, s))
    ensures s'.regs[..p] == s.regs[..p]
  {
    var sio := Instruction(SIO, p, 0, 2);
    AtSplit(code, s.pc, [sio], Access(STO, p, x, env));
    StepAt(code, s, sio);
    var s1 := Step(code, s);
    s' := StoreRun(code, s1, x, p, st.input[0], env, st.(input := st.input[1..]), ras);
    ReachTrans(code, s, s1, s');
  }

  lemma WriteRun(code: seq<Instruction>, s: State, x: string, p: nat, env: Env, st: Store, ras: seq<int>)
    returns (s': State)
    requires Sync(st, ras, s)
    requires At(code, s.pc, CompileWrite(x, p, env) + [Instruction(SIO, p, 0, 1)])
    requires p < COMMON_REGISTER_NUMBER
    requires WriteValue(IMPLEMENTED, x, env, st).Val?
    ensures Reaches(code, s, s')
    ensures Matches(code, Done(st.(output := st.output + [WriteValue(IMPLEMENTED, x, env, st).v])), st, ras, s',
                    s.pc + |CompileWrite(x, p, env) + [Instruction(SIO, p, 0, 1)]|, Topped(st, s))
    ensures s'.regs[..p] == s.regs[..p]
  {
    var b := env.Find(x).value;
    var lod, sio := Instruction(LOD, p, b.hops, b.addr), Instruction(SIO, p, 0, 1);
    AtSplit(code, s.pc, [lod], [sio]);
    ReadLaid(st.frames, ras, s.stack, b.hops, b.addr);
    StepAt(code, s, lod);
    var s1 := Step(code, s);
    StepAt(code, s1, sio);
    s' := Step(code, s1);
    ReachTrans(code, s, s1, s');
  }

  lemma CalleeFits(prog: Prog, callee: nat)
    requires RegistersFit(prog) && callee < |prog|
    ensures NeedStmt(prog[callee].body) <= COMMON_REGISTER_NUMBER
  {
  }

  /** A whole call: the record is pushed, the body run, the record dropped again. */
  lemma {:induction false} CallRun(
      code: seq<Instruction>, prog: Prog, entry: seq<int>, s: State, x: string, p: nat,
      id: nat, st: Store, ras: seq<int>, fuel: nat)
    returns (s': State)
    requires id < |prog|
    requires var o := Exec(prog, IMPLEMENTED, Call(x), id, st, fuel);
             Start(code, prog, entry, s, Access(CAL, 0, x, prog[id].env), p, id, st, ras, o)
    requires Topped(st, s)
    ensures Reaches(code, s, s')
    ensures Matches(code, Exec(prog, IMPLEMENTED, Call(x), id, st, fuel), st, ras, s',
                    s.pc + |Access(CAL, 0, x, prog[id].env)|, Topped(st, s))
    decreases fuel, Call(x), 0
  {
    hide Placed, RegistersFit, FrameAt, LinksDown, CompileStmt, At, NeedStmt;
    var env := prog[id].env;
    var st1 := Enter(prog, IMPLEMENTED, x, env, st).st;
    var callee := Running(st1.frames);
    var s1 := EnterRun(code, prog, entry, s, x, env, st, ras);
    var ras1 := ras + [s.pc + 1];
    var o := Exec(prog, IMPLEMENTED, prog[callee].body, callee, st1, fuel - 1);
    AtBody(code, prog, entry, callee);
    CalleeFits(prog, callee);
    var s2 := StmtRun(code, prog, entry, s1, prog[callee].body, 0, callee, st1, ras1, fuel - 1);
    s' := ReturnRun(code, s2, o.st, ras1);
    ReachTrans(code, s, s1, s2);
    ReachTrans(code, s, s2, s');
    var n := |st.frames|;
    assert ras1[..n] == ras;
    assert forall i :: 0 <= i < n ==> st1.frames[i] == st1.frames[..n][i] == st.frames[i];
  }

  lemma AtBody(code: seq<Instruction>, prog: Prog, entry: seq<int>, id: nat)
    requires Placed(code, prog, entry) && id < |prog|
    ensures At(code, entry[id] + 1, CompileStmt(prog[id].body, entry[id] + 1, 0, prog[id].env, id > 0))
    ensures id == 0 ==>
      At(code, entry[0] + 1 + |CompileStmt(prog[0].body, entry[0] + 1, 0, prog[0].env, false)|,
         [Instruction(SIO, 0, 0, 3)])
  {
    hide CompileStmt, Placed, At;
    PlacedCode(code, prog, entry, id);
    var e := entry[id];
    var inc := [Instruction(INC, 0, 0, code[e].m)];
    var body := CompileStmt(prog[id].body, e + 1, 0, prog[id].env, id > 0);
    AtSplit(code, e, inc + body, if id == 0 then [Instruction(SIO, 0, 0, 3)] else []);
    AtSplit(code, e, inc, body);
  }

  lemma PlacedCode(code: seq<Instruction>, prog: Prog, entry: seq<int>, id: nat)
    requires Placed(code, prog, entry) && id < |prog|
    ensures |entry| == |prog| && 0 <= entry[id] < |code|
    ensures At(code, entry[id], RoomCode(prog, id, entry[id], code[entry[id]].m))
  {
    hide RoomCode, NoCall, At;
    assert PlacedAt(code, prog, id, entry[id]);
  }

  lemma {:induction false} BeginRun(
      code: seq<Instruction>, prog: Prog, entry: seq<int>, s: State, stmt: Stmt, p: nat,
      id: nat, st: Store, ras: seq<int>, fuel: nat)
    returns (s': State)
    requires id < |prog| && stmt.Begin?
    requires var o := Exec(prog, IMPLEMENTED, stmt, id, st, fuel);
             Start(code, prog, entry, s, CompileStmt(stmt, s.pc, p, prog[id].env, id > 0), p + NeedStmt(stmt), id,
                   st, ras, o)
    requires Topped(st, s) || NoCall(stmt)
    ensures Reaches(code, s, s')
    ensures Matches(code, Exec(prog, IMPLEMENTED, stmt, id, st, fuel), st, ras, s',
                    s.pc + |CompileStmt(stmt, s.pc, p, prog[id].env, id > 0)|, Topped(st, s))
    ensures NoCall(stmt) ==> s'.regs[..p] == s.regs[..p]
    decreases fuel, stmt, 0
  {
    hide CompileStmts, ExecAll, Sync, SameShape, Placed, RegistersFit, At;
    var env := prog[id].env;
    var a := CompileStmt(stmt.first, s.pc, p, env, id > 0);
    var b := CompileStmts(stmt.rest, s.pc + |a|, p, env, id > 0);
    var rtn := if id > 0 then [Instruction(RTN, 0, 0, 0)] else [];
    AtSplit(code, s.pc, a + b, rtn);
    AtSplit(code, s.pc, a, b);
    var o := Exec(prog, IMPLEMENTED, stmt.first, id, st, fuel);
    s' := StmtRun(code, prog, entry, s, stmt.first, p, id, st, ras, fuel);
    if o.Done? {
      var s1 := s';
      s' := StmtsRun(code, prog, entry, s1, stmt.rest, p, id, o.st, ras, fuel);
      MatchAfter(code, ExecAll(prog, IMPLEMENTED, stmt.rest, id, o.st, fuel), s, s1, s', st, o.st, ras,
                 s.pc + |a| + |b|);
    }
  }

  /** Where the parts of a conditional or a loop lie. */
  lemma BranchParts(code: seq<Instruction>, pc: int, test: seq<Instruction>, p: int, onFalse: int,
                    body: seq<Instruction>, next: int, rest: seq<Instruction>)
    requires At(code, pc, Branch(test, p, onFalse, body, next, rest))
    ensures At(code, pc, test + [Instruction(JPC, p, 0, onFalse)])
    ensures At(code, pc + |test| + 1, body)
    ensures At(code, pc + |test| + 1 + |body|, [Instruction(JMP, 0, 0, next)])
    ensures At(code, pc + |test| + |body| + 2, rest)
  {
    var jpc, jmp := [Instruction(JPC, p, 0, onFalse)], [Instruction(JMP, 0, 0, next)];
    AtSplit(code, pc, test + jpc + body + jmp, rest);
    AtSplit(code, pc, test + jpc + body, jmp);
    AtSplit(code, pc, test + jpc, body);
  }

  /** A statement followed by a jump: on to the target, unless the statement returns. */
  lemma {:induction false} BodyRun(
      code: seq<Instruction>, prog: Prog, entry: seq<int>, s: State, stmt: Stmt, p: nat,
      id: nat, st: Store, ras: seq<int>, fuel: nat, target: int)
    returns (s': State)
    requires id < |prog|
    requires var o := Exec(prog, IMPLEMENTED, stmt, id, st, fuel);
             Start(code, prog, entry, s, CompileStmt(stmt, s.pc, p + 1, prog[id].env, id > 0),
                   p + 1 + NeedStmt(stmt), id, st, ras, o)
    requires At(code, s.pc + |CompileStmt(stmt, s.pc, p + 1, prog[id].env, id > 0)|, [Instruction(JMP, 0, 0, target)])
    requires Topped(st, s) || NoCall(stmt)
    ensures Reaches(code, s, s')
    ensures Matches(code, Exec(prog, IMPLEMENTED, stmt, id, st, fuel), st, ras, s', target, Topped(st, s))
    ensures NoCall(stmt) ==> s'.regs[..p] == s.regs[..p]
    decreases fuel, stmt, 2
  {
    hide CompileStmt, Exec, Laid;
    var o := Exec(prog, IMPLEMENTED, stmt, id, st, fuel);
    var s1 := StmtRun(code, prog, entry, s, stmt, p + 1, id, st, ras, fuel);
    s' := s1;
    if o.Done? {
      s' := JumpRun(code, s1, target, o.st, ras);
      ReachTrans(code, s, s1, s');
    }
    Narrow(st, ras, s, o.st, s', p);
  }

  lemma {:induction false} IfRun(
      code: seq<Instruction>, prog: Prog, entry: seq<int>, s: State, stmt: Stmt, p: nat,
      id: nat, st: Store, ras: seq<int>, fuel: nat)
    returns (s': State)
    requires id < |prog| && stmt.If?
    requires var o := Exec(prog, IMPLEMENTED, stmt, id, st, fuel);
             Start(code, prog, entry, s, CompileStmt(stmt, s.pc, p, prog[id].env, id > 0), p + NeedStmt(stmt), id,
                   st, ras, o)
    requires Topped(st, s) || NoCall(stmt)
    ensures Reaches(code, s, s')
    ensures Matches(code, Exec(prog, IMPLEMENTED, stmt, id, st, fuel), st, ras, s',
                    s.pc + |CompileStmt(stmt, s.pc, p, prog[id].env, id > 0)|, Topped(st, s))
    ensures NoCall(stmt) ==> s'.regs[..p] == s.regs[..p]
    decreases fuel, stmt, 0
  {
    hide CompileCond, EvalCond, Sync, Branch, Placed, RegistersFit, At;
    var env := prog[id].env;
    var cc := CompileCond(stmt.cond, p, env);
    var tt := CompileStmt(stmt.thn, s.pc + |cc| + 1, p + 1, env, id > 0);
    var after := s.pc + |cc| + |tt| + 2;
    BranchParts(code, s.pc, cc, p, after, tt, after, []);
    var s1 := BranchRun(code, s, stmt.cond, p, env, after, st, ras);
    s' := s1;
    if EvalCond(stmt.cond, env, st.frames).v != 0 {
      s' := BodyRun(code, prog, entry, s1, stmt.thn, p, id, st, ras, fuel, after);
      ReachTrans(code, s, s1, s');
    }
  }

  lemma Narrow(st: Store, ras: seq<int>, s: State, st': Store, s': State, p: nat)
    requires Sync(st, ras, s) && Sync(st', ras, s') && p < COMMON_REGISTER_NUMBER
    ensures s.regs[..p + 1] == s'.regs[..p + 1] ==> s.regs[..p] == s'.regs[..p]
  {
    assert s.regs[..p + 1][..p] == s.regs[..p] && s'.regs[..p + 1][..p] == s'.regs[..p];
  }

  lemma BranchLength(test: seq<Instruction>, p: int, onFalse: int, body: seq<Instruction>, next: int,
                     rest: seq<Instruction>)
    ensures |Branch(test, p, onFalse, body, next, rest)| == |test| + |body| + |rest| + 2
  {
  }

  /** A two-way conditional taken apart: its meaning, and the registers it needs. */
  lemma IfElseParts(prog: Prog, stmt: Stmt, id: nat, st: Store, fuel: nat)
    requires id < |prog| && stmt.IfElse?
    ensures var c := EvalCond(stmt.cond, prog[id].env, st.frames);
            Exec(prog, IMPLEMENTED, stmt, id, st, fuel)
            == if c.Bad? then Faulted(c.fault, st.output)
               else Exec(prog, IMPLEMENTED, if c.v != 0 then stmt.thn else stmt.els, id, st, fuel)
    ensures NeedStmt(stmt) >= NeedCond(stmt.cond)
    ensures NeedStmt(stmt) >= 1 + NeedStmt(stmt.thn) && NeedStmt(stmt) >= 1 + NeedStmt(stmt.els)
    ensures NoCall(stmt) ==> NoCall(stmt.thn) && NoCall(stmt.els)
  {
    hide EvalCond, NeedCond;
  }

  lemma {:induction false} IfElseRun(
      code: seq<Instruction>, prog: Prog, entry: seq<int>, s: State, stmt: Stmt, p: nat,
      id: nat, st: Store, ras: seq<int>, fuel: nat)
    returns (s': State)
    requires id < |prog| && stmt.IfElse?
    requires var o := Exec(prog, IMPLEMENTED, stmt, id, st, fuel);
             Start(code, prog, entry, s, CompileStmt(stmt, s.pc, p, prog[id].env, id > 0), p + NeedStmt(stmt), id,
                   st, ras, o)
    requires Topped(st, s) || NoCall(stmt)
    ensures Reaches(code, s, s')
    ensures Matches(code, Exec(prog, IMPLEMENTED, stmt, id, st, fuel), st, ras, s',
                    s.pc + |CompileStmt(stmt, s.pc, p, prog[id].env, id > 0)|, Topped(st, s))
    ensures NoCall(stmt) ==> s'.regs[..p] == s.regs[..p]
    decreases fuel, stmt, 0
  {
    hide CompileCond, EvalCond, CompileStmt, Exec, NeedStmt, NoCall, Sync, Branch, Placed, RegistersFit, At, SameShape;
    IfElseShape(stmt.cond, stmt.thn, stmt.els, s.pc, p, prog[id].env, id > 0);
    IfElseParts(prog, stmt, id, st, fuel);
    var env := prog[id].env;
    var cc := CompileCond(stmt.cond, p, env);
    var tt := CompileStmt(stmt.thn, s.pc + |cc| + 1, p + 1, env, id > 0);
    var otherwise := s.pc + |cc| + |tt| + 2;
    var ee := CompileStmt(stmt.els, otherwise, p + 1, env, id > 0);
    BranchLength(cc, p, otherwise, tt, otherwise + |ee|, ee);
    BranchParts(code, s.pc, cc, p, otherwise, tt, otherwise + |ee|, ee);
    var s1 := BranchRun(code, s, stmt.cond, p, env, otherwise, st, ras);
    if EvalCond(stmt.cond, env, st.frames).v != 0 {
      s' := BodyRun(code, prog, entry, s1, stmt.thn, p, id, st, ras, fuel, otherwise + |ee|);
    } else {
      s' := StmtRun(code, prog, entry, s1, stmt.els, p + 1, id, st, ras, fuel);
      Narrow(st, ras, s1, Exec(prog, IMPLEMENTED, stmt, id, st, fuel).st, s', p);
    }
    ReachTrans(code, s, s1, s');
  }

  lemma WhileParts(prog: Prog, stmt: Stmt, id: nat, st: Store, fuel: nat)
    requires id < |prog| && stmt.While?
    ensures var c := EvalCond(stmt.cond, prog[id].env, st.frames);
            var o := Exec(prog, IMPLEMENTED, stmt.body, id, st, fuel);
            Exec(prog, IMPLEMENTED, stmt, id, st, fuel)
            == if c.Bad? then Faulted(c.fault, st.output)
               else if c.v == 0 then Done(st)
               else if !o.Done? then o
               else if fuel == 0 then Timeout
               else Exec(prog, IMPLEMENTED, stmt, id, o.st, fuel - 1)
    ensures NeedStmt(stmt) >= NeedCond(stmt.cond) && NeedStmt(stmt) >= 1 + NeedStmt(stmt.body)
    ensures NoCall(stmt) == NoCall(stmt.body)
  {
    hide EvalCond, NeedCond;
  }

  lemma {:induction false} WhileRun(
      code: seq<Instruction>, prog: Prog, entry: seq<int>, s: State, stmt: Stmt, p: nat,
      id: nat, st: Store, ras: seq<int>, fuel: nat)
    returns (s': State)
    requires id < |prog| && stmt.While?
    requires var o := Exec(prog, IMPLEMENTED, stmt, id, st, fuel);
             Start(code, prog, entry, s, CompileStmt(stmt, s.pc, p, prog[id].env, id > 0), p + NeedStmt(stmt), id,
                   st, ras, o)
    requires Topped(st, s) || NoCall(stmt)
    ensures Reaches(code, s, s')
    ensures Matches(code, Exec(prog, IMPLEMENTED, stmt, id, st, fuel), st, ras, s',
                    s.pc + |CompileStmt(stmt, s.pc, p, prog[id].env, id > 0)|, Topped(st, s))
    ensures NoCall(stmt) ==> s'.regs[..p] == s.regs[..p]
    decreases fuel, stmt, 0
  {
    hide CompileCond, EvalCond, CompileStmt, Exec, NeedStmt, NoCall, Sync, Branch, Placed, RegistersFit, At, SameShape;
    PlainWhileShape(stmt.cond, stmt.body, s.pc, p, prog[id].env, id > 0);
    WhileParts(prog, stmt, id, st, fuel);
    var env := prog[id].env;
    var cc := CompileCond(stmt.cond, p, env);
    var bb := CompileStmt(stmt.body, s.pc + |cc| + 1, p + 1, env, id > 0);
    var after := s.pc + |cc| + |bb| + 2;
    BranchLength(cc, p, after, bb, s.pc, []);
    BranchParts(code, s.pc, cc, p, after, bb, s.pc, []);
    var s1 := BranchRun(code, s, stmt.cond, p, env, after, st, ras);
    s' := s1;
    if EvalCond(stmt.cond, env, st.frames).v != 0 {
      var o := Exec(prog, IMPLEMENTED, stmt.body, id, st, fuel);
      s' := BodyRun(code, prog, entry, s1, stmt.body, p, id, st, ras, fuel, s.pc);
      ReachTrans(code, s, s1, s');
      if o.Done? {
        var s2 := s';
        s' := WhileRun(code, prog, entry, s2, stmt, p, id, o.st, ras, fuel - 1);
        MatchAfter(code, Exec(prog, IMPLEMENTED, stmt, id, o.st, fuel - 1), s, s2, s', st, o.st, ras, after);
      }
    } else {
      ShapeSelf(st);
    }
  }

  lemma ShapeSelf(st: Store)
    ensures SameShape(st.frames, st.frames)
  {
  }

  /** The code of a statement, whichever it is, carries out the statement. */
  lemma {:induction false} StmtRun(
      code: seq<Instruction>, prog: Prog, entry: seq<int>, s: State, stmt: Stmt, p: nat,
      id: nat, st: Store, ras: seq<int>, fuel: nat)
    returns (s': State)
    requires id < |prog|
    requires var o := Exec(prog, IMPLEMENTED, stmt, id, st, fuel);
             Start(code, prog, entry, s, CompileStmt(stmt, s.pc, p, prog[id].env, id > 0), p + NeedStmt(stmt), id,
                   st, ras, o)
    requires Topped(st, s) || NoCall(stmt)
    ensures Reaches(code, s, s')
    ensures Matches(code, Exec(prog, IMPLEMENTED, stmt, id, st, fuel), st, ras, s',
                    s.pc + |CompileStmt(stmt, s.pc, p, prog[id].env, id > 0)|, Topped(st, s))
    ensures NoCall(stmt) ==> s'.regs[..p] == s.regs[..p]
    decreases fuel, stmt, 1
  {
    var env := prog[id].env;
    match stmt
    case Empty =>
      ReachSelf(code, s);
      s' := s;
    case Assign(x, e) => s' := AssignRun(code, s, x, e, p, env, st, ras);
    case Call(x) => s' := CallRun(code, prog, entry, s, x, p, id, st, ras, fuel);
    case Begin(_, _) => s' := BeginRun(code, prog, entry, s, stmt, p, id, st, ras, fuel);
    case If(_, _) => s' := IfRun(code, prog, entry, s, stmt, p, id, st, ras, fuel);
    case IfElse(_, _, _) => s' := IfElseRun(code, prog, entry, s, stmt, p, id, st, ras, fuel);
    case While(_, _) => s' := WhileRun(code, prog, entry, s, stmt, p, id, st, ras, fuel);
    case Read(x) => s' := ReadRun(code, s, x, p, env, st, ras);
    case Write(x) => s' := WriteRun(code, s, x, p, env, st, ras);
  }

  lemma {:induction false} StmtsRun(
      code: seq<Instruction>, prog: Prog, entry: seq<int>, s: State, ss: Stmts, p: nat,
      id: nat, st: Store, ras: seq<int>, fuel: nat)
    returns (s': State)
    requires id < |prog|
    requires var o := ExecAll(prog, IMPLEMENTED, ss, id, st, fuel);
             Start(code, prog, entry, s, CompileStmts(ss, s.pc, p, prog[id].env, id > 0), p + NeedStmts(ss), id, st,
                   ras, o)
    requires Topped(st, s) || NoCallAll(ss)
    ensures Reaches(code, s, s')
    ensures Matches(code, ExecAll(prog, IMPLEMENTED, ss, id, st, fuel), st, ras, s',
                    s.pc + |CompileStmts(ss, s.pc, p, prog[id].env, id > 0)|, Topped(st, s))
    ensures NoCallAll(ss) ==> s'.regs[..p] == s.regs[..p]
    decreases fuel, ss, 0
  {
    hide CompileStmt, Exec, Laid;
    match ss
    case NoStmts =>
      ReachSelf(code, s);
      s' := s;
    case MoreStmts(stmt, next) =>
      var a := CompileStmt(stmt, s.pc, p, prog[id].env, id > 0);
      var b := CompileStmts(next, s.pc + |a|, p, prog[id].env, id > 0);
      AtSplit(code, s.pc, a, b);
      var o := Exec(prog, IMPLEMENTED, stmt, id, st, fuel);
      s' := StmtRun(code, prog, entry, s, stmt, p, id, st, ras, fuel);
      if o.Done? {
        var s1 := s';
        s' := StmtsRun(code, prog, entry, s1, next, p, id, o.st, ras, fuel);
        MatchAfter(code, ExecAll(prog, IMPLEMENTED, next, id, o.st, fuel), s, s1, s', st, o.st, ras, s.pc + |a| + |b|);
      }
  }

  /** A program that runs to its end in the source semantics runs to a halt with the same output. */
  lemma ProgramRun(code: seq<Instruction>, prog: Prog, entry: seq<int>, input: seq<int>, fuel: nat)
    returns (s': State)
    requires Placed(code, prog, entry) && RegistersFit(prog)
    requires ExecProgram(prog, IMPLEMENTED, input, fuel).Done?
    ensures Reaches(code, InitState(input), s')
    ensures s'.status == IDLE
    ensures s'.output == ExecProgram(prog, IMPLEMENTED, input, fuel).st.output
    ensures s'.input == ExecProgram(prog, IMPLEMENTED, input, fuel).st.input
  {
    hide CompileStmt, NeedStmt;
    var s := InitState(input);
    var st := InitStore(prog, input);
    var body := CompileStmt(prog[0].body, entry[0] + 1, 0, prog[0].env, false);
    var o := ExecProgram(prog, IMPLEMENTED, input, fuel);
    var s1 := TrampolineRun(code, prog, entry, s, 0);
    AtBody(code, prog, entry, 0);
    InitSync(prog, input, s1);
    assert NeedStmt(prog[0].body) <= COMMON_REGISTER_NUMBER;
    var s2 := StmtRun(code, prog, entry, s1, prog[0].body, 0, 0, st, [0], fuel);
    StepAt(code, s2, Instruction(SIO, 0, 0, 3));
    s' := Step(code, s2);
    ReachTrans(code, s, s1, s2);
    ReachTrans(code, s, s2, s');
  }

  /** Wherever the first INC leaves sp, the machine holds the record of the program, all its variables 0. */
  lemma InitSync(prog: Prog, input: seq<int>, s: State)
    requires prog != [] && HEADER + prog[0].vars < MAX_STACK_HEIGHT
    requires s == InitState(input).(pc := s.pc, sp := s.sp)
    ensures Sync(InitStore(prog, input), [0], s)
    ensures s.sp == prog[0].vars + HEADER ==> Topped(InitStore(prog, input), s)
  {
    var frames := InitStore(prog, input).frames;
    assert frames[..0] == [];
    assert Height(frames) == HEADER + prog[0].vars;
    assert FrameAt(frames, [0], s.stack, 0);
  }
}
