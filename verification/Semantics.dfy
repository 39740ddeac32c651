/**
  What a program means, independently of code, registers and addresses of records.

  A store is the list of live activation records, each with its own variables and a link to
  the record of the textually enclosing procedure, plus the input left, the output so far, and
  two things noted about the run.
 */
module Semantics {
  import opened Common
  import opened Machine
  import opened Syntax
  import opened Symbols

  /** Cells the machine puts in front of the variables of a record. */
  const HEADER := 4

  /** A procedure (number 0 is the program itself); `env` gives the meaning of names in its body. */
  datatype Proc = Proc(level: int, parent: int, vars: nat, env: Env, body: Stmt)
  type Prog = seq<Proc>

  /** A live record; a variable that was never assigned is None. */
  datatype Frame = Frame(proc: nat, link: nat, vars: seq<Option<int>>)

  /**
    Of the run so far, `peak` is the largest number of records that have been live at once, and
    `fell` says that some call's body has come to its end elsewhere than at a begin..end.
   */
  datatype Store = Store(frames: seq<Frame>, input: seq<int>, output: seq<int>, peak: nat, fell: bool)

  datatype Fault =
    | BadName        // no variable, constant or procedure of the wanted kind there
    | Unset          // a variable read before it is assigned
    | DivByZero
    | NoInput
    | StackFull      // IMPLEMENTED only: the records no longer fit the stack
    | TooDeep        // IMPLEMENTED only: a call or return beyond the machine's trace entries
    | ConstWritten   // IMPLEMENTED only: `write` of a constant, which loads from it as an address
    | FallThrough    // IMPLEMENTED only: the code of a procedure body ends without a return

  datatype Value = Val(v: int) | Bad(fault: Fault)

  datatype Outcome =
    | Done(st: Store)
    | Returned(st: Store)
    | Faulted(fault: Fault, output: seq<int>)
    | Timeout

  /**
    STANDARD is PL/0, with as many records and as large ones as a run takes. IMPLEMENTED is what
    the emitted code does: every begin..end inside a procedure returns from it; a body that does
    not return is a fault, and so is writing a constant; with MAX_LEXI_LEVELS + 1 records live
    neither a call nor a return is possible, and all records have to fit the machine's stack.
   */
  datatype Mode = STANDARD | IMPLEMENTED

  // ---------- records ----------

  /** Index of the record `k` links up from record `i`. */
  function Hop(frames: seq<Frame>, i: nat, k: int): Option<nat>
    decreases k
  {
    if k <= 0 then Some(i)
    else if 0 < i < |frames| then Hop(frames, frames[i].link, k - 1)
    else None
  }

  function Top(frames: seq<Frame>): nat
    requires frames != []
  {
    |frames| - 1
  }

  /** The record and variable that (hops, addr) denotes from the top record. */
  function Locate(frames: seq<Frame>, hops: int, addr: int): Option<(nat, nat)> {
    if frames == [] then None
    else
      match Hop(frames, Top(frames), hops)
      case None => None
      case Some(j) =>
        if j < |frames| && HEADER <= addr < HEADER + |frames[j].vars| then Some((j, addr - HEADER)) else None
  }

  function ReadVar(frames: seq<Frame>, hops: int, addr: int): Value {
    match Locate(frames, hops, addr)
    case None => Bad(BadName)
    case Some((j, k)) =>
      match frames[j].vars[k]
      case None => Bad(Unset)
      case Some(v) => Val(v)
  }

  function SetVar(frames: seq<Frame>, j: nat, k: nat, v: int): seq<Frame>
    requires j < |frames| && k < |frames[j].vars|
  {
    frames[j := frames[j].(vars := frames[j].vars[k := Some(v)])]
  }

  function WriteVar(frames: seq<Frame>, b: Option<Binding>, v: int): Option<seq<Frame>> {
    if b.None? || b.value.kind != VAR then None
    else
      match Locate(frames, b.value.hops, b.value.addr)
      case None => None
      case Some((j, k)) => Some(SetVar(frames, j, k, v))
  }

  /** Stack cells the records take. */
  function Height(frames: seq<Frame>): nat {
    if frames == [] then 0
    else Height(frames[..|frames| - 1]) + HEADER + |frames[|frames| - 1].vars|
  }

  function NewFrame(proc: nat, link: nat, vars: nat): Frame {
    Frame(proc, link, seq(vars, _ => None))
  }

  // ---------- expressions ----------

  function MulValue(op: MulOp, a: Value, b: Value): Value {
    if a.Bad? then a
    else if b.Bad? then b
    else
      match op
      case Times => Val(a.v * b.v)
      case Divide => if b.v == 0 then Bad(DivByZero) else Val(CDiv(a.v, b.v))
  }

  function AddValue(op: AddOp, a: Value, b: Value): Value {
    if a.Bad? then a
    else if b.Bad? then b
    else
      match op
      case Plus => Val(a.v + b.v)
      case Minus => Val(a.v - b.v)
  }

  function EvalFactor(f: Factor, env: Env, frames: seq<Frame>): Value
    decreases f
  {
    match f
    case Number(v) => Val(v)
    case Paren(e) => EvalExpr(e, env, frames)
    case Ident(x) =>
      match env.Find(x)
      case None => Bad(BadName)
      case Some(b) =>
        match b.kind
        case VAR => ReadVar(frames, b.hops, b.addr)
        case CONST => Val(b.val)
        case PROC => Bad(BadName)
  }

  function EvalFactors(acc: Value, fs: Factors, env: Env, frames: seq<Frame>): Value
    decreases fs
  {
    match fs
    case NoFactors => acc
    case MoreFactors(op, f, next) =>
      EvalFactors(MulValue(op, acc, EvalFactor(f, env, frames)), next, env, frames)
  }

  function EvalTerm(t: Term, env: Env, frames: seq<Frame>): Value
    decreases t
  {
    EvalFactors(EvalFactor(t.factor, env, frames), t.factors, env, frames)
  }

  function EvalTerms(acc: Value, ts: Terms, env: Env, frames: seq<Frame>): Value
    decreases ts
  {
    match ts
    case NoTerms => acc
    case MoreTerms(op, t, next) =>
      EvalTerms(AddValue(op, acc, EvalTerm(t, env, frames)), next, env, frames)
  }

  /** The sign of an expression applies to its whole first term. */
  function Signed(s: Sign, v: Value): Value {
    if s == MinusSign && v.Val? then Val(-v.v) else v
  }

  function EvalExpr(e: Expr, env: Env, frames: seq<Frame>): Value
    decreases e
  {
    EvalTerms(Signed(e.sign, EvalTerm(e.term, env, frames)), e.terms, env, frames)
  }

  function RelValue(op: RelOp, a: int, b: int): bool {
    match op
    case Equal => a == b
    case NotEqual => a != b
    case Less => a < b
    case AtMost => a <= b
    case Greater => a > b
    case AtLeast => a >= b
  }

  /** A condition is 0 when false and something else when true. */
  function EvalCond(c: Cond, env: Env, frames: seq<Frame>): Value {
    match c
    case Odd(e) =>
      var v := EvalExpr(e, env, frames);
      if v.Bad? then v else Val(CMod(v.v, 2))
    case Compare(op, l, r) =>
      var a, b := EvalExpr(l, env, frames), EvalExpr(r, env, frames);
      if a.Bad? then a
      else if b.Bad? then b
      else Val(BoolToInt(RelValue(op, a.v, b.v)))
  }

  // ---------- statements ----------

  /** Stores `v` in the variable `x`, with the input and output given. */
  function Store1(x: string, v: int, env: Env, st: Store): Outcome {
    match WriteVar(st.frames, env.Find(x), v)
    case None => Faulted(BadName, st.output)
    case Some(frames) => Done(st.(frames := frames))
  }

  function WriteValue(m: Mode, x: string, env: Env, st: Store): Value {
    match env.Find(x)
    case None => Bad(BadName)
    case Some(b) =>
      match b.kind
      case VAR => ReadVar(st.frames, b.hops, b.addr)
      case CONST => if m == STANDARD then Val(b.val) else Bad(ConstWritten)
      case PROC => Bad(BadName)
  }

  /** The store in which the body of the called procedure starts. */
  function Enter(prog: Prog, m: Mode, x: string, env: Env, st: Store): Outcome {
    match env.Find(x)
    case None => Faulted(BadName, st.output)
    case Some(b) =>
      if b.kind != PROC || !(0 < b.addr < |prog|) || st.frames == [] then Faulted(BadName, st.output)
      else
        match Hop(st.frames, Top(st.frames), b.hops)
        case None => Faulted(BadName, st.output)
        case Some(link) =>
          if m == IMPLEMENTED && |st.frames| > MAX_LEXI_LEVELS then Faulted(TooDeep, st.output)
          else if m == IMPLEMENTED && Height(st.frames) + HEADER + prog[b.addr].vars >= MAX_STACK_HEIGHT then
            Faulted(StackFull, st.output)
          else Done(Pushed(st, NewFrame(b.addr, link, prog[b.addr].vars)))
  }

  /** One record more. */
  function Pushed(st: Store, f: Frame): Store {
    st.(frames := st.frames + [f], peak := if |st.frames| < st.peak then st.peak else |st.frames| + 1)
  }

  /** The number of the procedure whose record is on top. */
  function Running(frames: seq<Frame>): nat {
    if frames == [] then 0 else frames[|frames| - 1].proc
  }

  /** Run from here, the statement comes to its end, if it does, at the first begin..end it meets. */
  predicate Returning(s: Stmt, env: Env, frames: seq<Frame>) {
    match s
    case Begin(_, _) => true
    case If(c, t) => var v := EvalCond(c, env, frames); v.Val? && v.v != 0 && Returning(t, env, frames)
    case While(c, b) => var v := EvalCond(c, env, frames); v.Val? && v.v != 0 && Returning(b, env, frames)
    case IfElse(c, t, e) =>
      var v := EvalCond(c, env, frames); v.Val? && Returning(if v.v != 0 then t else e, env, frames)
    case _ => false
  }

  /** What a call comes to when its body, `returning` or not, has come to `o`. */
  function Leave(m: Mode, o: Outcome, returning: bool): Outcome {
    match o
    case Returned(st) =>
      if m == IMPLEMENTED && |st.frames| > MAX_LEXI_LEVELS then Faulted(TooDeep, st.output) else Popped(st)
    case Done(st) =>
      if m == IMPLEMENTED then Faulted(FallThrough, st.output)
      else Popped(st.(fell := st.fell || !returning))
    case _ => o
  }

  /** One record less. */
  function Popped(st: Store): Outcome {
    if st.frames == [] then Faulted(BadName, st.output) else Done(st.(frames := st.frames[..|st.frames| - 1]))
  }

  /** Runs `s`, a statement of procedure `id`; `fuel` bounds loop turns and nested calls. */
  function Exec(prog: Prog, m: Mode, s: Stmt, id: nat, st: Store, fuel: nat): Outcome
    requires id < |prog|
    decreases fuel, s
  {
    var env := prog[id].env;
    match s
    case Empty => Done(st)
    case Assign(x, e) => (
      match EvalExpr(e, env, st.frames)
      case Bad(f) => Faulted(f, st.output)
      case Val(v) => Store1(x, v, env, st))
    case Call(x) =>
      var o := Enter(prog, m, x, env, st);
      if !o.Done? then o
      else if fuel == 0 then Timeout
      else
        var callee := Running(o.st.frames);
        if callee >= |prog| then Faulted(BadName, st.output)
        else
          var body, inner := prog[callee].body, prog[callee].env;
          Leave(m, Exec(prog, m, body, callee, o.st, fuel - 1), Returning(body, inner, o.st.frames))
    case Begin(first, rest) =>
      var o := Exec(prog, m, first, id, st, fuel);
      if !o.Done? then o
      else
        var o' := ExecAll(prog, m, rest, id, o.st, fuel);
        if o'.Done? && m == IMPLEMENTED && id > 0 then Returned(o'.st) else o'
    case If(c, t) => (
      match EvalCond(c, env, st.frames)
      case Bad(f) => Faulted(f, st.output)
      case Val(v) => if v != 0 then Exec(prog, m, t, id, st, fuel) else Done(st))
    case IfElse(c, t, e) => (
      match EvalCond(c, env, st.frames)
      case Bad(f) => Faulted(f, st.output)
      case Val(v) => Exec(prog, m, if v != 0 then t else e, id, st, fuel))
    case While(c, b) => (
      match EvalCond(c, env, st.frames)
      case Bad(f) => Faulted(f, st.output)
      case Val(v) =>
        if v == 0 then Done(st)
        else
          var o := Exec(prog, m, b, id, st, fuel);
          if !o.Done? then o
          else if fuel == 0 then Timeout
          else Exec(prog, m, s, id, o.st, fuel - 1))
    case Read(x) =>
      if st.input == [] then Faulted(NoInput, st.output)
      else Store1(x, st.input[0], env, st.(input := st.input[1..]))
    case Write(x) =>
      match WriteValue(m, x, env, st)
      case Bad(f) => Faulted(f, st.output)
      case Val(v) => Done(st.(output := st.output + [v]))
  }

  function ExecAll(prog: Prog, m: Mode, ss: Stmts, id: nat, st: Store, fuel: nat): Outcome
    requires id < |prog|
    decreases fuel, ss
  {
    match ss
    case NoStmts => Done(st)
    case MoreStmts(s, next) =>
      var o := Exec(prog, m, s, id, st, fuel);
      if !o.Done? then o else ExecAll(prog, m, next, id, o.st, fuel)
  }

  /** The store a program starts in: one record, whose variables are 0. */
  function InitStore(prog: Prog, input: seq<int>): Store
    requires prog != []
  {
    Store([Frame(0, 0, seq(prog[0].vars, _ => Some(0)))], input, [], 1, false)
  }

  function ExecProgram(prog: Prog, m: Mode, input: seq<int>, fuel: nat): Outcome
    requires prog != []
  {
    if m == IMPLEMENTED && HEADER + prog[0].vars >= MAX_STACK_HEIGHT then Faulted(StackFull, [])
    else Exec(prog, m, prog[0].body, 0, InitStore(prog, input), fuel)
  }
}
