/**
  The target machine: one step of the fetch/execute loop as a function on states.

  A state whose next action the C source leaves undefined (an array index out of range, a
  division by zero) steps to status UNDEFINED and stays there.
 */
module Machine {
  import opened Common

  const MAX_STACK_HEIGHT := 2000
  const MAX_CODE_LENGTH := 500
  const MAX_LEXI_LEVELS := 5
  const COMMON_REGISTER_NUMBER := 16

  /** NUL stands for every operation code that names no instruction. */
  datatype Opcode =
    | NUL | LIT | RTN | LOD | STO | CAL | INC | JMP | JPC | SIO | NEG
    | ADD | SUB | MUL | DIV | ODD | MOD | EQL | NEQ | LSS | LEQ | GTR | GEQ

  datatype Instruction = Instruction(op: Opcode, r: int, l: int, m: int)

  datatype Status = IDLE | RUNNING | ERROR | UNDEFINED

  datatype State = State(
    pc: int, bp: int, sp: int,
    regs: seq<int>, stack: seq<int>,
    frameLevel: int,
    input: seq<int>, output: seq<int>,
    status: Status)

  /** The state the machine starts in once code is loaded: registers and stack all zero. */
  function InitState(input: seq<int>): State {
    State(0, 1, 0, seq(COMMON_REGISTER_NUMBER, _ => 0), seq(MAX_STACK_HEIGHT, _ => 0), 0, input, [], RUNNING)
  }

  function Undefined(s: State): State {
    s.(status := UNDEFINED)
  }

  /** Follows `l` static links from the record at `b`; None when a link lies outside the stack. */
  function Base(stack: seq<int>, l: int, b: int): Option<int>
    decreases l
  {
    if l <= 0 then Some(b)
    else if 0 <= b + 1 < |stack| then Base(stack, l - 1, stack[b + 1])
    else None
  }

  /** Stack address `m` cells above the record `l` static links down; None outside the stack. */
  function Address(stack: seq<int>, l: int, b: int, m: int): Option<nat> {
    match Base(stack, l, b)
    case None => None
    case Some(base) => if 0 <= base + m < |stack| then Some(base + m) else None
  }

  function BoolToInt(b: bool): int {
    if b then 1 else 0
  }

  /** Value of a two-operand operation; None where C leaves it undefined. */
  function BinaryOp(op: Opcode, a: int, b: int): Option<int> {
    match op
    case ADD => Some(a + b)
    case SUB => Some(a - b)
    case MUL => Some(a * b)
    case DIV => if b == 0 then None else Some(CDiv(a, b))
    case MOD => if b == 0 then None else Some(CMod(a, b))
    case EQL => Some(BoolToInt(a == b))
    case NEQ => Some(BoolToInt(a != b))
    case LSS => Some(BoolToInt(a < b))
    case LEQ => Some(BoolToInt(a <= b))
    case GTR => Some(BoolToInt(a > b))
    case GEQ => Some(BoolToInt(a >= b))
    case _ => None
  }

  predicate IsBinary(op: Opcode) {
    op in {ADD, SUB, MUL, DIV, MOD, EQL, NEQ, LSS, LEQ, GTR, GEQ}
  }

  function SetReg(s: State, i: int, v: int): State {
    if 0 <= i < |s.regs| then s.(regs := s.regs[i := v]) else Undefined(s)
  }

  /** Effect of one instruction; the program counter already points past it. */
  function Execute(ir: Instruction, s: State): State {
    match ir.op
    case LIT => SetReg(s, ir.r, ir.m)
    case RTN => Return(s)
    case LOD => (
      match Address(s.stack, ir.l, s.bp, ir.m)
      case None => Undefined(s)
      case Some(a) => SetReg(s, ir.r, s.stack[a]))
    case STO => (
      match Address(s.stack, ir.l, s.bp, ir.m)
      case None => Undefined(s)
      case Some(a) =>
        if 0 <= ir.r < |s.regs| then s.(stack := s.stack[a := s.regs[ir.r]]) else Undefined(s))
    case CAL => Call(ir, s)
    case INC => s.(sp := s.sp + ir.m)
    case JMP => s.(pc := ir.m)
    case JPC =>
      if !(0 <= ir.r < |s.regs|) then Undefined(s)
      else if s.regs[ir.r] == 0 then s.(pc := ir.m)
      else s
    case SIO => InputOutput(ir, s)
    case NEG =>
      if 0 <= ir.l < |s.regs| then SetReg(s, ir.r, -s.regs[ir.l]) else Undefined(s)
    case ODD =>
      if 0 <= ir.r < |s.regs| then SetReg(s, ir.r, CMod(s.regs[ir.r], 2)) else Undefined(s)
    case NUL => s
    case _ =>
      if 0 <= ir.l < |s.regs| && 0 <= ir.m < |s.regs| then
        (match BinaryOp(ir.op, s.regs[ir.l], s.regs[ir.m])
         case None => Undefined(s)
         case Some(v) => SetReg(s, ir.r, v))
      else Undefined(s)
  }

  /** CAL: the header of the new record is written above sp, which only INC moves. */
  function Call(ir: Instruction, s: State): State {
    if !(0 <= s.sp + 1 && s.sp + 4 < |s.stack| && 0 <= s.frameLevel < MAX_LEXI_LEVELS) then Undefined(s)
    else
      var stack := s.stack[s.sp + 1 := 0];
      match Base(stack, ir.l, s.bp)
      case None => Undefined(s)
      case Some(link) =>
        s.(stack := stack[s.sp + 2 := link][s.sp + 3 := s.bp][s.sp + 4 := s.pc],
           bp := s.sp + 1,
           pc := ir.m,
           frameLevel := s.frameLevel + 1)
  }

  /** RTN: drops the current record; at the base record it stops the machine instead. */
  function Return(s: State): State {
    var sp := s.bp - 1;
    if !(0 <= sp + 4 < |s.stack| && 0 <= s.frameLevel < MAX_LEXI_LEVELS) then Undefined(s)
    else if s.bp == 1 then
      s.(sp := sp, pc := s.stack[sp + 4], frameLevel := s.frameLevel - 1, status := IDLE)
    else if !(0 <= sp + 3) then Undefined(s)
    else
      s.(sp := sp, bp := s.stack[sp + 3], pc := s.stack[sp + 4], frameLevel := s.frameLevel - 1)
  }

  /** SIO: write, read or halt by `m`; a read at the end of the input leaves the register alone. */
  function InputOutput(ir: Instruction, s: State): State {
    if ir.m == 1 then
      if 0 <= ir.r < |s.regs| then s.(output := s.output + [s.regs[ir.r]]) else Undefined(s)
    else if ir.m == 2 then
      if !(0 <= ir.r < |s.regs|) then Undefined(s)
      else if s.input == [] then s
      else s.(regs := s.regs[ir.r := s.input[0]], input := s.input[1..])
    else if ir.m == 3 then s.(status := IDLE)
    else s
  }

  /** One turn of the run loop: prefetch, then execute. */
  function Step(code: seq<Instruction>, s: State): State {
    if s.status != RUNNING then s
    else if s.pc >= MAX_CODE_LENGTH || s.pc >= |code| then s.(status := ERROR)
    else if s.pc < 0 then Undefined(s)
    else Execute(code[s.pc], s.(pc := s.pc + 1))
  }

  /** `n` turns of the run loop. */
  function Run(code: seq<Instruction>, s: State, n: nat): State
    decreases n
  {
    if n == 0 then s else Run(code, Step(code, s), n - 1)
  }

  lemma {:induction false} RunAdd(code: seq<Instruction>, s: State, a: nat, b: nat)
    ensures Run(code, s, a + b) == Run(code, Run(code, s, a), b)
    decreases a
  {
    if a > 0 {
      RunAdd(code, Step(code, s), a - 1, b);
      assert Run(code, s, a + b) == Run(code, Step(code, s), a + b - 1);
    }
  }

  lemma {:induction false} RunStopped(code: seq<Instruction>, s: State, n: nat)
    requires s.status != RUNNING
    ensures Run(code, s, n) == s
    decreases n
  {
    if n > 0 {
      RunStopped(code, s, n - 1);
    }
  }

  /** A machine that has stopped stays as it is, so its final state does not depend on the number of turns. */
  lemma {:induction false} RunFinalUnique(code: seq<Instruction>, s: State, a: nat, b: nat)
    requires Run(code, s, a).status != RUNNING && Run(code, s, b).status != RUNNING
    ensures Run(code, s, a) == Run(code, s, b)
  {
    if a <= b {
      RunAdd(code, s, a, b - a);
      RunStopped(code, Run(code, s, a), b - a);
    } else {
      RunAdd(code, s, b, a - b);
      RunStopped(code, Run(code, s, b), a - b);
    }
  }

  /** A return from the base record is no return: it stops the machine, and with four cells read as a header. */
  lemma BaseReturnStops(code: seq<Instruction>, s: State)
    requires s.status == RUNNING && 0 <= s.pc < |code| && s.pc < 500 && code[s.pc].op == RTN
    requires s.bp == 1 && |s.stack| == 2000 && 0 <= s.frameLevel < 5
    ensures Step(code, s) == s.(pc := s.stack[4], sp := 0, frameLevel := s.frameLevel - 1, status := IDLE)
  {
  }

  /** Control behind the code, or behind 500 instructions, is an error, and nothing else changes. */
  lemma BehindCodeStops(code: seq<Instruction>, s: State)
    requires s.status == RUNNING && (s.pc >= |code| || s.pc >= 500)
    ensures Step(code, s) == s.(status := ERROR)
  {
  }

  /** Some number of turns takes the machine from `s` to `s'`. */
  ghost predicate Reaches(code: seq<Instruction>, s: State, s': State) {
    exists n: nat :: Run(code, s, n) == s'
  }

  lemma ReachSelf(code: seq<Instruction>, s: State)
    ensures Reaches(code, s, s)
  {
    assert Run(code, s, 0) == s;
  }

  lemma ReachStep(code: seq<Instruction>, s: State)
    ensures Reaches(code, s, Step(code, s))
  {
    assert Run(code, s, 1) == Run(code, Step(code, s), 0);
  }

  lemma ReachTrans(code: seq<Instruction>, a: State, b: State, c: State)
    requires Reaches(code, a, b) && Reaches(code, b, c)
    ensures Reaches(code, a, c)
  {
    var n: nat :| Run(code, a, n) == b;
    var m: nat :| Run(code, b, m) == c;
    RunAdd(code, a, n, m);
  }
}
