/** The machine as the object the source updates in place, against the step function. */
module VirtualMachine {
  import opened Common
  import opened Machine

  const EMPTY := Instruction(NUL, 0, 0, 0)

  class VM {
    var pc: int
    var bp: int
    var sp: int
    var ir: Instruction
    var frameLevel: int
    var numInstructions: int
    var status: Status
    var input: seq<int>
    var output: seq<int>
    const r: array<int>
    const stack: array<int>
    const code: array<Instruction>
    const frameBreak: array<int>

    /** The arrays have the sizes the source declares, and are different arrays. */
    ghost predicate Valid()
      reads this
    {
      && r.Length == COMMON_REGISTER_NUMBER && stack.Length == MAX_STACK_HEIGHT
      && code.Length == MAX_CODE_LENGTH && frameBreak.Length == MAX_LEXI_LEVELS
      && r != stack && r != frameBreak && stack != frameBreak
      && 0 <= numInstructions < MAX_CODE_LENGTH
    }

    /** The machine as a state of the step function. */
    ghost function View(): State
      reads this, r, stack
    {
      State(pc, bp, sp, r[..], stack[..], frameLevel, input, output, status)
    }

    ghost function Program(): seq<Instruction>
      requires Valid()
      reads this, code
    {
      code[..numInstructions]
    }

    constructor (input: seq<int>)
      ensures Valid() && fresh(r) && fresh(stack) && fresh(code) && fresh(frameBreak)
      ensures View() == InitState(input).(status := IDLE)
      ensures r.Length == 16 && stack.Length == 2000 && frameBreak.Length == 5
      ensures (forall i :: 0 <= i < 16 ==> r[i] == 0) && forall i :: 0 <= i < 2000 ==> stack[i] == 0
      ensures code[..] == seq(500, _ => EMPTY)
    {
      pc, bp, sp := 0, 1, 0;
      ir := EMPTY;
      frameLevel, numInstructions, status := 0, 0, IDLE;
      this.input, output := input, [];
      r := new int[COMMON_REGISTER_NUMBER](_ => 0);
      stack := new int[MAX_STACK_HEIGHT](_ => 0);
      code := new Instruction[MAX_CODE_LENGTH](_ => EMPTY);
      frameBreak := new int[MAX_LEXI_LEVELS](_ => 0);
      new;
      assert r[..] == seq(COMMON_REGISTER_NUMBER, _ => 0);
      assert stack[..] == seq(MAX_STACK_HEIGHT, _ => 0);
    }

    /** The loop over static links; None once a link lies outside the stack. */
    method FindBase(l: int, b: int) returns (base: Option<int>)
      ensures base == Base(stack[..], l, b)
    {
      var at := b;
      var level := l;
      while level > 0
        invariant Base(stack[..], level, at) == Base(stack[..], l, b)
      {
        if !(0 <= at + 1 < stack.Length) {
          return None;
        }
        at := stack[at + 1];
        level := level - 1;
      }
      return Some(at);
    }

    method FindAddress(l: int, b: int, m: int) returns (address: Option<nat>)
      ensures address == Address(stack[..], l, b, m)
    {
      var base := FindBase(l, b);
      if base.Some? && 0 <= base.value + m < stack.Length {
        return Some(base.value + m);
      }
      return None;
    }

    /** The next instruction goes to ir; false when there is none, and then nothing has changed. */
    method Prefetch() returns (ok: bool)
      requires Valid() && pc >= 0
      modifies this`ir, this`pc
      ensures Valid() && ok == (old(pc) < |Program()|)
      ensures ok ==> ir == Program()[old(pc)] && pc == old(pc) + 1
      ensures !ok ==> pc == old(pc)
    {
      if pc >= MAX_CODE_LENGTH {
        return false;
      } else if pc >= numInstructions {
        return false;
      }
      ir := code[pc];
      pc := pc + 1;
      return true;
    }

    method SetRegister(i: int, v: int)
      requires Valid()
      modifies this`status, r
      ensures View() == SetReg(old(View()), i, v)
    {
      if 0 <= i < r.Length {
        r[i] := v;
      } else {
        status := UNDEFINED;
      }
    }

    method ExecuteCall()
      requires Valid()
      modifies this, r, stack, frameBreak
      ensures Valid() && Program() == old(Program()) && ir == old(ir)
      ensures View() == Call(ir, old(View()))
    {
      if !(0 <= sp + 1 && sp + 4 < stack.Length && 0 <= frameLevel < frameBreak.Length) {
        status := UNDEFINED;
        return;
      }
      ghost var s := View();
      var saved := stack[sp + 1];
      stack[sp + 1] := 0;
      var link := FindBase(ir.l, bp);
      if link.None? {
        stack[sp + 1] := saved;
        status := UNDEFINED;
        return;
      }
      stack[sp + 2] := link.value;
      stack[sp + 3] := bp;
      stack[sp + 4] := pc;
      frameBreak[frameLevel] := sp;
      bp := sp + 1;
      pc := ir.m;
      frameLevel := frameLevel + 1;
    }

    method ExecuteReturn()
      requires Valid()
      modifies this, r, stack, frameBreak
      ensures Valid() && Program() == old(Program()) && ir == old(ir)
      ensures View() == Return(old(View()))
    {
      var top := bp - 1;
      if !(0 <= top + 4 < stack.Length && 0 <= frameLevel < frameBreak.Length) {
        status := UNDEFINED;
        return;
      }
      if bp == 1 {
        status := IDLE;
      } else if top + 3 < 0 {
        status := UNDEFINED;
        return;
      } else {
        bp := stack[top + 3];
      }
      sp := top;
      pc := stack[top + 4];
      frameBreak[frameLevel] := 0;
      frameLevel := frameLevel - 1;
    }

    method ExecuteIO()
      requires Valid()
      modifies this, r
      ensures Valid() && Program() == old(Program()) && ir == old(ir)
      ensures View() == InputOutput(ir, old(View()))
    {
      var i := ir.r;
      match ir.m {
        case 1 =>
          if 0 <= i < r.Length {
            output := output + [r[i]];
          } else {
            status := UNDEFINED;
          }
        case 2 =>
          if !(0 <= i < r.Length) {
            status := UNDEFINED;
          } else if input != [] {
            r[i] := input[0];
            input := input[1..];
          }
        case 3 => status := IDLE;
        case _ =>
      }
    }

    method ExecuteBinary()
      requires Valid() && IsBinary(ir.op)
      modifies this`status, r
      ensures Valid() && View() == Execute(ir, old(View()))
    {
      var i, j, k := ir.r, ir.l, ir.m;
      if !(0 <= j < r.Length && 0 <= k < r.Length) {
        status := UNDEFINED;
        return;
      }
      var a, b := r[j], r[k];
      var v := 0;
      match ir.op {
        case ADD => v := a + b;
        case SUB => v := a - b;
        case MUL => v := a * b;
        case DIV =>
          if b == 0 {
            status := UNDEFINED;
            return;
          }
          v := CDiv(a, b);
        case MOD =>
          if b == 0 {
            status := UNDEFINED;
            return;
          }
          v := CMod(a, b);
        case EQL => v := if a == b then 1 else 0;
        case NEQ => v := if a != b then 1 else 0;
        case LSS => v := if a < b then 1 else 0;
        case LEQ => v := if a <= b then 1 else 0;
        case GTR => v := if a > b then 1 else 0;
        case GEQ => v := if a >= b then 1 else 0;
      }
      SetRegister(i, v);
    }

    /** One instruction, in place: the step function's effect on the view. */
    method ExecuteInstruction()
      requires Valid()
      modifies this, r, stack, frameBreak
      ensures Valid() && Program() == old(Program())
      ensures View() == Execute(ir, old(View())) && ir == old(ir)
    {
      var i, j, k := ir.r, ir.l, ir.m;
      match ir.op {
        case LIT => SetRegister(i, k);
        case RTN => ExecuteReturn();
        case LOD =>
          var a := FindAddress(j, bp, k);
          if a.Some? {
            SetRegister(i, stack[a.value]);
          } else {
            status := UNDEFINED;
          }
        case STO =>
          var a := FindAddress(j, bp, k);
          if a.Some? && 0 <= i < r.Length {
            stack[a.value] := r[i];
          } else {
            status := UNDEFINED;
          }
        case CAL => ExecuteCall();
        case INC => sp := sp + k;
        case JMP => pc := k;
        case JPC =>
          if !(0 <= i < r.Length) {
            status := UNDEFINED;
          } else if r[i] == 0 {
            pc := k;
          }
        case SIO => ExecuteIO();
        case NEG =>
          if 0 <= j < r.Length {
            SetRegister(i, -r[j]);
          } else {
            status := UNDEFINED;
          }
        case ODD =>
          if 0 <= i < r.Length {
            SetRegister(i, CMod(r[i], 2));
          } else {
            status := UNDEFINED;
          }
        case NUL =>
        case _ => ExecuteBinary();
      }
    }

    /** One turn of the run loop. */
    method Turn()
      requires Valid() && status == RUNNING
      modifies this, r, stack, frameBreak
      ensures Valid() && Program() == old(Program())
      ensures View() == Step(Program(), old(View()))
    {
      hide Execute;
      if pc < 0 {
        status := UNDEFINED;
        return;
      }
      var ok := Prefetch();
      if ok {
        ExecuteInstruction();
      } else {
        status := ERROR;
      }
    }

    /**
      The instructions of a machine-code file; -1 when there are 500 or more. The loop tests for
      the end of the file only after an instruction, so an empty file counts as one instruction.
     */
    method LoadCode(file: seq<Instruction>) returns (count: int)
      requires Valid()
      modifies code
      ensures count == if |file| >= 500 then -1 else if file == [] then 1 else |file|
      ensures 0 < |file| == count ==> code[..count] == file
      ensures file == [] ==> code[..] == old(code[..])
    {
      count := 0;
      while count < |file|
        invariant 0 <= count <= |file| && count < MAX_CODE_LENGTH
        invariant code[..count] == file[..count]
        invariant count == 0 ==> code[..] == old(code[..])
      {
        code[count] := file[count];
        count := count + 1;
        if count >= MAX_CODE_LENGTH {
          return -1;
        }
      }
      if count == 0 {
        count := 1;
      }
    }

    /**
      A run of at most `limit` turns on a machine that is idle; it ends earlier when the machine
      stops. An empty file counts as one instruction, whatever the memory held there.
     */
    method RunCode(file: seq<Instruction>, limit: nat)
      requires Valid()
      modifies this, r, stack, code, frameBreak
      ensures Valid()
      ensures old(status) != IDLE ==> View() == old(View())
      ensures old(status) == IDLE && |file| >= 500 ==> View() == old(View()).(status := ERROR)
      ensures old(status) == IDLE && 0 < |file| < 500 ==>
        Program() == file && View() == Run(file, old(View()).(status := RUNNING), limit)
      ensures old(status) == IDLE && file == [] ==>
        Program() == old(code[..1]) && View() == Run(old(code[..1]), old(View()).(status := RUNNING), limit)
    {
      if status != IDLE {
        return;
      }
      var count := LoadCode(file);
      if count == -1 {
        status := ERROR;
        return;
      }
      numInstructions := count;
      status := RUNNING;
      ghost var start := View();
      ghost var prog := Program();
      var turns := 0;
      while status == RUNNING && turns < limit
        invariant Valid() && turns <= limit && Program() == prog
        invariant View() == Run(prog, start, turns)
        modifies this, r, stack, frameBreak
        decreases limit - turns
      {
        RunAdd(prog, start, turns, 1);
        assert Run(prog, View(), 1) == Run(prog, Step(prog, View()), 0);
        Turn();
        turns := turns + 1;
      }
      if status != RUNNING {
        RunAdd(prog, start, turns, limit - turns);
        RunStopped(prog, View(), limit - turns);
      }
    }
  }
}
