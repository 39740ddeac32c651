/** Division and oddness by what they leave, in the machine's registers and in the meaning of a program. */
module Arithmetic {
  import opened Common
  import opened Machine
  import opened Syntax
  import opened Symbols
  import opened Compile
  import opened Semantics
  import opened Registers
  import opened ExprCorrect

  /**
    A turn on DIV stops the machine undefined for the divisor zero. Otherwise it changes the target
    register alone, to the one number `q` for which `a - q * b` is smaller than `b` and has the sign
    of `a`: the quotient rounded towards zero.
   */
  lemma DivLeaves(code: seq<Instruction>, s: State, i: Instruction, q: int)
    requires At(code, s.pc, [i]) && s.status == RUNNING && i.op == DIV
    requires 0 <= i.r < |s.regs| && 0 <= i.l < |s.regs| && 0 <= i.m < |s.regs|
    ensures var a, b, s' := s.regs[i.l], s.regs[i.m], Step(code, s);
            if b == 0 then s'.status == UNDEFINED
            else
              var left := a - q * b;
              && s' == s.(pc := s.pc + 1, regs := s.regs[i.r := s'.regs[i.r]])
              && (s'.regs[i.r] == q <==> (-b < left < b || b < left < -b) && (left == 0 || (left < 0 <==> a < 0)))
  {
    hide CDiv;
    StepAt(code, s, i);
    if s.regs[i.m] != 0 {
      CDivExact(s.regs[i.l], s.regs[i.m], q);
    }
  }

  /** The same of MOD, which leaves the remainder: smaller than `b`, of the sign of `a`, a multiple of `b` away. */
  lemma ModLeaves(code: seq<Instruction>, s: State, i: Instruction, left: int)
    requires At(code, s.pc, [i]) && s.status == RUNNING && i.op == MOD
    requires 0 <= i.r < |s.regs| && 0 <= i.l < |s.regs| && 0 <= i.m < |s.regs|
    ensures var a, b, s' := s.regs[i.l], s.regs[i.m], Step(code, s);
            if b == 0 then s'.status == UNDEFINED
            else
              && s' == s.(pc := s.pc + 1, regs := s.regs[i.r := s'.regs[i.r]])
              && (s'.regs[i.r] == left <==>
                  (-b < left < b || b < left < -b) && (left == 0 || (left < 0 <==> a < 0)) && (a - left) % b == 0)
  {
    hide CMod;
    StepAt(code, s, i);
    if s.regs[i.m] != 0 {
      CModExact(s.regs[i.l], s.regs[i.m], left);
    }
  }

  /** After a turn on ODD the register is 1 or -1, with the sign it had, if it was odd, and 0 if it was even. */
  lemma OddLeaves(code: seq<Instruction>, s: State, i: Instruction)
    requires At(code, s.pc, [i]) && s.status == RUNNING && i.op == ODD && 0 <= i.r < |s.regs|
    ensures var a, s' := s.regs[i.r], Step(code, s);
            && s' == s.(pc := s.pc + 1, regs := s.regs[i.r := s'.regs[i.r]])
            && s'.regs[i.r] == if a % 2 == 0 then 0 else if a < 0 then -1 else 1
  {
    hide CMod;
    StepAt(code, s, i);
    CModOdd(s.regs[i.r]);
  }

  /** The other operations on two registers: sum, difference and product, and 1 for a relation that holds. */
  lemma OperationLeaves(code: seq<Instruction>, s: State, i: Instruction)
    requires At(code, s.pc, [i]) && s.status == RUNNING && IsBinary(i.op) && i.op !in {DIV, MOD}
    requires 0 <= i.r < |s.regs| && 0 <= i.l < |s.regs| && 0 <= i.m < |s.regs|
    ensures var a, b, s' := s.regs[i.l], s.regs[i.m], Step(code, s);
            var v := s'.regs[i.r];
            && s' == s.(pc := s.pc + 1, regs := s.regs[i.r := v])
            && (i.op == ADD ==> v - a == b) && (i.op == SUB ==> v + b == a) && (i.op == MUL ==> v == b * a)
            && (i.op in {EQL, NEQ, LSS, LEQ, GTR, GEQ} ==> v in {0, 1})
            && (i.op == EQL ==> (v == 1 <==> a == b)) && (i.op == NEQ ==> (v == 0 <==> a == b))
            && (i.op == LSS ==> (v == 1 <==> a < b)) && (i.op == GEQ ==> (v == 0 <==> a < b))
            && (i.op == GTR ==> (v == 1 <==> b < a)) && (i.op == LEQ ==> (v == 0 <==> b < a))
  {
    StepAt(code, s, i);
  }

  /** `f / g` means the quotient rounded towards zero. */
  lemma QuotientMeans(f: Factor, g: Factor, env: Env, frames: seq<Frame>, q: int)
    requires EvalFactor(f, env, frames).Val? && EvalFactor(g, env, frames).Val?
    ensures var a, b := EvalFactor(f, env, frames).v, EvalFactor(g, env, frames).v;
            var v := EvalTerm(Term(f, MoreFactors(Divide, g, NoFactors)), env, frames);
            if b == 0 then v == Bad(DivByZero)
            else
              var left := a - q * b;
              (v == Val(q) <==> (-b < left < b || b < left < -b) && (left == 0 || (left < 0 <==> a < 0)))
  {
    hide CDiv;
    var a, b := EvalFactor(f, env, frames).v, EvalFactor(g, env, frames).v;
    assert EvalFactors(MulValue(Divide, Val(a), Val(b)), NoFactors, env, frames) == MulValue(Divide, Val(a), Val(b));
    if b != 0 {
      CDivExact(a, b, q);
    }
  }

  /** `odd e` is true exactly when the value of `e` is odd. */
  lemma OddMeans(e: Expr, env: Env, frames: seq<Frame>)
    requires EvalExpr(e, env, frames).Val?
    ensures EvalCond(Odd(e), env, frames).Val?
    ensures EvalCond(Odd(e), env, frames).v != 0 <==> EvalExpr(e, env, frames).v % 2 == 1
  {
    hide CMod, EvalExpr;
    CModOdd(EvalExpr(e, env, frames).v);
  }

  /** So the code of `odd e` leaves zero in its register exactly when the value of `e` is even. */
  lemma OddRuns(code: seq<Instruction>, s: State, e: Expr, p: nat, env: Env, frames: seq<Frame>) returns (s': State)
    requires Ready(frames, s) && At(code, s.pc, CompileCond(Odd(e), p, env))
    requires p + NeedCond(Odd(e)) <= COMMON_REGISTER_NUMBER && EvalExpr(e, env, frames).Val?
    ensures Reaches(code, s, s') && p < |s'.regs| && s'.pc == s.pc + |CompileCond(Odd(e), p, env)|
    ensures s'.regs[p] == 0 <==> EvalExpr(e, env, frames).v % 2 == 0
  {
    hide EvalExpr, EvalCond, CompileCond, NeedCond, Readable;
    OddMeans(e, env, frames);
    s' := CondRun(code, s, Odd(e), p, env, frames);
  }
}
