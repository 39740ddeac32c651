/** The code of an expression or condition leaves its value in the first free register. */
module ExprCorrect {
  import opened Common
  import opened Machine
  import opened Syntax
  import opened Symbols
  import opened Compile
  import opened Semantics
  import opened Registers

  /** `seg` is loaded at `pc`. */
  ghost predicate At(code: seq<Instruction>, pc: int, seg: seq<Instruction>) {
    && |code| < MAX_CODE_LENGTH
    && 0 <= pc <= pc + |seg| <= |code|
    && code[pc..pc + |seg|] == seg
  }

  lemma AtSplit(code: seq<Instruction>, pc: int, a: seq<Instruction>, b: seq<Instruction>)
    requires At(code, pc, a + b)
    ensures At(code, pc, a) && At(code, pc + |a|, b)
  {
    assert (a + b)[..|a|] == a && (a + b)[|a|..] == b;
  }

  lemma AtSplit3(code: seq<Instruction>, pc: int, a: seq<Instruction>, i: Instruction, b: seq<Instruction>)
    requires At(code, pc, a + [i] + b)
    ensures At(code, pc, a) && At(code, pc + |a|, [i]) && At(code, pc + |a| + 1, b)
  {
    AtSplit(code, pc, a + [i], b);
    AtSplit(code, pc, a, [i]);
  }

  /** Every variable that has a value in `frames` is found, with that value, by a load. */
  ghost predicate Readable(frames: seq<Frame>, stack: seq<int>, bp: int) {
    forall hops, addr :: ReadVar(frames, hops, addr).Val? ==>
      var a := Address(stack, hops, bp, addr);
      a.Some? && stack[a.value] == ReadVar(frames, hops, addr).v
  }

  /** A running machine that can load the variables of `frames`. */
  ghost predicate Ready(frames: seq<Frame>, s: State) {
    && s.status == RUNNING
    && |s.regs| == COMMON_REGISTER_NUMBER
    && Readable(frames, s.stack, s.bp)
  }

  /** From `s` to `s'`: `v` computed into register `p`, registers below `p` and all else unchanged. */
  ghost predicate Computed(s: State, s': State, p: nat, v: int, len: nat) {
    && s' == s.(pc := s.pc + len, regs := s'.regs)
    && |s'.regs| == |s.regs| == COMMON_REGISTER_NUMBER
    && p < COMMON_REGISTER_NUMBER
    && s'.regs[..p] == s.regs[..p]
    && s'.regs[p] == v
  }

  lemma StepAt(code: seq<Instruction>, s: State, i: Instruction)
    requires At(code, s.pc, [i]) && s.status == RUNNING
    ensures Step(code, s) == Execute(i, s.(pc := s.pc + 1))
    ensures Reaches(code, s, Step(code, s))
  {
    assert code[s.pc] == code[s.pc..s.pc + 1][0];
    ReachStep(code, s);
  }

  /** The instruction after two computed operands computes the result. */
  lemma OperateRun(code: seq<Instruction>, s: State, s1: State, op: Opcode, p: nat, len: nat, b: int)
    returns (s2: State)
    requires s.status == RUNNING && p + 1 < COMMON_REGISTER_NUMBER
    requires Reaches(code, s, s1) && Computed(s, s1, p + 1, b, len)
    requires At(code, s.pc + len, [Instruction(op, p, p, p + 1)])
    requires IsBinary(op) && BinaryOp(op, s.regs[p], b).Some?
    ensures Reaches(code, s, s2) && Computed(s, s2, p, BinaryOp(op, s.regs[p], b).value, len + 1)
  {
    StepAt(code, s1, Instruction(op, p, p, p + 1));
    assert s1.regs[p] == s1.regs[..p + 1][p] == s.regs[..p + 1][p];
    s2 := Step(code, s1);
    assert s2.regs[..p] == s1.regs[..p] == s1.regs[..p + 1][..p] == s.regs[..p + 1][..p];
    ReachTrans(code, s, s1, s2);
  }

  lemma NegateRun(code: seq<Instruction>, s: State, s1: State, p: nat, len: nat, v: int) returns (s2: State)
    requires s.status == RUNNING && Reaches(code, s, s1) && Computed(s, s1, p, v, len)
    requires At(code, s.pc + len, [Instruction(NEG, p, p, 0)])
    ensures Reaches(code, s, s2) && Computed(s, s2, p, -v, len + 1)
  {
    StepAt(code, s1, Instruction(NEG, p, p, 0));
    s2 := Step(code, s1);
    ReachTrans(code, s, s1, s2);
  }

  lemma OddRun(code: seq<Instruction>, s: State, s1: State, p: nat, len: nat, v: int) returns (s2: State)
    requires s.status == RUNNING && Reaches(code, s, s1) && Computed(s, s1, p, v, len)
    requires At(code, s.pc + len, [Instruction(ODD, p, p, 0)])
    ensures Reaches(code, s, s2) && Computed(s, s2, p, CMod(v, 2), len + 1)
  {
    StepAt(code, s1, Instruction(ODD, p, p, 0));
    s2 := Step(code, s1);
    ReachTrans(code, s, s1, s2);
  }

  /** Two runs that compute into the same register, one after the other. */
  lemma JoinRun(code: seq<Instruction>, s: State, s1: State, s2: State, p: nat, v1: int, v2: int, l1: nat, l2: nat)
    requires Reaches(code, s, s1) && Computed(s, s1, p, v1, l1)
    requires Reaches(code, s1, s2) && Computed(s1, s2, p, v2, l2)
    ensures Reaches(code, s, s2) && Computed(s, s2, p, v2, l1 + l2)
  {
    ReachTrans(code, s, s1, s2);
  }

  lemma MulMatches(op: MulOp, a: int, b: int)
    requires MulValue(op, Val(a), Val(b)).Val?
    ensures BinaryOp(MulOpcode(op), a, b) == Some(MulValue(op, Val(a), Val(b)).v)
    ensures IsBinary(MulOpcode(op))
  {
  }

  lemma RelMatches(op: RelOp, a: int, b: int)
    ensures BinaryOp(RelOpcode(op), a, b) == Some(BoolToInt(RelValue(op, a, b)))
    ensures IsBinary(RelOpcode(op))
  {
  }

  lemma {:induction false} BadFactors(b: Fault, fs: Factors, env: Env, frames: seq<Frame>)
    ensures EvalFactors(Bad(b), fs, env, frames) == Bad(b)
    decreases fs
  {
    if fs.MoreFactors? {
      BadFactors(b, fs.next, env, frames);
    }
  }

  lemma {:induction false} BadTerms(b: Fault, ts: Terms, env: Env, frames: seq<Frame>)
    ensures EvalTerms(Bad(b), ts, env, frames) == Bad(b)
    decreases ts
  {
    if ts.MoreTerms? {
      BadTerms(b, ts.next, env, frames);
    }
  }

  /** Negating the first factor of a term negates the term. */
  lemma {:induction false} NegateFactors(v: int, fs: Factors, env: Env, frames: seq<Frame>)
    ensures EvalFactors(Val(-v), fs, env, frames) ==
            match EvalFactors(Val(v), fs, env, frames) case Bad(b) => Bad(b) case Val(w) => Val(-w)
    decreases fs
  {
    if fs.MoreFactors? {
      var w := EvalFactor(fs.factor, env, frames);
      if w.Bad? {
        BadFactors(w.fault, fs.next, env, frames);
      } else if fs.op == Divide && w.v == 0 {
        BadFactors(DivByZero, fs.next, env, frames);
      } else if fs.op == Divide {
        CDivNegate(v, w.v);
        NegateFactors(CDiv(v, w.v), fs.next, env, frames);
      } else {
        assert -v * w.v == -(v * w.v);
        NegateFactors(v * w.v, fs.next, env, frames);
      }
    }
  }

  lemma {:induction false} FactorRun(
      code: seq<Instruction>, s: State, f: Factor, p: nat, env: Env, frames: seq<Frame>)
    returns (s': State)
    requires Ready(frames, s)
    requires At(code, s.pc, CompileFactor(f, p, env))
    requires p + NeedFactor(f) <= COMMON_REGISTER_NUMBER
    requires EvalFactor(f, env, frames).Val?
    ensures Reaches(code, s, s')
    ensures Computed(s, s', p, EvalFactor(f, env, frames).v, |CompileFactor(f, p, env)|)
    decreases f, 1
  {
    match f
    case Paren(e) => s' := ExprRun(code, s, e, p, env, frames);
    case _ =>
      StepAt(code, s, CompileFactor(f, p, env)[0]);
      s' := Step(code, s);
  }

  lemma {:induction false} FactorsRun(
      code: seq<Instruction>, s: State, fs: Factors, p: nat, env: Env, frames: seq<Frame>)
    returns (s': State)
    requires Ready(frames, s)
    requires At(code, s.pc, CompileFactors(fs, p, env))
    requires p + NeedFactors(fs) <= COMMON_REGISTER_NUMBER && p < COMMON_REGISTER_NUMBER
    requires EvalFactors(Val(s.regs[p]), fs, env, frames).Val?
    ensures Reaches(code, s, s')
    ensures Computed(s, s', p, EvalFactors(Val(s.regs[p]), fs, env, frames).v, |CompileFactors(fs, p, env)|)
    decreases fs, 0
  {
    hide At, EvalFactor, CompileFactor;
    match fs
    case NoFactors =>
      ReachSelf(code, s);
      s' := s;
    case MoreFactors(op, f, next) =>
      var a := CompileFactor(f, p + 1, env);
      AtSplit3(code, s.pc, a, Instruction(MulOpcode(op), p, p, p + 1), CompileFactors(next, p, env));
      var w := EvalFactor(f, env, frames);
      var v := MulValue(op, Val(s.regs[p]), w);
      if v.Bad? {
        BadFactors(v.fault, next, env, frames);
      }
      var s1 := FactorRun(code, s, f, p + 1, env, frames);
      MulMatches(op, s.regs[p], w.v);
      var s2 := OperateRun(code, s, s1, MulOpcode(op), p, |a|, w.v);
      s' := FactorsRun(code, s2, next, p, env, frames);
      JoinRun(code, s, s2, s', p, v.v, EvalFactors(v, next, env, frames).v, |a| + 1, |CompileFactors(next, p, env)|);
  }

  /** Code for a term of an expression whose sign is `sign`: the value of the signed term. */
  lemma {:induction false} TermRun(
      code: seq<Instruction>, s: State, t: Term, sign: Sign, p: nat, env: Env, frames: seq<Frame>)
    returns (s': State)
    requires Ready(frames, s)
    requires At(code, s.pc, CompileTerm(t, sign, p, env))
    requires p + NeedTerm(t) <= COMMON_REGISTER_NUMBER
    requires EvalTerm(t, env, frames).Val?
    ensures Reaches(code, s, s')
    ensures Computed(s, s', p, Signed(sign, EvalTerm(t, env, frames)).v, |CompileTerm(t, sign, p, env)|)
    decreases t
  {
    hide At, EvalFactor, CompileFactor;
    var a := CompileFactor(t.factor, p, env);
    var neg := if sign == MinusSign then [Instruction(NEG, p, p, 0)] else [];
    var c := CompileFactors(t.factors, p, env);
    AtSplit(code, s.pc, a + neg, c);
    AtSplit(code, s.pc, a, neg);
    var v := EvalFactor(t.factor, env, frames);
    if v.Bad? {
      BadFactors(v.fault, t.factors, env, frames);
    }
    var s1 := FactorRun(code, s, t.factor, p, env, frames);
    var w := v.v;
    if sign == MinusSign {
      NegateFactors(v.v, t.factors, env, frames);
      s1 := NegateRun(code, s, s1, p, |a|, v.v);
      w := -v.v;
    }
    s' := FactorsRun(code, s1, t.factors, p, env, frames);
    JoinRun(code, s, s1, s', p, w, EvalFactors(Val(w), t.factors, env, frames).v, |a + neg|, |c|);
  }

  lemma {:induction false} TermsRun(
      code: seq<Instruction>, s: State, ts: Terms, p: nat, env: Env, frames: seq<Frame>)
    returns (s': State)
    requires Ready(frames, s)
    requires At(code, s.pc, CompileTerms(ts, p, env))
    requires p + NeedTerms(ts) <= COMMON_REGISTER_NUMBER && p < COMMON_REGISTER_NUMBER
    requires EvalTerms(Val(s.regs[p]), ts, env, frames).Val?
    ensures Reaches(code, s, s')
    ensures Computed(s, s', p, EvalTerms(Val(s.regs[p]), ts, env, frames).v, |CompileTerms(ts, p, env)|)
    decreases ts
  {
    hide At, EvalTerm, CompileTerm, NeedTerm;
    match ts
    case NoTerms =>
      ReachSelf(code, s);
      s' := s;
    case MoreTerms(op, t, next) =>
      var a := CompileTerm(t, NoSign, p + 1, env);
      AtSplit3(code, s.pc, a, Instruction(AddOpcode(op), p, p, p + 1), CompileTerms(next, p, env));
      var w := EvalTerm(t, env, frames);
      var v := AddValue(op, Val(s.regs[p]), w);
      if v.Bad? {
        BadTerms(v.fault, next, env, frames);
      }
      var s1 := TermRun(code, s, t, NoSign, p + 1, env, frames);
      var s2 := OperateRun(code, s, s1, AddOpcode(op), p, |a|, w.v);
      s' := TermsRun(code, s2, next, p, env, frames);
      JoinRun(code, s, s2, s', p, v.v, EvalTerms(v, next, env, frames).v, |a| + 1, |CompileTerms(next, p, env)|);
  }

  /** Expression code computes the expression's value and nothing else. */
  lemma {:induction false} ExprRun(
      code: seq<Instruction>, s: State, e: Expr, p: nat, env: Env, frames: seq<Frame>)
    returns (s': State)
    requires Ready(frames, s)
    requires At(code, s.pc, CompileExpr(e, p, env))
    requires p + NeedExpr(e) <= COMMON_REGISTER_NUMBER
    requires EvalExpr(e, env, frames).Val?
    ensures Reaches(code, s, s')
    ensures Computed(s, s', p, EvalExpr(e, env, frames).v, |CompileExpr(e, p, env)|)
    decreases e
  {
    var a := CompileTerm(e.term, e.sign, p, env);
    var c := CompileTerms(e.terms, p, env);
    AtSplit(code, s.pc, a, c);
    var v := EvalTerm(e.term, env, frames);
    if v.Bad? {
      BadTerms(v.fault, e.terms, env, frames);
    }
    var w := Signed(e.sign, v);
    var s1 := TermRun(code, s, e.term, e.sign, p, env, frames);
    s' := TermsRun(code, s1, e.terms, p, env, frames);
    JoinRun(code, s, s1, s', p, w.v, EvalTerms(w, e.terms, env, frames).v, |a|, |c|);
  }

  /** Condition code computes 0 for a false condition and something else for a true one. */
  lemma CondRun(code: seq<Instruction>, s: State, c: Cond, p: nat, env: Env, frames: seq<Frame>)
    returns (s': State)
    requires Ready(frames, s)
    requires At(code, s.pc, CompileCond(c, p, env))
    requires p + NeedCond(c) <= COMMON_REGISTER_NUMBER
    requires EvalCond(c, env, frames).Val?
    ensures Reaches(code, s, s')
    ensures Computed(s, s', p, EvalCond(c, env, frames).v, |CompileCond(c, p, env)|)
  {
    match c
    case Odd(e) =>
      var a := CompileExpr(e, p, env);
      AtSplit(code, s.pc, a, [Instruction(ODD, p, p, 0)]);
      s' := ExprRun(code, s, e, p, env, frames);
      s' := OddRun(code, s, s', p, |a|, EvalExpr(e, env, frames).v);
    case Compare(op, l, r) =>
      var a, b := CompileExpr(l, p, env), CompileExpr(r, p + 1, env);
      var v, w := EvalExpr(l, env, frames).v, EvalExpr(r, env, frames).v;
      AtSplit(code, s.pc, a + b, [Instruction(RelOpcode(op), p, p, p + 1)]);
      AtSplit(code, s.pc, a, b);
      var s1 := ExprRun(code, s, l, p, env, frames);
      var s2 := ExprRun(code, s1, r, p + 1, env, frames);
      RelMatches(op, v, w);
      s' := OperateRun(code, s1, s2, RelOpcode(op), p, |b|, w);
      JoinRun(code, s, s1, s', p, v, EvalCond(c, env, frames).v, |a|, |b| + 1);
  }
}
