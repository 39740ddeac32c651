/** What `write` of a constant does, exactly. */
module Deviations {
  import opened Common
  import opened Machine
  import opened Syntax
  import opened Symbols
  import opened Compile
  import opened Semantics
  import opened ExprCorrect
  import opened Parsing

  /**
    `write` of a constant writes the cell of the current record that the constant's value
    addresses. It writes the value itself exactly when that cell happens to hold it, and is
    undefined exactly when there is no such cell.
   */
  lemma WriteConstExact(code: seq<Instruction>, s: State, x: string, p: nat, env: Env, inProc: bool)
    requires At(code, s.pc, CompileStmt(Write(x), s.pc, p, env, inProc))
    requires s.status == RUNNING && p < |s.regs| == COMMON_REGISTER_NUMBER
    requires env.Find(x).Some? && env.Find(x).value.kind == CONST
    ensures var v, s' := env.Find(x).value.val, Run(code, s, 2);
            && (s'.status == UNDEFINED <==> !(0 <= s.bp + v < |s.stack|))
            && (s'.status != UNDEFINED ==>
                  && s'.status == RUNNING && s'.output == s.output + [s.stack[s.bp + v]]
                  && (s'.output == s.output + [v] <==> s.stack[s.bp + v] == v))
  {
    var v := env.Find(x).value.val;
    var load, write := [Instruction(LOD, p, 0, v)], [Instruction(SIO, p, 0, 1)];
    AtSplit(code, s.pc, load, write);
    StepAt(code, s, load[0]);
    var s1 := Step(code, s);
    assert Run(code, s, 2) == Run(code, s1, 1) == Run(code, Step(code, s1), 0);
    if s1.status == RUNNING {
      StepAt(code, s1, write[0]);
      assert s1.regs[p] == s.stack[s.bp + v];
      var wrote, wanted := s.output + [s.stack[s.bp + v]], s.output + [v];
      assert wrote[|s.output|] == s.stack[s.bp + v] && wanted[|s.output|] == v;
    }
  }
}
