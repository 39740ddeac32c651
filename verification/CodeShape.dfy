/** What kinds of instruction a procedure's code may hold, and that compiled bodies hold no others. */
module CodeShape {
  import opened Common
  import opened Machine
  import opened Syntax
  import opened Symbols
  import opened Compile
  import opened Semantics
  import opened Registers
  import opened StmtCorrect
  import opened Emission
  import opened Standard

  /** Procedure `k` levels out from procedure `i`. */
  function Ancestor(prog: Prog, i: nat, k: int): nat
    decreases k
  {
    if k <= 0 || i >= |prog| || prog[i].parent < 0 then i else Ancestor(prog, prog[i].parent, k - 1)
  }

  /** Procedures are numbered outside in, and each is one level deeper than its parent. */
  ghost predicate Tree(prog: Prog) {
    && prog != [] && prog[0].level == 0
    && forall i :: 0 < i < |prog| ==> 0 <= prog[i].parent < i && prog[i].level == prog[prog[i].parent].level + 1
  }

  /** A name of procedure `i` denotes something that is where the static chain leads. */
  predicate SoundName(prog: Prog, i: nat, b: Binding)
    requires i < |prog|
  {
    && 0 <= b.hops <= prog[i].level
    && var owner := Ancestor(prog, i, b.hops);
       match b.kind
       case VAR => owner < |prog| && HEADER <= b.addr < HEADER + prog[owner].vars
       case PROC => 0 < b.addr < |prog| && prog[b.addr].parent == owner
       case CONST => true
  }

  ghost predicate SoundEnv(prog: Prog, i: nat)
    requires i < |prog|
  {
    forall x :: prog[i].env.Find(x).Some? ==> SoundName(prog, i, prog[i].env.Find(x).value)
  }

  /** Assignments go to variables; the parser only reports the others. */
  predicate Strict(s: Stmt, env: Env) {
    match s
    case Assign(x, _) => IsKind(x, env, {VAR})
    case Begin(first, rest) => Strict(first, env) && StrictAll(rest, env)
    case If(_, t) => Strict(t, env)
    case IfElse(_, t, e) => Strict(t, env) && Strict(e, env)
    case While(_, b) => Strict(b, env)
    case _ => true
  }

  predicate StrictAll(ss: Stmts, env: Env) {
    match ss
    case NoStmts => true
    case MoreStmts(s, next) => Strict(s, env) && StrictAll(next, env)
  }

  predicate InRegs(i: int) {
    0 <= i < COMMON_REGISTER_NUMBER
  }

  /**
    An instruction that can stand in the body of procedure `i`, a CAL only if the body makes a
    call; jumps are looked at separately.
   */
  predicate Allowed(prog: Prog, i: nat, ins: Instruction)
    requires i < |prog|
  {
    match ins.op
    case LIT => InRegs(ins.r)
    case LOD => InRegs(ins.r) && SoundName(prog, i, Binding(VAR, ins.l, ins.m, 0))
    case STO => InRegs(ins.r) && SoundName(prog, i, Binding(VAR, ins.l, ins.m, 0))
    case CAL => SoundName(prog, i, Binding(PROC, ins.l, ins.m, 0)) && !NoCall(prog[i].body)
    case RTN => i > 0
    case JMP => true
    case JPC => InRegs(ins.r)
    case SIO => InRegs(ins.r) && (ins.m == 1 || ins.m == 2)
    case NEG => InRegs(ins.r) && InRegs(ins.l)
    case ODD => InRegs(ins.r)
    case INC => false
    case NUL => false
    case MOD => false
    case _ => InRegs(ins.r) && InRegs(ins.l) && InRegs(ins.m)
  }

  /** Every instruction allowed, every jump between `lo` and `hi`. */
  ghost predicate Shaped(prog: Prog, i: nat, code: seq<Instruction>, lo: int, hi: int)
    requires i < |prog|
  {
    forall k :: 0 <= k < |code| ==>
      Allowed(prog, i, code[k]) && (code[k].op == JMP || code[k].op == JPC ==> lo <= code[k].m <= hi)
  }

  lemma ShapedConcat(prog: Prog, i: nat, a: seq<Instruction>, b: seq<Instruction>, lo: int, hi: int)
    requires i < |prog| && Shaped(prog, i, a, lo, hi) && Shaped(prog, i, b, lo, hi)
    ensures Shaped(prog, i, a + b, lo, hi)
  {
  }

  lemma ShapedWiden(prog: Prog, i: nat, a: seq<Instruction>, lo: int, hi: int, lo': int, hi': int)
    requires i < |prog| && Shaped(prog, i, a, lo, hi) && lo' <= lo && hi <= hi'
    ensures Shaped(prog, i, a, lo', hi')
  {
  }

  lemma {:induction false} FactorShaped(prog: Prog, i: nat, f: Factor, p: nat, lo: int, hi: int)
    requires i < |prog| && SoundEnv(prog, i) && GoodFactor(f, prog[i].env)
    requires p + NeedFactor(f) <= COMMON_REGISTER_NUMBER
    ensures Shaped(prog, i, CompileFactor(f, p, prog[i].env), lo, hi)
    decreases f
  {
    match f
    case Paren(e) => ExprShaped(prog, i, e, p, lo, hi);
    case Ident(x) => assert SoundName(prog, i, prog[i].env.Find(x).value);
    case _ =>
  }

  lemma {:induction false} FactorsShaped(prog: Prog, i: nat, fs: Factors, p: nat, lo: int, hi: int)
    requires i < |prog| && SoundEnv(prog, i) && GoodFactors(fs, prog[i].env)
    requires p + NeedFactors(fs) <= COMMON_REGISTER_NUMBER
    ensures Shaped(prog, i, CompileFactors(fs, p, prog[i].env), lo, hi)
    decreases fs
  {
    if fs.MoreFactors? {
      FactorShaped(prog, i, fs.factor, p + 1, lo, hi);
      FactorsShaped(prog, i, fs.next, p, lo, hi);
      NeedOne(fs.factor);
    }
  }

  lemma {:induction false} NeedOne(f: Factor)
    ensures NeedFactor(f) >= 1
    decreases f
  {
    if f.Paren? {
      NeedOne(f.expr.term.factor);
      assert NeedTerm(f.expr.term) >= NeedFactor(f.expr.term.factor);
    }
  }

  lemma {:induction false} TermShaped(prog: Prog, i: nat, t: Term, sign: Sign, p: nat, lo: int, hi: int)
    requires i < |prog| && SoundEnv(prog, i) && GoodTerm(t, prog[i].env)
    requires p + NeedTerm(t) <= COMMON_REGISTER_NUMBER
    ensures Shaped(prog, i, CompileTerm(t, sign, p, prog[i].env), lo, hi)
    decreases t
  {
    FactorShaped(prog, i, t.factor, p, lo, hi);
    FactorsShaped(prog, i, t.factors, p, lo, hi);
    NeedOne(t.factor);
  }

  lemma {:induction false} TermsShaped(prog: Prog, i: nat, ts: Terms, p: nat, lo: int, hi: int)
    requires i < |prog| && SoundEnv(prog, i) && GoodTerms(ts, prog[i].env)
    requires p + NeedTerms(ts) <= COMMON_REGISTER_NUMBER
    ensures Shaped(prog, i, CompileTerms(ts, p, prog[i].env), lo, hi)
    decreases ts
  {
    if ts.MoreTerms? {
      TermShaped(prog, i, ts.term, NoSign, p + 1, lo, hi);
      TermsShaped(prog, i, ts.next, p, lo, hi);
      NeedOne(ts.term.factor);
    }
  }

  lemma {:induction false} ExprShaped(prog: Prog, i: nat, e: Expr, p: nat, lo: int, hi: int)
    requires i < |prog| && SoundEnv(prog, i) && GoodExpr(e, prog[i].env)
    requires p + NeedExpr(e) <= COMMON_REGISTER_NUMBER
    ensures Shaped(prog, i, CompileExpr(e, p, prog[i].env), lo, hi)
    decreases e
  {
    TermShaped(prog, i, e.term, e.sign, p, lo, hi);
    TermsShaped(prog, i, e.terms, p, lo, hi);
  }

  lemma CondShaped(prog: Prog, i: nat, c: Cond, p: nat, lo: int, hi: int)
    requires i < |prog| && SoundEnv(prog, i) && GoodCond(c, prog[i].env)
    requires p + NeedCond(c) <= COMMON_REGISTER_NUMBER
    ensures Shaped(prog, i, CompileCond(c, p, prog[i].env), lo, hi)
    ensures p < COMMON_REGISTER_NUMBER
  {
    match c
    case Odd(e) =>
      ExprShaped(prog, i, e, p, lo, hi);
      NeedOne(e.term.factor);
    case Compare(_, l, r) =>
      ExprShaped(prog, i, l, p, lo, hi);
      ExprShaped(prog, i, r, p + 1, lo, hi);
      NeedOne(r.term.factor);
  }

  lemma BranchShaped(prog: Prog, i: nat, test: seq<Instruction>, p: nat, onFalse: int, body: seq<Instruction>,
                     next: int, rest: seq<Instruction>, lo: int, hi: int)
    requires i < |prog| && p < COMMON_REGISTER_NUMBER
    requires Shaped(prog, i, test, lo, hi) && Shaped(prog, i, body, lo, hi) && Shaped(prog, i, rest, lo, hi)
    requires lo <= onFalse <= hi && lo <= next <= hi
    ensures Shaped(prog, i, Branch(test, p, onFalse, body, next, rest), lo, hi)
  {
    var jpc, jmp := [Instruction(JPC, p, 0, onFalse)], [Instruction(JMP, 0, 0, next)];
    ShapedConcat(prog, i, test, jpc, lo, hi);
    ShapedConcat(prog, i, test + jpc, body, lo, hi);
    ShapedConcat(prog, i, test + jpc + body, jmp, lo, hi);
    ShapedConcat(prog, i, test + jpc + body + jmp, rest, lo, hi);
  }

  /** Everything a statement of procedure `i` must satisfy for its code to be well shaped. */
  ghost predicate Sound(prog: Prog, i: nat, s: Stmt, p: nat)
    requires i < |prog|
  {
    && SoundEnv(prog, i) && GoodStmt(s, prog[i].env) && Strict(s, prog[i].env) && NoConstWrite(s, prog[i].env)
    && p + NeedStmt(s) <= COMMON_REGISTER_NUMBER
    && (NoCall(prog[i].body) ==> NoCall(s))
  }

  ghost predicate SoundAll(prog: Prog, i: nat, ss: Stmts, p: nat)
    requires i < |prog|
  {
    && SoundEnv(prog, i) && GoodStmts(ss, prog[i].env) && StrictAll(ss, prog[i].env) && NoConstWriteAll(ss, prog[i].env)
    && p + NeedStmts(ss) <= COMMON_REGISTER_NUMBER
    && (NoCall(prog[i].body) ==> NoCallAll(ss))
  }

  lemma SimpleShaped(prog: Prog, i: nat, s: Stmt, at: int, p: nat, lo: int, hi: int)
    requires i < |prog| && Sound(prog, i, s, p)
    requires s.Empty? || s.Assign? || s.Call? || s.Read? || s.Write?
    ensures Shaped(prog, i, CompileStmt(s, at, p, prog[i].env, i > 0), lo, hi)
  {
    var env := prog[i].env;
    match s
    case Empty =>
    case Assign(x, e) =>
      ExprShaped(prog, i, e, p, lo, hi);
      NeedOne(e.term.factor);
      assert SoundName(prog, i, env.Find(x).value);
    case Call(x) => assert SoundName(prog, i, env.Find(x).value);
    case Read(x) => assert SoundName(prog, i, env.Find(x).value);
    case Write(x) => assert SoundName(prog, i, env.Find(x).value);
  }

  lemma {:induction false} IfShaped(prog: Prog, i: nat, s: Stmt, at: int, p: nat)
    requires i < |prog| && Sound(prog, i, s, p) && s.If?
    ensures var code := CompileStmt(s, at, p, prog[i].env, i > 0);
            Shaped(prog, i, code, at, at + |code|)
    decreases s, 0
  {
    hide Shaped, Branch, CompileCond, SoundEnv;
    var cc := CompileCond(s.cond, p, prog[i].env);
    var lo := at + |cc| + 1;
    var tt := CompileStmt(s.thn, lo, p + 1, prog[i].env, i > 0);
    var hi := lo + |tt| + 1;
    CondShaped(prog, i, s.cond, p, at, hi);
    StmtShaped(prog, i, s.thn, lo, p + 1);
    ShapedWiden(prog, i, tt, lo, lo + |tt|, at, hi);
    NoneShaped(prog, i, at, hi);
    BranchShaped(prog, i, cc, p, hi, tt, hi, [], at, hi);
  }

  lemma {:induction false} IfElseShaped(prog: Prog, i: nat, s: Stmt, at: int, p: nat)
    requires i < |prog| && Sound(prog, i, s, p) && s.IfElse?
    ensures var code := CompileStmt(s, at, p, prog[i].env, i > 0);
            Shaped(prog, i, code, at, at + |code|)
    decreases s, 0
  {
    hide Shaped, Branch, CompileCond, SoundEnv;
    var cc := CompileCond(s.cond, p, prog[i].env);
    var lo := at + |cc| + 1;
    var tt := CompileStmt(s.thn, lo, p + 1, prog[i].env, i > 0);
    var lo2 := lo + |tt| + 1;
    var ee := CompileStmt(s.els, lo2, p + 1, prog[i].env, i > 0);
    var hi := lo2 + |ee|;
    CondShaped(prog, i, s.cond, p, at, hi);
    StmtShaped(prog, i, s.thn, lo, p + 1);
    StmtShaped(prog, i, s.els, lo2, p + 1);
    ShapedWiden(prog, i, tt, lo, lo + |tt|, at, hi);
    ShapedWiden(prog, i, ee, lo2, hi, at, hi);
    BranchShaped(prog, i, cc, p, lo2, tt, hi, ee, at, hi);
  }

  lemma {:induction false} WhileShaped(prog: Prog, i: nat, s: Stmt, at: int, p: nat)
    requires i < |prog| && Sound(prog, i, s, p) && s.While?
    ensures var code := CompileStmt(s, at, p, prog[i].env, i > 0);
            Shaped(prog, i, code, at, at + |code|)
    decreases s, 0
  {
    hide Shaped, Branch, CompileCond, SoundEnv;
    var cc := CompileCond(s.cond, p, prog[i].env);
    var lo := at + |cc| + 1;
    var bb := CompileStmt(s.body, lo, p + 1, prog[i].env, i > 0);
    var hi := lo + |bb| + 1;
    CondShaped(prog, i, s.cond, p, at, hi);
    StmtShaped(prog, i, s.body, lo, p + 1);
    ShapedWiden(prog, i, bb, lo, lo + |bb|, at, hi);
    NoneShaped(prog, i, at, hi);
    BranchShaped(prog, i, cc, p, hi, bb, at, [], at, hi);
  }

  /** The jumps of a statement's code stay between its first instruction and the one behind it. */
  lemma {:induction false} StmtShaped(prog: Prog, i: nat, s: Stmt, at: int, p: nat)
    requires i < |prog| && Sound(prog, i, s, p)
    ensures var code := CompileStmt(s, at, p, prog[i].env, i > 0);
            Shaped(prog, i, code, at, at + |code|)
    decreases s, 1
  {
    hide Shaped, SoundEnv;
    match s
    case Begin(first, rest) =>
      var a := CompileStmt(first, at, p, prog[i].env, i > 0);
      StmtShaped(prog, i, first, at, p);
      StmtsShaped(prog, i, rest, at + |a|, p);
      BeginShaped(prog, i, a, CompileStmts(rest, at + |a|, p, prog[i].env, i > 0), at);
    case If(_, _) => IfShaped(prog, i, s, at, p);
    case IfElse(_, _, _) => IfElseShaped(prog, i, s, at, p);
    case While(_, _) => WhileShaped(prog, i, s, at, p);
    case _ => SimpleShaped(prog, i, s, at, p, at, at + |CompileStmt(s, at, p, prog[i].env, i > 0)|);
  }

  lemma NoneShaped(prog: Prog, i: nat, lo: int, hi: int)
    requires i < |prog|
    ensures Shaped(prog, i, [], lo, hi)
  {
  }

  lemma BeginShaped(prog: Prog, i: nat, a: seq<Instruction>, b: seq<Instruction>, at: int)
    requires i < |prog| && Shaped(prog, i, a, at, at + |a|) && Shaped(prog, i, b, at + |a|, at + |a| + |b|)
    ensures var rtn := if i > 0 then [Instruction(RTN, 0, 0, 0)] else [];
            && Shaped(prog, i, a + b + rtn, at, at + |a| + |b|)
            && Shaped(prog, i, a + b + rtn, at, at + |a| + |b| + |rtn|)
  {
  }

  lemma {:induction false} StmtsShaped(prog: Prog, i: nat, ss: Stmts, at: int, p: nat)
    requires i < |prog| && SoundAll(prog, i, ss, p)
    ensures var code := CompileStmts(ss, at, p, prog[i].env, i > 0);
            Shaped(prog, i, code, at, at + |code|)
    decreases ss
  {
    hide CompileStmt, SoundEnv;
    if ss.MoreStmts? {
      var a := CompileStmt(ss.stmt, at, p, prog[i].env, i > 0);
      StmtShaped(prog, i, ss.stmt, at, p);
      StmtsShaped(prog, i, ss.next, at + |a|, p);
    }
  }

  // ---------- where a returning body leads ----------

  /** The jumps over an else part that stand behind the RTN of the part before: nothing leads there. */
  function Joins(s: Stmt, at: int, p: int, env: Env): set<int> {
    match s
    case IfElse(c, t, e) =>
      var lo := at + |CompileCond(c, p, env)| + 1;
      var join := lo + |CompileStmt(t, lo, p + 1, env, true)|;
      {join} + Joins(t, lo, p + 1, env) + Joins(e, join + 1, p + 1, env)
    case _ => {}
  }

  /** From any place in the code but the `dead` ones control goes on to another such place, or returns. */
  ghost predicate Flows(prog: Prog, i: nat, code: seq<Instruction>, at: int, dead: set<int>)
    requires i < |prog|
  {
    forall k :: 0 <= k < |code| && at + k !in dead ==>
      && Allowed(prog, i, code[k])
      && (code[k].op != RTN ==> k + 1 < |code| && at + k + 1 !in dead)
      && (code[k].op == JMP || code[k].op == JPC ==> at <= code[k].m < at + |code| && code[k].m !in dead)
  }

  /** Dead places are inside the code, and neither at its start nor at its end. */
  ghost predicate DeadInside(code: seq<Instruction>, at: int, dead: set<int>) {
    code != [] && forall j :: j in dead ==> at < j < at + |code| - 1
  }

  lemma BeginFlows(prog: Prog, i: nat, s: Stmt, at: int, p: nat)
    requires 0 < i < |prog| && Sound(prog, i, s, p) && s.Begin?
    ensures BodyFlow(prog, i, s, at, p)
  {
    hide SoundEnv, Shaped, Allowed;
    var a := CompileStmt(s.first, at, p, prog[i].env, true);
    var b := CompileStmts(s.rest, at + |a|, p, prog[i].env, true);
    StmtShaped(prog, i, s.first, at, p);
    StmtsShaped(prog, i, s.rest, at + |a|, p);
    BeginShaped(prog, i, a, b, at);
    ShapedFlows(prog, i, CompileStmt(s, at, p, prog[i].env, true), at);
  }

  lemma ShapedFlows(prog: Prog, i: nat, code: seq<Instruction>, at: int)
    requires i < |prog| && code != [] && code[|code| - 1].op == RTN && Shaped(prog, i, code, at, at + |code| - 1)
    ensures Flows(prog, i, code, at, {})
  {
    hide Allowed;
  }

  /** A test, and two parts of which each returns on all its ways. */
  lemma ElseFlows(prog: Prog, i: nat, test: seq<Instruction>, p: nat, thn: seq<Instruction>, els: seq<Instruction>,
                  at: int, dead: set<int>, dead': set<int>)
    requires i < |prog| && p < COMMON_REGISTER_NUMBER && Shaped(prog, i, test, 1, 0)
    requires var lo := at + |test| + 1; DeadInside(thn, lo, dead) && Flows(prog, i, thn, lo, dead)
    requires var lo' := at + |test| + |thn| + 2; DeadInside(els, lo', dead') && Flows(prog, i, els, lo', dead')
    ensures var otherwise := at + |test| + |thn| + 2;
            var code := Branch(test, p, otherwise, thn, otherwise + |els|, els);
            var all := {otherwise - 1} + dead + dead';
            DeadInside(code, at, all) && Flows(prog, i, code, at, all)
  {
    var otherwise := at + |test| + |thn| + 2;
    var code := Branch(test, p, otherwise, thn, otherwise + |els|, els);
    var all := {otherwise - 1} + dead + dead';
    hide Branch;
    forall k | 0 <= k < |code| && at + k !in all
      ensures Allowed(prog, i, code[k])
      ensures code[k].op != RTN ==> k + 1 < |code| && at + k + 1 !in all
      ensures code[k].op == JMP || code[k].op == JPC ==> at <= code[k].m < at + |code| && code[k].m !in all
    {
      BranchAt(test, p, otherwise, thn, otherwise + |els|, els, k);
      if k == |test| {
        assert code[k] == Instruction(JPC, p, 0, otherwise);
      } else {
        hide Allowed;
      }
    }
  }

  lemma BranchAt(test: seq<Instruction>, p: int, onFalse: int, body: seq<Instruction>, next: int,
                 rest: seq<Instruction>, k: nat)
    requires k < |Branch(test, p, onFalse, body, next, rest)|
    ensures Branch(test, p, onFalse, body, next, rest)[k]
         == if k < |test| then test[k]
            else if k == |test| then Instruction(JPC, p, 0, onFalse)
            else if k <= |test| + |body| then body[k - |test| - 1]
            else if k == |test| + |body| + 1 then Instruction(JMP, 0, 0, next)
            else rest[k - |test| - |body| - 2]
  {
  }

  lemma ElseSound(prog: Prog, i: nat, s: Stmt, p: nat)
    requires i < |prog| && Sound(prog, i, s, p) && Returns(s) && !s.Begin?
    ensures s.IfElse? && Returns(s.thn) && Returns(s.els)
    ensures Sound(prog, i, s.thn, p + 1) && Sound(prog, i, s.els, p + 1)
    ensures SoundEnv(prog, i) && GoodCond(s.cond, prog[i].env) && p + NeedCond(s.cond) <= COMMON_REGISTER_NUMBER
  {
    hide SoundEnv, GoodCond, NeedCond;
  }

  lemma JoinsElse(s: Stmt, at: int, p: int, env: Env)
    requires s.IfElse?
    ensures var lo := at + |CompileCond(s.cond, p, env)| + 1;
            var join := lo + |CompileStmt(s.thn, lo, p + 1, env, true)|;
            Joins(s, at, p, env) == {join} + Joins(s.thn, lo, p + 1, env) + Joins(s.els, join + 1, p + 1, env)
  {
    hide CompileCond, CompileStmt;
  }

  /** The last instruction of a conditional is that of its second part. */
  lemma BranchLast(test: seq<Instruction>, p: int, onFalse: int, body: seq<Instruction>, next: int,
                   rest: seq<Instruction>, at: int, dead: set<int>)
    requires DeadInside(rest, at, dead)
    ensures rest != []
    ensures var code := Branch(test, p, onFalse, body, next, rest);
            code != [] && code[|code| - 1] == rest[|rest| - 1]
  {
  }

  /** The code of `s`, a statement of procedure `i`, flows to its RTNs. */
  ghost predicate BodyFlow(prog: Prog, i: nat, s: Stmt, at: int, p: int)
    requires i < |prog|
  {
    var code, dead := CompileStmt(s, at, p, prog[i].env, true), Joins(s, at, p, prog[i].env);
    && DeadInside(code, at, dead) && Flows(prog, i, code, at, dead)
    && code != [] && code[|code| - 1] == Instruction(RTN, 0, 0, 0)
  }

  lemma ElseFlow(prog: Prog, i: nat, s: Stmt, at: int, p: nat)
    requires i < |prog| && s.IfElse? && p < COMMON_REGISTER_NUMBER
    requires Shaped(prog, i, CompileCond(s.cond, p, prog[i].env), 1, 0)
    requires var lo := at + |CompileCond(s.cond, p, prog[i].env)| + 1;
             && BodyFlow(prog, i, s.thn, lo, p + 1)
             && BodyFlow(prog, i, s.els, lo + |CompileStmt(s.thn, lo, p + 1, prog[i].env, true)| + 1, p + 1)
    ensures BodyFlow(prog, i, s, at, p)
  {
    hide Shaped, Flows, DeadInside, CompileCond, CompileStmt, Branch, Joins;
    var env := prog[i].env;
    var cc := CompileCond(s.cond, p, env);
    var lo := at + |cc| + 1;
    var tt := CompileStmt(s.thn, lo, p + 1, env, true);
    var lo' := lo + |tt| + 1;
    var ee := CompileStmt(s.els, lo', p + 1, env, true);
    ElseFlows(prog, i, cc, p, tt, ee, at, Joins(s.thn, lo, p + 1, env), Joins(s.els, lo', p + 1, env));
    IfElseShape(s.cond, s.thn, s.els, at, p, env, true);
    JoinsElse(s, at, p, env);
    BranchLast(cc, p, lo', tt, lo' + |ee|, ee, lo', Joins(s.els, lo', p + 1, env));
  }

  /**
    The code of a body that returns on all its ways: from every place that anything leads to,
    control stays in the code until an RTN; nothing leads to a jump over an else part.
   */
  lemma {:induction false} BodyFlows(prog: Prog, i: nat, s: Stmt, at: int, p: nat)
    requires 0 < i < |prog| && Sound(prog, i, s, p) && Returns(s)
    ensures BodyFlow(prog, i, s, at, p)
    decreases s
  {
    hide Shaped, BodyFlow, CompileCond, CompileStmt, Sound, SoundEnv, GoodCond, NeedCond, Returns;
    if s.Begin? {
      BeginFlows(prog, i, s, at, p);
    } else {
      ElseSound(prog, i, s, p);
      var env := prog[i].env;
      var lo := at + |CompileCond(s.cond, p, env)| + 1;
      CondShaped(prog, i, s.cond, p, 1, 0);
      BodyFlows(prog, i, s.thn, lo, p + 1);
      BodyFlows(prog, i, s.els, lo + |CompileStmt(s.thn, lo, p + 1, env, true)| + 1, p + 1);
      ElseFlow(prog, i, s, at, p);
    }
  }
}
