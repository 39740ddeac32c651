/**
  The code a tree stands for: what the one-pass parser emits, as a function of the tree alone.

  `at` is the index, in the code set, of the first emitted instruction; jump targets are
  absolute indices of the set. `p` is the first free register.
 */
module Compile {
  import opened Common
  import opened Machine
  import opened Syntax
  import opened Symbols

  function AddOpcode(op: AddOp): Opcode {
    match op case Plus => ADD case Minus => SUB
  }

  function MulOpcode(op: MulOp): Opcode {
    match op case Times => MUL case Divide => DIV
  }

  function RelOpcode(op: RelOp): Opcode {
    match op
    case Equal => EQL
    case NotEqual => NEQ
    case Less => LSS
    case AtMost => LEQ
    case Greater => GTR
    case AtLeast => GEQ
  }

  function CompileFactor(f: Factor, p: int, env: Env): seq<Instruction> {
    match f
    case Number(v) => [Instruction(LIT, p, 0, v)]
    case Paren(e) => CompileExpr(e, p, env)
    case Ident(x) =>
      match env.Find(x)
      case None => []
      case Some(b) =>
        match b.kind
        case VAR => [Instruction(LOD, p, b.hops, b.addr)]
        case CONST => [Instruction(LIT, p, 0, b.val)]
        case PROC => []
  }

  function CompileFactors(fs: Factors, p: int, env: Env): seq<Instruction> {
    match fs
    case NoFactors => []
    case MoreFactors(op, f, next) =>
      CompileFactor(f, p + 1, env) + [Instruction(MulOpcode(op), p, p, p + 1)] + CompileFactors(next, p, env)
  }

  /** The sign of an expression is applied to the first factor of its first term. */
  function CompileTerm(t: Term, sign: Sign, p: int, env: Env): seq<Instruction> {
    CompileFactor(t.factor, p, env)
    + (if sign == MinusSign then [Instruction(NEG, p, p, 0)] else [])
    + CompileFactors(t.factors, p, env)
  }

  function CompileTerms(ts: Terms, p: int, env: Env): seq<Instruction> {
    match ts
    case NoTerms => []
    case MoreTerms(op, t, next) =>
      CompileTerm(t, NoSign, p + 1, env) + [Instruction(AddOpcode(op), p, p, p + 1)] + CompileTerms(next, p, env)
  }

  function CompileExpr(e: Expr, p: int, env: Env): seq<Instruction> {
    CompileTerm(e.term, e.sign, p, env) + CompileTerms(e.terms, p, env)
  }

  function CompileCond(c: Cond, p: int, env: Env): seq<Instruction> {
    match c
    case Odd(e) => CompileExpr(e, p, env) + [Instruction(ODD, p, p, 0)]
    case Compare(op, l, r) =>
      CompileExpr(l, p, env) + CompileExpr(r, p + 1, env) + [Instruction(RelOpcode(op), p, p, p + 1)]
  }

  function Access(op: Opcode, r: int, x: string, env: Env): seq<Instruction> {
    match env.Find(x)
    case None => []
    case Some(b) => [Instruction(op, r, b.hops, b.addr)]
  }

  /** Test, conditional jump over the body, body, jump, and what follows the jump. */
  function Branch(test: seq<Instruction>, p: int, onFalse: int, body: seq<Instruction>, next: int,
                  rest: seq<Instruction>): (code: seq<Instruction>)
    ensures |code| == |test| + |body| + |rest| + 2
  {
    test + [Instruction(JPC, p, 0, onFalse)] + body + [Instruction(JMP, 0, 0, next)] + rest
  }

  /**
    `inProc` says that the set belongs to a procedure: there, and only there, every
    begin..end closes with RTN.
   */
  function CompileStmt(s: Stmt, at: int, p: int, env: Env, inProc: bool): seq<Instruction> {
    match s
    case Empty => []
    case Assign(x, e) => CompileExpr(e, p, env) + Access(STO, p, x, env)
    case Call(x) => Access(CAL, 0, x, env)
    case Begin(first, rest) =>
      var a := CompileStmt(first, at, p, env, inProc);
      a + CompileStmts(rest, at + |a|, p, env, inProc) + (if inProc then [Instruction(RTN, 0, 0, 0)] else [])
    case If(c, t) =>
      var cc := CompileCond(c, p, env);
      var tt := CompileStmt(t, at + |cc| + 1, p + 1, env, inProc);
      var after := at + |cc| + |tt| + 2;
      Branch(cc, p, after, tt, after, [])
    case IfElse(c, t, e) =>
      var cc := CompileCond(c, p, env);
      var tt := CompileStmt(t, at + |cc| + 1, p + 1, env, inProc);
      var otherwise := at + |cc| + |tt| + 2;
      var ee := CompileStmt(e, otherwise, p + 1, env, inProc);
      Branch(cc, p, otherwise, tt, otherwise + |ee|, ee)
    case While(c, b) =>
      var cc := CompileCond(c, p, env);
      var bb := CompileStmt(b, at + |cc| + 1, p + 1, env, inProc);
      Branch(cc, p, at + |cc| + |bb| + 2, bb, at, [])
    case Read(x) => [Instruction(SIO, p, 0, 2)] + Access(STO, p, x, env)
    case Write(x) => CompileWrite(x, p, env) + [Instruction(SIO, p, 0, 1)]
  }

  function CompileStmts(ss: Stmts, at: int, p: int, env: Env, inProc: bool): seq<Instruction> {
    match ss
    case NoStmts => []
    case MoreStmts(s, next) =>
      var a := CompileStmt(s, at, p, env, inProc);
      a + CompileStmts(next, at + |a|, p, env, inProc)
  }

  /** A constant to be written is used as an address of the current record. */
  function CompileWrite(x: string, p: int, env: Env): seq<Instruction> {
    match env.Find(x)
    case None => []
    case Some(b) =>
      if b.kind == VAR then [Instruction(LOD, p, b.hops, b.addr)] else [Instruction(LOD, p, 0, b.val)]
  }

  // ---------- conditionals taken apart ----------

  lemma PlainIfShape(c: Cond, t: Stmt, at: int, p: int, env: Env, inProc: bool)
    ensures var cc := CompileCond(c, p, env);
            var tt := CompileStmt(t, at + |cc| + 1, p + 1, env, inProc);
            var after := at + |cc| + |tt| + 2;
            CompileStmt(If(c, t), at, p, env, inProc) == Branch(cc, p, after, tt, after, [])
  {
    hide CompileCond, CompileStmts, CompileExpr, CompileWrite, Access, Branch;
  }

  lemma PlainWhileShape(c: Cond, b: Stmt, at: int, p: int, env: Env, inProc: bool)
    ensures var cc := CompileCond(c, p, env);
            var bb := CompileStmt(b, at + |cc| + 1, p + 1, env, inProc);
            CompileStmt(While(c, b), at, p, env, inProc) == Branch(cc, p, at + |cc| + |bb| + 2, bb, at, [])
  {
    hide CompileCond, CompileStmts, CompileExpr, CompileWrite, Access, Branch;
  }

  lemma IfElseShape(c: Cond, t: Stmt, e: Stmt, at: int, p: int, env: Env, inProc: bool)
    ensures var cc := CompileCond(c, p, env);
            var tt := CompileStmt(t, at + |cc| + 1, p + 1, env, inProc);
            var after := at + |cc| + |tt| + 2;
            var ee := CompileStmt(e, after, p + 1, env, inProc);
            CompileStmt(IfElse(c, t, e), at, p, env, inProc) == Branch(cc, p, after, tt, after + |ee|, ee)
  {
    hide CompileCond, CompileStmts, CompileExpr, CompileWrite, Access, Branch;
  }
}
