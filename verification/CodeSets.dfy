/** The code sets the parser fills, and the linked code made from them. */
module CodeSets {
  import opened Machine
  import opened Syntax
  import opened Symbols
  import opened Compile

  const FINAL_CODE := -1
  const MAX_CODE_SETS := 100

  /** Code sets by number; a set nothing was emitted to is absent. */
  type Code = map<int, seq<Instruction>>

  function Get(c: Code, number: int): seq<Instruction> {
    if number in c then c[number] else []
  }

  function AppendAll(c: Code, number: int, code: seq<Instruction>): Code {
    if code == [] then c else c[number := Get(c, number) + code]
  }

  function Prepend(c: Code, number: int, i: Instruction): Code {
    c[number := [i] + Get(c, number)]
  }

  function SetM(code: seq<Instruction>, index: int, m: int): seq<Instruction> {
    if 0 <= index < |code| then code[index := code[index].(m := m)] else code
  }

  function ChangeM(c: Code, number: int, index: int, m: int): Code {
    if 0 <= index < |Get(c, number)| then c[number := SetM(Get(c, number), index, m)] else c
  }

  lemma AppendGet(c: Code, number: int, code: seq<Instruction>)
    ensures Get(AppendAll(c, number, code), number) == Get(c, number) + code
    ensures forall k :: k != number ==> Get(AppendAll(c, number, code), k) == Get(c, k)
  {
  }

  lemma AppendTwice(c: Code, number: int, a: seq<Instruction>, b: seq<Instruction>)
    ensures AppendAll(AppendAll(c, number, a), number, b) == AppendAll(c, number, a + b)
  {
    if a == [] {
      assert a + b == b;
    } else if b == [] {
      assert a + b == a;
    } else {
      assert Get(c, number) + a + b == Get(c, number) + (a + b);
    }
  }

  // ---------- linking ----------

  /** Number of the first empty set; 0 when there is none. */
  function SetCount(c: Code, i: nat := 0): nat
    decreases MAX_CODE_SETS - i
  {
    if i >= MAX_CODE_SETS then 0 else if Get(c, i) == [] then i else SetCount(c, i + 1)
  }

  /** The sets counted are those in front of the first empty one; with all 100 in use none is. */
  lemma {:induction false} SetCountExact(c: Code, i: nat, n: nat)
    requires i <= 100
    ensures SetCount(c, i) == n <==>
      if i <= n < 100 && Get(c, n) == [] then forall k :: i <= k < n ==> Get(c, k) != []
      else n == 0 && forall k :: i <= k < 100 ==> Get(c, k) != []
    decreases 100 - i
  {
    hide Get;
    if i < 100 && Get(c, i) != [] {
      SetCountExact(c, i + 1, n);
    }
  }

  /** Where set `i` of `n` starts in the linked code: behind the jump table and all higher sets. */
  function Entry(c: Code, n: nat, i: nat): nat
    decreases n - i
  {
    if i + 1 >= n then n else Entry(c, n, i + 1) + |Get(c, i + 1)|
  }

  function MoveJump(i: Instruction, d: int): Instruction {
    if i.op == JMP || i.op == JPC then i.(m := i.m + d) else i
  }

  function Relocate(code: seq<Instruction>, d: int): (r: seq<Instruction>)
    ensures |r| == |code|
    ensures forall k :: 0 <= k < |r| ==> r[k] == MoveJump(code[k], d)
  {
    seq(|code|, k requires 0 <= k < |code| => MoveJump(code[k], d))
  }

  function JumpTable(c: Code, n: nat): seq<Instruction> {
    seq(n, i requires 0 <= i < n => Instruction(JMP, 0, 0, Entry(c, n, i)))
  }

  /** Sets n-1 down to `i`, each with its jumps moved to where it lands. */
  function Bodies(c: Code, n: nat, i: nat): seq<Instruction>
    decreases n - i
  {
    if i >= n then [] else Bodies(c, n, i + 1) + Relocate(Get(c, i), Entry(c, n, i) + 1)
  }

  function LinkSets(c: Code, n: nat): seq<Instruction> {
    JumpTable(c, n) + Bodies(c, n, 0)
  }

  /** The linked code: nothing when no set, or every set, is in use. */
  function Link(c: Code): seq<Instruction> {
    LinkSets(c, SetCount(c))
  }

  lemma {:induction false} BodiesLength(c: Code, n: nat, i: nat)
    requires i < n
    ensures n + |Bodies(c, n, i)| == Entry(c, n, i) + |Get(c, i)|
    decreases n - i
  {
    if i + 1 < n {
      BodiesLength(c, n, i + 1);
    }
  }

  lemma {:induction false} BodiesPrefix(c: Code, n: nat, i: nat, k: nat)
    requires i <= k <= n
    ensures Bodies(c, n, k) <= Bodies(c, n, i)
    decreases k - i
  {
    if i < k {
      BodiesPrefix(c, n, i + 1, k);
    }
  }

  lemma BodiesSplit(c: Code, n: nat, i: nat)
    requires i < n
    ensures Bodies(c, n, i) == Bodies(c, n, i + 1) + Relocate(Get(c, i), Entry(c, n, i) + 1)
    ensures Entry(c, n, i) == n + |Bodies(c, n, i + 1)|
    ensures Bodies(c, n, i) <= Bodies(c, n, 0)
  {
    BodiesLength(c, n, i);
    BodiesPrefix(c, n, 0, i);
  }

  /**
    Layout: set `i` starts at its entry, which is what its jump-table slot jumps to, and its
    instruction k lands at entry + k, with a jump moved by entry + 1.
   */
  lemma LinkLayout(c: Code, n: nat, i: nat)
    requires i < n
    ensures var code, e := LinkSets(c, n), Entry(c, n, i);
            && n <= e && e + |Get(c, i)| <= |code|
            && code[i] == Instruction(JMP, 0, 0, e)
            && code[e..e + |Get(c, i)|] == Relocate(Get(c, i), e + 1)
  {
    hide Bodies, Entry;
    BodiesSplit(c, n, i);
    var tail := Relocate(Get(c, i), Entry(c, n, i) + 1);
    Middle(JumpTable(c, n), Bodies(c, n, i + 1), tail, Bodies(c, n, 0));
  }

  lemma Middle(table: seq<Instruction>, low: seq<Instruction>, mid: seq<Instruction>, all: seq<Instruction>)
    requires low + mid <= all
    ensures var e := |table| + |low|;
            && e + |mid| <= |table + all|
            && (table + all)[e..e + |mid|] == mid
            && forall i :: 0 <= i < |table| ==> (table + all)[i] == table[i]
  {
    assert all[|low|..|low| + |mid|] == (low + mid)[|low|..] == mid;
  }

  /** The linked code is the jump table and the sets, no more. */
  lemma LinkLength(c: Code, n: nat)
    ensures |LinkSets(c, n)| == if n == 0 then 0 else Entry(c, n, 0) + |Get(c, 0)|
  {
    if n > 0 {
      BodiesLength(c, n, 0);
    }
  }

  // ---------- relocating compiled code ----------

  lemma RelocateConcat(a: seq<Instruction>, b: seq<Instruction>, d: int)
    ensures Relocate(a + b, d) == Relocate(a, d) + Relocate(b, d)
  {
  }

  predicate NoJumps(code: seq<Instruction>) {
    forall k :: 0 <= k < |code| ==> code[k].op != JMP && code[k].op != JPC
  }

  lemma RelocateNoJumps(code: seq<Instruction>, d: int)
    requires NoJumps(code)
    ensures Relocate(code, d) == code
  {
  }

  lemma {:induction false} FactorNoJumps(f: Factor, p: int, env: Env)
    ensures NoJumps(CompileFactor(f, p, env))
    decreases f
  {
    if f.Paren? {
      ExprNoJumps(f.expr, p, env);
    }
  }

  lemma {:induction false} FactorsNoJumps(fs: Factors, p: int, env: Env)
    ensures NoJumps(CompileFactors(fs, p, env))
    decreases fs
  {
    if fs.MoreFactors? {
      FactorNoJumps(fs.factor, p + 1, env);
      FactorsNoJumps(fs.next, p, env);
    }
  }

  lemma {:induction false} TermNoJumps(t: Term, sign: Sign, p: int, env: Env)
    ensures NoJumps(CompileTerm(t, sign, p, env))
    decreases t
  {
    FactorNoJumps(t.factor, p, env);
    FactorsNoJumps(t.factors, p, env);
  }

  lemma {:induction false} TermsNoJumps(ts: Terms, p: int, env: Env)
    ensures NoJumps(CompileTerms(ts, p, env))
    decreases ts
  {
    if ts.MoreTerms? {
      TermNoJumps(ts.term, NoSign, p + 1, env);
      TermsNoJumps(ts.next, p, env);
    }
  }

  lemma {:induction false} ExprNoJumps(e: Expr, p: int, env: Env)
    ensures NoJumps(CompileExpr(e, p, env))
    decreases e
  {
    TermNoJumps(e.term, e.sign, p, env);
    TermsNoJumps(e.terms, p, env);
  }

  lemma CondNoJumps(c: Cond, p: int, env: Env)
    ensures NoJumps(CompileCond(c, p, env))
  {
    match c
    case Odd(e) => ExprNoJumps(e, p, env);
    case Compare(_, l, r) => ExprNoJumps(l, p, env); ExprNoJumps(r, p + 1, env);
  }

  lemma RelocateBranch(test: seq<Instruction>, p: int, onFalse: int, body: seq<Instruction>, next: int,
                       rest: seq<Instruction>, d: int)
    requires NoJumps(test)
    ensures Relocate(Branch(test, p, onFalse, body, next, rest), d)
         == Branch(test, p, onFalse + d, Relocate(body, d), next + d, Relocate(rest, d))
  {
  }

  /** Moving a statement's code is compiling the statement for the new place. */
  lemma {:induction false} RelocateStmt(s: Stmt, at: int, p: int, env: Env, inProc: bool, d: int)
    ensures Relocate(CompileStmt(s, at, p, env, inProc), d) == CompileStmt(s, at + d, p, env, inProc)
    decreases s, 1
  {
    hide Relocate, CompileExpr, CompileCond, CompileStmts, Branch, Access, CompileWrite;
    match s
    case Begin(first, rest) =>
      var a := CompileStmt(first, at, p, env, inProc);
      var b := CompileStmts(rest, at + |a|, p, env, inProc);
      RelocateStmt(first, at, p, env, inProc, d);
      RelocateStmts(rest, at + |a|, p, env, inProc, d);
      RelocateBegin(a, b, inProc, d);
    case If(_, _) => RelocateIf(s, at, p, env, inProc, d);
    case IfElse(_, _, _) => RelocateIfElse(s, at, p, env, inProc, d);
    case While(_, _) => RelocateWhile(s, at, p, env, inProc, d);
    case _ => RelocateSimple(s, at, p, env, inProc, d);
  }

  lemma {:induction false} RelocateIf(s: Stmt, at: int, p: int, env: Env, inProc: bool, d: int)
    requires s.If?
    ensures Relocate(CompileStmt(s, at, p, env, inProc), d) == CompileStmt(s, at + d, p, env, inProc)
    decreases s, 0
  {
    hide Relocate, CompileCond, Branch;
    CondNoJumps(s.cond, p, env);
    var cc := CompileCond(s.cond, p, env);
    var tt := CompileStmt(s.thn, at + |cc| + 1, p + 1, env, inProc);
    RelocateStmt(s.thn, at + |cc| + 1, p + 1, env, inProc, d);
    var after := at + |cc| + |tt| + 2;
    RelocateBranch(cc, p, after, tt, after, [], d);
    RelocateNoJumps([], d);
  }

  lemma {:induction false} RelocateIfElse(s: Stmt, at: int, p: int, env: Env, inProc: bool, d: int)
    requires s.IfElse?
    ensures Relocate(CompileStmt(s, at, p, env, inProc), d) == CompileStmt(s, at + d, p, env, inProc)
    decreases s, 0
  {
    hide Relocate, CompileCond, Branch;
    CondNoJumps(s.cond, p, env);
    var cc := CompileCond(s.cond, p, env);
    var tt := CompileStmt(s.thn, at + |cc| + 1, p + 1, env, inProc);
    RelocateStmt(s.thn, at + |cc| + 1, p + 1, env, inProc, d);
    var otherwise := at + |cc| + |tt| + 2;
    var ee := CompileStmt(s.els, otherwise, p + 1, env, inProc);
    RelocateStmt(s.els, otherwise, p + 1, env, inProc, d);
    RelocateBranch(cc, p, otherwise, tt, otherwise + |ee|, ee, d);
  }

  lemma {:induction false} RelocateWhile(s: Stmt, at: int, p: int, env: Env, inProc: bool, d: int)
    requires s.While?
    ensures Relocate(CompileStmt(s, at, p, env, inProc), d) == CompileStmt(s, at + d, p, env, inProc)
    decreases s, 0
  {
    hide Relocate, CompileCond, Branch;
    CondNoJumps(s.cond, p, env);
    var cc := CompileCond(s.cond, p, env);
    var bb := CompileStmt(s.body, at + |cc| + 1, p + 1, env, inProc);
    RelocateStmt(s.body, at + |cc| + 1, p + 1, env, inProc, d);
    RelocateBranch(cc, p, at + |cc| + |bb| + 2, bb, at, [], d);
    RelocateNoJumps([], d);
  }

  lemma RelocateSimple(s: Stmt, at: int, p: int, env: Env, inProc: bool, d: int)
    requires s.Empty? || s.Assign? || s.Call? || s.Read? || s.Write?
    ensures Relocate(CompileStmt(s, at, p, env, inProc), d) == CompileStmt(s, at + d, p, env, inProc)
  {
    if s.Assign? {
      ExprNoJumps(s.expr, p, env);
    }
    assert NoJumps(CompileStmt(s, at, p, env, inProc));
    RelocateNoJumps(CompileStmt(s, at, p, env, inProc), d);
  }

  lemma RelocateBegin(a: seq<Instruction>, b: seq<Instruction>, inProc: bool, d: int)
    ensures var rtn := if inProc then [Instruction(RTN, 0, 0, 0)] else [];
            Relocate(a + b + rtn, d) == Relocate(a, d) + Relocate(b, d) + rtn
  {
  }

  lemma {:induction false} RelocateStmts(ss: Stmts, at: int, p: int, env: Env, inProc: bool, d: int)
    ensures Relocate(CompileStmts(ss, at, p, env, inProc), d) == CompileStmts(ss, at + d, p, env, inProc)
    decreases ss
  {
    hide CompileStmt, Relocate;
    match ss
    case NoStmts =>
    case MoreStmts(s, next) =>
      var a := CompileStmt(s, at, p, env, inProc);
      RelocateStmt(s, at, p, env, inProc, d);
      RelocateStmts(next, at + |a|, p, env, inProc, d);
      RelocateConcat(a, CompileStmts(next, at + |a|, p, env, inProc), d);
  }
}
