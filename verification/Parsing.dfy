/**
  The recursive-descent parser as functions of its whole state: tokens left, code sets, first
  free register, and the tables its declarations fill. Code is emitted while the tree is built.
 */
module Parsing {
  import opened Common
  import opened Machine
  import opened Syntax
  import opened Symbols
  import opened Compile
  import opened CodeSets

  /** `rest` starts with the current token; past the last token the current one is nulsym. */
  datatype PState = PState(
    rest: seq<Token>,
    code: Code, reg: int, cur: int,
    level: int, offsets: seq<int>,
    procCount: nat, inUse: seq<bool>,
    table: Table)
  {
    function Kind(): Kind {
      if rest == [] then nulsym else rest[0].kind
    }

    function Name(): string {
      if rest == [] then "" else rest[0].name
    }

    function Value(): int {
      if rest == [] then 0 else rest[0].value
    }

    function Next(): PState {
      this.(rest := NextToken(rest))
    }

    function Emit(op: Opcode, r: int, l: int, m: int): PState {
      this.(code := AppendAll(code, cur, [Instruction(op, r, l, m)]))
    }

    function Length(): int {
      |Get(code, cur)|
    }

    function Patch(index: int, m: int): PState {
      this.(code := ChangeM(code, cur, index, m))
    }

    /** Meaning of names at the current place. */
    function Env(): Env {
      FromTable(table, level)
    }

    function Lookup(x: string): Option<Symbol> {
      GetSymbol(table, x, level)
    }
  }

  /** Err is a reported error, by its number; Crash is a step the source leaves undefined. */
  datatype Result<+T> = Ok(value: T, st: PState) | Err(error: int) | Crash {
    predicate IsFailure() {
      !Ok?
    }

    function PropagateFailure<U>(): Result<U>
      requires IsFailure()
    {
      if Err? then Err(error) else Crash
    }

    function Extract(): (T, PState)
      requires Ok?
    {
      (value, st)
    }
  }

  /** Which kinds of declaration a block has had so far. */
  datatype Sections = Sections(consts: bool, vars: bool, procs: bool)

  // ---------- tokens ----------

  function SkipComments(toks: seq<Token>): (r: seq<Token>)
    ensures |r| <= |toks|
  {
    if toks != [] && toks[0].kind == commentsym then SkipComments(toks[1..]) else toks
  }

  function NextToken(rest: seq<Token>): (r: seq<Token>)
    ensures |r| <= |rest|
    ensures rest != [] ==> |r| < |rest|
  {
    if rest == [] then [] else SkipComments(rest[1..])
  }

  const DECLBEGSYS: set<Kind> := {constsym, varsym, procsym}
  const STATBEGSYS: set<Kind> := {identsym, callsym, beginsym, ifsym, whilesym, readsym, writesym}
  const FACBEGSYS: set<Kind> := {identsym, numbersym, lparentsym}
  const RELSET: set<Kind> := {eqlsym, neqsym, lessym, leqsym, gtrsym, geqsym}

  /** Skips to a token of `s` or the end. */
  function SkipTo(rest: seq<Token>, s: set<Kind>): (r: seq<Token>)
    ensures |r| <= |rest|
    ensures rest != [] && rest[0].kind !in s && rest[0].kind != nulsym ==> |r| < |rest|
    ensures r == [] || r[0].kind in s || r[0].kind == nulsym
    decreases |rest|
  {
    if rest == [] || rest[0].kind in s || rest[0].kind == nulsym then rest else SkipTo(NextToken(rest), s)
  }

  /** Recovery: unless the current token is in `s1`, skips to one of `s1` or `s2`. */
  function Test(st: PState, s1: set<Kind>, s2: set<Kind>): (r: PState)
    ensures r == st.(rest := r.rest) && |r.rest| <= |st.rest|
    ensures st.Kind() in s1 ==> r == st
    ensures st.Kind() !in s1 + s2 && st.Kind() != nulsym ==> |r.rest| < |st.rest|
    ensures r.Kind() in s1 + s2 || r.Kind() == nulsym
  {
    if st.Kind() in s1 then st else st.(rest := SkipTo(st.rest, s1 + s2))
  }

  // ---------- expressions ----------

  function ParseFactor(st0: PState, fsys: set<Kind>): (r: Result<Factor>)
    ensures r.Ok? ==> |r.st.rest| < |st0.rest|
    decreases |st0.rest|, 0
  {
    var st := Test(st0, FACBEGSYS, fsys);
    match st.Kind()
    case identsym => (
      match st.Lookup(st.Name())
      case None => Err(11)
      case Some(s) =>
        match s.kind
        case VAR => Ok(Ident(st.Name()), st.Emit(LOD, st.reg, st.level - s.level, s.addr).(reg := st.reg + 1).Next())
        case CONST => Ok(Ident(st.Name()), st.Emit(LIT, st.reg, 0, s.val).(reg := st.reg + 1).Next())
        case PROC => Err(21))
    case numbersym =>
      if st.Value() > MAX_NUMBER then Err(25)
      else Ok(Number(st.Value()), st.Emit(LIT, st.reg, 0, st.Value()).(reg := st.reg + 1).Next())
    case lparentsym =>
      var (e, st1) :- ParseExpr(st.Next(), {rparentsym} + fsys);
      Ok(Paren(e), if st1.Kind() == rparentsym then st1.Next() else Test(st1, fsys, {lparentsym}))
    case _ => Err(23)
  }

  function ParseFactors(st: PState, fsys: set<Kind>): (r: Result<Factors>)
    ensures r.Ok? ==> |r.st.rest| <= |st.rest|
    decreases |st.rest|, 1
  {
    if st.Kind() == multsym || st.Kind() == slashsym then
      var op := if st.Kind() == multsym then Times else Divide;
      var (f, st1) :- ParseFactor(st.Next(), fsys);
      var st2 := st1.Emit(MulOpcode(op), st1.reg - 2, st1.reg - 2, st1.reg - 1).(reg := st1.reg - 1);
      var (fs, st3) :- ParseFactors(st2, fsys);
      Ok(MoreFactors(op, f, fs), st3)
    else Ok(NoFactors, st)
  }

  function ParseTerm(st: PState, sign: Sign, fsys: set<Kind>): (r: Result<Term>)
    ensures r.Ok? ==> |r.st.rest| < |st.rest|
    decreases |st.rest|, 2
  {
    var follow := fsys + {multsym, slashsym};
    var (f, st1) :- ParseFactor(st, follow);
    var st2 := if sign == MinusSign then st1.Emit(NEG, st1.reg - 1, st1.reg - 1, 0) else st1;
    var (fs, st3) :- ParseFactors(st2, follow);
    Ok(Term(f, fs), st3)
  }

  function ParseTerms(st: PState, fsys: set<Kind>): (r: Result<Terms>)
    ensures r.Ok? ==> |r.st.rest| <= |st.rest|
    decreases |st.rest|, 3
  {
    if st.Kind() == plussym || st.Kind() == minussym then
      var op := if st.Kind() == plussym then Plus else Minus;
      var (t, st1) :- ParseTerm(st.Next(), NoSign, fsys);
      var st2 := st1.Emit(AddOpcode(op), st1.reg - 2, st1.reg - 2, st1.reg - 1).(reg := st1.reg - 1);
      var (ts, st3) :- ParseTerms(st2, fsys);
      Ok(MoreTerms(op, t, ts), st3)
    else Ok(NoTerms, st)
  }

  function ParseExpr(st: PState, fsys: set<Kind>): (r: Result<Expr>)
    ensures r.Ok? ==> |r.st.rest| < |st.rest|
    decreases |st.rest|, 4
  {
    var follow := fsys + {multsym, slashsym};
    var sign := if st.Kind() == plussym then PlusSign else if st.Kind() == minussym then MinusSign else NoSign;
    var (t, st1) :- ParseTerm(if sign == NoSign then st else st.Next(), sign, follow);
    var (ts, st2) :- ParseTerms(st1, follow);
    Ok(Expr(sign, t, ts), st2)
  }

  function RelOf(k: Kind): Option<RelOp> {
    match k
    case eqlsym => Some(Equal)
    case neqsym => Some(NotEqual)
    case lessym => Some(Less)
    case leqsym => Some(AtMost)
    case gtrsym => Some(Greater)
    case geqsym => Some(AtLeast)
    case _ => None
  }

  function ParseCond(st: PState, fsys: set<Kind>): (r: Result<Cond>)
    ensures r.Ok? ==> |r.st.rest| < |st.rest|
  {
    if st.Kind() == oddsym then
      var (e, st1) :- ParseExpr(st.Next(), fsys);
      Ok(Odd(e), st1.Emit(ODD, st1.reg - 1, st1.reg - 1, 0))
    else
      var (l, st1) :- ParseExpr(st, RELSET + fsys);
      match RelOf(st1.Kind())
      case None => Err(20)
      case Some(op) =>
        var (e, st2) :- ParseExpr(st1.Next(), fsys);
        Ok(Compare(op, l, e),
           st2.Emit(RelOpcode(op), st2.reg - 2, st2.reg - 2, st2.reg - 1).(reg := st2.reg - 1))
  }

  // ---------- statements ----------

  function ParseAssign(st: PState, fsys: set<Kind>): (r: Result<Stmt>)
    requires st.Kind() == identsym
    ensures r.Ok? ==> |r.st.rest| < |st.rest|
  {
    var x := st.Name();
    var st1 := st.Next();
    if st1.Kind() != becomessym && st1.Kind() != eqlsym then Err(30)
    else
      var (e, st2) :- ParseExpr(st1.Next(), fsys);
      match st.Lookup(x)
      case None => Crash
      case Some(s) =>
        Ok(Assign(x, e), st2.Emit(STO, st2.reg - 1, st2.level - s.level, s.addr).(reg := st2.reg - 1))
  }

  function ParseCall(st: PState): (r: Result<Stmt>)
    requires st.Kind() == callsym
    ensures r.Ok? ==> |r.st.rest| < |st.rest|
  {
    var st1 := st.Next();
    if st1.Kind() != identsym then Err(14)
    else
      match st.Lookup(st1.Name())
      case None => Err(11)
      case Some(s) =>
        if s.kind != PROC then Err(15)
        else Ok(Call(st1.Name()), st1.Emit(CAL, 0, st.level - s.level, s.addr).Next())
  }

  function ParseRead(st: PState): (r: Result<Stmt>)
    requires st.Kind() == readsym
    ensures r.Ok? ==> |r.st.rest| < |st.rest|
  {
    var st1 := st.Next();
    if st1.Kind() != identsym then Err(27)
    else
      match st.Lookup(st1.Name())
      case None => Err(11)
      case Some(s) =>
        if s.kind != VAR then Err(27)
        else
          Ok(Read(st1.Name()),
             st1.Emit(SIO, st.reg, 0, 2).Emit(STO, st.reg, st.level - s.level, s.addr).Next())
  }

  function ParseWrite(st: PState): (r: Result<Stmt>)
    requires st.Kind() == writesym
    ensures r.Ok? ==> |r.st.rest| < |st.rest|
  {
    var st1 := st.Next();
    if st1.Kind() != identsym then Err(28)
    else
      match st.Lookup(st1.Name())
      case None => Err(11)
      case Some(s) =>
        if s.kind == PROC then Err(27)
        else
          var st2 :=
            if s.kind == VAR then st1.Emit(LOD, st.reg, st.level - s.level, s.addr)
            else st1.Emit(LOD, st.reg, 0, s.val);
          Ok(Write(st1.Name()), st2.Emit(SIO, st.reg, 0, 1).Next())
  }

  /** The two jumps are emitted with target 0 and patched once their targets are known. */
  function ParseIf(st: PState, fsys: set<Kind>): (r: Result<Stmt>)
    requires st.Kind() == ifsym
    ensures r.Ok? ==> |r.st.rest| < |st.rest|
    decreases |st.rest|, 5
  {
    var (c, st1) :- ParseCond(st.Next(), {thensym, dosym} + fsys);
    if st1.Kind() != thensym then Err(16)
    else
      var j1 := st1.Length();
      var (t, st2) :- ParseStmt(st1.Next().Emit(JPC, st1.reg - 1, 0, 0), fsys);
      var j2 := st2.Length();
      var st3 := st2.Emit(JMP, 0, 0, 0);
      var st4 := st3.Patch(j1, st3.Length());
      ParseElse(c, t, st4, j2, fsys)
  }

  /** An optional `else` part; either way the jump at `j2` now goes to the end of it all. */
  function ParseElse(c: Cond, t: Stmt, st: PState, j2: int, fsys: set<Kind>): (r: Result<Stmt>)
    ensures r.Ok? ==> |r.st.rest| <= |st.rest|
    decreases |st.rest|, 5
  {
    if st.Kind() == elsesym then
      var (e, st1) :- ParseStmt(st.Next(), fsys);
      Ok(IfElse(c, t, e), st1.(reg := st1.reg - 1).Patch(j2, st1.Length()))
    else Ok(If(c, t), st.(reg := st.reg - 1).Patch(j2, st.Length()))
  }

  function ParseWhile(st: PState, fsys: set<Kind>): (r: Result<Stmt>)
    requires st.Kind() == whilesym
    ensures r.Ok? ==> |r.st.rest| < |st.rest|
    decreases |st.rest|, 5
  {
    var start := st.Length();
    var (c, st1) :- ParseCond(st.Next(), {dosym} + fsys);
    if st1.Kind() != dosym then Err(18)
    else
      var j1 := st1.Length();
      var (b, st2) :- ParseStmt(st1.Next().Emit(JPC, st1.reg - 1, 0, 0), fsys);
      var j2 := st2.Length();
      var st3 := st2.Emit(JMP, 0, 0, 0);
      Ok(While(c, b), st3.Patch(j1, st3.Length()).Patch(j2, start).(reg := st3.reg - 1))
  }

  function ParseBegin(st: PState, fsys: set<Kind>): (r: Result<Stmt>)
    requires st.Kind() == beginsym
    ensures r.Ok? ==> |r.st.rest| < |st.rest|
    decreases |st.rest|, 5
  {
    var follow := {semicolonsym, endsym} + fsys;
    var (first, st1) :- ParseStmt(st.Next(), follow);
    var (rest, st2) :- ParseStmts(st1, follow);
    if st2.Kind() != endsym then Err(26)
    else
      var st3 := st2.Next();
      Ok(Begin(first, rest), if st3.cur > 0 then st3.Emit(RTN, 0, 0, 0) else st3)
  }

  /** A missing semicolon between statements is reported and otherwise ignored. */
  function ParseStmts(st: PState, follow: set<Kind>): (r: Result<Stmts>)
    ensures r.Ok? ==> |r.st.rest| <= |st.rest|
    decreases |st.rest|, 7
  {
    if st.Kind() == semicolonsym || st.Kind() in STATBEGSYS then
      var (s, st1) :- ParseStmt(if st.Kind() == semicolonsym then st.Next() else st, follow);
      var (ss, st2) :- ParseStmts(st1, follow);
      Ok(MoreStmts(s, ss), st2)
    else Ok(NoStmts, st)
  }

  function ParseStmt(st: PState, fsys: set<Kind>): (r: Result<Stmt>)
    ensures r.Ok? ==> |r.st.rest| <= |st.rest|
    ensures r.Ok? && st.Kind() in STATBEGSYS ==> |r.st.rest| < |st.rest|
    decreases |st.rest|, 6
  {
    match st.Kind()
    case identsym => ParseAssign(st, fsys)
    case callsym => ParseCall(st)
    case beginsym => ParseBegin(st, fsys)
    case ifsym => ParseIf(st, fsys)
    case whilesym => ParseWhile(st, fsys)
    case readsym => ParseRead(st)
    case writesym => ParseWrite(st)
    case _ => Ok(Empty, Test(st, fsys, {}))
  }

  // ---------- declarations ----------

  /** Number of the first code set not in use; -1 when all are. */
  function FreeSet(inUse: seq<bool>, i: nat := 0): int
    decreases |inUse| - i
  {
    if i >= |inUse| then -1 else if !inUse[i] then i else FreeSet(inUse, i + 1)
  }

  /** The answer is a free set with none free before it, or -1 and none is free. */
  lemma {:induction false} FreeSetExact(inUse: seq<bool>, i: nat, r: int)
    requires i <= |inUse|
    ensures FreeSet(inUse, i) == r <==>
      if i <= r < |inUse| then !inUse[r] && forall k :: i <= k < r ==> inUse[k]
      else r == -1 && forall k :: i <= k < |inUse| ==> inUse[k]
    decreases |inUse| - i
  {
    if i < |inUse| && inUse[i] {
      FreeSetExact(inUse, i + 1, r);
    }
  }

  function TakeSet(st: PState): PState {
    var i := FreeSet(st.inUse);
    st.(cur := i, inUse := if 0 <= i < |st.inUse| then st.inUse[i := true] else st.inUse)
  }

  function MakeConst(st: PState, x: string, v: int): PState {
    st.(table := PutSymbol(st.table, Symbol(x, CONST, v, st.level, 0)))
  }

  function MakeVar(st: PState, x: string): PState
    requires 0 <= st.level < |st.offsets|
  {
    var addr := st.offsets[st.level];
    st.(table := PutSymbol(st.table, Symbol(x, VAR, 0, st.level, addr)),
        offsets := st.offsets[st.level := addr + 1])
  }

  function MakeProc(st: PState, x: string): PState {
    var st1 := TakeSet(st.(procCount := st.procCount + 1));
    st1.(table := PutSymbol(st1.table, Symbol(x, PROC, 0, st1.level, st1.procCount)))
  }

  /** A constant's name and value, behind `const` or a comma. */
  function ParseConst(st: PState): (r: Result<(string, int)>)
    requires st.rest != []
    ensures r.Ok? ==> |r.st.rest| < |st.rest|
  {
    var st1 := st.Next();
    if st1.Kind() != identsym then Err(4)
    else
      var st2 := st1.Next();
      if st2.Kind() != eqlsym then Err(if st2.Kind() == becomessym then 1 else 3)
      else
        var st3 := st2.Next();
        if st3.Kind() != numbersym then Err(2)
        else if st3.Value() > MAX_NUMBER then Err(25)
        else if !(0 <= st3.level < |st3.offsets|) then Crash
        else Ok((st1.Name(), st3.Value()), MakeConst(st3, st1.Name(), st3.Value()).Next())
  }

  /** From `const`, or a comma, to the semicolon that ends the section. */
  function ParseConsts(st: PState): (r: Result<Decls>)
    requires st.rest != []
    ensures r.Ok? ==> |r.st.rest| < |st.rest| && r.value != NoDecls
    decreases |st.rest|
  {
    var (c, st1) :- ParseConst(st);
    if st1.Kind() == commasym then
      var (d, st2) :- ParseConsts(st1);
      Ok(ConstDecl(c.0, c.1, d), st2)
    else if st1.Kind() != semicolonsym then Err(5)
    else Ok(ConstDecl(c.0, c.1, NoDecls), st1.Next())
  }

  function ParseVars(st: PState): (r: Result<Decls>)
    requires st.rest != []
    ensures r.Ok? ==> |r.st.rest| < |st.rest| && r.value != NoDecls
    decreases |st.rest|
  {
    var st1 := st.Next();
    if st1.Kind() != identsym then Err(4)
    else if !(0 <= st1.level < |st1.offsets|) then Crash
    else
      var x := st1.Name();
      var st2 := MakeVar(st1, x).Next();
      if st2.Kind() == commasym then
        var (d, st3) :- ParseVars(st2);
        Ok(VarDecl(x, d), st3)
      else if st2.Kind() != semicolonsym then Err(5)
      else Ok(VarDecl(x, NoDecls), st2.Next())
  }

  function AppendDecls(a: Decls, b: Decls): Decls {
    match a
    case NoDecls => b
    case ConstDecl(x, v, next) => ConstDecl(x, v, AppendDecls(next, b))
    case VarDecl(x, next) => VarDecl(x, AppendDecls(next, b))
    case ProcDecl(x, blk, next) => ProcDecl(x, blk, AppendDecls(next, b))
  }

  /** The semicolon behind a procedure's block; then INC goes in front of the procedure's code. */
  function EndProc(st: PState, x: string, blk: Block, fsys: set<Kind>): (r: Result<(string, Block)>)
    ensures r.Ok? ==> |r.st.rest| < |st.rest|
  {
    if st.Kind() != semicolonsym then Err(6)
    else
      var st1 := Test(st.Next(), STATBEGSYS + {identsym, procsym}, fsys);
      Ok((x, blk), st1.(code := Prepend(st1.code, st1.cur, Instruction(INC, 0, 0, VarCount(blk.decls) + 4))))
  }

  /** One procedure definition, with the semicolon behind it. */
  function ParseProc(st: PState, fsys: set<Kind>): (r: Result<(string, Block)>)
    requires st.Kind() == procsym
    ensures r.Ok? ==> |r.st.rest| < |st.rest|
    decreases |st.rest|, 7
  {
    var st1 := st.Next();
    if st1.Kind() != identsym then Err(4)
    else
      var x := st1.Name();
      var st2 := MakeProc(st1, x).Next();
      if st2.Kind() != semicolonsym then Err(6)
      else
        var (blk, st3) :- ParseBlock(st2.Next().(level := st2.level + 1), {semicolonsym} + fsys);
        EndProc(st3.(level := st3.level - 1), x, blk, fsys)
  }

  function ParseProcs(st: PState, fsys: set<Kind>): (r: Result<Decls>)
    ensures r.Ok? ==> |r.st.rest| <= |st.rest|
    ensures r.Ok? && st.Kind() == procsym ==> |r.st.rest| < |st.rest| && r.value != NoDecls
    decreases |st.rest|, 8
  {
    if st.Kind() != procsym then Ok(NoDecls, st)
    else
      var (p, st1) :- ParseProc(st, fsys);
      var (d, st2) :- ParseProcs(st1, fsys);
      Ok(ProcDecl(p.0, p.1, d), st2)
  }

  /** A second section of a kind appends to a list whose tail pointer the source has just reset to NULL. */
  function ConstSection(st: PState, had: bool): (r: Result<Decls>)
    ensures r.Ok? && st.Kind() == constsym ==> |r.st.rest| < |st.rest|
    ensures st.Kind() != constsym ==> r == Ok(NoDecls, st)
  {
    if st.Kind() != constsym then Ok(NoDecls, st) else if had then Crash else ParseConsts(st)
  }

  function VarSection(st: PState, had: bool): (r: Result<Decls>)
    ensures r.Ok? && st.Kind() == varsym ==> |r.st.rest| < |st.rest|
    ensures st.Kind() != varsym ==> r == Ok(NoDecls, st)
  {
    if st.Kind() != varsym then Ok(NoDecls, st) else if had then Crash else ParseVars(st)
  }

  /** One section each of constants, variables and procedures, all optional. */
  function ParseSections(st: PState, fsys: set<Kind>, had: Sections): (r: Result<(Decls, Sections)>)
    ensures r.Ok? ==> |r.st.rest| <= |st.rest|
    ensures r.Ok? && st.Kind() in DECLBEGSYS ==> |r.st.rest| < |st.rest|
    ensures st.Kind() !in DECLBEGSYS ==> r == Ok((NoDecls, had), st)
    decreases |st.rest|, 9
  {
    var (d1, st1) :- ConstSection(st, had.consts);
    var (d2, st2) :- VarSection(st1, had.vars);
    var (d3, st3) :- if st2.Kind() == procsym && had.procs then Crash else ParseProcs(st2, fsys);
    Ok((AppendDecls(d1, AppendDecls(d2, d3)),
        Sections(had.consts || d1 != NoDecls, had.vars || d2 != NoDecls, had.procs || d3 != NoDecls)),
       st3)
  }

  function ParseDecls(st: PState, fsys: set<Kind>, had: Sections): (r: Result<Decls>)
    ensures r.Ok? ==> |r.st.rest| <= |st.rest|
    decreases |st.rest|, 10
  {
    var (d, st1) :- ParseSections(st, fsys, had);
    var st2 := Test(st1.(cur := st.cur), STATBEGSYS + {identsym}, DECLBEGSYS);
    if st2.Kind() in DECLBEGSYS then
      var (ds, st3) :- ParseDecls(st2, fsys, d.1);
      Ok(AppendDecls(d.0, ds), st3)
    else Ok(d.0, st2)
  }

  function ParseBlock(st: PState, fsys: set<Kind>): (r: Result<Block>)
    ensures r.Ok? ==> |r.st.rest| <= |st.rest|
    decreases |st.rest|, 11
  {
    var (d, st1) :- ParseDecls(st, fsys, Sections(false, false, false));
    var (s, st2) :- ParseStmt(st1, {semicolonsym, endsym} + fsys);
    Ok(Block(d, s), Test(st2, fsys, {}))
  }

  /** The state before the first declaration: code set 0 taken, every level's offset at 4. */
  function InitParse(toks: seq<Token>): PState {
    TakeSet(PState(
      SkipComments(toks), map[], 0, 0, 0,
      seq(MAX_LEXI_LEVELS, _ => 4), 0, seq(MAX_CODE_SETS, _ => false), map[]))
  }

  const PROGSYS: set<Kind> := {periodsym} + DECLBEGSYS + STATBEGSYS

  function ParseProgram(toks: seq<Token>): Result<Block> {
    var (b, st) :- ParseBlock(InitParse(toks), PROGSYS);
    if st.Kind() != periodsym && st.Kind() != nulsym then Err(9)
    else
      var st1 := st.(code := Prepend(st.code, st.cur, Instruction(INC, 0, 0, VarCount(b.decls) + 4)));
      Ok(b, st1.Emit(SIO, 0, 0, 3))
  }
}
