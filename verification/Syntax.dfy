/** Tokens, the syntax tree the parser builds, and the tree's concrete syntax as tokens. */
module Syntax {
  import opened Common

  /** Token kinds, in the order of their numbers (nulsym is 1, commentsym is 34). */
  datatype Kind =
    | nulsym | identsym | numbersym | plussym | minussym | multsym | slashsym | oddsym
    | eqlsym | neqsym | lessym | leqsym | gtrsym | geqsym | lparentsym | rparentsym
    | commasym | semicolonsym | periodsym | becomessym | beginsym | endsym | ifsym | thensym
    | whilesym | dosym | callsym | constsym | varsym | procsym | writesym | readsym
    | elsesym | commentsym

  /** A token; `name` matters for identifiers only and `value` for numbers only. */
  datatype Token = Token(kind: Kind, name: string, value: int)

  function Sym(kind: Kind): Token {
    Token(kind, "", 0)
  }

  function Id(name: string): Token {
    Token(identsym, name, 0)
  }

  function Num(value: int): Token {
    Token(numbersym, "", value)
  }

  const MAX_NUMBER := 90000

  // ---------- trees ----------

  datatype Sign = NoSign | PlusSign | MinusSign
  datatype AddOp = Plus | Minus
  datatype MulOp = Times | Divide
  datatype RelOp = Equal | NotEqual | Less | AtMost | Greater | AtLeast

  datatype Factor = Ident(name: string) | Number(value: int) | Paren(expr: Expr)
  datatype Factors = NoFactors | MoreFactors(op: MulOp, factor: Factor, next: Factors)
  datatype Term = Term(factor: Factor, factors: Factors)
  datatype Terms = NoTerms | MoreTerms(op: AddOp, term: Term, next: Terms)
  datatype Expr = Expr(sign: Sign, term: Term, terms: Terms)

  datatype Cond = Odd(expr: Expr) | Compare(op: RelOp, left: Expr, right: Expr)

  datatype Stmt =
    | Empty
    | Assign(name: string, expr: Expr)
    | Call(name: string)
    | Begin(first: Stmt, rest: Stmts)
    | If(cond: Cond, thn: Stmt)
    | IfElse(cond: Cond, thn: Stmt, els: Stmt)
    | While(cond: Cond, body: Stmt)
    | Read(name: string)
    | Write(name: string)
  datatype Stmts = NoStmts | MoreStmts(stmt: Stmt, next: Stmts)

  /** Declarations of a block in the order the parser met them. */
  datatype Decls =
    | NoDecls
    | ConstDecl(name: string, value: int, next: Decls)
    | VarDecl(name: string, next: Decls)
    | ProcDecl(name: string, block: Block, next: Decls)
  datatype Block = Block(decls: Decls, body: Stmt)

  function VarCount(d: Decls): nat {
    match d
    case NoDecls => 0
    case ConstDecl(_, _, next) => VarCount(next)
    case VarDecl(_, next) => 1 + VarCount(next)
    case ProcDecl(_, _, next) => VarCount(next)
  }

  // ---------- concrete syntax ----------

  function AddKind(op: AddOp): Kind {
    match op case Plus => plussym case Minus => minussym
  }

  function MulKind(op: MulOp): Kind {
    match op case Times => multsym case Divide => slashsym
  }

  function RelKind(op: RelOp): Kind {
    match op
    case Equal => eqlsym
    case NotEqual => neqsym
    case Less => lessym
    case AtMost => leqsym
    case Greater => gtrsym
    case AtLeast => geqsym
  }

  function RenderSign(s: Sign): seq<Token> {
    match s
    case NoSign => []
    case PlusSign => [Sym(plussym)]
    case MinusSign => [Sym(minussym)]
  }

  function RenderFactor(f: Factor): (r: seq<Token>)
    ensures |r| > 0
  {
    match f
    case Ident(x) => [Id(x)]
    case Number(v) => [Num(v)]
    case Paren(e) => [Sym(lparentsym)] + RenderExpr(e) + [Sym(rparentsym)]
  }

  function RenderFactors(fs: Factors): seq<Token> {
    match fs
    case NoFactors => []
    case MoreFactors(op, f, next) => [Sym(MulKind(op))] + RenderFactor(f) + RenderFactors(next)
  }

  function RenderTerm(t: Term): (r: seq<Token>)
    ensures |r| > 0
  {
    RenderFactor(t.factor) + RenderFactors(t.factors)
  }

  function RenderTerms(ts: Terms): seq<Token> {
    match ts
    case NoTerms => []
    case MoreTerms(op, t, next) => [Sym(AddKind(op))] + RenderTerm(t) + RenderTerms(next)
  }

  function RenderExpr(e: Expr): (r: seq<Token>)
    ensures |r| > 0
  {
    RenderSign(e.sign) + RenderTerm(e.term) + RenderTerms(e.terms)
  }

  function RenderCond(c: Cond): (r: seq<Token>)
    ensures |r| > 0
  {
    match c
    case Odd(e) => [Sym(oddsym)] + RenderExpr(e)
    case Compare(op, l, r) => RenderExpr(l) + [Sym(RelKind(op))] + RenderExpr(r)
  }

  function RenderStmt(s: Stmt): seq<Token> {
    match s
    case Empty => []
    case Assign(x, e) => [Id(x), Sym(becomessym)] + RenderExpr(e)
    case Call(x) => [Sym(callsym), Id(x)]
    case Begin(first, rest) => [Sym(beginsym)] + RenderStmt(first) + RenderStmts(rest) + [Sym(endsym)]
    case If(c, t) => [Sym(ifsym)] + RenderCond(c) + [Sym(thensym)] + RenderStmt(t)
    case IfElse(c, t, e) =>
      [Sym(ifsym)] + RenderCond(c) + [Sym(thensym)] + RenderStmt(t) + [Sym(elsesym)] + RenderStmt(e)
    case While(c, b) => [Sym(whilesym)] + RenderCond(c) + [Sym(dosym)] + RenderStmt(b)
    case Read(x) => [Sym(readsym), Id(x)]
    case Write(x) => [Sym(writesym), Id(x)]
  }

  function RenderStmts(ss: Stmts): seq<Token> {
    match ss
    case NoStmts => []
    case MoreStmts(s, next) => [Sym(semicolonsym)] + RenderStmt(s) + RenderStmts(next)
  }

  /** The constants of `d` as one section; `first` until one has been written. */
  function RenderConsts(d: Decls, first: bool): seq<Token> {
    match d
    case NoDecls => if first then [] else [Sym(semicolonsym)]
    case ConstDecl(x, v, next) =>
      [Sym(if first then constsym else commasym), Id(x), Sym(eqlsym), Num(v)] + RenderConsts(next, false)
    case VarDecl(_, next) => RenderConsts(next, first)
    case ProcDecl(_, _, next) => RenderConsts(next, first)
  }

  function RenderVars(d: Decls, first: bool): seq<Token> {
    match d
    case NoDecls => if first then [] else [Sym(semicolonsym)]
    case ConstDecl(_, _, next) => RenderVars(next, first)
    case VarDecl(x, next) => [Sym(if first then varsym else commasym), Id(x)] + RenderVars(next, false)
    case ProcDecl(_, _, next) => RenderVars(next, first)
  }

  function RenderProcs(d: Decls): seq<Token> {
    match d
    case NoDecls => []
    case ConstDecl(_, _, next) => RenderProcs(next)
    case VarDecl(_, next) => RenderProcs(next)
    case ProcDecl(x, blk, next) =>
      [Sym(procsym), Id(x), Sym(semicolonsym)] + RenderBlock(blk) + [Sym(semicolonsym)] + RenderProcs(next)
  }

  function RenderBlock(b: Block): seq<Token> {
    RenderConsts(b.decls, true) + RenderVars(b.decls, true) + RenderProcs(b.decls) + RenderStmt(b.body)
  }

  function RenderProgram(b: Block): seq<Token> {
    RenderBlock(b) + [Sym(periodsym)]
  }
}
