/** Statements parsed, and their code emitted and patched, over the parser's state. */
module StmtParser {
  import opened Common
  import opened Machine
  import opened Syntax
  import opened Symbols
  import opened CodeSets
  import opened CodeStore
  import opened Parsing
  import opened ParserState
  import opened ExprParser

  function AppendStmts(a: Stmts, b: Stmts): Stmts {
    match a
    case NoStmts => b
    case MoreStmts(s, next) => MoreStmts(s, AppendStmts(next, b))
  }

  lemma {:induction false} AppendStmtsTwice(a: Stmts, b: Stmts, c: Stmts)
    ensures AppendStmts(AppendStmts(a, b), c) == AppendStmts(a, AppendStmts(b, c))
    decreases a
  {
    if a.MoreStmts? {
      AppendStmtsTwice(a.next, b, c);
    }
  }

  lemma {:induction false} AppendStmtsNone(a: Stmts)
    ensures AppendStmts(a, NoStmts) == a
    decreases a
  {
    if a.MoreStmts? {
      AppendStmtsNone(a.next);
    }
  }

  lemma AppendStmtsOne(s: Stmt, b: Stmts)
    ensures AppendStmts(MoreStmts(s, NoStmts), b) == MoreStmts(s, b)
  {
  }

  function AfterStmts(a: Stmts, r: Result<Stmts>): Result<Stmts> {
    if r.Ok? then Ok(AppendStmts(a, r.value), r.st) else r
  }

  /** One more statement parsed: the loop goes on where the recursion would. */
  lemma StmtsLoop(acc: Stmts, st: PState, follow: set<Kind>)
    requires st.Kind() == semicolonsym || st.Kind() in STATBEGSYS
    requires ParseStmt(if st.Kind() == semicolonsym then st.Next() else st, follow).Ok?
    ensures var r := ParseStmt(if st.Kind() == semicolonsym then st.Next() else st, follow);
            AfterStmts(acc, ParseStmts(st, follow))
            == AfterStmts(AppendStmts(acc, MoreStmts(r.value, NoStmts)), ParseStmts(r.st, follow))
  {
    hide ParseStmt, AppendStmts;
    var r := ParseStmt(if st.Kind() == semicolonsym then st.Next() else st, follow);
    var more := ParseStmts(r.st, follow);
    if more.Ok? {
      AppendStmtsTwice(acc, MoreStmts(r.value, NoStmts), more.value);
      AppendStmtsOne(r.value, more.value);
    }
  }

  // ---------- the methods ----------

  method AssignParse(p: Parser, fsys: set<Kind>) returns (r: Parsed<Stmt>)
    requires p.Valid() && p.View().Kind() == identsym
    modifies p.Repr
    ensures p.Valid() && Agrees(r, ParseAssign(old(p.View()), fsys), p.View())
  {
    hide p.Valid, p.View, NextToken, ParseExpr, AppendAll, GetSymbol;
    var x := p.Name();
    var sym := p.Lookup(x);
    p.GetToken();
    if p.Kind() != becomessym && p.Kind() != eqlsym {
      return Failed(30);
    }
    p.GetToken();
    var e := ExpressionParse(p, fsys);
    match e {
      case Failed(n) => return Failed(n);
      case Crashed => return Crashed;
      case Good(tree) =>
        if sym.None? {
          return Crashed;
        }
        p.Emit(STO, p.Register() - 1, p.Level() - sym.value.level, sym.value.addr);
        p.AddRegister(-1);
        return Good(Assign(x, tree));
    }
  }

  method CallParse(p: Parser) returns (r: Parsed<Stmt>)
    requires p.Valid() && p.View().Kind() == callsym
    modifies p.Repr
    ensures p.Valid() && Agrees(r, ParseCall(old(p.View())), p.View())
  {
    hide p.Valid, p.View, NextToken, AppendAll;
    p.GetToken();
    if p.Kind() != identsym {
      return Failed(14);
    }
    var x := p.Name();
    var sym := p.Lookup(x);
    if sym.None? {
      return Failed(11);
    }
    if sym.value.kind != PROC {
      return Failed(15);
    }
    p.Emit(CAL, 0, p.Level() - sym.value.level, sym.value.addr);
    p.GetToken();
    return Good(Stmt.Call(x));
  }

  method ReadParse(p: Parser) returns (r: Parsed<Stmt>)
    requires p.Valid() && p.View().Kind() == readsym
    modifies p.Repr
    ensures p.Valid() && Agrees(r, ParseRead(old(p.View())), p.View())
  {
    hide p.Valid, p.View, NextToken, AppendAll;
    p.GetToken();
    if p.Kind() != identsym {
      return Failed(27);
    }
    var x := p.Name();
    var sym := p.Lookup(x);
    if sym.None? {
      return Failed(11);
    }
    if sym.value.kind != VAR {
      return Failed(27);
    }
    p.Emit(SIO, p.Register(), 0, 2);
    p.Emit(STO, p.Register(), p.Level() - sym.value.level, sym.value.addr);
    p.GetToken();
    return Good(Read(x));
  }

  method WriteParse(p: Parser) returns (r: Parsed<Stmt>)
    requires p.Valid() && p.View().Kind() == writesym
    modifies p.Repr
    ensures p.Valid() && Agrees(r, ParseWrite(old(p.View())), p.View())
  {
    hide p.Valid, p.View, NextToken, AppendAll;
    p.GetToken();
    if p.Kind() != identsym {
      return Failed(28);
    }
    var x := p.Name();
    var sym := p.Lookup(x);
    if sym.None? {
      return Failed(11);
    }
    if sym.value.kind == PROC {
      return Failed(27);
    }
    if sym.value.kind == VAR {
      p.Emit(LOD, p.Register(), p.Level() - sym.value.level, sym.value.addr);
    } else {
      p.Emit(LOD, p.Register(), 0, sym.value.val);
    }
    p.Emit(SIO, p.Register(), 0, 1);
    p.GetToken();
    return Good(Write(x));
  }

  method IfParse(p: Parser, fsys: set<Kind>) returns (r: Parsed<Stmt>)
    requires p.Valid() && p.View().Kind() == ifsym
    modifies p.Repr
    ensures p.Valid() && Agrees(r, ParseIf(old(p.View()), fsys), p.View())
    decreases |p.View().rest|, 5
  {
    hide p.Valid, p.View, NextToken, ParseCond, ParseStmt, ParseElse, AppendAll, ChangeM;
    p.GetToken();
    var cond := ConditionParse(p, {thensym, dosym} + fsys);
    match cond {
      case Failed(n) => return Failed(n);
      case Crashed => return Crashed;
      case Good(c) =>
        if p.Kind() != thensym {
          return Failed(16);
        }
        p.GetToken();
        var j1 := p.Length();
        p.Emit(JPC, p.Register() - 1, 0, 0);
        var thn := StatementParse(p, fsys);
        match thn {
          case Failed(n) => return Failed(n);
          case Crashed => return Crashed;
          case Good(t) =>
            var j2 := p.Length();
            p.Emit(JMP, 0, 0, 0);
            var after := p.Length();
            p.Patch(j1, after);
            r := ElseParse(p, c, t, j2, fsys);
        }
    }
  }

  method ElseParse(p: Parser, c: Cond, t: Stmt, j2: int, fsys: set<Kind>) returns (r: Parsed<Stmt>)
    requires p.Valid()
    modifies p.Repr
    ensures p.Valid() && Agrees(r, ParseElse(c, t, old(p.View()), j2, fsys), p.View())
    decreases |p.View().rest|, 5
  {
    hide p.Valid, p.View, NextToken, ParseStmt, AppendAll, ChangeM;
    var tree := If(c, t);
    if p.Kind() == elsesym {
      p.GetToken();
      var els := StatementParse(p, fsys);
      match els {
        case Failed(n) => return Failed(n);
        case Crashed => return Crashed;
        case Good(e) => tree := IfElse(c, t, e);
      }
    }
    p.AddRegister(-1);
    var after := p.Length();
    p.Patch(j2, after);
    return Good(tree);
  }

  /** The jump back to `start`, and the target of the jump at `j1` behind it. */
  method CloseLoop(p: Parser, j1: int, start: int)
    requires p.Valid()
    modifies p.Repr
    ensures p.Valid()
    ensures var st3 := old(p.View()).Emit(JMP, 0, 0, 0);
            p.View() == st3.Patch(j1, st3.Length()).Patch(old(p.View()).Length(), start).(reg := st3.reg - 1)
  {
    hide p.Valid, p.View, AppendAll, ChangeM, Get;
    var j2 := p.Length();
    p.Emit(JMP, 0, 0, 0);
    var after := p.Length();
    p.Patch(j1, after);
    p.Patch(j2, start);
    p.AddRegister(-1);
  }

  method WhileParse(p: Parser, fsys: set<Kind>) returns (r: Parsed<Stmt>)
    requires p.Valid() && p.View().Kind() == whilesym
    modifies p.Repr
    ensures p.Valid() && Agrees(r, ParseWhile(old(p.View()), fsys), p.View())
    decreases |p.View().rest|, 5
  {
    hide p.Valid, p.View, NextToken, ParseCond, ParseStmt, AppendAll, ChangeM, Get;
    p.GetToken();
    var start := p.Length();
    var cond := ConditionParse(p, {dosym} + fsys);
    match cond {
      case Failed(n) => return Failed(n);
      case Crashed => return Crashed;
      case Good(c) =>
        if p.Kind() != dosym {
          return Failed(18);
        }
        p.GetToken();
        var j1 := p.Length();
        p.Emit(JPC, p.Register() - 1, 0, 0);
        var body := StatementParse(p, fsys);
        match body {
          case Failed(n) => return Failed(n);
          case Crashed => return Crashed;
          case Good(b) =>
            CloseLoop(p, j1, start);
            return Good(While(c, b));
        }
    }
  }

  method BeginParse(p: Parser, fsys: set<Kind>) returns (r: Parsed<Stmt>)
    requires p.Valid() && p.View().Kind() == beginsym
    modifies p.Repr
    ensures p.Valid() && Agrees(r, ParseBegin(old(p.View()), fsys), p.View())
    decreases |p.View().rest|, 5
  {
    hide p.Valid, p.View, NextToken, ParseStmt, ParseStmts, AppendAll;
    var follow := {semicolonsym, endsym} + fsys;
    p.GetToken();
    var first := StatementParse(p, follow);
    match first {
      case Failed(n) => return Failed(n);
      case Crashed => return Crashed;
      case Good(s) =>
        var rest := StatementsParse(p, follow);
        match rest {
          case Failed(n) => return Failed(n);
          case Crashed => return Crashed;
          case Good(ss) =>
            if p.Kind() != endsym {
              return Failed(26);
            }
            p.GetToken();
            if p.Current() > 0 {
              p.Emit(RTN, 0, 0, 0);
            }
            return Good(Begin(s, ss));
        }
    }
  }

  /** The loop over further statements; a missing semicolon is only reported. */
  method StatementsParse(p: Parser, follow: set<Kind>) returns (r: Parsed<Stmts>)
    requires p.Valid()
    modifies p.Repr
    ensures p.Valid() && Agrees(r, ParseStmts(old(p.View()), follow), p.View())
    decreases |p.View().rest|, 7
  {
    hide p.Valid, p.View, NextToken, ParseStmt;
    ghost var start := p.View();
    var ss := NoStmts;
    while p.Kind() == semicolonsym || p.Kind() in STATBEGSYS
      invariant p.Valid()
      invariant |p.View().rest| <= |start.rest|
      invariant ParseStmts(start, follow) == AfterStmts(ss, ParseStmts(p.View(), follow))
      decreases |p.View().rest|
    {
      ghost var st := p.View();
      if p.Kind() == semicolonsym {
        p.GetToken();
      }
      var next := StatementParse(p, follow);
      match next {
        case Failed(n) => return Failed(n);
        case Crashed => return Crashed;
        case Good(s) =>
          StmtsLoop(ss, st, follow);
          ss := AppendStmts(ss, MoreStmts(s, NoStmts));
      }
    }
    AppendStmtsNone(ss);
    return Good(ss);
  }

  method StatementParse(p: Parser, fsys: set<Kind>) returns (r: Parsed<Stmt>)
    requires p.Valid()
    modifies p.Repr
    ensures p.Valid() && Agrees(r, ParseStmt(old(p.View()), fsys), p.View())
    decreases |p.View().rest|, 6
  {
    hide p.Valid, p.View, NextToken, ParseAssign, ParseCall, ParseBegin, ParseIf, ParseWhile, ParseRead, ParseWrite;
    match p.Kind() {
      case identsym => r := AssignParse(p, fsys);
      case callsym => r := CallParse(p);
      case beginsym => r := BeginParse(p, fsys);
      case ifsym => r := IfParse(p, fsys);
      case whilesym => r := WhileParse(p, fsys);
      case readsym => r := ReadParse(p);
      case writesym => r := WriteParse(p);
      case _ =>
        p.TestToken(fsys, {});
        r := Good(Empty);
    }
  }
}
