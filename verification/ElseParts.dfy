/**
  What becomes of an `else` behind an empty branch: no set of tokens the parser passes down
  has it, so recovery throws it away, and what it guarded is done whatever the condition says.
 */
module ElseParts {
  import opened Common
  import opened Machine
  import opened Syntax
  import opened Symbols
  import opened Compile
  import opened CodeSets
  import opened Semantics
  import opened Registers
  import opened Emission
  import opened StmtCorrect
  import opened Parsing
  import opened Programs
  import opened RoundTrip
  import opened Standard
  import opened Scope
  import opened DistinctNames
  import opened Overhang
  import opened Compiler
  import opened Readings
  import opened Pl0
  import opened Pl0Safety
  import opened RoundTripProgram
  import opened OneProc

  // ---------- no tree with an open statement in front of an else ----------

  /** A statement parsed without `else` among the tokens that may follow leaves none it could have had. */
  ghost predicate Closed(r: Result<Stmt>) {
    r.Ok? ==> Writable(r.value) && (EndsOpen(r.value) ==> r.st.Kind() != elsesym)
  }

  lemma {:induction false} StmtClosed(st: PState, fsys: set<Kind>)
    requires elsesym !in fsys
    ensures Closed(ParseStmt(st, fsys))
    decreases |st.rest|, 6
  {
    hide ParseIf, ParseWhile, ParseBegin, ParseAssign, ParseCall, ParseRead, ParseWrite, NextToken;
    StmtKinds(st, fsys);
    if st.Kind() == beginsym {
      BeginClosed(st, fsys);
    } else if st.Kind() == ifsym {
      IfClosed(st, fsys);
    } else if st.Kind() == whilesym {
      WhileClosed(st, fsys);
    }
  }

  lemma {:induction false} BeginClosed(st: PState, fsys: set<Kind>)
    requires elsesym !in fsys && st.Kind() == beginsym
    ensures Closed(ParseBegin(st, fsys))
    decreases |st.rest|, 5
  {
    hide ParseStmt, ParseStmts, AppendAll, NextToken;
    var follow := {semicolonsym, endsym} + fsys;
    StmtClosed(st.Next(), follow);
    var first := ParseStmt(st.Next(), follow);
    if first.Ok? {
      StmtsClosed(first.st, follow);
    }
  }

  lemma {:induction false} StmtsClosed(st: PState, follow: set<Kind>)
    requires elsesym !in follow
    ensures ParseStmts(st, follow).Ok? ==> WritableAll(ParseStmts(st, follow).value)
    decreases |st.rest|, 7
  {
    hide ParseStmt, AppendAll, NextToken;
    if st.Kind() == semicolonsym || st.Kind() in STATBEGSYS {
      var st1 := if st.Kind() == semicolonsym then st.Next() else st;
      StmtClosed(st1, follow);
      var r := ParseStmt(st1, follow);
      if r.Ok? {
        StmtsClosed(r.st, follow);
      }
    }
  }

  lemma {:induction false} WhileClosed(st: PState, fsys: set<Kind>)
    requires elsesym !in fsys && st.Kind() == whilesym
    ensures Closed(ParseWhile(st, fsys))
    decreases |st.rest|, 5
  {
    hide ParseCond, ParseStmt, AppendAll, ChangeM, Get, NextToken;
    var c := ParseCond(st.Next(), {dosym} + fsys);
    if c.Ok? && c.st.Kind() == dosym {
      StmtClosed(c.st.Next().Emit(JPC, c.st.reg - 1, 0, 0), fsys);
    }
  }

  lemma {:induction false} IfClosed(st: PState, fsys: set<Kind>)
    requires elsesym !in fsys && st.Kind() == ifsym
    ensures Closed(ParseIf(st, fsys))
    decreases |st.rest|, 5
  {
    hide ParseCond, ParseStmt, ParseElse, AppendAll, ChangeM, Get, NextToken;
    var c := ParseCond(st.Next(), {thensym, dosym} + fsys);
    if c.Ok? && c.st.Kind() == thensym {
      var stj := c.st.Next().Emit(JPC, c.st.reg - 1, 0, 0);
      StmtClosed(stj, fsys);
      var t := ParseStmt(stj, fsys);
      if t.Ok? {
        var st3 := t.st.Emit(JMP, 0, 0, 0);
        ElseClosed(c.value, t.value, st3.Patch(c.st.Length(), st3.Length()), t.st.Length(), fsys);
      }
    }
  }

  lemma {:induction false} ElseClosed(c: Cond, t: Stmt, st: PState, j2: int, fsys: set<Kind>)
    requires elsesym !in fsys && Writable(t) && (EndsOpen(t) ==> st.Kind() != elsesym)
    ensures Closed(ParseElse(c, t, st, j2, fsys))
    decreases |st.rest|, 5
  {
    hide ParseStmt, AppendAll, ChangeM, Get, NextToken;
    if st.Kind() == elsesym {
      StmtClosed(st.Next(), fsys);
    }
  }

  /** In particular an if statement never comes out with an empty branch and an else. */
  lemma NoElseBehindEmpty(st: PState, fsys: set<Kind>, c: Cond, e: Stmt)
    requires elsesym !in fsys && ParseStmt(st, fsys).Ok?
    ensures ParseStmt(st, fsys).value != IfElse(c, Empty, e)
  {
    StmtClosed(st, fsys);
  }

  // ---------- declarations, blocks, programs ----------

  lemma {:induction false} AppendWritable(a: Decls, b: Decls)
    ensures ProcsWritable(AppendDecls(a, b)) <==> ProcsWritable(a) && ProcsWritable(b)
    decreases a
  {
    match a
    case NoDecls =>
    case ConstDecl(_, _, next) => AppendWritable(next, b);
    case VarDecl(_, next) => AppendWritable(next, b);
    case ProcDecl(_, _, next) => AppendWritable(next, b);
  }

  lemma {:induction false} ConstsNoProcs(st: PState)
    requires st.rest != []
    ensures ParseConsts(st).Ok? ==> ProcsWritable(ParseConsts(st).value)
    decreases |st.rest|
  {
    hide ParseConst;
    var c := ParseConst(st);
    if c.Ok? && c.st.Kind() == commasym {
      ConstsNoProcs(c.st);
    }
  }

  lemma {:induction false} VarsNoProcs(st: PState)
    requires st.rest != []
    ensures ParseVars(st).Ok? ==> ProcsWritable(ParseVars(st).value)
    decreases |st.rest|
  {
    hide PutSymbol, NextToken;
    var st1 := st.Next();
    if st1.Kind() == identsym && 0 <= st1.level < |st1.offsets| {
      var st2 := MakeVar(st1, st1.Name()).Next();
      if st2.Kind() == commasym {
        VarsNoProcs(st2);
      }
    }
  }

  /** Behind declarations there is a statement or the end of the text. */
  lemma {:induction false} DeclsStop(st: PState, fsys: set<Kind>, had: Sections)
    ensures var r := ParseDecls(st, fsys, had); r.Ok? ==> r.st.Kind() in STATBEGSYS || r.st.Kind() == nulsym
    decreases |st.rest|
  {
    hide ParseSections;
    var r := ParseSections(st, fsys, had);
    if r.Ok? {
      var st2 := Test(r.st.(cur := st.cur), STATBEGSYS + {identsym}, DECLBEGSYS);
      if st2.Kind() in DECLBEGSYS {
        DeclsStop(st2, fsys, r.value.1);
      }
    }
  }

  lemma StmtFull(st: PState, fsys: set<Kind>)
    requires st.Kind() in STATBEGSYS
    ensures ParseStmt(st, fsys).Ok? ==> ParseStmt(st, fsys).value != Empty
  {
    hide ParseCond, ParseElse, ParseStmts, ParseExpr, AppendAll, ChangeM, Get, NextToken, GetSymbol;
    hide ParseBegin, ParseIf, ParseWhile, ParseAssign, ParseCall, ParseRead, ParseWrite;
    StmtKinds(st, fsys);
  }

  lemma StmtKinds(st: PState, fsys: set<Kind>)
    ensures st.Kind() == beginsym && ParseBegin(st, fsys).Ok? ==> ParseBegin(st, fsys).value.Begin?
    ensures st.Kind() == ifsym && ParseIf(st, fsys).Ok? ==> ParseIf(st, fsys).value != Empty
    ensures st.Kind() == whilesym && ParseWhile(st, fsys).Ok? ==> ParseWhile(st, fsys).value.While?
    ensures st.Kind() == identsym && ParseAssign(st, fsys).Ok? ==> ParseAssign(st, fsys).value.Assign?
    ensures st.Kind() == callsym && ParseCall(st).Ok? ==> ParseCall(st).value.Call?
    ensures st.Kind() == readsym && ParseRead(st).Ok? ==> ParseRead(st).value.Read?
    ensures st.Kind() == writesym && ParseWrite(st).Ok? ==> ParseWrite(st).value.Write?
  {
    hide ParseCond, ParseStmt, ParseStmts, ParseExpr, AppendAll, ChangeM, Get, NextToken, GetSymbol;
  }

  /** A block without a statement is one at the end of the text. */
  lemma BlockFull(st: PState, fsys: set<Kind>)
    ensures var r := ParseBlock(st, fsys); r.Ok? && r.value.body == Empty ==> r.st.Kind() == nulsym
  {
    hide ParseDecls, ParseStmt;
    var had := Sections(false, false, false);
    DeclsStop(st, fsys, had);
    var d := ParseDecls(st, fsys, had);
    if d.Ok? {
      if d.st.Kind() in STATBEGSYS {
        StmtFull(d.st, {semicolonsym, endsym} + fsys);
      } else {
        NothingLeft(d.st, {semicolonsym, endsym} + fsys, fsys);
      }
    }
  }

  lemma NothingLeft(st: PState, follow: set<Kind>, fsys: set<Kind>)
    requires st.Kind() == nulsym
    ensures ParseStmt(st, follow).Ok? ==> Test(ParseStmt(st, follow).st, fsys, {}).Kind() == nulsym
  {
    hide NextToken;
  }

  lemma {:induction false} ProcClosed(st: PState, fsys: set<Kind>)
    requires elsesym !in fsys && st.Kind() == procsym
    ensures var r := ParseProc(st, fsys);
            r.Ok? ==> BodiesWritable(r.value.1) && r.value.1.body != Empty
    decreases |st.rest|, 7
  {
    hide ParseBlock, PutSymbol, FreeSet, NextToken, BodiesWritable, Prepend;
    var st2 := MakeProc(st.Next(), st.Next().Name()).Next();
    if st.Next().Kind() == identsym && st2.Kind() == semicolonsym {
      BlockClosed(st2.Next().(level := st2.level + 1), {semicolonsym} + fsys);
      BlockFull(st2.Next().(level := st2.level + 1), {semicolonsym} + fsys);
    }
  }

  lemma {:induction false} ProcsClosed(st: PState, fsys: set<Kind>)
    requires elsesym !in fsys
    ensures ParseProcs(st, fsys).Ok? ==> ProcsWritable(ParseProcs(st, fsys).value)
    decreases |st.rest|, 8
  {
    hide ParseProc, BodiesWritable;
    if st.Kind() == procsym {
      ProcClosed(st, fsys);
      var p := ParseProc(st, fsys);
      if p.Ok? {
        ProcsClosed(p.st, fsys);
      }
    }
  }

  lemma {:induction false} SectionsClosed(st: PState, fsys: set<Kind>, had: Sections)
    requires elsesym !in fsys
    ensures ParseSections(st, fsys, had).Ok? ==> ProcsWritable(ParseSections(st, fsys, had).value.0)
    decreases |st.rest|, 9
  {
    hide ParseProcs, ParseConsts, ParseVars, ProcsWritable, AppendDecls;
    NoneWritable();
    var c := ConstSection(st, had.consts);
    if c.Ok? {
      if st.Kind() == constsym { ConstsNoProcs(st); }
      var v := VarSection(c.st, had.vars);
      if v.Ok? {
        if c.st.Kind() == varsym { VarsNoProcs(c.st); }
        ProcsClosed(v.st, fsys);
        var p := ParseProcs(v.st, fsys);
        if p.Ok? {
          AppendWritable(c.value, AppendDecls(v.value, p.value));
          AppendWritable(v.value, p.value);
        }
      }
    }
  }

  lemma NoneWritable()
    ensures ProcsWritable(NoDecls)
  {
  }

  lemma {:induction false} DeclsClosed(st: PState, fsys: set<Kind>, had: Sections)
    requires elsesym !in fsys
    ensures ParseDecls(st, fsys, had).Ok? ==> ProcsWritable(ParseDecls(st, fsys, had).value)
    decreases |st.rest|, 10
  {
    hide ParseSections, ProcsWritable, AppendDecls;
    SectionsClosed(st, fsys, had);
    var r := ParseSections(st, fsys, had);
    if r.Ok? {
      var st2 := Test(r.st.(cur := st.cur), STATBEGSYS + {identsym}, DECLBEGSYS);
      if st2.Kind() in DECLBEGSYS {
        DeclsClosed(st2, fsys, r.value.1);
        var ds := ParseDecls(st2, fsys, r.value.1);
        if ds.Ok? {
          AppendWritable(r.value.0, ds.value);
        }
      }
    }
  }

  lemma {:induction false} BlockClosed(st: PState, fsys: set<Kind>)
    requires elsesym !in fsys
    ensures ParseBlock(st, fsys).Ok? ==> BodiesWritable(ParseBlock(st, fsys).value)
    decreases |st.rest|, 11
  {
    hide ParseDecls, ParseStmt, ProcsWritable, Writable;
    var had := Sections(false, false, false);
    DeclsClosed(st, fsys, had);
    var d := ParseDecls(st, fsys, had);
    if d.Ok? {
      StmtClosed(d.st, {semicolonsym, endsym} + fsys);
    }
  }

  /**
    Whatever tokens it is given, the parser builds trees without an open statement in front of an
    else, and without an empty procedure body, only.
   */
  lemma ProgramClosed(toks: seq<Token>)
    ensures ParseProgram(toks).Ok? ==> BodiesWritable(ParseProgram(toks).value)
  {
    hide ParseBlock, BodiesWritable, InitParse;
    assert elsesym !in PROGSYS;
    BlockClosed(InitParse(toks), PROGSYS);
  }

  /**
    The round trip, exactly: of the trees that are in order, with names declared and numbers
    small, those the parser gives back from their concrete syntax are those without an open
    statement, or an empty one, in front of an else, and without an empty procedure body.
   */
  lemma ProgramRoundExact(b: Block)
    requires Checked(b)
    ensures TextOf(RenderProgram(b), b) <==> BodiesWritable(b)
  {
    hide ParseProgram, RenderProgram, Checked, BodiesWritable;
    ProgramClosed(RenderProgram(b));
    if BodiesWritable(b) {
      ProgramRound(b);
    }
  }

  // ---------- an else behind an empty branch ----------

  /**
    An empty branch, an `else`, and a token that may follow: the `else` is skipped, and the
    statement that comes behind it is left for the parser to find as one of its own.
   */
  lemma EmptyThenLost(st: PState, c: Cond, rest: seq<Token>, fsys: set<Kind>)
    requires st.rest == [Sym(ifsym)] + (RenderCond(c) + ([Sym(thensym)] + ([Sym(elsesym)] + rest)))
    requires GoodCond(c, st.Env()) && elsesym !in fsys && KindOf(rest) in fsys && Clean(rest) && rest != []
    ensures Gives(ParseStmt(st, fsys), If(c, Empty), rest)
  {
    hide NextToken, ParseCond, RenderCond, GoodCond, AppendAll, ChangeM, Get;
    var st1 := IfHead(st, c, [Sym(elsesym)] + rest, fsys);
    var stj := st1.Next().Emit(JPC, st1.reg - 1, 0, 0);
    ElseSkipped(stj, rest, fsys);
    var st2 := ParseStmt(stj, fsys).st;
    var st4 := st2.Emit(JMP, 0, 0, 0).Patch(st1.Length(), st2.Emit(JMP, 0, 0, 0).Length());
    assert Gives(ParseElse(c, Empty, st4, st2.Length(), fsys), If(c, Empty), rest);
    IfUnfold(If(c, Empty), st, st1, st2, st4, rest, fsys);
  }

  lemma ElseSkipped(st: PState, rest: seq<Token>, fsys: set<Kind>)
    requires st.rest == [Sym(elsesym)] + rest && elsesym !in fsys && KindOf(rest) in fsys && Clean(rest) && rest != []
    ensures Gives(ParseStmt(st, fsys), Empty, rest)
  {
    assert st.rest[1..] == rest;
    assert NextToken(st.rest) == rest;
    assert SkipTo(rest, fsys) == rest;
    assert SkipTo(st.rest, fsys + {}) == SkipTo(rest, fsys + {});
    assert fsys + {} == fsys;
  }

  /** odd 1 */
  function OddOne(): Cond {
    Odd(ConstExpr(1))
  }

  /** x := 1 */
  function Guarded(): Stmt {
    Assign("x", ConstExpr(1))
  }

  function AfterElse(): Stmts {
    MoreStmts(Write("x"), NoStmts)
  }

  function XDecl(): Decls {
    VarDecl("x", NoDecls)
  }

  /** var x; begin if odd 1 then else x := 1; write x end. */
  function MeantBlock(): Block {
    Block(XDecl(), Begin(IfElse(OddOne(), Empty, Guarded()), AfterElse()))
  }

  /** var x; begin if odd 1 then; x := 1; write x end. */
  function LostBlock(): Block {
    Block(XDecl(), Begin(If(OddOne(), Empty), MoreStmts(Guarded(), AfterElse())))
  }

  /** The table after the declaration, and what it answers. */
  lemma XTable()
    ensures var s := ElabDecls(XDecl(), 0, 0, InitCounters()).0;
            FromTable(s.table, 0).Find("x") == Some(Binding(VAR, 0, 4, 0)) && |s.offsets| == MAX_LEXI_LEVELS
    ensures GoodDecls(XDecl(), 0, 0, InitCounters())
  {
    hide Hash;
    var x := Symbol("x", VAR, 0, 0, 4);
    var t := PutSymbol(map[], x);
    assert Bucket(t, Hash("x")) == [] + [x] == [x];
    assert Search([x], None, 0) == Search([x][1..], Some(x), 0) == Some(x);
    var s := Counters(t, [4, 4, 4, 4, 4][0 := 5], 0);
    assert ElabDecls(NoDecls, 0, 0, s).0 == s;
  }

  /** The tokens of the statement: those of the if, of the assignment, and of what is left. */
  lemma MeantTokens()
    ensures var last := [Sym(endsym)] + [Sym(periodsym)];
            var behind := RenderStmt(Guarded()) + (RenderStmts(AfterElse()) + last);
            var body := [Sym(beginsym)] + ([Sym(ifsym)] +
                                           (RenderCond(OddOne()) + ([Sym(thensym)] + ([Sym(elsesym)] + behind))));
            RenderProgram(MeantBlock()) == RenderConsts(XDecl(), true) +
                (RenderVars(XDecl(), true) + (RenderProcs(XDecl()) + body))
  {
    hide RenderConsts, RenderVars, RenderProcs;
    hide RenderCond;
  }

  lemma GuardedGood(env: Env)
    requires env.Find("x") == Some(Binding(VAR, 0, 4, 0))
    ensures GoodCond(OddOne(), env) && GoodStmt(Guarded(), env) && GoodStmts(AfterElse(), env)
    ensures Writable(Guarded()) && WritableAll(AfterElse())
  {
    ConstShape(1, 0, env);
    hide ConstExpr;
    assert GoodStmts(NoStmts, env);
  }

  lemma GuardedTokens(follow: set<Kind>)
    ensures var tail := RenderStmts(AfterElse()) + ([Sym(endsym)] + [Sym(periodsym)]);
            && Clean(tail) && EndsStmt(Guarded(), tail, follow)
            && KindOf(RenderStmt(Guarded()) + tail) == identsym && Clean(RenderStmt(Guarded()) + tail)
            && KindOf(tail) != nulsym
  {
    StmtsStart(AfterElse(), [Sym(endsym)] + [Sym(periodsym)]);
  }

  /** A missing semicolon: the next statement starts where it should have been. */
  lemma MissingSemicolon(st: PState, follow: set<Kind>)
    requires st.Kind() in STATBEGSYS
    ensures var s := ParseStmt(st, follow);
            s.Ok? ==>
              var ss := ParseStmts(s.st, follow);
              ss.Ok? ==> ParseStmts(st, follow) == Ok(MoreStmts(s.value, ss.value), ss.st)
  {
    hide ParseStmt, NextToken;
  }

  /** The statement behind the lost else is parsed as one more statement of the begin..end. */
  lemma LostBegin(st: PState, fsys: set<Kind>)
    requires st.Env().Find("x") == Some(Binding(VAR, 0, 4, 0)) && elsesym !in fsys && STATBEGSYS <= fsys
    requires var last := [Sym(endsym)] + [Sym(periodsym)];
             var behind := RenderStmt(Guarded()) + (RenderStmts(AfterElse()) + last);
             st.rest == [Sym(beginsym)] + ([Sym(ifsym)] +
                                           (RenderCond(OddOne()) + ([Sym(thensym)] + ([Sym(elsesym)] + behind))))
    ensures Gives(ParseStmt(st, fsys), LostBlock().body, [Sym(periodsym)])
  {
    hide NextToken, ParseStmt, ParseStmts, RenderCond, RenderStmt, RenderStmts, AppendAll, ParseBegin, GoodStmt,
         GoodStmts, GoodCond, Writable, WritableAll, OddOne, Guarded, AfterElse, EndsStmt;
    var follow := {semicolonsym, endsym} + fsys;
    var last := [Sym(endsym)] + [Sym(periodsym)];
    var tail := RenderStmts(AfterElse()) + last;
    var behind := RenderStmt(Guarded()) + tail;
    GuardedGood(st.Env());
    GuardedTokens(follow);
    NextOf(st, Sym(beginsym), [Sym(ifsym)] + (RenderCond(OddOne()) + ([Sym(thensym)] + ([Sym(elsesym)] + behind))));
    EmptyThenLost(st.Next(), OddOne(), behind, follow);
    StmtKeeps(st.Next(), follow);
    var st1 := ParseStmt(st.Next(), follow).st;
    StmtRound(Guarded(), st1, tail, follow);
    StmtKeeps(st1, follow);
    var st2 := ParseStmt(st1, follow).st;
    StmtsRound(AfterElse(), st2, last, follow);
    NextOf(ParseStmts(st2, follow).st, Sym(endsym), [Sym(periodsym)]);
    MissingSemicolon(st1, follow);
    Dispatch(st, fsys);
    BeginUnfold(st, fsys);
  }

  /** The declaration is parsed, and the name is known behind it. */
  lemma XParsed(toks: seq<Token>, body: seq<Token>)
    requires toks == RenderConsts(XDecl(), true) + (RenderVars(XDecl(), true) + (RenderProcs(XDecl()) + body))
    requires KindOf(body) in STATBEGSYS
    ensures var r := ParseDecls(InitParse(toks), PROGSYS, Sections(false, false, false));
            Gives(r, XDecl(), body) && r.st.Env().Find("x") == Some(Binding(VAR, 0, 4, 0))
  {
    hide NextToken, ParseDecls, RenderConsts, RenderVars, RenderProcs, ElabDecls, GoodDecls, Hash, STATBEGSYS, XDecl;
    var st := InitParse(toks);
    InitFresh(toks);
    XTable();
    OrderedX();
    DeclsStart(XDecl(), body);
    assert st.rest == toks;
    DeclsRound(XDecl(), st, body, PROGSYS, 0);
    DeclsDeclare(st, PROGSYS, Sections(false, false, false), 0);
    DeclaredCounters(st, ParseDecls(st, PROGSYS, Sections(false, false, false)).st, 0, XDecl());
  }

  /** The parser makes of the one text the other program. */
  lemma LostParse()
    ensures TextOf(RenderProgram(MeantBlock()), LostBlock())
  {
    hide NextToken, ParseStmt, ParseDecls, RenderConsts, RenderVars, RenderProcs, RenderStmt, RenderStmts, RenderCond,
         RenderProgram, InitParse, XDecl, ParseBlock, AppendAll, Prepend, VarCount, OddOne, Guarded, AfterElse;
    var toks := RenderProgram(MeantBlock());
    var last := [Sym(endsym)] + [Sym(periodsym)];
    var behind := RenderStmt(Guarded()) + (RenderStmts(AfterElse()) + last);
    var body := [Sym(beginsym)] + ([Sym(ifsym)] + (RenderCond(OddOne()) +
                                                   ([Sym(thensym)] + ([Sym(elsesym)] + behind))));
    MeantTokens();
    XParsed(toks, body);
    LostBegin(ParseDecls(InitParse(toks), PROGSYS, Sections(false, false, false)).st, {semicolonsym, endsym} + PROGSYS);
    BlockUnfold(InitParse(toks), XDecl(), LostBlock().body);
  }

  lemma OrderedX()
    ensures Ordered(XDecl(), 0) && ProcsWritable(XDecl())
  {
  }

  lemma BlockUnfold(st: PState, d: Decls, s: Stmt)
    requires var r := ParseDecls(st, PROGSYS, Sections(false, false, false));
             && r.Ok? && r.value == d
             && Gives(ParseStmt(r.st, {semicolonsym, endsym} + PROGSYS), s, [Sym(periodsym)])
    ensures Gives(ParseBlock(st, PROGSYS), Block(d, s), [Sym(periodsym)])
  {
    hide ParseDecls, ParseStmt;
  }

  lemma LostNames()
    ensures LevelsFit(XDecl(), 0) && Clear(LostBlock(), NoPads(|LexProgram(LostBlock())|))
  {
    hide Hash, PutSymbol, Clear, ClearScopes, LexProgram;
    assert DeclHashes(NoDecls) == {} && Distinct(XDecl(), {}) && FreshLevels(XDecl(), 0, InitCounters());
    DistinctClear(LostBlock());
    ScopesClear(LostBlock());
  }

  function XScope(): Scoping {
    map["x" := Binding(VAR, 0, 4, 0)]
  }

  lemma LostMeaning(s: Stmt)
    ensures LexProgram(Block(XDecl(), s)) == [Proc(0, 0, 1, Lexical(XScope()), s)]
  {
    assert LexDecls(NoDecls, 0, 0, 1, XScope(), 0) == (Lex(XScope(), 0), []);
    assert LexDecls(XDecl(), 0, 0, 0, map[], 0) == (Lex(XScope(), 0), []);
  }

  lemma LostCompilable()
    ensures Compilable(LostBlock(), NoPads(1)) && Compact(LostBlock())
  {
    hide LexProgram, Clear, GoodStmt, Writable, NeedStmt, Ordered, WellFormed, LostBlock;
    LostNames();
    LostParts();
    LostMeaning(LostBlock().body);
    LostNeeds();
    LostGood(Lexical(XScope()));
    LostOrdered();
  }

  lemma LostOrdered()
    ensures Ordered(XDecl(), 0) && WellFormed(XDecl(), 0)
  {
  }

  lemma LostNeeds()
    ensures NeedStmt(LostBlock().body) == 1 && Writable(LostBlock().body)
  {
    var body := LostBlock().body;
    ConstShape(1, 0, Lexical(XScope()));
    hide ConstExpr;
    assert NeedStmts(AfterElse()) == 1 && NeedStmts(body.rest) == 1 && NeedStmt(body.first) == 1;
    assert WritableAll(AfterElse()) && WritableAll(body.rest);
  }

  lemma LostGood(env: Env)
    requires env.Find("x") == Some(Binding(VAR, 0, 4, 0))
    ensures GoodStmt(LostBlock().body, env)
  {
    GuardedGood(env);
    assert GoodStmts(LostBlock().body.rest, env);
  }

  lemma LostSize(env: Env)
    requires env.Find("x") == Some(Binding(VAR, 0, 4, 0))
    ensures |CompileStmt(LostBlock().body, 0, 0, env, false)| == 8
  {
    var body := LostBlock().body;
    ConstShape(1, 0, env);
    hide ConstExpr;
    assert |CompileStmt(body.first, 0, 0, env, false)| == 4;
    assert |CompileStmts(AfterElse(), 6, 0, env, false)| == 2;
    assert |CompileStmts(body.rest, 4, 0, env, false)| == 4;
  }

  lemma LostLength()
    ensures |CompiledCode(RenderProgram(MeantBlock()))| == 11
  {
    hide LexProgram, RenderProgram, CompiledCode, Compilable, ParseProgram, CompileStmt, MeantBlock, LostBlock;
    LostParse();
    LostCompilable();
    LostMeaning(LostBlock().body);
    assert LostBlock() == Block(XDecl(), LostBlock().body) by { LostParts(); }
    CompactLength(RenderProgram(MeantBlock()), LostBlock());
    LostSize(Lexical(XScope()));
    var prog := LexProgram(LostBlock());
    assert CodeSize(prog, 0) == |ProcCode(prog, 0, -1)| + CodeSize(prog, 1);
  }

  lemma LostParts()
    ensures LostBlock() == Block(XDecl(), LostBlock().body)
  {
  }

  /** A store of the program. */
  function XStore(x: int, output: seq<int>): Store {
    Store([Frame(0, 0, [Some(x)])], [], output, 1, false)
  }

  lemma XAssign(m: Mode, s: Stmt, x: int)
    ensures Exec([Proc(0, 0, 1, Lexical(XScope()), s)], m, Guarded(), 0, XStore(x, []), 0) == Done(XStore(1, []))
  {
    ConstValue(1, Lexical(XScope()), XStore(x, []).frames);
    hide ConstExpr;
    assert SetVar(XStore(x, []).frames, 0, 0, 1)[0].vars == [Some(1)];
  }

  lemma XWrite(m: Mode, s: Stmt, x: int)
    ensures ExecAll([Proc(0, 0, 1, Lexical(XScope()), s)], m, AfterElse(), 0, XStore(x, []), 0) == Done(XStore(x, [x]))
  {
    var prog := [Proc(0, 0, 1, Lexical(XScope()), s)];
    assert [] + [x] == [x];
    assert Exec(prog, m, Write("x"), 0, XStore(x, []), 0) == Done(XStore(x, [x]));
    assert ExecAll(prog, m, NoStmts, 0, XStore(x, [x]), 0) == Done(XStore(x, [x]));
  }

  lemma XSteps(m: Mode, s: Stmt, x: int)
    ensures var prog := [Proc(0, 0, 1, Lexical(XScope()), s)];
            && InitStore(prog, []) == XStore(0, [])
            && EvalCond(OddOne(), prog[0].env, XStore(x, []).frames) == Val(1)
            && Exec(prog, m, Empty, 0, XStore(x, []), 0) == Done(XStore(x, []))
            && Exec(prog, m, Guarded(), 0, XStore(x, []), 0) == Done(XStore(1, []))
            && ExecAll(prog, m, AfterElse(), 0, XStore(x, []), 0) == Done(XStore(x, [x]))
  {
    hide Guarded, AfterElse;
    var prog := [Proc(0, 0, 1, Lexical(XScope()), s)];
    assert InitStore(prog, []).frames[0].vars == [Some(0)];
    ConstValue(1, prog[0].env, XStore(x, []).frames);
    XAssign(m, s, x);
    XWrite(m, s, x);
  }

  /**
    var x; begin if odd 1 then else x := 1; write x end. PL/0 does nothing, 1 being odd, and
    writes 0; parsed, compiled and run, the program assigns all the same and writes 1.
   */
  lemma ElseDeviates() returns (s': State)
    ensures var o := ExecProgram(LexProgram(MeantBlock()), STANDARD, [], 0); o.Done? && o.st.output == [0]
    ensures TextOf(RenderProgram(MeantBlock()), LostBlock())
    ensures Reaches(CompiledCode(RenderProgram(MeantBlock())), InitState([]), s') && s'.status == IDLE
            && s'.output == [1]
  {
    hide LexProgram, RenderProgram, ParseProgram, CompiledCode, Compilable, EvalCond;
    LostMeans();
    LostParse();
    LostCompilable();
    LostLength();
    LostMeaning(LostBlock().body);
    UnpaddedProgram(LostBlock());
    s' := CompilesLex(RenderProgram(MeantBlock()), LostBlock(), NoPads(1), [], 0);
  }

  lemma LostMeans()
    ensures ExecProgram(LexProgram(MeantBlock()), STANDARD, [], 0) == Done(XStore(0, [0]))
    ensures ExecProgram(LexProgram(LostBlock()), IMPLEMENTED, [], 0) == Done(XStore(1, [1]))
  {
    hide LexProgram, EvalCond, Guarded, AfterElse;
    LostMeaning(MeantBlock().body);
    LostMeaning(LostBlock().body);
    XSteps(STANDARD, MeantBlock().body, 0);
    XSteps(IMPLEMENTED, LostBlock().body, 0);
    XSteps(IMPLEMENTED, LostBlock().body, 1);
    var prog := LexProgram(LostBlock());
    assert ExecAll(prog, IMPLEMENTED, LostBlock().body.rest, 0, XStore(0, []), 0) == Done(XStore(1, [1]));
    assert Exec(prog, IMPLEMENTED, LostBlock().body.first, 0, XStore(0, []), 0) == Done(XStore(0, []));
  }
}
