/** The errors the parser reports: for every number, the text that draws it, whatever stands behind. */
module Rejections {
  import opened Common
  import opened Machine
  import opened Syntax
  import opened Symbols
  import opened CodeSets
  import opened Parsing
  import opened Emission
  import opened RoundTrip
  import opened Tolerance

  function On(st: PState, toks: seq<Token>): PState {
    st.(rest := toks)
  }

  /** The next token of the parser and the one behind it. */
  lemma Two(st: PState, t: Token, u: Token, rest: seq<Token>)
    requires u.kind != commentsym
    ensures var a := On(st, [t, u] + rest);
            && a.Kind() == t.kind && a.Name() == t.name && a.Next() == On(st, [u] + rest)
            && a.Next().Kind() == u.kind && a.Next().Name() == u.name
  {
    assert [t, u] + rest == [t] + ([u] + rest);
    NextOf(On(st, [t, u] + rest), t, [u] + rest);
  }

  /** A statement that begins with `call`, `read` or `write`. */
  lemma NameStmts(st: PState, u: Token, rest: seq<Token>, fsys: set<Kind>)
    requires u.kind != commentsym
    ensures ParseStmt(On(st, [Sym(callsym), u] + rest), fsys) == ParseCall(On(st, [Sym(callsym), u] + rest))
    ensures ParseStmt(On(st, [Sym(readsym), u] + rest), fsys) == ParseRead(On(st, [Sym(readsym), u] + rest))
    ensures ParseStmt(On(st, [Sym(writesym), u] + rest), fsys) == ParseWrite(On(st, [Sym(writesym), u] + rest))
  {
    hide ParseStmt, ParseCall, ParseRead, ParseWrite;
    DispatchName(On(st, [Sym(callsym), u] + rest), fsys);
    DispatchName(On(st, [Sym(readsym), u] + rest), fsys);
    DispatchName(On(st, [Sym(writesym), u] + rest), fsys);
  }

  /** Error 11: a name that means nothing here; but an assignment to one crashes the compiler. */
  lemma UnknownName(st: PState, x: string, rest: seq<Token>, fsys: set<Kind>)
    requires st.Lookup(x) == None
    ensures ParseFactor(On(st, [Id(x)] + rest), fsys) == Err(11)
    ensures ParseStmt(On(st, [Sym(callsym), Id(x)] + rest), fsys) == Err(11)
    ensures ParseStmt(On(st, [Sym(readsym), Id(x)] + rest), fsys) == Err(11)
    ensures ParseStmt(On(st, [Sym(writesym), Id(x)] + rest), fsys) == Err(11)
  {
    hide GetSymbol, NextToken, ParseStmt, ParseExpr, AppendAll;
    NameStmts(st, Id(x), rest, fsys);
    Two(st, Sym(callsym), Id(x), rest);
    Two(st, Sym(readsym), Id(x), rest);
    Two(st, Sym(writesym), Id(x), rest);
  }

  lemma UnknownTarget(st: PState, x: string, e: Expr, rest: seq<Token>, fsys: set<Kind>)
    requires st.Lookup(x) == None && GoodExpr(e, st.Env()) && EndsExpr(rest)
    ensures ParseStmt(On(st, [Id(x), Sym(becomessym)] + (RenderExpr(e) + rest)), fsys) == Crash
  {
    hide GetSymbol, NextToken, ParseExpr, RenderExpr, GoodExpr;
    AssignHead(st, x, e, rest, fsys);
  }

  lemma AssignHead(st: PState, x: string, e: Expr, rest: seq<Token>, fsys: set<Kind>)
    requires GoodExpr(e, st.Env()) && EndsExpr(rest)
    ensures var a := On(st, [Id(x), Sym(becomessym)] + (RenderExpr(e) + rest));
            var r := ParseExpr(a.Next().Next(), fsys);
            && a.Kind() == identsym && a.Name() == x && a.Next().Kind() == becomessym
            && Gives(r, e, rest) && r.st.level == st.level && r.st.table == st.table
  {
    hide GetSymbol, NextToken, ParseExpr, RenderExpr, GoodExpr;
    var tail := RenderExpr(e) + rest;
    Two(st, Id(x), Sym(becomessym), tail);
    ExprStart(e, rest);
    NextOf(On(st, [Sym(becomessym)] + tail), Sym(becomessym), tail);
    ExprRound(e, On(st, tail), rest, fsys);
    ExprKeeps(On(st, tail), fsys);
  }

  lemma AssignTaken(st: PState, e: Expr, s: PState, fsys: set<Kind>)
    requires st.Kind() == identsym && st.Next().Kind() == becomessym && st.Next().Next().Lookup(st.Name()).Some?
    requires ParseExpr(st.Next().Next(), fsys) == Ok(e, s) && s.level == st.level && s.table == st.table
    ensures Gives(ParseStmt(st, fsys), Assign(st.Name(), e), s.rest)
  {
    hide NextToken, ParseExpr, ParseStmt, AppendAll, GetSymbol;
    Dispatch(st, fsys);
  }

  /** Assignment asks for no variable: a constant or a procedure does as well. */
  lemma AnyTarget(st: PState, x: string, e: Expr, rest: seq<Token>, fsys: set<Kind>)
    requires st.Lookup(x).Some? && GoodExpr(e, st.Env()) && EndsExpr(rest)
    ensures Gives(ParseStmt(On(st, [Id(x), Sym(becomessym)] + (RenderExpr(e) + rest)), fsys), Assign(x, e), rest)
  {
    hide GetSymbol, NextToken, ParseExpr, ParseStmt, RenderExpr, GoodExpr;
    AssignHead(st, x, e, rest, fsys);
    var a := On(st, [Id(x), Sym(becomessym)] + (RenderExpr(e) + rest));
    AssignTaken(a, e, ParseExpr(a.Next().Next(), fsys).st, fsys);
  }

  /** Error 21: a procedure in an expression. */
  lemma ProcedureValue(st: PState, x: string, rest: seq<Token>, fsys: set<Kind>)
    requires st.Lookup(x).Some? && st.Lookup(x).value.kind == PROC
    ensures ParseFactor(On(st, [Id(x)] + rest), fsys) == Err(21)
  {
    hide GetSymbol, NextToken, ParseExpr, AppendAll;
  }

  /** Errors 15 and 27: a name of a kind that has no place in a statement. */
  lemma WrongKind(st: PState, x: string, rest: seq<Token>, fsys: set<Kind>)
    requires st.Lookup(x).Some?
    ensures var kind := st.Lookup(x).value.kind;
            && (kind != PROC ==> ParseStmt(On(st, [Sym(callsym), Id(x)] + rest), fsys) == Err(15))
            && (kind != VAR ==> ParseStmt(On(st, [Sym(readsym), Id(x)] + rest), fsys) == Err(27))
            && (kind == PROC ==> ParseStmt(On(st, [Sym(writesym), Id(x)] + rest), fsys) == Err(27))
  {
    hide GetSymbol, NextToken, ParseStmt, AppendAll;
    NameStmts(st, Id(x), rest, fsys);
    Two(st, Sym(callsym), Id(x), rest);
    Two(st, Sym(readsym), Id(x), rest);
    Two(st, Sym(writesym), Id(x), rest);
  }

  /** Errors 14, 27, 28 and 30: a statement whose second token is not the one it needs. */
  lemma WrongSecond(st: PState, x: string, t: Token, rest: seq<Token>, fsys: set<Kind>)
    requires t.kind != commentsym
    ensures t.kind != identsym ==> ParseStmt(On(st, [Sym(callsym), t] + rest), fsys) == Err(14)
    ensures t.kind != identsym ==> ParseStmt(On(st, [Sym(readsym), t] + rest), fsys) == Err(27)
    ensures t.kind != identsym ==> ParseStmt(On(st, [Sym(writesym), t] + rest), fsys) == Err(28)
    ensures t.kind !in {becomessym, eqlsym} ==> ParseStmt(On(st, [Id(x), t] + rest), fsys) == Err(30)
  {
    hide GetSymbol, NextToken;
    Two(st, Sym(callsym), t, rest);
    Two(st, Sym(readsym), t, rest);
    Two(st, Sym(writesym), t, rest);
    Two(st, Id(x), t, rest);
  }

  /** Error 23: what can follow a factor stands in the place of one. */
  lemma NoFactor(st: PState, t: Token, rest: seq<Token>, fsys: set<Kind>)
    requires t.kind in fsys && t.kind !in {identsym, numbersym, lparentsym}
    ensures ParseFactor(On(st, [t] + rest), fsys) == Err(23)
  {
  }

  /** Error 20: an expression without a relation behind it. */
  lemma NoRelation(st: PState, e: Expr, rest: seq<Token>, fsys: set<Kind>)
    requires GoodExpr(e, st.Env()) && EndsExpr(rest)
    requires KindOf(rest) !in {eqlsym, neqsym, lessym, leqsym, gtrsym, geqsym}
    ensures ParseCond(On(st, RenderExpr(e) + rest), fsys) == Err(20)
  {
    hide NextToken, ParseExpr, RenderExpr, GoodExpr;
    ExprStart(e, rest);
    ExprRound(e, On(st, RenderExpr(e) + rest), rest, RELSET + fsys);
  }

  /** Errors 16 and 18: a condition without its `then` or `do`. */
  lemma NoThenOrDo(st: PState, c: Cond, rest: seq<Token>, fsys: set<Kind>)
    requires GoodCond(c, st.Env()) && EndsExpr(rest)
    ensures KindOf(rest) != thensym ==> ParseStmt(On(st, [Sym(ifsym)] + (RenderCond(c) + rest)), fsys) == Err(16)
    ensures KindOf(rest) != dosym ==> ParseStmt(On(st, [Sym(whilesym)] + (RenderCond(c) + rest)), fsys) == Err(18)
  {
    hide NextToken, ParseCond, RenderCond, GoodCond, ParseStmt;
    var tail := RenderCond(c) + rest;
    CondStart(c, rest);
    var a, b := On(st, [Sym(ifsym)] + tail), On(st, [Sym(whilesym)] + tail);
    NextOf(a, Sym(ifsym), tail);
    NextOf(b, Sym(whilesym), tail);
    CondRound(c, a.Next(), rest, {thensym, dosym} + fsys);
    CondRound(c, b.Next(), rest, {dosym} + fsys);
    Dispatch(a, fsys);
    Dispatch(b, fsys);
  }

  /** Error 26: a list of statements that neither goes on nor comes to an `end`. */
  lemma NoEnd(st: PState, x: string, rest: seq<Token>, fsys: set<Kind>)
    requires st.Lookup(x).Some? && st.Lookup(x).value.kind == PROC && Clean(rest)
    requires KindOf(rest) !in {semicolonsym, endsym, identsym, callsym, beginsym, ifsym, whilesym, readsym, writesym}
    ensures ParseStmt(On(st, [Sym(beginsym)] + ([Sym(callsym), Id(x)] + rest)), fsys) == Err(26)
  {
    hide NextToken, ParseStmt, ParseStmts, AppendAll, GetSymbol;
    var follow := {semicolonsym, endsym} + fsys;
    var a := On(st, [Sym(beginsym)] + ([Sym(callsym), Id(x)] + rest));
    NextOf(a, Sym(beginsym), [Sym(callsym), Id(x)] + rest);
    CallTail(st, x, rest, follow);
    var s := ParseStmt(a.Next(), follow).st;
    ListEnds(s, follow);
    Dispatch(a, fsys);
  }

  lemma CallTail(st: PState, x: string, rest: seq<Token>, fsys: set<Kind>)
    requires st.Lookup(x).Some? && st.Lookup(x).value.kind == PROC && Clean(rest)
    ensures Gives(ParseStmt(On(st, [Sym(callsym), Id(x)] + rest), fsys), Call(x), rest)
  {
    hide NextToken, AppendAll, GetSymbol;
    Two(st, Sym(callsym), Id(x), rest);
    NextOf(On(st, [Id(x)] + rest), Id(x), rest);
    var b, s := On(st, [Id(x)] + rest), st.Lookup(x).value;
    assert b.Emit(CAL, 0, st.level - s.level, s.addr).Next().rest == NextToken(b.rest);
  }

  /** Errors 1 to 4: a constant without name, `=` or number. */
  lemma BadConst(st: PState, x: string, t: Token, rest: seq<Token>)
    requires t.kind != commentsym
    ensures t.kind != identsym ==> ParseConst(On(st, [Sym(constsym), t] + rest)) == Err(4)
    ensures t.kind != eqlsym ==>
      ParseConst(On(st, [Sym(constsym), Id(x)] + ([t] + rest))) == Err(if t.kind == becomessym then 1 else 3)
    ensures t.kind != numbersym ==> ParseConst(On(st, [Sym(constsym), Id(x)] + ([Sym(eqlsym), t] + rest))) == Err(2)
  {
    hide NextToken, PutSymbol;
    Two(st, Sym(constsym), t, rest);
    Two(st, Sym(constsym), Id(x), [t] + rest);
    NextOf(On(st, [Id(x)] + ([t] + rest)), Id(x), [t] + rest);
    Two(st, Sym(constsym), Id(x), [Sym(eqlsym), t] + rest);
    NextOf(On(st, [Id(x)] + ([Sym(eqlsym), t] + rest)), Id(x), [Sym(eqlsym), t] + rest);
    Two(st, Sym(eqlsym), t, rest);
  }

  /** Errors 4, 5 and 6: a variable or procedure without name, or without the separator behind it. */
  lemma BadDeclaration(st: PState, x: string, t: Token, rest: seq<Token>, fsys: set<Kind>)
    requires t.kind != commentsym && 0 <= st.level < |st.offsets|
    ensures t.kind != identsym ==> ParseVars(On(st, [Sym(varsym), t] + rest)) == Err(4)
    ensures t.kind !in {commasym, semicolonsym} ==> ParseVars(On(st, [Sym(varsym), Id(x)] + ([t] + rest))) == Err(5)
    ensures t.kind != identsym ==> ParseProc(On(st, [Sym(procsym), t] + rest), fsys) == Err(4)
    ensures t.kind != semicolonsym ==> ParseProc(On(st, [Sym(procsym), Id(x)] + ([t] + rest)), fsys) == Err(6)
  {
    hide NextToken, PutSymbol, ParseBlock, FreeSet;
    Two(st, Sym(varsym), t, rest);
    Two(st, Sym(procsym), t, rest);
    Two(st, Sym(varsym), Id(x), [t] + rest);
    Two(st, Sym(procsym), Id(x), [t] + rest);
    NextOf(MakeVar(On(st, [Id(x)] + ([t] + rest)), x), Id(x), [t] + rest);
    NextOf(MakeProc(On(st, [Id(x)] + ([t] + rest)), x), Id(x), [t] + rest);
  }

  /** A second section of constants right behind the first crashes the compiler. */
  lemma SecondConsts(st: PState, fsys: set<Kind>)
    requires st.Kind() == constsym && ParseConsts(st).Ok? && ParseConsts(st).st.Kind() == constsym
    ensures ParseDecls(st, fsys, Sections(false, false, false)) == Crash
  {
    hide ParseConsts, NextToken;
    var (d, st1) := ParseConsts(st).Extract();
    assert ParseSections(st, fsys, Sections(false, false, false))
        == Ok((AppendDecls(d, NoDecls), Sections(true, false, false)), st1);
    CrashesThere(st1.(cur := st.cur), fsys, Sections(true, false, false));
  }

  /** So does a second section of variables. */
  lemma SecondVars(st: PState, fsys: set<Kind>)
    requires st.Kind() == varsym && ParseVars(st).Ok? && ParseVars(st).st.Kind() == varsym
    ensures ParseDecls(st, fsys, Sections(false, false, false)) == Crash
  {
    hide ParseVars, NextToken;
    var (d, st1) := ParseVars(st).Extract();
    assert ParseSections(st, fsys, Sections(false, false, false))
        == Ok((AppendDecls(NoDecls, AppendDecls(d, NoDecls)), Sections(false, true, false)), st1);
    CrashesThere(st1.(cur := st.cur), fsys, Sections(false, true, false));
  }

  lemma CrashesThere(st: PState, fsys: set<Kind>, had: Sections)
    requires (st.Kind() == constsym && had.consts) || (st.Kind() == varsym && had.vars)
    ensures Test(st, STATBEGSYS + {identsym}, DECLBEGSYS) == st && ParseDecls(st, fsys, had) == Crash
  {
  }
}
