/** What the parser puts up with: texts outside the grammar it takes for the ones they stand for. */
module Tolerance {
  import opened Common
  import opened Machine
  import opened Syntax
  import opened Symbols
  import opened CodeSets
  import opened Parsing
  import opened Emission
  import opened RoundTrip
  import opened RoundTripProgram
  import opened Programs

  /** `=` does for `:=`. */
  lemma EqualsAssigns(st: PState, x: string, rest: seq<Token>, fsys: set<Kind>)
    requires Clean(rest)
    ensures ParseStmt(st.(rest := [Id(x), Sym(eqlsym)] + rest), fsys)
         == ParseStmt(st.(rest := [Id(x), Sym(becomessym)] + rest), fsys)
  {
    hide ParseStmt, ParseExpr, GetSymbol, AppendAll, NextToken;
    var a, b := st.(rest := [Id(x), Sym(eqlsym)] + rest), st.(rest := [Id(x), Sym(becomessym)] + rest);
    assert a.rest == [Id(x)] + ([Sym(eqlsym)] + rest) && b.rest == [Id(x)] + ([Sym(becomessym)] + rest);
    NextOf(a, Id(x), [Sym(eqlsym)] + rest);
    NextOf(b, Id(x), [Sym(becomessym)] + rest);
    NextOf(a.Next(), Sym(eqlsym), rest);
    NextOf(b.Next(), Sym(becomessym), rest);
    Dispatch(a, fsys);
    Dispatch(b, fsys);
  }

  /** A semicolon in front of a statement may be missing. */
  lemma SemicolonOptional(st: PState, rest: seq<Token>, follow: set<Kind>)
    requires KindOf(rest) in {identsym, callsym, beginsym, ifsym, whilesym, readsym, writesym}
    ensures ParseStmts(st.(rest := [Sym(semicolonsym)] + rest), follow) == ParseStmts(st.(rest := rest), follow)
  {
    hide ParseStmt;
    var a := st.(rest := [Sym(semicolonsym)] + rest);
    NextOf(a, Sym(semicolonsym), rest);
  }

  /** Nothing but a semicolon or the beginning of a statement carries a list of statements on. */
  lemma ListEnds(st: PState, follow: set<Kind>)
    requires st.Kind() !in {semicolonsym, identsym, callsym, beginsym, ifsym, whilesym, readsym, writesym}
    ensures ParseStmts(st, follow) == Ok(NoStmts, st)
  {
  }

  /** So may the parenthesis that closes an expression, in front of what can follow the factor. */
  lemma ClosingOptional(st: PState, e: Expr, rest: seq<Token>, fsys: set<Kind>)
    requires st.rest == [Sym(lparentsym)] + RenderExpr(e) + rest && GoodExpr(e, st.Env())
    requires EndsExpr(rest) && rest != [] && KindOf(rest) in fsys && KindOf(rest) != rparentsym
    ensures Gives(ParseFactor(st, fsys), Paren(e), rest)
  {
    hide NextToken, ParseExpr, RenderExpr, GoodExpr, AppendAll, SkipTo, GetSymbol, EndsExpr;
    EndsHere(rest);
    assert st.rest == [Sym(lparentsym)] + (RenderExpr(e) + rest);
    ExprStart(e, rest);
    NextOf(st, Sym(lparentsym), RenderExpr(e) + rest);
    ExprRound(e, st.Next(), rest, {rparentsym} + fsys);
  }

  lemma EndsHere(rest: seq<Token>)
    requires EndsExpr(rest)
    ensures Clean(rest)
  {
  }

  /** An expression in parentheses and nothing else. */
  function Only(e: Expr): Expr {
    Expr(NoSign, Term(Paren(e), NoFactors), NoTerms)
  }

  /**
    In front of `=`, `<>`, `<`, `<=`, `>` or `>=` it may be missing, with any stray tokens in its
    place or none. Neither the relations nor what can follow the condition are passed over.
   */
  lemma ClosingBeforeRelation(st: PState, l: Expr, stray: seq<Token>, op: RelOp, r: Expr, rest: seq<Token>,
                              fsys: set<Kind>)
    requires var tail := [Sym(RelKind(op))] + (RenderExpr(r) + rest);
             st.rest == [Sym(lparentsym)] + RenderExpr(l) + (stray + tail)
    requires GoodExpr(l, st.Env()) && GoodExpr(r, st.Env()) && EndsExpr(rest)
    requires forall t :: t in stray ==>
      && t.kind !in fsys + {eqlsym, neqsym, lessym, leqsym, gtrsym, geqsym}
      && t.kind !in {plussym, minussym, multsym, slashsym, lparentsym, rparentsym, nulsym, commentsym}
    ensures Gives(ParseCond(st, fsys), Compare(op, Only(l), r), rest)
  {
    hide NextToken, ParseExpr, ParseCond, RenderExpr, GoodExpr, AppendAll;
    var tail := [Sym(RelKind(op))] + (RenderExpr(r) + rest);
    var s := OnlyRound(st, l, stray, tail, RELSET + fsys);
    ExprStart(r, rest);
    ExprKeeps(st, RELSET + fsys);
    NextOf(s, Sym(RelKind(op)), RenderExpr(r) + rest);
    ExprRound(r, s.Next(), rest, fsys);
    RelationTaken(st, Only(l), s, op, r, rest, fsys);
  }

  lemma RelationTaken(st: PState, l: Expr, s: PState, op: RelOp, r: Expr, rest: seq<Token>, fsys: set<Kind>)
    requires st.Kind() != oddsym && ParseExpr(st, RELSET + fsys) == Ok(l, s) && s.Kind() == RelKind(op)
    requires Gives(ParseExpr(s.Next(), fsys), r, rest)
    ensures Gives(ParseCond(st, fsys), Compare(op, l, r), rest)
  {
    hide NextToken, ParseExpr, AppendAll;
  }

  lemma OnlyRound(st: PState, e: Expr, stray: seq<Token>, tail: seq<Token>, fsys: set<Kind>) returns (s: PState)
    requires st.rest == [Sym(lparentsym)] + RenderExpr(e) + (stray + tail) && GoodExpr(e, st.Env())
    requires EndsExpr(tail) && tail != [] && KindOf(tail) in fsys && KindOf(tail) != rparentsym
    requires forall t :: t in stray ==>
      t.kind !in fsys + {plussym, minussym, multsym, slashsym, lparentsym, rparentsym, nulsym, commentsym}
    ensures ParseExpr(st, fsys) == Ok(Only(e), s) && s.rest == tail
  {
    hide NextToken, ParseFactor, RenderExpr, GoodExpr, AppendAll;
    var follow := fsys + {multsym, slashsym};
    var inner := follow + {multsym, slashsym};
    if stray == [] {
      assert stray + tail == tail;
      ClosingOptional(st, e, tail, inner);
    } else {
      StrayClosing(st, e, stray, tail, inner);
    }
    assert st.Kind() == lparentsym;
    s := ParseFactor(st, inner).st;
    assert ParseFactors(s, inner) == Ok(NoFactors, s) && ParseTerms(s, follow) == Ok(NoTerms, s);
    assert ParseTerm(st, NoSign, follow) == Ok(Term(Paren(e), NoFactors), s);
  }

  /** Stray tokens in the place of the closing parenthesis. */
  lemma StrayClosing(st: PState, e: Expr, stray: seq<Token>, rest: seq<Token>, fsys: set<Kind>)
    requires st.rest == [Sym(lparentsym)] + RenderExpr(e) + (stray + rest) && GoodExpr(e, st.Env()) && stray != []
    requires EndsExpr(rest) && rest != [] && KindOf(rest) in fsys
    requires forall t :: t in stray ==>
      t.kind !in fsys + {plussym, minussym, multsym, slashsym, lparentsym, rparentsym, nulsym, commentsym}
    ensures Gives(ParseFactor(st, fsys), Paren(e), rest)
  {
    hide ParseExpr, RenderExpr, GoodExpr, AppendAll, SkipTo, NextToken;
    var tail := stray + rest;
    assert tail[0] == stray[0];
    assert st.rest == [Sym(lparentsym)] + (RenderExpr(e) + tail);
    ExprStart(e, tail);
    NextOf(st, Sym(lparentsym), RenderExpr(e) + tail);
    ExprRound(e, st.Next(), tail, {rparentsym} + fsys);
    StraysSkipped(stray, rest, fsys + {lparentsym});
  }

  lemma {:induction false} StraysSkipped(stray: seq<Token>, rest: seq<Token>, s: set<Kind>)
    requires rest != [] && KindOf(rest) in s && Clean(rest)
    requires forall t :: t in stray ==> t.kind !in s && t.kind != nulsym && t.kind != commentsym
    ensures SkipTo(stray + rest, s) == rest
    decreases |stray|
  {
    if stray == [] {
      assert stray + rest == rest;
    } else {
      assert (stray + rest)[1..] == stray[1..] + rest;
      StraysSkipped(stray[1..], rest, s);
    }
  }

  // ---------- skipping ----------

  /** `r` is what is left of `rest` from the first token of `s`, or the first nulsym, on. */
  predicate StopsAt(rest: seq<Token>, s: set<Kind>, r: seq<Token>) {
    && |r| <= |rest| && r == rest[|rest| - |r|..]
    && (forall i :: 0 <= i < |rest| - |r| ==> rest[i].kind !in s && rest[i].kind != nulsym)
    && (r == [] || r[0].kind in s || r[0].kind == nulsym)
  }

  /** Where skipping stops: at the end, or at the first token of the set, or the first nulsym. */
  lemma SkipToExact(rest: seq<Token>, s: set<Kind>, r: seq<Token>)
    requires forall t :: t in rest ==> t.kind != commentsym
    ensures SkipTo(rest, s) == r <==> StopsAt(rest, s, r)
  {
    hide StopsAt;
    SkipToStops(rest, s);
    if StopsAt(rest, s, r) {
      OneStop(rest, s, r, SkipTo(rest, s));
    }
  }

  lemma {:induction false} SkipToStops(rest: seq<Token>, s: set<Kind>)
    requires forall t :: t in rest ==> t.kind != commentsym
    ensures StopsAt(rest, s, SkipTo(rest, s))
    decreases |rest|
  {
    if rest == [] || rest[0].kind in s || rest[0].kind == nulsym {
      assert rest[0..] == rest;
    } else {
      assert NextToken(rest) == rest[1..];
      SkipToStops(rest[1..], s);
      var r := SkipTo(rest[1..], s);
      assert rest[|rest| - |r|..] == rest[1..][|rest| - 1 - |r|..];
      assert forall i :: 0 < i < |rest| - |r| ==> rest[i] == rest[1..][i - 1];
    }
  }

  lemma OneStop(rest: seq<Token>, s: set<Kind>, a: seq<Token>, b: seq<Token>)
    requires StopsAt(rest, s, a) && StopsAt(rest, s, b)
    ensures a == b
  {
    assert a != [] ==> a[0] == rest[|rest| - |a|];
    assert b != [] ==> b[0] == rest[|rest| - |b|];
  }

  /** Recovery makes no difference between a token of neither set and the one behind it. */
  lemma TestPassed(st: PState, t: Token, rest: seq<Token>, s1: set<Kind>, s2: set<Kind>)
    requires t.kind !in s1 + s2 && t.kind != nulsym && Clean(rest)
    ensures Test(st.(rest := [t] + rest), s1, s2).rest == SkipTo(rest, s1 + s2)
    ensures Test(st.(rest := [t] + rest), s1, s2) == Test(st.(rest := rest), s1, s2)
  {
    var a, b := st.(rest := [t] + rest), st.(rest := rest);
    NextOf(a, t, rest);
    assert SkipTo([t] + rest, s1 + s2) == SkipTo(rest, s1 + s2);
    assert Test(a, s1, s2) == st.(rest := SkipTo(rest, s1 + s2));
  }

  /** A stray token in front of a factor is passed over, unless it can follow one. */
  lemma StrayPassed(st: PState, t: Token, rest: seq<Token>, fsys: set<Kind>)
    requires t.kind !in fsys + {identsym, numbersym, lparentsym, nulsym} && Clean(rest)
    ensures ParseFactor(st.(rest := [t] + rest), fsys) == ParseFactor(st.(rest := rest), fsys)
  {
    hide ParseExpr, GetSymbol, AppendAll, Test, NextToken;
    TestPassed(st, t, rest, FACBEGSYS, fsys);
  }

  /** So is one in front of a declaration or of the statement of a block. */
  lemma StrayInBlock(st: PState, t: Token, rest: seq<Token>, fsys: set<Kind>, had: Sections)
    requires t.kind !in {constsym, varsym, procsym, nulsym}
    requires t.kind !in {identsym, callsym, beginsym, ifsym, whilesym, readsym, writesym}
    requires Clean(rest)
    ensures ParseDecls(st.(rest := [t] + rest), fsys, had) == ParseDecls(st.(rest := rest), fsys, had)
  {
    hide ParseSections, NextToken;
    var a, b := st.(rest := [t] + rest), st.(rest := rest);
    var s1, s2 := STATBEGSYS + {identsym}, DECLBEGSYS;
    TestPassed(st, t, rest, s1, s2);
    var a2 := Test(a, s1, s2);
    assert ParseSections(a, fsys, had) == Ok((NoDecls, had), a);
    NothingAdded(a2, fsys, had);
    if b.Kind() in DECLBEGSYS {
      assert a2 == b;
    } else {
      assert Test(b, s1, s2) == a2;
    }
  }

  lemma NothingAdded(st: PState, fsys: set<Kind>, had: Sections)
    ensures var r := ParseDecls(st, fsys, had); r.Ok? ==> AppendDecls(NoDecls, r.value) == r.value
  {
    hide ParseDecls;
  }

  /** And one behind a procedure, unless a statement, a procedure or what can follow the block starts there. */
  lemma StrayBehindProcedure(st: PState, t: Token, rest: seq<Token>, x: string, blk: Block, fsys: set<Kind>)
    requires t.kind !in fsys + {procsym, nulsym, commentsym} && Clean(rest)
    requires t.kind !in {identsym, callsym, beginsym, ifsym, whilesym, readsym, writesym}
    ensures EndProc(st.(rest := [Sym(semicolonsym)] + ([t] + rest)), x, blk, fsys)
         == EndProc(st.(rest := [Sym(semicolonsym)] + rest), x, blk, fsys)
  {
    hide Prepend, Test, NextToken;
    NextOf(st.(rest := [Sym(semicolonsym)] + ([t] + rest)), Sym(semicolonsym), [t] + rest);
    NextOf(st.(rest := [Sym(semicolonsym)] + rest), Sym(semicolonsym), rest);
    TestPassed(st, t, rest, STATBEGSYS + {identsym, procsym}, fsys);
  }

  // ---------- numbers ----------

  /** A number is taken up to 90000 in an expression. */
  lemma NumberLimit(st: PState, v: int, rest: seq<Token>, fsys: set<Kind>)
    requires Clean(rest)
    ensures var r := ParseFactor(st.(rest := [Num(v)] + rest), fsys);
            if v <= 90000 then Gives(r, Number(v), rest) else r == Err(25)
  {
    hide ParseExpr, AppendAll;
    NextOf(st.(rest := [Num(v)] + rest), Num(v), rest);
  }

  /** And in a declaration. */
  lemma ConstLimit(st: PState, x: string, v: int, rest: seq<Token>)
    requires Clean(rest) && 0 <= st.level < |st.offsets|
    ensures var r := ParseConst(st.(rest := [Sym(constsym), Id(x), Sym(eqlsym), Num(v)] + rest));
            if v <= 90000 then Gives(r, (x, v), rest) else r == Err(25)
  {
    hide NextToken, MakeConst;
    ConstTokens(st, x, v, rest);
    var s := st.(rest := [Num(v)] + rest);
    ConstRest(s, x, v);
    NextOf(MakeConst(s, x, v), Num(v), rest);
  }

  lemma ConstRest(st: PState, x: string, v: int)
    ensures MakeConst(st, x, v).rest == st.rest
  {
    hide PutSymbol;
  }

  /** The tokens of a constant one by one. */
  lemma ConstTokens(st: PState, x: string, v: int, rest: seq<Token>)
    requires Clean(rest)
    ensures var a := st.(rest := [Sym(constsym), Id(x), Sym(eqlsym), Num(v)] + rest);
            var b := a.Next().Next();
            && a.Next().Kind() == identsym && a.Next().Name() == x && b.Kind() == eqlsym
            && b.Next() == st.(rest := [Num(v)] + rest) && b.Next().Kind() == numbersym && b.Next().Value() == v
  {
    hide NextToken;
    var a := st.(rest := [Sym(constsym), Id(x), Sym(eqlsym), Num(v)] + rest);
    assert a.rest == [Sym(constsym)] + ([Id(x)] + ([Sym(eqlsym)] + ([Num(v)] + rest)));
    NextOf(a, Sym(constsym), [Id(x)] + ([Sym(eqlsym)] + ([Num(v)] + rest)));
    NextOf(a.Next(), Id(x), [Sym(eqlsym)] + ([Num(v)] + rest));
    NextOf(a.Next().Next(), Sym(eqlsym), [Num(v)] + rest);
  }

  // ---------- behind a program ----------

  /** The block of a program, and what the search for the period leaves of the tokens behind it. */
  lemma BlockTail(b: Block, rest: seq<Token>)
    requires Acceptable(b) && !EndsOpen(b.body) && EndsExpr(rest)
    ensures var st := InitParse(RenderBlock(b) + rest);
            Gives(ParseBlock(st, PROGSYS), b, if KindOf(rest) in PROGSYS then rest else SkipTo(rest, PROGSYS + {}))
  {
    hide ParseDecls, ParseStmt, RenderConsts, RenderVars, RenderProcs, RenderStmt, GoodStmt, ElabDecls, GoodDecls,
         ProcsWritable, Ordered, Writable, SkipTo;
    var toks := RenderBlock(b) + rest;
    var st := InitParse(toks);
    InitFresh(toks);
    GoodParts(b, 0, 0, InitCounters());
    BlockStart(b, rest);
    assert st.rest == toks;
    var body := RenderStmt(b.body) + rest;
    StmtStart(b.body, rest);
    assert st.rest == RenderConsts(b.decls, true) + (RenderVars(b.decls, true) + (RenderProcs(b.decls) + body));
    DeclsRound(b.decls, st, body, PROGSYS, 0);
    DeclsDeclare(st, PROGSYS, Sections(false, false, false), 0);
    var st1 := ParseDecls(st, PROGSYS, Sections(false, false, false)).st;
    DeclaredCounters(st, st1, 0, b.decls);
    StmtRound(b.body, st1, rest, {semicolonsym, endsym} + PROGSYS);
  }

  /**
    Behind the statement of a program the parser passes over everything up to a period, or a token
    that starts a declaration or a statement: the program is taken at a period or at the end of the
    text, and rejected with error 9 elsewhere.
   */
  lemma TailExact(b: Block, rest: seq<Token>)
    requires Acceptable(b) && !EndsOpen(b.body) && EndsExpr(rest)
    ensures var r := ParseProgram(RenderBlock(b) + rest);
            var stop := SkipTo(rest, {periodsym, constsym, varsym, procsym,
                                      identsym, callsym, beginsym, ifsym, whilesym, readsym, writesym});
            if KindOf(stop) in {periodsym, nulsym} then r.Ok? && r.value == b else r == Err(9)
  {
    hide ParseBlock, InitParse, EndsOpen, EndsExpr, Acceptable, RenderBlock;
    BlockTail(b, rest);
    assert PROGSYS + {} == {periodsym, constsym, varsym, procsym,
                            identsym, callsym, beginsym, ifsym, whilesym, readsym, writesym};
  }
}
