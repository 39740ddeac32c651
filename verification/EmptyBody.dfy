/**
  What becomes of a procedure whose body is the empty statement: the parser wants a statement
  behind the declarations, skips the semicolon in search of one, and takes what comes behind it.
 */
module EmptyBody {
  import opened Machine
  import opened Syntax
  import opened Symbols
  import opened Emission
  import opened Parsing
  import opened Programs
  import opened RoundTrip
  import opened RoundTripProgram

  /** Behind a semicolon where a body should be, the parser takes the statement there for the body. */
  lemma BodyTaken(st: PState, rest: seq<Token>, fsys: set<Kind>)
    requires st.rest == [Sym(semicolonsym)] + rest && KindOf(rest) in STATBEGSYS
    ensures ParseBlock(st, fsys) == ParseBlock(st.(rest := rest), fsys)
  {
    var had := Sections(false, false, false);
    var there := st.(rest := rest);
    assert st.rest[1..] == rest;
    assert NextToken(st.rest) == rest && st.Kind() == semicolonsym && there.Kind() == KindOf(rest);
    assert STATBEGSYS !! DECLBEGSYS;
    hide NextToken, ParseSections;
    assert ParseSections(st, fsys, had) == Ok((NoDecls, had), st);
    assert ParseSections(there, fsys, had) == Ok((NoDecls, had), there);
    SkipOne(st, rest);
    assert Test(there.(cur := there.cur), STATBEGSYS + {identsym}, DECLBEGSYS) == there;
    assert ParseDecls(st, fsys, had) == Ok(NoDecls, there) == ParseDecls(there, fsys, had);
    hide ParseDecls, ParseStmt;
  }

  lemma SkipOne(st: PState, rest: seq<Token>)
    requires st.rest == [Sym(semicolonsym)] + rest && KindOf(rest) in STATBEGSYS
    ensures Test(st, STATBEGSYS + {identsym}, DECLBEGSYS) == st.(rest := rest)
  {
    var s := STATBEGSYS + {identsym} + DECLBEGSYS;
    assert st.rest[1..] == rest;
    assert NextToken(st.rest) == rest;
    assert SkipTo(rest, s) == rest;
    assert SkipTo(st.rest, s) == SkipTo(rest, s);
  }

  function NoMain(): Stmt {
    Begin(Empty, NoStmts)
  }

  /** procedure p; ; begin end. */
  function EmptyBlock(): Block {
    Block(ProcDecl("p", Block(NoDecls, Empty), NoDecls), NoMain())
  }

  function LeftTokens(): seq<Token> {
    RenderStmt(NoMain()) + [Sym(periodsym)]
  }

  lemma EmptyTokens()
    ensures RenderProgram(EmptyBlock()) == [Sym(procsym)] +
            ([Id("p")] + ([Sym(semicolonsym)] + ([Sym(semicolonsym)] + LeftTokens())))
    ensures KindOf(LeftTokens()) == beginsym && Clean(LeftTokens())
  {
  }

  /** The begin..end of the program is parsed as the body of p. */
  lemma LeftParsed(st: PState, fsys: set<Kind>)
    requires st.rest == LeftTokens() && periodsym in fsys
    ensures var r := ParseBlock(st, fsys);
            r.Ok? && r.st.rest == [Sym(periodsym)]
  {
    EmptyTokens();
    hide NextToken, ParseSections, ParseStmt, RenderStmt, STATBEGSYS;
    var had := Sections(false, false, false);
    assert st.Kind() == beginsym && beginsym in STATBEGSYS by { BeginStarts(); }
    assert beginsym !in DECLBEGSYS;
    assert ParseDecls(st, fsys, had) == Ok(NoDecls, st);
    assert GoodStmts(NoStmts, st.Env()) && WritableAll(NoStmts);
    StmtRound(NoMain(), st, [Sym(periodsym)], {semicolonsym, endsym} + fsys);
    hide ParseDecls;
  }

  lemma BeginStarts()
    ensures beginsym in STATBEGSYS
  {
  }

  lemma ProcFails(st: PState, fsys: set<Kind>)
    requires st.rest == [Sym(procsym)] + ([Id("p")] + ([Sym(semicolonsym)] + ([Sym(semicolonsym)] + LeftTokens())))
    requires periodsym in fsys
    ensures st.Kind() == procsym && ParseProc(st, fsys) == Err(6)
  {
    EmptyTokens();
    hide NextToken, ParseBlock, LeftTokens, PutSymbol, FreeSet;
    var behind := [Sym(semicolonsym)] + LeftTokens();
    NextOf(st, Sym(procsym), [Id("p")] + ([Sym(semicolonsym)] + behind));
    var st1 := st.Next();
    NextOf(st1, Id("p"), [Sym(semicolonsym)] + behind);
    NextOf(MakeProc(st1, "p"), Id("p"), [Sym(semicolonsym)] + behind);
    var st2 := MakeProc(st1, "p").Next();
    NextOf(st2, Sym(semicolonsym), behind);
    var inner := st2.Next().(level := st2.level + 1);
    assert KindOf(LeftTokens()) in STATBEGSYS;
    BodyTaken(inner, LeftTokens(), {semicolonsym} + fsys);
    LeftParsed(inner.(rest := LeftTokens()), {semicolonsym} + fsys);
  }

  lemma EmptyChecked()
    ensures Checked(EmptyBlock()) && !BodiesWritable(EmptyBlock())
  {
    hide PutSymbol;
    var d := EmptyBlock().decls;
    assert Ordered(d.next, 2) && Ordered(d, 0);
    var s1 := Counters(PutSymbol(map[], Symbol("p", PROC, 0, 0, 1)), [4, 4, 4, 4, 4], 1);
    assert ElabDecls(NoDecls, 1, 1, s1).0 == s1;
    assert GoodBlock(d.block, 1, 1, s1);
    assert GoodDecls(d, 0, 0, InitCounters());
    assert !ProcsWritable(d);
  }

  /**
    The program is in order but for the empty body, and yet its text is rejected: behind the
    statement taken for p's body there is no semicolon.
   */
  lemma EmptyFails()
    ensures Checked(EmptyBlock()) && !BodiesWritable(EmptyBlock())
    ensures ParseProgram(RenderProgram(EmptyBlock())) == Err(6)
  {
    EmptyChecked();
    var toks := RenderProgram(EmptyBlock());
    EmptyTokens();
    hide NextToken, ParseProc, LeftTokens, RenderProgram, EmptyBlock, Checked, BodiesWritable;
    var st := InitParse(toks);
    assert st.rest == toks;
    ProcFails(st, PROGSYS);
    hide InitParse;
    assert ParseProcs(st, PROGSYS) == Err(6);
    assert ParseSections(st, PROGSYS, Sections(false, false, false)) == Err(6);
  }
}
