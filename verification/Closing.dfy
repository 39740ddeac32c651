/** A closing parenthesis left out where an expression ends: the statement around it comes out as if it were there. */
module Closing {
  import opened Common
  import opened Machine
  import opened Syntax
  import opened Symbols
  import opened Compile
  import opened CodeSets
  import opened Parsing
  import opened Emission
  import opened RoundTrip
  import opened Tolerance
  import opened Rejections

  /** Conditions with the same tree that stop at the same place come out the same in all else. */
  lemma SameCond(a: PState, b: PState, c: Cond, rest: seq<Token>, fsys: set<Kind>)
    requires a == b.(rest := a.rest)
    requires Gives(ParseCond(a, fsys), c, rest) && Gives(ParseCond(b, fsys), c, rest)
    ensures ParseCond(a, fsys) == ParseCond(b, fsys)
  {
    hide ParseCond, CompileCond, GoodCond, GetSymbol, AppendAll;
    CondEmits(a, fsys);
    CondEmits(b, fsys);
  }

  lemma SameStmt(a: PState, b: PState, s: Stmt, rest: seq<Token>, fsys: set<Kind>)
    requires a == b.(rest := a.rest)
    requires Gives(ParseStmt(a, fsys), s, rest) && Gives(ParseStmt(b, fsys), s, rest)
    ensures ParseStmt(a, fsys) == ParseStmt(b, fsys)
  {
    hide ParseStmt, CompileStmt, GoodStmt, GetSymbol, AppendAll;
    StmtEmits(a, fsys);
    StmtEmits(b, fsys);
  }

  lemma OnlyOpen(st: PState, e: Expr, tail: seq<Token>, fsys: set<Kind>) returns (s: PState)
    requires st.rest == [Sym(lparentsym)] + RenderExpr(e) + tail && GoodExpr(e, st.Env())
    requires EndsExpr(tail) && tail != [] && KindOf(tail) in fsys && KindOf(tail) != rparentsym
    ensures ParseExpr(st, fsys) == Ok(Only(e), s) && s.rest == tail
  {
    hide ParseExpr, RenderExpr, GoodExpr;
    assert [] + tail == tail;
    s := OnlyRound(st, e, [], tail, fsys);
  }

  /** A relation between `l` and `r` with the second in parentheses, all but the closing one, and what follows. */
  function Opened(l: Expr, op: RelOp, r: Expr, tail: seq<Token>): seq<Token> {
    RenderExpr(l) + ([Sym(RelKind(op))] + ([Sym(lparentsym)] + RenderExpr(r) + tail))
  }

  function Closed(l: Expr, op: RelOp, r: Expr): Cond {
    Compare(op, l, Only(r))
  }

  lemma OpenedGives(st: PState, l: Expr, op: RelOp, r: Expr, tail: seq<Token>, fsys: set<Kind>)
    requires st.rest == Opened(l, op, r, tail) && GoodExpr(l, st.Env()) && GoodExpr(r, st.Env())
    requires EndsExpr(tail) && tail != [] && KindOf(tail) in fsys && KindOf(tail) != rparentsym
    ensures Gives(ParseCond(st, fsys), Closed(l, op, r), tail)
  {
    hide NextToken, ParseExpr, ParseCond, RenderExpr, GoodExpr, AppendAll;
    var right := [Sym(lparentsym)] + RenderExpr(r) + tail;
    assert KindOf(right) == lparentsym;
    ExprRound(l, st, [Sym(RelKind(op))] + right, RELSET + fsys);
    ExprStart(l, [Sym(RelKind(op))] + right);
    ExprKeeps(st, RELSET + fsys);
    var s := ParseExpr(st, RELSET + fsys).st;
    NextOf(s, Sym(RelKind(op)), right);
    var s' := OnlyOpen(s.Next(), r, tail, fsys);
    RelationTaken(st, l, s, op, Only(r), tail, fsys);
  }

  lemma ClosedGood(l: Expr, op: RelOp, r: Expr, env: Env)
    requires GoodExpr(l, env) && GoodExpr(r, env)
    ensures GoodCond(Closed(l, op, r), env)
  {
  }

  /** In front of `then`. */
  lemma ClosingBeforeThen(st: PState, l: Expr, op: RelOp, r: Expr, rest: seq<Token>, fsys: set<Kind>)
    requires GoodExpr(l, st.Env()) && GoodExpr(r, st.Env())
    ensures var tail := [Sym(thensym)] + rest;
            ParseStmt(On(st, [Sym(ifsym)] + Opened(l, op, r, tail)), fsys)
              == ParseStmt(On(st, [Sym(ifsym)] + (RenderCond(Closed(l, op, r)) + tail)), fsys)
  {
    hide NextToken, ParseCond, ParseStmt, ParseElse, RenderCond, GoodCond, GoodExpr, Opened, Closed, AppendAll;
    var tail := [Sym(thensym)] + rest;
    var follow := {thensym, dosym} + fsys;
    var a := On(st, [Sym(ifsym)] + Opened(l, op, r, tail));
    var b := On(st, [Sym(ifsym)] + (RenderCond(Closed(l, op, r)) + tail));
    BothGive(st, l, op, r, ifsym, tail, follow);
    SameCond(a.Next(), b.Next(), Closed(l, op, r), tail, follow);
    Dispatch(a, fsys);
    Dispatch(b, fsys);
  }

  lemma BothGive(st: PState, l: Expr, op: RelOp, r: Expr, k: Kind, tail: seq<Token>, follow: set<Kind>)
    requires GoodExpr(l, st.Env()) && GoodExpr(r, st.Env())
    requires EndsExpr(tail) && tail != [] && KindOf(tail) in follow && KindOf(tail) != rparentsym
    ensures var a := On(st, [Sym(k)] + Opened(l, op, r, tail));
            var b := On(st, [Sym(k)] + (RenderCond(Closed(l, op, r)) + tail));
            && a.Kind() == k == b.Kind()
            && a.Next() == On(st, Opened(l, op, r, tail)) && b.Next() == On(st, RenderCond(Closed(l, op, r)) + tail)
            && Gives(ParseCond(a.Next(), follow), Closed(l, op, r), tail)
            && Gives(ParseCond(b.Next(), follow), Closed(l, op, r), tail)
  {
    hide NextToken, ParseCond, RenderExpr, RenderCond, GoodCond, GoodExpr, Closed;
    var c := Closed(l, op, r);
    ClosedGood(l, op, r, st.Env());
    ExprStart(l, [Sym(RelKind(op))] + ([Sym(lparentsym)] + RenderExpr(r) + tail));
    CondStart(c, tail);
    NextOf(On(st, [Sym(k)] + Opened(l, op, r, tail)), Sym(k), Opened(l, op, r, tail));
    NextOf(On(st, [Sym(k)] + (RenderCond(c) + tail)), Sym(k), RenderCond(c) + tail);
    OpenedGives(On(st, Opened(l, op, r, tail)), l, op, r, tail, follow);
    CondRound(c, On(st, RenderCond(c) + tail), tail, follow);
  }

  /** In front of `do`. */
  lemma ClosingBeforeDo(st: PState, l: Expr, op: RelOp, r: Expr, rest: seq<Token>, fsys: set<Kind>)
    requires GoodExpr(l, st.Env()) && GoodExpr(r, st.Env())
    ensures var tail := [Sym(dosym)] + rest;
            ParseStmt(On(st, [Sym(whilesym)] + Opened(l, op, r, tail)), fsys)
              == ParseStmt(On(st, [Sym(whilesym)] + (RenderCond(Closed(l, op, r)) + tail)), fsys)
  {
    hide NextToken, ParseCond, ParseStmt, RenderCond, GoodCond, GoodExpr, Opened, Closed, AppendAll;
    var tail := [Sym(dosym)] + rest;
    var follow := {dosym} + fsys;
    var a := On(st, [Sym(whilesym)] + Opened(l, op, r, tail));
    var b := On(st, [Sym(whilesym)] + (RenderCond(Closed(l, op, r)) + tail));
    BothGive(st, l, op, r, whilesym, tail, follow);
    SameCond(a.Next(), b.Next(), Closed(l, op, r), tail, follow);
    Dispatch(a, fsys);
    Dispatch(b, fsys);
  }

  /** In front of the semicolon or the `end` behind the first statement of a begin..end. */
  lemma ClosingInList(st: PState, x: string, e: Expr, k: Kind, rest: seq<Token>, fsys: set<Kind>)
    requires st.Lookup(x).Some? && GoodExpr(e, st.Env()) && k in {semicolonsym, endsym}
    ensures var head, tail := [Id(x), Sym(becomessym)], [Sym(k)] + rest;
            ParseStmt(On(st, [Sym(beginsym)] + (head + ([Sym(lparentsym)] + RenderExpr(e) + tail))), fsys)
              == ParseStmt(On(st, [Sym(beginsym)] + (head + (RenderExpr(Only(e)) + tail))), fsys)
  {
    hide NextToken, ParseStmt, ParseStmts, RenderExpr, GoodExpr, AppendAll, GetSymbol;
    var head, tail := [Id(x), Sym(becomessym)], [Sym(k)] + rest;
    var follow := {semicolonsym, endsym} + fsys;
    var open, closed := head + ([Sym(lparentsym)] + RenderExpr(e) + tail), head + (RenderExpr(Only(e)) + tail);
    var a, b := On(st, [Sym(beginsym)] + open), On(st, [Sym(beginsym)] + closed);
    NextOf(a, Sym(beginsym), open);
    NextOf(b, Sym(beginsym), closed);
    OpenAssigned(st, x, e, tail, follow);
    OnlyGood(e, st.Env());
    AnyTarget(st, x, Only(e), tail, follow);
    SameStmt(On(st, open), On(st, closed), Assign(x, Only(e)), tail, follow);
    Dispatch(a, fsys);
    Dispatch(b, fsys);
  }

  lemma OnlyGood(e: Expr, env: Env)
    requires GoodExpr(e, env)
    ensures GoodExpr(Only(e), env)
  {
  }

  lemma OpenAssigned(st: PState, x: string, e: Expr, tail: seq<Token>, fsys: set<Kind>)
    requires st.Lookup(x).Some? && GoodExpr(e, st.Env())
    requires EndsExpr(tail) && tail != [] && KindOf(tail) in fsys && KindOf(tail) != rparentsym
    ensures var open := [Id(x), Sym(becomessym)] + ([Sym(lparentsym)] + RenderExpr(e) + tail);
            Gives(ParseStmt(On(st, open), fsys), Assign(x, Only(e)), tail)
  {
    hide NextToken, ParseExpr, ParseStmt, RenderExpr, GoodExpr, AppendAll, GetSymbol;
    var right := [Sym(lparentsym)] + RenderExpr(e) + tail;
    var a := On(st, [Id(x), Sym(becomessym)] + right);
    Two(st, Id(x), Sym(becomessym), right);
    assert KindOf(right) == lparentsym;
    NextOf(On(st, [Sym(becomessym)] + right), Sym(becomessym), right);
    var s := OnlyOpen(On(st, right), e, tail, fsys);
    ExprKeeps(On(st, right), fsys);
    AssignTaken(a, Only(e), s, fsys);
  }
}
