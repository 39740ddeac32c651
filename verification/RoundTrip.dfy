/** Parsing the concrete syntax of a tree gives the tree back and stops at the token behind it. */
module RoundTrip {
  import opened Common
  import opened Machine
  import opened Syntax
  import opened Symbols
  import opened Compile
  import opened CodeSets
  import opened Parsing
  import opened Emission

  function KindOf(rest: seq<Token>): Kind {
    if rest == [] then nulsym else rest[0].kind
  }

  /** The tokens behind a phrase start with no comment. */
  predicate Clean(rest: seq<Token>) {
    KindOf(rest) != commentsym
  }

  /** The tokens behind an expression do not carry it on. */
  predicate EndsExpr(rest: seq<Token>) {
    Clean(rest) && KindOf(rest) !in {plussym, minussym, multsym, slashsym}
  }

  predicate EndsTerm(rest: seq<Token>) {
    Clean(rest) && KindOf(rest) !in {multsym, slashsym}
  }

  /** The parse gave `v` and left exactly `rest`. */
  ghost predicate Gives<T(!new)>(r: Result<T>, v: T, rest: seq<Token>) {
    r.Ok? && r.value == v && r.st.rest == rest
  }

  lemma NextOf(st: PState, t: Token, rest: seq<Token>)
    requires st.rest == [t] + rest && Clean(rest)
    ensures st.Next().rest == rest && st.Kind() == t.kind && st.Name() == t.name && st.Value() == t.value
  {
  }

  lemma {:induction false} FactorRound(f: Factor, st: PState, rest: seq<Token>, fsys: set<Kind>)
    requires st.rest == RenderFactor(f) + rest && Clean(rest)
    requires GoodFactor(f, st.Env())
    ensures Gives(ParseFactor(st, fsys), f, rest)
    ensures st.Kind() in FACBEGSYS
    decreases f
  {
    hide NextToken, ParseExpr, RenderExpr, GoodExpr, AppendAll;
    match f
    case Ident(x) => NextOf(st, Id(x), rest);
    case Number(v) => NextOf(st, Num(v), rest);
    case Paren(e) =>
      var tail := [Sym(rparentsym)] + rest;
      assert st.rest == [Sym(lparentsym)] + (RenderExpr(e) + tail);
      ExprStart(e, tail);
      NextOf(st, Sym(lparentsym), RenderExpr(e) + tail);
      ExprRound(e, st.Next(), tail, {rparentsym} + fsys);
      NextOf(ParseExpr(st.Next(), {rparentsym} + fsys).st, Sym(rparentsym), rest);
  }

  lemma {:induction false} FactorStart(f: Factor, rest: seq<Token>)
    ensures KindOf(RenderFactor(f) + rest) in FACBEGSYS
  {
  }

  lemma {:induction false} ExprStart(e: Expr, rest: seq<Token>)
    ensures KindOf(RenderExpr(e) + rest) in FACBEGSYS + {plussym, minussym}
  {
    var tail := RenderFactors(e.term.factors) + RenderTerms(e.terms) + rest;
    assert RenderExpr(e) + rest == RenderSign(e.sign) + (RenderFactor(e.term.factor) + tail);
    FactorStart(e.term.factor, tail);
    if e.sign == NoSign {
      assert RenderExpr(e) + rest == RenderFactor(e.term.factor) + tail;
    }
  }

  lemma NoMoreFactors(st: PState, rest: seq<Token>, fsys: set<Kind>)
    requires st.rest == RenderFactors(NoFactors) + rest && EndsTerm(rest)
    ensures Gives(ParseFactors(st, fsys), NoFactors, rest)
  {
    assert st.rest == rest;
  }

  lemma EndsClean(rest: seq<Token>)
    requires EndsTerm(rest)
    ensures Clean(rest)
  {
  }

  lemma MoreFactorsParts(fs: Factors, st: PState, rest: seq<Token>)
    requires fs.MoreFactors? && st.rest == RenderFactors(fs) + rest && EndsTerm(rest) && GoodFactors(fs, st.Env())
    ensures var tail := RenderFactors(fs.next) + rest;
            && st.Kind() == MulKind(fs.op) && st.Next().rest == RenderFactor(fs.factor) + tail
            && Clean(tail)
            && GoodFactor(fs.factor, st.Env()) && GoodFactors(fs.next, st.Env())
  {
    hide NextToken, RenderFactor, GoodFactor, KindOf, EndsTerm;
    var tail := RenderFactors(fs.next) + rest;
    assert st.rest == [Sym(MulKind(fs.op))] + (RenderFactor(fs.factor) + tail);
    FactorStart(fs.factor, tail);
    NextOf(st, Sym(MulKind(fs.op)), RenderFactor(fs.factor) + tail);
    EndsClean(rest);
    FactorsClean(fs.next, rest);
  }

  lemma FactorsUnfold(st: PState, op: MulOp, fsys: set<Kind>)
    requires st.Kind() == MulKind(op) && ParseFactor(st.Next(), fsys).Ok?
    ensures var (f, st1) := ParseFactor(st.Next(), fsys).Extract();
            var st2 := st1.Emit(MulOpcode(op), st1.reg - 2, st1.reg - 2, st1.reg - 1).(reg := st1.reg - 1);
            var fs := ParseFactors(st2, fsys);
            fs.Ok? ==> ParseFactors(st, fsys) == Ok(MoreFactors(op, f, fs.value), fs.st)
  {
    hide NextToken, ParseFactor, AppendAll;
  }

  lemma {:induction false} FactorsRound(fs: Factors, st: PState, rest: seq<Token>, fsys: set<Kind>)
    requires st.rest == RenderFactors(fs) + rest && EndsTerm(rest)
    requires GoodFactors(fs, st.Env())
    ensures Gives(ParseFactors(st, fsys), fs, rest)
    decreases fs
  {
    hide NextToken, ParseFactor, ParseFactors, GoodFactor, GoodFactors, RenderFactor, RenderFactors, AppendAll,
         KindOf, Clean, EndsTerm;
    match fs
    case NoFactors => NoMoreFactors(st, rest, fsys);
    case MoreFactors(op, f, next) =>
      MoreFactorsParts(fs, st, rest);
      FactorRound(f, st.Next(), RenderFactors(next) + rest, fsys);
      FactorKeeps(st.Next(), fsys);
      var st1 := ParseFactor(st.Next(), fsys).st;
      var st2 := st1.Emit(MulOpcode(op), st1.reg - 2, st1.reg - 2, st1.reg - 1).(reg := st1.reg - 1);
      FactorsRound(next, st2, rest, fsys);
      FactorsUnfold(st, op, fsys);
  }

  lemma {:induction false} FactorsClean(fs: Factors, rest: seq<Token>)
    requires Clean(rest)
    ensures Clean(RenderFactors(fs) + rest)
    ensures fs == NoFactors ==> RenderFactors(fs) + rest == rest
    ensures fs != NoFactors ==> KindOf(RenderFactors(fs) + rest) in {multsym, slashsym}
  {
  }

  lemma {:induction false} TermsClean(ts: Terms, rest: seq<Token>)
    requires EndsExpr(rest)
    ensures EndsTerm(RenderTerms(ts) + rest)
    ensures ts == NoTerms ==> RenderTerms(ts) + rest == rest
  {
  }

  lemma {:induction false} TermRound(t: Term, st: PState, sign: Sign, rest: seq<Token>, fsys: set<Kind>)
    requires st.rest == RenderTerm(t) + rest && EndsTerm(rest)
    requires GoodTerm(t, st.Env())
    ensures Gives(ParseTerm(st, sign, fsys), t, rest)
    ensures st.Kind() in FACBEGSYS
    decreases t
  {
    hide NextToken, AppendAll, ParseFactor, ParseFactors, RenderFactor, RenderFactors, GoodFactor, GoodFactors;
    var follow := fsys + {multsym, slashsym};
    var tail := RenderFactors(t.factors) + rest;
    assert st.rest == RenderFactor(t.factor) + tail;
    FactorsClean(t.factors, rest);
    FactorRound(t.factor, st, tail, follow);
    FactorKeeps(st, follow);
    var st1 := ParseFactor(st, follow).st;
    var st2 := if sign == MinusSign then st1.Emit(NEG, st1.reg - 1, st1.reg - 1, 0) else st1;
    FactorsRound(t.factors, st2, rest, follow);
  }

  lemma NoMoreTerms(st: PState, rest: seq<Token>, fsys: set<Kind>)
    requires st.rest == RenderTerms(NoTerms) + rest && EndsExpr(rest)
    ensures Gives(ParseTerms(st, fsys), NoTerms, rest)
  {
    assert st.rest == rest;
  }

  lemma MoreTermsParts(ts: Terms, st: PState, rest: seq<Token>)
    requires ts.MoreTerms? && st.rest == RenderTerms(ts) + rest && EndsExpr(rest) && GoodTerms(ts, st.Env())
    ensures var tail := RenderTerms(ts.next) + rest;
            && st.Kind() == AddKind(ts.op) && st.Next().rest == RenderTerm(ts.term) + tail
            && EndsTerm(tail)
            && GoodTerm(ts.term, st.Env()) && GoodTerms(ts.next, st.Env())
  {
    hide NextToken, RenderTerm, GoodTerm, KindOf, EndsExpr, EndsTerm;
    var tail := RenderTerms(ts.next) + rest;
    assert st.rest == [Sym(AddKind(ts.op))] + (RenderTerm(ts.term) + tail);
    TermStart(ts.term, tail);
    NextOf(st, Sym(AddKind(ts.op)), RenderTerm(ts.term) + tail);
    TermsClean(ts.next, rest);
  }

  lemma TermsUnfold(st: PState, op: AddOp, fsys: set<Kind>)
    requires st.Kind() == AddKind(op) && ParseTerm(st.Next(), NoSign, fsys).Ok?
    ensures var (t, st1) := ParseTerm(st.Next(), NoSign, fsys).Extract();
            var st2 := st1.Emit(AddOpcode(op), st1.reg - 2, st1.reg - 2, st1.reg - 1).(reg := st1.reg - 1);
            var ts := ParseTerms(st2, fsys);
            ts.Ok? ==> ParseTerms(st, fsys) == Ok(MoreTerms(op, t, ts.value), ts.st)
  {
    hide NextToken, ParseTerm, AppendAll;
  }

  lemma {:induction false} TermsRound(ts: Terms, st: PState, rest: seq<Token>, fsys: set<Kind>)
    requires st.rest == RenderTerms(ts) + rest && EndsExpr(rest)
    requires GoodTerms(ts, st.Env())
    ensures Gives(ParseTerms(st, fsys), ts, rest)
    decreases ts
  {
    hide NextToken, ParseTerm, ParseTerms, GoodTerm, GoodTerms, RenderTerm, RenderTerms, AppendAll, KindOf, Clean,
         EndsExpr, EndsTerm;
    match ts
    case NoTerms => NoMoreTerms(st, rest, fsys);
    case MoreTerms(op, t, next) =>
      MoreTermsParts(ts, st, rest);
      TermRound(t, st.Next(), NoSign, RenderTerms(next) + rest, fsys);
      TermKeeps(st.Next(), NoSign, fsys);
      var st1 := ParseTerm(st.Next(), NoSign, fsys).st;
      var st2 := st1.Emit(AddOpcode(op), st1.reg - 2, st1.reg - 2, st1.reg - 1).(reg := st1.reg - 1);
      TermsRound(next, st2, rest, fsys);
      TermsUnfold(st, op, fsys);
  }

  lemma TermStart(t: Term, rest: seq<Token>)
    ensures KindOf(RenderTerm(t) + rest) in FACBEGSYS
    ensures Clean(RenderTerm(t) + rest)
  {
    assert RenderTerm(t) + rest == RenderFactor(t.factor) + (RenderFactors(t.factors) + rest);
    FactorStart(t.factor, RenderFactors(t.factors) + rest);
  }

  /** Expressions: printing and then parsing is the identity. */
  lemma {:induction false} ExprRound(e: Expr, st: PState, rest: seq<Token>, fsys: set<Kind>)
    requires st.rest == RenderExpr(e) + rest && EndsExpr(rest)
    requires GoodExpr(e, st.Env())
    ensures Gives(ParseExpr(st, fsys), e, rest)
    decreases e
  {
    hide NextToken, ParseTerm, ParseTerms, GoodTerm, GoodTerms, RenderTerm, RenderTerms, Clean, EndsTerm, EndsExpr;
    var follow := fsys + {multsym, slashsym};
    var tail := RenderTerms(e.terms) + rest;
    var body := RenderTerm(e.term) + tail;
    assert st.rest == RenderSign(e.sign) + body;
    TermStart(e.term, tail);
    TermsClean(e.terms, rest);
    var st0 := st;
    if e.sign == NoSign {
      assert st.rest == body;
    } else {
      NextOf(st, RenderSign(e.sign)[0], body);
      st0 := st.Next();
    }
    TermRound(e.term, st0, e.sign, tail, follow);
    TermKeeps(st0, e.sign, follow);
    TermsRound(e.terms, ParseTerm(st0, e.sign, follow).st, rest, follow);
  }

  /** Conditions: printing and then parsing is the identity. */
  lemma CondRound(c: Cond, st: PState, rest: seq<Token>, fsys: set<Kind>)
    requires st.rest == RenderCond(c) + rest && EndsExpr(rest)
    requires GoodCond(c, st.Env())
    ensures Gives(ParseCond(st, fsys), c, rest)
  {
    hide NextToken;
    hide ParseExpr, GoodExpr, RenderExpr;
    match c
    case Odd(e) =>
      assert st.rest == [Sym(oddsym)] + (RenderExpr(e) + rest);
      ExprStart(e, rest);
      NextOf(st, Sym(oddsym), RenderExpr(e) + rest);
      ExprRound(e, st.Next(), rest, fsys);
    case Compare(op, l, r) =>
      var tail := RenderExpr(r) + rest;
      var tail1 := [Sym(RelKind(op))] + tail;
      assert st.rest == RenderExpr(l) + tail1;
      ExprStart(l, tail1);
      ExprStart(r, rest);
      ExprRound(l, st, tail1, RELSET + fsys);
      ExprKeeps(st, RELSET + fsys);
      var st1 := ParseExpr(st, RELSET + fsys).st;
      NextOf(st1, Sym(RelKind(op)), tail);
      ExprRound(r, st1.Next(), rest, fsys);
  }

  // ---------- statements ----------

  /** A statement to which a following `else` would be added, or whose text may be empty at its end. */
  predicate EndsOpen(s: Stmt) {
    match s
    case Empty => true
    case If(_, _) => true
    case IfElse(_, _, e) => EndsOpen(e)
    case While(_, b) => EndsOpen(b)
    case _ => false
  }

  /** The trees the grammar can write down: nothing open in front of an `else`. */
  predicate Writable(s: Stmt) {
    match s
    case Begin(first, rest) => Writable(first) && WritableAll(rest)
    case If(_, t) => Writable(t)
    case IfElse(_, t, e) => Writable(t) && !EndsOpen(t) && Writable(e)
    case While(_, b) => Writable(b)
    case _ => true
  }

  predicate WritableAll(ss: Stmts) {
    match ss
    case NoStmts => true
    case MoreStmts(s, next) => Writable(s) && WritableAll(next)
  }

  /** The tokens behind a statement end it. */
  predicate EndsStmt(s: Stmt, rest: seq<Token>, fsys: set<Kind>) {
    && EndsExpr(rest)
    && (EndsOpen(s) ==> rest == [] || KindOf(rest) in fsys)
    && (EndsOpen(s) ==> KindOf(rest) != elsesym && KindOf(rest) !in STATBEGSYS)
  }

  lemma {:induction false} StmtStart(s: Stmt, rest: seq<Token>)
    requires Clean(rest)
    ensures Clean(RenderStmt(s) + rest)
    ensures s == Empty ==> RenderStmt(s) + rest == rest
    ensures s != Empty ==> KindOf(RenderStmt(s) + rest) in STATBEGSYS
  {
  }

  lemma {:induction false} StmtsStart(ss: Stmts, rest: seq<Token>)
    requires KindOf(rest) == endsym
    ensures KindOf(RenderStmts(ss) + rest) in {semicolonsym, endsym}
    ensures EndsExpr(RenderStmts(ss) + rest)
    ensures ss == NoStmts ==> RenderStmts(ss) + rest == rest
  {
  }

  /** Statements: parsing what the grammar writes for a tree gives the tree. */
  lemma {:induction false} StmtRound(s: Stmt, st: PState, rest: seq<Token>, fsys: set<Kind>)
    requires st.rest == RenderStmt(s) + rest && EndsStmt(s, rest, fsys)
    requires GoodStmt(s, st.Env()) && Writable(s)
    ensures Gives(ParseStmt(st, fsys), s, rest)
    decreases s, 2
  {
    hide ParseExpr, GoodExpr, RenderExpr, ParseStmt;
    match s
    case Empty => EmptyRound(st, rest, fsys);
    case Assign(_, _) => AssignRound(s, st, rest, fsys);
    case Call(_) => NameRound(s, st, rest, fsys);
    case Read(_) => NameRound(s, st, rest, fsys);
    case Write(_) => NameRound(s, st, rest, fsys);
    case Begin(_, _) => BeginRound(s, st, rest, fsys);
    case If(_, _) => IfRound(s, st, rest, fsys);
    case IfElse(_, _, _) => IfRound(s, st, rest, fsys);
    case While(_, _) => WhileRound(s, st, rest, fsys);
  }

  lemma EmptyRound(st: PState, rest: seq<Token>, fsys: set<Kind>)
    requires st.rest == RenderStmt(Empty) + rest && EndsStmt(Empty, rest, fsys)
    ensures Gives(ParseStmt(st, fsys), Empty, rest)
  {
    assert st.rest == rest;
  }

  lemma NameRound(s: Stmt, st: PState, rest: seq<Token>, fsys: set<Kind>)
    requires (s.Call? || s.Read? || s.Write?) && st.rest == RenderStmt(s) + rest && Clean(rest)
    requires GoodStmt(s, st.Env())
    ensures Gives(ParseStmt(st, fsys), s, rest)
  {
    hide AppendAll, NextToken, GetSymbol, ParseStmt, ParseCall, ParseRead, ParseWrite, Clean;
    PairRound(st, if s.Call? then callsym else if s.Read? then readsym else writesym, s.name, rest);
    DispatchName(st, fsys);
    if s.Call? {
      CallTaken(st, s.name);
    } else if s.Read? {
      ReadTaken(st, s.name);
    } else {
      WriteTaken(st, s.name);
    }
  }

  lemma CallTaken(st: PState, x: string)
    requires st.Kind() == callsym && st.Next().Kind() == identsym && st.Next().Name() == x
             && GoodStmt(Call(x), st.Env())
    ensures Gives(ParseCall(st), Call(x), st.Next().Next().rest)
  {
    hide AppendAll, NextToken, GetSymbol;
  }

  lemma ReadTaken(st: PState, x: string)
    requires st.Kind() == readsym && st.Next().Kind() == identsym && st.Next().Name() == x
             && GoodStmt(Read(x), st.Env())
    ensures Gives(ParseRead(st), Read(x), st.Next().Next().rest)
  {
    hide AppendAll, NextToken, GetSymbol;
  }

  lemma WriteTaken(st: PState, x: string)
    requires st.Kind() == writesym && st.Next().Kind() == identsym && st.Next().Name() == x
             && GoodStmt(Write(x), st.Env())
    ensures Gives(ParseWrite(st), Write(x), st.Next().Next().rest)
  {
    hide AppendAll, NextToken, GetSymbol;
  }

  lemma DispatchName(st: PState, fsys: set<Kind>)
    ensures st.Kind() == callsym ==> ParseStmt(st, fsys) == ParseCall(st)
    ensures st.Kind() == readsym ==> ParseStmt(st, fsys) == ParseRead(st)
    ensures st.Kind() == writesym ==> ParseStmt(st, fsys) == ParseWrite(st)
  {
    hide NextToken, ParseCall, ParseRead, ParseWrite;
  }

  lemma AssignRound(s: Stmt, st: PState, rest: seq<Token>, fsys: set<Kind>)
    requires s.Assign? && st.rest == RenderStmt(s) + rest && EndsExpr(rest)
    requires GoodStmt(s, st.Env())
    ensures Gives(ParseStmt(st, fsys), s, rest)
  {
    hide NextToken;
    hide ParseExpr, GoodExpr, RenderExpr, ParseStmt, AppendAll;
    var tail := RenderExpr(s.expr) + rest;
    assert st.rest == [Id(s.name)] + ([Sym(becomessym)] + tail);
    ExprStart(s.expr, rest);
    NextOf(st, Id(s.name), [Sym(becomessym)] + tail);
    Dispatch(st, fsys);
    NextOf(st.Next(), Sym(becomessym), tail);
    ExprRound(s.expr, st.Next().Next(), rest, fsys);
    ExprKeeps(st.Next().Next(), fsys);
  }

  /** The parser goes by the first token of a statement. */
  lemma Dispatch(st: PState, fsys: set<Kind>)
    ensures st.Kind() == beginsym ==> ParseStmt(st, fsys) == ParseBegin(st, fsys)
    ensures st.Kind() == ifsym ==> ParseStmt(st, fsys) == ParseIf(st, fsys)
    ensures st.Kind() == whilesym ==> ParseStmt(st, fsys) == ParseWhile(st, fsys)
    ensures st.Kind() == identsym ==> ParseStmt(st, fsys) == ParseAssign(st, fsys)
  {
    hide NextToken;
  }

  lemma PairRound(st: PState, k: Kind, x: string, rest: seq<Token>)
    requires st.rest == [Sym(k), Id(x)] + rest && Clean(rest)
    ensures st.Kind() == k && st.Next().Kind() == identsym && st.Next().Name() == x && st.Next().Next().rest == rest
  {
    hide NextToken;
    assert st.rest == [Sym(k)] + ([Id(x)] + rest);
    NextOf(st, Sym(k), [Id(x)] + rest);
    NextOf(st.Next(), Id(x), rest);
  }

  lemma {:induction false} BeginRound(s: Stmt, st: PState, rest: seq<Token>, fsys: set<Kind>)
    requires s.Begin? && st.rest == RenderStmt(s) + rest && EndsStmt(s, rest, fsys)
    requires GoodStmt(s, st.Env()) && Writable(s)
    ensures Gives(ParseStmt(st, fsys), s, rest)
    decreases s, 0
  {
    hide NextToken;
    var follow := {semicolonsym, endsym} + fsys;
    var tail := [Sym(endsym)] + rest;
    var tail1 := RenderStmts(s.rest) + tail;
    BeginParts(s, st.Env(), rest);
    assert Clean(rest);
    hide ParseStmts, ParseStmt, RenderStmt, RenderStmts, GoodStmt, GoodStmts, Writable, WritableAll, EndsStmt,
         ParseBegin, AppendAll;
    StmtStart(s.first, tail1);
    NextOf(st, Sym(beginsym), RenderStmt(s.first) + tail1);
    Dispatch(st, fsys);
    StmtRound(s.first, st.Next(), tail1, follow);
    StmtKeeps(st.Next(), follow);
    var st1 := ParseStmt(st.Next(), follow).st;
    StmtsRound(s.rest, st1, tail, follow);
    var st2 := ParseStmts(st1, follow).st;
    NextOf(st2, Sym(endsym), rest);
    BeginUnfold(st, fsys);
  }

  lemma BeginUnfold(st: PState, fsys: set<Kind>)
    requires st.Kind() == beginsym
    ensures var follow := {semicolonsym, endsym} + fsys;
            var first := ParseStmt(st.Next(), follow);
            first.Ok? ==>
              var rest := ParseStmts(first.st, follow);
              rest.Ok? && rest.st.Kind() == endsym ==>
                var r := ParseBegin(st, fsys);
                r.Ok? && r.value == Begin(first.value, rest.value) && r.st.rest == rest.st.Next().rest
  {
    hide ParseStmt, ParseStmts, AppendAll, NextToken;
  }

  /** What a begin..end is made of, as tokens and as statements that are good where it is. */
  lemma BeginParts(s: Stmt, env: Env, rest: seq<Token>)
    requires s.Begin? && GoodStmt(s, env) && Writable(s) && Clean(rest)
    ensures GoodStmt(s.first, env) && GoodStmts(s.rest, env) && Writable(s.first) && WritableAll(s.rest)
    ensures var tail := [Sym(endsym)] + rest;
            var tail1 := RenderStmts(s.rest) + tail;
            && RenderStmt(s) + rest == [Sym(beginsym)] + (RenderStmt(s.first) + tail1)
            && Clean(tail1)
            && forall fsys :: EndsStmt(s.first, tail1, {semicolonsym, endsym} + fsys)
  {
    hide RenderStmts;
    StmtsStart(s.rest, [Sym(endsym)] + rest);
  }

  lemma {:induction false} StmtsRound(ss: Stmts, st: PState, rest: seq<Token>, follow: set<Kind>)
    requires st.rest == RenderStmts(ss) + rest && KindOf(rest) == endsym
    requires {semicolonsym, endsym} <= follow
    requires GoodStmts(ss, st.Env()) && WritableAll(ss)
    ensures Gives(ParseStmts(st, follow), ss, rest)
    decreases ss, 0
  {
    hide NextToken;
    hide ParseStmt, RenderStmt, GoodStmt, Writable, EndsStmt;
    match ss
    case NoStmts => assert st.rest == rest;
    case MoreStmts(s, next) =>
      var tail := RenderStmts(next) + rest;
      MoreParts(s, next, rest, follow);
      hide RenderStmts;
      StmtStart(s, tail);
      NextOf(st, Sym(semicolonsym), RenderStmt(s) + tail);
      StmtRound(s, st.Next(), tail, follow);
      StmtKeeps(st.Next(), follow);
      StmtsRound(next, ParseStmt(st.Next(), follow).st, rest, follow);
  }

  lemma MoreParts(s: Stmt, next: Stmts, rest: seq<Token>, follow: set<Kind>)
    requires KindOf(rest) == endsym && {semicolonsym, endsym} <= follow
    ensures var tail := RenderStmts(next) + rest;
            && RenderStmts(MoreStmts(s, next)) + rest == [Sym(semicolonsym)] + (RenderStmt(s) + tail)
            && Clean(tail) && EndsStmt(s, tail, follow)
  {
    hide RenderStmt, EndsStmt, KindOf, Clean, EndsExpr;
    StmtsStart(next, rest);
    EndsAny(s, RenderStmts(next) + rest, follow);
  }

  lemma EndsAny(s: Stmt, tail: seq<Token>, follow: set<Kind>)
    requires KindOf(tail) in {semicolonsym, endsym} && EndsExpr(tail) && {semicolonsym, endsym} <= follow
    ensures Clean(tail) && EndsStmt(s, tail, follow)
  {
    hide EndsOpen;
  }

  lemma {:induction false} WhileRound(s: Stmt, st: PState, rest: seq<Token>, fsys: set<Kind>)
    requires s.While? && st.rest == RenderStmt(s) + rest && EndsStmt(s, rest, fsys)
    requires GoodStmt(s, st.Env()) && Writable(s)
    ensures Gives(ParseStmt(st, fsys), s, rest)
    decreases s, 0
  {
    hide NextToken;
    var follow := {dosym} + fsys;
    var tail := RenderStmt(s.body) + rest;
    var tail1 := [Sym(dosym)] + tail;
    WhileParts(s, st.Env(), rest, fsys);
    WhileTokens(s, rest);
    hide ParseCond, RenderCond, GoodCond, ParseStmt, RenderStmt, GoodStmt, Writable, EndsStmt, ParseWhile, AppendAll,
         ChangeM, Get;
    CondStart(s.cond, tail1);
    StmtStart(s.body, rest);
    NextOf(st, Sym(whilesym), RenderCond(s.cond) + tail1);
    CondRound(s.cond, st.Next(), tail1, follow);
    CondKeeps(st.Next(), follow);
    var st1 := ParseCond(st.Next(), follow).st;
    NextOf(st1, Sym(dosym), tail);
    var stj := st1.Next().Emit(JPC, st1.reg - 1, 0, 0);
    StmtRound(s.body, stj, rest, fsys);
    WhileUnfold(s, st, st1, ParseStmt(stj, fsys), rest, fsys);
  }

  /** A while statement whose condition and body have been accepted. */
  lemma WhileUnfold(s: Stmt, st: PState, st1: PState, r: Result<Stmt>, rest: seq<Token>, fsys: set<Kind>)
    requires s.While? && st.Kind() == whilesym && st1.Kind() == dosym
    requires ParseCond(st.Next(), {dosym} + fsys) == Ok(s.cond, st1)
    requires ParseStmt(st1.Next().Emit(JPC, st1.reg - 1, 0, 0), fsys) == r && Gives(r, s.body, rest)
    ensures Gives(ParseStmt(st, fsys), s, rest)
  {
    hide ParseCond, ParseStmt, AppendAll, ChangeM, Get, NextToken;
    Dispatch(st, fsys);
    assert Gives(ParseWhile(st, fsys), s, rest);
  }

  lemma WhileParts(s: Stmt, env: Env, rest: seq<Token>, fsys: set<Kind>)
    requires s.While? && GoodStmt(s, env) && Writable(s) && EndsStmt(s, rest, fsys)
    ensures GoodCond(s.cond, env) && GoodStmt(s.body, env) && Writable(s.body) && EndsStmt(s.body, rest, fsys)
    ensures Clean(rest)
  {
    hide GoodCond;
  }

  lemma WhileTokens(s: Stmt, rest: seq<Token>)
    requires s.While?
    ensures RenderStmt(s) + rest == [Sym(whilesym)] + (RenderCond(s.cond) +
                                                       ([Sym(dosym)] + (RenderStmt(s.body) + rest)))
  {
    hide RenderCond;
  }

  lemma CondStart(c: Cond, rest: seq<Token>)
    ensures Clean(RenderCond(c) + rest)
  {
    match c
    case Odd(e) =>
    case Compare(op, l, r) =>
      var tail := [Sym(RelKind(op))] + RenderExpr(r) + rest;
      assert RenderCond(c) + rest == RenderExpr(l) + tail;
      ExprStart(l, tail);
  }

  lemma IfGoods(s: Stmt, env: Env, rest: seq<Token>, fsys: set<Kind>)
    requires (s.If? || s.IfElse?) && GoodStmt(s, env) && Writable(s) && EndsStmt(s, rest, fsys)
    ensures GoodCond(s.cond, env) && GoodStmt(s.thn, env) && Writable(s.thn)
    ensures var els := if s.If? then rest else [Sym(elsesym)] + (RenderStmt(s.els) + rest);
            EndsStmt(s.thn, els, fsys) && Clean(els)
  {
    hide GoodCond;
  }

  lemma IfTokens(s: Stmt, rest: seq<Token>)
    requires s.If? || s.IfElse?
    ensures var els := if s.If? then rest else [Sym(elsesym)] + (RenderStmt(s.els) + rest);
            RenderStmt(s) + rest
            == [Sym(ifsym)] + (RenderCond(s.cond) + ([Sym(thensym)] + (RenderStmt(s.thn) + els)))
  {
    hide RenderCond;
  }

  /** From `if` over the condition and `then` to the first branch. */
  lemma IfHead(st: PState, c: Cond, tail: seq<Token>, fsys: set<Kind>) returns (st1: PState)
    requires st.rest == [Sym(ifsym)] + (RenderCond(c) + ([Sym(thensym)] + tail)) && GoodCond(c, st.Env()) && Clean(tail)
    ensures st.Kind() == ifsym && ParseCond(st.Next(), {thensym, dosym} + fsys) == Ok(c, st1)
    ensures st1.Kind() == thensym && st1.Next().rest == tail && st1.Env() == st.Env()
  {
    hide NextToken, ParseCond, RenderCond, GoodCond;
    var follow := {thensym, dosym} + fsys;
    var tail1 := [Sym(thensym)] + tail;
    CondStart(c, tail1);
    NextOf(st, Sym(ifsym), RenderCond(c) + tail1);
    CondRound(c, st.Next(), tail1, follow);
    CondKeeps(st.Next(), follow);
    st1 := ParseCond(st.Next(), follow).st;
    NextOf(st1, Sym(thensym), tail);
  }

  lemma {:induction false} IfRound(s: Stmt, st: PState, rest: seq<Token>, fsys: set<Kind>)
    requires (s.If? || s.IfElse?) && st.rest == RenderStmt(s) + rest && EndsStmt(s, rest, fsys)
    requires GoodStmt(s, st.Env()) && Writable(s)
    ensures Gives(ParseStmt(st, fsys), s, rest)
    decreases s, 1
  {
    IfGoods(s, st.Env(), rest, fsys);
    hide NextToken, ParseCond, RenderCond, GoodCond, ParseElse, ParseStmt, GoodStmt, Writable, RenderStmt, EndsStmt,
         ParseIf, AppendAll, ChangeM, Get, KindOf, Clean;
    var els := if s.If? then rest else [Sym(elsesym)] + (RenderStmt(s.els) + rest);
    IfTokens(s, rest);
    StmtStart(s.thn, els);
    var st1 := IfHead(st, s.cond, RenderStmt(s.thn) + els, fsys);
    var stj := st1.Next().Emit(JPC, st1.reg - 1, 0, 0);
    StmtRound(s.thn, stj, els, fsys);
    StmtKeeps(stj, fsys);
    var st2 := ParseStmt(stj, fsys).st;
    var st3 := st2.Emit(JMP, 0, 0, 0);
    var st4 := st3.Patch(st1.Length(), st3.Length());
    ElseRound(s, st4, st2.Length(), rest, fsys);
    IfUnfold(s, st, st1, st2, st4, rest, fsys);
  }

  /** An if statement whose condition and first branch have been accepted. */
  lemma IfUnfold(s: Stmt, st: PState, st1: PState, st2: PState, st4: PState, rest: seq<Token>, fsys: set<Kind>)
    requires (s.If? || s.IfElse?) && st.Kind() == ifsym && st1.Kind() == thensym
    requires ParseCond(st.Next(), {thensym, dosym} + fsys) == Ok(s.cond, st1)
    requires ParseStmt(st1.Next().Emit(JPC, st1.reg - 1, 0, 0), fsys) == Ok(s.thn, st2)
    requires st4 == st2.Emit(JMP, 0, 0, 0).Patch(st1.Length(), st2.Emit(JMP, 0, 0, 0).Length())
    requires Gives(ParseElse(s.cond, s.thn, st4, st2.Length(), fsys), s, rest)
    ensures Gives(ParseStmt(st, fsys), s, rest)
  {
    hide ParseCond, ParseStmt, ParseElse, AppendAll, ChangeM, Get, NextToken;
    Dispatch(st, fsys);
    assert Gives(ParseIf(st, fsys), s, rest);
  }

  lemma {:induction false} ElseRound(s: Stmt, st: PState, j2: int, rest: seq<Token>, fsys: set<Kind>)
    requires s.If? || s.IfElse?
    requires st.rest == if s.If? then rest else [Sym(elsesym)] + (RenderStmt(s.els) + rest)
    requires EndsStmt(s, rest, fsys)
    requires GoodStmt(s, st.Env()) && Writable(s)
    ensures Gives(ParseElse(s.cond, s.thn, st, j2, fsys), s, rest)
    decreases s, 0
  {
    hide NextToken;
    if s.IfElse? {
      StmtStart(s.els, rest);
      NextOf(st, Sym(elsesym), RenderStmt(s.els) + rest);
      StmtRound(s.els, st.Next(), rest, fsys);
    }
  }
}
