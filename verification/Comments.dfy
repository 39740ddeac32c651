/** Comments make no difference to the parser: it does with a token list what it does without them. */
module Comments {
  import opened Common
  import opened Machine
  import opened Syntax
  import opened Symbols
  import opened Compile
  import opened CodeSets
  import opened Parsing
  import opened Compiler
  import opened Lexing
  import opened SourceText
  import opened Characters

  /** The tokens that are not comments, in their order. */
  function NoComments(toks: seq<Token>): seq<Token> {
    if toks == [] then []
    else (if toks[0].kind == commentsym then [] else [toks[0]]) + NoComments(toks[1..])
  }

  /** The current token is not a comment. */
  predicate OffComment(toks: seq<Token>) {
    toks == [] || toks[0].kind != commentsym
  }

  /** What is skipped is all comments, and what is left starts with something else. */
  lemma {:induction false} SkipExact(toks: seq<Token>, r: seq<Token>)
    ensures SkipComments(toks) == r <==>
      && |r| <= |toks| && r == toks[|toks| - |r|..]
      && (forall i :: 0 <= i < |toks| - |r| ==> toks[i].kind == commentsym)
      && (r == [] || r[0].kind != commentsym)
    decreases |toks|
  {
    if toks != [] && toks[0].kind == commentsym {
      SkipExact(toks[1..], r);
      if |r| <= |toks| - 1 {
        assert toks[1..][|toks| - 1 - |r|..] == toks[|toks| - |r|..];
        assert forall i :: 0 <= i < |toks| - 1 ==> toks[1..][i] == toks[i + 1];
      } else if |r| == |toks| {
        assert toks[0..] == toks;
      }
    } else {
      assert toks[0..] == toks;
    }
  }

  /** The next token is the first one behind the current one that is not a comment. */
  lemma NextExact(toks: seq<Token>, r: seq<Token>)
    requires toks != []
    ensures NextToken(toks) == r <==>
      && |r| < |toks| && r == toks[|toks| - |r|..]
      && (forall i :: 0 < i < |toks| - |r| ==> toks[i].kind == commentsym)
      && (r == [] || r[0].kind != commentsym)
  {
    SkipExact(toks[1..], r);
    assert forall i :: 0 <= i < |toks| - 1 ==> toks[1..][i] == toks[i + 1];
    if |r| < |toks| {
      assert toks[1..][|toks| - 1 - |r|..] == toks[|toks| - |r|..];
    }
  }

  lemma {:induction false} SkipKeeps(toks: seq<Token>)
    ensures NoComments(SkipComments(toks)) == NoComments(toks) && OffComment(SkipComments(toks))
    decreases |toks|
  {
    if toks != [] && toks[0].kind == commentsym {
      SkipKeeps(toks[1..]);
    }
  }

  lemma {:induction false} NoneLeft(toks: seq<Token>)
    ensures OffComment(NoComments(toks)) && SkipComments(NoComments(toks)) == NoComments(toks)
    decreases |toks|
  {
    if toks != [] {
      NoneLeft(toks[1..]);
    }
  }

  lemma {:induction false} NoneThere(toks: seq<Token>)
    requires forall t :: t in toks ==> t.kind != commentsym
    ensures NoComments(toks) == toks
    decreases |toks|
  {
    if toks != [] {
      NoneThere(toks[1..]);
    }
  }

  // ---------- states ----------

  /** The state with no comment among the tokens left. */
  function Bare(st: PState): PState {
    st.(rest := NoComments(st.rest))
  }

  predicate Off(st: PState) {
    OffComment(st.rest)
  }

  /** What a parsing function comes to on the state without comments, from what it comes to with them. */
  function BareResult<T>(r: Result<T>): Result<T> {
    match r
    case Ok(v, st) => Ok(v, Bare(st))
    case _ => r
  }

  /** `bare` is what `r` is without comments, and `r` stands at no comment. */
  ghost predicate Matches<T>(r: Result<T>, bare: Result<T>) {
    bare == BareResult(r) && (r.Ok? ==> Off(r.st))
  }

  lemma BareToken(st: PState)
    requires Off(st)
    ensures Bare(st).Kind() == st.Kind() && Bare(st).Name() == st.Name() && Bare(st).Value() == st.Value()
    ensures Bare(st).Next() == Bare(st.Next()) && Off(st.Next())
    ensures Bare(st).rest == [] <==> st.rest == []
  {
    if st.rest != [] {
      NoneLeft(st.rest[1..]);
      SkipKeeps(st.rest[1..]);
      assert NoComments(st.rest)[1..] == NoComments(st.rest[1..]);
    }
  }

  lemma {:induction false} BareSkip(rest: seq<Token>, s: set<Kind>)
    requires OffComment(rest)
    ensures SkipTo(NoComments(rest), s) == NoComments(SkipTo(rest, s)) && OffComment(SkipTo(rest, s))
    decreases |rest|
  {
    if rest != [] {
      NoneLeft(rest[1..]);
      SkipKeeps(rest[1..]);
      assert NoComments(rest)[1..] == NoComments(rest[1..]);
      if !(rest[0].kind in s || rest[0].kind == nulsym) {
        BareSkip(NextToken(rest), s);
      }
    }
  }

  lemma BareTest(st: PState, s1: set<Kind>, s2: set<Kind>)
    requires Off(st)
    ensures Test(Bare(st), s1, s2) == Bare(Test(st, s1, s2)) && Off(Test(st, s1, s2))
  {
    BareToken(st);
    BareSkip(st.rest, s1 + s2);
  }

  // ---------- expressions ----------

  /** Code that leaves one more register in use has been emitted, and the parser has gone on to the next token. */
  function Loaded(st: PState, op: Opcode, l: int, m: int): PState {
    st.Emit(op, st.reg, l, m).(reg := st.reg + 1).Next()
  }

  lemma BareLoaded(st: PState, op: Opcode, l: int, m: int)
    requires Off(st)
    ensures Loaded(Bare(st), op, l, m) == Bare(Loaded(st, op, l, m)) && Off(Loaded(st, op, l, m))
  {
    hide NoComments, NextToken, AppendAll;
    BareToken(st);
  }

  /** A factor that is a name or a number, or is none. */
  function Operand(st: PState): Result<Factor> {
    match st.Kind()
    case identsym => (
      match st.Lookup(st.Name())
      case None => Err(11)
      case Some(s) =>
        match s.kind
        case VAR => Ok(Ident(st.Name()), Loaded(st, LOD, st.level - s.level, s.addr))
        case CONST => Ok(Ident(st.Name()), Loaded(st, LIT, 0, s.val))
        case PROC => Err(21))
    case numbersym =>
      if st.Value() > MAX_NUMBER then Err(25) else Ok(Number(st.Value()), Loaded(st, LIT, 0, st.Value()))
    case _ => Err(23)
  }

  lemma OperandParsed(st0: PState, fsys: set<Kind>)
    requires Test(st0, FACBEGSYS, fsys).Kind() != lparentsym
    ensures ParseFactor(st0, fsys) == Operand(Test(st0, FACBEGSYS, fsys))
  {
    hide NextToken, GetSymbol, AppendAll, Test, ParseExpr;
  }

  lemma BareOperand(st: PState)
    requires Off(st)
    ensures Matches(Operand(st), Operand(Bare(st)))
  {
    hide NoComments, Loaded, GetSymbol;
    BareToken(st);
    match st.Lookup(st.Name())
    case None => BareLoaded(st, LIT, 0, st.Value());
    case Some(s) =>
      BareLoaded(st, LOD, st.level - s.level, s.addr);
      BareLoaded(st, LIT, 0, s.val);
      BareLoaded(st, LIT, 0, st.Value());
  }

  lemma {:induction false} BareFactor(st0: PState, fsys: set<Kind>)
    requires Off(st0)
    ensures Matches(ParseFactor(st0, fsys), ParseFactor(Bare(st0), fsys))
    decreases |st0.rest|, 0
  {
    hide NoComments, NextToken, GetSymbol, AppendAll, Test, ParseExpr, Operand;
    var st := Test(st0, FACBEGSYS, fsys);
    BareTest(st0, FACBEGSYS, fsys);
    BareToken(st);
    if st.Kind() != lparentsym {
      OperandParsed(st0, fsys);
      OperandParsed(Bare(st0), fsys);
      BareOperand(st);
    } else {
      BareExpr(st.Next(), {rparentsym} + fsys);
      var r := ParseExpr(st.Next(), {rparentsym} + fsys);
      if r.Ok? {
        BareToken(r.st);
        BareTest(r.st, fsys, {lparentsym});
      }
    }
  }

  /** An operation on the last two registers has been emitted. */
  function Operated(st: PState, op: Opcode): PState {
    st.Emit(op, st.reg - 2, st.reg - 2, st.reg - 1).(reg := st.reg - 1)
  }

  lemma BareOperated(st: PState, op: Opcode)
    ensures Operated(Bare(st), op) == Bare(Operated(st, op)) && Operated(st, op).rest == st.rest
  {
    hide NoComments, AppendAll;
  }

  /** One turn of the loop over factors. */
  lemma FactorsTurn(st: PState, fsys: set<Kind>)
    requires st.Kind() == multsym || st.Kind() == slashsym
    ensures var op := if st.Kind() == multsym then Times else Divide;
            var r := ParseFactor(st.Next(), fsys);
            (if r.Err? then ParseFactors(st, fsys) == Err(r.error)
             else if r.Crash? then ParseFactors(st, fsys) == Crash
             else
               var more := ParseFactors(Operated(r.st, MulOpcode(op)), fsys);
               if more.Err? then ParseFactors(st, fsys) == Err(more.error)
               else if more.Crash? then ParseFactors(st, fsys) == Crash
               else ParseFactors(st, fsys) == Ok(MoreFactors(op, r.value, more.value), more.st))
  {
    hide NextToken, AppendAll, ParseFactor;
  }

  lemma {:induction false} BareFactors(st: PState, fsys: set<Kind>)
    requires Off(st)
    ensures Matches(ParseFactors(st, fsys), ParseFactors(Bare(st), fsys))
    decreases |st.rest|, 1
  {
    BareToken(st);
    if st.Kind() == multsym || st.Kind() == slashsym {
      hide NoComments, NextToken, Operated, ParseFactor, ParseFactors;
      FactorsTurn(st, fsys);
      FactorsTurn(Bare(st), fsys);
      BareFactor(st.Next(), fsys);
      var r := ParseFactor(st.Next(), fsys);
      if r.Ok? {
        var op := MulOpcode(if st.Kind() == multsym then Times else Divide);
        BareOperated(r.st, op);
        BareFactors(Operated(r.st, op), fsys);
      }
    }
  }

  lemma {:induction false} BareTerm(st: PState, sign: Sign, fsys: set<Kind>)
    requires Off(st)
    ensures Matches(ParseTerm(st, sign, fsys), ParseTerm(Bare(st), sign, fsys))
    decreases |st.rest|, 2
  {
    hide NoComments, NextToken, AppendAll, ParseFactor, ParseFactors;
    var follow := fsys + {multsym, slashsym};
    BareFactor(st, follow);
    var r := ParseFactor(st, follow);
    if r.Ok? {
      BareFactors(if sign == MinusSign then r.st.Emit(NEG, r.st.reg - 1, r.st.reg - 1, 0) else r.st, follow);
    }
  }

  /** One turn of the loop over terms. */
  lemma TermsTurn(st: PState, fsys: set<Kind>)
    requires st.Kind() == plussym || st.Kind() == minussym
    ensures var op := if st.Kind() == plussym then Plus else Minus;
            var r := ParseTerm(st.Next(), NoSign, fsys);
            (if r.Err? then ParseTerms(st, fsys) == Err(r.error)
             else if r.Crash? then ParseTerms(st, fsys) == Crash
             else
               var more := ParseTerms(Operated(r.st, AddOpcode(op)), fsys);
               if more.Err? then ParseTerms(st, fsys) == Err(more.error)
               else if more.Crash? then ParseTerms(st, fsys) == Crash
               else ParseTerms(st, fsys) == Ok(MoreTerms(op, r.value, more.value), more.st))
  {
    hide NextToken, AppendAll, ParseTerm;
  }

  lemma {:induction false} BareTerms(st: PState, fsys: set<Kind>)
    requires Off(st)
    ensures Matches(ParseTerms(st, fsys), ParseTerms(Bare(st), fsys))
    decreases |st.rest|, 3
  {
    BareToken(st);
    if st.Kind() == plussym || st.Kind() == minussym {
      hide NoComments, NextToken, Operated, ParseTerm, ParseTerms;
      TermsTurn(st, fsys);
      TermsTurn(Bare(st), fsys);
      BareTerm(st.Next(), NoSign, fsys);
      var r := ParseTerm(st.Next(), NoSign, fsys);
      if r.Ok? {
        var op := AddOpcode(if st.Kind() == plussym then Plus else Minus);
        BareOperated(r.st, op);
        BareTerms(Operated(r.st, op), fsys);
      }
    }
  }

  lemma {:induction false} BareExpr(st: PState, fsys: set<Kind>)
    requires Off(st)
    ensures Matches(ParseExpr(st, fsys), ParseExpr(Bare(st), fsys))
    decreases |st.rest|, 4
  {
    hide NoComments, NextToken, ParseTerm, ParseTerms;
    var follow := fsys + {multsym, slashsym};
    BareToken(st);
    var sign := if st.Kind() == plussym then PlusSign else if st.Kind() == minussym then MinusSign else NoSign;
    var st1 := if sign == NoSign then st else st.Next();
    BareTerm(st1, sign, follow);
    var r := ParseTerm(st1, sign, follow);
    if r.Ok? {
      BareTerms(r.st, follow);
    }
  }

  lemma BareCond(st: PState, fsys: set<Kind>)
    requires Off(st)
    ensures Matches(ParseCond(st, fsys), ParseCond(Bare(st), fsys))
  {
    hide NoComments, NextToken, AppendAll, ParseExpr;
    BareToken(st);
    if st.Kind() == oddsym {
      BareExpr(st.Next(), fsys);
    } else {
      BareExpr(st, RELSET + fsys);
      var r := ParseExpr(st, RELSET + fsys);
      if r.Ok? {
        BareToken(r.st);
        BareExpr(r.st.Next(), fsys);
      }
    }
  }

  // ---------- statements ----------

  lemma BareAssign(st: PState, fsys: set<Kind>)
    requires Off(st) && st.Kind() == identsym
    ensures Bare(st).Kind() == identsym && Matches(ParseAssign(st, fsys), ParseAssign(Bare(st), fsys))
  {
    hide NoComments, NextToken, AppendAll, ParseExpr, GetSymbol;
    BareToken(st);
    BareToken(st.Next());
    BareExpr(st.Next().Next(), fsys);
  }

  lemma BareCall(st: PState)
    requires Off(st) && st.Kind() == callsym
    ensures Bare(st).Kind() == callsym && Matches(ParseCall(st), ParseCall(Bare(st)))
  {
    hide NoComments, NextToken, AppendAll, GetSymbol;
    BareToken(st);
    BareToken(st.Next());
  }

  lemma BareRead(st: PState)
    requires Off(st) && st.Kind() == readsym
    ensures Bare(st).Kind() == readsym && Matches(ParseRead(st), ParseRead(Bare(st)))
  {
    hide NoComments, NextToken, AppendAll, GetSymbol;
    BareToken(st);
    BareToken(st.Next());
  }

  lemma BareWrite(st: PState)
    requires Off(st) && st.Kind() == writesym
    ensures Bare(st).Kind() == writesym && Matches(ParseWrite(st), ParseWrite(Bare(st)))
  {
    hide NoComments, NextToken, AppendAll, GetSymbol;
    BareToken(st);
    BareToken(st.Next());
  }

  lemma {:induction false} BareIf(st: PState, fsys: set<Kind>)
    requires Off(st) && st.Kind() == ifsym
    ensures Bare(st).Kind() == ifsym && Matches(ParseIf(st, fsys), ParseIf(Bare(st), fsys))
    decreases |st.rest|, 5
  {
    hide NoComments, NextToken, AppendAll, ChangeM, Get, ParseCond, ParseStmt, ParseElse;
    BareToken(st);
    BareCond(st.Next(), {thensym, dosym} + fsys);
    var r := ParseCond(st.Next(), {thensym, dosym} + fsys);
    if r.Ok? {
      BareToken(r.st);
      if r.st.Kind() == thensym {
        var st1 := r.st.Next().Emit(JPC, r.st.reg - 1, 0, 0);
        BareStmt(st1, fsys);
        var r2 := ParseStmt(st1, fsys);
        if r2.Ok? {
          var st3 := r2.st.Emit(JMP, 0, 0, 0);
          BareElse(r.value, r2.value, st3.Patch(r.st.Length(), st3.Length()), r2.st.Length(), fsys);
        }
      }
    }
  }

  /** The jump at `j` has been patched to the end of the code, and a register given back. */
  function Joined(st: PState, j: int): PState {
    st.(reg := st.reg - 1).Patch(j, st.Length())
  }

  lemma BareJoined(st: PState, j: int)
    ensures Joined(Bare(st), j) == Bare(Joined(st, j)) && Joined(st, j).rest == st.rest
  {
    hide NoComments, Get, ChangeM;
  }

  lemma ElseParsed(c: Cond, t: Stmt, st: PState, j2: int, fsys: set<Kind>)
    ensures var r := ParseStmt(st.Next(), fsys);
            ParseElse(c, t, st, j2, fsys) ==
            if st.Kind() != elsesym then Ok(If(c, t), Joined(st, j2))
            else if r.Err? then Err(r.error)
            else if r.Crash? then Crash
            else Ok(IfElse(c, t, r.value), Joined(r.st, j2))
  {
    hide NextToken, ParseStmt, ChangeM, Get;
  }

  lemma {:induction false} BareElse(c: Cond, t: Stmt, st: PState, j2: int, fsys: set<Kind>)
    requires Off(st)
    ensures Matches(ParseElse(c, t, st, j2, fsys), ParseElse(c, t, Bare(st), j2, fsys))
    decreases |st.rest|, 5
  {
    hide NoComments, NextToken, ParseStmt, ParseElse, Joined;
    BareToken(st);
    ElseParsed(c, t, st, j2, fsys);
    ElseParsed(c, t, Bare(st), j2, fsys);
    BareJoined(st, j2);
    if st.Kind() == elsesym {
      BareStmt(st.Next(), fsys);
      var r := ParseStmt(st.Next(), fsys);
      if r.Ok? {
        BareJoined(r.st, j2);
      }
    }
  }

  lemma {:induction false} BareWhile(st: PState, fsys: set<Kind>)
    requires Off(st) && st.Kind() == whilesym
    ensures Bare(st).Kind() == whilesym && Matches(ParseWhile(st, fsys), ParseWhile(Bare(st), fsys))
    decreases |st.rest|, 5
  {
    hide NoComments, NextToken, AppendAll, ChangeM, Get, ParseCond, ParseStmt;
    BareToken(st);
    BareCond(st.Next(), {dosym} + fsys);
    var r := ParseCond(st.Next(), {dosym} + fsys);
    if r.Ok? {
      BareToken(r.st);
      if r.st.Kind() == dosym {
        BareStmt(r.st.Next().Emit(JPC, r.st.reg - 1, 0, 0), fsys);
      }
    }
  }

  lemma {:induction false} BareBegin(st: PState, fsys: set<Kind>)
    requires Off(st) && st.Kind() == beginsym
    ensures Bare(st).Kind() == beginsym && Matches(ParseBegin(st, fsys), ParseBegin(Bare(st), fsys))
    decreases |st.rest|, 5
  {
    hide NoComments, NextToken, AppendAll, ParseStmt, ParseStmts;
    var follow := {semicolonsym, endsym} + fsys;
    BareToken(st);
    BareStmt(st.Next(), follow);
    var r := ParseStmt(st.Next(), follow);
    if r.Ok? {
      BareStmts(r.st, follow);
      var r2 := ParseStmts(r.st, follow);
      if r2.Ok? {
        BareToken(r2.st);
      }
    }
  }

  lemma {:induction false} BareStmts(st: PState, follow: set<Kind>)
    requires Off(st)
    ensures Matches(ParseStmts(st, follow), ParseStmts(Bare(st), follow))
    decreases |st.rest|, 7
  {
    hide NoComments, NextToken, ParseStmt;
    BareToken(st);
    if st.Kind() == semicolonsym || st.Kind() in STATBEGSYS {
      var st1 := if st.Kind() == semicolonsym then st.Next() else st;
      BareStmt(st1, follow);
      var r := ParseStmt(st1, follow);
      if r.Ok? {
        BareStmts(r.st, follow);
      }
    }
  }

  lemma {:induction false} BareStmt(st: PState, fsys: set<Kind>)
    requires Off(st)
    ensures Matches(ParseStmt(st, fsys), ParseStmt(Bare(st), fsys))
    decreases |st.rest|, 6
  {
    hide NoComments, NextToken, Test, ParseAssign, ParseCall, ParseBegin, ParseIf, ParseWhile, ParseRead, ParseWrite;
    BareToken(st);
    match st.Kind()
    case identsym => BareAssign(st, fsys);
    case callsym => BareCall(st);
    case beginsym => BareBegin(st, fsys);
    case ifsym => BareIf(st, fsys);
    case whilesym => BareWhile(st, fsys);
    case readsym => BareRead(st);
    case writesym => BareWrite(st);
    case _ => BareTest(st, fsys, {});
  }

  // ---------- declarations ----------

  lemma BareConst(st: PState)
    requires Off(st) && st.rest != []
    ensures Bare(st).rest != [] && Matches(ParseConst(st), ParseConst(Bare(st)))
  {
    hide NoComments, NextToken, PutSymbol;
    BareToken(st);
    BareToken(st.Next());
    BareToken(st.Next().Next());
    BareToken(st.Next().Next().Next());
  }

  lemma {:induction false} BareConsts(st: PState)
    requires Off(st) && st.rest != []
    ensures Bare(st).rest != [] && Matches(ParseConsts(st), ParseConsts(Bare(st)))
    decreases |st.rest|
  {
    hide NoComments, NextToken, ParseConst;
    BareConst(st);
    var r := ParseConst(st);
    if r.Ok? {
      BareToken(r.st);
      if r.st.Kind() == commasym {
        BareConsts(r.st);
      }
    }
  }

  lemma BareMakeVar(st: PState, x: string)
    requires 0 <= st.level < |st.offsets|
    ensures MakeVar(Bare(st), x) == Bare(MakeVar(st, x)) && MakeVar(st, x).rest == st.rest
  {
    hide NoComments, PutSymbol;
  }

  lemma {:induction false} BareVars(st: PState)
    requires Off(st) && st.rest != []
    ensures Bare(st).rest != [] && Matches(ParseVars(st), ParseVars(Bare(st)))
    decreases |st.rest|
  {
    hide NoComments, NextToken, MakeVar;
    BareToken(st);
    var st1 := st.Next();
    BareToken(st1);
    if st1.Kind() == identsym && 0 <= st1.level < |st1.offsets| {
      BareMakeVar(st1, st1.Name());
      var st2 := MakeVar(st1, st1.Name()).Next();
      BareToken(MakeVar(st1, st1.Name()));
      BareToken(st2);
      if st2.Kind() == commasym {
        BareVars(st2);
      }
    }
  }

  lemma BareEnd(st: PState, x: string, blk: Block, fsys: set<Kind>)
    requires Off(st)
    ensures Matches(EndProc(st, x, blk, fsys), EndProc(Bare(st), x, blk, fsys))
  {
    hide NoComments, NextToken, Test;
    BareToken(st);
    BareTest(st.Next(), STATBEGSYS + {identsym, procsym}, fsys);
  }

  /** The header of a procedure: the state its block is parsed in. */
  lemma BareHeader(st: PState)
    requires Off(st)
    ensures var st1 := st.Next();
            var st2 := MakeProc(st1, st1.Name()).Next();
            && Off(st1) && Bare(st).Next() == Bare(st1)
            && Bare(st1).Kind() == st1.Kind() && Bare(st1).Name() == st1.Name()
            && Off(st2) && MakeProc(Bare(st1), st1.Name()).Next() == Bare(st2) && Bare(st2).Kind() == st2.Kind()
            && Off(st2.Next()) && Bare(st2).Next() == Bare(st2.Next())
  {
    hide NoComments, NextToken, PutSymbol, FreeSet;
    BareToken(st);
    var st1 := st.Next();
    BareToken(st1);
    BareToken(MakeProc(st1, st1.Name()));
    BareToken(MakeProc(st1, st1.Name()).Next());
  }

  lemma {:induction false} BareProc(st: PState, fsys: set<Kind>)
    requires Off(st) && st.Kind() == procsym
    ensures Bare(st).Kind() == procsym && Matches(ParseProc(st, fsys), ParseProc(Bare(st), fsys))
    decreases |st.rest|, 7
  {
    hide NoComments, NextToken, TakeSet, MakeProc, EndProc, ParseBlock;
    BareToken(st);
    BareHeader(st);
    var st1 := st.Next();
    var st2 := MakeProc(st1, st1.Name()).Next();
    HeaderShrinks(st);
    if st1.Kind() == identsym && st2.Kind() == semicolonsym {
      var st3 := st2.Next().(level := st2.level + 1);
      BareBlock(st3, {semicolonsym} + fsys);
      var r := ParseBlock(st3, {semicolonsym} + fsys);
      if r.Ok? {
        BareEnd(r.st.(level := r.st.level - 1), st1.Name(), r.value, fsys);
      }
    }
  }

  lemma HeaderShrinks(st: PState)
    requires st.rest != []
    ensures |MakeProc(st.Next(), st.Next().Name()).Next().Next().rest| < |st.rest|
  {
    hide NextToken;
  }

  lemma {:induction false} BareProcs(st: PState, fsys: set<Kind>)
    requires Off(st)
    ensures Matches(ParseProcs(st, fsys), ParseProcs(Bare(st), fsys))
    decreases |st.rest|, 8
  {
    hide NoComments, NextToken, ParseProc;
    BareToken(st);
    if st.Kind() == procsym {
      BareProc(st, fsys);
      var r := ParseProc(st, fsys);
      if r.Ok? {
        BareProcs(r.st, fsys);
      }
    }
  }

  lemma BareConstSection(st: PState, had: bool)
    requires Off(st)
    ensures Matches(ConstSection(st, had), ConstSection(Bare(st), had))
  {
    hide NoComments, ParseConsts;
    BareToken(st);
    if st.Kind() == constsym {
      BareConsts(st);
    }
  }

  lemma BareVarSection(st: PState, had: bool)
    requires Off(st)
    ensures Matches(VarSection(st, had), VarSection(Bare(st), had))
  {
    hide NoComments, ParseVars;
    BareToken(st);
    if st.Kind() == varsym {
      BareVars(st);
    }
  }

  lemma {:induction false} BareSections(st: PState, fsys: set<Kind>, had: Sections)
    requires Off(st)
    ensures Matches(ParseSections(st, fsys, had), ParseSections(Bare(st), fsys, had))
    decreases |st.rest|, 9
  {
    hide NoComments, NextToken, ConstSection, VarSection, ParseProcs, AppendDecls;
    BareConstSection(st, had.consts);
    var r1 := ConstSection(st, had.consts);
    if r1.Ok? {
      BareVarSection(r1.st, had.vars);
      var r2 := VarSection(r1.st, had.vars);
      if r2.Ok? {
        BareToken(r2.st);
        SectionsShrink(st, had);
        BareProcs(r2.st, fsys);
      }
    }
  }

  lemma SectionsShrink(st: PState, had: Sections)
    requires ConstSection(st, had.consts).Ok? && VarSection(ConstSection(st, had.consts).st, had.vars).Ok?
    ensures |VarSection(ConstSection(st, had.consts).st, had.vars).st.rest| <= |st.rest|
  {
    hide ConstSection, VarSection;
  }

  /** Where another declaration follows, the sections before it have consumed a token. */
  lemma DeclsGoOn(st: PState, fsys: set<Kind>, had: Sections)
    requires ParseSections(st, fsys, had).Ok?
    ensures var st1 := ParseSections(st, fsys, had).st.(cur := st.cur);
            var st2 := Test(st1, STATBEGSYS + {identsym}, DECLBEGSYS);
            st2.Kind() in DECLBEGSYS ==> |st2.rest| < |st.rest|
  {
    hide ParseSections, NextToken;
  }

  lemma {:induction false} BareDecls(st: PState, fsys: set<Kind>, had: Sections)
    requires Off(st)
    ensures Matches(ParseDecls(st, fsys, had), ParseDecls(Bare(st), fsys, had))
    decreases |st.rest|, 10
  {
    hide NoComments, NextToken, Test, ParseSections, AppendDecls;
    BareToken(st);
    BareSections(st, fsys, had);
    var r := ParseSections(st, fsys, had);
    if r.Ok? {
      var st1 := r.st.(cur := st.cur);
      BareTest(st1, STATBEGSYS + {identsym}, DECLBEGSYS);
      var st2 := Test(st1, STATBEGSYS + {identsym}, DECLBEGSYS);
      BareToken(st2);
      if st2.Kind() in DECLBEGSYS {
        DeclsGoOn(st, fsys, had);
        BareDecls(st2, fsys, r.value.1);
      }
    }
  }

  lemma {:induction false} BareBlock(st: PState, fsys: set<Kind>)
    requires Off(st)
    ensures Matches(ParseBlock(st, fsys), ParseBlock(Bare(st), fsys))
    decreases |st.rest|, 11
  {
    hide NoComments, NextToken, Test, ParseDecls, ParseStmt;
    BareDecls(st, fsys, Sections(false, false, false));
    var r := ParseDecls(st, fsys, Sections(false, false, false));
    if r.Ok? {
      BareStmt(r.st, {semicolonsym, endsym} + fsys);
      var r2 := ParseStmt(r.st, {semicolonsym, endsym} + fsys);
      if r2.Ok? {
        BareTest(r2.st, fsys, {});
      }
    }
  }

  // ---------- programs ----------

  /**
    A program with its comments, wherever they stand, comes to what it comes to without them: the
    same tree with the same code and tables, or the same error, or the same crash.
   */
  lemma CommentsSkipped(toks: seq<Token>)
    ensures match ParseProgram(toks)
            case Ok(tree, st) =>
              var bare := ParseProgram(NoComments(toks));
              bare.Ok? && bare.value == tree && bare.st == st.(rest := NoComments(st.rest))
            case failed => ParseProgram(NoComments(toks)) == failed
  {
    hide NoComments, NextToken, InitParse, ParseBlock, Prepend, AppendAll, VarCount;
    BareInit(toks);
    var st := InitParse(toks);
    BareBlock(st, PROGSYS);
    var r := ParseBlock(st, PROGSYS);
    if r.Ok? {
      BareToken(r.st);
    }
  }

  /** So the machine code is the same. */
  lemma CommentsLeaveCode(toks: seq<Token>)
    ensures CompiledCode(toks) == CompiledCode(NoComments(toks))
  {
    hide NoComments, ParseProgram, Link;
    CommentsSkipped(toks);
  }

  /** A comment in front of anything leaves the other tokens of the text as they were. */
  lemma CommentRead(c: string, rest: string)
    requires |c| >= 4 && c[0] == '/' && c[1] == '*' && c[|c| - 2] == '*' && c[|c| - 1] == '/' && rest != []
    requires forall i :: 2 <= i < |c| - 2 ==> !(c[i] == '*' && c[i + 1] == '/')
    ensures NoComments(TokensOf(ScanAll(c + rest))) == NoComments(TokensOf(ScanAll(rest)))
  {
    hide ScanAt, NoComments, TokensOf;
    var n, s := |c|, c + rest;
    CommentExact(s, n);
    assert s[n..] == rest;
    assert ScanAll(s) == [EntryOf(s, commentsym, n)] + ScanAll(rest);
    CommentDropped(EntryOf(s, commentsym, n), ScanAll(rest));
  }

  lemma CommentDropped(e: Entry, es: seq<Entry>)
    requires e.kind == commentsym
    ensures NoComments(TokensOf([e] + es)) == NoComments(TokensOf(es))
  {
    assert ([e] + es)[1..] == es;
    var toks := TokensOf([e] + es);
    assert toks[0].kind == commentsym && toks[1..] == TokensOf(es);
  }

  lemma BareInit(toks: seq<Token>)
    ensures InitParse(NoComments(toks)) == Bare(InitParse(toks)) && Off(InitParse(toks))
  {
    hide NoComments;
    SkipKeeps(toks);
    NoneLeft(toks);
  }
}
