/** Expressions and conditions parsed, and their code emitted, by loops over the parser's state. */
module ExprParser {
  import opened Common
  import opened Machine
  import opened Syntax
  import opened Symbols
  import opened Compile
  import opened CodeSets
  import opened CodeStore
  import opened Parsing
  import opened ParserState

  // ---------- lists extended at their end ----------

  function AppendFactors(a: Factors, b: Factors): Factors {
    match a
    case NoFactors => b
    case MoreFactors(op, f, next) => MoreFactors(op, f, AppendFactors(next, b))
  }

  lemma {:induction false} AppendFactorsTwice(a: Factors, b: Factors, c: Factors)
    ensures AppendFactors(AppendFactors(a, b), c) == AppendFactors(a, AppendFactors(b, c))
    decreases a
  {
    if a.MoreFactors? {
      AppendFactorsTwice(a.next, b, c);
    }
  }

  lemma {:induction false} AppendFactorsNone(a: Factors)
    ensures AppendFactors(a, NoFactors) == a
    decreases a
  {
    if a.MoreFactors? {
      AppendFactorsNone(a.next);
    }
  }

  function AppendTerms(a: Terms, b: Terms): Terms {
    match a
    case NoTerms => b
    case MoreTerms(op, t, next) => MoreTerms(op, t, AppendTerms(next, b))
  }

  lemma {:induction false} AppendTermsTwice(a: Terms, b: Terms, c: Terms)
    ensures AppendTerms(AppendTerms(a, b), c) == AppendTerms(a, AppendTerms(b, c))
    decreases a
  {
    if a.MoreTerms? {
      AppendTermsTwice(a.next, b, c);
    }
  }

  lemma {:induction false} AppendTermsNone(a: Terms)
    ensures AppendTerms(a, NoTerms) == a
    decreases a
  {
    if a.MoreTerms? {
      AppendTermsNone(a.next);
    }
  }

  /** What parsing factors gives when `a` have been parsed before. */
  function AfterFactors(a: Factors, r: Result<Factors>): Result<Factors> {
    if r.Ok? then Ok(AppendFactors(a, r.value), r.st) else r
  }

  function AfterTerms(a: Terms, r: Result<Terms>): Result<Terms> {
    if r.Ok? then Ok(AppendTerms(a, r.value), r.st) else r
  }

  /** One more factor parsed: the loop goes on where the recursion would. */
  lemma FactorsLoop(acc: Factors, st: PState, fsys: set<Kind>, op: MulOp, st2: PState)
    requires st.Kind() == (if op == Times then multsym else slashsym)
    requires ParseFactor(st.Next(), fsys).Ok?
    requires var st1 := ParseFactor(st.Next(), fsys).st;
             st2 == st1.Emit(MulOpcode(op), st1.reg - 2, st1.reg - 2, st1.reg - 1).(reg := st1.reg - 1)
    ensures var one := MoreFactors(op, ParseFactor(st.Next(), fsys).value, NoFactors);
            AfterFactors(acc, ParseFactors(st, fsys)) == AfterFactors(AppendFactors(acc, one), ParseFactors(st2, fsys))
  {
    hide ParseFactor, AppendFactors;
    var r := ParseFactors(st2, fsys);
    var f := ParseFactor(st.Next(), fsys).value;
    if r.Ok? {
      var one := MoreFactors(op, f, NoFactors);
      AppendFactorsTwice(acc, one, r.value);
      AppendFactorsOne(op, f, r.value);
    }
  }

  lemma AppendFactorsOne(op: MulOp, f: Factor, b: Factors)
    ensures AppendFactors(MoreFactors(op, f, NoFactors), b) == MoreFactors(op, f, b)
  {
  }

  lemma TermsLoop(acc: Terms, st: PState, fsys: set<Kind>, op: AddOp, st2: PState)
    requires st.Kind() == (if op == Plus then plussym else minussym)
    requires ParseTerm(st.Next(), NoSign, fsys).Ok?
    requires var st1 := ParseTerm(st.Next(), NoSign, fsys).st;
             st2 == st1.Emit(AddOpcode(op), st1.reg - 2, st1.reg - 2, st1.reg - 1).(reg := st1.reg - 1)
    ensures var one := MoreTerms(op, ParseTerm(st.Next(), NoSign, fsys).value, NoTerms);
            AfterTerms(acc, ParseTerms(st, fsys)) == AfterTerms(AppendTerms(acc, one), ParseTerms(st2, fsys))
  {
    hide ParseTerm, AppendTerms;
    var r := ParseTerms(st2, fsys);
    var t := ParseTerm(st.Next(), NoSign, fsys).value;
    if r.Ok? {
      var one := MoreTerms(op, t, NoTerms);
      AppendTermsTwice(acc, one, r.value);
      AppendTermsOne(op, t, r.value);
    }
  }

  lemma AppendTermsOne(op: AddOp, t: Term, b: Terms)
    ensures AppendTerms(MoreTerms(op, t, NoTerms), b) == MoreTerms(op, t, b)
  {
  }

  // ---------- the methods ----------

  method FactorParse(p: Parser, fsys: set<Kind>) returns (r: Parsed<Factor>)
    requires p.Valid()
    modifies p.Repr
    ensures p.Valid() && Agrees(r, ParseFactor(old(p.View()), fsys), p.View())
    decreases |p.View().rest|, 0
  {
    hide p.Valid, p.View, NextToken, ParseExpr, AppendAll, GetSymbol;
    p.TestToken(FACBEGSYS, fsys);
    match p.Kind() {
      case identsym =>
        var x := p.Name();
        var sym := p.Lookup(x);
        if sym.None? {
          return Failed(11);
        }
        match sym.value.kind {
          case VAR =>
            p.Emit(LOD, p.Register(), p.Level() - sym.value.level, sym.value.addr);
            p.AddRegister(1);
          case CONST =>
            p.Emit(LIT, p.Register(), 0, sym.value.val);
            p.AddRegister(1);
          case PROC =>
            return Failed(21);
        }
        p.GetToken();
        return Good(Ident(x));
      case numbersym =>
        var v := p.Value();
        if v > MAX_NUMBER {
          return Failed(25);
        }
        p.Emit(LIT, p.Register(), 0, v);
        p.AddRegister(1);
        p.GetToken();
        return Good(Number(v));
      case lparentsym =>
        p.GetToken();
        var e := ExpressionParse(p, {rparentsym} + fsys);
        match e {
          case Failed(n) => return Failed(n);
          case Crashed => return Crashed;
          case Good(tree) =>
            if p.Kind() == rparentsym {
              p.GetToken();
            } else {
              p.TestToken(fsys, {lparentsym});
            }
            return Good(Paren(tree));
        }
      case _ =>
        return Failed(23);
    }
  }

  method TermParse(p: Parser, sign: Sign, fsys: set<Kind>) returns (r: Parsed<Term>)
    requires p.Valid()
    modifies p.Repr
    ensures p.Valid() && Agrees(r, ParseTerm(old(p.View()), sign, fsys), p.View())
    decreases |p.View().rest|, 2
  {
    hide p.Valid, p.View, NextToken, ParseFactor, ParseFactors, AppendAll;
    var follow := fsys + {multsym, slashsym};
    var first := FactorParse(p, follow);
    match first {
      case Failed(n) => return Failed(n);
      case Crashed => return Crashed;
      case Good(f) =>
        if sign == MinusSign {
          p.Emit(NEG, p.Register() - 1, p.Register() - 1, 0);
        }
        var more := FactorsParse(p, follow);
        match more {
          case Failed(n) => return Failed(n);
          case Crashed => return Crashed;
          case Good(fs) => return Good(Term(f, fs));
        }
    }
  }

  /** The loop over further factors. */
  method FactorsParse(p: Parser, follow: set<Kind>) returns (r: Parsed<Factors>)
    requires p.Valid()
    modifies p.Repr
    ensures p.Valid() && Agrees(r, ParseFactors(old(p.View()), follow), p.View())
    decreases |p.View().rest|, 1
  {
    hide p.Valid, p.View, NextToken, ParseFactor, AppendAll;
    ghost var start := p.View();
    var fs := NoFactors;
    while p.Kind() == multsym || p.Kind() == slashsym
      invariant p.Valid()
      invariant |p.View().rest| <= |start.rest|
      invariant ParseFactors(start, follow) == AfterFactors(fs, ParseFactors(p.View(), follow))
      decreases |p.View().rest|
    {
      ghost var st := p.View();
      var op := if p.Kind() == multsym then Times else Divide;
      p.GetToken();
      var next := FactorParse(p, follow);
      match next {
        case Failed(n) => return Failed(n);
        case Crashed => return Crashed;
        case Good(g) =>
          p.Emit(MulOpcode(op), p.Register() - 2, p.Register() - 2, p.Register() - 1);
          p.AddRegister(-1);
          FactorsLoop(fs, st, follow, op, p.View());
          fs := AppendFactors(fs, MoreFactors(op, g, NoFactors));
      }
    }
    AppendFactorsNone(fs);
    return Good(fs);
  }

  method ExpressionParse(p: Parser, fsys: set<Kind>) returns (r: Parsed<Expr>)
    requires p.Valid()
    modifies p.Repr
    ensures p.Valid() && Agrees(r, ParseExpr(old(p.View()), fsys), p.View())
    decreases |p.View().rest|, 4
  {
    hide p.Valid, p.View, NextToken, ParseTerm, ParseTerms, AppendAll;
    var follow := fsys + {multsym, slashsym};
    var sign := NoSign;
    if p.Kind() == plussym || p.Kind() == minussym {
      sign := if p.Kind() == plussym then PlusSign else MinusSign;
      p.GetToken();
    }
    var first := TermParse(p, sign, follow);
    match first {
      case Failed(n) => return Failed(n);
      case Crashed => return Crashed;
      case Good(t) =>
        var more := TermsParse(p, follow);
        match more {
          case Failed(n) => return Failed(n);
          case Crashed => return Crashed;
          case Good(ts) => return Good(Expr(sign, t, ts));
        }
    }
  }

  /** The loop over further terms. */
  method TermsParse(p: Parser, follow: set<Kind>) returns (r: Parsed<Terms>)
    requires p.Valid()
    modifies p.Repr
    ensures p.Valid() && Agrees(r, ParseTerms(old(p.View()), follow), p.View())
    decreases |p.View().rest|, 3
  {
    hide p.Valid, p.View, NextToken, ParseTerm, AppendAll;
    ghost var start := p.View();
    var ts := NoTerms;
    while p.Kind() == plussym || p.Kind() == minussym
      invariant p.Valid()
      invariant |p.View().rest| <= |start.rest|
      invariant ParseTerms(start, follow) == AfterTerms(ts, ParseTerms(p.View(), follow))
      decreases |p.View().rest|
    {
      ghost var st := p.View();
      var op := if p.Kind() == plussym then Plus else Minus;
      p.GetToken();
      var next := TermParse(p, NoSign, follow);
      match next {
        case Failed(n) => return Failed(n);
        case Crashed => return Crashed;
        case Good(u) =>
          p.Emit(AddOpcode(op), p.Register() - 2, p.Register() - 2, p.Register() - 1);
          p.AddRegister(-1);
          TermsLoop(ts, st, follow, op, p.View());
          ts := AppendTerms(ts, MoreTerms(op, u, NoTerms));
      }
    }
    AppendTermsNone(ts);
    return Good(ts);
  }

  method ConditionParse(p: Parser, fsys: set<Kind>) returns (r: Parsed<Cond>)
    requires p.Valid()
    modifies p.Repr
    ensures p.Valid() && Agrees(r, ParseCond(old(p.View()), fsys), p.View())
  {
    hide p.Valid, p.View, NextToken, ParseExpr, AppendAll;
    if p.Kind() == oddsym {
      p.GetToken();
      var right := ExpressionParse(p, fsys);
      match right {
        case Failed(n) => return Failed(n);
        case Crashed => return Crashed;
        case Good(e) =>
          p.Emit(ODD, p.Register() - 1, p.Register() - 1, 0);
          return Good(Odd(e));
      }
    }
    var left := ExpressionParse(p, RELSET + fsys);
    match left {
      case Failed(n) => return Failed(n);
      case Crashed => return Crashed;
      case Good(l) =>
        var op := RelOf(p.Kind());
        if op.None? {
          return Failed(20);
        }
        p.GetToken();
        var right := ExpressionParse(p, fsys);
        match right {
          case Failed(n) => return Failed(n);
          case Crashed => return Crashed;
          case Good(e) =>
            p.Emit(RelOpcode(op.value), p.Register() - 2, p.Register() - 2, p.Register() - 1);
            p.AddRegister(-1);
            return Good(Compare(op.value, l, e));
        }
    }
  }
}
