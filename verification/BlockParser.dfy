/** Declarations, blocks and the program parsed over the parser's state. */
module BlockParser {
  import opened Common
  import opened Machine
  import opened Syntax
  import opened Symbols
  import opened CodeSets
  import opened CodeStore
  import opened Parsing
  import opened ParserState
  import opened StmtParser

  lemma {:induction false} AppendDeclsTwice(a: Decls, b: Decls, c: Decls)
    ensures AppendDecls(AppendDecls(a, b), c) == AppendDecls(a, AppendDecls(b, c))
    decreases a
  {
    match a
    case NoDecls =>
    case ConstDecl(_, _, next) => AppendDeclsTwice(next, b, c);
    case VarDecl(_, next) => AppendDeclsTwice(next, b, c);
    case ProcDecl(_, _, next) => AppendDeclsTwice(next, b, c);
  }

  lemma {:induction false} AppendDeclsNone(a: Decls)
    ensures AppendDecls(a, NoDecls) == a
    decreases a
  {
    match a
    case NoDecls =>
    case ConstDecl(_, _, next) => AppendDeclsNone(next);
    case VarDecl(_, next) => AppendDeclsNone(next);
    case ProcDecl(_, _, next) => AppendDeclsNone(next);
  }

  /** What parsing declarations gives when `a` have been parsed before. */
  function AfterDecls(a: Decls, r: Result<Decls>): Result<Decls> {
    if r.Ok? then Ok(AppendDecls(a, r.value), r.st) else r
  }

  /** One declaration in front of what follows: `one` is a single declaration, `next` comes behind it. */
  lemma AfterOne(acc: Decls, one: Decls, r: Result<Decls>, all: Result<Decls>)
    requires all == AfterDecls(one, r)
    ensures AfterDecls(acc, all) == AfterDecls(AppendDecls(acc, one), r)
  {
    if r.Ok? {
      AppendDeclsTwice(acc, one, r.value);
    }
  }

  lemma AppendToOne(b: Decls)
    ensures forall x, v :: AppendDecls(ConstDecl(x, v, NoDecls), b) == ConstDecl(x, v, b)
    ensures forall x :: AppendDecls(VarDecl(x, NoDecls), b) == VarDecl(x, b)
    ensures forall x, blk :: AppendDecls(ProcDecl(x, blk, NoDecls), b) == ProcDecl(x, blk, b)
  {
  }

  lemma ConstsStep(st: PState, st4: PState, x: string, v: int)
    requires st.rest != [] && st.Next().Kind() == identsym && x == st.Next().Name()
    requires st.Next().Next().Kind() == eqlsym
    requires var st3 := st.Next().Next().Next();
             && st3.Kind() == numbersym && v == st3.Value() <= MAX_NUMBER && 0 <= st3.level < |st3.offsets|
             && st4 == MakeConst(st3, x, v).Next()
    ensures st4.Kind() == commasym ==> ParseConsts(st) == AfterDecls(ConstDecl(x, v, NoDecls), ParseConsts(st4))
    ensures st4.Kind() == semicolonsym ==> ParseConsts(st) == Ok(ConstDecl(x, v, NoDecls), st4.Next())
    ensures st4.Kind() !in {commasym, semicolonsym} ==> ParseConsts(st) == Err(5)
  {
    hide MakeConst, NextToken, AppendDecls;
    if st4.Kind() == commasym && ParseConsts(st4).Ok? {
      AppendToOne(ParseConsts(st4).value);
    }
  }

  lemma VarsStep(st: PState, st2: PState, x: string)
    requires st.rest != [] && st.Next().Kind() == identsym && x == st.Next().Name()
    requires 0 <= st.level < |st.offsets|
    requires st2 == MakeVar(st.Next(), x).Next()
    ensures st2.Kind() == commasym ==> ParseVars(st) == AfterDecls(VarDecl(x, NoDecls), ParseVars(st2))
    ensures st2.Kind() == semicolonsym ==> ParseVars(st) == Ok(VarDecl(x, NoDecls), st2.Next())
    ensures st2.Kind() !in {commasym, semicolonsym} ==> ParseVars(st) == Err(5)
  {
    hide MakeVar, NextToken, AppendDecls;
    if st2.Kind() == commasym && ParseVars(st2).Ok? {
      AppendToOne(ParseVars(st2).value);
    }
  }

  // ---------- the methods ----------

  method ConstsParse(p: Parser) returns (r: Parsed<Decls>)
    requires p.Valid() && p.View().rest != []
    modifies p.Repr
    ensures p.Valid() && Agrees(r, ParseConsts(old(p.View())), p.View())
  {
    hide p.Valid, p.View, NextToken, PutSymbol, AppendDecls;
    ghost var start := p.View();
    var d := NoDecls;
    StartDecls(ParseConsts(start));
    while true
      invariant p.Valid() && p.View().rest != []
      invariant ParseConsts(start) == AfterDecls(d, ParseConsts(p.View()))
      decreases |p.View().rest|
    {
      ghost var st := p.View();
      p.GetToken();
      if p.Kind() != identsym {
        return Failed(4);
      }
      var x := p.Name();
      p.GetToken();
      if p.Kind() != eqlsym {
        return Failed(if p.Kind() == becomessym then 1 else 3);
      }
      p.GetToken();
      if p.Kind() != numbersym {
        return Failed(2);
      }
      var v := p.Value();
      if v > MAX_NUMBER {
        return Failed(25);
      }
      p.CurrentIsSet();
      if !(0 <= p.Level() < MAX_LEXI_LEVELS) {
        return Crashed;
      }
      p.MakeConstSymbol(x, v);
      p.GetToken();
      ConstsStep(st, p.View(), x, v);
      if p.Kind() == commasym {
        AfterOne(d, ConstDecl(x, v, NoDecls), ParseConsts(p.View()), ParseConsts(st));
      }
      d := AppendDecls(d, ConstDecl(x, v, NoDecls));
      if p.Kind() != commasym {
        break;
      }
    }
    if p.Kind() != semicolonsym {
      return Failed(5);
    }
    p.GetToken();
    return Good(d);
  }

  lemma StartDecls(r: Result<Decls>)
    ensures AfterDecls(NoDecls, r) == r
  {
  }

  method VarsParse(p: Parser) returns (r: Parsed<Decls>)
    requires p.Valid() && p.View().rest != []
    modifies p.Repr
    ensures p.Valid() && Agrees(r, ParseVars(old(p.View())), p.View())
  {
    hide p.Valid, p.View, NextToken, PutSymbol, AppendDecls;
    ghost var start := p.View();
    var d := NoDecls;
    StartDecls(ParseVars(start));
    while true
      invariant p.Valid() && p.View().rest != []
      invariant ParseVars(start) == AfterDecls(d, ParseVars(p.View()))
      decreases |p.View().rest|
    {
      ghost var st := p.View();
      p.GetToken();
      if p.Kind() != identsym {
        return Failed(4);
      }
      p.CurrentIsSet();
      if !(0 <= p.Level() < MAX_LEXI_LEVELS) {
        return Crashed;
      }
      var x := p.Name();
      p.MakeVarSymbol(x);
      p.GetToken();
      VarsStep(st, p.View(), x);
      if p.Kind() == commasym {
        AfterOne(d, VarDecl(x, NoDecls), ParseVars(p.View()), ParseVars(st));
      }
      d := AppendDecls(d, VarDecl(x, NoDecls));
      if p.Kind() != commasym {
        break;
      }
    }
    if p.Kind() != semicolonsym {
      return Failed(5);
    }
    p.GetToken();
    return Good(d);
  }

  lemma MakeProcKeeps(st: PState, x: string)
    ensures MakeProc(st, x).rest == st.rest && MakeProc(st, x).level == st.level
  {
  }

  method ProcParse(p: Parser, fsys: set<Kind>) returns (r: Parsed<(string, Block)>)
    requires p.Valid() && p.View().Kind() == procsym
    modifies p.Repr
    ensures p.Valid() && Agrees(r, ParseProc(old(p.View()), fsys), p.View())
    decreases |p.View().rest|, 7
  {
    hide p.Valid, p.View, NextToken, ParseBlock, MakeProc, EndProc;
    p.GetToken();
    if p.Kind() != identsym {
      return Failed(4);
    }
    var x := p.Name();
    MakeProcKeeps(p.View(), x);
    p.MakeProcSymbol(x);
    p.GetToken();
    if p.Kind() != semicolonsym {
      return Failed(6);
    }
    p.GetToken();
    p.AddLevel(1);
    var body := BlockParse(p, {semicolonsym} + fsys);
    match body {
      case Failed(n) => return Failed(n);
      case Crashed => return Crashed;
      case Good(b) =>
        p.AddLevel(-1);
        r := ProcEnd(p, x, b, fsys);
    }
  }

  method ProcEnd(p: Parser, x: string, b: Block, fsys: set<Kind>) returns (r: Parsed<(string, Block)>)
    requires p.Valid()
    modifies p.Repr
    ensures p.Valid() && Agrees(r, EndProc(old(p.View()), x, b, fsys), p.View())
  {
    hide p.Valid, p.View, NextToken, Prepend, VarCount;
    if p.Kind() != semicolonsym {
      return Failed(6);
    }
    p.GetToken();
    p.TestToken(STATBEGSYS + {identsym, procsym}, fsys);
    p.VariableSpace(VarCount(b.decls) + 4);
    return Good((x, b));
  }

  method ProcsParse(p: Parser, fsys: set<Kind>) returns (r: Parsed<Decls>)
    requires p.Valid()
    modifies p.Repr
    ensures p.Valid() && Agrees(r, ParseProcs(old(p.View()), fsys), p.View())
    decreases |p.View().rest|, 8
  {
    hide p.Valid, p.View, NextToken, ParseProc, AppendDecls;
    ghost var start := p.View();
    var d := NoDecls;
    StartDecls(ParseProcs(start, fsys));
    while p.Kind() == procsym
      invariant p.Valid() && |p.View().rest| <= |start.rest|
      invariant ParseProcs(start, fsys) == AfterDecls(d, ParseProcs(p.View(), fsys))
      decreases |p.View().rest|
    {
      ghost var st := p.View();
      var proc := ProcParse(p, fsys);
      match proc {
        case Failed(n) => return Failed(n);
        case Crashed => return Crashed;
        case Good(q) =>
          var one := ProcDecl(q.0, q.1, NoDecls);
          ProcsStep(st, fsys);
          AfterOne(d, one, ParseProcs(p.View(), fsys), ParseProcs(st, fsys));
          d := AppendDecls(d, one);
      }
    }
    AppendDeclsNone(d);
    return Good(d);
  }

  lemma ProcsStep(st: PState, fsys: set<Kind>)
    requires st.Kind() == procsym && ParseProc(st, fsys).Ok?
    ensures var q := ParseProc(st, fsys);
            ParseProcs(st, fsys) == AfterDecls(ProcDecl(q.value.0, q.value.1, NoDecls), ParseProcs(q.st, fsys))
  {
    hide ParseProc, AppendDecls;
    var r := ParseProcs(ParseProc(st, fsys).st, fsys);
    if r.Ok? {
      AppendToOne(r.value);
    }
  }

  /** The constants of a block, if any come here; a second section of them is not survived. */
  method ConstSectionParse(p: Parser, had: bool) returns (r: Parsed<Decls>)
    requires p.Valid()
    modifies p.Repr
    ensures p.Valid() && Agrees(r, ConstSection(old(p.View()), had), p.View())
  {
    hide p.Valid, p.View, NextToken, ParseConsts;
    if p.Kind() != constsym {
      return Good(NoDecls);
    }
    if had {
      return Crashed;
    }
    r := ConstsParse(p);
  }

  method VarSectionParse(p: Parser, had: bool) returns (r: Parsed<Decls>)
    requires p.Valid()
    modifies p.Repr
    ensures p.Valid() && Agrees(r, VarSection(old(p.View()), had), p.View())
  {
    hide p.Valid, p.View, NextToken, ParseVars;
    if p.Kind() != varsym {
      return Good(NoDecls);
    }
    if had {
      return Crashed;
    }
    r := VarsParse(p);
  }

  /** One section of each kind, all optional. */
  method SectionsParse(p: Parser, fsys: set<Kind>, had: Sections) returns (r: Parsed<(Decls, Sections)>)
    requires p.Valid()
    modifies p.Repr
    ensures p.Valid() && Agrees(r, ParseSections(old(p.View()), fsys, had), p.View())
    decreases |p.View().rest|, 9
  {
    hide p.Valid, p.View, NextToken, ConstSection, VarSection, ParseProcs, AppendDecls;
    var d1, d2, d3 := NoDecls, NoDecls, NoDecls;
    var consts := ConstSectionParse(p, had.consts);
    match consts {
      case Failed(n) => return Failed(n);
      case Crashed => return Crashed;
      case Good(d) => d1 := d;
    }
    var vars := VarSectionParse(p, had.vars);
    match vars {
      case Failed(n) => return Failed(n);
      case Crashed => return Crashed;
      case Good(d) => d2 := d;
    }
    if p.Kind() == procsym && had.procs {
      return Crashed;
    }
    var procs := ProcsParse(p, fsys);
    match procs {
      case Failed(n) => return Failed(n);
      case Crashed => return Crashed;
      case Good(d) => d3 := d;
    }
    return Good((AppendDecls(d1, AppendDecls(d2, d3)),
                 Sections(had.consts || d1 != NoDecls, had.vars || d2 != NoDecls, had.procs || d3 != NoDecls)));
  }

  /** The loop over sections, as long as recovery finds another declaration. */
  method DeclsParse(p: Parser, fsys: set<Kind>, had0: Sections) returns (r: Parsed<Decls>)
    requires p.Valid()
    modifies p.Repr
    ensures p.Valid() && Agrees(r, ParseDecls(old(p.View()), fsys, had0), p.View())
    decreases |p.View().rest|, 10
  {
    hide p.Valid, p.View, NextToken, ParseSections, AppendDecls;
    ghost var start := p.View();
    var d := NoDecls;
    var had := had0;
    StartDecls(ParseDecls(start, fsys, had));
    while true
      invariant p.Valid() && |p.View().rest| <= |start.rest|
      invariant ParseDecls(start, fsys, had0) == AfterDecls(d, ParseDecls(p.View(), fsys, had))
      decreases |p.View().rest|
    {
      ghost var st := p.View();
      var oldProcedure := p.Current();
      p.CurrentIsSet();
      var sections := SectionsParse(p, fsys, had);
      match sections {
        case Failed(n) => return Failed(n);
        case Crashed => return Crashed;
        case Good(s) =>
          p.SetCurrent(oldProcedure);
          p.TestToken(STATBEGSYS + {identsym}, DECLBEGSYS);
          DeclsStep(st, fsys, had);
          if p.Kind() in DECLBEGSYS {
            AfterOne(d, s.0, ParseDecls(p.View(), fsys, s.1), ParseDecls(st, fsys, had));
          }
          d := AppendDecls(d, s.0);
          if p.Kind() !in DECLBEGSYS {
            return Good(d);
          }
          had := s.1;
      }
    }
  }

  lemma DeclsStep(st: PState, fsys: set<Kind>, had: Sections)
    requires ParseSections(st, fsys, had).Ok?
    ensures var s := ParseSections(st, fsys, had);
            var st2 := Test(s.st.(cur := st.cur), STATBEGSYS + {identsym}, DECLBEGSYS);
            if st2.Kind() in DECLBEGSYS then
              && ParseDecls(st, fsys, had) == AfterDecls(s.value.0, ParseDecls(st2, fsys, s.value.1))
              && |st2.rest| < |st.rest|
            else ParseDecls(st, fsys, had) == Ok(s.value.0, st2)
  {
    hide ParseSections;
  }

  method BlockParse(p: Parser, fsys: set<Kind>) returns (r: Parsed<Block>)
    requires p.Valid()
    modifies p.Repr
    ensures p.Valid() && Agrees(r, ParseBlock(old(p.View()), fsys), p.View())
    decreases |p.View().rest|, 11
  {
    hide p.Valid, p.View, NextToken, ParseDecls, ParseStmt;
    var decls := DeclsParse(p, fsys, Sections(false, false, false));
    match decls {
      case Failed(n) => return Failed(n);
      case Crashed => return Crashed;
      case Good(d) =>
        var body := StatementParse(p, {semicolonsym, endsym} + fsys);
        match body {
          case Failed(n) => return Failed(n);
          case Crashed => return Crashed;
          case Good(s) =>
            p.TestToken(fsys, {});
            return Good(Block(d, s));
        }
    }
  }

  /** The parser, started on a token file: what it returns and leaves is what ParseProgram says. */
  method ProgramParse(toks: seq<Token>) returns (p: Parser, r: Parsed<Block>)
    ensures p.Valid() && fresh(p.Repr) && Agrees(r, ParseProgram(toks), p.View())
  {
    hide ParseBlock, TakeSet, SkipComments, AppendAll, Prepend, VarCount, PROGSYS;
    p := new Parser(toks);
    p.FirstToken();
    p.GetFreeSet();
    var block := BlockParse(p, PROGSYS);
    match block {
      case Failed(n) => return p, Failed(n);
      case Crashed => return p, Crashed;
      case Good(b) =>
        if p.Kind() != periodsym && p.Kind() != nulsym {
          return p, Failed(9);
        }
        p.VariableSpace(VarCount(b.decls) + 4);
        p.Emit(SIO, 0, 0, 3);
        return p, Good(b);
    }
  }
}
