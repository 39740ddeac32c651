/** The unparser for expressions and conditions, character by character, and what reading its text gives. */
module Unparse {
  import opened Syntax
  import opened Symbols
  import opened Parsing
  import opened Emission
  import opened RoundTrip
  import opened Lexing
  import opened SourceText

  // ---------- the text ----------

  function NumberText(v: int): string {
    if v < 0 then "-" + Digits(-v) else Digits(v)
  }

  function PrintFactor(f: Factor): string {
    match f
    case Ident(x) => x
    case Number(v) => NumberText(v)
    case Paren(e) => "(" + PrintExpr(e) + ")"
  }

  function PrintFactors(fs: Factors): string {
    match fs
    case NoFactors => ""
    case MoreFactors(op, f, next) => " " + SymbolText(MulKind(op)) + " " + PrintFactor(f) + PrintFactors(next)
  }

  function PrintTerm(t: Term): string {
    " " + PrintFactor(t.factor) + PrintFactors(t.factors)
  }

  function PrintTerms(ts: Terms): string {
    match ts
    case NoTerms => ""
    case MoreTerms(op, t, next) => SymbolText(AddKind(op)) + PrintTerm(t) + PrintTerms(next)
  }

  function SignText(s: Sign): string {
    match s
    case NoSign => ""
    case PlusSign => "+"
    case MinusSign => "-"
  }

  function PrintExpr(e: Expr): string {
    SignText(e.sign) + PrintTerm(e.term) + PrintTerms(e.terms)
  }

  function PrintCond(c: Cond): string {
    match c
    case Odd(e) => "odd" + PrintExpr(e)
    case Compare(op, l, r) => PrintExpr(l) + " " + SymbolText(RelKind(op)) + PrintExpr(r)
  }

  /** A number is printed in decimal notation without leading zeros, a negative one behind a minus sign. */
  lemma NumberTextExact(v: int)
    ensures var x := NumberText(v);
            var digits := if v < 0 then x[1..] else x;
            && AllDigits(digits) && digits != [] && (v != 0 ==> digits[0] != '0')
            && (v < 0 ==> x[0] == '-' && ValueOf(digits) == -v)
            && (v >= 0 ==> ValueOf(digits) == v)
  {
    var n := if v < 0 then -v else v;
    ValueOfDigits(n);
    LeadingDigit(n);
    assert v < 0 ==> NumberText(v)[1..] == Digits(n);
  }

  lemma {:induction false} LeadingDigit(v: nat)
    ensures Digits(v) != [] && (v != 0 ==> Digits(v)[0] != '0')
    decreases v
  {
    if v >= 10 {
      LeadingDigit(v / 10);
    }
  }

  // ---------- the printing methods ----------

  method FactorUnParse(f: Factor) returns (text: string)
    ensures text == PrintFactor(f)
    decreases f, 0
  {
    match f {
      case Ident(x) => text := x;
      case Number(v) => text := NumberText(v);
      case Paren(e) =>
        var inner := ExpressionUnParse(e);
        text := "(" + inner + ")";
    }
  }

  /** The loop over the factors of a term. */
  method TermUnParse(t: Term) returns (text: string)
    ensures text == PrintTerm(t)
    decreases t, 0
  {
    var first := FactorUnParse(t.factor);
    text := " " + first;
    var ptr := t.factors;
    while ptr != NoFactors
      invariant ptr == t.factors || ptr < t.factors
      invariant text + PrintFactors(ptr) == PrintTerm(t)
      decreases ptr
    {
      var next := FactorUnParse(ptr.factor);
      ghost var whole := text + PrintFactors(ptr);
      text := text + (" " + SymbolText(MulKind(ptr.op)) + " " + next);
      ptr := ptr.next;
      assert text + PrintFactors(ptr) == whole;
    }
  }

  /** The loop over the terms of an expression. */
  method ExpressionUnParse(e: Expr) returns (text: string)
    ensures text == PrintExpr(e)
    decreases e, 0
  {
    var first := TermUnParse(e.term);
    text := SignText(e.sign) + first;
    var ptr := e.terms;
    while ptr != NoTerms
      invariant ptr == e.terms || ptr < e.terms
      invariant text + PrintTerms(ptr) == PrintExpr(e)
      decreases ptr
    {
      var next := TermUnParse(ptr.term);
      ghost var whole := text + PrintTerms(ptr);
      text := text + (SymbolText(AddKind(ptr.op)) + next);
      ptr := ptr.next;
      assert text + PrintTerms(ptr) == whole;
    }
  }

  method ConditionUnParse(c: Cond) returns (text: string)
    ensures text == PrintCond(c)
  {
    match c {
      case Odd(e) =>
        var right := ExpressionUnParse(e);
        text := "odd" + right;
      case Compare(op, l, r) =>
        var left := ExpressionUnParse(l);
        var right := ExpressionUnParse(r);
        text := left + " " + SymbolText(RelKind(op)) + right;
    }
  }

  // ---------- scanning the text ----------

  /** The tokens of a text. */
  function Read(s: string): seq<Token> {
    TokensOf(ScanAll(s))
  }

  predicate AllLegal(toks: seq<Token>) {
    forall t :: t in toks ==> LegalToken(t)
  }

  /** Ends a word or a number. */
  predicate Stops(rest: string) {
    rest != [] && !IsAlnum(rest[0])
  }

  lemma LegalParts(a: seq<Token>, b: seq<Token>)
    requires AllLegal(a + b)
    ensures AllLegal(a) && AllLegal(b)
  {
    assert forall t :: t in a ==> t in a + b;
    assert forall t :: t in b ==> t in a + b;
  }

  lemma ReadLexeme(x: string, k: Kind, rest: string)
    requires x != [] && ScanAt(x + rest) == Lexeme(k, |x|) && k != nulsym && k != commentsym
    ensures Read(x + rest) == [TokenOf(Entry(k, x))] + Read(rest)
  {
    hide ScanAt, TokenOf;
    assert (x + rest)[|x|..] == rest && (x + rest)[..|x|] == x;
    var es := ScanAll(rest);
    assert ScanAll(x + rest) == [Entry(k, x)] + es;
    assert ([Entry(k, x)] + es)[1..] == es;
  }

  lemma ReadBlank(rest: string)
    ensures Read(" " + rest) == Read(rest)
  {
    BlankSkipped(rest);
  }

  /** A one- or two-character symbol that what follows does not make longer. */
  lemma ReadSymbol(k: Kind, rest: string)
    requires k in {plussym, minussym, multsym, slashsym, eqlsym, neqsym, lessym, leqsym, gtrsym, geqsym, lparentsym,
                   rparentsym}
    requires rest != [] && (k in {slashsym, lessym, gtrsym} ==> rest[0] !in {'*', '=', '>'})
    ensures Read(SymbolText(k) + rest) == [Sym(k)] + Read(rest)
  {
    var x := SymbolText(k);
    assert ScanAt(x + rest) == Lexeme(k, |x|) by {
      hide WordKind;
    }
    ReadLexeme(x, k, rest);
  }

  lemma ReadName(x: string, rest: string)
    requires LegalName(x) && Stops(rest)
    ensures Read(x + rest) == [Id(x)] + Read(rest)
  {
    hide WordKind;
    AlnumRunAll(x, rest);
    assert (x + rest)[..|x|] == x;
    ReadLexeme(x, identsym, rest);
  }

  lemma ReadNumber(v: int, rest: string)
    requires 0 <= v < Pow10(MAX_NUMBER_LENGTH) && Stops(rest)
    ensures Read(NumberText(v) + rest) == [Num(v)] + Read(rest)
  {
    var x := Digits(v);
    ValueOfDigits(v);
    DigitsLength(v, MAX_NUMBER_LENGTH);
    DigitRunAll(x, rest);
    ReadLexeme(x, numbersym, rest);
  }

  lemma {:induction false} ReadFactor(f: Factor, rest: string)
    requires AllLegal(RenderFactor(f)) && Stops(rest)
    ensures Read(PrintFactor(f) + rest) == RenderFactor(f) + Read(rest)
    decreases f
  {
    hide Read, ScanAt;
    match f
    case Ident(x) =>
      assert LegalToken(RenderFactor(f)[0]);
      ReadName(x, rest);
    case Number(v) =>
      assert LegalToken(RenderFactor(f)[0]);
      ReadNumber(v, rest);
    case Paren(e) =>
      var l, r := [Sym(lparentsym)], [Sym(rparentsym)];
      LegalParts(l + RenderExpr(e), r);
      LegalParts(l, RenderExpr(e));
      assert PrintFactor(f) + rest == "(" + (PrintExpr(e) + (")" + rest));
      ReadSymbol(lparentsym, PrintExpr(e) + (")" + rest));
      ReadExpr(e, ")" + rest);
      ReadSymbol(rparentsym, rest);
  }

  lemma {:induction false} ReadFactors(fs: Factors, rest: string)
    requires AllLegal(RenderFactors(fs)) && Stops(rest)
    ensures Read(PrintFactors(fs) + rest) == RenderFactors(fs) + Read(rest)
    ensures Stops(PrintFactors(fs) + rest)
    decreases fs
  {
    hide Read, ScanAt;
    match fs
    case NoFactors => assert PrintFactors(fs) + rest == rest;
    case MoreFactors(op, f, next) =>
      var o := [Sym(MulKind(op))];
      LegalParts(o + RenderFactor(f), RenderFactors(next));
      LegalParts(o, RenderFactor(f));
      var tail := PrintFactors(next) + rest;
      assert PrintFactors(fs) + rest == " " + (SymbolText(MulKind(op)) + (" " + (PrintFactor(f) + tail)));
      ReadFactors(next, rest);
      ReadFactor(f, tail);
      ReadBlank(PrintFactor(f) + tail);
      ReadSymbol(MulKind(op), " " + (PrintFactor(f) + tail));
      ReadBlank(SymbolText(MulKind(op)) + (" " + (PrintFactor(f) + tail)));
  }

  lemma {:induction false} ReadTerm(t: Term, rest: string)
    requires AllLegal(RenderTerm(t)) && Stops(rest)
    ensures Read(PrintTerm(t) + rest) == RenderTerm(t) + Read(rest)
    decreases t
  {
    hide Read, ScanAt;
    LegalParts(RenderFactor(t.factor), RenderFactors(t.factors));
    var tail := PrintFactors(t.factors) + rest;
    assert PrintTerm(t) + rest == " " + (PrintFactor(t.factor) + tail);
    ReadFactors(t.factors, rest);
    ReadFactor(t.factor, tail);
    ReadBlank(PrintFactor(t.factor) + tail);
  }

  lemma {:induction false} ReadTerms(ts: Terms, rest: string)
    requires AllLegal(RenderTerms(ts)) && Stops(rest)
    ensures Read(PrintTerms(ts) + rest) == RenderTerms(ts) + Read(rest)
    ensures Stops(PrintTerms(ts) + rest)
    decreases ts
  {
    hide Read, ScanAt, PrintTerm, RenderTerm;
    match ts
    case NoTerms => assert PrintTerms(ts) + rest == rest;
    case MoreTerms(op, t, next) =>
      var o := [Sym(AddKind(op))];
      LegalParts(o + RenderTerm(t), RenderTerms(next));
      LegalParts(o, RenderTerm(t));
      var tail := PrintTerms(next) + rest;
      assert PrintTerms(ts) + rest == SymbolText(AddKind(op)) + (PrintTerm(t) + tail);
      ReadTerms(next, rest);
      ReadTerm(t, tail);
      ReadSymbol(AddKind(op), PrintTerm(t) + tail);
  }

  /** Scanning what the unparser prints for an expression gives the tokens of its concrete syntax. */
  lemma {:induction false} ReadExpr(e: Expr, rest: string)
    requires AllLegal(RenderExpr(e)) && Stops(rest)
    ensures Read(PrintExpr(e) + rest) == RenderExpr(e) + Read(rest)
    decreases e
  {
    hide Read, ScanAt, PrintTerm, PrintTerms, RenderTerm, RenderTerms;
    LegalParts(RenderSign(e.sign) + RenderTerm(e.term), RenderTerms(e.terms));
    LegalParts(RenderSign(e.sign), RenderTerm(e.term));
    var tail := PrintTerms(e.terms) + rest;
    var body := PrintTerm(e.term) + tail;
    assert PrintExpr(e) + rest == SignText(e.sign) + body;
    ReadTerms(e.terms, rest);
    ReadTerm(e.term, tail);
    if e.sign == NoSign {
      assert SignText(e.sign) + body == body;
    } else {
      ReadSymbol(if e.sign == PlusSign then plussym else minussym, body);
    }
  }

  lemma PrintExprStart(e: Expr, rest: string)
    ensures PrintExpr(e) + rest != [] && (PrintExpr(e) + rest)[0] in {' ', '+', '-'}
  {
  }

  lemma ReadCond(c: Cond, rest: string)
    requires AllLegal(RenderCond(c)) && Stops(rest)
    ensures Read(PrintCond(c) + rest) == RenderCond(c) + Read(rest)
  {
    hide Read, ScanAt, PrintExpr, RenderExpr;
    match c
    case Odd(e) =>
      LegalParts([Sym(oddsym)], RenderExpr(e));
      PrintExprStart(e, rest);
      assert PrintCond(c) + rest == "odd" + (PrintExpr(e) + rest);
      ReadExpr(e, rest);
      ReadOdd(PrintExpr(e) + rest);
    case Compare(op, l, r) =>
      var o := [Sym(RelKind(op))];
      LegalParts(RenderExpr(l) + o, RenderExpr(r));
      LegalParts(RenderExpr(l), o);
      var right := PrintExpr(r) + rest;
      var tail := SymbolText(RelKind(op)) + right;
      PrintExprStart(r, rest);
      assert PrintCond(c) + rest == PrintExpr(l) + (" " + tail);
      ReadExpr(r, rest);
      ReadSymbol(RelKind(op), right);
      ReadBlank(tail);
      ReadExpr(l, " " + tail);
  }

  lemma ReadOdd(rest: string)
    requires Stops(rest)
    ensures Read("odd" + rest) == [Sym(oddsym)] + Read(rest)
  {
    AlnumRunAll("odd", rest);
    assert ("odd" + rest)[..3] == "odd";
    ReadLexeme("odd", oddsym, rest);
  }

  // ---------- and parsing it ----------

  /**
    Unparse, scan and parse: the text printed for an expression, read back in a place where its
    names are declared, gives the same tree and stops where the text did.
   */
  lemma UnparseExprRound(e: Expr, rest: string, st: PState, fsys: set<Kind>)
    requires AllLegal(RenderExpr(e)) && Stops(rest) && EndsExpr(Read(rest))
    requires st.rest == Read(PrintExpr(e) + rest) && GoodExpr(e, st.Env())
    ensures Gives(ParseExpr(st, fsys), e, Read(rest))
  {
    hide ParseExpr, PrintExpr, RenderExpr, Read, GoodExpr;
    ReadExpr(e, rest);
    ExprRound(e, st, Read(rest), fsys);
  }

  lemma UnparseCondRound(c: Cond, rest: string, st: PState, fsys: set<Kind>)
    requires AllLegal(RenderCond(c)) && Stops(rest) && EndsExpr(Read(rest))
    requires st.rest == Read(PrintCond(c) + rest) && GoodCond(c, st.Env())
    ensures Gives(ParseCond(st, fsys), c, Read(rest))
  {
    hide ParseCond, PrintCond, RenderCond, Read, GoodCond;
    ReadCond(c, rest);
    CondRound(c, st, Read(rest), fsys);
  }
}
