/** Tokens spelled out as text, and read back by the scanner. */
module SourceText {
  import opened Common
  import opened Syntax
  import opened Lexing

  // ---------- numbers ----------

  function Digit(d: nat): (c: char)
    requires d < 10
    ensures IsDigit(c) && c as int == '0' as int + d
  {
    ('0' as int + d) as char
  }

  /** Decimal notation. */
  function Digits(v: nat): string {
    if v < 10 then [Digit(v)] else Digits(v / 10) + [Digit(v % 10)]
  }

  /** The number a text of digits denotes; a character that is no digit counts as zero. */
  function ValueOf(s: string): nat {
    if s == [] then 0
    else
      var c := s[|s| - 1];
      ValueOf(s[..|s| - 1]) * 10 + if IsDigit(c) then c as int - '0' as int else 0
  }

  lemma {:induction false} ValueOfDigits(v: nat)
    ensures ValueOf(Digits(v)) == v && AllDigits(Digits(v)) && Digits(v) != []
    decreases v
  {
    if v < 10 {
      assert ValueOf([Digit(v)]) == ValueOf([]) * 10 + v;
    } else {
      ValueOfDigits(v / 10);
      assert Digits(v)[..|Digits(v)| - 1] == Digits(v / 10);
    }
  }

  function Pow10(n: nat): nat {
    if n == 0 then 1 else 10 * Pow10(n - 1)
  }

  lemma {:induction false} DigitsLength(v: nat, n: nat)
    requires 0 < n && v < Pow10(n)
    ensures |Digits(v)| <= n
    decreases n
  {
    if v >= 10 {
      DigitsLength(v / 10, n - 1);
    }
  }

  // ---------- tokens ----------

  /** How a token other than an identifier or a number is written. */
  function SymbolText(k: Kind): string {
    match k
    case plussym => "+"
    case minussym => "-"
    case multsym => "*"
    case slashsym => "/"
    case oddsym => "odd"
    case eqlsym => "="
    case neqsym => "<>"
    case lessym => "<"
    case leqsym => "<="
    case gtrsym => ">"
    case geqsym => ">="
    case lparentsym => "("
    case rparentsym => ")"
    case commasym => ","
    case semicolonsym => ";"
    case periodsym => "."
    case becomessym => ":="
    case beginsym => "begin"
    case endsym => "end"
    case ifsym => "if"
    case thensym => "then"
    case whilesym => "while"
    case dosym => "do"
    case callsym => "call"
    case constsym => "const"
    case varsym => "var"
    case procsym => "procedure"
    case writesym => "write"
    case readsym => "read"
    case elsesym => "else"
    case _ => ""
  }

  /** An identifier the scanner takes for one. */
  predicate LegalName(x: string) {
    1 <= |x| <= MAX_IDENT_LENGTH && IsAlpha(x[0]) && AllAlnum(x) && WordKind(x) == identsym
  }

  /** A token that can be written. */
  predicate LegalToken(t: Token) {
    match t.kind
    case nulsym => false
    case commentsym => false
    case identsym => LegalName(t.name) && t.value == 0
    case numbersym => 0 <= t.value < Pow10(MAX_NUMBER_LENGTH) && t.name == ""
    case _ => t.name == "" && t.value == 0
  }

  function TokenText(t: Token): string
    requires LegalToken(t)
  {
    match t.kind
    case identsym => t.name
    case numbersym => Digits(t.value)
    case _ => SymbolText(t.kind)
  }

  /** A program text: every token followed by a space. */
  function Spell(toks: seq<Token>): string
    requires forall t :: t in toks ==> LegalToken(t)
  {
    if toks == [] then [] else TokenText(toks[0]) + " " + Spell(toks[1..])
  }

  /** The token the parser reads for an entry of the token file. */
  function TokenOf(e: Entry): Token {
    match e.kind
    case identsym => Id(e.text)
    case numbersym => Num(ValueOf(e.text))
    case _ => Sym(e.kind)
  }

  function TokensOf(es: seq<Entry>): seq<Token> {
    if es == [] then [] else [TokenOf(es[0])] + TokensOf(es[1..])
  }

  // ---------- reading back ----------

  lemma {:induction false} DigitRunAll(x: string, rest: string)
    requires AllDigits(x) && (rest == [] || !IsDigit(rest[0]))
    ensures DigitRun(x + rest) == |x|
    decreases x
  {
    if x == [] {
      assert x + rest == rest;
    } else {
      assert (x + rest)[1..] == x[1..] + rest;
      DigitRunAll(x[1..], rest);
    }
  }

  lemma {:induction false} AlnumRunAll(x: string, rest: string)
    requires AllAlnum(x) && (rest == [] || !IsAlnum(rest[0]))
    ensures AlnumRun(x + rest) == |x|
    decreases x
  {
    if x == [] {
      assert x + rest == rest;
    } else {
      assert (x + rest)[1..] == x[1..] + rest;
      AlnumRunAll(x[1..], rest);
    }
  }

  predicate IsWord(k: Kind) {
    k in {oddsym, beginsym, endsym, ifsym, thensym, whilesym, dosym, callsym, constsym, varsym, procsym, writesym,
          readsym, elsesym}
  }

  lemma WordText(k: Kind)
    requires IsWord(k)
    ensures var x := SymbolText(k); 1 <= |x| <= MAX_IDENT_LENGTH && IsAlpha(x[0]) && AllAlnum(x) && WordKind(x) == k
  {
  }

  lemma ScanWordText(x: string, rest: string)
    requires 1 <= |x| <= MAX_IDENT_LENGTH && IsAlpha(x[0]) && AllAlnum(x)
    ensures ScanAt(x + " " + rest) == Lexeme(WordKind(x), |x|)
  {
    hide WordKind;
    AlnumRunAll(x, " " + rest);
    assert x + " " + rest == x + (" " + rest);
    assert (x + " " + rest)[..|x|] == x;
  }

  lemma ScanNumberText(x: string, rest: string)
    requires 1 <= |x| <= MAX_NUMBER_LENGTH && AllDigits(x)
    ensures ScanAt(x + " " + rest) == Lexeme(numbersym, |x|)
  {
    DigitRunAll(x, " " + rest);
    assert x + " " + rest == x + (" " + rest);
  }

  lemma ScanSymbolText(k: Kind, rest: string)
    requires !IsWord(k) && k !in {nulsym, identsym, numbersym, commentsym}
    ensures var x := SymbolText(k); x != [] && ScanAt(x + " " + rest) == Lexeme(k, |x|)
  {
    hide WordKind;
  }

  /** A spelled token is read back as itself, whatever follows the space. */
  lemma ScanToken(t: Token, rest: string)
    requires LegalToken(t)
    ensures var s := TokenText(t) + " " + rest;
            && s != [] && ScanAt(s) == Lexeme(t.kind, |TokenText(t)|) && t.kind != nulsym
            && TokenOf(EntryOf(s, t.kind, |TokenText(t)|)) == t
  {
    hide ScanAt, WordKind;
    var s := TokenText(t) + " " + rest;
    if t.kind == identsym {
      ScanWordText(t.name, rest);
    } else if t.kind == numbersym {
      ValueOfDigits(t.value);
      DigitsLength(t.value, MAX_NUMBER_LENGTH);
      ScanNumberText(TokenText(t), rest);
    } else if IsWord(t.kind) {
      WordText(t.kind);
      ScanWordText(TokenText(t), rest);
    } else {
      ScanSymbolText(t.kind, rest);
    }
    assert s[..|TokenText(t)|] == TokenText(t);
  }

  /** Scanning a space-terminated spelling of legal tokens gives the tokens back. */
  lemma {:induction false} SpellRound(toks: seq<Token>)
    requires forall t :: t in toks ==> LegalToken(t)
    ensures TokensOf(ScanAll(Spell(toks))) == toks
    decreases |toks|
  {
    hide ScanAt, TokenText, LegalToken, TokenOf;
    if toks != [] {
      var rest := Spell(toks[1..]);
      var x := TokenText(toks[0]);
      var s := x + " " + rest;
      ScanToken(toks[0], rest);
      SpellRound(toks[1..]);
      assert s[|x|..] == [' '] + rest;
      BlankSkipped(rest);
    }
  }

  lemma BlankSkipped(rest: string)
    ensures ScanAll([' '] + rest) == ScanAll(rest)
  {
    assert ([' '] + rest)[1..] == rest;
  }
}
