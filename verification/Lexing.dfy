/** What the scanner makes of a text, said without an automaton: the lexeme at its beginning. */
module Lexing {
  import opened Common
  import opened Syntax

  const MAX_IDENT_LENGTH := 11
  const MAX_NUMBER_LENGTH := 6
  const MAX_BUFFER_SIZE := MAX_IDENT_LENGTH + 2

  /** White space and control characters. */
  predicate IsBlank(c: char) {
    c <= ' ' || c as int == 127
  }

  predicate IsDigit(c: char) {
    '0' <= c <= '9'
  }

  predicate IsAlpha(c: char) {
    'a' <= c <= 'z' || 'A' <= c <= 'Z'
  }

  predicate IsAlnum(c: char) {
    IsAlpha(c) || IsDigit(c)
  }

  /** Length of the run of digits a text begins with. */
  function DigitRun(s: string): (n: nat)
    ensures n <= |s|
  {
    if s == [] || !IsDigit(s[0]) then 0 else 1 + DigitRun(s[1..])
  }

  /** Length of the run of letters and digits a text begins with. */
  function AlnumRun(s: string): (n: nat)
    ensures n <= |s|
  {
    if s == [] || !IsAlnum(s[0]) then 0 else 1 + AlnumRun(s[1..])
  }

  /** End of the first star and slash at or behind `i`. */
  function CommentEnd(s: string, i: nat): (e: Option<nat>)
    ensures e.Some? ==> i + 2 <= e.value <= |s| && s[e.value - 2] == '*' && s[e.value - 1] == '/'
    decreases |s| - i
  {
    if i + 1 >= |s| then None
    else if s[i] == '*' && s[i + 1] == '/' then Some(i + 2)
    else CommentEnd(s, i + 1)
  }

  /** Kind of a word: a reserved word's own, or identifier; "null" is reserved and stands for nothing. */
  function WordKind(x: string): Kind {
    if x == "null" then nulsym
    else if x == "begin" then beginsym
    else if x == "call" then callsym
    else if x == "const" then constsym
    else if x == "do" then dosym
    else if x == "else" then elsesym
    else if x == "end" then endsym
    else if x == "if" then ifsym
    else if x == "odd" then oddsym
    else if x == "procedure" then procsym
    else if x == "read" then readsym
    else if x == "then" then thensym
    else if x == "var" then varsym
    else if x == "while" then whilesym
    else if x == "write" then writesym
    else identsym
  }

  function OneCharKind(c: char): Option<Kind> {
    match c
    case '+' => Some(plussym)
    case '-' => Some(minussym)
    case '*' => Some(multsym)
    case '/' => Some(slashsym)
    case '=' => Some(eqlsym)
    case '<' => Some(lessym)
    case '>' => Some(gtrsym)
    case '(' => Some(lparentsym)
    case ')' => Some(rparentsym)
    case ',' => Some(commasym)
    case ';' => Some(semicolonsym)
    case '.' => Some(periodsym)
    case _ => None
  }

  function TwoCharKind(s: string): Option<Kind> {
    if |s| < 2 then None
    else if s[0] == '<' && s[1] == '=' then Some(leqsym)
    else if s[0] == '<' && s[1] == '>' then Some(neqsym)
    else if s[0] == '>' && s[1] == '=' then Some(geqsym)
    else if s[0] == ':' && s[1] == '=' then Some(becomessym)
    else None
  }

  /**
    What stands at the beginning of a text, and how many characters it takes. A lexeme is only
    complete when another character follows it.
   */
  datatype Scan =
    | Blank
    | Lexeme(kind: Kind, size: nat)
    | Reject(size: nat)
    | Unfinished

  /** A lexeme of `n` characters, if one more follows. */
  function Complete(s: string, kind: Kind, n: nat): Scan {
    if n < |s| then Lexeme(kind, n) else Unfinished
  }

  function ScanNumber(s: string): Scan {
    var n := DigitRun(s);
    if n > MAX_NUMBER_LENGTH then Reject(MAX_NUMBER_LENGTH + 1)
    else if n < |s| && IsAlpha(s[n]) then Reject(n + 1)
    else Complete(s, numbersym, n)
  }

  function ScanWord(s: string): Scan {
    var n := AlnumRun(s);
    if n > MAX_IDENT_LENGTH then Reject(MAX_IDENT_LENGTH + 1) else Complete(s, WordKind(s[..n]), n)
  }

  function ScanSymbol(s: string): Scan
    requires s != []
  {
    if |s| > 1 && s[0] == '/' && s[1] == '*' then
      match CommentEnd(s, 2)
      case None => Unfinished
      case Some(e) => Complete(s, commentsym, e)
    else if TwoCharKind(s).Some? then Complete(s, TwoCharKind(s).value, 2)
    else if s[0] == ':' then (if |s| > 1 then Reject(2) else Unfinished)
    else
      match OneCharKind(s[0])
      case None => Reject(1)
      case Some(k) => Complete(s, k, 1)
  }

  function ScanAt(s: string): Scan
    requires s != []
  {
    if IsBlank(s[0]) then Blank
    else if IsDigit(s[0]) then ScanNumber(s)
    else if IsAlpha(s[0]) then ScanWord(s)
    else ScanSymbol(s)
  }

  /** Characters the scanner moves on by. */
  function Taken(s: string): nat
    requires s != []
  {
    match ScanAt(s)
    case Blank => 1
    case Lexeme(_, n) => n
    case Reject(n) => n
    case Unfinished => |s|
  }

  /** An entry of the token list; the text of a comment is not kept. */
  datatype Entry = Entry(kind: Kind, text: string)

  function EntryOf(s: string, k: Kind, n: nat): Entry
    requires n <= |s|
  {
    Entry(k, if k == commentsym then "" else s[..n])
  }

  /** The lexemes of a text, up to what is unfinished at its end. */
  function ScanAll(s: string): seq<Entry>
    decreases |s|
  {
    if s == [] then []
    else
      TakenSome(s);
      var rest := ScanAll(s[Taken(s)..]);
      match ScanAt(s)
      case Lexeme(k, n) => if k == nulsym then rest else [EntryOf(s, k, n)] + rest
      case _ => rest
  }

  // ---------- progress ----------

  lemma DigitRunFirst(s: string)
    requires s != [] && IsDigit(s[0])
    ensures DigitRun(s) >= 1
  {
  }

  /** Every look at a text takes at least one character, and no more than there are. */
  lemma TakenSome(s: string)
    requires s != []
    ensures 0 < Taken(s) <= |s|
  {
    if IsDigit(s[0]) {
      DigitRunFirst(s);
    }
  }

  // ---------- the longest lexeme ----------

  predicate AllDigits(s: string) {
    forall i :: 0 <= i < |s| ==> IsDigit(s[i])
  }

  predicate AllAlnum(s: string) {
    forall i :: 0 <= i < |s| ==> IsAlnum(s[i])
  }

  /** A comment: opened, and closed for the first time at its end. */
  predicate IsComment(s: string) {
    && |s| >= 4 && s[0] == '/' && s[1] == '*' && s[|s| - 2] == '*' && s[|s| - 1] == '/'
    && forall i :: 2 <= i < |s| - 2 ==> !(s[i] == '*' && s[i + 1] == '/')
  }

  /** The lexical grammar: which texts are lexemes. */
  predicate IsLexeme(s: string) {
    || (1 <= |s| <= MAX_NUMBER_LENGTH && AllDigits(s))
    || (1 <= |s| <= MAX_IDENT_LENGTH && IsAlpha(s[0]) && AllAlnum(s))
    || (|s| == 1 && OneCharKind(s[0]).Some?)
    || (|s| == 2 && TwoCharKind(s).Some?)
    || IsComment(s)
  }

  lemma {:induction false} DigitRunIs(s: string)
    ensures AllDigits(s[..DigitRun(s)])
    ensures DigitRun(s) < |s| ==> !IsDigit(s[DigitRun(s)])
    decreases |s|
  {
    if s != [] && IsDigit(s[0]) {
      DigitRunIs(s[1..]);
      assert forall i :: 0 < i < DigitRun(s) ==> s[i] == s[1..][i - 1] == s[1..][..DigitRun(s[1..])][i - 1];
    }
  }

  lemma {:induction false} AlnumRunIs(s: string)
    ensures AllAlnum(s[..AlnumRun(s)])
    ensures AlnumRun(s) < |s| ==> !IsAlnum(s[AlnumRun(s)])
    decreases |s|
  {
    if s != [] && IsAlnum(s[0]) {
      AlnumRunIs(s[1..]);
      assert forall i :: 0 < i < AlnumRun(s) ==> s[i] == s[1..][i - 1] == s[1..][..AlnumRun(s[1..])][i - 1];
    }
  }

  lemma {:induction false} CommentEndIs(s: string, i: nat)
    ensures CommentEnd(s, i).Some? ==>
      forall j :: i <= j < CommentEnd(s, i).value - 2 ==> !(s[j] == '*' && s[j + 1] == '/')
    ensures CommentEnd(s, i).None? ==> forall j :: i <= j < |s| - 1 ==> !(s[j] == '*' && s[j + 1] == '/')
    decreases |s| - i
  {
    if i + 1 < |s| && !(s[i] == '*' && s[i + 1] == '/') {
      CommentEndIs(s, i + 1);
    }
  }

  /**
    Longest match: an accepted lexeme is one of the lexical grammar, and no longer beginning of
    the text is.
   */
  lemma LongestMatch(s: string, m: nat)
    requires s != [] && ScanAt(s).Lexeme? && ScanAt(s).size < m <= |s|
    ensures IsLexeme(s[..ScanAt(s).size]) && !IsLexeme(s[..m])
  {
    var n := ScanAt(s).size;
    var t := s[..m];
    DigitRunIs(s);
    AlnumRunIs(s);
    CommentEndIs(s, 2);
    if IsDigit(s[0]) {
      DigitRunFirst(s);
      assert t[n] == s[n];
    } else if IsAlpha(s[0]) {
      assert t[n] == s[n];
    } else if |s| > 1 && s[0] == '/' && s[1] == '*' {
      assert t[n - 2] == '*' && t[n - 1] == '/';
    } else {
      assert m >= 2 ==> t[1] == s[1];
    }
  }
}
