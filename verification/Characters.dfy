/** What the scanner takes for a blank, a word and a number, by the codes of characters. */
module Characters {
  import opened Common
  import opened Syntax
  import opened Lexing
  import opened SourceText

  /** ASCII codes of the letters A to Z and a to z. */
  predicate LetterCode(i: int) {
    65 <= i <= 90 || 97 <= i <= 122
  }

  /** ASCII codes of the digits 0 to 9. */
  predicate DigitCode(i: int) {
    48 <= i <= 57
  }

  predicate LetterOrDigitCode(i: int) {
    LetterCode(i) || DigitCode(i)
  }

  /** The codes skipped are 0 to 32, which include tab and newline, and 127. */
  lemma BlankExact(s: string)
    requires s != []
    ensures ScanAt(s) == Blank <==> s[0] as int <= 32 || s[0] as int == 127
  {
    hide WordKind, TwoCharKind, OneCharKind, CommentEnd;
  }

  /** The run a text begins with has exactly `n` characters. */
  lemma DigitRunExact(s: string, n: nat)
    requires n < |s|
    ensures DigitRun(s) == n <==> !IsDigit(s[n]) && forall i :: 0 <= i < n ==> IsDigit(s[i])
  {
    DigitRunIs(s);
    var m := DigitRun(s);
    assert forall i :: 0 <= i < m ==> s[..m][i] == s[i];
  }

  lemma AlnumRunExact(s: string, n: nat)
    requires n < |s|
    ensures AlnumRun(s) == n <==> !IsAlnum(s[n]) && forall i :: 0 <= i < n ==> IsAlnum(s[i])
  {
    AlnumRunIs(s);
    var m := AlnumRun(s);
    assert forall i :: 0 <= i < m ==> s[..m][i] == s[i];
  }

  /** Takes the first `n` characters as a word: a reserved one or an identifier. */
  predicate TakesWord(s: string, n: nat)
    requires s != []
  {
    var at := ScanAt(s);
    at.Lexeme? && at.size == n && (at.kind in {nulsym, identsym} || IsWord(at.kind))
  }

  /**
    The first `n` characters are taken as a word exactly when they are letters and digits, at most
    11, a letter first, and the one behind them is neither.
   */
  lemma WordExact(s: string, n: nat)
    requires 0 < n < |s|
    ensures TakesWord(s, n) <==>
      && n <= 11 && LetterCode(s[0] as int) && !LetterOrDigitCode(s[n] as int)
      && forall i :: 0 <= i < n ==> LetterOrDigitCode(s[i] as int)
    ensures TakesWord(s, n) ==> ScanAt(s).kind == WordKind(s[..n])
  {
    hide WordKind, CommentEnd;
    WordKinds(s[..n]);
    AlnumRunExact(s, n);
  }

  lemma WordKinds(x: string)
    ensures WordKind(x) in {nulsym, identsym} || IsWord(WordKind(x))
  {
  }

  /** The same of numbers, of at most 6 digits. */
  lemma NumberExact(s: string, n: nat)
    requires 0 < n < |s|
    ensures ScanAt(s) == Lexeme(numbersym, n) <==>
      && n <= 6 && !LetterOrDigitCode(s[n] as int)
      && forall i :: 0 <= i < n ==> DigitCode(s[i] as int)
  {
    hide CommentEnd;
    DigitRunExact(s, n);
  }

  /** A comment runs to the first star and slash behind its opening, and is one as soon as something follows. */
  lemma CommentExact(s: string, n: nat)
    requires 0 < n < |s|
    ensures ScanAt(s) == Lexeme(commentsym, n) <==>
      && n >= 4 && s[0] == '/' && s[1] == '*' && s[n - 2] == '*' && s[n - 1] == '/'
      && forall i :: 2 <= i < n - 2 ==> !(s[i] == '*' && s[i + 1] == '/')
  {
    hide WordKind, TwoCharKind, OneCharKind, CommentEnd;
    WordKinds(s[..AlnumRun(s)]);
    NoComment(s);
    if |s| > 2 {
      CommentEndIs(s, 2);
    }
  }

  /** No kind of symbol is that of a comment. */
  lemma NoComment(s: string)
    requires s != []
    ensures OneCharKind(s[0]) != Some(commentsym) && TwoCharKind(s) != Some(commentsym)
  {
  }

  lemma KindsOf(s: string)
    requires s != []
    ensures IsDigit(s[0]) && ScanAt(s).Lexeme? ==> ScanAt(s).kind == numbersym
    ensures IsAlpha(s[0]) && ScanAt(s).Lexeme? ==> ScanAt(s).kind in {nulsym, identsym} || IsWord(ScanAt(s).kind)
  {
    hide WordKind, CommentEnd;
    WordKinds(s[..AlnumRun(s)]);
  }

  /** Any other symbol is taken where it is written, unless a longer one or a comment is. */
  lemma SymbolExact(s: string, k: Kind, n: nat)
    requires 0 < n < |s| && !IsWord(k) && k !in {nulsym, identsym, numbersym, commentsym}
    ensures ScanAt(s) == Lexeme(k, n) <==>
      && s[..n] == SymbolText(k)
      && !(k == slashsym && s[1] == '*') && !(k == lessym && s[1] in {'=', '>'}) && !(k == gtrsym && s[1] == '=')
  {
    hide WordKind, CommentEnd, ScanNumber, ScanWord;
    KindsOf(s);
    if n <= 2 {
      assert s[..n] == if n == 1 then [s[0]] else [s[0], s[1]];
    }
  }

  /** A character that starts nothing: no blank, no letter, no digit, and none of the thirteen others. */
  lemma StrayExact(s: string)
    requires s != []
    ensures ScanAt(s) == Scan.Reject(1) <==>
      var i := s[0] as int;
      && 32 < i && i != 127 && !LetterOrDigitCode(i)
      && s[0] !in {'+', '-', '*', '/', '=', '<', '>', '(', ')', ',', ';', ':', '.'}
  {
    hide CommentEnd, WordKind;
  }

  /**
    What the scanner gives up at, and after how many characters: a stray one; a colon without its
    `=`; a letter in a number, or a seventh digit; the twelfth character of a word.
   */
  lemma RejectExact(s: string, n: nat)
    requires 0 < n <= |s|
    ensures ScanAt(s) == Scan.Reject(n) <==>
      || (n == 1 && ScanAt(s) == Scan.Reject(1))
      || (n == 2 && s[0] == ':' && s[1] != '=')
      || (2 <= n <= 7 && (forall i :: 0 <= i < n - 1 ==> DigitCode(s[i] as int))
          && (LetterCode(s[n - 1] as int) || (n == 7 && DigitCode(s[6] as int))))
      || (n == 12 && LetterCode(s[0] as int) && forall i :: 0 <= i < n ==> LetterOrDigitCode(s[i] as int))
  {
    hide CommentEnd, WordKind;
    DigitRunIs(s);
    AlnumRunIs(s);
    var d, w := DigitRun(s), AlnumRun(s);
    assert forall i :: 0 <= i < d ==> s[..d][i] == s[i];
    assert forall i :: 0 <= i < w ==> s[..w][i] == s[i];
    if n >= 2 {
      DigitRunExact(s, n - 1);
    }
  }

  /** Every word is an identifier but these. */
  lemma ReservedExact(x: string)
    ensures WordKind(x) != identsym <==>
      x in {"null", "begin", "call", "const", "do", "else", "end", "if", "odd", "procedure", "read", "then", "var",
            "while", "write"}
  {
  }

  /** The reserved word that stands for nothing is left out of the token list. */
  lemma NullDropped(rest: string)
    ensures ScanAll("null " + rest) == ScanAll(rest)
  {
    hide WordKind;
    var s := "null " + rest;
    ScanWordText("null", rest);
    assert s == "null" + " " + rest && s[4..] == [' '] + rest;
    NullKind();
    BlankSkipped(rest);
  }

  lemma NullKind()
    ensures WordKind("null") == nulsym
  {
  }

  /** A name is an identifier exactly when the scanner, reading it in front of a space, says so. */
  lemma LegalNameExact(x: string)
    requires x != []
    ensures LegalName(x) <==> ScanAt(x + " ") == Lexeme(identsym, |x|)
  {
    hide WordKind, CommentEnd;
    var s := x + " ";
    assert s[..|x|] == x;
    AlnumRunExact(s, |x|);
  }
}
