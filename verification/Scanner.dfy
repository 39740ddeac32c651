/** The scanner's automaton in place: one character at a time, with push-back, against ScanAt. */
module Scanner {
  import opened Common
  import opened Syntax
  import opened Lexing

  datatype Q =
    | START | DIGIT | ALPHA | PLUS | MINUS | MULT | DIV | EQL | LESS | LARGE | LEQ | GEQ | NEQ
    | LPAREN | RPAREN | COMMA | SEMI | PERIOD | COLON | BECOMES | LCOMM | COMM | RCOMM | ACCEPT | REJECT

  const NUL: char := 0 as char

  /** The state of a one-character symbol, and its kind. */
  function SymbolState(c: char): Option<(Q, Kind)> {
    match c
    case '+' => Some((PLUS, plussym))
    case '-' => Some((MINUS, minussym))
    case '*' => Some((MULT, multsym))
    case '/' => Some((DIV, slashsym))
    case '=' => Some((EQL, eqlsym))
    case '<' => Some((LESS, lessym))
    case '>' => Some((LARGE, gtrsym))
    case '(' => Some((LPAREN, lparentsym))
    case ')' => Some((RPAREN, rparentsym))
    case ',' => Some((COMMA, commasym))
    case ';' => Some((SEMI, semicolonsym))
    case ':' => Some((COLON, becomessym))
    case '.' => Some((PERIOD, periodsym))
    case _ => None
  }

  /** States in which any further character ends the lexeme, with its kind and its length. */
  function FinalKind(q: Q): Option<(Kind, nat)> {
    match q
    case PLUS => Some((plussym, 1))
    case MINUS => Some((minussym, 1))
    case MULT => Some((multsym, 1))
    case EQL => Some((eqlsym, 1))
    case LPAREN => Some((lparentsym, 1))
    case RPAREN => Some((rparentsym, 1))
    case COMMA => Some((commasym, 1))
    case SEMI => Some((semicolonsym, 1))
    case PERIOD => Some((periodsym, 1))
    case LEQ => Some((leqsym, 2))
    case GEQ => Some((geqsym, 2))
    case NEQ => Some((neqsym, 2))
    case BECOMES => Some((becomessym, 2))
    case _ => None
  }

  /** `q` is the state after the first `k` characters of `s`. */
  ghost predicate After(q: Q, s: string, k: nat) {
    && k <= |s|
    && match q
       case START => k == 0
       case DIGIT => 1 <= k <= MAX_NUMBER_LENGTH && k <= DigitRun(s)
       case ALPHA => 1 <= k <= MAX_IDENT_LENGTH && k <= AlnumRun(s) && IsAlpha(s[0])
       case DIV => k == 1 && s[0] == '/'
       case LESS => k == 1 && s[0] == '<'
       case LARGE => k == 1 && s[0] == '>'
       case COLON => k == 1 && s[0] == ':'
       case LCOMM => k >= 2 && s[0] == '/' && s[1] == '*' && CommentEnd(s, 2) == CommentEnd(s, k)
       case COMM => k >= 3 && s[0] == '/' && s[1] == '*' && s[k - 1] == '*' && CommentEnd(s, 2) == CommentEnd(s, k - 1)
       case RCOMM => k >= 4 && s[0] == '/' && s[1] == '*' && CommentEnd(s, 2) == Some(k)
       case ACCEPT => false
       case REJECT => false
       case _ =>
         var (kind, n) := FinalKind(q).value;
         k == n && !IsBlank(s[0]) && !IsAlnum(s[0])
         && (if n == 1 then s[0] != '/' && s[0] != '<' && s[0] != '>' && OneCharKind(s[0]) == Some(kind)
             else TwoCharKind(s) == Some(kind))
  }

  lemma {:induction false} DigitRunGrows(s: string, k: nat)
    requires k <= DigitRun(s) && k < |s|
    ensures if IsDigit(s[k]) then k + 1 <= DigitRun(s) else k == DigitRun(s)
    decreases k
  {
    if k > 0 {
      DigitRunGrows(s[1..], k - 1);
    }
  }

  lemma {:induction false} AlnumRunGrows(s: string, k: nat)
    requires k <= AlnumRun(s) && k < |s|
    ensures if IsAlnum(s[k]) then k + 1 <= AlnumRun(s) else k == AlnumRun(s)
    decreases k
  {
    if k > 0 {
      AlnumRunGrows(s[1..], k - 1);
    }
  }

  /** A number goes on, ends, or is too long or followed by a letter. */
  lemma NumberStep(s: string, k: nat)
    requires After(DIGIT, s, k) && k < |s|
    ensures if IsDigit(s[k]) then
              (if k < MAX_NUMBER_LENGTH then After(DIGIT, s, k + 1) else ScanAt(s) == Scan.Reject(k + 1))
            else ScanAt(s) == if IsAlpha(s[k]) then Scan.Reject(k + 1) else Lexeme(numbersym, k)
  {
    DigitRunGrows(s, k);
  }

  lemma WordStep(s: string, k: nat)
    requires After(ALPHA, s, k) && k < |s|
    ensures if IsAlnum(s[k]) then
              (if k < MAX_IDENT_LENGTH then After(ALPHA, s, k + 1) else ScanAt(s) == Scan.Reject(k + 1))
            else ScanAt(s) == Lexeme(WordKind(s[..k]), k)
  {
    hide WordKind;
    AlnumRunGrows(s, k);
  }

  /** After the first character of a symbol that may have a second one. */
  lemma SecondStep(q: Q, s: string, k: nat)
    requires q in {DIV, LESS, LARGE, COLON} && After(q, s, k) && k < |s|
    ensures k == 1
    ensures match q
            case DIV => if s[1] == '*' then After(LCOMM, s, 2) else ScanAt(s) == Lexeme(slashsym, 1)
            case LESS =>
              if s[1] == '=' then After(LEQ, s, 2) else if s[1] == '>' then After(NEQ, s, 2)
              else ScanAt(s) == Lexeme(lessym, 1)
            case LARGE => if s[1] == '=' then After(GEQ, s, 2) else ScanAt(s) == Lexeme(gtrsym, 1)
            case _ => if s[1] == '=' then After(BECOMES, s, 2) else ScanAt(s) == Scan.Reject(2)
  {
    hide ScanNumber, ScanWord, WordKind, CommentEnd;
  }

  /** A complete symbol is what stands there, whatever follows. */
  lemma SymbolScanned(q: Q, s: string, k: nat)
    requires FinalKind(q).Some? && After(q, s, k) && k < |s|
    ensures ScanAt(s) == Lexeme(FinalKind(q).value.0, k) && k == FinalKind(q).value.1
  {
  }

  lemma CommentScanned(s: string, k: nat)
    requires After(RCOMM, s, k) && k < |s|
    ensures ScanAt(s) == Lexeme(commentsym, k)
  {
  }

  /** Inside a comment. */
  lemma CommentStep(q: Q, s: string, k: nat)
    requires q in {LCOMM, COMM} && After(q, s, k) && k < |s|
    ensures if s[k] == '*' then After(COMM, s, k + 1)
            else if q == COMM && s[k] == '/' then After(RCOMM, s, k + 1) else After(LCOMM, s, k + 1)
  {
    if q == COMM {
      assert CommentEnd(s, k - 1) == if s[k] == '/' then Some(k + 1) else CommentEnd(s, k);
    }
    if s[k] != '*' {
      assert CommentEnd(s, k) == if k + 1 < |s| then CommentEnd(s, k + 1) else None;
    }
  }

  /** At the end of the file every state but the first is in the middle of something. */
  lemma AtEnd(q: Q, s: string)
    requires s != [] && After(q, s, |s|)
    ensures q != START && ScanAt(s) == Unfinished
  {
  }

  function Newlines(s: string): nat {
    if s == [] then 0 else Newlines(s[..|s| - 1]) + if s[|s| - 1] == '\n' then 1 else 0
  }

  lemma NewlinesMore(s: string, pos: nat)
    requires pos < |s|
    ensures Newlines(s[..pos + 1]) == Newlines(s[..pos]) + if s[pos] == '\n' then 1 else 0
  {
    assert s[..pos + 1][..pos] == s[..pos];
  }

  const MAX_RESERVED_WORD := 15

  /** The reserved words and their kinds. */
  function Reserved(i: nat): (string, Kind) {
    match i
    case 0 => ("null", nulsym)
    case 1 => ("begin", beginsym)
    case 2 => ("call", callsym)
    case 3 => ("const", constsym)
    case 4 => ("do", dosym)
    case 5 => ("else", elsesym)
    case 6 => ("end", endsym)
    case 7 => ("if", ifsym)
    case 8 => ("odd", oddsym)
    case 9 => ("procedure", procsym)
    case 10 => ("read", readsym)
    case 11 => ("then", thensym)
    case 12 => ("var", varsym)
    case 13 => ("while", whilesym)
    case _ => ("write", writesym)
  }

  /** Kind of a word by the first `n` reserved words. */
  function KindUpTo(x: string, n: nat): Kind {
    if n == 0 then identsym else if Reserved(n - 1).0 == x then Reserved(n - 1).1 else KindUpTo(x, n - 1)
  }

  lemma KindByHalf(x: string)
    ensures KindUpTo(x, 8) ==
            if x == "if" then ifsym else if x == "end" then endsym else if x == "else" then elsesym
            else if x == "do" then dosym else if x == "const" then constsym else if x == "call" then callsym
            else if x == "begin" then beginsym else if x == "null" then nulsym else identsym
  {
    assert KindUpTo(x, 1) == if x == "null" then nulsym else identsym;
    assert KindUpTo(x, 2) == if x == "begin" then beginsym else KindUpTo(x, 1);
    assert KindUpTo(x, 3) == if x == "call" then callsym else KindUpTo(x, 2);
    assert KindUpTo(x, 4) == if x == "const" then constsym else KindUpTo(x, 3);
    assert KindUpTo(x, 5) == if x == "do" then dosym else KindUpTo(x, 4);
    assert KindUpTo(x, 6) == if x == "else" then elsesym else KindUpTo(x, 5);
    assert KindUpTo(x, 7) == if x == "end" then endsym else KindUpTo(x, 6);
    assert KindUpTo(x, 8) == if x == "if" then ifsym else KindUpTo(x, 7);
  }

  lemma KindByRest(x: string)
    ensures KindUpTo(x, 15) ==
            if x == "write" then writesym else if x == "while" then whilesym else if x == "var" then varsym
            else if x == "then" then thensym else if x == "read" then readsym else if x == "procedure" then procsym
            else if x == "odd" then oddsym else KindUpTo(x, 8)
  {
    assert KindUpTo(x, 9) == if x == "odd" then oddsym else KindUpTo(x, 8);
    assert KindUpTo(x, 10) == if x == "procedure" then procsym else KindUpTo(x, 9);
    assert KindUpTo(x, 11) == if x == "read" then readsym else KindUpTo(x, 10);
    assert KindUpTo(x, 12) == if x == "then" then thensym else KindUpTo(x, 11);
    assert KindUpTo(x, 13) == if x == "var" then varsym else KindUpTo(x, 12);
    assert KindUpTo(x, 14) == if x == "while" then whilesym else KindUpTo(x, 13);
    assert KindUpTo(x, 15) == if x == "write" then writesym else KindUpTo(x, 14);
  }

  lemma KindByTable(x: string)
    ensures KindUpTo(x, MAX_RESERVED_WORD) == WordKind(x)
  {
    hide KindUpTo;
    KindByHalf(x);
    KindByRest(x);
    if x == "write" || x == "while" || x == "var" || x == "then" || x == "read" || x == "procedure" || x == "odd" {
    } else {
    }
  }

  /** Kind the automaton has noted on the way to state `q`. */
  predicate Noted(q: Q, kind: Kind) {
    match q
    case DIGIT => kind == numbersym
    case ALPHA => kind == identsym
    case DIV => kind == slashsym
    case LESS => kind == lessym
    case LARGE => kind == gtrsym
    case _ => FinalKind(q).Some? && FinalKind(q).value.1 == 1 ==> kind == FinalKind(q).value.0
  }

  /** Kind of the lexeme once reserved words are told from identifiers. */
  function Settled(kind: Kind, text: string): Kind {
    if kind == identsym then WordKind(text) else kind
  }

  class Dfa {
    const input: string
    var pos: nat
    var eof: bool

    var running: bool
    var state: Q
    var rewind: bool
    var line: int
    var column: int
    var lastLineLength: int
    const buffer: array<char>
    var indexBuffer: int
    var kind: Kind
    var tokens: seq<Entry>

    ghost predicate Valid()
      reads this
    {
      buffer.Length == MAX_BUFFER_SIZE && pos <= |input| && Located()
    }

    /** The line number counts the newlines before the next character. */
    ghost predicate Located()
      requires pos <= |input|
      reads this
    {
      column >= 1 && line == 1 + Newlines(input[..pos])
    }

    constructor (input: string)
      ensures Valid() && fresh(buffer) && this.input == input && pos == 0 && !eof && tokens == []
    {
      this.input, pos, eof := input, 0, false;
      running, state, rewind, kind := false, START, false, nulsym;
      line, column, lastLineLength := 1, 1, 0;
      buffer := new char[MAX_BUFFER_SIZE](_ => NUL);
      indexBuffer, tokens := 0, [];
    }

    method ResetMachine()
      requires buffer.Length == MAX_BUFFER_SIZE
      modifies this`state, this`rewind, this`running, this`indexBuffer, this`kind, buffer
      ensures state == START && !rewind && running && indexBuffer == 0 && kind == nulsym
    {
      state, rewind, running := START, false, true;
      for i := 0 to MAX_BUFFER_SIZE
        modifies buffer
      {
        buffer[i] := NUL;
      }
      indexBuffer, kind := 0, nulsym;
    }

    method Accept()
      modifies this`state, this`running, this`rewind
      ensures state == ACCEPT && !running && rewind
    {
      state, running, rewind := ACCEPT, false, true;
    }

    method Reject()
      modifies this`state, this`running, this`kind
      ensures state == REJECT && !running && kind == nulsym
    {
      state, running, kind := REJECT, false, nulsym;
    }

    /** From the first state. */
    method TransitionStart(c: char, ghost s: string)
      requires s != [] && s[0] == c && state == START && running && !rewind && indexBuffer == 1
      modifies this`state, this`running, this`rewind, this`kind
      ensures running ==> After(state, s, 1) && Noted(state, kind) && !rewind && state !in {LCOMM, COMM, RCOMM}
      ensures !running ==> !rewind
      ensures !running && state == ACCEPT ==> ScanAt(s) == Blank && kind == nulsym
      ensures !running && state != ACCEPT ==> state == REJECT && ScanAt(s) == Scan.Reject(1)
    {
      hide ScanNumber, ScanWord, CommentEnd;
      if IsBlank(c) {
        kind := nulsym;
        Accept();
        rewind := false;
      } else if IsDigit(c) {
        state, kind := DIGIT, numbersym;
      } else if IsAlpha(c) {
        state, kind := ALPHA, identsym;
      } else {
        var sym := SymbolState(c);
        match sym {
          case Some((q, k)) => state, kind := q, k;
          case None => Reject();
        }
      }
    }

    /** Inside a word, a number or a symbol that is not a comment. */
    method TransitionInside(c: char, ghost s: string, ghost k: nat)
      requires 0 < k < |s| && s[k] == c && After(state, s, k) && Noted(state, kind) && running && !rewind
      requires state !in {START, LCOMM, COMM, RCOMM} && indexBuffer == k + 1
      modifies this`state, this`running, this`rewind, this`kind
      ensures running ==> After(state, s, k + 1) && Noted(state, kind) && !rewind && state !in {START, COMM, RCOMM}
      ensures running && state == LCOMM ==> k == 1
      ensures !running && state == ACCEPT ==>
        rewind && ScanAt(s) == Lexeme(Settled(kind, s[..k]), k) && kind != commentsym
      ensures !running && state != ACCEPT ==> !rewind && state == REJECT && ScanAt(s) == Scan.Reject(k + 1)
    {
      hide ScanAt, WordKind, After;
      if state == DIGIT || state == ALPHA {
        TransitionWord(c, s, k);
      } else if state in {DIV, LESS, LARGE, COLON} {
        SecondStep(state, s, k);
        TransitionSecond(c);
      } else {
        AcceptSymbol(s, k);
      }
    }

    /** A symbol that no further character makes longer. */
    method AcceptSymbol(ghost s: string, ghost k: nat)
      requires 0 < k < |s| && After(state, s, k) && Noted(state, kind) && running && !rewind
      requires state !in {START, LCOMM, COMM, RCOMM, DIGIT, ALPHA, DIV, LESS, LARGE, COLON}
      modifies this`state, this`running, this`rewind, this`kind
      ensures !running && state == ACCEPT && rewind
      ensures ScanAt(s) == Lexeme(Settled(kind, s[..k]), k) && kind != commentsym
    {
      hide ScanAt, WordKind, After;
      FinalState(state, s, k);
      SymbolScanned(state, s, k);
      kind := FinalKind(state).value.0;
      Accept();
    }

    method TransitionWord(c: char, ghost s: string, ghost k: nat)
      requires 0 < k < |s| && s[k] == c && After(state, s, k) && Noted(state, kind) && running && !rewind
      requires state in {DIGIT, ALPHA} && indexBuffer == k + 1
      modifies this`state, this`running, this`rewind, this`kind
      ensures running ==> After(state, s, k + 1) && kind == old(kind) && state == old(state) && !rewind
      ensures !running && state == ACCEPT ==>
        rewind && kind == old(kind) && ScanAt(s) == Lexeme(Settled(kind, s[..k]), k)
      ensures !running && state != ACCEPT ==> !rewind && state == REJECT && ScanAt(s) == Scan.Reject(k + 1)
    {
      hide ScanAt, WordKind, After;
      if state == DIGIT {
        NumberStep(s, k);
        if IsDigit(c) {
          if indexBuffer > MAX_NUMBER_LENGTH {
            Reject();
          }
        } else if IsAlpha(c) {
          Reject();
        } else {
          Accept();
        }
      } else {
        WordStep(s, k);
        if IsAlnum(c) {
          if indexBuffer > MAX_IDENT_LENGTH {
            Reject();
          }
        } else {
          Accept();
        }
      }
    }

    method TransitionSecond(c: char)
      requires state in {DIV, LESS, LARGE, COLON} && running && !rewind
      modifies this`state, this`running, this`rewind, this`kind
      ensures match old(state)
              case DIV => if c == '*' then state == LCOMM else state == ACCEPT
              case LESS => if c == '=' then state == LEQ else if c == '>' then state == NEQ else state == ACCEPT
              case LARGE => if c == '=' then state == GEQ else state == ACCEPT
              case _ => if c == '=' then state == BECOMES else state == REJECT
      ensures running == (state !in {ACCEPT, REJECT}) && rewind == (state == ACCEPT)
      ensures state != REJECT ==> kind == old(kind)
    {
      if state == DIV {
        if c == '*' {
          state := LCOMM;
        } else {
          Accept();
        }
      } else if state == LESS {
        if c == '=' {
          state := LEQ;
        } else if c == '>' {
          state := NEQ;
        } else {
          Accept();
        }
      } else if state == LARGE {
        if c == '=' {
          state := GEQ;
        } else {
          Accept();
        }
      } else {
        if c == '=' {
          state := BECOMES;
        } else {
          Reject();
        }
      }
    }

    /** Inside or at the end of a comment, which leaves nothing in the buffer. */
    method TransitionComment(c: char, ghost s: string, ghost k: nat)
      requires 0 < k < |s| && s[k] == c && After(state, s, k) && running && !rewind
      requires state in {LCOMM, COMM, RCOMM} && 1 <= indexBuffer && buffer.Length == MAX_BUFFER_SIZE
      requires state == RCOMM ==> indexBuffer == 1
      modifies this`state, this`running, this`rewind, this`kind, this`indexBuffer, buffer
      ensures running ==> After(state, s, k + 1) && !rewind && state in {LCOMM, COMM, RCOMM}
      ensures running ==>
        0 <= indexBuffer <= old(indexBuffer) && (old(state) == COMM || state == LCOMM ==> indexBuffer == 0)
      ensures running && state == RCOMM ==> old(state) == COMM
      ensures !running ==> state == ACCEPT && rewind && ScanAt(s) == Lexeme(commentsym, k) && kind == commentsym
      ensures !running ==> indexBuffer == old(indexBuffer) == 1 && buffer[0] == NUL
    {
      hide ScanAt, After;
      if state == LCOMM {
        CommentStep(state, s, k);
        if c == '*' {
          state := COMM;
        } else {
          indexBuffer := 0;
        }
      } else if state == COMM {
        CommentStep(state, s, k);
        indexBuffer := 0;
        if c == '/' {
          state := RCOMM;
        } else if c != '*' {
          state := LCOMM;
        }
      } else {
        CommentScanned(s, k);
        kind := commentsym;
        buffer[0] := NUL;
        Accept();
      }
    }

    /** The next character; the column goes on, or the line does. */
    method ReadChar() returns (c: char)
      requires Valid() && pos < |input|
      modifies this`pos, this`line, this`column, this`lastLineLength
      ensures Valid() && pos == old(pos) + 1 && c == input[old(pos)]
      ensures if c == '\n' then column == 1 && lastLineLength >= 1 else column >= 2
    {
      NewlinesMore(input, pos);
      c := input[pos];
      pos := pos + 1;
      column := column + 1;
      if c == '\n' {
        lastLineLength := column;
        column := 1;
        line := line + 1;
      }
    }

    /** Puts the character just read back; a newline takes the line number with it. */
    method PushBack(ghost c: char)
      requires Valid() && pos > 0 && c == input[pos - 1]
      requires if c == '\n' then column == 1 && lastLineLength >= 1 else column >= 2
      modifies this`pos, this`line, this`column
      ensures Valid() && pos == old(pos) - 1
    {
      NewlinesMore(input, pos - 1);
      pos := pos - 1;
      column := column - 1;
      if column < 1 {
        line := line - 1;
        column := lastLineLength;
      }
    }

    /** What the buffer holds after `k` characters of `s`; it is emptied again and again inside a comment. */
    ghost predicate Held(s: string, k: nat)
      requires k <= |s| && buffer.Length == MAX_BUFFER_SIZE
      reads this, buffer
    {
      match state
      case LCOMM => indexBuffer == 0 || (k == 2 && indexBuffer == 2)
      case COMM => 0 <= indexBuffer <= 3
      case RCOMM => indexBuffer == 0
      case _ => indexBuffer == k <= MAX_IDENT_LENGTH && buffer[..k] == s[..k]
    }

    /** In the middle of the lexeme at the beginning of `s`, `k` characters in. */
    ghost predicate Going(s: string, k: nat)
      reads this, buffer
    {
      && Valid() && k <= pos && s == input[pos - k..] && running && !rewind
      && After(state, s, k) && Noted(state, kind) && Held(s, k)
    }

    /** At the end of what stands at the beginning of `s`, `k` characters in. */
    ghost predicate Decided(s: string, k: nat)
      reads this, buffer
    {
      && Valid() && 0 < k <= pos && s == input[pos - k..] && s != [] && !running
      && (state == ACCEPT || state == REJECT)
      && (state == REJECT ==> ScanAt(s) == Scan.Reject(k))
      && (state == ACCEPT && ScanAt(s) == Blank ==> kind == nulsym && k == 1)
      && (state == ACCEPT && ScanAt(s) != Blank ==>
            && ScanAt(s) == Lexeme(Settled(kind, s[..k]), k)
            && if kind == commentsym then buffer[0] == NUL
               else k <= MAX_IDENT_LENGTH && buffer[..k] == s[..k] && buffer[k] == NUL)
    }

    method Store(c: char)
      requires buffer.Length == MAX_BUFFER_SIZE && 0 <= indexBuffer <= MAX_IDENT_LENGTH
      modifies this`indexBuffer, buffer
      ensures indexBuffer == old(indexBuffer) + 1 && buffer[..old(indexBuffer)] == old(buffer[..indexBuffer])
      ensures buffer[old(indexBuffer)] == c && buffer[indexBuffer] == NUL
    {
      buffer[indexBuffer] := c;
      indexBuffer := indexBuffer + 1;
      buffer[indexBuffer] := NUL;
    }

    method Unstore()
      requires buffer.Length == MAX_BUFFER_SIZE && 0 < indexBuffer <= MAX_IDENT_LENGTH + 1
      modifies this`indexBuffer, buffer
      ensures indexBuffer == old(indexBuffer) - 1 && buffer[..indexBuffer] == old(buffer[..indexBuffer - 1])
      ensures buffer[indexBuffer] == NUL
    {
      indexBuffer := indexBuffer - 1;
      buffer[indexBuffer] := NUL;
    }

    /** The last character belongs to the next lexeme: out of the buffer, and back to the input. */
    method BackOff(ghost c: char)
      requires Valid() && pos > 0 && c == input[pos - 1] && 0 < indexBuffer <= MAX_IDENT_LENGTH + 1
      requires if c == '\n' then column == 1 && lastLineLength >= 1 else column >= 2
      modifies this`pos, this`line, this`column, this`indexBuffer, buffer
      ensures Valid() && pos == old(pos) - 1
      ensures indexBuffer == old(indexBuffer) - 1 && buffer[..indexBuffer] == old(buffer[..indexBuffer - 1])
      ensures buffer[indexBuffer] == NUL
    {
      PushBack(c);
      Unstore();
    }

    /** One turn of the loop: a character read, the transition made, the character pushed back if need be. */
    method Turn(ghost s: string, ghost k: nat) returns (ghost n: nat)
      requires Going(s, k) && pos < |input|
      modifies this`pos, this`line, this`column, this`lastLineLength, this`state, this`running, this`rewind, this`kind
      modifies this`indexBuffer, buffer
      ensures pos == old(pos) - k + n && k <= n <= k + 1
      ensures if running then n == k + 1 && Going(s, n) else Decided(s, n)
    {
      hide ScanAt, Newlines, Noted;
      if state == START {
        n := TurnStart(s);
      } else if state in {LCOMM, COMM, RCOMM} {
        n := TurnComment(s, k);
      } else {
        n := TurnInside(s, k);
      }
    }

    method TurnStart(ghost s: string) returns (ghost n: nat)
      requires Going(s, 0) && pos < |input| && state == START
      modifies this`pos, this`line, this`column, this`lastLineLength, this`state, this`running, this`rewind, this`kind
      modifies this`indexBuffer, buffer
      ensures n == 1 && pos == old(pos) + n
      ensures if running then Going(s, n) else Decided(s, n)
    {
      hide ScanAt, Newlines, Noted;
      var c := ReadChar();
      Store(c);
      assert buffer[..1] == s[..1];
      TransitionStart(c, s);
      n := 1;
    }

    method TurnInside(ghost s: string, ghost k: nat) returns (ghost n: nat)
      requires Going(s, k) && pos < |input| && state !in {START, LCOMM, COMM, RCOMM}
      modifies this`pos, this`line, this`column, this`lastLineLength, this`state, this`running, this`rewind, this`kind
      modifies this`indexBuffer, buffer
      ensures pos == old(pos) - k + n && k <= n <= k + 1
      ensures if running then n == k + 1 && Going(s, n) else Decided(s, n)
    {
      hide ScanAt, Newlines, Noted;
      AfterSome(state, s, k);
      var c := ReadChar();
      Store(c);
      assert buffer[..k + 1] == s[..k + 1];
      TransitionInside(c, s, k);
      n := k + 1;
      if rewind {
        n := k;
        BackOff(c);
      }
    }

    lemma CommentGoing(s: string, k: nat)
      requires Valid() && 0 < k <= pos && s == input[pos - k..] && running && !rewind
      requires state in {LCOMM, COMM, RCOMM} && After(state, s, k) && Held(s, k)
      ensures Going(s, k)
    {
      hide After, Newlines;
      CommentNoted(state, kind);
    }

    lemma CommentDone(s: string, k: nat)
      requires Valid() && 0 < k <= pos && s == input[pos - k..] && s != [] && !running
      requires state == ACCEPT && ScanAt(s) == Lexeme(commentsym, k) && kind == commentsym && buffer[0] == NUL
      ensures Decided(s, k)
    {
      hide ScanAt, Newlines, WordKind;
    }

    method TurnComment(ghost s: string, ghost k: nat) returns (ghost n: nat)
      requires Going(s, k) && pos < |input| && state in {LCOMM, COMM, RCOMM}
      modifies this`pos, this`line, this`column, this`lastLineLength, this`state, this`running, this`rewind, this`kind
      modifies this`indexBuffer, buffer
      ensures pos == old(pos) - k + n && k <= n <= k + 1
      ensures if running then n == k + 1 && Going(s, n) else Decided(s, n)
    {
      hide ScanAt, Newlines, After, WordKind, Noted, FinalKind, Settled, Decided;
      AfterSome(state, s, k);
      var c := ReadChar();
      Store(c);
      TransitionComment(c, s, k);
      n := k + 1;
      if rewind {
        n := k;
        BackOff(c);
        CommentDone(s, k);
      } else {
        CommentGoing(s, n);
      }
    }

    /** The characters of the buffer before its first NUL. */
    method Text(ghost k: nat) returns (text: string)
      requires k < buffer.Length && buffer[k] == NUL && forall i :: 0 <= i < k ==> buffer[i] != NUL
      ensures text == buffer[..k]
    {
      text := [];
      var i := 0;
      while buffer[i] != NUL
        invariant 0 <= i <= k && text == buffer[..i]
        decreases k - i
      {
        text := text + [buffer[i]];
        i := i + 1;
      }
    }

    /** A reserved word is told from an identifier by its text. */
    method UpdateReservedWords(text: string)
      requires kind == identsym
      modifies this`kind
      ensures kind == WordKind(text)
    {
      for i := 0 to MAX_RESERVED_WORD
        invariant kind == KindUpTo(text, i)
      {
        if Reserved(i).0 == text {
          kind := Reserved(i).1;
        }
      }
      KindByTable(text);
    }

    method PutLexeme(text: string)
      modifies this`tokens
      ensures tokens == old(tokens) + [Entry(kind, text)]
    {
      tokens := tokens + [Entry(kind, text)];
    }

    /**
      The next lexeme, if there is one. Whatever the input, the call takes what Taken says of the
      text from the current position, which is at least one character unless it is the end; the
      line number stays right; and an accepted lexeme goes to the token list.
     */
    method GetNextLexeme() returns (found: bool)
      requires Valid()
      modifies this`pos, this`eof, this`line, this`column, this`lastLineLength, this`state, this`running, this`rewind
      modifies this`kind, this`indexBuffer, this`tokens, buffer
      ensures Valid()
      ensures var s := input[old(pos)..];
              if s == [] then !found && eof && pos == old(pos) && tokens == old(tokens)
              else
                && pos == old(pos) + Taken(s)
                && found == (ScanAt(s).Blank? || ScanAt(s).Lexeme?)
                && eof == (old(eof) || ScanAt(s).Unfinished?)
                && tokens == old(tokens) + ScanHere(s)
    {
      hide ScanAt, Newlines, Noted;
      ghost var s := input[pos..];
      ResetMachine();
      ghost var k: nat := 0;
      Begun(s);
      while running
        invariant if running then Going(s, k) else Decided(s, k)
        invariant pos == old(pos) + k && tokens == old(tokens) && eof == old(eof)
        decreases |input| - pos, running
      {
        if pos == |input| {
          eof := true;
          break;
        }
        k := Turn(s, k);
      }
      if state == ACCEPT {
        found := true;
        RecordLexeme(s, k);
      } else {
        found := false;
        if running && s != [] {
          AtEnd(state, s);
        }
      }
    }

    /** An accepted lexeme goes to the list, unless it stands for nothing. */
    method RecordLexeme(ghost s: string, ghost k: nat)
      requires Decided(s, k) && state == ACCEPT
      modifies this`kind, this`tokens
      ensures Valid() && tokens == old(tokens) + ScanHere(s)
      ensures k == Taken(s) && (ScanAt(s).Blank? || ScanAt(s).Lexeme?)
    {
      hide Newlines, ScanNumber, ScanWord, ScanSymbol;
      if kind == nulsym {
        return;
      }
      if kind != commentsym {
        NoNul(s, k);
        assert forall i :: 0 <= i < k ==> buffer[i] == s[..k][i];
      }
      var text := Text(if kind == commentsym then 0 else k);
      if kind == identsym {
        UpdateReservedWords(text);
      }
      if kind != nulsym {
        PutLexeme(text);
      }
    }
  }

  /** What the lexeme at the beginning of `s` adds to the token list. */
  function ScanHere(s: string): seq<Entry>
    requires s != []
  {
    match ScanAt(s)
    case Lexeme(k, n) => if k == nulsym || n > |s| then [] else [EntryOf(s, k, n)]
    case _ => []
  }

  lemma Begun(s: string)
    ensures After(START, s, 0) && Noted(START, nulsym)
  {
  }

  /** No lexeme but a comment has a NUL in it. */
  lemma NoNul(s: string, k: nat)
    requires s != [] && ScanAt(s).Lexeme? && ScanAt(s).size == k && ScanAt(s).kind != commentsym && k <= |s|
    ensures forall i :: 0 <= i < k ==> s[i] != NUL
  {
    DigitRunIs(s);
    AlnumRunIs(s);
    hide WordKind;
    if IsDigit(s[0]) || IsAlpha(s[0]) {
      assert forall i :: 0 <= i < k ==> s[i] == s[..k][i];
    }
  }

  lemma FinalState(q: Q, s: string, k: nat)
    requires After(q, s, k) && q !in {START, DIGIT, ALPHA, DIV, LESS, LARGE, COLON, LCOMM, COMM, RCOMM}
    ensures FinalKind(q).Some?
  {
  }

  lemma CommentNoted(q: Q, kind: Kind)
    requires q in {LCOMM, COMM, RCOMM}
    ensures Noted(q, kind)
  {
  }

  lemma AfterSome(q: Q, s: string, k: nat)
    requires After(q, s, k) && q != START
    ensures 0 < k <= |s|
  {
  }

  lemma ScanAllStep(s: string)
    requires s != []
    ensures Taken(s) <= |s| && ScanAll(s) == ScanHere(s) + ScanAll(s[Taken(s)..])
  {
    TakenSome(s);
  }

  /** The scanner run over a whole file: the token list is what ScanAll says, and every character has been taken. */
  method ScanFile(input: string) returns (dfa: Dfa)
    ensures dfa.Valid() && dfa.input == input && dfa.pos == |input|
    ensures dfa.tokens == ScanAll(input) && dfa.line == 1 + Newlines(input)
  {
    hide ScanAt, Taken, ScanHere, ScanAll, Newlines;
    dfa := new Dfa(input);
    assert input[0..] == input;
    while !dfa.eof
      invariant dfa.Valid() && fresh(dfa) && fresh(dfa.buffer) && dfa.input == input
      invariant dfa.tokens + ScanAll(input[dfa.pos..]) == ScanAll(input)
      invariant dfa.eof ==> dfa.pos == |input|
      decreases |input| - dfa.pos, !dfa.eof
    {
      ghost var s := input[dfa.pos..];
      if s != [] {
        ScanAllStep(s);
        TakenSome(s);
        UnfinishedTakesAll(s);
        assert input[dfa.pos + Taken(s)..] == s[Taken(s)..];
      }
      var found := dfa.GetNextLexeme();
    }
    assert input[|input|..] == [] && input[..|input|] == input;
    ScanAllNone();
  }

  lemma UnfinishedTakesAll(s: string)
    requires s != []
    ensures ScanAt(s).Unfinished? ==> Taken(s) == |s|
  {
  }

  lemma ScanAllNone()
    ensures ScanAll([]) == []
  {
  }
}
