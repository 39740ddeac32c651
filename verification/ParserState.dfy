/** The parser as the object the source updates in place: its state, and the steps on it. */
module ParserState {
  import opened Common
  import opened Machine
  import opened Syntax
  import opened Symbols
  import opened CodeSets
  import opened CodeStore
  import opened Parsing

  /** What a parsing method returns: the tree, the number of the error it reported, or neither. */
  datatype Parsed<+T> = Good(value: T) | Failed(error: int) | Crashed

  /** The method did what the parsing function says; after a failure the state no longer matters. */
  ghost predicate Agrees<T>(r: Parsed<T>, spec: Result<T>, view: PState) {
    match spec
    case Ok(v, st) => r == Good(v) && view == st
    case Err(e) => r == Failed(e)
    case Crash => r == Crashed
  }

  class Parser {
    /** Tokens not yet consumed; the first is the current one. */
    var rest: seq<Token>
    var registerPtr: int
    var currentProcedure: int
    var globalLevel: int
    var procedureCount: nat
    var table: Table
    const offsetArray: array<int>
    const inUse: array<bool>
    const store: Store
    ghost const Repr: set<object>

    ghost predicate Valid()
      reads this, store, store.generatedCode, store.instructionCount, store.finalCode
    {
      && store.Valid()
      && offsetArray.Length == MAX_LEXI_LEVELS && inUse.Length == MAX_CODE_SETS
      && offsetArray != store.instructionCount
      && Repr == {this, store, store.generatedCode, store.instructionCount, store.finalCode, offsetArray, inUse}
      && store.IsSet(currentProcedure)
    }

    /** The state the parsing functions work on. */
    ghost function View(): PState
      reads this, store, offsetArray, inUse
    {
      PState(rest, store.contents, registerPtr, currentProcedure, globalLevel, offsetArray[..],
             procedureCount, inUse[..], table)
    }

    /** Everything as it is before the first token is read. */
    constructor (toks: seq<Token>)
      ensures Valid() && fresh(Repr)
      ensures View() == PState(toks, map[], 0, 0, 0, seq(5, _ => 4), 0, seq(100, _ => false), map[])
    {
      rest := toks;
      registerPtr, currentProcedure, globalLevel, procedureCount := 0, 0, 0, 0;
      table := map[];
      var offsets := new int[MAX_LEXI_LEVELS](_ => 4);
      var free := new bool[MAX_CODE_SETS](_ => false);
      var s := new Store();
      offsetArray, inUse, store := offsets, free, s;
      Repr := {this, s, s.generatedCode, s.instructionCount, s.finalCode, offsets, free};
      new;
      assert offsetArray[..] == seq(MAX_LEXI_LEVELS, _ => 4);
      assert inUse[..] == seq(MAX_CODE_SETS, _ => false);
    }

    // ---------- tokens ----------

    function Kind(): (k: Kind)
      reads this, store, offsetArray, inUse
      ensures k == View().Kind()
      ensures k != nulsym ==> rest != [] && View().rest != []
    {
      if rest == [] then nulsym else rest[0].kind
    }

    function Name(): (x: string)
      reads this, store, offsetArray, inUse
      ensures x == View().Name()
    {
      if rest == [] then "" else rest[0].name
    }

    function Value(): (v: int)
      reads this, store, offsetArray, inUse
      ensures v == View().Value()
    {
      if rest == [] then 0 else rest[0].value
    }

    function Register(): (i: int)
      reads this, store, offsetArray, inUse
      ensures i == View().reg
    {
      registerPtr
    }

    function Current(): (i: int)
      reads this, store, offsetArray, inUse
      ensures i == View().cur
    {
      currentProcedure
    }

    function Level(): (l: int)
      reads this, store, offsetArray, inUse
      ensures l == View().level
    {
      globalLevel
    }

    function Lookup(x: string): (s: Option<Symbol>)
      reads this, store, offsetArray, inUse
      ensures s == View().Lookup(x)
    {
      GetSymbol(table, x, globalLevel)
    }

    /** The next token that is not a comment; at the end of the file there is none. */
    method GetToken()
      requires Valid()
      modifies Repr
      ensures Valid() && View() == old(View()).Next()
      decreases |rest|
    {
      if rest == [] {
        return;
      }
      rest := rest[1..];
      if rest != [] && rest[0].kind == commentsym {
        GetToken();
      }
    }

    /** The first token that is not a comment. */
    method FirstToken()
      requires Valid()
      modifies Repr
      ensures Valid() && View() == old(View()).(rest := SkipComments(old(View()).rest))
    {
      if Kind() == commentsym {
        GetToken();
      }
    }

    /** Recovery: skips to a token of either set unless the current one is in `s1`. */
    method TestToken(s1: set<Kind>, s2: set<Kind>)
      requires Valid()
      modifies Repr
      ensures Valid() && View() == Test(old(View()), s1, s2)
    {
      if Kind() !in s1 {
        var s := s1 + s2;
        while Kind() !in s
          invariant Valid() && View() == old(View()).(rest := rest)
          invariant SkipTo(rest, s) == SkipTo(old(rest), s)
          decreases |rest|
        {
          if Kind() == nulsym {
            break;
          }
          GetToken();
        }
      }
    }

    // ---------- code ----------

    method Emit(op: Opcode, r: int, l: int, m: int)
      requires Valid()
      modifies Repr
      ensures Valid() && View() == old(View()).Emit(op, r, l, m)
    {
      store.AppendCode(currentProcedure, op, r, l, m);
    }

    method Length() returns (length: int)
      requires Valid()
      ensures length == View().Length()
    {
      length := store.GetCodeLength(currentProcedure);
    }

    method Patch(index: int, m: int)
      requires Valid()
      modifies Repr
      ensures Valid() && View() == old(View()).Patch(index, m)
    {
      store.ChangeM(currentProcedure, index, m);
    }

    /** INC in front of the code of the current set. */
    method VariableSpace(space: int)
      requires Valid()
      modifies Repr
      ensures Valid() && View() == old(View()).(code := Prepend(old(View()).code, old(View()).cur,
                                                                Instruction(INC, 0, 0, space)))
    {
      store.PrependCode(currentProcedure, INC, 0, 0, space);
    }

    // ---------- registers ----------

    /** Takes `d` registers, or gives `-d` back. */
    method AddRegister(d: int)
      requires Valid()
      modifies Repr
      ensures Valid() && View() == old(View()).(reg := old(View()).reg + d)
    {
      registerPtr := registerPtr + d;
    }

    // ---------- levels and sets ----------

    method AddLevel(d: int)
      requires Valid()
      modifies Repr
      ensures Valid() && View() == old(View()).(level := old(View()).level + d)
    {
      globalLevel := globalLevel + d;
    }

    lemma CurrentIsSet()
      requires Valid()
      ensures View().cur == FINAL_CODE || 0 <= View().cur < MAX_CODE_SETS
      ensures |View().offsets| == MAX_LEXI_LEVELS
    {
    }

    method SetCurrent(i: int)
      requires Valid() && (i == FINAL_CODE || 0 <= i < MAX_CODE_SETS)
      modifies Repr
      ensures Valid() && View() == old(View()).(cur := i)
    {
      currentProcedure := i;
    }

    // ---------- symbols ----------

    /** The first set not in use, which it then is; -1 when there is none. */
    method GetFreeSet()
      requires Valid()
      modifies Repr
      ensures Valid() && View() == TakeSet(old(View()))
    {
      for i := 0 to MAX_CODE_SETS
        invariant FreeSet(inUse[..]) == FreeSet(inUse[..], i)
      {
        if !inUse[i] {
          inUse[i] := true;
          currentProcedure := i;
          return;
        }
      }
      currentProcedure := -1;
    }

    method MakeConstSymbol(x: string, v: int)
      requires Valid()
      modifies Repr
      ensures Valid() && View() == MakeConst(old(View()), x, v)
    {
      table := PutSymbol(table, Symbol(x, CONST, v, globalLevel, 0));
    }

    method MakeVarSymbol(x: string)
      requires Valid() && 0 <= globalLevel < offsetArray.Length
      modifies Repr
      ensures Valid() && View() == MakeVar(old(View()), x)
    {
      table := PutSymbol(table, Symbol(x, VAR, 0, globalLevel, offsetArray[globalLevel]));
      offsetArray[globalLevel] := offsetArray[globalLevel] + 1;
    }

    method MakeProcSymbol(x: string)
      requires Valid()
      modifies Repr
      ensures Valid() && View() == MakeProc(old(View()), x)
    {
      procedureCount := procedureCount + 1;
      var addr := procedureCount;
      GetFreeSet();
      table := PutSymbol(table, Symbol(x, PROC, 0, globalLevel, addr));
    }
  }
}
