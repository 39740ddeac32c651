/** The code sets as the arrays and counters the source updates in place. */
module CodeStore {
  import opened Machine
  import opened CodeSets

  const FINAL_CAPACITY := MAX_CODE_SETS * MAX_CODE_LENGTH

  /** An instruction put in front of the one at `index`; elsewhere only an empty set takes it. */
  function Insert(c: Code, number: int, i: Instruction, index: int): Code {
    var s := Get(c, number);
    if 0 <= index < |s| then c[number := s[..index] + [i] + s[index..]]
    else if s == [] then c[number := [i]]
    else c
  }

  class Store {
    const generatedCode: array2<Instruction>
    const instructionCount: array<int>
    const finalCode: array<Instruction>
    var finalInstructionCount: int

    /**
      What has been emitted to each set. The source writes past the end of a full set, which C
      leaves undefined; here such a write is dropped, and only the counter moves.
     */
    ghost var contents: Code

    ghost predicate Valid()
      reads this, generatedCode, instructionCount, finalCode
    {
      && generatedCode.Length0 == MAX_CODE_SETS && generatedCode.Length1 == MAX_CODE_LENGTH
      && instructionCount.Length == MAX_CODE_SETS && finalCode.Length == FINAL_CAPACITY
      && finalInstructionCount == |Get(contents, FINAL_CODE)|
      && (forall k :: 0 <= k < MAX_CODE_SETS ==> instructionCount[k] == |Get(contents, k)|)
      && (forall j :: 0 <= j < FINAL_CAPACITY && j < |Get(contents, FINAL_CODE)| ==>
            finalCode[j] == Get(contents, FINAL_CODE)[j])
      && (forall k, j :: 0 <= k < MAX_CODE_SETS && 0 <= j < MAX_CODE_LENGTH && j < |Get(contents, k)| ==>
            generatedCode[k, j] == Get(contents, k)[j])
    }

    constructor ()
      ensures Valid() && contents == map[]
      ensures fresh(generatedCode) && fresh(instructionCount) && fresh(finalCode)
      ensures generatedCode.Length0 == instructionCount.Length == 100 && generatedCode.Length1 == 500
    {
      var none := Instruction(NUL, 0, 0, 0);
      generatedCode := new Instruction[MAX_CODE_SETS, MAX_CODE_LENGTH]((_, _) => none);
      instructionCount := new int[MAX_CODE_SETS](_ => 0);
      finalCode := new Instruction[FINAL_CAPACITY](_ => none);
      finalInstructionCount := 0;
      contents := map[];
    }

    predicate IsSet(number: int) {
      number == FINAL_CODE || 0 <= number < MAX_CODE_SETS
    }

    method GetCodeLength(number: int) returns (length: int)
      requires Valid() && IsSet(number)
      ensures length == |Get(contents, number)|
    {
      if number == FINAL_CODE {
        length := finalInstructionCount;
      } else {
        length := instructionCount[number];
      }
    }

    method AppendCode(number: int, op: Opcode, r: int, l: int, m: int)
      requires Valid() && IsSet(number)
      modifies this, generatedCode, instructionCount, finalCode
      ensures Valid() && contents == AppendAll(old(contents), number, [Instruction(op, r, l, m)])
    {
      var i := Instruction(op, r, l, m);
      contents := AppendAll(contents, number, [i]);
      AppendGet(old(contents), number, [i]);
      if number == FINAL_CODE {
        if finalInstructionCount < FINAL_CAPACITY {
          finalCode[finalInstructionCount] := i;
        }
        finalInstructionCount := finalInstructionCount + 1;
      } else {
        if instructionCount[number] < MAX_CODE_LENGTH {
          generatedCode[number, instructionCount[number]] := i;
        }
        instructionCount[number] := instructionCount[number] + 1;
      }
    }

    method ChangeM(number: int, index: int, m: int)
      requires Valid() && IsSet(number)
      modifies this, generatedCode, instructionCount, finalCode
      ensures Valid() && contents == CodeSets.ChangeM(old(contents), number, index, m)
    {
      contents := CodeSets.ChangeM(contents, number, index, m);
      if number == FINAL_CODE {
        if index < 0 || index > finalInstructionCount - 1 {
          return;
        }
        if index < FINAL_CAPACITY {
          finalCode[index] := finalCode[index].(m := m);
        }
      } else {
        if index < 0 || index > instructionCount[number] - 1 {
          return;
        }
        if index < MAX_CODE_LENGTH {
          generatedCode[number, index] := generatedCode[number, index].(m := m);
        }
      }
    }

    /** Moves what stands from `index` on one place up; the cell at `index` keeps its old value. */
    method MakeSpaceInCode(number: int, index: int)
      requires Valid() && IsSet(number)
      modifies generatedCode, finalCode
      ensures var s := Get(contents, number);
              0 <= index < |s| ==>
                (if number == FINAL_CODE then
                   && (forall j :: 0 <= j <= index && j < FINAL_CAPACITY ==> finalCode[j] == s[j])
                   && (forall j :: index < j <= |s| && j < FINAL_CAPACITY ==> finalCode[j] == s[j - 1])
                   && (forall k, j :: 0 <= k < MAX_CODE_SETS && 0 <= j < MAX_CODE_LENGTH ==>
                         generatedCode[k, j] == old(generatedCode[k, j]))
                 else
                   && (forall j :: 0 <= j <= index && j < MAX_CODE_LENGTH ==> generatedCode[number, j] == s[j])
                   && (forall j :: index < j <= |s| && j < MAX_CODE_LENGTH ==> generatedCode[number, j] == s[j - 1])
                   && (forall k, j :: 0 <= k < MAX_CODE_SETS && k != number && 0 <= j < MAX_CODE_LENGTH ==>
                         generatedCode[k, j] == old(generatedCode[k, j]))
                   && finalCode[..] == old(finalCode[..]))
      ensures !(0 <= index < |Get(contents, number)|) ==> Valid()
    {
      ghost var s := Get(contents, number);
      if number == FINAL_CODE {
        if index < 0 || index > finalInstructionCount - 1 {
          return;
        }
        var i := finalInstructionCount - 1;
        while i >= index
          invariant index - 1 <= i < |s|
          invariant forall j :: 0 <= j <= i + 1 && j < |s| && j < FINAL_CAPACITY ==> finalCode[j] == s[j]
          invariant forall j :: i + 1 < j <= |s| && j < FINAL_CAPACITY ==> finalCode[j] == s[j - 1]
          invariant forall k, j :: 0 <= k < MAX_CODE_SETS && 0 <= j < MAX_CODE_LENGTH ==>
                      generatedCode[k, j] == old(generatedCode[k, j])
          modifies finalCode
        {
          if i + 1 < FINAL_CAPACITY {
            finalCode[i + 1] := finalCode[i];
          }
          i := i - 1;
        }
      } else {
        if index < 0 || index > instructionCount[number] - 1 {
          return;
        }
        var i := instructionCount[number] - 1;
        while i >= index
          invariant index - 1 <= i < |s|
          invariant forall j :: 0 <= j <= i + 1 && j < |s| && j < MAX_CODE_LENGTH ==> generatedCode[number, j] == s[j]
          invariant forall j :: i + 1 < j <= |s| && j < MAX_CODE_LENGTH ==> generatedCode[number, j] == s[j - 1]
          invariant forall k, j :: 0 <= k < MAX_CODE_SETS && k != number && 0 <= j < MAX_CODE_LENGTH ==>
                      generatedCode[k, j] == old(generatedCode[k, j])
          modifies generatedCode
        {
          if i + 1 < MAX_CODE_LENGTH {
            generatedCode[number, i + 1] := generatedCode[number, i];
          }
          i := i - 1;
        }
      }
    }

    method InsertCode(number: int, op: Opcode, r: int, l: int, m: int, index: int)
      requires Valid() && IsSet(number)
      modifies this, generatedCode, instructionCount, finalCode
      ensures Valid() && contents == Insert(old(contents), number, Instruction(op, r, l, m), index)
    {
      var i := Instruction(op, r, l, m);
      hide AppendAll, Insert;
      if !(0 <= index < |Get(contents, number)|) {
        InsertNone(contents, number, i, index);
      }
      if number == FINAL_CODE {
        if index < 0 || index > finalInstructionCount - 1 {
          if finalInstructionCount == 0 {
            AppendCode(number, op, r, l, m);
          }
          return;
        }
      } else {
        if index < 0 || index > instructionCount[number] - 1 {
          if instructionCount[number] == 0 {
            AppendCode(number, op, r, l, m);
          }
          return;
        }
      }
      MakeSpaceInCode(number, index);
      InsertAt(contents, number, i, index);
      contents := Insert(contents, number, i, index);
      if number == FINAL_CODE {
        if index < FINAL_CAPACITY {
          finalCode[index] := i;
        }
        finalInstructionCount := finalInstructionCount + 1;
      } else {
        if index < MAX_CODE_LENGTH {
          generatedCode[number, index] := i;
        }
        instructionCount[number] := instructionCount[number] + 1;
      }
    }

    method PrependCode(number: int, op: Opcode, r: int, l: int, m: int)
      requires Valid() && IsSet(number)
      modifies this, generatedCode, instructionCount, finalCode
      ensures Valid() && contents == Prepend(old(contents), number, Instruction(op, r, l, m))
    {
      ghost var s := Get(contents, number);
      InsertCode(number, op, r, l, m, 0);
      assert s != [] ==> s[..0] + [Instruction(op, r, l, m)] + s[0..] == [Instruction(op, r, l, m)] + s;
      assert [Instruction(op, r, l, m)] + [] == [Instruction(op, r, l, m)];
    }

    /** `space` jumps whose targets are filled in later. */
    method GenerateProcedureJumps(number: int, space: nat)
      requires Valid() && IsSet(number)
      modifies this, generatedCode, instructionCount, finalCode
      ensures Valid() && contents == AppendAll(old(contents), number, seq(space, _ => JUMP))
    {
      assert seq(0, _ => JUMP) == [];
      for i := 0 to space
        invariant Valid() && contents == AppendAll(old(contents), number, seq(i, _ => JUMP))
      {
        AppendTwice(old(contents), number, seq(i, _ => JUMP), [JUMP]);
        assert seq(i, _ => JUMP) + [JUMP] == seq(i + 1, _ => JUMP);
        AppendCode(number, JMP, 0, 0, 0);
      }
    }

    /** Index of the first set without code; 0 when there is none. */
    method CountSets() returns (sets: nat)
      requires Valid()
      ensures sets == SetCount(contents) && sets < MAX_CODE_SETS
    {
      sets := 0;
      for i := 0 to MAX_CODE_SETS
        invariant SetCount(contents) == SetCount(contents, i)
      {
        if instructionCount[i] == 0 {
          return i;
        }
      }
    }

    /**
      The sets combined, in place: the final code is the linked code of what was emitted.
      Every set must be within its row, and nothing may have been emitted to the final code.
     */
    method PrepareMcode()
      requires Valid() && Get(contents, FINAL_CODE) == []
      requires forall k :: 0 <= k < MAX_CODE_SETS ==> |Get(contents, k)| <= MAX_CODE_LENGTH
      modifies this, generatedCode, instructionCount, finalCode
      ensures Valid() && Get(contents, FINAL_CODE) == Link(old(contents))
      ensures forall k :: k != FINAL_CODE ==> Get(contents, k) == Get(old(contents), k)
      ensures finalInstructionCount <= FINAL_CAPACITY
    {
      var sets := CountSets();
      if sets == 0 {
        return;
      }
      ghost var c := contents;
      ghost var n := sets;
      GenerateProcedureJumps(FINAL_CODE, sets);
      AppendGet(c, FINAL_CODE, seq(n, _ => JUMP));
      TableNone(c, n);
      var i := sets - 1;
      while i >= 0
        invariant -1 <= i < n
        invariant Valid()
        invariant Get(contents, FINAL_CODE) == Table(c, n, i + 1) + Bodies(c, n, i + 1)
        invariant forall k :: k != FINAL_CODE ==> Get(contents, k) == Get(c, k)
        invariant |Bodies(c, n, i + 1)| <= (n - i - 1) * MAX_CODE_LENGTH
      {
        AppendSet(i, n, c);
        i := i - 1;
      }
      TableAll(c, n);
    }

    /** The final code as it goes to the machine-code file. */
    method PrintMcode() returns (file: seq<Instruction>)
      requires Valid() && finalInstructionCount <= FINAL_CAPACITY
      ensures file == Get(contents, FINAL_CODE)
    {
      file := [];
      for i := 0 to finalInstructionCount
        invariant file == finalCode[..i]
      {
        file := file + [finalCode[i]];
      }
    }

    /** One instruction of set `i`, whose table entry is in place, with its jump moved. */
    method AppendMoved(i: nat, inst: Instruction, ghost e: int)
      requires Valid() && i < |Get(contents, FINAL_CODE)| < FINAL_CAPACITY && Get(contents, FINAL_CODE)[i].m == e
      modifies this, generatedCode, instructionCount, finalCode
      ensures Valid() && Get(contents, FINAL_CODE) == Get(old(contents), FINAL_CODE) + [MoveJump(inst, e + 1)]
      ensures forall k :: k != FINAL_CODE ==> Get(contents, k) == Get(old(contents), k)
    {
      hide AppendAll;
      ghost var before := Get(contents, FINAL_CODE);
      AppendGet(contents, FINAL_CODE, [inst]);
      AppendCode(FINAL_CODE, inst.op, inst.r, inst.l, inst.m);
      if inst.op == JMP || inst.op == JPC {
        ChangeM(FINAL_CODE, finalInstructionCount - 1, inst.m + finalCode[i].m + 1);
      }
    }

    /** Instruction `j` of set `i` behind those already moved. */
    method AppendNext(i: nat, j: nat, ghost before: seq<Instruction>, ghost body: seq<Instruction>, ghost e: int)
      requires Valid() && i < MAX_CODE_SETS && j < |body| <= MAX_CODE_LENGTH && Get(contents, i) == body
      requires i < |before| && before[i].m == e && |before| + j < FINAL_CAPACITY
      requires Get(contents, FINAL_CODE) == before + Relocate(body[..j], e + 1)
      modifies this, generatedCode, instructionCount, finalCode
      ensures Valid() && Get(contents, FINAL_CODE) == before + Relocate(body[..j + 1], e + 1)
      ensures forall k :: k != FINAL_CODE ==> Get(contents, k) == Get(old(contents), k)
    {
      hide AppendAll, MoveJump, CodeSets.ChangeM, SetM;
      var inst := generatedCode[i, j];
      MovedMore(before, body, j, e + 1);
      assert (before + Relocate(body[..j], e + 1))[i] == before[i];
      AppendMoved(i, inst, e);
    }

    /** One set behind the others in the final code, its jumps moved to where it lands. */
    method AppendSet(i: nat, ghost n: nat, ghost c: Code)
      requires i < n < MAX_CODE_SETS && Valid()
      requires |Get(c, i)| <= MAX_CODE_LENGTH && |Bodies(c, n, i + 1)| <= (n - i - 1) * MAX_CODE_LENGTH
      requires Get(contents, FINAL_CODE) == Table(c, n, i + 1) + Bodies(c, n, i + 1)
      requires forall k :: k != FINAL_CODE ==> Get(contents, k) == Get(c, k)
      modifies this, generatedCode, instructionCount, finalCode
      ensures Valid()
      ensures Get(contents, FINAL_CODE) == Table(c, n, i) + Bodies(c, n, i)
      ensures forall k :: k != FINAL_CODE ==> Get(contents, k) == Get(c, k)
      ensures |Bodies(c, n, i)| <= (n - i) * MAX_CODE_LENGTH
    {
      hide Entry, Bodies, Relocate, Table, MoveJump, CodeSets.ChangeM, SetM, AppendAll;
      ghost var e := Entry(c, n, i);
      ghost var before := Table(c, n, i) + Bodies(c, n, i + 1);
      BodiesSplit(c, n, i);
      TablePatch(contents, c, n, i);
      ChangeM(FINAL_CODE, i, finalInstructionCount);
      RelocateNone(before, Get(c, i), e + 1);
      var j := 0;
      while j < instructionCount[i]
        invariant Valid() && 0 <= j <= |Get(c, i)|
        invariant Get(contents, FINAL_CODE) == before + Relocate(Get(c, i)[..j], e + 1)
        invariant forall k :: k != FINAL_CODE ==> Get(contents, k) == Get(c, k)
      {
        AppendNext(i, j, before, Get(c, i), e);
        j := j + 1;
      }
      assert Get(c, i)[..j] == Get(c, i);
    }
  }

  const JUMP := Instruction(JMP, 0, 0, 0)

  /** The jump table when the entries of sets `i` on have been filled in. */
  function Table(c: Code, n: nat, i: nat): (t: seq<Instruction>)
    ensures |t| == n
  {
    seq(n, k requires 0 <= k < n => if k < i then JUMP else Instruction(JMP, 0, 0, Entry(c, n, k)))
  }

  lemma InsertAt(c: Code, number: int, i: Instruction, index: int)
    requires 0 <= index < |Get(c, number)|
    ensures var s, s' := Get(c, number), Get(Insert(c, number, i, index), number);
            && |s'| == |s| + 1
            && (forall j :: 0 <= j < index ==> s'[j] == s[j])
            && s'[index] == i
            && forall j :: index < j <= |s| ==> s'[j] == s[j - 1]
    ensures forall k :: k != number ==> Get(Insert(c, number, i, index), k) == Get(c, k)
  {
  }

  lemma InsertNone(c: Code, number: int, i: Instruction, index: int)
    requires !(0 <= index < |Get(c, number)|)
    ensures Insert(c, number, i, index) == if Get(c, number) == [] then AppendAll(c, number, [i]) else c
  {
    assert [] + [i] == [i];
  }

  lemma RelocateNone(before: seq<Instruction>, code: seq<Instruction>, d: int)
    ensures before + Relocate(code[..0], d) == before
  {
  }

  /** Filling in the table entry of set `i`. */
  lemma TablePatch(cur: Code, c: Code, n: nat, i: nat)
    requires i < n && Get(cur, FINAL_CODE) == Table(c, n, i + 1) + Bodies(c, n, i + 1)
    ensures var cur' := CodeSets.ChangeM(cur, FINAL_CODE, i, Entry(c, n, i));
            && Get(cur', FINAL_CODE) == Table(c, n, i) + Bodies(c, n, i + 1)
            && forall k :: k != FINAL_CODE ==> Get(cur', k) == Get(cur, k)
    ensures (Table(c, n, i) + Bodies(c, n, i + 1))[i].m == Entry(c, n, i)
  {
    hide Entry, Bodies;
    TableStep(c, n, i);
  }

  lemma MovedMore(before: seq<Instruction>, code: seq<Instruction>, j: nat, d: int)
    requires j < |code|
    ensures before + Relocate(code[..j], d) + [MoveJump(code[j], d)] == before + Relocate(code[..j + 1], d)
  {
  }

  lemma TableNone(c: Code, n: nat)
    ensures seq(n, _ => JUMP) == Table(c, n, n) + Bodies(c, n, n)
  {
  }

  lemma TableAll(c: Code, n: nat)
    ensures Table(c, n, 0) == JumpTable(c, n)
  {
  }

  lemma TableStep(c: Code, n: nat, i: nat)
    requires i < n
    ensures Table(c, n, i) == SetM(Table(c, n, i + 1), i, Entry(c, n, i))
    ensures Table(c, n, i)[i].m == Entry(c, n, i)
  {
  }
}
