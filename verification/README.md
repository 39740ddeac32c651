# A PL/0 compiler and its machine, verified

The project models a one-pass PL/0 compiler written in C and the machine it generates code for,
and proves what the two do together. The parts are given twice: as functions on values, about
which the theorems are, and in the form the C code has, as classes, arrays, linked structures and
loops whose contracts tie them to those functions. Scanner, parser, code sets and machine are run
together in that form by `Driver`; there the parser holds its table and its token sets as values,
and the linked structures of `SymTable` and `TokenSets` are proved for themselves: the one does what
the functions on tables say, the other acts as a set.

| part | functions and theorems | in-place form |
|---|---|---|
| scanner | `Lexing`, `Characters`, `SourceText` | `Scanner` |
| token sets | | `TokenSets` |
| symbol table | `Symbols`, `Hashing`, `Scope`, `Uses`, `Overhang`, `DistinctNames`, `Room`, `Offsets` | `SymTable` |
| parser and code emission | `Parsing`, `Compile`, `Emission`, `Programs`, `RegisterUse`, `RegisterNeed`, `RoundTrip`, `RoundTripProgram`, `Comments`, `Tolerance`, `Closing`, `Rejections`, `ElseParts` | `ParserState`, `ExprParser`, `StmtParser`, `BlockParser` |
| code sets and linker | `CodeSets`, `Linked` | `CodeStore` |
| machine | `Machine`, `Arithmetic`, `Records`, `Safety`, `SafeRuns`, `Cells` | `VirtualMachine` |
| unparser | `Unparse` | `Unparse` |
| meaning of programs | `Semantics`, `Standard`, `Sinking`, `Naming`, `LexSound`, `CodeShape`, `Deviations` | |
| the whole | `ExprCorrect`, `StmtCorrect`, `Faults`, `Compiler`, `Readings`, `Pl0`, `Pl0Safety` | `Driver` |
| programs that run as in PL/0 | `OneProc`, `Example`, `Deep`, `Branches`, `Siblings`, `Shadow`, `Neighbours`, `Lasting` | |
| programs that do not | `BeginEnd`, `Falling`, `Clobber`, `Leak`, `Collision`, `ConstWrite`, `EmptyBody`, `SmallTables` | |

**The main results.** `Compiler.CompiledRun` is compiler correctness for every token list the
parser accepts: the tree it built is run under the *implemented* semantics, which returns from a
procedure at every `begin..end` and looks names up in the compiler's table, and the linked code
comes to the same output. `Compiler.CompiledEnds` is the same for runs that divide by zero, call
too deep, or do not end. `Pl0.CompilesPl0` is correctness for PL/0: for every *supported* program
the parser accepts its concrete syntax, and of a run that PL/0 ends, with recursion as deep as it
takes, and every call's body ending at a `begin..end`, the machine writes what PL/0 writes, names
meaning what lexical scope says, if and only if never more than five records are live at once.
`Driver.RunPl0` is the same from characters, comments included, through the in-place forms of
scanner, parser, linker and machine. `Comments.CommentsSkipped` says that comments make no
difference to the parser, `Characters` what every lexeme is by character codes, `Tolerance`,
`Closing` and `Rejections` what the parser puts up with and what it rejects, `Hashing.HashIs` which
names share a bucket, and `Arithmetic` what division and `odd` leave. `Pl0Safety.SafePl0` says what
holds in every reachable state, of runs that end badly or not at all. `SafeRuns.CallReturns`
brackets calls and returns.

**Supported programs** (`Pl0.Supported`) are PL/0 programs written as the grammar has them, well
typed, and within the machine's registers, stack, code memory and code sets. The remaining
conditions on a program, and the two on its run, are where the code departs from PL/0. Each has
its exact statement and a program that goes wrong, parsed, compiled and run; some have one that
comes close and does not:

| the code | exactly | right | wrong |
|---|---|---|---|
| keeps the symbols of closed procedures | `Overhang.ProgramsAgree`, `Symbols.LookupExact` | `Shadow.ShadowRuns` | `Leak.LeakDeviates` |
| searches buckets without comparing names | `Overhang.ProgramsAgree`, `Symbols.LookupExact` | | `Collision.TwinDeviates` |
| never gives back a level's addresses | `Offsets.VarsFitExactly`, `Cells.OverhangKept`, `Cells.CallLoses` | `Lasting.LastingRuns` | `Clobber.ClobberDeviates` |
| returns from a procedure at every `begin..end` | `Sinking.BeginEndExact`, `Sinking.NestedBeginExact` | | `BeginEnd.NestedDeviates` |
| returns nowhere else | `Standard.TailMeaning`, `Standard.TailReturns` | `Branches.BranchRuns` | `Falling.FallDeviates` |
| loads from a constant to be written as from an address | `Deviations.WriteConstExact` | | `ConstWrite.ConstDeviates` |
| throws away an `else` behind an empty branch | `ElseParts.ProgramRoundExact` | | `ElseParts.ElseDeviates` |
| wants a statement for a procedure's body | `ElseParts.ProgramRoundExact`, `EmptyBody.BodyTaken` | | `EmptyBody.EmptyFails` |
| keeps trace entries for five calls only | `Pl0.CompilesPl0` | `Deep.DeepRuns` | `Deep.DeepRuns` |

Only the names that a body uses matter, and only where it uses them (`Overhang.Clear`). A variable
may lie behind its record where the procedure makes no call: `pads` says by how much, and
`Overhang.PaddedMeaning` that PL/0 does not notice. A `begin..end` may stand inside a procedure's
where nothing but empty statements follows, and a body may be of any shape, as long as no call in
the run comes to its end elsewhere than at a `begin..end`; the flag `fell` of a store notes one that
does. `Pl0Safety.SafePl0` asks that every way through a procedure's body ends at a `begin..end`,
and lets them stand anywhere in it; that assignments go to variables, which the parser only
reports; and, like the rest of this, that no constant is written.

**Undefined behaviour.** What C leaves undefined (an index out of range, a zero divisor) is a
state of its own in the machine, `UNDEFINED`, and an outcome of its own in the parser, `Crash`.
The machine keeps, for its trace, five entries of `frameBreak` and indexes them by the number of
calls now open (virtualMachine.c:140 and 162). With five calls open, that is six records live, the
index is one past the array: neither a call nor a return is defined then, and the model makes both
undefined. Only the trace printer reads the array, but the writes are part of what the machine does.

## Model

| member | source | states |
|---|---|---|
| `Driver.RunPl0` | src/driver/compilerDriver.c:28-125 | From characters to output: any text, comments and layout included, whose tokens without the comments are those of a supported PL/0 program which PL/0 runs to its end, every call's body ending at a begin..end, goes through the scanner, parser, linker, loader and machine in their in-place forms; once the machine has stopped, it has halted exactly when the run never had more than five records live at once, and then it has written exactly what PL/0 writes |
| `Driver.SpelledText` | src/driver/compilerDriver.c:28-60 | The spelling of a program, a space behind every token, is one of the texts RunPl0 speaks of |
| `Driver.EnoughTurns` | src/virtualMachine/virtualMachine.c:76-85 | Such a program does stop the machine after some number of turns, at its halt or, beyond five records, undefined, and more turns change nothing |
| `Pl0.CompilesPl0` | src/parse/RDParsing/parse.c:184-243 | The parser accepts the concrete syntax of every supported tree and gives the tree back; of a run that PL/0 ends, however deep its recursion, every call's body ending at a begin..end, the machine halts with PL/0's output and PL/0's unread input if and only if never more than five records are live at once, and is undefined otherwise |
| `Pl0.ReturningProgram` | src/parse/RDParsing/parse.c:671-675 | If every way through every procedure body ends at a begin..end, no call of any run falls through, so the condition on the run is met |
| `Pl0.CompilesSunk` | src/parse/RDParsing/parse.c:671-675 | The same, with begin..end anywhere in procedures: the machine does what PL/0 does with the program in which everything behind a begin..end of a procedure is sunk |
| `Pl0.CompilesLex` | src/parse/RDParsing/parse.c:184-243 | Any text the parser takes for a tree whose used names resolve as lexical scope says: what the implemented semantics does in lexical scope is what the machine does |
| `Deep.DeepRuns` | src/virtualMachine/virtualMachine.c:131-163 | A recursive program that PL/0 ends with output k: compiled, it halts with k while at most four calls are open at once, and stops undefined from five on |
| `Shadow.ShadowSupported` | src/symbolTable/symbolTable.c:130-146 | A program with a name declared again in a procedure, and a later procedure in which the table would answer with that closed declaration, is supported, for the later procedure does not use the name; that not all names in scope resolve is part of the statement |
| `Shadow.ShadowRuns` | src/symbolTable/symbolTable.c:130-146 | Compiled and run, the inner variable leaves the outer one alone |
| `Lasting.LastingSupported` | src/parse/RDParsing/parse.c:89-95 | A program whose second procedure finds its variable one cell behind its record is supported, for that procedure makes no call |
| `Lasting.LastingRuns` | src/parse/RDParsing/parse.c:89-95 | Compiled and run, the variable behind the record keeps its value and the program writes 7, as in PL/0 |
| `Branches.BranchRuns` | src/parse/RDParsing/parse.c:671-675 | A procedure body that is no begin..end, but has one in either branch, returns; compiled and run, the program writes what PL/0 writes |
| `Compiler.CompiledRun` | src/parse/RDParsing/parse.c:184-243 | For every token list the parser accepts, whatever it recovered from: if the tree it built runs to its end under the implemented semantics, the linked code reaches IDLE with the same output and the same input left; procedures that make no call may have variables behind their records |
| `Compiler.CompiledEnds` | src/virtualMachine/virtualMachine.c:112-247 | The runs that do not end well: at a zero divisor, or a call or return beyond the trace entries, the machine comes to that very DIV, CAL or RTN with the same output so far and is undefined there; a run out of fuel keeps the machine running for as many turns at least |
| `Compiler.CompiledForever` | src/virtualMachine/virtualMachine.c:76-85 | A program that times out on n units of fuel is still running after n turns, so one that never ends never stops the machine |
| `Pl0Safety.SafePl0` | src/virtualMachine/virtualMachine.c:76-109 | After any number of turns on any input, unless the INC of a procedure has been reached whose record does not fit the stack, which none is when all that can be live fit, a compiled program has not fetched outside its code, is in the activation-record invariant while it runs, and can have stopped only at its own halt, at a zero divisor, at a call without room or at too many nested calls |
| `Pl0Safety.TableSound` | src/parse/RDParsing/parse.c:74-107 | For any one name in scope: the compiler's table gives it its lexical meaning if and only if it resolves the name, and then the level difference and address are those of a variable in the owner's record, or of a procedure whose parent is where its static link will go |
| `Compiler.CodeLength` | src/genCode/gencode.c:99-115 | The code of whatever the parser accepts is one jump for each procedure and their code, no more |
| `Example.SampleRuns` | src/parse/RDParsing/parse.c:184-243 | The theorem at work: a program whose procedure changes a variable of the program compiles to 15 instructions and halts with output 42, so the hypotheses can be met |
| `ExprCorrect.ExprRun` | src/parse/RDParsing/parse.c:971-1040 | Code of an expression, started at register p, reaches exactly its end with the value in R[p], registers below p, stack, input and output unchanged; the sign of the first factor amounts to the sign of the whole first term |
| `ExprCorrect.CondRun` | src/parse/RDParsing/parse.c:900-952 | Code of a condition leaves 0 in R[p] exactly when the condition is false, and nothing else changed below p |
| `ExprCorrect.NegateFactors` | src/parse/RDParsing/parse.c:1076-1082 | Negating only the first factor of a chain of * and / negates the value of the whole chain, division truncating toward zero |
| `Common.CDivNegate` | src/parse/RDParsing/parse.c:1076-1082 | Truncating division commutes with negating the dividend; what the quotient is says CDivExact |
| `Common.CDivExact` | src/virtualMachine/virtualMachine.c:211-213 | The quotient of C's division is the one number that leaves a remainder smaller than the divisor and of the sign of the dividend; no other number does |
| `Common.CModExact` | src/virtualMachine/virtualMachine.c:217-219 | The remainder is the one number of the sign of the dividend, smaller than the divisor, that leaves a multiple of it |
| `Arithmetic.DivLeaves` | src/virtualMachine/virtualMachine.c:211-213 | A turn on DIV: undefined for the divisor 0; else one register changes, to the only q for which a - q * b is smaller than b and has the sign of a |
| `Arithmetic.ModLeaves` | src/virtualMachine/virtualMachine.c:217-219 | A turn on MOD: undefined for the divisor 0; else one register changes, to the only number smaller than b and of the sign of a that is a multiple of b away from a |
| `Arithmetic.OddLeaves` | src/virtualMachine/virtualMachine.c:214-216 | A turn on ODD leaves 0 for an even number, 1 for a positive odd one and -1 for a negative odd one, and changes nothing else |
| `Arithmetic.OperationLeaves` | src/virtualMachine/virtualMachine.c:202-238 | A turn on any other operation on two registers leaves sum, difference or product, or 1 or 0 as the relation holds or not, and changes nothing else |
| `Arithmetic.QuotientMeans` | src/parse/RDParsing/parse.c:1083-1112 | The meaning of f / g is a fault for a zero divisor, and else the quotient rounded towards zero, said without the division function |
| `Arithmetic.OddMeans` | src/parse/RDParsing/parse.c:914-922 | The condition odd e is true exactly when the value of e is an odd number, negative ones included |
| `Arithmetic.OddRuns` | src/virtualMachine/virtualMachine.c:214-216 | Run on the machine, the code of odd e leaves zero in its register exactly when the value of e is even |
| `RegisterUse.ExprRegisters` | src/parse/RDParsing/parse.c:971-1208 | Parsing an expression with parentheses nested d deep emits code all of whose register operands are among the 2d + 3 from the register pointer on |
| `RegisterUse.StmtRegisters` | src/parse/RDParsing/parse.c:677-815 | Parsing a statement nested k deep in if and while emits code all of whose register operands are among the k + 2d + 4 from the register pointer on, however long it is |
| `RegisterUse.StmtWithin` | src/parse/RDParsing/parse.c:494-893 | The register operands of a statement's code lie between its first register and the number of registers the correctness theorem asks for |
| `RegisterNeed.StmtTouches` | src/parse/RDParsing/parse.c:494-893 | That number is not one too large: the last of those registers is an operand of some instruction, for every statement with its names declared |
| `StmtCorrect.StmtRun` | src/parse/RDParsing/parse.c:494-893 | Code of any statement, patched jumps included, takes the machine from store to store exactly as the source semantics goes, or stops short of an RTN where the semantics returns; registers below p survive a statement without calls |
| `StmtCorrect.WhileRun` | src/parse/RDParsing/parse.c:754-815 | The same for while, by induction on the run: the jump back and the exit jump land where the loop and its continuation are |
| `StmtCorrect.IfElseRun` | src/parse/RDParsing/parse.c:677-753 | The same for if-else: each branch is reached exactly when the condition says so and both end behind the statement |
| `StmtCorrect.CallRun` | src/virtualMachine/virtualMachine.c:131-163 | A call runs the callee's code in a new record and comes back behind the CAL with the caller's record on top |
| `StmtCorrect.EnterRun` | src/virtualMachine/virtualMachine.c:154-171 | CAL, the jump-table jump and INC together make exactly the record the source semantics enters, links included |
| `StmtCorrect.TrampolineRun` | src/genCode/gencode.c:102-115 | From the jump-table slot of a procedure the machine reaches its first statement in two steps that only move pc and sp |
| `StmtCorrect.ProgramRun` | src/parse/RDParsing/parse.c:235-242 | A loaded program whose source run ends reaches IDLE through SIO 3 with the same output and input left |
| `Faults.ExprStuck` | src/virtualMachine/virtualMachine.c:211-213 | Code of an expression that divides by zero comes to that division, the divisor's register 0, with nothing written |
| `Faults.StmtEnds` | src/virtualMachine/virtualMachine.c:112-247 | Code of a statement that faults or runs out of fuel comes to the faulting instruction with the same output so far, or keeps running |
| `Faults.WhileEnds` | src/parse/RDParsing/parse.c:754-815 | Every turn of a loop takes the machine at least one turn, so fuel used up is turns taken |
| `Records.BaseHop` | src/virtualMachine/virtualMachine.c:366-374 | Following k static links in the stack ends at the base of the record k links up in the source's list of records |
| `Records.BaseAdd` | src/virtualMachine/virtualMachine.c:366-374 | The machine's walk over a + b static links is its walk over a of them and then over b, and fails where one of these does |
| `Records.ReadLaid` | src/virtualMachine/virtualMachine.c:143-148 | A load through (level difference, offset) finds the value the source gives the variable |
| `Records.WriteLaid` | src/virtualMachine/virtualMachine.c:149-153 | A store changes that variable's cell and no other variable, link or return address of any record |
| `Records.PushLaid` | src/virtualMachine/virtualMachine.c:154-171 | A header above the live records together with INC is one more record, the others as they were |
| `Records.PopLaid` | src/virtualMachine/virtualMachine.c:131-142 | Dropping the top record leaves the others laid out as they were, sp at the end of the new top one |
| `Safety.SafeStep` | src/virtualMachine/virtualMachine.c:112-247 | One step keeps the invariant of running states (dynamic links to the previous record, static links to a record of the textual parent, return addresses behind a CAL in the caller's code, also between CAL, jump and INC) or stops for one of the listed reasons |
| `Safety.ChainHop` | src/virtualMachine/virtualMachine.c:366-374 | Lexical addressing: following k static links from a live record reaches a record of the procedure k levels out in the program text |
| `Safety.SoundLocated` | src/genCode/gencode.c:236-260 | The level difference and offset emitted for a variable in scope always denote a variable of a live record |
| `Safety.Fetch` | src/virtualMachine/virtualMachine.c:90-109 | Inside a procedure's code every instruction is one the code generator emits there and control, jumps included, stays inside until RTN or the program's halt |
| `Safety.StoreKeeps` | src/virtualMachine/virtualMachine.c:149-153 | STO to a variable in scope changes no link and no return address |
| `SafeRuns.RunSafe` | src/virtualMachine/virtualMachine.c:76-109 | Over whole runs of any length, as long as the records fit the stack: never ERROR, the invariant while running, and the reason for every stop |
| `SafeRuns.RunTraced` | src/virtualMachine/virtualMachine.c:76-85 | Every run that is still going, its records inside the stack, has a list of records at each turn, changed from turn to turn only by a push at CAL and a pop at RTN |
| `SafeRuns.CallReturns` | src/virtualMachine/virtualMachine.c:131-163 | From any CAL to its matching RTN, over any nested and recursive calls, bp and sp are back, pc is behind the CAL and the live records are the same |
| `SafeRuns.LiveCells` | src/virtualMachine/virtualMachine.c:149-153 | A live cell changes only by STO, and then it is a variable's cell in a record on the static chain |
| `Cells.OverhangKept` | src/virtualMachine/virtualMachine.c:149-164 | Between two turns of a run with no new record in between, any cell, inside a record or behind the last, keeps its value unless it is stored to: so a variable behind its record lasts while nothing is called |
| `Cells.CallLoses` | src/virtualMachine/virtualMachine.c:154-164 | From any call to the return that matches it, whatever runs in between, the second to fourth cell above the caller's sp come to hold the static link found, the caller's bp and the return address, and the first holds 0 unless it has been stored to: so a variable behind its record is lost to the next call |
| `SafeRuns.SmallRoom` | src/virtualMachine/virtualMachine.c:165-171 | If all records that can be live fit the stack, no run takes sp past it or calls without room for a header |
| `SafeRuns.StepRoom` | src/virtualMachine/virtualMachine.c:165-171 | In one step sp stays below the height of the records, and a call finds room for its header |
| `CodeShape.StmtShaped` | src/parse/RDParsing/parse.c:677-815 | The jumps in a statement's code stay between its first instruction and the one behind it, and its operands denote registers, variables and procedures that exist |
| `CodeShape.BodyFlows` | src/parse/RDParsing/parse.c:671-675 | In a body that returns on all its ways control goes, from every place that anything leads to, on to another such place of the body until an RTN, so no such procedure falls through |
| `LexSound.LexicalSound` | src/parse/RDParsing/parse.c:92-101 | In lexical scope every name of every program is sound: level difference and offset denote a variable of the owner's record, and a procedure's parent is where its static link will go |
| `LexSound.StmtCode` | src/parse/RDParsing/parse.c:494-893 | A statement's code is the same under any lookup that gives its names the same meanings |
| `Emission.StmtEmits` | src/parse/RDParsing/parse.c:494-893 | One-pass emission with back-patching refines the pure compiler: after any accepted statement the code set has grown by exactly the compiled code of the tree built, earlier code and other sets untouched, and the register pointer is back |
| `Emission.WhileEmits` | src/parse/RDParsing/parse.c:754-815 | The two jumps of while, emitted with target 0 and patched later, end up where the compiled tree has them |
| `Emission.IfEmits` | src/parse/RDParsing/parse.c:677-753 | The two jumps of if, with and without else, end up where the compiled tree has them |
| `Emission.ExprEmits` | src/parse/RDParsing/parse.c:971-1208 | Parsing an expression emits exactly its compiled code and takes exactly one register |
| `Emission.FirstJump` | src/genCode/gencode.c:401-415 | Patching the conditional jump changes its target and nothing behind or before it |
| `Programs.ProgramEmits` | src/parse/RDParsing/parse.c:184-243 | A successful parse leaves in set i the finished code of procedure i of the tree, INC in front, for every i, and no other code; the symbol address of a procedure is its set number |
| `Programs.BlockDeclares` | src/parse/RDParsing/parse.c:252-483 | Parsing a block leaves table, offsets, procedure count and code sets as elaborating its tree says, and restores level and current set |
| `Programs.CountOfProcs` | src/parse/RDParsing/parse.c:96-101 | The procedures of the tree are as many as the parser counted |
| `Compiler.ParseHolds` | src/parse/RDParsing/parse.c:184-243 | The code sets after a parse are those the linker theorems ask for |
| `Parsing.ParseBlock` | src/parse/RDParsing/parse.c:252-483 | Parsing takes no token back, on every token sequence, malformed ones included; with the ranks in its decreases clause this is termination of the whole recursive descent |
| `Parsing.Test` | src/parse/RDParsing/parse.c:132-157 | Recovery changes nothing but the position, stops at a token of the two sets or the end, and moves on whenever the current token is in neither |
| `Parsing.ParseStmt` | src/parse/RDParsing/parse.c:494-893 | A statement that begins like one takes at least one token |
| `Parsing.ParseSections` | src/parse/RDParsing/parse.c:256-456 | The loop over declarations makes progress whenever it goes round again |
| `RoundTrip.StmtRound` | src/parse/RDParsing/parse.c:494-893 | Parsing the concrete syntax of a statement gives the statement back and stops at the token behind it |
| `RoundTrip.ExprRound` | src/parse/RDParsing/parse.c:971-1208 | Parsing the concrete syntax of an expression gives the expression back and stops at the token behind it |
| `RoundTripProgram.ProgramRound` | src/parse/RDParsing/parse.c:184-243 | Parsing the concrete syntax of a whole program gives the program back |
| `RoundTripProgram.EndedRound` | src/parse/RDParsing/parse.c:225-234 | A program that has a statement is given back whatever stands behind its period, and without a period at the end of the text |
| `Comments.CommentsSkipped` | src/parse/RDParsing/parse.c:125-127 | Comments make no difference: for every token list the parser comes to the same tree, code, table and counters, or the same error, or the same crash, as for the list with all comments filtered out |
| `Comments.CommentsLeaveCode` | src/parse/RDParsing/parse.c:125-127 | The linked code of any token list is that of the list without its comments |
| `Comments.SkipExact` | src/parse/RDParsing/parse.c:125-127 | What is skipped is exactly the comments in front: all of them, and nothing else |
| `Comments.NextExact` | src/parse/RDParsing/parse.c:108-129 | The next token is the first one behind the current one that is no comment |
| `Comments.CommentRead` | src/dfa/dfa.c:289-310 | A comment written in front of any text leaves the other tokens of that text as they were |
| `Tolerance.TailExact` | src/parse/RDParsing/parse.c:225-234 | Behind a program's statement the parser passes over everything up to a period or a token that starts a declaration or a statement: it takes the program if that is a period or the text has ended, and rejects it with error 9 if not |
| `Tolerance.EqualsAssigns` | src/parse/RDParsing/parse.c:522-533 | An equals sign does for the becomes sign: the whole outcome of the statement is the same |
| `Tolerance.SemicolonOptional` | src/parse/RDParsing/parse.c:628-636 | A semicolon in front of a statement may be missing: the whole outcome of the list is the same |
| `Tolerance.ListEnds` | src/parse/RDParsing/parse.c:628 | Nothing but a semicolon or the beginning of a statement carries a list of statements on |
| `Tolerance.ClosingOptional` | src/parse/RDParsing/parse.c:1189-1195 | The parenthesis that closes an expression may be missing in front of a token that can follow the factor: the tree is that of the closed one, and that token is next |
| `Tolerance.ClosingBeforeRelation` | src/parse/RDParsing/parse.c:937-938 | In front of each of the six relations it may be missing at the beginning of a condition, with any stray tokens in its place: these are passed over, the relations and what can follow the condition are not |
| `Closing.ClosingBeforeThen` | src/parse/RDParsing/parse.c:696-712 | In front of then it may be missing too: the whole if statement, body and code included, comes out as with the parenthesis there |
| `Closing.ClosingBeforeDo` | src/parse/RDParsing/parse.c:774-793 | The same in front of do for the whole while statement |
| `Closing.ClosingInList` | src/parse/RDParsing/parse.c:590-613 | The same in front of the semicolon or the end behind the first statement of a begin..end, for the whole of it |
| `Tolerance.SkipToExact` | src/parse/RDParsing/parse.c:143-153 | Skipping stops at the first token of the set, the first nulsym or the end, whichever comes first |
| `Tolerance.StrayPassed` | src/parse/RDParsing/parse.c:1125 | A stray token in front of a factor, unless it can follow one, makes no difference to the outcome |
| `Tolerance.StrayInBlock` | src/parse/RDParsing/parse.c:457-464 | A token that starts no declaration and no statement makes no difference where one of these is to come |
| `Tolerance.StrayBehindProcedure` | src/parse/RDParsing/parse.c:440-448 | One behind a procedure makes none either, unless a statement or a procedure can start with it or it can follow the block |
| `Tolerance.NumberLimit` | src/parse/RDParsing/parse.c:1158-1168 | In an expression numbers are taken up to 90000 and rejected with error 25 above |
| `Tolerance.ConstLimit` | src/parse/RDParsing/parse.c:304-308 | The same in the declaration of a constant |
| `Rejections.UnknownName` | src/parse/RDParsing/parse.c:560-575 | A name that the table does not answer for is error 11 in an expression and behind call, read and write |
| `Rejections.UnknownTarget` | src/parse/RDParsing/parse.c:513-548 | An assignment to such a name is no error but a crash, the null symbol being used once the expression has been parsed |
| `Rejections.AnyTarget` | src/parse/RDParsing/parse.c:513-520 | An assignment to a constant or a procedure is taken like one to a variable |
| `Rejections.ProcedureValue` | src/parse/RDParsing/parse.c:1148-1153 | A procedure in an expression is error 21 |
| `Rejections.WrongKind` | src/parse/RDParsing/parse.c:576-581 | To call what is no procedure is error 15; to read into what is no variable, or write a procedure, is error 27 |
| `Rejections.WrongSecond` | src/parse/RDParsing/parse.c:522-533 | A statement whose second token is not the one it needs is error 14, 27, 28 or 30, by its first |
| `Rejections.NoFactor` | src/parse/RDParsing/parse.c:1196-1203 | What can follow a factor in the place of one is error 23 |
| `Rejections.NoRelation` | src/parse/RDParsing/parse.c:954-964 | An expression without relation where a condition is wanted is error 20 |
| `Rejections.NoThenOrDo` | src/parse/RDParsing/parse.c:706-712 | Behind any condition, a missing then is error 16 and a missing do error 18 |
| `Rejections.NoEnd` | src/parse/RDParsing/parse.c:662-670 | A list of statements that neither goes on nor comes to an end is error 26 |
| `Rejections.BadConst` | src/parse/RDParsing/parse.c:281-303 | A constant without its name, equals sign or number is error 4, 3 or 2, and error 1 for a becomes sign |
| `Rejections.BadDeclaration` | src/parse/RDParsing/parse.c:350-415 | A variable or procedure without name is error 4, one without its separator error 5 or 6 |
| `Rejections.SecondConsts` | src/parse/RDParsing/parse.c:256-325 | A second section of constants right behind the first is no error but a crash, the tail of the list having been reset |
| `Rejections.SecondVars` | src/parse/RDParsing/parse.c:326-372 | So is a second section of variables |
| `Overhang.ProgramsAgree` | src/parse/RDParsing/parse.c:74-107 | The table's answers are those of lexical scope wherever a body uses a name, if and only if for each such name and place, of the entries of its bucket that are no deeper, the deepest and earliest means what the name means, and the bucket's first entry is no deeper either; own variables may lie behind the record, all by the same amount |
| `Overhang.ClearNames` | src/parse/RDParsing/parse.c:74-107 | The same name by name: the condition holds of a tree exactly when each name a body uses is found, there, as lexical scope means it |
| `Overhang.PaddedMeaning` | src/parse/RDParsing/parse.c:89-95 | Longer records, of procedures that make no call, with the variables moved up, change nothing about what PL/0 makes of a program |
| `Uses.BothMean` | src/parse/RDParsing/parse.c:74-107 | Two programs mean the same, in either semantics, if both give the names that bodies use the meanings a well-typed third gives them |
| `Scope.ScopesResolve` | src/parse/RDParsing/parse.c:74-107 | The same of all names in scope, used or not |
| `DistinctNames.DistinctClear` | src/parse/RDParsing/parse.c:74-107 | It is enough that every declared name has a bucket of its own and every procedure with variables finds its level's offset at 4 |
| `Room.ClearSmall` | src/symbolTable/symbolTable.c:60-123 | In a program whose names in scope all resolve and whose blocks declare no name twice, a block has at most as many variables as there are buckets, so the records of all calls that can be open fit the stack |
| `Symbols.LookupExact` | src/symbolTable/symbolTable.c:130-146 | Exactly when a lookup comes out at a given declaration of its bucket: the first entry is no deeper than the place of use, and the declaration beats every other entry that is not |
| `Symbols.ResolvesExact` | src/symbolTable/symbolTable.c:130-146 | A name means a given variable, constant or procedure, declared here or further out, exactly when an entry that means it wins |
| `Offsets.VarEntered` | src/parse/RDParsing/parse.c:89-95 | While the table has a free bucket, variable i of a block is in the table with its level's offset on entry plus i as its address |
| `Offsets.VarsFitExactly` | src/parse/RDParsing/parse.c:89-95 | The addresses in the table for a block's variables lie in the record its INC makes room for exactly when it has none or finds its level's offset at 4 |
| `Offsets.OffsetAfter` | src/parse/RDParsing/parse.c:92-93 | A level's offset is never given back: a block leaves it higher by the number of its variables |
| `Offsets.SiblingsClash` | src/parse/RDParsing/parse.c:431-455 | Of two sibling procedures with variables the second has its last variable in the table at an address behind its record, by as many cells as the first has variables |
| `Clobber.ClobberDeviates` | src/parse/RDParsing/parse.c:89-95 | procedure p with a variable, then procedure q with another that calls p: parsed, compiled and run, q's variable is where the call writes a header, and the program writes 0 where PL/0 writes 7 |
| `Leak.LeakDeviates` | src/symbolTable/symbolTable.c:130-146 | var a, procedure p with its own a, then procedure q that assigns to a: parsed, compiled and run, q's a is the one of the closed p, and the program writes 0 where PL/0 writes 1 |
| `Collision.TwinDeviates` | src/symbolTable/symbolTable.c:20-28 | Variables ab and bA share a bucket: parsed, compiled and run, they are one variable, and the program writes 2 where PL/0 writes 1 |
| `Deviations.WriteConstExact` | src/genCode/gencode.c:310-319 | write of a constant writes the cell of the current record that the constant addresses: right exactly when that cell holds the constant, undefined exactly when there is no such cell |
| `ConstWrite.ConstDeviates` | src/genCode/gencode.c:310-319 | const c = 3; begin write c end: parsed, compiled and run, the program writes 0 where PL/0 writes 3 |
| `ElseParts.ProgramClosed` | src/parse/RDParsing/parse.c:494-893 | Induction over the whole parser: no set of tokens passed down has else, and a body is left empty only at the end of the file, where a procedure's semicolon is missing; so whatever tokens it is given, it builds no tree with an empty or open statement in front of an else, or with an empty procedure body |
| `ElseParts.NoElseBehindEmpty` | src/parse/RDParsing/parse.c:677-753 | An if statement never comes out with an empty branch and an else |
| `ElseParts.EmptyThenLost` | src/parse/RDParsing/parse.c:888-890 | An empty branch, else, and a token that may follow: the else is skipped, the if has no else part, and the parser stops at that token |
| `ElseParts.ProgramRoundExact` | src/parse/RDParsing/parse.c:184-243 | Of the trees in order, with names declared and numbers small, the parser gives back from their concrete syntax exactly those without an empty or open statement in front of an else and without an empty procedure body; the program's own body may be empty |
| `ElseParts.ElseDeviates` | src/parse/RDParsing/parse.c:888-890 | if odd 1 then else x := 1: parsed, compiled and run, the program assigns all the same and writes 1 where PL/0 writes 0 |
| `EmptyBody.BodyTaken` | src/parse/RDParsing/parse.c:459-461 | A semicolon where a procedure's body should be is skipped, and the statement behind it is taken for the body |
| `EmptyBody.EmptyFails` | src/parse/RDParsing/parse.c:446-452 | procedure p; ; begin end: a program in order but for p's empty body; its text is rejected with error 6 |
| `BeginEnd.NestedDeviates` | src/parse/RDParsing/parse.c:671-675 | A begin..end nested in a procedure: parsed, compiled and run, the program halts having written 1 where PL/0 writes 2 |
| `Sinking.NestedBeginExact` | src/parse/RDParsing/parse.c:671-675 | The statements of a procedure that come behind a begin..end: the list does as in PL/0 if and only if they would have done nothing |
| `Sinking.SunkMeaning` | src/parse/RDParsing/parse.c:671-675 | For whole programs: the implemented semantics is PL/0's of the program in which what comes behind a begin..end of a procedure is moved into the branches that do not go through one and dropped elsewhere, unless the run is too deep or falls through; of a run that ends, exactly when it has neither more than five records nor a call whose body ends without a return |
| `Sinking.BeginEndExact` | src/parse/RDParsing/parse.c:671-675 | So the code does what PL/0 does with a program it runs to its end exactly when sinking changes nothing about the run, every call's body ends at a begin..end, and never more than five records are live |
| `Sinking.SinkRun` | src/parse/RDParsing/parse.c:671-675 | What has been sunk into a statement is done exactly when the statement does not return |
| `BeginEnd.FallsThrough` | src/genCode/gencode.c:99-115 | A call whose body comes to its end without a return: control is, in the same record, at the INC of the procedure declared before, moves sp over it and goes on in that body |
| `Falling.FallDeviates` | src/parse/RDParsing/parse.c:671-675 | A procedure whose body is an assignment: parsed, compiled and run, the program falls from it into its own code, calls it again, and stops undefined at the sixth call where PL/0 writes 1 |
| `BeginEnd.LinkedAdjacent` | src/genCode/gencode.c:99-115 | In linked code the instruction behind procedure i is the first one of procedure i - 1 |
| `Standard.TailMeaning` | src/parse/RDParsing/parse.c:671-675 | On programs whose procedures have begin..end only where nothing but empty statements follows, of any shape otherwise, and which write no constant, the implemented semantics is PL/0's, too deep, or a fall; of a run that PL/0 ends it is PL/0's if and only if never more than five records are live and every call's body comes to its end at a begin..end |
| `Standard.TailReturns` | src/parse/RDParsing/parse.c:671-675 | The code of such a body returns exactly when the conditions on the way, taken in order, lead to a begin..end |
| `CodeSets.LinkLayout` | src/genCode/gencode.c:99-115 | Set i starts at the number of sets plus the lengths of all higher sets, its slot jumps there, and its instruction k lands at entry + k with jumps moved by entry + 1 |
| `CodeSets.LinkLength` | src/genCode/gencode.c:99-115 | The linked code is the jump table and the sets and nothing else |
| `CodeSets.RelocateStmt` | src/genCode/gencode.c:112-113 | Moving the jumps of a statement's code is compiling the statement for the new place |
| `Linked.LinkLoads` | src/genCode/gencode.c:88-116 | Every jump emitted before INC was put in front lands, after linking, on the instruction it was emitted for; every procedure is where its slot says |
| `Linked.LinkedRun` | src/genCode/gencode.c:88-116 | Running the linked code simulates the source run procedure by procedure to the same output |
| `CodeStore.Store.constructor` | src/genCode/gencode.c:26-31 | All sets empty |
| `CodeStore.Store.AppendCode` | src/genCode/gencode.c:138-148 | In place: the set grows by the instruction at its end, every other set unchanged |
| `CodeStore.Store.MakeSpaceInCode` | src/genCode/gencode.c:187-210 | In place: the loop from the back moves everything from the index on one cell up, loses nothing and touches no other set |
| `CodeStore.Store.InsertCode` | src/genCode/gencode.c:157-184 | In place: the instruction stands at the index with the rest behind it; outside the set only an empty set takes it |
| `CodeStore.Store.PrependCode` | src/genCode/gencode.c:151-154 | In place: the instruction comes first, also in an empty set |
| `CodeStore.Store.ChangeM` | src/genCode/gencode.c:401-415 | In place: one target changes if the index is in the set, else nothing |
| `CodeStore.Store.GetCodeLength` | src/genCode/gencode.c:388-396 | The number of instructions emitted to the set |
| `CodeSets.SetCountExact` | src/genCode/gencode.c:90-97 | The count is the index of the first empty set, or 0 exactly when all 100 sets are in use, for any code sets |
| `CodeStore.Store.CountSets` | src/genCode/gencode.c:90-97 | The first empty set's index, and 0 when all are used |
| `CodeStore.Store.PrepareMcode` | src/genCode/gencode.c:88-116 | In place: the final code becomes exactly the linked code, the sets stay, and the final array is long enough |
| `CodeStore.Store.PrintMcode` | src/genCode/gencode.c:121-127 | The instructions written are those of the final code, in order |
| `VirtualMachine.VM.FindBase` | src/virtualMachine/virtualMachine.c:366-374 | The loop over static links computes the recursive walk, and fails exactly where that leaves the stack |
| `VirtualMachine.VM.Prefetch` | src/virtualMachine/virtualMachine.c:90-109 | Fetches exactly when pc is inside the loaded code; otherwise changes nothing |
| `VirtualMachine.VM.ExecuteCall` | src/virtualMachine/virtualMachine.c:154-164 | In place: CAL's effect on the whole machine state is that of the step function |
| `VirtualMachine.VM.ExecuteReturn` | src/virtualMachine/virtualMachine.c:131-142 | In place: RTN's effect on the whole machine state is that of the step function |
| `VirtualMachine.VM.ExecuteInstruction` | src/virtualMachine/virtualMachine.c:112-247 | In place: every instruction's effect on the whole machine state is that of the step function |
| `VirtualMachine.VM.LoadCode` | src/virtualMachine/virtualMachine.c:377-400 | Loads the file, rejects 500 instructions or more, and takes an empty file for one instruction |
| `VirtualMachine.VM.RunCode` | src/virtualMachine/virtualMachine.c:49-87 | In place: the loop is so many steps of the step function, ending early exactly when the machine stops; refuses a machine that is not idle, and runs the one instruction in memory for an empty file |
| `VirtualMachine.VM.constructor` | src/virtualMachine/virtualMachine.c:407-451 | The machine as initialised is the initial state of the step function, idle |
| `Machine.BaseReturnStops` | src/virtualMachine/virtualMachine.c:131-142 | A return from the base record is no return: it stops the machine, sp at 0 and pc at what the fourth cell of the record holds |
| `Machine.BehindCodeStops` | src/virtualMachine/virtualMachine.c:76-109 | Behind the code, or behind 500 instructions, the machine stops with an error and nothing else changes |
| `Machine.RunFinalUnique` | src/virtualMachine/virtualMachine.c:76-85 | The final state of a run does not depend on how many turns it is given |
| `ParserState.Parser.GetToken` | src/parse/RDParsing/parse.c:108-129 | Moves to the next token that is not a comment; at the end of the file there is none |
| `ParserState.Parser.TestToken` | src/parse/RDParsing/parse.c:132-157 | The skipping loop leaves the parser where Test says |
| `Parsing.FreeSetExact` | src/parse/RDParsing/parse.c:35-45 | What comes out is a free set with none free before it, or -1 and none is free |
| `ParserState.Parser.GetFreeSet` | src/parse/RDParsing/parse.c:35-45 | Takes the first free set, or -1 when there is none |
| `ParserState.Parser.MakeProcSymbol` | src/parse/RDParsing/parse.c:96-102 | A new procedure gets the next number as its address and the first free set as the current one |
| `ParserState.Parser.MakeVarSymbol` | src/parse/RDParsing/parse.c:89-95 | A new variable gets its level's offset, which goes up by one |
| `ExprParser.FactorParse` | src/parse/RDParsing/parse.c:1120-1208 | In place: tree, code, register pointer and position, or the error number, are those of ParseFactor |
| `ExprParser.FactorsParse` | src/parse/RDParsing/parse.c:1083-1112 | The loop over * and / does what the recursion on the rest of the term does |
| `ExprParser.TermsParse` | src/parse/RDParsing/parse.c:1008-1037 | The loop over + and - does what the recursion on the rest of the expression does |
| `ExprParser.ExpressionParse` | src/parse/RDParsing/parse.c:971-1040 | In place: the outcome is that of ParseExpr |
| `ExprParser.ConditionParse` | src/parse/RDParsing/parse.c:900-952 | In place: the outcome is that of ParseCond |
| `StmtParser.StatementParse` | src/parse/RDParsing/parse.c:494-893 | In place: the outcome, code and patched jumps included, is that of ParseStmt |
| `StmtParser.StatementsParse` | src/parse/RDParsing/parse.c:628-661 | The loop between begin and end, missing semicolons included, does what the recursion does |
| `StmtParser.WhileParse` | src/parse/RDParsing/parse.c:754-815 | In place: the outcome is that of ParseWhile |
| `StmtParser.IfParse` | src/parse/RDParsing/parse.c:677-753 | In place: the outcome is that of ParseIf |
| `BlockParser.DeclsParse` | src/parse/RDParsing/parse.c:256-464 | The do-while over declarations, with the current set restored each time, does what the recursion does |
| `BlockParser.ProcParse` | src/parse/RDParsing/parse.c:375-456 | In place: a procedure definition's outcome is that of ParseProc, level and INC included |
| `BlockParser.BlockParse` | src/parse/RDParsing/parse.c:252-483 | In place: the outcome is that of ParseBlock |
| `BlockParser.ProgramParse` | src/parse/RDParsing/parse.c:184-243 | In place: the outcome of a parse from a token file is that of ParseProgram |
| `Driver.CompileTokens` | src/genCode/gencode.c:78-83 | Parsing, linking and printing in place give the tree of ParseProgram and the code of the linker, or fail exactly when it does |
| `Driver.CompileAndRun` | src/driver/compilerDriver.c:84-125 | A fresh machine, loaded with the compiled tokens, is after the given turns in the state of the step function |
| `SymTable.SymbolTable.Enter` | src/symbolTable/symbolTable.c:60-123 | In place: buckets and ring come to hold what PutSymbol makes of the table, the ring staying circular, doubly linked and exactly through the buckets in use; the result says whether anything was entered |
| `SymTable.SymbolTable.Link` | src/symbolTable/symbolTable.c:95-104 | A new bucket at the end keeps the ring circular and doubly linked, from head to tail |
| `SymTable.SymbolTable.LookUp` | src/symbolTable/symbolTable.c:130-146 | The walk over the bucket gives what GetSymbol says |
| `SymTable.TableNode.Has` | src/symbolTable/symbolTable.c:46-59 | Finds an equal declaration exactly when the bucket has one |
| `SymTable.Hashcode` | src/symbolTable/symbolTable.c:20-28 | The loop computes the bucket of the name, which HashIs gives in closed form |
| `Hashing.HashIs` | src/symbolTable/symbolTable.c:20-28 | The bucket in closed form: 5381 times 33 to the length, and every character times 33 to the number of characters behind it, added up, reduced modulo 2 to the 64, and that modulo 100 |
| `Hashing.WideNames` | src/symbolTable/symbolTable.c:20-28 | Two names whose hashes outgrow 32 bits: width is in bucket 49 and last in bucket 41, where arithmetic in 32 bits would put both in bucket 45 |
| `TokenSets.KindsInOrder` | src/include/common.h:110-145 | The numbers the lists are sorted by are the places of the kinds in their declaration, 1 to 34, so different kinds have different numbers |
| `TokenSets.TokenSet.SetInsert` | src/parse/parse_common.c:168-182 | In place: the list gains one element and stays sorted |
| `TokenSets.TokenSet.InSet` | src/parse/parse_common.c:214-224 | The walk that stops at the first element not smaller decides membership |
| `TokenSets.CreateSet` | src/parse/parse_common.c:184-200 | The set has exactly the listed tokens before nulsym, sorted |
| `TokenSets.UniteSet` | src/parse/parse_common.c:129-166 | Merging gives a sorted list with exactly the elements of both, the arguments unchanged |
| `Scanner.Dfa.GetNextLexeme` | src/dfa/dfa.c:85-134 | The character loop with push-back does what ScanAt says of the text from the current position: takes that many characters, at least one unless at the end, adds that lexeme, and leaves the line number right |
| `Scanner.Dfa.Turn` | src/dfa/dfa.c:90-115 | One turn keeps the relation between state, characters read and buffer: never more than 11 characters are held between turns, in comments of any length too |
| `Scanner.Dfa.PushBack` | src/dfa/dfa.c:102-111 | Putting a character back restores the line number, a newline's included |
| `Scanner.Dfa.TransitionInside` | src/dfa/dfa.c:230-395 | From every state inside a lexeme: goes on, accepts with the right kind, or rejects, as ScanAt says |
| `Scanner.Dfa.TransitionComment` | src/dfa/dfa.c:289-310 | Inside a comment the buffer is emptied and the first star and slash end it |
| `Scanner.Dfa.UpdateReservedWords` | src/dfa/dfa.c:26-35 | The kind of a word after the loop over the reserved words |
| `Scanner.ScanFile` | src/dfa/dfa.c:437-449 | Over a whole file: the token list is ScanAll, every character has been taken, and the line is 1 plus the newlines |
| `Lexing.LongestMatch` | src/dfa/dfa.c:141-396 | An accepted lexeme is one of the lexical grammar and no longer beginning of the text is |
| `Lexing.TakenSome` | src/dfa/dfa.c:85-134 | Every look at a text takes at least one character and no more than there are, so the spans partition it |
| `SourceText.SpellRound` | src/dfa/dfa.c:141-396 | Scanning a space-terminated spelling of any list of legal tokens gives the list back |
| `Characters.BlankExact` | src/dfa/dfa.c:145-148 | The characters skipped between lexemes are those with codes 0 to 32 and 127, no others |
| `Characters.WordExact` | src/dfa/dfa.c:251-265 | By character codes: the first n characters of any text are taken as a word exactly when they are letters and digits, A to Z and a to z and 0 to 9, a letter first, at most 11, and the one behind them is none |
| `Characters.NumberExact` | src/dfa/dfa.c:230-250 | They are taken as a number exactly when they are digits, at most 6, and the one behind them is no letter or digit |
| `Characters.CommentExact` | src/dfa/dfa.c:289-310 | They are taken as a comment exactly when they are opened by slash and star and closed for the first time at their end |
| `Characters.SymbolExact` | src/dfa/dfa.c:158-221 | They are taken as a symbol exactly when they are that symbol as written, unless a longer one or a comment starts there |
| `Characters.StrayExact` | src/dfa/dfa.c:222-226 | A first character is rejected exactly when it is no blank, letter, digit or one of thirteen others |
| `Characters.RejectExact` | src/dfa/dfa.c:230-265 | What the scanner gives up at and after how many characters: a stray one, a colon alone, a letter in a number, a seventh digit, a twelfth character of a word, and nothing else |
| `Characters.ReservedExact` | src/dfa/dfa.c:26-35 | Every word is an identifier but the fifteen reserved ones |
| `Characters.NullDropped` | src/dfa/dfa.c:127-131 | The reserved word null in front of any text leaves the token list of the text as it was |
| `Characters.LegalNameExact` | src/dfa/dfa.c:251-265 | The names the round trip of texts is about are exactly those the scanner takes for identifiers |
| `Unparse.TermUnParse` | src/parse/RDParsing/unparse.c:95-101 | The loop over factors prints the term |
| `Unparse.ExpressionUnParse` | src/parse/RDParsing/unparse.c:115-122 | The loop over terms prints the expression |
| `Unparse.ConditionUnParse` | src/parse/RDParsing/unparse.c:123-139 | Prints the condition |
| `Unparse.NumberTextExact` | src/parse/RDParsing/unparse.c:70-72 | A number is printed in decimal notation without leading zeros that reads back as its size, with a minus sign exactly when it is negative |
| `Unparse.ReadExpr` | src/parse/RDParsing/unparse.c:65-122 | Scanning what is printed for an expression gives the tokens of its concrete syntax |
| `Unparse.UnparseExprRound` | src/parse/RDParsing/unparse.c:65-122 | Print, scan and parse: the same expression, stopping where the text did |
| `Unparse.UnparseCondRound` | src/parse/RDParsing/unparse.c:123-139 | Print, scan and parse: the same condition, stopping where the text did |

## Left out

- Machine integers: all integers are unbounded, so overflow in the compiled program is not modelled; only the hash of a name wraps at 64 bits.
- CodeStore.Store.AppendCode: an instruction emitted to a full set of 500 is written past its row in C; here the write is dropped and counted, and PrepareMcode asks that no set is that long, which `Driver.ShortCodeFits` derives from the length of the linked code.
- VirtualMachine.VM.RunCode: runs at most a given number of turns, since the source's loop need not end; `Machine.RunFinalUnique` makes the bound immaterial for runs that stop.
- BlockParser.BlockParse: a second section of constants, variables or procedures in a block, after recovery, is a crash here; in C the tail pointer of the list has just been reset to NULL.
- Scanner.Dfa.GetNextLexeme: column numbers are kept as the code keeps them but nothing is proved about them beyond being at least 1; after a newline is put back the column is one too large in C.
- A lexeme that nothing follows at the end of the file is dropped, as in the code (`Lexing.Complete`); program texts are therefore spelled with a space behind every token.
- SymTable.SymbolTable.Enter: the list of symbols of a bucket is a sequence, not linked nodes; the running total of symbols is not modelled.
- TokenSets: the parser's in-place form uses sets of kinds where the source passes these lists; UniteSet, CreateSet and InSet are proved to act as union, listing and membership.
- ParserState.Parser: holds the symbol table as a value, where the source holds a pointer to the structures of SymTable; what both answer is PutSymbol and GetSymbol.
- Pl0.CompilesPl0: a variable behind the record of a procedure that does make calls is outside, even where no call comes between its uses; what becomes of its cell is `Cells.OverhangKept` and `Cells.CallLoses`.
- Sinking.SunkMeaning: asks that the body of a loop in a procedure returns either never or always; a body that returns on some ways through and not on others has no equal in PL/0 without a flag.
- Linked.LinkedRun: linking is tied to runs through the meaning of programs; a simulation between the linked code and a machine on the separate sets is not stated.
- Compiler.CompiledEnds: says nothing of runs in which PL/0 reads a variable that was never assigned, or reads at the end of the input; the machine goes on with whatever the cell or register holds.
- Unparsing of statements and blocks: the printer puts a semicolon behind every assignment, so `else` after a simple statement does not parse again.
- Files, printing, tracing, driver options, memory allocation and its failure, and freeing are not modelled; files are sequences.
- First and follow tables, getfollowToken, expect, and the code under `#if 0` are unused by the parser and not modelled.
