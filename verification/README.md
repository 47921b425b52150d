# A Dafny model of Sky

Sky is a small scripting language with a server runtime, written in C. This project
models its language pipeline (lexer, parser, compiler, virtual machine, disassembler,
hash table) and four components of its runtime (rate limiter and ban list, thread pool,
signed tokens with base64url) and proves properties of the models. `dafny verify
dfyconfig.toml` checks everything.

Code that changes state is modelled as classes and loops; each of their methods is proved
equal to a specification function, and the theorems are about those functions.

## The pipeline

- **Text to tokens.** `Lexing` says how text falls into tokens, `Lexer` has the character
  loops. Tokens, blanks and comments tile the text (`LexRoundTrip.TokensTile`). A layout puts
  any mix of spaces, tabs, returns, newlines and comments between tokens, or nothing where
  the second token does not prolong the first; `LexExact.LexesExactly` says that the lexer
  gives tokens without an error if and only if the text is a layout of them, and
  `LexExact.ErrorsExactly` where it finds errors.
- **Tokens to trees.** `Syntax` is the nine-level grammar with statements as total
  functions of a cursor; their `decreases` clauses are the termination proof for every token
  list, erroneous ones included. `Parser` has the source's loops. `Grammar` says the same
  without cursors and errors, as a relation between stretches of the token list and trees;
  `ProgramComplete.ParsesExactly` says that the parser gives a tree if and only if the tokens
  are that program, so that it refuses every other list. `Printer` writes trees back
  with parentheses only where precedence needs them; `ExprRoundTrip` and `StmtRoundTrip`
  prove that parsing the printed tokens gives the same tree and takes exactly those tokens.
  Statements have no separators, so `Nested.RoundTripIffParted` says exactly which
  lists of statements survive.
- **Trees to code.** `CodeGen` is the code each construct stands for, `Compiler` the
  back-patching emitter. `Machine` is the interpreter loop as a transition function,
  `VirtualMachine` the loop with its stack array and globals table (`Tables`).
- **Meaning.** `Semantics` is a big-step semantics with fuel. `CompilerCorrect` proves both
  directions for every program in the fragment: the machine stops with an ending, globals
  and output exactly when the program does, and runs forever exactly when it does.
  `Operators` says, instruction by instruction, what the operators, branches and native
  functions compute and which operands they reject; `CompileErrors` which programs the
  compiler refuses.
- **Everything together.** `Pipeline.SourceExactly`: which text is which program.
  `Pipeline.TextToOutput`: the text of a program, read, compiled and run, prints what it means.

The fragment of the compiler theorem is `CompilerCorrect.Compilable`. Its conditions follow
what the compiler does, and `Limits` and `RangeLoop` say what happens at the edges:

- An `if` without `else` whose branch is taken pops once more than it pushes
  (src/compiler.c:245-248: the jump leads to the last pop, and the branch runs into it).
  `Limits.BareIfPops` says exactly when that is harmless; `Limits.BareIfMiscompiled` is a
  program that prints 3 where 1 is meant. The fragment allows such an `if` only with no block variable in scope.
- A top-level `let` or `fn` leaves its value on the stack, because SET_GLOBAL only peeks
  (src/compiler.c:229, src/vm.c:241). The code of a block variable reads and stores that
  variable exactly when nothing has been left below (`Limits.SlotReads`, `Limits.SlotWrites`);
  `Limits.LeftBelowMiscompiled` is a program that prints 1 where 2 is meant. Block variables
  may not follow.
- Loop bodies open no scope, so a declaration in one is excluded where it would pile up.
- Backward jumps are not range-checked (src/compiler.c:258-261, src/compiler.c:293-296):
  `Limits.BackwardJumpLands` is the exact condition, `Limits.LongLoopMiscompiled` a loop that
  compiles without an error and jumps into its own operand; the fragment has code below
  65535 bytes.
- `NeverDeep`, that no statement needs more than 1024 stack values, is a condition on runs;
  `Depth.ShallowProgram` gives it from the program text.

`Heights.OneHeight` is the static stack discipline: whichever way the machine comes to a
place in the code, its stack has, above the values that declarations have left behind, the
height that `Heights.Net` reads off the code. It needs an `else` for every `if`; without it
the two ways through an `if` differ by one. `RangeRun.MachineCounts` counts the rounds of
compiled `for` loops.

## The runtime

- **Rate limiter and bans.** `RateLimit`, `BanList` and `Security` are about runs of calls and
  requests; `RequestRules` says which requests pass and what follows for the others;
  `SecurityEngine` has the arrays. The limits hold until an address's 32-bit counter wraps
  (src/runtime/security.c:77): `RateLimit.Limiter.WindowInRun` and `BoundInRun` say exactly
  when, and `FloodBreaksLimit` is a run in which they fail. docs/security.md puts the ban check before the
  shield, the code does it after (src/runtime/security.c:302-311), and bans at the first
  excess, not after repeated ones; the model follows the code.
- **Thread pool.** `Async` is the pool as interleaved steps, with what holds of every run;
  `AsyncOnce` adds what holds when no submission reuses the slot of a busy worker, and shows
  that it fails otherwise, in every phase of the worker (`AsyncOnce.OverrunRunsOther` and its
  neighbours, in states reached by `AsyncOnce.OverrunInEveryPhase`). `AsyncStatus` says what
  asking and waiting for a ticket tell. `AsyncEngine` has the shared memory, one method a step.
- **Signed tokens.** `Base64` and `Jwt` with `JwtRoundTrip`, in which
  `JwtRoundTrip.AcceptedIff` says exactly which texts are accepted; `JwtContext` has the buffers.
- **Hash table.** `Tables` refines a map under every operation but deletion, which leaves no
  tombstone (src/table.c:106-108): `Tables.DeletedFinds` says exactly which keys are lost.

## Model

| member | source | states |
|---|---|---|
| CompilerCorrect.CompiledProgramIsCorrect | src/compiler.c:95-369 | for every program in the fragment: same ending, globals and output as its meaning, diverges exactly when it does, never reads dead memory |
| CompilerCorrect.CompiledProgramIsClean | src/vm.c:88-108 | no step of a compiled program pushes onto a full stack or takes values that are not there, but for an OP_POP on an empty stack; with an `else` for every `if` not even that |
| CompilerCorrect.Simulates | src/vm.c:146-566 | for every amount of fuel, where the machine is after the steps that the semantics with that fuel stands for |
| CompilerCorrect.Progress | src/vm.c:158-165 | after any number of steps a compiled program is still running or has stopped the way it should |
| ExprCorrect.SimExpr | src/compiler.c:104-218 | the code of an expression pushes exactly its value and changes nothing else on the stack, or fails as the expression does |
| ExprCorrect.SimBinary | src/compiler.c:136-158 | both operands are evaluated, in order, also for `and` and `or`, then the operator's opcode acts on them |
| ExprCorrect.SimCall | src/compiler.c:172-177 | callee and arguments are pushed, and the call leaves exactly its result |
| ExprCorrect.SimStore | src/compiler.c:197-218 | assignment stores the top value in the innermost variable of that name and keeps it on the stack |
| StmtCorrect.SimStmt | src/compiler.c:220-336 | the code of an aligned statement does what the statement means, and ends at its end with the matching stack |
| StmtCorrect.SimWhile | src/compiler.c:251-265 | the loop's code follows the loop's meaning, a step or more for each unit of fuel |
| StmtCorrect.SimFor | src/compiler.c:267-301 | start value in a new slot, end re-evaluated each round, variable counted up, slot popped at the end |
| StmtCorrect.SimLeave | src/compiler.c:74-80 | leaving a scope pops exactly the block variables declared in it |
| StmtCorrect.EndScopeRestores | src/compiler.c:70-82 | after a scope the table of locals is the one from before it |
| StmtCorrect.SameLocals | src/compiler.c:49-68 | a statement that declares no block variable leaves the table of locals alone |
| Limits.BareIfPops | src/compiler.c:234-249 | a taken `if` without `else` pops one value too many; the stack is right if and only if it was empty |
| Limits.IfElseKeepsStack | src/compiler.c:234-249 | with an `else` the stack after the statement is the branch's |
| Limits.BareIfMiscompiled | src/compiler.c:245-248 | a concrete program that means 1 and prints 3 |
| Limits.BackwardJumpLands | src/compiler.c:258-261 | a backward jump reaches its loop if and only if its distance fits 16 bits |
| Limits.SlotReads | src/vm.c:208-212 | the code that reads a block variable pushes its value, whatever the values are, if and only if nothing was left below the block variables |
| Limits.SlotWrites | src/vm.c:214-218 | the code that stores to a block variable changes it and nothing else if and only if nothing was left below |
| Limits.LeftBelowMiscompiled | src/compiler.c:229 | a concrete program that means 2 and prints 1 |
| Limits.LongLoopMiscompiled | src/compiler.c:258-261 | a loop compiled without an error that means to run forever and makes the machine read past its code |
| Depth.ShallowProgram | src/vm.c:88-95 | a bound on the program text under which no run needs more than 1024 stack values |
| Heights.OneHeight | src/vm.c:88-108 | for every program in the fragment whose `if`s have `else`: whenever the machine is at a place in the code, its stack above the values left behind has that place's one height, and at most 1024 values in all |
| Heights.OneHeightInAll | src/compiler.c:229 | when no loop leaves values behind, the whole height is the place's own |
| Heights.OneHeightByText | src/vm.c:88-108 | that under conditions on the program text alone |
| Heights.ExprRises | src/compiler.c:104-218 | the code of an expression raises the height by exactly one, and its jumps keep it |
| Heights.StmtRises | src/compiler.c:220-336 | the code of a statement raises the height by one if it declares a variable that stays and by nothing otherwise, and every jump in it leads to a place of the same height |
| Heights.BlockLevel | src/compiler.c:70-82 | leaving a scope restores the height it was entered with |
| Heights.SlotsKeepPace | src/compiler.c:49-80 | in a block, height and number of locals keep their difference, so that slots stay stack indices |
| RangeLoop.ForCounts | src/compiler.c:267-301 | a `for` from a whose end stays b, in which no assignment resolves to its variable and which ends normally, has run its body max(0, b-a) times with a to b-1 in order; then the variable is gone |
| RangeLoop.ForCountsByText | src/compiler.c:267-301 | the same when the end reads only names that the loop does not assign or declare |
| RangeLoop.LoopEnds | src/compiler.c:276-296 | when every body ends normally the loop ends after exactly max(0, b-a) rounds |
| RangeLoop.ExecSpares | src/compiler.c:62-68 | a statement without an assignment that resolves to a slot leaves it alone; declaring the name again hides the slot |
| RangeLoop.ExecKeeps | src/compiler.c:220-336 | a statement that neither assigns nor declares a name keeps its variable and its value |
| RangeLoop.StableEnd | src/compiler.c:280-282 | an end that reads only such names has the same value at every test |
| RangeRun.ForRuns | src/compiler.c:267-301 | the compiled statement goes into its rounds exactly as often, and in the same states, as its meaning |
| RangeRun.MachineCounts | src/compiler.c:267-301 | the compiled `for` starts its body exactly max(0, b-a) times, with a to b-1 in its slot in order, then the slot is gone |
| RangeRun.AloneRuns | src/vm.c:158-165 | a run that needs only one stretch of the code does not leave the stretch before its end |
| Bytecode.AtSplit | src/compiler.c:380-390 | bytes laid down one after the other are found one after the other |
| Values.TruncDivMod | src/vm.c:302-342 | division truncates toward zero and the remainder has the dividend's sign |
| Operators.IntegerAddition | src/vm.c:245-264 | OP_ADD of two integers gives the one z with z - y == x if it fits 64 bits, and is undefined otherwise; nothing else changes |
| Operators.IntegerSubtraction | src/vm.c:266-282 | OP_SUB likewise, with z + y == x |
| Operators.IntegerMultiplication | src/vm.c:284-300 | OP_MUL likewise |
| Operators.IntegerDivision | src/vm.c:302-326 | OP_DIV gives the one quotient toward zero; an error for zero only, undefined for the smallest integer by -1 only |
| Operators.IntegerRemainder | src/vm.c:328-342 | OP_MOD gives what that quotient leaves |
| Operators.IntegerComparisons | src/vm.c:369-445 | exactly one of <, == and > holds; <=, >= and != are the negations of >, < and == |
| Operators.FloatArithmetic | src/vm.c:245-431 | with a float among the operands the other is converted, and the left operand stays the left one |
| Operators.FloatComparisons | src/vm.c:401-445 | <= and >= on two floats |
| Operators.StringAddition | src/vm.c:245-264 | `+` puts the right string behind the left one |
| Operators.RuntimeErrors | src/vm.c:245-463 | for each operator, the pairs of operands that end in a runtime error, and no others |
| Operators.Equality | src/value.c:27-44 | values of different types, arrays and functions are never equal |
| Operators.Logic | src/vm.c:447-463 | for `and` and `or` nil and false are false, everything else is true |
| Operators.Prefixes | src/vm.c:344-367 | negation and `not`, and what they reject |
| Operators.Branches | src/vm.c:471-481 | the else branch is taken for nil, false and 0, and for nothing else |
| Operators.LenCounts | src/vm.c:58-72 | `len` for every type |
| Operators.StrShows | src/vm.c:38-56 | `str` for every type; an integer's text reads back as the integer |
| Operators.PrintPrints | src/vm.c:20-36 | the arguments in order, and nil |
| Operators.OtherCalls | src/vm.c:489-506 | nil may be called and gives nil; nothing else but natives may |
| Operators.NamedNatives | src/vm.c:76-79 | what is defined at the start of a run |
| CompileErrors.RefusedExactly | src/compiler.c:24-60 | more than 256 constants, or somewhere more than 256 block variables at a time, are always refused; when the code fits 16 bits, nothing else is |
| Compiler.SkyCompiler.EmitJump | src/compiler.c:17-22 | appends the opcode and two placeholder bytes and returns where they are |
| Compiler.SkyCompiler.PatchJump | src/compiler.c:24-33 | only the placeholder changes: it leads to the present end, with an error if that is too far |
| Compiler.SkyCompiler.MakeConstant | src/compiler.c:35-43 | the operand names the value just added, with an error beyond 256 constants |
| Compiler.SkyCompiler.AddLocal | src/compiler.c:49-60 | a new innermost local in the next slot, with an error when the table is full |
| Compiler.SkyCompiler.ResolveLocal | src/compiler.c:62-68 | the innermost local of that name, or none |
| Compiler.SkyCompiler.EndScope | src/compiler.c:74-82 | a pop for each local of the scope, and those locals are gone |
| Compiler.SkyCompiler.CompileExpr | src/compiler.c:104-218 | appends exactly the code that `CodeGen` defines for the expression |
| Compiler.SkyCompiler.CompileIf | src/compiler.c:234-249 | the back-patched bytes are those of `CodeGen`, both jumps included |
| Compiler.SkyCompiler.CompileWhile | src/compiler.c:251-265 | the same for `while`, with its jump back |
| Compiler.SkyCompiler.CompileFor | src/compiler.c:267-301 | the same for `for` over a range |
| Compiler.SkyCompiler.Compile | src/compiler.c:365-369 | true exactly when no error was reported; code and constants are `GenProgram`'s |
| VirtualMachine.SkyVM.Push | src/vm.c:88-95 | a full stack drops the value |
| VirtualMachine.SkyVM.Pop | src/vm.c:97-104 | the top value; nil from an empty stack |
| VirtualMachine.SkyVM.Exec0 | src/vm.c:188-463 | instructions without operand act as the transition function says |
| VirtualMachine.SkyVM.Exec1 | src/vm.c:170-243 | constants, slots, globals, calls and arrays likewise |
| VirtualMachine.SkyVM.Exec2 | src/vm.c:465-487 | jumps likewise |
| VirtualMachine.SkyVM.Call | src/vm.c:489-506 | natives get the arguments in order; calling nil drops them and gives nil |
| VirtualMachine.SkyVM.Turn | src/vm.c:158-566 | one turn of the loop is one step of the transition function |
| VirtualMachine.SkyVM.Execute | src/vm.c:146-566 | a number of turns is that number of steps |
| Machine.Vm.StrictIsRun | src/vm.c:88-108 | a run that never underflows or overflows is a run of the machine, and each of its steps is clean |
| Debug.WidthsAgree | src/debug.c:65-127 | disassembler and machine disagree on the width of exactly four opcodes |
| Debug.DisassembleChunk | src/debug.c:129-136 | the loop visits the offsets of the walk |
| Debug.CompiledFits | src/compiler.c:17-33 | compiled code consists of whole instructions and every jump goes to the start of one |
| Debug.StepStaysOnWalk | src/vm.c:465-487 | one step from an instruction that the disassembler lists leads to another one or the end |
| Debug.ExecutedIsListed | src/debug.c:129-136 | every pc that the machine executes is on the disassembler's walk |
| Tables.FindAgrees | src/table.c:37-53 | probing finds a key's slot exactly if the map has the key, and with its value |
| Tables.StoredBinds | src/table.c:73-90 | storing keeps every probe chain unbroken and binds exactly that key |
| Tables.DeletedFinds | src/table.c:101-110 | after a deletion another key is found if and only if its probe did not pass the slot |
| Tables.DeletedChained | src/table.c:101-110 | the chains stay unbroken if and only if no other key's probe passes the slot |
| Tables.DeletionLosesAKey | src/table.c:106-108 | with the hash of the source: the keys a and i collide in eight slots, and deleting one loses the other |
| Tables.SameHome | src/table.c:9-16 | their FNV-1a hashes agree modulo 8 |
| Tables.FreeSlot | src/table.c:73-78 | below the load limit every probe ends |
| Tables.SkyTable.FindEntry | src/table.c:37-53 | the probing loop ends within the capacity, at the key's slot or the first free one |
| Tables.SkyTable.AdjustCapacity | src/table.c:55-71 | resizing keeps every binding |
| Tables.SkyTable.Set | src/table.c:73-90 | the map update, and whether the key is new |
| Tables.SkyTable.Get | src/table.c:92-99 | the map lookup |
| Tables.SkyTable.Delete | src/table.c:101-110 | the slot is emptied and the count kept, so that probes still end |
| Tables.SkyTable.CopyTo | src/table.c:112-120 | every binding is added to another table |
| LexRoundTrip.TokensTile | src/lexer.c:186-235 | tokens, blanks and comments make up the text, no token is empty, each token's text is its own |
| LexRoundTrip.TextReads | src/lexer.c:186-235 | lexing any layout of valid tokens gives the tokens |
| LexRoundTrip.SkipStops | src/lexer.c:33-58 | where the skipping stops there is none of the four blank characters and no comment |
| LexExact.LexesExactly | src/lexer.c:33-235 | the lexer gives a list of tokens, none an error, if and only if the text is a layout of them |
| LexExact.ErrorsExactly | src/lexer.c:87-235 | an error exactly at a character that starts no token, a lone & or bar, and a string that is never closed |
| LexRoundTrip.SkipBlank | src/lexer.c:33-58 | only blanks and comments are skipped |
| LexRoundTrip.BodyRun | src/lexer.c:87-108 | a string ends at its first quote that no backslash takes |
| LexRoundTrip.ReadsFloat | src/lexer.c:110-119 | digits, point, digits are one float literal |
| Lexing.KeywordKind | src/lexer.c:121-161 | each keyword is recognized as its own token |
| Lexing.NoKeyword | src/lexer.c:121-161 | any other word is an identifier |
| LexExact.Keywords | src/lexer.c:121-161 | the 27 keywords, spelled out |
| LexExact.OtherWords | src/lexer.c:121-161 | and no other word is one |
| LexExact.MarkDropped | src/lexer.c:169-176 | a byte order mark in front is dropped, and nothing else |
| Lexer.SkyLexer.constructor | src/lexer.c:169-184 | starts behind a byte order mark |
| Lexer.SkyLexer.SkipWhitespace | src/lexer.c:33-58 | the loop stops where `Lexing` says |
| Lexer.SkyLexer.StringToken | src/lexer.c:87-108 | the string literal or the error for a missing quote |
| Lexer.SkyLexer.NumberToken | src/lexer.c:110-119 | the number literal |
| Lexer.SkyLexer.CheckKeyword | src/lexer.c:121-161 | the table search |
| Lexer.SkyLexer.IdentifierToken | src/lexer.c:163-167 | the word and its kind |
| Lexer.SkyLexer.SymbolToken | src/lexer.c:194-234 | one- and two-character tokens and the errors |
| Lexer.SkyLexer.Next | src/lexer.c:186-235 | the next token, with progress unless at the end |
| ExprRoundTrip.Reads | src/parser.c:55-270 | at every level of the grammar, the printed expression is read as the same tree and exactly its tokens are taken |
| ExprRoundTrip.ReadsBinary | src/parser.c:170-257 | binary operators associate to the left |
| ExprRoundTrip.ReadsAssignment | src/parser.c:259-270 | assignment associates to the right |
| ExprRoundTrip.ReadsUnary | src/parser.c:157-168 | `-` and `not` bind tighter than every binary operator |
| ExprRoundTrip.ReadsCall | src/parser.c:117-155 | calls, fields and indices are rebuilt from the left |
| ExprRoundTrip.ReadsCommaList | src/parser.c:85-112 | argument and element lists |
| StmtRoundTrip.StmtReads | src/parser.c:488-518 | every kind of statement is read back, taking exactly its tokens |
| StmtRoundTrip.ReadsIf | src/parser.c:302-317 | `if`, `else` and `else if` chains |
| StmtRoundTrip.ReadsFor | src/parser.c:327-348 | `for` over a range |
| StmtRoundTrip.ReadsFunction | src/parser.c:350-390 | parameters, optional types and the body |
| StmtRoundTrip.ReadsMembers | src/parser.c:410-440 | the methods of a class |
| StmtRoundTrip.ReadsRoutes | src/parser.c:442-486 | the routes of a server |
| StmtRoundTrip.ReadsStmts | src/parser.c:278-287 | the statements of a block |
| StmtRoundTrip.ProgramRoundTrip | src/parser.c:528-550 | a printed program is read back whole, without an error |
| Nested.RoundTripIffParted | src/parser.c:117-155 | a program with a text is read back if and only if in none of its lists, at any depth, a statement runs into the next one |
| Nested.StmtForced | src/parser.c:488-518 | a statement that is read as written has all its lists apart |
| Separation.Overreads | src/parser.c:170-270 | an expression in front of a token that prolongs it is always read as another one |
| ParserSound.LevelSound | src/parser.c:55-270 | what a level of the grammar takes without an error is an expression of that level, and no error is taken back |
| ParserSound.LevelStops | src/parser.c:117-270 | it never stops in front of a token that would prolong it |
| ProgramSound.StmtSound | src/parser.c:278-518 | what is taken as a statement without an error is that statement |
| ProgramSound.OnlyPrograms | src/parser.c:528-550 | a tree is given only for a token list that is that program |
| ParserComplete.LevelComplete | src/parser.c:55-270 | an expression of the grammar, with any parentheses, is read whole |
| ProgramComplete.StmtComplete | src/parser.c:278-518 | a statement of the grammar is read whole |
| ProgramComplete.ParsesExactly | src/parser.c:528-550 | for every token list and every tree: the parser gives the tree if and only if the list is that program of the grammar |
| ProgramComplete.Refused | src/parser.c:23-39 | no tree if and only if the list is no program; no list is two programs |
| Parser.SkyParser.ParsePrimary | src/parser.c:55-115 | builds what `Syntax` says and leaves the cursor there, also on errors |
| Parser.SkyParser.ParseCall | src/parser.c:117-155 | the loop over calls and accesses likewise |
| Parser.SkyParser.ParseBinary | src/parser.c:170-257 | the loops of the six binary levels likewise |
| Parser.SkyParser.ParseStatement | src/parser.c:488-518 | the dispatch on the first token likewise |
| Parser.SkyParser.ParseStatements | src/parser.c:278-287 | the loop up to a closing brace or the end likewise |
| Parser.SkyParser.ParseMembers | src/parser.c:418-438 | the class body, skipping what is no method, likewise |
| Parser.SkyParser.ParseServer | src/parser.c:442-486 | port and routes likewise |
| Parser.SkyParser.Parse | src/parser.c:528-550 | all statements with recovery after errors; no tree if there was one |
| SourceRoundTrip.TextRoundTrip | src/parser.c:528-550 | a program written as text, in any layout, is read by lexer and parser as the same program |
| Pipeline.RunFile | src/main.c:37-84 | the four stages in a row compute `Outcome` |
| Pipeline.SourceExactly | src/main.c:37-84 | a text without lexical errors is read as a program if and only if it is a layout of tokens that are that program |
| Pipeline.TextToOutput | src/main.c:37-84 | any text of a program in the fragment ends with an output if and only if the program means that, and is never refused |
| Decimal.ParseIntText | src/parser.c:56-60 | a printed 64-bit integer is read back as itself |
| Decimal.PlaceValue | src/parser.c:56-60 | a further digit counts once and the digits before it ten times, up to the largest 64-bit value |
| RateLimit.Limiter.SlotKeptInRun | src/runtime/security.c:59-82 | a tracked address keeps its slot in every run |
| RateLimit.Limiter.OneSlot | src/runtime/security.c:71-82 | the calls of a tracked address are counted as if its slot were alone |
| RateLimit.Limiter.WindowIff | src/runtime/security.c:72-81 | for a slot alone: a window accepts exactly min(calls, max(limit, 1)) if and only if it has fewer than 2^32 calls |
| RateLimit.Limiter.WindowBoundIff | src/runtime/security.c:72-81 | and at most 2*max(limit, 1) if and only if it has fewer than 2^32 + limit calls |
| RateLimit.Limiter.WindowInRun | src/runtime/security.c:59-82 | the first of these in any run of the table, from any counter, whatever other addresses call in between |
| RateLimit.Limiter.BoundInRun | src/runtime/security.c:59-82 | the second of these likewise |
| RateLimit.Limiter.SpanBound | src/runtime/security.c:55-85 | calls within the length of a window, also across two windows, are accepted at most 2*max(limit, 1) times if the counter does not wrap |
| RateLimit.Limiter.LimitOverRuns | src/runtime/security.c:55-85 | the same at any point of any run from the empty table, however long; an address without a slot has every call accepted |
| RateLimit.Limiter.CounterInRun | src/runtime/security.c:77 | the counter cannot wrap while the address itself has called less than 2^32 - 1 times |
| RateLimit.Limiter.FloodBreaksLimit | src/runtime/security.c:77-80 | a run from the empty table in which it wraps and 2*limit + 1 calls of one second are accepted |
| RateLimit.Limiter.LongNeverLimited | src/runtime/security.c:62-71 | an address longer than its field is never limited |
| BanList.LiftRefinesMap | src/runtime/security.c:87-108 | the check is a lookup in a map from addresses to sentences, and removes an expired one |
| BanList.BanRefinesMap | src/runtime/security.c:110-134 | banning is an update of the map unless the list is full; permanent stays permanent |
| BanList.LongAddressBan | src/runtime/security.c:125-126 | an address longer than its field is not found again; it is listed once if and only if its cut form was not |
| Security.KeptOut | src/runtime/security.c:298-341 | in every run a banned address is refused until its sentence ends, and no request changes the sentence before |
| Security.ConvictionBans | src/runtime/security.c:315-339 | a refusal for an attack or excess bans that address, for the hours that go with it, and no other |
| Security.AttackerStaysOut | src/runtime/security.c:298-341 | from the conviction on the attacker is refused until the sentence ends, whatever comes in between |
| Security.RunKeepsUnique | src/runtime/security.c:110-131 | runs of requests keep one active entry per address |
| Security.FullListBansNobody | src/runtime/security.c:123-131 | once 4096 entries are used no further address is ever banned |
| Security.ShieldComesFirst | src/runtime/security.c:302-311 | the shield refuses before bans and counting; listed addresses are checked as without it |
| RequestRules.PassesIff | src/runtime/security.c:298-341 | a request passes if and only if neither shield nor ban stops it, the rate limiter accepts it, and no detector finds anything in path or body |
| RequestRules.PassLeaves | src/runtime/security.c:298-341 | one that passes leaves its count and nothing else |
| RequestRules.StoppedLeaves | src/runtime/security.c:302-311 | what shield and ban leave behind |
| RequestRules.ExcessBans | src/runtime/security.c:313-318 | too many calls: a ban for the hours of the configuration, with its log line |
| RequestRules.FindingsBan | src/runtime/security.c:319-339 | otherwise the first finding in the source's order: the hours of the configuration, 48, 24 or 72, with the log line, and no other address banned |
| SecurityEngine.SkySecurityEngine.CheckRateLimit | src/runtime/security.c:55-85 | the probing loop does to the table what `RateLimit` says |
| SecurityEngine.SkySecurityEngine.IsBlacklisted | src/runtime/security.c:87-108 | the search loop likewise |
| SecurityEngine.SkySecurityEngine.Blacklist | src/runtime/security.c:110-134 | update in place or append likewise |
| SecurityEngine.SkySecurityEngine.Whitelist | src/runtime/security.c:136-145 | appends while there is room |
| SecurityEngine.SkySecurityEngine.IsWhitelisted | src/runtime/security.c:147-153 | membership |
| SecurityEngine.SkySecurityEngine.LogThreat | src/runtime/security.c:246-270 | the ring holds the newest 2048 threats, also after the 32-bit head wraps |
| SecurityEngine.SkySecurityEngine.Check | src/runtime/security.c:298-341 | verdict and whole new state are those of `Security.CheckRequest` |
| Async.TakesInOrder | src/runtime/async.c:12-25 | in every run the k-th task taken is the k-th submitted, its slot still intact, across index wrap |
| Async.LiveIdsDistinct | src/runtime/async.c:83-97 | identifiers in use are pairwise distinct, across wrap |
| Async.TicketZero | src/runtime/async.c:73-98 | the ticket that says "refused" is also given to exactly every 2^32-th task |
| Async.FoundIffRecent | src/runtime/async.c:100-134 | a ticket is found if and only if its task is among the last 4096 and not collected |
| Async.TraceKeeps | src/runtime/async.c:73-98 | every run keeps counters and slots those of a queue and runs no task twice |
| Async.StepKeeps | src/runtime/async.c:7-37 | the same for one step, with no assumption on the interleaving |
| AsyncOnce.ExactlyOnce | src/runtime/async.c:20-34 | with no busy slot reused: each taken task is called once, with its own function and argument, and its callback gets its own result |
| AsyncOnce.AllRunAtRest | src/runtime/async.c:7-37 | when queue and workers are at rest every task has been run |
| AsyncOnce.CollectsOwn | src/runtime/async.c:115-134 | waiting for a ticket returns the result of that task's own call |
| AsyncStatus.StatusTells | src/runtime/async.c:100-113 | the status of a ticket in every phase of its task |
| AsyncStatus.WaitReturns | src/runtime/async.c:115-134 | waiting for a found ticket returns if and only if its task's run has ended |
| AsyncOnce.NeverNull | src/runtime/async.c:26-27 | no null function is called |
| AsyncOnce.OverrunRunsOther | src/runtime/async.c:83-92 | a slot resubmitted before its worker calls makes the worker run the new task instead |
| AsyncOnce.OverrunCallsNull | src/runtime/async.c:26-27 | resubmitted between the test of the function and the call: the worker calls through null if and only if the new task has no function |
| AsyncOnce.OverrunDropsTask | src/runtime/async.c:26-34 | resubmitted with a null function before the test: the taken task is never run |
| AsyncOnce.OverrunCompletesOther | src/runtime/async.c:26-28 | resubmitted after the call: the worker marks the new task completed, which has not run, with the old result or none |
| AsyncOnce.OverrunNotifiesOther | src/runtime/async.c:29-31 | resubmitted after that: the new task's callback, if any, is called with a null result instead of the own one |
| AsyncOnce.OverrunInEveryPhase | src/runtime/async.c:73-98 | runs that lead to such a state, for every phase of the worker |
| AsyncEngine.SkyAsyncEngine.Submit | src/runtime/async.c:73-98 | slot, indices, count and ticket after a submission; 0 if refused |
| AsyncEngine.SkyAsyncEngine.Take | src/runtime/async.c:12-25 | the worker's locked section is one step of `Async` |
| AsyncEngine.SkyAsyncEngine.Status | src/runtime/async.c:100-113 | the state of the slot found, or failed |
| AsyncEngine.SkyAsyncEngine.WaitOnce | src/runtime/async.c:118-132 | one pass of the waiting loop |
| Base64.RoundTrip | src/runtime/jwt.c:13-96 | decoding an encoding gives every byte string back |
| Base64.ShortRoundTrip | src/runtime/jwt.c:13-96 | through buffers of any two sizes bytes come back cut at the second and at whole groups of three by the first; all of them exactly when both have room |
| Base64.Encode | src/runtime/jwt.c:13-40 | length 4*(n/3) plus 0, 2 or 3 |
| Base64.ThreeDigits | src/runtime/jwt.c:13-27 | three bytes are written as the four digits to the base 64 of the number they are |
| Base64.TailDigits | src/runtime/jwt.c:28-36 | the one or two bytes at the end as the first digits of three |
| Base64.EncodedLetters | src/runtime/jwt.c:33-38 | only letters, digits, `-` and `_` |
| Base64.EncodeInto | src/runtime/jwt.c:13-40 | the two passes write the encoding of as much as fits, terminated |
| Base64.DecodeInto | src/runtime/jwt.c:42-96 | the loops write the decoding, cut off at the size of the buffer |
| JwtRoundTrip.SignThenVerify | src/runtime/jwt.c:172-314 | a signed token gives back subject and both times, whatever the claims, and is accepted exactly until it expires |
| JwtRoundTrip.TruncatedFails | src/runtime/jwt.c:220-221 | a token cut off by a short buffer is never accepted |
| JwtRoundTrip.AcceptedIff | src/runtime/jwt.c:228-314 | for every text: accepted if and only if it is a header and a payload without dots, with the signature of both, and the payload is not expired |
| JwtRoundTrip.SignatureForced | src/runtime/jwt.c:266-268 | no other signature is accepted on an accepted header and payload |
| JwtRoundTrip.ClaimInPayload | src/runtime/jwt.c:188-203 | every claim stands in the payload |
| JwtRoundTrip.HeaderText | src/runtime/jwt.c:176-182 | the header that is signed |
| JwtRoundTrip.SignThenGetSubject | src/runtime/jwt.c:318-353 | the subject of a signed token without the secret |
| JwtRoundTrip.SubjectsAgree | src/runtime/jwt.c:228-353 | on every accepted token both ways of reading the subject agree |
| JwtRoundTrip.SubjectKept | src/runtime/jwt.c:280-292 | the subject comes back whole if and only if it has no quote and at most 255 characters |
| JwtRoundTrip.KeyFound | src/runtime/jwt.c:294-304 | the first `"iat":` and `"exp":` of a payload are in the subject, with the quote in front of it, if they stand there, and their own otherwise |
| JwtRoundTrip.TimesKept | src/runtime/jwt.c:294-304 | for any subject: each time comes back if and only if the subject does not hold its key, or holds the same number behind it |
| JwtContext.SkyJWTContext.SignClaims | src/runtime/jwt.c:172-224 | the token that `Jwt` defines |
| JwtContext.SkyJWTContext.Verify | src/runtime/jwt.c:228-314 | verdict and payload that `Jwt` defines, from a copy cut apart in place |

## Left out

- CompilerCorrect.CompiledProgramIsCorrect: dot and index access, `for` over a collection, classes, imports and servers are outside the fragment; the compiler emits nothing for them or the machine does not implement what it emits.
- CompilerCorrect.CompiledProgramIsCorrect: a user function is only a name bound to nil, because its body is not compiled; there is no call to preserve.
- Values.TruncDivMod: signed 64-bit overflow, which C leaves undefined, ends a run as `Undefined`; float arithmetic and the text of floats are parameters (`Prims`).
- Lexer.SkyLexer.Next: a string cut off right behind a backslash is excluded, where the source reads over the end of the text; line numbers are left out, and so are the 255-character copies of token texts, which the parser does not use.
- Parser.SkyParser.ParsePrimary: a float literal directly followed by letters, as in `1.5e3`, is read up to its token's end; the C library reads on.
- Pipeline.RunFile: all tokens are taken before parsing; the source's parser draws them one by one, with the same result.
- SecurityEngine.SkySecurityEngine.Check: the strings that the detectors look for and the hash of addresses are parameters; counters and settings that nothing reads are left out.
- Base64.DecodeInto: a character behind `z`, for which the source reads over its table, counts as 0.
- JwtContext.SkyJWTContext.SignClaims: a payload that does not fit its 1024 bytes is reported as `Overrun`, where the source goes on with a wrong remaining size; the signature is any function of secret and input.
- AsyncEngine.SkyAsyncEngine.Submit: the identifier is returned from under the lock, not read from the slot after it; joining threads, sleeping and data races below slot accesses are left out.
- Map literals, `break` and `continue`: the compiler emits nothing for them.
- Out-of-memory paths, input and output, the socket server, the in-memory database, random numbers and hashing, the analyzer and the module registry.
