# Models of the sysrust kernel, proved in Dafny

sysrust is a small x86 operating system written in Rust.  This project models six of
its parts and proves what they promise, for all inputs and all runs.  `dafny verify
dfyconfig.toml` checks everything; nothing here is executed.

**The `rc` compiler** (`src/rc/`).  A single pass reads a program and appends x86-32
bytes to a 64 KB buffer, patching jumps, calls and string addresses as their targets
become known.
The model has four layers:
- *Machine*: 32-bit words (`Word`), instructions with encoder and decoder (`X86`), a
  machine that runs them, and the same machine fetching raw bytes (`Machine`).
- *Language*: abstract syntax and a fuel-indexed meaning that also counts the stack a
  run needs (`Source`); the code laid out for each construct (`Codegen`).
- *Meaning is preserved*: running the code of any expression, call or statement does what
  the source means (`Steps`, `Simulation`, `Correctness`).
- *The pass itself*: the byte buffer (`Emit`, `Layout`), the tables of what is still to be
  patched (`Tables`), the fixed table sizes (`Limits`, `Shapes`), one method per construct
  (`Parse`), functions (`Programs`), and the final passes (`Link`).  Ghost state records the
  intended code and which operands are still holes, so that "every placeholder was patched"
  is a statement about maps.
- `Execution.Translate` joins all of it: every acceptable program is compiled, and calling
  the bytes returns main's value with the statics the source meaning gives, faults on a
  division exactly when the source does, and goes on as long as the source does
  (`Rounds`; `Execution.RunsForEver` for programs that do not end).  `Guarantee.Guaranteed`
  says for which programs nothing is left to chance: a check of the text alone rules out
  undefined values (`Progress`), and the stack a run needs is bounded (`StackUse`).
- Beside it: operator parsing (`Precedence`) and its grammar (`Grammar`), the symbol table (`Scopes`, `Bindings`), when
  one table for all names does no harm (`Names`), the scope of new variables (`NewNames`),
  frames (`Frames`), and what happens past the fixed limits (`Losses`).

**FAT16** (`src/fat16.rs`; `Disk`, `Fats`, `Fat16`): a write followed by a read, all other
files untouched, chains, free clusters, and the copies of the table.

**Two allocators** (`Blocks` for what they share, `KernelHeap` for `src/heap.rs`,
`RuntimeHeap` for `sysrust-rt/src/allocator.rs`): blocks tile the heap, grants never
overlap, free neighbours are merged.

**Pages** (`Pmm` for `src/pmm.rs`, `Vmm` for `src/vmm.rs`): four levels of tables in
physical frames behave as one map from page number to entry.

**Threads** (`Threads` for `src/thread.rs`, `Recovery` for `src/recovery.rs`): one running
thread, bounded fairness, and the protected-run protocol under every interleaving.

**Network** (`Ring` and `Tcp` for `src/tcp.rs`, `Checksum` for `src/ipv4.rs`): the receive
ring under interrupts, sequence numbers, the Internet checksum of RFC 1071.

## Findings

Where the code falls short of what it promises, the model keeps the code as it is and a
member gives the exact condition or the inputs that go wrong.

- *Match temporary outside the frame.*  `match` gives its slot back before the frame size is
  computed, so a frame may be one slot short: exactly when `Frames.CoveredExactly` says so.
  `Frames.BadBodyNotCovered` is such a body, and in `Frames.ArmMissed` the matching arm is
  then skipped.
- *Surplus match arms.*  A `match` keeps 32 jumps to its end.  The last arm needs none, so 33
  arms work; from the 33rd on an arm runs into the next one (`Frames.ArmFallsThrough`).
- *Surplus breaks, loops and symbols.*  The 33rd break of a loop, the 17th nested loop and a
  symbol beyond the table's 256 are dropped without an error.  A compilation that reports none
  lost nothing exactly when the program `Programs.Fits` (`Link.CompileProgram`); for loops and
  breaks alone see `Losses.StackExact`.  A lost break does nothing (`Losses.LostBreak`,
  `Losses.BreakIgnored`); a lost loop sends the breaks of the loop around it to its own end
  (`Losses.SixteenthBreaks`); a lost symbol leaves the name to an older variable
  (`Losses.LostSymbol`).
- *Statics.*  Only the first 128 initialisers take effect, so main starts with the declared
  values exactly when there are no more (`Execution.DeclaredEnv`).
- *Long names.*  Names are cut to 31 characters.  Variables are told apart exactly when
  their names differ that far (`Names.FoundWhenApart`, `Names.LongNamesMerge`).  A name that
  is looked up uncut is found exactly when it is short (`Scopes.FoundWhenShort`); expressions
  cut the name first.
- *One table for all names.*  A forward call of a function named like a built-in one calls the
  built-in one (`Names.BuiltinCalled`), and a function hides a static of its name
  (`Names.StaticHidden`).
- *Scope of new variables.*  In `let x = e` and in the limit of `for x in lo..hi` the new x is
  already in scope.  That makes no difference if x does not occur there
  (`NewNames.LetOrdinary`, `NewNames.ForOrdinary`).  If e starts by reading x, the let has no
  meaning (`NewNames.LetWrong`, `NewNames.LetTwice`); `for x in lo..x` never runs its body
  (`NewNames.ForNoRounds`).
- *A write that runs out of clusters* has freed the old contents of its file in the cached
  table and leaves no cluster free there (`Fat16.FailedWrite`, in `Fat16.Volume.WriteFile`).
- *FAT names that start with 0xE5* are written but read as deleted (`Fat16.Volume.WriteFile`).
- *Alignment above 8* may break the runtime heap's list: exactly when the chosen block has no
  room for the padding (`RuntimeHeap.Allocator.Alloc`, `RuntimeHeap.FreshFits`), as in
  `RuntimeHeap.AlignedRequestFails`.
- *Sizes above 2^32 - 8* get too little from `kmalloc` (`KernelHeap.RoundedFits`).
- *Page 0*, when free, is handed out as "no memory" and lost (`Pmm.PageAllocator.AllocPage`).
- *Pages below 4 GB.*  Boot maps the first 4 GB in 2 MB pages (`Vmm.BootIdentity`), and the
  walks do not look at the bit that says so.  There `map_page` maps nothing but overwrites a
  word of the first frame of the 2 MB page, and `get_physical` reads one
  (`Vmm.AddressSpace.MapPage`, `Vmm.AddressSpace.GetPhysical`).
- *Thread ids from 2^31 on* make `run_protected` report failure although its child runs
  (`Recovery.LargeIdsLost`).
- *TCP sends of more than 1460 bytes* are dropped but counted (`Tcp.LargeSendLeavesGap`).
- *Bytes a full ring drops are acknowledged.*  What is acknowledged is stored exactly when
  every segment fits behind what is waiting (`Tcp.AcknowledgedStored`, `Tcp.StreamKept`);
  `Tcp.FullRingDrops` is a byte that is lost.

## Model

| member | source | states |
|---|---|---|
| `Word.FlagsDecide` | src/rc/emit.rs:293-303 | after cmp a, b every condition code holds exactly when the relation it stands for holds between a and b as signed numbers |
| `Word.OrAssociative` | src/rc/parse.rs:867-875 | bitwise or is associative, bit by bit |
| `Word.BitwiseAt` | src/rc/parse.rs:1031-1077 | bit by bit, and is the product, or the maximum and exclusive or the sum modulo 2 |
| `Word.ProductAdds` | src/rc/parse.rs:1186-1192 | multiplication is repeated addition modulo 2^32 |
| `Word.ShiftLeftIs` | src/rc/parse.rs:1138-1139 | a left shift by n multiplies by 2^n modulo 2^32 |
| `Word.ShiftRightIs` | src/rc/parse.rs:1140-1141 | a right shift by n divides by 2^n, as unsigned numbers |
| `Word.DivideIs` | src/rc/parse.rs:1193-1198 | division rounds toward zero, the remainder has the sign of the dividend, and it traps exactly for a divisor 0 or a quotient of more than 32 bits |
| `Source.OperatorMeans` | src/rc/parse.rs:1031-1200 | what each operator computes, as an equation on numbers or bits |
| `Source.DivisionMeans` | src/rc/parse.rs:1193-1198 | the quotient and remainder of a source division are those of the signed numbers, and when it traps |
| `Source.UnaryMeans` | src/rc/parse.rs:1205-1223 | minus is the additive inverse and ! flips every bit |
| `X86.DwordRoundTrip` | src/rc/emit.rs:70-75 | the four little-endian bytes of a word read back as the word |
| `X86.StackOperandRoundTrip` | src/rc/parse.rs:402-427 | the SIB form of an ESP operand decodes to that operand |
| `X86.IndirectRoundTrip` | src/rc/emit.rs:166-222 | indirect operands decode to the register used, with the disp8 form for EBP and the SIB form for ESP |
| `X86.DecodeEncode` | src/rc/emit.rs:110-390 | decoding any bytes that start with an encoded instruction gives that instruction |
| `X86.EncodingRoundTrip` | src/rc/emit.rs:58-390 | disassembling the bytes of any instruction sequence gives the sequence |
| `Machine.FetchAgrees` | src/rc/emit.rs:58-75 | where code is encoded, fetching bytes and stepping instructions agree |
| `Machine.BytesRefine` | src/rc/emit.rs:58-390 | every run of the instructions is a run of the bytes |
| `Steps.ReverseRun` | src/rc/parse.rs:402-427 | the swap sequence reverses the pushed words in place, for every argument count, and touches nothing else |
| `Steps.Division` | src/rc/emit.rs:244-248 | cdq and idiv give the truncated quotient and remainder, or fault exactly on zero and on overflow |
| `Steps.Operate` | src/rc/parse.rs:989-1200 | taking both operands and applying an operator leaves in EAX the value that OperatorMeans and DivisionMeans give, and ESP where it was |
| `Steps.Epilogue` | src/rc/emit.rs:365-370 | the epilogue restores the caller's ESP and EBP and returns |
| `Correctness.ExprCorrect` | src/rc/parse.rs:989-1472 | the code of every expression leaves its value in EAX with the source's effects, restores ESP and EBP, keeps all memory from ESP up but the variables, and faults exactly when the source does |
| `Correctness.BinaryCorrect` | src/rc/parse.rs:1031-1200 | a binary operator evaluates left to right and applies to both values |
| `Correctness.AndCorrect` | src/rc/parse.rs:1013-1028 | the right side of && runs exactly when the left is nonzero |
| `Correctness.OrCorrect` | src/rc/parse.rs:989-1010 | the right side of a short-circuit or runs exactly when the left is zero |
| `Correctness.OpAssignCorrect` | src/rc/parse.rs:526-829 | compound assignment reads, computes and stores as the source means |
| `Correctness.ArgsCorrect` | src/rc/parse.rs:430-450 | arguments are evaluated left to right and pushed, the last one at ESP |
| `Correctness.EnterCallee` | src/rc/parse.rs:402-463 | when the callee starts, its k-th argument is the k-th word above the return address |
| `Correctness.CallCorrect` | src/rc/parse.rs:430-472 | a call yields what the function means and leaves the caller's stack and locals as they were |
| `Correctness.InvokeCorrect` | src/rc/parse.rs:1957-2060 | a function entered at its label runs its body in its own frame and returns its value to the address on the stack |
| `Correctness.Leave` | src/rc/parse.rs:2051-2053 | falling off the end returns 0, and both ways out restore the caller's state |
| `Correctness.ListCorrect` | src/rc/parse.rs:1935-1946 | the code of a statement list does what the list means, with ESP balanced at its end, at break and at continue |
| `Correctness.StmtCorrect` | src/rc/parse.rs:1799-1910 | the same for every single statement |
| `Correctness.LetCorrect` | src/rc/parse.rs:1698-1795 | a let stores into a slot of its own |
| `NewNames.EvalWith` | src/rc/parse.rs:1698-1795 | evaluation does not notice a variable that does not occur in the expression: value, effects, fault and stack stay |
| `NewNames.LetOrdinary` | src/rc/parse.rs:1770-1795 | if x does not occur in e, let x = e is what ordinary scoping has it be |
| `NewNames.LetWrong` | src/rc/parse.rs:1770-1795 | if e starts by reading x, let x = e has no meaning, whatever an outer x holds |
| `NewNames.LetTwice` | src/rc/parse.rs:1770-1795 | let x = 1; let x = x + 1 has no meaning, where ordinary scoping gives 2 |
| `NewNames.ForOrdinary` | src/rc/parse.rs:1626-1660 | if x does not occur in hi, for x in lo..hi is what ordinary scoping has it be |
| `NewNames.ForNoRounds` | src/rc/parse.rs:1626-1660 | for x in lo..x never runs its body |
| `Correctness.IfCorrect` | src/rc/parse.rs:1913-1932 | exactly the chosen branch runs |
| `Correctness.WhileCorrect` | src/rc/parse.rs:1827-1840 | a while loop runs as long as the source's does, with break and continue |
| `Correctness.LoopCorrect` | src/rc/parse.rs:1615-1622 | a loop runs until break or return |
| `Correctness.ForCorrect` | src/rc/parse.rs:1626-1694 | a for loop evaluates its limit once, counts with wrap-around, and continue goes to the increment |
| `Correctness.ForLoop` | src/rc/parse.rs:1662-1693 | from the head of a for loop on, all remaining rounds agree with the source |
| `Correctness.MatchCorrect` | src/rc/parse.rs:1530-1611 | the first matching arm runs and no other |
| `Correctness.ArmsCorrect` | src/rc/parse.rs:1548-1607 | the same from any arm on |
| `Correctness.ReturnCorrect` | src/rc/parse.rs:1810-1818 | return leaves the function with the value of its expression |
| `Emit.CodeBuffer.Byte` | src/rc/emit.rs:58-67 | a byte is appended, or the overflow is noted |
| `Emit.CodeBuffer.Emit` | src/rc/emit.rs:110-390 | an emitted instruction is laid out at the old position and nothing else changes |
| `Emit.CodeBuffer.EmitHole` | src/rc/emit.rs:330-344 | a placeholder is recorded as the operand of the intended instruction |
| `Emit.CodeBuffer.PatchDword` | src/rc/emit.rs:98-107 | patching a pending operand with its value completes exactly that instruction and changes no other byte |
| `Emit.LaidPatch` | src/rc/emit.rs:98-107 | after a patch all other instructions are still encoded in the bytes |
| `Emit.PatchFills` | src/rc/emit.rs:98-107 | an instruction and its placeholder differ only in the last four bytes |
| `Layout.ExprGrown` | src/rc/parse.rs:526-1472 | code laid out for an expression stays laid out as more is emitted |
| `Layout.StmtGrown` | src/rc/parse.rs:1530-1946 | the same for statements |
| `Tables.RelToReaches` | src/rc/parse.rs:215-227 | the displacement computed for a jump reaches its target |
| `Tables.BreakMade` | src/rc/parse.rs:229-239 | a break joins the list of the innermost loop and leaves the other tables alone |
| `Tables.LoopClosed` | src/rc/parse.rs:215-227 | after its breaks are patched the innermost loop can be closed, the outer ones still listed exactly |
| `Tables.LoopDone` | src/rc/parse.rs:1827-1840 | seen from outside, a whole loop leaves no hole behind |
| `Parse.Compiler.Put` | src/rc/emit.rs:110-390 | emission keeps the tables true of what is pending |
| `Parse.Compiler.PutHole` | src/rc/emit.rs:330-344 | a placeholder becomes a hole of the emitting construct |
| `Parse.Compiler.Land` | src/rc/parse.rs:1013-1028 | a forward jump is patched to land at the current position |
| `Parse.Compiler.LoopPush` | src/rc/parse.rs:207-213 | a loop is opened below depth 16, and at depth 16 the stack of loops stays as it is |
| `Parse.Compiler.LoopPop` | src/rc/parse.rs:215-227 | the innermost loop is popped and its listed breaks, no others, are patched to here |
| `Parse.Compiler.PutBreak` | src/rc/parse.rs:229-239 | the bytes E9 00 00 00 00 are emitted; the break is listed with the innermost loop if that has fewer than 32, and otherwise nothing is noted |
| `Parse.Compiler.AddSym` | src/rc/sym.rs:210-235 | a symbol is appended if the table, which also holds functions and built-in ones, has room, and otherwise dropped |
| `Losses.ListedExactly` | src/rc/parse.rs:207-239 | a break is listed exactly when fewer than 32 are, a loop opened exactly when fewer than 16 are |
| `Losses.LostBreak` | src/rc/parse.rs:229-239 | the bytes of a break that was never patched do nothing but go on to the next instruction |
| `Losses.BreakIgnored` | src/rc/parse.rs:229-239 | such a break runs into the statements after it and does not leave the loop |
| `Losses.PatchedEach` | src/rc/parse.rs:215-227 | closing a loop writes the operand of every listed break, and changes no other byte |
| `Losses.BreakLands` | src/rc/parse.rs:215-227 | every listed break then is a jump to where the loop was closed |
| `Losses.SeventeenthLoop` | src/rc/parse.rs:207-227 | a 17th nested loop is not opened, its breaks join the list of the 16th, and closing it pops the 16th |
| `Losses.SixteenthBreaks` | src/rc/parse.rs:207-227 | so the breaks of the 16th loop land where the 17th ends, and later ones join the list of the 15th |
| `Losses.StackExact` | src/rc/parse.rs:207-239 | over every run of loops and breaks the stack is the one without limits exactly when no loop is opened below 16 others and none has more than 32 breaks |
| `Losses.LostSymbol` | src/rc/sym.rs:210-247 | after a let whose symbol was dropped its name reads the older variable |
| `Parse.Compiler.CompileExpr` | src/rc/parse.rs:526-1472 | the code laid out is the code of the expression, and every hole it opened is filled or in a table |
| `Parse.Compiler.CompileBinary` | src/rc/parse.rs:1031-1200 | left, push, right, operator |
| `Parse.Compiler.CompileAnd` | src/rc/parse.rs:1013-1028 | the test jumps past the normalisation of the right side |
| `Parse.Compiler.CompileOr` | src/rc/parse.rs:989-1010 | the test jumps to the 1, the other way jumps past it |
| `Parse.Compiler.CompileString` | src/rc/parse.rs:171-182 | a literal is a pending load of its address |
| `Parse.Compiler.CompileCall` | src/rc/parse.rs:430-472 | arguments, reversal, call and clean-up |
| `Parse.Compiler.CompileReverse` | src/rc/parse.rs:402-427 | one swap for every pair of arguments |
| `Parse.Compiler.ForwardCall` | src/rc/parse.rs:114-127 | a call of an unknown function is a pending call of its label |
| `Parse.Compiler.CompileStmt` | src/rc/parse.rs:1799-1910 | code, symbols, frame offset and break list after any statement are what the layout says, and a fault of a table is reported unless the statement exceeds a limit |
| `Parse.Compiler.CompileList` | src/rc/parse.rs:1935-1946 | the same for a list of statements |
| `Parse.Compiler.CompileBlock` | src/rc/parse.rs:1935-1946 | the symbols of a block are gone after it |
| `Parse.Compiler.CompileLet` | src/rc/parse.rs:1698-1795 | a let takes the next slot and stores its value there |
| `Parse.Compiler.CompileIf` | src/rc/parse.rs:1913-1932 | both forms of if, with their jumps landed |
| `Parse.Compiler.WhileTail` | src/rc/parse.rs:1827-1840 | test, body, jump back; the test and all breaks exit behind it |
| `Parse.Compiler.CompileLoop` | src/rc/parse.rs:1615-1622 | body and jump back; all breaks exit behind it |
| `Parse.Compiler.CompileFor` | src/rc/parse.rs:1626-1694 | iterator, limit, test, update, body in the order of the source |
| `Parse.Compiler.ForTail` | src/rc/parse.rs:1662-1693 | continue goes to the update, the exit jump and all breaks behind the loop |
| `Parse.Compiler.CompileMatch` | src/rc/parse.rs:1530-1611 | temporary, arms, and the offset restored |
| `Parse.Compiler.CompileArms` | src/rc/parse.rs:1548-1602 | each failing test lands at the next arm; the first 32 arms jump to the end |
| `Parse.Compiler.LandAll` | src/rc/parse.rs:1604-1607 | all jumps to the end of a match land there |
| `Parse.Compiler.CompileReturn` | src/rc/parse.rs:1810-1818 | value and epilogue |
| `Programs.PutFunction` | src/rc/parse.rs:2037-2057 | prologue, body and epilogue, with the frame size patched in last |
| `Programs.CompileFunction` | src/rc/parse.rs:1957-2060 | the function is laid out at the position its name is bound to, parameters from [ebp+8] on |
| `Programs.CompileDefs` | src/rc/parse.rs:2298-2344 | all functions are laid out one after the other, each at its label |
| `Programs.LabelAt` | src/rc/parse.rs:1968-1973 | with distinct names, each name is bound to the start of its function |
| `Link.ResolveFixups` | src/rc/parse.rs:2351-2362 | every forward call is patched to its function, or an undefined one is reported |
| `Link.PlaceStrings` | src/rc/parse.rs:2364-2372 | every literal is appended with its NUL and every load of it patched to base plus offset |
| `Link.TextFound` | src/rc/parse.rs:2364-2372 | each literal's bytes and NUL are where its address says |
| `Link.DeclareStatics` | src/rc/parse.rs:2063-2121 | statics get consecutive words behind the code buffer, and the initialisers recorded are those of the first 128 that have one |
| `Link.AllRecorded` | src/rc/parse.rs:2107-2111 | every initialiser is recorded exactly when there are at most 128 |
| `Link.PutStart` | src/rc/parse.rs:2374-2404 | the entry jump reaches the initialisers, which are followed by the call of main |
| `Link.CompileProgram` | src/rc/parse.rs:2276-2407 | when compilation succeeds, no operand is left unpatched and the bytes encode every function, literal and the entry code, unless a table silently overflowed; none does exactly when the program Fits; and every acceptable program is accepted |
| `Execution.ImageGood` | src/rc/parse.rs:2276-2407 | a compiled program meets all conditions of the meaning theorem |
| `Execution.InitsHold` | src/rc/parse.rs:2378-2382 | after the initialisers every recorded static holds its value; by DeclaredEnv that is every one exactly if there are at most 128 |
| `Execution.DeclaredEnv` | src/rc/parse.rs:2107-2111 | main starts with the declared values of all statics exactly when at most 128 have one |
| `Execution.Translate` | src/rc/parse.rs:2276-2407 | every acceptable program is compiled; and if compilation succeeds within the limits, the bytes mean the program wherever they are called with enough stack: they return what it returns, fault as it does, and run as many rounds as it runs; they start from the declared statics exactly when at most 128 are initialised |
| `Progress.InvokeMeant` | src/rc/parse.rs:1957-2060 | a function called with the right number of arguments has a meaning, if it and what it may call read only variables with a value, break only out of loops and return values |
| `StackUse.InvokeUses` | src/rc/parse.rs:1957-2060 | a run within n calls and loop iterations needs at most n + 1 times the return address, saved EBP, frame and pushes of the costliest function |
| `Guarantee.Guaranteed` | src/rc/parse.rs:2276-2407 | a program that passes that check has a meaning for every bound on its calls and iterations, and on a stack with room for them its bytes do what it means |
| `Guarantee.Smallest` | src/rc/parse.rs:2276-2407 | for every word, main returning it is such a program, and is acceptable |
| `Execution.ProgramCorrect` | src/rc/parse.rs:2276-2407 | called at its entry, the byte image returns main's value, restores ESP and EBP, leaves the statics as the source does, and faults exactly when the source does |
| `Execution.RunsForEver` | src/rc/parse.rs:2276-2407 | the bytes of a program that does not end and needs bounded stack run for ever |
| `Rounds.InvokeSpends` | src/rc/parse.rs:1957-2060 | a source run that is out of fuel has made as many calls and loop iterations as it had fuel |
| `Precedence.ParseLevel` | src/rc/parse.rs:989-1200 | a level of the chain reads what its specification reads, which is the tree of the grammar (Grammar.ReadsDerived) |
| `Precedence.ParseBinops` | src/rc/parse.rs:832-984 | the flat loop reads what its specification reads, to the end |
| `Precedence.ChainStops` | src/rc/parse.rs:989-1200 | a level stops only before an operator that binds less tightly |
| `Precedence.ChainStep` | src/rc/parse.rs:989-1200 | reading one operator at its own level and going on is reading from any lower level |
| `Precedence.Associates` | src/rc/parse.rs:838-876 | or, and, and bitwise or evaluate the same nested either way, effects and faults included |
| `Precedence.LoopAssociates` | src/rc/parse.rs:838-876 | combining before or after reading the rest of a level gives equal trees |
| `Precedence.FlatAgrees` | src/rc/parse.rs:832-1200 | for every operand and operator string, flat loop and chain read all of it, to trees with the same value and effects |
| `Grammar.ReadsDerived` | src/rc/parse.rs:989-1200 | every tree that the grammar of the ten functions derives, with the operators each of them tests for, is read back from its written form |
| `Grammar.ReadByGrammar` | src/rc/parse.rs:832-1200 | every operand and operator string is written by a tree of that grammar; the chain reads its code and the flat loop an equal one |
| `Grammar.TwoOperators` | src/rc/parse.rs:989-1200 | of two operators the one of the inner function takes the operand between them, and of two of the same function the first |
| `Scopes.SearchIsScoping` | src/rc/sym.rs:238-247 | searching the flat table backwards is lexical scoping on a stack of maps |
| `Scopes.SymbolTable.Add` | src/rc/sym.rs:210-235 | a name is declared in the innermost scope under its first 31 characters, unless the table is full |
| `Scopes.SymbolTable.Lookup` | src/rc/sym.rs:238-247 | lookup is resolution in the stack of scopes |
| `Scopes.SymbolTable.EnterScope` | src/rc/sym.rs:250-252 | a scope is pushed |
| `Scopes.SymbolTable.LeaveScope` | src/rc/sym.rs:255-264 | the innermost scope is popped; the outermost one is only emptied |
| `Scopes.ScopeUndone` | src/rc/sym.rs:250-264 | whatever balanced run happens inside a scope, leaving it restores the stack |
| `Scopes.FoundWhenShort` | src/rc/sym.rs:210-247 | a new name is found again under its full spelling exactly when it has at most 31 characters |
| `Names.VariableFound` | src/rc/parse.rs:599-602 | a variable in scope whose name stands alone when cut is found in the one table of all names, with its own place |
| `Names.CallFound` | src/rc/parse.rs:449-463 | a call of a function whose name stands alone never finds a built-in function, and finds its function exactly when that is known and not hidden by a local |
| `Names.PlainStart` | src/rc/sym.rs:210-247 | when a function of a plain program is entered, all names in the table are apart also when cut to 31 characters |
| `Names.PlainLocals` | src/rc/parse.rs:1698-1795 | each statement adds only names it declares, which keeps them apart |
| `Names.PlainAlone` | src/rc/sym.rs:238-247 | there every name stands alone when cut |
| `Names.FoundWhenApart` | src/rc/sym.rs:210-247 | variables in different places are all found in the one table exactly when their names differ in the first 31 characters |
| `Names.LongNamesMerge` | src/rc/sym.rs:225-226 | of two locals the name of the first finds the second exactly when they agree in 31 characters |
| `Names.BuiltinCalled` | src/rc/parse.rs:450-451 | a forward call of a function named like a built-in one finds the built-in one |
| `Names.StaticHidden` | src/rc/sym.rs:238-247 | a static is hidden by a function of its name |
| `Frames.ListSlotsFall` | src/rc/parse.rs:1644-1791 | without match, all slots of a body are disjoint and above the final offset |
| `Frames.PlainIsCovered` | src/rc/parse.rs:2055-2057 | without match, all slots lie inside the patched frame |
| `Frames.CoveredExactly` | src/rc/parse.rs:1530-1611 | the frame covers all slots exactly when it reaches the deepest offset |
| `Frames.BadBodyNotCovered` | src/rc/parse.rs:1610-1610 | four locals and a match: 16 bytes reserved, 20 used |
| `Frames.ArmMissed` | src/rc/parse.rs:1573-1578 | there, evaluating the pattern overwrites the temporary and the matching arm is skipped |
| `Frames.ArmFallsThrough` | src/rc/parse.rs:1590-1594 | a 33rd arm that is not the last runs into the next arm |
| `Disk.ClustersApart` | src/fat16.rs:145-176 | different clusters occupy different sectors |
| `Disk.Regions` | src/fat16.rs:390-396 | the tables follow the reserved sectors, the root directory the last table, the clusters the first whole sector after it, each after the one before |
| `Fats.ChainAppended` | src/fat16.rs:557-571 | appending a free cluster extends a chain |
| `Fats.OtherKept` | src/fat16.rs:557-571 | appending a free cluster leaves every other chain alone |
| `Fats.UnrawRaw` | src/fat16.rs:200-213 | the raw bytes of a table read back as the table |
| `Fat16.Volume.constructor` | src/fat16.rs:400-424 | mounting caches the first copy of the table |
| `Fat16.Volume.ReadCluster` | src/fat16.rs:145-158 | a cluster is read sector by sector, from where Disk.Regions puts it |
| `Fat16.Volume.WriteCluster` | src/fat16.rs:161-174 | a write changes the bytes of that cluster, where Disk.Regions puts it, and no others |
| `Fat16.Volume.WriteRootEntry` | src/fat16.rs:241-270 | read, modify and write changes that entry and no other byte |
| `Fat16.Volume.FindRootEntry` | src/fat16.rs:276-307 | the first shown entry of the name before the end of the directory |
| `Fat16.FindIs` | src/fat16.rs:276-307 | the search finds the first entry of the name that is neither deleted (0xE5) nor a volume label (0x08), before the first entry never used |
| `Fat16.EntryBytes` | src/fat16.rs:541-593 | the 32 bytes of a new file: name, attribute 0x20, zeros, and little-endian first cluster and size |
| `Fat16.Volume.FatAlloc` | src/fat16.rs:188-196 | the lowest free cluster is taken, 0 exactly when none is free |
| `Fat16.Volume.FreeChain` | src/fat16.rs:525-534 | exactly the clusters of the chain become free |
| `Fat16.Volume.FatFlush` | src/fat16.rs:200-213 | every copy of the table on disk equals the cache, and nothing else changes |
| `Fat16.Volume.Collect` | src/fat16.rs:488-510 | following a chain yields its clusters in order, cut to what is wanted |
| `Fat16.Volume.ReadFile` | src/fat16.rs:462-512 | reading gives the first max bytes of the file |
| `Fat16.Volume.StoreData` | src/fat16.rs:547-590 | data goes into new clusters; all existing chains keep their links and bytes, FAT and directory sectors are untouched, free clusters shrink by the chain |
| `Fat16.Volume.WriteFile` | src/fat16.rs:515-606 | a write succeeds exactly when there is an entry for it, memory and enough clusters; then the file reads as written, every other name as before, chains are acyclic, disjoint, ended and of the right length, the free count moves by old minus new length, all FAT copies equal the cache; a failed write leaves what FailedWrite says: nothing changed, or the chain freed in the cache, or no free cluster left in the cache and all other files intact |
| `Fat16.Persistent` | src/fat16.rs:400-424 | a table read back after a flush is the cached one |
| `Fat16.FormattedConsistent` | src/fat16.rs:400-424 | a volume whose directory has never been used is consistent and holds no file |
| `Fats.ChainEnds` | src/fat16.rs:488-510 | a cluster ends a chain exactly when its entry is 0xFFF8 or more |
| `Fat16.Remount` | src/fat16.rs:400-424 | a volume mounted from the disk of a successful write is valid and holds the same files |
| `Fat16.FindOther` | src/fat16.rs:276-307 | replacing one entry leaves every other name where it was |
| `Blocks.InOrder` | src/heap.rs:38-50 | blocks that tile a range do not overlap |
| `Blocks.LiveApart` | src/heap.rs:38-50 | grants in different blocks never overlap |
| `Blocks.TotalIsRange` | src/heap.rs:62-104 | headers and sizes of a tiling add up to its range |
| `Blocks.SplitTiles` | src/heap.rs:132-151 | splitting a block keeps the tiling |
| `Blocks.MergeTiles` | src/heap.rs:110-128 | merging two blocks keeps the tiling |
| `KernelHeap.Heap.Expand` | src/heap.rs:62-104 | growth appends one free block for the pages it got, or changes nothing |
| `KernelHeap.Heap.TryAlloc` | src/heap.rs:132-151 | a fitting block is handed out, apart from all live grants, 8-aligned; 32 bytes or more beyond the request are split off |
| `KernelHeap.Heap.FirstFit` | src/heap.rs:171-180 | the first free block that is big enough is taken, or there is none |
| `KernelHeap.Heap.Kmalloc` | src/heap.rs:161-206 | a grant is aligned, of the rounded size and apart from all live ones; it fails only if the pages for the size and a header, at least 16, would pass 16384 pages or are not to be had |
| `KernelHeap.Heap.Coalesce` | src/heap.rs:110-128 | after a pass no two neighbours are free, and no grant is touched |
| `KernelHeap.Heap.Kfree` | src/heap.rs:209-225 | freeing removes exactly that grant and leaves no free neighbours; a second free does nothing |
| `KernelHeap.Heap.NoOverlap` | src/heap.rs:161-206 | in every state no two live grants overlap |
| `KernelHeap.Heap.Conserved` | src/heap.rs:62-104 | headers and sizes always sum to the pages of the heap |
| `KernelHeap.RoundedFits` | src/heap.rs:169-169 | rounding is big enough exactly up to 2^32 - 8 |
| `RuntimeHeap.SmallAlignFits` | sysrust-rt/src/allocator.rs:154-191 | for alignments up to 8 the chosen block always has room for the padding |
| `RuntimeHeap.FreshFits` | sysrust-rt/src/allocator.rs:179-194 | a fresh block fits exactly when page rounding leaves room for the padding |
| `RuntimeHeap.AlignedRequestFails` | sysrust-rt/src/allocator.rs:179-194 | with the initial 64 KB in use, wherever they are, 4072 bytes at alignment 16 do not fit the fresh block |
| `RuntimeHeap.GrowKeeps` | sysrust-rt/src/allocator.rs:67-101 | growing keeps the invariant, merging with a free tail |
| `RuntimeHeap.TakeKeeps` | sysrust-rt/src/allocator.rs:127-137 | cutting and taking a block that fits keeps the invariant and adds one grant |
| `RuntimeHeap.TakeBreaks` | sysrust-rt/src/allocator.rs:127-137 | taking a last block that is too small breaks the tiling |
| `RuntimeHeap.ReleaseKeeps` | sysrust-rt/src/allocator.rs:216-243 | one merge on each side restores the invariant |
| `RuntimeHeap.OwnerFound` | sysrust-rt/src/allocator.rs:216-223 | a live pointer is found in the block it came from |
| `RuntimeHeap.Allocator.Allocate` | sysrust-rt/src/allocator.rs:154-200 | the list stays a tiling exactly when the chosen block fits; then the grant is aligned and apart from all live ones |
| `RuntimeHeap.Allocator.Alloc` | sysrust-rt/src/allocator.rs:154-200 | in every state, the first call included, the list stays sound exactly when the chosen block fits, which it does for alignments up to 8; then the grant is aligned, big enough and apart from all live ones |
| `RuntimeHeap.Allocator.NoOverlap` | sysrust-rt/src/allocator.rs:154-200 | in every state no two live grants overlap |
| `RuntimeHeap.Allocator.HeapGrow` | sysrust-rt/src/allocator.rs:67-101 | the heap grows by whole pages at its end |
| `RuntimeHeap.Allocator.FindFree` | sysrust-rt/src/allocator.rs:107-123 | first fit, padding included |
| `RuntimeHeap.Allocator.Dealloc` | sysrust-rt/src/allocator.rs:202-249 | exactly the owning block is freed and merged; any other pointer changes nothing |
| `Pmm.PageAllocator.AllocPage` | src/pmm.rs:155-170 | the lowest clear page is marked and returned, 0 only if none is left or page 0 was clear |
| `Pmm.PageAllocator.FreePage` | src/pmm.rs:172-187 | a used page is cleared and counted; anything else changes nothing |
| `Pmm.PageAllocator.MarkRegionFree` | src/pmm.rs:45-64 | exactly the whole pages of a region become free, and the count stays the number of clear bits |
| `Pmm.PageAllocator.MarkRegionUsed` | src/pmm.rs:66-86 | exactly the pages a region touches become used, and the count stays the number of clear bits |
| `Vmm.SameIndices` | src/vmm.rs:51-74 | two addresses share all four indices exactly when they are in the same page |
| `Vmm.EntryMeans` | src/vmm.rs:142-143 | an entry is the 52-bit address of the page with the twelve flag bits, and translates to that page exactly if the present bit is set |
| `Vmm.LargeFrames` | boot/boot.s:51-100 | the addresses of 2 MB and 1 GB pages are those of 4 KB pages, rounded down |
| `Vmm.ExtendedSame` | src/vmm.rs:81-101 | adding an empty table changes no translation |
| `Vmm.EntryWritten` | src/vmm.rs:143-143 | writing a last-level entry changes that translation only |
| `Vmm.DataWritten` | src/vmm.rs:143-143 | a write to a frame that is no table changes no translation |
| `Vmm.BootIdentity` | boot/boot.s:51-100 | in the tables built at boot every address below 4 GB is translated to itself, by a 2 MB page |
| `Vmm.EmptyRoot` | src/vmm.rs:81-101 | a root table of zeros translates nothing, and pages may be mapped anywhere |
| `Vmm.AddressSpace.WalkOrAlloc` | src/vmm.rs:81-101 | the next table is found, or a fresh unaliased one added; no translation changes; a 2 MB entry is taken for a table |
| `Vmm.AddressSpace.MapPage` | src/vmm.rs:130-146 | an ordinary page is translated to the page of phys, with the given flags, if they have the present bit, and no other address changes, or none if memory runs out; inside a 2 MB page one word of that page is written and no address changes |
| `Vmm.AddressSpace.UnmapPage` | src/vmm.rs:163-178 | an ordinary page is no longer translated and no other address changes; inside a 2 MB page one word of that page is cleared |
| `Vmm.AddressSpace.GetPhysical` | src/vmm.rs:182-200 | for an ordinary page the address the processor finds, or 0; inside a 2 MB page what a word of that page says |
| `Threads.ScheduleSafe` | src/thread.rs:162-195 | after a schedule exactly one thread runs, the current one |
| `Threads.StepSafe` | src/thread.rs:91-248 | the same after every create, yield and exit |
| `Threads.ScheduleCloser` | src/thread.rs:172-180 | a schedule picks a ready thread or comes strictly closer to it |
| `Threads.ChosenWithin31` | src/thread.rs:162-195 | a ready thread runs within 31 schedules, whatever threads come and go |
| `Threads.Scheduler.Schedule` | src/thread.rs:162-195 | round robin from the slot after the current one |
| `Threads.Scheduler.Create` | src/thread.rs:91-154 | the first dead slot becomes a ready thread with the next id |
| `Threads.Scheduler.YieldThread` | src/thread.rs:203-220 | a yield is one schedule |
| `Threads.Scheduler.ExitThread` | src/thread.rs:226-248 | the thread is dead and another one runs |
| `Threads.Scheduler.IsAlive` | src/thread.rs:256-265 | alive means some thread that is not dead has the id |
| `Recovery.WhoMoves` | src/recovery.rs:26-77 | the parent has a step exactly when it has the processor and has not returned, and so has a child that is there |
| `Recovery.NextKeeps` | src/recovery.rs:26-77 | every step of parent, child or others keeps the protocol invariant |
| `Recovery.ReturnsOutcome` | src/recovery.rs:49-77 | in every interleaving run_protected returns the published result, or -99 if there is none, and none is published later |
| `Recovery.LargeIdsLost` | src/recovery.rs:55-58 | it gives up on a running child exactly from id 2^31 on |
| `Recovery.CreatedKept` | src/thread.rs:146-154 | a new thread is never mistaken for the child |
| `Recovery.WaitStep` | src/recovery.rs:61-73 | once the child is finished, each step of the parent brings its return closer and no other step takes it away |
| `Recovery.Chosen` | src/thread.rs:162-195 | in every run of the protocol 31 schedules bring the processor to the parent, by the fairness of the scheduler |
| `Recovery.WaitEnds` | src/recovery.rs:61-77 | in every run in which the parent uses its time slices, it has returned the outcome 132 schedules after the child is finished |
| `Checksum.Compute` | src/ipv4.rs:34-53 | the loop computes the checksum of the words without 32-bit overflow |
| `Checksum.FoldIs` | src/ipv4.rs:49-51 | folding twice is the ones-complement sum, zero only for zero |
| `Checksum.VerifiesWhen` | src/ipv4.rs:77-80 | a buffer verifies exactly when its words sum to a nonzero multiple of 65535 |
| `Checksum.StoredVerifies` | src/ipv4.rs:150-158 | storing the checksum in its even field makes the buffer verify |
| `Checksum.ByteOrder` | src/ipv4.rs:34-53 | little-endian loads give the byte-swapped big-endian checksum |
| `Checksum.EndsSwap` | src/tcp.rs:108-125 | the pseudo-header sum does not depend on which end is the source |
| `Checksum.PseudoSum` | src/tcp.rs:115-120 | the pseudo-header adds both addresses, the protocol number 6 and the length |
| `Checksum.SegmentVerifiesWhen` | src/tcp.rs:108-125 | a segment of up to 1480 bytes verifies exactly when addresses, protocol, length and segment sum to a nonzero multiple of 65535 |
| `Checksum.SegmentAccepted` | src/tcp.rs:127-159 | a segment built by one end verifies at the other |
| `Ring.ProduceKeeps` | src/tcp.rs:445-453 | a received byte overwrites no unread one |
| `Ring.ConsumeKeeps` | src/tcp.rs:285-316 | every access of recv keeps the bytes in order, even if bytes arrived since the last one |
| `Ring.DroppedWhenFull` | src/tcp.rs:446-450 | a byte is dropped exactly when 4095 are waiting |
| `Ring.PrefixKept` | src/tcp.rs:445-453 | of a payload exactly the first bytes that fit are kept, in order |
| `Ring.AllKept` | src/tcp.rs:445-453 | all of a payload is kept exactly when fewer than 4096 bytes are then waiting |
| `Ring.StreamOrder` | src/tcp.rs:264-318 | in every interleaving what recv returned is a prefix of what was accepted |
| `Tcp.SentAccounted` | src/tcp.rs:245-260 | a send that fits continues the sequence |
| `Tcp.ReceivedAccounted` | src/tcp.rs:362-490 | no arriving segment disturbs the sequence |
| `Tcp.StreamContiguous` | src/tcp.rs:127-360 | with sends of at most 1460 bytes the data segments occupy contiguous ranges from ISS+1 modulo 2^32 |
| `Tcp.LargeSendLeavesGap` | src/tcp.rs:245-260 | a larger send is not transmitted but counted, so the next data leaves a gap |
| `Tcp.DataAnswered` | src/tcp.rs:441-470 | an established connection acknowledges the end of the data, and then the FIN after it |
| `Tcp.ReceivedAnswers` | src/tcp.rs:362-490 | an arriving segment is answered with bare acknowledgements, the last one up to date |
| `Tcp.WireCarries` | src/tcp.rs:127-490 | in every run from connect the data on the wire are what was handed to send in pieces of at most 1460 bytes, in order, after one SYN, and the last segment acknowledges all that has arrived |
| `Tcp.NothingAfterFin` | src/tcp.rs:320-356 | in every run no data and no second FIN are sent after a FIN |
| `Tcp.AcknowledgedStored` | src/tcp.rs:441-456 | the acknowledgement covers the whole payload; every byte it covers is stored exactly when the payload fits behind what is waiting, and precisely the bytes beyond are lost |
| `Tcp.FullRingDrops` | src/tcp.rs:446-456 | from a fresh connection, the byte after 4095 unread ones is acknowledged and lost |
| `Tcp.StreamKept` | src/tcp.rs:264-456 | in every run of arrivals and reads all payload is acknowledged, and the stream is that payload exactly when every segment fitted on arrival |
| `Tcp.Connection.Rx` | src/tcp.rs:420-490 | an arriving segment changes the connection as the state machine says; the ring keeps its payload as far as there is room, all of it exactly when it fits behind what is waiting |
| `Tcp.Connection.Store` | src/tcp.rs:445-453 | the longest prefix of the payload for which there is room goes into the ring |
| `Tcp.Connection.Send` | src/tcp.rs:245-260 | sending works exactly on an established connection, and logs one segment with the data and the current acknowledgement if they fit |
| `Tcp.Connection.StartClose` | src/tcp.rs:321-336 | a connection that is open or opening sends one FIN and counts it, any other is left alone |


## Left out

Parts of the repository that are not modelled:
- Drivers, shell, user mode, ELF loading, the network stack below IPv4, UDP, DNS, the
  editor and the games: device access or thin wrappers around the parts above.
- The scanner (`src/rc/lex.rs`).  The compiler model starts from abstract syntax; the
  operator model starts from strings of operands and operators.

In the compiler:
- Arrays, structs, pointers, address-of, casts, constants, enums, type aliases and
  calls of kernel builtins by absolute address.  Only 32-bit scalars are covered, so every
  memory access is an aligned word.
- Function names used as values, and calls of built-in functions: the code loads or calls
  their addresses, the model reports an undefined name.
- A match arm without braces is modelled as a block of one statement.
- Link.CompileProgram: statics come before the functions, function names are distinct
  (`Programs.Distinct`; of two functions of one name, calls between them mean the first, others
  the second), and the image is described for programs that are `Link.Plain`; `Names` says what
  goes wrong for others.
- Syntax trees carry data the pass computes: a literal its linked address
  (`Link.Linked`), a function its frame size (`Programs.Framed`).
- Execution.Translate: a run is compared with the source only if the stack suffices
  (`Simulation.Room`; `Guarantee.Guaranteed` says how much does) and the source has a meaning;
  a program that recurses without end leaves any stack.  Code is not
  writable, and flags come from `cmp` only.
- The error text of the compiler; which of several errors is reported first.

In FAT16:
- Fat16.Volume.WriteFile: sector I/O is taken to succeed; data and one cluster must be below
  4 GB; the file written must not be a directory.
- Subdirectories, `name_to_83`, `list_files` and the boot sector checks.

In the allocators and the page tables:
- The headers linked through memory are modelled as the sequence of blocks in list order.
- KernelHeap.Heap.Kfree: a pointer into the middle of a merged block, where an old header
  may still lie in memory, is taken to be no block.
- Spin locks; the page source and the break address are parameters.
- Pmm.PageAllocator.MarkRegionFree: addresses lie below 2^44; the multiboot memory map is
  not parsed.
- Vmm.AddressSpace.MapPage: the walk meets no 1 GB page, and a 2 MB page it meets lies in
  memory (`Vmm.Tame`).
- Vmm.AddressSpace.UnmapPage: the same.
- Vmm.AddressSpace.GetPhysical: the same.
- `map_range` and the flush of the translation cache.

In threads and recovery:
- Stacks and the switch itself.  The schedule frees the stack of an exited thread at the
  start of the next schedule; nothing is claimed about it.
- Thread 0 never exits.  The state Blocked is never entered in the source.
- Recovery.ReturnsOutcome: the parent is not killed while it waits, and thread ids do not
  wrap around.

In the network:
- Timeouts, retransmission, the choice of the connection, resets for unknown segments, and
  the building of headers around payloads.
- Tcp.Connection.Send: lengths from 65516 on, for which the 16-bit sum of header and data
  overflows.
- Tcp.Connection.Rx: acknowledgement numbers wrap around; a build with overflow checks
  would stop instead at the largest sequence number.
- Checksum.Compute: lengths up to 65535, as the type of the length says.
