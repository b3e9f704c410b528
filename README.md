# LLIR backend core in Dafny

A model of the core of LLIR, a small C++ compiler backend. It has four parts:

- **IR data model** (`src/llir_operand.hpp`, `src/llir.hpp`, `src/llir.cpp`).
  - Operands, types and instructions are Dafny datatypes, copied by value.
  - Blocks, functions and modules are classes whose `seq` fields are updated in place as the C++ updates its vectors.
  - `Function.addBlock` and `Function.addBlockAfter` keep the source's block-id counter. Both are proved to keep block ids distinct and below it, provided the block being added is not already in the function (for `addBlockAfter`, whenever a block matches). When some block matches, `addBlockAfter` also requires that the new block is not the block it follows; with no match it changes nothing, whatever the new block is.
- **IR builder** (`src/irbuilder.hpp`, `src/irbuilder.cpp`). A class with the register counter, the string-label counter and the current function and block.
  - Each `create*` method states exactly which instruction it appends and what it returns.
  - When both operands are immediates, `Add`, `Sub`, `SMul`, `SDiv`, `And`, `Or` and `Xor` are folded, and nothing is appended. `createGEP` and the `Bne`..`Ble` branches are never folded. `createBeq` on two equal immediates appends a `Br` instead.
  - Folded `+`, `-` and `*` wrap modulo 2^64, a choice the model makes where C++ leaves signed overflow undefined. Folded division truncates toward zero, as C++ defines it.
  - The newline escape of `createString` is proved to remove every newline, to grow the text by one character per newline, and, on texts without a backslash, to be undone by reading `\n` back. A text that has a backslash may escape to the same result as another text.
- **Lowering pass** (`src/transform.cpp`, `Module::transform`).
  - The source keeps its maps and counters as file-level variables. Here they are one context value, `Lowering.Ctx`, reset for each function.
  - `checkOperand` is a pure priority lookup.
  - The scan is specified by `LowerInstrs`/`LowerBlocks`, which define it step by step from the end of the list.
  - The in-place methods are proved to leave exactly those lists in the blocks. The lemmas cover the numbering the scan produces: GEP pointer registers, register resets at stores and calls, and argument registers per block.
- **AMD64 writer** (`src/amd64.cpp`). A class with the assembly text, `stackPos`, `memMap` and `regMap`.
  - Each of its loops is proved against a text function (`InstrStep`, `InstrsText`, `BlocksText`, `FunctionText`, `FunctionsText`).
  - The lemmas give alloca slot offsets and the shape of each function's text.

I/O is not modelled. Writing to standard output or to a file is out, and so are the parser and the example drivers. Nothing else in the core calls code outside it.

## Model

| member | source | states |
|---|---|---|
| Operands.Operand.GetType | src/llir_operand.hpp:44 | no operand is tagged None, and the tag tells every kind of operand apart |
| Operands.ConstructorTags | src/llir_operand.hpp:37-187 | each operand constructor fixes its own tag, and the Reg and Imm tags hold exactly for Reg and Imm operands |
| Operands.SetValue | src/llir_operand.hpp:61-62 | after `setValue(v)` the value read back is `v` and the tag is still Imm |
| Operands.GettersReturnConstructorArguments | src/llir_operand.hpp:57-182 | `getValue`, `getName`, `getValue` of a string and `getNum` return exactly what the constructor was given |
| Types.Type.GetType | src/llir.hpp:111 | pointer and struct types report Ptr and Struct, and a type with any other tag is the basic type of that tag |
| Types.CreateVoidType | src/llir.hpp:102 | the type is tagged Void |
| Types.CreateI8Type | src/llir.hpp:103 | the type is tagged I8 |
| Types.CreateI16Type | src/llir.hpp:104 | the type is tagged I16 |
| Types.CreateI32Type | src/llir.hpp:105 | the type is tagged I32 |
| Types.CreateI64Type | src/llir.hpp:106 | the type is tagged I64 |
| Types.PointerOf | src/llir.cpp:8-11 | a Ptr-tagged pointer type whose base is the given type |
| Types.PointerToTag | src/llir.cpp:13-16 | a Ptr-tagged pointer type whose base carries the given tag |
| Types.CreateVoidPtrType | src/llir.hpp:140 | Ptr-tagged, base tagged Void |
| Types.CreateI8PtrType | src/llir.hpp:141 | Ptr-tagged, base tagged I8 |
| Types.CreateI16PtrType | src/llir.hpp:142 | Ptr-tagged, base tagged I16 |
| Types.CreateI32PtrType | src/llir.hpp:143 | Ptr-tagged, base tagged I32 |
| Types.CreateI64PtrType | src/llir.hpp:144 | Ptr-tagged, base tagged I64 |
| Instructions.NewInstruction | src/llir.cpp:46-49 | the given opcode, data type Void, no dest and no sources |
| Instructions.NewFunctionCall | src/llir.cpp:108-111 | a Call with the callee name and arguments, type Void, no dest and no sources |
| Instructions.SetDataType | src/llir.cpp:59-62 | only the data type changes, to the argument |
| Instructions.SetDest | src/llir.cpp:64-66 | only the dest changes, to the argument |
| Instructions.SetOperand1 | src/llir.cpp:68-70 | only operand 1 changes, to the argument |
| Instructions.SetOperand2 | src/llir.cpp:72-74 | only operand 2 changes, to the argument |
| Instructions.SetOperand3 | src/llir.cpp:76-78 | only operand 3 changes, to the argument |
| Instructions.SetArgs | src/llir.cpp:113-115 | only the call's argument list changes, to the argument |
| Strings.NatToString | src/llir.cpp:192 | `std::to_string` of a natural number: a non-empty run of decimal digits with no leading zero |
| Strings.NatToStringValue | src/llir.cpp:192 | the digits `std::to_string` gives denote the number in base 10 |
| Strings.NatToStringInjective | src/irbuilder.cpp:68-69 | different counter values give different register names |
| Llir.Block.constructor | src/llir.cpp:128-130 | the name is kept, there are no instructions and the id is 0 |
| Llir.Block.AddInstruction | src/llir.cpp:138-140 | the list becomes the old list plus the instruction, and name and id stay the same |
| Llir.Block.SetID | src/llir.cpp:142-144 | the id becomes the argument and nothing else changes |
| Llir.Block.GetInstruction | src/llir.cpp:158-160 | for a position inside the list, the instruction at that position |
| Llir.ArgNames | src/llir.cpp:189-195 | n names, the i-th being the decimal text of i |
| Llir.IndexOf | src/llir.cpp:209-210 | the first position holding an id, or -1 exactly when no position holds it |
| Llir.MatchIsLast | src/llir.cpp:209-215 | among distinct ids, the matching id occurs at no later position, so the loop inserts at most once |
| Llir.AppendFresh | src/llir.cpp:202-206 | appending the counter keeps ids distinct and below the next counter value |
| Llir.InsertFresh | src/llir.cpp:211-213 | inserting the counter anywhere keeps ids distinct and below the next counter value |
| Llir.Splice | src/llir.cpp:211 | after insertion at i + 1, the new element sits at i + 1, elements before it keep their positions and elements after it shift by one |
| Llir.Function.constructor | src/llir.cpp:165-169 | name and linkage as given, type Void, no blocks or arguments, `blockID` 1, invariant established |
| Llir.Function.Create | src/llir.hpp:260-264 | like the constructor, with the given return type |
| Llir.Function.SetDataType | src/llir.cpp:184-187 | only the return type changes |
| Llir.Function.SetArgs | src/llir.cpp:189-195 | the argument types are replaced, and registers "0".."n-1" are appended in order; the invariant is kept |
| Llir.Function.AddArgPair | src/llir.cpp:197-200 | the type and the register are appended together |
| Llir.Function.GetArg | src/llir.cpp:242-244 | the register named at that position |
| Llir.Function.GetArgType | src/llir.cpp:238-240 | the type at that position |
| Llir.Function.AddBlock | src/llir.cpp:202-206 | the block is appended, takes the old counter and the counter grows by one; a block not already present keeps ids distinct |
| Llir.Function.InsertAfter | src/llir.cpp:211-213 | the block list and the id list are spliced at i + 1, the new block takes the old counter and the counter grows by one |
| Llir.Function.AddBlockAfter | src/llir.cpp:208-216 | with no block carrying `block`'s id, nothing changes; otherwise `newBlock` is inserted right after the first such block with a fresh id, and ids stay distinct |
| Llir.Function.ScanAndInsert | src/llir.cpp:209-215 | the loop that never stops at a match inserts exactly once when the match is the last of its id, and leaves everything alone when there is none |
| Llir.Module.constructor | src/llir.cpp:249-251 | the name is kept, with no functions and no strings |
| Llir.Module.AddFunction | src/llir.cpp:259-261 | the function is appended; the strings are untouched |
| Llir.Module.AddStringPtr | src/llir.cpp:263-265 | the string pointer is appended; the functions are untouched; the list holds only string pointers, because of its element type |
| Llir.Module.GetFunctionByName | src/llir.cpp:287-292 | null exactly when no function has the name; otherwise the first function with it |
| IrBuilder.CreateI8 | src/irbuilder.cpp:32-34 | an immediate equal to the 8-bit value |
| IrBuilder.CreateI16 | src/irbuilder.cpp:36-38 | an immediate equal to the 16-bit value |
| IrBuilder.CreateI32 | src/irbuilder.cpp:40-42 | an immediate equal to the 32-bit value |
| IrBuilder.CreateI64 | src/irbuilder.cpp:44-46 | an immediate equal to the 64-bit value |
| IrBuilder.FoldValue | src/irbuilder.cpp:128-136 | a folded Add, Sub or SMul is congruent to the exact result modulo 2^64; a folded SDiv rounds toward zero, leaving a remainder smaller than the divisor with the dividend's sign |
| IrBuilder.FoldArithmetic | src/irbuilder.cpp:129-131 | a folded Add, Sub or SMul is the exact result whenever that fits in 64 bits |
| IrBuilder.FoldDivisionTruncates | src/irbuilder.cpp:132 | a folded quotient is no larger in magnitude than the dividend |
| IrBuilder.FoldCommutes | src/irbuilder.cpp:129-135 | folding Add, SMul, And, Or and Xor is symmetric in the operands |
| IrBuilder.FoldBitwiseLaws | src/irbuilder.cpp:133-135 | folded `(a ^ b) ^ b` is `a`, and `a & -1` and `a \| 0` are `a` |
| IrBuilder.NegValue | src/irbuilder.cpp:188-193 | the negated immediate lies in the 32-bit range and is congruent to -v modulo 2^32 |
| IrBuilder.NegLaws | src/irbuilder.cpp:188-193 | folding a negation is exact on 32-bit values other than the smallest, and negating twice yields the value cut to 32 bits |
| IrBuilder.EscapeAppend | src/irbuilder.cpp:52-56 | the escape loop distributes over concatenation |
| IrBuilder.Escape | src/irbuilder.cpp:52-56 | no newline survives the escape, and each newline adds exactly one character |
| IrBuilder.EscapeProperties | src/irbuilder.cpp:52-56 | a text without newlines is unchanged |
| IrBuilder.UnescapeEscape | src/irbuilder.cpp:52-56 | on texts without backslashes, reading `\n` back as a newline restores the original |
| IrBuilder.EscapeNotInjective | src/irbuilder.cpp:52-56 | a newline and a literal backslash-n escape to the same text |
| IrBuilder.FreshReg | src/irbuilder.cpp:68 | a virtual register named by the decimal counter |
| IrBuilder.FreshRegistersDistinct | src/irbuilder.hpp:13-16 | registers from different counter values differ, and those numbered from the argument count on never reuse an argument name |
| IrBuilder.StringLabelsDistinct | src/irbuilder.cpp:49-50 | labels "STR" + k from different counter values differ |
| IrBuilder.Builder.constructor | src/irbuilder.cpp:6-8 | the module is kept, both counters are 0 and no function or block is current |
| IrBuilder.Builder.SetCurrentFunction | src/irbuilder.hpp:13-16 | the function becomes current and the register counter becomes its argument count |
| IrBuilder.Builder.CreateBlock | src/irbuilder.cpp:10-14 | a fresh empty block with the name is appended to the current function with the next id, and becomes the insertion point; no other field of the function changes |
| IrBuilder.Builder.AddBlock | src/irbuilder.cpp:16-18 | the current function's `addBlock`: only its block list and counter and the block's id change |
| IrBuilder.Builder.AddBlockAfter | src/irbuilder.cpp:20-22 | the current function's `addBlockAfter`: only its block list and counter and the new block's id may change, and none of them does when no block matches |
| IrBuilder.Builder.SetInsertPoint | src/irbuilder.cpp:24-26 | the block becomes current; counters and function are unchanged |
| IrBuilder.Builder.AddInstruction | src/irbuilder.hpp:63-65 | exactly the instruction is appended to the current block |
| IrBuilder.Builder.CreateString | src/irbuilder.cpp:48-62 | a string pointer labelled "STR" + old label counter holding the escaped text is appended to the module; the label counter grows by one |
| IrBuilder.Builder.CreateAlloca | src/irbuilder.cpp:64-74 | appends an Alloca of the type into the next fresh register and returns that register |
| IrBuilder.Builder.CreateStore | src/irbuilder.cpp:76-83 | appends a Store of the value (operand 1) to the address (operand 2), without a dest |
| IrBuilder.Builder.CreateStructStore | src/irbuilder.cpp:85-94 | appends a StructStore of pointer, index immediate and value |
| IrBuilder.Builder.CreateLoad | src/irbuilder.cpp:96-107 | appends a Load from the source into the next fresh register and returns it |
| IrBuilder.Builder.CreateStructLoad | src/irbuilder.cpp:109-121 | like a load, with the index immediate as operand 2 |
| IrBuilder.Builder.CreateBinaryOp | src/irbuilder.cpp:123-154 | two immediates with a foldable opcode give the folded immediate and no change; otherwise one instruction is appended, with `op1`, `op2`, the next fresh register as dest and result, and operand 3 the block's label exactly when a block is given |
| IrBuilder.Builder.CreateGEP | src/irbuilder.cpp:156-158 | never folded: always appends a GEP into the next fresh register |
| IrBuilder.Builder.CreateAdd | src/irbuilder.cpp:160-162 | `createBinaryOp` with Add and no block, so no operand 3 |
| IrBuilder.Builder.CreateSub | src/irbuilder.cpp:164-166 | `createBinaryOp` with Sub and no block |
| IrBuilder.Builder.CreateSMul | src/irbuilder.cpp:168-170 | `createBinaryOp` with SMul and no block |
| IrBuilder.Builder.CreateSDiv | src/irbuilder.cpp:172-174 | `createBinaryOp` with SDiv and no block |
| IrBuilder.Builder.CreateAnd | src/irbuilder.cpp:176-178 | `createBinaryOp` with And and no block |
| IrBuilder.Builder.CreateOr | src/irbuilder.cpp:180-182 | `createBinaryOp` with Or and no block |
| IrBuilder.Builder.CreateXor | src/irbuilder.cpp:184-186 | `createBinaryOp` with Xor and no block |
| IrBuilder.Builder.CreateNeg | src/irbuilder.cpp:188-206 | an immediate comes back negated and cut to 32 bits with nothing appended; any other operand gets a Not into the next fresh register |
| IrBuilder.Builder.CreateBeq | src/irbuilder.cpp:208-226 | two equal immediates give a Br to the block's label that still takes a fresh register; every other case is a Beq with the label as operand 3 |
| IrBuilder.Builder.CreateBne | src/irbuilder.cpp:228-230 | appends a Bne with the block's label as operand 3 |
| IrBuilder.Builder.CreateBgt | src/irbuilder.cpp:232-234 | appends a Bgt with the block's label as operand 3 |
| IrBuilder.Builder.CreateBlt | src/irbuilder.cpp:236-238 | appends a Blt with the block's label as operand 3 |
| IrBuilder.Builder.CreateBge | src/irbuilder.cpp:240-242 | appends a Bge with the block's label as operand 3 |
| IrBuilder.Builder.CreateBle | src/irbuilder.cpp:244-246 | appends a Ble with the block's label as operand 3 |
| IrBuilder.Builder.CreateBr | src/irbuilder.cpp:248-254 | appends a Br whose operand 1 is the block's label; no register is consumed |
| IrBuilder.Builder.CreateVoidCall | src/irbuilder.cpp:256-260 | appends a call without a dest |
| IrBuilder.Builder.CreateCall | src/irbuilder.cpp:262-272 | appends a typed call whose dest is the next fresh register, and returns it |
| IrBuilder.Builder.CreateRetVoid | src/irbuilder.cpp:274-279 | appends opcode Ret (not RetVoid), typed Void, with no operand |
| IrBuilder.Builder.CreateRet | src/irbuilder.cpp:281-287 | appends a Ret of the operand |
| Lowering.CheckOperand | src/transform.cpp:19-46 | non-registers and unknown names come back unchanged; known names become machine operands, and a Mem result keeps the name |
| Lowering.CheckOperandPriority | src/transform.cpp:24-45 | the lookup tries memList, then argMap, then ptrMap, then regMap |
| Lowering.CheckOperandIdempotent | src/transform.cpp:19-46 | rewriting twice equals rewriting once; the result is virtual exactly for unknown names |
| Lowering.RewriteOperands | src/transform.cpp:148-161 | each present source is replaced by its lookup and absent ones stay absent; nothing else changes |
| Lowering.CheckOperands | src/transform.cpp:129-134 | each call argument is replaced by its lookup, in order |
| Lowering.LowerInstr | src/transform.cpp:80-161 | one scan step keeps the instruction's shape, leaves the argument map alone, adds an alloca's name to memList and counts a GEP |
| Lowering.LowerAlloca | src/transform.cpp:81-88 | an alloca's dest becomes Mem of its name, the name joins memList and the sources are not rewritten |
| Lowering.LowerGep | src/transform.cpp:97-104 | a GEP's dest becomes the next pointer register, recorded in ptrMap |
| Lowering.LowerValue | src/transform.cpp:106-123 | a load or arithmetic dest becomes the next general register, recorded in regMap |
| Lowering.LowerStore | src/transform.cpp:92-95 | a store resets the general-register counter and keeps its dest |
| Lowering.LowerCall | src/transform.cpp:125-144 | a call resets the counter, then rewrites its arguments, and a present dest becomes HReg 0 |
| Lowering.LowerSources | src/transform.cpp:148-161 | every instruction but an alloca has its present sources rewritten in the context after its own step |
| Lowering.LoweredDests | src/transform.cpp:80-144 | the dests the scan renames become machine operands |
| Lowering.NotDestStaysVirtual | src/transform.cpp:80-145 | the dest of a Not is left a virtual register |
| Lowering.LowerInstrs | src/transform.cpp:78-162 | the scan yields one instruction per input instruction |
| Lowering.ScanPlan | src/transform.cpp:78-162 | the scan unrolled: the context before each instruction, and each output as one step from it |
| Lowering.LowerInstrsShape | src/transform.cpp:78-162 | the scan keeps every instruction's shape |
| Lowering.LowerInstrsCounts | src/transform.cpp:81-104 | the scan leaves the argument map alone, records exactly the alloca names in memList and counts exactly the GEPs |
| Lowering.ScanAt | src/transform.cpp:78-79 | output j is instruction j lowered in the context the first j instructions leave |
| Lowering.GepNumbering | src/transform.cpp:97-104 | the j-th GEP's dest is PReg of the starting count plus the number of GEPs before it, independently of HReg numbering |
| Lowering.AssignArgs | src/transform.cpp:71-75 | the argument loop adds one to argCount per argument, maps each name and touches nothing else |
| Lowering.AssignArgsMaps | src/transform.cpp:71-75 | with distinct names, the j-th argument maps to the old counter plus j |
| Lowering.LowerBlocks | src/transform.cpp:67-163 | the block loop yields one instruction list per block |
| Lowering.LowerBlocksShape | src/transform.cpp:67-163 | the block loop keeps every block's length and every instruction's shape |
| Lowering.LowerFunction | src/transform.cpp:58-163 | lowering one function from a fresh context keeps its block count, every block's length and every instruction's shape |
| Lowering.ArgCountAfterBlocks | src/transform.cpp:67-75 | argCount is never reset inside a function: after k blocks it has grown by k times the argument count |
| Lowering.ArgumentRegisterInBlock | src/transform.cpp:67-75 | in block k, argument j maps to AReg(k * n + j), so AReg(j) only in the first block |
| Lowering.StoreResetsRegisters | src/transform.cpp:92-95 | in `load; store; load` both loads take HReg 0 and the store reads HReg 0 |
| Lowering.CallResetsRegisters | src/transform.cpp:125-144 | in `load; call; load` the call's argument reads HReg 0, the call's result takes HReg 0 and the next load HReg 1 |
| Lowering.AssignArgRegisters | src/transform.cpp:71-75 | the argument loop computes `AssignArgs` of the function's argument registers |
| Lowering.LowerArgs | src/transform.cpp:129-134 | the call-argument loop computes `CheckOperands` |
| Lowering.RewriteStep | src/transform.cpp:148-161 | the three operand rewrites compute `RewriteOperands` |
| Lowering.LowerStep | src/transform.cpp:80-161 | the switch plus the operand rewrite computes one `LowerInstr` step |
| Lowering.LowerBlockInPlace | src/transform.cpp:78-162 | the in-place instruction loop leaves `LowerInstrs` of the old list in the block and returns its context |
| Lowering.LoweringPlan | src/transform.cpp:67-163 | the block loop unrolled: the context before each block and each block's lowered list |
| Lowering.LowerFunctionInPlace | src/transform.cpp:58-163 | from a fresh context, block k ends up with the k-th list of `LowerFunction` |
| Lowering.LowerNth | src/transform.cpp:58-164 | one function is lowered in place and no other function's instruction lists change |
| Lowering.LowerFunctions | src/transform.cpp:58-164 | every function is lowered, each from its own old lists |
| Lowering.Transform | src/transform.cpp:57-165 | every function of the module holds the lowering of its old instruction lists |
| Amd64.SizeForType | src/amd64.cpp:154-166 | the keyword is empty exactly for Void and Struct |
| Amd64.AllocaSize | src/amd64.cpp:99-108 | an alloca reserves 0, 1, 2, 4 or 8 bytes |
| Amd64.SizeAgreesWithSlot | src/amd64.cpp:99-108 | every type's size keyword names exactly the bytes its alloca reserves |
| Amd64.Get | src/amd64.cpp:119 | a map read gives the stored value, or the default for a missing key |
| Amd64.Touch | src/amd64.cpp:119 | after the read, the key is present with what was read |
| Amd64.InstrStep | src/amd64.cpp:61-144 | only an alloca moves `stackPos`, by its size, and records its name at the new position; text comes only from None, Load and Store of an immediate |
| Amd64.InstrsText | src/amd64.cpp:50-52 | after a block's instructions, `stackPos` has grown by their alloca bytes |
| Amd64.BlocksText | src/amd64.cpp:45-53 | after a function's blocks, `stackPos` has grown by their alloca bytes |
| Amd64.FunctionText | src/amd64.cpp:21-58 | an extern function moves nothing; a defined one moves `stackPos` by its blocks' alloca bytes |
| Amd64.FunctionsText | src/amd64.cpp:21-58 | after all functions, `stackPos` has grown by the module's alloca bytes |
| Amd64.Writer.constructor | src/amd64.cpp:8-13 | the text opens with `.intel_syntax noprefix`, and the writer state is empty |
| Amd64.Writer.CompileInstruction | src/amd64.cpp:61-144 | the state and the appended text are those of `InstrStep` |
| Amd64.Writer.CompileBlock | src/amd64.cpp:50-52 | the instruction loop appends `InstrsText` of the block |
| Amd64.Writer.CompileBlocks | src/amd64.cpp:45-53 | the block loop appends each label, then the block's text |
| Amd64.Writer.CompileFunction | src/amd64.cpp:22-57 | one function's text is appended as `FunctionText` |
| Amd64.Writer.CompileFunctions | src/amd64.cpp:21-58 | the function loop appends `FunctionsText` |
| Amd64.Writer.Compile | src/amd64.cpp:15-59 | `.data` and `.text`, then every function's text in order; the module is not replaced |
| Amd64Facts.NopOnlyForNone | src/amd64.cpp:63 | `nop` is written for the None opcode and for nothing else |
| Amd64Facts.MissingSlotReadsZero | src/amd64.cpp:114-124 | a load of a name no alloca recorded reads `[rbp-0]` and inserts the name with 0 |
| Amd64Facts.LoadReadsAllocaSlot | src/amd64.cpp:98-124 | a load of the name an alloca just declared reads the slot it reserved |
| Amd64Facts.StoreWritesAllocaSlot | src/amd64.cpp:126-141 | a store of an immediate to that name writes the immediate to that slot and changes no state |
| Amd64Facts.AllocaRecordsSlot | src/amd64.cpp:98-112 | the slot an alloca records is the stack position after every alloca up to and including it |
| Amd64Facts.AllocaBytesGrow | src/amd64.cpp:99-108 | reserved bytes never shrink along a list, and a sized alloca adds to them |
| Amd64Facts.AllocaSlotsIncrease | src/amd64.cpp:98-112 | later sized allocas get strictly deeper slots than earlier ones |
| Amd64Facts.ThreeAllocas | src/amd64.cpp:98-112 | allocas of i32, i32 and i64 record offsets 4, 8 and 16 past the old stack position |
| Amd64Facts.InstrsTextAppend | src/amd64.cpp:50-52 | the text of `a + b` is the text of `a`, then that of `b` from the state `a` left |
| Amd64Facts.FunctionsTextAppend | src/amd64.cpp:21-58 | the same for a module's functions |
| Amd64Facts.ExternFunctionText | src/amd64.cpp:33-36 | an extern function writes a blank line and its `.extern` directive, nothing else, and leaves the state alone |
| Amd64Facts.DefinedFunctionText | src/amd64.cpp:39-57 | a defined function's text is its head (blank line, directives, label, frame set-up), then its blocks, then `leave` and `ret` |
| Amd64Facts.ReturnMainText | src/amd64.cpp:65-77 | a global `main` returning an immediate writes only its head, its block label and the epilogue: the return value is not written |
| Amd64Facts.WriteModule | src/amd64.cpp:8-59 | a fresh writer's text is the syntax line, the two sections and every function's text, and its final stack position is the module's alloca bytes |

## Left out

- Memory management is not modelled: destructors, `delete` and the mix of raw and shared pointers. Operands, types and instructions are values, and each block belongs to one function.
- `Amd64Writer::dump` and `writeToFile` (src/amd64.cpp:146-152) are standard-output and file I/O.
- The parser and compiler driver, the example and test drivers, and src/print.cpp are outside the core.
- src/amd64.hpp and src/amd64/amd64.hpp declare the writer differently from what amd64.cpp uses. The model follows amd64.cpp: it has the fields `stackPos`, `memMap` and `regMap`.
- Simple getters are field reads in the model, not separate members. This covers `getName`, `getID`, `getInstrCount`, `getBlockCount`, `getBlock`, `getArgCount`, `getFunctionCount`, `getFunction`, `getStringCount`, `getString`, `getInsertPoint` and the `Instruction` getters.
- `StructType` element lists are only stored. `F32` and `F64` are only type tags, because no code does floating-point arithmetic.
- Integer widths:
  - Builder counters, block ids, the lowering counters and `stackPos` are C++ `int`.
  - Here they are unbounded, so wrap-around after 2^31 uses is not modelled.
  - Immediates are exact 64-bit values.
  - `createI32` and the `int` in `createNeg` are modelled with their widths.
- `func->getStackSize()` (src/amd64.cpp:42) is declared and set by no code shown, so `stackSize` is an arbitrary natural number per function. The lowering pass does not compute it.
- `stackPos`, `memMap` and `regMap` are never reset between functions in the writer, and the model keeps that. `regMap` never affects the text.
- IrBuilder.FoldArithmetic: signed overflow of `+`, `-` and `*` is undefined in C++. The model folds to the two's-complement wrap that the hardware produces.
- IrBuilder.NegValue: `createNeg` computes `v * -1`, which overflows for INT64_MIN, and C++ leaves that undefined. The model wraps the product and cuts it to 32 bits, giving 0.
- IrBuilder.Builder.CreateSDiv: requires a divisor other than 0 and excludes INT64_MIN / -1 when both operands are immediates. C++ leaves both undefined when folding.
- IrBuilder.Builder.CreateBinaryOp: has the same exclusion for SDiv on two immediates, through its folding precondition, for the same reason.
- IrBuilder.Builder.CreateNeg: returns the negated immediate as a new value. The source changes the caller's `Imm` in place, and that aliasing is not modelled.
- IrBuilder.Builder.CreateBeq: requires a non-null `destBlock` when two equal immediates are given. The source dereferences it there.
- Llir.Function.AddBlockAfter (and IrBuilder.Builder.AddBlockAfter, which forwards to it) requires three things of its arguments. The first two apply only when some block carries `block`'s id; with no match, any `newBlock` leaves the function unchanged:
  - when some block carries `block`'s id, `newBlock` is not `block` itself. With `newBlock == block` the source loop keeps matching its own insertion and never ends.
  - when some block carries `block`'s id, `newBlock` is not already in the list. Otherwise the source would list the block twice and renumber it, and the list would hold the same id twice.
  - block ids are distinct (the function invariant). Every id the API hands out is distinct. A caller using the public `setID` to duplicate ids would make the source insert the same block after each copy, and that case is not modelled.
- Amd64.Writer.CompileInstruction:
  - It requires that a Ret has an operand, and that the dests and sources the writer casts with `static_cast<Reg *>` be named operands (Reg, Label, StringPtr or Mem).
  - Any other operand is undefined behaviour in the source.
  - For this reason, `createRetVoid`'s Ret (which has no operand) gives an instruction the writer cannot write.
  - Neither can a lowered Load, whose dest is an HReg. Writing a lowered module therefore lies outside the model.
- Lowering.Transform:
  - It requires that no block belongs to two functions, and that no block appears twice in one function. Calling `addBlock(b)` twice would put it there twice. The source would lower such a block twice.
  - It requires that every dest the pass casts to `Reg` is a virtual register; the source dereferences a null cast otherwise.
  - It requires that every argument type has its register; `.at` throws otherwise.

Where the code and its design descriptions disagree, the model follows the code:

- Only the opcodes listed in the scan get a machine dest (Lowering.NotDestStaysVirtual). The dest of a Not or of a branch stays a virtual register after lowering.
- The argument loop runs once per block, and `argCount` is never reset inside a function (Lowering.ArgumentRegisterInBlock). So argument j is AReg(j) only in the first block.
- `createRetVoid` emits opcode Ret, not RetVoid.
- A Ret writes no text (Amd64Facts.ReturnMainText).
