# A Dafny model of the HACK VM translator's code generator

The translator reads Nand2Tetris VM files line by line and writes Hack
assembly. This project models the generator part of it:

- the four block generators of `src/code_generator/`:
  - memory access (`push`/`pop` on the nine VM segments and the generator's `SP` key);
  - arithmetic and logic (nine operations);
  - branching (`label`, `goto`, `if-goto`);
  - functions (`function`, `call`, `return`);
- the line dispatcher of `src/code_generator.rs` and the tables made in
  `CodeGenerator::new`;
- `add_padding` and `create_output_path` of `src/utils.rs`.

Every generator is a pure function. It returns `Result<seq<Line>>`: the
generated `Vec<String>` as a sequence of lines, or a `Diagnostic` where the
Rust code prints an `[ERROR]` message and panics. `Message` gives the exact
text of each diagnostic. A `Line` is one of:

- an instruction;
- the `"\n"` element that debug mode pushes;
- a `// ...` comment;
- a line padded by `add_padding`.

`Render` gives back the exact strings. `Code` drops comments and padding and
keeps the program an assembler would see.

That program runs on a small Hack machine (`Machine`):

- one instruction per slot; a label declaration `(X)` is a no-op slot;
- 16-bit words;
- the assembler's symbol table as a map that must agree with a reference
  resolver (`Assembled`: the first `(X)` of the program, or the predefined
  symbols and variables).

The semantic modules prove what each generated block does to the RAM:

- **memory**: a push puts the segment's word on the stack, and a pop stores
  the top of the stack;
- **arithmetic**: the result of the operation replaces the operands;
- **branching**: `goto` and `if-goto` land on the first declaration of their
  label;
- **functions**: a `call` followed by a `return` gives the caller back its
  registers and its stack, with the callee's top word in place of the
  arguments.

The modules follow the source files:

- `Wrappers`: `Option`, `Result`, `Diagnostic`.
- `Strings`: digits, `split`, `trim_end_matches`, `join`.
- `Utils`: `add_padding`, `create_output_path`.
- `Hack`: instructions, lines and rendering.
- `Machine`: the Hack machine.
- Generator modules: `Memory`, `Arithmetic`, `Branching`, `Function`, `CodeGenerator`.
- Semantic modules: `MemorySemantics`, `ArithmeticSemantics`,
  `BranchingSemantics`, `FrameRam`, `FunctionSemantics`.

Where the repository's written description and the code differ, the model
follows the code:

- **`pop pointer i`** writes the D register, not the popped word: it stores
  D both at the old stack top and into THIS/THAT (`src/code_generator/memory.rs:195-203`).
  `MemorySemantics.PopPointerSemantics` states this and
  `MemorySemantics.PopPointerIgnoresStackTop` shows that the stored word is
  the popped one only when D already holds it. Push followed by pop is still
  an identity on `pointer`, because push leaves the pushed word in D.
- **The `SP` key.** `generate_mem_code_block` treats every key of its
  `label_pointers` table as a base segment, `SP` (cell 0) included
  (`src/code_generator/memory.rs:13-19`), so `push SP i` and `pop SP i` address the
  stack at `SP + i`. The dispatcher's table has no `SP`, so no line
  reaches it. The model has `SP` as the generator's tenth segment.
- **Comparison labels.** The dispatcher passes its `jump_counter` by value, and
  nothing ever changes it from 0, so every comparison of every file declares
  `(true_expression1)` and `(false_expression1)`
  (`CodeGenerator.RepeatedComparisonLabels`).
- **Unknown commands.** The dispatcher knows only the arithmetic and memory tables: a line
  starting with `label`, `goto`, `if-goto`, `function`, `call` or `return`
  is rejected as an unknown first word. The branching and function
  generators are modelled on their own, as their source defines them.
- **`function.rs` counter.** `src/code_generator/function.rs:124` (and :199, :277, :323) hands the
  counter reference to a by-value `usize` parameter. The model passes the
  counter's value. `sub` and `add` never use the counter, so the
  emitted code does not depend on it (`Function.CounterFreeCode`).

## Model

| member | source | states |
|---|---|---|
| Strings.NatToString | src/code_generator/memory.rs:42 | the decimal rendering of an index is all digits, with a leading `0` only for zero |
| Strings.ParseNat | src/code_generator.rs:140-149 | the index parse succeeds exactly on non-empty runs of decimal digits |
| Strings.ParseNatToString | src/code_generator.rs:140-149 | parsing the rendering of `n` gives back `n` |
| Strings.ParseNatLeadingZero | src/code_generator.rs:140-149 | a leading zero does not change the index parsed |
| Strings.ParseNatPadded | src/code_generator.rs:140-149 | `007` parses as 7 |
| Strings.NatToStringInjective | src/code_generator/memory.rs:109 | two indices render alike exactly when they are equal, so static symbols of one file are distinct |
| Strings.TrimEndMatches | src/code_generator.rs:103 | `trim_end_matches` returns a prefix that no longer ends with the suffix, and the input itself when it did not end with it |
| Strings.TrimEndMatchesRemovesCopies | src/code_generator.rs:103 | the input is the trimmed text followed by some number of copies of the suffix |
| Strings.Split | src/code_generator.rs:105 | `split(" ")` gives at least one piece and no piece contains the separator |
| Strings.JoinSplit | src/code_generator.rs:105 | joining the pieces of a split with the separator gives back the text |
| Strings.SplitJoin | src/code_generator.rs:105 | splitting a join of separator-free pieces gives back the pieces |
| Utils.AddPadding | src/utils.rs:99-106 | the result is `n` spaces followed by the string |
| Utils.AddPaddingExample | src/utils.rs:94-98 | the documented example: `add_padding("hello", 2)` is `"  hello"` |
| Utils.AddPaddingZero | src/utils.rs:99-106 | padding by zero leaves a string unchanged |
| Utils.Named | src/utils.rs:57 | the pieces kept between separators are exactly those that are neither empty nor `.` |
| Utils.NamedAppend | src/utils.rs:57 | the kept pieces stay in the order of the path |
| Utils.Components | src/utils.rs:57 | a path has components exactly when it is non-empty; the first is the root `/` exactly when the path starts with `/`; every other component is non-empty and holds no separator |
| Utils.PushPathShape | src/utils.rs:65-67 | pushing a relative name onto a directory keeps the directory as a prefix and ends with `/name` |
| Utils.CreateOutputPath | src/utils.rs:42-71 | a file path becomes the path without trailing `.vm` plus `.asm` or `.debug.asm`; a directory path fails exactly when it is empty, gives `/.asm` when its last component is the root, and otherwise is exactly the path, a `/` unless it already ends with one, the last component and the extension |
| Utils.DirOutputValue | src/utils.rs:54-68 | a directory whose last component is not the root gets exactly the path, a `/` unless it already ends with one, the last component and the extension |
| Utils.RootOutputPath | src/utils.rs:54-68 | the root directory `/` gets `/.asm` (or `/.debug.asm`) |
| Utils.TwoPieceOutputPath | src/utils.rs:54-68 | a directory `a/b` gets `a/b/b.asm` (or `.debug.asm`) |
| Utils.CreateOutputPathExample | src/utils.rs:31-37 | the documented example: `.../test_directory` in debug mode gets `.../test_directory/test_directory.debug.asm` |
| Hack.RenderAnnotate | src/code_generator/memory.rs:23-27 | a decorated block renders as the plain block behind `"\n"` and the comment, every line padded by `padding` in debug mode |
| Hack.CodeAnnotate | src/code_generator/memory.rs:247-251 | debug decoration and padding never change the program a block denotes |
| Hack.AnnotateOff | src/code_generator/memory.rs:247-251 | without debug mode a block is left as it is, whatever the padding |
| Hack.CodeAppend | src/code_generator/function.rs:58-69 | appending blocks appends their programs |
| Hack.DeclsMember | src/code_generator/branching.rs:27 | a label is declared by a program exactly when one of its instructions is `(label)` |
| Machine.FirstDecl | src/code_generator/branching.rs:5 | the assembler resolves a label to its first declaration: a `(X)` at that slot and none before; `None` when there is none |
| Machine.LabelLookup | src/code_generator/branching.rs:5 | with an assembled table, a non-numeric, non-predefined label resolves to the slot of its first declaration |
| Machine.AssembledRegisters | src/code_generator/memory.rs:93 | an assembled table maps `THIS` to 3 and `THAT` to 4 |
| Machine.RunBlock | src/code_generator/memory.rs:39-53 | running a jump-free block placed at the program counter is executing its instructions in order |
| Memory.SegmentOf | src/code_generator/memory.rs:13-19 | a recognised segment name is the name of the segment returned |
| Memory.SegmentOfName | src/code_generator/memory.rs:13-19 | each segment name, the nine of the VM and `SP`, is recognised as its segment |
| Memory.BaseCell | src/code_generator/memory.rs:13-19 | the keys of `label_pointers` keep their base in RAM[0..4], and cell 0 belongs exactly to `SP` |
| Memory.PushCode | src/code_generator/memory.rs:30-141 | a push program exists unless the segment is `pointer` with an index above 1; it has no jump and ends with the five-instruction push of D |
| Memory.PopCode | src/code_generator/memory.rs:142-240 | a pop program exists unless the segment is `constant` or `pointer` with an index above 1; it has no jump |
| Memory.MemBlock | src/code_generator/memory.rs:5-253 | the block exists exactly for `push`/`pop` on a known segment (`SP` included), except `pop constant` and a `pointer` index above 1; without debug mode every line is an instruction |
| Memory.MemBlockCode | src/code_generator/memory.rs:23-27 | a block denotes the push or pop program of its segment, debug or not |
| Memory.PlainMemBlock | src/code_generator/memory.rs:247-251 | without debug mode the block is the bare instructions of the program |
| Memory.PushSpUpdates | src/code_generator/memory.rs:52 | every push program increments SP exactly once and never decrements it |
| Memory.PopSpUpdates | src/code_generator/memory.rs:158 | every pop program decrements SP exactly once and never increments it |
| Memory.StaticSymbolDistinct | src/code_generator/memory.rs:109 | static symbols `file.i` differ when the file or the index differs |
| MemorySemantics.BaseSegmentAddress | src/code_generator/memory.rs:40-43 | the address of `seg i` on a base segment is the base in RAM[0..4] plus `i` |
| MemorySemantics.PushSemantics | src/code_generator/memory.rs:30-141 | running a push program puts the segment's word (the constant itself for `constant`) at the stack top, increments SP and changes no other cell except RAM[15] for base segments |
| MemorySemantics.PopSemantics | src/code_generator/memory.rs:147-186 | running a pop program on any segment but `pointer` moves the stack top into the segment's cell, decrements SP and changes no other cell except RAM[15] for base segments |
| MemorySemantics.PopPointerSemantics | src/code_generator/memory.rs:188-206 | `pop pointer i` decrements SP and writes D, not the popped word, at the old top and into RAM[3+i]; nothing else changes |
| MemorySemantics.PopPointerIgnoresStackTop | src/code_generator/memory.rs:195-203 | the word `pop pointer` stores equals the popped word exactly when D already held it |
| MemorySemantics.PushPopRoundTrip | src/code_generator/memory.rs:29-246 | `push seg i` then `pop seg i` on a VM segment leaves SP, the segment's cell and every other cell below the stack as they were (pointer included) |
| MemorySemantics.StackPointerPushPop | src/code_generator/memory.rs:29-246 | `push SP i` then `pop SP i` is no round trip: SP is restored but the word at `SP + i` is copied to `SP + i + 1` |
| MemorySemantics.PushConstantRam | src/code_generator/memory.rs:63-71 | `push constant c` pushes `c` modulo 2^16 |
| MemorySemantics.PushCellRam | src/code_generator/memory.rs:123-131 | `push general n` pushes RAM[n] |
| MemorySemantics.PopCellRam | src/code_generator/memory.rs:221-229 | `pop general n` moves the stack top into RAM[n] |
| MemorySemantics.PopArgumentRam | src/code_generator/memory.rs:150-165 | `pop argument i` stores the stack top at ARG + i, through RAM[15] |
| Arithmetic.OpOf | src/code_generator.rs:32 | a recognised operation name is the name of the operation returned |
| Arithmetic.OpOfName | src/code_generator.rs:32 | each of the nine operation names is recognised |
| Arithmetic.ArithBlock | src/code_generator/arithmetic_logic.rs:5-157 | the block exists exactly for the nine operations; otherwise it is the fatal "unknown error"; without debug mode every line is an instruction |
| Arithmetic.ArithBlockCode | src/code_generator/arithmetic_logic.rs:20-149 | whatever the debug mode and padding, the block denotes the operation's program with labels numbered `counter + 1` |
| Arithmetic.OperandLinesCode | src/code_generator/arithmetic_logic.rs:20-41 | the operand lines pop into RAM[13] and, for binary operations, into RAM[14] |
| Arithmetic.PopsOfOperation | src/code_generator/arithmetic_logic.rs:20-41 | an operation's pops decrement SP once per operand |
| Arithmetic.LabelsInjective | src/code_generator/arithmetic_logic.rs:94-103 | comparison labels with different numbers are different, in both directions |
| Arithmetic.ArithLabels | src/code_generator/arithmetic_logic.rs:89-131 | a comparison declares exactly `(true_expressionk)` and `(false_expressionk)`, other operations declare nothing |
| Arithmetic.SameCounterRepeatsLabel | src/code_generator/arithmetic_logic.rs:8 | two comparisons given the same counter declare the same two labels twice |
| Arithmetic.CounterOnlyNamesLabels | src/code_generator/arithmetic_logic.rs:90 | the counter changes an operation's program exactly when the operation is a comparison and the counters differ |
| Arithmetic.NoDeclsInMemoryCode | src/code_generator/memory.rs:29-246 | memory programs declare no label |
| ArithmeticSemantics.TemplateMeaning | src/code_generator/arithmetic_logic.rs:45-131 | when `gt`/`lt` do not overflow, the template's result is the VM operation on signed 16-bit words |
| ArithmeticSemantics.EqExact | src/code_generator/arithmetic_logic.rs:89-105 | `eq` through `D = M - D; D;JEQ` is exact for all words |
| ArithmeticSemantics.GtOverflows | src/code_generator/arithmetic_logic.rs:106-131 | `gt` on 32767 and -1 answers false: the difference wraps |
| ArithmeticSemantics.CompareTailRun | src/code_generator/arithmetic_logic.rs:119-130 | the comparison tail stores -1 in RAM[14] when the test jumps on D and 0 otherwise, and falls through past `(false_expressionk)` |
| ArithmeticSemantics.CompareValue | src/code_generator/arithmetic_logic.rs:89-131 | the jump test on the difference gives the template's comparison value |
| ArithmeticSemantics.ArithSemantics | src/code_generator/arithmetic_logic.rs:5-157 | running an operation's program (labels resolved by the assembler) pops its operands and pushes the template's result, and this is the VM result when there is no overflow; it ends right after the program |
| Branching.BranchOf | src/code_generator/branching.rs:25-54 | a recognised keyword is the name of the branch kind returned |
| Branching.BranchOfName | src/code_generator/branching.rs:25-54 | `label`, `goto` and `if-goto` are recognised |
| Branching.BranchBlock | src/code_generator/branching.rs:9-61 | the block exists exactly for the three keywords; without debug mode every line is an instruction |
| Branching.BranchBlockCode | src/code_generator/branching.rs:24-54 | the block denotes `(X)`, `@X 0;JMP`, or `pop general 13` then `@13 D = M @X D;JNE` |
| Branching.LabelText | src/code_generator/branching.rs:26-28 | `label X` renders as `(X)` |
| Branching.GotoText | src/code_generator/branching.rs:29-32 | `goto X` renders as `@X`, `0;JMP` |
| Branching.IfGotoText | src/code_generator/branching.rs:33-46 | `if-goto X` renders as the pop into RAM[13] then `@13`, `D = M`, `@X`, `D;JNE` |
| Branching.BranchIgnoresFile | src/code_generator/branching.rs:9-61 | the file name does not change a branching block |
| Branching.BranchDecls | src/code_generator/branching.rs:24-54 | only `label X` declares a label, and it declares `X` |
| Branching.BranchPadding | src/code_generator/branching.rs:55-59 | in debug mode every line is the unpadded line with `padding` spaces in front; otherwise padding changes nothing |
| BranchingSemantics.LabelRun | src/code_generator/branching.rs:26-28 | `(X)` changes nothing but the program counter |
| BranchingSemantics.GotoRun | src/code_generator/branching.rs:29-32 | `goto X` jumps to X's address and changes no cell |
| BranchingSemantics.IfGotoRun | src/code_generator/branching.rs:33-46 | `if-goto X` pops the condition into RAM[13] and jumps to X exactly when it is not zero, otherwise falls through |
| BranchingSemantics.GotoLandsOnLabel | src/code_generator/branching.rs:29-32 | with the assembler's table, `goto X` lands on the first `(X)` of the program |
| BranchingSemantics.IfGotoLandsOnLabel | src/code_generator/branching.rs:33-46 | `if-goto X` lands on the first `(X)` exactly when the popped word is not zero |
| Function.FunctionDefCode | src/code_generator/function.rs:21-42 | `function f n` denotes `(f)` followed by `n` pushes of 0 |
| Function.FunctionDefDecls | src/code_generator/function.rs:28 | `function f n` declares exactly `f` |
| Function.FunctionCallSpec | src/code_generator/function.rs:45-165 | a call advances the counter, denotes the call program whose return label uses the new counter, and ends with `(f_ret_k)` |
| Function.CallLinesCode | src/code_generator/function.rs:56-162 | the call lines denote: push the return address, push LCL, ARG, THIS and THAT, set ARG and LCL, `goto f`, `(f_ret_k)` |
| Function.CallDecls | src/code_generator/function.rs:162 | a call declares only its return label, and as its last instruction |
| Function.ReturnLabelShape | src/code_generator/function.rs:56 | a return label is the function name, `_ret_` and the counter's digits |
| Function.ReturnLabelInjective | src/code_generator/function.rs:56 | return labels are equal exactly when name and counter are |
| Function.CounterFreeCode | src/code_generator/function.rs:121-127 | the counter handed to `sub`/`add` does not change their program |
| Function.FunctionReturnSpec | src/code_generator/function.rs:167-376 | a return advances the counter and denotes the return program whatever the debug mode |
| Function.RestoreLinesCode | src/code_generator/function.rs:293-348 | each round of the restoring loop denotes: push RAM[10], push n, `sub`, replace the top by the word it points to, pop into RAM[5-n] |
| Function.ReturnDecls | src/code_generator/function.rs:167-376 | a return declares no label |
| FrameRam.CallRam | src/code_generator/function.rs:58-153 | the call's straight-line part leaves the return address and the caller's LCL, ARG, THIS and THAT at SP..SP+4, ARG = SP - n, LCL = SP + 5, and changes only RAM[13], RAM[14] and two cells above the new top |
| FrameRam.ReturnRam | src/code_generator/function.rs:176-369 | the return's straight-line part puts the callee's top word at ARG, sets SP to ARG + 1, restores LCL, ARG, THIS and THAT from the frame and keeps the return address in RAM[11] |
| FrameRam.CallThenReturn | src/code_generator/function.rs:45-376 | after a call and a callee that keeps to its frame, the return finds its frame in range and the call's return address, and restores the caller |
| FunctionSemantics.SaveFrameExec | src/code_generator/function.rs:58-100 | the pushes of a call save the return address and the four registers |
| FunctionSemantics.SetArgExec | src/code_generator/function.rs:102-135 | ARG becomes SP - (n + 5) |
| FunctionSemantics.SetLclExec | src/code_generator/function.rs:137-153 | LCL becomes SP |
| FunctionSemantics.CallRun | src/code_generator/function.rs:45-161 | running a call up to its `goto` builds the call frame and lands on the table's address of `f` |
| FunctionSemantics.CallLands | src/code_generator/function.rs:155-162 | with the assembler's table, the call lands on the first `(f)` and the return address saved is the slot of `(f_ret_k)` |
| FunctionSemantics.StashExec | src/code_generator/function.rs:176-221 | the return address `*(LCL - 5)` is read into RAM[11] before anything is overwritten |
| FunctionSemantics.ReturnValueExec | src/code_generator/function.rs:243-251 | the callee's top word is popped to `*ARG` |
| FunctionSemantics.NewSpExec | src/code_generator/function.rs:253-290 | RAM[12] becomes ARG + 1 |
| FunctionSemantics.RestoreExec | src/code_generator/function.rs:299-347 | round n of the loop sets RAM[5-n] to `*(endFrame - n)` |
| FunctionSemantics.RestoreAllExec | src/code_generator/function.rs:292-348 | the loop restores THAT, THIS, ARG and LCL from the four words below the end of the frame |
| FunctionSemantics.ReturnBodyExec | src/code_generator/function.rs:176-373 | the straight-line part of a return leaves the return frame and A holding `*(LCL - 5)` |
| FunctionSemantics.ReturnRun | src/code_generator/function.rs:167-376 | running a whole return jumps to the saved return address and leaves the return frame |
| FunctionSemantics.CallReturnRoundTrip | src/code_generator/function.rs:45-376 | after `call f n` and a callee that keeps to its frame, `return` lands on `(f_ret_k)` with the caller's LCL, ARG, THIS and THAT, SP one above ARG, the callee's top word in place of the arguments and the caller's stack below them unchanged |
| CodeGenerator.TablesAgree | src/code_generator.rs:32-40 | the three tables of `new` name exactly the operations, the two memory commands and the nine VM segments, so the generator's `SP` key never reaches it from a line |
| CodeGenerator.ParseWords | src/code_generator.rs:108-163 | the words are a command exactly when they are one operation name alone, or `push`/`pop`, a segment and digits; the command returned carries those words |
| CodeGenerator.ParseLine | src/code_generator.rs:98-105 | a line yields nothing exactly when it is blank or starts with `//` |
| CodeGenerator.ParseCommandText | src/code_generator.rs:103-149 | the text of any command parses back to that command |
| CodeGenerator.LeadingSpaceRejected | src/code_generator.rs:105-163 | a non-blank line starting with a space is rejected: its first word is empty |
| CodeGenerator.ExtraWordAfterOperation | src/code_generator.rs:111-114 | an operation followed by anything is the fatal "more than one word" error |
| CodeGenerator.ExtraMemoryWordsIgnored | src/code_generator.rs:127-157 | words after the index of a memory command are ignored |
| CodeGenerator.BlockAccepts | src/code_generator.rs:121-157 | a command's block exists exactly when it is emittable; `pop constant` fails with the private copy's message |
| CodeGenerator.EmitAccepts | src/code_generator.rs:116-159 | the same holds after the debug note |
| CodeGenerator.TranslateLineAccepts | src/code_generator.rs:93-164 | a line translates exactly when it is skipped or is an emittable command; a skipped line gives nothing |
| CodeGenerator.EmitDebugNote | src/code_generator.rs:116-119 | debug mode adds exactly one element, `"\n// " + command`, before the block |
| CodeGenerator.DebugAddsNoteOnly | src/code_generator.rs:116-154 | debug mode accepts the same lines and denotes the same program, with at most one extra element |
| CodeGenerator.TranslateLineCode | src/code_generator.rs:121-157 | a line of an emittable command denotes that command's program |
| CodeGenerator.PopConstantFails | src/code_generator.rs:328-331 | `pop constant i` fails with "Cannot use pop with `constant`." |
| CodeGenerator.ComparisonLabels | src/code_generator.rs:121-122 | every comparison line declares `(true_expression1)` and `(false_expression1)` |
| CodeGenerator.RepeatedComparisonLabels | src/code_generator.rs:46 | two comparison lines declare the same labels twice |
| CodeGenerator.TranslateLinesAppend | src/code_generator.rs:93-164 | translating two runs of lines is translating each and appending |
| CodeGenerator.TranslateLinesOk | src/code_generator.rs:93-164 | a file translates exactly when every one of its lines does |

## Left out

- I/O is not modelled: opening and reading files, `write_to_file`, `CODE_BUFFER_LIMIT` flushing, printing the output path and `search_vm_files`. These are effects, and the generated text does not depend on them. `TranslateFile` takes the file's contents as a string.
- `main.rs` is not part of this model: argument handling, choosing File or Dir, and the program's start-up.
- A panic is modelled as a `Fatal` result. The model drops what the program printed before panicking, such as a debug note already in the buffer.
- `DEFAULT_PADDING` is defined outside the files modelled. It is an unspecified constant, `Hack.DefaultPadding`.
- `Strings.ParseNat`: Rust's `usize` parsing also accepts a leading `+` and fails above `usize::MAX`. The model accepts digits only, with no upper bound.
- `5 + mem_index`, `n_args + 5` and the counters are unbounded naturals: `usize` overflow is not modelled. Indices that do not fit in 16 bits are taken modulo 2^16 by the machine, as the Hack assembler's `@n` would not accept them.
- `MemorySemantics.PushPopRoundTrip`: `SP` is left out of the round trip because the source's push and pop on `SP` do not form one. `MemorySemantics.StackPointerPushPop` states what they do instead.
- `Utils.Components`: paths are Unix paths in string form. Windows prefixes and separators, and non-UTF-8 names, are left out.
- The file name of static symbols is `file_name()` with `.vm` trimmed. Directory parts are assumed to be already removed.
- The Hack machine is modelled at the assembly level:
  - labels occupy a no-op slot instead of being removed by the assembler;
  - the symbol table is a map assumed to agree with the reference resolver;
  - variables (`@foo` without a label) are part of that table;
  - screen, keyboard and the ALU's flag-level encoding are not modelled.
- Semantic lemmas hold under range conditions the source assumes of VM programs: the stack lies between 16 and 65535, and segment addresses fit in a word. `pop pointer` is proved separately from the other pops because it writes D.
- `ArithmeticSemantics.ArithSemantics`: `gt` and `lt` compare by subtracting 16-bit words. The result equals the VM's signed comparison only when the difference does not overflow, so the lemma states the VM meaning under `NoOverflow`. `ArithmeticSemantics.GtOverflows` shows a case where it fails.
- `FunctionSemantics.CallReturnRoundTrip`: the callee is modelled only by what it must preserve (`CalleeKept`): its frame, LCL, ARG and the caller's stack. Its own instructions are not modelled.
- The debug-mode layout of the function generators (each inner block decorated with `DEFAULT_PADDING`) is modelled, but rendering is proved only for the memory and branching generators. For the function generators, the program they denote is proved whatever the debug mode.
