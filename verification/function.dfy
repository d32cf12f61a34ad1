/** The function translator of `src/code_generator/function.rs`:
    `function f n` declares `(f)` and pushes `n` zeros, `call f n` saves the
    caller's frame and jumps to `f`, and `return` restores the caller's frame
    from the one `call` saved. All three are assembled from memory,
    arithmetic and branching blocks, each decorated on its own in debug mode
    with the default padding. RAM[10], RAM[11] and RAM[12] are the
    translator's own scratch cells. */
module Function {
  import opened Wrappers
  import opened Strings
  import opened Hack
  import opened Memory
  import opened Arithmetic
  import opened Branching

  /** `TEMP_X`: the end of the callee's frame, i.e. its LCL. */
  const EndFrameCell: nat := 10
  /** `TEMP_Y`: the return address. */
  const ReturnCell: nat := 11
  /** `TEMP_Z`: the caller's stack pointer after the return. */
  const NewSpCell: nat := 12

  // -----------------------------------------------------------------------
  // The blocks the generators are built from
  // -----------------------------------------------------------------------

  function PushGeneral(i: nat, file: string, debug: bool): seq<Line> {
    MemBlock("push", "general", i, file, debug, DefaultPadding).value
  }

  function PopGeneral(i: nat, file: string, debug: bool): seq<Line> {
    MemBlock("pop", "general", i, file, debug, DefaultPadding).value
  }

  function PushConstant(c: nat, file: string, debug: bool): seq<Line> {
    MemBlock("push", "constant", c, file, debug, DefaultPadding).value
  }

  function ArithLines(op: ArithOp, file: string, counter: nat, debug: bool): seq<Line> {
    OpOfName(op);
    ArithBlock(OpName(op), file, counter, debug, DefaultPadding).value
  }

  /** The template of `push constant c`. */
  function PushValue(c: nat): seq<Asm> {
    [At(Num(c)), Op(DFromA)] + PushD()
  }

  /** `@ret`, `D = A` and a push of D whose increment is spelled `M = M+1`. */
  function PushReturnAddress(ret: string): seq<Asm> {
    [At(Sym(ret)), Op(DFromA), At(Num(SP)), Op(AFromM), Op(MFromD), At(Num(SP)), Op(MFromMPlusOne(true))]
  }

  /** The label a call returns to: `<name>_ret_<k>`. */
  function ReturnLabel(name: string, k: nat): string {
    name + "_ret_" + NatToString(k)
  }

  // -----------------------------------------------------------------------
  // function f n
  // -----------------------------------------------------------------------

  /** `n` blocks of `push constant 0`. */
  function Locals(n: nat, file: string, debug: bool): seq<Line> {
    if n == 0 then [] else Locals(n - 1, file, debug) + PushConstant(0, file, debug)
  }

  /** `generate_function_def(function_name, n_vars, filename,
      is_debug_option)`. */
  function FunctionDef(name: string, nVars: nat, file: string, debug: bool): seq<Line> {
    [Instr(Decl(name))] + Locals(nVars, file, debug)
  }

  /** `n` copies of a program. */
  function Repeat(n: nat, code: seq<Asm>): (r: seq<Asm>)
    ensures |r| == n * |code|
  {
    if n == 0 then [] else Repeat(n - 1, code) + code
  }

  // -----------------------------------------------------------------------
  // call f n
  // -----------------------------------------------------------------------

  /** Pushes the return address, then LCL, ARG, THIS and THAT. */
  function SaveFrameLines(ret: string, file: string, debug: bool): seq<Line> {
    Instrs(PushReturnAddress(ret))
      + PushGeneral(1, file, debug) + PushGeneral(2, file, debug)
      + PushGeneral(3, file, debug) + PushGeneral(4, file, debug)
  }

  /** `ARG = SP - (n + 5)` through the stack. */
  function SetArgLines(nArgs: nat, file: string, counter: nat, debug: bool): seq<Line> {
    PushGeneral(SP, file, debug) + PushConstant(nArgs + 5, file, debug)
      + ArithLines(Sub, file, counter, debug) + PopGeneral(2, file, debug)
  }

  /** `LCL = SP` through the stack. */
  function SetLclLines(file: string, debug: bool): seq<Line> {
    PushGeneral(SP, file, debug) + PopGeneral(1, file, debug)
  }

  /** The lines of `call f n` whose return label is numbered `k`. */
  function CallLines(name: string, nArgs: nat, file: string, k: nat, debug: bool): seq<Line> {
    var ret := ReturnLabel(name, k);
    SaveFrameLines(ret, file, debug) + SetArgLines(nArgs, file, k, debug) + SetLclLines(file, debug)
      + GotoLines(name, file, debug) + [Instr(Decl(ret))]
  }

  function GotoLines(name: string, file: string, debug: bool): seq<Line> {
    BranchBlock("goto", name, file, debug, DefaultPadding).value
  }

  /** `generate_function_call(function_name, n_args, filename,
      jump_counter_ref, is_debug_option)`: the lines and the advanced
      counter, which numbers the return label. */
  function FunctionCall(name: string, nArgs: nat, file: string, counter: nat, debug: bool): (r: (seq<Line>, nat))
    ensures r.1 == counter + 1
  {
    (CallLines(name, nArgs, file, counter + 1, debug), counter + 1)
  }

  // -----------------------------------------------------------------------
  // return
  // -----------------------------------------------------------------------

  /** `@11`, `A = M`, `D = M`, `@11`, `M = D`: replaces the address in
      RAM[11] by the word it points to. */
  function FetchReturn(): seq<Asm> {
    [At(Num(ReturnCell)), Op(AFromM), Op(DFromM), At(Num(ReturnCell)), Op(MFromD)]
  }

  /** Replaces the stack top, an address, by the word it points to. */
  function FetchSaved(): seq<Asm> {
    [At(Num(SP)), Op(AFromMMinusOne(false)), Op(AFromM), Op(DFromM),
     At(Num(SP)), Op(AFromMMinusOne(true)), Op(MFromD)]
  }

  /** `@11`, `A = M`, `0; JMP`. */
  function JumpBack(): seq<Asm> {
    [At(Num(ReturnCell)), Op(AFromM), Op(Jump(true))]
  }

  /** `RAM[11] = RAM[LCL - 5]`. */
  function ReturnAddressLines(file: string, counter: nat, debug: bool): seq<Line> {
    PushGeneral(1, file, debug) + PushConstant(5, file, debug) + ArithLines(Sub, file, counter, debug)
      + PopGeneral(ReturnCell, file, debug) + Instrs(FetchReturn())
  }

  /** `RAM[10] = LCL`. */
  function EndFrameLines(file: string, debug: bool): seq<Line> {
    PushGeneral(1, file, debug) + PopGeneral(EndFrameCell, file, debug)
  }

  /** `pop argument 0`: the return value into the caller's stack top. */
  function ReturnValueLines(file: string, debug: bool): seq<Line> {
    MemBlock("pop", "argument", 0, file, debug, DefaultPadding).value
  }

  /** `RAM[12] = ARG + 1`. */
  function NewSpLines(file: string, counter: nat, debug: bool): seq<Line> {
    PushGeneral(2, file, debug) + PushConstant(1, file, debug) + ArithLines(Add, file, counter, debug)
      + PopGeneral(NewSpCell, file, debug)
  }

  /** One round of the restoring loop: `RAM[5 - n] = RAM[RAM[10] - n]`, with
      an unpadded blank line and comment first in debug mode. */
  function RestoreLines(n: nat, file: string, counter: nat, debug: bool): seq<Line>
    requires 1 <= n <= 4
  {
    RestoreNote(n, debug)
      + PushGeneral(EndFrameCell, file, debug) + PushConstant(n, file, debug)
      + ArithLines(Sub, file, counter, debug) + Instrs(FetchSaved()) + PopGeneral(5 - n, file, debug)
  }

  function RestoreNote(n: nat, debug: bool): seq<Line> {
    if debug then [Blank, Comment("// restoring *(addr - " + NatToString(n) + ")")] else []
  }

  /** `SP = RAM[12]`, then the jump to RAM[11]. */
  function FinishLines(file: string, debug: bool): seq<Line> {
    PushGeneral(NewSpCell, file, debug) + PopGeneral(SP, file, debug) + Instrs(JumpBack())
  }

  /** The lines of `return`; the arithmetic blocks see counter `k`. */
  function ReturnLines(file: string, k: nat, debug: bool): seq<Line> {
    UnwindLines(file, k, debug) + RestoreAllLines(file, k, debug) + FinishLines(file, debug)
  }

  function UnwindLines(file: string, k: nat, debug: bool): seq<Line> {
    ReturnAddressLines(file, k, debug) + EndFrameLines(file, debug) + ReturnValueLines(file, debug)
      + NewSpLines(file, k, debug)
  }

  /** The restoring loop, unrolled: `n` runs from 1 to 4. */
  function RestoreAllLines(file: string, k: nat, debug: bool): seq<Line> {
    RestoreLines(1, file, k, debug) + RestoreLines(2, file, k, debug)
      + RestoreLines(3, file, k, debug) + RestoreLines(4, file, k, debug)
  }

  /** `generate_function_return(filename, jump_counter_ref,
      is_debug_option)`: the lines and the advanced counter. */
  function FunctionReturn(file: string, counter: nat, debug: bool): (r: (seq<Line>, nat))
    ensures r.1 == counter + 1
  {
    (ReturnLines(file, counter + 1, debug), counter + 1)
  }

  // -----------------------------------------------------------------------
  // The programs the blocks denote
  // -----------------------------------------------------------------------

  /** The program of `call f n` once the assembler has dropped comments and
      padding, with the return label numbered `k`. */
  function SaveFrameCode(ret: string): seq<Asm> {
    PushReturnAddress(ret) + PushCell(1) + PushCell(2) + PushCell(3) + PushCell(4)
  }

  function SetArgCode(nArgs: nat): seq<Asm> {
    PushCell(SP) + PushValue(nArgs + 5) + ArithCode(Sub, 0) + PopCell(2)
  }

  function SetLclCode(): seq<Asm> {
    PushCell(SP) + PopCell(1)
  }

  /** The straight-line part of a call, before the jump. */
  function CallBodyCode(ret: string, nArgs: nat): seq<Asm> {
    SaveFrameCode(ret) + SetArgCode(nArgs) + SetLclCode()
  }

  function CallCode(name: string, nArgs: nat, k: nat): seq<Asm> {
    CallBodyCode(ReturnLabel(name, k), nArgs) + BranchCode(Goto, name) + [Decl(ReturnLabel(name, k))]
  }

  /** The program of `return`. */
  function ReturnAddressCode(): seq<Asm> {
    PushCell(1) + PushValue(5) + ArithCode(Sub, 0) + PopCell(ReturnCell) + FetchReturn()
  }

  function EndFrameCode(): seq<Asm> {
    PushCell(1) + PopCell(EndFrameCell)
  }

  function ReturnValueCode(): seq<Asm> {
    ComputeAddress(Argument, 0) + PopD() + StoreIndirect()
  }

  function NewSpCode(): seq<Asm> {
    PushCell(2) + PushValue(1) + ArithCode(Add, 0) + PopCell(NewSpCell)
  }

  function RestoreCode(n: nat): seq<Asm>
    requires 1 <= n <= 4
  {
    PushCell(EndFrameCell) + PushValue(n) + ArithCode(Sub, 0) + FetchSaved() + PopCell(5 - n)
  }

  /** `SP = RAM[12]` and `A = RAM[11]`: everything of the finish but the
      jump. */
  function DropFrameCode(): seq<Asm> {
    PushCell(NewSpCell) + PopCell(SP) + [At(Num(ReturnCell)), Op(AFromM)]
  }

  function UnwindCode(): seq<Asm> {
    ReturnAddressCode() + EndFrameCode() + ReturnValueCode() + NewSpCode()
  }

  function RestoreAllCode(): seq<Asm> {
    RestoreCode(1) + RestoreCode(2) + RestoreCode(3) + RestoreCode(4)
  }

  /** The straight-line part of a return, before the jump. */
  function ReturnBodyCode(): seq<Asm> {
    UnwindCode() + RestoreAllCode() + DropFrameCode()
  }

  function ReturnCode(): seq<Asm> {
    ReturnBodyCode() + [Op(Jump(true))]
  }

  // -----------------------------------------------------------------------
  // Block-level facts
  // -----------------------------------------------------------------------

  /** `push constant c` denotes `@c`, `D = A` and the push tail. */
  lemma PushConstantCode(c: nat, file: string, debug: bool)
    ensures Code(PushConstant(c, file, debug)) == PushValue(c)
  {
    PushConstantBlock(c, file, debug, DefaultPadding);
    CodeAnnotate(debug, DefaultPadding, MemComment("push", "constant", c), Instrs(PushValue(c)));
    CodeInstrs(PushValue(c));
  }

  /** Operations without labels denote the same program whatever the
      counter. */
  lemma CounterFreeCode(op: ArithOp, k: nat)
    requires !IsComparison(op)
    ensures ArithCode(op, k) == ArithCode(op, 0)
  {
  }

  lemma ArithLinesCode(op: ArithOp, file: string, counter: nat, debug: bool)
    requires !IsComparison(op)
    ensures Code(ArithLines(op, file, counter, debug)) == ArithCode(op, 0)
  {
    OpOfName(op);
    ArithBlockCode(OpName(op), file, counter, debug, DefaultPadding);
    CounterFreeCode(op, counter + 1);
  }

  // -----------------------------------------------------------------------
  // The generated lines denote the programs
  // -----------------------------------------------------------------------

  lemma {:induction false} LocalsCode(n: nat, file: string, debug: bool)
    ensures Code(Locals(n, file, debug)) == Repeat(n, PushValue(0))
  {
    if n > 0 {
      LocalsCode(n - 1, file, debug);
      CodeAppend(Locals(n - 1, file, debug), PushConstant(0, file, debug));
      PushConstantCode(0, file, debug);
    }
  }

  /** `function f n` is the label `(f)` followed by `n` pushes of 0. */
  lemma FunctionDefCode(name: string, nVars: nat, file: string, debug: bool)
    ensures Code(FunctionDef(name, nVars, file, debug)) == [Decl(name)] + Repeat(nVars, PushValue(0))
  {
    CodeAppend([Instr(Decl(name))], Locals(nVars, file, debug));
    LocalsCode(nVars, file, debug);
    assert Code([Instr(Decl(name))]) == [Decl(name)];
  }

  lemma SaveFrameLinesCode(ret: string, file: string, debug: bool)
    ensures Code(SaveFrameLines(ret, file, debug)) == SaveFrameCode(ret)
  {
    var a := Instrs(PushReturnAddress(ret));
    var p1, p2, p3, p4 := PushGeneral(1, file, debug), PushGeneral(2, file, debug),
                          PushGeneral(3, file, debug), PushGeneral(4, file, debug);
    CodeInstrs(PushReturnAddress(ret));
    GeneralCode(1, file, debug);
    GeneralCode(2, file, debug);
    GeneralCode(3, file, debug);
    GeneralCode(4, file, debug);
    CodeFive(a, p1, p2, p3, p4);
  }

  lemma SetArgLinesCode(nArgs: nat, file: string, counter: nat, debug: bool)
    ensures Code(SetArgLines(nArgs, file, counter, debug)) == SetArgCode(nArgs)
  {
    var a, b := PushGeneral(SP, file, debug), PushConstant(nArgs + 5, file, debug);
    var c, d := ArithLines(Sub, file, counter, debug), PopGeneral(2, file, debug);
    GeneralCode(SP, file, debug);
    GeneralCode(2, file, debug);
    PushConstantCode(nArgs + 5, file, debug);
    ArithLinesCode(Sub, file, counter, debug);
    CodeFour(a, b, c, d);
  }

  lemma SetLclLinesCode(file: string, debug: bool)
    ensures Code(SetLclLines(file, debug)) == SetLclCode()
  {
    GeneralCode(SP, file, debug);
    GeneralCode(1, file, debug);
    CodeAppend(PushGeneral(SP, file, debug), PopGeneral(1, file, debug));
  }

  lemma GotoLinesCode(name: string, file: string, debug: bool)
    ensures Code(GotoLines(name, file, debug)) == BranchCode(Goto, name)
  {
    BranchBlockCode("goto", name, file, debug, DefaultPadding);
  }

  /** The lines of `call f n` denote `CallCode`, whatever the debug
      settings. */
  lemma CallLinesCode(name: string, nArgs: nat, file: string, k: nat, debug: bool)
    ensures Code(CallLines(name, nArgs, file, k, debug)) == CallCode(name, nArgs, k)
  {
    var ret := ReturnLabel(name, k);
    var a, b, c := SaveFrameLines(ret, file, debug), SetArgLines(nArgs, file, k, debug), SetLclLines(file, debug);
    var d, e := GotoLines(name, file, debug), [Instr(Decl(ret))];
    SaveFrameLinesCode(ret, file, debug);
    SetArgLinesCode(nArgs, file, k, debug);
    SetLclLinesCode(file, debug);
    GotoLinesCode(name, file, debug);
    assert Code(e) == [Decl(ret)];
    CodeFive(a, b, c, d, e);
  }

  lemma ReturnAddressLinesCode(file: string, counter: nat, debug: bool)
    ensures Code(ReturnAddressLines(file, counter, debug)) == ReturnAddressCode()
  {
    var a, b := PushGeneral(1, file, debug), PushConstant(5, file, debug);
    var c, d := ArithLines(Sub, file, counter, debug), PopGeneral(ReturnCell, file, debug);
    var e := Instrs(FetchReturn());
    GeneralCode(1, file, debug);
    GeneralCode(ReturnCell, file, debug);
    PushConstantCode(5, file, debug);
    ArithLinesCode(Sub, file, counter, debug);
    CodeInstrs(FetchReturn());
    CodeFive(a, b, c, d, e);
  }

  lemma EndFrameLinesCode(file: string, debug: bool)
    ensures Code(EndFrameLines(file, debug)) == EndFrameCode()
  {
    GeneralCode(1, file, debug);
    GeneralCode(EndFrameCell, file, debug);
    CodeAppend(PushGeneral(1, file, debug), PopGeneral(EndFrameCell, file, debug));
  }

  lemma ReturnValueLinesCode(file: string, debug: bool)
    ensures Code(ReturnValueLines(file, debug)) == ReturnValueCode()
  {
    MemBlockCode("pop", "argument", 0, file, debug, DefaultPadding);
  }

  lemma NewSpLinesCode(file: string, counter: nat, debug: bool)
    ensures Code(NewSpLines(file, counter, debug)) == NewSpCode()
  {
    var a, b := PushGeneral(2, file, debug), PushConstant(1, file, debug);
    var c, d := ArithLines(Add, file, counter, debug), PopGeneral(NewSpCell, file, debug);
    GeneralCode(2, file, debug);
    GeneralCode(NewSpCell, file, debug);
    PushConstantCode(1, file, debug);
    ArithLinesCode(Add, file, counter, debug);
    CodeFour(a, b, c, d);
  }

  lemma RestoreLinesCode(n: nat, file: string, counter: nat, debug: bool)
    requires 1 <= n <= 4
    ensures Code(RestoreLines(n, file, counter, debug)) == RestoreCode(n)
  {
    var head := RestoreNote(n, debug);
    var a, b := PushGeneral(EndFrameCell, file, debug), PushConstant(n, file, debug);
    var c, d, e := ArithLines(Sub, file, counter, debug), Instrs(FetchSaved()), PopGeneral(5 - n, file, debug);
    RestoreNoteCode(n, debug);
    RestoreBodyCode(n, a, b, c, d, e, file, counter, debug);
    CodeAfterNote(head, a, b, c, d, e);
  }

  lemma CodeAfterNote(head: seq<Line>, a: seq<Line>, b: seq<Line>, c: seq<Line>, d: seq<Line>, e: seq<Line>)
    requires Code(head) == []
    ensures Code(head + a + b + c + d + e) == Code(a + b + c + d + e)
  {
    CodeAppend(head, a + b + c + d + e);
    assert head + a + b + c + d + e == head + (a + b + c + d + e);
  }

  lemma RestoreNoteCode(n: nat, debug: bool)
    ensures Code(RestoreNote(n, debug)) == []
  {
    if debug {
      var note := RestoreNote(n, debug);
      assert note[1..][1..] == [];
      assert Code(note[1..]) == Strip(note[1]) + Code(note[1..][1..]);
    }
  }

  lemma RestoreBodyCode(n: nat, a: seq<Line>, b: seq<Line>, c: seq<Line>, d: seq<Line>, e: seq<Line>, file: string, counter: nat, debug: bool)
    requires 1 <= n <= 4
    requires a == PushGeneral(EndFrameCell, file, debug) && b == PushConstant(n, file, debug)
    requires c == ArithLines(Sub, file, counter, debug) && d == Instrs(FetchSaved()) && e == PopGeneral(5 - n, file, debug)
    ensures Code(a + b + c + d + e) == RestoreCode(n)
  {
    GeneralCode(EndFrameCell, file, debug);
    GeneralCode(5 - n, file, debug);
    PushConstantCode(n, file, debug);
    ArithLinesCode(Sub, file, counter, debug);
    CodeInstrs(FetchSaved());
    CodeFive(a, b, c, d, e);
  }

  lemma FinishLinesCode(file: string, debug: bool)
    ensures Code(FinishLines(file, debug)) == DropFrameCode() + [Op(Jump(true))]
  {
    var a, b, c := PushGeneral(NewSpCell, file, debug), PopGeneral(SP, file, debug), Instrs(JumpBack());
    GeneralCode(NewSpCell, file, debug);
    GeneralCode(SP, file, debug);
    CodeInstrs(JumpBack());
    CodeAppend(a, b);
    CodeAppend(a + b, c);
  }

  lemma UnwindLinesCode(file: string, k: nat, debug: bool)
    ensures Code(UnwindLines(file, k, debug)) == UnwindCode()
  {
    var a, b, c, d := ReturnAddressLines(file, k, debug), EndFrameLines(file, debug), ReturnValueLines(file, debug), NewSpLines(file, k, debug);
    ReturnAddressLinesCode(file, k, debug);
    EndFrameLinesCode(file, debug);
    ReturnValueLinesCode(file, debug);
    NewSpLinesCode(file, k, debug);
    CodeFour(a, b, c, d);
  }

  lemma RestoreAllLinesCode(file: string, k: nat, debug: bool)
    ensures Code(RestoreAllLines(file, k, debug)) == RestoreAllCode()
  {
    var r1, r2, r3, r4 := RestoreLines(1, file, k, debug), RestoreLines(2, file, k, debug), RestoreLines(3, file, k, debug), RestoreLines(4, file, k, debug);
    RestoreLinesCode(1, file, k, debug);
    RestoreLinesCode(2, file, k, debug);
    RestoreLinesCode(3, file, k, debug);
    RestoreLinesCode(4, file, k, debug);
    CodeFour(r1, r2, r3, r4);
  }

  /** The lines of `return` denote `ReturnCode`, whatever the debug
      settings and the counter. */
  lemma ReturnLinesCode(file: string, k: nat, debug: bool)
    ensures Code(ReturnLines(file, k, debug)) == ReturnCode()
  {
    UnwindLinesCode(file, k, debug);
    RestoreAllLinesCode(file, k, debug);
    FinishLinesCode(file, debug);
    CodeOfThree(UnwindLines(file, k, debug), RestoreAllLines(file, k, debug), FinishLines(file, debug),
      UnwindCode(), RestoreAllCode(), DropFrameCode() + [Op(Jump(true))]);
    AppendLast(UnwindCode() + RestoreAllCode(), DropFrameCode(), Op(Jump(true)));
  }

  lemma AppendLast<T>(a: seq<T>, b: seq<T>, x: T)
    ensures a + (b + [x]) == a + b + [x]
  {
  }

  lemma CodeOfThree(a: seq<Line>, b: seq<Line>, c: seq<Line>, x: seq<Asm>, y: seq<Asm>, z: seq<Asm>)
    requires Code(a) == x && Code(b) == y && Code(c) == z
    ensures Code(a + b + c) == x + y + z
  {
    CodeAppend(a, b);
    CodeAppend(a + b, c);
  }

  // -----------------------------------------------------------------------
  // What the generators promise
  // -----------------------------------------------------------------------

  /** A call advances the counter by one, denotes `CallCode` numbered by
      the advanced counter, and its last line declares that return label. */
  lemma FunctionCallSpec(name: string, nArgs: nat, file: string, counter: nat, debug: bool)
    ensures var (lines, next) := FunctionCall(name, nArgs, file, counter, debug);
            && next == counter + 1
            && Code(lines) == CallCode(name, nArgs, next)
            && |lines| > 0 && lines[|lines| - 1] == Instr(Decl(ReturnLabel(name, next)))
  {
    CallLinesCode(name, nArgs, file, counter + 1, debug);
  }

  /** A return advances the counter by one, but what it denotes does not
      depend on the counter. */
  lemma FunctionReturnSpec(file: string, counter: nat, debug: bool)
    ensures var (lines, next) := FunctionReturn(file, counter, debug);
            next == counter + 1 && Code(lines) == ReturnCode()
  {
    ReturnLinesCode(file, counter + 1, debug);
  }

  /** A return label is the name, `_ret_`, and then only digits. */
  lemma ReturnLabelShape(f: string, j: nat)
    ensures var r := ReturnLabel(f, j);
            && |r| > |f| + 5 && r[..|f|] == f && r[|f| + 4] == '_' && r[|f| + 5..] == NatToString(j)
            && forall i :: |f| + 5 <= i < |r| ==> IsDigit(r[i])
  {
    var r := ReturnLabel(f, j);
    forall i | |f| + 5 <= i < |r|
      ensures IsDigit(r[i])
    {
      assert r[i] == NatToString(j)[i - |f| - 5];
    }
  }

  /** Two return labels are the same exactly when both the function names
      and the numbers are: the number is all digits, so the last `_` sits
      right after the name's `_ret`. */
  lemma ReturnLabelInjective(f: string, j: nat, g: string, k: nat)
    ensures ReturnLabel(f, j) == ReturnLabel(g, k) <==> f == g && j == k
  {
    var a, b := ReturnLabel(f, j), ReturnLabel(g, k);
    ReturnLabelShape(f, j);
    ReturnLabelShape(g, k);
    if a == b {
      assert f == g;
      NatToStringInjective(j, k);
    }
  }

  lemma JoinNoDecls(a: seq<Asm>, b: seq<Asm>)
    requires Decls(a) == [] && Decls(b) == []
    ensures Decls(a + b) == []
  {
    DeclsAppend(a, b);
  }

  lemma CellDecls(i: nat, c: nat)
    ensures Decls(PushCell(i)) == [] && Decls(PopCell(i)) == [] && Decls(PushValue(c)) == []
  {
    NoDeclsWithoutDecl(PushCell(i));
    NoDeclsWithoutDecl(PopCell(i));
    NoDeclsWithoutDecl(PushValue(c));
  }

  /** The blocks a call and a return are made of declare no label. */
  lemma PairDecls(op: ArithOp, i: nat, c: nat, tail: seq<Asm>)
    requires (op == Add || op == Sub) && Decls(tail) == []
    ensures Decls(PushCell(i) + PushValue(c) + ArithCode(op, 0) + tail) == []
  {
    CellDecls(i, c);
    ArithLabels(op, 0);
    JoinNoDecls(PushCell(i), PushValue(c));
    JoinNoDecls(PushCell(i) + PushValue(c), ArithCode(op, 0));
    JoinNoDecls(PushCell(i) + PushValue(c) + ArithCode(op, 0), tail);
  }

  lemma CallBodyDecls(ret: string, nArgs: nat)
    ensures Decls(CallBodyCode(ret, nArgs)) == []
  {
    NoDeclsWithoutDecl(SaveFrameCode(ret));
    CellDecls(2, 0);
    PairDecls(Sub, SP, nArgs + 5, PopCell(2));
    NoDeclsWithoutDecl(SetLclCode());
    JoinNoDecls(SaveFrameCode(ret), SetArgCode(nArgs));
    JoinNoDecls(SaveFrameCode(ret) + SetArgCode(nArgs), SetLclCode());
  }

  /** A call declares one label, its return label, as its last
      instruction. */
  lemma CallDecls(name: string, nArgs: nat, k: nat)
    ensures Decls(CallCode(name, nArgs, k)) == [ReturnLabel(name, k)]
    ensures var code := CallCode(name, nArgs, k);
            code[|code| - 1] == Decl(ReturnLabel(name, k)) && Decl(ReturnLabel(name, k)) !in code[..|code| - 1]
  {
    var ret := ReturnLabel(name, k);
    var body, jump := CallBodyCode(ret, nArgs), BranchCode(Goto, name);
    CallBodyDecls(ret, nArgs);
    BranchDecls(Goto, name);
    DeclsAppend(body, jump);
    DeclsAppend(body + jump, [Decl(ret)]);
    DeclsMember(body + jump, ret);
    assert CallCode(name, nArgs, k)[..|CallCode(name, nArgs, k)| - 1] == body + jump;
  }

  /** A return declares no label. */
  lemma ReturnDecls()
    ensures Decls(ReturnCode()) == []
  {
    ReturnBodyDecls();
    NoDeclsWithoutDecl([Op(Jump(true))]);
    JoinNoDecls(ReturnBodyCode(), [Op(Jump(true))]);
  }

  lemma ReturnBodyDecls()
    ensures Decls(ReturnBodyCode()) == []
  {
    UnwindDecls();
    RestoreAllDecls();
    DropFrameDecls();
    JoinNoDecls(UnwindCode(), RestoreAllCode());
    JoinNoDecls(UnwindCode() + RestoreAllCode(), DropFrameCode());
  }

  lemma DropFrameDecls()
    ensures Decls(DropFrameCode()) == []
  {
    CellDecls(NewSpCell, 0);
    CellDecls(SP, 0);
    NoDeclsWithoutDecl([At(Num(ReturnCell)), Op(AFromM)]);
    JoinNoDecls(PushCell(NewSpCell), PopCell(SP));
    JoinNoDecls(PushCell(NewSpCell) + PopCell(SP), [At(Num(ReturnCell)), Op(AFromM)]);
  }

  lemma RestoreAllDecls()
    ensures Decls(RestoreAllCode()) == []
  {
    RestoreDecls(1);
    RestoreDecls(2);
    RestoreDecls(3);
    RestoreDecls(4);
    JoinNoDecls(RestoreCode(1), RestoreCode(2));
    JoinNoDecls(RestoreCode(1) + RestoreCode(2), RestoreCode(3));
    JoinNoDecls(RestoreCode(1) + RestoreCode(2) + RestoreCode(3), RestoreCode(4));
  }

  lemma ReturnAddressDecls()
    ensures Decls(ReturnAddressCode()) == []
  {
    CellDecls(ReturnCell, 0);
    NoDeclsWithoutDecl(FetchReturn());
    PairDecls(Sub, 1, 5, PopCell(ReturnCell));
    JoinNoDecls(PushCell(1) + PushValue(5) + ArithCode(Sub, 0) + PopCell(ReturnCell), FetchReturn());
  }

  lemma ReturnValueDecls()
    ensures Decls(ReturnValueCode()) == []
  {
    NoDeclsWithoutDecl(ComputeAddress(Argument, 0));
    NoDeclsWithoutDecl(PopD());
    NoDeclsWithoutDecl(StoreIndirect());
    JoinNoDecls(ComputeAddress(Argument, 0), PopD());
    JoinNoDecls(ComputeAddress(Argument, 0) + PopD(), StoreIndirect());
  }

  lemma UnwindDecls()
    ensures Decls(UnwindCode()) == []
  {
    ReturnAddressDecls();
    CellDecls(1, 0);
    CellDecls(EndFrameCell, 0);
    JoinNoDecls(PushCell(1), PopCell(EndFrameCell));
    ReturnValueDecls();
    CellDecls(NewSpCell, 0);
    PairDecls(Add, 2, 1, PopCell(NewSpCell));
    JoinNoDecls(ReturnAddressCode(), EndFrameCode());
    JoinNoDecls(ReturnAddressCode() + EndFrameCode(), ReturnValueCode());
    JoinNoDecls(ReturnAddressCode() + EndFrameCode() + ReturnValueCode(), NewSpCode());
  }

  lemma RestoreDecls(n: nat)
    requires 1 <= n <= 4
    ensures Decls(RestoreCode(n)) == []
  {
    NoDeclsWithoutDecl(FetchSaved() + PopCell(5 - n));
    PairDecls(Sub, EndFrameCell, n, FetchSaved() + PopCell(5 - n));
    assert RestoreCode(n) == PushCell(EndFrameCell) + PushValue(n) + ArithCode(Sub, 0) + (FetchSaved() + PopCell(5 - n));
  }

  /** `function f n` declares `f` and nothing else. */
  lemma FunctionDefDecls(name: string, nVars: nat, file: string, debug: bool)
    ensures Decls(Code(FunctionDef(name, nVars, file, debug))) == [name]
  {
    FunctionDefCode(name, nVars, file, debug);
    RepeatDecls(nVars, PushValue(0));
    NoDeclsWithoutDecl(PushValue(0));
    DeclsAppend([Decl(name)], Repeat(nVars, PushValue(0)));
  }

  lemma {:induction false} RepeatDecls(n: nat, code: seq<Asm>)
    requires Decls(code) == []
    ensures Decls(Repeat(n, code)) == []
  {
    if n > 0 {
      RepeatDecls(n - 1, code);
      DeclsAppend(Repeat(n - 1, code), code);
    }
  }
}
