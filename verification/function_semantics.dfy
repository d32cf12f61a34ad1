/** What the programs of `call f n` and `return` do on the abstract Hack
    machine: each block leaves the RAM its `FrameRam` predicate describes,
    so the straight-line part of a call leaves `CallFrame` and jumps to
    `f`, and a return leaves `ReturnFrame` and jumps to the stashed return
    address. Together: a return undoes its call on the caller's registers. */
module FunctionSemantics {
  import opened Strings
  import opened Hack
  import opened Machine
  import opened Memory
  import opened MemorySemantics
  import opened Arithmetic
  import opened ArithmeticSemantics
  import opened Branching
  import opened BranchingSemantics
  import opened Function
  import opened FrameRam

  // -----------------------------------------------------------------------
  // The blocks, one by one
  // -----------------------------------------------------------------------

  lemma PushCellExec(p: seq<Asm>, sym: Symbols, i: nat, s: Cpu)
    requires i < WordCount && 16 <= Read(s.ram, SP) < 0xFFFF
    ensures Pushed(s.ram, ExecBlock(p, sym, PushCell(i), s).ram, Read(s.ram, i))
  {
    PushCellRam(p, sym, i, s);
  }

  lemma PushValueExec(p: seq<Asm>, sym: Symbols, c: nat, s: Cpu)
    requires 16 <= Read(s.ram, SP) < 0xFFFF
    ensures Pushed(s.ram, ExecBlock(p, sym, PushValue(c), s).ram, W(c))
  {
    ExecBlockAppend(p, sym, [At(Num(c)), Op(DFromA)], PushD(), s);
    ExecPair(p, sym, At(Num(c)), Op(DFromA), s);
    PushDEffect(p, sym, ExecBlock(p, sym, [At(Num(c)), Op(DFromA)], s));
  }

  lemma PopCellExec(p: seq<Asm>, sym: Symbols, i: nat, s: Cpu)
    requires i < WordCount && 16 < Read(s.ram, SP)
    ensures PoppedInto(s.ram, ExecBlock(p, sym, PopCell(i), s).ram, i)
  {
    PopCellRam(p, sym, i, s);
  }

  /** `add` and `sub` on the two top words. */
  lemma TwoOpExec(p: seq<Asm>, sym: Symbols, op: ArithOp, s: Cpu)
    requires (op == Add || op == Sub) && HasOperands(s.ram, 2)
    ensures Combined(op, s.ram, ExecBlock(p, sym, ArithCode(op, 0), s).ram)
  {
    ArithCodeSplit(op, 0);
    ExecBlockAppend(p, sym, Prefix(op, 0), PushCell(ResultCell), s);
    PlainPrefixRam(p, sym, op, 0, s);
    var m := ExecBlock(p, sym, Prefix(op, 0), s);
    var v := TemplateValue(op, Below(s.ram, 2), Below(s.ram, 1));
    assert m.ram == PoppedRam(op, s.ram)[ResultCell := v];
    PoppedStack(op, s.ram, v);
    PushCellRam(p, sym, ResultCell, m);
    assert ExecBlock(p, sym, ArithCode(op, 0), s).ram == TwoOpRam(op, s.ram);
  }

  /** A block that pushes `a`, then a push of `c` and `add` or `sub`. */
  lemma PairOpExec(p: seq<Asm>, sym: Symbols, op: ArithOp, first: seq<Asm>, a: Word, c: nat, s: Cpu)
    requires (op == Add || op == Sub) && 16 <= Read(s.ram, SP) && Read(s.ram, SP) + 2 < 0xFFFF
    requires Pushed(s.ram, ExecBlock(p, sym, first, s).ram, a)
    ensures PairOp(op, s.ram, ExecBlock(p, sym, first + PushValue(c) + ArithCode(op, 0), s).ram, a, W(c))
  {
    ExecBlockAppend(p, sym, first + PushValue(c), ArithCode(op, 0), s);
    ExecBlockAppend(p, sym, first, PushValue(c), s);
    var u1 := ExecBlock(p, sym, first, s);
    PushValueExec(p, sym, c, u1);
    var u2 := ExecBlock(p, sym, PushValue(c), u1);
    TwoOpExec(p, sym, op, u2);
    PairOpSteps(op, s.ram, u1.ram, u2.ram, ExecBlock(p, sym, ArithCode(op, 0), u2).ram, a, W(c));
  }

  /** A block, then a pop into cell `i`. */
  lemma ThenPopExec(p: seq<Asm>, sym: Symbols, pre: seq<Asm>, i: nat, s: Cpu)
    requires i < WordCount && 16 < Read(ExecBlock(p, sym, pre, s).ram, SP)
    ensures PoppedInto(ExecBlock(p, sym, pre, s).ram, ExecBlock(p, sym, pre + PopCell(i), s).ram, i)
  {
    ExecBlockAppend(p, sym, pre, PopCell(i), s);
    PopCellExec(p, sym, i, ExecBlock(p, sym, pre, s));
  }

  /** `push general i`, `push constant c`, `add` or `sub`, `pop general j`:
      RAM[j] gets RAM[i] plus or minus c. */
  lemma PairPopExec(p: seq<Asm>, sym: Symbols, op: ArithOp, i: nat, c: nat, j: nat, s: Cpu)
    requires (op == Add || op == Sub) && i < WordCount && j < WordCount && j != SP
    requires 16 <= Read(s.ram, SP) && Read(s.ram, SP) + 2 < 0xFFFF
    ensures PairPopped(op, s.ram, ExecBlock(p, sym, PushCell(i) + PushValue(c) + ArithCode(op, 0) + PopCell(j), s).ram,
                       Read(s.ram, i), W(c), j)
  {
    var pre := PushCell(i) + PushValue(c) + ArithCode(op, 0);
    PushCellExec(p, sym, i, s);
    PairOpExec(p, sym, op, PushCell(i), Read(s.ram, i), c, s);
    ThenPopExec(p, sym, pre, j, s);
    PairThenPop(op, s.ram, ExecBlock(p, sym, pre, s).ram, ExecBlock(p, sym, pre + PopCell(j), s).ram, Read(s.ram, i), W(c), j);
  }

  /** `push general i`, `pop general j`. */
  lemma MoveExec(p: seq<Asm>, sym: Symbols, i: nat, j: nat, s: Cpu)
    requires i < WordCount && j < WordCount && 16 <= Read(s.ram, SP) < 0xFFFF
    ensures Moved(s.ram, ExecBlock(p, sym, PushCell(i) + PopCell(j), s).ram, Read(s.ram, i), j)
  {
    PushCellExec(p, sym, i, s);
    ThenPopExec(p, sym, PushCell(i), j, s);
    PushThenPop(s.ram, ExecBlock(p, sym, PushCell(i), s).ram, ExecBlock(p, sym, PushCell(i) + PopCell(j), s).ram, Read(s.ram, i), j);
  }

  // -----------------------------------------------------------------------
  // call f n
  // -----------------------------------------------------------------------

  /** `*SP = D; SP++` with the increment spelled `M = M+1`. */
  lemma TightPushDEffect(p: seq<Asm>, sym: Symbols, s: Cpu)
    requires 16 <= Read(s.ram, SP) < 0xFFFF
    ensures var t := ExecBlock(p, sym, [At(Num(SP)), Op(AFromM), Op(MFromD), At(Num(SP)), Op(MFromMPlusOne(true))], s);
            var sp := Read(s.ram, SP);
            t.ram == s.ram[sp := s.d][SP := sp + 1]
  {
    var store := [At(Num(SP)), Op(AFromM), Op(MFromD)];
    var bump := [At(Num(SP)), Op(MFromMPlusOne(true))];
    assert [At(Num(SP)), Op(AFromM), Op(MFromD), At(Num(SP)), Op(MFromMPlusOne(true))] == store + bump;
    ExecBlockAppend(p, sym, store, bump, s);
    ExecTriple(p, sym, store[0], store[1], store[2], s);
    ExecPair(p, sym, bump[0], bump[1], ExecBlock(p, sym, store, s));
    WordIdentity(Read(s.ram, SP) + 1);
  }

  /** `@ret`, `D = A` and the push: the address of `ret` onto the stack. */
  lemma PushReturnAddressExec(p: seq<Asm>, sym: Symbols, ret: string, s: Cpu)
    requires 16 <= Read(s.ram, SP) < 0xFFFF
    ensures Pushed(s.ram, ExecBlock(p, sym, PushReturnAddress(ret), s).ram, W(Lookup(sym, ret)))
  {
    var head := [At(Sym(ret)), Op(DFromA)];
    var push := [At(Num(SP)), Op(AFromM), Op(MFromD), At(Num(SP)), Op(MFromMPlusOne(true))];
    assert PushReturnAddress(ret) == head + push;
    ExecBlockAppend(p, sym, head, push, s);
    ExecPair(p, sym, At(Sym(ret)), Op(DFromA), s);
    TightPushDEffect(p, sym, ExecBlock(p, sym, head, s));
  }

  lemma SaveFrameExec(p: seq<Asm>, sym: Symbols, ret: string, s: Cpu)
    requires 16 <= Read(s.ram, SP) && Read(s.ram, SP) + 5 < 0xFFFF
    ensures FrameSaved(s.ram, ExecBlock(p, sym, SaveFrameCode(ret), s).ram, W(Lookup(sym, ret)))
  {
    var a := PushReturnAddress(ret);
    ExecBlockAppend(p, sym, a + PushCell(1) + PushCell(2) + PushCell(3), PushCell(4), s);
    ExecBlockAppend(p, sym, a + PushCell(1) + PushCell(2), PushCell(3), s);
    ExecBlockAppend(p, sym, a + PushCell(1), PushCell(2), s);
    ExecBlockAppend(p, sym, a, PushCell(1), s);
    PushReturnAddressExec(p, sym, ret, s);
    var u0 := ExecBlock(p, sym, a, s);
    PushCellExec(p, sym, 1, u0);
    var u1 := ExecBlock(p, sym, PushCell(1), u0);
    PushCellExec(p, sym, 2, u1);
    var u2 := ExecBlock(p, sym, PushCell(2), u1);
    PushCellExec(p, sym, 3, u2);
    var u3 := ExecBlock(p, sym, PushCell(3), u2);
    PushCellExec(p, sym, 4, u3);
    var u4 := ExecBlock(p, sym, PushCell(4), u3);
    SaveFrameSteps(s.ram, u0.ram, u1.ram, u2.ram, u3.ram, u4.ram, W(Lookup(sym, ret)));
  }

  lemma SetArgExec(p: seq<Asm>, sym: Symbols, nArgs: nat, s: Cpu)
    requires 16 <= Read(s.ram, SP) && Read(s.ram, SP) + 2 < 0xFFFF && nArgs + 5 <= Read(s.ram, SP)
    ensures ArgSet(s.ram, ExecBlock(p, sym, SetArgCode(nArgs), s).ram, nArgs)
  {
    PairPopExec(p, sym, Sub, SP, nArgs + 5, 2, s);
    ArgSteps(s.ram, ExecBlock(p, sym, SetArgCode(nArgs), s).ram, nArgs);
  }

  lemma SetLclExec(p: seq<Asm>, sym: Symbols, s: Cpu)
    requires 16 <= Read(s.ram, SP) < 0xFFFF
    ensures Moved(s.ram, ExecBlock(p, sym, SetLclCode(), s).ram, Read(s.ram, SP), 1)
  {
    MoveExec(p, sym, SP, 1, s);
  }

  /** `push constant c` has no jump. */
  lemma PushValueJumpFree(c: nat)
    ensures JumpFree(PushValue(c))
  {
    JumpFreeAppend([At(Num(c)), Op(DFromA)], PushD());
  }

  /** `add` and `sub` have no jump. */
  lemma TwoOpJumpFree(op: ArithOp)
    requires op == Add || op == Sub
    ensures JumpFree(ArithCode(op, 0))
  {
    PrefixJumpFree(op, 0);
    ArithCodeSplit(op, 0);
    CellsJumpFree(ResultCell);
    JumpFreeAppend(Prefix(op, 0), PushCell(ResultCell));
  }

  /** The four-block shape `push general i`, `push constant c`, `add` or
      `sub`, then `tail` has no jump when `tail` has none. */
  lemma PairJumpFree(op: ArithOp, i: nat, c: nat, tail: seq<Asm>)
    requires (op == Add || op == Sub) && JumpFree(tail)
    ensures JumpFree(PushCell(i) + PushValue(c) + ArithCode(op, 0) + tail)
  {
    CellsJumpFree(i);
    PushValueJumpFree(c);
    TwoOpJumpFree(op);
    JumpFreeAppend(PushCell(i), PushValue(c));
    JumpFreeAppend(PushCell(i) + PushValue(c), ArithCode(op, 0));
    JumpFreeAppend(PushCell(i) + PushValue(c) + ArithCode(op, 0), tail);
  }

  lemma CallBodyJumpFree(ret: string, nArgs: nat)
    ensures JumpFree(CallBodyCode(ret, nArgs))
  {
    var a := PushReturnAddress(ret);
    CellsJumpFree(SP);
    CellsJumpFree(1);
    CellsJumpFree(2);
    CellsJumpFree(3);
    CellsJumpFree(4);
    JumpFreeAppend(a, PushCell(1));
    JumpFreeAppend(a + PushCell(1), PushCell(2));
    JumpFreeAppend(a + PushCell(1) + PushCell(2), PushCell(3));
    JumpFreeAppend(a + PushCell(1) + PushCell(2) + PushCell(3), PushCell(4));
    PairJumpFree(Sub, SP, nArgs + 5, PopCell(2));
    JumpFreeAppend(PushCell(SP), PopCell(1));
    JumpFreeAppend(SaveFrameCode(ret), SetArgCode(nArgs));
    JumpFreeAppend(SaveFrameCode(ret) + SetArgCode(nArgs), SetLclCode());
  }

  /** The straight-line part of a call leaves the frame `CallFrame`
      describes, with the address the table gives the return label as the
      return address, and falls through to the `goto`. */
  lemma CallBodyExec(p: seq<Asm>, sym: Symbols, ret: string, nArgs: nat, s: Cpu)
    requires 16 <= Read(s.ram, SP) && Read(s.ram, SP) + 7 < 0xFFFF && nArgs <= Read(s.ram, SP)
    ensures var t := ExecBlock(p, sym, CallBodyCode(ret, nArgs), s);
            && t.pc == s.pc + |CallBodyCode(ret, nArgs)|
            && CallFrame(s.ram, t.ram, W(Lookup(sym, ret)), nArgs)
  {
    var a, b, c := SaveFrameCode(ret), SetArgCode(nArgs), SetLclCode();
    CallBodyJumpFree(ret, nArgs);
    ExecBlockPc(p, sym, a + b + c, s);
    ExecBlockAppend(p, sym, a + b, c, s);
    ExecBlockAppend(p, sym, a, b, s);
    SaveFrameExec(p, sym, ret, s);
    var u1 := ExecBlock(p, sym, a, s);
    SetArgExec(p, sym, nArgs, u1);
    var u2 := ExecBlock(p, sym, b, u1);
    SetLclExec(p, sym, u2);
    CallStages(s.ram, u1.ram, u2.ram, ExecBlock(p, sym, c, u2).ram, W(Lookup(sym, ret)), nArgs);
  }

  /** Running past a jump-free block placed at the program counter is
      executing it, then running on. */
  lemma BlockThenRun(p: seq<Asm>, sym: Symbols, body: seq<Asm>, n: nat, s: Cpu)
    requires Placed(p, s.pc, body) && JumpFree(body)
    ensures Run(p, sym, s, |body| + n) == Run(p, sym, ExecBlock(p, sym, body, s), n)
  {
    RunBlock(p, sym, body, s);
    RunAppend(p, sym, s, |body|, n);
  }

  /** A jump-free block followed by `goto f`. */
  lemma BlockThenGoto(p: seq<Asm>, sym: Symbols, body: seq<Asm>, name: string, s: Cpu)
    requires Placed(p, s.pc, body + BranchCode(Goto, name)) && JumpFree(body) && Lookup(sym, name) < WordCount
    ensures var t := Run(p, sym, s, |body| + 2);
            t.pc == Lookup(sym, name) && t.ram == ExecBlock(p, sym, body, s).ram
  {
    PlacedSplit(p, s.pc, body, BranchCode(Goto, name));
    BlockThenRun(p, sym, body, 2, s);
    ExecBlockPc(p, sym, body, s);
    GotoRun(p, sym, name, ExecBlock(p, sym, body, s));
  }

  /** With the range conditions of a call, its straight-line part runs as
      one block and the `goto` lands on the address the table gives `f`. */
  lemma CallRun(p: seq<Asm>, sym: Symbols, name: string, nArgs: nat, k: nat, s: Cpu)
    requires Placed(p, s.pc, CallCode(name, nArgs, k)) && Lookup(sym, name) < WordCount
    requires 16 <= Read(s.ram, SP) && Read(s.ram, SP) + 7 < 0xFFFF && nArgs <= Read(s.ram, SP)
    ensures var t := Run(p, sym, s, |CallCode(name, nArgs, k)| - 1);
            && t.pc == Lookup(sym, name)
            && CallFrame(s.ram, t.ram, W(Lookup(sym, ReturnLabel(name, k))), nArgs)
  {
    var ret := ReturnLabel(name, k);
    var body := CallBodyCode(ret, nArgs);
    assert |CallCode(name, nArgs, k)| - 1 == |body| + 2;
    PlacedSplit(p, s.pc, body + BranchCode(Goto, name), [Decl(ret)]);
    CallBodyJumpFree(ret, nArgs);
    BlockThenGoto(p, sym, body, name, s);
    CallBodyExec(p, sym, ret, nArgs, s);
    var t := Run(p, sym, s, |body| + 2);
    assert t.ram == ExecBlock(p, sym, body, s).ram;
    assert CallFrame(s.ram, t.ram, W(Lookup(sym, ret)), nArgs);
  }

  // -----------------------------------------------------------------------
  // return
  // -----------------------------------------------------------------------

  /** `@11`, `A = M`, `D = M`, `@11`, `M = D`. */
  lemma FetchReturnExec(p: seq<Asm>, sym: Symbols, s: Cpu)
    ensures ReturnFetched(s.ram, ExecBlock(p, sym, FetchReturn(), s).ram)
  {
    var load := [At(Num(ReturnCell)), Op(AFromM)];
    var store := [Op(DFromM), At(Num(ReturnCell)), Op(MFromD)];
    assert FetchReturn() == load + store;
    ExecBlockAppend(p, sym, load, store, s);
    ExecPair(p, sym, load[0], load[1], s);
    ExecTriple(p, sym, store[0], store[1], store[2], ExecBlock(p, sym, load, s));
  }

  /** The fetch of the word the stack top points to, on RAM. */
  lemma FetchSavedEffect(p: seq<Asm>, sym: Symbols, s: Cpu)
    requires 0 < Read(s.ram, SP)
    ensures var top := Read(s.ram, SP) - 1;
            ExecBlock(p, sym, FetchSaved(), s).ram == s.ram[top := Read(s.ram, Read(s.ram, top))]
  {
    WordIdentity(Read(s.ram, SP) - 1);
  }

  lemma FetchSavedExec(p: seq<Asm>, sym: Symbols, s: Cpu)
    requires 0 < Read(s.ram, SP)
    ensures Fetched(s.ram, ExecBlock(p, sym, FetchSaved(), s).ram)
  {
    FetchSavedEffect(p, sym, s);
  }

  /** `RAM[11] = RAM[LCL - 5]`. */
  lemma StashExec(p: seq<Asm>, sym: Symbols, s: Cpu)
    requires 16 <= Read(s.ram, SP) && Read(s.ram, SP) + 2 < 0xFFFF && 21 <= Read(s.ram, 1) <= Read(s.ram, SP)
    ensures Stashed(s.ram, ExecBlock(p, sym, ReturnAddressCode(), s).ram)
  {
    var pre := PushCell(1) + PushValue(5) + ArithCode(Sub, 0) + PopCell(ReturnCell);
    PairPopExec(p, sym, Sub, 1, 5, ReturnCell, s);
    ExecBlockAppend(p, sym, pre, FetchReturn(), s);
    var u := ExecBlock(p, sym, pre, s);
    FetchReturnExec(p, sym, u);
    StashSteps(s.ram, u.ram, ExecBlock(p, sym, FetchReturn(), u).ram);
  }

  /** `RAM[10] = LCL`. */
  lemma EndFrameExec(p: seq<Asm>, sym: Symbols, s: Cpu)
    requires 16 <= Read(s.ram, SP) < 0xFFFF
    ensures Moved(s.ram, ExecBlock(p, sym, EndFrameCode(), s).ram, Read(s.ram, 1), EndFrameCell)
  {
    MoveExec(p, sym, 1, EndFrameCell, s);
  }

  /** `pop argument 0`. */
  lemma ReturnValueExec(p: seq<Asm>, sym: Symbols, s: Cpu)
    requires 16 < Read(s.ram, SP) && 16 <= Read(s.ram, 2)
    ensures ValueReturned(s.ram, ExecBlock(p, sym, ReturnValueCode(), s).ram)
  {
    var code := ComputeAddress(Argument, 0) + PopD() + StoreIndirect();
    PopBaseRam(p, sym, Argument, 0, s);
    ValueReturnedRam(s.ram, ExecBlock(p, sym, code, s).ram, Read(s.ram, BaseCell(Argument)) + 0);
    assert ReturnValueCode() == code;
  }

  /** `RAM[12] = ARG + 1`. */
  lemma NewSpExec(p: seq<Asm>, sym: Symbols, s: Cpu)
    requires 16 <= Read(s.ram, SP) && Read(s.ram, SP) + 2 < 0xFFFF && Read(s.ram, 2) < 0xFFFF
    ensures NewSpSet(s.ram, ExecBlock(p, sym, NewSpCode(), s).ram)
  {
    PairPopExec(p, sym, Add, 2, 1, NewSpCell, s);
    NewSpSteps(s.ram, ExecBlock(p, sym, NewSpCode(), s).ram);
  }

  /** Round `n` of the restoring loop. */
  lemma RestoreExec(p: seq<Asm>, sym: Symbols, n: nat, s: Cpu)
    requires 1 <= n <= 4
    requires 16 <= Read(s.ram, SP) && Read(s.ram, SP) + 2 < 0xFFFF
    requires 16 + n <= Read(s.ram, EndFrameCell) <= Read(s.ram, SP)
    ensures Restored(s.ram, ExecBlock(p, sym, RestoreCode(n), s).ram, n)
  {
    var pair := PushCell(EndFrameCell) + PushValue(n) + ArithCode(Sub, 0);
    PushCellExec(p, sym, EndFrameCell, s);
    PairOpExec(p, sym, Sub, PushCell(EndFrameCell), Read(s.ram, EndFrameCell), n, s);
    var u1 := ExecBlock(p, sym, pair, s);
    ExecBlockAppend(p, sym, pair, FetchSaved(), s);
    FetchSavedExec(p, sym, u1);
    var u2 := ExecBlock(p, sym, pair + FetchSaved(), s);
    ThenPopExec(p, sym, pair + FetchSaved(), 5 - n, s);
    RestoreSteps(s.ram, u1.ram, u2.ram, ExecBlock(p, sym, RestoreCode(n), s).ram, n);
  }

  /** `@i`, `A = M`: the word in cell `i` into A. */
  lemma LoadAddressEffect(p: seq<Asm>, sym: Symbols, i: nat, s: Cpu)
    requires i < WordCount
    ensures ExecBlock(p, sym, [At(Num(i)), Op(AFromM)], s) == s.(pc := s.pc + 2, a := Read(s.ram, i))
  {
    ExecPair(p, sym, At(Num(i)), Op(AFromM), s);
  }

  /** `SP = RAM[12]`, then `A = RAM[11]`. */
  lemma DropFrameExec(p: seq<Asm>, sym: Symbols, s: Cpu)
    requires 16 <= Read(s.ram, SP) < 0xFFFF
    ensures var t := ExecBlock(p, sym, DropFrameCode(), s);
            && Moved(s.ram, t.ram, Read(s.ram, NewSpCell), SP)
            && t.a == Read(s.ram, ReturnCell)
  {
    var move := PushCell(NewSpCell) + PopCell(SP);
    ExecBlockAppend(p, sym, move, [At(Num(ReturnCell)), Op(AFromM)], s);
    MoveExec(p, sym, NewSpCell, SP, s);
    var m := ExecBlock(p, sym, move, s);
    LoadAddressEffect(p, sym, ReturnCell, m);
    assert Read(m.ram, ReturnCell) == Read(s.ram, ReturnCell);
  }

  /** The first four stages of a return. */
  lemma UnwindExec(p: seq<Asm>, sym: Symbols, s: Cpu)
    requires FrameInRange(s.ram)
    ensures Unwound(s.ram, ExecBlock(p, sym, UnwindCode(), s).ram)
  {
    var a, b, c, d := ReturnAddressCode(), EndFrameCode(), ReturnValueCode(), NewSpCode();
    ExecBlockAppend(p, sym, a + b + c, d, s);
    ExecBlockAppend(p, sym, a + b, c, s);
    ExecBlockAppend(p, sym, a, b, s);
    StashExec(p, sym, s);
    var u1 := ExecBlock(p, sym, a, s);
    EndFrameExec(p, sym, u1);
    var u2 := ExecBlock(p, sym, b, u1);
    ReturnValueExec(p, sym, u2);
    var u3 := ExecBlock(p, sym, c, u2);
    NewSpExec(p, sym, u3);
    UnwindSteps(s.ram, u1.ram, u2.ram, u3.ram, ExecBlock(p, sym, d, u3).ram);
  }

  /** The four rounds of the restoring loop. */
  lemma RestoreAllExec(p: seq<Asm>, sym: Symbols, s: Cpu)
    requires 16 <= Read(s.ram, SP) && Read(s.ram, SP) + 2 < 0xFFFF
    requires 20 <= Read(s.ram, EndFrameCell) <= Read(s.ram, SP)
    ensures RestoredAll(s.ram, ExecBlock(p, sym, RestoreAllCode(), s).ram)
  {
    var a, b, c, d := RestoreCode(1), RestoreCode(2), RestoreCode(3), RestoreCode(4);
    ExecBlockAppend(p, sym, a + b + c, d, s);
    ExecBlockAppend(p, sym, a + b, c, s);
    ExecBlockAppend(p, sym, a, b, s);
    var u1 := RestoreStep(p, sym, 1, s);
    var u2 := RestoreStep(p, sym, 2, u1);
    var u3 := RestoreStep(p, sym, 3, u2);
    var u4 := RestoreStep(p, sym, 4, u3);
    RestoreAllSteps(s.ram, u1.ram, u2.ram, u3.ram, u4.ram);
  }

  /** One restore, and the cells the next one reads are as before. */
  lemma RestoreStep(p: seq<Asm>, sym: Symbols, n: nat, s: Cpu) returns (t: Cpu)
    requires 1 <= n <= 4
    requires 16 <= Read(s.ram, SP) && Read(s.ram, SP) + 2 < 0xFFFF
    requires 20 <= Read(s.ram, EndFrameCell) <= Read(s.ram, SP)
    ensures t == ExecBlock(p, sym, RestoreCode(n), s) && Restored(s.ram, t.ram, n)
    ensures Read(t.ram, SP) == Read(s.ram, SP) && Read(t.ram, EndFrameCell) == Read(s.ram, EndFrameCell)
  {
    RestoreExec(p, sym, n, s);
    t := ExecBlock(p, sym, RestoreCode(n), s);
  }


  lemma UnwindJumpFree()
    ensures JumpFree(UnwindCode())
  {
    ReturnAddressJumpFree();
    EndFrameJumpFree();
    ReturnValueJumpFree();
    NewSpJumpFree();
    JumpFreeFour(ReturnAddressCode(), EndFrameCode(), ReturnValueCode(), NewSpCode());
  }

  lemma ReturnAddressJumpFree()
    ensures JumpFree(ReturnAddressCode())
  {
    CellsJumpFree(ReturnCell);
    PairJumpFree(Sub, 1, 5, PopCell(ReturnCell));
    JumpFreeAppend(PushCell(1) + PushValue(5) + ArithCode(Sub, 0) + PopCell(ReturnCell), FetchReturn());
  }

  lemma EndFrameJumpFree()
    ensures JumpFree(EndFrameCode())
  {
    CellsJumpFree(1);
    CellsJumpFree(EndFrameCell);
    JumpFreeAppend(PushCell(1), PopCell(EndFrameCell));
  }

  lemma ReturnValueJumpFree()
    ensures JumpFree(ReturnValueCode())
  {
    JumpFreeAppend(ComputeAddress(Argument, 0), PopD());
    JumpFreeAppend(ComputeAddress(Argument, 0) + PopD(), StoreIndirect());
  }

  lemma NewSpJumpFree()
    ensures JumpFree(NewSpCode())
  {
    CellsJumpFree(NewSpCell);
    PairJumpFree(Add, 2, 1, PopCell(NewSpCell));
  }

  /** Four jump-free pieces make a jump-free whole. */
  lemma JumpFreeFour(a: seq<Asm>, b: seq<Asm>, c: seq<Asm>, d: seq<Asm>)
    requires JumpFree(a) && JumpFree(b) && JumpFree(c) && JumpFree(d)
    ensures JumpFree(a + b + c + d)
  {
    JumpFreeAppend(a, b);
    JumpFreeAppend(a + b, c);
    JumpFreeAppend(a + b + c, d);
  }

  lemma RestoreJumpFree(n: nat)
    requires 1 <= n <= 4
    ensures JumpFree(RestoreCode(n))
  {
    CellsJumpFree(5 - n);
    PairJumpFree(Sub, EndFrameCell, n, FetchSaved() + PopCell(5 - n));
    JumpFreeAppend(FetchSaved(), PopCell(5 - n));
    assert RestoreCode(n) == PushCell(EndFrameCell) + PushValue(n) + ArithCode(Sub, 0) + (FetchSaved() + PopCell(5 - n));
  }

  lemma ReturnBodyJumpFree()
    ensures JumpFree(ReturnBodyCode())
  {
    UnwindJumpFree();
    RestoreAllJumpFree();
    DropFrameJumpFree();
    JumpFreeAppend(UnwindCode(), RestoreAllCode());
    JumpFreeAppend(UnwindCode() + RestoreAllCode(), DropFrameCode());
  }

  lemma RestoreAllJumpFree()
    ensures JumpFree(RestoreAllCode())
  {
    RestoreJumpFree(1);
    RestoreJumpFree(2);
    RestoreJumpFree(3);
    RestoreJumpFree(4);
    JumpFreeFour(RestoreCode(1), RestoreCode(2), RestoreCode(3), RestoreCode(4));
  }

  lemma DropFrameJumpFree()
    ensures JumpFree(DropFrameCode())
  {
    CellsJumpFree(NewSpCell);
    CellsJumpFree(SP);
    JumpFreeAppend(PushCell(NewSpCell), PopCell(SP));
    JumpFreeAppend(PushCell(NewSpCell) + PopCell(SP), [At(Num(ReturnCell)), Op(AFromM)]);
  }


  /** The straight-line part of a return leaves `ReturnFrame`, with the
      return address read from the frame in the A register. */
  lemma ReturnBodyExec(p: seq<Asm>, sym: Symbols, s: Cpu)
    requires FrameInRange(s.ram)
    ensures var t := ExecBlock(p, sym, ReturnBodyCode(), s);
            && t.pc == s.pc + |ReturnBodyCode()|
            && ReturnFrame(s.ram, t.ram)
            && t.a == Read(s.ram, Read(s.ram, 1) - 5)
  {
    var a, b, c := UnwindCode(), RestoreAllCode(), DropFrameCode();
    ReturnBodyJumpFree();
    ExecBlockPc(p, sym, a + b + c, s);
    ExecBlockAppend(p, sym, a + b, c, s);
    ExecBlockAppend(p, sym, a, b, s);
    UnwindExec(p, sym, s);
    var u1 := ExecBlock(p, sym, a, s);
    RestoreAllExec(p, sym, u1);
    var u2 := ExecBlock(p, sym, b, u1);
    DropFrameExec(p, sym, u2);
    ReturnSteps(s.ram, u1.ram, u2.ram, ExecBlock(p, sym, c, u2).ram);
  }

  /** `0; JMP` lands on the address in A. */
  lemma JumpStep(p: seq<Asm>, sym: Symbols, s: Cpu)
    requires s.pc < |p| && p[s.pc] == Op(Jump(true))
    ensures Run(p, sym, s, 1) == s.(pc := s.a)
  {
    RunStep(p, sym, s);
  }

  /** A jump-free block followed by `0; JMP`. */
  lemma BlockThenJump(p: seq<Asm>, sym: Symbols, body: seq<Asm>, s: Cpu)
    requires Placed(p, s.pc, body + [Op(Jump(true))]) && JumpFree(body)
    ensures var m := ExecBlock(p, sym, body, s);
            Run(p, sym, s, |body| + 1) == m.(pc := m.a)
  {
    PlacedSplit(p, s.pc, body, [Op(Jump(true))]);
    BlockThenRun(p, sym, body, 1, s);
    ExecBlockPc(p, sym, body, s);
    var m := ExecBlock(p, sym, body, s);
    assert p[m.pc] == Op(Jump(true));
    JumpStep(p, sym, m);
  }

  /** A whole return, once its frame is in range: it leaves `ReturnFrame`
      and jumps to the return address saved at `LCL - 5`. */
  lemma ReturnRun(p: seq<Asm>, sym: Symbols, s: Cpu)
    requires Placed(p, s.pc, ReturnCode()) && FrameInRange(s.ram)
    ensures var t := Run(p, sym, s, |ReturnCode()|);
            && t.pc == Read(s.ram, Read(s.ram, 1) - 5)
            && ReturnFrame(s.ram, t.ram)
  {
    ReturnBodyJumpFree();
    BlockThenJump(p, sym, ReturnBodyCode(), s);
    ReturnBodyExec(p, sym, s);
  }

  // -----------------------------------------------------------------------
  // With the assembler's table
  // -----------------------------------------------------------------------

  /** A return label is neither a numeral nor a predefined symbol, so the
      assembler resolves it to its declaration. */
  lemma ReturnLabelIsLabel(name: string, k: nat)
    ensures !IsDigits(ReturnLabel(name, k)) && ReturnLabel(name, k) !in Predefined
  {
    var r := ReturnLabel(name, k);
    ReturnLabelShape(name, k);
    assert r[|name|] == '_' && !IsDigit(r[|name|]);
    if |name| == 0 {
      assert r[0] == '_';
    } else {
      assert |r| > 6;
    }
  }

  /** A call, placed where the return label it declares is declared for the
      first time, lands on the first `(f)` of the program with the frame
      saved and the position of its own `(f_ret_k)` as the return
      address. */
  lemma CallLands(p: seq<Asm>, vars: map<string, nat>, sym: Symbols, name: string, nArgs: nat, k: nat, q: nat, s: Cpu)
      returns (t: Cpu, back: Word)
    requires Assembled(p, vars, sym) && !IsDigits(name) && name !in Predefined
    requires q < |p| && q < WordCount && p[q] == Decl(name) && NotDeclaredBefore(p, q, name)
    requires Placed(p, s.pc, CallCode(name, nArgs, k)) && s.pc + |CallCode(name, nArgs, k)| <= WordCount
    requires NotDeclaredBefore(p, s.pc, ReturnLabel(name, k))
    requires 16 <= Read(s.ram, SP) && Read(s.ram, SP) + 7 < 0xFFFF && nArgs <= Read(s.ram, SP)
    ensures back == s.pc + |CallCode(name, nArgs, k)| - 1 && t == Run(p, sym, s, |CallCode(name, nArgs, k)| - 1)
    ensures p[back] == Decl(ReturnLabel(name, k))
    ensures t.pc == q && CallFrame(s.ram, t.ram, back, nArgs)
  {
    LabelLookup(p, vars, sym, name, q);
    CallDecls(name, nArgs, k);
    ReturnLabelIsLabel(name, k);
    LastDeclLookup(p, vars, sym, s.pc, CallCode(name, nArgs, k), ReturnLabel(name, k));
    CallRun(p, sym, name, nArgs, k, s);
    back := s.pc + |CallCode(name, nArgs, k)| - 1;
    t := Run(p, sym, s, |CallCode(name, nArgs, k)| - 1);
  }

  /** A block whose last instruction is the first declaration of a label
      in the program: the table gives the label that instruction's
      address. */
  lemma LastDeclLookup(p: seq<Asm>, vars: map<string, nat>, sym: Symbols, pc: nat, code: seq<Asm>, name: string)
    requires Assembled(p, vars, sym) && !IsDigits(name) && name !in Predefined
    requires Placed(p, pc, code) && 0 < |code| && pc + |code| <= WordCount
    requires code[|code| - 1] == Decl(name) && Decl(name) !in code[..|code| - 1]
    requires NotDeclaredBefore(p, pc, name)
    ensures p[pc + |code| - 1] == Decl(name) && W(Lookup(sym, name)) == pc + |code| - 1
  {
    PlacedFirstDecl(p, pc, code, name, |code| - 1);
    LabelLookup(p, vars, sym, name, pc + |code| - 1);
    WordIdentity(pc + |code| - 1);
  }

  /** The calling convention on the machine: whatever the callee runs, if
      it keeps to its frame and reaches a `return`, the return lands on the
      call's own `(f_ret_k)` with the caller's registers back, the
      callee's top word in place of the arguments and the caller's stack
      below them unchanged. */
  lemma CallReturnRoundTrip(p: seq<Asm>, vars: map<string, nat>, sym: Symbols, name: string, nArgs: nat, k: nat, q: nat, s: Cpu, u: Cpu)
    requires Assembled(p, vars, sym) && !IsDigits(name) && name !in Predefined
    requires q < |p| && q < WordCount && p[q] == Decl(name) && NotDeclaredBefore(p, q, name)
    requires Placed(p, s.pc, CallCode(name, nArgs, k)) && s.pc + |CallCode(name, nArgs, k)| <= WordCount
    requires NotDeclaredBefore(p, s.pc, ReturnLabel(name, k))
    requires nArgs + 16 <= Read(s.ram, SP) && Read(s.ram, SP) + 7 < 0xFFFF
    requires CalleeKept(Run(p, sym, s, |CallCode(name, nArgs, k)| - 1).ram, u.ram)
    requires Placed(p, u.pc, ReturnCode())
    ensures Returned(s.ram, Run(p, sym, u, |ReturnCode()|), u.ram, s.pc + |CallCode(name, nArgs, k)| - 1, nArgs)
  {
    var t, back := CallLands(p, vars, sym, name, nArgs, k, q, s);
    ReturnAfterCall(p, sym, s.ram, t.ram, u, back, nArgs);
  }

  /** The state a return leaves the caller in: at `back`, with its
      registers, its stack below the arguments, and the callee's top word
      in place of the arguments. */
  ghost predicate Returned(ram0: Ram, v: Cpu, callee: Ram, back: nat, nArgs: nat)
    requires nArgs <= Read(ram0, SP) && 0 < Read(callee, SP)
  {
    v.pc == back && CallerRestored(ram0, v.ram, callee, nArgs)
  }

  /** A return run from a frame a call built and the callee kept. */
  lemma ReturnAfterCall(p: seq<Asm>, sym: Symbols, ram0: Ram, r1: Ram, u: Cpu, back: Word, nArgs: nat)
    requires nArgs + 16 <= Read(ram0, SP) && Read(ram0, SP) + 7 < 0xFFFF
    requires CallFrame(ram0, r1, back, nArgs) && CalleeKept(r1, u.ram)
    requires Placed(p, u.pc, ReturnCode())
    ensures Returned(ram0, Run(p, sym, u, |ReturnCode()|), u.ram, back, nArgs)
  {
    var v := Run(p, sym, u, |ReturnCode()|);
    CallThenReturn(ram0, r1, u.ram, v.ram, back, nArgs);
    ReturnRun(p, sym, u);
  }
}
