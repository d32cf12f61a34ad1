/** The calling convention of the VM on RAM, as the call and return
    sequences of `src/code_generator/function.rs` realise it: each step of
    a sequence is a RAM transformer with its meaning stated in its contract,
    and the whole sequences are their compositions.

    Cell 0 is SP, 1 LCL, 2 ARG, 3 THIS, 4 THAT; 10, 11 and 12 are the
    translator's scratch cells, 13 and 14 those of the arithmetic blocks and
    15 that of the segment addresses. */
module FrameRam {
  import opened Hack
  import opened Machine
  import opened Memory
  import opened Arithmetic
  import opened ArithmeticSemantics
  import opened Function

  // -----------------------------------------------------------------------
  // Stack primitives
  // -----------------------------------------------------------------------

  /** `r` is `ram` after a push of `v`. */
  ghost predicate Pushed(ram: Ram, r: Ram, v: Word) {
    var sp := Read(ram, SP);
    && Read(r, SP) == sp + 1 && Read(r, sp) == v
    && forall x: nat :: x != SP && x != sp ==> Read(r, x) == Read(ram, x)
  }

  /** `r` is `ram` after a pop into cell `i`. */
  ghost predicate PoppedInto(ram: Ram, r: Ram, i: nat)
    requires 0 < Read(ram, SP)
  {
    var sp := Read(ram, SP);
    && Read(r, i) == Read(ram, sp - 1)
    && (i != SP ==> Read(r, SP) == sp - 1)
    && forall x: nat :: x != SP && x != i ==> Read(r, x) == Read(ram, x)
  }

  /** `r` is `ram` after `add` or `sub` on its two top words. */
  ghost predicate Combined(op: ArithOp, ram: Ram, r: Ram)
    requires 2 <= Read(ram, SP)
  {
    var sp := Read(ram, SP);
    var x, y := Read(ram, sp - 2), Read(ram, sp - 1);
    && Read(r, SP) == sp - 1
    && Read(r, sp - 2) == (if op == Add then W(x + y) else W(x - y))
    && forall a: nat :: a != SP && a != sp - 2 && a != TopCell && a != ResultCell ==> Read(r, a) == Read(ram, a)
  }

  /** The RAM after a push of `v`. */
  function PushWord(ram: Ram, v: Word): (r: Ram)
    requires 16 <= Read(ram, SP) < 0xFFFF
    ensures Pushed(ram, r, v)
  {
    var sp := Read(ram, SP);
    ram[sp := v][SP := sp + 1]
  }

  /** The RAM after a pop into cell `i`. */
  function PopInto(ram: Ram, i: nat): (r: Ram)
    requires 16 < Read(ram, SP)
    ensures PoppedInto(ram, r, i)
  {
    var sp := Read(ram, SP);
    ram[SP := sp - 1][i := Read(ram, sp - 1)]
  }

  /** The RAM after `add` or `sub`: the two top words replaced by their
      wrapped sum or difference, the arithmetic scratch cells aside. */
  function TwoOpRam(op: ArithOp, ram: Ram): (r: Ram)
    requires (op == Add || op == Sub) && HasOperands(ram, 2)
    ensures Combined(op, ram, r)
  {
    ArithRam(op, ram, TemplateValue(op, Below(ram, 2), Below(ram, 1)))
  }

  /** `r` is `ram` with the word at `*SP - 1` replaced by the word it
      points to. */
  ghost predicate Fetched(ram: Ram, r: Ram)
    requires 0 < Read(ram, SP)
  {
    var top := Read(ram, SP) - 1;
    && Read(r, top) == Read(ram, Read(ram, top))
    && forall x: nat :: x != top ==> Read(r, x) == Read(ram, x)
  }

  function FetchRam(ram: Ram): (r: Ram)
    requires 0 < Read(ram, SP)
    ensures Fetched(ram, r)
  {
    var top := Read(ram, SP) - 1;
    ram[top := Read(ram, Read(ram, top))]
  }

  /** Words below 2^16 are their own reduction. */
  lemma WordIdentity(x: int)
    requires 0 <= x < WordCount
    ensures W(x) == x
  {
  }

  /** `r` is `ram` after pushes of `a` and `b` and `add` or `sub`: `a + b`
      or `a - b` on top. */
  ghost predicate PairOp(op: ArithOp, ram: Ram, r: Ram, a: Word, b: Word) {
    var sp := Read(ram, SP);
    && Read(r, SP) == sp + 1
    && Read(r, sp) == (if op == Add then W(a + b) else W(a - b))
    && forall x: nat :: x != SP && x != sp && x != sp + 1 && x != TopCell && x != ResultCell
         ==> Read(r, x) == Read(ram, x)
  }

  function PairOpRam(op: ArithOp, ram: Ram, a: Word, b: Word): (r: Ram)
    requires (op == Add || op == Sub) && 16 <= Read(ram, SP) && Read(ram, SP) + 2 < 0xFFFF
    ensures PairOp(op, ram, r, a, b)
  {
    var r1 := PushWord(ram, a);
    var r2 := PushWord(r1, b);
    var r3 := TwoOpRam(op, r2);
    PairOpSteps(op, ram, r1, r2, r3, a, b);
    r3
  }

  /** Pushes of `a` and `b` and an `add` or `sub`. */
  lemma PairOpSteps(op: ArithOp, ram: Ram, r1: Ram, r2: Ram, r3: Ram, a: Word, b: Word)
    requires 16 <= Read(ram, SP) && Read(ram, SP) + 2 < 0xFFFF
    requires Pushed(ram, r1, a) && Pushed(r1, r2, b) && Combined(op, r2, r3)
    ensures PairOp(op, ram, r3, a, b)
  {
  }

  /** `r` is `ram` after a pair operation whose result went into cell `i`,
      with the stack pointer back where it was. */
  ghost predicate PairPopped(op: ArithOp, ram: Ram, r: Ram, a: Word, b: Word, i: nat) {
    var sp := Read(ram, SP);
    && Read(r, SP) == sp
    && Read(r, i) == (if op == Add then W(a + b) else W(a - b))
    && forall x: nat :: x != SP && x != i && x != TopCell && x != ResultCell && x != sp && x != sp + 1
         ==> Read(r, x) == Read(ram, x)
  }

  /** A pair operation whose result is popped into cell `i`. */
  lemma PairThenPop(op: ArithOp, ram: Ram, r1: Ram, r2: Ram, a: Word, b: Word, i: nat)
    requires 16 <= Read(ram, SP) && i != SP
    requires PairOp(op, ram, r1, a, b) && PoppedInto(r1, r2, i)
    ensures PairPopped(op, ram, r2, a, b, i)
  {
  }

  /** `r` is `ram` after a push of `v` popped into cell `i`: cell `i` holds
      `v` and only the cell SP points to may have changed besides. */
  ghost predicate Moved(ram: Ram, r: Ram, v: Word, i: nat) {
    var sp := Read(ram, SP);
    && Read(r, i) == v
    && (i != SP ==> Read(r, SP) == sp)
    && forall x: nat :: x != SP && x != i && x != sp ==> Read(r, x) == Read(ram, x)
  }

  /** A push of `v` popped into cell `i`. */
  lemma PushThenPop(ram: Ram, r1: Ram, r2: Ram, v: Word, i: nat)
    requires 16 <= Read(ram, SP)
    requires Pushed(ram, r1, v) && PoppedInto(r1, r2, i)
    ensures Moved(ram, r2, v, i)
  {
  }

  /** The RAM after a push of `v` and a pop into cell `i`. */
  function MoveRam(ram: Ram, v: Word, i: nat): (r: Ram)
    requires 16 <= Read(ram, SP) < 0xFFFF
    ensures Moved(ram, r, v, i)
  {
    var r1 := PushWord(ram, v);
    var r2 := PopInto(r1, i);
    PushThenPop(ram, r1, r2, v, i);
    r2
  }

  // -----------------------------------------------------------------------
  // call
  // -----------------------------------------------------------------------

  /** The frame saved above the stack: the return address `ret`, then LCL,
      ARG, THIS and THAT. */
  ghost predicate FrameSaved(ram: Ram, r: Ram, ret: Word) {
    var s0 := Read(ram, SP);
    && Read(r, SP) == s0 + 5
    && Read(r, s0) == ret
    && Read(r, s0 + 1) == Read(ram, 1) && Read(r, s0 + 2) == Read(ram, 2)
    && Read(r, s0 + 3) == Read(ram, 3) && Read(r, s0 + 4) == Read(ram, 4)
    && forall x: nat :: x != SP && !(s0 <= x < s0 + 5) ==> Read(r, x) == Read(ram, x)
  }

  function SaveFrameRam(ram: Ram, ret: Word): (r: Ram)
    requires 16 <= Read(ram, SP) && Read(ram, SP) + 5 < 0xFFFF
    ensures FrameSaved(ram, r, ret)
  {
    var r1 := PushWord(ram, ret);
    var r2 := PushWord(r1, Read(r1, 1));
    var r3 := PushWord(r2, Read(r2, 2));
    var r4 := PushWord(r3, Read(r3, 3));
    var r5 := PushWord(r4, Read(r4, 4));
    SaveFrameSteps(ram, r1, r2, r3, r4, r5, ret);
    r5
  }

  /** Five pushes: the return address and the four segment registers. */
  lemma SaveFrameSteps(ram: Ram, r1: Ram, r2: Ram, r3: Ram, r4: Ram, r5: Ram, ret: Word)
    requires 16 <= Read(ram, SP)
    requires Pushed(ram, r1, ret) && Pushed(r1, r2, Read(r1, 1)) && Pushed(r2, r3, Read(r2, 2))
    requires Pushed(r3, r4, Read(r3, 3)) && Pushed(r4, r5, Read(r4, 4))
    ensures FrameSaved(ram, r5, ret)
  {
  }

  /** `ARG = SP - (n + 5)`, computed on the stack above SP. */
  ghost predicate ArgSet(ram: Ram, r: Ram, nArgs: nat) {
    var sp := Read(ram, SP);
    && Read(r, SP) == sp
    && Read(r, 2) == sp - (nArgs + 5)
    && forall x: nat :: x != SP && x != 2 && x != TopCell && x != ResultCell && x != sp && x != sp + 1
         ==> Read(r, x) == Read(ram, x)
  }

  function SetArgRam(ram: Ram, nArgs: nat): (r: Ram)
    requires 16 <= Read(ram, SP) && Read(ram, SP) + 2 < 0xFFFF && nArgs + 5 <= Read(ram, SP)
    ensures ArgSet(ram, r, nArgs)
  {
    var r1 := PairOpRam(Sub, ram, Read(ram, SP), W(nArgs + 5));
    var r2 := PopInto(r1, 2);
    PairThenPop(Sub, ram, r1, r2, Read(ram, SP), W(nArgs + 5), 2);
    ArgSteps(ram, r2, nArgs);
    r2
  }

  /** `SP - (n + 5)` on words is exact when the arguments and the frame
      are on the stack. */
  lemma ArgSteps(ram: Ram, r: Ram, nArgs: nat)
    requires nArgs + 5 <= Read(ram, SP)
    requires PairPopped(Sub, ram, r, Read(ram, SP), W(nArgs + 5), 2)
    ensures ArgSet(ram, r, nArgs)
  {
    WordIdentity(nArgs + 5);
    WordIdentity(Read(ram, SP) - (nArgs + 5));
  }

  /** `LCL = SP`, through the stack cell SP points to. */
  function SetLclRam(ram: Ram): (r: Ram)
    requires 16 <= Read(ram, SP) < 0xFFFF
    ensures Moved(ram, r, Read(ram, SP), 1)
  {
    MoveRam(ram, Read(ram, SP), 1)
  }

  /** What the straight-line part of `call f n` must leave, with `ret` the
      return address: the caller's frame saved above the arguments, ARG
      pointing to the first argument and LCL and SP just above the frame.
      Besides, only the arithmetic scratch cells and two cells above the
      new stack top may change. */
  ghost predicate CallFrame(ram: Ram, r: Ram, ret: Word, nArgs: nat)
    requires nArgs <= Read(ram, SP)
  {
    var s0 := Read(ram, SP);
    && Read(r, SP) == s0 + 5
    && Read(r, 1) == s0 + 5
    && Read(r, 2) == s0 - nArgs
    && Read(r, s0) == ret
    && Read(r, s0 + 1) == Read(ram, 1) && Read(r, s0 + 2) == Read(ram, 2)
    && Read(r, s0 + 3) == Read(ram, 3) && Read(r, s0 + 4) == Read(ram, 4)
    && forall x: nat :: x != SP && x != 1 && x != 2 && x != TopCell && x != ResultCell && !(s0 <= x < s0 + 7)
         ==> Read(r, x) == Read(ram, x)
  }

  /** The RAM after the straight-line part of `call f n`. */
  function CallRam(ram: Ram, ret: Word, nArgs: nat): (r: Ram)
    requires 16 <= Read(ram, SP) && Read(ram, SP) + 7 < 0xFFFF && nArgs <= Read(ram, SP)
    ensures CallFrame(ram, r, ret, nArgs)
  {
    var r1 := SaveFrameRam(ram, ret);
    var r2 := SetArgRam(r1, nArgs);
    var r3 := SetLclRam(r2);
    CallStages(ram, r1, r2, r3, ret, nArgs);
    r3
  }

  /** The three stages of a call compose into its frame. */
  lemma CallStages(ram: Ram, r1: Ram, r2: Ram, r3: Ram, ret: Word, nArgs: nat)
    requires 16 <= Read(ram, SP) && Read(ram, SP) + 7 < 0xFFFF && nArgs <= Read(ram, SP)
    requires FrameSaved(ram, r1, ret) && ArgSet(r1, r2, nArgs) && Moved(r2, r3, Read(r2, SP), 1)
    ensures CallFrame(ram, r3, ret, nArgs)
  {
  }

  // -----------------------------------------------------------------------
  // return
  // -----------------------------------------------------------------------

  /** `r` is `ram` with the address in RAM[11] replaced by the word it
      points to. */
  ghost predicate ReturnFetched(ram: Ram, r: Ram) {
    && Read(r, ReturnCell) == Read(ram, Read(ram, ReturnCell))
    && forall x: nat :: x != ReturnCell ==> Read(r, x) == Read(ram, x)
  }

  /** `RAM[11] = RAM[LCL - 5]`: the return address, stashed. */
  ghost predicate Stashed(ram: Ram, r: Ram)
    requires 5 <= Read(ram, 1)
  {
    var sp, lcl := Read(ram, SP), Read(ram, 1);
    && Read(r, SP) == sp
    && Read(r, ReturnCell) == Read(ram, lcl - 5)
    && forall x: nat :: x != SP && x != ReturnCell && x != TopCell && x != ResultCell && x != sp && x != sp + 1
         ==> Read(r, x) == Read(ram, x)
  }

  function StashReturnRam(ram: Ram): (r: Ram)
    requires 16 <= Read(ram, SP) && Read(ram, SP) + 2 < 0xFFFF
    requires 21 <= Read(ram, 1) <= Read(ram, SP)
    ensures Stashed(ram, r)
  {
    var r1 := PairOpRam(Sub, ram, Read(ram, 1), W(5));
    var r2 := PopInto(r1, ReturnCell);
    var r3 := r2[ReturnCell := Read(r2, Read(r2, ReturnCell))];
    PairThenPop(Sub, ram, r1, r2, Read(ram, 1), W(5), ReturnCell);
    StashSteps(ram, r2, r3);
    r3
  }

  /** `LCL - 5` popped into RAM[11], then replaced by the word it names. */
  lemma StashSteps(ram: Ram, r2: Ram, r3: Ram)
    requires 16 <= Read(ram, SP) && 21 <= Read(ram, 1) <= Read(ram, SP)
    requires PairPopped(Sub, ram, r2, Read(ram, 1), W(5), ReturnCell) && ReturnFetched(r2, r3)
    ensures Stashed(ram, r3)
  {
    WordIdentity(5);
    WordIdentity(Read(ram, 1) - 5);
  }

  /** `RAM[10] = LCL`: the end of the frame, kept. */
  function EndFrameRam(ram: Ram): (r: Ram)
    requires 16 <= Read(ram, SP) < 0xFFFF
    ensures Moved(ram, r, Read(ram, 1), EndFrameCell)
  {
    MoveRam(ram, Read(ram, 1), EndFrameCell)
  }

  /** `pop argument 0`: the return value into RAM[ARG]. */
  ghost predicate ValueReturned(ram: Ram, r: Ram)
    requires 0 < Read(ram, SP)
  {
    var sp, arg := Read(ram, SP), Read(ram, 2);
    && Read(r, SP) == sp - 1 && Read(r, arg) == Read(ram, sp - 1)
    && forall x: nat :: x != SP && x != AddrScratch && x != arg ==> Read(r, x) == Read(ram, x)
  }

  function ReturnValueRam(ram: Ram): (r: Ram)
    requires 16 < Read(ram, SP) && 16 <= Read(ram, 2)
    ensures ValueReturned(ram, r)
  {
    var sp, arg := Read(ram, SP), Read(ram, 2);
    ram[AddrScratch := arg][SP := sp - 1][arg := Read(ram, sp - 1)]
  }

  /** The RAM the pop into `argument 0` leaves satisfies the predicate. */
  lemma ValueReturnedRam(ram: Ram, r: Ram, addr: nat)
    requires 16 < Read(ram, SP) && 16 <= Read(ram, 2) && addr == Read(ram, 2)
    requires r == ram[AddrScratch := addr][SP := Read(ram, SP) - 1][addr := Read(ram, Read(ram, SP) - 1)]
    ensures ValueReturned(ram, r)
  {
    assert r == ReturnValueRam(ram);
  }

  /** `RAM[12] = ARG + 1`: the caller's stack pointer after the return. */
  ghost predicate NewSpSet(ram: Ram, r: Ram) {
    var sp := Read(ram, SP);
    && Read(r, SP) == sp && Read(r, NewSpCell) == Read(ram, 2) + 1
    && forall x: nat :: x != SP && x != NewSpCell && x != TopCell && x != ResultCell && x != sp && x != sp + 1
         ==> Read(r, x) == Read(ram, x)
  }

  function NewSpRam(ram: Ram): (r: Ram)
    requires 16 <= Read(ram, SP) && Read(ram, SP) + 2 < 0xFFFF && Read(ram, 2) < 0xFFFF
    ensures NewSpSet(ram, r)
  {
    var r1 := PairOpRam(Add, ram, Read(ram, 2), W(1));
    var r2 := PopInto(r1, NewSpCell);
    PairThenPop(Add, ram, r1, r2, Read(ram, 2), W(1), NewSpCell);
    NewSpSteps(ram, r2);
    r2
  }

  /** `ARG + 1` on words is exact below the top of the memory. */
  lemma NewSpSteps(ram: Ram, r: Ram)
    requires Read(ram, 2) < 0xFFFF && PairPopped(Add, ram, r, Read(ram, 2), W(1), NewSpCell)
    ensures NewSpSet(ram, r)
  {
    WordIdentity(1);
    WordIdentity(Read(ram, 2) + 1);
  }

  /** `r` is `ram` after round `n` of the restoring loop:
      `RAM[5 - n] = RAM[RAM[10] - n]`. */
  ghost predicate Restored(ram: Ram, r: Ram, n: nat)
    requires 1 <= n <= 4 && n <= Read(ram, EndFrameCell)
  {
    var sp, end := Read(ram, SP), Read(ram, EndFrameCell);
    && Read(r, SP) == sp && Read(r, 5 - n) == Read(ram, end - n)
    && forall x: nat :: x != SP && x != 5 - n && x != TopCell && x != ResultCell && x != sp && x != sp + 1
         ==> Read(r, x) == Read(ram, x)
  }

  function RestoreRam(ram: Ram, n: nat): (r: Ram)
    requires 1 <= n <= 4
    requires 16 <= Read(ram, SP) && Read(ram, SP) + 2 < 0xFFFF
    requires 16 + n <= Read(ram, EndFrameCell) <= Read(ram, SP)
    ensures Restored(ram, r, n)
  {
    var end := Read(ram, EndFrameCell);
    var r1 := PairOpRam(Sub, ram, end, W(n));
    var r2 := FetchRam(r1);
    var r3 := PopInto(r2, 5 - n);
    RestoreSteps(ram, r1, r2, r3, n);
    r3
  }

  /** `RAM[10] - n` computed, replaced by the word it names and popped into
      its register. */
  lemma RestoreSteps(ram: Ram, r1: Ram, r2: Ram, r3: Ram, n: nat)
    requires 1 <= n <= 4
    requires 16 <= Read(ram, SP) && 16 + n <= Read(ram, EndFrameCell) <= Read(ram, SP)
    requires PairOp(Sub, ram, r1, Read(ram, EndFrameCell), W(n))
    requires Fetched(r1, r2) && PoppedInto(r2, r3, 5 - n)
    ensures Restored(ram, r3, n)
  {
    WordIdentity(n);
    WordIdentity(Read(ram, EndFrameCell) - n);
  }

  /** `SP = RAM[12]`. */
  function DropFrameRam(ram: Ram): (r: Ram)
    requires 16 <= Read(ram, SP) < 0xFFFF
    ensures Moved(ram, r, Read(ram, NewSpCell), SP)
  {
    MoveRam(ram, Read(ram, NewSpCell), SP)
  }

  /** The frame `return` unwinds: ARG above the registers, the five saved
      words between ARG and LCL, and the callee's stack above LCL. */
  predicate FrameInRange(ram: Ram) {
    var sp, lcl, arg := Read(ram, SP), Read(ram, 1), Read(ram, 2);
    16 <= arg && arg + 5 <= lcl < sp && sp + 2 < 0xFFFF
  }

  /** What the straight-line part of `return` must leave: the return value
      at the caller's ARG with SP just above it, the caller's LCL, ARG, THIS
      and THAT back from the frame, the end of the frame in RAM[10], the
      return address read before anything was written in RAM[11] and the
      new stack pointer in RAM[12]. The other cells of the registers, the
      stack below the callee's top and everything above it keep their
      words. */
  ghost predicate ReturnFrame(ram: Ram, r: Ram)
    requires FrameInRange(ram)
  {
    var sp, lcl, arg := Read(ram, SP), Read(ram, 1), Read(ram, 2);
    && Read(r, SP) == arg + 1
    && Read(r, arg) == Read(ram, sp - 1)
    && Read(r, 1) == Read(ram, lcl - 4) && Read(r, 2) == Read(ram, lcl - 3)
    && Read(r, 3) == Read(ram, lcl - 2) && Read(r, 4) == Read(ram, lcl - 1)
    && Read(r, EndFrameCell) == lcl
    && Read(r, ReturnCell) == Read(ram, lcl - 5)
    && Read(r, NewSpCell) == arg + 1
    && forall x: nat :: (5 <= x < 10 || 16 <= x) && x != arg && !(sp - 1 <= x <= sp + 1) ==> Read(r, x) == Read(ram, x)
  }

  /** The RAM after the straight-line part of `return`. */
  function ReturnRam(ram: Ram): (r: Ram)
    requires FrameInRange(ram)
    ensures ReturnFrame(ram, r)
  {
    var r1 := UnwindRam(ram);
    var r2 := RestoreAllRam(r1);
    var r3 := DropFrameRam(r2);
    ReturnSteps(ram, r1, r2, r3);
    r3
  }

  /** After the first four stages: SP one below the callee's top, the
      return value in place and the three scratch cells set. */
  ghost predicate Unwound(ram: Ram, r: Ram)
    requires FrameInRange(ram)
  {
    var sp, lcl, arg := Read(ram, SP), Read(ram, 1), Read(ram, 2);
    && Read(r, SP) == sp - 1
    && Read(r, arg) == Read(ram, sp - 1)
    && Read(r, EndFrameCell) == lcl
    && Read(r, ReturnCell) == Read(ram, lcl - 5)
    && Read(r, NewSpCell) == arg + 1
    && forall x: nat :: x != SP && !(EndFrameCell <= x <= AddrScratch) && x != arg && !(sp - 1 <= x <= sp + 1)
         ==> Read(r, x) == Read(ram, x)
  }

  /** The stash of the return address and the end of the frame, the return
      value and the new stack pointer. */
  function UnwindRam(ram: Ram): (r: Ram)
    requires FrameInRange(ram)
    ensures Unwound(ram, r)
  {
    var r1 := StashReturnRam(ram);
    var r2 := EndFrameRam(r1);
    var r3 := ReturnValueRam(r2);
    var r4 := NewSpRam(r3);
    UnwindSteps(ram, r1, r2, r3, r4);
    r4
  }

  /** The first four stages of a return compose into `Unwound`. */
  lemma UnwindSteps(ram: Ram, r1: Ram, r2: Ram, r3: Ram, r4: Ram)
    requires FrameInRange(ram)
    requires Stashed(ram, r1) && Moved(r1, r2, Read(r1, 1), EndFrameCell)
    requires 0 < Read(r2, SP) && ValueReturned(r2, r3) && NewSpSet(r3, r4)
    ensures Unwound(ram, r4)
  {
  }

  /** The restoring loop: THAT, THIS, ARG and LCL from the four words below
      the end of the frame. */
  ghost predicate RestoredAll(ram: Ram, r: Ram)
    requires 4 <= Read(ram, EndFrameCell)
  {
    var sp, end := Read(ram, SP), Read(ram, EndFrameCell);
    && Read(r, SP) == sp
    && Read(r, 1) == Read(ram, end - 4) && Read(r, 2) == Read(ram, end - 3)
    && Read(r, 3) == Read(ram, end - 2) && Read(r, 4) == Read(ram, end - 1)
    && forall x: nat :: !(SP <= x <= 4) && x != TopCell && x != ResultCell && x != sp && x != sp + 1
         ==> Read(r, x) == Read(ram, x)
  }

  function RestoreAllRam(ram: Ram): (r: Ram)
    requires 16 <= Read(ram, SP) && Read(ram, SP) + 2 < 0xFFFF
    requires 20 <= Read(ram, EndFrameCell) <= Read(ram, SP)
    ensures RestoredAll(ram, r)
  {
    var r1 := RestoreRam(ram, 1);
    var r2 := RestoreRam(r1, 2);
    var r3 := RestoreRam(r2, 3);
    var r4 := RestoreRam(r3, 4);
    RestoreAllSteps(ram, r1, r2, r3, r4);
    r4
  }

  /** The four rounds of the restoring loop. */
  lemma RestoreAllSteps(ram: Ram, r1: Ram, r2: Ram, r3: Ram, r4: Ram)
    requires 16 <= Read(ram, SP) && 20 <= Read(ram, EndFrameCell) <= Read(ram, SP)
    requires Restored(ram, r1, 1) && Restored(r1, r2, 2) && Restored(r2, r3, 3) && Restored(r3, r4, 4)
    ensures RestoredAll(ram, r4)
  {
  }

  /** Unwinding, restoring and dropping the frame compose into
      `ReturnFrame`. */
  lemma ReturnSteps(ram: Ram, r1: Ram, r2: Ram, r3: Ram)
    requires FrameInRange(ram) && Unwound(ram, r1) && RestoredAll(r1, r2)
    requires Moved(r2, r3, Read(r2, NewSpCell), SP)
    ensures ReturnFrame(ram, r3)
  {
  }

  // -----------------------------------------------------------------------
  // A return undoes its call
  // -----------------------------------------------------------------------

  /** What a callee that keeps to its own frame leaves behind: LCL and ARG
      as the call set them, the saved frame and everything below its
      arguments untouched, and at least one word pushed on its stack. */
  ghost predicate CalleeKept(r1: Ram, r2: Ram) {
    var lcl, arg := Read(r1, 1), Read(r1, 2);
    && Read(r2, 1) == lcl && Read(r2, 2) == arg
    && lcl < Read(r2, SP) && Read(r2, SP) + 2 < 0xFFFF
    && forall x: nat :: (16 <= x < arg || lcl - 5 <= x < lcl) ==> Read(r2, x) == Read(r1, x)
  }

  /** The caller's view after a return: its `n` arguments replaced by the
      callee's top word, SP just above that word, LCL, ARG, THIS and THAT
      as before the call, and its stack below the arguments unchanged. */
  ghost predicate CallerRestored(ram0: Ram, r: Ram, callee: Ram, nArgs: nat)
    requires nArgs <= Read(ram0, SP) && 0 < Read(callee, SP)
  {
    var arg := Read(ram0, SP) - nArgs;
    && Read(r, SP) == arg + 1
    && Read(r, arg) == Read(callee, Read(callee, SP) - 1)
    && Read(r, 1) == Read(ram0, 1) && Read(r, 2) == Read(ram0, 2)
    && Read(r, 3) == Read(ram0, 3) && Read(r, 4) == Read(ram0, 4)
    && forall x: nat :: 16 <= x < arg ==> Read(r, x) == Read(ram0, x)
  }

  /** The calling convention: after `call f n`, a callee that keeps to its
      frame, and `return`, the caller sees its LCL, ARG, THIS and THAT
      again, its `n` arguments replaced by the callee's top word, SP just
      above that word, its stack below the arguments unchanged, and the
      return address of the call as the jump target. */
  lemma CallThenReturn(ram0: Ram, r1: Ram, r2: Ram, r3: Ram, ret: Word, nArgs: nat)
    requires nArgs + 16 <= Read(ram0, SP) && Read(ram0, SP) + 7 < 0xFFFF
    requires CallFrame(ram0, r1, ret, nArgs) && CalleeKept(r1, r2)
    ensures FrameInRange(r2) && Read(r2, Read(r2, 1) - 5) == ret
    ensures ReturnFrame(r2, r3) ==> CallerRestored(ram0, r3, r2, nArgs) && Read(r3, ReturnCell) == ret
  {
    var s0 := Read(ram0, SP);
    assert Read(r2, s0) == Read(r1, s0);
    if ReturnFrame(r2, r3) {
      forall x: nat | 16 <= x < s0 - nArgs
        ensures Read(r3, x) == Read(ram0, x)
      {
        assert Read(r2, x) == Read(r1, x);
      }
    }
  }
}
