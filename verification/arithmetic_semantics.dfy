/** What an arithmetic/logic block does on the abstract Hack machine.

    The VM defines each operation on the top of the stack `y` and, for the
    binary ones, the word `x` below it: `add` is x + y, `sub` is x - y, `neg`
    is -y, `and`/`or` are bitwise, `not` is the bitwise complement of y, and
    `eq`/`gt`/`lt` compare x with y as signed words, with true encoded as -1
    and false as 0. The block replaces the operands by the result and uses
    RAM[13] and RAM[14] as scratch cells.

    The comparisons `gt` and `lt` test the sign of the wrapped difference,
    so they agree with the VM only while that difference fits in a word:
    `TemplateValue` is what the block computes and `VmValue` the VM's
    meaning, and `TemplateMeaning` relates the two. */
module ArithmeticSemantics {
  import opened Wrappers
  import opened Strings
  import opened Hack
  import opened Machine
  import opened Memory
  import opened MemorySemantics
  import opened Arithmetic

  // -----------------------------------------------------------------------
  // Values
  // -----------------------------------------------------------------------

  function Bool(b: bool): Word {
    if b then True else 0
  }

  /** The VM's meaning of an operation; `x` is ignored by the unary ones. */
  function VmValue(op: ArithOp, x: Word, y: Word): Word {
    match op
    case Add => W(x + y)
    case Sub => W(x - y)
    case Neg => W(-(y as int))
    case And => BitAnd(x, y)
    case Or => BitOr(x, y)
    case Not => BitNot(y)
    case Eq => Bool(x == y)
    case Gt => Bool(Signed(x) > Signed(y))
    case Lt => Bool(Signed(x) < Signed(y))
  }

  /** The word the block leaves in RAM[14], as its instructions compute it
      with D = y and M = x. */
  function TemplateValue(op: ArithOp, x: Word, y: Word): Word {
    match op
    case Add => W(y + x)
    case Sub => W(x - y)
    case Neg => W(-(y as int))
    case And => BitAnd(x, y)
    case Or => BitOr(x, y)
    case Not => BitNot(y)
    case Eq => Bool(W(x - y) == 0)
    case Gt => Bool(Signed(W(x - y)) > 0)
    case Lt => Bool(Signed(W(y - x)) > 0)
  }

  /** The signed difference of the operands fits in a word. */
  predicate NoOverflow(op: ArithOp, x: Word, y: Word) {
    (op == Gt || op == Lt) ==> -0x8000 < Signed(x) - Signed(y) < 0x8000
  }

  lemma WrapSigned(x: Word, y: Word)
    ensures W(x - y) == W(Signed(x) - Signed(y))
  {
  }

  lemma SignedOfSmall(d: int)
    requires -0x8000 <= d < 0x8000
    ensures Signed(W(d)) == d
  {
  }

  /** Without overflow the block computes the VM's value. */
  lemma TemplateMeaning(op: ArithOp, x: Word, y: Word)
    requires NoOverflow(op, x, y)
    ensures TemplateValue(op, x, y) == VmValue(op, x, y)
  {
    if op == Gt || op == Lt {
      var d := Signed(x) - Signed(y);
      WrapSigned(x, y);
      WrapSigned(y, x);
      SignedOfSmall(d);
      SignedOfSmall(-d);
    }
  }

  /** `eq` is always right: a word difference is zero exactly when the
      words are equal. */
  lemma EqExact(x: Word, y: Word)
    ensures TemplateValue(Eq, x, y) == VmValue(Eq, x, y)
  {
  }

  /** 32767 > -1 in the VM, but the wrapped difference 32767 - (-1) is
      -32768, so `gt` pushes false. */
  lemma GtOverflows()
    ensures !NoOverflow(Gt, 0x7FFF, 0xFFFF)
    ensures VmValue(Gt, 0x7FFF, 0xFFFF) == True
    ensures TemplateValue(Gt, 0x7FFF, 0xFFFF) == 0
  {
  }

  // -----------------------------------------------------------------------
  // The effect on RAM
  // -----------------------------------------------------------------------

  /** The stack holds the operands above the registers and has room for the
      result. */
  predicate HasOperands(ram: Ram, n: nat) {
    16 + n <= Read(ram, SP) < 0xFFFF
  }

  /** The word `k` cells below the stack pointer. */
  function Below(ram: Ram, k: nat): Word
    requires k <= Read(ram, SP)
  {
    Read(ram, Read(ram, SP) - k)
  }

  /** The operands: `x` below the top (0 for a unary operation) and the top
      `y`. */
  function OperandX(op: ArithOp, ram: Ram): Word
    requires HasOperands(ram, Arity(op))
  {
    if IsUnary(op) then 0 else Below(ram, 2)
  }

  function OperandY(op: ArithOp, ram: Ram): Word
    requires HasOperands(ram, Arity(op))
  {
    Below(ram, 1)
  }

  /** What a block must achieve: the operands are replaced by `v`, the top
      of the stack is in RAM[13] and `v` in RAM[14], and nothing else
      changes. */
  ghost predicate ArithSpec(op: ArithOp, s: Cpu, t: Cpu, v: Word)
    requires HasOperands(s.ram, Arity(op))
  {
    var sp := Read(s.ram, SP);
    var n := Arity(op);
    && Read(t.ram, SP) == sp - n + 1
    && Read(t.ram, sp - n) == v
    && Read(t.ram, TopCell) == OperandY(op, s.ram)
    && Read(t.ram, ResultCell) == v
    && Unchanged(s, t, {SP, sp - n, TopCell, ResultCell})
  }

  /** RAM after the operands' pops. */
  function PoppedRam(op: ArithOp, ram: Ram): Ram
    requires HasOperands(ram, Arity(op))
  {
    var sp := Read(ram, SP);
    var r1 := ram[SP := sp - 1][TopCell := Read(ram, sp - 1)];
    if IsUnary(op) then r1 else r1[SP := sp - 2][ResultCell := Read(ram, sp - 2)]
  }

  /** RAM after the whole block, when it computes `v`. */
  function ArithRam(op: ArithOp, ram: Ram, v: Word): Ram
    requires HasOperands(ram, Arity(op))
  {
    var sp := Read(ram, SP);
    var n := Arity(op);
    PoppedRam(op, ram)[ResultCell := v][sp - n := v][SP := sp - n + 1]
  }

  lemma ArithSpecFromRam(op: ArithOp, s: Cpu, t: Cpu, v: Word)
    requires HasOperands(s.ram, Arity(op))
    requires t.ram == ArithRam(op, s.ram, v)
    ensures ArithSpec(op, s, t, v)
  {
  }

  /** The pops move the top into RAM[13] and the word below it into
      RAM[14]. */
  lemma PopOperandsRam(p: seq<Asm>, sym: Symbols, op: ArithOp, s: Cpu)
    requires HasOperands(s.ram, Arity(op))
    ensures var t := ExecBlock(p, sym, PopOperands(op), s);
            && t.pc == s.pc + |PopOperands(op)|
            && t.ram == PoppedRam(op, s.ram)
  {
    var pop2 := if IsUnary(op) then [] else PopCell(ResultCell);
    ExecBlockAppend(p, sym, PopCell(TopCell), pop2, s);
    PopCellRam(p, sym, TopCell, s);
    if !IsUnary(op) {
      PopCellRam(p, sym, ResultCell, ExecBlock(p, sym, PopCell(TopCell), s));
    }
  }

  /** The pops, `@13`, `D = M`, and the operation's instructions up to the
      comparison's jump (all of them for the other operations). */
  function Prefix(op: ArithOp, k: nat): seq<Asm> {
    PopOperands(op) + [At(Num(TopCell)), Op(DFromM)]
      + (if IsComparison(op) then CompareHead(op) else OpBody(op, k))
  }

  /** The two instructions of a comparison before its tail. */
  function CompareHead(op: ArithOp): seq<Asm> {
    [At(Num(ResultCell)), Op(if op == Lt then DFromDMinusM else DFromMMinusD)]
  }

  /** After the pops and `@13`, `D = M`, D holds the top. */
  lemma LoadedRam(p: seq<Asm>, sym: Symbols, op: ArithOp, s: Cpu)
    requires HasOperands(s.ram, Arity(op))
    ensures var t := ExecBlock(p, sym, PopOperands(op) + [At(Num(TopCell)), Op(DFromM)], s);
            && t.pc == s.pc + |PopOperands(op)| + 2
            && t.ram == PoppedRam(op, s.ram)
            && t.d == OperandY(op, s.ram)
  {
    ExecBlockAppend(p, sym, PopOperands(op), [At(Num(TopCell)), Op(DFromM)], s);
    PopOperandsRam(p, sym, op, s);
    ReadCellEffect(p, sym, Num(TopCell), TopCell, ExecBlock(p, sym, PopOperands(op), s));
  }

  /** The three instructions of `add`, `sub`, `and` and `or`. */
  lemma BinaryBodyRam(p: seq<Asm>, sym: Symbols, op: ArithOp, k: nat, x: Word, s: Cpu)
    requires op == Add || op == Sub || op == And || op == Or
    requires Read(s.ram, ResultCell) == x
    ensures var t := ExecBlock(p, sym, OpBody(op, k), s);
            && t.pc == s.pc + 3
            && t.ram == s.ram[ResultCell := TemplateValue(op, x, s.d)]
  {
    var r := At(Num(ResultCell));
    match op
    case Add => ExecTriple(p, sym, r, Op(DFromDPlusM), Op(MFromD), s);
    case Sub => ExecTriple(p, sym, r, Op(DFromMMinusD), Op(MFromD), s);
    case And => ExecTriple(p, sym, r, Op(DFromMAndD), Op(MFromD), s);
    case Or => ExecTriple(p, sym, r, Op(DFromMOrD), Op(MFromD), s);
  }

  /** The three instructions of `neg` and `not`. */
  lemma UnaryBodyRam(p: seq<Asm>, sym: Symbols, op: ArithOp, k: nat, s: Cpu)
    requires op == Neg || op == Not
    ensures var t := ExecBlock(p, sym, OpBody(op, k), s);
            && t.pc == s.pc + 3
            && t.ram == s.ram[ResultCell := TemplateValue(op, 0, s.d)]
  {
    var r := At(Num(ResultCell));
    match op
    case Neg => ExecTriple(p, sym, Op(DFromNegD), r, Op(MFromD), s);
    case Not => ExecTriple(p, sym, Op(DFromNotD), r, Op(MFromD), s);
  }

  /** The first two instructions of a comparison: D becomes the wrapped
      difference. */
  lemma CompareHeadEffect(p: seq<Asm>, sym: Symbols, op: ArithOp, x: Word, s: Cpu)
    requires Read(s.ram, ResultCell) == x
    ensures var t := ExecBlock(p, sym, CompareHead(op), s);
            && t.pc == s.pc + 2 && t.ram == s.ram
            && t.d == (if op == Lt then W(s.d - x) else W(x - s.d))
  {
    ExecPair(p, sym, CompareHead(op)[0], CompareHead(op)[1], s);
  }

  /** The wrapped difference a comparison tests. */
  function Difference(op: ArithOp, x: Word, y: Word): Word {
    if op == Lt then W(y - x) else W(x - y)
  }

  /** The operations that do not compare, up to the push of the result. */
  lemma PlainPrefixRam(p: seq<Asm>, sym: Symbols, op: ArithOp, k: nat, s: Cpu)
    requires !IsComparison(op) && HasOperands(s.ram, Arity(op))
    ensures var t := ExecBlock(p, sym, Prefix(op, k), s);
            && t.pc == s.pc + |Prefix(op, k)|
            && t.ram == PoppedRam(op, s.ram)[ResultCell := TemplateValue(op, OperandX(op, s.ram), OperandY(op, s.ram))]
  {
    var load := PopOperands(op) + [At(Num(TopCell)), Op(DFromM)];
    assert Prefix(op, k) == load + OpBody(op, k);
    ExecBlockAppend(p, sym, load, OpBody(op, k), s);
    LoadedRam(p, sym, op, s);
    var m := ExecBlock(p, sym, load, s);
    if IsUnary(op) {
      UnaryBodyRam(p, sym, op, k, m);
    } else {
      BinaryBodyRam(p, sym, op, k, OperandX(op, s.ram), m);
    }
  }

  /** A comparison up to its jump: D holds the difference it tests. */
  lemma ComparePrefixRam(p: seq<Asm>, sym: Symbols, op: ArithOp, k: nat, s: Cpu)
    requires IsComparison(op) && HasOperands(s.ram, Arity(op))
    ensures var t := ExecBlock(p, sym, Prefix(op, k), s);
            && t.pc == s.pc + |Prefix(op, k)|
            && t.ram == PoppedRam(op, s.ram)
            && t.d == Difference(op, OperandX(op, s.ram), OperandY(op, s.ram))
  {
    var load := PopOperands(op) + [At(Num(TopCell)), Op(DFromM)];
    ExecBlockAppend(p, sym, load, CompareHead(op), s);
    LoadedRam(p, sym, op, s);
    CompareHeadEffect(p, sym, op, OperandX(op, s.ram), ExecBlock(p, sym, load, s));
  }

  /** The stack pointer after the pops, and the cells a block leaves. */
  lemma PoppedStack(op: ArithOp, ram: Ram, v: Word)
    requires HasOperands(ram, Arity(op))
    ensures var r := PoppedRam(op, ram)[ResultCell := v];
            var sp := Read(ram, SP) - Arity(op);
            && Read(r, SP) == sp && 16 <= sp < 0xFFFF && Read(r, ResultCell) == v
            && r[sp := v][SP := sp + 1] == ArithRam(op, ram, v)
  {
  }

  // -----------------------------------------------------------------------
  // Operations that do not compare: one straight run
  // -----------------------------------------------------------------------

  /** The test of a comparison's jump. */
  function Test(op: ArithOp): Comp {
    if op == Eq then JumpIfZero else JumpIfPositive
  }

  lemma ArithCodeSplit(op: ArithOp, k: nat)
    ensures !IsComparison(op) ==> ArithCode(op, k) == Prefix(op, k) + PushCell(ResultCell)
    ensures IsComparison(op) ==> ArithCode(op, k) == Prefix(op, k) + CompareTail(Test(op), k) + PushCell(ResultCell)
  {
    var pre := PopOperands(op) + [At(Num(TopCell)), Op(DFromM)];
    if IsComparison(op) {
      var b := OpBody(op, k);
      assert b == CompareHead(op) + CompareTail(Test(op), k);
      assert pre + b == pre + CompareHead(op) + CompareTail(Test(op), k);
    }
  }

  // -----------------------------------------------------------------------
  // Comparisons: the run through the two labels
  // -----------------------------------------------------------------------

  /** The labels are neither numerals nor predefined symbols, so they
      resolve to their declarations. */
  lemma LabelsAreLabels(k: nat)
    ensures !IsDigits(TrueLabel(k)) && TrueLabel(k) !in Predefined
    ensures !IsDigits(FalseLabel(k)) && FalseLabel(k) !in Predefined
  {
    assert TrueLabel(k)[0] == 't' && FalseLabel(k)[0] == 'f';
    assert !IsDigit(TrueLabel(k)[0]) && !IsDigit(FalseLabel(k)[0]);
  }

  /** Whether the comparison's jump is taken on D. */
  predicate Jumps(test: Comp, d: Word) {
    if test == JumpIfZero then d == 0 else Signed(d) > 0
  }

  /** The steps the ten instructions after the difference take: the taken
      jump skips `M = 0` and the jump to the false label. */
  function TailSteps(test: Comp, d: Word): nat {
    if Jumps(test, d) then 6 else 7
  }

  /** Two steps from an A-instruction at the program counter. */
  lemma RunTwo(p: seq<Asm>, sym: Symbols, x: Addr, i: Asm, s: Cpu)
    requires s.pc + 2 <= |p| && p[s.pc] == At(x) && p[s.pc + 1] == i
    ensures Run(p, sym, s, 2) == Exec1(p, sym, i, Exec1(p, sym, At(x), s))
  {
    RunAppend(p, sym, s, 1, 1);
    RunStep(p, sym, s);
    RunStep(p, sym, Exec1(p, sym, At(x), s));
  }

  /** `@true_expressionK`, then the test: the jump lands on the true
      label's declaration or falls through. */
  lemma TailJump(p: seq<Asm>, sym: Symbols, test: Comp, k: nat, s: Cpu)
    requires test == JumpIfZero || test == JumpIfPositive
    requires Placed(p, s.pc, CompareTail(test, k)) && s.pc + 10 <= WordCount
    requires Lookup(sym, TrueLabel(k)) == s.pc + 6
    ensures var m := Run(p, sym, s, 2);
            && m.ram == s.ram
            && m.pc == (if Jumps(test, s.d) then s.pc + 6 else s.pc + 2)
  {
    assert p[s.pc] == At(Sym(TrueLabel(k))) && p[s.pc + 1] == Op(test);
    RunTwo(p, sym, Sym(TrueLabel(k)), Op(test), s);
    var s1 := Exec1(p, sym, At(Sym(TrueLabel(k))), s);
    assert s1 == s.(pc := s.pc + 1, a := s.pc + 6);
    if test == JumpIfZero {
      assert Exec1(p, sym, Op(JumpIfZero), s1).pc == if s.d == 0 then s.pc + 6 else s.pc + 2;
    } else {
      assert Exec1(p, sym, Op(JumpIfPositive), s1).pc == if Signed(s.d) > 0 then s.pc + 6 else s.pc + 2;
    }
  }

  /** From the true label's declaration: RAM[14] = -1, then past the false
      label. */
  lemma TrueArm(p: seq<Asm>, sym: Symbols, test: Comp, k: nat, b: nat, m: Cpu)
    requires Placed(p, b, CompareTail(test, k)) && m.pc == b + 6
    ensures var t := Run(p, sym, m, 4);
            t.pc == b + 10 && t.ram == m.ram[ResultCell := True]
  {
    var rest := CompareTail(test, k)[6..];
    assert p[m.pc..m.pc + 4] == rest;
    RunBlock(p, sym, rest, m);
    assert rest == [rest[0], rest[1]] + [rest[2], rest[3]];
    ExecBlockAppend(p, sym, [rest[0], rest[1]], [rest[2], rest[3]], m);
    ExecPair(p, sym, rest[0], rest[1], m);
    ExecPair(p, sym, rest[2], rest[3], ExecBlock(p, sym, [rest[0], rest[1]], m));
  }

  /** Falling through: RAM[14] = 0 and A addresses the false label. */
  lemma FalseStore(p: seq<Asm>, sym: Symbols, test: Comp, k: nat, b: nat, m: Cpu)
    requires Placed(p, b, CompareTail(test, k)) && m.pc == b + 2
    requires Lookup(sym, FalseLabel(k)) == b + 9 && b + 10 <= WordCount
    ensures var t := Run(p, sym, m, 3);
            t.pc == b + 5 && t.a == b + 9 && t.ram == m.ram[ResultCell := 0]
  {
    var mid := [At(Num(ResultCell)), Op(MFromZero), At(Sym(FalseLabel(k)))];
    assert CompareTail(test, k)[2..5] == mid;
    PlacedSlice(p, b, CompareTail(test, k), 2, 5);
    RunBlock(p, sym, mid, m);
    ExecTriple(p, sym, mid[0], mid[1], mid[2], m);
  }

  /** `0;JMP` to the false label, then past its declaration. */
  lemma FalseJump(p: seq<Asm>, sym: Symbols, test: Comp, k: nat, b: nat, j: Cpu)
    requires Placed(p, b, CompareTail(test, k)) && j.pc == b + 5 && j.a == b + 9
    ensures var t := Run(p, sym, j, 2);
            t.pc == b + 10 && t.ram == j.ram
  {
    assert p[j.pc] == Op(Jump(false)) && p[b + 9] == Decl(FalseLabel(k));
    RunAppend(p, sym, j, 1, 1);
    RunStep(p, sym, j);
    RunStep(p, sym, Run(p, sym, j, 1));
  }

  /** Running the tail of a comparison placed at the program counter, its
      labels resolving to their declarations in it. */
  lemma CompareTailRun(p: seq<Asm>, sym: Symbols, test: Comp, k: nat, s: Cpu)
    requires test == JumpIfZero || test == JumpIfPositive
    requires Placed(p, s.pc, CompareTail(test, k)) && s.pc + 10 <= WordCount
    requires Lookup(sym, TrueLabel(k)) == s.pc + 6
    requires Lookup(sym, FalseLabel(k)) == s.pc + 9
    ensures var t := Run(p, sym, s, TailSteps(test, s.d));
            t.pc == s.pc + 10 && t.ram == s.ram[ResultCell := Bool(Jumps(test, s.d))]
  {
    TailJump(p, sym, test, k, s);
    var m := Run(p, sym, s, 2);
    if Jumps(test, s.d) {
      TrueArm(p, sym, test, k, s.pc, m);
      RunAppend(p, sym, s, 2, 4);
    } else {
      FalseStore(p, sym, test, k, s.pc, m);
      FalseJump(p, sym, test, k, s.pc, Run(p, sym, m, 3));
      RunAppend(p, sym, m, 3, 2);
      RunAppend(p, sym, s, 2, 5);
    }
  }

  // -----------------------------------------------------------------------
  // Whole blocks
  // -----------------------------------------------------------------------

  /** The steps one block takes on operands `x` and `y`. */
  function ArithSteps(op: ArithOp, x: Word, y: Word): nat {
    |PopOperands(op)| + 2
      + (if IsComparison(op) then 2 + TailSteps(Test(op), Difference(op, x, y)) else 3)
      + |PushCell(ResultCell)|
  }

  lemma PrefixJumpFree(op: ArithOp, k: nat)
    ensures JumpFree(Prefix(op, k))
  {
    var rest := if IsComparison(op) then CompareHead(op) else OpBody(op, k);
    CellsJumpFree(TopCell);
    CellsJumpFree(ResultCell);
    JumpFreeAppend(PopCell(TopCell), if IsUnary(op) then [] else PopCell(ResultCell));
    BodyJumpFree(op, k);
    JumpFreeAppend([At(Num(TopCell)), Op(DFromM)], rest);
    JumpFreeAppend(PopOperands(op), [At(Num(TopCell)), Op(DFromM)] + rest);
    assert Prefix(op, k) == PopOperands(op) + ([At(Num(TopCell)), Op(DFromM)] + rest);
  }

  lemma BodyJumpFree(op: ArithOp, k: nat)
    ensures JumpFree(if IsComparison(op) then CompareHead(op) else OpBody(op, k))
  {
  }

  lemma PrefixLength(op: ArithOp, k: nat)
    ensures |Prefix(op, k)| == |PopOperands(op)| + 2 + (if IsComparison(op) then 2 else 3)
  {
  }

  /** Before the tail, a comparison declares nothing. */
  lemma ComparePrefixDecls(op: ArithOp, k: nat, name: string)
    requires IsComparison(op)
    ensures Decl(name) !in Prefix(op, k)
  {
    var pops := PopOperands(op);
    assert Decl(name) !in PopCell(TopCell) && Decl(name) !in PopCell(ResultCell);
    assert Decl(name) !in pops;
  }

  /** In a comparison placed at `pc` after no declaration of its labels,
      each label's first declaration is the block's own. */
  lemma CompareLabelsFirst(p: seq<Asm>, op: ArithOp, k: nat, pc: nat)
    requires IsComparison(op) && Placed(p, pc, Prefix(op, k) + CompareTail(Test(op), k) + PushCell(ResultCell))
    requires NotDeclaredBefore(p, pc, TrueLabel(k)) && NotDeclaredBefore(p, pc, FalseLabel(k))
    ensures var b := pc + |Prefix(op, k)|;
            && Placed(p, b, CompareTail(Test(op), k))
            && p[b + 6] == Decl(TrueLabel(k)) && NotDeclaredBefore(p, b + 6, TrueLabel(k))
            && p[b + 9] == Decl(FalseLabel(k)) && NotDeclaredBefore(p, b + 9, FalseLabel(k))
  {
    var pre, tail := Prefix(op, k), CompareTail(Test(op), k);
    PlacedSplit(p, pc, pre + tail, PushCell(ResultCell));
    PlacedSplit(p, pc, pre, tail);
    var t, f := TrueLabel(k), FalseLabel(k);
    TrueFalseDistinct(k, k);
    ComparePrefixDecls(op, k, t);
    ComparePrefixDecls(op, k, f);
    assert (pre + tail)[..|pre| + 6] == pre + tail[..6];
    assert (pre + tail)[..|pre| + 9] == pre + tail[..9];
    assert Decl(t) !in tail[..6] && Decl(f) !in tail[..9];
    PlacedFirstDecl(p, pc, pre + tail, t, |pre| + 6);
    PlacedFirstDecl(p, pc, pre + tail, f, |pre| + 9);
  }

  lemma CellsJumpFree(i: nat)
    ensures JumpFree(PopCell(i)) && JumpFree(PushCell(i))
  {
    JumpFreeAppend(PopD(), [At(Num(i)), Op(MFromD)]);
    JumpFreeAppend([At(Num(i)), Op(DFromM)], PushD());
  }

  /** The closing `push general 14`, once RAM[14] holds the result. */
  lemma PushResult(p: seq<Asm>, sym: Symbols, op: ArithOp, ram: Ram, v: Word, u: Cpu)
    requires HasOperands(ram, Arity(op)) && u.ram == PoppedRam(op, ram)[ResultCell := v]
    requires Placed(p, u.pc, PushCell(ResultCell))
    ensures var t := Run(p, sym, u, |PushCell(ResultCell)|);
            t.pc == u.pc + |PushCell(ResultCell)| && t.ram == ArithRam(op, ram, v)
  {
    CellsJumpFree(ResultCell);
    RunBlock(p, sym, PushCell(ResultCell), u);
    PoppedStack(op, ram, v);
    PushCellRam(p, sym, ResultCell, u);
  }

  /** A comparison block up to its push, the table mapping its labels to
      their declarations in it. */
  lemma CompareThroughTail(p: seq<Asm>, sym: Symbols, op: ArithOp, k: nat, s: Cpu)
    requires IsComparison(op) && HasOperands(s.ram, Arity(op))
    requires Placed(p, s.pc, Prefix(op, k)) && Placed(p, s.pc + |Prefix(op, k)|, CompareTail(Test(op), k))
    requires s.pc + |Prefix(op, k)| + 10 <= WordCount
    requires Lookup(sym, TrueLabel(k)) == s.pc + |Prefix(op, k)| + 6
    requires Lookup(sym, FalseLabel(k)) == s.pc + |Prefix(op, k)| + 9
    ensures var x, y := OperandX(op, s.ram), OperandY(op, s.ram);
            var n := |Prefix(op, k)| + TailSteps(Test(op), Difference(op, x, y));
            var u := Run(p, sym, s, n);
            u.pc == s.pc + |Prefix(op, k)| + 10 && u.ram == PoppedRam(op, s.ram)[ResultCell := TemplateValue(op, x, y)]
  {
    var pre, tail := Prefix(op, k), CompareTail(Test(op), k);
    PrefixJumpFree(op, k);
    RunBlock(p, sym, pre, s);
    ComparePrefixRam(p, sym, op, k, s);
    var m := ExecBlock(p, sym, pre, s);
    CompareTailRun(p, sym, Test(op), k, m);
    CompareValue(op, OperandX(op, s.ram), OperandY(op, s.ram));
    RunAppend(p, sym, s, |pre|, TailSteps(Test(op), m.d));
  }

  /** A comparison block whose labels the table maps to their
      declarations in it, through whichever arm its test selects. */
  lemma CompareRun(p: seq<Asm>, sym: Symbols, op: ArithOp, k: nat, s: Cpu)
    requires IsComparison(op) && HasOperands(s.ram, Arity(op))
    requires Placed(p, s.pc, Prefix(op, k)) && Placed(p, s.pc + |Prefix(op, k)|, CompareTail(Test(op), k))
    requires Placed(p, s.pc + |Prefix(op, k)| + 10, PushCell(ResultCell))
    requires s.pc + |Prefix(op, k)| + 10 <= WordCount
    requires Lookup(sym, TrueLabel(k)) == s.pc + |Prefix(op, k)| + 6
    requires Lookup(sym, FalseLabel(k)) == s.pc + |Prefix(op, k)| + 9
    ensures var x, y := OperandX(op, s.ram), OperandY(op, s.ram);
            var t := Run(p, sym, s, ArithSteps(op, x, y));
            t.pc == s.pc + |Prefix(op, k)| + 10 + |PushCell(ResultCell)|
            && t.ram == ArithRam(op, s.ram, TemplateValue(op, x, y))
  {
    var x, y := OperandX(op, s.ram), OperandY(op, s.ram);
    var pre, push := Prefix(op, k), PushCell(ResultCell);
    CompareThroughTail(p, sym, op, k, s);
    var n := |pre| + TailSteps(Test(op), Difference(op, x, y));
    var u := Run(p, sym, s, n);
    assert u.pc == s.pc + |pre| + 10;
    PushResult(p, sym, op, s.ram, TemplateValue(op, x, y), u);
    RunAppend(p, sym, s, n, |push|);
    PrefixLength(op, k);
  }

  /** The same, for the assembler's table and labels not declared before
      the block. */
  lemma CompareArithRam(p: seq<Asm>, vars: map<string, nat>, sym: Symbols, op: ArithOp, k: nat, s: Cpu)
    requires IsComparison(op) && HasOperands(s.ram, Arity(op))
    requires Placed(p, s.pc, ArithCode(op, k)) && s.pc + |ArithCode(op, k)| <= WordCount
    requires Assembled(p, vars, sym)
    requires NotDeclaredBefore(p, s.pc, TrueLabel(k)) && NotDeclaredBefore(p, s.pc, FalseLabel(k))
    ensures var x, y := OperandX(op, s.ram), OperandY(op, s.ram);
            var t := Run(p, sym, s, ArithSteps(op, x, y));
            t.pc == s.pc + |ArithCode(op, k)| && t.ram == ArithRam(op, s.ram, TemplateValue(op, x, y))
  {
    var pre, tail, push := Prefix(op, k), CompareTail(Test(op), k), PushCell(ResultCell);
    var b := s.pc + |pre|;
    ArithCodeSplit(op, k);
    PlacedSplit(p, s.pc, pre + tail, push);
    PlacedSplit(p, s.pc, pre, tail);
    CompareLabelsFirst(p, op, k, s.pc);
    LabelsAreLabels(k);
    LabelLookup(p, vars, sym, TrueLabel(k), b + 6);
    LabelLookup(p, vars, sym, FalseLabel(k), b + 9);
    CompareRun(p, sym, op, k, s);
  }

  /** The jump a comparison takes is the value it stores. */
  lemma CompareValue(op: ArithOp, x: Word, y: Word)
    requires IsComparison(op)
    ensures Bool(Jumps(Test(op), Difference(op, x, y))) == TemplateValue(op, x, y)
  {
  }

  /** An operation that does not compare runs straight through. */
  lemma PlainArithRun(p: seq<Asm>, sym: Symbols, op: ArithOp, k: nat, s: Cpu)
    requires !IsComparison(op) && HasOperands(s.ram, Arity(op))
    requires Placed(p, s.pc, Prefix(op, k)) && Placed(p, s.pc + |Prefix(op, k)|, PushCell(ResultCell))
    ensures var x, y := OperandX(op, s.ram), OperandY(op, s.ram);
            var t := Run(p, sym, s, ArithSteps(op, x, y));
            t.pc == s.pc + |Prefix(op, k)| + |PushCell(ResultCell)|
            && t.ram == ArithRam(op, s.ram, TemplateValue(op, x, y))
  {
    var x, y := OperandX(op, s.ram), OperandY(op, s.ram);
    var pre, push := Prefix(op, k), PushCell(ResultCell);
    PrefixJumpFree(op, k);
    RunBlock(p, sym, pre, s);
    PlainPrefixRam(p, sym, op, k, s);
    var u := Run(p, sym, s, |pre|);
    assert u.pc == s.pc + |pre|;
    PushResult(p, sym, op, s.ram, TemplateValue(op, x, y), u);
    RunAppend(p, sym, s, |pre|, |push|);
    PrefixLength(op, k);
  }

  /** The block of any operation, placed in an assembled program at the
      program counter with the operands on the stack: after `ArithSteps`
      steps control has left the block, the operands are replaced by the
      value the instructions compute, and that value is the VM's unless a
      signed comparison overflows. A comparison's labels must not be
      declared earlier in the program. */
  lemma ArithSemantics(p: seq<Asm>, vars: map<string, nat>, sym: Symbols, op: ArithOp, k: nat, s: Cpu)
    requires HasOperands(s.ram, Arity(op))
    requires Placed(p, s.pc, ArithCode(op, k)) && s.pc + |ArithCode(op, k)| <= WordCount
    requires Assembled(p, vars, sym)
    requires IsComparison(op) ==> NotDeclaredBefore(p, s.pc, TrueLabel(k)) && NotDeclaredBefore(p, s.pc, FalseLabel(k))
    ensures var x, y := OperandX(op, s.ram), OperandY(op, s.ram);
            var t := Run(p, sym, s, ArithSteps(op, x, y));
            && t.pc == s.pc + |ArithCode(op, k)|
            && ArithSpec(op, s, t, TemplateValue(op, x, y))
            && (NoOverflow(op, x, y) ==> ArithSpec(op, s, t, VmValue(op, x, y)))
  {
    var x, y := OperandX(op, s.ram), OperandY(op, s.ram);
    var t := Run(p, sym, s, ArithSteps(op, x, y));
    if IsComparison(op) {
      CompareArithRam(p, vars, sym, op, k, s);
    } else {
      ArithCodeSplit(op, k);
      PlacedSplit(p, s.pc, Prefix(op, k), PushCell(ResultCell));
      PlainArithRun(p, sym, op, k, s);
    }
    ArithSpecFromRam(op, s, t, TemplateValue(op, x, y));
    if NoOverflow(op, x, y) {
      TemplateMeaning(op, x, y);
    }
  }
}
