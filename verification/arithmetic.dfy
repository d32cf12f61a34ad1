/** The arithmetic/logic translator of
    `src/code_generator/arithmetic_logic.rs`: `generate_a_l_code_block`
    pops the top of the stack into RAM[13], the word below it into RAM[14]
    (binary operations only), computes into RAM[14] and pushes RAM[14]. */
module Arithmetic {
  import opened Wrappers
  import opened Strings
  import opened Hack
  import opened Memory

  /** The nine operations of the VM language. */
  datatype ArithOp = Add | Sub | Neg | Eq | Gt | Lt | And | Or | Not

  function OpName(op: ArithOp): string {
    match op
    case Add => "add"
    case Sub => "sub"
    case Neg => "neg"
    case Eq => "eq"
    case Gt => "gt"
    case Lt => "lt"
    case And => "and"
    case Or => "or"
    case Not => "not"
  }

  /** Looks an operation name up. */
  function OpOf(name: string): (r: Option<ArithOp>)
    ensures r.Some? ==> OpName(r.value) == name
  {
    if name == "add" then Some(Add)
    else if name == "sub" then Some(Sub)
    else if name == "neg" then Some(Neg)
    else if name == "eq" then Some(Eq)
    else if name == "gt" then Some(Gt)
    else if name == "lt" then Some(Lt)
    else if name == "and" then Some(And)
    else if name == "or" then Some(Or)
    else if name == "not" then Some(Not)
    else None
  }

  /** Every operation's name is recognised as that operation. */
  lemma OpOfName(op: ArithOp)
    ensures OpOf(OpName(op)) == Some(op)
  {
  }

  /** `neg` and `not` take one operand, the others two. */
  predicate IsUnary(op: ArithOp) {
    op == Neg || op == Not
  }

  predicate IsComparison(op: ArithOp) {
    op == Eq || op == Gt || op == Lt
  }

  function Arity(op: ArithOp): nat {
    if IsUnary(op) then 1 else 2
  }

  /** The cell that receives the top of the stack. */
  const TopCell: nat := 13

  /** The cell that receives the word below it, and then the result. */
  const ResultCell: nat := 14

  /** The labels of the comparison numbered `k`. */
  function TrueLabel(k: nat): string {
    "true_expression" + NatToString(k)
  }

  function FalseLabel(k: nat): string {
    "false_expression" + NatToString(k)
  }

  /** The part shared by the comparisons: RAM[14] becomes -1 when `test`
      jumps on D, and 0 otherwise. */
  function CompareTail(test: Comp, k: nat): seq<Asm> {
    [ At(Sym(TrueLabel(k))), Op(test),
      At(Num(ResultCell)), Op(MFromZero), At(Sym(FalseLabel(k))), Op(Jump(false)),
      Decl(TrueLabel(k)), At(Num(ResultCell)), Op(MFromMinusOne),
      Decl(FalseLabel(k)) ]
  }

  /** The instructions of each operation after `@13`, `D = M`; `k` numbers
      the labels of a comparison. */
  function OpBody(op: ArithOp, k: nat): seq<Asm> {
    match op
    case Add => [At(Num(ResultCell)), Op(DFromDPlusM), Op(MFromD)]
    case Sub => [At(Num(ResultCell)), Op(DFromMMinusD), Op(MFromD)]
    case Neg => [Op(DFromNegD), At(Num(ResultCell)), Op(MFromD)]
    case And => [At(Num(ResultCell)), Op(DFromMAndD), Op(MFromD)]
    case Or => [At(Num(ResultCell)), Op(DFromMOrD), Op(MFromD)]
    case Not => [Op(DFromNotD), At(Num(ResultCell)), Op(MFromD)]
    case Eq => [At(Num(ResultCell)), Op(DFromMMinusD)] + CompareTail(JumpIfZero, k)
    case Gt => [At(Num(ResultCell)), Op(DFromMMinusD)] + CompareTail(JumpIfPositive, k)
    case Lt => [At(Num(ResultCell)), Op(DFromDMinusM)] + CompareTail(JumpIfPositive, k)
  }

  /** The operands' pops, one or two. */
  function PopOperands(op: ArithOp): seq<Asm> {
    PopCell(TopCell) + (if IsUnary(op) then [] else PopCell(ResultCell))
  }

  /** The program of one operation: the pops, `@13`, `D = M`, the body and
      `push general 14`. */
  function ArithCode(op: ArithOp, k: nat): seq<Asm> {
    PopOperands(op) + [At(Num(TopCell)), Op(DFromM)] + OpBody(op, k) + PushCell(ResultCell)
  }

  /** The blocks of `pop general 13` and, unless the operation is `neg` or
      `not`, `pop general 14`. */
  function OperandLines(cmd: string, file: string, debug: bool): seq<Line> {
    MemBlock("pop", "general", TopCell, file, debug, DefaultPadding).value
      + (if cmd != "neg" && cmd != "not" then MemBlock("pop", "general", ResultCell, file, debug, DefaultPadding).value
         else [])
  }

  /** `generate_a_l_code_block(a_l_cmd, filename, jump_counter,
      is_debug_option, padding)`. The counter is taken by value: a
      comparison numbers its labels `counter + 1` and the caller's counter
      is not advanced. An unknown operation is fatal. */
  function ArithBlock(cmd: string, file: string, counter: nat, debug: bool, padding: nat): (r: Result<seq<Line>>)
    ensures r.Ok? <==> OpOf(cmd).Some?
    ensures r.Ok? && !debug ==> AllInstr(r.value)
  {
    var pops := OperandLines(cmd, file, debug);
    match OpOf(cmd)
    case None => Fatal(UnknownError)
    case Some(op) =>
      var push := MemBlock("push", "general", ResultCell, file, debug, DefaultPadding).value;
      var body := Instrs([At(Num(TopCell)), Op(DFromM)] + OpBody(op, counter + 1));
      OperandLinesPlain(cmd, file, debug);
      AllInstrAppend(pops, body);
      AllInstrAppend(pops + body, push);
      AnnotateOff(padding, "// " + cmd, pops + body + push);
      Ok(Annotate(debug, padding, "// " + cmd, pops + body + push))
  }

  lemma OperandLinesPlain(cmd: string, file: string, debug: bool)
    ensures !debug ==> AllInstr(OperandLines(cmd, file, debug))
  {
    AllInstrAppend(MemBlock("pop", "general", TopCell, file, debug, DefaultPadding).value,
      if cmd != "neg" && cmd != "not" then MemBlock("pop", "general", ResultCell, file, debug, DefaultPadding).value else []);
  }

  // -----------------------------------------------------------------------
  // The program of a block
  // -----------------------------------------------------------------------

  /** `neg` and `not` are the unary operations. */
  lemma UnaryNames(cmd: string)
    requires OpOf(cmd).Some?
    ensures IsUnary(OpOf(cmd).value) <==> cmd == "neg" || cmd == "not"
  {
  }

  /** The program of a `general` block is its template. */
  lemma GeneralCode(i: nat, file: string, debug: bool)
    ensures Code(MemBlock("pop", "general", i, file, debug, DefaultPadding).value) == PopCell(i)
    ensures Code(MemBlock("push", "general", i, file, debug, DefaultPadding).value) == PushCell(i)
  {
    GeneralTemplates(i, file);
    PopGeneralBlock(i, file, debug, DefaultPadding);
    PushGeneralBlock(i, file, debug, DefaultPadding);
    CodeAnnotate(debug, DefaultPadding, MemComment("pop", "general", i), Instrs(PopCode(General, i, file).value));
    CodeAnnotate(debug, DefaultPadding, MemComment("push", "general", i), Instrs(PushCode(General, i, file).value));
    CodeInstrs(PopCode(General, i, file).value);
    CodeInstrs(PushCode(General, i, file).value);
  }

  lemma OperandLinesCode(cmd: string, file: string, debug: bool)
    requires OpOf(cmd).Some?
    ensures Code(OperandLines(cmd, file, debug)) == PopOperands(OpOf(cmd).value)
  {
    UnaryNames(cmd);
    GeneralCode(TopCell, file, debug);
    GeneralCode(ResultCell, file, debug);
    CodeAppend(MemBlock("pop", "general", TopCell, file, debug, DefaultPadding).value,
      if cmd != "neg" && cmd != "not" then MemBlock("pop", "general", ResultCell, file, debug, DefaultPadding).value else []);
  }

  /** The lines of a known operation's block. */
  lemma ArithBlockLines(cmd: string, file: string, counter: nat, debug: bool, padding: nat)
    requires OpOf(cmd).Some?
    ensures ArithBlock(cmd, file, counter, debug, padding)
              == Ok(Annotate(debug, padding, "// " + cmd,
                   OperandLines(cmd, file, debug)
                   + Instrs([At(Num(TopCell)), Op(DFromM)] + OpBody(OpOf(cmd).value, counter + 1))
                   + MemBlock("push", "general", ResultCell, file, debug, DefaultPadding).value))
  {
  }

  /** The lines of a block denote the operation's program, whatever the
      debug settings; the labels are numbered `counter + 1`. */
  lemma ArithBlockCode(cmd: string, file: string, counter: nat, debug: bool, padding: nat)
    requires OpOf(cmd).Some?
    ensures Code(ArithBlock(cmd, file, counter, debug, padding).value)
              == ArithCode(OpOf(cmd).value, counter + 1)
  {
    var op := OpOf(cmd).value;
    var pops := OperandLines(cmd, file, debug);
    var push := MemBlock("push", "general", ResultCell, file, debug, DefaultPadding).value;
    var inner := [At(Num(TopCell)), Op(DFromM)] + OpBody(op, counter + 1);
    var body := Instrs(inner);
    ArithBlockLines(cmd, file, counter, debug, padding);
    CodeAnnotate(debug, padding, "// " + cmd, pops + body + push);
    CodeAppend(pops + body, push);
    CodeAppend(pops, body);
    OperandLinesCode(cmd, file, debug);
    GeneralCode(ResultCell, file, debug);
    CodeInstrs(inner);
    var a, b, c := PopOperands(op), [At(Num(TopCell)), Op(DFromM)], OpBody(op, counter + 1);
    assert a + (b + c) == a + b + c;
  }

  /** Binary operations pop two words and unary ones one: the program
      holds that many `@0`, `M = M - 1` pairs. */
  lemma PopsOfOperation(op: ArithOp)
    ensures CountSpUpdates(PopOperands(op), MFromMMinusOne) == Arity(op)
  {
    GeneralTemplates(TopCell, "");
    GeneralTemplates(ResultCell, "");
    PopSpUpdates(General, TopCell, "");
    PopSpUpdates(General, ResultCell, "");
    CountSpUpdatesAppend(PopCell(TopCell), if IsUnary(op) then [] else PopCell(ResultCell), MFromMMinusOne);
  }

  // -----------------------------------------------------------------------
  // Labels
  // -----------------------------------------------------------------------

  lemma TrueFalseDistinct(j: nat, k: nat)
    ensures TrueLabel(j) != FalseLabel(k)
  {
    assert TrueLabel(j)[0] == 't' && FalseLabel(k)[0] == 'f';
  }

  /** Labels of different numbers differ; labels of equal numbers are
      equal. */
  lemma LabelsInjective(j: nat, k: nat)
    ensures TrueLabel(j) == TrueLabel(k) <==> j == k
    ensures FalseLabel(j) == FalseLabel(k) <==> j == k
  {
    NatToStringInjective(j, k);
    var t, f := "true_expression", "false_expression";
    assert (t + NatToString(j))[|t|..] == NatToString(j) && (t + NatToString(k))[|t|..] == NatToString(k);
    assert (f + NatToString(j))[|f|..] == NatToString(j) && (f + NatToString(k))[|f|..] == NatToString(k);
  }

  /** The memory templates declare no label. */
  lemma NoDeclsInMemoryCode(seg: Segment, i: nat, file: string)
    ensures PushCode(seg, i, file).Ok? ==> Decls(PushCode(seg, i, file).value) == []
    ensures PopCode(seg, i, file).Ok? ==> Decls(PopCode(seg, i, file).value) == []
  {
    NoDeclsInPush(seg, i, file);
    NoDeclsInPop(seg, i, file);
  }

  lemma NoDeclsInPush(seg: Segment, i: nat, file: string)
    ensures PushCode(seg, i, file).Ok? ==> Decls(PushCode(seg, i, file).value) == []
  {
    if PushCode(seg, i, file).Ok? {
      var load := PushLoad(seg, i, file);
      assert PushCode(seg, i, file).value == load + PushD();
      if IsBaseSegment(seg) {
        assert load == ComputeAddress(seg, i) + [Op(AFromM), Op(DFromM)];
      }
      NoDeclsWithoutDecl(load);
      NoDeclsWithoutDecl(PushD());
      DeclsAppend(load, PushD());
    }
  }

  lemma NoDeclsInPop(seg: Segment, i: nat, file: string)
    ensures PopCode(seg, i, file).Ok? ==> Decls(PopCode(seg, i, file).value) == []
  {
    if PopCode(seg, i, file).Ok? {
      NoDeclsWithoutDecl(PopCode(seg, i, file).value);
    }
  }

  lemma {:induction false} NoDeclsWithoutDecl(code: seq<Asm>)
    requires forall k :: 0 <= k < |code| ==> !code[k].Decl?
    ensures Decls(code) == []
    decreases |code|
  {
    if |code| > 0 {
      NoDeclsWithoutDecl(code[1..]);
    }
  }

  lemma CompareTailDecls(test: Comp, k: nat)
    ensures Decls(CompareTail(test, k)) == [TrueLabel(k), FalseLabel(k)]
  {
    var tail := CompareTail(test, k);
    assert tail == tail[..6] + [tail[6]] + tail[7..9] + [tail[9]];
    DeclsAppend(tail[..6] + [tail[6]] + tail[7..9], [tail[9]]);
    DeclsAppend(tail[..6] + [tail[6]], tail[7..9]);
    DeclsAppend(tail[..6], [tail[6]]);
    NoDeclsWithoutDecl(tail[..6]);
    NoDeclsWithoutDecl(tail[7..9]);
  }

  lemma OpBodyDecls(op: ArithOp, k: nat)
    ensures Decls(OpBody(op, k)) == (if IsComparison(op) then [TrueLabel(k), FalseLabel(k)] else [])
  {
    if IsComparison(op) {
      var test := if op == Eq then JumpIfZero else JumpIfPositive;
      var head := OpBody(op, k)[..2];
      assert OpBody(op, k) == head + CompareTail(test, k);
      DeclsAppend(head, CompareTail(test, k));
      CompareTailDecls(test, k);
      NoDeclsWithoutDecl(head);
    } else {
      NoDeclsWithoutDecl(OpBody(op, k));
    }
  }

  lemma PopOperandsDecls(op: ArithOp)
    ensures Decls(PopOperands(op)) == []
  {
    NoDeclsWithoutDecl(PopOperands(op));
  }

  /** A comparison declares its true label and then its false label, each
      once, and no other label; the other operations declare none. */
  lemma ArithLabels(op: ArithOp, k: nat)
    ensures Decls(ArithCode(op, k))
              == (if IsComparison(op) then [TrueLabel(k), FalseLabel(k)] else [])
  {
    var pops := PopOperands(op);
    var pre := pops + [At(Num(TopCell)), Op(DFromM)];
    PopOperandsDecls(op);
    NoDeclsWithoutDecl(PushCell(ResultCell));
    OpBodyDecls(op, k);
    NoDeclsWithoutDecl([At(Num(TopCell)), Op(DFromM)]);
    DeclsAppend(pops, [At(Num(TopCell)), Op(DFromM)]);
    DeclsAppend(pre, OpBody(op, k));
    DeclsAppend(pre + OpBody(op, k), PushCell(ResultCell));
  }

  /** Because the counter is taken by value, two comparisons generated with
      the same counter declare the same label twice. */
  lemma SameCounterRepeatsLabel(op1: ArithOp, op2: ArithOp, counter: nat)
    requires IsComparison(op1) && IsComparison(op2)
    ensures var code := ArithCode(op1, counter + 1) + ArithCode(op2, counter + 1);
            Decls(code) == [TrueLabel(counter + 1), FalseLabel(counter + 1), TrueLabel(counter + 1), FalseLabel(counter + 1)]
  {
    ArithLabels(op1, counter + 1);
    ArithLabels(op2, counter + 1);
    DeclsAppend(ArithCode(op1, counter + 1), ArithCode(op2, counter + 1));
  }

  /** Only the labels depend on the counter. */
  lemma CounterOnlyNamesLabels(op: ArithOp, j: nat, k: nat)
    ensures ArithCode(op, j) == ArithCode(op, k) <==> !IsComparison(op) || j == k
  {
    if IsComparison(op) && j != k {
      ArithLabels(op, j);
      ArithLabels(op, k);
      LabelsInjective(j, k);
      assert Decls(ArithCode(op, j))[0] != Decls(ArithCode(op, k))[0];
    }
  }
}
