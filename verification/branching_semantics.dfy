/** What the branching blocks do on the abstract Hack machine: `label X`
    is a no-op slot, `goto X` lands on the address the table gives X, and
    `if-goto X` pops the condition into RAM[13] and lands there exactly when
    the condition is not zero. With the assembler's table, X's address is
    its first declaration in the program. */
module BranchingSemantics {
  import opened Strings
  import opened Hack
  import opened Machine
  import opened Memory
  import opened MemorySemantics
  import opened Arithmetic
  import opened ArithmeticSemantics
  import opened Branching

  /** `(X)` only moves past itself. */
  lemma LabelRun(p: seq<Asm>, sym: Symbols, target: string, s: Cpu)
    requires Placed(p, s.pc, BranchCode(Label, target))
    ensures Run(p, sym, s, 1) == s.(pc := s.pc + 1)
  {
    assert p[s.pc] == Decl(target);
    RunStep(p, sym, s);
  }

  /** `@X`, `0;JMP` lands on X's address and changes no cell. */
  lemma GotoRun(p: seq<Asm>, sym: Symbols, target: string, s: Cpu)
    requires Placed(p, s.pc, BranchCode(Goto, target)) && Lookup(sym, target) < WordCount
    ensures var t := Run(p, sym, s, 2);
            t.pc == Lookup(sym, target) && t.ram == s.ram
  {
    assert p[s.pc] == At(Sym(target)) && p[s.pc + 1] == Op(Jump(false));
    RunTwo(p, sym, Sym(target), Op(Jump(false)), s);
  }

  /** The pop and `@13`, `D = M` of `if-goto`: D holds the popped word. */
  lemma CondLoaded(p: seq<Asm>, sym: Symbols, s: Cpu)
    requires HasOperands(s.ram, 1)
    ensures var t := ExecBlock(p, sym, PopCell(CondCell) + [At(Num(CondCell)), Op(DFromM)], s);
            var sp := Read(s.ram, SP);
            && t.pc == s.pc + |PopCell(CondCell)| + 2
            && t.ram == s.ram[SP := sp - 1][CondCell := Below(s.ram, 1)]
            && t.d == Below(s.ram, 1)
  {
    ExecBlockAppend(p, sym, PopCell(CondCell), [At(Num(CondCell)), Op(DFromM)], s);
    PopCellRam(p, sym, CondCell, s);
    ReadCellEffect(p, sym, Num(CondCell), CondCell, ExecBlock(p, sym, PopCell(CondCell), s));
  }

  /** `@X`, `D;JNE`: to X's address exactly when D is not zero. */
  lemma JumpIfTrueRun(p: seq<Asm>, sym: Symbols, target: string, s: Cpu)
    requires Placed(p, s.pc, [At(Sym(target)), Op(JumpIfNonZero)]) && Lookup(sym, target) < WordCount
    ensures var t := Run(p, sym, s, 2);
            t.pc == (if s.d != 0 then Lookup(sym, target) else s.pc + 2) && t.ram == s.ram
  {
    assert p[s.pc] == At(Sym(target)) && p[s.pc + 1] == Op(JumpIfNonZero);
    RunTwo(p, sym, Sym(target), Op(JumpIfNonZero), s);
  }

  /** `if-goto X` pops the condition, keeps it in RAM[13], and lands on X's
      address when it is not zero and right after the block otherwise. */
  lemma IfGotoRun(p: seq<Asm>, sym: Symbols, target: string, s: Cpu)
    requires HasOperands(s.ram, 1)
    requires Placed(p, s.pc, BranchCode(IfGoto, target)) && Lookup(sym, target) < WordCount
    ensures var t := Run(p, sym, s, |BranchCode(IfGoto, target)|);
            var sp, y := Read(s.ram, SP), Below(s.ram, 1);
            && t.pc == (if y != 0 then Lookup(sym, target) else s.pc + |BranchCode(IfGoto, target)|)
            && t.ram == s.ram[SP := sp - 1][CondCell := y]
  {
    var load := PopCell(CondCell) + [At(Num(CondCell)), Op(DFromM)];
    var test := [At(Sym(target)), Op(JumpIfNonZero)];
    assert BranchCode(IfGoto, target) == load + test;
    PlacedSplit(p, s.pc, load, test);
    CellsJumpFree(CondCell);
    JumpFreeAppend(PopCell(CondCell), [At(Num(CondCell)), Op(DFromM)]);
    RunBlock(p, sym, load, s);
    CondLoaded(p, sym, s);
    var m := Run(p, sym, s, |load|);
    assert m.pc == s.pc + |load| && m.d == Below(s.ram, 1);
    JumpIfTrueRun(p, sym, target, m);
    RunAppend(p, sym, s, |load|, 2);
    var t := Run(p, sym, m, 2);
    assert |BranchCode(IfGoto, target)| == |load| + 2;
    assert t.ram == m.ram;
  }

  /** With the assembler's table, `goto X` lands on the first `(X)` of the
      program, wherever it is. */
  lemma GotoLandsOnLabel(p: seq<Asm>, vars: map<string, nat>, sym: Symbols, target: string, q: nat, s: Cpu)
    requires Assembled(p, vars, sym) && !IsDigits(target) && target !in Predefined
    requires q < |p| && q < WordCount && p[q] == Decl(target) && NotDeclaredBefore(p, q, target)
    requires Placed(p, s.pc, BranchCode(Goto, target))
    ensures Run(p, sym, s, 2).pc == q
  {
    LabelLookup(p, vars, sym, target, q);
    GotoRun(p, sym, target, s);
  }

  /** With the assembler's table, `if-goto X` lands on the first `(X)`
      exactly when the popped word is not zero. */
  lemma IfGotoLandsOnLabel(p: seq<Asm>, vars: map<string, nat>, sym: Symbols, target: string, q: nat, s: Cpu)
    requires Assembled(p, vars, sym) && !IsDigits(target) && target !in Predefined
    requires q < |p| && q < WordCount && p[q] == Decl(target) && NotDeclaredBefore(p, q, target)
    requires q != s.pc + |BranchCode(IfGoto, target)|
    requires HasOperands(s.ram, 1) && Placed(p, s.pc, BranchCode(IfGoto, target))
    ensures Run(p, sym, s, |BranchCode(IfGoto, target)|).pc == q <==> Below(s.ram, 1) != 0
  {
    LabelLookup(p, vars, sym, target, q);
    IfGotoRun(p, sym, target, s);
  }
}
