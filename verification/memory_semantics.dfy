/** What the push/pop templates do on the abstract Hack machine, against
    the VM's own definition of the segments: `local`/`argument`/`this`/`that`
    are based at the address held in RAM[1..4] (and the generator's extra
    key `SP` at the stack pointer in RAM[0]), `temp` starts at RAM[5],
    `pointer i` is RAM[3 + i], `static i` is the assembler's cell for the
    symbol `<file>.<i>`, `general i` is RAM[i], and `constant i` is the
    value i itself.

    The stack pointer is assumed to point above the sixteen registers, as
    it does once the VM's stack (based at 256) is set up. */
module MemorySemantics {
  import opened Wrappers
  import opened Strings
  import opened Hack
  import opened Machine
  import opened Memory

  /** The RAM cell that `seg i` denotes in the VM. */
  function SegmentAddress(sym: Symbols, seg: Segment, i: nat, file: string, ram: Ram): nat
    requires seg != Constant
  {
    match seg
    case Local => Read(ram, 1) + i
    case Argument => Read(ram, 2) + i
    case This => Read(ram, 3) + i
    case That => Read(ram, 4) + i
    case StackPointer => Read(ram, SP) + i
    case Temp => 5 + i
    case Pointer => 3 + i
    case Static => Lookup(sym, StaticSymbol(file, i))
    case General => i
  }

  /** The word `push seg i` places on the stack. */
  function PushedValue(sym: Symbols, seg: Segment, i: nat, file: string, ram: Ram): Word {
    if seg == Constant then W(i) else Read(ram, SegmentAddress(sym, seg, i, file, ram))
  }

  /** Scratch cells a template may overwrite besides its target. */
  function Scratch(seg: Segment): set<nat> {
    if IsBaseSegment(seg) then {AddrScratch} else {}
  }

  /** The stack pointer sits above the registers: something to pop. */
  predicate StackAboveRegisters(ram: Ram) {
    16 < Read(ram, SP)
  }

  /** ... and below the last word: room to push. */
  predicate StackInRange(ram: Ram) {
    StackAboveRegisters(ram) && Read(ram, SP) < 0xFFFF
  }

  /** What a run of `push seg i` from `s` to `t` must achieve: the word is
      stored at the old stack top, the stack pointer moves up by one, D
      still holds the word, and only the scratch cell changes besides. */
  ghost predicate PushSpec(p: seq<Asm>, sym: Symbols, seg: Segment, i: nat, file: string, s: Cpu, t: Cpu) {
    var sp := Read(s.ram, SP);
    && Read(t.ram, SP) == sp + 1
    && Read(t.ram, sp) == PushedValue(sym, seg, i, file, s.ram)
    && t.d == PushedValue(sym, seg, i, file, s.ram)
    && Unchanged(s, t, {SP, sp} + Scratch(seg))
    && (IsBaseSegment(seg) ==> Read(t.ram, AddrScratch) == SegmentAddress(sym, seg, i, file, s.ram))
  }

  /** What a run of `pop seg i` from `s` to `t` must achieve: the stack
      top lands in the segment's cell and the stack pointer moves down by
      one (unless the cell is the stack pointer itself). */
  ghost predicate PopSpec(p: seq<Asm>, sym: Symbols, seg: Segment, i: nat, file: string, s: Cpu, t: Cpu)
    requires seg != Constant && 0 < Read(s.ram, SP)
  {
    var sp := Read(s.ram, SP);
    var addr := SegmentAddress(sym, seg, i, file, s.ram);
    && Read(t.ram, addr) == Read(s.ram, sp - 1)
    && (addr != SP ==> Read(t.ram, SP) == sp - 1)
    && Unchanged(s, t, {SP, addr} + Scratch(seg))
  }

  /** The RAM after a push, from the values the pieces compute; `addr` is
      the address a base-pointer segment leaves in the scratch cell. */
  lemma PushSpecFromRam(p: seq<Asm>, sym: Symbols, seg: Segment, i: nat, file: string, s: Cpu, t: Cpu, addr: nat)
    requires StackInRange(s.ram)
    requires IsBaseSegment(seg) ==> addr == SegmentAddress(sym, seg, i, file, s.ram) < WordCount
    requires t.d == PushedValue(sym, seg, i, file, s.ram)
    requires IsBaseSegment(seg) ==> t.ram == s.ram[AddrScratch := addr][Read(s.ram, SP) := t.d][SP := Read(s.ram, SP) + 1]
    requires !IsBaseSegment(seg) ==> t.ram == s.ram[Read(s.ram, SP) := t.d][SP := Read(s.ram, SP) + 1]
    ensures PushSpec(p, sym, seg, i, file, s, t)
  {
  }

  /** The RAM after a pop, from the values the pieces compute; `addr` is
      the segment's cell. */
  lemma PopSpecFromRam(p: seq<Asm>, sym: Symbols, seg: Segment, i: nat, file: string, s: Cpu, t: Cpu, addr: nat)
    requires seg != Constant && StackAboveRegisters(s.ram)
    requires addr == SegmentAddress(sym, seg, i, file, s.ram) < WordCount
    requires IsBaseSegment(seg) ==>
               t.ram == s.ram[AddrScratch := addr][SP := Read(s.ram, SP) - 1][addr := Read(s.ram, Read(s.ram, SP) - 1)]
    requires !IsBaseSegment(seg) ==>
               t.ram == s.ram[SP := Read(s.ram, SP) - 1][addr := Read(s.ram, Read(s.ram, SP) - 1)]
    ensures PopSpec(p, sym, seg, i, file, s, t)
  {
  }

  /** The base cells of `label_pointers` are the VM's segment bases. */
  lemma BaseSegmentAddress(sym: Symbols, seg: Segment, i: nat, file: string, ram: Ram)
    requires IsBaseSegment(seg)
    ensures SegmentAddress(sym, seg, i, file, ram) == Read(ram, BaseCell(seg)) + i
  {
  }

  // -----------------------------------------------------------------------
  // The pieces the templates are made of
  // -----------------------------------------------------------------------

  /** `*SP = D; SP++`. */
  lemma PushDEffect(p: seq<Asm>, sym: Symbols, s: Cpu)
    requires 16 <= Read(s.ram, SP) < 0xFFFF
    ensures var t := ExecBlock(p, sym, PushD(), s);
            var sp := Read(s.ram, SP);
            && t.pc == s.pc + 5 && t.d == s.d
            && t.ram == s.ram[sp := s.d][SP := sp + 1]
  {
  }

  /** `SP--; D = *SP`. */
  lemma PopDEffect(p: seq<Asm>, sym: Symbols, s: Cpu)
    requires 16 < Read(s.ram, SP)
    ensures var t := ExecBlock(p, sym, PopD(), s);
            var sp := Read(s.ram, SP);
            && t.pc == s.pc + 5
            && t.d == Read(s.ram, sp - 1)
            && t.ram == s.ram[SP := sp - 1]
  {
  }

  /** `RAM[15] = RAM[base] + i`, the address of `seg i`. */
  lemma ComputeAddressEffect(p: seq<Asm>, sym: Symbols, seg: Segment, i: nat, s: Cpu)
    requires IsBaseSegment(seg)
    requires Read(s.ram, BaseCell(seg)) + i < WordCount
    ensures var t := ExecBlock(p, sym, ComputeAddress(seg, i), s);
            var addr := Read(s.ram, BaseCell(seg)) + i;
            && t.pc == s.pc + 6 && t.a == AddrScratch && t.d == addr
            && t.ram == s.ram[AddrScratch := addr]
  {
    var b := ComputeAddress(seg, i);
    var base := Read(s.ram, BaseCell(seg));
    assert b == [b[0], b[1]] + [b[2], b[3]] + [b[4], b[5]];
    ExecBlockAppend(p, sym, [b[0], b[1]] + [b[2], b[3]], [b[4], b[5]], s);
    ExecBlockAppend(p, sym, [b[0], b[1]], [b[2], b[3]], s);
    ExecPair(p, sym, b[0], b[1], s);
    var s2 := ExecBlock(p, sym, [b[0], b[1]], s);
    assert s2 == s.(pc := s.pc + 2, a := BaseCell(seg), d := base);
    ExecPair(p, sym, b[2], b[3], s2);
    var s4 := ExecBlock(p, sym, [b[2], b[3]], s2);
    assert s4 == s.(pc := s.pc + 4, a := i, d := base + i);
    ExecPair(p, sym, b[4], b[5], s4);
  }

  /** `@x; D = M` reads the cell `x` names. */
  lemma ReadCellEffect(p: seq<Asm>, sym: Symbols, x: Addr, addr: nat, s: Cpu)
    requires AddrValue(sym, x) == addr < WordCount
    ensures ExecBlock(p, sym, [At(x), Op(DFromM)], s)
              == s.(pc := s.pc + 2, a := addr, d := Read(s.ram, addr))
  {
    ExecPair(p, sym, At(x), Op(DFromM), s);
  }

  /** `@x; M = D` writes D into the cell `x` names. */
  lemma StoreCellEffect(p: seq<Asm>, sym: Symbols, x: Addr, addr: nat, s: Cpu)
    requires AddrValue(sym, x) == addr < WordCount
    ensures ExecBlock(p, sym, [At(x), Op(MFromD)], s)
              == s.(pc := s.pc + 2, a := addr, ram := s.ram[addr := s.d])
  {
    ExecPair(p, sym, At(x), Op(MFromD), s);
  }

  /** `@15; A = M; M = D` writes D into the cell whose address is in 15. */
  lemma StoreIndirectEffect(p: seq<Asm>, sym: Symbols, s: Cpu)
    ensures var t := ExecBlock(p, sym, StoreIndirect(), s);
            var addr := Read(s.ram, AddrScratch);
            t == s.(pc := s.pc + 3, a := addr, ram := s.ram[addr := s.d])
  {
    assert StoreIndirect() == [At(Num(AddrScratch))] + [Op(AFromM), Op(MFromD)];
    ExecBlockAppend(p, sym, [At(Num(AddrScratch))], [Op(AFromM), Op(MFromD)], s);
    ExecOne(p, sym, At(Num(AddrScratch)), s);
    ExecPair(p, sym, Op(AFromM), Op(MFromD), Exec1(p, sym, At(Num(AddrScratch)), s));
  }

  /** `SP--; *SP = D`. */
  lemma DropStoreDEffect(p: seq<Asm>, sym: Symbols, s: Cpu)
    requires 16 < Read(s.ram, SP)
    ensures var t := ExecBlock(p, sym, DropStoreD(), s);
            var sp := Read(s.ram, SP);
            && t.pc == s.pc + 5 && t.d == s.d
            && t.ram == s.ram[SP := sp - 1][sp - 1 := s.d]
  {
  }

  /** `pointer 0` and `pointer 1` name the registers THIS and THAT. */
  lemma ResolvePointerSymbol(sym: Symbols, i: nat)
    requires i <= 1 && Registers(sym)
    ensures Lookup(sym, PointerSymbol(i)) == 3 + i
  {
  }

  /** The A-instruction of a directly addressed segment names the cell the
      VM assigns to it. */
  lemma DirectCellAddress(sym: Symbols, seg: Segment, i: nat, file: string, ram: Ram)
    requires !IsBaseSegment(seg) && seg != Constant && !(seg == Pointer && i > 1)
    requires seg == Pointer ==> Registers(sym)
    ensures AddrValue(sym, DirectCell(seg, i, file)) == SegmentAddress(sym, seg, i, file, ram)
  {
    if seg == Pointer {
      ResolvePointerSymbol(sym, i);
    }
  }

  // -----------------------------------------------------------------------
  // push
  // -----------------------------------------------------------------------

  /** The load part of a base-pointer segment leaves the segment's word in
      D and its address in the scratch cell. */
  lemma PushLoadBaseEffect(p: seq<Asm>, sym: Symbols, seg: Segment, i: nat, file: string, s: Cpu)
    requires IsBaseSegment(seg)
    requires Read(s.ram, BaseCell(seg)) + i < WordCount
    ensures var m := ExecBlock(p, sym, PushLoad(seg, i, file), s);
            var addr := Read(s.ram, BaseCell(seg)) + i;
            && m.pc == s.pc + 8
            && m.d == Read(s.ram[AddrScratch := addr], addr)
            && m.ram == s.ram[AddrScratch := addr]
  {
    ExecBlockAppend(p, sym, ComputeAddress(seg, i), [Op(AFromM), Op(DFromM)], s);
    ComputeAddressEffect(p, sym, seg, i, s);
    ExecPair(p, sym, Op(AFromM), Op(DFromM), ExecBlock(p, sym, ComputeAddress(seg, i), s));
  }

  /** The load part of the segments addressed directly leaves the segment's
      word in D and writes nothing. */
  lemma PushLoadDirectEffect(p: seq<Asm>, sym: Symbols, seg: Segment, i: nat, file: string, s: Cpu)
    requires !IsBaseSegment(seg) && !(seg == Pointer && i > 1)
    requires seg == Pointer ==> Registers(sym)
    requires seg != Constant ==> SegmentAddress(sym, seg, i, file, s.ram) < WordCount
    ensures var m := ExecBlock(p, sym, PushLoad(seg, i, file), s);
            && m.pc == s.pc + 2
            && m.d == PushedValue(sym, seg, i, file, s.ram)
            && m.ram == s.ram
  {
    if seg == Constant {
      ExecPair(p, sym, At(Num(i)), Op(DFromA), s);
    } else {
      var addr := SegmentAddress(sym, seg, i, file, s.ram);
      DirectCellAddress(sym, seg, i, file, s.ram);
      ReadCellEffect(p, sym, DirectCell(seg, i, file), addr, s);
    }
  }

  /** Segments reached through a base-address cell. */
  lemma PushBaseSemantics(p: seq<Asm>, sym: Symbols, seg: Segment, i: nat, file: string, s: Cpu)
    requires IsBaseSegment(seg) && StackInRange(s.ram)
    requires SegmentAddress(sym, seg, i, file, s.ram) < WordCount
    requires SegmentAddress(sym, seg, i, file, s.ram) != AddrScratch
    ensures PushSpec(p, sym, seg, i, file, s, ExecBlock(p, sym, PushLoad(seg, i, file) + PushD(), s))
  {
    BaseSegmentAddress(sym, seg, i, file, s.ram);
    PushBaseRam(p, sym, seg, i, file, s);
    PushBaseSpec(p, sym, seg, i, file, s, ExecBlock(p, sym, PushLoad(seg, i, file) + PushD(), s));
  }

  lemma PushBaseSpec(p: seq<Asm>, sym: Symbols, seg: Segment, i: nat, file: string, s: Cpu, t: Cpu)
    requires IsBaseSegment(seg) && StackInRange(s.ram)
    requires Read(s.ram, BaseCell(seg)) + i < WordCount
    requires Read(s.ram, BaseCell(seg)) + i != AddrScratch
    requires var sp := Read(s.ram, SP);
             var addr := Read(s.ram, BaseCell(seg)) + i;
             && t.d == Read(s.ram, addr)
             && t.ram == s.ram[AddrScratch := addr][sp := t.d][SP := sp + 1]
    ensures PushSpec(p, sym, seg, i, file, s, t)
  {
    BaseSegmentAddress(sym, seg, i, file, s.ram);
    PushSpecFromRam(p, sym, seg, i, file, s, t, Read(s.ram, BaseCell(seg)) + i);
  }

  /** The whole template of a base-pointer segment's push, on D and RAM. */
  lemma PushBaseRam(p: seq<Asm>, sym: Symbols, seg: Segment, i: nat, file: string, s: Cpu)
    requires IsBaseSegment(seg) && StackInRange(s.ram)
    requires Read(s.ram, BaseCell(seg)) + i < WordCount
    requires Read(s.ram, BaseCell(seg)) + i != AddrScratch
    ensures var t := ExecBlock(p, sym, PushLoad(seg, i, file) + PushD(), s);
            var sp := Read(s.ram, SP);
            var addr := Read(s.ram, BaseCell(seg)) + i;
            && t.d == Read(s.ram, addr)
            && t.ram == s.ram[AddrScratch := addr][sp := t.d][SP := sp + 1]
  {
    var load := PushLoad(seg, i, file);
    ExecBlockAppend(p, sym, load, PushD(), s);
    PushLoadBaseEffect(p, sym, seg, i, file, s);
    PushDEffect(p, sym, ExecBlock(p, sym, load, s));
  }

  /** Segments addressed directly. */
  lemma PushDirectSemantics(p: seq<Asm>, sym: Symbols, seg: Segment, i: nat, file: string, s: Cpu)
    requires !IsBaseSegment(seg) && !(seg == Pointer && i > 1) && StackInRange(s.ram)
    requires seg == Pointer ==> Registers(sym)
    requires seg != Constant ==> SegmentAddress(sym, seg, i, file, s.ram) < WordCount
    ensures PushSpec(p, sym, seg, i, file, s, ExecBlock(p, sym, PushLoad(seg, i, file) + PushD(), s))
  {
    var load := PushLoad(seg, i, file);
    ExecBlockAppend(p, sym, load, PushD(), s);
    PushLoadDirectEffect(p, sym, seg, i, file, s);
    var m := ExecBlock(p, sym, load, s);
    PushDEffect(p, sym, m);
    PushSpecFromRam(p, sym, seg, i, file, s, ExecBlock(p, sym, PushD(), m), 0);
  }

  /** Executing `push seg i` stores the segment's word at the old stack
      top and advances the stack pointer by one; only the scratch cell 15
      (for the base-pointer segments) is overwritten besides. */
  lemma PushSemantics(p: seq<Asm>, sym: Symbols, seg: Segment, i: nat, file: string, s: Cpu)
    requires PushCode(seg, i, file).Ok? && StackInRange(s.ram)
    requires seg == Pointer ==> Registers(sym)
    requires seg != Constant ==> SegmentAddress(sym, seg, i, file, s.ram) < WordCount
    requires IsBaseSegment(seg) ==> SegmentAddress(sym, seg, i, file, s.ram) != AddrScratch
    ensures var code := PushCode(seg, i, file).value;
            && ExecBlock(p, sym, code, s).pc == s.pc + |code|
            && PushSpec(p, sym, seg, i, file, s, ExecBlock(p, sym, code, s))
  {
    ExecBlockPc(p, sym, PushCode(seg, i, file).value, s);
    if IsBaseSegment(seg) {
      PushBaseSemantics(p, sym, seg, i, file, s);
    } else {
      PushDirectSemantics(p, sym, seg, i, file, s);
    }
  }

  // -----------------------------------------------------------------------
  // pop
  // -----------------------------------------------------------------------

  /** `RAM[15] = RAM[base] + i; SP--; D = *SP`. */
  lemma AddressThenPopD(p: seq<Asm>, sym: Symbols, seg: Segment, i: nat, s: Cpu)
    requires IsBaseSegment(seg) && StackAboveRegisters(s.ram)
    requires Read(s.ram, BaseCell(seg)) + i < WordCount
    ensures var m := ExecBlock(p, sym, ComputeAddress(seg, i) + PopD(), s);
            var sp := Read(s.ram, SP);
            && m.d == Read(s.ram, sp - 1)
            && m.ram == s.ram[AddrScratch := Read(s.ram, BaseCell(seg)) + i][SP := sp - 1]
  {
    ExecBlockAppend(p, sym, ComputeAddress(seg, i), PopD(), s);
    ComputeAddressEffect(p, sym, seg, i, s);
    PopDEffect(p, sym, ExecBlock(p, sym, ComputeAddress(seg, i), s));
  }

  /** The whole template of a base-pointer segment's pop, on RAM. */
  lemma PopBaseRam(p: seq<Asm>, sym: Symbols, seg: Segment, i: nat, s: Cpu)
    requires IsBaseSegment(seg) && StackAboveRegisters(s.ram)
    requires Read(s.ram, BaseCell(seg)) + i < WordCount
    ensures var t := ExecBlock(p, sym, ComputeAddress(seg, i) + PopD() + StoreIndirect(), s);
            var sp := Read(s.ram, SP);
            var addr := Read(s.ram, BaseCell(seg)) + i;
            t.ram == s.ram[AddrScratch := addr][SP := sp - 1][addr := Read(s.ram, sp - 1)]
  {
    ExecBlockAppend(p, sym, ComputeAddress(seg, i) + PopD(), StoreIndirect(), s);
    AddressThenPopD(p, sym, seg, i, s);
    StoreIndirectEffect(p, sym, ExecBlock(p, sym, ComputeAddress(seg, i) + PopD(), s));
  }

  /** Segments reached through a base-address cell. */
  lemma PopBaseSemantics(p: seq<Asm>, sym: Symbols, seg: Segment, i: nat, file: string, s: Cpu)
    requires IsBaseSegment(seg) && StackAboveRegisters(s.ram)
    requires SegmentAddress(sym, seg, i, file, s.ram) < WordCount
    ensures PopSpec(p, sym, seg, i, file, s, ExecBlock(p, sym, ComputeAddress(seg, i) + PopD() + StoreIndirect(), s))
  {
    BaseSegmentAddress(sym, seg, i, file, s.ram);
    PopBaseRam(p, sym, seg, i, s);
    PopBaseSpec(p, sym, seg, i, file, s, ExecBlock(p, sym, ComputeAddress(seg, i) + PopD() + StoreIndirect(), s));
  }

  lemma PopBaseSpec(p: seq<Asm>, sym: Symbols, seg: Segment, i: nat, file: string, s: Cpu, t: Cpu)
    requires IsBaseSegment(seg) && StackAboveRegisters(s.ram)
    requires Read(s.ram, BaseCell(seg)) + i < WordCount
    requires var sp := Read(s.ram, SP);
             var addr := Read(s.ram, BaseCell(seg)) + i;
             t.ram == s.ram[AddrScratch := addr][SP := sp - 1][addr := Read(s.ram, sp - 1)]
    ensures PopSpec(p, sym, seg, i, file, s, t)
  {
    BaseSegmentAddress(sym, seg, i, file, s.ram);
    PopSpecFromRam(p, sym, seg, i, file, s, t, Read(s.ram, BaseCell(seg)) + i);
  }

  /** Segments addressed directly (`temp`, `static`, `general`). */
  lemma PopDirectSemantics(p: seq<Asm>, sym: Symbols, seg: Segment, i: nat, file: string, s: Cpu)
    requires (seg == Temp || seg == Static || seg == General) && StackAboveRegisters(s.ram)
    requires SegmentAddress(sym, seg, i, file, s.ram) < WordCount
    ensures PopSpec(p, sym, seg, i, file, s,
              ExecBlock(p, sym, PopD() + [At(DirectCell(seg, i, file)), Op(MFromD)], s))
  {
    var sp := Read(s.ram, SP);
    var addr := SegmentAddress(sym, seg, i, file, s.ram);
    var store := [At(DirectCell(seg, i, file)), Op(MFromD)];
    ExecBlockAppend(p, sym, PopD(), store, s);
    PopDEffect(p, sym, s);
    var m := ExecBlock(p, sym, PopD(), s);
    DirectCellAddress(sym, seg, i, file, s.ram);
    StoreCellEffect(p, sym, DirectCell(seg, i, file), addr, m);
    PopSpecFromRam(p, sym, seg, i, file, s, ExecBlock(p, sym, store, m), addr);
  }

  /** Executing `pop seg i` (outside `constant` and `pointer`) moves the
      stack top into the segment's cell and lowers the stack pointer by one. */
  lemma PopSemantics(p: seq<Asm>, sym: Symbols, seg: Segment, i: nat, file: string, s: Cpu)
    requires PopCode(seg, i, file).Ok? && seg != Pointer && StackAboveRegisters(s.ram)
    requires SegmentAddress(sym, seg, i, file, s.ram) < WordCount
    ensures var code := PopCode(seg, i, file).value;
            && ExecBlock(p, sym, code, s).pc == s.pc + |code|
            && PopSpec(p, sym, seg, i, file, s, ExecBlock(p, sym, code, s))
  {
    ExecBlockPc(p, sym, PopCode(seg, i, file).value, s);
    if IsBaseSegment(seg) {
      PopBaseSemantics(p, sym, seg, i, file, s);
    } else {
      PopDirectSemantics(p, sym, seg, i, file, s);
    }
  }

  /** `pop pointer i` as written: the stack pointer goes down, but the word
      stored into the stack cell and into THIS/THAT is whatever the D
      register held before, not the popped word. */
  lemma PopPointerSemantics(p: seq<Asm>, sym: Symbols, i: nat, file: string, s: Cpu)
    requires i <= 1 && Registers(sym) && StackAboveRegisters(s.ram)
    ensures var code := PopCode(Pointer, i, file).value;
            var t := ExecBlock(p, sym, code, s);
            var sp := Read(s.ram, SP);
            && t.pc == s.pc + |code|
            && Read(t.ram, SP) == sp - 1
            && Read(t.ram, sp - 1) == s.d
            && Read(t.ram, 3 + i) == s.d
            && Unchanged(s, t, {SP, sp - 1, 3 + i})
  {
    var sp := Read(s.ram, SP);
    var store := [At(DirectCell(Pointer, i, file)), Op(MFromD)];
    ExecBlockAppend(p, sym, DropStoreD(), store, s);
    DropStoreDEffect(p, sym, s);
    var m := ExecBlock(p, sym, DropStoreD(), s);
    DirectCellAddress(sym, Pointer, i, file, s.ram);
    StoreCellEffect(p, sym, DirectCell(Pointer, i, file), 3 + i, m);
  }

  /** Consequently `pop pointer i` does not deliver the popped word to
      THIS/THAT unless D happened to hold it already. */
  lemma PopPointerIgnoresStackTop(p: seq<Asm>, sym: Symbols, i: nat, file: string, s: Cpu)
    requires i <= 1 && Registers(sym) && StackAboveRegisters(s.ram)
    ensures var t := ExecBlock(p, sym, PopCode(Pointer, i, file).value, s);
            Read(t.ram, 3 + i) == Read(s.ram, Read(s.ram, SP) - 1) <==> s.d == Read(s.ram, Read(s.ram, SP) - 1)
  {
    PopPointerSemantics(p, sym, i, file, s);
  }

  // -----------------------------------------------------------------------
  // push then pop
  // -----------------------------------------------------------------------

  /** What `push seg i; pop seg i` from `s` to `t` must achieve: the stack
      pointer and the segment's cell are as before; the cell just above the
      stack and the scratch cell may have changed. */
  ghost predicate RoundTripSpec(p: seq<Asm>, sym: Symbols, seg: Segment, i: nat, file: string, s: Cpu, t: Cpu)
    requires seg != Constant
  {
    var sp := Read(s.ram, SP);
    var addr := SegmentAddress(sym, seg, i, file, s.ram);
    && Read(t.ram, SP) == sp
    && Read(t.ram, addr) == Read(s.ram, addr)
    && Unchanged(s, t, {sp} + Scratch(seg))
  }

  /** A push meeting its specification followed by a pop meeting its
      specification is a round trip. */
  lemma RoundTripFromSpecs(p: seq<Asm>, sym: Symbols, seg: Segment, i: nat, file: string, s: Cpu, m: Cpu, t: Cpu)
    requires seg != Constant && seg != Pointer && seg != StackPointer && StackInRange(s.ram)
    requires SegmentAddress(sym, seg, i, file, s.ram) < WordCount
    requires PushSpec(p, sym, seg, i, file, s, m)
    requires StackAboveRegisters(m.ram) && PopSpec(p, sym, seg, i, file, m, t)
    ensures RoundTripSpec(p, sym, seg, i, file, s, t)
  {
    var sp := Read(s.ram, SP);
    assert forall k: nat :: 1 <= k <= 4 ==> Read(m.ram, k) == Read(s.ram, k);
    assert SegmentAddress(sym, seg, i, file, m.ram) == SegmentAddress(sym, seg, i, file, s.ram);
  }

  lemma PushPopSegment(p: seq<Asm>, sym: Symbols, seg: Segment, i: nat, file: string, s: Cpu)
    requires seg != Constant && seg != Pointer && seg != StackPointer && StackInRange(s.ram)
    requires SegmentAddress(sym, seg, i, file, s.ram) < WordCount
    requires IsBaseSegment(seg) ==> SegmentAddress(sym, seg, i, file, s.ram) != AddrScratch
    ensures RoundTripSpec(p, sym, seg, i, file, s,
              ExecBlock(p, sym, PopCode(seg, i, file).value, ExecBlock(p, sym, PushCode(seg, i, file).value, s)))
  {
    PushSemantics(p, sym, seg, i, file, s);
    var m := ExecBlock(p, sym, PushCode(seg, i, file).value, s);
    SegmentAddressAfterPush(p, sym, seg, i, file, s, m);
    PopSemantics(p, sym, seg, i, file, m);
    RoundTripFromSpecs(p, sym, seg, i, file, s, m, ExecBlock(p, sym, PopCode(seg, i, file).value, m));
  }

  /** A push leaves the base cells 1 to 4, and with them the address of
      every segment but `SP`, alone. */
  lemma SegmentAddressAfterPush(p: seq<Asm>, sym: Symbols, seg: Segment, i: nat, file: string, s: Cpu, m: Cpu)
    requires seg != Constant && seg != StackPointer && StackInRange(s.ram)
    requires PushSpec(p, sym, seg, i, file, s, m)
    ensures StackAboveRegisters(m.ram)
    ensures SegmentAddress(sym, seg, i, file, m.ram) == SegmentAddress(sym, seg, i, file, s.ram)
  {
    assert forall k: nat :: 1 <= k <= 4 ==> Read(m.ram, k) == Read(s.ram, k);
  }

  lemma PushPopPointer(p: seq<Asm>, sym: Symbols, i: nat, file: string, s: Cpu)
    requires i <= 1 && Registers(sym) && StackInRange(s.ram)
    ensures RoundTripSpec(p, sym, Pointer, i, file, s,
              ExecBlock(p, sym, PopCode(Pointer, i, file).value, ExecBlock(p, sym, PushCode(Pointer, i, file).value, s)))
  {
    PushSemantics(p, sym, Pointer, i, file, s);
    var m := ExecBlock(p, sym, PushCode(Pointer, i, file).value, s);
    SegmentAddressAfterPush(p, sym, Pointer, i, file, s, m);
    PopPointerSemantics(p, sym, i, file, m);
    RoundTripPointerFromSpecs(p, sym, i, file, s, m, ExecBlock(p, sym, PopCode(Pointer, i, file).value, m));
  }

  /** A push of `pointer i` followed by the pop as written is a round trip,
      because the push leaves the word in D. */
  lemma RoundTripPointerFromSpecs(p: seq<Asm>, sym: Symbols, i: nat, file: string, s: Cpu, m: Cpu, t: Cpu)
    requires i <= 1 && StackInRange(s.ram)
    requires PushSpec(p, sym, Pointer, i, file, s, m)
    requires var sp := Read(m.ram, SP);
             && Read(t.ram, SP) == sp - 1
             && Read(t.ram, sp - 1) == m.d
             && Read(t.ram, 3 + i) == m.d
             && Unchanged(m, t, {SP, sp - 1, 3 + i})
    ensures RoundTripSpec(p, sym, Pointer, i, file, s, t)
  {
    var sp := Read(s.ram, SP);
    assert Read(m.ram, SP) == sp + 1 && m.d == Read(s.ram, 3 + i);
    forall x: nat | x !in {sp}
      ensures Read(t.ram, x) == Read(s.ram, x)
    {
      if x != SP && x != 3 + i {
        assert Read(t.ram, x) == Read(m.ram, x);
      }
    }
  }

  /** `push seg i` followed by `pop seg i` leaves the stack pointer and the
      segment's cell as they were; `pointer` included, because the push
      leaves the word in D. `SP` is the exception (`StackPointerPushPop`):
      its cell moves with the stack pointer the push changes. */
  lemma PushPopRoundTrip(p: seq<Asm>, sym: Symbols, seg: Segment, i: nat, file: string, s: Cpu)
    requires seg != Constant && seg != StackPointer && PopCode(seg, i, file).Ok? && StackInRange(s.ram)
    requires seg == Pointer ==> Registers(sym)
    requires SegmentAddress(sym, seg, i, file, s.ram) < WordCount
    requires IsBaseSegment(seg) ==> SegmentAddress(sym, seg, i, file, s.ram) != AddrScratch
    ensures var code := PushCode(seg, i, file).value + PopCode(seg, i, file).value;
            RoundTripSpec(p, sym, seg, i, file, s, ExecBlock(p, sym, code, s))
  {
    ExecBlockAppend(p, sym, PushCode(seg, i, file).value, PopCode(seg, i, file).value, s);
    if seg == Pointer {
      PushPopPointer(p, sym, i, file, s);
    } else {
      PushPopSegment(p, sym, seg, i, file, s);
    }
  }

  /** `push SP i` followed by `pop SP i` is no round trip: the pop
      addresses `SP + i` after the push has raised SP, so the word at
      `SP + i` is copied one cell up; SP is back where it was and only the
      old stack top and the scratch cell change besides. */
  lemma StackPointerPushPop(p: seq<Asm>, sym: Symbols, i: nat, file: string, s: Cpu)
    requires StackInRange(s.ram) && Read(s.ram, SP) + 1 + i < WordCount
    requires Read(s.ram, SP) + i != AddrScratch
    ensures var code := PushCode(StackPointer, i, file).value + PopCode(StackPointer, i, file).value;
            var t := ExecBlock(p, sym, code, s);
            var sp := Read(s.ram, SP);
            && Read(t.ram, SP) == sp
            && Read(t.ram, sp + 1 + i) == Read(s.ram, sp + i)
            && Unchanged(s, t, {sp, sp + 1 + i, AddrScratch})
  {
    var push, pop := PushCode(StackPointer, i, file).value, PopCode(StackPointer, i, file).value;
    var sp := Read(s.ram, SP);
    ExecBlockAppend(p, sym, push, pop, s);
    PushSemantics(p, sym, StackPointer, i, file, s);
    var m := ExecBlock(p, sym, push, s);
    assert Read(m.ram, SP) == sp + 1 && Read(m.ram, sp) == Read(s.ram, sp + i);
    assert SegmentAddress(sym, StackPointer, i, file, m.ram) == sp + 1 + i;
    PopSemantics(p, sym, StackPointer, i, file, m);
    var t := ExecBlock(p, sym, pop, m);
    assert Read(t.ram, sp + 1 + i) == Read(s.ram, sp + i);
    assert Read(t.ram, SP) == sp;
  }

  // -----------------------------------------------------------------------
  // Exact effects of the blocks the other translators are built from
  // -----------------------------------------------------------------------

  /** `push general i`: RAM[i] goes onto the stack. */
  lemma PushCellRam(p: seq<Asm>, sym: Symbols, i: nat, s: Cpu)
    requires i < WordCount && 16 <= Read(s.ram, SP) < 0xFFFF
    ensures var t := ExecBlock(p, sym, PushCell(i), s);
            var sp := Read(s.ram, SP);
            && t.pc == s.pc + |PushCell(i)|
            && t.ram == s.ram[sp := Read(s.ram, i)][SP := sp + 1]
  {
    ExecBlockAppend(p, sym, [At(Num(i)), Op(DFromM)], PushD(), s);
    ReadCellEffect(p, sym, Num(i), i, s);
    PushDEffect(p, sym, ExecBlock(p, sym, [At(Num(i)), Op(DFromM)], s));
  }

  /** `push constant c`: the word c goes onto the stack. */
  lemma PushConstantRam(p: seq<Asm>, sym: Symbols, c: nat, file: string, s: Cpu)
    requires 16 <= Read(s.ram, SP) < 0xFFFF
    ensures var t := ExecBlock(p, sym, PushCode(Constant, c, file).value, s);
            var sp := Read(s.ram, SP);
            && t.pc == s.pc + |PushCode(Constant, c, file).value|
            && t.ram == s.ram[sp := W(c)][SP := sp + 1]
  {
    assert PushCode(Constant, c, file).value == [At(Num(c)), Op(DFromA)] + PushD();
    ExecBlockAppend(p, sym, [At(Num(c)), Op(DFromA)], PushD(), s);
    ExecPair(p, sym, At(Num(c)), Op(DFromA), s);
    PushDEffect(p, sym, ExecBlock(p, sym, [At(Num(c)), Op(DFromA)], s));
  }

  /** `pop general i`: the stack top goes into RAM[i]. */
  lemma PopCellRam(p: seq<Asm>, sym: Symbols, i: nat, s: Cpu)
    requires i < WordCount && StackAboveRegisters(s.ram)
    ensures var t := ExecBlock(p, sym, PopCell(i), s);
            var sp := Read(s.ram, SP);
            && t.pc == s.pc + |PopCell(i)|
            && t.ram == s.ram[SP := sp - 1][i := Read(s.ram, sp - 1)]
  {
    ExecBlockAppend(p, sym, PopD(), [At(Num(i)), Op(MFromD)], s);
    PopDEffect(p, sym, s);
    StoreCellEffect(p, sym, Num(i), i, ExecBlock(p, sym, PopD(), s));
  }

  /** `pop argument i`: the stack top goes into RAM[RAM[2] + i], whose
      address is left in the scratch cell. */
  lemma PopArgumentRam(p: seq<Asm>, sym: Symbols, i: nat, file: string, s: Cpu)
    requires StackAboveRegisters(s.ram) && Read(s.ram, 2) + i < WordCount
    ensures var t := ExecBlock(p, sym, PopCode(Argument, i, file).value, s);
            var sp := Read(s.ram, SP);
            var addr := Read(s.ram, 2) + i;
            && t.pc == s.pc + |PopCode(Argument, i, file).value|
            && t.ram == s.ram[AddrScratch := addr][SP := sp - 1][addr := Read(s.ram, sp - 1)]
  {
    ExecBlockPc(p, sym, PopCode(Argument, i, file).value, s);
    PopBaseRam(p, sym, Argument, i, s);
  }
}
