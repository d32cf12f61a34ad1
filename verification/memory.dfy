/** The memory-segment translator of `src/code_generator/memory.rs`:
    `generate_mem_code_block` turns `push segment i` / `pop segment i` into a
    fixed template per segment. */
module Memory {
  import opened Wrappers
  import opened Strings
  import opened Hack

  /** The segment names the generator accepts: the nine of the VM and
      its own helpers, plus the key `SP` of `label_pointers`, which makes
      `push SP i` / `pop SP i` address the stack at `SP + i`. `general` is
      a raw RAM address, used by the other translators for frame
      bookkeeping. */
  datatype Segment = Local | Argument | This | That | Constant | Static | Pointer | Temp | General | StackPointer

  /** The names as they appear in VM code. */
  function SegmentName(seg: Segment): string {
    match seg
    case Local => "local"
    case Argument => "argument"
    case This => "this"
    case That => "that"
    case Constant => "constant"
    case Static => "static"
    case Pointer => "pointer"
    case Temp => "temp"
    case General => "general"
    case StackPointer => "SP"
  }

  /** Looks a segment name up. */
  function SegmentOf(name: string): (r: Option<Segment>)
    ensures r.Some? ==> SegmentName(r.value) == name
  {
    if name == "local" then Some(Local)
    else if name == "argument" then Some(Argument)
    else if name == "this" then Some(This)
    else if name == "that" then Some(That)
    else if name == "constant" then Some(Constant)
    else if name == "static" then Some(Static)
    else if name == "pointer" then Some(Pointer)
    else if name == "temp" then Some(Temp)
    else if name == "general" then Some(General)
    else if name == "SP" then Some(StackPointer)
    else None
  }

  /** Every segment's name is recognised as that segment. */
  lemma SegmentOfName(seg: Segment)
    ensures SegmentOf(SegmentName(seg)) == Some(seg)
  {
  }

  /** The segments reached through a base-address cell: the keys of
      `label_pointers`. */
  predicate IsBaseSegment(seg: Segment) {
    seg.Local? || seg.Argument? || seg.This? || seg.That? || seg.StackPointer?
  }

  /** `label_pointers`: the RAM cell holding each base address. */
  function BaseCell(seg: Segment): (cell: nat)
    requires IsBaseSegment(seg)
    ensures cell <= 4
    ensures cell == SP <==> seg == StackPointer
  {
    match seg
    case StackPointer => SP
    case Local => 1
    case Argument => 2
    case This => 3
    case That => 4
  }

  /** Cell 0 holds the stack pointer. */
  const SP: nat := 0

  /** The scratch cell holding a computed `base + index` address. */
  const AddrScratch: nat := 15

  /** First cell of the `temp` segment. */
  const TempBase: nat := 5

  /** The symbol of static variable `i` of a file: `<filename>.<i>`. */
  function StaticSymbol(file: string, i: nat): string {
    file + "." + NatToString(i)
  }

  /** `*SP = D; SP++`, the tail shared by every push. */
  function PushD(): seq<Asm> {
    [At(Num(SP)), Op(AFromM), Op(MFromD), At(Num(SP)), Op(MFromMPlusOne(false))]
  }

  /** `SP--; D = *SP`, the head shared by pops to a fixed address. */
  function PopD(): seq<Asm> {
    [At(Num(SP)), Op(MFromMMinusOne), At(Num(SP)), Op(AFromM), Op(DFromM)]
  }

  /** `RAM[15] = RAM[base] + i`. */
  function ComputeAddress(seg: Segment, i: nat): seq<Asm>
    requires IsBaseSegment(seg)
  {
    [At(Num(BaseCell(seg))), Op(DFromM), At(Num(i)), Op(DFromDPlusA), At(Num(AddrScratch)), Op(MFromD)]
  }

  /** The symbol `pointer 0` / `pointer 1` addresses. */
  function PointerSymbol(i: nat): string {
    if i == 0 then "THIS" else "THAT"
  }

  /** Number of positions holding `@0` directly followed by `c`. */
  function CountSpUpdates(code: seq<Asm>, c: Comp): nat {
    if |code| < 2 then 0
    else (if code[0] == At(Num(SP)) && code[1] == Op(c) then 1 else 0) + CountSpUpdates(code[1..], c)
  }

  /** The cell behind `seg i` for the segments addressed without a base
      pointer. */
  function DirectCell(seg: Segment, i: nat, file: string): Addr
    requires !IsBaseSegment(seg) && seg != Constant
  {
    match seg
    case Temp => Num(TempBase + i)
    case Pointer => Sym(PointerSymbol(i))
    case Static => Sym(StaticSymbol(file, i))
    case General => Num(i)
  }

  /** `*RAM[15] = D`. */
  function StoreIndirect(): seq<Asm> {
    [At(Num(AddrScratch)), Op(AFromM), Op(MFromD)]
  }

  /** `SP--; *SP = D`, the head of `pop pointer i`. */
  function DropStoreD(): seq<Asm> {
    [At(Num(SP)), Op(MFromMMinusOne), At(Num(SP)), Op(AFromM), Op(MFromD)]
  }

  /** `pop general i`: the stack top into RAM[i]. */
  function PopCell(i: nat): seq<Asm> {
    PopD() + [At(Num(i)), Op(MFromD)]
  }

  /** `push general i`: RAM[i] onto the stack. */
  function PushCell(i: nat): seq<Asm> {
    [At(Num(i)), Op(DFromM)] + PushD()
  }

  /** The part of `push seg i` that loads the segment's word into D. */
  function PushLoad(seg: Segment, i: nat, file: string): (load: seq<Asm>)
    ensures JumpFree(load)
  {
    if IsBaseSegment(seg) then
      JumpFreeAppend(ComputeAddress(seg, i), [Op(AFromM), Op(DFromM)]);
      ComputeAddress(seg, i) + [Op(AFromM), Op(DFromM)]
    else if seg == Constant then [At(Num(i)), Op(DFromA)]
    else [At(DirectCell(seg, i, file)), Op(DFromM)]
  }

  /** The template of `push seg i`. */
  function PushCode(seg: Segment, i: nat, file: string): (r: Result<seq<Asm>>)
    ensures r.Ok? <==> !(seg == Pointer && i > 1)
    ensures r.Ok? ==> JumpFree(r.value)
    ensures r.Ok? ==> |r.value| >= 5 && r.value[|r.value| - 5..] == PushD()
  {
    if seg == Pointer && i != 1 && i != 0 then Fatal(BadSyntax)
    else
      var code := PushLoad(seg, i, file) + PushD();
      JumpFreeAppend(PushLoad(seg, i, file), PushD());
      assert code[|code| - 5..] == PushD();
      Ok(code)
  }

  /** The template of `pop seg i`. `pop pointer i` stores the D register,
      not the popped word, into the stack cell and into THIS/THAT. */
  function PopCode(seg: Segment, i: nat, file: string): (r: Result<seq<Asm>>)
    ensures r.Ok? <==> seg != Constant && !(seg == Pointer && i > 1)
    ensures r.Ok? ==> JumpFree(r.value)
  {
    if seg == Constant then Fatal(PopConstant)
    else if seg == Pointer && i != 1 && i != 0 then Fatal(BadSyntax)
    else if IsBaseSegment(seg) then
      JumpFreeAppend(ComputeAddress(seg, i), PopD());
      JumpFreeAppend(ComputeAddress(seg, i) + PopD(), StoreIndirect());
      Ok(ComputeAddress(seg, i) + PopD() + StoreIndirect())
    else if seg == Pointer then
      JumpFreeAppend(DropStoreD(), [At(DirectCell(seg, i, file)), Op(MFromD)]);
      Ok(DropStoreD() + [At(DirectCell(seg, i, file)), Op(MFromD)])
    else
      JumpFreeAppend(PopD(), [At(DirectCell(seg, i, file)), Op(MFromD)]);
      Ok(PopD() + [At(DirectCell(seg, i, file)), Op(MFromD)])
  }

  /** The comment a debug block opens with. */
  function MemComment(cmd: string, seg: string, i: nat): string {
    "// " + cmd + " " + seg + " " + NatToString(i)
  }

  /** `generate_mem_code_block(mem_cmd, mem_segment, mem_index, filename,
      is_debug_option, padding)`: the command and the segment arrive as text
      and anything else than `push`/`pop` and the known segment names is
      fatal. */
  function MemBlock(cmd: string, seg: string, i: nat, file: string, debug: bool, padding: nat): (r: Result<seq<Line>>)
    ensures r.Ok? <==>
              && (cmd == "push" || cmd == "pop")
              && SegmentOf(seg).Some?
              && !(cmd == "pop" && seg == "constant")
              && !(seg == "pointer" && i > 1)
    ensures r.Ok? && !debug ==> AllInstr(r.value)
  {
    var comment := MemComment(cmd, seg, i);
    if cmd != "push" && cmd != "pop" then Fatal(BadSyntax)
    else match SegmentOf(seg)
      case None => Fatal(BadSyntax)
      case Some(s) =>
        var code :- if cmd == "push" then PushCode(s, i, file) else PopCode(s, i, file);
        Ok(Annotate(debug, padding, comment, Instrs(code)))
  }

  /** The program a block denotes is its template, whatever the debug
      settings. */
  lemma MemBlockCode(cmd: string, seg: string, i: nat, file: string, debug: bool, padding: nat)
    requires MemBlock(cmd, seg, i, file, debug, padding).Ok?
    ensures var s := SegmentOf(seg).value;
            Code(MemBlock(cmd, seg, i, file, debug, padding).value)
              == (if cmd == "push" then PushCode(s, i, file) else PopCode(s, i, file)).value
  {
    var s := SegmentOf(seg).value;
    var code := (if cmd == "push" then PushCode(s, i, file) else PopCode(s, i, file)).value;
    CodeAnnotate(debug, padding, MemComment(cmd, seg, i), Instrs(code));
    CodeInstrs(code);
  }

  /** Without debug a block is its template's bare instructions. */
  lemma PlainMemBlock(cmd: string, seg: string, i: nat, file: string)
    requires MemBlock(cmd, seg, i, file, false, 0).Ok?
    ensures var s := SegmentOf(seg).value;
            MemBlock(cmd, seg, i, file, false, 0).value
              == Instrs((if cmd == "push" then PushCode(s, i, file) else PopCode(s, i, file)).value)
  {
    var s := SegmentOf(seg).value;
    var code := (if cmd == "push" then PushCode(s, i, file) else PopCode(s, i, file)).value;
    AnnotateOff(0, MemComment(cmd, seg, i), Instrs(code));
  }

  /** Pairs `@0`, `c` across the seam of two blocks. */
  function Seam(a: seq<Asm>, b: seq<Asm>, c: Comp): nat {
    if |a| > 0 && |b| > 0 && a[|a| - 1] == At(Num(SP)) && b[0] == Op(c) then 1 else 0
  }

  lemma {:induction false} CountSpUpdatesAppend(a: seq<Asm>, b: seq<Asm>, c: Comp)
    ensures CountSpUpdates(a + b, c) == CountSpUpdates(a, c) + CountSpUpdates(b, c) + Seam(a, b, c)
    decreases |a|
  {
    if |a| == 0 {
      assert a + b == b;
    } else if |a| == 1 {
      if |b| > 0 {
        assert (a + b)[1..] == b;
      } else {
        assert a + b == a;
      }
    } else {
      assert (a + b)[1..] == a[1..] + b;
      CountSpUpdatesAppend(a[1..], b, c);
    }
  }

  lemma SpUpdatesOfTails()
    ensures CountSpUpdates(PushD(), MFromMPlusOne(false)) == 1
    ensures CountSpUpdates(PushD(), MFromMMinusOne) == 0
    ensures CountSpUpdates(PopD(), MFromMMinusOne) == 1
    ensures CountSpUpdates(PopD(), MFromMPlusOne(false)) == 0
    ensures CountSpUpdates(DropStoreD(), MFromMMinusOne) == 1
    ensures CountSpUpdates(DropStoreD(), MFromMPlusOne(false)) == 0
  {
  }

  lemma {:induction false} CountWithoutComp(code: seq<Asm>, c: Comp)
    requires forall k :: 0 < k < |code| ==> code[k] != Op(c)
    ensures CountSpUpdates(code, c) == 0
    decreases |code|
  {
    if |code| >= 2 {
      CountWithoutComp(code[1..], c);
    }
  }

  lemma LoadWithoutSpUpdates(seg: Segment, i: nat, file: string, c: Comp)
    requires c == MFromMPlusOne(false) || c == MFromMMinusOne
    ensures CountSpUpdates(PushLoad(seg, i, file), c) == 0
  {
    if IsBaseSegment(seg) {
      var load := ComputeAddress(seg, i) + [Op(AFromM), Op(DFromM)];
      assert PushLoad(seg, i, file) == load;
      assert forall k :: 0 < k < |load| ==> load[k] != Op(c);
      CountWithoutComp(load, c);
    } else {
      CountWithoutComp(PushLoad(seg, i, file), c);
    }
  }

  /** Each successful push holds exactly one `@0`, `M = M + 1` and no
      `@0`, `M = M - 1`. */
  lemma PushSpUpdates(seg: Segment, i: nat, file: string)
    requires PushCode(seg, i, file).Ok?
    ensures CountSpUpdates(PushCode(seg, i, file).value, MFromMPlusOne(false)) == 1
    ensures CountSpUpdates(PushCode(seg, i, file).value, MFromMMinusOne) == 0
  {
    var up, down := MFromMPlusOne(false), MFromMMinusOne;
    var load := PushLoad(seg, i, file);
    assert PushCode(seg, i, file).value == load + PushD();
    SpUpdatesOfTails();
    LoadWithoutSpUpdates(seg, i, file, up);
    LoadWithoutSpUpdates(seg, i, file, down);
    CountSpUpdatesAppend(load, PushD(), up);
    CountSpUpdatesAppend(load, PushD(), down);
  }

  /** Each successful pop holds exactly one `@0`, `M = M - 1` and no
      `@0`, `M = M + 1`. */
  lemma PopSpUpdates(seg: Segment, i: nat, file: string)
    requires PopCode(seg, i, file).Ok?
    ensures CountSpUpdates(PopCode(seg, i, file).value, MFromMMinusOne) == 1
    ensures CountSpUpdates(PopCode(seg, i, file).value, MFromMPlusOne(false)) == 0
  {
    var up, down := MFromMPlusOne(false), MFromMMinusOne;
    SpUpdatesOfTails();
    if IsBaseSegment(seg) {
      var a := ComputeAddress(seg, i);
      CountWithoutComp(a, up);
      CountWithoutComp(a, down);
      CountWithoutComp(StoreIndirect(), up);
      CountWithoutComp(StoreIndirect(), down);
      CountSpUpdatesAppend(a, PopD(), up);
      CountSpUpdatesAppend(a, PopD(), down);
      CountSpUpdatesAppend(a + PopD(), StoreIndirect(), up);
      CountSpUpdatesAppend(a + PopD(), StoreIndirect(), down);
    } else {
      var store := [At(DirectCell(seg, i, file)), Op(MFromD)];
      var head := if seg == Pointer then DropStoreD() else PopD();
      CountWithoutComp(store, up);
      CountWithoutComp(store, down);
      CountSpUpdatesAppend(head, store, up);
      CountSpUpdatesAppend(head, store, down);
    }
  }

  /** The `general` templates do not depend on the file. */
  lemma GeneralTemplates(i: nat, file: string)
    ensures PopCode(General, i, file) == Ok(PopCell(i))
    ensures PushCode(General, i, file) == Ok(PushCell(i))
  {
  }

  /** `push general i`, the block the other translators use to read cell
      `i`. */
  lemma PushGeneralBlock(i: nat, file: string, debug: bool, padding: nat)
    ensures MemBlock("push", "general", i, file, debug, padding)
              == Ok(Annotate(debug, padding, MemComment("push", "general", i), Instrs(PushCode(General, i, file).value)))
  {
    assert SegmentOf("general") == Some(General);
  }

  /** `pop general i`, the block the other translators use to write cell
      `i`. */
  lemma PopGeneralBlock(i: nat, file: string, debug: bool, padding: nat)
    ensures MemBlock("pop", "general", i, file, debug, padding)
              == Ok(Annotate(debug, padding, MemComment("pop", "general", i), Instrs(PopCode(General, i, file).value)))
  {
    assert SegmentOf("general") == Some(General);
  }

  lemma PushConstantBlock(i: nat, file: string, debug: bool, padding: nat)
    ensures MemBlock("push", "constant", i, file, debug, padding)
              == Ok(Annotate(debug, padding, MemComment("push", "constant", i), Instrs(PushCode(Constant, i, file).value)))
  {
    assert SegmentOf("constant") == Some(Constant);
  }

  /** Static variables of different files never share a symbol, nor do
      different indices of one file. */
  lemma StaticSymbolDistinct(f1: string, i1: nat, f2: string, i2: nat)
    requires (f1 != f2 && i1 == i2) || (f1 == f2 && i1 != i2)
    ensures StaticSymbol(f1, i1) != StaticSymbol(f2, i2)
  {
    var d1, d2 := "." + NatToString(i1), "." + NatToString(i2);
    assert StaticSymbol(f1, i1) == f1 + d1 && StaticSymbol(f2, i2) == f2 + d2;
    NatToStringInjective(i1, i2);
    if i1 != i2 {
      assert d1[1..] != d2[1..];
    } else {
      assert (f1 + d1)[..|f1|] == f1 && (f2 + d2)[..|f2|] == f2;
    }
  }
}
