/** A small abstract Hack machine that gives the emitted instructions a
    meaning: RAM is a map from addresses to 16-bit words (absent cells read
    as 0), the registers are A, D and the program counter, and arithmetic
    wraps around at 2^16.

    Only the instruction forms of `Hack.Asm` are covered. The program is the
    sequence of instructions itself, and a label declaration occupies one
    no-op slot. Symbols are looked up in a table `sym`, a parameter of the
    machine; `Resolve` is how the assembler fills it in (a numeral, a
    predefined symbol, the first declaration of a label, else a variable),
    and `Assembled` says that a table is the assembler's. */
module Machine {
  import opened Wrappers
  import opened Strings
  import opened Hack

  const WordCount: nat := 0x1_0000

  /** Reduction to a word (two's-complement wrap-around). */
  function W(x: int): Word {
    x % 0x1_0000
  }

  /** The signed reading of a word, as the jump conditions test it. */
  function Signed(w: Word): int {
    if w < 0x8000 then w else w - 0x1_0000
  }

  /** The low `n` bits of `x & y`, bit by bit. */
  function AndBits(x: nat, y: nat, n: nat): nat {
    if n == 0 then 0
    else 2 * AndBits(x / 2, y / 2, n - 1) + (if x % 2 == 1 && y % 2 == 1 then 1 else 0)
  }

  /** The low `n` bits of `x | y`, bit by bit. */
  function OrBits(x: nat, y: nat, n: nat): nat {
    if n == 0 then 0
    else 2 * OrBits(x / 2, y / 2, n - 1) + (if x % 2 == 1 || y % 2 == 1 then 1 else 0)
  }

  /** Bitwise and of two words (the 16 bits already fit in a word). */
  function BitAnd(x: Word, y: Word): Word {
    W(AndBits(x, y, 16))
  }

  /** Bitwise or of two words. */
  function BitOr(x: Word, y: Word): Word {
    W(OrBits(x, y, 16))
  }

  /** Bitwise complement. */
  function BitNot(x: Word): Word {
    0xFFFF - x
  }

  /** The word encoding of VM "true". */
  const True: Word := 0xFFFF

  type Ram = map<nat, Word>

  function Read(ram: Ram, addr: nat): Word {
    if addr in ram then ram[addr] else 0
  }

  datatype Cpu = Cpu(pc: nat, a: Word, d: Word, ram: Ram)

  /** The symbols every Hack assembler predefines. */
  const Predefined: map<string, nat> := map[
    "SP" := 0, "LCL" := 1, "ARG" := 2, "THIS" := 3, "THAT" := 4,
    "R0" := 0, "R1" := 1, "R2" := 2, "R3" := 3, "R4" := 4, "R5" := 5,
    "R6" := 6, "R7" := 7, "R8" := 8, "R9" := 9, "R10" := 10, "R11" := 11,
    "R12" := 12, "R13" := 13, "R14" := 14, "R15" := 15,
    "SCREEN" := 16384, "KBD" := 24576]

  /** Index of the first declaration of `name` in `p`. */
  function FirstDecl(p: seq<Asm>, name: string): (r: Option<nat>)
    ensures r.Some? ==> r.value < |p| && p[r.value] == Decl(name)
    ensures r.Some? ==> forall k :: 0 <= k < r.value ==> p[k] != Decl(name)
    ensures r.None? ==> forall k :: 0 <= k < |p| ==> p[k] != Decl(name)
  {
    if |p| == 0 then None
    else if p[0] == Decl(name) then Some(0)
    else match FirstDecl(p[1..], name)
      case None => None
      case Some(k) => Some(k + 1)
  }

  /** The value an `@symbol` loads: a numeral, a predefined symbol, a label
      of the program, or an allocated variable. */
  function Resolve(p: seq<Asm>, vars: map<string, nat>, name: string): nat {
    if IsDigits(name) then DigitsValue(name)
    else if name in Predefined then Predefined[name]
    else match FirstDecl(p, name)
      case Some(k) => k
      case None => if name in vars then vars[name] else 0
  }

  /** A symbol table: what each symbol of the program stands for. */
  type Symbols = map<string, nat>

  function Lookup(sym: Symbols, name: string): nat {
    if name in sym then sym[name] else 0
  }

  /** `sym` is the assembler's table for `p`, with variables allocated by
      `vars`. */
  ghost predicate Assembled(p: seq<Asm>, vars: map<string, nat>, sym: Symbols) {
    forall name {:trigger Resolve(p, vars, name)} :: !IsDigits(name) ==> Lookup(sym, name) == Resolve(p, vars, name)
  }

  /** The value an A-instruction loads. */
  function AddrValue(sym: Symbols, x: Addr): nat {
    match x
    case Num(n) => n
    case Sym(name) => Lookup(sym, name)
  }

  /** The effect of a computation instruction, including its jump. */
  function Compute(c: Comp, s: Cpu): Cpu {
    var m := Read(s.ram, s.a);
    var next := s.pc + 1;
    match c
    case DFromM => s.(pc := next, d := m)
    case DFromA => s.(pc := next, d := s.a)
    case DFromDPlusA => s.(pc := next, d := W(s.d + s.a))
    case DFromDPlusM => s.(pc := next, d := W(s.d + m))
    case DFromMMinusD => s.(pc := next, d := W(m - s.d))
    case DFromDMinusM => s.(pc := next, d := W(s.d - m))
    case DFromNegD => s.(pc := next, d := W(-(s.d as int)))
    case DFromMAndD => s.(pc := next, d := BitAnd(m, s.d))
    case DFromMOrD => s.(pc := next, d := BitOr(m, s.d))
    case DFromNotD => s.(pc := next, d := BitNot(s.d))
    case MFromD => s.(pc := next, ram := s.ram[s.a := s.d])
    case MFromZero => s.(pc := next, ram := s.ram[s.a := 0])
    case MFromMinusOne => s.(pc := next, ram := s.ram[s.a := True])
    case AFromM => s.(pc := next, a := m)
    case AFromMMinusOne(_) => s.(pc := next, a := W(m - 1))
    case MFromMPlusOne(_) => s.(pc := next, ram := s.ram[s.a := W(m + 1)])
    case MFromMMinusOne => s.(pc := next, ram := s.ram[s.a := W(m - 1)])
    case JumpIfZero => s.(pc := if s.d == 0 then s.a else next)
    case JumpIfPositive => s.(pc := if Signed(s.d) > 0 then s.a else next)
    case JumpIfNonZero => s.(pc := if s.d != 0 then s.a else next)
    case Jump(_) => s.(pc := s.a)
  }

  /** One instruction of program `p`, wherever it sits. */
  function Exec1(p: seq<Asm>, sym: Symbols, i: Asm, s: Cpu): Cpu {
    match i
    case At(x) => s.(pc := s.pc + 1, a := W(AddrValue(sym, x)))
    case Decl(_) => s.(pc := s.pc + 1)
    case Op(c) => Compute(c, s)
  }

  /** Executes the instruction at the program counter. */
  function Step(p: seq<Asm>, sym: Symbols, s: Cpu): Cpu
    requires s.pc < |p|
  {
    Exec1(p, sym, p[s.pc], s)
  }

  /** Runs `fuel` steps, or until the program counter leaves the program. */
  function Run(p: seq<Asm>, sym: Symbols, s: Cpu, fuel: nat): Cpu
    decreases fuel
  {
    if fuel == 0 || s.pc >= |p| then s else Run(p, sym, Step(p, sym, s), fuel - 1)
  }

  /** Executes the instructions of `b` one after the other (symbols resolved
      in the whole program `p`). */
  function ExecBlock(p: seq<Asm>, sym: Symbols, b: seq<Asm>, s: Cpu): Cpu
    decreases |b|
  {
    if |b| == 0 then s else ExecBlock(p, sym, b[1..], Exec1(p, sym, b[0], s))
  }

  /** The cells outside `changed` hold the same words. */
  ghost predicate Unchanged(s: Cpu, t: Cpu, changed: set<nat>) {
    forall x: nat :: x !in changed ==> Read(t.ram, x) == Read(s.ram, x)
  }

  /** `code` sits in `p` from position `pc` on. */
  predicate Placed(p: seq<Asm>, pc: nat, code: seq<Asm>) {
    pc + |code| <= |p| && p[pc..pc + |code|] == code
  }

  /** No instruction before position `upto` declares `name`. */
  predicate NotDeclaredBefore(p: seq<Asm>, upto: nat, name: string)
    requires upto <= |p|
  {
    forall j :: 0 <= j < upto ==> p[j] != Decl(name)
  }

  /** A label that is neither a numeral nor predefined resolves to its first
      declaration. */
  lemma ResolveLabel(p: seq<Asm>, vars: map<string, nat>, name: string, q: nat)
    requires !IsDigits(name) && name !in Predefined
    requires q < |p| && p[q] == Decl(name) && NotDeclaredBefore(p, q, name)
    ensures Resolve(p, vars, name) == q
  {
  }

  /** In the assembler's table a label stands for its first declaration. */
  lemma LabelLookup(p: seq<Asm>, vars: map<string, nat>, sym: Symbols, name: string, q: nat)
    requires Assembled(p, vars, sym)
    requires !IsDigits(name) && name !in Predefined
    requires q < |p| && p[q] == Decl(name) && NotDeclaredBefore(p, q, name)
    ensures Lookup(sym, name) == q
  {
    ResolveLabel(p, vars, name, q);
  }

  /** The table names the registers THIS and THAT. */
  predicate Registers(sym: Symbols) {
    Lookup(sym, "THIS") == 3 && Lookup(sym, "THAT") == 4
  }

  lemma AssembledRegisters(p: seq<Asm>, vars: map<string, nat>, sym: Symbols)
    requires Assembled(p, vars, sym)
    ensures Registers(sym)
  {
    assert !IsDigit('T');
    assert Resolve(p, vars, "THIS") == 3;
    assert Resolve(p, vars, "THAT") == 4;
  }

  // -----------------------------------------------------------------------
  // Composition lemmas
  // -----------------------------------------------------------------------

  lemma {:induction false} ExecBlockAppend(p: seq<Asm>, sym: Symbols, b1: seq<Asm>, b2: seq<Asm>, s: Cpu)
    ensures ExecBlock(p, sym, b1 + b2, s) == ExecBlock(p, sym, b2, ExecBlock(p, sym, b1, s))
    decreases |b1|
  {
    if |b1| == 0 {
      assert b1 + b2 == b2;
    } else {
      assert (b1 + b2)[0] == b1[0];
      assert (b1 + b2)[1..] == b1[1..] + b2;
      ExecBlockAppend(p, sym, b1[1..], b2, Exec1(p, sym, b1[0], s));
    }
  }

  lemma ExecOne(p: seq<Asm>, sym: Symbols, x: Asm, s: Cpu)
    ensures ExecBlock(p, sym, [x], s) == Exec1(p, sym, x, s)
  {
    assert [x][1..] == [];
  }

  lemma ExecPair(p: seq<Asm>, sym: Symbols, x: Asm, y: Asm, s: Cpu)
    ensures ExecBlock(p, sym, [x, y], s) == Exec1(p, sym, y, Exec1(p, sym, x, s))
  {
    assert [x, y] == [x] + [y];
    ExecBlockAppend(p, sym, [x], [y], s);
    ExecOne(p, sym, x, s);
    ExecOne(p, sym, y, Exec1(p, sym, x, s));
  }

  /** A block without jumps advances the program counter by its length. */
  lemma {:induction false} ExecBlockPc(p: seq<Asm>, sym: Symbols, b: seq<Asm>, s: Cpu)
    requires JumpFree(b)
    ensures ExecBlock(p, sym, b, s).pc == s.pc + |b|
    decreases |b|
  {
    if |b| > 0 {
      JumpFreeAppend([b[0]], b[1..]);
      assert [b[0]] + b[1..] == b;
      ExecBlockPc(p, sym, b[1..], Exec1(p, sym, b[0], s));
    }
  }

  /** Running a jump-free block that sits at the program counter is
      executing it. */
  lemma {:induction false} RunBlock(p: seq<Asm>, sym: Symbols, b: seq<Asm>, s: Cpu)
    requires s.pc + |b| <= |p| && p[s.pc..s.pc + |b|] == b
    requires JumpFree(b)
    ensures Run(p, sym, s, |b|) == ExecBlock(p, sym, b, s)
    decreases |b|
  {
    if |b| > 0 {
      assert p[s.pc] == b[0];
      var s1 := Exec1(p, sym, b[0], s);
      JumpFreeAppend([b[0]], b[1..]);
      assert [b[0]] + b[1..] == b;
      ExecBlockPc(p, sym, [b[0]], s);
      assert s1 == ExecBlock(p, sym, [b[0]], s);
      assert p[s1.pc..s1.pc + |b[1..]|] == b[1..];
      RunBlock(p, sym, b[1..], s1);
    }
  }

  /** One step of a run is the instruction at the program counter. */
  lemma RunStep(p: seq<Asm>, sym: Symbols, s: Cpu)
    requires s.pc < |p|
    ensures Run(p, sym, s, 1) == Exec1(p, sym, p[s.pc], s)
  {
    assert Run(p, sym, Step(p, sym, s), 0) == Step(p, sym, s);
  }

  /** Three instructions in a row. */
  lemma ExecTriple(p: seq<Asm>, sym: Symbols, x: Asm, y: Asm, z: Asm, s: Cpu)
    ensures ExecBlock(p, sym, [x, y, z], s) == Exec1(p, sym, z, Exec1(p, sym, y, Exec1(p, sym, x, s)))
  {
    assert [x, y, z] == [x, y] + [z];
    ExecBlockAppend(p, sym, [x, y], [z], s);
    ExecPair(p, sym, x, y, s);
    ExecOne(p, sym, z, ExecBlock(p, sym, [x, y], s));
  }

  lemma {:induction false} RunAppend(p: seq<Asm>, sym: Symbols, s: Cpu, n: nat, m: nat)
    ensures Run(p, sym, s, n + m) == Run(p, sym, Run(p, sym, s, n), m)
    decreases n
  {
    if n > 0 && s.pc < |p| {
      RunAppend(p, sym, Step(p, sym, s), n - 1, m);
    }
  }

  // -----------------------------------------------------------------------
  // Code placed in a program
  // -----------------------------------------------------------------------

  /** The parts of placed code are placed one after the other. */
  lemma PlacedSplit(p: seq<Asm>, pc: nat, a: seq<Asm>, b: seq<Asm>)
    requires Placed(p, pc, a + b)
    ensures Placed(p, pc, a) && Placed(p, pc + |a|, b)
  {
    assert p[pc..pc + |a|] == p[pc..pc + |a + b|][..|a|];
    assert p[pc + |a|..pc + |a| + |b|] == p[pc..pc + |a + b|][|a|..];
  }

  /** Any slice of placed code is placed at its offset. */
  lemma PlacedSlice(p: seq<Asm>, pc: nat, code: seq<Asm>, i: nat, j: nat)
    requires Placed(p, pc, code) && i <= j <= |code|
    ensures Placed(p, pc + i, code[i..j])
  {
    forall m | 0 <= m < j - i
      ensures p[pc + i..pc + j][m] == code[i..j][m]
    {
      assert code[i + m] == p[pc..pc + |code|][i + m];
    }
    assert p[pc + i..pc + j] == code[i..j];
  }

  /** A declaration in placed code is the first one in the program when
      neither the code before it nor the program before the code declares
      the same label. */
  lemma PlacedFirstDecl(p: seq<Asm>, pc: nat, code: seq<Asm>, name: string, q: nat)
    requires Placed(p, pc, code) && q < |code| && code[q] == Decl(name)
    requires Decl(name) !in code[..q] && NotDeclaredBefore(p, pc, name)
    ensures p[pc + q] == Decl(name) && NotDeclaredBefore(p, pc + q, name)
  {
    assert p[pc + q] == p[pc..pc + |code|][q];
    forall j | pc <= j < pc + q ensures p[j] != Decl(name) {
      assert p[j] == code[..q][j - pc];
    }
  }
}
