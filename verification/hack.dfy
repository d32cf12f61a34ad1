/** The Hack assembly lines the translator emits.

    Every emitted line is one of a closed set of textual forms. `Asm` has one
    constructor per form, and `AsmText` renders it exactly as the generators
    format it (including the two spellings `M = M+1` and `0; JMP` that only
    the call/return sequences use). A generated block is a `seq<Line>`: an
    instruction, the blank line and comment of debug mode, or a line indented
    by `add_padding`. */
module Hack {
  import opened Strings
  import opened Utils

  /** A 16-bit machine word, unsigned view. */
  type Word = x: int | 0 <= x < 0x1_0000

  /** The operand of an A-instruction: a number or a symbol. */
  datatype Addr = Num(n: nat) | Sym(name: string)

  /** The C-instructions that occur in the templates, one per spelling. */
  datatype Comp =
    | DFromM              // D = M
    | DFromA              // D = A
    | DFromDPlusA         // D = D + A
    | DFromDPlusM         // D = D + M
    | DFromMMinusD        // D = M - D
    | DFromDMinusM        // D = D - M
    | DFromNegD           // D = -D
    | DFromMAndD          // D = M & D
    | DFromMOrD           // D = M | D
    | DFromNotD           // D = !D
    | MFromD              // M = D
    | MFromZero           // M = 0
    | MFromMinusOne       // M = -1
    | AFromM              // A = M
    | AFromMMinusOne(tight: bool)   // A = M - 1   or   A = M-1
    | MFromMPlusOne(tight: bool)    // M = M + 1   or   M = M+1
    | MFromMMinusOne      // M = M - 1
    | JumpIfZero          // D;JEQ
    | JumpIfPositive      // D;JGT
    | JumpIfNonZero       // D;JNE
    | Jump(spaced: bool)  // 0;JMP      or   0; JMP

  datatype Asm = At(addr: Addr) | Decl(name: string) | Op(comp: Comp)

  function CompText(c: Comp): string {
    match c
    case DFromM => "D = M"
    case DFromA => "D = A"
    case DFromDPlusA => "D = D + A"
    case DFromDPlusM => "D = D + M"
    case DFromMMinusD => "D = M - D"
    case DFromDMinusM => "D = D - M"
    case DFromNegD => "D = -D"
    case DFromMAndD => "D = M & D"
    case DFromMOrD => "D = M | D"
    case DFromNotD => "D = !D"
    case MFromD => "M = D"
    case MFromZero => "M = 0"
    case MFromMinusOne => "M = -1"
    case AFromM => "A = M"
    case AFromMMinusOne(tight) => if tight then "A = M-1" else "A = M - 1"
    case MFromMPlusOne(tight) => if tight then "M = M+1" else "M = M + 1"
    case MFromMMinusOne => "M = M - 1"
    case JumpIfZero => "D;JEQ"
    case JumpIfPositive => "D;JGT"
    case JumpIfNonZero => "D;JNE"
    case Jump(spaced) => if spaced then "0; JMP" else "0;JMP"
  }

  function AddrText(a: Addr): string {
    match a
    case Num(n) => NatToString(n)
    case Sym(name) => name
  }

  /** `at(x)` is `"@" + x`; a label declaration is `"(" + x + ")"`. */
  function AsmText(i: Asm): string {
    match i
    case At(a) => "@" + AddrText(a)
    case Decl(name) => "(" + name + ")"
    case Op(c) => CompText(c)
  }

  /** Jumps are the only instructions that may leave the straight line. */
  predicate IsJump(c: Comp) {
    c.JumpIfZero? || c.JumpIfPositive? || c.JumpIfNonZero? || c.Jump?
  }

  predicate JumpFree(code: seq<Asm>) {
    forall k :: 0 <= k < |code| ==> !(code[k].Op? && IsJump(code[k].comp))
  }

  // -----------------------------------------------------------------------
  // Lines of a generated block
  // -----------------------------------------------------------------------

  /** `DEFAULT_PADDING`, the indentation the composite generators ask of the
      blocks they are built from. Its value is defined outside the modelled
      files, so it is left unspecified. */
  const DefaultPadding: nat

  /** The labels a program declares, in order. */
  function Decls(code: seq<Asm>): seq<string> {
    if |code| == 0 then []
    else (if code[0].Decl? then [code[0].name] else []) + Decls(code[1..])
  }

  /** One element of a generated `Vec<String>`. */
  datatype Line =
    | Instr(asm: Asm)
    | Blank                       // the "\n" element pushed in debug mode
    | Comment(text: string)       // a "// ..." element of debug mode
    | Pad(width: nat, line: Line) // add_padding(line, width)

  function LineText(l: Line): string {
    match l
    case Instr(i) => AsmText(i)
    case Blank => "\n"
    case Comment(t) => t
    case Pad(n, inner) => AddPadding(LineText(inner), n)
  }

  /** The strings of a block, in order. */
  function Render(ls: seq<Line>): (r: seq<string>)
    ensures |r| == |ls|
    ensures forall k :: 0 <= k < |ls| ==> r[k] == LineText(ls[k])
  {
    seq(|ls|, k requires 0 <= k < |ls| => LineText(ls[k]))
  }

  /** The instruction a line carries once the assembler has dropped white
      space and comments. */
  function Strip(l: Line): seq<Asm> {
    match l
    case Instr(i) => [i]
    case Blank => []
    case Comment(_) => []
    case Pad(_, inner) => Strip(inner)
  }

  /** The program a block denotes: its instructions, in order. */
  function Code(ls: seq<Line>): seq<Asm> {
    if |ls| == 0 then [] else Strip(ls[0]) + Code(ls[1..])
  }

  function Instrs(code: seq<Asm>): (ls: seq<Line>)
    ensures |ls| == |code|
    ensures forall k :: 0 <= k < |code| ==> ls[k] == Instr(code[k])
  {
    seq(|code|, k requires 0 <= k < |code| => Instr(code[k]))
  }

  function PadAll(ls: seq<Line>, n: nat): (r: seq<Line>)
    ensures |r| == |ls|
    ensures forall k :: 0 <= k < |ls| ==> r[k] == Pad(n, ls[k])
  {
    seq(|ls|, k requires 0 <= k < |ls| => Pad(n, ls[k]))
  }

  /** The debug decoration every generator of the memory, arithmetic and
      branching modules applies: in debug mode a blank line and a comment
      come first, and every line is indented when the padding is non-zero. */
  function Annotate(debug: bool, padding: nat, comment: string, body: seq<Line>): seq<Line> {
    var block := (if debug then [Blank, Comment(comment)] else []) + body;
    if debug && padding != 0 then PadAll(block, padding) else block
  }

  predicate AllInstr(ls: seq<Line>) {
    forall k :: 0 <= k < |ls| ==> ls[k].Instr?
  }

  // -----------------------------------------------------------------------
  // Lemmas about blocks
  // -----------------------------------------------------------------------

  lemma {:induction false} CodeAppend(a: seq<Line>, b: seq<Line>)
    ensures Code(a + b) == Code(a) + Code(b)
    decreases |a|
  {
    if |a| > 0 {
      CodeAppend(a[1..], b);
      assert (a + b)[0] == a[0];
      assert (a + b)[1..] == a[1..] + b;
      calc {
        Code(a + b);
        Strip(a[0]) + Code(a[1..] + b);
        Strip(a[0]) + (Code(a[1..]) + Code(b));
        (Strip(a[0]) + Code(a[1..])) + Code(b);
      }
    } else {
      assert a + b == b;
    }
  }

  lemma {:induction false} CodeInstrs(code: seq<Asm>)
    ensures Code(Instrs(code)) == code
    decreases |code|
  {
    if |code| > 0 {
      CodeInstrs(code[1..]);
      assert Instrs(code)[1..] == Instrs(code[1..]);
    }
  }

  lemma {:induction false} CodePadAll(ls: seq<Line>, n: nat)
    ensures Code(PadAll(ls, n)) == Code(ls)
    decreases |ls|
  {
    if |ls| > 0 {
      CodePadAll(ls[1..], n);
      assert PadAll(ls, n)[1..] == PadAll(ls[1..], n);
    }
  }

  /** Debug decoration adds comments and indentation only: the program a
      block denotes is the same with or without it. */
  lemma CodeAnnotate(debug: bool, padding: nat, comment: string, body: seq<Line>)
    ensures Code(Annotate(debug, padding, comment, body)) == Code(body)
  {
    var block := (if debug then [Blank, Comment(comment)] else []) + body;
    CodeAppend(if debug then [Blank, Comment(comment)] else [], body);
    if debug && padding != 0 {
      CodePadAll(block, padding);
    }
  }

  /** The program of four blocks in a row. */
  lemma CodeFour(a: seq<Line>, b: seq<Line>, c: seq<Line>, d: seq<Line>)
    ensures Code(a + b + c + d) == Code(a) + Code(b) + Code(c) + Code(d)
  {
    CodeAppend(a, b);
    CodeAppend(a + b, c);
    CodeAppend(a + b + c, d);
  }

  /** The program of five blocks in a row. */
  lemma CodeFive(a: seq<Line>, b: seq<Line>, c: seq<Line>, d: seq<Line>, e: seq<Line>)
    ensures Code(a + b + c + d + e) == Code(a) + Code(b) + Code(c) + Code(d) + Code(e)
  {
    CodeFour(a, b, c, d);
    CodeAppend(a + b + c + d, e);
  }

  lemma {:induction false} AllInstrAppend(a: seq<Line>, b: seq<Line>)
    ensures AllInstr(a + b) <==> AllInstr(a) && AllInstr(b)
  {
    if AllInstr(a) && AllInstr(b) {
      forall k | 0 <= k < |a + b| ensures (a + b)[k].Instr? {
        if k >= |a| {
          assert (a + b)[k] == b[k - |a|];
        }
      }
    }
    if AllInstr(a + b) {
      forall k | 0 <= k < |a| ensures a[k].Instr? {
        assert (a + b)[k] == a[k];
      }
      forall k | 0 <= k < |b| ensures b[k].Instr? {
        assert (a + b)[|a| + k] == b[k];
      }
    }
  }

  lemma RenderAppend(a: seq<Line>, b: seq<Line>)
    ensures Render(a + b) == Render(a) + Render(b)
  {
  }

  /** As text, the decoration indents every line by `padding` in debug
      mode and by nothing otherwise (a zero padding leaves a line as it
      is). */
  lemma RenderAnnotate(debug: bool, padding: nat, comment: string, body: seq<Line>)
    ensures var r := Render(Annotate(debug, padding, comment, body));
            var block := Render((if debug then [Blank, Comment(comment)] else []) + body);
            |r| == |block|
            && forall k :: 0 <= k < |r| ==> r[k] == AddPadding(block[k], if debug then padding else 0)
  {
    var block := (if debug then [Blank, Comment(comment)] else []) + body;
    forall k | 0 <= k < |block| {
      AddPaddingZero(LineText(block[k]));
    }
  }

  /** Outside debug mode a block is bare instructions. */
  lemma AnnotateOff(padding: nat, comment: string, body: seq<Line>)
    ensures Annotate(false, padding, comment, body) == body
  {
    assert [] + body == body;
  }

  lemma {:induction false} DeclsAppend(a: seq<Asm>, b: seq<Asm>)
    ensures Decls(a + b) == Decls(a) + Decls(b)
    decreases |a|
  {
    if |a| == 0 {
      assert a + b == b;
    } else {
      assert (a + b)[0] == a[0];
      assert (a + b)[1..] == a[1..] + b;
      DeclsAppend(a[1..], b);
    }
  }

  /** A label is declared by the program exactly when it is in `Decls`. */
  lemma {:induction false} DeclsMember(code: seq<Asm>, name: string)
    ensures name in Decls(code) <==> exists k :: 0 <= k < |code| && code[k] == Decl(name)
    decreases |code|
  {
    if |code| > 0 {
      DeclsMember(code[1..], name);
      if name in Decls(code[1..]) {
        var k :| 0 <= k < |code[1..]| && code[1..][k] == Decl(name);
        assert code[k + 1] == Decl(name);
      }
      if exists k :: 0 <= k < |code| && code[k] == Decl(name) {
        var k :| 0 <= k < |code| && code[k] == Decl(name);
        if k > 0 {
          assert code[1..][k - 1] == Decl(name);
        }
      }
    }
  }

  lemma {:induction false} JumpFreeAppend(a: seq<Asm>, b: seq<Asm>)
    ensures JumpFree(a + b) <==> JumpFree(a) && JumpFree(b)
  {
    if JumpFree(a) && JumpFree(b) {
      forall k | 0 <= k < |a + b| ensures !((a + b)[k].Op? && IsJump((a + b)[k].comp)) {
        if k >= |a| {
          assert (a + b)[k] == b[k - |a|];
        } else {
          assert (a + b)[k] == a[k];
        }
      }
    }
    if JumpFree(a + b) {
      forall k | 0 <= k < |a| ensures !(a[k].Op? && IsJump(a[k].comp)) {
        assert (a + b)[k] == a[k];
      }
      forall k | 0 <= k < |b| ensures !(b[k].Op? && IsJump(b[k].comp)) {
        assert (a + b)[|a| + k] == b[k];
      }
    }
  }
}
