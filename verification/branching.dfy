/** The branching translator: `label X`, `goto X` and `if-goto X`.

    The label is used verbatim, never qualified by the file name, so the
    VM program is trusted to keep its labels unique across files. `if-goto`
    pops the condition into RAM[13] with `pop general 13` and jumps when it
    is not zero. An unknown keyword is fatal. */
module Branching {
  import opened Wrappers
  import opened Strings
  import opened Utils
  import opened Hack
  import opened Memory
  import opened Arithmetic

  datatype BranchKind = Label | Goto | IfGoto

  function BranchName(kind: BranchKind): string {
    match kind
    case Label => "label"
    case Goto => "goto"
    case IfGoto => "if-goto"
  }

  /** The keyword table of the `match` in `generate_branching_block`. */
  function BranchOf(keyword: string): (r: Option<BranchKind>)
    ensures r.Some? ==> BranchName(r.value) == keyword
  {
    if keyword == "label" then Some(Label)
    else if keyword == "goto" then Some(Goto)
    else if keyword == "if-goto" then Some(IfGoto)
    else None
  }

  lemma BranchOfName(kind: BranchKind)
    ensures BranchOf(BranchName(kind)) == Some(kind)
  {
  }

  /** The cell `if-goto` pops its condition into. */
  const CondCell: nat := TopCell

  /** `@13`, `D = M`, `@X`, `D;JNE`: the test after the pop. */
  function JumpIfTrue(target: string): seq<Asm> {
    [At(Num(CondCell)), Op(DFromM), At(Sym(target)), Op(JumpIfNonZero)]
  }

  /** The program of each keyword. */
  function BranchCode(kind: BranchKind, target: string): seq<Asm> {
    match kind
    case Label => [Decl(target)]
    case Goto => [At(Sym(target)), Op(Jump(false))]
    case IfGoto => PopCell(CondCell) + JumpIfTrue(target)
  }

  /** `generate_branching_block(branch_keyword, goto_label, filename,
      is_debug_option, padding)`. The pop of `if-goto` is a whole
      `pop general 13` block, decorated on its own in debug mode. */
  function BranchBlock(keyword: string, target: string, file: string, debug: bool, padding: nat): (r: Result<seq<Line>>)
    ensures r.Ok? <==> BranchOf(keyword).Some?
    ensures r.Ok? && !debug ==> AllInstr(r.value)
  {
    match BranchOf(keyword)
    case None => Fatal(UnknownBranchKeyword(keyword))
    case Some(kind) =>
      var pop := MemBlock("pop", "general", CondCell, file, debug, DefaultPadding).value;
      var body := if kind == IfGoto then pop + Instrs(JumpIfTrue(target)) else Instrs(BranchCode(kind, target));
      AllInstrAppend(pop, Instrs(JumpIfTrue(target)));
      AnnotateOff(padding, "// " + keyword + " " + target, body);
      Ok(Annotate(debug, padding, "// " + keyword + " " + target, body))
  }

  // -----------------------------------------------------------------------
  // Properties
  // -----------------------------------------------------------------------

  /** The program a block denotes is the keyword's, whatever the debug
      settings. */
  lemma BranchBlockCode(keyword: string, target: string, file: string, debug: bool, padding: nat)
    requires BranchOf(keyword).Some?
    ensures Code(BranchBlock(keyword, target, file, debug, padding).value)
              == BranchCode(BranchOf(keyword).value, target)
  {
    var kind := BranchOf(keyword).value;
    var pop := MemBlock("pop", "general", CondCell, file, debug, DefaultPadding).value;
    var body := if kind == IfGoto then pop + Instrs(JumpIfTrue(target)) else Instrs(BranchCode(kind, target));
    CodeAnnotate(debug, padding, "// " + keyword + " " + target, body);
    CodeInstrs(BranchCode(kind, target));
    CodeInstrs(JumpIfTrue(target));
    if kind == IfGoto {
      CodeAppend(pop, Instrs(JumpIfTrue(target)));
      GeneralCode(CondCell, file, debug);
    }
  }

  /** Without debug, `label X` is the single line `(X)`. */
  lemma LabelText(target: string, file: string, padding: nat)
    ensures Render(BranchBlock("label", target, file, false, padding).value) == ["(" + target + ")"]
  {
  }

  /** Without debug, `goto X` is `@X` then `0;JMP`. */
  lemma GotoText(target: string, file: string, padding: nat)
    ensures Render(BranchBlock("goto", target, file, false, padding).value) == ["@" + target, "0;JMP"]
  {
  }

  /** Without debug, `if-goto X` is the lines of `pop general 13`
      followed by `@13`, `D = M`, `@X` and `D;JNE`. */
  lemma IfGotoText(target: string, file: string, padding: nat)
    ensures var r := Render(BranchBlock("if-goto", target, file, false, padding).value);
            r == Render(Instrs(PopCell(CondCell))) + ["@13", "D = M", "@" + target, "D;JNE"]
  {
    var pop := MemBlock("pop", "general", CondCell, file, false, DefaultPadding).value;
    var tail := Instrs(JumpIfTrue(target));
    PopGeneralBlock(CondCell, file, false, DefaultPadding);
    AnnotateOff(DefaultPadding, MemComment("pop", "general", CondCell), Instrs(PopCell(CondCell)));
    AnnotateOff(padding, "// if-goto " + target, pop + tail);
    assert BranchBlock("if-goto", target, file, false, padding).value == Instrs(PopCell(CondCell)) + tail;
    RenderAppend(Instrs(PopCell(CondCell)), tail);
    JumpIfTrueText(target);
  }

  lemma JumpIfTrueText(target: string)
    ensures Render(Instrs(JumpIfTrue(target))) == ["@13", "D = M", "@" + target, "D;JNE"]
  {
    var r := Render(Instrs(JumpIfTrue(target)));
    assert NatToString(13) == "13" by {
      assert NatToString(13) == NatToString(1) + [DigitChar(3)];
    }
    assert r[0] == "@13" && r[1] == "D = M" && r[2] == "@" + target && r[3] == "D;JNE";
  }

  /** No block depends on the file it comes from: labels are never
      qualified by the file name. */
  lemma BranchIgnoresFile(keyword: string, target: string, f1: string, f2: string, debug: bool, padding: nat)
    ensures BranchBlock(keyword, target, f1, debug, padding) == BranchBlock(keyword, target, f2, debug, padding)
  {
    PopGeneralBlock(CondCell, f1, debug, DefaultPadding);
    PopGeneralBlock(CondCell, f2, debug, DefaultPadding);
    GeneralTemplates(CondCell, f1);
    GeneralTemplates(CondCell, f2);
  }

  /** Only `label X` declares a label, and the one it declares is X
      itself. */
  lemma BranchDecls(kind: BranchKind, target: string)
    ensures Decls(BranchCode(kind, target)) == (if kind == Label then [target] else [])
  {
    var code := BranchCode(kind, target);
    if kind == IfGoto {
      DeclsAppend(PopCell(CondCell), JumpIfTrue(target));
      NoDeclsWithoutDecl(PopCell(CondCell));
      NoDeclsWithoutDecl(JumpIfTrue(target));
    } else if kind == Goto {
      NoDeclsWithoutDecl(code);
    } else {
      assert code[1..] == [];
    }
  }

  /** In debug mode every line of a block is indented by `padding`, and
      not at all otherwise. */
  lemma BranchPadding(keyword: string, target: string, file: string, debug: bool, padding: nat)
    requires BranchOf(keyword).Some?
    ensures var r := Render(BranchBlock(keyword, target, file, debug, padding).value);
            var plain := Render(BranchBlock(keyword, target, file, debug, 0).value);
            |r| == |plain| && forall k :: 0 <= k < |r| ==> r[k] == AddPadding(plain[k], if debug then padding else 0)
  {
    var kind := BranchOf(keyword).value;
    var pop := MemBlock("pop", "general", CondCell, file, debug, DefaultPadding).value;
    var body := if kind == IfGoto then pop + Instrs(JumpIfTrue(target)) else Instrs(BranchCode(kind, target));
    var comment := "// " + keyword + " " + target;
    RenderAnnotate(debug, padding, comment, body);
    RenderAnnotate(debug, 0, comment, body);
    var block := Render((if debug then [Blank, Comment(comment)] else []) + body);
    forall k | 0 <= k < |block| {
      AddPaddingZero(block[k]);
    }
  }
}
