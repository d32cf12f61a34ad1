/** The line dispatcher of `src/code_generator.rs`: a `.vm` file is split
    into lines, blank lines and lines that start with `//` are skipped,
    every other line is cut into words at single spaces, and the first word
    decides whether it is an arithmetic/logical command or a memory access.
    The words are validated in the order the dispatcher checks them, and the
    block of a valid line comes from the module's private copies of the
    memory and arithmetic generators, which never decorate their lines and
    always get the counter 0. Branching and function commands are not known
    to this dispatcher: their lines are rejected like any unknown word. */
module CodeGenerator {
  import opened Wrappers
  import opened Strings
  import opened Hack
  import opened Memory
  import opened Arithmetic

  // -----------------------------------------------------------------------
  // The tables of `CodeGenerator::new`
  // -----------------------------------------------------------------------

  const ArithCommands: seq<string> := ["add", "sub", "neg", "eq", "gt", "lt", "and", "or", "not"]
  const MemCommands: seq<string> := ["pop", "push"]
  const SegmentNames: seq<string> :=
    ["local", "argument", "constant", "this", "that", "static", "pointer", "temp", "general"]

  /** `jump_counter`: set to 0 when the generator is made and never
      changed afterwards. */
  const JumpCounter: nat := 0

  /** The tables name exactly the operations and segments the generators
      know. */
  lemma TablesAgree(name: string)
    ensures name in ArithCommands <==> OpOf(name).Some?
    ensures name in MemCommands <==> name == "push" || name == "pop"
    ensures name in SegmentNames <==> SegmentOf(name).Some? && name != "SP"
  {
  }

  // -----------------------------------------------------------------------
  // Reading a line
  // -----------------------------------------------------------------------

  /** The segments of the dispatcher's table: every segment the memory
      generator knows except its `SP` key. */
  type VmSegment = seg: Segment | seg != StackPointer witness Local

  /** A VM command the dispatcher accepts. */
  datatype Command = Arith(op: ArithOp) | Push(seg: VmSegment, index: nat) | Pop(seg: VmSegment, index: nat)

  /** The canonical text of a command. */
  function CommandText(c: Command): string {
    match c
    case Arith(op) => OpName(op)
    case Push(seg, i) => MemText("push", seg, i)
    case Pop(seg, i) => MemText("pop", seg, i)
  }

  function MemText(cmd: string, seg: Segment, i: nat): string {
    cmd + " " + SegmentName(seg) + " " + NatToString(i)
  }

  /** Lines that produce nothing: blank after trimming, or starting with
      `//` in their very first column. */
  predicate Skipped(l: string) {
    IsBlank(l) || StartsWith(l, "//")
  }

  /** The words of a line: trailing `\r` and `\n` removed, then cut at every
      single space, so doubled and trailing spaces make empty words. */
  function Words(l: string): (r: seq<string>)
    ensures |r| >= 1
  {
    Split(TrimEndMatches(TrimEndMatches(l, "\r"), "\n"), ' ')
  }

  /** What makes a line's words a command, stated without the tables: one
      operation name alone, or `push`/`pop`, a segment name and a run of
      digits, with anything after the third word ignored. */
  predicate IsCommand(words: seq<string>)
    requires |words| >= 1
  {
    || (|words| == 1 && OpOf(words[0]).Some?)
    || (&& |words| >= 3
        && (words[0] == "push" || words[0] == "pop")
        && SegmentOf(words[1]).Some? && words[1] != "SP"
        && IsDigits(words[2]))
  }

  /** The checks of the dispatcher in its order: the first word against the
      arithmetic table, then the number of words, then the memory table,
      the number of words, the segment table and the index. */
  function ParseWords(words: seq<string>): (r: Result<Command>)
    requires |words| >= 1
    ensures r.Ok? <==> IsCommand(words)
    ensures r.Ok? ==>
              match r.value
              case Arith(op) => words == [OpName(op)]
              case Push(seg, i) => |words| >= 3 && words[..2] == ["push", SegmentName(seg)] && ParseNat(words[2]) == Some(i)
              case Pop(seg, i) => |words| >= 3 && words[..2] == ["pop", SegmentName(seg)] && ParseNat(words[2]) == Some(i)
  {
    var cmd := words[0];
    TablesAgree(cmd);
    if cmd in ArithCommands then
      if |words| > 1 then Fatal(ExtraWord)
      else Ok(Arith(OpOf(cmd).value))
    else if cmd in MemCommands then
      if |words| < 3 then Fatal(MissingArgument)
      else
        TablesAgree(words[1]);
        if words[1] !in SegmentNames then Fatal(UnknownSegment(words[1]))
        else match ParseNat(words[2])
          case None => Fatal(BadIndex(words[2]))
          case Some(i) =>
            var seg := SegmentOf(words[1]).value;
            Ok(if cmd == "push" then Push(seg, i) else Pop(seg, i))
    else Fatal(UnknownCommand)
  }

  /** A line: nothing for a skipped line, a command or the first failed
      check otherwise. */
  function ParseLine(l: string): (r: Result<Option<Command>>)
    ensures r == Ok(None) <==> Skipped(l)
  {
    if Skipped(l) then Ok(None)
    else
      var c :- ParseWords(Words(l));
      Ok(Some(c))
  }

  // -----------------------------------------------------------------------
  // Emitting a block
  // -----------------------------------------------------------------------

  /** The private copy of the memory generator: the module's version without
      debug decoration, except that `pop constant` fails with a message of
      its own. */
  function PrivateMemBlock(cmd: string, seg: string, i: nat, file: string): Result<seq<Line>> {
    if cmd == "pop" && seg == "constant" then Fatal(PopConstantLine)
    else MemBlock(cmd, seg, i, file, false, 0)
  }

  /** The note the dispatcher puts before a block in debug mode: one
      element holding a line break and the command. */
  function Note(debug: bool, text: string): seq<Line> {
    if debug then [Comment("\n// " + text)] else []
  }

  /** Which commands have a block: `pop constant` and a `pointer` index
      above 1 do not. */
  predicate Emittable(c: Command) {
    match c
    case Arith(_) => true
    case Push(seg, i) => !(seg == Pointer && i > 1)
    case Pop(seg, i) => seg != Constant && !(seg == Pointer && i > 1)
  }

  /** The program a command stands for: comparisons number their labels 1,
      because the counter handed over is always 0. */
  function CommandCode(c: Command, file: string): seq<Asm>
    requires Emittable(c)
  {
    match c
    case Arith(op) => ArithCode(op, JumpCounter + 1)
    case Push(seg, i) => PushCode(seg, i, file).value
    case Pop(seg, i) => PopCode(seg, i, file).value
  }

  /** The block the private generators give for a command. */
  function Block(c: Command, file: string): Result<seq<Line>> {
    match c
    case Arith(op) => ArithBlock(OpName(op), file, JumpCounter, false, 0)
    case Push(seg, i) => PrivateMemBlock("push", SegmentName(seg), i, file)
    case Pop(seg, i) => PrivateMemBlock("pop", SegmentName(seg), i, file)
  }

  /** The block of one command, after the note in debug mode. */
  function Emit(c: Command, file: string, debug: bool): Result<seq<Line>> {
    var block :- Block(c, file);
    Ok(Note(debug, CommandText(c)) + block)
  }

  /** One line of a `.vm` file. */
  function TranslateLine(l: string, file: string, debug: bool): Result<seq<Line>> {
    var c :- ParseLine(l);
    match c
    case None => Ok([])
    case Some(cmd) => Emit(cmd, file, debug)
  }

  /** The lines of a file, in order; the first bad line is fatal. */
  function TranslateLines(ls: seq<string>, file: string, debug: bool): Result<seq<Line>>
    decreases |ls|
  {
    if |ls| == 0 then Ok([])
    else
      var head :- TranslateLine(ls[0], file, debug);
      var tail :- TranslateLines(ls[1..], file, debug);
      Ok(head + tail)
  }

  /** The name static symbols use: the file name with `.vm` trimmed off the
      end. */
  function FileStem(name: string): string {
    TrimEndMatches(name, ".vm")
  }

  /** A whole `.vm` file, cut into lines at `\n`. */
  function TranslateFile(contents: string, name: string, debug: bool): Result<seq<Line>> {
    TranslateLines(Split(contents, '\n'), FileStem(name), debug)
  }

  // -----------------------------------------------------------------------
  // What the dispatcher promises
  // -----------------------------------------------------------------------

  /** A command has a block exactly when it is emittable; `pop constant`
      fails with the dispatcher's own message, and every line of a block
      is an instruction. */
  lemma BlockAccepts(c: Command, file: string)
    ensures Block(c, file).Ok? <==> Emittable(c)
    ensures c.Pop? && c.seg == Constant ==> Block(c, file) == Fatal(PopConstantLine)
    ensures Block(c, file).Ok? ==> AllInstr(Block(c, file).value)
  {
    match c
    case Arith(op) => OpOfName(op);
    case Push(seg, i) => SegmentOfName(seg);
    case Pop(seg, i) => SegmentOfName(seg);
  }

  /** The same for the block after the note: without debug every line is
      an instruction. */
  lemma EmitAccepts(c: Command, file: string, debug: bool)
    ensures Emit(c, file, debug).Ok? <==> Emittable(c)
    ensures c.Pop? && c.seg == Constant ==> Emit(c, file, debug) == Fatal(PopConstantLine)
    ensures Emit(c, file, debug).Ok? && !debug ==> AllInstr(Emit(c, file, debug).value)
  {
    BlockAccepts(c, file);
    if Emittable(c) && !debug {
      assert Emit(c, file, debug).value == [] + Block(c, file).value;
    }
  }

  /** A skipped line gives nothing; any other line translates exactly when
      its words form a command that has a block; without debug every line
      is an instruction. */
  lemma TranslateLineAccepts(l: string, file: string, debug: bool)
    ensures Skipped(l) ==> TranslateLine(l, file, debug) == Ok([])
    ensures TranslateLine(l, file, debug).Ok? <==>
              Skipped(l) || (IsCommand(Words(l)) && Emittable(ParseLine(l).value.value))
    ensures TranslateLine(l, file, debug).Ok? && !debug ==> AllInstr(TranslateLine(l, file, debug).value)
  {
    if !Skipped(l) && ParseLine(l).Ok? {
      EmitAccepts(ParseLine(l).value.value, file, debug);
    }
  }

  /** Every command's canonical text reads back as that command. */
  lemma ParseCommandText(c: Command)
    ensures ParseLine(CommandText(c)) == Ok(Some(c))
  {
    match c
    case Arith(op) =>
      ParseArithText(op);
    case Push(seg, i) =>
      ParseMemText(seg, i, "push");
    case Pop(seg, i) =>
      ParseMemText(seg, i, "pop");
  }

  lemma ParseArithText(op: ArithOp)
    ensures ParseLine(OpName(op)) == Ok(Some(Arith(op)))
  {
    OpOfName(op);
    NamesAreWords(op, Local);
    NameWords(OpName(op));
    TablesAgree(OpName(op));
  }

  lemma ParseMemText(seg: VmSegment, i: nat, cmd: string)
    requires cmd == "push" || cmd == "pop"
    ensures ParseLine(MemText(cmd, seg, i))
              == Ok(Some(if cmd == "push" then Push(seg, i) else Pop(seg, i)))
  {
    SegmentWords(seg, i, cmd);
    ParseNatToString(i);
    SegmentOfName(seg);
    ParseMemWords(seg, i, cmd);
    ParseLineOfWords(MemText(cmd, seg, i), [cmd, SegmentName(seg), NatToString(i)]);
  }

  lemma ParseMemWords(seg: VmSegment, i: nat, cmd: string)
    requires cmd == "push" || cmd == "pop"
    requires ParseNat(NatToString(i)) == Some(i) && SegmentOf(SegmentName(seg)) == Some(seg)
    ensures ParseWords([cmd, SegmentName(seg), NatToString(i)])
              == Ok(if cmd == "push" then Push(seg, i) else Pop(seg, i))
  {
    TablesAgree(cmd);
    TablesAgree(SegmentName(seg));
  }

  /** A line that ends in neither `\r` nor `\n` and joins space-free words
      with single spaces has those words. */
  lemma WordsOfJoin(text: string, pieces: seq<string>)
    requires |pieces| >= 1 && text == Join(pieces, ' ')
    requires forall k, i :: 0 <= k < |pieces| && 0 <= i < |pieces[k]| ==> pieces[k][i] != ' '
    requires |text| > 0 && text[|text| - 1] != '\r' && text[|text| - 1] != '\n'
    ensures Words(text) == pieces
  {
    assert !EndsWith(text, "\r");
    assert !EndsWith(text, "\n");
    SplitJoin(pieces, ' ');
  }

  lemma JoinThree(a: string, b: string, c: string, sep: char)
    ensures Join([a, b, c], sep) == a + [sep] + b + [sep] + c
  {
    assert [a, b, c][1..] == [b, c];
    assert [b, c][1..] == [c];
    assert Join([b, c], sep) == b + [sep] + c;
  }

  /** Operation names and segment names are ASCII letters. */
  predicate IsLetterWord(s: string) {
    |s| > 0 && forall i :: 0 <= i < |s| ==> 'a' <= s[i] <= 'z' || 'A' <= s[i] <= 'Z'
  }

  lemma NamesAreWords(op: ArithOp, seg: Segment)
    ensures IsLetterWord(OpName(op)) && IsLetterWord(SegmentName(seg))
  {
  }

  /** An operation name alone on a line is one word. */
  lemma NameWords(name: string)
    requires IsLetterWord(name)
    ensures !Skipped(name) && Words(name) == [name]
  {
    assert !IsWhitespace(name[0]);
    assert name[0] != '/';
    assert Join([name], ' ') == name;
    WordsOfJoin(name, [name]);
  }

  /** `cmd seg i` with single spaces is three words. */
  lemma SegmentWords(seg: Segment, i: nat, cmd: string)
    requires cmd == "push" || cmd == "pop"
    ensures !Skipped(MemText(cmd, seg, i))
    ensures Words(MemText(cmd, seg, i)) == [cmd, SegmentName(seg), NatToString(i)]
  {
    var n := NatToString(i);
    NamesAreWords(Add, seg);
    assert forall k :: 0 <= k < |n| ==> IsDigit(n[k]);
    ThreeWords(cmd, SegmentName(seg), n);
  }

  /** Three space-free words joined by single spaces, the first starting
      with a letter and the last not ending a line. */
  lemma ThreeWords(a: string, b: string, c: string)
    requires |a| > 0 && 'a' <= a[0] <= 'z'
    requires forall k :: 0 <= k < |a| ==> a[k] != ' '
    requires forall k :: 0 <= k < |b| ==> b[k] != ' '
    requires forall k :: 0 <= k < |c| ==> c[k] != ' '
    requires |c| > 0 && c[|c| - 1] != '\r' && c[|c| - 1] != '\n'
    ensures !Skipped(a + " " + b + " " + c)
    ensures Words(a + " " + b + " " + c) == [a, b, c]
  {
    var l := a + " " + b + " " + c;
    LetterFirstNotSkipped(l);
    assert l[|l| - 1] == c[|c| - 1];
    WordsUntrimmed(l);
    SplitThree(a, b, c, ' ');
  }

  /** Debug mode only adds one note before a command's block: the same lines
      are accepted and they denote the same program. */
  lemma DebugAddsNoteOnly(l: string, file: string)
    ensures TranslateLine(l, file, true).Ok? <==> TranslateLine(l, file, false).Ok?
    ensures TranslateLine(l, file, true).Ok? ==>
              && Code(TranslateLine(l, file, true).value) == Code(TranslateLine(l, file, false).value)
              && |TranslateLine(l, file, true).value| <= |TranslateLine(l, file, false).value| + 1
  {
    var r := ParseLine(l);
    if r.Ok? && r.value.Some? {
      var c := r.value.value;
      TranslateLineEmit(l, file, true, c);
      TranslateLineEmit(l, file, false, c);
      EmitDebugNote(c, file);
      if Emit(c, file, false).Ok? {
        CodeAppend([Comment("\n// " + CommandText(c))], Emit(c, file, false).value);
      }
    }
  }

  /** A line that reads as a command translates to that command's block. */
  lemma TranslateLineEmit(l: string, file: string, debug: bool, c: Command)
    requires ParseLine(l) == Ok(Some(c))
    ensures TranslateLine(l, file, debug) == Emit(c, file, debug)
  {
  }

  /** In debug mode a block gets the command's canonical text as a note. */
  lemma EmitDebugNote(c: Command, file: string)
    ensures Emit(c, file, true).Ok? <==> Emit(c, file, false).Ok?
    ensures Emit(c, file, true).Ok? ==>
              Emit(c, file, true).value == [Comment("\n// " + CommandText(c))] + Emit(c, file, false).value
  {
  }

  /** A translated line denotes its command's program. */
  lemma TranslateLineCode(l: string, file: string, debug: bool, c: Command)
    requires ParseLine(l) == Ok(Some(c)) && Emittable(c)
    ensures TranslateLine(l, file, debug).Ok?
    ensures Code(TranslateLine(l, file, debug).value) == CommandCode(c, file)
  {
    TranslateLineEmit(l, file, debug, c);
    EmitCode(c, file, debug);
  }

  /** A command's block denotes its program, with or without the note. */
  lemma EmitCode(c: Command, file: string, debug: bool)
    requires Emittable(c)
    ensures Emit(c, file, debug).Ok?
    ensures Code(Emit(c, file, debug).value) == CommandCode(c, file)
  {
    BlockAccepts(c, file);
    var block := Block(c, file).value;
    BlockCode(c, file);
    CodeAppend(Note(debug, CommandText(c)), block);
  }

  /** The private generators' blocks denote the commands' programs. */
  lemma BlockCode(c: Command, file: string)
    requires Emittable(c)
    ensures Block(c, file).Ok? && Code(Block(c, file).value) == CommandCode(c, file)
  {
    match c
    case Arith(op) => ArithBodyCode(op, file);
    case Push(seg, i) => MemBodyCode("push", seg, i, file);
    case Pop(seg, i) => MemBodyCode("pop", seg, i, file);
  }

  lemma ArithBodyCode(op: ArithOp, file: string)
    ensures ArithBlock(OpName(op), file, JumpCounter, false, 0).Ok?
    ensures Code(ArithBlock(OpName(op), file, JumpCounter, false, 0).value) == ArithCode(op, JumpCounter + 1)
  {
    OpOfName(op);
    ArithBlockCode(OpName(op), file, JumpCounter, false, 0);
  }

  lemma MemBodyCode(cmd: string, seg: VmSegment, i: nat, file: string)
    requires cmd == "push" || cmd == "pop"
    requires Emittable(if cmd == "push" then Push(seg, i) else Pop(seg, i))
    ensures MemBlock(cmd, SegmentName(seg), i, file, false, 0).Ok?
    ensures Code(MemBlock(cmd, SegmentName(seg), i, file, false, 0).value)
              == (if cmd == "push" then PushCode(seg, i, file) else PopCode(seg, i, file)).value
  {
    SegmentOfName(seg);
    MemBlockCode(cmd, SegmentName(seg), i, file, false, 0);
  }

  /** A file's output is its lines' blocks, one after the other, and it
      fails exactly when one of its lines does. */
  lemma {:induction false} TranslateLinesAppend(a: seq<string>, b: seq<string>, file: string, debug: bool)
    ensures var r := TranslateLines(a + b, file, debug);
            && (r.Ok? <==> TranslateLines(a, file, debug).Ok? && TranslateLines(b, file, debug).Ok?)
            && (r.Ok? ==> r.value == TranslateLines(a, file, debug).value + TranslateLines(b, file, debug).value)
    decreases |a|
  {
    if |a| == 0 {
      assert a + b == b;
    } else {
      assert (a + b)[0] == a[0];
      assert (a + b)[1..] == a[1..] + b;
      TranslateLinesAppend(a[1..], b, file, debug);
    }
  }

  /** The lines of a file all translate exactly when the file does. */
  lemma {:induction false} TranslateLinesOk(ls: seq<string>, file: string, debug: bool)
    ensures TranslateLines(ls, file, debug).Ok? <==> forall k :: 0 <= k < |ls| ==> TranslateLine(ls[k], file, debug).Ok?
    decreases |ls|
  {
    if |ls| > 0 {
      TranslateLinesOk(ls[1..], file, debug);
      assert forall k :: 1 <= k < |ls| ==> ls[k] == ls[1..][k - 1];
    }
  }

  /** Every comparison in every file declares the labels numbered 1, so a
      file with two comparisons declares the same labels twice. */
  lemma ComparisonLabels(l: string, file: string, debug: bool, op: ArithOp)
    requires IsComparison(op)
    ensures ParseLine(l) == Ok(Some(Arith(op))) ==>
      TranslateLine(l, file, debug).Ok? &&
      Decls(Code(TranslateLine(l, file, debug).value)) == [TrueLabel(1), FalseLabel(1)]
  {
    if ParseLine(l) == Ok(Some(Arith(op))) {
      TranslateLineCode(l, file, debug, Arith(op));
      CommandLabels(op, file);
    }
  }

  /** The program of a comparison declares the two labels numbered 1. */
  lemma CommandLabels(op: ArithOp, file: string)
    requires IsComparison(op)
    ensures Decls(CommandCode(Arith(op), file)) == [TrueLabel(1), FalseLabel(1)]
  {
    ArithLabels(op, JumpCounter + 1);
  }

  /** Two comparisons on two lines: both blocks declare
      `(true_expression1)` and `(false_expression1)`. */
  lemma RepeatedComparisonLabels(op1: ArithOp, op2: ArithOp, file: string, debug: bool)
    requires IsComparison(op1) && IsComparison(op2)
    ensures TranslateLines([OpName(op1), OpName(op2)], file, debug).Ok?
    ensures Decls(Code(TranslateLines([OpName(op1), OpName(op2)], file, debug).value))
              == [TrueLabel(1), FalseLabel(1), TrueLabel(1), FalseLabel(1)]
  {
    var a := OneLine(op1, file, debug);
    var b := OneLine(op2, file, debug);
    TranslateLinesAppend([OpName(op1)], [OpName(op2)], file, debug);
    assert [OpName(op1)] + [OpName(op2)] == [OpName(op1), OpName(op2)];
    CodeAppend(a, b);
    DeclsAppend(Code(a), Code(b));
  }

  /** A file of one comparison line: its block, declaring the labels
      numbered 1. */
  lemma OneLine(op: ArithOp, file: string, debug: bool) returns (block: seq<Line>)
    requires IsComparison(op)
    ensures TranslateLines([OpName(op)], file, debug) == Ok(block)
    ensures Decls(Code(block)) == [TrueLabel(1), FalseLabel(1)]
  {
    ParseArithText(op);
    ComparisonLabels(OpName(op), file, debug, op);
    TranslateSingle(OpName(op), file, debug);
    block := TranslateLine(OpName(op), file, debug).value;
  }

  /** A file of one line translates as that line. */
  lemma TranslateSingle(l: string, file: string, debug: bool)
    ensures TranslateLines([l], file, debug) == TranslateLine(l, file, debug)
  {
    assert [l][1..] == [];
    if TranslateLine(l, file, debug).Ok? {
      assert TranslateLine(l, file, debug).value + [] == TranslateLine(l, file, debug).value;
    }
  }

  /** Only a `//` in the first column starts a comment line: a line that
      starts with a space, such as an indented comment, is read as a
      command whose first word is empty. */
  lemma LeadingSpaceRejected(l: string)
    requires |l| > 0 && l[0] == ' ' && !IsBlank(l)
    requires l[|l| - 1] != '\r' && l[|l| - 1] != '\n'
    ensures ParseLine(l) == Fatal(UnknownCommand)
  {
    assert !EndsWith(l, "\r") && !EndsWith(l, "\n");
    assert Words(l) == Split(l, ' ');
    assert Words(l)[0] == "";
    TablesAgree("");
  }

  /** The words of `piece`, a space and the rest. */
  lemma WordsAfterPiece(piece: string, rest: string)
    requires forall i :: 0 <= i < |piece| ==> piece[i] != ' '
    requires |rest| == 0 || (rest[|rest| - 1] != '\r' && rest[|rest| - 1] != '\n')
    ensures Words(piece + " " + rest) == [piece] + Split(rest, ' ')
  {
    var l := piece + " " + rest;
    assert l[|l| - 1] == (if |rest| == 0 then ' ' else rest[|rest| - 1]);
    assert !EndsWith(l, "\r") && !EndsWith(l, "\n");
    SplitAfterPiece(piece, rest, ' ');
  }

  /** A line that is not skipped reads as its words do. */
  lemma ParseLineOfWords(l: string, words: seq<string>)
    requires !Skipped(l) && Words(l) == words
    ensures ParseLine(l) == match ParseWords(words)
                            case Ok(c) => Ok(Some(c))
                            case Fatal(m) => Fatal(m)
  {
  }

  /** A line whose first character is a lower-case letter is not skipped. */
  lemma LetterFirstNotSkipped(l: string)
    requires |l| > 0 && 'a' <= l[0] <= 'z'
    ensures !Skipped(l)
  {
    assert !IsWhitespace(l[0]);
  }

  /** Any word after an operation is fatal, even the empty word a trailing
      space leaves. */
  lemma ExtraWordAfterOperation(op: ArithOp, extra: string)
    requires |extra| == 0 || (extra[|extra| - 1] != '\r' && extra[|extra| - 1] != '\n')
    ensures ParseLine(OpName(op) + " " + extra) == Fatal(ExtraWord)
  {
    var l := OpName(op) + " " + extra;
    NamesAreWords(op, Local);
    LetterFirstNotSkipped(l);
    WordsAfterPiece(OpName(op), extra);
    ExtraWordParse(op, Words(l));
    ParseLineOfWords(l, Words(l));
  }

  lemma ExtraWordParse(op: ArithOp, words: seq<string>)
    requires |words| >= 2 && words[0] == OpName(op)
    ensures ParseWords(words) == Fatal(ExtraWord)
  {
    OpOfName(op);
    TablesAgree(OpName(op));
  }

  /** Words after the index are ignored. */
  lemma ExtraMemoryWordsIgnored(seg: VmSegment, i: nat, cmd: string, extra: string)
    requires cmd == "push" || cmd == "pop"
    requires |extra| == 0 || (extra[|extra| - 1] != '\r' && extra[|extra| - 1] != '\n')
    ensures ParseLine(MemText(cmd, seg, i) + " " + extra)
              == Ok(Some(if cmd == "push" then Push(seg, i) else Pop(seg, i)))
  {
    var l := MemText(cmd, seg, i) + " " + extra;
    LetterFirstNotSkipped(l);
    var words := MemWordsThenExtra(seg, i, cmd, extra);
    ParseNatToString(i);
    SegmentOfName(seg);
    ParseMemWordsExtra(seg, i, cmd, words);
    ParseLineOfWords(l, words);
  }

  /** The words of `cmd seg i extra`: the three words, then those of
      `extra`. */
  lemma MemWordsThenExtra(seg: VmSegment, i: nat, cmd: string, extra: string) returns (words: seq<string>)
    requires cmd == "push" || cmd == "pop"
    requires |extra| == 0 || (extra[|extra| - 1] != '\r' && extra[|extra| - 1] != '\n')
    ensures Words(MemText(cmd, seg, i) + " " + extra) == words
    ensures |words| >= 3 && words[..3] == [cmd, SegmentName(seg), NatToString(i)]
  {
    var name, n := SegmentName(seg), NatToString(i);
    NamesAreWords(Add, seg);
    assert forall k :: 0 <= k < |n| ==> IsDigit(n[k]);
    ThreeWordsThenExtra(cmd, name, n, extra);
    words := [cmd, name, n] + Split(extra, ' ');
  }

  lemma ThreeWordsThenExtra(a: string, b: string, c: string, extra: string)
    requires forall k :: 0 <= k < |a| ==> a[k] != ' '
    requires forall k :: 0 <= k < |b| ==> b[k] != ' '
    requires forall k :: 0 <= k < |c| ==> c[k] != ' '
    requires |extra| == 0 || (extra[|extra| - 1] != '\r' && extra[|extra| - 1] != '\n')
    ensures Words(a + " " + b + " " + c + " " + extra) == [a, b, c] + Split(extra, ' ')
  {
    var l := a + " " + b + " " + c + " " + extra;
    assert l[|l| - 1] == (if |extra| == 0 then ' ' else extra[|extra| - 1]);
    WordsUntrimmed(l);
    SplitThreeThenRest(a, b, c, extra, ' ');
  }

  /** A line that ends in neither `\r` nor `\n` is cut as it is. */
  lemma WordsUntrimmed(l: string)
    requires |l| > 0 && l[|l| - 1] != '\r' && l[|l| - 1] != '\n'
    ensures Words(l) == Split(l, ' ')
  {
    assert !EndsWith(l, "\r") && !EndsWith(l, "\n");
  }

  lemma ParseMemWordsExtra(seg: VmSegment, i: nat, cmd: string, words: seq<string>)
    requires cmd == "push" || cmd == "pop"
    requires ParseNat(NatToString(i)) == Some(i) && SegmentOf(SegmentName(seg)) == Some(seg)
    requires |words| >= 3 && words[..3] == [cmd, SegmentName(seg), NatToString(i)]
    ensures ParseWords(words) == Ok(if cmd == "push" then Push(seg, i) else Pop(seg, i))
  {
    assert words[0] == cmd && words[1] == SegmentName(seg) && words[2] == NatToString(i);
    TablesAgree(cmd);
    TablesAgree(SegmentName(seg));
  }

  /** `pop constant i` reads as a command and fails with the private
      copy's message. */
  lemma PopConstantFails(i: nat, file: string, debug: bool)
    ensures TranslateLine(MemText("pop", Constant, i), file, debug) == Fatal(PopConstantLine)
  {
    ParseMemText(Constant, i, "pop");
    TranslateLineEmit(MemText("pop", Constant, i), file, debug, Pop(Constant, i));
    EmitAccepts(Pop(Constant, i), file, debug);
  }
}
