/** `push` and `pop` between the stack and the eight memory segments
    (`src/commands/memory_access.rs`). */
module MemoryAccess {
  import opened Wrappers
  import opened Text
  import opened Patterns
  import opened Hack

  datatype MemorySegment = Lcl | Arg | This | That | Pointer | Temp | Static | Constant

  datatype MemoryCommandType = Push | Pop

  /** A parsed memory-access command. The index is the value of the decimal
      digits on the line, which the source holds in an `i16`. */
  datatype MemoryAccessCommand = MemoryAccessCommand(
    fileName: string,
    commandType: MemoryCommandType,
    segment: MemorySegment,
    i: nat)

  /** The largest `i16`. */
  const I16Max: nat := 32767

  /** Unreachable code was reached (`unreachable!()`). */
  const Unreachable: string := "internal error: entered unreachable code"

  /** Arithmetic overflow in a debug build. */
  const AddOverflow: string := "attempt to add with overflow"

  /** What every command `new` returns satisfies: an index that fits an
      `i16`, and a `pointer` index of 0 or 1. */
  predicate Valid(cmd: MemoryAccessCommand) {
    cmd.i <= I16Max && (cmd.segment == Pointer ==> cmd.i < 2)
  }

  /** The keyword of each operation. */
  function OperationName(t: MemoryCommandType): string {
    match t
    case Push => "push"
    case Pop => "pop"
  }

  /** The keyword of each segment. */
  function SegmentName(seg: MemorySegment): string {
    match seg
    case Arg => "argument"
    case Lcl => "local"
    case This => "this"
    case That => "that"
    case Static => "static"
    case Pointer => "pointer"
    case Temp => "temp"
    case Constant => "constant"
  }

  /** The operation a captured `push|pop` names. */
  function OperationOf(op: string): MemoryCommandType
    requires op == "push" || op == "pop"
  {
    if op == "pop" then Pop else Push
  }

  /** The segment a captured segment keyword names, with the `constant`
      arm the source leaves out. */
  function SegmentOf(name: string): MemorySegment
    requires name in SegmentNames
  {
    if name == "argument" then Arg
    else if name == "local" then Lcl
    else if name == "this" then This
    else if name == "that" then That
    else if name == "static" then Static
    else if name == "pointer" then Pointer
    else if name == "temp" then Temp
    else Constant
  }

  lemma KeywordsRoundTrip(t: MemoryCommandType, seg: MemorySegment)
    ensures OperationName(t) == "push" || OperationName(t) == "pop"
    ensures OperationOf(OperationName(t)) == t
    ensures SegmentName(seg) in SegmentNames && SegmentOf(SegmentName(seg)) == seg
  {
  }

  lemma KeywordsRoundTripBack(op: string, name: string)
    requires op == "push" || op == "pop"
    requires name in SegmentNames
    ensures OperationName(OperationOf(op)) == op
    ensures SegmentName(SegmentOf(name)) == name
  {
  }

  /** The checks of `new` after the operation and the segment are known:
      the index must fit an `i16`, and a `pointer` index must be 0 or 1. */
  function Complete(m: MemoryCaptures, fileName: string, t: MemoryCommandType, seg: MemorySegment)
    : Option<MemoryAccessCommand>
  {
    match ParseNumber(m.index, I16Max)
    case None => None
    case Some(i) =>
      if seg == Pointer && i != 0 && i != 1 then None
      else Some(MemoryAccessCommand(fileName, t, seg, i))
  }

  /** `MemoryAccessCommand::new` with the operation read from the first
      capture and a `constant` arm, as the pattern and `generate` intend. */
  function Parse(command: string, fileName: string): Option<MemoryAccessCommand> {
    match MatchMemory(command)
    case None => None
    case Some(m) =>
      MatchMemorySound(command);
      Complete(m, fileName, OperationOf(m.operation), SegmentOf(m.segment))
  }

  /** `command` spells `cmd`: its operation, whitespace, its segment,
      whitespace and decimal digits whose value is the index. */
  ghost predicate Spells(command: string, cmd: MemoryAccessCommand, w1: string, w2: string, digits: string) {
    && |w1| > 0 && AllSpace(w1) && |w2| > 0 && AllSpace(w2)
    && |digits| > 0 && AllDigits(digits) && DigitsValue(digits) == cmd.i
    && command == OperationName(cmd.commandType) + w1 + SegmentName(cmd.segment) + w2 + digits
  }

  /** A line parses to `cmd` exactly when it spells `cmd` and `cmd` is valid. */
  lemma ParseSpec(command: string, fileName: string, cmd: MemoryAccessCommand)
    ensures Parse(command, fileName) == Some(cmd) <==>
      && cmd.fileName == fileName && Valid(cmd)
      && exists w1, w2, digits :: Spells(command, cmd, w1, w2, digits)
  {
    if Parse(command, fileName) == Some(cmd) {
      ParseSound(command, fileName);
    }
    if cmd.fileName == fileName && Valid(cmd) && exists w1, w2, digits :: Spells(command, cmd, w1, w2, digits) {
      var w1, w2, digits :| Spells(command, cmd, w1, w2, digits);
      ParseComplete(command, cmd, w1, w2, digits);
    }
  }

  lemma ParseSound(command: string, fileName: string)
    requires Parse(command, fileName).Some?
    ensures var cmd := Parse(command, fileName).value;
      && cmd.fileName == fileName && Valid(cmd)
      && exists w1, w2, digits :: Spells(command, cmd, w1, w2, digits)
  {
    var m := MatchMemory(command).value;
    MatchMemorySound(command);
    var cmd := Parse(command, fileName).value;
    KeywordsRoundTripBack(m.operation, m.segment);
    var w1, w2 :| && |w1| > 0 && AllSpace(w1) && |w2| > 0 && AllSpace(w2)
                  && command == m.operation + w1 + m.segment + w2 + m.index;
    assert Spells(command, cmd, w1, w2, m.index);
  }

  lemma ParseComplete(command: string, cmd: MemoryAccessCommand, w1: string, w2: string, digits: string)
    requires Valid(cmd) && Spells(command, cmd, w1, w2, digits)
    ensures Parse(command, cmd.fileName) == Some(cmd)
  {
    KeywordsRoundTrip(cmd.commandType, cmd.segment);
    var m := MemoryCaptures(OperationName(cmd.commandType), SegmentName(cmd.segment), digits);
    MatchMemoryComplete(command, m, w1, w2);
  }

  /** The canonical spelling of a command, one space between the words. */
  function Format(cmd: MemoryAccessCommand): string {
    OperationName(cmd.commandType) + " " + SegmentName(cmd.segment) + " " + NatToString(cmd.i)
  }

  /** Every valid command is read back from its canonical spelling. */
  lemma ParseFormat(cmd: MemoryAccessCommand)
    requires Valid(cmd)
    ensures Parse(Format(cmd), cmd.fileName) == Some(cmd)
  {
    DigitsValueOfNatToString(cmd.i);
    assert AllSpace(" ");
    ParseComplete(Format(cmd), cmd, " ", " ", NatToString(cmd.i));
  }

  /** The operation as line 40 of the source reads it: from the second
      capture, the segment keyword, which is never `push` or `pop`. */
  function CommandTypeAsWritten(capture: string): Outcome<MemoryCommandType> {
    if capture == "pop" then Done(Pop)
    else if capture == "push" then Done(Push)
    else Panic(Unreachable)
  }

  /** The segment as the source reads it: no arm for `constant`. */
  function SegmentAsWritten(capture: string): Outcome<MemorySegment> {
    if capture == "argument" then Done(Arg)
    else if capture == "local" then Done(Lcl)
    else if capture == "this" then Done(This)
    else if capture == "that" then Done(That)
    else if capture == "static" then Done(Static)
    else if capture == "pointer" then Done(Pointer)
    else if capture == "temp" then Done(Temp)
    else Panic(Unreachable)
  }

  /** `MemoryAccessCommand::new` exactly as written. */
  function ParseAsWritten(command: string, fileName: string): Outcome<Option<MemoryAccessCommand>> {
    match MatchMemory(command)
    case None => Done(None)
    case Some(m) =>
      match CommandTypeAsWritten(m.segment)
      case Panic(msg) => Panic(msg)
      case Done(t) =>
        match SegmentAsWritten(m.segment)
        case Panic(msg) => Panic(msg)
        case Done(seg) => Done(Complete(m, fileName, t, seg))
  }

  /** As written, every line the pattern accepts panics; only lines it
      rejects get through, as `None`. */
  lemma ParseAsWrittenPanics(command: string, fileName: string)
    ensures ParseAsWritten(command, fileName) ==
      if MatchMemory(command).Some? then Panic(Unreachable) else Done(None)
  {
    if MatchMemory(command).Some? {
      var m := MatchMemory(command).value;
      assert m.segment in SegmentNames;
      assert m.segment != "pop" && m.segment != "push";
      assert CommandTypeAsWritten(m.segment) == Panic(Unreachable);
    }
  }

  /** Every valid command panics as written when spelled out, and is read
      back once corrected. */
  lemma AsWrittenPanicsOnEveryCommand(cmd: MemoryAccessCommand)
    requires Valid(cmd)
    ensures ParseAsWritten(Format(cmd), cmd.fileName) == Panic(Unreachable)
    ensures Parse(Format(cmd), cmd.fileName) == Some(cmd)
  {
    ParseFormat(cmd);
    ParseAsWrittenPanics(Format(cmd), cmd.fileName);
  }

  /** Even with the operation read from the right capture, `constant` has no
      segment arm. */
  lemma ConstantSegmentAsWritten()
    ensures SegmentAsWritten("constant") == Panic(Unreachable)
    ensures SegmentOf("constant") == Constant
    ensures forall name :: name in SegmentNames && name != "constant" ==> SegmentAsWritten(name) == Done(SegmentOf(name))
  {
  }

  // ---- code generation ----

  /** The base-pointer register of a segment addressed through one. */
  function BaseSymbol(seg: MemorySegment): string
    requires seg in {Lcl, Arg, This, That}
  {
    match seg
    case Lcl => "LCL"
    case Arg => "ARG"
    case This => "THIS"
    case That => "THAT"
  }

  /** `pointer 0` is THIS and `pointer 1` is THAT. */
  function PointerSymbol(i: nat): string
    requires i < 2
  {
    if i == 0 then "THIS" else "THAT"
  }

  /** `temp i` is RAM[5 + i]. */
  function TempSymbol(i: nat): string {
    NatToString(i + 5)
  }

  /** `static i` of file `f` is the assembler variable `f.i`. */
  function StaticSymbol(fileName: string, i: nat): string {
    fileName + "." + NatToString(i)
  }

  /** `handle_segment_push` */
  function SegmentPush(seg: MemorySegment, i: nat): seq<string>
    requires seg in {Lcl, Arg, This, That}
  {
    [At(NatToString(i)), "D=A", At(BaseSymbol(seg)), "A=D+M", "D=M"] + PushD
  }

  /** `handle_constant_push` */
  function ConstantPush(i: nat): seq<string> {
    [At(NatToString(i)), "D=A"] + PushD
  }

  /** `handle_pointer_push`, `handle_static_push` and `handle_temp_push`:
      load the named register and push it. */
  function DirectPush(symbol: string): seq<string> {
    [At(symbol), "D=M"] + PushD
  }

  /** `handle_segment_pop`: the address base + i is kept in R13 while the
      stack is popped. */
  function SegmentPop(seg: MemorySegment, i: nat): seq<string>
    requires seg in {Lcl, Arg, This, That}
  {
    [At(NatToString(i)), "D=A", At(BaseSymbol(seg)), "D=D+M", "@R13", "M=D"] + PopD + ["@R13", "A=M", "M=D"]
  }

  /** `handle_constant_pop`: drop the top of the stack. */
  function ConstantPop(): seq<string> {
    ["@SP", "AM=M-1"]
  }

  /** `handle_pointer_pop`, `handle_static_pop` and `handle_temp_pop`: pop
      into the named register. */
  function DirectPop(symbol: string): seq<string> {
    PopD + [At(symbol), "M=D"]
  }

  /** The register `pointer`, `temp` and `static` name directly. */
  function DirectSymbol(cmd: MemoryAccessCommand): string
    requires Valid(cmd) && cmd.segment in {Pointer, Temp, Static}
  {
    match cmd.segment
    case Pointer => PointerSymbol(cmd.i)
    case Temp => TempSymbol(cmd.i)
    case Static => StaticSymbol(cmd.fileName, cmd.i)
  }

  /** `generate` for a memory-access command. The temp address `i + 5` is
      computed in `i16` and overflows, in a debug build, past 32762. */
  function Generate(cmd: MemoryAccessCommand): Outcome<seq<string>>
    requires Valid(cmd)
  {
    if cmd.segment == Temp && cmd.i + 5 > I16Max then Panic(AddOverflow)
    else
      Done(
        match cmd.commandType
        case Push =>
          (match cmd.segment
           case Lcl | Arg | This | That => SegmentPush(cmd.segment, cmd.i)
           case Pointer | Temp | Static => DirectPush(DirectSymbol(cmd))
           case Constant => ConstantPush(cmd.i))
        case Pop =>
          (match cmd.segment
           case Lcl | Arg | This | That => SegmentPop(cmd.segment, cmd.i)
           case Pointer | Temp | Static => DirectPop(DirectSymbol(cmd))
           case Constant => ConstantPop()))
  }

  /** Only a temp index past 32762 overflows. */
  lemma GeneratePanics(cmd: MemoryAccessCommand)
    requires Valid(cmd)
    ensures Generate(cmd).Panic? <==> cmd.segment == Temp && cmd.i > I16Max - 5
  {
  }

  /** Every push ends by pushing D, and moves SP up by exactly one. */
  lemma PushMoves(cmd: MemoryAccessCommand)
    requires Valid(cmd) && cmd.commandType == Push && Generate(cmd).Done?
    ensures var code := Generate(cmd).value;
      && |code| >= 6 && code[|code| - 4..] == PushD
      && CountMoves(code, Increment) == 1 && CountMoves(code, Decrement) == 0
  {
    var code := Generate(cmd).value;
    BlockMoves();
    if cmd.segment in {Lcl, Arg, This, That} {
      var load := [At(NatToString(cmd.i)), "D=A", At(BaseSymbol(cmd.segment)), "A=D+M", "D=M"];
      assert code == load + PushD;
      SymbolLinesDoNotMove(BaseSymbol(cmd.segment));
      QuietMoves(load);
      MovesConcat(load, PushD);
    } else if cmd.segment == Constant {
      var load := [At(NatToString(cmd.i)), "D=A"];
      assert code == load + PushD;
      QuietMoves(load);
      MovesConcat(load, PushD);
    } else {
      var load := [At(DirectSymbol(cmd)), "D=M"];
      assert code == load + PushD;
      QuietMoves(load);
      MovesConcat(load, PushD);
    }
  }

  /** Every pop moves SP down by exactly one; popping a constant does
      nothing else. */
  lemma PopMoves(cmd: MemoryAccessCommand)
    requires Valid(cmd) && cmd.commandType == Pop && Generate(cmd).Done?
    ensures var code := Generate(cmd).value;
      && CountMoves(code, Decrement) == 1 && CountMoves(code, Increment) == 0
      && (cmd.segment == Constant ==> code == ["@SP", "AM=M-1"])
  {
    var code := Generate(cmd).value;
    BlockMoves();
    if cmd.segment in {Lcl, Arg, This, That} {
      var head := [At(NatToString(cmd.i)), "D=A", At(BaseSymbol(cmd.segment)), "D=D+M", "@R13", "M=D"];
      var tail := ["@R13", "A=M", "M=D"];
      assert code == head + PopD + tail;
      SymbolLinesDoNotMove(BaseSymbol(cmd.segment));
      QuietMoves(head);
      QuietMoves(tail);
      MovesConcat(head, PopD);
      MovesConcat(head + PopD, tail);
    } else if cmd.segment != Constant {
      var tail := [At(DirectSymbol(cmd)), "M=D"];
      assert code == PopD + tail;
      SymbolLinesDoNotMove(DirectSymbol(cmd));
      QuietMoves(tail);
      MovesConcat(PopD, tail);
    }
  }

  /** A pointer-addressed pop computes base + i and keeps it in R13 before
      it pops, then stores D through R13; a direct pop pops and stores D in
      the register. */
  lemma PopLayout(cmd: MemoryAccessCommand)
    requires Valid(cmd) && cmd.commandType == Pop && Generate(cmd).Done?
    ensures var code := Generate(cmd).value;
      && (cmd.segment in {Lcl, Arg, This, That} ==>
            && |code| == 12
            && code[..4] == [At(NatToString(cmd.i)), "D=A", At(BaseSymbol(cmd.segment)), "D=D+M"]
            && code[4..6] == ["@R13", "M=D"] && code[6..9] == PopD && code[9..] == ["@R13", "A=M", "M=D"])
      && (cmd.segment in {Pointer, Temp, Static} ==>
            code[..3] == PopD && code[3..] == [At(DirectSymbol(cmd)), "M=D"])
  {
    var code := Generate(cmd).value;
    if cmd.segment in {Lcl, Arg, This, That} {
      assert code == SegmentPop(cmd.segment, cmd.i);
      assert code[..6] == [At(NatToString(cmd.i)), "D=A", At(BaseSymbol(cmd.segment)), "D=D+M", "@R13", "M=D"];
    } else if cmd.segment != Constant {
      assert code == DirectPop(DirectSymbol(cmd));
    }
  }

  /** What a push loads into D before pushing it: the number `i` itself for
      `constant`; the cell at base + `i` for the pointer-addressed segments;
      for `pointer`, `temp` and `static`, the register THIS or THAT, RAM[5 + i]
      or the file's variable `f.i`. The A-instruction's digits read back as
      `i` (or `5 + i` for `temp`). */
  lemma PushLayout(cmd: MemoryAccessCommand)
    requires Valid(cmd) && cmd.commandType == Push && Generate(cmd).Done?
    ensures var code := Generate(cmd).value;
      && (cmd.segment == Constant ==>
            && code == [At(NatToString(cmd.i)), "D=A"] + PushD
            && DigitsValue(code[0][1..]) == cmd.i)
      && (cmd.segment in {Lcl, Arg, This, That} ==>
            && |code| == 9
            && code == [At(NatToString(cmd.i)), "D=A", At(BaseSymbol(cmd.segment)), "A=D+M", "D=M"] + PushD
            && DigitsValue(code[0][1..]) == cmd.i)
      && (cmd.segment in {Pointer, Temp, Static} ==>
            |code| == 6 && code == [At(DirectSymbol(cmd)), "D=M"] + PushD)
      && (cmd.segment == Pointer ==> code[0] == (if cmd.i == 0 then "@THIS" else "@THAT"))
      && (cmd.segment == Temp ==> DigitsValue(code[0][1..]) == cmd.i + 5)
      && (cmd.segment == Static ==> code[0] == "@" + cmd.fileName + "." + NatToString(cmd.i))
  {
    if cmd.segment in {Lcl, Arg, This, That} {
      SegmentPushLayout(cmd);
    } else if cmd.segment == Constant {
      ConstantPushLayout(cmd);
    } else {
      DirectPushLayout(cmd);
    }
  }

  lemma SegmentPushLayout(cmd: MemoryAccessCommand)
    requires Valid(cmd) && cmd.commandType == Push && cmd.segment in {Lcl, Arg, This, That}
    ensures Generate(cmd).Done?
    ensures var code := Generate(cmd).value;
      && |code| == 9
      && code == [At(NatToString(cmd.i)), "D=A", At(BaseSymbol(cmd.segment)), "A=D+M", "D=M"] + PushD
      && DigitsValue(code[0][1..]) == cmd.i
  {
    assert Generate(cmd) == Done(SegmentPush(cmd.segment, cmd.i));
    AtNumber(cmd.i);
  }

  lemma ConstantPushLayout(cmd: MemoryAccessCommand)
    requires Valid(cmd) && cmd.commandType == Push && cmd.segment == Constant
    ensures Generate(cmd).Done?
    ensures var code := Generate(cmd).value;
      && code == [At(NatToString(cmd.i)), "D=A"] + PushD
      && DigitsValue(code[0][1..]) == cmd.i
  {
    assert Generate(cmd) == Done(ConstantPush(cmd.i));
    AtNumber(cmd.i);
  }

  lemma DirectPushLayout(cmd: MemoryAccessCommand)
    requires Valid(cmd) && cmd.commandType == Push && cmd.segment in {Pointer, Temp, Static}
    requires Generate(cmd).Done?
    ensures var code := Generate(cmd).value;
      && |code| == 6 && code == [At(DirectSymbol(cmd)), "D=M"] + PushD
      && (cmd.segment == Pointer ==> code[0] == (if cmd.i == 0 then "@THIS" else "@THAT"))
      && (cmd.segment == Temp ==> DigitsValue(code[0][1..]) == cmd.i + 5)
      && (cmd.segment == Static ==> code[0] == "@" + cmd.fileName + "." + NatToString(cmd.i))
  {
    assert Generate(cmd) == Done(DirectPush(DirectSymbol(cmd)));
    if cmd.segment == Temp {
      AtNumber(cmd.i + 5);
    }
  }

  /** The digits of `@n` read back as `n`. */
  lemma AtNumber(n: nat)
    ensures At(NatToString(n))[1..] == NatToString(n) && DigitsValue(At(NatToString(n))[1..]) == n
  {
    DigitsValueOfNatToString(n);
  }

  /** `push` and `pop` of the same segment and index reach the same cell:
      the same register for `pointer`, `temp` and `static`, and the same
      base + index for the pointer-addressed segments. */
  lemma PushPopSameAddress(push: MemoryAccessCommand, pop: MemoryAccessCommand)
    requires Valid(push) && push.commandType == Push && Generate(push).Done?
    requires pop == push.(commandType := Pop)
    ensures Generate(pop).Done?
    ensures push.segment in {Pointer, Temp, Static} ==>
      Generate(push).value[0] == Generate(pop).value[3] == At(DirectSymbol(push))
    ensures push.segment in {Lcl, Arg, This, That} ==>
      Generate(push).value[..3] == Generate(pop).value[..3] == [At(NatToString(push.i)), "D=A", At(BaseSymbol(push.segment))]
  {
  }

  /** Static variables of different files, or of different indices, are
      different assembler symbols. */
  lemma StaticSymbolInjective(f1: string, i1: nat, f2: string, i2: nat)
    requires StaticSymbol(f1, i1) == StaticSymbol(f2, i2)
    ensures f1 == f2 && i1 == i2
  {
    var s := StaticSymbol(f1, i1);
    var n1, n2 := NatToString(i1), NatToString(i2);
    SameDigitCount(f1, n1, f2, n2);
    assert n1 == s[|s| - |n1|..] == n2;
    NatToStringInjective(i1, i2);
    assert f1 == s[..|f1|] == f2;
  }

  /** The digits after the last dot have the same length on both sides. */
  lemma SameDigitCount(f1: string, n1: string, f2: string, n2: string)
    requires f1 + "." + n1 == f2 + "." + n2 && AllDigits(n1) && AllDigits(n2)
    ensures |n1| == |n2|
  {
    var s := f1 + "." + n1;
    assert s[|f1|] == '.';
    assert s == f2 + "." + n2;
    assert s[|f2|] == '.';
    assert forall k :: 0 <= k < |n1| ==> s[|f1| + 1 + k] == n1[k];
    assert forall k :: 0 <= k < |n2| ==> s[|f2| + 1 + k] == n2[k];
  }
}
