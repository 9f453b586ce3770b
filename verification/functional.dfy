/** `function`, `call` and `return` (`src/commands/functional.rs`). */
module Functional {
  import opened Wrappers
  import opened Text
  import opened Patterns
  import opened Hack

  datatype FunctionalCommandType = Call | Function | Return

  /** A parsed function command. `functionName` is the function the line
      appears in; `callingFunction` is the name the line itself captures
      (the callee of a `call`, the function a `function` line declares);
      `ret` is the number of calls seen so far in the enclosing function;
      `arg` is the captured count. */
  datatype FunctionalCommand = FunctionalCommand(
    fileName: string,
    functionName: string,
    callingFunction: Option<string>,
    ret: nat,
    arg: nat,
    commandType: FunctionalCommandType)

  /** The largest `u16`. */
  const U16Max: nat := 65535

  /** `unwrap` on a count that does not fit a `u16`. */
  const CountOverflow: string := "called `Result::unwrap()` on an `Err` value: ParseIntError { kind: PosOverflow }"

  /** Arithmetic overflow in a debug build. */
  const AddOverflow: string := "attempt to add with overflow"

  /** The pattern of each command type. */
  function PatternOf(t: FunctionalCommandType): Pattern {
    match t
    case Function => NameAndCount("function")
    case Return => Literal("return")
    case Call => NameAndCount("call")
  }

  /** `Regex::captures` with the pattern of `t`, anywhere in the line. */
  function Search(t: FunctionalCommandType, command: string): Option<Captures> {
    Find(PatternOf(t), command)
  }

  /** The order `new` tries the patterns in. */
  const PatternOrderAsWritten: seq<FunctionalCommandType> := [Function, Return, Call]

  /** `call` tried before `return`, so that a callee whose name contains
      `return` is still called. */
  const PatternOrder: seq<FunctionalCommandType> := [Function, Call, Return]

  /** The count of a match: the second group parsed as a `u16` with
      `unwrap`, or 0 when the pattern has no second group. */
  function CountOf(c: Captures): Outcome<nat> {
    match c.group2
    case None => Done(0)
    case Some(digits) =>
      match ParseNumber(digits, U16Max)
      case None => Panic(CountOverflow)
      case Some(n) => Done(n)
  }

  /** One iteration of the loop of `new`: when the pattern of `t` is found,
      the count is parsed first (and may panic), then a missing enclosing
      function gives `None`; otherwise the later patterns decide. */
  function Try(command: string, fileName: string, functionName: Option<string>, ret: nat,
               t: FunctionalCommandType, later: Outcome<Option<FunctionalCommand>>)
    : Outcome<Option<FunctionalCommand>>
  {
    match Search(t, command)
    case None => later
    case Some(c) =>
      match CountOf(c)
      case Panic(msg) => Panic(msg)
      case Done(arg) =>
        if functionName.None? then Done(None)
        else Done(Some(FunctionalCommand(fileName, functionName.value, c.group1, ret, arg, t)))
  }

  /** The loop of `new` over the remaining patterns `types`. */
  function ParseFrom(command: string, fileName: string, functionName: Option<string>, ret: nat,
                     types: seq<FunctionalCommandType>): Outcome<Option<FunctionalCommand>>
    decreases |types|
  {
    if types == [] then Done(None)
    else Try(command, fileName, functionName, ret, types[0], ParseFrom(command, fileName, functionName, ret, types[1..]))
  }

  /** `FunctionalCommand::new` as written. */
  function ParseAsWritten(command: string, fileName: string, functionName: Option<string>, ret: nat)
    : Outcome<Option<FunctionalCommand>>
  {
    ParseFrom(command, fileName, functionName, ret, PatternOrderAsWritten)
  }

  /** `FunctionalCommand::new` with `call` tried before `return`. */
  function Parse(command: string, fileName: string, functionName: Option<string>, ret: nat)
    : Outcome<Option<FunctionalCommand>>
  {
    ParseFrom(command, fileName, functionName, ret, PatternOrder)
  }

  /** What every command `new` returns satisfies. */
  predicate Valid(f: FunctionalCommand) {
    && f.arg <= U16Max
    && (f.commandType == Return ==> f.callingFunction.None? && f.arg == 0)
    && (f.commandType != Return ==> f.callingFunction.Some? && |f.callingFunction.value| > 0)
  }

  lemma ParseUnfold(command: string, fileName: string, functionName: Option<string>, ret: nat)
    ensures Parse(command, fileName, functionName, ret) ==
      Try(command, fileName, functionName, ret, Function,
        Try(command, fileName, functionName, ret, Call,
          Try(command, fileName, functionName, ret, Return, Done(None))))
    ensures ParseAsWritten(command, fileName, functionName, ret) ==
      Try(command, fileName, functionName, ret, Function,
        Try(command, fileName, functionName, ret, Return,
          Try(command, fileName, functionName, ret, Call, Done(None))))
  {
    assert PatternOrder[1..] == [Call, Return] && PatternOrder[2..] == [Return] && PatternOrder[3..] == [];
    assert PatternOrderAsWritten[1..] == [Return, Call] && PatternOrderAsWritten[2..] == [Call];
    assert PatternOrderAsWritten[3..] == [];
  }

  /** A `function` or `call` match captures a name and a count; `return`
      captures nothing, so its count is 0. */
  lemma SearchCaptures(t: FunctionalCommandType, command: string)
    requires Search(t, command).Some?
    ensures var c := Search(t, command).value;
      if t == Return then c.group1.None? && CountOf(c) == Done(0)
      else
        && c.group1.Some? && |c.group1.value| > 0 && c.group2.Some?
        && |c.group2.value| > 0 && AllDigits(c.group2.value)
        && (CountOf(c).Panic? <==> DigitsValue(c.group2.value) > U16Max)
        && (CountOf(c).Done? ==> CountOf(c).value == DigitsValue(c.group2.value))
  {
    FindCaptures(PatternOf(t), command);
  }

  /** The number a match's count group spells, or 0 when the pattern has
      no count group (as for `return`). */
  function CapturedCount(c: Captures): nat {
    var g := c.group2.GetOr("");
    if AllDigits(g) then DigitsValue(g) else 0
  }

  /** The pattern that decides a line: the first of `function`, `call`,
      `return` that occurs in it, if any. */
  function FirstFound(command: string): Option<FunctionalCommandType> {
    if Search(Function, command).Some? then Some(Function)
    else if Search(Call, command).Some? then Some(Call)
    else if Search(Return, command).Some? then Some(Return)
    else None
  }

  /** What one successful iteration builds. */
  lemma TrySpec(command: string, fileName: string, functionName: Option<string>, ret: nat,
                t: FunctionalCommandType, later: Outcome<Option<FunctionalCommand>>)
    requires Search(t, command).Some?
    ensures var r := Try(command, fileName, functionName, ret, t, later);
      && (r.Panic? <==> CountOf(Search(t, command).value).Panic?)
      && (r.Panic? <==> CapturedCount(Search(t, command).value) > U16Max)
      && (r.Done? && r.value.Some? <==> functionName.Some? && r.Done?)
      && (r.Done? && r.value.Some? ==>
            var f := r.value.value;
            && f.fileName == fileName && f.functionName == functionName.value && f.ret == ret
            && f.commandType == t && Valid(f)
            && f.callingFunction == Search(t, command).value.group1
            && f.arg == CapturedCount(Search(t, command).value))
  {
    SearchCaptures(t, command);
  }

  /** The first pattern found decides; its count is parsed before the
      enclosing function is looked at, so an oversized count panics even at
      the top level of a file; a command is only built inside a function,
      and then always: it carries the inputs, the type of the pattern that
      decided, the name and the count that pattern captured. */
  lemma ParseSpec(command: string, fileName: string, functionName: Option<string>, ret: nat)
    ensures var r := Parse(command, fileName, functionName, ret);
      match FirstFound(command)
      case None => r == Done(None)
      case Some(t) =>
        var c := Search(t, command).value;
        && (r.Panic? <==> CapturedCount(c) > U16Max)
        && (r.Done? && r.value.Some? <==> CapturedCount(c) <= U16Max && functionName.Some?)
        && (r.Done? && r.value.Some? ==>
              var f := r.value.value;
              && f.fileName == fileName && Some(f.functionName) == functionName && f.ret == ret
              && f.commandType == t && f.callingFunction == c.group1 && f.arg == CapturedCount(c))
    ensures var r := Parse(command, fileName, functionName, ret);
      && ((Search(Function, command).None? && Search(Call, command).None? && Search(Return, command).None?)
            ==> r == Done(None))
      && (functionName.None? ==> r.Panic? || r == Done(None))
      && (r.Done? && r.value.Some? ==>
            var f := r.value.value;
            && f.fileName == fileName && Some(f.functionName) == functionName && f.ret == ret && Valid(f)
            && Search(f.commandType, command).Some?
            && f.callingFunction == Search(f.commandType, command).value.group1
            && (f.commandType != Function ==> Search(Function, command).None?)
            && (f.commandType == Return ==> Search(Call, command).None?))
  {
    ParseUnfold(command, fileName, functionName, ret);
    if Search(Function, command).Some? {
      TrySpec(command, fileName, functionName, ret, Function, Parse(command, fileName, functionName, ret));
    } else if Search(Call, command).Some? {
      TrySpec(command, fileName, functionName, ret, Call, Try(command, fileName, functionName, ret, Return, Done(None)));
    } else if Search(Return, command).Some? {
      TrySpec(command, fileName, functionName, ret, Return, Done(None));
    }
  }

  /** A line panics exactly when the pattern that decides it is `function`
      or `call` and its count does not fit a `u16`. */
  lemma ParsePanics(command: string, fileName: string, functionName: Option<string>, ret: nat)
    ensures Parse(command, fileName, functionName, ret).Panic? <==>
      && FirstFound(command).Some? && FirstFound(command).value != Return
      && var g := Search(FirstFound(command).value, command).value.group2.GetOr("");
         AllDigits(g) && DigitsValue(g) > U16Max
  {
    ParseSpec(command, fileName, functionName, ret);
    if FirstFound(command) == Some(Return) {
      SearchCaptures(Return, command);
    }
  }

  /** As written, a line holding both a call and the word `return` (and no
      `function`) becomes a `return`; with `call` tried first it is a call. */
  lemma ReturnShadowsCall(command: string, fileName: string, functionName: string, ret: nat)
    requires Search(Function, command).None? && Search(Return, command).Some? && Search(Call, command).Some?
    requires var g := Search(Call, command).value.group2.GetOr(""); AllDigits(g) && DigitsValue(g) <= U16Max
    ensures ParseAsWritten(command, fileName, Some(functionName), ret)
      == Done(Some(FunctionalCommand(fileName, functionName, None, ret, 0, Return)))
    ensures Parse(command, fileName, Some(functionName), ret).Done?
    ensures Parse(command, fileName, Some(functionName), ret).value.Some?
    ensures Parse(command, fileName, Some(functionName), ret).value.value.commandType == Call
  {
    ParseUnfold(command, fileName, Some(functionName), ret);
    SearchCaptures(Return, command);
    SearchCaptures(Call, command);
    TrySpec(command, fileName, Some(functionName), ret, Call, Try(command, fileName, Some(functionName), ret, Return, Done(None)));
  }

  /** `call Main.returnZero 0` is such a line: as written it is read as
      `return`, with `call` tried first it calls `Main.returnZero`. */
  lemma CallOfReturnZero(s: string, fileName: string, functionName: string, ret: nat)
    requires s == "call Main.returnZero 0"
    ensures ParseAsWritten(s, fileName, Some(functionName), ret)
      == Done(Some(FunctionalCommand(fileName, functionName, None, ret, 0, Return)))
    ensures Parse(s, fileName, Some(functionName), ret).Done?
    ensures Parse(s, fileName, Some(functionName), ret).value.Some?
    ensures Parse(s, fileName, Some(functionName), ret).value.value.commandType == Call
  {
    NoFunctionIn(s);
    ReturnIn(s);
    CallAtStart(s);
    assert s[21..22] == "0";
    ReturnShadowsCall(s, fileName, functionName, ret);
  }

  lemma NoFunctionIn(s: string)
    requires s == "call Main.returnZero 0"
    ensures Search(Function, s).None?
  {
    assert 'f' !in s;
    AbsentInitial(NameAndCount("function"), s);
  }

  lemma ReturnIn(s: string)
    requires s == "call Main.returnZero 0"
    ensures Search(Return, s).Some?
  {
    assert OccursAt(s, "return", 10);
    assert RegexMatchesAt(Literal("return"), s, 10);
    FindSpec(Literal("return"), s);
  }

  lemma CallAtStart(s: string)
    requires s == "call Main.returnZero 0"
    ensures Search(Call, s) == Some(Captures(Some(s[5..20]), Some(s[21..22])))
  {
    assert OccursAt(s, "call", 0);
    RunEndExact(s, 4, 5, Space);
    RunEndExact(s, 5, 20, Name);
    RunEndExact(s, 20, 21, Space);
    RunEndExact(s, 21, 22, Digit);
    assert MatchAt(NameAndCount("call"), s, 0) == Some(Captures(Some(s[5..20]), Some(s[21..22])));
    assert LeftmostFrom(NameAndCount("call"), s, 0) == Some(0);
  }

  // ---- code generation ----

  /** One local variable, pushed as 0. */
  const ZeroPush: seq<string> := ["@SP", "M=M+1", "A=M-1", "M=0"]

  /** The code of `function name k`: the entry label, then `k` zero pushes. */
  function FunctionCode(name: string, k: nat): seq<string>
    decreases k
  {
    if k == 0 then [LabelLine(name)] else FunctionCode(name, k - 1) + ZeroPush
  }

  /** `generate_function_command` */
  method GenerateFunctionCommand(f: FunctionalCommand) returns (result: seq<string>)
    requires f.callingFunction.Some?
    ensures result == FunctionCode(f.callingFunction.value, f.arg)
  {
    result := [LabelLine(f.callingFunction.value)];
    for n := 0 to f.arg
      invariant result == FunctionCode(f.callingFunction.value, n)
    {
      result := result + ["@SP", "M=M+1", "A=M-1", "M=0"];
    }
  }

  /** The entry label comes first, then `k` zero pushes fill the local
      segment, one cell each: SP moves up by exactly `k`. */
  lemma {:induction false} FunctionCodeShape(name: string, k: nat)
    ensures var code := FunctionCode(name, k);
      && |code| == 1 + 4 * k && code[0] == LabelLine(name)
      && (forall i :: 1 <= i < |code| ==> code[i] == ZeroPush[(i - 1) % 4])
      && CountMoves(code, Increment) == k && CountMoves(code, Decrement) == 0
    decreases k
  {
    if k == 0 {
      SymbolLinesDoNotMove(name);
      QuietMoves([LabelLine(name)]);
    } else {
      FunctionCodeShape(name, k - 1);
      var prev := FunctionCode(name, k - 1);
      var code := prev + ZeroPush;
      assert code == FunctionCode(name, k);
      forall i | 1 <= i < |code|
        ensures code[i] == ZeroPush[(i - 1) % 4]
      {
        if i >= |prev| {
          assert code[i] == ZeroPush[i - |prev|];
        }
      }
      assert CountMoves(ZeroPush, Increment) == 1 && CountMoves(ZeroPush, Decrement) == 0;
      MovesConcat(prev, ZeroPush);
    }
  }

  /** The label a call returns to: the enclosing function, `$ret.`, and the
      number of calls made so far in that function. */
  function ReturnLabel(functionName: string, ret: nat): string {
    functionName + "$ret." + NatToString(ret)
  }

  /** Push the value of a register. */
  function PushRegister(register: string): seq<string> {
    [At(register), "D=M"] + PushD
  }

  /** Push the return address. */
  function PushAddress(address: string): seq<string> {
    [At(address), "D=A"] + PushD
  }

  /** The saved frame of the caller, in the order it is pushed. */
  const SavedRegisters: seq<string> := ["LCL", "ARG", "THIS", "THAT"]

  /** `ARG = SP - (5 + n)` and `LCL = SP`. */
  function Reposition(narg: nat): seq<string> {
    [At(NatToString(narg)), "D=A", "@SP", "D=M-D", "@ARG", "M=D", "@SP", "D=M", "@LCL", "M=D"]
  }

  /** `generate_call_command`, for a count whose `5 + arg` fits a `u16`. */
  function CallCode(f: FunctionalCommand): seq<string>
    requires f.callingFunction.Some?
  {
    var returnLabel := ReturnLabel(f.functionName, f.ret);
    PushAddress(returnLabel)
    + SaveFrame()
    + Reposition(5 + f.arg)
    + CallTail(f.callingFunction.value, returnLabel)
  }

  /** Jump to the callee; the return lands on the label after the jump. */
  function CallTail(callee: string, returnLabel: string): seq<string> {
    [At(callee), "0;JMP", LabelLine(returnLabel)]
  }

  /** Read the frame cell `offset` below LCL into `destination`. */
  function FrameRead(offset: string, destination: string): seq<string> {
    [At(offset), "D=A", "@LCL", "A=M-D", "D=M", At(destination), "M=D"]
  }

  /** Save the return address, LCL - 5, in R13. */
  const SaveReturnAddress: seq<string> := FrameRead("5", "13")

  /** Copy the return value, the top of the stack, to ARG 0. */
  const MoveReturnValue: seq<string> := TopA + ["D=M", "@ARG", "A=M", "M=D"]

  /** SP = ARG + 1, just above the return value. */
  const RestoreSp: seq<string> := ["@ARG", "D=M+1", "@SP", "M=D"]

  /** Jump to the return address saved in R13. */
  const JumpBack: seq<string> := ["@13", "A=M", "0;JMP"]

  /** `generate_return_command`: the same 48 lines for every `return`. */
  const ReturnCode: seq<string> :=
    SaveReturnAddress + MoveReturnValue + RestoreSp + RestoreFrame + JumpBack

  /** Restore THAT, THIS, ARG and LCL from LCL - 1 … LCL - 4; LCL last,
      since the others are read through it. */
  const RestoreFrame: seq<string> :=
    FrameRead("1", "THAT") + FrameRead("2", "THIS") + FrameRead("3", "ARG") + FrameRead("4", "LCL")

  /** `generate` for a function command; `5 + arg` is computed in `u16`
      and overflows, in a debug build, past 65530. */
  function Code(f: FunctionalCommand): Outcome<seq<string>>
    requires Valid(f)
  {
    match f.commandType
    case Function => Done(FunctionCode(f.callingFunction.value, f.arg))
    case Return => Done(ReturnCode)
    case Call => if 5 + f.arg > U16Max then Panic(AddOverflow) else Done(CallCode(f))
  }

  /** `generate` for a function command, with its loop. */
  method Generate(f: FunctionalCommand) returns (r: Outcome<seq<string>>)
    requires Valid(f)
    ensures r == Code(f)
  {
    match f.commandType
    case Function =>
      var code := GenerateFunctionCommand(f);
      r := Done(code);
    case Return =>
      r := Done(ReturnCode);
    case Call =>
      if 5 + f.arg > U16Max {
        r := Panic(AddOverflow);
      } else {
        r := Done(CallCode(f));
      }
  }

  lemma PushBlockMoves(symbol: string)
    ensures CountMoves(PushRegister(symbol), Increment) == 1 && CountMoves(PushRegister(symbol), Decrement) == 0
    ensures CountMoves(PushAddress(symbol), Increment) == 1 && CountMoves(PushAddress(symbol), Decrement) == 0
  {
    SymbolLinesDoNotMove(symbol);
    QuietMoves([At(symbol), "D=M"]);
    QuietMoves([At(symbol), "D=A"]);
    BlockMoves();
    MovesConcat([At(symbol), "D=M"], PushD);
    MovesConcat([At(symbol), "D=A"], PushD);
  }

  /** A call pushes five cells (the return address and the four saved
      registers, in that order), jumps to the callee and declares the
      return label last. */
  lemma CallCodeShape(f: FunctionalCommand)
    requires f.callingFunction.Some?
    ensures var code := CallCode(f);
      && |code| == 43
      && code[0] == At(ReturnLabel(f.functionName, f.ret)) && code[1] == "D=A"
      && (forall j :: 0 <= j < 4 ==> code[6 + 6 * j] == At(SavedRegisters[j]) && code[7 + 6 * j] == "D=M")
      && (forall j :: 0 <= j < 5 ==> code[2 + 6 * j..6 + 6 * j] == PushD)
      && code[30..40] == Reposition(5 + f.arg)
      && code[40] == At(f.callingFunction.value) && code[41] == "0;JMP"
      && code[42] == LabelLine(ReturnLabel(f.functionName, f.ret))
  {
    var returnLabel := ReturnLabel(f.functionName, f.ret);
    var code := CallCode(f);
    var head := PushAddress(returnLabel) + SaveFrame();
    assert code == head + (Reposition(5 + f.arg) + CallTail(f.callingFunction.value, returnLabel));
    SaveFrameShape();
    assert |head| == 30 && code[..30] == head;
    forall j | 0 <= j < 5
      ensures code[2 + 6 * j..6 + 6 * j] == PushD
    {
      assert code[2 + 6 * j..6 + 6 * j] == head[2 + 6 * j..6 + 6 * j];
      if j > 0 {
        assert head[2 + 6 * j..6 + 6 * j] == SaveFrame()[6 * (j - 1) + 2..6 * (j - 1) + 6];
      }
    }
  }

  /** The saved frame is four pushes of a register, in `SavedRegisters` order. */
  lemma SaveFrameShape()
    ensures |SaveFrame()| == 24
    ensures forall j :: 0 <= j < 4 ==> SaveFrame()[6 * j + 2..6 * j + 6] == PushD
  {
    var a := PushRegister("LCL") + PushRegister("ARG");
    var b := a + PushRegister("THIS");
    assert SaveFrame() == b + PushRegister("THAT");
    assert SaveFrame()[..18] == b && b[..12] == a && a[..6] == PushRegister("LCL");
  }

  /** A call moves SP up by exactly five cells. */
  lemma CallCodeMoves(f: FunctionalCommand)
    requires f.callingFunction.Some?
    ensures CountMoves(CallCode(f), Increment) == 5 && CountMoves(CallCode(f), Decrement) == 0
  {
    CallPiecesMoves(ReturnLabel(f.functionName, f.ret), 5 + f.arg, f.callingFunction.value);
  }

  /** The pieces of a call: five pushes, then no move. */
  lemma CallPiecesMoves(returnLabel: string, narg: nat, callee: string)
    ensures var code := PushAddress(returnLabel) + SaveFrame() + Reposition(narg) + CallTail(callee, returnLabel);
      CountMoves(code, Increment) == 5 && CountMoves(code, Decrement) == 0
  {
    PushBlockMoves(returnLabel);
    SaveFrameMoves();
    RepositionMoves(narg);
    CallTailMoves(callee, returnLabel);
    MovesConcat4(PushAddress(returnLabel), SaveFrame(), Reposition(narg), CallTail(callee, returnLabel));
  }

  lemma RepositionMoves(narg: nat)
    ensures Detached(Reposition(narg))
    ensures CountMoves(Reposition(narg), Increment) == 0 && CountMoves(Reposition(narg), Decrement) == 0
  {
    SymbolLinesDoNotMove(NatToString(narg));
    QuietMoves(Reposition(narg));
  }

  lemma CallTailMoves(callee: string, returnLabel: string)
    ensures Detached(CallTail(callee, returnLabel))
    ensures CountMoves(CallTail(callee, returnLabel), Increment) == 0
    ensures CountMoves(CallTail(callee, returnLabel), Decrement) == 0
  {
    SymbolLinesDoNotMove(callee);
    SymbolLinesDoNotMove(returnLabel);
    QuietMoves(CallTail(callee, returnLabel));
  }

  /** The caller's frame: LCL, ARG, THIS and THAT pushed in that order. */
  function SaveFrame(): seq<string> {
    PushRegister("LCL") + PushRegister("ARG") + PushRegister("THIS") + PushRegister("THAT")
  }

  lemma SaveFrameMoves()
    ensures CountMoves(SaveFrame(), Increment) == 4 && CountMoves(SaveFrame(), Decrement) == 0
    ensures Detached(SaveFrame())
  {
    var a := PushRegister("LCL") + PushRegister("ARG");
    var b := a + PushRegister("THIS");
    PushBlockMoves("LCL");
    PushBlockMoves("ARG");
    PushBlockMoves("THIS");
    PushBlockMoves("THAT");
    SymbolLinesDoNotMove("ARG");
    SymbolLinesDoNotMove("THIS");
    SymbolLinesDoNotMove("THAT");
    SymbolLinesDoNotMove("LCL");
    MovesConcat(PushRegister("LCL"), PushRegister("ARG"));
    MovesConcat(a, PushRegister("THIS"));
    MovesConcat(b, PushRegister("THAT"));
  }

  /** A return first saves the return address (LCL - 5) in R13, moves the
      return value to ARG 0 and sets SP to ARG + 1, then restores THAT,
      THIS, ARG and LCL from LCL - 1 … LCL - 4 (LCL last, since the others
      are read through it), and jumps through R13. */
  lemma ReturnCodeShape()
    ensures |ReturnCode| == 48
    ensures ReturnCode[..7] == FrameRead("5", "13")
    ensures ReturnCode[7..13] == TopA + ["D=M", "@ARG", "A=M", "M=D"]
    ensures ReturnCode[13..17] == ["@ARG", "D=M+1", "@SP", "M=D"]
    ensures ReturnCode[17..24] == FrameRead("1", "THAT")
    ensures ReturnCode[24..31] == FrameRead("2", "THIS")
    ensures ReturnCode[31..38] == FrameRead("3", "ARG")
    ensures ReturnCode[38..45] == FrameRead("4", "LCL")
    ensures ReturnCode[45..] == ["@13", "A=M", "0;JMP"]
  {
    var prologue := SaveReturnAddress + MoveReturnValue + RestoreSp;
    var frame := RestoreFrame;
    assert |prologue| == 17 && |frame| == 28;
    assert ReturnCode == prologue + frame + JumpBack;
    assert ReturnCode[..17] == prologue && ReturnCode[17..45] == frame && ReturnCode[45..] == JumpBack;
    PrologueSlices(ReturnCode[..17]);
    FrameSlices(ReturnCode[17..45]);
  }

  lemma PrologueSlices(code: seq<string>)
    requires code == SaveReturnAddress + MoveReturnValue + RestoreSp
    ensures code[..7] == FrameRead("5", "13")
    ensures code[7..13] == TopA + ["D=M", "@ARG", "A=M", "M=D"]
    ensures code[13..17] == ["@ARG", "D=M+1", "@SP", "M=D"]
  {
    assert code[..13] == SaveReturnAddress + MoveReturnValue;
  }

  lemma FrameSlices(code: seq<string>)
    requires code == RestoreFrame
    ensures code[..7] == FrameRead("1", "THAT")
    ensures code[7..14] == FrameRead("2", "THIS")
    ensures code[14..21] == FrameRead("3", "ARG")
    ensures code[21..28] == FrameRead("4", "LCL")
  {
    var a := FrameRead("1", "THAT") + FrameRead("2", "THIS");
    var b := a + FrameRead("3", "ARG");
    assert code == b + FrameRead("4", "LCL");
    assert code[..21] == b;
    assert b[..14] == a;
  }

  /** A return moves SP only by assigning it. */
  lemma ReturnCodeMoves()
    ensures CountMoves(ReturnCode, Increment) == 0 && CountMoves(ReturnCode, Decrement) == 0
    ensures AssignsSp(ReturnCode)
  {
    assert ReturnCode[15] == "@SP" && ReturnCode[16] == "M=D";
    var a := SaveReturnAddress + MoveReturnValue + RestoreSp;
    PrologueMoves();
    RestoreFrameMoves();
    JumpBackMoves();
    MovesConcat(a, RestoreFrame);
    MovesConcat(a + RestoreFrame, JumpBack);
  }

  lemma PrologueMoves()
    ensures CountMoves(SaveReturnAddress + MoveReturnValue + RestoreSp, Increment) == 0
    ensures CountMoves(SaveReturnAddress + MoveReturnValue + RestoreSp, Decrement) == 0
  {
    FrameReadQuiet("5", "13");
    QuietMoves(MoveReturnValue);
    QuietMoves(RestoreSp);
    MovesConcat(SaveReturnAddress, MoveReturnValue);
    MovesConcat(SaveReturnAddress + MoveReturnValue, RestoreSp);
  }

  lemma JumpBackMoves()
    ensures Detached(JumpBack)
    ensures CountMoves(JumpBack, Increment) == 0 && CountMoves(JumpBack, Decrement) == 0
  {
    QuietMoves(JumpBack);
  }

  lemma RestoreFrameMoves()
    ensures Detached(RestoreFrame)
    ensures CountMoves(RestoreFrame, Increment) == 0 && CountMoves(RestoreFrame, Decrement) == 0
  {
    var a := FrameRead("1", "THAT") + FrameRead("2", "THIS");
    var b := a + FrameRead("3", "ARG");
    FrameReadQuiet("1", "THAT");
    FrameReadQuiet("2", "THIS");
    FrameReadQuiet("3", "ARG");
    FrameReadQuiet("4", "LCL");
    MovesConcat(FrameRead("1", "THAT"), FrameRead("2", "THIS"));
    MovesConcat(a, FrameRead("3", "ARG"));
    MovesConcat(b, FrameRead("4", "LCL"));
  }

  lemma FrameReadQuiet(offset: string, destination: string)
    ensures Detached(FrameRead(offset, destination))
    ensures CountMoves(FrameRead(offset, destination), Increment) == 0
    ensures CountMoves(FrameRead(offset, destination), Decrement) == 0
  {
    SymbolLinesDoNotMove(offset);
    SymbolLinesDoNotMove(destination);
    QuietMoves(FrameRead(offset, destination));
  }

  /** Different calls get different return labels: the enclosing function
      and the call number are recovered from the label. */
  lemma ReturnLabelInjective(f1: string, r1: nat, f2: string, r2: nat)
    requires '$' !in f1 && '$' !in f2
    requires ReturnLabel(f1, r1) == ReturnLabel(f2, r2)
    ensures f1 == f2 && r1 == r2
  {
    assert ReturnLabel(f1, r1) == f1 + "$" + ("ret." + NatToString(r1));
    assert ReturnLabel(f2, r2) == f2 + "$" + ("ret." + NatToString(r2));
    DollarSplit(f1, "ret." + NatToString(r1), f2, "ret." + NatToString(r2));
    assert NatToString(r1) == ("ret." + NatToString(r1))[4..];
    assert NatToString(r2) == ("ret." + NatToString(r2))[4..];
    NatToStringInjective(r1, r2);
  }
}
