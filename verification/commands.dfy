/** The dispatcher of `src/commands.rs`: one cleaned line is offered to the
    constructor of each command family in turn, and the first that accepts
    it decides. The four `Box<dyn Command>` families become one closed
    datatype. */
module Commands {
  import opened Wrappers
  import opened Hack
  import Patterns
  import Text
  import Arithmetic
  import MemoryAccess
  import Branching
  import Functional

  datatype Command =
    | ArithmeticCommand(op: Arithmetic.ArithmeticType)
    | MemoryAccessCommand(memory: MemoryAccess.MemoryAccessCommand)
    | BranchingCommand(branching: Branching.BranchingCommand)
    | FunctionalCommand(functional: Functional.FunctionalCommand)

  /** What the constructors guarantee of the commands they build, and what
      the generators rely on. */
  predicate Valid(cmd: Command) {
    match cmd
    case MemoryAccessCommand(m) => MemoryAccess.Valid(m)
    case FunctionalCommand(f) => Functional.Valid(f)
    case _ => true
  }

  /** The body of `CommandType::new` as written: arithmetic, then memory
      access, then branching, and no `function`/`call`/`return` family at
      all. The memory constructor is the one as written, which panics on
      every line its pattern accepts. The crate as given does not build
      (its one caller passes a fourth argument, `ret`), so this is the body
      read on its own. */
  function DispatchAsWritten(command: string, fileName: string, functionName: Option<string>)
    : Outcome<Option<Command>>
  {
    match Arithmetic.Parse(command)
    case Some(op) => Done(Some(ArithmeticCommand(op)))
    case None =>
      match MemoryAccess.ParseAsWritten(command, fileName)
      case Panic(msg) => Panic(msg)
      case Done(Some(m)) => Done(Some(MemoryAccessCommand(m)))
      case Done(None) =>
        match Branching.Parse(command, fileName, functionName)
        case Some(b) => Done(Some(BranchingCommand(b)))
        case None => Done(None)
  }

  /** `CommandType::new` as the parser calls it, with the enclosing
      function's call counter `ret`: the corrected memory constructor, and a
      fourth branch, tried last, for `function`, `call` and `return`. */
  function Dispatch(command: string, fileName: string, functionName: Option<string>, ret: nat)
    : Outcome<Option<Command>>
  {
    match Arithmetic.Parse(command)
    case Some(op) => Done(Some(ArithmeticCommand(op)))
    case None =>
      match MemoryAccess.Parse(command, fileName)
      case Some(m) => Done(Some(MemoryAccessCommand(m)))
      case None =>
        match Branching.Parse(command, fileName, functionName)
        case Some(b) => Done(Some(BranchingCommand(b)))
        case None =>
          // the functional branch the dispatcher as written lacks
          match Functional.Parse(command, fileName, functionName, ret)
          case Panic(msg) => Panic(msg)
          case Done(None) => Done(None)
          case Done(Some(f)) => Done(Some(FunctionalCommand(f)))
  }

  /** `Command::generate`, for every family. */
  function Generate(cmd: Command): Outcome<seq<string>>
    requires Valid(cmd)
  {
    match cmd
    case ArithmeticCommand(op) => Done(Arithmetic.Generate(op))
    case MemoryAccessCommand(m) => MemoryAccess.Generate(m)
    case BranchingCommand(b) => Done(Branching.Generate(b))
    case FunctionalCommand(f) => Functional.Code(f)
  }

  /** Every command the dispatcher builds can be generated. */
  lemma DispatchValid(command: string, fileName: string, functionName: Option<string>, ret: nat)
    ensures var r := Dispatch(command, fileName, functionName, ret);
      r.Done? && r.value.Some? ==> Valid(r.value.value)
  {
    if Arithmetic.Parse(command).None? && MemoryAccess.Parse(command, fileName).Some? {
      MemoryAccess.ParseSound(command, fileName);
    }
    Functional.ParseSpec(command, fileName, functionName, ret);
  }

  /** Each of the nine keywords is dispatched as its arithmetic command, and
      only those lines are. */
  lemma ArithmeticFirst(command: string, fileName: string, functionName: Option<string>, ret: nat,
                        op: Arithmetic.ArithmeticType)
    ensures Dispatch(command, fileName, functionName, ret) == Done(Some(ArithmeticCommand(op)))
      <==> command == Arithmetic.Keyword(op)
    ensures DispatchAsWritten(command, fileName, functionName) == Done(Some(ArithmeticCommand(op)))
      <==> command == Arithmetic.Keyword(op)
  {
    Arithmetic.ParseIffKeyword(command, op);
  }

  /** A line is a memory-access command exactly when it spells a valid one
      in the file being translated; no keyword line spells one. */
  lemma MemoryAccessDispatch(command: string, fileName: string, functionName: Option<string>, ret: nat,
                             m: MemoryAccess.MemoryAccessCommand)
    ensures Dispatch(command, fileName, functionName, ret) == Done(Some(MemoryAccessCommand(m)))
      <==> MemoryAccess.Parse(command, fileName) == Some(m)
    ensures Dispatch(command, fileName, functionName, ret) == Done(Some(MemoryAccessCommand(m)))
      <==> (m.fileName == fileName && MemoryAccess.Valid(m)
            && exists w1, w2, digits :: MemoryAccess.Spells(command, m, w1, w2, digits))
  {
    MemoryAccess.ParseSpec(command, fileName, m);
    if MemoryAccess.Parse(command, fileName) == Some(m) {
      KeywordsAreNotMemoryCommands(command, fileName);
    }
  }

  /** The nine keywords are too short to be memory-access commands. */
  lemma KeywordsAreNotMemoryCommands(command: string, fileName: string)
    requires MemoryAccess.Parse(command, fileName).Some?
    ensures Arithmetic.Parse(command).None?
  {
    assert Patterns.MatchMemory(command).Some?;
    var a := Patterns.OperationEnd(command);
    var b := Patterns.RunEnd(command, a, Patterns.Space);
    var c := Patterns.RunEnd(command, b, Patterns.Token);
    var d := Patterns.RunEnd(command, c, Patterns.Space);
    assert 3 <= a < b <= c < d < |command|;
  }

  /** A line is a branching command exactly when it is neither a keyword
      nor a memory-access command and the branching constructor accepts it;
      the enclosing function is passed on unchanged. */
  lemma BranchingDispatch(command: string, fileName: string, functionName: Option<string>, ret: nat,
                          b: Branching.BranchingCommand)
    ensures Dispatch(command, fileName, functionName, ret) == Done(Some(BranchingCommand(b)))
      <==> && Arithmetic.Parse(command).None? && MemoryAccess.Parse(command, fileName).None?
           && Branching.Parse(command, fileName, functionName) == Some(b)
    ensures Dispatch(command, fileName, functionName, ret) == Done(Some(BranchingCommand(b)))
      ==> b.fileName == fileName && b.functionName == functionName
  {
    Branching.ParseSpec(command, fileName, functionName);
  }

  /** A line is a function command exactly when no earlier family takes it
      and the functional constructor builds that command; the command then
      carries the file, the enclosing function and the call counter, and
      the type, name and count of the first functional pattern found. */
  lemma FunctionalDispatch(command: string, fileName: string, functionName: Option<string>, ret: nat,
                           f: Functional.FunctionalCommand)
    ensures Dispatch(command, fileName, functionName, ret) == Done(Some(FunctionalCommand(f)))
      <==> && Arithmetic.Parse(command).None? && MemoryAccess.Parse(command, fileName).None?
           && Branching.Parse(command, fileName, functionName).None?
           && Functional.Parse(command, fileName, functionName, ret) == Done(Some(f))
    ensures Dispatch(command, fileName, functionName, ret) == Done(Some(FunctionalCommand(f))) ==>
      && f.fileName == fileName && Some(f.functionName) == functionName && f.ret == ret
      && Functional.FirstFound(command) == Some(f.commandType)
      && f.callingFunction == Functional.Search(f.commandType, command).value.group1
      && f.arg == Functional.CapturedCount(Functional.Search(f.commandType, command).value)
  {
    Functional.ParseSpec(command, fileName, functionName, ret);
  }

  /** The dispatcher rejects a line, or panics, only when every family's
      constructor has given up on it; only the functional constructor
      panics. */
  lemma DispatchRejects(command: string, fileName: string, functionName: Option<string>, ret: nat)
    ensures Dispatch(command, fileName, functionName, ret) == Done(None) <==>
      && Arithmetic.Parse(command).None? && MemoryAccess.Parse(command, fileName).None?
      && Branching.Parse(command, fileName, functionName).None?
      && Functional.Parse(command, fileName, functionName, ret) == Done(None)
    ensures Dispatch(command, fileName, functionName, ret).Panic? <==>
      && Arithmetic.Parse(command).None? && MemoryAccess.Parse(command, fileName).None?
      && Branching.Parse(command, fileName, functionName).None?
      && Functional.Parse(command, fileName, functionName, ret).Panic?
    ensures Dispatch(command, fileName, functionName, ret).Panic? ==>
      Dispatch(command, fileName, functionName, ret).message
        == Functional.Parse(command, fileName, functionName, ret).message
  {
  }

  /** Off the memory-access lines, the dispatcher as written gives what the
      corrected one gives, except that it never recognises a function
      command: where the functional branch would decide, it rejects the
      line. On a line the memory-access pattern accepts it panics. */
  lemma AsWrittenAgainstDispatch(command: string, fileName: string, functionName: Option<string>, ret: nat)
    ensures Patterns.MatchMemory(command).Some? && Arithmetic.Parse(command).None? ==>
      DispatchAsWritten(command, fileName, functionName) == Panic(MemoryAccess.Unreachable)
    ensures Patterns.MatchMemory(command).None? ==>
      var r := Dispatch(command, fileName, functionName, ret);
      DispatchAsWritten(command, fileName, functionName)
        == if r.Panic? || (r.value.Some? && r.value.value.FunctionalCommand?) then Done(None) else r
  {
    MemoryAccess.ParseAsWrittenPanics(command, fileName);
  }

  /** A bare `return` inside a function: the body of `new` as written finds
      no family for it, the corrected dispatcher returns. (The crate as
      given does not build: `advance` passes four arguments to the
      three-parameter `new`, and no module declares `functional`; so this
      compares the body of `new` alone with its corrected version.) */
  lemma ReturnIsNeverDispatched(command: string, fileName: string, functionName: string, ret: nat)
    requires command == "return"
    ensures DispatchAsWritten(command, fileName, Some(functionName)) == Done(None)
    ensures Dispatch(command, fileName, Some(functionName), ret)
      == Done(Some(FunctionalCommand(Functional.FunctionalCommand(fileName, functionName, None, ret, 0, Functional.Return))))
  {
    ReturnIsNoMemoryAccess(command);
    ReturnIsNoBranching(command, fileName, Some(functionName));
    ReturnIsFunctional(command, fileName, functionName, ret);
  }

  lemma ReturnIsNoMemoryAccess(command: string)
    requires command == "return"
    ensures Arithmetic.Parse(command).None? && Patterns.MatchMemory(command).None?
  {
    assert command[0] == 'r';
    assert Patterns.OperationEnd(command) == 0;
  }

  lemma ReturnIsNoBranching(command: string, fileName: string, functionName: Option<string>)
    requires command == "return"
    ensures Branching.Parse(command, fileName, functionName).None?
  {
    assert 'i' !in command && 'g' !in command && 'l' !in command;
    Patterns.AbsentInitial(Patterns.WordAfter("if-goto"), command);
    Patterns.AbsentInitial(Patterns.WordAfter("goto"), command);
    Patterns.AbsentInitial(Patterns.WordAfter("label"), command);
    Branching.ParseResult(command, fileName, functionName);
  }

  lemma ReturnIsFunctional(command: string, fileName: string, functionName: string, ret: nat)
    requires command == "return"
    ensures Functional.Parse(command, fileName, Some(functionName), ret)
      == Done(Some(Functional.FunctionalCommand(fileName, functionName, None, ret, 0, Functional.Return)))
  {
    assert 'f' !in command && 'c' !in command;
    Patterns.AbsentInitial(Patterns.NameAndCount("function"), command);
    Patterns.AbsentInitial(Patterns.NameAndCount("call"), command);
    var m := Patterns.MatchAt(Patterns.Literal("return"), command, 0);
    assert m.Some? && Patterns.LeftmostFrom(Patterns.Literal("return"), command, 0) == Some(0);
    assert Functional.Search(Functional.Return, command) == m;
    Functional.SearchCaptures(Functional.Return, command);
    Functional.ParseUnfold(command, fileName, Some(functionName), ret);
  }

  /** The branching patterns are searched anywhere in the line and tried
      before the functional family, so a call whose callee's name holds
      `goto` is dispatched as a `goto`: `call Main.goto 2` jumps to label 2. */
  lemma CallOfGotoIsGoto(s: string, fileName: string, functionName: Option<string>, ret: nat)
    requires s == "call Main.goto 2"
    ensures Dispatch(s, fileName, functionName, ret)
      == Done(Some(BranchingCommand(Branching.BranchingCommand("2", fileName, functionName, Branching.Goto))))
  {
    assert s[0] == 'c' && |s| == 16;
    assert Arithmetic.Parse(s).None?;
    assert Patterns.OperationEnd(s) == 0;
    assert 'f' !in s;
    Patterns.AbsentLetter(Patterns.WordAfter("if-goto"), s, 1);
    GotoFoundInCall(s);
    Branching.ParseResult(s, fileName, functionName);
  }

  lemma GotoFoundInCall(s: string)
    requires s == "call Main.goto 2"
    ensures Branching.Search(Branching.Goto, s) == Some(Patterns.Captures(Some("2"), None))
  {
    var p := Patterns.WordAfter("goto");
    assert s[10..14] == "goto";
    Patterns.RunEndExact(s, 14, 15, Patterns.Space);
    Patterns.RunEndExact(s, 15, 16, Patterns.Word);
    assert s[15..16] == "2";
    assert Patterns.MatchAt(p, s, 10) == Some(Patterns.Captures(Some("2"), None));
    forall k: nat | k < 10
      ensures !Text.OccursAt(s, "goto", k)
    {
      assert s[k] != 'g';
      if k + 4 <= |s| {
        assert s[k..k + 4][0] == s[k];
      }
    }
    Patterns.FindAt(p, s, 10);
  }

  /** Code generation fails only on the two additions that overflow: a
      `temp` index past 32762 and a `call` with more than 65530 arguments. */
  lemma GeneratePanics(cmd: Command)
    requires Valid(cmd)
    ensures Generate(cmd).Panic? <==>
      || (cmd.MemoryAccessCommand? && cmd.memory.segment == MemoryAccess.Temp
          && cmd.memory.i > MemoryAccess.I16Max - 5)
      || (cmd.FunctionalCommand? && cmd.functional.commandType == Functional.Call
          && cmd.functional.arg > Functional.U16Max - 5)
  {
    if cmd.MemoryAccessCommand? {
      MemoryAccess.GeneratePanics(cmd.memory);
    }
  }

  /** The net number of cells each command pushes, or `None` for `return`,
      which assigns SP outright. */
  function StackEffect(cmd: Command): Option<int> {
    match cmd
    case ArithmeticCommand(op) => Some(if op.IsUnary() then 0 else -1 as int)
    case MemoryAccessCommand(m) => Some(if m.commandType == MemoryAccess.Push then 1 else -1 as int)
    case BranchingCommand(b) => Some(if b.commandType == Branching.IfGoto then -1 as int else 0)
    case FunctionalCommand(f) =>
      match f.commandType
      case Function => Some(f.arg)
      case Call => Some(5)
      case Return => None
  }

  /** The generated code moves SP by the command's stack effect; a return
      instead sets SP from D. */
  lemma GenerateStackEffect(cmd: Command)
    requires Valid(cmd) && Generate(cmd).Done?
    ensures var code := Generate(cmd).value;
      && (StackEffect(cmd).Some? ==> SpDelta(code) == StackEffect(cmd).value)
      && (StackEffect(cmd).None? ==> AssignsSp(code) && SpDelta(code) == 0)
  {
    match cmd
    case ArithmeticCommand(op) => Arithmetic.GenerateStackEffect(op);
    case MemoryAccessCommand(m) =>
      if m.commandType == MemoryAccess.Push {
        MemoryAccess.PushMoves(m);
      } else {
        MemoryAccess.PopMoves(m);
      }
    case BranchingCommand(b) => Branching.GenerateMoves(b);
    case FunctionalCommand(f) =>
      match f.commandType
      case Function => Functional.FunctionCodeShape(f.callingFunction.value, f.arg);
      case Call => Functional.CallCodeMoves(f);
      case Return => Functional.ReturnCodeMoves();
  }
}
