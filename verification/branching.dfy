/** `label`, `goto` and `if-goto` (`src/commands/branching.rs`). */
module Branching {
  import opened Wrappers
  import opened Text
  import opened Patterns
  import opened Hack

  datatype BranchingCommandType = IfGoto | Goto | Label

  /** A parsed branching command; `functionName` is the function the line
      appears in, if any. */
  datatype BranchingCommand = BranchingCommand(
    labelName: string,
    fileName: string,
    functionName: Option<string>,
    commandType: BranchingCommandType)

  function Keyword(t: BranchingCommandType): string {
    match t
    case IfGoto => "if-goto"
    case Goto => "goto"
    case Label => "label"
  }

  /** The order `new` tries the patterns in. */
  const PatternOrder: seq<BranchingCommandType> := [IfGoto, Goto, Label]

  /** The loop of `new` over the remaining patterns `types`: the first
      pattern found in the line, with its captured label, decides. */
  function ParseFrom(command: string, fileName: string, functionName: Option<string>, types: seq<BranchingCommandType>)
    : Option<BranchingCommand>
    decreases |types|
  {
    if types == [] then None
    else Try(command, fileName, functionName, types[0], ParseFrom(command, fileName, functionName, types[1..]))
  }

  /** One iteration of that loop: the command of type `t` when its pattern
      is found with a label, otherwise what the later patterns give. */
  function Try(command: string, fileName: string, functionName: Option<string>, t: BranchingCommandType,
               later: Option<BranchingCommand>): Option<BranchingCommand>
  {
    match Search(t, command)
    case Some(Captures(Some(name), _)) => Some(BranchingCommand(name, fileName, functionName, t))
    case _ => later
  }

  /** `BranchingCommand::new` */
  function Parse(command: string, fileName: string, functionName: Option<string>): Option<BranchingCommand> {
    ParseFrom(command, fileName, functionName, PatternOrder)
  }

  /** The pattern of `t` is searched anywhere in the line. */
  function Search(t: BranchingCommandType, command: string): Option<Captures> {
    Find(WordAfter(Keyword(t)), command)
  }

  /** Every line an `if-goto` pattern matches is matched by the `goto`
      pattern too, so the `if-goto` pattern has to be tried first. */
  lemma IfGotoMatchesGoto(command: string)
    requires Search(IfGoto, command).Some?
    ensures Search(Goto, command).Some?
  {
    assert "if-" + "goto" == "if-goto";
    SuffixKeywordMatches("if-", "goto", command);
  }

  /** A line is a branching command exactly when the `goto` or the `label`
      pattern occurs in it; the first pattern in `PatternOrder` found in it
      decides the type, and its capture is the label, a word. */
  lemma ParseSpec(command: string, fileName: string, functionName: Option<string>)
    ensures Parse(command, fileName, functionName).Some? <==>
      Search(Goto, command).Some? || Search(Label, command).Some?
    ensures Parse(command, fileName, functionName).Some? ==>
      var b := Parse(command, fileName, functionName).value;
      && b.fileName == fileName && b.functionName == functionName
      && Search(b.commandType, command) == Some(Captures(Some(b.labelName), None))
      && (b.commandType != IfGoto ==> Search(IfGoto, command).None?)
      && (b.commandType == Label ==> Search(Goto, command).None?)
      && |b.labelName| > 0 && forall k :: 0 <= k < |b.labelName| ==> IsWordChar(b.labelName[k])
  {
    ParseResult(command, fileName, functionName);
    if Search(IfGoto, command).Some? {
      IfGotoMatchesGoto(command);
      SearchCaptures(IfGoto, command);
    } else if Search(Goto, command).Some? {
      SearchCaptures(Goto, command);
    } else if Search(Label, command).Some? {
      SearchCaptures(Label, command);
    }
  }

  /** The first pattern found decides. */
  lemma ParseResult(command: string, fileName: string, functionName: Option<string>)
    ensures Parse(command, fileName, functionName) ==
      if Search(IfGoto, command).Some? then Some(BranchingCommand(Search(IfGoto, command).value.group1.GetOr(""), fileName, functionName, IfGoto))
      else if Search(Goto, command).Some? then Some(BranchingCommand(Search(Goto, command).value.group1.GetOr(""), fileName, functionName, Goto))
      else if Search(Label, command).Some? then Some(BranchingCommand(Search(Label, command).value.group1.GetOr(""), fileName, functionName, Label))
      else None
  {
    ParseUnfold(command, fileName, functionName);
    if Search(IfGoto, command).Some? {
      SearchCaptures(IfGoto, command);
    } else if Search(Goto, command).Some? {
      SearchCaptures(Goto, command);
    } else if Search(Label, command).Some? {
      SearchCaptures(Label, command);
    }
  }

  /** A search that succeeds captures a non-empty word as its label. */
  lemma SearchCaptures(t: BranchingCommandType, command: string)
    requires Search(t, command).Some?
    ensures var c := Search(t, command).value;
      && c.group1.Some? && c.group2.None? && |c.group1.value| > 0
      && forall k :: 0 <= k < |c.group1.value| ==> IsWordChar(c.group1.value[k])
  {
    FindCaptures(WordAfter(Keyword(t)), command);
  }

  lemma ParseUnfold(command: string, fileName: string, functionName: Option<string>)
    ensures Parse(command, fileName, functionName) ==
      Try(command, fileName, functionName, IfGoto,
        Try(command, fileName, functionName, Goto,
          Try(command, fileName, functionName, Label, None)))
  {
    assert PatternOrder[1..] == [Goto, Label] && PatternOrder[2..] == [Label] && PatternOrder[3..] == [];
  }

  /** The assembler symbol of a label: qualified by the enclosing function,
      or by nothing at the top level of a file. */
  function Symbol(functionName: Option<string>, name: string): string {
    functionName.GetOr("") + "$" + name
  }

  /** `generate_if_goto`: pop the condition and jump when it is not 0. */
  function IfGotoCode(symbol: string): seq<string> {
    PopD + [At(symbol), "D;JNE"]
  }

  /** `generate_goto` */
  function GotoCode(symbol: string): seq<string> {
    [At(symbol), "0;JMP"]
  }

  /** `generate_label` */
  function LabelCode(symbol: string): seq<string> {
    [LabelLine(symbol)]
  }

  /** `generate` for a branching command. */
  function Generate(b: BranchingCommand): seq<string> {
    var symbol := Symbol(b.functionName, b.labelName);
    match b.commandType
    case IfGoto => IfGotoCode(symbol)
    case Goto => GotoCode(symbol)
    case Label => LabelCode(symbol)
  }

  /** A jump and a label of the same name in the same function meet: the
      jump loads the very symbol the label declares. `if-goto` pops the
      condition and jumps when it is non-zero; `goto` jumps always. */
  lemma JumpsReachLabel(jump: BranchingCommand, target: BranchingCommand)
    requires jump.commandType != Label && target.commandType == Label
    requires jump.labelName == target.labelName && jump.functionName == target.functionName
    ensures var code := Generate(jump);
      && |code| == (if jump.commandType == IfGoto then 5 else 2)
      && (jump.commandType == IfGoto ==> code[..3] == PopD)
      && code[|code| - 2] == At(Symbol(jump.functionName, jump.labelName))
      && code[|code| - 1] == (if jump.commandType == IfGoto then "D;JNE" else "0;JMP")
      && Generate(target) == [LabelLine(Symbol(jump.functionName, jump.labelName))]
  {
    if jump.commandType == IfGoto {
      assert Generate(jump)[..3] == PopD;
    }
  }

  /** The stack effect of each branching command. */
  lemma GenerateMoves(b: BranchingCommand)
    ensures CountMoves(Generate(b), Increment) == 0
    ensures CountMoves(Generate(b), Decrement) == (if b.commandType == IfGoto then 1 else 0)
  {
    var symbol := Symbol(b.functionName, b.labelName);
    SymbolLinesDoNotMove(symbol);
    var tail := [At(symbol), "D;JNE"];
    QuietMoves(tail);
    QuietMoves(GotoCode(symbol));
    QuietMoves(LabelCode(symbol));
    BlockMoves();
    MovesConcat(PopD, tail);
  }

  /** Labels of different functions, or with different names, are different
      symbols. Function names captured by `[\w\.]+` have no `$`. */
  lemma SymbolInjective(fn1: Option<string>, l1: string, fn2: Option<string>, l2: string)
    requires '$' !in fn1.GetOr("") && '$' !in fn2.GetOr("")
    requires Symbol(fn1, l1) == Symbol(fn2, l2)
    ensures fn1.GetOr("") == fn2.GetOr("") && l1 == l2
  {
    DollarSplit(fn1.GetOr(""), l1, fn2.GetOr(""), l2);
  }

  /** At the top level of a file a label `L` becomes `$L`. */
  lemma TopLevelSymbol(name: string)
    ensures Symbol(None, name) == "$" + name
  {
  }
}
