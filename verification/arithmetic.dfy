/** Arithmetic and logical stack commands (`src/commands/arithmetic.rs`). */
module Arithmetic {
  import opened Wrappers
  import opened Hack

  datatype ArithmeticType = Add | Sub | Neg | Eq | Gt | Lt | And | Or | Not {
    /** Pops two cells and pushes their combination. */
    predicate IsBinary() {
      this == Add || this == Sub || this == And || this == Or
    }
    /** Rewrites the top cell in place. */
    predicate IsUnary() {
      this == Neg || this == Not
    }
    /** Pops two cells and pushes -1 (true) or 0 (false). */
    predicate IsComparison() {
      this == Eq || this == Gt || this == Lt
    }
  }

  /** The VM keyword of each command. */
  function Keyword(op: ArithmeticType): string {
    match op
    case Add => "add"
    case Sub => "sub"
    case Neg => "neg"
    case Eq => "eq"
    case Gt => "gt"
    case Lt => "lt"
    case And => "and"
    case Or => "or"
    case Not => "not"
  }

  /** `ArithmeticCommand::new`: the whole cleaned line must be one of the nine
      keywords. */
  function Parse(command: string): Option<ArithmeticType> {
    if command == "add" then Some(Add)
    else if command == "sub" then Some(Sub)
    else if command == "neg" then Some(Neg)
    else if command == "eq" then Some(Eq)
    else if command == "gt" then Some(Gt)
    else if command == "lt" then Some(Lt)
    else if command == "and" then Some(And)
    else if command == "or" then Some(Or)
    else if command == "not" then Some(Not)
    else None
  }

  /** A line is accepted exactly when it is a keyword, and then as that
      keyword's command. */
  lemma ParseIffKeyword(command: string, op: ArithmeticType)
    ensures Parse(command) == Some(op) <==> command == Keyword(op)
  {
  }

  /** Every line that is not one of the nine keywords is rejected. */
  lemma ParseRejectsOthers(command: string)
    requires forall op: ArithmeticType :: command != Keyword(op)
    ensures Parse(command) == None
  {
    if Parse(command).Some? {
      ParseIffKeyword(command, Parse(command).value);
    }
  }

  /** The line that combines D (second from top) with M (top) for a binary
      command. */
  function ComputeLine(op: ArithmeticType): string
    requires op.IsBinary()
  {
    match op
    case Add => "D=D+M"
    case Sub => "D=D-M"
    case And => "D=D&M"
    case Or => "D=D|M"
  }

  /** `generate_2_operand_arithmetic_code`: pop the top into R13, load the
      new top into D, combine with R13 and write D back over the new top. */
  function BinaryCode(op: ArithmeticType): seq<string>
    requires op.IsBinary()
  {
    PopD + ["@R13", "M=D"] + TopA + ["D=M", "@R13", ComputeLine(op)] + TopA + ["M=D"]
  }

  /** `generate_neg_operand_arithmetic_code` and
      `generate_not_operand_arithmetic_code`. */
  function UnaryCode(op: ArithmeticType): seq<string>
    requires op.IsUnary()
  {
    TopA + [if op == Neg then "M=-M" else "M=!M"]
  }

  /** The jump taken when the comparison holds of D = x - y. */
  function JumpLine(op: ArithmeticType): string
    requires op.IsComparison()
  {
    match op
    case Eq => "D;JEQ"
    case Gt => "D;JGT"
    case Lt => "D;JLT"
  }

  /** `generate_comparison_arithmetic_code`. The two labels are the fixed
      symbols `MINUS_ONE` and `END` for every comparison. */
  function ComparisonCode(op: ArithmeticType): seq<string>
    requires op.IsComparison()
  {
    PopD + TopA + ["A=M", "D=A-D", "@MINUS_ONE", JumpLine(op)]
    + TopA + ["M=0", "@END", "0;JMP", "(MINUS_ONE)"]
    + TopA + ["M=-1", "(END)"]
  }

  /** `Command::generate` for an arithmetic command. */
  function Generate(op: ArithmeticType): seq<string> {
    match op
    case Add | Sub | And | Or => BinaryCode(op)
    case Neg | Not => UnaryCode(op)
    case Eq | Gt | Lt => ComparisonCode(op)
  }

  /** The binary commands emit the same 13 lines except the compute line at
      index 9. */
  lemma BinaryCodeLayout(op: ArithmeticType, other: ArithmeticType)
    requires op.IsBinary() && other.IsBinary()
    ensures |BinaryCode(op)| == 13 && BinaryCode(op)[9] == ComputeLine(op)
    ensures forall i :: 0 <= i < 13 && i != 9 ==> BinaryCode(op)[i] == BinaryCode(other)[i]
  {
  }

  /** A binary command pops exactly one cell and pushes none. */
  lemma BinaryCodeMoves(op: ArithmeticType)
    requires op.IsBinary()
    ensures CountMoves(BinaryCode(op), Decrement) == 1 && CountMoves(BinaryCode(op), Increment) == 0
  {
    BlockMoves();
    var a := PopD + ["@R13", "M=D"];
    var b := a + TopA;
    var c := b + ["D=M", "@R13", ComputeLine(op)];
    var d := c + TopA;
    QuietMoves(["@R13", "M=D"]);
    QuietMoves(["D=M", "@R13", ComputeLine(op)]);
    QuietMoves(["M=D"]);
    MovesConcat(PopD, ["@R13", "M=D"]);
    MovesConcat(a, TopA);
    MovesConcat(b, ["D=M", "@R13", ComputeLine(op)]);
    MovesConcat(c, TopA);
    MovesConcat(d, ["M=D"]);
  }

  /** `sub` computes second-from-top minus top: the top goes to R13 first,
      the second cell is loaded into D, and D=D-M subtracts R13 from it. */
  lemma SubtractsTopFromSecond()
    ensures BinaryCode(Sub)[..5] == PopD + ["@R13", "M=D"]
    ensures BinaryCode(Sub)[5..10] == TopA + ["D=M", "@R13", "D=D-M"]
  {
  }

  /** `neg` and `not` rewrite the top cell in place and leave SP alone. */
  lemma UnaryCodeShape(op: ArithmeticType)
    requires op.IsUnary()
    ensures |UnaryCode(op)| == 3 && UnaryCode(op)[..2] == TopA
    ensures UnaryCode(op)[2] == (if op == Neg then "M=-M" else "M=!M")
    ensures CountMoves(UnaryCode(op), Increment) == 0 && CountMoves(UnaryCode(op), Decrement) == 0
  {
    BlockMoves();
    QuietMoves([UnaryCode(op)[2]]);
    MovesConcat(TopA, [UnaryCode(op)[2]]);
  }

  /** A comparison pops y into D, loads x into A through the new top and
      computes x - y with D=A-D; it jumps to MINUS_ONE on JEQ,
      JGT or JLT; otherwise it writes 0 over the top, else -1. */
  lemma ComparisonCodeLayout(op: ArithmeticType)
    requires op.IsComparison()
    ensures var r := ComparisonCode(op);
      && |r| == 19 && r[..7] == PopD + TopA + ["A=M", "D=A-D"]
      && r[7] == "@MINUS_ONE" && r[8] == JumpLine(op)
      && r[9..12] == TopA + ["M=0"] && r[12..14] == ["@END", "0;JMP"]
      && r[14] == "(MINUS_ONE)" && r[15..18] == TopA + ["M=-1"] && r[18] == "(END)"
  {
    var r := ComparisonCode(op);
    var h := ComparisonHead(op);
    assert r == h + TopA + ["M=-1", "(END)"];
    assert |h| == 15;
    assert r[..15] == h;
    assert h[..7] == PopD + TopA + ["A=M", "D=A-D"];
    assert h[9..12] == TopA + ["M=0"];
  }

  /** A comparison pops exactly one cell and pushes none. */
  lemma ComparisonCodeMoves(op: ArithmeticType)
    requires op.IsComparison()
    ensures CountMoves(ComparisonCode(op), Decrement) == 1
    ensures CountMoves(ComparisonCode(op), Increment) == 0
  {
    BlockMoves();
    var d := ComparisonHead(op);
    var z := ["M=-1", "(END)"];
    ComparisonHeadMoves(op);
    QuietMoves(z);
    MovesConcat(d, TopA);
    MovesConcat(d + TopA, z);
  }

  /** The comparison code up to the `-1` branch's `TopA`. */
  function ComparisonHead(op: ArithmeticType): seq<string>
    requires op.IsComparison()
  {
    PopD + TopA + ["A=M", "D=A-D", "@MINUS_ONE", JumpLine(op)]
    + TopA + ["M=0", "@END", "0;JMP", "(MINUS_ONE)"]
  }

  lemma ComparisonHeadMoves(op: ArithmeticType)
    requires op.IsComparison()
    ensures CountMoves(ComparisonHead(op), Decrement) == 1
    ensures CountMoves(ComparisonHead(op), Increment) == 0
  {
    BlockMoves();
    var x := ["A=M", "D=A-D", "@MINUS_ONE", JumpLine(op)];
    var y := ["M=0", "@END", "0;JMP", "(MINUS_ONE)"];
    QuietMoves(x);
    QuietMoves(y);
    var a := PopD + TopA;
    var b := a + x;
    var c := b + TopA;
    MovesConcat(PopD, TopA);
    MovesConcat(a, x);
    MovesConcat(b, TopA);
    MovesConcat(c, y);
  }

  /** The stack effect of every arithmetic command: binary commands and
      comparisons pop one cell net, `neg` and `not` none. */
  lemma GenerateStackEffect(op: ArithmeticType)
    ensures SpDelta(Generate(op)) == if op.IsUnary() then 0 else -1
  {
    if op.IsBinary() {
      BinaryCodeMoves(op);
    } else if op.IsUnary() {
      UnaryCodeShape(op);
    } else {
      ComparisonCodeMoves(op);
    }
  }

  /** Two comparisons define the same labels: their code, put side by side,
      declares `(MINUS_ONE)` twice. */
  lemma ComparisonLabelsRepeat(op1: ArithmeticType, op2: ArithmeticType)
    requires op1.IsComparison() && op2.IsComparison()
    ensures var code := ComparisonCode(op1) + ComparisonCode(op2);
      code[14] == code[33] == "(MINUS_ONE)" && code[18] == code[37] == "(END)"
  {
    ComparisonCodeLayout(op1);
    ComparisonCodeLayout(op2);
  }
}
