/** The vocabulary of the Hack assembly the generators emit, and a
    syntactic account of how a sequence of lines moves the stack pointer.

    Lines are kept as text, exactly as emitted. The generators move SP by
    one cell with the two-line idioms `@SP` `M=M+1` (increment) and `@SP`
    `AM=M-1` (decrement), so the stack effect of a piece of code is
    measured by counting those idioms. No line is executed here. */
module Hack {
  import opened Text

  /** The two ways the generated code moves the stack pointer by one cell. */
  datatype SpMove = Increment | Decrement {
    /** The compute line that follows `@SP` to make the move. */
    function Line(): string {
      match this
      case Increment => "M=M+1"
      case Decrement => "AM=M-1"
    }
  }

  /** How many times `code` makes `move`: an `@SP` line directly followed by
      the move's line. */
  function CountMoves(code: seq<string>, move: SpMove): nat {
    if |code| < 2 then 0
    else (if code[1] == move.Line() && code[0] == "@SP" then 1 else 0) + CountMoves(code[1..], move)
  }

  /** The net number of cells `code` pushes onto the stack. */
  function SpDelta(code: seq<string>): int {
    CountMoves(code, Increment) - CountMoves(code, Decrement)
  }

  /** `code` assigns SP outright, from D (`@SP` then `M=D`). */
  predicate AssignsSp(code: seq<string>) {
    exists i :: 0 <= i < |code| - 1 && code[i] == "@SP" && code[i + 1] == "M=D"
  }

  /** A line that completes a move when it follows `@SP`. */
  predicate IsMoveLine(line: string) {
    line == "M=M+1" || line == "AM=M-1"
  }

  /** A piece of code that cannot complete a move begun by the code before it. */
  predicate Detached(code: seq<string>) {
    code == [] || !IsMoveLine(code[0])
  }

  /** Counting moves distributes over a concatenation whose second part is detached. */
  lemma {:induction false} MovesConcat(a: seq<string>, b: seq<string>)
    requires Detached(b)
    ensures forall move :: CountMoves(a + b, move) == CountMoves(a, move) + CountMoves(b, move)
    ensures SpDelta(a + b) == SpDelta(a) + SpDelta(b)
  {
    forall move | true
      ensures CountMoves(a + b, move) == CountMoves(a, move) + CountMoves(b, move)
    {
      MovesConcatOne(a, b, move);
    }
  }

  lemma {:induction false} MovesConcatOne(a: seq<string>, b: seq<string>, move: SpMove)
    requires Detached(b)
    ensures CountMoves(a + b, move) == CountMoves(a, move) + CountMoves(b, move)
    decreases |a|
  {
    if |a| == 0 {
      assert a + b == b;
    } else if |a| == 1 {
      if |b| > 0 {
        assert (a + b)[1..] == b && (a + b)[1] == b[0];
        assert b[0] != move.Line();
      }
    } else {
      assert (a + b)[1..] == a[1..] + b;
      MovesConcatOne(a[1..], b, move);
    }
  }

  /** `MovesConcat` for four pieces. */
  lemma MovesConcat4(a: seq<string>, b: seq<string>, c: seq<string>, d: seq<string>)
    requires Detached(b) && Detached(c) && Detached(d)
    ensures forall move :: (CountMoves(a + b + c + d, move)
      == CountMoves(a, move) + CountMoves(b, move) + CountMoves(c, move) + CountMoves(d, move))
  {
    MovesConcat(a, b);
    MovesConcat(a + b, c);
    MovesConcat(a + b + c, d);
  }

  /** Code in which no line after the first completes a move makes none. */
  lemma {:induction false} QuietMoves(code: seq<string>)
    requires forall k :: 0 < k < |code| ==> !IsMoveLine(code[k])
    ensures CountMoves(code, Increment) == 0 && CountMoves(code, Decrement) == 0
    decreases |code|
  {
    if |code| >= 2 {
      assert !IsMoveLine(code[1]);
      assert forall k :: 0 < k < |code| - 1 ==> code[1..][k] == code[k + 1];
      QuietMoves(code[1..]);
    }
  }

  /** Push D onto the stack: `*SP = D; SP = SP + 1`, written as SP first. */
  const PushD: seq<string> := ["@SP", "M=M+1", "A=M-1", "M=D"]

  /** Pop the stack into D: `SP = SP - 1; D = *SP`. */
  const PopD: seq<string> := ["@SP", "AM=M-1", "D=M"]

  /** Point A at the top cell of the stack, leaving SP as it is. */
  const TopA: seq<string> := ["@SP", "A=M-1"]

  lemma BlockMoves()
    ensures CountMoves(PushD, Increment) == 1 && CountMoves(PushD, Decrement) == 0
    ensures CountMoves(PopD, Increment) == 0 && CountMoves(PopD, Decrement) == 1
    ensures CountMoves(TopA, Increment) == 0 && CountMoves(TopA, Decrement) == 0
  {
  }

  /** The A-instruction `@n`. */
  function At(symbol: string): string {
    "@" + symbol
  }

  /** The label pseudo-instruction `(symbol)`. */
  function LabelLine(symbol: string): string {
    "(" + symbol + ")"
  }

  /** Neither an A-instruction nor a label completes a move. */
  lemma SymbolLinesDoNotMove(symbol: string)
    ensures !IsMoveLine(At(symbol)) && !IsMoveLine(LabelLine(symbol))
  {
    assert At(symbol)[0] == '@' && LabelLine(symbol)[0] == '(';
  }

  /** Distinct symbols give distinct A-instructions and distinct labels. */
  lemma SymbolLinesInjective(x: string, y: string)
    ensures At(x) == At(y) <==> x == y
    ensures LabelLine(x) == LabelLine(y) <==> x == y
  {
    if At(x) == At(y) {
      assert x == At(x)[1..] && y == At(y)[1..];
    }
    if LabelLine(x) == LabelLine(y) {
      assert x == LabelLine(x)[1..|LabelLine(x)| - 1] && y == LabelLine(y)[1..|LabelLine(y)| - 1];
    }
  }

  /** Splitting a symbol `F$L` at its `$`: names without a `$` are recovered. */
  lemma DollarSplit(f1: string, t1: string, f2: string, t2: string)
    requires '$' !in f1 && '$' !in f2
    ensures f1 + "$" + t1 == f2 + "$" + t2 ==> f1 == f2 && t1 == t2
  {
    var s1, s2 := f1 + "$" + t1, f2 + "$" + t2;
    assert s1[|f1|] == '$' && s2[|f2|] == '$';
    assert forall k :: 0 <= k < |f1| ==> s1[k] == f1[k];
    assert forall k :: 0 <= k < |f2| ==> s2[k] == f2[k];
    assert s1[|f1| + 1..] == t1 && s2[|f2| + 1..] == t2;
    assert s1[..|f1|] == f1 && s2[..|f2|] == f2;
  }
}
