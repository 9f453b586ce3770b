/** The scanning driver of `src/parser.rs`: a forward-only cursor over the
    lines of one `.vm` file that skips blank and comment lines, keeps track
    of the enclosing function and of the calls made in it so far, and hands
    each instruction to the dispatcher. */
module Parser {
  import opened Wrappers
  import opened Text
  import Patterns
  import Functional
  import Commands

  /** A line `has_more_command` passes over: blank once trimmed, or a
      comment line. Leading whitespace alone decides it (`SkippedTrimmed`
      relates it to the fully trimmed text the source tests). */
  predicate Skipped(line: string) {
    var c := TrimStart(line);
    |c| == 0 || StartsWithComment(c)
  }

  /** The test `has_more_command` applies to the trimmed line is `Skipped`. */
  lemma SkippedTrimmed(line: string)
    ensures Skipped(line) <==> |Trim(line)| == 0 || StartsWithComment(Trim(line))
  {
    var t := TrimStart(line);
    var r := TrimEnd(t);
    assert r == Trim(line);
    TrimStartSpec(line);
    TrimEndSpec(t);
    if |t| > 0 {
      assert |r| > 0;
      if |t| >= 2 && t[1] == '/' {
        assert |r| >= 2 && r[0] == t[0] && r[1] == t[1];
      }
    }
  }

  /** `c.starts_with("//")`, character by character. */
  predicate StartsWithComment(c: string) {
    |c| >= 2 && c[0] == '/' && c[1] == '/'
  }

  /** The index of the first line at or after `from` that is not skipped. */
  function NextCommand(lines: seq<string>, from: nat): Option<nat>
    decreases |lines| - from
  {
    if from >= |lines| then None
    else if !Skipped(lines[from]) then Some(from)
    else NextCommand(lines, from + 1)
  }

  /** The next command is a line that is not skipped, and every line before
      it, from `from` on, is skipped; with no next command, all are. */
  lemma {:induction false} NextCommandSpec(lines: seq<string>, from: nat)
    ensures var r := NextCommand(lines, from);
      && (r.Some? ==> from <= r.value < |lines| && !Skipped(lines[r.value]))
      && (forall k :: from <= k < |lines| && (r.None? || k < r.value) ==> Skipped(lines[k]))
    decreases |lines| - from
  {
    if from < |lines| && Skipped(lines[from]) {
      NextCommandSpec(lines, from + 1);
    }
  }

  /** Skipping lines that are skipped does not change the next command. */
  lemma {:induction false} NextCommandAfterSkipped(lines: seq<string>, from: nat, to: nat)
    requires from <= to
    requires forall k :: from <= k < to && k < |lines| ==> Skipped(lines[k])
    ensures NextCommand(lines, from) == NextCommand(lines, to)
    decreases (to as int) - (from as int)
  {
    if from < to && from < |lines| {
      assert Skipped(lines[from]);
      NextCommandAfterSkipped(lines, from + 1, to);
    }
  }

  /** At a line that is not skipped, or past the last line, the search
      stops at once. */
  lemma NextCommandHere(lines: seq<string>, i: nat)
    requires i >= |lines| || !Skipped(lines[i])
    ensures NextCommand(lines, i) == if i < |lines| then Some(i) else None
  {
  }

  /** The search from `from` stops at `i` when it passes only skipped lines
      on the way. */
  lemma NextCommandAt(lines: seq<string>, from: nat, i: nat)
    requires from <= i
    requires forall k :: from <= k < i && k < |lines| ==> Skipped(lines[k])
    requires i >= |lines| || !Skipped(lines[i])
    ensures NextCommand(lines, from) == if i < |lines| then Some(i) else None
  {
    NextCommandAfterSkipped(lines, from, i);
    NextCommandHere(lines, i);
  }

  /** The enclosing function and the number of calls seen in it. */
  datatype Context = Context(functionName: Option<string>, ret: nat)

  /** How one trimmed instruction line changes the context: a `function`
      line names the new enclosing function and resets the count, and a
      `call` pattern anywhere in the line, trailing comment included,
      counts one more call. */
  function Update(ctx: Context, c: string): Context {
    var entered :=
      match Functional.Search(Functional.Function, c)
      case Some(captures) => Context(captures.group1, 0)
      case None => ctx;
    if Functional.Search(Functional.Call, c).Some? then entered.(ret := entered.ret + 1) else entered
  }

  /** A `function` line enters the function it names, with no call seen
      unless the line itself holds one; any other line keeps the function
      and adds one to the count exactly when it holds a call. */
  lemma UpdateSpec(ctx: Context, c: string)
    ensures var calls := if Functional.Search(Functional.Call, c).Some? then 1 else 0;
      && (Functional.Search(Functional.Function, c).Some? ==>
            && Update(ctx, c).functionName.Some?
            && Update(ctx, c).functionName == Functional.Search(Functional.Function, c).value.group1
            && Update(ctx, c).ret == calls)
      && (Functional.Search(Functional.Function, c).None? ==>
            Update(ctx, c) == Context(ctx.functionName, ctx.ret + calls))
  {
    if Functional.Search(Functional.Function, c).Some? {
      Patterns.FindCaptures(Functional.PatternOf(Functional.Function), c);
    }
  }

  /** `clean`: the text before the first `//`, trimmed. */
  function Clean(line: string): (r: string)
    ensures !Contains(r, "//")
    ensures r == [] || (!IsSpace(r[0]) && !IsSpace(r[|r| - 1]))
  {
    var before := BeforeFirst(line, "//");
    TrimKeepsAbsence(before, "//");
    TrimEnds(before);
    Trim(before)
  }

  /** Cleaning a cleaned line changes nothing. */
  lemma CleanIdempotent(line: string)
    ensures Clean(Clean(line)) == Clean(line)
  {
    var r := Clean(line);
    assert BeforeFirst(r, "//") == r;
    TrimOfTrimmed(r);
  }

  /** The line `has_more_command` stops at cleans to a non-empty
      instruction: a comment cannot begin before its first visible
      character. */
  lemma CleanOfCommand(line: string)
    requires !Skipped(line)
    ensures |Clean(line)| > 0
  {
    var t := Trim(line);
    SkippedTrimmed(line);
    var i := TrimSpec(line);
    var before := BeforeFirst(line, "//");
    CommentAfterStart(line, t, i, |before|);
    TrimEnds(line);
    assert before[i] == line[i] == t[0];
    NonSpaceSurvivesTrim(before, i);
  }

  /** In a line whose trimmed text `t` (found at `i`) does not start with
      `//`, the first `//`, at `p`, if any, lies after the start of `t`. */
  lemma CommentAfterStart(line: string, t: string, i: nat, p: nat)
    requires TrimmedAt(line, t, i) && |t| > 0 && !StartsWithComment(t)
    requires p <= |line| && (p < |line| ==> OccursAt(line, "//", p))
    ensures p > i
  {
    if p < |line| {
      assert line[p..p + 2] == "//";
      assert line[p] == '/' && line[p + 1] == '/';
      forall k | 0 <= k < i
        ensures IsSpace(line[k])
      {
        assert line[..i][k] == line[k];
      }
      forall k | i + |t| <= k < |line|
        ensures IsSpace(line[k])
      {
        assert line[i + |t|..][k - i - |t|] == line[k];
      }
      assert t[0] == line[i];
      assert |t| >= 2 ==> t[1] == line[i + 1];
    }
  }

  /** A visible character survives trimming. */
  lemma NonSpaceSurvivesTrim(s: string, i: nat)
    requires i < |s| && !IsSpace(s[i])
    ensures |Trim(s)| > 0
  {
    var r := Trim(s);
    var j := TrimSpec(s);
    forall k | 0 <= k < j
      ensures IsSpace(s[k])
    {
      assert s[..j][k] == s[k];
    }
    forall k | j + |r| <= k < |s|
      ensures IsSpace(s[k])
    {
      assert s[j + |r|..][k - j - |r|] == s[k];
    }
  }

  /** The context after the instruction lines `cs`, in order. */
  function Scan(ctx: Context, cs: seq<string>): Context
    decreases |cs|
  {
    if cs == [] then ctx else Update(Scan(ctx, cs[..|cs| - 1]), cs[|cs| - 1])
  }

  /** No line of `cs` opens a function. */
  predicate NoFunctionLine(cs: seq<string>) {
    forall k :: 0 <= k < |cs| ==> Functional.Search(Functional.Function, cs[k]).None?
  }

  /** The number of lines of `cs` that hold a call. */
  function CallCount(cs: seq<string>): nat
    decreases |cs|
  {
    if cs == [] then 0
    else CallCount(cs[..|cs| - 1]) + (if Functional.Search(Functional.Call, cs[|cs| - 1]).Some? then 1 else 0)
  }

  /** Inside one function the count is the number of calls seen since it
      was entered: after the first `n` lines of `cs`, none of which is a
      `function` line, the count has grown by the calls among them. */
  lemma {:induction false} ScanCountsCalls(ctx: Context, cs: seq<string>, n: nat)
    requires n <= |cs|
    requires NoFunctionLine(cs)
    ensures Scan(ctx, cs[..n]) == Context(ctx.functionName, ctx.ret + CallCount(cs[..n]))
    decreases n
  {
    if n > 0 {
      ScanCountsCalls(ctx, cs, n - 1);
      assert cs[..n][..n - 1] == cs[..n - 1];
      assert cs[..n][n - 1] == cs[n - 1];
      UpdateSpec(Scan(ctx, cs[..n - 1]), cs[n - 1]);
    }
  }

  /** A longer prefix holds at least the calls of a shorter one, and one
      more when the line in between is a call. */
  lemma {:induction false} CallCountGrows(cs: seq<string>, i: nat, j: nat)
    requires i < j <= |cs|
    ensures CallCount(cs[..j]) >= CallCount(cs[..i]) + (if Functional.Search(Functional.Call, cs[i]).Some? then 1 else 0)
    decreases j - i
  {
    assert cs[..j][..j - 1] == cs[..j - 1];
    if j - 1 > i {
      CallCountGrows(cs, i, j - 1);
    } else {
      assert cs[..j][j - 1] == cs[i];
    }
  }

  /** Two calls in the same function get increasing counts. */
  lemma CallsCountUp(ctx: Context, cs: seq<string>, i: nat, j: nat)
    requires NoFunctionLine(cs)
    requires i < j < |cs| && Functional.Search(Functional.Call, cs[j]).Some?
    ensures Scan(ctx, cs[..i + 1]).functionName == Scan(ctx, cs[..j + 1]).functionName == ctx.functionName
    ensures Scan(ctx, cs[..i + 1]).ret < Scan(ctx, cs[..j + 1]).ret
  {
    ScanCountsCalls(ctx, cs, i + 1);
    ScanCountsCalls(ctx, cs, j + 1);
    CallCountGrows(cs, j, j + 1);
    if i + 1 < j {
      CallCountGrows(cs, i + 1, j);
    }
    assert CallCount(cs[..i + 1]) < CallCount(cs[..j + 1]);
  }

  /** Two calls in the same function get different return labels. */
  lemma CallsGetDistinctLabels(ctx: Context, cs: seq<string>, i: nat, j: nat)
    requires ctx.functionName.Some? && '$' !in ctx.functionName.value
    requires NoFunctionLine(cs)
    requires i < j < |cs| && Functional.Search(Functional.Call, cs[j]).Some?
    ensures Functional.ReturnLabel(ctx.functionName.value, Scan(ctx, cs[..i + 1]).ret)
      != Functional.ReturnLabel(ctx.functionName.value, Scan(ctx, cs[..j + 1]).ret)
  {
    CallsCountUp(ctx, cs, i, j);
    var fn, r1, r2 := ctx.functionName.value, Scan(ctx, cs[..i + 1]).ret, Scan(ctx, cs[..j + 1]).ret;
    if Functional.ReturnLabel(fn, r1) == Functional.ReturnLabel(fn, r2) {
      Functional.ReturnLabelInjective(fn, r1, fn, r2);
    }
  }

  /** The largest `u16`, the type of the call counter. */
  const U16Max: nat := 65535

  /** `Parser`, over the lines of one file. `nth` is the 1-based index of
      the line of the current instruction (0 before the first). */
  class Parser {
    const lines: seq<string>
    const fileName: string
    var nth: nat
    var functionName: Option<string>
    var ret: nat

    /** The cursor stays within the file, and the call counter, which grows
        by at most one per line, fits a `u16`. */
    predicate Valid()
      reads this
    {
      nth <= |lines| <= U16Max && ret <= nth
    }

    function CurrentContext(): Context
      reads this
    {
      Context(functionName, ret)
    }

    /** `Parser::new` with the file already split into lines. */
    constructor (lines: seq<string>, fileName: string)
      requires |lines| <= U16Max
      ensures Valid()
      ensures this.lines == lines && this.fileName == fileName
      ensures nth == 0 && functionName == None && ret == 0
    {
      this.lines := lines;
      this.fileName := fileName;
      nth := 0;
      functionName := None;
      ret := 0;
    }

    /** `has_more_command`: move the cursor to the next instruction line,
        updating the context from it, or report that there is none and
        change nothing. */
    method HasMoreCommand() returns (more: bool)
      requires Valid()
      modifies this
      ensures Valid()
      ensures more <==> NextCommand(lines, old(nth)).Some?
      ensures more ==> nth == NextCommand(lines, old(nth)).value + 1 && nth > old(nth)
      ensures more ==> CurrentContext() == Update(old(CurrentContext()), Trim(lines[nth - 1]))
      ensures !more ==> nth == old(nth) && functionName == old(functionName) && ret == old(ret)
    {
      var n := 0;
      while nth + n < |lines|
        invariant nth == old(nth) && functionName == old(functionName) && ret == old(ret)
        invariant nth + n <= |lines|
        invariant forall k :: nth <= k < nth + n ==> Skipped(lines[k])
        decreases |lines| - n
      {
        ghost var at := nth + n;
        var c := Trim(lines[nth + n]);
        var counter := n + 1;
        SkippedTrimmed(lines[at]);
        if StartsWithComment(c) || |c| == 0 {
          n := n + 1;
          continue;
        }
        NextCommandAt(lines, nth, at);
        UpdateSpec(CurrentContext(), c);
        UpdateContext(c);
        nth := nth + counter;
        assert nth - 1 == at;
        return true;
      }
      NextCommandAt(lines, nth, nth + n);
      return false;
    }

    /** The context updates of `has_more_command` for the instruction line
        `c`: a `function` line enters the named function, a `call` counts. */
    method UpdateContext(c: string)
      modifies this
      ensures CurrentContext() == Update(old(CurrentContext()), c)
      ensures ret <= old(ret) + 1 && nth == old(nth)
    {
      UpdateSpec(CurrentContext(), c);
      var entered := Functional.Search(Functional.Function, c);
      if entered.Some? {
        functionName := entered.value.group1;
        ret := 0;
      }
      if Functional.Search(Functional.Call, c).Some? {
        ret := ret + 1;
      }
    }

    /** `advance`: the cleaned current line and its command. Reading line
        `nth - 1` underflows before the first `has_more_command`; a line
        no family recognises is fatal. */
    function Advance(): (r: Outcome<(string, Commands.Command)>)
      reads this
      ensures r.Done? ==>
        && 0 < nth <= |lines| && r.value.0 == Clean(lines[nth - 1])
        && Commands.Dispatch(r.value.0, fileName, functionName, ret) == Done(Some(r.value.1))
        && Commands.Valid(r.value.1)
      ensures r.Panic? <==>
        || nth == 0 || nth > |lines|
        || Commands.Dispatch(Clean(lines[nth - 1]), fileName, functionName, ret).Panic?
        || Commands.Dispatch(Clean(lines[nth - 1]), fileName, functionName, ret) == Done(None)
    {
      if nth == 0 then Panic(SubtractOverflow)
      else if nth > |lines| then Panic("a command [" + NatToString(nth) + "]")
      else
        var command := Clean(lines[nth - 1]);
        Commands.DispatchValid(command, fileName, functionName, ret);
        match Commands.Dispatch(command, fileName, functionName, ret)
        case Panic(msg) => Panic(msg)
        case Done(None) => Panic("valid command type [" + command + "]")
        case Done(Some(cmd)) => Done((command, cmd))
    }
  }

  /** Arithmetic underflow in a debug build. */
  const SubtractOverflow: string := "attempt to subtract with overflow"
}
