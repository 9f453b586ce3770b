/** The regular expressions of the translator, written out by hand.

    Every unanchored pattern the translator compiles has one of three shapes:
      keyword                              (`return`)
      keyword\s+(\w+)                      (`if-goto`, `goto`, `label`)
      keyword\s+([\w\.]+)\s+(\d+)          (`function`, `call`)
    and is searched anywhere in the line, like `Regex::captures`, which
    reports the leftmost match. The memory-access pattern is the one anchored
    at both ends. `\w` and `\d` are taken to be their ASCII parts. */
module Patterns {
  import opened Wrappers
  import opened Text

  datatype CharClass =
    | Space   // \s
    | Word    // \w
    | Name    // [\w\.]
    | Digit   // \d
    | Token   // any character that is not whitespace

  predicate In(c: char, cls: CharClass) {
    match cls
    case Space => IsSpace(c)
    case Word => IsWordChar(c)
    case Name => IsWordChar(c) || c == '.'
    case Digit => IsDigit(c)
    case Token => !IsSpace(c)
  }

  /** `s[from..to]` is a non-empty run of characters of class `cls`. */
  predicate Run(s: string, from: nat, to: nat, cls: CharClass) {
    from < to <= |s| && forall k :: from <= k < to ==> In(s[k], cls)
  }

  /** The end of the longest run of class `cls` that starts at `i`. */
  function RunEnd(s: string, i: nat, cls: CharClass): (j: nat)
    requires i <= |s|
    ensures i <= j <= |s|
    decreases |s| - i
  {
    if i < |s| && In(s[i], cls) then RunEnd(s, i + 1, cls) else i
  }

  /** Every character up to `RunEnd` is of the class, and the one at it is not. */
  lemma {:induction false} RunEndSpec(s: string, i: nat, cls: CharClass)
    requires i <= |s|
    ensures var j := RunEnd(s, i, cls);
      && (forall k :: i <= k < j ==> In(s[k], cls))
      && (j == |s| || !In(s[j], cls))
    decreases |s| - i
  {
    if i < |s| && In(s[i], cls) {
      RunEndSpec(s, i + 1, cls);
    }
  }

  /** A run that stops where the class stops is the longest one. */
  lemma {:induction false} RunEndExact(s: string, i: nat, j: nat, cls: CharClass)
    requires i <= j <= |s|
    requires forall k :: i <= k < j ==> In(s[k], cls)
    requires j == |s| || !In(s[j], cls)
    ensures RunEnd(s, i, cls) == j
    decreases j - i
  {
    if i < j {
      RunEndExact(s, i + 1, j, cls);
    }
  }

  /** The longest run reaches at least as far as any run. */
  lemma {:induction false} RunEndCovers(s: string, i: nat, j: nat, cls: CharClass)
    requires i <= j <= |s|
    requires forall k :: i <= k < j ==> In(s[k], cls)
    ensures j <= RunEnd(s, i, cls)
    decreases j - i
  {
    if i < j {
      RunEndCovers(s, i + 1, j, cls);
    }
  }

  datatype Pattern =
    | Literal(keyword: string)        // keyword
    | WordAfter(keyword: string)      // keyword\s+(\w+)
    | NameAndCount(keyword: string)   // keyword\s+([\w\.]+)\s+(\d+)

  /** What `Regex::captures` reports: groups 1 and 2, each possibly absent. */
  datatype Captures = Captures(group1: Option<string>, group2: Option<string>)

  /** The regex of `p` matches some text that starts at index `i`: the
      pattern's language, read without any greediness. */
  ghost predicate RegexMatchesAt(p: Pattern, s: string, i: nat) {
    && OccursAt(s, p.keyword, i)
    && var a := i + |p.keyword|;
    match p
    case Literal(_) => true
    case WordAfter(_) =>
      exists b: nat, c: nat :: Run(s, a, b, Space) && Run(s, b, c, Word)
    case NameAndCount(_) =>
      exists b: nat, c: nat, d: nat, e: nat ::
        Run(s, a, b, Space) && Run(s, b, c, Name) && Run(s, c, d, Space) && Run(s, d, e, Digit)
  }

  /** The captures of the match of `p` that starts at `i`, if there is one.
      Each repetition is greedy and takes the longest run; since neighbouring
      classes share no character, no shorter run could be followed by the
      next part of the pattern. */
  function MatchAt(p: Pattern, s: string, i: nat): Option<Captures>
    requires i <= |s|
  {
    if !OccursAt(s, p.keyword, i) then None
    else
      var a := i + |p.keyword|;
      match p
      case Literal(_) => Some(Captures(None, None))
      case WordAfter(_) =>
        var b := RunEnd(s, a, Space);
        var c := RunEnd(s, b, Word);
        if a < b && b < c then Some(Captures(Some(s[b..c]), None)) else None
      case NameAndCount(_) =>
        var b := RunEnd(s, a, Space);
        var c := RunEnd(s, b, Name);
        var d := RunEnd(s, c, Space);
        var e := RunEnd(s, d, Digit);
        if a < b && b < c && c < d && d < e then Some(Captures(Some(s[b..c]), Some(s[d..e]))) else None
  }

  /** `MatchAt` finds a match exactly where the regex's language has one. */
  lemma MatchAtIffRegex(p: Pattern, s: string, i: nat)
    requires i <= |s|
    ensures MatchAt(p, s, i).Some? <==> RegexMatchesAt(p, s, i)
  {
    if OccursAt(s, p.keyword, i) {
      match p
      case Literal(_) =>
      case WordAfter(kw) => WordAfterIffRegex(kw, s, i);
      case NameAndCount(kw) => NameAndCountIffRegex(kw, s, i);
    }
  }

  lemma WordAfterIffRegex(kw: string, s: string, i: nat)
    requires OccursAt(s, kw, i)
    ensures MatchAt(WordAfter(kw), s, i).Some? <==> RegexMatchesAt(WordAfter(kw), s, i)
  {
    var a := i + |kw|;
    if RegexMatchesAt(WordAfter(kw), s, i) {
      var b: nat, c: nat :| Run(s, a, b, Space) && Run(s, b, c, Word);
      RunEndExact(s, a, b, Space);
      RunEndCovers(s, b, c, Word);
    }
    if MatchAt(WordAfter(kw), s, i).Some? {
      var b := RunEnd(s, a, Space);
      RunEndSpec(s, a, Space);
      RunEndSpec(s, b, Word);
      assert Run(s, a, b, Space) && Run(s, b, RunEnd(s, b, Word), Word);
    }
  }

  lemma NameAndCountIffRegex(kw: string, s: string, i: nat)
    requires OccursAt(s, kw, i)
    ensures MatchAt(NameAndCount(kw), s, i).Some? <==> RegexMatchesAt(NameAndCount(kw), s, i)
  {
    var a := i + |kw|;
    if RegexMatchesAt(NameAndCount(kw), s, i) {
      var b: nat, c: nat, d: nat, e: nat :|
        Run(s, a, b, Space) && Run(s, b, c, Name) && Run(s, c, d, Space) && Run(s, d, e, Digit);
      NameAndCountFromRuns(kw, s, i, b, c, d, e);
    }
    if MatchAt(NameAndCount(kw), s, i).Some? {
      RunsFromNameAndCount(kw, s, i);
    }
  }

  lemma RunsFromNameAndCount(kw: string, s: string, i: nat)
    requires OccursAt(s, kw, i) && MatchAt(NameAndCount(kw), s, i).Some?
    ensures RegexMatchesAt(NameAndCount(kw), s, i)
  {
    var a := i + |kw|;
    var b := RunEnd(s, a, Space);
    var c := RunEnd(s, b, Name);
    var d := RunEnd(s, c, Space);
    var e := RunEnd(s, d, Digit);
    assert a < b < c < d < e;
    RunEndSpec(s, a, Space);
    RunEndSpec(s, b, Name);
    RunEndSpec(s, c, Space);
    RunEndSpec(s, d, Digit);
    assert Run(s, a, b, Space) && Run(s, b, c, Name) && Run(s, c, d, Space) && Run(s, d, e, Digit);
  }

  lemma NameAndCountFromRuns(kw: string, s: string, i: nat, b: nat, c: nat, d: nat, e: nat)
    requires OccursAt(s, kw, i)
    requires Run(s, i + |kw|, b, Space) && Run(s, b, c, Name) && Run(s, c, d, Space) && Run(s, d, e, Digit)
    ensures MatchAt(NameAndCount(kw), s, i).Some?
  {
    RunEndExact(s, i + |kw|, b, Space);
    RunEndExact(s, b, c, Name);
    RunEndExact(s, c, d, Space);
    RunEndCovers(s, d, e, Digit);
  }

  /** The leftmost index at or after `i` where a match of `p` starts. */
  function LeftmostFrom(p: Pattern, s: string, i: nat): (r: Option<nat>)
    requires i <= |s|
    ensures r.Some? ==> i <= r.value <= |s|
    decreases |s| - i
  {
    if MatchAt(p, s, i).Some? then Some(i)
    else if i == |s| then None
    else LeftmostFrom(p, s, i + 1)
  }

  /** `LeftmostFrom` finds a match, and none starts between `i` and it. */
  lemma {:induction false} LeftmostFromSpec(p: Pattern, s: string, i: nat)
    requires i <= |s|
    ensures var r := LeftmostFrom(p, s, i);
      && (r.Some? ==> MatchAt(p, s, r.value).Some?)
      && forall k: nat :: i <= k <= |s| && (r.None? || k < r.value) ==> MatchAt(p, s, k).None?
    decreases |s| - i
  {
    if MatchAt(p, s, i).None? && i < |s| {
      LeftmostFromSpec(p, s, i + 1);
      var r := LeftmostFrom(p, s, i + 1);
      assert LeftmostFrom(p, s, i) == r;
      forall k: nat | i < k <= |s| && (r.None? || k < r.value)
        ensures MatchAt(p, s, k).None?
      {
        assert i + 1 <= k;
      }
    }
  }

  /** `Regex::captures`: the captures of the leftmost match, if any. */
  function Find(p: Pattern, s: string): Option<Captures> {
    match LeftmostFrom(p, s, 0)
    case Some(i) => MatchAt(p, s, i)
    case None => None
  }

  /** `Regex::is_match`, stated through the regex's language. */
  ghost predicate Matches(p: Pattern, s: string) {
    exists i: nat :: i <= |s| && RegexMatchesAt(p, s, i)
  }

  /** `Find` reports a match exactly when the regex matches somewhere in the
      line, and then reports the captures of the leftmost match. */
  lemma FindSpec(p: Pattern, s: string)
    ensures Find(p, s).Some? <==> Matches(p, s)
    ensures Find(p, s).Some? ==>
      exists i: nat :: i <= |s| && Find(p, s) == MatchAt(p, s, i) && RegexMatchesAt(p, s, i)
        && forall k: nat :: k < i ==> !RegexMatchesAt(p, s, k)
  {
    var r := LeftmostFrom(p, s, 0);
    LeftmostFromSpec(p, s, 0);
    if r.Some? {
      MatchAtIffRegex(p, s, r.value);
      forall k: nat | k < r.value
        ensures !RegexMatchesAt(p, s, k)
      {
        MatchAtIffRegex(p, s, k);
      }
    } else {
      forall i: nat | i <= |s| && RegexMatchesAt(p, s, i)
        ensures false
      {
        MatchAtIffRegex(p, s, i);
      }
    }
  }

  /** A line holding `keyword` followed by whitespace and a word matches
      `keyword\s+(\w+)`; the word may be followed by anything. */
  lemma WordAfterMatches(kw: string, s: string, i: nat, b: nat, c: nat)
    requires OccursAt(s, kw, i)
    requires Run(s, i + |kw|, b, Space) && Run(s, b, c, Word)
    ensures Find(WordAfter(kw), s).Some?
  {
    assert RegexMatchesAt(WordAfter(kw), s, i);
    FindSpec(WordAfter(kw), s);
  }

  /** The groups a successful search reports: none for a bare keyword, a
      word for `keyword\s+(\w+)`, a name and a count for the third shape. */
  lemma FindCaptures(p: Pattern, s: string)
    requires Find(p, s).Some?
    ensures var c := Find(p, s).value;
      match p
      case Literal(_) => c.group1.None? && c.group2.None?
      case WordAfter(_) =>
        && c.group1.Some? && |c.group1.value| > 0 && c.group2.None?
        && forall k :: 0 <= k < |c.group1.value| ==> IsWordChar(c.group1.value[k])
      case NameAndCount(_) =>
        && c.group1.Some? && |c.group1.value| > 0 && c.group2.Some? && |c.group2.value| > 0
        && (forall k :: 0 <= k < |c.group1.value| ==> In(c.group1.value[k], Name))
        && AllDigits(c.group2.value)
  {
    MatchAtCaptures(p, s, LeftmostFrom(p, s, 0).value);
  }

  /** The groups of a match found at `i`, as `FindCaptures` states them. */
  lemma MatchAtCaptures(p: Pattern, s: string, i: nat)
    requires i <= |s| && MatchAt(p, s, i).Some?
    ensures var c := MatchAt(p, s, i).value;
      match p
      case Literal(_) => c.group1.None? && c.group2.None?
      case WordAfter(_) =>
        && c.group1.Some? && |c.group1.value| > 0 && c.group2.None?
        && forall k :: 0 <= k < |c.group1.value| ==> IsWordChar(c.group1.value[k])
      case NameAndCount(_) =>
        && c.group1.Some? && |c.group1.value| > 0 && c.group2.Some? && |c.group2.value| > 0
        && (forall k :: 0 <= k < |c.group1.value| ==> In(c.group1.value[k], Name))
        && AllDigits(c.group2.value)
  {
    match p
    case Literal(_) =>
    case WordAfter(kw) => WordAfterCaptures(kw, s, i);
    case NameAndCount(kw) => NameAndCountCaptures(kw, s, i);
  }

  lemma WordAfterCaptures(kw: string, s: string, i: nat)
    requires i <= |s| && MatchAt(WordAfter(kw), s, i).Some?
    ensures var g := MatchAt(WordAfter(kw), s, i).value.group1;
      && g.Some? && |g.value| > 0
      && forall k :: 0 <= k < |g.value| ==> In(g.value[k], Word)
  {
    var b := RunEnd(s, i + |kw|, Space);
    RunEndSpec(s, b, Word);
    SliceInClass(s, b, RunEnd(s, b, Word), Word);
  }

  lemma NameAndCountCaptures(kw: string, s: string, i: nat)
    requires i <= |s| && MatchAt(NameAndCount(kw), s, i).Some?
    ensures var m := MatchAt(NameAndCount(kw), s, i).value;
      && m.group1.Some? && |m.group1.value| > 0 && m.group2.Some? && |m.group2.value| > 0
      && (forall k :: 0 <= k < |m.group1.value| ==> In(m.group1.value[k], Name))
      && (forall k :: 0 <= k < |m.group2.value| ==> In(m.group2.value[k], Digit))
  {
    var b := RunEnd(s, i + |kw|, Space);
    var c := RunEnd(s, b, Name);
    var d := RunEnd(s, c, Space);
    RunEndSpec(s, b, Name);
    RunEndSpec(s, d, Digit);
    SliceInClass(s, b, c, Name);
    SliceInClass(s, d, RunEnd(s, d, Digit), Digit);
  }

  /** A slice of a run is made of characters of the run's class. */
  lemma SliceInClass(s: string, i: nat, j: nat, cls: CharClass)
    requires i <= j <= |s|
    requires forall k :: i <= k < j ==> In(s[k], cls)
    ensures forall k :: 0 <= k < j - i ==> In(s[i..j][k], cls)
  {
    forall k | 0 <= k < j - i
      ensures In(s[i..j][k], cls)
    {
      assert s[i..j][k] == s[i + k];
    }
  }

  /** A keyword that ends with another: wherever `pre + kw\s+(\w+)` matches,
      `kw\s+(\w+)` matches too, three characters further on for `if-goto`
      and `goto`. */
  lemma SuffixKeywordMatches(pre: string, kw: string, s: string)
    requires Find(WordAfter(pre + kw), s).Some?
    ensures Find(WordAfter(kw), s).Some?
  {
    FindSpec(WordAfter(pre + kw), s);
    var i: nat :| i <= |s| && RegexMatchesAt(WordAfter(pre + kw), s, i);
    SuffixKeywordMatchesAt(pre, kw, s, i);
    FindSpec(WordAfter(kw), s);
  }

  lemma SuffixKeywordMatchesAt(pre: string, kw: string, s: string, i: nat)
    requires RegexMatchesAt(WordAfter(pre + kw), s, i)
    ensures i + |pre| <= |s| && RegexMatchesAt(WordAfter(kw), s, i + |pre|)
  {
    var a := i + |pre + kw|;
    var b: nat, c: nat :| Run(s, a, b, Space) && Run(s, b, c, Word);
    assert s[i + |pre|..a] == s[i..a][|pre|..];
    assert OccursAt(s, kw, i + |pre|);
  }

  /** A line without the first letter of a keyword holds no match of it. */
  lemma AbsentInitial(p: Pattern, s: string)
    requires |p.keyword| > 0 && p.keyword[0] !in s
    ensures Find(p, s).None?
  {
    forall i: nat | i <= |s|
      ensures !RegexMatchesAt(p, s, i)
    {
      if i < |s| {
        assert s[i] in s;
      }
      assert !OccursAt(s, p.keyword, i) by {
        if i + |p.keyword| <= |s| {
          assert s[i..i + |p.keyword|][0] == s[i];
        }
      }
    }
    FindSpec(p, s);
  }

  /** A line without some letter of a keyword holds no match of it. */
  lemma AbsentLetter(p: Pattern, s: string, j: nat)
    requires j < |p.keyword| && p.keyword[j] !in s
    ensures Find(p, s).None?
  {
    forall i: nat | i <= |s|
      ensures !RegexMatchesAt(p, s, i)
    {
      assert !OccursAt(s, p.keyword, i) by {
        if i + |p.keyword| <= |s| {
          assert s[i..i + |p.keyword|][j] == s[i + j];
          assert s[i + j] in s;
        }
      }
    }
    FindSpec(p, s);
  }

  /** A match at `i` with no occurrence of the keyword before it is the one
      the search reports. */
  lemma FindAt(p: Pattern, s: string, i: nat)
    requires i <= |s| && MatchAt(p, s, i).Some?
    requires forall k: nat :: k < i ==> !OccursAt(s, p.keyword, k)
    ensures Find(p, s) == MatchAt(p, s, i)
  {
    LeftmostFromSpec(p, s, 0);
    var r := LeftmostFrom(p, s, 0);
    assert r.Some? && r.value <= i;
    assert OccursAt(s, p.keyword, r.value);
  }

  // ---- the anchored memory-access pattern ----

  /** The alternatives of the memory-access pattern's second group. */
  const SegmentNames: seq<string> :=
    ["argument", "local", "this", "that", "static", "pointer", "temp", "constant"]

  datatype MemoryCaptures = MemoryCaptures(operation: string, segment: string, index: string)

  /** `^(push|pop)\s+(argument|local|this|that|static|pointer|temp|constant)\s+(\d+)$`
      matched against a whole line. */
  function MatchMemory(s: string): Option<MemoryCaptures> {
    var a := OperationEnd(s);
    if a == 0 then None
    else
      var b := RunEnd(s, a, Space);
      var c := RunEnd(s, b, Token);
      var d := RunEnd(s, c, Space);
      if a < b && c < d && s[b..c] in SegmentNames && d < |s| && RunEnd(s, d, Digit) == |s|
      then Some(MemoryCaptures(s[..a], s[b..c], s[d..]))
      else None
  }

  /** The length of the `push|pop` alternative the line starts with, or 0. */
  function OperationEnd(s: string): nat {
    if StartsWith(s, "push") then 4 else if StartsWith(s, "pop") then 3 else 0
  }

  /** The language of the anchored memory-access regex, with its captures. */
  ghost predicate MemoryRegexMatches(s: string, m: MemoryCaptures) {
    && (m.operation == "push" || m.operation == "pop")
    && m.segment in SegmentNames
    && |m.index| > 0 && AllDigits(m.index)
    && exists w1: string, w2: string ::
         && |w1| > 0 && AllSpace(w1) && |w2| > 0 && AllSpace(w2)
         && s == m.operation + w1 + m.segment + w2 + m.index
  }

  lemma SegmentNamesAreTokens(name: string)
    requires name in SegmentNames
    ensures |name| > 0 && forall k :: 0 <= k < |name| ==> !IsSpace(name[k])
  {
  }

  /** What `MatchMemory` accepts is in the regex's language. */
  lemma MatchMemorySound(s: string)
    requires MatchMemory(s).Some?
    ensures MemoryRegexMatches(s, MatchMemory(s).value)
  {
    var a := OperationEnd(s);
    var b := RunEnd(s, a, Space);
    var c := RunEnd(s, b, Token);
    var d := RunEnd(s, c, Space);
    var m := MatchMemory(s).value;
    assert m == MemoryCaptures(s[..a], s[b..c], s[d..]);
    RunEndSpec(s, a, Space);
    RunEndSpec(s, c, Space);
    RunEndSpec(s, d, Digit);
    SliceRuns(s, a, b, Space);
    SliceRuns(s, c, d, Space);
    SliceRuns(s, d, |s|, Digit);
    Reassemble(s, a, b, c, d);
    MemoryRegexMatchesIntro(s, m, s[a..b], s[c..d]);
  }

  lemma SliceRuns(s: string, i: nat, j: nat, cls: CharClass)
    requires i <= j <= |s|
    requires forall k :: i <= k < j ==> In(s[k], cls)
    ensures cls == Space ==> AllSpace(s[i..j])
    ensures cls == Digit ==> AllDigits(s[i..j])
  {
    assert forall k :: 0 <= k < j - i ==> s[i..j][k] == s[i + k];
  }

  lemma Reassemble(s: string, a: nat, b: nat, c: nat, d: nat)
    requires a <= b <= c <= d <= |s|
    ensures s == s[..a] + s[a..b] + s[b..c] + s[c..d] + s[d..]
  {
    assert s[..b] == s[..a] + s[a..b];
    assert s[..c] == s[..b] + s[b..c];
    assert s[..d] == s[..c] + s[c..d];
    assert s == s[..d] + s[d..];
  }

  lemma MemoryRegexMatchesIntro(s: string, m: MemoryCaptures, w1: string, w2: string)
    requires m.operation == "push" || m.operation == "pop"
    requires m.segment in SegmentNames && |m.index| > 0 && AllDigits(m.index)
    requires |w1| > 0 && AllSpace(w1) && |w2| > 0 && AllSpace(w2)
    requires s == m.operation + w1 + m.segment + w2 + m.index
    ensures MemoryRegexMatches(s, m)
  {
  }

  /** The five pieces of a concatenation are its slices. */
  lemma SlicesOfConcat(s: string, p1: string, p2: string, p3: string, p4: string, p5: string)
    requires s == p1 + p2 + p3 + p4 + p5
    ensures s[..|p1|] == p1
    ensures s[|p1|..|p1| + |p2|] == p2
    ensures s[|p1| + |p2|..|p1| + |p2| + |p3|] == p3
    ensures s[|p1| + |p2| + |p3|..|p1| + |p2| + |p3| + |p4|] == p4
    ensures s[|p1| + |p2| + |p3| + |p4|..] == p5
  {
  }

  /** Which operation a line in the memory pattern's language starts with. */
  lemma OperationPrefix(s: string, op: string, w1: string, rest: string)
    requires op == "push" || op == "pop"
    requires |w1| > 0 && AllSpace(w1)
    requires s == op + w1 + rest
    ensures OperationEnd(s) == |op|
  {
    assert s[..|op|] == op;
    if op == "pop" {
      assert s[3] == w1[0];
      assert !IsSpace('h');
    }
  }

  /** Every line in the regex's language is accepted by `MatchMemory`, with
      the same captures. */
  lemma MatchMemoryComplete(s: string, m: MemoryCaptures, w1: string, w2: string)
    requires m.operation == "push" || m.operation == "pop"
    requires m.segment in SegmentNames && |m.index| > 0 && AllDigits(m.index)
    requires |w1| > 0 && AllSpace(w1) && |w2| > 0 && AllSpace(w2)
    requires s == m.operation + w1 + m.segment + w2 + m.index
    ensures MatchMemory(s) == Some(m)
  {
    var op, seg, idx := m.operation, m.segment, m.index;
    SlicesOfConcat(s, op, w1, seg, w2, idx);
    OperationPrefix(s, op, w1, seg + w2 + idx);
    var a := |op|;
    var b := a + |w1|;
    var c := b + |seg|;
    var d := c + |w2|;
    MemoryRuns(s, a, b, c, d);
    MatchMemoryAt(s, a, b, c, d);
  }

  /** The runs `MatchMemory` looks for, found in a line already cut into
      its pieces. */
  lemma MemoryRuns(s: string, a: nat, b: nat, c: nat, d: nat)
    requires a < b < c < d < |s|
    requires AllSpace(s[a..b]) && s[b..c] in SegmentNames && AllSpace(s[c..d]) && AllDigits(s[d..])
    ensures RunEnd(s, a, Space) == b && RunEnd(s, b, Token) == c && RunEnd(s, c, Space) == d
    ensures RunEnd(s, d, Digit) == |s|
  {
    SegmentNamesAreTokens(s[b..c]);
    assert s[b] == s[b..c][0] && s[c] == s[c..d][0] && s[d] == s[d..][0];
    RunOfSlice(s, a, s[a..b], Space);
    RunOfSlice(s, b, s[b..c], Token);
    RunOfSlice(s, c, s[c..d], Space);
    RunOfSlice(s, d, s[d..], Digit);
  }

  /** A slice made of characters of one class, followed by a character
      outside it, is the longest run there. */
  lemma RunOfSlice(s: string, i: nat, w: string, cls: CharClass)
    requires i + |w| <= |s| && s[i..i + |w|] == w
    requires forall k :: 0 <= k < |w| ==> In(w[k], cls)
    requires i + |w| == |s| || !In(s[i + |w|], cls)
    ensures RunEnd(s, i, cls) == i + |w|
  {
    forall k | i <= k < i + |w| ensures In(s[k], cls) {
      assert s[k] == w[k - i];
    }
    RunEndExact(s, i, i + |w|, cls);
  }

  /** `MatchMemory` when the runs it looks for end at `b`, `c`, `d`. */
  lemma MatchMemoryAt(s: string, a: nat, b: nat, c: nat, d: nat)
    requires 0 < a == OperationEnd(s) && a < b < c < d < |s|
    requires RunEnd(s, a, Space) == b && RunEnd(s, b, Token) == c && RunEnd(s, c, Space) == d
    requires s[b..c] in SegmentNames && RunEnd(s, d, Digit) == |s|
    ensures MatchMemory(s) == Some(MemoryCaptures(s[..a], s[b..c], s[d..]))
  {
  }
}
