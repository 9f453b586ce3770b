# Hack VM translator, modelled in Dafny

A model of the translation engine of `hack-isc-vm-translator`, a translator
from the stack-machine language of the Nand2Tetris VM (chapters 7 and 8 of
*The Elements of Computing Systems*) to Hack assembly. The engine reads a
`.vm` file line by line. It skips blank and comment lines and keeps track of
the enclosing function and of the calls made in it. It cleans each
instruction line and hands it to a first-match dispatcher, which offers it to
each command family's constructor in turn. `src/commands.rs` offers it to the
first three families below only; the corrected dispatcher of this model adds
the fourth, tried last (see the note on the build below):

- arithmetic and logic (`add`, `sub`, `neg`, `eq`, `gt`, `lt`, `and`, `or`, `not`);
- memory access (`push`/`pop` on eight segments);
- branching (`label`, `goto`, `if-goto`);
- functions (`function`, `call`, `return`).

The command it gets back generates a list of assembly lines.

The `label`, `goto` and `if-goto` patterns, like the functional ones, are
searched anywhere in the line, and the branching family is tried before the
functional one. A `call` or `function` line whose name contains `goto`,
`if-goto` or `label` followed by whitespace and a word is therefore read as a
branching command: `call Main.goto 2` is `goto 2` (`Commands.CallOfGotoIsGoto`).

Files, one module each:

- `wrappers.dfy`: `Option` and `Outcome`. An `Outcome` is either a value or
  a panic with its message. Rust panics (`unwrap`, `expect`,
  `unreachable!()`, debug-build overflow) are modelled as `Panic` values.
- `text.dfy`: the standard-library string operations used: `trim`,
  `starts_with`, the first piece of `split`, decimal printing and parsing.
- `patterns.dfy`: the regular expressions, written by hand. A leftmost
  search is proved against a declarative description of each regex's
  language.
- `hack.dfy`: assembly lines as text, and a syntactic measure of stack
  effects. It counts the `@SP`/`M=M+1` and `@SP`/`AM=M-1` idioms.
- `arithmetic.dfy`, `memory_access.dfy`, `branching.dfy`, `functional.dfy`:
  each family's constructor and generators.
- `commands.dfy`: the dispatcher and the `Command` datatype that replaces
  the `Box<dyn Command>` trait objects.
- `parser.dfy`: `clean`, and the `Parser` class with its cursor `nth`, the
  enclosing `functionName` and the call counter `ret`. It has
  `HasMoreCommand` and `Advance`.

Where the source has defects, both the code as written and the corrected
behaviour are modelled (see Findings). The crate as given does not build:
`src/commands.rs` declares no `functional` module and its `new` takes three
arguments, while `advance` passes four. The model reads the body of `new`
on its own as written, and adds the functional family, tried last, in the
corrected dispatcher. The rest of the model, and the
dispatcher `Commands.Dispatch` in particular, uses the corrected versions.

## Model

| member | source | states |
|---|---|---|
| Arithmetic.Parse | src/commands/arithmetic.rs:22-40 | `new`: the operator whose keyword is the whole line, else `None`; its meaning is stated by `ParseIffKeyword` and `ParseRejectsOthers` |
| Arithmetic.Generate | src/commands/arithmetic.rs:110-118 | `generate`: binary, unary or comparison code by operator; the layouts and stack effects are stated by the lemmas below |
| Arithmetic.ParseIffKeyword | src/commands/arithmetic.rs:22-40 | `new` accepts a line as operator `op` exactly when the whole line is `op`'s keyword |
| Arithmetic.ParseRejectsOthers | src/commands/arithmetic.rs:23-33 | any line that is none of the nine keywords yields `None` |
| Arithmetic.BinaryCodeLayout | src/commands/arithmetic.rs:44-68 | add/sub/and/or emit 13 lines that agree everywhere except the compute line at index 9 |
| Arithmetic.SubtractsTopFromSecond | src/commands/arithmetic.rs:53-63 | `sub` pops the top into R13, loads the second cell into D and computes `D=D-M`: second minus top |
| Arithmetic.BinaryCodeMoves | src/commands/arithmetic.rs:53-67 | a binary command decrements SP exactly once and never increments it |
| Arithmetic.UnaryCodeShape | src/commands/arithmetic.rs:70-76 | `neg`/`not` are 3 lines: point at the top cell, then `M=-M` or `M=!M`; they do not move SP |
| Arithmetic.ComparisonCodeLayout | src/commands/arithmetic.rs:78-107 | a comparison is 19 lines: it pops y into D, points A at the new top and loads x with `A=M`, computes x−y with `D=A-D`, jumps to `MINUS_ONE` on JEQ/JGT/JLT, otherwise writes 0 over the top and jumps to `END`; `(MINUS_ONE)` writes −1 over the top; `(END)` closes it |
| Arithmetic.ComparisonCodeMoves | src/commands/arithmetic.rs:86-106 | a comparison decrements SP exactly once and never increments it |
| Arithmetic.GenerateStackEffect | src/commands/arithmetic.rs:110-118 | the net stack effect of `generate` is 0 for `neg`/`not` and −1 for every other operator |
| Arithmetic.ComparisonLabelsRepeat | src/commands/arithmetic.rs:94-105 | two comparisons declare the same `(MINUS_ONE)` and `(END)` labels, so the labels are not unique |
| Branching.Parse | src/commands/branching.rs:19-47 | `new`: the first of `if-goto`, `goto`, `label` whose pattern occurs in the line, with the captured label; stated by `ParseSpec` and `ParseResult` |
| Branching.Generate | src/commands/branching.rs:76-83 | `generate`: the if-goto, goto or label code of the symbol `F$L`; stated by `JumpsReachLabel` and `GenerateMoves` |
| Branching.IfGotoMatchesGoto | src/commands/branching.rs:24-28 | every line the `if-goto` pattern matches is also matched by the `goto` pattern, which is why `if-goto` is tried first |
| Branching.ParseSpec | src/commands/branching.rs:18-47 | `new` accepts a line exactly when the goto or label pattern occurs in it; the first pattern found in the order if-goto, goto, label decides the type; the label is the captured non-empty word; file and function are passed through |
| Branching.ParseResult | src/commands/branching.rs:30-45 | the loop of `new` is a first-match chain over the three patterns |
| Branching.SearchCaptures | src/commands/branching.rs:32-33 | a successful search captures a non-empty word of `\w` characters as group 1 |
| Branching.JumpsReachLabel | src/commands/branching.rs:50-73 | `if-goto` L is 5 lines: it pops the top into D, loads `@F$L` and ends with `D;JNE`; `goto` L is 2 lines, `@F$L` then `0;JMP`; both load the same `F$L` symbol that `label L` in the same function declares, and the label emits exactly `["(F$L)"]` |
| Branching.GenerateMoves | src/commands/branching.rs:50-83 | `if-goto` decrements SP exactly once (it pops the condition); `goto` and `label` do not move SP |
| Branching.SymbolInjective | src/commands/branching.rs:55 | labels of different functions, or with different names, give different symbols |
| Branching.TopLevelSymbol | src/commands/branching.rs:62 | outside any function, label L becomes `$L` |
| MemoryAccess.Parse | src/commands/memory_access.rs:32-72 | `new` with the operation read from capture 1 and a `constant` arm; stated by `ParseSpec`, `ParseSound`, `ParseComplete` and `ParseFormat` |
| MemoryAccess.ParseAsWritten | src/commands/memory_access.rs:32-72 | `new` as written; stated by `ParseAsWrittenPanics` |
| MemoryAccess.Generate | src/commands/memory_access.rs:216-234 | `generate`: the push or pop code of the segment, with the `temp` `i+5` overflow as a panic; stated by `GeneratePanics`, `PushLayout`, `PushMoves`, `PopMoves`, `PopLayout` and `PushPopSameAddress` |
| MemoryAccess.KeywordsRoundTrip | src/commands/memory_access.rs:40-55 | the intended keyword-to-operation and keyword-to-segment mappings invert the keyword spellings |
| MemoryAccess.KeywordsRoundTripBack | src/commands/memory_access.rs:34 | each captured keyword is the spelling of the operation or segment it maps to |
| MemoryAccess.ParseSpec | src/commands/memory_access.rs:32-72 | the corrected `new` yields `cmd` exactly when the line spells `cmd` with whitespace between the parts, the index fits an `i16`, and a `pointer` index is 0 or 1 |
| MemoryAccess.ParseSound | src/commands/memory_access.rs:33-63 | whatever the corrected `new` returns is valid and spelt out by the line |
| MemoryAccess.ParseComplete | src/commands/memory_access.rs:33-71 | every valid command spelt out by a line is returned for it |
| MemoryAccess.ParseFormat | src/commands/memory_access.rs:32-72 | every valid command is read back from its canonical spelling `op segment i` |
| MemoryAccess.ParseAsWrittenPanics | src/commands/memory_access.rs:38-44 | as written, every line the anchored pattern accepts panics with `unreachable`, and every other line gives `None` |
| MemoryAccess.AsWrittenPanicsOnEveryCommand | src/commands/memory_access.rs:40-44 | every valid command panics as written when spelt out, and the corrected `new` reads it back |
| MemoryAccess.ConstantSegmentAsWritten | src/commands/memory_access.rs:46-55 | the segment match has no `constant` arm and panics on it; it agrees with the intended mapping on the other seven names |
| MemoryAccess.GeneratePanics | src/commands/memory_access.rs:137-146 | code generation panics only on a `temp` index whose `i+5` overflows an `i16` |
| MemoryAccess.PushMoves | src/commands/memory_access.rs:76-146 | every push ends with `@SP, M=M+1, A=M-1, M=D`, increments SP exactly once and never decrements it |
| MemoryAccess.PopMoves | src/commands/memory_access.rs:150-213 | every pop decrements SP exactly once and never increments it; `pop constant` is exactly `@SP, AM=M-1` |
| MemoryAccess.PushLayout | src/commands/memory_access.rs:76-146 | `push constant i` is `@i, D=A` then the push of D, and its digits read back as `i`; a `local`/`argument`/`this`/`that` push is `@i, D=A, @BASE, A=D+M, D=M` then the push, 9 lines; a pointer/temp/static push is `@REG, D=M` then the push, 6 lines, where REG is THIS/THAT for pointer 0/1, the number `5+i` for temp and `file.i` for static |
| MemoryAccess.PopLayout | src/commands/memory_access.rs:150-213 | a `local`/`argument`/`this`/`that` pop computes base+i with `D=D+M` and stores it in R13, only then pops with `@SP, AM=M-1, D=M`, and writes D through `@R13, A=M, M=D`; a pointer/temp/static pop is `@SP, AM=M-1, D=M` then `@REG, M=D` |
| MemoryAccess.PushPopSameAddress | src/commands/memory_access.rs:76-213 | push and pop of the same segment and index address the same cell: the same register for pointer/temp/static (pointer 0 is THIS, 1 is THAT, temp i is `i+5`), and the same `@i, D=A, @BASE` prefix for the pointer-based segments |
| MemoryAccess.StaticSymbolInjective | src/commands/memory_access.rs:126-135 | `file.i` symbols of different files or indices are different |
| Functional.Parse | src/commands/functional.rs:21-65 | `new` with `call` tried before `return`; stated by `ParseSpec`, `ParsePanics` and `TrySpec` |
| Functional.ParseAsWritten | src/commands/functional.rs:21-65 | `new` as written, `return` tried before `call`; stated by `ReturnShadowsCall` |
| Functional.Code | src/commands/functional.rs:212-219 | `generate` for a function command, with the call's `5+arg` overflow as a panic; the method `Generate` is proved to compute it |
| Functional.ParseUnfold | src/commands/functional.rs:27-63 | the loop of `new` is a first-match chain: function, return, call as written; function, call, return corrected |
| Functional.SearchCaptures | src/commands/functional.rs:38-49 | a `function`/`call` match captures a non-empty name and a digit string, whose `u16` parse panics exactly when its value exceeds 65535; `return` captures nothing and its count is 0 |
| Functional.TrySpec | src/commands/functional.rs:38-58 | one successful iteration panics exactly when the captured count exceeds 65535, builds a command exactly when there is an enclosing function, and passes file, function, `ret`, type, captured name and captured count (0 for `return`) through |
| Functional.ParseSpec | src/commands/functional.rs:20-65 | the first of `function`, `call`, `return` found in the line decides; with none `new` gives `None`. Otherwise it panics exactly when that pattern's count exceeds 65535. It builds a command exactly when the count fits and there is an enclosing function. The command carries file, enclosing function, `ret`, the deciding type, the captured name and the captured count (0 for `return`), and is valid |
| Functional.ParsePanics | src/commands/functional.rs:36-43 | a line panics exactly when the pattern that decides it is `function` or `call` and its count does not fit a `u16` |
| Functional.ReturnShadowsCall | src/commands/functional.rs:27-34 | as written, a line holding both a call and the text `return` becomes a `return`; with `call` tried first it is a call |
| Functional.CallOfReturnZero | src/commands/functional.rs:32-33 | `call Main.returnZero 0` is read as `return` as written, and as a call once corrected |
| Functional.GenerateFunctionCommand | src/commands/functional.rs:68-84 | the loop builds exactly `FunctionCode(name, k)` |
| Functional.FunctionCodeShape | src/commands/functional.rs:68-84 | `function f k` is `(f)` followed by k copies of `@SP, M=M+1, A=M-1, M=0`: 1+4k lines, and SP moves up by k |
| Functional.Generate | src/commands/functional.rs:212-219 | `generate` picks the generator by command type; a call whose `5+arg` overflows a `u16` panics |
| Functional.CallCodeShape | src/commands/functional.rs:147-209 | a call is 43 lines. Its first line is `@F$ret.n`. It pushes the return address, LCL, ARG, THIS and THAT in that order, each value followed by the same four-line push of D (`@SP`, `M=M+1`, `A=M-1`, `M=D`). It sets ARG = SP−(5+nArgs) and LCL = SP, and jumps to `@callee`. Its last line is `(F$ret.n)` |
| Functional.CallCodeMoves | src/commands/functional.rs:155-190 | a call increments SP exactly five times and never decrements it |
| Functional.ReturnCodeShape | src/commands/functional.rs:86-145 | `return` is one constant 48-line sequence. It saves LCL−5 in R13 before writing ARG[0], sets SP = ARG+1, restores THAT, THIS, ARG and then LCL from LCL−1…−4, and jumps through R13 |
| Functional.ReturnCodeMoves | src/commands/functional.rs:86-145 | `return` never increments or decrements SP; it assigns SP outright |
| Functional.ReturnLabelInjective | src/commands/functional.rs:148-151 | return labels of different functions or call numbers are different |
| Commands.DispatchAsWritten | src/commands.rs:16-40 | the body of `new` as written: arithmetic, memory access (as written), branching; stated by `AsWrittenAgainstDispatch` |
| Commands.Dispatch | src/commands.rs:16-40 | `new` with the corrected memory constructor and the functional family tried last; stated by `ArithmeticFirst`, `MemoryAccessDispatch`, `BranchingDispatch`, `FunctionalDispatch`, `DispatchRejects` and `DispatchValid` |
| Commands.Generate | src/commands.rs:9-11 | the `Command::generate` of each family; stated by `GeneratePanics` and `GenerateStackEffect` |
| Commands.DispatchValid | src/commands.rs:16-40 | every command the dispatcher builds satisfies what its generator needs |
| Commands.ArithmeticFirst | src/commands.rs:21-25 | a line is dispatched as arithmetic operator `op` exactly when it is `op`'s keyword, by both dispatchers |
| Commands.MemoryAccessDispatch | src/commands.rs:27-31 | a line is dispatched as memory access `m` exactly when the memory constructor yields `m`, that is, exactly when the line spells the valid command `m` of this file |
| Commands.KeywordsAreNotMemoryCommands | src/commands.rs:21-31 | no arithmetic keyword is a memory-access command, so the order of the first two tries does not matter |
| Commands.FunctionalDispatch | src/commands/functional.rs:21-65 | a line is dispatched as function command `f` exactly when no earlier family accepts it and the functional constructor yields `f`; `f` then carries the file, the enclosing function and `ret`, the first functional pattern found as its type, and that pattern's captured name and count |
| Commands.BranchingDispatch | src/commands.rs:33-37 | a line is dispatched as branching command `b` exactly when no earlier family accepts it and the branching constructor yields `b`; file and function are passed unchanged |
| Commands.DispatchRejects | src/commands.rs:39 | the result is `None` exactly when every constructor gives up; a panic comes only from the functional constructor, with its message |
| Commands.AsWrittenAgainstDispatch | src/commands.rs:16-40 | the dispatcher as written panics on every memory-access line; on every other line it agrees with the corrected one, except that it rejects whatever the functional branch would decide |
| Commands.ReturnIsNeverDispatched | src/commands.rs:16-40 | a bare `return` in a function is rejected by the body of `new` as written, and is dispatched as a return by the corrected dispatcher |
| Commands.CallOfGotoIsGoto | src/commands/branching.rs:24-33 | the branching patterns are searched anywhere in the line and tried before the functional family, so `call Main.goto 2` is dispatched as `goto 2`, a jump to label `2` |
| Commands.GeneratePanics | src/commands.rs:9-11 | generation panics exactly on a temp index past 32762 or a call with more than 65530 arguments |
| Commands.GenerateStackEffect | src/commands.rs:9-11 | the code of every command moves SP by its stack effect, and `return` assigns SP instead. The effects are: +1 for push; −1 for pop, binary operators, comparisons and `if-goto`; 0 for `neg`, `not`, `goto` and `label`; +k for `function f k`; +5 for call |
| Text.BeforeFirst | src/parser.rs:33 | the first piece of `split("//")`: a prefix of the line without `//`, shorter than the line exactly when the line contains `//`, and then followed by it |
| Text.TrimSpec | src/parser.rs:33 | `trim` returns a slice of the line with only whitespace around it |
| Text.TrimStartSpec | src/parser.rs:33 | `trim_start` removes exactly a whitespace prefix and stops at the first visible character |
| Text.TrimEndSpec | src/parser.rs:33 | `trim_end` removes exactly a whitespace suffix and stops at the last visible character |
| Text.TrimEnds | src/parser.rs:33 | the trimmed text neither starts nor ends with whitespace |
| Text.NatToString | src/commands/memory_access.rs:86 | decimal printing produces a non-empty digit string |
| Text.DigitsValueOfNatToString | src/commands/memory_access.rs:57 | parsing the printed decimal form gives the number back |
| Text.ParseNumberOfNatToString | src/commands/functional.rs:40 | a number is read back from its decimal form exactly when it fits the target type |
| Patterns.MatchAtIffRegex | src/commands/branching.rs:25-27 | the greedy matcher finds a match at a position exactly when the regex's language has one there |
| Patterns.RunEndSpec | src/commands/branching.rs:25-27 | a greedy repetition takes the longest run of its class: every character up to its end is in the class, and the one at the end is not |
| Patterns.LeftmostFromSpec | src/commands/functional.rs:30-33 | the search position found is a match, and no position between the start and it is one |
| Patterns.FindSpec | src/commands/functional.rs:30-33 | the search reports a match exactly when the regex matches somewhere, and then the captures of the leftmost match |
| Patterns.FindCaptures | src/commands/branching.rs:32-33 | the groups a successful search reports, for each of the three pattern shapes |
| Patterns.MatchAtCaptures | src/commands/branching.rs:32-33 | the groups of a match found at a given position, for each of the three pattern shapes |
| Patterns.WordAfterCaptures | src/commands/branching.rs:32-33 | `keyword\s+(\w+)` captures a non-empty word of word characters |
| Patterns.NameAndCountCaptures | src/commands/functional.rs:30-33 | `keyword\s+([\w\.]+)\s+(\d+)` captures a non-empty name and a non-empty digit string |
| Patterns.FindAt | src/commands/branching.rs:30-33 | a match with no occurrence of the keyword before it is the one the search reports |
| Patterns.AbsentLetter | src/commands/branching.rs:30-33 | a line lacking some letter of a keyword holds no match of its pattern |
| Patterns.MatchMemorySound | src/commands/memory_access.rs:34 | what the anchored matcher accepts is in the memory-access regex's language, with the same captures |
| Patterns.MatchMemoryComplete | src/commands/memory_access.rs:34 | every line in the memory-access regex's language is accepted, with its captures |
| Hack.SymbolLinesInjective | src/commands/branching.rs:67-73 | distinct symbols give distinct `@` lines and distinct label lines |
| Parser.NextCommand | src/parser.rs:40-46 | the line `has_more_command` stops at; stated by `NextCommandSpec` |
| Parser.Update | src/parser.rs:48-61 | the change `has_more_command` makes to the function name and call counter; stated by `UpdateSpec` |
| Parser.Scan | src/parser.rs:36-69 | the context after successive `has_more_command` calls stop at the given lines; stated by `ScanCountsCalls`, `CallsCountUp` and `CallsGetDistinctLabels` |
| Parser.SkippedTrimmed | src/parser.rs:42-46 | a line is skipped exactly when its trimmed text is empty or starts with `//` |
| Parser.NextCommandSpec | src/parser.rs:40-46 | the next command line is the first line at or after the cursor that is not skipped |
| Parser.UpdateSpec | src/parser.rs:48-61 | a `function` line sets the function to the captured name and resets the count, then adds one if the line also holds a call; any other line adds one exactly when it holds a call |
| Parser.Clean | src/parser.rs:32-34 | `clean` returns text with no `//` and no surrounding whitespace |
| Parser.CleanIdempotent | src/parser.rs:32-34 | cleaning a cleaned line changes nothing |
| Parser.CleanOfCommand | src/parser.rs:41-46 | a line `has_more_command` stops at cleans to a non-empty instruction |
| Parser.ScanCountsCalls | src/parser.rs:57-61 | inside one function, the count after some lines is the count on entry plus the number of those lines holding a call |
| Parser.CallsCountUp | src/parser.rs:57-61 | two calls in the same function get strictly increasing counts |
| Parser.CallsGetDistinctLabels | src/parser.rs:57-61 | two calls in the same function get different return labels |
| Parser.Parser.constructor | src/parser.rs:16-30 | a new parser starts before the first line with no function and count 0 |
| Parser.Parser.HasMoreCommand | src/parser.rs:36-69 | on true, `nth` becomes the 1-based index of the first non-skipped line at or after the old `nth`, so it strictly increases, and the context is updated from that trimmed line; on false, nothing changes |
| Parser.Parser.UpdateContext | src/parser.rs:48-61 | the context changes as `Update` says |
| Parser.Parser.Advance | src/parser.rs:71-92 | `advance` returns the cleaned line `nth−1` and the command the dispatcher builds from it with the current function and count; it panics exactly when `nth` is 0 (subtract overflow), when the line is missing, or when the dispatcher panics or recognises nothing |

## Left out

- Reading the file (`Parser::new`'s `fs::read_to_string` and file-name extraction) is not modelled. The parser is given the lines and the file name. The line splitting of `str::lines` is not modelled either.
- `src/main.rs` (the driver loop and its output) and `src/args_parser.rs` (command-line handling) are not part of this model.
- Regex compilation is taken to succeed, because the patterns are constants. Only the specific patterns are modelled, not a general regex engine.
- Patterns.FindSpec: `\w` and `\d` are taken to be their ASCII parts. The regex crate's Unicode classes also accept other letters and digits, so a line using non-ASCII letters or digits in a name or a count may be read differently.
- The `command` field that `ArithmeticCommand` and `MemoryAccessCommand` store is never read by the generators and is left out.
- The emitted assembly is never run. Stack effects are stated syntactically, by counting the SP-adjusting idioms.
- Overflow follows a debug build: `temp` `i+5` in `i16`, `call` `5+arg` in `u16`, and the `u16` count parse are panics. Release-build wrap-around is not modelled.
- Parser.Parser.constructor: requires the file to have at most 65535 lines. The `u16` call counter grows by at most one per line, so it cannot overflow. A longer file, where `self.ret += 1` could panic, is not modelled.
- MemoryAccess.Generate and Functional.Code require the invariants that every constructed command satisfies: a pointer index of 0 or 1, and a callee name on function and call commands. The `unreachable!()` and `expect` panics guarding those cases therefore cannot occur, and are not modelled.
- Comparison labels are the fixed `MINUS_ONE`/`END` for every comparison. No uniqueness is claimed; `Arithmetic.ComparisonLabelsRepeat` states the repetition.

## Findings

| source | as written | input that shows it | evidently intended | confidence | as-written member | corrected member |
|---|---|---|---|---|---|---|
| src/commands/memory_access.rs:40 | the operation is read from capture 2, the segment name, so the match always reaches `unreachable!()` | `push local 0` (every line the pattern accepts) | read the operation from capture 1 (`push`/`pop`) | high; not executed | MemoryAccess.AsWrittenPanicsOnEveryCommand | MemoryAccess.ParseFormat |
| src/commands/memory_access.rs:46-55 | the segment match has no `constant` arm, although the pattern accepts `constant` and `generate` handles it | `push constant 7`; latent, since line 40's `unreachable!()` is reached first | map `constant` to `Constant` | high; not executed | MemoryAccess.ConstantSegmentAsWritten | MemoryAccess.ParseSpec |
| src/commands/functional.rs:27-34 | the unanchored `return` pattern is tried before `call`, so a call whose callee name contains `return` becomes a `return` | `call Main.returnZero 0`; latent, since no module declares `functional`, so `functional.rs` is not built | the line is a call | medium; not executed | Functional.CallOfReturnZero | Functional.ParseSpec |
| src/commands.rs:1-40 | the dispatcher has no functional family (no `mod functional` either), and it takes three arguments where `src/parser.rs:81-89` passes four (`ret`), so the crate does not build as given; `Commands.DispatchAsWritten` models the body of `new` alone | `return`, read by the body of `new`: no family accepts it; latent, since the crate does not build | a fourth branch, tried last, that builds function commands with `ret` | high; not executed | Commands.AsWrittenAgainstDispatch | Commands.DispatchRejects |
