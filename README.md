# Tumbler supervisor core, modelled in Dafny

Tumbler keeps a fixed group of external programs running. The model covers four parts of it.

- **Parsing the command line.** Tumbler can be started with positional arguments: a watch interval, then groups of (command line, start delay, end delay). Two parsers read them. `Program.ParseArgs` fills a process list and two delay tables. `WatchedProcessFactory.CreateWatchedProcesses` produces a list of process specifications.
- **Starting and stopping the group.** `Program.StartAll` starts every listed command in order, sleeping each one's start delay after it. It keeps the process ids whose end delay is not -1 for watching. `Program.StopAll` reverses that list in place and stops each process, sleeping its end delay after it.
- **Each supervised program.** The `WatchedProcess` class trims and decomposes its command line once, at construction, into an executable path, an argument string and a validity flag. `Start`, `TryStop` and a once-a-day `TryRestart` then update its runtime fields.
- **Two date helpers.** `IsTimePast` compares two times of day. `ToDiagnosticString` renders the "[yyyy-MM-dd HH:mm:ss] " stamp for log lines.

The model puts all of this in nine modules:

| module | file | contents |
|---|---|---|
| `Wrappers` | `wrappers.dfy` | the `Option` type |
| `Clock` | `clock.dfy` | the valid .NET `DateTime` values |
| `Strings` | `strings.dfy` | the .NET string operations the code relies on (see below) |
| `TimeOfDay` | `time_of_day.dfy` | `IsTimePast` |
| `DiagnosticStamp` | `diagnostic_stamp.dfy` | `ToDiagnosticString` |
| `ArgGroups` | `arg_groups.dfy` | the positional layout both parsers share |
| `Factory` | `factory.dfy` | `CreateWatchedProcesses` |
| `WatchedProcesses` | `watched_process.dfy` | `SplitCommandLine` and the class `WatchedProcess` |
| `Supervisor` | `program.dfy` | `ParseArgs`, `StartAll` and `StopAll`, with the class `Supervisor` holding Program's static fields |

`Strings` covers these operations:
- `Trim` and `Trim(char)`;
- ordinal `IndexOf` and `LastIndexOf`;
- `Split(" ", RemoveEmptyEntries)` and `String.Join`;
- `Int32.TryParse`;
- the regular expression `^\d+$`;
- unchecked 32-bit multiplication.

The operating system and the clock are parameters everywhere:
- **Process ids.** The pids `Process.Start` hands out are an argument of `Supervisor.StartAll`.
- **The process table.** It is the field `Live`, the pids `Process.GetProcessById` finds.
- **Closing a window.** Whether `CloseMainWindow` succeeds is the set `closes`.
- **Launch and stop outcomes.** What launching or stopping a `WatchedProcess` did is a `LaunchOutcome` or `StopOutcome` argument.
- **The clock.** `DateTime.Now` is passed in.
- **Sleeps.** Every `Thread.Sleep` is recorded as a duration in a ghost sequence `Sleeps`.
- **Status messages and stops.** Status-callback messages collect in `Reports`. The processes `StopAll` stops collect in `Stops`.

Each loop of the source is a method whose loop invariant ties its locals to a recursive specification function. The lemmas state the source's promises about those functions:
- `ParseArgs` → `ArgLoop`;
- `StartAll` → `LaunchAll`;
- `StopAll` → `StopEach`;
- `CreateWatchedProcesses` → `ParseGroups`.

Points where the code behaves in a way a reader might not expect, all modelled as written:
- `IsTimePast` is strict: equal times of day are past neither way (`IsTimePastIsStrict`).
- A command line `''` gives a valid, empty executable path (`EmptyQuotedPathIsValid`).
- `TryRestart` compares only the day of the month with the last restart, not the calendar date (`RestartIgnoresMonth`).
- The space-split branch of `SplitCommandLine` splits on U+0020 only. A tab or a lone single quote stays inside its token (`SpacedCommandLine`, `OneQuoteIsPlain`).
- `Start` sends no status message when `Process.Start` returns null (`StartReports`).
- `Start` never resets `IsStartedSuccessfully`, and `TryStop` never resets `IsStoppedSuccessfully`: each flag, once true, stays true.
- `TryStop` swallows every exception of closing or killing, without a message. After a successful stop the handle is closed, so a second `TryStop` before the next start fails silently.
- `StopAll` stops the watched list in reverse start order. `ParseArgs` keys its delay tables by command string, so a repeated command makes `Dictionary.Add` throw (`DuplicateCommandRejected`).

## Model

| member | source | states |
|---|---|---|
| Strings.TrimStartBy | Tumbler/Model/WatchedProcess.cs:64 | the result is a suffix of the input that does not start with a trimmed character, and every character removed is one the trim removes |
| Strings.TrimEndBy | Tumbler/Model/WatchedProcess.cs:64 | the result is a prefix of the input that does not end with a trimmed character, and every character removed is one the trim removes |
| Strings.TrimBy | Tumbler/Model/WatchedProcess.cs:186-187 | the result is a slice s[i..j] whose two ends are kept characters, and every character outside the slice is trimmed |
| Strings.Trim | Tumbler/Model/WatchedProcess.cs:64 | String.Trim() leaves neither leading nor trailing white space |
| Strings.TrimIdempotent | Tumbler/Model/WatchedProcess.cs:64 | trimming an already trimmed line changes nothing |
| Strings.TrimByKeeps | Tumbler/Model/WatchedProcess.cs:203 | a string whose ends are kept characters is its own trim |
| Strings.TrimByAllDropped | Tumbler/Model/WatchedProcess.cs:186 | a string made only of trimmed characters trims to the empty string |
| Strings.IndexOf | Tumbler/Model/WatchedProcess.cs:181 | -1 exactly when the character is absent; otherwise a position holding it with no earlier occurrence |
| Strings.LastIndexOf | Tumbler/Model/WatchedProcess.cs:182 | -1 exactly when the character is absent; otherwise a position holding it with no later occurrence |
| Strings.TokenLength | Tumbler/Model/WatchedProcess.cs:199 | the length of the leading run of non-space characters: all before it are not spaces, and the next one is a space |
| Strings.SplitOnSpace | Tumbler/Model/WatchedProcess.cs:199 | every token is non-empty and holds no space (RemoveEmptyEntries); which tokens they are is stated by SplitOnSpaceLayout and SplitOnSpaceOfSpread |
| Strings.SplitOnSpaceLayout | Tumbler/Model/WatchedProcess.cs:199 | every string is a run of leading spaces followed by the split's tokens in order, each token followed by its own run of spaces and consecutive tokens at least one space apart |
| Strings.SplitOnSpaceOfSpread | Tumbler/Model/WatchedProcess.cs:199 | conversely, for every such layout of non-empty space-free tokens the split returns exactly those tokens: runs of spaces before, between and after them are dropped, and other white space stays in its token |
| Strings.Join | Tumbler/Model/WatchedProcess.cs:203 | String.Join; SplitJoinRoundTrip (split undoes a single-space join), JoinEnds and JoinAvoids state its behaviour |
| Strings.SplitJoinRoundTrip | Tumbler/Model/WatchedProcess.cs:199-203 | splitting a single-space join of non-empty space-free tokens gives the tokens back |
| Strings.TokenLengthOfToken | Tumbler/Model/WatchedProcess.cs:199 | a space-free token followed by a space or the end has its own length as token length |
| Strings.DigitChar | Tumbler/Helpers/DateTimeHalper.cs:11 | the character is an ASCII digit of the given value |
| Strings.NatToDigits | Tumbler/Helpers/DateTimeHalper.cs:11 | a non-empty digit string without a leading zero |
| Strings.NatToDigitsRoundTrip | Tumbler/Helpers/DateTimeHalper.cs:11 | the rendering reads back as the number |
| Strings.PadDigits | Tumbler/Helpers/DateTimeHalper.cs:11 | the zero-padded rendering is all digits and at least the field width long |
| Strings.DigitsValueLeadingZeros | Tumbler/Helpers/DateTimeHalper.cs:11 | leading zeros do not change the value |
| Strings.AllZerosValue | Tumbler/Helpers/DateTimeHalper.cs:11 | a run of zeros reads as 0 |
| Strings.PadDigitsExact | Tumbler/Helpers/DateTimeHalper.cs:11 | a number below 10^width pads to exactly `width` digits that read back as the number |
| Strings.Pow10 | Tumbler/Helpers/DateTimeHalper.cs:11 | powers of ten are positive |
| Strings.NatToDigitsLength | Tumbler/Helpers/DateTimeHalper.cs:11 | a number below 10^width has at most `width` digits |
| Strings.SkipWhiteForward | Tumbler/ConfigurationParsing/WatchedProcessFactory.cs:36 | an index at or after the start, within the string |
| Strings.SkipWhiteForwardStops | Tumbler/ConfigurationParsing/WatchedProcessFactory.cs:36 | everything skipped is number white space and the stop is at a character that is not |
| Strings.SkipWhiteBackward | Tumbler/ConfigurationParsing/WatchedProcessFactory.cs:36 | an index at or before the end position |
| Strings.SkipWhiteBackwardStops | Tumbler/ConfigurationParsing/WatchedProcessFactory.cs:36 | everything skipped is number white space and the stop is just after a character that is not |
| Strings.ValueBetweenIsDigitsValue | Tumbler/ConfigurationParsing/WatchedProcessFactory.cs:36 | the positional reading of a range succeeds exactly on ASCII digits and then equals their decimal value |
| Strings.Signed | Tumbler/ConfigurationParsing/WatchedProcessFactory.cs:36 | a missing magnitude gives None; a result is the magnitude, negated after a minus sign, inside the Int32 range |
| Strings.Scan | Tumbler/ConfigurationParsing/WatchedProcessFactory.cs:36 | the character scanner of Int32.TryParse; ScanLeading, ScanAfterSign, ScanDigits and ScanTrailing state the result from each of its states |
| Strings.TryParseInt32 | Tumbler/ConfigurationParsing/WatchedProcessFactory.cs:36 | int.TryParse; TryParseInt32IsInt32Reading equates it on every string with the positional reading (white space, optional sign, digits, white space, Int32 range), and TryParseInt32RoundTrip and TryParseInt32NeedsADigit state what it accepts and rejects |
| Strings.TryParseInt32IsInt32Reading | Tumbler/ConfigurationParsing/WatchedProcessFactory.cs:36-40 | the character scanner of Int32.TryParse agrees, on every string, with the positional reading: white space, an optional sign, at least one digit, white space, value within Int32 |
| Strings.NonWhiteBeforeEnd | Tumbler/ConfigurationParsing/WatchedProcessFactory.cs:36 | a character that is not white space lies before the trailing white space |
| Strings.ValueBetweenStopsAt | Tumbler/ConfigurationParsing/WatchedProcessFactory.cs:36 | a non-digit inside a range makes its reading fail |
| Strings.ScanLeading | Tumbler/ConfigurationParsing/WatchedProcessFactory.cs:36 | the scanner skips leading white space |
| Strings.ScanAfterSign | Tumbler/ConfigurationParsing/WatchedProcessFactory.cs:36 | after the sign the scanner reads the signed digits up to the trailing white space |
| Strings.ScanDigits | Tumbler/ConfigurationParsing/WatchedProcessFactory.cs:36 | inside the digits the scanner yields the signed value of the whole digit run |
| Strings.ScanTrailing | Tumbler/ConfigurationParsing/WatchedProcessFactory.cs:36 | after the digits only white space is accepted |
| Strings.TryParseInt32RoundTrip | Tumbler/ConfigurationParsing/WatchedProcessFactory.cs:52-62 | TryParse reads back the decimal rendering of every 32-bit value, negative ones included |
| Strings.TryParseInt32NeedsADigit | Tumbler/ConfigurationParsing/WatchedProcessFactory.cs:52-62 | text without a digit is rejected |
| Strings.MatchesDigitsPattern | Tumbler/Program.cs:121-123 | Regex.Match with ^\d+$ as a left-to-right scan; MatchesDigitsPatternIsDigitLine states exactly which strings match |
| Strings.MatchesDigitsPatternIsDigitLine | Tumbler/Program.cs:121-123 | the left-to-right match of ^\d+$ accepts exactly one or more \d characters, optionally followed by one final newline |
| Strings.DigitsPatternFromIff | Tumbler/Program.cs:121-123 | the match from position i holds exactly when the rest is \d characters with an optional final newline |
| Strings.PatternBody | Tumbler/Program.cs:121-123 | a matching string is its non-empty run of \d characters, possibly with one newline after it |
| Strings.ParseOfDigitsPattern | Tumbler/Program.cs:121-125 | Int32.Parse on a string matching ^\d+$ succeeds exactly when its digits are ASCII and at most INT32_MAX, and then returns their value |
| Strings.Wrap32 | Tumbler/Program.cs:125 | the 32-bit two's complement value congruent to x modulo 2^32, equal to x when x fits |
| TimeOfDay.SecondsFromMidnight | Tumbler/Helpers/DateTimeHelper.cs:23-26 | in [0, 86399], with hour, minute and second recoverable by division |
| TimeOfDay.IsTimePast | Tumbler/Helpers/DateTimeHelper.cs:21-34 | the seconds-from-midnight comparison; the IsTimePastIs* lemmas state that it is the strict lexicographic order on (hour, minute, second), ignores the date, and is asymmetric, transitive and total up to equal times |
| TimeOfDay.IsTimePastIsLexicographic | Tumbler/Helpers/DateTimeHelper.cs:21-34 | IsTimePast holds exactly when (hour, minute, second) is lexicographically later |
| TimeOfDay.IsTimePastIgnoresDate | Tumbler/Helpers/DateTimeHelper.cs:14-26 | the result depends only on hour, minute and second of both arguments |
| TimeOfDay.IsTimePastIsStrict | Tumbler/Helpers/DateTimeHelper.cs:28-33 | equal times of day are past neither way |
| TimeOfDay.IsTimePastIsAsymmetric | Tumbler/Helpers/DateTimeHelper.cs:28 | never both IsTimePast(a, b) and IsTimePast(b, a) |
| TimeOfDay.IsTimePastIsTransitive | Tumbler/Helpers/DateTimeHelper.cs:23-28 | IsTimePast(a, b) and IsTimePast(b, c) give IsTimePast(a, c) |
| TimeOfDay.IsTimePastIsTotal | Tumbler/Helpers/DateTimeHelper.cs:28-33 | of two times of day, one is past the other or they are equal |
| DiagnosticStamp.LayoutPositions | Tumbler/Helpers/DateTimeHalper.cs:11 | the "u" layout of fields of widths 4,2,2,2,2,2 is 20 characters with each field and separator at a fixed position |
| DiagnosticStamp.UniversalSortable | Tumbler/Helpers/DateTimeHalper.cs:11 | ToString("u") of the components: LayoutPositions and FieldsHaveFixedWidth state its 20-character yyyy-MM-dd HH:mm:ssZ layout |
| DiagnosticStamp.TrimEndZ | Tumbler/Helpers/DateTimeHalper.cs:11 | TrimEnd('Z'); TrimEndOneZ states that on the "u" rendering it removes exactly the one final Z |
| DiagnosticStamp.ToDiagnosticString | Tumbler/Helpers/DateTimeHalper.cs:11 | 22 characters: '[' first, "] " last, no 'Z' before the bracket, and the "u" rendering without its 'Z' in between |
| DiagnosticStamp.TrimEndOneZ | Tumbler/Helpers/DateTimeHalper.cs:11 | TrimEnd('Z') removes exactly the suffix 'Z' of a body not ending in 'Z' |
| DiagnosticStamp.FieldsHaveFixedWidth | Tumbler/Helpers/DateTimeHalper.cs:11 | each padded component has its pattern width (yyyy, MM, dd, HH, mm, ss) and reads back as the component |
| DiagnosticStamp.DiagnosticStringReadsBack | Tumbler/Helpers/DateTimeHalper.cs:11 | the separators sit at fixed positions and each field of the stamp reads back as its component |
| DiagnosticStamp.DiagnosticStringDeterminesSecond | Tumbler/Helpers/DateTimeHalper.cs:11 | equal stamps mean equal dates and times down to the second |
| ArgGroups.GroupCount | Tumbler/ConfigurationParsing/WatchedProcessFactory.cs:42 | the number of groups is the largest count whose groups fit after args[0] |
| ArgGroups.CommandsBefore | Tumbler/Program.cs:155-156 | the commands at positions before n, one per group begun, each at its group's position |
| ArgGroups.CommandsBeforeStep | Tumbler/Program.cs:138-157 | a position adds a command exactly when its index is 1 modulo 3 |
| Factory.ParseGroups | Tumbler/ConfigurationParsing/WatchedProcessFactory.cs:42-65 | the group loop, start text parsed before end text, ending at the first failure; AllParsedIffEveryGroupParses, RejectedIsFirstFailure and RejectionIsFinal state its outcome |
| Factory.AllParsedIffEveryGroupParses | Tumbler/ConfigurationParsing/WatchedProcessFactory.cs:42-65 | the group loop succeeds exactly when both numbers of every group parse, and then yields one spec per group, group g built from args[3g+1..3g+3], in argument order |
| Factory.RejectedIsFirstFailure | Tumbler/ConfigurationParsing/WatchedProcessFactory.cs:52-62 | a rejection names the failing number of the first group that does not parse: its start text if that fails, otherwise its end text |
| Factory.RejectionIsFinal | Tumbler/ConfigurationParsing/WatchedProcessFactory.cs:52-62 | once a group is rejected, later groups are not looked at and no partial list results |
| Factory.CreateWatchedProcesses | Tumbler/ConfigurationParsing/WatchedProcessFactory.cs:24-72 | one argument delegates to the file parser; any length other than 1 + 3k with k >= 2 reports null and returns null with interval -1; a bad interval reports args[0], returns null and leaves interval 0; otherwise the result is the group loop's list or null with the first failing text reported |
| Factory.NegativeDelaysAccepted | Tumbler/ConfigurationParsing/WatchedProcessFactory.cs:36-64 | for every argument vector of the accepted shape whose interval and delays are decimal renderings of Int32 values, negative ones and -1 included, the interval parses to its value and the group loop yields one spec per group holding exactly those values |
| WatchedProcesses.SplitCommandLine | Tumbler/Model/WatchedProcess.cs:179-208 | SplitCommandLine's choice of branch; QuotedBranch, PlainBranch, QuotedSpan, PlainCommandLine and SplitFailsOnlyOnEmpty state its result on every trimmed line |
| WatchedProcesses.SplitQuoted | Tumbler/Model/WatchedProcess.cs:186-195 | the quoted branch; QuotedSpan states its path, arguments and validity |
| WatchedProcesses.SplitPlain | Tumbler/Model/WatchedProcess.cs:199-206 | the space-split branch; PlainCommandLine and SpacedCommandLine state its path and arguments |
| WatchedProcesses.PlainCommandLine | Tumbler/Model/WatchedProcess.cs:183-207 | every trimmed non-empty line whose first and last quote positions are equal decomposes into the first space-separated token as path and the other tokens joined by single spaces, trimmed, as arguments, valid |
| WatchedProcesses.SpacedCommandLine | Tumbler/Model/WatchedProcess.cs:197-207 | a trimmed line of tokens separated by runs of one or more spaces, with equal first and last quote positions, has its first token (tabs and a lone quote included) as path and the other tokens joined by single spaces, trimmed, as arguments, valid |
| WatchedProcesses.JoinedPlainCommandLine | Tumbler/Model/WatchedProcess.cs:197-207 | quote-free, white-space-free tokens joined by single spaces form a trimmed line whose path is the first token and whose arguments are the others joined by single spaces |
| WatchedProcesses.OneQuoteIsPlain | Tumbler/Model/WatchedProcess.cs:181-184 | a line with exactly one quote has equal first and last quote positions, so it takes the space split |
| WatchedProcesses.PlainTokensAvoid | Tumbler/Model/WatchedProcess.cs:199 | plain tokens hold neither a space nor a quote |
| WatchedProcesses.PlainJoinIsTrimmed | Tumbler/Model/WatchedProcess.cs:203 | trimming the joined tail of plain tokens changes nothing |
| WatchedProcesses.PlainBranch | Tumbler/Model/WatchedProcess.cs:183-207 | a line whose first and last quote positions are equal (no quote, or exactly one) takes the space-split branch |
| WatchedProcesses.QuotedSpan | Tumbler/Model/WatchedProcess.cs:181-196 | with quote-free text around the first and last quote, the path is the quoted span with quotes trimmed, the arguments the rest trimmed, valid exactly when the path holds no quote |
| WatchedProcesses.QuotedBranch | Tumbler/Model/WatchedProcess.cs:183-187 | distinct first and last quote positions select the quoted branch |
| WatchedProcesses.QuotedSlices | Tumbler/Model/WatchedProcess.cs:186-187 | Substring takes the quoted span and Remove leaves the text around it |
| WatchedProcesses.QuotedCommandLine | Tumbler/Model/WatchedProcess.cs:181-196 | a single quoted quote-free path decomposes into that path and the surrounding text trimmed, valid |
| WatchedProcesses.InteriorQuoteIsInvalid | Tumbler/Model/WatchedProcess.cs:188-191 | a third quote with text on both sides stays inside the path and makes the line invalid |
| WatchedProcesses.EmptyQuotedPathIsValid | Tumbler/Model/WatchedProcess.cs:186-195 | `''` yields an empty path that is marked valid |
| WatchedProcesses.SplitFailsOnlyOnEmpty | Tumbler/Model/WatchedProcess.cs:199-200 | a trimmed line fails to decompose (First() throws) exactly when it is empty |
| WatchedProcesses.TrimAndDecompose | Tumbler/Model/WatchedProcess.cs:64-65 | the constructor's trimmed line has no outer white space and decomposes |
| WatchedProcesses.JoinAvoids | Tumbler/Model/WatchedProcess.cs:203 | a character in neither separator nor tokens is absent from the join |
| WatchedProcesses.JoinEnds | Tumbler/Model/WatchedProcess.cs:203 | a join of non-empty tokens begins with the first token's first character and ends with the last token's last character |
| WatchedProcesses.IndexOfAfterPrefix | Tumbler/Model/WatchedProcess.cs:181 | the first quote after a quote-free prefix is at the prefix's length |
| WatchedProcesses.LastIndexOfBeforeSuffix | Tumbler/Model/WatchedProcess.cs:182 | the last quote before a quote-free suffix is just before it |
| WatchedProcesses.TrimQuotesOfQuoted | Tumbler/Model/WatchedProcess.cs:186 | Trim('\'') of a quoted text whose ends are not quotes gives the text |
| WatchedProcesses.RestartDue | Tumbler/Model/WatchedProcess.cs:81-88 | the condition under which TryRestart fires; the four lemmas below state when it holds |
| WatchedProcesses.NoRestartTimesNeverRestart | Tumbler/Model/WatchedProcess.cs:81-85 | without restart times no restart is due |
| WatchedProcesses.FirstRestartIsDueWhenPast | Tumbler/Model/WatchedProcess.cs:81-88 | before any restart, a restart is due exactly when the first restart time of day is past |
| WatchedProcesses.AtMostOneRestartPerDay | Tumbler/Model/WatchedProcess.cs:82-93 | after a restart, none is due again on the same day of the month |
| WatchedProcesses.OnlyFirstRestartTimeCounts | Tumbler/Model/WatchedProcess.cs:87 | lists with the same first restart time behave alike |
| WatchedProcesses.RestartIgnoresMonth | Tumbler/Model/WatchedProcess.cs:82 | example: a restart on 31 January leaves 1 February open, and one on 15 January blocks 15 February |
| WatchedProcesses.WatchedProcess.constructor | Tumbler/Model/WatchedProcess.cs:54-71 | the command line is stored trimmed and decomposed; runtime fields start empty, and a missing restart list becomes empty |
| WatchedProcesses.WatchedProcess.IsBeingWatched | Tumbler/Model/WatchedProcess.cs:47 | EndTimeSeconds != -1; StopSleep states that an unwatched process asks for -1000 ms |
| WatchedProcesses.WatchedProcess.StartSleep | Tumbler/Model/WatchedProcess.cs:140 | an Int32, equal to StartTimeSeconds * 1000 when that fits |
| WatchedProcesses.WatchedProcess.StopSleep | Tumbler/Model/WatchedProcess.cs:169-172 | an Int32, equal to EndTimeSeconds * 1000 when that fits, and -1000 for an unwatched process |
| WatchedProcesses.WatchedProcess.StartReports | Tumbler/Model/WatchedProcess.cs:99-136 | at most one message; exactly the invalid-command-line message when the line is invalid; none exactly when a valid launch returned no handle |
| WatchedProcesses.WatchedProcess.Start | Tumbler/Model/WatchedProcess.cs:97-142 | an invalid line only reports; an exited handle is stored but changes neither name, id nor flag and skips the sleep; a running one sets name, id and IsStartedSuccessfully; the stagger sleep happens unless forced |
| WatchedProcesses.WatchedProcess.TryStop | Tumbler/Model/WatchedProcess.cs:144-173 | swallows every exception of closing or killing; IsStoppedSuccessfully becomes true only when an open stored handle was closed or killed, and is never reset; a successful stop closes the handle, so later stops fail until Start stores a new one; the id becomes -1 and the name empty whatever the outcome; the sleep happens unless forced |
| WatchedProcesses.WatchedProcess.TryRestart | Tumbler/Model/WatchedProcess.cs:77-95 | nothing changes unless a restart is due; otherwise the restart message and a forced stop and start run, without sleeps, and the last restart becomes the clock reading after the start |
| Supervisor.ParseDelayReadsDigits | Tumbler/Program.cs:121-168 | a delay is rejected exactly when it is not a digit line; it throws exactly when its digits are not ASCII or exceed INT32_MAX; otherwise it is their value times 1000, wrapped to 32 bits |
| Supervisor.MinusOneIsNotDigits | Tumbler/Program.cs:144-152 | example: "-1" is not a digit line, so it is rejected as a start delay |
| Supervisor.ArabicIndicDigitsThrow | Tumbler/Program.cs:121-146 | example: Arabic-Indic digits match ^\d+$ and Int32.Parse then throws |
| Supervisor.ParseDelay | Tumbler/Program.cs:144-146 | the regex test, then int.Parse times 1000; ParseDelayReadsDigits states its result on every text |
| Supervisor.EndedIsFinal | Tumbler/Program.cs:138-179 | once the loop has returned or thrown, later arguments change nothing |
| Supervisor.Step | Tumbler/Program.cs:140-178 | one pass of the switch on i % 3; StepRunning and the ArgLoop lemmas state its effect |
| Supervisor.ArgLoop | Tumbler/Program.cs:138-179 | the for loop; the ArgLoop* lemmas state its tables and NonDigitDelayRejected, UnreadDelayRejected and DuplicateCommandRejected its early ends |
| Supervisor.ArgLoopProcessList | Tumbler/Program.cs:155-156 | ProcessList gains the command of every group begun, in order, after what it held before |
| Supervisor.StepRunning | Tumbler/Program.cs:140-178 | a pass that does not end the loop appends a command, or adds a delay read from its text under a command not yet in that table (-1 for the end text "-1") |
| Supervisor.ArgLoopStartTimes | Tumbler/Program.cs:143-153 | StartTimes holds, under each command whose start was read, the delay read from its text |
| Supervisor.ArgLoopStartKeys | Tumbler/Program.cs:143-153 | StartTimes holds no other key |
| Supervisor.ArgLoopStartDistinct | Tumbler/Program.cs:146 | the commands whose start delay has been read are pairwise distinct |
| Supervisor.StartAddsFresh | Tumbler/Program.cs:146 | a start delay is added only under a command no earlier group has |
| Supervisor.ArgLoopStartCount | Tumbler/Program.cs:143-153 | StartTimes has one entry per start delay read |
| Supervisor.ArgLoopEndTimes | Tumbler/Program.cs:159-177 | EndTimes holds, under each command whose end was read, -1 for the literal "-1" and otherwise the delay read |
| Supervisor.ArgLoopEndKeys | Tumbler/Program.cs:159-177 | EndTimes holds no other key |
| Supervisor.ArgLoopEndCount | Tumbler/Program.cs:159-177 | EndTimes has one entry per end delay read |
| Supervisor.NonDigitDelayRejected | Tumbler/Program.cs:144-174 | a start that is not a digit line, or an end that is neither "-1" nor a digit line, ends the loop with ArgError on it, keeping the tables read so far |
| Supervisor.UnreadDelayRejected | Tumbler/Program.cs:144-174 | a delay the reader rejects ends the loop at once with ArgError on it |
| Supervisor.DuplicateCommandRejected | Tumbler/Program.cs:146 | a repeated command makes StartTimes.Add throw once its start delay has been read |
| Supervisor.TrailingGroup | Tumbler/Program.cs:138-179 | after a complete parse, StartAll's guard fails exactly when the last group holds a command only; with a command and a start delay, that command has no end delay |
| Supervisor.ReadArgument | Tumbler/Program.cs:140-178 | one pass of the switch computes the loop step: its failure or the next tables |
| Supervisor.ReadGroups | Tumbler/Program.cs:138-180 | the for loop ends as the loop function says, with the tables it leaves |
| Supervisor.LaunchAllFiles | Tumbler/Program.cs:36-48 | after a run without exception, every name had both delays, the pids are distinct, ProcFiles maps each pid to its name and nothing else, and the sleeps are the start delays in list order |
| Supervisor.LaunchOne | Tumbler/Program.cs:39-48 | one iteration of StartAll's loop; the LaunchAll* lemmas state its effect |
| Supervisor.LaunchAll | Tumbler/Program.cs:37-49 | StartAll's foreach loop; LaunchAllFiles, LaunchAllWatched, LaunchAllWatchedInOrder and LaunchAllSucceeds state its result |
| Supervisor.LaunchAllWatched | Tumbler/Program.cs:43-46 | a pid is kept for watching exactly when it was started for a name whose end delay is not -1 |
| Supervisor.LaunchAllWatchedInOrder | Tumbler/Program.cs:37-46 | the watched pids keep the order they were started in |
| Supervisor.LaunchAllSucceeds | Tumbler/Program.cs:37-49 | the loop runs through when every name has both delays and the pids are distinct |
| Supervisor.LaunchList | Tumbler/Program.cs:35-54 | the foreach loop returns the watched list or its exception, with ProcFiles and the sleeps, as the loop function says |
| Supervisor.RunsOnAfterFault | Tumbler/Program.cs:37-49 | after an exception, later names are not started |
| Supervisor.CompleteGroupsHaveDelays | Tumbler/Program.cs:143-177 | with complete groups, every command read has both delays |
| Supervisor.CompleteGroupsLaunch | Tumbler/Program.cs:33-54 | complete groups started with distinct pids launch without exception |
| Supervisor.TrailingStartThrows | Tumbler/Program.cs:33-43 | a trailing (command, start) group passes StartAll's guard, and an EndTimes lookup then throws |
| Supervisor.StopEachStopsWatched | Tumbler/Program.cs:62-93 | only live processes that ProcFiles names, with an end delay other than -1, are stopped; at most one stop and one sleep per entry |
| Supervisor.StopEachStopsAll | Tumbler/Program.cs:62-93 | when every entry is such a process, each is stopped in list order (window closed or killed) and followed by a sleep of its end delay |
| Supervisor.StopOne | Tumbler/Program.cs:64-92 | one iteration of StopAll's loop; StopEachIsPerEntry states its effect |
| Supervisor.StopEach | Tumbler/Program.cs:62-93 | StopAll's foreach loop; StopEachIsPerEntry and StopEachFirstFault state its result on every list |
| Supervisor.StopEachIsPerEntry | Tumbler/Program.cs:62-93 | on every list up to its first exception, the stops and sleeps are the concatenation, entry by entry in list order, of: a pid not found gives a 0 ms sleep and no stop; a live entry with end delay -1 gives neither; any other live entry gives its stop and a sleep of its end delay |
| Supervisor.StopEachFirstFault | Tumbler/Program.cs:67-69 | the first live entry whose pid ProcFiles lacks, or whose name EndTimes lacks, ends the loop with that lookup's exception, after exactly the stops and sleeps of the entries before it |
| Supervisor.Reversed | Tumbler/Program.cs:61 | the same length, with element i taken from position n-1-i |
| Supervisor.ReversedInvolutive | Tumbler/Program.cs:61 | reversing twice gives the list back |
| Supervisor.ReverseInPlace | Tumbler/Program.cs:61 | the caller's array holds its old contents reversed |
| Supervisor.StopList | Tumbler/Program.cs:62-93 | the foreach loop's stops, sleeps and escaping exception are those of the loop function |
| Supervisor.StopsAfterFault | Tumbler/Program.cs:67-69 | after an exception, later entries are not looked at |
| Supervisor.StopAfterStart | Tumbler/Program.cs:31-94 | stopping the list StartAll returned, reversed, while those processes run, stops every watched process, the last started first |
| Supervisor.Supervisor.constructor | Tumbler/Program.cs:16-29 | the static initial values: interval 60, first start, empty tables |
| Supervisor.Supervisor.StartAll | Tumbler/Program.cs:31-57 | null, with nothing changed, unless ProcessList is non-empty and as long as StartTimes; otherwise ProcFiles, sleeps, result and the first-start flag are those of the launch loop; the tables are unchanged |
| Supervisor.Supervisor.StopAll | Tumbler/Program.cs:59-94 | the caller's list is reversed in place and stopped in that order; stops, sleeps and exception are the loop's; tables, ProcFiles and the process table are unchanged |
| Supervisor.Supervisor.ParseArgs | Tumbler/Program.cs:112-187 | four or fewer arguments change nothing; otherwise the delay tables are cleared, a watch interval that is not a positive digit line times 1000 returns false, and the loop's outcome and tables follow; on success the interval is positive; ProcessList is not cleared |

## Left out

- `Program.Main` (Tumbler/Program.cs:189-263) is not modelled. That covers the single-instance check, the console key loop, the liveness poll over the watched list, `WriteLog` and all console output. `StartAll` and `StopAll` are modelled as the operations it calls.
- `ArgError` and the too-few-arguments message are modelled by the outcome they accompany, not by their text.
- FileParser.cs is not part of this model. The one-argument branch of the factory calls a `parseFile` parameter in its place.
- `ProcessHelper` (both copies) and `WatchedProcess.IsAlive` are not part of this model. They are direct OS queries.
- The superseded Tumbler/WatchedProcess.cs stub and WatchedProcessEnumerableHelper.cs are not part of this model.
- OS calls become parameters: `Process.Start`, `CloseMainWindow`, `Kill`, `Close`, `GetProcessById`, `HasExited`.
  - The priority assignments (`PriorityClass = ...`) are not modelled.
  - An exception from `Process.Start` or from the priority setter inside `Program.StartAll` is not modelled. In the model every start yields a pid.
  - An exception from `Kill` inside `Program.StopAll` is not modelled. Only `ArgumentException` is caught there.
- `WatchedProcess.Start` does not model the priority setter throwing after the handle is stored. It also does not model the exception details placed in the message.
- `Thread.Sleep` only records the requested duration. The exception .NET raises for negative values other than -1 is not modelled. One such value is the -1000 ms a non-forced `TryStop` of an unwatched process asks for.
- Processes do not leave `Live` when `Program.StopAll` stops them. The process table changes only through the operating system, which is outside the model.
- `Strings.IsRegexDigit` covers only the decimal-digit ranges it lists, all inside the Basic Multilingual Plane. Digits from later Unicode versions and surrogate pairs are not modelled.
- `ParseArgs`, `StartAll` and `StopAll` build their results in local variables inside value-level methods (`ReadGroups`, `LaunchList`, `StopList`) and write the fields once at exit. The source writes the static fields entry by entry. The two agree on the state after every call, because nothing else reads those fields in between. The intermediate states after an exception escapes mid-loop are stated through the loop functions' `tables`, `procFiles` and `sleeps`.
- `int.Parse(...) * 1000` and `StartTimeSeconds * 1000` are modelled with unchecked 32-bit wrap-around (`Wrap32`), as C# computes them. Huge digit strings are therefore not excluded by a precondition.
- The factory's list holds `(command line, start, end)` specifications, not `WatchedProcess` objects. Its constructor call passes four arguments, while the class declares a process name before the command line, so the factory's output is modelled as value tuples.
- `WatchedProcess`'s status callback is the sequence `Reports`. The exception text in the "error during activation" message is not modelled.
- WatchedProcesses.WatchedProcess.constructor: requires a command line that is not blank after trimming. On a blank one the source's constructor throws InvalidOperationException from `splitArgs.First()` (Tumbler/Model/WatchedProcess.cs:199-200). The model states that case as `SplitCommandLine` returning None (`SplitFailsOnlyOnEmpty`), not as a constructor that throws.
- Strings.TryParseInt32: reads the sign as the ASCII "-" or "+". `int.TryParse` and `Int32.Parse` take the sign strings of the current culture, which is not modelled. Trailing NUL characters, which .NET also accepts, are not modelled either; program arguments cannot contain them.
