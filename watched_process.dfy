/** Model/WatchedProcess: one supervised child program. The command line is trimmed and
    decomposed once, at construction; Start, TryStop and TryRestart then update the runtime
    fields. What the operating system does (launch, close, kill) and what the clock reads are
    parameters of the operations; the status callback is the sequence `Reports`, and the
    stagger sleeps the object asks for are recorded in the ghost sequence `Sleeps`. */
module WatchedProcesses {
  import opened Wrappers
  import opened Strings
  import opened Clock
  import opened TimeOfDay

  // ---------------------------------------------------------------------------
  // Command-line decomposition

  /** What SplitCommandLine leaves in ExePath, Arguments and _isCommandLineValid. */
  datatype Decomposition = Decomposition(exePath: string, arguments: string, isValid: bool)

  /** SplitCommandLine on the (already trimmed) command line. When the first and the last
      single quote are at different positions, the quoted span is the executable path and the
      rest the arguments; otherwise the line is split on spaces. None stands for the exception
      `splitArgs.First()` throws when the space split finds no token. */
  function SplitCommandLine(commandLine: string): Option<Decomposition> {
    var first := IndexOf(commandLine, '\'');
    var last := LastIndexOf(commandLine, '\'');
    if '\'' in commandLine && first != last then Some(SplitQuoted(commandLine, first, last))
    else SplitPlain(commandLine)
  }

  /** The quoted branch: the span from the first to the last quote, quotes trimmed, is the path. */
  function SplitQuoted(commandLine: string, first: nat, last: nat): Decomposition
    requires first <= last < |commandLine|
  {
    var exePath := TrimQuotes(commandLine[first..last + 1]);
    Decomposition(exePath, Trim(commandLine[..first] + commandLine[last + 1..]), '\'' !in exePath)
  }

  /** The space-split branch: the first token is the path, the others joined by spaces the arguments. */
  function SplitPlain(commandLine: string): Option<Decomposition> {
    var tokens := SplitOnSpace(commandLine);
    if tokens == [] then None
    else Some(Decomposition(tokens[0], if |tokens| > 1 then Trim(Join(" ", tokens[1..])) else "", true))
  }

  /** A token of a plain command line: no white space and no single quote. */
  predicate PlainToken(t: string) {
    t != [] && forall k :: 0 <= k < |t| ==> !IsWhiteSpace(t[k]) && !IsQuote(t[k])
  }

  /** Every trimmed, non-blank line that has no two distinct quote positions takes the space
      split: the path is its first token, the arguments are the other tokens joined by single
      spaces and trimmed, and the line is valid. What the tokens are is SplitOnSpaceLayout. */
  lemma PlainCommandLine(commandLine: string)
    requires IsTrimmed(commandLine) && commandLine != []
    requires IndexOf(commandLine, '\'') == LastIndexOf(commandLine, '\'')
    ensures var tokens := SplitOnSpace(commandLine);
      && tokens != []
      && SplitCommandLine(commandLine) == Some(Decomposition(tokens[0], Trim(Join(" ", tokens[1..])), true))
  {
    PlainBranch(commandLine);
    SplitFailsOnlyOnEmpty(commandLine);
    var tokens := SplitOnSpace(commandLine);
    if |tokens| == 1 {
      var none: seq<string> := [];
      assert tokens[1..] == none;
      assert Trim(Join(" ", none)) == "";
    }
  }

  /** Quote-free tokens joined by single spaces: such a line is already trimmed, its path is the
      first token and its arguments are the other tokens joined by single spaces. */
  lemma JoinedPlainCommandLine(tokens: seq<string>)
    requires tokens != [] && forall t :: t in tokens ==> PlainToken(t)
    ensures var line := Join(" ", tokens);
      && Trim(line) == line
      && SplitCommandLine(line) == Some(Decomposition(tokens[0], Join(" ", tokens[1..]), true))
  {
    var line := Join(" ", tokens);
    PlainTokensAvoid(tokens);
    JoinAvoids(" ", tokens, '\'');
    PlainJoinIsTrimmed(tokens);
    PlainBranch(line);
    SplitJoinRoundTrip(tokens);
    if |tokens| > 1 {
      assert forall t :: t in tokens[1..] ==> t in tokens;
      PlainJoinIsTrimmed(tokens[1..]);
    }
  }

  lemma PlainTokensAvoid(tokens: seq<string>)
    requires forall t :: t in tokens ==> PlainToken(t)
    ensures forall t :: t in tokens ==> t != [] && ' ' !in t && '\'' !in t
  {
    forall t | t in tokens ensures t != [] && ' ' !in t && '\'' !in t {
      assert forall k :: 0 <= k < |t| ==> t[k] != ' ' && t[k] != '\'';
    }
  }

  /** Plain tokens joined by spaces neither start nor end with white space. */
  lemma PlainJoinIsTrimmed(tokens: seq<string>)
    requires tokens != [] && forall t :: t in tokens ==> PlainToken(t)
    ensures Trim(Join(" ", tokens)) == Join(" ", tokens)
  {
    assert forall i :: 0 <= i < |tokens| ==> tokens[i] in tokens;
    JoinEnds(" ", tokens);
    var first, final := tokens[0], tokens[|tokens| - 1];
    assert PlainToken(first) && PlainToken(final);
    assert !IsWhiteSpace(first[0]) && !IsWhiteSpace(final[|final| - 1]);
    TrimByKeeps(Join(" ", tokens), IsWhiteSpace);
  }

  /** When the first and the last quote are at the same position (no quote, or exactly one),
      the line is split on spaces. */
  lemma PlainBranch(commandLine: string)
    requires IndexOf(commandLine, '\'') == LastIndexOf(commandLine, '\'')
    ensures SplitCommandLine(commandLine) == SplitPlain(commandLine)
  {
  }

  /** A line with exactly one quote has equal first and last quote positions. */
  lemma OneQuoteIsPlain(pre: string, post: string)
    requires '\'' !in pre && '\'' !in post
    ensures IndexOf(pre + "'" + post, '\'') == LastIndexOf(pre + "'" + post, '\'') == |pre|
  {
    IndexOfAfterPrefix(pre, post);
    LastIndexOfBeforeSuffix(pre, post);
  }

  /** A trimmed line of tokens separated by runs of one or more spaces, with no two distinct
      quote positions: the path is the first token as written (a tab or a lone quote included)
      and the arguments are the other tokens joined by single spaces, trimmed. */
  lemma SpacedCommandLine(tokens: seq<string>, gaps: seq<nat>)
    requires tokens != [] && |gaps| == |tokens| && Separated(gaps)
    requires forall t :: t in tokens ==> t != [] && ' ' !in t
    requires IsTrimmed(Spread(tokens, gaps))
    requires IndexOf(Spread(tokens, gaps), '\'') == LastIndexOf(Spread(tokens, gaps), '\'')
    ensures SplitCommandLine(Spread(tokens, gaps)) == Some(Decomposition(tokens[0], Trim(Join(" ", tokens[1..])), true))
  {
    var line := Spread(tokens, gaps);
    assert Spaces(0) + line == line;
    SplitOnSpaceOfSpread(0, tokens, gaps);
    assert tokens[0] in tokens;
    assert line != [];
    PlainCommandLine(line);
  }

  /** Quote-free text around the first and the last quote: the span between them, quotes
      trimmed, is the executable path, and the text around it, trimmed, the arguments. */
  lemma QuotedSpan(pre: string, middle: string, post: string)
    requires '\'' !in pre && '\'' !in post
    ensures var exePath := TrimQuotes("'" + middle + "'");
      SplitCommandLine(pre + "'" + middle + "'" + post)
      == Some(Decomposition(exePath, Trim(pre + post), '\'' !in exePath))
  {
    var line := pre + "'" + middle + "'" + post;
    assert line == pre + "'" + (middle + "'" + post);
    IndexOfAfterPrefix(pre, middle + "'" + post);
    LastIndexOfBeforeSuffix(pre + "'" + middle, post);
    var f, l := |pre|, |pre| + |middle| + 1;
    assert line[f] == '\'';
    QuotedBranch(line, f, l);
    QuotedSlices(pre, middle, post);
  }

  lemma QuotedBranch(commandLine: string, first: int, last: int)
    requires 0 <= first < last
    requires IndexOf(commandLine, '\'') == first && LastIndexOf(commandLine, '\'') == last
    ensures SplitCommandLine(commandLine) == Some(SplitQuoted(commandLine, first, last))
  {
  }

  lemma QuotedSlices(pre: string, middle: string, post: string)
    ensures var line := pre + "'" + middle + "'" + post;
      var last := |pre| + |middle| + 1;
      && line[|pre|..last + 1] == "'" + middle + "'"
      && line[..|pre|] + line[last + 1..] == pre + post
  {
    var line := pre + "'" + middle + "'" + post;
    var last := |pre| + |middle| + 1;
    assert line[|pre|..last + 1] == "'" + middle + "'";
    assert line[..|pre|] == pre && line[last + 1..] == post;
  }

  /** A quoted executable path: the span between two single quotes, with the surrounding text
      (quotes removed, trimmed) as the arguments; with exactly two quotes the line is valid. */
  lemma QuotedCommandLine(pre: string, exePath: string, post: string)
    requires '\'' !in pre && '\'' !in exePath && '\'' !in post
    ensures SplitCommandLine(pre + "'" + exePath + "'" + post)
            == Some(Decomposition(exePath, Trim(pre + post), true))
  {
    QuotedSpan(pre, exePath, post);
    if exePath != [] {
      assert exePath[0] in exePath && exePath[|exePath| - 1] in exePath;
    }
    TrimQuotesOfQuoted(exePath);
  }

  /** A third quote with text on both sides stays in the path, making the line invalid. */
  lemma InteriorQuoteIsInvalid(pre: string, left: string, right: string, post: string)
    requires '\'' !in pre && '\'' !in left && '\'' !in right && '\'' !in post
    requires left != [] && right != []
    ensures SplitCommandLine(pre + "'" + left + "'" + right + "'" + post)
            == Some(Decomposition(left + "'" + right, Trim(pre + post), false))
  {
    var middle := left + "'" + right;
    assert pre + "'" + left + "'" + right + "'" + post == pre + "'" + middle + "'" + post;
    QuotedSpan(pre, middle, post);
    assert middle[0] == left[0] && left[0] in left;
    assert middle[|middle| - 1] == right[|right| - 1] && right[|right| - 1] in right;
    TrimQuotesOfQuoted(middle);
    assert middle[|left|] == '\'';
  }

  /** An empty quoted path `''` is accepted as valid, with an empty executable path. */
  lemma EmptyQuotedPathIsValid(pre: string, post: string)
    requires '\'' !in pre && '\'' !in post
    ensures SplitCommandLine(pre + "''" + post) == Some(Decomposition("", Trim(pre + post), true))
  {
    var empty: string := [];
    QuotedCommandLine(pre, empty, post);
    assert pre + "'" + empty + "'" + post == pre + "''" + post;
  }

  /** A trimmed command line decomposes exactly when it is not empty. */
  lemma SplitFailsOnlyOnEmpty(commandLine: string)
    requires IsTrimmed(commandLine)
    ensures SplitCommandLine(commandLine).None? <==> commandLine == []
  {
    if commandLine != [] {
      assert !IsWhiteSpace(commandLine[0]);
    }
  }

  /** What the constructor computes from its command line: the trimmed line and its
      decomposition, which exists for every command line that is not blank. */
  method TrimAndDecompose(commandLine: string) returns (trimmed: string, exePath: string, arguments: string, isValid: bool)
    requires Trim(commandLine) != []
    ensures trimmed == Trim(commandLine) && IsTrimmed(trimmed)
    ensures SplitCommandLine(trimmed) == Some(Decomposition(exePath, arguments, isValid))
  {
    trimmed := Trim(commandLine);
    SplitFailsOnlyOnEmpty(trimmed);
    var d := SplitCommandLine(trimmed).value;
    exePath, arguments, isValid := d.exePath, d.arguments, d.isValid;
  }

  lemma {:induction false} JoinAvoids(sep: string, tokens: seq<string>, c: char)
    requires c !in sep && forall t :: t in tokens ==> c !in t
    ensures c !in Join(sep, tokens)
  {
    if |tokens| > 1 {
      assert tokens[0] in tokens;
      assert forall t :: t in tokens[1..] ==> t in tokens;
      JoinAvoids(sep, tokens[1..], c);
    }
  }

  /** A join of non-empty tokens starts with the first token's first character and ends with
      the last token's last character. */
  lemma {:induction false} JoinEnds(sep: string, tokens: seq<string>)
    requires tokens != [] && forall i :: 0 <= i < |tokens| ==> tokens[i] != []
    ensures var j := Join(sep, tokens);
      && j != [] && j[0] == tokens[0][0]
      && j[|j| - 1] == tokens[|tokens| - 1][|tokens[|tokens| - 1]| - 1]
  {
    if |tokens| > 1 {
      JoinEnds(sep, tokens[1..]);
    }
  }

  lemma {:induction false} IndexOfAfterPrefix(pre: string, rest: string)
    requires '\'' !in pre
    ensures IndexOf(pre + "'" + rest, '\'') == |pre|
  {
    if pre != [] {
      assert (pre + "'" + rest)[1..] == pre[1..] + "'" + rest;
      assert pre[0] in pre;
      IndexOfAfterPrefix(pre[1..], rest);
    }
  }

  lemma {:induction false} LastIndexOfBeforeSuffix(rest: string, post: string)
    requires '\'' !in post
    ensures LastIndexOf(rest + "'" + post, '\'') == |rest|
  {
    if post != [] {
      var s := rest + "'" + post;
      assert s[..|s| - 1] == rest + "'" + post[..|post| - 1];
      assert post[|post| - 1] in post;
      LastIndexOfBeforeSuffix(rest, post[..|post| - 1]);
    }
  }

  lemma TrimQuotesOfQuoted(m: string)
    requires m == [] || (!IsQuote(m[0]) && !IsQuote(m[|m| - 1]))
    ensures TrimQuotes("'" + m + "'") == m
  {
    var s := "'" + m + "'";
    if m == [] {
      assert forall k :: 0 <= k < |s| ==> IsQuote(s[k]);
      TrimByAllDropped(s, IsQuote);
    } else {
      var t := m + "'";
      assert s[1..] == t && t[0] == m[0];
      assert TrimStartBy(s, IsQuote) == t;
      assert t[..|t| - 1] == m;
      assert TrimEndBy(t, IsQuote) == TrimEndBy(m, IsQuote);
    }
  }

  // ---------------------------------------------------------------------------
  // The supervised process

  /** System.Diagnostics.ProcessPriorityClass. */
  datatype Priority = Idle | BelowNormal | Normal | AboveNormal | High | RealTime

  /** What the object keeps of a System.Diagnostics.Process: its id and its name. */
  datatype ProcessHandle = ProcessHandle(id: int, name: string)

  /** The exception classes Start tells apart. */
  datatype LaunchError = InvalidOperation | FileNotFound | OtherError

  /** What Process.Start did: returned null, returned a process that had already exited,
      returned a running process, or threw. */
  datatype LaunchOutcome =
    | NoHandle
    | Exited(handle: ProcessHandle)
    | Running(handle: ProcessHandle)
    | Throws(error: LaunchError)

  /** What stopping the stored process did: CloseMainWindow succeeded, the process was killed
      instead, or one of the calls threw on the stored process (a refused kill, a process that
      has exited). Calls on an absent or closed handle always throw; StopSucceeds accounts for those. */
  datatype StopOutcome = WindowClosed | Killed | StopFailed

  /** The messages passed to the status callback. */
  datatype Report =
    | InvalidCommandLine(commandLine: string)
    | AlreadyExited(exePath: string)
    | Started(name: string, pid: int)
    | NoFileSpecified
    | ExeNotFound(exePath: string)
    | ActivationError
    | Stopped(name: string, pid: int)
    | Restarting(name: string, pid: int)

  /** The restart rule of TryRestart: there is a restart time, no restart happened on the same
      day of the month as `now`, and the time of day of `now` is past the first restart time. */
  predicate RestartDue(restartTimes: seq<DateTime>, lastRestart: Option<DateTime>, now: DateTime) {
    && restartTimes != []
    && !(lastRestart.Some? && now.day == lastRestart.value.day)
    && IsTimePast(now, restartTimes[0])
  }

  /** Without a restart time TryRestart never fires. */
  lemma NoRestartTimesNeverRestart(lastRestart: Option<DateTime>, now: DateTime)
    ensures !RestartDue([], lastRestart, now)
  {
  }

  /** Before the first restart, a restart is due exactly when the first restart time is past. */
  lemma FirstRestartIsDueWhenPast(restartTimes: seq<DateTime>, now: DateTime)
    requires restartTimes != []
    ensures RestartDue(restartTimes, None, now) <==> IsTimePast(now, restartTimes[0])
  {
  }

  /** Once restarted, no further restart is due on the same day of the month. */
  lemma AtMostOneRestartPerDay(restartTimes: seq<DateTime>, restartedAt: DateTime, now: DateTime)
    requires now.day == restartedAt.day
    ensures !RestartDue(restartTimes, Some(restartedAt), now)
  {
  }

  /** Only the first restart time is consulted: the others make no difference. */
  lemma OnlyFirstRestartTimeCounts(a: seq<DateTime>, b: seq<DateTime>, lastRestart: Option<DateTime>, now: DateTime)
    requires a != [] && b != [] && a[0] == b[0]
    ensures RestartDue(a, lastRestart, now) == RestartDue(b, lastRestart, now)
  {
  }

  /** Only the day of the month is compared with the last restart: a restart on 15 January
      blocks the whole of 15 February, and one on 31 January leaves 1 February open. */
  lemma RestartIgnoresMonth(first: DateTime)
    requires first.hour == 3 && first.minute == 0 && first.second == 0
    ensures RestartDue([first], Some(DateTimeParts(2024, 1, 31, 3, 30, 0, 0)), DateTimeParts(2024, 2, 1, 4, 0, 0, 0))
    ensures !RestartDue([first], Some(DateTimeParts(2024, 1, 15, 3, 30, 0, 0)), DateTimeParts(2024, 2, 15, 4, 0, 0, 0))
  {
    var now: DateTime := DateTimeParts(2024, 2, 1, 4, 0, 0, 0);
    assert SecondsFromMidnight(now) == 14400 && SecondsFromMidnight(first) == 10800;
  }

  class WatchedProcess {
    var ProcessName: string
    var ProcessId: int
    const ProcessPriority: Priority
    /** The command line as given, trimmed. */
    const CommandLine: string
    const StartTimeSeconds: Int32
    const EndTimeSeconds: Int32
    const RestartTimes: seq<DateTime>
    const ExePath: string
    const Arguments: string
    const IsCommandLineValid: bool
    /** _processObject while it is usable: None before the first start that stores a handle,
        and again once a successful stop has called Close() on it, after which every call on
        the closed object throws. */
    var ProcessObject: Option<ProcessHandle>
    var LastRestart: Option<DateTime>
    var IsStartedSuccessfully: bool
    var IsStoppedSuccessfully: bool
    /** Every message passed to the status callback, oldest first. */
    var Reports: seq<Report>
    /** Every Thread.Sleep duration requested, in milliseconds, oldest first. */
    ghost var Sleeps: seq<int>

    /** The decomposition fields are those of the trimmed command line. */
    predicate Decomposed() {
      && IsTrimmed(CommandLine)
      && SplitCommandLine(CommandLine) == Some(Decomposition(ExePath, Arguments, IsCommandLineValid))
    }

    /** The constructor trims the command line and decomposes it; a missing list of restart
        times becomes the empty list. */
    constructor (processName: string, commandLine: string, startTimeSeconds: Int32, endTimeSeconds: Int32,
                 restartTimes: Option<seq<DateTime>>, priority: Priority)
      requires Trim(commandLine) != []
      ensures Decomposed() && CommandLine == Trim(commandLine)
      ensures ProcessName == processName && ProcessId == 0 && ProcessPriority == priority
      ensures StartTimeSeconds == startTimeSeconds && EndTimeSeconds == endTimeSeconds
      ensures RestartTimes == (if restartTimes.Some? then restartTimes.value else [])
      ensures ProcessObject == None && LastRestart == None
      ensures !IsStartedSuccessfully && !IsStoppedSuccessfully
      ensures Reports == [] && Sleeps == []
    {
      var trimmed, exePath, arguments, isValid := TrimAndDecompose(commandLine);
      ProcessName := processName;
      ProcessId := 0;
      ProcessPriority := priority;
      CommandLine := trimmed;
      StartTimeSeconds := startTimeSeconds;
      EndTimeSeconds := endTimeSeconds;
      RestartTimes := if restartTimes.Some? then restartTimes.value else [];
      ExePath := exePath;
      Arguments := arguments;
      IsCommandLineValid := isValid;
      ProcessObject := None;
      LastRestart := None;
      IsStartedSuccessfully := false;
      IsStoppedSuccessfully := false;
      Reports := [];
      Sleeps := [];
    }

    /** IsBeingWatched: an end time of -1 marks a process that is started but not watched. */
    predicate IsBeingWatched() {
      EndTimeSeconds != -1
    }

    /** The stagger after a start, `StartTimeSeconds * 1000` in unchecked 32-bit arithmetic. */
    function StartSleep(): (ms: int)
      ensures INT32_MIN <= ms <= INT32_MAX
      ensures StartTimeSeconds <= 2147483 && StartTimeSeconds >= -2147483 ==> ms == StartTimeSeconds * 1000
    {
      Wrap32(StartTimeSeconds * 1000)
    }

    /** The stagger after a stop, `EndTimeSeconds * 1000` in unchecked 32-bit arithmetic; an
        unwatched process asks for -1000 ms. */
    function StopSleep(): (ms: int)
      ensures INT32_MIN <= ms <= INT32_MAX
      ensures EndTimeSeconds <= 2147483 && EndTimeSeconds >= -2147483 ==> ms == EndTimeSeconds * 1000
      ensures !IsBeingWatched() ==> ms == -1000
    {
      Wrap32(EndTimeSeconds * 1000)
    }

    /** The messages one call of Start sends. */
    function StartReports(launch: LaunchOutcome): (r: seq<Report>)
      ensures !IsCommandLineValid ==> r == [InvalidCommandLine(CommandLine)]
      ensures |r| <= 1
      ensures r == [] <==> IsCommandLineValid && launch.NoHandle?
    {
      if !IsCommandLineValid then [InvalidCommandLine(CommandLine)]
      else match launch
        case NoHandle => []
        case Exited(_) => [AlreadyExited(ExePath)]
        case Running(h) => [Started(h.name, h.id)]
        case Throws(InvalidOperation) => [NoFileSpecified]
        case Throws(FileNotFound) => [ExeNotFound(ExePath)]
        case Throws(OtherError) => [ActivationError]
    }

    /** Start reaches the stagger sleep unless the command line is invalid, the launched process
        had already exited, or the start is forced. */
    predicate StartSleeps(isForced: bool, launch: LaunchOutcome) {
      IsCommandLineValid && !launch.Exited? && !isForced
    }

    /** Start: launches ExePath with Arguments; `launch` is what Process.Start did. */
    method Start(isForced: bool, launch: LaunchOutcome)
      modifies this
      ensures ProcessObject == (if IsCommandLineValid && (launch.Exited? || launch.Running?)
                                then Some(launch.handle) else old(ProcessObject))
      ensures IsCommandLineValid && launch.Running? ==>
                ProcessName == launch.handle.name && ProcessId == launch.handle.id && IsStartedSuccessfully
      ensures !(IsCommandLineValid && launch.Running?) ==>
                ProcessName == old(ProcessName) && ProcessId == old(ProcessId)
                && IsStartedSuccessfully == old(IsStartedSuccessfully)
      ensures IsStoppedSuccessfully == old(IsStoppedSuccessfully) && LastRestart == old(LastRestart)
      ensures Reports == old(Reports) + StartReports(launch)
      ensures Sleeps == old(Sleeps) + (if StartSleeps(isForced, launch) then [StartSleep()] else [])
    {
      if !IsCommandLineValid {
        Reports := Reports + [InvalidCommandLine(CommandLine)];
        return;
      }
      match launch {
        case NoHandle =>
        case Exited(h) =>
          ProcessObject := Some(h);
          Reports := Reports + [AlreadyExited(ExePath)];
          return;
        case Running(h) =>
          ProcessObject := Some(h);
          ProcessName := h.name;
          ProcessId := h.id;
          IsStartedSuccessfully := true;
          Reports := Reports + [Started(ProcessName, ProcessId)];
        case Throws(InvalidOperation) =>
          Reports := Reports + [NoFileSpecified];
        case Throws(FileNotFound) =>
          Reports := Reports + [ExeNotFound(ExePath)];
        case Throws(OtherError) =>
          Reports := Reports + [ActivationError];
      }
      if !isForced {
        Sleeps := Sleeps + [StartSleep()];
      }
    }

    /** TryStop succeeds when there is a stored, not yet closed process and closing or killing it
        did not throw. */
    predicate StopSucceeds(outcome: StopOutcome)
      reads this
    {
      ProcessObject.Some? && !outcome.StopFailed?
    }

    /** TryStop: closes the stored process's main window, or kills it, and then closes the
        handle; every exception is swallowed. Afterwards the object refers to no process id and
        no name. */
    method TryStop(isForced: bool, outcome: StopOutcome)
      modifies this
      ensures IsStoppedSuccessfully == (old(IsStoppedSuccessfully) || old(StopSucceeds(outcome)))
      ensures Reports == old(Reports)
                         + (if old(StopSucceeds(outcome)) then [Stopped(old(ProcessName), old(ProcessId))] else [])
      ensures ProcessId == -1 && ProcessName == ""
      ensures ProcessObject == (if old(StopSucceeds(outcome)) then None else old(ProcessObject))
      ensures LastRestart == old(LastRestart)
      ensures IsStartedSuccessfully == old(IsStartedSuccessfully)
      ensures Sleeps == old(Sleeps) + (if isForced then [] else [StopSleep()])
    {
      if StopSucceeds(outcome) {
        ProcessObject := None;
        Reports := Reports + [Stopped(ProcessName, ProcessId)];
        IsStoppedSuccessfully := true;
      }
      ProcessId := -1;
      ProcessName := "";
      if !isForced {
        Sleeps := Sleeps + [StopSleep()];
      }
    }

    /** TryRestart: when a restart is due at `now`, reports it, stops and starts the process
        without stagger sleeps, and records `restartedAt` (the clock read after the start) as
        the last restart. */
    method TryRestart(now: DateTime, restartedAt: DateTime, stopOutcome: StopOutcome, launch: LaunchOutcome)
      modifies this
      ensures !old(RestartDue(RestartTimes, LastRestart, now)) ==>
                && ProcessName == old(ProcessName) && ProcessId == old(ProcessId)
                && ProcessObject == old(ProcessObject) && LastRestart == old(LastRestart)
                && IsStartedSuccessfully == old(IsStartedSuccessfully)
                && IsStoppedSuccessfully == old(IsStoppedSuccessfully)
                && Reports == old(Reports) && Sleeps == old(Sleeps)
      ensures old(RestartDue(RestartTimes, LastRestart, now)) ==>
                && LastRestart == Some(restartedAt)
                && Reports == old(Reports) + [Restarting(old(ProcessName), old(ProcessId))]
                              + (if old(StopSucceeds(stopOutcome)) then [Stopped(old(ProcessName), old(ProcessId))] else [])
                              + StartReports(launch)
                && ProcessObject == (if IsCommandLineValid && (launch.Exited? || launch.Running?)
                                     then Some(launch.handle)
                                     else if old(StopSucceeds(stopOutcome)) then None
                                     else old(ProcessObject))
                && (if IsCommandLineValid && launch.Running?
                    then ProcessName == launch.handle.name && ProcessId == launch.handle.id
                    else ProcessName == "" && ProcessId == -1)
                && IsStartedSuccessfully == (old(IsStartedSuccessfully) || (IsCommandLineValid && launch.Running?))
                && IsStoppedSuccessfully == (old(IsStoppedSuccessfully) || old(StopSucceeds(stopOutcome)))
                && Sleeps == old(Sleeps)
    {
      if !RestartDue(RestartTimes, LastRestart, now) {
        return;
      }
      Reports := Reports + [Restarting(ProcessName, ProcessId)];
      TryStop(true, stopOutcome);
      Start(true, launch);
      LastRestart := Some(restartedAt);
    }
  }
}
