/** Program: the original supervisor driven directly by the command line. ParseArgs reads the
    positional arguments into a list of process names and two tables of start and end delays;
    StartAll launches every listed name and returns the processes to watch; StopAll stops such
    a list in reverse order. The operating system's process table is the set `Live` of pids
    Process.GetProcessById finds, and the pids Process.Start hands out are a parameter. */
module Supervisor {
  import opened Wrappers
  import opened Strings
  import opened ArgGroups

  // ---------------------------------------------------------------------------
  // ParseArgs

  /** ProcessList, StartTimes and EndTimes. */
  datatype Tables = Tables(processList: seq<string>, startTimes: map<string, int>, endTimes: map<string, int>)

  /** The exceptions ParseArgs lets escape: Int32.Parse on text it cannot read (digits of
      another script, or beyond the 32-bit range), and Dictionary.Add on a process name that
      already has an entry. */
  datatype ParseError = ParseFailed(text: string) | DuplicateName(name: string)

  /** How ParseArgs ends: returning true; returning false after ArgError(text); returning false
      after the too-few-arguments message; or by an exception. */
  datatype ParseOutcome = Parsed | WrongArgument(text: string) | TooFewArguments | ParseThrew(error: ParseError)

  /** A delay argument read with the regular expression ^\d+$ and then `int.Parse(text) * 1000`:
      no match, a match Int32.Parse throws on, or the product in unchecked 32-bit arithmetic. */
  datatype DelayReading = NotDigits | Unparsable | Delay(ms: int)

  function ParseDelay(text: string): DelayReading {
    if !MatchesDigitsPattern(text) then NotDigits
    else match TryParseInt32(text)
      case None => Unparsable
      case Some(v) => Delay(Wrap32(v * 1000))
  }

  /** A delay is read from a digit line; it throws unless its digits are ASCII and at most
      INT32_MAX, and is then their value times 1000, wrapped to 32 bits. */
  lemma ParseDelayReadsDigits(text: string)
    ensures ParseDelay(text).NotDigits? <==> !IsDigitLine(text)
    ensures MatchesDigitsPattern(text) ==>
              var d := PatternBody(text);
              && (ParseDelay(text).Unparsable? <==> !(AllDigits(d) && DigitsValue(d) <= INT32_MAX))
              && (ParseDelay(text).Delay? ==> ParseDelay(text).ms == Wrap32(DigitsValue(d) * 1000))
  {
    MatchesDigitsPatternIsDigitLine(text);
    if MatchesDigitsPattern(text) {
      ParseOfDigitsPattern(text);
    }
  }

  /** "-1" is no digit line: as a start delay it is rejected. */
  lemma MinusOneIsNotDigits()
    ensures ParseDelay("-1").NotDigits?
  {
    MatchesDigitsPatternIsDigitLine("-1");
  }

  /** Arabic-Indic digits pass the regular expression, and Int32.Parse then throws. */
  lemma ArabicIndicDigitsThrow()
    ensures MatchesDigitsPattern("\U{0661}\U{0662}") && ParseDelay("\U{0661}\U{0662}").Unparsable?
  {
    var s := "\U{0661}\U{0662}";
    ParseDelayReadsDigits(s);
    assert !IsAsciiDigit(s[0]);
  }

  /** The loop of ParseArgs while it runs, and once it has returned or thrown. */
  datatype LoopState = Running(tables: Tables) | Ended(outcome: ParseOutcome, tables: Tables)

  /** Dictionary.Add(name, ms) on `table`, which throws on a name already present. */
  function AddDelay(table: map<string, int>, name: string, ms: int): Option<map<string, int>> {
    if name in table then None else Some(table[name := ms])
  }

  /** Iteration i (1 <= i < |args|) of the loop, by i % 3: 1 appends a process name, 2 adds
      its start delay, 0 adds its end delay, the literal "-1" standing for "not watched".
      Delays are read with `read`, which ParseArgs instantiates with ParseDelay. */
  function Step(args: seq<string>, i: nat, t: Tables, read: string -> DelayReading): LoopState
    requires 1 <= i < |args|
  {
    var text := args[i];
    if i % 3 == 1 then Running(t.(processList := t.processList + [text]))
    else
      var name := if i % 3 == 2 then args[i - 1] else args[i - 2];
      var reading := if i % 3 == 0 && text == "-1" then Delay(-1) else read(text);
      match reading
      case NotDigits => Ended(WrongArgument(text), t)
      case Unparsable => Ended(ParseThrew(ParseFailed(text)), t)
      case Delay(ms) =>
        if i % 3 == 2 then
          match AddDelay(t.startTimes, name, ms)
          case None => Ended(ParseThrew(DuplicateName(name)), t)
          case Some(table) => Running(t.(startTimes := table))
        else
          match AddDelay(t.endTimes, name, ms)
          case None => Ended(ParseThrew(DuplicateName(name)), t)
          case Some(table) => Running(t.(endTimes := table))
  }

  /** The loop state after iterations 1 .. n - 1, started on the tables t0. */
  function ArgLoop(args: seq<string>, n: nat, t0: Tables, read: string -> DelayReading): LoopState
    requires 1 <= n <= |args|
  {
    if n == 1 then Running(t0)
    else match ArgLoop(args, n - 1, t0, read)
      case Ended(outcome, t) => Ended(outcome, t)
      case Running(t) => Step(args, n - 1, t, read)
  }

  /** Once the loop has returned, later arguments are not looked at. */
  lemma {:induction false} EndedIsFinal(args: seq<string>, m: nat, n: nat, t0: Tables, read: string -> DelayReading)
    requires 1 <= m <= n <= |args| && ArgLoop(args, m, t0, read).Ended?
    ensures ArgLoop(args, n, t0, read) == ArgLoop(args, m, t0, read)
    decreases n - m
  {
    if m < n {
      EndedIsFinal(args, m, n - 1, t0, read);
    }
  }

  /** While the loop runs, ProcessList has gained the command of every group begun so far. */
  lemma {:induction false} ArgLoopProcessList(args: seq<string>, n: nat, t0: Tables, read: string -> DelayReading)
    requires 1 <= n <= |args| && ArgLoop(args, n, t0, read).Running?
    ensures ArgLoop(args, n, t0, read).tables.processList == t0.processList + CommandsBefore(args, n)
  {
    if n > 1 {
      ArgLoopProcessList(args, n - 1, t0, read);
      CommandsBeforeStep(args, n - 1);
    }
  }

  /** An iteration that does not end the loop appends the command, or adds a delay that was
      read under a command not yet in its table. */
  lemma StepRunning(args: seq<string>, i: nat, t: Tables, read: string -> DelayReading)
    requires 1 <= i < |args| && Step(args, i, t, read).Running?
    ensures var next := Step(args, i, t, read).tables;
      if i % 3 == 1 then next == t.(processList := t.processList + [args[i]])
      else if i % 3 == 2 then
        && read(args[i]).Delay? && args[i - 1] !in t.startTimes
        && next == t.(startTimes := t.startTimes[args[i - 1] := read(args[i]).ms])
      else
        && (args[i] == "-1" || read(args[i]).Delay?) && args[i - 2] !in t.endTimes
        && next == t.(endTimes := t.endTimes[args[i - 2] := if args[i] == "-1" then -1 else read(args[i]).ms])
  {
  }

  /** While the loop runs from a cleared StartTimes, StartTimes holds an entry for each group
      whose start delay has been read, under the group's command and with the delay read from
      its text. */
  lemma {:induction false} ArgLoopStartTimes(args: seq<string>, n: nat, t0: Tables, read: string -> DelayReading)
    requires 1 <= n <= |args| && ArgLoop(args, n, t0, read).Running? && t0.startTimes == map[]
    ensures var startTimes := ArgLoop(args, n, t0, read).tables.startTimes;
      forall g: nat :: 3 * g + 2 < n ==>
        && read(StartTextOf(args, g)).Delay?
        && CommandOf(args, g) in startTimes
        && startTimes[CommandOf(args, g)] == read(StartTextOf(args, g)).ms
  {
    if n > 1 {
      ArgLoopStartTimes(args, n - 1, t0, read);
      var t := ArgLoop(args, n - 1, t0, read).tables;
      var next := ArgLoop(args, n, t0, read).tables;
      StepRunning(args, n - 1, t, read);
      if (n - 1) % 3 == 2 {
        var g: nat := (n - 3) / 3;
        assert 3 * g + 2 == n - 1;
        assert args[n - 2] == CommandOf(args, g) && args[n - 1] == StartTextOf(args, g);
        assert next.startTimes == t.startTimes[CommandOf(args, g) := read(StartTextOf(args, g)).ms];
      } else {
        assert next.startTimes == t.startTimes;
      }
    }
  }

  /** And no other entry. */
  lemma {:induction false} ArgLoopStartKeys(args: seq<string>, n: nat, t0: Tables, read: string -> DelayReading)
    requires 1 <= n <= |args| && ArgLoop(args, n, t0, read).Running? && t0.startTimes == map[]
    ensures forall name :: name in ArgLoop(args, n, t0, read).tables.startTimes ==>
              exists g: nat :: 3 * g + 2 < n && CommandOf(args, g) == name
  {
    if n > 1 {
      ArgLoopStartKeys(args, n - 1, t0, read);
      var t := ArgLoop(args, n - 1, t0, read).tables;
      var next := ArgLoop(args, n, t0, read).tables;
      StepRunning(args, n - 1, t, read);
      if (n - 1) % 3 == 2 {
        var g: nat := (n - 3) / 3;
        assert 3 * g + 2 == n - 1;
        var name := CommandOf(args, g);
        assert args[n - 2] == name;
        forall key | key in next.startTimes
          ensures exists h: nat :: 3 * h + 2 < n && CommandOf(args, h) == key
        {
          if key == name {
            assert 3 * g + 2 < n && CommandOf(args, g) == key;
          }
        }
      } else {
        assert next.startTimes == t.startTimes;
      }
    }
  }

  /** The commands of the groups whose start delay has been read are pairwise distinct, since
      Dictionary.Add would have thrown on a repeated one. */
  lemma {:induction false} ArgLoopStartDistinct(args: seq<string>, n: nat, t0: Tables, read: string -> DelayReading)
    requires 1 <= n <= |args| && ArgLoop(args, n, t0, read).Running? && t0.startTimes == map[]
    ensures forall g: nat, h: nat :: g < h && 3 * h + 2 < n ==> CommandOf(args, g) != CommandOf(args, h)
  {
    if n > 1 {
      ArgLoopStartDistinct(args, n - 1, t0, read);
      if (n - 1) % 3 == 2 {
        var last: nat := (n - 3) / 3;
        StartAddsFresh(args, last, t0, read);
        forall g: nat, h: nat | g < h && 3 * h + 2 < n
          ensures CommandOf(args, g) != CommandOf(args, h)
        {
          if h != last {
            assert 3 * h + 2 < n - 1;
          }
        }
      }
    }
  }

  /** Reading the start delay of group `last` succeeds only under a command that no earlier
      group has. */
  lemma StartAddsFresh(args: seq<string>, last: nat, t0: Tables, read: string -> DelayReading)
    requires 3 * last + 3 <= |args| && ArgLoop(args, 3 * last + 3, t0, read).Running? && t0.startTimes == map[]
    ensures forall g: nat :: g < last ==> CommandOf(args, g) != CommandOf(args, last)
  {
    var n := 3 * last + 3;
    assert (n - 1) % 3 == 2 && (n - 1 - 2) / 3 == last;
    var t := ArgLoop(args, n - 1, t0, read).tables;
    assert Step(args, n - 1, t, read).Running?;
    StepRunning(args, n - 1, t, read);
    ArgLoopStartTimes(args, n - 1, t0, read);
    assert args[n - 2] == CommandOf(args, last) && args[n - 2] !in t.startTimes;
    forall g: nat | g < last
      ensures CommandOf(args, g) != CommandOf(args, last)
    {
      assert CommandOf(args, g) in t.startTimes;
    }
  }

  /** So StartTimes has one entry per group whose start delay has been read. */
  lemma {:induction false} ArgLoopStartCount(args: seq<string>, n: nat, t0: Tables, read: string -> DelayReading)
    requires 1 <= n <= |args| && ArgLoop(args, n, t0, read).Running? && t0.startTimes == map[]
    ensures |ArgLoop(args, n, t0, read).tables.startTimes| == n / 3
  {
    if n > 1 {
      ArgLoopStartCount(args, n - 1, t0, read);
      StepRunning(args, n - 1, ArgLoop(args, n - 1, t0, read).tables, read);
    }
  }

  /** While the loop runs from a cleared EndTimes, EndTimes holds an entry for each group whose
      end delay has been read, under the group's command, with -1 for the literal "-1" and
      otherwise the delay read from its text. */
  lemma {:induction false} ArgLoopEndTimes(args: seq<string>, n: nat, t0: Tables, read: string -> DelayReading)
    requires 1 <= n <= |args| && ArgLoop(args, n, t0, read).Running? && t0.endTimes == map[]
    ensures var endTimes := ArgLoop(args, n, t0, read).tables.endTimes;
      forall g: nat :: 3 * g + 3 < n ==>
        && (EndTextOf(args, g) == "-1" || read(EndTextOf(args, g)).Delay?)
        && CommandOf(args, g) in endTimes
        && endTimes[CommandOf(args, g)] == if EndTextOf(args, g) == "-1" then -1 else read(EndTextOf(args, g)).ms
  {
    if n > 1 {
      ArgLoopEndTimes(args, n - 1, t0, read);
      var t := ArgLoop(args, n - 1, t0, read).tables;
      var next := ArgLoop(args, n, t0, read).tables;
      StepRunning(args, n - 1, t, read);
      if (n - 1) % 3 == 0 {
        var g: nat := (n - 4) / 3;
        assert 3 * g + 3 == n - 1;
        var text := EndTextOf(args, g);
        assert args[n - 3] == CommandOf(args, g) && args[n - 1] == text;
        assert next.endTimes == t.endTimes[CommandOf(args, g) := if text == "-1" then -1 else read(text).ms];
      } else {
        assert next.endTimes == t.endTimes;
      }
    }
  }

  /** And no other entry. */
  lemma {:induction false} ArgLoopEndKeys(args: seq<string>, n: nat, t0: Tables, read: string -> DelayReading)
    requires 1 <= n <= |args| && ArgLoop(args, n, t0, read).Running? && t0.endTimes == map[]
    ensures forall name :: name in ArgLoop(args, n, t0, read).tables.endTimes ==>
              exists g: nat :: 3 * g + 3 < n && CommandOf(args, g) == name
  {
    if n > 1 {
      ArgLoopEndKeys(args, n - 1, t0, read);
      var t := ArgLoop(args, n - 1, t0, read).tables;
      var next := ArgLoop(args, n, t0, read).tables;
      StepRunning(args, n - 1, t, read);
      if (n - 1) % 3 == 0 {
        var g: nat := (n - 4) / 3;
        assert 3 * g + 3 == n - 1;
        var name := CommandOf(args, g);
        assert args[n - 3] == name;
        forall key | key in next.endTimes
          ensures exists h: nat :: 3 * h + 3 < n && CommandOf(args, h) == key
        {
          if key == name {
            assert 3 * g + 3 < n && CommandOf(args, g) == key;
          }
        }
      } else {
        assert next.endTimes == t.endTimes;
      }
    }
  }

  /** EndTimes has one entry per group whose end delay has been read. */
  lemma {:induction false} ArgLoopEndCount(args: seq<string>, n: nat, t0: Tables, read: string -> DelayReading)
    requires 1 <= n <= |args| && ArgLoop(args, n, t0, read).Running? && t0.endTimes == map[]
    ensures |ArgLoop(args, n, t0, read).tables.endTimes| == (n - 1) / 3
  {
    if n > 1 {
      ArgLoopEndCount(args, n - 1, t0, read);
      StepRunning(args, n - 1, ArgLoop(args, n - 1, t0, read).tables, read);
    }
  }

  /** A delay argument that is not a digit line (and, for an end delay, not "-1") ends the
      loop at once with ArgError on that argument, keeping the tables read before it. */
  lemma NonDigitDelayRejected(args: seq<string>, k: nat, t0: Tables)
    requires 1 <= k < |args| && k % 3 != 1 && ArgLoop(args, k, t0, ParseDelay).Running?
    requires !IsDigitLine(args[k]) && !(k % 3 == 0 && args[k] == "-1")
    ensures ArgLoop(args, |args|, t0, ParseDelay) == Ended(WrongArgument(args[k]), ArgLoop(args, k, t0, ParseDelay).tables)
  {
    ParseDelayReadsDigits(args[k]);
    UnreadDelayRejected(args, k, t0, ParseDelay);
  }

  /** A delay argument `read` rejects ends the loop at once with ArgError on it. */
  lemma UnreadDelayRejected(args: seq<string>, k: nat, t0: Tables, read: string -> DelayReading)
    requires 1 <= k < |args| && k % 3 != 1 && ArgLoop(args, k, t0, read).Running?
    requires read(args[k]).NotDigits? && !(k % 3 == 0 && args[k] == "-1")
    ensures ArgLoop(args, |args|, t0, read) == Ended(WrongArgument(args[k]), ArgLoop(args, k, t0, read).tables)
  {
    EndedIsFinal(args, k + 1, |args|, t0, read);
  }

  /** A group whose command repeats that of an earlier group makes StartTimes.Add throw once its
      start delay has been read. */
  lemma DuplicateCommandRejected(args: seq<string>, g: nat, h: nat, t0: Tables, read: string -> DelayReading)
    requires g < h && 3 * h + 2 < |args| && CommandOf(args, g) == CommandOf(args, h)
    requires t0.startTimes == map[] && ArgLoop(args, 3 * h + 2, t0, read).Running?
    requires read(StartTextOf(args, h)).Delay?
    ensures ArgLoop(args, |args|, t0, read)
            == Ended(ParseThrew(DuplicateName(CommandOf(args, h))), ArgLoop(args, 3 * h + 2, t0, read).tables)
  {
    var k := 3 * h + 2;
    ArgLoopStartTimes(args, k, t0, read);
    assert CommandOf(args, g) in ArgLoop(args, k, t0, read).tables.startTimes;
    assert args[k - 1] == CommandOf(args, h) && args[k] == StartTextOf(args, h);
    EndedIsFinal(args, k + 1, |args|, t0, read);
  }

  /** The guard of StartAll: a non-empty ProcessList with as many start delays as names. */
  predicate CanStart(t: Tables) {
    |t.processList| > 0 && |t.startTimes| == |t.processList|
  }

  /** After a complete parse from an empty ProcessList, StartAll's guard fails exactly when the
      last group holds a command only; when it holds a command and a start delay, that command
      has no end delay (so StartAll's EndTimes lookup throws). */
  lemma {:induction false} TrailingGroup(args: seq<string>, read: string -> DelayReading)
    requires |args| > 4 && ArgLoop(args, |args|, Tables([], map[], map[]), read).Running?
    ensures var t := ArgLoop(args, |args|, Tables([], map[], map[]), read).tables;
      && (CanStart(t) <==> |args| % 3 != 2)
      && (|args| % 3 == 0 ==> t.processList[|t.processList| - 1] !in t.endTimes)
  {
    var n := |args|;
    var t0 := Tables([], map[], map[]);
    var t := ArgLoop(args, n, t0, read).tables;
    ArgLoopProcessList(args, n, t0, read);
    ArgLoopStartCount(args, n, t0, read);
    if n % 3 == 0 {
      var last: nat := (n - 3) / 3;
      assert t.processList[|t.processList| - 1] == CommandOf(args, last);
      if CommandOf(args, last) in t.endTimes {
        ArgLoopEndKeys(args, n, t0, read);
        ArgLoopStartDistinct(args, n, t0, read);
        assert false;
      }
    }
  }

  /** One pass of the switch in the loop of ParseArgs, on argument i and the tables `t`: the
      outcome that ends the loop, if any, and the tables after the pass. */
  method ReadArgument(args: seq<string>, i: nat, t: Tables) returns (failure: Option<ParseOutcome>, next: Tables)
    requires 1 <= i < |args|
    ensures Step(args, i, t, ParseDelay) == if failure.None? then Running(next) else Ended(failure.value, next)
  {
    var text := args[i];
    next := t;
    failure := None;
    if i % 3 == 2 {
      var reading := ParseDelay(text);
      if reading.NotDigits? {
        failure := Some(WrongArgument(text));
      } else if reading.Unparsable? {
        failure := Some(ParseThrew(ParseFailed(text)));
      } else if args[i - 1] in t.startTimes {
        failure := Some(ParseThrew(DuplicateName(args[i - 1])));
      } else {
        next := t.(startTimes := t.startTimes[args[i - 1] := reading.ms]);
      }
    } else if i % 3 == 1 {
      next := t.(processList := t.processList + [text]);
    } else {
      var reading := if text == "-1" then Delay(-1) else ParseDelay(text);
      if reading.NotDigits? {
        failure := Some(WrongArgument(text));
      } else if reading.Unparsable? {
        failure := Some(ParseThrew(ParseFailed(text)));
      } else if args[i - 2] in t.endTimes {
        failure := Some(ParseThrew(DuplicateName(args[i - 2])));
      } else {
        next := t.(endTimes := t.endTimes[args[i - 2] := reading.ms]);
      }
    }
  }

  /** The for loop of ParseArgs over args[1..], started on the process list `processList0`
      and cleared delay tables: how it ends, and the tables it leaves. */
  method ReadGroups(args: seq<string>, processList0: seq<string>) returns (outcome: ParseOutcome, tables: Tables)
    requires |args| >= 1
    ensures var final := ArgLoop(args, |args|, Tables(processList0, map[], map[]), ParseDelay);
      tables == final.tables && outcome == (if final.Running? then Parsed else final.outcome)
  {
    tables := Tables(processList0, map[], map[]);
    outcome := Parsed;
    var i := 1;
    while i < |args|
      invariant 1 <= i <= |args|
      invariant ArgLoop(args, i, Tables(processList0, map[], map[]), ParseDelay) == Running(tables)
      invariant outcome == Parsed
    {
      var failure, next := ReadArgument(args, i, tables);
      if failure.Some? {
        outcome := failure.value;
        EndedIsFinal(args, i + 1, |args|, Tables(processList0, map[], map[]), ParseDelay);
        break;
      }
      tables := next;
      i := i + 1;
    }
  }

  // ---------------------------------------------------------------------------
  // StartAll and StopAll

  /** The exceptions StartAll and StopAll let escape: a Dictionary indexer on a missing key
      (KeyNotFoundException), and ProcFiles.Add on a pid already present (ArgumentException). */
  datatype Fault = NoEndTime(name: string) | NoStartTime(name: string) | PidTaken(pid: int) | NoProcFile(pid: int)

  /** StartAll's null, its list of processes to watch, or an exception. */
  datatype StartResult = NotStarted | Watching(processes: seq<int>) | StartThrew(fault: Fault)

  /** The foreach loop of StartAll part-way: the processes kept for watching, ProcFiles, and
      the Thread.Sleep durations so far; or the exception that ended it, with ProcFiles and
      the sleeps as the exception left them. */
  datatype Launching =
    | Launching(watched: seq<int>, procFiles: map<int, string>, sleeps: seq<int>)
    | LaunchFailed(fault: Fault, procFiles: map<int, string>, sleeps: seq<int>)

  /** One iteration: process `name` has been started as `pid`; it is kept for watching unless
      its end delay is -1, recorded in ProcFiles, and followed by a sleep of its start delay. */
  function LaunchOne(t: Tables, name: string, pid: int, l: Launching): Launching
    requires l.Launching?
  {
    if name !in t.endTimes then LaunchFailed(NoEndTime(name), l.procFiles, l.sleeps)
    else
      var watched := if t.endTimes[name] != -1 then l.watched + [pid] else l.watched;
      if pid in l.procFiles then LaunchFailed(PidTaken(pid), l.procFiles, l.sleeps)
      else
        var procFiles := l.procFiles[pid := name];
        if name !in t.startTimes then LaunchFailed(NoStartTime(name), procFiles, l.sleeps)
        else Launching(watched, procFiles, l.sleeps + [t.startTimes[name]])
  }

  /** The loop over the first n names of ProcessList, the i-th started as pids[i], from a
      cleared ProcFiles. */
  function LaunchAll(t: Tables, pids: seq<int>, n: nat): Launching
    requires n <= |t.processList| && n <= |pids|
  {
    if n == 0 then Launching([], map[], [])
    else match LaunchAll(t, pids, n - 1)
      case LaunchFailed(fault, procFiles, sleeps) => LaunchFailed(fault, procFiles, sleeps)
      case Launching(_, _, _) => LaunchOne(t, t.processList[n - 1], pids[n - 1], LaunchAll(t, pids, n - 1))
  }

  /** Every name launched so far has both delays, the pids handed out are distinct, ProcFiles
      maps each of them to its name and nothing else, and the sleeps are the start delays in
      ProcessList order. */
  lemma {:induction false} LaunchAllFiles(t: Tables, pids: seq<int>, n: nat)
    requires n <= |t.processList| && n <= |pids| && LaunchAll(t, pids, n).Launching?
    ensures var l := LaunchAll(t, pids, n);
      && (forall j :: 0 <= j < n ==> t.processList[j] in t.endTimes && t.processList[j] in t.startTimes)
      && (forall i, j :: 0 <= i < j < n ==> pids[i] != pids[j])
      && (forall j :: 0 <= j < n ==> pids[j] in l.procFiles && l.procFiles[pids[j]] == t.processList[j])
      && (forall pid :: pid in l.procFiles ==> exists j :: 0 <= j < n && pids[j] == pid)
      && |l.sleeps| == n
      && (forall j :: 0 <= j < n ==> l.sleeps[j] == t.startTimes[t.processList[j]])
  {
    if n > 0 {
      LaunchAllFiles(t, pids, n - 1);
      var l := LaunchAll(t, pids, n - 1);
      var next := LaunchAll(t, pids, n);
      assert next.procFiles == l.procFiles[pids[n - 1] := t.processList[n - 1]];
      forall pid | pid in next.procFiles
        ensures exists j :: 0 <= j < n && pids[j] == pid
      {
        if pid == pids[n - 1] {
          assert pids[n - 1] == pid;
        }
      }
    }
  }

  /** The processes kept for watching are exactly the started ones whose end delay is not -1. */
  lemma {:induction false} LaunchAllWatched(t: Tables, pids: seq<int>, n: nat)
    requires n <= |t.processList| && n <= |pids| && LaunchAll(t, pids, n).Launching?
    ensures forall pid :: pid in LaunchAll(t, pids, n).watched <==>
              exists j :: 0 <= j < n && pids[j] == pid && t.processList[j] in t.endTimes && t.endTimes[t.processList[j]] != -1
  {
    if n > 0 {
      LaunchAllWatched(t, pids, n - 1);
      var w := LaunchAll(t, pids, n - 1).watched;
      var next := LaunchAll(t, pids, n).watched;
      var name := t.processList[n - 1];
      assert name in t.endTimes;
      assert next == if t.endTimes[name] != -1 then w + [pids[n - 1]] else w;
      forall pid
        ensures pid in next <==>
          exists j :: 0 <= j < n && pids[j] == pid && t.processList[j] in t.endTimes && t.endTimes[t.processList[j]] != -1
      {
        if exists j :: 0 <= j < n && pids[j] == pid && t.processList[j] in t.endTimes && t.endTimes[t.processList[j]] != -1 {
          var j :| 0 <= j < n && pids[j] == pid && t.processList[j] in t.endTimes && t.endTimes[t.processList[j]] != -1;
          if j < n - 1 {
            assert pid in w;
          }
        }
        if pid in next && pid !in w {
          assert pids[n - 1] == pid;
        }
      }
    }
  }

  /** Every two entries of `w` were handed out in that order among the first n pids. */
  predicate InStartOrder(w: seq<int>, pids: seq<int>, n: nat)
    requires n <= |pids|
  {
    forall a, b :: 0 <= a < b < |w| ==> exists i, j :: 0 <= i < j < n && pids[i] == w[a] && pids[j] == w[b]
  }

  /** They are kept in the order they were started. */
  lemma {:induction false} LaunchAllWatchedInOrder(t: Tables, pids: seq<int>, n: nat)
    requires n <= |t.processList| && n <= |pids| && LaunchAll(t, pids, n).Launching?
    ensures InStartOrder(LaunchAll(t, pids, n).watched, pids, n)
  {
    if n > 0 {
      LaunchAllWatchedInOrder(t, pids, n - 1);
      LaunchAllWatched(t, pids, n - 1);
      var w := LaunchAll(t, pids, n - 1).watched;
      var next := LaunchAll(t, pids, n).watched;
      var name := t.processList[n - 1];
      assert name in t.endTimes;
      assert next == if t.endTimes[name] != -1 then w + [pids[n - 1]] else w;
      forall a, b | 0 <= a < b < |next|
        ensures exists i, j :: 0 <= i < j < n && pids[i] == next[a] && pids[j] == next[b]
      {
        assert next[a] == w[a] && w[a] in w;
        if b == |w| {
          var i :| 0 <= i < n - 1 && pids[i] == w[a] && t.processList[i] in t.endTimes && t.endTimes[t.processList[i]] != -1;
          assert 0 <= i < n - 1 < n && pids[i] == next[a] && pids[n - 1] == next[b];
        } else {
          assert next[b] == w[b];
          var i, j :| 0 <= i < j < n - 1 && pids[i] == w[a] && pids[j] == w[b];
          assert 0 <= i < j < n && pids[i] == next[a] && pids[j] == next[b];
        }
      }
      assert InStartOrder(next, pids, n);
    }
  }

  /** Conversely, the loop runs through when every name has both delays and the pids are
      distinct. */
  lemma {:induction false} LaunchAllSucceeds(t: Tables, pids: seq<int>, n: nat)
    requires n <= |t.processList| && n <= |pids|
    requires forall j :: 0 <= j < n ==> t.processList[j] in t.endTimes && t.processList[j] in t.startTimes
    requires forall i, j :: 0 <= i < j < n ==> pids[i] != pids[j]
    ensures LaunchAll(t, pids, n).Launching?
  {
    if n > 0 {
      LaunchAllSucceeds(t, pids, n - 1);
      LaunchAllFiles(t, pids, n - 1);
      if pids[n - 1] in LaunchAll(t, pids, n - 1).procFiles {
        assert false;
      }
    }
  }

  /** The foreach loop of StartAll over ProcessList, started on a cleared ProcFiles, with
      Process.Start handing out pids[i] for the i-th name. */
  method LaunchList(t: Tables, pids: seq<int>) returns (result: StartResult, procFiles: map<int, string>, ghost sleeps: seq<int>)
    requires |pids| == |t.processList|
    ensures var l := LaunchAll(t, pids, |pids|);
      && procFiles == l.procFiles
      && result == if l.Launching? then Watching(l.watched) else StartThrew(l.fault)
    ensures sleeps == LaunchAll(t, pids, |pids|).sleeps
  {
    var watched: seq<int> := [];
    procFiles := map[];
    sleeps := [];
    var i := 0;
    while i < |pids|
      invariant 0 <= i <= |pids|
      invariant LaunchAll(t, pids, i) == Launching(watched, procFiles, sleeps)
    {
      var name, pid := t.processList[i], pids[i];
      if name !in t.endTimes {
        result := StartThrew(NoEndTime(name));
        RunsOnAfterFault(t, pids, i + 1, |pids|);
        return;
      }
      if t.endTimes[name] != -1 {
        watched := watched + [pid];
      }
      if pid in procFiles {
        result := StartThrew(PidTaken(pid));
        RunsOnAfterFault(t, pids, i + 1, |pids|);
        return;
      }
      procFiles := procFiles[pid := name];
      if name !in t.startTimes {
        result := StartThrew(NoStartTime(name));
        RunsOnAfterFault(t, pids, i + 1, |pids|);
        return;
      }
      sleeps := sleeps + [t.startTimes[name]];
      i := i + 1;
    }
    result := Watching(watched);
  }

  /** Once an exception has ended the loop, later names are not started. */
  lemma {:induction false} RunsOnAfterFault(t: Tables, pids: seq<int>, m: nat, n: nat)
    requires m <= n <= |t.processList| && n <= |pids| && LaunchAll(t, pids, m).LaunchFailed?
    ensures LaunchAll(t, pids, n) == LaunchAll(t, pids, m)
    decreases n - m
  {
    if m < n {
      RunsOnAfterFault(t, pids, m, n - 1);
    }
  }

  /** With complete groups only, every command read has both delays. */
  lemma CompleteGroupsHaveDelays(args: seq<string>, t0: Tables, read: string -> DelayReading)
    requires |args| % 3 == 1 && ArgLoop(args, |args|, t0, read).Running?
    requires t0.startTimes == map[] && t0.endTimes == map[]
    ensures var t := ArgLoop(args, |args|, t0, read).tables;
      forall g: nat :: 3 * g + 1 < |args| ==> CommandOf(args, g) in t.startTimes && CommandOf(args, g) in t.endTimes
  {
    ArgLoopStartTimes(args, |args|, t0, read);
    ArgLoopEndTimes(args, |args|, t0, read);
    forall g: nat | 3 * g + 1 < |args|
      ensures 3 * g + 3 < |args|
    {
    }
  }

  /** A parse of complete groups from an empty ProcessList, started with distinct pids,
      launches every process without an exception. */
  lemma CompleteGroupsLaunch(args: seq<string>, read: string -> DelayReading, pids: seq<int>)
    requires |args| > 4 && |args| % 3 == 1 && ArgLoop(args, |args|, Tables([], map[], map[]), read).Running?
    requires |pids| == |ArgLoop(args, |args|, Tables([], map[], map[]), read).tables.processList|
    requires forall i, j :: 0 <= i < j < |pids| ==> pids[i] != pids[j]
    ensures LaunchAll(ArgLoop(args, |args|, Tables([], map[], map[]), read).tables, pids, |pids|).Launching?
  {
    var n := |args|;
    var t0 := Tables([], map[], map[]);
    var t := ArgLoop(args, n, t0, read).tables;
    ArgLoopProcessList(args, n, t0, read);
    CompleteGroupsHaveDelays(args, t0, read);
    forall j | 0 <= j < |pids|
      ensures t.processList[j] in t.endTimes && t.processList[j] in t.startTimes
    {
      assert t.processList[j] == CommandOf(args, j);
    }
    LaunchAllSucceeds(t, pids, |pids|);
  }

  /** A trailing group of a command and a start delay passes StartAll's guard, and StartAll
      then throws: the EndTimes lookup for that command, or an earlier one, fails. */
  lemma TrailingStartThrows(args: seq<string>, read: string -> DelayReading, pids: seq<int>)
    requires |args| > 4 && |args| % 3 == 0 && ArgLoop(args, |args|, Tables([], map[], map[]), read).Running?
    requires |pids| == |ArgLoop(args, |args|, Tables([], map[], map[]), read).tables.processList|
    ensures CanStart(ArgLoop(args, |args|, Tables([], map[], map[]), read).tables)
    ensures LaunchAll(ArgLoop(args, |args|, Tables([], map[], map[]), read).tables, pids, |pids|).LaunchFailed?
  {
    var t := ArgLoop(args, |args|, Tables([], map[], map[]), read).tables;
    TrailingGroup(args, read);
    if LaunchAll(t, pids, |pids|).Launching? {
      LaunchAllFiles(t, pids, |pids|);
      assert false;
    }
  }

  /** What StopAll does to a live process it stops: Close after CloseMainWindow succeeded, or
      Kill and Close when it did not. */
  datatype StopAction = ClosedWindow(pid: int) | Killed(pid: int)

  /** The foreach loop of StopAll part-way: the processes stopped and the Thread.Sleep
      durations so far, or the exception that ended it with what was done before. */
  datatype Stopping =
    | Stopping(stops: seq<StopAction>, sleeps: seq<int>)
    | StopFailed(fault: Fault, stops: seq<StopAction>, sleeps: seq<int>)

  /** One iteration on `pid`: a pid the process table does not know (GetProcessById throws
      ArgumentException, which is caught) sleeps 0; otherwise the end delay of its name is looked
      up, -1 continues without sleeping, and any other value stops the process and sleeps that
      long. `closes` holds the processes whose main window accepts the close request. */
  function StopOne(endTimes: map<string, int>, procFiles: map<int, string>, live: set<int>, closes: set<int>,
                   pid: int, s: Stopping): Stopping
    requires s.Stopping?
  {
    if pid !in live then Stopping(s.stops, s.sleeps + [0])
    else if pid !in procFiles then StopFailed(NoProcFile(pid), s.stops, s.sleeps)
    else if procFiles[pid] !in endTimes then StopFailed(NoEndTime(procFiles[pid]), s.stops, s.sleeps)
    else if endTimes[procFiles[pid]] == -1 then s
    else
      var action := if pid in closes then ClosedWindow(pid) else Killed(pid);
      Stopping(s.stops + [action], s.sleeps + [endTimes[procFiles[pid]]])
  }

  /** The loop over the first n entries of `list`. */
  function StopEach(endTimes: map<string, int>, procFiles: map<int, string>, live: set<int>, closes: set<int>,
                    list: seq<int>, n: nat): Stopping
    requires n <= |list|
  {
    if n == 0 then Stopping([], [])
    else match StopEach(endTimes, procFiles, live, closes, list, n - 1)
      case StopFailed(fault, stops, sleeps) => StopFailed(fault, stops, sleeps)
      case Stopping(_, _) => StopOne(endTimes, procFiles, live, closes, list[n - 1], StopEach(endTimes, procFiles, live, closes, list, n - 1))
  }

  /** Whatever the loop stops is a live process that ProcFiles names and whose end delay is not
      -1; it stops at most one process per entry and sleeps at most once per entry. */
  lemma {:induction false} StopEachStopsWatched(endTimes: map<string, int>, procFiles: map<int, string>, live: set<int>,
                                                closes: set<int>, list: seq<int>, n: nat)
    requires n <= |list|
    ensures var s := StopEach(endTimes, procFiles, live, closes, list, n);
      && |s.stops| <= |s.sleeps| <= n
      && forall k :: 0 <= k < |s.stops| ==>
           var pid := s.stops[k].pid;
           pid in live && pid in procFiles && procFiles[pid] in endTimes && endTimes[procFiles[pid]] != -1
  {
    if n > 0 {
      StopEachStopsWatched(endTimes, procFiles, live, closes, list, n - 1);
    }
  }

  /** When every entry is a live process that ProcFiles names with an end delay other than -1,
      the loop runs through and stops each entry in list order, sleeping its end delay after
      each. */
  lemma {:induction false} StopEachStopsAll(endTimes: map<string, int>, procFiles: map<int, string>, live: set<int>,
                                            closes: set<int>, list: seq<int>, n: nat)
    requires n <= |list|
    requires forall j :: 0 <= j < n ==>
               list[j] in live && list[j] in procFiles && procFiles[list[j]] in endTimes && endTimes[procFiles[list[j]]] != -1
    ensures var s := StopEach(endTimes, procFiles, live, closes, list, n);
      && s.Stopping? && |s.stops| == n && |s.sleeps| == n
      && forall k :: 0 <= k < n ==>
           && s.stops[k] == (if list[k] in closes then ClosedWindow(list[k]) else Killed(list[k]))
           && s.sleeps[k] == endTimes[procFiles[list[k]]]
  {
    if n > 0 {
      StopEachStopsAll(endTimes, procFiles, live, closes, list, n - 1);
    }
  }

  /** An entry that raises no exception: GetProcessById does not find it, or ProcFiles names it
      and EndTimes has a delay for that name. */
  predicate EntryPasses(endTimes: map<string, int>, procFiles: map<int, string>, live: set<int>, pid: int) {
    pid !in live || (pid in procFiles && procFiles[pid] in endTimes)
  }

  /** The process one passing entry stops: none when it is not found or its end delay is -1. */
  function EntryStops(endTimes: map<string, int>, procFiles: map<int, string>, live: set<int>, closes: set<int>,
                      pid: int): seq<StopAction>
    requires EntryPasses(endTimes, procFiles, live, pid)
  {
    if pid !in live || endTimes[procFiles[pid]] == -1 then []
    else [if pid in closes then ClosedWindow(pid) else Killed(pid)]
  }

  /** The sleep one passing entry takes: 0 ms when it is not found, none when its end delay is
      -1 (the `continue` skips the sleep), and its end delay otherwise. */
  function EntrySleeps(endTimes: map<string, int>, procFiles: map<int, string>, live: set<int>, pid: int): seq<int>
    requires EntryPasses(endTimes, procFiles, live, pid)
  {
    if pid !in live then [0]
    else if endTimes[procFiles[pid]] == -1 then []
    else [endTimes[procFiles[pid]]]
  }

  /** The stops of a list of passing entries, entry by entry in list order. */
  function StopsOf(endTimes: map<string, int>, procFiles: map<int, string>, live: set<int>, closes: set<int>,
                   list: seq<int>): seq<StopAction>
    requires forall j :: 0 <= j < |list| ==> EntryPasses(endTimes, procFiles, live, list[j])
  {
    if list == [] then []
    else EntryStops(endTimes, procFiles, live, closes, list[0]) + StopsOf(endTimes, procFiles, live, closes, list[1..])
  }

  /** The sleeps of a list of passing entries, entry by entry in list order. */
  function SleepsOf(endTimes: map<string, int>, procFiles: map<int, string>, live: set<int>, list: seq<int>): seq<int>
    requires forall j :: 0 <= j < |list| ==> EntryPasses(endTimes, procFiles, live, list[j])
  {
    if list == [] then []
    else EntrySleeps(endTimes, procFiles, live, list[0]) + SleepsOf(endTimes, procFiles, live, list[1..])
  }

  lemma {:induction false} StopsOfAppend(endTimes: map<string, int>, procFiles: map<int, string>, live: set<int>,
                                         closes: set<int>, list: seq<int>, pid: int)
    requires forall j :: 0 <= j < |list| ==> EntryPasses(endTimes, procFiles, live, list[j])
    requires EntryPasses(endTimes, procFiles, live, pid)
    ensures forall j :: 0 <= j < |list + [pid]| ==> EntryPasses(endTimes, procFiles, live, (list + [pid])[j])
    ensures StopsOf(endTimes, procFiles, live, closes, list + [pid])
            == StopsOf(endTimes, procFiles, live, closes, list) + EntryStops(endTimes, procFiles, live, closes, pid)
  {
    var l := list + [pid];
    assert forall j :: 0 <= j < |l| ==> l[j] == if j < |list| then list[j] else pid;
    if list != [] {
      assert l[0] == list[0] && l[1..] == list[1..] + [pid];
      StopsOfAppend(endTimes, procFiles, live, closes, list[1..], pid);
      var head, tail := EntryStops(endTimes, procFiles, live, closes, list[0]), StopsOf(endTimes, procFiles, live, closes, list[1..]);
      assert StopsOf(endTimes, procFiles, live, closes, l) == head + (tail + EntryStops(endTimes, procFiles, live, closes, pid));
      assert head + (tail + EntryStops(endTimes, procFiles, live, closes, pid)) == (head + tail) + EntryStops(endTimes, procFiles, live, closes, pid);
    }
  }

  lemma {:induction false} SleepsOfAppend(endTimes: map<string, int>, procFiles: map<int, string>, live: set<int>,
                                          list: seq<int>, pid: int)
    requires forall j :: 0 <= j < |list| ==> EntryPasses(endTimes, procFiles, live, list[j])
    requires EntryPasses(endTimes, procFiles, live, pid)
    ensures forall j :: 0 <= j < |list + [pid]| ==> EntryPasses(endTimes, procFiles, live, (list + [pid])[j])
    ensures SleepsOf(endTimes, procFiles, live, list + [pid])
            == SleepsOf(endTimes, procFiles, live, list) + EntrySleeps(endTimes, procFiles, live, pid)
  {
    var l := list + [pid];
    assert forall j :: 0 <= j < |l| ==> l[j] == if j < |list| then list[j] else pid;
    if list != [] {
      assert l[0] == list[0] && l[1..] == list[1..] + [pid];
      SleepsOfAppend(endTimes, procFiles, live, list[1..], pid);
      var head, tail := EntrySleeps(endTimes, procFiles, live, list[0]), SleepsOf(endTimes, procFiles, live, list[1..]);
      assert SleepsOf(endTimes, procFiles, live, l) == head + (tail + EntrySleeps(endTimes, procFiles, live, pid));
      assert head + (tail + EntrySleeps(endTimes, procFiles, live, pid)) == (head + tail) + EntrySleeps(endTimes, procFiles, live, pid);
    }
  }

  /** StopAll's loop in closed form, over any list up to its first exception: a pid that is not
      found adds a 0 ms sleep and nothing else, an entry whose end delay is -1 adds neither a stop
      nor a sleep, and any other entry adds its stop and a sleep of its end delay. */
  lemma {:induction false} StopEachIsPerEntry(endTimes: map<string, int>, procFiles: map<int, string>, live: set<int>,
                                              closes: set<int>, list: seq<int>, n: nat)
    requires n <= |list|
    requires forall j :: 0 <= j < n ==> EntryPasses(endTimes, procFiles, live, list[j])
    ensures StopEach(endTimes, procFiles, live, closes, list, n)
            == Stopping(StopsOf(endTimes, procFiles, live, closes, list[..n]), SleepsOf(endTimes, procFiles, live, list[..n]))
  {
    if n > 0 {
      StopEachIsPerEntry(endTimes, procFiles, live, closes, list, n - 1);
      assert list[..n] == list[..n - 1] + [list[n - 1]];
      StopsOfAppend(endTimes, procFiles, live, closes, list[..n - 1], list[n - 1]);
      SleepsOfAppend(endTimes, procFiles, live, list[..n - 1], list[n - 1]);
    }
  }

  /** The first entry that does not pass ends the loop with its exception, keeping what the
      entries before it did. */
  lemma StopEachFirstFault(endTimes: map<string, int>, procFiles: map<int, string>, live: set<int>,
                           closes: set<int>, list: seq<int>, j: nat)
    requires j < |list| && !EntryPasses(endTimes, procFiles, live, list[j])
    requires forall i :: 0 <= i < j ==> EntryPasses(endTimes, procFiles, live, list[i])
    ensures StopEach(endTimes, procFiles, live, closes, list, |list|)
            == StopFailed(if list[j] !in procFiles then NoProcFile(list[j]) else NoEndTime(procFiles[list[j]]),
                          StopsOf(endTimes, procFiles, live, closes, list[..j]), SleepsOf(endTimes, procFiles, live, list[..j]))
  {
    StopEachIsPerEntry(endTimes, procFiles, live, closes, list, j);
    StopsAfterFault(endTimes, procFiles, live, closes, list, j + 1, |list|);
  }

  /** `s` in reverse order. */
  function Reversed(s: seq<int>): (r: seq<int>)
    ensures |r| == |s| && forall i :: 0 <= i < |s| ==> r[i] == s[|s| - 1 - i]
  {
    if s == [] then [] else Reversed(s[1..]) + [s[0]]
  }

  /** Reversing twice gives the list back. */
  lemma ReversedInvolutive(s: seq<int>)
    ensures Reversed(Reversed(s)) == s
  {
    var r := Reversed(Reversed(s));
    assert forall i :: 0 <= i < |s| ==> r[i] == Reversed(s)[|s| - 1 - i] == s[i];
  }

  /** List<T>.Reverse(): reverses the caller's list in place. */
  method ReverseInPlace(a: array<int>)
    modifies a
    ensures a[..] == Reversed(old(a[..]))
  {
    var i := 0;
    while i < a.Length / 2
      invariant 0 <= i <= a.Length / 2
      invariant forall k :: 0 <= k < i ==> a[k] == old(a[a.Length - 1 - k]) && a[a.Length - 1 - k] == old(a[k])
      invariant forall k :: i <= k < a.Length - i ==> a[k] == old(a[k])
    {
      a[i], a[a.Length - 1 - i] := a[a.Length - 1 - i], a[i];
      i := i + 1;
    }
  }

  /** The foreach loop of StopAll over `list`. */
  method StopList(endTimes: map<string, int>, procFiles: map<int, string>, live: set<int>, closes: set<int>, list: seq<int>)
    returns (fault: Option<Fault>, stops: seq<StopAction>, ghost sleeps: seq<int>)
    ensures var s := StopEach(endTimes, procFiles, live, closes, list, |list|);
      && stops == s.stops
      && fault == if s.Stopping? then None else Some(s.fault)
    ensures sleeps == StopEach(endTimes, procFiles, live, closes, list, |list|).sleeps
  {
    stops, sleeps := [], [];
    var i := 0;
    while i < |list|
      invariant 0 <= i <= |list|
      invariant StopEach(endTimes, procFiles, live, closes, list, i) == Stopping(stops, sleeps)
    {
      var pid := list[i];
      var sleepTime := 0;
      if pid in live {
        if pid !in procFiles {
          fault := Some(NoProcFile(pid));
          StopsAfterFault(endTimes, procFiles, live, closes, list, i + 1, |list|);
          return;
        }
        var name := procFiles[pid];
        if name !in endTimes {
          fault := Some(NoEndTime(name));
          StopsAfterFault(endTimes, procFiles, live, closes, list, i + 1, |list|);
          return;
        }
        sleepTime := endTimes[name];
        if sleepTime == -1 {
          i := i + 1;
          continue;
        }
        stops := stops + [if pid in closes then ClosedWindow(pid) else Killed(pid)];
      }
      sleeps := sleeps + [sleepTime];
      i := i + 1;
    }
    fault := None;
  }

  /** Once an exception has ended the loop, later entries are not looked at. */
  lemma {:induction false} StopsAfterFault(endTimes: map<string, int>, procFiles: map<int, string>, live: set<int>,
                                           closes: set<int>, list: seq<int>, m: nat, n: nat)
    requires m <= n <= |list| && StopEach(endTimes, procFiles, live, closes, list, m).StopFailed?
    ensures StopEach(endTimes, procFiles, live, closes, list, n) == StopEach(endTimes, procFiles, live, closes, list, m)
    decreases n - m
  {
    if m < n {
      StopsAfterFault(endTimes, procFiles, live, closes, list, m, n - 1);
    }
  }

  /** Stopping the list StartAll returned, reversed as StopAll reverses it, while all those
      processes still run: every watched process is stopped, the last started first, each
      followed by a sleep of its end delay. */
  lemma StopAfterStart(t: Tables, pids: seq<int>, live: set<int>, closes: set<int>)
    requires |pids| == |t.processList| && LaunchAll(t, pids, |pids|).Launching?
    requires forall pid :: pid in LaunchAll(t, pids, |pids|).watched ==> pid in live
    ensures var l := LaunchAll(t, pids, |pids|);
      var order := Reversed(l.watched);
      var s := StopEach(t.endTimes, l.procFiles, live, closes, order, |order|);
      && s.Stopping? && |s.stops| == |l.watched|
      && forall k :: 0 <= k < |order| ==> s.stops[k].pid == l.watched[|l.watched| - 1 - k]
  {
    var n := |pids|;
    var l := LaunchAll(t, pids, n);
    LaunchAllFiles(t, pids, n);
    LaunchAllWatched(t, pids, n);
    var order := Reversed(l.watched);
    forall j | 0 <= j < |order|
      ensures order[j] in live && order[j] in l.procFiles && l.procFiles[order[j]] in t.endTimes
              && t.endTimes[l.procFiles[order[j]]] != -1
    {
      assert order[j] in l.watched;
      var i :| 0 <= i < n && pids[i] == order[j] && t.processList[i] in t.endTimes && t.endTimes[t.processList[i]] != -1;
    }
    StopEachStopsAll(t.endTimes, l.procFiles, live, closes, order, |order|);
  }

  class Supervisor {
    /** _watchInterval, in milliseconds once ParseArgs has set it. */
    var WatchInterval: int
    var IsFirstStart: bool
    var ProcessList: seq<string>
    var StartTimes: map<string, int>
    var EndTimes: map<string, int>
    var ProcFiles: map<int, string>
    /** The pids of the processes Process.GetProcessById finds. */
    var Live: set<int>
    /** Every Thread.Sleep duration requested, in milliseconds, oldest first. */
    ghost var Sleeps: seq<int>
    /** Every process stopped, oldest first. */
    var Stops: seq<StopAction>

    /** The static initial values, over a process table holding `live`. */
    constructor (live: set<int>)
      ensures WatchInterval == 60 && IsFirstStart
      ensures ProcessList == [] && StartTimes == map[] && EndTimes == map[] && ProcFiles == map[]
      ensures Live == live && Sleeps == [] && Stops == []
    {
      WatchInterval := 60;
      IsFirstStart := true;
      ProcessList := [];
      StartTimes := map[];
      EndTimes := map[];
      ProcFiles := map[];
      Live := live;
      Sleeps := [];
      Stops := [];
    }

    function Snapshot(): Tables
      reads this
    {
      Tables(ProcessList, StartTimes, EndTimes)
    }

    /** StartAll with Process.Start handing out pids[i] for the i-th name of ProcessList. */
    method StartAll(pids: seq<int>) returns (result: StartResult)
      requires |pids| == |ProcessList|
      modifies this
      ensures !CanStart(old(Snapshot())) ==>
                result == NotStarted && ProcFiles == old(ProcFiles) && IsFirstStart == old(IsFirstStart) && Sleeps == old(Sleeps)
      ensures CanStart(old(Snapshot())) ==>
                var l := LaunchAll(old(Snapshot()), pids, |pids|);
                && ProcFiles == l.procFiles && Sleeps == old(Sleeps) + l.sleeps
                && result == (if l.Launching? then Watching(l.watched) else StartThrew(l.fault))
                && IsFirstStart == (if l.Launching? then false else old(IsFirstStart))
      ensures Snapshot() == old(Snapshot()) && WatchInterval == old(WatchInterval) && Live == old(Live)
      ensures Stops == old(Stops)
    {
      if !(|ProcessList| > 0 && |StartTimes| == |ProcessList|) {
        return NotStarted;
      }
      ProcFiles := map[];
      var procFiles;
      ghost var sleeps;
      result, procFiles, sleeps := LaunchList(Snapshot(), pids);
      ProcFiles := procFiles;
      Sleeps := Sleeps + sleeps;
      if result.Watching? && IsFirstStart {
        IsFirstStart := false;
      }
    }

    /** StopAll on the caller's list of pids, `closes` holding the processes whose main window
        accepts the close request. */
    method StopAll(pList: array<int>, closes: set<int>) returns (fault: Option<Fault>)
      modifies this, pList
      ensures pList[..] == Reversed(old(pList[..]))
      ensures var s := StopEach(EndTimes, ProcFiles, Live, closes, pList[..], pList.Length);
        && Stops == old(Stops) + s.stops && Sleeps == old(Sleeps) + s.sleeps
        && fault == (if s.Stopping? then None else Some(s.fault))
      ensures Snapshot() == old(Snapshot()) && ProcFiles == old(ProcFiles) && Live == old(Live)
      ensures WatchInterval == old(WatchInterval) && IsFirstStart == old(IsFirstStart)
    {
      ReverseInPlace(pList);
      var stops;
      ghost var sleeps;
      fault, stops, sleeps := StopList(EndTimes, ProcFiles, Live, closes, pList[..]);
      Stops := Stops + stops;
      Sleeps := Sleeps + sleeps;
    }

    /** ParseArgs: more than four arguments, a positive watch interval matching ^\d+$, then the
        loop over the remaining arguments. StartTimes and EndTimes are cleared first; ProcessList
        is not. */
    method ParseArgs(args: seq<string>) returns (outcome: ParseOutcome)
      modifies this
      ensures |args| <= 4 ==>
                outcome == TooFewArguments && Snapshot() == old(Snapshot()) && WatchInterval == old(WatchInterval)
      ensures |args| > 4 && !ParseDelay(args[0]).Delay? ==>
                && outcome == (if ParseDelay(args[0]).NotDigits? then WrongArgument(args[0])
                               else ParseThrew(ParseFailed(args[0])))
                && WatchInterval == old(WatchInterval)
                && Snapshot() == Tables(old(ProcessList), map[], map[])
      ensures |args| > 4 && ParseDelay(args[0]).Delay? ==>
                && WatchInterval == ParseDelay(args[0]).ms
                && if WatchInterval <= 0 then
                     outcome == WrongArgument(args[0]) && Snapshot() == Tables(old(ProcessList), map[], map[])
                   else
                     var final := ArgLoop(args, |args|, Tables(old(ProcessList), map[], map[]), ParseDelay);
                     Snapshot() == final.tables && outcome == (if final.Running? then Parsed else final.outcome)
      ensures outcome == Parsed ==> WatchInterval > 0
      ensures IsFirstStart == old(IsFirstStart) && ProcFiles == old(ProcFiles) && Live == old(Live)
      ensures Sleeps == old(Sleeps) && Stops == old(Stops)
    {
      if |args| <= 4 {
        return TooFewArguments;
      }
      StartTimes := map[];
      EndTimes := map[];
      var interval := ParseDelay(args[0]);
      match interval {
        case NotDigits =>
          return WrongArgument(args[0]);
        case Unparsable =>
          return ParseThrew(ParseFailed(args[0]));
        case Delay(ms) =>
          WatchInterval := ms;
      }
      if WatchInterval <= 0 {
        return WrongArgument(args[0]);
      }
      var tables;
      outcome, tables := ReadGroups(args, ProcessList);
      ProcessList, StartTimes, EndTimes := tables.processList, tables.startTimes, tables.endTimes;
    }
  }
}
