/** WatchedProcessFactory.CreateWatchedProcesses: turns the program arguments into the list of
    processes to supervise. One argument names a configuration file, whose parsing is a
    parameter here; otherwise the arguments must be the watch interval followed by at least two
    complete (command line, start delay, end delay) groups, every number an Int32. */
module Factory {
  import opened Wrappers
  import opened Strings
  import opened ArgGroups

  /** The three values the factory hands to the WatchedProcess constructor. */
  datatype ProcessSpec = ProcessSpec(commandLine: string, startTimeSeconds: Int32, endTimeSeconds: Int32)

  /** What FileParser.Parse returns, with its `out watchInterval`. */
  datatype FileParse = FileParse(specs: Option<seq<ProcessSpec>>, watchInterval: int)

  /** The argument passed to the error callback: the offending text, or null for a wrong count. */
  datatype ArgumentError = BadArgument(text: string) | NullArgument

  /** The lengths the positional branch accepts: more than four, one plus a multiple of three. */
  predicate PositionalShape(n: nat) {
    n > 4 && (n - 1) % 3 == 0
  }

  /** Both numbers of group g parse with `parse`. */
  predicate GroupParses(args: seq<string>, g: nat, parse: string -> Option<Int32>)
    requires 3 * g + 3 < |args|
  {
    parse(StartTextOf(args, g)).Some? && parse(EndTextOf(args, g)).Some?
  }

  /** The spec built from group g. */
  function SpecOf(args: seq<string>, g: nat, parse: string -> Option<Int32>): ProcessSpec
    requires 3 * g + 3 < |args| && GroupParses(args, g, parse)
  {
    ProcessSpec(CommandOf(args, g), parse(StartTextOf(args, g)).value, parse(EndTextOf(args, g)).value)
  }

  /** The outcome of the group loop: every group parsed, or the text that failed first. */
  datatype GroupsOutcome = AllParsed(specs: seq<ProcessSpec>) | Rejected(text: string)

  /** The group loop over groups 0 .. count - 1, with `parse` for Int32.TryParse: a group's start
      delay is parsed before its end delay, and the first text that fails ends the loop. */
  function ParseGroups(args: seq<string>, count: nat, parse: string -> Option<Int32>): GroupsOutcome
    requires 3 * count < |args|
  {
    if count == 0 then AllParsed([])
    else match ParseGroups(args, count - 1, parse)
      case Rejected(text) => Rejected(text)
      case AllParsed(specs) =>
        var g := count - 1;
        var start := parse(StartTextOf(args, g));
        var end := parse(EndTextOf(args, g));
        if start.None? then Rejected(StartTextOf(args, g))
        else if end.None? then Rejected(EndTextOf(args, g))
        else AllParsed(specs + [ProcessSpec(CommandOf(args, g), start.value, end.value)])
  }

  /** Every group parsed exactly when every group's numbers parse; the list then has one
      spec per group, in argument order. */
  lemma {:induction false} AllParsedIffEveryGroupParses(args: seq<string>, count: nat, parse: string -> Option<Int32>)
    requires 3 * count < |args|
    ensures ParseGroups(args, count, parse).AllParsed? <==> forall g :: 0 <= g < count ==> GroupParses(args, g, parse)
    ensures ParseGroups(args, count, parse).AllParsed? ==>
              var specs := ParseGroups(args, count, parse).specs;
              |specs| == count && forall g :: 0 <= g < count ==> GroupParses(args, g, parse) && specs[g] == SpecOf(args, g, parse)
  {
    if count > 0 {
      var g := count - 1;
      AllParsedIffEveryGroupParses(args, g, parse);
      if ParseGroups(args, g, parse).Rejected? {
        var b :| 0 <= b < g && !GroupParses(args, b, parse);
        assert !GroupParses(args, b, parse);
      } else {
        assert ParseGroups(args, count, parse).AllParsed? <==> GroupParses(args, g, parse);
      }
    }
  }

  /** Group b is the first whose numbers do not parse, and `text` is its failing number:
      the start delay when that fails, otherwise the end delay. */
  predicate FirstFailure(args: seq<string>, b: nat, text: string, parse: string -> Option<Int32>)
    requires 3 * b + 3 < |args|
  {
    && (forall h :: 0 <= h < b ==> GroupParses(args, h, parse))
    && !GroupParses(args, b, parse)
    && text == (if parse(StartTextOf(args, b)).None? then StartTextOf(args, b) else EndTextOf(args, b))
    && parse(text).None?
  }

  /** A rejection reports the failing number of the first group that does not parse. */
  lemma {:induction false} RejectedIsFirstFailure(args: seq<string>, count: nat, parse: string -> Option<Int32>)
    requires 3 * count < |args| && ParseGroups(args, count, parse).Rejected?
    ensures exists b :: 0 <= b < count && FirstFailure(args, b, ParseGroups(args, count, parse).text, parse)
  {
    var g := count - 1;
    var previous := ParseGroups(args, g, parse);
    if previous.Rejected? {
      RejectedIsFirstFailure(args, g, parse);
      var b :| 0 <= b < g && FirstFailure(args, b, previous.text, parse);
      assert FirstFailure(args, b, ParseGroups(args, count, parse).text, parse);
    } else {
      AllParsedIffEveryGroupParses(args, g, parse);
      assert FirstFailure(args, g, ParseGroups(args, count, parse).text, parse);
    }
  }

  /** Once a group is rejected, later groups are not looked at. */
  lemma {:induction false} RejectionIsFinal(args: seq<string>, g: nat, count: nat, parse: string -> Option<Int32>)
    requires g <= count && 3 * count < |args| && ParseGroups(args, g, parse).Rejected?
    ensures ParseGroups(args, count, parse) == ParseGroups(args, g, parse)
    decreases count - g
  {
    if g < count {
      RejectionIsFinal(args, g, count - 1, parse);
    }
  }

  /** CreateWatchedProcesses: the specs, the `out watchInterval`, and the calls of the error
      callback, for the arguments `args` and the file parser `parseFile`. */
  method CreateWatchedProcesses(args: seq<string>, parseFile: string -> FileParse)
    returns (specs: Option<seq<ProcessSpec>>, watchInterval: int, errors: seq<ArgumentError>)
    ensures |args| == 1 ==>
              specs == parseFile(args[0]).specs && watchInterval == parseFile(args[0]).watchInterval && errors == []
    ensures |args| != 1 && !PositionalShape(|args|) ==>
              specs == None && watchInterval == -1 && errors == [NullArgument]
    ensures PositionalShape(|args|) && TryParseInt32(args[0]).None? ==>
              specs == None && watchInterval == 0 && errors == [BadArgument(args[0])]
    ensures PositionalShape(|args|) && TryParseInt32(args[0]).Some? ==>
              && watchInterval == TryParseInt32(args[0]).value
              && match ParseGroups(args, GroupCount(|args|), TryParseInt32)
                 case AllParsed(list) => specs == Some(list) && errors == []
                 case Rejected(text) => specs == None && errors == [BadArgument(text)]
  {
    if |args| == 1 {
      var parsed := parseFile(args[0]);
      return parsed.specs, parsed.watchInterval, [];
    }
    if !PositionalShape(|args|) {
      return None, -1, [NullArgument];
    }
    var interval := TryParseInt32(args[0]);
    if interval.None? {
      return None, 0, [BadArgument(args[0])];
    }
    watchInterval := interval.value;
    var ret: seq<ProcessSpec> := [];
    var groupCount := (|args| - 1) / 3;
    var groupIndex := 0;
    while groupIndex < groupCount
      invariant 0 <= groupIndex <= groupCount == GroupCount(|args|)
      invariant ParseGroups(args, groupIndex, TryParseInt32) == AllParsed(ret)
    {
      var commandLine := args[groupIndex * 3 + 1];
      var startText := args[groupIndex * 3 + 2];
      var endText := args[groupIndex * 3 + 3];
      assert commandLine == CommandOf(args, groupIndex) && startText == StartTextOf(args, groupIndex) && endText == EndTextOf(args, groupIndex);
      var start := TryParseInt32(startText);
      if start.None? {
        RejectionIsFinal(args, groupIndex + 1, groupCount, TryParseInt32);
        return None, watchInterval, [BadArgument(startText)];
      }
      var end := TryParseInt32(endText);
      if end.None? {
        RejectionIsFinal(args, groupIndex + 1, groupCount, TryParseInt32);
        return None, watchInterval, [BadArgument(endText)];
      }
      ret := ret + [ProcessSpec(commandLine, start.value, end.value)];
      groupIndex := groupIndex + 1;
    }
    return Some(ret), watchInterval, [];
  }

  /** No range check: whatever Int32 values the interval and the delays render, negative ones
      and -1 included, the positional branch accepts them as given, one spec per group. */
  lemma NegativeDelaysAccepted(args: seq<string>, interval: Int32, starts: seq<Int32>, ends: seq<Int32>)
    requires PositionalShape(|args|) && args[0] == Int32Text(interval)
    requires |starts| == GroupCount(|args|) && |ends| == GroupCount(|args|)
    requires forall g :: 0 <= g < GroupCount(|args|) ==>
               StartTextOf(args, g) == Int32Text(starts[g]) && EndTextOf(args, g) == Int32Text(ends[g])
    ensures TryParseInt32(args[0]) == Some(interval)
    ensures var r := ParseGroups(args, GroupCount(|args|), TryParseInt32);
      && r.AllParsed? && |r.specs| == GroupCount(|args|)
      && forall g :: 0 <= g < GroupCount(|args|) ==> r.specs[g] == ProcessSpec(CommandOf(args, g), starts[g], ends[g])
  {
    var count := GroupCount(|args|);
    TryParseInt32RoundTrip(interval);
    forall g | 0 <= g < count
      ensures GroupParses(args, g, TryParseInt32) && SpecOf(args, g, TryParseInt32) == ProcessSpec(CommandOf(args, g), starts[g], ends[g])
    {
      TryParseInt32RoundTrip(starts[g]);
      TryParseInt32RoundTrip(ends[g]);
    }
    AllParsedIffEveryGroupParses(args, count, TryParseInt32);
  }
}
