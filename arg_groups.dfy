/** The positional command-line layout shared by WatchedProcessFactory and Program.ParseArgs:
    args[0] is the watch interval, followed by groups of three, (command line, start delay, end delay);
    group g occupies args[3g + 1], args[3g + 2] and args[3g + 3]. */
module ArgGroups {
  /** The number of groups the arguments begin with, complete or not. */
  function GroupCount(n: nat): (count: nat)
    requires n >= 1
    ensures 3 * count <= n - 1 < 3 * count + 3
  {
    (n - 1) / 3
  }

  function CommandOf(args: seq<string>, g: nat): string
    requires 3 * g + 1 < |args|
  {
    args[3 * g + 1]
  }

  function StartTextOf(args: seq<string>, g: nat): string
    requires 3 * g + 2 < |args|
  {
    args[3 * g + 2]
  }

  function EndTextOf(args: seq<string>, g: nat): string
    requires 3 * g + 3 < |args|
  {
    args[3 * g + 3]
  }

  /** The command lines at the positions before n, one per group, in argument order. */
  function CommandsBefore(args: seq<string>, n: nat): (commands: seq<string>)
    requires n <= |args|
    ensures |commands| == (n + 1) / 3
    ensures forall g :: 0 <= g < |commands| ==> 3 * g + 1 < n && commands[g] == CommandOf(args, g)
  {
    seq((n + 1) / 3, g requires 0 <= g < (n + 1) / 3 => args[3 * g + 1])
  }

  /** Position n adds a command exactly when it is the first of its group. */
  lemma CommandsBeforeStep(args: seq<string>, n: nat)
    requires n < |args|
    ensures CommandsBefore(args, n + 1) == if n % 3 == 1 then CommandsBefore(args, n) + [args[n]] else CommandsBefore(args, n)
  {
    if n % 3 == 1 {
      assert CommandsBefore(args, n + 1) == CommandsBefore(args, n) + [args[n]];
    } else {
      assert CommandsBefore(args, n + 1) == CommandsBefore(args, n);
    }
  }
}
