/** The argument parser of the command runner (src/lib.rs): it classifies the
    invocation by the literal tokens it contains, and either prints the usage
    text, announces a dry run, or hands the joined arguments to `sh -c`.

    Everything the program writes or starts is recorded as a trace of events;
    the shell's outcome is a parameter, since the child process is outside
    the model. */
module CommandLine {
  import opened Strings

  /** What the blocking `sh -c` call comes back with: a zero exit status and
      the captured standard output, a non-zero exit status and the captured
      standard error, or an error launching the interpreter. */
  datatype ShellOutcome =
    | Success(stdout: string)
    | Failure(stderr: string)
    | LaunchError(message: string)

  /** One observable effect of a run. `Out` and `Err` are lines written to
      standard output and standard error (without the final newline);
      `Spawn` starts an external program with its arguments; `Timing` is the
      elapsed-time line, whose text is not modelled; `Panic` is the abort
      caused by slicing an empty argument vector. */
  datatype Event =
    | Out(line: string)
    | Err(line: string)
    | Spawn(program: string, argv: seq<string>)
    | Timing
    | Panic

  const HelpFlag := "--help"
  const HelpWord := "help"
  const HelpShortFlag := "-h"
  const DryRunFlag := "--dry-run"

  const DryRunNotice := "Dry run mode: Command will not be executed"
  const Separator := "--------------------------"
  const Shell := "sh"
  const ShellCommandFlag := "-c"

  /** The four fixed lines of the usage message. */
  const UsageText: seq<string> := [
    "Usage: These are the available options",
    "cargo run -- <command> : Execute the command in the shell",
    "cargo run -- --dry-run <command> : Dry run mode, command will not be executed",
    "cargo run -- --help : Display this help message"
  ]

  /** The line announcing a command; it ends with the command verbatim. */
  function Announcement(command: string): (line: string)
    ensures |line| > |command| && line[|line| - |command|..] == command
  {
    "Executing command: " + command
  }

  /** The usage message as a trace: one standard-output line per text line. */
  function UsageTrace(): (trace: seq<Event>)
    ensures |trace| == |UsageText|
    ensures forall i :: 0 <= i < |trace| ==> trace[i] == Out(UsageText[i])
  {
    [Out(UsageText[0]), Out(UsageText[1]), Out(UsageText[2]), Out(UsageText[3])]
  }

  /** What is printed between the shell call and the timing line. */
  function Report(outcome: ShellOutcome): (trace: seq<Event>)
    ensures |trace| >= 1
    ensures forall i :: 0 <= i < |trace| ==> trace[i].Out? || trace[i].Err?
  {
    match outcome
    case Success(stdout) => [Out(stdout), Out(""), Out(Separator)]
    case Failure(stderr) => [Err("Error: " + stderr)]
    case LaunchError(message) => [Err("Failed to execute command: " + message)]
  }

  /** The parser holds the whole argument vector, program name included;
      it is only ever read. */
  datatype ArgParser = ArgParser(args: seq<string>) {

    /** Whether `target` is one of the arguments, compared exactly and
        including the program name at index 0. */
    function CommandPassed(target: string): (r: bool)
      ensures r <==> exists i :: 0 <= i < |args| && args[i] == target
      ensures |args| == 0 ==> !r
    {
      Contains(args, target)
    }

    /** The command handed to the shell: every argument after the program
        name, in order, separated by single spaces. */
    function CommandString(): (command: string)
      requires |args| >= 1
      ensures |args| == 1 ==> command == ""
      ensures |command| == TotalLength(args[1..]) + (if |args| == 1 then 0 else |args| - 2)
    {
      Join(args[1..], " ")
    }

    /** Announce the command, then stop on a dry run, or run it through
        `sh -c`, report the outcome and print the timing line. An empty
        argument vector aborts at the slice, before anything is printed. */
    function ExecuteCommandInShell(outcome: ShellOutcome): (trace: seq<Event>)
      ensures |args| == 0 ==> trace == [Panic]
      ensures |args| >= 1 ==> |trace| >= 2 && trace[0] == Out(Announcement(CommandString()))
      ensures (exists i :: 0 <= i < |trace| && trace[i].Spawn?) <==> |args| >= 1 && DryRunFlag !in args
      ensures (exists i :: 0 <= i < |trace| && trace[i].Timing?) <==> |args| >= 1 && DryRunFlag !in args
      ensures |args| >= 1 && DryRunFlag in args ==>
        trace == [Out(Announcement(CommandString())), Out(DryRunNotice)]
      ensures |args| >= 1 && DryRunFlag !in args ==>
        && trace[1] == Spawn(Shell, [ShellCommandFlag, CommandString()])
        && trace[2..|trace| - 1] == Report(outcome)
        && trace[|trace| - 1] == Timing
    {
      if |args| == 0 then [Panic]
      else
        var command := CommandString();
        var announced := [Out(Announcement(command))];
        if CommandPassed(DryRunFlag) then
          announced + [Out(DryRunNotice)]
        else
          var trace := announced + [Spawn(Shell, [ShellCommandFlag, command])] + Report(outcome) + [Timing];
          assert trace[1].Spawn? && trace[|trace| - 1].Timing?;
          trace
    }

    /** Print the usage text when any help token is present; otherwise
        delegate to the shell. */
    function ExecuteCommand(outcome: ShellOutcome): (trace: seq<Event>)
      ensures HelpFlag in args || HelpWord in args || HelpShortFlag in args ==> trace == UsageTrace()
    {
      if CommandPassed(HelpFlag) || CommandPassed(HelpWord) || CommandPassed(HelpShortFlag) then
        UsageTrace()
      else
        ExecuteCommandInShell(outcome)
    }
  }
}
