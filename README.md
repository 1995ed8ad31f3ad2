# Command-line argument parser — Dafny model

The program is a small shell-command runner. `ArgParser` keeps the process's
argument vector, program name included. `execute_command` prints a four-line
usage text when `--help`, `help` or `-h` is among the arguments. Otherwise
`execute_command_in_shell` joins every argument after the program name with
single spaces and announces that command. With `--dry-run` present it then
prints a notice and stops. Without it, it runs the command through `sh -c`,
reports the outcome and prints the elapsed time.

The model keeps this logic as pure functions over a datatype
`ArgParser(args)`. A run returns the trace of what the program does:
standard-output lines (`Out`), standard-error lines (`Err`), starting a program
(`Spawn`), the timing line (`Timing`) and the abort on an empty argument
vector (`Panic`). What the shell does is a parameter: `Success(stdout)`,
`Failure(stderr)` for a non-zero exit, or `LaunchError(message)`.

Files:

- `strings.dfy` (module `Strings`): membership in a slice, joining with a
  separator, and splitting on a character, which is the join's inverse in the
  round-trip lemma.
- `arg_parser.dfy` (module `CommandLine`): the events, the fixed texts, and
  `ArgParser` with `CommandPassed`, `CommandString`, `ExecuteCommandInShell`
  and `ExecuteCommand`.
- `arg_parser_properties.dfy` (module `CommandLineProperties`): `ModeOf`, the
  selected mode stated directly on the argument vector (help, abort, dry run,
  execute, in that priority). It also holds projections of a trace onto each
  stream, event counts, and the lemmas tying traces to modes and outcomes.

The code slices `args[1..]`, which aborts on an empty vector before anything
is printed; the model records this as `[Panic]`.

## Model

| member | source | states |
|---|---|---|
| `Strings.Contains` | src/lib.rs:17 | the scan finds `x` iff some element equals it exactly (no prefix or substring match) |
| `Strings.Join` | src/lib.rs:22 | the joined string's length is the sum of the parts' lengths plus one separator between each two neighbours |
| `Strings.JoinSplitPart` | src/lib.rs:22 | replacing one part `x<sep>y` by the two parts `x` and `y`, anywhere in the list, leaves the joined string unchanged |
| `Strings.SplitJoin` | src/lib.rs:21-22 | splitting the joined string on the separator gives back the parts, when no part contains the separator: no part lost, merged or reordered |
| `CommandLine.ArgParser.CommandPassed` | src/lib.rs:16-18 | true iff some argument, index 0 included, equals the target exactly; always false on an empty vector |
| `CommandLine.Announcement` | src/lib.rs:26 | the announcement line ends with the command string verbatim (its fixed prefix is the body's literal) |
| `CommandLine.Report` | src/lib.rs:40-52 | the report is never empty and only prints: every event is a standard-output or standard-error line; its exact lines per outcome are stated by `CommandLineProperties.ReportStreams` |
| `CommandLine.ArgParser.CommandString` | src/lib.rs:21-22 | empty with only the program name; its length is the arguments' total length plus one space between neighbours; order and contents are stated by `CommandLineProperties.CommandStringRoundTrip` |
| `CommandLine.UsageTrace` | src/lib.rs:60-63 | the help output is exactly the four usage lines, each on standard output |
| `CommandLine.ArgParser.ExecuteCommandInShell` | src/lib.rs:20-55 | whatever tokens are present (help tokens included): an empty vector aborts with nothing printed; otherwise the announcement of the joined command comes first; with `--dry-run` the trace is exactly the announcement and the notice; without it the second event is `sh -c <command string>`, then exactly the outcome's report, then the timing line last; a shell is started, and a timing line printed, iff `--dry-run` is absent |
| `CommandLine.ArgParser.ExecuteCommand` | src/lib.rs:58-68 | any of `--help`, `help`, `-h` gives the usage output whatever else is present |
| `CommandLineProperties.TraceByMode` | src/lib.rs:20-68 | the whole trace for each mode: usage text; abort; announcement and notice; announcement, `sh -c <command>`, report, timing |
| `CommandLineProperties.HelpIffHelpToken` | src/lib.rs:59-65 | the usage output is produced iff a help token is present, including with `--dry-run` present and whatever the shell outcome |
| `CommandLineProperties.EffectCounts` | src/lib.rs:21-54 | exactly one shell start and one timing line in execute mode and none in any other mode; exactly one abort iff the vector is empty |
| `CommandLineProperties.ExecuteRunsShellOnce` | src/lib.rs:26-54 | in execute mode the announcement is first, `sh -c <command string>` second, the one timing line last, whatever the outcome |
| `CommandLineProperties.DryRunPrintsOnly` | src/lib.rs:26-31 | a dry run writes only the announcement and the notice to standard output, nothing to standard error, starts no shell and prints no timing line |
| `CommandLineProperties.ReportStreams` | src/lib.rs:40-52 | the report starts nothing and aborts nothing; success writes stdout, a blank line and the separator; non-zero exit writes `Error: <stderr>` to standard error; launch failure writes `Failed to execute command: <e>` to standard error |
| `CommandLineProperties.StreamsByOutcome` | src/lib.rs:26-52 | the full contents of both streams of an execute-mode run, for each of the three outcomes |
| `CommandLineProperties.SeparatorIffSuccess` | src/lib.rs:41-49 | the separator line is printed iff a command ran and exited with success |
| `CommandLineProperties.CommandStringRoundTrip` | src/lib.rs:21-22 | the command string is empty with only the program name; otherwise splitting it on spaces gives back the arguments after the program name, in order, when none contains a space |
| `CommandLineProperties.CommandStringForgetsBoundaries` | src/lib.rs:21-22 | for every program name and every position after it, an argument `x y` holding a space and the two arguments `x`, `y` give the same command string |
| `CommandLineProperties.ShellDryRunPrintsOnly` | src/lib.rs:26-31 | the shell entry point called directly with `--dry-run` present (help tokens or not) writes only the announcement and the notice to standard output, nothing to standard error, starts no shell and prints no timing line |
| `CommandLineProperties.CommandPassedCases` | src/lib.rs:83-87 | the membership cases of the unit tests: empty vector, single and two-element vectors, and the joined pair `test1 test2` that is not found |
| `CommandLineProperties.DryRunExample` | src/lib.rs:21-31 | `prog --dry-run echo Hello` announces `--dry-run echo Hello` (the flag is not stripped) and prints the notice, nothing else |
| `CommandLineProperties.EchoExample` | src/lib.rs:26-54 | `prog echo Hello` with output `Hello\n` starts `sh -c "echo Hello"` and prints the output, a blank line, the separator and the timing line |
| `CommandLineProperties.HelpExamples` | src/lib.rs:59-65 | `--help` beats `--dry-run`, and a program itself named `help` always prints the usage |
| `CommandLineProperties.BareExample` | src/lib.rs:21-36 | with only the program name the shell is started with an empty command |

## Left out

- Reading the real process arguments (src/lib.rs:10-14): the argument vector is the `ArgParser` datatype's field, given by the caller.
- Starting `sh` and blocking on it (src/lib.rs:33-36): modelled as a `Spawn` event plus a given `ShellOutcome`. A launch error still records the `Spawn` event, since `output()` is attempted.
- Measuring and formatting elapsed time (src/lib.rs:24, 38, 54): the timing line is an opaque `Timing` event, so stream projections leave it out.
- Lossy UTF-8 decoding of the child's output (src/lib.rs:43, 48): captured output is given as strings.
- The panic message of an out-of-range slice and the unwinding that follows: modelled as a bare `Panic` event.
- The process's own exit status: the program never sets it, and the model has no exit status.
- The unit tests at src/lib.rs:93-133: they run `echo Hello` unconditionally and re-implement the branch logic instead of calling the parser, so only their expected strings are reflected, in `DryRunExample`, `EchoExample` and `HelpExamples`. The test at src/lib.rs:77-80 asserts nothing.
- Determinism and repeatability of `command_passed`: every member is a pure function, so this holds by construction and needs no lemma.
