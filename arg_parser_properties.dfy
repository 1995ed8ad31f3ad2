/** What a run of the argument parser is seen to do: which of its modes an
    invocation selects, which lines reach standard output and standard error,
    how many shells are started and whether the timing line is printed. */
module CommandLineProperties {
  import opened Strings
  import opened CommandLine

  /** The mutually exclusive ways a run can go, in the order they are
      tried. `SliceOutOfRange` is the abort on an empty argument vector. */
  datatype Mode = Help | SliceOutOfRange | DryRun | Execute

  /** The mode an argument vector selects, stated directly on the vector:
      any help token wins; otherwise an empty vector aborts; otherwise the
      dry-run token suppresses execution. */
  function ModeOf(args: seq<string>): Mode
  {
    if HelpFlag in args || HelpWord in args || HelpShortFlag in args then Help
    else if |args| == 0 then SliceOutOfRange
    else if DryRunFlag in args then DryRun
    else Execute
  }

  datatype Kind = OutKind | ErrKind | SpawnKind | TimingKind | PanicKind

  function KindOf(e: Event): Kind
  {
    match e
    case Out(_) => OutKind
    case Err(_) => ErrKind
    case Spawn(_, _) => SpawnKind
    case Timing => TimingKind
    case Panic => PanicKind
  }

  /** How many events of kind `k` the trace holds. */
  function Count(trace: seq<Event>, k: Kind): (n: nat)
    ensures n <= |trace|
    ensures n > 0 <==> exists i :: 0 <= i < |trace| && KindOf(trace[i]) == k
  {
    if |trace| == 0 then 0
    else (if KindOf(trace[0]) == k then 1 else 0) + Count(trace[1..], k)
  }

  /** The lines written to standard output, in order (the timing line,
      whose text is not modelled, excluded). */
  function OutLines(trace: seq<Event>): seq<string>
  {
    if |trace| == 0 then []
    else (if trace[0].Out? then [trace[0].line] else []) + OutLines(trace[1..])
  }

  /** The lines written to standard error, in order. */
  function ErrLines(trace: seq<Event>): seq<string>
  {
    if |trace| == 0 then []
    else (if trace[0].Err? then [trace[0].line] else []) + ErrLines(trace[1..])
  }

  lemma {:induction false} CountAppend(a: seq<Event>, b: seq<Event>, k: Kind)
    ensures Count(a + b, k) == Count(a, k) + Count(b, k)
  {
    if |a| == 0 {
      assert a + b == b;
    } else {
      assert (a + b)[1..] == a[1..] + b;
      CountAppend(a[1..], b, k);
    }
  }

  lemma {:induction false} StreamsAppend(a: seq<Event>, b: seq<Event>)
    ensures OutLines(a + b) == OutLines(a) + OutLines(b)
    ensures ErrLines(a + b) == ErrLines(a) + ErrLines(b)
  {
    if |a| == 0 {
      assert a + b == b;
    } else {
      assert (a + b)[1..] == a[1..] + b;
      StreamsAppend(a[1..], b);
    }
  }

  lemma EventStreams(e: Event)
    ensures OutLines([e]) == (if e.Out? then [e.line] else [])
    ensures ErrLines([e]) == (if e.Err? then [e.line] else [])
  {
  }

  /** The report only prints: on success three standard-output lines, on a
      non-zero exit or a failed launch one standard-error line. */
  lemma ReportStreams(outcome: ShellOutcome)
    ensures Count(Report(outcome), SpawnKind) == 0
    ensures Count(Report(outcome), TimingKind) == 0
    ensures Count(Report(outcome), PanicKind) == 0
    ensures match outcome
      case Success(stdout) =>
        OutLines(Report(outcome)) == [stdout, "", Separator] && ErrLines(Report(outcome)) == []
      case Failure(stderr) =>
        OutLines(Report(outcome)) == [] && ErrLines(Report(outcome)) == ["Error: " + stderr]
      case LaunchError(message) =>
        OutLines(Report(outcome)) == [] && ErrLines(Report(outcome)) == ["Failed to execute command: " + message]
  {
    match outcome
    case Success(stdout) =>
      assert Report(outcome) == [Out(stdout)] + [Out("")] + [Out(Separator)];
      StreamsAppend([Out(stdout)] + [Out("")], [Out(Separator)]);
      StreamsAppend([Out(stdout)], [Out("")]);
      EventStreams(Out(stdout));
      EventStreams(Out(""));
      EventStreams(Out(Separator));
    case Failure(stderr) =>
      EventStreams(Err("Error: " + stderr));
    case LaunchError(message) =>
      EventStreams(Err("Failed to execute command: " + message));
  }

  /** The trace of a run, by the mode its arguments select. */
  lemma TraceByMode(p: ArgParser, outcome: ShellOutcome)
    ensures
      var trace := p.ExecuteCommand(outcome);
      match ModeOf(p.args)
      case Help => trace == UsageTrace()
      case SliceOutOfRange => trace == [Panic]
      case DryRun =>
        trace == [Out(Announcement(p.CommandString())), Out(DryRunNotice)]
      case Execute =>
        trace == [Out(Announcement(p.CommandString()))] + [Spawn(Shell, [ShellCommandFlag, p.CommandString()])]
                 + Report(outcome) + [Timing]
  {
  }

  /** Help is printed exactly when a help token is present, whatever else
      the arguments hold (a dry-run token included) and whatever the shell
      would have done. */
  lemma HelpIffHelpToken(p: ArgParser, outcome: ShellOutcome)
    ensures p.ExecuteCommand(outcome) == UsageTrace() <==> ModeOf(p.args) == Help
  {
  }

  /** Events and lines of a trace made of two events, a middle part and
      a last event are those of the four parts, in order. */
  lemma PartsEffects(first: Event, second: Event, middle: seq<Event>, last: Event, k: Kind)
    ensures var trace := [first] + [second] + middle + [last];
      && Count(trace, k) == Count([first], k) + Count([second], k) + Count(middle, k) + Count([last], k)
      && OutLines(trace) == OutLines([first]) + OutLines([second]) + OutLines(middle) + OutLines([last])
      && ErrLines(trace) == ErrLines([first]) + ErrLines([second]) + ErrLines(middle) + ErrLines([last])
  {
    CountAppend([first] + [second] + middle, [last], k);
    CountAppend([first] + [second], middle, k);
    CountAppend([first], [second], k);
    StreamsAppend([first] + [second] + middle, [last]);
    StreamsAppend([first] + [second], middle);
    StreamsAppend([first], [second]);
  }

  /** An execute-mode run is the announcement, the shell, the report and
      the timing line, each contributing its own events to the streams. */
  lemma ExecuteEffects(p: ArgParser, outcome: ShellOutcome, k: Kind)
    requires ModeOf(p.args) == Execute
    ensures var trace := p.ExecuteCommand(outcome);
      && Count(trace, k) == (if k == OutKind || k == SpawnKind || k == TimingKind then 1 else 0) + Count(Report(outcome), k)
      && OutLines(trace) == [Announcement(p.CommandString())] + OutLines(Report(outcome))
      && ErrLines(trace) == ErrLines(Report(outcome))
  {
    TraceByMode(p, outcome);
    var announced := Out(Announcement(p.CommandString()));
    var spawned := Spawn(Shell, [ShellCommandFlag, p.CommandString()]);
    PartsEffects(announced, spawned, Report(outcome), Timing, k);
    EventStreams(announced);
    EventStreams(spawned);
    EventStreams(Timing);
  }

  /** One shell is started in execute mode and none otherwise; the timing
      line is printed exactly when a shell is started; only an empty
      argument vector aborts. */
  lemma {:induction false} EffectCounts(p: ArgParser, outcome: ShellOutcome)
    ensures var trace := p.ExecuteCommand(outcome);
      && Count(trace, SpawnKind) == (if ModeOf(p.args) == Execute then 1 else 0)
      && Count(trace, TimingKind) == (if ModeOf(p.args) == Execute then 1 else 0)
      && Count(trace, PanicKind) == (if ModeOf(p.args) == SliceOutOfRange then 1 else 0)
  {
    TraceByMode(p, outcome);
    var trace := p.ExecuteCommand(outcome);
    match ModeOf(p.args)
    case Help =>
    case SliceOutOfRange =>
    case DryRun =>
      assert trace[0].Out? && trace[1].Out?;
    case Execute =>
      ExecuteEffects(p, outcome, SpawnKind);
      ExecuteEffects(p, outcome, TimingKind);
      ExecuteEffects(p, outcome, PanicKind);
      ReportStreams(outcome);
  }

  /** In execute mode the one shell started is `sh -c` with the command
      string, right after the announcement, and the run ends with the
      timing line, whatever the outcome. */
  lemma ExecuteRunsShellOnce(p: ArgParser, outcome: ShellOutcome)
    requires ModeOf(p.args) == Execute
    ensures var trace := p.ExecuteCommand(outcome);
      && trace[0] == Out(Announcement(p.CommandString()))
      && trace[1] == Spawn(Shell, [ShellCommandFlag, p.CommandString()])
      && Count(trace, SpawnKind) == 1
      && trace[|trace| - 1] == Timing
      && Count(trace, TimingKind) == 1
  {
    TraceByMode(p, outcome);
    EffectCounts(p, outcome);
  }

  /** A dry run prints the announcement and the notice and nothing else:
      no shell, no report, no timing line. */
  lemma DryRunPrintsOnly(p: ArgParser, outcome: ShellOutcome)
    requires ModeOf(p.args) == DryRun
    ensures var trace := p.ExecuteCommand(outcome);
      && OutLines(trace) == [Announcement(p.CommandString()), DryRunNotice]
      && ErrLines(trace) == []
      && Count(trace, SpawnKind) == 0
      && Count(trace, TimingKind) == 0
  {
    TraceByMode(p, outcome);
    EffectCounts(p, outcome);
    var announced := Out(Announcement(p.CommandString()));
    StreamsAppend([announced], [Out(DryRunNotice)]);
    EventStreams(announced);
    EventStreams(Out(DryRunNotice));
  }

  /** What reaches each stream in execute mode, by outcome: on success the
      captured output, a blank line and the separator on standard output
      and nothing on standard error; on a non-zero exit or a failed launch
      one line on standard error and nothing on standard output after the
      announcement. */
  lemma StreamsByOutcome(p: ArgParser, outcome: ShellOutcome)
    requires ModeOf(p.args) == Execute
    ensures var trace := p.ExecuteCommand(outcome);
      var announced := Announcement(p.CommandString());
      match outcome
      case Success(stdout) =>
        OutLines(trace) == [announced, stdout, "", Separator] && ErrLines(trace) == []
      case Failure(stderr) =>
        OutLines(trace) == [announced] && ErrLines(trace) == ["Error: " + stderr]
      case LaunchError(message) =>
        OutLines(trace) == [announced] && ErrLines(trace) == ["Failed to execute command: " + message]
  {
    ExecuteEffects(p, outcome, OutKind);
    ReportStreams(outcome);
  }

  /** The separator line is printed exactly when a command ran and
      succeeded; in particular never on a failure, a dry run or help. */
  lemma SeparatorIffSuccess(p: ArgParser, outcome: ShellOutcome)
    ensures Separator in OutLines(p.ExecuteCommand(outcome)) <==> ModeOf(p.args) == Execute && outcome.Success?
  {
    var trace := p.ExecuteCommand(outcome);
    TraceByMode(p, outcome);
    match ModeOf(p.args)
    case Help =>
      UsageLines();
      assert forall i :: 0 <= i < |UsageText| ==> |UsageText[i]| != |Separator|;
    case SliceOutOfRange =>
      EventStreams(Panic);
    case DryRun =>
      DryRunPrintsOnly(p, outcome);
      assert Announcement(p.CommandString())[0] != Separator[0];
    case Execute =>
      StreamsByOutcome(p, outcome);
      assert Announcement(p.CommandString())[0] != Separator[0];
  }

  /** The usage trace writes exactly the usage text to standard output. */
  lemma UsageLines()
    ensures OutLines(UsageTrace()) == UsageText
    ensures ErrLines(UsageTrace()) == []
  {
  }

  /** The command string is the arguments after the program name, in order:
      when none of them contains a space, splitting it on spaces gives them
      back exactly. With only the program name it is empty. */
  lemma CommandStringRoundTrip(p: ArgParser)
    requires |p.args| >= 1
    ensures |p.args| == 1 ==> p.CommandString() == ""
    ensures |p.args| >= 2 && (forall i :: 1 <= i < |p.args| ==> ' ' !in p.args[i])
            ==> Split(p.CommandString(), ' ') == p.args[1..]
  {
    if |p.args| >= 2 && (forall i :: 1 <= i < |p.args| ==> ' ' !in p.args[i]) {
      SplitJoin(p.args[1..], ' ');
    }
  }

  /** Token boundaries are not kept: wherever it stands after the program
      name, an argument `x y` holding a space gives the same command string
      as the two arguments `x` and `y`. */
  lemma CommandStringForgetsBoundaries(program: string, pre: seq<string>, x: string, y: string, post: seq<string>)
    ensures ArgParser([program] + pre + [x + " " + y] + post).CommandString()
         == ArgParser([program] + pre + [x, y] + post).CommandString()
  {
    assert ([program] + pre + [x + " " + y] + post)[1..] == pre + [x + " " + y] + post;
    assert ([program] + pre + [x, y] + post)[1..] == pre + [x, y] + post;
    JoinSplitPart(pre, x, y, post, " ");
  }

  /** A dry run started directly through the shell entry point, whatever
      other tokens are present (help tokens included), prints the
      announcement and the notice and nothing else. */
  lemma ShellDryRunPrintsOnly(p: ArgParser, outcome: ShellOutcome)
    requires |p.args| >= 1 && DryRunFlag in p.args
    ensures var trace := p.ExecuteCommandInShell(outcome);
      && OutLines(trace) == [Announcement(p.CommandString()), DryRunNotice]
      && ErrLines(trace) == []
      && Count(trace, SpawnKind) == 0
      && Count(trace, TimingKind) == 0
  {
    var announced := Out(Announcement(p.CommandString()));
    StreamsAppend([announced], [Out(DryRunNotice)]);
    EventStreams(announced);
    EventStreams(Out(DryRunNotice));
  }

  /** The membership cases of the unit tests: exact equality only, so a
      joined pair of tokens is not found, and nothing is in an empty vector. */
  lemma CommandPassedCases()
    ensures !ArgParser([]).CommandPassed("test")
    ensures ArgParser(["test"]).CommandPassed("test")
    ensures ArgParser(["test", "test2"]).CommandPassed("test")
    ensures ArgParser(["test", "test2"]).CommandPassed("test2")
    ensures !ArgParser(["test", "test2"]).CommandPassed("test1 test2")
  {
  }

  /** The dry-run token is not removed from the command string, so it is
      part of the announced command. */
  lemma DryRunExample(outcome: ShellOutcome)
    ensures ArgParser(["prog", "--dry-run", "echo", "Hello"]).ExecuteCommand(outcome)
            == [Out("Executing command: --dry-run echo Hello"), Out(DryRunNotice)]
  {
    var p := ArgParser(["prog", "--dry-run", "echo", "Hello"]);
    assert p.args[1] == DryRunFlag;
    assert ModeOf(p.args) == DryRun;
    assert p.args[1..] == ["--dry-run", "echo", "Hello"];
    assert p.args[1..][1..] == ["echo", "Hello"];
    assert ["echo", "Hello"][1..] == ["Hello"];
    assert p.CommandString() == "--dry-run echo Hello";
    assert Announcement("--dry-run echo Hello") == "Executing command: --dry-run echo Hello";
    TraceByMode(p, outcome);
  }

  /** A successful `echo Hello` prints its output, a blank line, the
      separator and the timing line. */
  lemma EchoExample()
    ensures ArgParser(["prog", "echo", "Hello"]).ExecuteCommand(Success("Hello\n"))
            == [Out("Executing command: echo Hello"), Spawn("sh", ["-c", "echo Hello"]),
                Out("Hello\n"), Out(""), Out(Separator), Timing]
  {
    var p := ArgParser(["prog", "echo", "Hello"]);
    assert ModeOf(p.args) == Execute;
    assert p.args[1..] == ["echo", "Hello"];
    assert p.args[1..][1..] == ["Hello"];
    assert p.CommandString() == "echo Hello";
    assert Announcement("echo Hello") == "Executing command: echo Hello";
    TraceByMode(p, Success("Hello\n"));
  }

  /** Help wins over a dry run, and the program name is scanned too: a
      program that is itself named `help` always prints the usage. */
  lemma HelpExamples(outcome: ShellOutcome)
    ensures ArgParser(["prog", "--help", "--dry-run"]).ExecuteCommand(outcome) == UsageTrace()
    ensures ArgParser(["help", "echo", "Hello"]).ExecuteCommand(outcome) == UsageTrace()
  {
  }

  /** With only the program name an empty command is run. */
  lemma BareExample(outcome: ShellOutcome)
    ensures ArgParser(["prog"]).ExecuteCommand(outcome)[1] == Spawn("sh", ["-c", ""])
  {
  }
}
