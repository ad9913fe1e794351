/** Running readiness checks and commands in the validation container, and the evidence kept of it
    (src/aep/docker_validation_tool.py:466-582, 799-888, 964-1117). */
module DockerEvidence {
  import opened Wrappers
  import opened StatusLines
  import opened StatusText
  import opened ToolRuntime

  type Argv = seq<string>

  predicate ValidArgv(argv: Argv) { argv != [] && forall word | word in argv :: word != "" }

  datatype Executable = Executable(argv: Argv, pattern: string)

  datatype Configuration = Configuration(executables: seq<Executable>, commands: seq<Argv>)

  /** What `__post_init__` demands; the patterns compile. */
  predicate Configured(c: Configuration) {
    && c.executables != [] && c.commands != []
    && (forall e | e in c.executables :: e.argv != [] && e.pattern != "")
    && (forall argv | argv in c.commands :: ValidArgv(argv))
  }

  /** What happens when the next process is due: no time is left, the process does not return in
      time, or it ran. */
  datatype Event = OutOfTime | NoReturn | Ran(exitCode: int, stdout: string, stderr: string, durationMs: nat)

  datatype CommandRecord = CommandRecord(argv: Argv, stdout: string, stderr: string, exitCode: int, durationMs: nat,
                                         logsRef: string)

  datatype Probe = Probe(argv: Argv, pattern: string, output: string, logsRef: string)

  datatype Outcome =
    | Completed(commands: seq<CommandRecord>, readiness: seq<Probe>)
    | TimedOut(commands: seq<CommandRecord>, readiness: seq<Probe>)
    | NotReady(readiness: seq<Probe>, message: string)

  /** The log store returns a nonempty reference. */
  function LogReference(content: string): string { "log:" + content }

  /** `(stdout + stderr).strip()[:1024]`. */
  function Output(event: Event): string
    requires event.Ran?
  {
    var text := Trim(event.stdout + event.stderr, IsSpace);
    if |text| <= 1024 then text else text[..1024]
  }

  /** `re.search(pattern, text) is not None`; regular expressions are not part of this model. */
  type Search = (string, string) -> bool

  // ---------------------------------------------------------------- what really happened

  /** The `j`-th prerequisite ran, succeeded and reported a matching version. */
  predicate Satisfied(c: Configuration, env: nat -> Event, search: Search, j: nat)
    requires j < |c.executables|
  {
    env(j).Ran? && env(j).exitCode == 0 && search(c.executables[j].pattern, Output(env(j)))
  }

  predicate ReadyUpTo(c: Configuration, env: nat -> Event, search: Search, j: nat)
    requires j <= |c.executables|
  {
    forall i | 0 <= i < j :: Satisfied(c, env, search, i)
  }

  /** The first prerequisite that is not satisfied did not finish in time. */
  ghost predicate ReadinessTimesOut(c: Configuration, env: nat -> Event, search: Search) {
    exists j: nat :: j < |c.executables| && ReadyUpTo(c, env, search, j) && !env(j).Ran?
  }

  /** What happens when command `i` is due: the prerequisites come first. */
  function CommandEvent(c: Configuration, env: nat -> Event, i: nat): Event {
    env(|c.executables| + i)
  }

  predicate CommandPassed(c: Configuration, env: nat -> Event, i: nat) {
    CommandEvent(c, env, i).Ran? && CommandEvent(c, env, i).exitCode == 0
  }

  /** Everything before command `i` succeeded, so it is its turn. */
  predicate CommandReached(c: Configuration, env: nat -> Event, search: Search, i: nat) {
    && ReadyUpTo(c, env, search, |c.executables|)
    && forall j: nat | j < i :: CommandPassed(c, env, j)
  }

  datatype Status = Passed | Failed | TimeOut | NotRun | InvalidOutput

  /** The status a truthful report gives command `i`.  When time runs out among the prerequisites,
      the first command is the one that timed out. */
  ghost function TrueStatus(c: Configuration, env: nat -> Event, search: Search, i: nat): Status {
    if CommandReached(c, env, search, i) then
      if !CommandEvent(c, env, i).Ran? then TimeOut
      else if CommandEvent(c, env, i).exitCode == 0 then Passed
      else Failed
    else if i == 0 && ReadinessTimesOut(c, env, search) then TimeOut
    else NotRun
  }

  // ---------------------------------------------------------------- the executor

  function RecordOf(argv: Argv, event: Event): CommandRecord
    requires event.Ran?
  {
    CommandRecord(argv, event.stdout, event.stderr, event.exitCode, event.durationMs,
                  LogReference("stdout:\n" + event.stdout + "\nstderr:\n" + event.stderr))
  }

  function ProbeOf(e: Executable, event: Event): Probe
    requires event.Ran?
  {
    Probe(e.argv, e.pattern, Output(event), LogReference(Output(event)))
  }

  /** Why a prerequisite is not satisfied. */
  function NotReadyMessage(e: Executable, exitCode: int): (message: string)
    requires e.argv != []
    ensures message != ""
  {
    "validation image prerequisite " + e.argv[0]
    + if exitCode != 0 then " is unavailable" else " reported an incompatible version"
  }

  /** Probes of the first prerequisites, all of them satisfied. */
  ghost predicate Probed(c: Configuration, env: nat -> Event, search: Search, probes: seq<Probe>) {
    && |probes| <= |c.executables| && ReadyUpTo(c, env, search, |probes|)
    && forall j | 0 <= j < |probes| ::
         Satisfied(c, env, search, j) && probes[j] == ProbeOf(c.executables[j], env(j))
  }

  /** Records of the first commands, in order. */
  ghost predicate Recorded(c: Configuration, env: nat -> Event, records: seq<CommandRecord>) {
    && |records| <= |c.commands|
    && forall i | 0 <= i < |records| ::
         CommandEvent(c, env, i).Ran? && records[i] == RecordOf(c.commands[i], CommandEvent(c, env, i))
  }

  /** What the executor may return for what happened. */
  ghost predicate Evidence(c: Configuration, env: nat -> Event, search: Search, outcome: Outcome) {
    match outcome
    case NotReady(probes, message) =>
      && probes != [] && |probes| <= |c.executables|
      && var n := |probes| - 1;
         && Probed(c, env, search, probes[..n])
         && !Satisfied(c, env, search, n) && env(n).Ran? && probes[n] == ProbeOf(c.executables[n], env(n))
         && c.executables[n].argv != [] && message == NotReadyMessage(c.executables[n], env(n).exitCode)
    case TimedOut(records, readiness) =>
      && Probed(c, env, search, readiness) && Recorded(c, env, records)
      && (forall r | r in records :: r.exitCode == 0)
      && if |readiness| < |c.executables| then records == [] && !env(|readiness|).Ran?
         else |records| < |c.commands| && !CommandEvent(c, env, |records|).Ran?
    case Completed(records, readiness) =>
      && Probed(c, env, search, readiness) && |readiness| == |c.executables|
      && Recorded(c, env, records) && records != []
      && (forall i | 0 <= i < |records| - 1 :: records[i].exitCode == 0)
      && (|records| < |c.commands| ==> records[|records| - 1].exitCode != 0)
  }

  /** `_DockerCliExecution`: one container, waited for once. */
  class DockerCliExecution {
    const configuration: Configuration
    var timedOut: bool

    constructor (configuration: Configuration)
      requires Configured(configuration)
      ensures this.configuration == configuration && !timedOut
    {
      this.configuration, timedOut := configuration, false;
    }

    /** `wait`; a second call after a timeout returns nothing. */
    method Wait(env: nat -> Event, search: Search) returns (outcome: Option<Outcome>)
      requires Configured(configuration)
      modifies this
      ensures outcome.None? <==> old(timedOut)
      ensures outcome.Some? ==> Evidence(configuration, env, search, outcome.value)
      ensures timedOut == (old(timedOut) || (outcome.Some? && outcome.value.TimedOut?))
    {
      if timedOut { return None; }
      var evidence: seq<CommandRecord>, readiness: seq<Probe> := [], [];
      var required := configuration.executables;
      for j := 0 to |required|
        invariant |readiness| == j && Probed(configuration, env, search, readiness)
        invariant timedOut == old(timedOut)
      {
        var event := env(j);
        if !event.Ran? {
          timedOut := true;
          return Some(TimedOut(evidence, readiness));
        }
        var probe := ProbeOf(required[j], event);
        if event.exitCode != 0 || !search(required[j].pattern, probe.output) {
          assert !Satisfied(configuration, env, search, j);
          assert (readiness + [probe])[..j] == readiness;
          return Some(NotReady(readiness + [probe], NotReadyMessage(required[j], event.exitCode)));
        }
        readiness := readiness + [probe];
      }
      for i := 0 to |configuration.commands|
        invariant |evidence| == i && Recorded(configuration, env, evidence)
        invariant forall r | r in evidence :: r.exitCode == 0
        invariant timedOut == old(timedOut)
      {
        var event := CommandEvent(configuration, env, i);
        if !event.Ran? {
          timedOut := true;
          return Some(TimedOut(evidence, readiness));
        }
        evidence := evidence + [RecordOf(configuration.commands[i], event)];
        if event.exitCode != 0 { break; }
      }
      outcome := Some(Completed(evidence, readiness));
    }
  }

  // ---------------------------------------------------------------- the tool

  datatype Readiness = Complete | Incomplete | Unsatisfied

  datatype DockerOutput = DockerOutput(readiness: Readiness, commands: seq<CommandRecord>)

  datatype ToolError = CommandEvidenceMismatch

  /** `_validate_readiness_evidence`. */
  predicate ReadinessProven(probes: seq<Probe>, expected: seq<Executable>, search: Search) {
    && |probes| == |expected|
    && forall j | 0 <= j < |expected| ::
         && probes[j].argv == expected[j].argv && probes[j].pattern == expected[j].pattern
         && search(expected[j].pattern, probes[j].output) && probes[j].logsRef != ""
  }

  function ArgvsOf(records: seq<CommandRecord>): seq<Argv> {
    seq(|records|, i requires 0 <= i < |records| => records[i].argv)
  }

  function TotalMs(records: seq<CommandRecord>): nat {
    if records == [] then 0 else records[0].durationMs + TotalMs(records[1..])
  }

  /** The records are of the first commands, in order; there may be fewer only after a failure or a
      timeout. */
  predicate IsOfCommands(c: Configuration, outcome: Outcome)
    requires !outcome.NotReady?
  {
    && |outcome.commands| <= |c.commands|
    && (forall i | 0 <= i < |outcome.commands| :: outcome.commands[i].argv == c.commands[i])
    && (|outcome.commands| < |c.commands| ==>
          outcome.TimedOut? || exists i | 0 <= i < |outcome.commands| :: outcome.commands[i].exitCode != 0)
  }

  /** Every prerequisite is proven and every command is recorded as passed. */
  predicate ProvesSuccess(c: Configuration, outcome: Outcome, search: Search) {
    && outcome.Completed? && ReadinessProven(outcome.readiness, c.executables, search)
    && |outcome.commands| == |c.commands|
    && forall i | 0 <= i < |c.commands| ::
         outcome.commands[i].argv == c.commands[i] && outcome.commands[i].exitCode == 0
  }

  lemma ChecksAreExact(c: Configuration, outcome: Outcome, search: Search)
    requires !outcome.NotReady?
    ensures
      var actual, failed := ArgvsOf(outcome.commands), exists r | r in outcome.commands :: r.exitCode != 0;
      && |actual| == |outcome.commands|
      && (IsOfCommands(c, outcome) <==>
            actual <= c.commands && (!outcome.TimedOut? && !failed ==> |actual| == |c.commands|))
      && (ProvesSuccess(c, outcome, search) <==>
            && IsOfCommands(c, outcome) && outcome.Completed? && !failed
            && ReadinessProven(outcome.readiness, c.executables, search))
  {
    hide ReadinessProven;
    var actual := ArgvsOf(outcome.commands);
    assert forall i | 0 <= i < |actual| :: actual[i] == outcome.commands[i].argv;
    if r :| r in outcome.commands && r.exitCode != 0 {
      var i :| 0 <= i < |outcome.commands| && outcome.commands[i] == r;
    }
  }

  /** Whatever happened that may have given this outcome, the result reports it. */
  ghost predicate IsBorneOut(c: Configuration, outcome: Outcome, search: Search,
                             result: Result<ToolResult<DockerOutput>, ToolError>)
  {
    forall env: nat -> Event | Configured(c) && Evidence(c, env, search, outcome) ::
      Reports(c, env, search, result) && IsDetailed(c, env, search, result.value)
  }

  /** `_DockerToolExecution.wait` on an outcome of the executor: it reports what happened, with a
      message whenever it does not report success.  Whatever an executor returns, success is reported
      exactly if it proves it. */
  method ResultOf(c: Configuration, outcome: Outcome, search: Search, times: Times)
    returns (result: Result<ToolResult<DockerOutput>, ToolError>)
    ensures IsBorneOut(c, outcome, search, result)
    ensures result.Ok? && result.value.status == SucceededResult <==> ProvesSuccess(c, outcome, search)
    ensures result.Err? <==> !outcome.NotReady? && !IsOfCommands(c, outcome)
    ensures result.Ok? ==> WellFormed(result.value)
    ensures result.Ok? ==> (Explained(result.value) <==> (outcome.NotReady? ==> outcome.message != ""))
  {
    assert ProvesSuccess(c, outcome, search) ==> outcome.Completed?;
    hide IsOfCommands, ProvesSuccess, ReadinessProven, ArgvsOf, RunResult, UnprovenResult, TotalMs,
         IsBorneOut;
    match outcome {
      case NotReady(_, message) =>
        result := Ok(NotReadyResult(times, message));
        NotReadyIsBorneOut(c, outcome, search, times);
      case _ =>
        var actual, expected := ArgvsOf(outcome.commands), c.commands;
        var failed := exists r | r in outcome.commands :: r.exitCode != 0;
        ChecksAreExact(c, outcome, search);
        RunIsBorneOut(c, outcome, search, times);
        if !(actual <= expected) || (!outcome.TimedOut? && !failed && |actual| != |expected|) {
          return Err(CommandEvidenceMismatch);
        }
        var proven := ReadinessProven(outcome.readiness, c.executables, search);
        var measured := times.(durationMs := TotalMs(outcome.commands));
        if !proven && !outcome.TimedOut? { return Ok(UnprovenResult(measured)); }
        RunResultIs(outcome, if proven then Complete else Incomplete, measured);
        result := Ok(RunResult(outcome, if proven then Complete else Incomplete, measured));
    }
  }

  lemma NotReadyIsBorneOut(c: Configuration, outcome: Outcome, search: Search, times: Times)
    requires outcome.NotReady?
    ensures IsBorneOut(c, outcome, search, Ok(NotReadyResult(times, outcome.message)))
  {
    hide Evidence, Reports, IsDetailed;
    forall env: nat -> Event | Configured(c) && Evidence(c, env, search, outcome)
      ensures
        var result := NotReadyResult(times, outcome.message);
        Reports(c, env, search, Ok(result)) && IsDetailed(c, env, search, result)
    {
      NotReadyIsReported(c, env, search, outcome, times);
    }
  }

  /** Nothing that happened gives an outcome that fails the checks. */
  lemma RunIsBorneOut(c: Configuration, outcome: Outcome, search: Search, times: Times)
    requires !outcome.NotReady?
    ensures
      var proven := ReadinessProven(outcome.readiness, c.executables, search);
      var measured := times.(durationMs := TotalMs(outcome.commands));
      if IsOfCommands(c, outcome) && (proven || outcome.TimedOut?) then
        IsBorneOut(c, outcome, search, Ok(RunResult(outcome, if proven then Complete else Incomplete, measured)))
      else forall result :: IsBorneOut(c, outcome, search, result)
  {
    hide Evidence, Reports, IsDetailed, IsOfCommands, ReadinessProven, ArgvsOf, RunResult, TotalMs;
    ChecksAreExact(c, outcome, search);
    var proven := ReadinessProven(outcome.readiness, c.executables, search);
    var result := RunResult(outcome, if proven then Complete else Incomplete,
                            times.(durationMs := TotalMs(outcome.commands)));
    forall env: nat -> Event | Configured(c) && Evidence(c, env, search, outcome)
      ensures Reports(c, env, search, Ok(result)) && IsDetailed(c, env, search, result)
      ensures IsOfCommands(c, outcome) && (proven || outcome.TimedOut?)
    {
      EvidencePassesTheChecks(c, env, search, outcome);
      OutcomeIsReported(c, env, search, outcome, times);
    }
  }

  function UnprovenResult(times: Times): (result: ToolResult<DockerOutput>)
    ensures WellFormed(result) && Explained(result) && result.status == FailedResult
  {
    ToolResult(FailedResult, None, times, Some(FailureClass.Configuration),
               Some("Docker executor readiness evidence does not satisfy configured prerequisites"))
  }

  function NotReadyResult(times: Times, message: string): ToolResult<DockerOutput> {
    ToolResult(FailedResult, Some(DockerOutput(Unsatisfied, [])), times.(durationMs := 0),
               Some(FailureClass.Configuration), Some(message))
  }

  function RunResult(outcome: Outcome, readiness: Readiness, times: Times): ToolResult<DockerOutput>
    requires !outcome.NotReady?
  {
    var failed := exists r | r in outcome.commands :: r.exitCode != 0;
    var output := Some(DockerOutput(readiness, outcome.commands));
    if outcome.TimedOut? then
      ToolResult(TimedOutResult, output, times, Some(FailureClass.Timeout), Some("adapter exceeded timeout"))
    else if failed then
      ToolResult(FailedResult, output, times, Some(FailureClass.NonzeroExit), Some("command exited with nonzero code"))
    else
      ToolResult(SucceededResult, output, times, None, None)
  }

  lemma RunResultIs(outcome: Outcome, readiness: Readiness, times: Times)
    requires !outcome.NotReady?
    ensures
      var result, failed := RunResult(outcome, readiness, times), exists r | r in outcome.commands :: r.exitCode != 0;
      && WellFormed(result) && Explained(result)
      && (result.status == SucceededResult <==> outcome.Completed? && !failed)
  {
  }

  /** The result of a run, in terms of what happened: its records are those of a first part of the
      commands, in order, and its status says why there are no more. */
  ghost predicate Reports(c: Configuration, env: nat -> Event, search: Search,
                          result: Result<ToolResult<DockerOutput>, ToolError>)
  {
    && result.Ok? && result.value.output.Some?
    && var records := result.value.output.value.commands;
       && Recorded(c, env, records)
       && (records != [] ==> ReadyUpTo(c, env, search, |c.executables|))
       && (forall i | 0 <= i < |records| - 1 :: records[i].exitCode == 0)
       && match result.value.status
          case SucceededResult => |records| == |c.commands| && (forall r | r in records :: r.exitCode == 0)
          case FailedResult =>
            || (records == [] && !ReadyUpTo(c, env, search, |c.executables|) && !ReadinessTimesOut(c, env, search))
            || (records != [] && records[|records| - 1].exitCode != 0)
          case TimedOutResult =>
            && |records| < |c.commands| && (forall r | r in records :: r.exitCode == 0)
            && ((records == [] && ReadinessTimesOut(c, env, search))
                || (ReadyUpTo(c, env, search, |c.executables|) && !CommandEvent(c, env, |records|).Ran?))
          case DeniedResult => false
  }

  /** What else the result says: whether the prerequisites were satisfied, which kind of failure there
      was, and how long the commands took. */
  ghost predicate IsDetailed(c: Configuration, env: nat -> Event, search: Search, result: ToolResult<DockerOutput>) {
    && result.output.Some?
    && var output := result.output.value;
       && (output.readiness == Complete <==> ReadyUpTo(c, env, search, |c.executables|))
       && (output.readiness == Incomplete <==> ReadinessTimesOut(c, env, search))
       && (result.failureClass ==
             match result.status
             case SucceededResult => None
             case TimedOutResult => Some(Timeout)
             case _ => Some(if output.commands == [] then FailureClass.Configuration else NonzeroExit))
       && result.times.durationMs == TotalMs(output.commands)
  }

  /** The time the processes of the first `n` commands took. */
  ghost function Elapsed(c: Configuration, env: nat -> Event, n: nat): nat {
    if n == 0 then 0
    else Elapsed(c, env, n - 1) + if CommandEvent(c, env, n - 1).Ran? then CommandEvent(c, env, n - 1).durationMs else 0
  }

  lemma {:induction false} TotalAppends(records: seq<CommandRecord>, last: CommandRecord)
    ensures TotalMs(records + [last]) == TotalMs(records) + last.durationMs
  {
    if records == [] {
      assert [] + [last] == [last] && [last][1..] == [];
    } else {
      TotalAppends(records[1..], last);
      assert (records + [last])[1..] == records[1..] + [last];
    }
  }

  /** Stored records are those of the processes, field by field, and so is their total duration. */
  lemma {:induction false} RecordedIsKept(c: Configuration, env: nat -> Event, records: seq<CommandRecord>)
    requires Recorded(c, env, records)
    ensures forall i | 0 <= i < |records| ::
              var process, record := CommandEvent(c, env, i), records[i];
              && record.argv == c.commands[i] && process.Ran? && record.exitCode == process.exitCode
              && record.stdout == process.stdout && record.stderr == process.stderr
              && record.durationMs == process.durationMs
              && record.logsRef == LogReference("stdout:\n" + process.stdout + "\nstderr:\n" + process.stderr)
    ensures TotalMs(records) == Elapsed(c, env, |records|)
    decreases |records|
  {
    if records != [] {
      var n := |records| - 1;
      assert records == records[..n] + [records[n]];
      RecordedIsKept(c, env, records[..n]);
      TotalAppends(records[..n], records[n]);
    }
  }

  /** Kept probes are those of the prerequisites, field by field; the output is what both streams say
      between the whitespace around it, cut off after 1024 characters. */
  lemma ProbedIsKept(c: Configuration, env: nat -> Event, search: Search, probes: seq<Probe>)
    requires Probed(c, env, search, probes)
    ensures forall j | 0 <= j < |probes| ::
              && probes[j].argv == c.executables[j].argv && probes[j].pattern == c.executables[j].pattern
              && probes[j].logsRef == LogReference(probes[j].output) && env(j).Ran?
              && search(probes[j].pattern, probes[j].output)
              && exists before, core, after ::
                   && env(j).stdout + env(j).stderr == before + core + after
                   && All(before, IsSpace) && All(after, IsSpace) && Bare(core, IsSpace)
                   && probes[j].output == if |core| <= 1024 then core else core[..1024]
  {
    forall j | 0 <= j < |probes|
      ensures exists before, core, after ::
                && env(j).stdout + env(j).stderr == before + core + after
                && All(before, IsSpace) && All(after, IsSpace) && Bare(core, IsSpace)
                && probes[j].output == if |core| <= 1024 then core else core[..1024]
    {
      var text := env(j).stdout + env(j).stderr;
      TrimSplits(text, IsSpace);
    }
  }

  lemma NotReadyIsReported(c: Configuration, env: nat -> Event, search: Search, outcome: Outcome, times: Times)
    requires outcome.NotReady? && Evidence(c, env, search, outcome)
    ensures Reports(c, env, search, Ok(NotReadyResult(times, outcome.message)))
    ensures IsDetailed(c, env, search, NotReadyResult(times, outcome.message))
  {
    var n := |outcome.readiness| - 1;
    forall j: nat | j <= |c.executables| && ReadyUpTo(c, env, search, j) ensures j <= n && env(j).Ran? {
      if j < n { assert Satisfied(c, env, search, j); }
    }
  }

  /** Evidence of the executor always passes the tool's own checks. */
  lemma EvidencePassesTheChecks(c: Configuration, env: nat -> Event, search: Search, outcome: Outcome)
    requires !outcome.NotReady? && Configured(c) && Evidence(c, env, search, outcome)
    ensures ArgvsOf(outcome.commands) <= c.commands
    ensures outcome.Completed? && (forall r | r in outcome.commands :: r.exitCode == 0) ==>
              |outcome.commands| == |c.commands|
    ensures outcome.Completed? || |outcome.readiness| == |c.executables| ==>
              ReadinessProven(outcome.readiness, c.executables, search)
  {
    assert forall j | 0 <= j < |outcome.readiness| :: Satisfied(c, env, search, j);
  }

  lemma OutcomeIsReported(c: Configuration, env: nat -> Event, search: Search, outcome: Outcome, times: Times)
    requires !outcome.NotReady? && Configured(c) && Evidence(c, env, search, outcome)
    ensures
      var readiness := if ReadinessProven(outcome.readiness, c.executables, search) then Complete else Incomplete;
      var result := RunResult(outcome, readiness, times.(durationMs := TotalMs(outcome.commands)));
      Reports(c, env, search, Ok(result)) && IsDetailed(c, env, search, result)
  {
    EvidencePassesTheChecks(c, env, search, outcome);
    assert ReadinessProven(outcome.readiness, c.executables, search) ==> |outcome.readiness| == |c.executables|;
    RunIsReported(c, env, search, outcome, if |outcome.readiness| == |c.executables| then Complete else Incomplete,
                  times.(durationMs := TotalMs(outcome.commands)));
    hide ReadinessProven, TotalMs, Evidence, RunResult, Reports, IsDetailed;
  }

  lemma RunIsReported(c: Configuration, env: nat -> Event, search: Search, outcome: Outcome, readiness: Readiness,
                      times: Times)
    requires !outcome.NotReady? && Configured(c) && Evidence(c, env, search, outcome)
    requires readiness == if |outcome.readiness| == |c.executables| then Complete else Incomplete
    requires times.durationMs == TotalMs(outcome.commands)
    ensures
      var result := RunResult(outcome, readiness, times);
      Reports(c, env, search, Ok(result)) && IsDetailed(c, env, search, result)
  {
    hide TotalMs, RecordOf, ProbeOf, Satisfied, Probed;
    var records := outcome.commands;
    if outcome.Completed? {
      assert ReadyUpTo(c, env, search, |c.executables|) by { ProbedIsReady(c, env, search, outcome.readiness); }
      if exists r | r in records :: r.exitCode != 0 {
        var r :| r in records && r.exitCode != 0;
        var i :| 0 <= i < |records| && records[i] == r;
        assert i == |records| - 1;
      }
    } else {
      var n := |outcome.readiness|;
      ProbedIsReady(c, env, search, outcome.readiness);
      if n < |c.executables| { NotReadyWithout(c, env, search, n); }
    }
    ReadyIsInTime(c, env, search);
  }

  lemma ReadyIsInTime(c: Configuration, env: nat -> Event, search: Search)
    ensures ReadyUpTo(c, env, search, |c.executables|) ==> !ReadinessTimesOut(c, env, search)
  {
    forall j: nat | j < |c.executables| && ReadyUpTo(c, env, search, |c.executables|) ensures env(j).Ran? {
      assert Satisfied(c, env, search, j);
    }
  }

  lemma NotReadyWithout(c: Configuration, env: nat -> Event, search: Search, j: nat)
    requires j < |c.executables| && !env(j).Ran?
    ensures !ReadyUpTo(c, env, search, |c.executables|)
  {
    assert !Satisfied(c, env, search, j);
  }

  lemma ProbedIsReady(c: Configuration, env: nat -> Event, search: Search, probes: seq<Probe>)
    requires Probed(c, env, search, probes)
    ensures |probes| <= |c.executables| && ReadyUpTo(c, env, search, |probes|)
  {
  }
}
