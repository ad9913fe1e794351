/** Judging single commands from the evidence of a Docker ToolInvocation, and the whole way there
    from the processes in the container (src/aep/build_test_evaluation.py:83-120, 219-440,
    src/aep/docker_validation_tool.py:196-262, src/aep/tool_runtime.py:320-440). */
module BuildTestEvaluation {
  import opened Wrappers
  import opened DockerEvidence
  import opened ToolRuntime

  /** A stored command record; a field that is missing or of the wrong type is `None`. */
  datatype RawRecord = RawRecord(argv: Option<Argv>, stdout: Option<string>, stderr: Option<string>,
                                 exitCode: Option<int>, durationMs: Option<int>, logsRef: Option<string>)

  /** The parts of a terminal ToolInvocation that are evaluated. */
  datatype Invocation = Invocation(resultStatus: ResultStatus, requested: Option<seq<Option<Argv>>>,
                                   output: Option<seq<Option<RawRecord>>>)

  predicate IsArgv(argv: Option<Argv>) { argv.Some? && ValidArgv(argv.value) }

  predicate IsComplete(r: RawRecord) {
    && IsArgv(r.argv) && r.stdout.Some? && r.stderr.Some? && r.exitCode.Some?
    && r.durationMs.Some? && r.durationMs.value >= 0 && r.logsRef.Some? && r.logsRef.value != ""
  }

  function Normal(r: RawRecord): CommandRecord
    requires IsComplete(r)
  {
    CommandRecord(r.argv.value, r.stdout.value, r.stderr.value, r.exitCode.value, r.durationMs.value, r.logsRef.value)
  }

  function Raw(r: CommandRecord): RawRecord {
    RawRecord(Some(r.argv), Some(r.stdout), Some(r.stderr), Some(r.exitCode), Some(r.durationMs), Some(r.logsRef))
  }

  // ---------------------------------------------------------------- reading the invocation

  /** The requested commands, if all of them are well formed and there is one. */
  ghost predicate Requests(inv: Invocation, commands: seq<Argv>) {
    && inv.requested.Some? && commands != [] && |inv.requested.value| == |commands|
    && forall i | 0 <= i < |commands| :: inv.requested.value[i] == Some(commands[i]) && ValidArgv(commands[i])
  }

  method RequestedCommands(inv: Invocation) returns (commands: seq<Argv>, error: bool)
    ensures error ==> commands == [] && forall c :: !Requests(inv, c)
    ensures !error ==> Requests(inv, commands)
  {
    commands := [];
    if inv.requested.None? { return [], true; }
    var raw := inv.requested.value;
    for i := 0 to |raw|
      invariant |commands| == i
      invariant forall j | 0 <= j < i :: raw[j] == Some(commands[j]) && ValidArgv(commands[j])
    {
      if !IsArgv(raw[i]) { return [], true; }
      commands := commands + [raw[i].value];
    }
    error := commands == [];
  }

  /** The stored commands are a first part of the requested ones. */
  ghost predicate InOrder(inv: Invocation, requested: seq<Argv>) {
    && inv.output.Some? && |inv.output.value| <= |requested|
    && forall i | 0 <= i < |inv.output.value| ::
         inv.output.value[i].Some? && inv.output.value[i].value.argv == Some(requested[i]) && ValidArgv(requested[i])
  }

  /** `records` are the stored records up to the first incomplete one. */
  ghost predicate ReadUpTo(raw: seq<Option<RawRecord>>, records: seq<CommandRecord>) {
    && |records| <= |raw|
    && (forall i | 0 <= i < |records| :: raw[i].Some? && IsComplete(raw[i].value) && records[i] == Normal(raw[i].value))
    && (|records| < |raw| ==> raw[|records|].None? || !IsComplete(raw[|records|].value))
  }

  method CommandRecords(inv: Invocation, requested: seq<Argv>)
    returns (records: seq<CommandRecord>, outputError: Option<nat>, sequenceError: bool)
    ensures sequenceError <==> !InOrder(inv, requested)
    ensures sequenceError ==> records == [] && outputError.None?
    ensures !sequenceError ==>
              && ReadUpTo(inv.output.value, records)
              && outputError == if |records| < |inv.output.value| then Some(|records|) else None
  {
    records, outputError, sequenceError := [], None, false;
    if inv.output.None? || |inv.output.value| > |requested| { return [], None, true; }
    var raw := inv.output.value;
    for i := 0 to |raw|
      invariant forall j | 0 <= j < i ::
                raw[j].Some? && raw[j].value.argv == Some(requested[j]) && ValidArgv(requested[j])
    {
      if raw[i].None? || !IsArgv(raw[i].value.argv) || raw[i].value.argv.value != requested[i] {
        return [], None, true;
      }
    }
    for i := 0 to |raw|
      invariant |records| == i
      invariant forall j | 0 <= j < i :: IsComplete(raw[j].value) && records[j] == Normal(raw[j].value)
    {
      if !IsComplete(raw[i].value) { return records, Some(i), false; }
      records := records + [Normal(raw[i].value)];
    }
  }

  /** `_result_sequence_error`. */
  predicate SequenceError(status: ResultStatus, requested: seq<Argv>, records: seq<CommandRecord>) {
    match status
    case SucceededResult => |records| != |requested|
    case TimedOutResult => |records| >= |requested| || exists r | r in records :: r.exitCode != 0
    case FailedResult => exists i | 0 <= i < |records| - 1 :: records[i].exitCode != 0
    case DeniedResult => records != []
  }

  // ---------------------------------------------------------------- one command

  /** `_make_result`: the status of one command, and whether the evaluation itself failed. */
  method Judge(inv: Invocation, requested: seq<Argv>, records: seq<CommandRecord>, sharedError: bool,
               outputError: Option<nat>, index: nat)
    returns (status: Status, configurationError: bool)
    ensures configurationError <==>
              || sharedError || (outputError.Some? && index >= outputError.value) || index >= |requested|
              || (index >= |records| && inv.resultStatus in {SucceededResult, DeniedResult})
    ensures !configurationError && index < |records| ==>
              status == if records[index].exitCode == 0 then Passed else Failed
    ensures !configurationError && index >= |records| ==>
              status == if inv.resultStatus == TimedOutResult && index == |records| then TimeOut else NotRun
    ensures configurationError ==> status == InvalidOutput
  {
    status := InvalidOutput;
    configurationError := sharedError || (outputError.Some? && index >= outputError.value) || index >= |requested|;
    if configurationError { return; }
    if index < |records| {
      status := if records[index].exitCode == 0 then Passed else Failed;
    } else if inv.resultStatus == TimedOutResult && index == |records| {
      status := TimeOut;
    } else if inv.resultStatus == FailedResult || inv.resultStatus == TimedOutResult {
      status := NotRun;
    } else {
      configurationError := true;
    }
  }

  /** The ToolInvocation that keeps the terminal fields of a run. */
  function InvocationOf(c: Configuration, t: Terminals<DockerOutput>): Invocation {
    Invocation(t.resultStatus, Some(SomeOf(c.commands)),
               if t.output.None? then None else Some(RawRecords(t.output.value.commands)))
  }

  function RawRecords(records: seq<CommandRecord>): seq<Option<RawRecord>> {
    seq(|records|, i requires 0 <= i < |records| => Some(Raw(records[i])))
  }

  /** What may be stored of a result: its output, and its status unless the container could not be
      removed afterwards. */
  predicate Stores(result: ToolResult<DockerOutput>, t: Terminals<DockerOutput>) {
    t.output == result.output && (t.resultStatus == result.status || t.resultStatus == FailedResult)
  }

  /** Evidence the Docker tool recorded, as the evaluator reads it: nothing is rejected. */
  lemma ReportedEvidenceIsRead(c: Configuration, env: nat -> Event, search: Search, result: ToolResult<DockerOutput>,
                               t: Terminals<DockerOutput>)
    requires Configured(c) && Reports(c, env, search, Ok(result)) && Stores(result, t)
    ensures
      var inv, records := InvocationOf(c, t), result.output.value.commands;
      && Requests(inv, c.commands) && InOrder(inv, c.commands)
      && (forall requested | Requests(inv, requested) :: requested == c.commands)
      && ReadUpTo(inv.output.value, records)
      && (forall read | ReadUpTo(inv.output.value, read) :: read == records)
      && !SequenceError(inv.resultStatus, c.commands, records)
  {
    hide TrueStatus;
    var inv, records := InvocationOf(c, t), result.output.value.commands;
    forall i | 0 <= i < |records| ensures IsComplete(Raw(records[i])) && Normal(Raw(records[i])) == records[i] {
      assert c.commands[i] in c.commands;
      ReferenceIsNonempty("stdout:\n" + CommandEvent(c, env, i).stdout + "\nstderr:\n"
                          + CommandEvent(c, env, i).stderr);
    }
    forall i | 0 <= i < |c.commands| ensures ValidArgv(c.commands[i]) { assert c.commands[i] in c.commands; }
    forall read | ReadUpTo(inv.output.value, read) ensures read == records {
      assert |read| == |records|;
    }
  }

  lemma ReferenceIsNonempty(content: string)
    ensures LogReference(content) != ""
  {
  }

  /** A report with records up to `k`, as the truth about command `i`. */
  lemma RecordedCommandsAreTrue(c: Configuration, env: nat -> Event, search: Search, result: ToolResult<DockerOutput>,
                                i: nat)
    requires Reports(c, env, search, Ok(result)) && i < |result.output.value.commands|
    ensures TrueStatus(c, env, search, i) == if result.output.value.commands[i].exitCode == 0 then Passed else Failed
  {
    hide Satisfied, ReadinessTimesOut;
    forall j: nat | j < i ensures CommandPassed(c, env, j) {
      assert result.output.value.commands[j].exitCode == 0;
    }
    assert CommandReached(c, env, search, i);
  }

  lemma MissingCommandsAreTrue(c: Configuration, env: nat -> Event, search: Search, result: ToolResult<DockerOutput>,
                               i: nat)
    requires Configured(c) && Reports(c, env, search, Ok(result))
    requires |result.output.value.commands| <= i < |c.commands|
    ensures result.status in {FailedResult, TimedOutResult}
    ensures TrueStatus(c, env, search, i) ==
            if result.status == TimedOutResult && i == |result.output.value.commands| then TimeOut else NotRun
  {
    hide Satisfied, ReadinessTimesOut;
    var records := result.output.value.commands;
    var k := |records|;
    if result.status == FailedResult {
      if records != [] { assert !CommandPassed(c, env, k - 1); }
    } else {
      forall j: nat | j < k ensures ReadyUpTo(c, env, search, |c.executables|) ==> CommandPassed(c, env, j) {
        assert records[j] in records;
      }
      TimedOutReadiness(c, env, search);
      if ReadyUpTo(c, env, search, |c.executables|) {
        assert CommandReached(c, env, search, k) && !CommandPassed(c, env, k);
      }
    }
  }

  lemma TimedOutReadiness(c: Configuration, env: nat -> Event, search: Search)
    ensures ReadinessTimesOut(c, env, search) ==> !ReadyUpTo(c, env, search, |c.executables|)
  {
    if ReadinessTimesOut(c, env, search) {
      var j: nat :| j < |c.executables| && ReadyUpTo(c, env, search, j) && !env(j).Ran?;
      assert !Satisfied(c, env, search, j);
    }
  }

  /** For every run that `inv` may keep, this is what happened to command `index`; a command that
      is not configured is a configuration error. */
  ghost predicate Truthful(inv: Invocation, index: nat, status: Status, configurationError: bool) {
    forall c: Configuration, env: nat -> Event, search: Search, result: ToolResult<DockerOutput>,
        t: Terminals<DockerOutput>
      | Configured(c) && Reports(c, env, search, Ok(result)) && Stores(result, t) && inv == InvocationOf(c, t) ::
      IsTrue(c, env, search, t.resultStatus == result.status, index, status, configurationError)
  }

  /** A run whose status was replaced by FAILED no longer tells a timeout from a command that was
      not run; everything else is told as it happened. */
  ghost predicate IsTrue(c: Configuration, env: nat -> Event, search: Search, kept: bool, index: nat, status: Status,
                         configurationError: bool) {
    if index < |c.commands| then
      && !configurationError
      && status == if !kept && TrueStatus(c, env, search, index) == TimeOut then NotRun
                   else TrueStatus(c, env, search, index)
    else configurationError
  }

  /** Producer and consumer agree: for every configuration and whatever happens to its processes,
      each configured command is reported with its true status, without any configuration error.
      A run without output has only configuration errors. */
  method EvaluateCommand(inv: Invocation, index: nat) returns (status: Status, configurationError: bool)
    ensures Truthful(inv, index, status, configurationError)
    ensures inv.output.None? ==> status == InvalidOutput && configurationError
  {
    hide TrueStatus, Configured, Reports, Stores, InvocationOf, SequenceError, Requests, ReadUpTo, IsTrue;
    var requested, requestError := RequestedCommands(inv);
    var records, outputError, sequenceError := CommandRecords(inv, requested);
    assert inv.output.None? ==> sequenceError;
    if !sequenceError && outputError.None? { sequenceError := SequenceError(inv.resultStatus, requested, records); }
    status, configurationError := Judge(inv, requested, records, requestError || sequenceError, outputError, index);
    hide InOrder;
    forall c: Configuration, env: nat -> Event, search: Search, result: ToolResult<DockerOutput>,
        t: Terminals<DockerOutput>
      | Configured(c) && Reports(c, env, search, Ok(result)) && Stores(result, t) && inv == InvocationOf(c, t)
      ensures IsTrue(c, env, search, t.resultStatus == result.status, index, status, configurationError)
    {
      ReportedEvidenceIsRead(c, env, search, result, t);
      StoredRecords(c, env, search, result, t);
      JudgedTruly(c, env, search, result, t, index, status, configurationError);
    }
  }

  lemma JudgedTruly(c: Configuration, env: nat -> Event, search: Search, result: ToolResult<DockerOutput>,
                    t: Terminals<DockerOutput>, index: nat, status: Status, configurationError: bool)
    requires Configured(c) && Reports(c, env, search, Ok(result)) && Stores(result, t)
    requires
      var records := result.output.value.commands;
      && (configurationError <==>
            index >= |c.commands| || (index >= |records| && t.resultStatus in {SucceededResult, DeniedResult}))
      && (!configurationError && index < |records| ==>
          status == if records[index].exitCode == 0 then Passed else Failed)
      && (!configurationError && index >= |records| ==>
            status == if t.resultStatus == TimedOutResult && index == |records| then TimeOut else NotRun)
    ensures IsTrue(c, env, search, t.resultStatus == result.status, index, status, configurationError)
  {
    hide TrueStatus;
    if index < |result.output.value.commands| {
      RecordedCommandsAreTrue(c, env, search, result, index);
    } else if index < |c.commands| {
      MissingCommandsAreTrue(c, env, search, result, index);
    }
  }

  lemma StoredRecords(c: Configuration, env: nat -> Event, search: Search, result: ToolResult<DockerOutput>,
                      t: Terminals<DockerOutput>)
    requires Reports(c, env, search, Ok(result)) && Stores(result, t)
    ensures t.output == result.output && InvocationOf(c, t).output.Some?
    ensures |InvocationOf(c, t).output.value| == |result.output.value.commands| <= |c.commands|
    ensures InvocationOf(c, t).resultStatus == t.resultStatus
  {
  }

  /** What really happened to each command. */
  ghost predicate AreTrue(c: Configuration, env: nat -> Event, search: Search, statuses: seq<Status>) {
    |statuses| == |c.commands| && forall i | 0 <= i < |statuses| :: statuses[i] == TrueStatus(c, env, search, i)
  }

  /** The first `k` commands passed; the next failed, timed out or, if it is the first, was not run
      for want of a prerequisite; nothing after it was run. */
  predicate PassedUpTo(statuses: seq<Status>, k: nat) {
    && k <= |statuses|
    && (forall i | 0 <= i < k :: statuses[i] == Passed)
    && (k < |statuses| ==> statuses[k] in {Failed, TimeOut, NotRun})
    && (forall i | k < i < |statuses| :: statuses[i] == NotRun)
    && (k < |statuses| && statuses[k] == NotRun ==> k == 0)
  }

  /** The statuses of every run follow that one pattern. */
  lemma StatusesFollowOnePattern(c: Configuration, env: nat -> Event, search: Search, statuses: seq<Status>)
    requires AreTrue(c, env, search, statuses)
    ensures exists k: nat :: PassedUpTo(statuses, k)
  {
    hide ReadinessTimesOut, Satisfied, ReadyUpTo;
    var k: nat := 0;
    while k < |c.commands| && CommandReached(c, env, search, k) && CommandPassed(c, env, k)
      invariant k <= |c.commands|
      invariant forall i: nat | i < k :: CommandReached(c, env, search, i) && CommandPassed(c, env, i)
      invariant k > 0 ==> ReadyUpTo(c, env, search, |c.executables|)
    {
      k := k + 1;
    }
    assert forall i: nat | i < k :: statuses[i] == Passed;
    if k < |c.commands| {
      assert CommandReached(c, env, search, k) ==> !CommandPassed(c, env, k);
      assert statuses[k] in {Failed, TimeOut, NotRun};
      assert ReadyUpTo(c, env, search, |c.executables|) ==> CommandReached(c, env, search, k);
      forall i: nat | k < i < |c.commands| ensures statuses[i] == NotRun {
        assert !CommandReached(c, env, search, i);
      }
    }
    assert PassedUpTo(statuses, k);
  }

  /** A run is reported as SUCCEEDED exactly when every command passed. */
  lemma SuccessIsAllPassed(c: Configuration, env: nat -> Event, search: Search, result: ToolResult<DockerOutput>)
    requires Configured(c) && Reports(c, env, search, Ok(result))
    ensures result.status == SucceededResult <==> AllPassed(c, env, search)
  {
    hide TrueStatus;
    var records := result.output.value.commands;
    if result.status == SucceededResult {
      forall i: nat | i < |c.commands| ensures TrueStatus(c, env, search, i) == Passed {
        RecordedCommandsAreTrue(c, env, search, result, i);
        assert records[i] in records;
      }
    } else if |records| < |c.commands| {
      MissingCommandsAreTrue(c, env, search, result, |records|);
    } else {
      RecordedCommandsAreTrue(c, env, search, result, |records| - 1);
    }
  }

  ghost predicate AllPassed(c: Configuration, env: nat -> Event, search: Search) {
    forall i: nat | i < |c.commands| :: TrueStatus(c, env, search, i) == Passed
  }

  // ---------------------------------------------------------------- from the processes to the statuses

  ghost predicate SomeTimeOut(c: Configuration, env: nat -> Event, search: Search) {
    exists i: nat :: i < |c.commands| && TrueStatus(c, env, search, i) == TimeOut
  }

  /** What happened never reaches the store: the validation does not start, waiting for it raises,
      its complete output is refused, or it runs out of time and stopping it raises. */
  ghost predicate IsLost(c: Configuration, env: nat -> Event, search: Search, s: Surroundings) {
    || !Starts(s) || s.waitError.Some?
    || (s.outputError.Some? && AllPassed(c, env, search))
    || (s.stopError.Some? && SomeTimeOut(c, env, search))
  }

  /** What becomes of what the execution reported. */
  ghost predicate Decided(c: Configuration, env: nat -> Event, search: Search, s: Surroundings,
                          result: ToolResult<DockerOutput>)
  {
    if IsLost(c, env, search, s) then result.output.None?
    else exists given ::
      && Reports(c, env, search, Ok(given)) && result.output == given.output
      && result.status == if s.cleanupError.Some? then FailedResult else given.status
  }

  /** A run reported as FAILED has no command that timed out. */
  lemma NoTimeoutIn(c: Configuration, env: nat -> Event, search: Search, given: ToolResult<DockerOutput>, i: nat)
    requires Configured(c) && Reports(c, env, search, Ok(given)) && i < |c.commands|
    requires given.status == FailedResult
    ensures TrueStatus(c, env, search, i) != TimeOut
  {
    hide TrueStatus;
    if i < |given.output.value.commands| {
      RecordedCommandsAreTrue(c, env, search, given, i);
    } else {
      MissingCommandsAreTrue(c, env, search, given, i);
    }
  }

  /** A run is reported as TIMED_OUT exactly when a command timed out. */
  lemma TimeoutIsReported(c: Configuration, env: nat -> Event, search: Search, result: ToolResult<DockerOutput>)
    requires Configured(c) && Reports(c, env, search, Ok(result))
    ensures result.status == TimedOutResult <==> SomeTimeOut(c, env, search)
  {
    hide TrueStatus;
    SuccessIsAllPassed(c, env, search, result);
    if result.status == TimedOutResult {
      MissingCommandsAreTrue(c, env, search, result, |result.output.value.commands|);
    } else if result.status == FailedResult && SomeTimeOut(c, env, search) {
      var i: nat :| i < |c.commands| && TrueStatus(c, env, search, i) == TimeOut;
      NoTimeoutIn(c, env, search, result, i);
    }
  }

  lemma ReportsOutput(c: Configuration, env: nat -> Event, search: Search,
                      given: Result<ToolResult<DockerOutput>, ToolError>)
    requires Reports(c, env, search, given)
    ensures given.Ok? && given.value.output.Some?
  {
  }

  lemma NotReadyHasMessage(c: Configuration, env: nat -> Event, search: Search, outcome: Outcome)
    requires Evidence(c, env, search, outcome)
    ensures outcome.NotReady? ==> outcome.message != ""
  {
    if outcome.NotReady? {
      var n := |outcome.readiness| - 1;
      assert NotReadyMessage(c.executables[n], env(n).exitCode) != "";
    }
  }

  /** Starts the container, runs the configured commands and decides the result.  Whatever happens,
      the result is restored from the store as it was. */
  method Validate(c: Configuration, env: nat -> Event, search: Search, s: Surroundings)
    returns (result: ToolResult<DockerOutput>)
    requires Configured(c)
    ensures WellFormed(result) && Restore(Persist(result)) == result
    ensures Decided(c, env, search, s, result)
  {
    hide Evidence, Reports, AllPassed, SomeTimeOut, NotReadyMessage;
    var execution := new DockerCliExecution(c);
    var outcome := execution.Wait(env, search);
    NotReadyHasMessage(c, env, search, outcome.value);
    var given := ResultOf(c, outcome.value, search, s.times);
    assert Reports(c, env, search, given);
    ReportsOutput(c, env, search, given);
    SuccessIsAllPassed(c, env, search, given.value);
    TimeoutIsReported(c, env, search, given.value);
    result := InvokeTool(s, Gave(given.value));
    RestoringIsExact(result);
    assert given == Ok(given.value);
  }

  /** No command may be reported differently from what happened to it, except that a run that is
      lost is reported as unusable, and that a failed cleanup hides a timeout. */
  ghost function Expected(c: Configuration, env: nat -> Event, search: Search, s: Surroundings, i: nat): Status {
    if IsLost(c, env, search, s) then InvalidOutput
    else if s.cleanupError.Some? && TrueStatus(c, env, search, i) == TimeOut then NotRun
    else TrueStatus(c, env, search, i)
  }

  /** The whole way: the statuses the evaluator returns, for every configuration, whatever happens
      in the container and around it. */
  method ValidateAndEvaluate(c: Configuration, env: nat -> Event, search: Search, s: Surroundings)
    returns (statuses: seq<Status>)
    requires Configured(c)
    ensures |statuses| == |c.commands|
    ensures forall i | 0 <= i < |statuses| :: statuses[i] == Expected(c, env, search, s, i)
    ensures Undisturbed(s) ==> AreTrue(c, env, search, statuses) && exists k: nat :: PassedUpTo(statuses, k)
  {
    hide TrueStatus, AllPassed, SomeTimeOut, Reports, Configured, PassedUpTo, InvocationOf, Truthful;
    var result := Validate(c, env, search, s);
    var stored := Persist(result);
    var inv := InvocationOf(c, stored);
    statuses := [];
    for i := 0 to |c.commands|
      invariant |statuses| == i
      invariant forall j | 0 <= j < i :: statuses[j] == Expected(c, env, search, s, j)
    {
      var status, configurationError := EvaluateCommand(inv, i);
      EvaluatedAsExpected(c, env, search, s, result, i, status, configurationError);
      statuses := statuses + [status];
    }
    if Undisturbed(s) { StatusesFollowOnePattern(c, env, search, statuses); }
  }

  predicate Undisturbed(s: Surroundings) {
    && Starts(s) && s.waitError.None? && s.stopError.None?
    && s.outputError.None? && s.cleanupError.None?
  }

  lemma EvaluatedAsExpected(c: Configuration, env: nat -> Event, search: Search, s: Surroundings,
                            result: ToolResult<DockerOutput>, i: nat, status: Status, configurationError: bool)
    requires Configured(c) && Decided(c, env, search, s, result) && i < |c.commands|
    requires
      var inv := InvocationOf(c, Persist(result));
      && Truthful(inv, i, status, configurationError)
      && (inv.output.None? ==> status == InvalidOutput && configurationError)
    ensures status == Expected(c, env, search, s, i)
  {
    hide TrueStatus, AllPassed, SomeTimeOut, Reports, Configured;
    var t := Persist(result);
    if !IsLost(c, env, search, s) {
      var given :| Reports(c, env, search, Ok(given)) && result.output == given.output
        && result.status == if s.cleanupError.Some? then FailedResult else given.status;
      assert Stores(given, t);
      assert IsTrue(c, env, search, t.resultStatus == given.status, i, status, configurationError);
      if given.status == FailedResult { NoTimeoutIn(c, env, search, given, i); }
    }
  }

  /** So all statuses are true exactly when the validation starts and is waited for to its end, a
      complete output is accepted, and no command timed out before a stop or a cleanup that fails. */
  lemma TrueExactly(c: Configuration, env: nat -> Event, search: Search, s: Surroundings)
    requires Configured(c)
    ensures (forall i: nat | i < |c.commands| :: Expected(c, env, search, s, i) == TrueStatus(c, env, search, i)) <==>
              && Starts(s) && s.waitError.None?
              && (s.outputError.Some? ==> !AllPassed(c, env, search))
              && (s.stopError.Some? || s.cleanupError.Some? ==> !SomeTimeOut(c, env, search))
  {
    hide AllPassed;
    assert Expected(c, env, search, s, 0) == TrueStatus(c, env, search, 0) ==>
        Expected(c, env, search, s, 0) != InvalidOutput;
  }

  // ---------------------------------------------------------------- runs that are reported otherwise

  const BUILD := Configuration.Configuration([Executable(["make", "-v"], "4")], [["make"]])

  const CALM := Surroundings(None, true, None, None, None, None, None, Times(None, "", "", 0))

  /** The prerequisite is there, and then the build takes as long as `build` says. */
  function Course(build: Event): nat -> Event {
    n => if n == 0 then Ran(0, "4", "", 1) else build
  }

  lemma BuildStatus(build: Event)
    ensures Configured(BUILD)
    ensures TrueStatus(BUILD, Course(build), (_, _) => true, 0) ==
            if !build.Ran? then TimeOut else if build.exitCode == 0 then Passed else Failed
  {
    var search: Search := (_, _) => true;
    assert Satisfied(BUILD, Course(build), search, 0);
    assert CommandReached(BUILD, Course(build), search, 0);
  }

  /** A build that times out before a cleanup that fails is reported as not run. */
  lemma CleanupHidesTimeout()
    ensures
      var search: Search := (_, _) => true;
      var s := CALM.(cleanupError := Some("removal failed"));
      && Configured(BUILD) && TrueStatus(BUILD, Course(NoReturn), search, 0) == TimeOut
      && Expected(BUILD, Course(NoReturn), search, s, 0) == NotRun
  {
    hide TrueStatus;
    BuildStatus(NoReturn);
    assert !AllPassed(BUILD, Course(NoReturn), (_, _) => true);
  }

  /** A build that passes is reported as unusable if its output is refused or waiting for its end
      raises; so is one that times out and cannot be stopped. */
  lemma LostRuns()
    ensures
      var search: Search := (_, _) => true;
      var passes := Course(Ran(0, "", "", 1));
      var refused := CALM.(outputError := Some("refused"));
      var broken := CALM.(waitError := Some(Raise(Adapter, "", "OSError")));
      var stuck := CALM.(stopError := Some(Raise(Adapter, "", "OSError")));
      && Configured(BUILD)
      && TrueStatus(BUILD, passes, search, 0) == Passed
      && Expected(BUILD, passes, search, refused, 0) == InvalidOutput
      && Expected(BUILD, passes, search, broken, 0) == InvalidOutput
      && TrueStatus(BUILD, Course(NoReturn), search, 0) == TimeOut
      && Expected(BUILD, Course(NoReturn), search, stuck, 0) == InvalidOutput
  {
    hide TrueStatus;
    BuildStatus(NoReturn);
    BuildStatus(Ran(0, "", "", 1));
  }
}
