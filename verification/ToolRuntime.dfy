/** Results of Tool runs and how `invoke_tool` decides one (src/aep/tool_runtime.py). */
module ToolRuntime {
  import opened Wrappers

  datatype ResultStatus = SucceededResult | FailedResult | TimedOutResult | DeniedResult

  datatype FailureClass =
    | Validation | Policy | Timeout | Adapter | Startup | NonzeroExit | Boundary | Missing | Io | Configuration

  /** Where the logs of a run are and when it ran. */
  datatype Times = Times(logsRef: Option<string>, startedAt: string, completedAt: string, durationMs: nat)

  datatype ToolResult<+O> = ToolResult(status: ResultStatus, output: Option<O>, times: Times,
                                       failureClass: Option<FailureClass>, failureMessage: Option<string>)

  /** What the constructor of a ToolResult demands. */
  predicate WellFormed<O>(r: ToolResult<O>) {
    r.status == SucceededResult <==> r.failureClass.None?
  }

  /** A message just when the run did not succeed. */
  predicate Explained<O>(r: ToolResult<O>) {
    if r.status == SucceededResult then r.failureMessage.None?
    else r.failureMessage.Some? && r.failureMessage.value != ""
  }

  // ---------------------------------------------------------------- one invocation

  type ClassName = name: string | name != "" witness "Exception"

  /** An exception: the failure class it stands for, its text and the name of its class. */
  datatype Raise = Raise(failureClass: FailureClass, text: string, className: ClassName)
  {
    /** `str(error) or type(error).__name__`. */
    function Message(): (message: string)
      ensures message != ""
      ensures text != "" ==> message == text
    {
      if text != "" then text else className
    }
  }

  /** What waiting for the execution gives, unless it raises. */
  datatype Waited<+O> = Deadline | Gave(result: ToolResult<O>) | Foreign

  /** Everything around the execution: schema errors of the input and the output, the
      authorization, and what starting, waiting, stopping after a timeout and cleaning up raise. */
  datatype Surroundings = Surroundings(inputError: Option<string>, authorized: bool, startError: Option<Raise>,
                                       waitError: Option<Raise>, stopError: Option<Raise>,
                                       outputError: Option<string>, cleanupError: Option<string>, times: Times)

  predicate Starts(s: Surroundings) {
    s.inputError.None? && s.authorized && s.startError.None?
  }

  /** Whether the execution's output reaches the caller, whatever becomes of its status. */
  predicate KeepsOutput<O>(s: Surroundings, waited: Waited<O>) {
    && Starts(s) && s.waitError.None? && waited.Gave?
    && (waited.result.status == SucceededResult ==> s.outputError.None?)
    && (waited.result.status == TimedOutResult ==> s.stopError.None?)
  }

  /** The execution's own result is what the caller gets. */
  predicate PassesThrough<O>(s: Surroundings, waited: Waited<O>) {
    KeepsOutput(s, waited) && s.cleanupError.None?
  }

  function Failure<O>(s: Surroundings, status: ResultStatus, failureClass: FailureClass, message: string): ToolResult<O>
  {
    ToolResult(status, None, s.times, Some(failureClass), Some(message))
  }

  /** `invoke_tool`: the execution's own result passes through unless something around it fails,
      and every result made here has a message. */
  method InvokeTool<O>(s: Surroundings, waited: Waited<O>) returns (result: ToolResult<O>)
    requires waited.Gave? ==> WellFormed(waited.result)
    ensures WellFormed(result)
    ensures PassesThrough(s, waited) ==> result == waited.result
    ensures !PassesThrough(s, waited) ==> result.status != SucceededResult && Explained(result)
    ensures s.inputError.Some? ==> result.status == FailedResult && result.failureClass == Some(Validation)
    ensures s.inputError.None? && !s.authorized ==>
              result.status == DeniedResult && result.failureClass == Some(Policy)
    ensures s.inputError.None? && s.authorized && s.startError.Some? ==>
              && result.status == FailedResult && result.failureClass == Some(s.startError.value.failureClass)
              && result.failureMessage == Some(s.startError.value.Message())
    ensures Starts(s) && s.cleanupError.Some? ==>
              result.status == FailedResult && result.failureClass == Some(Adapter)
    ensures Starts(s) && s.waitError.Some? ==> result.status == FailedResult && result.failureClass == Some(Adapter)
    ensures Starts(s) && s.waitError.None? && s.cleanupError.None? && waited.Deadline? ==>
              if s.stopError.Some? then result.status == FailedResult && result.failureClass == Some(Adapter)
              else result.status == TimedOutResult && result.failureClass == Some(Timeout)
    ensures KeepsOutput(s, waited) ==> result.output == waited.result.output && result.times == waited.result.times
    ensures !KeepsOutput(s, waited) ==> result.output.None?
  {
    if s.inputError.Some? {
      return Failure(s, FailedResult, Validation, "input schema validation failed: " + s.inputError.value);
    }
    if !s.authorized {
      return Failure(s, DeniedResult, Policy, "requested capabilities were denied");
    }
    if s.startError.Some? {
      return Failure(s, FailedResult, s.startError.value.failureClass, s.startError.value.Message());
    }
    var stopped := waited.Deadline? || (waited.Gave? && waited.result.status == TimedOutResult);
    if s.waitError.Some? {
      result := Failure(s, FailedResult, Adapter, s.waitError.value.Message());
    } else if stopped && s.stopError.Some? {
      result := Failure(s, FailedResult, Adapter, s.stopError.value.Message());
    } else {
      match waited {
        case Deadline => result := Failure(s, TimedOutResult, Timeout, "adapter exceeded timeout");
        case Foreign =>
          result := Failure(s, FailedResult, Adapter, "adapter returned something else than a ToolResult");
        case Gave(given) =>
          if given.status == SucceededResult && s.outputError.Some? {
            result := Failure(s, FailedResult, Validation, "output schema validation failed: " + s.outputError.value);
          } else {
            result := given;
          }
      }
    }
    if s.cleanupError.Some? {
      var cleanup := "execution cleanup failed: " + s.cleanupError.value;
      var message :=
        if result.failureMessage.Some? && result.failureMessage.value != "" then
          result.failureMessage.value + "; " + cleanup
        else cleanup;
      result := result.(status := FailedResult, failureClass := Some(Adapter), failureMessage := Some(message));
    }
  }

  // ---------------------------------------------------------------- persisting a result

  function ClassText(c: FailureClass): string {
    match c
    case Validation => "VALIDATION"
    case Policy => "POLICY"
    case Timeout => "TIMEOUT"
    case Adapter => "ADAPTER"
    case Startup => "STARTUP"
    case NonzeroExit => "NONZERO_EXIT"
    case Boundary => "BOUNDARY"
    case Missing => "NOT_FOUND"
    case Io => "IO"
    case Configuration => "CONFIGURATION"
  }

  /** The terminal fields of a stored invocation. */
  datatype Terminals<+O> = Terminals(resultStatus: ResultStatus, output: Option<O>, times: Times,
                                     message: Option<string>, failureClass: Option<FailureClass>)

  /** `_terminal_invocation_changes`; the store adds the completion time. */
  function Persist<O>(r: ToolResult<O>): Terminals<O> {
    var message :=
      if r.failureClass.None? then None
      else if r.failureMessage.None? || r.failureMessage.value == "" then Some(ClassText(r.failureClass.value))
      else r.failureMessage;
    Terminals(r.status, r.output, r.times, message, r.failureClass)
  }

  /** `_result_from_invocation`. */
  function Restore<O>(t: Terminals<O>): ToolResult<O> {
    ToolResult(t.resultStatus, t.output, t.times, t.failureClass, t.message)
  }

  /** Restoring a stored result gives the result back exactly if it has a failure message just when
      it failed; whatever is restored is stored the same way again. */
  lemma RestoringIsExact<O>(r: ToolResult<O>)
    requires WellFormed(r)
    ensures Restore(Persist(r)) == r <==> Explained(r)
    ensures Persist(Restore(Persist(r))) == Persist(r)
    ensures WellFormed(Restore(Persist(r)))
  {
    if r.failureClass.Some? { assert |ClassText(r.failureClass.value)| > 0; }
  }

  /** A failed result without a message comes back with one. */
  lemma RestoringAddsAMessage<O>(times: Times)
    ensures
      var r: ToolResult<O> := ToolResult(FailedResult, None, times, Some(Io), None);
      && WellFormed(r) && Restore(Persist(r)) == r.(failureMessage := Some("IO")) && Restore(Persist(r)) != r
  {
    var r: ToolResult<O> := ToolResult(FailedResult, None, times, Some(Io), None);
    assert Persist(r).message == Some("IO");
  }
}
