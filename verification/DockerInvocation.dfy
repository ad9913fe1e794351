/** Callers that share one Docker ToolInvocation id: one owner runs the adapter, the others wait or
    give up (src/aep/docker_validation_tool.py:196-375). */
module DockerInvocation {
  import opened Wrappers
  import opened RuntimeStore
  import opened ToolRuntime

  /** The JSON text of a Tool's output. */
  type Json = string

  // ---------------------------------------------------------------- the protocol

  datatype Record = Record(owner: string, fingerprint: string, evidence: Option<Terminals<Json>>)

  datatype Phase =
    | Idle
    | Waiting
    | Invoking
    | Completing(result: ToolResult<Json>)
    | LostRace
    | Returned(result: ToolResult<Json>)
    | Raised

  datatype Caller = Caller(token: string, fingerprint: string, phase: Phase)

  /** `runs` are the callers that ran the adapter, `transitions` the PENDING-to-terminal changes. */
  datatype System = System(record: Option<Stored<Record>>, callers: seq<Caller>, runs: seq<nat>,
                           transitions: seq<Terminals<Json>>)

  datatype Action =
    | CreateRecord(who: nat)
    | RunAdapter(who: nat, result: ToolResult<Json>)
    | Complete(who: nat)
    | Poll(who: nat)
    | Abandon(who: nat, abandoned: ToolResult<Json>)
    | ReadWinner(who: nat)
    | Crash(who: nat)

  function FinalStatus(r: ToolResult<Json>): Status {
    if r.status == SucceededResult then Succeeded else Failed
  }

  function Moved(sys: System, who: nat, phase: Phase): System
    requires who < |sys.callers|
  {
    sys.(callers := sys.callers[who := sys.callers[who].(phase := phase)])
  }

  /** The one compare-and-swap of the protocol, by the owner or by a waiter that gives up. */
  function Settle(sys: System, who: nat, r: ToolResult<Json>): System
    requires who < |sys.callers|
  {
    if sys.record.None? then Moved(sys, who, Raised)
    else
      var value := sys.record.value.value.(evidence := Some(Persist(r)));
      match UpdateStatus(sys.record, Pending, FinalStatus(r), value)
      case Ok(stored) => Moved(sys.(record := Some(stored), transitions := sys.transitions + [Persist(r)]), who,
                               Returned(r))
      case Err(_) => Moved(sys, who, LostRace)
  }

  /** What a stored terminal record is returned as; anything else is raised. */
  function FromRecord(sys: System, otherwise: Phase): Phase {
    if sys.record.Some? && Terminal(sys.record.value.status) && sys.record.value.value.evidence.Some?
    then Returned(Restore(sys.record.value.value.evidence.value))
    else otherwise
  }

  predicate GivesUp(c: Caller, abandoned: ToolResult<Json>) {
    c.phase == Waiting && abandoned.status == TimedOutResult && WellFormed(abandoned)
  }

  function Step(sys: System, a: Action): System {
    if a.who >= |sys.callers| then sys
    else
      var c := sys.callers[a.who];
      match a
      case CreateRecord(who) =>
        if c.phase != Idle then sys
        else
          var stored := CreateOrReturn(sys.record, Stored(Pending, Record(c.token, c.fingerprint, None)));
          var after := sys.(record := Some(stored));
          if stored.value.fingerprint != c.fingerprint then Moved(after, who, Raised)
          else if stored.value.owner == c.token then Moved(after, who, Invoking)
          else Moved(after, who, FromRecord(after, Waiting))
      case RunAdapter(who, result) =>
        if c.phase != Invoking || !WellFormed(result) then sys
        else Moved(sys.(runs := sys.runs + [who]), who, Completing(result))
      case Complete(who) => if c.phase.Completing? then Settle(sys, who, c.phase.result) else sys
      case Poll(who) => if c.phase == Waiting then Moved(sys, who, FromRecord(sys, Waiting)) else sys
      case Abandon(who, abandoned) =>
        if GivesUp(c, abandoned) then Settle(sys, who, abandoned) else sys
      case ReadWinner(who) => if c.phase == LostRace then Moved(sys, who, FromRecord(sys, Raised)) else sys
      case Crash(who) => if c.phase.Returned? then sys else Moved(sys, who, Raised)
  }

  function Run(sys: System, actions: seq<Action>): System
    decreases |actions|
  {
    hide Step;
    if actions == [] then sys else Run(Step(sys, actions[0]), actions[1..])
  }

  /** Nobody has called yet; each call has drawn its own token. */
  ghost predicate Initial(sys: System) {
    && sys.record.None? && sys.runs == [] && sys.transitions == []
    && (forall c | c in sys.callers :: c.phase == Idle)
    && (forall i, j | 0 <= i < j < |sys.callers| :: sys.callers[i].token != sys.callers[j].token)
  }

  // ---------------------------------------------------------------- what every step keeps

  /** The record changes once, and then has the evidence of that change. */
  ghost predicate RecordInv(sys: System) {
    match sys.record
    case None => sys.runs == [] && sys.transitions == []
    case Some(stored) =>
      if stored.status == Pending then sys.transitions == [] && stored.value.evidence.None?
      else Terminal(stored.status) && |sys.transitions| == 1 && stored.value.evidence == Some(sys.transitions[0])
           && Persist(Restore(sys.transitions[0])) == sys.transitions[0]
           && (stored.status == Succeeded <==> sys.transitions[0].resultStatus == SucceededResult)
           && stored.status != Cancelled
  }

  /** Only the owner runs the adapter, and whoever returned returned the stored result. */
  ghost predicate CallerInv(sys: System, i: nat)
    requires i < |sys.callers|
  {
    var c := sys.callers[i];
    && (c.phase.Invoking? || c.phase.Completing? ==> sys.record.Some? && sys.record.value.value.owner == c.token)
    && (c.phase.Invoking? ==> sys.runs == [])
    && (c.phase.Idle? && sys.record.Some? ==> sys.record.value.value.owner != c.token)
    && (c.phase.Completing? ==> WellFormed(c.phase.result))
    && (c.phase.LostRace? ==> sys.record.Some? && Terminal(sys.record.value.status))
    && (c.phase.Returned? ==>
          && sys.record.Some? && Terminal(sys.record.value.status)
          && sys.record.value.value.evidence == Some(Persist(c.phase.result)))
  }

  ghost predicate Inv(sys: System) {
    && (forall i, j | 0 <= i < j < |sys.callers| :: sys.callers[i].token != sys.callers[j].token)
    && |sys.runs| <= 1
    && RecordInv(sys)
    && (forall i | 0 <= i < |sys.callers| :: CallerInv(sys, i))
  }

  lemma SettleKeepsInv(sys: System, who: nat, r: ToolResult<Json>)
    requires Inv(sys) && WellFormed(r) && who < |sys.callers|
    requires sys.callers[who].phase.Completing? || sys.callers[who].phase.Waiting?
    ensures Inv(Settle(sys, who, r))
  {
    hide Persist, Restore, WellFormed;
    RestoringIsExact(r);
    PersistedStatus(r);
    var after := Settle(sys, who, r);
    forall i | 0 <= i < |after.callers| ensures CallerInv(after, i) {
      assert CallerInv(sys, i) && CallerInv(sys, who);
    }
  }

  lemma PersistedStatus(r: ToolResult<Json>)
    ensures Persist(r).resultStatus == r.status
  {
  }

  lemma StepKeepsInv(sys: System, a: Action)
    requires Inv(sys)
    ensures Inv(Step(sys, a))
  {
    if a.who < |sys.callers| {
      hide Persist, Restore, WellFormed, Settle;
      var c, after := sys.callers[a.who], Step(sys, a);
      assert CallerInv(sys, a.who);
      if (a.Complete? && c.phase.Completing?) || (a.Abandon? && GivesUp(c, a.abandoned)) {
        SettleKeepsInv(sys, a.who, if a.Complete? then c.phase.result else a.abandoned);
      } else {
        forall i | 0 <= i < |after.callers| ensures CallerInv(after, i) {
          assert CallerInv(sys, i);
          if i != a.who { assert sys.callers[i].token != c.token; }
        }
      }
    }
  }

  lemma {:induction false} RunsKeepInv(sys: System, actions: seq<Action>)
    requires Inv(sys)
    ensures Inv(Run(sys, actions))
    decreases |actions|
  {
    hide Step, Inv;
    if actions != [] {
      StepKeepsInv(sys, actions[0]);
      RunsKeepInv(Step(sys, actions[0]), actions[1..]);
    }
  }

  /** However many callers share the id and however they interleave, at most one runs the adapter,
      the record turns terminal at most once, and every caller that returns reports what is
      stored. */
  lemma OneRunOneTransitionOneResult(sys: System, actions: seq<Action>)
    requires Initial(sys)
    ensures
      var end := Run(sys, actions);
      && |end.runs| <= 1 && |end.transitions| <= 1
      && (forall c | c in end.callers && c.phase.Returned? ::
            && end.record.Some? && Terminal(end.record.value.status)
            && end.record.value.value.evidence == Some(Persist(c.phase.result))
            && end.transitions == [Persist(c.phase.result)])
  {
    hide Run;
    RunsKeepInv(sys, actions);
    var end := Run(sys, actions);
    forall c | c in end.callers && c.phase.Returned?
      ensures end.record.Some? && Terminal(end.record.value.status)
      ensures end.record.value.value.evidence == Some(Persist(c.phase.result))
      ensures end.transitions == [Persist(c.phase.result)]
    {
      var i :| 0 <= i < |end.callers| && end.callers[i] == c;
      assert CallerInv(end, i);
    }
  }

  // ---------------------------------------------------------------- what the callers are told

  /** Every result an action brings in has a message just when it failed, as those of
      `ToolRuntime.InvokeTool` and of a waiter that gives up have. */
  predicate Explains(a: Action) {
    && (a.RunAdapter? ==> Explained(a.result))
    && (a.Abandon? ==> Explained(a.abandoned))
  }

  predicate ExplainedStored(t: Terminals<Json>) {
    WellFormed(Restore(t)) && Explained(Restore(t))
  }

  ghost predicate AllExplained(sys: System) {
    && (sys.record.Some? && sys.record.value.value.evidence.Some? ==>
          ExplainedStored(sys.record.value.value.evidence.value))
    && (forall c | c in sys.callers ::
          c.phase.Completing? || c.phase.Returned? ==> WellFormed(c.phase.result) && Explained(c.phase.result))
  }

  lemma StepKeepsExplained(sys: System, a: Action)
    requires AllExplained(sys) && Explains(a)
    requires Inv(sys)
    ensures AllExplained(Step(sys, a))
  {
    hide Persist, Restore, WellFormed, Explained, Inv;
    if a.who < |sys.callers| {
      var c := sys.callers[a.who];
      assert c in sys.callers;
      if a.Complete? && c.phase.Completing? { RestoringIsExact(c.phase.result); }
      if a.Abandon? && GivesUp(c, a.abandoned) { RestoringIsExact(a.abandoned); }
    }
  }

  lemma {:induction false} RunsKeepExplained(sys: System, actions: seq<Action>)
    requires AllExplained(sys) && Inv(sys)
    requires forall a | a in actions :: Explains(a)
    ensures AllExplained(Run(sys, actions))
    decreases |actions|
  {
    hide Step, Inv, AllExplained, Explains;
    if actions != [] {
      StepKeepsExplained(sys, actions[0]);
      StepKeepsInv(sys, actions[0]);
      RunsKeepExplained(Step(sys, actions[0]), actions[1..]);
    }
  }

  /** Then all callers that return, the owner included, return the very same result. */
  lemma CallersAgree(sys: System, actions: seq<Action>, i: nat, j: nat)
    requires Initial(sys) && forall a | a in actions :: Explains(a)
    requires
      var end := Run(sys, actions);
      && i < |end.callers| && end.callers[i].phase.Returned?
      && j < |end.callers| && end.callers[j].phase.Returned?
    ensures Run(sys, actions).callers[i].phase.result == Run(sys, actions).callers[j].phase.result
  {
    hide Run, Persist, Restore, WellFormed, Explained, Explains;
    RunsKeepInv(sys, actions);
    RunsKeepExplained(sys, actions);
    var end := Run(sys, actions);
    assert CallerInv(end, i) && CallerInv(end, j);
    assert end.callers[i] in end.callers && end.callers[j] in end.callers;
    RestoringIsExact(end.callers[i].phase.result);
    RestoringIsExact(end.callers[j].phase.result);
  }

  // ---------------------------------------------------------------- whose request it is

  /** A caller that goes on asks for what the record was created for, and so does one that ran it. */
  ghost predicate SameRequests(sys: System) {
    && (forall c | c in sys.callers :: c.phase != Idle && c.phase != Raised ==>
          sys.record.Some? && sys.record.value.value.fingerprint == c.fingerprint)
    && (forall who | who in sys.runs ::
          && who < |sys.callers| && sys.record.Some?
          && sys.record.value.value.fingerprint == sys.callers[who].fingerprint)
  }

  lemma StepKeepsRequests(sys: System, a: Action)
    requires SameRequests(sys)
    ensures SameRequests(Step(sys, a))
    ensures |Step(sys, a).callers| == |sys.callers|
    ensures forall i | 0 <= i < |sys.callers| :: Step(sys, a).callers[i].fingerprint == sys.callers[i].fingerprint
    ensures sys.record.Some? ==>
              && Step(sys, a).record.Some?
              && Step(sys, a).record.value.value.fingerprint == sys.record.value.value.fingerprint
  {
    hide Persist, Restore;
    if a.who < |sys.callers| {
      assert sys.callers[a.who] in sys.callers;
      var after := Step(sys, a);
      assert after.callers == sys.callers[a.who := after.callers[a.who]];
    }
  }

  lemma {:induction false} RunsKeepRequests(sys: System, actions: seq<Action>)
    requires SameRequests(sys)
    ensures SameRequests(Run(sys, actions)) && |Run(sys, actions).callers| == |sys.callers|
    ensures forall i | 0 <= i < |sys.callers| ::
              Run(sys, actions).callers[i].fingerprint == sys.callers[i].fingerprint
    decreases |actions|
  {
    hide Step, SameRequests;
    if actions != [] {
      StepKeepsRequests(sys, actions[0]);
      RunsKeepRequests(Step(sys, actions[0]), actions[1..]);
    }
  }

  /** Over every run, callers that return asked for the same, as did the one that ran the adapter: a
      caller with another request under the same id is never given its result. */
  lemma RequestsAreNotMixed(sys: System, actions: seq<Action>, i: nat, j: nat)
    requires Initial(sys)
    requires
      var end := Run(sys, actions);
      && i < |end.callers| && end.callers[i].phase.Returned?
      && j < |end.callers| && (end.callers[j].phase.Returned? || j in end.runs)
    ensures |sys.callers| == |Run(sys, actions).callers| && sys.callers[i].fingerprint == sys.callers[j].fingerprint
  {
    assert SameRequests(sys);
    hide Run, Initial;
    RunsKeepRequests(sys, actions);
    var after := Run(sys, actions);
    assert after.callers[i] in after.callers && after.callers[j] in after.callers;
  }
}
