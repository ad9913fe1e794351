/** Whose verdicts a suite run persists: those its cases were evaluated to
    (src/aep/evaluation_suites.py:171-240). */
module SuiteVerdicts {
  import opened Wrappers
  import opened RuntimeStore
  import opened SuiteRuns

  /** Call `who` evaluated a case, which passed or not. */
  datatype Verdict = Verdict(who: nat, caseId: string, passed: bool)

  /** A working call evaluates the case it has come to, unless it found a result for it. */
  predicate Evaluates(sys: System, a: Action) {
    && a.RunCase? && a.who < |sys.runners|
    && var r := sys.runners[a.who];
    && r.phase == Working && r.position < |sys.cases| && r.resumed <= |r.results|
    && (forall k | 0 <= k < r.resumed :: r.results[k].caseId != sys.cases[r.position])
  }

  function VerdictOf(sys: System, a: Action): seq<Verdict> {
    if Evaluates(sys, a) then [Verdict(a.who, sys.cases[sys.runners[a.who].position], a.passed)] else []
  }

  /** The verdicts of a run, in order. */
  function Verdicts(sys: System, actions: seq<Action>): seq<Verdict>
    decreases |actions|
  {
    hide Step;
    if actions == [] then [] else VerdictOf(sys, actions[0]) + Verdicts(Step(sys, actions[0]), actions[1..])
  }

  /** The last verdict of one call. */
  function LatestBy(log: seq<Verdict>, who: nat): Option<Verdict> {
    if log == [] then None
    else
      var last := |log| - 1;
      if log[last].who == who then Some(log[last]) else LatestBy(log[..last], who)
  }

  predicate Shows(result: CaseResult, v: Verdict) {
    result.caseId == v.caseId && result.passed == v.passed
  }

  /** A call that has a result to persist has its own latest verdict. */
  ghost predicate Pending(sys: System, log: seq<Verdict>, who: nat)
    requires who < |sys.runners|
  {
    var r := sys.runners[who];
    r.phase.Evaluated? ==>
      && |r.phase.results| == |r.results| + 1
      && LatestBy(log, who).Some?
      && Shows(r.phase.results[|r.results|], LatestBy(log, who).value)
  }

  /** Every persisted result shows a verdict of the run. */
  ghost predicate Persisted(sys: System, log: seq<Verdict>) {
    sys.record.Some? ==> forall result | result in sys.record.value.value :: Shown(result, log)
  }

  ghost predicate Shown(result: CaseResult, log: seq<Verdict>) {
    exists v :: v in log && Shows(result, v)
  }

  ghost predicate Logged(sys: System, log: seq<Verdict>) {
    Persisted(sys, log) && forall who: nat | who < |sys.runners| :: Pending(sys, log, who)
  }

  lemma LatestIsLogged(log: seq<Verdict>, who: nat)
    ensures LatestBy(log, who).Some? ==> LatestBy(log, who).value in log
  {
  }

  lemma LatestOneMore(log: seq<Verdict>, v: Verdict, who: nat)
    ensures LatestBy(log + [v], who) == if v.who == who then Some(v) else LatestBy(log, who)
  {
    assert (log + [v])[..|log|] == log;
  }

  lemma EvaluatesExactly(sys: System, a: Action)
    requires a.RunCase? && a.who < |sys.runners|
    ensures
      var r := sys.runners[a.who];
      Evaluates(sys, a) <==>
        r.phase == Working && r.position < |sys.cases| && r.resumed <= |r.results|
        && !WasCompleted(r, sys.cases[r.position])
  {
    var r := sys.runners[a.who];
    if r.resumed <= |r.results| && r.position < |sys.cases| {
      var ids := Ids(r.results[..r.resumed]);
      assert forall k | 0 <= k < r.resumed :: ids[k] == r.results[k].caseId;
    }
  }

  /** What a checkpoint can do to the record: nothing, or add the caller's latest verdict. */
  ghost predicate AddsLatest(sys: System, log: seq<Verdict>, after: System, who: nat) {
    || after.record == sys.record
    || (&& sys.record.Some? && after.record.Some? && LatestBy(log, who).Some?
        && var v := LatestBy(log, who).value;
        && after.record.value.value == sys.record.value.value + [CaseResult(v.caseId, v.passed)]
        && after.record.value.status == sys.record.value.status)
  }

  lemma CheckpointAddsLatest(sys: System, a: Action, log: seq<Verdict>)
    requires Inv(sys) && Logged(sys, log) && a.Checkpoint? && a.who < |sys.runners|
    ensures AddsLatest(sys, log, Step(sys, a), a.who)
  {
    hide Ids, AllPassed, RecordInv, LatestBy;
    var r := sys.runners[a.who];
    assert RunnerInv(sys, r) && Pending(sys, log, a.who);
    if r.phase.Evaluated? {
      assert r.phase.results == r.results + [r.phase.results[|r.results|]];
    }
  }

  /** Over every run a checkpoint persists the latest verdict of its own caller, or nothing. */
  lemma OwnVerdictIsPersisted(sys: System, actions: seq<Action>, a: Action)
    requires Initial(sys) && a.Checkpoint? && a.who < |Run(sys, actions).runners|
    ensures AddsLatest(Run(sys, actions), Verdicts(sys, actions), Step(Run(sys, actions), a), a.who)
  {
    hide Run, Verdicts, Inv, Logged, Step;
    InitialLogged(sys);
    RunsKeepLogged(sys, actions, []);
    assert [] + Verdicts(sys, actions) == Verdicts(sys, actions);
    CheckpointAddsLatest(Run(sys, actions), a, Verdicts(sys, actions));
  }

  /** Steps other than checkpoints change no persisted result. */
  lemma OthersPersistNothing(sys: System, a: Action)
    requires !a.Checkpoint?
    ensures
      var after := Step(sys, a);
      (sys.record.Some? ==> after.record.Some? && after.record.value.value == sys.record.value.value)
      && (sys.record.None? && after.record.Some? ==> after.record.value.value == [])
  {
    hide AllPassed, WasCompleted;
  }

  lemma StepKeepsPersisted(sys: System, a: Action, log: seq<Verdict>)
    requires Inv(sys) && Logged(sys, log)
    ensures Persisted(Step(sys, a), log + VerdictOf(sys, a))
  {
    hide Inv, Step, VerdictOf, LatestBy;
    var after, longer := Step(sys, a), log + VerdictOf(sys, a);
    if a.Checkpoint? && a.who < |sys.runners| {
      CheckpointAddsLatest(sys, a, log);
      LatestIsLogged(log, a.who);
    } else if a.Checkpoint? {
      NobodyThere(sys, a);
    } else {
      OthersPersistNothing(sys, a);
    }
    if after.record.Some? {
      forall result | result in after.record.value.value ensures Shown(result, longer) {
        if sys.record.Some? && result in sys.record.value.value {
          assert Shown(result, log);
          var v :| v in log && Shows(result, v);
          assert v in longer;
        } else {
          var v := LatestBy(log, a.who).value;
          assert v in longer && Shows(result, v);
        }
      }
    }
  }

  lemma NobodyThere(sys: System, a: Action)
    requires a.who >= |sys.runners|
    ensures Step(sys, a) == sys
  {
  }

  lemma StepKeepsPending(sys: System, a: Action, log: seq<Verdict>, who: nat)
    requires Logged(sys, log) && who < |sys.runners|
    ensures who < |Step(sys, a).runners| && Pending(Step(sys, a), log + VerdictOf(sys, a), who)
  {
    hide AllPassed, WasCompleted, Evaluates, LatestBy, Persisted;
    assert Pending(sys, log, who);
    if a.RunCase? && a.who < |sys.runners| {
      EvaluatesExactly(sys, a);
      if Evaluates(sys, a) {
        LatestOneMore(log, VerdictOf(sys, a)[0], who);
        assert VerdictOf(sys, a) == [VerdictOf(sys, a)[0]];
      } else {
        assert log + VerdictOf(sys, a) == log;
      }
    } else {
      NoVerdict(sys, a);
      assert log + VerdictOf(sys, a) == log;
    }
  }

  lemma NoVerdict(sys: System, a: Action)
    requires !a.RunCase? || a.who >= |sys.runners|
    ensures VerdictOf(sys, a) == []
  {
  }

  lemma StepKeepsLogged(sys: System, a: Action, log: seq<Verdict>)
    requires Inv(sys) && Logged(sys, log)
    ensures Logged(Step(sys, a), log + VerdictOf(sys, a))
  {
    hide Inv, Step, VerdictOf, Pending, Persisted;
    StepKeepsPersisted(sys, a, log);
    StepKeepsCount(sys, a);
    forall who: nat | who < |Step(sys, a).runners| ensures Pending(Step(sys, a), log + VerdictOf(sys, a), who) {
      StepKeepsPending(sys, a, log, who);
    }
  }

  lemma StepKeepsCount(sys: System, a: Action)
    ensures |Step(sys, a).runners| == |sys.runners|
  {
    hide WasCompleted, AllPassed;
  }

  lemma {:induction false} RunsKeepLogged(sys: System, actions: seq<Action>, log: seq<Verdict>)
    requires Inv(sys) && Logged(sys, log)
    ensures Logged(Run(sys, actions), log + Verdicts(sys, actions)) && Inv(Run(sys, actions))
    decreases |actions|
  {
    hide Step, Inv, Logged, VerdictOf;
    if actions == [] {
      assert log + [] == log;
    } else {
      var next, longer := Step(sys, actions[0]), log + VerdictOf(sys, actions[0]);
      StepKeepsInv(sys, actions[0]);
      StepKeepsLogged(sys, actions[0], log);
      RunsKeepLogged(next, actions[1..], longer);
      assert longer + Verdicts(next, actions[1..]) == log + Verdicts(sys, actions);
    }
  }

  lemma InitialLogged(sys: System)
    requires Initial(sys)
    ensures Inv(sys) && Logged(sys, [])
  {
    InitialInv(sys);
  }

  /** Some call of the run evaluated the case to this. */
  ghost predicate WasEvaluated(log: seq<Verdict>, id: string, passed: bool) {
    exists v :: v in log && v.caseId == id && v.passed == passed
  }

  lemma PersistedCases(sys: System, cases: seq<string>, log: seq<Verdict>)
    requires Inv(sys) && Logged(sys, log) && sys.cases == cases
    ensures sys.record.Some? ==>
              var results, status := sys.record.value.value, sys.record.value.status;
              && |results| <= |cases|
              && (forall k | 0 <= k < |results| :: WasEvaluated(log, cases[k], results[k].passed))
              && (status == Succeeded ==> |results| == |cases| && forall k | 0 <= k < |results| :: results[k].passed)
              && (status == Failed ==> |results| == |cases| && exists k :: 0 <= k < |results| && !results[k].passed)
  {
    if sys.record.Some? {
      var results := sys.record.value.value;
      assert RecordInv(cases, sys.record);
      assert forall k | 0 <= k < |results| :: Ids(results)[k] == results[k].caseId == cases[k];
      assert forall k | 0 <= k < |results| :: results[k] in results;
    }
  }

  /** Over every run every persisted result is the verdict of an evaluation of its case in that run,
      so that a finished run is SUCCEEDED if and only if every persisted case was evaluated to PASS. */
  lemma VerdictsArePersisted(sys: System, actions: seq<Action>)
    requires Initial(sys)
    ensures
      var end, log := Run(sys, actions), Verdicts(sys, actions);
      end.record.Some? ==>
        var results, status := end.record.value.value, end.record.value.status;
        && (forall k | 0 <= k < |results| ::
              k < |sys.cases| && WasEvaluated(log, sys.cases[k], results[k].passed))
        && (status == Succeeded ==> |results| == |sys.cases| && forall k | 0 <= k < |results| :: results[k].passed)
        && (status == Failed ==> |results| == |sys.cases| && exists k :: 0 <= k < |results| && !results[k].passed)
  {
    hide Run, Verdicts, Inv, Logged;
    InitialLogged(sys);
    RunsKeepLogged(sys, actions, []);
    assert [] + Verdicts(sys, actions) == Verdicts(sys, actions);
    CasesStay(sys, actions);
    PersistedCases(Run(sys, actions), sys.cases, Verdicts(sys, actions));
  }
}
