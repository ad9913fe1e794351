/** Checkpoint and resume of evaluation suite runs: any number of runners contend for one lease,
    with arbitrary clocks, and may crash at every step (src/aep/evaluation_suites.py:101-240). */
module SuiteRuns {
  import opened Wrappers
  import opened RuntimeStore

  datatype CaseResult = CaseResult(caseId: string, passed: bool)

  /** Where one `run_suite` call stands; `Evaluated` holds the results with the case just run. */
  datatype Phase = Idle | Created | Leased | Working | Evaluated(results: seq<CaseResult>) | Ended

  /** `resumed` is the number of results the call found when it started to work. */
  datatype Runner = Runner(owner: string, phase: Phase, results: seq<CaseResult>, position: nat, resumed: nat)

  /** `cases` is the sorted case order; the record's value is its `caseResults`. */
  datatype System = System(cases: seq<string>, record: Option<Stored<seq<CaseResult>>>, lease: Option<Lease>,
                           runners: seq<Runner>)

  datatype Action =
    | CreateRun(who: nat)
    | AcquireLease(who: nat, now: int, expires: int)
    | ReadRun(who: nat)
    | SkipCase(who: nat)
    | RunCase(who: nat, passed: bool)
    | Checkpoint(who: nat, now: int)
    | Finalize(who: nat, now: int)
    | RenewLease(who: nat, now: int, expires: int)
    | ReleaseLease(who: nat)
    | Stop(who: nat)

  function With(sys: System, who: nat, r: Runner): System
    requires who < |sys.runners|
  {
    sys.(runners := sys.runners[who := r])
  }

  function Ids(results: seq<CaseResult>): seq<string> {
    seq(|results|, i requires 0 <= i < |results| => results[i].caseId)
  }

  predicate AllPassed(results: seq<CaseResult>) {
    forall r | r in results :: r.passed
  }

  /** The identifiers the call found completed when it started to work. */
  predicate WasCompleted(r: Runner, id: string)
    requires r.resumed <= |r.results|
  {
    id in Ids(r.results[..r.resumed])
  }

  function Step(sys: System, a: Action): System {
    if a.who >= |sys.runners| then sys
    else
      var r := sys.runners[a.who];
      match a
      case CreateRun(who) =>
        if r.phase != Idle then sys
        else
          var stored := CreateOrReturn(sys.record, Stored(Running, []));
          With(sys.(record := Some(stored)), who, r.(phase := if Terminal(stored.status) then Ended else Created))
      case AcquireLease(who, now, expires) =>
        if r.phase != Created then sys
        else
          var lease := Acquire(sys.lease, r.owner, now, expires);
          if lease.None? then With(sys, who, r.(phase := Ended))
              else With(sys.(lease := lease), who, r.(phase := Leased))
      case ReadRun(who) =>
        if r.phase != Leased then sys
        else if sys.record.None? || Terminal(sys.record.value.status) then With(sys, who, r.(phase := Ended))
        else
          var results := sys.record.value.value;
          With(sys, who, r.(phase := Working, results := results, position := 0, resumed := |results|))
      case SkipCase(who) =>
        if r.phase == Working && r.position < |sys.cases| && r.resumed <= |r.results|
           && WasCompleted(r, sys.cases[r.position])
        then With(sys, who, r.(position := r.position + 1))
        else sys
      case RunCase(who, passed) =>
        if r.phase == Working && r.position < |sys.cases| && r.resumed <= |r.results|
           && !WasCompleted(r, sys.cases[r.position])
        then With(sys, who, r.(phase := Evaluated(r.results + [CaseResult(sys.cases[r.position], passed)])))
        else sys
      case Checkpoint(who, now) =>
        if !r.phase.Evaluated? then sys
        else
          (match UpdateHeld(sys.record, sys.lease, r.owner, now, Running, Running, r.phase.results)
           case Ok(stored) =>
             With(sys.(record := Some(stored)), who,
                  r.(phase := Working, results := r.phase.results, position := r.position + 1))
           case Err(_) => With(sys, who, r.(phase := Ended)))
      case Finalize(who, now) =>
        if r.phase != Working || r.position < |sys.cases| || sys.record.None? then sys
        else
          var status := if AllPassed(r.results) then Succeeded else Failed;
          (match UpdateHeld(sys.record, sys.lease, r.owner, now, Running, status, sys.record.value.value)
           case Ok(stored) => With(sys.(record := Some(stored)), who, r.(phase := Ended))
           case Err(_) => With(sys, who, r.(phase := Ended)))
      case RenewLease(who, now, expires) =>
        sys.(lease := Renewed(sys.lease, r.owner, now, expires))
      case ReleaseLease(who) =>
        if r.phase == Ended then sys.(lease := Released(sys.lease, r.owner)) else sys
      case Stop(who) => With(sys, who, r.(phase := Ended))
  }

  function Run(sys: System, actions: seq<Action>): System
    decreases |actions|
  {
    hide Step;
    if actions == [] then sys else Run(Step(sys, actions[0]), actions[1..])
  }

  /** No call has been made; each call draws its own owner id. */
  ghost predicate Initial(sys: System) {
    && NoDuplicates(sys.cases) && sys.record.None? && sys.lease.None?
    && (forall r | r in sys.runners :: r.phase == Idle)
    && (forall i, j | 0 <= i < j < |sys.runners| :: sys.runners[i].owner != sys.runners[j].owner)
  }

  // ---------------------------------------------------------------- what every step keeps

  /** The stored results are a first part of the case order; a finished run has all of them. */
  ghost predicate RecordInv(cases: seq<string>, record: Option<Stored<seq<CaseResult>>>) {
    record.Some? ==>
      var results := record.value.value;
      && Ids(results) <= cases
      && record.value.status in {Running, Succeeded, Failed}
      && (record.value.status != Running ==> Ids(results) == cases)
      && (record.value.status == Succeeded ==> AllPassed(results))
      && (record.value.status == Failed ==> !AllPassed(results))
  }

  /** A working call has results the record still starts with; while it owns the lease they are
      the record's results, so its next update adds to what is stored. */
  ghost predicate RunnerInv(sys: System, r: Runner) {
    && (r.phase in {Idle, Created} && sys.lease.Some? ==> sys.lease.value.owner != r.owner)
    && (r.phase == Working || r.phase.Evaluated? ==>
          && sys.record.Some? && r.results <= sys.record.value.value
          && (sys.lease.Some? && sys.lease.value.owner == r.owner ==> r.results == sys.record.value.value)
          && r.position <= |r.results| && r.resumed <= |r.results|
          && (r.position < |r.results| ==> |r.results| == r.resumed))
    && (r.phase.Evaluated? ==>
          && r.position == |r.results| < |sys.cases|
          && |r.phase.results| == |r.results| + 1 && r.results <= r.phase.results
          && r.phase.results[|r.results|].caseId == sys.cases[|r.results|])
  }

  ghost predicate Inv(sys: System) {
    && NoDuplicates(sys.cases)
    && (forall i, j | 0 <= i < j < |sys.runners| :: sys.runners[i].owner != sys.runners[j].owner)
    && RecordInv(sys.cases, sys.record)
    && (forall i | 0 <= i < |sys.runners| :: RunnerInv(sys, sys.runners[i]))
  }

  /** A case before the results found at the start is skipped, the one after them is run. */
  lemma SkippedExactly(cases: seq<string>, r: Runner)
    requires NoDuplicates(cases) && Ids(r.results) <= cases && r.resumed <= |r.results| && r.position < |cases|
    ensures WasCompleted(r, cases[r.position]) <==> r.position < r.resumed
  {
    var ids := Ids(r.results[..r.resumed]);
    assert forall i | 0 <= i < |ids| :: ids[i] == Ids(r.results)[i] == cases[i];
  }

  lemma IdsExtend(results: seq<CaseResult>, more: seq<CaseResult>, cases: seq<string>)
    requires Ids(results) <= cases && results <= more && |more| == |results| + 1 <= |cases|
    requires more[|results|].caseId == cases[|results|]
    ensures Ids(more) <= cases
  {
    assert forall i | 0 <= i < |results| :: Ids(more)[i] == Ids(results)[i];
  }

  /** The record only ever grows, and a finished run stays as it is. */
  ghost predicate Grows(before: Option<Stored<seq<CaseResult>>>, after: Option<Stored<seq<CaseResult>>>) {
    before.Some? ==>
      && after.Some? && before.value.value <= after.value.value
      && (Terminal(before.value.status) ==> after == before)
  }

  lemma CheckpointKeepsInv(sys: System, a: Action)
    requires Inv(sys) && a.Checkpoint? && a.who < |sys.runners|
    ensures Inv(Step(sys, a)) && Grows(sys.record, Step(sys, a).record)
  {
    hide Ids, AllPassed;
    var r, after := sys.runners[a.who], Step(sys, a);
    assert RunnerInv(sys, r);
    if r.phase.Evaluated? {
      WorkingIds(sys, r);
      IdsExtend(r.results, r.phase.results, sys.cases);
    }
    forall i | 0 <= i < |after.runners| ensures RunnerInv(after, after.runners[i]) {
      assert RunnerInv(sys, sys.runners[i]);
      if i != a.who { assert sys.runners[i].owner != r.owner; }
    }
  }

  lemma FinalizeKeepsInv(sys: System, a: Action)
    requires Inv(sys) && a.Finalize? && a.who < |sys.runners|
    ensures Inv(Step(sys, a)) && Grows(sys.record, Step(sys, a).record)
  {
    hide AllPassed;
    var r, after := sys.runners[a.who], Step(sys, a);
    assert RunnerInv(sys, r);
    forall i | 0 <= i < |after.runners| ensures RunnerInv(after, after.runners[i]) {
      assert RunnerInv(sys, sys.runners[i]);
    }
  }

  lemma LeaseStepKeepsInv(sys: System, a: Action)
    requires Inv(sys) && a.who < |sys.runners|
    requires a.AcquireLease? || a.RenewLease? || a.ReleaseLease?
    ensures Inv(Step(sys, a)) && Grows(sys.record, Step(sys, a).record)
  {
    hide Ids, AllPassed, RecordInv;
    var r, after := sys.runners[a.who], Step(sys, a);
    forall i | 0 <= i < |after.runners| ensures RunnerInv(after, after.runners[i]) {
      assert RunnerInv(sys, sys.runners[i]);
      if i != a.who { assert sys.runners[i].owner != r.owner; }
    }
  }

  lemma CaseStepKeepsInv(sys: System, a: Action)
    requires Inv(sys) && a.who < |sys.runners|
    requires a.SkipCase? || a.RunCase?
    ensures Inv(Step(sys, a)) && Grows(sys.record, Step(sys, a).record)
  {
    hide AllPassed;
    var r, after := sys.runners[a.who], Step(sys, a);
    assert RunnerInv(sys, r);
    if r.phase == Working && r.position < |sys.cases| {
      WorkingIds(sys, r);
      SkippedExactly(sys.cases, r);
    }
    hide Ids, WasCompleted, RecordInv;
    forall i | 0 <= i < |after.runners| ensures RunnerInv(after, after.runners[i]) {
      assert RunnerInv(sys, sys.runners[i]);
    }
  }

  lemma LocalStepKeepsInv(sys: System, a: Action)
    requires Inv(sys) && a.who < |sys.runners|
    requires a.ReadRun? || a.Stop?
    ensures Inv(Step(sys, a)) && Grows(sys.record, Step(sys, a).record)
  {
    hide AllPassed, RecordInv, Ids, WasCompleted;
    var r, after := sys.runners[a.who], Step(sys, a);
    assert RunnerInv(sys, r);
    forall i | 0 <= i < |after.runners| ensures RunnerInv(after, after.runners[i]) {
      assert RunnerInv(sys, sys.runners[i]);
    }
  }

  lemma CreateRunKeepsInv(sys: System, a: Action)
    requires Inv(sys) && a.CreateRun? && a.who < |sys.runners|
    ensures Inv(Step(sys, a)) && Grows(sys.record, Step(sys, a).record)
  {
    NoIds();
    hide AllPassed, Ids;
    var after := Step(sys, a);
    forall i | 0 <= i < |after.runners| ensures RunnerInv(after, after.runners[i]) {
      assert RunnerInv(sys, sys.runners[i]);
    }
  }

  lemma NoIds()
    ensures Ids([]) == [] && AllPassed([])
  {
  }

  lemma WorkingIds(sys: System, r: Runner)
    requires RecordInv(sys.cases, sys.record) && RunnerInv(sys, r) && (r.phase == Working || r.phase.Evaluated?)
    ensures Ids(r.results) <= sys.cases
  {
    assert forall i | 0 <= i < |r.results| :: Ids(r.results)[i] == Ids(sys.record.value.value)[i];
  }

  lemma StepKeepsInv(sys: System, a: Action)
    requires Inv(sys)
    ensures Inv(Step(sys, a)) && Grows(sys.record, Step(sys, a).record)
  {
    if a.who < |sys.runners| {
      hide Inv, Step, Grows;
      match a {
        case Checkpoint(_, _) => CheckpointKeepsInv(sys, a);
        case Finalize(_, _) => FinalizeKeepsInv(sys, a);
        case AcquireLease(_, _, _) => LeaseStepKeepsInv(sys, a);
        case RenewLease(_, _, _) => LeaseStepKeepsInv(sys, a);
        case ReleaseLease(_) => LeaseStepKeepsInv(sys, a);
        case CreateRun(_) => CreateRunKeepsInv(sys, a);
        case SkipCase(_) => CaseStepKeepsInv(sys, a);
        case RunCase(_, _) => CaseStepKeepsInv(sys, a);
        case _ => LocalStepKeepsInv(sys, a);
      }
    }
  }

  lemma {:induction false} RunsKeepInv(sys: System, actions: seq<Action>)
    requires Inv(sys)
    ensures Inv(Run(sys, actions)) && Grows(sys.record, Run(sys, actions).record)
    decreases |actions|
  {
    hide Step, Inv;
    if actions != [] {
      var next := Step(sys, actions[0]);
      StepKeepsInv(sys, actions[0]);
      RunsKeepInv(next, actions[1..]);
    }
  }

  /** Across crashes, takeovers and any clocks, the persisted results are always a first part of the
      case order, without duplicates; what is persisted stays; and the run is finished only with
      all cases, as SUCCEEDED exactly if every case passed. */
  lemma CheckpointsAreSound(sys: System, before: seq<Action>, more: seq<Action>)
    requires Initial(sys)
    ensures
      var mid, end := Run(sys, before), Run(Run(sys, before), more);
      && Grows(mid.record, end.record)
      && (end.record.Some? ==>
            && Ids(end.record.value.value) <= sys.cases && NoDuplicates(Ids(end.record.value.value))
            && (Terminal(end.record.value.status) ==>
                  && Ids(end.record.value.value) == sys.cases
                  && (end.record.value.status == Succeeded <==> AllPassed(end.record.value.value))))
  {
    hide Run, AllPassed;
    assert Inv(sys) by { InitialInv(sys); }
    RunsKeepInv(sys, before);
    RunsKeepInv(Run(sys, before), more);
    CasesStay(sys, before);
    CasesStay(Run(sys, before), more);
  }

  lemma InitialInv(sys: System)
    requires Initial(sys)
    ensures Inv(sys)
  {
  }

  lemma {:induction false} CasesStay(sys: System, actions: seq<Action>)
    ensures Run(sys, actions).cases == sys.cases
    decreases |actions|
  {
    hide Step;
    if actions != [] {
      StepKeepsCases(sys, actions[0]);
      CasesStay(Step(sys, actions[0]), actions[1..]);
    }
  }

  lemma StepKeepsCases(sys: System, a: Action)
    ensures Step(sys, a).cases == sys.cases
  {
  }
}
