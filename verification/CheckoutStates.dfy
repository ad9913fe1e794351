/** What the workers make of the records: every state a record is in was recorded by the call that
    came to it (src/aep/execution_checkout.py:1143-1430). */
module CheckoutStates {
  import opened Wrappers
  import opened CheckoutRecords
  import CheckoutRuns
  import opened CheckoutWorkers

  function RecordOf(sys: System, id: string): Option<Checkout> {
    Lookup(sys.registry.records, id)
  }

  /** A call ends what it was doing, well or not, and still owns its record. */
  predicate Ends(sys: System, a: Action) {
    && a.who < |sys.workers|
    && var w := sys.workers[a.who];
       && ((a.RecordSuccess? && w.phase == Guarded) || (a.RecordFailure? && w.phase == Failing))
       && w.claim.Some? && Owns(RecordOf(sys, w.id), w.owner, w.Fence(), a.now)
  }

  /** What a call came to: it provisioned or cleaned up, and succeeded or failed. */
  datatype Ending = Ending(id: string, fence: int, cleaning: bool, succeeded: bool)
  {
    predicate Explains(state: Lifecycle) {
      match state
      case Ready => !cleaning && succeeded
      case Failed => !cleaning && !succeeded
      case Cleaned => cleaning && succeeded
      case CleanupFailed => cleaning && !succeeded
      case Provisioning => false
    }
  }

  function EndingOf(sys: System, a: Action): Ending
    requires Ends(sys, a)
  {
    var w := sys.workers[a.who];
    Ending(w.id, w.Fence(), w.cleaning, a.RecordSuccess?)
  }

  /** A record changes only as a call of its execution is granted: it is claimed, renewed or ended. */
  ghost predicate Changes(sys: System, a: Action, before: Option<Checkout>, after: Checkout) {
    && a.who < |sys.workers|
    && var w := sys.workers[a.who];
       if Ends(sys, a) then
         && before.Some? && EndingOf(sys, a).Explains(after.state)
         && after == before.value.(state := after.state, updatedAt := a.now, owner := None, lease := None)
       else if a.Acquire? then
         && w.phase == Starting && after.state == Provisioning
         && after.owner == Some(w.owner) && after.lease == Some(a.lease) && after.updatedAt == a.now
         && (w.cleaning ==> before.Some?)
         && (before.Some? ==>
               && after.binding == before.value.binding && after.createdAt == before.value.createdAt
               && after.fence == before.value.fence + 1)
         && (before.None? ==> after.binding == w.binding && after.createdAt == a.now && after.fence == 1)
       else
         && (a.RenewExecution? || a.BeatExecution?)
         && Owns(before, w.owner, w.Fence(), a.now)
         && after == before.value.(lease := Some(a.lease), updatedAt := a.now)
  }

  /** The record after a step is the one after the call it makes, if it makes one. */
  lemma StepCalls(sys: System, a: Action, id: string)
    ensures a.who >= |sys.workers| ==> RecordOf(Step(sys, a), id) == RecordOf(sys, id)
    ensures a.who < |sys.workers| ==>
              var call := Call(sys.workers[a.who], a);
              RecordOf(Step(sys, a), id) ==
              if call.None? then RecordOf(sys, id) else Lookup(MemoryStep(sys.registry, call.value).0.records, id)
  {
    hide MemoryStep, Call, Locally, AfterCall;
  }

  lemma ClaimIsRecorded(m: Memory, w: Worker, a: Action, id: string)
    requires a.Acquire? && Call(w, a).Some?
    ensures
      var before, after := Lookup(m.records, id), Lookup(MemoryStep(m, Call(w, a).value).0.records, id);
      after != before ==>
        && w.phase == Starting && id == w.id && after.Some? && after.value.state == Provisioning
        && after.value.owner == Some(w.owner) && after.value.lease == Some(a.lease) && after.value.updatedAt == a.now
        && (w.cleaning ==> before.Some?)
        && (before.Some? ==>
              && after.value.binding == before.value.binding && after.value.createdAt == before.value.createdAt
              && after.value.fence == before.value.fence + 1)
        && (before.None? ==>
              after.value.binding == w.binding && after.value.createdAt == a.now && after.value.fence == 1)
  {
  }

  lemma RenewalIsRecorded(m: Memory, w: Worker, a: Action, id: string)
    requires (a.RenewExecution? || a.BeatExecution?) && Call(w, a).Some?
    ensures
      var before, after := Lookup(m.records, id), Lookup(MemoryStep(m, Call(w, a).value).0.records, id);
      after != before ==>
        && id == w.id && after.Some? && Owns(before, w.owner, w.Fence(), a.now)
        && after.value == before.value.(lease := Some(a.lease), updatedAt := a.now)
  {
  }

  lemma EndIsRecorded(sys: System, a: Action, id: string)
    requires Inv(sys) && (a.RecordSuccess? || a.RecordFailure?)
    requires a.who < |sys.workers| && Call(sys.workers[a.who], a).Some?
    ensures
      var before := RecordOf(sys, id);
      var after := Lookup(MemoryStep(sys.registry, Call(sys.workers[a.who], a).value).0.records, id);
      if Ends(sys, a) && id == sys.workers[a.who].id then
        && before.Some? && after.Some? && EndingOf(sys, a).Explains(after.value.state)
        && after.value == before.value.(state := after.value.state, updatedAt := a.now, owner := None, lease := None)
      else after == before
  {
    var w := sys.workers[a.who];
    WorkerIsKnown(sys, a.who);
    UpdateIsRecorded(sys.registry, w, a, id);
    hide Inv, MemoryStep, Call, CheckoutRuns.WellFormed, ClaimIsKnown;
  }

  lemma WorkerIsKnown(sys: System, who: nat)
    requires Inv(sys) && who < |sys.workers|
    ensures ClaimIsKnown(sys.registry, sys.workers[who])
    ensures sys.workers[who].id in sys.registry.records ==>
              sys.registry.records[sys.workers[who].id].executionId == sys.workers[who].id
  {
    hide Ordered, Owned, Apart;
  }

  lemma UpdateIsRecorded(m: Memory, w: Worker, a: Action, id: string)
    requires (a.RecordSuccess? || a.RecordFailure?) && Call(w, a).Some?
    requires ClaimIsKnown(m, w) && (w.id in m.records ==> m.records[w.id].executionId == w.id)
    ensures
      var before, after := Lookup(m.records, id), Lookup(MemoryStep(m, Call(w, a).value).0.records, id);
      var ends := Owns(Lookup(m.records, w.id), w.owner, w.Fence(), a.now) && id == w.id;
      && w.claim.Some? && (if a.RecordSuccess? then w.phase == Guarded else w.phase == Failing)
      && after == if !ends then before
                  else Some(before.value.(state := TerminalRecord(w, a.RecordSuccess?, a.now).state, updatedAt := a.now,
                                          owner := None, lease := None))
  {
  }

  lemma CachesRecordNothing(m: Memory, w: Worker, a: Action)
    requires a.AcquireCache? || a.RenewCacheClaim? || a.BeatCache? || a.GiveUpCache?
    requires Call(w, a).Some?
    ensures MemoryStep(m, Call(w, a).value).0.records == m.records
  {
  }

  lemma OnlyWhenEnding(sys: System, a: Action)
    ensures Ends(sys, a) ==> (a.RecordSuccess? || a.RecordFailure?) && Call(sys.workers[a.who], a).Some?
  {
  }

  /** What one step does to the record of an execution. */
  lemma RecordIsDecided(sys: System, a: Action, id: string)
    requires Inv(sys)
    ensures
      var before, after := RecordOf(sys, id), RecordOf(Step(sys, a), id);
      && (after != before ==>
            after.Some? && Changes(sys, a, before, after.value) && id == sys.workers[a.who].id)
      && (Ends(sys, a) && id == sys.workers[a.who].id ==> after.Some? && Changes(sys, a, before, after.value))
  {
    StepCalls(sys, a, id);
    OnlyWhenEnding(sys, a);
    if a.who < |sys.workers| && Call(sys.workers[a.who], a).Some? {
      var w := sys.workers[a.who];
      match a {
        case Acquire(_, _, _) => ClaimIsRecorded(sys.registry, w, a, id);
        case RenewExecution(_, _, _) => RenewalIsRecorded(sys.registry, w, a, id);
        case BeatExecution(_, _, _) => RenewalIsRecorded(sys.registry, w, a, id);
        case RecordSuccess(_, _) => EndIsRecorded(sys, a, id);
        case RecordFailure(_, _) => EndIsRecorded(sys, a, id);
        case AcquireCache(_, _, _) => CachesRecordNothing(sys.registry, w, a);
        case RenewCacheClaim(_, _, _) => CachesRecordNothing(sys.registry, w, a);
        case BeatCache(_, _, _) => CachesRecordNothing(sys.registry, w, a);
        case GiveUpCache(_) => CachesRecordNothing(sys.registry, w, a);
        case _ =>
      }
    }
    hide Step, MemoryStep, Call, Ends, Inv, Owns, EndingOf;
  }

  /** Giving up a cache removes exactly the caller's own claim, if it still stands. */
  lemma CacheIsGivenUp(sys: System, a: Action)
    requires a.GiveUpCache? && a.who < |sys.workers| && sys.workers[a.who].phase == Releasing
    ensures
      var w := sys.workers[a.who];
      var before, after := sys.registry.claims, Step(sys, a).registry.claims;
      && (w.cacheFence.Some? && w.Cache() in before
          && before[w.Cache()].owner == w.owner && before[w.Cache()].fence == w.cacheFence.value ==>
            after == before - {w.Cache()})
      && (w.cacheFence.None? || w.Cache() !in before
          || before[w.Cache()].owner != w.owner || before[w.Cache()].fence != w.cacheFence.value ==>
            after == before)
  {
  }

  // ---------------------------------------------------------------- runs

  /** What the calls of a run came to, in order. */
  function Endings(sys: System, actions: seq<Action>): seq<Ending>
    decreases |actions|
  {
    hide Step;
    if actions == [] then []
    else
      (if Ends(sys, actions[0]) then [EndingOf(sys, actions[0])] else [])
      + Endings(Step(sys, actions[0]), actions[1..])
  }

  ghost predicate Explained(sys: System, log: seq<Ending>) {
    forall id | id in sys.registry.records && sys.registry.records[id].state != Provisioning ::
      exists e :: e in log && IsEndingOf(e, sys.registry.records[id], id)
  }

  predicate IsEndingOf(e: Ending, c: Checkout, id: string) {
    e.id == id && e.fence == c.fence && e.Explains(c.state)
  }

  lemma StepKeepsExplained(sys: System, a: Action, log: seq<Ending>)
    requires Inv(sys) && Explained(sys, log)
    ensures Explained(Step(sys, a), log + if Ends(sys, a) then [EndingOf(sys, a)] else [])
  {
    hide Step, Inv;
    var next := Step(sys, a);
    var more := log + if Ends(sys, a) then [EndingOf(sys, a)] else [];
    forall id | id in next.registry.records && next.registry.records[id].state != Provisioning
      ensures exists e :: e in more && IsEndingOf(e, next.registry.records[id], id)
    {
      RecordIsDecided(sys, a, id);
      if RecordOf(next, id) == RecordOf(sys, id) {
        var e :| e in log && IsEndingOf(e, sys.registry.records[id], id);
        assert e in more;
      } else {
        assert EndingOf(sys, a) in more;
      }
    }
  }

  lemma {:induction false} RunsKeepExplained(sys: System, actions: seq<Action>, log: seq<Ending>)
    requires Inv(sys) && Explained(sys, log)
    ensures Explained(Run(sys, actions), log + Endings(sys, actions))
    decreases |actions|
  {
    hide Step, Inv, Explained;
    if actions == [] {
      assert log + [] == log;
    } else {
      var a := actions[0];
      var ended := if Ends(sys, a) then [EndingOf(sys, a)] else [];
      StepKeepsInv(sys, a);
      StepKeepsExplained(sys, a, log);
      RunsKeepExplained(Step(sys, a), actions[1..], log + ended);
      assert log + ended + Endings(Step(sys, a), actions[1..]) == log + Endings(sys, actions);
    }
  }

  /** Over every run of any workers, a record is READY, FAILED, CLEANED or CLEANUP_FAILED only because a
      call that held its fence provisioned it, failed to, cleaned it up, or failed to. */
  lemma StatesAreRecorded(sys: System, actions: seq<Action>)
    requires Initial(sys)
    ensures Explained(Run(sys, actions), Endings(sys, actions))
  {
    InitialInv(sys);
    RunsKeepExplained(sys, actions, []);
    assert [] + Endings(sys, actions) == Endings(sys, actions);
  }
}
