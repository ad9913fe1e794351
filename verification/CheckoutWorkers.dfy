/** Checkout manager workers and their heartbeat threads that share one registry, interleaved at
    every registry call and with arbitrary clocks
    (src/aep/execution_checkout.py:1143-1430, 1464-1525). */
module CheckoutWorkers {
  import opened Wrappers
  import opened CheckoutRecords
  import opened CheckoutRuns

  /** Where one `provision` or `cleanup` call stands.  `Renewed` is between the two registry
      calls of `renew_fences`, `Guarded` is after the second and before the mutation. */
  datatype Phase = Starting | Claimed | Active | Renewed | Guarded | Failing | Releasing | Finished

  /** One call, with the token it drew, what it claimed and its cache fence. */
  datatype Worker = Worker(owner: string, cleaning: bool, id: string, binding: Binding, phase: Phase,
                           claim: Option<Checkout>, cacheFence: Option<int>)
  {
    function Cache(): string { binding.repository.canonical }
    function Fence(): int { if claim.Some? then claim.value.fence else 0 }
  }

  /** A source-cache or worktree mutation and the fences it was guarded by. */
  datatype Mutation = Mutation(worker: nat, id: string, fence: int, cache: string, cacheFence: int)

  /** A terminal state recorded for an execution. */
  datatype Terminal = Terminal(worker: nat, id: string, fence: int)

  datatype System = System(registry: Memory, workers: seq<Worker>, guarded: seq<Mutation>,
                           started: seq<Mutation>, terminals: seq<Terminal>)

  /** One registry call, one mutation start, or one failure of worker `who`.  `BeatExecution` and
      `BeatCache` are the two renewals of its heartbeat thread, which runs beside it, may stand
      between the two for any time and may outlive its mutation.  `Abandon` is an exception that is
      not recorded: the cache is given up all the same. */
  datatype Action =
    | Acquire(who: nat, now: Time, lease: Time)
    | AcquireCache(who: nat, now: Time, lease: Time)
    | RenewExecution(who: nat, now: Time, lease: Time)
    | RenewCacheClaim(who: nat, now: Time, lease: Time)
    | BeatExecution(who: nat, now: Time, lease: Time)
    | BeatCache(who: nat, now: Time, lease: Time)
    | StartMutation(who: nat)
    | RecordSuccess(who: nat, now: Time)
    | Fail(who: nat)
    | Abandon(who: nat)
    | RecordFailure(who: nat, now: Time)
    | GiveUpCache(who: nat)
    | Crash(who: nat)

  function Candidate(w: Worker, now: Time, lease: Time): Checkout {
    Checkout(w.id, w.binding, Provisioning, now, now, 0, Some(w.owner), Some(lease))
  }

  function TerminalRecord(w: Worker, succeeded: bool, now: Time): Checkout
    requires w.claim.Some?
  {
    var state :=
      if w.cleaning then (if succeeded then Cleaned else CleanupFailed)
      else (if succeeded then Ready else Failed);
    w.claim.value.(state := state, updatedAt := now, owner := None, lease := None)
  }

  function AsMutation(who: nat, w: Worker): Mutation {
    Mutation(who, w.id, w.Fence(), w.Cache(), if w.cacheFence.Some? then w.cacheFence.value else 0)
  }

  /** The registry call an action makes, if it makes one. */
  function Call(w: Worker, a: Action): Option<Op> {
    match a
    case Acquire(_, now, lease) =>
      if w.phase != Starting then None
      else if w.cleaning then Some(BeginCleanup(w.id, w.owner, now, lease))
      else Some(Claim(Candidate(w, now, lease), now))
    case AcquireCache(_, now, lease) =>
      if w.phase != Claimed then None
      else Some(ClaimCache(w.Cache(), w.id, w.owner, w.Fence(), now, lease))
    case RenewExecution(_, now, lease) =>
      if w.phase != Active && w.phase != Guarded then None
      else Some(Renew(w.id, w.owner, w.Fence(), now, lease))
    case RenewCacheClaim(_, now, lease) =>
      if w.phase != Renewed || w.cacheFence.None? then None
      else Some(RenewCache(w.Cache(), w.id, w.owner, w.Fence(), w.cacheFence.value, now, lease))
    case BeatExecution(_, now, lease) =>
      if w.claim.None? || w.cacheFence.None? then None
      else Some(Renew(w.id, w.owner, w.Fence(), now, lease))
    case BeatCache(_, now, lease) =>
      if w.claim.None? || w.cacheFence.None? then None
      else Some(RenewCache(w.Cache(), w.id, w.owner, w.Fence(), w.cacheFence.value, now, lease))
    case RecordSuccess(_, now) =>
      if w.phase != Guarded || w.claim.None? then None
      else Some(Update(TerminalRecord(w, true, now), w.owner, w.Fence(), now))
    case RecordFailure(_, now) =>
      if w.phase != Failing || w.claim.None? then None
      else Some(Update(TerminalRecord(w, false, now), w.owner, w.Fence(), now))
    case GiveUpCache(_) =>
      if w.phase != Releasing || w.cacheFence.None? then None
      else Some(ReleaseCache(w.Cache(), w.owner, w.cacheFence.value))
    case StartMutation(_) => None
    case Fail(_) => None
    case Abandon(_) => None
    case Crash(_) => None
  }

  /** What the worker does with the reply of its call. */
  function AfterCall(w: Worker, a: Action, reply: Reply): Worker {
    match a
    case Acquire(_, _, _) =>
      if reply.Granted? && reply.checkout.state != Ready then
        w.(phase := Claimed, claim := Some(reply.checkout), binding := reply.checkout.binding)
      else w.(phase := Finished)
    case AcquireCache(_, _, _) =>
      if reply.CacheGranted? then w.(phase := Active, cacheFence := Some(reply.cacheFence))
      else w.(phase := Failing)
    case RenewExecution(_, _, _) =>
      if reply.Granted? then w.(phase := Renewed, claim := Some(reply.checkout)) else w.(phase := Failing)
    case RenewCacheClaim(_, _, _) => if reply.Done? then w.(phase := Guarded) else w.(phase := Failing)
    case BeatExecution(_, _, _) => if reply.Granted? then w.(claim := Some(reply.checkout)) else w
    case BeatCache(_, _, _) => w
    case RecordSuccess(_, _) => if reply.Done? then w.(phase := Releasing) else w.(phase := Failing)
    case RecordFailure(_, _) => w.(phase := Releasing)
    case GiveUpCache(_) => w.(phase := Finished)
    case StartMutation(_) => w
    case Fail(_) => w
    case Abandon(_) => w
    case Crash(_) => w
  }

  /** What a worker does on its own. */
  function Locally(w: Worker, a: Action): Worker {
    match a
    case StartMutation(_) => if w.phase == Guarded then w.(phase := Active) else w
    case Fail(_) => if w.phase == Active || w.phase == Guarded then w.(phase := Failing) else w
    case Abandon(_) => if w.phase in {Active, Renewed, Guarded, Failing} then w.(phase := Releasing) else w
    case Crash(_) => w.(phase := Finished)
    case GiveUpCache(_) => if w.phase == Releasing then w.(phase := Finished) else w
    case _ => w
  }

  function Step(sys: System, a: Action): System {
    if a.who >= |sys.workers| then sys
    else
      var w := sys.workers[a.who];
      var call := Call(w, a);
      if call.None? then
        sys.(workers := sys.workers[a.who := Locally(w, a)],
             started := if a.StartMutation? && w.phase == Guarded
                        then sys.started + [AsMutation(a.who, w)] else sys.started)
      else
        var (registry, reply) := MemoryStep(sys.registry, call.value);
        sys.(registry := registry, workers := sys.workers[a.who := AfterCall(w, a, reply)],
             guarded := if a.RenewCacheClaim? && reply.Done? then sys.guarded + [AsMutation(a.who, w)] else sys.guarded,
             terminals := if call.value.Update? && reply.Done?
                          then sys.terminals + [Terminal(a.who, w.id, w.Fence())] else sys.terminals)
  }

  function Run(sys: System, actions: seq<Action>): System
    decreases |actions|
  {
    hide Step;
    if actions == [] then sys else Run(Step(sys, actions[0]), actions[1..])
  }

  // ---------------------------------------------------------------- what every step keeps

  /** A worker's claim is of its own execution and token, and at most as new as the record. */
  ghost predicate ClaimIsKnown(m: Memory, w: Worker) {
    w.claim.Some? ==>
      var c := w.claim.value;
      && w.id in m.records
      && c.executionId == w.id
      && c.binding == m.records[w.id].binding == w.binding
      && c.createdAt == m.records[w.id].createdAt
      && c.fence <= m.records[w.id].fence
  }

  ghost predicate CacheIsKnown(m: Memory, w: Worker) {
    && (w.cacheFence.Some? ==> w.claim.Some? && w.cacheFence.value <= CacheFence(m, w.Cache()))
    && (w.phase == Starting ==> w.claim.None?)
    && (w.phase == Claimed || w.claim.None? ==> w.cacheFence.None?)
    && (w.phase in {Claimed, Active, Renewed, Guarded, Failing} ==> w.claim.Some?)
    && (w.phase in {Active, Renewed, Guarded} ==> w.cacheFence.Some?)
  }

  /** Two workers never hold the same fence of one execution, or the same fence of one cache. */
  ghost predicate Apart(v: Worker, w: Worker) {
    && (v.claim.Some? && w.claim.Some? && v.id == w.id ==> v.Fence() != w.Fence())
    && (v.cacheFence.Some? && w.cacheFence.Some? && v.Cache() == w.Cache() ==> v.cacheFence != w.cacheFence)
  }

  /** A logged mutation carries its worker's own fences. */
  ghost predicate Owned(sys: System, g: Mutation) {
    && g.worker < |sys.workers|
    && sys.workers[g.worker].claim.Some? && sys.workers[g.worker].cacheFence.Some?
    && g == AsMutation(g.worker, sys.workers[g.worker])
  }

  /** Fences never decrease along a log, per execution and per cache. */
  ghost predicate Ordered(log: seq<Mutation>) {
    forall i, j | 0 <= i < j < |log| ::
      && (log[i].id == log[j].id ==> log[i].fence <= log[j].fence)
      && (log[i].cache == log[j].cache ==> log[i].cacheFence <= log[j].cacheFence)
  }

  ghost predicate WorkersKnown(sys: System) {
    && (forall i | 0 <= i < |sys.workers| ::
          ClaimIsKnown(sys.registry, sys.workers[i]) && CacheIsKnown(sys.registry, sys.workers[i]))
    && (forall i, j | 0 <= i < j < |sys.workers| :: Apart(sys.workers[i], sys.workers[j]))
  }

  ghost predicate Inv(sys: System) {
    && WellFormed(sys.registry)
    && WorkersKnown(sys)
    && (forall g | g in sys.guarded :: Owned(sys, g))
    && Ordered(sys.guarded)
  }

  /** No call has been made yet. */
  ghost predicate Initial(sys: System) {
    && sys.registry == EMPTY && sys.guarded == [] && sys.started == [] && sys.terminals == []
    && (forall w | w in sys.workers :: w.phase == Starting && w.claim.None? && w.cacheFence.None?)
  }

  /** Every update a worker makes is one the registry results allow. */
  lemma CallIsManaged(m: Memory, w: Worker, a: Action)
    requires ClaimIsKnown(m, w) && Call(w, a).Some?
    ensures ManagerUpdate(m, Call(w, a).value)
  {
  }

  /** A record in its registry goes on as some other worker's call is made. */
  lemma OthersStayKnown(m: Memory, op: Op, v: Worker)
    requires WellFormed(m) && ManagerUpdate(m, op)
    requires ClaimIsKnown(m, v) && CacheIsKnown(m, v)
    ensures ClaimIsKnown(MemoryStep(m, op).0, v) && CacheIsKnown(MemoryStep(m, op).0, v)
  {
    hide MemoryStep, WellFormed, ManagerUpdate;
    StepAdvances(m, op, v.id);
    StepMovesCacheFence(m, op, v.Cache());
  }

  /** What a granted claim, cleanup or renewal returns. */
  lemma GrantedIsStored(m: Memory, op: Op)
    requires WellFormed(m) && (op.Claim? || op.BeginCleanup? || op.Renew?)
    ensures
      var (after, reply) := MemoryStep(m, op);
      var id := if op.Claim? then op.candidate.executionId else op.id;
      reply.Granted? ==>
        && id in after.records && after.records[id] == reply.checkout && reply.checkout.executionId == id
        && (op.Claim? ==> reply.checkout.binding == op.candidate.binding)
        && (reply.checkout.state != Ready && !op.Renew? && id in m.records ==>
              reply.checkout.fence == m.records[id].fence + 1)
        && (op.Renew? ==> id in m.records && reply.checkout.fence == op.fence == m.records[id].fence)
  {
    hide HoldsCache;
    if (op.BeginCleanup? || op.Renew?) && op.id in m.records { OwnIdOf(m, op.id); }
  }

  /** `next` is what `w` may become in one step: it keeps what it holds, and takes only new fences. */
  ghost predicate Grows(m: Memory, w: Worker, next: Worker) {
    && next.id == w.id
    && (w.claim.Some? ==> next.claim.Some? && next.Fence() == w.Fence() && next.Cache() == w.Cache())
    && (w.claim.None? && next.claim.Some? && w.id in m.records ==> m.records[w.id].fence < next.Fence())
    && (w.cacheFence.Some? ==> next.cacheFence == w.cacheFence)
    && (w.cacheFence.None? && next.cacheFence.Some? ==>
          next.cacheFence.value == CacheFence(m, w.Cache()) + 1 && next.Cache() == w.Cache())
  }

  /** The acting worker's claim stays known, and what it newly claims is newer than anything held. */
  lemma ActorClaimGrows(m: Memory, w: Worker, a: Action)
    requires WellFormed(m) && ClaimIsKnown(m, w) && CacheIsKnown(m, w) && Call(w, a).Some?
    ensures
      var (after, reply) := MemoryStep(m, Call(w, a).value);
      var next := AfterCall(w, a, reply);
      && ClaimIsKnown(after, next) && next.id == w.id
      && (w.claim.Some? ==> next.claim.Some? && next.Fence() == w.Fence() && next.Cache() == w.Cache())
      && (w.claim.None? && next.claim.Some? && w.id in m.records ==> m.records[w.id].fence < next.Fence())
  {
    hide MemoryStep, WellFormed, ManagerUpdate;
    var op := Call(w, a).value;
    CallIsManaged(m, w, a);
    StepAdvances(m, op, w.id);
    if op.Claim? || op.BeginCleanup? || op.Renew? { GrantedIsStored(m, op); }
  }

  lemma ActorCacheGrows(m: Memory, w: Worker, a: Action)
    requires WellFormed(m) && ClaimIsKnown(m, w) && CacheIsKnown(m, w) && Call(w, a).Some?
    ensures
      var (after, reply) := MemoryStep(m, Call(w, a).value);
      var next := AfterCall(w, a, reply);
      && CacheIsKnown(after, next)
      && (w.cacheFence.Some? ==> next.cacheFence == w.cacheFence)
      && (w.cacheFence.None? && next.cacheFence.Some? ==>
            next.cacheFence.value == CacheFence(m, w.Cache()) + 1 && next.Cache() == w.Cache())
  {
    hide MemoryStep, WellFormed, ManagerUpdate, ClaimIsKnown;
    ActorClaimGrows(m, w, a);
    StepMovesCacheFence(m, Call(w, a).value, w.Cache());
  }

  /** The acting worker stays known and grows. */
  lemma ActorStaysKnown(m: Memory, w: Worker, a: Action)
    requires WellFormed(m) && ClaimIsKnown(m, w) && CacheIsKnown(m, w) && Call(w, a).Some?
    ensures
      var (after, reply) := MemoryStep(m, Call(w, a).value);
      var next := AfterCall(w, a, reply);
      && ClaimIsKnown(after, next) && CacheIsKnown(after, next) && Grows(m, w, next)
  {
    hide MemoryStep, WellFormed, ClaimIsKnown, CacheIsKnown, Call, AfterCall;
    ActorClaimGrows(m, w, a);
    ActorCacheGrows(m, w, a);
  }

  /** A guard passes only while both fences are the latest ones. */
  lemma GuardIsCurrent(m: Memory, w: Worker, a: Action)
    requires WellFormed(m) && w.claim.Some?
    ensures a.RenewCacheClaim? && Call(w, a).Some? && MemoryStep(m, Call(w, a).value).1.Done? ==>
              && w.id in m.records && m.records[w.id].fence == w.Fence()
              && CacheFence(m, w.Cache()) == w.cacheFence.value
  {
    hide OwnIds, PathsInvert, BranchesInvert;
  }

  /** One step changes its actor only, and the actor grows. */
  lemma StepMovesActor(sys: System, a: Action)
    requires WellFormed(sys.registry) && WorkersKnown(sys) && a.who < |sys.workers|
    ensures
      var w, after := sys.workers[a.who], Step(sys, a);
      && WellFormed(after.registry)
      && |after.workers| == |sys.workers| && after.workers == sys.workers[a.who := after.workers[a.who]]
      && Grows(sys.registry, w, after.workers[a.who])
      && ClaimIsKnown(after.registry, after.workers[a.who]) && CacheIsKnown(after.registry, after.workers[a.who])
  {
    hide MemoryStep, WellFormed, ManagerUpdate, AfterCall, Call, Locally, Apart;
    var w := sys.workers[a.who];
    assert ClaimIsKnown(sys.registry, w) && CacheIsKnown(sys.registry, w);
    hide ClaimIsKnown, CacheIsKnown, Grows;
    if Call(w, a).Some? {
      CallIsManaged(sys.registry, w, a);
      StepKeepsWellFormed(sys.registry, Call(w, a).value);
      ActorStaysKnown(sys.registry, w, a);
    } else {
      LocallyKnown(sys.registry, w, a);
    }
  }

  lemma OthersKnownAfterStep(sys: System, a: Action, i: nat)
    requires WellFormed(sys.registry) && WorkersKnown(sys) && i < |sys.workers| && i != a.who
    ensures ClaimIsKnown(Step(sys, a).registry, sys.workers[i]) && CacheIsKnown(Step(sys, a).registry, sys.workers[i])
  {
    hide MemoryStep, WellFormed, ManagerUpdate, AfterCall, Call, Locally, Apart;
    assert ClaimIsKnown(sys.registry, sys.workers[i]) && CacheIsKnown(sys.registry, sys.workers[i]);
    if a.who < |sys.workers| {
      var w := sys.workers[a.who];
      assert ClaimIsKnown(sys.registry, w);
      hide ClaimIsKnown, CacheIsKnown;
      if Call(w, a).Some? {
        CallIsManaged(sys.registry, w, a);
        OthersStayKnown(sys.registry, Call(w, a).value, sys.workers[i]);
      }
    }
  }

  lemma StepKeepsWorkers(sys: System, a: Action)
    requires WellFormed(sys.registry) && WorkersKnown(sys)
    ensures WellFormed(Step(sys, a).registry) && WorkersKnown(Step(sys, a))
  {
    if a.who < |sys.workers| {
      hide Step, WellFormed, ClaimIsKnown, CacheIsKnown, Apart, Grows;
      StepMovesActor(sys, a);
      var w, after := sys.workers[a.who], Step(sys, a);
      assert ClaimIsKnown(sys.registry, w) && CacheIsKnown(sys.registry, w);
      forall i | 0 <= i < |sys.workers|
        ensures ClaimIsKnown(after.registry, after.workers[i]) && CacheIsKnown(after.registry, after.workers[i])
      {
        if i != a.who { OthersKnownAfterStep(sys, a, i); }
      }
      forall i, j | 0 <= i < j < |sys.workers| ensures Apart(after.workers[i], after.workers[j]) {
        assert Apart(sys.workers[i], sys.workers[j]);
        if i == a.who { StillApart(sys.registry, w, after.workers[i], sys.workers[j]); }
        if j == a.who { StillApart(sys.registry, w, after.workers[j], sys.workers[i]); }
      }
    }
  }

  lemma LocallyKnown(m: Memory, w: Worker, a: Action)
    requires ClaimIsKnown(m, w) && CacheIsKnown(m, w)
    ensures ClaimIsKnown(m, Locally(w, a)) && CacheIsKnown(m, Locally(w, a)) && Grows(m, w, Locally(w, a))
    ensures Locally(w, a).(phase := w.phase) == w
  {
  }

  lemma StillApart(m: Memory, w: Worker, next: Worker, other: Worker)
    requires Apart(w, other) || Apart(other, w)
    requires ClaimIsKnown(m, other) && CacheIsKnown(m, other)
    requires ClaimIsKnown(m, w) && CacheIsKnown(m, w) && Grows(m, w, next)
    ensures Apart(next, other) && Apart(other, next)
  {
  }

  lemma StepKeepsOwners(sys: System, a: Action)
    requires Inv(sys) && a.who < |sys.workers|
    ensures forall g | g in sys.guarded :: Owned(Step(sys, a), g)
  {
    hide Step, WellFormed, Apart, ClaimIsKnown, CacheIsKnown;
    StepMovesActor(sys, a);
    forall g | g in sys.guarded ensures Owned(Step(sys, a), g) { assert Owned(sys, g); }
  }

  /** A step adds at most one guard, of the fences its actor holds. */
  lemma StepGuards(sys: System, a: Action)
    requires Inv(sys) && a.who < |sys.workers| && Step(sys, a).guarded != sys.guarded
    ensures
      var w, after := sys.workers[a.who], Step(sys, a);
      && after.guarded == sys.guarded + [AsMutation(a.who, w)]
      && w.claim.Some? && w.cacheFence.Some? && w.id in sys.registry.records
      && sys.registry.records[w.id].fence == w.Fence() && CacheFence(sys.registry, w.Cache()) == w.cacheFence.value
  {
    hide MemoryStep, WellFormed, AfterCall, Call, Ordered, Owned, Locally;
    var w := sys.workers[a.who];
    assert ClaimIsKnown(sys.registry, w) && CacheIsKnown(sys.registry, w);
    GuardCalls(w, a);
    GuardIsCurrent(sys.registry, w, a);
  }

  lemma OrderedGrows(log: seq<Mutation>, g: Mutation)
    requires Ordered(log)
    requires forall h | h in log ::
               (h.id == g.id ==> h.fence <= g.fence) && (h.cache == g.cache ==> h.cacheFence <= g.cacheFence)
    ensures Ordered(log + [g])
  {
  }

  lemma StepKeepsGuards(sys: System, a: Action)
    requires Inv(sys)
    ensures forall g | g in Step(sys, a).guarded :: Owned(Step(sys, a), g)
    ensures Ordered(Step(sys, a).guarded)
  {
    hide Call, AfterCall, Locally, WellFormed, Ordered, Owned, ClaimIsKnown, CacheIsKnown, Apart, Grows;
    if a.who < |sys.workers| {
      StepMovesActor(sys, a);
      StepKeepsOwners(sys, a);
      hide Step;
      if Step(sys, a).guarded != sys.guarded {
        StepGuards(sys, a);
        var g := AsMutation(a.who, sys.workers[a.who]);
        NewGuardIsOwned(sys, a);
        forall h | h in sys.guarded
          ensures (h.id == g.id ==> h.fence <= g.fence) && (h.cache == g.cache ==> h.cacheFence <= g.cacheFence)
        {
          EarlierGuardIsOlder(sys, h);
        }
        OrderedGrows(sys.guarded, g);
      }
    }
  }

  lemma NewGuardIsOwned(sys: System, a: Action)
    requires Inv(sys) && a.who < |sys.workers| && Step(sys, a).guarded != sys.guarded
    ensures Owned(Step(sys, a), AsMutation(a.who, sys.workers[a.who]))
  {
    hide Step, WellFormed, Apart, ClaimIsKnown, CacheIsKnown, Ordered, WorkersKnown;
    StepMovesActor(sys, a);
    StepGuards(sys, a);
  }

  lemma GuardCalls(w: Worker, a: Action)
    ensures a.RenewCacheClaim? && Call(w, a).Some? ==> w.cacheFence.Some? && w.phase == Renewed
  {
  }

  lemma EarlierGuardIsOlder(sys: System, g: Mutation)
    requires WorkersKnown(sys) && Owned(sys, g)
    ensures g.id in sys.registry.records && g.fence <= sys.registry.records[g.id].fence
    ensures g.cacheFence <= CacheFence(sys.registry, g.cache)
  {
    var v := sys.workers[g.worker];
    assert ClaimIsKnown(sys.registry, v) && CacheIsKnown(sys.registry, v);
  }

  lemma StepKeepsInv(sys: System, a: Action)
    requires Inv(sys)
    ensures Inv(Step(sys, a))
  {
    hide Step, WellFormed, WorkersKnown, Ordered, Owned;
    StepKeepsWorkers(sys, a);
    StepKeepsGuards(sys, a);
  }

  lemma {:induction false} RunsKeepInv(sys: System, actions: seq<Action>)
    requires Inv(sys)
    ensures Inv(Run(sys, actions))
    decreases |actions|
  {
    hide Step, Inv;
    if actions != [] {
      StepKeepsInv(sys, actions[0]);
      RunsKeepInv(Step(sys, actions[0]), actions[1..]);
    }
  }

  // ---------------------------------------------------------------- mutations

  /** For every interleaving and all clocks, the guarded mutations carry fences that never
      decrease per execution and per cache, and one cache fence belongs to one worker. */
  lemma GuardedMutationsAreFenced(sys: System, actions: seq<Action>)
    requires Initial(sys)
    ensures Ordered(Run(sys, actions).guarded)
    ensures forall g, h | g in Run(sys, actions).guarded && h in Run(sys, actions).guarded ::
              && (g.cache == h.cache && g.cacheFence == h.cacheFence ==> g.worker == h.worker)
              && (g.id == h.id && g.fence == h.fence ==> g.worker == h.worker)
  {
    hide Run, WellFormed;
    InitialInv(sys);
    RunsKeepInv(sys, actions);
    var end := Run(sys, actions);
    forall g, h | g in end.guarded && h in end.guarded && g.worker != h.worker
      ensures !(g.cache == h.cache && g.cacheFence == h.cacheFence) && !(g.id == h.id && g.fence == h.fence)
    {
      assert Owned(end, g) && Owned(end, h);
      var i := if g.worker < h.worker then g.worker else h.worker;
      var j := if g.worker < h.worker then h.worker else g.worker;
      assert Apart(end.workers[i], end.workers[j]);
    }
  }

  lemma InitialInv(sys: System)
    requires Initial(sys)
    ensures Inv(sys)
  {
  }

  /** A worker whose execution has been taken over. */
  ghost predicate Superseded(sys: System, who: nat) {
    && who < |sys.workers|
    && sys.workers[who].claim.Some?
    && sys.workers[who].id in sys.registry.records
    && sys.workers[who].Fence() < sys.registry.records[sys.workers[who].id].fence
  }

  /** The mutations `who` has guarded and the terminal states it has recorded. */
  function GuardedBy(log: seq<Mutation>, who: nat): seq<Mutation> {
    if log == [] then []
    else
      GuardedBy(log[..|log| - 1], who)
      + (if log[|log| - 1].worker == who then [log[|log| - 1]] else [])
  }

  function RecordedBy(log: seq<Terminal>, who: nat): seq<Terminal> {
    if log == [] then []
    else
      RecordedBy(log[..|log| - 1], who)
      + (if log[|log| - 1].worker == who then [log[|log| - 1]] else [])
  }

  /** No renewal and no update of a superseded worker is granted any more, whether it is its own or
      its heartbeat's. */
  lemma SupersededCallFails(m: Memory, w: Worker, a: Action)
    requires w.claim.Some? && w.id in m.records && w.Fence() < m.records[w.id].fence
    requires ClaimIsKnown(m, w) && Call(w, a).Some?
    requires a.RenewExecution? || a.RenewCacheClaim? || a.BeatExecution? || a.BeatCache?
             || a.RecordSuccess? || a.RecordFailure?
    ensures MemoryStep(m, Call(w, a).value).1.Raised?
  {
    assert forall now :: !Owns(Lookup(m.records, w.id), w.owner, w.Fence(), now);
    hide Owns, Lookup;
  }

  lemma StepKeepsSuperseded(sys: System, a: Action, who: nat)
    requires Inv(sys) && Superseded(sys, who)
    ensures Superseded(Step(sys, a), who)
    ensures GuardedBy(Step(sys, a).guarded, who) == GuardedBy(sys.guarded, who)
    ensures RecordedBy(Step(sys, a).terminals, who) == RecordedBy(sys.terminals, who)
  {
    hide MemoryStep, WellFormed, ManagerUpdate, AfterCall, Call, Ordered, Owned;
    if a.who < |sys.workers| {
      var w, after := sys.workers[a.who], Step(sys, a);
      var call := Call(w, a);
      assert ClaimIsKnown(sys.registry, w) && CacheIsKnown(sys.registry, w);
      if call.Some? {
        CallIsManaged(sys.registry, w, a);
        StepAdvances(sys.registry, call.value, sys.workers[who].id);
        ActorStaysKnown(sys.registry, w, a);
        if a.who == who {
          UpdatesOnlyWhenRecording(w, a);
          if a.RenewCacheClaim? || a.RecordSuccess? || a.RecordFailure? { SupersededCallFails(sys.registry, w, a); }
        }
      } else {
        LocallyKnown(sys.registry, w, a);
      }
    }
  }

  lemma UpdatesOnlyWhenRecording(w: Worker, a: Action)
    requires Call(w, a).Some?
    ensures Call(w, a).value.Update? <==> a.RecordSuccess? || a.RecordFailure?
  {
  }

  /** A worker superseded by takeover passes no further mutation guard and records no terminal
      state, in any continuation. */
  lemma {:induction false} SupersededDoesNothingMore(sys: System, actions: seq<Action>, who: nat)
    requires Inv(sys) && Superseded(sys, who)
    ensures GuardedBy(Run(sys, actions).guarded, who) == GuardedBy(sys.guarded, who)
    ensures RecordedBy(Run(sys, actions).terminals, who) == RecordedBy(sys.terminals, who)
    decreases |actions|
  {
    hide Step, Inv, Superseded, GuardedBy, RecordedBy;
    if actions != [] {
      StepKeepsInv(sys, actions[0]);
      StepKeepsSuperseded(sys, actions[0], who);
      SupersededDoesNothingMore(Step(sys, actions[0]), actions[1..], who);
    }
  }

  /** Mutations `who` has started, counting the one it has passed a guard for and not started yet. */
  function Startable(sys: System, who: nat): nat
    requires who < |sys.workers|
  {
    |GuardedBy(sys.started, who)| + if sys.workers[who].phase == Guarded then 1 else 0
  }

  lemma StepKeepsStartable(sys: System, a: Action, who: nat)
    requires Inv(sys) && Superseded(sys, who)
    ensures who < |Step(sys, a).workers| && Startable(Step(sys, a), who) <= Startable(sys, who)
  {
    hide MemoryStep, WellFormed, Ordered, Owned;
    if a.who < |sys.workers| {
      var w, after := sys.workers[a.who], Step(sys, a);
      assert ClaimIsKnown(sys.registry, w);
      if Call(w, a).Some? {
        assert after.started == sys.started;
        if a.who == who && a.RenewCacheClaim? { SupersededCallFails(sys.registry, w, a); }
      } else {
        assert after.started == sys.started || after.started[..|after.started| - 1] == sys.started;
      }
    }
  }

  /** Nor does it start one, except the single one it may already have passed a guard for. */
  lemma {:induction false} SupersededStartsAtMostOne(sys: System, actions: seq<Action>, who: nat)
    requires Inv(sys) && Superseded(sys, who)
    ensures |GuardedBy(Run(sys, actions).started, who)| <= Startable(sys, who)
    decreases |actions|
  {
    hide Step, Inv, Superseded, GuardedBy;
    if actions != [] {
      StepKeepsInv(sys, actions[0]);
      StepKeepsSuperseded(sys, actions[0], who);
      StepKeepsStartable(sys, actions[0], who);
      SupersededStartsAtMostOne(Step(sys, actions[0]), actions[1..], who);
    }
  }

  // ---------------------------------------------------------------- caches taken over

  /** A worker whose repository cache has been claimed by another. */
  ghost predicate CacheLost(sys: System, who: nat) {
    && who < |sys.workers|
    && sys.workers[who].cacheFence.Some?
    && sys.workers[who].cacheFence.value < CacheFence(sys.registry, sys.workers[who].Cache())
  }

  lemma CacheLostCallFails(m: Memory, w: Worker, a: Action)
    requires WellFormed(m) && w.cacheFence.Some? && w.cacheFence.value < CacheFence(m, w.Cache())
    ensures (a.RenewCacheClaim? || a.BeatCache?) && Call(w, a).Some? ==> MemoryStep(m, Call(w, a).value).1.Raised?
  {
    hide OwnIds, PathsInvert, BranchesInvert;
  }

  lemma CacheFencesGrow(sys: System, a: Action, cache: string)
    requires WellFormed(sys.registry)
    ensures CacheFence(sys.registry, cache) <= CacheFence(Step(sys, a).registry, cache)
  {
    hide MemoryStep, WellFormed, AfterCall, Call, Locally, CacheFence;
    if a.who < |sys.workers| && Call(sys.workers[a.who], a).Some? {
      StepMovesCacheFence(sys.registry, Call(sys.workers[a.who], a).value, cache);
    }
  }

  lemma StepKeepsCacheLost(sys: System, a: Action, who: nat)
    requires Inv(sys) && CacheLost(sys, who)
    ensures CacheLost(Step(sys, a), who)
  {
    hide Step, WellFormed, WorkersKnown, Ordered, Owned, CacheFence;
    CacheFencesGrow(sys, a, sys.workers[who].Cache());
    if a.who < |sys.workers| {
      StepMovesActor(sys, a);
      LostHasClaim(sys, who);
      hide ClaimIsKnown, CacheIsKnown;
    } else {
      IdleStep(sys, a);
    }
  }

  lemma LostHasClaim(sys: System, who: nat)
    requires WorkersKnown(sys) && who < |sys.workers| && sys.workers[who].cacheFence.Some?
    ensures sys.workers[who].claim.Some?
  {
    assert CacheIsKnown(sys.registry, sys.workers[who]);
  }

  lemma IdleStep(sys: System, a: Action)
    requires a.who >= |sys.workers|
    ensures Step(sys, a) == sys
  {
  }

  lemma CacheLostStepGuardsNothing(sys: System, a: Action, who: nat)
    requires Inv(sys) && CacheLost(sys, who)
    ensures GuardedBy(Step(sys, a).guarded, who) == GuardedBy(sys.guarded, who)
    ensures who < |Step(sys, a).workers| && Startable(Step(sys, a), who) <= Startable(sys, who)
  {
    hide MemoryStep, WellFormed, Ordered, Owned, WorkersKnown, CacheFence;
    if a.who < |sys.workers| {
      var w, after := sys.workers[a.who], Step(sys, a);
      if a.who == who { CacheLostCallFails(sys.registry, w, a); }
      if Call(w, a).Some? {
        assert after.started == sys.started;
      } else {
        assert after.started == sys.started || after.started[..|after.started| - 1] == sys.started;
      }
    }
  }

  /** A worker whose cache was claimed by another passes no further guard in any continuation, and
      starts at most the one mutation it had guarded before. */
  lemma {:induction false} CacheLostStartsNothingNew(sys: System, actions: seq<Action>, who: nat)
    requires Inv(sys) && CacheLost(sys, who)
    ensures GuardedBy(Run(sys, actions).guarded, who) == GuardedBy(sys.guarded, who)
    ensures |GuardedBy(Run(sys, actions).started, who)| <= Startable(sys, who)
    decreases |actions|
  {
    hide Step, Inv, CacheLost, GuardedBy;
    if actions != [] {
      StepKeepsInv(sys, actions[0]);
      StepKeepsCacheLost(sys, actions[0], who);
      CacheLostStepGuardsNothing(sys, actions[0], who);
      CacheLostStartsNothingNew(Step(sys, actions[0]), actions[1..], who);
    }
  }
}
