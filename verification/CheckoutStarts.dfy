/** Mutations start in a step of their own, behind the guard that let them: when the started ones
    still carry fences in order (src/aep/execution_checkout.py:1184-1204, 1365-1384). */
module CheckoutStarts {
  import opened Wrappers
  import opened CheckoutRecords
  import CheckoutRuns
  import opened CheckoutWorkers

  /** The guard a mutation passed still is the latest one as the mutation starts. */
  predicate Current(m: Memory, g: Mutation) {
    && g.id in m.records && m.records[g.id].fence == g.fence
    && CheckoutRuns.CacheFence(m, g.cache) == g.cacheFence
  }

  /** No start in the run comes after its execution or its cache has been claimed again. */
  ghost predicate Prompt(sys: System, actions: seq<Action>)
    decreases |actions|
  {
    hide Step;
    actions == [] ||
      var a := actions[0];
      && (a.StartMutation? && a.who < |sys.workers| && sys.workers[a.who].phase == Guarded ==>
            Current(sys.registry, AsMutation(a.who, sys.workers[a.who])))
      && Prompt(Step(sys, a), actions[1..])
  }

  ghost predicate StartsInv(sys: System) {
    && Inv(sys)
    && (forall g | g in sys.started :: Owned(sys, g))
    && Ordered(sys.started)
  }

  lemma InitialStarts(sys: System)
    requires Initial(sys)
    ensures StartsInv(sys)
  {
    InitialInv(sys);
  }

  /** A mutation starts with the fences its worker holds, and only a guarded worker starts one. */
  lemma StepStarts(sys: System, a: Action)
    requires Inv(sys) && a.who < |sys.workers|
    ensures
      var w, after := sys.workers[a.who], Step(sys, a);
      after.started != sys.started ==>
        && a.StartMutation? && w.phase == Guarded && w.claim.Some? && w.cacheFence.Some?
        && after.started == sys.started + [AsMutation(a.who, w)]
  {
    hide MemoryStep, CheckoutRuns.WellFormed, AfterCall, Ordered, Owned, Locally, Apart;
    assert ClaimIsKnown(sys.registry, sys.workers[a.who]) && CacheIsKnown(sys.registry, sys.workers[a.who]);
  }

  lemma OwnedAfterStep(sys: System, a: Action, g: Mutation)
    requires Inv(sys) && a.who < |sys.workers| && Owned(sys, g)
    ensures Owned(Step(sys, a), g)
  {
    hide Step, CheckoutRuns.WellFormed, Apart, ClaimIsKnown, CacheIsKnown, Ordered, WorkersKnown;
    StepMovesActor(sys, a);
  }

  lemma StepKeepsStarts(sys: System, a: Action)
    requires StartsInv(sys) && Prompt(sys, [a])
    ensures StartsInv(Step(sys, a))
  {
    hide Inv, Ordered, Owned, Current, Step;
    StepKeepsInv(sys, a);
    if a.who < |sys.workers| {
      StepStarts(sys, a);
      forall g | g in sys.started ensures Owned(Step(sys, a), g) { OwnedAfterStep(sys, a, g); }
      if Step(sys, a).started != sys.started { PromptStart(sys, a); }
    } else {
      assert Step(sys, a) == sys by { IdleStep(sys, a); }
    }
  }

  lemma PromptStart(sys: System, a: Action)
    requires StartsInv(sys) && Prompt(sys, [a]) && a.who < |sys.workers|
    requires Step(sys, a).started != sys.started
    ensures Owned(Step(sys, a), AsMutation(a.who, sys.workers[a.who]))
    ensures Ordered(Step(sys, a).started)
  {
    hide Step, CheckoutRuns.WellFormed, Apart, ClaimIsKnown, CacheIsKnown, Ordered, WorkersKnown;
    StepStarts(sys, a);
    var g := AsMutation(a.who, sys.workers[a.who]);
    assert Owned(sys, g);
    OwnedAfterStep(sys, a, g);
    assert Current(sys.registry, g);
    forall h | h in sys.started
      ensures (h.id == g.id ==> h.fence <= g.fence) && (h.cache == g.cache ==> h.cacheFence <= g.cacheFence)
    {
      EarlierGuardIsOlder(sys, h);
    }
    OrderedGrows(sys.started, g);
  }

  lemma {:induction false} PromptRunsKeepStarts(sys: System, actions: seq<Action>)
    requires StartsInv(sys) && Prompt(sys, actions)
    ensures StartsInv(Run(sys, actions))
    decreases |actions|
  {
    hide Step, StartsInv;
    if actions != [] {
      assert Prompt(sys, [actions[0]]);
      StepKeepsStarts(sys, actions[0]);
      PromptRunsKeepStarts(Step(sys, actions[0]), actions[1..]);
    }
  }

  /** If no start comes late, the mutations of every run start in the order of their fences too. */
  lemma PromptStartsAreFenced(sys: System, actions: seq<Action>)
    requires Initial(sys) && Prompt(sys, actions)
    ensures Ordered(Run(sys, actions).started)
  {
    hide Run, Prompt, Inv, Ordered;
    InitialStarts(sys);
    PromptRunsKeepStarts(sys, actions);
  }

  // ---------------------------------------------------------------- pending starts

  predicate IsGuarded(sys: System, i: nat) {
    i < |sys.workers| && sys.workers[i].phase == Guarded
  }

  /** A later claimant of the execution or the cache of this mutation has already started one. */
  ghost predicate Overtaken(log: seq<Mutation>, g: Mutation) {
    exists h | h in log :: (h.id == g.id && h.fence > g.fence) || (h.cache == g.cache && h.cacheFence > g.cacheFence)
  }

  predicate Contend(v: Worker, w: Worker) {
    v.id == w.id || v.Cache() == w.Cache()
  }

  /** No worker that waits behind its guard has been overtaken, and no two of them contend for an
      execution or a cache. */
  ghost predicate StartsAreSettled(sys: System) {
    && (forall i: nat | IsGuarded(sys, i) :: !Overtaken(sys.started, AsMutation(i, sys.workers[i])))
    && (forall i: nat, j: nat | IsGuarded(sys, i) && IsGuarded(sys, j) && i != j ::
        !Contend(sys.workers[i], sys.workers[j]))
  }

  /** Nothing but mutations start. */
  predicate OnlyStarts(actions: seq<Action>) {
    forall a | a in actions :: a.StartMutation?
  }

  /** What one start does. */
  lemma StartOf(sys: System, who: nat)
    ensures !IsGuarded(sys, who) ==> Step(sys, StartMutation(who)).started == sys.started
    ensures IsGuarded(sys, who) ==>
              Step(sys, StartMutation(who)).started == sys.started + [AsMutation(who, sys.workers[who])]
    ensures forall i: nat :: IsGuarded(Step(sys, StartMutation(who)), i) <==> IsGuarded(sys, i) && i != who
    ensures forall i: nat | i < |sys.workers| && i != who :: Step(sys, StartMutation(who)).workers[i] == sys.workers[i]
  {
  }

  lemma OvertakenBreaks(log: seq<Mutation>, g: Mutation)
    requires Ordered(log)
    ensures Ordered(log + [g]) <==> !Overtaken(log, g)
  {
    if Ordered(log + [g]) {
      forall h | h in log
        ensures !((h.id == g.id && h.fence > g.fence) || (h.cache == g.cache && h.cacheFence > g.cacheFence))
      {
        var i :| 0 <= i < |log| && log[i] == h;
        assert (log + [g])[i] == h && (log + [g])[|log|] == g;
      }
    } else if !Overtaken(log, g) {
      OrderedGrows(log, g);
    }
  }

  lemma StartKeepsSettled(sys: System, who: nat)
    requires Ordered(sys.started) && StartsAreSettled(sys)
    ensures Ordered(Step(sys, StartMutation(who)).started) && StartsAreSettled(Step(sys, StartMutation(who)))
  {
    hide Step, Ordered;
    StartOf(sys, who);
    var after := Step(sys, StartMutation(who));
    if IsGuarded(sys, who) {
      var g := AsMutation(who, sys.workers[who]);
      OvertakenBreaks(sys.started, g);
      forall i: nat | IsGuarded(after, i) ensures !Overtaken(after.started, AsMutation(i, after.workers[i])) {
        assert !Contend(sys.workers[who], sys.workers[i]);
        assert !Overtaken(sys.started, AsMutation(i, sys.workers[i]));
      }
    }
  }

  lemma {:induction false} SettledStartsStayOrdered(sys: System, starts: seq<Action>)
    requires Ordered(sys.started) && StartsAreSettled(sys) && OnlyStarts(starts)
    ensures Ordered(Run(sys, starts).started)
    decreases |starts|
  {
    hide Step, Ordered, StartsAreSettled;
    if starts != [] {
      assert starts[0] in starts;
      StartKeepsSettled(sys, starts[0].who);
      SettledStartsStayOrdered(Step(sys, starts[0]), starts[1..]);
    }
  }

  /** Of two waiting workers that contend, one would overtake the other: the later claimant may
      start first, and the other after it. */
  lemma ContendersMayReorder(sys: System, i: nat, j: nat)
    requires Inv(sys) && Ordered(sys.started) && IsGuarded(sys, i) && IsGuarded(sys, j) && i != j
    requires Contend(sys.workers[i], sys.workers[j])
    ensures !Ordered(Run(sys, [StartMutation(i), StartMutation(j)]).started)
            || !Ordered(Run(sys, [StartMutation(j), StartMutation(i)]).started)
  {
    hide Step, CheckoutRuns.WellFormed, Ordered, Owned, Run;
    var v, w := sys.workers[i], sys.workers[j];
    assert ClaimIsKnown(sys.registry, v) && CacheIsKnown(sys.registry, v);
    assert ClaimIsKnown(sys.registry, w) && CacheIsKnown(sys.registry, w);
    assert Apart(sys.workers[if i < j then i else j], sys.workers[if i < j then j else i]);
    var g, h := AsMutation(i, v), AsMutation(j, w);
    assert (v.id == w.id && g.fence != h.fence) || (v.Cache() == w.Cache() && g.cacheFence != h.cacheFence);
    TwoStarts(sys, i, j);
    TwoStarts(sys, j, i);
    assert (g.id == h.id && g.fence > h.fence) || (g.cache == h.cache && g.cacheFence > h.cacheFence)
        || (h.id == g.id && h.fence > g.fence) || (h.cache == g.cache && h.cacheFence > g.cacheFence);
    if (g.id == h.id && g.fence > h.fence) || (g.cache == h.cache && g.cacheFence > h.cacheFence) {
      LastTwo(sys.started, g, h);
    } else {
      LastTwo(sys.started, h, g);
    }
  }

  lemma TwoStarts(sys: System, i: nat, j: nat)
    requires IsGuarded(sys, i) && IsGuarded(sys, j) && i != j
    ensures Run(sys, [StartMutation(i), StartMutation(j)]).started ==
            sys.started + [AsMutation(i, sys.workers[i])] + [AsMutation(j, sys.workers[j])]
  {
    hide Step;
    assert [StartMutation(i), StartMutation(j)][1..] == [StartMutation(j)] && [StartMutation(j)][1..] == [];
    var mid := Step(sys, StartMutation(i));
    StartOf(sys, i);
    StartOf(mid, j);
    assert Run(sys, [StartMutation(i), StartMutation(j)]) == Run(mid, [StartMutation(j)]);
    assert Run(mid, [StartMutation(j)]) == Run(Step(mid, StartMutation(j)), []);
  }

  lemma LastTwo(log: seq<Mutation>, g: Mutation, h: Mutation)
    requires (g.id == h.id && g.fence > h.fence) || (g.cache == h.cache && g.cacheFence > h.cacheFence)
    ensures !Ordered(log + [g] + [h])
  {
    var all := log + [g] + [h];
    assert all[|log|] == g && all[|log| + 1] == h;
  }

  /** Whatever order the waiting mutations start in, the started ones stay in the order of their
      fences if and only if no waiting worker has been overtaken and no two of them contend. */
  lemma PendingStartsExactly(sys: System)
    requires Inv(sys) && Ordered(sys.started)
    ensures (forall starts | OnlyStarts(starts) :: Ordered(Run(sys, starts).started)) <==> StartsAreSettled(sys)
  {
    hide Inv, Ordered, Run, Step, Overtaken, Contend, OnlyStarts;
    if StartsAreSettled(sys) {
      hide StartsAreSettled;
      forall starts | OnlyStarts(starts) ensures Ordered(Run(sys, starts).started) {
        SettledStartsStayOrdered(sys, starts);
      }
    } else if i: nat :| IsGuarded(sys, i) && Overtaken(sys.started, AsMutation(i, sys.workers[i])) {
      OneStart(sys, i);
      OvertakenBreaks(sys.started, AsMutation(i, sys.workers[i]));
    } else {
      var i: nat, j: nat :| IsGuarded(sys, i) && IsGuarded(sys, j) && i != j && Contend(sys.workers[i], sys.workers[j]);
      ContendersMayReorder(sys, i, j);
      TwoAreStarts(i, j);
    }
  }

  lemma OneStart(sys: System, i: nat)
    requires IsGuarded(sys, i)
    ensures OnlyStarts([StartMutation(i)])
    ensures Run(sys, [StartMutation(i)]).started == sys.started + [AsMutation(i, sys.workers[i])]
  {
    hide Step;
    StartOf(sys, i);
    assert [StartMutation(i)][1..] == [];
    assert Run(sys, [StartMutation(i)]) == Run(Step(sys, StartMutation(i)), []);
  }

  lemma TwoAreStarts(i: nat, j: nat)
    ensures OnlyStarts([StartMutation(i), StartMutation(j)]) && OnlyStarts([StartMutation(j), StartMutation(i)])
  {
  }

  // ---------------------------------------------------------------- a run with a late start

  const SITE := Binding(Repository("r", "r"), "base", "knowledge", "branch", "/w", "/c")

  function Idle(owner: string): Worker {
    Worker(owner, false, "e", SITE, Starting, None, None)
  }

  /** The four registry calls that bring worker `who` to a guarded mutation, all at time `now`. */
  function GuardOf(who: nat, now: Time): seq<Action> {
    [Acquire(who, now, now + 1), AcquireCache(who, now, now + 1), RenewExecution(who, now, now + 1),
     RenewCacheClaim(who, now, now + 1)]
  }

  /** The record, cache claim and worker after `GuardOf` at time `now`, when it gets `fence`. */
  function Held(owner: string, fence: int, created: Time, now: Time): Checkout {
    Checkout("e", SITE, Provisioning, created, now, fence, Some(owner), Some(now + 1))
  }

  function HeldIn(owner: string, fence: int, created: Time, now: Time): Memory {
    Memory(map["e" := Held(owner, fence, created, now)], map["/w" := "e"], map[("r", "branch") := "e"],
           map["r" := CacheClaim(owner, fence, now + 1, "e", fence)], map["r" := fence])
  }

  function GuardedWorker(owner: string, fence: int, created: Time, now: Time): Worker {
    Idle(owner).(phase := Guarded, claim := Some(Held(owner, fence, created, now)), cacheFence := Some(fence))
  }

  lemma RunOfFour(sys: System, acts: seq<Action>)
    requires |acts| == 4
    ensures Run(sys, acts) == Step(Step(Step(Step(sys, acts[0]), acts[1]), acts[2]), acts[3])
  {
    hide Step;
    var one := Step(sys, acts[0]);
    var two := Step(one, acts[1]);
    var three := Step(two, acts[2]);
    assert acts[1..][1..] == acts[2..] && acts[2..][1..] == acts[3..] && acts[3..][1..] == [];
    assert Run(sys, acts) == Run(one, acts[1..]) == Run(two, acts[2..]);
    assert Run(three, acts[3..]) == Run(Step(three, acts[3]), []);
    assert Run(two, acts[2..]) == Run(three, acts[3..]);
  }

  lemma {:induction false} RunInParts(sys: System, first: seq<Action>, second: seq<Action>)
    ensures Run(sys, first + second) == Run(Run(sys, first), second)
    decreases |first|
  {
    hide Step;
    if first == [] {
      assert first + second == second;
    } else {
      assert (first + second)[1..] == first[1..] + second;
      RunInParts(Step(sys, first[0]), first[1..], second);
    }
  }

  /** Nothing is recorded yet, or the leases of the holder of the previous fence are over. */
  ghost predicate Free(m: Memory, fence: int, created: Time, now: Time) {
    || (m == CheckoutRuns.EMPTY && fence == 1 && created == now)
    || m == HeldIn("a", fence - 1, created, now - 1)
  }

  lemma ClaimTaken(sys: System, who: nat, owner: string, fence: int, created: Time, now: Time)
    requires who < |sys.workers| && sys.workers[who] == Idle(owner) && Free(sys.registry, fence, created, now)
    ensures
      var after, held := Step(sys, Acquire(who, now, now + 1)), Held(owner, fence, created, now);
      && after == sys.(registry := after.registry,
                       workers := sys.workers[who := Idle(owner).(phase := Claimed, claim := Some(held))])
      && after.registry == HeldIn(owner, fence, created, now).(claims := sys.registry.claims,
                                                               fences := sys.registry.fences)
  {
    var m := Step(sys, Acquire(who, now, now + 1)).registry;
    assert m.records == map["e" := Held(owner, fence, created, now)];
    assert m.paths == map["/w" := "e"] && m.branches == map[("r", "branch") := "e"];
  }

  lemma CacheTaken(sys: System, who: nat, owner: string, fence: int, created: Time, now: Time, free: Memory)
    requires who < |sys.workers| && Free(free, fence, created, now)
    requires sys.workers[who] == Idle(owner).(phase := Claimed, claim := Some(Held(owner, fence, created, now)))
    requires sys.registry == HeldIn(owner, fence, created, now).(claims := free.claims, fences := free.fences)
    ensures Step(sys, AcquireCache(who, now, now + 1)) ==
            sys.(registry := HeldIn(owner, fence, created, now),
                 workers := sys.workers[who := GuardedWorker(owner, fence, created, now).(phase := Active)])
  {
    var m := Step(sys, AcquireCache(who, now, now + 1)).registry;
    assert m.claims == HeldIn(owner, fence, created, now).claims;
    assert m.fences == map["r" := fence];
  }

  lemma FencesRenewed(sys: System, who: nat, owner: string, fence: int, created: Time, now: Time)
    requires who < |sys.workers| && sys.registry == HeldIn(owner, fence, created, now)
    requires sys.workers[who] == GuardedWorker(owner, fence, created, now).(phase := Active)
    ensures Step(Step(sys, RenewExecution(who, now, now + 1)), RenewCacheClaim(who, now, now + 1)) ==
            sys.(workers := sys.workers[who := GuardedWorker(owner, fence, created, now)],
                 guarded := sys.guarded + [Mutation(who, "e", fence, "r", fence)])
  {
    var after := Step(sys, RenewExecution(who, now, now + 1));
    assert after.registry.records == sys.registry.records;
    var renewed := GuardedWorker(owner, fence, created, now).(phase := Phase.Renewed);
    assert after == sys.(workers := sys.workers[who := renewed]);
    var last := Step(after, RenewCacheClaim(who, now, now + 1));
    assert last.registry.claims == sys.registry.claims;
    assert last.workers == sys.workers[who := GuardedWorker(owner, fence, created, now)];
  }

  /** A worker that finds the execution free gets to guard a mutation. */
  lemma GuardReached(sys: System, who: nat, owner: string, fence: int, created: Time, now: Time)
    requires who < |sys.workers| && sys.workers[who] == Idle(owner) && Free(sys.registry, fence, created, now)
    ensures Run(sys, GuardOf(who, now)) ==
            sys.(registry := HeldIn(owner, fence, created, now),
                 workers := sys.workers[who := GuardedWorker(owner, fence, created, now)],
                 guarded := sys.guarded + [Mutation(who, "e", fence, "r", fence)])
  {
    hide Step, HeldIn, Free, Run;
    RunOfFour(sys, GuardOf(who, now));
    ClaimTaken(sys, who, owner, fence, created, now);
    var s1 := Step(sys, Acquire(who, now, now + 1));
    CacheTaken(s1, who, owner, fence, created, now, sys.registry);
    var s2 := Step(s1, AcquireCache(who, now, now + 1));
    assert s2.workers == sys.workers[who := GuardedWorker(owner, fence, created, now).(phase := Active)];
    FencesRenewed(s2, who, owner, fence, created, now);
    var guarded := GuardedWorker(owner, fence, created, now);
    assert s2.workers[who := guarded] == sys.workers[who := guarded];
  }

  /** The guard and the mutation behind it are two steps: a worker that stalls between them past
      its lease starts after its successor, with the older fences. */
  lemma GuardedWorkerMayStartLate()
    ensures
      var sys := System(CheckoutRuns.EMPTY, [Idle("a"), Idle("b")], [], [], []);
      Initial(sys) && !Ordered(Run(sys, GuardOf(0, 0) + GuardOf(1, 1) + [StartMutation(1), StartMutation(0)]).started)
  {
    var sys := System(CheckoutRuns.EMPTY, [Idle("a"), Idle("b")], [], [], []);
    hide GuardOf, Ordered, Run, HeldIn;
    GuardReached(sys, 0, "a", 1, 0, 0);
    GuardReached(Run(sys, GuardOf(0, 0)), 1, "b", 2, 0, 1);
    RunInParts(sys, GuardOf(0, 0), GuardOf(1, 1));
    RunInParts(sys, GuardOf(0, 0) + GuardOf(1, 1), [StartMutation(1), StartMutation(0)]);
    var s := Run(sys, GuardOf(0, 0) + GuardOf(1, 1));
    StartsReorder(s);
  }

  lemma StartsReorder(s: System)
    requires |s.workers| == 2 && s.started == []
    requires s.workers[0] == GuardedWorker("a", 1, 0, 0) && s.workers[1] == GuardedWorker("b", 2, 0, 1)
    ensures !Ordered(Run(s, [StartMutation(1), StartMutation(0)]).started)
  {
    assert [StartMutation(1), StartMutation(0)][1..] == [StartMutation(0)] && [StartMutation(0)][1..] == [];
    var t := Step(s, StartMutation(1));
    var u := Step(t, StartMutation(0));
    assert Run(s, [StartMutation(1), StartMutation(0)]) == Run(t, [StartMutation(0)]) == u;
    assert u.started == [Mutation(1, "e", 2, "r", 2), Mutation(0, "e", 1, "r", 1)];
    assert u.started[0].id == u.started[1].id && u.started[0].fence > u.started[1].fence;
  }
}
