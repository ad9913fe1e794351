/** The same manager workers over the SQL registry: they go through the same states, so the fencing
    results hold for the tables, too (src/aep/execution_checkout.py:818-1092, 1143-1430). */
module CheckoutSqlWorkers {
  import opened Wrappers
  import opened CheckoutRecords
  import CheckoutRuns
  import opened CheckoutWorkers
  import opened CheckoutStarts

  datatype SqlSystem = SqlSystem(tables: Tables, workers: seq<Worker>, guarded: seq<Mutation>,
                                 started: seq<Mutation>, terminals: seq<Terminal>)

  function SqlStep(sql: SqlSystem, a: Action): SqlSystem {
    if a.who >= |sql.workers| then sql
    else
      var w := sql.workers[a.who];
      var call := Call(w, a);
      if call.None? then
        var starts := a.StartMutation? && w.phase == Guarded;
        sql.(workers := sql.workers[a.who := Locally(w, a)],
             started := if starts then sql.started + [AsMutation(a.who, w)] else sql.started)
      else
        var (tables, reply) := TablesStep(sql.tables, call.value);
        var guards := a.RenewCacheClaim? && reply.Done?;
        var records := call.value.Update? && reply.Done?;
        sql.(tables := tables, workers := sql.workers[a.who := AfterCall(w, a, reply)],
             guarded := if guards then sql.guarded + [AsMutation(a.who, w)] else sql.guarded,
             terminals := if records then sql.terminals + [Terminal(a.who, w.id, w.Fence())] else sql.terminals)
  }

  function SqlRun(sql: SqlSystem, actions: seq<Action>): SqlSystem
    decreases |actions|
  {
    hide SqlStep;
    if actions == [] then sql else SqlRun(SqlStep(sql, actions[0]), actions[1..])
  }

  /** Both systems are in the same state, each with its own registry. */
  ghost predicate Matches(sys: System, sql: SqlSystem) {
    && CheckoutRuns.Related(sys.registry, sql.tables)
    && sys.workers == sql.workers && sys.guarded == sql.guarded
    && sys.started == sql.started && sys.terminals == sql.terminals
  }

  /** The reply of a release is not looked at, and every other reply is the same. */
  lemma RepliesActAlike(sys: System, sql: SqlSystem, w: Worker, a: Action)
    requires Matches(sys, sql) && Call(w, a).Some? && CheckoutRuns.ManagerUpdate(sys.registry, Call(w, a).value)
    ensures
      var here, there := MemoryStep(sys.registry, Call(w, a).value), TablesStep(sql.tables, Call(w, a).value);
      && CheckoutRuns.Related(here.0, there.0)
      && AfterCall(w, a, here.1) == AfterCall(w, a, there.1)
      && (a.GiveUpCache? || here.1 == there.1)
      && (Call(w, a).value.ReleaseCache? <==> a.GiveUpCache?)
  {
    hide MemoryStep, TablesStep, CheckoutRuns.ManagerUpdate, CheckoutRuns.Related;
    CheckoutRuns.TablesRefineMemory(sys.registry, sql.tables, Call(w, a).value);
  }

  lemma StepsMatch(sys: System, sql: SqlSystem, a: Action)
    requires Inv(sys) && Matches(sys, sql)
    ensures Matches(Step(sys, a), SqlStep(sql, a))
  {
    hide MemoryStep, TablesStep, CheckoutRuns.ManagerUpdate, CheckoutRuns.Related, CheckoutRuns.WellFormed, AfterCall,
        Locally,
         Ordered, Owned, Apart;
    if a.who < |sys.workers| {
      var w := sys.workers[a.who];
      assert ClaimIsKnown(sys.registry, w);
      hide ClaimIsKnown, CacheIsKnown;
      if Call(w, a).Some? {
        CallIsManaged(sys.registry, w, a);
        RepliesActAlike(sys, sql, w, a);
        UpdatesOnlyWhenRecording(w, a);
      }
    }
  }

  lemma {:induction false} RunsMatch(sys: System, sql: SqlSystem, actions: seq<Action>)
    requires Inv(sys) && Matches(sys, sql)
    ensures Matches(Run(sys, actions), SqlRun(sql, actions))
    decreases |actions|
  {
    hide Step, SqlStep, Inv, Matches;
    if actions != [] {
      StepsMatch(sys, sql, actions[0]);
      StepKeepsInv(sys, actions[0]);
      RunsMatch(Step(sys, actions[0]), SqlStep(sql, actions[0]), actions[1..]);
    }
  }

  /** Over the SQL registry as well, for every interleaving and all clocks, guarded mutations carry
      fences that never decrease, and equal fences belong to one worker. */
  lemma SqlGuardedMutationsAreFenced(workers: seq<Worker>, actions: seq<Action>)
    requires forall w | w in workers :: w.phase == Starting && w.claim.None? && w.cacheFence.None?
    ensures
      var end := SqlRun(SqlSystem(CheckoutRuns.NO_TABLES, workers, [], [], []), actions);
      && Ordered(end.guarded)
      && forall g, h | g in end.guarded && h in end.guarded ::
           && (g.cache == h.cache && g.cacheFence == h.cacheFence ==> g.worker == h.worker)
           && (g.id == h.id && g.fence == h.fence ==> g.worker == h.worker)
  {
    hide Run, SqlRun, Ordered;
    var sys := System(CheckoutRuns.EMPTY, workers, [], [], []);
    var sql := SqlSystem(CheckoutRuns.NO_TABLES, workers, [], [], []);
    InitialInv(sys);
    RunsMatch(sys, sql, actions);
    GuardedMutationsAreFenced(sys, actions);
  }

  /** And a worker superseded by takeover passes no further guard and records nothing more. */
  lemma SqlSupersededDoesNothingMore(sys: System, sql: SqlSystem, actions: seq<Action>, who: nat)
    requires Inv(sys) && Matches(sys, sql) && Superseded(sys, who)
    ensures GuardedBy(SqlRun(sql, actions).guarded, who) == GuardedBy(sql.guarded, who)
    ensures RecordedBy(SqlRun(sql, actions).terminals, who) == RecordedBy(sql.terminals, who)
  {
    hide Run, SqlRun, GuardedBy, RecordedBy, Superseded, Inv;
    RunsMatch(sys, sql, actions);
    SupersededDoesNothingMore(sys, actions, who);
  }

  /** It starts at most the one mutation it had guarded before. */
  lemma SqlSupersededStartsAtMostOne(sys: System, sql: SqlSystem, actions: seq<Action>, who: nat)
    requires Inv(sys) && Matches(sys, sql) && Superseded(sys, who)
    ensures |GuardedBy(SqlRun(sql, actions).started, who)| <= Startable(sys, who)
  {
    hide Run, SqlRun, GuardedBy, Superseded, Inv;
    RunsMatch(sys, sql, actions);
    SupersededStartsAtMostOne(sys, actions, who);
  }

  /** The same for a worker whose cache was claimed by another. */
  lemma SqlCacheLostStartsNothingNew(sys: System, sql: SqlSystem, actions: seq<Action>, who: nat)
    requires Inv(sys) && Matches(sys, sql) && CacheLost(sys, who)
    ensures GuardedBy(SqlRun(sql, actions).guarded, who) == GuardedBy(sql.guarded, who)
    ensures |GuardedBy(SqlRun(sql, actions).started, who)| <= Startable(sys, who)
  {
    hide Run, SqlRun, GuardedBy, CacheLost, Inv;
    RunsMatch(sys, sql, actions);
    CacheLostStartsNothingNew(sys, actions, who);
  }

  /** And the waiting starts keep the order of the fences under the same condition. */
  lemma SqlPendingStartsExactly(sys: System, sql: SqlSystem)
    requires Inv(sys) && Matches(sys, sql) && Ordered(sql.started)
    ensures (forall starts | OnlyStarts(starts) :: Ordered(SqlRun(sql, starts).started)) <==> StartsAreSettled(sys)
  {
    hide Run, SqlRun, Ordered, OnlyStarts, StartsAreSettled, Inv;
    forall starts | OnlyStarts(starts)
      ensures Ordered(SqlRun(sql, starts).started) <==> Ordered(Run(sys, starts).started)
    {
      RunsMatch(sys, sql, starts);
    }
    PendingStartsExactly(sys);
  }
}
