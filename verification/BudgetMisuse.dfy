/** Two short runs from a fresh ledger that leave an account holding something else than its live
    reservations and retained amounts: one for each call that `BudgetRuns.KeepsAccounts` excludes
    (src/aep/execution_budgets.py:516, 546-551). */
module BudgetMisuse {
  import opened Wrappers
  import opened Money
  import opened BudgetLedger
  import opened BudgetRuns

  predicate Unlimited(b: Binding) {
    b.limits == PerScope(UNLIMITED, UNLIMITED, UNLIMITED) && b.pricing.None?
  }

  /** Two budgets of one Task and one Agent with nothing reserved. */
  function Two(b: Binding): System {
    System(map[], [Holder(b, None), Holder(b, None)], [])
  }

  /** A request for one attempt. */
  const REQUEST := Request(1, None, Some(1), 0)

  /** What an admitted `REQUEST` holds. */
  const ONE := Usage(1, 1, 0, 0)

  predicate Unblocked(state: PerScope<Record>) {
    state.workflow.sticky.None? && state.task.sticky.None? && state.agent.sticky.None?
  }

  lemma UnlimitedGrantsOne(b: Binding, state: PerScope<Record>)
    requires Unlimited(b) && Unblocked(state)
    ensures Verdict(b, state, REQUEST) == Ok(Grant(1, None, ONE))
  {
  }

  /** Each of the three records of `b` holds `held`, and none of them is blocked. */
  ghost predicate Holding(ledger: Ledger, b: Binding, held: Usage) {
    && Unblocked(LoadState(ledger, b))
    && (forall a | b.Charges(a) :: HeldAt(ledger, a) == held)
  }

  lemma GrantHolds(ledger: Ledger, b: Binding, held: Usage)
    requires Unlimited(b) && Holding(ledger, b, held)
    ensures Preflight(ledger, b, REQUEST).1 == Ok(Grant(1, None, ONE))
    ensures Holding(Preflight(ledger, b, REQUEST).0, b, held.Plus(ONE))
  {
    hide Verdict, HeldAt;
    UnlimitedGrantsOne(b, LoadState(ledger, b));
    forall a | b.Charges(a) ensures HeldAt(Preflight(ledger, b, REQUEST).0, a) == held.Plus(ONE) {
      PreflightHolds(ledger, b, REQUEST, a);
    }
  }

  /** The first budget has one invocation reserved, and nothing is amiss. */
  ghost predicate Granted(sys: System, b: Binding) {
    && Unlimited(b) && Holding(sys.ledger, b, ONE) && Accounted(sys) && WellBound(sys)
    && sys.holders == [Holder(b, Some(ONE)), Holder(b, None)]
  }

  lemma TwoIsInitial(b: Binding)
    requires Unlimited(b)
    ensures Initial(Two(b)) && WellBound(Two(b)) && Holding(map[], b, NOTHING)
  {
  }

  lemma FirstGrant(b: Binding, sys: System)
    requires Unlimited(b) && sys == Two(b)
    ensures Initial(sys) && Granted(Step(sys, DoPreflight(0, REQUEST)), b)
  {
    hide Unlimited, Initial, WellBound, Accounted, Holding, Preflight;
    TwoIsInitial(b);
    GrantHolds(sys.ledger, b, NOTHING);
    InitialIsAccounted(sys);
    ProceedingKeepsAccounts(sys, DoPreflight(0, REQUEST));
    StepKeepsBindings(sys, DoPreflight(0, REQUEST));
    assert NOTHING.Plus(ONE) == ONE;
  }

  lemma TakingOneAway(held: Usage, more: Usage)
    requires held == ONE && more.invocations == 0
    ensures held.Less(Reserved(None)).Plus(more).invocations == 0
    ensures held.Plus(held).Covers(held) && held.Plus(held).Less(held) == held
  {
  }

  lemma StrayHolds(b: Binding, ledger: Ledger, charge: Charge)
    requires Holding(ledger, b, ONE)
    ensures !Idle(ledger, b)
    ensures HeldAt(Settle(ledger, b, None, charge), WorkflowAccount).invocations == 0
  {
    hide Settle, Retained, LoadState;
    var before := HeldAt(ledger, WorkflowAccount);
    var kept := Retained(Reserved(None), charge.unreconciled);
    assert b.Charges(WorkflowAccount) && before == ONE;
    hide HeldAt;
    SettleHolds(ledger, b, None, charge, WorkflowAccount);
    assert HeldAt(Settle(ledger, b, None, charge), WorkflowAccount) == before.Less(Reserved(None)).Plus(kept);
    TakingOneAway(before, kept);
  }

  /** The second budget records, whatever its charge, without a preflight of its own: the
      invocation the first one has reserved is gone from the Workflow's record, while its
      reservation is still open. */
  lemma StrayRecordTakesAReservation(b: Binding, sys: System, charge: Charge)
    requires Unlimited(b) && sys == Two(b)
    ensures Initial(sys)
    ensures
      var end := Run(sys, [DoPreflight(0, REQUEST), DoRecord(1, charge)]);
      && !Accounted(end)
      && |end.holders| == 2 && end.holders[0].open == Some(ONE)
      && HeldAt(end.ledger, WorkflowAccount).invocations == 0
  {
    hide Unlimited, Initial, Accounted, WellBound, Holding, HeldAt, Preflight, Settle, Retained, Idle, Run;
    FirstGrant(b, sys);
    var granted := Step(sys, DoPreflight(0, REQUEST));
    StrayHolds(b, granted.ledger, charge);
    AccountsAreKeptExactly(granted, DoRecord(1, charge));
    RunTwo(sys, DoPreflight(0, REQUEST), DoRecord(1, charge));
  }

  lemma SecondGrant(b: Binding, sys: System)
    requires Granted(sys, b)
    ensures
      var end := Step(sys, DoPreflight(0, REQUEST));
      && !Accounted(end) && end.holders == sys.holders
      && Holding(end.ledger, b, ONE.Plus(ONE))
  {
    hide Unlimited, Accounted, WellBound, Holding, Preflight;
    GrantHolds(sys.ledger, b, ONE);
    AccountsAreKeptExactly(sys, DoPreflight(0, REQUEST));
  }

  lemma ReleaseLeaves(b: Binding, sys: System, held: Usage)
    requires Holding(sys.ledger, b, held) && held.Covers(ONE)
    requires sys.holders == [Holder(b, Some(ONE)), Holder(b, None)]
    ensures
      var released := Step(sys, DoRelease(0));
      && (forall h | h in released.holders :: h.open.None?)
      && HeldAt(released.ledger, WorkflowAccount) == held.Less(ONE)
  {
    assert b.Charges(WorkflowAccount) && HeldAt(sys.ledger, WorkflowAccount) == held;
    hide Holding, HeldAt, Release;
    ReleaseHolds(sys.ledger, b, Some(ONE), WorkflowAccount);
  }

  /** The first budget preflights twice: two reservations are held and one is open, so that what
      releasing it leaves held belongs to nobody. */
  lemma SecondPreflightLeaksTheFirst(b: Binding, sys: System)
    requires Unlimited(b) && sys == Two(b)
    ensures Initial(sys)
    ensures
      var end := Run(sys, [DoPreflight(0, REQUEST), DoPreflight(0, REQUEST)]);
      var released := Step(end, DoRelease(0));
      && !Accounted(end)
      && (forall h | h in released.holders :: h.open.None?)
      && HeldAt(released.ledger, WorkflowAccount) == ONE
  {
    hide Unlimited, Initial, Accounted, WellBound, Holding, HeldAt, Preflight, Release, Run;
    var first := Step(sys, DoPreflight(0, REQUEST));
    FirstGrant(b, sys);
    SecondGrant(b, first);
    TakingOneAway(ONE, NOTHING);
    ReleaseLeaves(b, Step(first, DoPreflight(0, REQUEST)), ONE.Plus(ONE));
    RunTwo(sys, DoPreflight(0, REQUEST), DoPreflight(0, REQUEST));
  }
}
