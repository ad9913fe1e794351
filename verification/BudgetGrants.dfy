/** What a provider that stays within its grant can never cause, what unreconciled money always
    causes, and which monetary limits the ledger can keep exactly. */
module BudgetGrants {
  import opened Wrappers
  import opened Money
  import opened BudgetLedger
  import opened BudgetRuns
  import opened BudgetCeilings

  // ---------------------------------------------------------------- staying within the grant

  predicate LimitsOutput(b: Binding) {
    b.limits.workflow.output.Some? || b.limits.task.output.Some? || b.limits.agent.output.Some?
  }

  /** The reported usage and what is retained fit the reservation being settled. */
  predicate WithinGrant(b: Binding, reservation: Usage, charge: Charge) {
    var kept := Retained(reservation, charge.unreconciled);
    && charge.invocations <= reservation.invocations
    && charge.input + kept.input <= reservation.input
    && (LimitsOutput(b) ==> charge.output + kept.output <= reservation.output)
  }

  predicate KeepsGrant(sys: System, op: Op) {
    op.In(sys) && op.DoRecord? ==>
      && sys.holders[op.who].open.Some?
      && WithinGrant(sys.holders[op.who].binding, sys.holders[op.who].open.value, op.charge)
  }

  predicate AllKeepGrants(sys: System, ops: seq<Op>)
    decreases |ops|
  {
    hide Step;
    ops == [] || (KeepsGrant(sys, ops[0]) && AllKeepGrants(Step(sys, ops[0]), ops[1..]))
  }

  /** Attempts and tokens within limits, whatever the `overrun` flag says. */
  ghost predicate CountedAt(ledger: Ledger, b: Binding, s: ScopeName) {
    var a := b.Accounts().At(s);
    a in ledger ==> WithinCounts(b.limits.At(s), ledger[a].Total())
  }

  ghost predicate AllCounted(sys: System) {
    forall h, s: ScopeName | h in sys.holders :: CountedAt(sys.ledger, h.binding, s)
  }

  lemma ChargeFits(limits: Limits, r: Record, reservation: Usage, charge: Charge, b: Binding, s: ScopeName,
                   pricing: Option<Pricing>)
    requires limits == b.limits.At(s)
    requires r.held.Covers(reservation) && WithinGrant(b, reservation, charge)
    requires WithinCounts(limits, r.Total())
    ensures WithinCounts(limits, SettleRecord(s, limits, r, reservation, charge, pricing).Total())
  {
    hide Retained, OverLimit, CostEvidence;
    assert limits.output.Some? ==> LimitsOutput(b);
  }

  lemma LessCounts(limits: Limits, r: Record, hold: Usage)
    requires WithinCounts(limits, r.Total()) && r.held.Covers(NOTHING) && hold.Covers(NOTHING)
    ensures WithinCounts(limits, HoldLess(r, hold).Total())
  {
  }

  lemma LoadedIsCounted(sys: System, h: Holder, s: ScopeName)
    requires Sound(sys) && AllCounted(sys) && h in sys.holders
    ensures WithinCounts(h.binding.limits.At(s), LoadState(sys.ledger, h.binding).At(s).Total())
    ensures LoadState(sys.ledger, h.binding).At(s).held == HeldAt(sys.ledger, h.binding.Accounts().At(s))
  {
    assert CountedAt(sys.ledger, h.binding, s);
    assert Positive(h.binding);
    assert Within(h.binding.limits.At(s), NOTHING);
  }

  lemma OwnStepIsCounted(sys: System, op: Op, s: ScopeName)
    requires Sound(sys) && Accounted(sys) && AllCounted(sys) && op.In(sys) && KeepsGrant(sys, op)
    ensures CountedAt(Step(sys, op).ledger, sys.holders[op.who].binding, s)
  {
    hide Verdict, SettleRecord, WithinCounts, WithinGrant, Retained, HeldAt, LoadState;
    var h := sys.holders[op.who];
    var b, a := h.binding, h.binding.Accounts().At(s);
    var state := LoadState(sys.ledger, b);
    LoadedIsCounted(sys, h, s);
    HeldIsNonNegative(sys, a);
    match op
    case DoPreflight(_, request) =>
      var verdict := Verdict(b, state, request);
      if verdict.Ok? {
        AdmissionFitsCounts(b, state, request, s);
        assert HoldMore(state.At(s), verdict.value.hold).Total() == state.At(s).Total().Plus(verdict.value.hold);
      }
    case DoRecord(_, charge) =>
      SettlementNeverClamps(sys, op.who, a);
      ChargeFits(b.limits.At(s), state.At(s), h.open.value, charge, b, s, b.pricing);
    case DoRelease(_) =>
      if h.open.Some? {
        LessCounts(b.limits.At(s), state.At(s), h.open.value);
      } else {
        assert CountedAt(sys.ledger, b, s);
      }
  }

  lemma StepKeepsCounts(sys: System, op: Op)
    requires Sound(sys) && Accounted(sys) && AllCounted(sys) && KeepsGrant(sys, op)
    ensures AllCounted(Step(sys, op))
  {
    hide Preflight, Settle, Release, Retained, WithinCounts, WithinGrant, KeepsGrant, Accounted, Proper, AllHonest,
        Positive;
    if op.In(sys) {
      var h, after := sys.holders[op.who], Step(sys, op);
      forall other, s: ScopeName | other in after.holders ensures CountedAt(after.ledger, other.binding, s) {
        var i :| 0 <= i < |after.holders| && after.holders[i] == other;
        var was := sys.holders[i];
        assert was.binding == other.binding;
        var a := was.binding.Accounts().At(s);
        if h.binding.Charges(a) {
          OwnStepIsCounted(sys, op, s);
        } else {
          StepTouchesOwnAccounts(sys, op, a);
          assert CountedAt(sys.ledger, was.binding, s);
        }
      }
    }
  }

  /** When every record stays within its grant, no account ever passes an invocation or token
      limit, so those overruns never occur. */
  lemma {:induction false} GrantsPreventOverruns(sys: System, ops: seq<Op>)
    requires Sound(sys) && Accounted(sys) && AllCounted(sys)
    requires Disciplined(sys, ops) && AllKeepGrants(sys, ops)
    ensures AllCounted(Run(sys, ops))
    decreases |ops|
  {
    hide Step, Sound, Accounted, AllCounted, KeepsGrant;
    if ops != [] {
      var op := ops[0];
      SoundParts(sys);
      StepKeepsCounts(sys, op);
      StepKeepsSound(sys, op);
      ProceedingKeepsAccounts(sys, op);
      GrantsPreventOverruns(Step(sys, op), ops[1..]);
    }
  }

  /** The two charges the invocation coordinator builds (src/aep/agent_invocation.py:481-518)
      are within the grant as soon as the provider keeps to its attempts and tokens. */
  lemma CoordinatorChargesFit(b: Binding, room: Room, request: Request, attempts: nat, charge: Charge)
    requires FitsOneAttempt(room, request.Estimate()) && (LimitsOutput(b) ==> room.output.Some?)
    requires
      var grant := Plan(room, b.pricing, request);
      && attempts <= grant.attempts
      && charge.invocations == attempts
      && ((charge.input == 0 && charge.output == 0 && charge.unreconciled == attempts)
          || (&& 1 <= attempts && charge.input <= request.Estimate()
              && (grant.perAttemptOutput.Some? ==> charge.output <= grant.perAttemptOutput.value)
              && charge.unreconciled == attempts - 1))
    ensures WithinGrant(b, Plan(room, b.pricing, request).hold, charge)
  {
    hide Plan;
    var grant := Plan(room, b.pricing, request);
    PlanFits(room, b.pricing, request);
    var unreconciled := charge.unreconciled;
    SharesOf(grant.attempts, request.Estimate(), unreconciled, charge.input);
    if room.output.Some? {
      SharesOf(grant.attempts, grant.perAttemptOutput.value, unreconciled, charge.output);
    }
  }

  lemma SharesOf(granted: nat, each: nat, unreconciled: nat, reported: nat)
    requires 1 <= granted
    requires (unreconciled <= granted && reported == 0) || (unreconciled < granted && reported <= each)
    ensures granted * each / granted * unreconciled + reported <= granted * each
  {
    assert granted * each / granted == each by { Quotient(granted, each); }
    assert unreconciled <= granted ==> each * unreconciled <= each * granted;
    assert unreconciled < granted ==> each * (unreconciled + 1) <= each * granted;
  }

  lemma Quotient(n: nat, k: nat)
    requires 1 <= n
    ensures n * k / n == k
  {
    var q, rest := n * k / n, n * k % n;
    assert n * k == n * q + rest && 0 <= rest < n;
    if q < k { Scale(n, q + 1, k); }
    if k < q { Scale(n, k + 1, q); }
  }

  lemma Scale(n: nat, less: int, more: int)
    requires less <= more
    ensures n * less <= n * more
  {
  }

  // ---------------------------------------------------------------- unreconciled money

  ghost predicate Closed(ledger: Ledger, a: Account) {
    a in ledger && ledger[a].sticky.Some?
  }

  /** A refusal recorded for unreconciled money is never taken back. */
  lemma {:induction false} ClosedStaysClosed(sys: System, ops: seq<Op>, a: Account)
    requires Closed(sys.ledger, a)
    ensures Closed(Run(sys, ops).ledger, a)
    decreases |ops|
  {
    hide Step;
    if ops != [] {
      StepKeepsClosed(sys, ops[0], a);
      ClosedStaysClosed(Step(sys, ops[0]), ops[1..], a);
    }
  }

  lemma StepKeepsClosed(sys: System, op: Op, a: Account)
    requires Closed(sys.ledger, a)
    ensures Closed(Step(sys, op).ledger, a)
  {
    hide Verdict, Retained, OverLimit, CostEvidence;
  }

  /** A closed account refuses every later preflight that would charge it, and a dispatched
      charge without reliable cost closes every account that has a monetary limit. */
  lemma ClosedRefuses(ledger: Ledger, b: Binding, request: Request, a: Account)
    requires Closed(ledger, a) && b.Charges(a)
    ensures Preflight(ledger, b, request).1.Err?
  {
    hide Plan, MinimumRoom, ShortOfMoney;
  }

  lemma UnreconciledMoneyCloses(ledger: Ledger, b: Binding, open: Option<Usage>, charge: Charge, s: ScopeName)
    requires 0 < charge.invocations && b.limits.At(s).cost.Some?
    requires 0 < charge.unreconciled || CostEvidence(charge, b.pricing).0 == Unavailable
    ensures Closed(Settle(ledger, b, open, charge), b.Accounts().At(s))
  {
    hide Retained, OverLimit, CostEvidence;
  }
}
