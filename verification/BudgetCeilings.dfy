/** Declared limits over whole runs of the ledger: which of them can ever be passed, and by how
    much (src/aep/execution_budgets.py:437-472, 849-1012, 1233-1305). */
module BudgetCeilings {
  import opened Wrappers
  import opened Money
  import opened BudgetLedger
  import opened BudgetRuns

  predicate AtMost(limit: Option<int>, total: int) { limit.Some? ==> total <= limit.value }

  predicate WithinCounts(limits: Limits, total: Usage) {
    && AtMost(limits.invocations, total.invocations)
    && AtMost(limits.input, total.input)
    && AtMost(limits.output, total.output)
  }

  /** A limit that is less than half a quantum above a whole number of quanta, or half a quantum
      itself.  Every whole number of quanta is one. */
  predicate RoundsDown(limit: real) { limit - limit.Floor as real < 0.5 || limit == 0.5 }

  /** Money may pass a limit only by the rounding of its last quantum. */
  predicate WithinCost(limit: Option<real>, cost: int) {
    limit.Some? ==>
      && cost <= limit.value.Floor + 1
      && (RoundsDown(limit.value) ==> cost <= limit.value.Floor)
  }

  predicate Within(limits: Limits, total: Usage) {
    WithinCounts(limits, total) && WithinCost(limits.cost, total.cost)
  }

  /** A record that is not flagged `overrun` is within its limits. */
  predicate Honest(limits: Limits, r: Record) {
    && r.held.Covers(NOTHING) && 0 <= r.used.cost
    && (!r.overrun ==> Within(limits, r.Total()))
  }

  ghost predicate HonestAt(ledger: Ledger, b: Binding, s: ScopeName) {
    var a := b.Accounts().At(s);
    a in ledger ==> Honest(b.limits.At(s), ledger[a])
  }

  ghost predicate AllHonest(sys: System) {
    forall h, s: ScopeName | h in sys.holders :: HonestAt(sys.ledger, h.binding, s)
  }

  /** Limits are positive when declared. */
  ghost predicate Positive(b: Binding) {
    forall s: ScopeName :: Within(b.limits.At(s), NOTHING)
  }

  ghost predicate Sound(sys: System) {
    && Proper(sys) && WellBound(sys) && AllHonest(sys)
    && (forall h | h in sys.holders :: Positive(h.binding))
  }

  // ---------------------------------------------------------------- one admission

  lemma RoomBounds(limits: PerScope<Limits>, state: PerScope<Record>, s: ScopeName)
    ensures
      var least, own := MinimumRoom(limits, state), RoomIn(limits.At(s), state.At(s));
      && NoMoreThan(least.invocations, own.invocations)
      && NoMoreThan(least.input, own.input)
      && NoMoreThan(least.output, own.output)
  {
    hide RemainingCost;
  }

  predicate NoMoreThan(least: Option<int>, own: Option<int>) {
    own.Some? ==> least.Some? && least.value <= own.value
  }

  /** An admitted grant leaves every scope within its invocation and token limits. */
  lemma AdmissionFitsCounts(b: Binding, state: PerScope<Record>, request: Request, s: ScopeName)
    requires Verdict(b, state, request).Ok?
    ensures WithinCounts(b.limits.At(s), state.At(s).Total().Plus(Verdict(b, state, request).value.hold))
  {
    hide Plan, Evaluate, MinimumRoom, RemainingCost;
    AdmittedFitsOneAttempt(b, state, request);
    PlanFits(MinimumRoom(b.limits, state), b.pricing, request);
    RoomBounds(b.limits, state, s);
  }

  /** And within its money, up to the rounding of the last quantum. */
  lemma AdmissionFits(b: Binding, state: PerScope<Record>, request: Request, s: ScopeName)
    requires Verdict(b, state, request).Ok?
    requires 0 <= state.At(s).Total().cost && (b.pricing.Some? ==> b.pricing.value.Valid())
    ensures Within(b.limits.At(s), state.At(s).Total().Plus(Verdict(b, state, request).value.hold))
  {
    hide Plan, Evaluate, MinimumRoom, RemainingCost;
    AdmissionFitsCounts(b, state, request, s);
    var hold := Verdict(b, state, request).value.hold;
    assert !ShortIn(b.limits.At(s), state.At(s), hold.cost);
    if b.limits.At(s).cost.Some? {
      var limit, charged := b.limits.At(s).cost.value, state.At(s).Total().cost;
      RemainingCostOvershoot(limit, charged);
      AdmittedHasMoney(b, state, request, s);
      if limit == 0.5 { assert charged == 0; }
    }
  }

  /** No scope is asked for more when its money is already spent. */
  lemma AdmittedHasMoney(b: Binding, state: PerScope<Record>, request: Request, s: ScopeName)
    requires Evaluate(b.limits, state, request.Estimate(), request.now, b.pricing).None?
    requires b.limits.At(s).cost.Some? && (b.pricing.Some? ==> b.pricing.value.Valid())
    ensures state.At(s).Total().cost as real <= b.limits.At(s).cost.value
  {
    hide EstimateCost;
    assert CheckScope(s, b.limits.At(s), state.At(s), request.Estimate(), request.now, b.pricing).None?;
    EstimateCostNonNegative(b.pricing.value, request.Estimate(), 1);
  }

  lemma WithinIsDownward(limits: Limits, more: Usage, less: Usage)
    requires Within(limits, more) && more.Covers(less)
    ensures Within(limits, less)
  {
  }

  lemma NotOverIsWithin(limits: Limits, total: Usage)
    requires !OverLimit(limits, total)
    ensures Within(limits, total)
  {
    if limits.cost.Some? {
      var limit := limits.cost.value;
      assert total.cost as real <= limit < limit.Floor as real + 1.0;
      assert total.cost <= limit.Floor;
    }
  }

  /** One operation on the loaded record of one scope. */
  lemma SettledIsHonest(scope: ScopeName, limits: Limits, r: Record, reservation: Usage, charge: Charge,
                        pricing: Option<Pricing>)
    requires r.held.Covers(NOTHING) && reservation.Covers(NOTHING) && 0 <= r.used.cost
    requires pricing.Some? ==> pricing.value.Valid()
    ensures Honest(limits, SettleRecord(scope, limits, r, reservation, charge, pricing))
  {
    hide Retained, OverLimit, CostEvidence, Within;
    RetainedIsNonNegative(reservation, charge.unreconciled);
    UsedMoneyGrows(r.used.cost, charge, pricing);
    var after := SettleRecord(scope, limits, r, reservation, charge, pricing);
    if !after.overrun { NotOverIsWithin(limits, after.Total()); }
  }

  lemma UsedMoneyGrows(used: int, charge: Charge, pricing: Option<Pricing>)
    requires 0 <= used && (pricing.Some? ==> pricing.value.Valid())
    ensures CostEvidence(charge, pricing).1.Some? ==>
              0 <= HalfEven(used as real + CostEvidence(charge, pricing).1.value)
  {
    hide EstimateCost;
    var cost := CostEvidence(charge, pricing).1;
    if cost.Some? {
      if charge.cost.None? { EstimateCostNonNegative(pricing.value, charge.input, charge.output); }
      HalfEvenMonotone(0.0, used as real + cost.value);
    }
  }

  lemma ReleasedIsHonest(limits: Limits, r: Record, hold: Usage)
    requires Honest(limits, r) && hold.Covers(NOTHING)
    ensures Honest(limits, HoldLess(r, hold))
  {
    hide Within;
    if !r.overrun { WithinIsDownward(limits, r.Total(), HoldLess(r, hold).Total()); }
  }

  // ---------------------------------------------------------------- one step

  lemma LoadedIsHonest(sys: System, h: Holder, s: ScopeName)
    requires Sound(sys) && h in sys.holders
    ensures Honest(h.binding.limits.At(s), LoadState(sys.ledger, h.binding).At(s))
  {
    hide Within, Honest, WellBound, Proper;
    assert HonestAt(sys.ledger, h.binding, s);
    assert Positive(h.binding);
    assert Within(h.binding.limits.At(s), NOTHING);
    FreshIsHonest(h.binding.limits.At(s), h.binding.workflowStartedAt);
    FreshIsHonest(h.binding.limits.At(s), h.binding.taskStartedAt);
  }

  lemma FreshIsHonest(limits: Limits, startedAt: int)
    requires Within(limits, NOTHING)
    ensures Honest(limits, Fresh(startedAt))
  {
    hide Within;
    assert Fresh(startedAt).Total() == NOTHING;
  }

  lemma PreflightIsHonest(sys: System, h: Holder, request: Request, s: ScopeName)
    requires Sound(sys) && h in sys.holders
    ensures HonestAt(Preflight(sys.ledger, h.binding, request).0, h.binding, s)
  {
    hide Verdict, Within, LoadState;
    var state := LoadState(sys.ledger, h.binding);
    LoadedIsHonest(sys, h, s);
    var verdict := Verdict(h.binding, state, request);
    assert verdict == Preflight(sys.ledger, h.binding, request).1;
    if verdict.Ok? {
      VerdictIsProper(h.binding, sys.ledger, request);
      AdmissionFits(h.binding, state, request, s);
      var r := HoldMore(state.At(s), verdict.value.hold);
      assert r.Total() == state.At(s).Total().Plus(verdict.value.hold);
      assert Honest(h.binding.limits.At(s), r);
    }
  }

  lemma RecordIsHonest(sys: System, h: Holder, charge: Charge, s: ScopeName)
    requires Sound(sys) && h in sys.holders
    ensures HonestAt(Settle(sys.ledger, h.binding, h.open, charge), h.binding, s)
  {
    hide SettleRecord, Honest, LoadState;
    var state := LoadState(sys.ledger, h.binding);
    LoadedIsHonest(sys, h, s);
    HonestHoldsNothingNegative(h.binding.limits.At(s), state.At(s));
    SettledIsHonest(s, h.binding.limits.At(s), state.At(s), Reserved(h.open), charge, h.binding.pricing);
  }

  lemma HonestHoldsNothingNegative(limits: Limits, r: Record)
    requires Honest(limits, r)
    ensures r.held.Covers(NOTHING) && 0 <= r.used.cost
  {
  }

  lemma ReleaseIsHonest(sys: System, h: Holder, s: ScopeName)
    requires Sound(sys) && h in sys.holders
    ensures HonestAt(Release(sys.ledger, h.binding, h.open), h.binding, s)
  {
    hide Honest, LoadState, HoldLess;
    LoadedIsHonest(sys, h, s);
    if h.open.Some? {
      ReleasedIsHonest(h.binding.limits.At(s), LoadState(sys.ledger, h.binding).At(s), h.open.value);
    } else {
      assert HonestAt(sys.ledger, h.binding, s);
    }
  }

  lemma OthersStayHonest(sys: System, h: Holder, ledger: Ledger, other: Holder, s: ScopeName)
    requires Sound(sys) && h in sys.holders && other in sys.holders
    requires HonestAt(ledger, h.binding, s)
    requires forall a: Account :: !h.binding.Charges(a) ==>
               (a in ledger <==> a in sys.ledger) && (a in ledger ==> ledger[a] == sys.ledger[a])
    ensures HonestAt(ledger, other.binding, s)
  {
    hide Honest;
    if !h.binding.Charges(other.binding.Accounts().At(s)) {
      assert HonestAt(sys.ledger, other.binding, s);
    }
  }

  lemma StepTouchesOwnAccounts(sys: System, op: Op, a: Account)
    requires op.In(sys) && !sys.holders[op.who].binding.Charges(a)
    ensures a in Step(sys, op).ledger <==> a in sys.ledger
    ensures a in sys.ledger ==> Step(sys, op).ledger[a] == sys.ledger[a]
  {
    hide Verdict, SettleRecord, Retained, LoadState;
  }

  lemma StepKeepsSound(sys: System, op: Op)
    requires Sound(sys)
    ensures Sound(Step(sys, op))
  {
    hide Preflight, Settle, Release, Retained, Honest, Positive, Proper, WellBound;
    SoundParts(sys);
    StepKeepsProper(sys, op);
    StepKeepsBindings(sys, op);
    if op.In(sys) {
      var h, after := sys.holders[op.who], Step(sys, op);
      forall s: ScopeName ensures HonestAt(after.ledger, h.binding, s) {
        match op
        case DoPreflight(_, request) => PreflightIsHonest(sys, h, request, s);
        case DoRecord(_, charge) => RecordIsHonest(sys, h, charge, s);
        case DoRelease(_) => ReleaseIsHonest(sys, h, s);
      }
      forall other, s: ScopeName | other in after.holders ensures HonestAt(after.ledger, other.binding, s) {
        var i :| 0 <= i < |after.holders| && after.holders[i] == other;
        assert sys.holders[i].binding == other.binding;
        forall a: Account | !h.binding.Charges(a)
          ensures a in after.ledger <==> a in sys.ledger
          ensures a in after.ledger ==> after.ledger[a] == sys.ledger[a]
        {
          StepTouchesOwnAccounts(sys, op, a);
        }
        OthersStayHonest(sys, h, after.ledger, sys.holders[i], s);
      }
      forall other | other in after.holders ensures Positive(other.binding) {
        var i :| 0 <= i < |after.holders| && after.holders[i] == other;
        assert sys.holders[i].binding == other.binding;
      }
    }
  }

  lemma SoundParts(sys: System)
    requires Sound(sys)
    ensures Proper(sys) && WellBound(sys)
  {
  }

  /** In every state any run reaches, disciplined or not, a record that is not flagged `overrun`
      has consumed plus reserved within its limits. */
  lemma {:induction false} RunsStayWithinLimits(sys: System, ops: seq<Op>)
    requires Sound(sys)
    ensures Sound(Run(sys, ops))
    decreases |ops|
  {
    hide Step, Sound;
    if ops != [] {
      StepKeepsSound(sys, ops[0]);
      RunsStayWithinLimits(Step(sys, ops[0]), ops[1..]);
    }
  }
}
