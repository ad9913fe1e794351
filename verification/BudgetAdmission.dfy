/** When a preflight is admitted, how much it grants and how much of a grant is kept for unknown
    attempts, stated on the records and the request (src/aep/execution_budgets.py:397-522,
    816-1012, 1233-1305). */
module BudgetAdmission {
  import opened Wrappers
  import opened Money
  import opened BudgetLedger
  import opened BudgetGrants

  // ---------------------------------------------------------------- admission

  predicate HasRoom(limit: Option<int>, used: int, held: int, more: int) {
    limit.Some? ==> used + held + more <= limit.value
  }

  /** One scope admits one more attempt with one output token. */
  predicate Admits(limits: Limits, r: Record, request: Request, pricing: Option<Pricing>) {
    && r.sticky.None?
    && HasRoom(limits.invocations, r.used.invocations, r.held.invocations, 1)
    && HasRoom(limits.input, r.used.input, r.held.input, request.Estimate())
    && HasRoom(limits.output, r.used.output, r.held.output, 1)
    && (limits.elapsed.Some? ==>
          r.elapsed < limits.elapsed.value && request.now - r.startedAt < limits.elapsed.value && 0 < limits.elapsed.value)
    && (limits.cost.Some? ==>
          && pricing.Some?
          && (r.used.cost + r.held.cost + HalfEven(Price(pricing.value, request.Estimate(), 1))) as real
             <= limits.cost.value)
  }

  /** Its money, rounded, pays for the whole grant. */
  predicate Pays(limits: Limits, r: Record, cost: int) {
    limits.cost.Some? ==> cost <= HalfEven(limits.cost.value - (r.used.cost + r.held.cost) as real)
  }

  lemma CheckedScopeAdmits(s: ScopeName, limits: Limits, r: Record, request: Request, pricing: Option<Pricing>)
    ensures CheckScope(s, limits, r, request.Estimate(), request.now, pricing).None?
       <==> Admits(limits, r, request, pricing)
  {
    hide EstimateCost, HalfEven;
    if pricing.Some? { EstimateIsRoundedPrice(pricing.value, request.Estimate(), 1); }
  }

  /** A preflight is admitted exactly when every scope admits one more attempt and its money pays
      for the whole grant. */
  lemma AdmittedExactly(b: Binding, state: PerScope<Record>, request: Request)
    ensures
      var every := forall s: ScopeName :: Admits(b.limits.At(s), state.At(s), request, b.pricing);
      && (every ==> FitsOneAttempt(MinimumRoom(b.limits, state), request.Estimate()))
      && (Verdict(b, state, request).Ok? <==>
            && every
            && forall s: ScopeName :: Pays(b.limits.At(s), state.At(s),
                                           Plan(MinimumRoom(b.limits, state), b.pricing, request).hold.cost))
  {
    hide CheckScope, Admits, Plan, HalfEven;
    forall s: ScopeName {
      CheckedScopeAdmits(s, b.limits.At(s), state.At(s), request, b.pricing);
    }
    var refusal := Evaluate(b.limits, state, request.Estimate(), request.now, b.pricing);
    assert refusal.None? <==>
      && Admits(b.limits.At(WorkflowScope), state.At(WorkflowScope), request, b.pricing)
      && Admits(b.limits.At(TaskScope), state.At(TaskScope), request, b.pricing)
      && Admits(b.limits.At(AgentScope), state.At(AgentScope), request, b.pricing);
    if refusal.None? {
      AdmittedFitsOneAttempt(b, state, request);
      var cost := Plan(MinimumRoom(b.limits, state), b.pricing, request).hold.cost;
      forall s: ScopeName
        ensures Pays(b.limits.At(s), state.At(s), cost) <==> !ShortIn(b.limits.At(s), state.At(s), cost)
      {
      }
      assert ShortOfMoney(b.limits, state, cost).None? <==>
        && Pays(b.limits.At(WorkflowScope), state.At(WorkflowScope), cost)
        && Pays(b.limits.At(TaskScope), state.At(TaskScope), cost)
        && Pays(b.limits.At(AgentScope), state.At(AgentScope), cost);
    }
  }

  /** What has been consumed and is held of one limited resource, and its limit. */
  ghost predicate Exhausts(d: Decision, limits: Limits, r: Record, request: Request) {
    var elapsed := Max(r.elapsed, Max(0, request.now - r.startedAt));
    match d.field
    case MaxModelInvocations =>
      && limits.invocations.Some? && d.held == r.held.invocations && d.consumed == r.used.invocations + d.held
      && d.required == 1 && limits.invocations.value < d.consumed + d.required
    case MaxInputTokens =>
      && limits.input.Some? && d.held == r.held.input && d.consumed == r.used.input + d.held
      && d.required == request.Estimate() && limits.input.value < d.consumed + d.required
    case MaxOutputTokens =>
      && limits.output.Some? && d.held == r.held.output && d.consumed == r.used.output + d.held
      && d.required == 1 && limits.output.value < d.consumed + d.required
    case MaxElapsedMs =>
      && limits.elapsed.Some? && d.held == 0 && d.consumed == elapsed
      && d.required == 1 && limits.elapsed.value < d.consumed + d.required
    case MaxCostUsd =>
      && limits.cost.Some? && d.held == r.held.cost && d.consumed == r.used.cost + d.held
      && (limits.cost.value < (d.consumed + d.required) as real
          || HalfEven(limits.cost.value - d.consumed as real) < d.required)
  }

  /** A refusal names a scope that really refuses: it was closed before, it has a monetary limit
      and there are no prices, or the named limit cannot bear what is required. */
  ghost predicate Explains(d: Decision, s: ScopeName, limits: Limits, r: Record, request: Request,
                           pricing: Option<Pricing>)
  {
    || r.sticky == Some(d)
    || (d.scope == s && !d.sticky && d.decidedAt == request.now && d.reason == CostUnavailable
        && d.field == MaxCostUsd && limits.cost.Some? && pricing.None?)
    || (d.scope == s && !d.sticky && d.decidedAt == request.now && d.reason == Exhausted
        && Exhausts(d, limits, r, request))
  }

  predicate Before(a: ScopeName, b: ScopeName) {
    (a.WorkflowScope? && !b.WorkflowScope?) || (a.TaskScope? && b.AgentScope?)
  }

  lemma CheckedScopeExplains(s: ScopeName, limits: Limits, r: Record, request: Request, pricing: Option<Pricing>)
    ensures
      var refusal := CheckScope(s, limits, r, request.Estimate(), request.now, pricing);
      refusal.Some? ==> Explains(refusal.value, s, limits, r, request, pricing)
  {
    hide EstimateCost, HalfEven;
  }

  /** The refusal of a grant that costs more than the money of scope `s`, rounded. */
  lemma ShortIsExplained(s: ScopeName, limits: Limits, r: Record, cost: int, request: Request, pricing: Option<Pricing>)
    requires ShortIn(limits, r, cost)
    ensures Explains(Decision(Exhausted, MaxCostUsd, s, r.Total().cost, r.held.cost, cost, false, request.now),
                     s, limits, r, request, pricing)
  {
    hide HalfEven;
  }

  /** Every refusal is explained by a scope, and no scope asked before that one refuses an attempt. */
  lemma RefusalIsExplained(b: Binding, state: PerScope<Record>, request: Request)
    requires Verdict(b, state, request).Err?
    ensures exists s: ScopeName ::
      && Explains(Verdict(b, state, request).error, s, b.limits.At(s), state.At(s), request, b.pricing)
      && forall t: ScopeName | Before(t, s) :: Admits(b.limits.At(t), state.At(t), request, b.pricing)
  {
    hide CheckScope, Admits, Plan, HalfEven, Explains;
    forall s: ScopeName
      ensures CheckScope(s, b.limits.At(s), state.At(s), request.Estimate(), request.now, b.pricing).None?
         <==> Admits(b.limits.At(s), state.At(s), request, b.pricing)
    {
      CheckedScopeAdmits(s, b.limits.At(s), state.At(s), request, b.pricing);
    }
    var refusal := Evaluate(b.limits, state, request.Estimate(), request.now, b.pricing);
    var d := Verdict(b, state, request).error;
    if refusal.None? {
      AdmittedFitsOneAttempt(b, state, request);
      var cost := Plan(MinimumRoom(b.limits, state), b.pricing, request).hold.cost;
      var s := ShortOfMoney(b.limits, state, cost).value;
      ShortIsExplained(s, b.limits.At(s), state.At(s), cost, request, b.pricing);
      assert forall t: ScopeName :: Admits(b.limits.At(t), state.At(t), request, b.pricing);
    } else {
      var limits := b.limits;
      var s :=
        if CheckScope(WorkflowScope, limits.workflow, state.workflow, request.Estimate(), request.now, b.pricing).Some?
        then WorkflowScope
        else if CheckScope(TaskScope, limits.task, state.task, request.Estimate(), request.now, b.pricing).Some?
        then TaskScope
        else AgentScope;
      CheckedScopeExplains(s, limits.At(s), state.At(s), request, b.pricing);
      assert Some(d) == CheckScope(s, limits.At(s), state.At(s), request.Estimate(), request.now, b.pricing);
    }
  }

  // ---------------------------------------------------------------- the size of a grant

  function Asked(room: Room, request: Request): int {
    if request.attempts.Some? then Max(1, request.attempts.value)
    else if room.invocations.Some? then room.invocations.value
    else 1
  }

  /** The caller asks for so many attempts, and the limits other than money bear them. */
  predicate Bears(room: Room, request: Request, attempts: int) {
    && attempts <= Asked(room, request)
    && (room.invocations.Some? ==> attempts <= room.invocations.value)
    && (room.input.Some? ==> attempts * request.Estimate() <= room.input.value)
    && (room.output.Some? ==> attempts <= room.output.value)
  }

  lemma NoMoreThanQuotient(n: int, each: int, total: int)
    requires 1 <= each && n * each <= total
    ensures n <= total / each
  {
    var q := total / each;
    if q < n { Scale(each, q + 1, n); }
  }

  lemma BelowQuotient(n: int, each: int, total: int)
    requires 1 <= each && total / each < n
    ensures total < n * each
  {
    Scale(each, total / each + 1, n);
  }

  lemma FirstIsLargest(room: Room, request: Request)
    requires FitsOneAttempt(room, request.Estimate())
    ensures Bears(room, request, FirstAttemptLimit(room, request))
    ensures forall n | Bears(room, request, n) :: n <= FirstAttemptLimit(room, request)
  {
    forall n | Bears(room, request, n) ensures n <= FirstAttemptLimit(room, request) {
      if room.input.Some? { NoMoreThanQuotient(n, request.Estimate(), room.input.value); }
    }
  }

  /** The share of one attempt is the most that as many attempts can each have of the output left,
      up to what the caller configured. */
  ghost predicate IsLargestShare(configured: Option<nat>, left: int, attempts: int, tokens: int) {
    && 1 <= tokens && attempts * tokens <= left && Allowed(configured, tokens)
    && (forall n: int | Allowed(configured, n) && n * attempts <= left :: n <= tokens)
  }

  predicate Allowed(configured: Option<nat>, tokens: int) {
    configured.Some? && configured.value != 0 ==> tokens <= configured.value
  }

  lemma ShareIsLargest(configured: Option<nat>, left: int, attempts: int)
    requires 1 <= attempts <= left
    ensures IsLargestShare(configured, left, attempts, OutputShare(configured, left, attempts))
  {
    forall n: int | n * attempts <= left ensures n <= left / attempts {
      NoMoreThanQuotient(n, attempts, left);
    }
  }

  lemma FewerShareMore(configured: Option<nat>, left: int, fewer: int, attempts: int)
    requires 1 <= fewer <= attempts <= left
    ensures OutputShare(configured, left, attempts) <= OutputShare(configured, left, fewer)
  {
    var most := left / attempts;
    Scale(most, fewer, attempts);
    NoMoreThanQuotient(most, fewer, left);
  }

  /** Output tokens of each of `n` attempts. */
  function ShareAt(room: Room, request: Request, unlimited: Option<int>, n: int): Option<int>
    requires 1 <= n && (room.output.Some? ==> n <= room.output.value)
  {
    if room.output.Some? then Some(OutputShare(request.outputLimit, room.output.value, n)) else unlimited
  }

  /** The rounded price of one of `n` attempts. */
  function PriceAt(room: Room, pricing: Pricing, request: Request, unlimited: Option<int>, n: int): int
    requires 1 <= n && (room.output.Some? ==> n <= room.output.value)
  {
    HalfEven(Price(pricing, request.Estimate(), OrOne(ShareAt(room, request, unlimited, n))))
  }

  predicate Payable(room: Room, pricing: Option<Pricing>, request: Request, unlimited: Option<int>, n: int)
    requires 1 <= n && (room.output.Some? ==> n <= room.output.value)
  {
    room.cost.Some? && pricing.Some? ==>
      var price := PriceAt(room, pricing.value, request, unlimited, n);
      0 < price ==> n * price <= room.cost.value
  }

  lemma ScaledOrder(x: real, y: real, k: real)
    requires 0.0 <= k && x <= y
    ensures x * k <= y * k
  {
    assert y * k - x * k == (y - x) * k;
  }

  lemma PriceGrows(pricing: Pricing, input: int, less: int, more: int)
    requires pricing.Valid() && less <= more
    ensures Price(pricing, input, less) <= Price(pricing, input, more)
  {
    ScaledOrder(less as real, more as real, pricing.output);
  }

  lemma MoreOutputCostsMore(pricing: Pricing, input: int, less: int, more: int)
    requires pricing.Valid() && less <= more
    ensures EstimateCost(pricing, input, less) <= EstimateCost(pricing, input, more)
  {
    EstimateIsRoundedPrice(pricing, input, less);
    EstimateIsRoundedPrice(pricing, input, more);
    PriceGrows(pricing, input, less, more);
    HalfEvenMonotone(Price(pricing, input, less), Price(pricing, input, more));
  }

  /** An attempt is given up only if so many attempts could not be paid. */
  lemma GivenUpIsUnpayable(room: Room, pricing: Option<Pricing>, request: Request, unlimited: Option<int>,
                           n: int, attempts: int)
    requires room.cost.Some? && pricing.Some? && pricing.value.Valid()
    requires 1 <= n <= attempts && (room.output.Some? ==> attempts <= room.output.value)
    requires
      var minimum := EstimateCost(pricing.value, request.Estimate(),
                                  OrOne(ShareAt(room, request, unlimited, attempts)));
      1 <= minimum && room.cost.value / minimum < n
    ensures !Payable(room, pricing, request, unlimited, n)
  {
    hide EstimateCost, OutputShare, HalfEven;
    var here, there := OrOne(ShareAt(room, request, unlimited, attempts)), OrOne(ShareAt(room, request, unlimited, n));
    if room.output.Some? { FewerShareMore(request.outputLimit, room.output.value, n, attempts); }
    MoreOutputCostsMore(pricing.value, request.Estimate(), here, there);
    EstimateIsRoundedPrice(pricing.value, request.Estimate(), there);
    var minimum := EstimateCost(pricing.value, request.Estimate(), here);
    BelowQuotient(n, minimum, room.cost.value);
    Scale(n, minimum, EstimateCost(pricing.value, request.Estimate(), there));
  }

  /** The repair loop gives up exactly what it must: no attempt that could be paid, and all that
      cannot, as far as its rounds go. */
  lemma {:induction false} RepairGivesUpUnpayable(rounds: nat, room: Room, pricing: Option<Pricing>, request: Request,
                                                  attempts: int, unlimited: Option<int>)
    requires 1 <= attempts && (room.output.Some? ==> attempts <= room.output.value)
    requires pricing.Some? ==> pricing.value.Valid()
    ensures
      var tokens := ShareAt(room, request, unlimited, attempts);
      var repaired := Repair(rounds, room, pricing, request, attempts, tokens);
      && repaired.1 == ShareAt(room, request, unlimited, repaired.0)
      && (forall n | repaired.0 < n <= attempts :: !Payable(room, pricing, request, unlimited, n))
      && (|| Payable(room, pricing, request, unlimited, repaired.0)
          || repaired.0 == 1
          || repaired.0 + rounds <= attempts)
    decreases rounds
  {
    hide OutputShare, EstimateCost, HalfEven, Payable;
    var tokens := ShareAt(room, request, unlimited, attempts);
    if rounds != 0 && room.cost.Some? && pricing.Some? {
      var minimum := EstimateCost(pricing.value, request.Estimate(), OrOne(tokens));
      PaidExactly(room, pricing, request, unlimited, attempts);
      if 0 < minimum && room.cost.value / minimum < attempts {
        var fewer := Max(1, room.cost.value / minimum);
        forall n | fewer < n <= attempts ensures !Payable(room, pricing, request, unlimited, n) {
          GivenUpIsUnpayable(room, pricing, request, unlimited, n, attempts);
        }
        RepairGivesUpUnpayable(rounds - 1, room, pricing, request, fewer, unlimited);
      }
    } else if room.cost.None? || pricing.None? {
      NothingToPay(room, pricing, request, unlimited, attempts);
    }
  }

  lemma NothingToPay(room: Room, pricing: Option<Pricing>, request: Request, unlimited: Option<int>, attempts: int)
    requires 1 <= attempts && (room.output.Some? ==> attempts <= room.output.value)
    requires room.cost.None? || pricing.None?
    ensures Payable(room, pricing, request, unlimited, attempts)
  {
  }

  lemma PaidExactly(room: Room, pricing: Option<Pricing>, request: Request, unlimited: Option<int>, attempts: int)
    requires room.cost.Some? && pricing.Some?
    requires 1 <= attempts && (room.output.Some? ==> attempts <= room.output.value)
    ensures
      var minimum := EstimateCost(pricing.value, request.Estimate(),
                                  OrOne(ShareAt(room, request, unlimited, attempts)));
      Payable(room, pricing, request, unlimited, attempts) <==>
        minimum <= 0 || attempts <= room.cost.value / minimum
  {
    hide EstimateCost, OutputShare, HalfEven;
    var tokens := OrOne(ShareAt(room, request, unlimited, attempts));
    EstimateIsRoundedPrice(pricing.value, request.Estimate(), tokens);
    var minimum := EstimateCost(pricing.value, request.Estimate(), tokens);
    if 0 < minimum {
      if attempts <= room.cost.value / minimum {
        Scale(minimum, attempts, room.cost.value / minimum);
      } else {
        BelowQuotient(attempts, minimum, room.cost.value);
      }
    }
  }

  /** The output tokens the money left buys for each attempt: the most whose price fits when it is
      shared by all attempts, and none if one token does not. */
  lemma PricedOutputIsLargest(room: Room, pricing: Option<Pricing>, estimated: int, attempts: int)
    requires 1 <= attempts
    requires room.output.None? && room.cost.Some? && pricing.Some? && 0.0 < pricing.value.output
    ensures
      var tokens := PricedOutput(room, pricing, estimated, attempts);
      && (tokens.None? <==> room.cost.value as real < attempts as real * Price(pricing.value, estimated, 1))
      && (tokens.Some? ==>
            attempts as real * Price(pricing.value, estimated, tokens.value) <= room.cost.value as real
              < attempts as real * Price(pricing.value, estimated, tokens.value + 1))
  {
    hide Price, OutputMoney;
    var price, rest := pricing.value.output, OutputMoney(pricing.value, room.cost.value, estimated, attempts);
    var tokens := Affordable(rest, price);
    PriceFits(pricing.value, estimated, attempts, room.cost.value, 1);
    PriceFits(pricing.value, estimated, attempts, room.cost.value, tokens);
    PriceFits(pricing.value, estimated, attempts, room.cost.value, tokens + 1);
    if price <= rest {
      if tokens < 1 { RealScale((tokens + 1) as real, 1.0, price); }
      assert PricedOutput(room, pricing, estimated, attempts) == Some(tokens);
    }
  }

  lemma PriceFits(pricing: Pricing, estimated: int, attempts: int, cost: int, tokens: int)
    requires 1 <= attempts
    ensures attempts as real * Price(pricing, estimated, tokens) <= cost as real
       <==> tokens as real * pricing.output <= OutputMoney(pricing, cost, estimated, attempts)
  {
    var n := attempts as real;
    var share := cost as real / n;
    assert share * n == cost as real;
    RealScale(Price(pricing, estimated, tokens), share, n);
  }

  /** What each attempt may put out when no scope limits output: what the caller configured, or
      what the money left buys for as many attempts as are first considered. */
  function Unlimited(room: Room, pricing: Option<Pricing>, request: Request): Option<int>
    requires FitsOneAttempt(room, request.Estimate())
  {
    if request.outputLimit.Some? then Some(request.outputLimit.value)
    else PricedOutput(room, pricing, request.Estimate(), FirstAttemptLimit(room, request))
  }

  /** The plan grants the most attempts that the caller asks for and the limits bear, giving up only
      attempts that could not be paid, and as many as it must as far as its rounds go; each attempt
      has the largest share of the output left. */
  lemma PlanIsLargest(room: Room, pricing: Option<Pricing>, request: Request)
    requires FitsOneAttempt(room, request.Estimate())
    requires pricing.Some? ==> pricing.value.Valid()
    ensures
      var unlimited, grant := Unlimited(room, pricing, request), Plan(room, pricing, request);
      && 1 <= grant.attempts && Bears(room, request, grant.attempts)
      && (forall n | grant.attempts < n && Bears(room, request, n) :: !Payable(room, pricing, request, unlimited, n))
      && (|| Payable(room, pricing, request, unlimited, grant.attempts)
          || grant.attempts == 1
          || exists n | grant.attempts + REPAIR_ROUNDS <= n :: Bears(room, request, n))
      && (room.output.None? ==> grant.perAttemptOutput == unlimited)
      && (room.output.Some? ==>
            && grant.perAttemptOutput.Some?
            && IsLargestShare(request.outputLimit, room.output.value, grant.attempts, grant.perAttemptOutput.value))
  {
    hide OutputShare, EstimateCost, HalfEven, Payable, PricedOutput, HoldFor, FirstAttemptLimit;
    var first, unlimited := FirstAttemptLimit(room, request), Unlimited(room, pricing, request);
    FirstIsLargest(room, request);
    var tokens := ShareAt(room, request, unlimited, first);
    assert FirstOutput(room, pricing, request, first) == tokens;
    RepairGivesUpUnpayable(REPAIR_ROUNDS, room, pricing, request, first, unlimited);
    var repaired := Repair(REPAIR_ROUNDS, room, pricing, request, first, tokens);
    var grant := Plan(room, pricing, request);
    assert grant.attempts == repaired.0 && grant.perAttemptOutput == repaired.1;
    FewerAreBorne(room, request, repaired.0, first);
    if room.output.Some? { ShareIsLargest(request.outputLimit, room.output.value, repaired.0); }
  }

  lemma FewerAreBorne(room: Room, request: Request, fewer: int, attempts: int)
    requires 1 <= fewer <= attempts && Bears(room, request, attempts)
    ensures Bears(room, request, fewer)
  {
    Scale(request.Estimate(), fewer, attempts);
  }

  /** The hold is the price of all its attempts together. */
  lemma PlanIsPriced(room: Room, pricing: Option<Pricing>, request: Request)
    requires FitsOneAttempt(room, request.Estimate())
    ensures
      var grant := Plan(room, pricing, request);
      grant.hold.cost == if pricing.None? then 0
                         else HalfEven(Price(pricing.value, grant.attempts * request.Estimate(),
                                             grant.attempts * OrOne(grant.perAttemptOutput)))
  {
    hide Repair, EstimateCost, HalfEven, FirstAttemptLimit, FirstOutput;
    var grant := Plan(room, pricing, request);
    PlanFits(room, pricing, request);
    if pricing.Some? {
      EstimateIsRoundedPrice(pricing.value, grant.hold.input, grant.attempts * OrOne(grant.perAttemptOutput));
    }
  }

  // ---------------------------------------------------------------- retained for unknown attempts

  /** Of a grant, a settlement keeps the input and output of each attempt whose spend is unknown, and
      their part of the money up to half a quantum. */
  lemma RetainedIsPerAttempt(room: Room, pricing: Option<Pricing>, request: Request, unreconciled: nat)
    requires FitsOneAttempt(room, request.Estimate())
    ensures
      var grant := Plan(room, pricing, request);
      var kept, unknown := Retained(grant.hold, unreconciled), Min(unreconciled, grant.attempts);
      && kept.invocations == 0
      && kept.input == unknown * request.Estimate()
      && kept.output == (if room.output.Some? then unknown * grant.perAttemptOutput.value else 0)
      && -grant.attempts <= 2 * (kept.cost * grant.attempts - grant.hold.cost * unknown) <= grant.attempts
  {
    hide Plan, Retained;
    var grant := Plan(room, pricing, request);
    PlanFits(room, pricing, request);
    var output := if room.output.Some? then grant.perAttemptOutput.value else 0;
    assert grant.hold == Usage(grant.attempts, grant.attempts * request.Estimate(), grant.attempts * output,
                               grant.hold.cost);
    PartOf(grant.attempts, request.Estimate(), output, grant.hold.cost, unreconciled);
  }

  lemma PartOf(granted: int, input: int, output: int, cost: int, unreconciled: nat)
    requires 1 <= granted && 0 <= input && 0 <= output
    ensures
      var kept, unknown := Retained(Usage(granted, granted * input, granted * output, cost), unreconciled),
                           Min(unreconciled, granted);
      && kept.invocations == 0 && kept.input == unknown * input && kept.output == unknown * output
      && -granted <= 2 * (kept.cost * granted - cost * unknown) <= granted
  {
    hide Portion;
    var unknown := Min(unreconciled, granted);
    var kept := Retained(Usage(granted, granted * input, granted * output, cost), unreconciled);
    Quotient(granted, input);
    Quotient(granted, output);
  }

  /** Nothing is kept of the reservation that a settlement without one assumes. */
  lemma AssumedKeepsNothing(unreconciled: nat)
    ensures Retained(ASSUMED, unreconciled) == NOTHING
  {
    HalfEvenIsUnique(0.0, 0);
  }
}
