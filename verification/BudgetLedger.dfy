/** The execution budget ledger as a value: what one preflight, one settlement and one release
    do to the three consumption records they share (src/aep/execution_budgets.py).  The class
    in BudgetTask.dfy performs the same changes in place. */
module BudgetLedger {
  import opened Wrappers
  import opened Money

  /** Invocations, tokens and money, either consumed or held. */
  datatype Usage = Usage(invocations: int, input: int, output: int, cost: int)
  {
    function Plus(that: Usage): Usage {
      Usage(invocations + that.invocations, input + that.input,
            output + that.output, cost + that.cost)
    }

    /** Subtraction clamped at zero, the `max(0, ...)` of every settlement. */
    function Less(that: Usage): Usage {
      Usage(AtLeastZero(invocations - that.invocations), AtLeastZero(input - that.input),
            AtLeastZero(output - that.output), AtLeastZero(cost - that.cost))
    }

    predicate Covers(that: Usage) {
      && that.invocations <= invocations
      && that.input <= input
      && that.output <= output
      && that.cost <= cost
    }
  }

  const NOTHING := Usage(0, 0, 0, 0)

  function AtLeastZero(n: int): int { if n < 0 then 0 else n }
  function Max(a: int, b: int): int { if a < b then b else a }
  function Min(a: int, b: int): int { if a < b then a else b }

  function MinSome(a: Option<int>, b: Option<int>): Option<int> {
    match (a, b)
    case (None, _) => b
    case (_, None) => a
    case (Some(x), Some(y)) => Some(Min(x, y))
  }

  datatype Field = MaxModelInvocations | MaxInputTokens | MaxOutputTokens | MaxElapsedMs | MaxCostUsd
  datatype ScopeName = WorkflowScope | TaskScope | AgentScope
  datatype Reason = Exhausted | CostUnavailable

  /** The effective limits of one scope; `None` is an undeclared limit. */
  datatype Limits = Limits(invocations: Option<int>, input: Option<int>, output: Option<int>,
                           elapsed: Option<int>, cost: Option<real>)

  const UNLIMITED := Limits(None, None, None, None, None)

  /** One value for each of the three scopes every operation touches. */
  datatype PerScope<T> = PerScope(workflow: T, task: T, agent: T)
  {
    function At(s: ScopeName): T {
      match s
      case WorkflowScope => workflow
      case TaskScope => task
      case AgentScope => agent
    }
  }

  /** A refusal; `required` and `consumed` are in the unit of `field`. */
  datatype Decision = Decision(reason: Reason, field: Field, scope: ScopeName, consumed: int,
                               held: int, required: int, sticky: bool, decidedAt: int)

  /** The consumption record of one scope. */
  datatype Record = Record(used: Usage, held: Usage, elapsed: int, startedAt: int,
                           overrun: bool, sticky: Option<Decision>)
  {
    function Total(): Usage { used.Plus(held) }
  }

  function Fresh(startedAt: int): Record {
    Record(NOTHING, NOTHING, 0, startedAt, false, None)
  }

  /** The durable records, one per Workflow, Task identity and Agent identity. */
  datatype Account = WorkflowAccount | TaskAccount(task: string) | AgentAccount(agent: string)
  type Ledger = map<Account, Record>

  /** What a `TaskBudget` is bound to for its whole life. */
  datatype Binding = Binding(taskKey: string, agentKey: string, limits: PerScope<Limits>,
                             pricing: Option<Pricing>, modelOutputLimit: Option<int>,
                             workflowStartedAt: int, taskStartedAt: int)
  {
    function Accounts(): PerScope<Account> {
      PerScope(WorkflowAccount, TaskAccount(taskKey), AgentAccount(agentKey))
    }

    predicate Charges(a: Account) {
      a == WorkflowAccount || a == TaskAccount(taskKey) || a == AgentAccount(agentKey)
    }
  }

  function LoadRecord(ledger: Ledger, a: Account, startedAt: int): Record {
    if a in ledger then ledger[a] else Fresh(startedAt)
  }

  /** `_load_state`: missing records start from their defaults. */
  function LoadState(ledger: Ledger, b: Binding): PerScope<Record> {
    PerScope(LoadRecord(ledger, WorkflowAccount, b.workflowStartedAt),
             LoadRecord(ledger, TaskAccount(b.taskKey), b.taskStartedAt),
             LoadRecord(ledger, AgentAccount(b.agentKey), b.taskStartedAt))
  }

  /** `_changes_for_state`: the three records replace their old versions, nothing else changes. */
  function StoreState(ledger: Ledger, b: Binding, state: PerScope<Record>): Ledger {
    ledger[WorkflowAccount := state.workflow]
          [TaskAccount(b.taskKey) := state.task]
          [AgentAccount(b.agentKey) := state.agent]
  }

  // ---------------------------------------------------------------- admission

  function ElapsedMs(startedAt: int, now: int): int { AtLeastZero(now - startedAt) }

  predicate Exceeds(limit: Option<int>, total: int) { limit.Some? && limit.value < total }

  /** `_cost_exceeds`. */
  predicate CostExceeds(limit: real, total: int) { limit < total as real }

  /** `_check_scope`: why this scope refuses one more minimal invocation, if it does. */
  function CheckScope(scope: ScopeName, limits: Limits, r: Record, estimated: int, now: int,
                      pricing: Option<Pricing>): (refusal: Option<Decision>)
  {
    var total := r.Total();
    var elapsed := Max(r.elapsed, ElapsedMs(r.startedAt, now));
    if r.sticky.Some? then r.sticky
    else if Exceeds(limits.invocations, total.invocations + 1) then
      Some(Decision(Exhausted, MaxModelInvocations, scope, total.invocations, r.held.invocations, 1, false, now))
    else if Exceeds(limits.input, total.input + estimated) then
      Some(Decision(Exhausted, MaxInputTokens, scope, total.input, r.held.input, estimated, false, now))
    else if Exceeds(limits.output, total.output + 1) then
      Some(Decision(Exhausted, MaxOutputTokens, scope, total.output, r.held.output, 1, false, now))
    else if Exceeds(limits.elapsed, elapsed + 1) then
      Some(Decision(Exhausted, MaxElapsedMs, scope, elapsed, 0, 1, false, now))
    else if limits.cost.None? then None
    else if pricing.None? then
      Some(Decision(CostUnavailable, MaxCostUsd, scope, total.cost, r.held.cost, 0, false, now))
    else
      var minimum := EstimateCost(pricing.value, estimated, 1);
      if CostExceeds(limits.cost.value, total.cost + minimum) then
        Some(Decision(Exhausted, MaxCostUsd, scope, total.cost, r.held.cost, minimum, false, now))
      else None
  }

  /** `_evaluate`: the first scope that refuses decides. */
  function Evaluate(limits: PerScope<Limits>, state: PerScope<Record>, estimated: int, now: int,
                    pricing: Option<Pricing>): Option<Decision>
  {
    var workflow := CheckScope(WorkflowScope, limits.workflow, state.workflow, estimated, now, pricing);
    if workflow.Some? then workflow else
    var task := CheckScope(TaskScope, limits.task, state.task, estimated, now, pricing);
    if task.Some? then task else
    CheckScope(AgentScope, limits.agent, state.agent, estimated, now, pricing)
  }

  function Left(limit: Option<int>, total: int): Option<int> {
    if limit.None? then None else Some(limit.value - total)
  }

  function CostLeft(limit: Option<real>, total: int): Option<int> {
    if limit.None? then None else Some(RemainingCost(limit.value, total))
  }

  /** What every scope still admits, `None` where no scope has a limit (`_minimum_remaining`). */
  datatype Room = Room(invocations: Option<int>, input: Option<int>, output: Option<int>,
                       cost: Option<int>)

  function RoomIn(limits: Limits, r: Record): Room {
    Room(Left(limits.invocations, r.Total().invocations), Left(limits.input, r.Total().input),
         Left(limits.output, r.Total().output), CostLeft(limits.cost, r.Total().cost))
  }

  function Tighter(a: Room, b: Room): Room {
    Room(MinSome(a.invocations, b.invocations), MinSome(a.input, b.input),
         MinSome(a.output, b.output), MinSome(a.cost, b.cost))
  }

  function MinimumRoom(limits: PerScope<Limits>, state: PerScope<Record>): Room {
    Tighter(Tighter(RoomIn(limits.workflow, state.workflow), RoomIn(limits.task, state.task)),
            RoomIn(limits.agent, state.agent))
  }

  /** Enough room for one attempt: what `Evaluate` has established when a plan is made. */
  predicate FitsOneAttempt(room: Room, estimated: int) {
    && 1 <= estimated
    && (room.invocations.Some? ==> 1 <= room.invocations.value)
    && (room.input.Some? ==> estimated <= room.input.value)
    && (room.output.Some? ==> 1 <= room.output.value)
  }

  // ---------------------------------------------------------------- reservation plan

  /** One preflight request. */
  datatype Request = Request(estimated: int, outputLimit: Option<nat>, attempts: Option<int>, now: int)
  {
    /** `max(1, int(estimated_input_tokens))`. */
    function Estimate(): (tokens: int)
      ensures 1 <= tokens
      ensures 1 <= estimated ==> tokens == estimated
    {
      Max(1, estimated)
    }
  }

  /** A provider grant: attempts, output tokens per attempt, and what it holds in every scope. */
  datatype Grant = Grant(attempts: int, perAttemptOutput: Option<int>, hold: Usage)

  /** The attempt limit before any cost repair. */
  function FirstAttemptLimit(room: Room, request: Request): (attempts: int)
    requires FitsOneAttempt(room, request.Estimate())
    ensures 1 <= attempts
    ensures room.invocations.Some? ==> attempts <= room.invocations.value
    ensures room.input.Some? ==> attempts * request.Estimate() <= room.input.value
    ensures room.output.Some? ==> attempts <= room.output.value
  {
    var configured :=
      if request.attempts.Some? then Max(1, request.attempts.value)
      else if room.invocations.Some? then room.invocations.value
      else 1;
    var allowed := if room.invocations.Some? then Min(configured, room.invocations.value) else configured;
    var byInput :=
      if room.input.Some? then Min(allowed, Max(1, room.input.value / request.Estimate())) else allowed;
    DivisionFits(room.input, request.Estimate(), byInput);
    var attempts := if room.output.Some? then Min(byInput, Max(1, room.output.value)) else byInput;
    FewerFit(room.input, request.Estimate(), byInput, attempts);
    attempts
  }

  lemma DivisionFits(input: Option<int>, estimated: int, attempts: int)
    requires 1 <= estimated
    requires input.Some? ==> estimated <= input.value && attempts <= Max(1, input.value / estimated)
    ensures input.Some? ==> attempts * estimated <= input.value
  {
    if input.Some? {
      var most := input.value / estimated;
      assert most * estimated <= input.value;
      assert attempts * estimated <= most * estimated;
    }
  }

  lemma FewerFit(input: Option<int>, estimated: int, more: int, fewer: int)
    requires 1 <= estimated && fewer <= more
    requires input.Some? ==> more * estimated <= input.value
    ensures input.Some? ==> fewer * estimated <= input.value
  {
    assert fewer * estimated <= more * estimated;
  }

  /** Output tokens of one attempt when `left` tokens are shared by `attempts` attempts. */
  function OutputShare(configured: Option<nat>, left: int, attempts: int): (tokens: int)
    requires 1 <= attempts <= left
    ensures 1 <= tokens
    ensures attempts * tokens <= left
    ensures configured.Some? && 0 < configured.value ==> tokens <= configured.value
  {
    var cap := Max(1, left / attempts);
    assert left / attempts < 1 ==> left < attempts;
    assert attempts * cap <= left;
    var wanted := if configured.Some? && configured.value != 0 then configured.value else cap;
    var tokens := Max(1, Min(wanted, cap));
    assert attempts * tokens <= attempts * cap;
    tokens
  }

  /** What each attempt's share of the money leaves for output once its input is paid. */
  function OutputMoney(pricing: Pricing, money: int, estimated: int, attempts: int): real
    requires 1 <= attempts
  {
    money as real / attempts as real - estimated as real * pricing.input
  }

  /** Output tokens bought by the money left, when neither a limit nor the model bounds them. */
  function PricedOutput(room: Room, pricing: Option<Pricing>, estimated: int, attempts: int): (tokens: Option<int>)
    requires 1 <= attempts
    ensures tokens.Some? ==> 1 <= tokens.value
  {
    if room.output.Some? || room.cost.None? || pricing.None? then None
    else if pricing.value.output <= 0.0 then None
    else
      var budget := OutputMoney(pricing.value, room.cost.value, estimated, attempts);
      if budget < pricing.value.output then None
      else Some(Max(1, Affordable(budget, pricing.value.output)))
  }

  function FirstOutput(room: Room, pricing: Option<Pricing>, request: Request, attempts: int): (tokens: Option<int>)
    requires 1 <= attempts
    requires room.output.Some? ==> attempts <= room.output.value
    ensures room.output.Some? ==>
              tokens.Some? && 1 <= tokens.value && attempts * tokens.value <= room.output.value
  {
    if room.output.Some? then Some(OutputShare(request.outputLimit, room.output.value, attempts))
    else if request.outputLimit.Some? then Some(request.outputLimit.value)
    else PricedOutput(room, pricing, request.Estimate(), attempts)
  }

  /** `per_attempt_output or 1`. */
  function OrOne(tokens: Option<int>): int {
    if tokens.Some? && tokens.value != 0 then tokens.value else 1
  }

  /** The cost repair loop: at most `rounds` times, drop to the attempts the money left can pay. */
  function Repair(rounds: nat, room: Room, pricing: Option<Pricing>, request: Request,
                  attempts: int, tokens: Option<int>): (repaired: (int, Option<int>))
    requires 1 <= attempts
    requires room.output.Some? ==>
               tokens.Some? && 1 <= tokens.value && attempts * tokens.value <= room.output.value
    ensures 1 <= repaired.0 <= attempts
    ensures room.output.Some? ==>
              && repaired.1.Some? && 1 <= repaired.1.value
              && repaired.0 * repaired.1.value <= room.output.value
    ensures room.output.None? ==> repaired.1 == tokens
  {
    if rounds == 0 || room.cost.None? || pricing.None? then (attempts, tokens)
    else
      var minimum := EstimateCost(pricing.value, request.Estimate(), OrOne(tokens));
      if minimum <= 0 || attempts <= room.cost.value / minimum then (attempts, tokens)
      else
        var fewer := Max(1, room.cost.value / minimum);
        ShareFits(room.output, attempts, tokens);
        var shared :=
          if room.output.Some? then Some(OutputShare(request.outputLimit, room.output.value, fewer)) else tokens;
        Repair(rounds - 1, room, pricing, request, fewer, shared)
  }

  lemma ShareFits(output: Option<int>, attempts: int, tokens: Option<int>)
    requires 1 <= attempts
    requires output.Some? ==> tokens.Some? && 1 <= tokens.value && attempts * tokens.value <= output.value
    ensures output.Some? ==> attempts <= output.value
  {
    if output.Some? {
      assert attempts * 1 <= attempts * tokens.value;
    }
  }

  const REPAIR_ROUNDS := 3

  /** What a grant of `attempts` attempts with `tokens` output tokens each holds. */
  function HoldFor(room: Room, pricing: Option<Pricing>, estimated: int, attempts: int, tokens: Option<int>): Usage {
    var output := if room.output.Some? && tokens.Some? then tokens.value * attempts else 0;
    var priced := if room.output.Some? then output else OrOne(tokens) * attempts;
    var cost := if pricing.Some? then EstimateCost(pricing.value, estimated * attempts, priced) else 0;
    Usage(attempts, estimated * attempts, output, cost)
  }

  /** `_reservation_plan`. */
  function Plan(room: Room, pricing: Option<Pricing>, request: Request): (grant: Grant)
    requires FitsOneAttempt(room, request.Estimate())
  {
    var attempts := FirstAttemptLimit(room, request);
    var tokens := FirstOutput(room, pricing, request, attempts);
    var repaired := Repair(REPAIR_ROUNDS, room, pricing, request, attempts, tokens);
    Grant(repaired.0, repaired.1,
          HoldFor(room, pricing, request.Estimate(), repaired.0, repaired.1))
  }

  /** The plan never holds more than every scope has left, and always grants one attempt. */
  lemma PlanFits(room: Room, pricing: Option<Pricing>, request: Request)
    requires FitsOneAttempt(room, request.Estimate())
    ensures
      var grant := Plan(room, pricing, request);
      && 1 <= grant.attempts == grant.hold.invocations
      && (room.invocations.Some? ==> grant.hold.invocations <= room.invocations.value)
      && (room.input.Some? ==> grant.hold.input <= room.input.value)
      && (room.output.Some? ==> grant.hold.output <= room.output.value)
      && grant.hold.input == grant.attempts * request.Estimate()
      && (room.output.Some? ==>
            && grant.perAttemptOutput.Some? && 1 <= grant.perAttemptOutput.value
            && grant.hold.output == grant.attempts * grant.perAttemptOutput.value)
      && (room.output.None? ==> grant.hold.output == 0)
  {
    var first := FirstAttemptLimit(room, request);
    var grant := Plan(room, pricing, request);
    FewerFit(room.input, request.Estimate(), first, grant.attempts);
  }

  lemma PlanIsNonNegative(room: Room, pricing: Option<Pricing>, request: Request)
    requires FitsOneAttempt(room, request.Estimate())
    requires pricing.Some? ==> pricing.value.Valid()
    ensures Plan(room, pricing, request).hold.Covers(NOTHING)
  {
    PlanFits(room, pricing, request);
    var grant := Plan(room, pricing, request);
    var attempts, tokens := grant.attempts, grant.perAttemptOutput;
    assert room.output.None? ==> tokens == FirstOutput(room, pricing, request, FirstAttemptLimit(room, request));
    assert tokens.Some? ==> 0 <= tokens.value;
    assert 0 <= request.Estimate() * attempts;
    assert room.output.Some? ==> 0 <= tokens.value * attempts;
    assert 0 <= OrOne(tokens) * attempts;
    var priced := if room.output.Some? then grant.hold.output else OrOne(tokens) * attempts;
    if pricing.Some? {
      EstimateCostNonNegative(pricing.value, request.Estimate() * attempts, priced);
    }
  }

  /** The scope a grant that costs too much is charged to: the first whose own money is short. */
  function ShortOfMoney(limits: PerScope<Limits>, state: PerScope<Record>, cost: int): Option<ScopeName> {
    if ShortIn(limits.workflow, state.workflow, cost) then Some(WorkflowScope)
    else if ShortIn(limits.task, state.task, cost) then Some(TaskScope)
    else if ShortIn(limits.agent, state.agent, cost) then Some(AgentScope)
    else None
  }

  predicate ShortIn(limits: Limits, r: Record, cost: int) {
    limits.cost.Some? && RemainingCost(limits.cost.value, r.Total().cost) < cost
  }

  /** `assert decision is not None` in `preflight`: a grant above the least money left always
      has a responsible scope, and only then. */
  lemma ShortageHasAScope(limits: PerScope<Limits>, state: PerScope<Record>, cost: int)
    ensures
      var room := MinimumRoom(limits, state);
      (room.cost.Some? && room.cost.value < cost) <==> ShortOfMoney(limits, state, cost).Some?
  {
  }

  // ---------------------------------------------------------------- the three operations

  /** `_apply_block_decision`: only a sticky refusal is kept in the record it names. */
  function Block(state: PerScope<Record>, d: Decision): PerScope<Record> {
    if !d.sticky then state
    else
      match d.scope
      case WorkflowScope => state.(workflow := state.workflow.(sticky := Some(d)))
      case TaskScope => state.(task := state.task.(sticky := Some(d)))
      case AgentScope => state.(agent := state.agent.(sticky := Some(d)))
  }

  function HoldMore(r: Record, hold: Usage): Record { r.(held := r.held.Plus(hold)) }

  /** The verdict of a preflight on loaded records: a refusal or a grant. */
  function Verdict(b: Binding, state: PerScope<Record>, request: Request): Result<Grant, Decision> {
    var refusal := Evaluate(b.limits, state, request.Estimate(), request.now, b.pricing);
    if refusal.Some? then Err(refusal.value)
    else
      AdmittedFitsOneAttempt(b, state, request);
      var room := MinimumRoom(b.limits, state);
      var grant := Plan(room, b.pricing, request);
      var short := ShortOfMoney(b.limits, state, grant.hold.cost);
      if short.Some? then
        var r := state.At(short.value);
        Err(Decision(Exhausted, MaxCostUsd, short.value, r.Total().cost, r.held.cost, grant.hold.cost,
                     false, request.now))
      else Ok(grant)
  }

  lemma AdmittedFitsOneAttempt(b: Binding, state: PerScope<Record>, request: Request)
    requires Evaluate(b.limits, state, request.Estimate(), request.now, b.pricing).None?
    ensures FitsOneAttempt(MinimumRoom(b.limits, state), request.Estimate())
  {
  }

  /** `preflight`. */
  function Preflight(ledger: Ledger, b: Binding, request: Request): (Ledger, Result<Grant, Decision>) {
    var state := LoadState(ledger, b);
    var verdict := Verdict(b, state, request);
    var after :=
      match verdict
      case Err(d) => Block(state, d)
      case Ok(grant) => PerScope(HoldMore(state.workflow, grant.hold), HoldMore(state.task, grant.hold),
                                 HoldMore(state.agent, grant.hold));
    (StoreState(ledger, b, after), verdict)
  }

  datatype CostStatus = Exact | Configured | Estimated | Unavailable | Mixed

  /** A reported cost; `record` refuses a negative one before it changes anything. */
  type Amount = x: real | 0.0 <= x

  /** What the provider reported for one dispatch. */
  datatype Charge = Charge(invocations: nat, input: nat, output: nat, cost: Option<Amount>,
                           status: Option<CostStatus>, unreconciled: nat, now: int)

  /** `_cost_evidence`: how much money a charge proves, and how well. */
  function CostEvidence(charge: Charge, pricing: Option<Pricing>): (CostStatus, Option<real>) {
    if charge.cost.Some? then
      (if charge.status.Some? then charge.status.value else Exact, charge.cost)
    else if pricing.None? || (charge.input == 0 && charge.output == 0) then (Unavailable, None)
    else
      var priced := Some(EstimateCost(pricing.value, charge.input, charge.output) as real);
      if charge.status == Some(Estimated) || charge.status == Some(Configured) then (charge.status.value, priced)
      else (Estimated, priced)
  }

  /** The part of a reservation kept for attempts whose spend is unknown. */
  function Retained(reservation: Usage, unreconciled: nat): (kept: Usage)
    ensures kept.invocations == 0
  {
    var granted := Max(1, reservation.invocations);
    var attempts := Min(unreconciled, granted);
    if attempts == 0 then NOTHING
    else
      Usage(0, reservation.input / granted * attempts, reservation.output / granted * attempts,
            Portion(reservation.cost, attempts, granted))
  }

  /** The reservation `record` assumes when none is open. */
  const ASSUMED := Usage(1, 0, 0, 0)

  function Reserved(open: Option<Usage>): Usage {
    if open.Some? then open.value else ASSUMED
  }

  predicate OverLimit(limits: Limits, total: Usage) {
    || Exceeds(limits.invocations, total.invocations)
    || Exceeds(limits.input, total.input)
    || Exceeds(limits.output, total.output)
    || (limits.cost.Some? && CostExceeds(limits.cost.value, total.cost))
  }

  /** One record of one settlement, including its overrun flag (`record`, `_apply_overruns`). */
  function SettleRecord(scope: ScopeName, limits: Limits, r: Record, reservation: Usage, charge: Charge,
                        pricing: Option<Pricing>): Record
  {
    var dispatched := 0 < charge.invocations;
    var evidence := if dispatched then CostEvidence(charge, pricing) else (Unavailable, None);
    var held := r.held.Less(reservation).Plus(Retained(reservation, charge.unreconciled));
    var cost := if evidence.1.Some? then HalfEven(r.used.cost as real + evidence.1.value) else r.used.cost;
    var used := Usage(r.used.invocations + charge.invocations, r.used.input + charge.input,
                      r.used.output + charge.output, cost);
    var unknown := dispatched && (evidence.0 == Unavailable || 0 < charge.unreconciled);
    var sticky :=
      if unknown && limits.cost.Some? then
        Some(Decision(CostUnavailable, MaxCostUsd, scope, cost + held.cost, held.cost, 0, true, charge.now))
      else r.sticky;
    Record(used, held, Max(r.elapsed, ElapsedMs(r.startedAt, charge.now)), r.startedAt,
           r.overrun || OverLimit(limits, used.Plus(held)), sticky)
  }

  /** `record`, for an open reservation or none. */
  function Settle(ledger: Ledger, b: Binding, open: Option<Usage>, charge: Charge): Ledger {
    var state := LoadState(ledger, b);
    var reservation := Reserved(open);
    StoreState(ledger, b, PerScope(
      SettleRecord(WorkflowScope, b.limits.workflow, state.workflow, reservation, charge, b.pricing),
      SettleRecord(TaskScope, b.limits.task, state.task, reservation, charge, b.pricing),
      SettleRecord(AgentScope, b.limits.agent, state.agent, reservation, charge, b.pricing)))
  }

  function HoldLess(r: Record, hold: Usage): Record { r.(held := r.held.Less(hold)) }

  /** `release`; without an open reservation it does nothing at all. */
  function Release(ledger: Ledger, b: Binding, open: Option<Usage>): Ledger {
    if open.None? then ledger
    else
      var state := LoadState(ledger, b);
      StoreState(ledger, b, PerScope(HoldLess(state.workflow, open.value), HoldLess(state.task, open.value),
                                     HoldLess(state.agent, open.value)))
  }
}
