/** `TaskBudget` as the source writes it: an object that keeps its own reservation and changes
    the shared ledger in place, one atomic store mutation per call
    (src/aep/execution_budgets.py:352-711, 879-1010). */
module BudgetTask {
  import opened Wrappers
  import opened Money
  import opened BudgetLedger

  /** The store side of `mutate_execution_budget`: the records of one WorkflowExecution. */
  class LedgerStore {
    var ledger: Ledger

    constructor ()
      ensures ledger == map[]
    {
      ledger := map[];
    }
  }

  const SCOPES := [WorkflowScope, TaskScope, AgentScope]

  class TaskBudget {
    const store: LedgerStore
    const binding: Binding
    var reservation: Option<Usage>

    constructor (store: LedgerStore, binding: Binding)
      ensures this.store == store && this.binding == binding && reservation.None?
    {
      this.store, this.binding, reservation := store, binding, None;
    }

    /** `_evaluate`: asks the scopes in order and stops at the first refusal. */
    method EvaluateScopes(state: PerScope<Record>, request: Request) returns (refusal: Option<Decision>)
      ensures refusal == Evaluate(binding.limits, state, request.Estimate(), request.now, binding.pricing)
    {
      hide CheckScope;
      refusal := None;
      for i := 0 to |SCOPES|
        invariant refusal.None?
        invariant forall j | 0 <= j < i :: Admits(SCOPES[j], state, request)
      {
        var s := SCOPES[i];
        refusal := CheckScope(s, binding.limits.At(s), state.At(s), request.Estimate(), request.now,
                              binding.pricing);
        if refusal.Some? {
          assert 0 < i ==> Admits(SCOPES[0], state, request);
          assert 1 < i ==> Admits(SCOPES[1], state, request);
          return;
        }
      }
      assert Admits(SCOPES[0], state, request) && Admits(SCOPES[1], state, request)
          && Admits(SCOPES[2], state, request);
    }

    predicate Admits(s: ScopeName, state: PerScope<Record>, request: Request) {
      CheckScope(s, binding.limits.At(s), state.At(s), request.Estimate(), request.now, binding.pricing).None?
    }

    /** `_reservation_plan`, with the bounded repair loop on the attempt limit. */
    method ReservationPlan(room: Room, request: Request) returns (grant: Grant)
      requires FitsOneAttempt(room, request.Estimate())
      ensures grant == Plan(room, binding.pricing, request)
    {
      var attempts := FirstAttemptLimit(room, request);
      var tokens := FirstOutput(room, binding.pricing, request, attempts);
      ghost var expected := Repair(REPAIR_ROUNDS, room, binding.pricing, request, attempts, tokens);
      if room.cost.Some? && binding.pricing.Some? {
        var round := 0;
        while round < REPAIR_ROUNDS
          invariant 0 <= round <= REPAIR_ROUNDS && 1 <= attempts
          invariant room.output.Some? ==>
                      tokens.Some? && 1 <= tokens.value && attempts * tokens.value <= room.output.value
          invariant expected == Repair(REPAIR_ROUNDS - round, room, binding.pricing, request, attempts, tokens)
        {
          hide EstimateCost, HalfEven;
          var minimum := EstimateCost(binding.pricing.value, request.Estimate(), OrOne(tokens));
          if minimum <= 0 || attempts <= room.cost.value / minimum { break; }
          ShareFits(room.output, attempts, tokens);
          attempts := Max(1, room.cost.value / minimum);
          if room.output.Some? {
            tokens := Some(OutputShare(request.outputLimit, room.output.value, attempts));
          }
          round := round + 1;
        }
        assert expected == (attempts, tokens);
      }
      grant := Grant(attempts, tokens,
                     HoldFor(room, binding.pricing, request.Estimate(), attempts, tokens));
    }

    /** `preflight`: a refusal raises and leaves the reservation alone; a grant is held in all
        three records and becomes the open reservation. */
    method Preflight(request: Request) returns (verdict: Result<Grant, Decision>)
      modifies this`reservation, store
      ensures (store.ledger, verdict) == BudgetLedger.Preflight(old(store.ledger), binding, request)
      ensures reservation == if verdict.Ok? then Some(verdict.value.hold) else old(reservation)
    {
      hide CheckScope, Plan, MinimumRoom, ShortIn;
      var state := LoadState(store.ledger, binding);
      var refusal := EvaluateScopes(state, request);
      if refusal.Some? {
        store.ledger := StoreState(store.ledger, binding, Block(state, refusal.value));
        return Err(refusal.value);
      }
      AdmittedFitsOneAttempt(binding, state, request);
      var room := MinimumRoom(binding.limits, state);
      var grant := ReservationPlan(room, request);
      if room.cost.Some? && room.cost.value < grant.hold.cost {
        ShortageHasAScope(binding.limits, state, grant.hold.cost);
        var short := ShortOfMoney(binding.limits, state, grant.hold.cost);
        assert short.Some?;
        var r := state.At(short.value);
        var decision := Decision(Exhausted, MaxCostUsd, short.value, r.Total().cost, r.held.cost,
                                 grant.hold.cost, false, request.now);
        store.ledger := StoreState(store.ledger, binding, Block(state, decision));
        return Err(decision);
      }
      ShortageHasAScope(binding.limits, state, grant.hold.cost);
      var workflow, task, agent := state.workflow, state.task, state.agent;
      workflow := workflow.(held := workflow.held.Plus(grant.hold));
      task := task.(held := task.held.Plus(grant.hold));
      agent := agent.(held := agent.held.Plus(grant.hold));
      store.ledger := StoreState(store.ledger, binding, PerScope(workflow, task, agent));
      reservation := Some(grant.hold);
      return Ok(grant);
    }

    /** One record of `record`, in the order the source updates its fields. */
    method SettleOne(scope: ScopeName, r: Record, held: Usage, charge: Charge) returns (settled: Record)
      ensures settled == SettleRecord(scope, binding.limits.At(scope), r, held, charge, binding.pricing)
    {
      hide Retained, CostEvidence, OverLimit, HalfEven;
      var limits := binding.limits.At(scope);
      settled := r;
      settled := settled.(held := settled.held.Less(held));
      settled := settled.(held := settled.held.Plus(Retained(held, charge.unreconciled)));
      settled := settled.(used := settled.used.Plus(Usage(charge.invocations, charge.input, charge.output, 0)));
      settled := settled.(elapsed := Max(settled.elapsed, ElapsedMs(settled.startedAt, charge.now)));
      if 0 < charge.invocations {
        var (status, cost) := CostEvidence(charge, binding.pricing);
        if cost.Some? {
          settled := settled.(used := settled.used.(cost := HalfEven(settled.used.cost as real + cost.value)));
        }
        if (status == Unavailable || 0 < charge.unreconciled) && limits.cost.Some? {
          settled := settled.(sticky := Some(Decision(CostUnavailable, MaxCostUsd, scope, settled.Total().cost,
                                                      settled.held.cost, 0, true, charge.now)));
        }
      }
      if OverLimit(limits, settled.Total()) {
        settled := settled.(overrun := true);
      }
    }

    /** `record`: settles the open reservation, or the assumed one when nothing is open. */
    method Record(charge: Charge)
      modifies this`reservation, store
      ensures store.ledger == Settle(old(store.ledger), binding, old(reservation), charge)
      ensures reservation.None?
    {
      hide SettleRecord;
      var state := LoadState(store.ledger, binding);
      var held := Reserved(reservation);
      var workflow := SettleOne(WorkflowScope, state.workflow, held, charge);
      var task := SettleOne(TaskScope, state.task, held, charge);
      var agent := SettleOne(AgentScope, state.agent, held, charge);
      store.ledger := StoreState(store.ledger, binding, PerScope(workflow, task, agent));
      reservation := None;
    }

    /** `release`: gives an unused reservation back without charging anything. */
    method Release()
      modifies this`reservation, store
      ensures store.ledger == BudgetLedger.Release(old(store.ledger), binding, old(reservation))
      ensures reservation.None?
    {
      if reservation.None? { return; }
      var state := LoadState(store.ledger, binding);
      var hold := reservation.value;
      store.ledger := StoreState(store.ledger, binding,
                                 PerScope(HoldLess(state.workflow, hold), HoldLess(state.task, hold),
                                          HoldLess(state.agent, hold)));
      reservation := None;
    }
  }

  /** A preflight that is not used: releasing it puts back what every account held before. */
  lemma UnusedGrantIsUndone(ledger: Ledger, b: Binding, request: Request, a: Account)
    requires b.pricing.Some? ==> b.pricing.value.Valid()
    requires a in ledger ==> ledger[a].held.Covers(NOTHING)
    requires BudgetLedger.Preflight(ledger, b, request).1.Ok?
    ensures
      var (after, verdict) := BudgetLedger.Preflight(ledger, b, request);
      var undone := BudgetLedger.Release(after, b, Some(verdict.value.hold));
      && (a in ledger ==> a in undone && undone[a] == ledger[a])
      && (a in undone && a !in ledger ==>
            undone[a] == Fresh(if a == WorkflowAccount then b.workflowStartedAt else b.taskStartedAt))
  {
    hide Verdict, Plan;
    var state := LoadState(ledger, b);
    assert Verdict(b, state, request) == BudgetLedger.Preflight(ledger, b, request).1;
  }
}
