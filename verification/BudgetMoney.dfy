/** Exactly which monetary limits the ledger can keep. */
module BudgetMoney {
  import opened Wrappers
  import opened Money
  import opened BudgetLedger
  import opened BudgetRuns
  import opened BudgetCeilings

  ghost predicate MoneyWithin(sys: System, limit: real) {
    WorkflowAccount in sys.ledger && !sys.ledger[WorkflowAccount].overrun ==>
      sys.ledger[WorkflowAccount].Total().cost as real <= limit
  }

  /** A fresh ledger whose budgets all carry this workflow limit. */
  ghost predicate StartsWith(sys: System, limit: real) {
    && Initial(sys)
    && (forall h | h in sys.holders :: Positive(h.binding) && h.binding.limits.workflow.cost == Some(limit))
  }

  /** No disciplined run leaves an unflagged workflow record above the limit. */
  ghost predicate LimitIsKept(limit: real) {
    forall sys, ops | StartsWith(sys, limit) && Disciplined(sys, ops) :: MoneyWithin(Run(sys, ops), limit)
  }

  function MoneyOnly(limit: real): Binding {
    Binding("task", "agent", PerScope(UNLIMITED.(cost := Some(limit)), UNLIMITED, UNLIMITED),
            Some(Pricing(0.0, 0.5)), None, 0, 0)
  }

  /** A request that costs `quanta` at half a quantum per output token. */
  function Worth(quanta: nat): Request { Request(1, Some(2 * quanta), Some(1), 0) }

  lemma WorthCosts(tokens: nat, quanta: int)
    requires quanta as real - 0.5 <= tokens as real * 0.5 <= quanta as real + 0.5
    requires tokens as real * 0.5 == quanta as real - 0.5 || tokens as real * 0.5 == quanta as real + 0.5 ==>
               quanta % 2 == 0
    ensures EstimateCost(Pricing(0.0, 0.5), 1, tokens) == quanta
  {
    HalfEvenIsUnique(1.0 * 0.0 + tokens as real * 0.5, quanta);
  }

  ghost predicate Open(state: PerScope<Record>) {
    state.workflow.sticky.None? && state.task.sticky.None? && state.agent.sticky.None?
  }

  lemma NothingRefuses(limit: real, state: PerScope<Record>)
    requires Open(state) && state.workflow.Total().cost as real <= limit
    ensures Evaluate(MoneyOnly(limit).limits, state, 1, 0, MoneyOnly(limit).pricing).None?
  {
    hide EstimateCost;
    WorthCosts(1, 0);
  }

  /** A request is granted whenever it does not cost more than the rounded remainder. */
  lemma Granted(limit: real, state: PerScope<Record>, quanta: nat)
    requires 1 <= quanta && 0.0 <= limit && Open(state)
    requires state.workflow.Total().cost as real <= limit
    requires quanta <= RemainingCost(limit, state.workflow.Total().cost)
    ensures
      var verdict := Verdict(MoneyOnly(limit), state, Worth(quanta));
      verdict.Ok? && verdict.value.hold == Usage(1, 1, 0, quanta)
  {
    hide RemainingCost, Evaluate, Plan, EstimateCost;
    var b, request := MoneyOnly(limit), Worth(quanta);
    NothingRefuses(limit, state);
    AdmittedFitsOneAttempt(b, state, request);
    OneAttempt(MinimumRoom(b.limits, state), b.pricing, request, quanta);
  }

  lemma OneAttempt(room: Room, pricing: Option<Pricing>, request: Request, quanta: nat)
    requires room.invocations.None? && room.input.None? && room.output.None? && room.cost.Some?
    requires request == Worth(quanta) && 1 <= quanta <= room.cost.value && pricing == Some(Pricing(0.0, 0.5))
    ensures FitsOneAttempt(room, request.Estimate()) && Plan(room, pricing, request).hold == Usage(1, 1, 0, quanta)
  {
    hide EstimateCost;
    WorthCosts(2 * quanta, quanta);
    assert FirstAttemptLimit(room, request) == 1;
    assert FirstOutput(room, pricing, request, 1) == Some(2 * quanta);
    assert Repair(REPAIR_ROUNDS, room, pricing, request, 1, Some(2 * quanta)) == (1, Some(2 * quanta));
  }

  /** A system of these budgets whose workflow record holds `total`, unflagged. */
  ghost predicate Holds(sys: System, limit: real, total: int) {
    var state := LoadState(sys.ledger, MoneyOnly(limit));
    && Open(state) && !state.workflow.overrun && state.workflow.Total().cost == total
    && (forall h | h in sys.holders :: h.binding == MoneyOnly(limit))
  }

  /** A preflight by a budget with nothing open, worth `quanta`, that fits the remainder. */
  lemma GrantStep(sys: System, who: nat, limit: real, quanta: nat, total: int)
    requires who < |sys.holders| && sys.holders[who].open.None?
    requires 0.0 <= limit && total as real <= limit
    ensures Holds(sys, limit, total) && 1 <= quanta <= RemainingCost(limit, total) ==>
      var op := DoPreflight(who, Worth(quanta));
      var after := Step(sys, op);
      && Proceeds(sys, op) && Holds(after, limit, total + quanta) && WorkflowAccount in after.ledger
      && |after.holders| == |sys.holders|
      && (forall i | 0 <= i < |sys.holders| && i != who :: after.holders[i] == sys.holders[i])
  {
    hide Preflight, Settle, Release, Retained, RemainingCost, HalfEven, LoadState, MoneyOnly, Worth;
    if Holds(sys, limit, total) && 1 <= quanta <= RemainingCost(limit, total) {
      GrantedLedger(limit, sys.ledger, quanta);
      assert sys.holders[who].binding == MoneyOnly(limit);
    }
  }

  /** What a granted preflight leaves in the records. */
  lemma GrantedLedger(limit: real, ledger: Ledger, quanta: nat)
    requires 1 <= quanta && 0.0 <= limit
    ensures
      var before := LoadState(ledger, MoneyOnly(limit));
      var (stored, verdict) := Preflight(ledger, MoneyOnly(limit), Worth(quanta));
      var after := LoadState(stored, MoneyOnly(limit));
      Open(before) && before.workflow.Total().cost as real <= limit
      && quanta <= RemainingCost(limit, before.workflow.Total().cost) ==>
        && verdict.Ok? && WorkflowAccount in stored
        && Open(after) && after.workflow.overrun == before.workflow.overrun
        && after.workflow.Total().cost == before.workflow.Total().cost + quanta
  {
    hide Verdict, RemainingCost, HalfEven;
    var before := LoadState(ledger, MoneyOnly(limit));
    if Open(before) && before.workflow.Total().cost as real <= limit
       && quanta <= RemainingCost(limit, before.workflow.Total().cost) {
      Granted(limit, before, quanta);
    }
  }

  lemma Overshoots(sys: System, limit: real, total: int)
    requires Holds(sys, limit, total) && WorkflowAccount in sys.ledger && limit < total as real
    ensures !MoneyWithin(sys, limit)
  {
  }

  function Budgets(limit: real, n: nat): System {
    System(map[], seq(n, _ => Holder(MoneyOnly(limit), None)), [])
  }

  lemma FreshStarts(limit: real, n: nat)
    requires 0.0 < limit
    ensures StartsWith(Budgets(limit, n), limit) && Holds(Budgets(limit, n), limit, 0)
  {
    assert Positive(MoneyOnly(limit));
    forall h | h in Budgets(limit, n).holders ensures h == Holder(MoneyOnly(limit), None) {}
    assert LimitsAgree(MoneyOnly(limit), MoneyOnly(limit));
  }

  /** One grant that fits the rounded remainder but not the limit. */
  lemma OneGrantOvershoots(limit: real, quanta: nat)
    requires 0.0 < limit < quanta as real && quanta <= RemainingCost(limit, 0)
    ensures !LimitIsKept(limit)
  {
    hide Step, Holds, StartsWith, MoneyWithin, Run, Disciplined, Proceeds, RemainingCost;
    var sys, op := Budgets(limit, 1), DoPreflight(0, Worth(quanta));
    FreshStarts(limit, 1);
    GrantStep(sys, 0, limit, quanta, 0);
    Overshoots(Step(sys, op), limit, quanta);
    RunOne(sys, op);
    assert !MoneyWithin(Run(sys, [op]), limit);
  }

  /** Two grants by two budgets: the first makes the second remainder round upwards. */
  lemma TwoGrantsOvershoot(limit: real, quanta: nat)
    requires 1.0 <= limit < quanta as real + 1.0 && 1 <= quanta <= RemainingCost(limit, 1)
    requires 1 <= RemainingCost(limit, 0)
    ensures !LimitIsKept(limit)
  {
    hide Step, Holds, StartsWith, MoneyWithin, Run, Disciplined, Proceeds, RemainingCost;
    var sys := Budgets(limit, 2);
    var first, second := DoPreflight(0, Worth(1)), DoPreflight(1, Worth(quanta));
    FreshStarts(limit, 2);
    GrantStep(sys, 0, limit, 1, 0);
    GrantStep(Step(sys, first), 1, limit, quanta, 1);
    Overshoots(Step(Step(sys, first), second), limit, 1 + quanta);
    RunTwo(sys, first, second);
    assert !MoneyWithin(Run(sys, [first, second]), limit);
  }

  /** A monetary limit is kept by every disciplined run exactly when it is less than half a
      quantum above a whole number of quanta, or half a quantum itself. */
  lemma MoneyIsKeptExactly(limit: real)
    requires 0.0 < limit
    ensures LimitIsKept(limit) <==> RoundsDown(limit)
  {
    if RoundsDown(limit) {
      forall sys, ops | StartsWith(sys, limit) && Disciplined(sys, ops)
        ensures MoneyWithin(Run(sys, ops), limit)
      {
        RunKeepsMoney(sys, ops, limit);
      }
    } else {
      var whole := limit.Floor;
      if whole + 1 == RemainingCost(limit, 0) {
        OneGrantOvershoots(limit, whole + 1);
      } else {
        TwoGrantsOvershoot(limit, whole);
      }
    }
  }

  lemma RunKeepsMoney(sys: System, ops: seq<Op>, limit: real)
    requires StartsWith(sys, limit) && RoundsDown(limit)
    ensures MoneyWithin(Run(sys, ops), limit)
  {
    hide Run;
    RunsStayWithinLimits(sys, ops);
    RunKeepsHolders(sys, ops);
    var end := Run(sys, ops);
    if WorkflowAccount in end.ledger {
      if sys.holders == [] {
        NobodyActs(sys, ops);
      } else {
        assert end.holders[0] in end.holders && sys.holders[0] in sys.holders;
        assert HonestAt(end.ledger, end.holders[0].binding, WorkflowScope);
      }
    }
  }

  lemma {:induction false} RunKeepsHolders(sys: System, ops: seq<Op>)
    ensures |Run(sys, ops).holders| == |sys.holders|
    ensures forall i | 0 <= i < |sys.holders| :: Run(sys, ops).holders[i].binding == sys.holders[i].binding
    decreases |ops|
  {
    hide Preflight, Settle, Release, Retained;
    if ops != [] { RunKeepsHolders(Step(sys, ops[0]), ops[1..]); }
  }

  lemma {:induction false} NobodyActs(sys: System, ops: seq<Op>)
    requires sys.holders == []
    ensures Run(sys, ops) == sys
    decreases |ops|
  {
    if ops != [] { NobodyActs(sys, ops[1..]); }
  }
}
