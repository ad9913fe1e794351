/** What the records say was consumed, stated on the charges the providers reported
    (src/aep/execution_budgets.py:524-683). */
module BudgetConsumption {
  import opened Wrappers
  import opened Money
  import opened BudgetLedger
  import opened BudgetRuns
  import opened BudgetCeilings

  /** A recorded charge and the budget that recorded it. */
  datatype Entry = Entry(binding: Binding, charge: Charge)

  /** The charges a run records, in order.  A budget keeps its binding for life. */
  function Charges(holders: seq<Holder>, ops: seq<Op>): seq<Entry> {
    if ops == [] then []
    else ChargeOf(holders, ops[0]) + Charges(holders, ops[1..])
  }

  function ChargeOf(holders: seq<Holder>, op: Op): seq<Entry> {
    if op.DoRecord? && op.who < |holders| then [Entry(holders[op.who].binding, op.charge)] else []
  }

  function UsedAt(ledger: Ledger, a: Account): Usage {
    if a in ledger then ledger[a].used else NOTHING
  }

  /** Invocations and tokens of the charges to one account. */
  function Reported(log: seq<Entry>, a: Account): (total: Usage)
    ensures total.cost == 0
  {
    if log == [] then NOTHING
    else
      var e, rest := log[0], Reported(log[1..], a);
      if !e.binding.Charges(a) then rest
      else
        Usage(e.charge.invocations + rest.invocations, e.charge.input + rest.input,
              e.charge.output + rest.output, 0)
  }

  /** The money one charge proves: what the provider reports, or the price of its tokens. */
  function Proven(charge: Charge, pricing: Option<Pricing>): (money: real)
  {
    if charge.invocations == 0 then 0.0
    else if charge.cost.Some? then charge.cost.value
    else if pricing.Some? && 0 < charge.input + charge.output then
      HalfEven(Price(pricing.value, charge.input, charge.output)) as real
    else 0.0
  }

  /** The money of an account after a log of charges: each is added and the sum rounded. */
  function Billed(log: seq<Entry>, a: Account, before: int): int {
    if log == [] then before
    else Billed(log[1..], a, BilledOne(log[0], a, before))
  }

  /** The account's money after one more charge. */
  function BilledOne(e: Entry, a: Account, before: int): int {
    if e.binding.Charges(a) then HalfEven(before as real + Proven(e.charge, e.binding.pricing)) else before
  }

  lemma WholeQuantaStay(n: int)
    ensures HalfEven(n as real) == n
    ensures HalfEven(n as real + 0.0) == n
  {
    HalfEvenIsUnique(n as real, n);
  }

  lemma RecordConsumes(scope: ScopeName, limits: Limits, r: Record, reservation: Usage, charge: Charge,
                       pricing: Option<Pricing>)
    ensures SettleRecord(scope, limits, r, reservation, charge, pricing).used ==
              Usage(r.used.invocations + charge.invocations, r.used.input + charge.input,
                    r.used.output + charge.output, HalfEven(r.used.cost as real + Proven(charge, pricing)))
  {
    hide Retained, OverLimit, HalfEven;
    WholeQuantaStay(r.used.cost);
    if charge.invocations == 0 || CostEvidence(charge, pricing).1.None? {
      assert Proven(charge, pricing) == 0.0;
    } else if charge.cost.Some? {
      assert CostEvidence(charge, pricing).1 == charge.cost;
    } else {
      var priced := EstimateCost(pricing.value, charge.input, charge.output);
      assert CostEvidence(charge, pricing).1 == Some(priced as real);
      EstimateIsRoundedPrice(pricing.value, charge.input, charge.output);
    }
  }

  /** One settlement adds to each of its three accounts what the charge reports, and its proven money. */
  lemma SettlementConsumes(ledger: Ledger, b: Binding, open: Option<Usage>, charge: Charge, a: Account)
    ensures
      var before := UsedAt(ledger, a);
      UsedAt(Settle(ledger, b, open, charge), a) ==
        if !b.Charges(a) then before
        else
          Usage(before.invocations + charge.invocations, before.input + charge.input, before.output + charge.output,
                HalfEven(before.cost as real + Proven(charge, b.pricing)))
  {
    hide SettleRecord, HalfEven, Proven;
    var state, reservation := LoadState(ledger, b), Reserved(open);
    forall s: ScopeName {
      RecordConsumes(s, b.limits.At(s), state.At(s), reservation, charge, b.pricing);
    }
    assert Settle(ledger, b, open, charge) == StoreState(ledger, b, PerScope(
      SettleRecord(WorkflowScope, b.limits.At(WorkflowScope), state.At(WorkflowScope), reservation, charge, b.pricing),
      SettleRecord(TaskScope, b.limits.At(TaskScope), state.At(TaskScope), reservation, charge, b.pricing),
      SettleRecord(AgentScope, b.limits.At(AgentScope), state.At(AgentScope), reservation, charge, b.pricing)));
  }

  lemma OthersConsumeNothing(sys: System, op: Op, a: Account)
    requires op.In(sys) && !op.DoRecord?
    ensures UsedAt(Step(sys, op).ledger, a) == UsedAt(sys.ledger, a)
  {
    hide Verdict;
  }

  lemma StepConsumes(sys: System, op: Op, a: Account)
    ensures
      var log, before := ChargeOf(sys.holders, op), UsedAt(sys.ledger, a);
      UsedAt(Step(sys, op).ledger, a) == before.Plus(Reported(log, a)).(cost := Billed(log, a, before.cost))
  {
    hide Preflight, Settle, Release, Retained, UsedAt, Proven, HalfEven;
    if op.In(sys) {
      if op.DoRecord? {
        var h := sys.holders[op.who];
        SettlementConsumes(sys.ledger, h.binding, h.open, op.charge, a);
        assert ChargeOf(sys.holders, op)[1..] == [];
      } else {
        OthersConsumeNothing(sys, op, a);
      }
    }
  }

  lemma {:induction false} ReportsJoin(first: seq<Entry>, second: seq<Entry>, a: Account)
    ensures Reported(first + second, a) == Reported(first, a).Plus(Reported(second, a))
  {
    if first == [] {
      assert first + second == second;
    } else {
      assert (first + second)[1..] == first[1..] + second;
      ReportsJoin(first[1..], second, a);
    }
  }

  lemma {:induction false} BillsJoin(first: seq<Entry>, second: seq<Entry>, a: Account, before: int)
    ensures Billed(first + second, a, before) == Billed(second, a, Billed(first, a, before))
  {
    hide BilledOne;
    if first == [] {
      assert first + second == second;
    } else {
      assert (first + second)[1..] == first[1..] + second;
      BillsJoin(first[1..], second, a, BilledOne(first[0], a, before));
    }
  }

  lemma {:induction false} SameBindingsSameCharges(holders: seq<Holder>, others: seq<Holder>, ops: seq<Op>)
    requires |holders| == |others| && forall i | 0 <= i < |holders| :: holders[i].binding == others[i].binding
    ensures Charges(holders, ops) == Charges(others, ops)
  {
    if ops != [] { SameBindingsSameCharges(holders, others, ops[1..]); }
  }

  lemma StepKeepsEachBinding(sys: System, op: Op)
    ensures |Step(sys, op).holders| == |sys.holders|
    ensures forall i | 0 <= i < |sys.holders| :: Step(sys, op).holders[i].binding == sys.holders[i].binding
  {
    hide Preflight, Settle, Release, Retained;
  }

  /** Over every run, disciplined or not and however the budgets interleave, each account has
      consumed exactly the invocations and tokens of the charges recorded to it, and their proven
      money. */
  lemma {:induction false} RunsConsumeTheirCharges(sys: System, ops: seq<Op>, a: Account)
    ensures
      var log, before := Charges(sys.holders, ops), UsedAt(sys.ledger, a);
      UsedAt(Run(sys, ops).ledger, a) == before.Plus(Reported(log, a)).(cost := Billed(log, a, before.cost))
    decreases |ops|
  {
    hide Step, UsedAt, ChargeOf;
    if ops != [] {
      var next := Step(sys, ops[0]);
      var first, rest := ChargeOf(sys.holders, ops[0]), Charges(sys.holders, ops[1..]);
      StepConsumes(sys, ops[0], a);
      StepKeepsEachBinding(sys, ops[0]);
      SameBindingsSameCharges(next.holders, sys.holders, ops[1..]);
      RunsConsumeTheirCharges(next, ops[1..], a);
      ReportsJoin(first, rest, a);
      BillsJoin(first, rest, a, UsedAt(sys.ledger, a).cost);
    }
  }

  // ---------------------------------------------------------------- the money of a log

  /** The exact money of the charges to one account, and how many there are. */
  function Owed(log: seq<Entry>, a: Account): real {
    if log == [] then 0.0
    else (if log[0].binding.Charges(a) then Proven(log[0].charge, log[0].binding.pricing) else 0.0) + Owed(log[1..], a)
  }

  function ChargesTo(log: seq<Entry>, a: Account): nat {
    if log == [] then 0 else (if log[0].binding.Charges(a) then 1 else 0) + ChargesTo(log[1..], a)
  }

  predicate WholeQuanta(e: Entry) {
    Proven(e.charge, e.binding.pricing) == Proven(e.charge, e.binding.pricing).Floor as real
  }

  /** The consumed money is what was proven, up to half a quantum for each charge, and exactly
      when every charge proves whole quanta. */
  lemma {:induction false} BilledIsOwed(log: seq<Entry>, a: Account, before: int)
    ensures
      var drift := Billed(log, a, before) as real - before as real - Owed(log, a);
      && -0.5 * ChargesTo(log, a) as real <= drift <= 0.5 * ChargesTo(log, a) as real
      && ((forall e | e in log && e.binding.Charges(a) :: WholeQuanta(e)) ==> drift == 0.0)
  {
    hide Proven;
    if log != [] {
      var e := log[0];
      if e.binding.Charges(a) {
        var money := Proven(e.charge, e.binding.pricing);
        BilledIsOwed(log[1..], a, HalfEven(before as real + money));
        if WholeQuanta(e) { WholeQuantaStay(before + money.Floor); }
      } else {
        BilledIsOwed(log[1..], a, before);
      }
      assert forall x | x in log[1..] :: x in log;
    }
  }

  // ---------------------------------------------------------------- what is spent is not granted again

  /** From a fresh ledger, once the charges recorded to a scope reach its invocation limit, no
      later preflight charging that scope is admitted. */
  lemma SpentIsNotGrantedAgain(sys: System, ops: seq<Op>, who: nat, request: Request, s: ScopeName)
    requires Sound(sys) && Initial(sys) && who < |sys.holders|
    requires
      var b := sys.holders[who].binding;
      && b.limits.At(s).invocations.Some?
      && b.limits.At(s).invocations.value <= Reported(Charges(sys.holders, ops), b.Accounts().At(s)).invocations
    ensures Preflight(Run(sys, ops).ledger, sys.holders[who].binding, request).1.Err?
  {
    hide Run, Charges, Reported, Billed, Sound, Within;
    var b, end := sys.holders[who].binding, Run(sys, ops);
    var a := b.Accounts().At(s);
    RunsConsumeTheirCharges(sys, ops, a);
    RunsStayWithinLimits(sys, ops);
    KeepsEachBinding(sys, ops);
    SoundRecordHoldsNothingNegative(end, who, s);
    assert a in end.ledger ==> LoadState(end.ledger, b).At(s) == end.ledger[a];
    TooManyInvocations(b, LoadState(end.ledger, b), request, s);
  }

  lemma {:induction false} KeepsEachBinding(sys: System, ops: seq<Op>)
    ensures |Run(sys, ops).holders| == |sys.holders|
    ensures forall i | 0 <= i < |sys.holders| :: Run(sys, ops).holders[i].binding == sys.holders[i].binding
    decreases |ops|
  {
    hide Step;
    if ops != [] {
      StepKeepsEachBinding(sys, ops[0]);
      KeepsEachBinding(Step(sys, ops[0]), ops[1..]);
    }
  }

  lemma SoundRecordHoldsNothingNegative(sys: System, who: nat, s: ScopeName)
    requires Sound(sys) && who < |sys.holders|
    ensures
      var a := sys.holders[who].binding.Accounts().At(s);
      a in sys.ledger ==> sys.ledger[a].held.Covers(NOTHING)
  {
    hide Within;
    assert HonestAt(sys.ledger, sys.holders[who].binding, s);
  }

  lemma TooManyInvocations(b: Binding, state: PerScope<Record>, request: Request, s: ScopeName)
    requires b.limits.At(s).invocations.Some? && b.limits.At(s).invocations.value <= state.At(s).Total().invocations
    ensures Verdict(b, state, request).Err?
  {
    hide Plan, ShortOfMoney, MinimumRoom, EstimateCost;
    assert CheckScope(s, b.limits.At(s), state.At(s), request.Estimate(), request.now, b.pricing).Some?;
  }

  // ---------------------------------------------------------------- what else a settlement leaves

  predicate Fits(limits: Limits, total: Usage) {
    && (limits.invocations.Some? ==> total.invocations <= limits.invocations.value)
    && (limits.input.Some? ==> total.input <= limits.input.value)
    && (limits.output.Some? ==> total.output <= limits.output.value)
    && (limits.cost.Some? ==> total.cost as real <= limits.cost.value)
  }

  /** The money of a charge is known: it is reported as such, or its tokens have a price. */
  predicate Reliable(charge: Charge, pricing: Option<Pricing>) {
    if charge.cost.Some? then charge.status != Some(Unavailable)
    else pricing.Some? && 0 < charge.input + charge.output
  }

  /** A settlement marks an account as overrun exactly when it was or when its consumption and
      holds are beyond a limit, and closes it exactly when it was closed or money under a limit was
      spent by an unknown amount.  Its start stays and its elapsed time only grows. */
  lemma SettlementMarks(ledger: Ledger, b: Binding, open: Option<Usage>, charge: Charge, s: ScopeName)
    requires 0 <= LoadState(ledger, b).At(s).elapsed
    ensures
      var a, limits, before := b.Accounts().At(s), b.limits.At(s), LoadState(ledger, b).At(s);
      var settled := Settle(ledger, b, open, charge);
      var unknown := 0 < charge.invocations && (!Reliable(charge, b.pricing) || 0 < charge.unreconciled);
      && a in settled
      && var after := settled[a];
      && after.startedAt == before.startedAt
      && after.elapsed == Max(before.elapsed, charge.now - before.startedAt)
      && (after.overrun <==> before.overrun || !Fits(limits, after.used.Plus(after.held)))
      && after.sticky == if unknown && limits.cost.Some? then
                           Some(Decision(CostUnavailable, MaxCostUsd, s, after.used.cost + after.held.cost,
                                         after.held.cost, 0, true, charge.now))
                         else before.sticky
  {
    hide Retained, HalfEven, EstimateCost;
    var r, reservation := LoadState(ledger, b).At(s), Reserved(open);
    assert Settle(ledger, b, open, charge)[b.Accounts().At(s)]
        == SettleRecord(s, b.limits.At(s), r, reservation, charge, b.pricing);
  }
}
