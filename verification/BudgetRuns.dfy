/** Every interleaving of preflights, settlements and releases by any number of task budgets
    that share one workflow ledger (src/aep/execution_budgets.py:384-711). */
module BudgetRuns {
  import opened Wrappers
  import opened Money
  import opened BudgetLedger

  /** A task budget: its binding and the reservation it has open. */
  datatype Holder = Holder(binding: Binding, open: Option<Usage>)

  /** Money, tokens and attempts a settlement kept because their spend is unknown. */
  datatype Retention = Retention(binding: Binding, kept: Usage)

  datatype System = System(ledger: Ledger, holders: seq<Holder>, retained: seq<Retention>)

  /** One atomic store mutation by holder `who`, with the local assignment that follows it. */
  datatype Op =
    | DoPreflight(who: nat, request: Request)
    | DoRecord(who: nat, charge: Charge)
    | DoRelease(who: nat)
  {
    predicate In(sys: System) { who < |sys.holders| }
  }

  function Step(sys: System, op: Op): System {
    if !op.In(sys) then sys
    else
      var h := sys.holders[op.who];
      match op
      case DoPreflight(who, request) =>
        var (ledger, verdict) := Preflight(sys.ledger, h.binding, request);
        var open := if verdict.Ok? then Some(verdict.value.hold) else h.open;
        System(ledger, sys.holders[who := h.(open := open)], sys.retained)
      case DoRecord(who, charge) =>
        System(Settle(sys.ledger, h.binding, h.open, charge),
               sys.holders[who := h.(open := None)],
               sys.retained + [Retention(h.binding, Retained(Reserved(h.open), charge.unreconciled))])
      case DoRelease(who) =>
        System(Release(sys.ledger, h.binding, h.open), sys.holders[who := h.(open := None)], sys.retained)
  }

  /** The bindings of a system: sensible prices, and one set of limits per account, as all
      bindings of one WorkflowExecution are resolved from the same Resources. */
  ghost predicate WellBound(sys: System) {
    && (forall h | h in sys.holders :: h.binding.pricing.Some? ==> h.binding.pricing.value.Valid())
    && (forall g, h | g in sys.holders && h in sys.holders :: LimitsAgree(g.binding, h.binding))
  }

  predicate LimitsAgree(a: Binding, b: Binding) {
    && a.limits.workflow == b.limits.workflow
    && (a.taskKey == b.taskKey ==> a.limits.task == b.limits.task)
    && (a.agentKey == b.agentKey ==> a.limits.agent == b.limits.agent)
  }

  /** Nothing reserved or charged yet. */
  ghost predicate Initial(sys: System) {
    && sys.ledger == map[]
    && sys.retained == []
    && (forall h | h in sys.holders :: h.open.None?)
    && WellBound(sys)
  }

  // ---------------------------------------------------------------- accounting

  function HeldAt(ledger: Ledger, a: Account): Usage {
    if a in ledger then ledger[a].held else NOTHING
  }

  function Share(b: Binding, amount: Usage, a: Account): Usage {
    if b.Charges(a) then amount else NOTHING
  }

  function LiveShare(h: Holder, a: Account): Usage {
    if h.open.Some? then Share(h.binding, h.open.value, a) else NOTHING
  }

  /** The sum of the live reservations that charge `a`. */
  function Live(holders: seq<Holder>, a: Account): Usage {
    if holders == [] then NOTHING
    else Live(holders[..|holders| - 1], a).Plus(LiveShare(holders[|holders| - 1], a))
  }

  /** The sum of the amounts retained in `a` for unreconciled attempts. */
  function Kept(retained: seq<Retention>, a: Account): Usage {
    if retained == [] then NOTHING
    else
      var last := retained[|retained| - 1];
      Kept(retained[..|retained| - 1], a).Plus(Share(last.binding, last.kept, a))
  }

  /** No amount is negative, and an open reservation has at least one attempt. */
  ghost predicate Proper(sys: System) {
    && (forall h | h in sys.holders ::
          h.open.Some? ==> h.open.value.Covers(NOTHING) && 1 <= h.open.value.invocations)
    && (forall r | r in sys.retained :: r.kept.Covers(NOTHING))
  }

  ghost predicate Balanced(sys: System, a: Account) {
    HeldAt(sys.ledger, a) == Live(sys.holders, a).Plus(Kept(sys.retained, a))
  }

  /** Every account holds exactly its live reservations and its retained amounts. */
  ghost predicate Accounted(sys: System) {
    Proper(sys) && forall a: Account :: Balanced(sys, a)
  }

  lemma {:induction false} LiveWithout(holders: seq<Holder>, who: nat, h: Holder, a: Account)
    requires who < |holders|
    ensures Live(holders[who := h], a).Plus(LiveShare(holders[who], a))
         == Live(holders, a).Plus(LiveShare(h, a))
  {
    var last := |holders| - 1;
    if who == last {
      assert holders[who := h][..last] == holders[..last];
    } else {
      assert holders[who := h][..last] == holders[..last][who := h];
      LiveWithout(holders[..last], who, h, a);
    }
  }

  lemma {:induction false} LiveCovers(holders: seq<Holder>, who: nat, a: Account)
    requires who < |holders|
    requires forall h | h in holders :: h.open.Some? ==> h.open.value.Covers(NOTHING)
    ensures Live(holders, a).Covers(LiveShare(holders[who], a))
  {
    var last := |holders| - 1;
    if who == last {
      if last != 0 { LiveCovers(holders[..last], 0, a); }
    } else {
      LiveCovers(holders[..last], who, a);
    }
  }

  lemma {:induction false} KeptNonNegative(retained: seq<Retention>, a: Account)
    requires forall r | r in retained :: r.kept.Covers(NOTHING)
    ensures Kept(retained, a).Covers(NOTHING)
  {
    if retained != [] { KeptNonNegative(retained[..|retained| - 1], a); }
  }

  lemma KeptAppend(retained: seq<Retention>, r: Retention, a: Account)
    ensures Kept(retained + [r], a) == Kept(retained, a).Plus(Share(r.binding, r.kept, a))
  {
    assert (retained + [r])[..|retained|] == retained;
  }

  lemma RetainedIsNonNegative(reservation: Usage, unreconciled: nat)
    requires reservation.Covers(NOTHING)
    ensures Retained(reservation, unreconciled).Covers(NOTHING)
  {
    var granted := Max(1, reservation.invocations);
    var attempts := Min(unreconciled, granted);
    PortionIsNonNegative(reservation.input, granted, attempts);
    PortionIsNonNegative(reservation.output, granted, attempts);
  }

  lemma PortionIsNonNegative(amount: nat, granted: int, attempts: nat)
    requires 1 <= granted
    ensures 0 <= amount / granted * attempts
  {
  }

  /** A settlement never clamps: in an accounted system each of the three records holds at
      least the reservation being settled, so no other budget's hold can be consumed. */
  lemma SettlementNeverClamps(sys: System, who: nat, a: Account)
    requires Accounted(sys) && who < |sys.holders|
    requires sys.holders[who].open.Some? && sys.holders[who].binding.Charges(a)
    ensures HeldAt(sys.ledger, a).Covers(sys.holders[who].open.value)
  {
    LiveCovers(sys.holders, who, a);
    KeptNonNegative(sys.retained, a);
    assert Balanced(sys, a);
  }

  /** What each operation does to the held amount of one account. */
  lemma PreflightHolds(ledger: Ledger, b: Binding, request: Request, a: Account)
    ensures
      var (after, verdict) := Preflight(ledger, b, request);
      HeldAt(after, a) ==
        if verdict.Ok? then HeldAt(ledger, a).Plus(Share(b, verdict.value.hold, a)) else HeldAt(ledger, a)
  {
    hide Verdict;
  }

  lemma SettleHolds(ledger: Ledger, b: Binding, open: Option<Usage>, charge: Charge, a: Account)
    ensures HeldAt(Settle(ledger, b, open, charge), a) ==
              if b.Charges(a)
              then HeldAt(ledger, a).Less(Reserved(open)).Plus(Retained(Reserved(open), charge.unreconciled))
              else HeldAt(ledger, a)
  {
    hide Retained, OverLimit, CostEvidence;
  }

  lemma ReleaseHolds(ledger: Ledger, b: Binding, open: Option<Usage>, a: Account)
    ensures HeldAt(Release(ledger, b, open), a) ==
              if open.Some? && b.Charges(a) then HeldAt(ledger, a).Less(open.value) else HeldAt(ledger, a)
  {
  }

  /** What a caller can see before a call that keeps the accounts: a preflight with nothing open,
      and a settlement of an open reservation, or of none while the three records hold no
      invocation at all. */
  ghost predicate KeepsAccounts(sys: System, op: Op) {
    op.In(sys) ==>
      var h := sys.holders[op.who];
      && (op.DoPreflight? ==> h.open.None?)
      && (op.DoRecord? ==> h.open.Some? || Idle(sys.ledger, h.binding))
  }

  /** A preflight that the ledger refuses. */
  predicate Refused(sys: System, op: Op) {
    op.In(sys) && op.DoPreflight? && Preflight(sys.ledger, sys.holders[op.who].binding, op.request).1.Err?
  }

  predicate Idle(ledger: Ledger, b: Binding) {
    && HeldAt(ledger, WorkflowAccount).invocations == 0
    && HeldAt(ledger, TaskAccount(b.taskKey)).invocations == 0
    && HeldAt(ledger, AgentAccount(b.agentKey)).invocations == 0
  }

  lemma VerdictIsProper(b: Binding, ledger: Ledger, request: Request)
    requires b.pricing.Some? ==> b.pricing.value.Valid()
    ensures
      var verdict := Preflight(ledger, b, request).1;
      verdict.Ok? ==> verdict.value.hold.Covers(NOTHING) && 1 <= verdict.value.hold.invocations
  {
    hide Plan, Evaluate, ShortOfMoney, MinimumRoom, LoadState;
    var state := LoadState(ledger, b);
    if Evaluate(b.limits, state, request.Estimate(), request.now, b.pricing).None? {
      AdmittedFitsOneAttempt(b, state, request);
      PlanFits(MinimumRoom(b.limits, state), b.pricing, request);
      PlanIsNonNegative(MinimumRoom(b.limits, state), b.pricing, request);
    }
  }

  lemma StepKeepsProper(sys: System, op: Op)
    requires Proper(sys) && WellBound(sys)
    ensures Proper(Step(sys, op))
  {
    hide Preflight, Settle, Release, Retained;
    if op.In(sys) {
      var h := sys.holders[op.who];
      match op
      case DoPreflight(who, request) => VerdictIsProper(h.binding, sys.ledger, request);
      case DoRecord(who, charge) => RetainedIsNonNegative(Reserved(h.open), charge.unreconciled);
      case DoRelease(who) =>
    }
  }

  lemma StepKeepsBindings(sys: System, op: Op)
    requires WellBound(sys)
    ensures WellBound(Step(sys, op))
  {
    hide Preflight, Settle, Release, Retained;
  }

  /** After a preflight an account is balanced exactly when nothing open was overwritten. */
  lemma PreflightBalance(sys: System, who: nat, request: Request, a: Account)
    requires Accounted(sys) && who < |sys.holders|
    ensures
      var h := sys.holders[who];
      Balanced(Step(sys, DoPreflight(who, request)), a) <==>
        Preflight(sys.ledger, h.binding, request).1.Err? || LiveShare(h, a) == NOTHING
  {
    hide Preflight, Live, Kept, LiveShare, HeldAt;
    var h, after := sys.holders[who], Step(sys, DoPreflight(who, request));
    LiveWithout(sys.holders, who, after.holders[who], a);
    PreflightHolds(sys.ledger, h.binding, request, a);
    assert Balanced(sys, a);
    var verdict := Preflight(sys.ledger, h.binding, request).1;
    if verdict.Ok? {
      LiveShareIs(after.holders[who], verdict.value.hold, a);
    } else {
      assert after.holders == sys.holders;
    }
  }

  lemma LiveShareIs(h: Holder, amount: Usage, a: Account)
    requires h.open == Some(amount)
    ensures LiveShare(h, a) == Share(h.binding, amount, a)
  {
  }

  /** After a settlement an account is balanced exactly when it was this budget's hold that was
      settled, or there was nothing the assumed invocation could be taken from. */
  lemma RecordBalance(sys: System, who: nat, charge: Charge, a: Account)
    requires Accounted(sys) && who < |sys.holders|
    ensures
      var h := sys.holders[who];
      Balanced(Step(sys, DoRecord(who, charge)), a) <==>
        h.open.Some? || !h.binding.Charges(a) || HeldAt(sys.ledger, a).invocations == 0
  {
    hide Settle, Retained, Live, Kept, LiveShare, HeldAt;
    var h, after := sys.holders[who], Step(sys, DoRecord(who, charge));
    var kept := Retained(Reserved(h.open), charge.unreconciled);
    LiveWithout(sys.holders, who, after.holders[who], a);
    NothingOpenSharesNothing(after.holders[who], a);
    SettleHolds(sys.ledger, h.binding, h.open, charge, a);
    KeptAppend(sys.retained, Retention(h.binding, kept), a);
    HeldIsNonNegative(sys, a);
    assert Balanced(sys, a);
    if h.open.Some? {
      LiveShareIs(h, h.open.value, a);
      if h.binding.Charges(a) { SettlementNeverClamps(sys, who, a); }
    } else {
      NothingOpenSharesNothing(h, a);
    }
  }

  lemma NothingOpenSharesNothing(h: Holder, a: Account)
    requires h.open.None?
    ensures LiveShare(h, a) == NOTHING
  {
  }

  lemma ReleaseBalance(sys: System, who: nat, a: Account)
    requires Accounted(sys) && who < |sys.holders|
    ensures Balanced(Step(sys, DoRelease(who)), a)
  {
    hide Release, Live, Kept;
    var h, after := sys.holders[who], Step(sys, DoRelease(who));
    LiveWithout(sys.holders, who, after.holders[who], a);
    ReleaseHolds(sys.ledger, h.binding, h.open, a);
    if h.open.Some? && h.binding.Charges(a) { SettlementNeverClamps(sys, who, a); }
    assert Balanced(sys, a);
  }

  lemma HeldIsNonNegative(sys: System, a: Account)
    requires Accounted(sys)
    ensures HeldAt(sys.ledger, a).Covers(NOTHING)
  {
    if sys.holders != [] { LiveCovers(sys.holders, 0, a); }
    KeptNonNegative(sys.retained, a);
    assert Balanced(sys, a);
  }

  /** A refused preflight moves nothing: no reservation opens or closes, and no account holds
      more or less than before. */
  lemma RefusedPreflightMovesNothing(sys: System, op: Op)
    requires Refused(sys, op)
    ensures Step(sys, op).holders == sys.holders && Step(sys, op).retained == sys.retained
    ensures forall a: Account :: HeldAt(Step(sys, op).ledger, a) == HeldAt(sys.ledger, a)
    ensures Accounted(Step(sys, op)) <==> Accounted(sys)
  {
    hide Preflight, HeldAt;
    var after := Step(sys, op);
    assert after.holders == sys.holders;
    forall a: Account
      ensures HeldAt(after.ledger, a) == HeldAt(sys.ledger, a)
      ensures Balanced(after, a) <==> Balanced(sys, a)
    {
      PreflightHolds(sys.ledger, sys.holders[op.who].binding, op.request, a);
    }
  }

  /** Any other step keeps every account balanced exactly when it is one of those calls.  A record
      without an open reservation takes one invocation out of somebody else's hold, and a second
      admitted preflight leaks the first reservation. */
  lemma AccountsAreKeptExactly(sys: System, op: Op)
    requires Accounted(sys) && WellBound(sys)
    ensures !Refused(sys, op) ==> (Accounted(Step(sys, op)) <==> KeepsAccounts(sys, op))
  {
    hide Preflight, Settle, Release, Retained;
    StepKeepsProper(sys, op);
    var after := Step(sys, op);
    if op.In(sys) {
      var h := sys.holders[op.who];
      var accounts := h.binding.Accounts();
      forall a: Account
        ensures op.DoPreflight? ==> (Balanced(after, a) <==> Refused(sys, op) || LiveShare(h, a) == NOTHING)
        ensures op.DoRecord? ==> (Balanced(after, a) <==>
                  h.open.Some? || !h.binding.Charges(a) || HeldAt(sys.ledger, a).invocations == 0)
        ensures op.DoRelease? ==> Balanced(after, a)
      {
        match op
        case DoPreflight(who, request) => PreflightBalance(sys, who, request, a);
        case DoRecord(who, charge) => RecordBalance(sys, who, charge, a);
        case DoRelease(who) => ReleaseBalance(sys, who, a);
      }
      assert Balanced(after, accounts.workflow) || !Balanced(after, accounts.workflow);
      assert Balanced(after, accounts.task) || !Balanced(after, accounts.task);
      assert Balanced(after, accounts.agent) || !Balanced(after, accounts.agent);
    }
  }

  /** The half the runs need: a step of a caller that keeps the discipline keeps the accounts. */
  lemma ProceedingKeepsAccounts(sys: System, op: Op)
    requires Accounted(sys) && WellBound(sys) && Proceeds(sys, op)
    ensures Accounted(Step(sys, op))
  {
    hide Step, Accounted, WellBound, Refused;
    if Refused(sys, op) {
      RefusedPreflightMovesNothing(sys, op);
    } else {
      AccountsAreKeptExactly(sys, op);
    }
  }

  // ---------------------------------------------------------------- runs

  function Run(sys: System, ops: seq<Op>): System
    decreases |ops|
  {
    hide Step;
    if ops == [] then sys else Run(Step(sys, ops[0]), ops[1..])
  }

  /** How the control plane calls a budget: a preflight with nothing open, and a record only
      after its own preflight (src/aep/agent_invocation.py:146-447). */
  predicate Disciplined(sys: System, ops: seq<Op>)
    decreases |ops|
  {
    hide Step;
    ops == [] || (Proceeds(sys, ops[0]) && Disciplined(Step(sys, ops[0]), ops[1..]))
  }

  predicate Proceeds(sys: System, op: Op) {
    op.In(sys) ==>
      && (op.DoPreflight? ==> sys.holders[op.who].open.None?)
      && (op.DoRecord? ==> sys.holders[op.who].open.Some?)
  }

  lemma RunOne(sys: System, op: Op)
    ensures Run(sys, [op]) == Step(sys, op)
    ensures Disciplined(sys, [op]) <==> Proceeds(sys, op)
  {
    hide Step;
    assert [op][1..] == [];
  }

  lemma RunTwo(sys: System, first: Op, second: Op)
    ensures Run(sys, [first, second]) == Step(Step(sys, first), second)
    ensures Disciplined(sys, [first, second]) <==> Proceeds(sys, first) && Proceeds(Step(sys, first), second)
  {
    hide Step;
    assert [first, second][1..] == [second];
    RunOne(Step(sys, first), second);
  }

  /** Over every disciplined run, however the budgets interleave, each account holds exactly the
      live reservations that charge it plus what was retained for unreconciled attempts. */
  lemma {:induction false} RunsStayAccounted(sys: System, ops: seq<Op>)
    requires Accounted(sys) && WellBound(sys) && Disciplined(sys, ops)
    ensures Accounted(Run(sys, ops))
    decreases |ops|
  {
    hide Step;
    if ops != [] {
      ProceedingKeepsAccounts(sys, ops[0]);
      StepKeepsBindings(sys, ops[0]);
      RunsStayAccounted(Step(sys, ops[0]), ops[1..]);
    }
  }

  lemma InitialIsAccounted(sys: System)
    requires Initial(sys)
    ensures Accounted(sys)
  {
    forall a: Account ensures Balanced(sys, a) { NothingLive(sys.holders, a); }
  }

  lemma {:induction false} NothingLive(holders: seq<Holder>, a: Account)
    requires forall h | h in holders :: h.open.None?
    ensures Live(holders, a) == NOTHING
  {
    if holders != [] { NothingLive(holders[..|holders| - 1], a); }
  }

  // ---------------------------------------------------------------- single operations, as their callers rest on them

  /** Only the budget that preflights, records or releases has its reservation moved. */
  ghost predicate MovesOnly(sys: System, after: System, who: nat)
    requires who < |sys.holders|
  {
    && |after.holders| == |sys.holders|
    && (forall g | 0 <= g < |sys.holders| && g != who :: after.holders[g] == sys.holders[g])
  }

  lemma PreflightMoves(sys: System, who: nat, request: Request)
    requires who < |sys.holders|
    ensures
      var op := DoPreflight(who, request);
      var after := Step(sys, op);
      && MovesOnly(sys, after, who)
      && if Refused(sys, op) then after.holders == sys.holders else after.holders[who].open.Some?
  {
    hide Preflight;
  }

  lemma RecordMoves(sys: System, who: nat, charge: Charge)
    requires who < |sys.holders|
    ensures
      var after := Step(sys, DoRecord(who, charge));
      MovesOnly(sys, after, who) && after.holders[who].open.None?
  {
    hide Settle, Retained;
  }

  lemma ReleaseMoves(sys: System, who: nat)
    requires who < |sys.holders|
    ensures
      var after := Step(sys, DoRelease(who));
      MovesOnly(sys, after, who) && after.holders[who].open.None?
  {
    hide Release;
  }

  /** An admitted preflight opens a reservation, and keeps the accounts exactly if none was open. */
  lemma AdmittedPreflight(sys: System, who: nat, request: Request)
    requires Accounted(sys) && WellBound(sys) && who < |sys.holders| && !Refused(sys, DoPreflight(who, request))
    ensures
      var after := Step(sys, DoPreflight(who, request));
      && (Accounted(after) <==> sys.holders[who].open.None?) && WellBound(after)
      && MovesOnly(sys, after, who) && after.holders[who].open.Some?
  {
    hide Accounted, WellBound, Refused, Step;
    PreflightMoves(sys, who, request);
    AccountsAreKeptExactly(sys, DoPreflight(who, request));
    StepKeepsBindings(sys, DoPreflight(who, request));
  }

  /** A refused preflight changes no reservation, a record or a release closes its own, and all keep
      the accounts. */
  lemma OtherOperation(sys: System, op: Op)
    requires Accounted(sys) && WellBound(sys) && op.In(sys)
    requires Refused(sys, op) || (!op.DoPreflight? && sys.holders[op.who].open.Some?)
    ensures
      var after := Step(sys, op);
      && Accounted(after) && WellBound(after) && MovesOnly(sys, after, op.who)
      && after.holders[op.who].open == if op.DoPreflight? then sys.holders[op.who].open else None
  {
    hide Accounted, WellBound, Refused, Step;
    StepKeepsBindings(sys, op);
    if Refused(sys, op) {
      RefusedPreflightMovesNothing(sys, op);
    } else {
      ProceedingKeepsAccounts(sys, op);
    }
    match op
    case DoPreflight(who, request) => PreflightMoves(sys, who, request);
    case DoRecord(who, charge) => RecordMoves(sys, who, charge);
    case DoRelease(who) => ReleaseMoves(sys, who);
  }
}
