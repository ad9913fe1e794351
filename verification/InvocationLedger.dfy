/** Invocations and the ledger they charge, together: every store access of every call of
    `invoke_agent` interleaved, with the preflights, records and releases they make
    (src/aep/agent_invocation.py:143-518, src/aep/execution_budgets.py:384-720). */
module InvocationLedger {
  import opened Wrappers
  import opened BudgetLedger
  import AgentInvocation
  import BudgetMisuse
  import BudgetRuns
  import RuntimeStore

  /** `budgetOf[i]` is the TaskBudget call `i` was given; a retry may be given the same one. */
  datatype Joint = Joint(calls: AgentInvocation.System, ledger: BudgetRuns.System, budgetOf: seq<nat>)

  /** A step of a call; the request and the charge are used if it preflights or records. */
  datatype Move = Move(action: AgentInvocation.Action, request: Request, charge: Charge)

  function CallAt(j: Joint, who: nat): AgentInvocation.Call
    requires who < |j.calls.calls|
  {
    j.calls.calls[who]
  }

  /** Call `who` is about to ask its budget. */
  predicate Asks(j: Joint, m: Move) {
    && m.action.Advance? && m.action.who < |j.calls.calls| && m.action.who < |j.budgetOf|
    && CallAt(j, m.action.who).phase == AgentInvocation.ModelRead && CallAt(j, m.action.who).hasBudget
  }

  /** The budget answers, unless the store fails while it does. */
  predicate Admits(j: Joint, m: Move)
    requires Asks(j, m)
  {
    && m.action.choice != AgentInvocation.Refuse
    && j.budgetOf[m.action.who] < |j.ledger.holders|
    && !BudgetRuns.Refused(j.ledger, BudgetRuns.DoPreflight(j.budgetOf[m.action.who], m.request))
  }

  /** The step of the call, with the answer its budget gives. */
  function Action(j: Joint, m: Move): (a: AgentInvocation.Action)
    ensures a.who == m.action.who
  {
    if Asks(j, m) && !Admits(j, m) then m.action.(choice := AgentInvocation.Refuse) else m.action
  }

  /** What the step does to the ledger. */
  function Charges(j: Joint, m: Move): Option<BudgetRuns.Op> {
    if m.action.who >= |j.calls.calls| || m.action.who >= |j.budgetOf| then None
    else
      var before, h := CallAt(j, m.action.who), j.budgetOf[m.action.who];
      var after := AgentInvocation.Step(j.calls, Action(j, m)).calls;
      if Asks(j, m) then
        if m.action.choice == AgentInvocation.Refuse then None else Some(BudgetRuns.DoPreflight(h, m.request))
      else if m.action.who >= |after| || after[m.action.who].settlements == before.settlements then None
      else if before.phase.Dispatched? then Some(BudgetRuns.DoRecord(h, m.charge))
      else Some(BudgetRuns.DoRelease(h))
  }

  function Step(j: Joint, m: Move): Joint {
    var op := Charges(j, m);
    Joint(AgentInvocation.Step(j.calls, Action(j, m)),
          if op.None? then j.ledger else BudgetRuns.Step(j.ledger, op.value),
          j.budgetOf)
  }

  function Run(j: Joint, moves: seq<Move>): Joint
    decreases |moves|
  {
    hide Step;
    if moves == [] then j else Run(Step(j, moves[0]), moves[1..])
  }

  /** Fresh calls, each with a budget of the ledger, and a fresh ledger. */
  ghost predicate Initial(j: Joint) {
    && AgentInvocation.Initial(j.calls) && BudgetRuns.Initial(j.ledger)
    && |j.budgetOf| == |j.calls.calls|
    && forall h | h in j.budgetOf :: h < |j.ledger.holders|
  }

  // ---------------------------------------------------------------- who owes what

  /** The call has reserved and not yet given back or charged. */
  predicate Outstanding(c: AgentInvocation.Call) {
    c.reserved && c.settlements == 0
  }

  ghost predicate Owes(j: Joint, i: nat, h: nat) {
    i < |j.calls.calls| && i < |j.budgetOf| && j.budgetOf[i] == h && Outstanding(j.calls.calls[i])
  }

  /** Nobody has a reservation open on budget `h`. */
  ghost predicate Free(j: Joint, h: nat) {
    forall i: nat :: !Owes(j, i, h)
  }

  /** An open reservation belongs to exactly one call that owes it. */
  ghost predicate Matched(j: Joint) {
    && (forall h: nat | h < |j.ledger.holders| :: j.ledger.holders[h].open.None? <==> Free(j, h))
    && (forall h: nat, i: nat, k: nat | Owes(j, i, h) && Owes(j, k, h) :: i == k)
  }

  ghost predicate Shaped(j: Joint) {
    && |j.budgetOf| == |j.calls.calls|
    && forall h | h in j.budgetOf :: h < |j.ledger.holders|
  }

  ghost predicate JointInv(j: Joint) {
    && AgentInvocation.Inv(j.calls) && Shaped(j) && Matched(j)
    && BudgetRuns.Accounted(j.ledger) && BudgetRuns.WellBound(j.ledger)
  }

  /** How one step of a call changes what it owes. */
  ghost predicate OwesMore(before: AgentInvocation.Call, after: AgentInvocation.Call) {
    !before.reserved && before.settlements == 0 && Outstanding(after)
  }

  ghost predicate OwesLess(before: AgentInvocation.Call, after: AgentInvocation.Call) {
    Outstanding(before) && after.reserved && after.settlements == 1
  }

  ghost predicate OwesTheSame(before: AgentInvocation.Call, after: AgentInvocation.Call) {
    after.reserved == before.reserved && after.settlements == before.settlements
  }

  /** The call settles if it owes, or changes nothing about it. */
  ghost predicate OwesNoMore(before: AgentInvocation.Call, after: AgentInvocation.Call) {
    OwesTheSame(before, after) || OwesLess(before, after)
  }

  lemma ReadsOwe(sys: AgentInvocation.System, c: AgentInvocation.Call, choice: AgentInvocation.Choice)
    requires AgentInvocation.CallInv(c)
    ensures OwesTheSame(c, AgentInvocation.ReadAgent(sys, c))
    ensures OwesTheSame(c, AgentInvocation.ReadModel(sys, c))
    ensures c.phase == AgentInvocation.ModelRead ==>
              if c.hasBudget && choice != AgentInvocation.Refuse
              then OwesMore(c, AgentInvocation.Preflight(c, choice))
              else OwesTheSame(c, AgentInvocation.Preflight(c, choice))
  {
  }

  lemma SettlingOwes(c: AgentInvocation.Call, phase: AgentInvocation.Phase)
    requires AgentInvocation.CallInv(c) && AgentInvocation.BeforeSettlement(c.phase)
    ensures OwesNoMore(c, AgentInvocation.Settled(c, phase))
  {
  }

  lemma ClaimOwes(sys: AgentInvocation.System, who: nat)
    requires who < |sys.calls| && AgentInvocation.CallInv(sys.calls[who])
    requires sys.calls[who].phase in {AgentInvocation.Preflighted, AgentInvocation.Claimed,
                                      AgentInvocation.AgentCreated}
    ensures OwesNoMore(sys.calls[who], AgentInvocation.ClaimPair(sys, who).calls[who])
    ensures OwesNoMore(sys.calls[who], AgentInvocation.CreateAgent(sys, who).calls[who])
    ensures OwesNoMore(sys.calls[who], AgentInvocation.CreateModel(sys, who).calls[who])
  {
    hide OwesNoMore, AgentInvocation.Settled;
    var c := sys.calls[who];
    forall phase ensures OwesNoMore(c, AgentInvocation.Settled(c, phase)) { SettlingOwes(c, phase); }
    forall phase ensures OwesNoMore(c, AgentInvocation.Stays(c, phase)) { StayingOwes(c, phase); }
  }

  lemma StayingOwes(c: AgentInvocation.Call, phase: AgentInvocation.Phase)
    ensures OwesNoMore(c, AgentInvocation.Stays(c, phase))
  {
  }

  lemma EndingOwes(sys: AgentInvocation.System, who: nat, status: RuntimeStore.Status,
                   ended: AgentInvocation.Phase, lost: AgentInvocation.Phase)
    requires who < |sys.calls|
    ensures OwesNoMore(sys.calls[who], AgentInvocation.EndAgent(sys, who, status, ended, lost).calls[who])
    ensures OwesNoMore(sys.calls[who], AgentInvocation.EndModel(sys, who, status, ended).calls[who])
  {
    hide OwesNoMore;
    var c := sys.calls[who];
    forall phase ensures OwesNoMore(c, AgentInvocation.Stays(c, phase)) { StayingOwes(c, phase); }
  }

  /** Asking its budget makes a call owe, settling makes it owe no more, and no other step changes
      what it owes. */
  lemma CallStep(sys: AgentInvocation.System, a: AgentInvocation.Action)
    requires AgentInvocation.Inv(sys) && a.who < |sys.calls|
    ensures
      var before, after := sys.calls[a.who], AgentInvocation.Step(sys, a).calls;
      && |after| == |sys.calls| && after == sys.calls[a.who := after[a.who]]
      && if a.Advance? && before.phase == AgentInvocation.ModelRead && before.hasBudget
            && a.choice != AgentInvocation.Refuse
         then OwesMore(before, after[a.who])
         else OwesNoMore(before, after[a.who])
  {
    hide OwesMore;
    var c := sys.calls[a.who];
    assert AgentInvocation.CallInv(c);
    hide AgentInvocation.CallInv, AgentInvocation.SystemInv, AgentInvocation.ClaimPair, AgentInvocation.CreateAgent;
    hide AgentInvocation.CreateModel, AgentInvocation.EndAgent, AgentInvocation.EndModel, AgentInvocation.ReadAgent;
    hide AgentInvocation.ReadModel, AgentInvocation.Preflight, AgentInvocation.Settled;
    if c.phase.Returned? || c.phase.Raised? {
    } else if a.Advance? {
      AgentInvocation.ProceedMoves(sys, a.who, a.choice);
      ReadsOwe(sys, c, a.choice);
      match c.phase
      case Preflighted => ClaimOwes(sys, a.who);
      case Claimed => ClaimOwes(sys, a.who);
      case AgentCreated => ClaimOwes(sys, a.who);
      case Conflicting =>
        EndingOwes(sys, a.who, RuntimeStore.Failed,
                   AgentInvocation.Raised(AgentInvocation.ModelIdentityConflict),
                   AgentInvocation.Raised(AgentInvocation.StatusLost));
      case Dispatched(outcome) => SettlingOwes(c, AgentInvocation.Charged(outcome));
      case Charged(outcome) =>
        EndingOwes(sys, a.who, AgentInvocation.ModelStatus(outcome), AgentInvocation.ModelUpdated(outcome),
                   AgentInvocation.Raised(AgentInvocation.StatusLost));
      case ModelUpdated(outcome) =>
        EndingOwes(sys, a.who, AgentInvocation.AgentStatus(outcome),
                   if outcome == AgentInvocation.ValidatorRaised
                   then AgentInvocation.Raised(AgentInvocation.OutputValidatorRaised) else AgentInvocation.Returned,
                   AgentInvocation.Raised(AgentInvocation.StatusLost));
      case _ =>
    }
  }

  lemma MatchedAfter(j: Joint, after: Joint, who: nat, h: nat)
    requires Matched(j) && Shaped(j) && after.budgetOf == j.budgetOf
    requires who < |j.calls.calls| && h == j.budgetOf[who] && h < |j.ledger.holders|
    requires |after.calls.calls| == |j.calls.calls|
    requires after.calls.calls == j.calls.calls[who := after.calls.calls[who]]
    requires |after.ledger.holders| == |j.ledger.holders|
    requires forall g | 0 <= g < |j.ledger.holders| && g != h :: after.ledger.holders[g] == j.ledger.holders[g]
    requires
      var c, d := j.calls.calls[who], after.calls.calls[who];
      var was, now := j.ledger.holders[h].open, after.ledger.holders[h].open;
      || (OwesTheSame(c, d) && now == was)
      || (OwesMore(c, d) && Free(j, h) && now.Some?)
      || (OwesLess(c, d) && now.None?)
    ensures Matched(after)
  {
    forall i: nat, g: nat | i != who ensures Owes(after, i, g) <==> Owes(j, i, g) {
    }
    forall g: nat | g != h ensures Free(after, g) <==> Free(j, g) {
      assert !Owes(after, who, g) && !Owes(j, who, g);
    }
    if OwesMore(j.calls.calls[who], after.calls.calls[who]) {
      assert Owes(after, who, h);
    } else if OwesLess(j.calls.calls[who], after.calls.calls[who]) {
      assert Owes(j, who, h) && !Owes(after, who, h);
    } else {
      assert Owes(after, who, h) <==> Owes(j, who, h);
    }
  }

  // ---------------------------------------------------------------- what every step keeps

  /** A call asks a budget on which nothing is open, or is refused. */
  ghost predicate Orderly(j: Joint, m: Move) {
    Asks(j, m) && Admits(j, m) ==> Free(j, j.budgetOf[m.action.who])
  }

  /** The ledger's part of a step, by what the call does. */
  lemma LedgerStep(j: Joint, m: Move)
    requires JointInv(j) && m.action.who < |j.calls.calls|
    ensures
      var who, h := m.action.who, j.budgetOf[m.action.who];
      var before, after := CallAt(j, who), AgentInvocation.Step(j.calls, Action(j, m)).calls[who];
      if Asks(j, m) && Admits(j, m) then
        OwesMore(before, after) && Charges(j, m) == Some(BudgetRuns.DoPreflight(h, m.request))
      else if OwesLess(before, after) then
        Charges(j, m) in {Some(BudgetRuns.DoRecord(h, m.charge)), Some(BudgetRuns.DoRelease(h))}
      else
        && OwesTheSame(before, after)
        && (Charges(j, m).None? ||
            (Charges(j, m) == Some(BudgetRuns.DoPreflight(h, m.request))
             && BudgetRuns.Refused(j.ledger, Charges(j, m).value)))
  {
    assert AgentInvocation.CallInv(CallAt(j, m.action.who));
    assert Asks(j, m) ==> !Outstanding(CallAt(j, m.action.who));
    hide AgentInvocation.Inv, AgentInvocation.CallInv, AgentInvocation.Step;
    hide BudgetRuns.Accounted, BudgetRuns.WellBound, Matched;
    assert j.budgetOf[m.action.who] in j.budgetOf;
    CallStep(j.calls, Action(j, m));
  }

  lemma SettlesOpen(j: Joint, who: nat)
    requires JointInv(j) && who < |j.calls.calls| && Outstanding(CallAt(j, who))
    ensures j.budgetOf[who] < |j.ledger.holders| && j.ledger.holders[j.budgetOf[who]].open.Some?
  {
    assert j.budgetOf[who] in j.budgetOf;
    assert Owes(j, who, j.budgetOf[who]);
  }

  /** One step of a call together with its ledger keeps every account exactly when it does not ask
      a budget on which a reservation is still open. */
  lemma StepKeepsExactly(j: Joint, m: Move)
    requires JointInv(j)
    ensures BudgetRuns.Accounted(Step(j, m).ledger) <==> Orderly(j, m)
    ensures Orderly(j, m) ==> JointInv(Step(j, m))
  {
    AgentInvocation.StepKeepsInv(j.calls, Action(j, m));
    hide BudgetRuns.Accounted, BudgetRuns.WellBound, Matched, Free, AgentInvocation.Inv;
    if m.action.who >= |j.calls.calls| {
      assert Step(j, m) == j;
    } else if Asks(j, m) && Admits(j, m) {
      hide BudgetRuns.Refused, Outstanding, AgentInvocation.Step, BudgetRuns.Step, Charges, Action;
      var who, h := m.action.who, j.budgetOf[m.action.who];
      LedgerStep(j, m);
      CallStep(j.calls, Action(j, m));
      BudgetRuns.AdmittedPreflight(j.ledger, h, m.request);
      if Orderly(j, m) { MatchedAfter(j, Step(j, m), who, h); }
    } else {
      hide BudgetRuns.Refused, Outstanding, AgentInvocation.Step, BudgetRuns.Step, Asks, Admits, Charges, Action;
      var who, h := m.action.who, j.budgetOf[m.action.who];
      assert h in j.budgetOf;
      LedgerStep(j, m);
      CallStep(j.calls, Action(j, m));
      if Outstanding(CallAt(j, who)) { SettlesOpen(j, who); }
      if Charges(j, m).Some? { BudgetRuns.OtherOperation(j.ledger, Charges(j, m).value); }
      MatchedAfter(j, Step(j, m), who, h);
    }
  }

  // ---------------------------------------------------------------- runs

  /** No call asks a budget on which another call's reservation is still open. */
  ghost predicate AllOrderly(j: Joint, moves: seq<Move>)
    decreases |moves|
  {
    hide Step;
    moves == [] || (Orderly(j, moves[0]) && AllOrderly(Step(j, moves[0]), moves[1..]))
  }

  lemma InitialJointInv(j: Joint)
    requires Initial(j)
    ensures JointInv(j)
  {
    hide BudgetRuns.Accounted;
    BudgetRuns.InitialIsAccounted(j.ledger);
    forall i: nat, h: nat ensures !Owes(j, i, h) {
      if i < |j.calls.calls| { assert j.calls.calls[i] in j.calls.calls; }
    }
    assert Matched(j);
  }

  lemma OwnBudgetIsFree(j: Joint, m: Move)
    requires JointInv(j) && NoDuplicates(j.budgetOf)
    ensures Orderly(j, m)
  {
    hide Matched, Admits, AgentInvocation.SystemInv, BudgetRuns.Accounted, BudgetRuns.WellBound;
    if Asks(j, m) {
      assert AgentInvocation.CallInv(CallAt(j, m.action.who));
      forall i: nat ensures !Owes(j, i, j.budgetOf[m.action.who]) {
      }
    }
  }

  /** Over every run in which no call asks a budget that is open, as is so when each call has a
      budget of its own, the accounts are kept and every open reservation is owed by one call. */
  lemma {:induction false} RunsKeep(j: Joint, moves: seq<Move>)
    requires JointInv(j) && (NoDuplicates(j.budgetOf) || AllOrderly(j, moves))
    ensures JointInv(Run(j, moves)) && Run(j, moves).budgetOf == j.budgetOf
    decreases |moves|
  {
    hide JointInv, Orderly, NoDuplicates, Action, Charges, AgentInvocation.Step, BudgetRuns.Step;
    if moves != [] {
      if NoDuplicates(j.budgetOf) { OwnBudgetIsFree(j, moves[0]); }
      StepKeepsExactly(j, moves[0]);
      RunsKeep(Step(j, moves[0]), moves[1..]);
    }
  }

  /** When each call has a budget of its own, every account holds, after any interleaving of any
      calls and whatever they raise, the reservations its calls owe plus what was retained.  A
      returned call owes nothing; a raised one only if it raised where the code does not settle. */
  lemma InvocationsKeepTheLedger(j: Joint, moves: seq<Move>)
    requires Initial(j) && NoDuplicates(j.budgetOf)
    ensures
      var end := Run(j, moves);
      && BudgetRuns.Accounted(end.ledger) && |end.budgetOf| == |end.calls.calls|
      && (forall i | 0 <= i < |end.calls.calls| ::
            var c := end.calls.calls[i];
            && end.budgetOf[i] < |end.ledger.holders|
            && (end.ledger.holders[end.budgetOf[i]].open.Some? <==> Outstanding(c))
            && (c.phase.Returned? ==> !Outstanding(c))
            && (c.phase.Raised? && Outstanding(c) ==> AgentInvocation.Unsettled(c.phase.reason)))
  {
    hide Run, Initial, JointInv, AllOrderly;
    InitialJointInv(j);
    RunsKeep(j, moves);
    OwesAlone(Run(j, moves));
  }

  lemma OwesAlone(j: Joint)
    requires JointInv(j) && NoDuplicates(j.budgetOf)
    ensures |j.budgetOf| == |j.calls.calls|
    ensures BudgetRuns.Accounted(j.ledger)
    ensures forall i | 0 <= i < |j.calls.calls| ::
              var c := j.calls.calls[i];
              && j.budgetOf[i] < |j.ledger.holders|
              && (j.ledger.holders[j.budgetOf[i]].open.Some? <==> Outstanding(c))
              && (c.phase.Returned? ==> !Outstanding(c))
              && (c.phase.Raised? && Outstanding(c) ==> AgentInvocation.Unsettled(c.phase.reason))
  {
    hide BudgetRuns.Accounted, AgentInvocation.SystemInv;
    forall i | 0 <= i < |j.calls.calls|
      ensures
        var c := j.calls.calls[i];
        && j.budgetOf[i] < |j.ledger.holders|
        && (j.ledger.holders[j.budgetOf[i]].open.Some? <==> Outstanding(c))
        && (c.phase.Returned? ==> !Outstanding(c))
        && (c.phase.Raised? && Outstanding(c) ==> AgentInvocation.Unsettled(c.phase.reason))
    {
      assert AgentInvocation.CallInv(j.calls.calls[i]);
      assert j.budgetOf[i] in j.budgetOf;
      assert Owes(j, i, j.budgetOf[i]) <==> Outstanding(j.calls.calls[i]);
      assert forall k: nat | Owes(j, k, j.budgetOf[i]) :: k == i;
    }
  }

  /** A retry that is given the budget of a call that raised without settling, or of one that is
      still running, breaks the accounts as soon as its preflight is admitted. */
  lemma RetryOnOpenBudgetLeaks(j: Joint, m: Move, first: nat)
    requires JointInv(j) && Asks(j, m) && Admits(j, m)
    requires Owes(j, first, j.budgetOf[m.action.who])
    ensures !BudgetRuns.Accounted(Step(j, m).ledger)
  {
    hide BudgetRuns.Accounted, Step, JointInv;
    StepKeepsExactly(j, m);
  }

  // ---------------------------------------------------------------- a retry on the budget of a call that crashed

  /** A call with a budget, not started yet. */
  function NewCall(agent: AgentInvocation.AgentRecord, model: AgentInvocation.ModelRecord): AgentInvocation.Call {
    AgentInvocation.Call(agent, "model", model, true, AgentInvocation.Start, false, false, false, 0)
  }

  /** An empty store, a fresh ledger, and two calls that are given the same budget. */
  function Retried(b: Binding, agent: AgentInvocation.AgentRecord, model: AgentInvocation.ModelRecord): Joint {
    var call := NewCall(agent, model);
    Joint(AgentInvocation.System(None, map[], None, [call, call], None, [], []),
          BudgetRuns.System(map[], [BudgetRuns.Holder(b, None)], []), [0, 0])
  }

  function Advances(who: nat, charge: Charge): Move {
    Move(AgentInvocation.Advance(who, AgentInvocation.Accept), BudgetMisuse.REQUEST, charge)
  }

  function Crashes(who: nat, charge: Charge): Move {
    Move(AgentInvocation.Crash(who), BudgetMisuse.REQUEST, charge)
  }

  ghost predicate EmptyStore(j: Joint) {
    j.calls.agent.None? && j.calls.models == map[] && j.budgetOf == [0, 0] && |j.calls.calls| == 2
  }

  /** The ledger of one unlimited budget that holds `held`. */
  ghost predicate Stands(ledger: BudgetRuns.System, b: Binding, held: Usage) {
    && |ledger.holders| == 1 && ledger.holders[0].binding == b
    && BudgetMisuse.Unlimited(b) && BudgetMisuse.Holding(ledger.ledger, b, held)
  }

  ghost predicate OneMore(held: Usage, more: Usage) {
    more == held.Plus(BudgetMisuse.ONE)
  }

  lemma OneIsFirst(none: Usage, one: Usage)
    requires none == NOTHING && one == BudgetMisuse.ONE
    ensures OneMore(none, one)
  {
  }

  lemma More(held: Usage) returns (more: Usage)
    ensures OneMore(held, more)
  {
    more := held.Plus(BudgetMisuse.ONE);
  }

  /** Reading an empty store moves the call on and nothing else. */
  lemma ReadingMoves(j: Joint, who: nat, charge: Charge)
    requires EmptyStore(j) && who < 2
    requires CallAt(j, who).phase in {AgentInvocation.Start, AgentInvocation.AgentRead}
    ensures
      var after := Step(j, Advances(who, charge));
      && EmptyStore(after) && after.ledger == j.ledger
      && CallAt(after, 1 - who) == CallAt(j, 1 - who)
      && CallAt(after, who).hasBudget == CallAt(j, who).hasBudget
      && CallAt(after, who).settlements == CallAt(j, who).settlements
      && CallAt(after, who).phase ==
           (if CallAt(j, who).phase == AgentInvocation.Start then AgentInvocation.AgentRead
               else AgentInvocation.ModelRead)
      && Orderly(j, Advances(who, charge))
  {
  }

  lemma CrashingMoves(j: Joint, who: nat, charge: Charge)
    requires EmptyStore(j) && who < 2 && CallAt(j, who).phase == AgentInvocation.Preflighted
    ensures
      var after := Step(j, Crashes(who, charge));
      && EmptyStore(after) && after.ledger == j.ledger
      && CallAt(after, 1 - who) == CallAt(j, 1 - who)
      && CallAt(after, who).reserved == CallAt(j, who).reserved
      && CallAt(after, who).settlements == CallAt(j, who).settlements
      && Orderly(j, Crashes(who, charge))
  {
  }

  lemma GrantingMoves(j: Joint, who: nat, b: Binding, held: Usage, more: Usage, charge: Charge)
    requires OneMore(held, more)
    requires EmptyStore(j) && who < 2 && Stands(j.ledger, b, held)
    requires CallAt(j, who).phase == AgentInvocation.ModelRead && CallAt(j, who).hasBudget
    ensures Asks(j, Advances(who, charge)) && Admits(j, Advances(who, charge))
    ensures
      var after := Step(j, Advances(who, charge));
      && EmptyStore(after) && Stands(after.ledger, b, more)
      && CallAt(after, 1 - who) == CallAt(j, 1 - who)
      && CallAt(after, who).phase == AgentInvocation.Preflighted
      && CallAt(after, who).reserved && CallAt(after, who).settlements == CallAt(j, who).settlements
  {
    hide BudgetMisuse.Unlimited, BudgetMisuse.Holding, BudgetLedger.Preflight;
    BudgetMisuse.GrantHolds(j.ledger.ledger, b, held);
  }

  lemma RetriedIsInitial(b: Binding, agent: AgentInvocation.AgentRecord, model: AgentInvocation.ModelRecord)
    requires BudgetMisuse.Unlimited(b)
    ensures
      var j := Retried(b, agent, model);
      && Initial(j) && EmptyStore(j) && Stands(j.ledger, b, NOTHING)
  {
  }

  lemma {:induction false} RunThen(j: Joint, moves: seq<Move>, m: Move)
    ensures Run(j, moves + [m]) == Step(Run(j, moves), m)
    decreases |moves|
  {
    hide Step;
    if moves == [] {
      assert [] + [m] == [m] && [m][1..] == [];
    } else {
      assert (moves + [m])[1..] == moves[1..] + [m];
      RunThen(Step(j, moves[0]), moves[1..], m);
    }
  }

  /** A call that starts gets as far as its budget. */
  lemma ReadsTwice(j: Joint, who: nat, charge: Charge)
    requires EmptyStore(j) && who < 2 && CallAt(j, who).phase == AgentInvocation.Start
    ensures
      var ask := Advances(who, charge);
      var after := Step(Step(j, ask), ask);
      && Orderly(j, ask) && Orderly(Step(j, ask), ask)
      && EmptyStore(after) && after.ledger == j.ledger && CallAt(after, 1 - who) == CallAt(j, 1 - who)
      && CallAt(after, who).phase == AgentInvocation.ModelRead
      && CallAt(after, who).hasBudget == CallAt(j, who).hasBudget
      && CallAt(after, who).settlements == CallAt(j, who).settlements
  {
    hide Orderly, Step;
    ReadingMoves(j, who, charge);
    ReadingMoves(Step(j, Advances(who, charge)), who, charge);
  }

  lemma FirstIsOrderly(j: Joint, charge: Charge)
    requires JointInv(j) && j.budgetOf == [0, 0] && |j.ledger.holders| == 1 && j.ledger.holders[0].open.None?
    ensures Orderly(j, Advances(0, charge))
  {
  }

  /** The six moves of the retry up to its own preflight, and that preflight. */
  function RetryMoves(charge: Charge): seq<Move> {
    var first, second := Advances(0, charge), Advances(1, charge);
    [] + [first] + [first] + [first] + [Crashes(0, charge)] + [second] + [second] + [second]
  }

  lemma RunOfSeven(start: Joint, charge: Charge)
    ensures
      var first, second := Advances(0, charge), Advances(1, charge);
      var granted := Step(Step(Step(start, first), first), first);
      var asking := Step(Step(Step(granted, Crashes(0, charge)), second), second);
      Run(start, RetryMoves(charge)) == Step(asking, second)
  {
    hide Step;
    var first, crash, second := Advances(0, charge), Crashes(0, charge), Advances(1, charge);
    RunThen(start, [], first);
    RunThen(start, [] + [first], first);
    RunThen(start, [] + [first] + [first], first);
    RunThen(start, [] + [first] + [first] + [first], crash);
    RunThen(start, [] + [first] + [first] + [first] + [crash], second);
    RunThen(start, [] + [first] + [first] + [first] + [crash] + [second], second);
    RunThen(start, [] + [first] + [first] + [first] + [crash] + [second] + [second], second);
  }

  /** A retry of one invocation on the budget of the call that crashed breaks the accounts: a run
      from fresh calls and a fresh ledger ends with a hold that is not the open reservation. */
  lemma RetryLeaks(b: Binding, agent: AgentInvocation.AgentRecord, model: AgentInvocation.ModelRecord, charge: Charge)
    requires BudgetMisuse.Unlimited(b)
    ensures Initial(Retried(b, agent, model))
    ensures !BudgetRuns.Accounted(Run(Retried(b, agent, model), RetryMoves(charge)).ledger)
  {
    hide JointInv, Step, Run, Orderly, Asks, Admits, Initial, Stands, Free, OneMore, RetryMoves;
    hide BudgetMisuse.Unlimited, BudgetRuns.Accounted;
    var start, first, second := Retried(b, agent, model), Advances(0, charge), Advances(1, charge);
    RetriedIsInitial(b, agent, model);
    assert |start.ledger.holders| == 1 && start.ledger.holders[0].open.None?;
    InitialJointInv(start);
    ReadsTwice(start, 0, charge);
    StepKeepsExactly(start, first);
    StepKeepsExactly(Step(start, first), first);
    var reading := Step(Step(start, first), first);
    OneIsFirst(NOTHING, BudgetMisuse.ONE);
    GrantingMoves(reading, 0, b, NOTHING, BudgetMisuse.ONE, charge);
    FirstIsOrderly(reading, charge);
    StepKeepsExactly(reading, first);
    var granted := Step(reading, first);
    CrashingMoves(granted, 0, charge);
    StepKeepsExactly(granted, Crashes(0, charge));
    var crashed := Step(granted, Crashes(0, charge));
    ReadsTwice(crashed, 1, charge);
    StepKeepsExactly(crashed, second);
    StepKeepsExactly(Step(crashed, second), second);
    var asking := Step(Step(crashed, second), second);
    var two := More(BudgetMisuse.ONE);
    GrantingMoves(asking, 1, b, BudgetMisuse.ONE, two, charge);
    RetryOnOpenBudgetLeaks(asking, second, 0);
    RunOfSeven(start, charge);
  }
}
