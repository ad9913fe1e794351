/** When an invocation is charged: once, for what the adapter answered, to the budget of the call that
    reached it (src/aep/agent_invocation.py:276-345, 480-518). */
module InvocationCharges {
  import opened Wrappers
  import opened BudgetLedger
  import AgentInvocation
  import BudgetRuns
  import opened InvocationLedger

  /** A call that has a budget takes down what its adapter answered. */
  predicate Records(j: Joint, m: Move) {
    && m.action.Advance? && m.action.who < |j.calls.calls| && m.action.who < |j.budgetOf|
    && CallAt(j, m.action.who).phase.Dispatched? && CallAt(j, m.action.who).hasBudget
    && m.action.choice != AgentInvocation.Refuse
  }

  /** The ledger is charged exactly as an answer is taken down, asked exactly as a call preflights, and
      given a reservation back only by a call that does not reach the adapter. */
  lemma ChargesAreDecided(j: Joint, m: Move)
    requires AgentInvocation.Inv(j.calls) && Shaped(j)
    ensures
      var op := Charges(j, m);
      && (op.Some? ==> m.action.who < |j.calls.calls| && m.action.who < |j.budgetOf|)
      && (Records(j, m) <==> op.Some? && op.value.DoRecord?)
      && (Records(j, m) ==> op == Some(BudgetRuns.DoRecord(j.budgetOf[m.action.who], m.charge)))
      && (Asks(j, m) && m.action.choice != AgentInvocation.Refuse <==> op.Some? && op.value.DoPreflight?)
      && (op.Some? && op.value.DoPreflight? ==>
            op.value == BudgetRuns.DoPreflight(j.budgetOf[m.action.who], m.request))
      && (op.Some? && op.value.DoRelease? ==>
            && op.value == BudgetRuns.DoRelease(j.budgetOf[m.action.who])
            && var phase := CallAt(j, m.action.who).phase;
               phase.Preflighted? || phase.Claimed? || phase.AgentCreated?)
  {
    if m.action.who < |j.calls.calls| {
      var c := CallAt(j, m.action.who);
      assert AgentInvocation.CallInv(c);
      hide AgentInvocation.Inv, AgentInvocation.CallInv, AgentInvocation.SystemInv;
      match c.phase {
        case Preflighted => SettlesBefore(j, m);
        case Claimed => SettlesBefore(j, m);
        case AgentCreated => SettlesBefore(j, m);
        case Dispatched(_) => SettlesAfter(j, m);
        case ModelRead => SettlesNothing(j, m);
        case _ => SettlesNothing(j, m);
      }
    }
  }

  lemma SettlesBefore(j: Joint, m: Move)
    requires m.action.who < |j.calls.calls| && Shaped(j)
    requires
      var phase := CallAt(j, m.action.who).phase;
      phase.Preflighted? || phase.Claimed? || phase.AgentCreated?
    ensures Charges(j, m).Some? ==> Charges(j, m).value == BudgetRuns.DoRelease(j.budgetOf[m.action.who])
  {
    hide AgentInvocation.Step;
  }

  lemma SettlesAfter(j: Joint, m: Move)
    requires m.action.who < |j.calls.calls| && Shaped(j)
    requires CallAt(j, m.action.who).phase.Dispatched?
    ensures Charges(j, m) ==
            if Records(j, m) then Some(BudgetRuns.DoRecord(j.budgetOf[m.action.who], m.charge)) else None
  {
  }

  lemma SettlesNothing(j: Joint, m: Move)
    requires m.action.who < |j.calls.calls| && Shaped(j)
    requires
      var phase := CallAt(j, m.action.who).phase;
      !phase.Preflighted? && !phase.Claimed? && !phase.AgentCreated? && !phase.Dispatched?
    ensures Charges(j, m) ==
            if Asks(j, m) && m.action.choice != AgentInvocation.Refuse
            then Some(BudgetRuns.DoPreflight(j.budgetOf[m.action.who], m.request)) else None
  {
  }

  // ---------------------------------------------------------------- over runs

  /** The calls whose answers are charged in a run, in order. */
  function Charged(j: Joint, moves: seq<Move>): seq<nat>
    decreases |moves|
  {
    hide Step;
    if moves == [] then []
    else (if Records(j, moves[0]) then [moves[0].action.who] else []) + Charged(Step(j, moves[0]), moves[1..])
  }

  /** The call that won the claim has taken down its answer, or will never have one. */
  predicate Spent(sys: AgentInvocation.System) {
    && sys.winner.Some? && sys.winner.value < |sys.calls|
    && var phase := sys.calls[sys.winner.value].phase;
       phase.Conflicting? || phase.Charged? || phase.ModelUpdated? || phase.Returned? || phase.Raised?
  }

  lemma RecordingSpends(j: Joint, m: Move)
    requires AgentInvocation.Inv(j.calls) && Records(j, m)
    ensures
      var after := Step(j, m).calls;
      j.calls.winner == Some(m.action.who) && after.winner == j.calls.winner && !Spent(j.calls) && Spent(after)
  {
    assert AgentInvocation.AfterClaim(CallAt(j, m.action.who).phase);
  }

  lemma SpentStays(j: Joint, m: Move)
    requires AgentInvocation.Inv(j.calls) && Spent(j.calls)
    ensures Spent(Step(j, m).calls) && Step(j, m).calls.winner == j.calls.winner && !Records(j, m)
  {
    SpentAdvances(j.calls, Action(j, m));
    if Records(j, m) { RecordingSpends(j, m); }
  }

  lemma WinnerStays(sys: AgentInvocation.System, a: AgentInvocation.Action)
    requires AgentInvocation.Inv(sys) && sys.winner.Some?
    ensures AgentInvocation.Step(sys, a).winner == sys.winner
    ensures |AgentInvocation.Step(sys, a).calls| == |sys.calls|
  {
  }

  lemma SpentAdvances(sys: AgentInvocation.System, a: AgentInvocation.Action)
    requires AgentInvocation.Inv(sys) && Spent(sys)
    ensures Spent(AgentInvocation.Step(sys, a)) && AgentInvocation.Step(sys, a).winner == sys.winner
  {
    WinnerStays(sys, a);
  }

  /** Over every run at most one answer is charged, and only to the budget of the call that won the
      claim. */
  lemma {:induction false} ChargedAtMostOnce(j: Joint, moves: seq<Move>)
    requires AgentInvocation.Inv(j.calls)
    ensures |Charged(j, moves)| <= 1 && (Spent(j.calls) ==> Charged(j, moves) == [])
    ensures forall who | who in Charged(j, moves) :: Run(j, moves).calls.winner == Some(who)
    decreases |moves|
  {
    hide Step, Spent, Records, AgentInvocation.Inv;
    if moves != [] {
      AgentInvocation.StepKeepsInv(j.calls, Action(j, moves[0]));
      StepOfCalls(j, moves[0]);
      ChargedAtMostOnce(Step(j, moves[0]), moves[1..]);
      if Spent(j.calls) { SpentStays(j, moves[0]); }
      if Records(j, moves[0]) {
        RecordingSpends(j, moves[0]);
        SpentKeepsWinner(Step(j, moves[0]), moves[1..]);
      }
    }
  }

  lemma StepOfCalls(j: Joint, m: Move)
    ensures Step(j, m).calls == AgentInvocation.Step(j.calls, Action(j, m))
  {
    hide AgentInvocation.Step, Action;
  }

  lemma {:induction false} SpentKeepsWinner(j: Joint, moves: seq<Move>)
    requires AgentInvocation.Inv(j.calls) && Spent(j.calls)
    ensures Run(j, moves).calls.winner == j.calls.winner
    decreases |moves|
  {
    hide Step, Spent, Records, AgentInvocation.Inv;
    if moves != [] {
      AgentInvocation.StepKeepsInv(j.calls, Action(j, moves[0]));
      StepOfCalls(j, moves[0]);
      SpentStays(j, moves[0]);
      SpentKeepsWinner(Step(j, moves[0]), moves[1..]);
    }
  }
}
