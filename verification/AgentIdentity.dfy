/** For whom an invocation is made: the identities `invoke_agent` compares before it goes on, and the
    one place where it does not (src/aep/agent_invocation.py:143-286). */
module AgentIdentity {
  import opened Wrappers
  import opened RuntimeStore
  import opened AgentInvocation

  /** What a call finds at its first read: another invocation's inputs raise, and a finished
      invocation is returned. */
  lemma AgentReadIsDecided(sys: System, who: nat, choice: Choice)
    requires who < |sys.calls| && sys.calls[who].phase == Start
    ensures
      var c, agent := sys.calls[who], sys.agent;
      Step(sys, Advance(who, choice)) == sys.(calls := sys.calls[who :=
        if agent.Some? && agent.value.stored.value.inputs != c.agent.inputs then c.(phase := Raised(DifferentInputs))
        else if agent.Some? && Terminal(agent.value.stored.status) then c.(phase := Returned)
        else c.(phase := AgentRead, existingAgent := agent.Some?)])
  {
  }

  /** What it finds at its second: a child is accepted only while it runs, and only from an invocation
      found before. */
  lemma ModelReadIsDecided(sys: System, who: nat, choice: Choice)
    requires who < |sys.calls| && sys.calls[who].phase == AgentRead
    ensures
      var c := sys.calls[who];
      var child := if c.modelId in sys.models then Some(sys.models[c.modelId].stored) else None;
      Step(sys, Advance(who, choice)) == sys.(calls := sys.calls[who :=
        if child.Some? && !(c.existingAgent && child.value.value.ofThisAgent && child.value.status == Running)
        then c.(phase := Raised(ModelConflict))
        else c.(phase := ModelRead, existingModel := child.Some?)])
  {
  }

  /** With its claim a call creates the AgentInvocation unless there is one or it found a child; it goes
      on only with what it created or would have created, and returns a finished one only for the same
      inputs. */
  lemma AgentCreationIsDecided(sys: System, who: nat, choice: Choice)
    requires who < |sys.calls| && sys.calls[who].phase.Claimed?
    ensures
      var c, own := sys.calls[who], Slot(Stored(Running, sys.calls[who].agent), true);
      var after := Step(sys, Advance(who, choice));
      && after.agent == (if !c.existingModel && sys.agent.None? then Some(own) else sys.agent)
      && after.models == sys.models && |after.calls| == |sys.calls|
      && var next := after.calls[who].phase;
         && (next.AgentCreated? <==> !c.existingModel && sys.agent in {None, Some(own)})
         && (next.Returned? <==>
               || c.existingModel
               || (&& sys.agent.Some? && sys.agent.value.keyed && Terminal(sys.agent.value.stored.status)
                   && sys.agent.value.stored.value.inputs == c.agent.inputs))
         && (next.AgentCreated? || next.Returned? || next.Raised?)
  {
  }

  /** Then it creates the child unless there is one, and goes on only with its own. */
  lemma ModelCreationIsDecided(sys: System, who: nat, choice: Choice)
    requires who < |sys.calls| && sys.calls[who].phase.AgentCreated?
    ensures
      var c, own := sys.calls[who], Slot(Stored(Running, sys.calls[who].model), true);
      var after := Step(sys, Advance(who, choice));
      && after.agent == sys.agent && |after.calls| == |sys.calls|
      && after.models == (if c.modelId in sys.models then sys.models else sys.models[c.modelId := own])
      && after.calls[who].phase == (if after.models[c.modelId] == own then Ready else Conflicting)
  {
  }

  // ---------------------------------------------------------------- over runs

  /** The stored AgentInvocation was created with the inputs of the call. */
  predicate HasInputs(sys: System, c: Call) {
    sys.agent.Some? && sys.agent.value.stored.value.inputs == c.agent.inputs
  }

  /** The stored child is the call's own. */
  predicate HasModel(sys: System, c: Call) {
    c.modelId in sys.models && sys.models[c.modelId].stored.value == c.model
  }

  /** Another call claimed the pair of this one. */
  predicate LostClaim(sys: System, i: nat, c: Call) {
    sys.claim == Some(c.modelId) && sys.winner != Some(i)
  }

  predicate Reading(p: Phase) { p.Start? || p.AgentRead? }

  predicate Unclaimed(p: Phase) { Reading(p) || p.ModelRead? || p.Preflighted? }

  predicate HasCreatedAgent(p: Phase) { p.AgentCreated? || p.Conflicting? || HasCreatedBoth(p) }

  predicate HasCreatedBoth(p: Phase) { p.Ready? || p.Dispatched? || p.Charged? || p.ModelUpdated? }

  /** What a call has compared by the time it is in its phase. */
  predicate IsIdentified(sys: System, i: nat, c: Call) {
    && (c.existingAgent && !c.phase.Start? && !c.phase.Returned? && !c.phase.Raised? ==> HasInputs(sys, c))
    && (c.existingModel && (c.phase.ModelRead? || c.phase.Preflighted? || c.phase.Claimed?) ==> c.existingAgent)
    && (HasCreatedAgent(c.phase) ==> HasInputs(sys, c) && !c.existingModel)
    && (HasCreatedBoth(c.phase) ==> HasModel(sys, c))
    && (Unclaimed(c.phase) ==> sys.winner != Some(i))
    && (c.phase.ClaimLost? ==> LostClaim(sys, i, c))
    && (c.phase.Returned? ==> HasInputs(sys, c) || LostClaim(sys, i, c))
  }

  predicate Identified(sys: System, i: nat)
    requires i < |sys.calls|
  {
    IsIdentified(sys, i, sys.calls[i])
  }

  ghost predicate DispatchesIdentified(sys: System) {
    forall who | who in sys.dispatches ::
      && who < |sys.calls| && HasInputs(sys, sys.calls[who]) && HasModel(sys, sys.calls[who])
      && !sys.calls[who].existingModel && !Reading(sys.calls[who].phase)
  }

  ghost predicate AllIdentified(sys: System) {
    DispatchesIdentified(sys) && forall i: nat | i < |sys.calls| :: Identified(sys, i)
  }

  /** What is stored keeps its inputs, and a claim its winner. */
  ghost predicate Keeps(sys: System, after: System) {
    && (sys.agent.Some? ==>
          after.agent.Some? && after.agent.value.stored.value == sys.agent.value.stored.value)
    && (forall id | id in sys.models ::
          id in after.models && after.models[id].stored.value == sys.models[id].stored.value)
    && (sys.claim.Some? ==> after.claim == sys.claim && after.winner == sys.winner)
    && |after.calls| == |sys.calls|
  }

  /** The step of one call: it keeps what is stored, changes no other call, and what it is for. */
  ghost predicate Advances(sys: System, who: nat, after: System)
    requires who < |sys.calls|
  {
    && Keeps(sys, after)
    && (forall i | 0 <= i < |sys.calls| && i != who :: after.calls[i] == sys.calls[i])
    && after.calls[who].agent == sys.calls[who].agent && after.calls[who].modelId == sys.calls[who].modelId
    && after.calls[who].model == sys.calls[who].model
    && (after.dispatches == sys.dispatches
        || (&& after.dispatches == sys.dispatches + [who] && sys.calls[who].phase == Ready
            && after.calls[who].existingModel == sys.calls[who].existingModel))
    && (!Reading(sys.calls[who].phase) ==>
          && after.calls[who].existingModel == sys.calls[who].existingModel
          && !Reading(after.calls[who].phase))
    && (after.winner == sys.winner || after.winner == Some(who))
    && Identified(after, who)
  }

  /** A step that stores `base` and makes its call `c`. */
  lemma Storing(sys: System, base: System, who: nat, c: Call)
    requires who < |sys.calls| && base.calls == sys.calls && Keeps(sys, base)
    requires c.agent == sys.calls[who].agent && c.modelId == sys.calls[who].modelId && c.model == sys.calls[who].model
    requires base.dispatches == sys.dispatches
             || (base.dispatches == sys.dispatches + [who] && sys.calls[who].phase.Ready?)
    requires !Reading(sys.calls[who].phase) ==>
               c.existingModel == sys.calls[who].existingModel && !Reading(c.phase)
    requires base.winner == sys.winner || base.winner == Some(who)
    requires base.dispatches == sys.dispatches || c.existingModel == sys.calls[who].existingModel
    requires IsIdentified(base, who, c)
    ensures Advances(sys, who, With(base, who, c))
  {
  }

  lemma NothingStored(sys: System)
    ensures Keeps(sys, sys)
  {
  }

  lemma AgentReadAdvances(sys: System, who: nat, choice: Choice)
    requires who < |sys.calls| && Identified(sys, who) && sys.calls[who].phase.Start?
    ensures Advances(sys, who, Step(sys, Advance(who, choice)))
  {
    NothingStored(sys);
    Storing(sys, sys, who, ReadAgent(sys, sys.calls[who]));
    assert Step(sys, Advance(who, choice)) == With(sys, who, ReadAgent(sys, sys.calls[who]));
    hide *;
  }

  lemma ModelReadAdvances(sys: System, who: nat, choice: Choice)
    requires who < |sys.calls| && Identified(sys, who) && sys.calls[who].phase.AgentRead?
    ensures Advances(sys, who, Step(sys, Advance(who, choice)))
  {
    NothingStored(sys);
    Storing(sys, sys, who, ReadModel(sys, sys.calls[who]));
    assert Step(sys, Advance(who, choice)) == With(sys, who, ReadModel(sys, sys.calls[who]));
    hide *;
  }

  lemma PreflightAdvances(sys: System, who: nat, choice: Choice)
    requires who < |sys.calls| && Identified(sys, who)
    requires sys.calls[who].phase.ModelRead? || sys.calls[who].phase.ClaimLost?
    ensures Advances(sys, who, Step(sys, Advance(who, choice)))
  {
    var c := sys.calls[who];
    var next := if c.phase.ModelRead? then Preflight(c, choice) else Stays(c, Returned);
    NothingStored(sys);
    Storing(sys, sys, who, next);
    assert Step(sys, Advance(who, choice)) == With(sys, who, next);
    hide *;
  }

  lemma ClaimAdvances(sys: System, who: nat, choice: Choice)
    requires who < |sys.calls| && Identified(sys, who) && sys.calls[who].phase.Preflighted?
    ensures Advances(sys, who, Step(sys, Advance(who, choice)))
  {
    var c := sys.calls[who];
    assert Step(sys, Advance(who, choice)) == ClaimPair(sys, who);
    hide Step;
    NothingStored(sys);
    if sys.claim.None? {
      Storing(sys, sys.(claim := Some(c.modelId), winner := Some(who)), who, Stays(c, Claimed));
    } else {
      Storing(sys, sys, who, Settled(c, if sys.claim != Some(c.modelId) then Raised(ClaimConflict) else ClaimLost));
    }
    hide Advances;
  }

  lemma AgentCreationAdvances(sys: System, who: nat, choice: Choice)
    requires who < |sys.calls| && Identified(sys, who) && sys.calls[who].phase.Claimed?
    ensures Advances(sys, who, Step(sys, Advance(who, choice)))
  {
    var c := sys.calls[who];
    var after := CreateAgent(sys, who);
    assert Step(sys, Advance(who, choice)) == after;
    hide Step;
    if !c.existingModel && sys.agent.None? {
      Storing(sys, sys.(agent := Some(Slot(Stored(Running, c.agent), true))), who, Stays(c, AgentCreated));
    } else {
      AgentIsCompared(sys, who);
      NothingStored(sys);
      Storing(sys, sys, who, after.calls[who]);
    }
    hide Advances;
  }

  lemma AgentIsCompared(sys: System, who: nat)
    requires who < |sys.calls| && Identified(sys, who) && sys.calls[who].phase.Claimed?
    requires sys.calls[who].existingModel || sys.agent.Some?
    ensures
      var c, after := sys.calls[who], CreateAgent(sys, who);
      && |after.calls| == |sys.calls| && after == With(sys, who, after.calls[who])
      && var next := after.calls[who];
         && next.agent == c.agent && next.modelId == c.modelId && next.model == c.model
         && next.existingModel == c.existingModel && next.existingAgent == c.existingAgent
         && (next.phase.Returned? || next.phase.Raised? || next.phase.AgentCreated?)
         && (next.phase.Returned? ==> HasInputs(sys, c))
         && (next.phase.AgentCreated? ==> HasInputs(sys, c) && !c.existingModel)
  {
  }

  lemma ModelCreationAdvances(sys: System, who: nat, choice: Choice)
    requires who < |sys.calls| && Identified(sys, who) && sys.calls[who].phase.AgentCreated?
    ensures Advances(sys, who, Step(sys, Advance(who, choice)))
  {
    var c := sys.calls[who];
    assert Step(sys, Advance(who, choice)) == CreateModel(sys, who);
    hide Step;
    NothingStored(sys);
    if c.modelId !in sys.models {
      Storing(sys, sys.(models := sys.models[c.modelId := Slot(Stored(Running, c.model), true)]), who, Stays(c, Ready));
    } else {
      Storing(sys, sys, who, CreateModel(sys, who).calls[who]);
    }
    hide Advances;
  }

  lemma AdapterAdvances(sys: System, who: nat, choice: Choice)
    requires who < |sys.calls| && Identified(sys, who)
    requires sys.calls[who].phase.Ready? || sys.calls[who].phase.Dispatched?
    ensures Advances(sys, who, Step(sys, Advance(who, choice)))
  {
    var after := Step(sys, Advance(who, choice));
    Storing(sys, sys.(dispatches := after.dispatches), who, after.calls[who]);
    hide Advances;
  }

  /** Ending the child changes its status only. */
  lemma ModelEndIs(sys: System, who: nat, status: Status, ended: Phase)
    requires who < |sys.calls|
    ensures
      var c, after := sys.calls[who], EndModel(sys, who, status, ended);
      && |after.calls| == |sys.calls| && after == With(sys.(models := after.models), who, after.calls[who])
      && after.models.Keys == sys.models.Keys
      && (forall id | id in sys.models :: after.models[id].stored.value == sys.models[id].stored.value)
      && (after.calls[who] == Stays(c, ended) || after.calls[who] == Stays(c, Raised(StatusLost)))
  {
  }

  lemma ModelEndAdvances(sys: System, who: nat, choice: Choice)
    requires who < |sys.calls| && Identified(sys, who) && sys.calls[who].phase.Charged?
    ensures Advances(sys, who, Step(sys, Advance(who, choice)))
  {
    var outcome := sys.calls[who].phase.outcome;
    var after := EndModel(sys, who, ModelStatus(outcome), ModelUpdated(outcome));
    assert Step(sys, Advance(who, choice)) == after;
    hide Step;
    ModelEndIs(sys, who, ModelStatus(outcome), ModelUpdated(outcome));
    hide EndModel, ModelStatus;
    Storing(sys, sys.(models := after.models), who, after.calls[who]);
    hide *;
  }

  /** Ending the AgentInvocation changes its status only. */
  lemma EndIs(sys: System, who: nat, status: Status, ended: Phase, lost: Phase)
    requires who < |sys.calls|
    ensures
      var c, after := sys.calls[who], EndAgent(sys, who, status, ended, lost);
      && |after.calls| == |sys.calls|
      && after == With(sys.(agent := after.agent, endings := after.endings), who, after.calls[who])
      && (after.agent.Some? <==> sys.agent.Some?)
      && (sys.agent.Some? ==> after.agent.value.stored.value == sys.agent.value.stored.value)
      && (after.calls[who] == Stays(c, ended) || after.calls[who] == Stays(c, lost))
  {
  }

  lemma AgentEndAdvances(sys: System, who: nat, choice: Choice)
    requires who < |sys.calls| && Identified(sys, who)
    requires sys.calls[who].phase.Conflicting? || sys.calls[who].phase.ModelUpdated?
    ensures Advances(sys, who, Step(sys, Advance(who, choice)))
  {
    var phase := sys.calls[who].phase;
    var status := if phase.Conflicting? then Failed else AgentStatus(phase.outcome);
    var ended :=
      if phase.Conflicting? then Raised(ModelIdentityConflict)
      else if phase.outcome == ValidatorRaised then Raised(OutputValidatorRaised)
      else Returned;
    var after := EndAgent(sys, who, status, ended, Raised(StatusLost));
    assert Step(sys, Advance(who, choice)) == after;
    hide Step;
    EndIs(sys, who, status, ended, Raised(StatusLost));
    hide EndAgent, AgentStatus;
    Storing(sys, sys.(agent := after.agent, endings := after.endings), who, after.calls[who]);
    hide *;
  }

  lemma EndedAdvances(sys: System, who: nat, choice: Choice)
    requires who < |sys.calls| && Identified(sys, who)
    requires sys.calls[who].phase.Returned? || sys.calls[who].phase.Raised?
    ensures Advances(sys, who, Step(sys, Advance(who, choice)))
  {
    NothingStored(sys);
    Storing(sys, sys, who, sys.calls[who]);
    assert Step(sys, Advance(who, choice)) == With(sys, who, sys.calls[who]);
    hide *;
  }

  lemma CrashAdvances(sys: System, who: nat)
    requires who < |sys.calls| && Identified(sys, who)
    ensures Advances(sys, who, Step(sys, Crash(who)))
  {
  }

  lemma StepKeepsIdentified(sys: System, a: Action)
    requires AllIdentified(sys)
    ensures AllIdentified(Step(sys, a))
  {
    if a.who < |sys.calls| {
      var who, after := a.who, Step(sys, a);
      assert Identified(sys, who);
      if a.Advance? {
        match sys.calls[who].phase {
          case Start => AgentReadAdvances(sys, who, a.choice);
          case AgentRead => ModelReadAdvances(sys, who, a.choice);
          case ModelRead => PreflightAdvances(sys, who, a.choice);
          case ClaimLost => PreflightAdvances(sys, who, a.choice);
          case Preflighted => ClaimAdvances(sys, who, a.choice);
          case Claimed => AgentCreationAdvances(sys, who, a.choice);
          case AgentCreated => ModelCreationAdvances(sys, who, a.choice);
          case Ready => AdapterAdvances(sys, who, a.choice);
          case Dispatched(_) => AdapterAdvances(sys, who, a.choice);
          case Charged(_) => ModelEndAdvances(sys, who, a.choice);
          case Conflicting => AgentEndAdvances(sys, who, a.choice);
          case ModelUpdated(_) => AgentEndAdvances(sys, who, a.choice);
          case Returned => EndedAdvances(sys, who, a.choice);
          case Raised(_) => EndedAdvances(sys, who, a.choice);
        }
      } else {
        CrashAdvances(sys, who);
      }
      hide Step;
      assert Advances(sys, who, after);
      OthersStayIdentified(sys, who, after);
    }
  }

  lemma OthersStayIdentified(sys: System, who: nat, after: System)
    requires AllIdentified(sys) && who < |sys.calls| && Advances(sys, who, after)
    ensures AllIdentified(after)
  {
    forall i: nat | i < |after.calls| ensures Identified(after, i) {
      if i != who { assert Identified(sys, i) && after.calls[i] == sys.calls[i]; }
    }
    assert Identified(sys, who);
  }

  lemma {:induction false} RunsKeepIdentified(sys: System, actions: seq<Action>)
    requires AllIdentified(sys)
    ensures AllIdentified(Run(sys, actions))
    decreases |actions|
  {
    hide Step, AllIdentified;
    if actions != [] {
      StepKeepsIdentified(sys, actions[0]);
      RunsKeepIdentified(Step(sys, actions[0]), actions[1..]);
    }
  }

  /** Over every run, a call reaches the adapter only for the AgentInvocation with its own inputs and
      for its own new child, never for a child it found; and a call that returns had the inputs of the
      stored invocation, unless it lost the claim of its pair to another call. */
  lemma InvokedForItsInputs(sys: System, actions: seq<Action>)
    requires Initial(sys)
    ensures DispatchesIdentified(Run(sys, actions))
    ensures
      var end := Run(sys, actions);
      forall i: nat | i < |end.calls| && end.calls[i].phase.Returned? ::
        HasInputs(end, end.calls[i]) || LostClaim(end, i, end.calls[i])
  {
    assert AllIdentified(sys) by {
      forall i: nat | i < |sys.calls| ensures Identified(sys, i) { assert sys.calls[i] in sys.calls; }
    }
    RunsKeepIdentified(sys, actions);
    hide Run, Initial, HasInputs, LostClaim;
    var end := Run(sys, actions);
    forall i: nat | i < |end.calls| && end.calls[i].phase.Returned?
      ensures HasInputs(end, end.calls[i]) || LostClaim(end, i, end.calls[i])
    {
      assert Identified(end, i);
    }
  }

  // ---------------------------------------------------------------- the loser of a claim

  function FreshCall(inputs: string): Call {
    Call(AgentRecord(inputs, ""), "model", ModelRecord(true, inputs), false, Start, false, false, false, 0)
  }

  const TWO: System := System(None, map[], None, [FreshCall("first"), FreshCall("second")], None, [], [])

  function Go(who: nat): Action { Advance(who, Accept) }

  function At(first: Phase, second: Phase): System {
    TWO.(calls := [FreshCall("first").(phase := first), FreshCall("second").(phase := second)])
  }

  /** Nothing is stored yet, so both calls go on. */
  lemma BothRead(p: Phase)
    ensures Step(At(Start, p), Go(0)) == At(AgentRead, p) && Step(At(p, Start), Go(1)) == At(p, AgentRead)
    ensures Step(At(AgentRead, p), Go(0)) == At(ModelRead, p) && Step(At(p, AgentRead), Go(1)) == At(p, ModelRead)
    ensures Step(At(ModelRead, p), Go(0)) == At(Preflighted, p) && Step(At(p, ModelRead), Go(1)) == At(p, Preflighted)
  {
  }

  function Won(first: Phase, second: Phase): System {
    At(first, second).(claim := Some("model"), winner := Some(0))
  }

  const STORED: Slot<AgentRecord> := Slot(Stored(Running, AgentRecord("first", "")), true)

  lemma OneLoses()
    ensures Step(At(Preflighted, Preflighted), Go(0)) == Won(Claimed, Preflighted)
    ensures Step(Won(Claimed, Preflighted), Go(1)) == Won(Claimed, ClaimLost)
    ensures Step(Won(Claimed, ClaimLost), Go(0)) == Won(AgentCreated, ClaimLost).(agent := Some(STORED))
    ensures Step(Won(AgentCreated, ClaimLost).(agent := Some(STORED)), Go(1))
         == Won(AgentCreated, Returned).(agent := Some(STORED))
  {
  }

  /** Two calls with different inputs read before either is stored; the one that loses the claim
      returns all the same, and the invocation it can return is that of the other. */
  lemma LoserMayBeGivenAnother()
    ensures Initial(TWO)
    ensures
      var end := Run(TWO, [Go(0), Go(0), Go(0), Go(1), Go(1), Go(1), Go(0), Go(1), Go(0), Go(1)]);
      |end.calls| == 2 && end.calls[1].phase.Returned? && end.agent.Some? && !HasInputs(end, end.calls[1])
  {
    var all := [Go(0), Go(0), Go(0), Go(1), Go(1), Go(1), Go(0), Go(1), Go(0), Go(1)];
    BothRead(Start);
    BothRead(Preflighted);
    OneLoses();
    assert TWO == At(Start, Start);
    hide Step;
    assert Run(TWO, all) == Run(At(Preflighted, Start), all[1..][1..][1..]);
    assert all[1..][1..][1..] == all[3..];
    assert Run(At(Preflighted, Start), all[3..]) == Run(At(Preflighted, Preflighted), all[3..][1..][1..][1..]);
    assert all[3..][1..][1..][1..] == all[6..];
    assert Run(At(Preflighted, Preflighted), all[6..]) == Run(Won(Claimed, ClaimLost), all[6..][1..][1..]);
    assert all[6..][1..][1..] == all[8..];
    assert Run(Won(Claimed, ClaimLost), all[8..])
        == Run(Won(AgentCreated, Returned).(agent := Some(STORED)), all[8..][1..][1..]);
    assert all[8..][1..][1..] == [];
  }
}
