/** The statuses in which invocations end: those of what the adapter answered
    (src/aep/agent_invocation.py:276-447). */
module AgentEndings {
  import opened Wrappers
  import opened RuntimeStore
  import opened AgentInvocation

  /** What the adapter answered to the call that reached it. */
  datatype Answer = Answer(who: nat, outcome: Outcome)

  function AnswerTo(sys: System, a: Action): seq<Answer> {
    if a.Advance? && a.choice.Adapter? && a.who < |sys.calls| && sys.calls[a.who].phase == Ready then
      [Answer(a.who, a.choice.outcome)]
    else []
  }

  /** The answers of a run, in order. */
  function Answers(sys: System, actions: seq<Action>): seq<Answer>
    decreases |actions|
  {
    hide Step;
    if actions == [] then [] else AnswerTo(sys, actions[0]) + Answers(Step(sys, actions[0]), actions[1..])
  }

  /** A phase behind the adapter knows the answer. */
  predicate Knows(p: Phase, who: nat, log: seq<Answer>) {
    && (p.Dispatched? ==> Answer(who, p.outcome) in log)
    && (p.Charged? ==> Answer(who, p.outcome) in log)
    && (p.ModelUpdated? ==> Answer(who, p.outcome) in log)
  }

  const VALID_OUTPUT := Success(true)

  /** The AgentInvocation is as it was or newly created until a call ends it; then it has SUCCEEDED
      exactly if the adapter gave this call a valid output, and FAILED if not. */
  ghost predicate AgentTold(start: System, sys: System, log: seq<Answer>) {
    && (sys.endings == [] ==>
          if start.agent.Some? then sys.agent == start.agent
          else sys.agent.Some? ==> sys.agent.value.stored.status == Running)
    && (forall w | w in sys.endings ::
          && sys.winner == Some(w) && w < |sys.calls|
          && (sys.calls[w].phase.Returned? || sys.calls[w].phase.Raised?)
          && sys.agent.Some?
          && sys.agent.value.stored.status == if Answer(w, VALID_OUTPUT) in log then Succeeded else Failed)
  }

  /** A ModelInvocation that ended in the run: SUCCEEDED for any output, FAILED for anything else. */
  ghost predicate ModelTold(start: System, sys: System, log: seq<Answer>, id: string) {
    id in sys.models && Terminal(sys.models[id].stored.status) ==>
      || (id in start.models && start.models[id] == sys.models[id])
      || exists a :: a in log && EndsModel(sys, a, id)
  }

  predicate EndsModel(sys: System, a: Answer, id: string) {
    && a.who < |sys.calls| && sys.calls[a.who].modelId == id
    && id in sys.models && sys.models[id].stored.status == if a.outcome.Success? then Succeeded else Failed
  }

  ghost predicate Told(start: System, sys: System, log: seq<Answer>) {
    && |log| <= |sys.dispatches|
    && (forall i | 0 <= i < |sys.calls| :: Knows(sys.calls[i].phase, i, log))
    && AgentTold(start, sys, log)
    && (forall id: string :: ModelTold(start, sys, log, id))
  }

  lemma DispatchesOnce(sys: System)
    requires Inv(sys)
    ensures |sys.dispatches| <= 1
  {
  }

  lemma OneAnswer(log: seq<Answer>, a: Answer, b: Answer)
    requires |log| <= 1 && a in log && b in log
    ensures a == b
  {
  }

  /** Only one call moves, and keeps its ModelInvocation. */
  ghost predicate Only(sys: System, who: nat, after: System)
    requires who < |sys.calls|
  {
    && |after.calls| == |sys.calls| && after.calls == sys.calls[who := after.calls[who]]
    && after.calls[who].modelId == sys.calls[who].modelId
  }

  predicate Unanswered(p: Phase) { !p.Dispatched? && !p.Charged? && !p.ModelUpdated? }

  lemma EarlySteps(sys: System, who: nat, choice: Choice)
    requires who < |sys.calls|
    ensures Only(sys, who, ClaimPair(sys, who)) && Unanswered(ClaimPair(sys, who).calls[who].phase)
    ensures Unanswered(ReadAgent(sys, sys.calls[who]).phase) && Unanswered(ReadModel(sys, sys.calls[who]).phase)
    ensures Unanswered(Preflight(sys.calls[who], choice).phase)
    ensures ReadAgent(sys, sys.calls[who]).modelId == sys.calls[who].modelId
    ensures ReadModel(sys, sys.calls[who]).modelId == sys.calls[who].modelId
    ensures Preflight(sys.calls[who], choice).modelId == sys.calls[who].modelId
  {
  }

  lemma CreationSteps(sys: System, who: nat)
    requires who < |sys.calls|
    ensures Only(sys, who, CreateAgent(sys, who)) && Unanswered(CreateAgent(sys, who).calls[who].phase)
    ensures Only(sys, who, CreateModel(sys, who)) && Unanswered(CreateModel(sys, who).calls[who].phase)
  {
  }

  lemma EndAgentStep(sys: System, who: nat, status: Status, ended: Phase, lost: Phase)
    requires who < |sys.calls|
    ensures Only(sys, who, EndAgent(sys, who, status, ended, lost))
    ensures EndAgent(sys, who, status, ended, lost).calls[who].phase in {ended, lost}
  {
  }

  lemma EndModelStep(sys: System, who: nat, status: Status, ended: Phase)
    requires who < |sys.calls|
    ensures Only(sys, who, EndModel(sys, who, status, ended))
    ensures EndModel(sys, who, status, ended).calls[who].phase in {ended, Raised(StatusLost)}
  {
  }

  lemma ProceedIsLocal(sys: System, who: nat, choice: Choice, log: seq<Answer>)
    requires who < |sys.calls| && Knows(sys.calls[who].phase, who, log)
    ensures Only(sys, who, Proceed(sys, who, choice))
    ensures Knows(Proceed(sys, who, choice).calls[who].phase, who, log + AnswerTo(sys, Advance(who, choice)))
  {
    hide ClaimPair, CreateAgent, CreateModel, EndAgent, EndModel, ReadAgent, ReadModel, Preflight;
    EarlySteps(sys, who, choice);
    CreationSteps(sys, who);
    match sys.calls[who].phase {
      case Conflicting => EndAgentStep(sys, who, Failed, Raised(ModelIdentityConflict), Raised(StatusLost));
      case Charged(outcome) => EndModelStep(sys, who, ModelStatus(outcome), ModelUpdated(outcome));
      case ModelUpdated(outcome) =>
        EndAgentStep(sys, who, AgentStatus(outcome),
                     if outcome == ValidatorRaised then Raised(OutputValidatorRaised) else Returned, Raised(StatusLost));
      case _ =>
    }
  }

  lemma StepIsLocal(sys: System, a: Action)
    ensures a.who < |sys.calls| ==> Only(sys, a.who, Step(sys, a))
    ensures a.who >= |sys.calls| ==> Step(sys, a) == sys
  {
    hide Proceed;
    if a.Advance? && a.who < |sys.calls| {
      var p := sys.calls[a.who].phase;
      var known :=
        if p.Dispatched? then [Answer(a.who, p.outcome)] else if p.Charged? then [Answer(a.who, p.outcome)]
        else if p.ModelUpdated? then [Answer(a.who, p.outcome)] else [];
      ProceedIsLocal(sys, a.who, a.choice, known);
    }
  }

  lemma StepKeepsKnowledge(sys: System, a: Action, log: seq<Answer>, i: nat)
    requires forall j | 0 <= j < |sys.calls| :: Knows(sys.calls[j].phase, j, log)
    requires i < |sys.calls|
    ensures
      var after := Step(sys, a);
      && |after.calls| == |sys.calls| && after.calls[i].modelId == sys.calls[i].modelId
      && Knows(after.calls[i].phase, i, log + AnswerTo(sys, a))
  {
    hide Proceed, AnswerTo;
    StepIsLocal(sys, a);
    assert Knows(sys.calls[i].phase, i, log);
    if a.who == i && a.Advance? { ProceedIsLocal(sys, i, a.choice, log); }
  }

  lemma AnswersAreDispatched(sys: System, a: Action, log: seq<Answer>)
    requires |log| <= |sys.dispatches|
    ensures |log + AnswerTo(sys, a)| <= |Step(sys, a).dispatches|
  {
  }

  /** What of the AgentInvocation a step can change: it is created, or ended by its caller. */
  ghost predicate AgentMoves(sys: System, who: nat, after: System)
    requires who < |sys.calls| && Only(sys, who, after)
  {
    || (after.agent == sys.agent && after.endings == sys.endings)
    || (sys.agent.None? && after.agent.Some? && after.agent.value.stored.status == Running && after.endings == sys.endings)
    || (&& after.endings == sys.endings + [who] && after.agent.Some?
        && sys.agent.Some? && sys.agent.value.stored.status == Running
        && (after.calls[who].phase.Returned? || after.calls[who].phase.Raised?)
        && (sys.calls[who].phase == Conflicting || sys.calls[who].phase.ModelUpdated?)
        && after.agent.value.stored.status ==
             if sys.calls[who].phase == ModelUpdated(VALID_OUTPUT) then Succeeded else Failed)
  }

  lemma AgentEnds(sys: System, who: nat, status: Status, ended: Phase, lost: Phase)
    requires who < |sys.calls| && (ended.Returned? || ended.Raised?) && lost.Raised?
    requires sys.calls[who].phase == Conflicting || sys.calls[who].phase.ModelUpdated?
    requires status == if sys.calls[who].phase == ModelUpdated(VALID_OUTPUT) then Succeeded else Failed
    ensures Only(sys, who, EndAgent(sys, who, status, ended, lost))
    ensures AgentMoves(sys, who, EndAgent(sys, who, status, ended, lost))
  {
  }

  lemma AgentStays(sys: System, who: nat)
    requires who < |sys.calls|
    ensures Only(sys, who, ClaimPair(sys, who)) && AgentMoves(sys, who, ClaimPair(sys, who))
    ensures Only(sys, who, CreateAgent(sys, who)) && AgentMoves(sys, who, CreateAgent(sys, who))
    ensures Only(sys, who, CreateModel(sys, who)) && AgentMoves(sys, who, CreateModel(sys, who))
    ensures forall status, ended :: Only(sys, who, EndModel(sys, who, status, ended))
                                 && AgentMoves(sys, who, EndModel(sys, who, status, ended))
  {
  }

  lemma ProceedMovesAgent(sys: System, who: nat, choice: Choice)
    requires who < |sys.calls| && Only(sys, who, Proceed(sys, who, choice))
    ensures AgentMoves(sys, who, Proceed(sys, who, choice))
  {
    hide ClaimPair, CreateAgent, CreateModel, EndAgent, EndModel, ReadAgent, ReadModel, Preflight;
    AgentStays(sys, who);
    match sys.calls[who].phase {
      case Conflicting => AgentEnds(sys, who, Failed, Raised(ModelIdentityConflict), Raised(StatusLost));
      case ModelUpdated(outcome) =>
        AgentEnds(sys, who, AgentStatus(outcome),
                  if outcome == ValidatorRaised then Raised(OutputValidatorRaised) else Returned, Raised(StatusLost));
      case _ =>
    }
  }

  lemma ClaimedIsWinner(sys: System, who: nat)
    requires Inv(sys) && who < |sys.calls| && AfterClaim(sys.calls[who].phase)
    ensures sys.winner == Some(who)
    ensures sys.calls[who].phase in {Ready, Conflicting} ==> sys.dispatches == []
  {
  }

  lemma WinnerStays(sys: System, a: Action)
    requires sys.winner.Some? && Inv(sys)
    ensures Step(sys, a).winner == sys.winner
  {
    hide CallInv, CreateAgent, CreateModel, EndAgent, EndModel, ReadAgent, ReadModel, Preflight;
    if a.who < |sys.calls| { SameWinner(sys, a.who); }
  }

  lemma SameWinner(sys: System, who: nat)
    requires who < |sys.calls|
    ensures CreateAgent(sys, who).winner == sys.winner && CreateModel(sys, who).winner == sys.winner
    ensures forall status, ended, lost :: EndAgent(sys, who, status, ended, lost).winner == sys.winner
    ensures forall status, ended :: EndModel(sys, who, status, ended).winner == sys.winner
  {
  }

  lemma OverStays(sys: System, a: Action, who: nat)
    requires who < |sys.calls| && (sys.calls[who].phase.Returned? || sys.calls[who].phase.Raised?)
    requires a.who < |sys.calls| ==> Only(sys, a.who, Step(sys, a))
    ensures who < |Step(sys, a).calls| && Step(sys, a).calls[who] == sys.calls[who]
  {
    hide ClaimPair, CreateAgent, CreateModel, EndAgent, EndModel, ReadAgent, ReadModel, Preflight;
  }

  /** The AgentInvocation changes when it is created and when it ends. */
  lemma StepKeepsAgentTold(start: System, sys: System, a: Action, log: seq<Answer>)
    requires Inv(sys) && Told(start, sys, log)
    ensures AgentTold(start, Step(sys, a), log + AnswerTo(sys, a))
  {
    hide Inv, Proceed, ModelTold, Knows, AfterClaim;
    DispatchesOnce(sys);
    StepIsLocal(sys, a);
    var after, longer := Step(sys, a), log + AnswerTo(sys, a);
    if a.who >= |sys.calls| {
      assert longer == log;
    } else {
      var p := sys.calls[a.who].phase;
      if a.Advance? { ProceedMovesAgent(sys, a.who, a.choice); }
      assert AgentMoves(sys, a.who, after);
      EndedStaysTold(start, sys, a, log);
      if after.endings == sys.endings + [a.who] && after.endings != sys.endings {
        assert AfterClaim(p) by { EndingIsClaimed(p); }
        ClaimedIsWinner(sys, a.who);
        WinnerStays(sys, a);
        assert longer == log;
        EndTold(sys, a.who, log);
      }
    }
  }

  lemma EndingIsClaimed(p: Phase)
    requires p == Conflicting || p.ModelUpdated? || p == Ready
    ensures AfterClaim(p)
  {
  }

  /** An ended call was answered with a valid output exactly if it knows of one. */
  lemma EndTold(sys: System, who: nat, log: seq<Answer>)
    requires who < |sys.calls| && |log| <= |sys.dispatches| <= 1 && Knows(sys.calls[who].phase, who, log)
    requires sys.calls[who].phase.ModelUpdated? || (sys.calls[who].phase == Conflicting && sys.dispatches == [])
    ensures Answer(who, VALID_OUTPUT) in log <==> sys.calls[who].phase == ModelUpdated(VALID_OUTPUT)
  {
    var p := sys.calls[who].phase;
    if p.ModelUpdated? && Answer(who, VALID_OUTPUT) in log {
      OneAnswer(log, Answer(who, p.outcome), Answer(who, VALID_OUTPUT));
    }
  }

  /** What was said of calls that ended before stays so: no answer comes after an end. */
  lemma EndedStaysTold(start: System, sys: System, a: Action, log: seq<Answer>)
    requires Inv(sys) && Told(start, sys, log) && a.who < |sys.calls| && Only(sys, a.who, Step(sys, a))
    requires AgentMoves(sys, a.who, Step(sys, a))
    ensures
      var after := Step(sys, a);
      forall w | w in sys.endings ::
        && after.endings == sys.endings && after.agent == sys.agent && after.winner == Some(w) && w < |after.calls|
        && (after.calls[w].phase.Returned? || after.calls[w].phase.Raised?)
        && (Answer(w, VALID_OUTPUT) in log + AnswerTo(sys, a) <==> Answer(w, VALID_OUTPUT) in log)
  {
    hide Proceed, ModelTold, Knows, AfterClaim, CallInv;
    forall w | w in sys.endings
      ensures
        var after := Step(sys, a);
        && after.endings == sys.endings && after.agent == sys.agent && after.winner == Some(w) && w < |after.calls|
        && (after.calls[w].phase.Returned? || after.calls[w].phase.Raised?)
        && (Answer(w, VALID_OUTPUT) in log + AnswerTo(sys, a) <==> Answer(w, VALID_OUTPUT) in log)
    {
      var p := sys.calls[a.who].phase;
      OverStays(sys, a, w);
      WinnerStays(sys, a);
      if p == Conflicting || p.ModelUpdated? || p == Ready {
        EndingIsClaimed(p);
        ClaimedIsWinner(sys, a.who);
      }
    }
  }

  lemma StepKeepsModelTold(start: System, sys: System, a: Action, log: seq<Answer>, id: string)
    requires Told(start, sys, log)
    ensures ModelTold(start, Step(sys, a), log + AnswerTo(sys, a), id)
  {
    hide AgentTold;
    var after, longer := Step(sys, a), log + AnswerTo(sys, a);
    assert ModelTold(start, sys, log, id);
    if a.who < |sys.calls| { assert Knows(sys.calls[a.who].phase, a.who, log); }
    if id in after.models && Terminal(after.models[id].stored.status) {
      if id in sys.models && after.models[id] == sys.models[id] {
        if given :| given in log && EndsModel(sys, given, id) {
          StepKeepsKnowledge(sys, a, log, given.who);
          assert given in longer && EndsModel(after, given, id);
        }
      } else {
        var given := Answer(a.who, sys.calls[a.who].phase.outcome);
        assert given in longer && EndsModel(after, given, id);
      }
    }
  }

  lemma StepKeepsTold(start: System, sys: System, a: Action, log: seq<Answer>)
    requires Inv(sys) && Told(start, sys, log)
    ensures Told(start, Step(sys, a), log + AnswerTo(sys, a))
  {
    StepKeepsAgentTold(start, sys, a, log);
    AnswersAreDispatched(sys, a, log);
    forall id: string ensures ModelTold(start, Step(sys, a), log + AnswerTo(sys, a), id) {
      StepKeepsModelTold(start, sys, a, log, id);
    }
    StepIsLocal(sys, a);
    hide Step, AnswerTo, ModelTold, AgentTold, Knows;
    forall i | 0 <= i < |Step(sys, a).calls|
      ensures Knows(Step(sys, a).calls[i].phase, i, log + AnswerTo(sys, a))
    {
      StepKeepsKnowledge(sys, a, log, i);
    }
  }

  lemma {:induction false} RunsKeepTold(start: System, sys: System, actions: seq<Action>, log: seq<Answer>)
    requires Inv(sys) && Told(start, sys, log)
    ensures Inv(Run(sys, actions)) && Told(start, Run(sys, actions), log + Answers(sys, actions))
    decreases |actions|
  {
    hide Step, Inv, Told, AnswerTo;
    if actions == [] {
      assert log + [] == log;
    } else {
      var next, longer := Step(sys, actions[0]), log + AnswerTo(sys, actions[0]);
      StepKeepsInv(sys, actions[0]);
      StepKeepsTold(start, sys, actions[0], log);
      RunsKeepTold(start, next, actions[1..], longer);
      assert longer + Answers(next, actions[1..]) == log + Answers(sys, actions);
    }
  }

  lemma InitialIsTold(sys: System)
    requires Initial(sys)
    ensures Inv(sys) && Told(sys, sys, [])
  {
  }

  /** Over every run of any calls the adapter answers at most once.  The AgentInvocation is SUCCEEDED by
      a call if and only if the adapter gave that call a valid output, and FAILED by it otherwise; a
      ModelInvocation that ends is SUCCEEDED by any output and FAILED by a provider failure or a
      raising validator. */
  lemma EndingsAreTruthful(sys: System, actions: seq<Action>)
    requires Initial(sys)
    ensures
      var end, log := Run(sys, actions), Answers(sys, actions);
      && |log| <= 1 && AgentTold(sys, end, log)
      && forall id: string :: ModelTold(sys, end, log, id)
  {
    hide Run, Answers, AgentTold, ModelTold;
    InitialIsTold(sys);
    RunsKeepTold(sys, sys, actions, []);
    assert [] + Answers(sys, actions) == Answers(sys, actions);
    DispatchesOnce(Run(sys, actions));
  }
}
