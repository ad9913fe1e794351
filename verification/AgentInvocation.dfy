/** Concurrent and repeated calls of `invoke_agent` with one invocation id, interleaved at every
    access to the store, the budget and the adapter (src/aep/agent_invocation.py:143-447). */
module AgentInvocation {
  import opened Wrappers
  import opened RuntimeStore

  /** An AgentInvocation record: the inputs that identify it, and everything else it is created with. */
  datatype AgentRecord = AgentRecord(inputs: string, rest: string)

  datatype ModelRecord = ModelRecord(ofThisAgent: bool, rest: string)

  /** An object and whether it was created under its deterministic key. */
  datatype Slot<T> = Slot(stored: Stored<T>, keyed: bool)

  datatype Outcome = Success(valid: bool) | ValidatorRaised | ProviderFailure

  datatype Reason =
    | DifferentInputs | ModelConflict | BudgetRefused | ClaimConflict | AgentConflict
    | CreatedForDifferentInputs | ModelIdentityConflict | AdapterCrashed | ChargeFailed | StatusLost
    | OutputValidatorRaised | Crashed

  datatype Phase =
    | Start | AgentRead | ModelRead | Preflighted | Claimed | ClaimLost | AgentCreated | Conflicting | Ready
    | Dispatched(outcome: Outcome) | Charged(outcome: Outcome) | ModelUpdated(outcome: Outcome)
    | Returned | Raised(reason: Reason)

  /** One call.  `reserved` says its preflight succeeded, `settlements` counts its budget records
      and releases. */
  datatype Call = Call(agent: AgentRecord, modelId: string, model: ModelRecord, hasBudget: bool, phase: Phase,
                       existingAgent: bool, existingModel: bool, reserved: bool, settlements: nat)

  /** `winner` is the call whose claim succeeded, `dispatches` the calls that reached the adapter,
      `endings` the changes of the AgentInvocation out of RUNNING. */
  datatype System = System(agent: Option<Slot<AgentRecord>>, models: map<string, Slot<ModelRecord>>,
                           claim: Option<string>,
                           calls: seq<Call>, winner: Option<nat>, dispatches: seq<nat>, endings: seq<nat>)

  /** What the surroundings decide at a step: whether the budget accepts, and what the adapter does. */
  datatype Choice = Accept | Refuse | Adapter(outcome: Outcome) | AdapterRaises

  datatype Action = Advance(who: nat, choice: Choice) | Crash(who: nat)

  function Stays(c: Call, phase: Phase): Call {
    c.(phase := phase)
  }

  /** `release` or `record`, if the call has a budget. */
  function Settled(c: Call, phase: Phase): Call {
    c.(phase := phase, settlements := c.settlements + if c.hasBudget then 1 else 0)
  }

  function With(sys: System, who: nat, c: Call): System
    requires who < |sys.calls|
  {
    sys.(calls := sys.calls[who := c])
  }

  function ReadAgent(sys: System, c: Call): Call {
    if sys.agent.None? then c.(phase := AgentRead, existingAgent := false)
    else if sys.agent.value.stored.value.inputs != c.agent.inputs then Stays(c, Raised(DifferentInputs))
    else if Terminal(sys.agent.value.stored.status) then Stays(c, Returned)
    else c.(phase := AgentRead, existingAgent := true)
  }

  function ReadModel(sys: System, c: Call): Call {
    if c.modelId !in sys.models then c.(phase := ModelRead, existingModel := false)
    else
      var existing := sys.models[c.modelId].stored;
      if !c.existingAgent || !existing.value.ofThisAgent || existing.status != Running then
        Stays(c, Raised(ModelConflict))
      else c.(phase := ModelRead, existingModel := true)
  }

  function Preflight(c: Call, choice: Choice): Call {
    if !c.hasBudget then Stays(c, Preflighted)
    else if choice == Refuse then Stays(c, Raised(BudgetRefused))
    else c.(phase := Preflighted, reserved := true)
  }

  function ClaimPair(sys: System, who: nat): System
    requires who < |sys.calls|
  {
    var c := sys.calls[who];
    var won := ClaimOnce(sys.claim, c.modelId);
    if sys.claim.None? then With(sys.(claim := Some(won), winner := Some(who)), who, Stays(c, Claimed))
    else if won != c.modelId then With(sys, who, Settled(c, Raised(ClaimConflict)))
    else With(sys, who, Settled(c, ClaimLost))
  }

  /** After its claim: give up on an existing child, or create the AgentInvocation. */
  function CreateAgent(sys: System, who: nat): System
    requires who < |sys.calls|
  {
    var c := sys.calls[who];
    if c.existingModel then With(sys, who, Settled(c, Returned))
    else if sys.agent.None? then
      With(sys.(agent := Some(Slot(Stored(Running, c.agent), true))), who, Stays(c, AgentCreated))
    else if !sys.agent.value.keyed then With(sys, who, Settled(c, Raised(AgentConflict)))
    else
      var saved := sys.agent.value.stored;
      if saved.value.inputs != c.agent.inputs then With(sys, who, Stays(c, Raised(CreatedForDifferentInputs)))
      else if Terminal(saved.status) then With(sys, who, Settled(c, Returned))
      else if saved != Stored(Running, c.agent) then With(sys, who, Settled(c, Raised(AgentConflict)))
      else With(sys, who, Stays(c, AgentCreated))
  }

  function CreateModel(sys: System, who: nat): System
    requires who < |sys.calls|
  {
    var c := sys.calls[who];
    if c.modelId !in sys.models then
      With(sys.(models := sys.models[c.modelId := Slot(Stored(Running, c.model), true)]), who, Stays(c, Ready))
    else if sys.models[c.modelId] == Slot(Stored(Running, c.model), true) then With(sys, who, Stays(c, Ready))
    else With(sys, who, Settled(c, Conflicting))
  }

  /** `update_status` of the AgentInvocation from RUNNING. */
  function EndAgent(sys: System, who: nat, status: Status, ended: Phase, lost: Phase): System
    requires who < |sys.calls|
  {
    var cell := if sys.agent.Some? then Some(sys.agent.value.stored) else None;
    match UpdateStatus(cell, Running, status, if cell.Some? then cell.value.value else sys.calls[who].agent)
    case Ok(stored) =>
      With(sys.(agent := Some(sys.agent.value.(stored := stored)), endings := sys.endings + [who]),
           who, Stays(sys.calls[who], ended))
    case Err(_) => With(sys, who, Stays(sys.calls[who], lost))
  }

  function EndModel(sys: System, who: nat, status: Status, ended: Phase): System
    requires who < |sys.calls|
  {
    var c := sys.calls[who];
    if c.modelId !in sys.models then With(sys, who, Stays(c, Raised(StatusLost)))
    else
      var slot := sys.models[c.modelId];
      match UpdateStatus(Some(slot.stored), Running, status, slot.stored.value)
      case Ok(stored) => With(sys.(models := sys.models[c.modelId := slot.(stored := stored)]), who, Stays(c, ended))
      case Err(_) => With(sys, who, Stays(c, Raised(StatusLost)))
  }

  function ModelStatus(outcome: Outcome): Status {
    if outcome.Success? then Succeeded else Failed
  }

  function AgentStatus(outcome: Outcome): Status {
    if outcome.Success? && outcome.valid then Succeeded else Failed
  }

  function Proceed(sys: System, who: nat, choice: Choice): System
    requires who < |sys.calls|
  {
    var c := sys.calls[who];
    match c.phase
    case Start => With(sys, who, ReadAgent(sys, c))
    case AgentRead => With(sys, who, ReadModel(sys, c))
    case ModelRead => With(sys, who, Preflight(c, choice))
    case Preflighted => ClaimPair(sys, who)
    case Claimed => CreateAgent(sys, who)
    case ClaimLost => With(sys, who, Stays(c, Returned))
    case AgentCreated => CreateModel(sys, who)
    case Conflicting => EndAgent(sys, who, Failed, Raised(ModelIdentityConflict), Raised(StatusLost))
    case Ready =>
      if choice.Adapter? then
        With(sys.(dispatches := sys.dispatches + [who]), who, Stays(c, Dispatched(choice.outcome)))
      else if choice.AdapterRaises? then
        With(sys.(dispatches := sys.dispatches + [who]), who, Stays(c, Raised(AdapterCrashed)))
      else sys
    case Dispatched(outcome) =>
      if c.hasBudget && choice == Refuse then With(sys, who, Stays(c, Raised(ChargeFailed)))
      else With(sys, who, Settled(c, Charged(outcome)))
    case Charged(outcome) => EndModel(sys, who, ModelStatus(outcome), ModelUpdated(outcome))
    case ModelUpdated(outcome) =>
      EndAgent(sys, who, AgentStatus(outcome),
               if outcome == ValidatorRaised then Raised(OutputValidatorRaised) else Returned, Raised(StatusLost))
    case Returned => sys
    case Raised(_) => sys
  }

  function Step(sys: System, a: Action): System {
    if a.who >= |sys.calls| then sys
    else if a.Advance? then Proceed(sys, a.who, a.choice)
    else if sys.calls[a.who].phase.Returned? || sys.calls[a.who].phase.Raised? then sys
    else With(sys, a.who, Stays(sys.calls[a.who], Raised(Crashed)))
  }

  function Run(sys: System, actions: seq<Action>): System
    decreases |actions|
  {
    hide Step;
    if actions == [] then sys else Run(Step(sys, actions[0]), actions[1..])
  }

  /** Fresh calls on any store: the invocation, its child and its claim may exist already. */
  ghost predicate Initial(sys: System) {
    && sys.winner.None? && sys.dispatches == [] && sys.endings == []
    && (forall c | c in sys.calls :: c.phase == Start && !c.reserved && c.settlements == 0)
  }

  // ---------------------------------------------------------------- what every step keeps

  predicate BeforeSettlement(p: Phase) {
    p in {Preflighted, Claimed, AgentCreated, Ready} || p.Dispatched?
  }

  predicate AfterClaim(p: Phase) {
    p in {Claimed, AgentCreated, Conflicting, Ready} || p.Dispatched? || p.Charged? || p.ModelUpdated?
  }

  /** The ways a call can end without giving its reservation back: a raise the code does not settle. */
  predicate Unsettled(r: Reason) {
    r in {CreatedForDifferentInputs, AdapterCrashed, ChargeFailed, Crashed}
  }

  ghost predicate CallInv(c: Call) {
    && (c.reserved ==> c.hasBudget)
    && c.settlements <= (if c.hasBudget then 1 else 0)
    && (c.phase in {Start, AgentRead, ModelRead} ==> !c.reserved && c.settlements == 0)
    && (BeforeSettlement(c.phase) ==> c.reserved == c.hasBudget && c.settlements == 0)
    && (c.phase in {ClaimLost, Conflicting} || c.phase.Charged? || c.phase.ModelUpdated? ==>
          c.reserved == c.hasBudget && c.settlements == if c.hasBudget then 1 else 0)
    && (!c.reserved ==> c.settlements == 0)
    && (c.phase.Returned? && c.reserved ==> c.settlements == 1)
    && (c.phase.Raised? && c.reserved && c.settlements == 0 ==> Unsettled(c.phase.reason))
  }

  ghost predicate SystemInv(sys: System) {
    && (sys.winner.Some? ==> sys.claim.Some?)
    && (forall i | 0 <= i < |sys.calls| && AfterClaim(sys.calls[i].phase) :: sys.winner == Some(i))
    && (sys.dispatches == [] || (exists i :: sys.winner == Some(i) && sys.dispatches == [i]))
    && (sys.dispatches != [] ==>
          && sys.winner.value < |sys.calls|
          && sys.calls[sys.winner.value].phase !in {Claimed, AgentCreated, Ready, Conflicting})
    && |sys.endings| <= 1
    && (sys.endings != [] ==> sys.agent.Some? && Terminal(sys.agent.value.stored.status))
  }

  ghost predicate Inv(sys: System) {
    SystemInv(sys) && forall i | 0 <= i < |sys.calls| :: CallInv(sys.calls[i])
  }

  /** What one step may do to the system, apart from its own call. */
  ghost predicate Moves(sys: System, who: nat, after: System)
    requires who < |sys.calls|
  {
    && |after.calls| == |sys.calls| && after.calls == sys.calls[who := after.calls[who]]
    && CallInv(after.calls[who])
    && SystemInv(after)
  }

  /** A step of a call that touches nothing else, and does not enter the claimed part. */
  lemma Stepping(sys: System, who: nat, c: Call)
    requires SystemInv(sys) && who < |sys.calls| && CallInv(c)
    requires AfterClaim(c.phase) ==> AfterClaim(sys.calls[who].phase)
    requires sys.dispatches != [] ==> c.phase !in {Claimed, AgentCreated, Ready, Conflicting}
                                      || sys.calls[who].phase in {Claimed, AgentCreated, Ready, Conflicting}
    ensures Moves(sys, who, With(sys, who, c))
  {
    hide CallInv;
  }

  lemma ReadsMove(sys: System, who: nat, choice: Choice)
    requires Inv(sys) && who < |sys.calls|
    requires sys.calls[who].phase in {Start, AgentRead, ModelRead, ClaimLost}
    ensures Moves(sys, who, Proceed(sys, who, choice))
  {
    var c := sys.calls[who];
    assert CallInv(c);
    hide SystemInv, Moves;
    match c.phase {
      case Start => Stepping(sys, who, ReadAgent(sys, c));
      case AgentRead => Stepping(sys, who, ReadModel(sys, c));
      case ModelRead => Stepping(sys, who, Preflight(c, choice));
      case ClaimLost => Stepping(sys, who, Stays(c, Returned));
      case _ =>
    }
  }

  lemma ClaimMoves(sys: System, who: nat)
    requires Inv(sys) && who < |sys.calls| && sys.calls[who].phase == Preflighted
    ensures Moves(sys, who, ClaimPair(sys, who))
  {
    var c := sys.calls[who];
    assert CallInv(c);
    if sys.claim.Some? {
      hide SystemInv, Moves;
      Stepping(sys, who, Settled(c, if sys.claim.value != c.modelId then Raised(ClaimConflict) else ClaimLost));
    }
  }

  lemma CreateAgentMoves(sys: System, who: nat)
    requires Inv(sys) && who < |sys.calls| && sys.calls[who].phase == Claimed
    ensures Moves(sys, who, CreateAgent(sys, who))
  {
    var c, after := sys.calls[who], CreateAgent(sys, who);
    assert CallInv(c);
    if !c.existingModel && sys.agent.None? {
      assert CallInv(after.calls[who]);
    } else {
      hide SystemInv, Moves;
      Stepping(sys, who, after.calls[who]);
    }
  }

  lemma CreateModelMoves(sys: System, who: nat)
    requires Inv(sys) && who < |sys.calls| && sys.calls[who].phase == AgentCreated
    ensures Moves(sys, who, CreateModel(sys, who))
  {
    var c, after := sys.calls[who], CreateModel(sys, who);
    assert CallInv(c) && CallInv(after.calls[who]);
    hide SystemInv, Moves, CallInv;
    var before := sys.(models := after.models);
    assert SystemInv(before) by { ModelsDoNotMatter(sys, after.models); }
    Stepping(before, who, after.calls[who]);
  }

  lemma ModelsDoNotMatter(sys: System, models: map<string, Slot<ModelRecord>>)
    requires SystemInv(sys)
    ensures SystemInv(sys.(models := models))
  {
  }

  lemma EndModelMoves(sys: System, who: nat, outcome: Outcome)
    requires Inv(sys) && who < |sys.calls| && sys.calls[who].phase == Charged(outcome)
    ensures Moves(sys, who, EndModel(sys, who, ModelStatus(outcome), ModelUpdated(outcome)))
  {
    var c, after := sys.calls[who], EndModel(sys, who, ModelStatus(outcome), ModelUpdated(outcome));
    assert CallInv(c) && CallInv(after.calls[who]);
    hide SystemInv, Moves, CallInv;
    var before := sys.(models := after.models);
    assert SystemInv(before) by { ModelsDoNotMatter(sys, after.models); }
    Stepping(before, who, after.calls[who]);
  }

  lemma EndAgentMoves(sys: System, who: nat, status: Status, ended: Phase, lost: Phase)
    requires Inv(sys) && who < |sys.calls| && status in {Succeeded, Failed}
    requires sys.calls[who].phase == Conflicting || sys.calls[who].phase.ModelUpdated?
    requires lost == Raised(StatusLost) && (ended.Returned? || (ended.Raised? && !Unsettled(ended.reason)))
    ensures Moves(sys, who, EndAgent(sys, who, status, ended, lost))
  {
    var c, after := sys.calls[who], EndAgent(sys, who, status, ended, lost);
    assert CallInv(c) && CallInv(after.calls[who]);
    if after.endings == sys.endings {
      assert after == With(sys, who, Stays(c, lost));
      hide SystemInv, Moves, CallInv;
      Stepping(sys, who, after.calls[who]);
    }
  }

  lemma DispatchMoves(sys: System, who: nat, choice: Choice)
    requires Inv(sys) && who < |sys.calls| && sys.calls[who].phase == Ready
    ensures Moves(sys, who, Proceed(sys, who, choice))
  {
    var c := sys.calls[who];
    assert CallInv(c);
    assert sys.winner == Some(who) && sys.dispatches == [];
  }

  lemma ChargeMoves(sys: System, who: nat, choice: Choice)
    requires Inv(sys) && who < |sys.calls| && sys.calls[who].phase.Dispatched?
    ensures Moves(sys, who, Proceed(sys, who, choice))
  {
    var c := sys.calls[who];
    assert CallInv(c);
    hide SystemInv, Moves;
    if c.hasBudget && choice == Refuse {
      Stepping(sys, who, Stays(c, Raised(ChargeFailed)));
    } else {
      Stepping(sys, who, Settled(c, Charged(c.phase.outcome)));
    }
  }

  lemma ProceedMoves(sys: System, who: nat, choice: Choice)
    requires Inv(sys) && who < |sys.calls| && !sys.calls[who].phase.Returned? && !sys.calls[who].phase.Raised?
    ensures Moves(sys, who, Proceed(sys, who, choice))
  {
    hide Inv, Moves, ClaimPair, CreateAgent, CreateModel, EndAgent, EndModel, Settled, Stays, ReadAgent, ReadModel,
        Preflight;
    match sys.calls[who].phase {
      case Preflighted => ClaimMoves(sys, who);
      case Claimed => CreateAgentMoves(sys, who);
      case AgentCreated => CreateModelMoves(sys, who);
      case Conflicting => EndAgentMoves(sys, who, Failed, Raised(ModelIdentityConflict), Raised(StatusLost));
      case Ready => DispatchMoves(sys, who, choice);
      case Dispatched(_) => ChargeMoves(sys, who, choice);
      case Charged(outcome) => EndModelMoves(sys, who, outcome);
      case ModelUpdated(outcome) =>
        EndAgentMoves(sys, who, AgentStatus(outcome),
                      if outcome == ValidatorRaised then Raised(OutputValidatorRaised) else Returned,
                      Raised(StatusLost));
      case _ => ReadsMove(sys, who, choice);
    }
  }

  lemma StepKeepsInv(sys: System, a: Action)
    requires Inv(sys)
    ensures Inv(Step(sys, a))
  {
    if a.who < |sys.calls| && !sys.calls[a.who].phase.Returned? && !sys.calls[a.who].phase.Raised? {
      hide Proceed, SystemInv, CallInv;
      assert CallInv(sys.calls[a.who]);
      if a.Advance? { ProceedMoves(sys, a.who, a.choice); }
      var after := Step(sys, a);
      forall i | 0 <= i < |after.calls| ensures CallInv(after.calls[i]) {
        if i != a.who { assert after.calls[i] == sys.calls[i]; }
      }
    } else {
      assert Step(sys, a) == sys;
    }
  }

  lemma {:induction false} RunsKeepInv(sys: System, actions: seq<Action>)
    requires Inv(sys)
    ensures Inv(Run(sys, actions))
    decreases |actions|
  {
    hide Step, Inv;
    if actions != [] {
      StepKeepsInv(sys, actions[0]);
      RunsKeepInv(Step(sys, actions[0]), actions[1..]);
    }
  }

  /** For any number of concurrent or repeated calls, crashes included: the adapter is reached at
      most once, the AgentInvocation leaves RUNNING at most once, and a call that returns after its
      preflight has settled its reservation exactly once.  A call that raises has settled it as
      well, unless it raised on the identity check after creation, in the adapter, in the charge
      itself, or crashed. */
  lemma InvokedAtMostOnce(sys: System, actions: seq<Action>)
    requires Initial(sys)
    ensures
      var end := Run(sys, actions);
      && |end.dispatches| <= 1 && |end.endings| <= 1
      && (forall c | c in end.calls ::
            && c.settlements <= 1
            && (c.phase.Returned? && c.reserved ==> c.settlements == 1)
            && (c.phase.Raised? && c.reserved && c.settlements == 0 ==> Unsettled(c.phase.reason)))
  {
    hide Run;
    RunsKeepInv(sys, actions);
    var end := Run(sys, actions);
    forall c | c in end.calls
      ensures c.settlements <= 1 && (c.phase.Returned? && c.reserved ==> c.settlements == 1)
      ensures c.phase.Raised? && c.reserved && c.settlements == 0 ==> Unsettled(c.phase.reason)
    {
      var i :| 0 <= i < |end.calls| && end.calls[i] == c;
      assert CallInv(end.calls[i]);
    }
  }
}
