/** Resolution of declared limits over Workflow, Task, Agent and Execution scopes
    (src/aep/execution_budgets.py:117-205, 1192-1231). */
module BudgetResolution {
  import opened Wrappers
  import opened BudgetLedger
  import BudgetRuns
  import BudgetCeilings

  datatype Declarer = ByExecution | ByTask | ByAgent | ByWorkflow
  {
    /** `_SCOPE_SPECIFICITY`: the smaller, the more specific. */
    function Specificity(): nat {
      match this
      case ByExecution => 0
      case ByTask => 1
      case ByAgent => 2
      case ByWorkflow => 3
    }
  }

  /** One effective limit and the scope that established it. */
  datatype BudgetLimit = BudgetLimit(value: real, scope: Declarer)
  {
    predicate Precedes(that: BudgetLimit) {
      value < that.value || (value == that.value && scope.Specificity() <= that.scope.Specificity())
    }
  }

  /** Declared or effective limits of one scope; an absent field is no limit. */
  type Declared = map<Field, BudgetLimit>

  /** The four declarations of one Task execution. */
  datatype Declarations = Declarations(workflow: map<Field, real>, execution: map<Field, real>,
                                       task: map<Field, real>, agent: map<Field, real>)

  function Attributed(limits: map<Field, real>, scope: Declarer): Declared {
    map f | f in limits :: BudgetLimit(limits[f], scope)
  }

  /** `_reject_widening`: some field of the child is above the parent's. */
  predicate Widens(parent: Declared, child: Declared) {
    exists f | f in parent && f in child :: parent[f].value < child[f].value
  }

  function Stricter(a: BudgetLimit, b: BudgetLimit): BudgetLimit {
    if a.Precedes(b) then a else b
  }

  /** `_most_restrictive` of two scopes. */
  function MostRestrictive(a: Declared, b: Declared): Declared {
    map f | f in a.Keys + b.Keys ::
      if f !in b then a[f] else if f !in a then b[f] else Stricter(a[f], b[f])
  }

  datatype Resolved = Resolved(workflow: Declared, task: Declared, agent: Declared)
  datatype Widening = Widening(parent: Declarer, child: Declarer)

  /** `resolve_execution_budget`: widening is judged on the declarations alone, before the
      execution override is applied. */
  function Resolve(d: Declarations): Result<Resolved, Widening> {
    var workflow, execution := Attributed(d.workflow, ByWorkflow), Attributed(d.execution, ByExecution);
    var task, agent := Attributed(d.task, ByTask), Attributed(d.agent, ByAgent);
    if Widens(workflow, execution) then Err(Widening(ByWorkflow, ByExecution))
    else if Widens(workflow, task) then Err(Widening(ByWorkflow, ByTask))
    else if Widens(workflow, agent) then Err(Widening(ByWorkflow, ByAgent))
    else if Widens(task, agent) then Err(Widening(ByTask, ByAgent))
    else
      var ceiling := MostRestrictive(workflow, execution);
      Ok(Resolved(ceiling, MostRestrictive(ceiling, task), MostRestrictive(ceiling, agent)))
  }

  /** A limit is declared for a field by one of some scopes. */
  ghost predicate DeclaredBy(d: Declarations, scopes: set<Declarer>, f: Field, limit: BudgetLimit) {
    limit.scope in scopes &&
    match limit.scope
    case ByExecution => f in d.execution && d.execution[f] == limit.value
    case ByTask => f in d.task && d.task[f] == limit.value
    case ByAgent => f in d.agent && d.agent[f] == limit.value
    case ByWorkflow => f in d.workflow && d.workflow[f] == limit.value
  }

  /** `limits` has exactly the fields some scope declares, each with its least value, attributed
      to the most specific scope that declares that value. */
  ghost predicate StrictestOf(limits: Declared, d: Declarations, scopes: set<Declarer>) {
    && (forall f | f in limits ::
          && DeclaredBy(d, scopes, f, limits[f])
          && forall other | DeclaredBy(d, scopes, f, other) :: limits[f].Precedes(other))
    && (forall f, other | DeclaredBy(d, scopes, f, other) :: f in limits)
  }

  /** No field both declare is above the parent's value. */
  predicate StaysWithin(child: map<Field, real>, parent: map<Field, real>) {
    forall f | f in child && f in parent :: child[f] <= parent[f]
  }

  function DeclaredAt(d: Declarations, scope: Declarer): map<Field, real> {
    match scope
    case ByExecution => d.execution
    case ByTask => d.task
    case ByAgent => d.agent
    case ByWorkflow => d.workflow
  }

  /** Declarations resolve exactly if the override, the Task and the Agent stay within the Workflow and
      the Agent within the Task; a refusal names two scopes of which the one widens the other. */
  lemma ResolvesExactly(d: Declarations)
    ensures Resolve(d).Ok? <==>
              && StaysWithin(d.execution, d.workflow) && StaysWithin(d.task, d.workflow)
              && StaysWithin(d.agent, d.workflow) && StaysWithin(d.agent, d.task)
    ensures Resolve(d).Err? ==>
              && (Resolve(d).error.parent, Resolve(d).error.child) in
                  {(ByWorkflow, ByExecution), (ByWorkflow, ByTask), (ByWorkflow, ByAgent), (ByTask, ByAgent)}
              && !StaysWithin(DeclaredAt(d, Resolve(d).error.child), DeclaredAt(d, Resolve(d).error.parent))
  {
    hide MostRestrictive;
    WidensExactly(d.execution, ByExecution, d.workflow, ByWorkflow);
    WidensExactly(d.task, ByTask, d.workflow, ByWorkflow);
    WidensExactly(d.agent, ByAgent, d.workflow, ByWorkflow);
    WidensExactly(d.agent, ByAgent, d.task, ByTask);
    hide Widens, Attributed, StaysWithin;
  }

  lemma WidensExactly(child: map<Field, real>, inner: Declarer, parent: map<Field, real>, outer: Declarer)
    ensures Widens(Attributed(parent, outer), Attributed(child, inner)) <==> !StaysWithin(child, parent)
  {
    if f :| f in child && f in parent && parent[f] < child[f] {
      assert f in Attributed(parent, outer) && f in Attributed(child, inner);
    }
  }

  /** Every effective limit is the strictest declaration that applies to its scope. */
  lemma ResolvedIsStrictest(d: Declarations)
    requires Resolve(d).Ok?
    ensures StrictestOf(Resolve(d).value.workflow, d, {ByWorkflow, ByExecution})
    ensures StrictestOf(Resolve(d).value.task, d, {ByWorkflow, ByExecution, ByTask})
    ensures StrictestOf(Resolve(d).value.agent, d, {ByWorkflow, ByExecution, ByAgent})
  {
    hide StrictestOf, MostRestrictive, Attributed, Widens;
    var workflow, execution := Attributed(d.workflow, ByWorkflow), Attributed(d.execution, ByExecution);
    var ceiling := MostRestrictive(workflow, execution);
    AttributedIsStrictest(d);
    StrictestOfBoth(d, workflow, {ByWorkflow}, execution, {ByExecution});
    assert {ByWorkflow} + {ByExecution} == {ByWorkflow, ByExecution};
    StrictestOfBoth(d, ceiling, {ByWorkflow, ByExecution}, Attributed(d.task, ByTask), {ByTask});
    assert {ByWorkflow, ByExecution} + {ByTask} == {ByWorkflow, ByExecution, ByTask};
    StrictestOfBoth(d, ceiling, {ByWorkflow, ByExecution}, Attributed(d.agent, ByAgent), {ByAgent});
    assert {ByWorkflow, ByExecution} + {ByAgent} == {ByWorkflow, ByExecution, ByAgent};
  }

  lemma AttributedIsStrictest(d: Declarations)
    ensures StrictestOf(Attributed(d.workflow, ByWorkflow), d, {ByWorkflow})
    ensures StrictestOf(Attributed(d.execution, ByExecution), d, {ByExecution})
    ensures StrictestOf(Attributed(d.task, ByTask), d, {ByTask})
    ensures StrictestOf(Attributed(d.agent, ByAgent), d, {ByAgent})
  {
  }

  lemma StrictestOfBoth(d: Declarations, a: Declared, inA: set<Declarer>, b: Declared, inB: set<Declarer>)
    requires StrictestOf(a, d, inA) && StrictestOf(b, d, inB)
    ensures StrictestOf(MostRestrictive(a, b), d, inA + inB)
  {
    var both := MostRestrictive(a, b);
    forall f | f in both ensures DeclaredBy(d, inA + inB, f, both[f]) {
      assert f in a ==> DeclaredBy(d, inA, f, a[f]);
      assert f in b ==> DeclaredBy(d, inB, f, b[f]);
    }
    forall f, other | DeclaredBy(d, inA + inB, f, other)
      ensures f in both && both[f].Precedes(other)
    {
      if other.scope in inA {
        assert DeclaredBy(d, inA, f, other);
      } else {
        assert DeclaredBy(d, inB, f, other);
      }
    }
  }

  /** A Task ceiling never leaks into the ledger an Agent shares between Tasks. */
  lemma TaskLimitsStayInTheTask(d: Declarations, other: map<Field, real>)
    requires Resolve(d).Ok? && Resolve(d.(task := other)).Ok?
    ensures Resolve(d).value.agent == Resolve(d.(task := other)).value.agent
    ensures Resolve(d).value.workflow == Resolve(d.(task := other)).value.workflow
  {
  }

  /** An execution override that narrows the Workflow never makes a valid Task or Agent
      declaration fail: the outcome without it decides. */
  lemma NarrowingOverrideIsAccepted(d: Declarations)
    ensures Resolve(d).Ok? <==>
              Resolve(d.(execution := map[])).Ok?
              && forall f | f in d.workflow && f in d.execution :: d.execution[f] <= d.workflow[f]
  {
    var workflow, execution := Attributed(d.workflow, ByWorkflow), Attributed(d.execution, ByExecution);
    assert !Widens(workflow, Attributed(map[], ByExecution));
    if Widens(workflow, execution) {
      var f :| f in workflow && f in execution && workflow[f].value < execution[f].value;
      assert f in d.workflow && f in d.execution && d.workflow[f] < d.execution[f];
    } else {
      forall f | f in d.workflow && f in d.execution ensures d.execution[f] <= d.workflow[f] {
        assert f in workflow && f in execution;
      }
    }
  }

  /** Every limit of `wider` is there and no higher. */
  predicate Tightens(narrower: Declared, wider: Declared) {
    forall f | f in wider :: f in narrower && narrower[f].value <= wider[f].value
  }

  predicate Lowers(narrower: map<Field, real>, wider: map<Field, real>) {
    forall f | f in wider :: f in narrower && narrower[f] <= wider[f]
  }

  /** Adding or lowering declarations can only lower effective limits, in all three scopes. */
  lemma NarrowerIsTighter(d: Declarations, narrower: Declarations)
    requires Lowers(narrower.workflow, d.workflow) && Lowers(narrower.execution, d.execution)
    requires Lowers(narrower.task, d.task) && Lowers(narrower.agent, d.agent)
    ensures Resolve(d).Ok? && Resolve(narrower).Ok? ==>
              && Tightens(Resolve(narrower).value.workflow, Resolve(d).value.workflow)
              && Tightens(Resolve(narrower).value.task, Resolve(d).value.task)
              && Tightens(Resolve(narrower).value.agent, Resolve(d).value.agent)
  {
    hide Resolve, StrictestOf, Tightens, Lowers;
    if Resolve(d).Ok? && Resolve(narrower).Ok? {
      ResolvedIsStrictest(d);
      ResolvedIsStrictest(narrower);
      var limits, lower := Resolve(d).value, Resolve(narrower).value;
      StrictestTightens(limits.workflow, d, lower.workflow, narrower, {ByWorkflow, ByExecution});
      StrictestTightens(limits.task, d, lower.task, narrower, {ByWorkflow, ByExecution, ByTask});
      StrictestTightens(limits.agent, d, lower.agent, narrower, {ByWorkflow, ByExecution, ByAgent});
    }
  }

  lemma StrictestTightens(limits: Declared, d: Declarations, lower: Declared, narrower: Declarations,
                          scopes: set<Declarer>)
    requires StrictestOf(limits, d, scopes) && StrictestOf(lower, narrower, scopes)
    requires Lowers(narrower.workflow, d.workflow) && Lowers(narrower.execution, d.execution)
    requires Lowers(narrower.task, d.task) && Lowers(narrower.agent, d.agent)
    ensures Tightens(lower, limits)
  {
    forall f | f in limits ensures f in lower && lower[f].value <= limits[f].value {
      var limit := limits[f];
      assert DeclaredBy(d, scopes, f, limit);
      var declared := BudgetLimit(
        match limit.scope
        case ByExecution => narrower.execution[f]
        case ByTask => narrower.task[f]
        case ByAgent => narrower.agent[f]
        case ByWorkflow => narrower.workflow[f], limit.scope);
      assert DeclaredBy(narrower, scopes, f, declared);
    }
  }

  // ---------------------------------------------------------------- what the ledger enforces

  function Count(limits: Declared, f: Field): Option<int> {
    if f in limits then Some(limits[f].value.Floor) else None
  }

  /** The limits a ledger record is checked against; all but money are whole numbers. */
  function Enforced(limits: Declared): Limits {
    Limits(Count(limits, MaxModelInvocations), Count(limits, MaxInputTokens), Count(limits, MaxOutputTokens),
           Count(limits, MaxElapsedMs),
           if MaxCostUsd in limits then Some(limits[MaxCostUsd].value) else None)
  }

  /** A whole number is over an enforced limit exactly if it is over the declared one of that field. */
  lemma EnforcedExactly(limits: Declared, total: int)
    ensures
      var e := Enforced(limits);
      && (Exceeds(e.invocations, total) <==> IsOver(limits, MaxModelInvocations, total))
      && (Exceeds(e.input, total) <==> IsOver(limits, MaxInputTokens, total))
      && (Exceeds(e.output, total) <==> IsOver(limits, MaxOutputTokens, total))
      && (Exceeds(e.elapsed, total) <==> IsOver(limits, MaxElapsedMs, total))
      && (e.cost.Some? <==> MaxCostUsd in limits)
      && (e.cost.Some? ==> (CostExceeds(e.cost.value, total) <==> IsOver(limits, MaxCostUsd, total)))
  {
  }

  predicate IsOver(limits: Declared, f: Field, total: int) {
    f in limits && limits[f].value < total as real
  }

  function EnforcedScopes(r: Resolved): PerScope<Limits> {
    PerScope(Enforced(r.workflow), Enforced(r.task), Enforced(r.agent))
  }

  ghost predicate BoundTo(b: Binding, d: Declarations) {
    Resolve(d).Ok? && b.limits == EnforcedScopes(Resolve(d).value)
  }

  /** Two budgets of one WorkflowExecution, resolved from the same Workflow, override, Task and
      Agent declarations wherever they share a key, enforce the same limits on every record they
      share: what the whole-run results assume of their bindings. */
  lemma SharedKeysShareLimits(a: Binding, da: Declarations, b: Binding, db: Declarations)
    requires BoundTo(a, da) && BoundTo(b, db)
    requires da.workflow == db.workflow && da.execution == db.execution
    requires a.taskKey == b.taskKey ==> da.task == db.task
    requires a.agentKey == b.agentKey ==> da.agent == db.agent
    ensures BudgetRuns.LimitsAgree(a, b)
  {
    hide Enforced, Widens, MostRestrictive, Attributed;
  }

  predicate PositiveValues(limits: map<Field, real>) {
    forall f | f in limits :: if f == MaxCostUsd then 0.0 < limits[f] else 1.0 <= limits[f]
  }

  /** Positive declarations resolve to limits a fresh record is within. */
  lemma PositiveDeclarationsResolve(b: Binding, d: Declarations)
    requires PositiveValues(d.workflow) && PositiveValues(d.execution)
    requires PositiveValues(d.task) && PositiveValues(d.agent)
    ensures BoundTo(b, d) ==> BudgetCeilings.Positive(b)
  {
    if BoundTo(b, d) {
      var r := Resolve(d).value;
      ResolvedIsStrictest(d);
      forall s: ScopeName ensures BudgetCeilings.Within(b.limits.At(s), NOTHING) {
        match s
        case WorkflowScope => StrictestIsPositive(r.workflow, d, {ByWorkflow, ByExecution});
        case TaskScope => StrictestIsPositive(r.task, d, {ByWorkflow, ByExecution, ByTask});
        case AgentScope => StrictestIsPositive(r.agent, d, {ByWorkflow, ByExecution, ByAgent});
      }
    }
  }

  lemma StrictestIsPositive(limits: Declared, d: Declarations, scopes: set<Declarer>)
    requires StrictestOf(limits, d, scopes)
    requires PositiveValues(d.workflow) && PositiveValues(d.execution)
    requires PositiveValues(d.task) && PositiveValues(d.agent)
    ensures BudgetCeilings.Within(Enforced(limits), NOTHING)
  {
    forall f | f in limits
      ensures if f == MaxCostUsd then 0.0 < limits[f].value else 1.0 <= limits[f].value
    {
      assert DeclaredBy(d, scopes, f, limits[f]);
    }
  }
}
