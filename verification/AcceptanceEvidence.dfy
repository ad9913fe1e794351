/** The evidence records acceptance looks at, and what makes each of them acceptable, apart from how
    the handler checks it (src/aep/evaluate_acceptance.py:32-37, 288-836). */
module AcceptanceEvidence {
  import opened Resources
  import opened Wrappers

  datatype Workflow = Workflow(id: string, traceId: string, revision: string)

  datatype Provenance = Provenance(workflowId: string, taskExecutionId: string, revision: Option<string>,
                                   refs: seq<Ref>)

  /** Fields every evidence object has; `revision` is its own field, if it has one. */
  datatype Common = Common(taskExecutionId: string, traceId: string, provenance: Option<Provenance>,
                           revision: Option<string>)

  /** A list of runtime identifiers is `None` if it is malformed; a missing one is empty. */
  type Identifiers = Option<seq<string>>

  datatype Artifact = Artifact(common: Common, artifactType: string, hasContent: bool, evaluationIds: Identifiers)

  datatype Target = Target(kind: Option<string>, id: Option<string>)

  datatype EvaluationResult = EvaluationResult(common: Common, schemaValid: bool, evaluationRef: Option<Ref>,
                                               target: Option<Target>, status: string, outcome: string,
                                               hasFailure: bool)

  datatype Invocation = Invocation(kind: string, common: Common, schemaValid: bool, status: string)

  /** A predecessor TaskExecution with its Task Resource. */
  datatype Producer = Producer(id: string, schemaValid: bool, provenance: Option<Provenance>, taskName: string,
                               taskRef: Ref,
                               declared: seq<Option<Ref>>, artifactIds: Identifiers, evaluationIds: Identifiers)

  /** Everything stored, and the types of the loaded Evaluation Resources. */
  datatype Stores = Stores(artifacts: map<string, Artifact>, results: map<string, EvaluationResult>,
                           invocations: map<string, Invocation>, evaluations: map<Ref, string>)

  datatype Contract = Contract(taskName: string, artifactType: string, evaluationTypes: seq<string>)

  const MVP_EVIDENCE_CONTRACT :=
    [Contract("analyze-issue", "ISSUE_ANALYSIS", ["schema"]),
     Contract("build-implementation-plan", "IMPLEMENTATION_PLAN", ["schema"]),
     Contract("generate-patch", "PATCH", ["patch"]),
     Contract("run-validation", "EVALUATION_REPORT", ["build", "test"])]

  /** A patch Task that declares plan reconciliation owes that evaluation, too. */
  function ExpectedTypes(p: Producer, contract: Contract): seq<string> {
    if p.taskName == "generate-patch" && exists d :: d in p.declared && d.Some? && d.value.name == "plan-reconciliation"
    then ["patch", "reconciliation"]
    else contract.evaluationTypes
  }

  function ArtifactsOf(s: Stores, producer: string): set<string> {
    set id | id in s.artifacts && s.artifacts[id].common.taskExecutionId == producer
  }

  function ResultsOf(s: Stores, producer: string): set<string> {
    set id | id in s.results && s.results[id].common.taskExecutionId == producer
  }

  function ToSet(ids: seq<string>): set<string> {
    set id | id in ids
  }

  // ---------------------------------------------------------------- what is acceptable

  /** Made by the producer, in this workflow, under this trace and revision. */
  predicate Correlated(c: Common, producer: string, w: Workflow) {
    && c.taskExecutionId == producer && c.traceId == w.traceId
    && c.provenance.Some?
    && c.provenance.value.workflowId == w.id && c.provenance.value.taskExecutionId == producer
    && c.provenance.value.revision == Some(w.revision)
    && (c.revision.Some? ==> c.revision.value == w.revision)
  }

  function TargetKind(evaluationType: string): Option<string> {
    if evaluationType == "schema" || evaluationType == "reconciliation" then Some("AgentInvocation")
    else if evaluationType == "patch" then Some("GeneratedArtifact")
    else if evaluationType == "build" || evaluationType == "test" then Some("ToolInvocation")
    else None
  }

  /** The invocation an evaluation judged: the producer's, in this workflow; its revision need not
      be recorded, but must match if it is. */
  predicate TargetCorrelated(v: Invocation, producer: string, w: Workflow) {
    && v.schemaValid && v.common.taskExecutionId == producer && v.common.traceId == w.traceId
    && v.common.provenance.Some?
    && v.common.provenance.value.workflowId == w.id && v.common.provenance.value.taskExecutionId == producer
    && v.common.provenance.value.revision in {None, Some(w.revision)}
  }

  predicate TargetAccepted(s: Stores, r: EvaluationResult, evaluationType: string, producer: string,
                           artifactIds: seq<string>, w: Workflow) {
    && r.target.Some? && r.target.value.id.Some?
    && r.target.value.kind == TargetKind(evaluationType)
    && if TargetKind(evaluationType) == Some("GeneratedArtifact") then r.target.value.id.value in artifactIds
       else
         && r.target.value.id.value in s.invocations
         && var v := s.invocations[r.target.value.id.value];
            && Some(v.kind) == TargetKind(evaluationType) && TargetCorrelated(v, producer, w)
            && (r.outcome == "PASS" ==> v.status == "SUCCEEDED")
  }

  predicate Passed(r: EvaluationResult) {
    r.status == "SUCCEEDED" && r.outcome == "PASS" && !r.hasFailure
  }

  predicate ResultAccepted(s: Stores, id: string, producer: string, artifactIds: seq<string>, w: Workflow) {
    && id in s.results
    && var r := s.results[id];
       && r.schemaValid && Correlated(r.common, producer, w)
       && r.evaluationRef.Some? && r.evaluationRef.value in s.evaluations
       && TargetAccepted(s, r, s.evaluations[r.evaluationRef.value], producer, artifactIds, w)
       && Passed(r)
  }

  predicate ArtifactAccepted(s: Stores, id: string, artifactType: string, producer: string, w: Workflow) {
    && id in s.artifacts
    && Correlated(s.artifacts[id].common, producer, w)
    && s.artifacts[id].artifactType == artifactType && s.artifacts[id].hasContent
  }

  /** The references of the stored results, in the order of their identifiers. */
  function RefsOf(s: Stores, ids: seq<string>): seq<Option<Ref>> {
    if ids == [] then []
    else
      RefsOf(s, ids[..|ids| - 1])
      + if ids[|ids| - 1] in s.results then [s.results[ids[|ids| - 1]].evaluationRef] else []
  }

  function TypesOf(s: Stores, declared: seq<Option<Ref>>): seq<Option<string>> {
    seq(|declared|, i requires 0 <= i < |declared| =>
          if declared[i].Some? && declared[i].value in s.evaluations
          then Some(s.evaluations[declared[i].value]) else None)
  }

  predicate ProducerAccepted(p: Producer, w: Workflow) {
    && p.schemaValid && p.provenance.Some?
    && p.provenance.value.workflowId == w.id && p.provenance.value.revision == Some(w.revision)
    && p.taskRef in p.provenance.value.refs
  }

  /** The producer has exactly one stored artifact, of the contracted type; its results are stored,
      attached everywhere, all passed, and are a permutation of its declared Evaluations. */
  ghost predicate Accepted(s: Stores, p: Producer, contract: Contract, w: Workflow) {
    && ProducerAccepted(p, w)
    && p.artifactIds.Some? && |p.artifactIds.value| == 1 && ArtifactsOf(s, p.id) == ToSet(p.artifactIds.value)
    && ArtifactAccepted(s, p.artifactIds.value[0], contract.artifactType, p.id, w)
    && multiset(TypesOf(s, p.declared)) == multiset(SomeOf(ExpectedTypes(p, contract)))
    && p.evaluationIds.Some? && ResultsOf(s, p.id) == ToSet(p.evaluationIds.value)
    && s.artifacts[p.artifactIds.value[0]].evaluationIds.Some?
    && ToSet(s.artifacts[p.artifactIds.value[0]].evaluationIds.value) == ToSet(p.evaluationIds.value)
    && (forall id | id in p.evaluationIds.value :: ResultAccepted(s, id, p.id, p.artifactIds.value, w))
    && multiset(RefsOf(s, p.evaluationIds.value)) == multiset(p.declared)
  }

  // ---------------------------------------------------------------- permutations

  /** Each declared reference has exactly one result, and each result is declared. */
  ghost predicate OneEach(actual: seq<Option<Ref>>, declared: seq<Option<Ref>>) {
    && (forall d | d in declared :: multiset(actual)[d] == 1)
    && (forall a | a in actual :: a in declared)
  }

  lemma {:induction false} OccursAt<T>(items: seq<T>, x: T)
    ensures multiset(items)[x] > 1 ==> exists i, j :: 0 <= i < j < |items| && items[i] == x && items[j] == x
    decreases |items|
  {
    if items != [] {
      var n := |items| - 1;
      assert items == items[..n] + [items[n]];
      OccursAt(items[..n], x);
      if multiset(items)[x] > 1 && items[n] == x {
        assert x in multiset(items[..n]);
        var i :| 0 <= i < n && items[i] == x;
      }
    }
  }

  lemma NoTwoAlike<T>(items: seq<T>)
    requires NoDuplicates(items)
    ensures forall x :: multiset(items)[x] <= 1
  {
    forall x ensures multiset(items)[x] <= 1 { OccursAt(items, x); }
  }

  lemma {:induction false} CountsTwo<T>(items: seq<T>, i: nat, j: nat)
    requires i < j < |items| && items[i] == items[j]
    ensures multiset(items)[items[i]] >= 2
  {
    assert items == items[..j] + items[j..];
    assert items[i] in items[..j] && items[j] in items[j..];
  }

  /** Declared references whose Evaluations have pairwise different types differ. */
  lemma DistinctTypesMakeDistinctRefs(s: Stores, declared: seq<Option<Ref>>, types: seq<string>)
    requires multiset(TypesOf(s, declared)) == multiset(SomeOf(types))
    requires NoDuplicates(types)
    ensures NoDuplicates(declared)
  {
    NoTwoAlike(SomeOf(types));
    forall i, j | 0 <= i < j < |declared| ensures declared[i] != declared[j] {
      if declared[i] == declared[j] {
        CountsTwo(TypesOf(s, declared), i, j);
      }
    }
  }

  /** For pairwise different declared references, one result each is the same as a permutation. */
  lemma OneEachIsPermutation(actual: seq<Option<Ref>>, declared: seq<Option<Ref>>)
    requires NoDuplicates(declared)
    ensures OneEach(actual, declared) <==> multiset(actual) == multiset(declared)
  {
    NoTwoAlike(declared);
    if OneEach(actual, declared) {
      forall x ensures multiset(actual)[x] == multiset(declared)[x] {
        if x in declared {
          assert x in multiset(declared);
        } else {
          assert x !in multiset(declared) && x !in multiset(actual);
        }
      }
    }
    if multiset(actual) == multiset(declared) {
      forall d | d in declared ensures multiset(actual)[d] == 1 { assert d in multiset(declared); }
      forall a | a in actual ensures a in declared { assert a in multiset(actual); }
    }
  }

  lemma ContractTypesDiffer(p: Producer, contract: Contract)
    requires contract in MVP_EVIDENCE_CONTRACT
    ensures NoDuplicates(ExpectedTypes(p, contract))
  {
  }
}
