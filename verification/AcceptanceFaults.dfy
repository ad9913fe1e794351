/** What each issue and each published check of the acceptance evidence means, apart from how the
    handler finds it (src/aep/evaluate_acceptance.py:265-836). */
module AcceptanceFaults {
  import opened Resources
  import opened Wrappers
  import opened AcceptanceEvidence

  datatype Code =
    | InvalidTaskExecution | InconsistentProvenance | CrossExecution | StaleRevision
    | MissingArtifact | InconsistentArtifactAttachments | WrongArtifactType | MissingArtifactContent
    | MissingEvaluation | InconsistentEvaluationAttachments | InvalidEvaluationTarget
    | IncompleteEvaluation | InconsistentEvaluation | FailedEvaluation | UndeclaredEvaluation

  datatype Issue = Issue(code: Code, subject: string)

  /** A raised contract error: the evidence is malformed rather than insufficient. */
  datatype Error = MalformedList | MalformedReference | EvaluationMissing | WrongEvaluationTypes | InvalidResult

  datatype Summary = Summary(status: string, outcome: string)

  // ---------------------------------------------------------------- issues of one object

  /** Made by the producer under this trace; what its provenance says of both agrees, if it has one. */
  predicate SameExecution(c: Common, producer: string, w: Workflow) {
    && c.taskExecutionId == producer && c.traceId == w.traceId
    && (c.provenance.Some? ==> c.provenance.value.workflowId == w.id && c.provenance.value.taskExecutionId == producer)
  }

  /** The provenance has the revision of the workflow, and so has the object itself if it names one. */
  predicate SameRevision(c: Common, w: Workflow) {
    c.provenance.Some? ==>
      c.provenance.value.revision == Some(w.revision) && (c.revision.Some? ==> c.revision == Some(w.revision))
  }

  /** What is wrong with an attached object, whatever it is. */
  predicate CommonHas(code: Code, c: Common, producer: string, w: Workflow) {
    match code
    case CrossExecution => !SameExecution(c, producer, w)
    case StaleRevision => !SameRevision(c, w)
    case InconsistentProvenance => c.provenance.None?
    case _ => false
  }

  /** What is wrong with the producer itself. */
  predicate ProducerHas(code: Code, p: Producer, w: Workflow) {
    match code
    case InvalidTaskExecution => !p.schemaValid
    case CrossExecution => p.provenance.Some? && p.provenance.value.workflowId != w.id
    case StaleRevision => p.provenance.Some? && p.provenance.value.revision != Some(w.revision)
    case InconsistentProvenance => p.provenance.None? || p.taskRef !in p.provenance.value.refs
    case _ => false
  }

  /** The target is a valid invocation of the producer, of the kind the Evaluation judges. */
  predicate Judges(s: Stores, r: EvaluationResult, evaluationType: string, producer: string, w: Workflow) {
    && r.target.Some? && r.target.value.id.Some? && r.target.value.kind == TargetKind(evaluationType)
    && TargetKind(evaluationType) != Some("GeneratedArtifact")
    && r.target.value.id.value in s.invocations
    && var v := s.invocations[r.target.value.id.value];
       && Some(v.kind) == TargetKind(evaluationType) && v.schemaValid
       && v.common.taskExecutionId == producer && v.common.traceId == w.traceId
  }

  /** The target is one of the producer's artifacts, and the Evaluation judges artifacts. */
  predicate JudgesArtifact(r: EvaluationResult, evaluationType: string, artifactIds: seq<string>) {
    && r.target.Some? && r.target.value.id.Some? && r.target.value.kind == TargetKind(evaluationType)
    && TargetKind(evaluationType) == Some("GeneratedArtifact")
    && r.target.value.id.value in artifactIds
  }

  /** An invocation need not record its revision, but must not record another. */
  predicate OtherRevision(v: Invocation, w: Workflow) {
    v.common.provenance.Some? && v.common.provenance.value.revision !in {None, Some(w.revision)}
  }

  /** What is wrong with an invocation that an evaluation judged. */
  predicate TargetHas(code: Code, v: Invocation, producer: string, w: Workflow) {
    match code
    case CrossExecution => !SameExecution(v.common, producer, w)
    case StaleRevision => OtherRevision(v, w)
    case InconsistentProvenance => v.common.provenance.None?
    case _ => false
  }

  predicate TargetFault(issue: Issue, s: Stores, id: string, r: EvaluationResult, evaluationType: string,
                        producer: string, artifactIds: seq<string>, w: Workflow) {
    || (&& issue == Issue(InvalidEvaluationTarget, id)
        && !JudgesArtifact(r, evaluationType, artifactIds)
        && (Judges(s, r, evaluationType, producer, w) ==>
              r.outcome == "PASS" && s.invocations[r.target.value.id.value].status != "SUCCEEDED"))
    || (&& Judges(s, r, evaluationType, producer, w)
        && issue.subject == r.target.value.id.value
        && TargetHas(issue.code, s.invocations[r.target.value.id.value], producer, w))
  }

  predicate VerdictFault(issue: Issue, id: string, r: EvaluationResult) {
    var terminal := r.status in {"SUCCEEDED", "FAILED"} && r.outcome in {"PASS", "FAIL"};
    && issue.subject == id
    && match issue.code
       case IncompleteEvaluation => !terminal
       case FailedEvaluation => terminal && r.outcome == "FAIL"
       case InconsistentEvaluation => terminal && r.outcome == "PASS" && (r.status == "FAILED" || r.hasFailure)
       case _ => false
  }

  predicate ResultFault(issue: Issue, s: Stores, id: string, producer: string, artifactIds: seq<string>, w: Workflow) {
    if id !in s.results then issue == Issue(MissingEvaluation, id)
    else
      var r := s.results[id];
      || (issue.subject == id && CommonHas(issue.code, r.common, producer, w))
      || VerdictFault(issue, id, r)
      || (&& r.evaluationRef.Some? && r.evaluationRef.value in s.evaluations
          && TargetFault(issue, s, id, r, s.evaluations[r.evaluationRef.value], producer, artifactIds, w))
  }

  predicate ArtifactFault(issue: Issue, s: Stores, id: string, artifactType: string, producer: string, w: Workflow) {
    if id !in s.artifacts then issue == Issue(MissingArtifact, id)
    else
      || (issue.subject == id && CommonHas(issue.code, s.artifacts[id].common, producer, w))
      || (issue == Issue(WrongArtifactType, id) && s.artifacts[id].artifactType != artifactType)
      || (issue == Issue(MissingArtifactContent, id) && !s.artifacts[id].hasContent)
  }

  // ---------------------------------------------------------------- issues of a producer's evidence

  /** A stored artifact names other results than its producer. */
  predicate AttachmentFault(issue: Issue, s: Stores, ids: seq<string>, evaluationIds: seq<string>) {
    && issue.code == InconsistentEvaluationAttachments
    && issue.subject in ids && issue.subject in s.artifacts
    && s.artifacts[issue.subject].evaluationIds.Some?
    && ToSet(s.artifacts[issue.subject].evaluationIds.value) != ToSet(evaluationIds)
  }

  ghost predicate CountFault(issue: Issue, producer: string, actual: seq<Option<Ref>>, declared: seq<Option<Ref>>) {
    && issue.subject == producer
    && match issue.code
       case MissingEvaluation => exists d | d in declared :: d !in actual
       case InconsistentEvaluation => exists d | d in declared :: multiset(actual)[d] > 1
       case UndeclaredEvaluation => exists a | a in actual :: a !in declared
       case _ => false
  }

  ghost predicate EvidenceFault(issue: Issue, s: Stores, p: Producer, contract: Contract, w: Workflow) {
    && p.artifactIds.Some? && p.evaluationIds.Some?
    && var artifactIds, evaluationIds := p.artifactIds.value, p.evaluationIds.value;
       || (issue.subject == p.id && ProducerHas(issue.code, p, w))
       || (issue == Issue(MissingArtifact, p.id) && artifactIds == [])
       || (&& issue == Issue(InconsistentArtifactAttachments, p.id)
           && (|artifactIds| > 1 || ToSet(artifactIds) != ArtifactsOf(s, p.id)))
       || (exists id | id in artifactIds :: ArtifactFault(issue, s, id, contract.artifactType, p.id, w))
       || (issue == Issue(InconsistentEvaluationAttachments, p.id) && ToSet(evaluationIds) != ResultsOf(s, p.id))
       || AttachmentFault(issue, s, artifactIds, evaluationIds)
       || (exists id | id in evaluationIds :: ResultFault(issue, s, id, p.id, artifactIds, w))
       || CountFault(issue, p.id, RefsOf(s, evaluationIds), p.declared)
  }

  // ---------------------------------------------------------------- raised errors

  predicate ReadableResult(s: Stores, id: string) {
    id in s.results ==>
      && s.results[id].schemaValid && s.results[id].evaluationRef.Some?
      && s.results[id].evaluationRef.value in s.evaluations
  }

  predicate ListsItsResults(s: Stores, id: string) {
    id in s.artifacts ==> s.artifacts[id].evaluationIds.Some?
  }

  /** The evidence can be judged: nothing of it is malformed, and the declared Evaluations have the
      contracted types. */
  ghost predicate Readable(s: Stores, p: Producer, contract: Contract) {
    && p.artifactIds.Some? && p.evaluationIds.Some?
    && multiset(TypesOf(s, p.declared)) == multiset(SomeOf(ExpectedTypes(p, contract)))
    && (forall id | id in p.artifactIds.value :: ListsItsResults(s, id))
    && (forall id | id in p.evaluationIds.value :: ReadableResult(s, id))
  }

  /** What an error about a list of results means. */
  predicate ResultError(s: Stores, ids: seq<string>, error: Error) {
    exists id | id in ids && id in s.results ::
      var r := s.results[id];
      match error
      case InvalidResult => !r.schemaValid
      case MalformedReference => r.schemaValid && r.evaluationRef.None?
      case EvaluationMissing => r.schemaValid && r.evaluationRef.Some? && r.evaluationRef.value !in s.evaluations
      case _ => false
  }

  /** What a raised error means. */
  ghost predicate EvidenceError(s: Stores, p: Producer, contract: Contract, error: Error) {
    || (error == WrongEvaluationTypes
        && multiset(TypesOf(s, p.declared)) != multiset(SomeOf(ExpectedTypes(p, contract))))
    || (error == EvaluationMissing && None in TypesOf(s, p.declared))
    || (error == MalformedList
        && (p.artifactIds.Some? && p.evaluationIds.Some? ==>
              exists id | id in p.artifactIds.value :: !ListsItsResults(s, id)))
    || (p.evaluationIds.Some? && ResultError(s, p.evaluationIds.value, error))
  }

  /** Evidence cannot be judged exactly if one of the errors is due. */
  lemma RefusalsAreExact(s: Stores, p: Producer, contract: Contract)
    ensures p.artifactIds.None? ==> !Readable(s, p, contract) && EvidenceError(s, p, contract, MalformedList)
    ensures p.evaluationIds.None? ==> !Readable(s, p, contract) && EvidenceError(s, p, contract, MalformedList)
    ensures None in TypesOf(s, p.declared) ==>
              !Readable(s, p, contract) && EvidenceError(s, p, contract, EvaluationMissing)
    ensures
      var differs := multiset(TypesOf(s, p.declared)) != multiset(SomeOf(ExpectedTypes(p, contract)));
      && (differs ==> !Readable(s, p, contract) && EvidenceError(s, p, contract, WrongEvaluationTypes))
      && (p.artifactIds.Some? && p.evaluationIds.Some? ==>
            && ((exists id | id in p.artifactIds.value :: !ListsItsResults(s, id)) ==>
                  !Readable(s, p, contract) && EvidenceError(s, p, contract, MalformedList))
            && (&& !differs
                && (forall id | id in p.artifactIds.value :: ListsItsResults(s, id))
                && (forall id | id in p.evaluationIds.value :: ReadableResult(s, id))
                ==> Readable(s, p, contract)))
    ensures p.evaluationIds.Some? ==>
              forall error | ResultError(s, p.evaluationIds.value, error) ::
                !Readable(s, p, contract) && EvidenceError(s, p, contract, error)
  {
    hide ListsItsResults, ExpectedTypes;
    if None in TypesOf(s, p.declared) {
      assert None in multiset(TypesOf(s, p.declared));
      assert None !in SomeOf(ExpectedTypes(p, contract));
    }
  }

  // ---------------------------------------------------------------- published checks

  datatype Checks = Checks(complete: bool, sameExecution: bool, sameRevision: bool, provenanceConsistent: bool,
                           allEvaluationsPassed: bool)

  /** The codes that deny two of the checks. */
  const INCOMPLETE: set<Code> := {MissingArtifact, MissingArtifactContent, MissingEvaluation}
  const UNTRACEABLE: set<Code> := {InconsistentProvenance, InconsistentArtifactAttachments}

  predicate HasCode(issues: seq<Issue>, codes: set<Code>) {
    exists issue | issue in issues :: issue.code in codes
  }

  /** The attached evidence that is stored: what the producer's lists name. */
  predicate HasArtifact(s: Stores, p: Producer, id: string) {
    p.artifactIds.Some? && id in p.artifactIds.value && id in s.artifacts
  }

  predicate HasResult(s: Stores, p: Producer, id: string) {
    p.evaluationIds.Some? && id in p.evaluationIds.value && id in s.results
  }

  /** The invocation a stored result judged, if it is a valid one of the producer. */
  predicate HasTarget(s: Stores, p: Producer, id: string, w: Workflow) {
    && HasResult(s, p, id)
    && var r := s.results[id];
       && r.evaluationRef.Some? && r.evaluationRef.value in s.evaluations
       && Judges(s, r, s.evaluations[r.evaluationRef.value], p.id, w)
  }

  function TargetOf(s: Stores, p: Producer, id: string, w: Workflow): Invocation
    requires HasTarget(s, p, id, w)
  {
    s.invocations[s.results[id].target.value.id.value]
  }

  /** An artifact is attached, everything attached is stored, with its content, and every declared
      Evaluation has a result. */
  ghost predicate Complete(s: Stores, p: Producer) {
    && p.artifactIds.Some? && p.artifactIds.value != []
    && (forall id | id in p.artifactIds.value :: id in s.artifacts && s.artifacts[id].hasContent)
    && p.evaluationIds.Some? && (forall id | id in p.evaluationIds.value :: id in s.results)
    && forall d | d in p.declared :: exists id :: HasResult(s, p, id) && s.results[id].evaluationRef == d
  }

  ghost predicate OneExecution(s: Stores, p: Producer, w: Workflow) {
    && (p.provenance.Some? ==> p.provenance.value.workflowId == w.id)
    && (forall id | HasArtifact(s, p, id) :: SameExecution(s.artifacts[id].common, p.id, w))
    && (forall id | HasResult(s, p, id) :: SameExecution(s.results[id].common, p.id, w))
    && (forall id | HasTarget(s, p, id, w) :: SameExecution(TargetOf(s, p, id, w).common, p.id, w))
  }

  ghost predicate OneRevision(s: Stores, p: Producer, w: Workflow) {
    && (p.provenance.Some? ==> p.provenance.value.revision == Some(w.revision))
    && (forall id | HasArtifact(s, p, id) :: SameRevision(s.artifacts[id].common, w))
    && (forall id | HasResult(s, p, id) :: SameRevision(s.results[id].common, w))
    && (forall id | HasTarget(s, p, id, w) :: !OtherRevision(TargetOf(s, p, id, w), w))
  }

  /** Everything has a provenance, the producer's names its Task, and the producer's artifacts are
      the attached one; having none attached is an incompleteness. */
  ghost predicate Traceable(s: Stores, p: Producer, w: Workflow) {
    && p.provenance.Some? && p.taskRef in p.provenance.value.refs
    && p.artifactIds.Some? && |p.artifactIds.value| <= 1 && ToSet(p.artifactIds.value) == ArtifactsOf(s, p.id)
    && (forall id | HasArtifact(s, p, id) :: s.artifacts[id].common.provenance.Some?)
    && (forall id | HasResult(s, p, id) :: s.results[id].common.provenance.Some?)
    && (forall id | HasTarget(s, p, id, w) :: TargetOf(s, p, id, w).common.provenance.Some?)
  }

  ghost predicate AllPassed(s: Stores, p: Producer) {
    forall id | HasResult(s, p, id) :: s.results[id].status == "SUCCEEDED" && s.results[id].outcome == "PASS"
  }

  /** The statuses and outcomes of the stored results, in the order of their identifiers. */
  function SummariesOf(s: Stores, ids: seq<string>): seq<Summary> {
    if ids == [] then []
    else
      var last := ids[|ids| - 1];
      SummariesOf(s, ids[..|ids| - 1])
      + if last in s.results then [Summary(s.results[last].status, s.results[last].outcome)] else []
  }

  /** Some issue of the producer's evidence has one of the codes. */
  ghost predicate Faulty(codes: set<Code>, s: Stores, p: Producer, contract: Contract, w: Workflow) {
    exists issue: Issue :: issue.code in codes && EvidenceFault(issue, s, p, contract, w)
  }

  lemma {:induction false} RefsAreThoseOfResults(s: Stores, ids: seq<string>, ref: Option<Ref>)
    ensures ref in RefsOf(s, ids) <==> exists id :: id in ids && id in s.results && s.results[id].evaluationRef == ref
    decreases |ids|
  {
    if ids != [] {
      var n := |ids| - 1;
      RefsAreThoseOfResults(s, ids[..n], ref);
      assert ids == ids[..n] + [ids[n]];
      assert forall id :: id in ids <==> id in ids[..n] || id == ids[n];
    }
  }

  lemma {:induction false} SummariesAreThoseOfResults(s: Stores, ids: seq<string>, x: Summary)
    ensures x in SummariesOf(s, ids) <==>
              exists id :: id in ids && id in s.results && x == Summary(s.results[id].status, s.results[id].outcome)
    decreases |ids|
  {
    if ids != [] {
      var n := |ids| - 1;
      SummariesAreThoseOfResults(s, ids[..n], x);
      assert ids == ids[..n] + [ids[n]];
      assert forall id :: id in ids <==> id in ids[..n] || id == ids[n];
    }
  }

  /** Some issue says that evidence is missing exactly if it is not complete. */
  lemma CompleteExactly(s: Stores, p: Producer, contract: Contract, w: Workflow)
    requires p.artifactIds.Some? && p.evaluationIds.Some?
    ensures Faulty(INCOMPLETE, s, p, contract, w) <==> !Complete(s, p)
  {
    var codes := INCOMPLETE;
    var artifactIds, evaluationIds := p.artifactIds.value, p.evaluationIds.value;
    forall ref { RefsAreThoseOfResults(s, evaluationIds, ref); }
    if artifactIds == [] {
      assert EvidenceFault(Issue(MissingArtifact, p.id), s, p, contract, w);
    }
    forall id | id in artifactIds && id !in s.artifacts ensures Faulty(codes, s, p, contract, w) {
      assert ArtifactFault(Issue(MissingArtifact, id), s, id, contract.artifactType, p.id, w);
      assert EvidenceFault(Issue(MissingArtifact, id), s, p, contract, w);
    }
    forall id | id in artifactIds && id in s.artifacts && !s.artifacts[id].hasContent
      ensures Faulty(codes, s, p, contract, w)
    {
      assert ArtifactFault(Issue(MissingArtifactContent, id), s, id, contract.artifactType, p.id, w);
      assert EvidenceFault(Issue(MissingArtifactContent, id), s, p, contract, w);
    }
    forall id | id in evaluationIds && id !in s.results ensures Faulty(codes, s, p, contract, w) {
      assert ResultFault(Issue(MissingEvaluation, id), s, id, p.id, artifactIds, w);
      assert EvidenceFault(Issue(MissingEvaluation, id), s, p, contract, w);
    }
    forall d | d in p.declared && !exists id :: HasResult(s, p, id) && s.results[id].evaluationRef == d
      ensures Faulty(codes, s, p, contract, w)
    {
      assert forall id :: id in evaluationIds && id in s.results ==> HasResult(s, p, id);
      assert d !in RefsOf(s, evaluationIds);
      assert CountFault(Issue(MissingEvaluation, p.id), p.id, RefsOf(s, evaluationIds), p.declared);
      assert EvidenceFault(Issue(MissingEvaluation, p.id), s, p, contract, w);
    }
  }

  /** The producer, an object of its evidence or an invocation it judged has what the code says. */
  ghost predicate Somewhere(code: Code, s: Stores, p: Producer, w: Workflow) {
    || ProducerHas(code, p, w)
    || (exists id :: HasArtifact(s, p, id) && CommonHas(code, s.artifacts[id].common, p.id, w))
    || (exists id :: HasResult(s, p, id) && CommonHas(code, s.results[id].common, p.id, w))
    || (exists id :: HasTarget(s, p, id, w) && TargetHas(code, TargetOf(s, p, id, w), p.id, w))
  }

  /** Issues about the execution, the revision and the provenance are raised exactly where they are due. */
  lemma SomewhereExactly(code: Code, s: Stores, p: Producer, contract: Contract, w: Workflow)
    requires p.artifactIds.Some? && p.evaluationIds.Some?
    requires code in {CrossExecution, StaleRevision, InconsistentProvenance}
    ensures Faulty({code}, s, p, contract, w) <==> Somewhere(code, s, p, w)
  {
    hide CommonHas, ProducerHas, TargetHas, Judges;
    var artifactIds := p.artifactIds.value;
    forall issue: Issue | issue.code in {code} && EvidenceFault(issue, s, p, contract, w)
      ensures Somewhere(code, s, p, w)
    {
      FoundSomewhere(issue, s, p, contract, w);
    }
    if ProducerHas(code, p, w) { assert EvidenceFault(Issue(code, p.id), s, p, contract, w); }
    forall id | HasArtifact(s, p, id) && CommonHas(code, s.artifacts[id].common, p.id, w)
      ensures Faulty({code}, s, p, contract, w)
    {
      assert ArtifactFault(Issue(code, id), s, id, contract.artifactType, p.id, w);
      assert EvidenceFault(Issue(code, id), s, p, contract, w);
    }
    forall id | HasResult(s, p, id) && CommonHas(code, s.results[id].common, p.id, w)
      ensures Faulty({code}, s, p, contract, w)
    {
      assert ResultFault(Issue(code, id), s, id, p.id, artifactIds, w);
      assert EvidenceFault(Issue(code, id), s, p, contract, w);
    }
    forall id | HasTarget(s, p, id, w) && TargetHas(code, TargetOf(s, p, id, w), p.id, w)
      ensures Faulty({code}, s, p, contract, w)
    {
      JudgesHasTarget(s, p, id, w);
      var issue := Issue(code, s.results[id].target.value.id.value);
      assert ResultFault(issue, s, id, p.id, artifactIds, w);
      assert EvidenceFault(issue, s, p, contract, w);
    }
  }

  lemma JudgesHasTarget(s: Stores, p: Producer, id: string, w: Workflow)
    requires HasTarget(s, p, id, w)
    ensures s.results[id].target.Some? && s.results[id].target.value.id.Some?
    ensures s.results[id].target.value.id.value in s.invocations
  {
  }

  lemma FoundSomewhere(issue: Issue, s: Stores, p: Producer, contract: Contract, w: Workflow)
    requires EvidenceFault(issue, s, p, contract, w)
    requires issue.code in {CrossExecution, StaleRevision, InconsistentProvenance}
    ensures Somewhere(issue.code, s, p, w)
  {
    hide CommonHas, ProducerHas, TargetHas;
    if id :| id in p.artifactIds.value && ArtifactFault(issue, s, id, contract.artifactType, p.id, w) {
      assert HasArtifact(s, p, id);
    } else if id :| id in p.evaluationIds.value && ResultFault(issue, s, id, p.id, p.artifactIds.value, w) {
      assert HasResult(s, p, id);
      if !CommonHas(issue.code, s.results[id].common, p.id, w) {
        assert HasTarget(s, p, id, w);
        assert TargetHas(issue.code, TargetOf(s, p, id, w), p.id, w);
      }
    }
  }

  /** Some issue names another execution exactly if not all evidence is of this one. */
  lemma OneExecutionExactly(s: Stores, p: Producer, contract: Contract, w: Workflow)
    requires p.artifactIds.Some? && p.evaluationIds.Some?
    ensures Faulty({CrossExecution}, s, p, contract, w) <==> !OneExecution(s, p, w)
  {
    hide EvidenceFault, SameExecution, HasArtifact, HasResult, HasTarget, TargetOf;
    SomewhereExactly(CrossExecution, s, p, contract, w);
  }

  /** Some issue names another revision exactly if not all evidence is of this one. */
  lemma OneRevisionExactly(s: Stores, p: Producer, contract: Contract, w: Workflow)
    requires p.artifactIds.Some? && p.evaluationIds.Some?
    ensures Faulty({StaleRevision}, s, p, contract, w) <==> !OneRevision(s, p, w)
  {
    hide EvidenceFault, SameRevision, OtherRevision, HasArtifact, HasResult, HasTarget, TargetOf;
    SomewhereExactly(StaleRevision, s, p, contract, w);
  }

  /** Some issue says that provenance is inconsistent exactly if the evidence is not traceable. */
  lemma TraceableExactly(s: Stores, p: Producer, contract: Contract, w: Workflow)
    requires p.artifactIds.Some? && p.evaluationIds.Some?
    ensures Faulty(UNTRACEABLE, s, p, contract, w) <==>
            !Traceable(s, p, w)
  {
    SomewhereExactly(InconsistentProvenance, s, p, contract, w);
    var artifactIds := p.artifactIds.value;
    var attachments := |artifactIds| > 1 || ToSet(artifactIds) != ArtifactsOf(s, p.id);
    assert Faulty(UNTRACEABLE, s, p, contract, w) <==>
           Faulty({InconsistentProvenance}, s, p, contract, w) || attachments by
    {
      forall issue: Issue | issue.code == InconsistentArtifactAttachments && EvidenceFault(issue, s, p, contract, w)
        ensures attachments
      {
      }
      if attachments { assert EvidenceFault(Issue(InconsistentArtifactAttachments, p.id), s, p, contract, w); }
      hide EvidenceFault;
    }
    hide EvidenceFault, HasArtifact, HasResult, HasTarget, TargetOf;
  }

  // ---------------------------------------------------------------- no issue

  lemma CommonIsClean(c: Common, producer: string, w: Workflow)
    ensures (forall code :: !CommonHas(code, c, producer, w)) <==> Correlated(c, producer, w)
  {
    assert CommonHas(CrossExecution, c, producer, w) <==> !SameExecution(c, producer, w);
    assert CommonHas(StaleRevision, c, producer, w) <==> !SameRevision(c, w);
    assert CommonHas(InconsistentProvenance, c, producer, w) <==> c.provenance.None?;
  }

  lemma ProducerIsClean(p: Producer, w: Workflow)
    ensures (forall code :: !ProducerHas(code, p, w)) <==> ProducerAccepted(p, w)
  {
    assert ProducerHas(InvalidTaskExecution, p, w) <==> !p.schemaValid;
    assert p.provenance.Some? && p.provenance.value.workflowId != w.id ==> ProducerHas(CrossExecution, p, w);
    assert p.provenance.Some? && p.provenance.value.revision != Some(w.revision) ==> ProducerHas(StaleRevision, p, w);
    assert ProducerHas(InconsistentProvenance, p, w) <==> p.provenance.None? || p.taskRef !in p.provenance.value.refs;
  }

  lemma TargetIsClean(s: Stores, id: string, r: EvaluationResult, evaluationType: string, producer: string,
                      artifactIds: seq<string>, w: Workflow)
    ensures (forall issue :: !TargetFault(issue, s, id, r, evaluationType, producer, artifactIds, w)) <==>
            TargetAccepted(s, r, evaluationType, producer, artifactIds, w)
  {
    var invalid := Issue(InvalidEvaluationTarget, id);
    if Judges(s, r, evaluationType, producer, w) {
      var target := r.target.value.id.value;
      var v := s.invocations[target];
      assert TargetHas(CrossExecution, v, producer, w) <==>
             TargetFault(Issue(CrossExecution, target), s, id, r, evaluationType, producer, artifactIds, w);
      assert TargetHas(StaleRevision, v, producer, w) <==>
             TargetFault(Issue(StaleRevision, target), s, id, r, evaluationType, producer, artifactIds, w);
      assert TargetHas(InconsistentProvenance, v, producer, w) <==>
             TargetFault(Issue(InconsistentProvenance, target), s, id, r, evaluationType, producer, artifactIds, w);
    }
    assert !TargetAccepted(s, r, evaluationType, producer, artifactIds, w)
           && !Judges(s, r, evaluationType, producer, w) ==>
             TargetFault(invalid, s, id, r, evaluationType, producer, artifactIds, w);
    assert !TargetFault(invalid, s, id, r, evaluationType, producer, artifactIds, w) ==>
             JudgesArtifact(r, evaluationType, artifactIds) || Judges(s, r, evaluationType, producer, w);
  }

  lemma VerdictIsClean(id: string, r: EvaluationResult)
    ensures (forall issue :: !VerdictFault(issue, id, r)) <==> Passed(r)
  {
    assert Passed(r)
           || VerdictFault(Issue(IncompleteEvaluation, id), id, r) || VerdictFault(Issue(FailedEvaluation, id), id, r)
           || VerdictFault(Issue(InconsistentEvaluation, id), id, r);
  }

  lemma ResultIsClean(s: Stores, id: string, producer: string, artifactIds: seq<string>, w: Workflow)
    requires ReadableResult(s, id)
    ensures (forall issue :: !ResultFault(issue, s, id, producer, artifactIds, w)) <==>
            ResultAccepted(s, id, producer, artifactIds, w)
  {
    hide CommonHas, TargetFault, VerdictFault, Correlated, TargetAccepted, Passed;
    if id !in s.results {
      assert ResultFault(Issue(MissingEvaluation, id), s, id, producer, artifactIds, w);
    } else {
      var r := s.results[id];
      var evaluationType := s.evaluations[r.evaluationRef.value];
      CommonIsClean(r.common, producer, w);
      TargetIsClean(s, id, r, evaluationType, producer, artifactIds, w);
      VerdictIsClean(id, r);
      assert forall code :: CommonHas(code, r.common, producer, w) ==>
          ResultFault(Issue(code, id), s, id, producer, artifactIds, w);
      assert forall issue :: TargetFault(issue, s, id, r, evaluationType, producer, artifactIds, w) ==>
          ResultFault(issue, s, id, producer, artifactIds, w);
      assert forall issue :: VerdictFault(issue, id, r) ==> ResultFault(issue, s, id, producer, artifactIds, w);
    }
  }

  lemma ArtifactIsClean(s: Stores, id: string, artifactType: string, producer: string, w: Workflow)
    ensures (forall issue :: !ArtifactFault(issue, s, id, artifactType, producer, w)) <==>
            ArtifactAccepted(s, id, artifactType, producer, w)
  {
    hide CommonHas, Correlated;
    if id !in s.artifacts {
      assert ArtifactFault(Issue(MissingArtifact, id), s, id, artifactType, producer, w);
    } else {
      CommonIsClean(s.artifacts[id].common, producer, w);
      assert forall code :: CommonHas(code, s.artifacts[id].common, producer, w) ==>
          ArtifactFault(Issue(code, id), s, id, artifactType, producer, w);
      assert s.artifacts[id].artifactType == artifactType
             || ArtifactFault(Issue(WrongArtifactType, id), s, id, artifactType, producer, w);
      assert s.artifacts[id].hasContent
             || ArtifactFault(Issue(MissingArtifactContent, id), s, id, artifactType, producer, w);
    }
  }

  lemma CountsAreClean(producer: string, actual: seq<Option<Ref>>, declared: seq<Option<Ref>>)
    ensures (forall issue :: !CountFault(issue, producer, actual, declared)) <==> OneEach(actual, declared)
  {
    forall d | d in declared && multiset(actual)[d] != 1
      ensures exists issue :: CountFault(issue, producer, actual, declared)
    {
      if d !in actual {
        assert CountFault(Issue(MissingEvaluation, producer), producer, actual, declared);
      } else {
        assert multiset(actual)[d] > 1;
        assert CountFault(Issue(InconsistentEvaluation, producer), producer, actual, declared);
      }
    }
    forall a | a in actual && a !in declared ensures exists issue :: CountFault(issue, producer, actual, declared) {
      assert CountFault(Issue(UndeclaredEvaluation, producer), producer, actual, declared);
    }
  }

  /** One result for each declared Evaluation is the same as a permutation, as their types differ. */
  lemma CountsAreAccepted(s: Stores, p: Producer, contract: Contract, actual: seq<Option<Ref>>)
    requires contract in MVP_EVIDENCE_CONTRACT
    requires multiset(TypesOf(s, p.declared)) == multiset(SomeOf(ExpectedTypes(p, contract)))
    ensures (forall issue :: !CountFault(issue, p.id, actual, p.declared)) <==>
            multiset(actual) == multiset(p.declared)
  {
    hide CountFault, OneEach, TypesOf, ExpectedTypes;
    CountsAreClean(p.id, actual, p.declared);
    ContractTypesDiffer(p, contract);
    DistinctTypesMakeDistinctRefs(s, p.declared, ExpectedTypes(p, contract));
    OneEachIsPermutation(actual, p.declared);
  }

  lemma NoFaultIsAccepted(s: Stores, p: Producer, contract: Contract, w: Workflow)
    requires contract in MVP_EVIDENCE_CONTRACT && Readable(s, p, contract)
    requires forall issue :: !EvidenceFault(issue, s, p, contract, w)
    ensures Accepted(s, p, contract, w)
  {
    hide ProducerHas, ProducerAccepted, ArtifactFault, ArtifactAccepted, ResultFault, ResultAccepted, CountFault,
         TypesOf, ExpectedTypes, RefsOf, ToSet, ArtifactsOf, ResultsOf, ReadableResult;
    var artifactIds, evaluationIds := p.artifactIds.value, p.evaluationIds.value;
    assert forall code :: ProducerHas(code, p, w) ==> EvidenceFault(Issue(code, p.id), s, p, contract, w);
    ProducerIsClean(p, w);
    assert !EvidenceFault(Issue(MissingArtifact, p.id), s, p, contract, w);
    assert !EvidenceFault(Issue(InconsistentArtifactAttachments, p.id), s, p, contract, w);
    assert !EvidenceFault(Issue(InconsistentEvaluationAttachments, p.id), s, p, contract, w);
    var only := artifactIds[0];
    ArtifactIsClean(s, only, contract.artifactType, p.id, w);
    assert forall issue :: ArtifactFault(issue, s, only, contract.artifactType, p.id, w) ==>
        EvidenceFault(issue, s, p, contract, w);
    assert only in s.artifacts by { AcceptedIsStored(s, only, contract.artifactType, p.id, w); }
    assert ListsItsResults(s, only);
    assert !EvidenceFault(Issue(InconsistentEvaluationAttachments, only), s, p, contract, w);
    forall id | id in evaluationIds ensures ResultAccepted(s, id, p.id, artifactIds, w) {
      ResultIsClean(s, id, p.id, artifactIds, w);
      assert forall issue :: ResultFault(issue, s, id, p.id, artifactIds, w) ==>
          EvidenceFault(issue, s, p, contract, w);
    }
    CountsAreAccepted(s, p, contract, RefsOf(s, evaluationIds));
    assert forall issue :: CountFault(issue, p.id, RefsOf(s, evaluationIds), p.declared) ==>
        EvidenceFault(issue, s, p, contract, w);
  }

  lemma AcceptedIsStored(s: Stores, id: string, artifactType: string, producer: string, w: Workflow)
    requires ArtifactAccepted(s, id, artifactType, producer, w)
    ensures id in s.artifacts
  {
  }

  lemma AcceptedIsReadable(s: Stores, id: string, producer: string, artifactIds: seq<string>, w: Workflow)
    requires ResultAccepted(s, id, producer, artifactIds, w)
    ensures ReadableResult(s, id)
  {
  }

  lemma AcceptedHasNoFault(s: Stores, p: Producer, contract: Contract, w: Workflow)
    requires contract in MVP_EVIDENCE_CONTRACT && Accepted(s, p, contract, w)
    ensures Readable(s, p, contract) && forall issue :: !EvidenceFault(issue, s, p, contract, w)
  {
    hide ProducerHas, ProducerAccepted, ArtifactFault, ArtifactAccepted, ResultFault, ResultAccepted, CountFault,
         TypesOf, ExpectedTypes, RefsOf, ToSet, ArtifactsOf, ResultsOf, ReadableResult;
    var artifactIds, evaluationIds := p.artifactIds.value, p.evaluationIds.value;
    var only := artifactIds[0];
    assert forall id :: id in artifactIds <==> id == only;
    ProducerIsClean(p, w);
    ArtifactIsClean(s, only, contract.artifactType, p.id, w);
    AcceptedIsStored(s, only, contract.artifactType, p.id, w);
    forall id | id in evaluationIds
      ensures ReadableResult(s, id) && forall issue :: !ResultFault(issue, s, id, p.id, artifactIds, w)
    {
      AcceptedIsReadable(s, id, p.id, artifactIds, w);
      ResultIsClean(s, id, p.id, artifactIds, w);
    }
    CountsAreAccepted(s, p, contract, RefsOf(s, evaluationIds));
  }

  /** Evidence that can be judged is accepted exactly if no issue is due. */
  lemma AcceptedExactly(s: Stores, p: Producer, contract: Contract, w: Workflow)
    requires contract in MVP_EVIDENCE_CONTRACT
    ensures Accepted(s, p, contract, w) <==>
            Readable(s, p, contract) && forall issue :: !EvidenceFault(issue, s, p, contract, w)
  {
    hide Accepted, Readable, EvidenceFault;
    if Readable(s, p, contract) && forall issue :: !EvidenceFault(issue, s, p, contract, w) {
      NoFaultIsAccepted(s, p, contract, w);
    }
    if Accepted(s, p, contract, w) { AcceptedHasNoFault(s, p, contract, w); }
  }

  /** The issues of the parts of the evidence are those of the evidence. */
  lemma FaultsAreCollected(s: Stores, p: Producer, contract: Contract, w: Workflow, own: seq<Issue>, listed: seq<Issue>,
                           artifacts: seq<Issue>, unlisted: seq<Issue>, attachments: seq<Issue>, results: seq<Issue>,
                           counts: seq<Issue>, all: seq<Issue>)
    requires p.artifactIds.Some? && p.evaluationIds.Some?
    requires forall issue :: issue in own <==> issue.subject == p.id && ProducerHas(issue.code, p, w)
    requires forall issue :: issue in listed <==>
               || (issue == Issue(MissingArtifact, p.id) && p.artifactIds.value == [])
               || (&& issue == Issue(InconsistentArtifactAttachments, p.id)
                   && (|p.artifactIds.value| > 1 || ToSet(p.artifactIds.value) != ArtifactsOf(s, p.id)))
    requires forall issue :: issue in artifacts <==>
               exists id | id in p.artifactIds.value :: ArtifactFault(issue, s, id, contract.artifactType, p.id, w)
    requires forall issue :: issue in unlisted <==>
               && issue == Issue(InconsistentEvaluationAttachments, p.id)
               && ToSet(p.evaluationIds.value) != ResultsOf(s, p.id)
    requires forall issue :: issue in attachments <==>
               AttachmentFault(issue, s, p.artifactIds.value, p.evaluationIds.value)
    requires forall issue :: issue in results <==>
               exists id | id in p.evaluationIds.value :: ResultFault(issue, s, id, p.id, p.artifactIds.value, w)
    requires forall issue :: issue in counts <==>
               CountFault(issue, p.id, RefsOf(s, p.evaluationIds.value), p.declared)
    requires all == own + listed + artifacts + unlisted + attachments + results + counts
    ensures forall issue :: issue in all <==> EvidenceFault(issue, s, p, contract, w)
    ensures all == [] <==> forall issue :: !EvidenceFault(issue, s, p, contract, w)
  {
    hide ProducerHas, ArtifactFault, AttachmentFault, ResultFault, CountFault, RefsOf, ToSet, ArtifactsOf, ResultsOf;
    forall issue ensures issue in all <==> EvidenceFault(issue, s, p, contract, w) {
      assert issue in all <==> issue in own || issue in listed || issue in artifacts || issue in unlisted
                               || issue in attachments || issue in results || issue in counts;
    }
    if all != [] { assert all[0] in all; }
  }
}
