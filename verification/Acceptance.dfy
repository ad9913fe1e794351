/** Aggregating the evidence of the predecessors into one acceptance outcome
    (src/aep/evaluate_acceptance.py:68-150, 212-836). */
module Acceptance {
  import opened Resources
  import opened Wrappers
  import opened AcceptanceEvidence
  import opened AcceptanceFaults
  import Predecessors

  method CheckCommon(id: string, c: Common, producer: string, w: Workflow) returns (issues: seq<Issue>)
    ensures issues == [] <==> Correlated(c, producer, w)
    ensures forall issue :: issue in issues <==> issue.subject == id && CommonHas(issue.code, c, producer, w)
  {
    issues := [];
    if c.taskExecutionId != producer || c.traceId != w.traceId { issues := issues + [Issue(CrossExecution, id)]; }
    if c.provenance.None? { return issues + [Issue(InconsistentProvenance, id)]; }
    var provenance := c.provenance.value;
    if provenance.workflowId != w.id || provenance.taskExecutionId != producer {
      issues := issues + [Issue(CrossExecution, id)];
    }
    var revision := if c.revision.Some? then c.revision else provenance.revision;
    if revision != Some(w.revision) || provenance.revision != Some(w.revision) {
      issues := issues + [Issue(StaleRevision, id)];
    }
  }

  method CheckProducer(p: Producer, w: Workflow) returns (issues: seq<Issue>)
    ensures issues == [] <==> ProducerAccepted(p, w)
    ensures forall issue :: issue in issues <==> issue.subject == p.id && ProducerHas(issue.code, p, w)
  {
    issues := [];
    if !p.schemaValid { issues := issues + [Issue(InvalidTaskExecution, p.id)]; }
    if p.provenance.None? { return issues + [Issue(InconsistentProvenance, p.id)]; }
    var provenance := p.provenance.value;
    if provenance.workflowId != w.id { issues := issues + [Issue(CrossExecution, p.id)]; }
    if provenance.revision != Some(w.revision) { issues := issues + [Issue(StaleRevision, p.id)]; }
    if p.taskRef !in provenance.refs { issues := issues + [Issue(InconsistentProvenance, p.id)]; }
  }

  method CheckTarget(s: Stores, id: string, r: EvaluationResult, evaluationType: string, producer: string,
                     artifactIds: seq<string>, w: Workflow)
    returns (issues: seq<Issue>)
    ensures issues == [] <==> TargetAccepted(s, r, evaluationType, producer, artifactIds, w)
    ensures forall issue :: issue in issues <==>
              TargetFault(issue, s, id, r, evaluationType, producer, artifactIds, w)
  {
    issues := [];
    if r.target.None? { return [Issue(InvalidEvaluationTarget, id)]; }
    var expected, target := TargetKind(evaluationType), r.target.value;
    if target.kind != expected || target.id.None? { return [Issue(InvalidEvaluationTarget, id)]; }
    if expected == Some("GeneratedArtifact") {
      if target.id.value !in artifactIds { issues := [Issue(InvalidEvaluationTarget, id)]; }
      return;
    }
    if target.id.value !in s.invocations { return [Issue(InvalidEvaluationTarget, id)]; }
    var v := s.invocations[target.id.value];
    if !(Some(v.kind) == expected && v.common.taskExecutionId == producer && v.common.traceId == w.traceId) {
      return [Issue(InvalidEvaluationTarget, id)];
    }
    if !v.schemaValid { return [Issue(InvalidEvaluationTarget, id)]; }
    issues := CheckTargetEvidence(target.id.value, v, producer, w);
    if r.outcome == "PASS" && v.status != "SUCCEEDED" { issues := issues + [Issue(InvalidEvaluationTarget, id)]; }
  }

  method CheckTargetEvidence(id: string, v: Invocation, producer: string, w: Workflow) returns (issues: seq<Issue>)
    requires v.schemaValid
    ensures issues == [] <==> TargetCorrelated(v, producer, w)
    ensures forall issue :: issue in issues <==> issue.subject == id && TargetHas(issue.code, v, producer, w)
  {
    issues := [];
    if v.common.taskExecutionId != producer || v.common.traceId != w.traceId {
      issues := issues + [Issue(CrossExecution, id)];
    }
    if v.common.provenance.None? { return issues + [Issue(InconsistentProvenance, id)]; }
    var provenance := v.common.provenance.value;
    if provenance.workflowId != w.id || provenance.taskExecutionId != producer {
      issues := issues + [Issue(CrossExecution, id)];
    }
    if provenance.revision.Some? && provenance.revision.value != w.revision {
      issues := issues + [Issue(StaleRevision, id)];
    }
  }

  method CheckVerdict(id: string, r: EvaluationResult) returns (issues: seq<Issue>)
    ensures issues == [] <==> Passed(r)
    ensures forall issue :: issue in issues <==> VerdictFault(issue, id, r)
  {
    issues := [];
    if r.status !in {"SUCCEEDED", "FAILED"} || r.outcome !in {"PASS", "FAIL"} {
      issues := [Issue(IncompleteEvaluation, id)];
    } else if r.status == "FAILED" && r.outcome != "FAIL" {
      issues := [Issue(InconsistentEvaluation, id)];
    } else if r.status != "SUCCEEDED" || r.outcome != "PASS" {
      issues := [Issue(FailedEvaluation, id)];
    } else if r.hasFailure {
      issues := [Issue(InconsistentEvaluation, id)];
    }
  }

  /** The loop over the attached EvaluationResults. */
  method CheckResults(s: Stores, ids: seq<string>, producer: string, artifactIds: seq<string>, w: Workflow)
    returns (result: Result<seq<Issue>, Error>, refs: seq<Option<Ref>>, summaries: seq<Summary>)
    ensures result.Ok? && result.value == [] <==>
              forall id | id in ids :: ResultAccepted(s, id, producer, artifactIds, w)
    ensures result.Ok? ==>
              forall issue :: issue in result.value <==>
                exists id | id in ids :: ResultFault(issue, s, id, producer, artifactIds, w)
    ensures result.Ok? <==> forall id | id in ids :: ReadableResult(s, id)
    ensures result.Err? ==> ResultError(s, ids, result.error)
    ensures result.Ok? ==> refs == RefsOf(s, ids) && summaries == SummariesOf(s, ids)
    ensures result.Ok? && result.value == [] ==> summaries == seq(|ids|, _ => Summary("SUCCEEDED", "PASS"))
  {
    hide Correlated, TargetAccepted, Passed, CommonHas, TargetFault, VerdictFault;
    var issues: seq<Issue> := [];
    refs, summaries := [], [];
    for i := 0 to |ids|
      invariant issues == [] <==> forall id | id in ids[..i] :: ResultAccepted(s, id, producer, artifactIds, w)
      invariant forall issue :: issue in issues <==>
                  exists id | id in ids[..i] :: ResultFault(issue, s, id, producer, artifactIds, w)
      invariant forall id | id in ids[..i] :: ReadableResult(s, id)
      invariant refs == RefsOf(s, ids[..i]) && summaries == SummariesOf(s, ids[..i])
      invariant issues == [] ==> summaries == seq(i, _ => Summary("SUCCEEDED", "PASS"))
    {
      var id := ids[i];
      assert ids[..i + 1] == ids[..i] + [id] && id in ids[..i + 1] && id in ids;
      if id !in s.results {
        issues := issues + [Issue(MissingEvaluation, id)];
        continue;
      }
      var r := s.results[id];
      refs := refs + [r.evaluationRef];
      summaries := summaries + [Summary(r.status, r.outcome)];
      if !r.schemaValid { return Err(InvalidResult), refs, summaries; }
      var common := CheckCommon(id, r.common, producer, w);
      if r.evaluationRef.None? { return Err(MalformedReference), refs, summaries; }
      if r.evaluationRef.value !in s.evaluations { return Err(EvaluationMissing), refs, summaries; }
      var target := CheckTarget(s, id, r, s.evaluations[r.evaluationRef.value], producer, artifactIds, w);
      var verdict := CheckVerdict(id, r);
      assert verdict == [] ==> Summary(r.status, r.outcome) == Summary("SUCCEEDED", "PASS") by { PassedMeans(r); }
      issues := issues + common + target + verdict;
    }
    assert ids[..|ids|] == ids;
    result := Ok(issues);
  }

  lemma PassedMeans(r: EvaluationResult)
    ensures Passed(r) ==> r.status == "SUCCEEDED" && r.outcome == "PASS"
  {
  }

  /** The loop over the attached artifacts. */
  method CheckArtifacts(s: Stores, ids: seq<string>, artifactType: string, producer: string, w: Workflow)
    returns (issues: seq<Issue>)
    ensures issues == [] <==> forall id | id in ids :: ArtifactAccepted(s, id, artifactType, producer, w)
    ensures forall issue :: issue in issues <==>
              exists id | id in ids :: ArtifactFault(issue, s, id, artifactType, producer, w)
  {
    hide Correlated, CommonHas;
    issues := [];
    for i := 0 to |ids|
      invariant issues == [] <==> forall id | id in ids[..i] :: ArtifactAccepted(s, id, artifactType, producer, w)
      invariant forall issue :: issue in issues <==>
                  exists id | id in ids[..i] :: ArtifactFault(issue, s, id, artifactType, producer, w)
    {
      var id := ids[i];
      assert ids[..i + 1] == ids[..i] + [id] && id in ids[..i + 1];
      if id !in s.artifacts {
        issues := issues + [Issue(MissingArtifact, id)];
        continue;
      }
      var artifact := s.artifacts[id];
      var common := CheckCommon(id, artifact.common, producer, w);
      issues := issues + common;
      if artifact.artifactType != artifactType { issues := issues + [Issue(WrongArtifactType, id)]; }
      if !artifact.hasContent { issues := issues + [Issue(MissingArtifactContent, id)]; }
    }
    assert ids[..|ids|] == ids;
  }

  /** The artifacts attached to the producer reference all its evaluations. */
  method CheckArtifactEvaluations(s: Stores, ids: seq<string>, evaluationIds: seq<string>)
    returns (result: Result<seq<Issue>, Error>)
    ensures result.Ok? && result.value == [] <==>
              forall id | id in ids && id in s.artifacts ::
                && s.artifacts[id].evaluationIds.Some?
                && ToSet(s.artifacts[id].evaluationIds.value) == ToSet(evaluationIds)
    ensures result.Ok? ==> forall issue :: issue in result.value <==> AttachmentFault(issue, s, ids, evaluationIds)
    ensures result.Ok? <==> forall id | id in ids :: ListsItsResults(s, id)
    ensures result.Err? ==> result.error == MalformedList
  {
    var issues: seq<Issue> := [];
    for i := 0 to |ids|
      invariant issues == [] <==>
                  forall id | id in ids[..i] && id in s.artifacts ::
                    && s.artifacts[id].evaluationIds.Some?
                    && ToSet(s.artifacts[id].evaluationIds.value) == ToSet(evaluationIds)
      invariant forall issue :: issue in issues <==> AttachmentFault(issue, s, ids[..i], evaluationIds)
      invariant forall id | id in ids[..i] :: ListsItsResults(s, id)
    {
      assert ids[..i + 1] == ids[..i] + [ids[i]] && ids[i] in ids;
      if ids[i] in s.artifacts {
        var attached := s.artifacts[ids[i]].evaluationIds;
        if attached.None? { return Err(MalformedList); }
        if ToSet(attached.value) != ToSet(evaluationIds) {
          issues := issues + [Issue(InconsistentEvaluationAttachments, ids[i])];
        }
      }
    }
    assert ids[..|ids|] == ids;
    result := Ok(issues);
  }

  /** One result for each declared Evaluation, and none beyond. */
  method CheckCounts(producer: string, actual: seq<Option<Ref>>, declared: seq<Option<Ref>>)
    returns (issues: seq<Issue>)
    ensures issues == [] <==> OneEach(actual, declared)
    ensures forall issue :: issue in issues <==> CountFault(issue, producer, actual, declared)
  {
    issues := [];
    for i := 0 to |declared|
      invariant issues == [] <==> forall d | d in declared[..i] :: multiset(actual)[d] == 1
      invariant forall issue :: issue in issues <==>
                  issue.code != UndeclaredEvaluation && CountFault(issue, producer, actual, declared[..i])
    {
      assert declared[..i + 1] == declared[..i] + [declared[i]];
      var count := multiset(actual)[declared[i]];
      assert count == 0 <==> declared[i] !in actual;
      assert forall d :: d in declared[..i + 1] <==> d in declared[..i] || d == declared[i];
      if count == 0 {
        issues := issues + [Issue(MissingEvaluation, producer)];
      } else if count > 1 {
        issues := issues + [Issue(InconsistentEvaluation, producer)];
      }
    }
    assert declared[..|declared|] == declared;
    for i := 0 to |actual|
      invariant issues == [] <==>
                  && (forall d | d in declared :: multiset(actual)[d] == 1)
                  && (forall a | a in actual[..i] :: a in declared)
      invariant forall issue :: issue in issues <==>
                  if issue.code == UndeclaredEvaluation
                  then issue.subject == producer && exists a | a in actual[..i] :: a !in declared
                  else CountFault(issue, producer, actual, declared)
    {
      assert actual[..i + 1] == actual[..i] + [actual[i]];
      if actual[i] !in declared { issues := issues + [Issue(UndeclaredEvaluation, producer)]; }
    }
    assert actual[..|actual|] == actual;
  }

  /** One round of the loop of `_aggregate`: it finds nothing exactly if the producer's evidence
      is acceptable as a whole. */
  method CheckEvidence(s: Stores, p: Producer, contract: Contract, w: Workflow)
    returns (result: Result<seq<Issue>, Error>, summaries: seq<Summary>)
    requires contract in MVP_EVIDENCE_CONTRACT
    ensures result.Ok? && result.value == [] <==> Accepted(s, p, contract, w)
    ensures result.Ok? ==> forall issue :: issue in result.value <==> EvidenceFault(issue, s, p, contract, w)
    ensures result.Ok? <==> Readable(s, p, contract)
    ensures result.Err? ==> EvidenceError(s, p, contract, result.error)
    ensures result.Ok? ==> summaries == SummariesOf(s, p.evaluationIds.value)
    ensures result.Ok? && result.value == [] ==>
              summaries == seq(|p.evaluationIds.value|, _ => Summary("SUCCEEDED", "PASS")) && |summaries| > 0
  {
    hide ProducerAccepted, ArtifactAccepted, ResultAccepted, OneEach, ExpectedTypes, ProducerHas, ArtifactFault,
         ResultFault, AttachmentFault, CountFault, ResultError, EvidenceFault, Accepted, ToSet, ArtifactsOf, ResultsOf,
         RefsOf, TypesOf, SummariesOf, ListsItsResults, ReadableResult, Readable, EvidenceError;
    RefusalsAreExact(s, p, contract);
    AcceptedExactly(s, p, contract, w);
    summaries := [];
    var own := CheckProducer(p, w);
    if p.artifactIds.None? { return Err(MalformedList), summaries; }
    var artifactIds := p.artifactIds.value;
    var listed: seq<Issue> := [];
    if artifactIds == [] {
      listed := [Issue(MissingArtifact, p.id)];
    } else if |artifactIds| != 1 {
      listed := [Issue(InconsistentArtifactAttachments, p.id)];
    }
    if ToSet(artifactIds) != ArtifactsOf(s, p.id) { listed := listed + [Issue(InconsistentArtifactAttachments, p.id)]; }
    var artifacts := CheckArtifacts(s, artifactIds, contract.artifactType, p.id, w);
    var types := TypesOf(s, p.declared);
    if None in types { return Err(EvaluationMissing), summaries; }
    if multiset(types) != multiset(SomeOf(ExpectedTypes(p, contract))) { return Err(WrongEvaluationTypes), summaries; }
    if p.evaluationIds.None? { return Err(MalformedList), summaries; }
    var evaluationIds := p.evaluationIds.value;
    var unlisted: seq<Issue> := [];
    if ToSet(evaluationIds) != ResultsOf(s, p.id) { unlisted := [Issue(InconsistentEvaluationAttachments, p.id)]; }
    var attachments := CheckArtifactEvaluations(s, artifactIds, evaluationIds);
    if attachments.Err? { return Err(attachments.error), summaries; }
    var results, refs, judged := CheckResults(s, evaluationIds, p.id, artifactIds, w);
    summaries := judged;
    if results.Err? { return Err(results.error), summaries; }
    var counts := CheckCounts(p.id, refs, p.declared);
    result := Ok(own + listed + artifacts + unlisted + attachments.value + results.value + counts);
    FaultsAreCollected(s, p, contract, w, own, listed, artifacts, unlisted, attachments.value, results.value, counts,
                       result.value);
    if result.value == [] { SomeResults(s, p, contract, w); }
  }

  /** Every contract asks for at least one Evaluation, so accepted evidence has one. */
  lemma SomeResults(s: Stores, p: Producer, contract: Contract, w: Workflow)
    requires contract in MVP_EVIDENCE_CONTRACT && Accepted(s, p, contract, w)
    ensures |p.evaluationIds.value| > 0
  {
    assert |multiset(TypesOf(s, p.declared))| == |p.declared|;
    assert |multiset(SomeOf(ExpectedTypes(p, contract)))| == |ExpectedTypes(p, contract)|;
    assert |multiset(RefsOf(s, p.evaluationIds.value))| == |RefsOf(s, p.evaluationIds.value)|;
  }

  // ---------------------------------------------------------------- the outcome

  datatype Aggregate = Aggregate(issues: seq<Issue>, checks: Checks)

  function ChecksOf(issues: seq<Issue>, summaries: seq<Summary>): Checks {
    Checks(!HasCode(issues, INCOMPLETE),
           !HasCode(issues, {CrossExecution}), !HasCode(issues, {StaleRevision}),
           !HasCode(issues, UNTRACEABLE),
           summaries != [] && forall x | x in summaries :: x == Summary("SUCCEEDED", "PASS"))
  }

  /** What each published check says of the evidence of all predecessors. */
  ghost predicate IsTruthful(checks: Checks, s: Stores, predecessors: seq<Producer>, w: Workflow) {
    && (checks.complete <==> forall p | p in predecessors :: Complete(s, p))
    && (checks.sameExecution <==> forall p | p in predecessors :: OneExecution(s, p, w))
    && (checks.sameRevision <==> forall p | p in predecessors :: OneRevision(s, p, w))
    && (checks.provenanceConsistent <==> forall p | p in predecessors :: Traceable(s, p, w))
    && (checks.allEvaluationsPassed <==>
          && (exists p, id :: p in predecessors && HasResult(s, p, id))
          && forall p | p in predecessors :: AllPassed(s, p))
  }

  /** The issues are those of the evidence of the predecessors. */
  ghost predicate AreDue(issues: seq<Issue>, s: Stores, predecessors: seq<Producer>, w: Workflow)
    requires |predecessors| <= |MVP_EVIDENCE_CONTRACT|
  {
    forall issue :: issue in issues <==>
      exists i | 0 <= i < |predecessors| :: EvidenceFault(issue, s, predecessors[i], MVP_EVIDENCE_CONTRACT[i], w)
  }

  /** The summaries are those of the stored results of the predecessors. */
  ghost predicate AreSummaries(summaries: seq<Summary>, s: Stores, predecessors: seq<Producer>) {
    forall x :: x in summaries <==>
      exists p, id :: p in predecessors && HasResult(s, p, id)
                      && x == Summary(s.results[id].status, s.results[id].outcome)
  }

  lemma CodesAreDue(issues: seq<Issue>, codes: set<Code>, s: Stores, predecessors: seq<Producer>, w: Workflow)
    requires |predecessors| <= |MVP_EVIDENCE_CONTRACT| && AreDue(issues, s, predecessors, w)
    ensures HasCode(issues, codes) <==>
              exists i | 0 <= i < |predecessors| :: Faulty(codes, s, predecessors[i], MVP_EVIDENCE_CONTRACT[i], w)
  {
    hide EvidenceFault;
    if i :| 0 <= i < |predecessors| && Faulty(codes, s, predecessors[i], MVP_EVIDENCE_CONTRACT[i], w) {
      var issue: Issue :|
        issue.code in codes && EvidenceFault(issue, s, predecessors[i], MVP_EVIDENCE_CONTRACT[i], w);
      assert issue in issues;
    }
  }

  /** The published checks say what is so of the evidence, whatever the outcome. */
  lemma ChecksAreTruthful(issues: seq<Issue>, summaries: seq<Summary>, s: Stores, predecessors: seq<Producer>,
                          w: Workflow)
    requires |predecessors| == |MVP_EVIDENCE_CONTRACT| && AreDue(issues, s, predecessors, w)
    requires forall p | p in predecessors :: p.artifactIds.Some? && p.evaluationIds.Some?
    requires AreSummaries(summaries, s, predecessors)
    ensures IsTruthful(ChecksOf(issues, summaries), s, predecessors, w)
  {
    hide AreDue, HasCode, Faulty, Complete, OneExecution, OneRevision, Traceable, HasResult;
    CodesAreDue(issues, INCOMPLETE, s, predecessors, w);
    CodesAreDue(issues, {CrossExecution}, s, predecessors, w);
    CodesAreDue(issues, {StaleRevision}, s, predecessors, w);
    CodesAreDue(issues, UNTRACEABLE, s, predecessors, w);
    forall i | 0 <= i < |predecessors|
      ensures Faulty(INCOMPLETE, s, predecessors[i], MVP_EVIDENCE_CONTRACT[i], w) <==> !Complete(s, predecessors[i])
      ensures Faulty({CrossExecution}, s, predecessors[i], MVP_EVIDENCE_CONTRACT[i], w) <==>
              !OneExecution(s, predecessors[i], w)
      ensures Faulty({StaleRevision}, s, predecessors[i], MVP_EVIDENCE_CONTRACT[i], w) <==>
              !OneRevision(s, predecessors[i], w)
      ensures Faulty(UNTRACEABLE, s, predecessors[i], MVP_EVIDENCE_CONTRACT[i], w) <==>
              !Traceable(s, predecessors[i], w)
    {
      CompleteExactly(s, predecessors[i], MVP_EVIDENCE_CONTRACT[i], w);
      OneExecutionExactly(s, predecessors[i], MVP_EVIDENCE_CONTRACT[i], w);
      OneRevisionExactly(s, predecessors[i], MVP_EVIDENCE_CONTRACT[i], w);
      TraceableExactly(s, predecessors[i], MVP_EVIDENCE_CONTRACT[i], w);
    }
    if summaries != [] { assert summaries[0] in summaries; }
    forall p, id | p in predecessors && HasResult(s, p, id)
      ensures id in s.results && Summary(s.results[id].status, s.results[id].outcome) in summaries
    {
      ResultIsStored(s, p, id);
    }
  }

  lemma ResultIsStored(s: Stores, p: Producer, id: string)
    requires HasResult(s, p, id)
    ensures id in s.results
  {
  }

  lemma SummariesGrow(summaries: seq<Summary>, judged: seq<Summary>, s: Stores, before: seq<Producer>, p: Producer)
    requires AreSummaries(summaries, s, before)
    requires p.evaluationIds.Some? && judged == SummariesOf(s, p.evaluationIds.value)
    ensures AreSummaries(summaries + judged, s, before + [p])
  {
    forall x
      ensures x in summaries + judged <==>
              exists q, id :: q in before + [p] && HasResult(s, q, id)
                              && x == Summary(s.results[id].status, s.results[id].outcome)
    {
      SummariesAreThoseOfResults(s, p.evaluationIds.value, x);
      assert forall id :: HasResult(s, p, id) <==> id in p.evaluationIds.value && id in s.results;
      assert p in before + [p] && forall q :: q in before ==> q in before + [p];
    }
  }

  lemma DueGrows(issues: seq<Issue>, found: seq<Issue>, s: Stores, before: seq<Producer>, p: Producer, w: Workflow)
    requires |before| < |MVP_EVIDENCE_CONTRACT| && AreDue(issues, s, before, w)
    requires forall issue :: issue in found <==> EvidenceFault(issue, s, p, MVP_EVIDENCE_CONTRACT[|before|], w)
    ensures AreDue(issues + found, s, before + [p], w)
  {
    hide EvidenceFault;
    var after := before + [p];
    forall issue
      ensures issue in issues + found <==>
              exists i | 0 <= i < |after| :: EvidenceFault(issue, s, after[i], MVP_EVIDENCE_CONTRACT[i], w)
    {
      if issue in issues {
        var i :| 0 <= i < |before| && EvidenceFault(issue, s, before[i], MVP_EVIDENCE_CONTRACT[i], w);
        assert after[i] == before[i];
      }
      if issue in found { assert after[|before|] == p; }
      if i :| 0 <= i < |after| && EvidenceFault(issue, s, after[i], MVP_EVIDENCE_CONTRACT[i], w) && issue !in found {
        assert i < |before| && after[i] == before[i];
      }
    }
  }

  /** `_aggregate` and the outcome: PASS exactly if the evidence of every predecessor is accepted,
      and then every published check holds.  Whatever the outcome, the issues are those of the
      evidence and each check says what is so of it; an error says what of it is malformed. */
  method Evaluate(s: Stores, predecessors: seq<Producer>, w: Workflow)
    returns (result: Result<Aggregate, Error>, outcome: string)
    requires |predecessors| == |MVP_EVIDENCE_CONTRACT|
    ensures outcome == "PASS" <==>
              forall i | 0 <= i < |predecessors| :: Accepted(s, predecessors[i], MVP_EVIDENCE_CONTRACT[i], w)
    ensures outcome in {"PASS", "FAIL"}
    ensures outcome == "PASS" ==> result.Ok? && result.value == Aggregate([], Checks(true, true, true, true, true))
    ensures result.Ok? <==> forall i | 0 <= i < |predecessors| :: Readable(s, predecessors[i], MVP_EVIDENCE_CONTRACT[i])
    ensures result.Ok? ==>
              AreDue(result.value.issues, s, predecessors, w) && IsTruthful(result.value.checks, s, predecessors, w)
    ensures result.Err? ==>
              exists i | 0 <= i < |predecessors| ::
                EvidenceError(s, predecessors[i], MVP_EVIDENCE_CONTRACT[i], result.error)
  {
    hide Accepted, Readable, AreDue, AreSummaries, EvidenceFault, EvidenceError, IsTruthful;
    outcome := "FAIL";
    var issues, summaries: seq<Summary> := [], [];
    NothingIsDue(s, w);
    for i := 0 to |predecessors|
      invariant issues == [] <==>
                  forall j | 0 <= j < i :: Accepted(s, predecessors[j], MVP_EVIDENCE_CONTRACT[j], w)
      invariant issues == [] ==> |summaries| >= i && forall x | x in summaries :: x == Summary("SUCCEEDED", "PASS")
      invariant forall j | 0 <= j < i :: Readable(s, predecessors[j], MVP_EVIDENCE_CONTRACT[j])
      invariant forall j | 0 <= j < i :: predecessors[j].artifactIds.Some? && predecessors[j].evaluationIds.Some?
      invariant AreDue(issues, s, predecessors[..i], w) && AreSummaries(summaries, s, predecessors[..i])
    {
      var found, judged := CheckEvidence(s, predecessors[i], MVP_EVIDENCE_CONTRACT[i], w);
      if found.Err? { return Err(found.error), outcome; }
      ReadableHasLists(s, predecessors[i], MVP_EVIDENCE_CONTRACT[i]);
      assert predecessors[..i + 1] == predecessors[..i] + [predecessors[i]];
      DueGrows(issues, found.value, s, predecessors[..i], predecessors[i], w);
      SummariesGrow(summaries, judged, s, predecessors[..i], predecessors[i]);
      issues, summaries := issues + found.value, summaries + judged;
    }
    assert predecessors[..|predecessors|] == predecessors;
    ChecksAreTruthful(issues, summaries, s, predecessors, w);
    result := Ok(Aggregate(issues, ChecksOf(issues, summaries)));
    if issues == [] { outcome := "PASS"; }
  }

  lemma NothingIsDue(s: Stores, w: Workflow)
    ensures AreDue([], s, [], w) && AreSummaries([], s, [])
  {
  }

  lemma ReadableHasLists(s: Stores, p: Producer, contract: Contract)
    requires Readable(s, p, contract)
    ensures p.artifactIds.Some? && p.evaluationIds.Some?
  {
  }

  // ---------------------------------------------------------------- the chain found in the store

  /** A stored TaskExecution, as the walk over the dependencies and as the aggregation look at it. */
  datatype Task = Task(record: Predecessors.Record, evidence: Producer)

  /** Both look at the same object. */
  ghost predicate IsStored(tasks: map<string, Task>) {
    forall id | id in tasks ::
      tasks[id].evidence.id == id && tasks[id].record.taskName in {None, Some(tasks[id].evidence.taskName)}
  }

  function Records(tasks: map<string, Task>): Predecessors.Store {
    map id | id in tasks :: tasks[id].record
  }

  function WalkedWorkflow(w: Workflow): Predecessors.Workflow {
    Predecessors.Workflow(w.id, w.traceId)
  }

  /** All that `direct` reaches is valid and acyclic, and the walk takes it in the contract's order. */
  ghost predicate IsContracted(tasks: map<string, Task>, direct: seq<string>, w: Workflow) {
    var store, workflow := Records(tasks), WalkedWorkflow(w);
    && |direct| == 1
    && !Predecessors.HasCycle(store, direct[0]) && !Predecessors.HasRejected(store, workflow, direct[0])
    && var order := Predecessors.WalkOrder(store, direct[0]);
       && |order| == |MVP_EVIDENCE_CONTRACT|
       && forall i | 0 <= i < |order| ::
            && order[i] in tasks && tasks[order[i]].evidence.id == order[i]
            && tasks[order[i]].record.taskName == Some(MVP_EVIDENCE_CONTRACT[i].taskName)
            && tasks[order[i]].evidence.taskName == MVP_EVIDENCE_CONTRACT[i].taskName
  }

  /** The evidence of the `i`-th task of the chain, which the `i`-th contract is about. */
  ghost function EvidenceAt(tasks: map<string, Task>, direct: seq<string>, w: Workflow, i: nat): Producer
    requires IsContracted(tasks, direct, w) && i < |MVP_EVIDENCE_CONTRACT|
  {
    tasks[Predecessors.WalkOrder(Records(tasks), direct[0])[i]].evidence
  }

  /** The fixed chain is that of the contracts. */
  lemma ChainIsContracted()
    ensures |Predecessors.MVP_CHAIN| == |MVP_EVIDENCE_CONTRACT|
    ensures forall i | 0 <= i < |MVP_EVIDENCE_CONTRACT| ::
              Predecessors.MVP_CHAIN[i] == MVP_EVIDENCE_CONTRACT[i].taskName
  {
  }

  lemma ChainIsSpelled(tasks: map<string, Task>, order: seq<string>, chain: seq<string>, contracts: seq<Contract>)
    requires |chain| == |contracts| && forall i | 0 <= i < |chain| :: chain[i] == contracts[i].taskName
    ensures Predecessors.Names(Records(tasks), order) == SomeOf(chain) <==>
              && |order| == |contracts|
              && forall i | 0 <= i < |order| ::
                   order[i] in tasks && tasks[order[i]].record.taskName == Some(contracts[i].taskName)
  {
    hide Predecessors.Names;
    Predecessors.NamesAre(Records(tasks), order);
    var names, expected := Predecessors.Names(Records(tasks), order), SomeOf(chain);
    if names == expected {
      assert forall i | 0 <= i < |order| :: names[i] == expected[i];
    }
  }

  /** `execute` up to the outcome: there is one exactly if the tasks the acceptance task depends on,
      directly or through others, are exactly the contracted chain and their evidence can be judged;
      it is PASS exactly if the evidence of each is accepted.  A refused chain has no outcome. */
  method Execute(tasks: map<string, Task>, s: Stores, direct: seq<string>, w: Workflow)
    returns (outcome: Option<string>, refusal: Option<Predecessors.Error>)
    requires IsStored(tasks)
    ensures outcome == Some("PASS") <==>
              && IsContracted(tasks, direct, w)
              && forall i: nat | i < |MVP_EVIDENCE_CONTRACT| ::
                   Accepted(s, EvidenceAt(tasks, direct, w, i), MVP_EVIDENCE_CONTRACT[i], w)
    ensures outcome.Some? <==>
              && IsContracted(tasks, direct, w)
              && forall i: nat | i < |MVP_EVIDENCE_CONTRACT| ::
                   Readable(s, EvidenceAt(tasks, direct, w, i), MVP_EVIDENCE_CONTRACT[i])
    ensures outcome in {None, Some("PASS"), Some("FAIL")}
    ensures refusal.None? <==> IsContracted(tasks, direct, w)
    ensures refusal.Some? ==> Predecessors.Explains(Records(tasks), WalkedWorkflow(w), direct, refusal.value)
  {
    hide Accepted, Readable, Predecessors.HasCycle, Predecessors.HasRejected, Predecessors.Explains,
         Predecessors.WalkOrder, Predecessors.IsPredecessorOrder, Predecessors.Names;
    outcome, refusal := None, None;
    if |direct| == 1 {
      ChainIsContracted();
      ChainIsSpelled(tasks, Predecessors.WalkOrder(Records(tasks), direct[0]), Predecessors.MVP_CHAIN,
                     MVP_EVIDENCE_CONTRACT);
    }
    var chain := Predecessors.FindPredecessors(Records(tasks), WalkedWorkflow(w), direct);
    if chain.Err? {
      return None, Some(chain.error);
    }
    assert IsContracted(tasks, direct, w);
    var predecessors := seq(|chain.value|, i requires 0 <= i < |chain.value| => tasks[chain.value[i]].evidence);
    assert forall i: nat | i < |predecessors| :: predecessors[i] == EvidenceAt(tasks, direct, w, i);
    var aggregate, verdict := Evaluate(s, predecessors, w);
    if aggregate.Ok? { outcome := Some(verdict); }
  }
}
