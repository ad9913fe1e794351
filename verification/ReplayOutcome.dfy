/** The tuple a replay hands out: the rewritten resources in their order, and the workspace entry
    (src/aep/dogfood_runtime.py:169-183, src/aep/resource_loader.py:119-131). */
module ReplayOutcome {
  import opened Wrappers
  import opened Resources
  import opened ReplayReferences
  import opened ReplayCollection

  datatype ResourceCollection = ResourceCollection(workspace: Resource, resources: seq<Resource>)

  function RefsOf(resources: seq<Resource>): seq<Ref> {
    seq(|resources|, i requires 0 <= i < |resources| => resources[i].ref)
  }

  /** The resources of `c`, each once, by kind, name and version. */
  ghost predicate Lists(resources: seq<Resource>, c: Collection) {
    && (forall resource | resource in resources :: resource.ref in c && c[resource.ref] == resource)
    && (forall ref | ref in c :: ref in RefsOf(resources))
    && NoDuplicates(RefsOf(resources)) && Sorted(RefsOf(resources))
  }

  /** Neither its references nor its document name a replaced version. */
  ghost predicate MentionsNone(resource: Resource, replacements: Replacements) {
    forall replaced | replaced in replacements ::
      replaced !in resource.references && !Spells(resource.data, replaced)
  }

  /** Rewriting leaves exactly the resources alone that mention no replaced version. */
  lemma RewritingLeavesExactly(resource: Resource, replacements: Replacements)
    requires Settled(replacements)
    ensures Rewritten(resource, replacements) == resource <==> MentionsNone(resource, replacements)
  {
    RewrittenIsFree(resource, replacements);
    if MentionsNone(resource, replacements) {
      NothingToReplace(resource.data, replacements);
      assert forall i | 0 <= i < |resource.references| :: resource.references[i] in resource.references;
      assert Rewritten(resource, replacements).references == resource.references;
    }
  }

  /** The keys of a dictionary, sorted. */
  method SortedKeys(c: Collection) returns (refs: seq<Ref>)
    ensures forall ref :: ref in refs <==> ref in c
    ensures NoDuplicates(refs) && Sorted(refs)
  {
    var rest := c.Keys;
    refs := [];
    while rest != {}
      invariant rest <= c.Keys && NoDuplicates(refs)
      invariant forall ref :: ref in refs <==> ref in c && ref !in rest
      decreases rest
    {
      var ref :| ref in rest;
      refs, rest := refs + [ref], rest - {ref};
    }
    SortingKeepsKeys(refs);
    refs := Sort(refs);
  }

  lemma SortingKeepsKeys(refs: seq<Ref>)
    requires NoDuplicates(refs)
    ensures NoDuplicates(Sort(refs)) && Sorted(Sort(refs))
    ensures forall ref :: ref in Sort(refs) <==> ref in refs
  {
    SortSorts(refs);
    var sorted := Sort(refs);
    DuplicatesCount(refs, sorted);
    forall ref ensures ref in sorted <==> ref in refs {
      assert ref in multiset(sorted) <==> ref in multiset(refs);
    }
  }

  lemma RebuiltEntries(historical: Collection, available: Collection, overrides: seq<Option<Ref>>,
                       effective: seq<Option<Ref>>, c: Collection, replacements: Replacements)
    requires Indexed(historical) && Indexed(available)
    requires Rebuilt(historical, available, overrides, effective, c, replacements)
    ensures Indexed(c)
    ensures forall ref | ref in c ::
              && Source(historical, available, ref).Some?
              && c[ref] == Rewritten(Source(historical, available, ref).value, replacements)
  {
    hide Closure, Least, ReferenceClosed, FreeOf;
  }

  lemma ListsAll(c: Collection, refs: seq<Ref>, resources: seq<Resource>)
    requires Indexed(c) && NoDuplicates(refs) && Sorted(refs)
    requires forall ref :: ref in refs <==> ref in c
    requires |resources| == |refs| && forall i | 0 <= i < |refs| :: refs[i] in c && resources[i] == c[refs[i]]
    ensures Lists(resources, c)
  {
    assert RefsOf(resources) == refs;
  }

  /** `_replay_resource_collection`, with its result as the tuple it is.  The workspace entry is
      taken from the collection before it is rewritten, so it agrees with the listed one exactly if
      it mentions no replaced version. */
  method Reconstructed(workspace: Resource, historical: Collection, available: Collection,
                       overrides: seq<Option<Ref>>, inherited: seq<Option<Ref>>, effective: seq<Option<Ref>>)
    returns (result: Result<ResourceCollection, Error>, ghost c: Collection, ghost replacements: Replacements)
    requires Indexed(historical) && Indexed(available)
    ensures result.Ok? ==>
              && Rebuilt(historical, available, overrides, effective, c, replacements)
              && ReplacementsOf(replacements, inherited, ByName(Roots(overrides)))
              && Lists(result.value.resources, c)
    ensures result.Ok? && workspace.ref !in c ==> result.value.workspace == workspace
    ensures result.Ok? && workspace.ref in c ==>
              && Source(historical, available, workspace.ref) == Some(result.value.workspace)
              && (c[workspace.ref] == result.value.workspace <==> MentionsNone(result.value.workspace, replacements))
    ensures result.Err? ==> Explains(historical, available, overrides, effective, result.error)
  {
    hide *;
    c := map[];
    var rebuilt, substituted := Replay(historical, available, overrides, inherited, effective);
    replacements := substituted;
    if rebuilt.Err? { return Err(rebuilt.error), c, replacements; }
    var collection := rebuilt.value;
    c := collection;
    var refs := SortedKeys(collection);
    var resources := seq(|refs|, i requires 0 <= i < |refs| => collection[refs[i]]);
    ReplacementsSettle(replacements, inherited, Roots(overrides));
    RebuiltEntries(historical, available, overrides, effective, c, replacements);
    var entry := if workspace.ref in collection then Source(historical, available, workspace.ref).value else workspace;
    result := Ok(ResourceCollection(entry, resources));
    ListsAll(c, refs, resources);
    RewritingLeavesExactly(entry, replacements);
  }

  // ---------------------------------------------------------------- a replay that leaves the workspace entry behind

  const SITE := Ref("Workspace", "default-workspace", "1.0.0")
  const REPLACED := Ref("Policy", "default-publication", "1.0.0")
  const CHOSEN := Ref("Policy", "default-publication", "2.0.0")

  function RefDocument(ref: Ref): Json {
    Object(map["kind" := Text(ref.kind), "name" := Text(ref.name), "version" := Text(ref.version)])
  }

  /** A document as the schemas have it: its kind is not next to its name and version. */
  function Document(ref: Ref, spec: Json): Json {
    Object(map["apiVersion" := Text("aep.dev/v1alpha1"), "kind" := Text(ref.kind), "spec" := spec,
               "metadata" := Object(map["name" := Text(ref.name), "version" := Text(ref.version)])])
  }

  const REPOSITORY := Object(map["provider" := Text("github"), "owner" := Text("example"), "name" := Text("service"),
                                 "defaultBranch" := Text("main")])

  const DISCOVERY := Object(map["root" := Text(".ai")])

  function SiteSpec(policy: Ref): Json {
    Object(map["repository" := REPOSITORY, "resourceDiscovery" := DISCOVERY,
               "defaultPolicies" := List([RefDocument(policy)])])
  }

  /** A workspace with one default policy, and both versions of that policy. */
  const NAMING := Resource(SITE, Document(SITE, SiteSpec(REPLACED)), [REPLACED])

  const POLICY_SPEC := Object(map["type" := Text("publication"),
                                  "rules" := List([Object(map["effect" := Text("allow")])])])

  function PolicyResource(ref: Ref): Resource { Resource(ref, Document(ref, POLICY_SPEC), []) }

  const HISTORY: Collection := map[SITE := NAMING, REPLACED := PolicyResource(REPLACED)]
  const NEWER: Collection := map[CHOSEN := PolicyResource(CHOSEN)]

  predicate IsReference(fields: map<string, Json>) { fields.Keys == {"kind", "name", "version"} }

  lemma TextsReferToNothing(fields: map<string, Json>, ref: Ref)
    requires !IsReference(fields) && forall k | k in fields :: fields[k].Text?
    ensures !Refers(Object(fields), ref)
  {
  }

  lemma DocumentRefers(own: Ref, spec: Json, ref: Ref)
    ensures Refers(Document(own, spec), ref) <==> Refers(spec, ref)
  {
    var fields := Document(own, spec).fields;
    assert "apiVersion" in fields.Keys && |"apiVersion"| == 10;
    assert !IsReference(fields);
    var metadata := fields["metadata"].fields;
    assert "kind" !in metadata.Keys;
    TextsReferToNothing(metadata, ref);
    assert "spec" in fields && fields["spec"] == spec;
  }

  lemma PoliciesRefer(policy: Ref, ref: Ref)
    ensures Refers(List([RefDocument(policy)]), ref) <==> ref == policy
  {
    var entry := RefDocument(policy);
    assert IsReference(entry.fields) && Triple(entry.fields) == Some(policy);
    assert [entry][0] == entry;
  }

  lemma SiteRefers(policy: Ref, ref: Ref)
    ensures Refers(SiteSpec(policy), ref) <==> ref == policy
  {
    var fields := SiteSpec(policy).fields;
    assert "repository" in fields.Keys && |"repository"| == 10;
    assert "owner" in REPOSITORY.fields.Keys && |"owner"| == 5;
    assert !IsReference(fields) && !IsReference(REPOSITORY.fields) && !IsReference(DISCOVERY.fields);
    TextsReferToNothing(REPOSITORY.fields, ref);
    TextsReferToNothing(DISCOVERY.fields, ref);
    PoliciesRefer(policy, ref);
    hide Triple;
    assert "defaultPolicies" in fields;
  }

  lemma PolicyRefersToNothing(ref: Ref)
    ensures !Refers(POLICY_SPEC, ref)
  {
    var rule := Object(map["effect" := Text("allow")]);
    assert "effect" in rule.fields.Keys && |"effect"| == 6;
    TextsReferToNothing(rule.fields, ref);
    assert "type" in POLICY_SPEC.fields.Keys && "rules" in POLICY_SPEC.fields.Keys && |"rules"| == 5;
    assert !IsReference(POLICY_SPEC.fields);
    assert POLICY_SPEC.fields["rules"].items == [rule];
  }

  /** These are resources the loader may have read: their references are those of their documents. */
  lemma NamingIsLoaded()
    ensures Consistent(NAMING) && Consistent(PolicyResource(REPLACED)) && Consistent(PolicyResource(CHOSEN))
    ensures Indexed(HISTORY) && Indexed(NEWER) && ReferenceClosed(HISTORY)
  {
    forall ref
      ensures ref in NAMING.references <==> Refers(NAMING.data, ref)
      ensures !Refers(PolicyResource(REPLACED).data, ref) && !Refers(PolicyResource(CHOSEN).data, ref)
    {
      DocumentRefers(SITE, SiteSpec(REPLACED), ref);
      SiteRefers(REPLACED, ref);
      DocumentRefers(REPLACED, POLICY_SPEC, ref);
      DocumentRefers(CHOSEN, POLICY_SPEC, ref);
      PolicyRefersToNothing(ref);
    }
  }

  const OVERRIDES: seq<Option<Ref>> := [Some(CHOSEN)]
  const INHERITED: seq<Option<Ref>> := [Some(SITE), Some(REPLACED)]
  const EFFECTIVE: seq<Option<Ref>> := [Some(SITE), Some(CHOSEN)]

  lemma NamingRoots()
    ensures Roots(OVERRIDES) == [CHOSEN] && ByName([CHOSEN]) == map[("Policy", "default-publication") := CHOSEN]
  {
    assert OVERRIDES[1..] == [];
    assert [CHOSEN][..0] == [];
  }

  lemma NamingIsNotRefused(error: Error)
    ensures !Explains(HISTORY, NEWER, OVERRIDES, EFFECTIVE, error)
  {
    NamingRoots();
    var refs := {SITE, REPLACED, CHOSEN};
    assert ResolvedWithin(HISTORY, NEWER, CHOSEN, refs);
    assert Closure(HISTORY, NEWER, [CHOSEN], refs);
    forall all: set<Ref> | Closure(HISTORY, NEWER, [CHOSEN], all) ensures SITE in all && CHOSEN in all {
      assert SITE in HISTORY.Keys;
    }
  }

  lemma ReplacedIsRewritten(resource: Resource, replacements: Replacements)
    requires resource.references == [REPLACED]
    requires ReplacementsOf(replacements, INHERITED, map[("Policy", "default-publication") := CHOSEN])
    ensures Rewritten(resource, replacements).references == [CHOSEN]
    ensures !Spells(Rewritten(resource, replacements).data, REPLACED)
  {
    hide Spells, ReplaceRefs;
    NamingRoots();
    assert "1.0.0"[0] != "2.0.0"[0];
    assert Some(REPLACED) in INHERITED && REPLACED in replacements;
    ReplacementsSettle(replacements, INHERITED, [CHOSEN]);
    RewrittenIsFree(resource, replacements);
  }

  lemma NamingSpells()
    ensures Spells(NAMING.data, REPLACED)
  {
    var entry := RefDocument(REPLACED);
    assert Spells(entry, REPLACED);
    var policies := List([entry]);
    assert policies.items[0] == entry && Spells(policies, REPLACED);
    assert SiteSpec(REPLACED).fields["defaultPolicies"] == policies && Spells(SiteSpec(REPLACED), REPLACED);
    assert NAMING.data.fields["spec"] == SiteSpec(REPLACED);
  }

  lemma RebuiltHasEntry(historical: Collection, available: Collection, overrides: seq<Option<Ref>>,
                        effective: seq<Option<Ref>>, c: Collection, replacements: Replacements, ref: Ref)
    requires Rebuilt(historical, available, overrides, effective, c, replacements) && Some(ref) in effective
    ensures ref in c && Source(historical, available, ref).Some?
    ensures c[ref] == Rewritten(Source(historical, available, ref).value, replacements)
  {
    hide Closure, Least, ReferenceClosed, FreeOf, Rewritten;
  }

  lemma NamingIsListed(resources: seq<Resource>, c: Collection)
    requires Lists(resources, c) && SITE in c && c[SITE].ref == SITE
    ensures c[SITE] in resources
  {
    var i :| 0 <= i < |resources| && RefsOf(resources)[i] == SITE;
    assert resources[i] in resources;
  }

  /** A Workspace with a default Policy that an override replaces: the replay succeeds and lists the
      Workspace with the chosen version, but its workspace entry still names the replaced one. */
  method WorkspaceMayNameReplacedVersion() returns (result: Result<ResourceCollection, Error>)
    ensures result.Ok? && REPLACED in result.value.workspace.references
    ensures Consistent(result.value.workspace) && Spells(result.value.workspace.data, REPLACED)
    ensures exists listed :: listed in result.value.resources && listed.ref == result.value.workspace.ref
                             && listed.references == [CHOSEN] && !Spells(listed.data, REPLACED)
  {
    NamingIsLoaded();
    NamingRoots();
    NamingSpells();
    assert Some(SITE) in EFFECTIVE;
    ghost var c, replacements;
    result, c, replacements := Reconstructed(NAMING, HISTORY, NEWER, OVERRIDES, INHERITED, EFFECTIVE);
    hide *;
    if result.Err? {
      NamingIsNotRefused(result.error);
      assert false;
    }
    RebuiltHasEntry(HISTORY, NEWER, OVERRIDES, EFFECTIVE, c, replacements, SITE);
    ReplacedIsRewritten(NAMING, replacements);
    NamingIsListed(result.value.resources, c);
  }
}
