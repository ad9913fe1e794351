/** Rebuilding the resource collection of a historical execution with overridden versions
    (src/aep/dogfood_runtime.py:123-183). */
module ReplayCollection {
  import opened Wrappers
  import opened Resources
  import opened ReplayReferences

  datatype Resource = Resource(ref: Ref, data: Json, references: seq<Ref>)

  type Collection = map<Ref, Resource>

  datatype Error = OverrideMalformed | OverrideUnavailable | DependencyUnavailable | EffectiveUnavailable

  /** A collection is indexed by its resources' own references. */
  ghost predicate Indexed(c: Collection) {
    forall ref | ref in c :: c[ref].ref == ref
  }

  /** Every reference of a resource of the collection is to a resource of the collection. */
  ghost predicate ReferenceClosed(c: Collection) {
    forall ref, dependency | ref in c && dependency in c[ref].references :: dependency in c
  }

  /** Where a resource comes from: the historical collection comes first. */
  function Source(historical: Collection, available: Collection, ref: Ref): Option<Resource> {
    if ref in historical then Some(historical[ref])
    else if ref in available then Some(available[ref])
    else None
  }

  /** The references of `ref` are resolved within `refs`. */
  ghost predicate ResolvedWithin(historical: Collection, available: Collection, ref: Ref, refs: set<Ref>) {
    var source := Source(historical, available, ref);
    source.Some? && forall dependency | dependency in source.value.references :: dependency in refs
  }

  /** `refs` has the historical references and the roots, and is closed for everything the
      reconstruction adds or overrides. */
  ghost predicate Closure(historical: Collection, available: Collection, roots: seq<Ref>, refs: set<Ref>) {
    && historical.Keys <= refs
    && (forall root | root in roots :: root in refs)
    && (forall ref | ref in refs && (ref !in historical || ref in roots) ::
          ResolvedWithin(historical, available, ref, refs))
  }

  /** Something the overrides need is nowhere to be found. */
  ghost predicate HasNoClosure(historical: Collection, available: Collection, roots: seq<Ref>) {
    forall refs: set<Ref> :: !Closure(historical, available, roots, refs)
  }

  /** Every resource of `c` is the one its reference names. */
  ghost predicate Sourced(historical: Collection, available: Collection, c: Collection) {
    forall ref | ref in c :: Source(historical, available, ref) == Some(c[ref])
  }

  /** `keys` stays within every closure there is. */
  ghost predicate Least(historical: Collection, available: Collection, roots: seq<Ref>, keys: set<Ref>) {
    forall refs: set<Ref> | Closure(historical, available, roots, refs) :: keys <= refs
  }

  function Roots(overrides: seq<Option<Ref>>): seq<Ref> {
    if overrides == [] then []
    else (if overrides[0].Some? then [overrides[0].value] else []) + Roots(overrides[1..])
  }

  lemma {:induction false} RootsAre(overrides: seq<Option<Ref>>, ref: Ref)
    ensures ref in Roots(overrides) <==> Some(ref) in overrides
  {
    if overrides != [] {
      RootsAre(overrides[1..], ref);
      assert overrides == [overrides[0]] + overrides[1..];
    }
  }

  /** Resources to be resolved, and the references they are resolved for. */
  datatype Setting = Setting(historical: Collection, available: Collection, roots: seq<Ref>, done: seq<Ref>)

  ghost predicate Waiting(s: Setting, c: Collection, pending: seq<Resource>) {
    forall resource | resource in pending ::
      && resource.ref in c && c[resource.ref] == resource
      && (resource.ref !in s.historical || resource.ref in s.roots)
  }

  /** Everything to be resolved has its references, except the resources still pending. */
  ghost predicate ResolvedUpTo(s: Setting, c: Collection, pending: seq<Resource>) {
    forall ref | ref in c && (ref !in s.historical || ref in s.done) && c[ref] !in pending ::
      forall dependency | dependency in c[ref].references :: dependency in c
  }

  /** What the worklist keeps. */
  ghost predicate Frontier(s: Setting, c: Collection, pending: seq<Resource>) {
    && s.historical.Keys <= c.Keys
    && Sourced(s.historical, s.available, c) && Least(s.historical, s.available, s.roots, c.Keys)
    && Waiting(s, c, pending) && ResolvedUpTo(s, c, pending)
  }

  /** Every closure that has a resource to be resolved has its dependencies, and their sources. */
  lemma DependencyIsForced(s: Setting, current: Resource, dependency: Ref, refs: set<Ref>)
    requires Source(s.historical, s.available, current.ref) == Some(current)
    requires current.ref !in s.historical || current.ref in s.roots
    requires dependency in current.references
    requires Closure(s.historical, s.available, s.roots, refs) && current.ref in refs
    ensures dependency in refs && Source(s.historical, s.available, dependency).Some?
  {
    assert ResolvedWithin(s.historical, s.available, current.ref, refs);
    if dependency !in s.historical { assert ResolvedWithin(s.historical, s.available, dependency, refs); }
  }

  lemma AddingKeepsFrontier(s: Setting, c: Collection, pending: seq<Resource>, current: Resource, dependency: Ref)
    requires Indexed(s.historical) && Indexed(s.available)
    requires Frontier(s, c, pending) && current in pending && dependency in current.references
    requires dependency !in c && dependency in s.available
    ensures Frontier(s, c[dependency := s.available[dependency]], pending + [s.available[dependency]])
  {
    var resolved := s.available[dependency];
    var after, more := c[dependency := resolved], pending + [resolved];
    assert Least(s.historical, s.available, s.roots, after.Keys) by {
      forall refs: set<Ref> | Closure(s.historical, s.available, s.roots, refs) ensures after.Keys <= refs {
        assert current.ref in c.Keys;
        DependencyIsForced(s, current, dependency, refs);
      }
    }
    hide Least;
    assert Waiting(s, after, more);
    forall ref, d | ref in after && (ref !in s.historical || ref in s.done) && after[ref] !in more
                    && d in after[ref].references
      ensures d in after
    {
      assert resolved in more;
      assert ref in c && c[ref] !in pending;
    }
  }

  lemma ResolvedLeavesFrontier(s: Setting, c: Collection, pending: seq<Resource>, current: Resource)
    requires Frontier(s, c, [current] + pending)
    requires forall dependency | dependency in current.references :: dependency in c
    ensures Frontier(s, c, pending)
  {
    hide Sourced, Least;
    forall ref, d | ref in c && (ref !in s.historical || ref in s.done) && c[ref] !in pending
                    && d in c[ref].references
      ensures d in c
    {
      if c[ref] != current { assert c[ref] !in [current] + pending; }
    }
    assert forall resource | resource in pending :: resource in [current] + pending;
  }

  lemma PoppedFrontier(s: Setting, c: Collection, pending: seq<Resource>)
    requires pending != [] && Frontier(s, c, pending)
    ensures Frontier(s, c, [pending[|pending| - 1]] + pending[..|pending| - 1])
  {
    hide Sourced, Least;
    var popped := [pending[|pending| - 1]] + pending[..|pending| - 1];
    assert pending == pending[..|pending| - 1] + [pending[|pending| - 1]];
    assert forall resource :: resource in popped <==> resource in pending;
  }

  /** The loop over the references of one popped resource. */
  method Resolve(ghost s: Setting, available: Collection, start: Collection, waiting: seq<Resource>, current: Resource)
    returns (result: Result<Collection, Error>, pending: seq<Resource>)
    requires s.available == available && Indexed(s.historical) && Indexed(available)
    requires Frontier(s, start, [current] + waiting)
    ensures result.Ok? ==>
              && start.Keys <= result.value.Keys && Frontier(s, result.value, pending)
              && ((result.value == start && pending == waiting)
                  || available.Keys - result.value.Keys < available.Keys - start.Keys)
    ensures result.Err? ==>
              result.error == DependencyUnavailable && HasNoClosure(s.historical, s.available, s.roots)
  {
    hide Sourced, Closure, ResolvedUpTo, Indexed;
    var resources := start;
    pending := waiting;
    for i := 0 to |current.references|
      invariant start.Keys <= resources.Keys && Frontier(s, resources, [current] + pending)
      invariant forall dependency | dependency in current.references[..i] :: dependency in resources
      invariant (resources == start && pending == waiting)
                || available.Keys - resources.Keys < available.Keys - start.Keys
    {
      var dependency := current.references[i];
      assert current in [current] + pending;
      if dependency !in resources {
        if dependency !in available {
          NoSource(s, resources, [current] + pending, current, dependency);
          return Err(DependencyUnavailable), pending;
        }
        var resolved := available[dependency];
        AddingKeepsFrontier(s, resources, [current] + pending, current, dependency);
        assert [current] + pending + [resolved] == [current] + (pending + [resolved]);
        hide Frontier;
        resources := resources[dependency := resolved];
        pending := pending + [resolved];
      }
      assert current.references[..i + 1] == current.references[..i] + [dependency];
    }
    assert current.references[..|current.references|] == current.references;
    ResolvedLeavesFrontier(s, resources, pending, current);
    result := Ok(resources);
  }

  lemma NoSource(s: Setting, c: Collection, pending: seq<Resource>, current: Resource, dependency: Ref)
    requires Frontier(s, c, pending) && current in pending && dependency in current.references
    requires dependency !in c && dependency !in s.available
    ensures forall refs: set<Ref> :: !Closure(s.historical, s.available, s.roots, refs)
  {
    forall refs: set<Ref> | Closure(s.historical, s.available, s.roots, refs) ensures false {
      assert current.ref in c.Keys;
      DependencyIsForced(s, current, dependency, refs);
    }
  }

  /** The worklist: from one override, add what its resources refer to. */
  method Reconstruct(ghost s: Setting, available: Collection, start: Collection, root: Ref)
    returns (result: Result<Collection, Error>)
    requires s.available == available && Indexed(s.historical) && Indexed(available) && root in s.roots
    requires Frontier(s, start, [])
    ensures result.Ok? ==>
              && start.Keys <= result.value.Keys && root in result.value
              && Frontier(s.(done := s.done + [root]), result.value, [])
    ensures result.Err? ==>
              && result.error in {OverrideUnavailable, DependencyUnavailable}
              && HasNoClosure(s.historical, s.available, s.roots)
  {
    var resources := start;
    if root !in resources && root !in available {
      assert forall refs: set<Ref> :: !Closure(s.historical, s.available, s.roots, refs) by {
        forall refs: set<Ref> ensures !Closure(s.historical, s.available, s.roots, refs) {
          assert !ResolvedWithin(s.historical, s.available, root, refs);
        }
      }
      return Err(OverrideUnavailable);
    }
    var candidate := if root in resources then resources[root] else available[root];
    ghost var next := s.(done := s.done + [root]);
    resources := resources[root := candidate];
    var pending := [candidate];
    hide Sourced, Least, Closure, ResolvedUpTo, Indexed, Waiting;
    while pending != []
      invariant start.Keys <= resources.Keys && root in resources
      invariant Frontier(next, resources, pending)
      decreases available.Keys - resources.Keys, |pending|
    {
      PoppedFrontier(next, resources, pending);
      var current := pending[|pending| - 1];
      var step, more := Resolve(next, available, resources, pending[..|pending| - 1], current);
      if step.Err? { return Err(step.error); }
      resources, pending := step.value, more;
    }
    result := Ok(resources);
  }

  // ---------------------------------------------------------------- replacements

  /** The version that stays for each overridden kind and name: the last override decides. */
  function ByName(overrides: seq<Ref>): map<(string, string), Ref> {
    if overrides == [] then map[]
    else
      var last := overrides[|overrides| - 1];
      ByName(overrides[..|overrides| - 1])[(last.kind, last.name) := last]
  }

  lemma {:induction false} ByNameIsOverride(overrides: seq<Ref>, name: (string, string))
    requires name in ByName(overrides)
    ensures ByName(overrides)[name] in overrides
    ensures (ByName(overrides)[name].kind, ByName(overrides)[name].name) == name
    decreases |overrides|
  {
    var last := overrides[|overrides| - 1];
    if name != (last.kind, last.name) { ByNameIsOverride(overrides[..|overrides| - 1], name); }
  }

  /** Of all overrides of a kind and name the last one stands, and nothing else is overridden. */
  lemma {:induction false} LastOverrideStands(overrides: seq<Ref>, name: (string, string), o: Ref)
    ensures name in ByName(overrides) && ByName(overrides)[name] == o <==>
              exists i: nat :: IsLastOf(overrides, name, i) && overrides[i] == o
    decreases |overrides|
  {
    if overrides != [] {
      var n := |overrides| - 1;
      var earlier := overrides[..n];
      LastOverrideStands(earlier, name, o);
      if (overrides[n].kind, overrides[n].name) == name {
        assert IsLastOf(overrides, name, n);
      } else {
        forall i: nat ensures IsLastOf(overrides, name, i) <==> IsLastOf(earlier, name, i) {
          assert i < n ==> earlier[i] == overrides[i];
        }
      }
    }
  }

  predicate IsLastOf(overrides: seq<Ref>, name: (string, string), i: nat) {
    && i < |overrides| && (overrides[i].kind, overrides[i].name) == name
    && forall j | i < j < |overrides| :: (overrides[j].kind, overrides[j].name) != name
  }

  /** The inherited references whose kind and name are overridden with another version. */
  ghost predicate ReplacementsOf(replacements: Replacements, inherited: seq<Option<Ref>>,
                                 byName: map<(string, string), Ref>)
  {
    forall ref ::
      && (ref in replacements <==>
            && Some(ref) in inherited && (ref.kind, ref.name) in byName
            && byName[(ref.kind, ref.name)].version != ref.version)
      && (ref in replacements ==> replacements[ref] == byName[(ref.kind, ref.name)])
  }

  lemma ReplacementsSettle(replacements: Replacements, inherited: seq<Option<Ref>>, overrides: seq<Ref>)
    requires ReplacementsOf(replacements, inherited, ByName(overrides))
    ensures Settled(replacements)
    ensures forall ref | ref in replacements :: replacements[ref] in overrides
  {
    forall ref | ref in replacements
      ensures replacements[ref] !in replacements && replacements[ref] in overrides
    {
      ByNameIsOverride(overrides, (ref.kind, ref.name));
    }
  }

  method Replace(inherited: seq<Option<Ref>>, byName: map<(string, string), Ref>) returns (replacements: Replacements)
    ensures ReplacementsOf(replacements, inherited, byName)
  {
    replacements := map[];
    for i := 0 to |inherited|
      invariant ReplacementsOf(replacements, inherited[..i], byName)
    {
      assert inherited[..i + 1] == inherited[..i] + [inherited[i]];
      if inherited[i].Some? {
        var original := inherited[i].value;
        var name := (original.kind, original.name);
        if name in byName && byName[name].version != original.version {
          replacements := replacements[original := byName[name]];
        }
      }
    }
    assert inherited[..|inherited|] == inherited;
  }

  function Rewritten(resource: Resource, replacements: Replacements): Resource {
    Resource(resource.ref, ReplaceRefs(resource.data, replacements),
             seq(|resource.references|, i requires 0 <= i < |resource.references| =>
                   Substitute(resource.references[i], replacements)))
  }

  /** The loader's invariant: the references of a resource are those found in its document. */
  ghost predicate Consistent(resource: Resource) {
    forall ref :: ref in resource.references <==> Refers(resource.data, ref)
  }

  lemma RewrittenReference(resource: Resource, replacements: Replacements, target: Ref)
    ensures target in Rewritten(resource, replacements).references <==>
            exists ref :: ref in resource.references && Substitute(ref, replacements) == target
  {
    var after := Rewritten(resource, replacements).references;
    if target in after {
      var i :| 0 <= i < |after| && after[i] == target;
      assert resource.references[i] in resource.references;
    }
    if ref :| ref in resource.references && Substitute(ref, replacements) == target {
      var i :| 0 <= i < |resource.references| && resource.references[i] == ref;
      assert after[i] == target;
    }
  }

  /** Rewriting the document and rewriting the list of references agree. */
  lemma RewritingIsConsistent(resource: Resource, replacements: Replacements)
    requires Consistent(resource)
    ensures Consistent(Rewritten(resource, replacements))
  {
    forall target ensures target in Rewritten(resource, replacements).references <==>
                          Refers(Rewritten(resource, replacements).data, target)
    {
      RewrittenReference(resource, replacements, target);
      RefsAreSubstituted(resource.data, replacements, target);
    }
  }

  /** No resource refers to a replaced version any more, in its references or anywhere in its
      document, and rewriting once more changes nothing. */
  ghost predicate FreeOf(c: Collection, replacements: Replacements) {
    forall ref | ref in c ::
      && (forall replaced | replaced in replacements ::
          replaced !in c[ref].references && !Spells(c[ref].data, replaced))
      && Rewritten(c[ref], replacements) == c[ref]
  }

  lemma RewrittenIsFree(resource: Resource, replacements: Replacements)
    requires Settled(replacements)
    ensures
      var after := Rewritten(resource, replacements);
      && (forall replaced | replaced in replacements :: replaced !in after.references && !Spells(after.data, replaced))
      && Rewritten(after, replacements) == after
  {
    var after := Rewritten(resource, replacements);
    forall replaced | replaced in replacements ensures replaced !in after.references && !Spells(after.data, replaced) {
      NoReplacedRefIsLeft(resource.data, replacements, replaced);
      RewrittenReference(resource, replacements, replaced);
    }
    ReplacingTwiceIsReplacingOnce(resource.data, replacements);
    assert Rewritten(after, replacements).references == after.references;
  }

  function RewriteAll(c: Collection, replacements: Replacements): Collection {
    map ref | ref in c :: Rewritten(c[ref], replacements)
  }

  /** Rewriting keeps a collection closed, as the versions that stay are in it. */
  lemma RewritingKeepsClosed(c: Collection, replacements: Replacements)
    requires ReferenceClosed(c) && forall ref | ref in replacements :: replacements[ref] in c
    ensures ReferenceClosed(RewriteAll(c, replacements))
  {
    var after := RewriteAll(c, replacements);
    forall ref, target | ref in after && target in after[ref].references ensures target in after {
      RewrittenReference(c[ref], replacements, target);
    }
  }

  // ---------------------------------------------------------------- the whole reconstruction

  lemma FrontierIsClosure(s: Setting, c: Collection, overrides: seq<Option<Ref>>)
    requires Frontier(s, c, []) && s.roots == Roots(overrides)
    requires forall ref :: ref in s.done <==> Some(ref) in overrides
    requires forall ref | ref in s.done :: ref in c
    ensures Closure(s.historical, s.available, s.roots, c.Keys)
    ensures ReferenceClosed(s.historical) ==> ReferenceClosed(c)
    ensures forall ref | ref in Roots(overrides) :: ref in c
  {
    forall ref ensures ref in s.roots <==> ref in s.done { RootsAre(overrides, ref); }
    forall ref | ref in c && (ref !in s.historical || ref in s.roots)
      ensures ResolvedWithin(s.historical, s.available, ref, c.Keys)
    {
      assert c[ref] !in [];
    }
    if ReferenceClosed(s.historical) {
      forall ref, d | ref in c && d in c[ref].references ensures d in c {
        assert Source(s.historical, s.available, ref) == Some(c[ref]);
        if ref in s.historical { assert d in s.historical; } else { assert c[ref] !in []; }
      }
    }
  }

  lemma CollectionIsRewritten(historical: Collection, available: Collection, c: Collection, replacements: Replacements)
    requires Sourced(historical, available, c) && Settled(replacements)
    requires forall ref | ref in replacements :: replacements[ref] in c
    ensures
      var after := RewriteAll(c, replacements);
      && after.Keys == c.Keys && FreeOf(after, replacements)
      && (ReferenceClosed(c) ==> ReferenceClosed(after))
      && (forall ref | ref in after :: Source(historical, available, ref).Some?
                                       && after[ref] == Rewritten(Source(historical, available, ref).value,
                                                                  replacements))
  {
    hide Rewritten;
    var after := RewriteAll(c, replacements);
    forall ref | ref in after
      ensures after[ref] == Rewritten(c[ref], replacements)
      ensures forall replaced | replaced in replacements ::
                replaced !in after[ref].references && !Spells(after[ref].data, replaced)
      ensures Rewritten(after[ref], replacements) == after[ref]
    {
      RewrittenIsFree(c[ref], replacements);
    }
    if ReferenceClosed(c) { RewritingKeepsClosed(c, replacements); }
  }

  /** The loop over the overrides. */
  method AddOverrides(historical: Collection, available: Collection, overrides: seq<Option<Ref>>)
    returns (result: Result<Collection, Error>)
    requires Indexed(historical) && Indexed(available)
    ensures result.Ok? ==>
              && None !in overrides
              && Sourced(historical, available, result.value)
              && Closure(historical, available, Roots(overrides), result.value.Keys)
              && Least(historical, available, Roots(overrides), result.value.Keys)
              && (ReferenceClosed(historical) ==> ReferenceClosed(result.value))
              && (forall ref | ref in Roots(overrides) :: ref in result.value)
    ensures result == Err(OverrideMalformed) ==> None in overrides
    ensures result.Err? && result.error != OverrideMalformed ==>
              result.error != EffectiveUnavailable && HasNoClosure(historical, available, Roots(overrides))
  {
    var resources := historical;
    ghost var s := Setting(historical, available, Roots(overrides), []);
    for i := 0 to |overrides|
      invariant s == Setting(historical, available, Roots(overrides), s.done)
      invariant forall ref :: ref in s.done <==> Some(ref) in overrides[..i]
      invariant None !in overrides[..i]
      invariant forall ref | ref in s.done :: ref in resources
      invariant Frontier(s, resources, [])
    {
      hide Frontier, Closure, Indexed, Roots;
      assert overrides[..i + 1] == overrides[..i] + [overrides[i]];
      if overrides[i].None? { return Err(OverrideMalformed); }
      RootsAre(overrides, overrides[i].value);
      var step := Reconstruct(s, available, resources, overrides[i].value);
      if step.Err? { return Err(step.error); }
      resources := step.value;
      s := s.(done := s.done + [overrides[i].value]);
    }
    assert overrides[..|overrides|] == overrides;
    FrontierIsClosure(s, resources, overrides);
    result := Ok(resources);
  }

  /** The final check of the effective references. */
  method AllPresent(c: Collection, effective: seq<Option<Ref>>) returns (present: bool)
    ensures present <==> forall entry | entry in effective :: entry.Some? && entry.value in c
  {
    for i := 0 to |effective|
      invariant forall entry | entry in effective[..i] :: entry.Some? && entry.value in c
    {
      assert effective[..i + 1] == effective[..i] + [effective[i]];
      if effective[i].None? || effective[i].value !in c {
        assert effective[i] in effective;
        return false;
      }
    }
    assert effective[..|effective|] == effective;
    present := true;
  }

  /** The rebuilt collection: the least closure of the historical collection and the overrides, with
      every resource rewritten, closed if the history was, free of replaced references, and with
      every effective reference. */
  ghost predicate Rebuilt(historical: Collection, available: Collection, overrides: seq<Option<Ref>>,
                          effective: seq<Option<Ref>>, c: Collection, replacements: Replacements) {
    && (forall ref | ref in c :: Source(historical, available, ref).Some?
                                 && c[ref] == Rewritten(Source(historical, available, ref).value, replacements))
    && Closure(historical, available, Roots(overrides), c.Keys)
    && Least(historical, available, Roots(overrides), c.Keys)
    && (ReferenceClosed(historical) ==> ReferenceClosed(c))
    && FreeOf(c, replacements)
    && (forall entry | entry in effective :: entry.Some? && entry.value in c)
  }

  /** What a refusal means. */
  ghost predicate Explains(historical: Collection, available: Collection, overrides: seq<Option<Ref>>,
                           effective: seq<Option<Ref>>, error: Error) {
    match error
    case OverrideMalformed => None in overrides
    case EffectiveUnavailable =>
      exists refs: set<Ref>, entry ::
        && Closure(historical, available, Roots(overrides), refs)
        && Least(historical, available, Roots(overrides), refs)
        && entry in effective && (entry.None? || entry.value !in refs)
    case _ => HasNoClosure(historical, available, Roots(overrides))
  }

  /** `_replay_resource_collection`; a `None` stands for an entry that is not a mapping. */
  method Replay(historical: Collection, available: Collection, overrides: seq<Option<Ref>>,
                inherited: seq<Option<Ref>>, effective: seq<Option<Ref>>)
    returns (result: Result<Collection, Error>, ghost replacements: Replacements)
    requires Indexed(historical) && Indexed(available)
    ensures result.Ok? ==>
              && None !in overrides
              && ReplacementsOf(replacements, inherited, ByName(Roots(overrides)))
              && Rebuilt(historical, available, overrides, effective, result.value, replacements)
    ensures result.Err? ==> Explains(historical, available, overrides, effective, result.error)
  {
    hide *;
    replacements := map[];
    var added := AddOverrides(historical, available, overrides);
    if added.Err? {
      FailureIsExplained(historical, available, overrides, effective, added.error);
      return Err(added.error), replacements;
    }
    var c, roots := added.value, Roots(overrides);
    var substituted := Replace(inherited, ByName(roots));
    replacements := substituted;
    ReplacementsSettle(replacements, inherited, roots);
    CollectionIsRewritten(historical, available, c, substituted);
    var collection := RewriteAll(c, substituted);
    var present := AllPresent(collection, effective);
    if !present {
      AbsenceIsExplained(historical, available, overrides, effective, collection);
      return Err(EffectiveUnavailable), replacements;
    }
    result := Ok(collection);
    RebuiltIs(historical, available, overrides, effective, collection, replacements);
  }

  lemma RebuiltIs(historical: Collection, available: Collection, overrides: seq<Option<Ref>>,
                  effective: seq<Option<Ref>>, c: Collection, replacements: Replacements)
    requires forall ref | ref in c :: Source(historical, available, ref).Some?
                                      && c[ref] == Rewritten(Source(historical, available, ref).value, replacements)
    requires Closure(historical, available, Roots(overrides), c.Keys)
    requires Least(historical, available, Roots(overrides), c.Keys)
    requires ReferenceClosed(historical) ==> ReferenceClosed(c)
    requires FreeOf(c, replacements)
    requires forall entry | entry in effective :: entry.Some? && entry.value in c
    ensures Rebuilt(historical, available, overrides, effective, c, replacements)
  {
    hide Closure, Least, ReferenceClosed, FreeOf, Rewritten, Source;
  }

  lemma FailureIsExplained(historical: Collection, available: Collection, overrides: seq<Option<Ref>>,
                           effective: seq<Option<Ref>>, error: Error)
    requires error == OverrideMalformed ==> None in overrides
    requires error != OverrideMalformed ==>
               error != EffectiveUnavailable && HasNoClosure(historical, available, Roots(overrides))
    ensures Explains(historical, available, overrides, effective, error)
  {
    hide HasNoClosure;
  }

  lemma AbsenceIsExplained(historical: Collection, available: Collection, overrides: seq<Option<Ref>>,
                           effective: seq<Option<Ref>>, c: Collection)
    requires Closure(historical, available, Roots(overrides), c.Keys)
    requires Least(historical, available, Roots(overrides), c.Keys)
    requires exists entry :: entry in effective && (entry.None? || entry.value !in c)
    ensures Explains(historical, available, overrides, effective, EffectiveUnavailable)
  {
    hide Closure, Least;
    var entry :| entry in effective && (entry.None? || entry.value !in c);
    assert Closure(historical, available, Roots(overrides), c.Keys) && entry in effective
           && (entry.None? || entry.value !in c.Keys);
  }
}
