/** Applying overrides to the references of a historical execution, and the overrides a suite asks
    for (src/aep/execution_replay.py:255-274, src/aep/evaluation_suites.py:425-455). */
module ReplayOverrides {
  import opened Wrappers
  import opened Resources
  import ReplayCollection
  import opened OverrideText

  datatype Error = RepeatedOverride | NoHistoricalMatch

  function IdentityOf(ref: Ref): (string, string) { (ref.kind, ref.name) }

  predicate Overridden(ref: Ref, overrides: seq<Ref>) {
    exists o | o in overrides :: IdentityOf(o) == IdentityOf(ref)
  }

  /** At most one override per kind and name, each for a resource of the history. */
  ghost predicate Acceptable(refs: seq<Ref>, overrides: seq<Ref>) {
    && (forall i, j | 0 <= i < j < |overrides| :: IdentityOf(overrides[i]) != IdentityOf(overrides[j]))
    && (forall o | o in overrides :: exists r | r in refs :: IdentityOf(r) == IdentityOf(o))
  }

  function Without(refs: seq<Ref>, identity: (string, string)): seq<Ref> {
    if refs == [] then []
    else (if IdentityOf(refs[0]) == identity then [] else [refs[0]]) + Without(refs[1..], identity)
  }

  lemma {:induction false} WithoutFilters(refs: seq<Ref>, identity: (string, string))
    ensures forall r :: r in Without(refs, identity) <==> r in refs && IdentityOf(r) != identity
    ensures NoDuplicates(refs) ==> NoDuplicates(Without(refs, identity))
    decreases |refs|
  {
    if refs != [] {
      assert refs == [refs[0]] + refs[1..];
      WithoutFilters(refs[1..], identity);
      if NoDuplicates(refs) {
        assert NoDuplicates(refs[1..]);
        forall i | 0 <= i < |refs[1..]| ensures refs[1..][i] != refs[0] {}
        assert refs[0] !in refs[1..];
      }
    }
  }

  /** What the references are after some of the overrides. */
  ghost predicate Applied(refs: seq<Ref>, overrides: seq<Ref>, result: seq<Ref>) {
    && (forall r :: r in result <==> r in overrides || (r in refs && !Overridden(r, overrides)))
    && (NoDuplicates(refs) ==> NoDuplicates(result))
  }

  lemma OneMoreOverride(refs: seq<Ref>, overrides: seq<Ref>, result: seq<Ref>, o: Ref)
    requires Applied(refs, overrides, result) && !Overridden(o, overrides)
    ensures Applied(refs, overrides + [o], Without(result, IdentityOf(o)) + [o])
    ensures (exists r | r in result :: IdentityOf(r) == IdentityOf(o)) <==>
              (exists r | r in refs :: IdentityOf(r) == IdentityOf(o))
  {
    WithoutFilters(result, IdentityOf(o));
    var kept := Without(result, IdentityOf(o));
    forall r ensures r in kept + [o] <==> r in overrides + [o] || (r in refs && !Overridden(r, overrides + [o])) {
      assert Overridden(r, overrides + [o]) <==> Overridden(r, overrides) || IdentityOf(r) == IdentityOf(o) by {
        if Overridden(r, overrides) {
          var p :| p in overrides && IdentityOf(p) == IdentityOf(r);
          assert p in overrides + [o];
        }
        assert o in overrides + [o];
      }
      if r in overrides { assert IdentityOf(r) != IdentityOf(o); }
    }
    assert o !in kept;
    if r :| r in refs && IdentityOf(r) == IdentityOf(o) {
      assert !Overridden(r, overrides);
    }
  }

  lemma AppliedSorted(refs: seq<Ref>, overrides: seq<Ref>, result: seq<Ref>)
    requires Applied(refs, overrides, result)
    ensures Applied(refs, overrides, Sort(result))
  {
    SortSorts(result);
    var sorted := Sort(result);
    forall r ensures r in sorted <==> r in result {
      assert r in multiset(sorted) <==> r in multiset(result);
    }
    if NoDuplicates(result) { DuplicatesCount(result, sorted); }
  }

  /** `_apply_overrides`: it accepts exactly the acceptable overrides, and then the result is sorted
      and has, besides the references that are not overridden, exactly the overrides. */
  method ApplyOverrides(refs: seq<Ref>, overrides: seq<Ref>) returns (result: Result<seq<Ref>, Error>)
    ensures result.Ok? <==> Acceptable(refs, overrides)
    ensures result.Ok? ==> Applied(refs, overrides, result.value) && Sorted(result.value)
  {
    hide Applied, Sorted, Overridden;
    var current := refs;
    var seen: set<(string, string)> := {};
    assert Applied(refs, [], refs) by { NothingApplied(refs); }
    for i := 0 to |overrides|
      invariant seen == set o | o in overrides[..i] :: IdentityOf(o)
      invariant Acceptable(refs, overrides[..i]) && Applied(refs, overrides[..i], current)
    {
      var o := overrides[i];
      assert overrides[..i + 1] == overrides[..i] + [o];
      if IdentityOf(o) in seen {
        return Err(RepeatedOverride);
      }
      NotSeen(overrides[..i], o);
      OneMoreOverride(refs, overrides[..i], current, o);
      if !exists r | r in current :: IdentityOf(r) == IdentityOf(o) {
        assert o in overrides;
        return Err(NoHistoricalMatch);
      }
      seen := seen + {IdentityOf(o)};
      current := Without(current, IdentityOf(o)) + [o];
    }
    assert overrides[..|overrides|] == overrides;
    AppliedSorted(refs, overrides, current);
    SortSorts(current);
    result := Ok(Sort(current));
  }

  lemma NothingApplied(refs: seq<Ref>)
    ensures Applied(refs, [], refs)
  {
  }

  lemma NotSeen(overrides: seq<Ref>, o: Ref)
    requires IdentityOf(o) !in set p | p in overrides :: IdentityOf(p)
    ensures !Overridden(o, overrides)
  {
  }

  /** The order of the overrides does not matter. */
  lemma OverrideOrderIsIrrelevant(refs: seq<Ref>, first: seq<Ref>, second: seq<Ref>, a: seq<Ref>, b: seq<Ref>)
    requires multiset(first) == multiset(second) && NoDuplicates(refs)
    requires Applied(refs, first, a) && Sorted(a) && Applied(refs, second, b) && Sorted(b)
    ensures a == b
  {
    hide Sorted;
    forall o ensures o in first <==> o in second { assert o in multiset(first) <==> o in multiset(second); }
    assert forall r :: Overridden(r, first) <==> Overridden(r, second);
    CountsOnce(a);
    CountsOnce(b);
    forall r ensures multiset(a)[r] == multiset(b)[r] {
      assert Overridden(r, first) <==> Overridden(r, second);
      assert r in a <==> r in b;
      assert (r in multiset(a) <==> r in a) && (r in multiset(b) <==> r in b);
    }
    SortedIsUnique(a, b);
  }

  lemma AcceptanceIgnoresOrder(refs: seq<Ref>, first: seq<Ref>, second: seq<Ref>)
    requires multiset(first) == multiset(second) && Acceptable(refs, first)
    ensures Acceptable(refs, second)
  {
    forall o ensures o in first <==> o in second { assert o in multiset(first) <==> o in multiset(second); }
    assert NoDuplicates(first);
    DuplicatesCount(first, second);
    forall i, j | 0 <= i < j < |second| ensures IdentityOf(second[i]) != IdentityOf(second[j]) {
      assert second[i] in first && second[j] in first;
      var k :| 0 <= k < |first| && first[k] == second[i];
      var l :| 0 <= l < |first| && first[l] == second[j];
      assert k < l || l < k;
    }
  }

  // ---------------------------------------------------------------- what a suite selects

  datatype SuiteError = AbsentFromHistory

  /** The version a suite selects for each kind and name. */
  function Selection(selected: seq<Ref>): map<(string, string), Ref> {
    ReplayCollection.ByName(selected)
  }

  ghost predicate InHistory(identity: (string, string), refs: seq<Ref>) {
    exists r | r in refs :: IdentityOf(r) == identity
  }

  /** Some version the history used is not the selected one. */
  predicate Differs(ref: Ref, refs: seq<Ref>) {
    exists r | r in refs :: IdentityOf(r) == IdentityOf(ref) && r.version != ref.version
  }

  /** The overrides a suite needs: one for each selected kind and name whose history differs. */
  ghost predicate Needed(selected: seq<Ref>, refs: seq<Ref>, overrides: seq<Ref>) {
    && (forall o :: o in overrides <==>
          IdentityOf(o) in Selection(selected) && Selection(selected)[IdentityOf(o)] == o && Differs(o, refs))
    && (forall i, j | 0 <= i < j < |overrides| :: IdentityOf(overrides[i]) != IdentityOf(overrides[j]))
  }

  function Printed(overrides: seq<Ref>): seq<string> {
    seq(|overrides|, i requires 0 <= i < |overrides| => Print(overrides[i]))
  }

  /** The loop of `_historical_overrides` over the selected references; the overrides are emitted in
      the order of kind and name. */
  method HistoricalOverrides(selected: seq<Ref>, refs: seq<Ref>)
    returns (result: Result<seq<string>, SuiteError>, ghost overrides: seq<Ref>)
    ensures result.Ok? <==> forall identity | identity in Selection(selected) :: InHistory(identity, refs)
    ensures result.Ok? ==> Needed(selected, refs, overrides) && Sorted(overrides)
                           && result.value == Printed(overrides)
  {
    hide ReplayCollection.ByName, Print;
    var selection := Selection(selected);
    var rest := selection.Keys;
    var needed: seq<Ref> := [];
    overrides := [];
    while rest != {}
      invariant rest <= selection.Keys
      invariant forall identity | identity in selection && identity !in rest :: InHistory(identity, refs)
      invariant forall o :: o in needed <==>
                  && IdentityOf(o) in selection && IdentityOf(o) !in rest
                  && selection[IdentityOf(o)] == o && Differs(o, refs)
      invariant forall i, j | 0 <= i < j < |needed| :: IdentityOf(needed[i]) != IdentityOf(needed[j])
      decreases rest
    {
      var identity :| identity in rest;
      rest := rest - {identity};
      if !exists r | r in refs :: IdentityOf(r) == identity { return Err(AbsentFromHistory), overrides; }
      var ref := selection[identity];
      ReplayCollection.ByNameIsOverride(selected, identity);
      if Differs(ref, refs) { needed := needed + [ref]; }
    }
    SortingStaysNeeded(selected, refs, needed);
    overrides := Sort(needed);
    result := Ok(Printed(Sort(needed)));
  }

  lemma SortingStaysNeeded(selected: seq<Ref>, refs: seq<Ref>, needed: seq<Ref>)
    requires Needed(selected, refs, needed)
    ensures Needed(selected, refs, Sort(needed)) && Sorted(Sort(needed))
  {
    hide Sort, Sorted, Selection, Differs;
    SortSorts(needed);
    var sorted := Sort(needed);
    forall o ensures o in sorted <==> o in needed {
      assert o in multiset(sorted) <==> o in multiset(needed);
    }
    assert NoDuplicates(needed);
    DuplicatesCount(needed, sorted);
    forall i, j | 0 <= i < j < |sorted| ensures IdentityOf(sorted[i]) != IdentityOf(sorted[j]) {
      assert sorted[i] in sorted && sorted[j] in sorted;
    }
  }

  /** A suite's overrides survive printing and parsing, replay accepts them, and afterwards every
      selected kind and name has exactly the selected version, all other references are unchanged,
      and nothing is there twice. */
  lemma SuiteSelectsItsVersions(selected: seq<Ref>, refs: seq<Ref>, overrides: seq<Ref>, result: seq<Ref>)
    requires forall o | o in overrides :: IsOverride(o)
    requires forall identity | identity in Selection(selected) :: InHistory(identity, refs)
    requires Needed(selected, refs, overrides) && Applied(refs, overrides, result) && NoDuplicates(refs)
    ensures forall o | o in overrides :: Parse(Print(o)) == Ok(o)
    ensures Acceptable(refs, overrides) && NoDuplicates(result)
    ensures forall identity | identity in Selection(selected) ::
              && Selection(selected)[identity] in result
              && forall r | r in result && IdentityOf(r) == identity :: r == Selection(selected)[identity]
    ensures forall r | IdentityOf(r) !in Selection(selected) :: r in result <==> r in refs
  {
    hide IsOverride, Print, Parse, ReplayCollection.ByName;
    forall o | o in overrides ensures Parse(Print(o)) == Ok(o) {
      OverridesRoundTrip(o, "");
    }
    forall identity | identity in Selection(selected)
      ensures Selection(selected)[identity] in result
      ensures forall r | r in result && IdentityOf(r) == identity :: r == Selection(selected)[identity]
    {
      SelectedVersionStands(selected, refs, overrides, result, identity);
    }
    forall r | IdentityOf(r) !in Selection(selected) ensures r in result <==> r in refs {
      assert !Overridden(r, overrides);
    }
  }

  lemma SelectedVersionStands(selected: seq<Ref>, refs: seq<Ref>, overrides: seq<Ref>, result: seq<Ref>,
                              identity: (string, string))
    requires identity in Selection(selected) && InHistory(identity, refs)
    requires Needed(selected, refs, overrides) && Applied(refs, overrides, result)
    ensures Selection(selected)[identity] in result
    ensures forall r | r in result && IdentityOf(r) == identity :: r == Selection(selected)[identity]
  {
    hide ReplayCollection.ByName;
    ReplayCollection.ByNameIsOverride(selected, identity);
    var chosen := Selection(selected)[identity];
    if Differs(chosen, refs) {
      assert chosen in overrides;
      forall r | r in result && IdentityOf(r) == identity ensures r == chosen {
        assert r !in overrides ==> Overridden(r, overrides);
      }
    } else {
      var r :| r in refs && IdentityOf(r) == identity;
      assert r == chosen;
      assert !Overridden(chosen, overrides);
    }
  }
}
