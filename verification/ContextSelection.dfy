/** Deduplication of context candidates and their greedy selection under a token budget
    (src/aep/context_builder.py:789-895, 1387-1423, 1505-1513). */
module ContextSelection {
  import opened Wrappers
  import opened ContextElements
  import opened Resources

  datatype Candidate = Candidate(name: string, element: Element)

  // ---------------------------------------------------------------- deduplication

  /** The element all candidates of one identity are merged into; the first of them survives. */
  function MergedGroup(found: seq<(string, Found)>, identity: Identity): Option<Element> {
    if found == [] then None
    else
      var name, last := found[|found| - 1].0, found[|found| - 1].1;
      var earlier := MergedGroup(found[..|found| - 1], identity);
      if last.FoundPlain? || last.identity != identity then earlier
      else if earlier.None? then Some(WithReason(last, name))
      else if earlier.value.Slice? then Some(Merge(earlier.value, WithReason(last, name)))
      else earlier
  }

  lemma {:induction false} GroupIsSlice(found: seq<(string, Found)>, identity: Identity)
    ensures MergedGroup(found, identity).Some? ==>
              MergedGroup(found, identity).value.Slice? && MergedGroup(found, identity).value.identity == identity
    decreases |found|
  {
    if found != [] { GroupIsSlice(found[..|found| - 1], identity); }
  }

  /** The candidates without an identity, in their order. */
  function PlainOf(found: seq<(string, Found)>): seq<Candidate> {
    if found == [] then []
    else
      var name, last := found[|found| - 1].0, found[|found| - 1].1;
      PlainOf(found[..|found| - 1]) + if last.FoundPlain? then [Candidate(name, WithReason(last, name))] else []
  }

  function PlainCandidates(candidates: seq<Candidate>): seq<Candidate> {
    if candidates == [] then []
    else
      var last := candidates[|candidates| - 1];
      PlainCandidates(candidates[..|candidates| - 1]) + if last.element.Plain? then [last] else []
  }

  /** No two elements are the same slice. */
  ghost predicate Distinct(candidates: seq<Candidate>) {
    forall i, j | 0 <= i < j < |candidates| ::
      candidates[i].element.Slice? && candidates[j].element.Slice? ==>
        candidates[i].element.identity != candidates[j].element.identity
  }

  /** Every slice of `found` is in `selected` exactly once, merged with all its duplicates, and
      every other element is there unchanged. */
  ghost predicate Deduplicated(found: seq<(string, Found)>, selected: seq<Candidate>) {
    && Distinct(selected)
    && PlainCandidates(selected) == PlainOf(found)
    && (forall c | c in selected && c.element.Slice? :: MergedGroup(found, c.element.identity) == Some(c.element))
    && (forall identity | MergedGroup(found, identity).Some? ::
          exists c :: c in selected && c.element == MergedGroup(found, identity).value)
  }

  /** The dictionary from identities to positions. */
  ghost predicate Positions(selected: seq<Candidate>, index: map<Identity, nat>) {
    && (forall identity | identity in index ::
          index[identity] < |selected| && selected[index[identity]].element.Slice?
          && selected[index[identity]].element.identity == identity)
    && (forall i | 0 <= i < |selected| && selected[i].element.Slice? :: selected[i].element.identity in index)
  }

  lemma {:induction false} PlainAfterMerge(candidates: seq<Candidate>, i: nat, c: Candidate)
    requires i < |candidates| && candidates[i].element.Slice? && c.element.Slice?
    ensures PlainCandidates(candidates[i := c]) == PlainCandidates(candidates)
    decreases |candidates|
  {
    var updated := candidates[i := c];
    if i == |candidates| - 1 {
      assert updated[..|candidates| - 1] == candidates[..|candidates| - 1];
    } else {
      assert updated[..|candidates| - 1] == candidates[..|candidates| - 1][i := c];
      PlainAfterMerge(candidates[..|candidates| - 1], i, c);
    }
  }

  /** The positions that survive: those of the elements without an identity, and of the first
      duplicate of each slice. */
  function KeptPositions(found: seq<(string, Found)>): (kept: seq<nat>)
    ensures forall i | 0 <= i < |kept| :: kept[i] < |found|
  {
    if found == [] then []
    else
      var n := |found| - 1;
      KeptPositions(found[..n]) + if StandsAlone(found, n, found[n].1) then [n] else []
  }

  /** `c` is `found` with its name, possibly merged with others. */
  predicate Stands(found: (string, Found), c: Candidate) {
    && c.name == found.0
    && (if found.1.FoundSlice? then c.element.Slice? && c.element.identity == found.1.identity
        else c.element == WithReason(found.1, found.0))
  }

  /** The selected candidates stand for the surviving positions, in their order. */
  ghost predicate InOrder(found: seq<(string, Found)>, selected: seq<Candidate>) {
    && |selected| == |KeptPositions(found)|
    && (forall i | 0 <= i < |selected| :: Stands(found[KeptPositions(found)[i]], selected[i]))
  }

  lemma KeptOneMore(found: seq<(string, Found)>, next: (string, Found))
    ensures KeptPositions(found + [next]) ==
              KeptPositions(found) + if StandsAlone(found, |found|, next.1) then [|found|] else []
  {
    var more, n := found + [next], |found|;
    KeptLast(more);
    assert more[..n] == found && more[n] == next && |more| - 1 == n;
    hide IsOf, KeptPositions;
    assert forall m | 0 <= m < n :: more[m] == found[m];
    assert StandsAlone(more, n, next.1) == StandsAlone(found, n, next.1);
  }

  lemma KeptLast(found: seq<(string, Found)>)
    requires found != []
    ensures
      var n := |found| - 1;
      KeptPositions(found) == KeptPositions(found[..n]) + if StandsAlone(found, n, found[n].1) then [n] else []
  {
  }

  /** No slice among the first `n` has the identity of this one. */
  predicate StandsAlone(found: seq<(string, Found)>, n: nat, next: Found)
    requires n <= |found|
  {
    next.FoundPlain? || forall m | 0 <= m < n :: !IsOf(found[m], next.identity)
  }

  lemma MergedStaysInOrder(found: seq<(string, Found)>, selected: seq<Candidate>, next: (string, Found), at: nat,
                           merged: Candidate)
    requires InOrder(found, selected) && next.1.FoundSlice? && at < |selected|
    requires selected[at].element.Slice? && selected[at].element.identity == next.1.identity
    requires merged.name == selected[at].name && merged.element.Slice?
    requires merged.element.identity == selected[at].element.identity
    ensures InOrder(found + [next], selected[at := merged])
  {
    var k := KeptPositions(found)[at];
    assert Stands(found[k], selected[at]);
    assert IsOf(found[k], next.1.identity);
    KeptOneMore(found, next);
    forall i | 0 <= i < |selected|
      ensures Stands((found + [next])[KeptPositions(found)[i]], selected[at := merged][i])
    {
      assert Stands(found[KeptPositions(found)[i]], selected[i]);
    }
  }

  lemma AppendedStaysInOrder(found: seq<(string, Found)>, selected: seq<Candidate>, index: map<Identity, nat>,
                             next: (string, Found), c: Candidate)
    requires InOrder(found, selected) && Deduplicated(found, selected) && Positions(selected, index)
    requires c == Candidate(next.0, WithReason(next.1, next.0))
    requires next.1.FoundSlice? ==> next.1.identity !in index
    ensures InOrder(found + [next], selected + [c])
  {
    hide Deduplicated, Positions, MergedGroup;
    if next.1.FoundSlice? {
      GroupIsIndexed(found, selected, index, next.1.identity);
      GroupCollects(found, next.1.identity);
      assert forall m | 0 <= m < |found| :: found[m] in found;
    }
    KeptOneMore(found, next);
    forall i | 0 <= i < |selected|
      ensures Stands((found + [next])[KeptPositions(found)[i]], (selected + [c])[i])
    {
      assert Stands(found[KeptPositions(found)[i]], selected[i]);
    }
  }

  /** One of the two loops of `_deduplicate_context_candidates`. */
  method Deduplicate(found: seq<(string, Found)>) returns (selected: seq<Candidate>)
    ensures Deduplicated(found, selected) && InOrder(found, selected)
  {
    hide Deduplicated, PlainOf, MergedGroup, InOrder;
    selected := [];
    var index: map<Identity, nat> := map[];
    assert Deduplicated([], []) && InOrder([], []) by { NothingFound(); }
    for i := 0 to |found|
      invariant Positions(selected, index) && Deduplicated(found[..i], selected)
      invariant InOrder(found[..i], selected)
    {
      var (name, element) := found[i];
      var prepared := WithReason(element, name);
      ghost var seen := found[..i];
      assert found[..i + 1] == seen + [found[i]] && (seen + [found[i]])[..|seen|] == seen;
      if prepared.Slice? && prepared.identity in index {
        var at := index[prepared.identity];
        var merged := Candidate(selected[at].name, Merge(selected[at].element, prepared));
        MergeIntoSelected(seen, selected, found[i], at, merged);
        MergedStaysInOrder(seen, selected, found[i], at, merged);
        selected := selected[at := merged];
      } else {
        AppendToSelected(seen, selected, index, found[i], Candidate(name, prepared));
        AppendedStaysInOrder(seen, selected, index, found[i], Candidate(name, prepared));
        if prepared.Slice? { index := index[prepared.identity := |selected|]; }
        selected := selected + [Candidate(name, prepared)];
      }
    }
    assert found[..|found|] == found;
  }

  lemma NothingFound()
    ensures Deduplicated([], []) && InOrder([], [])
  {
  }

  lemma OneMoreFound(found: seq<(string, Found)>, next: (string, Found), identity: Identity)
    ensures MergedGroup(found + [next], identity) ==
            var earlier := MergedGroup(found, identity);
            if next.1.FoundPlain? || next.1.identity != identity then earlier
            else if earlier.None? then Some(WithReason(next.1, next.0))
            else if earlier.value.Slice? then Some(Merge(earlier.value, WithReason(next.1, next.0)))
            else earlier
    ensures PlainOf(found + [next]) ==
            PlainOf(found) + if next.1.FoundPlain? then [Candidate(next.0, WithReason(next.1, next.0))] else []
  {
    assert (found + [next])[..|found|] == found;
  }

  lemma MergeIntoSelected(found: seq<(string, Found)>, selected: seq<Candidate>, next: (string, Found), at: nat,
                          merged: Candidate)
    requires Deduplicated(found, selected) && next.1.FoundSlice? && at < |selected|
    requires selected[at].element.Slice? && selected[at].element.identity == next.1.identity
    requires merged == Candidate(selected[at].name, Merge(selected[at].element, WithReason(next.1, next.0)))
    ensures Deduplicated(found + [next], selected[at := merged])
  {
    var after := selected[at := merged];
    PlainAfterMerge(selected, at, merged);
    OneMoreFound(found, next, next.1.identity);
    assert selected[at] in selected;
    assert MergedGroup(found, next.1.identity) == Some(selected[at].element);
    forall c | c in after && c.element.Slice?
      ensures MergedGroup(found + [next], c.element.identity) == Some(c.element)
    {
      OneMoreFound(found, next, c.element.identity);
      var i :| 0 <= i < |after| && after[i] == c;
      if i != at { assert selected[i] in selected; }
    }
    forall identity | MergedGroup(found + [next], identity).Some?
      ensures exists c :: c in after && c.element == MergedGroup(found + [next], identity).value
    {
      OneMoreFound(found, next, identity);
      if identity == next.1.identity {
        assert after[at] in after;
      } else {
        var c :| c in selected && c.element == MergedGroup(found, identity).value;
        var i :| 0 <= i < |selected| && selected[i] == c;
        GroupIsSlice(found, identity);
        assert after[i] == c;
      }
    }
  }

  lemma GroupIsIndexed(found: seq<(string, Found)>, selected: seq<Candidate>, index: map<Identity, nat>,
                       identity: Identity)
    requires Deduplicated(found, selected) && Positions(selected, index)
    ensures MergedGroup(found, identity).Some? ==> identity in index
  {
    if MergedGroup(found, identity).Some? {
      GroupIsSlice(found, identity);
      var d :| d in selected && d.element == MergedGroup(found, identity).value;
      var i :| 0 <= i < |selected| && selected[i] == d;
      assert selected[i].element.identity in index;
    }
  }

  lemma AppendToSelected(found: seq<(string, Found)>, selected: seq<Candidate>, index: map<Identity, nat>,
                         next: (string, Found), c: Candidate)
    requires Deduplicated(found, selected) && Positions(selected, index)
    requires c == Candidate(next.0, WithReason(next.1, next.0))
    requires next.1.FoundSlice? ==> next.1.identity !in index
    ensures Deduplicated(found + [next], selected + [c])
  {
    var after := selected + [c];
    forall identity
      ensures MergedGroup(found + [next], identity) ==
              if next.1.FoundSlice? && next.1.identity == identity then Some(c.element)
                  else MergedGroup(found, identity)
    {
      OneMoreFound(found, next, identity);
      GroupIsIndexed(found, selected, index, identity);
    }
    forall d | d in after && d.element.Slice?
      ensures MergedGroup(found + [next], d.element.identity) == Some(d.element)
    {
      if d != c {
        var i :| 0 <= i < |selected| && selected[i] == d;
        assert selected[i].element.identity in index;
      }
    }
    forall identity | MergedGroup(found + [next], identity).Some?
      ensures exists d :: d in after && d.element == MergedGroup(found + [next], identity).value
    {
      if next.1.FoundSlice? && next.1.identity == identity {
        assert after[|selected|] in after;
      } else {
        var d :| d in selected && d.element == MergedGroup(found, identity).value;
        assert d in after;
      }
    }
    OneMoreFound(found, next, Identity("", "", "", 0, 0, ""));
  }

  predicate IsOf(found: (string, Found), identity: Identity) {
    found.1.FoundSlice? && found.1.identity == identity
  }

  /** The first duplicate of a slice. */
  ghost predicate IsFirst(found: seq<(string, Found)>, identity: Identity, k: nat) {
    k < |found| && IsOf(found[k], identity) && forall m | 0 <= m < k :: !IsOf(found[m], identity)
  }

  /** The merged slice has exactly the reasons, paths and references of its duplicates, and whatever
      else it is made of is that of the first one. */
  lemma {:induction false} GroupCollects(found: seq<(string, Found)>, identity: Identity)
    ensures MergedGroup(found, identity).None? <==> forall c | c in found :: !IsOf(c, identity)
    ensures
      var group := MergedGroup(found, identity);
      group.Some? && group.value.Slice? ==>
        && group.value.reasons == (set c | c in found && IsOf(c, identity) :: c.0)
        && group.value.paths == (set c | c in found && IsOf(c, identity) :: c.1.path)
        && group.value.refs == (set c, ref | c in found && IsOf(c, identity) && ref in c.1.refs :: ref)
        && exists k: nat :: IsFirst(found, identity, k) && group.value.fixed == found[k].1.fixed
    decreases |found|
  {
    if found != [] {
      var front, last := found[..|found| - 1], found[|found| - 1];
      assert found == front + [last];
      GroupCollects(front, identity);
      GroupIsSlice(front, identity);
      assert last in found && forall c :: c in found <==> c in front || c == last;
      if MergedGroup(front, identity).Some? {
        var k: nat :| IsFirst(front, identity, k) && MergedGroup(front, identity).value.fixed == front[k].1.fixed;
        assert IsFirst(found, identity, k);
      } else if IsOf(last, identity) {
        assert IsFirst(found, identity, |front|);
      }
    }
  }

  // ---------------------------------------------------------------- selection

  /** An element with its `tokenCount`. */
  datatype Counted = Counted(element: Element, tokens: nat)

  datatype Discard = Discard(context: string, estimated: nat, reasons: seq<string>)

  /** What becomes of one optional candidate. */
  datatype Fate = Appended | Merged(into: nat) | Discarded

  /** `selected` names why something was taken, in the order of taking it. */
  datatype Package = Package(elements: seq<Counted>, categories: seq<string>, selected: seq<string>,
                             discarded: seq<Discard>, tokenCount: nat)

  datatype Error = BudgetExceeded(needed: nat)

  ghost predicate Priced(elements: seq<Counted>) {
    forall e | e in elements :: e.tokens == Tokens(e.element)
  }

  function SumTokens(elements: seq<Counted>): nat {
    if elements == [] then 0 else SumTokens(elements[..|elements| - 1]) + elements[|elements| - 1].tokens
  }

  lemma {:induction false} SumTokensUpdate(elements: seq<Counted>, i: nat, e: Counted)
    requires i < |elements|
    ensures SumTokens(elements[i := e]) == SumTokens(elements) - elements[i].tokens + e.tokens
    decreases |elements|
  {
    var front := elements[..|elements| - 1];
    if i == |elements| - 1 {
      assert elements[i := e][..i] == front;
    } else {
      assert elements[i := e][..|elements| - 1] == front[i := e];
      SumTokensUpdate(front, i, e);
    }
  }

  /** The optional candidates that were appended, in their order. */
  function AppendedOf(optional: seq<Candidate>, fates: seq<Fate>): seq<Candidate>
    requires |optional| == |fates|
  {
    if optional == [] then []
    else
      var n := |optional| - 1;
      AppendedOf(optional[..n], fates[..n]) + if fates[n].Appended? then [optional[n]] else []
  }

  /** The discarded optional candidates, in their order. */
  function DiscardedOf(optional: seq<Candidate>, fates: seq<Fate>): seq<Candidate>
    requires |optional| == |fates|
  {
    if optional == [] then []
    else
      var n := |optional| - 1;
      DiscardedOf(optional[..n], fates[..n]) + if fates[n].Discarded? then [optional[n]] else []
  }

  predicate IsLeast(x: string, texts: set<string>) {
    x in texts && forall y | y in texts :: TextAtMost(x, y)
  }

  lemma LeastOfMore(texts: set<string>, one: string, least: string)
    requires one in texts && IsLeast(least, texts - {one})
    ensures IsLeast(if TextAtMost(one, least) then one else least, texts)
  {
    hide TextAtMost;
    TextOrderIsTotal(one, one);
    TextOrderIsTotal(one, least);
    var x := if TextAtMost(one, least) then one else least;
    forall y | y in texts ensures TextAtMost(x, y) {
      if y != one {
        assert y in texts - {one};
        if x == one { TextOrderIsTransitive(one, least, y); }
      }
    }
  }

  lemma {:induction false} LeastText(texts: set<string>)
    requires texts != {}
    ensures exists x :: IsLeast(x, texts)
    decreases |texts|
  {
    hide IsLeast;
    var one :| one in texts;
    if texts == {one} {
      OnlyIsLeast(one);
    } else {
      assert texts == {one} + (texts - {one});
      LeastText(texts - {one});
      var least :| IsLeast(least, texts - {one});
      LeastOfMore(texts, one, least);
    }
  }

  lemma OnlyIsLeast(x: string)
    ensures IsLeast(x, {x})
  {
    TextOrderIsTotal(x, x);
  }

  lemma TextsAreOrdered()
    ensures forall a, b :: TextAtMost(a, b) && TextAtMost(b, a) ==> a == b
  {
    forall a, b | TextAtMost(a, b) && TextAtMost(b, a) ensures a == b { TextOrderIsTotal(a, b); }
  }

  /** `sorted` of a set of texts. */
  function SortedTexts(texts: set<string>): (r: seq<string>)
    ensures forall x :: x in r <==> x in texts
    ensures |r| == |texts|
    ensures forall i, j | 0 <= i < j < |r| :: TextAtMost(r[i], r[j])
    decreases |texts|
  {
    if texts == {} then []
    else
      LeastText(texts);
      TextsAreOrdered();
      var x :| IsLeast(x, texts);
      [x] + SortedTexts(texts - {x})
  }

  /** `_selection_reasons`. */
  function SelectionReasons(c: Candidate): seq<string> {
    if c.element.Slice? then SortedTexts(c.element.reasons) else [c.name]
  }

  /** The reasons the Task declares as optional context. */
  function Declared(reasons: seq<string>, declared: set<string>): seq<string> {
    if reasons == [] then []
    else (if reasons[0] in declared then [reasons[0]] else []) + Declared(reasons[1..], declared)
  }

  function NamesOf(candidates: seq<Candidate>): seq<string> {
    seq(|candidates|, i requires 0 <= i < |candidates| => candidates[i].name)
  }

  /** What one optional candidate adds to the selected names: an appended one its name, a merged one
      its declared reasons. */
  function TakenBy(c: Candidate, fate: Fate, declared: set<string>): seq<string> {
    match fate
    case Appended => [c.name]
    case Merged(_) => Declared(SelectionReasons(c), declared)
    case Discarded => []
  }

  /** What all of them add. */
  function TakenFor(optional: seq<Candidate>, fates: seq<Fate>, declared: set<string>): seq<string>
    requires |optional| == |fates|
  {
    if optional == [] then []
    else
      var n := |optional| - 1;
      TakenFor(optional[..n], fates[..n], declared) + TakenBy(optional[n], fates[n], declared)
  }

  /** The selected names of a package. */
  ghost predicate NamesTaken(mandatory: seq<Candidate>, optional: seq<Candidate>, fates: seq<Fate>,
                             declared: set<string>, p: Package) {
    |fates| == |optional| && p.selected == NamesOf(mandatory) + TakenFor(optional, fates, declared)
  }

  lemma OneMoreTaken(mandatory: seq<Candidate>, optional: seq<Candidate>, fates: seq<Fate>, declared: set<string>,
                     p: Package, c: Candidate, fate: Fate, next: Package)
    requires NamesTaken(mandatory, optional, fates, declared, p)
    requires next.selected == p.selected + TakenBy(c, fate, declared)
    ensures NamesTaken(mandatory, optional + [c], fates + [fate], declared, next)
  {
    hide TakenBy;
    assert (optional + [c])[..|optional|] == optional && (fates + [fate])[..|fates|] == fates;
  }

  /** A mandatory element with all the optional duplicates that were merged into it. */
  function WithMerged(element: Element, at: nat, optional: seq<Candidate>, fates: seq<Fate>): Element
    requires |optional| == |fates|
  {
    if optional == [] then element
    else
      var n := |optional| - 1;
      var earlier := WithMerged(element, at, optional[..n], fates[..n]);
      if fates[n] == Merged(at) && earlier.Slice? && optional[n].element.Slice? then Merge(earlier, optional[n].element)
      else earlier
  }

  lemma {:induction false} WithMergedExtends(element: Element, at: nat, optional: seq<Candidate>, fates: seq<Fate>)
    requires |optional| == |fates|
    ensures Extends(WithMerged(element, at, optional, fates), element)
    decreases |optional|
  {
    if optional != [] { WithMergedExtends(element, at, optional[..|optional| - 1], fates[..|optional| - 1]); }
  }

  predicate SameSlice(a: Element, b: Element) {
    a.Slice? && b.Slice? && a.identity == b.identity
  }

  /** A candidate is merged into, or discarded for, its mandatory duplicate if it has one;
      otherwise it is appended or discarded. */
  predicate FateFits(mandatory: seq<Candidate>, c: Candidate, fate: Fate) {
    match fate
    case Appended => forall m | m in mandatory :: !SameSlice(m.element, c.element)
    case Merged(into) => into < |mandatory| && SameSlice(mandatory[into].element, c.element)
    case Discarded => true
  }

  /** The state of the selection loop after `optional` and its fates. */
  ghost predicate Selected(mandatory: seq<Candidate>, optional: seq<Candidate>, fates: seq<Fate>, p: Package) {
    && |fates| == |optional|
    && |p.elements| == |p.categories| == |mandatory| + |AppendedOf(optional, fates)|
    && (forall i | 0 <= i < |mandatory| ::
          p.elements[i].element == WithMerged(mandatory[i].element, i, optional, fates)
          && p.categories[i] == mandatory[i].name)
    && (forall i | 0 <= i < |AppendedOf(optional, fates)| ::
          p.elements[|mandatory| + i].element == AppendedOf(optional, fates)[i].element
          && p.categories[|mandatory| + i] == AppendedOf(optional, fates)[i].name)
    && (forall k | 0 <= k < |fates| :: FateFits(mandatory, optional[k], fates[k]))
    && |p.discarded| == |DiscardedOf(optional, fates)|
    && (forall i | 0 <= i < |p.discarded| ::
          p.discarded[i].context == DiscardedOf(optional, fates)[i].name
          && p.discarded[i].reasons == SelectionReasons(DiscardedOf(optional, fates)[i]))
  }

  /** Every discarded candidate without a mandatory duplicate does not fit the space left. */
  ghost predicate NothingMoreFits(mandatory: seq<Candidate>, optional: seq<Candidate>, fates: seq<Fate>,
                                  tokenCount: nat, budget: int)
    requires |fates| == |optional|
  {
    forall k | 0 <= k < |fates| && fates[k].Discarded?
        && (forall m | m in mandatory :: !SameSlice(m.element, optional[k].element)) ::
      tokenCount + Tokens(optional[k].element) > budget
  }

  lemma OneMoreOptional(mandatory: seq<Candidate>, optional: seq<Candidate>, fates: seq<Fate>, c: Candidate, fate: Fate)
    requires |fates| == |optional|
    ensures AppendedOf(optional + [c], fates + [fate])
         == AppendedOf(optional, fates) + if fate.Appended? then [c] else []
    ensures DiscardedOf(optional + [c], fates + [fate])
         == DiscardedOf(optional, fates) + if fate.Discarded? then [c] else []
    ensures forall i: nat, e: Element ::
              WithMerged(e, i, optional + [c], fates + [fate]) ==
              var earlier := WithMerged(e, i, optional, fates);
              if fate == Merged(i) && earlier.Slice? && c.element.Slice? then Merge(earlier, c.element) else earlier
  {
    assert (optional + [c])[..|optional|] == optional && (fates + [fate])[..|fates|] == fates;
  }

  lemma DiscardStep(mandatory: seq<Candidate>, optional: seq<Candidate>, fates: seq<Fate>, p: Package, c: Candidate,
                    d: Discard)
    requires Selected(mandatory, optional, fates, p) && d.context == c.name && d.reasons == SelectionReasons(c)
    ensures Selected(mandatory, optional + [c], fates + [Discarded], p.(discarded := p.discarded + [d]))
  {
    hide AppendedOf, DiscardedOf, WithMerged, SelectionReasons;
    OneMoreOptional(mandatory, optional, fates, c, Discarded);
  }

  lemma AppendStep(mandatory: seq<Candidate>, optional: seq<Candidate>, fates: seq<Fate>, p: Package, c: Candidate,
                   e: Counted)
    requires Selected(mandatory, optional, fates, p) && e.element == c.element
    requires forall m | m in mandatory :: !SameSlice(m.element, c.element)
    ensures Selected(mandatory, optional + [c], fates + [Appended],
                     p.(elements := p.elements + [e], categories := p.categories + [c.name],
                        selected := p.selected + [c.name], tokenCount := p.tokenCount + e.tokens))
  {
    hide AppendedOf, DiscardedOf, WithMerged, SameSlice, SelectionReasons;
    OneMoreOptional(mandatory, optional, fates, c, Appended);
  }

  lemma MergeStep(mandatory: seq<Candidate>, optional: seq<Candidate>, fates: seq<Fate>, p: Package, c: Candidate,
                  at: nat, e: Counted, increment: nat, reasons: seq<string>)
    requires Selected(mandatory, optional, fates, p)
    requires at < |mandatory| && SameSlice(mandatory[at].element, c.element)
    requires p.elements[at].element.Slice? && e.element == Merge(p.elements[at].element, c.element)
    ensures Selected(mandatory, optional + [c], fates + [Merged(at)],
                     p.(elements := p.elements[at := e], selected := p.selected + reasons,
                        tokenCount := p.tokenCount + increment))
  {
    hide AppendedOf, DiscardedOf, WithMerged, SelectionReasons;
    OneMoreOptional(mandatory, optional, fates, c, Merged(at));
  }

  // ---------------------------------------------------------------- one turn

  /** The mandatory element an optional one duplicates; of several, the last. */
  function DuplicateOf(mandatory: seq<Candidate>, e: Element): (at: Option<nat>)
    ensures at.None? <==> forall m | m in mandatory :: !SameSlice(m.element, e)
    ensures at.Some? ==>
              && at.value < |mandatory| && SameSlice(mandatory[at.value].element, e)
              && forall j | at.value < j < |mandatory| :: !SameSlice(mandatory[j].element, e)
  {
    if mandatory == [] then None
    else
      var last := |mandatory| - 1;
      if SameSlice(mandatory[last].element, e) then Some(last) else DuplicateOf(mandatory[..last], e)
  }

  /** The elements after some optional candidates have met their fates. */
  ghost function ElementsAfter(mandatory: seq<Candidate>, optional: seq<Candidate>, fates: seq<Fate>): seq<Element>
    requires |optional| == |fates|
  {
    seq(|mandatory|, i requires 0 <= i < |mandatory| => WithMerged(mandatory[i].element, i, optional, fates))
    + seq(|AppendedOf(optional, fates)|,
          i requires 0 <= i < |AppendedOf(optional, fates)| => AppendedOf(optional, fates)[i].element)
  }

  ghost function TotalOf(elements: seq<Element>): nat {
    if elements == [] then 0 else TotalOf(elements[..|elements| - 1]) + Tokens(elements[|elements| - 1])
  }

  /** What taking a candidate adds to the token count: what merging it adds to its mandatory duplicate
      as it is by then, or all its own tokens. */
  ghost function Adds(mandatory: seq<Candidate>, seen: seq<Candidate>, fates: seq<Fate>, c: Candidate): int
    requires |seen| == |fates|
  {
    var at := DuplicateOf(mandatory, c.element);
    if at.None? then Tokens(c.element)
    else
      var now := WithMerged(mandatory[at.value].element, at.value, seen, fates);
      WithMergedExtends(mandatory[at.value].element, at.value, seen, fates);
      Tokens(Merge(now, c.element)) - Tokens(now)
  }

  /** At its turn a candidate is discarded if and only if what it adds is over the budget; otherwise
      it is merged into its mandatory duplicate if it has one, and appended if not. */
  ghost predicate IsDecided(mandatory: seq<Candidate>, seen: seq<Candidate>, fates: seq<Fate>, c: Candidate, fate: Fate,
                            budget: int)
    requires |seen| == |fates|
  {
    fate == if TotalOf(ElementsAfter(mandatory, seen, fates)) + Adds(mandatory, seen, fates, c) > budget then Discarded
            else if DuplicateOf(mandatory, c.element).Some? then Merged(DuplicateOf(mandatory, c.element).value)
            else Appended
  }

  /** What the discarded candidates would have added, in their order. */
  ghost function EstimatesOf(mandatory: seq<Candidate>, optional: seq<Candidate>, fates: seq<Fate>): seq<int>
    requires |optional| == |fates|
  {
    if optional == [] then []
    else
      var n := |optional| - 1;
      EstimatesOf(mandatory, optional[..n], fates[..n])
      + if fates[n].Discarded? then [Adds(mandatory, optional[..n], fates[..n], optional[n])] else []
  }

  /** Every candidate was decided at its turn, and the discards tell what they would have added. */
  ghost predicate TurnsTaken(mandatory: seq<Candidate>, optional: seq<Candidate>, fates: seq<Fate>, p: Package,
                             budget: int)
  {
    && |fates| == |optional|
    && (forall k | 0 <= k < |fates| ::
          IsDecided(mandatory, optional[..k], fates[..k], optional[k], fates[k], budget))
    && |p.discarded| == |EstimatesOf(mandatory, optional, fates)|
    && (forall i | 0 <= i < |p.discarded| :: p.discarded[i].estimated == EstimatesOf(mandatory, optional, fates)[i])
  }

  /** One more turn. */
  ghost predicate TakesTurn(mandatory: seq<Candidate>, seen: seq<Candidate>, fates: seq<Fate>, p: Package, c: Candidate,
                            fate: Fate, next: Package, budget: int)
    requires |seen| == |fates|
  {
    && IsDecided(mandatory, seen, fates, c, fate, budget)
    && (if fate.Discarded? then
          && |next.discarded| == |p.discarded| + 1 && next.discarded[..|p.discarded|] == p.discarded
          && next.discarded[|p.discarded|].estimated == Adds(mandatory, seen, fates, c)
        else next.discarded == p.discarded)
  }

  lemma OneMoreTurn(mandatory: seq<Candidate>, seen: seq<Candidate>, fates: seq<Fate>, p: Package, c: Candidate,
                    fate: Fate, next: Package, budget: int)
    requires TurnsTaken(mandatory, seen, fates, p, budget)
    requires TakesTurn(mandatory, seen, fates, p, c, fate, next, budget)
    ensures TurnsTaken(mandatory, seen + [c], fates + [fate], next, budget)
  {
    hide IsDecided, Adds;
    var optional, became := seen + [c], fates + [fate];
    forall k | 0 <= k < |became|
      ensures IsDecided(mandatory, optional[..k], became[..k], optional[k], became[k], budget)
    {
      if k < |fates| {
        assert optional[..k] == seen[..k] && became[..k] == fates[..k];
      } else {
        assert optional[..k] == seen && became[..k] == fates;
      }
    }
    assert optional[..|seen|] == seen && became[..|seen|] == fates;
    assert EstimatesOf(mandatory, optional, became) ==
      EstimatesOf(mandatory, seen, fates) + if fate.Discarded? then [Adds(mandatory, seen, fates, c)] else [];
  }

  lemma {:induction false} SumIsTotal(counted: seq<Counted>, elements: seq<Element>)
    requires |counted| == |elements| && Priced(counted)
    requires forall i | 0 <= i < |counted| :: counted[i].element == elements[i]
    ensures SumTokens(counted) == TotalOf(elements)
    decreases |counted|
  {
    hide Tokens;
    if counted != [] {
      assert forall e | e in counted[..|counted| - 1] :: e in counted;
      SumIsTotal(counted[..|counted| - 1], elements[..|elements| - 1]);
    }
  }

  /** The token count at a turn is that of the elements by then. */
  lemma CountAtTurn(mandatory: seq<Candidate>, seen: seq<Candidate>, fates: seq<Fate>, p: Package, budget: int)
    requires Accounted(mandatory, seen, fates, p, budget)
    ensures p.tokenCount == TotalOf(ElementsAfter(mandatory, seen, fates))
    ensures forall i | 0 <= i < |mandatory| ::
              i < |p.elements| && p.elements[i].element == WithMerged(mandatory[i].element, i, seen, fates)
              && p.elements[i].tokens == Tokens(p.elements[i].element)
  {
    hide Tokens, WithMerged, AppendedOf, NothingMoreFits, FateFits, SelectionReasons, DiscardedOf;
    SumIsTotal(p.elements, ElementsAfter(mandatory, seen, fates));
    forall i | 0 <= i < |mandatory| ensures p.elements[i].tokens == Tokens(p.elements[i].element) {
      assert p.elements[i] in p.elements;
    }
  }

  /** The price of the mandatory elements. */
  method Price(mandatory: seq<Candidate>) returns (elements: seq<Counted>, categories: seq<string>)
    ensures Selected(mandatory, [], [], Package(elements, categories, [], [], SumTokens(elements)))
    ensures Priced(elements)
  {
    elements, categories := [], [];
    for i := 0 to |mandatory|
      invariant |elements| == |categories| == i && Priced(elements)
      invariant forall j | 0 <= j < i ::
                elements[j].element == mandatory[j].element && categories[j] == mandatory[j].name
    {
      var tokens := CountTokens(mandatory[i].element);
      elements := elements + [Counted(mandatory[i].element, tokens)];
      categories := categories + [mandatory[i].name];
    }
  }

  method Total(elements: seq<Counted>) returns (total: nat)
    ensures total == SumTokens(elements)
  {
    total := 0;
    for i := 0 to |elements|
      invariant total == SumTokens(elements[..i])
    {
      assert elements[..i + 1] == elements[..i] + [elements[i]];
      total := total + elements[i].tokens;
    }
    assert elements[..|elements|] == elements;
  }

  /** `mandatory_identity_indices`. */
  ghost predicate Indices(mandatory: seq<Candidate>, index: map<Identity, nat>) {
    && (forall identity | identity in index ::
          && index[identity] < |mandatory| && mandatory[index[identity]].element.Slice?
          && mandatory[index[identity]].element.identity == identity
          && forall j | index[identity] < j < |mandatory| && mandatory[j].element.Slice? ::
               mandatory[j].element.identity != identity)
    && (forall m | m in mandatory && m.element.Slice? :: m.element.identity in index)
  }

  method IndexOf(mandatory: seq<Candidate>) returns (index: map<Identity, nat>)
    ensures Indices(mandatory, index)
  {
    index := map[];
    for i := 0 to |mandatory|
      invariant Indices(mandatory[..i], index)
    {
      assert mandatory[..i + 1] == mandatory[..i] + [mandatory[i]];
      if mandatory[i].element.Slice? { index := index[mandatory[i].element.identity := i]; }
    }
    assert mandatory[..|mandatory|] == mandatory;
  }

  lemma MergedStaysSlice(mandatory: seq<Candidate>, optional: seq<Candidate>, fates: seq<Fate>, p: Package, at: nat)
    requires Selected(mandatory, optional, fates, p) && at < |mandatory| && mandatory[at].element.Slice?
    ensures p.elements[at].element.Slice?
    ensures forall c: Element :: c.Slice? ==> Tokens(p.elements[at].element) <= Tokens(Merge(p.elements[at].element, c))
  {
    WithMergedExtends(mandatory[at].element, at, optional, fates);
    forall c: Element | c.Slice?
      ensures Tokens(p.elements[at].element) <= Tokens(Merge(p.elements[at].element, c))
    {
      ExtendingCostsNothingBack(Merge(p.elements[at].element, c), p.elements[at].element);
    }
  }

  /** What the selection loop keeps. */
  ghost predicate Accounted(mandatory: seq<Candidate>, optional: seq<Candidate>, fates: seq<Fate>, p: Package,
                            budget: int)
  {
    && |fates| == |optional| && Selected(mandatory, optional, fates, p) && Priced(p.elements)
    && p.tokenCount == SumTokens(p.elements) <= budget
    && NothingMoreFits(mandatory, optional, fates, p.tokenCount, budget)
  }

  /** An optional candidate that a mandatory element duplicates: merge it if the difference fits. */
  method OfferDuplicate(mandatory: seq<Candidate>, ghost seen: seq<Candidate>, ghost fates: seq<Fate>, p: Package,
                        c: Candidate, at: nat, declared: set<string>, budget: int)
    returns (next: Package, ghost fate: Fate)
    requires Accounted(mandatory, seen, fates, p, budget) && DuplicateOf(mandatory, c.element) == Some(at)
    ensures Accounted(mandatory, seen + [c], fates + [fate], next, budget)
    ensures TakesTurn(mandatory, seen, fates, p, c, fate, next, budget)
    ensures next.selected == p.selected + TakenBy(c, fate, declared)
  {
    hide Selected, Tokens, NothingMoreFits, SelectionReasons, Declared, ElementsAfter, TotalOf, WithMerged;
    SelectedCovers(mandatory, seen, fates, p);
    CountAtTurn(mandatory, seen, fates, p, budget);
    MergedStaysSlice(mandatory, seen, fates, p, at);
    var merged := Merge(p.elements[at].element, c.element);
    var tokens := CountTokens(merged);
    assert p.elements[at] in p.elements;
    var increment := if tokens >= p.elements[at].tokens then tokens - p.elements[at].tokens else 0;
    if p.tokenCount + increment <= budget {
      fate := Merged(at);
      SumTokensUpdate(p.elements, at, Counted(merged, tokens));
      var reasons := Declared(SelectionReasons(c), declared);
      MergeStep(mandatory, seen, fates, p, c, at, Counted(merged, tokens), increment, reasons);
      LessSpace(mandatory, seen, fates, p.tokenCount, p.tokenCount + increment, budget, c, fate);
      next := p.(elements := p.elements[at := Counted(merged, tokens)], selected := p.selected + reasons,
                 tokenCount := p.tokenCount + increment);
    } else {
      fate := Discarded;
      var discard := Discard(c.name, increment, SelectionReasons(c));
      DiscardStep(mandatory, seen, fates, p, c, discard);
      LessSpace(mandatory, seen, fates, p.tokenCount, p.tokenCount, budget, c, fate);
      next := p.(discarded := p.discarded + [discard]);
    }
  }

  /** Any other optional candidate: append it if it fits. */
  method Offer(mandatory: seq<Candidate>, ghost seen: seq<Candidate>, ghost fates: seq<Fate>, p: Package,
               c: Candidate, ghost declared: set<string>, budget: int)
    returns (next: Package, ghost fate: Fate)
    requires Accounted(mandatory, seen, fates, p, budget) && DuplicateOf(mandatory, c.element).None?
    ensures Accounted(mandatory, seen + [c], fates + [fate], next, budget)
    ensures TakesTurn(mandatory, seen, fates, p, c, fate, next, budget)
    ensures next.selected == p.selected + TakenBy(c, fate, declared)
  {
    hide Selected, Tokens, NothingMoreFits, SameSlice, SelectionReasons, Declared, ElementsAfter, TotalOf, WithMerged;
    CountAtTurn(mandatory, seen, fates, p, budget);
    var tokens := CountTokens(c.element);
    if p.tokenCount + tokens <= budget {
      fate := Appended;
      AppendStep(mandatory, seen, fates, p, c, Counted(c.element, tokens));
      LessSpace(mandatory, seen, fates, p.tokenCount, p.tokenCount + tokens, budget, c, fate);
      next := p.(elements := p.elements + [Counted(c.element, tokens)], categories := p.categories + [c.name],
                 selected := p.selected + [c.name], tokenCount := p.tokenCount + tokens);
    } else {
      fate := Discarded;
      var discard := Discard(c.name, tokens, SelectionReasons(c));
      DiscardStep(mandatory, seen, fates, p, c, discard);
      LessSpace(mandatory, seen, fates, p.tokenCount, p.tokenCount, budget, c, fate);
      next := p.(discarded := p.discarded + [discard]);
    }
  }

  /** The mandatory elements alone take this many tokens. */
  ghost predicate MandatoryNeeds(mandatory: seq<Candidate>, needed: nat) {
    exists elements: seq<Counted> ::
      && Priced(elements) && needed == SumTokens(elements) && |elements| == |mandatory|
      && forall i | 0 <= i < |elements| :: elements[i].element == mandatory[i].element
  }

  /** The selection loop of `build`: merge into the mandatory duplicate, append, or discard,
      whatever the space left allows. */
  method Select(mandatory: seq<Candidate>, optional: seq<Candidate>, declared: set<string>, budget: int)
    returns (result: Result<Package, Error>, ghost fates: seq<Fate>)
    ensures result.Ok? ==>
              && Accounted(mandatory, optional, fates, result.value, budget)
              && TurnsTaken(mandatory, optional, fates, result.value, budget)
              && NamesTaken(mandatory, optional, fates, declared, result.value)
    ensures result.Err? ==> result.error.needed > budget && MandatoryNeeds(mandatory, result.error.needed)
  {
    hide Tokens, WithMerged, AppendedOf, DiscardedOf, SelectionReasons;
    fates := [];
    var elements, categories := Price(mandatory);
    var total := Total(elements);
    if total > budget {
      PricedMandatory(mandatory, elements, categories);
      return Err(BudgetExceeded(total)), fates;
    }
    var index := IndexOf(mandatory);
    var p := Package(elements, categories, NamesOf(mandatory), [], total);
    assert NamesTaken(mandatory, [], [], declared, p) && TurnsTaken(mandatory, [], [], p, budget);
    hide Accounted, Selected, NamesTaken, TurnsTaken, TakesTurn, DuplicateOf;
    for k := 0 to |optional|
      invariant Accounted(mandatory, optional[..k], fates, p, budget)
      invariant |fates| == k && TurnsTaken(mandatory, optional[..k], fates, p, budget)
      invariant NamesTaken(mandatory, optional[..k], fates, declared, p)
    {
      var c := optional[k];
      assert optional[..k + 1] == optional[..k] + [c];
      ghost var fate, before := *, p;
      DuplicateIsIndexed(mandatory, index, c.element);
      if c.element.Slice? && c.element.identity in index {
        p, fate := OfferDuplicate(mandatory, optional[..k], fates, p, c, index[c.element.identity], declared,
                                  budget);
      } else {
        p, fate := Offer(mandatory, optional[..k], fates, p, c, declared, budget);
      }
      OneMoreTaken(mandatory, optional[..k], fates, declared, before, c, fate, p);
      OneMoreTurn(mandatory, optional[..k], fates, before, c, fate, p, budget);
      fates := fates + [fate];
    }
    assert optional[..|optional|] == optional;
    result := Ok(p);
  }

  lemma DuplicateIsIndexed(mandatory: seq<Candidate>, index: map<Identity, nat>, e: Element)
    requires Indices(mandatory, index)
    ensures DuplicateOf(mandatory, e) == if e.Slice? && e.identity in index then Some(index[e.identity]) else None
  {
    var at := DuplicateOf(mandatory, e);
    if at.Some? { assert mandatory[at.value] in mandatory; }
  }

  lemma PricedMandatory(mandatory: seq<Candidate>, elements: seq<Counted>, categories: seq<string>)
    requires Selected(mandatory, [], [], Package(elements, categories, [], [], SumTokens(elements)))
    ensures |elements| == |mandatory| && forall i | 0 <= i < |elements| :: elements[i].element == mandatory[i].element
  {
  }

  lemma SelectedCovers(mandatory: seq<Candidate>, optional: seq<Candidate>, fates: seq<Fate>, p: Package)
    requires Selected(mandatory, optional, fates, p)
    ensures |p.elements| >= |mandatory|
  {
  }

  /** What did not fit does not fit later, as the token count only grows. */
  lemma LessSpace(mandatory: seq<Candidate>, optional: seq<Candidate>, fates: seq<Fate>, before: nat, after: nat,
                  budget: int,
                  c: Candidate, fate: Fate)
    requires |fates| == |optional| && NothingMoreFits(mandatory, optional, fates, before, budget) && before <= after
    requires fate.Discarded? && (forall m | m in mandatory :: !SameSlice(m.element, c.element)) ==>
               after + Tokens(c.element) > budget
    ensures NothingMoreFits(mandatory, optional + [c], fates + [fate], after, budget)
  {
    hide Tokens, SameSlice;
  }
}
