/** The finished ContextPackage: what deduplication and selection guarantee together, and the token
    breakdown (src/aep/context_builder.py:789-895, 1387-1423, 1505-1513). */
module ContextPackage {
  import opened Wrappers
  import opened Sums
  import opened ContextElements
  import opened ContextSelection

  // ---------------------------------------------------------------- breakdown

  datatype Entry = Entry(elementCount: nat, tokenCount: nat)

  /** Elements and tokens of one category. */
  function EntryOf(category: string, categories: seq<string>, elements: seq<Counted>): Entry
    requires |categories| == |elements|
  {
    if elements == [] then Entry(0, 0)
    else
      var n := |elements| - 1;
      var earlier := EntryOf(category, categories[..n], elements[..n]);
      if categories[n] == category then Entry(earlier.elementCount + 1, earlier.tokenCount + elements[n].tokens)
      else earlier
  }

  /** The breakdown has every category that occurs, and no other. */
  ghost predicate BreaksDown(breakdown: map<string, Entry>, categories: seq<string>, elements: seq<Counted>) {
    && |categories| == |elements|
    && (forall c :: c in breakdown <==> c in categories)
    && (forall c | c in breakdown :: breakdown[c] == EntryOf(c, categories, elements))
  }

  lemma {:induction false} AbsentCategory(categories: seq<string>, elements: seq<Counted>, c: string)
    requires |categories| == |elements| && c !in categories
    ensures EntryOf(c, categories, elements) == Entry(0, 0)
    decreases |elements|
  {
    if elements != [] { AbsentCategory(categories[..|elements| - 1], elements[..|elements| - 1], c); }
  }

  /** `_token_breakdown`; the order of its keys is not part of the model. */
  method TokenBreakdown(categories: seq<string>, elements: seq<Counted>) returns (breakdown: map<string, Entry>)
    requires |categories| == |elements|
    ensures BreaksDown(breakdown, categories, elements)
  {
    breakdown := map[];
    for i := 0 to |elements|
      invariant BreaksDown(breakdown, categories[..i], elements[..i])
    {
      var category := categories[i];
      assert categories[..i + 1] == categories[..i] + [category] && elements[..i + 1] == elements[..i] + [elements[i]];
      forall c ensures EntryOf(c, categories[..i + 1], elements[..i + 1]) ==
                       var earlier := EntryOf(c, categories[..i], elements[..i]);
                       if category == c then Entry(earlier.elementCount + 1, earlier.tokenCount + elements[i].tokens)
                           else earlier
      {
      }
      if category !in breakdown { AbsentCategory(categories[..i], elements[..i], category); }
      var entry := if category in breakdown then breakdown[category] else Entry(0, 0);
      breakdown := breakdown[category := Entry(entry.elementCount + 1, entry.tokenCount + elements[i].tokens)];
    }
    assert categories[..|elements|] == categories && elements[..|elements|] == elements;
  }

  ghost function TokensAt(elements: seq<Counted>): int -> nat {
    i => if 0 <= i < |elements| then elements[i].tokens else 0
  }

  /** Where the elements of a category are. */
  ghost function PositionsOf(category: string, categories: seq<string>): set<int> {
    set i | 0 <= i < |categories| && categories[i] == category
  }

  lemma LastPosition(category: string, categories: seq<string>)
    requires categories != []
    ensures
      var n := |categories| - 1;
      var earlier := PositionsOf(category, categories[..n]);
      && n !in earlier && (forall i | i in earlier :: 0 <= i < n)
      && PositionsOf(category, categories) == if categories[n] == category then earlier + {n} else earlier
  {
  }

  /** An entry counts the elements of its category, and adds up their tokens. */
  lemma {:induction false} EntryExactly(category: string, categories: seq<string>, elements: seq<Counted>)
    requires |categories| == |elements|
    ensures
      var entry, positions := EntryOf(category, categories, elements), PositionsOf(category, categories);
      entry.elementCount == |positions| && entry.tokenCount == SumOver(positions, TokensAt(elements))
    decreases |elements|
  {
    if elements != [] {
      var n := |elements| - 1;
      var earlier := PositionsOf(category, categories[..n]);
      EntryExactly(category, categories[..n], elements[..n]);
      LastPosition(category, categories);
      SumOverSame(earlier, TokensAt(elements[..n]), TokensAt(elements));
      if categories[n] == category {
        SumOverTakes(earlier + {n}, n, TokensAt(elements));
        assert earlier + {n} - {n} == earlier;
      }
    }
    hide SumOver, PositionsOf;
  }

  ghost function TokensOf(categories: seq<string>, elements: seq<Counted>): string -> nat
    requires |categories| == |elements|
  {
    c => EntryOf(c, categories, elements).tokenCount
  }

  /** The token counts of the categories add up to those of the elements. */
  lemma {:induction false} CategoriesAddUp(names: set<string>, categories: seq<string>, elements: seq<Counted>)
    requires |categories| == |elements| && forall c | c in categories :: c in names
    ensures SumOver(names, TokensOf(categories, elements)) == SumTokens(elements)
    decreases |elements|
  {
    if elements == [] {
      NothingAddsUp(names, TokensOf(categories, elements));
    } else {
      var n := |elements| - 1;
      var front, last := categories[..n], categories[n];
      assert categories == front + [last] && elements == elements[..n] + [elements[n]];
      assert forall c | c in front :: c in categories;
      CategoriesAddUp(names, front, elements[..n]);
      var before, after := TokensOf(front, elements[..n]), TokensOf(categories, elements);
      SumOverTakes(names, last, before);
      SumOverTakes(names, last, after);
      SumOverSame(names - {last}, before, after);
    }
  }

  lemma {:induction false} NothingAddsUp(names: set<string>, weight: string -> nat)
    requires forall c :: weight(c) == 0
    ensures SumOver(names, weight) == 0
    decreases |names|
  {
    if names != {} {
      var c :| c in names;
      SumOverTakes(names, c, weight);
      NothingAddsUp(names - {c}, weight);
    }
  }

  // ---------------------------------------------------------------- identities

  lemma {:induction false} AppendedIsOptional(optional: seq<Candidate>, fates: seq<Fate>, c: Candidate)
    requires |optional| == |fates| && c in AppendedOf(optional, fates)
    ensures exists k :: 0 <= k < |optional| && optional[k] == c && fates[k].Appended?
    decreases |optional|
  {
    var n := |optional| - 1;
    if c in AppendedOf(optional[..n], fates[..n]) {
      AppendedIsOptional(optional[..n], fates[..n], c);
      var k :| 0 <= k < n && optional[..n][k] == c && fates[..n][k].Appended?;
      assert optional[k] == c && fates[k].Appended?;
    } else {
      assert optional[n] == c && fates[n].Appended?;
    }
  }

  lemma {:induction false} AppendedStayDistinct(optional: seq<Candidate>, fates: seq<Fate>)
    requires |optional| == |fates| && Distinct(optional)
    ensures Distinct(AppendedOf(optional, fates))
    decreases |optional|
  {
    if optional != [] {
      var n := |optional| - 1;
      AppendedStayDistinct(optional[..n], fates[..n]);
      var front := AppendedOf(optional[..n], fates[..n]);
      forall i | 0 <= i < |front| && front[i].element.Slice? && optional[n].element.Slice?
        ensures front[i].element.identity != optional[n].element.identity
      {
        AppendedIsOptional(optional[..n], fates[..n], front[i]);
      }
    }
  }

  /** Repository slices of the package have pairwise distinct identities. */
  ghost predicate DistinctElements(elements: seq<Counted>) {
    forall i, j | 0 <= i < j < |elements| :: !SameSlice(elements[i].element, elements[j].element)
  }

  lemma SelectionIsDistinct(mandatory: seq<Candidate>, optional: seq<Candidate>, fates: seq<Fate>, p: Package)
    requires Distinct(mandatory) && Distinct(optional) && Selected(mandatory, optional, fates, p)
    ensures DistinctElements(p.elements)
  {
    AppendedStayDistinct(optional, fates);
    var appended, m := AppendedOf(optional, fates), |mandatory|;
    forall i, j | 0 <= i < j < |p.elements| ensures !SameSlice(p.elements[i].element, p.elements[j].element) {
      if i < m { WithMergedExtends(mandatory[i].element, i, optional, fates); }
      if j < m {
        WithMergedExtends(mandatory[j].element, j, optional, fates);
      } else {
        assert p.elements[j].element == appended[j - m].element;
        if i < m {
          AppendedIsOptional(optional, fates, appended[j - m]);
          assert !SameSlice(mandatory[i].element, appended[j - m].element) by { assert mandatory[i] in mandatory; }
        } else {
          assert p.elements[i].element == appended[i - m].element;
        }
      }
    }
  }

  // ---------------------------------------------------------------- the package

  datatype Truncation = Pruned | Whole

  datatype Published = Published(package: Package, breakdown: map<string, Entry>, truncation: Truncation)

  /** What holds of every package the builder publishes. */
  ghost predicate IsPublished(mandatory: seq<(string, Found)>, optional: seq<(string, Found)>, declared: set<string>,
                              budget: int, published: Published, uniqueMandatory: seq<Candidate>,
                              uniqueOptional: seq<Candidate>, fates: seq<Fate>) {
    var p, breakdown := published.package, published.breakdown;
    && Deduplicated(mandatory, uniqueMandatory) && Deduplicated(optional, uniqueOptional)
    && InOrder(mandatory, uniqueMandatory) && InOrder(optional, uniqueOptional)
    && Accounted(uniqueMandatory, uniqueOptional, fates, p, budget)
    && TurnsTaken(uniqueMandatory, uniqueOptional, fates, p, budget)
    && NamesTaken(uniqueMandatory, uniqueOptional, fates, declared, p)
    && DistinctElements(p.elements)
    && BreaksDown(breakdown, p.categories, p.elements)
    && SumOver(breakdown.Keys, TokensOf(p.categories, p.elements)) == p.tokenCount <= budget
    && (forall i | 0 <= i < |uniqueMandatory| :: Extends(p.elements[i].element, uniqueMandatory[i].element))
    && (published.truncation == Pruned <==> exists k :: 0 <= k < |fates| && fates[k].Discarded?)
  }

  lemma {:induction false} DiscardsAreFates(optional: seq<Candidate>, fates: seq<Fate>)
    requires |optional| == |fates|
    ensures DiscardedOf(optional, fates) != [] <==> exists k :: 0 <= k < |fates| && fates[k].Discarded?
    decreases |fates|
  {
    if fates != [] {
      var n := |fates| - 1;
      DiscardsAreFates(optional[..n], fates[..n]);
      if k :| 0 <= k < |fates| && fates[k].Discarded? && k < n { assert fates[..n][k].Discarded?; }
    }
  }

  /** Deduplication, selection and accounting of `ContextBuilder.build`; `declared` is the optional
      context of the Task. */
  method Build(mandatory: seq<(string, Found)>, optional: seq<(string, Found)>, declared: set<string>, budget: int)
    returns (result: Result<Published, Error>, ghost uniqueMandatory: seq<Candidate>,
             ghost uniqueOptional: seq<Candidate>, ghost fates: seq<Fate>)
    ensures result.Ok? ==>
              IsPublished(mandatory, optional, declared, budget, result.value, uniqueMandatory, uniqueOptional, fates)
    ensures result.Err? ==>
              && Deduplicated(mandatory, uniqueMandatory) && InOrder(mandatory, uniqueMandatory)
              && result.error.needed > budget && MandatoryNeeds(uniqueMandatory, result.error.needed)
    ensures result.Ok? ==>
              && DistinctElements(result.value.package.elements)
              && BreaksDown(result.value.breakdown, result.value.package.categories, result.value.package.elements)
              && result.value.package.tokenCount <= budget
  {
    hide Deduplicated, InOrder, TurnsTaken, MandatoryNeeds, Selected, NamesTaken, Priced, NothingMoreFits, SumTokens;
    var required := Deduplicate(mandatory);
    var offered := Deduplicate(optional);
    uniqueMandatory, uniqueOptional := required, offered;
    var selection, became := Select(required, offered, declared, budget);
    fates := became;
    if selection.Err? { return Err(selection.error), uniqueMandatory, uniqueOptional, fates; }
    var p := selection.value;
    PackageIsSound(mandatory, optional, required, offered, fates, p);
    var breakdown := TokenBreakdown(p.categories, p.elements);
    CategoriesAddUp(breakdown.Keys, p.categories, p.elements);
    result := Ok(Published(p, breakdown, if p.discarded != [] then Pruned else Whole));
  }

  lemma PackageIsSound(mandatory: seq<(string, Found)>, optional: seq<(string, Found)>, required: seq<Candidate>,
                       offered: seq<Candidate>, fates: seq<Fate>, p: Package)
    requires Deduplicated(mandatory, required) && Deduplicated(optional, offered)
    requires Selected(required, offered, fates, p)
    ensures |p.categories| == |p.elements| && |required| <= |p.elements|
    ensures DistinctElements(p.elements)
    ensures forall i | 0 <= i < |required| :: Extends(p.elements[i].element, required[i].element)
    ensures p.discarded != [] <==> exists k :: 0 <= k < |fates| && fates[k].Discarded?
  {
    DiscardsAreFates(offered, fates);
    SelectionIsDistinct(required, offered, fates, p);
    forall i | 0 <= i < |required| ensures Extends(p.elements[i].element, required[i].element) {
      WithMergedExtends(required[i].element, i, offered, fates);
    }
  }
}
