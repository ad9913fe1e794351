/** References to versioned Resources, their order by kind, name and version, and sorting by it. */
module Resources {
  import opened Wrappers

  datatype Ref = Ref(kind: string, name: string, version: string)

  /** Python's order on strings: by code points, a prefix first. */
  predicate TextAtMost(a: string, b: string) {
    a == "" || (b != "" && (a[0] < b[0] || (a[0] == b[0] && TextAtMost(a[1..], b[1..]))))
  }

  lemma {:induction false} TextOrderIsTotal(a: string, b: string)
    ensures TextAtMost(a, b) || TextAtMost(b, a)
    ensures TextAtMost(a, b) && TextAtMost(b, a) ==> a == b
    decreases |a|
  {
    if a != "" && b != "" && a[0] == b[0] {
      TextOrderIsTotal(a[1..], b[1..]);
      assert a == [a[0]] + a[1..] && b == [b[0]] + b[1..];
    }
  }

  lemma {:induction false} TextOrderIsTransitive(a: string, b: string, c: string)
    requires TextAtMost(a, b) && TextAtMost(b, c)
    ensures TextAtMost(a, c)
    decreases |a|
  {
    if a != "" && b != "" && c != "" && a[0] == b[0] == c[0] { TextOrderIsTransitive(a[1..], b[1..], c[1..]); }
  }

  predicate AtMost(a: Ref, b: Ref) {
    if a.kind != b.kind then TextAtMost(a.kind, b.kind)
    else if a.name != b.name then TextAtMost(a.name, b.name)
    else TextAtMost(a.version, b.version)
  }

  lemma OrderIsTotal(a: Ref, b: Ref)
    ensures AtMost(a, b) || AtMost(b, a)
    ensures AtMost(a, b) && AtMost(b, a) ==> a == b
  {
    TextOrderIsTotal(a.kind, b.kind);
    TextOrderIsTotal(a.name, b.name);
    TextOrderIsTotal(a.version, b.version);
  }

  lemma OrderIsTransitive(a: Ref, b: Ref, c: Ref)
    requires AtMost(a, b) && AtMost(b, c)
    ensures AtMost(a, c)
  {
    TextOrderIsTotal(a.kind, b.kind);
    TextOrderIsTotal(a.name, b.name);
    if TextAtMost(a.kind, b.kind) && TextAtMost(b.kind, c.kind) { TextOrderIsTransitive(a.kind, b.kind, c.kind); }
    if TextAtMost(a.name, b.name) && TextAtMost(b.name, c.name) { TextOrderIsTransitive(a.name, b.name, c.name); }
    if TextAtMost(a.version, b.version) && TextAtMost(b.version, c.version) {
      TextOrderIsTransitive(a.version, b.version, c.version);
    }
  }

  /** The first difference decides, and nothing comes before everything. */
  ghost predicate ComesBefore(a: string, b: string) {
    exists k: nat :: IsFirstDifference(a, b, k) && (k == |a| || a[k] < b[k])
  }

  predicate IsFirstDifference(a: string, b: string, k: nat) {
    k <= |a| && k < |b| && a[..k] == b[..k] && (k < |a| ==> a[k] != b[k])
  }

  lemma DifferenceLater(a: string, b: string, k: nat)
    requires a != "" && b != "" && a[0] == b[0]
    ensures IsFirstDifference(a[1..], b[1..], k) <==> IsFirstDifference(a, b, k + 1)
  {
    var c, d := a[1..], b[1..];
    if k <= |c| && k < |d| {
      assert a[..k + 1] == [a[0]] + c[..k] && b[..k + 1] == [b[0]] + d[..k];
      assert a[..k + 1] == b[..k + 1] ==> c[..k] == a[..k + 1][1..] && d[..k] == b[..k + 1][1..];
    }
  }

  lemma DifferenceFirst(a: string, b: string, k: nat)
    requires IsFirstDifference(a, b, k)
    ensures k > 0 ==> a != "" && b != "" && a[0] == b[0]
  {
    if k > 0 { assert a[..k][0] == b[..k][0]; }
  }

  lemma {:induction false} TextOrderExactly(a: string, b: string)
    ensures TextAtMost(a, b) <==> a == b || ComesBefore(a, b)
    decreases |a|
  {
    if a == "" || b == "" || a[0] != b[0] {
      assert b != "" ==> IsFirstDifference(a, b, 0);
      forall k: nat | IsFirstDifference(a, b, k) ensures k == 0 { DifferenceFirst(a, b, k); }
    } else {
      var c, d := a[1..], b[1..];
      TextOrderExactly(c, d);
      assert a == [a[0]] + c && b == [b[0]] + d;
      forall k: nat ensures IsFirstDifference(c, d, k) <==> IsFirstDifference(a, b, k + 1) { DifferenceLater(a, b, k); }
      hide IsFirstDifference;
      OneLater(a, b);
    }
  }

  lemma OneLater(a: string, b: string)
    requires a != "" && b != "" && a[0] == b[0]
    requires forall k: nat :: IsFirstDifference(a[1..], b[1..], k) <==> IsFirstDifference(a, b, k + 1)
    ensures ComesBefore(a, b) <==> ComesBefore(a[1..], b[1..])
  {
    if k: nat :| IsFirstDifference(a, b, k) && (k == |a| || a[k] < b[k]) {
      assert IsFirstDifference(a[1..], b[1..], k - 1);
    }
    if k: nat :| IsFirstDifference(a[1..], b[1..], k) && (k == |a[1..]| || a[1..][k] < b[1..][k]) {
      assert IsFirstDifference(a, b, k + 1);
    }
  }

  /** References are ordered by their kinds, then by their names, then by their versions. */
  lemma OrderExactly(a: Ref, b: Ref)
    ensures AtMost(a, b) <==>
              || a == b || ComesBefore(a.kind, b.kind)
              || (a.kind == b.kind && ComesBefore(a.name, b.name))
              || (a.kind == b.kind && a.name == b.name && ComesBefore(a.version, b.version))
  {
    TextOrderExactly(a.kind, b.kind);
    TextOrderExactly(a.name, b.name);
    TextOrderExactly(a.version, b.version);
    NeverBeforeItself(a.kind);
    NeverBeforeItself(a.name);
    NeverBeforeItself(a.version);
    hide ComesBefore, TextAtMost;
  }

  lemma NeverBeforeItself(text: string)
    ensures !ComesBefore(text, text)
  {
  }

  ghost predicate Sorted(refs: seq<Ref>) {
    forall i, j | 0 <= i < j < |refs| :: AtMost(refs[i], refs[j])
  }

  function Insert(ref: Ref, refs: seq<Ref>): seq<Ref> {
    if refs == [] then [ref]
    else if AtMost(ref, refs[0]) then [ref] + refs
    else [refs[0]] + Insert(ref, refs[1..])
  }

  function Sort(refs: seq<Ref>): seq<Ref> {
    if refs == [] then [] else Insert(refs[0], Sort(refs[1..]))
  }

  lemma {:induction false} InsertKeeps(ref: Ref, refs: seq<Ref>)
    ensures multiset(Insert(ref, refs)) == multiset(refs) + multiset{ref}
    decreases |refs|
  {
    hide AtMost;
    if refs != [] {
      assert refs == [refs[0]] + refs[1..];
      InsertKeeps(ref, refs[1..]);
    }
  }

  lemma {:induction false} InsertSorts(ref: Ref, refs: seq<Ref>)
    requires Sorted(refs)
    ensures Sorted(Insert(ref, refs))
    decreases |refs|
  {
    hide AtMost;
    if refs != [] {
      OrderIsTotal(ref, refs[0]);
      if AtMost(ref, refs[0]) {
        forall x | x in refs ensures AtMost(ref, x) {
          FirstIsLeast(refs, x);
          OrderIsTransitive(ref, refs[0], x);
        }
      } else {
        var rest := Insert(ref, refs[1..]);
        InsertSorts(ref, refs[1..]);
        InsertKeeps(ref, refs[1..]);
        forall x | x in rest ensures AtMost(refs[0], x) {
          assert x in multiset(rest);
          if x != ref {
            assert x in refs[1..] && x in refs;
            FirstIsLeast(refs, x);
          }
        }
      }
    }
  }

  /** Sorting permutes and sorts. */
  lemma {:induction false} SortSorts(refs: seq<Ref>)
    ensures multiset(Sort(refs)) == multiset(refs) && Sorted(Sort(refs))
    decreases |refs|
  {
    if refs != [] {
      assert refs == [refs[0]] + refs[1..];
      SortSorts(refs[1..]);
      InsertKeeps(refs[0], Sort(refs[1..]));
      InsertSorts(refs[0], Sort(refs[1..]));
    }
  }

  lemma FirstIsLeast(refs: seq<Ref>, x: Ref)
    requires Sorted(refs) && x in refs
    ensures AtMost(refs[0], x)
  {
    var i :| 0 <= i < |refs| && refs[i] == x;
    OrderIsTotal(x, x);
  }

  /** There is one sorted arrangement of the same references. */
  lemma {:induction false} SortedIsUnique(a: seq<Ref>, b: seq<Ref>)
    requires Sorted(a) && Sorted(b) && multiset(a) == multiset(b)
    ensures a == b
    decreases |a|
  {
    hide AtMost;
    assert |multiset(a)| == |a| && |multiset(b)| == |b|;
    if a != [] {
      assert a[0] in multiset(b) && b[0] in multiset(a);
      FirstIsLeast(b, a[0]);
      FirstIsLeast(a, b[0]);
      OrderIsTotal(a[0], b[0]);
      assert a == [a[0]] + a[1..] && b == [b[0]] + b[1..];
      assert multiset(a[1..]) == multiset(a) - multiset{a[0]};
      assert multiset(b[1..]) == multiset(b) - multiset{b[0]};
      SortedIsUnique(a[1..], b[1..]);
    }
  }

  lemma {:induction false} CountsOnce(refs: seq<Ref>)
    requires NoDuplicates(refs)
    ensures forall r :: multiset(refs)[r] <= 1
    decreases |refs|
  {
    if refs != [] {
      assert refs == [refs[0]] + refs[1..];
      CountsOnce(refs[1..]);
      forall i | 0 <= i < |refs[1..]| ensures refs[1..][i] != refs[0] {}
      assert refs[0] !in multiset(refs[1..]);
    }
  }

  /** A permutation of distinct references has none twice. */
  lemma DuplicatesCount(a: seq<Ref>, b: seq<Ref>)
    requires NoDuplicates(a) && multiset(a) == multiset(b)
    ensures NoDuplicates(b)
  {
    CountsOnce(a);
    forall i, j | 0 <= i < j < |b| ensures b[i] != b[j] {
      assert b == b[..j] + b[j..];
      assert b[i] in multiset(b[..j]) && b[j] in multiset(b[j..]);
      assert multiset(b)[b[i]] == multiset(b[..j])[b[i]] + multiset(b[j..])[b[i]];
    }
  }
}
