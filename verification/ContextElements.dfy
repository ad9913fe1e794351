/** Context elements and the size of their canonical JSON, which decides their token count
    (src/aep/context_builder.py:1353-1384, 1458-1487, 1588-1594, 1686-1693). */
module ContextElements {
  import opened Resources
  import opened Sums
  import opened Utf8

  /** What makes two slices of the repository the same. */
  datatype Identity = Identity(revision: string, snapshot: string, path: string, startLine: int, endLine: int,
                               symbol: string)

  type Path = seq<string>

  /** A slice of repository knowledge keeps its selection reasons, traversal paths and resource
      references as sorted lists without duplicates; `fixed` is the size of everything else in its
      JSON.  No other element has an identity. */
  datatype Element =
    | Slice(identity: Identity, fixed: nat, reasons: set<string>, paths: set<Path>, refs: set<Ref>)
    | Plain(body: string, size: nat)

  /** A candidate before it is given its selection reason. */
  datatype Found =
    | FoundSlice(identity: Identity, fixed: nat, path: Path, refs: set<Ref>)
    | FoundPlain(body: string, size: nat)

  // ---------------------------------------------------------------- sizes

  /** Bytes of one character inside a JSON string, escaped as `json.dumps` escapes it. */
  function CharBytes(c: char): nat {
    var n := c as int;
    if c == '\"' || c == '\\' || (8 <= n <= 13 && n != 11) then 2
    else if n < 0x20 then 6
    else Utf8Width(c)
  }

  function TextBytes(s: string): nat {
    if s == "" then 2 else CharBytes(s[0]) + TextBytes(s[1..])
  }

  function PathBytes(path: Path): nat {
    if path == [] then 2
    else if |path| == 1 then 2 + TextBytes(path[0])
    else TextBytes(path[0]) + 1 + PathBytes(path[1..])
  }

  function RefBytes(ref: Ref): nat {
    |"{'kind':,'name':,'version':}"| + TextBytes(ref.kind) + TextBytes(ref.name) + TextBytes(ref.version)
  }

  /** Brackets, items and the commas between them. */
  ghost function ListBytes<T>(items: set<T>, bytes: T -> nat): nat {
    2 + SumOver(items, bytes) + if items == {} then 0 else |items| - 1
  }

  ghost function Size(e: Element): nat {
    match e
    case Plain(_, size) => size
    case Slice(_, fixed, reasons, paths, refs) =>
      fixed + ListBytes(reasons, TextBytes) + ListBytes(paths, PathBytes) + ListBytes(refs, RefBytes)
  }

  function CeilingDiv(a: nat, b: nat): nat
    requires b > 0
  {
    (a + b - 1) / b
  }

  /** `max(1, ceil(bytes / 4))`. */
  ghost function Tokens(e: Element): (tokens: nat)
    ensures tokens >= 1
  {
    if Size(e) == 0 then 1 else CeilingDiv(Size(e), 4)
  }

  method CountTokens(e: Element) returns (tokens: nat)
    ensures tokens == Tokens(e)
  {
    var size;
    match e {
      case Plain(_, plain) => size := plain;
      case Slice(_, fixed, reasons, paths, refs) =>
        var reasonBytes := AddUp(reasons, TextBytes);
        var pathBytes := AddUp(paths, PathBytes);
        var refBytes := AddUp(refs, RefBytes);
        size := fixed + 6 + reasonBytes + (if reasons == {} then 0 else |reasons| - 1)
                + pathBytes + (if paths == {} then 0 else |paths| - 1)
                + refBytes + (if refs == {} then 0 else |refs| - 1);
        hide SumOver;
    }
    assert size == Size(e);
    hide Size;
    tokens := if size == 0 then 1 else CeilingDiv(size, 4);
  }

  // ---------------------------------------------------------------- merging

  /** `_with_selection_reason`. */
  function WithReason(found: Found, name: string): Element {
    match found
    case FoundSlice(identity, fixed, path, refs) => Slice(identity, fixed, {name}, {path}, refs)
    case FoundPlain(body, size) => Plain(body, size)
  }

  /** `_merge_duplicate`. */
  function Merge(surviving: Element, duplicate: Element): Element
    requires surviving.Slice? && duplicate.Slice?
  {
    surviving.(reasons := surviving.reasons + duplicate.reasons, paths := surviving.paths + duplicate.paths,
               refs := surviving.refs + duplicate.refs)
  }

  /** `later` is `earlier` with possibly more reasons, paths and references. */
  predicate Extends(later: Element, earlier: Element) {
    if later.Slice? && earlier.Slice? then
      && later.identity == earlier.identity && later.fixed == earlier.fixed
      && earlier.reasons <= later.reasons && earlier.paths <= later.paths && earlier.refs <= later.refs
    else later == earlier
  }

  lemma ListGrows<T>(small: set<T>, large: set<T>, bytes: T -> nat)
    requires small <= large
    ensures ListBytes(small, bytes) <= ListBytes(large, bytes)
  {
    SumOverGrows(small, large, bytes);
    CardinalityGrows(small, large);
  }

  lemma CardinalityGrows<T>(small: set<T>, large: set<T>)
    requires small <= large
    ensures |small| <= |large|
  {
    assert large == small + (large - small);
  }

  /** An element that only gained reasons, paths and references does not get cheaper, so that the
      clamped difference of the token counts is the true difference. */
  lemma ExtendingCostsNothingBack(later: Element, earlier: Element)
    requires Extends(later, earlier)
    ensures Tokens(earlier) <= Tokens(later)
  {
    if later.Slice? && earlier.Slice? {
      ListGrows(earlier.reasons, later.reasons, TextBytes);
      ListGrows(earlier.paths, later.paths, PathBytes);
      ListGrows(earlier.refs, later.refs, RefBytes);
    }
  }

}
