/** Versioned references inside resource documents, and their replacement
    (src/aep/dogfood_runtime.py:186-201, src/aep/resource_loader.py:350-359). */
module ReplayReferences {
  import opened Wrappers
  import opened Resources

  /** A JSON value; `Scalar` holds the text of a number, Boolean or null. */
  datatype Json = Text(text: string) | Scalar(text: string) | List(items: seq<Json>) | Object(fields: map<string, Json>)

  /** Replaced references and what they are replaced by. */
  type Replacements = map<Ref, Ref>

  predicate IsText(v: Json) { v.Text? || v.Scalar? }

  /** The `kind`, `name` and `version` of a mapping, as `str` gives them.  A mapping or list in one
      of the three never spells a reference. */
  function Triple(fields: map<string, Json>): Option<Ref> {
    if "kind" in fields && "name" in fields && "version" in fields
       && IsText(fields["kind"]) && IsText(fields["name"]) && IsText(fields["version"])
    then Some(Ref(fields["kind"].text, fields["name"].text, fields["version"].text))
    else None
  }

  function WithTriple(fields: map<string, Json>, ref: Ref): map<string, Json> {
    fields["kind" := Text(ref.kind)]["name" := Text(ref.name)]["version" := Text(ref.version)]
  }

  function Substitute(ref: Ref, replacements: Replacements): Ref {
    if ref in replacements then replacements[ref] else ref
  }

  /** `_replace_versioned_refs`. */
  function ReplaceRefs(v: Json, replacements: Replacements): Json
    decreases v, 1
  {
    match v
    case Object(fields) =>
      var result := ReplaceFields(fields, replacements);
      var ref := Triple(result);
      if ref.Some? && ref.value in replacements then Object(WithTriple(result, replacements[ref.value]))
      else Object(result)
    case List(items) => List(seq(|items|, i requires 0 <= i < |items| => ReplaceRefs(items[i], replacements)))
    case _ => v
  }

  function ReplaceFields(fields: map<string, Json>, replacements: Replacements): (r: map<string, Json>)
    ensures r.Keys == fields.Keys
    decreases Object(fields), 0
  {
    map k | k in fields :: ReplaceRefs(fields[k], replacements)
  }

  /** Every mapping of the document that spells a reference, at any depth. */
  ghost predicate Spells(v: Json, ref: Ref) {
    match v
    case Object(fields) => Triple(fields) == Some(ref) || exists k | k in fields :: Spells(fields[k], ref)
    case List(items) => exists i | 0 <= i < |items| :: Spells(items[i], ref)
    case _ => false
  }

  /** `_find_resource_refs`: the mappings that are exactly a reference; those are not looked into. */
  ghost predicate Refers(v: Json, ref: Ref) {
    match v
    case Object(fields) =>
      if fields.Keys == {"kind", "name", "version"} then Triple(fields) == Some(ref)
      else exists k | k in fields :: Refers(fields[k], ref)
    case List(items) => exists i | 0 <= i < |items| :: Refers(items[i], ref)
    case _ => false
  }

  /** No replacement is itself replaced: all replacements of a kind and name agree on the version
      that stays (src/aep/dogfood_runtime.py:155-168). */
  predicate Settled(replacements: Replacements) {
    forall ref | ref in replacements :: replacements[ref] !in replacements
  }

  /** The fields of a replaced mapping. */
  lemma ReplacedObject(fields: map<string, Json>, replacements: Replacements)
    ensures
      var result := ReplaceFields(fields, replacements);
      ReplaceRefs(Object(fields), replacements) ==
      match Triple(fields)
      case Some(ref) => if ref in replacements then Object(WithTriple(result, replacements[ref])) else Object(result)
      case None => Object(result)
  {
  }

  /** Nothing but replaced references differs: the same lists in the same order, the same keys, and
      the same texts, except the three that spell a replaced reference. */
  ghost predicate IsRewritten(v: Json, w: Json, replacements: Replacements) {
    match v
    case Object(fields) =>
      && w.Object? && w.fields.Keys == fields.Keys
      && var ref := Triple(fields);
         if ref.Some? && ref.value in replacements then
           && Triple(w.fields) == Some(replacements[ref.value])
           && w.fields["kind"].Text? && w.fields["name"].Text? && w.fields["version"].Text?
           && forall k | k in fields && k !in {"kind", "name", "version"} ::
                IsRewritten(fields[k], w.fields[k], replacements)
         else forall k | k in fields :: IsRewritten(fields[k], w.fields[k], replacements)
    case List(items) =>
      && w.List? && |w.items| == |items|
      && forall i | 0 <= i < |items| :: IsRewritten(items[i], w.items[i], replacements)
    case _ => w == v
  }

  lemma {:induction false} RewritesExactly(v: Json, w: Json, replacements: Replacements)
    ensures IsRewritten(v, w, replacements) <==> w == ReplaceRefs(v, replacements)
  {
    match v {
      case Object(fields) =>
        ReplacedObject(fields, replacements);
        if w.Object? && w.fields.Keys == fields.Keys {
          forall k | k in fields
            ensures IsRewritten(fields[k], w.fields[k], replacements) <==>
                    w.fields[k] == ReplaceFields(fields, replacements)[k]
          {
            RewritesExactly(fields[k], w.fields[k], replacements);
          }
          FieldsExactly(fields, w.fields, replacements);
        }
      case List(items) =>
        if w.List? && |w.items| == |items| {
          forall i | 0 <= i < |items|
            ensures IsRewritten(items[i], w.items[i], replacements) <==>
                    w.items[i] == ReplaceRefs(items[i], replacements)
          {
            RewritesExactly(items[i], w.items[i], replacements);
          }
        }
      case _ =>
    }
  }

  /** Mappings with the three fields of a reference differ elsewhere or spell it as texts. */
  lemma TripleExactly(result: map<string, Json>, given: map<string, Json>, target: Ref)
    requires given.Keys == result.Keys && "kind" in result && "name" in result && "version" in result
    ensures given == WithTriple(result, target) <==>
            && Triple(given) == Some(target)
            && given["kind"].Text? && given["name"].Text? && given["version"].Text?
            && forall k | k in result && k !in {"kind", "name", "version"} :: given[k] == result[k]
  {
    var changed := WithTriple(result, target);
    assert changed.Keys == result.Keys;
    assert changed["kind"] == Text(target.kind) && changed["name"] == Text(target.name)
           && changed["version"] == Text(target.version);
    assert forall k | k in result && k !in {"kind", "name", "version"} :: changed[k] == result[k];
    hide WithTriple;
    if Triple(given) == Some(target) && given["kind"].Text? && given["name"].Text? && given["version"].Text?
       && forall k | k in result && k !in {"kind", "name", "version"} :: given[k] == result[k] {
      assert forall k | k in result :: given[k] == changed[k];
    }
  }

  lemma FieldsExactly(fields: map<string, Json>, given: map<string, Json>, replacements: Replacements)
    requires given.Keys == fields.Keys
    requires forall k | k in fields ::
               IsRewritten(fields[k], given[k], replacements) <==> given[k] == ReplaceFields(fields, replacements)[k]
    ensures IsRewritten(Object(fields), Object(given), replacements) <==>
            Object(given) == ReplaceRefs(Object(fields), replacements)
  {
    hide ReplaceFields, ReplaceRefs;
    ReplacedObject(fields, replacements);
    var result, ref := ReplaceFields(fields, replacements), Triple(fields);
    if ref.Some? && ref.value in replacements {
      var target := replacements[ref.value];
      TripleExactly(result, given, target);
    } else {
      assert given == result <==> forall k | k in fields :: given[k] == result[k];
    }
  }

  /** After the replacement no mapping of the document spells a replaced reference. */
  lemma {:induction false} NoReplacedRefIsLeft(v: Json, replacements: Replacements, ref: Ref)
    requires Settled(replacements) && ref in replacements
    ensures !Spells(ReplaceRefs(v, replacements), ref)
  {
    match v {
      case Object(fields) =>
        ReplacedObject(fields, replacements);
        forall k | k in fields ensures !Spells(ReplaceRefs(fields[k], replacements), ref) {
          NoReplacedRefIsLeft(fields[k], replacements, ref);
        }
        var result := ReplaceFields(fields, replacements);
        if Triple(fields).Some? && Triple(fields).value in replacements {
          var target := replacements[Triple(fields).value];
          assert Triple(WithTriple(result, target)) == Some(target);
        }
      case List(items) =>
        forall i | 0 <= i < |items| ensures !Spells(ReplaceRefs(items[i], replacements), ref) {
          NoReplacedRefIsLeft(items[i], replacements, ref);
        }
      case _ =>
    }
  }

  /** A document that spells no replaced reference is left as it is. */
  lemma {:induction false} NothingToReplace(v: Json, replacements: Replacements)
    requires forall ref | ref in replacements :: !Spells(v, ref)
    ensures ReplaceRefs(v, replacements) == v
  {
    match v {
      case Object(fields) =>
        ReplacedObject(fields, replacements);
        forall k | k in fields ensures ReplaceRefs(fields[k], replacements) == fields[k] {
          NothingToReplace(fields[k], replacements);
        }
        assert ReplaceFields(fields, replacements) == fields;
      case List(items) =>
        forall i | 0 <= i < |items| ensures ReplaceRefs(items[i], replacements) == items[i] {
          NothingToReplace(items[i], replacements);
        }
      case _ =>
    }
  }

  /** Rewriting a document again changes nothing. */
  lemma ReplacingTwiceIsReplacingOnce(v: Json, replacements: Replacements)
    requires Settled(replacements)
    ensures ReplaceRefs(ReplaceRefs(v, replacements), replacements) == ReplaceRefs(v, replacements)
  {
    forall ref | ref in replacements ensures !Spells(ReplaceRefs(v, replacements), ref) {
      NoReplacedRefIsLeft(v, replacements, ref);
    }
    NothingToReplace(ReplaceRefs(v, replacements), replacements);
  }

  /** The loader finds in the rewritten document exactly the substituted references, so that
      substituting in the list of references and in the document agree. */
  lemma {:induction false} RefsAreSubstituted(v: Json, replacements: Replacements, target: Ref)
    ensures Refers(ReplaceRefs(v, replacements), target) <==>
            exists ref :: Refers(v, ref) && Substitute(ref, replacements) == target
    decreases v, 1
  {
    match v {
      case Object(fields) =>
        ObjectRefsAreSubstituted(fields, replacements, target);
      case List(items) =>
        forall i | 0 <= i < |items|
          ensures Refers(ReplaceRefs(items[i], replacements), target) <==>
                  exists ref :: Refers(items[i], ref) && Substitute(ref, replacements) == target
        {
          RefsAreSubstituted(items[i], replacements, target);
        }
        var after := ReplaceRefs(v, replacements);
        assert forall i | 0 <= i < |items| :: after.items[i] == ReplaceRefs(items[i], replacements);
        if Refers(after, target) {
          var i :| 0 <= i < |items| && Refers(after.items[i], target);
          var ref :| Refers(items[i], ref) && Substitute(ref, replacements) == target;
          assert Refers(v, ref);
        }
        if ref :| Refers(v, ref) && Substitute(ref, replacements) == target {
          var i :| 0 <= i < |items| && Refers(items[i], ref);
          assert Refers(after.items[i], target);
        }
      case _ =>
    }
  }

  lemma {:induction false} ObjectRefsAreSubstituted(fields: map<string, Json>, replacements: Replacements, target: Ref)
    ensures Refers(ReplaceRefs(Object(fields), replacements), target) <==>
            exists ref :: Refers(Object(fields), ref) && Substitute(ref, replacements) == target
    decreases Object(fields), 0
  {
    var after := ReplaceRefs(Object(fields), replacements);
    ReplacedObject(fields, replacements);
    var result := ReplaceFields(fields, replacements);
    assert after.fields.Keys == fields.Keys;
    if fields.Keys == {"kind", "name", "version"} {
      if Triple(fields).Some? {
        var ref := Triple(fields).value;
        assert Triple(after.fields) == Some(Substitute(ref, replacements));
        assert Refers(Object(fields), ref);
      }
    } else {
      forall k | k in fields
        ensures Refers(after.fields[k], target) <==>
                exists ref :: Refers(fields[k], ref) && Substitute(ref, replacements) == target
      {
        RefsAreSubstituted(fields[k], replacements, target);
        if after.fields[k] != result[k] { assert IsText(fields[k]) && IsText(after.fields[k]); }
      }
      if Refers(after, target) {
        var k :| k in after.fields && Refers(after.fields[k], target);
        var ref :| Refers(fields[k], ref) && Substitute(ref, replacements) == target;
        assert Refers(Object(fields), ref);
      }
      if ref :| Refers(Object(fields), ref) && Substitute(ref, replacements) == target {
        var k :| k in fields && Refers(fields[k], ref);
        assert Refers(after.fields[k], target);
      }
    }
  }
}
