/**
 * How the attributes returned by the Attribute Authority are folded into
 * `$state['Attributes']` (public/attributequery.php, lines 148-185): the value an
 * attribute gets, the fold over the whole response, and what they guarantee.
 */
module AttributeMerge {
  import opened Wrappers
  import opened AuthState
  import Php

  /** The attributes of the first assertion, in the order the response lists them. */
  type Returned = seq<(string, seq<string>)>

  /** How the `multiSource` switch reads an expected attribute's entry. */
  datatype Policy =
    | NoPolicy               // missing or empty(): the default merge
    | OverridePolicy
    | KeepPolicy
    | MergePolicy
    | UnknownPolicy(p: string)  // accepted by the configuration check but matching no case

  /** The case the `switch` takes: a missing or empty() value is the default merge. */
  function PolicyOf(spec: AttrSpec): (p: Policy)
    ensures p == NoPolicy <==> spec.multiSource.None? || Php.EmptyString(spec.multiSource.value)
    ensures p == OverridePolicy <==> spec.multiSource == Some("override")
    ensures p == KeepPolicy <==> spec.multiSource == Some("keep")
    ensures p == MergePolicy <==> spec.multiSource == Some("merge")
    ensures p.UnknownPolicy? ==> spec.multiSource == Some(p.p)
  {
    match spec.multiSource
    case None => NoPolicy
    case Some(p) =>
      if Php.EmptyString(p) then NoPolicy
      else if p == "override" then OverridePolicy
      else if p == "keep" then KeepPolicy
      else if p == "merge" then MergePolicy
      else UnknownPolicy(p)
  }

  /**
   * The list an attribute holds after the Authority returned `returned` for it, given
   * what it held before and its entry in the request list (None: not requested).
   */
  function MergedValue(existing: Option<seq<string>>, spec: Option<AttrSpec>, returned: seq<string>): (r: seq<string>)
    ensures existing.None? ==> r == returned
    ensures r == returned || (existing.Some? && (r == existing.value || r == existing.value + returned))
  {
    match spec
    case None =>
      // unexpected: `!empty($state['Attributes'][$name])`
      if existing.Some? && existing.value != [] then existing.value + returned else returned
    case Some(s) =>
      // expected: `array_key_exists($name, $state['Attributes'])`
      if existing.None? then returned
      else match PolicyOf(s)
        case OverridePolicy => returned
        case KeepPolicy => existing.value
        case UnknownPolicy(_) => existing.value
        case MergePolicy => existing.value + returned
        case NoPolicy => existing.value + returned
  }

  /** One iteration of the loop: the returned attribute `name` is written into the set. */
  function Step(attrs: Attributes, expected: RequestList, name: string, values: seq<string>): Attributes {
    attrs[name := MergedValue(ValuesAt(attrs, name), SpecOf(expected, name), values)]
  }

  /** The whole loop: the returned attributes are processed in order. */
  function MergeAll(attrs: Attributes, expected: RequestList, returned: Returned): (r: Attributes)
    ensures attrs.Keys <= r.Keys
    decreases |returned|
  {
    if returned == [] then attrs
    else
      var last := returned[|returned| - 1];
      Step(MergeAll(attrs, expected, returned[..|returned| - 1]), expected, last.0, last.1)
  }

  /** The names the Authority returned. */
  function Names(returned: Returned): set<string> {
    set i | 0 <= i < |returned| :: returned[i].0
  }

  // ---- the value of one attribute ------------------------------------------

  /**
   * An attribute that was not requested is appended to whatever it held, an absent key
   * counting as an empty list: the `!empty` test on line 179 makes no difference.
   */
  lemma UnexpectedAttribute(existing: Option<seq<string>>, returned: seq<string>)
    ensures MergedValue(existing, None, returned)
         == (if existing.Some? then existing.value else []) + returned
  {
  }

  /** A requested attribute: created when absent, otherwise combined by its policy. */
  lemma ExpectedAttribute(existing: Option<seq<string>>, spec: AttrSpec, returned: seq<string>)
    ensures existing.None? ==> MergedValue(existing, Some(spec), returned) == returned
    ensures existing.Some? && PolicyOf(spec) == OverridePolicy
      ==> MergedValue(existing, Some(spec), returned) == returned
    ensures existing.Some? && (PolicyOf(spec) == KeepPolicy || PolicyOf(spec).UnknownPolicy?)
      ==> MergedValue(existing, Some(spec), returned) == existing.value
    ensures existing.Some? && (PolicyOf(spec) == MergePolicy || PolicyOf(spec) == NoPolicy)
      ==> MergedValue(existing, Some(spec), returned) == existing.value + returned
  {
  }

  /** Merging keeps every value of both sides, duplicates included, and nothing else. */
  lemma MergeKeepsDuplicates(existing: seq<string>, spec: Option<AttrSpec>, returned: seq<string>)
    requires spec.None? || PolicyOf(spec.value) == MergePolicy || PolicyOf(spec.value) == NoPolicy
    ensures multiset(MergedValue(Some(existing), spec, returned)) == multiset(existing) + multiset(returned)
    ensures |MergedValue(Some(existing), spec, returned)| == |existing| + |returned|
  {
  }

  /**
   * `keep` treats a present but empty list as existing, so it stays empty, while an
   * unexpected attribute holding an empty list takes the returned values.
   */
  lemma KeepOnEmptyList(spec: AttrSpec, returned: seq<string>)
    requires PolicyOf(spec) == KeepPolicy && returned != []
    ensures MergedValue(Some([]), Some(spec), returned) == []
    ensures MergedValue(Some([]), None, returned) == returned
  {
  }

  /**
   * The regular expression of the configuration check admits a trailing newline, and
   * such a value matches no case of the switch: a present attribute is left as it is.
   */
  lemma TrailingNewlinePolicy(existing: seq<string>, returned: seq<string>)
    ensures PolicyOf(AttrSpec(None, Some("merge\n"))).UnknownPolicy?
    ensures MergedValue(Some(existing), Some(AttrSpec(None, Some("override\n"))), returned) == existing
  {
  }

  // ---- the whole loop -------------------------------------------------------

  /** The key set afterwards is the old one plus the returned names. */
  lemma {:induction false} MergeAllKeys(attrs: Attributes, expected: RequestList, returned: Returned)
    ensures MergeAll(attrs, expected, returned).Keys == attrs.Keys + Names(returned)
    decreases |returned|
  {
    if returned != [] {
      var init := returned[..|returned| - 1];
      MergeAllKeys(attrs, expected, init);
      assert Names(returned) == Names(init) + {returned[|returned| - 1].0} by {
        forall n | n in Names(returned) ensures n in Names(init) + {returned[|returned| - 1].0} {
          var i :| 0 <= i < |returned| && returned[i].0 == n;
          if i < |returned| - 1 { assert init[i] == returned[i]; }
        }
        forall n | n in Names(init) ensures n in Names(returned) {
          var i :| 0 <= i < |init| && init[i].0 == n;
          assert returned[i] == init[i];
        }
      }
    }
  }

  /** An attribute the Authority did not return keeps its key and its values. */
  lemma {:induction false} MergeAllFrame(attrs: Attributes, expected: RequestList, returned: Returned, name: string)
    requires forall i :: 0 <= i < |returned| ==> returned[i].0 != name
    ensures ValuesAt(MergeAll(attrs, expected, returned), name) == ValuesAt(attrs, name)
    decreases |returned|
  {
    if returned != [] {
      var init := returned[..|returned| - 1];
      assert forall i :: 0 <= i < |init| ==> init[i] == returned[i];
      MergeAllFrame(attrs, expected, init, name);
    }
  }

  /**
   * When the response names each attribute once, every returned attribute ends up
   * holding exactly the per-attribute merge of its old values and the returned ones.
   */
  lemma {:induction false} MergeAllAt(attrs: Attributes, expected: RequestList, returned: Returned, k: nat)
    requires DistinctNames(returned) && k < |returned|
    ensures returned[k].0 in MergeAll(attrs, expected, returned)
    ensures MergeAll(attrs, expected, returned)[returned[k].0]
         == MergedValue(ValuesAt(attrs, returned[k].0), SpecOf(expected, returned[k].0), returned[k].1)
  {
    var n := |returned|;
    var init := returned[..n - 1];
    assert forall i :: 0 <= i < |init| ==> init[i] == returned[i];
    if k == n - 1 {
      MergeAllFrame(attrs, expected, init, returned[k].0);
    } else {
      MergeAllAt(attrs, expected, init, k);
    }
  }

  /** The worked examples: `merge` and `override` on mail, and a new unexpected attribute. */
  lemma Examples()
    ensures MergeAll(map["mail" := ["a@x.org"]], [("mail", AttrSpec(None, Some("merge")))], [("mail", ["b@y.org"])])
         == map["mail" := ["a@x.org", "b@y.org"]]
    ensures MergeAll(map["mail" := ["a@x.org"]], [("mail", AttrSpec(None, Some("override")))], [("mail", ["b@y.org"])])
         == map["mail" := ["b@y.org"]]
    ensures MergeAll(map["mail" := ["a@x.org"]], [], [("eduPersonEntitlement", ["role1"])])
         == map["mail" := ["a@x.org"], "eduPersonEntitlement" := ["role1"]]
  {
    var one: Returned := [("mail", ["b@y.org"])];
    assert one[..0] == [];
    assert ["a@x.org"] + ["b@y.org"] == ["a@x.org", "b@y.org"];
    var other: Returned := [("eduPersonEntitlement", ["role1"])];
    assert other[..0] == [];
  }
}
