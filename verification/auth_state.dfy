/**
 * The suspended authentication state that the filter writes and the query engine
 * reads back and updates: the user's attributes and the `attributeaggregator:*` keys.
 */
module AuthState {
  import opened Wrappers
  import Php

  /** `$state['Attributes']`: attribute name to its ordered list of values. */
  type Attributes = map<string, seq<string>>

  /** `$state['Attributes'][$name]`: the values of an attribute, None when the key is absent. */
  function ValuesAt(attrs: Attributes, name: string): Option<seq<string>> {
    if name in attrs then Some(attrs[name]) else None
  }

  /** One entry of the configured request list: its optional `values` and `multiSource`. */
  datatype AttrSpec = AttrSpec(values: Option<seq<Php.Value>>, multiSource: Option<string>)

  /** The configured `attributes` list: attribute name to its entry, in configuration order. */
  type RequestList = seq<(string, AttrSpec)>

  /** No name occurs twice, as in any PHP array. */
  predicate DistinctNames<V>(list: seq<(string, V)>) {
    forall i, j :: 0 <= i < j < |list| ==> list[i].0 != list[j].0
  }

  predicate Named<V>(list: seq<(string, V)>, name: string) {
    exists i :: 0 <= i < |list| && list[i].0 == name
  }

  /** `array_key_exists($name, $expected)` and `$expected[$name]` together. */
  function SpecOf(list: RequestList, name: string): (r: Option<AttrSpec>)
    ensures r.Some? <==> Named(list, name)
    ensures r.Some? ==> exists i :: 0 <= i < |list| && list[i] == (name, r.value)
  {
    if list == [] then None
    else if list[0].0 == name then Some(list[0].1)
    else
      var r := SpecOf(list[1..], name);
      assert forall i :: 0 < i < |list| ==> list[i] == list[1..][i - 1];
      r
  }

  /** The six `attributeaggregator:*` keys the filter writes into the state. */
  datatype AggregatorData = AggregatorData(
    authsourceId: string,
    entityId: string,
    attributeId: Option<seq<string>>,
    nameIdFormat: string,
    attributes: RequestList,
    attributeNameFormat: string)

  class State {
    /** `$state['Attributes']` */
    var attributes: Attributes
    /** `$state['saml:sp:State']['saml:sp:AuthId']`, the SP authentication source */
    var spAuthId: string
    /** the `attributeaggregator:*` keys, absent until the filter has run */
    var aggregator: Option<AggregatorData>

    constructor (attributes: Attributes, spAuthId: string)
      ensures this.attributes == attributes && this.spAuthId == spAuthId && aggregator == None
    {
      this.attributes := attributes;
      this.spAuthId := spAuthId;
      aggregator := None;
    }
  }
}
