/**
 * The attribute-query entry point (public/attributequery.php): resolve the Authority's
 * metadata, choose its SOAP endpoint, build the NameID and the requested attribute
 * list, sign and send the AttributeQuery, check the response and merge its attributes
 * into the suspended state. Signing, sending and response processing are oracles.
 */
module QueryEngine {
  import opened Wrappers
  import opened Errors
  import opened AuthState
  import opened AttributeMerge
  import opened Metadata
  import Php

  /** NameIDType (section 2.2.2 of SAML 2.0 Core); an absent qualifier is None. */
  datatype NameId = NameId(value: string, format: string, nameQualifier: Option<string>, spNameQualifier: Option<string>)

  /** An empty() qualifier is set to null rather than to the empty string. */
  function Qualifier(q: string): (r: Option<string>)
    ensures r.None? <==> Php.EmptyString(q)
    ensures r.Some? ==> r.value == q
  {
    if Php.EmptyString(q) then None else Some(q)
  }

  /** The NameID of lines 101-112: value and format as given, empty() qualifiers absent. */
  function MakeNameId(value: string, format: string, nameQualifier: string, spNameQualifier: string): (n: NameId)
    ensures n.value == value && n.format == format
    ensures n.nameQualifier.None? <==> Php.EmptyString(nameQualifier)
    ensures n.spNameQualifier.None? <==> Php.EmptyString(spNameQualifier)
    ensures n.nameQualifier.Some? ==> n.nameQualifier.value == nameQualifier
    ensures n.spNameQualifier.Some? ==> n.spNameQualifier.value == spNameQualifier
  {
    NameId(value, format, Qualifier(nameQualifier), Qualifier(spNameQualifier))
  }

  /** The requested attributes: attribute name to the values asked for, in order. */
  type Requested = seq<(string, seq<Php.Value>)>

  /** Entry i is the first one named `key`. */
  predicate FirstNamed<V>(a: seq<(string, V)>, key: string, i: int) {
    0 <= i < |a| && a[i].0 == key && forall j :: 0 <= j < i ==> a[j].0 != key
  }

  /**
   * `$array[$key] = $value` on an ordered array: a new key is appended at the end, and
   * an existing key has its entry replaced where it stands, the order kept.
   */
  function Put<V>(a: seq<(string, V)>, key: string, v: V): (r: seq<(string, V)>)
    ensures !Named(a, key) ==> r == a + [(key, v)]
    ensures Named(a, key) ==> exists i :: FirstNamed(a, key, i) && r == a[i := (key, v)]
  {
    if a == [] then [(key, v)]
    else if a[0].0 == key then
      assert FirstNamed(a, key, 0);
      assert [(key, v)] + a[1..] == a[0 := (key, v)];
      [(key, v)] + a[1..]
    else
      var rest := Put(a[1..], key, v);
      assert !Named(a, key) ==> !Named(a[1..], key) by {
        if Named(a[1..], key) {
          var i :| 0 <= i < |a[1..]| && a[1..][i].0 == key;
          assert a[i + 1].0 == key;
        }
      }
      assert Named(a, key) ==> exists i :: FirstNamed(a, key, i) && [a[0]] + rest == a[i := (key, v)] by {
        if Named(a, key) {
          var k :| 0 <= k < |a| && a[k].0 == key;
          assert a[1..][k - 1].0 == key;
          var j :| FirstNamed(a[1..], key, j) && rest == a[1..][j := (key, v)];
          assert FirstNamed(a, key, j + 1);
          assert [a[0]] + rest == a[j + 1 := (key, v)];
        }
      }
      [a[0]] + rest
  }

  /** The configured `values` of an entry, or the empty list. */
  function ValuesOrEmpty(spec: AttrSpec): seq<Php.Value> {
    if spec.values.Some? then spec.values.value else []
  }

  /**
   * The requested attribute list, as a specification: every entry put in turn, so it
   * is never longer than the configured list.
   */
  function RequestedOf(specs: RequestList): (r: Requested)
    ensures |r| <= |specs|
    decreases |specs|
  {
    if specs == [] then []
    else
      var last := specs[|specs| - 1];
      Put(RequestedOf(specs[..|specs| - 1]), last.0, ValuesOrEmpty(last.1))
  }

  /**
   * Whatever the configuration, every configured name is requested, no other name is,
   * and no name is requested twice (a later entry replaces an earlier one).
   */
  lemma {:induction false} RequestedNames(specs: RequestList)
    ensures forall i :: 0 <= i < |specs| ==> Named(RequestedOf(specs), specs[i].0)
    ensures forall i :: 0 <= i < |RequestedOf(specs)| ==> Named(specs, RequestedOf(specs)[i].0)
    ensures DistinctNames(RequestedOf(specs))
    decreases |specs|
  {
    if specs != [] {
      var n := |specs|;
      var init := specs[..n - 1];
      var last := specs[n - 1];
      RequestedNames(init);
      var prev := RequestedOf(init);
      var r := RequestedOf(specs);
      assert r == Put(prev, last.0, ValuesOrEmpty(last.1));
      PutNames(prev, last.0, ValuesOrEmpty(last.1));
      forall i | 0 <= i < n
        ensures Named(r, specs[i].0)
      {
        if i < n - 1 {
          assert init[i] == specs[i];
        }
      }
      forall i | 0 <= i < |r|
        ensures Named(specs, r[i].0)
      {
        if r[i].0 == last.0 {
          assert specs[n - 1].0 == r[i].0;
        } else {
          var j :| 0 <= j < |prev| && prev[j].0 == r[i].0;
          var k :| 0 <= k < |init| && init[k].0 == prev[j].0;
          assert specs[k].0 == r[i].0;
        }
      }
    }
  }

  /** Putting a key keeps every name, adds the key, adds no other, and duplicates none. */
  lemma PutNames<V>(a: seq<(string, V)>, key: string, v: V)
    ensures |Put(a, key, v)| <= |a| + 1
    ensures Named(Put(a, key, v), key)
    ensures forall k :: Named(a, k) ==> Named(Put(a, key, v), k)
    ensures forall i :: 0 <= i < |Put(a, key, v)| ==> Put(a, key, v)[i].0 == key || Named(a, Put(a, key, v)[i].0)
    ensures DistinctNames(a) ==> DistinctNames(Put(a, key, v))
  {
    var r := Put(a, key, v);
    if Named(a, key) {
      var k :| FirstNamed(a, key, k) && r == a[k := (key, v)];
      assert r[k].0 == key;
      assert forall i :: 0 <= i < |r| ==> r[i].0 == a[i].0;
      forall name | Named(a, name)
        ensures Named(r, name)
      {
        var j :| 0 <= j < |a| && a[j].0 == name;
        assert r[j].0 == name;
      }
    } else {
      assert r[|a|].0 == key;
      forall name | Named(a, name)
        ensures Named(r, name)
      {
        var j :| 0 <= j < |a| && a[j].0 == name;
        assert r[j].0 == name;
      }
    }
  }

  /** The loop of lines 117-125 builds the requested attribute list. */
  method RequestedAttributes(specs: RequestList) returns (r: Requested)
    ensures r == RequestedOf(specs)
  {
    r := [];
    var i := 0;
    while i < |specs|
      invariant 0 <= i <= |specs|
      invariant r == RequestedOf(specs[..i])
    {
      var (name, params) := specs[i];
      assert specs[..i + 1][..i] == specs[..i];
      if params.values.Some? {
        r := Put(r, name, params.values.value);
      } else {
        r := Put(r, name, []);
      }
      i := i + 1;
    }
    assert specs[..i] == specs;
  }

  /**
   * With distinct names (as in any PHP array) the requested list has exactly the
   * configured names, in order, each with its configured values or the empty list.
   */
  lemma {:induction false} RequestedExactly(specs: RequestList)
    requires DistinctNames(specs)
    ensures |RequestedOf(specs)| == |specs|
    ensures forall i :: 0 <= i < |specs| ==> RequestedOf(specs)[i] == (specs[i].0, ValuesOrEmpty(specs[i].1))
    decreases |specs|
  {
    if specs != [] {
      var n := |specs|;
      var init := specs[..n - 1];
      assert forall i :: 0 <= i < |init| ==> init[i] == specs[i];
      RequestedExactly(init);
      var prev := RequestedOf(init);
      var last := (specs[n - 1].0, ValuesOrEmpty(specs[n - 1].1));
      assert forall i :: 0 <= i < |prev| ==> prev[i].0 != last.0;
      assert RequestedOf(specs) == prev + [last];
      forall i | 0 <= i < n
        ensures RequestedOf(specs)[i] == (specs[i].0, ValuesOrEmpty(specs[i].1))
      {
        if i < n - 1 {
          assert (prev + [last])[i] == prev[i];
        }
      }
    }
  }

  /** The signing key that Message::addSign attached, when it found one. */
  datatype SigningKey = SigningKey(id: string)

  /** AttributeQuery (section 3.3.2.3 of SAML 2.0 Core); no Attribute elements when None. */
  datatype Query = Query(
    relayState: string,
    destination: string,
    issuer: string,
    nameId: NameId,
    attributeNameFormat: string,
    attributes: Option<Requested>)

  datatype SignedQuery = SignedQuery(query: Query, key: SigningKey)

  datatype Assertion = Assertion(attributes: Returned)

  /** The Authority's response; everything beyond its issuer is read by `process`. */
  datatype Response = Response(issuer: Option<string>, id: string)

  /**
   * The collaborators, each given the Authority's metadata: signing (None when no
   * private key is found), the SOAP exchange (failing with TransportFailure), and
   * response processing (signature and status checks yielding the assertions, failing
   * with ResponseRejected).
   */
  datatype Oracles = Oracles(
    sign: (Query, Meta) -> Option<SigningKey>,
    send: (SignedQuery, Meta) -> Result<Response, Error>,
    process: (Response, Meta) -> Result<seq<Assertion>, Error>)

  /** Response processing never succeeds with no assertion. */
  ghost predicate YieldsAssertion(o: Oracles) {
    forall resp, aa :: o.process(resp, aa).Ok? ==> o.process(resp, aa).value != []
  }

  /** The query sendQuery builds; attributes are set only when the list is not empty. */
  function BuildQuery(dataId: string, url: string, issuer: string, nameId: NameId, attrs: Requested, format: string): (q: Query)
    ensures q.attributes.Some? <==> attrs != []
    ensures q.attributes.Some? ==> q.attributes.value == attrs
  {
    Query(dataId, url, issuer, nameId, format, if attrs != [] then Some(attrs) else None)
  }

  /**
   * sendQuery: build, sign and send. A query for which signing found no key is never
   * sent; otherwise the built query with its key is sent, and the transport's response
   * or error is passed back unchanged.
   */
  function SendQuery(dataId: string, url: string, nameId: NameId, attrs: Requested, format: string,
                     spEntityId: string, aa: Meta, o: Oracles): (r: Result<(SignedQuery, Response), Error>)
    ensures o.sign(BuildQuery(dataId, url, spEntityId, nameId, attrs, format), aa).None?
      ==> r == Err(SigningKeyMissing)
    ensures r.Ok? ==>
      && r.value.0.query == BuildQuery(dataId, url, spEntityId, nameId, attrs, format)
      && o.sign(r.value.0.query, aa) == Some(r.value.0.key)
      && o.send(r.value.0, aa) == Ok(r.value.1)
    ensures var q := BuildQuery(dataId, url, spEntityId, nameId, attrs, format);
      o.sign(q, aa).Some? ==>
        var signed := SignedQuery(q, o.sign(q, aa).value);
        && (r.Ok? <==> o.send(signed, aa).Ok?)
        && (r.Ok? ==> r.value == (signed, o.send(signed, aa).value))
        && (r.Err? ==> r.error == o.send(signed, aa).error)
  {
    var q := BuildQuery(dataId, url, spEntityId, nameId, attrs, format);
    match o.sign(q, aa)
    case None => Err(SigningKeyMissing)
    case Some(key) =>
      var signed := SignedQuery(q, key);
      match o.send(signed, aa)
      case Err(e) => Err(e)
      case Ok(resp) => Ok((signed, resp))
  }

  /**
   * Lines 140-145: a response without an issuer is refused before it is processed;
   * otherwise the first assertion of the processed response is used.
   */
  function ReadResponse(resp: Response, aa: Meta, o: Oracles): (r: Result<Assertion, Error>)
    requires YieldsAssertion(o)
    ensures resp.issuer.None? ==> r == Err(MissingIssuer)
    ensures r.Ok? <==> resp.issuer.Some? && o.process(resp, aa).Ok?
    ensures r.Ok? ==> r.value == o.process(resp, aa).value[0]
  {
    if resp.issuer.None? then Err(MissingIssuer)
    else match o.process(resp, aa)
      case Err(e) => Err(e)
      case Ok(assertions) => Ok(assertions[0])
  }

  /** The loop of lines 148-185, updating `$state['Attributes']` in place. */
  method MergeIntoState(state: State, expected: RequestList, returned: Returned)
    modifies state`attributes
    ensures state.attributes == MergeAll(old(state.attributes), expected, returned)
  {
    var i := 0;
    while i < |returned|
      invariant 0 <= i <= |returned|
      invariant state.attributes == MergeAll(old(state.attributes), expected, returned[..i])
    {
      var (name, values) := returned[i];
      assert returned[..i + 1][..i] == returned[..i];
      var spec := SpecOf(expected, name);
      if spec.Some? {
        if name in state.attributes {
          match PolicyOf(spec.value) {
            case OverridePolicy =>
              state.attributes := state.attributes[name := values];
            case KeepPolicy =>
              assert state.attributes[name := state.attributes[name]] == state.attributes;
            case MergePolicy =>
              state.attributes := state.attributes[name := state.attributes[name] + values];
            case UnknownPolicy(_) =>
              assert state.attributes[name := state.attributes[name]] == state.attributes;
            case NoPolicy =>
              state.attributes := state.attributes[name := state.attributes[name] + values];
          }
        } else {
          state.attributes := state.attributes[name := values];
        }
      } else {
        if name in state.attributes && state.attributes[name] != [] {
          state.attributes := state.attributes[name := state.attributes[name] + values];
        } else {
          state.attributes := state.attributes[name := values];
        }
      }
      i := i + 1;
    }
    assert returned[..i] == returned;
  }

  /** What one successful run sent and which assertion it merged. */
  datatype Exchange = Exchange(query: SignedQuery, assertion: Assertion)

  /** The filter only sends the user here when the key attribute holds a value. */
  predicate KeyPresent(data: AggregatorData) {
    data.attributeId.Some? && data.attributeId.value != []
  }

  /** The query lines 84-131 build for a state and an endpoint, before signing. */
  function QueryFor(data: AggregatorData, url: string, dataId: string, spEntityId: string): Query
    requires KeyPresent(data)
  {
    BuildQuery(dataId, url, spEntityId, MakeNameId(data.attributeId.value[0], data.nameIdFormat, "", ""),
               RequestedOf(data.attributes), data.attributeNameFormat)
  }

  /**
   * One run of the entry point for a loaded state. `dataId` stands for the random
   * correlation id and `spEntityId` for the entity id of the SP authentication source.
   * The checks run in the source's order and the first failing one decides the error;
   * when all pass, the run succeeds. Every failure leaves the attributes as they were; a
   * success merged the first assertion of the Authority's response to the signed query
   * built from the state.
   */
  method QueryAttributes(state: State, sources: seq<SourceResult>, dataId: string, spEntityId: string, o: Oracles)
    returns (r: Result<Exchange, Error>)
    requires state.aggregator.Some? && KeyPresent(state.aggregator.value)
    requires YieldsAssertion(o)
    modifies state`attributes
    ensures state.aggregator == old(state.aggregator)
    ensures r.Err? ==> state.attributes == old(state.attributes)
    ensures Resolved(sources).Err? ==> r == Err(MetadataNotFound)
    ensures Resolved(sources).Ok? && !HasServiceList(Resolved(sources).value) ==> r == Err(AttributeServiceInvalid)
    ensures Resolved(sources).Ok? && HasServiceList(Resolved(sources).value) && EndpointOf(Resolved(sources).value).Err?
      ==> r == Err(EndpointNotFound)
    ensures Resolved(sources).Ok? && EndpointOf(Resolved(sources).value).Ok? ==>
      var aa := Resolved(sources).value;
      var q := QueryFor(state.aggregator.value, EndpointOf(aa).value, dataId, spEntityId);
      && (o.sign(q, aa).None? ==> r == Err(QueryFailed(SigningKeyMissing)))
      && (o.sign(q, aa).Some? ==>
            var signed := SignedQuery(q, o.sign(q, aa).value);
            && (o.send(signed, aa).Err? ==> r == Err(QueryFailed(o.send(signed, aa).error)))
            && (o.send(signed, aa).Ok? ==>
                  var resp := o.send(signed, aa).value;
                  && (resp.issuer.None? ==> r == Err(MissingIssuer))
                  && (resp.issuer.Some? && o.process(resp, aa).Err? ==> r == Err(o.process(resp, aa).error))
                  && (resp.issuer.Some? && o.process(resp, aa).Ok? ==>
                        r == Ok(Exchange(signed, o.process(resp, aa).value[0])))))
    ensures r.Ok? ==>
      var data := state.aggregator.value;
      var q := r.value.query.query;
      && Resolved(sources).Ok?
      && HasServiceList(Resolved(sources).value)
      && (exists i :: FirstSoap(Resolved(sources).value.attributeService.list, i)
                      && q.destination == Resolved(sources).value.attributeService.list[i].location)
      && q.relayState == dataId
      && q.issuer == spEntityId
      && q.nameId == NameId(data.attributeId.value[0], data.nameIdFormat, None, None)
      && q.attributeNameFormat == data.attributeNameFormat
      && q.attributes == (if RequestedOf(data.attributes) == [] then None else Some(RequestedOf(data.attributes)))
      && o.sign(q, Resolved(sources).value) == Some(r.value.query.key)
      && state.attributes == MergeAll(old(state.attributes), data.attributes, r.value.assertion.attributes)
  {
    var data := state.aggregator.value;
    var aaMetadata, _ := ResolveMetadata(sources);
    if aaMetadata.Err? {
      return Err(aaMetadata.error);
    }
    var url := SelectEndpoint(aaMetadata.value);
    if url.Err? {
      return Err(url.error);
    }
    var nameId := MakeNameId(data.attributeId.value[0], data.nameIdFormat, "", "");
    var attributesToSend := RequestedAttributes(data.attributes);
    var sent := SendQuery(dataId, url.value, nameId, attributesToSend, data.attributeNameFormat,
                          spEntityId, aaMetadata.value, o);
    if sent.Err? {
      return Err(QueryFailed(sent.error));
    }
    var assertion := ReadResponse(sent.value.1, aaMetadata.value, o);
    if assertion.Err? {
      return Err(assertion.error);
    }
    MergeIntoState(state, data.attributes, assertion.value.attributes);
    r := Ok(Exchange(sent.value.0, assertion.value));
  }
}
