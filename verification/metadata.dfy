/**
 * Finding the Attribute Authority's metadata across the configured metadata sources
 * and choosing its SOAP AttributeService endpoint (public/attributequery.php, 41-82).
 */
module Metadata {
  import opened Wrappers
  import opened Errors
  import Php
  import Saml

  /** One AttributeService entry; a missing Binding or Location reads as "". */
  datatype Endpoint = Endpoint(binding: string, location: string)

  /** The `AttributeService` key of a record: an array of endpoints, or anything else. */
  datatype Services = NotArray | Services(list: seq<Endpoint>)

  /**
   * What a metadata source returns for the entity: a falsy value (null, false, an empty
   * array), an associative record, or a list (keys exactly 0..n-1) of further values.
   */
  datatype Meta = Falsy | Record(attributeService: Services) | List(items: seq<Meta>)

  /** The outcome of asking one source: it throws, or it returns a value. */
  datatype SourceResult = Throws | Returns(meta: Meta)

  predicate Truthy(m: Meta) {
    m.Record? || (m.List? && m.items != [])
  }

  /** A list-shaped result is replaced by its element 0, whatever its length. */
  function Normalize(m: Meta): (r: Meta)
    ensures m.Record? || m.Falsy? ==> r == m
    ensures r != m ==> m.List? && m.items != [] && r == m.items[0]
  {
    if m.List? && m.items != [] then m.items[0] else m
  }

  /** The source ends the search: it returned a truthy value. */
  predicate Wins(s: SourceResult) {
    s.Returns? && Truthy(s.meta)
  }

  /** The search, as a specification: the first winning source decides. */
  function Resolved(sources: seq<SourceResult>): (r: Result<Meta, Error>)
    ensures r.Err? ==> r.error == MetadataNotFound
    ensures r.Ok? ==> Truthy(r.value)
  {
    if sources == [] then Err(MetadataNotFound)
    else if Wins(sources[0]) then
      var m := Normalize(sources[0].meta);
      if Truthy(m) then Ok(m) else Err(MetadataNotFound)
    else Resolved(sources[1..])
  }

  /** Sources before the first winner do not matter. */
  lemma {:induction false} ResolvedSkip(sources: seq<SourceResult>, i: nat)
    requires i <= |sources|
    requires forall j :: 0 <= j < i ==> !Wins(sources[j])
    ensures Resolved(sources) == Resolved(sources[i..])
  {
    if i > 0 {
      assert sources[1..][i - 1..] == sources[i..];
      ResolvedSkip(sources[1..], i - 1);
    }
  }

  /**
   * The loop over the sources. `consulted` is the number of sources asked: the search
   * stops at the first truthy result, and the result depends on those sources only.
   */
  method ResolveMetadata(sources: seq<SourceResult>) returns (r: Result<Meta, Error>, consulted: nat)
    ensures r == Resolved(sources)
    ensures consulted <= |sources| && r == Resolved(sources[..consulted])
    ensures forall j :: 0 <= j < consulted - 1 ==> !Wins(sources[j])
    ensures consulted < |sources| || r.Ok? ==> consulted > 0 && Wins(sources[consulted - 1])
  {
    var aaMetadata: Meta := Falsy;
    var i := 0;
    ghost var won := false;
    consulted := |sources|;
    while i < |sources|
      invariant 0 <= i <= |sources| && consulted == |sources|
      invariant forall j :: 0 <= j < i ==> !Wins(sources[j])
      invariant !Truthy(aaMetadata) && !won
    {
      match sources[i] {
        case Throws =>
          // logged, and the next source is tried
        case Returns(m) =>
          aaMetadata := m;
          if Truthy(aaMetadata) {
            if aaMetadata.List? {
              aaMetadata := aaMetadata.items[0];
            }
            consulted := i + 1;
            won := true;
            break;
          }
      }
      i := i + 1;
    }
    if won {
      assert Wins(sources[i]) && aaMetadata == Normalize(sources[i].meta);
      ResolvedSkip(sources, i);
      ResolvedSkip(sources[..consulted], i);
      assert sources[..consulted][i..] == [sources[i]];
    } else {
      ResolvedSkip(sources, |sources|);
      assert sources[..consulted] == sources;
    }
    if !Truthy(aaMetadata) {
      return Err(MetadataNotFound), consulted;
    }
    r := Ok(aaMetadata);
  }

  /** No winning source: the entity does not exist in any metadata source. */
  lemma {:induction false} NoWinnerNotFound(sources: seq<SourceResult>)
    requires forall j :: 0 <= j < |sources| ==> !Wins(sources[j])
    ensures Resolved(sources) == Err(MetadataNotFound)
  {
    ResolvedSkip(sources, |sources|);
  }

  /** A found record is the normalized result of the first winning source. */
  lemma {:induction false} ResolvedFound(sources: seq<SourceResult>)
    requires Resolved(sources).Ok?
    ensures exists k :: 0 <= k < |sources| && Wins(sources[k])
              && (forall j :: 0 <= j < k ==> !Wins(sources[j]))
              && Resolved(sources).value == Normalize(sources[k].meta)
  {
    if !Wins(sources[0]) {
      ResolvedFound(sources[1..]);
      var k :| 0 <= k < |sources[1..]| && Wins(sources[1..][k])
              && (forall j :: 0 <= j < k ==> !Wins(sources[1..][j]))
              && Resolved(sources[1..]).value == Normalize(sources[1..][k].meta);
      assert forall j :: 1 <= j < k + 1 ==> sources[j] == sources[1..][j - 1];
    } else {
      assert Wins(sources[0]);
    }
  }

  /** A source that throws is skipped as if it were not configured, wherever it sits. */
  lemma {:induction false} ThrowingSourceSkipped(before: seq<SourceResult>, after: seq<SourceResult>)
    ensures Resolved(before + [Throws] + after) == Resolved(before + after)
    decreases |before|
  {
    if before == [] {
      assert before + [Throws] + after == [Throws] + after;
      assert ([Throws] + after)[1..] == after;
      assert before + after == after;
    } else {
      ThrowingSourceSkipped(before[1..], after);
      assert (before + [Throws] + after)[0] == before[0] == (before + after)[0];
      assert (before + [Throws] + after)[1..] == before[1..] + [Throws] + after;
      assert (before + after)[1..] == before[1..] + after;
    }
  }

  /** A thrown source, then a record, then anything: the record, the third never asked. */
  lemma ShortCircuitExample(rec: Services, third: SourceResult)
    ensures Resolved([Throws, Returns(Record(rec)), third]) == Ok(Record(rec))
  {
  }

  /** A list result is unwrapped to its first element; a record stays as it is. */
  lemma {:induction false} ListUnwrapped(first: Meta, rest: seq<Meta>)
    requires Truthy(first)
    ensures Resolved([Returns(List([first] + rest))]) == Ok(first)
    ensures first.Record? ==> Resolved([Returns(first)]) == Ok(first)
  {
  }

  // ---- endpoint selection ---------------------------------------------------

  predicate HasServiceList(aa: Meta) {
    aa.Record? && aa.attributeService.Services?
  }

  /** Entry i is the lowest-index entry with the SOAP binding. */
  predicate FirstSoap(eps: seq<Endpoint>, i: int) {
    0 <= i < |eps| && eps[i].binding == Saml.BindingSoap
    && forall j :: 0 <= j < i ==> eps[j].binding != Saml.BindingSoap
  }

  /** The Location of the lowest-index SOAP entry, None when there is none. */
  function SoapLocation(eps: seq<Endpoint>): (r: Option<string>)
    ensures r.None? <==> forall i :: !FirstSoap(eps, i)
    ensures forall i :: FirstSoap(eps, i) ==> r == Some(eps[i].location)
  {
    if eps == [] then None
    else if eps[0].binding == Saml.BindingSoap then
      assert FirstSoap(eps, 0);
      Some(eps[0].location)
    else
      var r := SoapLocation(eps[1..]);
      assert forall i :: FirstSoap(eps, i) ==> 0 < i && FirstSoap(eps[1..], i - 1);
      assert forall j :: FirstSoap(eps[1..], j) ==> FirstSoap(eps, j + 1);
      r
  }

  /** The endpoint the scan settles on, or the error it raises. */
  function EndpointOf(aa: Meta): (r: Result<string, Error>)
    ensures !HasServiceList(aa) ==> r == Err(AttributeServiceInvalid)
    ensures HasServiceList(aa) && r.Err? ==> r.error == EndpointNotFound
    ensures r.Ok? ==> exists i :: FirstSoap(aa.attributeService.list, i)
                                  && r.value == aa.attributeService.list[i].location
                                  && !Php.EmptyString(r.value)
  {
    if !HasServiceList(aa) then Err(AttributeServiceInvalid)
    else match SoapLocation(aa.attributeService.list)
      case None => Err(EndpointNotFound)
      case Some(location) => if Php.EmptyString(location) then Err(EndpointNotFound) else Ok(location)
  }

  /**
   * The scan for the SOAP AttributeService. A non-array AttributeService is an error;
   * otherwise the first SOAP entry is chosen, and a missing one or an empty Location is
   * an error. Order in the metadata decides; later SOAP entries are never looked at.
   */
  method SelectEndpoint(aa: Meta) returns (r: Result<string, Error>)
    ensures !HasServiceList(aa) ==> r == Err(AttributeServiceInvalid)
    ensures HasServiceList(aa) ==>
      (r.Ok? <==> exists i :: FirstSoap(aa.attributeService.list, i)
                               && !Php.EmptyString(aa.attributeService.list[i].location))
    ensures HasServiceList(aa) && r.Ok? ==>
      exists i :: FirstSoap(aa.attributeService.list, i) && r.value == aa.attributeService.list[i].location
    ensures HasServiceList(aa) && r.Err? ==> r.error == EndpointNotFound
    ensures r == EndpointOf(aa)
  {
    if !HasServiceList(aa) {
      return Err(AttributeServiceInvalid);
    }
    var aas := aa.attributeService.list;
    var index: Option<nat> := None;
    var i := 0;
    while i < |aas|
      invariant 0 <= i <= |aas|
      invariant index == None
      invariant forall j :: 0 <= j < i ==> aas[j].binding != Saml.BindingSoap
    {
      if aas[i].binding == Saml.BindingSoap {
        index := Some(i);
        break;
      }
      i := i + 1;
    }
    if index.None? {
      // the index is never set: the Location read is empty
      assert forall k :: !FirstSoap(aas, k);
      return Err(EndpointNotFound);
    }
    assert FirstSoap(aas, index.value);
    assert forall k :: FirstSoap(aas, k) ==> k == index.value;
    if Php.EmptyString(aas[index.value].location) {
      return Err(EndpointNotFound);
    }
    r := Ok(aas[index.value].location);
  }
}
