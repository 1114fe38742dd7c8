/**
 * The processing filter (src/Auth/Process/AttributeAggregator.php): its configuration
 * check with defaults, and `process`, which writes the aggregator keys into the state
 * and decides whether to query the Attribute Authority.
 */
module Filter {
  import opened Wrappers
  import opened Errors
  import opened Php
  import opened AuthState
  import Saml

  /** The filter's configuration array; a missing key reads as null. */
  type Config = map<string, Value>

  function Setting(config: Config, key: string): Value {
    if key in config then config[key] else Null
  }

  const NameIdFormats: seq<string> :=
    [Saml.NameIdUnspecified, Saml.NameIdPersistent, Saml.NameIdTransient, Saml.NameIdEncrypted]

  const AttributeNameFormats: seq<string> :=
    [Saml.NameFormatUnspecified, Saml.NameFormatUri, Saml.NameFormatBasic]

  /** The validated configuration: the six private fields of the filter. */
  datatype Settings = Settings(
    entityId: string,
    attributeId: string,
    required: bool,
    nameIdFormat: string,
    attributes: RequestList,
    attributeNameFormat: string)

  /**
   * What the constructor's checks leave behind: a set entity id, listed formats and
   * multiSource values that passed the pattern.
   */
  predicate ValidSettings(s: Settings) {
    && !EmptyString(s.entityId)
    && s.nameIdFormat in NameIdFormats
    && s.attributeNameFormat in AttributeNameFormats
    && forall i :: 0 <= i < |s.attributes| && s.attributes[i].1.multiSource.Some? ==>
         MultiSourceMatches(s.attributes[i].1.multiSource.value)
  }

  // ---- the single settings ---------------------------------------------------

  /**
   * `entityId` must be set and name an entity of the attributeauthority-remote
   * metadata set, given here as `known`.
   */
  function EntityIdOf(v: Value, known: set<string>): (r: Result<string, Error>)
    ensures Empty(v) <==> r == Err(EntityIdNotSpecified)
    ensures r.Ok? <==> v.Str? && !EmptyString(v.s) && v.s in known
    ensures r.Ok? ==> r.value == v.s
  {
    if Empty(v) then Err(EntityIdNotSpecified)
    else if v.Str? && v.s in known then Ok(v.s)
    else Err(EntityIdNotFound)
  }

  /** `attributeId` keeps its default unless set; a set value is used as an array key. */
  function AttributeIdOf(v: Value): (r: Result<string, Error>)
    ensures Empty(v) ==> r == Ok(Saml.EduPersonPrincipalName)
    ensures v.Str? && !Empty(v) ==> r == Ok(v.s)
    ensures r.Err? <==> v.Arr? && v.entries != []
  {
    if Empty(v) then Ok(Saml.EduPersonPrincipalName)
    else match ArrayKey(v)
      case Some(key) => Ok(key)
      case None => Err(InvalidAttributeId)
  }

  /**
   * A format setting keeps its default unless set; a set value must be one of the
   * listed URIs, else the error is raised.
   */
  function FormatOf(v: Value, formats: seq<string>, default: string, err: Error): (r: Result<string, Error>)
    ensures r.Ok? <==> Empty(v) || (v.Str? && v.s in formats)
    ensures r.Ok? ==> r.value == (if Empty(v) then default else v.s)
    ensures r.Err? ==> r.error == err
  {
    if Empty(v) then Ok(default)
    else if v.Str? && v.s in formats then Ok(v.s)
    else Err(err)
  }

  /** The loop over the listed formats, driven by the `$invalid` flag. */
  method MatchFormat(v: Value, formats: seq<string>, default: string, err: Error) returns (r: Result<string, Error>)
    ensures r == FormatOf(v, formats, default, err)
  {
    if Empty(v) {
      return Ok(default);
    }
    var format := default;
    var invalid := true;
    var i := 0;
    while i < |formats|
      invariant 0 <= i <= |formats|
      invariant invalid && forall j :: 0 <= j < i ==> v != Str(formats[j])
    {
      invalid := true;
      if v == Str(formats[i]) {
        format := v.s;
        invalid := false;
        break;
      }
      i := i + 1;
    }
    if invalid {
      return Err(err);
    }
    r := Ok(format);
  }

  /**
   * The same check as the source writes it, with PHP's loose `==`: a value is
   * accepted, and stored as it is, when it is loosely equal to a listed URI.
   */
  function FormatAsWritten(v: Value, formats: seq<string>, default: string, err: Error): (r: Result<Value, Error>)
    ensures r.Ok? <==> Empty(v) || exists f :: f in formats && LooselyEqualsUri(v, f)
  {
    if Empty(v) then Ok(Str(default))
    else if exists f :: f in formats && LooselyEqualsUri(v, f) then Ok(v)
    else Err(err)
  }

  /**
   * The boolean true is loosely equal to every URI, so the check as written accepts it
   * as a NameID format and stores it; the corrected check refuses it.
   */
  lemma TrueAcceptedAsFormat()
    ensures FormatAsWritten(Bool(true), NameIdFormats, Saml.NameIdPersistent, InvalidNameIdFormat) == Ok(Bool(true))
    ensures FormatAsWritten(Bool(true), AttributeNameFormats, Saml.NameFormatUri, InvalidAttributeNameFormat) == Ok(Bool(true))
    ensures FormatOf(Bool(true), NameIdFormats, Saml.NameIdPersistent, InvalidNameIdFormat) == Err(InvalidNameIdFormat)
  {
    assert LooselyEqualsUri(Bool(true), NameIdFormats[0]);
    assert LooselyEqualsUri(Bool(true), AttributeNameFormats[0]);
  }

  /** On strings the two checks agree: the loose comparison only differs on `true`. */
  lemma FormatChecksAgreeOnStrings(s: string, formats: seq<string>, default: string, err: Error)
    ensures FormatAsWritten(Str(s), formats, default, err).Ok? <==> FormatOf(Str(s), formats, default, err).Ok?
  {
  }

  // ---- the attributes list ------------------------------------------------------

  const MultiSourceWords: seq<string> := ["merge", "keep", "override"]

  /** `preg_match('/^(merge|keep|override)$/', s)`: `$` also matches before a final newline. */
  predicate MultiSourceMatches(s: string)
    ensures MultiSourceMatches(s) <==> exists w :: w in MultiSourceWords && (s == w || s == w + "\n")
  {
    s in MultiSourceWords || (|s| > 0 && s[|s| - 1] == '\n' && s[..|s| - 1] in MultiSourceWords)
  }

  /** What the check demands of one entry of the list. */
  predicate EntryAcceptable(v: Value) {
    && v.Arr?
    && (HasKey(v.entries, "values") ==> Get(v.entries, "values").Arr?)
    && (HasKey(v.entries, "multiSource") ==>
          Get(v.entries, "multiSource").Str? && MultiSourceMatches(Get(v.entries, "multiSource").s))
  }

  /** One entry, checked in the source's order and read into its `values` and `multiSource`. */
  function DecodeEntry(v: Value): (r: Result<AttrSpec, Error>)
    ensures r.Ok? <==> EntryAcceptable(v)
    ensures r.Ok? ==>
      && (r.value.values.Some? <==> HasKey(v.entries, "values"))
      && (r.value.values.Some? ==> r.value.values.value == ValuesOf(Get(v.entries, "values").entries))
      && (r.value.multiSource.Some? <==> HasKey(v.entries, "multiSource"))
      && (r.value.multiSource.Some? ==> Str(r.value.multiSource.value) == Get(v.entries, "multiSource"))
  {
    if !v.Arr? then Err(InvalidAttributesConfig)
    else
      var values := Get(v.entries, "values");
      var multiSource := Get(v.entries, "multiSource");
      if HasKey(v.entries, "values") && !values.Arr? then Err(InvalidAttributesConfig)
      else if HasKey(v.entries, "multiSource") && !(multiSource.Str? && MultiSourceMatches(multiSource.s)) then
        Err(InvalidMultiSource)
      else
        Ok(AttrSpec(
          if HasKey(v.entries, "values") then Some(ValuesOf(values.entries)) else None,
          if HasKey(v.entries, "multiSource") then Some(multiSource.s) else None))
  }

  function DecodeEntries(entries: seq<Entry>): Result<RequestList, Error>
    decreases |entries|
  {
    if entries == [] then Ok([])
    else
      var spec :- DecodeEntry(entries[0].val);
      var rest :- DecodeEntries(entries[1..]);
      Ok([(entries[0].key, spec)] + rest)
  }

  /** The `attributes` setting: empty means none; otherwise an array of acceptable entries. */
  function AttributesOf(v: Value): Result<RequestList, Error> {
    if Empty(v) then Ok([])
    else if !v.Arr? then Err(InvalidAttributesConfig)
    else DecodeEntries(v.entries)
  }

  /** `acc` followed by the result of the remaining entries. */
  function Prefixed(acc: RequestList, r: Result<RequestList, Error>): Result<RequestList, Error> {
    match r
    case Ok(rest) => Ok(acc + rest)
    case Err(e) => Err(e)
  }

  /** The foreach over the entries of lines 130-145. */
  method CheckAttributes(v: Value) returns (r: Result<RequestList, Error>)
    ensures r == AttributesOf(v)
  {
    if Empty(v) {
      return Ok([]);
    }
    if !v.Arr? {
      return Err(InvalidAttributesConfig);
    }
    var entries := v.entries;
    var list: RequestList := [];
    var i := 0;
    assert entries[0..] == entries;
    assert DecodeEntries(entries).Ok? ==> [] + DecodeEntries(entries).value == DecodeEntries(entries).value;
    while i < |entries|
      invariant 0 <= i <= |entries|
      invariant DecodeEntries(entries) == Prefixed(list, DecodeEntries(entries[i..]))
    {
      var spec := DecodeEntry(entries[i].val);
      assert entries[i..][1..] == entries[i + 1..];
      if spec.Err? {
        return Err(spec.error);
      }
      assert list + [(entries[i].key, spec.value)] + [] == list + [(entries[i].key, spec.value)];
      assert forall rest: RequestList :: list + ([(entries[i].key, spec.value)] + rest)
                                      == (list + [(entries[i].key, spec.value)]) + rest;
      list := list + [(entries[i].key, spec.value)];
      i := i + 1;
    }
    assert list + [] == list;
    r := Ok(list);
  }

  /**
   * The list is accepted exactly when every entry is acceptable, and then it holds
   * every entry, in order, under its own name.
   */
  lemma {:induction false} EntriesAccepted(entries: seq<Entry>)
    ensures DecodeEntries(entries).Ok? <==> forall i :: 0 <= i < |entries| ==> EntryAcceptable(entries[i].val)
    ensures DecodeEntries(entries).Ok? ==>
      && |DecodeEntries(entries).value| == |entries|
      && forall i :: 0 <= i < |entries| ==>
           DecodeEntries(entries).value[i] == (entries[i].key, DecodeEntry(entries[i].val).value)
    decreases |entries|
  {
    if entries != [] {
      EntriesAccepted(entries[1..]);
      assert forall i :: 1 <= i < |entries| ==> entries[i] == entries[1..][i - 1];
    }
  }

  // ---- the whole constructor ------------------------------------------------------

  /** The constructor's checks in the source's order; the first failing one decides. */
  function Configured(config: Config, known: set<string>): (r: Result<Settings, Error>)
    ensures r.Ok? ==> r.value.entityId in known && !EmptyString(r.value.entityId)
    ensures r.Ok? ==> r.value.nameIdFormat in NameIdFormats && r.value.attributeNameFormat in AttributeNameFormats
    ensures r.Ok? ==> r.value.required == !Empty(Setting(config, "required"))
  {
    var entityId :- EntityIdOf(Setting(config, "entityId"), known);
    var attributeId :- AttributeIdOf(Setting(config, "attributeId"));
    var nameIdFormat :- FormatOf(Setting(config, "nameIdFormat"), NameIdFormats, Saml.NameIdPersistent, InvalidNameIdFormat);
    var attributes :- AttributesOf(Setting(config, "attributes"));
    var attributeNameFormat :- FormatOf(Setting(config, "attributeNameFormat"), AttributeNameFormats,
                                        Saml.NameFormatUri, InvalidAttributeNameFormat);
    Ok(Settings(entityId, attributeId, !Empty(Setting(config, "required")), nameIdFormat, attributes, attributeNameFormat))
  }

  /** The validating part of `__construct`, field by field. */
  method ParseConfig(config: Config, known: set<string>) returns (r: Result<Settings, Error>)
    ensures r == Configured(config, known)
  {
    var entityId := EntityIdOf(Setting(config, "entityId"), known);
    if entityId.Err? {
      return Err(entityId.error);
    }
    var attributeId := AttributeIdOf(Setting(config, "attributeId"));
    if attributeId.Err? {
      return Err(attributeId.error);
    }
    var required := !Empty(Setting(config, "required"));
    var nameIdFormat := MatchFormat(Setting(config, "nameIdFormat"), NameIdFormats, Saml.NameIdPersistent, InvalidNameIdFormat);
    if nameIdFormat.Err? {
      return Err(nameIdFormat.error);
    }
    var attributes := CheckAttributes(Setting(config, "attributes"));
    if attributes.Err? {
      return Err(attributes.error);
    }
    var attributeNameFormat := MatchFormat(Setting(config, "attributeNameFormat"), AttributeNameFormats,
                                           Saml.NameFormatUri, InvalidAttributeNameFormat);
    if attributeNameFormat.Err? {
      return Err(attributeNameFormat.error);
    }
    r := Ok(Settings(entityId.value, attributeId.value, required, nameIdFormat.value, attributes.value,
                     attributeNameFormat.value));
  }

  /**
   * A constructed filter: its entity id is set and known, each optional setting has its
   * default unless configured, the formats are always listed URIs, and the request list
   * holds every configured entry.
   */
  lemma ConfiguredSettings(config: Config, known: set<string>)
    requires Configured(config, known).Ok?
    ensures var s := Configured(config, known).value;
      && Setting(config, "entityId") == Str(s.entityId) && s.entityId in known
      && (Empty(Setting(config, "attributeId")) ==> s.attributeId == Saml.EduPersonPrincipalName)
      && (!Empty(Setting(config, "attributeId")) ==> ArrayKey(Setting(config, "attributeId")) == Some(s.attributeId))
      && s.required == !Empty(Setting(config, "required"))
      && s.nameIdFormat in NameIdFormats
      && (Empty(Setting(config, "nameIdFormat")) ==> s.nameIdFormat == Saml.NameIdPersistent)
      && (!Empty(Setting(config, "nameIdFormat")) ==> Setting(config, "nameIdFormat") == Str(s.nameIdFormat))
      && s.attributeNameFormat in AttributeNameFormats
      && (Empty(Setting(config, "attributeNameFormat")) ==> s.attributeNameFormat == Saml.NameFormatUri)
      && (!Empty(Setting(config, "attributeNameFormat")) ==> Setting(config, "attributeNameFormat") == Str(s.attributeNameFormat))
      && (Empty(Setting(config, "attributes")) ==> s.attributes == [])
      && ValidSettings(s)
      && (!Empty(Setting(config, "attributes")) ==>
            var entries := Setting(config, "attributes").entries;
            && |s.attributes| == |entries|
            && forall i :: 0 <= i < |entries| ==> s.attributes[i].0 == entries[i].key && DecodeEntry(entries[i].val) == Ok(s.attributes[i].1))
  {
    if !Empty(Setting(config, "attributes")) {
      EntriesAccepted(Setting(config, "attributes").entries);
    }
  }

  /** A missing or falsy entity id, or one the metadata does not know, stops construction. */
  lemma EntityIdRequired(config: Config, known: set<string>)
    ensures Empty(Setting(config, "entityId")) ==> Configured(config, known) == Err(EntityIdNotSpecified)
    ensures !Empty(Setting(config, "entityId")) && !(Setting(config, "entityId").Str? && Setting(config, "entityId").s in known)
      ==> Configured(config, known) == Err(EntityIdNotFound)
  {
  }

  /**
   * Once the checks before it pass, a set NameID format is refused exactly when it is
   * not one of the four listed URIs.
   */
  lemma NameIdFormatRule(config: Config, known: set<string>)
    requires EntityIdOf(Setting(config, "entityId"), known).Ok?
    requires AttributeIdOf(Setting(config, "attributeId")).Ok?
    ensures Configured(config, known) == Err(InvalidNameIdFormat)
        <==> !Empty(Setting(config, "nameIdFormat"))
             && !(Setting(config, "nameIdFormat").Str? && Setting(config, "nameIdFormat").s in NameIdFormats)
  {
    var v := Setting(config, "attributes");
    if !Empty(v) && v.Arr? {
      DecodeEntriesErrors(v.entries);
    }
  }

  /**
   * Once every other check passes, a set attribute name format is refused exactly when
   * it is not one of the three listed URIs.
   */
  lemma AttributeNameFormatRule(config: Config, known: set<string>)
    requires EntityIdOf(Setting(config, "entityId"), known).Ok?
    requires AttributeIdOf(Setting(config, "attributeId")).Ok?
    requires FormatOf(Setting(config, "nameIdFormat"), NameIdFormats, Saml.NameIdPersistent, InvalidNameIdFormat).Ok?
    requires AttributesOf(Setting(config, "attributes")).Ok?
    ensures Configured(config, known) == Err(InvalidAttributeNameFormat)
        <==> !Empty(Setting(config, "attributeNameFormat"))
             && !(Setting(config, "attributeNameFormat").Str? && Setting(config, "attributeNameFormat").s in AttributeNameFormats)
  {
  }

  /**
   * Once the checks before it pass, the attributes setting is refused exactly when it
   * is set and is not an array of acceptable entries.
   */
  lemma AttributesRule(config: Config, known: set<string>)
    requires EntityIdOf(Setting(config, "entityId"), known).Ok?
    requires AttributeIdOf(Setting(config, "attributeId")).Ok?
    requires FormatOf(Setting(config, "nameIdFormat"), NameIdFormats, Saml.NameIdPersistent, InvalidNameIdFormat).Ok?
    ensures (Configured(config, known) == Err(InvalidAttributesConfig) || Configured(config, known) == Err(InvalidMultiSource))
        <==> var v := Setting(config, "attributes");
             !Empty(v) && !(v.Arr? && forall i :: 0 <= i < |v.entries| ==> EntryAcceptable(v.entries[i].val))
  {
    var v := Setting(config, "attributes");
    if !Empty(v) && v.Arr? {
      EntriesAccepted(v.entries);
      DecodeEntriesErrors(v.entries);
    }
  }

  /** The list check fails only with the two list errors. */
  lemma {:induction false} DecodeEntriesErrors(entries: seq<Entry>)
    ensures DecodeEntries(entries).Err? ==>
      DecodeEntries(entries).error == InvalidAttributesConfig || DecodeEntries(entries).error == InvalidMultiSource
    decreases |entries|
  {
    if entries != [] {
      DecodeEntriesErrors(entries[1..]);
    }
  }

  // ---- the filter ---------------------------------------------------------------------

  /** What `process` leads to: the query, resuming the pipeline unchanged, or an error. */
  datatype Decision = Redirect | Resume | Fail(error: Error)

  /** Lines 187-194: a missing or empty key attribute is an error only when required. */
  function Decide(keyValues: Option<seq<string>>, required: bool): (d: Decision)
    ensures d == Redirect <==> keyValues.Some? && keyValues.value != []
    ensures d == Resume <==> !required && (keyValues.None? || keyValues.value == [])
    ensures d.Fail? ==> d.error == KeyAttributeMissing
  {
    if keyValues.None? || keyValues.value == [] then
      if !required then Resume else Fail(KeyAttributeMissing)
    else Redirect
  }

  class AttributeAggregator {
    const entityId: string
    const attributeId: string
    const required: bool
    const nameIdFormat: string
    const attributes: RequestList
    const attributeNameFormat: string

    function AsSettings(): Settings {
      Settings(entityId, attributeId, required, nameIdFormat, attributes, attributeNameFormat)
    }

    /** A filter only exists with settings the constructor's checks accepted. */
    ghost predicate Valid() {
      ValidSettings(AsSettings())
    }

    constructor (s: Settings)
      requires ValidSettings(s)
      ensures AsSettings() == s
      ensures Valid()
    {
      entityId := s.entityId;
      attributeId := s.attributeId;
      required := s.required;
      nameIdFormat := s.nameIdFormat;
      attributes := s.attributes;
      attributeNameFormat := s.attributeNameFormat;
    }

    /**
     * Writes the six aggregator keys into the state, the key attribute's values taken
     * from the user's attributes, and decides how to go on. The attributes themselves
     * are left unchanged.
     */
    method Process(state: State) returns (d: Decision)
      requires Valid()
      modifies state`aggregator
      ensures state.aggregator == Some(AggregatorData(state.spAuthId, entityId, ValuesAt(state.attributes, attributeId),
                                                      nameIdFormat, attributes, attributeNameFormat))
      ensures d == Decide(ValuesAt(state.attributes, attributeId), required)
    {
      var keyValues := ValuesAt(state.attributes, attributeId);
      state.aggregator := Some(AggregatorData(state.spAuthId, entityId, keyValues, nameIdFormat, attributes,
                                              attributeNameFormat));
      if keyValues.None? || keyValues.value == [] {
        if !required {
          return Resume;
        }
        return Fail(KeyAttributeMissing);
      }
      d := Redirect;
    }
  }

  /** `new AttributeAggregator($config, ...)`: a filter, or the exception of the first failed check. */
  method Create(config: Config, known: set<string>) returns (r: Result<AttributeAggregator, Error>)
    ensures Configured(config, known).Err? ==> r.Err? && r.error == Configured(config, known).error
    ensures Configured(config, known).Ok? ==>
      r.Ok? && fresh(r.value) && r.value.AsSettings() == Configured(config, known).value
    ensures r.Ok? ==> r.value.Valid()
  {
    var settings := ParseConfig(config, known);
    if settings.Err? {
      return Err(settings.error);
    }
    ConfiguredSettings(config, known);
    var filter := new AttributeAggregator(settings.value);
    r := Ok(filter);
  }
}
