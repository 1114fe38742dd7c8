# Attribute aggregation filter: a verified model

This project models the SimpleSAMLphp `attributeaggregator` module in Dafny. After
login, the module asks a remote SAML Attribute Authority (AA) for more attributes
about the user. It then folds them into the user's attribute set. There are two halves:

- **The processing filter** (`src/Auth/Process/AttributeAggregator.php`) checks its
  configuration when it is constructed. When it runs, it copies the six
  `attributeaggregator:*` keys into the suspended authentication state. It then decides:
  query the AA, resume without querying, or fail.
- **The query entry point** (`public/attributequery.php`) works in this order:
  1. looks up the AA's metadata in the configured metadata sources, in order;
  2. picks the AA's SOAP AttributeService (SAML 2.0 Bindings, section 3.2);
  3. builds the NameID (SAML 2.0 Core, section 2.2.2) and the requested-attribute list;
  4. signs and sends an AttributeQuery (SAML 2.0 Core, section 3.3.2.3);
  5. checks the response;
  6. merges the returned attributes into `$state['Attributes']` under each attribute's
     `multiSource` policy (`override`, `keep`, `merge`, or none).

Files:

- `wrappers.dfy` (Option, Result), `errors.dfy` (the exceptions) and `saml.dfy` (the
  SAML URIs): shared definitions.
- `php.dfy`: the PHP value semantics the filter depends on. This covers `empty()`, `==`
  against a URI, `array_key_exists` and array keys.
- `auth_state.dfy`: the state. It is a `State` class whose fields the filter and the
  merge update in place.
- `metadata.dfy`: the metadata-source loop and the endpoint scan.
- `merge.dfy`: the per-attribute merge, its fold over a response, and the lemmas about them.
- `query_engine.dfy`: the rest of the entry point.
- `filter.dfy`: the configuration check and the `AttributeAggregator` class.

Signing (`Message::addSign`), the SOAP exchange (`SOAPClient::send`) and response
processing (`Message::processResponse`) are oracles. They are function fields of
`QueryEngine.Oracles`, each given the AA's metadata. Only whether they succeed, and what
they return, is modelled. Each metadata source's answer is an input of type
`Metadata.SourceResult`. The entities in the `attributeauthority-remote` metadata set
that the constructor checks against are an input set. The random correlation id and the
SP's entity id are parameters.

Four details of the source that the model keeps:

- A list-shaped metadata result (keys exactly 0..n-1) is replaced by its element 0,
  whatever its length.
- The response check refuses only a missing (null) issuer; an empty issuer string
  passes it.
- An unrequested attribute is appended to only when its list is non-empty
  (`AttributeMerge.UnexpectedAttribute` proves that this equals appending whenever the
  key exists).
- A `multiSource` value with a trailing newline is accepted, because PCRE's `$` matches
  before a final newline. Such a value then matches no `switch` case, so a present
  attribute is left as it is.

## Model

| member | source | states |
|---|---|---|
| `Metadata.Normalize` | public/attributequery.php:47-49 | A record or falsy value is kept; the only change is a non-empty list replaced by its element 0. |
| `Metadata.ResolveMetadata` | public/attributequery.php:36-62 | The source loop returns the first truthy result, with a list result replaced by its element 0. It asks only the sources up to that one, and the result depends only on them. With no truthy result, or a truthy list whose element 0 is falsy, it fails with MetadataNotFound. |
| `Metadata.Resolved` | public/attributequery.php:41-62 | Every failure is MetadataNotFound, and every found value is truthy. |
| `Metadata.ResolvedSkip` | public/attributequery.php:41-55 | Sources before the first truthy one (throwing or falsy) do not affect the result. |
| `Metadata.NoWinnerNotFound` | public/attributequery.php:57-62 | When no source returns a truthy value, resolution fails with MetadataNotFound. |
| `Metadata.ResolvedFound` | public/attributequery.php:41-51 | A found record is the normalized value of the first source that returned a truthy value. |
| `Metadata.ThrowingSourceSkipped` | public/attributequery.php:42-54 | A source that throws is skipped, wherever it sits in the list, as if it were not configured. |
| `Metadata.ShortCircuitExample` | public/attributequery.php:41-51 | With sources [throws, record R, anything], the result is R whatever the third source is. |
| `Metadata.ListUnwrapped` | public/attributequery.php:46-49 | A list result becomes its first element; an associative record is kept as it is. |
| `Metadata.SelectEndpoint` | public/attributequery.php:65-82 | A non-array AttributeService gives AttributeServiceInvalid. Otherwise the result is the Location of the lowest-index SOAP entry, and success means that entry exists and its Location is not empty(). A missing SOAP entry or an empty Location gives EndpointNotFound. The scan computes exactly `EndpointOf`. |
| `Metadata.SoapLocation` | public/attributequery.php:72-77 | The result is the Location of the lowest-index SOAP entry, and it is absent exactly when no entry has the SOAP binding. |
| `Metadata.EndpointOf` | public/attributequery.php:65-82 | A non-array AttributeService gives AttributeServiceInvalid, and any other failure is EndpointNotFound. A result is the non-empty Location of the lowest-index SOAP entry. |
| `AuthState.SpecOf` | public/attributequery.php:150 | The name has an entry in the request list exactly when `array_key_exists` holds, and the result is that entry. |
| `QueryEngine.Qualifier` | public/attributequery.php:104-112 | An empty() qualifier becomes absent, and any other qualifier is kept as it is. |
| `QueryEngine.MakeNameId` | public/attributequery.php:101-112 | The NameID has the given value and format; each qualifier is absent exactly when it is empty(), and otherwise kept. |
| `QueryEngine.Put` | public/attributequery.php:120-123 | Assigning a new key appends one entry at the end of the array. Assigning an existing key replaces its first entry where it stands, so the order and the length are kept. |
| `QueryEngine.PutNames` | public/attributequery.php:120-123 | An assignment keeps every name, adds the assigned key and no other, grows the array by at most one, and creates no duplicate name. |
| `QueryEngine.RequestedOf` | public/attributequery.php:116-125 | The requested list, built by assigning each configured entry in turn, is never longer than the configuration. |
| `QueryEngine.RequestedNames` | public/attributequery.php:116-125 | Every configured name is requested, no other name is, and no name appears twice, even when the configuration repeats one. |
| `QueryEngine.RequestedAttributes` | public/attributequery.php:116-125 | The loop builds exactly `RequestedOf`: each configured entry is assigned in turn. |
| `QueryEngine.RequestedExactly` | public/attributequery.php:116-125 | The requested list has exactly the configured names, in order. Each name maps to its configured `values`, or to an empty list when it has none. |
| `QueryEngine.BuildQuery` | public/attributequery.php:202-214 | The query has requested attributes exactly when the list is non-empty, and they are that list. |
| `QueryEngine.SendQuery` | public/attributequery.php:194-226 | If signing finds no key, the result is SigningKeyMissing and nothing is sent. Otherwise the built query, signed with that key, is sent. The transport's response, or its error, is returned unchanged. |
| `QueryEngine.ReadResponse` | public/attributequery.php:140-145 | A null issuer gives MissingIssuer before the response is processed. Success means there is an issuer and processing succeeded; the result is then the first assertion. |
| `QueryEngine.MergeIntoState` | public/attributequery.php:148-185 | The in-place loop leaves `$state['Attributes']` equal to `MergeAll` of its old value and the returned attributes, and changes no other part of the state. |
| `QueryEngine.QueryAttributes` | public/attributequery.php:32-188 | The checks run in the source's order, and the first that fails decides the error: MetadataNotFound; AttributeServiceInvalid; EndpointNotFound; QueryFailed(SigningKeyMissing) when signing finds no key; a send error wrapped in QueryFailed; MissingIssuer; a processing error as it is. When every check passes, the run succeeds. A failed run leaves the attributes unchanged. A successful run sent the query signed with the key signing found. That query has: the destination set to the first SOAP endpoint's Location; the relay state and issuer; the NameID built from the first key-attribute value with no qualifiers; the configured name format; and the requested list when non-empty. The run then merged the first assertion the Authority's response yields into the attributes. |
| `AttributeMerge.PolicyOf` | public/attributequery.php:154-165 | A missing or empty() `multiSource` is the default merge; `override`, `keep` and `merge` select their cases exactly; any other value is carried as an unmatched policy. |
| `AttributeMerge.MergedValue` | public/attributequery.php:150-184 | An attribute that was absent gets exactly the returned values. In every case the result is the returned values, the old values, or the old values followed by the returned ones: nothing is reordered or deduplicated. |
| `AttributeMerge.MergeAll` | public/attributequery.php:148-185 | Folding the response in order never removes an attribute. |
| `AttributeMerge.UnexpectedAttribute` | public/attributequery.php:178-184 | An unrequested attribute gets its existing values (none when the key is absent) followed by the returned values. |
| `AttributeMerge.ExpectedAttribute` | public/attributequery.php:150-175 | A requested attribute behaves as follows: absent gives the returned values; `override` gives exactly the returned values; `keep` (or a value matching no case) leaves the old values; `merge` or no policy gives old values followed by returned values. |
| `AttributeMerge.MergeKeepsDuplicates` | public/attributequery.php:162-170 | Merging keeps every value of both lists with its multiplicity (no deduplication), and the length is the sum of the two lengths. |
| `AttributeMerge.KeepOnEmptyList` | public/attributequery.php:152-160 | Under `keep`, a present empty list stays empty. The same list on an unrequested attribute takes the returned values. |
| `AttributeMerge.TrailingNewlinePolicy` | public/attributequery.php:154-165 | A `multiSource` value with a trailing newline matches no case, so a present attribute keeps its values. |
| `AttributeMerge.MergeAllKeys` | public/attributequery.php:148-185 | After the loop, the keys are the old keys plus the names the AA returned. |
| `AttributeMerge.MergeAllFrame` | public/attributequery.php:148-185 | An attribute the AA did not return keeps its presence and its values. |
| `AttributeMerge.MergeAllAt` | public/attributequery.php:148-185 | When the response names each attribute once, each returned attribute holds the per-attribute merge of its old values and the returned values. |
| `AttributeMerge.Examples` | public/attributequery.php:148-185 | Three examples: `merge` on mail gives [a, b]; `override` gives [b]; an unrequested new attribute is added. |
| `Filter.EntityIdOf` | src/Auth/Process/AttributeAggregator.php:86-100 | A missing or falsy entityId gives EntityIdNotSpecified. The id is accepted exactly when it is a non-empty string known to the metadata, and it is then stored. |
| `Filter.AttributeIdOf` | src/Auth/Process/AttributeAggregator.php:102-104 | An unset attributeId keeps the eduPersonPrincipalName default, and a set string is used as it is. |
| `Filter.FormatOf` | src/Auth/Process/AttributeAggregator.php:110-124 | A format setting is accepted exactly when it is unset or one of the listed URIs. The result is the default or that URI; otherwise it is the given error. |
| `Filter.MatchFormat` | src/Auth/Process/AttributeAggregator.php:149-162 | The `$invalid`-flag loop computes exactly `FormatOf`. |
| `Filter.FormatAsWritten` | src/Auth/Process/AttributeAggregator.php:111-123 | The loose-`==` check accepts a value exactly when it is unset or loosely equal to a listed URI. |
| `Filter.TrueAcceptedAsFormat` | src/Auth/Process/AttributeAggregator.php:116-117 | Boolean `true` passes both format checks as written, but `FormatOf` refuses it. |
| `Filter.FormatChecksAgreeOnStrings` | src/Auth/Process/AttributeAggregator.php:154-155 | On string values, the check as written and the corrected check accept the same values. |
| `Filter.MultiSourceMatches` | src/Auth/Process/AttributeAggregator.php:140 | A value passes the pattern exactly when it is `merge`, `keep` or `override`, optionally followed by one newline. |
| `Filter.DecodeEntry` | src/Auth/Process/AttributeAggregator.php:131-144 | An entry is accepted exactly when it is an array whose `values` (if present) is an array and whose `multiSource` (if present) is a string matching the pattern. The entry's values and its multiSource string are then kept as they are. |
| `Filter.CheckAttributes` | src/Auth/Process/AttributeAggregator.php:126-147 | The foreach over the entries computes exactly `AttributesOf`. |
| `Filter.EntriesAccepted` | src/Auth/Process/AttributeAggregator.php:130-146 | The list is accepted exactly when every entry is. It then holds every entry, in order, under its own name. |
| `Filter.DecodeEntriesErrors` | src/Auth/Process/AttributeAggregator.php:130-145 | A refused list fails only with the two attribute-list errors. |
| `Filter.Configured` | src/Auth/Process/AttributeAggregator.php:79-163 | A success has a set entity id known to the metadata, formats from the two lists, and `required` set exactly when the setting is not empty(). |
| `Filter.ParseConfig` | src/Auth/Process/AttributeAggregator.php:79-163 | The constructor's field-by-field checks compute exactly `Configured`, and the first failing check decides the error. |
| `Filter.ConfiguredSettings` | src/Auth/Process/AttributeAggregator.php:42-69 | For an accepted filter: the entity id is the configured, known string; each optional setting keeps its default unless configured; both formats are listed URIs; every stored `multiSource` passes the pattern; a set attributeId is stored as its array-key string; the request list holds each configured entry, in order, under its own name with its decoded `values` and `multiSource`. |
| `Filter.EntityIdRequired` | src/Auth/Process/AttributeAggregator.php:86-99 | A missing or falsy entityId, or one the metadata does not know, stops construction with the matching error. |
| `Filter.NameIdFormatRule` | src/Auth/Process/AttributeAggregator.php:110-123 | When the earlier checks pass, construction fails with InvalidNameIdFormat exactly when a set format is not one of the four NameID URIs. |
| `Filter.AttributesRule` | src/Auth/Process/AttributeAggregator.php:126-145 | When the earlier checks pass, construction fails with an attribute-list error exactly when the setting is set and is not an array of acceptable entries. |
| `Filter.AttributeNameFormatRule` | src/Auth/Process/AttributeAggregator.php:149-161 | When the other checks pass, construction fails with InvalidAttributeNameFormat exactly when a set format is not one of the three name-format URIs. |
| `Filter.Decide` | src/Auth/Process/AttributeAggregator.php:187-194 | The query goes ahead exactly when the key attribute has values. Processing resumes exactly when it has none and is not required. Otherwise the result is KeyAttributeMissing. |
| `Filter.AttributeAggregator.Process` | src/Auth/Process/AttributeAggregator.php:175-194 | On a valid filter, writes the six aggregator keys: the SP auth source, the settings, and the key attribute's values read from `Attributes`. It leaves `Attributes` unchanged and returns `Decide` of the key values and `required`. |
| `Filter.AttributeAggregator.constructor` | src/Auth/Process/AttributeAggregator.php:79-163 | A filter is only built from settings the checks accept: a set entity id, listed formats and matching `multiSource` values. It holds those settings and is `Valid()`. |
| `Filter.Create` | src/Auth/Process/AttributeAggregator.php:79-163 | Construction fails with the error of the first failing check. Otherwise it yields a new, `Valid()` filter whose fields are the accepted settings. |

## Findings

| source | as written | input that shows it | evidently intended | confidence | as-written member | corrected member |
|---|---|---|---|---|---|---|
| src/Auth/Process/AttributeAggregator.php:116 | `$config["nameIdFormat"] == $format` compares loosely, so boolean `true` equals every URI and is accepted and stored | `'nameIdFormat' => true` | only the four NameID format URIs are accepted | not executed; high on PHP 8 comparison rules | `Filter.TrueAcceptedAsFormat` | `Filter.FormatOf` |
| src/Auth/Process/AttributeAggregator.php:154 | `$config["attributeNameFormat"] == $format` compares loosely in the same way | `'attributeNameFormat' => true` | only the three name-format URIs are accepted | not executed; high on PHP 8 comparison rules | `Filter.FormatAsWritten` | `Filter.MatchFormat` |

The rest of the model uses the corrected check. `Filter.ConfiguredSettings` proves that
both stored formats are always listed URIs.

## Left out

- The HTTP surface is not modelled: the `StateId` request parameter and its BadRequest,
  loading the state, `redirectTrustedURL`, and `exit`. `Filter.Decide` returns `Redirect`
  where the filter would send the browser to the query entry point; the `StateId` it
  passes there is the undefined `$id` at line 197 (the state is never saved). The model
  takes the intended behaviour: the query entry point receives the same `State` that
  `process` filled in.
- Resuming the pipeline (`ProcessingChain::resumeProcessing`) is not modelled.
  `QueryEngine.QueryAttributes` returns `Ok` where the script resumes. In `process`,
  `Filter.Decide` returns `Resume` for an optional missing key attribute. This is the
  intended outcome of the call through the unimported legacy class.
- Session storage of the correlation record (`Session::setData`, one-hour lifetime) and
  `Random::generateID` are not modelled: storage and randomness are external. The
  correlation id is a parameter, and the record is not built.
- Logging is not modelled; it has no effect on behaviour.
- Cryptography, the SOAP exchange and response verification are oracles
  (`QueryEngine.Oracles`), as are the metadata sources, the metadata handler and the
  configuration singleton (their answers are inputs).
- `QueryEngine.QueryAttributes`: requires that response processing never yields zero
  assertions, because the source reads `$assertions[0]` without a check. It also
  requires that the key attribute holds a value, since the filter only redirects when it
  does.
- `Filter.AttributeIdOf`: an array-valued `attributeId` is refused at construction with
  InvalidAttributeId. PHP accepts it there and fails later, in `process`, with an
  illegal-offset error.
- `Filter.EntityIdOf`: a non-string `entityId`, and a non-string `multiSource` in
  `Filter.DecodeEntry`, are refused like an unknown id or a non-matching value. PHP
  refuses them with a TypeError under strict types.
- `Metadata.SelectEndpoint`: metadata shapes are simplified. A missing `Binding` or
  `Location` reads as the empty string, which behaves as PHP's null does in these
  comparisons. An associative or non-array AttributeService entry is not modelled.
  The warning from the undefined `$index` is not reproduced: its outcome,
  EndpointNotFound, is.
- `Metadata.ResolveMetadata`: a `Throws` source stands only for a source that throws
  `SimpleSAML\Error\Exception` or a subclass, the only class the `catch` at line 52
  catches. Any other throwable (a global `\Exception`, a `TypeError`) would abort the
  script instead of being skipped; such sources are not modelled.
- `QueryEngine.SendQuery`: a send error stands only for a `SimpleSAML\Error\Exception`,
  which `QueryEngine.QueryAttributes` wraps in QueryFailed as the `catch` at line 136
  does. Other throwables, which would propagate without the wrapper message, are not
  modelled.
- PHP floats and objects among configuration values are not modelled.
