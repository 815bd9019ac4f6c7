# Consumer-group ownership labels, modelled in Dafny

This project models the custom-label component of the Kafka exporter
(`customLabels.go`). The component attaches an ownership label (`owner:<team>`)
to the consumer-group identifiers whose lag the exporter reports. It has three
parts:

- **Configuration check.** A JSON schema fixes the accepted shape of the
  document: `consumer_notifiers`, a list of notifiers, each with
  `when.starts_with` (group-id prefixes) and `set.tags` (`owner:<name>` tags).
  Construction returns no resolver when the document breaks the schema, or when
  `json.Unmarshal` cannot store it.
- **Rule compilation.** The notifiers are folded into the table
  `labelByPrefix`. Across notifiers the first declaration of a prefix wins.
  Within a notifier the last `owner:` tag wins. Other tags are skipped. A
  notifier without an owner tag inserts nothing, so a later notifier can still
  claim its prefixes.
- **`FetchLabel`.** The label is looked up in a sliding-expiry cache (go-cache).
  A hit renews the entry. A miss scans the table in Go's unspecified map order
  for a prefix of the group id. A match is cached and returned. Otherwise the
  answer is `""` and nothing is cached.

Modules, leaves first:

- `Wrappers`: `Option` and `Result`.
- `GoStrings`: `strings.Split`, plus `Join` as its inverse.
- `Notifiers`: the parsed notifier and the schema's string patterns.
- `Document`: a parsed JSON value. It holds the schema check, the type check
  `json.Unmarshal` performs for `map[string][]Notifier`, the decoding, and
  `Encode` as the decoder's partner.
- `Rules`: the compilation loop, written as three folds that mirror the three
  nested Go loops. It also holds `FirstClaim`, a reference definition of the
  intended table.
- `SlidingCache`: go-cache's `Get`, `Set` and janitor sweep, with an explicit
  clock.
- `Resolver`: `NewCustomCGLagLabels` and `FetchLabel`.
- `TestSuite`: the test file's configurations and expectations.

Time is an integer tick count. The cache is a `map<string, Item>`, where an
item holds a value and an expiry. Go's map iteration order is modelled as a
free choice. `FetchStep` relates the state before and after one call and allows
*any* matching prefix to be picked. The `FetchLabel` method meets it by choosing
each next prefix with `:|`.

Behaviour of the code worth knowing, each stated by a lemma:

- The schema sets no `minItems`, so empty prefix and tag lists pass it
  (`EncodeSchemaValid`).
- A notifier with no owner tag inserts none of its prefixes, so a later
  notifier can still claim them (`OwnerlessDoesNotReserve`).
- Overlapping prefixes resolve to any matching prefix. There is no
  longest-prefix rule. `FetchDeterministicWhenUnambiguous` states when the
  answer is determined anyway.
- Construction can fail in two ways after parsing. The document may break the
  schema. Or it may pass the schema with an extra property that
  `json.Unmarshal` cannot store in `map[string][]Notifier`
  (`ExtraPropertyPassesSchemaFailsDecode`).

## Model

| member | source | states |
|---|---|---|
| `GoStrings.Split` | customLabels.go:114 | `strings.Split` with a one-character separator yields one more field than there are separators, and no field contains the separator |
| `GoStrings.JoinSplit` | customLabels.go:114 | joining the fields of a split with the separator gives back the original string |
| `GoStrings.SplitJoin` | customLabels.go:114 | splitting a join of separator-free fields gives back those fields |
| `Notifiers.NameHasNoColon` | customLabels.go:41 | a string matching `^[a-zA-Z0-9_i\-]+$` has no colon |
| `Rules.OwnerLabel` | customLabels.go:113-114 | for a tag starting with `owner:`, `Split(tag, ":")[1]` is the text after `owner:` up to the next colon or the end |
| `Rules.OwnerLabelOfValidTag` | customLabels.go:113-114 | for a tag matching `^owner:[a-zA-Z0-9_i\-]+$`, the label is the whole suffix after `owner:` (`owner:fotocasa` gives `fotocasa`) |
| `Rules.LastOwnerIsLast` | customLabels.go:112-118 | a notifier's owner label is absent iff it has no owner tag; otherwise it comes from an owner tag with no owner tag after it |
| `Rules.ApplyTagsSpec` | customLabels.go:112-118 | the tag loop sets the prefix to the last owner tag's label, and leaves the table untouched when there is no owner tag |
| `Rules.ApplyPrefixesSpec` | customLabels.go:106-119 | one notifier keeps every existing entry, and adds exactly its new prefixes when it has an owner tag, all with its last owner label |
| `Rules.CompileFromSpec` | customLabels.go:105-120 | the notifier loop, started from any table, keeps that table and adds exactly the first claims of the prefixes it lacks |
| `Rules.FirstClaimIsFirst` | customLabels.go:107-111 | the reference label of a prefix comes from the first notifier that declares it and has an owner tag, and is absent iff no notifier does both |
| `Rules.CompileCorrect` | customLabels.go:104-120 | a prefix is in the compiled table iff some notifier declares it and has an owner tag; its label comes from the first such notifier in document order |
| `Rules.FirstDeclarationWins` | customLabels.go:107-111 | once a prefix is in the table, appending more notifiers never removes it or changes its label |
| `Rules.LastOwnerTagWins` | customLabels.go:112-115 | a prefix a notifier newly inserts maps to the label of that notifier's last owner tag |
| `Rules.OwnerlessNotifierIsInert` | customLabels.go:112-118 | a notifier without an owner tag leaves the table exactly as it was |
| `Rules.OwnerlessDoesNotReserve` | customLabels.go:106-119 | a prefix declared only by an ownerless notifier is still claimed by a later notifier that has an owner tag |
| `Rules.UnsupportedTagsIgnored` | customLabels.go:115-117 | dropping every tag that is not an owner tag leaves the compiled table unchanged |
| `Rules.CompileValid` | customLabels.go:104-120 | for schema-valid notifiers, a prefix is in the table iff a notifier declares it and has any tag, and every label matches the name pattern |
| `Document.DecodeEncode` | customLabels.go:96-101 | decoding the document `{"consumer_notifiers": [...]}` built from a notifier list gives that list back |
| `Document.EncodeSchemaValid` | customLabels.go:15-63 | the schema accepts a notifier list iff every prefix is a non-empty string over `[a-zA-Z0-9_-]` and every tag is `owner:` followed by one; empty lists are accepted |
| `Document.DecodedValid` | customLabels.go:36-56 | every notifier decoded from a schema-valid document meets the prefix and tag patterns |
| `Document.NestedArrayRejected` | customLabels_test.go:11 | the test suite's document, with an array nested inside `consumer_notifiers`, fails the schema |
| `Document.ExtraPropertyPassesSchemaFailsDecode` | customLabels.go:96-101 | an extra top-level property of the wrong type passes the schema but makes decoding fail |
| `Resolver.New` | customLabels.go:75-130 | construction succeeds iff the document passes the schema and decodes; a schema violation is reported as `SchemaViolation`, and a schema-valid document that does not decode as `DecodeError`; on success the notifiers meet the patterns, the table is their compilation, the cache is empty, and the given expiration and cleanup interval are kept |
| `Resolver.NewFromNotifiers` | customLabels.go:75-130 | construction from a notifier list's document succeeds iff the list is schema-valid, and then yields that list's compiled table |
| `Resolver.NestedArrayConfigFails` | customLabels_test.go:45-50 | the malformed test document yields a schema error and no resolver |
| `Resolver.FetchLabel` | customLabels.go:132-147 | a hit answers the cached label and renews its expiry; a miss with a matching prefix answers and caches some matching prefix's label; a miss without one answers `""` and changes nothing; the table never changes |
| `Resolver.NewIsConsistent` | customLabels.go:122-129 | a new resolver's cache holds nothing that is not a table label of a prefix of its key |
| `Resolver.FetchAnswersTableLabel` | customLabels.go:132-147 | FetchLabel keeps the cache consistent with the table, and answers the label of a configured prefix of the group id, or `""` when no configured prefix matches |
| `Resolver.HitRenews` | customLabels.go:133-137 | on a hit the cached value is returned, that entry's expiry becomes `now + ttl`, and every other entry is unchanged |
| `Resolver.UnmatchedNotCached` | customLabels.go:139-145 | a group id that no configured prefix matches answers `""`, and neither the cache nor the table changes |
| `Resolver.MissWithSingleMatch` | customLabels.go:139-143 | on a miss with exactly one matching prefix, the answer is that prefix's label and the group id is cached with it |
| `Resolver.FetchRepeats` | customLabels.go:133-143 | a group id that has been resolved, when asked again before its entry expires, answers the same label whichever prefix the first call picked |
| `Resolver.HitExtendsLife` | customLabels.go:136 | a hit keeps the entry alive past its first expiry: a third call after that expiry, but within the renewed one, still answers the first label |
| `Resolver.FetchDeterministicWhenUnambiguous` | customLabels.go:139-143 | when all matching prefixes carry one label, the answer and the new state do not depend on the scan order |
| `SlidingCache.GetAfterSet` | customLabels.go:141 | a value just set is served until `now + ttl` and not after; a non-positive duration never expires |
| `SlidingCache.SetOtherKeys` | customLabels.go:136 | setting one key does not change what any other key reads |
| `SlidingCache.SweepInvisible` | customLabels.go:123 | the janitor keeps exactly the unexpired items, and from the sweep time on no read can tell it ran |
| `TestSuite.TestNotifiersValid` | customLabels_test.go:12-42 | the valid test configuration meets the schema's patterns |
| `TestSuite.TwoNotifiers` | customLabels.go:104-120 | for two notifiers with one `owner:<name>` tag each, where the second notifier's first prefix is none of the first notifier's prefixes, each notifier's first prefix maps to its own name, and the table holds no prefix they do not declare |
| `TestSuite.TestConfigCompiles` | customLabels_test.go:61-63 | the valid test configuration maps `string1` to `fotocasa` and `string3` to `mads` |
| `TestSuite.TestConfigAccepted` | customLabels_test.go:53-59 | construction from the valid test configuration succeeds |
| `TestSuite.TestFetchLabel` | customLabels_test.go:66-76 | `string1` is not cached at first, FetchLabel answers `fotocasa`, and afterwards `string1` is cached |

## Left out

- JSON text parsing (`json.Unmarshal`'s syntax errors) and the gojsonschema
  library. The model starts from a parsed JSON value and states the schema as
  predicates. A document that is not JSON at all has no counterpart.
- gojsonschema's error messages. A schema failure is reported as
  `SchemaViolation`, without the newline-joined list of violations.
- JSON objects with duplicate keys, and the values of JSON numbers. Objects are
  maps, and nothing reads a number.
- The `plog` debug and warning output (duplicate prefix, unsupported tag). It is
  a logging side channel with no effect on results.
- Concurrency: go-cache's locking and its janitor goroutine. `Sweep` models one
  pass of the janitor; when passes run is not modelled.
- The multiplication by `time.Minute`, and int64 nanosecond overflow. Durations
  and the clock are unbounded integer ticks.
- `FetchLabel` reads the clock once for `Get` and again for `Set`. The model
  uses one `now` for both.
- go-cache's own source is not part of this model. Its behaviour is taken from
  its documented semantics. An item is served while the clock is not past its
  expiry. A zero duration means the cache default. A default of zero, like any
  non-positive duration, means the item never expires.
- The concrete iteration order of Go maps. It is unspecified, so it is modelled
  as a free choice among matching prefixes.
