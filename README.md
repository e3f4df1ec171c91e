# AWS Secrets Manager configuration provider, modelled in Dafny

The repository ships a .NET `ConfigurationProvider` that expands secrets stored in
AWS Secrets Manager into configuration settings. Its `Load` walks an existing
configuration tree, depth first and children in order. Every section whose key equals
the *secret key name* (for example `AwsSecret`), ignoring case, is a **marker**. The
marker's value is a secret id. The secret is fetched and parsed as JSON, and its values
become settings under the marker's *parent path*, which is the marker's path with
`":" + key` removed, ignoring case. All pairs found are then added to the provider's
case-insensitive `Data` dictionary.

Two variants of the provider exist, and both are modelled:

* **Token-stream variant** (namespace `Extensions.Configuration.Providers.AwsSecretsManager`,
  module `TokenStreamProvider`). It reads the secret with a `Utf8JsonReader` and
  builds keys in one buffer. A property name appends `:name`. Every emitted value
  resets the buffer to the parent path. Strings are stored verbatim, numbers as their
  Int32 text if they have one (otherwise as the text of the double), and booleans as
  `True`/`False`. Null, comments and structural tokens emit nothing.
* **Dictionary variant** (namespace `Configuration.Providers.AwsSecretsManager`,
  module `DictionaryProvider`). It deserialises the secret into a string dictionary.
  Under a blank parent path it returns the dictionary unchanged. Otherwise it copies the
  dictionary with every key prefixed by `parentPath:`. The store client is injected.

Shared modules:

* `Text`: ASCII case folding, case-insensitive replace-all and `IsNullOrWhiteSpace`.
* `Formatting`: `Int32` and `bool` text, with a parser for the round trip.
* `ConfigTree`: configuration sections, paths and the parent-path rule.
* `Discovery`: the walk as a specification function `Discover`, generic over what
  happens at a marker.
* `BackingStore`: the `Data` dictionary, where `Add` throws on a duplicate key.

Each imperative source method (`GetKeyValuePairsFromJson`, `RecurseForData`,
`ExtractData`, `Load`) is a Dafny `method` with the source's loop. Its
postcondition ties its result, or the provider's new state, to these specification
functions. The properties are proved about the functions.

The source's quirks are kept as written and stated as lemmas:

* The replace removes *every* occurrence of `":" + key`, not only the trailing one.
* A nested object's second member loses the object's segment.
* A `null` value leaves its segment in the key buffer.
* Array elements after the first lose the property name.
* An empty parent path leaves a leading colon.
* A top-level marker nests its secret under its own key.

## Model

| member | source | states |
|---|---|---|
| Text.FoldIdempotent | src/Configuration.Providers/Configuration.Providers/AwsSecretsManager/AwsSecretsManagerConfigurationProvider.cs:68 | the folded form is a normal form: it has no upper-case letter and folding it again changes nothing |
| Text.EqualsIgnoreCaseIff | src/Configuration.Providers/Configuration.Providers/AwsSecretsManager/AwsSecretsManagerConfigurationProvider.cs:68 | the key comparison holds exactly when the strings have the same length and agree at every index up to the case of a letter |
| Text.RemoveAllFoldedPattern | src/Configuration.Providers/Configuration.Providers/AwsSecretsManager/AwsSecretsManagerConfigurationProvider.cs:71 | the replace ignores case: patterns that differ only in case remove the same text |
| Text.RemoveAllWithoutOccurrence | src/Configuration.Providers/Configuration.Providers/AwsSecretsManager/AwsSecretsManagerConfigurationProvider.cs:71 | a path without the pattern, in any case, comes back unchanged |
| Text.RemoveAllDeletesOccurrence | src/Configuration.Providers/Configuration.Providers/AwsSecretsManager/AwsSecretsManagerConfigurationProvider.cs:71 | the first occurrence (ignoring case) is cut out and the scan goes on after it |
| Text.RemoveAllTrailingSegment | src/Configuration.Providers/Configuration.Providers/AwsSecretsManager/AwsSecretsManagerConfigurationProvider.cs:71 | `parent + ":" + key` with `parent` free of the pattern gives back `parent` |
| Text.RemoveAllMangledSegment | src/Configuration.Providers/Configuration.Providers/AwsSecretsManager/AwsSecretsManagerConfigurationProvider.cs:71 | inner occurrences are removed too: `a:AwsSecretX:AwsSecret` gives `aX` |
| Formatting.NatToString | src/Configuration.Providers/Configuration.Providers/AwsSecretsManager/AwsSecretsManagerConfigurationProvider.cs:114-117 | decimal text is non-empty, all digits, with no leading zero |
| Formatting.IntToStringRoundTrip | src/Configuration.Providers/Configuration.Providers/AwsSecretsManager/AwsSecretsManagerConfigurationProvider.cs:114-117 | the stored Int32 text parses back to the same integer |
| Formatting.IntToStringCanonical | src/Configuration.Providers/Configuration.Providers/AwsSecretsManager/AwsSecretsManagerConfigurationProvider.cs:114-117 | a minus sign exactly for negatives, digits otherwise, no leading zero |
| ConfigTree.ParentPathOfNestedMarker | src/Configuration.Providers/Configuration.Providers/AwsSecretsManager/AwsSecretsManagerConfigurationProvider.cs:71 | a nested marker's parent path is the path of the section holding it |
| ConfigTree.ParentPathOfTopLevelMarker | src/Configuration.Providers/AwsSecretsManager/AwsSecretsManagerConfigurationProvider.cs:57 | a top-level marker's parent path is its own key, because there is no colon to remove |
| ConfigTree.ParentPathDeletesInnerOccurrences | src/Configuration.Providers/Configuration.Providers/AwsSecretsManager/AwsSecretsManagerConfigurationProvider.cs:71 | a path repeating the marker's segment loses the inner copy as well |
| Discovery.DiscoverAppend | src/Configuration.Providers/Configuration.Providers/AwsSecretsManager/AwsSecretsManagerConfigurationProvider.cs:66-79 | walking two runs of siblings yields the first run's pairs followed by the second's, and the first failure wins |
| Discovery.DiscoverPrefixFailure | src/Configuration.Providers/Configuration.Providers/AwsSecretsManager/AwsSecretsManagerConfigurationProvider.cs:66-79 | an exception among the first `i` children aborts the walk with that exception |
| Discovery.DiscoverResolvesMarkersInOrder | src/Configuration.Providers/Configuration.Providers/AwsSecretsManager/AwsSecretsManagerConfigurationProvider.cs:64-80 | the walk equals resolving, in depth-first order, the list of markers it reaches |
| Discovery.MarkersAreVisitedMarkers | src/Configuration.Providers/Configuration.Providers/AwsSecretsManager/AwsSecretsManagerConfigurationProvider.cs:68-78 | a section is resolved iff it is a marker that the walk reaches without passing another marker |
| Discovery.MarkerChildrenIgnored | src/Configuration.Providers/Configuration.Providers/AwsSecretsManager/AwsSecretsManagerConfigurationProvider.cs:68-74 | the children of a marker are never searched |
| Discovery.DiscoverMatchesPassedDownParent | src/Configuration.Providers/Configuration.Providers/AwsSecretsManager/AwsSecretsManagerConfigurationProvider.cs:71 | on a well-formed tree whose paths do not repeat the marker segment, deriving the parent path from the marker's path equals passing the parent's path down |
| BackingStore.AddAllSucceedsIff | src/Configuration.Providers/Configuration.Providers/AwsSecretsManager/AwsSecretsManagerConfigurationProvider.cs:38-41 | adding every pair succeeds iff no two keys are equal ignoring case and none is already present |
| BackingStore.AddAllAddsPairs | src/Configuration.Providers/Configuration.Providers/AwsSecretsManager/AwsSecretsManagerConfigurationProvider.cs:38-41 | after a successful add, the dictionary is the old one plus exactly the pairs |
| BackingStore.AddAllRejectsDuplicate | src/Configuration.Providers/Configuration.Providers/AwsSecretsManager/AwsSecretsManagerConfigurationProvider.cs:38-41 | a rejected add stops at the first duplicate key and keeps the pairs added before it |
| BackingStore.FillEmpty | src/Configuration.Providers/Configuration.Providers/AwsSecretsManager/AwsSecretsManagerConfigurationProvider.cs:34-41 | filling a cleared dictionary succeeds iff the keys are distinct ignoring case; each key then reads back its value, and nothing else is present |
| JsonTokens.FlattenValues | src/Configuration.Providers/Configuration.Providers/AwsSecretsManager/AwsSecretsManagerConfigurationProvider.cs:96-141 | the values emitted are exactly the rendered value tokens, in stream order |
| JsonTokens.SilentTokens | src/Configuration.Providers/Configuration.Providers/AwsSecretsManager/AwsSecretsManagerConfigurationProvider.cs:100-104 | tokens that emit nothing only add their property segments to the key buffer |
| JsonTokens.FirstEmission | src/Configuration.Providers/Configuration.Providers/AwsSecretsManager/AwsSecretsManagerConfigurationProvider.cs:136-141 | the first value is keyed by the buffer's accumulated segments, and afterwards the buffer restarts at the parent path |
| JsonTokens.Silent | src/Configuration.Providers/Configuration.Providers/AwsSecretsManager/AwsSecretsManagerConfigurationProvider.cs:125-131 | a stream without values yields no pairs |
| JsonTokens.FlatObject | src/Configuration.Providers/Configuration.Providers/AwsSecretsManager/AwsSecretsManagerConfigurationProvider.cs:88-145 | a flat object of values yields one pair per member, in order, keyed `parentPath:name` |
| JsonTokens.NullKeepsItsSegment | src/Configuration.Providers/Configuration.Providers/AwsSecretsManager/AwsSecretsManagerConfigurationProvider.cs:130-141 | a `null` member's segment stays in the key of the next value |
| JsonTokens.NestedSiblingLosesSegment | src/Configuration.Providers/Configuration.Providers/AwsSecretsManager/AwsSecretsManagerConfigurationProvider.cs:139-140 | the second member of a nested object loses the object's segment |
| JsonTokens.ArrayElementsAfterTheFirstLoseTheName | src/Configuration.Providers/Configuration.Providers/AwsSecretsManager/AwsSecretsManagerConfigurationProvider.cs:136-141 | only the first array element carries the property name |
| JsonTokens.EmptyParentPathKeepsLeadingColon | src/Configuration.Providers/Configuration.Providers/AwsSecretsManager/AwsSecretsManagerConfigurationProvider.cs:91 | an empty parent path gives keys that start with a colon |
| JsonTokens.NonIntegerNumberUsesDoubleText | src/Configuration.Providers/Configuration.Providers/AwsSecretsManager/AwsSecretsManagerConfigurationProvider.cs:108-118 | a number with no Int32 value is stored as its double text |
| TokenStreamProvider.GetKeyValuePairsFromJson | src/Configuration.Providers/Configuration.Providers/AwsSecretsManager/AwsSecretsManagerConfigurationProvider.cs:88-145 | the token loop returns exactly the flattening of the stream |
| TokenStreamProvider.RecurseForData | src/Configuration.Providers/Configuration.Providers/AwsSecretsManager/AwsSecretsManagerConfigurationProvider.cs:64-80 | the `ref` list gains the walk's pairs, or the walk's first exception is raised |
| TokenStreamProvider.ExtractData | src/Configuration.Providers/Configuration.Providers/AwsSecretsManager/AwsSecretsManagerConfigurationProvider.cs:50-56 | starting from an empty list, the result is the walk itself |
| TokenStreamProvider.Provider.constructor | src/Configuration.Providers/Configuration.Providers/AwsSecretsManager/AwsSecretsManagerConfigurationProvider.cs:24-28 | keeps the configuration and key name; `Data` starts empty |
| TokenStreamProvider.Provider.Load | src/Configuration.Providers/Configuration.Providers/AwsSecretsManager/AwsSecretsManagerConfigurationProvider.cs:31-42 | clears `Data`, then either fails with the walk's exception and leaves `Data` empty, or adds every pair, failing at a duplicate key with the earlier pairs kept |
| TokenStreamProvider.TestPayloadFlattened | src/Configuration.Providers/Configuration.Providers.Tests/AwsSecretsManager/AwsSecretsManagerConfigurationProviderTests.cs:24-35 | the serialised test options flatten to four `someSettings:` pairs |
| TokenStreamProvider.TestSettingsFound | src/Configuration.Providers/Configuration.Providers.Tests/AwsSecretsManager/AwsSecretsManagerConfigurationProviderTests.cs:37-42 | the walk over `someSettings:AwsSecret = secret1` finds those four pairs |
| TokenStreamProvider.TestSettingsStored | src/Configuration.Providers/Configuration.Providers.Tests/AwsSecretsManager/AwsSecretsManagerConfigurationProviderTests.cs:53-56 | the four settings load without conflict and read back as the asserted texts, and the stored integer setting parses back to 13 |
| DictionaryProvider.PrefixInjective | src/Configuration.Providers/AwsSecretsManager/AwsSecretsManagerConfigurationProvider.cs:91 | prefixing with one parent path never maps two keys to the same key |
| DictionaryProvider.PrefixedEntries | src/Configuration.Providers/AwsSecretsManager/AwsSecretsManagerConfigurationProvider.cs:88-94 | the prefixed dictionary holds entry `i` with its key under `parentPath:` |
| DictionaryProvider.PrefixedIsOneToOne | src/Configuration.Providers/AwsSecretsManager/AwsSecretsManagerConfigurationProvider.cs:88-94 | prefixing keeps the size and distinct keys, and cutting the prefix gives back each entry |
| DictionaryProvider.GetKeyValuePairsFromJson | src/Configuration.Providers/AwsSecretsManager/AwsSecretsManagerConfigurationProvider.cs:74-95 | a blank parent path returns the deserialised dictionary itself, null included; otherwise a null dictionary throws, and a non-null one is copied with every key prefixed, one entry per entry, and `Add` never collides |
| DictionaryProvider.TopLevelMarkerNestsUnderItsOwnKey | src/Configuration.Providers/AwsSecretsManager/AwsSecretsManagerConfigurationProvider.cs:54-59 | a top-level marker's secret lands under `key:` |
| DictionaryProvider.NestedMarkerNestsUnderItsParent | src/Configuration.Providers/AwsSecretsManager/AwsSecretsManagerConfigurationProvider.cs:54-59 | a nested marker's secret lands under its parent section's path |
| DictionaryProvider.RecurseForData | src/Configuration.Providers/AwsSecretsManager/AwsSecretsManagerConfigurationProvider.cs:50-66 | the `ref` list gains the walk's pairs, or the walk's first exception is raised, including `AddRange` of a null dictionary |
| DictionaryProvider.Provider.constructor | src/Configuration.Providers/AwsSecretsManager/AwsSecretsManagerConfigurationProvider.cs:24-29 | keeps the configuration, client and key name; `Data` starts empty |
| DictionaryProvider.Provider.Load | src/Configuration.Providers/AwsSecretsManager/AwsSecretsManagerConfigurationProvider.cs:32-42 | clears `Data`, then either fails with the walk's exception and leaves `Data` empty, or adds every pair, failing at a duplicate key with the earlier pairs kept |

## Left out

- `GetAwsSecret` (both variants): the network call, the async wait and the Base64 text of a binary secret are not modelled. The secret store is a function parameter from secret id to a token stream or a dictionary, or to an error.
- The token-stream variant builds its `AmazonSecretsManagerClient` inside `GetAwsSecret`. Here the client is a parameter of `Provider`, like the injected client of the dictionary variant.
- JSON lexing (`Utf8JsonReader`, UTF-8 encoding) and `JsonSerializer.Deserialize` are not modelled. Their output, a token stream or a dictionary, is the store's result, and their exceptions are its errors.
- `double.ToString()` is culture-dependent floating-point formatting. A number token carries its double text as given.
- `int.ToString()` uses the current culture's negative sign. The model writes an ASCII `-`, which is what the invariant culture and most others give.
- Case-insensitive comparison is modelled as ASCII folding. This covers `string.Compare(..., true)`, the `InvariantCultureIgnoreCase` replace and the `OrdinalIgnoreCase` comparer of `Data`. Non-ASCII case mappings are not modelled.
- A marker whose value is `null` fails with `MissingSecretId`, which stands for the exception the store client throws for a request without an id.
- The dictionary variant is assumed to enumerate `Dictionary<string, string>` in insertion order, which .NET does not promise. The model keeps the deserialised entries in document order.
- `DictionaryKeyPolicy` is not applied. System.Text.Json uses it only when serialising, so deserialised keys are kept as written.
- Duplicate keys: `Load` follows the code, where `Data.Add` throws on a key already present and keeps the pairs added before it. A last-write-wins merge is not what the code does.
- The builder extension, the configuration sources, the option binding of the unit test and the mock client are not modelled. The unit test imports the token-stream namespace, but it passes a client object to `AddAwsSecretsManager`, and among these files only the dictionary variant's builder extension takes one; so it most likely wires the dictionary variant. Its payload, however, holds a number and a boolean, which the dictionary deserialiser rejects. Its expected settings are what the token-stream flattener produces, so the test scenario is stated for the token-stream variant. The member order of the test options is assumed to be declaration order.
- DictionaryProvider.GetKeyValuePairsFromJson: dictionary values are non-null strings. A JSON `null` value, which the deserialiser keeps as a null entry that is then prefixed and added to `Data` (where it still occupies its key), is not modelled.
- TokenStreamProvider.TestSettingsStored: the options binding of the test (`GetValue<double>`, `GetValue<bool>`) is not modelled. The lemma states the stored texts and only the integer round trip.
