/**
  The provider of namespace `Configuration.Providers.AwsSecretsManager`: it
  deserialises each secret into a string dictionary and prefixes its keys with the
  marker's parent path.
*/
module DictionaryProvider {
  import opened Wrappers
  import opened Text
  import opened ConfigTree
  import opened Discovery
  import opened BackingStore

  /** No two entries have the same key (the default, case-sensitive comparer). */
  predicate DistinctKeys(entries: seq<Pair>)
  {
    forall i, j :: 0 <= i < j < |entries| ==> entries[i].0 != entries[j].0
  }

  /** A `Dictionary<string, string>`, its entries in enumeration order. */
  type Dictionary = entries: seq<Pair> | DistinctKeys(entries)

  /**
    `GetAwsSecret` together with `JsonSerializer.Deserialize<Dictionary<string, string>>`:
    the deserialised secret (`None` for the JSON literal `null`), or the error the
    store client or the deserialiser throws.
  */
  type SecretStore = string -> Result<Option<Dictionary>, LoadError>

  predicate HasKey(entries: seq<Pair>, key: string)
  {
    exists i :: 0 <= i < |entries| && entries[i].0 == key
  }

  /** The dictionary's entries with every key moved under `parentPath`. */
  function Prefixed(parentPath: string, entries: seq<Pair>): seq<Pair>
  {
    if entries == [] then []
    else [(parentPath + ":" + entries[0].0, entries[0].1)] + Prefixed(parentPath, entries[1..])
  }

  /**
    What `GetKeyValuePairsFromJson` returns: under a blank parent path the
    deserialised dictionary itself, null included; otherwise a copy with every key
    prefixed by `parentPath + ":"`, whose loop throws when the dictionary is null.
  */
  function PrefixKeys(parentPath: string, secretValues: Option<Dictionary>): Result<Option<seq<Pair>>, LoadError>
  {
    if IsNullOrWhiteSpace(parentPath) then
      match secretValues
      case None => Success(None)
      case Some(entries) => Success(Some(entries))
    else
      match secretValues
      case None => Failure(NullSecret)
      case Some(entries) => Success(Some(Prefixed(parentPath, entries)))
  }

  /** What `keyValuePairs.AddRange(secretValues)` takes from the returned dictionary: it throws on null. */
  function Appended(secretValues: Option<seq<Pair>>): Result<seq<Pair>, LoadError>
  {
    match secretValues
    case None => Failure(NullSecret)
    case Some(pairs) => Success(pairs)
  }

  /** What happens at a marker: `GetAwsSecret(child.Value)`, `GetKeyValuePairsFromJson(parentPath, json)`, then `AddRange`. */
  function ResolveMarker(store: SecretStore, secretId: Option<string>, parentPath: string): Result<seq<Pair>, LoadError>
  {
    if secretId.None? then Failure(MissingSecretId)
    else
      match store(secretId.value)
      case Failure(e) => Failure(e)
      case Success(secretValues) =>
        match PrefixKeys(parentPath, secretValues)
        case Failure(e) => Failure(e)
        case Success(found) => Appended(found)
  }

  function Resolver(store: SecretStore): Resolve
  {
    (secretId: Option<string>, parentPath: string) => ResolveMarker(store, secretId, parentPath)
  }

  // ---------------------------------------------------------------------------
  // Properties of the prefixing

  /** Prefixing with the same parent path keeps distinct keys distinct. */
  lemma PrefixInjective(parentPath: string, a: string, b: string)
    requires parentPath + ":" + a == parentPath + ":" + b
    ensures a == b
  {
    var n := |parentPath| + 1;
    assert (parentPath + ":" + a)[n..] == a;
    assert (parentPath + ":" + b)[n..] == b;
  }

  /** Entry `i` of the prefixed dictionary is entry `i` of the original with its key under `parentPath`. */
  lemma {:induction false} PrefixedEntries(parentPath: string, entries: seq<Pair>)
    ensures |Prefixed(parentPath, entries)| == |entries|
    ensures forall i :: 0 <= i < |entries| ==>
      Prefixed(parentPath, entries)[i] == (parentPath + ":" + entries[i].0, entries[i].1)
  {
    if entries != [] {
      PrefixedEntries(parentPath, entries[1..]);
      assert forall i :: 0 < i < |entries| ==> entries[i] == entries[1..][i - 1];
    }
  }

  /**
    One-to-one output: the prefixed dictionary has one entry per original entry, no
    two with the same key, and cutting `parentPath + ":"` off each key gives back the
    original entry.
  */
  lemma PrefixedIsOneToOne(parentPath: string, entries: Dictionary)
    ensures var r := Prefixed(parentPath, entries);
      && |r| == |entries|
      && DistinctKeys(r)
      && forall i :: 0 <= i < |r| ==>
           && |r[i].0| > |parentPath|
           && r[i].0[..|parentPath| + 1] == parentPath + ":"
           && (r[i].0[|parentPath| + 1..], r[i].1) == entries[i]
  {
    var r := Prefixed(parentPath, entries);
    PrefixedEntries(parentPath, entries);
    forall i, j | 0 <= i < j < |r| ensures r[i].0 != r[j].0 {
      if r[i].0 == r[j].0 {
        PrefixInjective(parentPath, entries[i].0, entries[j].0);
      }
    }
    forall i | 0 <= i < |r|
      ensures |r[i].0| > |parentPath|
      ensures r[i].0[..|parentPath| + 1] == parentPath + ":"
      ensures (r[i].0[|parentPath| + 1..], r[i].1) == entries[i]
    {
      assert r[i].0 == (parentPath + ":") + entries[i].0;
    }
  }

  /**
    `GetKeyValuePairsFromJson`: a blank parent path returns the deserialised
    dictionary itself, even when it is null; otherwise a new dictionary is filled
    entry by entry with the prefixed keys, and its `Add` can never meet a key twice.
  */
  method GetKeyValuePairsFromJson(parentPath: string, secretValues: Option<Dictionary>)
    returns (r: Result<Option<seq<Pair>>, LoadError>)
    ensures r == PrefixKeys(parentPath, secretValues)
    ensures r.Failure? <==> secretValues.None? && !IsNullOrWhiteSpace(parentPath)
    ensures r.Success? ==> (r.value.None? <==> secretValues.None?)
    ensures IsNullOrWhiteSpace(parentPath) && secretValues.Some? ==> r == Success(Some(secretValues.value))
    ensures r.Success? && r.value.Some? ==> |r.value.value| == |secretValues.value| && DistinctKeys(r.value.value)
  {
    if IsNullOrWhiteSpace(parentPath) {
      match secretValues
      case None => return Success(None);
      case Some(entries) => return Success(Some(entries));
    }
    if secretValues.None? {
      // enumerating a null dictionary throws
      return Failure(NullSecret);
    }
    var entries := secretValues.value;
    var secretValuesWithParentPath: seq<Pair> := [];
    for i := 0 to |entries|
      invariant secretValuesWithParentPath == Prefixed(parentPath, entries[..i])
      invariant DistinctKeys(secretValuesWithParentPath)
    {
      var key := parentPath + ":" + entries[i].0;
      PrefixedEntries(parentPath, entries[..i]);
      assert !HasKey(secretValuesWithParentPath, key) by {
        forall j | 0 <= j < i ensures secretValuesWithParentPath[j].0 != key {
          if secretValuesWithParentPath[j].0 == key {
            PrefixInjective(parentPath, entries[j].0, entries[i].0);
          }
        }
      }
      PrefixedAppend(parentPath, entries[..i], entries[i]);
      assert entries[..i + 1] == entries[..i] + [entries[i]];
      secretValuesWithParentPath := secretValuesWithParentPath + [(key, entries[i].1)];
    }
    assert entries[..|entries|] == entries;
    PrefixedIsOneToOne(parentPath, entries);
    return Success(Some(secretValuesWithParentPath));
  }

  lemma {:induction false} PrefixedAppend(parentPath: string, entries: seq<Pair>, last: Pair)
    ensures Prefixed(parentPath, entries + [last]) == Prefixed(parentPath, entries) + [(parentPath + ":" + last.0, last.1)]
    decreases |entries|
  {
    if entries == [] {
      assert entries + [last] == [last];
    } else {
      assert (entries + [last])[1..] == entries[1..] + [last];
      PrefixedAppend(parentPath, entries[1..], last);
    }
  }

  /**
    A marker at the top level has no colon to remove, so its own key becomes the
    parent path: the secret's entries land under `key:` rather than at the root.
  */
  lemma TopLevelMarkerNestsUnderItsOwnKey(child: Section, secretKeyName: string, store: SecretStore, entries: Dictionary)
    requires IsMarker(child, secretKeyName) && ':' !in child.key
    requires child.path == ChildPath(None, child.key) && !IsNullOrWhiteSpace(child.key)
    requires child.value.Some? && store(child.value.value) == Success(Some(entries))
    ensures Visit(child, secretKeyName, Resolver(store)) == Success(Prefixed(child.key, entries))
  {
    ParentPathOfTopLevelMarker(child);
  }

  /**
    A marker below the section at `parentPath` (whose path does not repeat the
    marker's segment) puts the secret's entries under `parentPath:`.
  */
  lemma NestedMarkerNestsUnderItsParent(parentPath: string, child: Section, secretKeyName: string, store: SecretStore, entries: Dictionary)
    requires IsMarker(child, secretKeyName) && ':' !in child.key
    requires child.path == ChildPath(Some(parentPath), child.key) && !Contains(parentPath, ":" + child.key)
    requires !IsNullOrWhiteSpace(parentPath)
    requires child.value.Some? && store(child.value.value) == Success(Some(entries))
    ensures Visit(child, secretKeyName, Resolver(store)) == Success(Prefixed(parentPath, entries))
  {
    ParentPathOfNestedMarker(parentPath, child);
  }

  /**
    `RecurseForData`: appends to `keyValuePairs` (the `ref` list) what the walk finds
    below `config`, children in order; the first exception aborts the walk.
  */
  method RecurseForData(config: seq<Section>, secretKeyName: string, store: SecretStore, keyValuePairs: seq<Pair>)
    returns (r: Result<seq<Pair>, LoadError>)
    ensures r == Join(Success(keyValuePairs), Discover(config, secretKeyName, Resolver(store)))
    decreases config
  {
    var pairs := keyValuePairs;
    var i := 0;
    assert config[..0] == [];
    JoinIdentity(Success(keyValuePairs));
    while i < |config|
      invariant 0 <= i <= |config|
      invariant Join(Success(keyValuePairs), Discover(config[..i], secretKeyName, Resolver(store))) == Success(pairs)
    {
      var child := config[i];
      DiscoverSnoc(config[..i], child, secretKeyName, Resolver(store));
      assert config[..i + 1] == config[..i] + [child];
      JoinAssociative(Success(keyValuePairs), Discover(config[..i], secretKeyName, Resolver(store)), Visit(child, secretKeyName, Resolver(store)));
      if EqualsIgnoreCase(child.key, secretKeyName) {
        if child.value.None? {
          DiscoverPrefixFailure(config, i + 1, secretKeyName, Resolver(store));
          return Failure(MissingSecretId);
        }
        var secretValueJson := store(child.value.value);
        if secretValueJson.Failure? {
          DiscoverPrefixFailure(config, i + 1, secretKeyName, Resolver(store));
          return Failure(secretValueJson.error);
        }
        var parentPath := RemoveAll(child.path, ":" + child.key);
        var secretValues := GetKeyValuePairsFromJson(parentPath, secretValueJson.value);
        if secretValues.Failure? {
          DiscoverPrefixFailure(config, i + 1, secretKeyName, Resolver(store));
          return Failure(secretValues.error);
        }
        if secretValues.value.None? {
          // `AddRange(null)` throws
          DiscoverPrefixFailure(config, i + 1, secretKeyName, Resolver(store));
          return Failure(NullSecret);
        }
        pairs := pairs + secretValues.value.value;
      } else {
        var found := RecurseForData(child.children, secretKeyName, store, pairs);
        if found.Failure? {
          DiscoverPrefixFailure(config, i + 1, secretKeyName, Resolver(store));
          return found;
        }
        pairs := found.value;
      }
      i := i + 1;
    }
    assert config[..i] == config;
    r := Success(pairs);
  }

  /** `AwsSecretsManagerConfigurationProvider` with its backing `Data` dictionary and injected store client. */
  class Provider {
    const configuration: seq<Section>
    const secretKeyName: string
    const amazonSecretsManager: SecretStore
    var data: Data

    constructor (configuration: seq<Section>, amazonSecretsManager: SecretStore, secretKeyName: string)
      ensures this.configuration == configuration && this.secretKeyName == secretKeyName
      ensures this.amazonSecretsManager == amazonSecretsManager && data == map[]
    {
      this.configuration := configuration;
      this.secretKeyName := secretKeyName;
      this.amazonSecretsManager := amazonSecretsManager;
      data := map[];
    }

    /** The pairs the walk finds in the configuration, or the error that aborts it. */
    function Found(): Result<seq<Pair>, LoadError>
    {
      Discover(configuration, secretKeyName, Resolver(amazonSecretsManager))
    }

    /**
      `Load`: clears `Data`, walks the configuration and adds every pair in order.
      What was loaded before never survives. A failing walk leaves `Data` empty; a
      duplicate key leaves it holding the pairs before the duplicate.
    */
    method Load() returns (outcome: Outcome<LoadError>)
      modifies this
      ensures Found().Failure? ==> outcome == Fail(Found().error) && data == map[]
      ensures Found().Success? && AddAll(map[], Found().value).Added? ==>
        outcome == Pass && data == AddAll(map[], Found().value).data
      ensures Found().Success? && AddAll(map[], Found().value).Rejected? ==>
        outcome == Fail(DuplicateKey(AddAll(map[], Found().value).key)) && data == AddAll(map[], Found().value).data
    {
      data := map[];
      var expandedKeyValuePairs := RecurseForData(configuration, secretKeyName, amazonSecretsManager, []);
      JoinIdentity(Found());
      if expandedKeyValuePairs.Failure? {
        return Fail(expandedKeyValuePairs.error);
      }
      var pairs := expandedKeyValuePairs.value;
      var i := 0;
      while i < |pairs|
        invariant 0 <= i <= |pairs|
        invariant AddAll(data, pairs[i..]) == AddAll(map[], pairs)
      {
        assert pairs[i..][1..] == pairs[i + 1..];
        var key := pairs[i].0;
        if Fold(key) in data {
          return Fail(DuplicateKey(key));
        }
        data := data[Fold(key) := pairs[i].1];
        i := i + 1;
      }
      return Pass;
    }

    /** The value the provider holds for `key`, compared ignoring case. */
    function Get(key: string): Option<string>
      reads this
    {
      BackingStore.Get(data, key)
    }
  }
}
