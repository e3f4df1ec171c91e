/**
  The provider of namespace `Extensions.Configuration.Providers.AwsSecretsManager`:
  it reads each secret payload as a JSON token stream and flattens it with a key
  buffer.
*/
module TokenStreamProvider {
  import opened Wrappers
  import opened Text
  import opened Formatting
  import opened ConfigTree
  import opened Discovery
  import opened BackingStore
  import opened JsonTokens

  /**
    `GetAwsSecret` together with the reader's lexing: the token stream of the secret
    with the given id, or the error the store client or the reader throws.
  */
  type SecretStore = string -> Result<seq<Token>, LoadError>

  /** What happens at a marker: `GetAwsSecret(child.Value)`, then `GetKeyValuePairsFromJson(parentPath, json)`. */
  function ResolveMarker(store: SecretStore, secretId: Option<string>, parentPath: string): Result<seq<Pair>, LoadError>
  {
    if secretId.None? then Failure(MissingSecretId)
    else
      match store(secretId.value)
      case Failure(e) => Failure(e)
      case Success(tokens) => Success(Flatten(parentPath, tokens))
  }

  function Resolver(store: SecretStore): Resolve
  {
    (secretId: Option<string>, parentPath: string) => ResolveMarker(store, secretId, parentPath)
  }

  /**
    `GetKeyValuePairsFromJson`: one pass over the tokens with a key buffer that starts
    as `parentPath`, grows by `":" + name` at each property name and is reset to
    `parentPath` after each emitted pair.
  */
  method GetKeyValuePairsFromJson(parentPath: string, tokens: seq<Token>) returns (keyValuePairs: seq<Pair>)
    ensures keyValuePairs == Flatten(parentPath, tokens)
  {
    keyValuePairs := [];
    var keyBuilder := parentPath;
    var i := 0;
    while i < |tokens|
      invariant 0 <= i <= |tokens|
      invariant keyValuePairs + FlattenFrom(parentPath, keyBuilder, tokens[i..]) == Flatten(parentPath, tokens)
    {
      assert tokens[i..][1..] == tokens[i + 1..];
      var value: Option<string> := None;
      match tokens[i] {
        case PropertyName(name) =>
          keyBuilder := keyBuilder + ":" + name;
        case Comment =>
        case String(text) =>
          value := Some(text);
        case Number(number) =>
          if number.doubleText.Some? {
            value := Some(number.doubleText.value);
          }
          if number.asInt32.Some? {
            value := Some(IntToString(number.asInt32.value));
          }
        case True =>
          value := Some(BoolToString(true));
        case False =>
          value := Some(BoolToString(false));
        case _ =>
      }
      if value.Some? {
        keyValuePairs := keyValuePairs + [(keyBuilder, value.value)];
        keyBuilder := parentPath;
      }
      i := i + 1;
    }
  }

  /**
    `RecurseForData`: appends to `keyValuePairs` (the `ref` list) what the walk finds
    below `config`, children in order; the first exception aborts the walk.
  */
  method RecurseForData(config: seq<Section>, secretKeyName: string, store: SecretStore, keyValuePairs: seq<Pair>)
    returns (r: Result<seq<Pair>, LoadError>)
    ensures r == Join(Success(keyValuePairs), Discover(config, secretKeyName, Resolver(store)))
    decreases config
  {
    var pairs := keyValuePairs;
    var i := 0;
    assert config[..0] == [];
    JoinIdentity(Success(keyValuePairs));
    while i < |config|
      invariant 0 <= i <= |config|
      invariant Join(Success(keyValuePairs), Discover(config[..i], secretKeyName, Resolver(store))) == Success(pairs)
    {
      var child := config[i];
      DiscoverSnoc(config[..i], child, secretKeyName, Resolver(store));
      assert config[..i + 1] == config[..i] + [child];
      JoinAssociative(Success(keyValuePairs), Discover(config[..i], secretKeyName, Resolver(store)), Visit(child, secretKeyName, Resolver(store)));
      if EqualsIgnoreCase(child.key, secretKeyName) {
        if child.value.None? {
          DiscoverPrefixFailure(config, i + 1, secretKeyName, Resolver(store));
          return Failure(MissingSecretId);
        }
        var secretValueJson := store(child.value.value);
        if secretValueJson.Failure? {
          DiscoverPrefixFailure(config, i + 1, secretKeyName, Resolver(store));
          return Failure(secretValueJson.error);
        }
        var parentPath := RemoveAll(child.path, ":" + child.key);
        var secretValues := GetKeyValuePairsFromJson(parentPath, secretValueJson.value);
        pairs := pairs + secretValues;
      } else {
        var found := RecurseForData(child.children, secretKeyName, store, pairs);
        if found.Failure? {
          DiscoverPrefixFailure(config, i + 1, secretKeyName, Resolver(store));
          return found;
        }
        pairs := found.value;
      }
      i := i + 1;
    }
    assert config[..i] == config;
    r := Success(pairs);
  }

  /** `ExtractData`: the walk into a fresh list. */
  method ExtractData(config: seq<Section>, secretKeyName: string, store: SecretStore) returns (r: Result<seq<Pair>, LoadError>)
    ensures r == Discover(config, secretKeyName, Resolver(store))
  {
    r := RecurseForData(config, secretKeyName, store, []);
    JoinIdentity(Discover(config, secretKeyName, Resolver(store)));
  }

  /** `AwsSecretsManagerConfigurationProvider` with its backing `Data` dictionary. */
  class Provider {
    const configuration: seq<Section>
    const secretKeyName: string
    const secretStore: SecretStore
    var data: Data

    constructor (configuration: seq<Section>, secretKeyName: string, secretStore: SecretStore)
      ensures this.configuration == configuration && this.secretKeyName == secretKeyName
      ensures this.secretStore == secretStore && data == map[]
    {
      this.configuration := configuration;
      this.secretKeyName := secretKeyName;
      this.secretStore := secretStore;
      data := map[];
    }

    /** The pairs the walk finds in the configuration, or the error that aborts it. */
    function Found(): Result<seq<Pair>, LoadError>
    {
      Discover(configuration, secretKeyName, Resolver(secretStore))
    }

    /**
      `Load`: clears `Data`, walks the configuration and adds every pair in order.
      What was loaded before never survives. A failing walk leaves `Data` empty; a
      duplicate key leaves it holding the pairs before the duplicate.
    */
    method Load() returns (outcome: Outcome<LoadError>)
      modifies this
      ensures Found().Failure? ==> outcome == Fail(Found().error) && data == map[]
      ensures Found().Success? && AddAll(map[], Found().value).Added? ==>
        outcome == Pass && data == AddAll(map[], Found().value).data
      ensures Found().Success? && AddAll(map[], Found().value).Rejected? ==>
        outcome == Fail(DuplicateKey(AddAll(map[], Found().value).key)) && data == AddAll(map[], Found().value).data
    {
      data := map[];
      var expandedKeyValuePairs := RecurseForData(configuration, secretKeyName, secretStore, []);
      JoinIdentity(Found());
      if expandedKeyValuePairs.Failure? {
        return Fail(expandedKeyValuePairs.error);
      }
      var pairs := expandedKeyValuePairs.value;
      var i := 0;
      while i < |pairs|
        invariant 0 <= i <= |pairs|
        invariant AddAll(data, pairs[i..]) == AddAll(map[], pairs)
      {
        assert pairs[i..][1..] == pairs[i + 1..];
        var key := pairs[i].0;
        if Fold(key) in data {
          return Fail(DuplicateKey(key));
        }
        data := data[Fold(key) := pairs[i].1];
        i := i + 1;
      }
      return Pass;
    }

    /** The value the provider holds for `key`, compared ignoring case. */
    function Get(key: string): Option<string>
      reads this
    {
      BackingStore.Get(data, key)
    }
  }

  // ---------------------------------------------------------------------------
  // The scenario of the provider's unit test

  /** The marker `someSettings:AwsSecret = secret1` of the application settings. */
  function TestMarker(): Section
  {
    Section("AwsSecret", "someSettings:AwsSecret", Some("secret1"), [])
  }

  /** The application settings: `someSettings` holding the marker. */
  function TestConfiguration(): seq<Section>
  {
    [Section("someSettings", "someSettings", None, [TestMarker()])]
  }

  /** The members of the serialised test options, in declaration order. */
  function TestMembers(): seq<(string, Token)>
  {
    [ ("secretString", String("Here is a secretstring")),
      ("secretInt", Int(13)),
      ("secretDouble", Number(JsonNumber(None, Some("0.15")))),
      ("secretBool", True) ]
  }

  /** The mock store: `secret1` holds the serialised options; any other id throws. */
  function TestSecrets(secretId: string): Result<seq<Token>, LoadError>
  {
    if secretId == "secret1" then Success(ObjectTokens(TestMembers())) else Failure(StoreError("KeyNotFoundException"))
  }

  /** The settings the test reads back. */
  function TestExpected(): seq<Pair>
  {
    [ ("someSettings:secretString", "Here is a secretstring"),
      ("someSettings:secretInt", "13"),
      ("someSettings:secretDouble", "0.15"),
      ("someSettings:secretBool", "True") ]
  }

  /** The test's keys are the member names under `someSettings`. */
  lemma TestKeys()
    ensures forall i :: 0 <= i < 4 ==> "someSettings" + ":" + TestMembers()[i].0 == TestExpected()[i].0
  {
    assert "someSettings" + ":" + "secretString" == "someSettings:secretString";
    assert "someSettings" + ":" + "secretInt" == "someSettings:secretInt";
    assert "someSettings" + ":" + "secretDouble" == "someSettings:secretDouble";
    assert "someSettings" + ":" + "secretBool" == "someSettings:secretBool";
  }

  /** The test's values are the rendered member tokens. */
  lemma TestValues()
    ensures forall i :: 0 <= i < 4 ==> Emits(TestMembers()[i].1) && Render(TestMembers()[i].1).value == TestExpected()[i].1
  {
    assert NatToString(13) == NatToString(1) + [DigitChar(3)] == "13";
  }

  lemma TestPayloadFlattened()
    ensures Flatten("someSettings", ObjectTokens(TestMembers())) == TestExpected()
  {
    var flat := Flatten("someSettings", ObjectTokens(TestMembers()));
    TestValues();
    FlatObject("someSettings", TestMembers());
    TestKeys();
    assert forall i :: 0 <= i < 4 ==> flat[i] == TestExpected()[i];
  }

  /** The marker resolves to its secret flattened under `someSettings`. */
  lemma TestMarkerResolved()
    ensures Visit(TestMarker(), "AwsSecret", Resolver(TestSecrets)) == Success(TestExpected())
  {
    var marker := TestMarker();
    assert IsMarker(marker, "AwsSecret");
    ColonFreeHasNoColonPattern("someSettings", ":" + marker.key);
    ParentPathOfNestedMarker("someSettings", marker);
    TestPayloadFlattened();
  }

  /** The walk over the test's settings finds the one marker and flattens its secret under `someSettings`. */
  lemma TestSettingsFound()
    ensures Discover(TestConfiguration(), "AwsSecret", Resolver(TestSecrets)) == Success(TestExpected())
  {
    var resolve := Resolver(TestSecrets);
    var settings := TestConfiguration()[0];
    assert !IsMarker(settings, "AwsSecret") by {
      assert |Fold("someSettings")| != |Fold("AwsSecret")|;
    }
    TestMarkerResolved();
    JoinIdentity(Success(TestExpected()));
    assert Discover(settings.children, "AwsSecret", resolve) == Success(TestExpected());
    assert Visit(settings, "AwsSecret", resolve) == Success(TestExpected());
  }

  /** No two of the test's keys are equal ignoring case. */
  lemma TestKeysDistinct()
    ensures DistinctIgnoringCase(TestExpected())
  {
    var expected := TestExpected();
    forall i, j | 0 <= i < j < 4 ensures Fold(expected[i].0) != Fold(expected[j].0) {
      if |expected[i].0| == |expected[j].0| {
        // only secretString and secretDouble have the same length; they differ at index 19
        assert i == 0 && j == 2;
        assert Fold(expected[i].0)[19] != Fold(expected[j].0)[19];
      }
    }
  }

  /**
    The test's expectations: every setting is added, each lookup gives the member's
    text, and the integer text reads back as 13.
  */
  lemma TestSettingsStored()
    ensures AddAll(map[], TestExpected()).Added?
    ensures var data := AddAll(map[], TestExpected()).data;
      && Get(data, "someSettings:secretString") == Some("Here is a secretstring")
      && Get(data, "someSettings:secretInt") == Some("13")
      && ParseInt(Get(data, "someSettings:secretInt").value) == Some(13)
      && Get(data, "someSettings:secretDouble") == Some("0.15")
      && Get(data, "someSettings:secretBool") == Some("True")
  {
    var expected := TestExpected();
    TestKeysDistinct();
    FillEmpty(expected);
    assert NatToString(13) == NatToString(1) + [DigitChar(3)] == "13";
    IntToStringRoundTrip(13);
  }
}
