/**
  `ConfigurationProvider.Data`, the dictionary a provider answers lookups from.
  The host creates it with the OrdinalIgnoreCase comparer, so it is modelled as a
  map from the case-folded key to the value. `Load` fills it with `Data.Add`, which
  throws when the key is already present and leaves the earlier entries in place.
*/
module BackingStore {
  import opened Wrappers
  import opened Text
  import opened ConfigTree

  type Data = map<string, string>

  /** `ConfigurationProvider.TryGet`: case-insensitive lookup. */
  function Get(data: Data, key: string): Option<string>
  {
    if Fold(key) in data then Some(data[Fold(key)]) else None
  }

  /** Either every pair was added, or `Add` threw on `key`, leaving `data` as it was at that moment. */
  datatype AddOutcome = Added(data: Data) | Rejected(key: string, data: Data)

  /** `foreach (var pair in pairs) Data.Add(pair);` */
  function AddAll(data: Data, pairs: seq<Pair>): AddOutcome
    decreases |pairs|
  {
    if pairs == [] then Added(data)
    else if Fold(pairs[0].0) in data then Rejected(pairs[0].0, data)
    else AddAll(data[Fold(pairs[0].0) := pairs[0].1], pairs[1..])
  }

  /** No two pairs have keys that are equal ignoring case. */
  predicate DistinctIgnoringCase(pairs: seq<Pair>)
  {
    forall i, j :: 0 <= i < j < |pairs| ==> Fold(pairs[i].0) != Fold(pairs[j].0)
  }

  /** The dictionary holding `pairs`, keyed case-insensitively (later pairs win; only used when keys are distinct). */
  function Index(pairs: seq<Pair>): Data
  {
    if pairs == [] then map[] else map[Fold(pairs[0].0) := pairs[0].1] + Index(pairs[1..])
  }

  /** With distinct keys, `Index` holds exactly the pairs' keys, each with its own value. */
  lemma {:induction false} IndexHoldsPairs(pairs: seq<Pair>)
    requires DistinctIgnoringCase(pairs)
    ensures forall i :: 0 <= i < |pairs| ==> Fold(pairs[i].0) in Index(pairs) && Index(pairs)[Fold(pairs[i].0)] == pairs[i].1
    ensures forall k :: k in Index(pairs) ==> exists i :: 0 <= i < |pairs| && k == Fold(pairs[i].0)
  {
    if pairs != [] {
      var rest := pairs[1..];
      DistinctTail(pairs);
      IndexHoldsPairs(rest);
      forall i | 0 < i < |pairs|
        ensures Fold(pairs[i].0) in Index(pairs) && Index(pairs)[Fold(pairs[i].0)] == pairs[i].1
      {
        assert pairs[i] == rest[i - 1];
      }
      forall k | k in Index(pairs)
        ensures exists i :: 0 <= i < |pairs| && k == Fold(pairs[i].0)
      {
        if k != Fold(pairs[0].0) {
          var i :| 0 <= i < |rest| && k == Fold(rest[i].0);
          assert rest[i] == pairs[i + 1];
        }
      }
    }
  }

  lemma DistinctTail(pairs: seq<Pair>)
    requires pairs != [] && DistinctIgnoringCase(pairs)
    ensures DistinctIgnoringCase(pairs[1..])
    ensures forall i :: 0 <= i < |pairs| - 1 ==> Fold(pairs[1..][i].0) != Fold(pairs[0].0)
  {
    var rest := pairs[1..];
    forall i, j | 0 <= i < j < |rest| ensures Fold(rest[i].0) != Fold(rest[j].0) {
      assert rest[i] == pairs[i + 1] && rest[j] == pairs[j + 1];
    }
    forall i | 0 <= i < |rest| ensures Fold(rest[i].0) != Fold(pairs[0].0) {
      assert rest[i] == pairs[i + 1];
    }
  }

  /**
    Adding `pairs` one by one to `data` succeeds exactly when their keys are distinct
    from each other and from `data`'s, ignoring case.
  */
  lemma {:induction false} AddAllSucceedsIff(data: Data, pairs: seq<Pair>)
    ensures AddAll(data, pairs).Added?
        <==> DistinctIgnoringCase(pairs) && forall i :: 0 <= i < |pairs| ==> Fold(pairs[i].0) !in data
    decreases |pairs|
  {
    if pairs != [] {
      var k0, v0 := Fold(pairs[0].0), pairs[0].1;
      var rest := pairs[1..];
      if k0 !in data {
        var data' := data[k0 := v0];
        AddAllSucceedsIff(data', rest);
        if DistinctIgnoringCase(pairs) && forall i :: 0 <= i < |pairs| ==> Fold(pairs[i].0) !in data {
          DistinctTail(pairs);
          forall i | 0 <= i < |rest| ensures Fold(rest[i].0) !in data' {
            assert rest[i] == pairs[i + 1];
          }
        }
        if AddAll(data', rest).Added? {
          forall i, j | 0 <= i < j < |pairs| ensures Fold(pairs[i].0) != Fold(pairs[j].0) {
            assert pairs[j] == rest[j - 1];
            if i > 0 {
              assert pairs[i] == rest[i - 1];
            }
          }
          forall i | 0 < i < |pairs| ensures Fold(pairs[i].0) !in data {
            assert pairs[i] == rest[i - 1];
          }
        }
      }
    }
  }

  /** When every `Add` succeeds, the dictionary is the old one plus the pairs. */
  lemma {:induction false} AddAllAddsPairs(data: Data, pairs: seq<Pair>)
    requires AddAll(data, pairs).Added?
    ensures AddAll(data, pairs).data == data + Index(pairs)
    decreases |pairs|
  {
    if pairs == [] {
      assert data + map[] == data;
    } else {
      var k0, v0 := Fold(pairs[0].0), pairs[0].1;
      AddAllAddsPairs(data[k0 := v0], pairs[1..]);
      assert data[k0 := v0] + Index(pairs[1..]) == data + Index(pairs);
    }
  }

  /**
    When an `Add` throws, it is at the first pair `j` whose key is already present:
    the pairs before `j` add without conflict, and the dictionary keeps what it held
    then, so the earlier value is not overwritten.
  */
  lemma {:induction false} AddAllRejectsDuplicate(data: Data, pairs: seq<Pair>) returns (j: nat)
    requires AddAll(data, pairs).Rejected?
    ensures j < |pairs| && AddAll(data, pairs).key == pairs[j].0
    ensures AddAll(data, pairs).data == data + Index(pairs[..j])
    ensures Fold(pairs[j].0) in data + Index(pairs[..j])
    ensures AddAll(data, pairs[..j]) == Added(AddAll(data, pairs).data)
    decreases |pairs|
  {
    var k0, v0 := Fold(pairs[0].0), pairs[0].1;
    var rest := pairs[1..];
    if k0 in data {
      j := 0;
      assert pairs[..0] == [];
      assert data + Index(pairs[..0]) == data;
    } else {
      var data' := data[k0 := v0];
      var j' := AddAllRejectsDuplicate(data', rest);
      j := j' + 1;
      var before := pairs[..j];
      assert before[0] == pairs[0];
      assert before[1..] == rest[..j'];
      assert Index(before) == map[k0 := v0] + Index(rest[..j']);
      assert data' + Index(rest[..j']) == data + Index(before);
      assert pairs[j] == rest[j'];
      assert AddAll(data, before) == AddAll(data', rest[..j']);
    }
  }

  /**
    Filling an empty dictionary: success exactly when the keys are distinct ignoring
    case, and then a lookup of any pair's key gives that pair's value and no other key
    is present.
  */
  lemma FillEmpty(pairs: seq<Pair>)
    ensures AddAll(map[], pairs).Added? <==> DistinctIgnoringCase(pairs)
    ensures AddAll(map[], pairs).Added? ==>
      && (forall i :: 0 <= i < |pairs| ==> Get(AddAll(map[], pairs).data, pairs[i].0) == Some(pairs[i].1))
      && (forall k :: k in AddAll(map[], pairs).data ==> exists i :: 0 <= i < |pairs| && k == Fold(pairs[i].0))
  {
    AddAllSucceedsIff(map[], pairs);
    if AddAll(map[], pairs).Added? {
      AddAllAddsPairs(map[], pairs);
      assert map[] + Index(pairs) == Index(pairs);
      IndexHoldsPairs(pairs);
    }
  }
}
