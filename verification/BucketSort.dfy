/**
 Grouping by key: the plain dictionary form, the form that avoids a dictionary while there is
 one bucket, and the read-only dictionary it returns.
 */
module BucketSort {
  import opened Wrappers

  /** A dictionary under a key comparer: entries in insertion order, found by comparing keys. */
  type Dictionary<K, V> = seq<(K, seq<V>)>

  function Find<K, V>(d: Dictionary<K, V>, same: (K, K) -> bool, key: K): Option<seq<V>> {
    if d == [] then None
    else if same(d[0].0, key) then Some(d[0].1)
    else Find(d[1..], same, key)
  }

  /** Adding a value to the bucket of its key, which is made when it is missing. */
  function AddTo<K, V>(d: Dictionary<K, V>, same: (K, K) -> bool, key: K, value: V): Dictionary<K, V> {
    if d == [] then [(key, [value])]
    else if same(d[0].0, key) then [(d[0].0, d[0].1 + [value])] + d[1..]
    else [d[0]] + AddTo(d[1..], same, key, value)
  }

  /** The grouping itself, input by input. */
  function Grouped<K, V>(inputs: seq<V>, keyOf: V -> K, same: (K, K) -> bool): Dictionary<K, V> {
    if inputs == [] then []
    else AddTo(Grouped(inputs[..|inputs| - 1], keyOf, same), same, keyOf(inputs[|inputs| - 1]), inputs[|inputs| - 1])
  }

  // ----- what the grouping means ---------------------------------------------

  ghost predicate Equivalence<K(!new)>(same: (K, K) -> bool) {
    && (forall x :: same(x, x))
    && (forall x, y :: same(x, y) ==> same(y, x))
    && (forall x, y, z :: same(x, y) && same(y, z) ==> same(x, z))
  }

  /** The inputs with a key, in their order. */
  function Bucket<K, V>(inputs: seq<V>, keyOf: V -> K, same: (K, K) -> bool, key: K): seq<V> {
    if inputs == [] then []
    else
      var last := inputs[|inputs| - 1];
      Bucket(inputs[..|inputs| - 1], keyOf, same, key) + (if same(keyOf(last), key) then [last] else [])
  }

  ghost predicate DistinctKeys<K, V>(d: Dictionary<K, V>, same: (K, K) -> bool) {
    forall i, j :: 0 <= i < |d| && 0 <= j < |d| && i != j ==> !same(d[i].0, d[j].0)
  }

  lemma {:induction false} FindAfterAdd<K(!new), V>(d: Dictionary<K, V>, same: (K, K) -> bool, key: K, value: V, k: K)
    requires Equivalence(same)
    ensures Find(AddTo(d, same, key, value), same, k) ==
            if !same(key, k) then Find(d, same, k)
            else if Find(d, same, k).Some? then Some(Find(d, same, k).value + [value]) else Some([value])
  {
    if d == [] {
    } else {
      var added := AddTo(d, same, key, value);
      if same(d[0].0, key) {
        assert added[1..] == d[1..];
        assert same(key, k) <==> same(d[0].0, k) by {
          assert same(key, d[0].0);
        }
      } else {
        assert added[1..] == AddTo(d[1..], same, key, value);
        FindAfterAdd(d[1..], same, key, value, k);
        assert same(key, k) ==> !same(d[0].0, k) by {
          if same(key, k) {
            assert same(k, key);
          }
        }
      }
    }
  }

  lemma {:induction false} AddKeepsKeysDistinct<K(!new), V>(d: Dictionary<K, V>, same: (K, K) -> bool, key: K, value: V)
    requires Equivalence(same) && DistinctKeys(d, same)
    ensures DistinctKeys(AddTo(d, same, key, value), same)
    ensures forall i :: 0 <= i < |AddTo(d, same, key, value)| ==>
              AddTo(d, same, key, value)[i].0 == key || exists j :: 0 <= j < |d| && AddTo(d, same, key, value)[i].0 == d[j].0
  {
    if d == [] || same(d[0].0, key) {
    } else {
      var rest := d[1..];
      assert forall i :: 0 <= i < |rest| ==> rest[i] == d[i + 1];
      AddKeepsKeysDistinct(rest, same, key, value);
      var added := AddTo(rest, same, key, value);
      forall i | 0 <= i < |added|
        ensures !same(d[0].0, added[i].0) && !same(added[i].0, d[0].0)
      {
        if added[i].0 != key {
          var j :| 0 <= j < |rest| && added[i].0 == rest[j].0;
          assert !same(d[0].0, d[j + 1].0);
        }
      }
    }
  }

  /**
   Under an equivalence comparer, every key finds exactly the inputs with that key, in input
   order, and is absent if and only if there are none; keys are kept once.
   */
  lemma {:induction false} GroupedFindsTheBucket<K(!new), V>(inputs: seq<V>, keyOf: V -> K, same: (K, K) -> bool,
                                                   key: K)
    requires Equivalence(same)
    ensures var bucket := Bucket(inputs, keyOf, same, key);
            Find(Grouped(inputs, keyOf, same), same, key) == if bucket == [] then None else Some(bucket)
    ensures DistinctKeys(Grouped(inputs, keyOf, same), same)
  {
    if inputs == [] {
    } else {
      var front, last := inputs[..|inputs| - 1], inputs[|inputs| - 1];
      GroupedFindsTheBucket(front, keyOf, same, key);
      FindAfterAdd(Grouped(front, keyOf, same), same, keyOf(last), last, key);
      AddKeepsKeysDistinct(Grouped(front, keyOf, same), same, keyOf(last), last);
      var bucket := Bucket(front, keyOf, same, key);
      assert bucket + [] == bucket && [] + [last] == [last];
    }
  }

  // ----- the plain form ------------------------------------------------------

  /** Buckets of other keys in front stay as they are. */
  lemma {:induction false} AddSkipsOthers<K, V>(d: Dictionary<K, V>, same: (K, K) -> bool, key: K, value: V, i: nat)
    requires i <= |d| && forall k :: 0 <= k < i ==> !same(d[k].0, key)
    ensures AddTo(d, same, key, value) == d[..i] + AddTo(d[i..], same, key, value)
  {
    if i == 0 {
      assert d[0..] == d && d[..0] == [];
    } else {
      AddSkipsOthers(d[1..], same, key, value, i - 1);
      assert d[1..][i - 1..] == d[i..];
      assert d[..i] + AddTo(d[i..], same, key, value) == [d[0]] + (d[1..][..i - 1] + AddTo(d[i..], same, key, value));
    }
  }

  /** The bucket of a key is fetched or made, and the input is added to it. */
  method AddInput<K, V>(buckets: Dictionary<K, V>, same: (K, K) -> bool, key: K, input: V)
    returns (buckets': Dictionary<K, V>)
    ensures buckets' == AddTo(buckets, same, key, input)
  {
    var i := 0;
    while i < |buckets| && !same(buckets[i].0, key)
      invariant 0 <= i <= |buckets|
      invariant forall k :: 0 <= k < i ==> !same(buckets[k].0, key)
    {
      i := i + 1;
    }
    AddSkipsOthers(buckets, same, key, input, i);
    if i == |buckets| {
      buckets' := buckets + [(key, [input])];
      assert buckets[i..] == [] && buckets[..i] == buckets;
    } else {
      var bucket := (buckets[i].0, buckets[i].1 + [input]);
      buckets' := buckets[..i] + ([bucket] + buckets[i + 1..]);
      assert buckets[i..][1..] == buckets[i + 1..];
    }
  }

  method BucketSortPlain<K, V>(inputs: seq<V>, keyOf: V -> K, same: (K, K) -> bool) returns (buckets: Dictionary<K, V>)
    ensures buckets == Grouped(inputs, keyOf, same)
  {
    buckets := [];
    var i := 0;
    while i < |inputs|
      invariant 0 <= i <= |inputs| && buckets == Grouped(inputs[..i], keyOf, same)
    {
      assert inputs[..i + 1][..i] == inputs[..i];
      buckets := AddInput(buckets, same, keyOf(inputs[i]), inputs[i]);
      i := i + 1;
    }
    assert inputs[..i] == inputs;
  }

  // ----- the single-bucket form ----------------------------------------------

  /** `ReadOnlySingleBucketDictionary`: a full dictionary, a single bucket, or neither. */
  datatype ReadOnly<K, V> = Multi(buckets: Dictionary<K, V>) | Single(key: K, values: seq<V>) | Neither
  {
    function TryGetValue(same: (K, K) -> bool, k: K): Option<seq<V>> {
      match this
      case Multi(d) => Find(d, same, k)
      case Single(own, vs) => if same(own, k) then Some(vs) else None
      case Neither => None
    }

    predicate ContainsKey(same: (K, K) -> bool, k: K) {
      match this
      case Multi(d) => Find(d, same, k).Some?
      case Single(own, _) => same(own, k)
      case Neither => false
    }

    function Count(): nat {
      match this
      case Multi(d) => |d|
      case Single(_, _) => 1
      case Neither => 0
    }

    /** The plain dictionary with the same content. */
    function Plain(): Dictionary<K, V> {
      match this
      case Multi(d) => d
      case Single(own, vs) => [(own, vs)]
      case Neither => []
    }
  }

  /** While all keys so far equal the first one, the grouping is one bucket with all inputs. */
  lemma OneMoreInTheSingleBucket<K, V>(inputs: seq<V>, i: nat, keyOf: V -> K, same: (K, K) -> bool)
    requires 0 < i < |inputs| && Grouped(inputs[..i], keyOf, same) == [(keyOf(inputs[0]), inputs[..i])]
    ensures Grouped(inputs[..i + 1], keyOf, same) ==
            if same(keyOf(inputs[0]), keyOf(inputs[i])) then [(keyOf(inputs[0]), inputs[..i + 1])]
            else [(keyOf(inputs[0]), inputs[..i]), (keyOf(inputs[i]), [inputs[i]])]
  {
    assert inputs[..i + 1][..i] == inputs[..i] && inputs[..i + 1] == inputs[..i] + [inputs[i]];
    var d := [(keyOf(inputs[0]), inputs[..i])];
    assert d[1..] == [];
    assert AddTo([], same, keyOf(inputs[i]), inputs[i]) == [(keyOf(inputs[i]), [inputs[i]])];
  }

  lemma GroupedOneMore<K, V>(inputs: seq<V>, i: nat, keyOf: V -> K, same: (K, K) -> bool)
    requires i < |inputs|
    ensures Grouped(inputs[..i + 1], keyOf, same) == AddTo(Grouped(inputs[..i], keyOf, same), same, keyOf(inputs[i]), inputs[i])
  {
    assert inputs[..i + 1][..i] == inputs[..i];
  }

  lemma FirstGroup<K, V>(inputs: seq<V>, keyOf: V -> K, same: (K, K) -> bool)
    requires inputs != []
    ensures inputs[..1] == [inputs[0]] && Grouped(inputs[..1], keyOf, same) == [(keyOf(inputs[0]), inputs[..1])]
  {
    assert inputs[..1][..0] == [];
  }

  /** The inputs before the second key are copied one by one. */
  method CopyFirst<V>(inputs: seq<V>, i: nat) returns (bucket: seq<V>)
    requires i <= |inputs|
    ensures bucket == inputs[..i]
  {
    bucket := [];
    var j := 0;
    while j < i
      invariant 0 <= j <= i && bucket == inputs[..j]
    {
      bucket := bucket + [inputs[j]];
      j := j + 1;
    }
  }

  /**
   `BucketSort` on a list. It keeps only the first key until a second one turns up, then copies
   the inputs before it into a bucket and goes on with a dictionary. `defaultKey` is the key type's
   default value.
   */
  method BucketSortList<K, V>(inputs: seq<V>, keyOf: V -> K, same: (K, K) -> bool, defaultKey: K)
    returns (result: ReadOnly<K, V>)
    ensures inputs != [] ==> result.Plain() == Grouped(inputs, keyOf, same)
    ensures inputs == [] ==> result == Single(defaultKey, [])
  {
    var buckets: Option<Dictionary<K, V>> := None;
    var singleBucketFirstKey := false;
    var singleBucketKey := defaultKey;
    var i := 0;
    while i < |inputs|
      invariant 0 <= i <= |inputs| && (singleBucketFirstKey <==> i > 0)
      invariant i > 0 ==> singleBucketKey == keyOf(inputs[0])
      invariant i == 0 ==> buckets.None? && singleBucketKey == defaultKey
      invariant buckets.None? && i > 0 ==> Grouped(inputs[..i], keyOf, same) == [(singleBucketKey, inputs[..i])]
      invariant buckets.Some? ==> buckets.value == Grouped(inputs[..i], keyOf, same)
    {
      var keyValue := keyOf(inputs[i]);
      if !singleBucketFirstKey {
        singleBucketFirstKey := true;
        singleBucketKey := keyValue;
        FirstGroup(inputs, keyOf, same);
      } else if buckets.None? {
        OneMoreInTheSingleBucket(inputs, i, keyOf, same);
        if !same(singleBucketKey, keyValue) {
          var bucket := CopyFirst(inputs, i);
          buckets := Some([(singleBucketKey, bucket), (keyValue, [inputs[i]])]);
        }
      } else {
        GroupedOneMore(inputs, i, keyOf, same);
        var added := AddInput(buckets.value, same, keyValue, inputs[i]);
        buckets := Some(added);
      }
      i := i + 1;
    }
    assert inputs[..i] == inputs;
    result := if buckets.Some? then Multi(buckets.value) else Single(singleBucketKey, inputs);
  }

  /** Look-ups on the read-only dictionary are look-ups on the plain dictionary with its content. */
  lemma LookupsAgree<K, V>(result: ReadOnly<K, V>, same: (K, K) -> bool, k: K)
    ensures result.TryGetValue(same, k) == Find(result.Plain(), same, k)
    ensures result.ContainsKey(same, k) == Find(result.Plain(), same, k).Some?
    ensures result.Count() == |result.Plain()|
  {
    if result.Single? {
      assert result.Plain()[1..] == [];
    }
  }

  /**
   The single-bucket form refines the plain one exactly when there is an input: every key then
   finds its stable bucket, through either look-up, and the counts agree. On an empty list it
   still claims a bucket under the default key.
   */
  lemma RefinesIffNotEmpty<K(!new), V>(inputs: seq<V>, keyOf: V -> K, same: (K, K) -> bool, defaultKey: K,
                             result: ReadOnly<K, V>)
    requires Equivalence(same)
    requires if inputs == [] then result == Single(defaultKey, []) else result.Plain() == Grouped(inputs, keyOf, same)
    ensures (forall k :: result.TryGetValue(same, k) == Find(Grouped(inputs, keyOf, same), same, k)) <==> inputs != []
    ensures inputs != [] ==> result.Count() == |Grouped(inputs, keyOf, same)| && forall k ::
              var bucket := Bucket(inputs, keyOf, same, k);
              && result.TryGetValue(same, k) == (if bucket == [] then None else Some(bucket))
              && (result.ContainsKey(same, k) <==> bucket != [])
  {
    forall k
      ensures result.TryGetValue(same, k) == Find(result.Plain(), same, k)
      ensures result.ContainsKey(same, k) == Find(result.Plain(), same, k).Some?
      ensures result.Count() == |result.Plain()|
      ensures Find(Grouped(inputs, keyOf, same), same, k) ==
              (if Bucket(inputs, keyOf, same, k) == [] then None else Some(Bucket(inputs, keyOf, same, k)))
    {
      LookupsAgree(result, same, k);
      GroupedFindsTheBucket(inputs, keyOf, same, k);
    }
    if inputs == [] {
      assert result.TryGetValue(same, defaultKey) == Some([]);
      assert Find(Grouped(inputs, keyOf, same), same, defaultKey) == None;
    } else {
      LookupsAgree(result, same, keyOf(inputs[0]));
    }
  }
}
