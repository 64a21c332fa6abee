/**
 * The client-side view of an adjacency-matrix aggregation result: a list of buckets,
 * each named by a key such as "A" or "A&B", and a by-key lookup that indexes the list
 * lazily, on its first use.
 */
module AdjacencyMatrix {
  import opened Wrappers

  /** One bucket of the result. Buckets are objects: two of them may carry the same key. */
  class ParsedBucket {
    const key: string

    constructor (key: string)
      ensures this.key == key
    {
      this.key := key;
    }

    function GetKey(): string {
      key
    }

    /** The key rendered as a string, which for this aggregation is the key itself. */
    function GetKeyAsString(): (s: string)
      ensures s == GetKey()
    {
      key
    }
  }

  /**
   * The index `getBucketByKey` builds by putting every bucket, in list order, under its
   * key: a later bucket replaces an earlier one with the same key.
   */
  function KeyIndex(buckets: seq<ParsedBucket>): map<string, ParsedBucket> {
    if buckets == [] then map[]
    else
      var last := buckets[|buckets| - 1];
      KeyIndex(buckets[..|buckets| - 1])[last.key := last]
  }

  /** Reference definition: the last bucket in the list whose key is `key`, if any. */
  function LastWithKey(buckets: seq<ParsedBucket>, key: string): (r: Option<ParsedBucket>)
    ensures r.Some? ==> r.value in buckets && r.value.key == key
  {
    if buckets == [] then None
    else if buckets[|buckets| - 1].key == key then Some(buckets[|buckets| - 1])
    else LastWithKey(buckets[..|buckets| - 1], key)
  }

  /** LastWithKey finds nothing exactly when no bucket has the key, and otherwise no later bucket has it. */
  lemma {:induction false} LastWithKeyIsLast(buckets: seq<ParsedBucket>, key: string)
    ensures LastWithKey(buckets, key).None? <==> forall i :: 0 <= i < |buckets| ==> buckets[i].key != key
    ensures LastWithKey(buckets, key).Some? ==>
      exists i :: 0 <= i < |buckets| && buckets[i] == LastWithKey(buckets, key).value &&
        forall j :: i < j < |buckets| ==> buckets[j].key != key
  {
    if buckets == [] {
    } else if buckets[|buckets| - 1].key == key {
      assert buckets[|buckets| - 1] == LastWithKey(buckets, key).value;
    } else {
      var front := buckets[..|buckets| - 1];
      LastWithKeyIsLast(front, key);
      assert LastWithKey(buckets, key) == LastWithKey(front, key);
      assert forall i :: 0 <= i < |front| ==> front[i] == buckets[i];
      if LastWithKey(front, key).Some? {
        var i :| 0 <= i < |front| && front[i] == LastWithKey(front, key).value &&
          forall j :: i < j < |front| ==> front[j].key != key;
        assert buckets[i] == LastWithKey(buckets, key).value;
        assert forall j :: i < j < |buckets| ==> buckets[j].key != key;
      }
    }
  }

  /** Looking a key up in the built index gives the last bucket with that key. */
  lemma {:induction false} KeyIndexFindsLast(buckets: seq<ParsedBucket>, key: string)
    ensures (if key in KeyIndex(buckets) then Some(KeyIndex(buckets)[key]) else None) == LastWithKey(buckets, key)
  {
    if buckets != [] {
      KeyIndexFindsLast(buckets[..|buckets| - 1], key);
    }
  }

  class ParsedAdjacencyMatrix {
    /** The buckets, in the order the response listed them; filled once, when parsed. */
    const buckets: seq<ParsedBucket>
    /** The lazily built index, null until the first by-key lookup. */
    var bucketMap: Option<map<string, ParsedBucket>>

    ghost predicate Valid()
      reads this
    {
      bucketMap.Some? ==> bucketMap.value == KeyIndex(buckets)
    }

    constructor (buckets: seq<ParsedBucket>)
      ensures Valid() && this.buckets == buckets && bucketMap == None
    {
      this.buckets := buckets;
      bucketMap := None;
    }

    /** `getBuckets`: the parsed list as it is. */
    function GetBuckets(): (r: seq<ParsedBucket>)
      ensures |r| == |buckets| && forall i :: 0 <= i < |r| ==> r[i] == buckets[i]
    {
      buckets
    }

    /**
     * `getBucketByKey(key)`: builds the index on the first call only, then answers
     * from it: the last bucket in list order with that key, or null.
     */
    method GetBucketByKey(key: string) returns (bucket: Option<ParsedBucket>)
      requires Valid()
      modifies this`bucketMap
      ensures Valid() && bucketMap.Some?
      ensures old(bucketMap).Some? ==> bucketMap == old(bucketMap)
      ensures bucket == LastWithKey(buckets, key)
      ensures bucket.None? <==> forall i :: 0 <= i < |buckets| ==> buckets[i].key != key
      ensures bucket.Some? ==> bucket.value.key == key
      ensures bucket.Some? ==>
        exists i :: 0 <= i < |buckets| && buckets[i] == bucket.value &&
          forall j :: i < j < |buckets| ==> buckets[j].key != key
    {
      if bucketMap.None? {
        var m := map[];
        for i := 0 to |buckets|
          invariant m == KeyIndex(buckets[..i])
        {
          assert buckets[..i + 1][..i] == buckets[..i];
          m := m[buckets[i].key := buckets[i]];
        }
        assert buckets[..|buckets|] == buckets;
        bucketMap := Some(m);
      }
      var m := bucketMap.value;
      bucket := if key in m then Some(m[key]) else None;
      KeyIndexFindsLast(buckets, key);
      LastWithKeyIsLast(buckets, key);
    }
  }
}
