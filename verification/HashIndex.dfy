/** Set membership over a column: a linear scan below 128 elements, a hash index from there on.
    The hash is any total function, so nothing here depends on xxh3. */
module HashIndex {
  import opened Wrappers
  import opened Tables

  const INDEX_THRESHOLD: nat := 128

  /** An element is stored under the bucket its hash selects. */
  ghost predicate Placed(buckets: seq<seq<nat>>, hasher: nat -> nat) {
    && |buckets| > 0
    && forall b, k :: 0 <= b < |buckets| && 0 <= k < |buckets[b]| ==> hasher(buckets[b][k]) % |buckets| == b
  }

  ghost predicate Stored(buckets: seq<seq<nat>>, e: nat) {
    exists b, k :: 0 <= b < |buckets| && 0 <= k < |buckets[b]| && buckets[b][k] == e
  }

  lemma {:induction false} StoredAfterPut(buckets: seq<seq<nat>>, b: nat, e: nat, x: nat)
    requires b < |buckets|
    ensures Stored(buckets[b := buckets[b] + [e]], x) <==> x == e || Stored(buckets, x)
  {
    var after := buckets[b := buckets[b] + [e]];
    if x == e {
      assert after[b][|buckets[b]|] == e;
    }
    if Stored(buckets, x) {
      var c, k :| 0 <= c < |buckets| && 0 <= k < |buckets[c]| && buckets[c][k] == x;
      assert after[c][k] == x;
    }
  }

  /** An element whose hash selects bucket b is found there or nowhere. */
  lemma {:induction false} StoredInItsBucket(buckets: seq<seq<nat>>, hasher: nat -> nat, e: nat)
    requires Placed(buckets, hasher)
    ensures Stored(buckets, e) <==> e in buckets[hasher(e) % |buckets|]
  {
    if Stored(buckets, e) {
      var b, k :| 0 <= b < |buckets| && 0 <= k < |buckets[b]| && buckets[b][k] == e;
      assert b == hasher(e) % |buckets|;
    }
  }

  /** A chained table of element indices. Hashes are not stored: growing asks the hasher again,
      which is why every insertion has to pass it. */
  class HashTable {
    var buckets: array<seq<nat>>

    constructor WithCapacity(capacity: nat)
      ensures fresh(buckets)
      ensures forall hasher: nat -> nat :: Placed(buckets[..], hasher)
      ensures forall e :: !Stored(buckets[..], e)
    {
      buckets := new seq<nat>[capacity + 1](_ => []);
    }

    /** Doubles the buckets and rehashes every element. */
    method Grow(hasher: nat -> nat)
      requires Placed(buckets[..], hasher)
      modifies this
      ensures fresh(buckets)
      ensures Placed(buckets[..], hasher)
      ensures forall e :: Stored(buckets[..], e) <==> Stored(old(buckets[..]), e)
    {
      var from := buckets;
      var to := new seq<nat>[2 * from.Length](_ => []);
      ghost var moved: set<nat> := {};
      assert forall e :: !Stored(to[..], e);
      for b := 0 to from.Length
        invariant from[..] == old(buckets[..]) && fresh(to) && to != from
        invariant to.Length == 2 * from.Length
        invariant Placed(to[..], hasher)
        invariant forall e :: Stored(to[..], e) <==> Stored(from[..b], e)
      {
        for k := 0 to |from[b]|
          invariant from[..] == old(buckets[..])
          invariant Placed(to[..], hasher)
          invariant forall e :: Stored(to[..], e) <==> Stored(from[..b], e) || e in from[b][..k]
        {
          var e := from[b][k];
          var slot := hasher(e) % to.Length;
          ghost var before := to[..];
          to[slot] := to[slot] + [e];
          assert to[..] == before[slot := before[slot] + [e]];
          forall x ensures Stored(to[..], x) <==> x == e || Stored(before, x) {
            StoredAfterPut(before, slot, e, x);
          }
          assert from[b][..k + 1] == from[b][..k] + [e];
        }
        forall e ensures Stored(from[..b + 1], e) <==> Stored(from[..b], e) || e in from[b] {
          AddBucket(from[..], b, e);
        }
        assert from[b][..|from[b]|] == from[b];
      }
      assert from[..from.Length] == from[..];
      buckets := to;
    }

    static lemma {:induction false} AddBucket(buckets: seq<seq<nat>>, b: nat, e: nat)
      requires b < |buckets|
      ensures Stored(buckets[..b + 1], e) <==> Stored(buckets[..b], e) || e in buckets[b]
    {
      var upTo := buckets[..b + 1];
      if e in buckets[b] {
        var k :| 0 <= k < |buckets[b]| && buckets[b][k] == e;
        assert upTo[b][k] == e;
      }
      if Stored(buckets[..b], e) {
        var c, k :| 0 <= c < b && 0 <= k < |buckets[..b][c]| && buckets[..b][c][k] == e;
        assert upTo[c][k] == e;
      }
      if Stored(upTo, e) {
        var c, k :| 0 <= c < |upTo| && 0 <= k < |upTo[c]| && upTo[c][k] == e;
        if c < b {
          assert buckets[..b][c][k] == e;
        }
      }
    }

    /** `insert_unique`: no look-up first. Whether the table grows is left open, so every
        growth policy is covered. */
    method InsertUnique(hash: nat, e: nat, hasher: nat -> nat)
      requires Placed(buckets[..], hasher)
      requires hash == hasher(e)
      modifies this, buckets
      ensures fresh(buckets) || buckets == old(buckets)
      ensures Placed(buckets[..], hasher)
      ensures forall x :: Stored(buckets[..], x) <==> x == e || Stored(old(buckets[..]), x)
    {
      if * {
        Grow(hasher);
      }
      var slot := hash % buckets.Length;
      ghost var before := buckets[..];
      buckets[slot] := buckets[slot] + [e];
      assert buckets[..] == before[slot := before[slot] + [e]];
      forall x ensures Stored(buckets[..], x) <==> x == e || Stored(before, x) {
        StoredAfterPut(before, slot, e, x);
      }
    }

    /** `find(..).is_some()`: only the bucket of the probe's hash is searched. */
    method Find(hash: nat, eq: nat -> bool) returns (found: bool)
      requires buckets.Length > 0
      ensures found <==> exists e :: e in buckets[hash % buckets.Length] && eq(e)
    {
      var bucket := buckets[hash % buckets.Length];
      var k := 0;
      while k < |bucket|
        invariant 0 <= k <= |bucket|
        invariant forall j :: 0 <= j < k ==> !eq(bucket[j])
      {
        if eq(bucket[k]) {
          return true;
        }
        k := k + 1;
      }
      return false;
    }
  }

  function HasherOf<T>(values: seq<T>, hash: T -> nat): nat -> nat {
    (i: nat) => if i < |values| then hash(values[i]) else 0
  }

  /** The membership filter: allowed values and, for large sets, an index over them. */
  class Contains<T(==)> {
    const values: seq<T>
    const hash: T -> nat
    const index: HashTable?

    ghost predicate Valid()
      reads index, if index == null then {} else {index.buckets}
    {
      index != null ==>
        && Placed(index.buckets[..], HasherOf(values, hash))
        && forall e: nat :: Stored(index.buckets[..], e) <==> e < |values|
    }

    /** `ht_from_primitive` and `ht_from_bytes` fill the index in element order. */
    constructor (values: seq<T>, hash: T -> nat)
      ensures Valid()
      ensures this.values == values && this.hash == hash
      ensures index != null <==> |values| >= INDEX_THRESHOLD
      ensures fresh(this)
      ensures index != null ==> fresh(index) && fresh(index.buckets)
    {
      this.values := values;
      this.hash := hash;
      var table: HashTable? := null;
      if |values| >= INDEX_THRESHOLD {
        var ht := new HashTable.WithCapacity(|values|);
        var hasher := HasherOf(values, hash);
        for i := 0 to |values|
          invariant fresh(ht) && fresh(ht.buckets)
          invariant Placed(ht.buckets[..], hasher)
          invariant forall e: nat :: Stored(ht.buckets[..], e) <==> e < i
        {
          ht.InsertUnique(hash(values[i]), i, hasher);
        }
        table := ht;
      }
      this.index := table;
    }

    /** One probe, through the index when there is one. */
    method Probe(v: T) returns (found: bool)
      requires Valid()
      ensures found <==> v in values
    {
      if index != null {
        var vs := values;
        found := index.Find(hash(v), (i: nat) => i < |vs| && vs[i] == v);
        ProbeSeesEveryCopy(v);
      } else {
        var k := 0;
        found := false;
        while k < |values| && !found
          invariant 0 <= k <= |values|
          invariant found <==> v in values[..k]
        {
          found := values[k] == v;
          k := k + 1;
        }
      }
    }

    lemma {:induction false} ProbeSeesEveryCopy(v: T)
      requires Valid() && index != null
      ensures index.buckets.Length > 0
      ensures v in values <==>
              exists e :: e in index.buckets[hash(v) % index.buckets.Length] && e < |values| && values[e] == v
    {
      var buckets := index.buckets[..];
      var hasher := HasherOf(values, hash);
      if v in values {
        var e :| 0 <= e < |values| && values[e] == v;
        assert Stored(buckets, e);
        StoredInItsBucket(buckets, hasher, e);
        assert e in buckets[hash(v) % |buckets|];
      }
    }

    /** `contains_primitive` and `contains_bytes`: raw membership of every slot, null or not. */
    method RawMask(probes: seq<T>) returns (filter: Mask)
      requires Valid()
      ensures |filter| == |probes|
      ensures forall i :: 0 <= i < |probes| ==> filter[i] == Some(probes[i] in values)
    {
      filter := [];
      for i := 0 to |probes|
        invariant |filter| == i
        invariant forall j :: 0 <= j < i ==> filter[j] == Some(probes[j] in values)
      {
        var c := Probe(probes[i]);
        filter := filter + [Some(c)];
      }
    }
  }
}
