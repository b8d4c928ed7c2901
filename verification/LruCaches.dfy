// The in-memory result cache: a map in order of use, bounded in entries and in bytes.
module LruCaches {
  import opened JsonValues

  type Bytes = seq<bv8>

  datatype Entry = Entry(key: string, value: Bytes, size: nat)

  datatype Limits = Limits(maxEntries: nat, maxBytes: nat)
  {
    predicate Valid() {
      0 < maxEntries && 0 < maxBytes
    }
  }

  datatype Stats = Stats(entryCount: nat, totalBytes: nat, removedEntries: nat, removedBytes: nat)

  function Total(entries: seq<Entry>): (r: nat)
  {
    if entries == [] then 0 else entries[0].size + Total(entries[1..])
  }

  predicate Fits(entries: seq<Entry>, limits: Limits)
  {
    |entries| <= limits.maxEntries && Total(entries) <= limits.maxBytes
  }

  predicate FitsFrom(all: seq<Entry>, j: nat, limits: Limits)
    requires j <= |all|
  {
    Fits(all[j..], limits)
  }

  // `kept` is what follows the first `k` entries, and fewer would not do.
  ghost predicate CutAt(all: seq<Entry>, kept: seq<Entry>, k: nat, limits: Limits)
  {
    k <= |all| && kept == all[k..] && forall j :: 0 <= j < k ==> !FitsFrom(all, j, limits)
  }

  // The least recently used entries go, and no more of them than needed.
  ghost predicate LongestFittingSuffix(all: seq<Entry>, kept: seq<Entry>, limits: Limits)
  {
    Fits(kept, limits) && exists k: nat :: CutAt(all, kept, k, limits)
  }

  predicate HasKey(entries: seq<Entry>, key: string)
  {
    exists i :: 0 <= i < |entries| && entries[i].key == key
  }

  predicate DistinctKeys(entries: seq<Entry>)
  {
    forall i, j :: 0 <= i < j < |entries| ==> entries[i].key != entries[j].key
  }

  function Without(entries: seq<Entry>, key: string): (r: seq<Entry>)
    ensures forall e :: e in r <==> e in entries && e.key != key
  {
    if entries == [] then []
    else (if entries[0].key == key then [] else [entries[0]]) + Without(entries[1..], key)
  }

  lemma {:induction false} WithoutKeepsDistinct(entries: seq<Entry>, key: string)
    requires DistinctKeys(entries)
    ensures DistinctKeys(Without(entries, key)) && !HasKey(Without(entries, key), key)
  {
    if entries != [] {
      var rest := Without(entries[1..], key);
      WithoutKeepsDistinct(entries[1..], key);
      forall i | 0 <= i < |rest|
        ensures rest[i].key != entries[0].key
      {
        assert rest[i] in entries[1..];
      }
    }
    forall i | 0 <= i < |Without(entries, key)|
      ensures Without(entries, key)[i].key != key
    {
      assert Without(entries, key)[i] in Without(entries, key);
    }
  }

  // The entry under a key, as a dictionary holds it.
  function Lookup(entries: seq<Entry>, key: string): (r: Option<Entry>)
    ensures r.Some? ==> r.value in entries && r.value.key == key
    ensures r.None? <==> forall e :: e in entries ==> e.key != key
  {
    if entries == [] then None
    else if entries[0].key == key then Some(entries[0])
    else Lookup(entries[1..], key)
  }

  lemma {:induction false} TotalWithout(entries: seq<Entry>, key: string)
    requires DistinctKeys(entries)
    ensures Total(entries)
      == Total(Without(entries, key)) + match Lookup(entries, key) case Some(e) => e.size case None => 0
    ensures |entries| == |Without(entries, key)| + match Lookup(entries, key) case Some(_) => 1 case None => 0
  {
    if entries != [] {
      TotalWithout(entries[1..], key);
      if entries[0].key == key {
        forall e | e in entries[1..]
          ensures e.key != key
        {
          var i :| 0 <= i < |entries[1..]| && entries[1..][i] == e;
          assert entries[i + 1] == e;
        }
        WithoutAbsent(entries[1..], key);
        assert Without(entries, key) == entries[1..];
      }
    }
  }

  lemma {:induction false} WithoutAbsent(entries: seq<Entry>, key: string)
    requires forall e :: e in entries ==> e.key != key
    ensures Without(entries, key) == entries
  {
    if entries != [] {
      WithoutAbsent(entries[1..], key);
    }
  }

  lemma {:induction false} TotalAppend(entries: seq<Entry>, e: Entry)
    ensures Total(entries + [e]) == Total(entries) + e.size
  {
    if entries != [] {
      assert (entries + [e])[1..] == entries[1..] + [e];
      TotalAppend(entries[1..], e);
    }
  }

  function Replaced(entries: seq<Entry>, e: Entry): (r: seq<Entry>)
    ensures forall x :: x in r <==> x == e || (x in entries && x.key != e.key)
  {
    Without(entries, e.key) + [e]
  }

  lemma ReplacedIsAccounted(entries: seq<Entry>, e: Entry)
    requires DistinctKeys(entries)
    ensures DistinctKeys(Replaced(entries, e))
    ensures |Replaced(entries, e)| == |entries| + if Lookup(entries, e.key).Some? then 0 else 1
    ensures Total(Replaced(entries, e))
         == Total(entries) - (match Lookup(entries, e.key) case Some(x) => x.size case None => 0) + e.size
  {
    WithoutKeepsDistinct(entries, e.key);
    TotalWithout(entries, e.key);
    TotalAppend(Without(entries, e.key), e);
  }

  // An entry that fits alone survives its own insertion as the most recently used.
  lemma NewestSurvives(front: seq<Entry>, newest: Entry, kept: seq<Entry>, limits: Limits)
    requires LongestFittingSuffix(front + [newest], kept, limits) && limits.Valid() && newest.size <= limits.maxBytes
    ensures kept != [] && kept[|kept| - 1] == newest
  {
    var all := front + [newest];
    assert all[|front|..] == [newest] && Total([newest]) == newest.size;
    assert FitsFrom(all, |front|, limits);
    var k: nat :| CutAt(all, kept, k, limits);
    assert k <= |front|;
  }

  lemma FittingIsKept(all: seq<Entry>, kept: seq<Entry>, limits: Limits)
    requires Fits(all, limits) && LongestFittingSuffix(all, kept, limits)
    ensures kept == all
  {
    assert all[0..] == all;
    assert FitsFrom(all, 0, limits);
  }

  // The rule leaves no choice.
  lemma LongestFittingSuffixIsUnique(all: seq<Entry>, a: seq<Entry>, b: seq<Entry>, limits: Limits)
    requires LongestFittingSuffix(all, a, limits) && LongestFittingSuffix(all, b, limits)
    ensures a == b
  {
    var i: nat :| CutAt(all, a, i, limits);
    var j: nat :| CutAt(all, b, j, limits);
    assert FitsFrom(all, i, limits) && FitsFrom(all, j, limits);
  }

  // In numbers: what is kept meets both bounds, and what is kept with one more would not.
  lemma EvictionInNumbers(all: seq<Entry>, kept: seq<Entry>, limits: Limits)
    requires LongestFittingSuffix(all, kept, limits)
    ensures |kept| <= limits.maxEntries && Total(kept) <= limits.maxBytes && |kept| <= |all|
    ensures kept == all[|all| - |kept|..]
    ensures |kept| < |all| ==>
      limits.maxEntries < |kept| + 1 || limits.maxBytes < all[|all| - |kept| - 1].size + Total(kept)
  {
    var k: nat :| CutAt(all, kept, k, limits);
    if 0 < k {
      assert !FitsFrom(all, k - 1, limits);
      assert all[k - 1..][1..] == kept;
    }
  }

  class MemoryLruCache {
    const limits: Limits
    // In order of use, the least recent first.
    var entries: seq<Entry>
    var totalBytes: int
    var closed: bool
    // The value last accepted under each key.
    ghost var accepted: map<string, Bytes>

    ghost predicate Accounted()
      reads this
    {
      DistinctKeys(entries) && totalBytes == Total(entries)
    }

    ghost predicate Recalls()
      reads this
    {
      forall e :: e in entries ==> e.key in accepted && accepted[e.key] == e.value
    }

    ghost predicate Valid()
      reads this
    {
      && limits.Valid() && Accounted() && Recalls() && Fits(entries, limits)
      && (closed ==> entries == [])
    }

    constructor (limits: Limits)
      requires limits.Valid()
      ensures Valid() && this.limits == limits && entries == [] && !closed && accepted == map[]
    {
      this.limits := limits;
      entries, totalBytes, closed, accepted := [], 0, false, map[];
    }

    // A hit returns the value last accepted under the key and makes it the most recent.
    method Get(key: string) returns (value: Option<Bytes>)
      requires Valid()
      modifies this`entries
      ensures Valid()
      ensures value.Some? <==> HasKey(old(entries), key)
      ensures value.Some? ==> key in accepted && value.value == accepted[key]
      ensures value.Some? ==> entries != [] && entries[|entries| - 1].key == key
      ensures value.Some? ==> entries == Replaced(old(entries), Lookup(old(entries), key).value)
      ensures value.None? ==> entries == old(entries)
    {
      if closed {
        return None;
      }
      var found := Lookup(entries, key);
      if found.None? {
        return None;
      }
      ReplacedIsAccounted(entries, found.value);
      entries := Replaced(entries, found.value);
      value := Some(found.value.value);
    }

    // Pops from the least recent end; the map is never empty when it pops.
    method Evict() returns (removedEntries: nat, removedBytes: nat)
      requires limits.Valid() && Accounted() && Recalls()
      modifies this`entries, this`totalBytes
      ensures Accounted() && Recalls() && LongestFittingSuffix(old(entries), entries, limits)
      ensures |entries| <= limits.maxEntries && totalBytes <= limits.maxBytes
      ensures |old(entries)| == |entries| + removedEntries && Total(old(entries)) == Total(entries) + removedBytes
    {
      removedEntries, removedBytes := 0, 0;
      while limits.maxEntries < |entries| || limits.maxBytes < totalBytes
        invariant Accounted() && Recalls()
        invariant CutAt(old(entries), entries, removedEntries, limits)
        invariant Total(old(entries)) == Total(entries) + removedBytes
        decreases |entries|
      {
        assert !FitsFrom(old(entries), removedEntries, limits);
        var popped := entries[0];
        entries := entries[1..];
        totalBytes := totalBytes - popped.size;
        removedEntries := removedEntries + 1;
        removedBytes := removedBytes + popped.size;
      }
    }

    // Replaces whatever is under the key, as the most recent entry.
    method Replace(e: Entry)
      requires Accounted() && Recalls()
      modifies this`entries, this`totalBytes, this`accepted
      ensures Accounted() && Recalls()
      ensures entries == Replaced(old(entries), e) && accepted == old(accepted)[e.key := e.value]
    {
      var replaced := Lookup(entries, e.key);
      ReplacedIsAccounted(entries, e);
      if replaced.Some? {
        totalBytes := totalBytes - replaced.value.size;
      }
      entries := Replaced(entries, e);
      totalBytes := totalBytes + e.size;
      accepted := accepted[e.key := e.value];
    }

    // A value that can never fit changes nothing. Any other becomes the most recent entry.
    method Set(key: string, value: Bytes, size: nat)
      requires Valid()
      modifies this`entries, this`totalBytes, this`accepted
      ensures Valid()
      ensures closed || limits.maxBytes < size ==>
        entries == old(entries) && totalBytes == old(totalBytes) && accepted == old(accepted)
      ensures !closed && size <= limits.maxBytes ==>
        && LongestFittingSuffix(Replaced(old(entries), Entry(key, value, size)), entries, limits)
        && |entries| <= limits.maxEntries && totalBytes <= limits.maxBytes
        && entries != [] && entries[|entries| - 1] == Entry(key, value, size)
        && accepted == old(accepted)[key := value]
    {
      if closed || limits.maxBytes < size {
        return;
      }
      Replace(Entry(key, value, size));
      var removed, bytes := Evict();
      NewestSurvives(Without(old(entries), key), Entry(key, value, size), entries, limits);
    }

    // A healthy cache reports no removals.
    method Prune() returns (stats: Option<Stats>)
      requires Valid()
      modifies this`entries, this`totalBytes
      ensures Valid() && entries == old(entries)
      ensures stats == if closed then None else Some(Stats(|entries|, Total(entries), 0, 0))
    {
      if closed {
        return None;
      }
      var removedEntries, removedBytes := Evict();
      FittingIsKept(old(entries), entries, limits);
      stats := Some(Stats(|entries|, totalBytes, removedEntries, removedBytes));
    }

    method Clear() returns (done: bool)
      requires Valid()
      modifies this`entries, this`totalBytes
      ensures Valid() && done == !closed && entries == []
    {
      done := !closed;
      if done {
        entries, totalBytes := [], 0;
      }
    }

    method Close()
      requires Valid()
      modifies this`entries, this`totalBytes, this`closed
      ensures Valid() && closed && entries == []
    {
      if !closed {
        closed := true;
        entries, totalBytes := [], 0;
      }
    }
  }
}
