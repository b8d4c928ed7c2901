// The rows of the durable cache, their order of eviction, and the shortest prefix of it
// that brings the table down to its low watermarks.
module SqliteTables {
  import opened JsonValues

  // Keys stand in the binary order of their text.
  type Key = nat

  datatype Row = Row(value: seq<bv8>, size: nat, created: real, accessed: real, expires: Option<real>)

  type Table = map<Key, Row>

  predicate Expired(row: Row, now: real)
  {
    row.expires.Some? && row.expires.value <= now
  }

  function Live(t: Table, now: real): (r: Table)
  {
    map k | k in t && !Expired(t[k], now) :: t[k]
  }

  /******* Totals *******/

  ghost function Bytes(t: Table): (r: nat)
    decreases |t|
  {
    if t == map[] then 0
    else
      var k :| k in t;
      t[k].size + Bytes(t - {k})
  }

  lemma {:induction false} BytesWithout(t: Table, k: Key)
    requires k in t
    ensures Bytes(t) == t[k].size + Bytes(t - {k})
    decreases |t|
  {
    var j :| j in t && Bytes(t) == t[j].size + Bytes(t - {j});
    if j != k {
      BytesWithout(t - {j}, k);
      BytesWithout(t - {k}, j);
      assert t - {j} - {k} == t - {k} - {j};
    }
  }

  lemma SingleRow(t: Table, k: Key)
    requires k in t && t.Keys <= {k}
    ensures |t| == 1 && Bytes(t) == t[k].size
  {
    assert t.Keys == {k} && |t| == |t.Keys|;
    BytesWithout(t, k);
    assert t - {k} == map[];
  }

  /******* The order of eviction *******/

  predicate Before(k: Key, a: Row, j: Key, b: Row)
  {
    a.accessed < b.accessed
    || (a.accessed == b.accessed && (a.created < b.created || (a.created == b.created && k < j)))
  }

  predicate Older(t: Table, k: Key, j: Key)
    requires k in t && j in t
  {
    Before(k, t[k], j, t[j])
  }

  // The rows a write may evict: all but the one it just accepted.
  predicate Evictable(t: Table, guarded: Option<Key>, k: Key)
  {
    k in t && guarded != Some(k)
  }

  predicate OlderThanRest(t: Table, guarded: Option<Key>, batch: seq<Key>, i: nat)
    requires i < |batch|
  {
    && Evictable(t, guarded, batch[i])
    && (forall j :: i < j < |batch| && batch[j] in t ==> Older(t, batch[i], batch[j]))
    && (forall k :: k in t && Evictable(t, guarded, k) && k !in batch ==> Older(t, batch[i], k))
  }

  // `batch` is the start of the evictable rows in order.
  ghost predicate Oldest(t: Table, guarded: Option<Key>, batch: seq<Key>)
  {
    forall i :: 0 <= i < |batch| ==> OlderThanRest(t, guarded, batch, i)
  }

  lemma OldestAreDistinct(t: Table, guarded: Option<Key>, batch: seq<Key>, i: nat, j: nat)
    requires Oldest(t, guarded, batch) && i < j < |batch|
    ensures batch[i] != batch[j]
  {
    assert OlderThanRest(t, guarded, batch, i) && OlderThanRest(t, guarded, batch, j);
  }

  // The order leaves no choice: two starts of it agree as far as both go.
  lemma {:induction false} OldestIsUnique(t: Table, guarded: Option<Key>, a: seq<Key>, b: seq<Key>, n: nat)
    requires Oldest(t, guarded, a) && Oldest(t, guarded, b) && n <= |a| && n <= |b|
    ensures a[..n] == b[..n]
  {
    if 0 < n {
      OldestIsUnique(t, guarded, a, b, n - 1);
      assert a[..n - 1] == b[..n - 1];
      OldestNext(t, guarded, a, b, n - 1);
      assert a[..n] == a[..n - 1] + [a[n - 1]] && b[..n] == b[..n - 1] + [b[n - 1]];
    }
  }

  lemma OldestNext(t: Table, guarded: Option<Key>, a: seq<Key>, b: seq<Key>, n: nat)
    requires Oldest(t, guarded, a) && Oldest(t, guarded, b) && n < |a| && n < |b| && a[..n] == b[..n]
    ensures a[n] == b[n]
  {
    assert OlderThanRest(t, guarded, a, n) && OlderThanRest(t, guarded, b, n);
    forall i | 0 <= i < n
      ensures b[n] != a[i] && a[n] != b[i]
    {
      assert a[i] == a[..n][i] == b[i];
      OldestAreDistinct(t, guarded, a, i, n);
      OldestAreDistinct(t, guarded, b, i, n);
    }
    if a[n] != b[n] {
      assert Older(t, a[n], b[n]) by { assert b[n] !in a[..n]; }
      assert Older(t, b[n], a[n]) by { assert a[n] !in b[..n]; }
    }
  }

  function Drop(t: Table, removed: seq<Key>): (r: Table)
  {
    map k | k in t && k !in removed :: t[k]
  }

  // The oldest row of what is left continues the order.
  lemma OldestOneMore(t: Table, guarded: Option<Key>, removed: seq<Key>, k: Key)
    requires Oldest(t, guarded, removed) && Evictable(Drop(t, removed), guarded, k)
    requires forall j :: j in Drop(t, removed) && Evictable(Drop(t, removed), guarded, j) && j != k ==>
      Older(Drop(t, removed), k, j)
    ensures Oldest(t, guarded, removed + [k])
  {
    var more := removed + [k];
    forall i | 0 <= i < |more|
      ensures OlderThanRest(t, guarded, more, i)
    {
      if i < |removed| {
        assert OlderThanRest(t, guarded, removed, i);
        assert forall j :: i < j < |removed| ==> more[j] == removed[j];
      } else {
        forall j | j in t && Evictable(t, guarded, j) && j !in more
          ensures Older(t, k, j)
        {
          assert j in Drop(t, removed) && Evictable(Drop(t, removed), guarded, j);
        }
      }
    }
  }

  // Deleting the first of a batch leaves the rest of it oldest.
  lemma OldestTail(t: Table, guarded: Option<Key>, batch: seq<Key>)
    requires batch != [] && Oldest(t, guarded, batch)
    ensures Oldest(t - {batch[0]}, guarded, batch[1..])
    ensures Evictable(t, guarded, batch[0])
    ensures forall j :: j in t && Evictable(t, guarded, j) && j != batch[0] ==> Older(t, batch[0], j)
  {
    assert OlderThanRest(t, guarded, batch, 0);
    forall i | 0 <= i < |batch[1..]|
      ensures OlderThanRest(t - {batch[0]}, guarded, batch[1..], i)
    {
      assert OlderThanRest(t, guarded, batch, i + 1);
      OldestAreDistinct(t, guarded, batch, 0, i + 1);
    }
  }

  /******* Watermarks *******/

  datatype Limits = Limits(maxEntries: nat, maxBytes: nat)
  {
    predicate Valid() {
      0 < maxEntries && 0 < maxBytes
    }

    function LowEntries(): (r: nat) {
      if maxEntries * 9 / 10 < 1 then 1 else maxEntries * 9 / 10
    }

    function LowBytes(): (r: nat) {
      if maxBytes * 9 / 10 < 1 then 1 else maxBytes * 9 / 10
    }
  }

  // Both hard limits hold.
  ghost predicate WithinLimits(t: Table, limits: Limits)
  {
    |t| <= limits.maxEntries && Bytes(t) <= limits.maxBytes
  }

  // Both low watermarks are reached.
  ghost predicate AtLow(t: Table, limits: Limits)
  {
    |t| <= limits.LowEntries() && Bytes(t) <= limits.LowBytes()
  }

  // Nothing is removed within the limits. Beyond them the removed rows are the shortest
  // start of the order that reaches both low watermarks, or all evictable rows.
  ghost predicate EvictsExactly(t: Table, guarded: Option<Key>, limits: Limits, removed: seq<Key>)
  {
    && Oldest(t, guarded, removed)
    && (WithinLimits(t, limits) ==> removed == [])
    && (!WithinLimits(t, limits) ==>
          && (AtLow(Drop(t, removed), limits) || forall k :: k in Drop(t, removed) ==> guarded == Some(k))
          && forall n :: 0 <= n < |removed| ==> !AtLow(Drop(t, removed[..n]), limits))
  }

  lemma EvictionIsDetermined(t: Table, guarded: Option<Key>, limits: Limits, a: seq<Key>, b: seq<Key>)
    requires EvictsExactly(t, guarded, limits, a) && EvictsExactly(t, guarded, limits, b)
    ensures a == b
  {
    if |a| < |b| {
      NoneShorter(t, guarded, limits, a, b);
    } else if |b| < |a| {
      NoneShorter(t, guarded, limits, b, a);
    } else {
      OldestIsUnique(t, guarded, a, b, |a|);
      assert a[..|a|] == a && b[..|b|] == b;
    }
  }

  lemma NextIsLeft(t: Table, guarded: Option<Key>, a: seq<Key>, b: seq<Key>)
    requires Oldest(t, guarded, b) && |a| < |b| && b[..|a|] == a
    ensures b[|a|] in Drop(t, a) && guarded != Some(b[|a|])
  {
    assert OlderThanRest(t, guarded, b, |a|);
    forall i | 0 <= i < |a|
      ensures a[i] != b[|a|]
    {
      OldestAreDistinct(t, guarded, b, i, |a|);
      assert b[..|a|][i] == b[i];
    }
  }

  lemma NoneShorter(t: Table, guarded: Option<Key>, limits: Limits, a: seq<Key>, b: seq<Key>)
    requires EvictsExactly(t, guarded, limits, a) && EvictsExactly(t, guarded, limits, b)
    ensures |b| <= |a|
  {
    if |a| < |b| {
      OldestIsUnique(t, guarded, a, b, |a|);
      assert a[..|a|] == a;
      NextIsLeft(t, guarded, a, b);
    }
  }

  // The low watermarks are nine tenths, rounded down but for one.
  lemma WatermarksExact(limits: Limits)
    ensures 1 <= limits.LowEntries() && 1 <= limits.LowBytes()
    ensures limits.LowEntries() == 1 || 10 * limits.LowEntries() <= 9 * limits.maxEntries
    ensures limits.LowBytes() == 1 || 10 * limits.LowBytes() <= 9 * limits.maxBytes
    ensures 9 * limits.maxEntries < 10 * limits.LowEntries() + 10 && 9 * limits.maxBytes < 10 * limits.LowBytes() + 10
  {}

  // In numbers: an eviction happens beyond a hard limit only, goes on while either watermark
  // is exceeded, and stops when neither is or nothing may go.
  lemma EvictionInNumbers(t: Table, guarded: Option<Key>, limits: Limits, removed: seq<Key>)
    requires EvictsExactly(t, guarded, limits, removed)
    ensures |t| <= limits.maxEntries && Bytes(t) <= limits.maxBytes ==> removed == []
    ensures limits.maxEntries < |t| || limits.maxBytes < Bytes(t) ==>
      var r := Drop(t, removed);
      || (|r| <= limits.LowEntries() && Bytes(r) <= limits.LowBytes())
      || (forall k :: k in r ==> guarded == Some(k))
    ensures forall n :: 0 <= n < |removed| ==>
      limits.LowEntries() < |Drop(t, removed[..n])| || limits.LowBytes() < Bytes(Drop(t, removed[..n]))
  {}

  // What goes was used longest ago: before every row that stays and may go, with the time of
  // creation and the key deciding between equal times.
  lemma EvictedAreStalest(t: Table, guarded: Option<Key>, limits: Limits, removed: seq<Key>, k: Key, j: Key)
    requires EvictsExactly(t, guarded, limits, removed) && k in removed
    requires j in Drop(t, removed) && guarded != Some(j)
    ensures k in t && j in t && guarded != Some(k) && t[k].accessed <= t[j].accessed
    ensures t[k].accessed == t[j].accessed ==> t[k].created <= t[j].created
    ensures t[k].accessed == t[j].accessed && t[k].created == t[j].created ==> k < j
  {
    var i :| 0 <= i < |removed| && removed[i] == k;
    assert OlderThanRest(t, guarded, removed, i);
    assert Older(t, k, j);
  }

  // After an eviction that guards a row which fits alone, both hard limits hold.
  lemma EvictionMeetsLimits(t: Table, guarded: Option<Key>, limits: Limits, removed: seq<Key>)
    requires limits.Valid() && EvictsExactly(t, guarded, limits, removed)
    requires guarded.Some? ==> guarded.value in t && t[guarded.value].size <= limits.maxBytes
    ensures |Drop(t, removed)| <= limits.maxEntries && Bytes(Drop(t, removed)) <= limits.maxBytes
    ensures guarded.Some? ==> guarded.value in Drop(t, removed)
  {
    forall i | 0 <= i < |removed|
      ensures guarded != Some(removed[i])
    {
      assert OlderThanRest(t, guarded, removed, i);
    }
    var r := Drop(t, removed);
    if WithinLimits(t, limits) {
      assert r == t;
    } else if !AtLow(r, limits) {
      if guarded.Some? {
        SingleRow(r, guarded.value);
      } else {
        assert r == map[];
      }
    }
  }
}
