// The operations of the durable cache over its table, each one committed transaction.
module SqliteCaches {
  import opened JsonValues
  import opened SqliteTables

  const EVICTION_BATCH := 64

  datatype Stats = Stats(entryCount: nat, totalBytes: nat, removedEntries: nat, removedBytes: nat)

  // The evictable rows that are left.
  function Rest(t: Table, guarded: Option<Key>, batch: seq<Key>): (r: set<Key>)
  {
    set k | k in t && Evictable(t, guarded, k) && k !in batch
  }

  // COUNT and SUM over the whole table.
  method Totals(t: Table) returns (count: nat, bytes: nat)
    ensures count == |t| && bytes == Bytes(t)
  {
    count, bytes := 0, 0;
    var rest := t;
    while rest != map[]
      invariant count + |rest| == |t| && bytes + Bytes(rest) == Bytes(t)
      decreases |rest|
    {
      var k :| k in rest;
      BytesWithout(rest, k);
      count, bytes, rest := count + 1, bytes + rest[k].size, rest - {k};
    }
  }

  // The oldest of some rows.
  method OldestOf(t: Table, keys: set<Key>) returns (oldest: Key)
    requires keys != {} && keys <= t.Keys
    ensures oldest in keys && forall k :: k in keys && k != oldest ==> Older(t, oldest, k)
  {
    oldest :| oldest in keys;
    var rest := keys - {oldest};
    while rest != {}
      invariant oldest in keys && rest <= keys
      invariant forall k :: k in keys && k !in rest && k != oldest ==> Older(t, oldest, k)
      decreases |rest|
    {
      var k :| k in rest;
      if Older(t, k, oldest) {
        oldest := k;
      }
      rest := rest - {k};
    }
  }

  // The SELECT ... ORDER BY ... LIMIT of the eviction.
  method SelectOldest(t: Table, guarded: Option<Key>, limit: nat) returns (batch: seq<Key>)
    requires 0 < limit
    ensures Oldest(t, guarded, batch) && |batch| <= limit
    ensures |batch| < limit ==> Rest(t, guarded, batch) == {}
    ensures batch == [] <==> Rest(t, guarded, []) == {}
  {
    batch := [];
    while |batch| < limit && Rest(t, guarded, batch) != {}
      invariant Oldest(t, guarded, batch) && |batch| <= limit
      invariant batch == [] || Rest(t, guarded, []) != {}
      decreases limit - |batch|
    {
      var k := OldestOf(t, Rest(t, guarded, batch));
      NextOldest(t, guarded, batch, k);
      batch := batch + [k];
    }
  }

  lemma NothingElse(t: Table, guarded: Option<Key>)
    requires Rest(t, guarded, []) == {}
    ensures forall k :: k in t ==> guarded == Some(k)
  {
    assert forall k :: k in t && guarded != Some(k) ==> k in Rest(t, guarded, []);
  }

  lemma NextOldest(t: Table, guarded: Option<Key>, batch: seq<Key>, k: Key)
    requires Oldest(t, guarded, batch) && k in Rest(t, guarded, batch)
    requires forall j :: j in Rest(t, guarded, batch) && j != k ==> Older(t, k, j)
    ensures Oldest(t, guarded, batch + [k]) && k in Rest(t, guarded, [])
  {
    forall j | j in Drop(t, batch) && Evictable(Drop(t, batch), guarded, j) && j != k
      ensures Older(Drop(t, batch), k, j)
    {
      assert j in Rest(t, guarded, batch);
    }
    OldestOneMore(t, guarded, batch, k);
  }

  // Where an eviction stands: `removed` is a start of the order, and none of it went while
  // the low watermarks were reached.
  ghost predicate Progress(start: Table, guarded: Option<Key>, limits: Limits, removed: seq<Key>, t: Table)
  {
    && t == Drop(start, removed) && Oldest(start, guarded, removed)
    && forall n :: 0 <= n < |removed| ==> !AtLow(Drop(start, removed[..n]), limits)
  }

  lemma ProgressOneMore(start: Table, guarded: Option<Key>, limits: Limits, removed: seq<Key>, t: Table,
                        batch: seq<Key>)
    requires Progress(start, guarded, limits, removed, t) && !AtLow(t, limits)
    requires batch != [] && Oldest(t, guarded, batch)
    ensures Progress(start, guarded, limits, removed + [batch[0]], t - {batch[0]})
    ensures Oldest(t - {batch[0]}, guarded, batch[1..]) && batch[0] in t
    ensures |t - {batch[0]}| == |t| - 1 && Bytes(t) == t[batch[0]].size + Bytes(t - {batch[0]})
  {
    var k := batch[0];
    OldestTail(t, guarded, batch);
    OldestOneMore(start, guarded, removed, k);
    BytesWithout(t, k);
    forall n | 0 <= n < |removed + [k]|
      ensures !AtLow(Drop(start, (removed + [k])[..n]), limits)
    {
      assert (removed + [k])[..n] == if n < |removed| then removed[..n] else removed;
    }
  }

  class SqliteCache {
    const limits: Limits
    const ttl: Option<real>
    const touchInterval: real
    var table: Table

    constructor (limits: Limits, ttl: Option<real>, touchInterval: real)
      ensures this.limits == limits && this.ttl == ttl && this.touchInterval == touchInterval && table == map[]
    {
      this.limits, this.ttl, this.touchInterval := limits, ttl, touchInterval;
      table := map[];
    }

    // Deletes in batches, but the batches do not show: the rows removed are the ones the
    // order and the watermarks determine.
    method Evict(guarded: Option<Key>) returns (removedEntries: nat, removedBytes: nat, ghost removed: seq<Key>)
      requires limits.Valid()
      modifies this`table
      ensures EvictsExactly(old(table), guarded, limits, removed) && table == Drop(old(table), removed)
      ensures |old(table)| == |table| + removedEntries && Bytes(old(table)) == Bytes(table) + removedBytes
    {
      var entryCount, totalBytes := Totals(table);
      removedEntries, removedBytes, removed := 0, 0, [];
      assert table == Drop(table, []);
      if entryCount <= limits.maxEntries && totalBytes <= limits.maxBytes {
        return;
      }
      while limits.LowEntries() < entryCount || limits.LowBytes() < totalBytes
        invariant Progress(old(table), guarded, limits, removed, table)
        invariant entryCount == |table| && totalBytes == Bytes(table)
        invariant |old(table)| == |table| + removedEntries && Bytes(old(table)) == Bytes(table) + removedBytes
        decreases |table|
      {
        var candidates := SelectOldest(table, guarded, EVICTION_BATCH);
        if candidates == [] {
          NothingElse(table, guarded);
          return;
        }
        entryCount, totalBytes, removedEntries, removedBytes, removed :=
          DeleteBatch(old(table), guarded, candidates, entryCount, totalBytes, removedEntries, removedBytes, removed);
      }
    }

    // One batch, abandoned as soon as both low watermarks are reached.
    method DeleteBatch(ghost start: Table, guarded: Option<Key>, candidates: seq<Key>, entryCount0: int,
                       totalBytes0: int, removedEntries0: nat, removedBytes0: nat, ghost removed0: seq<Key>)
      returns (entryCount: int, totalBytes: int, removedEntries: nat, removedBytes: nat, ghost removed: seq<Key>)
      requires Progress(start, guarded, limits, removed0, table) && !AtLow(table, limits)
      requires candidates != [] && Oldest(table, guarded, candidates)
      requires entryCount0 == |table| && totalBytes0 == Bytes(table)
      requires |start| == |table| + removedEntries0 && Bytes(start) == Bytes(table) + removedBytes0
      modifies this`table
      ensures Progress(start, guarded, limits, removed, table) && |table| < |old(table)|
      ensures entryCount == |table| && totalBytes == Bytes(table)
      ensures |start| == |table| + removedEntries && Bytes(start) == Bytes(table) + removedBytes
      ensures AtLow(table, limits) || |table| + |candidates| == |old(table)|
    {
      entryCount, totalBytes := entryCount0, totalBytes0;
      removedEntries, removedBytes, removed := removedEntries0, removedBytes0, removed0;
      for i := 0 to |candidates|
        invariant Progress(start, guarded, limits, removed, table) && !AtLow(table, limits)
        invariant Oldest(table, guarded, candidates[i..])
        invariant |table| + i == |old(table)|
        invariant entryCount == |table| && totalBytes == Bytes(table)
        invariant |start| == |table| + removedEntries && Bytes(start) == Bytes(table) + removedBytes
      {
        ProgressOneMore(start, guarded, limits, removed, table, candidates[i..]);
        var size := table[candidates[i]].size;
        table := table - {candidates[i]};
        removed := removed + [candidates[i]];
        assert candidates[i..][1..] == candidates[i + 1..];
        entryCount, totalBytes := entryCount - 1, totalBytes - size;
        removedEntries, removedBytes := removedEntries + 1, removedBytes + size;
        if entryCount <= limits.LowEntries() && totalBytes <= limits.LowBytes() {
          break;
        }
      }
    }

    // A miss when absent or expired; an expired hit collects everything that has expired,
    // and a live one refreshes its time of access at most once an interval.
    method Get(key: Key, now: real) returns (value: Option<seq<bv8>>)
      modifies this`table
      ensures value == if key in old(table) && !Expired(old(table)[key], now) then Some(old(table)[key].value) else None
      ensures key !in old(table) ==> table == old(table)
      ensures key in old(table) && Expired(old(table)[key], now) ==> table == Live(old(table), now)
      ensures value.Some? ==>
        table == if old(table)[key].accessed + touchInterval <= now
                 then old(table)[key := old(table)[key].(accessed := now)] else old(table)
    {
      if key !in table {
        return None;
      }
      var row := table[key];
      if Expired(row, now) {
        table := Live(table, now);
        return None;
      }
      if touchInterval <= now - row.accessed {
        table := table[key := row.(accessed := now)];
      }
      value := Some(row.value);
    }

    // The table as written, before any eviction.
    function Written(t: Table, key: Key, value: seq<bv8>, size: nat, now: real): (r: Table)
    {
      var expires := if ttl.None? then None else Some(now + ttl.value);
      Live(t, now)[key := Row(value, size, now, now, expires)]
    }

    // A written row is live for its time to live and not beyond; the other rows that are
    // live when it is written stay as they are.
    lemma WrittenExact(t: Table, key: Key, value: seq<bv8>, size: nat, now: real, later: real)
      ensures var row := Written(t, key, value, size, now)[key];
        && row.value == value && row.size == size && row.created == row.accessed == now
        && (Expired(row, later) <==> ttl.Some? && ttl.value <= later - now)
      ensures forall k :: k != key ==>
        (k in Written(t, key, value, size, now) <==> k in t && !(t[k].expires.Some? && t[k].expires.value <= now))
      ensures forall k :: k != key && k in Written(t, key, value, size, now) ==>
        Written(t, key, value, size, now)[k] == t[k]
    {}

    // The new row stays, whatever else has to go for both hard limits to hold.
    method Set(key: Key, value: seq<bv8>, size: nat, now: real) returns (ghost removed: seq<Key>)
      requires limits.Valid()
      modifies this`table
      ensures limits.maxBytes < size ==> table == old(table)
      ensures size <= limits.maxBytes ==>
        && |table| <= limits.maxEntries && Bytes(table) <= limits.maxBytes
        && key in table && table[key].value == value
        && table == Drop(Written(old(table), key, value, size, now), removed)
        && EvictsExactly(Written(old(table), key, value, size, now), Some(key), limits, removed)
    {
      removed := [];
      if limits.maxBytes < size {
        return;
      }
      table := Written(table, key, value, size, now);
      ghost var written := table;
      var entries, bytes;
      entries, bytes, removed := Evict(Some(key));
      EvictionMeetsLimits(written, Some(key), limits, removed);
    }

    // Counts conserve: what is reported and what is left make up what there was.
    method Prune(now: real) returns (stats: Stats, ghost removed: seq<Key>)
      requires limits.Valid()
      modifies this`table
      ensures EvictsExactly(Live(old(table), now), None, limits, removed)
        && table == Drop(Live(old(table), now), removed)
      ensures |table| <= limits.maxEntries && Bytes(table) <= limits.maxBytes
      ensures stats.entryCount == |table| && stats.totalBytes == Bytes(table)
      ensures |old(table)| == stats.entryCount + stats.removedEntries
      ensures Bytes(old(table)) == stats.totalBytes + stats.removedBytes
    {
      var expiredEntries, expiredBytes := Totals(table - Live(table, now).Keys);
      ExpiredAndLive(table, now);
      table := Live(table, now);
      ghost var live := table;
      var evictedEntries, evictedBytes;
      evictedEntries, evictedBytes, removed := Evict(None);
      EvictionMeetsLimits(live, None, limits, removed);
      var entryCount, totalBytes := Totals(Live(table, now));
      assert Live(table, now) == table;
      stats := Stats(entryCount, totalBytes, expiredEntries + evictedEntries, expiredBytes + evictedBytes);
    }

    method Clear()
      modifies this`table
      ensures table == map[]
    {
      table := map[];
    }
  }

  // The expired rows and the live ones make up the table.
  lemma ExpiredAndLive(t: Table, now: real)
    ensures |t| == |t - Live(t, now).Keys| + |Live(t, now)|
    ensures Bytes(t) == Bytes(t - Live(t, now).Keys) + Bytes(Live(t, now))
  {
    var live := Live(t, now);
    assert t == (t - live.Keys) + live;
    UnionTotals(t - live.Keys, live, t);
  }

  lemma UnionWithout(a: Table, b: Table, k: Key)
    requires a.Keys !! b.Keys && k in a
    ensures k in a + b && (a + b)[k] == a[k] && (a + b) - {k} == (a - {k}) + b
  {}

  lemma RowCounts(t: Table, k: Key, less: Table)
    requires k in t && less == t - {k}
    ensures |t| == |less| + 1 && Bytes(t) == t[k].size + Bytes(less)
  {
    BytesWithout(t, k);
  }

  lemma {:induction false} UnionTotals(a: Table, b: Table, u: Table)
    requires a.Keys !! b.Keys && u == a + b
    ensures |u| == |a| + |b| && Bytes(u) == Bytes(a) + Bytes(b)
    decreases |a|
  {
    if a.Keys == {} {
      assert a == map[] && u == b;
    } else {
      var k :| k in a.Keys;
      UnionWithout(a, b, k);
      RowCounts(a, k, a - {k});
      RowCounts(u, k, (a - {k}) + b);
      UnionTotals(a - {k}, b, (a - {k}) + b);
    }
  }
}
