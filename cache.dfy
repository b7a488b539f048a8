/** The bounded least-frequently-used cache `LfuCacheBase<T>`: a map from a
    string key to an entry holding a value and an access counter. */
module Cache {
  import opened Common

  /** A cached value and how often it was read or overwritten. */
  datatype Entry<T> = Entry(value: T, frequency: nat)

  /** The `Entry(T value)` constructor: a new entry has been used once. */
  function NewEntry<T>(value: T): Entry<T> {
    Entry(value, 1)
  }

  /** `k` is a key whose frequency no other entry undercuts. */
  ghost predicate IsLeastFrequent<T>(m: map<string, Entry<T>>, k: string) {
    k in m && forall j :: j in m ==> m[k].frequency <= m[j].frequency
  }

  /** The map after a hit on `id`: its counter goes up by one. */
  function Touched<T>(m: map<string, Entry<T>>, id: string): map<string, Entry<T>>
    requires id in m
  {
    m[id := m[id].(frequency := m[id].frequency + 1)]
  }

  /** What `put(id, value)` leaves behind, given the entries before it and
      the capacity: an update in place for a known key; otherwise the new
      key with a fresh entry, after dropping SOME least frequent key when
      the cache is full (which one depends on hash-map iteration order). */
  ghost predicate PutOutcome<T>(before: map<string, Entry<T>>, after: map<string, Entry<T>>,
                                capacity: nat, id: string, value: T)
  {
    if id in before then
      after == before[id := Entry(value, before[id].frequency + 1)]
    else if |before| >= capacity then
      exists victim :: IsLeastFrequent(before, victim) && after == (before - {victim})[id := NewEntry(value)]
    else
      after == before[id := NewEntry(value)]
  }

  /** The entries a cache of capacity `capacity` may hold at rest. */
  ghost predicate WellFormed<T>(m: map<string, Entry<T>>, capacity: nat) {
    0 < capacity && |m| <= capacity && forall k :: k in m ==> m[k].frequency >= 1
  }

  lemma MapRemoveSize<T>(m: map<string, Entry<T>>, k: string)
    requires k in m
    ensures |m - {k}| == |m| - 1
  {
    assert (m - {k}).Keys == m.Keys - {k};
  }

  class LfuCacheBase<T> {
    const capacity: nat
    var entries: map<string, Entry<T>>

    ghost predicate Valid()
      reads this
    {
      WellFormed(entries, capacity)
    }

    /** `LfuCacheBase(int capacity)`; the source accepts any int, the model
        asks for a positive capacity, without which no bound can hold. */
    constructor (capacity: nat)
      requires 0 < capacity
      ensures Valid()
      ensures this.capacity == capacity && entries == map[]
    {
      this.capacity := capacity;
      entries := map[];
    }

    /** `get(id)`: a miss returns null and changes nothing; a hit returns the
        stored value and counts one more use of that key only. */
    method Get(id: string) returns (r: Option<T>)
      requires Valid()
      modifies this
      ensures Valid()
      ensures id in old(entries) ==> r == Some(old(entries)[id].value) && entries == Touched(old(entries), id)
      ensures id !in old(entries) ==> r == None && entries == old(entries)
    {
      if id !in entries {
        return None;
      }
      var entry := entries[id];
      entries := entries[id := entry.(frequency := entry.frequency + 1)];
      r := Some(entry.value);
    }

    /** `put(id, value)`. */
    method Put(id: string, value: T)
      requires Valid()
      modifies this
      ensures Valid()
      ensures PutOutcome(old(entries), entries, capacity, id, value)
    {
      if id in entries {
        var entry := entries[id];
        entries := entries[id := Entry(value, entry.frequency + 1)];
      } else {
        if |entries| >= capacity {
          EvictLeastFrequentlyUsed();
        }
        entries := entries[id := NewEntry(value)];
      }
    }

    /** The scan of `evictLeastFrequentlyUsed`: visit the keys in some order
        (the ghost `order`), keep the first key whose frequency is strictly
        below every frequency seen before it. The result is a least frequent
        key, and the first such key in visiting order. */
    method FindLeastFrequentlyUsed() returns (lfuKey: Option<string>, ghost order: seq<string>, ghost pos: nat)
      ensures lfuKey.None? <==> entries == map[]
      ensures lfuKey.Some? ==> IsLeastFrequent(entries, lfuKey.value)
      ensures |order| == |entries| && forall k :: k in order <==> k in entries
      ensures forall i, j :: 0 <= i < j < |order| ==> order[i] != order[j]
      ensures lfuKey.Some? ==> pos < |order| && order[pos] == lfuKey.value
      ensures lfuKey.Some? ==> forall i :: 0 <= i < pos ==> entries[order[i]].frequency > entries[lfuKey.value].frequency
    {
      lfuKey := None;
      var minFrequency := 0;
      var remaining := entries.Keys;
      order, pos := [], 0;
      while remaining != {}
        invariant remaining <= entries.Keys
        invariant forall k :: k in order <==> k in entries && k !in remaining
        invariant forall i, j :: 0 <= i < j < |order| ==> order[i] != order[j]
        invariant |order| + |remaining| == |entries.Keys|
        invariant lfuKey.None? <==> order == []
        invariant lfuKey.Some? ==> pos < |order| && order[pos] == lfuKey.value && minFrequency == entries[lfuKey.value].frequency
        invariant lfuKey.Some? ==> forall i :: 0 <= i < pos ==> entries[order[i]].frequency > minFrequency
        invariant lfuKey.Some? ==> forall i :: 0 <= i < |order| ==> entries[order[i]].frequency >= minFrequency
        decreases remaining
      {
        var k :| k in remaining;
        if lfuKey.None? || entries[k].frequency < minFrequency {
          minFrequency := entries[k].frequency;
          lfuKey := Some(k);
          pos := |order|;
        }
        order := order + [k];
        remaining := remaining - {k};
      }
      if lfuKey.Some? {
        forall j | j in entries
          ensures entries[lfuKey.value].frequency <= entries[j].frequency
        {
          var i :| 0 <= i < |order| && order[i] == j;
        }
      }
    }

    /** `evictLeastFrequentlyUsed()`: drop the key the scan found, if any. */
    method EvictLeastFrequentlyUsed()
      modifies this
      ensures old(entries) == map[] ==> entries == map[]
      ensures old(entries) != map[] ==>
        exists victim :: IsLeastFrequent(old(entries), victim) && entries == old(entries) - {victim}
    {
      var lfuKey, order, pos := FindLeastFrequentlyUsed();
      if lfuKey.Some? {
        entries := entries - {lfuKey.value};
      }
    }

    /** `remove(id)`: drop the key if present, a no-op otherwise. */
    method Remove(id: string)
      requires Valid()
      modifies this
      ensures Valid()
      ensures entries == old(entries) - {id}
    {
      entries := entries - {id};
    }

    /** `clear()`. */
    method Clear()
      requires Valid()
      modifies this
      ensures Valid()
      ensures entries == map[]
    {
      entries := map[];
    }
  }
}
