/** Properties of `put` as the caches' specification states it: the size
    bound, which keys a call can touch, and who survives an eviction. */
module CacheProperties {
  import opened Cache

  /** The key just written holds the value just written. */
  lemma PutStoresValue<T>(before: map<string, Entry<T>>, after: map<string, Entry<T>>,
                          capacity: nat, id: string, value: T)
    requires PutOutcome(before, after, capacity, id, value)
    ensures id in after && after[id].value == value
  {
    if id !in before && |before| >= capacity {
      var victim :| IsLeastFrequent(before, victim) && after == (before - {victim})[id := NewEntry(value)];
    }
  }

  /** With a positive capacity the size bound and the positive counters
      survive every `put`. */
  lemma PutKeepsBound<T>(before: map<string, Entry<T>>, after: map<string, Entry<T>>,
                         capacity: nat, id: string, value: T)
    requires WellFormed(before, capacity)
    requires PutOutcome(before, after, capacity, id, value)
    ensures WellFormed(after, capacity)
  {
    if id !in before && |before| >= capacity {
      var victim :| IsLeastFrequent(before, victim) && after == (before - {victim})[id := NewEntry(value)];
      MapRemoveSize(before, victim);
    }
  }

  /** A `put` writes the one key it names; every other key that remains
      keeps its entry, and an update of a known key loses none. */
  lemma PutFrame<T>(before: map<string, Entry<T>>, after: map<string, Entry<T>>,
                    capacity: nat, id: string, value: T)
    requires PutOutcome(before, after, capacity, id, value)
    ensures forall k :: k in after && k != id ==> k in before && after[k] == before[k]
    ensures after.Keys <= before.Keys + {id}
    ensures id in before ==> after.Keys == before.Keys
  {
    if id !in before && |before| >= capacity {
      var victim :| IsLeastFrequent(before, victim) && after == (before - {victim})[id := NewEntry(value)];
    }
  }

  /** At most one key disappears in a `put`, and only from a full cache. */
  lemma PutLosesAtMostOne<T>(before: map<string, Entry<T>>, after: map<string, Entry<T>>,
                             capacity: nat, id: string, value: T)
    requires PutOutcome(before, after, capacity, id, value)
    ensures |before.Keys - after.Keys| <= 1
    ensures |before| < capacity ==> before.Keys <= after.Keys
  {
    if id !in before && |before| >= capacity {
      var victim :| IsLeastFrequent(before, victim) && after == (before - {victim})[id := NewEntry(value)];
      assert before.Keys - after.Keys == {victim};
    } else {
      assert before.Keys - after.Keys == {};
    }
  }

  /** A fresh entry holds its value and, in a well-formed cache, is least
      frequent as soon as it enters: it is the next eviction candidate. */
  lemma NewEntryIsLeastFrequent<T>(m: map<string, Entry<T>>, capacity: nat, id: string, value: T)
    requires WellFormed(m, capacity) && id !in m
    ensures NewEntry(value).value == value && NewEntry(value).frequency == 1
    ensures IsLeastFrequent(m[id := NewEntry(value)], id)
  {
  }

  /** A hit keeps the keys and values, raises only the key's counter by one,
      and keeps the cache well formed. */
  lemma TouchedKeepsWellFormed<T>(m: map<string, Entry<T>>, capacity: nat, id: string)
    requires WellFormed(m, capacity) && id in m
    ensures Touched(m, id).Keys == m.Keys
    ensures Touched(m, id)[id].value == m[id].value && Touched(m, id)[id].frequency == m[id].frequency + 1
    ensures forall k :: k in m && k != id ==> Touched(m, id)[k] == m[k]
    ensures WellFormed(Touched(m, id), capacity)
  {
  }

  /** The counter after a `put`: one more for a known key, one for a new one. */
  lemma PutFrequency<T>(before: map<string, Entry<T>>, after: map<string, Entry<T>>,
                        capacity: nat, id: string, value: T)
    requires PutOutcome(before, after, capacity, id, value)
    ensures id in after
    ensures after[id].frequency == if id in before then before[id].frequency + 1 else 1
  {
    if id !in before && |before| >= capacity {
      var victim :| IsLeastFrequent(before, victim) && after == (before - {victim})[id := NewEntry(value)];
    }
  }

  /** A key used strictly more often than some other key is never the one
      evicted. */
  lemma PutSparesMoreFrequent<T>(before: map<string, Entry<T>>, after: map<string, Entry<T>>,
                                 capacity: nat, id: string, value: T, kept: string, other: string)
    requires PutOutcome(before, after, capacity, id, value)
    requires kept in before && other in before
    requires before[other].frequency < before[kept].frequency
    ensures kept in after
  {
    if id !in before && |before| >= capacity {
      var victim :| IsLeastFrequent(before, victim) && after == (before - {victim})[id := NewEntry(value)];
      assert before[victim].frequency <= before[other].frequency;
    }
  }

  /** When a new key arrives at a full cache and every entry has been used
      equally often, the evicted key may be any of them: the outcome that
      drops `k` satisfies the specification for each `k`. */
  lemma AnyTiedKeyMayBeEvicted<T>(before: map<string, Entry<T>>, capacity: nat,
                                  id: string, value: T, k: string)
    requires id !in before && |before| >= capacity
    requires k in before
    requires forall j :: j in before ==> before[j].frequency == before[k].frequency
    ensures PutOutcome(before, (before - {k})[id := NewEntry(value)], capacity, id, value)
  {
    assert IsLeastFrequent(before, k);
  }

  /** The worked example: capacity 3, keys h1, h2, h3 put once each, h1 read
      once more, then h4 put. Exactly one of h2 and h3 goes; h1 and h4 stay
      and three keys remain. */
  lemma FourthHotelScenario<T>(a: T, b: T, c: T, d: T, after: map<string, Entry<T>>)
    requires PutOutcome(map["h1" := Entry(a, 2), "h2" := Entry(b, 1), "h3" := Entry(c, 1)],
                        after, 3, "h4", d)
    ensures "h1" in after && "h4" in after && after["h4"] == NewEntry(d)
    ensures ("h2" in after) != ("h3" in after)
    ensures |after| == 3
  {
    var before := map["h1" := Entry(a, 2), "h2" := Entry(b, 1), "h3" := Entry(c, 1)];
    assert before.Keys == {"h1", "h2", "h3"};
    assert |before| == 3;
    var victim :| IsLeastFrequent(before, victim) && after == (before - {victim})["h4" := NewEntry(d)];
    assert before[victim].frequency <= before["h2"].frequency;
    assert victim == "h2" || victim == "h3";
    if victim == "h2" {
      assert after.Keys == {"h1", "h3", "h4"};
    } else {
      assert after.Keys == {"h1", "h2", "h4"};
    }
  }
}
