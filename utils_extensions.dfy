/** Utils/Extensions.cs: `CreateOrUpdate` on a dictionary and the
    `IsNotOlderThan` age test, together with the .NET dictionary operations
    the orchestrators rely on (`Add`, `TryAdd`, the indexer). Times are whole
    minutes on one clock, and "now" is a parameter. */
module UtilsExtensions {
  import opened Wrappers

  const MinutesPerDay := 1440

  /** `(datetime - DateTime.Now).TotalDays < time.TotalDays`, with both sides
      in minutes: how far `datetime` lies AFTER now is compared with the
      window. */
  predicate IsNotOlderThan(datetime: int, window: int, now: int) {
    datetime - now < window
  }

  /** As written, every moment up to now passes the test for any positive
      window, however long ago it was. */
  lemma PastIsNeverTooOld(datetime: int, window: int, now: int)
    requires window > 0 && datetime <= now
    ensures IsNotOlderThan(datetime, window, now)
  {
  }

  /** The test is strict: it fails from `now + window` on, and only there. */
  lemma IsNotOlderThanBoundary(datetime: int, window: int, now: int)
    ensures !IsNotOlderThan(datetime, window, now) <==> datetime >= now + window
  {
  }

  /** The map `CreateOrUpdate` leaves behind: the key is stored with
      `update(old value)` when it was present and with `add()` when it was
      not; every other key keeps its value. */
  function Upserted<K, V>(m: map<K, V>, id: K, add: () -> V, update: V -> V): (r: map<K, V>)
    ensures r.Keys == m.Keys + {id}
    ensures id in m ==> r[id] == update(m[id])
    ensures id !in m ==> r[id] == add()
    ensures forall k :: k in m && k != id ==> r[k] == m[k]
  {
    m[id := if id in m then update(m[id]) else add()]
  }

  /** A `Dictionary<TKey, TValue>`. */
  class Dictionary<K(==), V> {
    var entries: map<K, V>

    constructor()
      ensures entries == map[]
    {
      entries := map[];
    }

    /** `Add`: a key already present throws and changes nothing. */
    method Add(key: K, value: V) returns (o: Outcome)
      modifies this
      ensures key in old(entries) ==> o == Fail(DuplicateKey) && entries == old(entries)
      ensures key !in old(entries) ==> o == Pass && entries == old(entries)[key := value]
    {
      if key in entries {
        return Fail(DuplicateKey);
      }
      entries := entries[key := value];
      return Pass;
    }

    /** `TryAdd`: the first value stored under a key stays. */
    method TryAdd(key: K, value: V) returns (added: bool)
      modifies this
      ensures added <==> key !in old(entries)
      ensures entries == if added then old(entries)[key := value] else old(entries)
    {
      added := key !in entries;
      if added {
        entries := entries[key := value];
      }
    }

    /** `CreateOrUpdate`. */
    method CreateOrUpdate(id: K, add: () -> V, update: V -> V)
      modifies this
      ensures entries == Upserted(old(entries), id, add, update)
    {
      entries := entries[id := if id in entries then update(entries[id]) else add()];
    }
  }
}
