/**
 * `Cache`: the items read for each data tile, under the tile's key, with the
 * time they were added. `purge` first moves its own cutoff five minutes back
 * and then deletes what was added before the cutoff; the cutoff starts at the
 * time the cache was created and is never set forward again.
 */
module Caching {
  import opened Wrappers
  import opened Items

  /** Five minutes in milliseconds: how far each `purge` moves the cutoff back. */
  const PurgeStep := 5 * 60 * 1000

  /** A cached tile: what the reader returned (`None` for `undefined`), and when. */
  datatype Entry = Entry(items: Option<seq<Building>>, time: int)

  /** `_data[key] && _data[key].data`. */
  function Lookup<K(!new)>(data: map<K, Entry>, key: K): (r: Option<seq<Building>>)
    ensures key !in data ==> r.None?
    ensures key in data ==> r == data[key].items
  {
    if key in data then data[key].items else None
  }

  /** The entries a purge with this cutoff keeps: those added at or after it. */
  function Kept<K(!new)>(data: map<K, Entry>, cutoff: int): (r: map<K, Entry>)
    ensures forall k :: k in r <==> k in data && data[k].time >= cutoff
    ensures forall k :: k in r ==> r[k] == data[k]
  {
    map k | k in data && data[k].time >= cutoff :: data[k]
  }

  /** A later, earlier-set cutoff deletes nothing a previous purge kept. */
  lemma KeptAgain<K(!new)>(data: map<K, Entry>, c1: int, c2: int)
    requires c2 <= c1
    ensures Kept(Kept(data, c1), c2) == Kept(data, c1)
  {
  }

  /** Entries added after the cutoff survive a purge, with their items. */
  lemma FreshSurvives<K(!new)>(data: map<K, Entry>, cutoff: int, key: K, items: Option<seq<Building>>, now: int)
    requires now >= cutoff
    ensures Lookup(Kept(data[key := Entry(items, now)], cutoff), key) == items
  {
  }

  class Cache<K(==,!new)> {
    /** `_time`, in milliseconds. */
    var time: int
    /** `_data`. */
    var data: map<K, Entry>

    /** The module is created with `_time = new Date()`: `start` is that moment. */
    constructor(start: int)
      ensures time == start && data == map[]
    {
      time := start;
      data := map[];
    }

    /** `get(key)`. */
    function Get(key: K): (r: Option<seq<Building>>)
      reads this
      ensures key !in data ==> r.None?
      ensures key in data ==> r == data[key].items
    {
      Lookup(data, key)
    }

    /** `add(key, items)` at time `now` (`Date.now()`). */
    method Add(key: K, items: Option<seq<Building>>, now: int)
      modifies this
      ensures data == old(data)[key := Entry(items, now)]
      ensures time == old(time)
      ensures Get(key) == items
      ensures forall k :: k != key ==> Get(k) == old(Get(k))
    {
      data := data[key := Entry(items, now)];
    }

    /** `purge()`: the cutoff goes five minutes back, then older entries are deleted one key at a time. */
    method Purge()
      modifies this
      ensures time == old(time) - PurgeStep
      ensures data == Kept(old(data), time)
    {
      time := time - PurgeStep;
      var keys := data.Keys;
      ghost var start := data;
      while keys != {}
        invariant time == old(time) - PurgeStep
        invariant keys <= start.Keys
        invariant forall k :: k in data <==> k in start && (k in keys || start[k].time >= time)
        invariant forall k :: k in data ==> data[k] == start[k]
        decreases keys
      {
        var key :| key in keys;
        if data[key].time < time {
          data := map k | k in data && k != key :: data[k];
        }
        keys := keys - {key};
      }
    }
  }
}
