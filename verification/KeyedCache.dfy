/** The keyed cache: a slot per key, under a cap on the number of keys. */
module KeyedCache {
  import opened Results
  import opened FlightCache

  class KeyedTtlSingleFlightCache<V(==)> {
    const ttlMs: int
    const maxKeys: int
    var slots: map<string, TtlSingleFlightCache<V>>
    var stamps: map<string, int>

    ghost predicate Valid()
      reads this, slots.Values
    {
      && slots.Keys == stamps.Keys
      && |slots| <= Cap()
      && (forall k <- slots :: slots[k].Valid() && slots[k].ttlMs == ttlMs)
      && Apart(slots)
    }

    /** A slot is always made for the key asked for, so a cap below one counts as one. */
    function Cap(): nat {
      if maxKeys < 1 then 1 else maxKeys
    }

    constructor (ttlMs: int, maxKeys: int)
      ensures Valid() && this.ttlMs == ttlMs && this.maxKeys == maxKeys && slots == map[]
    {
      this.ttlMs, this.maxKeys := ttlMs, maxKeys;
      slots, stamps := map[], map[];
    }

    /** Forgets one key, and with it the load it may have in flight. */
    method Invalidate(key: string)
      requires Valid()
      modifies this`slots, this`stamps
      ensures Valid() && slots == old(slots) - {key} && stamps == old(stamps) - {key}
    {
      slots := slots - {key};
      stamps := stamps - {key};
      ApartWithin(slots, old(slots));
    }

    /** The keys asked for since `cutoff`. */
    ghost function UsedSince(cutoff: int): set<string>
      reads this
    {
      set k | k in stamps && stamps[k] > cutoff
    }

    /** The keys that keep their slot when room is made: all of them below the cap; else those used
        for the last TTL, if they are below it; else none. */
    ghost function Surviving(now: int): set<string>
      reads this
    {
      var used := UsedSince(now - ttlMs);
      if |slots| < maxKeys then slots.Keys else if |used| < maxKeys then used else {}
    }

    /** Drops exactly the keys unused since `cutoff`. */
    method DropExpired(cutoff: int)
      requires slots.Keys == stamps.Keys
      modifies this`slots, this`stamps
      ensures slots.Keys == stamps.Keys && Within(slots, old(slots)) && Within(stamps, old(stamps))
      ensures slots.Keys == old(UsedSince(cutoff))
    {
      var todo := stamps.Keys;
      while todo != {}
        invariant slots.Keys == stamps.Keys && todo <= old(stamps).Keys
        invariant Within(slots, old(slots)) && Within(stamps, old(stamps))
        invariant forall k :: k in slots <==> k in old(slots) && (k in todo || old(stamps)[k] > cutoff)
        decreases todo
      {
        var k :| k in todo;
        if stamps[k] <= cutoff {
          slots := slots - {k};
          stamps := stamps - {k};
        }
        todo := todo - {k};
      }
    }

    /** Forgets every key. */
    method DropAll()
      modifies this`slots, this`stamps
      ensures slots == map[] && stamps == map[]
    {
      slots, stamps := map[], map[];
    }

    /** A full cache drops the keys unused for a whole TTL; still full, it drops everything. */
    method EvictIfFull(now: int)
      requires Valid()
      modifies this`slots, this`stamps
      ensures Valid() && Within(slots, old(slots)) && Within(stamps, old(stamps)) && |slots| < Cap()
      ensures slots.Keys == old(Surviving(now)) && (|old(slots)| < maxKeys ==> slots == old(slots))
    {
      if |slots| < maxKeys {
        return;
      }
      ghost var used := UsedSince(now - ttlMs);
      DropExpired(now - ttlMs);
      ApartWithin(slots, old(slots));
      assert slots.Keys == used;
      assert |slots| == |slots.Keys| == |used|;
      if |slots| >= maxKeys {
        DropAll();
      }
    }

    method Install(key: string, made: TtlSingleFlightCache<V>, now: int)
      requires Valid() && |slots| < Cap() && key !in slots && made.Valid() && made.ttlMs == ttlMs
      requires forall k <- slots :: slots[k] != made
      modifies this`slots, this`stamps
      ensures Valid() && slots == old(slots)[key := made]
    {
      ApartPut(slots, key, made);
      slots := slots[key := made];
      stamps := stamps[key := now];
    }

    /** Makes the slot of a key that has none, after making room for it. */
    method MakeSlot(key: string, now: int)
      requires Valid() && key !in slots
      modifies this`slots, this`stamps
      ensures Valid() && slots.Keys == old(Surviving(now)) + {key}
      ensures fresh(slots[key]) && slots[key].inFlight.None? && slots[key].value.None? && slots[key].clock == now
      ensures forall k <- slots :: k == key || (k in old(slots) && slots[k] == old(slots)[k])
    {
      EvictIfFull(now);
      var made := new TtlSingleFlightCache<V>(ttlMs, now);
      Install(key, made, now);
    }

    /** Stamps a key that has its slot, and asks the slot: the answer is the slot's own value
        while it is good, else the slot's own load in flight, else a load it starts. */
    method Serve(key: string, now: int) returns (a: Answer<V>)
      requires Valid() && key in slots && slots[key].clock <= now
      modifies this`stamps, slots[key]
      ensures Valid() && stamps == old(stamps)[key := now]
      ensures a.Hit? ==> old(slots[key].value) == Some(a.value) && slots[key].FreshResult(a.value, now)
      ensures a.Join? ==> old(slots[key].inFlight) == Some(a.load)
      ensures a.Started? ==> old(slots[key].inFlight).None? && slots[key].inFlight == Some(a.load)
      ensures a.Started? || old(slots[key].inFlight).Some? || old(slots[key].value).Some?
    {
      stamps := stamps[key := now];
      a := slots[key].Get(now);
    }

    /** A key that still has its slot shares that slot's load; a key whose slot was evicted or
        invalidated gets a fresh slot and starts a load of its own, whatever the old one does. */
    method Get(key: string, now: int) returns (a: Answer<V>)
      requires Valid() && forall k <- slots :: slots[k].clock <= now
      modifies this`slots, this`stamps, slots.Values
      ensures Valid() && key in slots && stamps[key] == now
      ensures key in old(slots) ==> slots == old(slots)
      ensures a.Hit? ==> key in old(slots) && old(slots[key].value) == Some(a.value)
      ensures a.Hit? ==> slots[key].FreshResult(a.value, now)
      ensures a.Join? ==> key in old(slots) && old(slots[key].inFlight) == Some(a.load)
      ensures a.Started? ==> slots[key].inFlight == Some(a.load)
      ensures a.Started? && key in old(slots) ==> old(slots[key].inFlight).None?
      ensures key !in old(slots) ==> fresh(slots[key]) && a.Started? && slots.Keys == old(Surviving(now)) + {key}
      ensures forall k <- slots :: k == key || (k in old(slots) && slots[k] == old(slots)[k])
    {
      if key !in slots {
        MakeSlot(key, now);
      }
      a := Serve(key, now);
    }
  }
}
