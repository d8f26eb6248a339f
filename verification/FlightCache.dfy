/** The Scan client's caches: a single slot whose concurrent refreshes share one load, and the
    keyed form with a cap on its keys. Each method is one uninterrupted stretch of the
    original's asynchronous code, so any order of calls is an interleaving. */
module FlightCache {
  import opened Results

  /** What a caller of `get` is handed: the cached value, the load already under way, or a
      load it has just started. */
  datatype Answer<V> = Hit(value: V) | Join(load: nat) | Started(load: nat)

  /** A load that finished well, when, and with what; None is the undefined value. */
  datatype Fill<V> = Fill(load: nat, at: int, result: Option<V>)

  class TtlSingleFlightCache<V(==)> {
    const ttlMs: int
    var value: Option<V>
    var expiresAt: int
    var inFlight: Option<nat>
    var started: nat

    /** Loads whose loader has not come back yet. */
    ghost var running: set<nat>
    ghost var fills: seq<Fill<V>>
    ghost var clock: int

    /** The cached value is the result of a finished load, good until `ttlMs` after it finished. */
    ghost predicate Filled()
      reads this
    {
      value.Some? ==>
        exists i :: 0 <= i < |fills| && fills[i].result == value
                    && (ttlMs > 0 ==> expiresAt == fills[i].at + ttlMs) && fills[i].at <= clock
    }

    ghost predicate Valid()
      reads this
    {
      && (inFlight.Some? ==> inFlight.value < started)
      && (running == {} || (inFlight.Some? && running == {inFlight.value}))
      && Filled()
    }

    /** `v` is what a load brought that finished less than `ttlMs` before `t`. */
    ghost predicate FreshResult(v: V, t: int)
      reads this
    {
      exists i :: 0 <= i < |fills| && fills[i].result == Some(v) && fills[i].at <= t < fills[i].at + ttlMs
    }

    constructor (ttlMs: int, ghost start: int)
      ensures Valid() && this.ttlMs == ttlMs && value == None && inFlight == None
      ensures running == {} && fills == [] && clock == start
    {
      this.ttlMs := ttlMs;
      value, expiresAt, inFlight, started := None, 0, None, 0;
      running, fills, clock := {}, [], start;
    }

    /** A hit comes from a load that finished less than `ttlMs` ago; otherwise callers share
        the load in flight, and only without one does a new load start. */
    method Get(t: int) returns (a: Answer<V>)
      requires Valid() && clock <= t
      modifies this`inFlight, this`started, this`running, this`clock
      ensures Valid() && clock == t
      ensures a.Hit? <==> ttlMs > 0 && value.Some? && t < expiresAt
      ensures a.Hit? ==> value == Some(a.value) && FreshResult(a.value, t)
      ensures a.Join? ==> old(inFlight) == Some(a.load)
      ensures a.Started? ==> old(inFlight).None? && old(running) == {}
      ensures a.Started? ==> inFlight == Some(a.load) && a.load == old(started)
      ensures running == old(running) + (if a.Started? then {a.load} else {})
      ensures !a.Started? ==> inFlight == old(inFlight) && started == old(started)
    {
      clock := t;
      if ttlMs > 0 && value.Some? && t < expiresAt {
        return Hit(value.value);
      }
      if inFlight.Some? {
        return Join(inFlight.value);
      }
      a := Started(started);
      inFlight := Some(started);
      running := {started};
      started := started + 1;
    }

    /** The loader came back: its result is cached from now on. */
    method LoadSucceeded(load: nat, t: int, result: Option<V>)
      requires Valid() && clock <= t && load in running
      modifies this`value, this`expiresAt, this`running, this`fills, this`clock
      ensures Valid() && clock == t && running == old(running) - {load}
      ensures value == result && fills == old(fills) + [Fill(load, t, result)]
      ensures expiresAt == if ttlMs > 0 then t + ttlMs else 0
    {
      clock := t;
      running := running - {load};
      value := result;
      expiresAt := if ttlMs > 0 then t + ttlMs else 0;
      fills := fills + [Fill(load, t, result)];
      assert fills[|fills| - 1].result == value;
    }

    /** The loader failed: nothing cached changes. */
    method LoadFailed(ghost load: nat)
      requires Valid() && load in running
      modifies this`running
      ensures Valid() && running == old(running) - {load}
    {
      running := running - {load};
    }

    /** The starter of a settled load resumes and clears the way for the next one. */
    method Settle(load: nat)
      requires Valid() && load !in running
      modifies this`inFlight
      ensures Valid() && inFlight == if old(inFlight) == Some(load) then None else old(inFlight)
    {
      if inFlight == Some(load) {
        inFlight := None;
      }
    }

    method Invalidate()
      requires Valid()
      modifies this`value, this`expiresAt
      ensures Valid() && value == None && expiresAt == 0
    {
      value, expiresAt := None, 0;
    }
  }

  /** Part of a map, its entries unchanged. */
  predicate Within<K, W(==)>(part: map<K, W>, whole: map<K, W>) {
    forall k <- part :: k in whole && part[k] == whole[k]
  }

  lemma WithinIsNoLarger<K, W>(part: map<K, W>, whole: map<K, W>)
    requires Within(part, whole)
    ensures |part| <= |whole|
  {
    SubsetIsNoLarger(part.Keys, whole.Keys);
  }

  lemma SubsetIsNoLarger<K>(a: set<K>, b: set<K>)
    requires a <= b
    ensures |a| <= |b|
  {
    assert b == a + (b - a);
  }

  /** No two keys share a slot. */
  predicate Apart<K, W(==)>(m: map<K, W>) {
    forall j <- m, k <- m :: j != k ==> m[j] != m[k]
  }

  lemma ApartWithin<K, W>(part: map<K, W>, whole: map<K, W>)
    requires Within(part, whole) && Apart(whole)
    ensures Apart(part) && |part| <= |whole|
  {
    WithinIsNoLarger(part, whole);
  }

  lemma ApartPut<K, W>(m: map<K, W>, k: K, w: W)
    requires Apart(m) && k !in m && forall j <- m :: m[j] != w
    ensures Apart(m[k := w]) && |m[k := w]| == |m| + 1
  {
    assert m[k := w].Keys == m.Keys + {k};
  }
}
