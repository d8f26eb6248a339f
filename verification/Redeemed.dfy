/** The merchant's in-memory store of redeemed payments. */
module Redeemed {
  import opened Results
  import opened RedeemedLog

  class RedeemedStore {
    const ttlMs: int
    const maxSize: int
    /** Tickets in insertion order. */
    var seen: seq<Ticket>

    ghost var log: seq<Event>
    ghost var births: seq<nat>
    ghost var clock: int

    ghost predicate Valid()
      reads this
    {
      && Stands(seen, births, log, clock, ttlMs, maxSize)
      && Ordered(seen, clock)
      && |seen| <= Limit()
      && OneDelivery(log, ttlMs, maxSize)
    }

    /** The entry cap; a negative one counts as zero. */
    function Limit(): nat {
      if maxSize < 0 then 0 else maxSize
    }

    constructor (ttlMs: int, maxSize: int, ghost start: int)
      ensures Valid() && this.ttlMs == ttlMs && this.maxSize == maxSize && log == [] && clock == start
    {
      this.ttlMs, this.maxSize := ttlMs, maxSize;
      seen, log, births, clock := [], [], [], start;
    }

    /** Deletes one ticket that has expired or been crowded out. */
    method Delete(p: nat)
      requires Stands(seen, births, log, clock, ttlMs, maxSize)
      requires p < |seen| && MayGo(seen, births, log, p, clock, ttlMs, maxSize)
      modifies this`seen, this`births
      ensures Stands(seen, births, log, clock, ttlMs, maxSize) && seen == Drop(old(seen), p)
    {
      StandsWithout(seen, births, log, p, clock, ttlMs, maxSize);
      seen, births := Drop(seen, p), Drop(births, p);
    }

    /** Drops expired tickets oldest first and stops at the first live one: none is missed. */
    method EvictExpired(t: int)
      requires clock == t && Stands(seen, births, log, clock, ttlMs, maxSize)
      modifies this`seen, this`births
      ensures Stands(seen, births, log, clock, ttlMs, maxSize)
      ensures LatestOf(seen, old(seen))
      ensures forall k :: 0 <= k < |seen| ==> t - seen[k].at < ttlMs
    {
      while |seen| > 0 && !(t - seen[0].at < ttlMs)
        invariant Stands(seen, births, log, clock, ttlMs, maxSize)
        invariant LatestOf(seen, old(seen))
        decreases |seen|
      {
        LatestDrop(seen, old(seen));
        Delete(0);
      }
      IssuedOrdered(seen, births, log, clock);
    }

    /** The backstop: the oldest tickets go until the store fits. */
    method EvictOverflow()
      requires Stands(seen, births, log, clock, ttlMs, maxSize)
      modifies this`seen, this`births
      ensures Stands(seen, births, log, clock, ttlMs, maxSize) && |seen| <= Limit()
      ensures LatestOf(seen, old(seen)) && (|seen| == Limit() || seen == old(seen))
    {
      while |seen| > maxSize && |seen| > 0
        invariant Stands(seen, births, log, clock, ttlMs, maxSize)
        invariant LatestOf(seen, old(seen))
        invariant |seen| >= Limit() || seen == old(seen)
        decreases |seen|
      {
        OldestMayGo(seen, births, log, clock, ttlMs, maxSize);
        LatestDrop(seen, old(seen));
        Delete(0);
      }
    }

    /** True on a first claim; the caller must not deliver on false. Refused exactly on a live
        ticket of the id, which is its latest win, not given back; then nothing changes. */
    method Claim(id: string, t: int) returns (ok: bool)
      requires Valid() && clock <= t
      modifies this
      ensures Valid() && clock == t
      ensures log == if ok then old(log) + [Won(id, t)] else old(log)
      ensures ok <==> !LiveTicket(old(seen), id, t, ttlMs)
      ensures !ok ==> seen == old(seen)
      ensures !ok ==>
                exists i ::
                  && 0 <= i < |old(log)| && Current(old(log), i)
                  && old(log)[i].id == id && t - old(log)[i].at < ttlMs
      ensures ok && ttlMs > 0 ==> forall k :: 0 <= k < |seen| ==> t - seen[k].at < ttlMs
    {
      StandsLater(seen, births, log, clock, t, ttlMs, maxSize);
      clock := t;
      var prev := Find(seen, id);
      if prev.Some? && t - seen[prev.value].at < ttlMs {
        assert Current(log, births[prev.value]);
        return false;
      }
      Grant(id, t, prev);
      ok := true;
    }

    /** A first claim: the stale ticket goes, then the expired ones, then the new one comes in. */
    method Grant(id: string, t: int, prev: Option<nat>)
      requires Stands(seen, births, log, t, ttlMs, maxSize) && Ordered(seen, t) && clock == t
      requires OneDelivery(log, ttlMs, maxSize)
      requires prev == Find(seen, id) && (prev.Some? ==> t - seen[prev.value].at >= ttlMs)
      modifies this
      ensures Valid() && clock == t && log == old(log) + [Won(id, t)]
      ensures ttlMs > 0 ==> forall k :: 0 <= k < |seen| ==> t - seen[k].at < ttlMs
    {
      WinKeepsPromise(seen, births, log, id, t, ttlMs, maxSize);
      if prev.Some? {
        Delete(prev.value);
      }
      EvictExpired(t);
      Insert(id, t);
      EvictOverflow();
      IssuedOrdered(seen, births, log, clock);
    }

    method Insert(id: string, t: int)
      requires Stands(seen, births, log, t, ttlMs, maxSize) && clock == t
      requires forall k :: 0 <= k < |seen| ==> seen[k].id != id
      modifies this`seen, this`births, this`log
      ensures Stands(seen, births, log, t, ttlMs, maxSize)
      ensures seen == old(seen) + [Ticket(id, t)] && log == old(log) + [Won(id, t)]
    {
      IssuedWin(seen, births, log, id, t);
      AccountedExtends(births, log, Won(id, t), t, ttlMs, maxSize);
      TimelyExtends(log, Won(id, t), t);
      seen, births, log := seen + [Ticket(id, t)], births + [|log|], log + [Won(id, t)];
    }

    /** Gives a ticket back: the next claim of the id is a first claim again. */
    method Release(id: string)
      requires Valid()
      modifies this`seen, this`births, this`log
      ensures Valid() && log == old(log) + [Released(id)]
      ensures forall k :: 0 <= k < |seen| ==> seen[k].id != id
    {
      AccountedExtends(births, log, Released(id), clock, ttlMs, maxSize);
      var p := Find(seen, id);
      if p.Some? {
        assert (log + [Released(id)])[|log|].id == seen[p.value].id == log[births[p.value]].id;
        IssuedDrop(seen, births, log, p.value);
        AccountedForget(births, log + [Released(id)], p.value, clock, ttlMs, maxSize);
        seen, births := Drop(seen, p.value), Drop(births, p.value);
      }
      IssuedExtends(seen, births, log, Released(id));
      TimelyExtends(log, Released(id), clock);
      ReleaseKeepsPromise(log, id, ttlMs, maxSize);
      log := log + [Released(id)];
      IssuedOrdered(seen, births, log, clock);
    }
  }
}
