/** The sliding-window limiter, held to the full history of admitted hits. */
module RateLimit {
  import opened Results
  import opened Windows
  import opened LimiterHistory

  class SlidingWindowLimiter {
    const cfg: Config
    var perKey: map<string, seq<int>>
    var globalHits: seq<int>
    /** None stands for the source's minus infinity. */
    var lastSweepAt: Option<int>

    ghost var past: History
    ghost var clock: int
    /** When a capped call last named each key. */
    ghost var touched: map<string, int>

    ghost predicate SweptOk()
      reads this
    {
      Swept(perKey, touched, lastSweepAt, clock, cfg.windowMs)
    }

    ghost predicate Valid()
      reads this
    {
      && cfg.windowMs > 0
      && Reflects(perKey, past, clock, cfg.windowMs)
      && Kept(globalHits, past.all, clock, cfg.windowMs)
      && SweptOk()
    }

    constructor (cfg: Config, ghost start: int)
      requires cfg.windowMs > 0
      ensures Valid() && this.cfg == cfg && past == NOTHING && clock == start && touched == map[]
    {
      this.cfg := cfg;
      perKey, globalHits, lastSweepAt := map[], [], None;
      past, clock, touched := NOTHING, start, map[];
    }

    /** Time passes; nothing that is still live is lost. */
    ghost method Tick(now: int)
      requires Valid() && clock <= now
      modifies this`clock
      ensures Valid() && clock == now
    {
      ReflectsLater(perKey, past, clock, now, cfg.windowMs);
      KeptLater(globalHits, past.all, clock, now, cfg.windowMs);
      clock := now;
    }

    /** Prunes every bucket and drops the ones left empty. */
    method Sweep(now: int)
      requires Valid() && clock == now
      modifies this`perKey, this`lastSweepAt
      ensures Valid() && lastSweepAt == Some(now)
      ensures forall k :: k in perKey ==> k in old(perKey) && perKey[k] != []
    {
      var todo := perKey.Keys;
      while todo != {}
        invariant todo <= perKey.Keys <= old(perKey.Keys)
        invariant Reflects(perKey, past, clock, cfg.windowMs) && SweptOk()
        invariant forall k <- perKey :: k in todo || (perKey[k] != [] && touched[k] > now - cfg.windowMs)
        decreases todo
      {
        var k :| k in todo;
        todo := todo - {k};
        SweepOne(k, now);
      }
      lastSweepAt := Some(now);
    }

    /** Puts a pruned bucket in the place of the one it was pruned from. */
    method Replace(key: string, arr: seq<int>, now: int)
      requires Valid() && clock == now && key in perKey && key in touched && NoLater(arr, touched[key])
      requires Kept(arr, Hits(past, key), now, cfg.windowMs)
      modifies this`perKey
      ensures Valid() && perKey == old(perKey)[key := arr]
    {
      ReflectsPut(perKey, key, arr, past, now, cfg.windowMs);
      SweptChange(perKey, key, arr, touched, lastSweepAt, clock, cfg.windowMs);
      perKey := perKey[key := arr];
    }

    /** Prunes one bucket to exactly the live hits of its key. */
    method PruneBucket(key: string, now: int)
      requires Valid() && clock == now && key in perKey
      modifies this`perKey
      ensures Valid() && key in perKey && perKey == old(perKey)[key := perKey[key]]
      ensures |perKey[key]| == CountSince(Hits(past, key), now - cfg.windowMs)
      ensures perKey[key] != [] ==> touched[key] > now - cfg.windowMs
    {
      ReflectsBucket(perKey, key, past, now, cfg.windowMs);
      SweptBucket(perKey, key, touched, lastSweepAt, clock, cfg.windowMs);
      var arr := PruneKept(perKey[key], Hits(past, key), now, cfg.windowMs);
      RecentEnd(perKey[key], arr, touched[key], now - cfg.windowMs);
      Replace(key, arr, now);
    }

    /** One turn of the sweep: the bucket of `k` keeps its live hits or goes. */
    method SweepOne(k: string, now: int)
      requires Valid() && clock == now && k in perKey
      modifies this`perKey
      ensures Valid()
      ensures perKey.Keys == old(perKey.Keys) || perKey.Keys == old(perKey.Keys) - {k}
      ensures forall x <- perKey :: x != k ==> perKey[x] == old(perKey[x])
      ensures k in perKey ==> perKey[k] != [] && touched[k] > now - cfg.windowMs
    {
      PruneBucket(k, now);
      if perKey[k] == [] {
        Forget(k);
      }
    }

    /** An empty bucket and no bucket are the same to the history. */
    method Forget(k: string)
      requires Valid() && k in perKey && perKey[k] == []
      modifies this`perKey
      ensures Valid() && perKey == old(perKey) - {k}
    {
      ghost var before := perKey;
      assert Kept(Bucket(perKey, k), Hits(past, k), clock, cfg.windowMs);
      perKey := perKey - {k};
      ReflectsChange(before, perKey, k, past, clock, cfg.windowMs);
    }

    /** The bucket of `key`, created if missing. */
    method Create(key: string, now: int)
      requires Valid() && clock == now && lastSweepAt.Some?
      modifies this`perKey, this`touched
      ensures Valid()
      ensures perKey.Keys == old(perKey.Keys) + {key} && touched == old(touched)[key := now]
    {
      ghost var before := perKey;
      assert Kept(Bucket(perKey, key), Hits(past, key), now, cfg.windowMs);
      KeptIsDated(Bucket(perKey, key), Hits(past, key), now, cfg.windowMs);
      touched := touched[key := now];
      if key !in perKey {
        perKey := perKey[key := []];
      }
      ReflectsChange(before, perKey, key, past, now, cfg.windowMs);
    }

    /** Opens and prunes the bucket of an entry, and says whether it is under the entry's cap. */
    method OpenBucket(e: Entry, now: int, ghost others: set<string>) returns (room: bool)
      requires Valid() && clock == now && lastSweepAt.Some? && AllOpen(others, now)
      modifies this`perKey, this`touched
      ensures Valid() && room == Room(past, e, now - cfg.windowMs)
      ensures touched == old(touched)[e.key := now] && AllOpen(others + {e.key}, now)
    {
      Create(e.key, now);
      PruneBucket(e.key, now);
      room := |perKey[e.key]| < e.max;
    }

    method Push(key: string, now: int, ghost done: set<string>, ghost global: bool)
      requires Reflects(perKey, Record(past, done, now, global), now, cfg.windowMs) && SweptOk()
      requires clock == now && key in perKey && key in touched && touched[key] == now && key !in done
      modifies this`perKey
      ensures Reflects(perKey, Record(past, done + {key}, now, global), now, cfg.windowMs) && SweptOk()
      ensures perKey.Keys == old(perKey.Keys)
    {
      ReflectsPush(perKey, past, done, key, now, global, cfg.windowMs);
      perKey := perKey[key := perKey[key] + [now]];
    }

    /** Records a hit in the bucket of every key the call charges. */
    method PushAll(keys: set<string>, now: int, ghost global: bool)
      requires Valid() && clock == now && AllOpen(keys, now)
      modifies this`perKey
      ensures Reflects(perKey, Record(past, keys, now, global), now, cfg.windowMs)
      ensures perKey.Keys == old(perKey.Keys) && SweptOk()
    {
      var todo := keys;
      ghost var done := {};
      ReflectsNone(perKey, past, now, global, cfg.windowMs);
      while todo != {}
        invariant Split(keys, done, todo) && SweptOk()
        invariant Reflects(perKey, Record(past, done, now, global), now, cfg.windowMs)
        invariant perKey.Keys == old(perKey.Keys)
        decreases todo
      {
        var key :| key in todo;
        SplitStep(keys, done, todo, key);
        assert Open(key, now);
        Push(key, now, done, global);
        todo, done := todo - {key}, done + {key};
      }
    }

    /** Looks at the `i`-th entry: passes it over, or opens the bucket of its key and asks for room. */
    method CheckEntry(es: seq<Entry>, i: nat, now: int, seen: set<string>) returns (room: bool, more: set<string>)
      requires Valid() && clock == now && i < |es| && (es[i].max > 0 ==> lastSweepAt.Some?)
      requires seen == CappedTo(es, i) && AllOpen(seen, now) && RoomTo(past, es, i, now - cfg.windowMs)
      modifies this`perKey, this`touched
      ensures Valid() && more == CappedTo(es, i + 1) && seen <= more && AllOpen(more, now)
      ensures Marked(old(touched), touched, more, now)
      ensures room <==> RoomTo(past, es, i + 1, now - cfg.windowMs)
    {
      CheckStep(past, es, i, seen, now - cfg.windowMs);
      if es[i].max <= 0 || es[i].key in seen {
        return true, seen;
      }
      room := OpenBucket(es[i], now, seen);
      more := seen + {es[i].key};
    }

    /** Confirms that every distinct capped key has room, opening its bucket on the way. */
    method CheckKeys(es: seq<Entry>, now: int) returns (ok: bool, seen: set<string>)
      requires Valid() && clock == now && (AnyCapped(es) ==> lastSweepAt.Some?)
      modifies this`perKey, this`touched
      ensures Valid() && ok == KeysHaveRoom(past, es, now - cfg.windowMs)
      ensures Marked(old(touched), touched, CappedKeys(es), now)
      ensures ok ==> seen == CappedKeys(es) && AllOpen(seen, now)
    {
      seen := {};
      for i := 0 to |es|
        invariant Valid() && past == old(past) && seen == CappedTo(es, i) && AllOpen(seen, now)
        invariant Marked(old(touched), touched, seen, now)
        invariant RoomTo(past, es, i, now - cfg.windowMs)
      {
        ghost var between := touched;
        var room, more := CheckEntry(es, i, now, seen);
        MarkedThen(old(touched), between, touched, seen, more, now);
        seen := more;
        if !room {
          RoomToGrows(past, es, i + 1, now - cfg.windowMs);
          CappedKeysGrow(es, i + 1, |es|);
          MarkedMore(old(touched), touched, seen, CappedKeys(es), now);
          return false, seen;
        }
      }
      ok := true;
    }

    /** Records one admitted hit against its keys and, if in play, the global budget. */
    method Admit(keys: set<string>, now: int, global: bool)
      requires Valid() && clock == now && AllOpen(keys, now)
      modifies this`perKey, this`globalHits, this`past
      ensures Valid() && past == Record(old(past), keys, now, global) && perKey.Keys == old(perKey.Keys)
    {
      PushAll(keys, now, global);
      if global {
        KeptPush(globalHits, past.all, now, cfg.windowMs);
        globalHits := globalHits + [now];
      }
      past := Record(past, keys, now, global);
    }

    /** Sweeps at most once a window. */
    method SweepIfDue(now: int)
      requires Valid() && clock == now
      modifies this`perKey, this`lastSweepAt
      ensures Valid() && lastSweepAt.Some? && lastSweepAt.value > now - cfg.windowMs
    {
      if lastSweepAt.None? || now - lastSweepAt.value >= cfg.windowMs {
        Sweep(now);
      }
    }

    /** One attempt against every key and the global budget: the verdict of the full
        history, and a refused attempt leaves that history as it was. */
    method AllowKeys(asks: seq<Ask>, now: int, chargeGlobal: bool) returns (ok: bool)
      requires Valid() && clock <= now
      modifies this
      ensures Valid() && clock == now
      ensures ok == Allowed(cfg, old(past), Entries(cfg, asks), now, chargeGlobal)
      ensures past == After(cfg, old(past), Entries(cfg, asks), now, chargeGlobal)
      ensures AnyCapped(Entries(cfg, asks)) ==> Recent(perKey, touched, now - 2 * cfg.windowMs)
      ensures Marked(old(touched), touched, CappedKeys(Entries(cfg, asks)), now)
    {
      Tick(now);
      var es := Entries(cfg, asks);
      var anyKeyCapped := AnyCapped(es);
      if !anyKeyCapped {
        NoneCapped(es, |es|);
      }
      var globalInPlay := GlobalInPlay(cfg, chargeGlobal);
      if !anyKeyCapped && !globalInPlay {
        NoCapNoVerdict(cfg, past, es, now, chargeGlobal);
        return true;
      }
      if anyKeyCapped {
        SweepIfDue(now);
      }
      if globalInPlay {
        globalHits := PruneKept(globalHits, past.all, now, cfg.windowMs);
        if |globalHits| >= cfg.maxGlobal {
          return false;
        }
      }
      var seen;
      ok, seen := CheckKeys(es, now);
      if ok {
        Admit(seen, now, globalInPlay);
      }
    }

    /** One key under the configured cap. */
    method Allow(key: string, now: int) returns (ok: bool)
      requires Valid() && clock <= now
      modifies this
      ensures Valid() && clock == now
      ensures ok == Allowed(cfg, old(past), [Entry(key, cfg.maxPerPayer)], now, true)
      ensures past == After(cfg, old(past), [Entry(key, cfg.maxPerPayer)], now, true)
    {
      assert Entries(cfg, [Bare(key)]) == [Entry(key, cfg.maxPerPayer)];
      ok := AllowKeys([Bare(key)], now, true);
    }

    /** Is the key under `max`? Asking records nothing. */
    method Peek(key: string, now: int, max: int) returns (ok: bool)
      requires Valid() && clock <= now
      modifies this`perKey, this`clock
      ensures Valid() && ok == (max <= 0 || CountSince(Hits(past, key), now - cfg.windowMs) < max)
    {
      Tick(now);
      if max <= 0 {
        return true;
      }
      if key !in perKey {
        assert Kept(Bucket(perKey, key), Hits(past, key), now, cfg.windowMs);
        TailCounts([], Hits(past, key), now - cfg.windowMs, now - cfg.windowMs);
        return true;
      }
      PruneBucket(key, now);
      ok := |perKey[key]| < max;
    }

    ghost predicate AllOpen(keys: set<string>, now: int)
      reads this
    {
      forall k <- keys :: Open(k, now)
    }

    /** The key's bucket exists and the current call has named it. */
    ghost predicate Open(key: string, now: int)
      reads this
    {
      key in perKey && key in touched && touched[key] == now
    }
  }
}
