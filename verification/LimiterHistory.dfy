/** What the sliding-window limiter promises, over the full history of admitted hits,
    and how its pruned buckets stand for that history. */
module LimiterHistory {
  import opened Results
  import opened Windows

  // ---------------------------------------------- the specification: full history

  /** Every hit ever admitted, by key and in all. */
  datatype History = History(byKey: map<string, seq<int>>, all: seq<int>)

  const NOTHING := History(map[], [])

  function Hits(h: History, key: string): seq<int> {
    if key in h.byKey then h.byKey[key] else []
  }

  datatype Entry = Entry(key: string, max: int)

  /** A key alone is capped at the configured maximum; a pair brings its own cap. */
  datatype Ask = Bare(key: string) | Capped(key: string, max: int)

  datatype Config = Config(maxPerPayer: int, maxGlobal: int, windowMs: int)

  function Entries(cfg: Config, asks: seq<Ask>): seq<Entry> {
    seq(|asks|, i requires 0 <= i < |asks| =>
      Entry(asks[i].key, if asks[i].Bare? then cfg.maxPerPayer else asks[i].max))
  }

  /** The keys that the first `n` entries charge. */
  function CappedTo(es: seq<Entry>, n: nat): set<string>
    requires n <= |es|
  {
    set i | 0 <= i < n && es[i].max > 0 :: es[i].key
  }

  function CappedKeys(es: seq<Entry>): set<string> {
    CappedTo(es, |es|)
  }

  /** Entry `i` is the first capped entry of its key, the one whose cap counts. */
  predicate Decides(es: seq<Entry>, i: nat)
    requires i < |es|
  {
    es[i].max > 0 && es[i].key !in CappedTo(es, i)
  }

  predicate Room(h: History, e: Entry, cutoff: int) {
    CountSince(Hits(h, e.key), cutoff) < e.max
  }

  predicate RoomTo(h: History, es: seq<Entry>, n: nat, cutoff: int)
    requires n <= |es|
  {
    forall i {:trigger Decides(es, i)} :: 0 <= i < n && Decides(es, i) ==> Room(h, es[i], cutoff)
  }

  /** Every capped key is under the first cap the call gives it. */
  predicate KeysHaveRoom(h: History, es: seq<Entry>, cutoff: int) {
    RoomTo(h, es, |es|, cutoff)
  }

  predicate GlobalInPlay(cfg: Config, chargeGlobal: bool) {
    chargeGlobal && cfg.maxGlobal > 0
  }

  /** The verdict over the whole unpruned history. */
  predicate Allowed(cfg: Config, h: History, es: seq<Entry>, now: int, chargeGlobal: bool) {
    && (GlobalInPlay(cfg, chargeGlobal) ==> CountSince(h.all, now - cfg.windowMs) < cfg.maxGlobal)
    && KeysHaveRoom(h, es, now - cfg.windowMs)
  }

  function Record(h: History, keys: set<string>, now: int, global: bool): History {
    History(map k | k in h.byKey.Keys + keys :: if k in keys then Hits(h, k) + [now] else h.byKey[k],
            if global then h.all + [now] else h.all)
  }

  function After(cfg: Config, h: History, es: seq<Entry>, now: int, chargeGlobal: bool): History {
    if !Allowed(cfg, h, es, now, chargeGlobal) then h
    else Record(h, CappedKeys(es), now, GlobalInPlay(cfg, chargeGlobal))
  }

  predicate AnyCapped(es: seq<Entry>) {
    exists i :: 0 <= i < |es| && es[i].max > 0
  }

  lemma CappedKeysGrow(es: seq<Entry>, n: nat, m: nat)
    requires n <= m <= |es|
    ensures CappedTo(es, n) <= CappedTo(es, m)
  {}

  /** One turn of the check: the keys seen so far grow by a deciding entry, if it has room. */
  lemma CheckStep(h: History, es: seq<Entry>, i: nat, seen: set<string>, cutoff: int)
    requires i < |es| && seen == CappedTo(es, i) && RoomTo(h, es, i, cutoff)
    ensures var first := es[i].max > 0 && es[i].key !in seen;
            && CappedTo(es, i + 1) == (if first then seen + {es[i].key} else seen)
            && (RoomTo(h, es, i + 1, cutoff) <==> !first || Room(h, es[i], cutoff))
  {
    assert Decides(es, i) == (es[i].max > 0 && es[i].key !in seen);
    assert CappedTo(es, i + 1) == CappedTo(es, i) + (if es[i].max > 0 then {es[i].key} else {});
  }

  lemma RoomToGrows(h: History, es: seq<Entry>, i: nat, cutoff: int)
    requires i <= |es|
    ensures KeysHaveRoom(h, es, cutoff) ==> RoomTo(h, es, i, cutoff)
  {}

  lemma NoneCapped(es: seq<Entry>, n: nat)
    requires n <= |es| && !AnyCapped(es)
    ensures CappedTo(es, n) == {}
  {}

  lemma RecordNothing(h: History, now: int)
    ensures Record(h, {}, now, false) == h
  {
    assert Record(h, {}, now, false).byKey == h.byKey;
  }

  lemma NoCapNoVerdict(cfg: Config, h: History, es: seq<Entry>, now: int, chargeGlobal: bool)
    requires !AnyCapped(es) && !GlobalInPlay(cfg, chargeGlobal)
    ensures Allowed(cfg, h, es, now, chargeGlobal) && After(cfg, h, es, now, chargeGlobal) == h
  {
    NoneCapped(es, |es|);
    RecordNothing(h, now);
  }

  lemma HitsOfRecord(h: History, keys: set<string>, now: int, global: bool, key: string)
    ensures Hits(Record(h, keys, now, global), key) == if key in keys then Hits(h, key) + [now] else Hits(h, key)
  {}

  // ------------------------------------------------------ pruned state and history

  function Bucket(perKey: map<string, seq<int>>, key: string): seq<int> {
    if key in perKey then perKey[key] else []
  }

  /** Every bucket, present or missing, stands for its key's history. */
  ghost predicate Reflects(perKey: map<string, seq<int>>, h: History, clock: int, windowMs: int) {
    forall k: string :: Kept(Bucket(perKey, k), Hits(h, k), clock, windowMs)
  }

  lemma ReflectsLater(perKey: map<string, seq<int>>, h: History, clock: int, now: int, windowMs: int)
    requires Reflects(perKey, h, clock, windowMs) && clock <= now
    ensures Reflects(perKey, h, now, windowMs)
  {
    forall k: string
      ensures Kept(Bucket(perKey, k), Hits(h, k), now, windowMs)
    {
      KeptLater(Bucket(perKey, k), Hits(h, k), clock, now, windowMs);
    }
  }

  /** Replacing or dropping one bucket is a question about that bucket alone. */
  lemma ReflectsChange(before: map<string, seq<int>>, after: map<string, seq<int>>, key: string,
                       h: History, clock: int, windowMs: int)
    requires Reflects(before, h, clock, windowMs)
    requires forall k: string :: k != key ==> Bucket(after, k) == Bucket(before, k)
    requires Kept(Bucket(after, key), Hits(h, key), clock, windowMs)
    ensures Reflects(after, h, clock, windowMs)
  {
    forall k: string
      ensures Kept(Bucket(after, k), Hits(h, k), clock, windowMs)
    {
      assert Kept(Bucket(before, k), Hits(h, k), clock, windowMs);
    }
  }

  /** Pushing `now` into one more bucket records one more key. */
  lemma ReflectsPush(perKey: map<string, seq<int>>, h: History, done: set<string>, key: string,
                     now: int, global: bool, windowMs: int)
    requires Reflects(perKey, Record(h, done, now, global), now, windowMs)
    requires key !in done
    ensures Reflects(perKey[key := Bucket(perKey, key) + [now]], Record(h, done + {key}, now, global), now, windowMs)
  {
    var after := perKey[key := Bucket(perKey, key) + [now]];
    forall k: string
      ensures Kept(Bucket(after, k), Hits(Record(h, done + {key}, now, global), k), now, windowMs)
    {
      HitsOfRecord(h, done, now, global, k);
      HitsOfRecord(h, done + {key}, now, global, k);
      assert Kept(Bucket(perKey, k), Hits(Record(h, done, now, global), k), now, windowMs);
      if k == key {
        KeptPush(Bucket(perKey, k), Hits(h, k), now, windowMs);
      }
    }
  }

  lemma ReflectsNone(perKey: map<string, seq<int>>, h: History, clock: int, global: bool, windowMs: int)
    requires Reflects(perKey, h, clock, windowMs)
    ensures Reflects(perKey, Record(h, {}, clock, global), clock, windowMs)
  {
    forall k: string
      ensures Kept(Bucket(perKey, k), Hits(Record(h, {}, clock, global), k), clock, windowMs)
    {
      HitsOfRecord(h, {}, clock, global, k);
      assert Kept(Bucket(perKey, k), Hits(h, k), clock, windowMs);
    }
  }

  /** Between two states only `keys` were named, and those at `now`. */
  predicate Marked(before: map<string, int>, after: map<string, int>, keys: set<string>, now: int) {
    forall k <- after :: (k in keys && after[k] == now) || (k in before && after[k] == before[k])
  }

  lemma MarkedStep(before: map<string, int>, after: map<string, int>, keys: set<string>, key: string, now: int)
    requires Marked(before, after, keys, now)
    ensures Marked(before, after[key := now], keys + {key}, now)
  {}

  lemma MarkedThen(before: map<string, int>, between: map<string, int>, after: map<string, int>,
                   keys: set<string>, more: set<string>, now: int)
    requires Marked(before, between, keys, now) && Marked(between, after, more, now) && keys <= more
    ensures Marked(before, after, more, now)
  {}

  lemma MarkedMore(before: map<string, int>, after: map<string, int>, keys: set<string>, more: set<string>, now: int)
    requires Marked(before, after, keys, now) && keys <= more
    ensures Marked(before, after, more, now)
  {}

  /** Every bucket was named by a capped call after `since`, no earlier than its last hit. */
  predicate Recent(perKey: map<string, seq<int>>, touched: map<string, int>, since: int) {
    forall k <- perKey :: k in touched && touched[k] > since && NoLater(perKey[k], touched[k])
  }

  predicate NoLater(s: seq<int>, t: int) {
    forall i :: 0 <= i < |s| ==> s[i] <= t
  }

  lemma RecentEnd(s: seq<int>, r: seq<int>, t: int, cutoff: int)
    requires |r| <= |s| && r == s[|s| - |r|..] && NoLater(s, t)
    requires forall i | 0 <= i < |r| :: r[i] > cutoff
    ensures NoLater(r, t) && (r != [] ==> t > cutoff)
  {
    assert forall i | 0 <= i < |r| :: r[i] == s[|s| - |r| + i];
    assert r != [] ==> r[0] > cutoff;
  }

  /** No bucket existed before the first sweep; since the last one, only recent keys have one. */
  predicate Swept(perKey: map<string, seq<int>>, touched: map<string, int>, last: Option<int>,
                  clock: int, windowMs: int) {
    match last
    case None => perKey == map[]
    case Some(at) => at <= clock && Recent(perKey, touched, at - windowMs)
  }

  /** A bucket that gives way to one with no later hit leaves the sweep's promise standing. */
  lemma SweptChange(perKey: map<string, seq<int>>, key: string, arr: seq<int>, touched: map<string, int>,
                    last: Option<int>, clock: int, windowMs: int)
    requires Swept(perKey, touched, last, clock, windowMs) && key in perKey
    requires key in touched ==> NoLater(arr, touched[key])
    ensures Swept(perKey[key := arr], touched, last, clock, windowMs)
  {
  }

  lemma SweptBucket(perKey: map<string, seq<int>>, key: string, touched: map<string, int>,
                    last: Option<int>, clock: int, windowMs: int)
    requires Swept(perKey, touched, last, clock, windowMs) && key in perKey
    ensures key in touched && NoLater(perKey[key], touched[key])
  {
  }

  lemma ReflectsBucket(perKey: map<string, seq<int>>, key: string, h: History, clock: int, windowMs: int)
    requires Reflects(perKey, h, clock, windowMs) && key in perKey
    ensures Kept(perKey[key], Hits(h, key), clock, windowMs)
  {
    assert Kept(Bucket(perKey, key), Hits(h, key), clock, windowMs);
  }

  lemma ReflectsPut(perKey: map<string, seq<int>>, key: string, arr: seq<int>, h: History, clock: int, windowMs: int)
    requires Reflects(perKey, h, clock, windowMs) && Kept(arr, Hits(h, key), clock, windowMs)
    ensures Reflects(perKey[key := arr], h, clock, windowMs)
  {
    ReflectsChange(perKey, perKey[key := arr], key, h, clock, windowMs);
  }

  predicate Split(whole: set<string>, done: set<string>, todo: set<string>) {
    whole == done + todo && done !! todo
  }

  lemma SplitStep(whole: set<string>, done: set<string>, todo: set<string>, key: string)
    requires Split(whole, done, todo) && key in todo
    ensures Split(whole, done + {key}, todo - {key}) && key !in done && key in whole
  {}
}
