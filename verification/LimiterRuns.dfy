/** What the limiter's caps mean over whole runs. */
module LimiterRuns {
  import opened Windows
  import opened LimiterHistory

  datatype Call = Call(es: seq<Entry>, now: int, chargeGlobal: bool)

  /** The history after a run, oldest call first. */
  function Run(cfg: Config, calls: seq<Call>): History {
    if calls == [] then NOTHING
    else
      var c := calls[|calls| - 1];
      After(cfg, Run(cfg, calls[..|calls| - 1]), c.es, c.now, c.chargeGlobal)
  }

  predicate Timely(calls: seq<Call>) {
    forall i, j :: 0 <= i < j < |calls| ==> calls[i].now <= calls[j].now
  }

  predicate Verdict(cfg: Config, before: seq<Call>, c: Call) {
    Allowed(cfg, Run(cfg, before), c.es, c.now, c.chargeGlobal)
  }

  /** No call decides `key` by a cap above `max`. */
  predicate CappedAt(calls: seq<Call>, key: string, max: int) {
    forall c <- calls :: EntryCappedAt(c.es, key, max)
  }

  predicate EntryCappedAt(es: seq<Entry>, key: string, max: int) {
    forall i :: 0 <= i < |es| && Decides(es, i) && es[i].key == key ==> es[i].max <= max
  }

  /** A charged key has an entry that decides it. */
  lemma {:induction false} ChargedIsDecided(es: seq<Entry>, n: nat, key: string) returns (i: nat)
    requires n <= |es| && key in CappedTo(es, n)
    ensures i < n && Decides(es, i) && es[i].key == key
  {
    if key in CappedTo(es, n - 1) {
      i := ChargedIsDecided(es, n - 1, key);
    } else {
      i := n - 1;
    }
  }

  // ------------------------------------------------------------------ key caps

  ghost predicate KeyPaced(h: History, key: string, max: nat, clock: int, windowMs: int) {
    Spaced(Hits(h, key), max, windowMs) && Dated(Hits(h, key), clock)
  }

  lemma KeyPacedAfter(cfg: Config, h: History, key: string, max: nat, clock: int, c: Call)
    requires KeyPaced(h, key, max, clock, cfg.windowMs) && clock <= c.now && EntryCappedAt(c.es, key, max)
    ensures KeyPaced(After(cfg, h, c.es, c.now, c.chargeGlobal), key, max, c.now, cfg.windowMs)
  {
    var keys, global := CappedKeys(c.es), GlobalInPlay(cfg, c.chargeGlobal);
    HitsOfRecord(h, keys, c.now, global, key);
    if Allowed(cfg, h, c.es, c.now, c.chargeGlobal) && key in keys {
      var i := ChargedIsDecided(c.es, |c.es|, key);
      assert Room(h, c.es[i], c.now - cfg.windowMs);
      SpacedPush(Hits(h, key), max, c.now, cfg.windowMs);
    }
  }

  lemma {:induction false} RunKeyPaced(cfg: Config, calls: seq<Call>, key: string, max: nat, clock: int)
    requires Timely(calls) && CappedAt(calls, key, max)
    requires forall i | 0 <= i < |calls| :: calls[i].now <= clock
    ensures KeyPaced(Run(cfg, calls), key, max, clock, cfg.windowMs)
  {
    if calls != [] {
      var c := calls[|calls| - 1];
      RunKeyPaced(cfg, calls[..|calls| - 1], key, max, c.now);
      assert c in calls;
      KeyPacedAfter(cfg, Run(cfg, calls[..|calls| - 1]), key, max, c.now, c);
    }
  }

  /** Over any run, no window whatever holds more admitted hits of a key than its cap. */
  lemma KeyCapHolds(cfg: Config, calls: seq<Call>, key: string, max: nat, end: int)
    requires Timely(calls) && CappedAt(calls, key, max)
    ensures CountWithin(Hits(Run(cfg, calls), key), end - cfg.windowMs, end) <= max
  {
    if calls == [] {
    } else {
      RunKeyPaced(cfg, calls, key, max, calls[|calls| - 1].now);
      SpacedWindow(Hits(Run(cfg, calls), key), max, cfg.windowMs, end);
    }
  }

  // --------------------------------------------------------------- global budget

  lemma GlobalPacedAfter(cfg: Config, h: History, clock: int, c: Call)
    requires cfg.maxGlobal > 0 && clock <= c.now
    requires Spaced(h.all, cfg.maxGlobal, cfg.windowMs) && Dated(h.all, clock)
    ensures var r := After(cfg, h, c.es, c.now, c.chargeGlobal).all;
            Spaced(r, cfg.maxGlobal, cfg.windowMs) && Dated(r, c.now)
  {
    if Allowed(cfg, h, c.es, c.now, c.chargeGlobal) && GlobalInPlay(cfg, c.chargeGlobal) {
      SpacedPush(h.all, cfg.maxGlobal, c.now, cfg.windowMs);
    }
  }

  lemma {:induction false} RunGlobalPaced(cfg: Config, calls: seq<Call>, clock: int)
    requires cfg.maxGlobal > 0 && Timely(calls)
    requires forall i | 0 <= i < |calls| :: calls[i].now <= clock
    ensures Spaced(Run(cfg, calls).all, cfg.maxGlobal, cfg.windowMs) && Dated(Run(cfg, calls).all, clock)
  {
    if calls != [] {
      var c := calls[|calls| - 1];
      RunGlobalPaced(cfg, calls[..|calls| - 1], c.now);
      GlobalPacedAfter(cfg, Run(cfg, calls[..|calls| - 1]), c.now, c);
    }
  }

  /** Over any run, no window whatever holds more budgeted calls than the global cap. */
  lemma GlobalCapHolds(cfg: Config, calls: seq<Call>, end: int)
    requires cfg.maxGlobal > 0 && Timely(calls)
    ensures CountWithin(Run(cfg, calls).all, end - cfg.windowMs, end) <= cfg.maxGlobal
  {
    if calls == [] {
    } else {
      RunGlobalPaced(cfg, calls, calls[|calls| - 1].now);
      SpacedWindow(Run(cfg, calls).all, cfg.maxGlobal, cfg.windowMs, end);
    }
  }

  // -------------------------------------------------------------------- refusals

  lemma RunExtends(cfg: Config, calls: seq<Call>, c: Call)
    ensures Run(cfg, calls + [c]) == After(cfg, Run(cfg, calls), c.es, c.now, c.chargeGlobal)
  {
    assert (calls + [c])[..|calls|] == calls;
  }

  /** A refused call might as well not have been made: every later state is the same. */
  lemma {:induction false} RefusalLeavesNoTrace(cfg: Config, before: seq<Call>, c: Call, after: seq<Call>)
    requires !Verdict(cfg, before, c)
    ensures Run(cfg, before + [c] + after) == Run(cfg, before + after)
  {
    if after == [] {
      assert before + [c] + after == before + [c] && before + after == before;
      RunExtends(cfg, before, c);
    } else {
      var init, last := after[..|after| - 1], after[|after| - 1];
      RefusalLeavesNoTrace(cfg, before, c, init);
      LastApart(before + [c], after);
      LastApart(before, after);
      SameThenSame(cfg, before + [c] + init, before + init, last);
    }
  }

  lemma LastApart<T>(front: seq<T>, back: seq<T>)
    requires back != []
    ensures front + back == (front + back[..|back| - 1]) + [back[|back| - 1]]
  {
  }

  lemma SameThenSame(cfg: Config, a: seq<Call>, b: seq<Call>, c: Call)
    requires Run(cfg, a) == Run(cfg, b)
    ensures Run(cfg, a + [c]) == Run(cfg, b + [c])
  {
    RunExtends(cfg, a, c);
    RunExtends(cfg, b, c);
  }

  // -------------------------------------------------- one key under several caps

  /** Every cap given to a key has room, whichever entry gives it. */
  predicate EveryCapHasRoom(h: History, es: seq<Entry>, cutoff: int) {
    forall i :: 0 <= i < |es| && es[i].max > 0 ==> Room(h, es[i], cutoff)
  }

  /** No key's later caps are tighter than its first. */
  predicate FirstCapIsLeast(es: seq<Entry>) {
    forall i, j :: 0 <= i < j < |es| && es[i].max > 0 && es[j].max > 0 && es[i].key == es[j].key && Decides(es, i)
      ==> es[i].max <= es[j].max
  }

  lemma LeastFirstCovers(h: History, es: seq<Entry>, cutoff: int)
    requires FirstCapIsLeast(es) && KeysHaveRoom(h, es, cutoff)
    ensures EveryCapHasRoom(h, es, cutoff)
  {
    forall j | 0 <= j < |es| && es[j].max > 0
      ensures Room(h, es[j], cutoff)
    {
      var i := ChargedIsDecided(es, j + 1, es[j].key);
      assert Room(h, es[i], cutoff);
    }
  }

  lemma {:induction false} RepeatCounts(t: int, n: nat, cutoff: int)
    requires t > cutoff
    ensures CountSince(seq(n, _ => t), cutoff) == n
  {
    AllSince(seq(n, _ => t), cutoff);
  }

  /** A later, tighter cap is not enforced: this history fills it and the call still passes. */
  lemma LaterCapIgnored(es: seq<Entry>, i: nat, j: nat, cutoff: int) returns (h: History)
    requires i < j < |es| && Decides(es, i) && es[j].max > 0 && es[i].key == es[j].key && es[j].max < es[i].max
    ensures KeysHaveRoom(h, es, cutoff) && !EveryCapHasRoom(h, es, cutoff)
  {
    var hits := seq(es[j].max, _ => cutoff + 1);
    RepeatCounts(cutoff + 1, es[j].max, cutoff);
    h := History(map[es[j].key := hits], hits);
    assert !Room(h, es[j], cutoff);
    forall k | 0 <= k < |es| && Decides(es, k)
      ensures Room(h, es[k], cutoff)
    {
      OneDecides(es, i, k);
      OneDecides(es, k, i);
    }
  }

  lemma OneDecides(es: seq<Entry>, i: nat, k: nat)
    requires i < |es| && k < |es| && es[i].max > 0
    ensures i < k && es[i].key == es[k].key ==> !Decides(es, k)
  {
    if i < k {
      assert es[i].key in CappedTo(es, k);
    }
  }

  /** A call whose key comes under several caps is held to all of them, whatever the
      history, exactly when no later cap of a key is below its first. */
  lemma SeveralCaps(es: seq<Entry>, cutoff: int)
    ensures (forall h :: KeysHaveRoom(h, es, cutoff) ==> EveryCapHasRoom(h, es, cutoff)) <==> FirstCapIsLeast(es)
  {
    if FirstCapIsLeast(es) {
      forall h | KeysHaveRoom(h, es, cutoff)
        ensures EveryCapHasRoom(h, es, cutoff)
      {
        LeastFirstCovers(h, es, cutoff);
      }
    } else {
      var i, j :| 0 <= i < j < |es| && es[i].max > 0 && es[j].max > 0 && es[i].key == es[j].key && Decides(es, i)
        && es[i].max > es[j].max;
      var h := LaterCapIgnored(es, i, j, cutoff);
    }
  }
}
