/** Which deliveries a merchant granted, and how the store's insertion-ordered map of
    tickets stands for that record. */
module RedeemedLog {
  import opened Results

  /** A claim that won its delivery, or a ticket given back. */
  datatype Event = Won(id: string, at: int) | Released(id: string)

  datatype Ticket = Ticket(id: string, at: int)

  /** Event `i` is the latest word on its id, and it is a win. */
  predicate Current(log: seq<Event>, i: nat) {
    i < |log| && log[i].Won? && forall j :: i < j < |log| ==> log[j].id != log[i].id
  }

  /** Wins of other ids among the events from `lo` up to `hi`. */
  function Others(log: seq<Event>, lo: nat, hi: nat, id: string): nat
    requires hi <= |log|
  {
    if hi <= lo then 0
    else Others(log, lo, hi - 1, id) + (if log[hi - 1].Won? && log[hi - 1].id != id then 1 else 0)
  }

  /** The promise: two wins of one id closer than `ttlMs`, with no release in between,
      have at least `maxSize` wins of other ids between them. */
  predicate OneDelivery(log: seq<Event>, ttlMs: int, maxSize: int) {
    forall i, j :: 0 <= i < j < |log| ==> Spread(log, i, j, ttlMs, maxSize)
  }

  predicate Spread(log: seq<Event>, i: nat, j: nat, ttlMs: int, maxSize: int)
    requires i < j < |log|
  {
    log[i].Won? && log[j].Won? && log[i].id == log[j].id && log[j].at - log[i].at < ttlMs && Unreleased(log, i, j)
    ==> Others(log, i + 1, j, log[i].id) >= maxSize
  }

  predicate Unreleased(log: seq<Event>, i: nat, j: nat)
    requires i < j <= |log|
  {
    forall k :: i < k < j && log[k].id == log[i].id ==> log[k].Won?
  }

  predicate Timely(log: seq<Event>, clock: int) {
    && (forall i :: 0 <= i < |log| && log[i].Won? ==> log[i].at <= clock)
    && (forall i, j :: 0 <= i < j < |log| && log[i].Won? && log[j].Won? ==> log[i].at <= log[j].at)
  }

  // --------------------------------------------------------- tickets and their wins

  /** Ticket `k` was issued by the win at `births[k]`, and nothing has happened to its id since. */
  predicate Issued(seen: seq<Ticket>, births: seq<nat>, log: seq<Event>) {
    && |births| == |seen|
    && (forall k :: 0 <= k < |seen| ==> IssuedBy(seen[k], log, births[k]))
    && (forall k, m :: 0 <= k < m < |births| ==> births[k] < births[m])
  }

  predicate IssuedBy(t: Ticket, log: seq<Event>, birth: nat) {
    Current(log, birth) && log[birth] == Won(t.id, t.at)
  }

  /** A current win is held as a ticket, or has expired, or was crowded out. */
  predicate Accounted(births: seq<nat>, log: seq<Event>, clock: int, ttlMs: int, maxSize: int) {
    forall i :: 0 <= i < |log| && Current(log, i) ==> Excused(births, log, i, clock, ttlMs, maxSize)
  }

  predicate Excused(births: seq<nat>, log: seq<Event>, i: nat, clock: int, ttlMs: int, maxSize: int)
    requires Current(log, i)
  {
    || i in births
    || clock - log[i].at >= ttlMs
    || Others(log, i + 1, |log|, log[i].id) >= maxSize
  }

  predicate Stands(seen: seq<Ticket>, births: seq<nat>, log: seq<Event>, clock: int, ttlMs: int, maxSize: int) {
    Issued(seen, births, log) && Accounted(births, log, clock, ttlMs, maxSize) && Timely(log, clock)
  }

  predicate Ordered(seen: seq<Ticket>, clock: int) {
    && (forall i :: 0 <= i < |seen| ==> seen[i].at <= clock)
    && (forall i, j :: 0 <= i < j < |seen| ==> seen[i].at <= seen[j].at && seen[i].id != seen[j].id)
  }

  lemma IssuedOrdered(seen: seq<Ticket>, births: seq<nat>, log: seq<Event>, clock: int)
    requires Issued(seen, births, log) && Timely(log, clock)
    ensures Ordered(seen, clock)
  {
    forall i | 0 <= i < |seen|
      ensures seen[i].at <= clock
    {
      assert Current(log, births[i]);
    }
    forall i, j | 0 <= i < j < |seen|
      ensures seen[i].at <= seen[j].at && seen[i].id != seen[j].id
    {
      assert Current(log, births[i]) && Current(log, births[j]) && births[i] < births[j];
    }
  }

  // ------------------------------------------------------------------------ lookup

  function Find(seen: seq<Ticket>, id: string): (r: Option<nat>)
    ensures r.Some? ==> r.value < |seen| && seen[r.value].id == id
    ensures r.None? ==> forall k :: 0 <= k < |seen| ==> seen[k].id != id
  {
    if seen == [] then None
    else if seen[|seen| - 1].id == id then Some(|seen| - 1)
    else Find(seen[..|seen| - 1], id)
  }

  /** The id holds a ticket younger than the time to live. */
  predicate LiveTicket(seen: seq<Ticket>, id: string, t: int, ttlMs: int) {
    exists k :: 0 <= k < |seen| && seen[k].id == id && t - seen[k].at < ttlMs
  }

  function Drop<T>(s: seq<T>, p: nat): seq<T>
    requires p < |s|
  {
    s[..p] + s[p + 1..]
  }

  function Without(seen: seq<Ticket>, id: string): seq<Ticket> {
    var p := Find(seen, id);
    if p.None? then seen else Drop(seen, p.value)
  }

  /** What is left of a list when only its oldest entries went. */
  predicate LatestOf(rest: seq<Ticket>, seen: seq<Ticket>) {
    |rest| <= |seen| && forall i :: 0 <= i < |rest| ==> rest[i] == seen[|seen| - |rest| + i]
  }

  lemma LatestDrop(rest: seq<Ticket>, seen: seq<Ticket>)
    requires LatestOf(rest, seen) && rest != []
    ensures LatestOf(Drop(rest, 0), seen)
  {}

  lemma DropAt<T>(s: seq<T>, p: nat, k: nat)
    requires p < |s| && k < |s| - 1
    ensures Drop(s, p)[k] == if k < p then s[k] else s[k + 1]
  {}

  /** Dropping a ticket keeps the rest issued. */
  lemma IssuedDrop(seen: seq<Ticket>, births: seq<nat>, log: seq<Event>, p: nat)
    requires Issued(seen, births, log) && p < |seen|
    ensures Issued(Drop(seen, p), Drop(births, p), log)
  {
    forall k | 0 <= k < |seen| - 1
      ensures Current(log, Drop(births, p)[k])
      ensures log[Drop(births, p)[k]] == Won(Drop(seen, p)[k].id, Drop(seen, p)[k].at)
    {
      DropAt(seen, p, k);
      DropAt(births, p, k);
    }
  }

  lemma StillIn(births: seq<nat>, p: nat, i: nat)
    requires p < |births| && i in births && i != births[p]
    ensures i in Drop(births, p)
  {
    var k :| 0 <= k < |births| && births[k] == i;
    if k < p {
      assert Drop(births, p)[k] == i;
    } else {
      assert Drop(births, p)[k - 1] == i;
    }
  }

  /** Dropping an expired or crowded-out ticket leaves every win accounted for. */
  lemma AccountedDrop(births: seq<nat>, log: seq<Event>, p: nat, clock: int, ttlMs: int, maxSize: int)
    requires Accounted(births, log, clock, ttlMs, maxSize) && p < |births| && Current(log, births[p])
    requires clock - log[births[p]].at >= ttlMs || Others(log, births[p] + 1, |log|, log[births[p]].id) >= maxSize
    ensures Accounted(Drop(births, p), log, clock, ttlMs, maxSize)
  {
    forall i | 0 <= i < |log| && Current(log, i)
      ensures Excused(Drop(births, p), log, i, clock, ttlMs, maxSize)
    {
      assert Excused(births, log, i, clock, ttlMs, maxSize);
      if i in births && i != births[p] {
        StillIn(births, p, i);
      }
    }
  }

  /** A ticket that may go may be dropped. */
  lemma StandsWithout(seen: seq<Ticket>, births: seq<nat>, log: seq<Event>, p: nat, clock: int, ttlMs: int,
                      maxSize: int)
    requires Stands(seen, births, log, clock, ttlMs, maxSize)
    requires p < |seen| && MayGo(seen, births, log, p, clock, ttlMs, maxSize)
    ensures Stands(Drop(seen, p), Drop(births, p), log, clock, ttlMs, maxSize)
  {
    assert IssuedBy(seen[p], log, births[p]);
    AccountedDrop(births, log, p, clock, ttlMs, maxSize);
    IssuedDrop(seen, births, log, p);
  }

  /** Time only excuses more. */
  lemma StandsLater(seen: seq<Ticket>, births: seq<nat>, log: seq<Event>, clock: int, now: int, ttlMs: int,
                    maxSize: int)
    requires Stands(seen, births, log, clock, ttlMs, maxSize) && clock <= now
    ensures Stands(seen, births, log, now, ttlMs, maxSize)
  {
    forall i | 0 <= i < |log| && Current(log, i)
      ensures Excused(births, log, i, now, ttlMs, maxSize)
    {
      assert Excused(births, log, i, clock, ttlMs, maxSize);
    }
  }

  /** Each ticket behind the first was won after it, by another id. */
  lemma {:induction false} TicketsCrowd(seen: seq<Ticket>, births: seq<nat>, log: seq<Event>, n: nat)
    requires Issued(seen, births, log) && 0 < n <= |seen|
    ensures births[n - 1] < |log| && Others(log, births[0] + 1, births[n - 1] + 1, seen[0].id) >= n - 1
    ensures Current(log, births[0])
  {
    assert IssuedBy(seen[0], log, births[0]) && IssuedBy(seen[n - 1], log, births[n - 1]);
    if n > 1 {
      TicketsCrowd(seen, births, log, n - 1);
      OthersGrow(log, births[0] + 1, births[n - 2] + 1, births[n - 1], seen[0].id);
    }
  }

  lemma CrowdBehindFirst(seen: seq<Ticket>, births: seq<nat>, log: seq<Event>)
    requires Issued(seen, births, log) && seen != []
    ensures Current(log, births[0]) && Others(log, births[0] + 1, |log|, seen[0].id) >= |seen| - 1
  {
    var last := births[|seen| - 1];
    TicketsCrowd(seen, births, log, |seen|);
    OthersGrow(log, births[0] + 1, last + 1, |log|, seen[0].id);
  }

  predicate MayGo(seen: seq<Ticket>, births: seq<nat>, log: seq<Event>, p: nat, clock: int, ttlMs: int, maxSize: int)
    requires p < |seen| && Issued(seen, births, log)
  {
    clock - seen[p].at >= ttlMs || Others(log, births[p] + 1, |log|, seen[p].id) >= maxSize
  }

  /** In an overfull store the oldest ticket has been crowded out. */
  lemma OldestMayGo(seen: seq<Ticket>, births: seq<nat>, log: seq<Event>, clock: int, ttlMs: int, maxSize: int)
    requires Issued(seen, births, log) && seen != [] && |seen| > maxSize
    ensures MayGo(seen, births, log, 0, clock, ttlMs, maxSize)
  {
    CrowdBehindFirst(seen, births, log);
  }

  lemma {:induction false} OthersGrow(log: seq<Event>, lo: nat, mid: nat, hi: nat, id: string)
    requires mid <= hi <= |log|
    ensures Others(log, lo, mid, id) <= Others(log, lo, hi, id)
  {
    if mid < hi {
      OthersGrow(log, lo, mid, hi - 1, id);
    }
  }

  lemma {:induction false} OthersShrink(log: seq<Event>, lo: nat, mid: nat, hi: nat, id: string)
    requires lo <= mid && hi <= |log|
    ensures Others(log, mid, hi, id) <= Others(log, lo, hi, id)
  {
    if hi > lo {
      OthersShrink(log, lo, mid, hi - 1, id);
    }
  }

  lemma {:induction false} OthersSame(log: seq<Event>, e: Event, lo: nat, hi: nat, id: string)
    requires hi <= |log|
    ensures Others(log + [e], lo, hi, id) == Others(log, lo, hi, id)
  {
    if hi > lo {
      OthersSame(log, e, lo, hi - 1, id);
    }
  }

  // ------------------------------------------------------------- the log grows by one

  /** With no ticket left for `e.id`, the other tickets survive the event. */
  lemma IssuedExtends(seen: seq<Ticket>, births: seq<nat>, log: seq<Event>, e: Event)
    requires Issued(seen, births, log) && forall k | 0 <= k < |seen| :: seen[k].id != e.id
    ensures Issued(seen, births, log + [e])
  {
    forall k | 0 <= k < |seen|
      ensures Current(log + [e], births[k]) && (log + [e])[births[k]] == Won(seen[k].id, seen[k].at)
    {
      assert Current(log, births[k]);
    }
  }

  lemma AccountedExtends(births: seq<nat>, log: seq<Event>, e: Event, clock: int, ttlMs: int, maxSize: int)
    requires Accounted(births, log, clock, ttlMs, maxSize)
    ensures Accounted(if e.Won? then births + [|log|] else births, log + [e], clock, ttlMs, maxSize)
  {
    var births', log' := if e.Won? then births + [|log|] else births, log + [e];
    forall i | 0 <= i < |log'| && Current(log', i)
      ensures Excused(births', log', i, clock, ttlMs, maxSize)
    {
      if i < |log| {
        assert log'[|log|] == e && log'[i] == log[i];
        assert Current(log, i) by {
          assert forall j | i < j < |log| :: log'[j] == log[j];
        }
        assert Excused(births, log, i, clock, ttlMs, maxSize);
        OthersSame(log, e, i + 1, |log|, log[i].id);
      }
    }
  }

  lemma TimelyExtends(log: seq<Event>, e: Event, clock: int)
    requires Timely(log, clock) && (e.Won? ==> e.at == clock)
    ensures Timely(log + [e], clock)
  {}

  /** A win at the end of the log issues a new last ticket. */
  lemma IssuedWin(seen: seq<Ticket>, births: seq<nat>, log: seq<Event>, id: string, at: int)
    requires Issued(seen, births, log) && forall k | 0 <= k < |seen| :: seen[k].id != id
    ensures Issued(seen + [Ticket(id, at)], births + [|log|], log + [Won(id, at)])
  {
    IssuedExtends(seen, births, log, Won(id, at));
    forall k, m | 0 <= k < m < |births| + 1
      ensures (births + [|log|])[k] < (births + [|log|])[m]
    {
      assert Current(log, births[k]);
    }
  }

  /** The latest win of an unreleased id, at or after a given one. */
  lemma {:induction false} LatestWin(log: seq<Event>, i: nat, n: nat) returns (k: nat)
    requires i < n <= |log| && log[i].Won? && Unreleased(log, i, n)
    ensures i <= k < n && log[k].Won? && log[k].id == log[i].id
    ensures forall j :: k < j < n ==> log[j].id != log[i].id
  {
    if n - 1 == i || log[n - 1].id == log[i].id {
      k := n - 1;
    } else {
      k := LatestWin(log, i, n - 1);
    }
  }

  /** A claim that finds no live ticket may win without breaking the promise. */
  lemma WinKeepsPromise(seen: seq<Ticket>, births: seq<nat>, log: seq<Event>, id: string, at: int,
                        ttlMs: int, maxSize: int)
    requires Stands(seen, births, log, at, ttlMs, maxSize) && OneDelivery(log, ttlMs, maxSize)
    requires forall k | 0 <= k < |seen| :: seen[k].id == id ==> at - seen[k].at >= ttlMs
    ensures OneDelivery(log + [Won(id, at)], ttlMs, maxSize)
  {
    var log' := log + [Won(id, at)];
    forall i, j | 0 <= i < j < |log'|
      ensures Spread(log', i, j, ttlMs, maxSize)
    {
      if j < |log| {
        SpreadSame(log, Won(id, at), i, j, ttlMs, maxSize);
      } else if log[i].Won? && log[i].id == id && at - log[i].at < ttlMs && Unreleased(log', i, j) {
        assert Unreleased(log, i, |log|) by {
          assert forall k | i < k < |log| :: log'[k] == log[k];
        }
        var k := LatestWin(log, i, |log|);
        NotHeld(seen, births, log, k, at, ttlMs, maxSize);
        OthersShrink(log, i + 1, k + 1, |log|, id);
        OthersSame(log, Won(id, at), i + 1, |log|, id);
      }
    }
  }

  lemma SpreadSame(log: seq<Event>, e: Event, i: nat, j: nat, ttlMs: int, maxSize: int)
    requires i < j < |log| && Spread(log, i, j, ttlMs, maxSize)
    ensures Spread(log + [e], i, j, ttlMs, maxSize)
  {
    var log' := log + [e];
    assert forall k | 0 <= k < |log| :: log'[k] == log[k];
    OthersSame(log, e, i + 1, j, log[i].id);
  }

  /** A current win that is still live but not held was crowded out. */
  lemma NotHeld(seen: seq<Ticket>, births: seq<nat>, log: seq<Event>, i: nat, now: int, ttlMs: int, maxSize: int)
    requires Stands(seen, births, log, now, ttlMs, maxSize) && Current(log, i) && now - log[i].at < ttlMs
    requires forall k | 0 <= k < |seen| :: seen[k].id == log[i].id ==> now - seen[k].at >= ttlMs
    ensures Others(log, i + 1, |log|, log[i].id) >= maxSize
  {
    assert Excused(births, log, i, now, ttlMs, maxSize);
    forall k | 0 <= k < |births|
      ensures births[k] != i
    {
      assert log[births[k]] == Won(seen[k].id, seen[k].at);
    }
  }

  lemma ReleaseKeepsPromise(log: seq<Event>, id: string, ttlMs: int, maxSize: int)
    requires OneDelivery(log, ttlMs, maxSize)
    ensures OneDelivery(log + [Released(id)], ttlMs, maxSize)
  {
    forall i, j | 0 <= i < j < |log| + 1
      ensures Spread(log + [Released(id)], i, j, ttlMs, maxSize)
    {
      if j < |log| {
        SpreadSame(log, Released(id), i, j, ttlMs, maxSize);
      }
    }
  }

  /** A released id is owed nothing, so its ticket may go. */
  lemma AccountedForget(births: seq<nat>, log: seq<Event>, p: nat, clock: int, ttlMs: int, maxSize: int)
    requires Accounted(births, log, clock, ttlMs, maxSize) && p < |births| && !Current(log, births[p])
    ensures Accounted(Drop(births, p), log, clock, ttlMs, maxSize)
  {
    forall i | 0 <= i < |log| && Current(log, i)
      ensures Excused(Drop(births, p), log, i, clock, ttlMs, maxSize)
    {
      assert Excused(births, log, i, clock, ttlMs, maxSize);
      if i in births {
        StillIn(births, p, i);
      }
    }
  }
}
