/** What the circuit breaker owes its full record: the rate arm over the true window, the
    count arm over the failures still outstanding, and how long it stays open. */
module BreakerBooks {
  import opened Results
  import opened Windows

  datatype Event = Failed(at: int) | Succeeded(when: Option<int>)

  /** The failure rate is the fraction `rateNum / rateDen`. */
  datatype Config = Config(threshold: int, cooldownMs: int, windowMs: int, rateNum: int, rateDen: int, minSamples: int)

  /** Everything ever recorded: all failures and dated successes, the failures the count arm
      still holds, the opening time, and how many failures the last trip had used up. */
  datatype Books = Books(failed: seq<int>, succeeded: seq<int>, arm: seq<int>, openUntil: int, spent: nat)

  const BLANK := Books([], [], [], 0, 0)

  predicate RateReached(cfg: Config, failed: nat, succeeded: nat) {
    && cfg.rateNum > 0 && failed >= cfg.minSamples && failed + succeeded > 0
    && failed * cfg.rateDen >= cfg.rateNum * (failed + succeeded)
  }

  /** The rate arm: the true fraction over the window ending now, forgiven failures included. */
  predicate RateTrips(cfg: Config, failed: seq<int>, succeeded: seq<int>, now: int) {
    RateReached(cfg, CountSince(failed, now - cfg.windowMs), CountSince(succeeded, now - cfg.windowMs))
  }

  /** Without the leading entries at or before `cutoff`. */
  function Live(s: seq<int>, cutoff: int): seq<int> {
    if s == [] || s[0] > cutoff then s else Live(s[1..], cutoff)
  }

  function Oldest(s: seq<int>): seq<int> {
    if s == [] then s else s[1..]
  }

  /** The count arm: the outstanding live failures and this one reach the threshold. */
  predicate CountTrips(cfg: Config, b: Books, now: int) {
    |Live(b.arm, now - cfg.windowMs)| + 1 >= cfg.threshold
  }

  predicate Trips(cfg: Config, b: Books, now: int) {
    CountTrips(cfg, b, now) || RateTrips(cfg, b.failed + [now], b.succeeded, now)
  }

  function Fail(cfg: Config, b: Books, now: int): Books {
    if Trips(cfg, b, now) then Books(b.failed + [now], b.succeeded, [], now + cfg.cooldownMs, |b.failed| + 1)
    else b.(failed := b.failed + [now], arm := Live(b.arm, now - cfg.windowMs) + [now])
  }

  function Succeed(b: Books, when: Option<int>): Books {
    b.(arm := Oldest(b.arm), succeeded := if when.Some? then b.succeeded + [when.value] else b.succeeded)
  }

  function Next(cfg: Config, b: Books, e: Event): Books {
    match e
    case Failed(now) => Fail(cfg, b, now)
    case Succeeded(when) => Succeed(b, when)
  }

  /** Pruning a sorted list leaves its live part. */
  lemma {:induction false} PrunedIsLive(r: seq<int>, s: seq<int>, cutoff: int)
    requires Tail(r, s, cutoff) && forall i | 0 <= i < |r| :: r[i] > cutoff
    ensures r == Live(s, cutoff)
  {
    if |r| == |s| {
      assert r == s;
    } else {
      assert s[0] <= cutoff;
      PrunedIsLive(r, s[1..], cutoff);
    }
  }

  lemma {:induction false} LiveIsTail(s: seq<int>, cutoff: int)
    ensures Tail(Live(s, cutoff), s, cutoff)
    ensures Live(s, cutoff) == [] || Live(s, cutoff)[0] > cutoff
  {
    if s != [] && s[0] <= cutoff {
      LiveIsTail(s[1..], cutoff);
      TailOfRest(Live(s[1..], cutoff), s, cutoff);
    }
  }

  lemma TailOfRest(r: seq<int>, s: seq<int>, cutoff: int)
    requires s != [] && s[0] <= cutoff && Tail(r, s[1..], cutoff)
    ensures Tail(r, s, cutoff)
  {
    forall i | 0 <= i < |s| - |r|
      ensures s[i] <= cutoff
    {
      assert i > 0 ==> s[i] == s[1..][i - 1];
    }
  }

  // ---------------------------------------------------------- what every step keeps

  /** `arm` is the end of `full` and starts no earlier than `from`. */
  predicate EndOf(arm: seq<int>, full: seq<int>, from: nat) {
    |arm| + from <= |full| && forall i :: 0 <= i < |arm| ==> arm[i] == full[|full| - |arm| + i]
  }

  lemma EndOfLive(arm: seq<int>, full: seq<int>, from: nat, cutoff: int)
    requires EndOf(arm, full, from)
    ensures EndOf(Live(arm, cutoff), full, from)
  {
    LiveIsTail(arm, cutoff);
    var r := Live(arm, cutoff);
    forall i | 0 <= i < |r|
      ensures r[i] == full[|full| - |r| + i]
    {
      assert r[i] == arm[|arm| - |r| + i];
    }
  }

  lemma EndOfPush(arm: seq<int>, full: seq<int>, from: nat, now: int)
    requires EndOf(arm, full, from)
    ensures EndOf(arm + [now], full + [now], from)
  {}

  lemma EndOfOldest(arm: seq<int>, full: seq<int>, from: nat)
    requires EndOf(arm, full, from)
    ensures EndOf(Oldest(arm), full, from)
  {}

  lemma EndOfDated(arm: seq<int>, full: seq<int>, from: nat, clock: int)
    requires EndOf(arm, full, from) && Dated(full, clock)
    ensures Dated(arm, clock)
  {
    assert forall i | 0 <= i < |arm| :: arm[i] == full[|full| - |arm| + i];
  }

  /** The count arm holds fewer failures than the threshold, the latest ones, all of them
      after the last trip; the opening time is within a cooldown of the clock. */
  predicate Sound(cfg: Config, b: Books, clock: int) {
    && Dated(b.failed, clock) && Dated(b.succeeded, clock)
    && |b.arm| < cfg.threshold && EndOf(b.arm, b.failed, b.spent)
    && (b.openUntil == 0 || b.openUntil <= clock + cfg.cooldownMs)
  }

  predicate HappensBy(e: Event, clock: int, now: int) {
    match e
    case Failed(at) => clock <= at == now
    case Succeeded(None) => now == clock
    case Succeeded(Some(at)) => clock <= at == now
  }

  lemma SoundNext(cfg: Config, b: Books, e: Event, clock: int, now: int)
    requires Sound(cfg, b, clock) && HappensBy(e, clock, now)
    ensures Sound(cfg, Next(cfg, b, e), now)
  {
    match e
    case Failed(_) => SoundFail(cfg, b, clock, now);
    case Succeeded(_) => EndOfOldest(b.arm, b.failed, b.spent);
  }

  lemma SoundFail(cfg: Config, b: Books, clock: int, now: int)
    requires Sound(cfg, b, clock) && clock <= now
    ensures Sound(cfg, Fail(cfg, b, now), now)
  {
    EndOfLive(b.arm, b.failed, b.spent, now - cfg.windowMs);
    EndOfPush(Live(b.arm, now - cfg.windowMs), b.failed, b.spent, now);
    DatedPush(b.failed, clock, now);
  }

  lemma DatedPush(s: seq<int>, clock: int, now: int)
    requires Dated(s, clock) && clock <= now
    ensures Dated(s + [now], now)
  {
  }

  /** A count trip needs `threshold` failures inside one window, every one of them
      recorded after the trip before. */
  lemma CountTripIsEarned(cfg: Config, b: Books, clock: int, now: int)
    requires Sound(cfg, b, clock) && clock <= now && cfg.windowMs > 0 && CountTrips(cfg, b, now)
    ensures var all := Fail(cfg, b, now).failed;
            && b.spent + cfg.threshold <= |all|
            && forall i :: |all| - cfg.threshold <= i < |all| ==> all[i] > now - cfg.windowMs
  {
    var arm := Live(b.arm, now - cfg.windowMs);
    EndOfLive(b.arm, b.failed, b.spent, now - cfg.windowMs);
    LiveIsTail(b.arm, now - cfg.windowMs);
    LiveFromFirst(arm, b.failed, b.spent, clock, now - cfg.windowMs);
  }

  lemma LiveFromFirst(arm: seq<int>, full: seq<int>, from: nat, clock: int, cutoff: int)
    requires EndOf(arm, full, from) && Dated(full, clock) && (arm == [] || arm[0] > cutoff)
    ensures forall i :: |full| - |arm| <= i < |full| ==> full[i] > cutoff
  {
    assert arm != [] ==> arm[0] == full[|full| - |arm|];
  }

  /** A success takes a failure off the live count exactly when the oldest one held is
      still live; an expired one held in front of it absorbs the forgiveness. */
  lemma Forgiveness(b: Books, when: Option<int>, cutoff: int)
    ensures CountSince(Succeed(b, when).arm, cutoff)
         == CountSince(b.arm, cutoff) - (if b.arm != [] && b.arm[0] > cutoff then 1 else 0)
  {
    if b.arm != [] {
      assert b.arm == [b.arm[0]] + b.arm[1..];
      CountSinceConcat([b.arm[0]], b.arm[1..], cutoff);
      assert [b.arm[0]][..0] == [];
    }
  }

  // ------------------------------------------------------------------------- runs

  function Run(cfg: Config, b: Books, events: seq<Event>): Books
    decreases |events|
  {
    if events == [] then b else Run(cfg, Next(cfg, b, events[0]), events[1..])
  }

  /** Each event happens no earlier than the one before, and none after `end`. */
  predicate Timely(events: seq<Event>, clock: int, end: int) {
    if events == [] then clock <= end
    else
      var now := TimeOf(events[0], clock);
      clock <= now && Timely(events[1..], now, end)
  }

  function TimeOf(e: Event, clock: int): int {
    match e
    case Failed(at) => at
    case Succeeded(None) => clock
    case Succeeded(Some(at)) => at
  }

  /** Nothing recorded by `end`, success or failure, closes a breaker that is open at `end`. */
  lemma {:induction false} OpenStaysOpen(cfg: Config, b: Books, clock: int, events: seq<Event>, end: int)
    requires Sound(cfg, b, clock) && Timely(events, clock, end) && 0 <= end < b.openUntil
    ensures Run(cfg, b, events).openUntil >= b.openUntil
    decreases |events|
  {
    if events != [] {
      var now := TimeOf(events[0], clock);
      SoundNext(cfg, b, events[0], clock, now);
      OpenStaysOpen(cfg, Next(cfg, b, events[0]), now, events[1..], end);
    }
  }

  /** Every run keeps the books sound, so the count arm never outgrows the threshold. */
  lemma {:induction false} RunIsSound(cfg: Config, b: Books, clock: int, events: seq<Event>, end: int)
    returns (now: int)
    requires Sound(cfg, b, clock) && Timely(events, clock, end)
    ensures now <= end && Sound(cfg, Run(cfg, b, events), now)
    decreases |events|
  {
    if events == [] {
      now := clock;
    } else {
      var first := TimeOf(events[0], clock);
      SoundNext(cfg, b, events[0], clock, first);
      now := RunIsSound(cfg, Next(cfg, b, events[0]), first, events[1..], end);
    }
  }

  // ----------------------------------------------------------- state and its books

  /** The breaker's pruned lists and opening time stand for its books. */
  predicate Reflects(cfg: Config, b: Books, clock: int,
                     arm: seq<int>, failures: seq<int>, successes: seq<int>, open: int) {
    && Kept(failures, b.failed, clock, cfg.windowMs)
    && Kept(successes, b.succeeded, clock, cfg.windowMs)
    && arm == b.arm && open == b.openUntil
  }

  lemma CountOnePush(s: seq<int>, now: int, cutoff: int)
    requires cutoff < now
    ensures CountSince(s + [now], cutoff) == CountSince(s, cutoff) + 1
  {
    assert (s + [now])[..|s|] == s;
  }

  /** Both arms pushed: the lengths of the lists decide, and the rest follows the verdict. */
  predicate AfterPush(cfg: Config, b: Books, now: int, arm: seq<int>, failures: seq<int>, successes: seq<int>) {
    var trips := |arm| >= cfg.threshold || RateReached(cfg, |failures|, |successes|);
    Reflects(cfg, Next(cfg, b, Failed(now)), now, if trips then [] else arm, failures, successes,
             if trips then now + cfg.cooldownMs else b.openUntil)
  }

  /** From pruned lists, a failure pushes on both arms and is judged by their lengths. */
  lemma AfterFailure(cfg: Config, b: Books, now: int, live: seq<int>, failures: seq<int>, successes: seq<int>)
    requires cfg.windowMs > 0 && live == Live(b.arm, now - cfg.windowMs)
    requires Kept(failures, b.failed, now, cfg.windowMs) && Kept(successes, b.succeeded, now, cfg.windowMs)
    requires |failures| == CountSince(b.failed, now - cfg.windowMs)
    requires |successes| == CountSince(b.succeeded, now - cfg.windowMs)
    ensures AfterPush(cfg, b, now, live + [now], failures + [now], successes)
  {
    CountOnePush(b.failed, now, now - cfg.windowMs);
    KeptPush(failures, b.failed, now, cfg.windowMs);
  }
}
