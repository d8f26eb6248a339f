/** The circuit breaker on the facilitator's settle path. */
module Breaker {
  import opened Results
  import opened Windows
  import opened BreakerBooks

  class CircuitBreaker {
    const cfg: Config
    var countArm: seq<int>
    var failures: seq<int>
    var successes: seq<int>
    var openUntil: int

    ghost var books: Books
    ghost var clock: int

    ghost predicate Valid()
      reads this
    {
      && cfg.windowMs > 0 && cfg.rateDen > 0
      && Reflects(cfg, books, clock, countArm, failures, successes, openUntil)
      && (cfg.threshold > 0 ==> Sound(cfg, books, clock))
    }

    constructor (cfg: Config, ghost start: int)
      requires cfg.windowMs > 0 && cfg.rateDen > 0
      ensures Valid() && this.cfg == cfg && books == BLANK && clock == start
    {
      this.cfg := cfg;
      countArm, failures, successes, openUntil := [], [], [], 0;
      books, clock := BLANK, start;
    }

    /** Moves to `now` and prunes the rate arm's two lists to their live entries. */
    method Refresh(now: int)
      requires clock <= now && Reflects(cfg, books, clock, countArm, failures, successes, openUntil)
      modifies this`failures, this`successes, this`clock
      ensures clock == now && Reflects(cfg, books, now, countArm, failures, successes, openUntil)
      ensures |failures| == CountSince(books.failed, now - cfg.windowMs)
      ensures |successes| == CountSince(books.succeeded, now - cfg.windowMs)
    {
      KeptLater(failures, books.failed, clock, now, cfg.windowMs);
      KeptLater(successes, books.succeeded, clock, now, cfg.windowMs);
      clock := now;
      failures := PruneKept(failures, books.failed, now, cfg.windowMs);
      successes := PruneKept(successes, books.succeeded, now, cfg.windowMs);
    }

    method PruneArm(now: int)
      requires Sorted(countArm)
      modifies this`countArm
      ensures countArm == Live(old(countArm), now - cfg.windowMs)
    {
      ghost var before := countArm;
      countArm := Prune(countArm, now, cfg.windowMs);
      PrunedIsLive(countArm, before, now - cfg.windowMs);
    }

    /** Traffic failures and burns alike: both arms see the failure, and either may trip. */
    method RecordFailure(now: int)
      requires Valid() && clock <= now
      modifies this
      ensures Valid() && books == if cfg.threshold <= 0 then old(books) else Next(cfg, old(books), Failed(now))
      ensures clock == if cfg.threshold <= 0 then old(clock) else now
    {
      if cfg.threshold > 0 {
        CountFailure(now);
      }
    }

    /** The same, with the breaker on. */
    method CountFailure(now: int)
      requires Valid() && clock <= now && cfg.threshold > 0
      modifies this
      ensures Valid() && clock == now && books == Next(cfg, old(books), Failed(now))
    {
      SoundNext(cfg, books, Failed(now), clock, now);
      PruneAll(now);
      Judge(now);
    }

    /** Prunes every list, so that what is left plus the failure decides. */
    method PruneAll(now: int)
      requires Valid() && clock <= now && cfg.threshold > 0
      modifies this`countArm, this`failures, this`successes, this`clock
      ensures clock == now && openUntil == books.openUntil
      ensures AfterPush(cfg, books, now, countArm + [now], failures + [now], successes)
    {
      EndOfDated(books.arm, books.failed, books.spent, clock);
      Refresh(now);
      PruneArm(now);
      assert Kept(failures, books.failed, now, cfg.windowMs);
      assert Kept(successes, books.succeeded, now, cfg.windowMs);
      assert countArm == Live(books.arm, now - cfg.windowMs);
      AfterFailure(cfg, books, now, countArm, failures, successes);
    }

    /** The two arms' verdicts on a failure at `now`, once every list is pruned. */
    method Judge(now: int)
      requires clock == now && openUntil == books.openUntil
      requires AfterPush(cfg, books, now, countArm + [now], failures + [now], successes)
      modifies this`countArm, this`failures, this`openUntil, this`books
      ensures books == Next(cfg, old(books), Failed(now))
      ensures Reflects(cfg, books, now, countArm, failures, successes, openUntil)
    {
      books := Next(cfg, books, Failed(now));
      failures := failures + [now];
      countArm := countArm + [now];
      var countTrip := |countArm| >= cfg.threshold;
      var rateTrip := RateReached(cfg, |failures|, |successes|);
      if countTrip || rateTrip {
        openUntil := now + cfg.cooldownMs;
        countArm := [];
      }
    }

    /** One success forgives one failure; a dated one also feeds the rate arm. */
    method RecordSuccess(when: Option<int>)
      requires Valid() && (when.Some? ==> clock <= when.value)
      modifies this
      ensures Valid() && books == if cfg.threshold <= 0 then old(books) else Next(cfg, old(books), Succeeded(when))
      ensures clock == if cfg.threshold <= 0 then old(clock) else TimeOf(Succeeded(when), old(clock))
    {
      if cfg.threshold <= 0 {
        return;
      }
      SoundNext(cfg, books, Succeeded(when), clock, TimeOf(Succeeded(when), clock));
      if |countArm| > 0 {
        countArm := countArm[1..];
      }
      books := books.(arm := countArm);
      if when.Some? {
        RefreshSuccess(when.value);
      }
    }

    method RefreshSuccess(now: int)
      requires cfg.windowMs > 0 && clock <= now && Reflects(cfg, books, clock, countArm, failures, successes, openUntil)
      modifies this`failures, this`successes, this`clock, this`books
      ensures clock == now && books == old(books).(succeeded := old(books).succeeded + [now])
      ensures Reflects(cfg, books, clock, countArm, failures, successes, openUntil)
    {
      Refresh(now);
      KeptPush(successes, books.succeeded, now, cfg.windowMs);
      successes := successes + [now];
      books := books.(succeeded := books.succeeded + [now]);
    }

    method IsOpen(now: int) returns (open: bool)
      requires Valid()
      ensures open == (cfg.threshold > 0 && books.openUntil > now)
    {
      open := cfg.threshold > 0 && openUntil > now;
    }
  }
}
