/** Lists of times that only their live end matters of: pruning, counting, spacing. */
module Windows {
  predicate Sorted(s: seq<int>) {
    forall i, j :: 0 <= i < j < |s| ==> s[i] <= s[j]
  }

  /** A history in order, none of it in the future. */
  predicate Dated(s: seq<int>, clock: int) {
    Sorted(s) && forall i :: 0 <= i < |s| ==> s[i] <= clock
  }

  /** How many entries, wherever they stand, are later than `cutoff`. */
  function CountSince(s: seq<int>, cutoff: int): nat {
    if s == [] then 0 else CountSince(s[..|s| - 1], cutoff) + (if s[|s| - 1] > cutoff then 1 else 0)
  }

  /** How many entries fall after `lo` and no later than `hi`. */
  function CountWithin(s: seq<int>, lo: int, hi: int): nat {
    if s == [] then 0 else CountWithin(s[..|s| - 1], lo, hi) + (if lo < s[|s| - 1] <= hi then 1 else 0)
  }

  /** `kept` is the end of `full`, and everything before it is at or before `cutoff`. */
  predicate Tail(kept: seq<int>, full: seq<int>, cutoff: int) {
    && |kept| <= |full|
    && (forall i :: 0 <= i < |kept| ==> kept[i] == full[|full| - |kept| + i])
    && forall i :: 0 <= i < |full| - |kept| ==> full[i] <= cutoff
  }

  /** `kept` stands for the dated history `full`: it has lost nothing that is still live. */
  predicate Kept(kept: seq<int>, full: seq<int>, clock: int, windowMs: int) {
    Tail(kept, full, clock - windowMs) && Dated(full, clock)
  }

  lemma {:induction false} NoneSince(s: seq<int>, cutoff: int)
    requires forall i | 0 <= i < |s| :: s[i] <= cutoff
    ensures CountSince(s, cutoff) == 0
  {
    if s != [] {
      NoneSince(s[..|s| - 1], cutoff);
    }
  }

  lemma {:induction false} AllSince(s: seq<int>, cutoff: int)
    requires forall i | 0 <= i < |s| :: s[i] > cutoff
    ensures CountSince(s, cutoff) == |s|
  {
    if s != [] {
      AllSince(s[..|s| - 1], cutoff);
    }
  }

  lemma {:induction false} CountSinceConcat(a: seq<int>, b: seq<int>, cutoff: int)
    ensures CountSince(a + b, cutoff) == CountSince(a, cutoff) + CountSince(b, cutoff)
  {
    if b == [] {
      assert a + b == a;
    } else {
      CountSinceConcat(a, b[..|b| - 1], cutoff);
      assert (a + b)[..|a + b| - 1] == a + b[..|b| - 1];
    }
  }

  lemma {:induction false} CountSinceBound(s: seq<int>, cutoff: int)
    ensures CountSince(s, cutoff) <= |s|
  {
    if s != [] {
      CountSinceBound(s[..|s| - 1], cutoff);
    }
  }

  /** A tail counts the same as the whole for every later cutoff. */
  lemma TailCounts(kept: seq<int>, full: seq<int>, cutoff: int, later: int)
    requires Tail(kept, full, cutoff) && cutoff <= later
    ensures CountSince(kept, later) == CountSince(full, later)
  {
    var dropped := full[..|full| - |kept|];
    assert full == dropped + kept;
    NoneSince(dropped, later);
    CountSinceConcat(dropped, kept, later);
  }

  lemma TailOfTail(a: seq<int>, b: seq<int>, c: seq<int>, cutoff: int)
    requires Tail(a, b, cutoff) && Tail(b, c, cutoff)
    ensures Tail(a, c, cutoff)
  {
    var d := |c| - |b|;
    forall i | 0 <= i < |c| - |a|
      ensures c[i] <= cutoff
    {
      if i >= d {
        assert c[i] == b[i - d];
      }
    }
  }

  lemma KeptLater(kept: seq<int>, full: seq<int>, clock: int, now: int, windowMs: int)
    requires Kept(kept, full, clock, windowMs) && clock <= now
    ensures Kept(kept, full, now, windowMs)
  {}

  lemma KeptIsDated(kept: seq<int>, full: seq<int>, clock: int, windowMs: int)
    requires Kept(kept, full, clock, windowMs)
    ensures Dated(kept, clock)
  {
    var d := |full| - |kept|;
    assert forall i | 0 <= i < |kept| :: kept[i] == full[d + i];
  }

  lemma KeptPush(kept: seq<int>, full: seq<int>, clock: int, windowMs: int)
    requires Kept(kept, full, clock, windowMs)
    ensures Kept(kept + [clock], full + [clock], clock, windowMs)
  {}

  /** What pruning a kept list leaves still stands for the same history, exactly. */
  lemma KeptPruned(r: seq<int>, kept: seq<int>, full: seq<int>, clock: int, windowMs: int)
    requires Kept(kept, full, clock, windowMs) && Tail(r, kept, clock - windowMs)
    ensures Kept(r, full, clock, windowMs)
    ensures CountSince(kept, clock - windowMs) == CountSince(full, clock - windowMs)
  {
    TailOfTail(r, kept, full, clock - windowMs);
    TailCounts(kept, full, clock - windowMs, clock - windowMs);
  }

  /** Drops leading entries up to the first live one. On a sorted list that leaves
      exactly the live entries. */
  method Prune(arr: seq<int>, now: int, windowMs: int) returns (r: seq<int>)
    requires Sorted(arr)
    ensures |r| == CountSince(arr, now - windowMs)
    ensures Tail(r, arr, now - windowMs) && forall i | 0 <= i < |r| :: r[i] > now - windowMs
  {
    var cutoff := now - windowMs;
    var removeCount := 0;
    while removeCount < |arr| && arr[removeCount] <= cutoff
      invariant removeCount <= |arr| && forall i | 0 <= i < removeCount :: arr[i] <= cutoff
    {
      removeCount := removeCount + 1;
    }
    r := arr[removeCount..];
    TailCounts(r, arr, cutoff, cutoff);
    AllSince(r, cutoff);
  }

  /** Pruning what is kept of a history leaves exactly the history's live hits. */
  method PruneKept(kept: seq<int>, ghost full: seq<int>, now: int, windowMs: int) returns (r: seq<int>)
    requires Kept(kept, full, now, windowMs)
    ensures Kept(r, full, now, windowMs) && |r| == CountSince(full, now - windowMs)
    ensures |r| <= |kept| && r == kept[|kept| - |r|..] && forall i | 0 <= i < |r| :: r[i] > now - windowMs
  {
    KeptIsDated(kept, full, now, windowMs);
    r := Prune(kept, now, windowMs);
    KeptPruned(r, kept, full, now, windowMs);
  }

  // ----------------------------------------------------------------- the cap

  /** Any two entries `max` apart in the list are at least a window apart in time. */
  predicate Spaced(s: seq<int>, max: nat, windowMs: int) {
    forall i :: max <= i < |s| ==> s[i] - s[i - max] >= windowMs
  }

  lemma LiveEndCounts(s: seq<int>, d: nat, cutoff: int)
    requires d <= |s| && forall i | d <= i < |s| :: s[i] > cutoff
    ensures CountSince(s, cutoff) >= |s| - d
  {
    assert s == s[..d] + s[d..];
    CountSinceConcat(s[..d], s[d..], cutoff);
    AllSince(s[d..], cutoff);
  }

  /** Admitting at `now` only while fewer than `max` hits are live keeps the spacing. */
  lemma SpacedPush(s: seq<int>, max: nat, now: int, windowMs: int)
    requires Spaced(s, max, windowMs) && Sorted(s) && CountSince(s, now - windowMs) < max
    ensures Spaced(s + [now], max, windowMs)
  {
    if |s| >= max && s[|s| - max] > now - windowMs {
      LiveEndCounts(s, |s| - max, now - windowMs);
      assert false;
    }
    var t := s + [now];
    forall i | max <= i < |t|
      ensures t[i] - t[i - max] >= windowMs
    {
      assert i < |s| ==> t[i] == s[i] && t[i - max] == s[i - max];
    }
  }

  /** A spaced history holds at most `max` hits in any window whatever. */
  lemma {:induction false} SpacedWindow(s: seq<int>, max: nat, windowMs: int, end: int)
    requires Spaced(s, max, windowMs) && Sorted(s)
    ensures CountWithin(s, end - windowMs, end) <= max
  {
    if s != [] {
      var last := s[|s| - 1];
      if last > end {
        SpacedWindow(s[..|s| - 1], max, windowMs, end);
      } else {
        WithinIsSince(s, end - windowMs, end);
        if |s| <= max {
          CountSinceBound(s, end - windowMs);
        } else {
          OldEndCounts(s, |s| - max, end - windowMs);
        }
      }
    }
  }

  lemma {:induction false} WithinIsSince(s: seq<int>, lo: int, hi: int)
    requires forall i | 0 <= i < |s| :: s[i] <= hi
    ensures CountWithin(s, lo, hi) == CountSince(s, lo)
  {
    if s != [] {
      WithinIsSince(s[..|s| - 1], lo, hi);
    }
  }

  lemma OldEndCounts(s: seq<int>, d: nat, cutoff: int)
    requires 0 < d <= |s| && Sorted(s) && s[d - 1] <= cutoff
    ensures CountSince(s, cutoff) <= |s| - d
  {
    assert s == s[..d] + s[d..];
    NoneSince(s[..d], cutoff);
    CountSinceConcat(s[..d], s[d..], cutoff);
    CountSinceBound(s[d..], cutoff);
  }
}
