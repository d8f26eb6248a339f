/** The rewards client's own sum of ten-digit decimals, against the ledger sum. */
module RewardSum {
  import opened Results
  import opened Wire
  import opened Text
  import opened Amount

  const MINUS: Byte := 45
  const PLUS: Byte := 43

  /** How many bytes the character at the front of `s` takes. */
  function CharWidth(s: Bytes): (n: nat)
    requires s != []
    ensures 0 < n <= |s|
  {
    var n := if s[0] < 0xC0 then 1 else if s[0] < 0xE0 then 2 else if s[0] < 0xF0 then 3 else 4;
    if n <= |s| then n else |s|
  }

  /** The first `n` UTF-16 units of `s`: a character of four bytes takes two. One that the cut
      would split is kept whole; neither it nor its half can stand in a number. */
  function TakeUnits(s: Bytes, n: nat): Bytes
    decreases |s|
  {
    if n == 0 || s == [] then []
    else
      var w := CharWidth(s);
      var units := if w == 4 then 2 else 1;
      if units > n then s[..w] else s[..w] + TakeUnits(s[w..], n - units)
  }

  /** A decimal integer literal: white space around an optional sign and digits. White space
      alone is zero. */
  function IntegerLiteral(s: Bytes): Option<int> {
    SignedDigits(Trim(s))
  }

  function SignedDigits(t: Bytes): Option<int> {
    var signed := t != [] && (t[0] == MINUS || t[0] == PLUS);
    var digits := if signed then t[1..] else t;
    if t == [] then Some(0)
    else if digits == [] || !AllDigits(digits) then None
    else
      var v: int := NatOf(digits);
      Some(if signed && t[0] == MINUS then -v else v)
  }

  /** The rewards sum's reading of one amount: ten fraction digits, the rest dropped. */
  function Scaled10(a: Bytes): Option<int> {
    var neg := a != [] && a[0] == MINUS;
    var v := Unsigned10(if neg then a[1..] else a);
    if v.None? then None else Some(if neg then -v.value else v.value)
  }

  function Unsigned10(t: Bytes): Option<int> {
    var k := FindDot(t);
    var rest := if k < |t| then t[k + 1..] else [];
    var f := rest[..FindDot(rest)];
    IntegerLiteral((if k == 0 then [ZERO] else t[..k]) + TakeUnits(f + Zeros(SCALE), SCALE))
  }

  function Readings10(amounts: seq<Bytes>): (r: seq<Option<int>>)
    ensures |r| == |amounts|
  {
    seq(|amounts|, i requires 0 <= i < |amounts| => Scaled10(amounts[i]))
  }

  function FormatSigned(n: int): Bytes {
    if n < 0 then [MINUS] + FormatEleven(-n) else FormatEleven(n)
  }

  method SumReadings(vs: seq<Option<int>>) returns (r: Option<int>)
    ensures r == SumOf(vs)
  {
    var total: int := 0;
    for i := 0 to |vs|
      invariant SumOf(vs[..i]) == Some(total)
    {
      SumOfNext(vs, i);
      if vs[i].None? {
        SumRefuses(vs, i);
        return None;
      }
      total := total + vs[i].value;
    }
    assert vs[..|vs|] == vs;
    r := Some(total);
  }

  method SumDecimals10(amounts: seq<Bytes>) returns (r: Option<Bytes>)
    ensures var total := SumOf(Readings10(amounts));
            r == if total.None? then None else Some(FormatSigned(total.value))
  {
    var total := SumReadings(Readings10(amounts));
    r := if total.None? then None else Some(FormatSigned(total.value));
  }

  // ------------------------------------------------------------------ literals

  lemma DigitsLiteral(s: Bytes)
    requires AllDigits(s) && s != []
    ensures SignedDigits(s).Some? && SignedDigits(s).value == NatOf(s)
  {
    assert IsDigit(s[0]);
  }

  lemma TrimSpaced(lead: Bytes, x: Bytes, trail: Bytes)
    requires SpaceRun(lead) && SpaceRun(trail) && x != [] && IsDigit(x[0]) && IsDigit(x[|x| - 1])
    ensures Trim(lead + x + trail) == x
  {
    TrimStartRun(lead, x + trail);
    assert lead + x + trail == lead + (x + trail);
    NoLeadingSpace(x + trail);
    TrimEndRun(x, trail);
    NoTrailingSpace(x);
  }

  /** White space around digits does not matter. */
  lemma SpacedLiteral(lead: Bytes, x: Bytes, trail: Bytes)
    requires SpaceRun(lead) && SpaceRun(trail) && AllDigits(x) && x != []
    ensures IntegerLiteral(lead + x + trail).Some? && IntegerLiteral(lead + x + trail).value == NatOf(x)
  {
    TrimSpaced(lead, x, trail);
    DigitsLiteral(x);
  }

  lemma NotDigits(t: Bytes, i: nat)
    requires i < |t| && !IsDigit(t[i]) && IsDigit(t[0])
    ensures SignedDigits(t).None?
  {
  }

  /** White space between digits does. */
  lemma BrokenLiteral(lead: Bytes, x: Bytes, run: Bytes, y: Bytes)
    requires SpaceRun(lead) && SpaceRun(run) && run != []
    requires AllDigits(x) && x != [] && AllDigits(y) && y != []
    ensures IntegerLiteral(lead + x + run + y).None?
  {
    var t := x + run + y;
    SpaceBytes(run);
    ThreePieces(lead, x, run, y);
    TrimSpaced(lead, t, []);
    NotDigits(t, |x|);
  }

  lemma ThreePieces(lead: Bytes, x: Bytes, run: Bytes, y: Bytes)
    requires x != [] && run != [] && y != []
    ensures var t := x + run + y;
            && t[0] == x[0] && t[|t| - 1] == y[|y| - 1] && t[|x|] == run[0]
            && lead + x + run + y == lead + t + []
  {
  }

  // -------------------------------------------------------------- cutting units

  lemma {:induction false} TakeDigits(a: Bytes, rest: Bytes, n: nat)
    requires AllDigits(a)
    ensures TakeUnits(a + rest, n) == if |a| >= n then a[..n] else a + TakeUnits(rest, n - |a|)
    decreases |a|
  {
    if a == [] {
      assert a + rest == rest;
    } else if n > 0 {
      TakeDigit(a, rest, n);
      TakeDigits(a[1..], rest, n - 1);
      DigitInFront(a, if |a| >= n then [] else TakeUnits(rest, n - |a|), n);
    }
  }

  lemma TakeDigit(a: Bytes, rest: Bytes, n: nat)
    requires a != [] && IsDigit(a[0]) && n > 0
    ensures TakeUnits(a + rest, n) == [a[0]] + TakeUnits(a[1..] + rest, n - 1)
  {
    assert (a + rest)[..1] == [a[0]] && (a + rest)[1..] == a[1..] + rest;
  }

  lemma DigitInFront(a: Bytes, more: Bytes, n: nat)
    requires a != [] && n > 0
    ensures [a[0]] + (a[1..] + more) == a + more
    ensures |a| >= n ==> [a[0]] + a[1..][..n - 1] == a[..n]
  {
  }

  /** One white-space character is one unit. */
  lemma TakeSpace(run: Bytes, rest: Bytes, n: nat)
    requires LeadingSpace(run) > 0 && n > 0
    ensures var w := LeadingSpace(run);
            TakeUnits(run + rest, n) == run[..w] + TakeUnits(run[w..] + rest, n - 1)
  {
    var w := LeadingSpace(run);
    assert (run + rest)[..w] == run[..w] && (run + rest)[w..] == run[w..] + rest;
    assert CharWidth(run + rest) == w;
  }

  /** White space only, or all of `run` and then a zero. */
  ghost predicate CutRun(r: Bytes, run: Bytes) {
    r != [] && (SpaceRun(r) || exists z: nat :: z > 0 && r == run + Zeros(z))
  }

  /** Cutting behind white space leaves white space only, or all of it and a digit. */
  lemma {:induction false} TakeRun(run: Bytes, zeros: nat, n: nat)
    requires SpaceRun(run) && run != [] && 0 < n <= zeros
    ensures CutRun(TakeUnits(run + Zeros(zeros), n), run)
    decreases |run|
  {
    var w := LeadingSpace(run);
    TakeSpace(run, Zeros(zeros), n);
    if n == 1 {
      OneSpace(run);
    } else if run[w..] == [] {
      LastSpace(run, zeros, n);
    } else {
      TakeRun(run[w..], zeros, n - 1);
      RunExtends(run, TakeUnits(run[w..] + Zeros(zeros), n - 1));
    }
  }

  lemma OneSpace(run: Bytes)
    requires LeadingSpace(run) > 0
    ensures SpaceRun(run[..LeadingSpace(run)] + [])
  {
    var c := run[..LeadingSpace(run)];
    assert c + [] == c && c[|c|..] == [];
  }

  lemma LastSpace(run: Bytes, zeros: nat, n: nat)
    requires LeadingSpace(run) == |run| > 0 && 1 < n <= zeros
    ensures CutRun(run[..|run|] + TakeUnits(run[|run|..] + Zeros(zeros), n - 1), run)
  {
    TakeDigits(Zeros(zeros), [], n - 1);
    assert run[..|run|] == run && run[|run|..] + Zeros(zeros) == Zeros(zeros) + [];
    assert Zeros(zeros)[..n - 1] == Zeros(n - 1);
  }

  lemma RunExtends(run: Bytes, r: Bytes)
    requires LeadingSpace(run) > 0 && CutRun(r, run[LeadingSpace(run)..])
    ensures CutRun(run[..LeadingSpace(run)] + r, run)
  {
    var w := LeadingSpace(run);
    assert (run[..w] + r)[w..] == r;
    if z: nat :| z > 0 && r == run[w..] + Zeros(z) {
      assert run[..w] + r == run + Zeros(z);
    }
  }

  // ---------------------------------------------------------------- one amount

  /** An amount as the ledger sum sees it: a numeral between white space. */
  ghost predicate Spelled(d: Bytes, lead: Bytes, n: Numeral, trail: Bytes) {
    && SpaceRun(lead) && SpaceRun(trail)
    && AllDigits(n.whole) && n.whole != [] && AllDigits(FracDigits(n)) && (n.frac.Some? ==> n.frac.value != [])
    && d == lead + Written(n) + trail
  }

  function Written(n: Numeral): Bytes {
    n.whole + (if n.frac.Some? then [DOT] + n.frac.value else [])
  }

  lemma LedgerSpelling(d: Bytes) returns (lead: Bytes, trail: Bytes)
    requires Parse(Trim(d), false).Some?
    ensures Spelled(d, lead, Parse(Trim(d), false).value, trail)
  {
    lead, trail := Margins(d);
    ParsedText(Trim(d));
  }

  lemma Margins(d: Bytes) returns (lead: Bytes, trail: Bytes)
    ensures SpaceRun(lead) && SpaceRun(trail) && d == lead + Trim(d) + trail
  {
    lead := MarginBefore(d);
    trail := MarginAfter(TrimStart(d));
    ThreeParts(lead, Trim(d), trail);
  }

  lemma MarginBefore(d: Bytes) returns (lead: Bytes)
    ensures SpaceRun(lead) && d == lead + TrimStart(d)
  {
    TrimStartCuts(d);
    lead := d[..|d| - |TrimStart(d)|];
  }

  lemma MarginAfter(d: Bytes) returns (trail: Bytes)
    ensures SpaceRun(trail) && d == TrimEnd(d) + trail
  {
    TrimEndCuts(d);
    trail := d[|TrimEnd(d)|..];
  }

  lemma ThreeParts(a: Bytes, b: Bytes, c: Bytes)
    ensures a + (b + c) == a + b + c
  {
  }

  lemma ParsedText(t: Bytes)
    requires Parse(t, false).Some?
    ensures var n := Parse(t, false).value;
            t == Written(n) && AllDigits(n.whole) && n.whole != [] && AllDigits(FracDigits(n))
            && (n.frac.Some? ==> n.frac.value != [])
  {
  }

  lemma {:induction false} DotAfter(a: Bytes, b: Bytes)
    requires forall i | 0 <= i < |a| :: a[i] != DOT
    ensures FindDot(a + [DOT] + b) == |a|
    ensures FindDot(a) == |a|
  {
    if a != [] {
      DotAfter(a[1..], b);
      assert (a + [DOT] + b)[1..] == a[1..] + [DOT] + b;
    }
  }

  lemma DotSplit(d: Bytes, a: Bytes, rest: Bytes)
    requires d == a + [DOT] + rest
    requires (forall i | 0 <= i < |a| :: a[i] != DOT) && (forall i | 0 <= i < |rest| :: rest[i] != DOT)
    ensures FindDot(d) == |a| && d[..|a|] == a && d[|a| + 1..] == rest && FindDot(rest) == |rest|
  {
    DotAfter(a, rest);
    DotAfter(rest, []);
  }

  lemma NoDots(a: Bytes, b: Bytes)
    requires (forall i | 0 <= i < |a| :: a[i] != DOT) && (forall i | 0 <= i < |b| :: b[i] != DOT)
    ensures forall i | 0 <= i < |a + b| :: (a + b)[i] != DOT
  {
  }

  /** The two pieces of an amount, cut at its dot. */
  lemma SplitAtDot(d: Bytes, lead: Bytes, n: Numeral, trail: Bytes)
    requires Spelled(d, lead, n, trail)
    ensures var a, rest := lead + n.whole, FracDigits(n) + trail;
            if n.frac.Some? then
              FindDot(d) == |a| < |d| && d[..|a|] == a && FindDot(rest) == |rest| && d[|a| + 1..] == rest
            else FindDot(d) == |d| && d == a + trail
  {
    var a, rest := lead + n.whole, FracDigits(n) + trail;
    SpaceBytes(lead);
    SpaceBytes(trail);
    NoDots(lead, n.whole);
    NoDots(FracDigits(n), trail);
    Reassociated(lead, n, trail);
    if n.frac.Some? {
      DotSplit(d, a, rest);
    } else {
      NoDots(a, trail);
      DotAfter(d, []);
    }
  }

  lemma Reassociated(lead: Bytes, n: Numeral, trail: Bytes)
    ensures lead + Written(n) + trail
         == if n.frac.Some? then lead + n.whole + [DOT] + (FracDigits(n) + trail) else lead + n.whole + trail
  {
  }

  lemma NoSign(d: Bytes, lead: Bytes, n: Numeral, trail: Bytes)
    requires Spelled(d, lead, n, trail)
    ensures d != [] && d[0] != MINUS
  {
    SpaceBytes(lead);
    assert d[0] == if lead == [] then n.whole[0] else lead[0];
  }

  lemma TenZeros()
    ensures TakeUnits([] + Zeros(SCALE), SCALE) == Zeros(SCALE)
  {
    TakeDigits(Zeros(SCALE), [], SCALE);
    assert [] + Zeros(SCALE) == Zeros(SCALE) + [] && Zeros(SCALE)[..SCALE] == Zeros(SCALE);
  }

  /** What is left to be read as an integer. */
  lemma Scaled10Reads(d: Bytes, lead: Bytes, n: Numeral, trail: Bytes)
    requires Spelled(d, lead, n, trail)
    ensures Scaled10(d) == IntegerLiteral(lead + n.whole + Remainder(n, trail))
  {
    NoSign(d, lead, n, trail);
    SplitAtDot(d, lead, n, trail);
    if n.frac.Some? {
      DottedReads(d, lead + n.whole, FracDigits(n) + trail);
      ThreeParts(n.frac.value, trail, Zeros(SCALE));
    } else {
      UndottedReads(d);
      ThreeParts(lead + n.whole, trail, Zeros(SCALE));
    }
  }

  lemma DottedReads(d: Bytes, a: Bytes, rest: Bytes)
    requires d != [] && d[0] != MINUS && a != []
    requires FindDot(d) == |a| < |d| && d[..|a|] == a && d[|a| + 1..] == rest && FindDot(rest) == |rest|
    ensures Scaled10(d) == IntegerLiteral(a + TakeUnits(rest + Zeros(SCALE), SCALE))
  {
    assert rest[..|rest|] == rest;
  }

  lemma UndottedReads(d: Bytes)
    requires d != [] && d[0] != MINUS && FindDot(d) == |d|
    ensures Scaled10(d) == IntegerLiteral(d + Zeros(SCALE))
  {
    TenZeros();
    assert d[..|d|] == d;
  }

  /** What the rewards sum puts behind the whole digits. */
  function Remainder(n: Numeral, trail: Bytes): Bytes {
    if n.frac.None? then trail + Zeros(SCALE)
    else TakeUnits(n.frac.value + (trail + Zeros(SCALE)), SCALE)
  }

  /** No white space after the amount, or ten fraction digits, or nothing to lose. */
  predicate ReadAlike(d: Bytes)
    requires Reading(d).Some?
  {
    || TrimEnd(d) == d
    || |FracDigits(Parse(Trim(d), false).value)| >= SCALE
    || Reading(d).value == 0
  }

  /** The digits that the rewards sum reads in place of the ten it wants. */
  lemma ReadingSpelled(d: Bytes, n: Numeral)
    requires Reading(d).Some? && n == Parse(Trim(d), false).value
    ensures AllDigits(n.whole + FixedFraction(FracDigits(n)))
    ensures Reading(d).value == NatOf(n.whole + FixedFraction(FracDigits(n)))
  {
    UnitsIsPower();
    NatOfConcat(n.whole, FixedFraction(FracDigits(n)));
  }

  lemma NothingTrails(d: Bytes, lead: Bytes, n: Numeral, trail: Bytes)
    requires Spelled(d, lead, n, trail)
    ensures TrimEnd(d) == d <==> trail == []
  {
    var a := lead + Written(n);
    TrimEndRun(a, trail);
    assert IsDigit(a[|a| - 1]);
    NoTrailingSpace(a);
    assert trail == [] ==> d == a;
  }

  /** Without a dot, or with ten fraction digits or nothing behind them, what is put behind the
      whole digits is the ten fraction digits, or it is white space and then ten zeros. */
  lemma RemainderOf(n: Numeral, trail: Bytes)
    requires AllDigits(FracDigits(n)) && (|FracDigits(n)| >= SCALE || trail == [])
    ensures Remainder(n, trail) == FixedFraction(FracDigits(n))
  {
    var f := FracDigits(n);
    TakeDigits(f, trail + Zeros(SCALE), SCALE);
    if |f| < SCALE {
      var k := SCALE - |f|;
      assert trail + Zeros(SCALE) == Zeros(SCALE) && Zeros(SCALE) + [] == Zeros(SCALE) && Zeros(SCALE)[..k] == Zeros(k);
      TakeDigits(Zeros(SCALE), [], k);
    }
  }

  lemma TenDigitsRead(d: Bytes, lead: Bytes, n: Numeral, trail: Bytes, x: Bytes)
    requires Spelled(d, lead, n, trail) && (|FracDigits(n)| >= SCALE || trail == [])
    requires x == n.whole + FixedFraction(FracDigits(n)) && AllDigits(x)
    ensures Scaled10(d).Some? && Scaled10(d).value == NatOf(x)
  {
    Scaled10Reads(d, lead, n, trail);
    RemainderOf(n, trail);
    SpacedLiteral(lead, x, []);
    Regroup(lead, n.whole, FixedFraction(FracDigits(n)));
  }

  lemma Regroup(a: Bytes, b: Bytes, c: Bytes)
    ensures a + b + c == a + (b + c) + []
  {
  }

  /** With fewer, and white space behind them, the amount is refused or read without the zeros. */
  lemma ShortRead(d: Bytes, lead: Bytes, n: Numeral, trail: Bytes, x: Bytes)
    requires Spelled(d, lead, n, trail) && |FracDigits(n)| < SCALE && trail != []
    requires x == n.whole + FracDigits(n) && AllDigits(x)
    ensures Scaled10(d).Some? ==> n.frac.Some? && Scaled10(d).value == NatOf(x)
  {
    Scaled10Reads(d, lead, n, trail);
    if n.frac.None? {
      Padded(lead, n.whole, trail);
    } else {
      Shortened(lead, n.whole, n.frac.value, trail);
    }
  }

  lemma Padded(lead: Bytes, whole: Bytes, trail: Bytes)
    requires SpaceRun(lead) && SpaceRun(trail) && trail != [] && AllDigits(whole) && whole != []
    ensures IntegerLiteral(lead + whole + (trail + Zeros(SCALE))).None?
  {
    BrokenLiteral(lead, whole, trail, Zeros(SCALE));
    assert lead + whole + trail + Zeros(SCALE) == lead + whole + (trail + Zeros(SCALE));
  }

  lemma Shortened(lead: Bytes, whole: Bytes, f: Bytes, trail: Bytes)
    requires SpaceRun(lead) && SpaceRun(trail) && trail != []
    requires AllDigits(whole) && whole != [] && AllDigits(f) && |f| < SCALE && AllDigits(whole + f)
    ensures var v := IntegerLiteral(lead + whole + TakeUnits(f + (trail + Zeros(SCALE)), SCALE));
            v.Some? ==> v.value == NatOf(whole + f)
  {
    var r := TakeUnits(trail + Zeros(SCALE), SCALE - |f|);
    TakeDigits(f, trail + Zeros(SCALE), SCALE);
    TakeRun(trail, SCALE, SCALE - |f|);
    ShortLiteral(lead, whole + f, trail, r);
    Regroup4(lead, whole, f, r);
  }

  lemma Regroup4(a: Bytes, b: Bytes, c: Bytes, d: Bytes)
    ensures a + b + (c + d) == a + (b + c) + d
  {
  }

  lemma ShortLiteral(lead: Bytes, x: Bytes, trail: Bytes, r: Bytes)
    requires SpaceRun(lead) && SpaceRun(trail) && trail != [] && AllDigits(x) && x != [] && CutRun(r, trail)
    ensures var v := IntegerLiteral(lead + x + r); v.Some? ==> v.value == NatOf(x)
  {
    if SpaceRun(r) {
      SpacedLiteral(lead, x, r);
    } else {
      var z: nat :| z > 0 && r == trail + Zeros(z);
      BrokenLiteral(lead, x, trail, Zeros(z));
      assert lead + x + r == lead + x + trail + Zeros(z);
    }
  }

  /** Leaving out the zeros leaves the value alone only when it is zero. */
  lemma ZerosMatter(x: Bytes, f: Bytes)
    requires AllDigits(x) && AllDigits(f) && |f| < SCALE
    requires AllDigits(x + f) && AllDigits(x + FixedFraction(f))
    ensures NatOf(x + f) <= NatOf(x + FixedFraction(f))
    ensures NatOf(x + f) == NatOf(x + FixedFraction(f)) <==> NatOf(x + FixedFraction(f)) == 0
  {
    var k := SCALE - |f|;
    assert x + FixedFraction(f) == (x + f) + Zeros(k);
    NatOfConcat(x + f, Zeros(k));
    NatOfZeros(k);
    GrowsTenfold(NatOf(x + f), Pow10(k - 1));
  }

  lemma GrowsTenfold(v: nat, p: nat)
    requires p > 0
    ensures v * (10 * p) >= v && (v * (10 * p) == v <==> v == 0)
  {
    if v > 0 {
      assert v * (10 * p) == 10 * (v * p) && v * p >= v;
    }
  }

  /** On an amount that both sums accept they read the same number exactly when no white space
      follows it, or it has ten fraction digits, or it is zero; else the rewards sum reads less. */
  lemma ReadsAlikeExactly(d: Bytes)
    requires Reading(d).Some? && Scaled10(d).Some?
    ensures Scaled10(d).value == Reading(d).value <==> ReadAlike(d)
    ensures 0 <= Scaled10(d).value <= Reading(d).value
  {
    var n := Parse(Trim(d), false).value;
    var f := FracDigits(n);
    var lead, trail := LedgerSpelling(d);
    ReadingSpelled(d, n);
    NothingTrails(d, lead, n, trail);
    if |f| >= SCALE || trail == [] {
      TenDigitsRead(d, lead, n, trail, n.whole + FixedFraction(f));
    } else {
      ShortRead(d, lead, n, trail, n.whole + f);
      ZerosMatter(n.whole, f);
    }
  }

  /** The rewards sum refuses no amount that the ledger sum accepts, unless white space follows it. */
  lemma UnpaddedIsRead(d: Bytes)
    requires Reading(d).Some? && (TrimEnd(d) == d || |FracDigits(Parse(Trim(d), false).value)| >= SCALE)
    ensures Scaled10(d).Some?
  {
    var n := Parse(Trim(d), false).value;
    var lead, trail := LedgerSpelling(d);
    ReadingSpelled(d, n);
    NothingTrails(d, lead, n, trail);
    TenDigitsRead(d, lead, n, trail, n.whole + FixedFraction(FracDigits(n)));
  }

  /** Nine fraction digits and a space: both sums accept, and the rewards sum reads a tenth. */
  lemma TenthOfTheAmount()
    ensures var d := Ascii("1.234567890 ");
            && Reading(d).Some? && Reading(d).value == 12345678900
            && Scaled10(d).Some? && Scaled10(d).value == 1234567890
  {
    var whole, f, d := Ascii("1"), Ascii("234567890"), Ascii("1.234567890 ");
    SpelledOut(whole, f, d);
    NineDigitsRead(d, whole, f);
    NineDigitsScaled(d, whole, f);
    ElevenDigits(whole + f + [ZERO]);
  }

  lemma SpelledOut(whole: Bytes, f: Bytes, d: Bytes)
    requires whole == Ascii("1") && f == Ascii("234567890") && d == Ascii("1.234567890 ")
    ensures AllDigits(whole) && |whole| == 1 && AllDigits(f) && |f| == 9 && d == whole + [DOT] + f + [32]
    ensures whole + f + [ZERO] == Ascii("12345678900") && (whole + f + [ZERO])[..10] == whole + f
  {
  }

  lemma NineDigitsRead(d: Bytes, whole: Bytes, f: Bytes)
    requires AllDigits(whole) && whole != [] && AllDigits(f) && |f| == 9 && d == whole + [DOT] + f + [32]
    ensures Reading(d).Some? && AllDigits(whole + f + [ZERO]) && Reading(d).value == NatOf(whole + f + [ZERO])
  {
    NineDigitsAndSpace(d, whole, f);
    assert FixedFraction(f) == f + [ZERO] && whole + (f + [ZERO]) == whole + f + [ZERO];
    ReadingSpelled(d, Numeral(whole, Some(f)));
  }

  lemma NineDigitsAndSpace(d: Bytes, whole: Bytes, f: Bytes)
    requires AllDigits(whole) && whole != [] && AllDigits(f) && |f| == 9 && d == whole + [DOT] + f + [32]
    ensures Parse(Trim(d), false) == Some(Numeral(whole, Some(f))) && Reading(d).Some?
  {
    var core := whole + [DOT] + f;
    assert d == [] + core + [32] && [32][1..] == [];
    TrimSpaced([], core, [32]);
    DotSplit(core, whole, f);
  }

  lemma NineDigitsScaled(d: Bytes, whole: Bytes, f: Bytes)
    requires AllDigits(whole) && whole != [] && AllDigits(f) && |f| == 9 && d == whole + [DOT] + f + [32]
    ensures AllDigits(whole + f) && Scaled10(d).Some? && Scaled10(d).value == NatOf(whole + f)
  {
    var n := Numeral(whole, Some(f));
    OneBlank();
    assert [] + Written(n) + [32] == d;
    Scaled10Reads(d, [], n, [32]);
    TakeDigits(f, [32] + Zeros(SCALE), SCALE);
    SpacedLiteral([], whole + f, [32]);
    Regroup4([], whole, f, [32]);
  }

  lemma OneBlank()
    ensures SpaceRun([]) && SpaceRun([32]) && TakeUnits([32] + Zeros(SCALE), 1) == [32]
  {
    assert [32][1..] == [] && [32][..1] == [32];
    TakeSpace([32], Zeros(SCALE), 1);
  }

  lemma NextDigit(s: Bytes, k: nat, v: nat)
    requires k < |s| && AllDigits(s) && NatOf(s[..k]) == v
    ensures NatOf(s[..k + 1]) == 10 * v + (s[k] - ZERO)
  {
    assert s[..k + 1][..k] == s[..k];
  }

  lemma FiveDigits(s: Bytes)
    requires s == Ascii("12345678900")
    ensures AllDigits(s) && NatOf(s[..5]) == 12345
  {
    NextDigit(s, 0, 0);
    NextDigit(s, 1, 1);
    NextDigit(s, 2, 12);
    NextDigit(s, 3, 123);
    NextDigit(s, 4, 1234);
  }

  lemma ElevenDigits(s: Bytes)
    requires s == Ascii("12345678900")
    ensures AllDigits(s) && NatOf(s[..10]) == 1234567890 && NatOf(s) == 12345678900
  {
    FiveDigits(s);
    NextDigit(s, 5, 12345);
    NextDigit(s, 6, 123456);
    NextDigit(s, 7, 1234567);
    NextDigit(s, 8, 12345678);
    NextDigit(s, 9, 123456789);
    NextDigit(s, 10, 1234567890);
    assert s[..11] == s;
  }

  // ----------------------------------------------------------------- the sums

  lemma {:induction false} SumsCompared(low: seq<Option<int>>, high: seq<Option<int>>)
    requires |low| == |high| && SumOf(low).Some? && SumOf(high).Some?
    requires forall i | 0 <= i < |low| :: low[i].Some? && high[i].Some? && low[i].value <= high[i].value
    ensures SumOf(low).value <= SumOf(high).value
    ensures SumOf(low) == SumOf(high) <==> forall i | 0 <= i < |low| :: low[i] == high[i]
  {
    if low != [] {
      var k := |low| - 1;
      SumsCompared(low[..k], high[..k]);
      assert (forall i | 0 <= i < |low| :: low[i] == high[i])
        <==> low[k] == high[k] && forall i | 0 <= i < k :: low[..k][i] == high[..k][i];
    }
  }

  lemma FormatIsInjective(a: nat, b: nat)
    ensures Format(a) == Format(b) <==> a == b
  {
    FormatAtomic(a);
    FormatAtomic(b);
    NatOfDigits(a);
    NatOfDigits(b);
  }

  predicate AllAlike(amounts: seq<Bytes>) {
    forall i | 0 <= i < |amounts| :: Reading(amounts[i]).Some? && ReadAlike(amounts[i])
  }

  lemma ReadingsCompared(amounts: seq<Bytes>)
    requires forall i | 0 <= i < |amounts| :: Reading(amounts[i]).Some? && Scaled10(amounts[i]).Some?
    ensures var low, high := Readings10(amounts), Readings(amounts);
            && (forall i | 0 <= i < |low| :: low[i].Some? && high[i].Some? && 0 <= low[i].value <= high[i].value)
            && ((forall i | 0 <= i < |low| :: low[i] == high[i]) <==> AllAlike(amounts))
  {
    var low, high := Readings10(amounts), Readings(amounts);
    forall i | 0 <= i < |amounts|
      ensures low[i].Some? && high[i].Some? && 0 <= low[i].value <= high[i].value
      ensures low[i] == high[i] <==> ReadAlike(amounts[i])
    {
      ReadsAlikeExactly(amounts[i]);
    }
  }

  lemma PrintedAlike(low: int, high: int)
    requires 0 <= low && 0 <= high
    ensures FormatSigned(low) == Format(high) <==> low == high
  {
    FormatsAgree(low);
    FormatIsInjective(low, high);
  }

  /** On amounts that both accept, the rewards sum prints what the ledger sum prints exactly
      when each amount is one that both read alike. */
  lemma RewardSumAgrees(amounts: seq<Bytes>)
    requires SumOfValues(amounts).Some? && SumOf(Readings10(amounts)).Some?
    ensures FormatSigned(SumOf(Readings10(amounts)).value) == Format(SumOfValues(amounts).value) <==> AllAlike(amounts)
  {
    var low, high := Readings10(amounts), Readings(amounts);
    SummandsAccepted(low);
    SummandsAccepted(high);
    ReadingsAccepted(amounts);
    ReadingsCompared(amounts);
    SumsCompared(low, high);
    SumOfNats(low);
    PrintedAlike(SumOf(low).value, SumOf(high).value);
  }

  lemma ReadingsAccepted(amounts: seq<Bytes>)
    requires forall i | 0 <= i < |amounts| :: Readings(amounts)[i].Some? && Readings10(amounts)[i].Some?
    ensures forall i | 0 <= i < |amounts| :: Reading(amounts[i]).Some? && Scaled10(amounts[i]).Some?
  {
    forall i | 0 <= i < |amounts|
      ensures Reading(amounts[i]).Some? && Scaled10(amounts[i]).Some?
    {
      assert Readings(amounts)[i].Some? && Readings10(amounts)[i].Some?;
    }
  }
}
