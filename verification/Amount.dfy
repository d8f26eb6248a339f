/** Ledger decimals and atomic units: 1 CC is 10^10 atomic units. */
module Amount {
  import opened Results
  import opened Wire
  import opened Text

  const SCALE: nat := 10
  const UNITS: nat := 10_000_000_000

  lemma UnitsIsPower()
    ensures Pow10(SCALE) == UNITS
  {
    assert Pow10(5) == 100_000;
    Pow10Sum(5, 5);
  }

  /** A decimal numeral: digits, and the digits after a dot if there is one. */
  datatype Numeral = Numeral(whole: Bytes, frac: Option<Bytes>)

  function FracDigits(n: Numeral): Bytes {
    if n.frac.Some? then n.frac.value else []
  }

  function FindDot(s: Bytes): (k: nat)
    ensures k <= |s|
    ensures k < |s| ==> s[k] == DOT
    ensures DOT !in s[..k]
  {
    if s == [] || s[0] == DOT then 0
    else
      var k := 1 + FindDot(s[1..]);
      assert s[..k] == [s[0]] + s[1..][..k - 1];
      k
  }

  /** Digits, optionally a dot and more digits. */
  function Parse(t: Bytes, emptyFraction: bool): (r: Option<Numeral>)
    ensures r.Some? ==> AllDigits(r.value.whole) && r.value.whole != [] && AllDigits(FracDigits(r.value))
  {
    var k := FindDot(t);
    if k == 0 || !AllDigits(t[..k]) then None
    else if k == |t| then Some(Numeral(t, None))
    else if AllDigits(t[k + 1..]) && (emptyFraction || k + 1 < |t|) then Some(Numeral(t[..k], Some(t[k + 1..])))
    else None
  }

  /** The numeral's digits without its dot; its value is this over 10^(fraction digits). */
  function Unscaled(n: Numeral): nat
    requires AllDigits(n.whole) && AllDigits(FracDigits(n))
  {
    NatOf(n.whole) * Pow10(|FracDigits(n)|) + NatOf(FracDigits(n))
  }

  /** `atomic` is the numeral's value times 10^10, exactly. */
  predicate IsAtomicValue(atomic: nat, n: Numeral)
    requires AllDigits(n.whole) && AllDigits(FracDigits(n))
  {
    atomic * Pow10(|FracDigits(n)|) == Unscaled(n) * UNITS
  }

  function DropTrailingZeros(s: Bytes): (r: Bytes)
    requires AllDigits(s)
    ensures |r| <= |s| && r == s[..|r|]
    ensures r != [] ==> r[|r| - 1] != ZERO
    ensures forall i | |r| <= i < |s| :: s[i] == ZERO
  {
    if s == [] || s[|s| - 1] != ZERO then s else DropTrailingZeros(s[..|s| - 1])
  }

  function AtomicOf(n: Numeral): (r: Option<nat>)
    requires AllDigits(n.whole) && AllDigits(FracDigits(n))
  {
    var f := FracDigits(n);
    if |DropTrailingZeros(f)| > SCALE then None
    else Some(NatOf(n.whole) * UNITS + NatOf(FixedFraction(f)))
  }

  /** The first ten fraction digits, filled up with zeros. */
  function FixedFraction(f: Bytes): (r: Bytes)
    requires AllDigits(f)
    ensures AllDigits(r) && |r| == SCALE
  {
    PadEnd(if |f| > SCALE then f[..SCALE] else f, SCALE)
  }

  function DecimalToAtomic(dec: Bytes): Option<Bytes> {
    var n := Parse(Trim(dec), false);
    if n.None? then None
    else
      var a := AtomicOf(n.value);
      if a.None? then None else Some(Digits(a.value))
  }

  function Format(atomic: nat): Bytes {
    FormatParts(atomic / UNITS, atomic % UNITS)
  }

  function AtomicToDecimal(atomic: Bytes): Option<Bytes> {
    var t := Trim(atomic);
    if t == [] || !AllDigits(t) then None else Some(Format(NatOf(t)))
  }

  // ------------------------------------------------------------------ exactness

  lemma {:induction false} NatOfTrailing(s: Bytes, k: nat)
    requires AllDigits(s) && k <= |s| && forall i | k <= i < |s| :: s[i] == ZERO
    ensures NatOf(s) == NatOf(s[..k]) * Pow10(|s| - k)
  {
    var tail := s[k..];
    assert s == s[..k] + tail && tail == Zeros(|s| - k);
    NatOfZeros(|s| - k);
    NatOfConcat(s[..k], tail);
  }

  lemma FixedFractionValue(f: Bytes)
    requires AllDigits(f) && |DropTrailingZeros(f)| <= SCALE
    ensures NatOf(FixedFraction(f)) * Pow10(|f|) == NatOf(f) * UNITS
  {
    UnitsIsPower();
    if |f| <= SCALE {
      PaddedFractionValue(f);
    } else {
      TruncatedFractionValue(f);
    }
  }

  lemma TruncatedFractionValue(f: Bytes)
    requires AllDigits(f) && |f| > SCALE && |DropTrailingZeros(f)| <= SCALE
    ensures NatOf(f[..SCALE]) * Pow10(|f|) == NatOf(f) * Pow10(SCALE)
  {
    NatOfTrailing(f, SCALE);
    Pow10Sum(|f| - SCALE, SCALE);
    Reassociate(NatOf(f[..SCALE]), Pow10(|f| - SCALE), Pow10(SCALE));
  }

  lemma PaddedFractionValue(f: Bytes)
    requires AllDigits(f) && |f| <= SCALE
    ensures NatOf(PadEnd(f, SCALE)) * Pow10(|f|) == NatOf(f) * Pow10(SCALE)
  {
    var pad := SCALE - |f|;
    PaddedValue(f, pad);
    Pow10Sum(pad, |f|);
    ThreeFactors(NatOf(PadEnd(f, SCALE)), NatOf(f), Pow10(pad), Pow10(|f|), Pow10(SCALE));
  }

  lemma PaddedValue(f: Bytes, pad: nat)
    requires AllDigits(f) && |f| + pad == SCALE
    ensures NatOf(PadEnd(f, SCALE)) == NatOf(f) * Pow10(pad)
  {
    NatOfZeros(pad);
    NatOfConcat(f, Zeros(pad));
    assert PadEnd(f, SCALE) == f + Zeros(pad);
  }

  lemma ThreeFactors(x: nat, a: nat, p: nat, q: nat, s: nat)
    requires x == a * p && s == p * q
    ensures x * q == a * s
  {
    Reassociate(a, p, q);
  }

  lemma Reassociate(a: nat, b: nat, c: nat)
    ensures (a * b) * c == a * (b * c)
  {
  }

  lemma Distribute(a: nat, b: nat, c: nat)
    ensures (a + b) * c == a * c + b * c
  {
  }

  lemma Swap(a: nat, b: nat, c: nat)
    ensures (a * b) * c == (a * c) * b
  {
  }

  lemma AtomicIsExact(n: Numeral)
    requires AllDigits(n.whole) && AllDigits(FracDigits(n))
    requires AtomicOf(n).Some?
    ensures IsAtomicValue(AtomicOf(n).value, n)
  {
    var f := FracDigits(n);
    var w, m, s := NatOf(n.whole), Pow10(|f|), UNITS;
    FixedFractionValue(f);
    Distribute(w * s, NatOf(FixedFraction(f)), m);
    Distribute(w * m, NatOf(f), s);
    Swap(w, s, m);
  }

  /** Ten or fewer significant fraction digits is the same as having an atomic value. */
  lemma AtomicRefusesOnlyInexact(n: Numeral, a: nat)
    requires AllDigits(n.whole) && AllDigits(FracDigits(n))
    requires IsAtomicValue(a, n)
    ensures AtomicOf(n) == Some(a)
  {
    var f := FracDigits(n);
    var t := DropTrailingZeros(f);
    if |t| > SCALE {
      SignificantDigitsRemain(NatOf(n.whole), f, a);
    } else {
      AtomicIsExact(n);
      Cancel(a, AtomicOf(n).value, Pow10(|f|));
    }
  }

  lemma Cancel(a: nat, b: nat, c: nat)
    requires c > 0 && a * c == b * c
    ensures a == b
  {
  }

  lemma Divide(a: nat, p: nat, q: nat, r: nat, w: nat, t: nat, n: nat)
    requires q > 0 && r > 0
    requires a * ((p * q) * r) == (w * (t * q) + n * q) * r
    ensures a * p == w * t + n
  {
    Reassociate(a, p * q, r);
    Cancel(a * (p * q), w * (t * q) + n * q, r);
    Reassociate(a, p, q);
    Reassociate(w, t, q);
    Distribute(w * t, n, q);
    Cancel(a * p, w * t + n, q);
  }

  lemma SignificantDigitsRemain(w: nat, f: Bytes, a: nat)
    requires AllDigits(f) && |DropTrailingZeros(f)| > SCALE
    ensures a * Pow10(|f|) != (w * Pow10(|f|) + NatOf(f)) * UNITS
  {
    var t := DropTrailingZeros(f);
    NatOfTrailing(f, |t|);
    NotWhole(a, w, NatOf(f), NatOf(t[..|t| - 1]), t[|t| - 1] - ZERO, |t|, |f| - |t|);
  }

  /** A numeral whose last significant digit lies past the tenth place is no whole number of units. */
  lemma NotWhole(a: nat, w: nat, value: nat, head: nat, last: nat, places: nat, zeros: nat)
    requires places > SCALE && 0 < last < 10 && value == (10 * head + last) * Pow10(zeros)
    ensures a * Pow10(places + zeros) != (w * Pow10(places + zeros) + value) * UNITS
  {
    var high, p := places - SCALE, Pow10(places + zeros);
    PowerParts(high, zeros);
    Pow10Sum(places, zeros);
    if a * p == (w * p + value) * UNITS {
      Divide(a, Pow10(high), Pow10(zeros), UNITS, w, Pow10(places), 10 * head + last);
      LastDigitSurvives(a, Pow10(high - 1), w, Pow10(places - 1), head, last);
    }
  }

  lemma PowerParts(high: nat, low: nat)
    ensures Pow10(high + SCALE + low) == (Pow10(high) * Pow10(low)) * UNITS
  {
    UnitsIsPower();
    Pow10Sum(high, low);
    Pow10Sum(high + low, SCALE);
  }

  lemma LastDigitSurvives(a: nat, p: nat, w: nat, q: nat, head: nat, last: nat)
    requires 0 < last < 10
    ensures a * (10 * p) != w * (10 * q) + (10 * head + last)
  {
    assert a * (10 * p) == 10 * (a * p) && w * (10 * q) == 10 * (w * q);
  }

  /** The conversion yields the value times 10^10 or refuses, and it refuses exactly
      the malformed inputs and those whose value is not a whole number of atomic units. */
  lemma DecimalToAtomicExact(dec: Bytes)
    ensures var n := Parse(Trim(dec), false);
            DecimalToAtomic(dec).Some? <==> n.Some? && exists a: nat :: IsAtomicValue(a, n.value)
    ensures DecimalToAtomic(dec).Some? ==>
              AllDigits(DecimalToAtomic(dec).value)
              && IsAtomicValue(NatOf(DecimalToAtomic(dec).value), Parse(Trim(dec), false).value)
  {
    var n := Parse(Trim(dec), false);
    if n.Some? {
      if a: nat :| IsAtomicValue(a, n.value) {
        AtomicRefusesOnlyInexact(n.value, a);
      }
      if AtomicOf(n.value).Some? {
        AtomicIsExact(n.value);
        NatOfDigits(AtomicOf(n.value).value);
      }
    }
  }

  // ----------------------------------------------------------------- round trips

  /** `q` whole units and `r` atomic units, written with ten fraction digits. */
  function FormatParts(q: nat, r: nat): Bytes {
    Digits(q) + [DOT] + PadStart(Digits(r), SCALE)
  }

  lemma FormatParses(q: nat, r: nat)
    requires r < UNITS
    ensures Trim(FormatParts(q, r)) == FormatParts(q, r)
    ensures Parse(FormatParts(q, r), false) == Some(Numeral(Digits(q), Some(PadStart(Digits(r), SCALE))))
  {
    UnitsIsPower();
    DigitsLength(r, SCALE);
    DotAfterDigits(Digits(q), PadStart(Digits(r), SCALE));
    NothingToTrim(FormatParts(q, r));
  }

  lemma {:induction false} DotAfterDigits(whole: Bytes, rest: Bytes)
    requires AllDigits(whole)
    ensures FindDot(whole + [DOT] + rest) == |whole|
    ensures (whole + [DOT] + rest)[..|whole|] == whole
    ensures (whole + [DOT] + rest)[|whole| + 1..] == rest
  {
    var s := whole + [DOT] + rest;
    if whole != [] {
      DotAfterDigits(whole[1..], rest);
      assert s[1..] == whole[1..] + [DOT] + rest;
    }
  }

  lemma NothingToTrim(s: Bytes)
    requires s != [] && IsDigit(s[0]) && IsDigit(s[|s| - 1])
    ensures Trim(s) == s
  {
    NoLeadingSpace(s);
    NoTrailingSpace(s);
  }

  lemma NoLeadingSpace(s: Bytes)
    requires s != [] && IsDigit(s[0])
    ensures LeadingSpace(s) == 0
  {
  }

  lemma NoTrailingSpace(s: Bytes)
    requires s != [] && IsDigit(s[|s| - 1])
    ensures TrailingSpace(s) == 0
  {
  }

  /** Atomic to decimal and back is the shortest numeral of the same amount. */
  lemma AtomicRoundTrip(atomic: Bytes)
    requires AtomicToDecimal(atomic).Some?
    ensures DecimalToAtomic(AtomicToDecimal(atomic).value) == Some(Digits(NatOf(Trim(atomic))))
  {
    var n := NatOf(Trim(atomic));
    FormatAtomic(n);
  }

  lemma FormatAtomic(n: nat)
    ensures DecimalToAtomic(Format(n)) == Some(Digits(n))
  {
    FormatIsParts(n);
    PartsAtomic(n / UNITS, n % UNITS, n);
  }

  lemma FormatIsParts(n: nat)
    ensures Format(n) == FormatParts(n / UNITS, n % UNITS) && n / UNITS * UNITS + n % UNITS == n
  {}

  lemma PartsAtomic(q: nat, r: nat, a: nat)
    requires r < UNITS && a == q * UNITS + r
    ensures DecimalToAtomic(FormatParts(q, r)) == Some(Digits(a))
  {
    FormatParses(q, r);
    var n := PartsRecombine(q, r, a);
    AtomicOfParsed(FormatParts(q, r), n, a);
  }

  lemma AtomicOfParsed(t: Bytes, n: Numeral, a: nat)
    requires Trim(t) == t && Parse(t, false) == Some(n) && AtomicOf(n) == Some(a)
    ensures DecimalToAtomic(t) == Some(Digits(a))
  {
  }

  lemma PartsRecombine(q: nat, r: nat, a: nat) returns (n: Numeral)
    requires r < UNITS && a == q * UNITS + r
    ensures n == Numeral(Digits(q), Some(PadStart(Digits(r), SCALE)))
    ensures AllDigits(n.whole) && AllDigits(FracDigits(n)) && AtomicOf(n) == Some(a)
  {
    UnitsIsPower();
    DigitsLength(r, SCALE);
    NatOfPadStart(Digits(r), SCALE);
    NatOfDigits(q);
    NatOfDigits(r);
    n := Numeral(Digits(q), Some(PadStart(Digits(r), SCALE)));
    FixedFractionAtomic(n.whole, n.frac.value);
  }

  lemma FixedFractionAtomic(whole: Bytes, frac: Bytes)
    requires AllDigits(whole) && AllDigits(frac) && |frac| == SCALE
    ensures AtomicOf(Numeral(whole, Some(frac))) == Some(NatOf(whole) * UNITS + NatOf(frac))
  {
    TenStay(frac);
    AtomicParts(Numeral(whole, Some(frac)), frac);
  }

  lemma AtomicParts(n: Numeral, g: Bytes)
    requires AllDigits(n.whole) && AllDigits(FracDigits(n)) && |FracDigits(n)| <= SCALE
    requires g == FixedFraction(FracDigits(n))
    ensures AtomicOf(n) == Some(NatOf(n.whole) * UNITS + NatOf(g))
  {
  }

  lemma TenStay(frac: Bytes)
    requires AllDigits(frac) && |frac| == SCALE
    ensures FixedFraction(frac) == frac
  {
  }

  /** So the round trip is exact on every canonical atomic numeral. */
  lemma CanonicalAtomicRoundTrip(atomic: Bytes)
    requires AllDigits(atomic) && atomic != [] && (|atomic| > 1 ==> atomic[0] != ZERO)
    ensures AtomicToDecimal(atomic).Some?
    ensures DecimalToAtomic(AtomicToDecimal(atomic).value) == Some(atomic)
  {
    NothingToTrim(atomic);
    AtomicRoundTrip(atomic);
    CanonicalDigits(atomic);
  }

  /** Decimal to atomic and back is the same amount written with ten fraction digits. */
  lemma DecimalRoundTrip(dec: Bytes)
    requires DecimalToAtomic(dec).Some?
    ensures var n := Parse(Trim(dec), false).value;
            AtomicToDecimal(DecimalToAtomic(dec).value)
            == Some(Digits(NatOf(n.whole)) + [DOT] + FixedFraction(FracDigits(n)))
  {
    var n := Parse(Trim(dec), false).value;
    var a := AtomicOf(n).value;
    NatOfDigits(a);
    NothingToTrim(Digits(a));
    PartsOfFraction(NatOf(n.whole), FixedFraction(FracDigits(n)));
    FormatOf(NatOf(n.whole), NatOf(FixedFraction(FracDigits(n))));
  }

  lemma PartsOfFraction(w: nat, frac: Bytes)
    requires AllDigits(frac) && |frac| == SCALE
    ensures NatOf(frac) < UNITS && FormatParts(w, NatOf(frac)) == Digits(w) + [DOT] + frac
  {
    PadRestores(frac);
  }

  lemma FormatOf(q: nat, r: nat)
    requires r < UNITS
    ensures Format(q * UNITS + r) == FormatParts(q, r)
  {
    QuotientRemainder(q, r);
  }

  lemma PadRestores(frac: Bytes)
    requires AllDigits(frac) && |frac| == SCALE
    ensures NatOf(frac) < UNITS && PadStart(Digits(NatOf(frac)), SCALE) == frac
  {
    var v := NatOf(frac);
    NatOfBound(frac);
    DigitsLength(v, SCALE);
    UnitsIsPower();
    NatOfDigits(v);
    NatOfPadStart(Digits(v), SCALE);
    SameValueSameDigits(PadStart(Digits(v), SCALE), frac);
  }

  lemma QuotientRemainder(q: nat, r: nat)
    requires r < UNITS
    ensures (q * UNITS + r) / UNITS == q && (q * UNITS + r) % UNITS == r
  {
  }

  // ------------------------------------------------------- comparing and summing

  /** The atomic value of an accepted decimal. */
  function ValueOf(dec: Bytes): (r: Option<nat>) {
    var n := Parse(Trim(dec), false);
    if n.None? then None else AtomicOf(n.value)
  }

  lemma AtomicIsValue(dec: Bytes)
    ensures DecimalToAtomic(dec).Some? <==> ValueOf(dec).Some?
    ensures ValueOf(dec).Some? ==>
              AllDigits(DecimalToAtomic(dec).value) && NatOf(DecimalToAtomic(dec).value) == ValueOf(dec).value
  {
    if ValueOf(dec).Some? {
      NatOfDigits(ValueOf(dec).value);
    }
  }

  function LedgerDecimalEquals(a: Bytes, b: Bytes): Option<bool> {
    var x, y := DecimalToAtomic(a), DecimalToAtomic(b);
    if x.None? || y.None? then None else Some(x.value == y.value)
  }

  /** Equality of the written forms of two amounts is equality of the amounts. */
  lemma EqualsIsValueEquality(a: Bytes, b: Bytes)
    ensures LedgerDecimalEquals(a, b)
         == if ValueOf(a).None? || ValueOf(b).None? then None else Some(ValueOf(a).value == ValueOf(b).value)
  {
    AtomicIsValue(a);
    AtomicIsValue(b);
  }

  /** The sum of a list of readings; nothing if one of them was refused. */
  function SumOf(vs: seq<Option<int>>): Option<int> {
    if vs == [] then Some(0)
    else
      var rest, last := SumOf(vs[..|vs| - 1]), vs[|vs| - 1];
      if rest.None? || last.None? then None else Some(rest.value + last.value)
  }

  lemma SumOfNext(vs: seq<Option<int>>, i: nat)
    requires i < |vs|
    ensures var rest := SumOf(vs[..i]);
            SumOf(vs[..i + 1]) == if rest.None? || vs[i].None? then None else Some(rest.value + vs[i].value)
  {
    assert vs[..i + 1][..i] == vs[..i];
  }

  lemma {:induction false} SumRefuses(vs: seq<Option<int>>, i: nat)
    requires i < |vs| && vs[i].None?
    ensures SumOf(vs).None?
  {
    if i < |vs| - 1 {
      SumRefuses(vs[..|vs| - 1], i);
    }
  }

  lemma {:induction false} SumOfNats(vs: seq<Option<int>>)
    requires forall i | 0 <= i < |vs| :: vs[i].Some? ==> vs[i].value >= 0
    ensures SumOf(vs).Some? ==> SumOf(vs).value >= 0
  {
    if vs != [] {
      SumOfNats(vs[..|vs| - 1]);
    }
  }

  function Reading(dec: Bytes): (r: Option<int>)
    ensures r.Some? ==> r.value >= 0
  {
    match ValueOf(dec) case None => None case Some(v) => Some(v)
  }

  function Readings(values: seq<Bytes>): (r: seq<Option<int>>)
    ensures |r| == |values|
  {
    seq(|values|, i requires 0 <= i < |values| => Reading(values[i]))
  }

  /** The exact sum of the amounts' atomic values. */
  function SumOfValues(values: seq<Bytes>): (r: Option<int>)
    ensures r.Some? ==> r.value >= 0
  {
    SumOfNats(Readings(values));
    SumOf(Readings(values))
  }

  method LedgerAtoms(dec: Bytes) returns (a: Option<nat>)
    ensures a.Some? <==> Reading(dec).Some?
    ensures a.Some? ==> Reading(dec) == Some(a.value)
  {
    AtomicIsValue(dec);
    var atomic := DecimalToAtomic(dec);
    a := if atomic.None? then None else Some(NatOf(atomic.value));
  }

  lemma DigitsFormat(n: nat)
    ensures AtomicToDecimal(Digits(n)) == Some(Format(n))
  {
    NatOfDigits(n);
    NothingToTrim(Digits(n));
  }

  /** The first `i` readings were accepted and add up to `sum`. */
  ghost predicate AddedUp(vs: seq<Option<int>>, i: nat, sum: int)
    requires i <= |vs|
  {
    SumOf(vs[..i]) == Some(sum)
  }

  lemma AddUpStep(vs: seq<Option<int>>, i: nat, sum: int)
    requires i < |vs| && AddedUp(vs, i, sum)
    ensures if vs[i].None? then SumOf(vs).None? else AddedUp(vs, i + 1, sum + vs[i].value)
  {
    SumOfNext(vs, i);
    if vs[i].None? {
      SumRefuses(vs, i);
    }
  }

  lemma AddUpDone(vs: seq<Option<int>>, sum: int)
    requires AddedUp(vs, |vs|, sum)
    ensures SumOf(vs) == Some(sum)
  {
    assert vs[..|vs|] == vs;
  }

  method AddUp(values: seq<Bytes>) returns (acc: Option<nat>)
    ensures acc.Some? <==> SumOf(Readings(values)).Some?
    ensures acc.Some? ==> SumOf(Readings(values)) == Some(acc.value)
  {
    var sum: nat := 0;
    ghost var vs := Readings(values);
    for i := 0 to |values|
      invariant AddedUp(vs, i, sum)
    {
      var a := LedgerAtoms(values[i]);
      assert vs[i] == Reading(values[i]);
      AddUpStep(vs, i, sum);
      if a.None? {
        return None;
      }
      sum := sum + a.value;
    }
    AddUpDone(vs, sum);
    acc := Some(sum);
  }

  method SumLedgerDecimals(values: seq<Bytes>) returns (r: Option<Bytes>)
    ensures r == if SumOfValues(values).None? then None else Some(Format(SumOfValues(values).value))
  {
    var acc := AddUp(values);
    if acc.None? {
      return None;
    }
    DigitsFormat(acc.value);
    r := AtomicToDecimal(Digits(acc.value));
  }

  /** The canonical ten-digit form used to compare a decoded amount with an intended
      one; anything that is not a numeral is returned untouched. */
  function CanonicalAmount(raw: Bytes): Bytes {
    var n := Parse(Trim(raw), true);
    if n.None? then raw else n.value.whole + [DOT] + PadEnd(FracDigits(n.value), SCALE)
  }

  /** Two numerals with one value: cross-multiplied, so without division. */
  predicate SameValue(a: Numeral, b: Numeral)
    requires AllDigits(a.whole) && AllDigits(FracDigits(a)) && AllDigits(b.whole) && AllDigits(FracDigits(b))
  {
    Unscaled(a) * Pow10(|FracDigits(b)|) == Unscaled(b) * Pow10(|FracDigits(a)|)
  }

  lemma CanonicalParses(raw: Bytes)
    requires Parse(Trim(raw), true).Some?
    ensures var n, c := Parse(Trim(raw), true).value, CanonicalAmount(raw);
            Trim(c) == c && Parse(c, true) == Some(Numeral(n.whole, Some(PadEnd(FracDigits(n), SCALE))))
  {
    var n := Parse(Trim(raw), true).value;
    DotAfterDigits(n.whole, PadEnd(FracDigits(n), SCALE));
    NothingToTrim(CanonicalAmount(raw));
  }

  lemma PaddedSameValue(whole: Bytes, f: Bytes, g: Bytes)
    requires AllDigits(whole) && AllDigits(f) && AllDigits(g)
    requires PadEnd(f, SCALE) == PadEnd(g, SCALE) && |f| <= |g|
    ensures NatOf(g) == NatOf(f) * Pow10(|g| - |f|)
  {
    assert g[..|f|] == f by {
      assert PadEnd(f, SCALE)[..|f|] == f && PadEnd(g, SCALE)[..|g|] == g;
    }
    assert forall i | |f| <= i < |g| :: g[i] == PadEnd(f, SCALE)[i];
    NatOfTrailing(g, |f|);
  }

  /** Equal canonical forms of a numeral and any text mean equal values. */
  lemma CanonicalEqualMeansSameValue(a: Bytes, b: Bytes)
    requires Parse(Trim(a), true).Some? && CanonicalAmount(a) == CanonicalAmount(b)
    ensures Parse(Trim(b), true).Some? && SameValue(Parse(Trim(a), true).value, Parse(Trim(b), true).value)
  {
    CanonicalParses(a);
    if Parse(Trim(b), true).Some? {
      CanonicalParses(b);
      PaddedNumeralsSameValue(Parse(Trim(a), true).value, Parse(Trim(b), true).value);
    }
  }

  lemma PaddedNumeralsSameValue(x: Numeral, y: Numeral)
    requires AllDigits(x.whole) && AllDigits(FracDigits(x)) && AllDigits(FracDigits(y))
    requires x.whole == y.whole && PadEnd(FracDigits(x), SCALE) == PadEnd(FracDigits(y), SCALE)
    ensures SameValue(x, y)
  {
    var f, g := FracDigits(x), FracDigits(y);
    if |f| <= |g| {
      PaddedSameValue([], f, g);
      Pow10Sum(|g| - |f|, |f|);
      CrossMultiply(NatOf(x.whole), Pow10(|f|), Pow10(|g|), Pow10(|g| - |f|), NatOf(f), NatOf(g));
    } else {
      PaddedSameValue([], g, f);
      Pow10Sum(|f| - |g|, |g|);
      CrossMultiply(NatOf(x.whole), Pow10(|g|), Pow10(|f|), Pow10(|f| - |g|), NatOf(g), NatOf(f));
    }
  }

  lemma CrossMultiply(w: nat, p: nat, q: nat, d: nat, x: nat, y: nat)
    requires q == d * p && y == x * d
    ensures (w * p + x) * q == (w * q + y) * p
  {
    Distribute(w * p, x, q);
    Distribute(w * q, y, p);
    Swap(w, p, q);
    Reassociate(x, d, p);
  }

  // ------------------------------------------- the two re-implemented decimal sums

  /** The atomic value the prepared-transfer sum reads: exactly ten canonical digits. */
  function Atoms(d: Bytes): Option<nat> {
    var n := Parse(CanonicalAmount(d), true);
    if n.None? then None else TenDigitAtoms(n.value)
  }

  function TenDigitAtoms(n: Numeral): Option<nat>
    requires AllDigits(n.whole) && AllDigits(FracDigits(n))
  {
    if n.frac.None? || |n.frac.value| != SCALE then None
    else Some(NatOf(n.whole) * UNITS + NatOf(n.frac.value))
  }

  /** At least eleven digits, a dot before the last ten. */
  function FormatEleven(n: nat): Bytes {
    var s := PadStart(Digits(n), SCALE + 1);
    s[..|s| - SCALE] + [DOT] + s[|s| - SCALE..]
  }

  function AddDecimals(x: Bytes, y: Bytes): Option<Bytes> {
    if Atoms(x).None? || Atoms(y).None? then None
    else Some(FormatEleven(Atoms(x).value + Atoms(y).value))
  }

  lemma SplitLastTen(s: Bytes)
    requires AllDigits(s) && |s| >= SCALE
    ensures NatOf(s) == NatOf(s[..|s| - SCALE]) * UNITS + NatOf(s[|s| - SCALE..])
  {
    assert s == s[..|s| - SCALE] + s[|s| - SCALE..];
    UnitsIsPower();
    NatOfConcat(s[..|s| - SCALE], s[|s| - SCALE..]);
  }

  /** Both ways of printing atomic units print the same text. */
  lemma FormatsAgree(n: nat)
    ensures FormatEleven(n) == Format(n)
  {
    var s := PadStart(Digits(n), SCALE + 1);
    var high, low := s[..|s| - SCALE], s[|s| - SCALE..];
    NatOfPadStart(Digits(n), SCALE + 1);
    NatOfDigits(n);
    SplitLastTen(s);
    PadRestores(low);
    CanonicalDigits(high);
    FormatOf(NatOf(high), NatOf(low));
  }

  /** A numeral accepted with fraction digits is accepted when they may be empty. */
  lemma ParseLoosely(t: Bytes)
    requires Parse(t, false).Some?
    ensures Parse(t, true) == Parse(t, false)
  {
  }

  lemma AtomsOfParsed(d: Bytes, whole: Bytes, frac: Bytes)
    requires AllDigits(whole) && AllDigits(frac)
    requires Parse(CanonicalAmount(d), true) == Some(Numeral(whole, Some(frac)))
    ensures Atoms(d) == if |frac| == SCALE then Some(NatOf(whole) * UNITS + NatOf(frac)) else None
  {
  }

  lemma AtomsAgree(d: Bytes)
    requires ValueOf(d).Some? && Atoms(d).Some?
    ensures Atoms(d) == ValueOf(d)
  {
    var n := Parse(Trim(d), false).value;
    ParseLoosely(Trim(d));
    CanonicalParses(d);
    AtomsOfNumeral(d, n);
  }

  lemma AtomsOfNumeral(d: Bytes, n: Numeral)
    requires AllDigits(n.whole) && AllDigits(FracDigits(n)) && Atoms(d).Some?
    requires Parse(CanonicalAmount(d), true) == Some(Numeral(n.whole, Some(PadEnd(FracDigits(n), SCALE))))
    ensures AtomicOf(n) == Atoms(d)
  {
    var frac := PadEnd(FracDigits(n), SCALE);
    AtomsOfParsed(d, n.whole, frac);
    PaddedToTen(FracDigits(n));
    AtomicShort(n, frac);
  }

  lemma PaddedToTen(f: Bytes)
    requires AllDigits(f) && |PadEnd(f, SCALE)| == SCALE
    ensures FixedFraction(f) == PadEnd(f, SCALE) && |DropTrailingZeros(f)| <= SCALE
  {
  }

  lemma AtomicShort(n: Numeral, frac: Bytes)
    requires AllDigits(n.whole) && AllDigits(FracDigits(n)) && AllDigits(frac)
    requires FixedFraction(FracDigits(n)) == frac && |DropTrailingZeros(FracDigits(n))| <= SCALE
    ensures AtomicOf(n) == Some(NatOf(n.whole) * UNITS + NatOf(frac))
  {
  }

  lemma {:induction false} SummandsAccepted(vs: seq<Option<int>>)
    requires SumOf(vs).Some?
    ensures forall i | 0 <= i < |vs| :: vs[i].Some?
  {
    if vs != [] {
      SummandsAccepted(vs[..|vs| - 1]);
    }
  }

  lemma SumOfTwo(vs: seq<Option<int>>)
    requires |vs| == 2 && vs[0].Some? && vs[1].Some?
    ensures SumOf(vs) == Some(vs[0].value + vs[1].value)
  {
    assert vs[..1] == [vs[0]] && [vs[0]][..0] == [];
    assert SumOf([vs[0]]) == vs[0];
  }

  lemma PairOfValues(x: Bytes, y: Bytes)
    requires SumOfValues([x, y]).Some?
    ensures ValueOf(x).Some? && ValueOf(y).Some?
    ensures SumOfValues([x, y]).value == Plus(ValueOf(x).value, ValueOf(y).value)
  {
    var vs := Readings([x, y]);
    SummandsAccepted(vs);
    assert vs[0] == Reading(x) && vs[1] == Reading(y);
    SumOfTwo(vs);
  }

  function Plus(a: nat, b: nat): nat {
    a + b
  }

  lemma AddsValues(x: Bytes, y: Bytes)
    requires ValueOf(x).Some? && ValueOf(y).Some? && AddDecimals(x, y).Some?
    ensures AddDecimals(x, y) == Some(Format(Plus(ValueOf(x).value, ValueOf(y).value)))
  {
    AtomsAgree(x);
    AtomsAgree(y);
    PrintedSum(x, y);
  }

  /** So does the prepared-transfer sum, on any two amounts both accept. */
  lemma AddDecimalsAgrees(x: Bytes, y: Bytes)
    requires SumOfValues([x, y]).Some? && AddDecimals(x, y).Some?
    ensures AddDecimals(x, y) == Some(Format(SumOfValues([x, y]).value))
  {
    PairOfValues(x, y);
    AddsValues(x, y);
  }

  lemma PrintedSum(x: Bytes, y: Bytes)
    requires AddDecimals(x, y).Some?
    ensures AddDecimals(x, y) == Some(Format(Plus(Atoms(x).value, Atoms(y).value)))
  {
    FormatsAgree(Atoms(x).value + Atoms(y).value);
  }
}
