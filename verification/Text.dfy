/** Text as UTF-8 bytes: constants, trimming, decimal numerals. */
module Text {
  import opened Wire

  const ZERO: Byte := 48
  const DOT: Byte := 46

  /** An ASCII constant as bytes. */
  function Ascii(s: string): (b: Bytes)
    ensures |b| == |s|
    ensures forall i | 0 <= i < |s| :: b[i] == s[i] as int % 128
  {
    seq(|s|, i requires 0 <= i < |s| => s[i] as int % 128)
  }

  // -------------------------------------------------------------- white space

  // The white space that string trimming removes, by the bytes of one character.

  predicate Space1(a: Byte) {
    9 <= a <= 13 || a == 32
  }

  predicate Space2(a: Byte, b: Byte) {
    a == 0xC2 && b == 0xA0
  }

  predicate Space3(a: Byte, b: Byte, c: Byte) {
    || (a == 0xE1 && b == 0x9A && c == 0x80)
    || (a == 0xE2 && b == 0x80 && (0x80 <= c <= 0x8A || c == 0xA8 || c == 0xA9 || c == 0xAF))
    || (a == 0xE2 && b == 0x81 && c == 0x9F)
    || (a == 0xE3 && b == 0x80 && c == 0x80)
    || (a == 0xEF && b == 0xBB && c == 0xBF)
  }

  /** The width of the white-space character at the front of `s`, or 0. */
  function LeadingSpace(s: Bytes): (n: nat)
    ensures n <= |s|
  {
    if |s| >= 1 && Space1(s[0]) then 1
    else if |s| >= 2 && Space2(s[0], s[1]) then 2
    else if |s| >= 3 && Space3(s[0], s[1], s[2]) then 3
    else 0
  }

  function TrailingSpace(s: Bytes): (n: nat)
    ensures n <= |s|
  {
    var k := |s|;
    if k >= 1 && Space1(s[k - 1]) then 1
    else if k >= 2 && Space2(s[k - 2], s[k - 1]) then 2
    else if k >= 3 && Space3(s[k - 3], s[k - 2], s[k - 1]) then 3
    else 0
  }

  function TrimStart(s: Bytes): Bytes
    decreases |s|
  {
    if LeadingSpace(s) == 0 then s else TrimStart(s[LeadingSpace(s)..])
  }

  function TrimEnd(s: Bytes): Bytes
    decreases |s|
  {
    if TrailingSpace(s) == 0 then s else TrimEnd(s[..|s| - TrailingSpace(s)])
  }

  function Trim(s: Bytes): Bytes {
    TrimEnd(TrimStart(s))
  }

  /** Nothing but white space. */
  predicate SpaceRun(s: Bytes)
    decreases |s|
  {
    s == [] || (LeadingSpace(s) > 0 && SpaceRun(s[LeadingSpace(s)..]))
  }

  lemma {:induction false} SpaceBytes(s: Bytes)
    requires SpaceRun(s)
    ensures forall i | 0 <= i < |s| :: s[i] != DOT
    ensures s != [] ==> !IsDigit(s[0]) && s[0] != 45
    decreases |s|
  {
    if s != [] {
      var w := LeadingSpace(s);
      SpaceBytes(s[w..]);
      forall i | 0 <= i < |s|
        ensures s[i] != DOT
      {
        assert i >= w ==> s[i] == s[w..][i - w];
      }
    }
  }

  lemma {:induction false} SpaceAppended(run: Bytes, c: Bytes)
    requires SpaceRun(run) && c != [] && LeadingSpace(c) == |c|
    ensures SpaceRun(run + c)
    decreases |run|
  {
    if run == [] {
      assert run + c == c && c[|c|..] == [];
    } else {
      var w := LeadingSpace(run);
      assert (run + c)[w..] == run[w..] + c;
      SpaceAppended(run[w..], c);
    }
  }

  /** Trimming at the front removes a run of white space, all there is. */
  lemma {:induction false} TrimStartCuts(s: Bytes)
    ensures var u := TrimStart(s);
            |u| <= |s| && u == s[|s| - |u|..] && SpaceRun(s[..|s| - |u|]) && LeadingSpace(u) == 0
    decreases |s|
  {
    var w := LeadingSpace(s);
    if w > 0 {
      TrimStartCuts(s[w..]);
      var lead := s[..|s| - |TrimStart(s)|];
      assert lead[w..] == s[w..][..|s| - w - |TrimStart(s)|];
    }
  }

  lemma CutTwice(s: Bytes, i: nat, j: nat)
    requires i <= j <= |s|
    ensures s[..j][..i] == s[..i] && s[i..] == s[..j][i..] + s[j..]
  {
  }

  lemma LastCharacter(s: Bytes)
    requires TrailingSpace(s) > 0
    ensures var c := s[|s| - TrailingSpace(s)..]; LeadingSpace(c) == |c|
  {
  }

  /** Putting back the white-space character that was trimmed last. */
  lemma TrimEndStep(s: Bytes, k: nat, u: Bytes)
    requires |u| <= k < |s| && LeadingSpace(s[k..]) == |s[k..]|
    requires u == s[..k][..|u|] && SpaceRun(s[..k][|u|..])
    ensures u == s[..|u|] && SpaceRun(s[|u|..])
  {
    CutTwice(s, |u|, k);
    SpaceAppended(s[..k][|u|..], s[k..]);
  }

  lemma {:induction false} TrimEndCuts(s: Bytes)
    ensures var u := TrimEnd(s);
            |u| <= |s| && u == s[..|u|] && SpaceRun(s[|u|..]) && TrailingSpace(u) == 0
    decreases |s|
  {
    var w := TrailingSpace(s);
    if w > 0 {
      TrimEndCuts(s[..|s| - w]);
      LastCharacter(s);
      TrimEndStep(s, |s| - w, TrimEnd(s));
    }
  }

  lemma {:induction false} TrimStartRun(run: Bytes, x: Bytes)
    requires SpaceRun(run)
    ensures TrimStart(run + x) == TrimStart(x)
    decreases |run|
  {
    if run == [] {
      assert run + x == x;
    } else {
      var w := LeadingSpace(run);
      assert (run + x)[w..] == run[w..] + x;
      TrimStartRun(run[w..], x);
    }
  }

  lemma {:induction false} TrimEndRun(x: Bytes, run: Bytes)
    requires SpaceRun(run)
    ensures TrimEnd(x + run) == TrimEnd(x)
    decreases |run|
  {
    if run == [] {
      assert x + run == x;
    } else {
      var w := LeadingSpace(run);
      assert x + run == (x + run[..w]) + run[w..];
      TrimEndRun(x + run[..w], run[w..]);
      assert TrailingSpace(x + run[..w]) == w && (x + run[..w])[..|x|] == x;
    }
  }

  // ------------------------------------------------------------------ numerals

  predicate IsDigit(b: Byte) {
    ZERO <= b <= ZERO + 9
  }

  predicate AllDigits(s: Bytes) {
    forall i :: 0 <= i < |s| ==> IsDigit(s[i])
  }

  function Pow10(n: nat): (p: nat)
    ensures p > 0
  {
    if n == 0 then 1 else 10 * Pow10(n - 1)
  }

  function NatOf(s: Bytes): nat
    requires AllDigits(s)
  {
    if s == [] then 0 else 10 * NatOf(s[..|s| - 1]) + (s[|s| - 1] - ZERO)
  }

  function Zeros(n: nat): (s: Bytes)
    ensures |s| == n && AllDigits(s)
  {
    seq(n, _ => ZERO)
  }

  /** The shortest decimal numeral of `n`. */
  function Digits(n: nat): (s: Bytes)
    ensures AllDigits(s) && s != []
    ensures n > 0 ==> s[0] != ZERO
  {
    if n < 10 then [ZERO + n] else Digits(n / 10) + [ZERO + n % 10]
  }

  function PadStart(s: Bytes, width: nat): (r: Bytes)
    ensures |r| >= width && |r| >= |s|
    ensures AllDigits(s) ==> AllDigits(r)
  {
    if |s| < width then Zeros(width - |s|) + s else s
  }

  function PadEnd(s: Bytes, width: nat): (r: Bytes)
    ensures |r| >= width && |r| >= |s|
    ensures AllDigits(s) ==> AllDigits(r)
  {
    if |s| < width then s + Zeros(width - |s|) else s
  }

  lemma {:induction false} NatOfDigits(n: nat)
    ensures NatOf(Digits(n)) == n
  {
    var s := Digits(n);
    if n >= 10 {
      NatOfDigits(n / 10);
      assert s[..|s| - 1] == Digits(n / 10);
    } else {
      assert s[..0] == [];
    }
  }

  lemma {:induction false} Pow10Sum(a: nat, b: nat)
    ensures Pow10(a + b) == Pow10(a) * Pow10(b)
  {
    if a > 0 {
      Pow10Sum(a - 1, b);
      assert Pow10(a + b) == 10 * Pow10(a - 1 + b);
      TenTimes(Pow10(a - 1), Pow10(b));
    }
  }

  lemma TenTimes(x: nat, y: nat)
    ensures (10 * x) * y == 10 * (x * y)
  {
  }

  lemma {:induction false} NatOfConcat(a: Bytes, b: Bytes)
    requires AllDigits(a) && AllDigits(b)
    ensures AllDigits(a + b) && NatOf(a + b) == NatOf(a) * Pow10(|b|) + NatOf(b)
  {
    if b == [] {
      assert a + b == a;
    } else {
      var k := |b| - 1;
      assert (a + b)[..|a + b| - 1] == a + b[..k];
      NatOfConcat(a, b[..k]);
      AppendDigit(NatOf(a + b[..k]), NatOf(a), Pow10(k), NatOf(b[..k]), b[k] - ZERO);
    }
  }

  lemma AppendDigit(whole: nat, x: nat, p: nat, y: nat, d: nat)
    requires whole == x * p + y
    ensures 10 * whole + d == x * (10 * p) + (10 * y + d)
  {
    TenTimes(p, x);
    assert x * (10 * p) == (10 * p) * x && p * x == x * p;
  }

  lemma {:induction false} NatOfZeros(n: nat)
    ensures NatOf(Zeros(n)) == 0
  {
    if n > 0 {
      assert Zeros(n)[..n - 1] == Zeros(n - 1);
      NatOfZeros(n - 1);
    }
  }

  lemma {:induction false} NatOfBound(s: Bytes)
    requires AllDigits(s)
    ensures NatOf(s) < Pow10(|s|)
  {
    if s != [] {
      NatOfBound(s[..|s| - 1]);
    }
  }

  lemma NatOfPadStart(s: Bytes, width: nat)
    requires AllDigits(s)
    ensures NatOf(PadStart(s, width)) == NatOf(s)
  {
    if |s| < width {
      NatOfZeros(width - |s|);
      NatOfConcat(Zeros(width - |s|), s);
      NothingTimes(NatOf(Zeros(width - |s|)), Pow10(|s|));
    }
  }

  lemma NothingTimes(x: nat, y: nat)
    requires x == 0
    ensures x * y == 0
  {
  }

  /** Two digit strings of one length and one value are the same string. */
  lemma {:induction false} SameValueSameDigits(a: Bytes, b: Bytes)
    requires AllDigits(a) && AllDigits(b) && |a| == |b| && NatOf(a) == NatOf(b)
    ensures a == b
  {
    if a != [] {
      var k := |a| - 1;
      SameValueSameDigits(a[..k], b[..k]);
      assert a == a[..k] + [a[k]] && b == b[..k] + [b[k]];
    }
  }

  /** A numeral without leading zeros is the shortest one of its value. */
  lemma {:induction false} CanonicalDigits(s: Bytes)
    requires AllDigits(s) && s != [] && (|s| > 1 ==> s[0] != ZERO)
    ensures Digits(NatOf(s)) == s
  {
    var k := |s| - 1;
    assert s == s[..k] + [s[k]];
    if k > 0 {
      CanonicalDigits(s[..k]);
      NonZeroValue(s[..k]);
    } else {
      assert s[..k] == [] && NatOf(s[..k]) == 0;
    }
  }

  lemma {:induction false} NonZeroValue(s: Bytes)
    requires AllDigits(s) && s != [] && s[0] != ZERO
    ensures NatOf(s) > 0
  {
    if |s| > 1 {
      NonZeroValue(s[..|s| - 1]);
    }
  }

  lemma {:induction false} DigitsLength(n: nat, width: nat)
    requires n < Pow10(width) && width > 0
    ensures |Digits(n)| <= width
  {
    if n >= 10 {
      DigitsLength(n / 10, width - 1);
    }
  }
}
