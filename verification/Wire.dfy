/** The hand-written Protocol Buffers reader: base-128 varints, tags, lengths and
    message framing. Functions say what a byte string means by consuming it from
    the front; the methods are the reader's position-based loops. */
module Wire {
  import opened Results

  type Byte = b: int | 0 <= b < 256
  type Bytes = seq<Byte>

  const TWO_32: nat := 0x1_0000_0000
  /** A varint carries at most ten groups of seven bits. */
  const MAX_GROUPS: nat := 10

  /** A value and how many bytes at the front of the input spell it. */
  datatype Taken<+T> = Taken(value: T, used: nat)

  /** The base-128 numeral at the front of `s`, least significant group first. */
  function TakeVarint(s: Bytes, groups: nat := MAX_GROUPS): (r: Option<Taken<nat>>)
    ensures r.Some? ==> 0 < r.value.used <= |s|
  {
    if groups == 0 || s == [] then None
    else if s[0] < 128 then Some(Taken(s[0], 1))
    else
      match TakeVarint(s[1..], groups - 1)
      case None => None
      case Some(t) => Some(Taken(s[0] - 128 + 128 * t.value, t.used + 1))
  }

  /** A tag or a length prefix: a varint that must fit in 32 bits. */
  function TakeVarint32(s: Bytes): (r: Result<Taken<nat>>)
    ensures r.Ok? ==> 0 < r.value.used <= |s|
  {
    match TakeVarint(s)
    case None => Err
    case Some(t) => if t.value < TWO_32 then Ok(t) else Err
  }

  /** One field. The reader keeps no payload for 32-bit fields; `raw` is carried
      here so that the encoder below can write them. */
  datatype WireField =
    | Len(field: nat, bytes: Bytes)
    | Varint(field: nat, raw: Bytes)
    | Fixed64(field: nat, raw: Bytes)
    | Fixed32(field: nat, raw: Bytes)

  /** The payload of a field whose tag has been read. */
  function TakeBody(field: nat, wire: nat, s: Bytes): (r: Result<Taken<WireField>>)
    ensures r.Ok? ==> r.value.used <= |s|
  {
    if wire == 2 then
      var len :- TakeVarint32(s);
      var end := len.used + len.value;
      if end <= |s| then Ok(Taken(Len(field, s[len.used..end]), end)) else Err
    else if wire == 0 then
      match TakeVarint(s)
      case None => Err
      case Some(v) => Ok(Taken(Varint(field, s[..v.used]), v.used))
    else if wire == 1 then
      if 8 <= |s| then Ok(Taken(Fixed64(field, s[..8]), 8)) else Err
    else if wire == 5 then
      if 4 <= |s| then Ok(Taken(Fixed32(field, s[..4]), 4)) else Err
    else Err
  }

  function TakeField(s: Bytes): (r: Result<Taken<WireField>>)
    ensures r.Ok? ==> 0 < r.value.used <= |s|
  {
    var tag :- TakeVarint32(s);
    if tag.value / 8 == 0 then Err
    else
      var body :- TakeBody(tag.value / 8, tag.value % 8, s[tag.used..]);
      Ok(Taken(body.value, tag.used + body.used))
  }

  function Message(s: Bytes): (r: Result<seq<WireField>>)
    decreases |s|
  {
    if s == [] then Ok([])
    else
      var first :- TakeField(s);
      var others :- Message(s[first.used..]);
      Ok([first.value] + others)
  }

  // ---------------------------------------------------------------- the loops

  function Pow2(n: nat): (p: nat)
    ensures p > 0
  {
    if n == 0 then 1 else 2 * Pow2(n - 1)
  }

  /** `v` moved up by `k` seven-bit groups. */
  function ShiftUp(v: nat, k: nat): nat {
    if k == 0 then v else 128 * ShiftUp(v, k - 1)
  }

  lemma {:induction false} ShiftUpStep(a: nat, v: nat, k: nat)
    ensures ShiftUp(a + 128 * v, k) == ShiftUp(a, k) + ShiftUp(v, k + 1)
  {
    if k == 0 {
      assert ShiftUp(v, 1) == 128 * ShiftUp(v, 0);
    } else {
      ShiftUpStep(a, v, k - 1);
    }
  }

  lemma Pow2Group(n: nat)
    ensures Pow2(n + 7) == 128 * Pow2(n)
  {
    assert Pow2(n + 7) == 2 * Pow2(n + 6) == 4 * Pow2(n + 5) == 8 * Pow2(n + 4);
    assert Pow2(n + 4) == 2 * Pow2(n + 3) == 4 * Pow2(n + 2) == 8 * Pow2(n + 1) == 16 * Pow2(n);
  }

  lemma {:induction false} ShiftUpIsPower(v: nat, k: nat)
    ensures v * Pow2(7 * k) == ShiftUp(v, k)
  {
    if k > 0 {
      ShiftUpIsPower(v, k - 1);
      Pow2Group(7 * (k - 1));
      assert v * (128 * Pow2(7 * (k - 1))) == 128 * (v * Pow2(7 * (k - 1)));
    }
  }

  /** The low seven bits of `b`, added in at `shift`. */
  function Accumulate(value: nat, b: Byte, shift: nat): nat {
    value + (b % 128) * Pow2(shift)
  }

  /** What remains to be read, added on top of `k` groups worth `value`. */
  ghost function Resume(value: nat, k: nat, r: Option<Taken<nat>>): Option<Taken<nat>> {
    match r
    case None => None
    case Some(t) => Some(Taken(value + ShiftUp(t.value, k), k + t.used))
  }

  /** One turn of the accumulating loop, against the numeral read from the front. */
  lemma ResumeStep(value: nat, k: nat, s: Bytes, groups: nat)
    requires s != [] && groups > 0
    ensures var whole, next: nat := Resume(value, k, TakeVarint(s, groups)), Accumulate(value, s[0], 7 * k);
            if s[0] < 128 then whole == Some(Taken(next, k + 1))
            else whole == Resume(next, k + 1, TakeVarint(s[1..], groups - 1))
  {
    AccumulateIsShift(value, s[0], k);
    var tail := TakeVarint(s[1..], groups - 1);
    if s[0] >= 128 && tail.Some? {
      ShiftUpStep(s[0] - 128, tail.value.value, k);
    }
  }

  lemma AccumulateIsShift(value: nat, b: Byte, k: nat)
    ensures Accumulate(value, b, 7 * k) == value + ShiftUp(if b < 128 then b else b - 128, k)
  {
    ShiftUpIsPower(b % 128, k);
  }

  method ReadVarint(buf: Bytes, start: nat) returns (r: Option<Taken<nat>>)
    requires start <= |buf|
    ensures r == TakeVarint(buf[start..])
  {
    var pos, shift, value: nat := start, 0, 0;
    ghost var k := 0;
    ghost var whole := TakeVarint(buf[start..]);
    while pos < |buf|
      invariant pos == start + k <= |buf| && k < MAX_GROUPS && shift == 7 * k
      invariant whole == Resume(value, k, TakeVarint(buf[pos..], MAX_GROUPS - k))
      decreases |buf| - pos
    {
      var b := buf[pos];
      ResumeStep(value, k, buf[pos..], MAX_GROUPS - k);
      assert buf[pos..][1..] == buf[pos + 1..];
      value := Accumulate(value, b, shift);
      pos := pos + 1;
      if b < 128 {
        return Some(Taken(value, pos - start));
      }
      shift := shift + 7;
      k := k + 1;
      if shift > 63 {
        break;
      }
    }
    r := None;
  }

  method ReadVarint32(buf: Bytes, start: nat) returns (r: Result<Taken<nat>>)
    requires start <= |buf|
    ensures r == TakeVarint32(buf[start..])
  {
    var v := ReadVarint(buf, start);
    r := if v.None? || v.value.value > 0xffff_ffff then Err else Ok(v.value);
  }

  /** One turn of the reader's loop: the field at `start` and its size. */
  method ReadField(buf: Bytes, start: nat) returns (r: Result<Taken<WireField>>)
    requires start < |buf|
    ensures r == TakeField(buf[start..])
  {
    var tag :- ReadVarint32(buf, start);
    var field, wire := tag.value / 8, tag.value % 8;
    if field == 0 {
      return Err;
    }
    var pos := start + tag.used;
    assert buf[start..][tag.used..] == buf[pos..];
    var body := ReadBody(field, wire, buf, pos);
    r := if body.Ok? then Ok(Taken(body.value.value, tag.used + body.value.used)) else body;
  }

  method ReadBody(field: nat, wire: nat, buf: Bytes, pos: nat) returns (r: Result<Taken<WireField>>)
    requires pos <= |buf|
    ensures r == TakeBody(field, wire, buf[pos..])
  {
    ghost var s := buf[pos..];
    if wire == 2 {
      var len :- ReadVarint32(buf, pos);
      var p := pos + len.used;
      if p + len.value > |buf| {
        return Err;
      }
      assert s[len.used..len.used + len.value] == buf[p..p + len.value];
      r := Ok(Taken(Len(field, buf[p..p + len.value]), len.used + len.value));
    } else if wire == 0 {
      var v := ReadVarint(buf, pos);
      if v.None? {
        return Err;
      }
      assert s[..v.value.used] == buf[pos..pos + v.value.used];
      r := Ok(Taken(Varint(field, buf[pos..pos + v.value.used]), v.value.used));
    } else if wire == 1 {
      if pos + 8 > |buf| {
        return Err;
      }
      assert s[..8] == buf[pos..pos + 8];
      r := Ok(Taken(Fixed64(field, buf[pos..pos + 8]), 8));
    } else if wire == 5 {
      if pos + 4 > |buf| {
        return Err;
      }
      assert s[..4] == buf[pos..pos + 4];
      r := Ok(Taken(Fixed32(field, buf[pos..pos + 4]), 4));
    } else {
      r := Err;
    }
  }

  ghost function Prepend<T>(out: seq<T>, r: Result<seq<T>>): Result<seq<T>> {
    match r
    case Err => Err
    case Ok(fs) => Ok(out + fs)
  }

  /** The reader's loop over a whole buffer returns exactly what the buffer means. */
  method DecodeMessage(buf: Bytes) returns (r: Result<seq<WireField>>)
    ensures r == Message(buf)
  {
    var out: seq<WireField> := [];
    var pos := 0;
    ReadNothing(buf);
    while pos < |buf|
      invariant pos <= |buf|
      invariant ReadSoFar(buf, pos, out)
      decreases |buf| - pos
    {
      var f := ReadField(buf, pos);
      MessageStep(buf, pos, out, f);
      if f.Err? {
        return Err;
      }
      out := out + [f.value.value];
      pos := pos + f.value.used;
    }
    ReadAll(buf, out);
    r := Ok(out);
  }

  /** `out` holds the fields up to `pos`. */
  ghost predicate ReadSoFar(buf: Bytes, pos: nat, out: seq<WireField>)
    requires pos <= |buf|
  {
    Message(buf) == Prepend(out, Message(buf[pos..]))
  }

  lemma ReadNothing(buf: Bytes)
    ensures ReadSoFar(buf, 0, [])
  {
    PrependNothing(Message(buf));
    assert buf[0..] == buf;
  }

  lemma ReadAll(buf: Bytes, out: seq<WireField>)
    requires ReadSoFar(buf, |buf|, out)
    ensures Message(buf) == Ok(out)
  {
    assert buf[|buf|..] == [] && out + [] == out;
  }

  lemma PrependNothing<T>(r: Result<seq<T>>)
    ensures Prepend([], r) == r
  {
    assert r.Ok? ==> [] + r.value == r.value;
  }

  /** One field taken, or the message refused. */
  lemma MessageStep(buf: Bytes, pos: nat, out: seq<WireField>, f: Result<Taken<WireField>>)
    requires pos < |buf| && TakeField(buf[pos..]) == f && ReadSoFar(buf, pos, out)
    ensures f.Err? ==> Message(buf) == Err
    ensures f.Ok? ==> 0 < f.value.used <= |buf| - pos
    ensures f.Ok? ==> ReadSoFar(buf, pos + f.value.used, out + [f.value.value])
  {
    var s := buf[pos..];
    if f.Ok? {
      assert s[f.value.used..] == buf[pos + f.value.used..];
      var others := Message(s[f.value.used..]);
      assert others.Ok? ==> out + ([f.value.value] + others.value) == (out + [f.value.value]) + others.value;
    }
  }
}
