/** What the reader is measured against: a canonical encoder it must undo, and the
    readers on the other side of the transaction, which take tags and lengths as
    32-bit varints and drop every higher bit. */
module WireCodec {
  import opened Results
  import opened Wire

  // ------------------------------------------------------- canonical encoding

  function EncodeVarint(n: nat): (s: Bytes)
    ensures s != []
  {
    if n < 128 then [n] else [n % 128 + 128] + EncodeVarint(n / 128)
  }

  predicate ValidField(f: WireField) {
    && 0 < f.field < 0x2000_0000
    && match f
       case Len(_, b) => |b| < TWO_32
       case Varint(_, raw) => TakeVarint(raw).Some? && TakeVarint(raw).value.used == |raw|
       case Fixed64(_, raw) => |raw| == 8
       case Fixed32(_, raw) => |raw| == 4
  }

  function WireType(f: WireField): (wire: nat)
    ensures wire < 8
  {
    match f
    case Varint(_, _) => 0
    case Fixed64(_, _) => 1
    case Len(_, _) => 2
    case Fixed32(_, _) => 5
  }

  function EncodeBody(f: WireField): Bytes {
    if f.Len? then EncodeVarint(|f.bytes|) + f.bytes else f.raw
  }

  function EncodeField(f: WireField): (s: Bytes)
    ensures s != []
  {
    EncodeVarint(8 * f.field + WireType(f)) + EncodeBody(f)
  }

  function EncodeMessage(fs: seq<WireField>): Bytes {
    if fs == [] then [] else EncodeField(fs[0]) + EncodeMessage(fs[1..])
  }

  function Pow128(n: nat): (p: nat)
    ensures p > 0
  {
    if n == 0 then 1 else 128 * Pow128(n - 1)
  }

  lemma {:induction false} VarintRoundTrip(n: nat, rest: Bytes, groups: nat)
    requires groups > 0 && n < Pow128(groups)
    ensures TakeVarint(EncodeVarint(n) + rest, groups) == Some(Taken(n, |EncodeVarint(n)|))
  {
    var s := EncodeVarint(n) + rest;
    if n >= 128 {
      VarintRoundTrip(n / 128, rest, groups - 1);
      assert s[1..] == EncodeVarint(n / 128) + rest;
    }
  }

  lemma Varint32RoundTrip(n: nat, rest: Bytes)
    requires n < TWO_32
    ensures TakeVarint32(EncodeVarint(n) + rest) == Ok(Taken(n, |EncodeVarint(n)|))
  {
    assert Pow128(5) == 0x8_0000_0000 <= Pow128(6);
    assert Pow128(10) == 128 * 128 * 128 * 128 * Pow128(6);
    VarintRoundTrip(n, rest, MAX_GROUPS);
  }

  /** Whatever follows a varint does not change how it is read. */
  lemma {:induction false} VarintExtends(raw: Bytes, rest: Bytes, groups: nat)
    requires TakeVarint(raw, groups).Some?
    ensures TakeVarint(raw + rest, groups) == TakeVarint(raw, groups)
  {
    if raw[0] >= 128 {
      VarintExtends(raw[1..], rest, groups - 1);
      assert (raw + rest)[1..] == raw[1..] + rest;
    }
  }

  lemma TagRoundTrip(field: nat, wire: nat, body: Bytes)
    requires 0 < field < 0x2000_0000 && wire < 8
    ensures var tag := EncodeVarint(8 * field + wire);
            TakeField(tag + body)
            == if TakeBody(field, wire, body).Err? then Err
               else Ok(Taken(TakeBody(field, wire, body).value.value, |tag| + TakeBody(field, wire, body).value.used))
  {
    var tag := EncodeVarint(8 * field + wire);
    Varint32RoundTrip(8 * field + wire, body);
    assert (tag + body)[|tag|..] == body;
  }

  lemma BodyRoundTrip(f: WireField, rest: Bytes)
    requires ValidField(f)
    ensures TakeBody(f.field, WireType(f), EncodeBody(f) + rest) == Ok(Taken(f, |EncodeBody(f)|))
  {
    if f.Len? {
      var n := EncodeVarint(|f.bytes|);
      Varint32RoundTrip(|f.bytes|, f.bytes + rest);
      assert n + f.bytes + rest == n + (f.bytes + rest);
      assert (n + f.bytes + rest)[|n|..|n| + |f.bytes|] == f.bytes;
    } else {
      if f.Varint? {
        VarintExtends(f.raw, rest, MAX_GROUPS);
      }
      assert (f.raw + rest)[..|f.raw|] == f.raw;
    }
  }

  lemma TagThenBody(field: nat, wire: nat, body: Bytes, t: Taken<WireField>)
    requires 0 < field < 0x2000_0000 && wire < 8 && TakeBody(field, wire, body) == Ok(t)
    ensures var tag := EncodeVarint(8 * field + wire); TakeField(tag + body) == Ok(Taken(t.value, |tag| + t.used))
  {
    TagRoundTrip(field, wire, body);
  }

  lemma FieldRoundTrip(f: WireField, rest: Bytes)
    requires ValidField(f)
    ensures TakeField(EncodeField(f) + rest) == Ok(Taken(f, |EncodeField(f)|))
  {
    BodyRoundTrip(f, rest);
    TagThenBody(f.field, WireType(f), EncodeBody(f) + rest, Taken(f, |EncodeBody(f)|));
    FieldText(f, rest);
  }

  lemma FieldText(f: WireField, rest: Bytes)
    ensures EncodeField(f) + rest == EncodeVarint(8 * f.field + WireType(f)) + (EncodeBody(f) + rest)
    ensures |EncodeField(f)| == |EncodeVarint(8 * f.field + WireType(f))| + |EncodeBody(f)|
  {}

  /** The reader undoes the canonical encoder, repeated fields and all. */
  lemma {:induction false} MessageRoundTrip(fs: seq<WireField>)
    requires forall f <- fs :: ValidField(f)
    ensures Message(EncodeMessage(fs)) == Ok(fs)
  {
    if fs != [] {
      var head, tail := EncodeField(fs[0]), EncodeMessage(fs[1..]);
      FieldRoundTrip(fs[0], tail);
      assert (head + tail)[|head|..] == tail;
      MessageRoundTrip(fs[1..]);
      assert [fs[0]] + fs[1..] == fs;
    }
  }

  // ------------------------------------------------------ the reference reader

  /** A 32-bit varint as the participant reads it: sums wrap, high groups vanish. */
  function RefVarint32(s: Bytes, shift: nat := 0, groups: nat := MAX_GROUPS): (r: Option<Taken<nat>>)
    ensures r.Some? ==> 0 < r.value.used <= |s|
  {
    if groups == 0 || s == [] then None
    else
      var part := if shift < 32 then Accumulate(0, s[0], shift) % TWO_32 else 0;
      if s[0] < 128 then Some(Taken(part, 1))
      else
        match RefVarint32(s[1..], shift + 7, groups - 1)
        case None => None
        case Some(t) => Some(Taken((part + t.value) % TWO_32, t.used + 1))
  }

  /** One field by its boundaries: `head` bytes of tag and length prefix, then
      `size` bytes of payload. */
  datatype RefItem = RefItem(field: nat, wire: nat, head: nat, size: nat)

  /** The payload of a field whose tag has been read, by its boundaries in `s`. */
  function RefBody(field: nat, wire: nat, s: Bytes): (r: Option<RefItem>)
    ensures r.Some? ==> r.value.head + r.value.size <= |s|
  {
    var item :=
      if wire == 0 then
        (match TakeVarint(s) case None => None case Some(v) => Some(RefItem(field, wire, 0, v.used)))
      else if wire == 1 then Some(RefItem(field, wire, 0, 8))
      else if wire == 2 then
        (match RefVarint32(s) case None => None case Some(n) => Some(RefItem(field, wire, n.used, n.value)))
      else if wire == 5 then Some(RefItem(field, wire, 0, 4))
      else None;
    if item.Some? && item.value.head + item.value.size <= |s| then item else None
  }

  function RefField(s: Bytes): (r: Option<RefItem>)
    ensures r.Some? ==> 0 < r.value.head && r.value.head + r.value.size <= |s|
  {
    match RefVarint32(s)
    case None => None
    case Some(tag) =>
      if tag.value / 8 == 0 then None
      else
        match RefBody(tag.value / 8, tag.value % 8, s[tag.used..])
        case None => None
        case Some(i) => Some(i.(head := tag.used + i.head))
  }

  function RefMessage(s: Bytes): Option<seq<RefItem>>
    decreases |s|
  {
    if s == [] then Some([])
    else
      match RefField(s)
      case None => None
      case Some(i) =>
        match RefMessage(s[i.head + i.size..])
        case None => None
        case Some(others) => Some([i] + others)
  }

  /** The tag and the length prefix of the first field mean the same at full width. */
  predicate NarrowField(s: Bytes) {
    match TakeVarint(s)
    case None => false
    case Some(tag) =>
      && tag.value < TWO_32
      && (tag.value % 8 == 2 ==> NarrowLength(s[tag.used..]))
  }

  predicate NarrowLength(s: Bytes) {
    TakeVarint(s).Some? && TakeVarint(s).value.value < TWO_32
  }

  predicate Narrow(s: Bytes)
    decreases |s|
  {
    s != [] ==>
      && NarrowField(s)
      && (RefField(s).Some? ==> Narrow(s[RefField(s).value.head + RefField(s).value.size..]))
  }

  function Cut(s: Bytes, i: RefItem): WireField
    requires i.head + i.size <= |s|
  {
    var payload := s[i.head..i.head + i.size];
    if i.wire == 0 then Varint(i.field, payload)
    else if i.wire == 1 then Fixed64(i.field, payload)
    else if i.wire == 2 then Len(i.field, payload)
    else Fixed32(i.field, payload)
  }

  lemma {:induction false} HighGroupsVanish(v: nat, k: nat)
    requires k >= 5
    ensures ShiftUp(v, k) % TWO_32 == 0
  {
    if k == 5 {
      assert ShiftUp(v, 5) == 128 * 128 * ShiftUp(v, 3) == 128 * 128 * 128 * 128 * ShiftUp(v, 1);
      assert ShiftUp(v, 1) == 128 * v;
    } else {
      HighGroupsVanish(v, k - 1);
      var x := ShiftUp(v, k - 1);
      assert 128 * x == TWO_32 * (128 * (x / TWO_32));
    }
  }

  /** Dropping bits 32 and up is reduction modulo 2^32. */
  lemma {:induction false} RefVarintTruncates(s: Bytes, k: nat, groups: nat)
    ensures RefVarint32(s, 7 * k, groups)
         == match TakeVarint(s, groups)
            case None => None
            case Some(t) => Some(Taken(ShiftUp(t.value, k) % TWO_32, t.used))
  {
    if groups > 0 && s != [] {
      var low := s[0] % 128;
      ShiftUpIsPower(low, k);
      if k >= 5 {
        HighGroupsVanish(low, k);
      }
      if s[0] >= 128 {
        RefVarintTruncates(s[1..], k + 1, groups - 1);
        if TakeVarint(s[1..], groups - 1).Some? {
          var v := TakeVarint(s[1..], groups - 1).value.value;
          ShiftUpStep(low, v, k);
          ModSum(ShiftUp(low, k), ShiftUp(v, k + 1));
        }
      }
    }
  }

  lemma ModSum(a: nat, b: nat)
    ensures (a % TWO_32 + b % TWO_32) % TWO_32 == (a + b) % TWO_32
  {
  }

  /** A numeral that fits in 32 bits is read alike by both. */
  lemma RefVarintAgrees(s: Bytes)
    ensures NarrowLength(s) ==> RefVarint32(s) == TakeVarint(s)
    ensures RefVarint32(s).Some? <==> TakeVarint(s).Some?
  {
    RefVarintTruncates(s, 0, MAX_GROUPS);
  }

  lemma BodyAgrees(field: nat, wire: nat, s: Bytes)
    ensures TakeBody(field, wire, s).Ok? <==> RefBody(field, wire, s).Some? && (wire == 2 ==> NarrowLength(s))
    ensures TakeBody(field, wire, s).Ok? ==>
              var i := RefBody(field, wire, s).value;
              TakeBody(field, wire, s).value == Taken(Cut(s, i), i.head + i.size)
  {
    RefVarintAgrees(s);
    if wire == 2 {
    } else if wire == 0 {
    } else {
    }
  }

  /** The same bytes, counted from the tag instead of from behind it. */
  lemma CutShift(s: Bytes, d: nat, i: RefItem)
    requires d <= |s| && i.head + i.size <= |s| - d
    ensures Cut(s[d..], i) == Cut(s, i.(head := d + i.head))
  {
    assert s[d..][i.head..i.head + i.size] == s[d + i.head..d + i.head + i.size];
  }

  lemma FieldAgrees(s: Bytes)
    ensures TakeField(s).Ok? <==> RefField(s).Some? && NarrowField(s)
    ensures TakeField(s).Ok? ==>
              var i := RefField(s).value;
              TakeField(s).value == Taken(Cut(s, i), i.head + i.size)
  {
    RefVarintAgrees(s);
    if NarrowLength(s) {
      var tag := TakeVarint(s).value;
      var item := RefBody(tag.value / 8, tag.value % 8, s[tag.used..]);
      BodyAgrees(tag.value / 8, tag.value % 8, s[tag.used..]);
      if item.Some? {
        CutShift(s, tag.used, item.value);
      }
    }
  }

  /** What a message is made of when its first field can be taken. */
  lemma MessageFirst(s: Bytes, t: Taken<WireField>)
    requires s != [] && TakeField(s) == Ok(t)
    ensures Message(s).Ok? <==> Message(s[t.used..]).Ok?
    ensures Message(s).Ok? ==> Message(s).value == [t.value] + Message(s[t.used..]).value
  {}

  lemma RefMessageFirst(s: Bytes, i: RefItem)
    requires s != [] && RefField(s) == Some(i)
    ensures var rest := RefMessage(s[i.head + i.size..]);
            && (RefMessage(s).Some? <==> rest.Some?)
            && (rest.Some? ==> RefMessage(s).value == [i] + rest.value)
  {}

  lemma CarvedFirst(s: Bytes, i: RefItem, fs: seq<WireField>, items: seq<RefItem>)
    requires i.head + i.size <= |s| && Carved(s[i.head + i.size..], fs, items)
    ensures Carved(s, [Cut(s, i)] + fs, [i] + items)
  {}

  /** The reader accepts exactly the messages that the 32-bit reference reader also
      frames and whose tags and lengths lose nothing by truncation; it then finds
      the same field numbers, wire types and byte boundaries. */
  lemma {:induction false} AgreesWithReference(s: Bytes)
    ensures Message(s).Ok? <==> RefMessage(s).Some? && Narrow(s)
    ensures Message(s).Ok? ==> Carved(s, Message(s).value, RefMessage(s).value)
    decreases |s|
  {
    if s != [] {
      FieldAgrees(s);
      if TakeField(s).Ok? {
        var i := RefField(s).value;
        var end := i.head + i.size;
        AgreesWithReference(s[end..]);
        MessageFirst(s, TakeField(s).value);
        RefMessageFirst(s, i);
        if Message(s[end..]).Ok? {
          CarvedFirst(s, i, Message(s[end..]).value, RefMessage(s[end..]).value);
        }
      }
    }
  }

  /** `fs` are the payloads that the framing `items` cuts out of `s`, which the
      items cover without gap or overlap. */
  predicate Carved(s: Bytes, fs: seq<WireField>, items: seq<RefItem>) {
    if items == [] then s == [] && fs == []
    else
      var end := items[0].head + items[0].size;
      && fs != [] && end <= |s|
      && fs[0] == Cut(s, items[0])
      && Carved(s[end..], fs[1..], items[1..])
  }
}
