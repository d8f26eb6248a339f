/** The reader of Daml `Value` messages: field accessors that refuse ambiguity, the
    scalar leaf reader, and the walk that collects every party leaf of a value. */
module DamlValue {
  import opened Results
  import opened Wire

  // ------------------------------------------------------------ field accessors

  function LenFields(fs: seq<WireField>, field: nat): seq<Bytes> {
    if fs == [] then []
    else (if fs[0].Len? && fs[0].field == field then [fs[0].bytes] else []) + LenFields(fs[1..], field)
  }

  function VarintFields(fs: seq<WireField>, field: nat): seq<Bytes> {
    if fs == [] then []
    else (if fs[0].Varint? && fs[0].field == field then [fs[0].raw] else []) + VarintFields(fs[1..], field)
  }

  function Fixed64Fields(fs: seq<WireField>, field: nat): seq<Bytes> {
    if fs == [] then []
    else (if fs[0].Fixed64? && fs[0].field == field then [fs[0].raw] else []) + Fixed64Fields(fs[1..], field)
  }

  /** The one occurrence of a non-repeated field, nothing, or a refusal. */
  function Unique(all: seq<Bytes>): (r: Result<Option<Bytes>>)
  {
    if |all| > 1 then Err else if |all| == 1 then Ok(Some(all[0])) else Ok(None)
  }

  function LenUnique(fs: seq<WireField>, field: nat): (r: Result<Option<Bytes>>)
  {
    Unique(LenFields(fs, field))
  }

  function VarintUnique(fs: seq<WireField>, field: nat): Result<Option<nat>> {
    var raw :- Unique(VarintFields(fs, field));
    if raw.None? then Ok(None)
    else if TakeVarint(raw.value).None? then Err
    else Ok(Some(TakeVarint(raw.value).value.value))
  }

  function LittleEndian(raw: Bytes): nat {
    if raw == [] then 0 else raw[0] + 256 * LittleEndian(raw[1..])
  }

  function Fixed64Unique(fs: seq<WireField>, field: nat): Result<Option<nat>> {
    var raw :- Unique(Fixed64Fields(fs, field));
    if raw.None? then Ok(None)
    else if |raw.value| != 8 then Err
    else Ok(Some(LittleEndian(raw.value)))
  }

  // ----------------------------------------------------------------------- text

  predicate Tail(b: Byte) {
    0x80 <= b < 0xC0
  }

  predicate ValidUtf8(s: Bytes)
    decreases |s|
  {
    || s == []
    || (s[0] < 0x80 && ValidUtf8(s[1..]))
    || (|s| >= 2 && 0xC2 <= s[0] < 0xE0 && Tail(s[1]) && ValidUtf8(s[2..]))
    || (&& |s| >= 3 && 0xE0 <= s[0] < 0xF0 && Tail(s[1]) && Tail(s[2])
        && (s[0] == 0xE0 ==> s[1] >= 0xA0) && (s[0] == 0xED ==> s[1] < 0xA0) && ValidUtf8(s[3..]))
    || (&& |s| >= 4 && 0xF0 <= s[0] < 0xF5 && Tail(s[1]) && Tail(s[2]) && Tail(s[3])
        && (s[0] == 0xF0 ==> s[1] >= 0x90) && (s[0] == 0xF4 ==> s[1] < 0x90) && ValidUtf8(s[4..]))
  }

  predicate HasBom(s: Bytes) {
    |s| >= 3 && s[0] == 0xEF && s[1] == 0xBB && s[2] == 0xBF
  }

  /** A strict text decoder also drops one leading byte-order mark. */
  function StripBom(s: Bytes): Bytes {
    if HasBom(s) then s[3..] else s
  }

  function Utf8(s: Bytes): (r: Result<Bytes>)
  {
    if ValidUtf8(s) then Ok(StripBom(s)) else Err
  }

  /** The strings as the strict text decoder shows them. */
  function Shown(ss: seq<Bytes>): (r: seq<Bytes>)
    ensures |r| == |ss|
  {
    if ss == [] then [] else [StripBom(ss[0])] + Shown(ss[1..])
  }

  lemma {:induction false} ShownConcat(a: seq<Bytes>, b: seq<Bytes>)
    ensures Shown(a + b) == Shown(a) + Shown(b)
  {
    if a == [] {
      assert a + b == b;
    } else {
      assert (a + b)[1..] == a[1..] + b;
      ShownConcat(a[1..], b);
    }
  }

  /** Text decoding shows strings as they are exactly when none starts with a byte-order
      mark, which it swallows. */
  lemma {:induction false} ShownIsExact(ss: seq<Bytes>)
    ensures Shown(ss) == ss <==> forall s <- ss :: !HasBom(s)
  {
    if ss != [] {
      ShownIsExact(ss[1..]);
      assert HasBom(ss[0]) ==> |StripBom(ss[0])| < |ss[0]|;
      assert ss == [ss[0]] + ss[1..];
    }
  }

  lemma {:induction false} ShownHas(ss: seq<Bytes>)
    ensures forall s <- ss :: StripBom(s) in Shown(ss)
    ensures forall t <- Shown(ss) :: exists s <- ss :: t == StripBom(s)
  {
    if ss != [] {
      ShownHas(ss[1..]);
      assert forall s <- ss :: s == ss[0] || s in ss[1..];
      assert forall t <- Shown(ss) :: t == StripBom(ss[0]) || t in Shown(ss[1..]);
    }
  }

  // -------------------------------------------------------------- value members

  const V_INT64: nat := 3
  const V_TIMESTAMP: nat := 5
  const V_NUMERIC: nat := 6
  const V_PARTY: nat := 7
  const V_TEXT: nat := 8
  const V_CONTRACT_ID: nat := 9
  const V_OPTIONAL: nat := 10
  const V_LIST: nat := 11
  const V_TEXT_MAP: nat := 12
  const V_GEN_MAP: nat := 13
  const V_RECORD: nat := 14
  const V_VARIANT: nat := 15
  const V_LAST: nat := 16

  const LEN_MEMBERS: seq<nat> :=
    [V_NUMERIC, V_PARTY, V_TEXT, V_RECORD, V_OPTIONAL, V_LIST, V_TEXT_MAP, V_GEN_MAP, V_VARIANT]

  /** The eleven `oneof` members that the ambiguity check counts. */
  predicate CountedMember(f: WireField) {
    match f
    case Len(k, _) => 6 <= k <= 15 && k != V_CONTRACT_ID
    case Varint(k, _) => k == V_INT64
    case Fixed64(k, _) => k == V_TIMESTAMP
    case Fixed32(_, _) => false
  }

  function CountedMembers(fs: seq<WireField>): nat {
    if fs == [] then 0 else (if CountedMember(fs[0]) then 1 else 0) + CountedMembers(fs[1..])
  }

  /** How many length-delimited fields carry one of `tags`. */
  function CountIn(fs: seq<WireField>, tags: seq<nat>): nat {
    if fs == [] then 0
    else (if fs[0].Len? && fs[0].field in tags then 1 else 0) + CountIn(fs[1..], tags)
  }

  lemma {:induction false} CountInNext(fs: seq<WireField>, tags: seq<nat>, i: nat)
    requires i < |tags| && tags[i] !in tags[..i]
    ensures CountIn(fs, tags[..i + 1]) == CountIn(fs, tags[..i]) + |LenFields(fs, tags[i])|
  {
    if fs != [] {
      CountInNext(fs[1..], tags, i);
      assert tags[..i + 1] == tags[..i] + [tags[i]];
    }
  }

  lemma {:induction false} MembersCounted(fs: seq<WireField>)
    ensures CountedMembers(fs)
         == CountIn(fs, LEN_MEMBERS) + |VarintFields(fs, V_INT64)| + |Fixed64Fields(fs, V_TIMESTAMP)|
  {
    if fs != [] {
      MembersCounted(fs[1..]);
    }
  }

  /** The ambiguity check over its tables of members accepts exactly the messages in
      which at most one field is a counted member. */
  method AssertSingleValueMember(value: Bytes) returns (r: Result<()>)
    ensures r.Ok? <==> Message(value).Ok? && CountedMembers(Message(value).value) <= 1
  {
    var v := DecodeMessage(value);
    if v.Err? {
      return Err;
    }
    var fs := v.value;
    MembersCounted(fs);
    var present := 0;
    assert CountIn(fs, LEN_MEMBERS[..0]) == 0 by { NoTags(fs); }
    for i := 0 to |LEN_MEMBERS|
      invariant present == CountIn(fs, LEN_MEMBERS[..i]) <= i
    {
      CountInNext(fs, LEN_MEMBERS, i);
      CountInGrows(fs, LEN_MEMBERS, i + 1);
      var count := |LenFields(fs, LEN_MEMBERS[i])|;
      if count > 1 {
        return Err;
      }
      if count == 1 {
        present := present + 1;
      }
    }
    assert LEN_MEMBERS[..|LEN_MEMBERS|] == LEN_MEMBERS;
    var ints, times := |VarintFields(fs, V_INT64)|, |Fixed64Fields(fs, V_TIMESTAMP)|;
    if ints > 1 || times > 1 {
      return Err;
    }
    present := present + ints + times;
    r := if present > 1 then Err else Ok(());
  }

  lemma {:induction false} NoTags(fs: seq<WireField>)
    ensures CountIn(fs, []) == 0
  {
    if fs != [] {
      NoTags(fs[1..]);
    }
  }

  lemma {:induction false} CountInGrows(fs: seq<WireField>, tags: seq<nat>, i: nat)
    requires i <= |tags|
    ensures CountIn(fs, tags[..i]) <= CountIn(fs, tags)
  {
    if fs != [] {
      CountInGrows(fs[1..], tags, i);
      assert fs[0].field in tags[..i] ==> fs[0].field in tags;
    }
  }

  // ------------------------------------------------------------- scalar leaves

  datatype Leaf =
    | PartyLeaf(text: Bytes)
    | NumericLeaf(text: Bytes)
    | TextLeaf(text: Bytes)
    | Int64Leaf(n: int)
    | TimestampLeaf(micros: nat)

  /** `sint64`: 0, -1, 1, -2, 2, ... are written 0, 1, 2, 3, 4, ... */
  function ZigzagDecode(u: nat): int {
    if u % 2 == 0 then u / 2 else -(u / 2) - 1
  }

  /** The scalar of a decoded value, first kind found in the reader's order. */
  function LeafOfFields(fs: seq<WireField>): Result<Option<Leaf>> {
    var party :- LenUnique(fs, V_PARTY);
    if party.Some? then
      var t :- Utf8(party.value);
      Ok(Some(PartyLeaf(t)))
    else NonPartyLeaf(fs)
  }

  function NonPartyLeaf(fs: seq<WireField>): (r: Result<Option<Leaf>>)
    ensures r.Ok? && r.value.Some? ==> !r.value.value.PartyLeaf?
  {
    var numeric :- LenUnique(fs, V_NUMERIC);
    if numeric.Some? then
      var t :- Utf8(numeric.value);
      Ok(Some(NumericLeaf(t)))
    else TextOrNumberLeaf(fs)
  }

  function TextOrNumberLeaf(fs: seq<WireField>): (r: Result<Option<Leaf>>)
    ensures r.Ok? && r.value.Some? ==> !r.value.value.PartyLeaf? && !r.value.value.NumericLeaf?
  {
    var text :- LenUnique(fs, V_TEXT);
    if text.Some? then
      var t :- Utf8(text.value);
      Ok(Some(TextLeaf(t)))
    else NumberLeaf(fs)
  }

  function NumberLeaf(fs: seq<WireField>): (r: Result<Option<Leaf>>)
    ensures r.Ok? && r.value.Some? ==> r.value.value.Int64Leaf? || r.value.value.TimestampLeaf?
  {
    var int64 :- VarintUnique(fs, V_INT64);
    if int64.Some? then Ok(Some(Int64Leaf(ZigzagDecode(int64.value))))
    else
      var timestamp :- Fixed64Unique(fs, V_TIMESTAMP);
      Ok(if timestamp.Some? then Some(TimestampLeaf(timestamp.value)) else None)
  }

  /** A value message that sets at most one counted member. */
  function SingleMember(value: Bytes): (r: Result<seq<WireField>>)
  {
    var fs :- Message(value);
    if CountedMembers(fs) <= 1 then Ok(fs) else Err
  }

  function LeafOf(value: Bytes): Result<Option<Leaf>> {
    var fs :- SingleMember(value);
    LeafOfFields(fs)
  }

  // ------------------------------------------------------------------ children

  predicate KnownMembers(fs: seq<WireField>) {
    forall f <- fs :: 1 <= f.field <= V_LAST
  }

  /** The sub-values that one container entry holds under the given fields. */
  function Picked(fs: seq<WireField>, ks: seq<nat>): (r: Result<seq<Bytes>>)
  {
    if ks == [] then Ok([])
    else
      var first :- LenUnique(fs, ks[0]);
      var others :- Picked(fs, ks[1..]);
      Ok((if first.Some? then [first.value] else []) + others)
  }

  function PickedIn(entry: Bytes, ks: seq<nat>): (r: Result<seq<Bytes>>)
  {
    var fs :- Message(entry);
    Picked(fs, ks)
  }

  function PickedInAll(entries: seq<Bytes>, ks: seq<nat>): (r: Result<seq<Bytes>>)
  {
    if entries == [] then Ok([])
    else
      var first :- PickedIn(entries[0], ks);
      var others :- PickedInAll(entries[1..], ks);
      Ok(first + others)
  }

  /** Where a container keeps its sub-values: entries, and fields within each.
      An element of a list is itself a sub-value. */
  datatype Layout = Scalar | Direct(values: seq<Bytes>) | Entries(entries: seq<Bytes>, ks: seq<nat>)

  function LayoutOf(fs: seq<WireField>): (r: Result<Layout>)
  {
    var rec :- LenUnique(fs, V_RECORD);
    if rec.Some? then
      var body :- Message(rec.value);
      Ok(Entries(LenFields(body, 2), [2]))
    else
      var list :- LenUnique(fs, V_LIST);
      if list.Some? then
        var body :- Message(list.value);
        Ok(Direct(LenFields(body, 1)))
      else
        var opt :- LenUnique(fs, V_OPTIONAL);
        if opt.Some? then Ok(Entries([opt.value], [1]))
        else
          var variant :- LenUnique(fs, V_VARIANT);
          if variant.Some? then Ok(Entries([variant.value], [3]))
          else
            var genMap :- LenUnique(fs, V_GEN_MAP);
            if genMap.Some? then
              var body :- Message(genMap.value);
              Ok(Entries(LenFields(body, 1), [1, 2]))
            else
              var textMap :- LenUnique(fs, V_TEXT_MAP);
              if textMap.Some? then
                var body :- Message(textMap.value);
                Ok(Entries(LenFields(body, 1), [2]))
              else Ok(Scalar)
  }

  /** The sub-values of a container, in the order they are visited. */
  function Children(fs: seq<WireField>): (r: Result<seq<Bytes>>)
  {
    var layout :- LayoutOf(fs);
    match layout
    case Scalar => Ok([])
    case Direct(values) => Ok(values)
    case Entries(entries, ks) => PickedInAll(entries, ks)
  }

  // ---------------------------------------------------------------- party leaves

  const MAX_DEPTH: nat := 64

  function Remaining(depth: nat): nat {
    if depth <= MAX_DEPTH then MAX_DEPTH + 1 - depth else 0
  }

  /** Every party leaf of an encoded value, left to right, or a refusal. */
  function Collect(value: Bytes, depth: nat): (r: Result<seq<Bytes>>)
    decreases Remaining(depth), 0
  {
    if depth > MAX_DEPTH then Err
    else
      var fs :- SingleMember(value);
      if !KnownMembers(fs) then Err
      else
        var leaf := LeafOfFields(fs);
        if leaf.Err? then Err
        else if leaf.value.Some? then
          Ok(if leaf.value.value.PartyLeaf? then [leaf.value.value.text] else [])
        else
          var kids :- Children(fs);
          CollectAll(kids, depth + 1)
  }

  function CollectAll(values: seq<Bytes>, depth: nat): (r: Result<seq<Bytes>>)
    decreases Remaining(depth), 1 + |values|
  {
    if values == [] then Ok([])
    else
      var first :- Collect(values[0], depth);
      var others :- CollectAll(values[1..], depth);
      Ok(first + others)
  }

  lemma {:induction false} CollectAllConcat(a: seq<Bytes>, b: seq<Bytes>, depth: nat)
    ensures var x, y := CollectAll(a, depth), CollectAll(b, depth);
            CollectAll(a + b, depth)
            == if x.Err? || y.Err? then Err else Ok(x.value + y.value)
  {
    if a == [] {
      assert a + b == b;
      assert CollectAll(b, depth).Ok? ==> [] + CollectAll(b, depth).value == CollectAll(b, depth).value;
    } else {
      CollectAllConcat(a[1..], b, depth);
      assert (a + b)[1..] == a[1..] + b;
      var first, tail, y := Collect(a[0], depth), CollectAll(a[1..], depth), CollectAll(b, depth);
      if first.Ok? && tail.Ok? && y.Ok? {
        assert first.value + (tail.value + y.value) == (first.value + tail.value) + y.value;
      }
    }
  }

  /** Collecting over whatever a list of entries holds. */
  ghost function CollectPicked(kids: Result<seq<Bytes>>, depth: nat): (r: Result<seq<Bytes>>)
  {
    match kids
    case Err => Err
    case Ok(values) => CollectAll(values, depth)
  }

  lemma EntryStep(entries: seq<Bytes>, i: nat, ks: seq<nat>, depth: nat, out: seq<Bytes>)
    requires i < |entries|
    ensures var kids := PickedIn(entries[i], ks);
            var here := CollectPicked(kids, depth);
            var onward := CollectPicked(PickedInAll(entries[i + 1..], ks), depth);
            Prepend(out, CollectPicked(PickedInAll(entries[i..], ks), depth))
            == if here.Err? then Err else Prepend(out + here.value, onward)
  {
    assert entries[i..][1..] == entries[i + 1..];
    var first, others := PickedIn(entries[i], ks), PickedInAll(entries[i + 1..], ks);
    if first.Ok? && others.Ok? {
      CollectAllConcat(first.value, others.value, depth);
      var x, y := CollectAll(first.value, depth), CollectAll(others.value, depth);
      if x.Ok? && y.Ok? {
        assert out + (x.value + y.value) == (out + x.value) + y.value;
      }
    }
  }

  method AssertKnownValueMembers(fs: seq<WireField>) returns (ok: bool)
    ensures ok <==> KnownMembers(fs)
  {
    for i := 0 to |fs|
      invariant forall f <- fs[..i] :: 1 <= f.field <= V_LAST
    {
      if !(1 <= fs[i].field <= V_LAST) {
        return false;
      }
    }
    assert fs[..|fs|] == fs;
    ok := true;
  }

  /** The reader's walk: it pushes every party leaf of `value` onto `out`. */
  method CollectPartyLeaves(value: Bytes, out: seq<Bytes>, depth: nat) returns (r: Result<seq<Bytes>>)
    ensures r == Prepend(out, Collect(value, depth))
    decreases Remaining(depth), 0
  {
    if depth > MAX_DEPTH {
      return Err;
    }
    var single := AssertSingleValueMember(value);
    var v := DecodeMessage(value);
    if single.Err? || v.Err? {
      return Err;
    }
    var known := AssertKnownValueMembers(v.value);
    if !known {
      return Err;
    }
    var leaf := LeafOfFields(v.value);
    if leaf.Err? {
      return Err;
    }
    if leaf.value.Some? {
      r := Ok(if leaf.value.value.PartyLeaf? then out + [leaf.value.value.text] else out);
      assert out + [] == out;
      return;
    }
    r := CollectChildren(v.value, out, depth);
  }

  method CollectChildren(fs: seq<WireField>, out: seq<Bytes>, depth: nat) returns (r: Result<seq<Bytes>>)
    requires depth <= MAX_DEPTH
    ensures r == Prepend(out, CollectPicked(Children(fs), depth + 1))
    decreases Remaining(depth + 1), 3
  {
    var layout := LayoutOf(fs);
    if layout.Err? {
      return Err;
    }
    match layout.value
    case Scalar =>
      assert out + [] == out;
      r := Ok(out);
    case Direct(values) => r := CollectValues(values, out, depth + 1);
    case Entries(entries, ks) => r := CollectEntries(entries, ks, out, depth + 1);
  }

  method CollectValues(values: seq<Bytes>, before: seq<Bytes>, depth: nat) returns (r: Result<seq<Bytes>>)
    ensures r == Prepend(before, CollectAll(values, depth))
    decreases Remaining(depth), 1
  {
    var out := before;
    assert values[0..] == values;
    for i := 0 to |values|
      invariant Prepend(before, CollectAll(values, depth)) == Prepend(out, CollectAll(values[i..], depth))
    {
      ValueStep(values, i, depth, out);
      var next := CollectPartyLeaves(values[i], out, depth);
      if next.Err? {
        return Err;
      }
      out := next.value;
    }
    assert out + [] == out;
    r := Ok(out);
  }

  lemma ValueStep(values: seq<Bytes>, i: nat, depth: nat, out: seq<Bytes>)
    requires i < |values|
    ensures var here := Collect(values[i], depth);
            Prepend(out, CollectAll(values[i..], depth))
            == if here.Err? then Err
               else Prepend(out + here.value, CollectAll(values[i + 1..], depth))
  {
    assert values[i..][1..] == values[i + 1..];
    var here, onward := Collect(values[i], depth), CollectAll(values[i + 1..], depth);
    if here.Ok? && onward.Ok? {
      assert out + (here.value + onward.value) == (out + here.value) + onward.value;
    }
  }

  method CollectEntries(entries: seq<Bytes>, ks: seq<nat>, before: seq<Bytes>, depth: nat)
    returns (r: Result<seq<Bytes>>)
    ensures r == Prepend(before, CollectPicked(PickedInAll(entries, ks), depth))
    decreases Remaining(depth), 2
  {
    var out := before;
    assert entries[0..] == entries;
    for i := 0 to |entries|
      invariant Prepend(before, CollectPicked(PickedInAll(entries, ks), depth))
             == Prepend(out, CollectPicked(PickedInAll(entries[i..], ks), depth))
    {
      EntryStep(entries, i, ks, depth, out);
      var kids := PickedIn(entries[i], ks);
      if kids.Err? {
        return Err;
      }
      var next := CollectValues(kids.value, out, depth);
      if next.Err? {
        return Err;
      }
      out := next.value;
    }
    assert out + [] == out;
    r := Ok(out);
  }
}
