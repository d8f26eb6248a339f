/** Daml value trees, their wire encoding, and what the reader makes of it. */
module DamlCodec {
  import opened Results
  import opened Wire
  import opened WireCodec
  import opened DamlValue

  type Str = s: Bytes | ValidUtf8(s) witness []

  const TWO_64: nat := 0x1_0000_0000_0000_0000

  /** How a container wraps its sub-values. A text map's and a record's strings are
      its keys and labels; a gen map's sub-values alternate key and value. An empty
      label is left out, as normalized encodings do. */
  datatype Shape =
    | OptionalShape
    | ListShape
    | TextMapShape(keys: seq<Bytes>)
    | GenMapShape
    | RecordShape(id: Option<Bytes>, labels: seq<Bytes>)
    | VariantShape(id: Option<Bytes>, constructorName: Bytes)

  datatype Value =
    | Unit
    | Bool(b: bool)
    | Int64(n: int)
    | Date(days: nat)
    | Timestamp(micros: nat)
    | Numeric(digits: Str)
    | Party(id: Str)
    | Text(text: Str)
    | ContractId(cid: Str)
    | Enum(body: Bytes)
    | Container(shape: Shape, kids: seq<Value>)

  predicate ShapeFits(shape: Shape, n: nat) {
    match shape
    case OptionalShape => n <= 1
    case ListShape => true
    case TextMapShape(keys) => |keys| == n
    case GenMapShape => n % 2 == 0
    case RecordShape(_, labels) => |labels| == n
    case VariantShape(_, _) => n == 1
  }

  /** A value tree that Daml can have: integers in range, containers well shaped. */
  predicate WellFormed(v: Value) {
    match v
    case Int64(n) => -0x8000_0000_0000_0000 <= n < 0x8000_0000_0000_0000
    case Date(d) => d < TWO_32
    case Timestamp(t) => t < TWO_64
    case Container(shape, kids) => ShapeFits(shape, |kids|) && AllWellFormed(kids)
    case _ => true
  }

  predicate AllWellFormed(vs: seq<Value>) {
    vs != [] ==> WellFormed(vs[0]) && AllWellFormed(vs[1..])
  }

  // ------------------------------------------------------------------ encoding

  function Repeat(field: nat, bodies: seq<Bytes>): seq<WireField> {
    if bodies == [] then [] else [Len(field, bodies[0])] + Repeat(field, bodies[1..])
  }

  function OptField(field: nat, body: Option<Bytes>): seq<WireField> {
    if body.Some? then [Len(field, body.value)] else []
  }

  function TextField(field: nat, text: Bytes): seq<WireField> {
    if text == [] then [] else [Len(field, text)]
  }

  /** `key : string = 1, value : Value = 2`: a text-map entry or a record field. */
  function NamedEntry(name: Bytes, body: Bytes): Bytes {
    EncodeMessage(TextField(1, name) + [Len(2, body)])
  }

  function NamedEntries(names: seq<Bytes>, bodies: seq<Bytes>): (r: seq<Bytes>)
    requires |names| == |bodies|
    ensures |r| == |names|
  {
    if names == [] then [] else [NamedEntry(names[0], bodies[0])] + NamedEntries(names[1..], bodies[1..])
  }

  function PairEntry(key: Bytes, value: Bytes): Bytes {
    EncodeMessage([Len(1, key), Len(2, value)])
  }

  function PairEntries(bodies: seq<Bytes>): seq<Bytes>
    requires |bodies| % 2 == 0
  {
    if bodies == [] then [] else [PairEntry(bodies[0], bodies[1])] + PairEntries(bodies[2..])
  }

  function Tag(shape: Shape): nat {
    match shape
    case OptionalShape => V_OPTIONAL
    case ListShape => V_LIST
    case TextMapShape(_) => V_TEXT_MAP
    case GenMapShape => V_GEN_MAP
    case RecordShape(_, _) => V_RECORD
    case VariantShape(_, _) => V_VARIANT
  }

  function EntryField(shape: Shape): nat {
    match shape
    case RecordShape(_, _) => 2
    case VariantShape(_, _) => 3
    case _ => 1
  }

  function EntriesOf(shape: Shape, bodies: seq<Bytes>): seq<Bytes>
    requires ShapeFits(shape, |bodies|)
  {
    match shape
    case TextMapShape(keys) => NamedEntries(keys, bodies)
    case RecordShape(_, labels) => NamedEntries(labels, bodies)
    case GenMapShape => PairEntries(bodies)
    case _ => bodies
  }

  /** What a record or a variant writes before its sub-values. */
  function Preamble(shape: Shape): seq<WireField> {
    match shape
    case RecordShape(id, _) => OptField(1, id)
    case VariantShape(id, name) => OptField(1, id) + TextField(2, name)
    case _ => []
  }

  function WrapFields(shape: Shape, bodies: seq<Bytes>): seq<WireField>
    requires ShapeFits(shape, |bodies|)
  {
    Preamble(shape) + Repeat(EntryField(shape), EntriesOf(shape, bodies))
  }

  function Zigzag(n: int): nat {
    if n >= 0 then 2 * n else -2 * n - 1
  }

  function LittleEndianBytes(n: nat, width: nat): (r: Bytes)
    ensures |r| == width
  {
    if width == 0 then [] else [n % 256] + LittleEndianBytes(n / 256, width - 1)
  }

  function Member(v: Value): WireField
    requires WellFormed(v)
    decreases v, 0
  {
    match v
    case Unit => Len(1, [])
    case Bool(b) => Varint(2, [if b then 1 else 0])
    case Int64(n) => Varint(V_INT64, EncodeVarint(Zigzag(n)))
    case Date(d) => Varint(4, EncodeVarint(d))
    case Timestamp(t) => Fixed64(V_TIMESTAMP, LittleEndianBytes(t, 8))
    case Numeric(s) => Len(V_NUMERIC, s)
    case Party(s) => Len(V_PARTY, s)
    case Text(s) => Len(V_TEXT, s)
    case ContractId(s) => Len(V_CONTRACT_ID, s)
    case Enum(b) => Len(16, b)
    case Container(shape, kids) => Len(Tag(shape), EncodeMessage(WrapFields(shape, EncodeAll(kids))))
  }

  function Encode(v: Value): Bytes
    requires WellFormed(v)
    decreases v, 1
  {
    EncodeMessage([Member(v)])
  }

  function EncodeAll(vs: seq<Value>): (r: seq<Bytes>)
    requires AllWellFormed(vs)
    ensures |r| == |vs|
    decreases vs, 0
  {
    if vs == [] then [] else [Encode(vs[0])] + EncodeAll(vs[1..])
  }

  // ------------------------------------------------------- what a tree contains

  function PartyLeaves(v: Value): seq<Str> {
    match v
    case Party(id) => [id]
    case Container(_, kids) => AllPartyLeaves(kids)
    case _ => []
  }

  function AllPartyLeaves(vs: seq<Value>): seq<Str> {
    if vs == [] then [] else PartyLeaves(vs[0]) + AllPartyLeaves(vs[1..])
  }

  function Levels(v: Value): (n: nat)
    ensures n >= 1
    ensures !v.Container? ==> n == 1
  {
    if v.Container? then 1 + AllLevels(v.kids) else 1
  }

  function AllLevels(vs: seq<Value>): nat {
    if vs == [] then 0
    else if Levels(vs[0]) >= AllLevels(vs[1..]) then Levels(vs[0])
    else AllLevels(vs[1..])
  }

  // ------------------------------------------------------------------- sizes

  /** Fields whose numbers and fixed parts are right; only lengths are left open. */
  predicate Plain(f: WireField) {
    && 0 < f.field < 0x2000_0000
    && (f.Varint? ==> TakeVarint(f.raw).Some? && TakeVarint(f.raw).value.used == |f.raw|)
    && (f.Fixed64? ==> |f.raw| == 8)
    && (f.Fixed32? ==> |f.raw| == 4)
  }

  /** Every payload inside a message that fits the length limit fits it too. */
  lemma {:induction false} PartsFit(fs: seq<WireField>)
    ensures forall f <- fs | f.Len? :: |f.bytes| < |EncodeMessage(fs)|
  {
    if fs != [] {
      PartsFit(fs[1..]);
      assert |EncodeMessage(fs)| == |EncodeField(fs[0])| + |EncodeMessage(fs[1..])|;
    }
  }

  lemma PlainRoundTrip(fs: seq<WireField>)
    requires forall f <- fs :: Plain(f)
    requires |EncodeMessage(fs)| < TWO_32
    ensures Message(EncodeMessage(fs)) == Ok(fs)
    ensures forall f <- fs | f.Len? :: |f.bytes| < TWO_32
  {
    PartsFit(fs);
    MessageRoundTrip(fs);
  }

  lemma {:induction false} LenFieldsConcat(a: seq<WireField>, b: seq<WireField>, field: nat)
    ensures LenFields(a + b, field) == LenFields(a, field) + LenFields(b, field)
  {
    if a == [] {
      assert a + b == b;
    } else {
      assert (a + b)[1..] == a[1..] + b;
      LenFieldsConcat(a[1..], b, field);
    }
  }

  lemma {:induction false} RepeatFields(field: nat, bodies: seq<Bytes>, asked: nat)
    ensures LenFields(Repeat(field, bodies), asked) == if asked == field then bodies else []
    ensures 0 < field < 0x2000_0000 ==> forall f <- Repeat(field, bodies) :: Plain(f)
    ensures forall b <- bodies :: Len(field, b) in Repeat(field, bodies)
  {
    if bodies != [] {
      RepeatFields(field, bodies[1..], asked);
    }
  }

  // --------------------------------------------------------------- containers

  /** Bodies small enough to sit inside a message that fits the length limit. */
  predicate Fits(b: Bytes) {
    |b| < TWO_32
  }

  lemma OneField(f: WireField, field: nat)
    ensures LenFields([f], field) == if f.Len? && f.field == field then [f.bytes] else []
  {
    assert [f][1..] == [];
  }

  lemma PickedOne(fs: seq<WireField>, k: nat)
    ensures Picked(fs, [k])
         == if |LenFields(fs, k)| > 1 then Err else Ok(LenFields(fs, k))
  {
    var found := LenFields(fs, k);
    assert [k][1..] == [] && Picked(fs, []) == Ok([]);
    assert |found| <= 1 ==> (if |found| == 1 then [found[0]] else []) + [] == found;
  }

  lemma NamedEntryPicked(name: Bytes, body: Bytes)
    requires Fits(NamedEntry(name, body))
    ensures PickedIn(NamedEntry(name, body), [2]) == Ok([body]) && Fits(body)
  {
    var fs := TextField(1, name) + [Len(2, body)];
    PlainRoundTrip(fs);
    assert fs[|fs| - 1] in fs;
    LenFieldsConcat(TextField(1, name), [Len(2, body)], 2);
    OneField(Len(1, name), 2);
    OneField(Len(2, body), 2);
    PickedOne(fs, 2);
  }

  lemma PairEntryPicked(key: Bytes, value: Bytes)
    requires Fits(PairEntry(key, value))
    ensures PickedIn(PairEntry(key, value), [1, 2]) == Ok([key, value]) && Fits(key) && Fits(value)
  {
    var fs := [Len(1, key), Len(2, value)];
    PlainRoundTrip(fs);
    assert fs[0] in fs && fs[1] in fs;
    assert fs[1..] == [Len(2, value)];
    OneField(Len(2, value), 1);
    OneField(Len(2, value), 2);
    PickedOne(fs, 2);
    assert LenFields(fs, 1) == [key] + [] && LenFields(fs, 2) == [] + [value];
    assert [1, 2][1..] == [2] && [key] + [value] == [key, value];
  }

  lemma {:induction false} NamedEntriesPicked(names: seq<Bytes>, bodies: seq<Bytes>)
    requires |names| == |bodies|
    requires forall e <- NamedEntries(names, bodies) :: Fits(e)
    ensures PickedInAll(NamedEntries(names, bodies), [2]) == Ok(bodies)
    ensures forall b <- bodies :: Fits(b)
  {
    if names != [] {
      var all := NamedEntries(names, bodies);
      assert all[0] in all && forall e <- all[1..] :: e in all;
      NamedEntryPicked(names[0], bodies[0]);
      NamedEntriesPicked(names[1..], bodies[1..]);
      assert [bodies[0]] + bodies[1..] == bodies;
    }
  }

  lemma TwoAndRest(bodies: seq<Bytes>)
    requires |bodies| >= 2
    ensures bodies == [bodies[0], bodies[1]] + bodies[2..]
    ensures forall b <- bodies :: b == bodies[0] || b == bodies[1] || b in bodies[2..]
  {
    assert bodies == [bodies[0], bodies[1]] + bodies[2..];
  }

  lemma PickedHead(entries: seq<Bytes>, ks: seq<nat>, first: seq<Bytes>, rest: seq<Bytes>)
    requires entries != [] && PickedIn(entries[0], ks) == Ok(first) && PickedInAll(entries[1..], ks) == Ok(rest)
    ensures PickedInAll(entries, ks) == Ok(first + rest)
  {}

  lemma {:induction false} PairEntriesPicked(bodies: seq<Bytes>)
    requires |bodies| % 2 == 0
    requires forall e <- PairEntries(bodies) :: Fits(e)
    ensures PickedInAll(PairEntries(bodies), [1, 2]) == Ok(bodies)
    ensures forall b <- bodies :: Fits(b)
  {
    if bodies != [] {
      var all := PairEntries(bodies);
      assert all[0] in all && forall e <- all[1..] :: e in all;
      PairEntryPicked(bodies[0], bodies[1]);
      PairEntriesPicked(bodies[2..]);
      PickedHead(all, [1, 2], [bodies[0], bodies[1]], bodies[2..]);
      TwoAndRest(bodies);
    }
  }

  lemma OneUnique(f: WireField, field: nat)
    ensures LenUnique([f], field) == Ok(if f.Len? && f.field == field then Some(f.bytes) else None)
    ensures VarintFields([f], field) == if f.Varint? && f.field == field then [f.raw] else []
    ensures Fixed64Fields([f], field) == if f.Fixed64? && f.field == field then [f.raw] else []
  {
    OneField(f, field);
    assert [f][1..] == [];
  }

  /** Which container a value message is, when that is its only field. */
  lemma OneLayout(tag: nat, body: Bytes)
    ensures var r := LayoutOf([Len(tag, body)]);
            var inner := Message(body);
            && (tag == V_OPTIONAL ==> r == Ok(Entries([body], [1])))
            && (tag == V_VARIANT ==> r == Ok(Entries([body], [3])))
            && (tag == V_RECORD && inner.Ok? ==> r == Ok(Entries(LenFields(inner.value, 2), [2])))
            && (tag == V_LIST && inner.Ok? ==> r == Ok(Direct(LenFields(inner.value, 1))))
            && (tag == V_GEN_MAP && inner.Ok? ==> r == Ok(Entries(LenFields(inner.value, 1), [1, 2])))
            && (tag == V_TEXT_MAP && inner.Ok? ==> r == Ok(Entries(LenFields(inner.value, 1), [2])))
  {
    var f := Len(tag, body);
    OneUnique(f, V_RECORD);
    OneUnique(f, V_LIST);
    OneUnique(f, V_OPTIONAL);
    OneUnique(f, V_VARIANT);
    OneUnique(f, V_GEN_MAP);
    OneUnique(f, V_TEXT_MAP);
  }

  lemma WrapFieldsRead(shape: Shape, bodies: seq<Bytes>)
    requires ShapeFits(shape, |bodies|)
    ensures LenFields(WrapFields(shape, bodies), EntryField(shape)) == EntriesOf(shape, bodies)
    ensures forall f <- WrapFields(shape, bodies) :: Plain(f)
  {
    var k := EntryField(shape);
    RepeatFields(k, EntriesOf(shape, bodies), k);
    PreambleSkipped(shape);
    LenFieldsConcat(Preamble(shape), Repeat(k, EntriesOf(shape, bodies)), k);
  }

  lemma PreambleSkipped(shape: Shape)
    ensures LenFields(Preamble(shape), EntryField(shape)) == []
  {
    if shape.RecordShape? {
      OptFieldSkipped(1, shape.id, 2);
    } else if shape.VariantShape? {
      OptFieldSkipped(1, shape.id, 3);
      OneField(Len(2, shape.constructorName), 3);
      LenFieldsConcat(OptField(1, shape.id), TextField(2, shape.constructorName), 3);
    }
  }

  lemma OptFieldSkipped(field: nat, body: Option<Bytes>, asked: nat)
    requires asked != field
    ensures LenFields(OptField(field, body), asked) == []
  {
    if body.Some? {
      OneField(Len(field, body.value), asked);
    }
  }

  /** How the reader sees a container: its body as one entry, its elements, or
      the entries inside its body. */
  function SeenLayout(shape: Shape, bodies: seq<Bytes>): Layout
    requires ShapeFits(shape, |bodies|)
  {
    match shape
    case OptionalShape => Entries([EncodeMessage(WrapFields(shape, bodies))], [1])
    case VariantShape(_, _) => Entries([EncodeMessage(WrapFields(shape, bodies))], [3])
    case ListShape => Direct(bodies)
    case GenMapShape => Entries(PairEntries(bodies), [1, 2])
    case _ => Entries(EntriesOf(shape, bodies), [2])
  }

  lemma ContainerLayout(shape: Shape, bodies: seq<Bytes>)
    requires ShapeFits(shape, |bodies|)
    requires Fits(EncodeMessage(WrapFields(shape, bodies)))
    ensures LayoutOf([Len(Tag(shape), EncodeMessage(WrapFields(shape, bodies)))]) == Ok(SeenLayout(shape, bodies))
    ensures forall e <- EntriesOf(shape, bodies) :: Fits(e)
  {
    var fs := WrapFields(shape, bodies);
    WrapFieldsRead(shape, bodies);
    PlainRoundTrip(fs);
    LenFieldsFit(fs);
    OneLayout(Tag(shape), EncodeMessage(fs));
  }

  /** A container's sub-values are read back exactly, in order, for every shape. */
  lemma ContainerRoundTrip(shape: Shape, bodies: seq<Bytes>)
    requires ShapeFits(shape, |bodies|)
    requires Fits(EncodeMessage(WrapFields(shape, bodies)))
    ensures Children([Len(Tag(shape), EncodeMessage(WrapFields(shape, bodies)))]) == Ok(bodies)
    ensures forall b <- bodies :: Fits(b)
  {
    ContainerLayout(shape, bodies);
    match shape
    case ListShape =>
    case TextMapShape(keys) => NamedEntriesPicked(keys, bodies);
    case GenMapShape => PairEntriesPicked(bodies);
    case RecordShape(_, labels) => NamedEntriesPicked(labels, bodies);
    case _ => WholeBodyPicked(shape, bodies);
  }

  lemma WholeBodyPicked(shape: Shape, bodies: seq<Bytes>)
    requires ShapeFits(shape, |bodies|) && (shape.OptionalShape? || shape.VariantShape?)
    requires Fits(EncodeMessage(WrapFields(shape, bodies)))
    ensures PickedInAll([EncodeMessage(WrapFields(shape, bodies))], [EntryField(shape)]) == Ok(bodies)
  {
    var fs := WrapFields(shape, bodies);
    WrapFieldsRead(shape, bodies);
    PlainRoundTrip(fs);
    PickedOne(fs, EntryField(shape));
    OneEntry(EncodeMessage(fs), [EntryField(shape)]);
  }

  lemma OneEntry(entry: Bytes, ks: seq<nat>)
    ensures PickedInAll([entry], ks) == PickedIn(entry, ks)
  {
    assert [entry][1..] == [] && PickedInAll([], ks) == Ok([]);
    var r := PickedIn(entry, ks);
    assert r.Ok? ==> r.value + [] == r.value;
  }

  lemma {:induction false} LenFieldsFit(fs: seq<WireField>)
    requires forall f <- fs | f.Len? :: Fits(f.bytes)
    ensures forall k: nat :: forall b <- LenFields(fs, k) :: Fits(b)
  {
    if fs != [] {
      LenFieldsFit(fs[1..]);
      assert fs[0] in fs;
    }
  }

  // ------------------------------------------------------------------- scalars

  lemma {:induction false} LittleEndianRoundTrip(n: nat, width: nat)
    requires n < Pow256(width)
    ensures LittleEndian(LittleEndianBytes(n, width)) == n
  {
    if width > 0 {
      LittleEndianRoundTrip(n / 256, width - 1);
    }
  }

  function Pow256(n: nat): nat {
    if n == 0 then 1 else 256 * Pow256(n - 1)
  }

  lemma Pow256Eight()
    ensures Pow256(8) == TWO_64
  {
    assert Pow256(4) == 256 * 256 * 256 * Pow256(1);
    assert Pow256(8) == 256 * 256 * 256 * 256 * Pow256(4);
  }

  /** A minimal varint of at most 64 bits stands alone as a varint's raw bytes. */
  lemma RawVarint(n: nat)
    requires n < TWO_64
    ensures TakeVarint(EncodeVarint(n)) == Some(Taken(n, |EncodeVarint(n)|))
  {
    assert Pow128(5) == 128 * 128 * 128 * 128 * Pow128(1);
    assert Pow128(10) == 128 * 128 * 128 * 128 * 128 * Pow128(5);
    VarintRoundTrip(n, [], MAX_GROUPS);
    assert EncodeVarint(n) + [] == EncodeVarint(n);
  }

  lemma MemberPlain(v: Value)
    requires WellFormed(v)
    ensures Plain(Member(v)) && Member(v).field <= V_LAST
    ensures CountedMember(Member(v)) <==> v.Container? || ScalarLeaf(v).Some?
  {
    match v
    case Int64(n) => RawVarint(Zigzag(n));
    case Date(d) => RawVarint(d);
    case _ =>
  }

  /** What the leaf reader is meant to return for a tree. */
  function ScalarLeaf(v: Value): Option<Leaf> {
    match v
    case Party(s) => Some(PartyLeaf(StripBom(s)))
    case Numeric(s) => Some(NumericLeaf(StripBom(s)))
    case Text(s) => Some(TextLeaf(StripBom(s)))
    case Int64(n) => Some(Int64Leaf(n))
    case Timestamp(t) => Some(TimestampLeaf(t))
    case _ => None
  }

  lemma OneMessage(v: Value)
    requires WellFormed(v) && Fits(Encode(v))
    ensures Message(Encode(v)) == Ok([Member(v)])
    ensures SingleMember(Encode(v)) == Ok([Member(v)])
    ensures KnownMembers([Member(v)])
    ensures v.Container? ==> Fits(Member(v).bytes)
  {
    MemberPlain(v);
    PlainRoundTrip([Member(v)]);
    CountedOne(Member(v));
    assert Member(v) in [Member(v)];
  }

  lemma CountedOne(f: WireField)
    ensures CountedMembers([f]) == if CountedMember(f) then 1 else 0
  {
    assert [f][1..] == [];
  }

  lemma TextlessRead(f: WireField)
    requires f.Len? ==> f.field !in {V_PARTY, V_NUMERIC, V_TEXT}
    ensures LeafOfFields([f])
         == if f.Varint? && f.field == V_INT64 then
              if TakeVarint(f.raw).None? then Err
              else Ok(Some(Int64Leaf(ZigzagDecode(TakeVarint(f.raw).value.value))))
            else if f.Fixed64? && f.field == V_TIMESTAMP then
              if |f.raw| != 8 then Err else Ok(Some(TimestampLeaf(LittleEndian(f.raw))))
            else Ok(None)
  {
    OneUnique(f, V_PARTY);
    OneUnique(f, V_NUMERIC);
    OneUnique(f, V_TEXT);
    OneUnique(f, V_INT64);
    OneUnique(f, V_TIMESTAMP);
  }

  lemma ScalarRead(v: Value)
    requires WellFormed(v)
    ensures LeafOfFields([Member(v)]) == Ok(ScalarLeaf(v))
  {
    var f := Member(v);
    match v
    case Party(_) =>
      OneUnique(f, V_PARTY);
    case Numeric(_) =>
      OneUnique(f, V_PARTY);
      OneUnique(f, V_NUMERIC);
    case Text(_) =>
      OneUnique(f, V_PARTY);
      OneUnique(f, V_NUMERIC);
      OneUnique(f, V_TEXT);
    case Int64(n) =>
      RawVarint(Zigzag(n));
      TextlessRead(f);
    case Timestamp(t) =>
      Pow256Eight();
      LittleEndianRoundTrip(t, 8);
      TextlessRead(f);
    case _ => TextlessRead(f);
  }

  lemma LeafRoundTrip(v: Value)
    requires WellFormed(v) && Fits(Encode(v))
    ensures LeafOf(Encode(v)) == Ok(ScalarLeaf(v))
  {
    OneMessage(v);
    ScalarRead(v);
  }

  lemma ScalarHasNoChildren(v: Value)
    requires WellFormed(v) && !v.Container?
    ensures Children([Member(v)]) == Ok([])
  {
    var f := Member(v);
    OneUnique(f, V_RECORD);
    OneUnique(f, V_LIST);
    OneUnique(f, V_OPTIONAL);
    OneUnique(f, V_VARIANT);
    OneUnique(f, V_GEN_MAP);
    OneUnique(f, V_TEXT_MAP);
  }

  // ------------------------------------------------------------- party leaves

  /** One level of the walk, once the value's only field is known. */
  lemma CollectOne(value: Bytes, f: WireField, leaf: Option<Leaf>, kids: seq<Bytes>, depth: nat)
    requires SingleMember(value) == Ok([f]) && KnownMembers([f])
    requires LeafOfFields([f]) == Ok(leaf)
    requires leaf.None? ==> Children([f]) == Ok(kids)
    ensures Collect(value, depth)
         == if depth > MAX_DEPTH then Err
            else if leaf.Some? then Ok(if leaf.value.PartyLeaf? then [leaf.value.text] else [])
            else CollectAll(kids, depth + 1)
  {
  }

  lemma CollectScalar(v: Value, depth: nat)
    requires WellFormed(v) && Fits(Encode(v)) && !v.Container?
    ensures Collect(Encode(v), depth)
         == if depth <= MAX_DEPTH then Ok(Shown(PartyLeaves(v))) else Err
  {
    OneMessage(v);
    ScalarRead(v);
    ScalarHasNoChildren(v);
    CollectOne(Encode(v), Member(v), ScalarLeaf(v), [], depth);
    ShownScalar(v);
  }

  lemma ShownScalar(v: Value)
    requires !v.Container?
    ensures Shown(PartyLeaves(v)) == if v.Party? then [StripBom(v.id)] else []
  {
    if v.Party? {
      assert [v.id][1..] == [];
      assert [StripBom(v.id)] + Shown([]) == [StripBom(v.id)];
    }
  }

  lemma CollectContainer(v: Value, depth: nat)
    requires WellFormed(v) && Fits(Encode(v)) && v.Container?
    ensures Collect(Encode(v), depth)
         == if depth <= MAX_DEPTH then CollectAll(EncodeAll(v.kids), depth + 1) else Err
  {
    var bodies := EncodeAll(v.kids);
    OneMessage(v);
    ScalarRead(v);
    ContainerRoundTrip(v.shape, bodies);
    CollectOne(Encode(v), Member(v), None, bodies, depth);
  }

  lemma KidsFit(v: Value)
    requires WellFormed(v) && Fits(Encode(v)) && v.Container?
    ensures forall b <- EncodeAll(v.kids) :: Fits(b)
  {
    OneMessage(v);
    ContainerRoundTrip(v.shape, EncodeAll(v.kids));
  }

  /** What the walk owes for a tree or a list of trees reached at `depth`. */
  function Owed(levels: nat, leaves: seq<Bytes>, depth: nat): Result<seq<Bytes>> {
    if depth + levels <= MAX_DEPTH + 1 then Ok(Shown(leaves)) else Err
  }

  /** On the encoding of any Daml value no deeper than 64 levels below its outermost
      value, the walk returns exactly the tree's party leaves, in order, through
      every container; any deeper tree is refused. */
  lemma {:induction false} CollectRoundTrip(v: Value, depth: nat)
    requires WellFormed(v) && Fits(Encode(v))
    ensures Collect(Encode(v), depth) == Owed(Levels(v), PartyLeaves(v), depth)
    decreases v, 1
  {
    if !v.Container? {
      CollectScalar(v, depth);
    } else {
      KidsFit(v);
      if depth <= MAX_DEPTH {
        CollectAllRoundTrip(v.kids, depth + 1);
      }
      OwedByContainer(v, depth);
    }
  }

  lemma OwedByContainer(v: Value, depth: nat)
    requires WellFormed(v) && Fits(Encode(v)) && v.Container?
    requires depth <= MAX_DEPTH ==>
               CollectAll(EncodeAll(v.kids), depth + 1) == Owed(AllLevels(v.kids), AllPartyLeaves(v.kids), depth + 1)
    ensures Collect(Encode(v), depth) == Owed(Levels(v), PartyLeaves(v), depth)
  {
    CollectContainer(v, depth);
  }

  lemma {:induction false} CollectAllRoundTrip(vs: seq<Value>, depth: nat)
    requires AllWellFormed(vs) && depth <= MAX_DEPTH + 1
    requires forall b <- EncodeAll(vs) :: Fits(b)
    ensures CollectAll(EncodeAll(vs), depth) == Owed(AllLevels(vs), AllPartyLeaves(vs), depth)
    decreases vs, 0
  {
    if vs != [] {
      var all := EncodeAll(vs);
      assert all[0] in all && all[1..] == EncodeAll(vs[1..]) && forall b <- all[1..] :: b in all;
      CollectRoundTrip(vs[0], depth);
      CollectAllRoundTrip(vs[1..], depth);
      ShownConcat(PartyLeaves(vs[0]), AllPartyLeaves(vs[1..]));
    }
  }
}
