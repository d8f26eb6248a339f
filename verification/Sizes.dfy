/** Upper bounds on the sizes of small encodings. */
module Sizes {
  import opened Results
  import opened Wire
  import opened WireCodec
  import opened DamlValue
  import opened DamlCodec
  import opened PreparedCodec
  import opened TransferCodec

  // ---------------------------------------------------------------------- sizes

  lemma {:induction false} VarintLength(n: nat, k: nat)
    requires k > 0 && n < Pow128(k)
    ensures |EncodeVarint(n)| <= k
  {
    if n >= 128 {
      VarintLength(n / 128, k - 1);
    }
  }

  lemma VarintShort(n: nat)
    requires n < TWO_32
    ensures |EncodeVarint(n)| <= 5
  {
    assert Pow128(5) == 128 * 128 * 128 * 128 * Pow128(1);
    VarintLength(n, 5);
  }

  lemma FieldShort(f: WireField)
    requires f.Len? && f.field < 0x1000_0000 && |f.bytes| < TWO_32
    ensures |EncodeField(f)| <= |f.bytes| + 10
  {
    VarintShort(8 * f.field + 2);
    VarintShort(|f.bytes|);
  }

  /** Length-delimited fields with small payloads. */
  ghost predicate Small(fs: seq<WireField>, b: nat) {
    forall f <- fs :: f.Len? && f.field < 0x1000_0000 && |f.bytes| <= b
  }


  /** `n` times the same size. */
  function Total(n: nat, each: nat): nat {
    if n == 0 then 0 else each + Total(n - 1, each)
  }

  lemma {:induction false} TotalIsProduct(n: nat, each: nat)
    ensures Total(n, each) == n * each
  {
    if n > 0 {
      TotalIsProduct(n - 1, each);
    }
  }

  lemma {:induction false} TotalGrows(m: nat, n: nat, each: nat)
    requires m <= n
    ensures Total(m, each) <= Total(n, each)
  {
    if m < n {
      TotalGrows(m, n - 1, each);
    }
  }

  lemma {:induction false} MessageShort(fs: seq<WireField>, b: nat)
    requires Small(fs, b) && b < TWO_32
    ensures |EncodeMessage(fs)| <= Total(|fs|, b + 10)
  {
    if fs != [] {
      FieldShort(fs[0]);
      MessageShort(fs[1..], b);
    }
  }

  lemma OneFieldShort(f: WireField, b: nat)
    requires f.Len? && f.field < 0x1000_0000 && |f.bytes| <= b < TWO_32
    ensures |EncodeMessage([f])| <= b + 10
  {
    MessageShort([f], b);
  }

  lemma {:induction false} RepeatShort(field: nat, bodies: seq<Bytes>, b: nat)
    requires field < 0x1000_0000 && forall x <- bodies :: |x| <= b
    ensures Small(Repeat(field, bodies), b) && |Repeat(field, bodies)| == |bodies|
  {
    if bodies != [] {
      RepeatShort(field, bodies[1..], b);
    }
  }

  /** At most one body, and a small one. */
  ghost predicate Slim(g: Group, b: nat) {
    g.field < 0x1000_0000 && |g.bodies| <= 1 && forall x <- g.bodies :: |x| <= b
  }

  lemma SlimOne(field: nat, body: Bytes, b: nat)
    requires field < 0x1000_0000 && |body| <= b
    ensures Slim(Group(field, [body]), b)
  {
  }

  lemma SlimNone(field: nat, b: nat)
    requires field < 0x1000_0000
    ensures Slim(Group(field, []), b)
  {
  }

  lemma {:induction false} FlattenShort(gs: seq<Group>, b: nat)
    requires forall g <- gs :: Slim(g, b)
    ensures Small(Flatten(gs), b) && |Flatten(gs)| <= |gs|
  {
    if gs != [] {
      assert Slim(gs[0], b);
      RepeatShort(gs[0].field, gs[0].bodies, b);
      FlattenShort(gs[1..], b);
    }
  }

  lemma BodyShort(gs: seq<Group>, b: nat)
    requires (forall g <- gs :: Slim(g, b)) && b < TWO_32
    ensures |Body(gs)| <= Total(|gs|, b + 10)
  {
    FlattenShort(gs, b);
    MessageShort(Flatten(gs), b);
    TotalGrows(|Flatten(gs)|, |gs|, b + 10);
  }

  lemma TwoBodiesShort(f: nat, a: Bytes, g: nat, b: Bytes, n: nat)
    requires f < 0x1000_0000 && g < 0x1000_0000 && |a| <= n && |b| <= n < TWO_32
    ensures |Body([Group(f, [a]), Group(g, [b])])| <= 2 * (n + 10)
  {
    SlimOne(f, a, n);
    SlimOne(g, b, n);
    TotalIsProduct(2, n + 10);
    BodyShort([Group(f, [a]), Group(g, [b])], n);
  }

  // --------------------------------------------------------------- sizes of values

  /** A value whose encoding takes at most `b` bytes. */
  ghost predicate Short(v: Value, b: nat) {
    WellFormed(v) && |Encode(v)| <= b
  }

  lemma ShortGrows(v: Value, a: nat, b: nat)
    requires Short(v, a) && a <= b
    ensures Short(v, b)
  {
  }

  lemma ScalarShort(v: Value, b: nat)
    requires (v.Party? && |v.id| <= b) || (v.Numeric? && |v.digits| <= b) || (v.Text? && |v.text| <= b) || v.Unit?
    requires b < TWO_32
    ensures Short(v, b + 10)
  {
    OneFieldShort(Member(v), b);
  }

  lemma TimestampShort(t: nat)
    requires t < TWO_64
    ensures Short(Timestamp(t), 20)
  {
    var f := Member(Timestamp(t));
    VarintShort(8 * V_TIMESTAMP + 1);
    assert EncodeMessage([f]) == EncodeField(f) + EncodeMessage([f][1..]);
    assert [f][1..] == [];
  }

  lemma {:induction false} AllShort(vs: seq<Value>, b: nat)
    requires forall v <- vs :: Short(v, b)
    ensures AllWellFormed(vs) && forall x <- EncodeAll(vs) :: |x| <= b
  {
    if vs != [] {
      assert Short(vs[0], b);
      AllShort(vs[1..], b);
    }
  }

  lemma {:induction false} EntriesShort(bodies: seq<Bytes>, b: nat)
    requires b < TWO_32 && forall x <- bodies :: |x| <= b
    ensures forall x <- NamedEntries(Blank(|bodies|), bodies) :: |x| <= b + 10
  {
    if bodies != [] {
      var names := Blank(|bodies|);
      assert TextField(1, names[0]) + [Len(2, bodies[0])] == [Len(2, bodies[0])];
      OneFieldShort(Len(2, bodies[0]), b);
      assert names[1..] == Blank(|bodies| - 1);
      EntriesShort(bodies[1..], b);
    }
  }

  /** A record without labels. */
  lemma RecordShort(names: seq<Bytes>, kids: seq<Value>, b: nat)
    requires |names| == |kids| && forall v <- kids :: Short(v, b)
    requires b + 10 < TWO_32 && Total(|kids|, b + 20) < TWO_32
    ensures Short(Record(false, names, kids), Total(|kids|, b + 20) + 10)
  {
    AllShort(kids, b);
    BlankRecordShort(kids, EncodeAll(kids), b);
    OneFieldShort(Member(Record(false, names, kids)), Total(|kids|, b + 20));
  }

  lemma BlankRecordShort(kids: seq<Value>, bodies: seq<Bytes>, b: nat)
    requires |kids| == |bodies| && (forall x <- bodies :: |x| <= b) && b + 10 < TWO_32
    ensures |EncodeMessage(WrapFields(RecordShape(None, Blank(|kids|)), bodies))| <= Total(|kids|, b + 20)
  {
    var entries := NamedEntries(Blank(|bodies|), bodies);
    EntriesShort(bodies, b);
    WrappedRepeat(Blank(|kids|), bodies);
    RepeatedShort(entries, b + 10);
  }

  lemma WrappedRepeat(labels: seq<Bytes>, bodies: seq<Bytes>)
    requires |labels| == |bodies|
    ensures WrapFields(RecordShape(None, labels), bodies) == Repeat(2, NamedEntries(labels, bodies))
  {
  }

  lemma RepeatedShort(entries: seq<Bytes>, b: nat)
    requires (forall x <- entries :: |x| <= b) && b < TWO_32
    ensures |EncodeMessage(Repeat(2, entries))| <= Total(|entries|, b + 10)
  {
    RepeatShort(2, entries, b);
    MessageShort(Repeat(2, entries), b);
  }

  lemma EmptyContainersShort()
    ensures Short(Container(ListShape, []), 10) && Short(Container(TextMapShape([]), []), 10)
  {
    var list, texts := Container(ListShape, []), Container(TextMapShape([]), []);
    assert EncodeMessage(WrapFields(ListShape, [])) == [] && EncodeMessage(WrapFields(TextMapShape([]), [])) == [];
    OneFieldShort(Member(list), 0);
    OneFieldShort(Member(texts), 0);
  }
}
