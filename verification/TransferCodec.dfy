/** Transfer records as Daml values, labelled in declaration order or not labelled at
    all, and what the extraction recovers from their encoding. */
module TransferCodec {
  import opened Results
  import opened Wire
  import opened WireCodec
  import opened DamlValue
  import opened DamlCodec
  import opened Text
  import opened TransferRecord

  function Record(labelled: bool, names: seq<Bytes>, kids: seq<Value>): Value {
    Container(RecordShape(None, if labelled then names else Blank(|names|)), kids)
  }

  function Blank(n: nat): (r: seq<Bytes>)
    ensures |r| == n && forall i | 0 <= i < n :: r[i] == []
  {
    seq(n, _ => [])
  }

  /** The names of a record's fields: distinct, plain text, none empty. */
  predicate GoodNames(names: seq<Bytes>) {
    && (forall i :: 0 <= i < |names| ==> PlainName(names[i]) && names[i] != [])
    && (forall i, j :: 0 <= i < j < |names| ==> names[i] != names[j])
  }

  predicate PlainName(name: Bytes) {
    forall i :: 0 <= i < |name| ==> name[i] < 0x80
  }

  lemma {:induction false} PlainNameReads(name: Bytes)
    requires PlainName(name)
    ensures Utf8(name) == Ok(name)
  {
    PlainNameValid(name);
  }

  lemma {:induction false} PlainNameValid(name: Bytes)
    requires PlainName(name)
    ensures ValidUtf8(name)
  {
    if name != [] {
      PlainNameValid(name[1..]);
    }
  }

  function Zip(names: seq<Bytes>, bodies: seq<Bytes>): (r: seq<Entry>)
    requires |names| == |bodies|
    ensures |r| == |names|
    ensures forall i | 0 <= i < |r| :: r[i] == Entry(names[i], bodies[i])
  {
    seq(|names|, i requires 0 <= i < |names| => Entry(names[i], bodies[i]))
  }

  lemma NamedEntryRead(name: Bytes, body: Bytes)
    requires Fits(NamedEntry(name, body)) && PlainName(name)
    ensures EntryOf(NamedEntry(name, body)) == Ok(Entry(name, body))
  {
    var fs := TextField(1, name) + [Len(2, body)];
    PlainRoundTrip(fs);
    OneField(Len(1, name), 1);
    OneField(Len(1, name), 2);
    OneField(Len(2, body), 1);
    OneField(Len(2, body), 2);
    LenFieldsConcat(TextField(1, name), [Len(2, body)], 1);
    LenFieldsConcat(TextField(1, name), [Len(2, body)], 2);
    PlainNameReads(name);
  }

  lemma {:induction false} NamedEntriesRead(names: seq<Bytes>, bodies: seq<Bytes>)
    requires |names| == |bodies| && forall i | 0 <= i < |names| :: PlainName(names[i])
    requires forall e <- NamedEntries(names, bodies) :: Fits(e)
    ensures TransferRecord.EntriesOf(NamedEntries(names, bodies)) == Ok(Zip(names, bodies))
  {
    if names != [] {
      var all := NamedEntries(names, bodies);
      assert all[0] in all && forall e <- all[1..] :: e in all;
      NamedEntryRead(names[0], bodies[0]);
      NamedEntriesRead(names[1..], bodies[1..]);
      assert Zip(names, bodies) == [Entry(names[0], bodies[0])] + Zip(names[1..], bodies[1..]);
    }
  }

  /** Any encoded record with distinct plain labels, or none, is read back entry by
      entry. */
  lemma RecordRoundTrip(names: seq<Bytes>, kids: seq<Value>)
    requires |names| == |kids| && AllWellFormed(kids)
    requires forall i | 0 <= i < |names| :: PlainName(names[i])
    requires DistinctLabels(Zip(names, EncodeAll(kids)))
    requires Fits(Encode(Container(RecordShape(None, names), kids)))
    ensures RecordEntries(Encode(Container(RecordShape(None, names), kids))) == Ok(Zip(names, EncodeAll(kids)))
    ensures forall i | 0 <= i < |kids| :: Fits(EncodeAll(kids)[i])
  {
    var v, bodies := Container(RecordShape(None, names), kids), EncodeAll(kids);
    OneMessage(v);
    KidsFit(v);
    OneUnique(Member(v), V_RECORD);
    RecordBodyRead(names, bodies);
    AssembleEntries(Encode(v), Member(v).bytes, WrapFields(RecordShape(None, names), bodies), Zip(names, bodies));
  }

  lemma RecordBodyRead(names: seq<Bytes>, bodies: seq<Bytes>)
    requires |names| == |bodies| && forall i | 0 <= i < |names| :: PlainName(names[i])
    requires Fits(EncodeMessage(WrapFields(RecordShape(None, names), bodies)))
    ensures var fs := WrapFields(RecordShape(None, names), bodies);
            && Message(EncodeMessage(fs)) == Ok(fs)
            && TransferRecord.EntriesOf(LenFields(fs, 2)) == Ok(Zip(names, bodies))
  {
    ContainerBodyRead(RecordShape(None, names), bodies);
    NamedEntriesRead(names, bodies);
  }

  lemma AssembleEntries(value: Bytes, rec: Bytes, body: seq<WireField>, es: seq<Entry>)
    requires SingleMember(value).Ok? && LenUnique(SingleMember(value).value, V_RECORD) == Ok(Some(rec))
    requires Message(rec) == Ok(body) && TransferRecord.EntriesOf(LenFields(body, 2)) == Ok(es) && DistinctLabels(es)
    ensures RecordEntries(value) == Ok(es)
  {
  }

  /** The body of an encoded container, read back as the entries it was made of. */
  lemma ContainerBodyRead(shape: Shape, bodies: seq<Bytes>)
    requires ShapeFits(shape, |bodies|)
    requires Fits(EncodeMessage(WrapFields(shape, bodies)))
    ensures Message(EncodeMessage(WrapFields(shape, bodies))) == Ok(WrapFields(shape, bodies))
    ensures LenFields(WrapFields(shape, bodies), EntryField(shape)) == DamlCodec.EntriesOf(shape, bodies)
    ensures forall e <- DamlCodec.EntriesOf(shape, bodies) :: Fits(e)
  {
    var fs := WrapFields(shape, bodies);
    WrapFieldsRead(shape, bodies);
    PlainRoundTrip(fs);
    LenFieldsFit(fs);
  }

  /** The labels of a record as its encoding carries them. */
  function Labels(labelled: bool, names: seq<Bytes>): (r: seq<Bytes>)
    ensures |r| == |names|
  {
    if labelled then names else Blank(|names|)
  }

  lemma NamesAreDistinctLabels(labelled: bool, names: seq<Bytes>, bodies: seq<Bytes>)
    requires GoodNames(names) && |names| == |bodies|
    ensures DistinctLabels(Zip(Labels(labelled, names), bodies))
    ensures forall i | 0 <= i < |names| :: PlainName(Labels(labelled, names)[i])
  {
  }

  /** A record written in declaration order gives each field at its position. */
  lemma FoundAtPosition(labelled: bool, names: seq<Bytes>, bodies: seq<Bytes>, i: nat)
    requires GoodNames(names) && |names| == |bodies| && i < |names|
    ensures var es := Zip(Labels(labelled, names), bodies);
            EntryByDeclOrder(es, i, names[i]) == Ok(Some(Entry(Labels(labelled, names)[i], bodies[i])))
  {
  }

  lemma {:induction false} EncodeAllAt(vs: seq<Value>, i: nat)
    requires AllWellFormed(vs) && i < |vs|
    ensures WellFormed(vs[i]) && EncodeAll(vs)[i] == Encode(vs[i])
  {
    if i > 0 {
      EncodeAllAt(vs[1..], i - 1);
    }
  }

  // ------------------------------------------------------------ input holdings

  function CidValues(cids: seq<Str>): (r: seq<Value>)
    ensures |r| == |cids| && AllWellFormed(r)
  {
    if cids == [] then [] else [ContractId(cids[0])] + CidValues(cids[1..])
  }

  lemma CidRead(cid: Str)
    requires Fits(Encode(ContractId(cid)))
    ensures CidOf(Encode(ContractId(cid))) == Ok(StripBom(cid))
  {
    OneMessage(ContractId(cid));
    OneUnique(Member(ContractId(cid)), V_CONTRACT_ID);
  }

  lemma {:induction false} CidsRead(cids: seq<Str>)
    requires forall b <- EncodeAll(CidValues(cids)) :: Fits(b)
    ensures CidsOf(EncodeAll(CidValues(cids))) == Ok(Shown(cids))
  {
    if cids != [] {
      var all := EncodeAll(CidValues(cids));
      assert CidValues(cids)[1..] == CidValues(cids[1..]);
      assert all[0] in all && forall b <- all[1..] :: b in all;
      CidRead(cids[0]);
      CidsRead(cids[1..]);
    }
  }

  lemma HoldingsRoundTrip(cids: seq<Str>)
    requires Fits(Encode(Container(ListShape, CidValues(cids))))
    ensures InputHoldingCids(Encode(Container(ListShape, CidValues(cids)))) == Ok(Shown(cids))
  {
    var v := Container(ListShape, CidValues(cids));
    OneMessage(v);
    KidsFit(v);
    OneUnique(Member(v), V_LIST);
    ContainerBodyRead(ListShape, EncodeAll(v.kids));
    CidsRead(cids);
    AssembleHoldings(Encode(v), Member(v).bytes, WrapFields(ListShape, EncodeAll(v.kids)), Shown(cids));
  }

  lemma AssembleHoldings(value: Bytes, list: Bytes, body: seq<WireField>, cids: seq<Bytes>)
    requires SingleMember(value).Ok? && LenUnique(SingleMember(value).value, V_LIST) == Ok(Some(list))
    requires Message(list) == Ok(body) && CidsOf(LenFields(body, 1)) == Ok(cids)
    ensures InputHoldingCids(value) == Ok(cids)
  {
  }

  // ------------------------------------------------------------------- the memo

  /** What one metadata entry says about the memo. */
  function EntryMemo(key: Bytes, value: Value): (r: Result<Option<Bytes>>)
  {
    if StripBom(key) != MEMO_KEY then Ok(None)
    else if value.Text? then Ok(Some(StripBom(value.text)))
    else Err
  }

  /** The memo a metadata map commits to: the one text under the memo key, nothing,
      or a refusal when there are two or it is no text. */
  function TreeMemo(keys: seq<Bytes>, values: seq<Value>): (r: Result<Option<Bytes>>)
    requires |keys| == |values|
  {
    if keys == [] then Ok(None)
    else
      var first :- EntryMemo(keys[0], values[0]);
      var others :- TreeMemo(keys[1..], values[1..]);
      if first.Some? && others.Some? then Err
      else Ok(if first.Some? then first else others)
  }

  lemma MemoEntryFields(key: Bytes, body: Bytes)
    requires Fits(NamedEntry(key, body))
    ensures Message(NamedEntry(key, body)) == Ok(TextField(1, key) + [Len(2, body)])
    ensures LenUnique(TextField(1, key) + [Len(2, body)], 1) == Ok(if key == [] then None else Some(key))
    ensures LenUnique(TextField(1, key) + [Len(2, body)], 2) == Ok(Some(body))
    ensures Fits(body)
  {
    var fs := TextField(1, key) + [Len(2, body)];
    PlainRoundTrip(fs);
    assert fs[|fs| - 1] in fs;
    OneField(Len(1, key), 1);
    OneField(Len(1, key), 2);
    OneField(Len(2, body), 1);
    OneField(Len(2, body), 2);
    LenFieldsConcat(TextField(1, key), [Len(2, body)], 1);
    LenFieldsConcat(TextField(1, key), [Len(2, body)], 2);
  }

  lemma MemoEntryRead(key: Bytes, value: Value)
    requires WellFormed(value) && ValidUtf8(key)
    requires Fits(NamedEntry(key, Encode(value)))
    ensures MemoOf(NamedEntry(key, Encode(value))) == EntryMemo(key, value)
  {
    MemoEntryFields(key, Encode(value));
    LeafRoundTrip(value);
    assert |MEMO_KEY| > 0;
  }

  lemma FirstNamed(keys: seq<Bytes>, values: seq<Value>)
    requires |keys| == |values| && keys != [] && AllWellFormed(values)
    ensures var all := NamedEntries(keys, EncodeAll(values));
            && all[0] == NamedEntry(keys[0], Encode(values[0]))
            && all[1..] == NamedEntries(keys[1..], EncodeAll(values[1..]))
            && forall e <- all[1..] :: e in all
  {
    var all := NamedEntries(keys, EncodeAll(values));
    assert forall i | 1 <= i < |all| :: all[1..][i - 1] == all[i];
  }

  lemma {:induction false} MemoMapRead(keys: seq<Bytes>, values: seq<Value>)
    requires |keys| == |values| && AllWellFormed(values)
    requires forall i | 0 <= i < |keys| :: ValidUtf8(keys[i])
    requires forall e <- NamedEntries(keys, EncodeAll(values)) :: Fits(e)
    ensures MemoIn(NamedEntries(keys, EncodeAll(values))) == TreeMemo(keys, values)
  {
    if keys != [] {
      var all := NamedEntries(keys, EncodeAll(values));
      FirstNamed(keys, values);
      assert all[0] in all;
      MemoEntryRead(keys[0], values[0]);
      MemoMapRead(keys[1..], values[1..]);
      MemoFirst(all, EntryMemo(keys[0], values[0]), TreeMemo(keys[1..], values[1..]));
      TreeMemoFirst(keys, values);
    }
  }

  /** The first entry's memo and the others', or a refusal if either is refused or both are there. */
  function JoinMemo(first: Result<Option<Bytes>>, others: Result<Option<Bytes>>): Result<Option<Bytes>> {
    if first.Err? then first
    else if others.Err? then others
    else if first.value.Some? && others.value.Some? then Err
    else Ok(if first.value.Some? then first.value else others.value)
  }

  lemma TreeMemoFirst(keys: seq<Bytes>, values: seq<Value>)
    requires |keys| == |values| && keys != []
    ensures TreeMemo(keys, values) == JoinMemo(EntryMemo(keys[0], values[0]), TreeMemo(keys[1..], values[1..]))
  {}

  lemma MemoFirst(bodies: seq<Bytes>, first: Result<Option<Bytes>>, others: Result<Option<Bytes>>)
    requires bodies != [] && MemoOf(bodies[0]) == first && MemoIn(bodies[1..]) == others
    ensures MemoIn(bodies) == JoinMemo(first, others)
  {}

  const META_NAMES: seq<Bytes> := [Ascii("values")]

  function MetaValue(labelled: bool, keys: seq<Bytes>, values: seq<Value>): Value {
    Record(labelled, META_NAMES, [Container(TextMapShape(keys), values)])
  }

  lemma TextMapRead(keys: seq<Bytes>, values: seq<Value>)
    requires |keys| == |values| && AllWellFormed(values)
    requires forall i | 0 <= i < |keys| :: ValidUtf8(keys[i])
    requires Fits(Encode(Container(TextMapShape(keys), values)))
    ensures var value := Encode(Container(TextMapShape(keys), values));
            && SingleMember(value).Ok?
            && LenUnique(SingleMember(value).value, V_TEXT_MAP).Ok?
            && LenUnique(SingleMember(value).value, V_TEXT_MAP).value.Some?
            && var body := Message(LenUnique(SingleMember(value).value, V_TEXT_MAP).value.value);
               body.Ok? && MemoIn(LenFields(body.value, 1)) == TreeMemo(keys, values)
  {
    var v := Container(TextMapShape(keys), values);
    OneMessage(v);
    OneUnique(Member(v), V_TEXT_MAP);
    ContainerBodyRead(v.shape, EncodeAll(values));
    MemoMapRead(keys, values);
  }

  lemma MemoRoundTrip(labelled: bool, keys: seq<Bytes>, values: seq<Value>)
    requires |keys| == |values| && AllWellFormed(values)
    requires forall i | 0 <= i < |keys| :: ValidUtf8(keys[i])
    requires Fits(Encode(MetaValue(labelled, keys, values)))
    ensures Memo(Encode(MetaValue(labelled, keys, values))) == TreeMemo(keys, values)
  {
    var table := Container(TextMapShape(keys), values);
    var kids := [table];
    assert kids[1..] == [] && GoodNames(META_NAMES);
    RecordOpens(labelled, META_NAMES, kids);
    FieldFound(labelled, META_NAMES, kids, 0);
    TextMapRead(keys, values);
    MemoOfField(Encode(MetaValue(labelled, keys, values)), Zip(Labels(labelled, META_NAMES), EncodeAll(kids)),
                Encode(table));
  }

  /** The memo of a metadata record whose one entry is found and opened. */
  lemma MemoOfField(value: Bytes, es: seq<Entry>, field: Bytes)
    requires RecordEntries(value) == Ok(es)
    requires var e := EntryByDeclOrder(es, 0, Ascii("values")); e.Ok? && e.value.Some? && e.value.value.value == field
    requires SingleMember(field).Ok? && LenUnique(SingleMember(field).value, V_TEXT_MAP).Ok?
    requires LenUnique(SingleMember(field).value, V_TEXT_MAP).value.Some?
    requires Message(LenUnique(SingleMember(field).value, V_TEXT_MAP).value.value).Ok?
    ensures Memo(value)
         == MemoIn(LenFields(Message(LenUnique(SingleMember(field).value, V_TEXT_MAP).value.value).value, 1))
  {}

  // --------------------------------------------------------------- the transfer

  datatype Terms = Terms(
    expectedAdmin: Str,
    sender: Str,
    receiver: Str,
    amount: Str,
    instrumentAdmin: Str,
    instrumentId: Str,
    requestedAt: nat,
    executeBefore: nat,
    cids: seq<Str>,
    metaKeys: seq<Bytes>,
    metaValues: seq<Value>,
    extraArgs: Value)

  const INSTRUMENT_NAMES: seq<Bytes> := [Ascii("admin"), Ascii("id")]
  const TRANSFER_NAMES: seq<Bytes> := [
    Ascii("sender"), Ascii("receiver"), Ascii("amount"), Ascii("instrumentId"), Ascii("requestedAt"),
    Ascii("executeBefore"), Ascii("inputHoldingCids"), Ascii("meta")]
  const ARGUMENT_NAMES: seq<Bytes> := [Ascii("expectedAdmin"), Ascii("transfer"), Ascii("extraArgs")]

  function InstrumentKids(t: Terms): seq<Value> {
    [Party(t.instrumentAdmin), DamlCodec.Text(t.instrumentId)]
  }

  function InstrumentValue(labelled: bool, t: Terms): Value {
    Record(labelled, INSTRUMENT_NAMES, InstrumentKids(t))
  }

  function TransferKids(labelled: bool, t: Terms): seq<Value> {
    [Party(t.sender), Party(t.receiver), Numeric(t.amount), InstrumentValue(labelled, t),
     Timestamp(t.requestedAt), Timestamp(t.executeBefore), Container(ListShape, CidValues(t.cids)),
     MetaValue(labelled, t.metaKeys, t.metaValues)]
  }

  function TransferValue(labelled: bool, t: Terms): Value {
    Record(labelled, TRANSFER_NAMES, TransferKids(labelled, t))
  }

  function ArgumentKids(labelled: bool, t: Terms): seq<Value> {
    [Party(t.expectedAdmin), TransferValue(labelled, t), t.extraArgs]
  }

  /** The choice argument of a transfer. */
  function Argument(labelled: bool, t: Terms): Value {
    Record(labelled, ARGUMENT_NAMES, ArgumentKids(labelled, t))
  }

  predicate GoodTerms(t: Terms) {
    && t.requestedAt < TWO_64 && t.executeBefore < TWO_64
    && |t.metaKeys| == |t.metaValues| && AllWellFormed(t.metaValues) && WellFormed(t.extraArgs)
    && forall i :: 0 <= i < |t.metaKeys| ==> ValidUtf8(t.metaKeys[i])
  }

  lemma KidsWellFormed(kids: seq<Value>)
    requires forall i | 0 <= i < |kids| :: WellFormed(kids[i])
    ensures AllWellFormed(kids)
  {
    if kids != [] {
      KidsWellFormed(kids[1..]);
    }
  }

  lemma InstrumentWellFormed(labelled: bool, t: Terms)
    ensures AllWellFormed(InstrumentKids(t)) && WellFormed(InstrumentValue(labelled, t))
  {
    KidsWellFormed(InstrumentKids(t));
  }

  lemma MetaWellFormed(labelled: bool, keys: seq<Bytes>, values: seq<Value>)
    requires |keys| == |values| && AllWellFormed(values)
    ensures WellFormed(MetaValue(labelled, keys, values))
  {
    KidsWellFormed([Container(TextMapShape(keys), values)]);
  }

  lemma TransferWellFormed(labelled: bool, t: Terms)
    requires GoodTerms(t)
    ensures AllWellFormed(TransferKids(labelled, t)) && WellFormed(TransferValue(labelled, t))
    ensures AllWellFormed(ArgumentKids(labelled, t)) && WellFormed(Argument(labelled, t))
  {
    InstrumentWellFormed(labelled, t);
    MetaWellFormed(labelled, t.metaKeys, t.metaValues);
    KidsWellFormed(TransferKids(labelled, t));
    KidsWellFormed(ArgumentKids(labelled, t));
  }

  lemma NamesAreGood()
    ensures GoodNames(INSTRUMENT_NAMES) && GoodNames(ARGUMENT_NAMES) && GoodNames(TRANSFER_NAMES)
  {
    assert Ascii("sender")[0] != Ascii("amount")[0];
  }

  /** One field of a record written in declaration order: where it is found and that
      its value fits. */
  lemma FieldFound(labelled: bool, names: seq<Bytes>, kids: seq<Value>, i: nat)
    requires GoodNames(names) && |names| == |kids| && AllWellFormed(kids) && i < |names|
    requires forall k | 0 <= k < |kids| :: Fits(EncodeAll(kids)[k])
    ensures var es := Zip(Labels(labelled, names), EncodeAll(kids));
            WellFormed(kids[i]) && Fits(Encode(kids[i]))
            && EntryByDeclOrder(es, i, names[i]) == Ok(Some(Entry(Labels(labelled, names)[i], Encode(kids[i]))))
            && LeafAt(es, i, names[i]) == Ok(ScalarLeaf(kids[i]))
  {
    EncodeAllAt(kids, i);
    FoundAtPosition(labelled, names, EncodeAll(kids), i);
    LeafRoundTrip(kids[i]);
  }

  lemma RecordOpens(labelled: bool, names: seq<Bytes>, kids: seq<Value>)
    requires GoodNames(names) && |names| == |kids| && AllWellFormed(kids)
    requires Fits(Encode(Record(labelled, names, kids)))
    ensures RecordEntries(Encode(Record(labelled, names, kids))) == Ok(Zip(Labels(labelled, names), EncodeAll(kids)))
    ensures forall k | 0 <= k < |kids| :: Fits(EncodeAll(kids)[k])
  {
    NamesAreDistinctLabels(labelled, names, EncodeAll(kids));
    RecordRoundTrip(Labels(labelled, names), kids);
  }

  lemma InstrumentFields(labelled: bool, t: Terms)
    requires AllWellFormed(InstrumentKids(t))
    requires forall k | 0 <= k < 2 :: Fits(EncodeAll(InstrumentKids(t))[k])
    ensures var es := Zip(Labels(labelled, INSTRUMENT_NAMES), EncodeAll(InstrumentKids(t)));
            && PartyAt(es, 0, Ascii("admin")) == Ok(StripBom(t.instrumentAdmin))
            && TextAt(es, 1, Ascii("id")) == Ok(StripBom(t.instrumentId))
  {
    NamesAreGood();
    FieldFound(labelled, INSTRUMENT_NAMES, InstrumentKids(t), 0);
    FieldFound(labelled, INSTRUMENT_NAMES, InstrumentKids(t), 1);
  }

  lemma InstrumentRoundTrip(labelled: bool, t: Terms)
    requires WellFormed(InstrumentValue(labelled, t)) && Fits(Encode(InstrumentValue(labelled, t)))
    ensures InstrumentOf(Encode(InstrumentValue(labelled, t)))
         == Ok(Instrument(StripBom(t.instrumentAdmin), StripBom(t.instrumentId)))
  {
    NamesAreGood();
    InstrumentWellFormed(labelled, t);
    RecordOpens(labelled, INSTRUMENT_NAMES, InstrumentKids(t));
    InstrumentFields(labelled, t);
  }

  /** What the extraction owes for these terms. */
  function Expected(t: Terms): Result<Transfer>
    requires GoodTerms(t)
  {
    var memo :- TreeMemo(t.metaKeys, t.metaValues);
    Ok(Transfer(StripBom(t.sender), StripBom(t.receiver), StripBom(t.amount),
                Instrument(StripBom(t.instrumentAdmin), StripBom(t.instrumentId)),
                Some(t.executeBefore / 1000), Shown(t.cids), memo))
  }

  function TransferEntries(labelled: bool, t: Terms): seq<Entry>
    requires AllWellFormed(TransferKids(labelled, t))
  {
    Zip(Labels(labelled, TRANSFER_NAMES), EncodeAll(TransferKids(labelled, t)))
  }

  predicate TransferFits(labelled: bool, t: Terms) {
    && GoodTerms(t)
    && AllWellFormed(TransferKids(labelled, t))
    && forall k :: 0 <= k < 8 ==> Fits(EncodeAll(TransferKids(labelled, t))[k])
  }

  lemma TransferField(labelled: bool, t: Terms, i: nat)
    requires TransferFits(labelled, t) && i < 8
    ensures var es, kid := TransferEntries(labelled, t), TransferKids(labelled, t)[i];
            && WellFormed(kid) && Fits(Encode(kid)) && |es| == 8
            && LeafAt(es, i, TRANSFER_NAMES[i]) == Ok(ScalarLeaf(kid))
            && EntryByDeclOrder(es, i, TRANSFER_NAMES[i]).Ok?
            && EntryByDeclOrder(es, i, TRANSFER_NAMES[i]).value.Some?
            && EntryByDeclOrder(es, i, TRANSFER_NAMES[i]).value.value.value == Encode(kid)
  {
    NamesAreGood();
    FieldFound(labelled, TRANSFER_NAMES, TransferKids(labelled, t), i);
  }

  lemma MoneyFields(labelled: bool, t: Terms)
    requires TransferFits(labelled, t)
    ensures var es := TransferEntries(labelled, t);
            && PartyAt(es, 0, Ascii("sender")) == Ok(StripBom(t.sender))
            && PartyAt(es, 1, Ascii("receiver")) == Ok(StripBom(t.receiver))
            && NumericAt(es, 2, Ascii("amount")) == Ok(StripBom(t.amount))
  {
    TransferField(labelled, t, 0);
    TransferField(labelled, t, 1);
    TransferField(labelled, t, 2);
  }

  lemma InstrumentField(labelled: bool, t: Terms)
    requires TransferFits(labelled, t)
    ensures InstrumentAt(TransferEntries(labelled, t))
         == Ok(Instrument(StripBom(t.instrumentAdmin), StripBom(t.instrumentId)))
  {
    TransferField(labelled, t, 3);
    InstrumentRoundTrip(labelled, t);
  }

  lemma DeadlineField(labelled: bool, t: Terms)
    requires TransferFits(labelled, t)
    ensures DeadlineAt(TransferEntries(labelled, t)) == Ok(Some(t.executeBefore / 1000))
  {
    TransferField(labelled, t, 5);
    LeafRoundTrip(Timestamp(t.executeBefore));
  }

  lemma HoldingsField(labelled: bool, t: Terms)
    requires TransferFits(labelled, t)
    ensures HoldingsAt(TransferEntries(labelled, t)) == Ok(Shown(t.cids))
  {
    TransferField(labelled, t, 6);
    HoldingsRoundTrip(t.cids);
  }

  lemma MemoField(labelled: bool, t: Terms)
    requires TransferFits(labelled, t)
    ensures MemoAt(TransferEntries(labelled, t)) == TreeMemo(t.metaKeys, t.metaValues)
  {
    TransferField(labelled, t, 7);
    MemoRoundTrip(labelled, t.metaKeys, t.metaValues);
  }

  lemma TransferRead(labelled: bool, t: Terms)
    requires TransferFits(labelled, t)
    ensures TransferOf(TransferEntries(labelled, t)) == Expected(t)
  {
    MoneyFields(labelled, t);
    InstrumentField(labelled, t);
    DeadlineField(labelled, t);
    HoldingsField(labelled, t);
    MemoField(labelled, t);
  }

  /** From the encoding of any transfer, labelled in declaration order or unlabelled,
      the extraction recovers sender, receiver, amount, instrument, input holdings,
      deadline in milliseconds and memo; two memos or one that is no text are refused. */
  lemma TransferRoundTrip(labelled: bool, t: Terms)
    requires GoodTerms(t)
    requires WellFormed(Argument(labelled, t)) && Fits(Encode(Argument(labelled, t)))
    ensures ExtractTransfer(Encode(Argument(labelled, t))) == Expected(t)
  {
    var kids := ArgumentKids(labelled, t);
    NamesAreGood();
    TransferWellFormed(labelled, t);
    RecordOpens(labelled, ARGUMENT_NAMES, kids);
    FieldFound(labelled, ARGUMENT_NAMES, kids, 1);
    TransferOpens(labelled, t);
    TransferRead(labelled, t);
  }

  lemma TransferOpens(labelled: bool, t: Terms)
    requires GoodTerms(t)
    requires WellFormed(TransferValue(labelled, t)) && Fits(Encode(TransferValue(labelled, t)))
    ensures TransferFits(labelled, t)
    ensures RecordEntries(Encode(TransferValue(labelled, t))) == Ok(TransferEntries(labelled, t))
  {
    NamesAreGood();
    TransferWellFormed(labelled, t);
    RecordOpens(labelled, TRANSFER_NAMES, TransferKids(labelled, t));
  }
}
