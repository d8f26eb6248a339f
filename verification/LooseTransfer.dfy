/** The terms of a transfer, read off the bytes of a choice argument without refusing anything.
    Whatever argument the extraction accepts, it extracts what is written. */
module LooseTransfer {
  import opened Results
  import opened Wire
  import opened DamlValue
  import opened LooseReader
  import opened TransferRecord
  import Text

  // ---------------------------------------------------------------------- records

  /** The field bodies of a record value, in order. */
  function RecordFields(value: Bytes): seq<Bytes> {
    FieldsOfAll(Fields(value, V_RECORD), 2)
  }

  /** The value of the field at a position; nothing when there is none. */
  function At(value: Bytes, position: nat): Bytes {
    var bodies := RecordFields(value);
    if position < |bodies| && Fields(bodies[position], 2) != [] then Fields(bodies[position], 2)[0] else []
  }

  /** The record is written once, and so is its field's value. */
  predicate WrittenOnce(value: Bytes, position: nat) {
    && |Fields(value, V_RECORD)| == 1
    && position < |RecordFields(value)|
    && |Fields(RecordFields(value)[position], 2)| == 1
  }

  lemma {:induction false} EntriesOfAt(bodies: seq<Bytes>, i: nat)
    requires EntriesOf(bodies).Ok? && i < |bodies|
    ensures EntryOf(bodies[i]) == Ok(EntriesOf(bodies).value[i])
  {
    if i > 0 {
      EntriesOfAt(bodies[1..], i - 1);
    }
  }

  lemma RecordFound(value: Bytes) returns (rec: Bytes)
    requires RecordEntries(value).Ok?
    ensures Fields(value, V_RECORD) == [rec] && RecordFields(value) == Fields(rec, 2)
    ensures EntriesOf(RecordFields(value)) == RecordEntries(value)
  {
    rec := LenFields(Message(value).value, V_RECORD)[0];
    FieldsOfOne(Fields(value, V_RECORD), 2);
  }

  lemma EntryIsLoose(body: Bytes)
    requires EntryOf(body).Ok?
    ensures Fields(body, 2) == [EntryOf(body).value.value]
  {
  }

  /** An accepted record's entry at a position is the value written there. */
  lemma RecordIsLoose(value: Bytes, position: nat)
    requires RecordEntries(value).Ok? && position < |RecordEntries(value).value|
    ensures |RecordFields(value)| == |RecordEntries(value).value|
    ensures WrittenOnce(value, position) && At(value, position) == RecordEntries(value).value[position].value
  {
    var rec := RecordFound(value);
    EntriesOfAt(RecordFields(value), position);
    EntryIsLoose(RecordFields(value)[position]);
  }

  // ---------------------------------------------------------------------- scalars

  /** Exactly this text, shown under exactly one occurrence of a member. */
  predicate Writes(value: Bytes, member: nat, text: Bytes) {
    Shown(Fields(value, member)) == [text]
  }

  lemma OneShown(b: Bytes)
    ensures Shown([b]) == [StripBom(b)]
  {
    assert [b][1..] == [];
  }

  lemma PartyLeafWritten(value: Bytes)
    requires LeafOf(value).Ok? && LeafOf(value).value.Some? && LeafOf(value).value.value.PartyLeaf?
    ensures Writes(value, V_PARTY, LeafOf(value).value.value.text)
  {
    var b := PartyLeafIs(Message(value).value);
    OneShown(b);
  }

  lemma PartyLeafIs(fs: seq<WireField>) returns (b: Bytes)
    requires LeafOfFields(fs).Ok? && LeafOfFields(fs).value.Some? && LeafOfFields(fs).value.value.PartyLeaf?
    ensures LenFields(fs, V_PARTY) == [b] && LeafOfFields(fs).value.value.text == StripBom(b)
  {
    b := LenFields(fs, V_PARTY)[0];
  }

  lemma NumericLeafWritten(value: Bytes)
    requires LeafOf(value).Ok? && LeafOf(value).value.Some? && LeafOf(value).value.value.NumericLeaf?
    ensures Writes(value, V_NUMERIC, LeafOf(value).value.value.text)
  {
    var b := NumericLeafIs(Message(value).value);
    OneShown(b);
  }

  lemma NumericLeafIs(fs: seq<WireField>) returns (b: Bytes)
    requires LeafOfFields(fs).Ok? && LeafOfFields(fs).value.Some? && LeafOfFields(fs).value.value.NumericLeaf?
    ensures LenFields(fs, V_NUMERIC) == [b] && LeafOfFields(fs).value.value.text == StripBom(b)
  {
    b := LenFields(fs, V_NUMERIC)[0];
  }

  lemma TextLeafWritten(value: Bytes)
    requires LeafOf(value).Ok? && LeafOf(value).value.Some? && LeafOf(value).value.value.TextLeaf?
    ensures Writes(value, V_TEXT, LeafOf(value).value.value.text)
  {
    var b := TextLeafIs(Message(value).value);
    OneShown(b);
  }

  lemma TextLeafIs(fs: seq<WireField>) returns (b: Bytes)
    requires LeafOfFields(fs).Ok? && LeafOfFields(fs).value.Some? && LeafOfFields(fs).value.value.TextLeaf?
    ensures LenFields(fs, V_TEXT) == [b] && LeafOfFields(fs).value.value.text == StripBom(b)
  {
    b := LenFields(fs, V_TEXT)[0];
  }

  lemma PartyWritten(es: seq<Entry>, position: nat, name: Bytes)
    requires PartyAt(es, position, name).Ok?
    ensures position < |es| && Writes(es[position].value, V_PARTY, PartyAt(es, position, name).value)
  {
    PartyLeafWritten(es[position].value);
  }

  lemma NumericWritten(es: seq<Entry>, position: nat, name: Bytes)
    requires NumericAt(es, position, name).Ok?
    ensures position < |es| && Writes(es[position].value, V_NUMERIC, NumericAt(es, position, name).value)
  {
    NumericLeafWritten(es[position].value);
  }

  lemma TextWritten(es: seq<Entry>, position: nat, name: Bytes)
    requires TextAt(es, position, name).Ok?
    ensures position < |es| && Writes(es[position].value, V_TEXT, TextAt(es, position, name).value)
  {
    TextLeafWritten(es[position].value);
  }

  // ------------------------------------------------------- instrument and holdings

  predicate InstrumentWritten(value: Bytes, instrument: Instrument) {
    && WrittenOnce(value, 0) && Writes(At(value, 0), V_PARTY, instrument.admin)
    && WrittenOnce(value, 1) && Writes(At(value, 1), V_TEXT, instrument.id)
  }

  lemma InstrumentIsLoose(value: Bytes)
    requires InstrumentOf(value).Ok?
    ensures InstrumentWritten(value, InstrumentOf(value).value)
  {
    var es := RecordEntries(value).value;
    PartyWritten(es, 0, Text.Ascii("admin"));
    TextWritten(es, 1, Text.Ascii("id"));
    RecordIsLoose(value, 0);
    RecordIsLoose(value, 1);
  }

  /** The contract ids of a list value. */
  function ListedCids(value: Bytes): seq<Bytes> {
    FieldsOfAll(FieldsOfAll(Fields(value, V_LIST), 1), V_CONTRACT_ID)
  }

  lemma CidIsLoose(value: Bytes)
    requires CidOf(value).Ok?
    ensures Shown(Fields(value, V_CONTRACT_ID)) == [CidOf(value).value]
  {
    OneShown(LenFields(Message(value).value, V_CONTRACT_ID)[0]);
  }

  lemma {:induction false} CidsAreLoose(values: seq<Bytes>)
    requires CidsOf(values).Ok?
    ensures CidsOf(values).value == Shown(FieldsOfAll(values, V_CONTRACT_ID))
  {
    if values != [] {
      CidIsLoose(values[0]);
      CidsAreLoose(values[1..]);
      ShownConcat(Fields(values[0], V_CONTRACT_ID), FieldsOfAll(values[1..], V_CONTRACT_ID));
    }
  }

  lemma HoldingsAreLoose(value: Bytes)
    requires InputHoldingCids(value).Ok?
    ensures InputHoldingCids(value).value == Shown(ListedCids(value))
  {
    var list := Fields(value, V_LIST);
    FieldsOfOne(list, 1);
    CidsAreLoose(Fields(list[0], 1));
  }

  // --------------------------------------------------------------------- deadline

  /** Every 64-bit time written in a value, in milliseconds. */
  function Deadlines(value: Bytes): seq<nat> {
    if Message(value).Ok? then Millis(Fixed64Fields(Message(value).value, V_TIMESTAMP)) else []
  }

  function Millis(raw: seq<Bytes>): seq<nat> {
    if raw == [] then [] else [LittleEndian(raw[0]) / 1000] + Millis(raw[1..])
  }

  lemma TimestampIs(fs: seq<WireField>)
    requires LeafOfFields(fs).Ok? && CountedMembers(fs) <= 1
    ensures var leaf, raw := LeafOfFields(fs).value, Fixed64Fields(fs, V_TIMESTAMP);
            if leaf.Some? && leaf.value.TimestampLeaf? then |raw| == 1 && LittleEndian(raw[0]) == leaf.value.micros
            else raw == []
  {
    AtMostOneMember(fs, V_PARTY, V_NUMERIC);
    AtMostOneMember(fs, V_PARTY, V_TEXT);
    if LenFields(fs, V_PARTY) == [] && LenFields(fs, V_NUMERIC) == [] && LenFields(fs, V_TEXT) == [] {
      assert LeafOfFields(fs) == NumberLeaf(fs);
      NumberIs(fs);
    }
  }

  lemma NumberIs(fs: seq<WireField>)
    requires NumberLeaf(fs).Ok? && |VarintFields(fs, V_INT64)| + |Fixed64Fields(fs, V_TIMESTAMP)| <= 1
    ensures var leaf, raw := NumberLeaf(fs).value, Fixed64Fields(fs, V_TIMESTAMP);
            if leaf.Some? && leaf.value.TimestampLeaf? then |raw| == 1 && LittleEndian(raw[0]) == leaf.value.micros
            else raw == []
  {
  }

  lemma DeadlineIsLoose(value: Bytes)
    requires TimestampMs(value).Ok?
    ensures Deadlines(value) == OptTime(TimestampMs(value).value)
  {
    var raw := Fixed64Fields(Message(value).value, V_TIMESTAMP);
    TimestampIs(Message(value).value);
    if raw != [] {
      OneMillis(raw[0]);
      assert raw == [raw[0]];
    }
  }

  lemma OneMillis(raw: Bytes)
    ensures Millis([raw]) == [LittleEndian(raw) / 1000]
  {
    assert [raw][1..] == [];
  }

  function OptTime(o: Option<nat>): seq<nat> {
    if o.Some? then [o.value] else []
  }

  // ------------------------------------------------------------------------- memo

  /** The texts that map entries hold under the memo key. */
  function MemoTexts(entries: seq<Bytes>): seq<Bytes> {
    if entries == [] then []
    else
      (if Shown(Fields(entries[0], 1)) == [MEMO_KEY] then FieldsOfAll(Fields(entries[0], 2), V_TEXT) else [])
      + MemoTexts(entries[1..])
  }

  /** The memos of a metadata value: its one field is a map of texts. */
  function Memos(value: Bytes): seq<Bytes> {
    MemoTexts(FieldsOfAll(Fields(At(value, 0), V_TEXT_MAP), 1))
  }

  function OptText(o: Option<Bytes>): seq<Bytes> {
    if o.Some? then [o.value] else []
  }

  lemma MemoEntryIsLoose(body: Bytes)
    requires MemoOf(body).Ok?
    ensures Shown(MemoTexts([body])) == OptText(MemoOf(body).value)
  {
    var fs := Message(body).value;
    var keys := Fields(body, 1);
    assert [body][1..] == [];
    MemoTextsOne(body);
    if keys != [] {
      OneShown(keys[0]);
      assert keys == [keys[0]];
      if Utf8(keys[0]).value == MEMO_KEY {
        var v := LenFields(fs, 2)[0];
        FieldsOfOne(Fields(body, 2), V_TEXT);
        TextLeafWritten(v);
      }
    }
  }

  lemma MemoTextsOne(body: Bytes)
    ensures MemoTexts([body])
         == if Shown(Fields(body, 1)) == [MEMO_KEY] then FieldsOfAll(Fields(body, 2), V_TEXT) else []
  {
    assert [body][1..] == [];
  }

  lemma {:induction false} MemosAreLoose(bodies: seq<Bytes>)
    requires MemoIn(bodies).Ok?
    ensures Shown(MemoTexts(bodies)) == OptText(MemoIn(bodies).value)
  {
    if bodies != [] {
      MemoEntryIsLoose(bodies[0]);
      MemoTextsOne(bodies[0]);
      MemosAreLoose(bodies[1..]);
      ShownConcat(MemoTexts([bodies[0]]), MemoTexts(bodies[1..]));
    }
  }

  lemma MemoIsLoose(value: Bytes)
    requires Memo(value).Ok?
    ensures Shown(Memos(value)) == OptText(Memo(value).value)
  {
    var es := RecordEntries(value).value;
    var rec := RecordFound(value);
    if es != [] {
      RecordIsLoose(value, 0);
      var maps := Fields(At(value, 0), V_TEXT_MAP);
      if maps != [] {
        FieldsOfOne(maps, 1);
        MemosAreLoose(Fields(maps[0], 1));
      }
    } else {
      assert Fields([], V_TEXT_MAP) == [];
    }
  }

  // ---------------------------------------------------------------- the transfer

  /** A transfer value in which these terms are written, each at its position; every field of the
      record, trailing ones included, is written once. */
  predicate TermsWritten(value: Bytes, t: Transfer) {
    && |RecordFields(value)| > 3 && (forall i | 0 <= i < |RecordFields(value)| :: WrittenOnce(value, i))
    && Writes(At(value, 0), V_PARTY, t.sender)
    && Writes(At(value, 1), V_PARTY, t.receiver)
    && Writes(At(value, 2), V_NUMERIC, t.amount)
    && InstrumentWritten(At(value, 3), t.instrument)
    && OptTime(t.executeBeforeMs) == Deadlines(At(value, 5))
    && t.inputHoldingCids == Shown(ListedCids(At(value, 6)))
    && OptText(t.memo) == Shown(Memos(At(value, 7)))
  }

  lemma MoneyParts(es: seq<Entry>, sender: Bytes, receiver: Bytes, amount: Bytes)
    requires MoneyOf(es).Ok?
    requires sender == Text.Ascii("sender") && receiver == Text.Ascii("receiver") && amount == Text.Ascii("amount")
    ensures PartyAt(es, 0, sender) == Ok(MoneyOf(es).value.sender)
    ensures PartyAt(es, 1, receiver) == Ok(MoneyOf(es).value.receiver)
    ensures NumericAt(es, 2, amount) == Ok(MoneyOf(es).value.amount)
  {
  }

  lemma TransferParts(es: seq<Entry>, t: Transfer)
    requires TransferOf(es) == Ok(t)
    ensures MoneyOf(es) == Ok(Money(t.sender, t.receiver, t.amount)) && InstrumentAt(es) == Ok(t.instrument)
    ensures DeadlineAt(es) == Ok(t.executeBeforeMs)
    ensures HoldingsAt(es) == Ok(t.inputHoldingCids) && MemoAt(es) == Ok(t.memo)
  {
  }

  lemma PartyAtWritten(value: Bytes, position: nat, name: Bytes, party: Bytes)
    requires RecordEntries(value).Ok? && PartyAt(RecordEntries(value).value, position, name) == Ok(party)
    ensures WrittenOnce(value, position) && Writes(At(value, position), V_PARTY, party)
  {
    PartyWritten(RecordEntries(value).value, position, name);
    RecordIsLoose(value, position);
  }

  lemma NumericAtWritten(value: Bytes, position: nat, name: Bytes, amount: Bytes)
    requires RecordEntries(value).Ok? && NumericAt(RecordEntries(value).value, position, name) == Ok(amount)
    ensures WrittenOnce(value, position) && Writes(At(value, position), V_NUMERIC, amount)
  {
    NumericWritten(RecordEntries(value).value, position, name);
    RecordIsLoose(value, position);
  }

  lemma InstrumentAtWritten(value: Bytes)
    requires RecordEntries(value).Ok? && InstrumentAt(RecordEntries(value).value).Ok?
    ensures WrittenOnce(value, 3)
    ensures InstrumentWritten(At(value, 3), InstrumentAt(RecordEntries(value).value).value)
  {
    var es := RecordEntries(value).value;
    RecordIsLoose(value, 3);
    InstrumentIsLoose(es[3].value);
  }

  lemma DeadlineWritten(value: Bytes)
    requires RecordEntries(value).Ok? && DeadlineAt(RecordEntries(value).value).Ok?
    ensures OptTime(DeadlineAt(RecordEntries(value).value).value) == Deadlines(At(value, 5))
  {
    var es := RecordEntries(value).value;
    var rec := RecordFound(value);
    if |es| > 5 {
      RecordIsLoose(value, 5);
      DeadlineIsLoose(es[5].value);
    } else {
      assert Message([]) == Ok([]) && Deadlines([]) == [];
    }
  }

  lemma AllWrittenOnce(value: Bytes)
    requires RecordEntries(value).Ok?
    ensures |RecordFields(value)| == |RecordEntries(value).value|
    ensures forall i | 0 <= i < |RecordFields(value)| :: WrittenOnce(value, i)
  {
    var rec := RecordFound(value);
    forall i | 0 <= i < |RecordFields(value)|
      ensures WrittenOnce(value, i)
    {
      RecordIsLoose(value, i);
    }
  }

  lemma HoldingsWritten(value: Bytes)
    requires RecordEntries(value).Ok? && HoldingsAt(RecordEntries(value).value).Ok?
    ensures HoldingsAt(RecordEntries(value).value).value == Shown(ListedCids(At(value, 6)))
  {
    var es := RecordEntries(value).value;
    var rec := RecordFound(value);
    if |es| > 6 {
      RecordIsLoose(value, 6);
      HoldingsAreLoose(es[6].value);
    } else {
      assert Fields([], V_LIST) == [];
    }
  }

  lemma MemoWritten(value: Bytes)
    requires RecordEntries(value).Ok? && MemoAt(RecordEntries(value).value).Ok?
    ensures OptText(MemoAt(RecordEntries(value).value).value) == Shown(Memos(At(value, 7)))
  {
    var es := RecordEntries(value).value;
    var rec := RecordFound(value);
    if |es| > 7 {
      RecordIsLoose(value, 7);
      MemoIsLoose(es[7].value);
    } else {
      assert Fields([], V_RECORD) == [] && Fields([], V_TEXT_MAP) == [];
    }
  }

  lemma TransferIsLoose(value: Bytes, t: Transfer)
    requires RecordEntries(value).Ok? && TransferOf(RecordEntries(value).value) == Ok(t)
    ensures TermsWritten(value, t)
  {
    var es, sender, receiver, amount :=
      RecordEntries(value).value, Text.Ascii("sender"), Text.Ascii("receiver"), Text.Ascii("amount");
    TransferParts(es, t);
    MoneyParts(es, sender, receiver, amount);
    PartyAtWritten(value, 0, sender, t.sender);
    PartyAtWritten(value, 1, receiver, t.receiver);
    NumericAtWritten(value, 2, amount, t.amount);
    InstrumentAtWritten(value);
    AllWrittenOnce(value);
    DeadlineWritten(value);
    HoldingsWritten(value);
    MemoWritten(value);
  }

  /** Whatever choice argument the extraction accepts, labelled wholly, partly or not at all, the
      terms it extracts are those written at the declared positions, each written once. */
  lemma ExtractIsLoose(chosenValue: Bytes)
    requires ExtractTransfer(chosenValue).Ok?
    ensures WrittenOnce(chosenValue, 1) && TermsWritten(At(chosenValue, 1), ExtractTransfer(chosenValue).value)
  {
    RecordIsLoose(chosenValue, 1);
    TransferIsLoose(At(chosenValue, 1), ExtractTransfer(chosenValue).value);
  }
}
