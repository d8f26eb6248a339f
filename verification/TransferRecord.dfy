/** Reading the transfer out of a `TransferFactory_Transfer` choice argument: every
    field at the position where the ledger binds it, with labels as a cross-check. */
module TransferRecord {
  import opened Results
  import opened Wire
  import opened DamlValue
  import opened Text

  /** One record field: its label, empty when the encoding carries none, and the
      encoded value. */
  datatype Entry = Entry(name: Bytes, value: Bytes)

  function EntryOf(body: Bytes): (r: Result<Entry>)
  {
    var fs :- Message(body);
    var name :- LenUnique(fs, 1);
    var value :- LenUnique(fs, 2);
    if value.None? then Err
    else if name.None? then Ok(Entry([], value.value))
    else
      var t :- Utf8(name.value);
      Ok(Entry(t, value.value))
  }

  function EntriesOf(bodies: seq<Bytes>): (r: Result<seq<Entry>>)
    ensures r.Ok? ==> |r.value| == |bodies|
  {
    if bodies == [] then Ok([])
    else
      var first :- EntryOf(bodies[0]);
      var others :- EntriesOf(bodies[1..]);
      Ok([first] + others)
  }

  /** No two entries share a label, unless they carry none. */
  predicate DistinctLabels(es: seq<Entry>) {
    forall i, j :: 0 <= i < j < |es| && es[i].name == es[j].name ==> es[i].name == []
  }

  function RecordEntries(value: Bytes): (r: Result<seq<Entry>>)
    ensures r.Ok? ==> DistinctLabels(r.value)
  {
    var fs :- SingleMember(value);
    var rec :- LenUnique(fs, V_RECORD);
    if rec.None? then Err
    else
      var body :- Message(rec.value);
      var es :- EntriesOf(LenFields(body, 2));
      if DistinctLabels(es) then Ok(es) else Err
  }

  /** `name` sits at no other place than `position`. */
  predicate OnlyAt(es: seq<Entry>, position: nat, name: Bytes) {
    forall i :: 0 <= i < |es| && i != position ==> es[i].name != name
  }

  /** The entry the ledger binds at `position`, refused if its label disagrees or if
      another entry carries the label. */
  function EntryByDeclOrder(es: seq<Entry>, position: nat, name: Bytes): (r: Result<Option<Entry>>)
  {
    if !OnlyAt(es, position, name) then Err
    else if position >= |es| then Ok(None)
    else if es[position].name != [] && es[position].name != name then Err
    else Ok(Some(es[position]))
  }

  function PartyAt(es: seq<Entry>, position: nat, name: Bytes): (r: Result<Bytes>)
  {
    var leaf :- LeafAt(es, position, name);
    if leaf.Some? && leaf.value.PartyLeaf? then Ok(leaf.value.text) else Err
  }

  function NumericAt(es: seq<Entry>, position: nat, name: Bytes): (r: Result<Bytes>)
  {
    var leaf :- LeafAt(es, position, name);
    if leaf.Some? && leaf.value.NumericLeaf? then Ok(leaf.value.text) else Err
  }

  function TextAt(es: seq<Entry>, position: nat, name: Bytes): (r: Result<Bytes>)
  {
    var leaf :- LeafAt(es, position, name);
    if leaf.Some? && leaf.value.TextLeaf? then Ok(leaf.value.text) else Err
  }

  /** The scalar at a position; nothing when the position or the scalar is missing. */
  function LeafAt(es: seq<Entry>, position: nat, name: Bytes): (r: Result<Option<Leaf>>)
  {
    var e :- EntryByDeclOrder(es, position, name);
    if e.None? then Ok(None)
    else if LeafOf(e.value.value).Err? then Err
    else LeafOf(e.value.value)
  }

  // ------------------------------------------------------------ trailing fields

  /** A deadline in milliseconds; nothing when the field is no timestamp. */
  function TimestampMs(value: Bytes): (r: Result<Option<nat>>)
  {
    if LeafOf(value).Err? then Err
    else
      match LeafOf(value).value
      case Some(TimestampLeaf(micros)) => Ok(Some(micros / 1000))
      case _ => Ok(None)
  }

  function CidOf(value: Bytes): (r: Result<Bytes>)
  {
    var fs :- SingleMember(value);
    var cid :- LenUnique(fs, V_CONTRACT_ID);
    if cid.None? then Err else Utf8(cid.value)
  }

  function CidsOf(values: seq<Bytes>): (r: Result<seq<Bytes>>)
  {
    if values == [] then Ok([])
    else
      var first :- CidOf(values[0]);
      var others :- CidsOf(values[1..]);
      Ok([first] + others)
  }

  function InputHoldingCids(value: Bytes): (r: Result<seq<Bytes>>)
  {
    var fs :- SingleMember(value);
    var list :- LenUnique(fs, V_LIST);
    if list.None? then Err
    else
      var body :- Message(list.value);
      CidsOf(LenFields(body, 1))
  }

  const MEMO_KEY: Bytes := Ascii("x402.memo")

  /** The memo of one metadata entry: nothing under another key, a refusal when the
      memo is no text. */
  function MemoOf(body: Bytes): (r: Result<Option<Bytes>>)
  {
    var fs :- Message(body);
    var rawKey :- LenUnique(fs, 1);
    if rawKey.None? then Ok(None)
    else
      var key :- Utf8(rawKey.value);
      if key != MEMO_KEY then Ok(None)
      else
        var v :- LenUnique(fs, 2);
        if v.None? || LeafOf(v.value).Err? then Err
        else
          match LeafOf(v.value).value
          case Some(TextLeaf(t)) => Ok(Some(t))
          case _ => Err
  }

  /** The single memo of a metadata map; two are refused rather than resolved. */
  function MemoIn(bodies: seq<Bytes>): (r: Result<Option<Bytes>>)
  {
    if bodies == [] then Ok(None)
    else
      var first :- MemoOf(bodies[0]);
      var others :- MemoIn(bodies[1..]);
      if first.Some? && others.Some? then Err
      else Ok(if first.Some? then first else others)
  }

  function Memo(value: Bytes): (r: Result<Option<Bytes>>)
  {
    var es :- RecordEntries(value);
    var e :- EntryByDeclOrder(es, 0, Ascii("values"));
    if e.None? then Ok(None)
    else
      var fs :- SingleMember(e.value.value);
      var tm :- LenUnique(fs, V_TEXT_MAP);
      if tm.None? then Ok(None)
      else
        var body :- Message(tm.value);
        MemoIn(LenFields(body, 1))
  }

  // ---------------------------------------------------------------- the transfer

  datatype Instrument = Instrument(admin: Bytes, id: Bytes)

  function InstrumentOf(value: Bytes): (r: Result<Instrument>)
  {
    var es :- RecordEntries(value);
    var admin :- PartyAt(es, 0, Ascii("admin"));
    var id :- TextAt(es, 1, Ascii("id"));
    Ok(Instrument(admin, id))
  }

  datatype Transfer = Transfer(
    sender: Bytes,
    receiver: Bytes,
    amount: Bytes,
    instrument: Instrument,
    executeBeforeMs: Option<nat>,
    inputHoldingCids: seq<Bytes>,
    memo: Option<Bytes>)

  /** A trailing field, looked up only in a record long enough to declare it. */
  function Trailing(es: seq<Entry>, position: nat, name: Bytes): (r: Result<Option<Entry>>)
  {
    if |es| > position then EntryByDeclOrder(es, position, name) else Ok(None)
  }

  function InstrumentAt(es: seq<Entry>): (r: Result<Instrument>)
  {
    var e :- EntryByDeclOrder(es, 3, Ascii("instrumentId"));
    if e.None? then Err else InstrumentOf(e.value.value)
  }

  function DeadlineAt(es: seq<Entry>): (r: Result<Option<nat>>)
  {
    var e :- Trailing(es, 5, Ascii("executeBefore"));
    if e.Some? then TimestampMs(e.value.value) else Ok(None)
  }

  function HoldingsAt(es: seq<Entry>): (r: Result<seq<Bytes>>)
  {
    var e :- Trailing(es, 6, Ascii("inputHoldingCids"));
    if e.Some? then InputHoldingCids(e.value.value) else Ok([])
  }

  function MemoAt(es: seq<Entry>): (r: Result<Option<Bytes>>)
  {
    var e :- Trailing(es, 7, Ascii("meta"));
    if e.Some? then Memo(e.value.value) else Ok(None)
  }

  /** Who pays whom how much. */
  datatype Money = Money(sender: Bytes, receiver: Bytes, amount: Bytes)

  function MoneyOf(es: seq<Entry>): (r: Result<Money>)
  {
    var sender :- PartyAt(es, 0, Ascii("sender"));
    var receiver :- PartyAt(es, 1, Ascii("receiver"));
    var amount :- NumericAt(es, 2, Ascii("amount"));
    Ok(Money(sender, receiver, amount))
  }

  function TransferOf(es: seq<Entry>): (r: Result<Transfer>)
  {
    var money :- MoneyOf(es);
    var instrument :- InstrumentAt(es);
    var deadline :- DeadlineAt(es);
    var cids :- HoldingsAt(es);
    var memo :- MemoAt(es);
    Ok(Transfer(money.sender, money.receiver, money.amount, instrument, deadline, cids, memo))
  }

  /** The transfer of a choice argument, read at its declared positions only. */
  function ExtractTransfer(chosenValue: Bytes): (r: Result<Transfer>)
  {
    var top :- RecordEntries(chosenValue);
    var e :- EntryByDeclOrder(top, 1, Ascii("transfer"));
    if e.None? then Err
    else
      var es :- RecordEntries(e.value.value);
      TransferOf(es)
  }

  // --------------------------------------- labels and positions cannot disagree

  /** A reader that looks a field up by its label takes the first entry carrying it. */
  function FindLabel(es: seq<Entry>, name: Bytes): (k: nat)
    ensures k <= |es|
    ensures k < |es| ==> es[k].name == name
    ensures forall i | 0 <= i < k :: es[i].name != name
  {
    if es == [] || es[0].name == name then 0 else 1 + FindLabel(es[1..], name)
  }

  /** Looking `name` up by name finds nothing, or exactly the entry at `position`. */
  predicate NoDivergence(es: seq<Entry>, position: nat, name: Bytes) {
    FindLabel(es, name) < |es| ==> FindLabel(es, name) == position
  }

  lemma ReadPositionAgrees(es: seq<Entry>, position: nat, name: Bytes)
    requires EntryByDeclOrder(es, position, name).Ok?
    ensures NoDivergence(es, position, name)
  {
  }

  /** On every accepted choice argument, a reader that goes by label and one that
      goes by position cannot read different entries for any field of the transfer. */
  lemma LabelsCannotDiverge(chosenValue: Bytes)
    requires ExtractTransfer(chosenValue).Ok?
    ensures RecordEntries(chosenValue).Ok? && |RecordEntries(chosenValue).value| > 1
    ensures var top := RecordEntries(chosenValue).value;
            NoDivergence(top, 1, Ascii("transfer")) && TransferLabelsAgree(top[1].value)
  {
    var top := RecordEntries(chosenValue).value;
    TransferLabels(RecordEntries(top[1].value).value);
  }

  predicate TransferLabelsAgree(value: Bytes) {
    && RecordEntries(value).Ok? && |RecordEntries(value).value| > 3
    && LabelsAgree(RecordEntries(value).value)
  }

  predicate LabelsAgree(es: seq<Entry>)
    requires |es| > 3
  {
    && NoDivergence(es, 0, Ascii("sender"))
    && NoDivergence(es, 1, Ascii("receiver"))
    && NoDivergence(es, 2, Ascii("amount"))
    && NoDivergence(es, 3, Ascii("instrumentId"))
    && (|es| > 5 ==> NoDivergence(es, 5, Ascii("executeBefore")))
    && (|es| > 6 ==> NoDivergence(es, 6, Ascii("inputHoldingCids")))
    && (|es| > 7 ==> NoDivergence(es, 7, Ascii("meta")) && MetadataLabelsAgree(es[7].value))
    && InstrumentLabelsAgree(es[3].value)
  }

  predicate InstrumentLabelsAgree(value: Bytes) {
    && RecordEntries(value).Ok?
    && NoDivergence(RecordEntries(value).value, 0, Ascii("admin"))
    && NoDivergence(RecordEntries(value).value, 1, Ascii("id"))
  }

  /** The memo sits under the one field of the metadata record. */
  predicate MetadataLabelsAgree(value: Bytes) {
    RecordEntries(value).Ok? && NoDivergence(RecordEntries(value).value, 0, Ascii("values"))
  }

  lemma TransferLabels(es: seq<Entry>)
    requires TransferOf(es).Ok?
    ensures |es| > 3 && LabelsAgree(es)
  {
    ReadPositionAgrees(es, 0, Ascii("sender"));
    ReadPositionAgrees(es, 1, Ascii("receiver"));
    ReadPositionAgrees(es, 2, Ascii("amount"));
    ReadPositionAgrees(es, 3, Ascii("instrumentId"));
    InstrumentLabels(es[3].value);
    if |es| > 5 {
      DeadlineLabels(es);
    }
    if |es| > 6 {
      HoldingsLabels(es);
    }
    if |es| > 7 {
      MemoLabels(es);
    }
  }

  lemma DeadlineLabels(es: seq<Entry>)
    requires DeadlineAt(es).Ok? && |es| > 5
    ensures NoDivergence(es, 5, Ascii("executeBefore"))
  {
    ReadPositionAgrees(es, 5, Ascii("executeBefore"));
  }

  lemma HoldingsLabels(es: seq<Entry>)
    requires HoldingsAt(es).Ok? && |es| > 6
    ensures NoDivergence(es, 6, Ascii("inputHoldingCids"))
  {
    ReadPositionAgrees(es, 6, Ascii("inputHoldingCids"));
  }

  lemma MemoLabels(es: seq<Entry>)
    requires MemoAt(es).Ok? && |es| > 7
    ensures NoDivergence(es, 7, Ascii("meta")) && MetadataLabelsAgree(es[7].value)
  {
    ReadPositionAgrees(es, 7, Ascii("meta"));
    MetadataLabels(es[7].value);
  }

  lemma MetadataLabels(value: Bytes)
    requires Memo(value).Ok?
    ensures MetadataLabelsAgree(value)
  {
    ReadPositionAgrees(RecordEntries(value).value, 0, Ascii("values"));
  }

  lemma InstrumentLabels(value: Bytes)
    requires InstrumentOf(value).Ok?
    ensures InstrumentLabelsAgree(value)
  {
    var es := RecordEntries(value).value;
    ReadPositionAgrees(es, 0, Ascii("admin"));
    ReadPositionAgrees(es, 1, Ascii("id"));
  }
}
