/** A reader of values that refuses nothing: it takes every occurrence of every member that can
    hold a party, at any depth. Whatever the strict walk accepts, it reads the same way. Bytes are
    framed as `Wire` frames them, which `WireCodec` measures against a reader of its own. */
module LooseReader {
  import opened Results
  import opened Wire
  import opened DamlValue

  // --------------------------------------------------------------------- fields

  /** The payloads of every length-delimited occurrence of a field; none in what is no message. */
  function Fields(s: Bytes, k: nat): seq<Bytes> {
    if Message(s).Ok? then LenFields(Message(s).value, k) else []
  }

  function FieldsOfAll(bodies: seq<Bytes>, k: nat): seq<Bytes> {
    if bodies == [] then [] else Fields(bodies[0], k) + FieldsOfAll(bodies[1..], k)
  }

  /** All that one message holds under several fields, field by field. */
  function Within(body: Bytes, ks: seq<nat>): seq<Bytes> {
    if ks == [] then [] else Fields(body, ks[0]) + Within(body, ks[1..])
  }

  function WithinAll(bodies: seq<Bytes>, ks: seq<nat>): seq<Bytes> {
    if bodies == [] then [] else Within(bodies[0], ks) + WithinAll(bodies[1..], ks)
  }

  lemma TakenIsSmaller(s: Bytes)
    requires TakeField(s).Ok?
    ensures var f := TakeField(s).value; f.value.Len? ==> |f.value.bytes| < f.used
  {
  }

  lemma {:induction false} FieldsSmaller(s: Bytes, k: nat)
    ensures forall b <- Fields(s, k) :: |b| < |s|
    decreases |s|
  {
    if s != [] && Message(s).Ok? {
      var first := TakeField(s).value;
      TakenIsSmaller(s);
      FieldsSmaller(s[first.used..], k);
    }
  }

  lemma {:induction false} AllSmaller(bodies: seq<Bytes>, k: nat, n: nat)
    requires forall b <- bodies :: |b| < n
    ensures forall b <- FieldsOfAll(bodies, k) :: |b| < n
  {
    if bodies != [] {
      FieldsSmaller(bodies[0], k);
      AllSmaller(bodies[1..], k, n);
    }
  }

  lemma {:induction false} WithinSmaller(body: Bytes, ks: seq<nat>)
    ensures forall b <- Within(body, ks) :: |b| < |body|
  {
    if ks != [] {
      FieldsSmaller(body, ks[0]);
      WithinSmaller(body, ks[1..]);
    }
  }

  lemma {:induction false} WithinAllSmaller(bodies: seq<Bytes>, ks: seq<nat>, n: nat)
    requires forall b <- bodies :: |b| < n
    ensures forall b <- WithinAll(bodies, ks) :: |b| < n
  {
    if bodies != [] {
      WithinSmaller(bodies[0], ks);
      WithinAllSmaller(bodies[1..], ks, n);
    }
  }

  // ------------------------------------------------------------------ sub-values

  function RecordValues(value: Bytes): seq<Bytes> {
    WithinAll(FieldsOfAll(Fields(value, V_RECORD), 2), [2])
  }

  function ListValues(value: Bytes): seq<Bytes> {
    FieldsOfAll(Fields(value, V_LIST), 1)
  }

  function OptionalValues(value: Bytes): seq<Bytes> {
    WithinAll(Fields(value, V_OPTIONAL), [1])
  }

  function VariantValues(value: Bytes): seq<Bytes> {
    WithinAll(Fields(value, V_VARIANT), [3])
  }

  /** Keys and values of both, entry by entry. */
  function GenMapValues(value: Bytes): seq<Bytes> {
    WithinAll(FieldsOfAll(Fields(value, V_GEN_MAP), 1), [1, 2])
  }

  function TextMapValues(value: Bytes): seq<Bytes> {
    WithinAll(FieldsOfAll(Fields(value, V_TEXT_MAP), 1), [2])
  }

  /** Every value written directly inside a value, under any container member. */
  function SubValues(value: Bytes): seq<Bytes> {
    RecordValues(value) + ListValues(value) + OptionalValues(value) + VariantValues(value)
    + GenMapValues(value) + TextMapValues(value)
  }

  lemma SubValuesSmaller(value: Bytes)
    ensures forall v <- SubValues(value) :: |v| < |value|
  {
    var n := |value|;
    FieldsSmaller(value, V_RECORD);
    AllSmaller(Fields(value, V_RECORD), 2, n);
    WithinAllSmaller(FieldsOfAll(Fields(value, V_RECORD), 2), [2], n);
    FieldsSmaller(value, V_LIST);
    AllSmaller(Fields(value, V_LIST), 1, n);
    FieldsSmaller(value, V_OPTIONAL);
    WithinAllSmaller(Fields(value, V_OPTIONAL), [1], n);
    FieldsSmaller(value, V_VARIANT);
    WithinAllSmaller(Fields(value, V_VARIANT), [3], n);
    FieldsSmaller(value, V_GEN_MAP);
    AllSmaller(Fields(value, V_GEN_MAP), 1, n);
    WithinAllSmaller(FieldsOfAll(Fields(value, V_GEN_MAP), 1), [1, 2], n);
    FieldsSmaller(value, V_TEXT_MAP);
    AllSmaller(Fields(value, V_TEXT_MAP), 1, n);
    WithinAllSmaller(FieldsOfAll(Fields(value, V_TEXT_MAP), 1), [2], n);
  }

  /** Every party id written anywhere inside a value. */
  function Parties(value: Bytes): seq<Bytes>
    decreases |value|, 1, 0
  {
    SubValuesSmaller(value);
    Fields(value, V_PARTY) + PartiesBelow(SubValues(value), |value|)
  }

  /** The parties of a list of values shorter than `n`. */
  function PartiesBelow(values: seq<Bytes>, n: nat): seq<Bytes>
    requires forall v <- values :: |v| < n
    decreases n, 0, |values|
  {
    if values == [] then [] else Parties(values[0]) + PartiesBelow(values[1..], n)
  }

  /** A chain of values, each written directly inside the one before, ends at a party. */
  ghost predicate Leads(value: Bytes, chain: seq<Bytes>, party: Bytes)
    decreases |chain|
  {
    if chain == [] then party in Fields(value, V_PARTY)
    else chain[0] in SubValues(value) && Leads(chain[0], chain[1..], party)
  }

  lemma {:induction false} BelowHas(values: seq<Bytes>, n: nat, v: Bytes, party: Bytes)
    requires (forall w <- values :: |w| < n) && v in values && party in Parties(v)
    ensures party in PartiesBelow(values, n)
  {
    if v != values[0] {
      BelowHas(values[1..], n, v, party);
    }
  }

  lemma {:induction false} BelowFrom(values: seq<Bytes>, n: nat, party: Bytes) returns (v: Bytes)
    requires (forall w <- values :: |w| < n) && party in PartiesBelow(values, n)
    ensures v in values && party in Parties(v)
  {
    if party in Parties(values[0]) {
      v := values[0];
    } else {
      v := BelowFrom(values[1..], n, party);
    }
  }

  lemma PartiesUnfold(value: Bytes)
    ensures forall v <- SubValues(value) :: |v| < |value|
    ensures Parties(value) == Fields(value, V_PARTY) + PartiesBelow(SubValues(value), |value|)
  {
    SubValuesSmaller(value);
  }

  lemma {:induction false} LedToIsParty(value: Bytes, chain: seq<Bytes>, party: Bytes)
    requires Leads(value, chain, party)
    ensures party in Parties(value)
    decreases |chain|
  {
    PartiesUnfold(value);
    if chain != [] {
      LedToIsParty(chain[0], chain[1..], party);
      BelowHas(SubValues(value), |value|, chain[0], party);
    }
  }

  lemma {:induction false} PartyIsLedTo(value: Bytes, party: Bytes) returns (chain: seq<Bytes>)
    requires party in Parties(value)
    ensures Leads(value, chain, party)
    decreases |value|
  {
    PartiesUnfold(value);
    if party in Fields(value, V_PARTY) {
      chain := [];
    } else {
      var v := BelowFrom(SubValues(value), |value|, party);
      var tail := PartyIsLedTo(v, party);
      chain := [v] + tail;
      assert chain[1..] == tail;
    }
  }

  ghost predicate LedTo(value: Bytes, party: Bytes) {
    exists chain :: Leads(value, chain, party)
  }

  /** The parties of a value are those at the end of some chain. */
  lemma PartiesAreLedTo(value: Bytes, party: Bytes)
    ensures party in Parties(value) <==> LedTo(value, party)
  {
    if party in Parties(value) {
      var chain := PartyIsLedTo(value, party);
    } else if LedTo(value, party) {
      var chain :| Leads(value, chain, party);
      LedToIsParty(value, chain, party);
    }
  }

  // ------------------------------------------- the strict walk is the loose one

  /** The members that the ambiguity check counts together. */
  predicate Counted(k: nat) {
    6 <= k <= 15 && k != V_CONTRACT_ID
  }

  lemma {:induction false} AtMostOneMember(fs: seq<WireField>, j: nat, k: nat)
    requires Counted(j) && Counted(k) && j != k
    ensures |LenFields(fs, j)| + |LenFields(fs, k)| + |VarintFields(fs, V_INT64)| + |Fixed64Fields(fs, V_TIMESTAMP)|
         <= CountedMembers(fs)
  {
    if fs != [] {
      AtMostOneMember(fs[1..], j, k);
    }
  }

  /** Of all counted members, only `k` is present. */
  ghost predicate Only(value: Bytes, k: nat) {
    forall j :: Counted(j) && j != k ==> Fields(value, j) == []
  }

  lemma OnlyMember(value: Bytes, k: nat)
    requires SingleMember(value).Ok? && Counted(k) && Fields(value, k) != []
    ensures Only(value, k)
  {
    forall j | Counted(j) && j != k
      ensures Fields(value, j) == []
    {
      AtMostOneMember(Message(value).value, j, k);
    }
  }

  lemma {:induction false} PickedIsWithin(body: Bytes, ks: seq<nat>)
    requires Message(body).Ok? && Picked(Message(body).value, ks).Ok?
    ensures Picked(Message(body).value, ks).value == Within(body, ks)
  {
    if ks != [] {
      PickedIsWithin(body, ks[1..]);
      var all := LenFields(Message(body).value, ks[0]);
      assert |all| == 1 ==> all == [all[0]];
    }
  }

  lemma {:induction false} PickedAllIsWithin(entries: seq<Bytes>, ks: seq<nat>)
    requires PickedInAll(entries, ks).Ok?
    ensures PickedInAll(entries, ks).value == WithinAll(entries, ks)
  {
    if entries != [] {
      PickedIsWithin(entries[0], ks);
      PickedAllIsWithin(entries[1..], ks);
    }
  }

  lemma FieldsOfOne(bodies: seq<Bytes>, k: nat)
    requires |bodies| == 1
    ensures FieldsOfAll(bodies, k) == Fields(bodies[0], k)
  {
    assert bodies[1..] == [];
  }

  /** What the layout of a value shows as its children, when only member `k` is there. */
  lemma RecordChildren(value: Bytes)
    requires SingleMember(value).Ok? && Children(Message(value).value).Ok? && Fields(value, V_RECORD) != []
    ensures Children(Message(value).value).value == RecordValues(value)
  {
    var rec := Fields(value, V_RECORD);
    FieldsOfOne(rec, 2);
    PickedAllIsWithin(Fields(rec[0], 2), [2]);
  }

  lemma ListChildren(value: Bytes)
    requires SingleMember(value).Ok? && Children(Message(value).value).Ok? && Fields(value, V_LIST) != []
    requires Fields(value, V_RECORD) == []
    ensures Children(Message(value).value).value == ListValues(value)
  {
    FieldsOfOne(Fields(value, V_LIST), 1);
  }

  lemma OptionalChildren(value: Bytes)
    requires SingleMember(value).Ok? && Children(Message(value).value).Ok? && Fields(value, V_OPTIONAL) != []
    requires Fields(value, V_RECORD) == [] && Fields(value, V_LIST) == []
    ensures Children(Message(value).value).value == OptionalValues(value)
  {
    var opt := Fields(value, V_OPTIONAL);
    assert opt == [opt[0]];
    PickedAllIsWithin(opt, [1]);
  }

  lemma VariantChildren(value: Bytes)
    requires SingleMember(value).Ok? && Children(Message(value).value).Ok? && Fields(value, V_VARIANT) != []
    requires Fields(value, V_RECORD) == [] && Fields(value, V_LIST) == [] && Fields(value, V_OPTIONAL) == []
    ensures Children(Message(value).value).value == VariantValues(value)
  {
    var variant := Fields(value, V_VARIANT);
    assert variant == [variant[0]];
    PickedAllIsWithin(variant, [3]);
  }

  lemma GenMapChildren(value: Bytes)
    requires SingleMember(value).Ok? && Children(Message(value).value).Ok? && Fields(value, V_GEN_MAP) != []
    requires Fields(value, V_RECORD) == [] && Fields(value, V_LIST) == [] && Fields(value, V_OPTIONAL) == []
    requires Fields(value, V_VARIANT) == []
    ensures Children(Message(value).value).value == GenMapValues(value)
  {
    var m := Fields(value, V_GEN_MAP);
    FieldsOfOne(m, 1);
    PickedAllIsWithin(Fields(m[0], 1), [1, 2]);
  }

  lemma TextMapChildren(value: Bytes)
    requires SingleMember(value).Ok? && Children(Message(value).value).Ok? && Fields(value, V_TEXT_MAP) != []
    requires Fields(value, V_RECORD) == [] && Fields(value, V_LIST) == [] && Fields(value, V_OPTIONAL) == []
    requires Fields(value, V_VARIANT) == [] && Fields(value, V_GEN_MAP) == []
    ensures Children(Message(value).value).value == TextMapValues(value)
  {
    var m := Fields(value, V_TEXT_MAP);
    FieldsOfOne(m, 1);
    PickedAllIsWithin(Fields(m[0], 1), [2]);
  }

  lemma NoChildren(value: Bytes)
    requires SingleMember(value).Ok? && NoContainer(value)
    ensures Children(Message(value).value) == Ok([]) && SubValues(value) == []
  {
  }

  ghost predicate NoContainer(value: Bytes) {
    && Fields(value, V_RECORD) == [] && Fields(value, V_LIST) == [] && Fields(value, V_OPTIONAL) == []
    && Fields(value, V_VARIANT) == [] && Fields(value, V_GEN_MAP) == [] && Fields(value, V_TEXT_MAP) == []
  }

  /** Of the six lists of sub-values, those under absent members are empty. */
  lemma OnlySubValues(value: Bytes, k: nat)
    requires Only(value, k)
    ensures k != V_RECORD ==> RecordValues(value) == []
    ensures k != V_LIST ==> ListValues(value) == []
    ensures k != V_OPTIONAL ==> OptionalValues(value) == []
    ensures k != V_VARIANT ==> VariantValues(value) == []
    ensures k != V_GEN_MAP ==> GenMapValues(value) == []
    ensures k != V_TEXT_MAP ==> TextMapValues(value) == []
  {
  }

  lemma OnlyRecord(value: Bytes)
    requires Only(value, V_RECORD)
    ensures SubValues(value) == RecordValues(value)
  {
    OnlySubValues(value, V_RECORD);
  }

  lemma OnlyList(value: Bytes)
    requires Only(value, V_LIST)
    ensures SubValues(value) == ListValues(value)
  {
    OnlySubValues(value, V_LIST);
  }

  lemma OnlyOptional(value: Bytes)
    requires Only(value, V_OPTIONAL)
    ensures SubValues(value) == OptionalValues(value)
  {
    OnlySubValues(value, V_OPTIONAL);
  }

  lemma OnlyVariant(value: Bytes)
    requires Only(value, V_VARIANT)
    ensures SubValues(value) == VariantValues(value)
  {
    OnlySubValues(value, V_VARIANT);
  }

  lemma OnlyGenMap(value: Bytes)
    requires Only(value, V_GEN_MAP)
    ensures SubValues(value) == GenMapValues(value)
  {
    OnlySubValues(value, V_GEN_MAP);
  }

  lemma OnlyTextMap(value: Bytes)
    requires Only(value, V_TEXT_MAP)
    ensures SubValues(value) == TextMapValues(value)
  {
    OnlySubValues(value, V_TEXT_MAP);
  }

  /** The children that the walk visits are all the values written inside. */
  lemma ChildrenAreSubValues(value: Bytes)
    requires SingleMember(value).Ok? && Children(Message(value).value).Ok?
    ensures Children(Message(value).value).value == SubValues(value)
  {
    if NoContainer(value) {
      NoChildren(value);
    } else if Fields(value, V_RECORD) != [] {
      OnlyMember(value, V_RECORD);
      OnlyRecord(value);
      RecordChildren(value);
    } else if Fields(value, V_LIST) != [] {
      OnlyMember(value, V_LIST);
      OnlyList(value);
      ListChildren(value);
    } else if Fields(value, V_OPTIONAL) != [] {
      OnlyMember(value, V_OPTIONAL);
      OnlyOptional(value);
      OptionalChildren(value);
    } else if Fields(value, V_VARIANT) != [] {
      OnlyMember(value, V_VARIANT);
      OnlyVariant(value);
      VariantChildren(value);
    } else if Fields(value, V_GEN_MAP) != [] {
      OnlyMember(value, V_GEN_MAP);
      OnlyGenMap(value);
      GenMapChildren(value);
    } else {
      OnlyMember(value, V_TEXT_MAP);
      OnlyTextMap(value);
      TextMapChildren(value);
    }
  }

  /** A scalar has nothing written inside, and is a party if that is what is read. */
  lemma ScalarIsLoose(value: Bytes)
    requires SingleMember(value).Ok? && LeafOfFields(Message(value).value).Ok?
    ensures var leaf := LeafOfFields(Message(value).value).value;
            && (leaf.Some? ==> NoContainer(value))
            && Shown(Fields(value, V_PARTY)) == if leaf.Some? && leaf.value.PartyLeaf? then [leaf.value.text] else []
  {
    var leaf := LeafOfFields(Message(value).value).value;
    var all := Fields(value, V_PARTY);
    if all != [] {
      OnlyMember(value, V_PARTY);
      assert |all| == 1 && all[1..] == [];
    } else if leaf.Some? {
      LeafIsOnly(value);
    }
  }

  lemma LeafIsOnly(value: Bytes)
    requires SingleMember(value).Ok? && LeafOfFields(Message(value).value).Ok?
    requires LeafOfFields(Message(value).value).value.Some? && Fields(value, V_PARTY) == []
    ensures NoContainer(value)
  {
    var fs := Message(value).value;
    if LenFields(fs, V_NUMERIC) != [] {
      OnlyMember(value, V_NUMERIC);
    } else if LenFields(fs, V_TEXT) != [] {
      OnlyMember(value, V_TEXT);
    } else {
      NoMembersBeside(value, V_RECORD);
      NoMembersBeside(value, V_LIST);
      NoMembersBeside(value, V_OPTIONAL);
      NoMembersBeside(value, V_VARIANT);
      NoMembersBeside(value, V_GEN_MAP);
      NoMembersBeside(value, V_TEXT_MAP);
    }
  }

  lemma NoMembersBeside(value: Bytes, k: nat)
    requires SingleMember(value).Ok? && Counted(k) && k != V_TEXT
    requires VarintFields(Message(value).value, V_INT64) != [] || Fixed64Fields(Message(value).value, V_TIMESTAMP) != []
    ensures Fields(value, k) == []
  {
    AtMostOneMember(Message(value).value, k, V_TEXT);
  }

  /** One level of the walk on a value it accepts. */
  lemma CollectStep(value: Bytes, depth: nat)
    requires Collect(value, depth).Ok?
    ensures depth <= MAX_DEPTH && SingleMember(value).Ok? && LeafOfFields(Message(value).value).Ok?
    ensures var leaf := LeafOfFields(Message(value).value).value;
            if leaf.Some? then Collect(value, depth).value == if leaf.value.PartyLeaf? then [leaf.value.text] else []
            else
              Children(Message(value).value).Ok?
              && Collect(value, depth) == CollectAll(Children(Message(value).value).value, depth + 1)
  {
  }

  /** The parties of a scalar are its own, those of a container are those below. */
  lemma ShownParties(value: Bytes)
    requires SingleMember(value).Ok? && LeafOfFields(Message(value).value).Ok?
    ensures forall v <- SubValues(value) :: |v| < |value|
    ensures var leaf := LeafOfFields(Message(value).value).value;
            Shown(Parties(value))
            == if leaf.Some? then (if leaf.value.PartyLeaf? then [leaf.value.text] else [])
               else Shown(PartiesBelow(SubValues(value), |value|))
  {
    ScalarIsLoose(value);
    PartiesUnfold(value);
    ShownConcat(Fields(value, V_PARTY), PartiesBelow(SubValues(value), |value|));
    if LeafOfFields(Message(value).value).value.Some? {
      NoChildren(value);
    }
  }

  /** Whatever bytes the walk accepts, it returns exactly the parties written anywhere inside
      them, in order and as often as they are written, each without a byte-order mark in front. */
  lemma {:induction false} CollectIsLoose(value: Bytes, depth: nat)
    requires Collect(value, depth).Ok?
    ensures Collect(value, depth).value == Shown(Parties(value))
    decreases Remaining(depth), 0
  {
    CollectStep(value, depth);
    ShownParties(value);
    if LeafOfFields(Message(value).value).value.None? {
      ChildrenAreSubValues(value);
      CollectAllIsLoose(SubValues(value), depth + 1, |value|);
    }
  }

  lemma {:induction false} CollectAllIsLoose(values: seq<Bytes>, depth: nat, n: nat)
    requires (forall v <- values :: |v| < n) && CollectAll(values, depth).Ok?
    ensures CollectAll(values, depth).value == Shown(PartiesBelow(values, n))
    decreases Remaining(depth), 1 + |values|
  {
    if values != [] {
      CollectIsLoose(values[0], depth);
      CollectAllIsLoose(values[1..], depth, n);
      ShownConcat(Parties(values[0]), PartiesBelow(values[1..], n));
    }
  }
}
