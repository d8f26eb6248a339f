/** The refuse-nothing reader on canonical encodings: the parties of a tree, however deep. */
module LooseCodec {
  import opened Results
  import opened Wire
  import opened DamlValue
  import opened DamlCodec
  import opened LooseReader

  lemma OwnParty(v: Value)
    requires WellFormed(v) && Fits(Encode(v))
    ensures Fields(Encode(v), V_PARTY) == if v.Party? then [v.id] else []
  {
    OneMessage(v);
    OneField(Member(v), V_PARTY);
  }

  lemma ChildrenRead(v: Value)
    requires WellFormed(v) && Fits(Encode(v))
    ensures SingleMember(Encode(v)).Ok?
    ensures Children(Message(Encode(v)).value) == Ok(if v.Container? then EncodeAll(v.kids) else [])
    ensures v.Container? ==> forall b <- EncodeAll(v.kids) :: Fits(b)
  {
    OneMessage(v);
    if v.Container? {
      ContainerRoundTrip(v.shape, EncodeAll(v.kids));
    } else {
      ScalarHasNoChildren(v);
    }
  }

  /** The parties written in the encoding of a value tree are its party leaves, in order. */
  lemma {:induction false} PartiesRoundTrip(v: Value)
    requires WellFormed(v) && Fits(Encode(v))
    ensures Parties(Encode(v)) == PartyLeaves(v)
    decreases v, 1
  {
    SubValuesRead(v);
    OwnParty(v);
    PartiesUnfold(Encode(v));
    if v.Container? {
      PartiesBelowRoundTrip(v.kids, |Encode(v)|);
    }
  }

  lemma SubValuesRead(v: Value)
    requires WellFormed(v) && Fits(Encode(v))
    ensures SubValues(Encode(v)) == if v.Container? then EncodeAll(v.kids) else []
    ensures v.Container? ==> forall b <- EncodeAll(v.kids) :: Fits(b)
  {
    ChildrenRead(v);
    ChildrenAreSubValues(Encode(v));
  }

  lemma {:induction false} PartiesBelowRoundTrip(vs: seq<Value>, n: nat)
    requires AllWellFormed(vs) && forall b <- EncodeAll(vs) :: Fits(b) && |b| < n
    ensures PartiesBelow(EncodeAll(vs), n) == AllPartyLeaves(vs)
    decreases vs, 0
  {
    if vs != [] {
      var all := EncodeAll(vs);
      assert all[0] in all && all[1..] == EncodeAll(vs[1..]) && forall b <- all[1..] :: b in all;
      PartiesRoundTrip(vs[0]);
      PartiesBelowRoundTrip(vs[1..], n);
    }
  }

  const BOM: Bytes := [0xEF, 0xBB, 0xBF]

  /** A party id with a byte-order mark in front is collected as the id without it. */
  lemma MarkedParty(p: Str)
    requires ValidUtf8(BOM + p) && Fits(Encode(Party(BOM + p)))
    ensures Parties(Encode(Party(BOM + p))) == [BOM + p]
    ensures Collect(Encode(Party(BOM + p)), 0) == Ok([p])
  {
    var v := Party(BOM + p);
    PartiesRoundTrip(v);
    CollectRoundTrip(v, 0);
    ShownScalar(v);
  }
}
