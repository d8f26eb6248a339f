/** One small transaction that is accepted although its sender is written with a byte-order mark
    in front, so that the id as written is nobody's who may stand there. */
module MarkedSender {
  import opened Results
  import opened Wire
  import opened DamlValue
  import opened DamlCodec
  import opened LooseReader
  import opened LooseTransaction
  import opened PreparedCodec
  import opened TransferRecord
  import opened TransferCodec
  import opened PartyRule
  import opened Acceptance
  import opened PlainTransfer
  import opened Sizes
  import opened Text
  import opened WireCodec
  import LooseCodec

  // ------------------------------------------------- what an argument is made of

  lemma OneLeaves(a: Value)
    ensures AllPartyLeaves([a]) == PartyLeaves(a)
  {
    assert [a][1..] == [];
  }

  lemma TwoLeaves(a: Value, b: Value)
    ensures AllPartyLeaves([a, b]) == PartyLeaves(a) + PartyLeaves(b)
  {
    assert [a, b][1..] == [b];
    OneLeaves(b);
  }

  lemma ThreeLeaves(a: Value, b: Value, c: Value)
    ensures AllPartyLeaves([a, b, c]) == PartyLeaves(a) + (PartyLeaves(b) + PartyLeaves(c))
  {
    assert [a, b, c][1..] == [b, c];
    TwoLeaves(b, c);
  }

  lemma FourLeaves(a: Value, b: Value, c: Value, d: Value)
    ensures AllPartyLeaves([a, b, c, d]) == PartyLeaves(a) + (PartyLeaves(b) + (PartyLeaves(c) + PartyLeaves(d)))
  {
    assert [a, b, c, d][1..] == [b, c, d];
    ThreeLeaves(b, c, d);
  }

  lemma {:induction false} LeavesConcat(vs: seq<Value>, ws: seq<Value>)
    ensures AllPartyLeaves(vs + ws) == AllPartyLeaves(vs) + AllPartyLeaves(ws)
  {
    if vs == [] {
      assert vs + ws == ws;
    } else {
      assert (vs + ws)[1..] == vs[1..] + ws;
      LeavesConcat(vs[1..], ws);
    }
  }

  lemma {:induction false} NoCidParties(cids: seq<Str>)
    ensures AllPartyLeaves(CidValues(cids)) == []
  {
    if cids != [] {
      NoCidParties(cids[1..]);
    }
  }

  lemma InstrumentParties(labelled: bool, t: Terms)
    ensures PartyLeaves(InstrumentValue(labelled, t)) == [t.instrumentAdmin]
  {
    TwoLeaves(Party(t.instrumentAdmin), DamlCodec.Text(t.instrumentId));
  }

  lemma MoneyParties(labelled: bool, t: Terms)
    ensures AllPartyLeaves([Party(t.sender), Party(t.receiver), Numeric(t.amount), InstrumentValue(labelled, t)])
         == [t.sender, t.receiver, t.instrumentAdmin]
  {
    FourLeaves(Party(t.sender), Party(t.receiver), Numeric(t.amount), InstrumentValue(labelled, t));
    InstrumentParties(labelled, t);
    ThreeJoined(t.sender, t.receiver, t.instrumentAdmin);
  }

  lemma ThreeJoined(a: Bytes, b: Bytes, c: Bytes)
    ensures [a] + ([b] + ([] + [c])) == [a, b, c]
  {
  }

  lemma MetaParties(labelled: bool, t: Terms)
    ensures PartyLeaves(MetaValue(labelled, t.metaKeys, t.metaValues)) == AllPartyLeaves(t.metaValues)
  {
    OneLeaves(Container(TextMapShape(t.metaKeys), t.metaValues));
  }

  lemma TrailingParties(labelled: bool, t: Terms)
    ensures AllPartyLeaves([Timestamp(t.requestedAt), Timestamp(t.executeBefore),
                            Container(ListShape, CidValues(t.cids)), MetaValue(labelled, t.metaKeys, t.metaValues)])
         == AllPartyLeaves(t.metaValues)
  {
    FourLeaves(Timestamp(t.requestedAt), Timestamp(t.executeBefore), Container(ListShape, CidValues(t.cids)),
               MetaValue(labelled, t.metaKeys, t.metaValues));
    NoCidParties(t.cids);
    MetaParties(labelled, t);
    LastJoined(AllPartyLeaves(t.metaValues));
  }

  lemma LastJoined(a: seq<Bytes>)
    ensures [] + ([] + ([] + a)) == a
  {
  }

  lemma TransferParties(labelled: bool, t: Terms)
    ensures PartyLeaves(TransferValue(labelled, t))
         == [t.sender, t.receiver, t.instrumentAdmin] + AllPartyLeaves(t.metaValues)
  {
    var money := [Party(t.sender), Party(t.receiver), Numeric(t.amount), InstrumentValue(labelled, t)];
    var trailing := [Timestamp(t.requestedAt), Timestamp(t.executeBefore), Container(ListShape, CidValues(t.cids)),
                     MetaValue(labelled, t.metaKeys, t.metaValues)];
    assert TransferKids(labelled, t) == money + trailing;
    LeavesConcat(money, trailing);
    MoneyParties(labelled, t);
    TrailingParties(labelled, t);
  }

  /** The parties of a choice argument: admin, sender, receiver, admin, and those in its extras. */
  lemma ArgumentParties(labelled: bool, t: Terms)
    ensures PartyLeaves(Argument(labelled, t))
         == [t.expectedAdmin] + (([t.sender, t.receiver, t.instrumentAdmin] + AllPartyLeaves(t.metaValues))
                                 + PartyLeaves(t.extraArgs))
  {
    ThreeLeaves(Party(t.expectedAdmin), TransferValue(labelled, t), t.extraArgs);
    TransferParties(labelled, t);
  }

  lemma {:induction false} LevelsBound(vs: seq<Value>, n: nat)
    requires forall v <- vs :: Levels(v) <= n
    ensures AllLevels(vs) <= n
  {
    if vs != [] {
      LevelsBound(vs[1..], n);
    }
  }

  lemma ArgumentLevels(labelled: bool, t: Terms)
    requires t.metaValues == [] && t.cids == [] && t.extraArgs == Unit
    ensures Levels(Argument(labelled, t)) <= 5
  {
    LevelsBound(InstrumentKids(t), 1);
    LevelsBound([Container(TextMapShape(t.metaKeys), t.metaValues)], 1);
    LevelsBound(TransferKids(labelled, t), 3);
    LevelsBound(ArgumentKids(labelled, t), 4);
  }

  // ------------------------------------------------------------- a marked transfer

  /** Who takes part, and the sender's id as it is written. */
  datatype Cast = Cast(sender: Bytes, marked: Str, receiver: Str, admin: Str, amount: Str, instrument: Str)

  /** Short texts, no mark but the sender's, the ids distinct. */
  predicate Marked(c: Cast) {
    && HasBom(c.marked) && StripBom(c.marked) == c.sender
    && !HasBom(c.receiver) && !HasBom(c.admin) && !HasBom(c.amount) && !HasBom(c.instrument)
    && c.marked != c.receiver && c.marked != c.admin && c.admin != c.sender && c.admin != c.receiver
    && |c.marked| <= 20 && |c.receiver| <= 20 && |c.admin| <= 20 && |c.amount| <= 20 && |c.instrument| <= 20
  }

  lemma SomeCast() returns (c: Cast)
    ensures Marked(c)
  {
    var sender := PlainText("sender::1");
    var receiver := PlainText("receiver::2");
    var admin := PlainText("admin::3");
    var amount := PlainText("1.0");
    var instrument := PlainText("Amulet");
    var marked := LooseCodec.BOM + sender;
    assert marked[3..] == sender && marked[0] == 0xEF;
    assert receiver[0] != admin[0] && sender[0] != admin[0];
    c := Cast(sender, marked, receiver, admin, amount, instrument);
  }

  lemma PlainText(s: string) returns (b: Bytes)
    requires 0 < |s| <= 17
    ensures |b| == |s| && b[0] == s[0] as int % 128 && ValidUtf8(b) && !HasBom(b)
  {
    b := Ascii(s);
    PlainNameValid(b);
  }

  /** One payment, the sender marked, nothing optional. */
  function MarkedTerms(c: Cast): Terms {
    Terms(c.admin, c.marked, c.receiver, c.amount, c.admin, c.instrument, 0, 0, [], [], [], Unit)
  }

  function AnyTemplate(): Template {
    Template([], [], [])
  }

  function Intended(c: Cast): Expectation {
    Expectation(c.sender, c.receiver, c.amount, c.instrument, Some(c.admin), false, None, None, None, None, {},
                false, 0)
  }

  lemma ShownPair(a: Bytes, b: Bytes)
    ensures Shown([a, b]) == [StripBom(a), StripBom(b)]
  {
    assert [a, b][1..] == [b] && [b][1..] == [];
    assert Shown([b]) == [StripBom(b)];
  }

  lemma FourShown(a: Bytes, b: Bytes, c: Bytes, d: Bytes)
    ensures Shown([a, b, c, d]) == [StripBom(a), StripBom(b), StripBom(c), StripBom(d)]
  {
    assert [a, b, c, d] == [a, b] + [c, d];
    ShownConcat([a, b], [c, d]);
    ShownPair(a, b);
    ShownPair(c, d);
  }

  lemma Joined(a: Bytes, b: Bytes, c: Bytes, d: Bytes)
    ensures [a] + (([b, c, d] + []) + []) == [a, b, c, d]
  {
  }

  lemma MarkedParties(c: Cast)
    requires Marked(c)
    ensures GoodTerms(MarkedTerms(c))
    ensures PartyLeaves(Argument(false, MarkedTerms(c))) == [c.admin, c.marked, c.receiver, c.admin]
    ensures Shown(PartyLeaves(Argument(false, MarkedTerms(c)))) == [c.admin, c.sender, c.receiver, c.admin]
  {
    ArgumentParties(false, MarkedTerms(c));
    FourShown(c.admin, c.marked, c.receiver, c.admin);
    Joined(c.admin, c.marked, c.receiver, c.admin);
  }

  function MarkedTransfer(c: Cast): Transfer {
    Transfer(c.sender, c.receiver, c.amount, Instrument(c.admin, c.instrument), Some(0), [], None)
  }

  lemma MarkedExpected(c: Cast)
    requires Marked(c)
    ensures GoodTerms(MarkedTerms(c)) && Expected(MarkedTerms(c)) == Ok(MarkedTransfer(c))
  {
  }

  lemma MarkedMatches(c: Cast)
    requires Marked(c)
    ensures TermsMatch(MarkedTransfer(c), Intended(c))
  {
  }

  lemma MarkedRoot(c: Cast)
    requires Marked(c)
    ensures RootExplained(KnownParties(MarkedTransfer(c), Intended(c), None), [c.admin, c.sender, c.receiver, c.admin])
  {
  }

  lemma ForeignAtRoot(k: Known, parties: seq<Bytes>, p: Bytes)
    requires p in parties && p !in k.allowed && k.admin != Some(p)
    ensures !RootExplained(k, parties)
  {
  }

  lemma MarkedIsRight(c: Cast)
    requires Marked(c)
    ensures GoodTerms(MarkedTerms(c)) && PlainRight(false, MarkedTerms(c), AnyTemplate(), [], Intended(c))
  {
    MarkedExpected(c);
    MarkedMatches(c);
    MarkedParties(c);
    MarkedRoot(c);
    ArgumentLevels(false, MarkedTerms(c));
  }

  // --------------------------------------------------------------------- its size

  predicate ShortTerms(t: Terms) {
    && GoodTerms(t) && t.metaKeys == [] && t.cids == [] && t.extraArgs == Unit
    && |t.sender| <= 20 && |t.receiver| <= 20 && |t.amount| <= 20
    && |t.instrumentAdmin| <= 20 && |t.instrumentId| <= 20 && |t.expectedAdmin| <= 20
  }

  lemma InstrumentShort(t: Terms)
    requires ShortTerms(t)
    ensures Short(InstrumentValue(false, t), 110)
  {
    ScalarShort(Party(t.instrumentAdmin), 20);
    ScalarShort(DamlCodec.Text(t.instrumentId), 20);
    TotalIsProduct(2, 50);
    RecordShort(INSTRUMENT_NAMES, InstrumentKids(t), 30);
  }

  lemma MetaShort()
    ensures Short(MetaValue(false, [], []), 40)
  {
    EmptyContainersShort();
    TotalIsProduct(1, 30);
    RecordShort(META_NAMES, [Container(TextMapShape([]), [])], 10);
  }

  lemma MoneyShort(t: Terms)
    requires ShortTerms(t)
    ensures Short(Party(t.sender), 30) && Short(Party(t.receiver), 30) && Short(Numeric(t.amount), 30)
  {
    ScalarShort(Party(t.sender), 20);
    ScalarShort(Party(t.receiver), 20);
    ScalarShort(Numeric(t.amount), 20);
  }

  lemma KidsAre(t: Terms)
    requires t.metaKeys == [] && t.metaValues == [] && t.cids == []
    ensures var kids := TransferKids(false, t);
            && |kids| == 8 && kids[0] == Party(t.sender) && kids[1] == Party(t.receiver)
            && kids[2] == Numeric(t.amount) && kids[3] == InstrumentValue(false, t)
            && kids[4] == Timestamp(t.requestedAt) && kids[5] == Timestamp(t.executeBefore)
            && kids[6] == Container(ListShape, []) && kids[7] == MetaValue(false, [], [])
  {
  }

  lemma TransferKidsShort(t: Terms)
    requires ShortTerms(t)
    ensures forall v <- TransferKids(false, t) :: Short(v, 110)
  {
    MoneyShort(t);
    InstrumentShort(t);
    TimestampShort(t.requestedAt);
    TimestampShort(t.executeBefore);
    EmptyContainersShort();
    MetaShort();
    KidsAre(t);
    EightShort(TransferKids(false, t), 110);
  }

  lemma TransferShort(t: Terms)
    requires ShortTerms(t)
    ensures Short(TransferValue(false, t), 1050)
  {
    TransferKidsShort(t);
    TotalIsProduct(8, 130);
    RecordShort(TRANSFER_NAMES, TransferKids(false, t), 110);
  }

  lemma EightShort(kids: seq<Value>, b: nat)
    requires |kids| == 8 && b == 110
    requires Short(kids[0], 30) && Short(kids[1], 30) && Short(kids[2], 30) && Short(kids[3], 110)
    requires Short(kids[4], 20) && Short(kids[5], 20) && Short(kids[6], 10) && Short(kids[7], 40)
    ensures forall v <- kids :: Short(v, b)
  {
    ShortGrows(kids[0], 30, b);
    ShortGrows(kids[1], 30, b);
    ShortGrows(kids[2], 30, b);
    ShortGrows(kids[4], 20, b);
    ShortGrows(kids[5], 20, b);
    ShortGrows(kids[6], 10, b);
    ShortGrows(kids[7], 40, b);
    FourShort(kids[..4], b);
    FourShort(kids[4..], b);
    assert kids == kids[..4] + kids[4..];
  }

  lemma FourShort(kids: seq<Value>, b: nat)
    requires |kids| == 4
    requires Short(kids[0], b) && Short(kids[1], b) && Short(kids[2], b) && Short(kids[3], b)
    ensures forall v <- kids :: Short(v, b)
  {
  }

  lemma ArgumentShort(t: Terms)
    requires ShortTerms(t)
    ensures Short(Argument(false, t), 3220)
  {
    ScalarShort(Party(t.expectedAdmin), 20);
    ShortGrows(Party(t.expectedAdmin), 30, 1050);
    TransferShort(t);
    ScalarShort(Unit, 1040);
    TotalIsProduct(3, 1070);
    RecordShort(ARGUMENT_NAMES, ArgumentKids(false, t), 1050);
  }

  // ------------------------------------------------------------ the whole message

  lemma TemplateShort()
    ensures |Body(TemplateGroups(AnyTemplate()))| <= 90
  {
    TotalIsProduct(3, 10);
    BodyShort(TemplateGroups(AnyTemplate()), 0);
  }

  /** An exercise like the one above. */
  predicate SlimExercise(n: TxNode) {
    && n.TxExercise? && NodeFormed(n) && n.template == AnyTemplate() && n.key.None? && n.result.None?
    && n.children == [] && n.observers == [] && n.cid == [] && |n.choice| <= 30 && |n.id| <= 1
    && |n.signatories| == 1 && |n.signatories[0]| <= 20 && n.stakeholders == n.signatories
    && n.acting == n.signatories
    && |Encode(n.chosen)| <= 3220
  }

  lemma ExerciseSlim(n: TxNode)
    requires SlimExercise(n)
    ensures forall g <- ExerciseGroups(n) :: Slim(g, 3220)
  {
    TemplateShort();
    SlimOne(2, n.cid, 3220);
    SlimOne(4, Body(TemplateGroups(n.template)), 3220);
    SlimLists(n);
    SlimOne(9, n.choice, 3220);
    SlimOne(10, Encode(n.chosen), 3220);
    SlimNone(12, 3220);
    SlimNone(13, 3220);
    SlimNone(14, 3220);
    SlimNone(15, 3220);
    GroupsAre(n);
    ElevenSlim(ExerciseGroups(n));
  }

  lemma GroupsAre(n: TxNode)
    requires SlimExercise(n)
    ensures var gs := ExerciseGroups(n);
            && |gs| == 11 && gs[0] == Group(2, [n.cid]) && gs[1] == Group(4, [Body(TemplateGroups(n.template))])
            && gs[2] == Group(5, Raw(n.signatories)) && gs[3] == Group(6, Raw(n.stakeholders))
            && gs[4] == Group(7, Raw(n.acting)) && gs[5] == Group(9, [n.choice])
            && gs[6] == Group(10, [Encode(n.chosen)]) && gs[7] == Group(12, []) && gs[8] == Group(13, [])
            && gs[9] == Group(14, []) && gs[10] == Group(15, [])
  {
  }

  lemma ElevenSlim(gs: seq<Group>)
    requires |gs| == 11
    requires Slim(gs[0], 3220) && Slim(gs[1], 3220) && Slim(gs[2], 3220) && Slim(gs[3], 3220) && Slim(gs[4], 3220)
    requires Slim(gs[5], 3220) && Slim(gs[6], 3220) && Slim(gs[7], 3220) && Slim(gs[8], 3220) && Slim(gs[9], 3220)
    requires Slim(gs[10], 3220)
    ensures forall g <- gs :: Slim(g, 3220)
  {
  }

  lemma SlimLists(n: TxNode)
    requires SlimExercise(n)
    ensures Slim(Group(5, Raw(n.signatories)), 3220) && Slim(Group(6, Raw(n.stakeholders)), 3220)
    ensures Slim(Group(7, Raw(n.acting)), 3220)
  {
    SlimOne(5, n.signatories[0], 3220);
    SlimOne(6, n.signatories[0], 3220);
    SlimOne(7, n.signatories[0], 3220);
    assert n.signatories == [n.signatories[0]];
  }

  lemma NodeShort(n: TxNode)
    requires SlimExercise(n)
    ensures |EncodeNode(n)| <= 71_120
  {
    ExerciseSlim(n);
    TotalIsProduct(11, 3230);
    BodyShort(ExerciseGroups(n), 3220);
    VersionShort(n, Body(ExerciseGroups(n)));
  }

  lemma VersionShort(n: TxNode, body: Bytes)
    requires n.TxExercise? && NodeFormed(n) && body == Body(ExerciseGroups(n)) && |body| <= 35_530 && |n.id| <= 1
    ensures |EncodeNode(n)| <= 71_120
  {
    TotalIsProduct(1, 35_540);
    SlimOne(3, body, 35_530);
    BodyShort([KindGroup(n)], 35_530);
    TwoBodiesShort(1, n.id, 1000, Body([KindGroup(n)]), 35_540);
  }

  predicate SlimTx(tx: Tx) {
    && TxFormed(tx) && |tx.roots| == 1 && |tx.roots[0]| <= 1
    && |tx.nodes| == 1 && |EncodeNode(tx.nodes[0])| <= 71_120
    && |tx.actAs| == 1 && |tx.actAs[0]| <= 20 && tx.synchronizer.None? && tx.inputs == []
    && tx.times == Times(None, None, None, None)
  }

  lemma SubmitterShort(actAs: seq<Str>)
    requires |actAs| == 1 && |actAs[0]| <= 20
    ensures |Body([Group(1, Raw(actAs))])| <= 30
  {
    TotalIsProduct(1, 30);
    SlimOne(1, actAs[0], 20);
    assert actAs == [actAs[0]];
    BodyShort([Group(1, Raw(actAs))], 20);
  }

  lemma MetadataShort(tx: Tx)
    requires SlimTx(tx)
    ensures |EncodeMessage(MetadataFields(tx))| <= 120
  {
    SubmitterShort(tx.actAs);
    TotalIsProduct(3, 40);
    SlimOne(2, Body([Group(1, Raw(tx.actAs))]), 30);
    SlimNone(3, 30);
    SlimNone(7, 30);
    BodyShort(MetadataGroups(tx), 30);
    assert MetadataFields(tx) == Flatten(MetadataGroups(tx));
  }

  lemma OneNode(ns: seq<TxNode>)
    requires |ns| == 1 && NodesFormed(ns)
    ensures EncodeNodes(ns) == [EncodeNode(ns[0])]
  {
    assert ns[1..] == [];
  }

  lemma NodesShort(tx: Tx, root: Bytes, node: Bytes)
    requires TxFormed(tx) && tx.roots == [root] && |root| <= 1
    requires EncodeNodes(tx.nodes) == [node] && |node| <= 71_120
    ensures |Body(TransactionGroups(tx))| <= 142_260
  {
    TwoBodiesShort(2, root, 3, node, 71_120);
  }

  lemma TransactionShort(tx: Tx)
    requires SlimTx(tx)
    ensures Fits(EncodeTx(tx))
  {
    MetadataShort(tx);
    OneNode(tx.nodes);
    assert tx.roots == [tx.roots[0]];
    NodesShort(tx, tx.roots[0], EncodeNode(tx.nodes[0]));
    TwoBodiesShort(1, Body(TransactionGroups(tx)), 2, EncodeMessage(MetadataFields(tx)), 142_260);
  }

  lemma MarkedFits(c: Cast)
    requires Marked(c)
    ensures GoodTerms(MarkedTerms(c))
    ensures var tx := PlainTx(false, MarkedTerms(c), AnyTemplate(), []); TxFormed(tx) && Fits(EncodeTx(tx))
  {
    var t := MarkedTerms(c);
    ArgumentShort(t);
    PlainFormed(false, t, AnyTemplate(), []);
    PlainNodeView(false, t, AnyTemplate(), []);
    NodeShort(PlainNode(false, t, AnyTemplate(), []));
    TransactionShort(PlainTx(false, t, AnyTemplate(), []));
  }

  lemma MarkedArgument(c: Cast) returns (chosen: Bytes)
    requires Marked(c)
    ensures WellFormed(Argument(false, MarkedTerms(c))) && chosen == Encode(Argument(false, MarkedTerms(c)))
    ensures ExtractTransfer(chosen) == Ok(MarkedTransfer(c))
    ensures Parties(chosen) == [c.admin, c.marked, c.receiver, c.admin]
  {
    var t := MarkedTerms(c);
    MarkedFits(c);
    ArgumentFits(false, t, AnyTemplate(), []);
    TransferRoundTrip(false, t);
    MarkedExpected(c);
    LooseCodec.PartiesRoundTrip(Argument(false, t));
    MarkedParties(c);
    chosen := Encode(Argument(false, t));
  }

  /** An id in the root argument of some bytes that is the sender's but for a byte-order mark, and
      with it the argument names someone who may not stand there. */
  ghost predicate Misplaced(e: Expectation, bytes: Bytes, node: Bytes, chosen: Bytes, t: Transfer, id: Bytes) {
    && node in Nodes(bytes) && ChosenValues(node) == [chosen] && ExtractTransfer(chosen) == Ok(t)
    && id in Parties(chosen) && HasBom(id) && StripBom(id) == e.sender
    && !RootExplained(KnownParties(t, e, None), Parties(chosen))
  }

  lemma MarkedMisplaced(c: Cast, bytes: Bytes, node: Bytes, chosen: Bytes)
    requires Marked(c) && node in Nodes(bytes) && ChosenValues(node) == [chosen]
    requires ExtractTransfer(chosen) == Ok(MarkedTransfer(c))
    requires Parties(chosen) == [c.admin, c.marked, c.receiver, c.admin]
    ensures Misplaced(Intended(c), bytes, node, chosen, MarkedTransfer(c), c.marked)
  {
    MarkedOutOfPlace(c, Parties(chosen));
  }

  lemma MarkedOutOfPlace(c: Cast, written: seq<Bytes>)
    requires Marked(c) && written == [c.admin, c.marked, c.receiver, c.admin]
    ensures c.marked in written && !RootExplained(KnownParties(MarkedTransfer(c), Intended(c), None), written)
  {
    assert written[1] == c.marked && |c.marked| > |c.sender|;
    ForeignAtRoot(KnownParties(MarkedTransfer(c), Intended(c), None), written, c.marked);
  }

  lemma MarkedWritten(c: Cast) returns (bytes: Bytes, node: Bytes, chosen: Bytes)
    requires Marked(c)
    ensures Accepted(bytes, Intended(c)) && Misplaced(Intended(c), bytes, node, chosen, MarkedTransfer(c), c.marked)
  {
    var t := MarkedTerms(c);
    MarkedFits(c);
    MarkedIsRight(c);
    PlainTransferAccepted(false, t, AnyTemplate(), [], Intended(c));
    bytes := EncodeTx(PlainTx(false, t, AnyTemplate(), []));
    node := PlainNodeWritten(false, t, AnyTemplate(), []);
    chosen := MarkedArgument(c);
    MarkedMisplaced(c, bytes, node, chosen);
  }

  /** Some bytes are accepted: acceptance is no empty notion. And a party id written in their root
      argument, that of the sender with a byte-order mark in front, is not itself one that may
      stand there; only its text is. */
  lemma MarkedSenderAccepted()
    returns (e: Expectation, bytes: Bytes, node: Bytes, chosen: Bytes, t: Transfer, id: Bytes)
    ensures Accepted(bytes, e) && Misplaced(e, bytes, node, chosen, t, id)
  {
    var c := SomeCast();
    bytes, node, chosen := MarkedWritten(c);
    e, t, id := Intended(c), MarkedTransfer(c), c.marked;
  }
}
