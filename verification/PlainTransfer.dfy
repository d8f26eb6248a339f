/** The simplest honest transaction, one transfer exercise without consequences: when it is
    accepted, exactly. */
module PlainTransfer {
  import opened Results
  import opened Wire
  import opened DamlValue
  import opened DamlCodec
  import opened Decoded
  import opened PreparedDecoder
  import opened PreparedCodec
  import opened NodeGraph
  import opened TransferRecord
  import opened TransferCodec
  import opened PartyRule
  import opened Acceptance
  import LooseTransaction
  import TreeSafety

  const ROOT: Bytes := [48]

  /** Names that both decode as they are written. */
  lemma ConstantsPlain()
    ensures ValidUtf8(ROOT) && StripBom(ROOT) == ROOT
    ensures ValidUtf8(TRANSFER_CHOICE) && StripBom(TRANSFER_CHOICE) == TRANSFER_CHOICE
    ensures TRANSFER_CHOICE != INTERNAL_TRANSFER
  {
    PlainRead(ROOT);
    PlainRead(TRANSFER_CHOICE);
    FirstLettersDiffer(TRANSFER_CHOICE, INTERNAL_TRANSFER);
  }

  lemma FirstLettersDiffer(a: Bytes, b: Bytes)
    requires a != [] && b != [] && a[0] == 84 && b[0] == 65
    ensures a != b
  {
  }

  lemma PlainRead(name: Bytes)
    requires PlainName(name)
    ensures ValidUtf8(name) && StripBom(name) == name
  {
    PlainNameValid(name);
  }

  /** One root that exercises the transfer choice; the sender signs and acts. */
  function PlainNode(labelled: bool, t: Terms, template: Template, cid: Str): TxNode {
    ConstantsPlain();
    TxExercise(ROOT, cid, template, [t.sender], [t.sender], [t.sender], TRANSFER_CHOICE, Argument(labelled, t), [],
               None, [], None)
  }

  function PlainTx(labelled: bool, t: Terms, template: Template, cid: Str): Tx {
    ConstantsPlain();
    Tx([t.sender], None, Times(None, None, None, None), [], [ROOT], [PlainNode(labelled, t, template, cid)])
  }

  lemma PlainFormed(labelled: bool, t: Terms, template: Template, cid: Str)
    requires GoodTerms(t)
    ensures TxFormed(PlainTx(labelled, t, template, cid)) && WithinBounds(PlainTx(labelled, t, template, cid))
    ensures WellFormed(Argument(labelled, t))
  {
    TransferWellFormed(labelled, t);
  }

  function PlainExercise(labelled: bool, t: Terms, template: Template, cid: Str): DecodedExercise
    requires WellFormed(Argument(labelled, t))
  {
    DecodedExercise(TRANSFER_CHOICE, Encode(Argument(labelled, t)), Some(StripBom(cid)), Some(TemplateName(template)))
  }

  function PlainDecodedNode(labelled: bool, t: Terms, template: Template, cid: Str): DecodedNode
    requires WellFormed(Argument(labelled, t))
  {
    var s := StripBom(t.sender);
    DecodedNode(ROOT, true, Some(ExerciseNode), Some(PlainExercise(labelled, t, template, cid)), None, [],
                [Encode(Argument(labelled, t))], [s, s, s])
  }

  function PlainDecoded(labelled: bool, t: Terms, template: Template, cid: Str): DecodedPrepared
    requires WellFormed(Argument(labelled, t))
  {
    DecodedPrepared([StripBom(t.sender)], [ROOT], [PlainDecodedNode(labelled, t, template, cid)], None, None, None,
                    None, None, [], [])
  }

  lemma PlainNodeView(labelled: bool, t: Terms, template: Template, cid: Str)
    requires WellFormed(Argument(labelled, t))
    ensures NodeFormed(PlainNode(labelled, t, template, cid))
    ensures NodeView(PlainNode(labelled, t, template, cid)) == PlainDecodedNode(labelled, t, template, cid)
  {
    ConstantsPlain();
    ThreeTimes(t.sender);
    assert Shown([]) == [] && [Encode(Argument(labelled, t))] + [] == [Encode(Argument(labelled, t))];
  }

  lemma ThreeTimes(s: Str)
    ensures MetaOf([[s], [s], [s], []], None) == [StripBom(s), StripBom(s), StripBom(s)]
  {
    var lists: seq<seq<Str>> := [[s], [s], [s], []];
    assert [s][1..] == [] && Shown([s]) == [StripBom(s)];
    assert lists[3..] == [[]] && lists[2..] == [[s]] + lists[3..] && lists[1..] == [[s]] + lists[2..];
    assert ShownAll(lists[3..]) == [];
    assert ShownAll(lists[2..]) == [StripBom(s)];
    assert ShownAll(lists[1..]) == [StripBom(s)] + ShownAll(lists[2..]);
  }

  lemma PlainView(labelled: bool, t: Terms, template: Template, cid: Str)
    requires GoodTerms(t)
    ensures TxFormed(PlainTx(labelled, t, template, cid)) && WellFormed(Argument(labelled, t))
    ensures TxView(PlainTx(labelled, t, template, cid)) == PlainDecoded(labelled, t, template, cid)
  {
    ConstantsPlain();
    PlainFormed(labelled, t, template, cid);
    PlainNodeView(labelled, t, template, cid);
    var n := PlainNode(labelled, t, template, cid);
    assert [n][1..] == [] && [t.sender][1..] == [] && [ROOT][1..] == [];
    assert NodeViews([n]) == [NodeView(n)];
    assert Shown([ROOT]) == [ROOT] && Shown([t.sender]) == [StripBom(t.sender)];
  }

  // ------------------------------------------------------------------ the graph

  lemma PlainTree(d: DecodedPrepared, n: DecodedNode, ex: DecodedExercise, rules: seq<Rule>)
    requires d.roots == [ROOT] && d.nodes == [n] && n.nodeId == ROOT && FullyDecoded(n) && n.children == []
    requires n.kind == Some(ExerciseNode) && n.exercise == Some(ex) && ex.choiceId == TRANSFER_CHOICE
    ensures SoleAllowedTree(d, TRANSFER_CHOICE, rules)
    ensures forall other, rootId :: RootIs(d, other, rootId) <==> other == ex && rootId == ROOT
  {
    ReachesSelf(d.nodes, ROOT);
    assert n in d.nodes && IsExercise(n);
    forall m | m in d.nodes
      ensures m == n
    {
    }
  }

  // ------------------------------------------------------------------ the parties

  lemma PlainSplit(labelled: bool, t: Terms, template: Template, cid: Str)
    requires WellFormed(Argument(labelled, t))
    ensures var root, s := Collect(Encode(Argument(labelled, t)), 0), StripBom(t.sender);
            CollectSplitPartyLeaves(PlainDecoded(labelled, t, template, cid), ROOT)
            == if root.Err? then Err else Ok(SplitLeaves(root.value, [s, s, s], [], []))
  {
    var n := PlainDecodedNode(labelled, t, template, cid);
    OneNodeSplit(n, Collect(Encode(Argument(labelled, t)), 0));
  }

  lemma OneNodeSplit(n: DecodedNode, root: Result<seq<Bytes>>)
    requires IsRootExercise(n, ROOT) && root == Collect(n.exercise.value.chosenValue, 0)
    requires n.values == [n.exercise.value.chosenValue]
    ensures SplitNodes([n], ROOT)
         == if root.Err? then Err else Ok(SplitLeaves(root.value, n.partyMeta, [], []))
  {
    assert [n][1..] == [] && SplitNodes([], ROOT) == Ok(SplitLeaves([], [], [], []));
    assert OtherValues(n, ROOT) == [] && ValueBuckets(NodeTemplate(n), []) == Ok([]);
    var none: seq<Bucket> := [];
    assert none + none == none;
    assert n.partyMeta + [] == n.partyMeta && (root.Ok? ==> root.value + [] == root.value);
  }

  /** The sender signs, acts and is the only stakeholder: nobody else is named outside the argument. */
  lemma PlainParties(k: Known, s: Bytes, rootArg: seq<Bytes>)
    requires s in k.allowed
    ensures AllExplained(k, SplitLeaves(rootArg, [s, s, s], [], [])) <==> RootExplained(k, rootArg)
  {
  }

  // --------------------------------------------------------------------- acceptance

  /** What an honest single transfer must satisfy. */
  predicate PlainRight(labelled: bool, t: Terms, template: Template, cid: Str, e: Expectation)
    requires GoodTerms(t)
  {
    && Expected(t).Ok? && TermsMatch(Expected(t).value, e)
    && Levels(Argument(labelled, t)) <= MAX_DEPTH + 1
    && PinMatches(Some(TemplateName(template)), e.template)
    && PinMatches(Some(StripBom(cid)), e.contractId)
    && e.synchronizerId.None?
    && RootExplained(KnownParties(Expected(t).value, e, None), Shown(PartyLeaves(Argument(labelled, t))))
  }

  /** What is left of the safety checks once most of them hold by themselves. */
  lemma SafeReduced(d: DecodedPrepared, ex: DecodedExercise, e: Expectation, leaves: Result<seq<Bytes>>)
    requires RegistryCreatesSafe(d, e) && TimingPlausible(d, e.nowMs) && d.synchronizerId == None
    requires ExtractTransfer(ex.chosenValue).Ok? ==>
               var t := ExtractTransfer(ex.chosenValue).value;
               && MatchProvider(d, e.receiver, t.instrument.admin) == Ok(None)
               && (t.sender == e.sender ==> ActsAsOnly(d.actAs, e.sender))
               && (CollectSplitPartyLeaves(d, ROOT).Ok? <==> leaves.Ok?)
               && (t.sender == e.sender && leaves.Ok? ==>
                     (AllExplained(KnownParties(t, e, None), CollectSplitPartyLeaves(d, ROOT).value)
                      <==> RootExplained(KnownParties(t, e, None), leaves.value)))
    ensures TransferSafe(d, ex, ROOT, e)
       <==> (&& ExtractTransfer(ex.chosenValue).Ok?
             && var t := ExtractTransfer(ex.chosenValue).value;
                && TermsMatch(t, e) && leaves.Ok? && e.synchronizerId.None?
                && PinMatches(ex.template, e.template) && PinMatches(ex.contractId, e.contractId)
                && RootExplained(KnownParties(t, e, None), leaves.value))
  {
  }

  lemma NoProvider(d: DecodedPrepared, receiver: Bytes, admin: Bytes)
    requires d.inputContracts == []
    ensures MatchProvider(d, receiver, admin) == Ok(None)
  {
  }

  /** The checks that a single transfer without input contracts, times or domain leaves open. */
  lemma PlainSafe(d: DecodedPrepared, ex: DecodedExercise, sender: Bytes, leaves: Result<seq<Bytes>>, e: Expectation)
    requires d.actAs == [sender] && d.inputContracts == [] && d.synchronizerId == None
    requires d.preparationTime == None && d.minLedgerEffectiveTime == None && d.maxLedgerEffectiveTime == None
    requires d.maxRecordTime == None && Exercises(d.nodes) == [ex] && ex.choiceId != INTERNAL_TRANSFER
    requires ExtractTransfer(ex.chosenValue).Ok? ==> ExtractTransfer(ex.chosenValue).value.sender == sender
    requires CollectSplitPartyLeaves(d, ROOT)
          == if leaves.Err? then Err else Ok(SplitLeaves(leaves.value, [sender, sender, sender], [], []))
    ensures TransferSafe(d, ex, ROOT, e)
       <==> (&& ExtractTransfer(ex.chosenValue).Ok?
             && var t := ExtractTransfer(ex.chosenValue).value;
                && TermsMatch(t, e) && leaves.Ok? && e.synchronizerId.None?
                && PinMatches(ex.template, e.template) && PinMatches(ex.contractId, e.contractId)
                && RootExplained(KnownParties(t, e, None), leaves.value))
  {
    if ExtractTransfer(ex.chosenValue).Ok? {
      var t := ExtractTransfer(ex.chosenValue).value;
      NoProvider(d, e.receiver, t.instrument.admin);
      if leaves.Ok? && t.sender == e.sender {
        PlainParties(KnownParties(t, e, None), sender, leaves.value);
      }
    }
    SafeReduced(d, ex, e, leaves);
  }

  lemma PlainExercises(n: DecodedNode)
    requires IsExercise(n)
    ensures Exercises([n]) == [n.exercise.value]
  {
    assert [n][1..] == [];
  }

  lemma PlainSafeExactly(labelled: bool, t: Terms, template: Template, cid: Str, e: Expectation)
    requires GoodTerms(t) && WellFormed(Argument(labelled, t)) && Fits(Encode(Argument(labelled, t)))
    ensures TransferSafe(PlainDecoded(labelled, t, template, cid), PlainExercise(labelled, t, template, cid), ROOT, e)
       <==> PlainRight(labelled, t, template, cid, e)
  {
    var arg, ex := Argument(labelled, t), PlainExercise(labelled, t, template, cid);
    ConstantsPlain();
    PlainExercises(PlainDecodedNode(labelled, t, template, cid));
    PlainSplit(labelled, t, template, cid);
    TransferRoundTrip(labelled, t);
    CollectRoundTrip(arg, 0);
    PlainSafe(PlainDecoded(labelled, t, template, cid), ex, StripBom(t.sender), Collect(Encode(arg), 0), e);
  }

  /** A transfer without consequences is accepted exactly when its terms are the intended ones, the
      pins hold, its values are shallow enough and its argument names only the parties it may. */
  lemma PlainTransferAccepted(labelled: bool, t: Terms, template: Template, cid: Str, e: Expectation)
    requires GoodTerms(t)
    requires TxFormed(PlainTx(labelled, t, template, cid)) && Fits(EncodeTx(PlainTx(labelled, t, template, cid)))
    ensures Accepted(EncodeTx(PlainTx(labelled, t, template, cid)), e) <==> PlainRight(labelled, t, template, cid, e)
  {
    PlainView(labelled, t, template, cid);
    PlainFormed(labelled, t, template, cid);
    TxRoundTrip(PlainTx(labelled, t, template, cid));
    ArgumentFits(labelled, t, template, cid);
    PlainSafeExactly(labelled, t, template, cid, e);
    var d, n, ex := PlainDecoded(labelled, t, template, cid), PlainDecodedNode(labelled, t, template, cid),
                    PlainExercise(labelled, t, template, cid);
    PlainTree(d, n, ex, Consequences(e));
    PlainAssembled(EncodeTx(PlainTx(labelled, t, template, cid)), d, ex, e);
  }

  lemma PlainAssembled(bytes: Bytes, d: DecodedPrepared, ex: DecodedExercise, e: Expectation)
    requires PreparedOf(bytes) == Ok(d) && SoleAllowedTree(d, TRANSFER_CHOICE, Consequences(e))
    requires forall other, rootId :: RootIs(d, other, rootId) <==> other == ex && rootId == ROOT
    ensures Accepted(bytes, e) <==> TransferSafe(d, ex, ROOT, e)
  {
    OnlyRoot(d, ex, e);
  }

  lemma OnlyRoot(d: DecodedPrepared, ex: DecodedExercise, e: Expectation)
    requires forall other, rootId :: RootIs(d, other, rootId) <==> other == ex && rootId == ROOT
    ensures (exists other, rootId :: RootIs(d, other, rootId) && TransferSafe(d, other, rootId, e))
        <==> TransferSafe(d, ex, ROOT, e)
  {
    assert RootIs(d, ex, ROOT);
  }

  lemma ArgumentFits(labelled: bool, t: Terms, template: Template, cid: Str)
    requires GoodTerms(t)
    requires TxFormed(PlainTx(labelled, t, template, cid)) && Fits(EncodeTx(PlainTx(labelled, t, template, cid)))
    ensures WellFormed(Argument(labelled, t)) && Fits(Encode(Argument(labelled, t)))
  {
    var tx, n := PlainTx(labelled, t, template, cid), PlainNode(labelled, t, template, cid);
    TransferWellFormed(labelled, t);
    TreeSafety.NodeFits(tx, 0);
    TreeSafety.ExerciseValuesFit(n);
  }

  /** The one node written in the bytes, and the one argument in it. */
  lemma PlainNodeWritten(labelled: bool, t: Terms, template: Template, cid: Str) returns (node: Bytes)
    requires GoodTerms(t)
    requires TxFormed(PlainTx(labelled, t, template, cid)) && Fits(EncodeTx(PlainTx(labelled, t, template, cid)))
    ensures WellFormed(Argument(labelled, t))
    ensures node in LooseTransaction.Nodes(EncodeTx(PlainTx(labelled, t, template, cid)))
    ensures LooseTransaction.ChosenValues(node) == [Encode(Argument(labelled, t))]
  {
    var bytes := EncodeTx(PlainTx(labelled, t, template, cid));
    PlainView(labelled, t, template, cid);
    PlainFormed(labelled, t, template, cid);
    TxRoundTrip(PlainTx(labelled, t, template, cid));
    node := OneNodeRead(bytes, PlainDecoded(labelled, t, template, cid), PlainDecodedNode(labelled, t, template, cid));
  }

  lemma OneNodeRead(bytes: Bytes, d: DecodedPrepared, n: DecodedNode) returns (node: Bytes)
    requires PreparedOf(bytes) == Ok(d) && d.nodes == [n] && FullyDecoded(n) && n.exercise.Some?
    ensures node in LooseTransaction.Nodes(bytes)
    ensures LooseTransaction.ChosenValues(node) == [n.exercise.value.chosenValue]
  {
    LooseTransaction.PreparedIsLoose(bytes);
    OneNodeWritten(LooseTransaction.Nodes(bytes), n);
    node := LooseTransaction.Nodes(bytes)[0];
  }

  lemma OneNodeWritten(bodies: seq<Bytes>, n: DecodedNode)
    requires NodesOf(bodies) == Ok([n]) && FullyDecoded(n) && n.exercise.Some?
    ensures |bodies| == 1 && LooseTransaction.ChosenValues(bodies[0]) == [n.exercise.value.chosenValue]
  {
    LooseTransaction.NodesOfAt(bodies, 0);
    LooseTransaction.NodeIsLoose(bodies[0]);
  }
}
