/** The same for a transaction given as a tree and encoded canonically, said of the tree. */
module TreeSafety {
  import opened Results
  import opened Wire
  import opened DamlValue
  import opened DamlCodec
  import opened Decoded
  import opened PreparedDecoder
  import opened PreparedCodec
  import opened NodeGraph
  import opened TransferRecord
  import opened PartyRule
  import opened Acceptance
  import opened Safety

  // -------------------------------------------------------- values of a tree node

  /** The values a node introduces, other than the root's chosen value. */
  function PayloadValues(n: TxNode, rootId: Bytes): seq<Value> {
    match n
    case TxExercise(_, _, _, _, _, _, _, chosen, _, result, _, _) =>
      (if StripBom(n.id) == rootId then [] else [chosen]) + OptList(result)
    case TxCreate(_, c) => [c.argument]
    case _ => []
  }

  function PayloadTemplate(n: TxNode): Option<Bytes> {
    if n.TxCreate? then Some(TemplateName(n.created.template)) else None
  }

  /** Every party a tree node names, where it names it, is accounted for. */
  ghost predicate TreeNodeExplained(k: Known, n: TxNode, rootId: Bytes)
    requires NodeFormed(n)
  {
    && (forall p <- V1View(n).partyMeta :: ExplainedInMetadata(k, p))
    && (forall v <- PayloadValues(n, rootId) :: TreeValueExplained(k, PayloadTemplate(n), v))
    && (n.TxExercise? && StripBom(n.id) == rootId ==> RootExplained(k, Shown(PartyLeaves(n.chosen))))
  }

  ghost predicate TreeValueExplained(k: Known, template: Option<Bytes>, v: Value) {
    forall p <- Shown(PartyLeaves(v)) :: ExplainedInPayload(k, template, p)
  }

  ghost predicate TreeInputExplained(k: Known, c: Contract)
    requires ContractFormed(c)
  {
    && (forall p <- ContractView(c).partyMeta :: ExplainedInMetadata(k, p))
    && (|| TreeValueExplained(k, Some(TemplateName(c.template)), c.argument)
        || RegistrarConfiguration(
             k, Bucket(Some(TemplateName(c.template)), Shown(PartyLeaves(c.argument)), Shown(c.signatories))))
  }

  lemma TreeValueCovered(k: Known, buckets: seq<Bucket>, template: Option<Bytes>, v: Value)
    requires WellFormed(v) && Fits(Encode(v))
    requires CoveredBy(buckets, template, [], Encode(v))
    requires forall b <- buckets :: NodeBucketExplained(k, b)
    ensures TreeValueExplained(k, template, v)
  {
    CollectRoundTrip(v, 0);
    var leaves := Shown(PartyLeaves(v));
    if leaves != [] {
      assert NodeBucketExplained(k, Bucket(template, leaves, []));
    }
  }

  lemma KindFits(n: TxNode)
    requires NodeFormed(n) && Fits(EncodeNode(n))
    ensures Fits(KindGroup(n).bodies[0])
  {
    NodeOpens(n);
    BodyRead([KindGroup(n)]);
    GroupFits([KindGroup(n)], 0, KindGroup(n).bodies[0]);
  }

  lemma ExerciseValuesFit(n: TxNode)
    requires n.TxExercise? && NodeFormed(n) && Fits(EncodeNode(n))
    ensures Fits(Encode(n.chosen)) && (n.result.Some? ==> Fits(Encode(n.result.value)))
  {
    var gs := ExerciseGroups(n);
    KindFits(n);
    ExerciseShape(n);
    BodyRead(gs);
    GroupFits(gs, 6, Encode(n.chosen));
    if n.result.Some? {
      GroupFits(gs, 8, Encode(n.result.value));
    }
  }

  lemma CreateValuesFit(n: TxNode)
    requires n.TxCreate? && NodeFormed(n) && Fits(EncodeNode(n))
    ensures Fits(Encode(n.created.argument))
  {
    KindFits(n);
    ContractOpens(n.created);
    GroupFits(ContractGroups(n.created), 2, Encode(n.created.argument));
  }

  /** The other values of a decoded node are the encodings of the tree's payloads. */
  lemma PayloadsEncoded(n: TxNode, rootId: Bytes)
    requires NodeFormed(n) && Fits(EncodeNode(n))
    ensures forall v <- PayloadValues(n, rootId) ::
              WellFormed(v) && Fits(Encode(v)) && Encode(v) in OtherValues(NodeView(n), rootId)
    ensures PayloadTemplate(n) == NodeTemplate(NodeView(n))
  {
    if n.TxExercise? {
      ExercisePayloads(n, rootId);
    } else if n.TxCreate? {
      CreateValuesFit(n);
    }
  }

  lemma ExercisePayloads(n: TxNode, rootId: Bytes)
    requires n.TxExercise? && NodeFormed(n) && Fits(EncodeNode(n))
    ensures forall v <- PayloadValues(n, rootId) ::
              WellFormed(v) && Fits(Encode(v)) && Encode(v) in OtherValues(NodeView(n), rootId)
  {
    ExerciseValuesFit(n);
    ResultIsOther(NodeView(n).values, Encode(n.chosen), OptEncode(n.result));
  }

  lemma ResultIsOther(values: seq<Bytes>, chosen: Bytes, result: Option<Bytes>)
    requires values == [chosen] + OptList(result)
    ensures chosen in values && (result.Some? ==> result.value in values && result.value in values[1..])
  {
    assert values[0] == chosen && (result.Some? ==> values[1] == result.value && values[1..][0] == values[1]);
  }

  lemma TreeNodeIsExplained(k: Known, s: SplitLeaves, n: TxNode, rootId: Bytes)
    requires NodeFormed(n) && Fits(EncodeNode(n))
    requires NodeCovered(s, NodeView(n), rootId) && AllExplained(k, s)
    ensures TreeNodeExplained(k, n, rootId)
  {
    PayloadsEncoded(n, rootId);
    forall v | v in PayloadValues(n, rootId)
      ensures TreeValueExplained(k, PayloadTemplate(n), v)
    {
      TreeValueCovered(k, s.nodeValues, PayloadTemplate(n), v);
    }
    if n.TxExercise? && StripBom(n.id) == rootId {
      ExerciseValuesFit(n);
      CollectRoundTrip(n.chosen, 0);
      FewerRootParties(k, Shown(PartyLeaves(n.chosen)), s.rootArg);
    }
  }

  // ---------------------------------------------------------- the whole transaction

  lemma {:induction false} EncodeNodesAt(ns: seq<TxNode>, i: nat)
    requires NodesFormed(ns) && i < |ns|
    ensures EncodeNodes(ns)[i] == EncodeNode(ns[i])
  {
    if i > 0 {
      EncodeNodesAt(ns[1..], i - 1);
    }
  }

  lemma {:induction false} EncodeInputsAt(cs: seq<Contract>, i: nat)
    requires ContractsFormed(cs) && i < |cs|
    ensures EncodeInputs(cs)[i] == EncodeInput(cs[i])
    ensures ContractViews(cs)[i] == ContractView(cs[i])
  {
    if i > 0 {
      EncodeInputsAt(cs[1..], i - 1);
    }
  }

  lemma NodeFits(tx: Tx, i: nat)
    requires TxFormed(tx) && Fits(EncodeTx(tx)) && i < |tx.nodes|
    ensures Fits(EncodeNode(tx.nodes[i]))
  {
    TxOpens(tx);
    NodeBodyFits(tx, i);
  }

  lemma NodeBodyFits(tx: Tx, i: nat)
    requires TxFormed(tx) && Fits(Body(TransactionGroups(tx))) && i < |tx.nodes|
    ensures Fits(EncodeNode(tx.nodes[i]))
  {
    var gs := TransactionGroups(tx);
    BodyRead(gs);
    EncodeNodesAt(tx.nodes, i);
    assert EncodeNode(tx.nodes[i]) in gs[1].bodies;
  }

  lemma InputFits(tx: Tx, i: nat)
    requires TxFormed(tx) && Fits(EncodeTx(tx)) && i < |tx.inputs|
    ensures Fits(Encode(tx.inputs[i].argument))
  {
    TxOpens(tx);
    MetadataOpens(tx);
    EncodeInputsAt(tx.inputs, i);
    assert EncodeInput(tx.inputs[i]) in MetadataGroups(tx)[2].bodies;
    ArgumentFits(tx.inputs[i]);
  }

  lemma ArgumentFits(c: Contract)
    requires ContractFormed(c) && Fits(EncodeInput(c))
    ensures Fits(Encode(c.argument))
  {
    BodyRead([Group(1, [Body(ContractGroups(c))])]);
    GroupFits([Group(1, [Body(ContractGroups(c))])], 0, Body(ContractGroups(c)));
    ContractOpens(c);
    GroupFits(ContractGroups(c), 2, Encode(c.argument));
  }

  lemma TreeInputCovered(k: Known, s: SplitLeaves, c: Contract)
    requires ContractFormed(c) && Fits(Encode(c.argument)) && AllExplained(k, s)
    requires CoveredBy(s.inputArgs, Some(TemplateName(c.template)), Shown(c.signatories), Encode(c.argument))
    requires forall p <- ContractView(c).partyMeta :: p in s.elsewhere
    ensures TreeInputExplained(k, c)
  {
    CollectRoundTrip(c.argument, 0);
    var leaves := Shown(PartyLeaves(c.argument));
    if leaves != [] {
      assert InputBucketExplained(k, Bucket(Some(TemplateName(c.template)), leaves, Shown(c.signatories)));
    }
  }

  lemma TreeInputIsExplained(k: Known, s: SplitLeaves, tx: Tx, i: nat)
    requires TxFormed(tx) && Fits(EncodeTx(tx)) && i < |tx.inputs| && AllExplained(k, s)
    requires forall p <- ContractParties(ContractViews(tx.inputs)) :: p in s.elsewhere
    requires forall ic <- ContractsSeen(ContractViews(tx.inputs)) | ic.argument.Some? ::
               CoveredBy(s.inputArgs, ic.template, ic.signatories, ic.argument.value)
    ensures TreeInputExplained(k, tx.inputs[i])
  {
    var c, views := tx.inputs[i], ContractViews(tx.inputs);
    InputFits(tx, i);
    EncodeInputsAt(tx.inputs, i);
    ContractsSeenAt(views, i);
    assert views[i].contract in ContractsSeen(views);
    TreeInputCovered(k, s, c);
  }

  /** The node under the root id is the transfer itself. */
  ghost predicate RootNode(tx: Tx, n: TxNode, rootId: Bytes, t: Transfer)
    requires TxFormed(tx)
  {
    && n in tx.nodes && NodeFormed(n) && n.TxExercise?
    && Shown(tx.roots) == [rootId] && StripBom(n.id) == rootId
    && StripBom(n.choice) == TRANSFER_CHOICE
    && ExtractTransfer(Encode(n.chosen)) == Ok(t)
  }

  lemma ExerciseViewed(n: TxNode)
    requires NodeFormed(n) && IsExercise(NodeView(n))
    ensures n.TxExercise?
    ensures NodeView(n).exercise.value.choiceId == StripBom(n.choice)
    ensures NodeView(n).exercise.value.chosenValue == Encode(n.chosen)
  {
  }

  lemma RootIsTreeNode(tx: Tx, ex: DecodedExercise, rootId: Bytes, t: Transfer, rules: seq<Rule>)
    returns (n: TxNode)
    requires TxFormed(tx) && RootIs(TxView(tx), ex, rootId) && ExtractTransfer(ex.chosenValue) == Ok(t)
    requires SoleAllowedTree(TxView(tx), TRANSFER_CHOICE, rules)
    ensures RootNode(tx, n, rootId, t)
  {
    RootChoice(TxView(tx), ex, rootId, rules);
    var i := TreeRootPosition(tx, ex, rootId);
    n := tx.nodes[i];
    ExerciseViewed(n);
  }

  lemma TreeRootPosition(tx: Tx, ex: DecodedExercise, rootId: Bytes) returns (i: nat)
    requires TxFormed(tx) && RootIs(TxView(tx), ex, rootId)
    ensures i < |tx.nodes| && NodeFormed(tx.nodes[i])
    ensures var v := NodeView(tx.nodes[i]); v.nodeId == rootId && IsExercise(v) && v.exercise.value == ex
  {
    var views := NodeViews(tx.nodes);
    var v :| v in views && v.nodeId == rootId && IsExercise(v) && v.exercise.value == ex;
    i :| 0 <= i < |views| && views[i] == v;
  }

  lemma SplitOfTx(tx: Tx, rootId: Bytes)
    requires TxFormed(tx) && CollectSplitPartyLeaves(TxView(tx), rootId).Ok?
    ensures var s := CollectSplitPartyLeaves(TxView(tx), rootId).value;
            && (forall i | 0 <= i < |tx.nodes| :: NodeCovered(s, NodeView(tx.nodes[i]), rootId))
            && (forall p <- ContractParties(ContractViews(tx.inputs)) :: p in s.elsewhere)
            && (forall ic <- ContractsSeen(ContractViews(tx.inputs)) | ic.argument.Some? ::
                  CoveredBy(s.inputArgs, ic.template, ic.signatories, ic.argument.value))
  {
    var views, s := NodeViews(tx.nodes), CollectSplitPartyLeaves(TxView(tx), rootId).value;
    var split := SplitNodes(views, rootId).value;
    NodesCovered(views, rootId);
    InputsCovered(ContractsSeen(ContractViews(tx.inputs)));
    forall i | 0 <= i < |tx.nodes|
      ensures NodeCovered(s, NodeView(tx.nodes[i]), rootId)
    {
      assert views[i] in views;
      CoverageGrows(s, split, views[i], rootId);
    }
  }

  /** If the encoding of a transaction tree is accepted, its one root is the intended transfer,
      and every party that a node or an input contract of the tree names, by its text, is one who
      may stand there. */
  lemma AcceptedTreeExplained(tx: Tx, e: Expectation)
    returns (root: TxNode, rootId: Bytes, t: Transfer, provider: Option<Bytes>)
    requires TxFormed(tx) && Fits(EncodeTx(tx)) && Accepted(EncodeTx(tx), e)
    ensures WithinBounds(tx) && RootNode(tx, root, rootId, t) && TermsMatch(t, e)
    ensures MatchProvider(TxView(tx), e.receiver, t.instrument.admin) == Ok(provider)
    ensures forall i | 0 <= i < |tx.nodes| :: TreeNodeExplained(KnownParties(t, e, provider), tx.nodes[i], rootId)
    ensures forall i | 0 <= i < |tx.inputs| :: TreeInputExplained(KnownParties(t, e, provider), tx.inputs[i])
  {
    var d, ex;
    d, ex, rootId, t, provider := AcceptedHasReasons(EncodeTx(tx), e);
    TxRoundTrip(tx);
    root := RootIsTreeNode(tx, ex, rootId, t, Consequences(e));
    TreePartiesExplained(tx, e, ex, rootId, t, provider);
  }

  lemma TreePartiesExplained(tx: Tx, e: Expectation, ex: DecodedExercise, rootId: Bytes, t: Transfer,
                         provider: Option<Bytes>)
    requires TxFormed(tx) && Fits(EncodeTx(tx))
    requires CollectSplitPartyLeaves(TxView(tx), rootId).Ok?
    requires AllExplained(KnownParties(t, e, provider), CollectSplitPartyLeaves(TxView(tx), rootId).value)
    ensures forall i | 0 <= i < |tx.nodes| :: TreeNodeExplained(KnownParties(t, e, provider), tx.nodes[i], rootId)
    ensures forall i | 0 <= i < |tx.inputs| :: TreeInputExplained(KnownParties(t, e, provider), tx.inputs[i])
  {
    var k, s := KnownParties(t, e, provider), CollectSplitPartyLeaves(TxView(tx), rootId).value;
    SplitOfTx(tx, rootId);
    forall i | 0 <= i < |tx.nodes|
      ensures TreeNodeExplained(k, tx.nodes[i], rootId)
    {
      NodeFits(tx, i);
      TreeNodeIsExplained(k, s, tx.nodes[i], rootId);
    }
    forall i | 0 <= i < |tx.inputs|
      ensures TreeInputExplained(k, tx.inputs[i])
    {
      TreeInputIsExplained(k, s, tx, i);
    }
  }
}
