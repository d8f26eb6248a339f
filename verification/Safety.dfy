/** What acceptance guarantees about any bytes at all: every party written anywhere in them is
    accounted for, and the transfer written in them is the one that was intended. */
module Safety {
  import opened Results
  import opened Wire
  import opened DamlValue
  import opened LooseReader
  import opened LooseTransaction
  import opened LooseTransfer
  import opened Decoded
  import opened PreparedDecoder
  import opened NodeGraph
  import opened TransferRecord
  import opened PartyRule
  import opened Acceptance
  import Amount
  import Text

  /** Why an accepted transaction was accepted: its root, its terms, its provider. */
  ghost predicate AcceptedFor(bytes: Bytes, e: Expectation, d: DecodedPrepared, ex: DecodedExercise,
                              rootId: Bytes, t: Transfer, provider: Option<Bytes>)
  {
    && PreparedOf(bytes) == Ok(d)
    && SoleAllowedTree(d, TRANSFER_CHOICE, Consequences(e))
    && RootIs(d, ex, rootId) && TransferSafe(d, ex, rootId, e)
    && ExtractTransfer(ex.chosenValue) == Ok(t)
    && MatchProvider(d, e.receiver, t.instrument.admin) == Ok(provider)
  }

  lemma AcceptedHasReasons(bytes: Bytes, e: Expectation)
    returns (d: DecodedPrepared, ex: DecodedExercise, rootId: Bytes, t: Transfer, provider: Option<Bytes>)
    requires Accepted(bytes, e)
    ensures AcceptedFor(bytes, e, d, ex, rootId, t, provider)
  {
    d := PreparedOf(bytes).value;
    ex, rootId :| RootIs(d, ex, rootId) && TransferSafe(d, ex, rootId, e);
    t := ExtractTransfer(ex.chosenValue).value;
    provider := MatchProvider(d, e.receiver, t.instrument.admin).value;
  }

  lemma RootChoice(d: DecodedPrepared, ex: DecodedExercise, rootId: Bytes, rules: seq<Rule>)
    requires RootIs(d, ex, rootId) && SoleAllowedTree(d, TRANSFER_CHOICE, rules)
    ensures ex.choiceId == TRANSFER_CHOICE
  {
    var n :| n in d.nodes && n.nodeId == rootId && IsExercise(n) && n.exercise.value == ex;
    var m :| m in d.nodes && m.nodeId == rootId && IsExercise(m) && m.exercise.value.choiceId == TRANSFER_CHOICE;
    assert n == m;
  }

  lemma FewerRootParties(k: Known, some: seq<Bytes>, all: seq<Bytes>)
    requires multiset(some) <= multiset(all) && RootExplained(k, all)
    ensures RootExplained(k, some)
  {
    forall p | p in some
      ensures p in all
    {
      assert p in multiset(some);
    }
  }

  // ------------------------------------------------------------ nodes and inputs

  // A party id is judged by its text, which has no byte-order mark in front.

  /** Every party written inside a value may stand in a payload of this template. */
  ghost predicate ValueExplained(k: Known, template: Option<Bytes>, value: Bytes) {
    forall p <- Parties(value) :: ExplainedInPayload(k, template, StripBom(p))
  }

  /** The values a node introduces, other than the root's chosen value. */
  function Payloads(node: Bytes, rootId: Bytes): seq<Bytes> {
    (if NodeId(node) == rootId then [] else ChosenValues(node)) + ExerciseResults(node) + CreateArguments(node)
  }

  /** Every party written in a node, where it is written, is accounted for. */
  ghost predicate NodeExplained(k: Known, node: Bytes, rootId: Bytes) {
    && (forall p <- ListedParties(node) :: ExplainedInMetadata(k, StripBom(p)))
    && (forall v <- Payloads(node, rootId) :: ValueExplained(k, CreatedTemplate(node), v))
    && (NodeId(node) == rootId ==> forall v <- ChosenValues(node) :: RootExplained(k, Shown(Parties(v))))
  }

  ghost predicate InputExplained(k: Known, input: Bytes) {
    && (forall p <- InputParties(input) :: ExplainedInMetadata(k, StripBom(p)))
    && (forall v <- InputArguments(input) ::
          || ValueExplained(k, InputTemplate(input), v)
          || RegistrarConfiguration(
               k, Bucket(InputTemplate(input), Shown(Parties(v)), Shown(InputSignatories(input)))))
  }

  lemma ListedExplained(k: Known, written: seq<Bytes>, shown: seq<Bytes>)
    requires shown == Shown(written) && forall p <- shown :: ExplainedInMetadata(k, p)
    ensures forall p <- written :: ExplainedInMetadata(k, StripBom(p))
  {
    ShownHas(written);
  }

  lemma CoveredExplained(k: Known, buckets: seq<Bucket>, template: Option<Bytes>, value: Bytes)
    requires CoveredBy(buckets, template, [], value) && forall b <- buckets :: NodeBucketExplained(k, b)
    ensures ValueExplained(k, template, value)
  {
    CollectIsLoose(value, 0);
    ShownHas(Parties(value));
    var leaves := Collect(value, 0).value;
    if leaves != [] {
      assert NodeBucketExplained(k, Bucket(template, leaves, []));
    }
  }

  lemma CoveredInputExplained(k: Known, buckets: seq<Bucket>, template: Option<Bytes>, signatories: seq<Bytes>,
                              value: Bytes)
    requires CoveredBy(buckets, template, signatories, value) && forall b <- buckets :: InputBucketExplained(k, b)
    ensures ValueExplained(k, template, value)
            || RegistrarConfiguration(k, Bucket(template, Shown(Parties(value)), signatories))
  {
    CollectIsLoose(value, 0);
    ShownHas(Parties(value));
    var leaves := Collect(value, 0).value;
    if leaves != [] {
      assert InputBucketExplained(k, Bucket(template, leaves, signatories));
    }
  }

  lemma BehindChosen(values: seq<Bytes>, chosen: seq<Bytes>, results: seq<Bytes>, arguments: seq<Bytes>)
    requires values == chosen + results + arguments
    ensures |chosen| == 1 ==> values != [] && values[1..] == [] + results + arguments
    ensures chosen == [] ==> values == [] + results + arguments
  {
  }

  /** The payloads of a node are the values the split looks at. */
  lemma PayloadsAreOthers(n: DecodedNode, node: Bytes, rootId: Bytes)
    requires n.nodeId == NodeId(node) && ChosenShown(n.exercise) == ChosenValues(node)
    requires n.values == ChosenValues(node) + ExerciseResults(node) + CreateArguments(node)
    ensures Payloads(node, rootId) == OtherValues(n, rootId)
  {
    BehindChosen(n.values, ChosenValues(node), ExerciseResults(node), CreateArguments(node));
  }

  lemma NodeIsExplained(k: Known, s: SplitLeaves, n: DecodedNode, node: Bytes, rootId: Bytes)
    requires ShowsAll(n, node) && NodeCovered(s, n, rootId) && AllExplained(k, s)
    ensures NodeExplained(k, node, rootId)
  {
    ListedExplained(k, ListedParties(node), n.partyMeta);
    PayloadsAreOthers(n, node, rootId);
    forall v | v in Payloads(node, rootId)
      ensures ValueExplained(k, CreatedTemplate(node), v)
    {
      CoveredExplained(k, s.nodeValues, NodeTemplate(n), v);
    }
    if NodeId(node) == rootId && n.exercise.Some? {
      CollectIsLoose(n.exercise.value.chosenValue, 0);
      FewerRootParties(k, Shown(Parties(n.exercise.value.chosenValue)), s.rootArg);
    }
  }

  lemma InputIsExplained(k: Known, s: SplitLeaves, c: SeenContract, input: Bytes)
    requires ShowsInput(c, input) && AllExplained(k, s)
    requires forall p <- c.partyMeta :: p in s.elsewhere
    requires c.contract.argument.Some? ==>
               CoveredBy(s.inputArgs, c.contract.template, c.contract.signatories, c.contract.argument.value)
    ensures InputExplained(k, input)
  {
    ListedExplained(k, InputParties(input), c.partyMeta);
    if c.contract.argument.Some? {
      CoveredInputExplained(k, s.inputArgs, c.contract.template, c.contract.signatories, c.contract.argument.value);
    }
  }

  lemma {:induction false} ContractsSeenAt(cs: seq<SeenContract>, i: nat)
    requires i < |cs|
    ensures ContractsSeen(cs)[i] == cs[i].contract
    ensures forall p <- cs[i].partyMeta :: p in ContractParties(cs)
  {
    if i > 0 {
      ContractsSeenAt(cs[1..], i - 1);
    }
  }

  // ---------------------------------------------------------- the whole transaction

  /** Every node body and every input body, as decoded, lies in the buckets that were checked. */
  lemma SplitCovers(bytes: Bytes, d: DecodedPrepared, rootId: Bytes)
    requires PreparedOf(bytes) == Ok(d) && CollectSplitPartyLeaves(d, rootId).Ok?
    requires ContractsOf(Inputs(bytes)).Ok?
    requires d.inputContractPartyMeta == ContractParties(ContractsOf(Inputs(bytes)).value)
    requires d.inputContracts == ContractsSeen(ContractsOf(Inputs(bytes)).value)
    ensures var s, cs := CollectSplitPartyLeaves(d, rootId).value, ContractsOf(Inputs(bytes)).value;
            && (forall n <- d.nodes :: NodeCovered(s, n, rootId))
            && (forall i, p | 0 <= i < |cs| && p in cs[i].partyMeta :: p in s.elsewhere)
            && (forall i | 0 <= i < |cs| && cs[i].contract.argument.Some? ::
                  CoveredBy(s.inputArgs, cs[i].contract.template, cs[i].contract.signatories,
                            cs[i].contract.argument.value))
  {
    var s, cs := CollectSplitPartyLeaves(d, rootId).value, ContractsOf(Inputs(bytes)).value;
    NodesCovered(d.nodes, rootId);
    InputsCovered(d.inputContracts);
    forall n | n in d.nodes
      ensures NodeCovered(s, n, rootId)
    {
      CoverageGrows(s, SplitNodes(d.nodes, rootId).value, n, rootId);
    }
    forall i | 0 <= i < |cs|
      ensures forall p <- cs[i].partyMeta :: p in s.elsewhere
      ensures cs[i].contract in d.inputContracts
    {
      ContractsSeenAt(cs, i);
      assert d.inputContracts[i] == cs[i].contract;
    }
  }

  lemma NodesAreLoose(bytes: Bytes, d: DecodedPrepared)
    requires NodesOf(Nodes(bytes)) == Ok(d.nodes) && (forall n <- d.nodes :: FullyDecoded(n))
    ensures |Nodes(bytes)| == |d.nodes|
    ensures forall i | 0 <= i < |d.nodes| :: ShowsAll(d.nodes[i], Nodes(bytes)[i])
  {
    forall i | 0 <= i < |d.nodes|
      ensures ShowsAll(d.nodes[i], Nodes(bytes)[i])
    {
      NodesOfAt(Nodes(bytes), i);
      assert d.nodes[i] in d.nodes;
      NodeIsLoose(Nodes(bytes)[i]);
    }
  }

  lemma NodesExplained(bytes: Bytes, d: DecodedPrepared, k: Known, s: SplitLeaves, rootId: Bytes)
    requires NodesOf(Nodes(bytes)) == Ok(d.nodes) && (forall n <- d.nodes :: FullyDecoded(n))
    requires (forall n <- d.nodes :: NodeCovered(s, n, rootId)) && AllExplained(k, s)
    ensures forall node <- Nodes(bytes) :: NodeExplained(k, node, rootId)
  {
    NodesAreLoose(bytes, d);
    forall i | 0 <= i < |Nodes(bytes)|
      ensures NodeExplained(k, Nodes(bytes)[i], rootId)
    {
      assert d.nodes[i] in d.nodes;
      NodeIsExplained(k, s, d.nodes[i], Nodes(bytes)[i], rootId);
    }
  }

  lemma InputsExplained(inputs: seq<Bytes>, cs: seq<SeenContract>, k: Known, s: SplitLeaves)
    requires ContractsOf(inputs) == Ok(cs) && AllExplained(k, s)
    requires forall i, p | 0 <= i < |cs| && p in cs[i].partyMeta :: p in s.elsewhere
    requires forall i | 0 <= i < |cs| && cs[i].contract.argument.Some? ::
               CoveredBy(s.inputArgs, cs[i].contract.template, cs[i].contract.signatories,
                         cs[i].contract.argument.value)
    ensures forall input <- inputs :: InputExplained(k, input)
  {
    forall i | 0 <= i < |inputs|
      ensures InputExplained(k, inputs[i])
    {
      ContractsOfAt(inputs, i);
      InputIsLoose(inputs[i]);
      InputIsExplained(k, s, cs[i], inputs[i]);
    }
  }

  /** Node `i` is the only node under the one root id; it exercises the transfer choice, once, and
      its argument is the transfer. */
  ghost predicate RootWritten(bytes: Bytes, i: nat, rootId: Bytes, chosen: Bytes, t: Transfer) {
    && i < |Nodes(bytes)|
    && Shown(RootIds(bytes)) == [rootId]
    && NodeId(Nodes(bytes)[i]) == rootId
    && (forall j | 0 <= j < |Nodes(bytes)| && j != i :: NodeId(Nodes(bytes)[j]) != rootId)
    && Shown(Choices(Nodes(bytes)[i])) == [TRANSFER_CHOICE]
    && ChosenValues(Nodes(bytes)[i]) == [chosen]
    && ExtractTransfer(chosen) == Ok(t)
  }

  lemma RootPosition(d: DecodedPrepared, ex: DecodedExercise, rootId: Bytes) returns (i: nat)
    requires RootIs(d, ex, rootId)
    ensures i < |d.nodes| && d.nodes[i].nodeId == rootId && d.nodes[i].exercise == Some(ex)
  {
    var n :| n in d.nodes && n.nodeId == rootId && IsExercise(n) && n.exercise.value == ex;
    i :| 0 <= i < |d.nodes| && d.nodes[i] == n;
  }

  lemma RootShown(bytes: Bytes, d: DecodedPrepared, i: nat, ex: DecodedExercise, rootId: Bytes, t: Transfer)
    requires |Nodes(bytes)| == |d.nodes| && forall j | 0 <= j < |d.nodes| :: ShowsAll(d.nodes[j], Nodes(bytes)[j])
    requires i < |d.nodes| && d.nodes[i].nodeId == rootId && d.nodes[i].exercise == Some(ex) && DistinctIds(d.nodes)
    requires Shown(RootIds(bytes)) == [rootId] && ex.choiceId == TRANSFER_CHOICE
    requires ExtractTransfer(ex.chosenValue) == Ok(t)
    ensures RootWritten(bytes, i, rootId, ex.chosenValue, t)
  {
    assert ShowsAll(d.nodes[i], Nodes(bytes)[i]);
    forall j | 0 <= j < |d.nodes| && j != i
      ensures NodeId(Nodes(bytes)[j]) != rootId
    {
      assert ShowsAll(d.nodes[j], Nodes(bytes)[j]) && d.nodes[j].nodeId != d.nodes[i].nodeId;
    }
  }

  lemma RootIsWritten(bytes: Bytes, d: DecodedPrepared, ex: DecodedExercise, rootId: Bytes, t: Transfer,
                      rules: seq<Rule>)
    returns (i: nat)
    requires PreparedOf(bytes) == Ok(d) && RootIs(d, ex, rootId) && ExtractTransfer(ex.chosenValue) == Ok(t)
    requires SoleAllowedTree(d, TRANSFER_CHOICE, rules)
    ensures RootWritten(bytes, i, rootId, ex.chosenValue, t)
  {
    PreparedIsLoose(bytes);
    NodesAreLoose(bytes, d);
    RootChoice(d, ex, rootId, rules);
    i := RootPosition(d, ex, rootId);
    RootShown(bytes, d, i, ex, rootId, t);
  }

  /** Whatever bytes are accepted, they hold one root, which is the intended transfer; the command
      acts as the sender alone; and in every node and every input contract, every party written in
      any value, party list or contract key, under any occurrence of any member at any depth, is by
      its text, that is without a byte-order mark in front, the sender, the receiver, the admin (at
      most twice in the root argument, elsewhere only when pinned), a trusted registry party or one
      of the pinned admin's namespace, the matched preapproval provider in metadata or the templates
      that must name it, or sits in the pinned registrar's own signed configuration. */
  lemma AcceptedPartiesExplained(bytes: Bytes, e: Expectation)
    returns (root: nat, rootId: Bytes, chosen: Bytes, t: Transfer, provider: Option<Bytes>)
    requires Accepted(bytes, e)
    ensures RootWritten(bytes, root, rootId, chosen, t) && TermsMatch(t, e)
    ensures MatchProvider(PreparedOf(bytes).value, e.receiver, t.instrument.admin) == Ok(provider)
    ensures Submitters(bytes) != [] && forall p <- Submitters(bytes) :: StripBom(p) == e.sender
    ensures forall node <- Nodes(bytes) :: NodeExplained(KnownParties(t, e, provider), node, rootId)
    ensures forall input <- Inputs(bytes) :: InputExplained(KnownParties(t, e, provider), input)
  {
    var d, ex;
    d, ex, rootId, t, provider := AcceptedHasReasons(bytes, e);
    chosen := ex.chosenValue;
    root := RootIsWritten(bytes, d, ex, rootId, t, Consequences(e));
    PreparedIsLoose(bytes);
    ShownHas(Submitters(bytes));
    SplitCovers(bytes, d, rootId);
    var k, s := KnownParties(t, e, provider), CollectSplitPartyLeaves(d, rootId).value;
    NodesExplained(bytes, d, k, s, rootId);
    InputsExplained(Inputs(bytes), ContractsOf(Inputs(bytes)).value, k, s);
  }

  // ------------------------------------------------------------- the ids themselves

  /** No party id in a list begins with a byte-order mark. */
  predicate Unmarked(parties: seq<Bytes>) {
    forall p <- parties :: !HasBom(p)
  }

  /** Where no id begins with a byte-order mark, it is the ids as written that are accounted for:
      the texts judged are those ids exactly then. */
  lemma UnmarkedIdsExplained(k: Known, node: Bytes, rootId: Bytes)
    requires NodeExplained(k, node, rootId)
    ensures Unmarked(ListedParties(node)) <==> Shown(ListedParties(node)) == ListedParties(node)
    ensures Unmarked(ListedParties(node)) ==> forall p <- ListedParties(node) :: ExplainedInMetadata(k, p)
    ensures forall v <- Payloads(node, rootId) | Unmarked(Parties(v)) ::
              forall p <- Parties(v) :: ExplainedInPayload(k, CreatedTemplate(node), p)
    ensures NodeId(node) == rootId ==>
              forall v <- ChosenValues(node) | Unmarked(Parties(v)) :: RootExplained(k, Parties(v))
  {
    ShownIsExact(ListedParties(node));
    forall v | v in Payloads(node, rootId) && Unmarked(Parties(v))
      ensures forall p <- Parties(v) :: ExplainedInPayload(k, CreatedTemplate(node), p)
    {
      assert ValueExplained(k, CreatedTemplate(node), v);
    }
    forall v | NodeId(node) == rootId && v in ChosenValues(node) && Unmarked(Parties(v))
      ensures RootExplained(k, Parties(v))
    {
      ShownIsExact(Parties(v));
    }
  }

  lemma UnmarkedInputsExplained(k: Known, input: Bytes)
    requires InputExplained(k, input)
    ensures Unmarked(InputParties(input)) ==> forall p <- InputParties(input) :: ExplainedInMetadata(k, p)
    ensures forall v <- InputArguments(input) | Unmarked(Parties(v)) ::
              || (forall p <- Parties(v) :: ExplainedInPayload(k, InputTemplate(input), p))
              || RegistrarConfiguration(k, Bucket(InputTemplate(input), Parties(v), Shown(InputSignatories(input))))
  {
    forall v | v in InputArguments(input) && Unmarked(Parties(v))
      ensures || (forall p <- Parties(v) :: ExplainedInPayload(k, InputTemplate(input), p))
              || RegistrarConfiguration(k, Bucket(InputTemplate(input), Parties(v), Shown(InputSignatories(input))))
    {
      ShownIsExact(Parties(v));
    }
  }

  // ----------------------------------------------------------------------- the terms

  /** The intended terms, written once each at the positions the ledger binds. */
  ghost predicate TermsIntended(transfer: Bytes, t: Transfer, e: Expectation) {
    && Writes(At(transfer, 0), V_PARTY, e.sender)
    && Writes(At(transfer, 1), V_PARTY, e.receiver)
    && Writes(At(transfer, 2), V_NUMERIC, t.amount)
    && (Amount.Parse(Text.Trim(e.amount), true).Some? ==>
          && Amount.Parse(Text.Trim(t.amount), true).Some?
          && Amount.SameValue(Amount.Parse(Text.Trim(e.amount), true).value,
                              Amount.Parse(Text.Trim(t.amount), true).value))
    && Writes(At(At(transfer, 3), 0), V_PARTY, t.instrument.admin)
    && (e.instrumentAdmin.Some? ==> t.instrument.admin == e.instrumentAdmin.value)
    && Writes(At(At(transfer, 3), 1), V_TEXT, e.instrumentId)
    && NoDuplicates(Shown(ListedCids(At(transfer, 6))))
    && (e.requireInputHoldings ==> ListedCids(At(transfer, 6)) != [])
    && (e.memo.Some? ==> Shown(Memos(At(transfer, 7))) == [e.memo.value])
  }

  /** Whatever bytes are accepted, labelled wholly, partly or not at all, the intended parties,
      instrument, memo, holdings and, by value, amount are what stands at the declared positions of
      the root's transfer, each written once. */
  lemma AcceptedTermsAreIntended(bytes: Bytes, e: Expectation)
    returns (root: nat, rootId: Bytes, chosen: Bytes, t: Transfer)
    requires Accepted(bytes, e)
    ensures RootWritten(bytes, root, rootId, chosen, t)
    ensures WrittenOnce(chosen, 1) && TermsWritten(At(chosen, 1), t) && TermsIntended(At(chosen, 1), t, e)
  {
    var provider;
    root, rootId, chosen, t, provider := AcceptedPartiesExplained(bytes, e);
    ExtractIsLoose(chosen);
    if Amount.Parse(Text.Trim(e.amount), true).Some? {
      Amount.CanonicalEqualMeansSameValue(e.amount, t.amount);
    }
  }
}
