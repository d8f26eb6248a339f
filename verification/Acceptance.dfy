/** Accepting a prepared transfer: the bytes encode exactly the intended transfer and
    nothing else. */
module Acceptance {
  import opened Results
  import opened Wire
  import opened DamlValue
  import opened Decoded
  import opened PreparedDecoder
  import opened NodeGraph
  import opened TransferRecord
  import opened PartyRule
  import opened Text
  import Amount

  datatype Expectation = Expectation(
    sender: Bytes,
    receiver: Bytes,
    amount: Bytes,
    instrumentId: Bytes,
    instrumentAdmin: Option<Bytes>,
    requireInputHoldings: bool,
    memo: Option<Bytes>,
    synchronizerId: Option<Bytes>,
    template: Option<Bytes>,
    contractId: Option<Bytes>,
    trustedRegistryParties: set<Bytes>,
    allowRegistryOffer: bool,
    nowMs: int)

  const TRANSFER_CHOICE: Bytes := Ascii("TransferFactory_Transfer")
  const INTERNAL_TRANSFER: Bytes := Ascii("AllocationFactory_TransferInternal")
  const HOLDING_TEMPLATE: Bytes := Ascii("Utility.Registry.Holding.V0.Holding:Holding")
  const OFFER_TEMPLATE: Bytes := Ascii("Utility.Registry.App.V0.Model.Transfer:TransferOffer")

  const TRANSFER_CONSEQUENCES: seq<Rule> := [
    AnyTemplate(Ascii("Archive")),
    AnyTemplate(Ascii("TransferPreapproval_Send")),
    AnyTemplate(Ascii("TransferPreapproval_SendV2")),
    Pinned(Ascii("EventLog_HoldingsChange"), [
             Ascii("Splice.ExternalPartyConfigState:ExternalPartyConfigState"),
             Ascii("Splice.AmuletEventLog:AmuletEventLog"),
             HOLDING_TEMPLATE]),
    Pinned(Ascii("TransferRule_DirectTransfer"), [Ascii("Utility.Registry.V0.Rule.Transfer:TransferRule")])]

  const SELF_TRANSFER_CONSEQUENCES: seq<Rule> := TRANSFER_CONSEQUENCES + [
    Pinned(INTERNAL_TRANSFER, [Ascii("Utility.Registry.App.V0.Service.AllocationFactory:AllocationFactory")])]

  predicate SelfIntent(e: Expectation) {
    e.sender == e.receiver
  }

  predicate OfferIntent(e: Expectation) {
    e.allowRegistryOffer && !SelfIntent(e)
  }

  function Consequences(e: Expectation): seq<Rule> {
    if SelfIntent(e) || OfferIntent(e) then SELF_TRANSFER_CONSEQUENCES else TRANSFER_CONSEQUENCES
  }

  // ------------------------------------------------------ registry-created holdings

  /** Once the registry's internal transfer runs, only the owner's holdings may be
      created, plus exactly one offer when the caller asked for that shape. */
  predicate CreatesPinned(nodes: seq<DecodedNode>, offer: bool) {
    && (forall n <- nodes | n.create.Some? ::
          n.create.value.template == Some(HOLDING_TEMPLATE)
          || (offer && n.create.value.template == Some(OFFER_TEMPLATE)))
    && (offer ==> OfferCount(nodes) == 1)
  }

  function OfferCount(nodes: seq<DecodedNode>): nat {
    if nodes == [] then 0
    else
      (if nodes[0].create.Some? && nodes[0].create.value.template == Some(OFFER_TEMPLATE) then 1 else 0)
      + OfferCount(nodes[1..])
  }

  /** A created holding names the sender or the receiver inside its argument. */
  predicate HoldingOwned(n: DecodedNode, e: Expectation) {
    n.create.Some? && n.create.value.template == Some(HOLDING_TEMPLATE) ==>
      && n.create.value.argument.Some?
      && Collect(n.create.value.argument.value, 0).Ok?
      && var leaves := Collect(n.create.value.argument.value, 0).value;
         e.sender in leaves || e.receiver in leaves
  }

  predicate RegistryCreatesSafe(d: DecodedPrepared, e: Expectation) {
    (exists ex <- Exercises(d.nodes) :: ex.choiceId == INTERNAL_TRANSFER) ==>
      CreatesPinned(d.nodes, OfferIntent(e)) && forall n <- d.nodes :: HoldingOwned(n, e)
  }

  // ---------------------------------------------------------- the matched provider

  datatype Preapproval = Preapproval(dso: Bytes, receiver: Bytes, provider: Bytes)

  /** A preapproval's three parties at their declared positions; nothing when the
      argument has not that shape, a refusal when its labels or leaves are ambiguous. */
  function PreapprovalOf(argument: Bytes): (r: Result<Option<Preapproval>>)
  {
    if RecordEntries(argument).Err? then Ok(None)
    else
      var es := RecordEntries(argument).value;
      var dsoE :- EntryByDeclOrder(es, 0, Ascii("dso"));
      var receiverE :- EntryByDeclOrder(es, 1, Ascii("receiver"));
      var providerE :- EntryByDeclOrder(es, 2, Ascii("provider"));
      if dsoE.None? || receiverE.None? || providerE.None? then Ok(None)
      else
        var dso :- LeafAt(es, 0, Ascii("dso"));
        var receiver :- LeafAt(es, 1, Ascii("receiver"));
        var provider :- LeafAt(es, 2, Ascii("provider"));
        match (dso, receiver, provider)
        case (Some(PartyLeaf(x)), Some(PartyLeaf(y)), Some(PartyLeaf(z))) => Ok(Some(Preapproval(x, y, z)))
        case _ => Ok(None)
  }

  /** Nor can labels and positions disagree on the parties of a preapproval that grants
      its provider a role. */
  lemma PreapprovalLabelsCannotDiverge(argument: Bytes)
    requires PreapprovalOf(argument).Ok? && PreapprovalOf(argument).value.Some?
    ensures RecordEntries(argument).Ok?
    ensures var es := RecordEntries(argument).value;
            && NoDivergence(es, 0, Ascii("dso"))
            && NoDivergence(es, 1, Ascii("receiver"))
            && NoDivergence(es, 2, Ascii("provider"))
  {
    var es := RecordEntries(argument).value;
    ReadPositionAgrees(es, 0, Ascii("dso"));
    ReadPositionAgrees(es, 1, Ascii("receiver"));
    ReadPositionAgrees(es, 2, Ascii("provider"));
  }

  function Preapprovals(ics: seq<InputContract>): seq<InputContract> {
    if ics == [] then []
    else (if ics[0].template == Some(PREAPPROVAL_TEMPLATE) then [ics[0]] else []) + Preapprovals(ics[1..])
  }

  predicate DeliversThrough(n: DecodedNode, cid: Bytes) {
    && n.exercise.Some?
    && n.exercise.value.choiceId in {Ascii("TransferPreapproval_Send"), Ascii("TransferPreapproval_SendV2")}
    && n.exercise.value.template == Some(PREAPPROVAL_TEMPLATE)
    && n.exercise.value.contractId == Some(cid)
  }

  predicate ExactSignatories(signatories: seq<Bytes>, pre: Preapproval) {
    var sigs := set s | s in signatories;
    |sigs| == 3 && {pre.dso, pre.receiver, pre.provider} <= sigs
  }

  predicate ProviderGranted(d: DecodedPrepared, ic: InputContract, pre: Preapproval, receiver: Bytes, admin: Bytes) {
    && pre.receiver == receiver && pre.dso == admin
    && ExactSignatories(ic.signatories, pre)
    && !(pre.provider == pre.receiver && pre.provider == pre.dso)
    && ic.contractId.Some?
    && exists n <- d.nodes :: DeliversThrough(n, ic.contractId.value)
  }

  /** The provider of the one preapproval this very transfer delivers through. */
  function MatchProvider(d: DecodedPrepared, receiver: Bytes, admin: Bytes): (r: Result<Option<Bytes>>)
  {
    var candidates := Preapprovals(d.inputContracts);
    if |candidates| != 1 then Ok(None)
    else
      var ic := candidates[0];
      if ic.argument.None? || ic.contractId.None? then Ok(None)
      else
        var pre :- PreapprovalOf(ic.argument.value);
        if pre.None? then Ok(None)
        else if ProviderGranted(d, ic, pre.value, receiver, admin) then Ok(Some(pre.value.provider))
        else Ok(None)
  }

  // ------------------------------------------------------------- pins and metadata

  predicate PhysicalSuffix(s: Bytes) {
    exists k :: 0 < k < |s| - 1 && s[k] == 45 && AllDigits(s[..k]) && AllDigits(s[k + 1..])
  }

  predicate SynchronizerMatches(actual: Option<Bytes>, expected: Option<Bytes>) {
    expected.Some? ==>
      && actual.Some?
      && (|| actual.value == expected.value
          || (expected.value + [58, 58] <= actual.value && PhysicalSuffix(actual.value[|expected.value| + 2..])))
  }

  predicate PinMatches(actual: Option<Bytes>, expected: Option<Bytes>) {
    expected.Some? ==> actual == expected
  }

  const TIMING_SKEW_MS: int := 86_400_000

  predicate TimingPlausible(d: DecodedPrepared, now: int) {
    && (d.preparationTime.Some? ==>
          now - TIMING_SKEW_MS <= d.preparationTime.value / 1000 <= now + TIMING_SKEW_MS)
    && (d.maxRecordTime.Some? ==> d.maxRecordTime.value / 1000 > now)
    && (d.maxLedgerEffectiveTime.Some? ==> d.maxLedgerEffectiveTime.value / 1000 > now)
    && (d.minLedgerEffectiveTime.Some? ==> d.minLedgerEffectiveTime.value / 1000 <= now + TIMING_SKEW_MS)
  }

  predicate ActsAsOnly(actAs: seq<Bytes>, sender: Bytes) {
    actAs != [] && forall p <- actAs :: p == sender
  }

  predicate NoDuplicates(s: seq<Bytes>) {
    forall i, j :: 0 <= i < j < |s| ==> s[i] != s[j]
  }

  predicate TermsMatch(t: Transfer, e: Expectation) {
    && t.sender == e.sender
    && t.receiver == e.receiver
    && Amount.CanonicalAmount(t.amount) == Amount.CanonicalAmount(e.amount)
    && t.instrument.id == e.instrumentId
    && (e.instrumentAdmin.Some? ==> t.instrument.admin == e.instrumentAdmin.value)
    && t.instrument.admin != e.sender && t.instrument.admin != e.receiver
    && (e.requireInputHoldings ==> t.inputHoldingCids != [])
    && NoDuplicates(t.inputHoldingCids)
    && (e.memo.Some? ==> t.memo == e.memo)
  }

  function KnownParties(t: Transfer, e: Expectation, provider: Option<Bytes>): Known {
    Known({e.sender, e.receiver}, Some(t.instrument.admin), 2, e.instrumentAdmin.Some?, provider,
          e.trustedRegistryParties)
  }

  /** The checks on a decoded transaction once its root exercise is known. */
  predicate TransferSafe(d: DecodedPrepared, ex: DecodedExercise, rootId: Bytes, e: Expectation) {
    && ExtractTransfer(ex.chosenValue).Ok?
    && var t := ExtractTransfer(ex.chosenValue).value;
       && RegistryCreatesSafe(d, e)
       && TermsMatch(t, e)
       && PinMatches(ex.template, e.template)
       && PinMatches(ex.contractId, e.contractId)
       && SynchronizerMatches(d.synchronizerId, e.synchronizerId)
       && TimingPlausible(d, e.nowMs)
       && ActsAsOnly(d.actAs, e.sender)
       && CollectSplitPartyLeaves(d, rootId).Ok?
       && MatchProvider(d, e.receiver, t.instrument.admin).Ok?
       && AllExplained(KnownParties(t, e, MatchProvider(d, e.receiver, t.instrument.admin).value),
                       CollectSplitPartyLeaves(d, rootId).value)
  }

  ghost predicate Accepted(bytes: Bytes, e: Expectation) {
    && PreparedOf(bytes).Ok?
    && var d := PreparedOf(bytes).value;
       && SoleAllowedTree(d, TRANSFER_CHOICE, Consequences(e))
       && exists ex, rootId :: RootIs(d, ex, rootId) && TransferSafe(d, ex, rootId, e)
  }

  /** The whole check: refuses unless the bytes decode to the one intended transfer. */
  method AssertPreparedTransferMatches(bytes: Bytes, e: Expectation) returns (r: Result<()>)
    ensures r.Ok? <==> Accepted(bytes, e)
  {
    var d :- DecodePrepared(bytes);
    var root :- AssertSingleAllowedRootExercise(d, TRANSFER_CHOICE, Consequences(e));
    var safe :- AssertTransferSafe(d, root.0, root.1, e);
    ghost var ex, rootId := root.0, root.1;
    assert RootIs(d, ex, rootId) && TransferSafe(d, ex, rootId, e);
    r := Ok(());
  }

  method AssertTransferSafe(d: DecodedPrepared, ex: DecodedExercise, rootId: Bytes, e: Expectation)
    returns (r: Result<()>)
    ensures r.Ok? <==> TransferSafe(d, ex, rootId, e)
  {
    var t :- ExtractTransfer(ex.chosenValue);
    if !RegistryCreatesSafe(d, e) || !TermsMatch(t, e) || !PinMatches(ex.template, e.template)
       || !PinMatches(ex.contractId, e.contractId) || !SynchronizerMatches(d.synchronizerId, e.synchronizerId)
       || !TimingPlausible(d, e.nowMs) || !ActsAsOnly(d.actAs, e.sender)
    {
      return Err;
    }
    var leaves :- CollectSplitPartyLeaves(d, rootId);
    var provider :- MatchProvider(d, e.receiver, t.instrument.admin);
    r := AssertNoForeignParties(KnownParties(t, e, provider), leaves);
  }
}
