/** Which party may appear where in an accepted transaction. */
module PartyRule {
  import opened Results
  import opened Wire
  import opened DamlValue
  import opened Decoded
  import opened Text

  const PREAPPROVAL_TEMPLATE: Bytes := Ascii("Splice.AmuletRules:TransferPreapproval")
  const FEATURED_APP_RIGHT_TEMPLATE: Bytes := Ascii("Splice.Amulet:FeaturedAppRight")
  const FEATURED_APP_MARKER_TEMPLATE: Bytes := Ascii("Splice.Amulet:FeaturedAppActivityMarker")
  const INSTRUMENT_CONFIGURATION_TEMPLATE: Bytes :=
    Ascii("Utility.Registry.V0.Configuration.Instrument:InstrumentConfiguration")

  const COLON: Byte := 58

  // ------------------------------------------------------------------- namespaces

  /** Where the last `::` of `s` starts; `|s|` when there is none. */
  function LastSeparator(s: Bytes): (k: nat)
    ensures k <= |s|
    ensures k < |s| ==> k + 1 < |s| && s[k] == COLON && s[k + 1] == COLON
    ensures forall i | 0 <= i < |s| - 1 && s[i] == COLON && s[i + 1] == COLON :: k < |s| && i <= k
  {
    if |s| < 2 then |s|
    else if s[|s| - 2] == COLON && s[|s| - 1] == COLON then |s| - 2
    else
      var k := LastSeparator(s[..|s| - 1]);
      if k == |s| - 1 then |s| else k
  }

  function PartyNamespace(party: Bytes): Option<Bytes> {
    var k := LastSeparator(party);
    if k == |party| || k + 2 == |party| then None else Some(party[k + 2..])
  }

  predicate NoSeparator(s: Bytes) {
    forall i :: 0 <= i < |s| - 1 ==> !(s[i] == COLON && s[i + 1] == COLON)
  }

  /** A namespace is what follows a `::` after which there is no other. */
  lemma NamespaceIsLastSegment(party: Bytes, ns: Bytes)
    ensures PartyNamespace(party) == Some(ns)
            <==> ns != [] && exists k :: 0 <= k <= |party| - 2 && SegmentAfter(party, k, ns)
  {
    if PartyNamespace(party) == Some(ns) {
      assert SegmentAfter(party, LastSeparator(party), ns);
    }
    if k :| 0 <= k <= |party| - 2 && SegmentAfter(party, k, ns) {
      LaterSeparator(party, k);
    }
  }

  lemma LaterSeparator(party: Bytes, k: nat)
    requires k <= |party| - 2
    ensures k < LastSeparator(party) < |party| ==> !NoSeparator(party[k + 1..])
  {
    var last := LastSeparator(party);
    if k < last < |party| {
      assert party[k + 1..][last - (k + 1)] == COLON && party[k + 1..][last - k] == COLON;
    }
  }

  /** `ns` is all that follows the separator at `k`, which no later one overlaps. */
  predicate SegmentAfter(party: Bytes, k: nat, ns: Bytes)
    requires k <= |party| - 2
  {
    party[k] == COLON && party[k + 1] == COLON && party[k + 2..] == ns && NoSeparator(party[k + 1..])
  }

  // --------------------------------------------------------------- party leaves

  /** Party leaves of one value payload, with the template of what carries it and,
      for an input contract, its signatories. */
  datatype Bucket = Bucket(template: Option<Bytes>, parties: seq<Bytes>, signatories: seq<Bytes>)

  datatype SplitLeaves = SplitLeaves(
    rootArg: seq<Bytes>, elsewhere: seq<Bytes>, nodeValues: seq<Bucket>, inputArgs: seq<Bucket>)

  /** What the rule knows: the money parties, the instrument admin and whether it was
      pinned, the matched preapproval provider, the trusted registry parties. */
  datatype Known = Known(
    allowed: set<Bytes>,
    admin: Option<Bytes>,
    rootMax: nat,
    adminTrusted: bool,
    provider: Option<Bytes>,
    registry: set<Bytes>)

  function ValueBuckets(template: Option<Bytes>, values: seq<Bytes>): (r: Result<seq<Bucket>>)
  {
    if values == [] then Ok([])
    else
      var parties :- Collect(values[0], 0);
      var others :- ValueBuckets(template, values[1..]);
      Ok((if parties != [] then [Bucket(template, parties, [])] else []) + others)
  }

  predicate IsRootExercise(n: DecodedNode, rootId: Bytes) {
    n.nodeId == rootId && n.exercise.Some?
  }

  /** A node's value payloads other than the root's chosen value, which comes first. */
  function OtherValues(n: DecodedNode, rootId: Bytes): seq<Bytes> {
    if IsRootExercise(n, rootId) && n.values != [] then n.values[1..] else n.values
  }

  function NodeTemplate(n: DecodedNode): Option<Bytes> {
    if n.create.Some? then n.create.value.template else None
  }

  function SplitNodes(nodes: seq<DecodedNode>, rootId: Bytes): (r: Result<SplitLeaves>)
  {
    if nodes == [] then Ok(SplitLeaves([], [], [], []))
    else
      var n := nodes[0];
      var root :- if IsRootExercise(n, rootId) then Collect(n.exercise.value.chosenValue, 0) else Ok([]);
      var buckets :- ValueBuckets(NodeTemplate(n), OtherValues(n, rootId));
      var rest :- SplitNodes(nodes[1..], rootId);
      Ok(SplitLeaves(root + rest.rootArg, n.partyMeta + rest.elsewhere, buckets + rest.nodeValues, []))
  }

  function InputBuckets(ics: seq<InputContract>): (r: Result<seq<Bucket>>)
  {
    if ics == [] then Ok([])
    else if ics[0].argument.None? then InputBuckets(ics[1..])
    else
      var parties :- Collect(ics[0].argument.value, 0);
      var others :- InputBuckets(ics[1..]);
      Ok((if parties != [] then [Bucket(ics[0].template, parties, ics[0].signatories)] else []) + others)
  }

  function CollectSplitPartyLeaves(d: DecodedPrepared, rootId: Bytes): (r: Result<SplitLeaves>)
  {
    var nodes :- SplitNodes(d.nodes, rootId);
    var inputs :- InputBuckets(d.inputContracts);
    Ok(nodes.(elsewhere := nodes.elsewhere + d.inputContractPartyMeta, inputArgs := inputs))
  }

  // -------------------------------------------------------------- who is explained

  predicate TrustedEverywhere(k: Known, p: Bytes) {
    || p in k.allowed
    || (k.adminTrusted && k.admin == Some(p))
    || p in k.registry
    || (k.adminTrusted && k.admin.Some? && PartyNamespace(k.admin.value).Some?
        && PartyNamespace(p) == PartyNamespace(k.admin.value))
  }

  predicate ExplainedInMetadata(k: Known, p: Bytes) {
    TrustedEverywhere(k, p) || k.provider == Some(p)
  }

  predicate ProviderTemplate(template: Option<Bytes>) {
    template.Some?
    && template.value in {PREAPPROVAL_TEMPLATE, FEATURED_APP_RIGHT_TEMPLATE, FEATURED_APP_MARKER_TEMPLATE}
  }

  predicate ExplainedInPayload(k: Known, template: Option<Bytes>, p: Bytes) {
    TrustedEverywhere(k, p) || (k.provider == Some(p) && ProviderTemplate(template))
  }

  predicate RegistrarConfiguration(k: Known, b: Bucket) {
    && k.adminTrusted && k.admin.Some?
    && b.template == Some(INSTRUMENT_CONFIGURATION_TEMPLATE)
    && k.admin.value in b.signatories
  }

  /** In the root argument only money parties may appear, and the admin, who is not
      one of them, at most `rootMax` times. */
  predicate RootExplained(k: Known, rootArg: seq<Bytes>) {
    && (forall p <- rootArg :: p in k.allowed || k.admin == Some(p))
    && (k.admin.Some? && k.admin.value !in k.allowed ==> multiset(rootArg)[k.admin.value] <= k.rootMax)
  }

  predicate NodeBucketExplained(k: Known, b: Bucket) {
    forall p <- b.parties :: ExplainedInPayload(k, b.template, p)
  }

  predicate InputBucketExplained(k: Known, b: Bucket) {
    RegistrarConfiguration(k, b) || NodeBucketExplained(k, b)
  }

  /** Every party occurrence of the whole signed message is accounted for. */
  predicate AllExplained(k: Known, s: SplitLeaves) {
    && RootExplained(k, s.rootArg)
    && (forall p <- s.elsewhere :: ExplainedInMetadata(k, p))
    && (forall b <- s.nodeValues :: NodeBucketExplained(k, b))
    && (forall b <- s.inputArgs :: InputBucketExplained(k, b))
  }

  // ------------------------------------------------------------------ the check

  /** The root argument spends a budget of admin occurrences. */
  method CheckRoot(k: Known, rootArg: seq<Bytes>) returns (ok: bool)
    ensures ok <==> RootExplained(k, rootArg)
  {
    ok := true;
    var budget: nat := if k.admin.Some? then k.rootMax else 0;
    for i := 0 to |rootArg|
      invariant ok <==> RootExplained(k, rootArg[..i])
      invariant ok && k.admin.Some? && k.admin.value !in k.allowed ==>
                  budget + multiset(rootArg[..i])[k.admin.value] == k.rootMax
    {
      var p := rootArg[i];
      assert rootArg[..i + 1] == rootArg[..i] + [p];
      if p !in k.allowed {
        if k.admin == Some(p) && budget > 0 {
          budget := budget - 1;
        } else {
          ok := false;
        }
      }
    }
    assert rootArg[..|rootArg|] == rootArg;
  }

  method CheckBucket(k: Known, b: Bucket) returns (ok: bool)
    ensures ok <==> NodeBucketExplained(k, b)
  {
    ok := true;
    for i := 0 to |b.parties|
      invariant ok <==> forall p <- b.parties[..i] :: ExplainedInPayload(k, b.template, p)
    {
      assert b.parties[..i + 1] == b.parties[..i] + [b.parties[i]];
      if !ExplainedInPayload(k, b.template, b.parties[i]) {
        ok := false;
      }
    }
    assert b.parties[..|b.parties|] == b.parties;
  }

  method CheckBuckets(k: Known, bs: seq<Bucket>, input: bool) returns (ok: bool)
    ensures ok <==> forall b <- bs :: if input then InputBucketExplained(k, b) else NodeBucketExplained(k, b)
  {
    ok := true;
    for i := 0 to |bs|
      invariant ok <==> forall b <- bs[..i] ::
                          if input then InputBucketExplained(k, b) else NodeBucketExplained(k, b)
    {
      assert bs[..i + 1] == bs[..i] + [bs[i]];
      var fine := CheckBucket(k, bs[i]);
      if !fine && !(input && RegistrarConfiguration(k, bs[i])) {
        ok := false;
      }
    }
    assert bs[..|bs|] == bs;
  }

  method AssertNoForeignParties(k: Known, s: SplitLeaves) returns (r: Result<()>)
    ensures r == if AllExplained(k, s) then Ok(()) else Err
  {
    var root := CheckRoot(k, s.rootArg);
    var meta := forall p <- s.elsewhere :: ExplainedInMetadata(k, p);
    var nodes := CheckBuckets(k, s.nodeValues, false);
    var inputs := CheckBuckets(k, s.inputArgs, true);
    r := if root && meta && nodes && inputs then Ok(()) else Err;
  }

  // --------------------------------------------------------- order does not matter

  predicate SameBuckets(a: seq<Bucket>, b: seq<Bucket>) {
    && |a| == |b|
    && forall i :: 0 <= i < |a| ==>
         a[i].template == b[i].template && a[i].signatories == b[i].signatories
         && multiset(a[i].parties) == multiset(b[i].parties)
  }

  lemma SameMembers(a: seq<Bytes>, b: seq<Bytes>)
    requires multiset(a) == multiset(b)
    ensures forall p :: p in a <==> p in b
  {
    forall p
      ensures p in a <==> p in b
    {
      assert p in a <==> p in multiset(a);
      assert p in b <==> p in multiset(b);
    }
  }

  lemma BucketOrderIrrelevant(k: Known, a: Bucket, b: Bucket)
    requires a.template == b.template && a.signatories == b.signatories
    requires multiset(a.parties) == multiset(b.parties)
    ensures NodeBucketExplained(k, a) == NodeBucketExplained(k, b)
    ensures InputBucketExplained(k, a) == InputBucketExplained(k, b)
  {
    SameMembers(a.parties, b.parties);
  }

  lemma BucketsOrderIrrelevant(k: Known, a: seq<Bucket>, b: seq<Bucket>)
    requires SameBuckets(a, b)
    ensures (forall x <- a :: NodeBucketExplained(k, x)) <==> (forall x <- b :: NodeBucketExplained(k, x))
    ensures (forall x <- a :: InputBucketExplained(k, x)) <==> (forall x <- b :: InputBucketExplained(k, x))
  {
    forall i | 0 <= i < |a|
      ensures NodeBucketExplained(k, a[i]) == NodeBucketExplained(k, b[i])
      ensures InputBucketExplained(k, a[i]) == InputBucketExplained(k, b[i])
    {
      BucketOrderIrrelevant(k, a[i], b[i]);
    }
  }

  /** The verdict does not depend on the order of parties within any bucket. */
  lemma OrderIrrelevant(k: Known, a: SplitLeaves, b: SplitLeaves)
    requires multiset(a.rootArg) == multiset(b.rootArg) && multiset(a.elsewhere) == multiset(b.elsewhere)
    requires SameBuckets(a.nodeValues, b.nodeValues) && SameBuckets(a.inputArgs, b.inputArgs)
    ensures AllExplained(k, a) == AllExplained(k, b)
  {
    SameMembers(a.rootArg, b.rootArg);
    SameMembers(a.elsewhere, b.elsewhere);
    BucketsOrderIrrelevant(k, a.nodeValues, b.nodeValues);
    BucketsOrderIrrelevant(k, a.inputArgs, b.inputArgs);
  }

  // --------------------------------------------------------- nothing is left out

  /** Every party leaf of `value` sits in a bucket under `template`. */
  ghost predicate CoveredBy(buckets: seq<Bucket>, template: Option<Bytes>, signatories: seq<Bytes>, value: Bytes) {
    && Collect(value, 0).Ok?
    && (Collect(value, 0).value != [] ==> Bucket(template, Collect(value, 0).value, signatories) in buckets)
  }

  lemma {:induction false} ValuesCovered(template: Option<Bytes>, values: seq<Bytes>)
    requires ValueBuckets(template, values).Ok?
    ensures forall v <- values :: CoveredBy(ValueBuckets(template, values).value, template, [], v)
  {
    if values != [] {
      ValuesCovered(template, values[1..]);
      assert forall v <- values :: v == values[0] || v in values[1..];
    }
  }

  /** Where a node's parties end up: its metadata, its other values, and for the root
      its chosen value. */
  ghost predicate NodeCovered(s: SplitLeaves, n: DecodedNode, rootId: Bytes) {
    && (forall p <- n.partyMeta :: p in s.elsewhere)
    && (forall v <- OtherValues(n, rootId) :: CoveredBy(s.nodeValues, NodeTemplate(n), [], v))
    && (IsRootExercise(n, rootId) ==>
          && Collect(n.exercise.value.chosenValue, 0).Ok?
          && multiset(Collect(n.exercise.value.chosenValue, 0).value) <= multiset(s.rootArg))
  }

  lemma {:induction false} NodesCovered(nodes: seq<DecodedNode>, rootId: Bytes)
    requires SplitNodes(nodes, rootId).Ok?
    ensures forall n <- nodes :: NodeCovered(SplitNodes(nodes, rootId).value, n, rootId)
  {
    if nodes != [] {
      var n, s, rest := nodes[0], SplitNodes(nodes, rootId).value, SplitNodes(nodes[1..], rootId).value;
      NodesCovered(nodes[1..], rootId);
      ValuesCovered(NodeTemplate(n), OtherValues(n, rootId));
      forall m | m in nodes[1..]
        ensures NodeCovered(s, m, rootId)
      {
        CoverageGrows(s, rest, m, rootId);
      }
      assert forall m <- nodes :: m == n || m in nodes[1..];
    }
  }

  lemma CoverageGrows(s: SplitLeaves, rest: SplitLeaves, n: DecodedNode, rootId: Bytes)
    requires NodeCovered(rest, n, rootId)
    requires forall p <- rest.elsewhere :: p in s.elsewhere
    requires forall b <- rest.nodeValues :: b in s.nodeValues
    requires multiset(rest.rootArg) <= multiset(s.rootArg)
    ensures NodeCovered(s, n, rootId)
  {
  }

  lemma {:induction false} InputsCovered(ics: seq<InputContract>)
    requires InputBuckets(ics).Ok?
    ensures forall ic <- ics | ic.argument.Some? ::
              CoveredBy(InputBuckets(ics).value, ic.template, ic.signatories, ic.argument.value)
  {
    if ics != [] {
      InputsCovered(ics[1..]);
      assert forall ic <- ics :: ic == ics[0] || ic in ics[1..];
    }
  }
}
