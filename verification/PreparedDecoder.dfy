/** Decoding a PreparedTransaction: every node of the transaction and every
    authenticated input contract, nothing skipped. */
module PreparedDecoder {
  import opened Results
  import opened Wire
  import opened DamlValue
  import opened Decoded

  const MAX_NODES: nat := 256
  const MAX_ROOTS: nat := 16

  const COLON: Byte := 58

  // ---------------------------------------------------------------------- text

  function Strings(raw: seq<Bytes>): (r: Result<seq<Bytes>>)
    ensures r.Ok? ==> |r.value| == |raw|
  {
    if raw == [] then Ok([])
    else
      var first :- Utf8(raw[0]);
      var others :- Strings(raw[1..]);
      Ok([first] + others)
  }

  function StringFields(fs: seq<WireField>, field: nat): (r: Result<seq<Bytes>>)
  {
    Strings(LenFields(fs, field))
  }

  function OptText(raw: Option<Bytes>): (r: Result<Option<Bytes>>)
  {
    if raw.None? then Ok(None)
    else
      var t :- Utf8(raw.value);
      Ok(Some(t))
  }

  /** An optional text field that must not repeat. */
  function OptTextField(fs: seq<WireField>, field: nat): (r: Result<Option<Bytes>>)
  {
    var raw :- LenUnique(fs, field);
    OptText(raw)
  }

  /** The pieces of `s` between colons; one more piece than there are colons. */
  function SplitAtColons(s: Bytes): (parts: seq<Bytes>)
    ensures |parts| >= 1
  {
    if s == [] then [[]]
    else
      var rest := SplitAtColons(s[1..]);
      if s[0] == COLON then [[]] + rest else [[s[0]] + rest[0]] + rest[1..]
  }

  /** `module:entity` of a template id. A structured identifier gives its two names;
      anything else is read as one flat colon-separated string. */
  function QualifiedName(id: Bytes): (r: Result<Option<Bytes>>)
  {
    var fs := Message(id);
    var moduleName := if fs.Ok? then LenUnique(fs.value, 2) else Err;
    var entityName := if fs.Ok? then LenUnique(fs.value, 3) else Err;
    if moduleName.Ok? && entityName.Ok? && moduleName.value.Some? && entityName.value.Some? then
      var m :- Utf8(moduleName.value.value);
      var e :- Utf8(entityName.value.value);
      Ok(Some(m + [COLON] + e))
    else if fs.Ok? && moduleName.Ok? && entityName.Ok? && (exists f <- fs.value :: f.field == 1) then Ok(None)
    else Ok(FlatName(id))
  }

  function FlatName(id: Bytes): Option<Bytes> {
    if Utf8(id).Err? then None
    else
      var flat := Utf8(id).value;
      if flat == [] || 0 in flat then None
      else
        var parts := SplitAtColons(flat);
        if |parts| >= 3 then Some(parts[|parts| - 2] + [COLON] + parts[|parts| - 1])
        else if |parts| == 2 then Some(flat)
        else None
  }

  function OptQualifiedName(id: Option<Bytes>): (r: Result<Option<Bytes>>)
  {
    if id.None? then Ok(None) else QualifiedName(id.value)
  }

  // ---------------------------------------------------------------------- nodes

  /** Parties of a contract key: its maintainers and every party inside the key. */
  function KeyParties(key: Option<Bytes>): (r: Result<seq<Bytes>>)
  {
    if key.None? then Ok([])
    else
      var fs :- Message(key.value);
      var maintainers :- StringFields(fs, 2);
      var globalKey :- LenUnique(fs, 1);
      if globalKey.None? then Ok(maintainers)
      else
        var inner :- Message(globalKey.value);
        var value :- LenUnique(inner, 3);
        if value.None? then Ok(maintainers)
        else
          var leaves :- Collect(value.value, 1);
          Ok(maintainers + leaves)
  }

  /** The party lists of a node under the given fields, in that order. */
  function PartyLists(fs: seq<WireField>, fields: seq<nat>): (r: Result<seq<Bytes>>)
  {
    if fields == [] then Ok([])
    else
      var first :- StringFields(fs, fields[0]);
      var others :- PartyLists(fs, fields[1..]);
      Ok(first + others)
  }

  function PartyMeta(fs: seq<WireField>, fields: seq<nat>, keyField: nat): (r: Result<seq<Bytes>>)
  {
    var lists :- PartyLists(fs, fields);
    var key :- LenUnique(fs, keyField);
    var fromKey :- KeyParties(key);
    Ok(lists + fromKey)
  }

  function OptList<T>(o: Option<T>): seq<T> {
    if o.Some? then [o.value] else []
  }

  datatype V1Node = V1Node(
    kind: Option<NodeKind>,
    exercise: Option<DecodedExercise>,
    create: Option<DecodedCreate>,
    children: seq<Bytes>,
    values: seq<Bytes>,
    partyMeta: seq<Bytes>)

  /** The exercise itself, when its choice and its chosen value are both there. */
  function ExerciseOf(fs: seq<WireField>): (r: Result<Option<DecodedExercise>>)
  {
    var choice :- LenUnique(fs, 9);
    var chosen :- LenUnique(fs, 10);
    var template :- LenUnique(fs, 4);
    var cid :- LenUnique(fs, 2);
    if choice.None? || chosen.None? then Ok(None)
    else
      var choiceId :- Utf8(choice.value);
      var contractId :- OptText(cid);
      var name :- OptQualifiedName(template);
      Ok(Some(DecodedExercise(choiceId, chosen.value, contractId, name)))
  }

  /** The values an exercise introduces, its chosen value first. */
  function ExerciseValues(fs: seq<WireField>): (r: Result<seq<Bytes>>)
  {
    var chosen :- LenUnique(fs, 10);
    var result :- LenUnique(fs, 13);
    Ok(OptList(chosen) + OptList(result))
  }

  function ExerciseNodeOf(body: Bytes): (r: Result<V1Node>)
  {
    var fs :- Message(body);
    var ex :- ExerciseOf(fs);
    var values :- ExerciseValues(fs);
    var children :- StringFields(fs, 12);
    var meta :- PartyMeta(fs, [5, 6, 7, 14], 15);
    Ok(V1Node(Some(ExerciseNode), ex, None, children, values, meta))
  }

  function CreateNodeOf(body: Bytes): (r: Result<V1Node>)
  {
    var fs :- Message(body);
    var arg :- LenUnique(fs, 5);
    var template :- LenUnique(fs, 4);
    var meta :- PartyMeta(fs, [6, 7], 8);
    var name :- OptQualifiedName(template);
    Ok(V1Node(Some(CreateNode), None, Some(DecodedCreate(name, arg)), [], OptList(arg), meta))
  }

  function RollbackNodeOf(body: Bytes): (r: Result<V1Node>)
  {
    var fs :- Message(body);
    var children :- StringFields(fs, 1);
    Ok(V1Node(Some(RollbackNode), None, None, children, [], []))
  }

  function FetchNodeOf(body: Bytes): (r: Result<V1Node>)
  {
    var fs :- Message(body);
    var meta :- PartyMeta(fs, [5, 6, 7], 9);
    Ok(V1Node(Some(FetchNode), None, None, [], [], meta))
  }

  function QueryNodeOf(body: Bytes): (r: Result<V1Node>)
  {
    var fs :- Message(body);
    var meta :- PartyMeta(fs, [], 5);
    Ok(V1Node(Some(QueryByKeyNode), None, None, [], [], meta))
  }

  /** The node type of a v1 node. No member, or more than one, leaves the kind
      unknown, which the graph check refuses. */
  function V1NodeOf(body: Bytes): (r: Result<V1Node>)
  {
    var fs :- Message(body);
    var create :- LenUnique(fs, 1);
    var fetch :- LenUnique(fs, 2);
    var exercise :- LenUnique(fs, 3);
    var rollback :- LenUnique(fs, 4);
    var query :- LenUnique(fs, 5);
    var present :=
      |OptList(create)| + |OptList(fetch)| + |OptList(exercise)| + |OptList(rollback)| + |OptList(query)|;
    if present != 1 then Ok(V1Node(None, None, None, [], [], []))
    else if exercise.Some? then ExerciseNodeOf(exercise.value)
    else if create.Some? then CreateNodeOf(create.value)
    else if rollback.Some? then RollbackNodeOf(rollback.value)
    else if fetch.Some? then FetchNodeOf(fetch.value)
    else QueryNodeOf(query.value)
  }

  /** One entry of the node list. A node under any version but v1, or carrying any
      extra length-delimited member, is recorded as unrecognized. */
  function NodeOf(body: Bytes): (r: Result<DecodedNode>)
  {
    var fs :- Message(body);
    var rawId :- LenUnique(fs, 1);
    var id :- OptText(rawId);
    var nodeId := if id.Some? then id.value else [];
    var v1 :- LenUnique(fs, 1000);
    if v1.None? || (exists f <- fs :: f.Len? && f.field != 1 && f.field != 1000) then
      Ok(DecodedNode(nodeId, false, None, None, None, [], [], []))
    else
      var n :- V1NodeOf(v1.value);
      Ok(DecodedNode(nodeId, true, n.kind, n.exercise, n.create, n.children, n.values, n.partyMeta))
  }

  function NodesOf(bodies: seq<Bytes>): (r: Result<seq<DecodedNode>>)
    ensures r.Ok? ==> |r.value| == |bodies|
  {
    if bodies == [] then Ok([])
    else
      var first :- NodeOf(bodies[0]);
      var others :- NodesOf(bodies[1..]);
      Ok([first] + others)
  }

  // -------------------------------------------------------------- input contracts

  /** An input contract and the parties named outside its argument. */
  datatype SeenContract = SeenContract(contract: InputContract, partyMeta: seq<Bytes>)

  function ContractIn(fs: seq<WireField>): (r: Result<InputContract>)
  {
    var arg :- LenUnique(fs, 5);
    var signatories :- StringFields(fs, 6);
    var stakeholders :- StringFields(fs, 7);
    var template :- LenUnique(fs, 4);
    var cid :- OptTextField(fs, 2);
    var name :- OptQualifiedName(template);
    Ok(InputContract(cid, name, arg, signatories, stakeholders))
  }

  function CreatedOf(v1: Bytes): (r: Result<SeenContract>)
  {
    var fs :- Message(v1);
    var contract :- ContractIn(fs);
    var meta :- PartyMeta(fs, [6, 7], 8);
    Ok(SeenContract(contract, meta))
  }

  function ContractOf(body: Bytes): (r: Result<SeenContract>)
  {
    var outer :- Message(body);
    var v1 :- LenUnique(outer, 1);
    if v1.None? then Err else CreatedOf(v1.value)
  }

  function ContractsOf(bodies: seq<Bytes>): (r: Result<seq<SeenContract>>)
    ensures r.Ok? ==> |r.value| == |bodies|
  {
    if bodies == [] then Ok([])
    else
      var first :- ContractOf(bodies[0]);
      var others :- ContractsOf(bodies[1..]);
      Ok([first] + others)
  }

  function ContractsSeen(cs: seq<SeenContract>): (r: seq<InputContract>)
    ensures |r| == |cs|
  {
    if cs == [] then [] else [cs[0].contract] + ContractsSeen(cs[1..])
  }

  function ContractParties(cs: seq<SeenContract>): seq<Bytes> {
    if cs == [] then [] else cs[0].partyMeta + ContractParties(cs[1..])
  }

  // --------------------------------------------------------------------- the whole

  datatype Metadata = Metadata(
    actAs: seq<Bytes>,
    synchronizerId: Option<Bytes>,
    preparationTime: Option<nat>,
    minLedgerEffectiveTime: Option<nat>,
    maxLedgerEffectiveTime: Option<nat>,
    maxRecordTime: Option<nat>,
    contracts: seq<SeenContract>)

  /** The parties the command acts as. */
  function SubmittersIn(fs: seq<WireField>): (r: Result<seq<Bytes>>)
  {
    var submitter :- LenUnique(fs, 2);
    var si :- Message(if submitter.Some? then submitter.value else []);
    StringFields(si, 1)
  }

  /** The metadata without its input contracts. */
  function MetadataIn(fs: seq<WireField>): (r: Result<Metadata>)
  {
    var actAs :- SubmittersIn(fs);
    var sync :- OptTextField(fs, 3);
    var prep :- TimeField(fs, 6);
    var minLet :- TimeField(fs, 9);
    var maxLet :- TimeField(fs, 10);
    var maxRecord :- TimeField(fs, 11);
    Ok(Metadata(actAs, sync, prep, minLet, maxLet, maxRecord, []))
  }

  function MetadataOf(body: Option<Bytes>): (r: Result<Metadata>)
  {
    if body.None? then Ok(Metadata([], None, None, None, None, None, []))
    else
      var fs :- Message(body.value);
      var md :- MetadataIn(fs);
      var contracts :- ContractsOf(LenFields(fs, 7));
      Ok(md.(contracts := contracts))
  }

  function TimeField(fs: seq<WireField>, field: nat): (r: Result<Option<nat>>)
  {
    VarintUnique(fs, field)
  }

  /** What the bytes of a prepared transaction mean, or a refusal. */
  function PreparedOf(bytes: Bytes): (r: Result<DecodedPrepared>)
  {
    if bytes == [] then Err
    else
      var top :- Message(bytes);
      var metaBody :- LenUnique(top, 2);
      var md :- MetadataOf(metaBody);
      var transaction :- LenUnique(top, 1);
      if transaction.None? then Err
      else
        var dt :- Message(transaction.value);
        var roots :- StringFields(dt, 2);
        var bodies := LenFields(dt, 3);
        if |roots| > MAX_ROOTS || |bodies| > MAX_NODES then Err
        else
          var nodes :- NodesOf(bodies);
          Ok(DecodedPrepared(
               md.actAs, roots, nodes, md.synchronizerId, md.preparationTime, md.minLedgerEffectiveTime,
               md.maxLedgerEffectiveTime, md.maxRecordTime, ContractParties(md.contracts),
               ContractsSeen(md.contracts)))
  }

  // -------------------------------------------------------------------- the loops

  lemma ContractStep(bodies: seq<Bytes>, i: nat, out: seq<SeenContract>)
    requires i < |bodies|
    ensures var first := ContractOf(bodies[i]);
            Prepend(out, ContractsOf(bodies[i..]))
            == if first.Err? then Err else Prepend(out + [first.value], ContractsOf(bodies[i + 1..]))
  {
    assert bodies[i..][1..] == bodies[i + 1..];
    var first, others := ContractOf(bodies[i]), ContractsOf(bodies[i + 1..]);
    if first.Ok? && others.Ok? {
      assert out + ([first.value] + others.value) == (out + [first.value]) + others.value;
    }
  }

  method DecodeContracts(bodies: seq<Bytes>) returns (r: Result<seq<SeenContract>>)
    ensures r == ContractsOf(bodies)
  {
    var out: seq<SeenContract> := [];
    PrependNothing(ContractsOf(bodies));
    assert bodies[0..] == bodies;
    for i := 0 to |bodies|
      invariant ContractsOf(bodies) == Prepend(out, ContractsOf(bodies[i..]))
    {
      ContractStep(bodies, i, out);
      var first := ContractOf(bodies[i]);
      if first.Err? {
        return Err;
      }
      out := out + [first.value];
    }
    assert out + [] == out;
    r := Ok(out);
  }

  lemma NodeStep(bodies: seq<Bytes>, i: nat, out: seq<DecodedNode>)
    requires i < |bodies|
    ensures var first := NodeOf(bodies[i]);
            Prepend(out, NodesOf(bodies[i..]))
            == if first.Err? then Err else Prepend(out + [first.value], NodesOf(bodies[i + 1..]))
  {
    assert bodies[i..][1..] == bodies[i + 1..];
    var first, others := NodeOf(bodies[i]), NodesOf(bodies[i + 1..]);
    if first.Ok? && others.Ok? {
      assert out + ([first.value] + others.value) == (out + [first.value]) + others.value;
    }
  }

  method DecodeNodes(bodies: seq<Bytes>) returns (r: Result<seq<DecodedNode>>)
    ensures r == NodesOf(bodies)
  {
    var out: seq<DecodedNode> := [];
    PrependNothing(NodesOf(bodies));
    assert bodies[0..] == bodies;
    for i := 0 to |bodies|
      invariant NodesOf(bodies) == Prepend(out, NodesOf(bodies[i..]))
    {
      NodeStep(bodies, i, out);
      var first := NodeOf(bodies[i]);
      if first.Err? {
        return Err;
      }
      out := out + [first.value];
    }
    assert out + [] == out;
    r := Ok(out);
  }

  method DecodeMetadata(body: Option<Bytes>) returns (r: Result<Metadata>)
    ensures r == MetadataOf(body)
  {
    if body.None? {
      return Ok(Metadata([], None, None, None, None, None, []));
    }
    var fs :- DecodeMessage(body.value);
    var submitter :- LenUnique(fs, 2);
    var si :- DecodeMessage(if submitter.Some? then submitter.value else []);
    var actAs :- StringFields(si, 1);
    var sync :- OptTextField(fs, 3);
    var prep :- TimeField(fs, 6);
    var minLet :- TimeField(fs, 9);
    var maxLet :- TimeField(fs, 10);
    var maxRecord :- TimeField(fs, 11);
    var contracts :- DecodeContracts(LenFields(fs, 7));
    r := Ok(Metadata(actAs, sync, prep, minLet, maxLet, maxRecord, contracts));
  }

  /** Decodes every node and every input contract of the bytes, or refuses. */
  method DecodePrepared(bytes: Bytes) returns (r: Result<DecodedPrepared>)
    ensures r == PreparedOf(bytes)
  {
    if bytes == [] {
      return Err;
    }
    var top :- DecodeMessage(bytes);
    var metaBody :- LenUnique(top, 2);
    var md :- DecodeMetadata(metaBody);
    var transaction :- LenUnique(top, 1);
    if transaction.None? {
      return Err;
    }
    var dt :- DecodeMessage(transaction.value);
    var roots :- StringFields(dt, 2);
    var bodies := LenFields(dt, 3);
    if |roots| > MAX_ROOTS || |bodies| > MAX_NODES {
      return Err;
    }
    var nodes :- DecodeNodes(bodies);
    r := Ok(DecodedPrepared(
              md.actAs, roots, nodes, md.synchronizerId, md.preparationTime, md.minLedgerEffectiveTime,
              md.maxLedgerEffectiveTime, md.maxRecordTime, ContractParties(md.contracts),
              ContractsSeen(md.contracts)));
  }
}
