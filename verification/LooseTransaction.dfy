/** The same refuse-nothing reading of a whole prepared transaction: its nodes and input
    contracts, the values they carry and the parties they list. Whatever the decoder accepts,
    it shows all of that. */
module LooseTransaction {
  import opened Results
  import opened Wire
  import opened DamlValue
  import opened LooseReader
  import opened Decoded
  import opened PreparedDecoder

  // ------------------------------------------------------------- parties and keys

  function PartiesOf(values: seq<Bytes>): seq<Bytes> {
    if values == [] then [] else Parties(values[0]) + PartiesOf(values[1..])
  }

  /** The maintainers of a contract key and every party inside it. */
  function PartiesOfKey(key: Bytes): seq<Bytes> {
    Fields(key, 2) + PartiesOf(FieldsOfAll(Fields(key, 1), 3))
  }

  function PartiesOfKeys(keys: seq<Bytes>): seq<Bytes> {
    if keys == [] then [] else PartiesOfKey(keys[0]) + PartiesOfKeys(keys[1..])
  }

  /** The parties listed in bodies of one kind, and those of its contract keys. */
  function Listed(bodies: seq<Bytes>, fields: seq<nat>, keyField: nat): seq<Bytes> {
    if bodies == [] then []
    else
      Within(bodies[0], fields) + PartiesOfKeys(Fields(bodies[0], keyField)) + Listed(bodies[1..], fields, keyField)
  }

  lemma {:induction false} StringsAreShown(raw: seq<Bytes>)
    requires Strings(raw).Ok?
    ensures Strings(raw).value == Shown(raw)
  {
    if raw != [] {
      StringsAreShown(raw[1..]);
    }
  }

  lemma {:induction false} ListsAreShown(body: Bytes, fields: seq<nat>)
    requires Message(body).Ok? && PartyLists(Message(body).value, fields).Ok?
    ensures PartyLists(Message(body).value, fields).value == Shown(Within(body, fields))
  {
    if fields != [] {
      StringsAreShown(LenFields(Message(body).value, fields[0]));
      ListsAreShown(body, fields[1..]);
      ShownConcat(Fields(body, fields[0]), Within(body, fields[1..]));
    }
  }

  /** A unique field, as the list of its occurrences. */
  lemma UniqueIsAll(body: Bytes, k: nat)
    requires Message(body).Ok? && LenUnique(Message(body).value, k).Ok?
    ensures Fields(body, k) == OptList(LenUnique(Message(body).value, k).value)
  {
  }

  lemma OneOf(b: Bytes, k: nat)
    ensures FieldsOfAll([b], k) == Fields(b, k)
  {
    assert [b][1..] == [];
  }

  lemma PartiesOfOne(v: Bytes)
    ensures PartiesOf([v]) == Parties(v)
  {
    assert [v][1..] == [];
  }

  lemma KeyIsLoose(key: Bytes)
    requires KeyParties(Some(key)).Ok?
    ensures KeyParties(Some(key)).value == Shown(PartiesOfKey(key))
  {
    var fs := Message(key).value;
    StringsAreShown(LenFields(fs, 2));
    UniqueIsAll(key, 1);
    var globalKey := LenUnique(fs, 1).value;
    ShownConcat(Fields(key, 2), PartiesOf(FieldsOfAll(Fields(key, 1), 3)));
    if globalKey.Some? {
      OneOf(globalKey.value, 3);
      UniqueIsAll(globalKey.value, 3);
      var value := LenUnique(Message(globalKey.value).value, 3).value;
      if value.Some? {
        PartiesOfOne(value.value);
        CollectIsLoose(value.value, 1);
      }
    }
  }

  lemma MetaIsLoose(body: Bytes, fields: seq<nat>, keyField: nat)
    requires Message(body).Ok? && PartyMeta(Message(body).value, fields, keyField).Ok?
    ensures PartyMeta(Message(body).value, fields, keyField).value == Shown(Listed([body], fields, keyField))
  {
    var fs := Message(body).value;
    var key := LenUnique(fs, keyField).value;
    ListsAreShown(body, fields);
    UniqueIsAll(body, keyField);
    if key.Some? {
      KeyIsLoose(key.value);
      OneKey(key.value);
    }
    ListedOne(body, fields, keyField);
    ShownConcat(Within(body, fields), PartiesOfKeys(Fields(body, keyField)));
  }

  lemma OneKey(key: Bytes)
    ensures PartiesOfKeys([key]) == PartiesOfKey(key)
  {
    assert [key][1..] == [];
  }

  lemma ListedOne(body: Bytes, fields: seq<nat>, keyField: nat)
    ensures Listed([body], fields, keyField) == Within(body, fields) + PartiesOfKeys(Fields(body, keyField))
  {
    assert [body][1..] == [];
  }

  // ------------------------------------------------------------------------ nodes

  const CREATE: nat := 1
  const FETCH: nat := 2
  const EXERCISE: nat := 3
  const ROLLBACK: nat := 4
  const QUERY: nat := 5

  /** Every body of one kind inside a node, under any occurrence of its version. */
  function KindBodies(node: Bytes, kind: nat): seq<Bytes> {
    FieldsOfAll(Fields(node, 1000), kind)
  }

  /** Every party a node lists, and those of its contract keys. */
  function ListedParties(node: Bytes): seq<Bytes> {
    Listed(KindBodies(node, EXERCISE), [5, 6, 7, 14], 15)
    + Listed(KindBodies(node, CREATE), [6, 7], 8)
    + Listed(KindBodies(node, FETCH), [5, 6, 7], 9)
    + Listed(KindBodies(node, QUERY), [], 5)
  }

  function Choices(node: Bytes): seq<Bytes> {
    FieldsOfAll(KindBodies(node, EXERCISE), 9)
  }

  function ChosenValues(node: Bytes): seq<Bytes> {
    FieldsOfAll(KindBodies(node, EXERCISE), 10)
  }

  function ExerciseResults(node: Bytes): seq<Bytes> {
    FieldsOfAll(KindBodies(node, EXERCISE), 13)
  }

  function CreateArguments(node: Bytes): seq<Bytes> {
    FieldsOfAll(KindBodies(node, CREATE), 5)
  }

  function NodeId(node: Bytes): Bytes {
    var ids := Fields(node, 1);
    if ids == [] then [] else StripBom(ids[0])
  }

  /** The name of the first template id among `ids`. */
  function TemplateNamed(ids: seq<Bytes>): Option<Bytes> {
    if ids == [] || QualifiedName(ids[0]).Err? then None else QualifiedName(ids[0]).value
  }

  function CreatedTemplate(node: Bytes): Option<Bytes> {
    TemplateNamed(FieldsOfAll(KindBodies(node, CREATE), 4))
  }

  /** What the decoder shows of a node is all that is written in it. */
  ghost predicate ShowsAll(n: DecodedNode, node: Bytes) {
    && n.nodeId == NodeId(node)
    && n.partyMeta == Shown(ListedParties(node))
    && n.values == ChosenValues(node) + ExerciseResults(node) + CreateArguments(node)
    && TemplateShown(n.create) == CreatedTemplate(node)
    && ChosenShown(n.exercise) == ChosenValues(node)
    && ChoiceShown(n.exercise) == Shown(Choices(node))
  }

  lemma ExerciseShown(body: Bytes)
    requires ExerciseNodeOf(body).Ok?
    ensures var n := ExerciseNodeOf(body).value;
            && n.partyMeta == Shown(Listed([body], [5, 6, 7, 14], 15))
            && n.values == Fields(body, 10) + Fields(body, 13)
  {
    MetaIsLoose(body, [5, 6, 7, 14], 15);
    UniqueIsAll(body, 10);
    UniqueIsAll(body, 13);
  }

  lemma ExerciseNamed(body: Bytes)
    requires Message(body).Ok? && ExerciseOf(Message(body).value).Ok? && ExerciseOf(Message(body).value).value.Some?
    ensures var ex := ExerciseOf(Message(body).value).value.value;
            Fields(body, 10) == [ex.chosenValue] && Shown(Fields(body, 9)) == [ex.choiceId]
  {
    UniqueIsAll(body, 9);
    UniqueIsAll(body, 10);
    assert Fields(body, 9)[1..] == [];
  }

  lemma CreateShown(body: Bytes)
    requires CreateNodeOf(body).Ok?
    ensures var n := CreateNodeOf(body).value;
            && n.partyMeta == Shown(Listed([body], [6, 7], 8))
            && n.values == Fields(body, 5)
            && n.create.Some? && n.create.value.template == TemplateNamed(Fields(body, 4))
  {
    MetaIsLoose(body, [6, 7], 8);
    UniqueIsAll(body, 4);
    UniqueIsAll(body, 5);
  }

  lemma FetchShown(body: Bytes)
    requires FetchNodeOf(body).Ok?
    ensures FetchNodeOf(body).value.partyMeta == Shown(Listed([body], [5, 6, 7], 9))
  {
    MetaIsLoose(body, [5, 6, 7], 9);
  }

  lemma QueryShown(body: Bytes)
    requires QueryNodeOf(body).Ok?
    ensures QueryNodeOf(body).value.partyMeta == Shown(Listed([body], [], 5))
  {
    MetaIsLoose(body, [], 5);
  }

  /** What is written under a kind of node, when `body` of kind `only` is all there is. */
  function Solely(only: nat, body: Bytes, kind: nat): seq<Bytes> {
    if kind == only then [body] else []
  }

  /** A versioned body with one kind of node in it, once. */
  ghost predicate SoleKind(v1: Bytes, kind: nat, body: Bytes) {
    && 1 <= kind <= 5
    && Fields(v1, CREATE) == Solely(kind, body, CREATE)
    && Fields(v1, FETCH) == Solely(kind, body, FETCH)
    && Fields(v1, EXERCISE) == Solely(kind, body, EXERCISE)
    && Fields(v1, ROLLBACK) == Solely(kind, body, ROLLBACK)
    && Fields(v1, QUERY) == Solely(kind, body, QUERY)
  }

  function KindOf(kind: nat, body: Bytes): Result<V1Node> {
    if kind == EXERCISE then ExerciseNodeOf(body)
    else if kind == CREATE then CreateNodeOf(body)
    else if kind == ROLLBACK then RollbackNodeOf(body)
    else if kind == FETCH then FetchNodeOf(body)
    else QueryNodeOf(body)
  }

  lemma KindsUnique(v1: Bytes)
    requires V1NodeOf(v1).Ok?
    ensures Message(v1).Ok?
    ensures var fs := Message(v1).value;
            && LenUnique(fs, 1).Ok? && LenUnique(fs, 2).Ok? && LenUnique(fs, 3).Ok? && LenUnique(fs, 4).Ok?
            && LenUnique(fs, 5).Ok?
  {
  }

  lemma KindFound(v1: Bytes) returns (kind: nat, body: Bytes)
    requires V1NodeOf(v1).Ok? && V1NodeOf(v1).value.kind.Some?
    ensures SoleKind(v1, kind, body) && V1NodeOf(v1) == KindOf(kind, body)
  {
    KindsUnique(v1);
    UniqueIsAll(v1, CREATE);
    UniqueIsAll(v1, FETCH);
    UniqueIsAll(v1, EXERCISE);
    UniqueIsAll(v1, ROLLBACK);
    UniqueIsAll(v1, QUERY);
    kind := if Fields(v1, EXERCISE) != [] then EXERCISE else if Fields(v1, CREATE) != [] then CREATE
            else if Fields(v1, ROLLBACK) != [] then ROLLBACK else if Fields(v1, FETCH) != [] then FETCH else QUERY;
    body := if Fields(v1, kind) != [] then Fields(v1, kind)[0] else [];
  }

  // Everything written in a v1 body, whatever kinds of node it holds.

  function ListedIn(v1: Bytes): seq<Bytes> {
    Listed(Fields(v1, EXERCISE), [5, 6, 7, 14], 15) + Listed(Fields(v1, CREATE), [6, 7], 8)
    + Listed(Fields(v1, FETCH), [5, 6, 7], 9) + Listed(Fields(v1, QUERY), [], 5)
  }

  function ValuesIn(v1: Bytes): seq<Bytes> {
    FieldsOfAll(Fields(v1, EXERCISE), 10) + FieldsOfAll(Fields(v1, EXERCISE), 13) + FieldsOfAll(Fields(v1, CREATE), 5)
  }

  // And in one body of one kind.

  function ListedInBody(kind: nat, body: Bytes): seq<Bytes> {
    if kind == EXERCISE then Listed([body], [5, 6, 7, 14], 15)
    else if kind == CREATE then Listed([body], [6, 7], 8)
    else if kind == FETCH then Listed([body], [5, 6, 7], 9)
    else if kind == QUERY then Listed([body], [], 5)
    else []
  }

  function ValuesInBody(kind: nat, body: Bytes): seq<Bytes> {
    if kind == EXERCISE then Fields(body, 10) + Fields(body, 13) else if kind == CREATE then Fields(body, 5) else []
  }

  function OfKind(only: nat, kind: nat, found: seq<Bytes>): seq<Bytes> {
    if kind == only then found else []
  }

  lemma ListedSolely(v1: Bytes, kind: nat, body: Bytes)
    requires SoleKind(v1, kind, body)
    ensures ListedIn(v1) == ListedInBody(kind, body)
  {
  }

  lemma ValuesSolely(v1: Bytes, kind: nat, body: Bytes)
    requires SoleKind(v1, kind, body)
    ensures ValuesIn(v1) == ValuesInBody(kind, body)
  {
    SolelyWithin(v1, kind, body, EXERCISE, 10);
    SolelyWithin(v1, kind, body, EXERCISE, 13);
    SolelyWithin(v1, kind, body, CREATE, 5);
  }

  lemma SolelyWithin(v1: Bytes, only: nat, body: Bytes, kind: nat, k: nat)
    requires SoleKind(v1, only, body) && 1 <= kind <= 5
    ensures FieldsOfAll(Fields(v1, kind), k) == OfKind(only, kind, Fields(body, k))
  {
    OneOf(body, k);
  }

  function TemplateShown(create: Option<DecodedCreate>): Option<Bytes> {
    if create.Some? then create.value.template else None
  }

  function ChosenShown(ex: Option<DecodedExercise>): seq<Bytes> {
    if ex.Some? then [ex.value.chosenValue] else []
  }

  function ChoiceShown(ex: Option<DecodedExercise>): seq<Bytes> {
    if ex.Some? then [ex.value.choiceId] else []
  }

  /** What a decoded v1 body shows, member by member. */
  ghost predicate ShowsKind(n: V1Node, v1: Bytes) {
    && n.partyMeta == Shown(ListedIn(v1))
    && n.values == ValuesIn(v1)
    && TemplateShown(n.create) == TemplateNamed(FieldsOfAll(Fields(v1, CREATE), 4))
    && ChosenShown(n.exercise) == FieldsOfAll(Fields(v1, EXERCISE), 10)
    && ChoiceShown(n.exercise) == Shown(FieldsOfAll(Fields(v1, EXERCISE), 9))
  }

  /** The same, on the one body. */
  ghost predicate ShowsBody(n: V1Node, kind: nat, body: Bytes) {
    && n.partyMeta == Shown(ListedInBody(kind, body))
    && n.values == ValuesInBody(kind, body)
    && TemplateShown(n.create) == TemplateNamed(OfKind(kind, CREATE, Fields(body, 4)))
    && ChosenShown(n.exercise) == OfKind(kind, EXERCISE, Fields(body, 10))
    && ChoiceShown(n.exercise) == Shown(OfKind(kind, EXERCISE, Fields(body, 9)))
  }

  lemma KindShown(v1: Bytes, kind: nat, body: Bytes)
    requires SoleKind(v1, kind, body) && KindOf(kind, body).Ok?
    requires kind == EXERCISE ==> KindOf(kind, body).value.exercise.Some?
    ensures ShowsKind(KindOf(kind, body).value, v1)
  {
    BodyShown(kind, body);
    ShownAssembled(KindOf(kind, body).value, v1, kind, body);
  }

  lemma ExerciseBody(body: Bytes)
    requires ExerciseNodeOf(body).Ok? && ExerciseNodeOf(body).value.exercise.Some?
    ensures ShowsBody(ExerciseNodeOf(body).value, EXERCISE, body)
  {
    ExerciseShown(body);
    ExerciseParts(body);
    NothingCreated(body);
    ExerciseNamed(body);
    AssembleExercise(ExerciseNodeOf(body).value, body);
  }

  lemma ExerciseParts(body: Bytes)
    requires ExerciseNodeOf(body).Ok?
    ensures Message(body).Ok? && ExerciseOf(Message(body).value) == Ok(ExerciseNodeOf(body).value.exercise)
  {
  }

  lemma NothingCreated(body: Bytes)
    requires ExerciseNodeOf(body).Ok?
    ensures ExerciseNodeOf(body).value.create.None?
  {
  }

  lemma AssembleExercise(n: V1Node, body: Bytes)
    requires n.create.None? && n.exercise.Some?
    requires n.partyMeta == Shown(Listed([body], [5, 6, 7, 14], 15)) && n.values == Fields(body, 10) + Fields(body, 13)
    requires Fields(body, 10) == [n.exercise.value.chosenValue]
    requires Shown(Fields(body, 9)) == [n.exercise.value.choiceId]
    ensures ShowsBody(n, EXERCISE, body)
  {
  }

  lemma CreateBody(body: Bytes)
    requires CreateNodeOf(body).Ok?
    ensures ShowsBody(CreateNodeOf(body).value, CREATE, body)
  {
    CreateShown(body);
    assert CreateNodeOf(body).value.exercise.None?;
  }

  lemma FetchBody(body: Bytes)
    requires FetchNodeOf(body).Ok?
    ensures ShowsBody(FetchNodeOf(body).value, FETCH, body)
  {
    FetchShown(body);
  }

  lemma QueryBody(body: Bytes)
    requires QueryNodeOf(body).Ok?
    ensures ShowsBody(QueryNodeOf(body).value, QUERY, body)
  {
    QueryShown(body);
  }

  lemma RollbackBody(body: Bytes)
    requires RollbackNodeOf(body).Ok?
    ensures ShowsBody(RollbackNodeOf(body).value, ROLLBACK, body)
  {
  }

  lemma BodyShown(kind: nat, body: Bytes)
    requires 1 <= kind <= 5 && KindOf(kind, body).Ok?
    requires kind == EXERCISE ==> KindOf(kind, body).value.exercise.Some?
    ensures ShowsBody(KindOf(kind, body).value, kind, body)
  {
    if kind == EXERCISE {
      ExerciseBody(body);
    } else if kind == CREATE {
      CreateBody(body);
    } else if kind == FETCH {
      FetchBody(body);
    } else if kind == QUERY {
      QueryBody(body);
    } else {
      RollbackBody(body);
    }
  }

  lemma ShownAssembled(n: V1Node, v1: Bytes, kind: nat, body: Bytes)
    requires SoleKind(v1, kind, body) && ShowsBody(n, kind, body)
    ensures ShowsKind(n, v1)
  {
    ListedSolely(v1, kind, body);
    ValuesSolely(v1, kind, body);
    SolelyWithin(v1, kind, body, EXERCISE, 9);
    SolelyWithin(v1, kind, body, EXERCISE, 10);
    SolelyWithin(v1, kind, body, CREATE, 4);
  }

  lemma VersionFound(node: Bytes) returns (v1: Bytes)
    requires NodeOf(node).Ok? && NodeOf(node).value.recognizedVersion
    ensures Fields(node, 1000) == [v1] && V1NodeOf(v1).Ok?
    ensures var n, m := NodeOf(node).value, V1NodeOf(v1).value;
            n == DecodedNode(NodeId(node), true, m.kind, m.exercise, m.create, m.children, m.values, m.partyMeta)
  {
    var fs := Message(node).value;
    UniqueIsAll(node, 1);
    UniqueIsAll(node, 1000);
    v1 := LenUnique(fs, 1000).value.value;
  }

  lemma KindBodiesOf(node: Bytes, v1: Bytes, kind: nat)
    requires Fields(node, 1000) == [v1]
    ensures KindBodies(node, kind) == Fields(v1, kind)
  {
    OneOf(v1, kind);
  }

  /** Whatever node the decoder recognises and fully decodes, it shows all of it. */
  lemma NodeIsLoose(node: Bytes)
    requires NodeOf(node).Ok? && NodeOf(node).value.recognizedVersion && NodeOf(node).value.kind.Some?
    requires NodeOf(node).value.kind.value.ExerciseNode? ==> NodeOf(node).value.exercise.Some?
    ensures ShowsAll(NodeOf(node).value, node)
  {
    var v1 := VersionFound(node);
    var kind, body := KindFound(v1);
    KindIs(kind, body);
    KindShown(v1, kind, body);
    KindBodiesOf(node, v1, EXERCISE);
    KindBodiesOf(node, v1, CREATE);
    KindBodiesOf(node, v1, FETCH);
    KindBodiesOf(node, v1, QUERY);
  }

  lemma KindIs(kind: nat, body: Bytes)
    requires KindOf(kind, body).Ok?
    ensures kind == EXERCISE ==> KindOf(kind, body).value.kind == Some(ExerciseNode)
  {
  }

  // -------------------------------------------------------------- input contracts

  function InputParties(input: Bytes): seq<Bytes> {
    Listed(Fields(input, 1), [6, 7], 8)
  }

  function InputArguments(input: Bytes): seq<Bytes> {
    FieldsOfAll(Fields(input, 1), 5)
  }

  function InputSignatories(input: Bytes): seq<Bytes> {
    FieldsOfAll(Fields(input, 1), 6)
  }

  function InputTemplate(input: Bytes): Option<Bytes> {
    TemplateNamed(FieldsOfAll(Fields(input, 1), 4))
  }

  ghost predicate ShowsInput(c: SeenContract, input: Bytes) {
    && c.partyMeta == Shown(InputParties(input))
    && OptList(c.contract.argument) == InputArguments(input)
    && c.contract.signatories == Shown(InputSignatories(input))
    && c.contract.template == InputTemplate(input)
  }

  lemma InputIsLoose(input: Bytes)
    requires ContractOf(input).Ok?
    ensures ShowsInput(ContractOf(input).value, input)
  {
    UniqueIsAll(input, 1);
    var v1 := LenUnique(Message(input).value, 1).value.value;
    CreatedIsLoose(v1, ContractOf(input).value);
    OneOf(v1, 4);
    OneOf(v1, 5);
    OneOf(v1, 6);
  }

  lemma CreatedIsLoose(v1: Bytes, c: SeenContract)
    requires CreatedOf(v1) == Ok(c)
    ensures c.partyMeta == Shown(Listed([v1], [6, 7], 8))
    ensures OptList(c.contract.argument) == Fields(v1, 5)
    ensures c.contract.signatories == Shown(Fields(v1, 6))
    ensures c.contract.template == TemplateNamed(Fields(v1, 4))
  {
    CreatedListed(v1, c);
    CreatedNamed(v1, c);
  }

  lemma CreatedListed(v1: Bytes, c: SeenContract)
    requires CreatedOf(v1) == Ok(c)
    ensures c.partyMeta == Shown(Listed([v1], [6, 7], 8)) && OptList(c.contract.argument) == Fields(v1, 5)
  {
    MetaIsLoose(v1, [6, 7], 8);
    UniqueIsAll(v1, 5);
  }

  lemma CreatedNamed(v1: Bytes, c: SeenContract)
    requires CreatedOf(v1) == Ok(c)
    ensures c.contract.signatories == Shown(Fields(v1, 6)) && c.contract.template == TemplateNamed(Fields(v1, 4))
  {
    UniqueIsAll(v1, 4);
    StringsAreShown(Fields(v1, 6));
  }

  // --------------------------------------------------------------------- the whole

  function RootIds(bytes: Bytes): seq<Bytes> {
    FieldsOfAll(Fields(bytes, 1), 2)
  }

  function Nodes(bytes: Bytes): seq<Bytes> {
    FieldsOfAll(Fields(bytes, 1), 3)
  }

  function Inputs(bytes: Bytes): seq<Bytes> {
    FieldsOfAll(Fields(bytes, 2), 7)
  }

  /** The parties the command acts as. */
  function Submitters(bytes: Bytes): seq<Bytes> {
    FieldsOfAll(FieldsOfAll(Fields(bytes, 2), 2), 1)
  }

  /** The parts that the decoder takes an accepted transaction from. */
  lemma PreparedParts(bytes: Bytes) returns (metaBody: Option<Bytes>, md: Metadata, transaction: Bytes)
    requires PreparedOf(bytes).Ok?
    ensures Fields(bytes, 2) == OptList(metaBody) && Fields(bytes, 1) == [transaction]
    ensures MetadataOf(metaBody) == Ok(md) && Message(transaction).Ok?
    ensures var d, dt := PreparedOf(bytes).value, Message(transaction).value;
            && StringFields(dt, 2) == Ok(d.roots) && NodesOf(LenFields(dt, 3)) == Ok(d.nodes)
            && d.actAs == md.actAs
            && d.inputContractPartyMeta == ContractParties(md.contracts)
            && d.inputContracts == ContractsSeen(md.contracts)
  {
    var top := Message(bytes).value;
    UniqueIsAll(bytes, 1);
    UniqueIsAll(bytes, 2);
    metaBody := LenUnique(top, 2).value;
    md := MetadataOf(metaBody).value;
    transaction := LenUnique(top, 1).value.value;
  }

  lemma ContractsFound(metaBody: Bytes)
    requires MetadataOf(Some(metaBody)).Ok?
    ensures ContractsOf(Fields(metaBody, 7)) == Ok(MetadataOf(Some(metaBody)).value.contracts)
  {
  }

  lemma SubmittersFound(metaBody: Bytes)
    requires MetadataOf(Some(metaBody)).Ok?
    ensures MetadataOf(Some(metaBody)).value.actAs == Shown(FieldsOfAll(Fields(metaBody, 2), 1))
  {
    SubmittersRead(metaBody);
    SubmittersAreLoose(metaBody);
  }

  lemma SubmittersRead(metaBody: Bytes)
    requires MetadataOf(Some(metaBody)).Ok?
    ensures Message(metaBody).Ok?
    ensures SubmittersIn(Message(metaBody).value) == Ok(MetadataOf(Some(metaBody)).value.actAs)
  {
    MetadataSubmitters(Message(metaBody).value);
  }

  lemma MetadataSubmitters(fs: seq<WireField>)
    requires MetadataIn(fs).Ok?
    ensures SubmittersIn(fs) == Ok(MetadataIn(fs).value.actAs)
  {
  }

  lemma SubmittersAreLoose(metaBody: Bytes)
    requires Message(metaBody).Ok? && SubmittersIn(Message(metaBody).value).Ok?
    ensures SubmittersIn(Message(metaBody).value).value == Shown(FieldsOfAll(Fields(metaBody, 2), 1))
  {
    UniqueIsAll(metaBody, 2);
    var submitter := LenUnique(Message(metaBody).value, 2).value;
    if submitter.Some? {
      OneOf(submitter.value, 1);
      StringsAreShown(Fields(submitter.value, 1));
    }
  }

  /** Whatever bytes the decoder accepts, it decodes every node and every input contract
      written in them, in order. */
  lemma PreparedIsLoose(bytes: Bytes)
    requires PreparedOf(bytes).Ok?
    ensures var d := PreparedOf(bytes).value;
            && d.roots == Shown(RootIds(bytes)) && d.actAs == Shown(Submitters(bytes))
            && NodesOf(Nodes(bytes)) == Ok(d.nodes)
            && ContractsOf(Inputs(bytes)).Ok?
            && d.inputContractPartyMeta == ContractParties(ContractsOf(Inputs(bytes)).value)
            && d.inputContracts == ContractsSeen(ContractsOf(Inputs(bytes)).value)
  {
    var metaBody, md, transaction := PreparedParts(bytes);
    OneOf(transaction, 2);
    OneOf(transaction, 3);
    StringsAreShown(Fields(transaction, 2));
    if metaBody.Some? {
      OneOf(metaBody.value, 7);
      ContractsFound(metaBody.value);
      OneOf(metaBody.value, 2);
      SubmittersFound(metaBody.value);
    }
  }

  lemma {:induction false} NodesOfAt(bodies: seq<Bytes>, i: nat)
    requires NodesOf(bodies).Ok? && i < |bodies|
    ensures NodeOf(bodies[i]) == Ok(NodesOf(bodies).value[i])
  {
    assert NodesOf(bodies) == Ok([NodeOf(bodies[0]).value] + NodesOf(bodies[1..]).value);
    if i > 0 {
      NodesOfAt(bodies[1..], i - 1);
    }
  }

  lemma {:induction false} ContractsOfAt(bodies: seq<Bytes>, i: nat)
    requires ContractsOf(bodies).Ok? && i < |bodies|
    ensures ContractOf(bodies[i]) == Ok(ContractsOf(bodies).value[i])
  {
    if i > 0 {
      ContractsOfAt(bodies[1..], i - 1);
    }
  }
}
