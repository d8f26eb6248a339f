/** A prepared transaction after decoding, as the acceptance checks see it. */
module Decoded {
  import opened Results
  import opened Wire

  datatype NodeKind = CreateNode | FetchNode | ExerciseNode | RollbackNode | QueryByKeyNode

  datatype DecodedExercise = DecodedExercise(
    choiceId: Bytes, chosenValue: Bytes, contractId: Option<Bytes>, template: Option<Bytes>)

  datatype DecodedCreate = DecodedCreate(template: Option<Bytes>, argument: Option<Bytes>)

  /** One node, fully accounted for. `values` holds every value payload it
      introduces (an exercise's chosen value first), `partyMeta` every party named
      outside value payloads. */
  datatype DecodedNode = DecodedNode(
    nodeId: Bytes,
    recognizedVersion: bool,
    kind: Option<NodeKind>,
    exercise: Option<DecodedExercise>,
    create: Option<DecodedCreate>,
    children: seq<Bytes>,
    values: seq<Bytes>,
    partyMeta: seq<Bytes>)

  datatype InputContract = InputContract(
    contractId: Option<Bytes>,
    template: Option<Bytes>,
    argument: Option<Bytes>,
    signatories: seq<Bytes>,
    stakeholders: seq<Bytes>)

  datatype DecodedPrepared = DecodedPrepared(
    actAs: seq<Bytes>,
    roots: seq<Bytes>,
    nodes: seq<DecodedNode>,
    synchronizerId: Option<Bytes>,
    preparationTime: Option<nat>,
    minLedgerEffectiveTime: Option<nat>,
    maxLedgerEffectiveTime: Option<nat>,
    maxRecordTime: Option<nat>,
    inputContractPartyMeta: seq<Bytes>,
    inputContracts: seq<InputContract>)

  /** An exercise node whose choice and chosen value both decoded. */
  predicate IsExercise(n: DecodedNode) {
    n.kind == Some(ExerciseNode) && n.exercise.Some?
  }
}
