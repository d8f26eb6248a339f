/** Whole prepared transactions, their encoding, and what the decoder sees of them. */
module PreparedCodec {
  import opened Results
  import opened Wire
  import opened WireCodec
  import opened DamlValue
  import opened DamlCodec
  import opened Decoded
  import opened PreparedDecoder

  // ----------------------------------------------------- messages as field groups

  /** All occurrences of one length-delimited field. */
  datatype Group = Group(field: nat, bodies: seq<Bytes>)

  function Flatten(gs: seq<Group>): seq<WireField> {
    if gs == [] then [] else Repeat(gs[0].field, gs[0].bodies) + Flatten(gs[1..])
  }

  /** Legal field numbers, in ascending order. */
  predicate GoodGroups(gs: seq<Group>) {
    && (forall i :: 0 <= i < |gs| ==> 0 < gs[i].field < 0x2000_0000)
    && (forall i :: 0 <= i < |gs| - 1 ==> gs[i].field < gs[i + 1].field)
  }

  lemma {:induction false} Ascending(gs: seq<Group>, j: nat)
    requires GoodGroups(gs) && j < |gs|
    ensures forall i | 0 <= i < j :: gs[i].field < gs[j].field
  {
    if j > 0 {
      Ascending(gs, j - 1);
      assert gs[j - 1].field < gs[j - 1 + 1].field;
    }
  }

  function Body(gs: seq<Group>): Bytes {
    EncodeMessage(Flatten(gs))
  }

  lemma {:induction false} NoGroup(gs: seq<Group>, field: nat)
    requires forall i | 0 <= i < |gs| :: gs[i].field != field
    ensures LenFields(Flatten(gs), field) == []
  {
    if gs != [] {
      RepeatFields(gs[0].field, gs[0].bodies, field);
      NoGroup(gs[1..], field);
      LenFieldsConcat(Repeat(gs[0].field, gs[0].bodies), Flatten(gs[1..]), field);
    }
  }

  /** Asking for a field gives exactly its group. */
  lemma {:induction false} GroupRead(gs: seq<Group>, i: nat)
    requires GoodGroups(gs) && i < |gs|
    ensures LenFields(Flatten(gs), gs[i].field) == gs[i].bodies
  {
    var field := gs[i].field;
    Ascending(gs, i);
    forall j | 0 <= j < |gs[1..]|
      ensures gs[1..][j].field > gs[0].field
    {
      Ascending(gs, j + 1);
    }
    RepeatFields(gs[0].field, gs[0].bodies, field);
    LenFieldsConcat(Repeat(gs[0].field, gs[0].bodies), Flatten(gs[1..]), field);
    if i == 0 {
      NoGroup(gs[1..], field);
    } else {
      GroupRead(gs[1..], i - 1);
    }
  }

  lemma {:induction false} GroupsPlain(gs: seq<Group>)
    requires GoodGroups(gs)
    ensures forall f <- Flatten(gs) :: Plain(f) && f.Len?
    ensures forall f <- Flatten(gs) :: exists i :: 0 <= i < |gs| && gs[i].field == f.field
    ensures forall i | 0 <= i < |gs| :: forall b <- gs[i].bodies :: Len(gs[i].field, b) in Flatten(gs)
  {
    if gs != [] {
      GroupsPlain(gs[1..]);
      RepeatFields(gs[0].field, gs[0].bodies, 0);
      RepeatIsLen(gs[0].field, gs[0].bodies);
      forall f | f in Flatten(gs)
        ensures exists i :: 0 <= i < |gs| && gs[i].field == f.field
      {
        if f in Flatten(gs[1..]) {
          var j :| 0 <= j < |gs[1..]| && gs[1..][j].field == f.field;
          assert gs[j + 1].field == f.field;
        }
      }
      forall i | 0 <= i < |gs|
        ensures forall b <- gs[i].bodies :: Len(gs[i].field, b) in Flatten(gs)
      {
        if i > 0 {
          assert gs[i] == gs[1..][i - 1];
        }
      }
    }
  }

  lemma {:induction false} RepeatIsLen(field: nat, bodies: seq<Bytes>)
    ensures forall f <- Repeat(field, bodies) :: f.Len? && f.field == field
  {
    if bodies != [] {
      RepeatIsLen(field, bodies[1..]);
    }
  }

  predicate GroupsFit(gs: seq<Group>) {
    forall i :: 0 <= i < |gs| ==> forall b <- gs[i].bodies :: Fits(b)
  }

  lemma BodyRead(gs: seq<Group>)
    requires GoodGroups(gs) && Fits(Body(gs))
    ensures Message(Body(gs)) == Ok(Flatten(gs)) && GroupsFit(gs)
  {
    GroupsPlain(gs);
    PlainRoundTrip(Flatten(gs));
    forall i | 0 <= i < |gs|
      ensures forall b <- gs[i].bodies :: Fits(b)
    {
      forall b | b in gs[i].bodies
        ensures Fits(b)
      {
        assert Len(gs[i].field, b) in Flatten(gs);
      }
    }
  }

  // ------------------------------------------------------------------------ text

  function Raw(ss: seq<Str>): seq<Bytes> {
    ss
  }

  lemma {:induction false} StringsRead(ss: seq<Str>)
    ensures Strings(ss) == Ok(Shown(ss))
  {
    if ss != [] {
      StringsRead(ss[1..]);
    }
  }

  lemma TextGroup(gs: seq<Group>, i: nat, ss: seq<Str>)
    requires GoodGroups(gs) && i < |gs| && gs[i].bodies == ss
    ensures StringFields(Flatten(gs), gs[i].field) == Ok(Shown(ss))
  {
    GroupRead(gs, i);
    StringsRead(ss);
  }

  lemma SingleGroup(gs: seq<Group>, i: nat, o: Option<Bytes>)
    requires GoodGroups(gs) && i < |gs| && gs[i].bodies == OptList(o)
    ensures LenUnique(Flatten(gs), gs[i].field) == Ok(o)
  {
    GroupRead(gs, i);
  }

  // ----------------------------------------------------------- the transaction tree

  datatype Template = Template(packageId: Bytes, moduleName: Str, entityName: Str)

  datatype Key = Key(maintainers: seq<Str>, value: Value)

  /** A contract, created by a node or disclosed as an input. */
  datatype Contract = Contract(
    cid: Str, template: Template, argument: Value, signatories: seq<Str>, stakeholders: seq<Str>, key: Option<Key>)

  datatype TxNode =
    | TxExercise(
        id: Str, cid: Str, template: Template, signatories: seq<Str>, stakeholders: seq<Str>, acting: seq<Str>,
        choice: Str, chosen: Value, children: seq<Str>, result: Option<Value>, observers: seq<Str>,
        key: Option<Key>)
    | TxCreate(id: Str, created: Contract)
    | TxFetch(id: Str, signatories: seq<Str>, stakeholders: seq<Str>, acting: seq<Str>, key: Option<Key>)
    | TxRollback(id: Str, children: seq<Str>)
    | TxQueryByKey(id: Str, key: Option<Key>)

  predicate KeyFormed(key: Option<Key>) {
    key.Some? ==> WellFormed(key.value.value)
  }

  predicate NodeFormed(n: TxNode) {
    match n
    case TxExercise(_, _, _, _, _, _, _, chosen, _, result, _, key) =>
      WellFormed(chosen) && (result.Some? ==> WellFormed(result.value)) && KeyFormed(key)
    case TxCreate(_, c) => ContractFormed(c)
    case TxFetch(_, _, _, _, key) => KeyFormed(key)
    case TxRollback(_, _) => true
    case TxQueryByKey(_, key) => KeyFormed(key)
  }

  predicate ContractFormed(c: Contract) {
    WellFormed(c.argument) && KeyFormed(c.key)
  }

  // ------------------------------------------------------------------- template ids

  function TemplateGroups(t: Template): seq<Group> {
    [Group(1, [t.packageId]), Group(2, [t.moduleName]), Group(3, [t.entityName])]
  }

  function TemplateName(t: Template): Bytes {
    StripBom(t.moduleName) + [COLON] + StripBom(t.entityName)
  }

  lemma TemplateRead(t: Template)
    requires Fits(Body(TemplateGroups(t)))
    ensures QualifiedName(Body(TemplateGroups(t))) == Ok(Some(TemplateName(t)))
  {
    var gs := TemplateGroups(t);
    BodyRead(gs);
    SingleGroup(gs, 1, Some(t.moduleName));
    SingleGroup(gs, 2, Some(t.entityName));
  }

  // --------------------------------------------------------------------------- keys

  function GlobalKeyGroups(v: Value): seq<Group>
    requires WellFormed(v)
  {
    [Group(3, [Encode(v)])]
  }

  function KeyGroups(k: Key): seq<Group>
    requires WellFormed(k.value)
  {
    [Group(1, [Body(GlobalKeyGroups(k.value))]), Group(2, Raw(k.maintainers))]
  }

  function KeyBodies(key: Option<Key>): seq<Bytes>
    requires KeyFormed(key)
  {
    if key.None? then [] else [Body(KeyGroups(key.value))]
  }

  function KeyRaw(key: Option<Key>): (r: Option<Bytes>)
    requires KeyFormed(key)
    ensures OptList(r) == KeyBodies(key)
  {
    if key.None? then None else Some(Body(KeyGroups(key.value)))
  }

  /** The parties of a contract key: its maintainers and its party leaves. */
  function KeyPartiesOf(key: Option<Key>): seq<Bytes> {
    if key.None? then [] else Shown(key.value.maintainers) + Shown(PartyLeaves(key.value.value))
  }

  /** A contract key is itself one level deep. */
  predicate KeyShallow(key: Option<Key>) {
    key.Some? ==> Levels(key.value.value) <= MAX_DEPTH
  }

  lemma KeyRead(key: Option<Key>)
    requires KeyFormed(key)
    requires forall b <- KeyBodies(key) :: Fits(b)
    ensures KeyParties(KeyRaw(key))
         == if KeyShallow(key) then Ok(KeyPartiesOf(key)) else Err
  {
    if key.Some? {
      var k := key.value;
      var gs, inner := KeyGroups(k), GlobalKeyGroups(k.value);
      assert Body(gs) in KeyBodies(key);
      BodyRead(gs);
      assert Body(inner) in gs[0].bodies;
      TextGroup(gs, 1, k.maintainers);
      SingleGroup(gs, 0, Some(Body(inner)));
      BodyRead(inner);
      assert Encode(k.value) in inner[0].bodies;
      SingleGroup(inner, 0, Some(Encode(k.value)));
      CollectRoundTrip(k.value, 1);
    }
  }

  // ------------------------------------------------------------------ party lists

  function ShownAll(lists: seq<seq<Str>>): seq<Bytes> {
    if lists == [] then [] else Shown(lists[0]) + ShownAll(lists[1..])
  }

  /** Group `at[j]` of `gs` is the `j`-th party list, under field `fields[j]`. */
  predicate ListsAt(gs: seq<Group>, at: seq<nat>, fields: seq<nat>, lists: seq<seq<Str>>) {
    && |at| == |fields| == |lists|
    && forall j :: 0 <= j < |at| ==>
         at[j] < |gs| && gs[at[j]].field == fields[j] && gs[at[j]].bodies == lists[j]
  }

  lemma {:induction false} PartyListsRead(gs: seq<Group>, at: seq<nat>, fields: seq<nat>, lists: seq<seq<Str>>)
    requires GoodGroups(gs) && ListsAt(gs, at, fields, lists)
    ensures PartyLists(Flatten(gs), fields) == Ok(ShownAll(lists))
  {
    if at != [] {
      TextGroup(gs, at[0], lists[0]);
      PartyListsRead(gs, at[1..], fields[1..], lists[1..]);
    }
  }

  /** Metadata parties of a node: its party lists, then its key's parties. */
  function MetaOf(lists: seq<seq<Str>>, key: Option<Key>): seq<Bytes> {
    ShownAll(lists) + KeyPartiesOf(key)
  }

  function MetaRead(lists: seq<seq<Str>>, key: Option<Key>): Result<seq<Bytes>> {
    if KeyShallow(key) then Ok(MetaOf(lists, key)) else Err
  }

  lemma PartyMetaRead(gs: seq<Group>, at: seq<nat>, fields: seq<nat>, lists: seq<seq<Str>>, keyAt: nat,
                      key: Option<Key>)
    requires GoodGroups(gs) && GroupsFit(gs) && ListsAt(gs, at, fields, lists)
    requires keyAt < |gs| && KeyFormed(key) && gs[keyAt].bodies == KeyBodies(key)
    ensures PartyMeta(Flatten(gs), fields, gs[keyAt].field) == MetaRead(lists, key)
  {
    PartyListsRead(gs, at, fields, lists);
    SingleGroup(gs, keyAt, KeyRaw(key));
    KeyRead(key);
  }

  // ------------------------------------------------------------------------- nodes

  function NodeKey(n: TxNode): Option<Key> {
    if n.TxRollback? then None else if n.TxCreate? then n.created.key else n.key
  }

  function OptEncode(v: Option<Value>): Option<Bytes>
    requires v.Some? ==> WellFormed(v.value)
  {
    if v.None? then None else Some(Encode(v.value))
  }

  function ExerciseGroups(n: TxNode): seq<Group>
    requires n.TxExercise? && NodeFormed(n)
  {
    [Group(2, [n.cid]), Group(4, [Body(TemplateGroups(n.template))]), Group(5, Raw(n.signatories)),
     Group(6, Raw(n.stakeholders)), Group(7, Raw(n.acting)), Group(9, [n.choice]), Group(10, [Encode(n.chosen)]),
     Group(12, Raw(n.children)), Group(13, OptList(OptEncode(n.result))), Group(14, Raw(n.observers)),
     Group(15, KeyBodies(n.key))]
  }

  function ContractGroups(c: Contract): seq<Group>
    requires ContractFormed(c)
  {
    [Group(2, [c.cid]), Group(4, [Body(TemplateGroups(c.template))]), Group(5, [Encode(c.argument)]),
     Group(6, Raw(c.signatories)), Group(7, Raw(c.stakeholders)), Group(8, KeyBodies(c.key))]
  }

  function FetchGroups(n: TxNode): seq<Group>
    requires n.TxFetch? && NodeFormed(n)
  {
    [Group(5, Raw(n.signatories)), Group(6, Raw(n.stakeholders)), Group(7, Raw(n.acting)), Group(9, KeyBodies(n.key))]
  }

  /** The node-type member and its body. */
  function KindGroup(n: TxNode): Group
    requires NodeFormed(n)
  {
    match n
    case TxExercise(_, _, _, _, _, _, _, _, _, _, _, _) => Group(3, [Body(ExerciseGroups(n))])
    case TxCreate(_, c) => Group(1, [Body(ContractGroups(c))])
    case TxFetch(_, _, _, _, _) => Group(2, [Body(FetchGroups(n))])
    case TxRollback(_, children) => Group(4, [Body([Group(1, Raw(children))])])
    case TxQueryByKey(_, key) => Group(5, [Body([Group(5, KeyBodies(key))])])
  }

  function NodeGroups(n: TxNode): seq<Group>
    requires NodeFormed(n)
  {
    [Group(1, [n.id]), Group(1000, [Body([KindGroup(n)])])]
  }

  function EncodeNode(n: TxNode): Bytes
    requires NodeFormed(n)
  {
    Body(NodeGroups(n))
  }

  // ------------------------------------------------------- what decoding must show

  function V1View(n: TxNode): V1Node
    requires NodeFormed(n)
  {
    match n
    case TxExercise(_, cid, template, sigs, stks, acting, choice, chosen, children, result, obs, key) =>
      V1Node(Some(ExerciseNode),
             Some(DecodedExercise(StripBom(choice), Encode(chosen), Some(StripBom(cid)), Some(TemplateName(template)))),
             None, Shown(children), [Encode(chosen)] + OptList(OptEncode(result)),
             MetaOf([sigs, stks, acting, obs], key))
    case TxCreate(_, c) =>
      V1Node(Some(CreateNode), None, Some(DecodedCreate(Some(TemplateName(c.template)), Some(Encode(c.argument)))),
             [], [Encode(c.argument)], MetaOf([c.signatories, c.stakeholders], c.key))
    case TxFetch(_, sigs, stks, acting, key) =>
      V1Node(Some(FetchNode), None, None, [], [], MetaOf([sigs, stks, acting], key))
    case TxRollback(_, children) => V1Node(Some(RollbackNode), None, None, Shown(children), [], [])
    case TxQueryByKey(_, key) => V1Node(Some(QueryByKeyNode), None, None, [], [], MetaOf([], key))
  }

  function NodeView(n: TxNode): DecodedNode
    requires NodeFormed(n)
  {
    var v := V1View(n);
    DecodedNode(StripBom(n.id), true, v.kind, v.exercise, v.create, v.children, v.values, v.partyMeta)
  }

  lemma ExerciseShape(n: TxNode)
    requires n.TxExercise? && NodeFormed(n)
    ensures GoodGroups(ExerciseGroups(n)) && |ExerciseGroups(n)| == 11
  {
    var gs := ExerciseGroups(n);
    Ascending4(gs[0], gs[1], gs[2], gs[3]);
    Ascending4(gs[4], gs[5], gs[6], gs[7]);
    Ascending3(gs[8], gs[9], gs[10]);
    GoodConcat([gs[0], gs[1], gs[2], gs[3]], [gs[4], gs[5], gs[6], gs[7]]);
    GoodConcat([gs[0], gs[1], gs[2], gs[3]] + [gs[4], gs[5], gs[6], gs[7]], [gs[8], gs[9], gs[10]]);
    assert gs == [gs[0], gs[1], gs[2], gs[3]] + [gs[4], gs[5], gs[6], gs[7]] + [gs[8], gs[9], gs[10]];
  }

  lemma Ascending3(a: Group, b: Group, c: Group)
    requires 0 < a.field < b.field < c.field < 0x2000_0000
    ensures GoodGroups([a, b, c])
  {}

  lemma Ascending4(a: Group, b: Group, c: Group, d: Group)
    requires 0 < a.field < b.field < c.field < d.field < 0x2000_0000
    ensures GoodGroups([a, b, c, d])
  {}

  lemma GoodConcat(a: seq<Group>, b: seq<Group>)
    requires GoodGroups(a) && GoodGroups(b) && a != [] && b != [] && a[|a| - 1].field < b[0].field
    ensures GoodGroups(a + b)
  {}

  lemma ExerciseLists(n: TxNode)
    requires n.TxExercise? && NodeFormed(n)
    ensures ListsAt(ExerciseGroups(n), [2, 3, 4, 9], [5, 6, 7, 14],
                    [n.signatories, n.stakeholders, n.acting, n.observers])
  {
  }

  lemma ExerciseMetaRead(n: TxNode)
    requires n.TxExercise? && NodeFormed(n) && GroupsFit(ExerciseGroups(n))
    ensures PartyMeta(Flatten(ExerciseGroups(n)), [5, 6, 7, 14], 15)
         == MetaRead([n.signatories, n.stakeholders, n.acting, n.observers], n.key)
  {
    ExerciseShape(n);
    ExerciseLists(n);
    PartyMetaRead(ExerciseGroups(n), [2, 3, 4, 9], [5, 6, 7, 14],
                  [n.signatories, n.stakeholders, n.acting, n.observers], 10, n.key);
  }

  /** Whatever sits in a group of a message that fits, fits. */
  lemma GroupFits(gs: seq<Group>, i: nat, b: Bytes)
    requires GroupsFit(gs) && i < |gs| && gs[i].bodies == [b]
    ensures Fits(b)
  {
    assert b in gs[i].bodies;
  }

  lemma ExerciseItselfRead(n: TxNode)
    requires n.TxExercise? && NodeFormed(n) && GroupsFit(ExerciseGroups(n))
    ensures ExerciseOf(Flatten(ExerciseGroups(n))) == Ok(V1View(n).exercise)
  {
    var gs := ExerciseGroups(n);
    GroupFits(gs, 1, Body(TemplateGroups(n.template)));
    TemplateRead(n.template);
    ExerciseNamesRead(n);
  }

  lemma ExerciseNamesRead(n: TxNode)
    requires n.TxExercise? && NodeFormed(n)
    ensures var fs := Flatten(ExerciseGroups(n));
            && LenUnique(fs, 9) == Ok(Some(n.choice)) && LenUnique(fs, 10) == Ok(Some(Encode(n.chosen)))
            && LenUnique(fs, 4) == Ok(Some(Body(TemplateGroups(n.template)))) && LenUnique(fs, 2) == Ok(Some(n.cid))
  {
    var gs := ExerciseGroups(n);
    ExerciseShape(n);
    SingleGroup(gs, 0, Some(n.cid));
    SingleGroup(gs, 1, Some(Body(TemplateGroups(n.template))));
    SingleGroup(gs, 5, Some(n.choice));
    SingleGroup(gs, 6, Some(Encode(n.chosen)));
  }

  lemma ExerciseValuesRead(n: TxNode)
    requires n.TxExercise? && NodeFormed(n) && GroupsFit(ExerciseGroups(n))
    ensures ExerciseValues(Flatten(ExerciseGroups(n))) == Ok(V1View(n).values)
    ensures StringFields(Flatten(ExerciseGroups(n)), 12) == Ok(V1View(n).children)
  {
    var gs := ExerciseGroups(n);
    ExerciseShape(n);
    SingleGroup(gs, 6, Some(Encode(n.chosen)));
    SingleGroup(gs, 8, OptEncode(n.result));
    TextGroup(gs, 7, n.children);
  }

  function Owed(n: TxNode): Result<V1Node>
    requires NodeFormed(n)
  {
    if KeyShallow(NodeKey(n)) then Ok(V1View(n)) else Err
  }

  lemma AssembleExercise(body: Bytes, fs: seq<WireField>, v: V1Node, meta: Result<seq<Bytes>>)
    requires Message(body) == Ok(fs) && ExerciseOf(fs) == Ok(v.exercise) && ExerciseValues(fs) == Ok(v.values)
    requires StringFields(fs, 12) == Ok(v.children) && PartyMeta(fs, [5, 6, 7, 14], 15) == meta
    requires v.kind == Some(ExerciseNode) && v.create == None && (meta.Ok? ==> meta.value == v.partyMeta)
    ensures ExerciseNodeOf(body) == if meta.Ok? then Ok(v) else Err
  {
  }

  lemma ExerciseRead(n: TxNode)
    requires n.TxExercise? && NodeFormed(n) && Fits(Body(ExerciseGroups(n)))
    ensures ExerciseNodeOf(Body(ExerciseGroups(n))) == Owed(n)
  {
    ExerciseShape(n);
    BodyRead(ExerciseGroups(n));
    ExerciseMetaRead(n);
    ExerciseItselfRead(n);
    ExerciseValuesRead(n);
    AssembleExercise(Body(ExerciseGroups(n)), Flatten(ExerciseGroups(n)), V1View(n),
                     MetaRead([n.signatories, n.stakeholders, n.acting, n.observers], n.key));
  }

  lemma ContractShape(c: Contract)
    requires ContractFormed(c)
    ensures GoodGroups(ContractGroups(c)) && |ContractGroups(c)| == 6
  {
    var gs := ContractGroups(c);
    Ascending3(gs[0], gs[1], gs[2]);
    Ascending3(gs[3], gs[4], gs[5]);
    GoodConcat([gs[0], gs[1], gs[2]], [gs[3], gs[4], gs[5]]);
    assert gs == [gs[0], gs[1], gs[2]] + [gs[3], gs[4], gs[5]];
  }

  lemma ContractFieldsRead(c: Contract)
    requires ContractFormed(c)
    ensures var fs := Flatten(ContractGroups(c));
            && LenUnique(fs, 2) == Ok(Some(c.cid)) && LenUnique(fs, 5) == Ok(Some(Encode(c.argument)))
            && LenUnique(fs, 4) == Ok(Some(Body(TemplateGroups(c.template))))
  {
    var gs := ContractGroups(c);
    ContractShape(c);
    SingleGroup(gs, 0, Some(c.cid));
    SingleGroup(gs, 1, Some(Body(TemplateGroups(c.template))));
    SingleGroup(gs, 2, Some(Encode(c.argument)));
  }

  lemma ContractListsRead(c: Contract)
    requires ContractFormed(c)
    ensures var fs := Flatten(ContractGroups(c));
            StringFields(fs, 6) == Ok(Shown(c.signatories)) && StringFields(fs, 7) == Ok(Shown(c.stakeholders))
  {
    var gs := ContractGroups(c);
    ContractShape(c);
    TextGroup(gs, 3, c.signatories);
    TextGroup(gs, 4, c.stakeholders);
  }

  lemma ContractMetaRead(c: Contract)
    requires ContractFormed(c) && GroupsFit(ContractGroups(c))
    ensures PartyMeta(Flatten(ContractGroups(c)), [6, 7], 8) == MetaRead([c.signatories, c.stakeholders], c.key)
  {
    ContractShape(c);
    PartyMetaRead(ContractGroups(c), [3, 4], [6, 7], [c.signatories, c.stakeholders], 5, c.key);
  }

  lemma ContractTemplateRead(c: Contract)
    requires ContractFormed(c) && GroupsFit(ContractGroups(c))
    ensures QualifiedName(Body(TemplateGroups(c.template))) == Ok(Some(TemplateName(c.template)))
  {
    GroupFits(ContractGroups(c), 1, Body(TemplateGroups(c.template)));
    TemplateRead(c.template);
  }

  lemma ContractOpens(c: Contract)
    requires ContractFormed(c) && Fits(Body(ContractGroups(c)))
    ensures Message(Body(ContractGroups(c))) == Ok(Flatten(ContractGroups(c))) && GroupsFit(ContractGroups(c))
  {
    ContractShape(c);
    BodyRead(ContractGroups(c));
  }

  lemma CreateRead(n: TxNode)
    requires n.TxCreate? && NodeFormed(n) && Fits(Body(ContractGroups(n.created)))
    ensures CreateNodeOf(Body(ContractGroups(n.created))) == Owed(n)
  {
    ContractOpens(n.created);
    ContractFieldsRead(n.created);
    ContractMetaRead(n.created);
    ContractTemplateRead(n.created);
  }

  lemma FetchRead(n: TxNode)
    requires n.TxFetch? && NodeFormed(n) && Fits(Body(FetchGroups(n)))
    ensures FetchNodeOf(Body(FetchGroups(n))) == Owed(n)
  {
    BodyRead(FetchGroups(n));
    PartyMetaRead(FetchGroups(n), [0, 1, 2], [5, 6, 7], [n.signatories, n.stakeholders, n.acting], 3, n.key);
  }

  lemma RollbackRead(n: TxNode)
    requires n.TxRollback? && Fits(Body([Group(1, Raw(n.children))]))
    ensures RollbackNodeOf(Body([Group(1, Raw(n.children))])) == Owed(n)
  {
    var gs := [Group(1, Raw(n.children))];
    BodyRead(gs);
    TextGroup(gs, 0, n.children);
  }

  lemma QueryRead(n: TxNode)
    requires n.TxQueryByKey? && NodeFormed(n) && Fits(Body([Group(5, KeyBodies(n.key))]))
    ensures QueryNodeOf(Body([Group(5, KeyBodies(n.key))])) == Owed(n)
  {
    var gs := [Group(5, KeyBodies(n.key))];
    BodyRead(gs);
    PartyMetaRead(gs, [], [], [], 0, n.key);
  }

  /** The body of the node-type member, read by its own reader. */
  lemma KindBodyRead(n: TxNode)
    requires NodeFormed(n) && Fits(KindGroup(n).bodies[0])
    ensures var body := KindGroup(n).bodies[0];
            && (n.TxExercise? ==> ExerciseNodeOf(body) == Owed(n))
            && (n.TxCreate? ==> CreateNodeOf(body) == Owed(n))
            && (n.TxFetch? ==> FetchNodeOf(body) == Owed(n))
            && (n.TxRollback? ==> RollbackNodeOf(body) == Owed(n))
            && (n.TxQueryByKey? ==> QueryNodeOf(body) == Owed(n))
  {
    if n.TxExercise? {
      ExerciseRead(n);
    } else if n.TxCreate? {
      CreateRead(n);
    } else if n.TxFetch? {
      FetchRead(n);
    } else if n.TxRollback? {
      RollbackRead(n);
    } else {
      QueryRead(n);
    }
  }

  /** A v1 node is read back whole, whichever of the five kinds it is. */
  lemma KindRead(n: TxNode)
    requires NodeFormed(n) && Fits(Body([KindGroup(n)]))
    ensures V1NodeOf(Body([KindGroup(n)])) == Owed(n)
  {
    var g := KindGroup(n);
    BodyRead([g]);
    GroupFits([g], 0, g.bodies[0]);
    OneKindPresent(g, n);
    KindBodyRead(n);
    AssembleKind(Body([g]), Flatten([g]), g.field, g.bodies[0]);
  }

  /** With one kind of node present, its own reader decides. */
  lemma AssembleKind(body: Bytes, fs: seq<WireField>, kind: nat, inner: Bytes)
    requires Message(body) == Ok(fs) && 1 <= kind <= 5
    requires LenUnique(fs, 1) == Ok(if kind == 1 then Some(inner) else None)
    requires LenUnique(fs, 2) == Ok(if kind == 2 then Some(inner) else None)
    requires LenUnique(fs, 3) == Ok(if kind == 3 then Some(inner) else None)
    requires LenUnique(fs, 4) == Ok(if kind == 4 then Some(inner) else None)
    requires LenUnique(fs, 5) == Ok(if kind == 5 then Some(inner) else None)
    ensures V1NodeOf(body)
         == if kind == 3 then ExerciseNodeOf(inner) else if kind == 1 then CreateNodeOf(inner)
            else if kind == 4 then RollbackNodeOf(inner) else if kind == 2 then FetchNodeOf(inner)
            else QueryNodeOf(inner)
  {
  }

  lemma OneKindPresent(g: Group, n: TxNode)
    requires NodeFormed(n) && g == KindGroup(n)
    ensures forall k: nat :: LenUnique(Flatten([g]), k) == Ok(if k == g.field then Some(g.bodies[0]) else None)
  {
    forall k: nat
      ensures LenUnique(Flatten([g]), k) == Ok(if k == g.field then Some(g.bodies[0]) else None)
    {
      if k == g.field {
        GroupRead([g], 0);
      } else {
        NoGroup([g], k);
      }
    }
  }

  lemma NodeOpens(n: TxNode)
    requires NodeFormed(n) && Fits(EncodeNode(n))
    ensures Message(EncodeNode(n)) == Ok(Flatten(NodeGroups(n)))
    ensures LenUnique(Flatten(NodeGroups(n)), 1) == Ok(Some(n.id))
    ensures LenUnique(Flatten(NodeGroups(n)), 1000) == Ok(Some(Body([KindGroup(n)])))
    ensures forall f <- Flatten(NodeGroups(n)) :: f.field == 1 || f.field == 1000
    ensures Fits(Body([KindGroup(n)]))
  {
    var gs := NodeGroups(n);
    BodyRead(gs);
    GroupsPlain(gs);
    SingleGroup(gs, 0, Some(n.id));
    SingleGroup(gs, 1, Some(Body([KindGroup(n)])));
    GroupFits(gs, 1, Body([KindGroup(n)]));
  }

  function NodeRead(n: TxNode): Result<DecodedNode>
    requires NodeFormed(n)
  {
    if KeyShallow(NodeKey(n)) then Ok(NodeView(n)) else Err
  }

  lemma AssembleNode(body: Bytes, fs: seq<WireField>, id: Str, v1: Bytes)
    requires Message(body) == Ok(fs) && LenUnique(fs, 1) == Ok(Some(id)) && LenUnique(fs, 1000) == Ok(Some(v1))
    requires forall f <- fs :: f.field == 1 || f.field == 1000
    ensures V1NodeOf(v1).Err? ==> NodeOf(body) == Err
    ensures V1NodeOf(v1).Ok? ==>
              var v := V1NodeOf(v1).value;
              NodeOf(body) == Ok(DecodedNode(StripBom(id), true, v.kind, v.exercise, v.create, v.children, v.values,
                                             v.partyMeta))
  {
  }

  /** Decoding an encoded node shows all of it; only a contract key nested too deep
      is refused. */
  lemma NodeRoundTrip(n: TxNode)
    requires NodeFormed(n) && Fits(EncodeNode(n))
    ensures NodeOf(EncodeNode(n)) == NodeRead(n)
  {
    NodeOpens(n);
    KindRead(n);
    AssembleNode(EncodeNode(n), Flatten(NodeGroups(n)), n.id, Body([KindGroup(n)]));
  }

  // -------------------------------------------------------------- lists of messages

  predicate NodesFormed(ns: seq<TxNode>) {
    forall i :: 0 <= i < |ns| ==> NodeFormed(ns[i])
  }

  function EncodeNodes(ns: seq<TxNode>): (r: seq<Bytes>)
    requires NodesFormed(ns)
    ensures |r| == |ns|
  {
    if ns == [] then [] else [EncodeNode(ns[0])] + EncodeNodes(ns[1..])
  }

  function NodeViews(ns: seq<TxNode>): (r: seq<DecodedNode>)
    requires NodesFormed(ns)
    ensures |r| == |ns|
    ensures forall i | 0 <= i < |ns| :: r[i] == NodeView(ns[i])
  {
    if ns == [] then [] else [NodeView(ns[0])] + NodeViews(ns[1..])
  }

  predicate NodesShallow(ns: seq<TxNode>) {
    ns != [] ==> KeyShallow(NodeKey(ns[0])) && NodesShallow(ns[1..])
  }

  lemma {:induction false} NodesRead(ns: seq<TxNode>)
    requires NodesFormed(ns) && forall b <- EncodeNodes(ns) :: Fits(b)
    ensures NodesOf(EncodeNodes(ns)) == if NodesShallow(ns) then Ok(NodeViews(ns)) else Err
  {
    if ns != [] {
      var all := EncodeNodes(ns);
      assert all[0] in all && all[1..] == EncodeNodes(ns[1..]) && forall b <- all[1..] :: b in all;
      NodeRoundTrip(ns[0]);
      NodesRead(ns[1..]);
    }
  }

  predicate ContractsFormed(cs: seq<Contract>) {
    forall i :: 0 <= i < |cs| ==> ContractFormed(cs[i])
  }

  function EncodeInput(c: Contract): Bytes
    requires ContractFormed(c)
  {
    Body([Group(1, [Body(ContractGroups(c))])])
  }

  function EncodeInputs(cs: seq<Contract>): (r: seq<Bytes>)
    requires ContractsFormed(cs)
    ensures |r| == |cs|
  {
    if cs == [] then [] else [EncodeInput(cs[0])] + EncodeInputs(cs[1..])
  }

  function ContractView(c: Contract): SeenContract
    requires ContractFormed(c)
  {
    SeenContract(
      InputContract(Some(StripBom(c.cid)), Some(TemplateName(c.template)), Some(Encode(c.argument)),
                    Shown(c.signatories), Shown(c.stakeholders)),
      MetaOf([c.signatories, c.stakeholders], c.key))
  }

  function ContractViews(cs: seq<Contract>): (r: seq<SeenContract>)
    requires ContractsFormed(cs)
    ensures |r| == |cs|
  {
    if cs == [] then [] else [ContractView(cs[0])] + ContractViews(cs[1..])
  }

  predicate ContractsShallow(cs: seq<Contract>) {
    cs != [] ==> KeyShallow(cs[0].key) && ContractsShallow(cs[1..])
  }

  lemma AssembleContract(body: Bytes, outer: seq<WireField>, inner: Bytes, fs: seq<WireField>, v: SeenContract,
                         template: Bytes, cid: Str)
    requires Message(body) == Ok(outer) && LenUnique(outer, 1) == Ok(Some(inner)) && Message(inner) == Ok(fs)
    requires LenUnique(fs, 5) == Ok(v.contract.argument) && LenUnique(fs, 4) == Ok(Some(template))
    requires StringFields(fs, 6) == Ok(v.contract.signatories) && StringFields(fs, 7) == Ok(v.contract.stakeholders)
    requires QualifiedName(template) == Ok(v.contract.template)
    requires LenUnique(fs, 2) == Ok(Some(cid)) && v.contract.contractId == Some(StripBom(cid))
    requires PartyMeta(fs, [6, 7], 8).Ok? ==> PartyMeta(fs, [6, 7], 8).value == v.partyMeta
    ensures ContractOf(body) == if PartyMeta(fs, [6, 7], 8).Ok? then Ok(v) else Err
  {
  }

  lemma ContractRoundTrip(c: Contract)
    requires ContractFormed(c) && Fits(EncodeInput(c))
    ensures ContractOf(EncodeInput(c)) == if KeyShallow(c.key) then Ok(ContractView(c)) else Err
  {
    var gs, inner := [Group(1, [Body(ContractGroups(c))])], Body(ContractGroups(c));
    BodyRead(gs);
    SingleGroup(gs, 0, Some(inner));
    GroupFits(gs, 0, inner);
    ContractOpens(c);
    ContractFieldsRead(c);
    ContractListsRead(c);
    ContractMetaRead(c);
    ContractTemplateRead(c);
    AssembleContract(EncodeInput(c), Flatten(gs), inner, Flatten(ContractGroups(c)), ContractView(c),
                     Body(TemplateGroups(c.template)), c.cid);
  }

  lemma {:induction false} ContractsRead(cs: seq<Contract>)
    requires ContractsFormed(cs) && forall b <- EncodeInputs(cs) :: Fits(b)
    ensures ContractsOf(EncodeInputs(cs)) == if ContractsShallow(cs) then Ok(ContractViews(cs)) else Err
  {
    if cs != [] {
      var all := EncodeInputs(cs);
      assert all[0] in all && all[1..] == EncodeInputs(cs[1..]) && forall b <- all[1..] :: b in all;
      ContractRoundTrip(cs[0]);
      ContractsRead(cs[1..]);
    }
  }

  // --------------------------------------------------------------------- metadata

  datatype Times = Times(
    preparation: Option<nat>, minLedgerEffective: Option<nat>, maxLedgerEffective: Option<nat>,
    maxRecord: Option<nat>)

  predicate TimesFormed(t: Times) {
    && (t.preparation.Some? ==> t.preparation.value < TWO_64)
    && (t.minLedgerEffective.Some? ==> t.minLedgerEffective.value < TWO_64)
    && (t.maxLedgerEffective.Some? ==> t.maxLedgerEffective.value < TWO_64)
    && (t.maxRecord.Some? ==> t.maxRecord.value < TWO_64)
  }

  function OptVarint(field: nat, n: Option<nat>): seq<WireField> {
    if n.Some? then [Varint(field, EncodeVarint(n.value))] else []
  }

  function TimeFields(t: Times): seq<WireField> {
    OptVarint(6, t.preparation) + (OptVarint(9, t.minLedgerEffective)
                                   + (OptVarint(10, t.maxLedgerEffective) + OptVarint(11, t.maxRecord)))
  }

  lemma {:induction false} VarintFieldsConcat(a: seq<WireField>, b: seq<WireField>, field: nat)
    ensures VarintFields(a + b, field) == VarintFields(a, field) + VarintFields(b, field)
  {
    if a == [] {
      assert a + b == b;
    } else {
      assert (a + b)[1..] == a[1..] + b;
      VarintFieldsConcat(a[1..], b, field);
    }
  }

  lemma {:induction false} NoVarints(fs: seq<WireField>, field: nat)
    requires forall f <- fs :: f.Len?
    ensures VarintFields(fs, field) == []
  {
    if fs != [] {
      NoVarints(fs[1..], field);
      assert fs[0] in fs;
    }
  }

  lemma OptVarintRead(field: nat, n: Option<nat>, asked: nat)
    ensures VarintFields(OptVarint(field, n), asked)
         == if n.Some? && field == asked then [EncodeVarint(n.value)] else []
    ensures LenFields(OptVarint(field, n), asked) == []
    ensures n.Some? && n.value < TWO_64 && 0 < field < 0x2000_0000 ==> forall f <- OptVarint(field, n) :: Plain(f)
  {
    if n.Some? {
      OneUnique(Varint(field, EncodeVarint(n.value)), asked);
      OneField(Varint(field, EncodeVarint(n.value)), asked);
      if n.value < TWO_64 {
        RawVarint(n.value);
      }
    }
  }

  /** The varints a field number selects among the four times. */
  lemma TimesSelect(t: Times, asked: nat)
    ensures LenFields(TimeFields(t), asked) == []
    ensures VarintFields(TimeFields(t), asked)
         == VarintFields(OptVarint(6, t.preparation), asked) + (VarintFields(OptVarint(9, t.minLedgerEffective), asked)
            + (VarintFields(OptVarint(10, t.maxLedgerEffective), asked)
               + VarintFields(OptVarint(11, t.maxRecord), asked)))
  {
    var a, b := OptVarint(6, t.preparation), OptVarint(9, t.minLedgerEffective);
    var c, d := OptVarint(10, t.maxLedgerEffective), OptVarint(11, t.maxRecord);
    VarintFieldsConcat(c, d, asked);
    VarintFieldsConcat(b, c + d, asked);
    VarintFieldsConcat(a, b + (c + d), asked);
    LenFieldsConcat(c, d, asked);
    LenFieldsConcat(b, c + d, asked);
    LenFieldsConcat(a, b + (c + d), asked);
    OptVarintRead(6, t.preparation, asked);
    OptVarintRead(9, t.minLedgerEffective, asked);
    OptVarintRead(10, t.maxLedgerEffective, asked);
    OptVarintRead(11, t.maxRecord, asked);
  }

  lemma TimesRead(lens: seq<WireField>, t: Times)
    requires TimesFormed(t) && forall f <- lens :: f.Len?
    ensures var fs := lens + TimeFields(t);
            && VarintUnique(fs, 6) == Ok(t.preparation) && VarintUnique(fs, 9) == Ok(t.minLedgerEffective)
            && VarintUnique(fs, 10) == Ok(t.maxLedgerEffective) && VarintUnique(fs, 11) == Ok(t.maxRecord)
  {
    TimeRead(lens, t, 6, t.preparation);
    TimeRead(lens, t, 9, t.minLedgerEffective);
    TimeRead(lens, t, 10, t.maxLedgerEffective);
    TimeRead(lens, t, 11, t.maxRecord);
  }

  lemma TimeRead(lens: seq<WireField>, t: Times, field: nat, n: Option<nat>)
    requires forall f <- lens :: f.Len?
    requires n.Some? ==> n.value < TWO_64
    requires (field == 6 && n == t.preparation) || (field == 9 && n == t.minLedgerEffective)
             || (field == 10 && n == t.maxLedgerEffective) || (field == 11 && n == t.maxRecord)
    ensures VarintUnique(lens + TimeFields(t), field) == Ok(n)
  {
    VarintFieldsConcat(lens, TimeFields(t), field);
    NoVarints(lens, field);
    TimesSelect(t, field);
    OptVarintRead(6, t.preparation, field);
    OptVarintRead(9, t.minLedgerEffective, field);
    OptVarintRead(10, t.maxLedgerEffective, field);
    OptVarintRead(11, t.maxRecord, field);
    if n.Some? {
      RawVarint(n.value);
    }
  }

  // ------------------------------------------------------------------- the whole

  datatype Tx = Tx(
    actAs: seq<Str>, synchronizer: Option<Str>, times: Times, inputs: seq<Contract>, roots: seq<Str>,
    nodes: seq<TxNode>)

  predicate TxFormed(tx: Tx) {
    TimesFormed(tx.times) && ContractsFormed(tx.inputs) && NodesFormed(tx.nodes)
  }

  function OptStr(s: Option<Str>): Option<Bytes> {
    if s.None? then None else Some(s.value)
  }

  function MetadataGroups(tx: Tx): seq<Group>
    requires TxFormed(tx)
  {
    [Group(2, [Body([Group(1, Raw(tx.actAs))])]), Group(3, OptList(OptStr(tx.synchronizer))),
     Group(7, EncodeInputs(tx.inputs))]
  }

  function MetadataFields(tx: Tx): seq<WireField>
    requires TxFormed(tx)
  {
    Flatten(MetadataGroups(tx)) + TimeFields(tx.times)
  }

  function TransactionGroups(tx: Tx): seq<Group>
    requires TxFormed(tx)
  {
    [Group(2, Raw(tx.roots)), Group(3, EncodeNodes(tx.nodes))]
  }

  function TxGroups(tx: Tx): seq<Group>
    requires TxFormed(tx)
  {
    [Group(1, [Body(TransactionGroups(tx))]), Group(2, [EncodeMessage(MetadataFields(tx))])]
  }

  function EncodeTx(tx: Tx): Bytes
    requires TxFormed(tx)
  {
    Body(TxGroups(tx))
  }

  function MetadataView(tx: Tx): Metadata
    requires TxFormed(tx)
  {
    Metadata(Shown(tx.actAs), if tx.synchronizer.None? then None else Some(StripBom(tx.synchronizer.value)),
             tx.times.preparation, tx.times.minLedgerEffective, tx.times.maxLedgerEffective, tx.times.maxRecord,
             ContractViews(tx.inputs))
  }

  /** What the decoder must show of a transaction: all of it. */
  function TxView(tx: Tx): DecodedPrepared
    requires TxFormed(tx)
  {
    var md := MetadataView(tx);
    DecodedPrepared(
      md.actAs, Shown(tx.roots), NodeViews(tx.nodes), md.synchronizerId, md.preparationTime,
      md.minLedgerEffectiveTime, md.maxLedgerEffectiveTime, md.maxRecordTime, ContractParties(md.contracts),
      ContractsSeen(md.contracts))
  }

  /** Within the decoder's bounds: roots, nodes, and the depth of contract keys. */
  predicate WithinBounds(tx: Tx) {
    |tx.roots| <= MAX_ROOTS && |tx.nodes| <= MAX_NODES && NodesShallow(tx.nodes) && ContractsShallow(tx.inputs)
  }

  lemma MetadataLens(tx: Tx)
    requires TxFormed(tx)
    ensures forall f <- Flatten(MetadataGroups(tx)) :: f.Len?
  {
    GroupsPlain(MetadataGroups(tx));
  }

  lemma PlainWithTimes(gs: seq<Group>, t: Times)
    requires GoodGroups(gs) && TimesFormed(t)
    ensures forall f <- Flatten(gs) + TimeFields(t) :: Plain(f)
    ensures forall f <- Flatten(gs) :: f.Len?
  {
    GroupsPlain(gs);
    TimesPlain(t);
    BothPlain(Flatten(gs), TimeFields(t));
  }

  lemma BothPlain(a: seq<WireField>, b: seq<WireField>)
    requires (forall f <- a :: Plain(f)) && forall f <- b :: Plain(f)
    ensures forall f <- a + b :: Plain(f)
  {}

  lemma TimesPlain(t: Times)
    requires TimesFormed(t)
    ensures forall f <- TimeFields(t) :: Plain(f)
  {
    OptVarintRead(6, t.preparation, 6);
    OptVarintRead(9, t.minLedgerEffective, 9);
    OptVarintRead(10, t.maxLedgerEffective, 10);
    OptVarintRead(11, t.maxRecord, 11);
    BothPlain(OptVarint(10, t.maxLedgerEffective), OptVarint(11, t.maxRecord));
    BothPlain(OptVarint(9, t.minLedgerEffective), OptVarint(10, t.maxLedgerEffective) + OptVarint(11, t.maxRecord));
    BothPlain(OptVarint(6, t.preparation),
              OptVarint(9, t.minLedgerEffective) + (OptVarint(10, t.maxLedgerEffective) + OptVarint(11, t.maxRecord)));
  }

  lemma MetadataOpens(tx: Tx)
    requires TxFormed(tx) && Fits(EncodeMessage(MetadataFields(tx)))
    ensures Message(EncodeMessage(MetadataFields(tx))) == Ok(MetadataFields(tx))
    ensures GroupsFit(MetadataGroups(tx))
  {
    TimedOpens(MetadataGroups(tx), tx.times);
  }

  lemma TimedOpens(gs: seq<Group>, t: Times)
    requires GoodGroups(gs) && TimesFormed(t) && Fits(EncodeMessage(Flatten(gs) + TimeFields(t)))
    ensures Message(EncodeMessage(Flatten(gs) + TimeFields(t))) == Ok(Flatten(gs) + TimeFields(t))
    ensures GroupsFit(gs)
  {
    var fs := Flatten(gs) + TimeFields(t);
    PlainWithTimes(gs, t);
    PlainRoundTrip(fs);
    GroupsPlain(gs);
    forall i, b | 0 <= i < |gs| && b in gs[i].bodies
      ensures Fits(b)
    {
      assert Len(gs[i].field, b) in fs;
    }
  }

  lemma MetadataLenRead(tx: Tx, i: nat)
    requires TxFormed(tx) && i < 3
    ensures LenFields(MetadataFields(tx), MetadataGroups(tx)[i].field) == MetadataGroups(tx)[i].bodies
  {
    MetadataShape(tx);
    TimedLenRead(MetadataGroups(tx), tx.times, i);
  }

  lemma MetadataShape(tx: Tx)
    requires TxFormed(tx)
    ensures GoodGroups(MetadataGroups(tx)) && |MetadataGroups(tx)| == 3
  {
    var gs := MetadataGroups(tx);
    Ascending3(gs[0], gs[1], gs[2]);
  }

  lemma TimedLenRead(gs: seq<Group>, t: Times, i: nat)
    requires GoodGroups(gs) && i < |gs|
    ensures LenFields(Flatten(gs) + TimeFields(t), gs[i].field) == gs[i].bodies
  {
    LenFieldsConcat(Flatten(gs), TimeFields(t), gs[i].field);
    GroupRead(gs, i);
    TimesSelect(t, gs[i].field);
  }

  lemma ActAsRead(tx: Tx)
    requires Fits(Body([Group(1, Raw(tx.actAs))]))
    ensures Message(Body([Group(1, Raw(tx.actAs))])) == Ok(Flatten([Group(1, Raw(tx.actAs))]))
    ensures StringFields(Flatten([Group(1, Raw(tx.actAs))]), 1) == Ok(Shown(tx.actAs))
  {
    BodyRead([Group(1, Raw(tx.actAs))]);
    TextGroup([Group(1, Raw(tx.actAs))], 0, tx.actAs);
  }

  lemma AssembleMetadata(body: Bytes, fs: seq<WireField>, si: Bytes, sifs: seq<WireField>, md: Metadata,
                         contracts: Result<seq<SeenContract>>)
    requires Message(body) == Ok(fs) && LenUnique(fs, 2) == Ok(Some(si)) && Message(si) == Ok(sifs)
    requires StringFields(sifs, 1) == Ok(md.actAs) && OptTextField(fs, 3) == Ok(md.synchronizerId)
    requires VarintUnique(fs, 6) == Ok(md.preparationTime) && VarintUnique(fs, 9) == Ok(md.minLedgerEffectiveTime)
    requires VarintUnique(fs, 10) == Ok(md.maxLedgerEffectiveTime) && VarintUnique(fs, 11) == Ok(md.maxRecordTime)
    requires ContractsOf(LenFields(fs, 7)) == contracts && (contracts.Ok? ==> contracts.value == md.contracts)
    ensures MetadataOf(Some(body)) == if contracts.Ok? then Ok(md) else Err
  {
  }

  lemma SynchronizerRead(tx: Tx, fs: seq<WireField>)
    requires LenFields(fs, 3) == OptList(OptStr(tx.synchronizer)) && TxFormed(tx)
    ensures OptTextField(fs, 3) == Ok(MetadataView(tx).synchronizerId)
  {
  }

  lemma MetadataNamesRead(tx: Tx)
    requires TxFormed(tx)
    ensures var fs := MetadataFields(tx);
            && LenFields(fs, 2) == [Body([Group(1, Raw(tx.actAs))])]
            && LenFields(fs, 3) == OptList(OptStr(tx.synchronizer))
            && LenFields(fs, 7) == EncodeInputs(tx.inputs)
  {
    MetadataLenRead(tx, 0);
    MetadataLenRead(tx, 1);
    MetadataLenRead(tx, 2);
  }

  lemma MetadataTimesRead(tx: Tx)
    requires TxFormed(tx)
    ensures var fs, md := MetadataFields(tx), MetadataView(tx);
            && VarintUnique(fs, 6) == Ok(md.preparationTime) && VarintUnique(fs, 9) == Ok(md.minLedgerEffectiveTime)
            && VarintUnique(fs, 10) == Ok(md.maxLedgerEffectiveTime)
            && VarintUnique(fs, 11) == Ok(md.maxRecordTime)
  {
    MetadataLens(tx);
    TimesRead(Flatten(MetadataGroups(tx)), tx.times);
  }

  lemma MetadataRead(tx: Tx)
    requires TxFormed(tx) && Fits(EncodeMessage(MetadataFields(tx)))
    ensures MetadataOf(Some(EncodeMessage(MetadataFields(tx))))
         == if ContractsShallow(tx.inputs) then Ok(MetadataView(tx)) else Err
  {
    var si := [Group(1, Raw(tx.actAs))];
    MetadataOpens(tx);
    GroupFits(MetadataGroups(tx), 0, Body(si));
    ActAsRead(tx);
    MetadataNamesRead(tx);
    SynchronizerRead(tx, MetadataFields(tx));
    MetadataTimesRead(tx);
    InputsRead(tx);
    AssembleMetadata(EncodeMessage(MetadataFields(tx)), MetadataFields(tx), Body(si), Flatten(si), MetadataView(tx),
                     ContractsOf(EncodeInputs(tx.inputs)));
  }

  lemma InputsRead(tx: Tx)
    requires TxFormed(tx) && GroupsFit(MetadataGroups(tx))
    ensures ContractsOf(EncodeInputs(tx.inputs))
         == if ContractsShallow(tx.inputs) then Ok(ContractViews(tx.inputs)) else Err
  {
    assert forall b <- MetadataGroups(tx)[2].bodies :: Fits(b);
    ContractsRead(tx.inputs);
  }

  lemma TransactionRead(tx: Tx)
    requires TxFormed(tx) && Fits(Body(TransactionGroups(tx)))
    ensures var fs := Flatten(TransactionGroups(tx));
            && Message(Body(TransactionGroups(tx))) == Ok(fs)
            && StringFields(fs, 2) == Ok(Shown(tx.roots)) && LenFields(fs, 3) == EncodeNodes(tx.nodes)
    ensures NodesOf(EncodeNodes(tx.nodes))
         == if NodesShallow(tx.nodes) then Ok(NodeViews(tx.nodes)) else Err
  {
    var gs := TransactionGroups(tx);
    BodyRead(gs);
    TextGroup(gs, 0, tx.roots);
    GroupRead(gs, 1);
    assert forall b <- gs[1].bodies :: Fits(b);
    NodesRead(tx.nodes);
  }

  lemma AssembleTx(bytes: Bytes, top: seq<WireField>, t: Bytes, m: Bytes, dt: seq<WireField>, roots: seq<Bytes>)
    requires bytes != [] && Message(bytes) == Ok(top)
    requires LenUnique(top, 1) == Ok(Some(t)) && LenUnique(top, 2) == Ok(Some(m))
    requires Message(t) == Ok(dt) && StringFields(dt, 2) == Ok(roots)
    ensures var md, nodes := MetadataOf(Some(m)), NodesOf(LenFields(dt, 3));
            PreparedOf(bytes)
            == if md.Err? || |roots| > MAX_ROOTS || |LenFields(dt, 3)| > MAX_NODES || nodes.Err? then Err
               else Ok(DecodedPrepared(
                         md.value.actAs, roots, nodes.value, md.value.synchronizerId, md.value.preparationTime,
                         md.value.minLedgerEffectiveTime, md.value.maxLedgerEffectiveTime, md.value.maxRecordTime,
                         ContractParties(md.value.contracts), ContractsSeen(md.value.contracts)))
  {
  }

  lemma TxOpens(tx: Tx)
    requires TxFormed(tx) && Fits(EncodeTx(tx))
    ensures var top, t, m := Flatten(TxGroups(tx)), Body(TransactionGroups(tx)), EncodeMessage(MetadataFields(tx));
            && EncodeTx(tx) != [] && Message(EncodeTx(tx)) == Ok(top)
            && LenUnique(top, 1) == Ok(Some(t)) && LenUnique(top, 2) == Ok(Some(m)) && Fits(t) && Fits(m)
  {
    TwoOpen(Body(TransactionGroups(tx)), EncodeMessage(MetadataFields(tx)));
  }

  /** A message of two single fields. */
  lemma TwoOpen(t: Bytes, m: Bytes)
    requires Fits(Body([Group(1, [t]), Group(2, [m])]))
    ensures var gs := [Group(1, [t]), Group(2, [m])];
            && Body(gs) != [] && Message(Body(gs)) == Ok(Flatten(gs))
            && LenUnique(Flatten(gs), 1) == Ok(Some(t)) && LenUnique(Flatten(gs), 2) == Ok(Some(m))
            && Fits(t) && Fits(m)
  {
    var gs := [Group(1, [t]), Group(2, [m])];
    BodyRead(gs);
    SingleGroup(gs, 0, Some(t));
    SingleGroup(gs, 1, Some(m));
    GroupFits(gs, 0, t);
    GroupFits(gs, 1, m);
    assert Message([]) == Ok([]) && LenFields([], 1) == [];
  }

  /** Decoding the encoding of any prepared transaction within the bounds shows every
      node, every value, every party list and every input contract of it; any other is
      refused. */
  lemma TxRoundTrip(tx: Tx)
    requires TxFormed(tx) && Fits(EncodeTx(tx))
    ensures PreparedOf(EncodeTx(tx)) == if WithinBounds(tx) then Ok(TxView(tx)) else Err
  {
    TxOpens(tx);
    TransactionRead(tx);
    MetadataRead(tx);
    AssembleTx(EncodeTx(tx), Flatten(TxGroups(tx)), Body(TransactionGroups(tx)), EncodeMessage(MetadataFields(tx)),
               Flatten(TransactionGroups(tx)), Shown(tx.roots));
  }
}
