/** The node-graph check: one root, the allowed exercise, nothing unrecognised,
    nothing dangling and nothing unreachable. */
module NodeGraph {
  import opened Results
  import opened Wire
  import opened Decoded

  /** A choice allowed as a consequence: on any template, or on the listed ones. */
  datatype Rule = AnyTemplate(choiceId: Bytes) | Pinned(choiceId: Bytes, templates: seq<Bytes>)

  predicate Satisfies(ex: DecodedExercise, rule: Rule) {
    && rule.choiceId == ex.choiceId
    && (rule.Pinned? ==> ex.template.Some? && ex.template.value in rule.templates)
  }

  predicate AllowedConsequence(ex: DecodedExercise, rules: seq<Rule>) {
    exists rule <- rules :: Satisfies(ex, rule)
  }

  // ------------------------------------------------------------ what is accepted

  predicate FullyDecoded(n: DecodedNode) {
    n.recognizedVersion && n.kind.Some? && (n.kind.value.ExerciseNode? ==> n.exercise.Some?)
  }

  predicate DistinctIds(nodes: seq<DecodedNode>) {
    forall i, j :: 0 <= i < j < |nodes| ==> nodes[i].nodeId != nodes[j].nodeId
  }

  ghost predicate HasNode(nodes: seq<DecodedNode>, id: Bytes) {
    exists n <- nodes :: n.nodeId == id
  }

  ghost predicate Edge(nodes: seq<DecodedNode>, a: Bytes, b: Bytes) {
    exists n <- nodes :: n.nodeId == a && b in n.children
  }

  ghost predicate IsPath(nodes: seq<DecodedNode>, p: seq<Bytes>) {
    |p| > 0 && forall i :: 0 <= i < |p| - 1 ==> Edge(nodes, p[i], p[i + 1])
  }

  ghost predicate Reaches(nodes: seq<DecodedNode>, a: Bytes, b: Bytes) {
    exists p :: IsPath(nodes, p) && p[0] == a && p[|p| - 1] == b
  }

  /** The root exercises the allowed choice; every other exercise is a permitted
      consequence of another choice. */
  predicate OnlyRootIsAllowed(nodes: seq<DecodedNode>, root: Bytes, allowed: Bytes, rules: seq<Rule>) {
    && (exists n <- nodes :: n.nodeId == root && IsExercise(n) && n.exercise.value.choiceId == allowed)
    && (forall n <- nodes | IsExercise(n) && n.nodeId != root ::
          n.exercise.value.choiceId != allowed && AllowedConsequence(n.exercise.value, rules))
  }

  ghost predicate SoleAllowedTree(d: DecodedPrepared, allowed: Bytes, rules: seq<Rule>) {
    && |d.roots| == 1
    && DistinctIds(d.nodes)
    && (forall n <- d.nodes :: FullyDecoded(n))
    && OnlyRootIsAllowed(d.nodes, d.roots[0], allowed, rules)
    && (forall n <- d.nodes, c <- n.children :: HasNode(d.nodes, c))
    && (forall n <- d.nodes :: Reaches(d.nodes, d.roots[0], n.nodeId))
  }

  // ----------------------------------------------------------------- reachability

  lemma ReachesSelf(nodes: seq<DecodedNode>, a: Bytes)
    ensures Reaches(nodes, a, a)
  {
    assert IsPath(nodes, [a]);
  }

  lemma ReachesNext(nodes: seq<DecodedNode>, a: Bytes, b: Bytes, c: Bytes)
    requires Reaches(nodes, a, b) && Edge(nodes, b, c)
    ensures Reaches(nodes, a, c)
  {
    var p :| IsPath(nodes, p) && p[0] == a && p[|p| - 1] == b;
    assert IsPath(nodes, p + [c]);
  }

  /** A set that holds the start and is closed under edges holds all that is reached. */
  lemma ClosedHoldsReached(nodes: seq<DecodedNode>, s: set<Bytes>, a: Bytes, b: Bytes)
    requires a in s && Reaches(nodes, a, b)
    requires forall x, y :: x in s && Edge(nodes, x, y) ==> y in s
    ensures b in s
  {
    var p :| IsPath(nodes, p) && p[0] == a && p[|p| - 1] == b;
    PathStaysIn(nodes, s, p, |p| - 1);
  }

  lemma PathStaysIn(nodes: seq<DecodedNode>, s: set<Bytes>, p: seq<Bytes>, k: nat)
    requires IsPath(nodes, p) && p[0] in s && k < |p|
    requires forall x, y :: x in s && Edge(nodes, x, y) ==> y in s
    ensures p[k] in s
  {
    if k > 0 {
      PathStaysIn(nodes, s, p, k - 1);
    }
  }

  // -------------------------------------------------------------------- the checks

  ghost predicate Indexes(byId: map<Bytes, DecodedNode>, nodes: seq<DecodedNode>) {
    && (forall n <- nodes :: n.nodeId in byId && byId[n.nodeId] == n)
    && (forall id <- byId :: byId[id] in nodes && byId[id].nodeId == id)
  }

  method IndexById(nodes: seq<DecodedNode>) returns (ok: bool, byId: map<Bytes, DecodedNode>)
    ensures ok <==> DistinctIds(nodes)
    ensures ok ==> Indexes(byId, nodes)
  {
    byId := map[];
    for i := 0 to |nodes|
      invariant DistinctIds(nodes[..i]) && Indexes(byId, nodes[..i])
    {
      var n := nodes[i];
      assert nodes[..i + 1] == nodes[..i] + [n];
      if n.nodeId in byId {
        assert byId[n.nodeId] in nodes[..i];
        return false, byId;
      }
      byId := byId[n.nodeId := n];
    }
    assert nodes[..|nodes|] == nodes;
    ok := true;
  }

  /** What the worklist keeps: everything seen is reached from the root, and every
      child of a visited node has been visited or waits on the stack. */
  ghost predicate Worklist(nodes: seq<DecodedNode>, byId: map<Bytes, DecodedNode>, root: Bytes,
                           reachable: set<Bytes>, stack: seq<Bytes>)
  {
    && Indexes(byId, nodes)
    && (root in reachable || root in stack)
    && reachable <= byId.Keys
    && (forall id <- reachable :: Reaches(nodes, root, id))
    && (forall id <- stack :: Reaches(nodes, root, id))
    && (forall x <- reachable, y <- byId[x].children :: y in reachable || y in stack)
  }

  lemma SkipVisited(nodes: seq<DecodedNode>, byId: map<Bytes, DecodedNode>, root: Bytes,
                    reachable: set<Bytes>, stack: seq<Bytes>, id: Bytes)
    requires Worklist(nodes, byId, root, reachable, stack + [id]) && id in reachable
    ensures Worklist(nodes, byId, root, reachable, stack)
  {
    assert forall x <- stack :: x in stack + [id];
  }

  lemma Visit(nodes: seq<DecodedNode>, byId: map<Bytes, DecodedNode>, root: Bytes,
              reachable: set<Bytes>, stack: seq<Bytes>, id: Bytes)
    requires Worklist(nodes, byId, root, reachable, stack + [id]) && id in byId
    ensures Worklist(nodes, byId, root, reachable + {id}, stack + byId[id].children)
  {
    assert id in stack + [id] && forall x <- stack :: x in stack + [id];
    forall c | c in byId[id].children
      ensures Reaches(nodes, root, c)
    {
      assert Edge(nodes, id, c);
      ReachesNext(nodes, root, id, c);
    }
  }

  lemma WorkDone(nodes: seq<DecodedNode>, byId: map<Bytes, DecodedNode>, root: Bytes, reachable: set<Bytes>)
    requires Worklist(nodes, byId, root, reachable, [])
    ensures forall id :: id in reachable <==> Reaches(nodes, root, id)
  {
    forall x, y | x in reachable && Edge(nodes, x, y)
      ensures y in reachable
    {
      assert byId[x].nodeId == x;
    }
    forall id | Reaches(nodes, root, id)
      ensures id in reachable
    {
      ClosedHoldsReached(nodes, reachable, root, id);
    }
  }

  /** The worklist from the root. It fails exactly when something reachable does not
      exist, and otherwise computes the whole reachable set, cyclic or not. */
  method ReachableFrom(nodes: seq<DecodedNode>, byId: map<Bytes, DecodedNode>, root: Bytes)
    returns (ok: bool, reachable: set<Bytes>)
    requires Indexes(byId, nodes)
    ensures ok <==> forall id | Reaches(nodes, root, id) :: id in byId
    ensures ok ==> forall id :: id in reachable <==> Reaches(nodes, root, id)
  {
    reachable := {};
    var stack := [root];
    ReachesSelf(nodes, root);
    while stack != []
      invariant Worklist(nodes, byId, root, reachable, stack)
      decreases |byId.Keys - reachable|, |stack|
    {
      var id := stack[|stack| - 1];
      assert stack == stack[..|stack| - 1] + [id];
      stack := stack[..|stack| - 1];
      if id in reachable {
        SkipVisited(nodes, byId, root, reachable, stack, id);
      } else {
        if id !in byId {
          return false, reachable;
        }
        Visit(nodes, byId, root, reachable, stack, id);
        assert byId.Keys - (reachable + {id}) < byId.Keys - reachable;
        SmallerSet(byId.Keys - (reachable + {id}), byId.Keys - reachable);
        reachable := reachable + {id};
        stack := stack + byId[id].children;
      }
    }
    WorkDone(nodes, byId, root, reachable);
    ok := true;
  }

  lemma SmallerSet<T>(a: set<T>, b: set<T>)
    requires a < b
    ensures |a| < |b|
  {
    assert b == a + (b - a);
  }

  method IsAllowedConsequence(ex: DecodedExercise, rules: seq<Rule>) returns (ok: bool)
    ensures ok <==> AllowedConsequence(ex, rules)
  {
    for i := 0 to |rules|
      invariant !exists rule <- rules[..i] :: Satisfies(ex, rule)
    {
      var rule := rules[i];
      if rule.choiceId == ex.choiceId {
        if rule.AnyTemplate? || (ex.template.Some? && ex.template.value in rule.templates) {
          assert Satisfies(ex, rule) && rule in rules;
          return true;
        }
      }
    }
    assert rules[..|rules|] == rules;
    ok := false;
  }

  function Exercises(nodes: seq<DecodedNode>): seq<DecodedExercise> {
    if nodes == [] then []
    else (if IsExercise(nodes[0]) then [nodes[0].exercise.value] else []) + Exercises(nodes[1..])
  }

  function CountChoice(exs: seq<DecodedExercise>, choice: Bytes): nat {
    if exs == [] then 0 else (if exs[0].choiceId == choice then 1 else 0) + CountChoice(exs[1..], choice)
  }

  /** The exercise-count contract over the flat list of decoded exercises. */
  method CountExercises(nodes: seq<DecodedNode>, allowed: Bytes, rules: seq<Rule>) returns (ok: bool)
    ensures ok <==> CountChoice(Exercises(nodes), allowed) == 1
                    && forall ex <- Exercises(nodes) ::
                         ex.choiceId == allowed || AllowedConsequence(ex, rules)
  {
    var exs := Exercises(nodes);
    var unexpected := false;
    for i := 0 to |exs|
      invariant unexpected <==> exists ex <- exs[..i] :: ex.choiceId != allowed && !AllowedConsequence(ex, rules)
    {
      assert exs[..i + 1] == exs[..i] + [exs[i]];
      if exs[i].choiceId != allowed {
        var fine := IsAllowedConsequence(exs[i], rules);
        unexpected := unexpected || !fine;
      }
    }
    assert exs[..|exs|] == exs;
    ok := CountChoice(exs, allowed) == 1 && !unexpected;
  }

  /** With distinct ids, one allowed exercise in the flat list is one allowed
      exercise node. */
  lemma {:induction false} ExercisesOfNodes(nodes: seq<DecodedNode>)
    ensures forall n <- nodes | IsExercise(n) :: n.exercise.value in Exercises(nodes)
    ensures forall ex <- Exercises(nodes) :: exists n <- nodes :: IsExercise(n) && n.exercise.value == ex
  {
    if nodes != [] {
      ExercisesOfNodes(nodes[1..]);
      forall ex | ex in Exercises(nodes)
        ensures exists n <- nodes :: IsExercise(n) && n.exercise.value == ex
      {
        if ex in Exercises(nodes[1..]) {
          var n :| n in nodes[1..] && IsExercise(n) && n.exercise.value == ex;
          assert n in nodes;
        } else {
          assert nodes[0] in nodes;
        }
      }
    }
  }

  lemma {:induction false} CountZero(nodes: seq<DecodedNode>, choice: Bytes)
    ensures CountChoice(Exercises(nodes), choice) == 0
            <==> forall n <- nodes | IsExercise(n) :: n.exercise.value.choiceId != choice
  {
    if nodes != [] {
      CountZero(nodes[1..], choice);
      CountHead(nodes, choice);
      assert nodes[0] in nodes && forall n <- nodes[1..] :: n in nodes;
      assert forall n <- nodes :: n == nodes[0] || n in nodes[1..];
    }
  }

  predicate Chooses(n: DecodedNode, choice: Bytes) {
    IsExercise(n) && n.exercise.value.choiceId == choice
  }

  lemma CountHead(nodes: seq<DecodedNode>, choice: Bytes)
    requires nodes != []
    ensures CountChoice(Exercises(nodes), choice)
         == (if Chooses(nodes[0], choice) then 1 else 0) + CountChoice(Exercises(nodes[1..]), choice)
  {
    if IsExercise(nodes[0]) {
      assert Exercises(nodes)[1..] == Exercises(nodes[1..]);
    } else {
      assert Exercises(nodes) == Exercises(nodes[1..]);
    }
  }

  /** Given one exercise node of the choice, it is the only one exactly when the
      flat list counts one. */
  lemma {:induction false} CountOne(nodes: seq<DecodedNode>, root: Bytes, choice: Bytes)
    requires DistinctIds(nodes)
    requires exists n <- nodes :: n.nodeId == root && Chooses(n, choice)
    ensures CountChoice(Exercises(nodes), choice) == 1
            <==> forall n <- nodes | IsExercise(n) && n.nodeId != root :: n.exercise.value.choiceId != choice
  {
    var tail := nodes[1..];
    CountHead(nodes, choice);
    CountZero(tail, choice);
    assert nodes[0] in nodes && forall n <- tail :: n in nodes;
    assert forall n <- nodes :: n == nodes[0] || n in tail;
    assert forall n <- tail :: n.nodeId != nodes[0].nodeId;
    if nodes[0].nodeId != root {
      CountOne(tail, root, choice);
    }
  }

  method AllFullyDecoded(nodes: seq<DecodedNode>) returns (ok: bool)
    ensures ok <==> forall n <- nodes :: FullyDecoded(n)
  {
    for i := 0 to |nodes|
      invariant forall n <- nodes[..i] :: FullyDecoded(n)
    {
      var n := nodes[i];
      if !n.recognizedVersion || n.kind.None? || (n.kind == Some(ExerciseNode) && n.exercise.None?) {
        assert n in nodes;
        return false;
      }
      assert nodes[..i + 1] == nodes[..i] + [n];
    }
    assert nodes[..|nodes|] == nodes;
    ok := true;
  }

  /** Accepts exactly the transactions that are one tree under the one allowed
      exercise, and returns that exercise and its node id. */
  method AssertSingleAllowedRootExercise(d: DecodedPrepared, allowed: Bytes, rules: seq<Rule>)
    returns (r: Result<(DecodedExercise, Bytes)>)
    ensures r.Ok? <==> SoleAllowedTree(d, allowed, rules)
    ensures r.Ok? ==> RootIs(d, r.value.0, r.value.1)
  {
    r := Err;
    var counted := CountExercises(d.nodes, allowed, rules);
    var decoded := AllFullyDecoded(d.nodes);
    var distinct, byId := IndexById(d.nodes);
    if |d.roots| == 1 && distinct {
      var rootId := d.roots[0];
      var rooted := rootId in byId && IsExercise(byId[rootId]) && byId[rootId].exercise.value.choiceId == allowed;
      RootedByIndex(d.nodes, byId, rootId, allowed, rules);
      if counted && decoded && rooted {
        var whole := WholeGraphReached(d.nodes, byId, rootId);
        if whole {
          r := Ok((byId[rootId].exercise.value, rootId));
        }
      }
    }
  }

  ghost predicate RootIs(d: DecodedPrepared, ex: DecodedExercise, rootId: Bytes) {
    && d.roots == [rootId]
    && exists n <- d.nodes :: n.nodeId == rootId && IsExercise(n) && n.exercise.value == ex
  }

  lemma RootedByIndex(nodes: seq<DecodedNode>, byId: map<Bytes, DecodedNode>, root: Bytes, allowed: Bytes,
                      rules: seq<Rule>)
    requires DistinctIds(nodes) && Indexes(byId, nodes)
    ensures OnlyRootIsAllowed(nodes, root, allowed, rules)
            <==> && root in byId && Chooses(byId[root], allowed)
                 && CountChoice(Exercises(nodes), allowed) == 1
                 && forall ex <- Exercises(nodes) :: ex.choiceId == allowed || AllowedConsequence(ex, rules)
  {
    ExercisesOfNodes(nodes);
    if root in byId && Chooses(byId[root], allowed) {
      CountOne(nodes, root, allowed);
    }
  }

  lemma CompleteMeansNoDangling(nodes: seq<DecodedNode>, byId: map<Bytes, DecodedNode>, root: Bytes)
    requires Indexes(byId, nodes) && root in byId
    requires forall n <- nodes :: Reaches(nodes, root, n.nodeId)
    ensures (forall id | Reaches(nodes, root, id) :: id in byId)
            <==> forall n <- nodes, c <- n.children :: HasNode(nodes, c)
  {
    if forall id | Reaches(nodes, root, id) :: id in byId {
      forall n, c | n in nodes && c in n.children
        ensures HasNode(nodes, c)
      {
        assert Edge(nodes, n.nodeId, c);
        ReachesNext(nodes, root, n.nodeId, c);
        assert byId[c] in nodes;
      }
    }
    if forall n <- nodes, c <- n.children :: HasNode(nodes, c) {
      forall id | Reaches(nodes, root, id)
        ensures id in byId
      {
        var p :| IsPath(nodes, p) && p[0] == root && p[|p| - 1] == id;
        if |p| > 1 {
          var a := p[|p| - 2];
          assert Edge(nodes, a, p[|p| - 2 + 1]);
          var n :| n in nodes && n.nodeId == a && id in n.children;
          assert HasNode(nodes, id);
        }
      }
    }
  }

  /** Every node hangs from the root and every child exists. */
  method WholeGraphReached(nodes: seq<DecodedNode>, byId: map<Bytes, DecodedNode>, root: Bytes) returns (ok: bool)
    requires Indexes(byId, nodes) && root in byId
    ensures ok <==> && (forall n <- nodes, c <- n.children :: HasNode(nodes, c))
                    && (forall n <- nodes :: Reaches(nodes, root, n.nodeId))
  {
    var complete, reachable := ReachableFrom(nodes, byId, root);
    var orphans := exists n <- nodes :: n.nodeId !in reachable;
    if forall n <- nodes :: Reaches(nodes, root, n.nodeId) {
      CompleteMeansNoDangling(nodes, byId, root);
    }
    ok := complete && !orphans;
  }
}
