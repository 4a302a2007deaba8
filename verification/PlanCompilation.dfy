/** Whole programs: targets, statements, and what running them leaves behind.
    Models `compile` of ontology_core/relational_compiler.py and `target_for` of ontology_core/program_compiler.py. */
module PlanCompilation {
  import opened SeqOps
  import opened Sql
  import opened RelationalPlan
  import opened RelationalCompiler
  import opened CteChain

  // ----- node positions -----

  function IndexOf(nodes: seq<Node>, id: NodeId): (k: nat)
    ensures k <= |nodes|
    ensures k < |nodes| ==> nodes[k].id == id
    ensures forall j :: 0 <= j < k ==> nodes[j].id != id
  {
    if nodes == [] then 0 else if nodes[0].id == id then 0 else 1 + IndexOf(nodes[1..], id)
  }

  /** What validation guarantees of the order of nodes. */
  ghost predicate UpstreamFirst(nodes: seq<Node>) {
    && (forall i, j :: 0 <= i < j < |nodes| ==> nodes[i].id != nodes[j].id)
    && (forall k, d :: 0 <= k < |nodes| && d in Dependencies(nodes[k]) ==> IndexOf(nodes, d) < k)
  }

  ghost predicate DistinctJoinInputs(nodes: seq<Node>) {
    forall k :: 0 <= k < |nodes| && nodes[k].JoinNode? ==> nodes[k].left != nodes[k].right
  }

  /** The denotation of one node satisfies the node's own equation. */
  ghost predicate Solves(node: Node, objects: seq<TableObject>, world: World, env: map<NodeId, Rel>) {
    && node.id in env && WellFormed(node)
    && (forall d :: d in Dependencies(node) ==> d in env)
    && ValidateNode(node, objects, Schemas(env)) == Some(env[node.id].schema)
    && env[node.id].rows == NodeRows(node, objects, world, env)
  }

  ghost predicate Fixpoint(nodes: seq<Node>, objects: seq<TableObject>, world: World, env: map<NodeId, Rel>) {
    forall k {:trigger Solves(nodes[k], objects, world, env)} ::
        0 <= k < |nodes| ==> Solves(nodes[k], objects, world, env)
  }

  lemma AcceptedHasDependencies(node: Node, objects: seq<TableObject>, schemas: map<NodeId, Schema>)
    requires ValidateNode(node, objects, schemas).Some?
    ensures forall d :: d in Dependencies(node) ==> d in schemas
  {
    if node.UnionNode? {
      FirstOccurrencesKeepsMembers(node.inputs);
    }
  }

  lemma {:induction false} CollectMore(outputs: seq<Output>, more: seq<Output>)
    requires Collect(outputs).Some? && |more| == |outputs|
    requires forall i :: 0 <= i < |outputs| ==>
               more[i].name == outputs[i].name && (outputs[i].dtype.Some? ==> more[i].dtype == outputs[i].dtype)
    ensures Collect(more) == Collect(outputs)
  {
    if outputs != [] {
      CollectMore(outputs[..|outputs| - 1], more[..|more| - 1]);
    }
  }

  lemma UnionOutputMore(u: UnionColumn, inputs: seq<NodeId>, small: map<NodeId, Schema>, large: map<NodeId, Schema>)
    requires forall id :: id in small ==> id in large && large[id] == small[id]
    requires forall i :: i in inputs ==> i in small
    requires UnionOutput(u, inputs, small).dtype.Some?
    ensures UnionOutput(u, inputs, large) == UnionOutput(u, inputs, small)
  {
    forall s | s in u.sources ensures s.node in small {
      var i :| 0 <= i < |u.sources| && u.sources[i] == s;
      assert Map((s: LogicalRef) => s.node, u.sources)[i] in inputs;
    }
  }

  /** Nodes added later cannot change the verdict on an accepted node. */
  lemma UnionMore(united: seq<UnionColumn>, inputs: seq<NodeId>, small: map<NodeId, Schema>, large: map<NodeId, Schema>)
    requires forall id :: id in small ==> id in large && large[id] == small[id]
    requires (forall i :: i in inputs ==> i in small) && Collect(UnionOutputs(united, inputs, small)).Some?
    ensures Collect(UnionOutputs(united, inputs, large)) == Collect(UnionOutputs(united, inputs, small))
  {
    hide Collect;
    var outputs := UnionOutputs(united, inputs, small);
    forall i | 0 <= i < |united|
        ensures UnionOutput(united[i], inputs, large) == UnionOutput(united[i], inputs, small) {
      CollectedTypes(outputs, i);
      UnionOutputMore(united[i], inputs, small, large);
    }
    CollectMore(outputs, UnionOutputs(united, inputs, large));
  }

  lemma JoinMore(columns: seq<DerivedColumn>, left: NodeId, right: NodeId, joinType: JoinType,
          small: map<NodeId, Schema>, large: map<NodeId, Schema>)
    requires forall id :: id in small ==> id in large && large[id] == small[id]
    requires left in small && right in small && Collect(JoinOutputs(columns, left, right, joinType, small)).Some?
    ensures Collect(JoinOutputs(columns, left, right, joinType, large))
            == Collect(JoinOutputs(columns, left, right, joinType, small))
  {
    hide Collect;
    CollectMore(JoinOutputs(columns, left, right, joinType, small),
                JoinOutputs(columns, left, right, joinType, large));
  }

  lemma ValidateMore(node: Node, objects: seq<TableObject>, small: map<NodeId, Schema>, large: map<NodeId, Schema>)
    requires forall id :: id in small ==> id in large && large[id] == small[id]
    requires ValidateNode(node, objects, small).Some?
    ensures ValidateNode(node, objects, large) == ValidateNode(node, objects, small)
  {
    hide Collect, UnionOutput, JoinOutput, DirectOutputs, AggregateOutputs, ScanOutputs, LeavesDirect;
    match node
    case ScanNode(_, _, _) =>
    case UnionNode(_, inputs, united) =>
      UnionMore(united, inputs, small, large);
    case JoinNode(_, left, right, joinType, _, _, _, columns) =>
      JoinMore(columns, left, right, joinType, small, large);
    case FilterNode(_, _, _) =>
    case ProjectNode(_, _, _) =>
    case AggregateNode(_, _, _, _) =>
    case MaterializeNode(_, _, _) =>
  }

  lemma {:induction false} UnitedRowsLocal(node: Node, k: nat, small: map<NodeId, Rel>, large: map<NodeId, Rel>)
    requires node.UnionNode? && k <= |node.inputs|
    requires forall i :: i in node.inputs ==> RelOf(small, i) == RelOf(large, i)
    ensures UnitedRows(node, k, small) == UnitedRows(node, k, large)
  {
    if k > 0 {
      UnitedRowsLocal(node, k - 1, small, large);
    }
  }

  lemma NodeRowsLocal(node: Node, objects: seq<TableObject>, world: World, small: map<NodeId, Rel>,
          large: map<NodeId, Rel>)
    requires forall d :: d in Dependencies(node) ==> RelOf(small, d) == RelOf(large, d)
    ensures NodeRows(node, objects, world, small) == NodeRows(node, objects, world, large)
  {
    match node
    case UnionNode(_, inputs, _) =>
      FirstOccurrencesKeepsMembers(inputs);
      UnitedRowsLocal(node, |inputs|, small, large);
    case JoinNode(_, left, right, _, _, _, _, _) =>
      assert left in Dependencies(node) && right in Dependencies(node);
    case ScanNode(_, _, _) =>
    case FilterNode(_, input, _) => assert input in Dependencies(node);
    case ProjectNode(_, input, _) => assert input in Dependencies(node);
    case AggregateNode(_, input, _, _) => assert input in Dependencies(node);
    case MaterializeNode(_, input, _) => assert input in Dependencies(node);
  }

  lemma SolvesMore(node: Node, objects: seq<TableObject>, world: World, small: map<NodeId, Rel>,
          large: map<NodeId, Rel>)
    requires forall id :: id in small ==> id in large && large[id] == small[id]
    requires ValidateNode(node, objects, Schemas(small)).Some? && WellFormed(node) && node.id in large
    requires large[node.id] == Rel(ValidateNode(node, objects, Schemas(small)).value,
                                   NodeRows(node, objects, world, small))
    ensures Solves(node, objects, world, large)
  {
    AcceptedHasDependencies(node, objects, Schemas(small));
    ValidateMore(node, objects, Schemas(small), Schemas(large));
    NodeRowsLocal(node, objects, world, small, large);
  }

  lemma SolvedStays(node: Node, objects: seq<TableObject>, world: World, small: map<NodeId, Rel>,
          large: map<NodeId, Rel>)
    requires forall id :: id in small ==> id in large && large[id] == small[id]
    requires Solves(node, objects, world, small)
    ensures Solves(node, objects, world, large)
  {
    SolvesMore(node, objects, world, small, large);
  }

  /** The meaning of validated nodes is a fixpoint over all of them, not only over prefixes. */
  lemma {:induction false} MeaningFixpoint(nodes: seq<Node>, objects: seq<TableObject>, world: World)
    requires Meaning(nodes, objects, world).Some?
    ensures Fixpoint(nodes, objects, world, Meaning(nodes, objects, world).value)
  {
    hide ValidateNode, NodeRows, Solves, Schemas, WellFormed;
    if nodes != [] {
      var before := nodes[..|nodes| - 1];
      MeaningUnfold(nodes, objects, world);
      MeaningFixpoint(before, objects, world);
      var small := Meaning(before, objects, world).value;
      var large := Meaning(nodes, objects, world).value;
      forall k | 0 <= k < |nodes| ensures Solves(nodes[k], objects, world, large) {
        if k < |before| {
          assert Solves(before[k], objects, world, small);
          SolvedStays(before[k], objects, world, small, large);
        } else {
          SolvesMore(nodes[k], objects, world, small, large);
        }
      }
    }
  }

  function Ids(nodes: seq<Node>): seq<NodeId> {
    Map((n: Node) => n.id, nodes)
  }

  lemma IdsSnoc(nodes: seq<Node>)
    requires nodes != []
    ensures Ids(nodes) == Ids(nodes[..|nodes| - 1]) + [nodes[|nodes| - 1].id]
    ensures forall id :: id in Ids(nodes) <==> id in Ids(nodes[..|nodes| - 1]) || id == nodes[|nodes| - 1].id
  {
    var n := |nodes| - 1;
    var before := nodes[..n];
    var f := (n: Node) => n.id;
    assert nodes == before + [nodes[n]];
    MapConcat(f, before, [nodes[n]]);
    assert Map(f, [nodes[n]]) == [nodes[n].id];
  }

  lemma {:induction false} ValidatedIds(nodes: seq<Node>, objects: seq<TableObject>)
    requires ValidateNodes(nodes, objects).Some?
    ensures forall id :: id in ValidateNodes(nodes, objects).value <==> id in Ids(nodes)
    ensures NoDup(Ids(nodes))
  {
    if nodes != [] {
      hide *;
      var n := |nodes| - 1;
      ValidateUnfold(nodes, objects);
      ValidatedIds(nodes[..n], objects);
      IdsSnoc(nodes);
      NoDupSnoc(Ids(nodes[..n]), nodes[n].id);
    }
  }

  lemma PositionOf(nodes: seq<Node>, id: NodeId)
    requires id in Ids(nodes)
    ensures exists j :: 0 <= j < |nodes| && nodes[j].id == id
  {
    var ids := Ids(nodes);
    var j :| 0 <= j < |ids| && ids[j] == id;
    assert nodes[j].id == id;
  }

  lemma {:induction false} ValidatedDependencies(nodes: seq<Node>, objects: seq<TableObject>, k: nat, d: NodeId)
    requires ValidateNodes(nodes, objects).Some? && k < |nodes| && d in Dependencies(nodes[k])
    ensures exists j :: 0 <= j < k && nodes[j].id == d
    decreases |nodes|
  {
    hide *;
    var n := |nodes| - 1;
    var before := nodes[..n];
    ValidateUnfold(nodes, objects);
    if k < n {
      ValidatedDependencies(before, objects, k, d);
      var j :| 0 <= j < k && before[j].id == d;
      assert nodes[j].id == d;
    } else {
      AcceptedHasDependencies(nodes[n], objects, ValidateNodes(before, objects).value);
      ValidatedIds(before, objects);
      PositionOf(before, d);
      var j :| 0 <= j < n && before[j].id == d;
      assert nodes[j].id == d;
    }
  }

  lemma ValidatedIsUpstreamFirst(nodes: seq<Node>, objects: seq<TableObject>)
    requires ValidateNodes(nodes, objects).Some?
    ensures UpstreamFirst(nodes)
  {
    ValidatedIds(nodes, objects);
    forall i, j | 0 <= i < j < |nodes| ensures nodes[i].id != nodes[j].id {
      var ids := Ids(nodes);
      assert ids[i] == nodes[i].id && ids[j] == nodes[j].id;
    }
    forall k, d | 0 <= k < |nodes| && d in Dependencies(nodes[k]) ensures IndexOf(nodes, d) < k {
      ValidatedDependencies(nodes, objects, k, d);
      var j :| 0 <= j < k && nodes[j].id == d;
    }
  }

  // ----- targets -----

  function TargetFor(step: nat, kind: StepKind): Option<Target> {
    if step < 1 || step > MAX_STEPS then None
    else if kind == Result then Some(ResultTable)
    else Some(StepTable(step))
  }

  function StepCount(nodes: seq<Node>): nat {
    if nodes == [] then 0
    else StepCount(nodes[..|nodes| - 1]) + if nodes[|nodes| - 1].MaterializeNode? then 1 else 0
  }

  function TargetsOf(nodes: seq<Node>): Option<map<NodeId, Target>> {
    if nodes == [] then Some(map[])
    else
      var before := TargetsOf(nodes[..|nodes| - 1]);
      var last := nodes[|nodes| - 1];
      if before.None? || !last.MaterializeNode? then before
      else
        var target := TargetFor(StepCount(nodes), last.kind);
        if target.None? then None else Some(before.value[last.id := target.value])
  }

  lemma {:induction false} TargetsCover(nodes: seq<Node>)
    requires TargetsOf(nodes).Some?
    ensures forall j :: 0 <= j < |nodes| && nodes[j].MaterializeNode? ==> nodes[j].id in TargetsOf(nodes).value
    ensures forall id :: id in TargetsOf(nodes).value ==>
              exists j :: 0 <= j < |nodes| && nodes[j].MaterializeNode? && nodes[j].id == id
  {
    if nodes != [] {
      var before := nodes[..|nodes| - 1];
      TargetsCover(before);
      forall j | 0 <= j < |nodes| && nodes[j].MaterializeNode? ensures nodes[j].id in TargetsOf(nodes).value {
        if j < |before| {
          assert nodes[j] == before[j];
        }
      }
      forall id | id in TargetsOf(nodes).value
          ensures exists j :: 0 <= j < |nodes| && nodes[j].MaterializeNode? && nodes[j].id == id {
        if id in TargetsOf(before).value {
          var j :| 0 <= j < |before| && before[j].MaterializeNode? && before[j].id == id;
          assert nodes[j].MaterializeNode? && nodes[j].id == id;
        } else {
          assert nodes[|nodes| - 1].id == id;
        }
      }
    }
  }

  lemma {:induction false} TargetsExist(nodes: seq<Node>)
    ensures TargetsOf(nodes).Some? <==> StepCount(nodes) <= MAX_STEPS
  {
    if nodes != [] {
      TargetsExist(nodes[..|nodes| - 1]);
    }
  }

  lemma {:induction false} TargetOf(nodes: seq<Node>, k: nat)
    requires TargetsOf(nodes).Some? && UpstreamFirst(nodes) && k < |nodes| && nodes[k].MaterializeNode?
    ensures nodes[k].id in TargetsOf(nodes).value
    ensures TargetsOf(nodes).value[nodes[k].id] == if nodes[k].kind
            == Result then ResultTable else StepTable(StepCount(nodes[..k + 1]))
    decreases |nodes|
  {
    var before := nodes[..|nodes| - 1];
    if k < |before| {
      assert UpstreamFirst(before) by {
        PrefixUpstreamFirst(nodes, |before|);
      }
      TargetOf(before, k);
      assert before[..k + 1] == nodes[..k + 1];
      assert nodes[|nodes| - 1].id != nodes[k].id;
    } else {
      assert nodes[..k + 1] == nodes;
    }
  }

  lemma PrefixUpstreamFirst(nodes: seq<Node>, n: nat)
    requires UpstreamFirst(nodes) && n <= |nodes|
    ensures UpstreamFirst(nodes[..n])
  {
    forall k, d | 0 <= k < n && d in Dependencies(nodes[..n][k]) ensures IndexOf(nodes[..n], d) < k {
      var i := IndexOf(nodes, d);
      assert nodes[..n][i].id == d;
    }
  }

  lemma {:induction false} OneResultStep(nodes: seq<Node>, k: nat)
    requires k < |nodes| && nodes[k].MaterializeNode? && nodes[k].kind == Result
    ensures nodes[k].id in ResultSteps(nodes)
    decreases |nodes|
  {
    if k < |nodes| - 1 {
      OneResultStep(nodes[..|nodes| - 1], k);
    }
  }

  lemma {:induction false} StepCountGrows(nodes: seq<Node>, i: nat, j: nat)
    requires i < j < |nodes| && nodes[j].MaterializeNode?
    ensures StepCount(nodes[..i + 1]) < StepCount(nodes[..j + 1])
    decreases j
  {
    assert nodes[..j + 1][..j] == nodes[..j];
    if i < j - 1 {
      StepCountMonotone(nodes, i, j - 1);
    }
  }

  lemma {:induction false} StepCountMonotone(nodes: seq<Node>, i: nat, j: nat)
    requires i <= j < |nodes|
    ensures StepCount(nodes[..i + 1]) <= StepCount(nodes[..j + 1])
    decreases j
  {
    if i < j {
      assert nodes[..j + 1][..j] == nodes[..j];
      StepCountMonotone(nodes, i, j - 1);
    }
  }

  /** Two steps of a validated plan never share a table. */
  lemma TargetsDiffer(plan: Plan, i: nat, j: nat)
    requires ValidatePlan(plan).Some? && TargetsOf(plan.nodes).Some?
    requires i < j < |plan.nodes| && plan.nodes[i].MaterializeNode? && plan.nodes[j].MaterializeNode?
    ensures plan.nodes[i].id in TargetsOf(plan.nodes).value && plan.nodes[j].id in TargetsOf(plan.nodes).value
    ensures TargetsOf(plan.nodes).value[plan.nodes[i].id] != TargetsOf(plan.nodes).value[plan.nodes[j].id]
  {
    var nodes := plan.nodes;
    ValidatedIsUpstreamFirst(nodes, plan.objects);
    TargetOf(nodes, i);
    TargetOf(nodes, j);
    StepCountGrows(nodes, i, j);
    if nodes[i].kind == Result && nodes[j].kind == Result {
      OneResultStep(nodes, i);
      OneResultStep(nodes, j);
      assert false;
    }
  }

  // ----- compilation -----

  function TargetOr(targets: map<NodeId, Target>, id: NodeId): Target {
    if id in targets then targets[id] else ResultTable
  }

  function VertexOf(nodes: seq<Node>, node: Node, objects: seq<TableObject>, schemas: map<NodeId, Schema>,
          targets: map<NodeId, Target>): Vertex {
    Vertex(node.id, node.MaterializeNode?, TargetOr(targets, node.id), Map(d => IndexOf(nodes, d), Dependencies(node)),
           NodeQuery(node, objects, schemas, targets))
  }

  function GraphOf(nodes: seq<Node>, objects: seq<TableObject>, schemas: map<NodeId, Schema>,
          targets: map<NodeId, Target>): seq<Vertex> {
    Map((n: Node) => VertexOf(nodes, n, objects, schemas, targets), nodes)
  }

  lemma UsesOf(nodes: seq<Node>, node: Node, objects: seq<TableObject>, schemas: map<NodeId, Schema>,
          targets: map<NodeId, Target>)
    ensures forall d :: d in Dependencies(node) ==> IndexOf(nodes,
                                                            d) in VertexOf(nodes, node, objects, schemas, targets).uses
    ensures forall i :: i in VertexOf(nodes, node, objects, schemas, targets).uses ==>
              exists d :: d in Dependencies(node) && IndexOf(nodes, d) == i
  {
    var ds := Dependencies(node);
    var uses := Map(d => IndexOf(nodes, d), ds);
    forall d | d in ds ensures IndexOf(nodes, d) in uses {
      var j :| 0 <= j < |ds| && ds[j] == d;
      assert uses[j] == IndexOf(nodes, d);
    }
    forall i | i in uses ensures exists d :: d in ds && IndexOf(nodes, d) == i {
      var j :| 0 <= j < |uses| && uses[j] == i;
      assert ds[j] in ds;
    }
  }

  lemma GraphIsOrdered(nodes: seq<Node>, objects: seq<TableObject>, schemas: map<NodeId, Schema>,
          targets: map<NodeId, Target>)
    requires UpstreamFirst(nodes)
    ensures Ordered(GraphOf(nodes, objects, schemas, targets))
            && OneInputPerStep(GraphOf(nodes, objects, schemas, targets))
  {
    hide NodeQuery, IndexOf;
    var g := GraphOf(nodes, objects, schemas, targets);
    forall k, i | 0 <= k < |g| && i in g[k].uses ensures i < k {
      UsesOf(nodes, nodes[k], objects, schemas, targets);
    }
  }

  /** `compile` on a validated plan. */
  ghost function Compile(plan: Plan): Option<seq<Statement>>
    requires ValidatePlan(plan).Some?
  {
    ValidatedIsUpstreamFirst(plan.nodes, plan.objects);
    var targets := TargetsOf(plan.nodes);
    if targets.None? then None
    else
      var schemas := DeriveSchemas(plan.nodes, plan.objects);
      GraphIsOrdered(plan.nodes, plan.objects, schemas, targets.value);
      StatementsUpTo(GraphOf(plan.nodes, plan.objects, schemas, targets.value), |plan.nodes|)
  }

  function RowsAt(env: map<NodeId, Rel>, id: NodeId): seq<Row> {
    RelOf(env, id).rows
  }

  function AllRows(nodes: seq<Node>, env: map<NodeId, Rel>): seq<seq<Row>> {
    Map((n: Node) => RowsAt(env, n.id), nodes)
  }

  /** Exactly the steps have tables. */
  ghost predicate Targeted(nodes: seq<Node>, targets: map<NodeId, Target>) {
    && (forall j :: 0 <= j < |nodes| && nodes[j].MaterializeNode? ==> nodes[j].id in targets)
    && (forall j :: 0 <= j < |nodes| && nodes[j].id in targets ==> nodes[j].MaterializeNode?)
  }

  lemma TargetsAreSteps(nodes: seq<Node>)
    requires UpstreamFirst(nodes) && TargetsOf(nodes).Some?
    ensures Targeted(nodes, TargetsOf(nodes).value)
  {
    TargetsCover(nodes);
    forall j | 0 <= j < |nodes| && nodes[j].id in TargetsOf(nodes).value ensures nodes[j].MaterializeNode? {
      var i :| 0 <= i < |nodes| && nodes[i].MaterializeNode? && nodes[i].id == nodes[j].id;
    }
  }

  lemma PlaceOf(nodes: seq<Node>, objects: seq<TableObject>, schemas: map<NodeId, Schema>,
          targets: map<NodeId, Target>, d: NodeId)
    requires Targeted(nodes, targets) && IndexOf(nodes, d) < |nodes|
    ensures Place(GraphOf(nodes, objects, schemas, targets)[IndexOf(nodes, d)]) == RelationOf(d, targets)
  {
    var i := IndexOf(nodes, d);
    assert nodes[i].id == d;
  }

  lemma SolvedQuery(node: Node, objects: seq<TableObject>, world: World, targets: map<NodeId, Target>, c: Context,
          env: map<NodeId, Rel>)
    requires Solves(node, objects, world, env) && c.world == world
    requires node.JoinNode? ==> node.left != node.right
    requires InputsReady(node, targets, c, env)
    ensures EvalQuery(NodeQuery(node, objects, Schemas(env), targets), c) == RowsAt(env, node.id)
  {
    if node.MaterializeNode? {
      assert node.input in Dependencies(node);
      var body := NodeQuery(node, objects, Schemas(env), targets);
      FilterAll((r: Row) => AllWhere(body.where, map[body.from.alias := r], c), env[node.input].rows);
    } else {
      NodeQueryRows(node, objects, targets, c, env);
    }
  }

  lemma NodeComputes(nodes: seq<Node>, objects: seq<TableObject>, world: World, targets: map<NodeId, Target>,
          env: map<NodeId, Rel>, k: nat)
    requires UpstreamFirst(nodes) && DistinctJoinInputs(nodes) && Fixpoint(nodes, objects, world, env)
             && Targeted(nodes, targets)
    requires k < |nodes|
    ensures Computes(GraphOf(nodes, objects, Schemas(env), targets), world, AllRows(nodes, env), k)
  {
    var g := GraphOf(nodes, objects, Schemas(env), targets);
    var rows := AllRows(nodes, env);
    var node := nodes[k];
    assert Solves(nodes[k], objects, world, env);
    forall c: Context | c.world == world && UsesReady(g, rows, k, c)
      ensures EvalQuery(NodeQuery(node, objects, Schemas(env), targets), c) == rows[k]
    {
      UsesOf(nodes, node, objects, Schemas(env), targets);
      forall d | d in Dependencies(node) ensures d in env && Rows(RelationOf(d, targets), c) == env[d].rows {
        var i := IndexOf(nodes, d);
        PlaceOf(nodes, objects, Schemas(env), targets, d);
        assert rows[i] == RowsAt(env, d);
      }
      SolvedQuery(node, objects, world, targets, c, env);
    }
  }

  lemma PlanIsRunnable(plan: Plan, world: World)
    requires ValidatePlan(plan).Some? && DistinctJoinInputs(plan.nodes) && TargetsOf(plan.nodes).Some?
    ensures Meaning(plan.nodes, plan.objects, world).Some?
    ensures var env := Meaning(plan.nodes, plan.objects, world).value;
            && DeriveSchemas(plan.nodes, plan.objects) == Schemas(env)
            && Runnable(GraphOf(plan.nodes, plan.objects, Schemas(env), TargetsOf(plan.nodes).value), world,
                        AllRows(plan.nodes, env))
  {
    hide NodeQuery, ValidateNode, NodeRows, Solves, Computes, ValidateNodes, Meaning, Schemas, DeriveSchemas,
         UpstreamFirst, IndexOf, Dependencies;
    var nodes := plan.nodes;
    MeaningIsValidation(nodes, plan.objects, world);
    ValidatedIsUpstreamFirst(nodes, plan.objects);
    MeaningFixpoint(nodes, plan.objects, world);
    DerivedSchemasAgree(nodes, plan.objects);
    TargetsAreSteps(nodes);
    var targets, env := TargetsOf(nodes).value, Meaning(nodes, plan.objects, world).value;
    var g := GraphOf(nodes, plan.objects, Schemas(env), targets);
    GraphIsOrdered(nodes, plan.objects, Schemas(env), targets);
    forall k | 0 <= k < |g| ensures Computes(g, world, AllRows(nodes, env), k) {
      NodeComputes(nodes, plan.objects, world, targets, env, k);
    }
    PlanTablesDiffer(plan, Schemas(env));
  }

  lemma PlanTablesDiffer(plan: Plan, schemas: map<NodeId, Schema>)
    requires ValidatePlan(plan).Some? && TargetsOf(plan.nodes).Some?
    ensures var g := GraphOf(plan.nodes, plan.objects, schemas, TargetsOf(plan.nodes).value);
            forall k :: 0 <= k < |g| ==> OwnTable(g, k)
  {
    hide NodeQuery, ValidatePlan, TargetsOf;
    var g := GraphOf(plan.nodes, plan.objects, schemas, TargetsOf(plan.nodes).value);
    forall k | 0 <= k < |g| ensures OwnTable(g, k) {
      forall i | 0 <= i < k && g[i].stored && g[k].stored ensures g[i].target != g[k].target {
        TargetsDiffer(plan, i, k);
      }
    }
  }

  /** Compilation of a validated plan fails exactly when it has too many steps; the compiled program,
      run over any earlier tables, leaves in every step's table what the step denotes. */
  lemma CompiledProgramIsCorrect(plan: Plan, world: World, temps: map<Target, seq<Row>>)
    requires ValidatePlan(plan).Some? && DistinctJoinInputs(plan.nodes)
    ensures Compile(plan).Some? <==> StepCount(plan.nodes) <= 99
    ensures Compile(plan).Some? ==>
              var env := Meaning(plan.nodes, plan.objects, world);
              var after := Run(Compile(plan).value, world, temps);
              && env.Some? && TargetsOf(plan.nodes).Some?
              && (forall k :: 0 <= k < |plan.nodes| && plan.nodes[k].MaterializeNode? ==>
                    var target := TargetOr(TargetsOf(plan.nodes).value, plan.nodes[k].id);
                    target in after && after[target] == RowsAt(env.value, plan.nodes[k].id))
              && ResultTable in after && after[ResultTable] == RowsAt(env.value, plan.result)
  {
    hide NodeQuery, ValidateNodes, Meaning, Schemas, DeriveSchemas, UpstreamFirst, IndexOf, Dependencies, Run, Execute,
         Runnable;
    TargetsExist(plan.nodes);
    if TargetsOf(plan.nodes).Some? {
      var nodes, objects := plan.nodes, plan.objects;
      PlanIsRunnable(plan, world);
      var targets, env := TargetsOf(nodes).value, Meaning(nodes, objects, world).value;
      var g, rows := GraphOf(nodes, objects, Schemas(env), targets), AllRows(nodes, env);
      ProgramRows(g, world, rows, |g|, temps);
      var after := Run(Compile(plan).value, world, temps);
      forall k | 0 <= k < |nodes| && nodes[k].MaterializeNode?
        ensures TargetOr(targets, nodes[k].id) in after
                && after[TargetOr(targets, nodes[k].id)] == RowsAt(env, nodes[k].id) {
        assert g[k].stored && g[k].target == TargetOr(targets, nodes[k].id) && rows[k] == RowsAt(env, nodes[k].id);
      }
      ResultPosition(nodes, plan.result);
      var k :| 0 <= k < |nodes| && nodes[k].MaterializeNode? && nodes[k].kind == Result && nodes[k].id == plan.result;
      ValidatedIsUpstreamFirst(nodes, objects);
      TargetOf(nodes, k);
    }
  }

  lemma {:induction false} ResultPosition(nodes: seq<Node>, id: NodeId)
    requires id in ResultSteps(nodes)
    ensures exists k :: 0 <= k < |nodes| && nodes[k].MaterializeNode? && nodes[k].kind == Result && nodes[k].id == id
  {
    var before, last := nodes[..|nodes| - 1], nodes[|nodes| - 1];
    if id in ResultSteps(before) {
      ResultPosition(before, id);
      var k :| 0 <= k < |before| && before[k].MaterializeNode? && before[k].kind == Result && before[k].id == id;
      assert nodes[k] == before[k];
    } else {
      assert last.id == id;
    }
  }
}
