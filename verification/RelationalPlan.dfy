/** The canonical relational plan: nodes, validation and meaning.
    Models ontology_core/relational_plan.py. */
module RelationalPlan {
  import opened SeqOps
  import opened Sql

  datatype Field = Field(ref: Ref, owner: Ref, dtype: Datatype, physical: Name)
  datatype TableObject = TableObject(ref: Ref, source: nat, fields: seq<Field>)

  datatype JoinType = Inner | LeftOuter | Anti
  datatype AntiStrategy = ViaLeftJoin | ViaNotExists
  datatype StepKind = Intermediate | Result

  datatype LogicalRef = LogicalRef(node: NodeId, column: Column)
  datatype ScanColumn = ScanColumn(name: Column, field: Ref)
  datatype UnionColumn = UnionColumn(name: Column, sources: seq<LogicalRef>)
  datatype DerivedColumn = DerivedColumn(name: Column, source: LogicalRef)
  datatype AggregateColumn = AggregateColumn(name: Column, fn: AggFunction, source: Option<LogicalRef>, distinct: bool)
  datatype JoinCondition = JoinCondition(left: LogicalRef, right: LogicalRef)

  datatype Node =
    | ScanNode(id: NodeId, table: Ref, scanned: seq<ScanColumn>)
    | UnionNode(id: NodeId, inputs: seq<NodeId>, united: seq<UnionColumn>)
    | JoinNode(id: NodeId, left: NodeId, right: NodeId, joinType: JoinType, strategy: AntiStrategy,
               conditions: seq<JoinCondition>, matchFilters: seq<Pred<LogicalRef>>, columns: seq<DerivedColumn>)
    | FilterNode(id: NodeId, input: NodeId, predicates: seq<Pred<LogicalRef>>)
    | ProjectNode(id: NodeId, input: NodeId, columns: seq<DerivedColumn>)
    | AggregateNode(id: NodeId, input: NodeId, groupBy: seq<DerivedColumn>, aggregations: seq<AggregateColumn>)
    | MaterializeNode(id: NodeId, input: NodeId, kind: StepKind)

  datatype Plan = Plan(objects: seq<TableObject>, nodes: seq<Node>, result: NodeId, source: nat)

  type Schema = map<Column, Datatype>
  datatype Output = Output(name: Column, dtype: Option<Datatype>)

  // ----- look-ups -----

  function FindObject(objects: seq<TableObject>, ref: Ref): Option<TableObject> {
    if objects == [] then None
    else if objects[|objects| - 1].ref == ref then Some(objects[|objects| - 1])
    else FindObject(objects[..|objects| - 1], ref)
  }

  function FindField(fields: seq<Field>, ref: Ref): Option<Field> {
    if fields == [] then None
    else if fields[|fields| - 1].ref == ref then Some(fields[|fields| - 1])
    else FindField(fields[..|fields| - 1], ref)
  }

  function TypeIn(schema: Schema, column: Column): Option<Datatype> {
    if column in schema then Some(schema[column]) else None
  }

  function SchemaOf(schemas: map<NodeId, Schema>, id: NodeId): Schema {
    if id in schemas then schemas[id] else map[]
  }

  function DirectType(ref: LogicalRef, input: NodeId, schema: Schema): Option<Datatype> {
    if ref.node != input then None else TypeIn(schema, ref.column)
  }

  function Dependencies(node: Node): seq<NodeId> {
    match node
    case ScanNode(_, _, _) => []
    case UnionNode(_, inputs, _) => FirstOccurrences(inputs)
    case JoinNode(_, left, right, _, _, _, _, _) => [left, right]
    case FilterNode(_, input, _) => [input]
    case ProjectNode(_, input, _) => [input]
    case AggregateNode(_, input, _, _) => [input]
    case MaterializeNode(_, input, _) => [input]
  }

  // ----- validation -----

  /** Adds output columns one at a time; an unknown type or a repeated name fails. */
  function Collect(outputs: seq<Output>): Option<Schema> {
    if outputs == [] then Some(map[])
    else
      var before := Collect(outputs[..|outputs| - 1]);
      var last := outputs[|outputs| - 1];
      if before.None? || last.dtype.None? || last.name in before.value then None
      else Some(before.value[last.name := last.dtype.value])
  }

  /** Length rules of the immutable node models. */
  predicate WellFormed(node: Node) {
    match node
    case ScanNode(_, _, scanned) => |scanned| >= 1
    case UnionNode(_, inputs, united) => |inputs| >= 2 && |united| >= 1
    case JoinNode(_, _, _, _, _, conditions, filters, columns) =>
      |conditions| >= 1 && |columns| >= 1 && forall p :: p in filters ==> WellShaped(p)
    case FilterNode(_, _, predicates) => |predicates| >= 1 && forall p :: p in predicates ==> WellShaped(p)
    case ProjectNode(_, _, columns) => |columns| >= 1
    case AggregateNode(_, _, _, aggregations) =>
      |aggregations| >= 1 &&
      forall a :: a in aggregations ==> a.source.None? ==> a.fn == Count && !a.distinct
    case MaterializeNode(_, _, _) => true
  }

  function UnionOutput(column: UnionColumn, inputs: seq<NodeId>, schemas: map<NodeId, Schema>): Output {
    var first := if column.sources == [] then None
                 else TypeIn(SchemaOf(schemas, column.sources[0].node), column.sources[0].column);
    Output(column.name,
           if Map((s: LogicalRef) => s.node, column.sources) == inputs
              && forall s :: s in column.sources ==> TypeIn(SchemaOf(schemas, s.node), s.column) == first
           then first else None)
  }

  predicate ConditionOk(cond: JoinCondition, left: NodeId, right: NodeId, schemas: map<NodeId, Schema>) {
    && cond.left.node == left && cond.right.node == right
    && cond.left.column in SchemaOf(schemas, left) && cond.right.column in SchemaOf(schemas, right)
    && SchemaOf(schemas, left)[cond.left.column].group == SchemaOf(schemas, right)[cond.right.column].group
  }

  predicate LeavesDirect(preds: seq<Pred<LogicalRef>>, input: NodeId, schema: Schema) {
    forall p, l :: p in preds && l in Leaves(p) ==> DirectType(l, input, schema).Some?
  }

  function JoinOutput(column: DerivedColumn, left: NodeId, right: NodeId, joinType: JoinType,
          schemas: map<NodeId, Schema>): Output {
    var source := column.source;
    Output(column.name,
           if (joinType == Anti && source.node != left) || (source.node != left && source.node != right) then None
           else TypeIn(SchemaOf(schemas, source.node), source.column))
  }

  function AggregateOutput(column: AggregateColumn, input: NodeId, schema: Schema): Output {
    var source := if column.source.None? then None else DirectType(column.source.value, input, schema);
    Output(column.name,
           if column.source.Some? && source.None? then None
           else if column.fn == Count then Some(XSD_INTEGER) else source)
  }

  function ScanOutputs(scanned: seq<ScanColumn>, fields: seq<Field>): seq<Output> {
    Map((c: ScanColumn) =>
      Output(c.name, var f := FindField(fields, c.field); if f.None? then None else Some(f.value.dtype)), scanned)
  }

  function UnionOutputs(united: seq<UnionColumn>, inputs: seq<NodeId>, schemas: map<NodeId, Schema>): seq<Output> {
    Map((c: UnionColumn) => UnionOutput(c, inputs, schemas), united)
  }

  function JoinOutputs(columns: seq<DerivedColumn>, left: NodeId, right: NodeId, joinType: JoinType,
          schemas: map<NodeId, Schema>): seq<Output> {
    Map((c: DerivedColumn) => JoinOutput(c, left, right, joinType, schemas), columns)
  }

  function DirectOutputs(columns: seq<DerivedColumn>, input: NodeId, schema: Schema): seq<Output> {
    Map((c: DerivedColumn) => Output(c.name, DirectType(c.source, input, schema)), columns)
  }

  function AggregateOutputs(aggregations: seq<AggregateColumn>, input: NodeId, schema: Schema): seq<Output> {
    Map((c: AggregateColumn) => AggregateOutput(c, input, schema), aggregations)
  }

  function ValidateNode(node: Node, objects: seq<TableObject>, schemas: map<NodeId, Schema>): Option<Schema> {
    match node
    case ScanNode(_, table, scanned) =>
      var owner := FindObject(objects, table);
      if owner.None? then None else Collect(ScanOutputs(scanned, owner.value.fields))
    case UnionNode(_, inputs, united) =>
      if forall i :: i in inputs ==> i in schemas then Collect(UnionOutputs(united, inputs, schemas)) else None
    case JoinNode(_, left, right, joinType, _, conditions, filters, columns) =>
      if left in schemas && right in schemas
         && (forall c :: c in conditions ==> ConditionOk(c, left, right, schemas))
         && LeavesDirect(filters, right, schemas[right])
      then Collect(JoinOutputs(columns, left, right, joinType, schemas)) else None
    case FilterNode(_, input, predicates) =>
      if input in schemas && LeavesDirect(predicates, input, schemas[input]) then Some(schemas[input]) else None
    case ProjectNode(_, input, columns) =>
      if input !in schemas then None else Collect(DirectOutputs(columns, input, schemas[input]))
    case AggregateNode(_, input, groupBy, aggregations) =>
      if input !in schemas then None
      else Collect(DirectOutputs(groupBy, input, schemas[input])
                   + AggregateOutputs(aggregations, input, schemas[input]))
    case MaterializeNode(_, input, _) =>
      if input in schemas then Some(schemas[input]) else None
  }

  /** Schemas of all nodes, or None when some node is rejected. */
  function ValidateNodes(nodes: seq<Node>, objects: seq<TableObject>): Option<map<NodeId, Schema>> {
    if nodes == [] then Some(map[])
    else
      var before := ValidateNodes(nodes[..|nodes| - 1], objects);
      var last := nodes[|nodes| - 1];
      if before.None? || last.id in before.value || !WellFormed(last) then None
      else
        var schema := ValidateNode(last, objects, before.value);
        if schema.None? then None else Some(before.value[last.id := schema.value])
  }

  function ResultSteps(nodes: seq<Node>): seq<NodeId> {
    if nodes == [] then []
    else
      var last := nodes[|nodes| - 1];
      ResultSteps(nodes[..|nodes| - 1]) + if last.MaterializeNode? && last.kind == Result then [last.id] else []
  }

  predicate UniqueObjects(objects: seq<TableObject>) {
    forall i, j :: 0 <= i < j < |objects| ==> objects[i].ref != objects[j].ref
  }

  predicate SameDataSource(objects: seq<TableObject>, source: nat) {
    forall o :: o in objects ==> o.source == source
  }

  function ValidatePlan(plan: Plan): Option<map<NodeId, Schema>> {
    var schemas := ValidateNodes(plan.nodes, plan.objects);
    if plan.nodes == [] || !UniqueObjects(plan.objects) || !SameDataSource(plan.objects, plan.source)
        || ResultSteps(plan.nodes) != [plan.result] then None
    else schemas
  }

  method ValidateGraph(plan: Plan) returns (r: Option<map<NodeId, Schema>>)
    ensures r == ValidatePlan(plan)
  {
    if plan.nodes == [] || !UniqueObjects(plan.objects) || !SameDataSource(plan.objects, plan.source) {
      return None;
    }
    var schemas: map<NodeId, Schema> := map[];
    var results: seq<NodeId> := [];
    for k := 0 to |plan.nodes|
      invariant ValidateNodes(plan.nodes[..k], plan.objects) == Some(schemas)
      invariant ResultSteps(plan.nodes[..k]) == results
    {
      var node := plan.nodes[k];
      assert plan.nodes[..k + 1][..k] == plan.nodes[..k];
      var schema := if node.id in schemas || !WellFormed(node) then None
                    else ValidateNode(node, plan.objects, schemas);
      if schema.None? {
        RejectionIsFinal(plan.nodes, plan.objects, k + 1);
        return None;
      }
      schemas := schemas[node.id := schema.value];
      if node.MaterializeNode? && node.kind == Result {
        results := results + [node.id];
      }
    }
    assert plan.nodes[..|plan.nodes|] == plan.nodes;
    r := if results != [plan.result] then None else Some(schemas);
  }

  lemma {:induction false} RejectionIsFinal(nodes: seq<Node>, objects: seq<TableObject>, k: nat)
    requires k <= |nodes| && ValidateNodes(nodes[..k], objects).None?
    ensures ValidateNodes(nodes, objects).None?
    decreases |nodes|
  {
    if k == |nodes| {
      assert nodes[..k] == nodes;
    } else {
      assert nodes[..|nodes| - 1][..k] == nodes[..k];
      RejectionIsFinal(nodes[..|nodes| - 1], objects, k);
    }
  }

  // ----- meaning -----

  datatype Rel = Rel(schema: Schema, rows: seq<Row>)

  function Schemas(env: map<NodeId, Rel>): map<NodeId, Schema> {
    map id | id in env :: env[id].schema
  }

  function RelOf(env: map<NodeId, Rel>, id: NodeId): Rel {
    if id in env then env[id] else Rel(map[], [])
  }

  function TypeOr(schema: Schema, column: Column): Datatype {
    if column in schema then schema[column] else XSD_INTEGER
  }

  function RefLook(row: Row, schema: Schema): LogicalRef -> Operand {
    (l: LogicalRef) => Operand(Cell(row, l.column), TypeOr(schema, l.column))
  }

  predicate AllTrue(preds: seq<Pred<LogicalRef>>, row: Row, schema: Schema, world: World) {
    forall p :: p in preds ==> Eval(p, RefLook(row, schema), world.literal) == True
  }

  function DerivedRow(columns: seq<DerivedColumn>, look: LogicalRef -> Value): Row {
    if columns == [] then map[]
    else DerivedRow(columns[..|columns| - 1], look)[columns[|columns| - 1].name := look(columns[|columns| - 1].source)]
  }

  function ScannedRow(columns: seq<ScanColumn>, fields: seq<Field>, cells: Row): Row {
    if columns == [] then map[]
    else
      var last := columns[|columns| - 1];
      var f := FindField(fields, last.field);
      ScannedRow(columns[..|columns| - 1], fields, cells)
        [last.name := if f.None? then Null else Cell(cells, Physical(f.value.physical))]
  }

  function UnitedRow(columns: seq<UnionColumn>, branch: nat, row: Row): Row {
    if columns == [] then map[]
    else
      var last := columns[|columns| - 1];
      UnitedRow(columns[..|columns| - 1], branch, row)
        [last.name := if branch < |last.sources| then Cell(row, last.sources[branch].column) else Null]
  }

  /** Rows of the first `k` inputs of a union, in input order. */
  function UnitedRows(node: Node, k: nat, env: map<NodeId, Rel>): seq<Row>
    requires node.UnionNode? && k <= |node.inputs|
  {
    if k == 0 then []
    else UnitedRows(node, k - 1, env) + Map((r: Row) =>
                                            UnitedRow(node.united, k - 1, r), RelOf(env, node.inputs[k - 1]).rows)
  }

  predicate Matches(node: Node, l: Row, r: Row, rightSchema: Schema, world: World)
    requires node.JoinNode?
  {
    && (forall c :: c in node.conditions ==> Compare(EQ, Cell(l, c.left.column), Cell(r, c.right.column)) == True)
    && AllTrue(node.matchFilters, r, rightSchema, world)
  }

  function PairLook(node: Node, l: Row, r: Row): LogicalRef -> Value
    requires node.JoinNode?
  {
    (ref: LogicalRef) =>
      if ref.node == node.left then Cell(l, ref.column)
      else if ref.node == node.right then Cell(r, ref.column) else Null
  }

  /** Inner pairs, left rows padded when unmatched, or left rows without a match. */
  function JoinRow(node: Node, l: Row, right: Rel, world: World): seq<Row>
    requires node.JoinNode?
  {
    var partners := Filter((r: Row) => Matches(node, l, r, right.schema, world), right.rows);
    match node.joinType
    case Inner => Map((r: Row) => DerivedRow(node.columns, PairLook(node, l, r)), partners)
    case LeftOuter =>
      if partners == [] then [DerivedRow(node.columns, PairLook(node, l, map[]))]
      else Map((r: Row) => DerivedRow(node.columns, PairLook(node, l, r)), partners)
    case Anti => if partners == [] then [DerivedRow(node.columns, PairLook(node, l, map[]))] else []
  }

  function RowLook(row: Row): LogicalRef -> Value {
    (ref: LogicalRef) => Cell(row, ref.column)
  }

  function SpecOf(a: AggregateColumn): AggSpec {
    AggSpec(a.name, a.fn, a.source.None?, a.distinct)
  }

  function InputOf(node: Node, row: Row): AggInput
    requires node.AggregateNode?
  {
    AggInput(Map((d: DerivedColumn) => Cell(row, d.source.column), node.groupBy),
             Map((a: AggregateColumn) => if a.source.None? then Null else Cell(row, a.source.value.column),
                 node.aggregations))
  }

  function NodeRows(node: Node, objects: seq<TableObject>, world: World, env: map<NodeId, Rel>): seq<Row> {
    match node
    case ScanNode(_, table, scanned) =>
      var owner := FindObject(objects, table);
      var fields := if owner.None? then [] else owner.value.fields;
      Map((b: BaseRow) => ScannedRow(scanned, fields, b.cells), Stored(world, table))
    case UnionNode(_, inputs, _) => UnitedRows(node, |inputs|, env)
    case JoinNode(_, left, right, _, _, _, _, _) =>
      FlatMap((l: Row) => JoinRow(node, l, RelOf(env, right), world), RelOf(env, left).rows)
    case FilterNode(_, input, predicates) =>
      Filter((r: Row) => AllTrue(predicates, r, RelOf(env, input).schema, world), RelOf(env, input).rows)
    case ProjectNode(_, input, columns) =>
      Map((r: Row) => DerivedRow(columns, RowLook(r)), RelOf(env, input).rows)
    case AggregateNode(_, input, groupBy, aggregations) =>
      Aggregate(Map((d: DerivedColumn) => d.name, groupBy), Map(SpecOf, aggregations),
                Map((r: Row) => InputOf(node, r), RelOf(env, input).rows))
    case MaterializeNode(_, input, _) => RelOf(env, input).rows
  }

  /** What every node denotes; None exactly when validation rejects the nodes. */
  function Meaning(nodes: seq<Node>, objects: seq<TableObject>, world: World): Option<map<NodeId, Rel>> {
    if nodes == [] then Some(map[])
    else
      var before := Meaning(nodes[..|nodes| - 1], objects, world);
      var last := nodes[|nodes| - 1];
      if before.None? || last.id in before.value || !WellFormed(last) then None
      else
        var schema := ValidateNode(last, objects, Schemas(before.value));
        if schema.None? then None
        else Some(before.value[last.id := Rel(schema.value, NodeRows(last, objects, world, before.value))])
  }

  lemma {:induction false} MeaningIsValidation(nodes: seq<Node>, objects: seq<TableObject>, world: World)
    ensures Meaning(nodes, objects, world).Some? <==> ValidateNodes(nodes, objects).Some?
    ensures Meaning(nodes, objects, world).Some? ==>
              Schemas(Meaning(nodes, objects, world).value) == ValidateNodes(nodes, objects).value
  {
    if nodes != [] {
      MeaningIsValidation(nodes[..|nodes| - 1], objects, world);
    }
  }

  lemma MeaningSnoc(nodes: seq<Node>, node: Node, objects: seq<TableObject>, world: World)
    requires Meaning(nodes, objects, world).Some?
    requires node.id !in Meaning(nodes, objects, world).value && WellFormed(node)
    requires ValidateNode(node, objects, Schemas(Meaning(nodes, objects, world).value)).Some?
    ensures var env := Meaning(nodes, objects, world).value;
            Meaning(nodes + [node], objects, world) ==
              Some(env[node.id := Rel(ValidateNode(node, objects, Schemas(env)).value,
                                      NodeRows(node, objects, world, env))])
  {
    assert (nodes + [node])[..|nodes|] == nodes;
  }

  lemma MeaningUnfold(nodes: seq<Node>, objects: seq<TableObject>, world: World)
    requires nodes != [] && Meaning(nodes, objects, world).Some?
    ensures Meaning(nodes[..|nodes| - 1], objects, world).Some?
    ensures var small := Meaning(nodes[..|nodes| - 1], objects, world).value;
            var last := nodes[|nodes| - 1];
            && last.id !in small && WellFormed(last)
            && ValidateNode(last, objects, Schemas(small)).Some?
            && Meaning(nodes, objects, world).value
               == small[last.id := Rel(ValidateNode(last, objects, Schemas(small)).value,
                                       NodeRows(last, objects, world, small))]
  {
  }

  lemma ValidateUnfold(nodes: seq<Node>, objects: seq<TableObject>)
    requires nodes != [] && ValidateNodes(nodes, objects).Some?
    ensures ValidateNodes(nodes[..|nodes| - 1], objects).Some?
    ensures var small := ValidateNodes(nodes[..|nodes| - 1], objects).value;
            var last := nodes[|nodes| - 1];
            && last.id !in small && WellFormed(last)
            && ValidateNode(last, objects, small).Some?
            && ValidateNodes(nodes, objects).value == small[last.id := ValidateNode(last, objects, small).value]
  {
  }
}
