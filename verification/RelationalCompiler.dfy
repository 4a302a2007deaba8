/** Compilation of a canonical plan into DROP/CREATE statements with WITH chains.
    Models ontology_core/relational_compiler.py. */
module RelationalCompiler {
  import opened SeqOps
  import opened Sql
  import opened RelationalPlan

  const MAX_STEPS := 99

  // ----- schema derivation, written independently of validation -----

  function FromOutputs(outputs: seq<(Column, Datatype)>): Schema {
    if outputs == [] then map[]
    else FromOutputs(outputs[..|outputs| - 1])[outputs[|outputs| - 1].0 := outputs[|outputs| - 1].1]
  }

  function FieldType(objects: seq<TableObject>, table: Ref, field: Ref): Datatype {
    var owner := FindObject(objects, table);
    var f := FindField(if owner.None? then [] else owner.value.fields, field);
    if f.None? then XSD_INTEGER else f.value.dtype
  }

  function ScanTypes(scanned: seq<ScanColumn>, fields: seq<Field>): seq<(Column, Datatype)> {
    Map((c: ScanColumn) =>
      (c.name, var f := FindField(fields, c.field); if f.None? then XSD_INTEGER else f.value.dtype), scanned)
  }

  function UnionTypes(united: seq<UnionColumn>, schemas: map<NodeId, Schema>): seq<(Column, Datatype)> {
    Map((c: UnionColumn) =>
      (c.name, if c.sources == [] then XSD_INTEGER
               else TypeOr(SchemaOf(schemas, c.sources[0].node), c.sources[0].column)), united)
  }

  function JoinTypes(columns: seq<DerivedColumn>, schemas: map<NodeId, Schema>): seq<(Column, Datatype)> {
    Map((c: DerivedColumn) => (c.name, TypeOr(SchemaOf(schemas, c.source.node), c.source.column)), columns)
  }

  function DirectTypes(columns: seq<DerivedColumn>, schema: Schema): seq<(Column, Datatype)> {
    Map((c: DerivedColumn) => (c.name, TypeOr(schema, c.source.column)), columns)
  }

  function AggregateTypes(aggregations: seq<AggregateColumn>, schema: Schema): seq<(Column, Datatype)> {
    Map((c: AggregateColumn) =>
      (c.name, if c.fn == Count || c.source.None? then XSD_INTEGER else TypeOr(schema, c.source.value.column)),
          aggregations)
  }

  function DeriveNode(node: Node, objects: seq<TableObject>, schemas: map<NodeId, Schema>): Schema {
    match node
    case ScanNode(_, table, scanned) =>
      var owner := FindObject(objects, table);
      FromOutputs(ScanTypes(scanned, if owner.None? then [] else owner.value.fields))
    case UnionNode(_, _, united) => FromOutputs(UnionTypes(united, schemas))
    case JoinNode(_, _, _, _, _, _, _, columns) => FromOutputs(JoinTypes(columns, schemas))
    case FilterNode(_, input, _) => SchemaOf(schemas, input)
    case ProjectNode(_, input, columns) => FromOutputs(DirectTypes(columns, SchemaOf(schemas, input)))
    case AggregateNode(_, input, groupBy, aggregations) =>
      FromOutputs(DirectTypes(groupBy, SchemaOf(schemas, input))
                  + AggregateTypes(aggregations, SchemaOf(schemas, input)))
    case MaterializeNode(_, input, _) => SchemaOf(schemas, input)
  }

  function DeriveSchemas(nodes: seq<Node>, objects: seq<TableObject>): map<NodeId, Schema> {
    if nodes == [] then map[]
    else
      var before := DeriveSchemas(nodes[..|nodes| - 1], objects);
      before[nodes[|nodes| - 1].id := DeriveNode(nodes[|nodes| - 1], objects, before)]
  }

  lemma {:induction false} CollectedIsDerived(outputs: seq<Output>, derived: seq<(Column, Datatype)>)
    requires Collect(outputs).Some? && |derived| == |outputs|
    requires forall i :: 0 <= i < |outputs| ==>
               derived[i].0 == outputs[i].name && (outputs[i].dtype.Some? ==> derived[i].1 == outputs[i].dtype.value)
    ensures FromOutputs(derived) == Collect(outputs).value
  {
    if outputs != [] {
      CollectedIsDerived(outputs[..|outputs| - 1], derived[..|derived| - 1]);
    }
  }

  lemma {:induction false} CollectedTypes(outputs: seq<Output>, i: nat)
    requires Collect(outputs).Some? && i < |outputs|
    ensures outputs[i].dtype.Some?
  {
    if i < |outputs| - 1 {
      CollectedTypes(outputs[..|outputs| - 1], i);
    }
  }

  lemma UnionTypesAgree(united: seq<UnionColumn>, inputs: seq<NodeId>, schemas: map<NodeId, Schema>)
    requires Collect(UnionOutputs(united, inputs, schemas)).Some?
    ensures FromOutputs(UnionTypes(united, schemas)) == Collect(UnionOutputs(united, inputs, schemas)).value
  {
    var outputs := UnionOutputs(united, inputs, schemas);
    forall i | 0 <= i < |outputs| ensures outputs[i].dtype.Some? {
      CollectedTypes(outputs, i);
    }
    CollectedIsDerived(outputs, UnionTypes(united, schemas));
  }

  lemma JoinTypesAgree(columns: seq<DerivedColumn>, left: NodeId, right: NodeId, joinType: JoinType,
          schemas: map<NodeId, Schema>)
    requires Collect(JoinOutputs(columns, left, right, joinType, schemas)).Some?
    ensures FromOutputs(JoinTypes(columns, schemas))
            == Collect(JoinOutputs(columns, left, right, joinType, schemas)).value
  {
    CollectedIsDerived(JoinOutputs(columns, left, right, joinType, schemas), JoinTypes(columns, schemas));
  }

  lemma ScanTypesAgree(scanned: seq<ScanColumn>, fields: seq<Field>)
    requires Collect(ScanOutputs(scanned, fields)).Some?
    ensures FromOutputs(ScanTypes(scanned, fields)) == Collect(ScanOutputs(scanned, fields)).value
  {
    CollectedIsDerived(ScanOutputs(scanned, fields), ScanTypes(scanned, fields));
  }

  lemma DirectTypesAgree(columns: seq<DerivedColumn>, input: NodeId, schema: Schema)
    requires Collect(DirectOutputs(columns, input, schema)).Some?
    ensures FromOutputs(DirectTypes(columns, schema)) == Collect(DirectOutputs(columns, input, schema)).value
  {
    CollectedIsDerived(DirectOutputs(columns, input, schema), DirectTypes(columns, schema));
  }

  lemma AggregateTypesAgree(groupBy: seq<DerivedColumn>, aggregations: seq<AggregateColumn>, input: NodeId,
          schema: Schema)
    requires Collect(DirectOutputs(groupBy, input, schema) + AggregateOutputs(aggregations, input, schema)).Some?
    ensures FromOutputs(DirectTypes(groupBy, schema) + AggregateTypes(aggregations, schema))
         == Collect(DirectOutputs(groupBy, input, schema) + AggregateOutputs(aggregations, input, schema)).value
  {
    CollectedIsDerived(DirectOutputs(groupBy, input, schema) + AggregateOutputs(aggregations, input, schema),
                       DirectTypes(groupBy, schema) + AggregateTypes(aggregations, schema));
  }

  /** On an accepted node the compiler's schema is the validator's. */
  lemma DerivedNodeAgrees(node: Node, objects: seq<TableObject>, schemas: map<NodeId, Schema>)
    requires ValidateNode(node, objects, schemas).Some?
    ensures DeriveNode(node, objects, schemas) == ValidateNode(node, objects, schemas).value
  {
    hide ScanOutputs, ScanTypes, UnionOutputs, UnionTypes, JoinOutputs, JoinTypes, DirectOutputs, DirectTypes,
      AggregateOutputs, AggregateTypes, Collect, FromOutputs, ConditionOk, LeavesDirect, FindObject;
    match node
    case ScanNode(_, table, scanned) => ScanTypesAgree(scanned, FindObject(objects, table).value.fields);
    case UnionNode(_, inputs, united) => UnionTypesAgree(united, inputs, schemas);
    case JoinNode(_, left, right, joinType, _, _, _,
                  columns) => JoinTypesAgree(columns, left, right, joinType, schemas);
    case FilterNode(_, _, _) =>
    case ProjectNode(_, input, columns) => DirectTypesAgree(columns, input, schemas[input]);
    case AggregateNode(_, input, groupBy,
                       aggregations) => AggregateTypesAgree(groupBy, aggregations, input, schemas[input]);
    case MaterializeNode(_, _, _) =>
  }

  lemma {:induction false} DerivedSchemasAgree(nodes: seq<Node>, objects: seq<TableObject>)
    requires ValidateNodes(nodes, objects).Some?
    ensures DeriveSchemas(nodes, objects) == ValidateNodes(nodes, objects).value
  {
    if nodes != [] {
      var before := nodes[..|nodes| - 1];
      DerivedSchemasAgree(before, objects);
      DerivedNodeAgrees(nodes[|nodes| - 1], objects, ValidateNodes(before, objects).value);
    }
  }

  // ----- queries of single nodes -----

  function RelationOf(id: NodeId, targets: map<NodeId, Target>): Relation {
    if id in targets then Temp(targets[id]) else Cte(id)
  }

  function SourceOf(id: NodeId, targets: map<NodeId, Target>): Source {
    Source(RelationOf(id, targets), NodeAlias(id))
  }

  function ColumnOf(ref: LogicalRef): ColRef {
    ColRef(NodeAlias(ref.node), ref.column)
  }

  function TypedColumn(schema: Schema): LogicalRef -> TypedRef {
    (ref: LogicalRef) => TypedRef(ColumnOf(ref), TypeOr(schema, ref.column))
  }

  function ItemsOf(columns: seq<DerivedColumn>): seq<Item> {
    Map((d: DerivedColumn) => Item(ColumnOf(d.source), d.name), columns)
  }

  function ScanItems(id: NodeId, fields: seq<Field>, scanned: seq<ScanColumn>): seq<Item> {
    Map((c: ScanColumn) =>
      var f := FindField(fields, c.field);
      Item(ColRef(NodeAlias(id), if f.None? then Carried(0) else Physical(f.value.physical)), c.name), scanned)
  }

  function BranchItems(united: seq<UnionColumn>, branch: nat, input: NodeId): seq<Item> {
    Map((c: UnionColumn) =>
      Item(ColRef(NodeAlias(input), if branch < |c.sources| then c.sources[branch].column else Carried(0)), c.name),
          united)
  }

  function Branches(node: Node, k: nat, targets: map<NodeId, Target>): seq<Select>
    requires node.UnionNode? && k <= |node.inputs|
  {
    if k == 0 then []
    else
      var input := node.inputs[k - 1];
      Branches(node, k - 1, targets)
          + [Select(BranchItems(node.united, k - 1, input), SourceOf(input, targets), [], [])]
  }

  function OnClause(node: Node, schemas: map<NodeId, Schema>): seq<OnCond>
    requires node.JoinNode?
  {
    Map((c: JoinCondition) => Equal(ColumnOf(c.left), ColumnOf(c.right)), node.conditions)
    + Map((p: Pred<LogicalRef>) => Test(Rename(p, TypedColumn(SchemaOf(schemas, node.right)))), node.matchFilters)
  }

  /** COUNT(*) has no argument; its item points at a column that no relation has. */
  function AggItemOf(input: NodeId, a: AggregateColumn): AggItem {
    AggItem(SpecOf(a), if a.source.None? then ColRef(TableAlias(0), Carried(0)) else ColumnOf(a.source.value))
  }

  function NodeQuery(node: Node, objects: seq<TableObject>, schemas: map<NodeId, Schema>,
          targets: map<NodeId, Target>): Query
  {
    match node
    case ScanNode(id, table, scanned) =>
      var owner := FindObject(objects, table);
      Plain(Select(ScanItems(id, if owner.None? then [] else owner.value.fields, scanned),
                   Source(Base(table), NodeAlias(id)), [], []))
    case UnionNode(_, inputs, _) => UnionAll(Branches(node, |inputs|, targets))
    case JoinNode(_, left, right, joinType, strategy, conditions, _, columns) =>
      var on := OnClause(node, schemas);
      if joinType == Anti && strategy == ViaNotExists then
        Plain(Select(ItemsOf(columns), SourceOf(left, targets), [], [NotExists(SourceOf(right, targets), on)]))
      else
        Plain(Select(ItemsOf(columns), SourceOf(left, targets),
                     [JoinClause(joinType != Inner, SourceOf(right, targets), on)],
                     if joinType == Anti && conditions != [] then [IsNull(ColumnOf(conditions[0].right))] else []))
    case FilterNode(_, input, predicates) =>
      Star(SourceOf(input, targets),
           Map((p: Pred<LogicalRef>) => Holds(Rename(p, TypedColumn(SchemaOf(schemas, input)))), predicates))
    case ProjectNode(_, input, columns) =>
      Plain(Select(ItemsOf(columns), SourceOf(input, targets), [], []))
    case AggregateNode(_, input, groupBy, aggregations) =>
      Grouped(ItemsOf(groupBy),
              Map((a: AggregateColumn) => AggItemOf(input, a), aggregations), SourceOf(input, targets))
    case MaterializeNode(_, input, _) => Star(SourceOf(input, targets), [])
  }

  // ----- a node's query computes the node's rows -----

  /** Every dependency of the node is stored where its query will look for it. */
  ghost predicate InputsReady(node: Node, targets: map<NodeId, Target>, c: Context, env: map<NodeId, Rel>) {
    forall d :: d in Dependencies(node) ==> d in env && Rows(RelationOf(d, targets), c) == env[d].rows
  }

  lemma {:induction false} ItemsAreDerived(columns: seq<DerivedColumn>, scope: Scope, look: LogicalRef -> Value)
    requires forall ref :: At(scope, ColumnOf(ref)) == look(ref)
    ensures ItemRow(ItemsOf(columns), scope) == DerivedRow(columns, look)
  {
    if columns != [] {
      ItemsAreDerived(columns[..|columns| - 1], scope, look);
      assert ItemsOf(columns)[..|columns| - 1] == ItemsOf(columns[..|columns| - 1]);
      assert At(scope, ColumnOf(columns[|columns| - 1].source)) == look(columns[|columns| - 1].source);
    }
  }

  lemma {:induction false} DirectItems(columns: seq<DerivedColumn>, input: NodeId, row: Row)
    requires forall d :: d in columns ==> d.source.node == input
    ensures ItemRow(ItemsOf(columns), map[NodeAlias(input) := row]) == DerivedRow(columns, RowLook(row))
  {
    if columns != [] {
      DirectItems(columns[..|columns| - 1], input, row);
      assert ItemsOf(columns)[..|columns| - 1] == ItemsOf(columns[..|columns| - 1]);
    }
  }

  lemma {:induction false} ScanItemsAreScanned(id: NodeId, fields: seq<Field>, scanned: seq<ScanColumn>, cells: Row)
    requires forall c :: c in scanned ==> FindField(fields, c.field).Some?
    ensures ItemRow(ScanItems(id, fields, scanned), map[NodeAlias(id) := cells]) == ScannedRow(scanned, fields, cells)
  {
    if scanned != [] {
      ScanItemsAreScanned(id, fields, scanned[..|scanned| - 1], cells);
      assert ScanItems(id, fields, scanned)[..|scanned| - 1] == ScanItems(id, fields, scanned[..|scanned| - 1]);
    }
  }

  lemma {:induction false} BranchItemsAreUnited(united: seq<UnionColumn>, branch: nat, input: NodeId, row: Row)
    requires forall c :: c in united ==> branch < |c.sources|
    ensures ItemRow(BranchItems(united, branch, input), map[NodeAlias(input) := row]) == UnitedRow(united, branch, row)
  {
    if united != [] {
      BranchItemsAreUnited(united[..|united| - 1], branch, input, row);
      assert BranchItems(united, branch, input)[..|united| - 1] == BranchItems(united[..|united| - 1], branch, input);
    }
  }

  // A select over one relation, without joins or WHERE, maps its rows.
  lemma SelectOne(s: Select, f: Row -> Row, c: Context)
    requires s.joins == [] && s.where == []
    requires forall r :: r in Rows(s.from.relation, c) ==> ItemRow(s.items, map[s.from.alias := r]) == f(r)
    ensures EvalSelect(s, c) == Map(f, Rows(s.from.relation, c))
  {
    var start := (r: Row) => map[s.from.alias := r];
    var scopes := Map(start, Rows(s.from.relation, c));
    FilterAll((scope: Scope) => AllWhere(s.where, scope, c), scopes);
    MapMap(start, (scope: Scope) => ItemRow(s.items, scope), f, Rows(s.from.relation, c));
  }

  lemma ScanQueryRows(node: Node, objects: seq<TableObject>, schemas: map<NodeId, Schema>, targets: map<NodeId, Target>,
                      c: Context, env: map<NodeId, Rel>)
    requires node.ScanNode? && ValidateNode(node, objects, schemas).Some?
    ensures EvalQuery(NodeQuery(node, objects, schemas, targets), c) == NodeRows(node, objects, c.world, env)
  {
    var fields := FindObject(objects, node.table).value.fields;
    var s := NodeQuery(node, objects, schemas, targets).select;
    var outputs := ScanOutputs(node.scanned, fields);
    forall i | 0 <= i < |node.scanned| ensures FindField(fields, node.scanned[i].field).Some? {
      CollectedTypes(outputs, i);
    }
    var f := (r: Row) => ScannedRow(node.scanned, fields, r);
    forall r | r in Rows(s.from.relation, c) ensures ItemRow(s.items, map[s.from.alias := r]) == f(r) {
      ScanItemsAreScanned(node.id, fields, node.scanned, r);
    }
    SelectOne(s, f, c);
    MapMap((b: BaseRow) => b.cells, f, (b: BaseRow) => ScannedRow(node.scanned, fields,
                                                                  b.cells), Stored(c.world, node.table));
  }

  lemma OneBranchRows(node: Node, branch: nat, targets: map<NodeId, Target>, c: Context, rows: seq<Row>)
    requires node.UnionNode? && branch < |node.inputs|
    requires forall u :: u in node.united ==> |u.sources| == |node.inputs|
    requires Rows(RelationOf(node.inputs[branch], targets), c) == rows
    ensures EvalSelect(Select(BranchItems(node.united, branch, node.inputs[branch]),
                              SourceOf(node.inputs[branch], targets), [], []), c)
         == Map((r: Row) => UnitedRow(node.united, branch, r), rows)
  {
    var input := node.inputs[branch];
    var s := Select(BranchItems(node.united, branch, input), SourceOf(input, targets), [], []);
    var f := (r: Row) => UnitedRow(node.united, branch, r);
    forall r | r in rows ensures ItemRow(s.items, map[s.from.alias := r]) == f(r) {
      BranchItemsAreUnited(node.united, branch, input, r);
    }
    SelectOne(s, f, c);
  }

  lemma EvalBranchesSnoc(branches: seq<Select>, s: Select, c: Context)
    ensures EvalBranches(branches + [s], c) == EvalBranches(branches, c) + EvalSelect(s, c)
  {
    assert (branches + [s])[..|branches|] == branches;
  }

  lemma NoBranchRows(c: Context)
    ensures EvalBranches([], c) == []
  {
  }

  lemma {:induction false} BranchRows(node: Node, k: nat, targets: map<NodeId, Target>, c: Context,
          env: map<NodeId, Rel>)
    requires node.UnionNode? && k <= |node.inputs|
    requires forall u :: u in node.united ==> |u.sources| == |node.inputs|
    requires forall i :: i in node.inputs ==> i in env && Rows(RelationOf(i, targets), c) == env[i].rows
    ensures EvalBranches(Branches(node, k, targets), c) == UnitedRows(node, k, env)
  {
    hide EvalSelect, EvalBranches, UnitedRow, BranchItems, Rows, RelationOf, SourceOf;
    if k == 0 {
      NoBranchRows(c);
    } else {
      BranchRows(node, k - 1, targets, c, env);
      var before := Branches(node, k - 1, targets);
      var input := node.inputs[k - 1];
      var s := Select(BranchItems(node.united, k - 1, input), SourceOf(input, targets), [], []);
      assert Branches(node, k, targets) == before + [s];
      EvalBranchesSnoc(before, s, c);
      OneBranchRows(node, k - 1, targets, c, RelOf(env, input).rows);
    }
  }

  lemma {:induction false} FirstOccurrencesKeepsMembers<A(!new)>(xs: seq<A>)
    ensures forall x :: x in xs <==> x in FirstOccurrences(xs)
    ensures NoDup(FirstOccurrences(xs))
  {
    if xs != [] {
      FirstOccurrencesKeepsMembers(xs[..|xs| - 1]);
      assert xs == xs[..|xs| - 1] + [xs[|xs| - 1]];
    }
  }

  lemma UnionQueryRows(node: Node, objects: seq<TableObject>, schemas: map<NodeId, Schema>,
          targets: map<NodeId, Target>,
                       c: Context, env: map<NodeId, Rel>)
    requires node.UnionNode? && ValidateNode(node, objects, schemas).Some?
    requires InputsReady(node, targets, c, env)
    ensures EvalQuery(NodeQuery(node, objects, schemas, targets), c) == NodeRows(node, objects, c.world, env)
  {
    var outputs := UnionOutputs(node.united, node.inputs, schemas);
    forall i | 0 <= i < |node.united| ensures |node.united[i].sources| == |node.inputs| {
      CollectedTypes(outputs, i);
    }
    FirstOccurrencesKeepsMembers(node.inputs);
    BranchRows(node, |node.inputs|, targets, c, env);
  }

  // ----- joins -----

  lemma TypedLeaf(p: Pred<LogicalRef>, input: NodeId, schema: Schema, row: Row, scope: Scope, lit: Literals)
    requires forall l :: l in Leaves(p) ==> l.node == input
    requires NodeAlias(input) in scope && scope[NodeAlias(input)] == row
    ensures Eval(Rename(p, TypedColumn(schema)), TypedLook(scope), lit) == Eval(p, RefLook(row, schema), lit)
  {
    RenameKeepsTruth(p, TypedColumn(schema), TypedLook(scope), RefLook(row, schema), lit);
  }

  /** ON holds of a pair exactly when the plan calls the pair a match. */
  lemma OnSize(node: Node, schemas: map<NodeId, Schema>)
    requires node.JoinNode?
    ensures |OnClause(node, schemas)| == |node.conditions| + |node.matchFilters|
  {
  }

  lemma KeyTestIs(node: Node, schemas: map<NodeId, Schema>, l: Row, r: Row, c: Context, i: nat)
    requires node.JoinNode? && node.left != node.right && i < |node.conditions|
    requires forall d :: d in node.conditions ==> ConditionOk(d, node.left, node.right, schemas)
    ensures i < |OnClause(node, schemas)|
    ensures OnHolds(OnClause(node, schemas)[i], map[NodeAlias(node.left) := l][NodeAlias(node.right) := r], c) <==>
            Compare(EQ, Cell(l, node.conditions[i].left.column), Cell(r, node.conditions[i].right.column)) == True
  {
    assert node.conditions[i] in node.conditions;
  }

  lemma FilterTestIs(node: Node, schemas: map<NodeId, Schema>, l: Row, r: Row, c: Context, i: nat)
    requires node.JoinNode? && node.left != node.right && node.right in schemas && i < |node.matchFilters|
    requires LeavesDirect(node.matchFilters, node.right, schemas[node.right])
    ensures |node.conditions| + i < |OnClause(node, schemas)|
    ensures var scope: Scope := map[NodeAlias(node.left) := l][NodeAlias(node.right) := r];
            OnHolds(OnClause(node, schemas)[|node.conditions| + i], scope, c) <==>
            Eval(node.matchFilters[i], RefLook(r, schemas[node.right]), c.world.literal) == True
  {
    var scope: Scope := map[NodeAlias(node.left) := l][NodeAlias(node.right) := r];
    assert node.matchFilters[i] in node.matchFilters;
    forall leaf | leaf in Leaves(node.matchFilters[i]) ensures leaf.node == node.right {
      assert DirectType(leaf, node.right, schemas[node.right]).Some?;
    }
    TypedLeaf(node.matchFilters[i], node.right, schemas[node.right], r, scope, c.world.literal);
  }

  lemma OnIsMatch(node: Node, schemas: map<NodeId, Schema>, l: Row, r: Row, c: Context)
    requires node.JoinNode? && node.left != node.right && node.right in schemas
    requires forall d :: d in node.conditions ==> ConditionOk(d, node.left, node.right, schemas)
    requires LeavesDirect(node.matchFilters, node.right, schemas[node.right])
    ensures AllOn(OnClause(node, schemas), map[NodeAlias(node.left) := l][NodeAlias(node.right) := r], c)
        <==> Matches(node, l, r, schemas[node.right], c.world)
  {
    hide OnClause, OnHolds, ConditionOk, LeavesDirect, RefLook;
    var scope: Scope := map[NodeAlias(node.left) := l][NodeAlias(node.right) := r];
    var on := OnClause(node, schemas);
    var n := |node.conditions|;
    OnSize(node, schemas);
    forall i | 0 <= i < |on|
      ensures i < n ==> (OnHolds(on[i], scope, c) <==>
                Compare(EQ, Cell(l, node.conditions[i].left.column), Cell(r, node.conditions[i].right.column)) == True)
      ensures i >= n ==> (OnHolds(on[i], scope, c) <==>
                Eval(node.matchFilters[i - n], RefLook(r, schemas[node.right]), c.world.literal) == True)
    {
      if i < n {
        KeyTestIs(node, schemas, l, r, c, i);
      } else {
        FilterTestIs(node, schemas, l, r, c, i - n);
      }
    }
    if AllOn(on, scope, c) {
      forall d | d in node.conditions
        ensures Compare(EQ, Cell(l, d.left.column), Cell(r, d.right.column)) == True {
        var i :| 0 <= i < n && node.conditions[i] == d;
        assert OnHolds(on[i], scope, c);
      }
      forall p | p in node.matchFilters
        ensures Eval(p, RefLook(r, schemas[node.right]), c.world.literal) == True {
        var i :| 0 <= i < |node.matchFilters| && node.matchFilters[i] == p;
        assert OnHolds(on[n + i], scope, c);
      }
    }
  }

  lemma PairItems(node: Node, l: Row, r: Row)
    requires node.JoinNode? && node.left != node.right
    ensures ItemRow(ItemsOf(node.columns), map[NodeAlias(node.left) := l][NodeAlias(node.right) := r])
         == DerivedRow(node.columns, PairLook(node, l, r))
  {
    ItemsAreDerived(node.columns, map[NodeAlias(node.left) := l][NodeAlias(node.right) := r], PairLook(node, l, r));
  }

  lemma LeftItems(node: Node, l: Row)
    requires node.JoinNode? && node.left != node.right
    ensures ItemRow(ItemsOf(node.columns), map[NodeAlias(node.left) := l])
            == DerivedRow(node.columns, PairLook(node, l, map[]))
  {
    ItemsAreDerived(node.columns, map[NodeAlias(node.left) := l], PairLook(node, l, map[]));
  }

  ghost predicate JoinReady(node: Node, schemas: map<NodeId, Schema>, targets: map<NodeId, Target>, c: Context,
          right: Rel) {
    && node.JoinNode? && node.left != node.right && node.conditions != []
    && node.right in schemas && schemas[node.right] == right.schema
    && (forall d :: d in node.conditions ==> ConditionOk(d, node.left, node.right, schemas))
    && LeavesDirect(node.matchFilters, node.right, schemas[node.right])
    && Rows(RelationOf(node.right, targets), c) == right.rows
  }

  function MatchRows(node: Node, l: Row, right: Rel, world: World): seq<Row>
    requires node.JoinNode?
  {
    Filter((r: Row) => Matches(node, l, r, right.schema, world), right.rows)
  }

  lemma PartnersAreMatches(node: Node, schemas: map<NodeId, Schema>, targets: map<NodeId, Target>, c: Context,
          right: Rel, l: Row)
    requires JoinReady(node, schemas, targets, c, right)
    ensures Partners(SourceOf(node.right, targets), OnClause(node, schemas), map[NodeAlias(node.left) := l], c)
         == MatchRows(node, l, right, c.world)
  {
    var scope: Scope := map[NodeAlias(node.left) := l];
    forall r | r in right.rows
      ensures AllOn(OnClause(node, schemas), scope[NodeAlias(node.right) := r], c)
              == Matches(node, l, r, right.schema, c.world) {
      OnIsMatch(node, schemas, l, r, c);
    }
    FilterCong((r: Row) => AllOn(OnClause(node, schemas), scope[NodeAlias(node.right) := r], c),
               (r: Row) => Matches(node, l, r, right.schema, c.world), right.rows);
  }

  lemma MatchedKeyIsPresent(node: Node, l: Row, r: Row, schema: Schema, world: World)
    requires node.JoinNode? && node.left != node.right && node.conditions != [] && Matches(node, l, r, schema, world)
    requires node.conditions[0].right.node == node.right
    ensures At(map[NodeAlias(node.left) := l][NodeAlias(node.right) := r], ColumnOf(node.conditions[0].right)).Datum?
  {
    assert node.conditions[0] in node.conditions;
  }

  /** LEFT JOIN or INNER JOIN of one left row; for an anti join the added IS NULL on the key
      removes every matched pair and keeps exactly the padded row. */
  lemma OuterScopeRows(node: Node, schemas: map<NodeId, Schema>, targets: map<NodeId, Target>, c: Context, right: Rel,
          l: Row)
    requires JoinReady(node, schemas, targets, c, right)
    ensures var clause := JoinClause(node.joinType != Inner, SourceOf(node.right, targets), OnClause(node, schemas));
            var where := if node.joinType == Anti then [IsNull(ColumnOf(node.conditions[0].right))] else [];
            Map((scope: Scope) => ItemRow(ItemsOf(node.columns), scope),
                Filter((scope: Scope) => AllWhere(where, scope,
                                                  c), JoinScope(map[NodeAlias(node.left) := l], clause, c)))
            == JoinRow(node, l, right, c.world)
  {
    hide Matches, OnClause, OnHolds, AllOn, Rows, LeavesDirect, ItemRow, DerivedRow, ItemsOf, Eval, AllTrue;
    var la, ra := NodeAlias(node.left), NodeAlias(node.right);
    var clause := JoinClause(node.joinType != Inner, SourceOf(node.right, targets), OnClause(node, schemas));
    var where: seq<WhereCond> := if node.joinType == Anti then [IsNull(ColumnOf(node.conditions[0].right))] else [];
    var w := (scope: Scope) => AllWhere(where, scope, c);
    var items := (scope: Scope) => ItemRow(ItemsOf(node.columns), scope);
    var pair := (r: Row) => map[la := l][ra := r];
    var matches := MatchRows(node, l, right, c.world);
    PartnersAreMatches(node, schemas, targets, c, right, l);
    if node.joinType != Inner && matches == [] {
      var padded: Scope := map[la := l][ra := map[]];
      assert JoinScope(map[la := l], clause, c) == [padded];
      forall i | 0 <= i < |where| ensures WhereHolds(where[i], padded, c) {
        assert ConditionOk(node.conditions[0], node.left, node.right, schemas);
        assert where[i] == IsNull(ColRef(ra, node.conditions[0].right.column));
        assert padded[ra] == map[];
      }
      FilterAll(w, [padded]);
      PairItems(node, l, map[]);
      assert Map(items, [padded]) == [items(padded)];
    } else {
      assert JoinScope(map[la := l], clause, c) == Map(pair, matches) by {
        MapCong((r: Row) => map[la := l][clause.source.alias := r], pair, matches);
      }
      if node.joinType == Anti {
        forall scope | scope in Map(pair, matches) ensures !w(scope) {
          var r :| r in matches && scope == pair(r);
          assert ConditionOk(node.conditions[0], node.left, node.right, schemas);
          MatchedKeyIsPresent(node, l, r, right.schema, c.world);
          assert !WhereHolds(where[0], scope, c);
        }
        FilterNone(w, Map(pair, matches));
      } else {
        FilterAll(w, Map(pair, matches));
        forall r | r in matches ensures items(pair(r)) == DerivedRow(node.columns, PairLook(node, l, r)) {
          PairItems(node, l, r);
        }
        MapMap(pair, items, (r: Row) => DerivedRow(node.columns, PairLook(node, l, r)), matches);
      }
    }
  }

  lemma OuterJoinRows(node: Node, schemas: map<NodeId, Schema>, targets: map<NodeId, Target>, c: Context,
          left: seq<Row>, right: Rel)
    requires JoinReady(node, schemas, targets, c, right)
    requires Rows(RelationOf(node.left, targets), c) == left
    ensures var clause := JoinClause(node.joinType != Inner, SourceOf(node.right, targets), OnClause(node, schemas));
            var where := if node.joinType == Anti then [IsNull(ColumnOf(node.conditions[0].right))] else [];
            EvalSelect(Select(ItemsOf(node.columns), SourceOf(node.left, targets), [clause], where), c)
            == FlatMap((l: Row) => JoinRow(node, l, right, c.world), left)
  {
    var clause := JoinClause(node.joinType != Inner, SourceOf(node.right, targets), OnClause(node, schemas));
    var where: seq<WhereCond> := if node.joinType == Anti then [IsNull(ColumnOf(node.conditions[0].right))] else [];
    var w := (scope: Scope) => AllWhere(where, scope, c);
    var items := (scope: Scope) => ItemRow(ItemsOf(node.columns), scope);
    var start := (r: Row) => map[NodeAlias(node.left) := r];
    var extend := (scope: Scope) => JoinScope(scope, clause, c);
    var direct := (l: Row) => JoinScope(map[NodeAlias(node.left) := l], clause, c);
    var from := SourceOf(node.left, targets);
    assert [clause][..0] == [];
    assert FromScopes(from, [], c) == Map(start, left) by {
      MapCong((r: Row) => map[from.alias := r], start, left);
    }
    assert FromScopes(from, [clause], c) == FlatMap(direct, left) by {
      FlatMapMap(start, extend, direct, left);
    }
    forall l | l in left ensures JoinRow(node, l, right, c.world) == Map(items, Filter(w, direct(l))) {
      OuterScopeRows(node, schemas, targets, c, right, l);
    }
    MapFilterFlatMap(items, w, direct, (l: Row) => JoinRow(node, l, right, c.world), left);
  }

  lemma NotExistsRows(node: Node, schemas: map<NodeId, Schema>, targets: map<NodeId, Target>, c: Context,
          left: seq<Row>, right: Rel)
    requires JoinReady(node, schemas, targets, c, right) && node.joinType == Anti
    requires Rows(RelationOf(node.left, targets), c) == left
    ensures EvalSelect(Select(ItemsOf(node.columns), SourceOf(node.left, targets), [],
                              [NotExists(SourceOf(node.right, targets), OnClause(node, schemas))]), c)
            == FlatMap((l: Row) => JoinRow(node, l, right, c.world), left)
  {
    var where: seq<WhereCond> := [NotExists(SourceOf(node.right, targets), OnClause(node, schemas))];
    var w := (scope: Scope) => AllWhere(where, scope, c);
    var items := (scope: Scope) => ItemRow(ItemsOf(node.columns), scope);
    var from := SourceOf(node.left, targets);
    var start := (r: Row) => map[from.alias := r];
    forall l | l in left
      ensures JoinRow(node, l, right, c.world) == if w(start(l)) then [items(start(l))] else [] {
      PartnersAreMatches(node, schemas, targets, c, right, l);
      assert w(start(l)) <==> WhereHolds(where[0], start(l), c);
      LeftItems(node, l);
    }
    MapFilterMap(items, w, start, (l: Row) => JoinRow(node, l, right, c.world), left);
  }

  /** Both anti-join strategies return the same rows, NULL keys and duplicates included. */
  lemma AntiStrategiesAgree(node: Node, schemas: map<NodeId, Schema>, targets: map<NodeId, Target>, c: Context,
                            left: seq<Row>, right: Rel)
    requires JoinReady(node, schemas, targets, c, right) && node.joinType == Anti
    requires Rows(RelationOf(node.left, targets), c) == left
    ensures EvalSelect(Select(ItemsOf(node.columns), SourceOf(node.left, targets), [],
                              [NotExists(SourceOf(node.right, targets), OnClause(node, schemas))]), c)
         == EvalSelect(Select(ItemsOf(node.columns), SourceOf(node.left, targets),
                              [JoinClause(true, SourceOf(node.right, targets), OnClause(node, schemas))],
                              [IsNull(ColumnOf(node.conditions[0].right))]), c)
  {
    NotExistsRows(node, schemas, targets, c, left, right);
    OuterJoinRows(node, schemas, targets, c, left, right);
  }

  // ----- the remaining node kinds -----

  lemma FilterQueryRows(node: Node, objects: seq<TableObject>, schemas: map<NodeId, Schema>,
          targets: map<NodeId, Target>,
                        c: Context, env: map<NodeId, Rel>)
    requires node.FilterNode? && node.input in env && node.input in schemas
    requires schemas[node.input] == env[node.input].schema
    requires LeavesDirect(node.predicates, node.input, schemas[node.input])
    requires InputsReady(node, targets, c, env)
    ensures EvalQuery(NodeQuery(node, objects, schemas, targets), c) == NodeRows(node, objects, c.world, env)
  {
    var schema := schemas[node.input];
    var q := NodeQuery(node, objects, schemas, targets);
    assert node.input in Dependencies(node);
    forall r | r in env[node.input].rows
      ensures AllWhere(q.where, map[q.from.alias := r], c) == AllTrue(node.predicates, r, schema, c.world)
    {
      var scope: Scope := map[q.from.alias := r];
      forall i | 0 <= i < |node.predicates|
        ensures WhereHolds(q.where[i], scope, c) <==>
                Eval(node.predicates[i], RefLook(r, schema), c.world.literal) == True
      {
        assert node.predicates[i] in node.predicates;
        forall leaf | leaf in Leaves(node.predicates[i]) ensures leaf.node == node.input {
          assert DirectType(leaf, node.input, schema).Some?;
        }
        TypedLeaf(node.predicates[i], node.input, schema, r, scope, c.world.literal);
      }
      if AllWhere(q.where, scope, c) {
        forall p | p in node.predicates ensures Eval(p, RefLook(r, schema), c.world.literal) == True {
          var i :| 0 <= i < |node.predicates| && node.predicates[i] == p;
          assert WhereHolds(q.where[i], scope, c);
        }
      }
    }
    FilterCong((r: Row) => AllWhere(q.where, map[q.from.alias := r], c),
               (r: Row) => AllTrue(node.predicates, r, schema, c.world), env[node.input].rows);
  }

  lemma ProjectQueryRows(node: Node, objects: seq<TableObject>, schemas: map<NodeId, Schema>,
          targets: map<NodeId, Target>,
                         c: Context, env: map<NodeId, Rel>)
    requires node.ProjectNode? && ValidateNode(node, objects, schemas).Some?
    requires InputsReady(node, targets, c, env)
    ensures EvalQuery(NodeQuery(node, objects, schemas, targets), c) == NodeRows(node, objects, c.world, env)
  {
    var outputs := DirectOutputs(node.columns, node.input, schemas[node.input]);
    forall i | 0 <= i < |node.columns| ensures node.columns[i].source.node == node.input {
      CollectedTypes(outputs, i);
    }
    assert node.input in Dependencies(node);
    var s := NodeQuery(node, objects, schemas, targets).select;
    var f := (r: Row) => DerivedRow(node.columns, RowLook(r));
    forall r | r in env[node.input].rows ensures ItemRow(s.items, map[s.from.alias := r]) == f(r) {
      DirectItems(node.columns, node.input, r);
    }
    SelectOne(s, f, c);
  }

  lemma AggregateInputRow(node: Node, r: Row)
    requires node.AggregateNode?
    requires forall d :: d in node.groupBy ==> d.source.node == node.input
    requires forall a :: a in node.aggregations && a.source.Some? ==> a.source.value.node == node.input
    ensures GroupInput(ItemsOf(node.groupBy), Map((a: AggregateColumn) => AggItemOf(node.input, a), node.aggregations),
                       map[NodeAlias(node.input) := r])
         == InputOf(node, r)
  {
    var scope: Scope := map[NodeAlias(node.input) := r];
    MapMap((d: DerivedColumn) => Item(ColumnOf(d.source), d.name), (k: Item) => At(scope, k.source),
           (d: DerivedColumn) => Cell(r, d.source.column), node.groupBy);
    MapMap((a: AggregateColumn) => AggItemOf(node.input, a), (a: AggItem) => At(scope, a.source),
           (a: AggregateColumn) => if a.source.None? then Null else Cell(r, a.source.value.column), node.aggregations);
  }

  lemma AggregateRefsDirect(node: Node, objects: seq<TableObject>, schemas: map<NodeId, Schema>)
    requires node.AggregateNode? && ValidateNode(node, objects, schemas).Some?
    ensures forall d :: d in node.groupBy ==> d.source.node == node.input
    ensures forall a :: a in node.aggregations && a.source.Some? ==> a.source.value.node == node.input
  {
    var schema := schemas[node.input];
    var n := |node.groupBy|;
    var outputs := DirectOutputs(node.groupBy, node.input, schema)
        + AggregateOutputs(node.aggregations, node.input, schema);
    forall i | 0 <= i < n ensures node.groupBy[i].source.node == node.input {
      CollectedTypes(outputs, i);
    }
    forall i | 0 <= i < |node.aggregations|
      ensures node.aggregations[i].source.Some? ==> node.aggregations[i].source.value.node == node.input {
      CollectedTypes(outputs, n + i);
    }
  }

  lemma AggregateQueryRows(node: Node, objects: seq<TableObject>, schemas: map<NodeId, Schema>,
          targets: map<NodeId, Target>,
                           c: Context, env: map<NodeId, Rel>)
    requires node.AggregateNode? && ValidateNode(node, objects, schemas).Some?
    requires InputsReady(node, targets, c, env)
    ensures EvalQuery(NodeQuery(node, objects, schemas, targets), c) == NodeRows(node, objects, c.world, env)
  {
    AggregateRefsDirect(node, objects, schemas);
    assert node.input in Dependencies(node);
    var q := NodeQuery(node, objects, schemas, targets);
    var viaSql := (r: Row) => GroupInput(q.keys, q.aggregates, map[q.from.alias := r]);
    var viaPlan := (r: Row) => InputOf(node, r);
    forall r | r in env[node.input].rows ensures viaSql(r) == viaPlan(r) {
      AggregateInputRow(node, r);
    }
    MapCong(viaSql, viaPlan, env[node.input].rows);
    assert Map((k: Item) => k.name, q.keys) == Map((d: DerivedColumn) => d.name, node.groupBy);
    assert Map((a: AggItem) => a.spec, q.aggregates) == Map(SpecOf, node.aggregations);
  }

  lemma JoinQueryRows(node: Node, objects: seq<TableObject>, targets: map<NodeId, Target>, c: Context,
          env: map<NodeId, Rel>)
    requires node.JoinNode? && node.conditions != [] && node.left != node.right
    requires ValidateNode(node, objects, Schemas(env)).Some?
    requires InputsReady(node, targets, c, env)
    ensures EvalQuery(NodeQuery(node, objects, Schemas(env), targets), c) == NodeRows(node, objects, c.world, env)
  {
    hide Rows, Collect, JoinOutputs, EvalSelect, RelationOf, OnClause, JoinRow;
    var schemas := Schemas(env);
    assert node.left in Dependencies(node) && node.right in Dependencies(node);
    assert JoinReady(node, schemas, targets, c, env[node.right]);
    if node.joinType == Anti && node.strategy == ViaNotExists {
      NotExistsRows(node, schemas, targets, c, env[node.left].rows, env[node.right]);
    } else {
      OuterJoinRows(node, schemas, targets, c, env[node.left].rows, env[node.right]);
    }
  }

  lemma FilterReady(node: Node, objects: seq<TableObject>, schemas: map<NodeId, Schema>)
    requires node.FilterNode? && ValidateNode(node, objects, schemas).Some?
    ensures node.input in schemas && LeavesDirect(node.predicates, node.input, schemas[node.input])
  {
  }

  /** The emitted query of a validated node computes that node's rows. */
  lemma NodeQueryRows(node: Node, objects: seq<TableObject>, targets: map<NodeId, Target>, c: Context,
          env: map<NodeId, Rel>)
    requires !node.MaterializeNode? && WellFormed(node)
    requires node.JoinNode? ==> node.left != node.right
    requires ValidateNode(node, objects, Schemas(env)).Some?
    requires InputsReady(node, targets, c, env)
    ensures EvalQuery(NodeQuery(node, objects, Schemas(env), targets), c) == NodeRows(node, objects, c.world, env)
  {
    hide NodeQuery, NodeRows, EvalQuery, ValidateNode, InputsReady, Rows;
    var schemas := Schemas(env);
    match node
    case ScanNode(_, _, _) => ScanQueryRows(node, objects, schemas, targets, c, env);
    case UnionNode(_, _, _) => UnionQueryRows(node, objects, schemas, targets, c, env);
    case JoinNode(_, _, _, _, _, _, _, _) => JoinQueryRows(node, objects, targets, c, env);
    case FilterNode(_, _, _) =>
      FilterReady(node, objects, schemas);
      FilterQueryRows(node, objects, schemas, targets, c, env);
    case ProjectNode(_, _, _) => ProjectQueryRows(node, objects, schemas, targets, c, env);
    case AggregateNode(_, _, _, _) => AggregateQueryRows(node, objects, schemas, targets, c, env);
  }

  // ----- aliases -----

  predicate AliasesDistinct(q: Query) {
    q.Plain? ==>
      && (forall i :: 0 <= i < |q.select.joins| ==> q.select.joins[i].source.alias != q.select.from.alias)
      && (forall i, j :: 0 <= i < j < |q.select.joins| ==>
            q.select.joins[i].source.alias != q.select.joins[j].source.alias)
      && (forall i :: 0 <= i < |q.select.where| && q.select.where[i].NotExists? ==>
            q.select.where[i].source.alias != q.select.from.alias)
  }

  /** A node's query names each relation once, except exactly for a join of a node with itself. */
  lemma AliasesOfNode(node: Node, objects: seq<TableObject>, schemas: map<NodeId, Schema>, targets: map<NodeId, Target>)
    requires !node.MaterializeNode? && WellFormed(node)
    ensures AliasesDistinct(NodeQuery(node, objects, schemas, targets)) <==>
            (node.JoinNode? ==> node.left != node.right)
  {
    var q := NodeQuery(node, objects, schemas, targets);
    if node.JoinNode? {
      if node.joinType == Anti && node.strategy == ViaNotExists {
        assert q.select.where[0].NotExists?;
      } else {
        assert q.select.joins[0].source.alias == NodeAlias(node.right);
      }
    }
  }

  /** Validation accepts such a join wherever an input has a column: the statement would bind one alias twice. */
  lemma SelfJoinIsAccepted(id: NodeId, input: NodeId, c: Column, objects: seq<TableObject>,
          schemas: map<NodeId, Schema>)
    requires input in schemas && c in schemas[input]
    ensures var ref := LogicalRef(input, c);
            var node := JoinNode(id, input, input, Inner, ViaLeftJoin, [JoinCondition(ref, ref)], [],
                                 [DerivedColumn(c, ref)]);
            WellFormed(node) && ValidateNode(node, objects, schemas) == Some(map[c := schemas[input][c]])
  {
    var ref := LogicalRef(input, c);
    var column := DerivedColumn(c, ref);
    var output := Output(c, Some(schemas[input][c]));
    assert JoinOutputs([column], input, input, Inner, schemas) == [output];
    assert [output][..0] == [];
    assert Collect([]) == Some(map[]);
  }

  const ONLY_FIELD := Field(0, 0, XSD_INTEGER, 0)
  const SCAN_ID := NodeId(ScanId, 1)
  const JOIN_ID := NodeId(JoinId, 1)

  /** One table scanned once, the scan joined with itself on its only column, and the result. */
  function SelfJoinPlan(): Plan {
    var ref := LogicalRef(SCAN_ID, Carried(1));
    Plan([TableObject(0, 0, [ONLY_FIELD])],
         [ScanNode(SCAN_ID, 0, [ScanColumn(Carried(1), 0)]),
          JoinNode(JOIN_ID, SCAN_ID, SCAN_ID, Inner, ViaLeftJoin, [JoinCondition(ref, ref)], [],
                   [DerivedColumn(Carried(1), ref)]),
          MaterializeNode(NodeId(ResultId, 0), JOIN_ID, Result)],
         NodeId(ResultId, 0), 0)
  }

  /** Plan validation accepts this plan, and the query of its join binds one alias twice. */
  lemma SelfJoinPlanIsAccepted()
    ensures ValidatePlan(SelfJoinPlan()).Some?
    ensures forall schemas, targets ::
            !AliasesDistinct(NodeQuery(SelfJoinPlan().nodes[1], SelfJoinPlan().objects, schemas, targets))
  {
    hide NodeQuery, AliasesDistinct;
    var plan := SelfJoinPlan();
    var schema: Schema := map[Carried(1) := XSD_INTEGER];
    SelfJoinScan();
    SelfJoinIsAccepted(JOIN_ID, SCAN_ID, Carried(1), plan.objects, map[SCAN_ID := schema]);
    SelfJoinNodes(schema);
    forall schemas, targets ensures !AliasesDistinct(NodeQuery(plan.nodes[1], plan.objects, schemas, targets)) {
      AliasesOfNode(plan.nodes[1], plan.objects, schemas, targets);
    }
  }

  lemma SelfJoinScan()
    ensures ValidateNode(SelfJoinPlan().nodes[0], SelfJoinPlan().objects, map[]) == Some(map[Carried(1) := XSD_INTEGER])
  {
    var node := SelfJoinPlan().nodes[0];
    var output := Output(Carried(1), Some(XSD_INTEGER));
    assert ScanOutputs(node.scanned, [ONLY_FIELD]) == [output];
    assert [output][..0] == [];
    assert Collect([]) == Some(map[]);
  }

  lemma SelfJoinNodes(schema: Schema)
    requires ValidateNode(SelfJoinPlan().nodes[0], SelfJoinPlan().objects, map[]) == Some(schema)
    requires ValidateNode(SelfJoinPlan().nodes[1], SelfJoinPlan().objects, map[SCAN_ID := schema]) == Some(schema)
    ensures ValidatePlan(SelfJoinPlan()).Some?
  {
    var plan := SelfJoinPlan();
    var nodes, result := plan.nodes, plan.nodes[2];
    assert ValidateNode(result, plan.objects, map[SCAN_ID := schema, JOIN_ID := schema]) == Some(schema);
    hide ValidateNode;
    assert nodes[..2] == [nodes[0], nodes[1]] && nodes[..2][..1] == [nodes[0]] && nodes[..2][..1][..0] == [];
    assert ValidateNodes([], plan.objects) == Some(map[]);
    assert ValidateNodes([nodes[0]], plan.objects) == Some(map[SCAN_ID := schema]);
    assert ValidateNodes(nodes[..2], plan.objects) == Some(map[SCAN_ID := schema, JOIN_ID := schema]);
    assert ResultSteps(nodes[..2][..1]) == [] && ResultSteps(nodes[..2]) == [];
  }
}
