/** When a relational plan is accepted, and which columns of which types its nodes then have, stated column by column.
    For `validate_graph` of ontology_core/relational_plan.py. */
module PlanReading {
  import opened SeqOps
  import opened Sql
  import opened RelationalPlan

  // ----- look-ups -----

  function HasRef(ref: Ref): Field -> bool {
    (f: Field) => f.ref == ref
  }

  lemma {:induction false} FindsLast(fields: seq<Field>, ref: Ref, f: Field)
    ensures FindField(fields, ref) == Some(f) <==> IsLast(fields, HasRef(ref), f)
    ensures FindField(fields, ref).None? <==> forall g :: g in fields ==> g.ref != ref
  {
    hide IsLast;
    if fields == [] {
      NothingIsLast(HasRef(ref), f);
    } else {
      var before, last := fields[..|fields| - 1], fields[|fields| - 1];
      assert fields == before + [last];
      FindsLast(before, ref, f);
      LastOfParts(before, [last], HasRef(ref), f);
      LastOfOne(last, HasRef(ref), f);
      assert forall g :: g in [last] <==> g == last;
      assert HasRef(ref)(last) <==> last.ref == ref;
      forall g ensures g in fields <==> g in before || g == last {
      }
    }
  }

  lemma {:induction false} FindsObject(objects: seq<TableObject>, ref: Ref, o: TableObject)
    requires UniqueObjects(objects)
    ensures FindObject(objects, ref) == Some(o) <==> o in objects && o.ref == ref
    decreases |objects|
  {
    if objects != [] {
      var before, last := objects[..|objects| - 1], objects[|objects| - 1];
      assert objects == before + [last];
      FindsObject(before, ref, o);
      if o in before {
        var i :| 0 <= i < |before| && before[i] == o;
        assert objects[i] == o && objects[i].ref != last.ref;
      }
    }
  }

  // ----- output columns -----

  /** The schema has exactly these columns, all different, with these types. */
  ghost predicate IsSchema(names: seq<Column>, types: seq<Datatype>, schema: Schema) {
    && |types| == |names| && NoDup(names) && (forall c :: c in schema <==> c in names)
    && forall i :: 0 <= i < |names| ==> names[i] in schema && schema[names[i]] == types[i]
  }

  /** The outputs have these types. */
  ghost predicate Typed(outputs: seq<Output>, types: seq<Datatype>) {
    |types| == |outputs| && forall i :: 0 <= i < |outputs| ==> outputs[i].dtype == Some(types[i])
  }

  function NamesOf(outputs: seq<Output>): seq<Column> {
    Map((o: Output) => o.name, outputs)
  }

  lemma NamesSnoc(outputs: seq<Output>)
    requires outputs != []
    ensures NamesOf(outputs) == NamesOf(outputs[..|outputs| - 1]) + [outputs[|outputs| - 1].name]
  {
    var n := |outputs| - 1;
    assert outputs == outputs[..n] + [outputs[n]];
    MapSnoc((o: Output) => o.name, outputs[..n], outputs[n]);
  }

  lemma {:induction false} CollectedIsSchema(outputs: seq<Output>) returns (types: seq<Datatype>)
    requires Collect(outputs).Some?
    ensures Typed(outputs, types) && IsSchema(NamesOf(outputs), types, Collect(outputs).value)
  {
    if outputs == [] {
      types := [];
    } else {
      var n := |outputs| - 1;
      var before := CollectedIsSchema(outputs[..n]);
      types := before + [outputs[n].dtype.value];
      NamesSnoc(outputs);
      SchemaSnoc(NamesOf(outputs[..n]), before, Collect(outputs[..n]).value, outputs[n].name, outputs[n].dtype.value);
    }
  }

  lemma SchemaSnoc(names: seq<Column>, types: seq<Datatype>, schema: Schema, name: Column, dtype: Datatype)
    requires IsSchema(names, types, schema) && name !in schema
    ensures IsSchema(names + [name], types + [dtype], schema[name := dtype])
  {
  }

  lemma {:induction false} SchemaIsCollected(outputs: seq<Output>, types: seq<Datatype>, schema: Schema)
    requires Typed(outputs, types) && IsSchema(NamesOf(outputs), types, schema)
    ensures Collect(outputs) == Some(schema)
  {
    if outputs == [] {
      assert schema == map[];
    } else {
      var n := |outputs| - 1;
      var last := outputs[n].name;
      NamesSnoc(outputs);
      var before := NamesOf(outputs[..n]);
      LastIsNew(before, last, types, schema);
      SchemaIsCollected(outputs[..n], types[..n], schema - {last});
      assert (schema - {last})[last := types[n]] == schema;
    }
  }

  lemma LastIsNew(before: seq<Column>, last: Column, types: seq<Datatype>, schema: Schema)
    requires IsSchema(before + [last], types, schema)
    ensures IsSchema(before, types[..|before|], schema - {last}) && last in schema && schema[last] == types[|before|]
  {
    var names := before + [last];
    forall i | 0 <= i < |before| ensures before[i] != last {
      assert names[i] != names[|before|];
    }
    assert NoDup(before) by {
      forall i, k | 0 <= i < k < |before| ensures before[i] != before[k] {
        assert names[i] != names[k];
      }
    }
    forall i | 0 <= i < |before| ensures before[i] in schema && schema[before[i]] == types[i] {
      assert names[i] == before[i];
    }
    assert names[|before|] == last;
  }

  // ----- nodes -----

  /** The column belongs to an accepted node and has the type there. */
  ghost predicate HasType(schemas: map<NodeId, Schema>, ref: LogicalRef, dtype: Datatype) {
    ref.node in schemas && ref.column in schemas[ref.node] && schemas[ref.node][ref.column] == dtype
  }

  ghost predicate IsColumnOf(schemas: map<NodeId, Schema>, ref: LogicalRef, node: NodeId) {
    ref.node == node && exists dtype :: HasType(schemas, ref, dtype)
  }

  /** The column reads the field of the scanned table and has its type. */
  ghost predicate ScanTyped(o: TableObject, c: ScanColumn, dtype: Datatype) {
    exists f :: IsLast(o.fields, HasRef(c.field), f) && f.dtype == dtype
  }

  /** The column takes one column of the same type from every input, in input order. */
  ghost predicate UnionTyped(inputs: seq<NodeId>, schemas: map<NodeId, Schema>, c: UnionColumn, dtype: Datatype) {
    && inputs != [] && |c.sources| == |inputs|
    && forall k :: 0 <= k < |inputs| ==> c.sources[k].node == inputs[k] && HasType(schemas, c.sources[k], dtype)
  }

  /** The column comes from the left side, or from the right side unless the join is an anti join. */
  ghost predicate JoinTyped(node: Node, schemas: map<NodeId, Schema>, c: DerivedColumn, dtype: Datatype)
    requires node.JoinNode?
  {
    && (c.source.node == node.left || (c.source.node == node.right && node.joinType != Anti))
    && HasType(schemas, c.source, dtype)
  }

  ghost predicate DirectTyped(input: NodeId, schemas: map<NodeId, Schema>, c: DerivedColumn, dtype: Datatype) {
    c.source.node == input && HasType(schemas, c.source, dtype)
  }

  /** A count is an integer; another aggregate has the type of its column. */
  ghost predicate AggregateTyped(input: NodeId, schemas: map<NodeId, Schema>, a: AggregateColumn, dtype: Datatype) {
    && (a.source.Some? ==> IsColumnOf(schemas, a.source.value, input))
    && (a.fn == Count ==> dtype == XSD_INTEGER)
    && (a.fn != Count ==> a.source.Some? && HasType(schemas, a.source.value, dtype))
  }

  /** The condition compares a column of the left side with a column of the right side, of one type group. */
  ghost predicate ConditionFits(node: Node, schemas: map<NodeId, Schema>, c: JoinCondition)
    requires node.JoinNode?
  {
    && c.left.node == node.left && c.right.node == node.right
    && exists t, u :: HasType(schemas, c.left, t) && HasType(schemas, c.right, u) && t.group == u.group
  }

  /** Filters read columns of one node. */
  ghost predicate FiltersFit(preds: seq<Pred<LogicalRef>>, schemas: map<NodeId, Schema>, input: NodeId) {
    forall p, l :: p in preds && l in Leaves(p) ==> IsColumnOf(schemas, l, input)
  }

  function ScanNames(scanned: seq<ScanColumn>): seq<Column> {
    Map((c: ScanColumn) => c.name, scanned)
  }

  ghost predicate ScanHas(o: TableObject, scanned: seq<ScanColumn>, schema: Schema) {
    exists types ::
      && IsSchema(ScanNames(scanned), types, schema)
      && forall i :: 0 <= i < |scanned| ==> ScanTyped(o, scanned[i], types[i])
  }

  function UnionNames(united: seq<UnionColumn>): seq<Column> {
    Map((c: UnionColumn) => c.name, united)
  }

  ghost predicate UnionHas(inputs: seq<NodeId>, united: seq<UnionColumn>, schemas: map<NodeId, Schema>,
                           schema: Schema) {
    exists types ::
      && IsSchema(UnionNames(united), types, schema)
      && forall i :: 0 <= i < |united| ==> UnionTyped(inputs, schemas, united[i], types[i])
  }

  function DerivedNames(columns: seq<DerivedColumn>): seq<Column> {
    Map((c: DerivedColumn) => c.name, columns)
  }

  ghost predicate JoinHas(node: Node, schemas: map<NodeId, Schema>, schema: Schema)
    requires node.JoinNode?
  {
    exists types ::
      && IsSchema(DerivedNames(node.columns), types, schema)
      && forall i :: 0 <= i < |node.columns| ==> JoinTyped(node, schemas, node.columns[i], types[i])
  }

  ghost predicate ProjectHas(input: NodeId, columns: seq<DerivedColumn>, schemas: map<NodeId, Schema>, schema: Schema) {
    exists types ::
      && IsSchema(DerivedNames(columns), types, schema)
      && forall i :: 0 <= i < |columns| ==> DirectTyped(input, schemas, columns[i], types[i])
  }

  function AggregateNames(groupBy: seq<DerivedColumn>, aggregations: seq<AggregateColumn>): seq<Column> {
    DerivedNames(groupBy) + Map((a: AggregateColumn) => a.name, aggregations)
  }

  ghost predicate AggregateHas(node: Node, schemas: map<NodeId, Schema>, schema: Schema)
    requires node.AggregateNode?
  {
    exists keys, values ::
      && |keys| == |node.groupBy| && |values| == |node.aggregations|
      && IsSchema(AggregateNames(node.groupBy, node.aggregations), keys + values, schema)
      && (forall i :: 0 <= i < |keys| ==> DirectTyped(node.input, schemas, node.groupBy[i], keys[i]))
      && forall i :: 0 <= i < |values| ==> AggregateTyped(node.input, schemas, node.aggregations[i], values[i])
  }

  /** The node reads accepted nodes only, and has exactly the columns of the schema. */
  ghost predicate Fits(node: Node, objects: seq<TableObject>, schemas: map<NodeId, Schema>, schema: Schema) {
    match node
    case ScanNode(_, table, scanned) => exists o :: o in objects && o.ref == table && ScanHas(o, scanned, schema)
    case UnionNode(_, inputs, united) =>
      (forall i :: i in inputs ==> i in schemas) && UnionHas(inputs, united, schemas, schema)
    case JoinNode(_, left, right, _, _, conditions, filters, _) =>
      && left in schemas && right in schemas && (forall c :: c in conditions ==> ConditionFits(node, schemas, c))
      && FiltersFit(filters, schemas, right) && JoinHas(node, schemas, schema)
    case FilterNode(_, input, predicates) =>
      input in schemas && schema == schemas[input] && FiltersFit(predicates, schemas, input)
    case ProjectNode(_, input, columns) => input in schemas && ProjectHas(input, columns, schemas, schema)
    case AggregateNode(_, input, _, _) => input in schemas && AggregateHas(node, schemas, schema)
    case MaterializeNode(_, input, _) => input in schemas && schema == schemas[input]
  }

  lemma HasTypeIs(schemas: map<NodeId, Schema>, ref: LogicalRef, dtype: Datatype)
    requires ref.node in schemas
    ensures HasType(schemas, ref, dtype) <==> TypeIn(SchemaOf(schemas, ref.node), ref.column) == Some(dtype)
  {
  }

  lemma DirectIs(schemas: map<NodeId, Schema>, ref: LogicalRef, input: NodeId)
    requires input in schemas
    ensures forall t ::
              DirectType(ref, input, schemas[input]) == Some(t) <==> ref.node == input && HasType(schemas, ref, t)
    ensures DirectType(ref, input, schemas[input]).Some? <==> IsColumnOf(schemas, ref, input)
  {
    if ref.node == input && DirectType(ref, input, schemas[input]).Some? {
      assert HasType(schemas, ref, schemas[input][ref.column]);
    }
  }

  lemma ScanTypes(objects: seq<TableObject>, o: TableObject, scanned: seq<ScanColumn>, i: nat, dtype: Datatype)
    requires i < |scanned|
    ensures ScanOutputs(scanned, o.fields)[i].dtype == Some(dtype) <==> ScanTyped(o, scanned[i], dtype)
  {
    hide IsLast, FindField;
    var found := FindField(o.fields, scanned[i].field);
    forall f ensures found == Some(f) <==> IsLast(o.fields, HasRef(scanned[i].field), f) {
      FindsLast(o.fields, scanned[i].field, f);
    }
  }

  lemma UnionTypes(inputs: seq<NodeId>, schemas: map<NodeId, Schema>, c: UnionColumn, dtype: Datatype)
    requires inputs != [] && forall i :: i in inputs ==> i in schemas
    ensures UnionOutput(c, inputs, schemas).dtype == Some(dtype) <==> UnionTyped(inputs, schemas, c, dtype)
  {
    hide HasType;
    var nodes := Map((s: LogicalRef) => s.node, c.sources);
    forall s: LogicalRef | s.node in schemas
      ensures HasType(schemas, s, dtype) <==> TypeIn(SchemaOf(schemas, s.node), s.column) == Some(dtype) {
      HasTypeIs(schemas, s, dtype);
    }
    if UnionTyped(inputs, schemas, c, dtype) {
      assert nodes == inputs;
      forall s | s in c.sources ensures TypeIn(SchemaOf(schemas, s.node), s.column) == Some(dtype) {
        var k :| 0 <= k < |c.sources| && c.sources[k] == s;
        assert HasType(schemas, c.sources[k], dtype);
      }
    }
    if UnionOutput(c, inputs, schemas).dtype == Some(dtype) {
      forall k | 0 <= k < |inputs| ensures c.sources[k].node == inputs[k] && HasType(schemas, c.sources[k], dtype) {
        assert nodes[k] == inputs[k] && inputs[k] in inputs && c.sources[k] in c.sources;
      }
    }
  }

  lemma JoinTypes(node: Node, schemas: map<NodeId, Schema>, c: DerivedColumn, dtype: Datatype)
    requires node.JoinNode? && node.left in schemas && node.right in schemas
    ensures JoinOutput(c, node.left, node.right, node.joinType, schemas).dtype == Some(dtype) <==>
              JoinTyped(node, schemas, c, dtype)
  {
  }

  lemma AggregateTypes(input: NodeId, schemas: map<NodeId, Schema>, a: AggregateColumn, dtype: Datatype)
    requires input in schemas
    ensures AggregateOutput(a, input, schemas[input]).dtype == Some(dtype) <==> AggregateTyped(input, schemas, a, dtype)
  {
    hide HasType;
    if a.source.Some? {
      DirectIs(schemas, a.source.value, input);
    }
  }

  lemma ConditionIs(node: Node, schemas: map<NodeId, Schema>, c: JoinCondition)
    requires node.JoinNode? && node.left in schemas && node.right in schemas
    ensures ConditionOk(c, node.left, node.right, schemas) <==> ConditionFits(node, schemas, c)
  {
    if ConditionOk(c, node.left, node.right, schemas) {
      var t, u := schemas[node.left][c.left.column], schemas[node.right][c.right.column];
      assert HasType(schemas, c.left, t) && HasType(schemas, c.right, u);
    }
  }

  lemma FiltersAre(preds: seq<Pred<LogicalRef>>, schemas: map<NodeId, Schema>, input: NodeId)
    requires input in schemas
    ensures LeavesDirect(preds, input, schemas[input]) <==> FiltersFit(preds, schemas, input)
  {
    hide Leaves, DirectType, IsColumnOf;
    forall l ensures DirectType(l, input, schemas[input]).Some? <==> IsColumnOf(schemas, l, input) {
      DirectIs(schemas, l, input);
    }
  }

  /** Outputs are collected into a schema exactly when each has the type that the schema gives it. */
  lemma CollectExactly(outputs: seq<Output>, names: seq<Column>, schema: Schema)
    requires NamesOf(outputs) == names
    ensures Collect(outputs) == Some(schema) <==>
              exists types :: Typed(outputs, types) && IsSchema(names, types, schema)
  {
    hide IsSchema, Typed, Collect;
    if Collect(outputs) == Some(schema) {
      var types := CollectedIsSchema(outputs);
    }
    if types :| Typed(outputs, types) && IsSchema(names, types, schema) {
      SchemaIsCollected(outputs, types, schema);
    }
  }

  lemma SchemaWidth(names: seq<Column>, types: seq<Datatype>, schema: Schema)
    requires IsSchema(names, types, schema)
    ensures |types| == |names|
  {
  }

  lemma ScanColumns(o: TableObject, objects: seq<TableObject>, scanned: seq<ScanColumn>, schema: Schema)
    ensures Collect(ScanOutputs(scanned, o.fields)) == Some(schema) <==> ScanHas(o, scanned, schema)
  {
    hide IsSchema, Collect, ScanTyped, FindField;
    var names, outputs := ScanNames(scanned), ScanOutputs(scanned, o.fields);
    assert NamesOf(outputs) == names;
    CollectExactly(outputs, names, schema);
    forall i, t | 0 <= i < |scanned| ensures outputs[i].dtype == Some(t) <==> ScanTyped(o, scanned[i], t) {
      ScanTypes(objects, o, scanned, i, t);
    }
    forall types | IsSchema(names, types, schema) ensures |types| == |scanned| {
      SchemaWidth(names, types, schema);
    }
  }

  lemma UnionColumns(inputs: seq<NodeId>, united: seq<UnionColumn>, schemas: map<NodeId, Schema>, schema: Schema)
    requires inputs != [] && forall i :: i in inputs ==> i in schemas
    ensures Collect(UnionOutputs(united, inputs, schemas)) == Some(schema) <==>
              UnionHas(inputs, united, schemas, schema)
  {
    hide IsSchema, Collect, UnionTyped, UnionOutput;
    var names, outputs := UnionNames(united), UnionOutputs(united, inputs, schemas);
    forall c ensures UnionOutput(c, inputs, schemas).name == c.name {
      UnionName(c, inputs, schemas);
    }
    assert NamesOf(outputs) == names;
    CollectExactly(outputs, names, schema);
    forall i, t | 0 <= i < |united| ensures outputs[i].dtype == Some(t) <==> UnionTyped(inputs, schemas, united[i], t) {
      UnionTypes(inputs, schemas, united[i], t);
    }
    forall types | IsSchema(names, types, schema) ensures |types| == |united| {
      SchemaWidth(names, types, schema);
    }
  }

  lemma UnionName(c: UnionColumn, inputs: seq<NodeId>, schemas: map<NodeId, Schema>)
    ensures UnionOutput(c, inputs, schemas).name == c.name
  {
  }

  lemma JoinColumns(node: Node, schemas: map<NodeId, Schema>, schema: Schema)
    requires node.JoinNode? && node.left in schemas && node.right in schemas
    ensures Collect(JoinOutputs(node.columns, node.left, node.right, node.joinType, schemas)) == Some(schema) <==>
              JoinHas(node, schemas, schema)
  {
    hide IsSchema, Collect, JoinTyped;
    var names := DerivedNames(node.columns);
    var outputs := JoinOutputs(node.columns, node.left, node.right, node.joinType, schemas);
    assert NamesOf(outputs) == names;
    CollectExactly(outputs, names, schema);
    forall i, t | 0 <= i < |node.columns|
      ensures outputs[i].dtype == Some(t) <==> JoinTyped(node, schemas, node.columns[i], t) {
      JoinTypes(node, schemas, node.columns[i], t);
    }
    forall types | IsSchema(names, types, schema) ensures |types| == |node.columns| {
      SchemaWidth(names, types, schema);
    }
  }

  lemma DirectTypes(input: NodeId, schemas: map<NodeId, Schema>, c: DerivedColumn, dtype: Datatype)
    requires input in schemas
    ensures DirectType(c.source, input, schemas[input]) == Some(dtype) <==> DirectTyped(input, schemas, c, dtype)
  {
  }

  lemma ProjectColumns(input: NodeId, columns: seq<DerivedColumn>, schemas: map<NodeId, Schema>, schema: Schema)
    requires input in schemas
    ensures Collect(DirectOutputs(columns, input, schemas[input])) == Some(schema) <==>
              ProjectHas(input, columns, schemas, schema)
  {
    hide IsSchema, Collect, DirectTyped, DirectType;
    var names, outputs := DerivedNames(columns), DirectOutputs(columns, input, schemas[input]);
    assert NamesOf(outputs) == names;
    CollectExactly(outputs, names, schema);
    forall i, t | 0 <= i < |columns|
      ensures outputs[i].dtype == Some(t) <==> DirectTyped(input, schemas, columns[i], t) {
      DirectTypes(input, schemas, columns[i], t);
    }
    forall types | IsSchema(names, types, schema) ensures |types| == |columns| {
      SchemaWidth(names, types, schema);
    }
  }

  lemma AggregateName(a: AggregateColumn, input: NodeId, schema: Schema)
    ensures AggregateOutput(a, input, schema).name == a.name
  {
  }

  function AggregateOut(node: Node, schema: Schema): seq<Output>
    requires node.AggregateNode?
  {
    DirectOutputs(node.groupBy, node.input, schema) + AggregateOutputs(node.aggregations, node.input, schema)
  }

  lemma AggregateHasTyped(node: Node, schemas: map<NodeId, Schema>, types: seq<Datatype>, schema: Schema)
    requires node.AggregateNode? && node.input in schemas && Typed(AggregateOut(node, schemas[node.input]), types)
    requires IsSchema(AggregateNames(node.groupBy, node.aggregations), types, schema)
    ensures AggregateHas(node, schemas, schema)
  {
    hide IsSchema, DirectTyped, AggregateTyped, DirectType, AggregateOutput, Typed, AggregateNames;
    var left := DirectOutputs(node.groupBy, node.input, schemas[node.input]);
    var right := AggregateOutputs(node.aggregations, node.input, schemas[node.input]);
    TypedParts(left, right, types);
    var keys, values := types[..|left|], types[|left|..];
    assert types == keys + values;
    KeysTyped(node, schemas, keys);
    ValuesTyped(node, schemas, values);
  }

  lemma AggregateIsTyped(node: Node, schemas: map<NodeId, Schema>, schema: Schema) returns (types: seq<Datatype>)
    requires node.AggregateNode? && node.input in schemas && AggregateHas(node, schemas, schema)
    ensures Typed(AggregateOut(node, schemas[node.input]), types)
    ensures IsSchema(AggregateNames(node.groupBy, node.aggregations), types, schema)
  {
    hide IsSchema, DirectTyped, AggregateTyped, DirectType, AggregateOutput, Typed, AggregateNames;
    var keys, values :|
      && |keys| == |node.groupBy| && |values| == |node.aggregations|
      && IsSchema(AggregateNames(node.groupBy, node.aggregations), keys + values, schema)
      && (forall i :: 0 <= i < |keys| ==> DirectTyped(node.input, schemas, node.groupBy[i], keys[i]))
      && forall i :: 0 <= i < |values| ==> AggregateTyped(node.input, schemas, node.aggregations[i], values[i]);
    KeysTyped(node, schemas, keys);
    ValuesTyped(node, schemas, values);
    TypedBoth(DirectOutputs(node.groupBy, node.input, schemas[node.input]),
              AggregateOutputs(node.aggregations, node.input, schemas[node.input]), keys, values);
    types := keys + values;
  }

  lemma AggregateColumns(node: Node, schemas: map<NodeId, Schema>, schema: Schema)
    requires node.AggregateNode? && node.input in schemas
    ensures Collect(AggregateOut(node, schemas[node.input])) == Some(schema) <==> AggregateHas(node, schemas, schema)
  {
    hide IsSchema, Collect, AggregateHas, AggregateOut, Typed;
    var outputs, names := AggregateOut(node, schemas[node.input]), AggregateNames(node.groupBy, node.aggregations);
    AggregateNamesAre(node, schemas[node.input]);
    CollectExactly(outputs, names, schema);
    if types :| Typed(outputs, types) && IsSchema(names, types, schema) {
      AggregateHasTyped(node, schemas, types, schema);
    }
    if AggregateHas(node, schemas, schema) {
      var types := AggregateIsTyped(node, schemas, schema);
    }
  }

  lemma TypedParts(left: seq<Output>, right: seq<Output>, types: seq<Datatype>)
    requires Typed(left + right, types)
    ensures |left| <= |types| && Typed(left, types[..|left|]) && Typed(right, types[|left|..])
  {
    forall i | 0 <= i < |left| ensures left[i].dtype == Some(types[i]) {
      assert (left + right)[i] == left[i];
    }
    forall i | 0 <= i < |right| ensures right[i].dtype == Some(types[|left| + i]) {
      assert (left + right)[|left| + i] == right[i];
    }
  }

  lemma TypedBoth(left: seq<Output>, right: seq<Output>, keys: seq<Datatype>, values: seq<Datatype>)
    requires Typed(left, keys) && Typed(right, values)
    ensures Typed(left + right, keys + values)
  {
  }

  lemma AggregateNamesAre(node: Node, schema: Schema)
    requires node.AggregateNode?
    ensures NamesOf(AggregateOut(node, schema)) == AggregateNames(node.groupBy, node.aggregations)
  {
    hide DirectType, AggregateOutput;
    var keys, values := DirectOutputs(node.groupBy, node.input, schema),
        AggregateOutputs(node.aggregations, node.input, schema);
    forall a ensures AggregateOutput(a, node.input, schema).name == a.name {
      AggregateName(a, node.input, schema);
    }
    MapConcat((o: Output) => o.name, keys, values);
    assert NamesOf(keys) == DerivedNames(node.groupBy);
    assert NamesOf(values) == Map((a: AggregateColumn) => a.name, node.aggregations);
  }

  lemma KeysTyped(node: Node, schemas: map<NodeId, Schema>, keys: seq<Datatype>)
    requires node.AggregateNode? && node.input in schemas && |keys| == |node.groupBy|
    ensures Typed(DirectOutputs(node.groupBy, node.input, schemas[node.input]), keys) <==>
              forall i :: 0 <= i < |keys| ==> DirectTyped(node.input, schemas, node.groupBy[i], keys[i])
  {
    hide DirectTyped, DirectType;
    forall i | 0 <= i < |keys|
      ensures DirectType(node.groupBy[i].source, node.input, schemas[node.input]) == Some(keys[i]) <==>
              DirectTyped(node.input, schemas, node.groupBy[i], keys[i]) {
      DirectTypes(node.input, schemas, node.groupBy[i], keys[i]);
    }
  }

  lemma ValuesTyped(node: Node, schemas: map<NodeId, Schema>, values: seq<Datatype>)
    requires node.AggregateNode? && node.input in schemas && |values| == |node.aggregations|
    ensures Typed(AggregateOutputs(node.aggregations, node.input, schemas[node.input]), values) <==>
              forall i :: 0 <= i < |values| ==> AggregateTyped(node.input, schemas, node.aggregations[i], values[i])
  {
    hide AggregateTyped, AggregateOutput;
    forall i | 0 <= i < |values|
      ensures AggregateOutput(node.aggregations[i], node.input, schemas[node.input]).dtype == Some(values[i]) <==>
              AggregateTyped(node.input, schemas, node.aggregations[i], values[i]) {
      AggregateTypes(node.input, schemas, node.aggregations[i], values[i]);
    }
  }

  /** A node is accepted exactly with the columns and types that it fits. */
  lemma NodeExactly(node: Node, objects: seq<TableObject>, schemas: map<NodeId, Schema>, schema: Schema)
    requires UniqueObjects(objects) && (node.UnionNode? ==> node.inputs != [])
    ensures ValidateNode(node, objects, schemas) == Some(schema) <==> Fits(node, objects, schemas, schema)
  {
    hide Collect, ScanHas, UnionHas, JoinHas, ProjectHas, AggregateHas, ConditionOk, ConditionFits, LeavesDirect,
         FiltersFit, FindObject, ScanOutputs, UnionOutputs, JoinOutputs, DirectOutputs, AggregateOutputs, UniqueObjects;
    match node
    case ScanNode(_, table, scanned) =>
      forall o ensures FindObject(objects, table) == Some(o) <==> o in objects && o.ref == table {
        FindsObject(objects, table, o);
      }
      forall o: TableObject
        ensures Collect(ScanOutputs(scanned, o.fields)) == Some(schema) <==> ScanHas(o, scanned, schema) {
        ScanColumns(o, objects, scanned, schema);
      }
    case UnionNode(_, inputs, united) =>
      if forall i :: i in inputs ==> i in schemas {
        UnionColumns(inputs, united, schemas, schema);
      }
    case JoinNode(_, left, right, _, _, _, filters, _) =>
      if left in schemas && right in schemas {
        forall c ensures ConditionOk(c, left, right, schemas) <==> ConditionFits(node, schemas, c) {
          ConditionIs(node, schemas, c);
        }
        FiltersAre(filters, schemas, right);
        JoinColumns(node, schemas, schema);
      }
    case FilterNode(_, input, predicates) =>
      if input in schemas {
        FiltersAre(predicates, schemas, input);
      }
    case ProjectNode(_, input, columns) =>
      if input in schemas {
        ProjectColumns(input, columns, schemas, schema);
      }
    case AggregateNode(_, input, _, _) =>
      if input in schemas {
        AggregateColumns(node, schemas, schema);
      }
    case MaterializeNode(_, _, _) =>
  }

  // ----- whole plans -----

  /** Nodes have columns, conditions and predicates; a union has two inputs; AND and OR have two parts; only COUNT may
      do without a column, and then without DISTINCT. */
  predicate SizesFit(node: Node) {
    match node
    case ScanNode(_, _, scanned) => scanned != []
    case UnionNode(_, inputs, united) => |inputs| > 1 && united != []
    case JoinNode(_, _, _, _, _, conditions, filters, columns) =>
      conditions != [] && columns != [] && forall p :: p in filters ==> WellShaped(p)
    case FilterNode(_, _, predicates) => predicates != [] && forall p :: p in predicates ==> WellShaped(p)
    case ProjectNode(_, _, columns) => columns != []
    case AggregateNode(_, _, _, aggregations) =>
      aggregations != [] && forall a :: a in aggregations ==> a.source.Some? || (a.fn == Count && !a.distinct)
    case MaterializeNode(_, _, _) => true
  }

  ghost predicate IsIdUpTo(nodes: seq<Node>, k: nat, id: NodeId)
    requires k <= |nodes|
  {
    exists j :: 0 <= j < k && nodes[j].id == id
  }

  /** The schemas of the first `k` nodes. */
  ghost function Earlier(nodes: seq<Node>, k: nat, schemas: map<NodeId, Schema>): map<NodeId, Schema>
    requires k <= |nodes|
  {
    map id | id in schemas && IsIdUpTo(nodes, k, id) :: schemas[id]
  }

  /** Names differ, every node has a schema, and each node fits what the nodes before it provide. */
  ghost predicate NodesFit(nodes: seq<Node>, objects: seq<TableObject>, schemas: map<NodeId, Schema>) {
    && (forall i, k :: 0 <= i < k < |nodes| ==> nodes[i].id != nodes[k].id)
    && (forall id :: id in schemas <==> IsIdUpTo(nodes, |nodes|, id))
    && forall k :: 0 <= k < |nodes| ==> NodeFits(nodes, k, objects, schemas)
  }

  ghost predicate NodeFits(nodes: seq<Node>, k: nat, objects: seq<TableObject>, schemas: map<NodeId, Schema>)
    requires k < |nodes|
  {
    && SizesFit(nodes[k]) && nodes[k].id in schemas
    && Fits(nodes[k], objects, Earlier(nodes, k, schemas), schemas[nodes[k].id])
  }

  lemma SizesAre(node: Node)
    ensures SizesFit(node) <==> WellFormed(node)
  {
  }

  lemma IdsBefore(nodes: seq<Node>, k: nat, schemas: map<NodeId, Schema>)
    requires k < |nodes| && forall i, j :: 0 <= i < j < |nodes| ==> nodes[i].id != nodes[j].id
    ensures var n := |nodes| - 1;
            Earlier(nodes[..n], k, schemas - {nodes[n].id}) == Earlier(nodes, k, schemas)
  {
    var n := |nodes| - 1;
    forall id ensures IsIdUpTo(nodes[..n], k, id) <==> IsIdUpTo(nodes, k, id) {
      if j :| 0 <= j < k && nodes[j].id == id {
        assert nodes[..n][j].id == id;
      }
      if j :| 0 <= j < k && nodes[..n][j].id == id {
        assert nodes[j].id == id;
      }
    }
    forall id | IsIdUpTo(nodes, k, id) ensures id != nodes[n].id {
      var j :| 0 <= j < k && nodes[j].id == id;
    }
  }

  lemma SameNodeFits(nodes: seq<Node>, k: nat, objects: seq<TableObject>, schemas: map<NodeId, Schema>)
    requires k < |nodes| - 1 && forall i, j :: 0 <= i < j < |nodes| ==> nodes[i].id != nodes[j].id
    ensures var n := |nodes| - 1;
            NodeFits(nodes[..n], k, objects, schemas - {nodes[n].id}) <==> NodeFits(nodes, k, objects, schemas)
  {
    hide SizesFit, Fits, Earlier;
    IdsBefore(nodes, k, schemas);
    assert nodes[..|nodes| - 1][k] == nodes[k] && nodes[k].id != nodes[|nodes| - 1].id;
  }

  lemma NamesSplit(nodes: seq<Node>, schemas: map<NodeId, Schema>)
    requires nodes != []
    ensures var n := |nodes| - 1;
            (&& (forall i, k :: 0 <= i < k < |nodes| ==> nodes[i].id != nodes[k].id)
             && (forall id :: id in schemas <==> IsIdUpTo(nodes, |nodes|, id))) <==>
            (&& (forall i, k :: 0 <= i < k < n ==> nodes[..n][i].id != nodes[..n][k].id)
             && !IsIdUpTo(nodes[..n], n, nodes[n].id) && nodes[n].id in schemas
             && (forall id :: id in schemas - {nodes[n].id} <==> IsIdUpTo(nodes[..n], n, id)))
  {
    var n := |nodes| - 1;
    var before := nodes[..n];
    forall id ensures IsIdUpTo(nodes, |nodes|, id) <==> IsIdUpTo(before, n, id) || id == nodes[n].id {
      if IsIdUpTo(nodes, |nodes|, id) && id != nodes[n].id {
        var j :| 0 <= j < |nodes| && nodes[j].id == id;
        assert before[j].id == id;
      }
      if j :| 0 <= j < n && before[j].id == id {
        assert nodes[j].id == id;
      }
    }
    forall i, k | 0 <= i < k < n ensures before[i] == nodes[i] && before[k] == nodes[k] {
    }
    if !IsIdUpTo(before, n, nodes[n].id) {
      forall i | 0 <= i < n ensures nodes[i].id != nodes[n].id {
        assert before[i].id == nodes[i].id;
      }
    } else {
      var j :| 0 <= j < n && before[j].id == nodes[n].id;
      assert nodes[j].id == nodes[n].id;
    }
  }

  lemma ValidatedLast(nodes: seq<Node>, objects: seq<TableObject>, schemas: map<NodeId, Schema>)
    requires nodes != []
    ensures var n := |nodes| - 1; var last, smaller := nodes[n], schemas - {nodes[n].id};
            ValidateNodes(nodes, objects) == Some(schemas) <==>
              && last.id in schemas && ValidateNodes(nodes[..n], objects) == Some(smaller) && WellFormed(last)
              && ValidateNode(last, objects, smaller) == Some(schemas[last.id])
  {
    hide ValidateNode, WellFormed;
    var n := |nodes| - 1;
    var last, before := nodes[n], ValidateNodes(nodes[..n], objects);
    if ValidateNodes(nodes, objects) == Some(schemas) {
      assert before.value == schemas - {last.id};
    }
    if last.id in schemas && before == Some(schemas - {last.id}) {
      assert (schemas - {last.id})[last.id := schemas[last.id]] == schemas;
    }
  }

  lemma LastFits(nodes: seq<Node>, objects: seq<TableObject>, schemas: map<NodeId, Schema>)
    requires nodes != [] && UniqueObjects(objects) && (forall id :: id in schemas <==> IsIdUpTo(nodes, |nodes|, id))
    requires forall i, k :: 0 <= i < k < |nodes| ==> nodes[i].id != nodes[k].id
    ensures var n := |nodes| - 1; var last, smaller := nodes[n], schemas - {nodes[n].id};
            NodeFits(nodes, n, objects, schemas) <==>
              && last.id in schemas && WellFormed(last)
              && ValidateNode(last, objects, smaller) == Some(schemas[last.id])
  {
    hide Fits, ValidateNode, UniqueObjects;
    var n := |nodes| - 1;
    var last := nodes[n];
    SizesAre(last);
    hide SizesFit;
    NamesSplit(nodes, schemas);
    assert nodes[n].id == last.id;
    forall id | id in schemas ensures IsIdUpTo(nodes, n, id) <==> id != last.id {
      IdsBefore(nodes, n, schemas);
      if j :| 0 <= j < |nodes| && nodes[j].id == id && id != last.id {
        assert j < n;
      }
    }
    assert Earlier(nodes, n, schemas) == schemas - {last.id};
    if WellFormed(last) && last.id in schemas {
      WideUnion(last);
      NodeExactly(last, objects, schemas - {last.id}, schemas[last.id]);
    }
  }

  lemma WideUnion(node: Node)
    requires WellFormed(node)
    ensures node.UnionNode? ==> node.inputs != []
  {
  }

  /** Nodes are accepted exactly with schemas that they fit. */
  lemma {:induction false} NodesExactly(nodes: seq<Node>, objects: seq<TableObject>, schemas: map<NodeId, Schema>)
    requires UniqueObjects(objects)
    ensures ValidateNodes(nodes, objects) == Some(schemas) <==> NodesFit(nodes, objects, schemas)
    decreases |nodes|
  {
    hide NodeFits, ValidateNode, WellFormed, UniqueObjects, IsIdUpTo;
    if nodes == [] {
      NoIds(nodes);
    } else {
      var n := |nodes| - 1;
      ValidatedLast(nodes, objects, schemas);
      NodesExactly(nodes[..n], objects, schemas - {nodes[n].id});
      NamesSplit(nodes, schemas);
      if forall i, k :: 0 <= i < k < |nodes| ==> nodes[i].id != nodes[k].id {
        forall k | 0 <= k < n
          ensures NodeFits(nodes[..n], k, objects, schemas - {nodes[n].id}) <==> NodeFits(nodes, k, objects, schemas) {
          SameNodeFits(nodes, k, objects, schemas);
        }
        if forall id :: id in schemas <==> IsIdUpTo(nodes, |nodes|, id) {
          LastFits(nodes, objects, schemas);
        }
      }
    }
  }

  lemma NoIds(nodes: seq<Node>)
    ensures forall id :: !IsIdUpTo(nodes, 0, id)
  {
  }

  predicate IsResultStep(node: Node) {
    node.MaterializeNode? && node.kind == Result
  }

  /** One node stores the result, under the name that the plan gives. */
  ghost predicate OneResult(nodes: seq<Node>, result: NodeId) {
    exists k :: 0 <= k < |nodes| && IsResultStep(nodes[k]) && nodes[k].id == result
                && forall j :: 0 <= j < |nodes| && IsResultStep(nodes[j]) ==> j == k
  }

  lemma {:induction false} ResultsAre(nodes: seq<Node>, result: NodeId)
    ensures ResultSteps(nodes) == [] <==> forall k :: 0 <= k < |nodes| ==> !IsResultStep(nodes[k])
    ensures ResultSteps(nodes) == [result] <==> OneResult(nodes, result)
    decreases |nodes|
  {
    hide IsResultStep;
    if nodes != [] {
      var n := |nodes| - 1;
      var before := nodes[..n];
      ResultsAre(before, result);
      LastResult(nodes);
      if IsResultStep(nodes[n]) {
        assert ResultSteps(nodes) == ResultSteps(before) + [nodes[n].id];
        if OneResult(nodes, result) {
          forall k | 0 <= k < n ensures !IsResultStep(before[k]) {
            assert before[k] == nodes[k];
          }
        }
        if ResultSteps(nodes) == [result] {
          assert |ResultSteps(before)| == 0 && ResultSteps(nodes)[0] == nodes[n].id;
          forall k | 0 <= k < n ensures !IsResultStep(nodes[k]) {
            assert before[k] == nodes[k];
          }
        }
      } else {
        assert ResultSteps(nodes) == ResultSteps(before);
        if OneResult(nodes, result) {
          var k :| 0 <= k < |nodes| && IsResultStep(nodes[k]) && nodes[k].id == result
                   && forall j :: 0 <= j < |nodes| && IsResultStep(nodes[j]) ==> j == k;
          assert before[k] == nodes[k];
        }
        if OneResult(before, result) {
          var k :| 0 <= k < n && IsResultStep(before[k]) && before[k].id == result
                   && forall j :: 0 <= j < n && IsResultStep(before[j]) ==> j == k;
          forall j | 0 <= j < |nodes| && IsResultStep(nodes[j]) ensures j == k {
            assert before[j] == nodes[j];
          }
        }
      }
    }
  }

  lemma LastResult(nodes: seq<Node>)
    requires nodes != []
    ensures var n := |nodes| - 1;
            ResultSteps(nodes) == ResultSteps(nodes[..n]) + if IsResultStep(nodes[n]) then [nodes[n].id] else []
  {
  }

  /** A plan is accepted exactly when it has nodes over different tables of one data source, one result, and schemas
      that its nodes fit. */
  lemma PlanExactly(plan: Plan, schemas: map<NodeId, Schema>)
    ensures ValidatePlan(plan) == Some(schemas) <==>
              && plan.nodes != [] && OneResult(plan.nodes, plan.result)
              && (forall i, k :: 0 <= i < k < |plan.objects| ==> plan.objects[i].ref != plan.objects[k].ref)
              && (forall o :: o in plan.objects ==> o.source == plan.source)
              && NodesFit(plan.nodes, plan.objects, schemas)
  {
    hide NodesFit, OneResult, ValidateNodes, ResultSteps;
    ResultsAre(plan.nodes, plan.result);
    if UniqueObjects(plan.objects) {
      NodesExactly(plan.nodes, plan.objects, schemas);
    }
  }
}
