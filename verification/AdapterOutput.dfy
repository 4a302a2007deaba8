/** The last nodes of the adapter: projection or aggregation, and exactly when plan validation accepts them. */
module AdapterOutput {
  import opened SeqOps
  import opened Sql
  import opened RelationalPlan
  import opened JoinOrder
  import opened InferredProgram
  import opened ProgramMeaning
  import opened ColumnNaming
  import opened AdapterPlan
  import opened AdapterLayout
  import opened AdapterNodes

  // ----- what a program outputs -----

  function FieldNames(fields: seq<Field>): seq<Column> {
    Map((f: Field) => Physical(f.physical), fields)
  }

  function FieldValues(p: Program, fields: seq<Field>, e: Env): seq<Value> {
    Map((f: Field) => FieldValue(p, e, f), fields)
  }

  function SpecFor(a: AggregationSpec): AggSpec {
    AggSpec(Physical(a.name), a.fn, a.source.None?, a.distinct)
  }

  function ArgumentOf(p: Program, e: Env, a: AggregationSpec): Value {
    if a.source.None? then Null else FieldValue(p, e, a.source.value)
  }

  function GroupInputOf(p: Program, e: Env): AggInput {
    AggInput(FieldValues(p, p.groupBy, e), Map((a: AggregationSpec) => ArgumentOf(p, e, a), p.aggregations))
  }

  /** The output of a program on given environments: requested fields, or one row a group. */
  function OutputRows(p: Program, envs: seq<Env>): seq<Row> {
    if p.aggregations == []
    then Map((e: Env) => NamedRow(FieldNames(p.requested), FieldValues(p, p.requested, e)), envs)
    else Aggregate(FieldNames(p.groupBy), Map(SpecFor, p.aggregations), Map((e: Env) => GroupInputOf(p, e), envs))
  }

  function AggregationNames(aggregations: seq<AggregationSpec>): seq<Column> {
    Map((a: AggregationSpec) => Physical(a.name), aggregations)
  }

  function OutputNames(p: Program): seq<Column> {
    if p.aggregations == [] then FieldNames(p.requested) else FieldNames(p.groupBy) + AggregationNames(p.aggregations)
  }

  function OutputFields(p: Program): set<Field> {
    if p.aggregations == [] then SetOf(p.requested)
    else SetOf(p.groupBy) + set a | a in p.aggregations && a.source.Some? :: a.source.value
  }

  /** Length and shape rules that drafts already satisfy. */
  predicate ValidOutputs(p: Program) {
    && p.requested != []
    && forall a :: a in p.aggregations && a.source.None? ==> a.fn == Count && !a.distinct
  }

  /** Exactly the outputs that plan validation accepts: no repeated name, no excluded source. */
  ghost predicate OutputAccepted(p: Program) {
    NoDup(OutputNames(p)) && forall f :: f in OutputFields(p) ==> KeyOf(p, f.owner) !in AntiRights(p)
  }

  // ----- rows -----

  lemma DerivedSnoc(columns: seq<DerivedColumn>, c: DerivedColumn, look: LogicalRef -> Value)
    ensures DerivedRow(columns + [c], look) == DerivedRow(columns, look)[c.name := look(c.source)]
  {
    assert (columns + [c])[..|columns|] == columns;
  }

  lemma NamedSnoc(names: seq<Column>, values: seq<Value>, name: Column, value: Value)
    requires |names| == |values|
    ensures NamedRow(names + [name], values + [value]) == NamedRow(names, values)[name := value]
  {
    assert (names + [name])[..|names|] == names && (values + [value])[..|values|] == values;
  }

  lemma FieldsSnoc(p: Program, names: Naming, input: NodeId, fields: seq<Field>, f: Field, e: Env)
    ensures DerivedOf(names, input, fields + [f]) == DerivedOf(names, input, fields)
            + [DerivedColumn(Physical(f.physical), RefAt(names, input)(f))]
    ensures FieldNames(fields + [f]) == FieldNames(fields) + [Physical(f.physical)]
    ensures FieldValues(p, fields + [f], e) == FieldValues(p, fields, e) + [FieldValue(p, e, f)]
  {
  }

  lemma {:induction false} DerivedIsNamed(p: Program, names: Naming, layout: Layout, input: NodeId, fields: seq<Field>,
          e: Env)
    requires IsLayout(p, names, layout) && forall f :: f in fields ==> f in names && KeyOf(p, f.owner) in e
    ensures DerivedRow(DerivedOf(names, input, fields), RowLook(RowOf(layout, e)))
            == NamedRow(FieldNames(fields), FieldValues(p, fields, e))
  {
    if fields != [] {
      hide IsLayout, RowOf, KeyOf, FieldValue, DerivedRow, NamedRow, DerivedOf;
      var n := |fields| - 1;
      assert fields == fields[..n] + [fields[n]];
      DerivedIsNamed(p, names, layout, input, fields[..n], e);
      FieldsSnoc(p, names, input, fields[..n], fields[n], e);
      DerivedSnoc(DerivedOf(names, input, fields[..n]),
                  DerivedColumn(Physical(fields[n].physical), RefAt(names, input)(fields[n])),
                      RowLook(RowOf(layout, e)));
      NamedSnoc(FieldNames(fields[..n]), FieldValues(p, fields[..n], e), Physical(fields[n].physical),
                FieldValue(p, e, fields[n]));
      FieldCell(p, names, layout, e, fields[n]);
    }
  }

  lemma KeysRead(p: Program, names: Naming, layout: Layout, input: NodeId, fields: seq<Field>, e: Env)
    requires IsLayout(p, names, layout) && forall f :: f in fields ==> f in names && KeyOf(p, f.owner) in e
    ensures Map((d: DerivedColumn) => Cell(RowOf(layout, e), d.source.column), DerivedOf(names, input, fields))
            == FieldValues(p, fields, e)
  {
    hide IsLayout, RowOf, KeyOf, FieldValue;
    forall i | 0 <= i < |fields|
      ensures Cell(RowOf(layout, e), DerivedOf(names, input, fields)[i].source.column) == FieldValue(p, e, fields[i]) {
      assert fields[i] in fields;
      FieldCell(p, names, layout, e, fields[i]);
      assert DerivedOf(names, input, fields)[i].source == RefAt(names, input)(fields[i]);
    }
  }

  lemma ArgumentsRead(p: Program, names: Naming, layout: Layout, input: NodeId, aggregations: seq<AggregationSpec>,
          e: Env)
    requires IsLayout(p, names, layout)
    requires forall a :: a in aggregations && a.source.Some? ==>
              a.source.value in names && KeyOf(p, a.source.value.owner) in e
    ensures Map((a: AggregateColumn) => if a.source.None? then Null else Cell(RowOf(layout, e), a.source.value.column),
                Map(AggregateOf(names, input), aggregations))
         == Map((a: AggregationSpec) => ArgumentOf(p, e, a), aggregations)
  {
    hide IsLayout, RowOf, KeyOf, FieldValue, Cell;
    var row := RowOf(layout, e);
    var got := Map((a: AggregateColumn) =>
                   if a.source.None? then Null else Cell(row,
                                                         a.source.value.column), Map(AggregateOf(names, input),
                                                             aggregations));
    var want := Map((a: AggregationSpec) => ArgumentOf(p, e, a), aggregations);
    forall i | 0 <= i < |aggregations| ensures got[i] == want[i] {
      var a := aggregations[i];
      assert a in aggregations;
      var c := AggregateOf(names, input)(a);
      assert Map(AggregateOf(names, input), aggregations)[i] == c;
      assert got[i] == if c.source.None? then Null else Cell(row, c.source.value.column);
      if a.source.Some? {
        FieldCell(p, names, layout, e, a.source.value);
        assert c.source == Some(RefAt(names, input)(a.source.value));
      }
      assert want[i] == ArgumentOf(p, e, a);
    }
    assert got == want;
  }

  lemma ProjectedRows(p: Program, names: Naming, layout: Layout, input: NodeId, keys: set<Key>, envs: seq<Env>)
    requires IsLayout(p, names, layout) && KeysAre(envs, keys)
    requires forall f :: f in p.requested ==> f in names && KeyOf(p, f.owner) in keys
    ensures Map((r: Row) => DerivedRow(DerivedOf(names, input, p.requested), RowLook(r)), RowsOf(layout, envs))
         == Map((e: Env) => NamedRow(FieldNames(p.requested), FieldValues(p, p.requested, e)), envs)
  {
    hide IsLayout, RowOf, KeyOf, DerivedRow, NamedRow, DerivedOf;
    var toRow := (e: Env) => RowOf(layout, e);
    var derived := (r: Row) => DerivedRow(DerivedOf(names, input, p.requested), RowLook(r));
    var named := (e: Env) => NamedRow(FieldNames(p.requested), FieldValues(p, p.requested, e));
    forall e | e in envs ensures named(e) == derived(toRow(e)) {
      DerivedIsNamed(p, names, layout, input, p.requested, e);
    }
    MapMap(toRow, derived, named, envs);
  }

  lemma ProjectNodeRows(p: Program, names: Naming, input: NodeId, world: World, env: map<NodeId, Rel>)
    requires p.aggregations == [] && input in env
    ensures NodeRows(OutputNode(p, names, input), p.objects, world, env)
         == Map((r: Row) => DerivedRow(DerivedOf(names, input, p.requested), RowLook(r)), env[input].rows)
  {
    hide DerivedRow, DerivedOf;
    var node := OutputNode(p, names, input);
    MapCong((r: Row) => DerivedRow(node.columns,
                                   RowLook(r)), (r: Row) => DerivedRow(DerivedOf(names, input, p.requested),
                                       RowLook(r)), env[input].rows);
  }

  lemma ProjectDenotes(p: Program, names: Naming, layout: Layout, world: World, input: NodeId, keys: set<Key>,
          envs: seq<Env>, env: map<NodeId, Rel>)
    requires IsLayout(p, names, layout) && KeysAre(envs, keys) && p.aggregations == []
    requires forall f :: f in p.requested ==> f in names && KeyOf(p, f.owner) in keys
    requires input in env && env[input] == Represent(layout, keys, envs)
    ensures NodeRows(OutputNode(p, names, input), p.objects, world, env) == OutputRows(p, envs)
  {
    hide IsLayout, RowOf, KeyOf, SchemaFor, DerivedRow, NamedRow, DerivedOf, NodeRows, OutputNode, RowsOf, FieldNames,
         FieldValues;
    ProjectNodeRows(p, names, input, world, env);
    ProjectedRows(p, names, layout, input, keys, envs);
  }

  lemma SameHeadings(p: Program, names: Naming, input: NodeId)
    ensures Map((d: DerivedColumn) => d.name, DerivedOf(names, input, p.groupBy)) == FieldNames(p.groupBy)
    ensures Map(SpecOf, Map(AggregateOf(names, input), p.aggregations)) == Map(SpecFor, p.aggregations)
  {
  }

  lemma AggregateDenotes(p: Program, names: Naming, layout: Layout, world: World, input: NodeId, keys: set<Key>,
          envs: seq<Env>, env: map<NodeId, Rel>)
    requires IsLayout(p, names, layout) && KeysAre(envs, keys) && p.aggregations != []
    requires forall f :: f in p.groupBy ==> f in names && KeyOf(p, f.owner) in keys
    requires forall a :: a in p.aggregations && a.source.Some? ==>
              a.source.value in names && KeyOf(p, a.source.value.owner) in keys
    requires input in env && env[input] == Represent(layout, keys, envs)
    ensures NodeRows(OutputNode(p, names, input), p.objects, world, env) == OutputRows(p, envs)
  {
    hide IsLayout, RowOf, KeyOf, SchemaFor, Aggregate, Map, DerivedOf, FieldNames, FieldValues, ArgumentOf,
         AggregateOf, Cell;
    var node := OutputNode(p, names, input);
    var toRow := (e: Env) => RowOf(layout, e);
    var inputs := (r: Row) => InputOf(node, r);
    var groups := (e: Env) => GroupInputOf(p, e);
    forall e | e in envs ensures groups(e) == inputs(toRow(e)) {
      KeysRead(p, names, layout, input, p.groupBy, e);
      ArgumentsRead(p, names, layout, input, p.aggregations, e);
      var row := RowOf(layout, e);
      SameReader(node, row);
    }
    MapMap(toRow, inputs, groups, envs);
    SameHeadings(p, names, input);
    MapCong((r: Row) => InputOf(node, r), inputs, RowsOf(layout, envs));
    assert NodeRows(node, p.objects, world, env) ==
           Aggregate(FieldNames(p.groupBy), Map(SpecFor, p.aggregations), Map(inputs, RowsOf(layout, envs)));
  }

  lemma SameReader(node: Node, row: Row)
    requires node.AggregateNode?
    ensures InputOf(node, row) ==
      AggInput(Map((d: DerivedColumn) => Cell(row, d.source.column), node.groupBy),
               Map((a: AggregateColumn) => if a.source.None? then Null else Cell(row, a.source.value.column),
                   node.aggregations))
  {
  }

  lemma OutputDenotes(p: Program, names: Naming, layout: Layout, world: World, input: NodeId, keys: set<Key>,
          envs: seq<Env>, env: map<NodeId, Rel>)
    requires IsLayout(p, names, layout) && KeysAre(envs, keys)
    requires forall f :: f in OutputFields(p) ==> f in names && KeyOf(p, f.owner) in keys
    requires input in env && env[input] == Represent(layout, keys, envs)
    ensures NodeRows(OutputNode(p, names, input), p.objects, world, env) == OutputRows(p, envs)
  {
    hide IsLayout, KeyOf, Represent, NodeRows, OutputRows, OutputNode;
    if p.aggregations == [] {
      ProjectDenotes(p, names, layout, world, input, keys, envs, env);
    } else {
      AggregateDenotes(p, names, layout, world, input, keys, envs, env);
    }
  }

  // ----- validity -----

  lemma CollectExactly(outputs: seq<Output>)
    ensures Collect(outputs).Some? <==>
              (forall o :: o in outputs ==> o.dtype.Some?)
                  && (forall i, j :: 0 <= i < j < |outputs| ==> outputs[i].name != outputs[j].name)
  {
    hide Collect;
    if Collect(outputs).Some? {
      forall o | o in outputs ensures o.dtype.Some? {
        var i :| 0 <= i < |outputs| && outputs[i] == o;
        CollectedName(outputs, i);
      }
      forall i, j | 0 <= i < j < |outputs| ensures outputs[i].name != outputs[j].name {
        CollectedNamesDiffer(outputs, i, j);
      }
    }
    if (forall o :: o in outputs ==> o.dtype.Some?)
        && (forall i, j :: 0 <= i < j < |outputs| ==> outputs[i].name != outputs[j].name) {
      CollectDistinct(outputs);
    }
  }

  lemma TypedIffCarried(p: Program, names: Naming, layout: Layout, keys: set<Key>, input: NodeId, f: Field)
    requires IsLayout(p, names, layout) && f in names
    ensures DirectType(RefAt(names, input)(f), input, SchemaFor(layout, keys)).Some? <==> KeyOf(p, f.owner) in keys
  {
  }

  lemma DirectOutputsTyped(p: Program, names: Naming, layout: Layout, keys: set<Key>, input: NodeId, fields: seq<Field>)
    requires IsLayout(p, names, layout) && forall f :: f in fields ==> f in names
    ensures (forall o :: o in DirectOutputs(DerivedOf(names, input, fields), input, SchemaFor(layout, keys)) ==>
              o.dtype.Some?)
        <==> (forall f :: f in fields ==> KeyOf(p, f.owner) in keys)
  {
    hide IsLayout, SchemaFor, KeyOf, DirectType;
    var outputs := DirectOutputs(DerivedOf(names, input, fields), input, SchemaFor(layout, keys));
    forall i | 0 <= i < |fields| ensures outputs[i].dtype.Some? <==> KeyOf(p, fields[i].owner) in keys {
      assert fields[i] in fields;
      TypedIffCarried(p, names, layout, keys, input, fields[i]);
    }
    if forall o :: o in outputs ==> o.dtype.Some? {
      forall f | f in fields ensures KeyOf(p, f.owner) in keys {
        var i :| 0 <= i < |fields| && fields[i] == f;
        assert outputs[i] in outputs;
      }
    }
    if forall f :: f in fields ==> KeyOf(p, f.owner) in keys {
      forall o | o in outputs ensures o.dtype.Some? {
        var i :| 0 <= i < |outputs| && outputs[i] == o;
        assert fields[i] in fields;
      }
    }
  }

  lemma AggregateOutputsTyped(p: Program, names: Naming, layout: Layout, keys: set<Key>, input: NodeId)
    requires IsLayout(p, names, layout) && ValidOutputs(p)
    requires forall a :: a in p.aggregations && a.source.Some? ==> a.source.value in names
    ensures var outputs :=
              AggregateOutputs(Map(AggregateOf(names, input), p.aggregations), input, SchemaFor(layout, keys));
            (forall o :: o in outputs ==> o.dtype.Some?)
            <==> (forall a :: a in p.aggregations && a.source.Some? ==> KeyOf(p, a.source.value.owner) in keys)
  {
    hide IsLayout, SchemaFor, KeyOf, DirectType;
    var outputs := AggregateOutputs(Map(AggregateOf(names, input), p.aggregations), input, SchemaFor(layout, keys));
    forall i | 0 <= i < |p.aggregations|
      ensures outputs[i].dtype.Some? <==>
              (p.aggregations[i].source.Some? ==> KeyOf(p, p.aggregations[i].source.value.owner) in keys) {
      var a := p.aggregations[i];
      assert a in p.aggregations;
      if a.source.Some? {
        TypedIffCarried(p, names, layout, keys, input, a.source.value);
      }
    }
    if forall o :: o in outputs ==> o.dtype.Some? {
      forall a | a in p.aggregations && a.source.Some? ensures KeyOf(p, a.source.value.owner) in keys {
        var i :| 0 <= i < |p.aggregations| && p.aggregations[i] == a;
        assert outputs[i] in outputs;
      }
    }
    if forall a :: a in p.aggregations && a.source.Some? ==> KeyOf(p, a.source.value.owner) in keys {
      forall o | o in outputs ensures o.dtype.Some? {
        var i :| 0 <= i < |outputs| && outputs[i] == o;
        assert p.aggregations[i] in p.aggregations;
      }
    }
  }

  lemma NamesDiffer(outputs: seq<Output>, listed: seq<Column>)
    requires |outputs| == |listed| && forall i :: 0 <= i < |listed| ==> outputs[i].name == listed[i]
    ensures (forall i, j :: 0 <= i < j < |outputs| ==> outputs[i].name != outputs[j].name) <==> NoDup(listed)
  {
  }

  /** Plan validation accepts the output node exactly when names are distinct and no field is missing. */
  lemma OutputIsValid(p: Program, names: Naming, layout: Layout, input: NodeId, keys: set<Key>,
          schemas: map<NodeId, Schema>)
    requires IsLayout(p, names, layout) && ValidOutputs(p)
    requires forall f :: f in OutputFields(p) ==> f in names
    requires input in schemas && schemas[input] == SchemaFor(layout, keys)
    ensures WellFormed(OutputNode(p, names, input))
    ensures ValidateNode(OutputNode(p, names, input), p.objects, schemas).Some?
        <==> NoDup(OutputNames(p)) && forall f :: f in OutputFields(p) ==> KeyOf(p, f.owner) in keys
  {
    hide IsLayout, SchemaFor, KeyOf, Collect, DirectOutputs, AggregateOutputs, ValidOutputs;
    OutputWellFormed(p, names, input);
    var schema := SchemaFor(layout, keys);
    if p.aggregations == [] {
      var outputs := DirectOutputs(DerivedOf(names, input, p.requested), input, schema);
      DirectOutputNames(names, input, p.requested, schema);
      DirectOutputsTyped(p, names, layout, keys, input, p.requested);
      NamesDiffer(outputs, FieldNames(p.requested));
      CollectExactly(outputs);
    } else {
      AggregateFieldsNamed(p, names);
      var grouped := DirectOutputs(DerivedOf(names, input, p.groupBy), input, schema);
      var valued := AggregateOutputs(Map(AggregateOf(names, input), p.aggregations), input, schema);
      DirectOutputNames(names, input, p.groupBy, schema);
      AggregateOutputNames(p, names, input, schema);
      DirectOutputsTyped(p, names, layout, keys, input, p.groupBy);
      AggregateOutputsTyped(p, names, layout, keys, input);
      NamesDiffer(grouped + valued, FieldNames(p.groupBy) + AggregationNames(p.aggregations));
      CollectExactly(grouped + valued);
      assert forall o :: o in grouped + valued <==> o in grouped || o in valued;
    }
  }

  lemma AggregateFieldsNamed(p: Program, names: Naming)
    requires p.aggregations != [] && forall f :: f in OutputFields(p) ==> f in names
    ensures forall f :: f in p.groupBy ==> f in names
    ensures forall a :: a in p.aggregations && a.source.Some? ==> a.source.value in names
  {
  }

  lemma OutputWellFormed(p: Program, names: Naming, input: NodeId)
    requires ValidOutputs(p)
    ensures WellFormed(OutputNode(p, names, input))
  {
    if p.aggregations != [] {
      var columns := Map(AggregateOf(names, input), p.aggregations);
      forall c | c in columns && c.source.None? ensures c.fn == Count && !c.distinct {
        var i :| 0 <= i < |columns| && columns[i] == c;
        assert p.aggregations[i] in p.aggregations;
      }
    }
  }

  lemma DirectOutputNames(names: Naming, input: NodeId, fields: seq<Field>, schema: Schema)
    ensures var outputs := DirectOutputs(DerivedOf(names, input, fields), input, schema);
            |outputs| == |fields| && forall i :: 0 <= i < |fields| ==> outputs[i].name == FieldNames(fields)[i]
  {
  }

  lemma AggregateOutputNames(p: Program, names: Naming, input: NodeId, schema: Schema)
    ensures var outputs := AggregateOutputs(Map(AggregateOf(names, input), p.aggregations), input, schema);
            |outputs| == |p.aggregations| && forall i ::
                0 <= i < |outputs| ==> outputs[i].name == AggregationNames(p.aggregations)[i]
  {
  }
}
