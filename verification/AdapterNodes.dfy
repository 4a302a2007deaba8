/** What each node of the adapter denotes: the rows of a scan, a filter, a union, a join and an output
    are the layouts of the environments that the pushed-down reading computes at that point. */
module AdapterNodes {
  import opened SeqOps
  import opened Sql
  import opened RelationalPlan
  import opened JoinOrder
  import opened InferredProgram
  import opened ProgramMeaning
  import opened ColumnNaming
  import opened AdapterPlan
  import opened AdapterLayout

  /** A valid program over stored tables, with its columns named and laid out. */
  ghost predicate Setting(p: Program, names: Naming, layout: Layout, world: World) {
    ValidProgram(p) && GoodNaming(p, names) && IsLayout(p, names, layout) && ValidWorld(world)
  }

  ghost predicate KeysAre(envs: seq<Env>, keys: set<Key>) {
    forall e :: e in envs ==> e.Keys == keys
  }

  lemma StartKeys(source: Key, rows: seq<BaseRow>)
    ensures KeysAre(StartEnvs(source, rows), {source})
  {
    var envs := StartEnvs(source, rows);
    forall e | e in envs ensures e.Keys == {source} {
      var i :| 0 <= i < |envs| && envs[i] == e;
      assert envs[i] == Bind(map[], source)(rows[i]);
    }
  }

  // ----- columns of a source -----

  lemma FieldOfTable(p: Program, o: TableObject, f: Field)
    requires ValidCatalog(p.objects) && o in p.objects
    ensures f in o.fields <==> f in FieldsOf(p) && f.owner == o.ref
  {
    if f in FieldsOf(p) && f.owner == o.ref {
      var q :| q in p.objects && f in q.fields;
      var i :| 0 <= i < |p.objects| && p.objects[i] == o;
      var k :| 0 <= k < |p.objects| && p.objects[k] == q;
      assert o.ref == q.ref;
    }
  }

  // A field of one source has a counterpart in every table of that source.
  lemma Counterpart(p: Program, o: TableObject, f: Field) returns (g: Field)
    requires ValidProgram(p) && o in p.objects && f in FieldsOf(p) && KeyOf(p, f.owner) == KeyOf(p, o.ref)
    ensures g in o.fields && SlotOf(p, g) == SlotOf(p, f)
  {
    hide FieldsKnown, ValidFilters, JoinsAllowed, KeyOf;
    if f.owner == o.ref {
      FieldOfTable(p, o, f);
      g := f;
    } else {
      OwnerListed(p, f);
      var q :| q in p.objects && q.ref == f.owner && f in q.fields;
      SameKeySameFamily(p, f.owner, o.ref);
      var family :| family in p.families && f.owner in family.members && o.ref in family.members;
      assert SameColumns(q, o);
      g :| g in o.fields && g.physical == f.physical && g.dtype == f.dtype;
    }
  }

  // The fields a scan reads, each with its own column.
  lemma NeededFacts(p: Program, names: Naming, o: TableObject)
    requires ValidProgram(p) && GoodNaming(p, names) && o in p.objects
    ensures NoDup(NeededFields(names, o))
    ensures forall f :: f in NeededFields(names, o) <==> f in names && f.owner == o.ref
    ensures forall f, g :: f in NeededFields(names, o) && g in NeededFields(names, o) && names[f] == names[g] ==> f == g
  {
    hide FieldsKnown, ValidFilters, JoinsAllowed, ValidFamilies, KeyOf, FieldsOf;
    NoDupFilter((f: Field) => f in names, o.fields);
    forall f ensures f in NeededFields(names, o) <==> f in names && f.owner == o.ref {
      FieldOfTable(p, o, f);
    }
  }

  lemma NamedCounterpart(p: Program, names: Naming, o: TableObject, f: Field) returns (g: Field)
    requires ValidProgram(p) && GoodNaming(p, names) && o in p.objects && f in names
             && KeyOf(p, f.owner) == KeyOf(p, o.ref)
    ensures g in NeededFields(names, o) && names[g] == names[f]
  {
    hide ValidCatalog, ValidFamilies, FieldsKnown, ValidFilters, JoinsAllowed, KeyOf, FieldsOf;
    g := Counterpart(p, o, f);
    FieldOfTable(p, o, g);
  }

  /** The named columns of a table are exactly the columns laid out for its source. */
  lemma TableCarries(p: Program, names: Naming, layout: Layout, o: TableObject)
    requires ValidProgram(p) && GoodNaming(p, names) && IsLayout(p, names, layout) && o in p.objects
    ensures CarriesExactly(layout, {KeyOf(p, o.ref)}, ColumnsOf(names, o))
  {
    hide ValidProgram, GoodNaming, KeyOf, FieldsOf, NeededFields;
    var fields, columns := NeededFields(names, o), ColumnsOf(names, o);
    NeededFacts(p, names, o);
    forall i, j | 0 <= i < j < |columns| ensures columns[i] != columns[j] {
      assert fields[i] in fields && fields[j] in fields;
    }
    forall c | c in columns ensures c in layout && layout[c].source in {KeyOf(p, o.ref)} {
      var i :| 0 <= i < |columns| && columns[i] == c;
      assert fields[i] in fields;
    }
    forall c | c in layout && layout[c].source in {KeyOf(p, o.ref)} ensures c in columns {
      var f :| f in names && names[f] == c;
      var g := NamedCounterpart(p, names, o, f);
      var i :| 0 <= i < |fields| && fields[i] == g;
      assert columns[i] == c;
    }
  }

  lemma FamilyCarries(p: Program, names: Naming, layout: Layout, family: Family)
    requires ValidProgram(p) && GoodNaming(p, names) && IsLayout(p, names, layout) && family in p.families
    ensures CarriesExactly(layout, {family.ref}, FamilyColumns(p, names, family))
  {
    hide FieldsKnown, ValidFilters, JoinsAllowed, CarriesExactly, ColumnsOf, IsLayout, GoodNaming;
    var m := family.members[0];
    assert m in family.members;
    var q := MemberObject(p, family, m);
    FindObjectOf(p.objects, q);
    MemberKey(p, family, m);
    TableCarries(p, names, layout, q);
    SortedCarries(layout, {family.ref}, ColumnsOf(names, q), (c: Column) => if c.Carried? then c.n else 0);
    assert FamilyColumns(p, names, family) == SortBy((c: Column) => if c.Carried? then c.n else 0, ColumnsOf(names, q));
  }

  lemma SortedCarries(layout: Layout, keys: set<Key>, columns: seq<Column>, key: Column -> nat)
    requires CarriesExactly(layout, keys, columns)
    ensures CarriesExactly(layout, keys, SortBy(key, columns))
  {
    SameBagSameMembers(columns, SortBy(key, columns));
  }

  lemma {:induction false} FamilyWithFound(families: seq<Family>, source: Key)
    ensures FamilyWith(families, source).Some? ==>
            FamilyWith(families, source).value in families && FamilyWith(families, source).value.ref == source
    ensures FamilyWith(families, source).None? ==> forall f :: f in families ==> f.ref != source
  {
    if families != [] {
      FamilyWithFound(families[1..], source);
      assert families == [families[0]] + families[1..];
    }
  }

  lemma SourceCarries(p: Program, names: Naming, layout: Layout, source: Key)
    requires ValidProgram(p) && GoodNaming(p, names) && IsLayout(p, names, layout) && source in SourcesOf(p)
    ensures CarriesExactly(layout, {source}, SourceColumns(p, names, source))
  {
    hide FieldsKnown, ValidFilters, JoinsAllowed, ValidFamilies, CarriesExactly, IsLayout, GoodNaming;
    FamilyWithFound(p.families, source);
    if FamilyWith(p.families, source).Some? {
      FamilyCarries(p, names, layout, FamilyWith(p.families, source).value);
    } else {
      var o :| o in p.objects && FamilyOf(p.families, o.ref).None? && o.ref == source;
      FindObjectOf(p.objects, o);
      TableCarries(p, names, layout, o);
    }
  }

  // ----- rows rebuilt column by column -----

  function Copied(columns: seq<Column>, row: Row): Row {
    map c | c in columns :: Cell(row, c)
  }

  lemma CopyIsSame(layout: Layout, e: Env, columns: seq<Column>)
    requires CarriesExactly(layout, e.Keys, columns)
    ensures Copied(columns, RowOf(layout, e)) == RowOf(layout, e)
  {
  }

  // ----- scans -----

  lemma {:induction false} ScannedCells(columns: seq<ScanColumn>, fields: seq<Field>, cells: Row)
    requires forall i, j :: 0 <= i < j < |columns| ==> columns[i].name != columns[j].name
    requires forall c :: c in columns ==> FindField(fields, c.field).Some?
    ensures ScannedRow(columns, fields, cells).Keys == set c | c in columns :: c.name
    ensures forall c :: c in columns ==>
              && c.name in ScannedRow(columns, fields, cells)
              && ScannedRow(columns, fields, cells)[c.name]
                  == Cell(cells, Physical(FindField(fields, c.field).value.physical))
  {
    if columns != [] {
      var n := |columns| - 1;
      ScannedCells(columns[..n], fields, cells);
      assert columns == columns[..n] + [columns[n]];
      forall c | c in columns[..n] ensures c.name != columns[n].name {
        var i :| 0 <= i < n && columns[i] == c;
      }
    }
  }

  lemma {:induction false} FindFieldOf(fields: seq<Field>, f: Field)
    requires f in fields && forall g :: g in fields && g.ref == f.ref ==> g == f
    ensures FindField(fields, f.ref) == Some(f)
  {
    var n := |fields| - 1;
    if fields[n] != f {
      var i :| 0 <= i < |fields| && fields[i] == f;
      assert fields[..n][i] == f;
      FindFieldOf(fields[..n], f);
    } 
  }

  /** The columns of a scan: distinct names that cover the source, each reading a field of its own. */
  ghost predicate ReadsFields(p: Program, names: Naming, layout: Layout, o: TableObject, columns: seq<ScanColumn>) {
    && (forall i, j :: 0 <= i < j < |columns| ==> columns[i].name != columns[j].name)
    && (forall c :: c in columns ==>
          exists f :: f in o.fields && f in names && f.owner == o.ref && c.name == names[f] && FindField(o.fields,
              c.field) == Some(f))
    && (forall c :: c in layout && layout[c].source == KeyOf(p, o.ref) ==> exists s :: s in columns && s.name == c)
  }

  lemma NeededIsFound(p: Program, names: Naming, o: TableObject, f: Field)
    requires ValidProgram(p) && GoodNaming(p, names) && o in p.objects && f in NeededFields(names, o)
    ensures f in o.fields && FindField(o.fields, f.ref) == Some(f)
  {
    hide FieldsKnown, ValidFilters, JoinsAllowed, ValidFamilies, GoodNaming, UniqueObjects, FindField;
    FindFieldOf(o.fields, f);
  }

  lemma ScanColumnsAre(p: Program, names: Naming, layout: Layout, id: NodeId, o: TableObject)
    requires ValidProgram(p) && GoodNaming(p, names) && IsLayout(p, names, layout) && o in p.objects
    ensures ReadsFields(p, names, layout, o, ScanOf(names, id, o).scanned)
  {
    hide ValidProgram, GoodNaming, KeyOf, FieldsOf, NeededFields, IsLayout, FindField;
    var fields, columns := NeededFields(names, o), ScanOf(names, id, o).scanned;
    TableCarries(p, names, layout, o);
    NeededFacts(p, names, o);
    forall i, j | 0 <= i < j < |columns| ensures columns[i].name != columns[j].name {
      assert ColumnsOf(names, o)[i] != ColumnsOf(names, o)[j];
    }
    forall c | c in columns
      ensures exists f :: f in o.fields && f in names && f.owner == o.ref && c.name == names[f] && FindField(o.fields,
          c.field) == Some(f) {
      var i :| 0 <= i < |columns| && columns[i] == c;
      assert fields[i] in fields;
      NeededIsFound(p, names, o, fields[i]);
    }
    forall c | c in layout && layout[c].source == KeyOf(p, o.ref) ensures exists s :: s in columns && s.name == c {
      assert c in ColumnsOf(names, o);
      var i :| 0 <= i < |columns| && ColumnsOf(names, o)[i] == c;
      assert columns[i] in columns && columns[i].name == c;
    }
  }

  lemma ScannedIsLaidOut(p: Program, names: Naming, layout: Layout, o: TableObject, columns: seq<ScanColumn>,
          b: BaseRow)
    requires IsLayout(p, names, layout) && ReadsFields(p, names, layout, o, columns)
    ensures ScannedRow(columns, o.fields, b.cells) == RowOf(layout, Bind(map[], KeyOf(p, o.ref))(b))
  {
    hide ScannedRow, KeyOf, FindField;
    ScannedCells(columns, o.fields, b.cells);
    var got, want := ScannedRow(columns, o.fields, b.cells), RowOf(layout, Bind(map[], KeyOf(p, o.ref))(b));
    forall c | c in got ensures c in want && want[c] == got[c] {
      var s :| s in columns && s.name == c;
      var f :| f in o.fields && f in names && f.owner == o.ref && c == names[f]
          && FindField(o.fields, s.field) == Some(f);
    }
    forall c | c in want ensures c in got {
      var s :| s in columns && s.name == c;
    }
  }

  lemma ReadColumnsCarry(p: Program, names: Naming, layout: Layout, o: TableObject, columns: seq<ScanColumn>,
          listed: seq<Column>)
    requires IsLayout(p, names, layout) && ReadsFields(p, names, layout, o, columns)
    requires |listed| == |columns| && forall k :: 0 <= k < |columns| ==> listed[k] == columns[k].name
    ensures CarriesExactly(layout, {KeyOf(p, o.ref)}, listed)
  {
    hide KeyOf, FindField;
    forall c | c in layout && layout[c].source in {KeyOf(p, o.ref)} ensures c in listed {
      var s :| s in columns && s.name == c;
      var k :| 0 <= k < |columns| && columns[k] == s;
      assert listed[k] == c;
    }
    forall c | c in listed ensures c in layout && layout[c].source in {KeyOf(p, o.ref)} {
      var k :| 0 <= k < |listed| && listed[k] == c;
      assert columns[k] in columns;
    }
  }

  lemma ScanOutputIs(p: Program, names: Naming, layout: Layout, o: TableObject, columns: seq<ScanColumn>, k: nat)
    requires IsLayout(p, names, layout) && ReadsFields(p, names, layout, o, columns) && k < |columns|
    ensures var schema := SchemaFor(layout, {KeyOf(p, o.ref)});
            columns[k].name in schema && ScanOutputs(columns, o.fields)[k]
                == Output(columns[k].name, Some(schema[columns[k].name]))
  {
    hide KeyOf, FindField;
    assert columns[k] in columns;
    var f :| f in o.fields && f in names && f.owner == o.ref && columns[k].name == names[f]
        && FindField(o.fields, columns[k].field) == Some(f);
  }

  lemma ScanOutputsAre(p: Program, names: Naming, layout: Layout, o: TableObject, columns: seq<ScanColumn>)
    requires IsLayout(p, names, layout) && ReadsFields(p, names, layout, o, columns)
    ensures Collect(ScanOutputs(columns, o.fields)) == Some(SchemaFor(layout, {KeyOf(p, o.ref)}))
  {
    hide KeyOf, Collect, ReadsFields, IsLayout, SchemaFor, CarriesExactly, FindField;
    var listed := Map((s: ScanColumn) => s.name, columns);
    ReadColumnsCarry(p, names, layout, o, columns, listed);
    forall k | 0 <= k < |columns|
      ensures columns[k].name in SchemaFor(layout, {KeyOf(p, o.ref)})
      ensures ScanOutputs(columns, o.fields)[k]
              == Output(listed[k], Some(SchemaFor(layout, {KeyOf(p, o.ref)})[columns[k].name])) {
      ScanOutputIs(p, names, layout, o, columns, k);
    }
    assert |ScanOutputs(columns, o.fields)| == |columns|;
    SchemaCollected(layout, {KeyOf(p, o.ref)}, listed, ScanOutputs(columns, o.fields));
  }

  lemma ScanIsValid(p: Program, names: Naming, layout: Layout, id: NodeId, o: TableObject, schemas: map<NodeId, Schema>)
    requires ValidProgram(p) && GoodNaming(p, names) && IsLayout(p, names, layout) && o in p.objects
    ensures ValidateNode(ScanOf(names, id, o), p.objects, schemas) == Some(SchemaFor(layout, {KeyOf(p, o.ref)}))
  {
    hide GoodNaming, IsLayout, ReadsFields, FieldsKnown, ValidFilters, JoinsAllowed, ValidFamilies, KeyOf, Collect,
         ScanOutputs;
    ScanColumnsAre(p, names, layout, id, o);
    FindObjectOf(p.objects, o);
    ScanOutputsAre(p, names, layout, o, ScanOf(names, id, o).scanned);
  }

  lemma ScanDenotes(p: Program, names: Naming, layout: Layout, world: World, id: NodeId, o: TableObject,
          env: map<NodeId, Rel>)
    requires ValidProgram(p) && GoodNaming(p, names) && IsLayout(p, names, layout) && o in p.objects
    ensures NodeRows(ScanOf(names, id, o), p.objects, world, env)
            == RowsOf(layout, StartEnvs(KeyOf(p, o.ref), Stored(world, o.ref)))
  {
    hide FieldsKnown, ValidFilters, JoinsAllowed, ValidFamilies, IsLayout, GoodNaming, FieldsOf, KeyOf, RowOf,
         ScannedRow, Map, ReadsFields;
    ScanColumnsAre(p, names, layout, id, o);
    FindObjectOf(p.objects, o);
    var stored, source := Stored(world, o.ref), KeyOf(p, o.ref);
    var columns := ScanOf(names, id, o).scanned;
    var scan := (b: BaseRow) => ScannedRow(columns, o.fields, b.cells);
    forall b | b in stored ensures scan(b) == RowOf(layout, Bind(map[], source)(b)) {
      ScannedIsLaidOut(p, names, layout, o, columns, b);
    }
    MapMap(Bind(map[], source), (e: Env) => RowOf(layout, e), scan, stored);
    assert NodeRows(ScanOf(names, id, o), p.objects, world, env) == Map(scan, stored);
  }

  // ----- filters -----

  ghost predicate AllHoldOn(p: Program, world: World, filters: seq<FilterSpec>, decisions: seq<Decision>, e: Env) {
    && (forall item :: item in filters ==> HoldsOn(p, world, item.pred, e))
    && (forall d :: d in decisions ==> HoldsOn(p, world, TemporalPred(d), e))
  }

  lemma FilterDenotes(p: Program, names: Naming, layout: Layout, world: World, id: NodeId, input: NodeId,
                      keys: set<Key>, envs: seq<Env>, filters: seq<FilterSpec>, decisions: seq<Decision>,
                      keep: Env -> bool, env: map<NodeId, Rel>)
    requires IsLayout(p, names, layout) && Readable(p, names, keys, filters, decisions) && KeysAre(envs, keys)
    requires input in env && env[input] == Represent(layout, keys, envs)
    requires filters != [] || decisions != []
    requires forall e :: e in envs ==> keep(e) == AllHoldOn(p, world, filters, decisions, e)
    ensures var node := FilterNode(id, input, Placed(names, input, filters, decisions));
            && WellFormed(node)
            && ValidateNode(node, p.objects, Schemas(env)) == Some(SchemaFor(layout, keys))
            && NodeRows(node, p.objects, world, env) == RowsOf(layout, Filter(keep, envs))
  {
    hide *;
    hide KeysAre;
    PlacedIsEnough(names, input, filters, decisions);
    PlacedIsValid(p, names, layout, input, keys, filters, decisions);
    FilterIsValid(p, layout, id, input, keys, envs, Placed(names, input, filters, decisions), env);
    FilterRows(p, names, layout, world, id, input, keys, envs, filters, decisions, keep, env);
  }

  lemma FilterIsValid(p: Program, layout: Layout, id: NodeId, input: NodeId, keys: set<Key>, envs: seq<Env>,
                      preds: seq<Pred<LogicalRef>>, env: map<NodeId, Rel>)
    requires input in env && env[input] == Represent(layout, keys, envs)
    requires LeavesDirect(preds, input, SchemaFor(layout, keys)) && |preds| >= 1 && forall q ::
             q in preds ==> WellShaped(q)
    ensures WellFormed(FilterNode(id, input, preds))
    ensures ValidateNode(FilterNode(id, input, preds), p.objects, Schemas(env)) == Some(SchemaFor(layout, keys))
  {
    hide LeavesDirect, WellShaped, SchemaFor, RowOf;
  }

  lemma FilterRows(p: Program, names: Naming, layout: Layout, world: World, id: NodeId, input: NodeId,
                   keys: set<Key>, envs: seq<Env>, filters: seq<FilterSpec>, decisions: seq<Decision>,
                   keep: Env -> bool, env: map<NodeId, Rel>)
    requires IsLayout(p, names, layout) && Readable(p, names, keys, filters, decisions) && KeysAre(envs, keys)
    requires input in env && env[input] == Represent(layout, keys, envs)
    requires forall e :: e in envs ==> keep(e) == AllHoldOn(p, world, filters, decisions, e)
    ensures NodeRows(FilterNode(id, input, Placed(names, input, filters, decisions)), p.objects, world, env)
            == RowsOf(layout, Filter(keep, envs))
  {
    hide IsLayout, RowOf, SchemaFor, Placed, AllTrue, Readable, Eval, HoldsOn;
    var preds, schema := Placed(names, input, filters, decisions), SchemaFor(layout, keys);
    var node := FilterNode(id, input, preds);
    var onRow := (r: Row) => AllTrue(preds, r, schema, world);
    var toRow := (e: Env) => RowOf(layout, e);
    forall e | e in envs ensures keep(e) == onRow(toRow(e)) {
      PlacedOnRow(p, names, layout, world, input, filters, decisions, e);
    }
    FilterMap(onRow, toRow, keep, envs);
    FilterCong((r: Row) => AllTrue(preds, r, RelOf(env, input).schema, world), onRow, RowsOf(layout, envs));
  }

  lemma PlacedIsEnough(names: Naming, input: NodeId, filters: seq<FilterSpec>, decisions: seq<Decision>)
    requires filters != [] || decisions != []
    ensures |Placed(names, input, filters, decisions)| >= 1
  {
  }

  // ----- unions -----

  lemma UnitedSnoc(columns: seq<UnionColumn>, c: UnionColumn, branch: nat, row: Row)
    requires branch < |c.sources|
    ensures UnitedRow(columns + [c], branch, row)
            == UnitedRow(columns, branch, row)[c.name := Cell(row, c.sources[branch].column)]
  {
    assert (columns + [c])[..|columns|] == columns;
  }

  lemma UnitedColumnAt(inputs: seq<NodeId>, c: Column, branch: nat)
    requires branch < |inputs|
    ensures var u := UnitedColumn(inputs)(c); u.name == c && branch < |u.sources| && u.sources[branch].column == c
  {
  }

  lemma {:induction false} UnitedIsCopy(inputs: seq<NodeId>, columns: seq<Column>, branch: nat, row: Row)
    requires branch < |inputs|
    ensures UnitedRow(Map(UnitedColumn(inputs), columns), branch, row) == Copied(columns, row)
  {
    if columns == [] {
      assert Copied([], row) == map[];
    } else {
      hide UnitedRow, UnitedColumn, Cell, Map, Copied;
      var before, last := columns[..|columns| - 1], columns[|columns| - 1];
      assert columns == before + [last];
      UnitedIsCopy(inputs, before, branch, row);
      MapSnoc(UnitedColumn(inputs), before, last);
      UnitedColumnAt(inputs, last, branch);
      UnitedSnoc(Map(UnitedColumn(inputs), before), UnitedColumn(inputs)(last), branch, row);
      CopiedSnoc(before, last, row);
    }
  }

  lemma CopiedSnoc(columns: seq<Column>, c: Column, row: Row)
    ensures Copied(columns + [c], row) == Copied(columns, row)[c := Cell(row, c)]
  {
  }

  lemma UnionOutputIs(inputs: seq<NodeId>, c: Column, t: Datatype, schemas: map<NodeId, Schema>)
    requires inputs != [] && forall i :: i in inputs ==> i in schemas && c in schemas[i] && schemas[i][c] == t
    ensures UnionOutput(UnitedColumn(inputs)(c), inputs, schemas) == Output(c, Some(t))
  {
    var column := UnitedColumn(inputs)(c);
    forall s | s in column.sources ensures TypeIn(SchemaOf(schemas, s.node), s.column) == Some(t) {
      var k :| 0 <= k < |column.sources| && column.sources[k] == s;
      assert inputs[k] in inputs;
    }
    assert column.sources[0].node == inputs[0] && inputs[0] in inputs;
    assert column.sources[0] in column.sources;
  }

  lemma UnionIsValid(p: Program, layout: Layout, id: NodeId, keys: set<Key>, inputs: seq<NodeId>, columns: seq<Column>,
          schemas: map<NodeId, Schema>)
    requires CarriesExactly(layout, keys, columns) && inputs != []
    requires forall i :: i in inputs ==> i in schemas && schemas[i] == SchemaFor(layout, keys)
    ensures ValidateNode(UnionNode(id, inputs, Map(UnitedColumn(inputs), columns)), p.objects, schemas)
            == Some(SchemaFor(layout, keys))
  {
    hide Collect, UnionOutput;
    var outputs := UnionOutputs(Map(UnitedColumn(inputs), columns), inputs, schemas);
    forall k | 0 <= k < |columns| ensures outputs[k] == Output(columns[k], Some(SchemaFor(layout, keys)[columns[k]])) {
      assert columns[k] in columns;
      UnionOutputIs(inputs, columns[k], SchemaFor(layout, keys)[columns[k]], schemas);
    }
    SchemaCollected(layout, keys, columns, outputs);
  }

  lemma SchemaCollected(layout: Layout, keys: set<Key>, columns: seq<Column>, outputs: seq<Output>)
    requires CarriesExactly(layout, keys, columns) && |outputs| == |columns|
    requires forall k :: 0 <= k < |columns| ==>
               columns[k] in SchemaFor(layout, keys)
                   && outputs[k] == Output(columns[k], Some(SchemaFor(layout, keys)[columns[k]]))
    ensures Collect(outputs) == Some(SchemaFor(layout, keys))
  {
    hide Collect;
    CollectDistinct(outputs);
    var got, want := Collect(outputs).value, SchemaFor(layout, keys);
    forall c | c in want ensures c in got && got[c] == want[c] {
      assert c in columns;
      var k :| 0 <= k < |columns| && columns[k] == c;
      assert outputs[k] in outputs;
    }
    forall c | c in got ensures c in want {
      var u :| u in outputs && u.name == c;
      var k :| 0 <= k < |outputs| && outputs[k] == u;
    }
    assert got == want;
  }

  // One input of a union adds the rows of one member.
  lemma BranchDenotes(layout: Layout, source: Key, inputs: seq<NodeId>, columns: seq<Column>, branch: nat,
          rows: seq<BaseRow>)
    requires branch < |inputs| && CarriesExactly(layout, {source}, columns)
    ensures var united := Map(UnitedColumn(inputs), columns);
            Map((r: Row) => UnitedRow(united, branch, r), RowsOf(layout, StartEnvs(source, rows)))
                == RowsOf(layout, StartEnvs(source, rows))
  {
    hide RowOf, UnitedRow, CarriesExactly, Map, Copied;
    var columnsHere := Map(UnitedColumn(inputs), columns);
    var envs := StartEnvs(source, rows);
    StartKeys(source, rows);
    forall e | e in envs ensures UnitedRow(columnsHere, branch, RowOf(layout, e)) == RowOf(layout, e) {
      UnitedIsCopy(inputs, columns, branch, RowOf(layout, e));
      CopyIsSame(layout, e, columns);
    }
    MapMap((e: Env) => RowOf(layout,
                             e), (r: Row) => UnitedRow(columnsHere, branch, r), (e: Env) => RowOf(layout, e), envs);
  }

  lemma RowsOfStartConcat(layout: Layout, source: Key, xs: seq<BaseRow>, ys: seq<BaseRow>)
    ensures RowsOf(layout, StartEnvs(source, xs + ys)) == RowsOf(layout, StartEnvs(source, xs))
            + RowsOf(layout, StartEnvs(source, ys))
  {
    hide RowOf, Map;
    MapConcat(Bind(map[], source), xs, ys);
    MapConcat((e: Env) => RowOf(layout, e), StartEnvs(source, xs), StartEnvs(source, ys));
  }

  lemma NoRows(layout: Layout, source: Key)
    ensures RowsOf(layout, StartEnvs(source, [])) == []
  {
  }

  lemma NextMember(rows: Ref -> seq<BaseRow>, members: seq<Ref>, k: nat)
    requires k < |members|
    ensures FlatMap(rows, members[..k + 1]) == FlatMap(rows, members[..k]) + rows(members[k])
  {
    assert members[..k + 1] == members[..k] + [members[k]];
    FlatMapConcat(rows, members[..k], [members[k]]);
    assert FlatMap(rows, [members[k]]) == rows(members[k]);
  }

  lemma NextUnited(layout: Layout, source: Key, node: Node, columns: seq<Column>, k: nat, members: seq<Ref>,
                   rows: Ref -> seq<BaseRow>, env: map<NodeId, Rel>)
    requires node.UnionNode? && node.united == Map(UnitedColumn(node.inputs), columns) && k < |node.inputs| == |members|
    requires CarriesExactly(layout, {source}, columns)
    requires node.inputs[k] in env
             && env[node.inputs[k]] == Represent(layout, {source}, StartEnvs(source, rows(members[k])))
    ensures UnitedRows(node, k + 1, env) == UnitedRows(node, k, env)
            + RowsOf(layout, StartEnvs(source, rows(members[k])))
  {
    hide RowsOf, UnitedRow, CarriesExactly, SchemaFor, StartEnvs;
    BranchDenotes(layout, source, node.inputs, columns, k, rows(members[k]));
    assert RelOf(env, node.inputs[k]).rows == RowsOf(layout, StartEnvs(source, rows(members[k])));
  }

  lemma {:induction false} UnionDenotes(layout: Layout, source: Key, node: Node, columns: seq<Column>, k: nat,
                                        members: seq<Ref>, rows: Ref -> seq<BaseRow>, env: map<NodeId, Rel>)
    requires node.UnionNode? && node.united == Map(UnitedColumn(node.inputs), columns)
             && k <= |node.inputs| == |members|
    requires CarriesExactly(layout, {source}, columns)
    requires forall i :: 0 <= i < |members| ==>
               node.inputs[i] in env && env[node.inputs[i]]
                   == Represent(layout, {source}, StartEnvs(source, rows(members[i])))
    ensures UnitedRows(node, k, env) == RowsOf(layout, StartEnvs(source, FlatMap(rows, members[..k])))
  {
    hide *;
    if k == 0 {
      NoUnited(node, env);
      NoRows(layout, source);
      assert FlatMap(rows, members[..0]) == [] by { NoMembers(rows, members); }
    } else {
      UnionDenotes(layout, source, node, columns, k - 1, members, rows, env);
      NextMember(rows, members, k - 1);
      NextUnited(layout, source, node, columns, k - 1, members, rows, env);
      RowsOfStartConcat(layout, source, FlatMap(rows, members[..k - 1]), rows(members[k - 1]));
    }
  }

  lemma NoUnited(node: Node, env: map<NodeId, Rel>)
    requires node.UnionNode?
    ensures UnitedRows(node, 0, env) == []
  {
  }

  lemma NoMembers(rows: Ref -> seq<BaseRow>, members: seq<Ref>)
    ensures FlatMap(rows, members[..0]) == []
  {
  }
}
