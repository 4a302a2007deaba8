/** How plan rows represent environments: each carried column holds one physical column of one source. */
module AdapterLayout {
  import opened SeqOps
  import opened Sql
  import opened RelationalPlan
  import opened JoinOrder
  import opened InferredProgram
  import opened ProgramMeaning
  import opened ColumnNaming
  import opened AdapterPlan

  datatype Carry = Carry(source: Key, physical: Name, dtype: Datatype)
  type Layout = map<Column, Carry>

  function CarryOf(p: Program, f: Field): Carry {
    Carry(KeyOf(p, f.owner), f.physical, f.dtype)
  }

  ghost predicate IsLayout(p: Program, names: Naming, layout: Layout) {
    && (forall f :: f in names ==> names[f] in layout && layout[names[f]] == CarryOf(p, f))
    && (forall c :: c in layout ==> exists f :: f in names && names[f] == c)
  }

  ghost function ReaderOf(names: Naming, c: Column): (f: Field)
    requires c in names.Values
    ensures f in names && names[f] == c
  {
    var f :| f in names && names[f] == c;
    f
  }

  lemma SameColumnSameCarry(p: Program, names: Naming, f: Field, g: Field)
    requires ValidProgram(p) && GoodNaming(p, names) && f in names && g in names && names[f] == names[g]
    ensures CarryOf(p, f) == CarryOf(p, g)
  {
    hide FieldsKnown, ValidFilters, JoinsAllowed;
    SameSlotSameType(p, f, g);
  }

  lemma LayoutExists(p: Program, names: Naming) returns (layout: Layout)
    requires ValidProgram(p) && GoodNaming(p, names)
    ensures IsLayout(p, names, layout)
  {
    hide ValidProgram, GoodNaming, CarryOf;
    layout := map c | c in names.Values :: CarryOf(p, ReaderOf(names, c));
    forall f | f in names ensures names[f] in layout && layout[names[f]] == CarryOf(p, f) {
      assert names[f] in names.Values;
      SameColumnSameCarry(p, names, f, ReaderOf(names, names[f]));
    }
    forall c | c in layout ensures exists f :: f in names && names[f] == c {
      assert names[ReaderOf(names, c)] == c;
    }
  }

  function CarryValue(e: Env, c: Carry): Value {
    if c.source in e && e[c.source].Some? then Cell(e[c.source].value.cells, Physical(c.physical)) else Null
  }

  function RowOf(layout: Layout, e: Env): Row {
    map c | c in layout && layout[c].source in e :: CarryValue(e, layout[c])
  }

  function SchemaFor(layout: Layout, keys: set<Key>): Schema {
    map c | c in layout && layout[c].source in keys :: layout[c].dtype
  }

  function RowsOf(layout: Layout, envs: seq<Env>): seq<Row> {
    Map((e: Env) => RowOf(layout, e), envs)
  }

  /** The table a plan node denotes when it carries the sources `keys` of the environments `envs`. */
  function Represent(layout: Layout, keys: set<Key>, envs: seq<Env>): Rel {
    Rel(SchemaFor(layout, keys), RowsOf(layout, envs))
  }

  ghost predicate CarriesExactly(layout: Layout, keys: set<Key>, columns: seq<Column>) {
    NoDup(columns) && forall c :: c in columns <==> c in layout && layout[c].source in keys
  }

  // ----- reading fields back -----

  lemma FieldCell(p: Program, names: Naming, layout: Layout, e: Env, f: Field)
    requires IsLayout(p, names, layout) && f in names && KeyOf(p, f.owner) in e
    ensures Cell(RowOf(layout, e), ColumnAt(names, f)) == FieldValue(p, e, f)
  {
  }

  lemma FieldType(p: Program, names: Naming, layout: Layout, keys: set<Key>, f: Field)
    requires IsLayout(p, names, layout) && f in names && KeyOf(p, f.owner) in keys
    ensures ColumnAt(names, f) in SchemaFor(layout, keys) && SchemaFor(layout, keys)[ColumnAt(names, f)] == f.dtype
  {
  }

  /** A renamed filter means on the row what the filter means on the environment. */
  lemma PredOnRow(p: Program, names: Naming, layout: Layout, world: World, pred: Pred<Field>, id: NodeId, e: Env)
    requires IsLayout(p, names, layout)
    requires forall f :: f in Leaves(pred) ==> f in names && KeyOf(p, f.owner) in e.Keys
    ensures Eval(Rename(pred, RefAt(names, id)), RefLook(RowOf(layout, e), SchemaFor(layout, e.Keys)), world.literal)
            == True
        <==> HoldsOn(p, world, pred, e)
  {
    forall f | f in Leaves(pred)
      ensures RefLook(RowOf(layout, e), SchemaFor(layout, e.Keys))(RefAt(names, id)(f)) == FieldLook(p, e)(f) {
      FieldCell(p, names, layout, e, f);
      FieldType(p, names, layout, e.Keys, f);
    }
    RenameKeepsTruth(pred, RefAt(names, id), RefLook(RowOf(layout, e), SchemaFor(layout, e.Keys)), FieldLook(p, e),
                     world.literal);
  }

  lemma LeavesAreDirect(p: Program, names: Naming, layout: Layout, keys: set<Key>, pred: Pred<Field>, id: NodeId)
    requires IsLayout(p, names, layout)
    requires forall f :: f in Leaves(pred) ==> f in names && KeyOf(p, f.owner) in keys
    ensures forall l :: l in Leaves(Rename(pred, RefAt(names, id))) ==> DirectType(l, id, SchemaFor(layout, keys)).Some?
  {
    RenameLeaves(pred, RefAt(names, id));
    var fs := Leaves(pred);
    forall l | l in Map(RefAt(names, id), fs) ensures DirectType(l, id, SchemaFor(layout, keys)).Some? {
      var i :| 0 <= i < |fs| && RefAt(names, id)(fs[i]) == l;
      assert fs[i] in fs;
      FieldType(p, names, layout, keys, fs[i]);
    }
  }

  /** Conditions that may be placed together on one node: renamed filters and periods. */
  function Placed(names: Naming, id: NodeId, filters: seq<FilterSpec>,
          decisions: seq<Decision>): seq<Pred<LogicalRef>> {
    Map((item: FilterSpec) => Rename(item.pred, RefAt(names, id)), filters)
    + Map((d: Decision) => Rename(TemporalPred(d), RefAt(names, id)), decisions)
  }

  ghost predicate Readable(p: Program, names: Naming, keys: set<Key>, filters: seq<FilterSpec>,
          decisions: seq<Decision>) {
    && (forall item, f :: item in filters && f in Leaves(item.pred) ==> f in names && KeyOf(p, f.owner) in keys)
    && (forall d :: d in decisions ==> d.partition in names && KeyOf(p, d.partition.owner) in keys)
    && (forall item :: item in filters ==> WellShaped(item.pred))
  }

  lemma TemporalLeaves(d: Decision)
    ensures Leaves(TemporalPred(d)) == [d.partition] && WellShaped(TemporalPred(d))
  {
  }

  lemma PlacedOnRow(p: Program, names: Naming, layout: Layout, world: World, id: NodeId,
                    filters: seq<FilterSpec>, decisions: seq<Decision>, e: Env)
    requires IsLayout(p, names, layout) && Readable(p, names, e.Keys, filters, decisions)
    ensures AllTrue(Placed(names, id, filters, decisions), RowOf(layout, e), SchemaFor(layout, e.Keys), world)
        <==> ((forall item :: item in filters ==> HoldsOn(p, world, item.pred, e))
              && (forall d :: d in decisions ==> HoldsOn(p, world, TemporalPred(d), e)))
  {
    hide Eval, HoldsOn, RowOf, SchemaFor, RefLook, IsLayout, TemporalPred, Rename;
    var preds := Placed(names, id, filters, decisions);
    var n := |filters|;
    var row, schema := RowOf(layout, e), SchemaFor(layout, e.Keys);
    forall i | 0 <= i < n
      ensures Eval(preds[i], RefLook(row, schema), world.literal) == True <==> HoldsOn(p, world, filters[i].pred, e) {
      assert filters[i] in filters;
      PredOnRow(p, names, layout, world, filters[i].pred, id, e);
    }
    forall i | 0 <= i < |decisions|
      ensures Eval(preds[n + i], RefLook(row, schema), world.literal) == True <==>
              HoldsOn(p, world, TemporalPred(decisions[i]), e) {
      assert decisions[i] in decisions;
      TemporalLeaves(decisions[i]);
      PredOnRow(p, names, layout, world, TemporalPred(decisions[i]), id, e);
    }
    if AllTrue(preds, row, schema, world) {
      forall item | item in filters ensures HoldsOn(p, world, item.pred, e) {
        var i :| 0 <= i < n && filters[i] == item;
        assert preds[i] in preds;
      }
      forall d | d in decisions ensures HoldsOn(p, world, TemporalPred(d), e) {
        var i :| 0 <= i < |decisions| && decisions[i] == d;
        assert preds[n + i] in preds;
      }
    }
    if (forall item :: item in filters ==> HoldsOn(p, world, item.pred, e))
       && (forall d :: d in decisions ==> HoldsOn(p, world, TemporalPred(d), e)) {
      forall q | q in preds ensures Eval(q, RefLook(row, schema), world.literal) == True {
        var i :| 0 <= i < |preds| && preds[i] == q;
        if i < n {
          assert filters[i] in filters;
        } else {
          assert decisions[i - n] in decisions;
          assert preds[n + (i - n)] == q;
        }
      }
    }
  }

  lemma OneIsValid(p: Program, names: Naming, layout: Layout, id: NodeId, keys: set<Key>, pred: Pred<Field>)
    requires IsLayout(p, names, layout) && WellShaped(pred) && forall f ::
             f in Leaves(pred) ==> f in names && KeyOf(p, f.owner) in keys
    ensures var q := Rename(pred, RefAt(names, id));
            WellShaped(q) && forall l :: l in Leaves(q) ==> DirectType(l, id, SchemaFor(layout, keys)).Some?
  {
    hide SchemaFor, IsLayout, Rename, DirectType, WellShaped, Leaves, RefAt, KeyOf;
    LeavesAreDirect(p, names, layout, keys, pred, id);
    RenameShape(pred, RefAt(names, id));
  }

  lemma PlacedFrom(names: Naming, id: NodeId, filters: seq<FilterSpec>, decisions: seq<Decision>, q: Pred<LogicalRef>)
    requires q in Placed(names, id, filters, decisions)
    ensures (exists item :: item in filters && q == Rename(item.pred, RefAt(names, id)))
         || (exists d :: d in decisions && q == Rename(TemporalPred(d), RefAt(names, id)))
  {
    hide Rename, TemporalPred, RefAt;
    var preds := Placed(names, id, filters, decisions);
    var i :| 0 <= i < |preds| && preds[i] == q;
    if i < |filters| {
      assert filters[i] in filters;
    } else {
      assert decisions[i - |filters|] in decisions;
    }
  }

  lemma PlacedIsValid(p: Program, names: Naming, layout: Layout, id: NodeId, keys: set<Key>,
                      filters: seq<FilterSpec>, decisions: seq<Decision>)
    requires IsLayout(p, names, layout) && Readable(p, names, keys, filters, decisions)
    ensures LeavesDirect(Placed(names, id, filters, decisions), id, SchemaFor(layout, keys))
    ensures forall q :: q in Placed(names, id, filters, decisions) ==> WellShaped(q)
  {
    hide SchemaFor, IsLayout, TemporalPred, Rename, DirectType, WellShaped, Leaves, RefAt, KeyOf, Placed;
    forall q | q in Placed(names, id, filters, decisions)
      ensures WellShaped(q) && forall l :: l in Leaves(q) ==> DirectType(l, id, SchemaFor(layout, keys)).Some?
    {
      PlacedFrom(names, id, filters, decisions, q);
      if item :| item in filters && q == Rename(item.pred, RefAt(names, id)) {
        OneIsValid(p, names, layout, id, keys, item.pred);
      } else {
        var d :| d in decisions && q == Rename(TemporalPred(d), RefAt(names, id));
        TemporalLeaves(d);
        OneIsValid(p, names, layout, id, keys, TemporalPred(d));
      }
    }
  }

  // ----- rows built from column lists -----

  /** A projection that keeps names has exactly the listed cells. */
  lemma {:induction false} DerivedCells(columns: seq<DerivedColumn>, look: LogicalRef -> Value)
    requires forall i, j :: 0 <= i < j < |columns| ==> columns[i].name != columns[j].name
    ensures DerivedRow(columns, look).Keys == set d | d in columns :: d.name
    ensures forall d :: d in columns ==> d.name in DerivedRow(columns,
                                                              look) && DerivedRow(columns, look)[d.name]
                                                                  == look(d.source)
  {
    if columns != [] {
      var n := |columns| - 1;
      DerivedCells(columns[..n], look);
      assert columns == columns[..n] + [columns[n]];
      forall d | d in columns
        ensures d.name in DerivedRow(columns, look) && DerivedRow(columns, look)[d.name] == look(d.source) {
        if d in columns[..n] {
          var i :| 0 <= i < n && columns[i] == d;
          assert columns[i].name != columns[n].name;
        }
      }
    }
  }

  lemma {:induction false} CollectDistinct(outputs: seq<Output>)
    requires forall i, j :: 0 <= i < j < |outputs| ==> outputs[i].name != outputs[j].name
    requires forall o :: o in outputs ==> o.dtype.Some?
    ensures Collect(outputs).Some?
    ensures Collect(outputs).value.Keys == set o | o in outputs :: o.name
    ensures forall o :: o in outputs ==>
              o.name in Collect(outputs).value && Collect(outputs).value[o.name] == o.dtype.value
  {
    if outputs != [] {
      var n := |outputs| - 1;
      CollectDistinct(outputs[..n]);
      assert outputs == outputs[..n] + [outputs[n]];
      forall o | o in outputs[..n] ensures o.name != outputs[n].name {
        var i :| 0 <= i < n && outputs[i] == o;
        assert outputs[i].name != outputs[n].name;
      }
      forall o | o in outputs
        ensures o.name in Collect(outputs).value && Collect(outputs).value[o.name] == o.dtype.value {
        if o in outputs[..n] {
          assert o.name != outputs[n].name;
        }
      }
    }
  }

  lemma {:induction false} CollectedNamesDiffer(outputs: seq<Output>, i: nat, j: nat)
    requires Collect(outputs).Some? && i < j < |outputs|
    ensures outputs[i].name != outputs[j].name
    decreases |outputs|
  {
    var n := |outputs| - 1;
    if j < n {
      CollectedNamesDiffer(outputs[..n], i, j);
    } else {
      CollectedName(outputs[..n], i);
    }
  }

  lemma {:induction false} CollectedName(outputs: seq<Output>, i: nat)
    requires Collect(outputs).Some? && i < |outputs|
    ensures outputs[i].name in Collect(outputs).value && outputs[i].dtype.Some?
    decreases |outputs|
  {
    if i < |outputs| - 1 {
      CollectedName(outputs[..|outputs| - 1], i);
    }
  }
}
