/** From a drafted program to a validated one: what the validator accepts, and what both compilers may assume.
    Models `validate` of ontology_core/inference_validation.py. */
module DraftValidation {
  import opened SeqOps
  import opened Sql
  import opened RelationalPlan
  import opened JoinOrder
  import opened InferredProgram
  import opened AdapterOutput
  import opened AdapterPlan
  import opened Adapter

  // ----- drafts and candidates -----

  datatype DraftJoin = DraftJoin(joinType: JoinType, strategy: AntiStrategy, leftTable: Ref, leftField: Ref,
          rightTable: Ref, rightField: Ref)
  datatype DraftFilter = DraftFilter(scope: FilterScope, pred: Pred<Ref>)
  datatype DraftAggregation = DraftAggregation(name: Name, fn: AggFunction, source: Option<Ref>, distinct: bool)

  datatype Draft = Draft(
    blocked: bool, tables: seq<Ref>, families: seq<Ref>, requested: seq<Ref>, joins: seq<DraftJoin>,
    filters: seq<DraftFilter>, groupBy: seq<Ref>, aggregations: seq<DraftAggregation>)

  /** What was retrieved: tables and families, the known data sources, and the partition field of each table's policy.
      */
  datatype Candidates = Candidates(
    objects: seq<TableObject>, families: seq<Family>, knownSources: set<nat>, partition: Ref -> Option<Ref>)

  /** Judgements on text: current snapshots, evidence for a join, basis of a literal, and a table's resolved period. */
  datatype Judge = Judge(
    current: bool, supports: (Field, Field) -> bool, justifies: (string, Field) -> bool,
        period: TableObject -> Option<(string, string)>)

  // ----- look-ups -----

  function FamilyNamed(families: seq<Family>, ref: Ref): (r: Option<Family>)
    ensures r.Some? ==> r.value in families && r.value.ref == ref
  {
    if families == [] then None
    else if families[|families| - 1].ref == ref then Some(families[|families| - 1])
    else FamilyNamed(families[..|families| - 1], ref)
  }

  /** The last field with the reference, over all candidate tables. */
  function FieldNamed(objects: seq<TableObject>, ref: Ref): (r: Option<Field>)
    ensures r.Some? ==> r.value.ref == ref && exists o :: o in objects && r.value in o.fields
  {
    if objects == [] then None
    else
      var last := objects[|objects| - 1];
      var f := FindField(last.fields, ref);
      if f.Some? then
        FoundField(last.fields, ref);
        assert last in objects;
        f
      else FieldNamed(objects[..|objects| - 1], ref)
  }

  lemma {:induction false} FoundField(fields: seq<Field>, ref: Ref)
    ensures FindField(fields, ref).Some? ==>
            FindField(fields, ref).value in fields && FindField(fields, ref).value.ref == ref
  {
    if fields != [] && fields[|fields| - 1].ref != ref {
      FoundField(fields[..|fields| - 1], ref);
    }
  }

  /** A candidate field of a selected table. */
  function FieldIn(cand: Candidates, selected: set<Ref>, ref: Ref): Option<Field> {
    var f := FieldNamed(cand.objects, ref);
    if f.Some? && f.value.owner in selected then f else None
  }

  function FieldOr(cand: Candidates, ref: Ref): Field {
    var f := FieldNamed(cand.objects, ref);
    if f.Some? then f.value else Field(ref, 0, XSD_INTEGER, 0)
  }

  // ----- binding the parts of a draft -----

  /** Binds every element, or fails at the first that cannot be bound. */
  function Bound<A, B>(f: A -> Option<B>, xs: seq<A>): (r: Option<seq<B>>)
    ensures r.Some? ==> |r.value| == |xs| && forall i :: 0 <= i < |xs| ==> f(xs[i]) == Some(r.value[i])
    ensures r.None? ==> exists x :: x in xs && f(x).None?
  {
    if xs == [] then Some([])
    else
      var n := |xs| - 1;
      var before, last := Bound(f, xs[..n]), f(xs[n]);
      if before.None? || last.None? then None else Some(before.value + [last.value])
  }

  method BindAll<A, B>(f: A -> Option<B>, xs: seq<A>) returns (r: Option<seq<B>>)
    ensures r == Bound(f, xs)
  {
    var bound: seq<B> := [];
    for i := 0 to |xs|
      invariant |bound| == i && forall k :: 0 <= k < i ==> f(xs[k]) == Some(bound[k])
    {
      var next := f(xs[i]);
      if next.None? {
        assert Bound(f, xs).None?;
        return None;
      }
      bound := bound + [next.value];
    }
    assert forall x :: x in xs ==> f(x).Some?;
    assert Bound(f, xs).Some? && Bound(f, xs).value == bound;
    r := Some(bound);
  }

  function Members(families: seq<Family>): set<Ref> {
    set f, m | f in families && m in f.members :: m
  }

  function JoinIn(cand: Candidates, judge: Judge, selected: set<Ref>, j: DraftJoin): Option<JoinSpec> {
    var left, right := FieldIn(cand, selected, j.leftField), FieldIn(cand, selected, j.rightField);
    if left.None? || right.None? || left.value.owner != j.leftTable || right.value.owner != j.rightTable then None
    else if left.value.dtype.group != right.value.dtype.group || !judge.supports(left.value, right.value) then None
    else Some(JoinSpec(j.joinType, j.strategy, left.value, right.value))
  }

  /** Every value of every comparison has a basis in the request or in its field. */
  predicate ValuesJustified(cand: Candidates, judge: Judge, p: Pred<Ref>)
    decreases p, 1
  {
    match p
    case Leaf(ref, _, values) => forall v :: v in values ==> judge.justifies(v, FieldOr(cand, ref))
    case AllOf(parts) => AllValuesJustified(cand, judge, parts)
    case AnyOf(parts) => AllValuesJustified(cand, judge, parts)
    case Negate(part) => ValuesJustified(cand, judge, part)
  }

  predicate AllValuesJustified(cand: Candidates, judge: Judge, ps: seq<Pred<Ref>>)
    decreases ps, 0
  {
    ps == [] || (ValuesJustified(cand, judge, ps[0]) && AllValuesJustified(cand, judge, ps[1..]))
  }

  /** A filter over several tables must not have ON scope. */
  predicate OneTable(fields: seq<Field>) {
    forall f, g :: f in fields && g in fields ==> f.owner == g.owner
  }

  function FilterIn(cand: Candidates, judge: Judge, selected: set<Ref>, item: DraftFilter): Option<FilterSpec> {
    var pred := Rename(item.pred, (ref: Ref) => FieldOr(cand, ref));
    if (exists ref :: ref in Leaves(item.pred) && FieldIn(cand, selected, ref).None?)
        || !WellShaped(item.pred) then None
    else if !ValuesJustified(cand, judge, item.pred) || (item.scope == MatchScope && !OneTable(Leaves(pred))) then None
    else Some(FilterSpec(item.scope, pred))
  }

  function AggregationIn(cand: Candidates, selected: set<Ref>, a: DraftAggregation): Option<AggregationSpec> {
    if a.source.None? then Some(AggregationSpec(a.name, a.fn, None, a.distinct))
    else
      var f := FieldIn(cand, selected, a.source.value);
      if f.None? || ((a.fn == Sum || a.fn == Avg) && !f.value.dtype.group.NumericGroup?) then None
      else Some(AggregationSpec(a.name, a.fn, f, a.distinct))
  }

  function DecisionIn(cand: Candidates, judge: Judge, o: TableObject): Option<Decision> {
    var policy := cand.partition(o.ref);
    if policy.None? then None
    else
      var field, period := FindField(o.fields, policy.value), judge.period(o);
      if field.None? || period.None? then None else Some(Decision(o.ref, field.value, period.value.0, period.value.1))
  }

  function SelectedRefs(draft: Draft, families: seq<Family>): set<Ref> {
    SetOf(draft.tables) + Members(families)
  }

  function SelectedObjects(cand: Candidates, selected: set<Ref>): seq<TableObject> {
    SortBy((o: TableObject) => o.ref, Filter((o: TableObject) => o.ref in selected, cand.objects))
  }

  function FirstSource(objects: seq<TableObject>): nat {
    if objects == [] then 0 else objects[0].source
  }

  /** The program that a draft describes, or None when some part of it cannot be bound. */
  function Described(draft: Draft, cand: Candidates, judge: Judge): Option<Program> {
    var families := Bound((r: Ref) => FamilyNamed(cand.families, r), draft.families);
    if families.None? then None
    else
      var selected := SelectedRefs(draft, families.value);
      var objects := SelectedObjects(cand, selected);
      var requested := Bound((r: Ref) => FieldIn(cand, selected, r), draft.requested);
      var joins := Bound((j: DraftJoin) => JoinIn(cand, judge, selected, j), draft.joins);
      var filters := Bound((f: DraftFilter) => FilterIn(cand, judge, selected, f), draft.filters);
      var groupBy := Bound((r: Ref) => FieldIn(cand, selected, r), draft.groupBy);
      var aggregations := Bound((a: DraftAggregation) => AggregationIn(cand, selected, a), draft.aggregations);
      var decisions := Bound((o: TableObject) => DecisionIn(cand, judge, o), objects);
      if !(selected <= Refs(cand.objects)) || requested.None? || joins.None? || filters.None? || groupBy.None?
         || aggregations.None? || decisions.None? then None
      else Some(Program(objects, families.value, requested.value, joins.value, filters.value, groupBy.value,
                        aggregations.value, decisions.value, FirstSource(objects)))
  }

  // ----- acceptance -----

  /** The logical sources as the validator collects them. */
  function LogicalNodes(draft: Draft, families: seq<Family>): set<Key> {
    FamilyRefs(families) + set r | r in draft.tables && FamilyOf(families, r).None? :: r
  }

  function LinksBetween(p: Program): seq<Edge> {
    Filter((e: Edge) => e.left != e.right, EdgesOf(p))
  }

  predicate OneDataSource(cand: Candidates, p: Program) {
    p.objects != [] && SameDataSource(p.objects, p.source) && p.source in cand.knownSources
  }

  /** Exactly the drafts that validation turns into a program. */
  ghost predicate Accepted(draft: Draft, cand: Candidates, judge: Judge) {
    && !draft.blocked && judge.current
    && Described(draft, cand, judge).Some?
    && var p := Described(draft, cand, judge).value;
    && OneDataSource(cand, p) && JoinsAllowed(p) && Connected(LogicalNodes(draft, p.families), LinksBetween(p))
        && OutputsGrouped(p)
  }

  /** The parts of a described program. */
  lemma PartsOf(draft: Draft, cand: Candidates, judge: Judge)
    requires Described(draft, cand, judge).Some?
    ensures var p := Described(draft, cand, judge).value; var selected := SelectedRefs(draft, p.families);
            && Bound((r: Ref) => FamilyNamed(cand.families, r), draft.families) == Some(p.families)
            && selected <= Refs(cand.objects) && p.objects == SelectedObjects(cand, selected)
            && Bound((r: Ref) => FieldIn(cand, selected, r), draft.requested) == Some(p.requested)
            && Bound((j: DraftJoin) => JoinIn(cand, judge, selected, j), draft.joins) == Some(p.joins)
            && Bound((f: DraftFilter) => FilterIn(cand, judge, selected, f), draft.filters) == Some(p.filters)
            && Bound((r: Ref) => FieldIn(cand, selected, r), draft.groupBy) == Some(p.groupBy)
            && Bound((a: DraftAggregation) => AggregationIn(cand, selected, a), draft.aggregations)
                == Some(p.aggregations)
            && Bound((o: TableObject) => DecisionIn(cand, judge, o), p.objects) == Some(p.decisions)
  {
  }

  lemma JoinIsSelected(cand: Candidates, judge: Judge, selected: set<Ref>, j: DraftJoin)
    requires JoinIn(cand, judge, selected, j).Some?
    ensures var spec := JoinIn(cand, judge, selected, j).value;
            spec.left.owner in selected && spec.right.owner in selected
                && spec.left.dtype.group == spec.right.dtype.group
  {
  }

  lemma JoinsWithin(draft: Draft, cand: Candidates, judge: Judge)
    requires Described(draft, cand, judge).Some?
    ensures var p := Described(draft, cand, judge).value; EdgesWithin(LogicalNodes(draft, p.families), EdgesOf(p))
  {
    hide Described, FieldIn, JoinIn, FilterIn, AggregationIn, DecisionIn, SelectedRefs, LogicalNodes, KeyOf, Bound;
    PartsOf(draft, cand, judge);
    var p := Described(draft, cand, judge).value;
    var selected := SelectedRefs(draft, p.families);
    forall e | e in EdgesOf(p)
        ensures e.left in LogicalNodes(draft, p.families) && e.right in LogicalNodes(draft, p.families) {
      var i :| 0 <= i < |EdgesOf(p)| && EdgesOf(p)[i] == e;
      JoinIsSelected(cand, judge, selected, draft.joins[i]);
      SelectedIsNode(draft, p, p.joins[i].left.owner);
      SelectedIsNode(draft, p, p.joins[i].right.owner);
    }
  }

  lemma SelectedIsNode(draft: Draft, p: Program, table: Ref)
    requires table in SelectedRefs(draft, p.families)
    ensures KeyOf(p, table) in LogicalNodes(draft, p.families)
  {
    FamilyOfSound(p.families, table);
  }

  /** `validate`: the described program, for exactly the accepted drafts. */
  method Validate(draft: Draft, cand: Candidates, judge: Judge) returns (r: Option<Program>)
    ensures r == if Accepted(draft, cand, judge) then Described(draft, cand, judge) else None
  {
    if draft.blocked || !judge.current {
      return None;
    }
    var families := BindAll((r: Ref) => FamilyNamed(cand.families, r), draft.families);
    if families.None? {
      return None;
    }
    var selected := SelectedRefs(draft, families.value);
    if !(selected <= Refs(cand.objects)) {
      return None;
    }
    var objects := SelectedObjects(cand, selected);
    var requested := BindAll((r: Ref) => FieldIn(cand, selected, r), draft.requested);
    if requested.None? {
      return None;
    }
    var joins := BindAll((j: DraftJoin) => JoinIn(cand, judge, selected, j), draft.joins);
    if joins.None? {
      return None;
    }
    var filters := BindAll((f: DraftFilter) => FilterIn(cand, judge, selected, f), draft.filters);
    if filters.None? {
      return None;
    }
    var groupBy := BindAll((r: Ref) => FieldIn(cand, selected, r), draft.groupBy);
    var aggregations := BindAll((a: DraftAggregation) => AggregationIn(cand, selected, a), draft.aggregations);
    var decisions := BindAll((o: TableObject) => DecisionIn(cand, judge, o), objects);
    if groupBy.None? || aggregations.None? || decisions.None? {
      return None;
    }
    var p := Program(objects, families.value, requested.value, joins.value, filters.value, groupBy.value,
                     aggregations.value, decisions.value,
                     FirstSource(objects));
    assert Described(draft, cand, judge) == Some(p);
    if !OneDataSource(cand, p) {
      return None;
    }
    var allowed := CheckJoinSemantics(p);
    if !allowed || !OutputsGrouped(p) {
      return None;
    }
    JoinsWithin(draft, cand, judge);
    var connected := IsConnected(LogicalNodes(draft, families.value), LinksBetween(p));
    r := if connected then Some(p) else None;
  }

  // ----- what an accepted draft guarantees -----

  /** Shape rules that a draft satisfies before validation. */
  ghost predicate WellFormedDraft(draft: Draft) {
    && draft.requested != [] && NoDup(draft.families)
    && forall a :: a in draft.aggregations && a.source.None? ==> a.fn == Count && !a.distinct
  }

  ghost predicate Chosen(draft: Draft, cand: Candidates, f: Family) {
    f in cand.families && f.ref in draft.families
  }

  /** A catalog with unambiguous names; chosen families are disjoint and their members have the same columns. */
  ghost predicate SoundCandidates(draft: Draft, cand: Candidates) {
    && ValidCatalog(cand.objects)
    && (forall f :: f in cand.families ==> |f.members| >= 2 && NoDup(f.members) && f.ref !in Refs(cand.objects))
    && (forall f, g, m :: Chosen(draft, cand, f) && Chosen(draft, cand, g) && f.ref != g.ref && m in f.members ==>
          m !in g.members)
    && (forall f, o, q ::
          Chosen(draft, cand, f) && o in cand.objects && q in cand.objects && o.ref in f.members
          && q.ref in f.members ==>
          SameColumns(o, q))
  }

  lemma SelectedAre(cand: Candidates, selected: set<Ref>)
    requires ValidCatalog(cand.objects) && selected <= Refs(cand.objects)
    ensures forall o :: o in SelectedObjects(cand, selected) <==> o in cand.objects && o.ref in selected
    ensures Refs(SelectedObjects(cand, selected)) == selected
    ensures ValidCatalog(SelectedObjects(cand, selected))
  {
    hide ValidCatalog;
    SelectedObjectsAre(cand, selected);
    var objects := SelectedObjects(cand, selected);
    forall r | r in selected ensures r in Refs(objects) {
      var o :| o in cand.objects && o.ref == r;
      assert o in objects;
    }
    SmallerCatalog(cand.objects, objects);
  }

  lemma SelectedObjectsAre(cand: Candidates, selected: set<Ref>)
    requires ValidCatalog(cand.objects)
    ensures forall o :: o in SelectedObjects(cand, selected) <==> o in cand.objects && o.ref in selected
    ensures NoDup(SelectedObjects(cand, selected))
  {
    assert NoDup(cand.objects) by {
      forall i, k | 0 <= i < k < |cand.objects| ensures cand.objects[i] != cand.objects[k] {
        assert cand.objects[i].ref != cand.objects[k].ref;
      }
    }
    NoDupFilter((o: TableObject) => o.ref in selected, cand.objects);
    SameBagSameMembers(Filter((o: TableObject) => o.ref in selected, cand.objects), SelectedObjects(cand, selected));
  }

  lemma SmallerCatalog(objects: seq<TableObject>, some: seq<TableObject>)
    requires ValidCatalog(objects) && NoDup(some) && forall o :: o in some ==> o in objects
    ensures ValidCatalog(some)
  {
    forall i, k | 0 <= i < k < |some| ensures some[i].ref != some[k].ref {
      if some[i].ref == some[k].ref {
        assert some[i] in some && some[k] in some;
        SameTable(objects, some[i], some[k]);
      }
    }
  }

  lemma SameTable(objects: seq<TableObject>, o: TableObject, q: TableObject)
    requires UniqueObjects(objects) && o in objects && q in objects && o.ref == q.ref
    ensures o == q
  {
  }

  lemma FieldIsKnown(cand: Candidates, selected: set<Ref>, p: Program, ref: Ref)
    requires ValidCatalog(cand.objects) && selected <= Refs(cand.objects)
             && p.objects == SelectedObjects(cand, selected)
    requires FieldIn(cand, selected, ref).Some?
    ensures FieldIn(cand, selected, ref).value in FieldsOf(p) && FieldIn(cand, selected, ref).value.ref == ref
  {
    hide SelectedObjects, FieldNamed;
    SelectedAre(cand, selected);
    var f := FieldNamed(cand.objects, ref).value;
    var o :| o in cand.objects && f in o.fields;
    assert f.owner == o.ref;
  }

  lemma FamiliesAreValid(draft: Draft, cand: Candidates, p: Program, selected: set<Ref>)
    requires WellFormedDraft(draft) && SoundCandidates(draft, cand)
    requires Bound((r: Ref) => FamilyNamed(cand.families, r), draft.families) == Some(p.families)
    requires selected == SelectedRefs(draft, p.families) && selected <= Refs(cand.objects)
             && p.objects == SelectedObjects(cand, selected)
    ensures ValidFamilies(p)
  {
    hide SelectedObjects, SameColumns, ValidCatalog, FamilyNamed, Bound;
    SelectedAre(cand, selected);
    forall i | 0 <= i < |p.families|
        ensures p.families[i].ref == draft.families[i] && Chosen(draft, cand, p.families[i]) {
      assert FamilyNamed(cand.families, draft.families[i]) == Some(p.families[i]);
    }
    forall f, m | f in p.families && m in f.members ensures m in Refs(p.objects) {
      assert m in Members(p.families);
    }
    forall f | f in p.families ensures f.ref !in Refs(p.objects) {
      assert f in cand.families;
    }
  }

  lemma FieldsAreKnown(draft: Draft, cand: Candidates, judge: Judge)
    requires Described(draft, cand, judge).Some? && ValidCatalog(cand.objects)
    ensures FieldsKnown(Described(draft, cand, judge).value)
  {
    hide Described, Bound, FieldIn, JoinIn, FilterIn, AggregationIn, DecisionIn, SelectedObjects, ValidCatalog,
         SelectedRefs, Leaves, FieldsOf;
    PartsOf(draft, cand, judge);
    var p := Described(draft, cand, judge).value;
    var selected := SelectedRefs(draft, p.families);
    forall f | f in p.requested ensures f in FieldsOf(p) {
      var i :| 0 <= i < |p.requested| && p.requested[i] == f;
      FieldIsKnown(cand, selected, p, draft.requested[i]);
    }
    forall f | f in p.groupBy ensures f in FieldsOf(p) {
      var i :| 0 <= i < |p.groupBy| && p.groupBy[i] == f;
      FieldIsKnown(cand, selected, p, draft.groupBy[i]);
    }
    forall j | j in p.joins
        ensures j.left in FieldsOf(p) && j.right in FieldsOf(p) && j.left.dtype.group == j.right.dtype.group {
      var i :| 0 <= i < |p.joins| && p.joins[i] == j;
      JoinIsKnown(cand, judge, selected, p, draft.joins[i]);
    }
    forall item, f | item in p.filters && f in Leaves(item.pred) ensures f in FieldsOf(p) {
      var i :| 0 <= i < |p.filters| && p.filters[i] == item;
      FilterIsKnown(cand, judge, selected, p, draft.filters[i], f);
    }
    forall a | a in p.aggregations && a.source.Some? ensures a.source.value in FieldsOf(p) {
      var i :| 0 <= i < |p.aggregations| && p.aggregations[i] == a;
      AggregationIsKnown(cand, selected, p, draft.aggregations[i]);
    }
    forall d | d in p.decisions ensures d.partition in FieldsOf(p) && d.partition.owner == d.owner {
      var i :| 0 <= i < |p.decisions| && p.decisions[i] == d;
      DecisionIsKnown(cand, judge, selected, p, p.objects[i]);
    }
  }

  lemma JoinIsKnown(cand: Candidates, judge: Judge, selected: set<Ref>, p: Program, j: DraftJoin)
    requires ValidCatalog(cand.objects) && selected <= Refs(cand.objects)
             && p.objects == SelectedObjects(cand, selected)
    requires JoinIn(cand, judge, selected, j).Some?
    ensures var spec := JoinIn(cand, judge, selected, j).value;
            spec.left in FieldsOf(p) && spec.right in FieldsOf(p) && spec.left.dtype.group == spec.right.dtype.group
  {
    hide SelectedObjects, ValidCatalog, FieldIn, FieldsOf;
    FieldIsKnown(cand, selected, p, j.leftField);
    FieldIsKnown(cand, selected, p, j.rightField);
  }

  lemma FilterIsKnown(cand: Candidates, judge: Judge, selected: set<Ref>, p: Program, item: DraftFilter, f: Field)
    requires ValidCatalog(cand.objects) && selected <= Refs(cand.objects)
             && p.objects == SelectedObjects(cand, selected)
    requires FilterIn(cand, judge, selected, item).Some?
             && f in Leaves(FilterIn(cand, judge, selected, item).value.pred)
    ensures f in FieldsOf(p)
  {
    hide SelectedObjects, ValidCatalog, FieldsOf, Leaves, Rename, FieldNamed, WellShaped;
    var bind := (ref: Ref) => FieldOr(cand, ref);
    RenameLeaves(item.pred, bind);
    MapHas(bind, Leaves(item.pred), f);
    var ref :| ref in Leaves(item.pred) && bind(ref) == f;
    FieldIsKnown(cand, selected, p, ref);
  }

  lemma AggregationIsKnown(cand: Candidates, selected: set<Ref>, p: Program, a: DraftAggregation)
    requires ValidCatalog(cand.objects) && selected <= Refs(cand.objects)
             && p.objects == SelectedObjects(cand, selected)
    requires AggregationIn(cand, selected, a).Some?
    ensures var spec := AggregationIn(cand, selected, a).value; spec.source.Some? ==> spec.source.value in FieldsOf(p)
  {
    hide SelectedObjects, ValidCatalog, FieldIn, FieldsOf;
    if a.source.Some? {
      FieldIsKnown(cand, selected, p, a.source.value);
    }
  }

  lemma DecisionIsKnown(cand: Candidates, judge: Judge, selected: set<Ref>, p: Program, o: TableObject)
    requires ValidCatalog(cand.objects) && selected <= Refs(cand.objects)
             && p.objects == SelectedObjects(cand, selected)
    requires o in p.objects && DecisionIn(cand, judge, o).Some?
    ensures var d := DecisionIn(cand, judge, o).value; d.partition in FieldsOf(p) && d.partition.owner == d.owner
  {
    hide SelectedObjects;
    SelectedAre(cand, selected);
    FoundField(o.fields, cand.partition(o.ref).value);
  }

  lemma FiltersAreValid(draft: Draft, cand: Candidates, judge: Judge)
    requires Described(draft, cand, judge).Some?
    ensures ValidFilters(Described(draft, cand, judge).value)
  {
    hide Described, Bound, FilterIn, SelectedObjects, SelectedRefs, WellShaped, OneSource, KeyOf;
    PartsOf(draft, cand, judge);
    var p := Described(draft, cand, judge).value;
    forall item | item in p.filters ensures WellShaped(item.pred) && (item.scope == MatchScope ==> OneSource(p, item)) {
      var i :| 0 <= i < |p.filters| && p.filters[i] == item;
      FilterIsValid(cand, judge, SelectedRefs(draft, p.families), p, draft.filters[i]);
    }
  }

  lemma FilterIsValid(cand: Candidates, judge: Judge, selected: set<Ref>, p: Program, item: DraftFilter)
    requires FilterIn(cand, judge, selected, item).Some?
    ensures var spec := FilterIn(cand, judge, selected, item).value;
            WellShaped(spec.pred) && (spec.scope == MatchScope ==> OneSource(p, spec))
  {
    hide Leaves, Rename, WellShaped, KeyOf;
    RenameShape(item.pred, (ref: Ref) => FieldOr(cand, ref));
  }

  /** One decision a table, in table order. */
  lemma DecisionsAre(draft: Draft, cand: Candidates, judge: Judge)
    requires Described(draft, cand, judge).Some?
    ensures var p := Described(draft, cand, judge).value;
            |p.decisions| == |p.objects| && forall i ::
                0 <= i < |p.objects| ==> p.decisions[i].owner == p.objects[i].ref
  {
    hide Described, Bound, SelectedObjects, SelectedRefs, DecisionIn;
    PartsOf(draft, cand, judge);
    var p := Described(draft, cand, judge).value;
    forall i | 0 <= i < |p.decisions| ensures p.decisions[i].owner == p.objects[i].ref {
      DecisionOwner(cand, judge, p.objects[i]);
    }
  }

  lemma OutputsAreValid(draft: Draft, cand: Candidates, judge: Judge)
    requires WellFormedDraft(draft) && Described(draft, cand, judge).Some?
    ensures ValidOutputs(Described(draft, cand, judge).value)
  {
    hide Described, Bound, SelectedObjects, SelectedRefs, AggregationIn;
    PartsOf(draft, cand, judge);
    var p := Described(draft, cand, judge).value;
    forall a | a in p.aggregations && a.source.None? ensures a.fn == Count && !a.distinct {
      var i :| 0 <= i < |p.aggregations| && p.aggregations[i] == a;
      AggregationSays(cand, SelectedRefs(draft, p.families), draft.aggregations[i]);
    }
  }

  /** An accepted draft becomes a program on which both compilers may rely, with a period for every table. */
  lemma AcceptedIsValid(draft: Draft, cand: Candidates, judge: Judge)
    requires WellFormedDraft(draft) && SoundCandidates(draft, cand) && Accepted(draft, cand, judge)
    ensures var p := Described(draft, cand, judge).value; ValidProgram(p) && ValidOutputs(p)
    ensures var p := Described(draft, cand, judge).value;
            forall o :: o in p.objects ==> exists d :: d in p.decisions && d.owner == o.ref
  {
    hide Described, Bound, SelectedObjects, SelectedRefs, ValidFamilies, FieldsKnown, ValidFilters, JoinsAllowed,
         Connected,
         FieldIn, JoinIn, FilterIn, AggregationIn, DecisionIn, WellFormedDraft, SoundCandidates, ValidCatalog,
             ValidProgram, ValidOutputs;
    CatalogIsSound(draft, cand);
    var p := Described(draft, cand, judge).value;
    PartsOf(draft, cand, judge);
    SelectedAre(cand, SelectedRefs(draft, p.families));
    FamiliesAreValid(draft, cand, p, SelectedRefs(draft, p.families));
    FieldsAreKnown(draft, cand, judge);
    FiltersAreValid(draft, cand, judge);
    OutputsAreValid(draft, cand, judge);
    DecisionsAre(draft, cand, judge);
    PartsAreProgram(p);
  }

  lemma PartsAreProgram(p: Program)
    requires ValidCatalog(p.objects) && ValidFamilies(p) && FieldsKnown(p) && ValidFilters(p) && JoinsAllowed(p)
    requires SameDataSource(p.objects, p.source)
    requires |p.decisions| == |p.objects| && forall i ::
             0 <= i < |p.objects| ==> p.decisions[i].owner == p.objects[i].ref
    ensures ValidProgram(p) && forall o :: o in p.objects ==> exists d :: d in p.decisions && d.owner == o.ref
  {
    hide ValidFamilies, FieldsKnown, ValidFilters, JoinsAllowed;
    forall o | o in p.objects ensures exists d :: d in p.decisions && d.owner == o.ref {
      var i :| 0 <= i < |p.objects| && p.objects[i] == o;
      assert p.decisions[i] in p.decisions;
    }
  }

  lemma DecisionOwner(cand: Candidates, judge: Judge, o: TableObject)
    requires DecisionIn(cand, judge, o).Some?
    ensures DecisionIn(cand, judge, o).value.owner == o.ref
  {
  }

  lemma AggregationSays(cand: Candidates, selected: set<Ref>, a: DraftAggregation)
    requires AggregationIn(cand, selected, a).Some?
    ensures var spec := AggregationIn(cand, selected, a).value;
            spec.name == a.name && spec.fn == a.fn && spec.distinct == a.distinct
                && (spec.source.None? <==> a.source.None?)
  {
  }

  // ----- nothing lost in binding -----

  function FieldRefs(fields: seq<Field>): seq<Ref> {
    Map((f: Field) => f.ref, fields)
  }

  /** The program names exactly what the draft names. */
  ghost predicate Says(p: Program, draft: Draft) {
    && FieldRefs(p.requested) == draft.requested && FieldRefs(p.groupBy) == draft.groupBy
    && Map((f: Family) => f.ref, p.families) == draft.families && Refs(p.objects) == SelectedRefs(draft, p.families)
    && |p.joins| == |draft.joins| && (forall i :: 0 <= i < |p.joins| ==> SaysJoin(p.joins[i], draft.joins[i]))
    && |p.filters| == |draft.filters|
        && (forall i :: 0 <= i < |p.filters| ==> SaysFilter(p.filters[i], draft.filters[i]))
    && |p.aggregations| == |draft.aggregations|
    && (forall i :: 0 <= i < |p.aggregations| ==> SaysAggregation(p.aggregations[i], draft.aggregations[i]))
  }

  predicate SaysJoin(j: JoinSpec, d: DraftJoin) {
    d == DraftJoin(j.joinType, j.strategy, j.left.owner, j.left.ref, j.right.owner, j.right.ref)
  }

  predicate SaysFilter(item: FilterSpec, d: DraftFilter) {
    d == DraftFilter(item.scope, Rename(item.pred, (f: Field) => f.ref))
  }

  predicate SaysAggregation(a: AggregationSpec, d: DraftAggregation) {
    d == DraftAggregation(a.name, a.fn, if a.source.None? then None else Some(a.source.value.ref), a.distinct)
  }

  lemma {:induction false} RenameBack<L, M>(p: Pred<L>, f: L -> M, g: M -> L)
    requires forall l :: g(f(l)) == l
    ensures Rename(Rename(p, f), g) == p
    decreases p, 1
  {
    match p
    case Leaf(_, _, _) =>
    case AllOf(parts) => RenameAllBack(parts, f, g);
    case AnyOf(parts) => RenameAllBack(parts, f, g);
    case Negate(part) => RenameBack(part, f, g);
  }

  lemma {:induction false} RenameAllBack<L, M>(ps: seq<Pred<L>>, f: L -> M, g: M -> L)
    requires forall l :: g(f(l)) == l
    ensures RenameAll(RenameAll(ps, f), g) == ps
    decreases ps, 0
  {
    if ps != [] {
      RenameBack(ps[0], f, g);
      RenameAllBack(ps[1..], f, g);
      assert RenameAll(ps, f)[1..] == RenameAll(ps[1..], f);
    }
  }

  lemma FilterSays(cand: Candidates, judge: Judge, selected: set<Ref>, item: DraftFilter)
    requires FilterIn(cand, judge, selected, item).Some?
    ensures SaysFilter(FilterIn(cand, judge, selected, item).value, item)
  {
    RenameBack(item.pred, (ref: Ref) => FieldOr(cand, ref), (f: Field) => f.ref);
  }

  /** Binding loses nothing: a described program names exactly what its draft names. */
  lemma DescribedSaysDraft(draft: Draft, cand: Candidates, judge: Judge)
    requires ValidCatalog(cand.objects) && Described(draft, cand, judge).Some?
    ensures Says(Described(draft, cand, judge).value, draft)
  {
    hide Described, Bound, FilterIn, SelectedObjects, SelectedRefs, ValidCatalog, SaysFilter, FieldNamed;
    PartsOf(draft, cand, judge);
    var p := Described(draft, cand, judge).value;
    var selected := SelectedRefs(draft, p.families);
    SelectedAre(cand, selected);
    forall i | 0 <= i < |p.requested| ensures p.requested[i].ref == draft.requested[i] {
      assert FieldIn(cand, selected, draft.requested[i]) == Some(p.requested[i]);
    }
    forall i | 0 <= i < |p.groupBy| ensures p.groupBy[i].ref == draft.groupBy[i] {
      assert FieldIn(cand, selected, draft.groupBy[i]) == Some(p.groupBy[i]);
    }
    forall i | 0 <= i < |p.families| ensures p.families[i].ref == draft.families[i] {
      assert FamilyNamed(cand.families, draft.families[i]) == Some(p.families[i]);
    }
    forall i | 0 <= i < |p.joins| ensures SaysJoin(p.joins[i], draft.joins[i]) {
      assert JoinIn(cand, judge, selected, draft.joins[i]) == Some(p.joins[i]);
    }
    forall i | 0 <= i < |p.filters| ensures SaysFilter(p.filters[i], draft.filters[i]) {
      FilterSays(cand, judge, selected, draft.filters[i]);
    }
    forall i | 0 <= i < |p.aggregations| ensures SaysAggregation(p.aggregations[i], draft.aggregations[i]) {
      assert AggregationIn(cand, selected, draft.aggregations[i]) == Some(p.aggregations[i]);
    }
  }

  // ----- connected programs -----

  lemma NodesAreSources(draft: Draft, p: Program)
    requires Refs(p.objects) == SelectedRefs(draft, p.families)
    ensures LogicalNodes(draft, p.families) == SourcesOf(p)
  {
    hide FamilyOf;
    forall r | r in Members(p.families) ensures FamilyOf(p.families, r).Some? {
      FamilyOfSound(p.families, r);
    }
    forall r | r in Refs(p.objects) && FamilyOf(p.families, r).None? ensures r in LogicalNodes(draft, p.families) {
      assert r in draft.tables;
    }
    forall r | r in draft.tables && FamilyOf(p.families, r).None? ensures r in SourcesOf(p) {
      assert r in Refs(p.objects);
    }
  }

  /** An accepted program is connected over its logical sources. */
  lemma AcceptedIsConnected(draft: Draft, cand: Candidates, judge: Judge)
    requires ValidCatalog(cand.objects) && Accepted(draft, cand, judge)
    ensures var p := Described(draft, cand, judge).value;
            Connected(SourcesOf(p), EdgesOf(p)) && EdgesWithin(SourcesOf(p), EdgesOf(p))
  {
    hide Described, LogicalNodes, EdgesOf, SourcesOf, Says, JoinsAllowed, ValidCatalog, SelectedRefs;
    var p := Described(draft, cand, judge).value;
    DescribedSaysDraft(draft, cand, judge);
    assert Refs(p.objects) == SelectedRefs(draft, p.families) by { SaysTables(p, draft); }
    NodesAreSources(draft, p);
    JoinsWithin(draft, cand, judge);
    forall part: set<Key> | part <= SourcesOf(p) && part != {} && part != SourcesOf(p)
        ensures exists e :: e in EdgesOf(p) && Crosses(e, part) {
      var e :| e in LinksBetween(p) && Crosses(e, part);
    }
  }

  lemma SaysTables(p: Program, draft: Draft)
    requires Says(p, draft)
    ensures Refs(p.objects) == SelectedRefs(draft, p.families)
  {
  }

  /** When its joins are inner and form a tree, an accepted program has a legal join order from the adapter's root. */
  lemma AcceptedTreesAreJoinable(draft: Draft, cand: Candidates, judge: Judge)
    requires WellFormedDraft(draft) && SoundCandidates(draft, cand) && Accepted(draft, cand, judge)
    requires forall j :: j in draft.joins ==> j.joinType == Inner
    requires |draft.joins| == |LogicalNodes(draft, Described(draft, cand, judge).value.families)| - 1
    ensures Joinable(Described(draft, cand, judge).value)
  {
    hide Described, LogicalNodes, EdgesOf, SourcesOf, Says, JoinsAllowed, SoundCandidates, LegalOrder, OrderFrom,
         Connected, IsRoot, ValidProgram;
    var p := Described(draft, cand, judge).value;
    CatalogIsSound(draft, cand);
    AcceptedIsConnected(draft, cand, judge);
    DescribedSaysDraft(draft, cand, judge);
    AllInner(p, draft);
    AcceptedIsValid(draft, cand, judge);
    var root := InnerRoot(p);
    InnerTreesSucceed(EdgesOf(p), SourcesOf(p), root);
    OrderIsSoundAndComplete(EdgesOf(p), SourcesOf(p), root);
  }

  lemma CatalogIsSound(draft: Draft, cand: Candidates)
    requires SoundCandidates(draft, cand)
    ensures ValidCatalog(cand.objects)
  {
  }

  lemma AllInner(p: Program, draft: Draft)
    requires Says(p, draft) && forall j :: j in draft.joins ==> j.joinType == Inner
    ensures (forall e :: e in EdgesOf(p) ==> e.joinType == Inner) && |EdgesOf(p)| == |draft.joins|
    ensures LogicalNodes(draft, p.families) == SourcesOf(p) && DirectedRights(p) == {}
  {
    hide KeyOf;
    NodesAreSources(draft, p);
    forall e | e in EdgesOf(p) ensures e.joinType == Inner {
      var i :| 0 <= i < |p.joins| && EdgesOf(p)[i] == e;
      assert SaysJoin(p.joins[i], draft.joins[i]) && draft.joins[i] in draft.joins;
    }
  }

  /** Without directed joins the first requested field decides the root. */
  lemma InnerRoot(p: Program) returns (root: Key)
    requires ValidProgram(p) && p.requested != [] && DirectedRights(p) == {}
    ensures IsRoot(p, root) && root in SourcesOf(p)
  {
    hide ValidFamilies, ValidFilters, JoinsAllowed, SourcesOf, DirectedRights, KeyOf;
    FieldKeyIsSource(p, p.requested[0]);
    root := KeyOf(p, p.requested[0].owner);
    assert root in Roots(p);
  }
}
