/** What the validator accepts and what the program then says, stated on the draft and the candidates alone.
    For `validate` of ontology_core/inference_validation.py. */
module DraftReading {
  import opened SeqOps
  import opened Sql
  import opened RelationalPlan
  import opened JoinOrder
  import opened InferredProgram
  import opened AdapterPlan
  import opened DraftValidation
  import opened PlanReading

  // ----- references -----

  function Named(ref: Ref): Family -> bool {
    (f: Family) => f.ref == ref
  }

  /** All candidate fields, table by table. */
  function CandidateFields(objects: seq<TableObject>): seq<Field> {
    FlatMap((o: TableObject) => o.fields, objects)
  }

  /** The candidate field that a reference stands for. */
  ghost predicate FieldFor(cand: Candidates, ref: Ref, f: Field) {
    IsLast(CandidateFields(cand.objects), HasRef(ref), f)
  }

  ghost predicate FamilyFor(cand: Candidates, ref: Ref, f: Family) {
    IsLast(cand.families, Named(ref), f)
  }

  lemma {:induction false} FieldNamedIsLast(objects: seq<TableObject>, ref: Ref, f: Field)
    ensures FieldNamed(objects, ref) == Some(f) <==> IsLast(CandidateFields(objects), HasRef(ref), f)
  {
    hide IsLast, FindField;
    if objects == [] {
      NothingIsLast(HasRef(ref), f);
    } else {
      var before, last := objects[..|objects| - 1], objects[|objects| - 1];
      assert objects == before + [last];
      FieldNamedIsLast(before, ref, f);
      FlatMapConcat((o: TableObject) => o.fields, before, [last]);
      assert CandidateFields([last]) == last.fields + [];
      assert CandidateFields(objects) == CandidateFields(before) + last.fields;
      FindsLast(last.fields, ref, f);
      LastOfParts(CandidateFields(before), last.fields, HasRef(ref), f);
      if FindField(last.fields, ref).Some? {
        FindsLast(last.fields, ref, FindField(last.fields, ref).value);
      }
    }
  }

  lemma {:induction false} FamilyNamedIsLast(families: seq<Family>, ref: Ref, f: Family)
    ensures FamilyNamed(families, ref) == Some(f) <==> IsLast(families, Named(ref), f)
  {
    hide IsLast;
    if families == [] {
      NothingIsLast(Named(ref), f);
    } else {
      var before, last := families[..|families| - 1], families[|families| - 1];
      assert families == before + [last];
      FamilyNamedIsLast(before, ref, f);
      LastOfParts(before, [last], Named(ref), f);
      LastOfOne(last, Named(ref), f);
      assert forall g :: g in [last] <==> g == last;
      assert Named(ref)(last) <==> last.ref == ref;
    }
  }

  // ----- selected tables -----

  /** A table is selected when the draft names it or a family that holds it. */
  ghost predicate IsSelected(draft: Draft, cand: Candidates, t: Ref) {
    t in draft.tables || exists r, f :: r in draft.families && FamilyFor(cand, r, f) && t in f.members
  }

  lemma FamiliesAre(draft: Draft, cand: Candidates, families: seq<Family>)
    requires Bound((r: Ref) => FamilyNamed(cand.families, r), draft.families) == Some(families)
    ensures |families| == |draft.families|
    ensures forall i :: 0 <= i < |families| ==> FamilyFor(cand, draft.families[i], families[i])
    ensures forall t :: t in SelectedRefs(draft, families) <==> IsSelected(draft, cand, t)
  {
    hide FamilyFor, Bound, FamilyNamed;
    forall i | 0 <= i < |families| ensures FamilyFor(cand, draft.families[i], families[i]) {
      FamilyForIs(cand, draft.families[i], families[i]);
    }
    forall t | t in Members(families) ensures IsSelected(draft, cand, t) {
      var f :| f in families && t in f.members;
      var i :| 0 <= i < |families| && families[i] == f;
      assert draft.families[i] in draft.families;
    }
    forall t | IsSelected(draft, cand, t) && t !in draft.tables ensures t in Members(families) {
      var r, f :| r in draft.families && FamilyFor(cand, r, f) && t in f.members;
      var i :| 0 <= i < |draft.families| && draft.families[i] == r;
      FamilyForIs(cand, r, f);
      assert families[i] == f && f in families;
    }
  }

  lemma FamilyForIs(cand: Candidates, ref: Ref, f: Family)
    ensures FamilyFor(cand, ref, f) <==> FamilyNamed(cand.families, ref) == Some(f)
  {
    hide IsLast, FamilyNamed;
    FamilyNamedIsLast(cand.families, ref, f);
  }

  // ----- when the parts can be bound -----

  /** The field that a reference stands for, if it belongs to a selected table. */
  ghost predicate Usable(draft: Draft, cand: Candidates, ref: Ref, f: Field) {
    FieldFor(cand, ref, f) && IsSelected(draft, cand, f.owner)
  }

  ghost predicate JoinBinds(draft: Draft, cand: Candidates, judge: Judge, j: DraftJoin) {
    exists l, r ::
      && Usable(draft, cand, j.leftField, l) && Usable(draft, cand, j.rightField, r)
      && l.owner == j.leftTable && r.owner == j.rightTable && l.dtype.group == r.dtype.group && judge.supports(l, r)
  }

  /** The comparisons of a filter tree, left to right. */
  function Comparisons<L>(p: Pred<L>): seq<(L, CompareOp, seq<string>)>
    decreases p, 1
  {
    match p
    case Leaf(ref, op, values) => [(ref, op, values)]
    case AllOf(parts) => ComparisonsOf(parts)
    case AnyOf(parts) => ComparisonsOf(parts)
    case Negate(part) => Comparisons(part)
  }

  function ComparisonsOf<L>(ps: seq<Pred<L>>): seq<(L, CompareOp, seq<string>)>
    decreases ps, 0
  {
    if ps == [] then [] else Comparisons(ps[0]) + ComparisonsOf(ps[1..])
  }

  /** How many values a comparison takes. */
  predicate TakesValues(op: CompareOp, n: nat) {
    && (op == IS_NULL ==> n == 0) && (op == IN ==> n >= 1) && (op == BETWEEN ==> n == 2)
    && (op != IS_NULL && op != IN && op != BETWEEN ==> n == 1)
  }

  /** AND and OR have at least two parts. */
  predicate Branches<L>(p: Pred<L>)
    decreases p, 1
  {
    match p
    case Leaf(_, _, _) => true
    case AllOf(parts) => |parts| >= 2 && BranchesIn(parts)
    case AnyOf(parts) => |parts| >= 2 && BranchesIn(parts)
    case Negate(part) => Branches(part)
  }

  predicate BranchesIn<L>(ps: seq<Pred<L>>)
    decreases ps, 0
  {
    ps == [] || (Branches(ps[0]) && BranchesIn(ps[1..]))
  }

  /** A filter binds when AND and OR branch, every comparison has a usable field and as many values as it takes, each
      justified for the field, and a filter in ON scope speaks about one table. */
  ghost predicate FilterBinds(draft: Draft, cand: Candidates, judge: Judge, item: DraftFilter) {
    && Branches(item.pred)
    && (forall c :: c in Comparisons(item.pred) ==> ComparisonBinds(draft, cand, judge, c))
    && (item.scope == MatchScope ==>
          forall c, d, f, g ::
            c in Comparisons(item.pred) && d in Comparisons(item.pred) && FieldFor(cand, c.0, f)
            && FieldFor(cand, d.0, g) ==>
            f.owner == g.owner)
  }

  ghost predicate ComparisonBinds(draft: Draft, cand: Candidates, judge: Judge, c: (Ref, CompareOp, seq<string>)) {
    TakesValues(c.1, |c.2|) && exists f :: Usable(draft, cand, c.0, f) && forall v :: v in c.2 ==> judge.justifies(v, f)
  }

  ghost predicate AggregationBinds(draft: Draft, cand: Candidates, a: DraftAggregation) {
    a.source.Some? ==>
      exists f ::
        && Usable(draft, cand, a.source.value, f)
        && (a.fn == Sum || a.fn == Avg ==> f.dtype.group == NumericGroup)
  }

  /** The table has a time policy on one of its fields, and its period could be resolved. */
  ghost predicate PeriodBinds(cand: Candidates, judge: Judge, o: TableObject) {
    judge.period(o).Some? && exists f :: f in o.fields && cand.partition(o.ref) == Some(f.ref)
  }

  ghost predicate Bindable(draft: Draft, cand: Candidates, judge: Judge) {
    && (forall r :: r in draft.families ==> exists f :: FamilyFor(cand, r, f))
    && (forall t :: IsSelected(draft, cand, t) ==> exists o :: o in cand.objects && o.ref == t)
    && (forall r :: r in draft.requested || r in draft.groupBy ==> exists f :: Usable(draft, cand, r, f))
    && (forall j :: j in draft.joins ==> JoinBinds(draft, cand, judge, j))
    && (forall item :: item in draft.filters ==> FilterBinds(draft, cand, judge, item))
    && (forall a :: a in draft.aggregations ==> AggregationBinds(draft, cand, a))
    && (forall o :: o in cand.objects && IsSelected(draft, cand, o.ref) ==> PeriodBinds(cand, judge, o))
  }

  // Selected tables as the binding functions see them.
  ghost predicate SelectedBy(draft: Draft, cand: Candidates, selected: set<Ref>) {
    forall t :: t in selected <==> IsSelected(draft, cand, t)
  }

  lemma FieldForIs(cand: Candidates, ref: Ref, f: Field)
    ensures FieldFor(cand, ref, f) <==> FieldNamed(cand.objects, ref) == Some(f)
  {
    hide IsLast, FieldNamed;
    FieldNamedIsLast(cand.objects, ref, f);
  }

  lemma UsableIs(draft: Draft, cand: Candidates, selected: set<Ref>, ref: Ref, f: Field)
    requires SelectedBy(draft, cand, selected)
    ensures Usable(draft, cand, ref, f) <==> FieldIn(cand, selected, ref) == Some(f)
  {
    hide FieldFor, IsSelected, FieldNamed;
    FieldForIs(cand, ref, f);
  }

  lemma SomeUsable(draft: Draft, cand: Candidates, selected: set<Ref>, ref: Ref)
    requires SelectedBy(draft, cand, selected)
    ensures FieldIn(cand, selected, ref).Some? <==> exists f :: Usable(draft, cand, ref, f)
  {
    hide Usable, SelectedBy, FieldIn;
    forall f ensures Usable(draft, cand, ref, f) <==> FieldIn(cand, selected, ref) == Some(f) {
      UsableIs(draft, cand, selected, ref, f);
    }
    if FieldIn(cand, selected, ref).Some? {
      assert Usable(draft, cand, ref, FieldIn(cand, selected, ref).value);
    }
  }

  lemma JoinBindsExactly(draft: Draft, cand: Candidates, judge: Judge, selected: set<Ref>, j: DraftJoin)
    requires SelectedBy(draft, cand, selected)
    ensures JoinIn(cand, judge, selected, j).Some? <==> JoinBinds(draft, cand, judge, j)
  {
    hide Usable, SelectedBy, FieldIn;
    forall f ensures Usable(draft, cand, j.leftField, f) <==> FieldIn(cand, selected, j.leftField) == Some(f)
      ensures Usable(draft, cand, j.rightField, f) <==> FieldIn(cand, selected, j.rightField) == Some(f) {
      UsableIs(draft, cand, selected, j.leftField, f);
      UsableIs(draft, cand, selected, j.rightField, f);
    }
  }

  lemma AggregationBindsExactly(draft: Draft, cand: Candidates, selected: set<Ref>, a: DraftAggregation)
    requires SelectedBy(draft, cand, selected)
    ensures AggregationIn(cand, selected, a).Some? <==> AggregationBinds(draft, cand, a)
  {
    hide Usable, SelectedBy, FieldIn;
    if a.source.Some? {
      forall f ensures Usable(draft, cand, a.source.value, f) <==> FieldIn(cand, selected, a.source.value) == Some(f) {
        UsableIs(draft, cand, selected, a.source.value, f);
      }
    }
  }

  lemma PeriodBindsExactly(cand: Candidates, judge: Judge, o: TableObject)
    ensures DecisionIn(cand, judge, o).Some? <==> PeriodBinds(cand, judge, o)
  {
    hide FindField;
    var policy := cand.partition(o.ref);
    if policy.Some? {
      var found := FindField(o.fields, policy.value);
      FindsLast(o.fields, policy.value, if found.Some? then found.value else Field(0, 0, XSD_INTEGER, 0));
      if found.Some? {
        FoundField(o.fields, policy.value);
      }
    }
  }

  // ----- filters -----

  function FirstPart<L>(c: (L, CompareOp, seq<string>)): L {
    c.0
  }

  lemma {:induction false} LeavesAreCompared<L>(p: Pred<L>)
    ensures Leaves(p) == Map(FirstPart, Comparisons(p))
    decreases p, 1
  {
    match p
    case Leaf(_, _, _) =>
    case AllOf(parts) => AllLeavesAreCompared(parts);
    case AnyOf(parts) => AllLeavesAreCompared(parts);
    case Negate(part) => LeavesAreCompared(part);
  }

  lemma {:induction false} AllLeavesAreCompared<L>(ps: seq<Pred<L>>)
    ensures LeavesOf(ps) == Map(FirstPart, ComparisonsOf(ps))
    decreases ps, 0
  {
    if ps != [] {
      LeavesAreCompared(ps[0]);
      AllLeavesAreCompared(ps[1..]);
      MapConcat(FirstPart, Comparisons(ps[0]), ComparisonsOf(ps[1..]));
    }
  }

  lemma {:induction false} ShapeExactly<L(!new)>(p: Pred<L>)
    ensures WellShaped(p) <==> Branches(p) && forall c :: c in Comparisons(p) ==> TakesValues(c.1, |c.2|)
    decreases p, 1
  {
    match p
    case Leaf(ref, op, values) =>
      assert Comparisons(p)[0] == (ref, op, values);
    case AllOf(parts) => AllShapesExactly(parts);
    case AnyOf(parts) => AllShapesExactly(parts);
    case Negate(part) => ShapeExactly(part);
  }

  lemma {:induction false} AllShapesExactly<L(!new)>(ps: seq<Pred<L>>)
    ensures AllWellShaped(ps) <==> BranchesIn(ps) && forall c :: c in ComparisonsOf(ps) ==> TakesValues(c.1, |c.2|)
    decreases ps, 0
  {
    if ps != [] {
      ShapeExactly(ps[0]);
      AllShapesExactly(ps[1..]);
    }
  }

  lemma {:induction false} JustifiedExactly(cand: Candidates, judge: Judge, p: Pred<Ref>)
    ensures ValuesJustified(cand, judge, p) <==>
              forall c, v :: c in Comparisons(p) && v in c.2 ==> judge.justifies(v, FieldOr(cand, c.0))
    decreases p, 1
  {
    hide FieldOr;
    match p
    case Leaf(ref, op, values) =>
      assert Comparisons(p)[0] == (ref, op, values);
    case AllOf(parts) => AllJustifiedExactly(cand, judge, parts);
    case AnyOf(parts) => AllJustifiedExactly(cand, judge, parts);
    case Negate(part) => JustifiedExactly(cand, judge, part);
  }

  lemma {:induction false} AllJustifiedExactly(cand: Candidates, judge: Judge, ps: seq<Pred<Ref>>)
    ensures AllValuesJustified(cand, judge, ps) <==>
              forall c, v :: c in ComparisonsOf(ps) && v in c.2 ==> judge.justifies(v, FieldOr(cand, c.0))
    decreases ps, 0
  {
    hide FieldOr;
    if ps != [] {
      JustifiedExactly(cand, judge, ps[0]);
      AllJustifiedExactly(cand, judge, ps[1..]);
    }
  }

  lemma FilterBindsExactly(draft: Draft, cand: Candidates, judge: Judge, selected: set<Ref>, item: DraftFilter)
    requires SelectedBy(draft, cand, selected)
    ensures FilterIn(cand, judge, selected, item).Some? <==> FilterBinds(draft, cand, judge, item)
  {
    hide Usable, SelectedBy, FieldIn, FieldFor, FieldOr, Comparisons, Leaves, Branches, WellShaped, TakesValues,
         ValuesJustified, Rename, OneTable;
    var comparisons := Comparisons(item.pred);
    ShapeExactly(item.pred);
    JustifiedExactly(cand, judge, item.pred);
    LeavesAreCompared(item.pred);
    forall c | c in comparisons ensures c.0 in Leaves(item.pred) {
      MapHas(FirstPart, comparisons, c.0);
    }
    forall ref | ref in Leaves(item.pred) ensures exists c :: c in comparisons && c.0 == ref {
      MapHas(FirstPart, comparisons, ref);
    }
    forall ref ensures FieldIn(cand, selected, ref).Some? <==> exists f :: Usable(draft, cand, ref, f) {
      SomeUsable(draft, cand, selected, ref);
    }
    forall ref, f | Usable(draft, cand, ref, f) ensures FieldOr(cand, ref) == f && FieldFor(cand, ref, f) {
      UsableOr(draft, cand, ref, f);
    }
    forall ref, f | FieldFor(cand, ref, f) ensures FieldOr(cand, ref) == f {
      FieldForOr(cand, ref, f);
    }
    if forall ref :: ref in Leaves(item.pred) ==> FieldIn(cand, selected, ref).Some? {
      forall ref | ref in Leaves(item.pred) ensures FieldFor(cand, ref, FieldOr(cand, ref)) {
        var f :| Usable(draft, cand, ref, f);
      }
      OneTableExactly(cand, item.pred);
    }
  }

  lemma UsableOr(draft: Draft, cand: Candidates, ref: Ref, f: Field)
    requires Usable(draft, cand, ref, f)
    ensures FieldOr(cand, ref) == f && FieldFor(cand, ref, f)
  {
    hide FieldFor, IsSelected;
    FieldForIs(cand, ref, f);
  }

  lemma FieldForOr(cand: Candidates, ref: Ref, f: Field)
    requires FieldFor(cand, ref, f)
    ensures FieldOr(cand, ref) == f
  {
    hide FieldFor;
    FieldForIs(cand, ref, f);
  }

  lemma OneTableExactly(cand: Candidates, pred: Pred<Ref>)
    ensures OneTable(Leaves(Rename(pred, (ref: Ref) => FieldOr(cand, ref)))) <==>
              forall c, d :: c in Comparisons(pred) && d in Comparisons(pred) ==>
                FieldOr(cand, c.0).owner == FieldOr(cand, d.0).owner
  {
    hide FieldOr, Comparisons, Leaves, Rename;
    var bind := (ref: Ref) => FieldOr(cand, ref);
    RenameLeaves(pred, bind);
    LeavesAreCompared(pred);
    var comparisons := Comparisons(pred);
    forall f ensures f in Map(bind, Leaves(pred)) <==> exists c :: c in comparisons && FieldOr(cand, c.0) == f {
      MapHas(bind, Leaves(pred), f);
      forall ref ensures ref in Leaves(pred) <==> exists c :: c in comparisons && c.0 == ref {
        MapHas(FirstPart, comparisons, ref);
      }
    }
  }

  // ----- what the program says -----

  /** The time decision of a table: its own reference, the field of its policy, and the period as it was resolved. */
  ghost predicate DecisionFor(cand: Candidates, judge: Judge, o: TableObject, d: Decision) {
    && d.owner == o.ref && d.partition in o.fields && cand.partition(o.ref) == Some(d.partition.ref)
    && judge.period(o) == Some((d.start, d.end))
  }

  ghost predicate JoinFor(cand: Candidates, d: DraftJoin, j: JoinSpec) {
    SaysJoin(j, d) && FieldFor(cand, d.leftField, j.left) && FieldFor(cand, d.rightField, j.right)
  }

  ghost predicate FilterFor(cand: Candidates, d: DraftFilter, item: FilterSpec) {
    SaysFilter(item, d) && forall f :: f in Leaves(item.pred) ==> FieldFor(cand, f.ref, f)
  }

  ghost predicate AggregationFor(cand: Candidates, d: DraftAggregation, a: AggregationSpec) {
    SaysAggregation(a, d) && (a.source.Some? ==> FieldFor(cand, a.source.value.ref, a.source.value))
  }

  /** The selected candidate tables, ascending by reference. */
  ghost predicate ObjectsFor(draft: Draft, cand: Candidates, objects: seq<TableObject>) {
    && (forall i, k :: 0 <= i < k < |objects| ==> objects[i].ref < objects[k].ref)
    && forall o :: o in objects <==> o in cand.objects && IsSelected(draft, cand, o.ref)
  }

  /** The program puts the candidate's family, table or field for every reference of the draft, in its order. */
  ghost predicate Binds(draft: Draft, cand: Candidates, judge: Judge, p: Program) {
    && ObjectsFor(draft, cand, p.objects) && p.source == (if p.objects == [] then 0 else p.objects[0].source)
    && |p.families| == |draft.families| && |p.requested| == |draft.requested| && |p.groupBy| == |draft.groupBy|
    && |p.joins| == |draft.joins| && |p.filters| == |draft.filters| && |p.aggregations| == |draft.aggregations|
    && |p.decisions| == |p.objects|
    && (forall i :: 0 <= i < |p.families| ==> FamilyFor(cand, draft.families[i], p.families[i]))
    && (forall i :: 0 <= i < |p.requested| ==> FieldFor(cand, draft.requested[i], p.requested[i]))
    && (forall i :: 0 <= i < |p.groupBy| ==> FieldFor(cand, draft.groupBy[i], p.groupBy[i]))
    && (forall i :: 0 <= i < |p.joins| ==> JoinFor(cand, draft.joins[i], p.joins[i]))
    && (forall i :: 0 <= i < |p.filters| ==> FilterFor(cand, draft.filters[i], p.filters[i]))
    && (forall i :: 0 <= i < |p.aggregations| ==> AggregationFor(cand, draft.aggregations[i], p.aggregations[i]))
    && (forall i :: 0 <= i < |p.decisions| ==> DecisionFor(cand, judge, p.objects[i], p.decisions[i]))
  }

  /** A draft has at most one such program. */
  lemma BindsOnce(draft: Draft, cand: Candidates, judge: Judge, p: Program, q: Program)
    requires ValidCatalog(cand.objects) && Binds(draft, cand, judge, p) && Binds(draft, cand, judge, q)
    ensures p == q
  {
    hide FamilyFor, FieldFor, JoinFor, FilterFor, AggregationFor, DecisionFor, ValidCatalog, IsSelected;
    assert p.objects == q.objects by { AscendingIsUnique((o: TableObject) => o.ref, p.objects, q.objects); }
    assert p.families == q.families by {
      forall i | 0 <= i < |p.families| ensures p.families[i] == q.families[i] {
        FamilyForIs(cand, draft.families[i], p.families[i]);
        FamilyForIs(cand, draft.families[i], q.families[i]);
      }
    }
    assert p.requested == q.requested by { FieldsOnce(cand, draft.requested, p.requested, q.requested); }
    assert p.groupBy == q.groupBy by { FieldsOnce(cand, draft.groupBy, p.groupBy, q.groupBy); }
    assert p.joins == q.joins by {
      forall i | 0 <= i < |p.joins| ensures p.joins[i] == q.joins[i] {
        JoinOnce(cand, draft.joins[i], p.joins[i], q.joins[i]);
      }
    }
    assert p.filters == q.filters by {
      forall i | 0 <= i < |p.filters| ensures p.filters[i] == q.filters[i] {
        FilterOnce(cand, draft.filters[i], p.filters[i], q.filters[i]);
      }
    }
    assert p.aggregations == q.aggregations by {
      forall i | 0 <= i < |p.aggregations| ensures p.aggregations[i] == q.aggregations[i] {
        AggregationOnce(cand, draft.aggregations[i], p.aggregations[i], q.aggregations[i]);
      }
    }
    assert p.decisions == q.decisions by {
      forall i | 0 <= i < |p.decisions| ensures p.decisions[i] == q.decisions[i] {
        assert p.objects[i] in p.objects;
        DecisionOnce(cand, judge, p.objects[i], p.decisions[i], q.decisions[i]);
      }
    }
  }

  lemma FieldsOnce(cand: Candidates, refs: seq<Ref>, fields: seq<Field>, others: seq<Field>)
    requires |fields| == |refs| && forall i :: 0 <= i < |refs| ==> FieldFor(cand, refs[i], fields[i])
    requires |others| == |refs| && forall i :: 0 <= i < |refs| ==> FieldFor(cand, refs[i], others[i])
    ensures fields == others
  {
    hide FieldFor;
    forall i | 0 <= i < |refs| ensures fields[i] == others[i] {
      FieldOnce(cand, refs[i], fields[i], others[i]);
    }
  }

  lemma FieldOnce(cand: Candidates, ref: Ref, f: Field, g: Field)
    requires FieldFor(cand, ref, f) && FieldFor(cand, ref, g)
    ensures f == g
  {
    hide IsLast;
    LastIsOne(CandidateFields(cand.objects), HasRef(ref), f, g);
  }

  lemma JoinOnce(cand: Candidates, d: DraftJoin, j: JoinSpec, k: JoinSpec)
    requires JoinFor(cand, d, j) && JoinFor(cand, d, k)
    ensures j == k
  {
    hide FieldFor;
    FieldOnce(cand, d.leftField, j.left, k.left);
    FieldOnce(cand, d.rightField, j.right, k.right);
  }

  lemma AggregationOnce(cand: Candidates, d: DraftAggregation, a: AggregationSpec, b: AggregationSpec)
    requires AggregationFor(cand, d, a) && AggregationFor(cand, d, b)
    ensures a == b
  {
    hide FieldFor;
    if a.source.Some? {
      FieldOnce(cand, a.source.value.ref, a.source.value, b.source.value);
    }
  }

  lemma DecisionOnce(cand: Candidates, judge: Judge, o: TableObject, d: Decision, e: Decision)
    requires ValidCatalog(cand.objects) && o in cand.objects && DecisionFor(cand, judge, o, d)
             && DecisionFor(cand, judge, o, e)
    ensures d == e
  {
  }

  lemma FilterOnce(cand: Candidates, d: DraftFilter, a: FilterSpec, b: FilterSpec)
    requires FilterFor(cand, d, a) && FilterFor(cand, d, b)
    ensures a == b
  {
    FilterIsRenamed(cand, d, a);
    FilterIsRenamed(cand, d, b);
  }

  /** A bound filter is the drafted one with the candidate's field at every comparison. */
  lemma FilterIsRenamed(cand: Candidates, d: DraftFilter, item: FilterSpec)
    requires FilterFor(cand, d, item)
    ensures item == FilterSpec(d.scope, Rename(d.pred, (ref: Ref) => FieldOr(cand, ref)))
  {
    hide FieldFor, FieldOr, Leaves, Rename;
    forall f | f in Leaves(item.pred) ensures FieldOr(cand, f.ref) == f {
      FieldForOr(cand, f.ref, f);
    }
    LeavesBack(item.pred, (f: Field) => f.ref, (ref: Ref) => FieldOr(cand, ref));
  }

  lemma {:induction false} LeavesBack<L(!new), M>(p: Pred<L>, f: L -> M, g: M -> L)
    requires forall l :: l in Leaves(p) ==> g(f(l)) == l
    ensures Rename(Rename(p, f), g) == p
    decreases p, 1
  {
    match p
    case Leaf(l, _, _) => assert Leaves(p) == [l];
    case AllOf(parts) => AllLeavesBack(parts, f, g);
    case AnyOf(parts) => AllLeavesBack(parts, f, g);
    case Negate(part) => LeavesBack(part, f, g);
  }

  lemma {:induction false} AllLeavesBack<L(!new), M>(ps: seq<Pred<L>>, f: L -> M, g: M -> L)
    requires forall l :: l in LeavesOf(ps) ==> g(f(l)) == l
    ensures RenameAll(RenameAll(ps, f), g) == ps
    decreases ps, 0
  {
    if ps != [] {
      LeavesBack(ps[0], f, g);
      AllLeavesBack(ps[1..], f, g);
      assert RenameAll(ps, f)[1..] == RenameAll(ps[1..], f);
    }
  }

  // ----- binding, exactly -----

  lemma JoinIsFor(draft: Draft, cand: Candidates, judge: Judge, selected: set<Ref>, d: DraftJoin)
    requires SelectedBy(draft, cand, selected) && JoinIn(cand, judge, selected, d).Some?
    ensures JoinFor(cand, d, JoinIn(cand, judge, selected, d).value)
  {
    hide FieldFor, FieldNamed;
    var j := JoinIn(cand, judge, selected, d).value;
    FieldForIs(cand, d.leftField, j.left);
    FieldForIs(cand, d.rightField, j.right);
  }

  lemma FilterIsFor(cand: Candidates, judge: Judge, selected: set<Ref>, d: DraftFilter)
    requires FilterIn(cand, judge, selected, d).Some?
    ensures FilterFor(cand, d, FilterIn(cand, judge, selected, d).value)
  {
    hide FieldFor, FieldNamed, Leaves, Rename, SaysFilter, WellShaped, ValuesJustified, OneTable;
    var item := FilterIn(cand, judge, selected, d).value;
    var bind := (ref: Ref) => FieldOr(cand, ref);
    FilterSays(cand, judge, selected, d);
    RenameLeaves(d.pred, bind);
    forall f | f in Leaves(item.pred) ensures FieldFor(cand, f.ref, f) {
      MapHas(bind, Leaves(d.pred), f);
      var ref :| ref in Leaves(d.pred) && bind(ref) == f;
      assert FieldIn(cand, selected, ref).Some?;
      FieldForIs(cand, ref, f);
      assert f.ref == ref;
    }
  }

  lemma AggregationIsFor(cand: Candidates, selected: set<Ref>, d: DraftAggregation)
    requires AggregationIn(cand, selected, d).Some?
    ensures AggregationFor(cand, d, AggregationIn(cand, selected, d).value)
  {
    hide FieldFor, FieldNamed;
    var a := AggregationIn(cand, selected, d).value;
    if a.source.Some? {
      FieldForIs(cand, a.source.value.ref, a.source.value);
    }
  }

  lemma DecisionIsFor(cand: Candidates, judge: Judge, o: TableObject)
    requires DecisionIn(cand, judge, o).Some?
    ensures DecisionFor(cand, judge, o, DecisionIn(cand, judge, o).value)
  {
    hide FindField;
    FoundField(o.fields, cand.partition(o.ref).value);
  }

  lemma ObjectsAre(draft: Draft, cand: Candidates, selected: set<Ref>)
    requires ValidCatalog(cand.objects) && SelectedBy(draft, cand, selected)
    ensures ObjectsFor(draft, cand, SelectedObjects(cand, selected))
  {
    hide IsSelected;
    var objects := SelectedObjects(cand, selected);
    var key := (o: TableObject) => o.ref;
    SelectedObjectsAre(cand, selected);
    SortBySorts(key, Filter((o: TableObject) => o.ref in selected, cand.objects));
    forall i, k | 0 <= i < k < |objects| ensures objects[i].ref < objects[k].ref {
      assert key(objects[i]) <= key(objects[k]);
      assert objects[i] in objects && objects[k] in objects;
      if objects[i].ref == objects[k].ref {
        SameTable(cand.objects, objects[i], objects[k]);
        assert false;
      }
    }
  }

  /** A described program binds every reference of its draft. */
  lemma DescribedBinds(draft: Draft, cand: Candidates, judge: Judge)
    requires ValidCatalog(cand.objects) && Described(draft, cand, judge).Some?
    ensures Binds(draft, cand, judge, Described(draft, cand, judge).value)
  {
    hide Bound, FieldFor, FamilyFor, JoinFor, FilterFor, AggregationFor, DecisionFor, ObjectsFor, ValidCatalog,
         JoinIn, FilterIn, AggregationIn, DecisionIn, SelectedObjects, SelectedRefs, FieldNamed, IsSelected;
    var p := Described(draft, cand, judge).value;
    PartsOf(draft, cand, judge);
    hide Described;
    var selected := SelectedRefs(draft, p.families);
    FamiliesAre(draft, cand, p.families);
    assert SelectedBy(draft, cand, selected);
    ObjectsAre(draft, cand, selected);
    forall i | 0 <= i < |p.requested| ensures FieldFor(cand, draft.requested[i], p.requested[i]) {
      FieldForIs(cand, draft.requested[i], p.requested[i]);
    }
    forall i | 0 <= i < |p.groupBy| ensures FieldFor(cand, draft.groupBy[i], p.groupBy[i]) {
      FieldForIs(cand, draft.groupBy[i], p.groupBy[i]);
    }
    forall i | 0 <= i < |p.joins| ensures JoinFor(cand, draft.joins[i], p.joins[i]) {
      JoinIsFor(draft, cand, judge, selected, draft.joins[i]);
    }
    forall i | 0 <= i < |p.filters| ensures FilterFor(cand, draft.filters[i], p.filters[i]) {
      FilterIsFor(cand, judge, selected, draft.filters[i]);
    }
    forall i | 0 <= i < |p.aggregations| ensures AggregationFor(cand, draft.aggregations[i], p.aggregations[i]) {
      AggregationIsFor(cand, selected, draft.aggregations[i]);
    }
    forall i | 0 <= i < |p.decisions| ensures DecisionFor(cand, judge, p.objects[i], p.decisions[i]) {
      DecisionIsFor(cand, judge, p.objects[i]);
    }
  }

  /** The periods of a described program are those that were resolved, start first. */
  lemma PeriodsAreResolved(draft: Draft, cand: Candidates, judge: Judge)
    requires Described(draft, cand, judge).Some?
    ensures var p := Described(draft, cand, judge).value;
            |p.decisions| == |p.objects| && forall i :: 0 <= i < |p.objects| ==>
              && p.decisions[i].owner == p.objects[i].ref
              && cand.partition(p.objects[i].ref) == Some(p.decisions[i].partition.ref)
              && judge.period(p.objects[i]) == Some((p.decisions[i].start, p.decisions[i].end))
  {
    hide Described, Bound, SelectedObjects, SelectedRefs, DecisionIn;
    PartsOf(draft, cand, judge);
    var p := Described(draft, cand, judge).value;
    forall i | 0 <= i < |p.decisions| ensures DecisionFor(cand, judge, p.objects[i], p.decisions[i]) {
      DecisionIsFor(cand, judge, p.objects[i]);
    }
  }

  lemma BoundExactly<A(!new), B>(f: A -> Option<B>, xs: seq<A>)
    ensures Bound(f, xs).Some? <==> forall x :: x in xs ==> f(x).Some?
  {
    if Bound(f, xs).Some? {
      forall x | x in xs ensures f(x).Some? {
        var i :| 0 <= i < |xs| && xs[i] == x;
      }
    }
  }

  ghost predicate FamiliesBind(draft: Draft, cand: Candidates) {
    forall r :: r in draft.families ==> exists f :: FamilyFor(cand, r, f)
  }

  lemma FamiliesBindExactly(draft: Draft, cand: Candidates)
    ensures Bound((r: Ref) => FamilyNamed(cand.families, r), draft.families).Some? <==> FamiliesBind(draft, cand)
  {
    hide FamilyFor, Bound, FamilyNamed;
    BoundExactly((r: Ref) => FamilyNamed(cand.families, r), draft.families);
    forall r, f ensures FamilyFor(cand, r, f) <==> FamilyNamed(cand.families, r) == Some(f) {
      FamilyForIs(cand, r, f);
    }
    forall r | FamilyNamed(cand.families, r).Some? ensures exists f :: FamilyFor(cand, r, f) {
      assert FamilyFor(cand, r, FamilyNamed(cand.families, r).value);
    }
  }

  lemma FieldsBindExactly(draft: Draft, cand: Candidates, selected: set<Ref>, refs: seq<Ref>)
    requires SelectedBy(draft, cand, selected)
    ensures Bound((r: Ref) => FieldIn(cand, selected, r), refs).Some? <==>
              forall r :: r in refs ==> exists f :: Usable(draft, cand, r, f)
  {
    hide Usable, Bound, FieldIn, SelectedBy;
    BoundExactly((r: Ref) => FieldIn(cand, selected, r), refs);
    forall r ensures FieldIn(cand, selected, r).Some? <==> exists f :: Usable(draft, cand, r, f) {
      SomeUsable(draft, cand, selected, r);
    }
  }

  lemma JoinsBindExactly(draft: Draft, cand: Candidates, judge: Judge, selected: set<Ref>)
    requires SelectedBy(draft, cand, selected)
    ensures Bound((j: DraftJoin) => JoinIn(cand, judge, selected, j), draft.joins).Some? <==>
              forall j :: j in draft.joins ==> JoinBinds(draft, cand, judge, j)
  {
    hide JoinBinds, Bound, JoinIn, SelectedBy;
    BoundExactly((j: DraftJoin) => JoinIn(cand, judge, selected, j), draft.joins);
    forall j ensures JoinIn(cand, judge, selected, j).Some? <==> JoinBinds(draft, cand, judge, j) {
      JoinBindsExactly(draft, cand, judge, selected, j);
    }
  }

  lemma FiltersBindExactly(draft: Draft, cand: Candidates, judge: Judge, selected: set<Ref>)
    requires SelectedBy(draft, cand, selected)
    ensures Bound((f: DraftFilter) => FilterIn(cand, judge, selected, f), draft.filters).Some? <==>
              forall item :: item in draft.filters ==> FilterBinds(draft, cand, judge, item)
  {
    hide FilterBinds, Bound, FilterIn, SelectedBy;
    BoundExactly((f: DraftFilter) => FilterIn(cand, judge, selected, f), draft.filters);
    forall item ensures FilterIn(cand, judge, selected, item).Some? <==> FilterBinds(draft, cand, judge, item) {
      FilterBindsExactly(draft, cand, judge, selected, item);
    }
  }

  lemma AggregationsBindExactly(draft: Draft, cand: Candidates, selected: set<Ref>)
    requires SelectedBy(draft, cand, selected)
    ensures Bound((a: DraftAggregation) => AggregationIn(cand, selected, a), draft.aggregations).Some? <==>
              forall a :: a in draft.aggregations ==> AggregationBinds(draft, cand, a)
  {
    hide AggregationBinds, Bound, AggregationIn, SelectedBy;
    BoundExactly((a: DraftAggregation) => AggregationIn(cand, selected, a), draft.aggregations);
    forall a ensures AggregationIn(cand, selected, a).Some? <==> AggregationBinds(draft, cand, a) {
      AggregationBindsExactly(draft, cand, selected, a);
    }
  }

  lemma PeriodsBindExactly(draft: Draft, cand: Candidates, judge: Judge, selected: set<Ref>)
    requires ValidCatalog(cand.objects) && SelectedBy(draft, cand, selected)
    ensures Bound((o: TableObject) => DecisionIn(cand, judge, o), SelectedObjects(cand, selected)).Some? <==>
              forall o :: o in cand.objects && IsSelected(draft, cand, o.ref) ==> PeriodBinds(cand, judge, o)
  {
    hide PeriodBinds, Bound, DecisionIn, IsSelected, SelectedObjects, ValidCatalog;
    BoundExactly((o: TableObject) => DecisionIn(cand, judge, o), SelectedObjects(cand, selected));
    SelectedObjectsAre(cand, selected);
    forall o ensures DecisionIn(cand, judge, o).Some? <==> PeriodBinds(cand, judge, o) {
      PeriodBindsExactly(cand, judge, o);
    }
  }

  lemma TablesBindExactly(draft: Draft, cand: Candidates, selected: set<Ref>)
    requires SelectedBy(draft, cand, selected)
    ensures selected <= Refs(cand.objects) <==>
              forall t :: IsSelected(draft, cand, t) ==> exists o :: o in cand.objects && o.ref == t
  {
    hide IsSelected;
    forall t ensures t in Refs(cand.objects) <==> exists o :: o in cand.objects && o.ref == t {
    }
  }

  // All parts of a draft are bound.
  ghost predicate AllBound(draft: Draft, cand: Candidates, judge: Judge, selected: set<Ref>) {
    && selected <= Refs(cand.objects)
    && Bound((r: Ref) => FieldIn(cand, selected, r), draft.requested).Some?
    && Bound((j: DraftJoin) => JoinIn(cand, judge, selected, j), draft.joins).Some?
    && Bound((f: DraftFilter) => FilterIn(cand, judge, selected, f), draft.filters).Some?
    && Bound((r: Ref) => FieldIn(cand, selected, r), draft.groupBy).Some?
    && Bound((a: DraftAggregation) => AggregationIn(cand, selected, a), draft.aggregations).Some?
    && Bound((o: TableObject) => DecisionIn(cand, judge, o), SelectedObjects(cand, selected)).Some?
  }

  lemma DescribedWhen(draft: Draft, cand: Candidates, judge: Judge)
    ensures var families := Bound((r: Ref) => FamilyNamed(cand.families, r), draft.families);
            Described(draft, cand, judge).Some? <==>
              families.Some? && AllBound(draft, cand, judge, SelectedRefs(draft, families.value))
  {
  }

  lemma AllBoundExactly(draft: Draft, cand: Candidates, judge: Judge, selected: set<Ref>)
    requires ValidCatalog(cand.objects) && SelectedBy(draft, cand, selected) && FamiliesBind(draft, cand)
    ensures AllBound(draft, cand, judge, selected) <==> Bindable(draft, cand, judge)
  {
    hide SelectedBy, ValidCatalog, Bound, IsSelected, Usable, JoinBinds, FilterBinds, AggregationBinds, PeriodBinds,
         FieldIn, JoinIn, FilterIn, AggregationIn, DecisionIn, SelectedObjects, Refs, FamilyFor;
    TablesBindExactly(draft, cand, selected);
    FieldsBindExactly(draft, cand, selected, draft.requested);
    FieldsBindExactly(draft, cand, selected, draft.groupBy);
    JoinsBindExactly(draft, cand, judge, selected);
    FiltersBindExactly(draft, cand, judge, selected);
    AggregationsBindExactly(draft, cand, selected);
    PeriodsBindExactly(draft, cand, judge, selected);
  }

  /** A draft describes a program exactly when every part of it binds. */
  lemma DescribedWhenBindable(draft: Draft, cand: Candidates, judge: Judge)
    requires ValidCatalog(cand.objects)
    ensures Described(draft, cand, judge).Some? <==> Bindable(draft, cand, judge)
  {
    hide Described, ValidCatalog, Bound, AllBound, IsSelected, Bindable, FamilyFor;
    var families := Bound((r: Ref) => FamilyNamed(cand.families, r), draft.families);
    DescribedWhen(draft, cand, judge);
    FamiliesBindExactly(draft, cand);
    if families.Some? {
      FamiliesAre(draft, cand, families.value);
      assert SelectedBy(draft, cand, SelectedRefs(draft, families.value));
      AllBoundExactly(draft, cand, judge, SelectedRefs(draft, families.value));
    } else {
      NotBindable(draft, cand, judge);
    }
  }

  lemma NotBindable(draft: Draft, cand: Candidates, judge: Judge)
    requires !FamiliesBind(draft, cand)
    ensures !Bindable(draft, cand, judge)
  {
    hide FamilyFor, IsSelected, Usable, JoinBinds, FilterBinds, AggregationBinds, PeriodBinds;
  }

  /** The described program is the one that binds the references of the draft, and there is one when all parts bind. */
  lemma DescribedExactly(draft: Draft, cand: Candidates, judge: Judge, p: Program)
    requires ValidCatalog(cand.objects)
    ensures Described(draft, cand, judge) == Some(p) <==>
              Bindable(draft, cand, judge) && Binds(draft, cand, judge, p)
  {
    hide Described, ValidCatalog, Bindable, Binds;
    DescribedWhenBindable(draft, cand, judge);
    if Described(draft, cand, judge).Some? {
      var q := Described(draft, cand, judge).value;
      DescribedBinds(draft, cand, judge);
      if Binds(draft, cand, judge, p) {
        BindsOnce(draft, cand, judge, p, q);
      }
    }
  }

  /** What the program must satisfy as a whole: one known data source, restricted joins, no separate part, and grouped
      output fields. */
  ghost predicate Coherent(cand: Candidates, p: Program) {
    && p.objects != [] && p.source in cand.knownSources && (forall o :: o in p.objects ==> o.source == p.source)
    && JoinsAllowed(p) && Connected(SourcesOf(p), EdgesOf(p))
    && (p.aggregations != [] ==> forall f :: f in p.requested ==> f in p.groupBy)
  }

  /** A draft is accepted exactly when it is not blocked, the snapshots are current, all its parts bind, and the program
      that binds them is coherent. */
  lemma AcceptedExactly(draft: Draft, cand: Candidates, judge: Judge)
    requires ValidCatalog(cand.objects)
    ensures Accepted(draft, cand, judge) <==>
              && !draft.blocked && judge.current && Bindable(draft, cand, judge)
              && exists p :: Binds(draft, cand, judge, p) && Coherent(cand, p)
  {
    hide Described, ValidCatalog, Bindable, Binds, Coherent;
    forall p ensures Described(draft, cand, judge) == Some(p) <==>
                       Bindable(draft, cand, judge) && Binds(draft, cand, judge, p) {
      DescribedExactly(draft, cand, judge, p);
    }
    DescribedWhenBindable(draft, cand, judge);
    if Described(draft, cand, judge).Some? {
      CoherentExactly(draft, cand, judge);
    }
  }

  lemma CoherentExactly(draft: Draft, cand: Candidates, judge: Judge)
    requires ValidCatalog(cand.objects) && Described(draft, cand, judge).Some?
    ensures var p := Described(draft, cand, judge).value;
            Coherent(cand, p) <==>
              && OneDataSource(cand, p) && JoinsAllowed(p)
              && Connected(LogicalNodes(draft, p.families), LinksBetween(p)) && OutputsGrouped(p)
  {
    hide Described, ValidCatalog, JoinsAllowed, Connected, LogicalNodes, SourcesOf, EdgesOf, LinksBetween, Says;
    var p := Described(draft, cand, judge).value;
    DescribedSaysDraft(draft, cand, judge);
    SaysTables(p, draft);
    NodesAreSources(draft, p);
    LinksConnect(p);
  }

  lemma LinksConnect(p: Program)
    ensures Connected(SourcesOf(p), LinksBetween(p)) <==> Connected(SourcesOf(p), EdgesOf(p))
  {
    hide SourcesOf, EdgesOf;
    forall e, part | e in EdgesOf(p) && Crosses(e, part) ensures e in LinksBetween(p) {
    }
  }
}
