/** Validated candidate programs: the common input of both compilers.
    Models ontology_core/inference_models.py, what ontology_core/inference_validation.py guarantees of it,
    and ontology_core/inference_join_semantics.py. */
module InferredProgram {
  import opened SeqOps
  import opened Sql
  import opened RelationalPlan
  import opened JoinOrder

  datatype Family = Family(ref: Ref, members: seq<Ref>)
  datatype JoinSpec = JoinSpec(joinType: JoinType, strategy: AntiStrategy, left: Field, right: Field)
  datatype FilterScope = MatchScope | WhereScope
  datatype FilterSpec = FilterSpec(scope: FilterScope, pred: Pred<Field>)
  datatype Decision = Decision(owner: Ref, partition: Field, start: string, end: string)
  datatype AggregationSpec = AggregationSpec(name: Name, fn: AggFunction, source: Option<Field>, distinct: bool)

  datatype Program = Program(
    objects: seq<TableObject>, families: seq<Family>, requested: seq<Field>, joins: seq<JoinSpec>,
    filters: seq<FilterSpec>, groupBy: seq<Field>, aggregations: seq<AggregationSpec>, decisions: seq<Decision>,
        source: nat)

  // ----- logical sources -----

  /** The family a member belongs to; a later family overrides an earlier one. */
  function FamilyOf(families: seq<Family>, member: Ref): Option<Ref> {
    if families == [] then None
    else if member in families[|families| - 1].members then Some(families[|families| - 1].ref)
    else FamilyOf(families[..|families| - 1], member)
  }

  /** A table stands for itself or for its family. */
  function KeyOf(p: Program, table: Ref): Key {
    var family := FamilyOf(p.families, table);
    if family.Some? then family.value else table
  }

  function Refs(objects: seq<TableObject>): set<Ref> {
    set o | o in objects :: o.ref
  }

  function FamilyRefs(families: seq<Family>): set<Key> {
    set f | f in families :: f.ref
  }

  function SourcesOf(p: Program): set<Key> {
    FamilyRefs(p.families) + (set o | o in p.objects && FamilyOf(p.families, o.ref).None? :: o.ref)
  }

  function EdgeOf(p: Program, j: JoinSpec): Edge {
    Edge(j.joinType, KeyOf(p, j.left.owner), KeyOf(p, j.right.owner))
  }

  function EdgesOf(p: Program): seq<Edge> {
    Map((j: JoinSpec) => EdgeOf(p, j), p.joins)
  }

  function DirectedRights(p: Program): set<Key> {
    Directed(EdgesOf(p))
  }

  function AntiRights(p: Program): set<Key> {
    set j | j in p.joins && j.joinType == Anti :: KeyOf(p, j.right.owner)
  }

  function FilterSources(p: Program, item: FilterSpec): set<Key> {
    set f | f in Leaves(item.pred) :: KeyOf(p, f.owner)
  }

  /** A decision is an equality or a closed interval on the partition field. */
  function TemporalPred(d: Decision): Pred<Field> {
    if d.start == d.end then Leaf(d.partition, EQ, [d.start]) else Leaf(d.partition, BETWEEN, [d.start, d.end])
  }

  // ----- directional restrictions on joins -----

  predicate TakesPart(p: Program, k: nat, source: Key)
    requires k < |p.joins|
  {
    KeyOf(p, p.joins[k].left.owner) == source || KeyOf(p, p.joins[k].right.owner) == source
  }

  /** The right side of a LEFT or anti join is another source and has no second such join; an excluded
      source supplies no output and takes part in no other join. */
  ghost predicate JoinAllowed(p: Program, i: nat)
    requires i < |p.joins|
  {
    var j := p.joins[i];
    var right := KeyOf(p, j.right.owner);
    j.joinType == Inner ||
    (&& KeyOf(p, j.left.owner) != right
     && (forall k :: 0 <= k < i && p.joins[k].joinType != Inner ==> KeyOf(p, p.joins[k].right.owner) != right)
     && (j.joinType == Anti ==>
           && (forall f :: f in p.requested ==> KeyOf(p, f.owner) != right)
           && (forall k :: 0 <= k < |p.joins| && k != i ==> !TakesPart(p, k, right))))
  }

  ghost predicate JoinsAllowed(p: Program) {
    forall i :: 0 <= i < |p.joins| ==> JoinAllowed(p, i)
  }

  /** `join_semantics_error`, with true for None. */
  method CheckJoinSemantics(p: Program) returns (ok: bool)
    ensures ok <==> JoinsAllowed(p)
  {
    var rights: set<Key> := {};
    for i := 0 to |p.joins|
      invariant forall k :: 0 <= k < i ==> JoinAllowed(p, k)
      invariant rights == set k | 0 <= k < i && p.joins[k].joinType != Inner :: KeyOf(p, p.joins[k].right.owner)
    {
      var j := p.joins[i];
      var left, right := KeyOf(p, j.left.owner), KeyOf(p, j.right.owner);
      if j.joinType != Inner {
        if left == right || right in rights {
          assert !JoinAllowed(p, i);
          return false;
        }
        rights := rights + {right};
        if j.joinType == Anti {
          if exists f :: f in p.requested && KeyOf(p, f.owner) == right {
            assert !JoinAllowed(p, i);
            return false;
          }
          if exists k :: 0 <= k < |p.joins| && k != i && TakesPart(p, k, right) {
            assert !JoinAllowed(p, i);
            return false;
          }
        }
      }
      assert JoinAllowed(p, i);
    }
    ok := true;
  }

  // ----- what a validated program satisfies -----

  ghost function FieldsOf(p: Program): set<Field> {
    set o, f | o in p.objects && f in o.fields :: f
  }

  /** Tables and fields are named once and belong where they are listed. */
  ghost predicate ValidCatalog(objects: seq<TableObject>) {
    && UniqueObjects(objects)
    && (forall o, f :: o in objects && f in o.fields ==> f.owner == o.ref)
    && (forall o, q, f, g :: o in objects && q in objects && f in o.fields && g in q.fields && f.ref == g.ref ==>
          f == g)
    && (forall o, f, g :: o in objects && f in o.fields && g in o.fields && f.physical == g.physical ==> f == g)
    && (forall o :: o in objects ==> NoDup(o.fields))
  }

  ghost predicate SameColumns(o: TableObject, q: TableObject) {
    forall a :: a in o.fields ==> exists b :: b in q.fields && b.physical == a.physical && b.dtype == a.dtype
  }

  /** Families are disjoint sets of known tables with the same columns. */
  ghost predicate ValidFamilies(p: Program) {
    && (forall i, k :: 0 <= i < k < |p.families| ==> p.families[i].ref != p.families[k].ref)
    && (forall i, k, m :: 0 <= i < k < |p.families| && m in p.families[i].members ==> m !in p.families[k].members)
    && (forall f :: f in p.families ==>
          && |f.members| >= 2 && NoDup(f.members) && f.ref !in Refs(p.objects)
          && (forall m :: m in f.members ==> m in Refs(p.objects)))
    && (forall f, o, q ::
          f in p.families && o in p.objects && q in p.objects && o.ref in f.members && q.ref in f.members ==>
          SameColumns(o, q))
  }

  ghost predicate FieldsKnown(p: Program) {
    var known := FieldsOf(p);
    && (forall f :: f in p.requested ==> f in known)
    && (forall f :: f in p.groupBy ==> f in known)
    && (forall j :: j in p.joins ==> j.left in known && j.right in known && j.left.dtype.group == j.right.dtype.group)
    && (forall item, f :: item in p.filters && f in Leaves(item.pred) ==> f in known)
    && (forall a :: a in p.aggregations && a.source.Some? ==> a.source.value in known)
    && (forall d :: d in p.decisions ==> d.partition in known && d.partition.owner == d.owner)
  }

  /** Filters are well shaped, and a filter in ON scope speaks about one source. */
  ghost predicate ValidFilters(p: Program) {
    forall item :: item in p.filters ==>
      WellShaped(item.pred) && (item.scope == MatchScope ==> OneSource(p, item))
  }

  ghost predicate OneSource(p: Program, item: FilterSpec) {
    forall f, g :: f in Leaves(item.pred) && g in Leaves(item.pred) ==> KeyOf(p, f.owner) == KeyOf(p, g.owner)
  }

  lemma OneSourceIsSingleton(p: Program, item: FilterSpec)
    requires WellShaped(item.pred)
    ensures Leaves(item.pred) != []
    ensures OneSource(p, item) <==> FilterSources(p, item) == {KeyOf(p, Leaves(item.pred)[0].owner)}
    ensures OneSource(p, item) <==> |FilterSources(p, item)| == 1
  {
    WellShapedHasLeaf(item.pred);
    var first := Leaves(item.pred)[0];
    var s := KeyOf(p, first.owner);
    assert first in Leaves(item.pred) && s in FilterSources(p, item);
    if OneSource(p, item) {
      assert FilterSources(p, item) == {s};
    } else {
      var f, g :| f in Leaves(item.pred) && g in Leaves(item.pred) && KeyOf(p, f.owner) != KeyOf(p, g.owner);
      assert KeyOf(p, f.owner) in FilterSources(p, item) && KeyOf(p, g.owner) in FilterSources(p, item);
      if |FilterSources(p, item)| == 1 {
        OnlyMember(FilterSources(p, item), KeyOf(p, f.owner), KeyOf(p, g.owner));
        assert false;
      }
    }
  }

  ghost predicate ValidProgram(p: Program) {
    && ValidCatalog(p.objects) && ValidFamilies(p) && FieldsKnown(p) && ValidFilters(p) && JoinsAllowed(p)
    && (forall i, k :: 0 <= i < k < |p.decisions| ==> p.decisions[i].owner != p.decisions[k].owner)
    && SameDataSource(p.objects, p.source)
  }

  // ----- look-ups on valid programs -----

  lemma {:induction false} FamilyOfMember(families: seq<Family>, k: nat, m: Ref)
    requires k < |families| && m in families[k].members
    requires forall i :: 0 <= i < |families| && i != k ==> m !in families[i].members
    ensures FamilyOf(families, m) == Some(families[k].ref)
    decreases |families|
  {
    if k < |families| - 1 {
      FamilyOfMember(families[..|families| - 1], k, m);
    }
  }

  lemma {:induction false} FamilyOfSound(families: seq<Family>, m: Ref)
    ensures FamilyOf(families, m).Some? ==>
            exists f :: f in families && m in f.members && f.ref == FamilyOf(families, m).value
    ensures FamilyOf(families, m).None? ==> forall f :: f in families ==> m !in f.members
  {
    if families != [] {
      var before, last := families[..|families| - 1], families[|families| - 1];
      assert families == before + [last];
      FamilyOfSound(before, m);
    }
  }

  lemma MemberKey(p: Program, f: Family, m: Ref)
    requires ValidFamilies(p) && f in p.families && m in f.members
    ensures FamilyOf(p.families, m) == Some(f.ref) && KeyOf(p, m) == f.ref
  {
    var k :| 0 <= k < |p.families| && p.families[k] == f;
    FamilyOfMember(p.families, k, m);
  }

  lemma SameFamily(p: Program, f: Family, g: Family)
    requires ValidFamilies(p) && f in p.families && g in p.families && f.ref == g.ref
    ensures f == g
  {
  }

  /** Every table of the program belongs to exactly one logical source. */
  lemma KeyIsSource(p: Program, table: Ref)
    requires table in Refs(p.objects)
    ensures KeyOf(p, table) in SourcesOf(p)
  {
    FamilyOfSound(p.families, table);
  }

  lemma FieldKeyIsSource(p: Program, f: Field)
    requires ValidCatalog(p.objects) && f in FieldsOf(p)
    ensures KeyOf(p, f.owner) in SourcesOf(p)
  {
    var o :| o in p.objects && f in o.fields;
    KeyIsSource(p, f.owner);
  }
}
