/** The answers of a program written out on its tables, families, joins, filters and stored rows, and when the adapter
    takes a program, in the same terms.
    For ontology_core/inference_to_relational.py, ontology_core/inference_compiler.py and
    ontology_core/inference_join_semantics.py. */
module AnswerReading {
  import opened SeqOps
  import opened Sql
  import opened RelationalPlan
  import opened JoinOrder
  import opened InferredProgram
  import opened ProgramMeaning
  import opened ProgramAnswers
  import opened ColumnNaming
  import opened AdapterPlan
  import opened AdapterOutput
  import opened Adapter
  import opened Periods

  // ----- sources -----

  /** A table stands for the family that holds it, or for itself when none does. */
  ghost predicate StandsAt(p: Program, table: Ref, source: Key) {
    || (exists f :: f in p.families && table in f.members && f.ref == source)
    || (source == table && forall f :: f in p.families ==> table !in f.members)
  }

  lemma StandsAtIs(p: Program, table: Ref, source: Key)
    requires ValidFamilies(p)
    ensures StandsAt(p, table, source) <==> KeyOf(p, table) == source
  {
    hide FamilyOf, ValidFamilies;
    FamilyOfSound(p.families, table);
    forall f | f in p.families && table in f.members ensures FamilyOf(p.families, table) == Some(f.ref) {
      MemberKey(p, f, table);
    }
  }

  ghost predicate IsSource(p: Program, source: Key) {
    exists o :: o in p.objects && StandsAt(p, o.ref, source)
  }

  lemma SourceIs(p: Program, source: Key)
    requires ValidFamilies(p)
    ensures IsSource(p, source) <==> source in SourcesOf(p)
  {
    hide StandsAt, SourcesOf;
    forall o | o in p.objects && StandsAt(p, o.ref, source) ensures source in SourcesOf(p) {
      StandsAtIs(p, o.ref, source);
      KeyIsSource(p, o.ref);
    }
    if source in SourcesOf(p) {
      var o := SomeTable(p, source);
      StandsAtIs(p, o.ref, source);
    }
  }

  lemma SomeTable(p: Program, source: Key) returns (o: TableObject)
    requires ValidFamilies(p) && source in SourcesOf(p)
    ensures o in p.objects && KeyOf(p, o.ref) == source
  {
    if source in FamilyRefs(p.families) {
      var f :| f in p.families && f.ref == source;
      assert f.members[0] in f.members;
      o :| o in p.objects && o.ref == f.members[0];
      MemberKey(p, f, f.members[0]);
    } else {
      o :| o in p.objects && FamilyOf(p.families, o.ref).None? && o.ref == source;
    }
  }

  /** The source is on the right of a join of this type. */
  ghost predicate OnRight(p: Program, source: Key, joinType: JoinType) {
    exists j :: j in p.joins && j.joinType == joinType && StandsAt(p, j.right.owner, source)
  }

  ghost predicate OnDirectedRight(p: Program, source: Key) {
    OnRight(p, source, LeftOuter) || OnRight(p, source, Anti)
  }

  lemma OnRightIs(p: Program, source: Key)
    requires ValidFamilies(p)
    ensures OnRight(p, source, Anti) <==> source in AntiRights(p)
    ensures OnDirectedRight(p, source) <==> source in DirectedRights(p)
  {
    hide ValidFamilies, StandsAt, KeyOf;
    forall j: JoinSpec ensures StandsAt(p, j.right.owner, source) <==> KeyOf(p, j.right.owner) == source {
      StandsAtIs(p, j.right.owner, source);
    }
    if source in DirectedRights(p) {
      var e :| e in EdgesOf(p) && e.joinType != Inner && e.right == source;
      var i :| 0 <= i < |p.joins| && EdgesOf(p)[i] == e;
      assert p.joins[i] in p.joins;
    }
    forall j | j in p.joins && j.joinType != Inner && KeyOf(p, j.right.owner) == source
      ensures source in DirectedRights(p) {
      EdgeInEdges(p, j);
    }
  }

  /** A stored row of the table, or of a member of the family. */
  ghost predicate StoredAt(p: Program, world: World, source: Key, b: BaseRow) {
    exists o :: o in p.objects && StandsAt(p, o.ref, source) && o.ref in world.tables && b in world.tables[o.ref]
  }

  lemma {:induction false} MembersAre(families: seq<Family>, source: Key)
    ensures MembersOf(families, source).Some? ==>
              exists f :: f in families && f.ref == source && f.members == MembersOf(families, source).value
    ensures MembersOf(families, source).None? ==> forall f :: f in families ==> f.ref != source
  {
    if families != [] && families[0].ref != source {
      MembersAre(families[1..], source);
    }
  }

  lemma StoredAtIs(p: Program, world: World, source: Key, b: BaseRow)
    requires ValidFamilies(p) && source in SourcesOf(p)
    ensures StoredAt(p, world, source, b) <==> b in RawRows(p, world, source)
  {
    hide StandsAt, KeyOf, ValidFamilies, SourcesOf;
    forall o | o in p.objects ensures StandsAt(p, o.ref, source) <==> KeyOf(p, o.ref) == source {
      StandsAtIs(p, o.ref, source);
    }
    MembersAre(p.families, source);
    var members := MembersOf(p.families, source);
    if members.Some? {
      var f :| f in p.families && f.ref == source && f.members == members.value;
      FlatMapMember((m: Ref) => Stored(world, m), members.value, b);
      forall o | o in p.objects ensures KeyOf(p, o.ref) == source <==> o.ref in f.members {
        FamilyTables(p, f, o.ref);
      }
      forall m | m in f.members ensures exists o :: o in p.objects && o.ref == m {
        MemberIsTable(p, f, m);
      }
    } else {
      forall o | o in p.objects ensures KeyOf(p, o.ref) == source <==> o.ref == source {
        LoneTable(p, source, o.ref);
      }
      LoneIsTable(p, source);
    }
  }

  lemma FamilyTables(p: Program, f: Family, table: Ref)
    requires ValidFamilies(p) && f in p.families && table in Refs(p.objects)
    ensures KeyOf(p, table) == f.ref <==> table in f.members
  {
    hide FamilyOf;
    FamilyOfSound(p.families, table);
    if table in f.members {
      MemberKey(p, f, table);
    } else if KeyOf(p, table) == f.ref {
      var g :| g in p.families && table in g.members && g.ref == f.ref;
      SameFamily(p, f, g);
    }
  }

  lemma MemberIsTable(p: Program, f: Family, m: Ref)
    requires ValidFamilies(p) && f in p.families && m in f.members
    ensures exists o :: o in p.objects && o.ref == m
  {
    assert m in Refs(p.objects);
  }

  lemma LoneTable(p: Program, source: Key, table: Ref)
    requires source in SourcesOf(p) && forall f :: f in p.families ==> f.ref != source
    ensures KeyOf(p, table) == source <==> table == source
  {
    hide FamilyOf;
    FamilyOfSound(p.families, table);
    LoneIsTable(p, source);
  }

  lemma LoneIsTable(p: Program, source: Key)
    requires source in SourcesOf(p) && forall f :: f in p.families ==> f.ref != source
    ensures FamilyOf(p.families, source).None? && exists o :: o in p.objects && o.ref == source
  {
  }

  // ----- values and filters -----

  /** What the answer holds for a field: the cell of the row bound at the field's source, or null. */
  ghost predicate Reads(p: Program, e: Env, f: Field, o: Operand) {
    && o.dtype == f.dtype
    && exists source ::
         && StandsAt(p, f.owner, source)
         && if source in e && e[source].Some? then o.value == Cell(e[source].value.cells, Physical(f.physical))
            else o.value == Null
  }

  lemma ReadsIs(p: Program, e: Env, f: Field, o: Operand)
    requires ValidFamilies(p)
    ensures Reads(p, e, f, o) <==> o == Operand(FieldValue(p, e, f), f.dtype)
  {
    hide StandsAt, KeyOf, ValidFamilies;
    forall source ensures StandsAt(p, f.owner, source) <==> KeyOf(p, f.owner) == source {
      StandsAtIs(p, f.owner, source);
    }
  }

  /** A filter holds when its tree is true over the values that the answer holds for its fields. */
  ghost predicate Satisfies(p: Program, world: World, pred: Pred<Field>, e: Env) {
    exists look: Field -> Operand ::
      (forall f :: f in Leaves(pred) ==> Reads(p, e, f, look(f))) && Eval(pred, look, world.literal) == True
  }

  lemma SatisfiesIs(p: Program, world: World, pred: Pred<Field>, e: Env)
    requires ValidFamilies(p)
    ensures Satisfies(p, world, pred, e) <==> HoldsOn(p, world, pred, e)
  {
    hide Reads, ValidFamilies, Eval, Leaves, FieldValue;
    var values := FieldLook(p, e);
    forall f, o ensures Reads(p, e, f, o) <==> o == values(f) {
      ReadsIs(p, e, f, o);
    }
    forall look: Field -> Operand | forall f :: f in Leaves(pred) ==> Reads(p, e, f, look(f))
      ensures Eval(pred, look, world.literal) == Eval(pred, values, world.literal) {
      SameValuesSameTruth(pred, look, values, world.literal);
    }
  }

  lemma SameValuesSameTruth(pred: Pred<Field>, look: Field -> Operand, values: Field -> Operand, lit: Literals)
    requires forall f :: f in Leaves(pred) ==> look(f) == values(f)
    ensures Eval(pred, look, lit) == Eval(pred, values, lit)
  {
    var self := (f: Field) => f;
    RenameKeepsTruth(pred, self, look, look, lit);
    RenameKeepsTruth(pred, self, look, values, lit);
  }

  // ----- joins -----

  /** Every field of the filter belongs to the source. */
  ghost predicate SpeaksOf(p: Program, item: FilterSpec, source: Key) {
    forall f :: f in Leaves(item.pred) ==> StandsAt(p, f.owner, source)
  }

  lemma SpeaksOfIs(p: Program, item: FilterSpec, source: Key)
    requires ValidFamilies(p) && WellShaped(item.pred)
    ensures SpeaksOf(p, item, source) <==> FilterSources(p, item) == {source}
  {
    hide StandsAt, KeyOf, ValidFamilies, Leaves, WellShaped;
    WellShapedHasLeaf(item.pred);
    var first := Leaves(item.pred)[0];
    assert first in Leaves(item.pred);
    forall f | f in Leaves(item.pred) ensures StandsAt(p, f.owner, source) <==> KeyOf(p, f.owner) == source {
      StandsAtIs(p, f.owner, source);
    }
    if FilterSources(p, item) == {source} {
      forall f | f in Leaves(item.pred) ensures KeyOf(p, f.owner) == source {
        assert KeyOf(p, f.owner) in FilterSources(p, item);
      }
    }
    if SpeaksOf(p, item, source) {
      assert KeyOf(p, first.owner) in FilterSources(p, item);
    }
  }

  /** The match filters on the source hold of the row. */
  ghost predicate MatchesAt(p: Program, world: World, source: Key, b: BaseRow) {
    forall item :: item in p.filters && item.scope == MatchScope && SpeaksOf(p, item, source) ==>
      Satisfies(p, world, item.pred, map[source := Some(b)])
  }

  lemma MatchesAtIs(p: Program, world: World, source: Key, b: BaseRow)
    requires ValidFamilies(p) && ValidFilters(p)
    ensures MatchesAt(p, world, source, b) <==> OnFiltersHold(p, world, source, b)
  {
    hide ValidFamilies, Satisfies, HoldsOn, SpeaksOf, FilterSources, WellShaped, OneSource;
    forall item | item in p.filters
      ensures SpeaksOf(p, item, source) <==> FilterSources(p, item) == {source}
      ensures Satisfies(p, world, item.pred, map[source := Some(b)]) <==>
              HoldsOn(p, world, item.pred, map[source := Some(b)]) {
      SpeaksOfIs(p, item, source);
      SatisfiesIs(p, world, item.pred, map[source := Some(b)]);
    }
  }

  /** The answer's value of the field is not null and equals `v`. */
  ghost predicate ReadsValue(p: Program, e: Env, f: Field, v: Value) {
    v != Null && exists o :: Reads(p, e, f, o) && o.value == v
  }

  lemma ReadsValueIs(p: Program, e: Env, f: Field, v: Value)
    requires ValidFamilies(p)
    ensures ReadsValue(p, e, f, v) <==> Compare(EQ, FieldValue(p, e, f), v) == True
  {
    hide Reads, ValidFamilies, FieldValue;
    forall o ensures Reads(p, e, f, o) <==> o == Operand(FieldValue(p, e, f), f.dtype) {
      ReadsIs(p, e, f, o);
    }
    assert Reads(p, e, f, Operand(FieldValue(p, e, f), f.dtype));
  }

  /** A row meets the ON clause of a LEFT or anti join for the left side of the answer: the keys are equal and not null,
      the match filters on the right source hold, and the row lies in its table's period. */
  ghost predicate Meets(p: Program, world: World, j: JoinSpec, e: Env, b: BaseRow) {
    && ReadsValue(p, e, j.left, Cell(b.cells, Physical(j.right.physical)))
    && (forall source :: StandsAt(p, j.right.owner, source) ==> MatchesAt(p, world, source, b))
    && WithinDecisions(p, world, b)
  }

  lemma MeetsIs(p: Program, world: World, j: JoinSpec, e: Env, b: BaseRow)
    requires ValidFamilies(p) && FieldsKnown(p) && ValidFilters(p)
    ensures Meets(p, world, j, e, b) <==> Partner(p, world, j, FieldValue(p, e, j.left), b)
  {
    hide StandsAt, KeyOf, ValidFamilies, FieldsKnown, ValidFilters, ReadsValue, FieldValue, InPeriod, WithinDecisions,
         MatchesAt, OnFiltersHold, Compare;
    var right := KeyOf(p, j.right.owner);
    PeriodIsInterval(p, world, b);
    ReadsValueIs(p, e, j.left, Cell(b.cells, Physical(j.right.physical)));
    MatchesAtIs(p, world, right, b);
    forall source ensures StandsAt(p, j.right.owner, source) <==> source == right {
      StandsAtIs(p, j.right.owner, source);
    }
  }

  /** What an answer owes to one join. */
  ghost predicate Keeps(p: Program, world: World, j: JoinSpec, e: Env) {
    match j.joinType
    case Inner => exists y :: Reads(p, e, j.right, y) && ReadsValue(p, e, j.left, y.value)
    case LeftOuter =>
      exists source ::
        && StandsAt(p, j.right.owner, source) && source in e
        && if e[source].Some? then Meets(p, world, j, e, e[source].value) else NoneMeets(p, world, j, e)
    case Anti => NoneMeets(p, world, j, e)
  }

  /** No stored row on the right meets the ON clause. */
  ghost predicate NoneMeets(p: Program, world: World, j: JoinSpec, e: Env) {
    forall source, b :: StandsAt(p, j.right.owner, source) && StoredAt(p, world, source, b) ==>
      !Meets(p, world, j, e, b)
  }

  lemma NoneMeetsIs(p: Program, world: World, j: JoinSpec, e: Env)
    requires ValidFamilies(p) && FieldsKnown(p) && ValidFilters(p) && ValidCatalog(p.objects) && j in p.joins
    ensures var right := KeyOf(p, j.right.owner);
            NoneMeets(p, world, j, e) <==>
              forall b :: b in RawRows(p, world, right) ==> !Partner(p, world, j, FieldValue(p, e, j.left), b)
  {
    hide StandsAt, KeyOf, ValidFamilies, ValidFilters, FieldsKnown, ValidCatalog, FieldValue, Meets, Partner, StoredAt,
         RawRows, SourcesOf;
    RightIsSource(p, j);
    var right := KeyOf(p, j.right.owner);
    forall source ensures StandsAt(p, j.right.owner, source) <==> source == right {
      StandsAtIs(p, j.right.owner, source);
    }
    forall b ensures Meets(p, world, j, e, b) <==> Partner(p, world, j, FieldValue(p, e, j.left), b)
      ensures StoredAt(p, world, right, b) <==> b in RawRows(p, world, right) {
      MeetsIs(p, world, j, e, b);
      StoredAtIs(p, world, right, b);
    }
  }

  lemma KeepsIs(p: Program, world: World, j: JoinSpec, e: Env)
    requires ValidFamilies(p) && FieldsKnown(p) && ValidFilters(p) && ValidCatalog(p.objects) && j in p.joins
    requires FromStore(p, world, e)
    ensures Keeps(p, world, j, e) <==> JoinHolds(p, world, j, e)
  {
    hide StandsAt, KeyOf, ValidFamilies, ValidFilters, FieldsKnown, ValidCatalog, Reads, ReadsValue, FieldValue, Meets,
         Partner, NoneMeets, RawRows, Compare;
    var right := KeyOf(p, j.right.owner);
    forall source ensures StandsAt(p, j.right.owner, source) <==> source == right {
      StandsAtIs(p, j.right.owner, source);
    }
    match j.joinType
    case Inner =>
      InnerIs(p, e, j);
    case LeftOuter =>
      NoneMeetsIs(p, world, j, e);
      if right in e && e[right].Some? {
        MeetsIs(p, world, j, e, e[right].value);
      }
    case Anti =>
      NoneMeetsIs(p, world, j, e);
  }

  lemma InnerIs(p: Program, e: Env, j: JoinSpec)
    requires ValidFamilies(p)
    ensures (exists y :: Reads(p, e, j.right, y) && ReadsValue(p, e, j.left, y.value)) <==>
              Compare(EQ, FieldValue(p, e, j.left), FieldValue(p, e, j.right)) == True
  {
    hide Reads, ReadsValue, ValidFamilies, FieldValue, Compare;
    forall o ensures Reads(p, e, j.right, o) <==> o == Operand(FieldValue(p, e, j.right), j.right.dtype) {
      ReadsIs(p, e, j.right, o);
    }
    ReadsValueIs(p, e, j.left, FieldValue(p, e, j.right));
    assert Reads(p, e, j.right, Operand(FieldValue(p, e, j.right), j.right.dtype));
  }

  lemma RightIsSource(p: Program, j: JoinSpec)
    requires FieldsKnown(p) && ValidCatalog(p.objects) && j in p.joins
    ensures KeyOf(p, j.right.owner) in SourcesOf(p)
  {
    FieldKeyIsSource(p, j.right);
  }

  // ----- answers -----

  /** A match filter on the right source of a LEFT or anti join belongs to ON, every other filter to WHERE. */
  ghost predicate BelongsToOn(p: Program, item: FilterSpec) {
    item.scope == MatchScope && exists source :: OnDirectedRight(p, source) && SpeaksOf(p, item, source)
  }

  /** Every source that no anti join excludes is bound, and without a row only on the right of a LEFT join. */
  ghost predicate BindsSources(p: Program, e: Env) {
    && (forall source :: source in e <==> IsSource(p, source) && !OnRight(p, source, Anti))
    && (forall source :: source in e && e[source].None? ==> OnRight(p, source, LeftOuter))
  }

  ghost predicate BindsStored(p: Program, world: World, e: Env) {
    forall source :: source in e && e[source].Some? ==> StoredAt(p, world, source, e[source].value)
  }

  ghost predicate KeepsJoins(p: Program, world: World, e: Env) {
    forall j :: j in p.joins ==> Keeps(p, world, j, e)
  }

  /** Every filter that does not belong to ON holds, and rows outside directed right sides lie in their periods. */
  ghost predicate PassesWhere(p: Program, world: World, e: Env) {
    && (forall item :: item in p.filters && !BelongsToOn(p, item) ==> Satisfies(p, world, item.pred, e))
    && (forall source :: source in e && e[source].Some? && !OnDirectedRight(p, source) ==>
          WithinDecisions(p, world, e[source].value))
  }

  /** An answer binds the sources to stored rows, keeps every join, and passes WHERE. */
  ghost predicate Answers(p: Program, world: World, e: Env) {
    BindsSources(p, e) && BindsStored(p, world, e) && KeepsJoins(p, world, e) && PassesWhere(p, world, e)
  }

  lemma BoundIs(p: Program, e: Env)
    requires ValidFamilies(p)
    ensures WellBound(p, e, SourcesOf(p)) <==> BindsSources(p, e)
  {
    hide IsSource, OnRight, SourcesOf, AntiRights, DirectedRights, ValidFamilies;
    forall source
      ensures IsSource(p, source) <==> source in SourcesOf(p)
      ensures OnRight(p, source, Anti) <==> source in AntiRights(p)
      ensures OnDirectedRight(p, source) <==> source in DirectedRights(p) {
      SourceIs(p, source);
      OnRightIs(p, source);
    }
  }

  lemma StoreIs(p: Program, world: World, e: Env)
    requires ValidFamilies(p) && WellBound(p, e, SourcesOf(p))
    ensures FromStore(p, world, e) <==> BindsStored(p, world, e)
  {
    hide StoredAt, RawRows, SourcesOf, ValidFamilies;
    forall source | source in e && e[source].Some?
      ensures StoredAt(p, world, source, e[source].value) <==> e[source].value in RawRows(p, world, source) {
      StoredAtIs(p, world, source, e[source].value);
    }
  }

  lemma WhereIs(p: Program, world: World, e: Env)
    requires ValidFamilies(p) && FieldsKnown(p) && ValidFilters(p)
    ensures WhereRaw(p, world, e) <==> PassesWhere(p, world, e)
  {
    hide BelongsToOn, IsOnFilter, Satisfies, HoldsOn, OnDirectedRight, DirectedRights, InPeriod, WithinDecisions,
         ValidFamilies, FieldsKnown, ValidFilters;
    forall item | item in p.filters
      ensures BelongsToOn(p, item) <==> IsOnFilter(p, item)
      ensures Satisfies(p, world, item.pred, e) <==> HoldsOn(p, world, item.pred, e) {
      OnFilterIs(p, item);
      SatisfiesIs(p, world, item.pred, e);
    }
    forall source: Key ensures OnDirectedRight(p, source) <==> source in DirectedRights(p) {
      OnRightIs(p, source);
    }
    forall b ensures InPeriod(p, world, b) <==> WithinDecisions(p, world, b) {
      PeriodIsInterval(p, world, b);
    }
  }

  lemma OnFilterIs(p: Program, item: FilterSpec)
    requires ValidFamilies(p) && ValidFilters(p) && item in p.filters
    ensures BelongsToOn(p, item) <==> IsOnFilter(p, item)
  {
    hide OnDirectedRight, DirectedRights, ValidFamilies, SpeaksOf, FilterSources, WellShaped, OneSource;
    forall source: Key
      ensures OnDirectedRight(p, source) <==> source in DirectedRights(p)
      ensures SpeaksOf(p, item, source) <==> FilterSources(p, item) == {source} {
      OnRightIs(p, source);
      SpeaksOfIs(p, item, source);
    }
  }

  lemma JoinsAreKept(p: Program, world: World, e: Env)
    requires ValidFamilies(p) && FieldsKnown(p) && ValidFilters(p) && ValidCatalog(p.objects) && FromStore(p, world, e)
    ensures KeepsJoins(p, world, e) <==> forall j :: j in p.joins ==> JoinHolds(p, world, j, e)
  {
    hide ValidFamilies, ValidFilters, FieldsKnown, ValidCatalog, Keeps, JoinHolds, FromStore;
    forall j | j in p.joins ensures Keeps(p, world, j, e) <==> JoinHolds(p, world, j, e) {
      KeepsIs(p, world, j, e);
    }
  }

  /** The answers of a valid program are exactly these. */
  lemma AnswersExactly(p: Program, world: World, e: Env)
    requires ValidProgram(p)
    ensures IsAnswer(p, world, e) <==> Answers(p, world, e)
  {
    ValidParts(p);
    hide ValidProgram, ValidFamilies, ValidFilters, FieldsKnown, ValidCatalog, WellBound, FromStore, WhereRaw,
         SourcesOf, BindsSources, BindsStored, KeepsJoins, PassesWhere, JoinHolds;
    BoundIs(p, e);
    WhereIs(p, world, e);
    if WellBound(p, e, SourcesOf(p)) {
      StoreIs(p, world, e);
      if FromStore(p, world, e) {
        JoinsAreKept(p, world, e);
      }
    }
  }

  lemma ValidParts(p: Program)
    requires ValidProgram(p)
    ensures ValidCatalog(p.objects) && ValidFamilies(p) && FieldsKnown(p) && ValidFilters(p)
  {
  }
}
