/** The flat query denotes the program's answers. */
module FlatMeaning {
  import opened SeqOps
  import opened Sql
  import opened RelationalPlan
  import opened RelationalCompiler
  import opened JoinOrder
  import opened InferredProgram
  import opened ProgramMeaning
  import opened ProgramAnswers
  import opened ColumnNaming
  import opened AdapterPlan
  import opened AdapterNodes
  import opened AdapterJoins
  import opened AdapterCorrectness
  import opened FlatCompiler

  // ----- what the flat query does before WHERE -----

  /** The filters in ON, and the periods inside family tables and in ON. */
  function BeforeWhere(p: Program): Program {
    p.(filters := Filter((item: FilterSpec) => IsOnFilter(p, item), p.filters),
       decisions := Filter((d: Decision) => FamilyOf(p.families,
                                                     d.owner).Some? || KeyOf(p, d.owner) in DirectedRights(p),
                                                         p.decisions))
  }

  lemma SameSources(p: Program)
    ensures var q := BeforeWhere(p);
            && q.families == p.families && q.joins == p.joins && q.objects == p.objects
            && DirectedRights(q) == DirectedRights(p) && AntiRights(q) == AntiRights(p) && SourcesOf(q) == SourcesOf(p)
            && EdgesOf(q) == EdgesOf(p)
    ensures forall k :: KeyOf(BeforeWhere(p), k) == KeyOf(p, k) && IsFamily(BeforeWhere(p), k) == IsFamily(p, k)
  {
    assert EdgesOf(BeforeWhere(p)) == EdgesOf(p);
  }

  lemma SameHolds(p: Program, world: World, pred: Pred<Field>, e: Env)
    ensures HoldsOn(BeforeWhere(p), world, pred, e) == HoldsOn(p, world, pred, e)
  {
    var q := BeforeWhere(p);
    forall f | f in Leaves(pred) ensures FieldLook(q, e)(f) == FieldLook(p, e)(f) {
    }
    RenameKeepsTruth(pred, (f: Field) => f, FieldLook(q, e), FieldLook(p, e), world.literal);
    RenameKeepsTruth(pred, (f: Field) => f, FieldLook(q, e), FieldLook(q, e), world.literal);
  }

  /** Periods that matter before WHERE are kept; others hold trivially there. */
  lemma PeriodBefore(p: Program, world: World, b: BaseRow)
    ensures InPeriod(BeforeWhere(p), world, b) <==>
              (FamilyOf(p.families, b.table).Some? || KeyOf(p, b.table) in DirectedRights(p) ==> InPeriod(p, world, b))
  {
    hide HoldsOn, TemporalPred, DirectedRights, KeyOf;
    var q := BeforeWhere(p);
    SameSources(p);
    assert Alone(q, b) == Alone(p, b);
    forall d: Decision
        ensures HoldsOn(q, world, TemporalPred(d), Alone(q, b)) == HoldsOn(p, world, TemporalPred(d), Alone(p, b)) {
      SameHolds(p, world, TemporalPred(d), Alone(p, b));
    }
    forall d | d in p.decisions && d.owner == b.table
        ensures d in q.decisions <==> FamilyOf(p.families, b.table).Some? || KeyOf(p, b.table) in DirectedRights(p) {
    }
  }

  lemma OnFiltersBefore(p: Program, world: World, source: Key, b: BaseRow)
    requires source in DirectedRights(p)
    ensures OnFiltersHold(BeforeWhere(p), world, source, b) == OnFiltersHold(p, world, source, b)
  {
    hide HoldsOn, DirectedRights, FilterSources;
    var q := BeforeWhere(p);
    forall item: FilterSpec ensures FilterSources(q, item) == FilterSources(p, item) {
      SameFilterSources(p, item);
    }
    forall item | item in p.filters && item.scope == MatchScope && FilterSources(p, item) == {source}
        ensures item in q.filters {
      assert IsOnFilter(p, item);
    }
    forall item: FilterSpec
        ensures HoldsOn(q, world, item.pred, map[source := Some(b)])
                == HoldsOn(p, world, item.pred, map[source := Some(b)]) {
      SameHolds(p, world, item.pred, map[source := Some(b)]);
    }
  }

  lemma SameFilterSources(p: Program, item: FilterSpec)
    ensures FilterSources(BeforeWhere(p), item) == FilterSources(p, item)
  {
    SameSources(p);
  }

  /** Rows of a source before WHERE: a family without rows outside their periods, a table as stored. */
  lemma RowsBefore(p: Program, world: World, source: Key, b: BaseRow)
    requires ValidProgram(p) && ValidWorld(world) && source in SourcesOf(p) && b in RawRows(p, world, source)
    ensures ScanKeeps(BeforeWhere(p), world, source, b) <==> (IsFamily(p, source) ==> InPeriod(p, world, b))
  {
    hide ValidProgram, HoldsOn, InPeriod, RawRows, DirectedRights;
    var q := BeforeWhere(p);
    SameSources(p);
    RowOfSource(p, world, source, b);
    PeriodBefore(p, world, b);
    RowTable(p, world, source, b);
    forall item | item in q.filters ensures !IsScanFilter(q, item, source) {
      SameFilterSources(p, item);
    }
  }

  lemma RowTable(p: Program, world: World, source: Key, b: BaseRow)
    requires ValidProgram(p) && ValidWorld(world) && source in SourcesOf(p) && b in RawRows(p, world, source)
    ensures b.table in Refs(p.objects) && (FamilyOf(p.families, b.table).Some? <==> IsFamily(p, source))
  {
    hide FieldsKnown, ValidFilters, JoinsAllowed, ValidCatalog;
    MembersFound(p.families, source);
    var members := MembersOf(p.families, source);
    if members.Some? {
      FlatMapMember((m: Ref) => Stored(world, m), members.value, b);
      var m :| m in members.value && b in Stored(world, m);
      var f :| f in p.families && f.ref == source && f.members == members.value;
      MemberKey(p, f, m);
    } else {
      var o :| o in p.objects && FamilyOf(p.families, o.ref).None? && o.ref == source;
    }
  }

  /** The last filter: everything that is not in ON, and periods of plain preserved tables. */
  predicate FlatWhereHolds(p: Program, world: World, e: Env) {
    && (forall item :: item in p.filters && !IsOnFilter(p, item) ==> HoldsOn(p, world, item.pred, e))
    && (forall s :: s in e.Keys && s !in DirectedRights(p) && !IsFamily(p, s) && e[s].Some? ==> InPeriod(p, world,
        e[s].value))
  }

  lemma WhereIsSplit(p: Program, world: World, root: Key, order: seq<Intro>, e: Env)
    requires ValidProgram(p) && ValidWorld(world) && LegalPrefix(p, root, order) && EdgesKnown(p, order)
    requires e in RawChain(p, world, root, order) && Reached({root}, order) == SourcesOf(p)
    ensures WhereRaw(p, world, e) <==> ScansKeep(BeforeWhere(p), world, e) && FlatWhereHolds(p, world, e)
  {
    hide ValidProgram, ValidWorld, LegalPrefix, RawChain, HoldsOn, InPeriod, ScanKeeps, IsOnFilter, DirectedRights,
         RawRows, IsFamily, BeforeWhere, SourcesOf;
    ChainStored(p, world, root, order, e);
    SameSources(p);
    forall s | s in e.Keys && e[s].Some? && s !in DirectedRights(p)
      ensures ScanKeeps(BeforeWhere(p), world, s, e[s].value) <==> (IsFamily(p, s) ==> InPeriod(p, world, e[s].value)) {
      RowsBefore(p, world, s, e[s].value);
    }
  }

  lemma ChainStored(p: Program, world: World, root: Key, order: seq<Intro>, e: Env)
    requires ValidProgram(p) && LegalPrefix(p, root, order) && EdgesKnown(p, order)
             && e in RawChain(p, world, root, order)
    requires Reached({root}, order) == SourcesOf(p)
    ensures forall s :: s in e.Keys && e[s].Some? ==> e[s].value in RawRows(p, world, s) && s in SourcesOf(p)
  {
    hide ValidCatalog, ValidFamilies, FieldsKnown, ValidFilters, JoinsAllowed, LegalPrefix, RawChain, RawRows, AllHold,
         SourcesOf, AntiRights;
    ChainMembers(p, world, root, order, e);
  }

  // ----- the chain before WHERE is a filtered raw chain -----

  lemma SameLegal(p: Program, root: Key, order: seq<Intro>)
    requires LegalPrefix(p, root, order)
    ensures LegalPrefix(BeforeWhere(p), root, order)
  {
    SameSources(p);
  }

  lemma RawStepBefore(p: Program, world: World, visited: set<Key>, s: Intro, e: Env)
    requires ValidProgram(p) && ValidWorld(world) && LegalStep(EdgesOf(p), SourcesOf(p), visited, s)
    requires s.edge < |p.joins|
    ensures RawStep(BeforeWhere(p), world, s, e) == RawStep(p, world, s, e)
  {
    hide ValidProgram, ValidWorld, InPeriod, RawRows, OnFiltersHold, LegalStep, DirectedRights, BeforeWhere, FieldValue;
    var q := BeforeWhere(p);
    SameSources(p);
    StepFacts(p, visited, s);
    SameRawRows(p, world, s.source);
    forall b | b in RawRows(p, world, s.source) ensures OnRaw(q, world, s, e, b) == OnRaw(p, world, s, e, b) {
      SameFieldValue(p, e, OldField(p, s));
      if p.joins[s.edge].joinType != Inner {
        OnFiltersBefore(p, world, s.source, b);
        RowOfSource(p, world, s.source, b);
        PeriodBefore(p, world, b);
      }
    }
    FilterCong((b: BaseRow) => OnRaw(q, world, s, e,
                                     b), (b: BaseRow) => OnRaw(p, world, s, e, b), RawRows(p, world, s.source));
  }

  lemma SameRawRows(p: Program, world: World, source: Key)
    ensures RawRows(BeforeWhere(p), world, source) == RawRows(p, world, source)
  {
  }

  lemma SameFieldValue(p: Program, e: Env, f: Field)
    ensures FieldValue(BeforeWhere(p), e, f) == FieldValue(p, e, f)
  {
  }

  lemma {:induction false} RawChainBefore(p: Program, world: World, root: Key, order: seq<Intro>)
    requires ValidProgram(p) && ValidWorld(world) && LegalPrefix(p, root, order) && EdgesKnown(p, order)
             && EdgesKnown(BeforeWhere(p), order)
    ensures RawChain(BeforeWhere(p), world, root, order) == RawChain(p, world, root, order)
    decreases |order|
  {
    hide ValidProgram, ValidWorld, RawStep, LegalStep, RawRows, BeforeWhere;
    if order == [] {
      SameRawRows(p, world, root);
    } else {
      var n := |order| - 1;
      var s := order[n];
      assert s in order;
      SameSources(p);
      LegalPrefixShorter(p, root, order);
      RawChainBefore(p, world, root, order[..n]);
      var before := RawChain(p, world, root, order[..n]);
      forall e | e in before ensures RawStep(BeforeWhere(p), world, s, e) == RawStep(p, world, s, e) {
        RawStepBefore(p, world, Reached({root}, order[..n]), s, e);
      }
      FlatMapCong((e: Env) => RawStep(BeforeWhere(p), world, s, e), (e: Env) => RawStep(p, world, s, e), before);
    }
  }

  lemma JoinsAllowedBefore(p: Program)
    requires JoinsAllowed(p)
    ensures JoinsAllowed(BeforeWhere(p))
  {
    SameSources(p);
    var q := BeforeWhere(p);
    forall i | 0 <= i < |q.joins| ensures JoinAllowed(q, i) {
      assert JoinAllowed(p, i);
      assert forall k :: 0 <= k < |p.joins| ==> TakesPart(q, k,
                                                          KeyOf(q, q.joins[i].right.owner))
                                                              == TakesPart(p, k, KeyOf(p, p.joins[i].right.owner));
    }
  }

  /** Filtering the chain before WHERE by the flat WHERE is the plain reading. */
  lemma FlatIsReference(p: Program, world: World, root: Key, order: seq<Intro>)
    requires ValidProgram(p) && ValidWorld(world) && LegalPrefix(p, root, order)
             && Reached({root}, order) == SourcesOf(p)
    requires EdgesKnown(p, order) && EdgesKnown(BeforeWhere(p), order)
    ensures Filter((e: Env) => FlatWhereHolds(p, world, e), PushedChain(BeforeWhere(p), world, root, order))
            == Reference(p, world, root, order)
  {
    hide ValidCatalog, ValidFamilies, FieldsKnown, ValidFilters, JoinsAllowed, ValidWorld, LegalPrefix, RawChain,
         PushedChain, ScansKeep, FlatWhereHolds, WhereRaw, BeforeWhere, SourcesOf;
    var q := BeforeWhere(p);
    JoinsAllowedBefore(p);
    SameLegal(p, root, order);
    ChainPushes(q, world, root, order);
    RawChainBefore(p, world, root, order);
    var raw := RawChain(p, world, root, order);
    forall e | e in raw ensures WhereRaw(p, world, e) == (ScansKeep(q, world, e) && FlatWhereHolds(p, world, e)) {
      WhereIsSplit(p, world, root, order, e);
    }
    FilterFilter((e: Env) => ScansKeep(q, world,
                                       e), (e: Env) => FlatWhereHolds(p, world, e), (e: Env) => WhereRaw(p, world,
                                           e), raw);
  }

  // ----- scopes of the flat query -----

  /** The columns of a source in the flat query: all of a table, the needed ones of a family. */
  function RowCells(p: Program, k: Key, b: BaseRow): Row {
    var family := FamilyWith(p.families, k);
    if family.None? then b.cells else NameCells(NeededNames(p, family.value), b.cells)
  }

  function NameCells(names: seq<Name>, cells: Row): Row {
    map n | n in names :: Physical(n) := Cell(cells, Physical(n))
  }

  function CellsFor(p: Program, e: Env, k: Key): Row {
    if k in e && e[k].Some? then RowCells(p, k, e[k].value) else map[]
  }

  /** The SQL scope of an environment: one alias for every source in `present`. */
  function ScopeOf(p: Program, present: set<Key>, e: Env): Scope {
    var keys := LogicalKeys(p);
    map i: nat | i < |keys| && keys[i] in present :: TableAlias(i) := CellsFor(p, e, keys[i])
  }

  ghost predicate DistinctKeys(p: Program) {
    NoDup(LogicalKeys(p)) && forall k :: k in LogicalKeys(p) <==> k in SourcesOf(p)
  }

  lemma LoneTablesDiffer(p: Program)
    requires ValidProgram(p)
    ensures NoDup(Map((o: TableObject) =>
                      o.ref, Filter((o: TableObject) => FamilyOf(p.families, o.ref).None?, p.objects)))
  {
    hide FieldsKnown, ValidFilters, JoinsAllowed, ValidFamilies;
    var tables := Filter((o: TableObject) => FamilyOf(p.families, o.ref).None?, p.objects);
    forall i, j | 0 <= i < j < |p.objects| ensures p.objects[i] != p.objects[j] {
      assert p.objects[i].ref != p.objects[j].ref;
    }
    NoDupFilter((o: TableObject) => FamilyOf(p.families, o.ref).None?, p.objects);
    forall o, q | o in tables && q in tables && o.ref == q.ref ensures o == q {
    }
    NoDupMap((o: TableObject) => o.ref, tables);
  }

  lemma KeyListed(p: Program, k: Key)
    ensures k in LogicalKeys(p) <==>
              || k in Map((f: Family) => f.ref, p.families)
              || k in Map((o: TableObject) =>
                          o.ref, Filter((o: TableObject) => FamilyOf(p.families, o.ref).None?, p.objects))
  {
  }

  lemma KeysOfFamilies(p: Program, k: Key)
    ensures k in Map((f: Family) => f.ref, p.families) <==> k in FamilyRefs(p.families)
  {
    MapHas((f: Family) => f.ref, p.families, k);
  }

  lemma KeysOfTables(p: Program, k: Key)
    ensures k in Map((o: TableObject) =>
                     o.ref, Filter((o: TableObject) => FamilyOf(p.families, o.ref).None?, p.objects))
       <==> k in (set o | o in p.objects && FamilyOf(p.families, o.ref).None? :: o.ref)
  {
    hide FamilyOf;
    MapHas((o: TableObject) => o.ref, Filter((o: TableObject) => FamilyOf(p.families, o.ref).None?, p.objects), k);
  }

  lemma FamilyOrTable(p: Program, k: Key)
    requires ValidFamilies(p)
    ensures !(k in FamilyRefs(p.families)
              && k in (set o | o in p.objects && FamilyOf(p.families, o.ref).None? :: o.ref))
  {
  }

  lemma FamiliesDiffer(p: Program)
    requires ValidFamilies(p)
    ensures NoDup(Map((f: Family) => f.ref, p.families))
  {
  }

  lemma KeysAreSources(p: Program)
    requires ValidProgram(p)
    ensures DistinctKeys(p)
  {
    hide ValidCatalog, ValidFamilies, FieldsKnown, ValidFilters, JoinsAllowed, FamilyOf, FamilyRefs, NoDup;
    var families := Map((f: Family) => f.ref, p.families);
    var lone := Map((o: TableObject) =>
                    o.ref, Filter((o: TableObject) => FamilyOf(p.families, o.ref).None?, p.objects));
    LoneTablesDiffer(p);
    FamiliesDiffer(p);
    forall k ensures (k in LogicalKeys(p) <==> k in SourcesOf(p)) && !(k in families && k in lone) {
      KeyListed(p, k);
      KeysOfFamilies(p, k);
      KeysOfTables(p, k);
      FamilyOrTable(p, k);
    }
    NoDupConcat(families, lone);
  }

  lemma AliasInScope(p: Program, present: set<Key>, e: Env, k: Key)
    requires DistinctKeys(p) && k in SourcesOf(p)
    ensures AliasOf(p, k) in ScopeOf(p, present, e) <==> k in present
    ensures k in present ==> ScopeOf(p, present, e)[AliasOf(p, k)] == CellsFor(p, e, k)
  {
    var i := Position(LogicalKeys(p), k);
    assert LogicalKeys(p)[i] == k;
  }

  lemma AliasesDiffer(p: Program, k: Key, l: Key)
    requires DistinctKeys(p) && k in SourcesOf(p) && l in SourcesOf(p) && AliasOf(p, k) == AliasOf(p, l)
    ensures k == l
  {
  }

  lemma CellsBound(p: Program, e: Env, k: Key, b: Option<BaseRow>, l: Key)
    ensures CellsFor(p, e[k := b], l)
            == if l != k then CellsFor(p, e, l) else if b.Some? then RowCells(p, k, b.value) else map[]
    ensures k !in e ==> CellsFor(p, e, k) == map[]
  {
  }

  lemma ScopeAdds(p: Program, present: set<Key>, e: Env, d: Env, k: Key)
    requires DistinctKeys(p) && k in SourcesOf(p) && k !in present
    requires forall l :: l != k ==> CellsFor(p, d, l) == CellsFor(p, e, l)
    ensures ScopeOf(p, present + {k}, d) == ScopeOf(p, present, e)[AliasOf(p, k) := CellsFor(p, d, k)]
  {
    hide CellsFor, LogicalKeys, SourcesOf;
    var keys := LogicalKeys(p);
    var got, want := ScopeOf(p, present + {k}, d), ScopeOf(p, present, e)[AliasOf(p, k) := CellsFor(p, d, k)];
    var at := Position(keys, k);
    forall i: nat | i < |keys| && keys[i] == k ensures i == at {
    }
    assert AliasOf(p, k) == TableAlias(at) && keys[at] == k;
    assert got.Keys == want.Keys;
  }

  lemma ScopeGrows(p: Program, present: set<Key>, e: Env, k: Key, b: Option<BaseRow>)
    requires DistinctKeys(p) && k in SourcesOf(p) && k !in present && k !in e
    ensures ScopeOf(p, present + {k}, e[k := b])
            == ScopeOf(p, present, e)[AliasOf(p, k) := if b.Some? then RowCells(p, k, b.value) else map[]]
    ensures ScopeOf(p, present + {k}, e) == ScopeOf(p, present, e)[AliasOf(p, k) := map[]]
  {
    hide CellsFor, ScopeOf, RowCells, DistinctKeys, SourcesOf;
    forall l ensures CellsFor(p, e[k := b], l)
        == if l != k then CellsFor(p, e, l) else if b.Some? then RowCells(p, k, b.value) else map[] {
      CellsBound(p, e, k, b, l);
    }
    CellsBound(p, e, k, b, k);
    ScopeAdds(p, present, e, e[k := b], k);
    ScopeAdds(p, present, e, e, k);
  }

  // ----- reading fields -----

  ghost predicate Kept(p: Program, f: Field) {
    f in FieldsOf(p) && f in FlatMentioned(p)
  }

  lemma KeptName(p: Program, f: Field, family: Family)
    requires ValidProgram(p) && Kept(p, f) && family in p.families && KeyOf(p, f.owner) == family.ref
    ensures f.physical in NeededNames(p, family)
  {
    hide ValidCatalog, FieldsKnown, ValidFilters, JoinsAllowed, FlatMentioned;
    FamilyOfSound(p.families, f.owner);
    OwnerKnown(p, f);
    var g :| g in p.families && f.owner in g.members && g.ref == family.ref;
    SameFamily(p, family, g);
    var fields := Filter((f: Field) => f.owner in family.members, FlatMentioned(p));
    assert f in fields;
    var i :| 0 <= i < |fields| && fields[i] == f;
    var listed := Map((f: Field) => f.physical, fields);
    assert listed[i] == f.physical;
    FirstOccurrencesKeepsMembers(listed);
    SameBagSameMembers(FirstOccurrences(listed), NeededNames(p, family));
  }

  lemma OwnerKnown(p: Program, f: Field)
    requires ValidProgram(p) && f in FieldsOf(p)
    ensures f.owner in Refs(p.objects)
    ensures FamilyOf(p.families, f.owner).None? ==> f.owner !in FamilyRefs(p.families)
  {
    hide FieldsKnown, ValidFilters, JoinsAllowed;
    OwnerListed(p, f);
  }

  lemma CellKept(p: Program, k: Key, b: BaseRow, f: Field)
    requires ValidProgram(p) && Kept(p, f) && KeyOf(p, f.owner) == k
    ensures Cell(RowCells(p, k, b), Physical(f.physical)) == Cell(b.cells, Physical(f.physical))
  {
    hide ValidProgram, NeededNames, Kept, KeyOf;
    FamilyWithFound(p.families, k);
    if FamilyWith(p.families, k).Some? {
      KeptName(p, f, FamilyWith(p.families, k).value);
    }
  }

  lemma FieldAt(p: Program, present: set<Key>, e: Env, f: Field)
    requires ValidProgram(p) && DistinctKeys(p) && Kept(p, f) && KeyOf(p, f.owner) in present
             && KeyOf(p, f.owner) in SourcesOf(p)
    ensures At(ScopeOf(p, present, e), FieldRef(p, f)) == FieldValue(p, e, f)
  {
    hide ValidProgram, DistinctKeys, Kept, KeyOf, ScopeOf, RowCells, SourcesOf;
    var k := KeyOf(p, f.owner);
    AliasInScope(p, present, e, k);
    if k in e && e[k].Some? {
      CellKept(p, k, e[k].value, f);
    }
  }

  /** A condition over kept fields of present sources means in the scope what it means on the environment. */
  lemma PredAt(p: Program, world: World, present: set<Key>, e: Env, pred: Pred<Field>)
    requires ValidProgram(p) && DistinctKeys(p)
    requires forall f :: f in Leaves(pred) ==> Kept(p,
                                                    f) && KeyOf(p, f.owner) in present
                                                        && KeyOf(p, f.owner) in SourcesOf(p)
    ensures Eval(FlatPred(p, pred), TypedLook(ScopeOf(p, present, e)), world.literal) == True <==>
            HoldsOn(p, world, pred, e)
  {
    hide ValidProgram, DistinctKeys, Kept, KeyOf, ScopeOf, SourcesOf, FieldRef, At;
    forall f | f in Leaves(pred) ensures TypedLook(ScopeOf(p, present, e))(FlatRef(p)(f)) == FieldLook(p, e)(f) {
      FieldAt(p, present, e, f);
    }
    RenameKeepsTruth(pred, FlatRef(p), TypedLook(ScopeOf(p, present, e)), FieldLook(p, e), world.literal);
  }

  // ----- ON in the flat query -----

  function CellsOf(p: Program, k: Key): BaseRow -> Row {
    (b: BaseRow) => RowCells(p, k, b)
  }

  /** Every relation of the query holds the rows that reach the joins. */
  ghost predicate FlatContext(p: Program, world: World, c: Context) {
    && c.world == world
    && forall k :: k in SourcesOf(p) ==> Rows(RelationFor(p, k),
                                              c) == Map(CellsOf(p, k), PushedRows(BeforeWhere(p), world, k))
  }

  lemma KeptFields(p: Program)
    requires ValidProgram(p)
    ensures forall f :: f in p.requested ==> Kept(p, f) && KeyOf(p, f.owner) in SourcesOf(p)
    ensures forall j :: j in p.joins ==> Kept(p,
                                              j.left) && Kept(p, j.right) && KeyOf(p, j.left.owner) in SourcesOf(p)
                                                  && KeyOf(p, j.right.owner) in SourcesOf(p)
    ensures forall item, f :: item in p.filters && f in Leaves(item.pred) ==>
              Kept(p, f) && KeyOf(p, f.owner) in SourcesOf(p)
    ensures forall d :: d in p.decisions ==> Kept(p, d.partition) && KeyOf(p, d.partition.owner) in SourcesOf(p)
  {
    hide ValidFamilies, ValidFilters, JoinsAllowed, KeyOf, SourcesOf, FieldsOf;
    forall f | f in FieldsOf(p) ensures KeyOf(p, f.owner) in SourcesOf(p) {
      FieldKeyIsSource(p, f);
    }
    forall j | j in p.joins ensures j.left in FlatMentioned(p) && j.right in FlatMentioned(p) {
      FlatMapMember((j: JoinSpec) => [j.left, j.right], p.joins, j.left);
      FlatMapMember((j: JoinSpec) => [j.left, j.right], p.joins, j.right);
      assert j.left in [j.left, j.right] && j.right in [j.left, j.right];
    }
    forall item, f | item in p.filters && f in Leaves(item.pred) ensures f in FlatMentioned(p) {
      FlatMapMember((item: FilterSpec) => Leaves(item.pred), p.filters, f);
    }
    forall d | d in p.decisions ensures d.partition in FlatMentioned(p) {
      var i :| 0 <= i < |p.decisions| && p.decisions[i] == d;
      assert Map((d: Decision) => d.partition, p.decisions)[i] == d.partition;
    }
  }

  lemma AllOnSplit(first: OnCond, preds: seq<Pred<Field>>, p: Program, scope: Scope, c: Context)
    ensures AllOn([first] + Map((q: Pred<Field>) => Test(FlatPred(p, q)), preds), scope, c)
        <==> OnHolds(first, scope, c) && forall q :: q in preds ==> OnHolds(Test(FlatPred(p, q)), scope, c)
  {
    hide OnHolds, FlatPred;
    var tests := Map((q: Pred<Field>) => Test(FlatPred(p, q)), preds);
    var conds := [first] + tests;
    if AllOn(conds, scope, c) {
      assert conds[0] == first;
      forall q | q in preds ensures OnHolds(Test(FlatPred(p, q)), scope, c) {
        var i :| 0 <= i < |preds| && preds[i] == q;
        assert conds[i + 1] == tests[i];
      }
    }
    if OnHolds(first, scope, c) && forall q :: q in preds ==> OnHolds(Test(FlatPred(p, q)), scope, c) {
      forall i | 0 <= i < |conds| ensures OnHolds(conds[i], scope, c) {
        if i > 0 {
          assert conds[i] == tests[i - 1] && preds[i - 1] in preds;
        }
      }
    }
  }

  lemma ScopedMembers(p: Program, k: Key, q: Pred<Field>)
    ensures q in Scoped(p, k) <==>
              (exists item :: item in OnFilters(p, k) && item.pred == q)
                  || (exists d :: d in OnDecisions(p, k) && TemporalPred(d) == q)
  {
    hide TemporalPred, FilterSources;
    var items, decisions := OnFilters(p, k), OnDecisions(p, k);
    var fromItems, fromDecisions := Map((item: FilterSpec) => item.pred, items), Map(TemporalPred, decisions);
    if q in Scoped(p, k) {
      if q in fromItems {
        var i :| 0 <= i < |fromItems| && fromItems[i] == q;
        assert items[i] in items;
      } else {
        var i :| 0 <= i < |fromDecisions| && fromDecisions[i] == q;
        assert decisions[i] in decisions;
      }
    }
    if item :| item in items && item.pred == q {
      var i :| 0 <= i < |items| && items[i] == item;
      assert fromItems[i] == q;
    }
    if d :| d in decisions && TemporalPred(d) == q {
      var i :| 0 <= i < |decisions| && decisions[i] == d;
      assert fromDecisions[i] == q;
    }
  }

  lemma ScopedLeaves(p: Program, k: Key, q: Pred<Field>)
    requires ValidProgram(p) && q in Scoped(p, k)
    ensures forall f :: f in Leaves(q) ==> Kept(p, f) && KeyOf(p, f.owner) == k && k in SourcesOf(p)
  {
    hide ValidProgram, Kept, KeyOf, SourcesOf, TemporalPred, FilterSources, Scoped;
    KeptFields(p);
    ScopedMembers(p, k, q);
    if item :| item in OnFilters(p, k) && item.pred == q {
      forall f | f in Leaves(q) ensures KeyOf(p, f.owner) == k {
        FilterIsKnown(p, item, f);
      }
    } else {
      var d :| d in OnDecisions(p, k) && TemporalPred(d) == q;
      DecisionIsKnown(p, d);
      PeriodLeaf(d);
    }
  }

  lemma PeriodLeaf(d: Decision)
    ensures Leaves(TemporalPred(d)) == [d.partition]
  {
  }

  lemma ScopedHold(p: Program, world: World, k: Key, b: BaseRow)
    requires ValidProgram(p) && ValidWorld(world) && k in SourcesOf(p) && b in RawRows(p, world, k)
    ensures (forall q :: q in Scoped(p, k) ==> HoldsOn(p, world, q, Bind(map[], k)(b)))
        <==> OnFiltersHold(p, world, k, b) && (!IsFamily(p, k) ==> InPeriod(p, world, b))
  {
    hide ValidProgram, ValidWorld, HoldsOn, TemporalPred, InPeriod, RawRows, Scoped, IsFamily, OnDecisions;
    OnPeriod(p, world, k, b);
    var e: Env := Bind(map[], k)(b);
    assert e == map[k := Some(b)];
    forall q: Pred<Field> {
      ScopedMembers(p, k, q);
    }
    if forall q :: q in Scoped(p, k) ==> HoldsOn(p, world, q, e) {
      forall item | item in OnFilters(p, k) ensures HoldsOn(p, world, item.pred, e) {
        assert item.pred in Scoped(p, k);
      }
      forall d | d in OnDecisions(p, k) ensures HoldsOn(p, world, TemporalPred(d), e) {
        assert TemporalPred(d) in Scoped(p, k);
      }
    }
  }

  lemma HoldsAlone(p: Program, world: World, k: Key, b: BaseRow, q: Pred<Field>, e: Env)
    requires k in e && e[k] == Some(b) && forall f :: f in Leaves(q) ==> KeyOf(p, f.owner) == k
    ensures HoldsOn(p, world, q, e) == HoldsOn(p, world, q, Bind(map[], k)(b))
  {
    SameLookHoldsSame(p, world, q, e, Bind(map[], k)(b));
  }

  // The facts about a step that its ON clause needs.
  ghost predicate StepFits(p: Program, present: set<Key>, e: Env, s: Intro) {
    && s.edge < |p.joins| && s.source in SourcesOf(p) && s.source !in present && s.source !in e
    && KeyOf(p, NewField(p, s).owner) == s.source && KeyOf(p, OldField(p, s).owner) in present
    && (p.joins[s.edge].joinType != Inner ==> s.source in DirectedRights(p))
  }

  lemma EqualIsKeysMatch(p: Program, present: set<Key>, e: Env, s: Intro, b: BaseRow, c: Context)
    requires ValidProgram(p) && DistinctKeys(p) && StepFits(p, present, e, s)
    ensures var j := p.joins[s.edge];
            OnHolds(Equal(FieldRef(p, j.left), FieldRef(p, j.right)),
                    ScopeOf(p, present + {s.source}, e[s.source := Some(b)]), c)
              == KeysMatch(p, s, e, b)
  {
    hide ValidProgram, DistinctKeys, Kept, KeyOf, ScopeOf, SourcesOf, FieldRef, At, DirectedRights;
    var j := p.joins[s.edge];
    var d := e[s.source := Some(b)];
    assert j in p.joins;
    KeptFields(p);
    FieldAt(p, present + {s.source}, d, OldField(p, s));
    FieldAt(p, present + {s.source}, d, NewField(p, s));
    FieldAfterBind(p, e, s.source, Some(b), OldField(p, s));
    FieldAfterBind(p, e, s.source, Some(b), NewField(p, s));
    CompareCommutes(FieldValue(p, d, OldField(p, s)), FieldValue(p, d, NewField(p, s)));
  }

  lemma OnIsPushed(p: Program, world: World, present: set<Key>, e: Env, s: Intro, b: BaseRow, c: Context)
    requires ValidProgram(p) && ValidWorld(world) && DistinctKeys(p) && StepFits(p, present, e, s)
             && b in RawRows(p, world, s.source) && c.world == world
    ensures AllOn(OnOf(p, s), ScopeOf(p, present, e)[AliasOf(p, s.source) := RowCells(p, s.source, b)], c)
         == OnPushed(BeforeWhere(p), world, s, e, b)
  {
    hide ValidProgram, ValidWorld, DistinctKeys, Kept, KeyOf, ScopeOf, SourcesOf, FieldRef, At, AliasOf, RowCells,
         RawRows, Scoped, HoldsOn, FlatPred, IsFamily,
         OnFiltersHold, InPeriod, DirectedRights, BeforeWhere, AllOn, OnHolds, KeysMatch;
    var j := p.joins[s.edge];
    var d := e[s.source := Some(b)];
    var more := present + {s.source};
    var scope := ScopeOf(p, more, d);
    SameSources(p);
    ScopeGrows(p, present, e, s.source, Some(b));
    EqualIsKeysMatch(p, present, e, s, b, c);
    KeysMatchBefore(p, s, e, b);
    var preds := if j.joinType == Inner then [] else Scoped(p, s.source);
    OnSplit(p, s, scope, c);
    if j.joinType != Inner {
      forall q | q in preds
          ensures OnHolds(Test(FlatPred(p, q)), scope, c) == HoldsOn(p, world, q, Bind(map[], s.source)(b)) {
        ScopedLeaves(p, s.source, q);
        TestIs(p, world, more, d, q, c);
        HoldsAlone(p, world, s.source, b, q, d);
      }
      ScopedHold(p, world, s.source, b);
      OnFiltersBefore(p, world, s.source, b);
      PeriodOfDirected(p, world, s.source, b);
    }
  }

  lemma TestIs(p: Program, world: World, present: set<Key>, e: Env, q: Pred<Field>, c: Context)
    requires ValidProgram(p) && DistinctKeys(p) && c.world == world
    requires forall f :: f in Leaves(q) ==> Kept(p,
                                                 f) && KeyOf(p, f.owner) in present && KeyOf(p, f.owner) in SourcesOf(p)
    ensures OnHolds(Test(FlatPred(p, q)), ScopeOf(p, present, e), c) == HoldsOn(p, world, q, e)
    ensures WhereHolds(Holds(FlatPred(p, q)), ScopeOf(p, present, e), c) == HoldsOn(p, world, q, e)
  {
    hide ValidProgram, DistinctKeys, Kept, KeyOf, SourcesOf, ScopeOf, FlatPred, HoldsOn;
    PredAt(p, world, present, e, q);
  }

  lemma OnSplit(p: Program, s: Intro, scope: Scope, c: Context)
    requires s.edge < |p.joins|
    ensures var j := p.joins[s.edge];
            AllOn(OnOf(p, s), scope, c)
              == (OnHolds(Equal(FieldRef(p, j.left), FieldRef(p, j.right)), scope, c)
                  && (j.joinType != Inner ==> forall q :: q in Scoped(p, s.source) ==> OnHolds(Test(FlatPred(p, q)),
                                                                                               scope, c)))
  {
    hide FieldRef, OnHolds, FlatPred, Scoped, AllOn;
    var j := p.joins[s.edge];
    var first := Equal(FieldRef(p, j.left), FieldRef(p, j.right));
    AllOnSplit(first, Scoped(p, s.source), p, scope, c);
    AllOnSplit(first, [], p, scope, c);
    assert [first] + Map((q: Pred<Field>) => Test(FlatPred(p, q)), []) == [first] + [];
  }

  lemma KeysMatchBefore(p: Program, s: Intro, e: Env, b: BaseRow)
    requires s.edge < |p.joins|
    ensures KeysMatch(BeforeWhere(p), s, e, b) == KeysMatch(p, s, e, b)
  {
    SameFieldValue(p, e, OldField(p, s));
  }

  lemma PeriodOfDirected(p: Program, world: World, k: Key, b: BaseRow)
    requires ValidProgram(p) && ValidWorld(world) && k in SourcesOf(p) && k in DirectedRights(p)
             && b in RawRows(p, world, k)
    ensures InPeriod(BeforeWhere(p), world, b) == InPeriod(p, world, b)
  {
    hide ValidProgram, ValidWorld, RawRows, InPeriod;
    RowOfSource(p, world, k, b);
    PeriodBefore(p, world, b);
  }

  // ----- one step of the flat query -----

  lemma FlatPartnersAre(p: Program, world: World, present: set<Key>, e: Env, s: Intro, c: Context)
    requires ValidProgram(p) && ValidWorld(world) && DistinctKeys(p) && StepFits(p, present, e, s)
             && FlatContext(p, world, c)
    ensures var q := BeforeWhere(p);
            Partners(SourceFor(p, s.source), OnOf(p, s), ScopeOf(p, present, e), c) ==
            Map(CellsOf(p, s.source), Filter((b: BaseRow) =>
                                             OnPushed(q, world, s, e, b), PushedRows(q, world, s.source)))
  {
    hide ValidProgram, ValidWorld, DistinctKeys, KeyOf, ScopeOf, SourcesOf, AliasOf, RowCells, RawRows, OnOf,
         DirectedRights, BeforeWhere, AllOn, OnPushed, ScanKeeps, RelationFor, Rows, Map, Filter;
    var q := BeforeWhere(p);
    SameSources(p);
    var rows := PushedRows(q, world, s.source);
    var source := SourceFor(p, s.source);
    var scope := ScopeOf(p, present, e);
    var holds := (r: Row) => AllOn(OnOf(p, s), scope[source.alias := r], c);
    var on := (b: BaseRow) => OnPushed(q, world, s, e, b);
    PushedAreRaw(p, world, s.source);
    forall b | b in rows ensures on(b) == holds(CellsOf(p, s.source)(b)) {
      OnIsPushed(p, world, present, e, s, b, c);
    }
    FilterMap(holds, CellsOf(p, s.source), on, rows);
  }

  lemma PushedAreRaw(p: Program, world: World, k: Key)
    ensures forall b :: b in PushedRows(BeforeWhere(p), world, k) ==> b in RawRows(p, world, k)
  {
    SameRawRows(p, world, k);
  }

  function Outcome(p: Program, present: set<Key>): Env -> Scope {
    (e: Env) => ScopeOf(p, present, e)
  }

  // Bound scopes of matched rows.
  lemma BoundScopes(p: Program, present: set<Key>, e: Env, k: Key, matched: seq<BaseRow>)
    requires DistinctKeys(p) && k in SourcesOf(p) && k !in present && k !in e
    ensures Map((r: Row) => ScopeOf(p, present, e)[AliasOf(p, k) := r], Map(CellsOf(p, k), matched))
         == Map(Outcome(p, present + {k}), Map(Bind(e, k), matched))
  {
    hide DistinctKeys, ScopeOf, SourcesOf, AliasOf, RowCells, Map;
    var bound := (r: Row) => ScopeOf(p, present, e)[AliasOf(p, k) := r];
    var both := (b: BaseRow) => ScopeOf(p, present + {k}, Bind(e, k)(b));
    forall b | b in matched ensures both(b) == bound(CellsOf(p, k)(b)) {
      ScopeGrows(p, present, e, k, Some(b));
      assert Bind(e, k)(b) == e[k := Some(b)] && CellsOf(p, k)(b) == RowCells(p, k, b);
    }
    MapMap(CellsOf(p, k), bound, both, matched);
    MapMap(Bind(e, k), Outcome(p, present + {k}), both, matched);
  }

  lemma RightKeyIsDatum(p: Program, world: World, present: set<Key>, e: Env, s: Intro, b: BaseRow)
    requires ValidProgram(p) && DistinctKeys(p) && StepFits(p, present, e, s) && !s.flipped
             && OnPushed(BeforeWhere(p), world, s, e, b)
    ensures !At(ScopeOf(p, present + {s.source}, e[s.source := Some(b)]), FieldRef(p, p.joins[s.edge].right)).Null?
  {
    hide ValidProgram, DistinctKeys, KeyOf, ScopeOf, SourcesOf, FieldRef, At, DirectedRights, Kept, BeforeWhere;
    assert p.joins[s.edge] in p.joins;
    KeptFields(p);
    KeysMatchBefore(p, s, e, b);
    SameSources(p);
    FieldAt(p, present + {s.source}, e[s.source := Some(b)], NewField(p, s));
    FieldAfterBind(p, e, s.source, Some(b), NewField(p, s));
  }

  lemma PaddedKeyIsNull(p: Program, present: set<Key>, e: Env, s: Intro)
    requires ValidProgram(p) && DistinctKeys(p) && StepFits(p, present, e, s) && !s.flipped
    ensures At(ScopeOf(p, present + {s.source}, e), FieldRef(p, p.joins[s.edge].right)).Null?
  {
    hide ValidProgram, DistinctKeys, KeyOf, ScopeOf, SourcesOf, FieldRef, At, DirectedRights, Kept;
    assert p.joins[s.edge] in p.joins;
    KeptFields(p);
    FieldAt(p, present + {s.source}, e, NewField(p, s));
    AbsentIsNull(p, e, NewField(p, s));
  }

  lemma AbsentIsNull(p: Program, e: Env, f: Field)
    requires KeyOf(p, f.owner) !in e
    ensures FieldValue(p, e, f) == Null
  {
  }

  function StepAll(conds: seq<WhereCond>, c: Context): Scope -> bool {
    (scope: Scope) => AllWhere(conds, scope, c)
  }

  function Matched(p: Program, world: World, e: Env, s: Intro): seq<BaseRow>
    requires s.edge < |p.joins|
  {
    Filter((b: BaseRow) => OnPushed(p, world, s, e, b), PushedRows(p, world, s.source))
  }

  lemma ClauseScopes(p: Program, world: World, present: set<Key>, e: Env, s: Intro, c: Context)
    requires ValidProgram(p) && ValidWorld(world) && DistinctKeys(p) && StepFits(p, present, e, s)
             && FlatContext(p, world, c)
    requires !IsNotExists(p.joins[s.edge]) && s.edge < |BeforeWhere(p).joins|
    ensures var matched := Matched(BeforeWhere(p), world, e, s);
            JoinScope(ScopeOf(p, present, e), StepJoins(p, s)[0], c)
              == if p.joins[s.edge].joinType != Inner && matched == [] then [ScopeOf(p, present + {s.source}, e)]
                 else Map(Outcome(p, present + {s.source}), Map(Bind(e, s.source), matched))
  {
    hide ValidProgram, ValidWorld, DistinctKeys, KeyOf, ScopeOf, SourcesOf, AliasOf, RowCells, OnOf, DirectedRights,
         BeforeWhere, OnPushed, RelationFor, Partners, PushedRows, FlatContext, CellsOf;
    var q := BeforeWhere(p);
    FlatPartnersAre(p, world, present, e, s, c);
    var matched := Matched(q, world, e, s);
    var scope := ScopeOf(p, present, e);
    var clause := StepJoins(p, s)[0];
    BoundScopes(p, present, e, s.source, matched);
    ScopeGrows(p, present, e, s.source, None);
    MapCong((r: Row) => scope[clause.source.alias :=
                              r], (r: Row) => ScopeOf(p, present, e)[AliasOf(p, s.source) :=
                                  r], Map(CellsOf(p, s.source), matched));
  }

  lemma StepIsMatched(p: Program, world: World, e: Env, s: Intro)
    requires s.edge < |p.joins|
    ensures PushedStep(p, world, s, e) == JoinWith(p.joins[s.edge].joinType, s.source, e, Matched(p, world, e, s))
  {
  }

  lemma ExcludedScopes(p: Program, world: World, present: set<Key>, e: Env, s: Intro, c: Context)
    requires ValidProgram(p) && DistinctKeys(p) && StepFits(p, present, e, s) && s.edge < |BeforeWhere(p).joins|
    requires !IsNotExists(p.joins[s.edge]) && p.joins[s.edge].joinType == Anti && !s.flipped
    ensures var matched := Matched(BeforeWhere(p), world, e, s);
            var more := present + {s.source};
            && (forall d :: d in Map(Outcome(p, more), Map(Bind(e, s.source), matched)) ==>
                  !AllWhere(StepWhere(p, s), d, c))
            && AllWhere(StepWhere(p, s), ScopeOf(p, more, e), c)
  {
    hide ValidProgram, DistinctKeys, KeyOf, ScopeOf, SourcesOf, FieldRef, At, DirectedRights, BeforeWhere, OnPushed,
         PushedRows;
    var matched := Matched(BeforeWhere(p), world, e, s);
    var more := present + {s.source};
    PaddedKeyIsNull(p, present, e, s);
    var out := Map(Outcome(p, more), Map(Bind(e, s.source), matched));
    forall d | d in out ensures !AllWhere(StepWhere(p, s), d, c) {
      var i :| 0 <= i < |out| && out[i] == d;
      assert d == ScopeOf(p, more, e[s.source := Some(matched[i])]);
      assert matched[i] in matched;
      RightKeyIsDatum(p, world, present, e, s, matched[i]);
      NullTestFails(FieldRef(p, p.joins[s.edge].right), d, c);
    }
  }

  /** The FROM clause and the anti condition of one join, on the scope of one environment. */
  lemma JoinedScopes(p: Program, world: World, present: set<Key>, e: Env, s: Intro, c: Context)
    requires ValidProgram(p) && ValidWorld(world) && DistinctKeys(p) && StepFits(p, present, e, s)
             && FlatContext(p, world, c)
    requires !IsNotExists(p.joins[s.edge]) && (p.joins[s.edge].joinType != Inner ==> !s.flipped)
             && s.edge < |BeforeWhere(p).joins|
    ensures Filter(StepAll(StepWhere(p, s), c), JoinScope(ScopeOf(p, present, e), StepJoins(p, s)[0], c))
         == Map(Outcome(p, present + {s.source}), PushedStep(BeforeWhere(p), world, s, e))
  {
    hide ValidProgram, ValidWorld, DistinctKeys, KeyOf, ScopeOf, SourcesOf, AliasOf, BeforeWhere, FlatContext, Matched,
         JoinScope, OnOf, DirectedRights, PushedStep;
    var q := BeforeWhere(p);
    SameSources(p);
    ClauseScopes(p, world, present, e, s, c);
    StepIsMatched(q, world, e, s);
    var matched := Matched(q, world, e, s);
    var more := present + {s.source};
    var test := StepAll(StepWhere(p, s), c);
    var out := JoinScope(ScopeOf(p, present, e), StepJoins(p, s)[0], c);
    if p.joins[s.edge].joinType == Anti {
      ExcludedScopes(p, world, present, e, s, c);
      if matched == [] {
        assert Filter(test, [ScopeOf(p, more, e)]) == [ScopeOf(p, more, e)];
        assert Map(Outcome(p, more), [e]) == [ScopeOf(p, more, e)];
      } else {
        FilterNone(test, out);
      }
    } else {
      FilterAll(test, out);
      ScopeGrows(p, present, e, s.source, None);
      assert Map(Outcome(p, more), [e[s.source := None]]) == [ScopeOf(p, more, e[s.source := None])];
    }
  }

  lemma NullTestFails(column: ColRef, scope: Scope, c: Context)
    requires !At(scope, column).Null?
    ensures !AllWhere([IsNull(column)], scope, c)
  {
    assert !WhereHolds([IsNull(column)][0], scope, c);
  }

  // ----- later joins do not disturb earlier anti conditions -----

  lemma AllWhereSplit(first: seq<WhereCond>, second: seq<WhereCond>, scope: Scope, c: Context)
    ensures AllWhere(first + second, scope, c) <==> AllWhere(first, scope, c) && AllWhere(second, scope, c)
  {
    hide WhereHolds;
    var all := first + second;
    if AllWhere(all, scope, c) {
      forall i | 0 <= i < |first| ensures WhereHolds(first[i], scope, c) {
        assert all[i] == first[i];
      }
      forall i | 0 <= i < |second| ensures WhereHolds(second[i], scope, c) {
        assert all[|first| + i] == second[i];
      }
    }
  }

  predicate AgreeOn(p: Program, k: Key, a: Scope, b: Scope) {
    && (AliasOf(p, k) in a <==> AliasOf(p, k) in b)
    && (AliasOf(p, k) in a && AliasOf(p, k) in b ==> a[AliasOf(p, k)] == b[AliasOf(p, k)])
  }

  lemma TestFrame(p: Program, q: Pred<Field>, a: Scope, b: Scope, c: Context)
    requires forall f :: f in Leaves(q) ==> AgreeOn(p, KeyOf(p, f.owner), a, b)
    ensures OnHolds(Test(FlatPred(p, q)), a, c) == OnHolds(Test(FlatPred(p, q)), b, c)
  {
    hide AliasOf;
    var inner := (f: Field) => TypedLook(b)(FlatRef(p)(f));
    RenameKeepsTruth(q, FlatRef(p), TypedLook(a), inner, c.world.literal);
    RenameKeepsTruth(q, FlatRef(p), TypedLook(b), inner, c.world.literal);
  }

  lemma OnFrame(p: Program, s: Intro, a: Scope, b: Scope, c: Context)
    requires ValidProgram(p) && s.edge < |p.joins|
    requires AgreeOn(p, KeyOf(p, p.joins[s.edge].left.owner), a, b)
             && AgreeOn(p, KeyOf(p, p.joins[s.edge].right.owner), a, b)
    requires p.joins[s.edge].joinType != Inner ==> AgreeOn(p, s.source, a, b)
    ensures AllOn(OnOf(p, s), a, c) == AllOn(OnOf(p, s), b, c)
  {
    hide ValidProgram, KeyOf, AliasOf, OnOf, AllOn, FlatPred, Scoped, Kept, SourcesOf;
    OnSplit(p, s, a, c);
    OnSplit(p, s, b, c);
    if p.joins[s.edge].joinType != Inner {
      forall q | q in Scoped(p, s.source)
          ensures OnHolds(Test(FlatPred(p, q)), a, c) == OnHolds(Test(FlatPred(p, q)), b, c) {
        ScopedLeaves(p, s.source, q);
        TestFrame(p, q, a, b, c);
      }
    }
  }

  // One anti condition of an introduced source, when another source is bound.
  lemma StepFrame(p: Program, visited: set<Key>, s: Intro, k: Key, scope: Scope, r: Row, c: Context)
    requires ValidProgram(p) && DistinctKeys(p) && LegalStep(EdgesOf(p), SourcesOf(p), visited, s) && s.edge < |p.joins|
    requires visited <= SourcesOf(p) && k in SourcesOf(p) && k !in visited && k != s.source
    ensures AllWhere(StepWhere(p, s), scope[AliasOf(p, k) := r], c) == AllWhere(StepWhere(p, s), scope, c)
  {
    hide ValidProgram, DistinctKeys, LegalStep, KeyOf, AliasOf, OnOf, SourcesOf, DirectedRights, EdgesOf, RelationFor,
         AllOn, Rows, Filter;
    StepFacts(p, visited, s);
    var j := p.joins[s.edge];
    var more := scope[AliasOf(p, k) := r];
    if j.joinType == Anti {
      if AliasOf(p, k) == AliasOf(p, s.source) {
        AliasesDiffer(p, k, s.source);
      }
      if IsNotExists(j) {
        var source := SourceFor(p, s.source);
        var left := KeyOf(p, j.left.owner);
        if AliasOf(p, k) == AliasOf(p, left) {
          AliasesDiffer(p, k, left);
        }
        forall row | row in Rows(source.relation, c)
            ensures AllOn(OnOf(p, s), more[source.alias := row], c)
                    == AllOn(OnOf(p, s), scope[source.alias := row], c) {
          OnFrame(p, s, more[source.alias := row], scope[source.alias := row], c);
        }
        FilterCong((row: Row) => AllOn(OnOf(p, s), more[source.alias := row],
                                       c), (row: Row) => AllOn(OnOf(p, s), scope[source.alias := row],
                                           c), Rows(source.relation, c));
        assert Partners(source, OnOf(p, s), more, c) == Partners(source, OnOf(p, s), scope, c);
        OneWhere(NotExists(source, OnOf(p, s)), more, scope, c);
      } else {
        OneWhere(IsNull(FieldRef(p, j.right)), more, scope, c);
      }
    }
  }

  lemma OneWhere(cond: WhereCond, a: Scope, b: Scope, c: Context)
    requires WhereHolds(cond, a, c) == WhereHolds(cond, b, c)
    ensures AllWhere([cond], a, c) == AllWhere([cond], b, c)
  {
    assert [cond][0] == cond;
  }

  lemma {:induction false} AntisFrame(p: Program, root: Key, order: seq<Intro>, k: Key, scope: Scope, r: Row,
          c: Context)
    requires ValidProgram(p) && DistinctKeys(p) && LegalPrefix(p, root, order) && EdgesKnown(p, order)
    requires k in SourcesOf(p) && k !in Reached({root}, order)
    ensures AllWhere(FlatAntis(p, order), scope[AliasOf(p, k) := r], c) == AllWhere(FlatAntis(p, order), scope, c)
    decreases |order|
  {
    hide ValidProgram, DistinctKeys, LegalStep, AliasOf, SourcesOf, EdgesOf, AllWhere, StepWhere, LegalPrefix, Reached;
    if order == [] {
      NoCondition(scope[AliasOf(p, k) := r], scope, c);
    } else {
      var n := |order| - 1;
      var s := order[n];
      assert s in order;
      LegalPrefixShorter(p, root, order);
      ReachedAreSources(p, root, order[..n]);
      AntisFrame(p, root, order[..n], k, scope, r, c);
      StepFrame(p, Reached({root}, order[..n]), s, k, scope, r, c);
      AllWhereSplit(FlatAntis(p, order[..n]), StepWhere(p, s), scope, c);
      AllWhereSplit(FlatAntis(p, order[..n]), StepWhere(p, s), scope[AliasOf(p, k) := r], c);
    }
  }

  lemma NoCondition(a: Scope, b: Scope, c: Context)
    ensures AllWhere([], a, c) && AllWhere([], b, c)
  {
  }

  lemma ReachedAreSources(p: Program, root: Key, order: seq<Intro>)
    requires LegalPrefix(p, root, order)
    ensures Reached({root}, order) <= SourcesOf(p)
  {
    forall k | k in Reached({root}, order) ensures k in SourcesOf(p) {
      if k != root {
        var s :| s in order && s.source == k;
        var i :| 0 <= i < |order| && order[i] == s;
        StepFacts(p, Reached({root}, order[..i]), s);
      }
    }
  }

  // ----- all joins -----

  /** Sources that have an alias in FROM: all but those excluded by NOT EXISTS. */
  function Present(p: Program, root: Key, order: seq<Intro>): set<Key>
    requires EdgesKnown(p, order)
  {
    if order == [] then {root}
    else
      var s := order[|order| - 1];
      assert s in order;
      Present(p, root, order[..|order| - 1]) + if IsNotExists(p.joins[s.edge]) then {} else {s.source}
  }

  lemma {:induction false} PresentBounds(p: Program, root: Key, order: seq<Intro>)
    requires JoinsAllowed(p) && LegalPrefix(p, root, order) && EdgesKnown(p, order)
    ensures Reached({root}, order) - AntiRights(p) <= Present(p, root, order) <= Reached({root}, order)
    decreases |order|
  {
    hide LegalStep, LegalPrefix, AntiRights, JoinsAllowed, Reached;
    if order == [] {
      StartReached(root);
    } else {
      var n := |order| - 1;
      assert order[n] in order;
      LegalPrefixShorter(p, root, order);
      PresentBounds(p, root, order[..n]);
      StepFacts(p, Reached({root}, order[..n]), order[n]);
    }
  }

  lemma StartReached(root: Key)
    ensures Reached({root}, []) == {root}
  {
  }

  lemma StepFitsChain(p: Program, world: World, root: Key, order: seq<Intro>, e: Env)
    requires ValidProgram(p) && LegalPrefix(p, root, order) && order != [] && EdgesKnown(p, order)
             && EdgesKnown(p, order[..|order| - 1])
    requires EdgesKnown(BeforeWhere(p), order[..|order| - 1])
    requires e in PushedChain(BeforeWhere(p), world, root, order[..|order| - 1])
    ensures var s := order[|order| - 1];
            s.edge < |p.joins| && StepFits(p, Present(p, root, order[..|order| - 1]), e, s)
                && (p.joins[s.edge].joinType != Inner ==> !s.flipped)
  {
    hide ValidCatalog, ValidFamilies, FieldsKnown, ValidFilters, JoinsAllowed, LegalStep, LegalPrefix, AntiRights,
         DirectedRights, Reached, BeforeWhere, SourcesOf, KeyOf, PushedChain;
    var n := |order| - 1;
    LegalPrefixShorter(p, root, order);
    PresentBounds(p, root, order[..n]);
    StepFacts(p, Reached({root}, order[..n]), order[n]);
    OldIsBound(p, Reached({root}, order[..n]), order[n]);
    JoinsAllowedBefore(p);
    SameLegal(p, root, order[..n]);
    ChainKeys(BeforeWhere(p), world, root, order[..n]);
    SameSources(p);
  }

  lemma StartScopes(p: Program, world: World, root: Key, c: Context)
    requires DistinctKeys(p) && root in SourcesOf(p) && FlatContext(p, world, c)
    ensures FromScopes(SourceFor(p, root), [], c)
            == Map(Outcome(p, {root}), StartEnvs(root, PushedRows(BeforeWhere(p), world, root)))
  {
    hide DistinctKeys, ScopeOf, SourcesOf, AliasOf, RowCells, BeforeWhere, PushedRows, RelationFor, Rows, Map;
    var rows := PushedRows(BeforeWhere(p), world, root);
    var none: Env := map[];
    NoScope(p, none);
    var alias := AliasOf(p, root);
    var bound := (r: Row) => map[alias := r];
    var both := (b: BaseRow) => ScopeOf(p, {root}, Bind(map[], root)(b));
    forall b | b in rows ensures both(b) == bound(CellsOf(p, root)(b)) {
      ScopeGrows(p, {}, none, root, Some(b));
      assert {} + {root} == {root};
      assert Bind(map[], root)(b) == none[root := Some(b)] && CellsOf(p, root)(b) == RowCells(p, root, b);
    }
    MapMap(CellsOf(p, root), bound, both, rows);
    MapMap(Bind(map[], root), Outcome(p, {root}), both, rows);
    MapCong((r: Row) => map[SourceFor(p, root).alias := r], bound, Map(CellsOf(p, root), rows));
  }

  lemma NoScope(p: Program, e: Env)
    ensures ScopeOf(p, {}, e) == map[]
  {
  }
}
