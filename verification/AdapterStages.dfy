/** What the adapter has built after each of its stages, seen through the meaning of the nodes so far. */
module AdapterStages {
  import opened SeqOps
  import opened Sql
  import opened RelationalPlan
  import opened PlanCompilation
  import opened JoinOrder
  import opened InferredProgram
  import opened ProgramMeaning
  import opened ProgramAnswers
  import opened ColumnNaming
  import opened AdapterPlan
  import opened AdapterLayout
  import opened AdapterNodes
  import opened AdapterJoins

  // ----- growing a list of nodes -----

  datatype Counts = Counts(scans: nat, filters: nat, unions: nat, families: nat, joins: nat)

  /** Identifiers of a kind are taken below this index. */
  function Limit(c: Counts, kind: NodeKind): nat {
    match kind
    case ScanId => c.scans + 1
    case FilterId => c.filters + 1
    case UnionId => c.unions + 1
    case FamilyId => c.families + 1
    case JoinId => c.joins + 1
    case _ => 0
  }

  function EnvOf(p: Program, world: World, nodes: seq<Node>): map<NodeId, Rel> {
    var env := Meaning(nodes, p.objects, world);
    if env.None? then map[] else env.value
  }

  /** Valid so far, without a result step, with identifiers below their counters. */
  ghost predicate Ready(p: Program, world: World, nodes: seq<Node>, c: Counts) {
    && Meaning(nodes, p.objects, world).Some? && ResultSteps(nodes) == [] && DistinctJoinInputs(nodes)
    && forall id :: id in EnvOf(p, world, nodes) ==> id.index < Limit(c, id.kind)
  }

  lemma Extend(p: Program, world: World, nodes: seq<Node>, c: Counts, node: Node, c': Counts, schema: Schema)
    requires Ready(p, world, nodes, c) && Limit(c, node.id.kind) <= node.id.index < Limit(c', node.id.kind)
    requires forall kind :: Limit(c, kind) <= Limit(c', kind)
    requires WellFormed(node) && (node.MaterializeNode? ==> node.kind == Intermediate)
             && (node.JoinNode? ==> node.left != node.right)
    requires ValidateNode(node, p.objects, Schemas(EnvOf(p, world, nodes))) == Some(schema)
    ensures Ready(p, world, nodes + [node], c')
    ensures var env := EnvOf(p, world, nodes);
            && node.id !in env
            && EnvOf(p, world, nodes + [node]) == env[node.id := Rel(schema, NodeRows(node, p.objects, world, env))]
  {
    hide ValidateNode, NodeRows, Meaning, WellFormed;
    MeaningSnoc(nodes, node, p.objects, world);
    assert (nodes + [node])[..|nodes|] == nodes;
  }

  // ----- scans -----

  function SourceAt(p: Program, key: Key): Key {
    if IsFamily(p, key) then key else KeyOf(p, key)
  }

  function KeptRows(p: Program, world: World, source: Key): Ref -> seq<BaseRow> {
    (m: Ref) => Filter((b: BaseRow) => ScanKeeps(p, world, source, b), Stored(world, m))
  }

  function PlacedRows(p: Program, world: World, key: Key): seq<BaseRow> {
    if IsFamily(p, key) then PushedRows(p, world, key) else KeptRows(p, world, KeyOf(p, key))(key)
  }

  function PlaceRel(p: Program, layout: Layout, world: World, key: Key): Rel {
    Represent(layout, {SourceAt(p, key)}, StartEnvs(SourceAt(p, key), PlacedRows(p, world, key)))
  }

  /** Every placed table or family has a node of its own that denotes its filtered rows. */
  ghost predicate PlacesHold(p: Program, layout: Layout, world: World, place: map<Key, NodeId>, env: map<NodeId, Rel>) {
    && (forall k :: k in place ==> place[k] in env && env[place[k]] == PlaceRel(p, layout, world, k))
    && (forall k, l :: k in place && l in place && place[k] == place[l] ==> k == l)
  }

  lemma PlacesGrow(p: Program, layout: Layout, world: World, place: map<Key, NodeId>, env: map<NodeId, Rel>,
          id: NodeId, rel: Rel, key: Key)
    requires PlacesHold(p, layout, world, place, env) && id !in env && key !in place
             && rel == PlaceRel(p, layout, world, key)
    ensures PlacesHold(p, layout, world, place[key := id], env[id := rel])
  {
    hide PlaceRel;
  }

  lemma PlacesStay(p: Program, layout: Layout, world: World, place: map<Key, NodeId>, env: map<NodeId, Rel>,
          id: NodeId, rel: Rel)
    requires PlacesHold(p, layout, world, place, env) && id !in env
    ensures PlacesHold(p, layout, world, place, env[id := rel])
  {
    hide PlaceRel;
  }

  // Filters and periods placed at a scan are what the pushed-down reading keeps there.
  lemma ScanKeepsIs(p: Program, world: World, o: TableObject, b: BaseRow)
    requires ValidProgram(p) && o in p.objects && b.table == o.ref
    ensures AllHoldOn(p, world, ScanFilters(p, o), ScanDecisions(p, o), Bind(map[], KeyOf(p, o.ref))(b))
            == ScanKeeps(p, world, KeyOf(p, o.ref), b)
  {
    hide ValidProgram, HoldsOn, TemporalPred, KeyOf, IsFamily, DirectedRights, IsScanFilter;
    var source := KeyOf(p, o.ref);
    var e := Bind(map[], source)(b);
    assert e == map[source := Some(b)] && e == Alone(p, b);
    assert o.ref in Refs(p.objects);
    FamilyIsNoTable(p, o.ref);
    if AllHoldOn(p, world, ScanFilters(p, o), ScanDecisions(p, o), e) {
      forall item | item in p.filters && IsScanFilter(p, item, source) ensures HoldsOn(p, world, item.pred, e) {
        assert item in ScanFilters(p, o);
      }
      if source !in DirectedRights(p) || IsFamily(p, source) {
        forall d | d in p.decisions && d.owner == b.table ensures HoldsOn(p, world, TemporalPred(d), e) {
          assert d in ScanDecisions(p, o);
        }
      }
    }
  }

  lemma ScanIsReadable(p: Program, names: Naming, o: TableObject)
    requires ValidProgram(p) && GoodNaming(p, names)
    ensures Readable(p, names, {KeyOf(p, o.ref)}, ScanFilters(p, o), ScanDecisions(p, o))
  {
    hide ValidProgram, GoodNaming, FieldsOf, Mentioned, KeyOf, FilterSources, DirectedRights;
    FiltersShaped(p, names);
    forall item, f | item in ScanFilters(p, o) && f in Leaves(item.pred)
        ensures f in names && KeyOf(p, f.owner) in {KeyOf(p, o.ref)} {
      FilterIsKnown(p, item, f);
    }
    forall d | d in ScanDecisions(p, o)
        ensures d.partition in names && KeyOf(p, d.partition.owner) in {KeyOf(p, o.ref)} {
      DecisionIsKnown(p, d);
    }
  }

  function KeepsBound(p: Program, world: World, source: Key): Env -> bool {
    (e: Env) => source in e && e[source].Some? && ScanKeeps(p, world, source, e[source].value)
  }

  lemma KeptStart(p: Program, world: World, source: Key, rows: seq<BaseRow>)
    ensures Filter(KeepsBound(p, world, source), StartEnvs(source, rows))
         == StartEnvs(source, Filter((b: BaseRow) => ScanKeeps(p, world, source, b), rows))
  {
    hide ScanKeeps;
    FilterMap(KeepsBound(p, world, source), Bind(map[], source), (b: BaseRow) => ScanKeeps(p, world, source, b), rows);
  }

  lemma StoredHere(world: World, table: Ref, b: BaseRow)
    requires ValidWorld(world) && b in Stored(world, table)
    ensures b.table == table
  {
  }

  lemma StartAllKept(p: Program, world: World, o: TableObject, e: Env)
    requires ValidProgram(p) && ValidWorld(world) && o in p.objects
             && e in StartEnvs(KeyOf(p, o.ref), Stored(world, o.ref))
    ensures KeepsBound(p, world, KeyOf(p, o.ref))(e) == AllHoldOn(p, world, ScanFilters(p, o), ScanDecisions(p, o), e)
  {
    hide ValidProgram, ValidWorld, AllHoldOn, ScanKeeps, KeyOf, Stored;
    var source, rows := KeyOf(p, o.ref), Stored(world, o.ref);
    var i :| 0 <= i < |rows| && StartEnvs(source, rows)[i] == e;
    assert rows[i] in rows && e == Bind(map[], source)(rows[i]);
    StoredHere(world, o.ref, rows[i]);
    ScanKeepsIs(p, world, o, rows[i]);
  }

  lemma ScanPredicatesPlaced(p: Program, names: Naming, id: NodeId, o: TableObject)
    ensures ScanPredicates(p, names, id, o) == Placed(names, id, ScanFilters(p, o), ScanDecisions(p, o))
    ensures ScanPredicates(p, names, id, o) == [] <==> ScanFilters(p, o) == [] && ScanDecisions(p, o) == []
  {
    assert |ScanPredicates(p, names, id, o)| == |ScanFilters(p, o)| + |ScanDecisions(p, o)|;
  }

  lemma TableRel(p: Program, layout: Layout, world: World, o: TableObject)
    requires ValidProgram(p) && o in p.objects
    ensures var source := KeyOf(p, o.ref);
            PlaceRel(p, layout, world, o.ref) ==
            Represent(layout, {source}, Filter(KeepsBound(p, world, source), StartEnvs(source, Stored(world, o.ref))))
  {
    hide ValidCatalog, FieldsKnown, ValidFilters, JoinsAllowed, ScanKeeps, KeyOf, StartEnvs, Represent, KeepsBound;
    assert o.ref in Refs(p.objects);
    assert !IsFamily(p, o.ref);
    KeptStart(p, world, KeyOf(p, o.ref), Stored(world, o.ref));
  }

  ghost predicate ScansHold(p: Program, layout: Layout, world: World, st: Scans, c: Counts) {
    Ready(p, world, st.nodes, c) && c.filters == st.filters
        && PlacesHold(p, layout, world, st.place, EnvOf(p, world, st.nodes))
  }

  // One scan, with its filter node when something is pushed to it.
  lemma AddScanHolds(p: Program, names: Naming, layout: Layout, world: World, st: Scans, c: Counts, o: TableObject)
    requires Setting(p, names, layout, world) && ScansHold(p, layout, world, st, c) && o in p.objects
             && o.ref !in st.place
    requires NeededFields(names, o) != []
    ensures AddScan(p, names, st, c.scans + 1, o).Some?
    ensures var next := AddScan(p, names, st, c.scans + 1, o).value;
            ScansHold(p, layout, world, next, c.(scans := c.scans + 1, filters := next.filters))
                && next.place.Keys == st.place.Keys + {o.ref}
  {
    hide ValidProgram, ValidWorld, GoodNaming, IsLayout, Ready, PlacesHold, KeyOf, Represent, StartEnvs, KeepsBound,
         ValidateNode, NodeRows, WellFormed, ScanPredicates, ScanFilters, ScanDecisions, Placed, AllHoldOn, Readable,
             PlaceRel, SchemaFor, RowsOf, EnvOf, Schemas, NeededFields;
    var source := KeyOf(p, o.ref);
    var scan := NodeId(ScanId, c.scans + 1);
    var env := EnvOf(p, world, st.nodes);
    var c1 := c.(scans := c.scans + 1);
    var envs := StartEnvs(source, Stored(world, o.ref));
    ScanNodeFits(p, names, layout, scan, o, Schemas(env));
    ScanDenotes(p, names, layout, world, scan, o, env);
    Extend(p, world, st.nodes, c, ScanOf(names, scan, o), c1, SchemaFor(layout, {source}));
    var nodes1 := st.nodes + [ScanOf(names, scan, o)];
    var env1 := EnvOf(p, world, nodes1);
    RelIs(layout, {source}, envs);
    assert env1 == env[scan := Represent(layout, {source}, envs)];
    TableRel(p, layout, world, o);
    ScanPredicatesPlaced(p, names, scan, o);
    forall e | e in envs
        ensures KeepsBound(p, world, source)(e) == AllHoldOn(p, world, ScanFilters(p, o), ScanDecisions(p, o), e) {
      StartAllKept(p, world, o, e);
    }
    if ScanPredicates(p, names, scan, o) == [] {
      forall e | e in envs ensures KeepsBound(p, world, source)(e) {
        NothingToHold(p, world, e);
      }
      FilterAll(KeepsBound(p, world, source), envs);
      PlacesGrow(p, layout, world, st.place, env, scan, Represent(layout, {source}, envs), o.ref);
    } else {
      var filter := NodeId(FilterId, st.filters + 1);
      var node := FilterNode(filter, scan, ScanPredicates(p, names, scan, o));
      StartKeys(source, Stored(world, o.ref));
      ScanIsReadable(p, names, o);
      FilterDenotes(p, names, layout, world, filter, scan, {source}, envs, ScanFilters(p, o), ScanDecisions(p, o),
                    KeepsBound(p, world, source), env1);
      Extend(p, world, nodes1, c1, node, c1.(filters := st.filters + 1), SchemaFor(layout, {source}));
      RelIs(layout, {source}, Filter(KeepsBound(p, world, source), envs));
      PlacesStay(p, layout, world, st.place, env, scan, Represent(layout, {source}, envs));
      PlacesGrow(p, layout, world, st.place, env1, filter, PlaceRel(p, layout, world, o.ref), o.ref);
    }
  }

  lemma RelIs(layout: Layout, keys: set<Key>, envs: seq<Env>)
    ensures Represent(layout, keys, envs) == Rel(SchemaFor(layout, keys), RowsOf(layout, envs))
  {
  }

  lemma NothingToHold(p: Program, world: World, e: Env)
    ensures AllHoldOn(p, world, [], [], e)
  {
  }

  lemma ScanNodeFits(p: Program, names: Naming, layout: Layout, id: NodeId, o: TableObject,
          schemas: map<NodeId, Schema>)
    requires ValidProgram(p) && GoodNaming(p, names) && IsLayout(p, names, layout) && o in p.objects
             && NeededFields(names, o) != []
    ensures WellFormed(ScanOf(names, id, o)) && ScanOf(names, id, o).id == id && ScanOf(names, id, o).ScanNode?
    ensures ValidateNode(ScanOf(names, id, o), p.objects, schemas) == Some(SchemaFor(layout, {KeyOf(p, o.ref)}))
  {
    hide ValidProgram, GoodNaming, IsLayout, ValidateNode, KeyOf, SchemaFor;
    ScanIsValid(p, names, layout, id, o, schemas);
  }

  lemma SortedIsSame(p: Program)
    requires ValidProgram(p)
    ensures |SortedObjects(p)| == |p.objects|
    ensures forall o :: o in SortedObjects(p) <==> o in p.objects
    ensures UniqueObjects(SortedObjects(p))
  {
    hide ValidFamilies, FieldsKnown, ValidFilters, JoinsAllowed, NoDup, SortBy;
    var sorted := SortedObjects(p);
    SameBagSameMembers(p.objects, sorted);
    ObjectsDiffer(p.objects);
    OneObjectEach(p.objects, sorted);
  }

  lemma ObjectsDiffer(objects: seq<TableObject>)
    requires UniqueObjects(objects)
    ensures NoDup(objects) && forall o, q :: o in objects && q in objects && o.ref == q.ref ==> o == q
  {
    forall i, j | 0 <= i < j < |objects| ensures objects[i] != objects[j] {
      assert objects[i].ref != objects[j].ref;
    }
  }

  lemma OneObjectEach(objects: seq<TableObject>, sorted: seq<TableObject>)
    requires NoDup(sorted) && forall o :: o in sorted <==> o in objects
    requires forall o, q :: o in objects && q in objects && o.ref == q.ref ==> o == q
    ensures UniqueObjects(sorted)
  {
    forall i, j | 0 <= i < j < |sorted| ensures sorted[i].ref != sorted[j].ref {
      assert sorted[i] in objects && sorted[j] in objects;
    }
  }

  function FirstRefs(p: Program, k: nat): set<Key>
    requires k <= |SortedObjects(p)|
  {
    set i | 0 <= i < k :: SortedObjects(p)[i].ref
  }

  ghost predicate AllScanned(p: Program, names: Naming) {
    forall o :: o in p.objects ==> NeededFields(names, o) != []
  }

  lemma NothingScanned(p: Program, layout: Layout, world: World)
    ensures ScansHold(p, layout, world, Scans([], 0, map[]), Counts(0, 0, 0, 0, 0))
  {
  }

  lemma {:induction false} ScansUpToHold(p: Program, names: Naming, layout: Layout, world: World, k: nat)
    requires Setting(p, names, layout, world) && AllScanned(p, names) && k <= |SortedObjects(p)|
    ensures ScansUpTo(p, names, k).Some?
    ensures var st := ScansUpTo(p, names, k).value;
            ScansHold(p, layout, world, st, Counts(k, st.filters, 0, 0, 0)) && st.place.Keys == FirstRefs(p, k)
  {
    hide ValidProgram, ValidWorld, GoodNaming, IsLayout, AddScan, NeededFields, SortedObjects, ScansHold;
    SortedIsSame(p);
    if k == 0 {
      NothingScanned(p, layout, world);
    } else {
      ScansUpToHold(p, names, layout, world, k - 1);
      var st := ScansUpTo(p, names, k - 1).value;
      var o := SortedObjects(p)[k - 1];
      assert o in SortedObjects(p);
      forall i | 0 <= i < k - 1 ensures SortedObjects(p)[i].ref != o.ref {
      }
      AddScanHolds(p, names, layout, world, st, Counts(k - 1, st.filters, 0, 0, 0), o);
      assert FirstRefs(p, k) == FirstRefs(p, k - 1) + {o.ref};
    }
  }

  // ----- families -----

  lemma MembersAre(p: Program, family: Family)
    requires ValidFamilies(p) && family in p.families
    ensures MembersOf(p.families, family.ref) == Some(family.members)
  {
    MembersFound(p.families, family.ref);
    var f :| f in p.families && f.ref == family.ref && Some(f.members) == MembersOf(p.families, family.ref);
    SameFamily(p, f, family);
  }

  lemma FamilyRel(p: Program, layout: Layout, world: World, family: Family)
    requires ValidProgram(p) && family in p.families
    ensures PlaceRel(p, layout, world, family.ref)
         == Represent(layout, {family.ref},
                      StartEnvs(family.ref, FlatMap(KeptRows(p, world, family.ref), family.members)))
  {
    hide ValidCatalog, FieldsKnown, ValidFilters, JoinsAllowed, ValidFamilies, ScanKeeps, StartEnvs, Represent, Stored;
    MembersAre(p, family);
    var keep := (b: BaseRow) => ScanKeeps(p, world, family.ref, b);
    var stored := (m: Ref) => Stored(world, m);
    FilterAll((m: Ref) => true, family.members);
    FilterFlatMap(keep, stored, (m: Ref) => true, KeptRows(p, world, family.ref), family.members);
    assert RawRows(p, world, family.ref) == FlatMap(stored, family.members);
  }

  lemma MemberRel(p: Program, layout: Layout, world: World, family: Family, m: Ref)
    requires ValidProgram(p) && family in p.families && m in family.members
    ensures PlaceRel(p, layout, world, m)
            == Represent(layout, {family.ref}, StartEnvs(family.ref, KeptRows(p, world, family.ref)(m)))
  {
    hide ValidCatalog, FieldsKnown, ValidFilters, JoinsAllowed, ScanKeeps, StartEnvs, Represent, Stored, KeyOf,
         KeptRows;
    MemberKey(p, family, m);
    assert m in Refs(p.objects);
    assert !IsFamily(p, m);
  }

  lemma UnionFits(p: Program, names: Naming, layout: Layout, world: World, place: map<Key, NodeId>, id: NodeId,
          family: Family, env: map<NodeId, Rel>)
    requires Setting(p, names, layout, world) && AllScanned(p, names) && family in p.families
    requires PlacesHold(p, layout, world, place, env) && forall m :: m in family.members ==> m in place
    ensures var node := FamilyUnion(p, names, place, id, family);
            && WellFormed(node) && node.id == id && node.UnionNode?
            && ValidateNode(node, p.objects, Schemas(env)) == Some(SchemaFor(layout, {family.ref}))
            && Rel(SchemaFor(layout, {family.ref}), NodeRows(node, p.objects, world, env))
                == PlaceRel(p, layout, world, family.ref)
  {
    hide ValidProgram, ValidWorld, GoodNaming, IsLayout, SchemaFor, RowsOf, StartEnvs, KeptRows, PlaceRel,
         CarriesExactly, ValidateNode, FamilyColumns, UnitedRows, UnitedColumn, AllScanned;
    var node := FamilyUnion(p, names, place, id, family);
    var columns := FamilyColumns(p, names, family);
    FamilyCarries(p, names, layout, family);
    FamilySize(p, names, family);
    forall i | 0 <= i < |family.members|
      ensures node.inputs[i] in env
      ensures env[node.inputs[i]] == Represent(layout, {family.ref},
                                               StartEnvs(family.ref, KeptRows(p, world,
                                                                              family.ref)(family.members[i]))) {
      var m := family.members[i];
      assert m in family.members;
      MemberRel(p, layout, world, family, m);
    }
    forall i | i in node.inputs ensures i in Schemas(env) && Schemas(env)[i] == SchemaFor(layout, {family.ref}) {
      var k :| 0 <= k < |node.inputs| && node.inputs[k] == i;
    }
    UnionIsValid(p, layout, id, {family.ref}, node.inputs, columns, Schemas(env));
    UnionDenotes(layout, family.ref, node, columns, |node.inputs|, family.members, KeptRows(p, world, family.ref), env);
    assert family.members[..|node.inputs|] == family.members;
    FamilyRel(p, layout, world, family);
  }

  lemma FamilySize(p: Program, names: Naming, family: Family)
    requires ValidProgram(p) && AllScanned(p, names) && family in p.families
    ensures |family.members| >= 2 && |FamilyColumns(p, names, family)| >= 1
  {
    hide ValidCatalog, FieldsKnown, ValidFilters, JoinsAllowed, NeededFields;
    var m := family.members[0];
    assert m in family.members;
    var o := MemberObject(p, family, m);
    assert UniqueObjects(p.objects) by { UniqueInCatalog(p); }
    FindObjectOf(p.objects, o);
    SameBagSameMembers(ColumnsOf(names, o), FamilyColumns(p, names, family));
  }

  lemma UniqueInCatalog(p: Program)
    requires ValidCatalog(p.objects)
    ensures UniqueObjects(p.objects)
  {
  }

  lemma StoreFits(p: Program, id: NodeId, input: NodeId, world: World, env: map<NodeId, Rel>)
    requires input in env
    ensures var node := MaterializeNode(id, input, Intermediate);
            && WellFormed(node) && ValidateNode(node, p.objects, Schemas(env)) == Some(env[input].schema)
            && NodeRows(node, p.objects, world, env) == env[input].rows
  {
  }

  lemma AddFamilyHolds(p: Program, names: Naming, layout: Layout, world: World, st: Scans, c: Counts, family: Family)
    requires Setting(p, names, layout, world) && AllScanned(p, names) && ScansHold(p, layout, world, st, c)
             && family in p.families
    requires family.ref !in st.place && forall m :: m in family.members ==> m in st.place
    requires c.unions == c.families
    ensures var next := AddFamily(p, names, st, c.families + 1, family);
            && ScansHold(p, layout, world, next, c.(unions := c.unions + 1, families := c.families + 1))
            && next.place.Keys == st.place.Keys + {family.ref}
  {
    hide Setting, AllScanned, Ready, PlacesHold, PlaceRel, EnvOf, Schemas, FamilyUnion, WellFormed, ValidateNode,
         NodeRows, SchemaFor;
    var union, stored := NodeId(UnionId, c.families + 1), NodeId(FamilyId, c.families + 1);
    var env := EnvOf(p, world, st.nodes);
    UnionFits(p, names, layout, world, st.place, union, family, env);
    var node := FamilyUnion(p, names, st.place, union, family);
    var c1 := c.(unions := c.unions + 1);
    Extend(p, world, st.nodes, c, node, c1, SchemaFor(layout, {family.ref}));
    var nodes1 := st.nodes + [node];
    var env1 := EnvOf(p, world, nodes1);
    StoreFits(p, stored, union, world, env1);
    Extend(p, world, nodes1, c1, MaterializeNode(stored, union, Intermediate), c1.(families := c.families + 1),
           env1[union].schema);
    PlacesStay(p, layout, world, st.place, env, union, env1[union]);
    PlacesGrow(p, layout, world, st.place, env1, stored, env1[union], family.ref);
  }

  function FirstFamilies(p: Program, k: nat): set<Key>
    requires k <= |p.families|
  {
    set i | 0 <= i < k :: p.families[i].ref
  }

  lemma FamilyRefIsNew(p: Program, k: nat)
    requires ValidProgram(p) && k < |p.families|
    ensures p.families[k].ref !in Refs(p.objects) + FirstFamilies(p, k)
    ensures forall m :: m in p.families[k].members ==> m in Refs(p.objects)
    ensures FirstFamilies(p, k + 1) == FirstFamilies(p, k) + {p.families[k].ref}
  {
    hide ValidCatalog, FieldsKnown, ValidFilters, JoinsAllowed;
    assert p.families[k] in p.families;
  }

  lemma {:induction false} FamiliesUpToHold(p: Program, names: Naming, layout: Layout, world: World, st: Scans,
          c: Counts, k: nat)
    requires Setting(p, names, layout, world) && AllScanned(p, names) && ScansHold(p, layout, world, st, c)
    requires c.unions == c.families == 0 && st.place.Keys == Refs(p.objects) && k <= |p.families|
    ensures var next := FamiliesUpTo(p, names, st, k);
            && ScansHold(p, layout, world, next, c.(unions := k, families := k))
            && next.place.Keys == Refs(p.objects) + FirstFamilies(p, k) && next.filters == st.filters
  {
    hide ValidProgram, ValidWorld, GoodNaming, IsLayout, AllScanned, ScansHold, AddFamily, Refs, FirstFamilies;
    if k == 0 {
      NoFamilies(p);
      assert c.(unions := 0, families := 0) == c;
    } else {
      FamiliesUpToHold(p, names, layout, world, st, c, k - 1);
      var before := FamiliesUpTo(p, names, st, k - 1);
      FamilyRefIsNew(p, k - 1);
      AddFamilyHolds(p, names, layout, world, before, c.(unions := k - 1, families := k - 1), p.families[k - 1]);
      FamilyKeepsCount(p, names, before, k, p.families[k - 1]);
    }
  }

  lemma NoFamilies(p: Program)
    ensures FirstFamilies(p, 0) == {}
  {
  }

  lemma FamilyKeepsCount(p: Program, names: Naming, st: Scans, index: nat, family: Family)
    ensures AddFamily(p, names, st, index, family).filters == st.filters
  {
  }
}
