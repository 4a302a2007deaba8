/** The relational DAG that the adapter builds from a validated program and named columns.
    Models `_convert` of ontology_core/inference_to_relational.py. */
module AdapterPlan {
  import opened SeqOps
  import opened Sql
  import opened RelationalPlan
  import opened JoinOrder
  import opened InferredProgram
  import opened ProgramMeaning
  import opened ColumnNaming

  function ColumnAt(names: Naming, f: Field): Column {
    if f in names then names[f] else Carried(0)
  }

  function RefAt(names: Naming, id: NodeId): Field -> LogicalRef {
    (f: Field) => LogicalRef(id, ColumnAt(names, f))
  }

  function NeededFields(names: Naming, o: TableObject): seq<Field> {
    Filter((f: Field) => f in names, o.fields)
  }

  function ColumnsOf(names: Naming, o: TableObject): seq<Column> {
    Map((f: Field) => ColumnAt(names, f), NeededFields(names, o))
  }

  // ----- scans and their filters -----

  /** Nodes so far, how many filters they hold, and the node that stands for each table or family. */
  datatype Scans = Scans(nodes: seq<Node>, filters: nat, place: map<Key, NodeId>)

  function ScanOf(names: Naming, id: NodeId, o: TableObject): Node {
    ScanNode(id, o.ref, Map((f: Field) => ScanColumn(ColumnAt(names, f), f.ref), NeededFields(names, o)))
  }

  function ScanFilters(p: Program, o: TableObject): seq<FilterSpec> {
    Filter((item: FilterSpec) => IsScanFilter(p, item, KeyOf(p, o.ref)), p.filters)
  }

  function ScanDecisions(p: Program, o: TableObject): seq<Decision> {
    Filter((d: Decision) => d.owner == o.ref && (KeyOf(p, o.ref) !in DirectedRights(p)
                                                 || FamilyOf(p.families, o.ref).Some?),
           p.decisions)
  }

  function ScanPredicates(p: Program, names: Naming, id: NodeId, o: TableObject): seq<Pred<LogicalRef>> {
    Map((item: FilterSpec) => Rename(item.pred, RefAt(names, id)), ScanFilters(p, o))
    + Map((d: Decision) => Rename(TemporalPred(d), RefAt(names, id)), ScanDecisions(p, o))
  }

  function AddScan(p: Program, names: Naming, st: Scans, index: nat, o: TableObject): Option<Scans> {
    if NeededFields(names, o) == [] then None
    else
      var scan := NodeId(ScanId, index);
      var preds := ScanPredicates(p, names, scan, o);
      if preds == [] then Some(Scans(st.nodes + [ScanOf(names, scan, o)], st.filters, st.place[o.ref := scan]))
      else
        var filter := NodeId(FilterId, st.filters + 1);
        Some(Scans(st.nodes + [ScanOf(names, scan, o)] + [FilterNode(filter, scan, preds)], st.filters + 1,
                   st.place[o.ref := filter]))
  }

  function SortedObjects(p: Program): seq<TableObject> {
    SortBy((o: TableObject) => o.ref, p.objects)
  }

  /** After the first `k` tables in reference order. */
  function ScansUpTo(p: Program, names: Naming, k: nat): Option<Scans>
    requires k <= |SortedObjects(p)|
  {
    if k == 0 then Some(Scans([], 0, map[]))
    else
      var before := ScansUpTo(p, names, k - 1);
      if before.None? then None else AddScan(p, names, before.value, k, SortedObjects(p)[k - 1])
  }

  // ----- families -----

  function PlaceAt(place: map<Key, NodeId>, key: Key): NodeId {
    if key in place then place[key] else NodeId(ScanId, 0)
  }

  function FamilyColumns(p: Program, names: Naming, family: Family): seq<Column> {
    var first := if family.members == [] then None else FindObject(p.objects, family.members[0]);
    if first.None? then []
    else SortBy((c: Column) => if c.Carried? then c.n else 0, ColumnsOf(names, first.value))
  }

  function UnitedColumn(inputs: seq<NodeId>): Column -> UnionColumn {
    (c: Column) => UnionColumn(c, Map((i: NodeId) => LogicalRef(i, c), inputs))
  }

  function FamilyUnion(p: Program, names: Naming, place: map<Key, NodeId>, id: NodeId, family: Family): Node {
    var inputs := Map((m: Ref) => PlaceAt(place, m), family.members);
    UnionNode(id, inputs, Map(UnitedColumn(inputs), FamilyColumns(p, names, family)))
  }

  function AddFamily(p: Program, names: Naming, st: Scans, index: nat, family: Family): Scans {
    var union := NodeId(UnionId, index);
    var stored := NodeId(FamilyId, index);
    Scans(st.nodes + [FamilyUnion(p, names, st.place, union, family)] + [MaterializeNode(stored, union, Intermediate)],
          st.filters, st.place[family.ref := stored])
  }

  function FamiliesUpTo(p: Program, names: Naming, st: Scans, k: nat): Scans
    requires k <= |p.families|
  {
    if k == 0 then st else AddFamily(p, names, FamiliesUpTo(p, names, st, k - 1), k, p.families[k - 1])
  }

  // ----- joins -----

  function Roots(p: Program): set<Key> {
    SourcesOf(p) - DirectedRights(p)
  }

  function FirstRequestedRoot(p: Program, fields: seq<Field>): Option<Key> {
    if fields == [] then None
    else if KeyOf(p, fields[0].owner) in Roots(p) then Some(KeyOf(p, fields[0].owner))
    else FirstRequestedRoot(p, fields[1..])
  }

  /** The source of the first requested field that may be a root, else the first possible root. */
  ghost predicate IsRoot(p: Program, root: Key) {
    var first := FirstRequestedRoot(p, p.requested);
    if first.Some? then root == first.value
    else root in Roots(p) && forall r :: r in Roots(p) ==> root <= r
  }

  function SourceColumns(p: Program, names: Naming, source: Key): seq<Column> {
    var family := FamilyWith(p.families, source);
    if family.Some? then FamilyColumns(p, names, family.value)
    else
      var o := FindObject(p.objects, source);
      if o.None? then [] else ColumnsOf(names, o.value)
  }

  function FamilyWith(families: seq<Family>, source: Key): Option<Family> {
    if families == [] then None
    else if families[0].ref == source then Some(families[0])
    else FamilyWith(families[1..], source)
  }

  datatype Joined = Joined(nodes: seq<Node>, current: NodeId, carried: seq<Column>)

  function OnFilters(p: Program, source: Key): seq<FilterSpec> {
    Filter((item: FilterSpec) => FilterSources(p, item) == {source} && item.scope == MatchScope, p.filters)
  }

  function OnDecisions(p: Program, source: Key): seq<Decision> {
    Filter((d: Decision) => KeyOf(p, d.owner) == source && FamilyOf(p.families, d.owner).None?, p.decisions)
  }

  function MatchFilters(p: Program, names: Naming, joinType: JoinType, right: NodeId,
          source: Key): seq<Pred<LogicalRef>> {
    if joinType == Inner then []
    else
      Map((item: FilterSpec) => Rename(item.pred, RefAt(names, right)), OnFilters(p, source))
      + Map((d: Decision) => Rename(TemporalPred(d), RefAt(names, right)), OnDecisions(p, source))
  }

  function KeepColumns(id: NodeId, columns: seq<Column>): seq<DerivedColumn> {
    Map((c: Column) => DerivedColumn(c, LogicalRef(id, c)), columns)
  }

  function JoinOf(p: Program, names: Naming, place: map<Key, NodeId>, st: Joined, id: NodeId, s: Intro): Node
    requires s.edge < |p.joins|
  {
    var j := p.joins[s.edge];
    var right := PlaceAt(place, s.source);
    JoinNode(id, st.current, right, j.joinType, j.strategy,
             [JoinCondition(RefAt(names, st.current)(OldField(p, s)), RefAt(names, right)(NewField(p, s)))],
             MatchFilters(p, names, j.joinType, right, s.source),
             KeepColumns(st.current, st.carried) + if j.joinType
                 == Anti then [] else KeepColumns(right, SourceColumns(p, names, s.source)))
  }

  function AddJoin(p: Program, names: Naming, place: map<Key, NodeId>, st: Joined, index: nat, s: Intro): Joined
    requires s.edge < |p.joins|
  {
    var id := NodeId(JoinId, index);
    Joined(st.nodes + [JoinOf(p, names, place, st, id, s)], id,
           if p.joins[s.edge].joinType == Anti then st.carried else st.carried + SourceColumns(p, names, s.source))
  }

  function StartJoined(p: Program, names: Naming, st: Scans, root: Key): Joined {
    Joined(st.nodes, PlaceAt(st.place, root), SourceColumns(p, names, root))
  }

  function JoinsUpTo(p: Program, names: Naming, st: Scans, root: Key, order: seq<Intro>, k: nat): Joined
    requires EdgesKnown(p, order) && k <= |order|
  {
    if k == 0 then StartJoined(p, names, st, root)
    else
      assert order[k - 1] in order;
      AddJoin(p, names, st.place, JoinsUpTo(p, names, st, root, order, k - 1), k, order[k - 1])
  }

  /** A WHERE filter on an excluded source makes the adapter raise when it introduces that source. */
  predicate WhereOnExcluded(p: Program) {
    exists item :: item in p.filters && item.scope == WhereScope && FilterSources(p, item) * AntiRights(p) != {}
  }

  // ----- remaining filters and output -----

  function PostFilters(p: Program): seq<FilterSpec> {
    Filter((item: FilterSpec) => IsPostFilter(p, item), p.filters)
  }

  function AddPost(p: Program, names: Naming, st: Joined, filters: nat): Joined {
    var post := PostFilters(p);
    if post == [] then st
    else
      var id := NodeId(FilterId, filters + 1);
      Joined(st.nodes + [FilterNode(id, st.current,
                                    Map((item: FilterSpec) => Rename(item.pred, RefAt(names, st.current)), post))],
             id, st.carried)
  }

  function DerivedOf(names: Naming, input: NodeId, fields: seq<Field>): seq<DerivedColumn> {
    Map((f: Field) => DerivedColumn(Physical(f.physical), RefAt(names, input)(f)), fields)
  }

  function AggregateOf(names: Naming, input: NodeId): AggregationSpec -> AggregateColumn {
    (a: AggregationSpec) =>
      AggregateColumn(Physical(a.name), a.fn,
                      if a.source.None? then None else Some(RefAt(names, input)(a.source.value)), a.distinct)
  }

  function OutputNode(p: Program, names: Naming, input: NodeId): Node {
    if p.aggregations == [] then ProjectNode(NodeId(ProjectId, 1), input, DerivedOf(names, input, p.requested))
    else AggregateNode(NodeId(AggregateId, 1), input, DerivedOf(names, input, p.groupBy),
                       Map(AggregateOf(names, input), p.aggregations))
  }

  const RESULT_ID := NodeId(ResultId, 0)

  function AddOutput(p: Program, names: Naming, st: Joined): seq<Node> {
    var output := OutputNode(p, names, st.current);
    st.nodes + [output] + [MaterializeNode(RESULT_ID, output.id, Result)]
  }

  /** Aggregation may only output grouped fields. */
  predicate OutputsGrouped(p: Program) {
    p.aggregations == [] || forall f :: f in p.requested ==> f in p.groupBy
  }

  /** Output columns keep their physical names, and a plan takes only names of its own form (`plain`). The names of
      aggregations have that form already. */
  predicate OutputsNamed(p: Program, plain: Name -> bool) {
    forall f :: f in (if p.aggregations == [] then p.requested else p.groupBy) ==> plain(f.physical)
  }

  /** The whole plan for a chosen root and join order, before the plan validates itself. */
  function PlanOf(p: Program, names: Naming, scans: Scans, root: Key, order: seq<Intro>): Plan
    requires EdgesKnown(p, order)
  {
    var sources := FamiliesUpTo(p, names, scans, |p.families|);
    var joined := JoinsUpTo(p, names, sources, root, order, |order|);
    Plan(p.objects, AddOutput(p, names, AddPost(p, names, joined, sources.filters)), RESULT_ID, p.source)
  }
}
