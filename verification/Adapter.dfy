/** The adapter as it runs: exactly when it produces a plan, and what that plan returns.
    Models `_convert` of ontology_core/inference_to_relational.py. */
module Adapter {
  import opened SeqOps
  import opened Sql
  import opened RelationalPlan
  import opened RelationalCompiler
  import opened PlanCompilation
  import opened JoinOrder
  import opened InferredProgram
  import opened ProgramMeaning
  import opened ProgramAnswers
  import opened ColumnNaming
  import opened AdapterPlan
  import opened AdapterLayout
  import opened AdapterOutput
  import opened AdapterStages
  import opened AdapterCorrectness

  /** Relation evidence: its snapshot, the tables it knows, and the field pairs it supports. */
  datatype EvidenceGraph = EvidenceGraph(snapshot: nat, tables: set<Ref>, pairs: set<(Ref, Ref)>)

  predicate Supported(graph: EvidenceGraph, j: JoinSpec) {
    (j.left.ref, j.right.ref) in graph.pairs || (j.right.ref, j.left.ref) in graph.pairs
  }

  predicate JoinsSupported(p: Program, graph: EvidenceGraph) {
    forall j :: j in p.joins ==> Supported(graph, j) && KeyOf(p, j.left.owner) != KeyOf(p, j.right.owner)
  }

  /** Every table has a column that the program asks for, itself or through its family. */
  ghost predicate EveryTableAsked(p: Program) {
    forall o :: o in p.objects ==> exists f :: f in o.fields && Asked(p, f)
  }

  ghost predicate Joinable(p: Program) {
    exists root, order :: IsRoot(p, root) && LegalOrder(EdgesOf(p), SourcesOf(p), root, order)
  }

  /** Exactly the programs that the adapter turns into a plan. */
  ghost predicate Convertible(p: Program, snapshot: nat, graph: EvidenceGraph, plain: Name -> bool) {
    && graph.snapshot == snapshot && Refs(p.objects) <= graph.tables && JoinsSupported(p, graph)
    && EveryTableAsked(p) && Joinable(p) && !WhereOnExcluded(p) && OutputsGrouped(p) && OutputAccepted(p)
    && OutputsNamed(p, plain)
  }

  // ----- what a plan returns -----

  function PlanRows(plan: Plan, world: World): seq<Row> {
    var env := Meaning(plan.nodes, plan.objects, world);
    if env.None? then [] else RowsAt(env.value, plan.result)
  }

  ghost predicate ListsAnswers(p: Program, world: World, answers: seq<Env>) {
    NoDup(answers) && forall e :: e in answers <==> IsAnswer(p, world, e)
  }

  /** The plan returns the output of the answers, each taken once. */
  ghost predicate Returns(p: Program, plan: Plan, world: World) {
    exists answers :: ListsAnswers(p, world, answers) && PlanRows(plan, world) == OutputRows(p, answers)
  }

  // ----- scans -----

  lemma {:induction false} ScansStayMissing(p: Program, names: Naming, k: nat, n: nat)
    requires k <= n <= |SortedObjects(p)| && ScansUpTo(p, names, k).None?
    ensures ScansUpTo(p, names, n).None?
  {
    hide SortedObjects, AddScan;
    if k < n {
      ScansStayMissing(p, names, k, n - 1);
    }
  }

  method ScanTables(p: Program, names: Naming) returns (r: Option<Scans>)
    ensures r == ScansUpTo(p, names, |SortedObjects(p)|)
  {
    hide SortedObjects, AddScan;
    var st := Scans([], 0, map[]);
    for k := 0 to |SortedObjects(p)|
      invariant ScansUpTo(p, names, k) == Some(st)
    {
      var next := AddScan(p, names, st, k + 1, SortedObjects(p)[k]);
      if next.None? {
        ScansStayMissing(p, names, k + 1, |SortedObjects(p)|);
        return None;
      }
      st := next.value;
    }
    r := Some(st);
  }

  method UniteFamilies(p: Program, names: Naming, scans: Scans) returns (st: Scans)
    ensures st == FamiliesUpTo(p, names, scans, |p.families|)
  {
    hide AddFamily;
    st := scans;
    for k := 0 to |p.families|
      invariant st == FamiliesUpTo(p, names, scans, k)
    {
      st := AddFamily(p, names, st, k + 1, p.families[k]);
    }
  }

  // ----- root -----

  lemma {:induction false} FirstRequestedIsRoot(p: Program, fields: seq<Field>)
    ensures FirstRequestedRoot(p, fields).Some? ==> FirstRequestedRoot(p, fields).value in Roots(p)
  {
    if fields != [] {
      FirstRequestedIsRoot(p, fields[1..]);
    }
  }

  lemma RootIsValid(p: Program, root: Key)
    requires IsRoot(p, root)
    ensures ValidRoot(p, root)
  {
    FirstRequestedIsRoot(p, p.requested);
  }

  lemma OneRoot(p: Program, a: Key, b: Key)
    requires IsRoot(p, a) && IsRoot(p, b)
    ensures a == b
  {
  }

  method ChooseRoot(p: Program) returns (root: Option<Key>)
    ensures root.Some? ==> IsRoot(p, root.value)
    ensures root.None? ==> forall r :: !IsRoot(p, r)
  {
    FirstRequestedIsRoot(p, p.requested);
    var roots := Roots(p);
    if roots == {} {
      return None;
    }
    var first := FirstRequestedRoot(p, p.requested);
    if first.Some? {
      return first;
    }
    MinName(roots);
    var least :| least in roots && forall r :: r in roots ==> least <= r;
    root := Some(least);
  }

  // ----- joins -----

  lemma {:induction false} JoinsOfShorter(p: Program, names: Naming, st: Scans, root: Key, order: seq<Intro>, s: Intro,
          k: nat)
    requires EdgesKnown(p, order) && EdgesKnown(p, order + [s]) && k <= |order|
    ensures JoinsUpTo(p, names, st, root, order + [s], k) == JoinsUpTo(p, names, st, root, order, k)
  {
    hide AddJoin, StartJoined;
    if k != 0 {
      JoinsOfShorter(p, names, st, root, order, s, k - 1);
      assert order[k - 1] in order && (order + [s])[k - 1] == order[k - 1];
    }
  }

  /** No filter seen so far reads a visited excluded source after the joins. */
  predicate NoneExcludedYet(p: Program, visited: set<Key>) {
    forall item :: item in p.filters && item.scope == WhereScope ==> FilterSources(p,
                                                                                   item) * AntiRights(p) * visited == {}
  }

  predicate ReadsAfter(p: Program, source: Key) {
    exists item :: item in p.filters && item.scope == WhereScope && source in FilterSources(p, item)
  }

  lemma NoneExcludedGrows(p: Program, visited: set<Key>, source: Key)
    requires NoneExcludedYet(p, visited) && (source in AntiRights(p) ==> !ReadsAfter(p, source))
    ensures NoneExcludedYet(p, visited + {source})
  {
    forall item | item in p.filters && item.scope == WhereScope
      ensures FilterSources(p, item) * AntiRights(p) * (visited + {source}) == {} {
      assert FilterSources(p, item) * AntiRights(p) * visited == {};
    }
  }

  lemma InOrLeft(all: set<Key>, visited: set<Key>, k: Key)
    requires all - visited == {} && k in all
    ensures k in visited
  {
    assert k !in visited ==> k in all - visited;
  }

  lemma NoneExcludedAtEnd(p: Program, visited: set<Key>)
    requires ValidProgram(p) && NoneExcludedYet(p, visited) && SourcesOf(p) - visited == {}
    ensures !WhereOnExcluded(p)
  {
    hide ValidFamilies, JoinsAllowed, ValidFilters, AntiRights, SourcesOf, KeyOf;
    forall item | item in p.filters && item.scope == WhereScope ensures FilterSources(p, item) * AntiRights(p) == {} {
      forall k | k in FilterSources(p, item) ensures k in visited {
        var f :| f in Leaves(item.pred) && KeyOf(p, f.owner) == k;
        FieldKeyIsSource(p, f);
        InOrLeft(SourcesOf(p), visited, k);
      }
      assert FilterSources(p, item) * AntiRights(p) <= FilterSources(p, item) * AntiRights(p) * visited;
    }
  }

  lemma ExcludedRead(p: Program, source: Key)
    requires source in AntiRights(p) && ReadsAfter(p, source)
    ensures WhereOnExcluded(p)
  {
    var item :| item in p.filters && item.scope == WhereScope && source in FilterSources(p, item);
    assert source in FilterSources(p, item) * AntiRights(p);
  }

  lemma EdgesOfSize(p: Program)
    ensures |EdgesOf(p)| == |p.joins| && forall i ::
            0 <= i < |p.joins| ==> EdgesOf(p)[i].joinType == p.joins[i].joinType
  {
  }

  /** Introduces every source; None exactly when the greedy loop gets stuck, leaves a declared join
      unused, or meets a filter on an excluded source. */
  method JoinSources(p: Program, names: Naming, sources: Scans, root: Key)
    returns (r: Option<Joined>, ghost order: seq<Intro>)
    requires ValidProgram(p) && ValidRoot(p, root)
    ensures r.Some? <==> OrderFrom(EdgesOf(p), SourcesOf(p), root).Some? && !WhereOnExcluded(p)
    ensures r.Some? ==>
              && OrderFrom(EdgesOf(p), SourcesOf(p), root) == Some(order) && EdgesKnown(p, order)
              && r.value == JoinsUpTo(p, names, sources, root, order, |order|)
  {
    hide ValidProgram, SourcesOf, EdgesOf, AntiRights, DirectedRights, AddJoin, StartJoined, ReadsAfter,
         NoneExcludedYet, WhereOnExcluded, Introduce, After;
    var edges, all := EdgesOf(p), SourcesOf(p);
    EdgesOfSize(p);
    var visited := {root};
    var remaining := all - visited;
    var unused: seq<nat> := AllIndices(|edges|);
    var st := StartJoined(p, names, sources, root);
    var joinCount := 0;
    order := [];
    StartOfLoop(p, edges, all, root);
    while remaining != {}
      invariant remaining == all - visited
      invariant forall j :: j in unused ==> j < |edges|
      invariant OrderFrom(edges, all, root) == After(order, Introduce(edges, all, visited, unused))
      invariant joinCount == |order| && EdgesKnown(p, order) && st == JoinsUpTo(p, names, sources, root, order, |order|)
      invariant NoneExcludedYet(p, visited)
      decreases |unused|
    {
      var chosen := FirstUsable(edges, unused, visited, remaining);
      LoopStep(edges, all, visited, unused, order);
      if chosen.None? {
        return None, order;
      }
      var step := chosen.value;
      if edges[step.edge].joinType == Inner && step.source in DirectedRights(p) {
        DirectedAre(p);
        return None, order;
      }
      if edges[step.edge].joinType != Inner && step.source in AntiRights(p) && ReadsAfter(p, step.source) {
        ExcludedRead(p, step.source);
        return None, order;
      }
      DirectedAre(p);
      NoneExcludedGrows(p, visited, step.source);
      JoinsOfShorter(p, names, sources, root, order, step, |order|);
      joinCount := joinCount + 1;
      st := AddJoin(p, names, sources.place, st, joinCount, step);
      order := order + [step];
      unused := Without(unused, step.edge);
      visited := visited + {step.source};
      remaining := remaining - {step.source};
    }
    EndOfLoop(edges, all, visited, unused, order);
    if unused != [] {
      return None, order;
    }
    NoneExcludedAtEnd(p, visited);
    r := Some(st);
  }

  lemma DirectedAre(p: Program)
    ensures DirectedRights(p) == Directed(EdgesOf(p)) && AntiRights(p) <= DirectedRights(p)
  {
    AntiIsDirected(p);
  }

  lemma StartOfLoop(p: Program, edges: seq<Edge>, all: set<Key>, root: Key)
    requires ValidRoot(p, root)
    ensures OrderFrom(edges, all, root) == After([], Introduce(edges, all, {root}, AllIndices(|edges|)))
    ensures NoneExcludedYet(p, {root})
  {
    AntiIsDirected(p);
    LoopStarts(edges, all, root);
  }

  // ----- the whole conversion -----

  lemma ScannedIffAsked(p: Program, names: Naming)
    requires ValidProgram(p) && GoodNaming(p, names)
    ensures AllScanned(p, names) <==> EveryTableAsked(p)
  {
    hide ValidFamilies, FieldsKnown, ValidFilters, JoinsAllowed, ValidCatalog, Asked;
    forall o, f | o in p.objects && f in o.fields ensures f in names <==> Asked(p, f) {
      NamedIffAsked(p, names, f);
    }
    forall o | o in p.objects ensures NeededFields(names, o) != [] <==> exists f :: f in o.fields && Asked(p, f) {
      if NeededFields(names, o) != [] {
        assert NeededFields(names, o)[0] in NeededFields(names, o);
      }
      if f :| f in o.fields && Asked(p, f) {
        assert f in NeededFields(names, o);
      }
    }
  }

  lemma NamedIffAsked(p: Program, names: Naming, f: Field)
    requires GoodNaming(p, names) && f in FieldsOf(p)
    ensures f in names <==> Asked(p, f)
  {
    hide Mentioned, SlotOf, FieldsOf;
    if Asked(p, f) {
      var g :| g in Mentioned(p) && SlotOf(p, g) == SlotOf(p, f);
      assert g in names;
    }
  }

  // A table without a needed column stops the scans.
  lemma {:induction false} UnscannedStops(p: Program, names: Naming, k: nat, n: nat)
    requires k < n <= |SortedObjects(p)| && NeededFields(names, SortedObjects(p)[k]) == []
    ensures ScansUpTo(p, names, n).None?
  {
    hide SortedObjects, NeededFields;
    if k + 1 < n {
      UnscannedStops(p, names, k, n - 1);
    }
  }

  lemma ScansFail(p: Program, names: Naming)
    requires ValidProgram(p) && !AllScanned(p, names)
    ensures ScansUpTo(p, names, |SortedObjects(p)|).None?
  {
    hide ValidProgram, SortedObjects, NeededFields, ScansUpTo;
    SortedIsSame(p);
    var o :| o in p.objects && NeededFields(names, o) == [];
    assert o in SortedObjects(p);
    var k :| 0 <= k < |SortedObjects(p)| && SortedObjects(p)[k] == o;
    UnscannedStops(p, names, k, |SortedObjects(p)|);
  }

  /** A converted plan returns the program's answers, whatever is stored. */
  lemma ConvertedReturns(p: Program, names: Naming, root: Key, order: seq<Intro>, scans: Scans, world: World)
    requires ValidProgram(p) && ValidOutputs(p) && GoodNaming(p, names) && ValidWorld(world)
    requires AllScanned(p, names) && !WhereOnExcluded(p) && OutputAccepted(p)
    requires ValidRoot(p, root) && LegalOrder(EdgesOf(p), SourcesOf(p), root, order) && EdgesKnown(p, order)
    requires ScansUpTo(p, names, |SortedObjects(p)|) == Some(scans)
    ensures Returns(p, PlanOf(p, names, scans, root, order), world)
    ensures PlanRows(PlanOf(p, names, scans, root, order), world) == OutputRows(p, Reference(p, world, root, order))
  {
    hide ValidProgram, ValidOutputs, GoodNaming, ValidWorld, AllScanned, WhereOnExcluded, OutputAccepted, LegalOrder,
         SourcesOf, PlanOf, ScansUpTo,
         SortedObjects, OutputRows, Reference, IsAnswer, Meaning;
    AdapterPlanIsCorrect(p, names, world, root, order);
    ReferenceIsAnswers(p, world, root, order);
    assert ListsAnswers(p, world, Reference(p, world, root, order));
  }

  /** Stored rows outside their table's period do not exist for a converted plan: neither as rows of
      the result nor as rows that block others in an anti join. */
  lemma OtherPeriodsDoNotMatter(p: Program, world: World, root: Key, order: seq<Intro>)
    requires ValidProgram(p) && LegalPrefix(p, root, order) && Reached({root}, order) == SourcesOf(p)
    ensures EdgesKnown(p, order) && Reference(p, InPeriodOnly(p, world), root, order)
            == Reference(p, world, root, order)
  {
    hide ValidProgram, LegalPrefix, PushedChain, Reference, SourcesOf;
    var small := InPeriodOnly(p, world);
    PushdownPreservesMeaning(p, world, root, order);
    PushdownPreservesMeaning(p, small, root, order);
    ChainIgnoresOtherPeriods(p, world, root, order);
    forall e: Env ensures PostKeeps(p, small, e) == PostKeeps(p, world, e) {
    }
    FilterCong((e: Env) => PostKeeps(p, small,
                                     e), (e: Env) => PostKeeps(p, world, e), PushedChain(p, world, root, order));
  }

  lemma SmallWorldIsValid(p: Program, world: World)
    requires ValidWorld(world)
    ensures ValidWorld(InPeriodOnly(p, world))
  {
    hide InPeriod;
    var small := InPeriodOnly(p, world);
    forall o | o in small.tables ensures NoDup(small.tables[o]) && forall b :: b in small.tables[o] ==> b.table == o {
      NoDupFilter((b: BaseRow) => InPeriod(p, world, b), world.tables[o]);
    }
  }

  lemma StepCountSnoc(nodes: seq<Node>, node: Node)
    ensures StepCount(nodes + [node]) == StepCount(nodes) + if node.MaterializeNode? then 1 else 0
  {
    assert (nodes + [node])[..|nodes|] == nodes;
  }

  lemma {:induction false} ScanSteps(p: Program, names: Naming, k: nat)
    requires k <= |SortedObjects(p)| && ScansUpTo(p, names, k).Some?
    ensures StepCount(ScansUpTo(p, names, k).value.nodes) == 0
  {
    hide SortedObjects, NeededFields, ScanPredicates;
    if k != 0 {
      ScanSteps(p, names, k - 1);
      var st, o := ScansUpTo(p, names, k - 1).value, SortedObjects(p)[k - 1];
      var scan := NodeId(ScanId, k);
      StepCountSnoc(st.nodes, ScanOf(names, scan, o));
      StepCountSnoc(st.nodes + [ScanOf(names, scan, o)],
                    FilterNode(NodeId(FilterId, st.filters + 1), scan, ScanPredicates(p, names, scan, o)));
    }
  }

  lemma {:induction false} FamilySteps(p: Program, names: Naming, st: Scans, k: nat)
    requires k <= |p.families|
    ensures StepCount(FamiliesUpTo(p, names, st, k).nodes) == StepCount(st.nodes) + k
  {
    hide FamilyColumns, StepCount, UnitedColumn, PlaceAt, Map;
    if k != 0 {
      FamilySteps(p, names, st, k - 1);
      var before := FamiliesUpTo(p, names, st, k - 1);
      var union := NodeId(UnionId, k);
      var node := FamilyUnion(p, names, before.place, union, p.families[k - 1]);
      StepCountSnoc(before.nodes, node);
      StepCountSnoc(before.nodes + [node], MaterializeNode(NodeId(FamilyId, k), union, Intermediate));
    }
  }

  lemma {:induction false} JoinSteps(p: Program, names: Naming, st: Scans, root: Key, order: seq<Intro>, k: nat)
    requires EdgesKnown(p, order) && k <= |order|
    ensures StepCount(JoinsUpTo(p, names, st, root, order, k).nodes) == StepCount(st.nodes)
  {
    hide SourceColumns, JoinOf, StepCount;
    if k != 0 {
      JoinSteps(p, names, st, root, order, k - 1);
      assert order[k - 1] in order;
      var before := JoinsUpTo(p, names, st, root, order, k - 1);
      JoinShape(p, names, st.place, before, k, order[k - 1]);
      StepCountSnoc(before.nodes, JoinOf(p, names, st.place, before, NodeId(JoinId, k), order[k - 1]));
    }
  }

  lemma OutputSteps(p: Program, names: Naming, j: Joined, filters: nat)
    ensures StepCount(AddOutput(p, names, AddPost(p, names, j, filters))) == StepCount(j.nodes) + 1
  {
    hide PostFilters, OutputNode, StepCount;
    var posted := AddPost(p, names, j, filters);
    var id := NodeId(FilterId, filters + 1);
    StepCountSnoc(j.nodes, FilterNode(id, j.current,
                                      Map((item: FilterSpec) => Rename(item.pred,
                                                                       RefAt(names, j.current)), PostFilters(p))));
    var output := OutputNode(p, names, posted.current);
    OutputId(p, names, posted.current);
    StepCountSnoc(posted.nodes, output);
    StepCountSnoc(posted.nodes + [output], MaterializeNode(RESULT_ID, output.id, Result));
  }

  /** One materialized step a family, and the result. */
  lemma PlanSteps(p: Program, names: Naming, scans: Scans, root: Key, order: seq<Intro>)
    requires EdgesKnown(p, order) && ScansUpTo(p, names, |SortedObjects(p)|) == Some(scans)
    ensures StepCount(PlanOf(p, names, scans, root, order).nodes) == |p.families| + 1
  {
    hide SortedObjects, ScansUpTo, FamiliesUpTo, JoinsUpTo, AddPost, AddOutput;
    ScanSteps(p, names, |SortedObjects(p)|);
    FamilySteps(p, names, scans, |p.families|);
    var sources := FamiliesUpTo(p, names, scans, |p.families|);
    JoinSteps(p, names, sources, root, order, |order|);
    OutputSteps(p, names, JoinsUpTo(p, names, sources, root, order, |order|), sources.filters);
  }

  /** Everything promised of an adapter's plan. */
  ghost predicate Correct(p: Program, plan: Plan) {
    && ValidatePlan(plan).Some? && DistinctJoinInputs(plan.nodes) && StepCount(plan.nodes) == |p.families| + 1
    && (forall world {:trigger Returns(p, plan, world)} :: ValidWorld(world) ==> Returns(p, plan, world))
    && (forall world {:trigger InPeriodOnly(p, world)} ::
        ValidWorld(world) ==> PlanRows(plan, InPeriodOnly(p, world)) == PlanRows(plan, world))
  }

  lemma ConvertedIsCorrect(p: Program, names: Naming, root: Key, order: seq<Intro>, scans: Scans)
    requires ValidProgram(p) && ValidOutputs(p) && GoodNaming(p, names)
    requires AllScanned(p, names) && !WhereOnExcluded(p) && OutputAccepted(p)
    requires ValidRoot(p, root) && LegalOrder(EdgesOf(p), SourcesOf(p), root, order) && EdgesKnown(p, order)
    requires ScansUpTo(p, names, |SortedObjects(p)|) == Some(scans)
    ensures Correct(p, PlanOf(p, names, scans, root, order))
  {
    hide ValidProgram, ValidOutputs, GoodNaming, ValidWorld, AllScanned, WhereOnExcluded, OutputAccepted, LegalOrder,
         SourcesOf, PlanOf, ScansUpTo,
         SortedObjects, OutputRows, Reference, IsAnswer, Meaning, Returns, PlanRows, ValidRoot, DistinctJoinInputs,
             ValidatePlan, LegalPrefix;
    var plan := PlanOf(p, names, scans, root, order);
    LegalOrderIsPrefix(p, root, order);
    EmptyWorldIsValid();
    PlanSteps(p, names, scans, root, order);
    AdapterPlanIsCorrect(p, names, World(map[], (t, s) => Null), root, order);
    forall world | ValidWorld(world) ensures Returns(p, plan, world) {
      ConvertedReturns(p, names, root, order, scans, world);
    }
    forall world | ValidWorld(world) ensures PlanRows(plan, InPeriodOnly(p, world)) == PlanRows(plan, world) {
      SmallWorldIsValid(p, world);
      ConvertedReturns(p, names, root, order, scans, world);
      ConvertedReturns(p, names, root, order, scans, InPeriodOnly(p, world));
      OtherPeriodsDoNotMatter(p, world, root, order);
    }
  }

  lemma EmptyWorldIsValid()
    ensures ValidWorld(World(map[], (t, s) => Null))
  {
  }

  lemma NotJoinable(p: Program, root: Key)
    requires IsRoot(p, root) && OrderFrom(EdgesOf(p), SourcesOf(p), root).None?
    ensures !Joinable(p)
  {
    hide IsRoot, LegalOrder;
    RootIsValid(p, root);
    OrderIsSoundAndComplete(EdgesOf(p), SourcesOf(p), root);
    forall other, order ensures !(IsRoot(p, other) && LegalOrder(EdgesOf(p), SourcesOf(p), other, order)) {
      if IsRoot(p, other) {
        OneRoot(p, root, other);
      }
    }
  }

  method CheckEvidence(p: Program, snapshot: nat, graph: EvidenceGraph) returns (ok: bool)
    ensures ok <==> graph.snapshot == snapshot && Refs(p.objects) <= graph.tables && JoinsSupported(p, graph)
  {
    if graph.snapshot != snapshot || !(Refs(p.objects) <= graph.tables) {
      return false;
    }
    for i := 0 to |p.joins|
      invariant forall k :: 0 <= k < i ==> Supported(graph,
                                                     p.joins[k]) && KeyOf(p, p.joins[k].left.owner) != KeyOf(p,
                                                         p.joins[k].right.owner)
    {
      var j := p.joins[i];
      assert j in p.joins;
      if !Supported(graph, j) {
        return false;
      }
      if KeyOf(p, j.left.owner) == KeyOf(p, j.right.owner) {
        return false;
      }
    }
    ok := true;
  }

  /** The adapter produces a plan for exactly the convertible programs, and every plan it produces is correct. */
  method Convert(p: Program, snapshot: nat, graph: EvidenceGraph, plain: Name -> bool) returns (r: Option<Plan>)
    requires ValidProgram(p) && ValidOutputs(p)
    ensures r.Some? <==> Convertible(p, snapshot, graph, plain)
    ensures r.Some? ==> Correct(p, r.value)
  {
    hide ValidProgram, ValidOutputs, GoodNaming, AllScanned, EveryTableAsked, WhereOnExcluded, OutputAccepted,
         LegalOrder, SourcesOf, EdgesOf, PlanOf, ScansUpTo,
         SortedObjects, Correct, IsRoot, ValidRoot, ValidatePlan, Joinable, AddPost, AddOutput, FamiliesUpTo,
             JoinsUpTo, OrderFrom, OutputsGrouped, OutputsNamed, Refs, JoinsSupported;
    var evident := CheckEvidence(p, snapshot, graph);
    if !evident {
      return None;
    }
    var ok, names := NameColumns(p);
    ScannedIffAsked(p, names);
    var scans := ScanTables(p, names);
    if scans.None? {
      ScansSucceed(p, names);
      return None;
    }
    if !AllScanned(p, names) {
      ScansFail(p, names);
    }
    var sources := UniteFamilies(p, names, scans.value);
    var root := ChooseRoot(p);
    if root.None? {
      NoRootNoJoin(p);
      return None;
    }
    RootIsValid(p, root.value);
    OrderExists(p, root.value);
    var joined, order := JoinSources(p, names, sources, root.value);
    if joined.None? {
      if OrderFrom(EdgesOf(p), SourcesOf(p), root.value).None? {
        NotJoinable(p, root.value);
      }
      return None;
    }
    if !OutputsGrouped(p) || !OutputsNamed(p, plain) {
      return None;
    }
    var plan := Plan(p.objects, AddOutput(p, names, AddPost(p, names, joined.value, sources.filters)), RESULT_ID,
                     p.source);
    PlanIs(p, names, scans.value, sources, root.value, order, joined.value);
    ValidIffAccepted(p, names, root.value, order, scans.value);
    JoinableBy(p, root.value, order);
    var schemas := ValidateGraph(plan);
    if schemas.None? {
      return None;
    }
    ConvertedIsCorrect(p, names, root.value, order, scans.value);
    r := Some(plan);
  }

  lemma ScansSucceed(p: Program, names: Naming)
    requires ValidProgram(p) && GoodNaming(p, names) && ScansUpTo(p, names, |SortedObjects(p)|).None?
    ensures !AllScanned(p, names)
  {
    hide ValidProgram, GoodNaming, ScansUpTo, SortedObjects, AllScanned;
    if AllScanned(p, names) {
      EmptyWorldIsValid();
      var layout := LayoutExists(p, names);
      ScansUpToHold(p, names, layout, World(map[], (t, s) => Null), |SortedObjects(p)|);
      assert false;
    }
  }

  lemma NoRootNoJoin(p: Program)
    requires forall r :: !IsRoot(p, r)
    ensures !Joinable(p)
  {
  }

  lemma OrderExists(p: Program, root: Key)
    requires ValidRoot(p, root)
    ensures OrderFrom(EdgesOf(p), SourcesOf(p), root).Some? ==>
              LegalOrder(EdgesOf(p), SourcesOf(p), root, OrderFrom(EdgesOf(p), SourcesOf(p), root).value)
  {
    OrderIsSoundAndComplete(EdgesOf(p), SourcesOf(p), root);
  }

  lemma JoinableBy(p: Program, root: Key, order: seq<Intro>)
    requires IsRoot(p, root) && LegalOrder(EdgesOf(p), SourcesOf(p), root, order)
    ensures Joinable(p)
  {
  }

  lemma PlanIs(p: Program, names: Naming, scans: Scans, sources: Scans, root: Key, order: seq<Intro>, joined: Joined)
    requires EdgesKnown(p, order) && sources == FamiliesUpTo(p, names, scans, |p.families|)
    requires joined == JoinsUpTo(p, names, sources, root, order, |order|)
    ensures PlanOf(p, names, scans, root, order)
         == Plan(p.objects, AddOutput(p, names, AddPost(p, names, joined, sources.filters)), RESULT_ID, p.source)
  {
  }

  lemma ValidIffAccepted(p: Program, names: Naming, root: Key, order: seq<Intro>, scans: Scans)
    requires ValidProgram(p) && ValidOutputs(p) && GoodNaming(p, names) && AllScanned(p, names) && !WhereOnExcluded(p)
    requires ValidRoot(p, root) && LegalOrder(EdgesOf(p), SourcesOf(p), root, order) && EdgesKnown(p, order)
    requires ScansUpTo(p, names, |SortedObjects(p)|) == Some(scans)
    ensures ValidatePlan(PlanOf(p, names, scans, root, order)).Some? <==> OutputAccepted(p)
  {
    hide *;
    EmptyWorldIsValid();
    AdapterPlanIsCorrect(p, names, World(map[], (t, s) => Null), root, order);
  }

  // ----- the whole pipeline -----

  /** Adapter and relational compiler together: unless there are too many families, running the compiled
      statements leaves the output of the program's answers in the result table. */
  lemma PipelineReturnsAnswers(p: Program, plan: Plan, world: World, temps: map<Target, seq<Row>>)
    requires Correct(p, plan) && ValidWorld(world)
    ensures Compile(plan).Some? <==> |p.families| < 99
    ensures Compile(plan).Some? ==>
              var after := Run(Compile(plan).value, world, temps);
              ResultTable in after &&
              exists answers :: ListsAnswers(p, world, answers) && after[ResultTable] == OutputRows(p, answers)
  {
    hide Compile, Run, Meaning, OutputRows, ListsAnswers, ValidatePlan, StepCount, DistinctJoinInputs;
    CompiledProgramIsCorrect(plan, world, temps);
    assert Returns(p, plan, world);
    var answers :| ListsAnswers(p, world, answers) && PlanRows(plan, world) == OutputRows(p, answers);
  }
}
