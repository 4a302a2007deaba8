/** Which root a compiler starts from decides whether it can order the joins: exactly when a root works, and
    programs that only one of the two compilers accepts.
    Models the root choices of ontology_core/inference_to_relational.py and ontology_core/inference_compiler.py. */
module RootChoice {
  import opened SeqOps
  import opened Sql
  import opened RelationalPlan
  import opened RelationalCompiler
  import opened JoinOrder
  import opened InferredProgram
  import opened ProgramMeaning
  import opened ColumnNaming
  import opened AdapterPlan
  import opened AdapterOutput
  import opened Adapter
  import opened FlatCompiler
  import opened FlatMeaning
  import opened InsideJoins
  import opened OlderCompiler

  /** When the joins between the sources form a tree, each compiler accepts its root exactly when every LEFT or
      anti join points away from it. The adapter also needs that no join stays inside one source. */
  lemma TreeProgramsExactly(p: Program)
    requires ValidProgram(p)
    requires var q := BetweenSources(p); Connected(SourcesOf(q), EdgesOf(q)) && |q.joins| == |SourcesOf(q)| - 1
    ensures var q := BetweenSources(p);
            var root := FirstRoot(LogicalKeys(q), DirectedRights(q));
            && (FlatJoinable(q) <==> root.Some? && DirectedAway(EdgesOf(q), SourcesOf(q), root.value))
            && (Joinable(p) <==> q == p && exists root :: IsRoot(p,
                                                                 root) && DirectedAway(EdgesOf(p), SourcesOf(p), root))
  {
    hide ValidProgram, BetweenSources, FlatJoinable, Joinable, EdgesOf, SourcesOf, LogicalKeys, DirectedRights, IsRoot,
         DirectedAway, Connected;
    BetweenIsValid(p);
    TreesExactly(BetweenSources(p));
    if Joinable(p) {
      JoinableHasNoInside(p);
    }
  }

  lemma JoinableHasNoInside(p: Program)
    requires Joinable(p)
    ensures BetweenSources(p) == p
  {
    hide LegalStep, IsRoot, KeyOf, SourcesOf, EdgesOf;
    var root, order: seq<Intro> :| IsRoot(p, root) && LegalOrder(EdgesOf(p), SourcesOf(p), root, order);
    EdgesAre(p);
    forall j | j in p.joins ensures KeyOf(p, j.left.owner) != KeyOf(p, j.right.owner) {
      var i :| 0 <= i < |p.joins| && p.joins[i] == j;
      assert Uses(order, i);
      var k :| 0 <= k < |order| && order[k].edge == i;
      StepFacts(p, Reached({root}, order[..k]), order[k]);
    }
    FilterAll((j: JoinSpec) => KeyOf(p, j.left.owner) != KeyOf(p, j.right.owner), p.joins);
  }

  lemma TreesExactly(p: Program)
    requires ValidProgram(p)
    requires Connected(SourcesOf(p), EdgesOf(p)) && |p.joins| == |SourcesOf(p)| - 1
    ensures var root := FirstRoot(LogicalKeys(p), DirectedRights(p));
            FlatJoinable(p) <==> root.Some? && DirectedAway(EdgesOf(p), SourcesOf(p), root.value)
    ensures Joinable(p) <==> exists root :: IsRoot(p, root) && DirectedAway(EdgesOf(p), SourcesOf(p), root)
  {
    hide ValidProgram, EdgesOf, SourcesOf, LogicalKeys, LegalOrder, DirectedRights, IsRoot, DirectedAway, Connected;
    KeysAreSources(p);
    EdgesAre(p);
    JoinsConnectSources(p);
    var root := FirstRoot(LogicalKeys(p), DirectedRights(p));
    if root.Some? {
      RootWorks(p, root.value);
    }
    forall r | IsRoot(p, r)
        ensures (exists order :: LegalOrder(EdgesOf(p), SourcesOf(p), r, order)) <==>
                DirectedAway(EdgesOf(p), SourcesOf(p), r) {
      RootIsSource(p, r);
      RootWorks(p, r);
    }
  }

  lemma RootIsSource(p: Program, root: Key)
    requires IsRoot(p, root)
    ensures root in SourcesOf(p)
  {
    RootIsValid(p, root);
  }

  lemma RootWorks(p: Program, root: Key)
    requires root in SourcesOf(p) && EdgesWithin(SourcesOf(p), EdgesOf(p))
    requires Connected(SourcesOf(p), EdgesOf(p)) && |EdgesOf(p)| == |SourcesOf(p)| - 1
    ensures (exists order :: LegalOrder(EdgesOf(p), SourcesOf(p), root, order)) <==>
            DirectedAway(EdgesOf(p), SourcesOf(p), root)
  {
    hide *;
    OrderIsSoundAndComplete(EdgesOf(p), SourcesOf(p), root);
    TreeRootWorksExactly(EdgesOf(p), SourcesOf(p), root);
  }

  lemma JoinsConnectSources(p: Program)
    requires ValidProgram(p)
    ensures EdgesWithin(SourcesOf(p), EdgesOf(p))
  {
    hide ValidFamilies, ValidFilters, JoinsAllowed, SourcesOf, KeyOf, ValidCatalog;
    forall e | e in EdgesOf(p) ensures e.left in SourcesOf(p) && e.right in SourcesOf(p) {
      var i :| 0 <= i < |EdgesOf(p)| && EdgesOf(p)[i] == e;
      assert p.joins[i] in p.joins;
      FieldKeyIsSource(p, p.joins[i].left);
      FieldKeyIsSource(p, p.joins[i].right);
    }
  }

  // ----- the two roots -----

  function LoneField(t: Ref): Field {
    Field(t, t, Datatype(StringGroup, 1), 0)
  }

  /** Three tables of one column: `left` LEFT JOIN `right`, `right` INNER JOIN `leaf`, asking for `asked`. */
  function Linked(left: Ref, right: Ref, leaf: Ref, asked: Ref): Program {
    Program([LoneTable(0), LoneTable(1), LoneTable(2)], [], [LoneField(asked)],
            [JoinSpec(LeftOuter, ViaLeftJoin, LoneField(left), LoneField(right)),
             JoinSpec(Inner, ViaLeftJoin, LoneField(right), LoneField(leaf))],
            [], [], [], [], 0)
  }

  predicate Permutes(left: Ref, right: Ref, leaf: Ref) {
    left < 3 && right < 3 && leaf < 3 && left != right && right != leaf && left != leaf
  }

  lemma LinkedKeys(left: Ref, right: Ref, leaf: Ref, asked: Ref, t: Ref)
    ensures var p := Linked(left, right, leaf, asked); FamilyOf(p.families, t).None? && KeyOf(p, t) == t
  {
  }

  lemma LinkedEdges(left: Ref, right: Ref, leaf: Ref, asked: Ref)
    ensures var p := Linked(left, right, leaf, asked);
            && EdgesOf(p) == [Edge(LeftOuter, left, right), Edge(Inner, right, leaf)] && DirectedRights(p) == {right}
            && AntiRights(p) == {}
  {
    hide KeyOf;
    var p := Linked(left, right, leaf, asked);
    LinkedKeys(left, right, leaf, asked, left);
    LinkedKeys(left, right, leaf, asked, right);
    LinkedKeys(left, right, leaf, asked, leaf);
    assert EdgesOf(p)[0] in EdgesOf(p);
    assert forall j :: j in p.joins ==> j == p.joins[0] || j == p.joins[1];
  }

  lemma LinkedSources(left: Ref, right: Ref, leaf: Ref, asked: Ref)
    ensures var p := Linked(left, right, leaf, asked); SourcesOf(p) == {0, 1, 2} && LogicalKeys(p) == [0, 1, 2]
  {
    hide FamilyOf;
    var p := Linked(left, right, leaf, asked);
    forall t ensures FamilyOf(p.families, t).None? {
      LinkedKeys(left, right, leaf, asked, t);
    }
    assert p.objects[0] in p.objects && p.objects[1] in p.objects && p.objects[2] in p.objects;
    FilterAll((o: TableObject) => FamilyOf(p.families, o.ref).None?, p.objects);
    assert Map((f: Family) => f.ref, p.families) == [];
    assert Map((o: TableObject) => o.ref, p.objects) == [0, 1, 2];
  }

  lemma LinkedIs(left: Ref, right: Ref, leaf: Ref, asked: Ref)
    ensures var p := Linked(left, right, leaf, asked);
            && EdgesOf(p) == [Edge(LeftOuter, left, right), Edge(Inner, right, leaf)] && SourcesOf(p) == {0, 1, 2}
            && DirectedRights(p) == {right} && AntiRights(p) == {} && LogicalKeys(p) == [0, 1, 2]
            && forall t :: KeyOf(p, t) == t
  {
    hide *;
    LinkedEdges(left, right, leaf, asked);
    LinkedSources(left, right, leaf, asked);
    forall t ensures KeyOf(Linked(left, right, leaf, asked), t) == t {
      LinkedKeys(left, right, leaf, asked, t);
    }
  }

  function LoneTable(t: Ref): TableObject {
    TableObject(t, 0, [LoneField(t)])
  }

  lemma LoneFields(o: TableObject, f: Field)
    requires o == LoneTable(o.ref)
    ensures f in o.fields <==> f == LoneField(o.ref)
  {
  }

  // The three tables, and nothing else.
  lemma LinkedTables(left: Ref, right: Ref, leaf: Ref, asked: Ref)
    ensures var objects := Linked(left, right, leaf, asked).objects;
            |objects| == 3 && (forall t: Ref :: t < 3 ==> objects[t] == LoneTable(t))
            && forall o :: o in objects ==> o.ref < 3 && o == LoneTable(o.ref)
  {
  }

  lemma LinkedCatalog(left: Ref, right: Ref, leaf: Ref, asked: Ref)
    ensures ValidCatalog(Linked(left, right, leaf, asked).objects)
    ensures forall t: Ref :: t < 3 ==> LoneField(t) in FieldsOf(Linked(left, right, leaf, asked))
  {
    LinkedTables(left, right, leaf, asked);
    hide Linked, LoneTable;
    var p := Linked(left, right, leaf, asked);
    var objects := p.objects;
    forall i: nat, k: nat | i < k < |objects| ensures objects[i].ref != objects[k].ref {
      assert objects[i] == LoneTable(i) && objects[k] == LoneTable(k);
      LoneRef(i);
      LoneRef(k);
    }
    forall o, f | o in objects ensures f in o.fields <==> f == LoneField(o.ref) {
      LoneFields(o, f);
    }
    forall o | o in objects ensures NoDup(o.fields) {
      LoneRef(o.ref);
    }
    forall t: Ref | t < 3 ensures LoneField(t) in FieldsOf(p) {
      LoneRef(t);
      assert objects[t] in objects && LoneField(t) in objects[t].fields;
    }
  }

  lemma LoneRef(t: Ref)
    ensures LoneTable(t).ref == t && LoneTable(t).fields == [LoneField(t)]
  {
  }

  lemma LinkedJoinsAllowed(left: Ref, right: Ref, leaf: Ref, asked: Ref)
    requires Permutes(left, right, leaf) && asked < 3
    ensures JoinsAllowed(Linked(left, right, leaf, asked))
  {
    hide KeyOf, SourcesOf, LogicalKeys, EdgesOf, DirectedRights, AntiRights, LoneTable, LoneField;
    var p := Linked(left, right, leaf, asked);
    LinkedIs(left, right, leaf, asked);
    LoneOwner();
    assert JoinAllowed(p, 0) && JoinAllowed(p, 1);
  }

  lemma LoneOwner()
    ensures forall t {:trigger LoneField(t)} :: LoneField(t).owner == t
  {
  }

  lemma LinkedIsValid(left: Ref, right: Ref, leaf: Ref, asked: Ref)
    requires Permutes(left, right, leaf) && asked < 3
    ensures ValidProgram(Linked(left, right, leaf, asked))
  {
    hide ValidCatalog, JoinsAllowed, FieldsOf;
    LinkedCatalog(left, right, leaf, asked);
    LinkedJoinsAllowed(left, right, leaf, asked);
  }

  lemma LinkedOrders(left: Ref, right: Ref, leaf: Ref, order: seq<Intro>)
    requires Permutes(left, right, leaf)
    ensures var edges := [Edge(LeftOuter, left, right), Edge(Inner, right, leaf)];
            && LegalOrder(edges, {0, 1, 2}, left, [Intro(0, right, false), Intro(1, leaf, false)])
            && !LegalOrder(edges, {0, 1, 2}, leaf, order)
  {
    var edges := [Edge(LeftOuter, left, right), Edge(Inner, right, leaf)];
    assert edges[0] in edges;
    assert Directed(edges) == {right};
    var first, second := Intro(0, right, false), Intro(1, leaf, false);
    var legal := [first, second];
    assert legal[..0] == [] && legal[..1] == [first];
    assert Reached({left}, []) == {left} && Reached({left}, [first]) == {left, right};
    assert Reached({left}, legal) == {left, right, leaf} == {0, 1, 2};
    assert LegalStep(edges, {0, 1, 2}, {left}, first) && LegalStep(edges, {0, 1, 2}, {left, right}, second);
    assert Uses(legal, 0) by { assert legal[0].edge == 0; }
    assert Uses(legal, 1) by { assert legal[1].edge == 1; }
    if order == [] {
      assert Reached({leaf}, order) == {leaf};
      assert left !in Reached({leaf}, order);
    } else {
      assert order[..0] == [];
      assert Reached({leaf}, []) == {leaf};
      assert !LegalStep(edges, {0, 1, 2}, {leaf}, order[0]);
    }
  }

  /** The adapter may fail where the older compiler succeeds: asked for the end of an inner join, it starts there
      and cannot reach the LEFT join from its right side. */
  lemma OnlyFlatSucceeds()
    ensures var p := Linked(0, 1, 2, 2); ValidProgram(p) && FlatProgram(p).Some? && !Joinable(p)
  {
    hide ValidProgram, EdgesOf, SourcesOf, LogicalKeys, DirectedRights, LegalOrder, FlatProgram, AntiRights, KeyOf,
         Linked;
    var p := Linked(0, 1, 2, 2);
    LinkedIs(0, 1, 2, 2);
    LinkedIsValid(0, 1, 2, 2);
    LinkedOrders(0, 1, 2, []);
    NothingElse(0, 1, 2, 2);
    LinkedBetween(0, 1, 2, 2);
    FlatProgramExactly(p);
    forall root, order | IsRoot(p, root) ensures !LegalOrder(EdgesOf(p), SourcesOf(p), root, order) {
      LinkedRoot(0, 1, 2, 2, root);
      LinkedOrders(0, 1, 2, order);
    }
  }

  /** And the older compiler may fail where the adapter succeeds: it starts at its first source, whatever is asked. */
  lemma OnlyAdapterSucceeds()
    ensures var p := Linked(1, 2, 0, 1);
            var graph := EvidenceGraph(0, {0, 1, 2}, {(1, 2), (2, 0)});
            ValidProgram(p) && FlatProgram(p).None? && Convertible(p, 0, graph, n => true)
  {
    hide ValidProgram, FlatProgram, Convertible, Linked;
    LinkedIsValid(1, 2, 0, 1);
    FlatCannotOrder();
    AdapterConverts();
  }

  lemma FlatCannotOrder()
    ensures FlatProgram(Linked(1, 2, 0, 1)).None?
  {
    hide ValidProgram, EdgesOf, SourcesOf, LogicalKeys, DirectedRights, LegalOrder, FlatProgram, AntiRights, KeyOf,
         Linked, WhereOnExcluded, MembersDecided;
    var p := Linked(1, 2, 0, 1);
    LinkedIs(1, 2, 0, 1);
    LinkedIsValid(1, 2, 0, 1);
    LinkedBetween(1, 2, 0, 1);
    FlatProgramExactly(p);
    forall order ensures !LegalOrder(EdgesOf(p), SourcesOf(p), 0, order) {
      LinkedOrders(1, 2, 0, order);
    }
  }

  lemma AdapterConverts()
    ensures Convertible(Linked(1, 2, 0, 1), 0, EvidenceGraph(0, {0, 1, 2}, {(1, 2), (2, 0)}), n => true)
  {
    hide EdgesOf, SourcesOf, LogicalKeys, DirectedRights, LegalOrder, AntiRights, KeyOf, Linked, IsRoot,
         EveryTableAsked, JoinsSupported,
         WhereOnExcluded, OutputsGrouped, OutputAccepted, Refs;
    LinkedIs(1, 2, 0, 1);
    NothingElse(1, 2, 0, 1);
    LinkedOrders(1, 2, 0, []);
    LinkedIsRoot(1, 2, 0, 1);
    LinkedIsAsked();
    LinkedRefs();
    LinkedSupported(EvidenceGraph(0, {0, 1, 2}, {(1, 2), (2, 0)}));
  }

  // Nothing but the join order can make these programs fail.
  lemma NothingElse(left: Ref, right: Ref, leaf: Ref, asked: Ref)
    requires Permutes(left, right, leaf) && asked < 3
    ensures var p := Linked(left, right, leaf, asked);
            p.requested != [] && MembersDecided(p) && !WhereOnExcluded(p) && |p.families| < MAX_STEPS
                && OutputsGrouped(p) && OutputAccepted(p)
  {
    LinkedIs(left, right, leaf, asked);
    var p := Linked(left, right, leaf, asked);
    assert OutputNames(p) == [Physical(0)];
  }

  lemma LinkedBetween(left: Ref, right: Ref, leaf: Ref, asked: Ref)
    requires Permutes(left, right, leaf)
    ensures BetweenSources(Linked(left, right, leaf, asked)) == Linked(left, right, leaf, asked)
  {
    hide KeyOf, SourcesOf, EdgesOf, LogicalKeys, DirectedRights, AntiRights;
    LinkedIs(left, right, leaf, asked);
    var p := Linked(left, right, leaf, asked);
    FilterAll((j: JoinSpec) => KeyOf(p, j.left.owner) != KeyOf(p, j.right.owner), p.joins);
  }

  lemma LinkedIsRoot(left: Ref, right: Ref, leaf: Ref, asked: Ref)
    requires Permutes(left, right, leaf) && asked < 3 && asked != right
    ensures IsRoot(Linked(left, right, leaf, asked), asked)
  {
    hide SourcesOf, DirectedRights, KeyOf;
    LinkedIs(left, right, leaf, asked);
    var p := Linked(left, right, leaf, asked);
    assert p.requested == [LoneField(asked)];
    assert FirstRequestedRoot(p, p.requested) == Some(asked);
  }

  lemma LinkedRoot(left: Ref, right: Ref, leaf: Ref, asked: Ref, root: Key)
    requires Permutes(left, right, leaf) && asked < 3 && asked != right
             && IsRoot(Linked(left, right, leaf, asked), root)
    ensures root == asked
  {
    LinkedIsRoot(left, right, leaf, asked);
  }

  lemma LinkedMentions(t: Ref)
    requires t < 3
    ensures LoneField(t) in Mentioned(Linked(1, 2, 0, 1))
  {
    var p := Linked(1, 2, 0, 1);
    assert p.joins[0] in p.joins && p.joins[1] in p.joins;
    assert p.joins[0].left == LoneField(1) && p.joins[0].right == LoneField(2) && p.joins[1].right == LoneField(0);
  }

  lemma LinkedRefs()
    ensures Refs(Linked(1, 2, 0, 1).objects) == {0, 1, 2}
  {
    LinkedTables(1, 2, 0, 1);
    hide Linked, LoneTable;
    var objects := Linked(1, 2, 0, 1).objects;
    forall t: Ref | t < 3 ensures t in Refs(objects) {
      LoneRef(t);
      assert objects[t] in objects;
    }
  }

  lemma LinkedSupported(graph: EvidenceGraph)
    requires graph.pairs == {(1, 2), (2, 0)}
    ensures JoinsSupported(Linked(1, 2, 0, 1), graph)
  {
    hide KeyOf, SourcesOf, EdgesOf, LogicalKeys, DirectedRights, AntiRights;
    LinkedIs(1, 2, 0, 1);
  }

  lemma LinkedIsAsked()
    ensures EveryTableAsked(Linked(1, 2, 0, 1))
  {
    LinkedTables(1, 2, 0, 1);
    hide KeyOf, LoneTable, Linked, Mentioned;
    var p := Linked(1, 2, 0, 1);
    forall o | o in p.objects ensures exists f :: f in o.fields && Asked(p, f) {
      LoneRef(o.ref);
      LinkedMentions(o.ref);
      assert LoneField(o.ref) in o.fields;
    }
  }
}
