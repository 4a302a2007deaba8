/** The adapter preserves meaning: its plan is valid exactly for acceptable outputs, and the result node
    denotes the output of the plain join-then-filter reading. */
module AdapterCorrectness {
  import opened SeqOps
  import opened Sql
  import opened RelationalPlan
  import opened PlanCompilation
  import opened JoinOrder
  import opened InferredProgram
  import opened ProgramMeaning
  import opened ProgramAnswers
  import opened ColumnNaming
  import opened AdapterPlan
  import opened AdapterLayout
  import opened AdapterNodes
  import opened AdapterJoins
  import opened AdapterOutput
  import opened AdapterStages

  // ----- joins -----

  function Bound(p: Program, root: Key, order: seq<Intro>): set<Key> {
    Reached({root}, order) - AntiRights(p)
  }

  lemma ChainKeys(p: Program, world: World, root: Key, order: seq<Intro>)
    requires JoinsAllowed(p) && LegalPrefix(p, root, order) && EdgesKnown(p, order)
    ensures KeysAre(PushedChain(p, world, root, order), Bound(p, root, order))
  {
    hide JoinsAllowed, LegalPrefix, ScansKeep, RawChain, PushedChain;
    ChainPushes(p, world, root, order);
    forall e | e in PushedChain(p, world, root, order) ensures e.Keys == Bound(p, root, order) {
      RawChainBound(p, world, root, order, e);
    }
  }

  lemma SourceRel(p: Program, layout: Layout, world: World, source: Key)
    requires ValidProgram(p) && source in SourcesOf(p)
    ensures PlaceRel(p, layout, world, source)
            == Represent(layout, {source}, StartEnvs(source, PushedRows(p, world, source)))
  {
    hide ValidCatalog, FieldsKnown, ValidFilters, JoinsAllowed, ValidFamilies, ScanKeeps, StartEnvs, Represent, Stored;
    MembersFound(p.families, source);
  }

  lemma PlacedSources(p: Program, place: map<Key, NodeId>)
    requires place.Keys == Refs(p.objects) + FirstFamilies(p, |p.families|)
    ensures SourcesOf(p) <= place.Keys
  {
    forall s | s in SourcesOf(p) ensures s in place {
      if s in FamilyRefs(p.families) {
        var f :| f in p.families && f.ref == s;
        var i :| 0 <= i < |p.families| && p.families[i] == f;
        assert p.families[i].ref in FirstFamilies(p, |p.families|);
      }
    }
  }

  lemma ExcludedStaysOut(p: Program, i: nat, k: nat)
    requires JoinsAllowed(p) && i < |p.joins| && k < |p.joins| && p.joins[i].joinType == Anti
    ensures KeyOf(p, p.joins[k].left.owner) != KeyOf(p, p.joins[i].right.owner)
    ensures k != i ==> KeyOf(p, p.joins[k].right.owner) != KeyOf(p, p.joins[i].right.owner)
  {
    assert JoinAllowed(p, i);
    assert k != i ==> !TakesPart(p, k, KeyOf(p, p.joins[i].right.owner));
  }

  // A join never reads a field of an excluded source on its visited side.
  lemma OldIsBound(p: Program, visited: set<Key>, s: Intro)
    requires JoinsAllowed(p) && LegalStep(EdgesOf(p), SourcesOf(p), visited, s)
    ensures s.edge < |p.joins| && KeyOf(p, OldField(p, s).owner) in visited - AntiRights(p)
  {
    hide KeyOf, LegalStep;
    StepFacts(p, visited, s);
    var near := KeyOf(p, OldField(p, s).owner);
    if near in AntiRights(p) {
      var j :| j in p.joins && j.joinType == Anti && KeyOf(p, j.right.owner) == near;
      var i :| 0 <= i < |p.joins| && p.joins[i] == j;
      ExcludedStaysOut(p, i, s.edge);
      assert false;
    }
  }

  lemma BoundGrows(p: Program, root: Key, order: seq<Intro>)
    requires JoinsAllowed(p) && LegalPrefix(p, root, order) && order != []
    ensures var n := |order| - 1;
            var before := Bound(p, root, order[..n]);
            && order[n].edge < |p.joins| && order[n].source in SourcesOf(p)
                && order[n].source !in Reached({root}, order[..n])
            && KeyOf(p, NewField(p, order[n]).owner) == order[n].source
                && KeyOf(p, OldField(p, order[n]).owner) in before
            && Bound(p, root, order) == if p.joins[order[n].edge].joinType
                == Anti then before else before + {order[n].source}
  {
    hide LegalStep, LegalPrefix, KeyOf, Reached, DirectedRights, AntiRights, JoinsAllowed;
    var n := |order| - 1;
    var s := order[n];
    LegalPrefixShorter(p, root, order);
    StepFacts(p, Reached({root}, order[..n]), s);
    OldIsBound(p, Reached({root}, order[..n]), s);
    AntiIsDirected(p);
    if p.joins[s.edge].joinType == LeftOuter {
      LeftIsNotAnti(p, s);
    }
  }

  ghost predicate JoinedHolds(p: Program, layout: Layout, world: World, place: map<Key, NodeId>, root: Key,
          order: seq<Intro>, j: Joined, c: Counts)
    requires EdgesKnown(p, order)
  {
    var env := EnvOf(p, world, j.nodes);
    && Ready(p, world, j.nodes, c) && PlacesHold(p, layout, world, place, env)
    && j.current in env && env[j.current]
        == Represent(layout, Bound(p, root, order), PushedChain(p, world, root, order))
    && CarriesExactly(layout, Bound(p, root, order), j.carried) && j.carried != []
    && forall k :: k in place && place[k] == j.current ==> k in Reached({root}, order)
  }

  lemma StartHolds(p: Program, names: Naming, layout: Layout, world: World, st: Scans, c: Counts, root: Key)
    requires Setting(p, names, layout, world) && AllScanned(p, names) && ScansHold(p, layout, world, st, c)
    requires SourcesOf(p) <= st.place.Keys && root in SourcesOf(p) && root !in DirectedRights(p)
    ensures EdgesKnown(p, []) && JoinedHolds(p, layout, world, st.place, root, [], StartJoined(p, names, st, root), c)
  {
    hide ValidProgram, ValidWorld, GoodNaming, IsLayout, AllScanned, Ready, CarriesExactly, SourceColumns, PushedRows,
         StartEnvs, PlaceRel, SourcesOf, Represent;
    SourceRel(p, layout, world, root);
    SourceCarries(p, names, layout, root);
    AntiIsDirected(p);
    assert Bound(p, root, []) == {root};
    SourceHasColumns(p, names, layout, root);
  }

  lemma SourceHasColumns(p: Program, names: Naming, layout: Layout, source: Key)
    requires ValidProgram(p) && GoodNaming(p, names) && IsLayout(p, names, layout) && AllScanned(p, names)
             && source in SourcesOf(p)
    ensures SourceColumns(p, names, source) != []
  {
    hide ValidCatalog, FieldsKnown, ValidFilters, JoinsAllowed, ValidFamilies, GoodNaming, IsLayout, FamilyColumns,
         NeededFields;
    FamilyWithFound(p.families, source);
    if FamilyWith(p.families, source).Some? {
      FamilySize(p, names, FamilyWith(p.families, source).value);
    } else {
      var o :| o in p.objects && FamilyOf(p.families, o.ref).None? && o.ref == source;
      UniqueInCatalog(p);
      FindObjectOf(p.objects, o);
    }
  }

  lemma AddedIsJoin(p: Program, names: Naming, place: map<Key, NodeId>, j: Joined, index: nat, s: Intro)
    requires s.edge < |p.joins| && j.current != PlaceAt(place, s.source)
    ensures IsJoinOf(p, names, JoinOf(p, names, place, j, NodeId(JoinId, index), s), s, j.carried,
                     SourceColumns(p, names, s.source))
  {
    hide SourceColumns, MatchFilters, OldField, NewField;
    assert KeepColumns(PlaceAt(place, s.source), []) == [];
  }

  lemma AddJoinHolds(p: Program, names: Naming, layout: Layout, world: World, place: map<Key, NodeId>, root: Key,
                     order: seq<Intro>, j: Joined, c: Counts)
    requires Setting(p, names, layout, world) && LegalPrefix(p, root, order) && order != []
    requires EdgesKnown(p, order) && EdgesKnown(p, order[..|order| - 1]) && order[|order| - 1].edge < |p.joins|
    requires SourcesOf(p) <= place.Keys && JoinedHolds(p, layout, world, place, root, order[..|order| - 1], j, c)
    ensures var next := AddJoin(p, names, place, j, c.joins + 1, order[|order| - 1]);
            JoinedHolds(p, layout, world, place, root, order, next, c.(joins := c.joins + 1))
  {
    hide ValidProgram, ValidWorld, GoodNaming, IsLayout, LegalPrefix, Ready, PlacesHold, CarriesExactly, SourceColumns,
         PushedRows, StartEnvs, PlaceRel, SourcesOf,
         Represent, EdgesKnown, JoinOf, IsJoinOf, Bound, Reached, KeyOf, EnvOf, Schemas, ValidateNode, NodeRows,
             WellFormed, PushedStep, PushedChain, SchemaFor, RowsOf;
    var n := |order| - 1;
    var s := order[n];
    var before := Bound(p, root, order[..n]);
    JoinStepFacts(p, root, order);
    var env := EnvOf(p, world, j.nodes);
    var node := JoinOf(p, names, place, j, NodeId(JoinId, c.joins + 1), s);
    var added := SourceColumns(p, names, s.source);
    PlaceIsSource(p, layout, world, place, env, s.source);
    AddedIsJoin(p, names, place, j, c.joins + 1, s);
    JoinShape(p, names, place, j, c.joins + 1, s);
    SourceCarries(p, names, layout, s.source);
    ChainKeysOf(p, names, layout, world, root, order[..n]);
    var envs := PushedChain(p, world, root, order[..n]);
    RelIs(layout, before, envs);
    RelIs(layout, {s.source}, StartEnvs(s.source, PushedRows(p, world, s.source)));
    SchemasAt(env, j.current);
    SchemasAt(env, place[s.source]);
    JoinIsValid(p, names, layout, node, s, before, j.carried, added, Schemas(env));
    JoinDenotes(p, names, layout, world, node, s, before, envs, j.carried, added, env);
    var after := Bound(p, root, order);
    Extend(p, world, j.nodes, c, node, c.(joins := c.joins + 1), SchemaFor(layout, after));
    ChainSnoc(p, world, root, order);
    RelIs(layout, after, PushedChain(p, world, root, order));
    PlacesStay(p, layout, world, place, env, node.id,
               Rel(SchemaFor(layout, after), NodeRows(node, p.objects, world, env)));
    PlacesIn(p, layout, world, place, env);
  }

  // The facts of a step, with everything else of a valid program hidden.
  lemma JoinStepFacts(p: Program, root: Key, order: seq<Intro>)
    requires ValidProgram(p) && LegalPrefix(p, root, order) && order != []
    ensures LegalPrefix(p, root, order[..|order| - 1])
    ensures var n := |order| - 1;
            var before := Bound(p, root, order[..n]);
            && order[n].edge < |p.joins| && order[n].source in SourcesOf(p)
            && order[n].source !in Reached({root}, order[..n]) && order[n].source !in before
            && KeyOf(p, NewField(p, order[n]).owner) == order[n].source
                && KeyOf(p, OldField(p, order[n]).owner) in before
            && Bound(p, root, order) == if p.joins[order[n].edge].joinType
                == Anti then before else before + {order[n].source}
  {
    hide ValidCatalog, FieldsKnown, ValidFilters, ValidFamilies, JoinsAllowed, LegalPrefix, KeyOf, Reached, SourcesOf;
    LegalPrefixShorter(p, root, order);
    BoundGrows(p, root, order);
  }

  lemma PlaceIsSource(p: Program, layout: Layout, world: World, place: map<Key, NodeId>, env: map<NodeId, Rel>,
          source: Key)
    requires ValidProgram(p) && PlacesHold(p, layout, world, place, env) && source in place && source in SourcesOf(p)
    ensures PlaceAt(place, source) == place[source] && place[source] in env
    ensures env[place[source]] == Represent(layout, {source}, StartEnvs(source, PushedRows(p, world, source)))
  {
    hide ValidProgram, PlaceRel, Represent, StartEnvs, PushedRows, SourcesOf;
    SourceRel(p, layout, world, source);
  }

  lemma PlacesIn(p: Program, layout: Layout, world: World, place: map<Key, NodeId>, env: map<NodeId, Rel>)
    requires PlacesHold(p, layout, world, place, env)
    ensures forall k :: k in place ==> place[k] in env
  {
  }

  lemma JoinShape(p: Program, names: Naming, place: map<Key, NodeId>, j: Joined, index: nat, s: Intro)
    requires s.edge < |p.joins|
    ensures var node := JoinOf(p, names, place, j, NodeId(JoinId, index), s);
            && node.JoinNode? && node.id == NodeId(JoinId, index) && node.left == j.current
                && node.right == PlaceAt(place, s.source)
            && node.joinType == p.joins[s.edge].joinType
  {
  }

  lemma SchemasAt(env: map<NodeId, Rel>, id: NodeId)
    requires id in env
    ensures id in Schemas(env) && Schemas(env)[id] == env[id].schema
  {
  }

  lemma ChainKeysOf(p: Program, names: Naming, layout: Layout, world: World, root: Key, order: seq<Intro>)
    requires Setting(p, names, layout, world) && LegalPrefix(p, root, order) && EdgesKnown(p, order)
    ensures KeysAre(PushedChain(p, world, root, order), Bound(p, root, order))
  {
    hide ValidCatalog, FieldsKnown, ValidFilters, ValidFamilies, JoinsAllowed, LegalPrefix;
    ChainKeys(p, world, root, order);
  }

  lemma ChainSnoc(p: Program, world: World, root: Key, order: seq<Intro>)
    requires order != [] && EdgesKnown(p, order) && EdgesKnown(p, order[..|order| - 1])
             && order[|order| - 1].edge < |p.joins|
    ensures PushedChain(p, world, root, order)
         == FlatMap((e: Env) => PushedStep(p, world, order[|order| - 1],
                                           e), PushedChain(p, world, root, order[..|order| - 1]))
  {
    hide PushedStep;
    var s := order[|order| - 1];
    FlatMapCong((e: Env) => PushedStep(p, world, order[|order| - 1],
                                       e), (e: Env) => PushedStep(p, world, s, e), PushedChain(p, world, root,
                                           order[..|order| - 1]));
  }

  lemma LegalPrefixTake(p: Program, root: Key, order: seq<Intro>, k: nat)
    requires LegalPrefix(p, root, order) && k <= |order|
    ensures LegalPrefix(p, root, order[..k]) && EdgesKnown(p, order[..k])
  {
    forall i | 0 <= i < k ensures order[..k][..i] == order[..i] && order[..k][i] == order[i] {
    }
    LegalEdgesKnown(p, root, order[..k]);
  }

  lemma {:induction false} JoinsUpToHold(p: Program, names: Naming, layout: Layout, world: World, st: Scans, c: Counts,
          root: Key, order: seq<Intro>, k: nat)
    requires Setting(p, names, layout, world) && AllScanned(p, names) && ScansHold(p, layout, world, st, c)
             && c.joins == 0
    requires SourcesOf(p) <= st.place.Keys && LegalPrefix(p, root, order) && EdgesKnown(p, order) && k <= |order|
    ensures EdgesKnown(p, order[..k])
    ensures JoinedHolds(p, layout, world, st.place, root, order[..k], JoinsUpTo(p, names, st, root, order, k),
                        c.(joins := k))
  {
    hide Setting, AllScanned, ScansHold, JoinedHolds, SourcesOf, AddJoin, StartJoined, LegalStep;
    LegalPrefixTake(p, root, order, k);
    if k == 0 {
      StartHolds(p, names, layout, world, st, c, root);
      assert order[..0] == [] && c.(joins := 0) == c;
    } else {
      JoinsUpToHold(p, names, layout, world, st, c, root, order, k - 1);
      assert order[..k][..k - 1] == order[..k - 1];
      assert order[k - 1] in order;
      AddJoinHolds(p, names, layout, world, st.place, root, order[..k], JoinsUpTo(p, names, st, root, order, k - 1),
                   c.(joins := k - 1));
    }
  }

  // ----- remaining filters -----

  lemma PostIsReadable(p: Program, names: Naming)
    requires ValidProgram(p) && GoodNaming(p, names) && !WhereOnExcluded(p)
    ensures Readable(p, names, SourcesOf(p) - AntiRights(p), PostFilters(p), [])
  {
    hide ValidFamilies, JoinsAllowed, FieldsOf, Mentioned, KeyOf, FilterSources, AntiRights, SourcesOf, ValidCatalog,
         FieldsKnown;
    forall item, f | item in PostFilters(p) && f in Leaves(item.pred)
        ensures f in names && KeyOf(p, f.owner) in SourcesOf(p) - AntiRights(p) {
      FilterIsKnown(p, item, f);
      FilterFieldIsSource(p, item, f);
      assert FilterSources(p, item) * AntiRights(p) == {};
      NotInBoth(FilterSources(p, item), AntiRights(p), KeyOf(p, f.owner));
    }
  }

  lemma NotInBoth(a: set<Key>, b: set<Key>, k: Key)
    requires a * b == {} && k in a
    ensures k !in b
  {
    assert k in b ==> k in a * b;
  }

  lemma FilterFieldIsSource(p: Program, item: FilterSpec, f: Field)
    requires ValidCatalog(p.objects) && FieldsKnown(p) && item in p.filters && f in Leaves(item.pred)
    ensures KeyOf(p, f.owner) in SourcesOf(p)
  {
    FieldKeyIsSource(p, f);
  }

  lemma PostIsHeld(p: Program, world: World, e: Env)
    ensures PostKeeps(p, world, e) == AllHoldOn(p, world, PostFilters(p), [], e)
  {
    hide HoldsOn, IsPostFilter;
    if AllHoldOn(p, world, PostFilters(p), [], e) {
      forall item | item in p.filters && IsPostFilter(p, item) ensures HoldsOn(p, world, item.pred, e) {
        assert item in PostFilters(p);
      }
    }
  }

  /** All sources joined and every filter applied: ready for output. */
  ghost predicate AnswersHold(p: Program, layout: Layout, world: World, envs: seq<Env>, j: Joined, c: Counts) {
    && Ready(p, world, j.nodes, c) && j.current in EnvOf(p, world, j.nodes)
    && EnvOf(p, world, j.nodes)[j.current] == Represent(layout, SourcesOf(p) - AntiRights(p), envs)
    && KeysAre(envs, SourcesOf(p) - AntiRights(p))
  }

  lemma AddPostHolds(p: Program, names: Naming, layout: Layout, world: World, place: map<Key, NodeId>, root: Key,
          order: seq<Intro>, j: Joined, c: Counts)
    requires Setting(p, names, layout, world) && !WhereOnExcluded(p)
    requires LegalPrefix(p, root, order) && EdgesKnown(p, order) && Reached({root}, order) == SourcesOf(p)
    requires JoinedHolds(p, layout, world, place, root, order, j, c)
    ensures exists c' :: AnswersHold(p, layout, world, Pushed(p, world, root, order), AddPost(p, names, j, c.filters),
                                     c')
  {
    hide ValidProgram, ValidWorld, GoodNaming, IsLayout, LegalPrefix, Ready, PlacesHold, CarriesExactly, PushedChain,
         SourcesOf, AntiRights, Reached, Represent,
         EdgesKnown, EnvOf, Schemas, ValidateNode, NodeRows, WellFormed, PostFilters, Placed, AllHoldOn, PostKeeps,
             Readable, WhereOnExcluded, SchemaFor, RowsOf;
    var keys := SourcesOf(p) - AntiRights(p);
    var envs := PushedChain(p, world, root, order);
    var post := PostFilters(p);
    var keep := (e: Env) => PostKeeps(p, world, e);
    ChainKeysOf(p, names, layout, world, root, order);
    forall e | e in envs ensures keep(e) == AllHoldOn(p, world, post, [], e) {
      PostIsHeld(p, world, e);
    }
    if post == [] {
      forall e | e in envs ensures keep(e) {
        NothingToHold(p, world, e);
      }
      FilterAll(keep, envs);
      assert AnswersHold(p, layout, world, Pushed(p, world, root, order), AddPost(p, names, j, c.filters), c);
    } else {
      var env := EnvOf(p, world, j.nodes);
      var id := NodeId(FilterId, c.filters + 1);
      PostIsReadable(p, names);
      FilterDenotes(p, names, layout, world, id, j.current, keys, envs, post, [], keep, env);
      PostIsPlaced(names, j.current, post);
      var node := FilterNode(id, j.current, Placed(names, j.current, post, []));
      var c' := c.(filters := c.filters + 1);
      Extend(p, world, j.nodes, c, node, c', SchemaFor(layout, keys));
      RelIs(layout, keys, Pushed(p, world, root, order));
      assert AnswersHold(p, layout, world, Pushed(p, world, root, order), AddPost(p, names, j, c.filters), c');
    }
  }

  lemma PostIsPlaced(names: Naming, id: NodeId, post: seq<FilterSpec>)
    ensures Placed(names, id, post, []) == Map((item: FilterSpec) => Rename(item.pred, RefAt(names, id)), post)
  {
  }

  // ----- output and result -----

  lemma RejectedStaysRejected(nodes: seq<Node>, node: Node, last: Node, objects: seq<TableObject>, world: World)
    requires Meaning(nodes, objects, world).Some?
             && ValidateNode(node, objects, Schemas(Meaning(nodes, objects, world).value)).None?
    ensures Meaning(nodes + [node] + [last], objects, world).None?
  {
    assert (nodes + [node])[..|nodes|] == nodes;
    assert (nodes + [node] + [last])[..|nodes| + 1] == nodes + [node];
  }

  lemma StoredResult(p: Program, world: World, nodes: seq<Node>, output: Node, schema: Schema, rows: seq<Row>)
    requires Meaning(nodes, p.objects, world).Some? && output.id !in Meaning(nodes, p.objects, world).value
    requires RESULT_ID !in Meaning(nodes, p.objects, world).value && output.id != RESULT_ID && WellFormed(output)
    requires ValidateNode(output, p.objects, Schemas(Meaning(nodes, p.objects, world).value)) == Some(schema)
    requires NodeRows(output, p.objects, world, Meaning(nodes, p.objects, world).value) == rows
    ensures var all := nodes + [output] + [MaterializeNode(RESULT_ID, output.id, Result)];
            var env := Meaning(all, p.objects, world);
            env.Some? && RESULT_ID in env.value && RowsAt(env.value, RESULT_ID) == rows
  {
    var env := Meaning(nodes, p.objects, world).value;
    var last := MaterializeNode(RESULT_ID, output.id, Result);
    FinalSteps(p, world, nodes, output, last, schema);
  }

  lemma FinalSteps(p: Program, world: World, nodes: seq<Node>, output: Node, last: Node, schema: Schema)
    requires Meaning(nodes, p.objects, world).Some? && output.id !in Meaning(nodes, p.objects, world).value
    requires RESULT_ID !in Meaning(nodes, p.objects, world).value && output.id != RESULT_ID && WellFormed(output)
    requires ValidateNode(output, p.objects, Schemas(Meaning(nodes, p.objects, world).value)) == Some(schema)
    requires last == MaterializeNode(RESULT_ID, output.id, Result)
    ensures var env := Meaning(nodes, p.objects, world).value;
            var rel := Rel(schema, NodeRows(output, p.objects, world, env));
            Meaning(nodes + [output] + [last], p.objects, world) == Some(env[output.id := rel][RESULT_ID := rel])
  {
    hide NodeRows, ValidateNode, Meaning, WellFormed;
    var env := Meaning(nodes, p.objects, world).value;
    MeaningSnoc(nodes, output, p.objects, world);
    var rel := Rel(schema, NodeRows(output, p.objects, world, env));
    var env1 := env[output.id := rel];
    StoreLast(p, world, env1, last);
    MeaningSnoc(nodes + [output], last, p.objects, world);
  }

  lemma StoreLast(p: Program, world: World, env: map<NodeId, Rel>, last: Node)
    requires last.MaterializeNode? && last.input in env
    ensures WellFormed(last) && ValidateNode(last, p.objects, Schemas(env)) == Some(env[last.input].schema)
    ensures NodeRows(last, p.objects, world, env) == env[last.input].rows
  {
  }

  lemma OutputFieldsNamed(p: Program, names: Naming)
    requires ValidProgram(p) && GoodNaming(p, names)
    ensures forall f :: f in OutputFields(p) ==> f in names && KeyOf(p, f.owner) in SourcesOf(p)
  {
    hide ValidFamilies, ValidFilters, JoinsAllowed, KeyOf, FieldsOf, SourcesOf;
    forall f | f in OutputFields(p) ensures f in names && KeyOf(p, f.owner) in SourcesOf(p) {
      FieldKeyIsSource(p, f);
    }
  }

  /** Plan validation decides exactly whether the output is acceptable; if it is, the result node
      denotes the output of the given environments. */
  lemma AddOutputHolds(p: Program, names: Naming, layout: Layout, world: World, envs: seq<Env>, j: Joined, c: Counts)
    requires Setting(p, names, layout, world) && ValidOutputs(p) && AnswersHold(p, layout, world, envs, j, c)
    ensures Meaning(AddOutput(p, names, j), p.objects, world).Some? <==> OutputAccepted(p)
    ensures OutputAccepted(p) ==> RowsAt(Meaning(AddOutput(p, names, j), p.objects, world).value,
                                         RESULT_ID) == OutputRows(p, envs)
    ensures ResultSteps(AddOutput(p, names, j)) == [RESULT_ID] && DistinctJoinInputs(AddOutput(p, names, j))
  {
    hide ValidProgram, ValidWorld, GoodNaming, IsLayout, SourcesOf, AntiRights, Represent, Schemas, ValidateNode,
         NodeRows, WellFormed, ValidOutputs,
         OutputNode, OutputRows, Meaning, KeyOf, OutputNames, OutputFields, SchemaFor;
    var keys := SourcesOf(p) - AntiRights(p);
    var env := EnvOf(p, world, j.nodes);
    var output := OutputNode(p, names, j.current);
    var last := MaterializeNode(RESULT_ID, output.id, Result);
    OutputFieldsNamed(p, names);
    RelIs(layout, keys, envs);
    SchemasAt(env, j.current);
    OutputIsValid(p, names, layout, j.current, keys, Schemas(env));
    OutputId(p, names, j.current);
    assert OutputAccepted(p) <==> ValidateNode(output, p.objects, Schemas(env)).Some?;
    if OutputAccepted(p) {
      OutputDenotes(p, names, layout, world, j.current, keys, envs, env);
      StoredResult(p, world, j.nodes, output, ValidateNode(output, p.objects, Schemas(env)).value, OutputRows(p, envs));
    } else {
      RejectedStaysRejected(j.nodes, output, last, p.objects, world);
    }
    assert (j.nodes + [output])[..|j.nodes|] == j.nodes;
    assert (j.nodes + [output] + [last])[..|j.nodes| + 1] == j.nodes + [output];
  }

  lemma OutputId(p: Program, names: Naming, input: NodeId)
    ensures OutputNode(p, names, input).id.kind in {ProjectId, AggregateId}
    ensures OutputNode(p, names, input).ProjectNode? || OutputNode(p, names, input).AggregateNode?
  {
  }

  // ----- the whole conversion -----

  /** The plan of a program, for any legal join order: valid exactly when the output is acceptable, and then
      its result is the output of joining the raw sources in that order and filtering at the end. */
  lemma AdapterPlanIsCorrect(p: Program, names: Naming, world: World, root: Key, order: seq<Intro>)
    requires ValidProgram(p) && ValidOutputs(p) && ValidWorld(world) && GoodNaming(p, names)
    requires AllScanned(p, names) && !WhereOnExcluded(p)
    requires ValidRoot(p, root) && LegalOrder(EdgesOf(p), SourcesOf(p), root, order)
    ensures EdgesKnown(p, order) && ScansUpTo(p, names, |SortedObjects(p)|).Some?
    ensures var plan := PlanOf(p, names, ScansUpTo(p, names, |SortedObjects(p)|).value, root, order);
            && (ValidatePlan(plan).Some? <==> OutputAccepted(p))
            && DistinctJoinInputs(plan.nodes)
            && (OutputAccepted(p) ==>
                  var env := Meaning(plan.nodes, plan.objects, world);
                  env.Some? && RowsAt(env.value, plan.result) == OutputRows(p, Reference(p, world, root, order)))
  {
    hide ValidProgram, ValidOutputs, ValidWorld, GoodNaming, AllScanned, WhereOnExcluded, LegalOrder, ScansHold,
         JoinedHolds, SourcesOf, Meaning, OutputAccepted,
         Reference, Pushed, AddOutput, AddPost, IsLayout, AnswersHold, SortedObjects, ScansUpTo, FamiliesUpTo,
             JoinsUpTo, Refs, FirstFamilies, DistinctJoinInputs, OutputRows, SameDataSource;
    var layout := LayoutExists(p, names);
    var all := |SortedObjects(p)|;
    ScansUpToHold(p, names, layout, world, all);
    var scans := ScansUpTo(p, names, all).value;
    var c := Counts(all, scans.filters, 0, 0, 0);
    EveryTablePlaced(p);
    FamiliesUpToHold(p, names, layout, world, scans, c, |p.families|);
    var sources := FamiliesUpTo(p, names, scans, |p.families|);
    PlacedSources(p, sources.place);
    LegalOrderIsPrefix(p, root, order);
    var c1 := c.(unions := |p.families|, families := |p.families|);
    JoinsUpToHold(p, names, layout, world, sources, c1, root, order, |order|);
    assert order[..|order|] == order;
    var joined := JoinsUpTo(p, names, sources, root, order, |order|);
    AddPostHolds(p, names, layout, world, sources.place, root, order, joined, c1.(joins := |order|));
    var posted := AddPost(p, names, joined, sources.filters);
    var c2 :| AnswersHold(p, layout, world, Pushed(p, world, root, order), posted, c2);
    AddOutputHolds(p, names, layout, world, Pushed(p, world, root, order), posted, c2);
    PushdownPreservesMeaning(p, world, root, order);
    var plan := PlanOf(p, names, scans, root, order);
    MeaningIsValidation(plan.nodes, plan.objects, world);
    PlanIsWhole(p, names, posted);
    CatalogUnique(p);
  }

  lemma PlanIsWhole(p: Program, names: Naming, j: Joined)
    ensures AddOutput(p, names, j) != []
  {
  }

  lemma CatalogUnique(p: Program)
    requires ValidProgram(p)
    ensures UniqueObjects(p.objects) && SameDataSource(p.objects, p.source)
  {
    hide ValidFamilies, FieldsKnown, ValidFilters, JoinsAllowed, SameDataSource;
  }

  lemma EveryTablePlaced(p: Program)
    requires ValidProgram(p)
    ensures FirstRefs(p, |SortedObjects(p)|) == Refs(p.objects)
  {
    hide ValidProgram, SortedObjects;
    SortedIsSame(p);
    var sorted := SortedObjects(p);
    forall r | r in Refs(p.objects) ensures r in FirstRefs(p, |sorted|) {
      var o :| o in p.objects && o.ref == r;
      assert o in sorted;
      var i :| 0 <= i < |sorted| && sorted[i] == o;
    }
    forall r | r in FirstRefs(p, |sorted|) ensures r in Refs(p.objects) {
      var i :| 0 <= i < |sorted| && sorted[i].ref == r;
      assert sorted[i] in sorted;
    }
  }
}
