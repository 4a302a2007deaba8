/** When the adapter takes a program, written out on its tables, joins, filters and output fields.
    For `_convert` of ontology_core/inference_to_relational.py. */
module ConversionReading {
  import opened SeqOps
  import opened Sql
  import opened RelationalPlan
  import opened JoinOrder
  import opened InferredProgram
  import opened ProgramMeaning
  import opened ColumnNaming
  import opened AdapterPlan
  import opened AdapterOutput
  import opened Adapter
  import opened AnswerReading

  // ----- evidence -----

  /** The fields of the join are a pair of the evidence, in either order. */
  ghost predicate HasPair(graph: EvidenceGraph, j: JoinSpec) {
    exists pair :: pair in graph.pairs && (pair == (j.left.ref, j.right.ref) || pair == (j.right.ref, j.left.ref))
  }

  ghost predicate StaysInside(p: Program, j: JoinSpec) {
    exists source :: StandsAt(p, j.left.owner, source) && StandsAt(p, j.right.owner, source)
  }

  /** The evidence is of the same snapshot, knows every table, and has a pair for every join; and no join stays inside
      one source. */
  ghost predicate Evident(p: Program, snapshot: nat, graph: EvidenceGraph) {
    && graph.snapshot == snapshot && (forall o :: o in p.objects ==> o.ref in graph.tables)
    && forall j :: j in p.joins ==> HasPair(graph, j) && !StaysInside(p, j)
  }

  lemma EvidentIs(p: Program, snapshot: nat, graph: EvidenceGraph)
    requires ValidFamilies(p)
    ensures Evident(p, snapshot, graph) <==>
              graph.snapshot == snapshot && Refs(p.objects) <= graph.tables && JoinsSupported(p, graph)
  {
    hide HasPair, StaysInside, Supported, KeyOf, ValidFamilies;
    TablesKnown(p, graph);
    forall j | j in p.joins
      ensures HasPair(graph, j) <==> Supported(graph, j)
      ensures StaysInside(p, j) <==> KeyOf(p, j.left.owner) == KeyOf(p, j.right.owner) {
      PairIs(graph, j);
      InsideIs(p, j);
    }
  }

  lemma PairIs(graph: EvidenceGraph, j: JoinSpec)
    ensures HasPair(graph, j) <==> Supported(graph, j)
  {
    if Supported(graph, j) {
      var pair := if (j.left.ref, j.right.ref) in graph.pairs then (j.left.ref, j.right.ref)
                  else (j.right.ref, j.left.ref);
      assert pair in graph.pairs;
    }
  }

  lemma InsideIs(p: Program, j: JoinSpec)
    requires ValidFamilies(p)
    ensures StaysInside(p, j) <==> KeyOf(p, j.left.owner) == KeyOf(p, j.right.owner)
  {
    hide StandsAt, KeyOf, ValidFamilies;
    forall table, source ensures StandsAt(p, table, source) <==> KeyOf(p, table) == source {
      StandsAtIs(p, table, source);
    }
    assert StandsAt(p, j.left.owner, KeyOf(p, j.left.owner));
  }

  lemma TablesKnown(p: Program, graph: EvidenceGraph)
    ensures Refs(p.objects) <= graph.tables <==> forall o :: o in p.objects ==> o.ref in graph.tables
  {
    forall o | o in p.objects ensures o.ref in Refs(p.objects) {
    }
  }

  // ----- columns -----

  ghost predicate Mentions(p: Program, f: Field) {
    || f in p.requested || f in p.groupBy || (exists j :: j in p.joins && (f == j.left || f == j.right))
    || (exists item :: item in p.filters && f in Leaves(item.pred))
    || (exists d :: d in p.decisions && f == d.partition)
    || exists a :: a in p.aggregations && a.source == Some(f)
  }

  /** The table has a column that the program mentions, through one of its own fields or one of another member. */
  ghost predicate IsAsked(p: Program, o: TableObject) {
    exists f, g, source ::
      && f in o.fields && Mentions(p, g) && f.physical == g.physical
      && StandsAt(p, f.owner, source) && StandsAt(p, g.owner, source)
  }

  lemma MentionsIs(p: Program, f: Field)
    ensures Mentions(p, f) <==> f in Mentioned(p)
  {
    hide Leaves;
  }

  lemma AskedIs(p: Program)
    requires ValidFamilies(p)
    ensures (forall o :: o in p.objects ==> IsAsked(p, o)) <==> EveryTableAsked(p)
  {
    hide StandsAt, KeyOf, ValidFamilies, Mentions, Mentioned;
    forall table, source ensures StandsAt(p, table, source) <==> KeyOf(p, table) == source {
      StandsAtIs(p, table, source);
    }
    forall g ensures Mentions(p, g) <==> g in Mentioned(p) {
      MentionsIs(p, g);
    }
    forall o | o in p.objects ensures IsAsked(p, o) <==> exists f :: f in o.fields && Asked(p, f) {
      if f :| f in o.fields && Asked(p, f) {
        var g :| g in Mentioned(p) && SlotOf(p, g) == SlotOf(p, f);
        assert StandsAt(p, f.owner, KeyOf(p, f.owner)) && StandsAt(p, g.owner, KeyOf(p, f.owner));
      }
    }
  }

  // ----- roots and orders -----

  /** A source that is not on the right of a LEFT or anti join. */
  ghost predicate MayStart(p: Program, source: Key) {
    IsSource(p, source) && !OnDirectedRight(p, source)
  }

  ghost predicate MayStartFrom(p: Program, f: Field, source: Key) {
    StandsAt(p, f.owner, source) && MayStart(p, source)
  }

  ghost predicate CannotStart(p: Program, f: Field) {
    forall source :: !MayStartFrom(p, f, source)
  }

  /** The source of the first requested field that may start, else the first source that may. */
  ghost predicate StartsAt(p: Program, root: Key) {
    || (exists i :: 0 <= i < |p.requested| && MayStartFrom(p, p.requested[i], root)
                    && forall k :: 0 <= k < i ==> CannotStart(p, p.requested[k]))
    || ((forall f :: f in p.requested ==> CannotStart(p, f)) && IsLeastStart(p, root))
  }

  ghost predicate IsLeastStart(p: Program, root: Key) {
    MayStart(p, root) && forall source :: MayStart(p, source) ==> root <= source
  }

  lemma {:induction false} FirstRequestedIs(p: Program, fields: seq<Field>)
    ensures var r := FirstRequestedRoot(p, fields);
            if r.Some? then
              exists i :: 0 <= i < |fields| && KeyOf(p, fields[i].owner) == r.value && r.value in Roots(p)
                          && forall k :: 0 <= k < i ==> KeyOf(p, fields[k].owner) !in Roots(p)
            else forall k :: 0 <= k < |fields| ==> KeyOf(p, fields[k].owner) !in Roots(p)
  {
    hide KeyOf, Roots;
    if fields != [] {
      FirstRequestedIs(p, fields[1..]);
      var r := FirstRequestedRoot(p, fields);
      if KeyOf(p, fields[0].owner) in Roots(p) {
        assert KeyOf(p, fields[0].owner) == r.value;
      } else if r.Some? {
        var rest := fields[1..];
        var i :| 0 <= i < |rest| && KeyOf(p, rest[i].owner) == r.value && r.value in Roots(p)
                 && forall k :: 0 <= k < i ==> KeyOf(p, rest[k].owner) !in Roots(p);
        assert fields[i + 1] == rest[i];
        forall k | 0 <= k < i + 1 ensures KeyOf(p, fields[k].owner) !in Roots(p) {
          if k > 0 {
            assert fields[k] == rest[k - 1];
          }
        }
      } else {
        forall k | 0 <= k < |fields| ensures KeyOf(p, fields[k].owner) !in Roots(p) {
          if k > 0 {
            assert fields[k] == fields[1..][k - 1];
          }
        }
      }
    }
  }

  lemma MayStartIs(p: Program, source: Key)
    requires ValidFamilies(p)
    ensures MayStart(p, source) <==> source in Roots(p)
  {
    hide IsSource, OnDirectedRight, SourcesOf, DirectedRights, ValidFamilies;
    SourceIs(p, source);
    OnRightIs(p, source);
  }

  /** The root of the adapter. */
  lemma RootExactly(p: Program, root: Key)
    requires ValidFamilies(p)
    ensures IsRoot(p, root) <==> StartsAt(p, root)
  {
    hide KeyOf, Roots, ValidFamilies, MayStart, StandsAt, FirstRequestedRoot;
    forall source: Key ensures MayStart(p, source) <==> source in Roots(p) {
      MayStartIs(p, source);
    }
    forall table, source ensures StandsAt(p, table, source) <==> KeyOf(p, table) == source {
      StandsAtIs(p, table, source);
    }
    forall f, source ensures MayStartFrom(p, f, source) <==> KeyOf(p, f.owner) == source && source in Roots(p) {
    }
    hide MayStartFrom;
    FirstRequestedIs(p, p.requested);
    var r := FirstRequestedRoot(p, p.requested);
    if r.Some? {
      var i :| 0 <= i < |p.requested| && KeyOf(p, p.requested[i].owner) == r.value && r.value in Roots(p)
               && forall k :: 0 <= k < i ==> KeyOf(p, p.requested[k].owner) !in Roots(p);
      assert p.requested[i] in p.requested && MayStartFrom(p, p.requested[i], r.value);
    } else {
      forall f | f in p.requested ensures CannotStart(p, f) {
        var k :| 0 <= k < |p.requested| && p.requested[k] == f;
      }
    }
  }

  /** The joins as edges between sources. */
  ghost predicate EdgesFor(p: Program, edges: seq<Edge>) {
    && |edges| == |p.joins|
    && forall i :: 0 <= i < |edges| ==>
         && edges[i].joinType == p.joins[i].joinType && StandsAt(p, p.joins[i].left.owner, edges[i].left)
         && StandsAt(p, p.joins[i].right.owner, edges[i].right)
  }

  /** From the root every source can be introduced, each by one join and each join once. */
  ghost predicate CanOrder(p: Program) {
    exists edges, sources: set<Key>, root, order ::
      && EdgesFor(p, edges) && AreSources(p, sources) && StartsAt(p, root) && LegalOrder(edges, sources, root, order)
  }

  ghost predicate AreSources(p: Program, sources: set<Key>) {
    forall source :: source in sources <==> IsSource(p, source)
  }

  lemma EdgesForAre(p: Program, edges: seq<Edge>)
    requires ValidFamilies(p)
    ensures EdgesFor(p, edges) <==> edges == EdgesOf(p)
  {
    hide StandsAt, KeyOf, ValidFamilies;
    forall table, source ensures StandsAt(p, table, source) <==> KeyOf(p, table) == source {
      StandsAtIs(p, table, source);
    }
    if EdgesFor(p, edges) {
      forall i | 0 <= i < |edges| ensures edges[i] == EdgesOf(p)[i] {
      }
    }
  }

  lemma CanOrderIs(p: Program)
    requires ValidFamilies(p)
    ensures CanOrder(p) <==> Joinable(p)
  {
    hide EdgesFor, EdgesOf, IsSource, SourcesOf, StartsAt, IsRoot, LegalOrder, ValidFamilies;
    forall source: Key ensures IsSource(p, source) <==> source in SourcesOf(p) {
      SourceIs(p, source);
    }
    forall root: Key ensures StartsAt(p, root) <==> IsRoot(p, root) {
      RootExactly(p, root);
    }
    if CanOrder(p) {
      var edges, sources: set<Key>, root, order :|
        && EdgesFor(p, edges) && AreSources(p, sources) && StartsAt(p, root)
        && LegalOrder(edges, sources, root, order);
      EdgesForAre(p, edges);
      assert sources == SourcesOf(p);
    }
    if Joinable(p) {
      var root, order :| IsRoot(p, root) && LegalOrder(EdgesOf(p), SourcesOf(p), root, order);
      EdgesForAre(p, EdgesOf(p));
      assert AreSources(p, SourcesOf(p));
    }
  }

  // ----- filters and output -----

  ghost predicate ReadsExcluded(p: Program, f: Field) {
    exists source :: StandsAt(p, f.owner, source) && OnRight(p, source, Anti)
  }

  /** No WHERE filter reads an excluded source. */
  ghost predicate FiltersPresent(p: Program) {
    forall item, f :: item in p.filters && item.scope == WhereScope && f in Leaves(item.pred) ==> !ReadsExcluded(p, f)
  }

  lemma ReadsExcludedIs(p: Program, f: Field)
    requires ValidFamilies(p)
    ensures ReadsExcluded(p, f) <==> KeyOf(p, f.owner) in AntiRights(p)
  {
    hide StandsAt, OnRight, KeyOf, AntiRights, ValidFamilies;
    StandsAtIs(p, f.owner, KeyOf(p, f.owner));
    forall source ensures StandsAt(p, f.owner, source) <==> KeyOf(p, f.owner) == source {
      StandsAtIs(p, f.owner, source);
    }
    OnRightIs(p, KeyOf(p, f.owner));
  }

  lemma FiltersPresentIs(p: Program)
    requires ValidFamilies(p)
    ensures FiltersPresent(p) <==> !WhereOnExcluded(p)
  {
    hide ReadsExcluded, KeyOf, AntiRights, ValidFamilies, Leaves;
    forall f ensures ReadsExcluded(p, f) <==> KeyOf(p, f.owner) in AntiRights(p) {
      ReadsExcludedIs(p, f);
    }
    forall item, f | item in p.filters && f in Leaves(item.pred) ensures KeyOf(p, f.owner) in FilterSources(p, item) {
    }
    if WhereOnExcluded(p) {
      var item :| item in p.filters && item.scope == WhereScope && FilterSources(p, item) * AntiRights(p) != {};
      var source :| source in FilterSources(p, item) && source in AntiRights(p);
      var f :| f in Leaves(item.pred) && KeyOf(p, f.owner) == source;
    }
    if item, f :| item in p.filters && item.scope == WhereScope && f in Leaves(item.pred) && ReadsExcluded(p, f) {
      assert KeyOf(p, f.owner) in FilterSources(p, item) * AntiRights(p);
    }
  }

  /** The requested fields, or the grouped ones and the aggregations when there are some. */
  function OutputColumns(p: Program): seq<Name> {
    if p.aggregations == [] then seq(|p.requested|, i requires 0 <= i < |p.requested| => p.requested[i].physical)
    else seq(|p.groupBy|, i requires 0 <= i < |p.groupBy| => p.groupBy[i].physical)
         + seq(|p.aggregations|, i requires 0 <= i < |p.aggregations| => p.aggregations[i].name)
  }

  ghost predicate IsOutput(p: Program, f: Field) {
    if p.aggregations == [] then f in p.requested
    else f in p.groupBy || exists a :: a in p.aggregations && a.source == Some(f)
  }

  /** Output columns have different names of the plan's form, none reads an excluded source, and beside aggregations
      only grouped fields are requested. */
  ghost predicate OutputsFit(p: Program, plain: Name -> bool) {
    && NoDup(OutputColumns(p)) && (forall f :: IsOutput(p, f) ==> !ReadsExcluded(p, f))
    && (p.aggregations == [] ==> forall f :: f in p.requested ==> plain(f.physical))
    && (p.aggregations != [] ==>
          && (forall f :: f in p.groupBy ==> plain(f.physical))
          && forall f :: f in p.requested ==> f in p.groupBy)
  }

  lemma OutputsFitIs(p: Program, plain: Name -> bool)
    requires ValidFamilies(p)
    ensures OutputsFit(p, plain) <==> OutputsGrouped(p) && OutputAccepted(p) && OutputsNamed(p, plain)
  {
    hide ReadsExcluded, KeyOf, AntiRights, ValidFamilies;
    forall f ensures ReadsExcluded(p, f) <==> KeyOf(p, f.owner) in AntiRights(p) {
      ReadsExcludedIs(p, f);
    }
    OutputNamesAre(p);
    hide OutputColumns, OutputNames;
  }

  lemma OutputNamesAre(p: Program)
    ensures NoDup(OutputColumns(p)) <==> NoDup(OutputNames(p))
  {
    var columns, names := OutputColumns(p), OutputNames(p);
    assert |columns| == |names|;
    forall i | 0 <= i < |names| ensures names[i] == Physical(columns[i]) {
    }
  }

  /** The adapter takes exactly the programs with evidence, an asked column in every table, a legal order from the root,
      filters on present sources, and outputs that fit. */
  lemma ConvertibleExactly(p: Program, snapshot: nat, graph: EvidenceGraph, plain: Name -> bool)
    requires ValidProgram(p)
    ensures Convertible(p, snapshot, graph, plain) <==>
              && Evident(p, snapshot, graph) && (forall o :: o in p.objects ==> IsAsked(p, o))
              && CanOrder(p) && FiltersPresent(p) && OutputsFit(p, plain)
  {
    ValidParts(p);
    hide ValidProgram, ValidFamilies, ValidFilters, FieldsKnown, ValidCatalog, Evident, JoinsSupported, IsAsked,
         EveryTableAsked, CanOrder, Joinable, FiltersPresent, WhereOnExcluded, OutputsFit, OutputsGrouped,
         OutputAccepted, OutputsNamed, Refs;
    EvidentIs(p, snapshot, graph);
    AskedIs(p);
    CanOrderIs(p);
    FiltersPresentIs(p);
    OutputsFitIs(p, plain);
  }
}
